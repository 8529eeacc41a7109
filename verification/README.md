# Notifykit: a verified model of queueing, retrying, routing and email printing

Notifykit delivers application notifications to webhooks and mail servers, either synchronously or
through a manager with a bounded queue and a pool of workers. This project models its decision logic
in Dafny and proves what the code comments and the documentation promise about it.

`dafny verify dfyconfig.toml` checks the project.

## How it is organised

- `Protocol.dfy` is the manager's queue as a transition system. Every goroutine is a thread with a
  program counter, and one step is one mutex, channel, map or context operation, so any two of them may
  interleave. A receive from a closed channel still yields buffered ids, and a `select` with several
  ready cases may take any of them. `ProtocolInvariant.dfy` proves the invariant that every step keeps;
  `ProtocolSafety.dfy`, `ProtocolShutdown.dfy`, `ProtocolAnswers.dfy`, `ProtocolOutcomes.dfy`, `ProtocolDrain.dfy` and
  `ProtocolTermination.dfy` draw the consequences for all reachable states, all runs and all schedules; `ProtocolRefinement.dfy` proves that the interleaved
  operations refine an atomic bounded queue with five visible steps.
- `Manager.dfy` has the manager and its store as mutable objects whose methods follow the code section
  by section. Each method says which steps of the same atomic queue it takes.
- `Retry.dfy` has the retry loop over an arbitrary target, policy and context, the backoff arithmetic in
  64 bits, and bounds on the total time waited. `RetryAfter.dfy` parses the header that feeds it.
- `Errors.dfy` has error trees (leaf, wrapper, join), the depth-first searches of `errors.As`, the
  permanent and transport marks, the built-in policies and the classification of SMTP failures.
- `Routing.dfy` and `Delivery.dfy` have receiver normalisation, the choice of receivers, and the nested
  delivery loops whose joined errors are flattened again.
- `Text.dfy` and `Email.dfy` have the line endings of a body and the message printer, with the parser
  that inverts it.
- `Strings.dfy`, `Words.dfy` and `Wrappers.dfy` hold what is taken from Go's standard library.

## Findings

- `Count` of 2^63 - 1 allows no retry at all: `cfg.Count+1` wraps, and `max` turns it into one attempt,
  although docs/content/retries.md says that `Count` retries follow the first attempt.
  `Retry.LargestCountNeverRetries` is the run that shows it. `Retry.CountIsRetries` states the exact condition:
  a run that nothing ends early makes `Count + 1` calls iff `Count` is not negative and below 2^63 - 1.
- A `Retry-After` of more than 2^63 - 1 seconds is not saturated. `strconv.ParseInt` rejects it, it is then
  tried as an HTTP date, and the hint is dropped. `RetryAfter.HintIsLost` is the smallest such number, and
  `RetryAfter.DelaySecondsHonoured` states the exact condition for any digits, padded or with leading zeros.
- The comment above the locked section of `Enqueue` (notify/manager.go:165-166), that a reserved slot
  guarantees a send that cannot block, is proved for every interleaving, as is that the send never meets a
  closed channel (`ProtocolSafety.SlotConservation`).
- In internal/header/header.go, the check of `ValidFieldName` for surrounding white space never decides
  anything (`Email.ValidFieldNameMeaning`); the same check in `validateHeaderName` only chooses the error. The
  blank-line skip in `buildEmail` never skips (`Email.FieldLinesAreNotBlank`).

## Model

| member | source | states |
|---|---|---|
| ProtocolInvariant.StepKeepsInv | notify/manager.go:139-311 | every step of every thread, in any interleaving, keeps the invariant over mutex, slots, mailbox, store, flags, program counters and logs |
| ProtocolInvariant.ReachableInv | notify/manager.go:139-311 | the invariant holds in every reachable state |
| ProtocolSafety.ExactlyOnce | notify/manager.go:177-178 | admitted ids are the disjoint union, as multisets, of queued, held and completed ids; no id is held or completed twice; each completion carries the note it was admitted with |
| ProtocolSafety.SlotConservation | notify/manager.go:158-179 | occupied slots are the buffered ids plus the threads between reservation and release; the locked send never blocks or meets a closed mailbox, every slot receive finds a token, nothing panics |
| ProtocolSafety.PanicsAreRecorded | notify/manager.go:276-310 | the crash flag records exactly a send on a closed channel and a second close of stopping, mailbox or done |
| ProtocolSafety.OneShotChannels | notify/manager.go:276-311 | whichever step comes next, no closed channel is closed again and none reopens |
| ProtocolSafety.StoreAgreement | notify/store.go:20-39 | store keys are exactly the ids queued, stored and not yet sent, or received and not yet deleted; "notification not found" is unreachable; the store never exceeds the capacity |
| ProtocolSafety.UnfinishedBound | notify/manager.go:63-64 | admitted and uncompleted work never exceeds capacity plus workers |
| ProtocolSafety.BoundedOvertaking | notify/dispatcher.go:39-51 | ids are received in admission order, and when an id completes at most workers - 1 earlier admitted ids are incomplete |
| ProtocolSafety.AtRest | notify/manager.go:139-180 | whenever no thread is between reserving and releasing a slot, semaphore, mailbox and store agree exactly |
| ProtocolShutdown.OneWorkerKeepsOrder | notify/manager.go:293-309 | with one worker completions come in admission order, the finisher's discards included |
| ProtocolShutdown.DiscardNeedsCancelledExit | notify/manager.go:239-243 | a started manager discards nothing unless admission stopped and a worker left because the run context was cancelled |
| ProtocolShutdown.GracefulDrain | notify/manager.go:239-257 | in every run that started and never cancelled while a worker was alive, every completion is a delivery result and the finisher takes nothing |
| ProtocolDrain.ShutdownDrains | notify/manager.go:239-257 | in every run in which no one cancels the run context from outside and no Shutdown call's context ends: delivery is not cancelled while a worker is alive, a started manager discards nothing and its finisher takes nothing, and at done every admitted id is completed |
| ProtocolDrain.DrainCanComplete | notify/manager.go:239-257 | from every stopped state of such a run, more goroutine steps alone lead to done with a delivery result for every admitted id |
| ProtocolDrain.FinisherCancels | notify/manager.go:293-296 | before the finisher drains the mailbox it has cancelled the run context of a started manager |
| ProtocolDrain.ShutdownAnswers | notify/manager.go:244-256 | a waiting Shutdown has stopped admission; one that returned nil has seen done; one that returned its context's error has seen it end and has cancelled delivery of a started manager |
| ProtocolShutdown.DrainedForGood | notify/dispatcher.go:41-49 | a worker that exits without cancellation has seen a closed, empty mailbox, and in every continuation it stays closed and empty |
| ProtocolShutdown.Quiescence | notify/manager.go:293-311 | when done is closed: workers exited, mailbox and store empty, every admitted id completed exactly once, remaining slots belong to callers about to be refused; never a second finisher |
| ProtocolShutdown.ShutdownSuccess | notify/manager.go:244-274 | a Shutdown whose wait returns nil does so only when done is closed and completions equal admissions |
| ProtocolTermination.WorkDecreases | notify/manager.go:276-311 | once stopped, every worker or finisher step strictly lowers a measure that no other step raises |
| ProtocolTermination.ShutdownTerminates | notify/manager.go:239-257 | after stop no schedule contains more than 6 * (queued + workers) + 7 worker and finisher steps, whatever callers do |
| ProtocolTermination.Progress | notify/manager.go:165-166 | from stop until done is closed, the mutex holder, a worker or the finisher always has an enabled step |
| ProtocolTermination.ShutdownCanComplete | notify/manager.go:239-311 | from every reachable stopped state a schedule of at most 6 * (queued + workers) + 10 steps closes done |
| ProtocolTermination.CancelCanComplete | notify/manager.go:228-229 | from every reachable state with the run context cancelled, stopped or not, a schedule of at most 6 * (queued + 1 + workers) + 15 steps closes done, and every waiting caller can then return |
| ProtocolTermination.WaitersReturn | notify/manager.go:268-270 | once done is closed, a waiting caller's next step returns success |
| ProtocolAnswers.StepKeepsAnswers | notify/manager.go:139-180 | every step keeps: calls have ids of their own, and exactly the ids of calls past the send are admitted |
| ProtocolAnswers.EnqueueAnswers | docs/content/manager.md:89-90 | in every reachable state an id is admitted iff its call is past the send or returned success; a refused id is never admitted or completed; once done is closed each accepted call has exactly one completion |
| ProtocolOutcomes.CallersAreServed | notify/manager.go:158-168 | a call at its select proceeds when a slot is free, and can be refused when the manager has stopped or its context ended; a free mutex can be taken; a waiting Shutdown can return once done is closed or its context ended |
| ProtocolOutcomes.WorkersMayChoose | notify/dispatcher.go:40-50 | a live worker can receive whenever an id is buffered, can see a cancelled context at any receive, and a delivery may succeed or fail |
| ProtocolOutcomes.EnvironmentIsFree | notify/manager.go:227-229 | any caller's context may end at any time, the run context may be cancelled once the manager was started, and its callback then stops the manager |
| ProtocolOutcomes.RefusalsAreTrue | notify/manager.go:158-176 | a call refused with ErrManagerStopped has seen a stopped manager or a cancelled run context, one refused with its context's error an ended context |
| ProtocolOutcomes.NoLateAdmission | notify/manager.go:169-178 | once stopped or cancelled, with no call between the locked check and the send, no continuation admits anything |
| ProtocolOutcomes.ExpiredIsRefused | notify/manager.go:173-178 | a call whose context ends before it has stored its notification is never admitted in any continuation |
| ProtocolOutcomes.OutcomesAreAnswers | notify/dispatcher.go:64-89 | in every run a completion says delivered or failed exactly as the delivery of its id answered, and discarded exactly when its id was never delivered |
| ProtocolRefinement.StepRefines | notify/manager.go:156-180 | every protocol step is one atomic queue step (admit, take, complete, stop) or changes nothing visible |
| ProtocolRefinement.ProtocolRefinesQueue | notify/manager.go:139-311 | the visible events of every run are a run of the atomic bounded queue |
| ProtocolRefinement.QueueIsSound | notify/manager.go:63-64 | every run of the atomic queue keeps at most capacity ids waiting and at most workers active; each admitted id waits, is active or was completed, once; ids are taken in admission order; completions carry their own notification; only a stopped queue discards |
| ProtocolRefinement.StoppedQueueAdmitsNothing | notify/manager.go:239-243 | no run of the atomic queue admits anything after the stop |
| Manager.NewManager | notify/manager.go:90-136 | succeeds iff capacity and worker count are positive and every non-nil receiver has targets and no nil one; the manager then satisfies the invariant, stands for the empty queue, and keeps fresh normalised receivers |
| Manager.Manager.Enqueue | notify/manager.go:139-180 | success is exactly one admission step of the atomic queue; every refusal has its own error and leaves queue, slots and store as they were |
| Manager.Manager.Start | notify/manager.go:206-237 | succeeds once, never after a stop, and only then sets the started and finishing flags |
| Manager.Manager.Stop | notify/manager.go:276-291 | the first call is one stop step of the atomic queue, a later one shows nothing; cancels only an aborted, started manager; starts at most one finisher |
| Manager.Manager.Dispatch | notify/dispatcher.go:54-74 | an id in the store loses its entry and its slot and gets one completion; an unknown id changes nothing |
| Manager.Manager.ServeHead | notify/dispatcher.go:39-51 | one turn of the worker loop takes and completes the oldest id |
| Manager.Manager.DiscardHead | notify/manager.go:297-309 | one turn of the cleanup loop takes and discards the oldest id |
| Manager.Manager.Work | notify/dispatcher.go:39-51 | the receive loop completes exactly the oldest ids, in order, each with its own notification and its delivery's outcome, until the context case is taken, otherwise until nothing is left; says why it ended |
| Manager.Manager.DiscardAll | notify/manager.go:297-309 | the cleanup loop completes everything left as discarded, oldest first, each with its own notification |
| Manager.Manager.Finish | notify/manager.go:293-311 | stops admission, completes exactly what is left as discarded, in order, frees every slot, empties the store, closes done |
| Manager.OneMoreRound | notify/dispatcher.go:39-51 | after serving the n oldest ids, one turn of the loop serves exactly the next one, with its own notification |
| Manager.ServedRun | notify/manager.go:297-309 | serving the n oldest ids in order is a run of the atomic queue; discarding needs a stopped queue |
| Retry.WithRetry | notify/retry.go:11-70 | the loop with its five exits returns the result, count and error, and makes the calls and computes the waits, of the run specified recursively for any target, policy and context |
| Retry.RetryContract | notify/retry.go:17-69 | the count equals the calls and is at most max(Count + 1, 1); every call but the last failed, was accepted and saw a live context; the error is nil iff the last call succeeded; the result is the last one; the final return is unreachable |
| Retry.DelaysMeaning | notify/retry.go:85-116 | over a whole run, the wait before retry i + 1 is the larger of the hint in the answer before it and min(Backoff * 2^i, 2^63 - 1) capped by a positive MaxBackoff, or a draw at that value with jitter, or 0 without a positive Backoff |
| Retry.JitteredDelays | notify/retry.go:118-124 | with jitter and draws in range, each wait is at least the hint and at least 0, and equals the hint or lies below the full backoff |
| Retry.ResultIsLast | notify/retry.go:19-69 | the result is the last call's, and the zero result when no call was made |
| Retry.NoPolicyNoRetry | notify/types.go:159-162 | a nil policy gives one call, or none when the context has already ended |
| Retry.PermanentErrorIsLast | notify/retry.go:60-66 | under any nesting of built-in policies no call follows a permanent error |
| Retry.NoCallAfterContextEnds | notify/retry.go:41-45 | no call follows a poll that found the context ended |
| Retry.CountIsRetries | notify/types.go:136-141 | a run in which every call fails, is accepted and sees a live context makes Count + 1 calls iff 0 <= Count < 2^63 - 1, and one call otherwise |
| Retry.LargestCountNeverRetries | notify/retry.go:17-17 | with Count 2^63 - 1 a target that always fails is called once, under a policy that retries every error |
| Retry.DoubleDuration | notify/retry.go:127-134 | the result is the doubled duration saturated at 2^63 - 1, without overflow |
| Retry.RetryBackoff | notify/retry.go:92-116 | the doubling loop with saturation and early break equals min(Backoff * 2^(retry - 1), 2^63 - 1), capped by a positive MaxBackoff, then jittered; 0 for a non-positive Backoff or retry |
| Retry.BackoffMonotone | notify/retry.go:95-116 | later retries never wait less |
| Retry.JitterRange | notify/retry.go:119-124 | with jitter the wait lies in [0, closed form), without it is the closed form |
| Retry.TotalWaitBound | notify/types.go:143-152 | over a whole run the time waited is at most Backoff * (2^Count - 1) plus the positive hints |
| Retry.CappedWaitBound | notify/types.go:149-152 | with a positive MaxBackoff it is at most Count * MaxBackoff plus the positive hints |
| Retry.HintsAreMinimums | notify/retry.go:85-90 | each delay is at least the RetryAfter of the answer before it, whatever MaxBackoff is |
| RetryAfter.PaddingIsTrimmed | targets/webhook/webhook.go:404-407 | any white space around the digits is trimmed away and nothing else is |
| RetryAfter.DelaySeconds | targets/webhook/webhook.go:404-425 | any digits of value n, padded or not, with or without leading zeros, give exactly min(n * 10^9, 2^63 - 1) when n fits 64 bits, and otherwise what the date parser says, cut off at 0 |
| RetryAfter.SignedSeconds | targets/webhook/webhook.go:409-425 | a plus sign changes nothing; after a minus sign only zero is a number of seconds, anything else is left to the date parser |
| RetryAfter.OtherHeaders | targets/webhook/webhook.go:404-425 | a blank header gives 0, and one that is no integer gives the wait until its date, cut off at 0, or 0 when it is no date |
| RetryAfter.DelaySecondsHonoured | targets/webhook/webhook.go:402-420 | for any digits that are no HTTP date, padded or not, the saturated delay is returned iff their value is at most 2^63 - 1 |
| RetryAfter.HintIsLost | targets/webhook/webhook.go:409-420 | 2^63 seconds give no hint at all |
| RetryAfter.HintBoundsDelay | docs/content/retries.md:126-132 | whatever the header, the seconds or the HTTP date it parses to bound the next delay from below, cap or no cap |
| Errors.AsFindsFirst | notify/error.go:42-45 | the recursive search finds exactly the first matching node of the tree in visiting order |
| Errors.MarksClassify | notify/error.go:34-67 | permanent and transport exclude each other; marking is idempotent; Transport never reclassifies a permanent error |
| Errors.MarkingKeepsCause | notify/error.go:34-56 | marking puts one mark in front of the error's nodes and keeps them; an error already in the class, or permanent, stays as it is |
| Errors.JoinIsPermanent | notify/error.go:42-45 | a joined error is permanent iff one of its parts is |
| Errors.BuiltInRejectsPermanent | notify/error.go:30-33 | no nesting of built-in policies accepts a nil or a permanent error |
| Errors.DefaultPolicyMeaning | notify/retry_policy.go:71-84 | the default policy accepts iff the error is non-nil, not permanent, and transport or status 408, 429 or 500 to 599 |
| Errors.StatusCodeTable | notify/retry_policy.go:19-23 | the table holds exactly the listed codes |
| Errors.EvaluateStatusCode | notify/retry_policy.go:19-32 | accepts iff no node of the error is marked permanent and the status is one of the listed codes |
| Errors.PolicyMeanings | notify/retry_policy.go:10-56 | what each built-in policy accepts, in terms of the nodes of the error: any unmarked error; listed codes; 500 to 599; transport errors that timed out; the other transport errors |
| Errors.TimeoutMeaning | notify/retry_policy.go:86-94 | an error is a timeout iff some node is a passed deadline or its first network node timed out |
| Errors.AnyMeaning | notify/retry_policy.go:58-69 | a combination accepts iff some part that is not nil does |
| Errors.EvaluateAny | notify/retry_policy.go:59-69 | the loop over the parts decides what the combination accepts |
| Errors.ClassifySMTPMeaning | targets/email/email.go:784-817 | every non-nil error ends in exactly one class, transport iff not marked permanent and its first proxy status, else its first reply code, else its connection kind is transient |
| Errors.ProxyStatusDecides | targets/email/email.go:790-796 | unless some node is marked permanent, the first proxy rejection decides: transport for 408, 429 and 500 or more, permanent otherwise |
| Errors.ReplyCodeDecides | targets/email/email.go:797-803 | then the first SMTP reply decides: transport for 400 to 499, permanent otherwise |
| Errors.ConnectionDecides | targets/email/email.go:804-816 | otherwise transport iff no certificate was refused and some node is a network error, an end of file, a passed deadline or a cancellation |
| Errors.PermanentMarkDecides | targets/email/email.go:787-789 | an error with a permanent mark stays as it is |
| Errors.ClassifySMTPIdempotent | targets/email/email.go:784-817 | classifying twice is classifying once |
| Routing.NormalizeReceivers | notify/send.go:51-66 | visiting the map in any order builds fresh records equal to the normalised map, and leaves the caller's records as they were |
| Routing.NormalizingDropsNil | notify/send.go:51-66 | exactly the nil entries are dropped; IDs and names are kept, or taken from the key when empty; targets and retry settings stay |
| Routing.NormalizingIsIdempotent | notify/send.go:51-66 | normalising twice is normalising once |
| Routing.ValidateReceivers | notify/send.go:68-81 | accepts iff every receiver has a target and none is nil; a refusal names a receiver and which of the two it is |
| Routing.ResolvedAreConfigured | notify/send.go:91-117 | every resolved receiver is one of those configured |
| Routing.ResolveReceivers | notify/send.go:91-117 | with ids: exactly the known ones, each once, in order of first request; without: an ID-sorted permutation of all receivers |
| Routing.ResolveNamed | notify/send.go:101-116 | the loop with its seen map lists the first occurrences of the known ids |
| Routing.ResolveAll | notify/send.go:93-99 | the broadcast is a permutation of the receivers under all keys, ordered by their ID fields |
| Routing.ResolutionIsUnique | notify/send.go:101-116 | for requested ids only one list of receivers is a resolution, so the result is canonical |
| Strings.SortSorts | notify/send.go:98-98 | the sort gives a permutation in lexicographic order of its keys |
| Strings.SpaceMeaning | targets/webhook/webhook.go:404-404 | which characters trimming removes, by code point |
| Strings.AtMostMeaning | notify/send.go:98-98 | the order of strings: a prefix comes first, otherwise the smaller character where two strings first differ |
| Delivery.DispatchReceiver | notify/delivery.go:31-69 | joins a DeliveryError for each target whose run under the receiver's own retry settings fails; nil iff all those runs succeed |
| Delivery.Dispatch | notify/delivery.go:20-29 | the flattened error reports, in delivery order, exactly the (receiver, target) pairs whose run under the receiver's own retry settings ended with an error, with that run's count, result and error; nil iff all succeed |
| Delivery.DeliveryExactness | notify/delivery.go:20-69 | flattening the joined error gives exactly one DeliveryError per failing (receiver, target) pair, in order, with its receiver, target, index, attempts and result, wrapping the error its run ended with |
| Delivery.PairsAreTargets | notify/delivery.go:23-34 | the pairs visited are exactly the targets of the receivers, each once |
| Delivery.WorkerOutcome | notify/dispatcher.go:64-89 | resolves the notification's receivers; the outcome reports exactly the failing pairs like Dispatch, and is nil iff some receiver resolved and every run under its receiver's retry settings succeeded |
| Delivery.CompletionIsNil | notify/dispatcher.go:64-89 | a completion is nil iff some receiver resolved and every target's run succeeded |
| Delivery.Send | notify/send.go:24-49 | refuses an empty id or invalid receivers, otherwise delivers to the normalised receivers and reports like a worker; nil iff some receiver resolved and every run succeeded; the caller's receivers stay as they were |
| Text.PassesAreOnePass | targets/email/email.go:753-758 | the three whole-string replacement passes equal a machine that reads the body once |
| Text.NormalizingMeaning | targets/email/email.go:753-758 | the result is the lines of the body joined with CRLF; lines are kept; CR and LF occur only as CRLF; a body is left alone iff it has that form already; idempotent |
| Text.LinesAreClean | targets/email/email.go:753-758 | no line of a body holds a line break, where CRLF, lone CR and lone LF each end a line |
| Text.SentBodyMeaning | targets/email/email.go:700-705 | the body part of a message is every line of the body in order, each ended by CRLF, and nothing else |
| Email.ValidFieldNameMeaning | internal/header/header.go:6-37 | a name is valid iff it is non-empty and all its characters are allowed; it then holds no colon, space or line break |
| Email.FieldNameChars | internal/header/header.go:20-37 | the 77 characters a header name may hold |
| Email.ReservedMeaning | targets/email/email.go:588-609 | a custom header is refused as reserved iff its name is, character by character and in any letter case, one of the eight standard names |
| Email.ValidateHeaders | targets/email/email.go:571-617 | accepts iff every custom name is valid and not reserved and every value has no line break; refuses any name that is a standard one in some letter case; a refusal names a header and the first check it fails |
| Email.FormatMailboxes | targets/email/email.go:726-733 | the loop formats every mailbox in order and joins them with a comma and a space |
| Email.MailboxListMeaning | targets/email/email.go:726-733 | a list of mailboxes is the formatted mailboxes in order with a comma and a space between them |
| Email.AppendHeaders | targets/email/email.go:760-770 | appends exactly one line per custom header, in sorted order of the names, whatever order the map gives them in |
| Email.Names | targets/email/email.go:765-765 | lists every custom header name once, in lexicographic order |
| Email.SortedNamesAreUnique | targets/email/email.go:760-770 | the order of custom headers is determined by the headers alone |
| Email.WriteHeaders | targets/email/email.go:692-699 | the builder loop writes every header line, each ended by CRLF |
| Email.FieldLinesAreNotBlank | targets/email/email.go:693-696 | no header line is blank, for any target |
| Email.BuildEmail | targets/email/email.go:675-707 | the message is the printed form of the standard fields, Cc if there are copies, and the sorted custom fields, then a blank line and the sent body |
| Email.ParsesPrinted | targets/email/email.go:675-707 | a parser that splits at the first blank line and each header at its first colon inverts the printer for every printable header and every body |
| Email.RoundTrip | targets/email/email.go:675-707 | for every validated target and subject, parsing the message gives back exactly the header fields in order and the lines of the body, each ended by CRLF |
| Email.HeaderMeaning | targets/email/email.go:677-690 | the header field by field: canonical From, the To and Cc lists, the subject itself when ASCII and encoded otherwise, the MIME fields with the content type of the format, and every custom header |
| Email.AddressesAreMailboxes | targets/email/email.go:557-567 | every address of a validated target parses as one mailbox once trimmed, and holds no line break |
| Email.EnvelopeMeaning | targets/email/email.go:671-673 | every recipient is in the envelope once for each time it is listed, To first, then Cc, then Bcc |
| Email.MessageHasOnlyCRLF | targets/email/email.go:675-707 | in the whole message CR and LF occur only as CRLF (section 2.3 of RFC 5322) |
| Email.FieldsOccurOnce | targets/email/email.go:601-689 | counted character by character in any letter case, from, to, subject, mime-version, content-type and content-transfer-encoding occur once, cc iff there are copies, bcc never; every blind copy is an envelope recipient |

## Left out

- SMTP sessions, TLS, proxy CONNECT and the HTTP client: `Target.Send` is an arbitrary oracle for a result and an error.
- Templates, JSON validation, logging, response log modes and redaction: not modelled.
- Option setters, nil receivers of methods, nil contexts, nil notifications and the defaults options fill in: settled by reading one branch.
- `net/mail` parsing and MIME Q-encoding: function parameters that are assumed to write no line breaks (`Library.Clean`).
- HTTP-date parsing, random draws and timers: parameters; a draw is assumed to lie in its documented range.
- UUID generation: every `Enqueue` of a run is given an id not used before in that run.
- Panics inside targets or callbacks, and callbacks that enqueue into the same manager: callbacks and targets are assumed to return.
- Go memory-model races below the granularity of one mutex, channel or map operation.
- The critical sections of `Start` and `stop` are single protocol steps that need the mutex; `Enqueue`'s is several. The check of the caller's context and the `store.put` after it are one step.
- The context callback that runs `stop(false)` may fire any number of times after cancellation; the code registers it once.
- Fairness: termination bounds the steps of every schedule and shows that an enabled step always exists; that a scheduler eventually takes it is Go's affair.
- Manager.Manager.Dispatch: the outcome of the delivery is an argument; `Delivery.WorkerOutcome` is the method that computes it.
- Manager.Manager.ServeHead: takes the outcomes of deliveries as an argument, like `Dispatch`.
- Routing.NormalizeReceivers: does not model custom data, nor that target slices are cloned; a receiver's fields are one value.
- Manager.Manager.Enqueue: runs alone, with the ready case of its select as a parameter; interleavings are the subject of the protocol modules.
- Manager.Manager.Work: one worker at a time, with the round in which its select takes the context case as a parameter.
- Manager.Manager.Start: does not launch goroutines; the workers and the finisher it starts are threads of the protocol modules.
- `Shutdown` and `Wait` block on other goroutines, so they are threads of the protocol modules and not methods of the sequential manager; a bare `Wait` call is the waiting part of a `Shutdown` thread.
- `Receivers()`, and the receiver name and custom data in a payload: not modelled.
- Custom `Is`, `As` and `Timeout` methods on errors: a node of an error tree has one of the listed kinds.
- `slices.SortFunc` and `slices.Sorted` are an insertion sort; a broadcast among equal IDs is not claimed to have one order.
- Strings are sequences of characters; byte encodings are not modelled. `strings.ToLower` is modelled on ASCII letters, which is all that valid header names contain.
- The parser of messages does not unfold continuation lines, which the printer never writes.
