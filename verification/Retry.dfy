/** The retry loop, its backoff arithmetic, and Retry-After hints. */
module Retry {
  import opened Wrappers
  import opened Words
  import opened Errors

  function Pow2(n: nat): nat {
    if n == 0 then 1 else 2 * Pow2(n - 1)
  }

  datatype RetryConfig = RetryConfig(count: Int64, backoff: Int64, maxBackoff: Int64, jitter: bool, policy: Option<Policy>)

  // ---------------------------------------------------------------- backoff

  /** Doubles a duration, saturating at the largest one. */
  function DoubleDuration(d: Int64): (r: Int64)
    requires d >= 0
    ensures r == Min(2 * d, MAX_INT64)
  {
    if d > MAX_INT64 / 2 then MAX_INT64 else d * 2
  }

  /** Full jitter: `draw` is rand.Int64N, which answers in [0, n) for positive n. */
  function JitterBackoff(d: Int64, draw: Int64 -> Int64): (r: Int64)
    ensures d <= 0 ==> r == 0
  {
    if d <= 0 then 0 else draw(d)
  }

  ghost predicate ValidDraw(draw: Int64 -> Int64) {
    forall n: Int64 | n > 0 :: 0 <= draw(n) < n
  }

  /** The exact exponential value, saturated and then capped by a positive maximum. */
  function ClosedForm(cfg: RetryConfig, retry: nat): int
    requires cfg.backoff > 0 && retry >= 1
  {
    var exact := Min(cfg.backoff * Pow2(retry - 1), MAX_INT64);
    if cfg.maxBackoff > 0 then Min(exact, cfg.maxBackoff) else exact
  }

  /** The wait before a retry: nothing, the closed form, or a draw below it. */
  function Backoff(cfg: RetryConfig, retry: int, draw: Int64 -> Int64): Int64 {
    if cfg.backoff <= 0 || retry <= 0 then 0
    else
      BackoffInRange(cfg, retry);
      if cfg.jitter then JitterBackoff(ClosedForm(cfg, retry), draw) else ClosedForm(cfg, retry)
  }

  lemma BackoffInRange(cfg: RetryConfig, retry: nat)
    requires cfg.backoff > 0 && retry >= 1
    ensures 0 < ClosedForm(cfg, retry) <= MAX_INT64
  {
    Pow2Grows(0, retry - 1);
    ScaleMonotone(cfg.backoff, 1, Pow2(retry - 1));
  }

  lemma {:induction false} Pow2Grows(m: nat, n: nat)
    requires m <= n
    ensures 1 <= Pow2(m) <= Pow2(n)
    decreases n
  {
    if m < n {
      Pow2Grows(m, n - 1);
    } else if m > 0 {
      Pow2Grows(m - 1, n - 1);
    }
  }

  /** Later retries never wait less, whatever the cap. */
  lemma BackoffMonotone(cfg: RetryConfig, i: nat, j: nat)
    requires cfg.backoff > 0 && 1 <= i <= j
    ensures ClosedForm(cfg, i) <= ClosedForm(cfg, j)
  {
    Pow2Grows(i - 1, j - 1);
    ScaleMonotone(cfg.backoff, Pow2(i - 1), Pow2(j - 1));
  }

  lemma ScaleMonotone(k: int, x: int, y: int)
    requires k >= 0 && x <= y
    ensures k * x <= k * y
  {
  }

  /** The doubling loop, with its saturation and early break, computes the closed form. */
  method RetryBackoff(cfg: RetryConfig, retry: Int64, draw: Int64 -> Int64) returns (r: Int64)
    ensures r == Backoff(cfg, retry, draw)
    ensures cfg.backoff <= 0 || retry <= 0 ==> r == 0
    ensures cfg.backoff > 0 && retry >= 1 && !cfg.jitter ==>
              var full := Min(cfg.backoff * Pow2(retry - 1), MAX_INT64);
              r == if cfg.maxBackoff > 0 then Min(full, cfg.maxBackoff) else full
  {
    if cfg.backoff <= 0 || retry <= 0 {
      return 0;
    }
    var wait: Int64 := cfg.backoff;
    var i := 0;
    var capped := false;
    while i < retry - 1 && !capped
      invariant 0 <= i <= retry - 1 && wait > 0
      invariant !capped ==> wait == Min(cfg.backoff * Pow2(i), MAX_INT64)
      invariant capped ==> cfg.maxBackoff > 0 && wait == cfg.maxBackoff <= Min(cfg.backoff * Pow2(i), MAX_INT64)
      decreases retry - 1 - i, !capped
    {
      DoublingStep(cfg.backoff, i);
      wait := DoubleDuration(wait);
      i := i + 1;
      if cfg.maxBackoff > 0 && wait >= cfg.maxBackoff {
        wait := cfg.maxBackoff;
        capped := true;
      }
    }
    Pow2Grows(i, retry - 1);
    ScaleMonotone(cfg.backoff, Pow2(i), Pow2(retry - 1));
    if cfg.maxBackoff > 0 {
      wait := Min(wait, cfg.maxBackoff);
    }
    assert wait == ClosedForm(cfg, retry);
    if cfg.jitter {
      return JitterBackoff(wait, draw);
    }
    return wait;
  }

  lemma DoublingStep(b: int, i: nat)
    requires b > 0
    ensures Min(2 * Min(b * Pow2(i), MAX_INT64), MAX_INT64) == Min(b * Pow2(i + 1), MAX_INT64)
  {
    assert b * Pow2(i + 1) == 2 * (b * Pow2(i));
  }

  /** A positive delay with jitter lands in [0, that delay); without, it is exact. */
  lemma JitterRange(cfg: RetryConfig, retry: nat, draw: Int64 -> Int64)
    requires cfg.backoff > 0 && retry >= 1 && ValidDraw(draw)
    ensures if cfg.jitter then 0 <= Backoff(cfg, retry, draw) < ClosedForm(cfg, retry)
            else Backoff(cfg, retry, draw) == ClosedForm(cfg, retry)
  {
    BackoffInRange(cfg, retry);
  }

  /** The wait before a retry: a hint from the target is a minimum and is never capped. */
  function Delay(cfg: RetryConfig, retry: int, last: DeliveryResult, draw: Int64 -> Int64): Int64 {
    Max(Backoff(cfg, retry, draw), last.retryAfter)
  }

  // ---------------------------------------------------------------- the retry loop

  /** What a target returns from one Send. */
  datatype Answer = Answer(result: DeliveryResult, err: Option<Error>)

  /**
   Everything outside the loop: what the i-th call answers, whether the context interrupts the
   i-th wait, and whether it has ended at the poll before and after the i-th call.
   */
  datatype World = World(send: nat -> Answer, interrupted: nat -> bool, doneBefore: nat -> bool,
                         doneAfter: nat -> bool, cause: Error, draw: nat -> (Int64 -> Int64))

  datatype Exit = WaitInterrupted | DoneBeforeCall | Succeeded | DoneAfterCall | GaveUp | FellThrough

  /** The outcome, the answers received, and the delay computed for each retry. */
  datatype Run = Run(result: DeliveryResult, executed: nat, err: Option<Error>, answers: seq<Answer>,
                     delays: seq<Int64>, exit: Exit)

  const NO_RESULT := DeliveryResult("", 0, "", 0)

  function MaxAttempts(cfg: RetryConfig): (n: Int64)
    ensures n >= 1
  {
    Max(AddWrapped(cfg.count, 1), 1)
  }

  predicate Retryable(cfg: RetryConfig, a: Answer) {
    cfg.policy.Some? && Accepts(cfg.policy.value, a.result, a.err)
  }

  function LastResult(answers: seq<Answer>): DeliveryResult {
    if answers == [] then NO_RESULT else answers[|answers| - 1].result
  }

  function LastError(answers: seq<Answer>): Option<Error> {
    if answers == [] then None else answers[|answers| - 1].err
  }

  /** The run from one loop iteration on, given the answers and delays so far. */
  function RetryFrom(w: World, cfg: RetryConfig, answers: seq<Answer>, delays: seq<Int64>): Run
    requires |answers| <= MaxAttempts(cfg)
    decreases MaxAttempts(cfg) - |answers|
  {
    var k := |answers|;
    if k == MaxAttempts(cfg) then Run(LastResult(answers), k, LastError(answers), answers, delays, FellThrough)
    else
      var delays' := if k > 0 then delays + [Delay(cfg, k, LastResult(answers), w.draw(k))] else delays;
      if k > 0 && delays'[|delays'| - 1] > 0 && w.interrupted(k) then
        Run(LastResult(answers), k, Some(w.cause), answers, delays', WaitInterrupted)
      else if w.doneBefore(k) then Run(LastResult(answers), k, Some(w.cause), answers, delays', DoneBeforeCall)
      else
        var a := w.send(k);
        var answers' := answers + [a];
        if a.err.None? then Run(a.result, k + 1, None, answers', delays', Succeeded)
        else if w.doneAfter(k) then Run(a.result, k + 1, Some(w.cause), answers', delays', DoneAfterCall)
        else if k + 1 >= MaxAttempts(cfg) || !Retryable(cfg, a) then Run(a.result, k + 1, a.err, answers', delays', GaveUp)
        else RetryFrom(w, cfg, answers', delays')
  }

  function RetryRun(w: World, cfg: RetryConfig): Run {
    RetryFrom(w, cfg, [], [])
  }

  /** `withRetry`, with its calls and the waits it computed before each retry. */
  method WithRetry(w: World, cfg: RetryConfig)
    returns (result: DeliveryResult, executed: nat, err: Option<Error>, ghost calls: seq<Answer>, ghost delays: seq<Int64>)
    ensures result == RetryRun(w, cfg).result && executed == RetryRun(w, cfg).executed && err == RetryRun(w, cfg).err
    ensures calls == RetryRun(w, cfg).answers && delays == RetryRun(w, cfg).delays
  {
    var maxAttempts := MaxAttempts(cfg);
    var lastResult, lastErr := NO_RESULT, None;
    executed, calls, delays := 0, [], [];
    var attempt := 0;
    while attempt < maxAttempts
      invariant 0 <= attempt <= maxAttempts && executed == attempt == |calls|
      invariant lastResult == LastResult(calls) && lastErr == LastError(calls)
      invariant RetryFrom(w, cfg, calls, delays) == RetryRun(w, cfg)
    {
      if attempt > 0 {
        var backoff := RetryBackoff(cfg, attempt, w.draw(attempt));
        var wait := Max(backoff, lastResult.retryAfter);
        delays := delays + [wait];
        if wait > 0 && w.interrupted(attempt) {
          return lastResult, executed, Some(w.cause), calls, delays;
        }
      }
      if w.doneBefore(attempt) {
        return lastResult, executed, Some(w.cause), calls, delays;
      }
      var answer := w.send(attempt);
      calls := calls + [answer];
      executed := executed + 1;
      lastResult := answer.result;
      if answer.err.None? {
        return answer.result, executed, None, calls, delays;
      }
      lastErr := answer.err;
      if w.doneAfter(attempt) {
        return lastResult, executed, Some(w.cause), calls, delays;
      }
      if executed >= maxAttempts || !Retryable(cfg, answer) {
        return lastResult, executed, lastErr, calls, delays;
      }
      attempt := attempt + 1;
    }
    return lastResult, executed, lastErr, calls, delays;
  }

  /** What holds whenever the loop comes round again. */
  ghost predicate SoFar(w: World, cfg: RetryConfig, answers: seq<Answer>, delays: seq<Int64>) {
    && |answers| < MaxAttempts(cfg)
    && |delays| == Max(|answers| - 1, 0)
    && (forall i | 0 <= i < |answers| ::
          answers[i] == w.send(i) && answers[i].err.Some? && Retryable(cfg, answers[i])
          && !w.doneBefore(i) && !w.doneAfter(i))
    && (forall i | 0 <= i < |delays| :: delays[i] == Delay(cfg, i + 1, answers[i].result, w.draw(i + 1)))
    && (forall i | 0 <= i < |delays| :: delays[i] <= 0 || !w.interrupted(i + 1))
  }

  /** The delays known once iteration k has computed its own. */
  function DelaysAt(w: World, cfg: RetryConfig, answers: seq<Answer>, delays: seq<Int64>): seq<Int64> {
    if answers == [] then delays
    else delays + [Delay(cfg, |answers|, LastResult(answers), w.draw(|answers|))]
  }

  /** The iteration takes one of the loop's exits. */
  predicate Exits(w: World, cfg: RetryConfig, answers: seq<Answer>, delays: seq<Int64>) {
    var k := |answers|;
    || (k > 0 && Delay(cfg, k, LastResult(answers), w.draw(k)) > 0 && w.interrupted(k))
    || w.doneBefore(k) || w.send(k).err.None? || w.doneAfter(k)
    || k + 1 >= MaxAttempts(cfg) || !Retryable(cfg, w.send(k))
  }

  /** An iteration that takes no exit leads to the next one. */
  lemma NextIteration(w: World, cfg: RetryConfig, answers: seq<Answer>, delays: seq<Int64>)
    requires SoFar(w, cfg, answers, delays) && !Exits(w, cfg, answers, delays)
    ensures SoFar(w, cfg, answers + [w.send(|answers|)], DelaysAt(w, cfg, answers, delays))
    ensures RetryFrom(w, cfg, answers, delays)
         == RetryFrom(w, cfg, answers + [w.send(|answers|)], DelaysAt(w, cfg, answers, delays))
  {
  }

  /** Every run ends in an iteration that exits, with everything before it as `SoFar` says. */
  lemma {:induction false} LastIteration(w: World, cfg: RetryConfig, answers: seq<Answer>, delays: seq<Int64>)
    returns (answers': seq<Answer>, delays': seq<Int64>)
    requires SoFar(w, cfg, answers, delays)
    ensures SoFar(w, cfg, answers', delays') && Exits(w, cfg, answers', delays')
    ensures RetryFrom(w, cfg, answers, delays) == RetryFrom(w, cfg, answers', delays')
    decreases MaxAttempts(cfg) - |answers|
  {
    if Exits(w, cfg, answers, delays) {
      answers', delays' := answers, delays;
    } else {
      NextIteration(w, cfg, answers, delays);
      answers', delays' := LastIteration(w, cfg, answers + [w.send(|answers|)], DelaysAt(w, cfg, answers, delays));
    }
  }

  /** Calls are counted and bounded; all but the last failed, were accepted and saw a live context. */
  ghost predicate CallContract(w: World, cfg: RetryConfig, run: Run) {
    var n := |run.answers|;
    && run.executed == n <= MaxAttempts(cfg)
    && (forall i | 0 <= i < n :: run.answers[i] == w.send(i) && !w.doneBefore(i))
    && (forall i | 0 <= i < n - 1 :: run.answers[i].err.Some? && Retryable(cfg, run.answers[i]) && !w.doneAfter(i))
  }

  /** The result and the error returned, exit by exit; the return after the loop is unreachable. */
  ghost predicate OutcomeContract(w: World, cfg: RetryConfig, run: Run) {
    var n := |run.answers|;
    && run.result == LastResult(run.answers)
    && (run.err.None? <==> n > 0 && run.answers[n - 1].err.None?)
    && match run.exit
       case WaitInterrupted =>
         n > 0 && |run.delays| == n && run.delays[n - 1] > 0 && w.interrupted(n) && run.err == Some(w.cause)
       case DoneBeforeCall => w.doneBefore(n) && run.err == Some(w.cause)
       case Succeeded => run.err.None?
       case DoneAfterCall => n > 0 && w.doneAfter(n - 1) && run.err == Some(w.cause)
       case GaveUp => n > 0 && run.err == run.answers[n - 1].err && !w.doneAfter(n - 1)
                      && (n == MaxAttempts(cfg) || !Retryable(cfg, run.answers[n - 1]))
       case FellThrough => false
  }

  /**
   One delay per retry that was considered, each computed from the answer before it; a retry whose
   wait was interrupted made no call.
   */
  ghost predicate DelayContract(w: World, cfg: RetryConfig, run: Run) {
    && |run.delays| < MaxAttempts(cfg) && |run.answers| - 1 <= |run.delays| <= |run.answers|
    && (forall i | 0 <= i < |run.answers| - 1 :: run.delays[i] <= 0 || !w.interrupted(i + 1))
    && (forall i | 0 <= i < |run.delays| :: run.delays[i] == Delay(cfg, i + 1, run.answers[i].result, w.draw(i + 1)))
  }

  /**
   The trace contract, for every target, policy and context: the count is the number of calls and
   at most max(Count + 1, 1); every call but the last failed, was accepted by the policy and saw
   a live context; the error is nil exactly when the last call succeeded; and the return after
   the loop is never reached.
   */
  lemma RetryContract(w: World, cfg: RetryConfig)
    ensures CallContract(w, cfg, RetryRun(w, cfg))
    ensures OutcomeContract(w, cfg, RetryRun(w, cfg))
    ensures DelayContract(w, cfg, RetryRun(w, cfg))
  {
    var answers, delays := LastIteration(w, cfg, [], []);
    CallsOfLast(w, cfg, answers, delays);
    OutcomeOfLast(w, cfg, answers, delays);
    DelaysOfLast(w, cfg, answers, delays);
  }

  lemma CallsOfLast(w: World, cfg: RetryConfig, answers: seq<Answer>, delays: seq<Int64>)
    requires SoFar(w, cfg, answers, delays) && Exits(w, cfg, answers, delays)
    ensures CallContract(w, cfg, RetryFrom(w, cfg, answers, delays))
  {
  }

  lemma OutcomeOfLast(w: World, cfg: RetryConfig, answers: seq<Answer>, delays: seq<Int64>)
    requires SoFar(w, cfg, answers, delays) && Exits(w, cfg, answers, delays)
    ensures OutcomeContract(w, cfg, RetryFrom(w, cfg, answers, delays))
  {
    match RetryFrom(w, cfg, answers, delays).exit
    case WaitInterrupted => case DoneBeforeCall =>
    case Succeeded => case DoneAfterCall => case GaveUp =>
    case FellThrough =>
  }

  lemma LastDelays(w: World, cfg: RetryConfig, answers: seq<Answer>, delays: seq<Int64>)
    requires |answers| < MaxAttempts(cfg) && Exits(w, cfg, answers, delays)
    ensures RetryFrom(w, cfg, answers, delays).delays == DelaysAt(w, cfg, answers, delays)
    ensures answers <= RetryFrom(w, cfg, answers, delays).answers
    ensures |RetryFrom(w, cfg, answers, delays).answers| <= |answers| + 1
    ensures |RetryFrom(w, cfg, answers, delays).answers| == |answers| + 1 && answers != [] ==>
              DelaysAt(w, cfg, answers, delays)[|delays|] <= 0 || !w.interrupted(|answers|)
  {
  }

  lemma DelaysOfLast(w: World, cfg: RetryConfig, answers: seq<Answer>, delays: seq<Int64>)
    requires SoFar(w, cfg, answers, delays) && Exits(w, cfg, answers, delays)
    ensures DelayContract(w, cfg, RetryFrom(w, cfg, answers, delays))
  {
    LastDelays(w, cfg, answers, delays);
  }

  /**
   The waits of a run, spelled out: the i-th retry waits for the larger of the hint in the answer
   before it and Backoff * 2^i, saturated and then capped by a positive MaxBackoff, or a draw below
   that value with jitter. Without a positive Backoff only the hint counts.
   */
  lemma DelaysMeaning(w: World, cfg: RetryConfig, i: nat)
    requires i < |RetryRun(w, cfg).delays|
    ensures |RetryRun(w, cfg).answers| - 1 <= |RetryRun(w, cfg).delays| <= |RetryRun(w, cfg).answers|
    ensures var hint := RetryRun(w, cfg).answers[i].result.retryAfter;
            var full := Min(cfg.backoff * Pow2(i), MAX_INT64);
            var wait := if cfg.maxBackoff > 0 then Min(full, cfg.maxBackoff) else full;
      && (cfg.backoff <= 0 ==> RetryRun(w, cfg).delays[i] == Max(0, hint))
      && (cfg.backoff > 0 && !cfg.jitter ==> RetryRun(w, cfg).delays[i] == Max(wait, hint))
      && (cfg.backoff > 0 && cfg.jitter ==>
            0 < wait <= MAX_INT64 && RetryRun(w, cfg).delays[i] == Max(w.draw(i + 1)(wait), hint))
  {
    RetryContract(w, cfg);
    if cfg.backoff > 0 {
      BackoffInRange(cfg, i + 1);
    }
  }

  /** With jitter and draws in range, a wait is the hint, or not negative and below the full backoff. */
  lemma JitteredDelays(w: World, cfg: RetryConfig, i: nat)
    requires cfg.backoff > 0 && cfg.jitter && i < |RetryRun(w, cfg).delays|
    requires ValidDraw(w.draw(i + 1))
    ensures i < |RetryRun(w, cfg).answers|
    ensures var hint := RetryRun(w, cfg).answers[i].result.retryAfter;
            var full := Min(cfg.backoff * Pow2(i), MAX_INT64);
            var wait := if cfg.maxBackoff > 0 then Min(full, cfg.maxBackoff) else full;
            var delay := RetryRun(w, cfg).delays[i];
      Max(0, hint) <= delay && (delay == hint || delay < wait)
  {
    DelaysMeaning(w, cfg, i);
  }

  /** The result of a run is the one of its last call, and the zero result when there was none. */
  lemma ResultIsLast(w: World, cfg: RetryConfig)
    ensures var run := RetryRun(w, cfg);
      run.result == if run.executed == 0 then DeliveryResult("", 0, "", 0) else w.send(run.executed - 1).result
  {
    RetryContract(w, cfg);
  }

  /** A nil policy allows no retry. */
  lemma NoPolicyNoRetry(w: World, cfg: RetryConfig)
    requires cfg.policy == None
    ensures RetryRun(w, cfg).executed == if w.doneBefore(0) then 0 else 1
  {
    RetryContract(w, cfg);
  }

  /** No call follows a permanent error under any nesting of built-in policies. */
  lemma PermanentErrorIsLast(w: World, cfg: RetryConfig, i: nat)
    requires cfg.policy.Some? && BuiltIn(cfg.policy.value)
    requires i < |RetryRun(w, cfg).answers| && IsPermanent(RetryRun(w, cfg).answers[i].err)
    ensures i == |RetryRun(w, cfg).answers| - 1 && RetryRun(w, cfg).err.Some?
  {
    RetryContract(w, cfg);
    var a := RetryRun(w, cfg).answers[i];
    BuiltInRejectsPermanent(cfg.policy.value, a.result, a.err);
  }

  /** No call follows a poll that found the context ended. */
  lemma NoCallAfterContextEnds(w: World, cfg: RetryConfig, k: nat)
    ensures w.doneBefore(k) ==> |RetryRun(w, cfg).answers| <= k
    ensures w.doneAfter(k) ==> |RetryRun(w, cfg).answers| <= k + 1
  {
    RetryContract(w, cfg);
  }

  // ---------------------------------------------------------------- how often a run retries

  /** The retries the loop makes when nothing ends it early: `Count`, or none when Count + 1 wraps. */
  function Retries(cfg: RetryConfig): (n: nat)
    ensures n == if 0 <= cfg.count < MAX_INT64 then cfg.count else 0
  {
    MaxAttempts(cfg) - 1
  }

  /** No call succeeds, the policy accepts every failure, and the context never ends. */
  ghost predicate KeepsFailing(w: World, cfg: RetryConfig) {
    forall k: nat ::
      w.send(k).err.Some? && Retryable(cfg, w.send(k)) && !w.interrupted(k) && !w.doneBefore(k) && !w.doneAfter(k)
  }

  /**
   `Count` is the number of retries after the first attempt iff it is not negative and below
   2^63 - 1: a run that nothing ends early makes exactly the attempts `Count` promises in that
   case, and a single one otherwise, in particular when Count + 1 wraps.
   */
  lemma CountIsRetries(w: World, cfg: RetryConfig)
    requires KeepsFailing(w, cfg)
    ensures RetryRun(w, cfg).executed == (if 0 <= cfg.count < MAX_INT64 then cfg.count else 0) + 1
    ensures RetryRun(w, cfg).executed == cfg.count + 1 <==> 0 <= cfg.count < MAX_INT64
  {
    RetryContract(w, cfg);
  }

  /** A target that always fails, under a context that never ends. */
  const FAILING := World(FAIL, NEVER, NEVER, NEVER, Leaf(Plain), NO_DRAW)

  const FAIL: nat -> Answer := _ => Answer(NO_RESULT, Some(Leaf(Plain)))

  const NEVER: nat -> bool := _ => false

  const NO_DRAW: nat -> (Int64 -> Int64) := _ => (_ => 0)

  /** At the largest Count, a target that always fails under a policy that retries every error is tried once. */
  lemma LargestCountNeverRetries()
    ensures RetryRun(FAILING, RetryConfig(MAX_INT64, 0, 0, false, Some(OnError))).executed == 1
  {
    var cfg := RetryConfig(MAX_INT64, 0, 0, false, Some(OnError));
    assert KeepsFailing(FAILING, cfg);
    CountIsRetries(FAILING, cfg);
  }

  // ---------------------------------------------------------------- total waiting time

  /** The time waited: only positive delays start a timer. */
  function TotalWait(delays: seq<Int64>): nat {
    if delays == [] then 0 else TotalWait(delays[..|delays| - 1]) + Max(delays[|delays| - 1], 0)
  }

  function TotalHints(answers: seq<Answer>): nat {
    if answers == [] then 0 else TotalHints(answers[..|answers| - 1]) + Max(answers[|answers| - 1].result.retryAfter, 0)
  }

  lemma {:induction false} TotalHintsGrow(answers: seq<Answer>, n: nat)
    requires n <= |answers|
    ensures TotalHints(answers[..n]) <= TotalHints(answers)
    decreases |answers|
  {
    if n < |answers| {
      var init := answers[..|answers| - 1];
      TotalHintsGrow(init, n);
      assert init[..n] == answers[..n];
    } else {
      assert answers[..n] == answers;
    }
  }

  /** The local part of a delay is at most the exponential value, and at most a positive cap. */
  lemma BackoffBound(cfg: RetryConfig, retry: nat, draw: Int64 -> Int64)
    requires retry >= 1 && ValidDraw(draw)
    ensures 0 <= Backoff(cfg, retry, draw) <= Max(cfg.backoff, 0) * Pow2(retry - 1)
    ensures cfg.maxBackoff > 0 ==> Backoff(cfg, retry, draw) <= cfg.maxBackoff
  {
    if cfg.backoff > 0 {
      JitterRange(cfg, retry, draw);
      BackoffInRange(cfg, retry);
    }
  }

  lemma GeometricStep(b: int, n: nat)
    requires n > 0
    ensures b * (Pow2(n) - 1) == b * (Pow2(n - 1) - 1) + b * Pow2(n - 1)
  {
  }

  ghost predicate DelaysFrom(w: World, cfg: RetryConfig, answers: seq<Answer>, delays: seq<Int64>) {
    && |delays| <= |answers|
    && (forall k: nat :: ValidDraw(w.draw(k)))
    && (forall i | 0 <= i < |delays| :: delays[i] == Delay(cfg, i + 1, answers[i].result, w.draw(i + 1)))
  }

  lemma {:induction false} ExponentialWait(w: World, cfg: RetryConfig, answers: seq<Answer>, delays: seq<Int64>)
    requires DelaysFrom(w, cfg, answers, delays)
    ensures TotalWait(delays) <= Max(cfg.backoff, 0) * (Pow2(|delays|) - 1) + TotalHints(answers[..|delays|])
    decreases |delays|
  {
    var n := |delays|;
    if n > 0 {
      ExponentialWait(w, cfg, answers, delays[..n - 1]);
      BackoffBound(cfg, n, w.draw(n));
      assert answers[..n][..n - 1] == answers[..n - 1];
      GeometricStep(Max(cfg.backoff, 0), n);
    }
  }

  lemma {:induction false} CappedWait(w: World, cfg: RetryConfig, answers: seq<Answer>, delays: seq<Int64>)
    requires DelaysFrom(w, cfg, answers, delays) && cfg.maxBackoff > 0
    ensures TotalWait(delays) <= cfg.maxBackoff * |delays| + TotalHints(answers[..|delays|])
    decreases |delays|
  {
    var n := |delays|;
    if n > 0 {
      CappedWait(w, cfg, answers, delays[..n - 1]);
      BackoffBound(cfg, n, w.draw(n));
      assert answers[..n][..n - 1] == answers[..n - 1];
      ProductStep(cfg.maxBackoff, n);
    }
  }

  lemma ProductStep(m: int, n: nat)
    requires n > 0
    ensures m * n == m * (n - 1) + m
  {
  }

  lemma RunDelays(w: World, cfg: RetryConfig)
    requires forall k: nat :: ValidDraw(w.draw(k))
    ensures DelaysFrom(w, cfg, RetryRun(w, cfg).answers, RetryRun(w, cfg).delays)
    ensures |RetryRun(w, cfg).delays| <= Retries(cfg)
  {
    RetryContract(w, cfg);
  }

  /**
   The total wait of a run is at most Backoff * (2^Count - 1), plus the positive hints the target
   gave.
   */
  lemma TotalWaitBound(w: World, cfg: RetryConfig)
    requires forall k: nat :: ValidDraw(w.draw(k))
    ensures var run := RetryRun(w, cfg);
      TotalWait(run.delays) <= Max(cfg.backoff, 0) * (Pow2(Retries(cfg)) - 1) + TotalHints(run.answers)
  {
    RunDelays(w, cfg);
    var run := RetryRun(w, cfg);
    var n := |run.delays|;
    ExponentialWait(w, cfg, run.answers, run.delays);
    TotalHintsGrow(run.answers, n);
    GeometricGrows(Max(cfg.backoff, 0), n, Retries(cfg));
  }

  lemma GeometricGrows(b: int, m: nat, n: nat)
    requires b >= 0 && m <= n
    ensures b * (Pow2(m) - 1) <= b * (Pow2(n) - 1)
  {
    Pow2Grows(m, n);
    ScaleMonotone(b, Pow2(m) - 1, Pow2(n) - 1);
  }

  /** With a positive cap it is also at most Count * MaxBackoff plus the positive hints. */
  lemma CappedWaitBound(w: World, cfg: RetryConfig)
    requires (forall k: nat :: ValidDraw(w.draw(k))) && cfg.maxBackoff > 0
    ensures var run := RetryRun(w, cfg);
      TotalWait(run.delays) <= cfg.maxBackoff * Retries(cfg) + TotalHints(run.answers)
  {
    RunDelays(w, cfg);
    var run := RetryRun(w, cfg);
    CappedWait(w, cfg, run.answers, run.delays);
    TotalHintsGrow(run.answers, |run.delays|);
    ScaleMonotone(cfg.maxBackoff, |run.delays|, Retries(cfg));
  }

  /** Each delay honours the hint of the answer before it, cap or no cap. */
  lemma HintsAreMinimums(w: World, cfg: RetryConfig)
    ensures var run := RetryRun(w, cfg);
      forall i | 0 <= i < |run.delays| :: i < |run.answers| && run.delays[i] >= run.answers[i].result.retryAfter
  {
    RetryContract(w, cfg);
  }
}
