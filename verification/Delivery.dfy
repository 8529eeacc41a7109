/** Delivering one notification: nested loops over receivers and targets that collect failures. */
module Delivery {
  import opened Wrappers
  import opened Errors
  import opened Retry
  import opened Routing

  /** The world seen by the retry run of target j of the i-th resolved receiver. */
  type Worlds = (nat, nat) -> World

  /** The retry run of target j of the i-th resolved receiver. */
  type Runs = (nat, nat) -> Run

  function RunsIn(worlds: Worlds, receivers: seq<Receiver>): Runs {
    (i: nat, j: nat) => RetryRun(worlds(i, j), if i < |receivers| then receivers[i].retry else NO_RETRY)
  }

  const NO_RETRY := RetryConfig(0, 0, 0, false, None)

  /** errors.Join: nil without parts. */
  function JoinErrors(errs: seq<Error>): Option<Error> {
    if errs == [] then None else Some(Join(errs))
  }

  /** target.Type(); a nil target has none and never gets this far. */
  function TypeOf(t: Target): string {
    match t case NilTarget => "" case Target(name) => name
  }

  /** The DeliveryError of a failed target, None when its run succeeded. */
  function TargetError(r: Receiver, j: nat, run: Run): Option<Error>
    requires j < |r.targets|
  {
    match run.err
    case None => None
    case Some(e) => Some(Wrap(Kind.Delivery(Failure(r.id, TypeOf(r.targets[j]), j, run.executed, run.result)), e))
  }

  function Appended(errs: seq<Error>, err: Option<Error>): seq<Error> {
    match err case None => errs case Some(e) => errs + [e]
  }

  /** The failures of the first n targets of the i-th receiver. */
  function TargetErrors(runs: Runs, r: Receiver, i: nat, n: nat): seq<Error>
    requires n <= |r.targets|
  {
    if n == 0 then []
    else Appended(TargetErrors(runs, r, i, n - 1), TargetError(r, n - 1, runs(i, n - 1)))
  }

  function ReceiverError(runs: Runs, r: Receiver, i: nat): Option<Error> {
    JoinErrors(TargetErrors(runs, r, i, |r.targets|))
  }

  /** The failures of the first n receivers. */
  function ReceiverErrors(runs: Runs, receivers: seq<Receiver>, n: nat): seq<Error>
    requires n <= |receivers|
  {
    if n == 0 then []
    else Appended(ReceiverErrors(runs, receivers, n - 1), ReceiverError(runs, receivers[n - 1], n - 1))
  }

  function DeliveryError(runs: Runs, receivers: seq<Receiver>): Option<Error> {
    JoinErrors(ReceiverErrors(runs, receivers, |receivers|))
  }

  /** `dispatchReceiver`: one retry run per target, in order. */
  method DispatchReceiver(worlds: Worlds, receivers: seq<Receiver>, i: nat) returns (err: Option<Error>)
    requires i < |receivers| && NilTarget !in receivers[i].targets
    ensures err == ReceiverError(RunsIn(worlds, receivers), receivers[i], i)
    ensures err.None? <==> forall j | 0 <= j < |receivers[i].targets| :: RetryRun(worlds(i, j), receivers[i].retry).err.None?
  {
    var r := receivers[i];
    var errs: seq<Error> := [];
    for j := 0 to |r.targets|
      invariant errs == TargetErrors(RunsIn(worlds, receivers), r, i, j)
    {
      var result, attempts, e, _, _ := WithRetry(worlds(i, j), r.retry);
      if e.Some? {
        errs := errs + [Wrap(Kind.Delivery(Failure(r.id, TypeOf(r.targets[j]), j, attempts, result)), e.value)];
        continue;
      }
    }
    NoReceiverError(worlds, receivers, i);
    err := JoinErrors(errs);
  }

  /** `dispatch`: every receiver in order, whatever happened to the ones before. */
  method Dispatch(worlds: Worlds, receivers: seq<Receiver>) returns (err: Option<Error>)
    requires forall i | 0 <= i < |receivers| :: NilTarget !in receivers[i].targets
    ensures err == DeliveryError(RunsIn(worlds, receivers), receivers)
    ensures exists at :: ReportsFailures(worlds, receivers, at, FlattenOption(err))
    ensures err.None? <==>
      forall i, j | 0 <= i < |receivers| && 0 <= j < |receivers[i].targets| ::
        RetryRun(worlds(i, j), receivers[i].retry).err.None?
  {
    var errs: seq<Error> := [];
    for i := 0 to |receivers|
      invariant errs == ReceiverErrors(RunsIn(worlds, receivers), receivers, i)
    {
      var e := DispatchReceiver(worlds, receivers, i);
      if e.Some? {
        errs := errs + [e.value];
      }
    }
    err := JoinErrors(errs);
    NoDeliveryError(worlds, receivers);
    var _ := DeliveryReports(worlds, receivers);
  }

  // ---------------------------------------------------------------- exactness

  /** A (receiver, target) pair by position, in delivery order. */
  datatype Pair = Pair(i: nat, j: nat)

  /** All pairs of the first n receivers. */
  function Pairs(receivers: seq<Receiver>, n: nat): seq<Pair>
    requires n <= |receivers|
  {
    if n == 0 then [] else Pairs(receivers, n - 1) + PairsOf(n - 1, |receivers[n - 1].targets|)
  }

  function PairsOf(i: nat, n: nat): seq<Pair> {
    if n == 0 then [] else PairsOf(i, n - 1) + [Pair(i, n - 1)]
  }

  /** A DeliveryError and the error it wraps. */
  datatype Report = Report(failure: Failure, cause: Option<Error>)

  /** What delivery must report: one failure with its cause for each failing pair, in order. */
  function Expected(runs: Runs, receivers: seq<Receiver>, pairs: seq<Pair>): seq<Report> {
    if pairs == [] then []
    else
      Expected(runs, receivers, pairs[..|pairs| - 1]) + ExpectedOf(runs, receivers, pairs[|pairs| - 1])
  }

  function ExpectedOf(runs: Runs, receivers: seq<Receiver>, p: Pair): seq<Report> {
    if p.i < |receivers| && p.j < |receivers[p.i].targets| && runs(p.i, p.j).err.Some? then
      var r := receivers[p.i];
      var run := runs(p.i, p.j);
      [Report(Failure(r.id, TypeOf(r.targets[p.j]), p.j, run.executed, run.result), run.err)]
    else []
  }

  /** The DeliveryErrors of a joined error in order, each with the error it wraps. */
  function Flatten(e: Error): seq<Report> {
    match e
    case Leaf(k) => if k.Delivery? then [Report(k.failure, None)] else []
    case Wrap(k, cause) => if k.Delivery? then [Report(k.failure, Some(cause))] else Flatten(cause)
    case Join(causes) => FlattenAll(causes)
  }

  function FlattenAll(errs: seq<Error>): seq<Report> {
    if errs == [] then [] else FlattenAll(errs[..|errs| - 1]) + Flatten(errs[|errs| - 1])
  }

  function FlattenOption(err: Option<Error>): seq<Report> {
    match err case None => [] case Some(e) => Flatten(e)
  }

  lemma FlattenAppended(errs: seq<Error>, err: Option<Error>)
    ensures FlattenAll(Appended(errs, err)) == FlattenAll(errs) + FlattenOption(err)
  {
    if err.Some? {
      assert (errs + [err.value])[..|errs|] == errs;
    }
  }

  lemma {:induction false} ExpectedConcat(runs: Runs, receivers: seq<Receiver>, a: seq<Pair>, b: seq<Pair>)
    ensures Expected(runs, receivers, a + b) == Expected(runs, receivers, a) + Expected(runs, receivers, b)
    decreases |b|
  {
    if b == [] {
      assert a + b == a;
    } else {
      assert (a + b)[..|a + b| - 1] == a + b[..|b| - 1];
      ExpectedConcat(runs, receivers, a, b[..|b| - 1]);
    }
  }

  lemma FlattenJoin(errs: seq<Error>)
    ensures FlattenOption(JoinErrors(errs)) == FlattenAll(errs)
  {
  }

  lemma TargetReported(runs: Runs, receivers: seq<Receiver>, i: nat, j: nat)
    requires i < |receivers| && j < |receivers[i].targets|
    ensures FlattenOption(TargetError(receivers[i], j, runs(i, j))) == ExpectedOf(runs, receivers, Pair(i, j))
  {
  }

  lemma ExpectedAppended(runs: Runs, receivers: seq<Receiver>, pairs: seq<Pair>, p: Pair)
    ensures Expected(runs, receivers, pairs + [p]) == Expected(runs, receivers, pairs) + ExpectedOf(runs, receivers, p)
  {
    assert (pairs + [p])[..|pairs|] == pairs;
  }

  lemma TargetFlattened(runs: Runs, receivers: seq<Receiver>, i: nat, n: nat)
    requires i < |receivers| && 0 < n <= |receivers[i].targets|
    ensures FlattenAll(TargetErrors(runs, receivers[i], i, n))
         == FlattenAll(TargetErrors(runs, receivers[i], i, n - 1)) + ExpectedOf(runs, receivers, Pair(i, n - 1))
  {
    TargetReported(runs, receivers, i, n - 1);
    FlattenAppended(TargetErrors(runs, receivers[i], i, n - 1), TargetError(receivers[i], n - 1, runs(i, n - 1)));
  }

  /** What flattening the failures of the first n targets of a receiver must give. */
  ghost predicate ReportedOf(runs: Runs, receivers: seq<Receiver>, i: nat, n: nat)
    requires i < |receivers| && n <= |receivers[i].targets|
  {
    FlattenAll(TargetErrors(runs, receivers[i], i, n)) == Expected(runs, receivers, PairsOf(i, n))
  }

  lemma NothingReportedOf(runs: Runs, receivers: seq<Receiver>, i: nat)
    requires i < |receivers|
    ensures ReportedOf(runs, receivers, i, 0)
  {
  }

  lemma NextTargetReported(runs: Runs, receivers: seq<Receiver>, i: nat, n: nat)
    requires i < |receivers| && 0 < n <= |receivers[i].targets| && ReportedOf(runs, receivers, i, n - 1)
    ensures ReportedOf(runs, receivers, i, n)
  {
    TargetFlattened(runs, receivers, i, n);
    ExpectedAppended(runs, receivers, PairsOf(i, n - 1), Pair(i, n - 1));
  }

  lemma TargetsReported(runs: Runs, receivers: seq<Receiver>, i: nat, n: nat)
    requires i < |receivers| && n <= |receivers[i].targets|
    ensures ReportedOf(runs, receivers, i, n)
  {
    NothingReportedOf(runs, receivers, i);
    for k := 0 to n
      invariant ReportedOf(runs, receivers, i, k)
    {
      NextTargetReported(runs, receivers, i, k + 1);
    }
  }

  lemma ReceiverFlattened(runs: Runs, receivers: seq<Receiver>, n: nat)
    requires 0 < n <= |receivers|
    ensures FlattenAll(ReceiverErrors(runs, receivers, n))
         == FlattenAll(ReceiverErrors(runs, receivers, n - 1))
            + Expected(runs, receivers, PairsOf(n - 1, |receivers[n - 1].targets|))
  {
    TargetsReported(runs, receivers, n - 1, |receivers[n - 1].targets|);
    FlattenJoin(TargetErrors(runs, receivers[n - 1], n - 1, |receivers[n - 1].targets|));
    FlattenAppended(ReceiverErrors(runs, receivers, n - 1), ReceiverError(runs, receivers[n - 1], n - 1));
  }

  lemma ExpectedPairs(runs: Runs, receivers: seq<Receiver>, n: nat)
    requires 0 < n <= |receivers|
    ensures Expected(runs, receivers, Pairs(receivers, n))
         == Expected(runs, receivers, Pairs(receivers, n - 1))
            + Expected(runs, receivers, PairsOf(n - 1, |receivers[n - 1].targets|))
  {
    ExpectedConcat(runs, receivers, Pairs(receivers, n - 1), PairsOf(n - 1, |receivers[n - 1].targets|));
  }

  /** What flattening the first n receivers' failures must give. */
  ghost predicate Reported(runs: Runs, receivers: seq<Receiver>, n: nat)
    requires n <= |receivers|
  {
    FlattenAll(ReceiverErrors(runs, receivers, n)) == Expected(runs, receivers, Pairs(receivers, n))
  }

  lemma NothingReported(runs: Runs, receivers: seq<Receiver>)
    ensures Reported(runs, receivers, 0)
  {
  }

  lemma ReceiverReported(runs: Runs, receivers: seq<Receiver>, n: nat)
    requires 0 < n <= |receivers|
    requires Reported(runs, receivers, n - 1)
    ensures Reported(runs, receivers, n)
  {
    var before := FlattenAll(ReceiverErrors(runs, receivers, n - 1));
    var after := before + Expected(runs, receivers, PairsOf(n - 1, |receivers[n - 1].targets|));
    assert after == FlattenAll(ReceiverErrors(runs, receivers, n)) by {
      ReceiverFlattened(runs, receivers, n);
    }
    assert after == Expected(runs, receivers, Pairs(receivers, n)) by {
      ExpectedPairs(runs, receivers, n);
    }
  }

  lemma ReceiversReported(runs: Runs, receivers: seq<Receiver>, n: nat)
    requires n <= |receivers|
    ensures Reported(runs, receivers, n)
  {
    NothingReported(runs, receivers);
    for k := 0 to n
      invariant Reported(runs, receivers, k)
    {
      ReceiverReported(runs, receivers, k + 1);
    }
  }

  /**
   Delivery exactness: flattening the joined error gives exactly one DeliveryError for every
   (receiver, target) pair whose run failed, in order, with its index, attempts and result, and wrapping
   the error its run ended with.
   */
  lemma DeliveryExactness(runs: Runs, receivers: seq<Receiver>)
    ensures FlattenOption(DeliveryError(runs, receivers))
         == Expected(runs, receivers, Pairs(receivers, |receivers|))
  {
    ReceiversReported(runs, receivers, |receivers|);
    FlattenJoin(ReceiverErrors(runs, receivers, |receivers|));
  }

  /** The pairs are exactly the targets of the receivers, each listed once. */
  lemma {:induction false} PairsAreTargets(receivers: seq<Receiver>, n: nat)
    requires n <= |receivers|
    ensures forall p: Pair :: multiset(Pairs(receivers, n))[p] == if p.i < n && p.j < |receivers[p.i].targets| then 1 else 0
  {
    if n > 0 {
      PairsAreTargets(receivers, n - 1);
      forall p: Pair
        ensures multiset(Pairs(receivers, n))[p] == if p.i < n && p.j < |receivers[p.i].targets| then 1 else 0
      {
        PairsOfOnce(n - 1, |receivers[n - 1].targets|, p);
      }
    }
  }

  lemma {:induction false} PairsOfOnce(i: nat, n: nat, p: Pair)
    ensures multiset(PairsOf(i, n))[p] == if p.i == i && p.j < n then 1 else 0
    decreases n
  {
    if n > 0 {
      PairsOfOnce(i, n - 1, p);
    }
  }

  // ---------------------------------------------------------------- what the caller can read off

  /** Receivers in order, and within a receiver its targets in order. */
  ghost predicate InOrder(at: seq<Pair>) {
    forall k, l | 0 <= k < l < |at| :: at[k].i < at[l].i || (at[k].i == at[l].i && at[k].j < at[l].j)
  }

  /**
   The reports are those of the pairs `at`: in delivery order, exactly the pairs whose run with the
   receiver's own retry settings ended with an error, each with that run's count, result and error.
   */
  ghost predicate ReportsFailures(worlds: Worlds, receivers: seq<Receiver>, at: seq<Pair>, reports: seq<Report>) {
    && InOrder(at)
    && (forall p: Pair :: p in at <==>
          p.i < |receivers| && p.j < |receivers[p.i].targets| && RetryRun(worlds(p.i, p.j), receivers[p.i].retry).err.Some?)
    && |reports| == |at|
    && forall k | 0 <= k < |at| :: IsReport(worlds, receivers, at[k], reports[k])
  }

  ghost predicate IsReport(worlds: Worlds, receivers: seq<Receiver>, p: Pair, report: Report) {
    && p.i < |receivers| && p.j < |receivers[p.i].targets|
    && var run := RetryRun(worlds(p.i, p.j), receivers[p.i].retry);
    && report.cause == run.err
    && report.failure.receiver == receivers[p.i].id
    && (receivers[p.i].targets[p.j] != NilTarget ==> Target(report.failure.target) == receivers[p.i].targets[p.j])
    && report.failure.index == p.j
    && report.failure.attempts == run.executed && report.failure.result == run.result
  }

  /** The pairs that fail, in the order of the pairs given. */
  function FailingOf(runs: Runs, pairs: seq<Pair>): seq<Pair> {
    if pairs == [] then []
    else
      var p := pairs[|pairs| - 1];
      FailingOf(runs, pairs[..|pairs| - 1]) + if runs(p.i, p.j).err.Some? then [p] else []
  }

  lemma {:induction false} FailingAre(runs: Runs, pairs: seq<Pair>)
    requires InOrder(pairs)
    ensures InOrder(FailingOf(runs, pairs))
    ensures forall p :: p in FailingOf(runs, pairs) <==> p in pairs && runs(p.i, p.j).err.Some?
    decreases |pairs|
  {
    if pairs != [] {
      var init, p := pairs[..|pairs| - 1], pairs[|pairs| - 1];
      assert pairs == init + [p];
      FailingAre(runs, init);
      InOrderAppended(init, FailingOf(runs, init), p);
    }
  }

  /** Part of a list in order, and its last element, are in order. */
  lemma InOrderAppended(init: seq<Pair>, part: seq<Pair>, p: Pair)
    requires InOrder(init + [p]) && InOrder(part) && forall q | q in part :: q in init
    ensures InOrder(part + [p])
  {
    forall k | 0 <= k < |part|
      ensures part[k].i < p.i || (part[k].i == p.i && part[k].j < p.j)
    {
      assert part[k] in init;
      var l :| 0 <= l < |init| && init[l] == part[k];
      assert (init + [p])[l] == part[k] && (init + [p])[|init|] == p;
    }
  }

  lemma {:induction false} ExpectedAre(worlds: Worlds, receivers: seq<Receiver>, pairs: seq<Pair>)
    requires forall p | p in pairs :: p.i < |receivers| && p.j < |receivers[p.i].targets|
    ensures var (reports, at) := (Expected(RunsIn(worlds, receivers), receivers, pairs), FailingOf(RunsIn(worlds, receivers), pairs));
      |reports| == |at| && forall k | 0 <= k < |at| :: IsReport(worlds, receivers, at[k], reports[k])
    decreases |pairs|
  {
    if pairs != [] {
      ExpectedAre(worlds, receivers, pairs[..|pairs| - 1]);
      assert pairs[|pairs| - 1] in pairs;
    }
  }

  lemma {:induction false} PairsOfInOrder(i: nat, n: nat)
    ensures InOrder(PairsOf(i, n)) && forall p | p in PairsOf(i, n) :: p.i == i && p.j < n
    decreases n
  {
    if n > 0 {
      PairsOfInOrder(i, n - 1);
    }
  }

  lemma InOrderConcat(a: seq<Pair>, b: seq<Pair>)
    requires InOrder(a) && InOrder(b) && forall p, q | p in a && q in b :: p.i < q.i
    ensures InOrder(a + b)
  {
  }

  lemma {:induction false} PairsInOrder(receivers: seq<Receiver>, n: nat)
    requires n <= |receivers|
    ensures InOrder(Pairs(receivers, n)) && forall p | p in Pairs(receivers, n) :: p.i < n
    decreases n
  {
    if n > 0 {
      PairsInOrder(receivers, n - 1);
      PairsOfInOrder(n - 1, |receivers[n - 1].targets|);
      InOrderConcat(Pairs(receivers, n - 1), PairsOf(n - 1, |receivers[n - 1].targets|));
    }
  }

  lemma PairsListed(receivers: seq<Receiver>, p: Pair)
    ensures p in Pairs(receivers, |receivers|) <==> p.i < |receivers| && p.j < |receivers[p.i].targets|
  {
    PairsAreTargets(receivers, |receivers|);
    assert p in Pairs(receivers, |receivers|) <==> p in multiset(Pairs(receivers, |receivers|));
  }

  lemma DeliveryReports(worlds: Worlds, receivers: seq<Receiver>) returns (at: seq<Pair>)
    ensures ReportsFailures(worlds, receivers, at, FlattenOption(DeliveryError(RunsIn(worlds, receivers), receivers)))
  {
    var runs := RunsIn(worlds, receivers);
    var pairs := Pairs(receivers, |receivers|);
    PairsInOrder(receivers, |receivers|);
    forall p: Pair
      ensures p in pairs <==> p.i < |receivers| && p.j < |receivers[p.i].targets|
    {
      PairsListed(receivers, p);
    }
    FailingAre(runs, pairs);
    ExpectedAre(worlds, receivers, pairs);
    DeliveryExactness(runs, receivers);
    at := FailingOf(runs, pairs);
  }

  // ---------------------------------------------------------------- completion outcome

  /**
   The `outcome` a worker reports for a dequeued notification that asks for ids, and the receivers
   it resolved to.
   */
  method WorkerOutcome(worlds: Worlds, receivers: map<string, Receiver>, ids: seq<string>)
    returns (outcome: Option<Error>, resolved: seq<Receiver>)
    requires AllHaveTargets(receivers)
    ensures Resolution(receivers, ids, resolved)
    ensures outcome == CompletionError(RunsIn(worlds, resolved), resolved)
    ensures resolved != [] ==> exists at :: ReportsFailures(worlds, resolved, at, FlattenOption(outcome))
    ensures outcome.None? <==>
      && resolved != []
      && forall i, j | 0 <= i < |resolved| && 0 <= j < |resolved[i].targets| ::
           RetryRun(worlds(i, j), resolved[i].retry).err.None?
  {
    resolved := ResolveReceivers(receivers, ids);
    if |resolved| == 0 {
      return Some(Leaf(Plain)), resolved;
    }
    ResolvedAreConfigured(receivers, ids, resolved);
    assert forall i | 0 <= i < |resolved| :: IsConfigured(receivers, resolved[i]);
    outcome := Dispatch(worlds, resolved);
  }

  /** `Send`: the same delivery without a queue, after validating what the caller passed. */
  method Send(worlds: Worlds, id: string, receivers: map<string, Record?>, ids: seq<string>)
    returns (err: Option<Error>, resolved: seq<Receiver>)
    ensures id == "" || !AllHaveTargets(Normalized(Entries(receivers))) ==> err.Some?
    ensures id != "" && AllHaveTargets(Normalized(Entries(receivers))) ==>
      && Resolution(Normalized(Entries(receivers)), ids, resolved)
      && err == CompletionError(RunsIn(worlds, resolved), resolved)
      && (resolved != [] ==> exists at :: ReportsFailures(worlds, resolved, at, FlattenOption(err)))
    ensures err.None? <==>
      && id != "" && AllHaveTargets(Normalized(Entries(receivers))) && resolved != []
      && forall i, j | 0 <= i < |resolved| && 0 <= j < |resolved[i].targets| ::
           RetryRun(worlds(i, j), resolved[i].retry).err.None?
    ensures Entries(receivers) == old(Entries(receivers))
  {
    err, resolved := Some(Leaf(Plain)), [];
    if id == "" {
      return;
    }
    var records := NormalizeReceivers(receivers);
    var normalized := map k | k in records :: records[k].value;
    var bad := ValidateReceivers(normalized);
    if bad.Some? {
      return;
    }
    err, resolved := WorkerOutcome(worlds, normalized, ids);
  }

  function CompletionError(runs: Runs, receivers: seq<Receiver>): Option<Error> {
    if receivers == [] then Some(Leaf(Plain)) else DeliveryError(runs, receivers)
  }

  ghost predicate AllSucceed(runs: Runs, receivers: seq<Receiver>, n: nat)
    requires n <= |receivers|
  {
    forall i, j | 0 <= i < n && 0 <= j < |receivers[i].targets| :: runs(i, j).err.None?
  }

  lemma {:induction false} NoTargetErrors(runs: Runs, r: Receiver, i: nat, n: nat)
    requires n <= |r.targets|
    ensures TargetErrors(runs, r, i, n) == [] <==>
            forall j | 0 <= j < n :: runs(i, j).err.None?
    decreases n
  {
    if n > 0 {
      NoTargetErrors(runs, r, i, n - 1);
    }
  }

  lemma {:induction false} NoReceiverErrors(runs: Runs, receivers: seq<Receiver>, n: nat)
    requires n <= |receivers|
    ensures ReceiverErrors(runs, receivers, n) == [] <==> AllSucceed(runs, receivers, n)
    decreases n
  {
    if n > 0 {
      NoReceiverErrors(runs, receivers, n - 1);
      NoTargetErrors(runs, receivers[n - 1], n - 1, |receivers[n - 1].targets|);
    }
  }

  lemma NoReceiverError(worlds: Worlds, receivers: seq<Receiver>, i: nat)
    requires i < |receivers|
    ensures TargetErrors(RunsIn(worlds, receivers), receivers[i], i, |receivers[i].targets|) == [] <==>
            forall j | 0 <= j < |receivers[i].targets| :: RetryRun(worlds(i, j), receivers[i].retry).err.None?
  {
    var runs, n := RunsIn(worlds, receivers), |receivers[i].targets|;
    NoTargetErrors(runs, receivers[i], i, n);
    assert forall j: nat | j < n :: runs(i, j) == RetryRun(worlds(i, j), receivers[i].retry);
  }

  /** Delivery reports no error iff every run with the receivers' own retry settings succeeds. */
  lemma NoDeliveryError(worlds: Worlds, receivers: seq<Receiver>)
    ensures ReceiverErrors(RunsIn(worlds, receivers), receivers, |receivers|) == [] <==>
            forall i, j | 0 <= i < |receivers| && 0 <= j < |receivers[i].targets| ::
              RetryRun(worlds(i, j), receivers[i].retry).err.None?
  {
    var runs := RunsIn(worlds, receivers);
    NoReceiverErrors(runs, receivers, |receivers|);
    assert forall i: nat, j: nat | i < |receivers| && j < |receivers[i].targets| ::
        runs(i, j) == RetryRun(worlds(i, j), receivers[i].retry);
  }

  /** A completion is nil iff some receiver resolved and every target's run succeeded. */
  lemma CompletionIsNil(runs: Runs, receivers: seq<Receiver>)
    ensures CompletionError(runs, receivers).None? <==> receivers != [] && AllSucceed(runs, receivers, |receivers|)
  {
    NoReceiverErrors(runs, receivers, |receivers|);
  }
}
