/** Refusals give their true reason, completions report the result of the delivery. */
module ProtocolOutcomes {
  import opened Wrappers
  import opened Protocol
  import opened ProtocolInvariant
  import opened ProtocolSafety
  import opened ProtocolShutdown
  import opened ProtocolDrain

  // ---------------------------------------------------------------- the environment

  /**
   The environment is free: any caller's context may end at any time, the run context may be
   cancelled at any time once the manager was started, and its callback may run once the mutex is
   free and leaves the manager stopped.
   */
  lemma EnvironmentIsFree(c: Config, s: State, t: Thread)
    requires t.Caller?
    ensures Step(c, s, Expire(t)).Some? && t in Step(c, s, Expire(t)).value.expired
    ensures s.started ==> Step(c, s, Cancel).Some? && Step(c, s, Cancel).value.cancelled
    ensures s.cancelled && s.mutex.None? ==> Step(c, s, AfterFunc).Some? && Step(c, s, AfterFunc).value.stopped
  {
    StopSets(s, false);
  }

  /**
   Callers are never held up without reason: a call at its select proceeds when a slot is free, is
   refused when the manager has stopped or its context has ended, and a free mutex can be taken.
   */
  lemma CallersAreServed(c: Config, s: State, t: Thread)
    requires t in s.threads && t.Caller? && !s.crashed
    ensures s.threads[t].Selecting? && s.slots < c.capacity ==> Step(c, s, Run(t, Proceed)).Some?
    ensures s.threads[t].Selecting? && s.stopping ==> Step(c, s, Run(t, SeeStopping)).Some?
    ensures s.threads[t].Selecting? && t in s.expired ==> Step(c, s, Run(t, SeeContext)).Some?
    ensures s.threads[t].Reserved? && s.mutex.None? ==> Step(c, s, Run(t, Proceed)).Some?
    ensures s.threads[t].ShutdownEntered? && s.mutex.None? ==> Step(c, s, Run(t, Proceed)).Some?
    ensures s.threads[t].ShutdownWaiting? && (s.done || t in s.expired) ==>
              Step(c, s, Run(t, Proceed)).Some? || Step(c, s, Run(t, SeeContext)).Some?
    ensures s.threads[t].ShutdownExpired? && s.mutex.None? ==> Step(c, s, Run(t, Proceed)).Some?
  {
  }

  /** A live worker may see a cancelled context at any receive, and any delivery may succeed or fail. */
  lemma WorkersMayChoose(c: Config, s: State, t: Thread)
    requires t in s.threads && t.Worker? && !s.crashed
    ensures s.threads[t].Idle? && s.mailbox != [] ==> Step(c, s, Run(t, Proceed)).Some?
    ensures s.threads[t].Idle? && s.cancelled ==> Step(c, s, Run(t, SeeContext)).Some?
    ensures s.threads[t].Delivering? ==> Step(c, s, Run(t, Deliver(true))).Some? && Step(c, s, Run(t, Deliver(false))).Some?
  {
  }

  // ---------------------------------------------------------------- refusals

  /** Admission has ended, by a stop or because the run context was cancelled. */
  predicate Closing(s: State) {
    s.stopped || (s.started && s.cancelled)
  }

  /** The reason a refused call gives is true. */
  predicate Reasons(s: State) {
    forall t | t in s.threads :: Reason(s, t, s.threads[t])
  }

  predicate Reason(s: State, t: Thread, pc: Pc) {
    pc.Refusing? || pc.Refused? || pc.Rejected? ==>
      match pc.why case ManagerStopped => Closing(s) case ContextDone => t in s.expired
  }

  lemma ReasonStays(s: State, s': State, t: Thread, pc: Pc)
    requires Reason(s, t, pc) && Onward(s, s') && s.expired <= s'.expired
    ensures Reason(s', t, pc)
  {
  }

  lemma TextReasons(c: Config, s: State, t: Thread, arm: Arm)
    requires t in s.threads && Reason(s, t, s.threads[t]) && Text(c, s, t, arm).Some? && s.stopping == s.stopped
    ensures Reason(s, t, Text(c, s, t, arm).value.next)
  {
    match s.threads[t]
    case Selecting(_) => case Locked(_) => case Checked(_) => case Refusing(_, _) => case Refused(_, _) => case _ =>
  }

  lemma ThreadKeepsReasons(c: Config, s: State, t: Thread, arm: Arm)
    requires Inv(c, s) && Reasons(s) && t in s.threads && StepThread(c, s, t, arm).Some?
    ensures Reasons(StepThread(c, s, t, arm).value)
  {
    var s' := StepThread(c, s, t, arm).value;
    TextReasons(c, s, t, arm);
    var op, next := ThreadTakes(c, s, t, arm);
    TakesMoves(c, s, t, op, next, s');
    TakesOnward(c, s, t, op, next, s');
    TakesCancels(c, s, t, op, next, s');
    forall u | u in s'.threads
      ensures Reason(s', u, s'.threads[u])
    {
      if u in s.threads {
        ReasonStays(s, s', u, s'.threads[u]);
      }
    }
  }

  lemma StepKeepsReasons(c: Config, s: State, a: Action)
    requires Inv(c, s) && Reasons(s) && Step(c, s, a).Some?
    ensures Reasons(Step(c, s, a).value)
  {
    if a.Run? {
      ThreadKeepsReasons(c, s, a.t, a.arm);
      return;
    }
    var s' := Step(c, s, a).value;
    StepOnward(c, s, a);
    OthersExpire(c, s, a);
    forall u | u in s'.threads
      ensures Reason(s', u, s'.threads[u])
    {
      if u in s.threads {
        ReasonStays(s, s', u, s.threads[u]);
      }
    }
  }

  lemma {:induction false} RunKeepsReasons(c: Config, s: State, acts: seq<Action>, t: State)
    requires c.Valid() && Inv(c, s) && Reasons(s) && Executes(c, s, acts, t)
    ensures Reasons(t)
    decreases |acts|
  {
    if acts != [] {
      StepKeepsInv(c, s, acts[0]);
      StepKeepsReasons(c, s, acts[0]);
      RunKeepsReasons(c, Step(c, s, acts[0]).value, acts[1..], t);
    }
  }

  /** A call refused with ErrManagerStopped has seen a manager that is closing, one refused with its context's error an ended context. */
  lemma RefusalsAreTrue(c: Config, s: State, t: Thread)
    requires c.Valid() && Reachable(c, s) && t in s.threads && s.threads[t].Rejected?
    ensures s.threads[t].why == ManagerStopped ==> s.stopped || (s.started && s.cancelled)
    ensures s.threads[t].why == ContextDone ==> t in s.expired
  {
    var acts :| Executes(c, INITIAL, acts, s);
    InitialInv(c);
    RunKeepsReasons(c, INITIAL, acts, s);
    assert Reason(s, t, s.threads[t]);
  }

  // ---------------------------------------------------------------- no late admission

  /** Admission has ended and no call is between the locked check and the send. */
  predicate Shut(s: State) {
    Closing(s) && forall t | t in s.threads :: !s.threads[t].Checked? && !s.threads[t].Stored?
  }

  lemma ShutText(c: Config, s: State, t: Thread, arm: Arm)
    requires t in s.threads && Shut(s) && Text(c, s, t, arm).Some?
    ensures var i := Text(c, s, t, arm).value; !i.op.Send? && !i.next.Checked? && !i.next.Stored?
  {
    match s.threads[t]
    case Selecting(_) => case Reserved(_) => case Locked(_) => case _ =>
  }

  lemma StepKeepsShut(c: Config, s: State, a: Action)
    requires Inv(c, s) && Shut(s) && Step(c, s, a).Some?
    ensures Shut(Step(c, s, a).value) && Step(c, s, a).value.admitted == s.admitted
  {
    var s' := Step(c, s, a).value;
    StepOnward(c, s, a);
    if a.Run? {
      ThreadKeepsShut(c, s, a.t, a.arm);
    } else {
      OthersExpire(c, s, a);
      OthersAdmitNothing(c, s, a);
    }
  }

  lemma ThreadKeepsShut(c: Config, s: State, t: Thread, arm: Arm)
    requires Inv(c, s) && Shut(s) && t in s.threads && StepThread(c, s, t, arm).Some?
    ensures var s' := StepThread(c, s, t, arm).value;
      s'.admitted == s.admitted && forall u | u in s'.threads :: !s'.threads[u].Checked? && !s'.threads[u].Stored?
  {
    ShutText(c, s, t, arm);
    var op, next := ThreadTakes(c, s, t, arm);
    TakesMoves(c, s, t, op, next, StepThread(c, s, t, arm).value);
    TakesLogs(c, s, t, op, next, StepThread(c, s, t, arm).value);
  }

  lemma OthersAdmitNothing(c: Config, s: State, a: Action)
    requires Inv(c, s) && Step(c, s, a).Some? && !a.Run?
    ensures var s' := Step(c, s, a).value;
      s'.admitted == s.admitted && s'.dequeued == s.dequeued && s'.completed == s.completed
  {
    match a
    case Enqueue(_, _, _) =>
    case AfterFunc => StopIsLocal(s, false);
    case _ => StepAddsBare(c, s, a);
  }

  lemma {:induction false} RunKeepsShut(c: Config, s: State, acts: seq<Action>, t: State)
    requires c.Valid() && Inv(c, s) && Shut(s) && Executes(c, s, acts, t)
    ensures t.admitted == s.admitted
    decreases |acts|
  {
    if acts != [] {
      StepKeepsInv(c, s, acts[0]);
      StepKeepsShut(c, s, acts[0]);
      RunKeepsShut(c, Step(c, s, acts[0]).value, acts[1..], t);
    }
  }

  /**
   No late admission: once the manager is stopped or its run context cancelled, and no call is
   between the locked check and the send, no continuation admits anything.
   */
  lemma NoLateAdmission(c: Config, s: State, acts: seq<Action>, t: State)
    requires c.Valid() && Reachable(c, s) && Executes(c, s, acts, t)
    requires s.stopped || (s.started && s.cancelled)
    requires forall u | u in s.threads :: !s.threads[u].Checked? && !s.threads[u].Stored?
    ensures t.admitted == s.admitted
  {
    ReachableInv(c, s);
    RunKeepsShut(c, s, acts, t);
  }

  /** An `Enqueue` call that has not stored its notification. */
  predicate NotStored(pc: Pc) {
    Unsent(pc) && !pc.Stored?
  }

  lemma ExpiredText(c: Config, s: State, t: Thread, arm: Arm)
    requires t in s.threads && t.Caller? && t in s.expired && NotStored(s.threads[t]) && Text(c, s, t, arm).Some?
    ensures NotStored(Text(c, s, t, arm).value.next) && Text(c, s, t, arm).value.next.id == s.threads[t].id
  {
    match s.threads[t]
    case Selecting(_) => case Reserved(_) => case Locked(_) => case Checked(_) => case Refusing(_, _) => case Refused(_, _) =>
  }

  lemma StepKeepsExpired(c: Config, s: State, a: Action, t: Thread)
    requires Inv(c, s) && t in s.threads && t.Caller? && t in s.expired && NotStored(s.threads[t]) && Step(c, s, a).Some?
    ensures var s' := Step(c, s, a).value;
      t in s'.threads && t in s'.expired && NotStored(s'.threads[t]) && s'.threads[t].id == s.threads[t].id
  {
    var s' := Step(c, s, a).value;
    if a.Run? {
      var op, next := ThreadTakes(c, s, a.t, a.arm);
      TakesMoves(c, s, a.t, op, next, s');
      TakesCancels(c, s, a.t, op, next, s');
      if a.t == t {
        ExpiredText(c, s, t, a.arm);
      }
    } else {
      OthersExpire(c, s, a);
    }
  }

  lemma {:induction false} RunKeepsExpired(c: Config, s: State, t: Thread, acts: seq<Action>, r: State)
    requires c.Valid() && Inv(c, s) && Executes(c, s, acts, r)
    requires t in s.threads && t.Caller? && t in s.expired && NotStored(s.threads[t])
    ensures t in r.threads && NotStored(r.threads[t]) && r.threads[t].id == s.threads[t].id && Inv(c, r)
    decreases |acts|
  {
    if acts != [] {
      StepKeepsInv(c, s, acts[0]);
      StepKeepsExpired(c, s, acts[0], t);
      RunKeepsExpired(c, Step(c, s, acts[0]).value, t, acts[1..], r);
    }
  }

  /** A call whose context ends before it has stored its notification is never admitted. */
  lemma ExpiredIsRefused(c: Config, s: State, t: Thread, acts: seq<Action>, r: State)
    requires c.Valid() && Reachable(c, s) && Executes(c, s, acts, r)
    requires t in s.threads && t.Caller? && t in s.expired && NotStored(s.threads[t])
    ensures t in r.threads && !r.threads[t].Sent? && !r.threads[t].Accepted? && s.threads[t].id !in r.admitted
  {
    ReachableInv(c, s);
    RunKeepsExpired(c, s, t, acts, r);
  }

  // ---------------------------------------------------------------- completions

  /** The answers deliveries give in a run: for each id, whether its delivery succeeded. */
  function Answers(c: Config, s: State, acts: seq<Action>, known: map<Id, bool>): map<Id, bool>
    decreases |acts|
  {
    if acts == [] || Step(c, s, acts[0]).None? then known
    else Answers(c, Step(c, s, acts[0]).value, acts[1..], WithAnswer(s, acts[0], known))
  }

  function WithAnswer(s: State, a: Action, known: map<Id, bool>): map<Id, bool> {
    if a.Run? && a.arm.Deliver? && a.t in s.threads && s.threads[a.t].Delivering? then known[s.threads[a.t].id := a.arm.ok]
    else known
  }

  /** Delivered or failed as the delivery answered, discarded when there was none. */
  predicate Matches(known: map<Id, bool>, id: Id, outcome: Outcome) {
    outcome == if id !in known then Discarded else if known[id] then Delivered else Failed
  }

  /** A thread that holds an id has its answer exactly when it is about to report it. */
  predicate HoldsAnswer(known: map<Id, bool>, pc: Pc) {
    Held(pc) ==> if pc.Completing? then pc.id in known && Matches(known, pc.id, pc.outcome) else pc.id !in known
  }

  ghost predicate Truthful(s: State, known: map<Id, bool>) {
    && (forall id | id in known :: id in s.dequeued)
    && (forall t | t in s.threads :: HoldsAnswer(known, s.threads[t]))
    && (forall k | 0 <= k < |s.completed| :: Matches(known, s.completed[k].id, s.completed[k].outcome))
  }

  /** How an instruction handles the answer of a delivery. */
  predicate FitsAnswer(pc: Pc, arm: Arm, op: Op, next: Pc) {
    && (next.Completing? <==> pc.Delivering?)
    && (next.Completing? ==> arm.Deliver? && next.outcome == if arm.ok then Delivered else Failed)
    && (op.Report? ==> op.completion.outcome == if pc.Completing? then pc.outcome else Discarded)
    && (pc.Completing? ==> op.Report?)
  }

  lemma TextFitsAnswer(c: Config, s: State, t: Thread, arm: Arm)
    requires t in s.threads && Text(c, s, t, arm).Some?
    ensures var i := Text(c, s, t, arm).value; FitsAnswer(s.threads[t], arm, i.op, i.next)
  {
    match s.threads[t]
    case Idle => case Got(_) => case Found(_, _) => case Deleted(_, _) => case Delivering(_, _) =>
    case Completing(_, _, _) => case Discarding(_, _) => case _ =>
  }

  /** A new answer is for the id its thread holds alone. */
  lemma AnswerIsNew(s: State, a: Action, known: map<Id, bool>, id: Id)
    requires Custody(s)
    requires id in Ids(s.completed)
             || (exists u :: u in s.threads && Held(s.threads[u]) && s.threads[u].id == id && (a.Run? ==> u != a.t))
    ensures id in WithAnswer(s, a, known) <==> id in known
    ensures id in known ==> WithAnswer(s, a, known)[id] == known[id]
  {
  }

  lemma MoveKeepsHeld(s: State, s': State, a: Action, known: map<Id, bool>, u: Thread)
    requires Custody(s) && Truthful(s, known)
    requires u in s.threads && u in s'.threads && s'.threads[u] == s.threads[u] && (a.Run? ==> u != a.t)
    ensures HoldsAnswer(WithAnswer(s, a, known), s'.threads[u])
  {
    if Held(s.threads[u]) {
      assert HoldsAnswer(known, s.threads[u]);
      AnswerIsNew(s, a, known, s.threads[u].id);
    }
  }

  lemma StepKeepsReported(s: State, a: Action, known: map<Id, bool>, k: nat)
    requires Custody(s) && Truthful(s, known) && k < |s.completed|
    ensures Matches(WithAnswer(s, a, known), s.completed[k].id, s.completed[k].outcome)
  {
    assert Ids(s.completed)[k] == s.completed[k].id;
    AnswerIsNew(s, a, known, s.completed[k].id);
  }

  lemma ThreadKeepsOwn(c: Config, s: State, a: Action, op: Op, next: Pc, s': State, known: map<Id, bool>)
    requires a.Run? && Fifo(s) && Custody(s) && Truthful(s, known) && Takes(c, s, a.t, op, next, s')
    requires FitsAnswer(s.threads[a.t], a.arm, op, next)
    ensures HoldsAnswer(WithAnswer(s, a, known), next)
    ensures op.Report? ==> Matches(WithAnswer(s, a, known), op.completion.id, op.completion.outcome)
  {
    assert HoldsAnswer(known, s.threads[a.t]);
    QueuedIsNotReceived(s);
  }

  lemma ThreadKeepsTruth(c: Config, s: State, a: Action, known: map<Id, bool>)
    requires Inv(c, s) && Truthful(s, known) && a.Run? && Step(c, s, a).Some?
    ensures Truthful(Step(c, s, a).value, WithAnswer(s, a, known))
  {
    var s' := Step(c, s, a).value;
    TextFitsAnswer(c, s, a.t, a.arm);
    var op, next := ThreadTakes(c, s, a.t, a.arm);
    ThreadKeepsOwn(c, s, a, op, next, s', known);
    MovesKeepTruth(c, s, a, op, next, s', known);
  }

  lemma MovesKeepTruth(c: Config, s: State, a: Action, op: Op, next: Pc, s': State, known: map<Id, bool>)
    requires a.Run? && Lifecycle(c, s) && Custody(s) && Truthful(s, known) && Takes(c, s, a.t, op, next, s')
    requires HoldsAnswer(WithAnswer(s, a, known), next)
    requires op.Report? ==> Matches(WithAnswer(s, a, known), op.completion.id, op.completion.outcome)
    ensures Truthful(s', WithAnswer(s, a, known))
  {
    TakesMoves(c, s, a.t, op, next, s');
    TakesReceives(c, s, a.t, op, next, s');
    ReportsKeepTruth(c, s, a, op, next, s', known);
    MovesKeepHeld(s, s', a, next, known);
    assert forall id | id in WithAnswer(s, a, known) :: id in s.dequeued;
  }

  lemma MovesKeepHeld(s: State, s': State, a: Action, next: Pc, known: map<Id, bool>)
    requires a.Run? && Custody(s) && Truthful(s, known) && Moves(s, s', a.t, next)
    requires HoldsAnswer(WithAnswer(s, a, known), next)
    ensures forall u | u in s'.threads :: HoldsAnswer(WithAnswer(s, a, known), s'.threads[u])
  {
    forall u | u in s'.threads
      ensures HoldsAnswer(WithAnswer(s, a, known), s'.threads[u])
    {
      if u != a.t && u in s.threads {
        MoveKeepsHeld(s, s', a, known, u);
      }
    }
  }

  lemma ReportsKeepTruth(c: Config, s: State, a: Action, op: Op, next: Pc, s': State, known: map<Id, bool>)
    requires a.Run? && Custody(s) && Truthful(s, known) && Takes(c, s, a.t, op, next, s')
    requires op.Report? ==> Matches(WithAnswer(s, a, known), op.completion.id, op.completion.outcome)
    ensures forall k | 0 <= k < |s'.completed| :: Matches(WithAnswer(s, a, known), s'.completed[k].id, s'.completed[k].outcome)
  {
    TakesLogs(c, s, a.t, op, next, s');
    forall k | 0 <= k < |s'.completed|
      ensures Matches(WithAnswer(s, a, known), s'.completed[k].id, s'.completed[k].outcome)
    {
      if k < |s.completed| {
        StepKeepsReported(s, a, known, k);
      }
    }
  }

  lemma TakesReceives(c: Config, s: State, t: Thread, op: Op, next: Pc, s': State)
    requires Takes(c, s, t, op, next, s')
    ensures s.dequeued <= s'.dequeued
  {
    if op.CallStop? {
      StopIsLocal(s, op.drain);
    }
  }

  lemma StepKeepsTruth(c: Config, s: State, a: Action, known: map<Id, bool>)
    requires Inv(c, s) && Truthful(s, known) && Step(c, s, a).Some?
    ensures Truthful(Step(c, s, a).value, WithAnswer(s, a, known))
  {
    if a.Run? {
      ThreadKeepsTruth(c, s, a, known);
      return;
    }
    OthersExpire(c, s, a);
    OthersAdmitNothing(c, s, a);
    NewHoldNothing(s, Step(c, s, a).value, known);
  }

  /** New threads that hold nothing and unchanged logs keep the truth. */
  lemma NewHoldNothing(s: State, s': State, known: map<Id, bool>)
    requires Truthful(s, known) && s'.dequeued == s.dequeued && s'.completed == s.completed
    requires forall u | u in s'.threads ::
               (u in s.threads && s'.threads[u] == s.threads[u]) || s'.threads[u].Selecting? || Bare(s'.threads[u])
    ensures Truthful(s', known)
  {
  }

  lemma {:induction false} RunKeepsTruth(c: Config, s: State, acts: seq<Action>, t: State, known: map<Id, bool>)
    requires c.Valid() && Inv(c, s) && Truthful(s, known) && Executes(c, s, acts, t)
    ensures Truthful(t, Answers(c, s, acts, known))
    decreases |acts|
  {
    if acts != [] {
      StepKeepsInv(c, s, acts[0]);
      StepKeepsTruth(c, s, acts[0], known);
      RunKeepsTruth(c, Step(c, s, acts[0]).value, acts[1..], t, WithAnswer(s, acts[0], known));
    }
  }

  /**
   Completions tell the truth: in every run, a completion says Delivered or Failed exactly as the
   delivery of its id answered, and Discarded exactly when its id was never delivered.
   */
  lemma OutcomesAreAnswers(c: Config, acts: seq<Action>, s: State)
    requires c.Valid() && Executes(c, INITIAL, acts, s)
    ensures var answers := Answers(c, INITIAL, acts, map[]);
      forall k | 0 <= k < |s.completed| ::
        var x := s.completed[k];
        x.outcome == if x.id !in answers then Discarded else if answers[x.id] then Delivered else Failed
  {
    InitialInv(c);
    RunKeepsTruth(c, INITIAL, acts, s, map[]);
    forall k | 0 <= k < |s.completed|
      ensures Matches(Answers(c, INITIAL, acts, map[]), s.completed[k].id, s.completed[k].outcome)
    {
    }
  }
}
