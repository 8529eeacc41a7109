/** Order of completions, graceful drain and quiescence. */
module ProtocolShutdown {
  import opened Wrappers
  import opened Protocol
  import opened ProtocolInvariant
  import opened ProtocolSafety

  // ---------------------------------------------------------------- what one thread step does

  // ---------------------------------------------------------------- one worker keeps the order

  /** A step either leaves the completion log alone or reports the id its thread holds. */
  lemma LogsGrow(c: Config, s: State, a: Action)
    requires Inv(c, s) && Step(c, s, a).Some?
    ensures var s' := Step(c, s, a).value;
      && s.admitted <= s'.admitted
      && (s'.completed == s.completed
          || (a.Run? && a.t in s.threads && Held(s.threads[a.t]) && s'.admitted == s.admitted
              && exists x: Completion :: x.id == s.threads[a.t].id && s'.completed == s.completed + [x]))
  {
    match a
    case Enqueue(_, _, _) => case Shutdown(_) => case Start => case Cancel => case Expire(_) =>
    case AfterFunc => StopIsLocal(s, false);
    case Run(t, arm) =>
      var op, next := ThreadTakes(c, s, t, arm);
      TakesGrowLogs(c, s, t, op, next, Step(c, s, a).value);
  }

  lemma TakesGrowLogs(c: Config, s: State, t: Thread, op: Op, next: Pc, s': State)
    requires Takes(c, s, t, op, next, s')
    ensures s.admitted <= s'.admitted
    ensures s'.completed == s.completed
            || (Held(s.threads[t]) && s'.admitted == s.admitted
                && exists x: Completion :: x.id == s.threads[t].id && s'.completed == s.completed + [x])
  {
    TakesLogs(c, s, t, op, next, s');
    if op.Report? {
      assert op.completion.id == s.threads[t].id;
    }
  }

  lemma NextIsIncomplete(s: State, j: nat)
    requires NoRepeats(s.admitted) && Ids(s.completed) <= s.admitted && |s.completed| < j < |s.admitted|
    ensures s.admitted[|s.completed|] in EarlierIncomplete(s, j)
  {
    assert forall i | 0 <= i < |s.completed| :: Ids(s.completed)[i] == s.admitted[i];
  }

  /** With one worker, reporting a held id continues the admission order. */
  lemma SoloReport(c: Config, s: State, t: Thread, x: Completion)
    requires c.Valid() && c.workers == 1 && Inv(c, s) && Ids(s.completed) <= s.admitted
    requires t in s.threads && Held(s.threads[t]) && x.id == s.threads[t].id
    ensures Ids(s.completed + [x]) <= s.admitted
  {
    var j := SoloPosition(s, t);
    Overtaking(c, s, t, j);
    if |s.completed| < j {
      NextIsIncomplete(s, j);
    }
    assert Ids(s.completed + [x]) == Ids(s.completed) + [x.id];
  }

  /** A held id stands in the admission log after the completed ones. */
  lemma SoloPosition(s: State, t: Thread) returns (j: nat)
    requires Fifo(s) && Custody(s) && Ids(s.completed) <= s.admitted
    requires t in s.threads && Held(s.threads[t])
    ensures |s.completed| <= j < |s.admitted| && s.admitted[j] == s.threads[t].id
  {
    j :| 0 <= j < |s.dequeued| && s.dequeued[j] == s.threads[t].id;
    assert s.admitted[j] == s.dequeued[j];
    assert forall i | 0 <= i < |s.completed| :: s.admitted[i] == Ids(s.completed)[i];
  }

  lemma StepKeepsOrder(c: Config, s: State, a: Action)
    requires c.Valid() && c.workers == 1 && Inv(c, s) && Step(c, s, a).Some? && Ids(s.completed) <= s.admitted
    ensures var s' := Step(c, s, a).value; Ids(s'.completed) <= s'.admitted
  {
    LogsGrow(c, s, a);
    var s' := Step(c, s, a).value;
    if s'.completed != s.completed {
      var x: Completion :| x.id == s.threads[a.t].id && s'.completed == s.completed + [x];
      SoloReport(c, s, a.t, x);
    }
  }

  lemma {:induction false} RunKeepsOrder(c: Config, s: State, acts: seq<Action>, t: State)
    requires c.Valid() && c.workers == 1 && Inv(c, s) && Ids(s.completed) <= s.admitted && Executes(c, s, acts, t)
    ensures Ids(t.completed) <= t.admitted
    decreases |acts|
  {
    if acts != [] {
      StepKeepsInv(c, s, acts[0]);
      StepKeepsOrder(c, s, acts[0]);
      RunKeepsOrder(c, Step(c, s, acts[0]).value, acts[1..], t);
    }
  }

  /** With one worker, completions, discards included, come in admission order. */
  lemma OneWorkerKeepsOrder(c: Config, s: State)
    requires c.capacity >= 1 && c.workers == 1 && Reachable(c, s)
    ensures Ids(s.completed) <= s.admitted
  {
    var acts :| Executes(c, INITIAL, acts, s);
    InitialInv(c);
    RunKeepsOrder(c, INITIAL, acts, s);
  }

  // ---------------------------------------------------------------- graceful drain

  /**
   Nothing admitted to a started manager is discarded, or even taken by the finisher, unless
   some worker left because the run context was cancelled.
   */
  lemma DiscardNeedsCancelledExit(c: Config, s: State)
    requires c.Valid() && Reachable(c, s) && s.started
    requires exists k :: 0 <= k < |s.completed| && s.completed[k].outcome == Discarded
    ensures s.stopped && CancelledExit(s)
  {
    ReachableInv(c, s);
    assert Discards(s);
  }

  /** In this run the run context is never cancelled while a worker is alive. */
  predicate NeverCancelledEarly(c: Config, s: State, acts: seq<Action>)
    decreases |acts|
  {
    && (s.cancelled ==> WorkersExited(c, s))
    && (acts != [] && Step(c, s, acts[0]).Some? ==> NeverCancelledEarly(c, Step(c, s, acts[0]).value, acts[1..]))
  }

  /** Only a worker that sees a cancelled context exits early. */
  lemma EarlyExitText(c: Config, s: State, t: Thread, arm: Arm)
    requires Kinds(s) && Lifecycle(c, s) && t in s.threads && Text(c, s, t, arm).Some?
    requires Text(c, s, t, arm).value.next == Exited(false)
    ensures s.cancelled && !WorkersExited(c, s)
  {
    assert t.Worker? && s.threads[t].Idle?;
  }

  lemma ExitsGoto(s: State, s': State, t: Thread)
    requires !CancelledExit(s) && t in s'.threads && s'.threads[t] != Exited(false)
    requires forall u | u in s'.threads && u != t ::
               s'.threads[u] == Waiting || (u in s.threads && s'.threads[u] == s.threads[u])
    ensures !CancelledExit(s')
  {
  }

  lemma ThreadKeepsExits(c: Config, s: State, t: Thread, arm: Arm)
    requires Inv(c, s) && t in s.threads && StepThread(c, s, t, arm).Some?
    requires !CancelledExit(s) && (s.cancelled ==> WorkersExited(c, s))
    ensures !CancelledExit(StepThread(c, s, t, arm).value)
  {
    ThreadStaysIn(c, s, t, arm);
    var op, next := ThreadTakes(c, s, t, arm);
    TakesMoves(c, s, t, op, next, StepThread(c, s, t, arm).value);
    ExitsGoto(s, StepThread(c, s, t, arm).value, t);
  }

  lemma ThreadStaysIn(c: Config, s: State, t: Thread, arm: Arm)
    requires Kinds(s) && Lifecycle(c, s) && t in s.threads && Text(c, s, t, arm).Some?
    requires s.cancelled ==> WorkersExited(c, s)
    ensures Text(c, s, t, arm).value.next != Exited(false)
  {
    if Text(c, s, t, arm).value.next == Exited(false) {
      EarlyExitText(c, s, t, arm);
    }
  }

  lemma StepKeepsExits(c: Config, s: State, a: Action)
    requires Inv(c, s) && Step(c, s, a).Some? && !CancelledExit(s) && (s.cancelled ==> WorkersExited(c, s))
    ensures !CancelledExit(Step(c, s, a).value)
  {
    match a
    case Enqueue(t, _, _) => ExitsGoto(s, Step(c, s, a).value, t);
    case Shutdown(t) => ExitsGoto(s, Step(c, s, a).value, t);
    case Start => StartKeepsExits(c, s);
    case Cancel =>
    case Expire(_) =>
    case AfterFunc => StopIsLocal(s, false);
    case Run(t, arm) => ThreadKeepsExits(c, s, t, arm);
  }

  lemma StartKeepsExits(c: Config, s: State)
    requires StepStart(c, s).Some? && !CancelledExit(s)
    ensures !CancelledExit(StepStart(c, s).value)
  {
  }

  lemma {:induction false} DrainedRun(c: Config, s: State, acts: seq<Action>, t: State)
    requires c.Valid() && Inv(c, s) && !CancelledExit(s) && NeverCancelledEarly(c, s, acts) && Executes(c, s, acts, t)
    ensures !CancelledExit(t)
    decreases |acts|
  {
    if acts != [] {
      StepKeepsInv(c, s, acts[0]);
      StepKeepsExits(c, s, acts[0]);
      DrainedRun(c, Step(c, s, acts[0]).value, acts[1..], t);
    }
  }

  /**
   Graceful drain: if `Start` succeeded and the run context is never cancelled while a worker is
   alive, every completion is a delivery result.
   */
  lemma GracefulDrain(c: Config, acts: seq<Action>, s: State)
    requires c.Valid() && Executes(c, INITIAL, acts, s) && NeverCancelledEarly(c, INITIAL, acts)
    requires s.started
    ensures forall k | 0 <= k < |s.completed| :: s.completed[k].outcome != Discarded
    ensures Finisher(0) in s.threads ==> !Held(s.threads[Finisher(0)])
  {
    InitialInv(c);
    ExecutesKeepsInv(c, INITIAL, acts, s);
    DrainedRun(c, INITIAL, acts, s);
    assert !Discards(s);
  }

  /** A worker that exits without cancellation has seen a closed, empty mailbox, for good. */
  lemma DrainedForGood(c: Config, s: State, t: Thread, acts: seq<Action>, s': State)
    requires c.Valid() && Reachable(c, s) && t in s.threads && s.threads[t] == Exited(true)
    requires Executes(c, s, acts, s')
    ensures s'.closed && s'.mailbox == []
  {
    ReachableInv(c, s);
    StaysEmpty(c, s, acts, s');
  }

  lemma {:induction false} StaysEmpty(c: Config, s: State, acts: seq<Action>, s': State)
    requires c.Valid() && Inv(c, s) && s.closed && s.mailbox == [] && Executes(c, s, acts, s')
    ensures s'.closed && s'.mailbox == []
    decreases |acts|
  {
    if acts != [] {
      StepKeepsInv(c, s, acts[0]);
      ClosedNeverGrows(c, s, acts[0]);
      StaysEmpty(c, Step(c, s, acts[0]).value, acts[1..], s');
    }
  }

  lemma ClosedNeverGrows(c: Config, s: State, a: Action)
    requires Inv(c, s) && Step(c, s, a).Some? && s.closed
    ensures var s' := Step(c, s, a).value; s'.closed && |s'.mailbox| <= |s.mailbox|
  {
    StepOnward(c, s, a);
    match a
    case Enqueue(_, _, _) => case Shutdown(_) => case Start => case Cancel => case Expire(_) =>
    case AfterFunc => StopIsLocal(s, false);
    case Run(t, arm) =>
      var op, next := ThreadTakes(c, s, t, arm);
      TakesLogs(c, s, t, op, next, Step(c, s, a).value);
      SendIsOpen(c, s, t, op, next);
  }

  // ---------------------------------------------------------------- quiescence

  /**
   When `done` is closed every worker has exited, mailbox and store are empty, every admitted id
   has its completion, and occupied slots belong to callers that have still to be refused. No
   run ever has a second finisher.
   */
  lemma Quiescence(c: Config, s: State)
    requires c.Valid() && Reachable(c, s)
    ensures forall k: nat | Finisher(k) in s.threads :: k == 0
    ensures s.done ==>
      && s.stopped && WorkersExited(c, s)
      && s.mailbox == [] && s.store == map[]
      && multiset(Ids(s.completed)) == multiset(s.admitted)
      && s.slots == |Tokens(s.threads)|
      && forall t | t in Tokens(s.threads) :: s.threads[t].Reserved? || s.threads[t].Locked? || s.threads[t].Refusing?
  {
    ReachableInv(c, s);
    if s.done {
      NothingHeld(c, s);
      ExactlyOnce(c, s);
      StoreEmptied(c, s);
    }
  }

  lemma NothingHeld(c: Config, s: State)
    requires c.Valid() && Kinds(s) && Lifecycle(c, s) && s.done
    ensures HeldThreads(s.threads) == {} && HeldIds(s.threads) == {}
    ensures forall t | t in Tokens(s.threads) :: s.threads[t].Reserved? || s.threads[t].Locked? || s.threads[t].Refusing?
  {
    HoldersInPool(c, s);
    assert HeldThreads(s.threads) <= {Finisher(0)};
    assert forall t | t in s.threads && Held(s.threads[t]) :: t in HeldThreads(s.threads);
  }

  lemma StoreEmptied(c: Config, s: State)
    requires c.Valid() && Kinds(s) && Lifecycle(c, s) && Stock(s) && s.done
    ensures s.store == map[]
  {
    NothingHeld(c, s);
    assert forall t | t in s.threads && Shelved(s.threads[t]) :: t in HeldThreads(s.threads) || t in Tokens(s.threads);
    assert forall t | t in s.threads :: !Shelved(s.threads[t]);
    assert forall id :: !ShelvedBySome(s, id);
    assert forall id :: id in s.store ==> id in s.mailbox;
    assert s.store.Keys == {};
  }

  /** `Shutdown` and `Wait` report success only after `done`, hence in a quiescent state. */
  lemma ShutdownSuccess(c: Config, s: State, t: Thread, arm: Arm)
    requires c.Valid() && Reachable(c, s) && t in s.threads
    requires Step(c, s, Run(t, arm)).Some?
    requires var s' := Step(c, s, Run(t, arm)).value;
      t in s'.threads && s'.threads[t] == ShutdownReturned(true) && s.threads[t] != ShutdownReturned(true)
    ensures s.done && multiset(Ids(s.completed)) == multiset(s.admitted)
  {
    ReachableInv(c, s);
    SuccessSeesDone(c, s, t, arm);
    Quiescence(c, s);
  }

  lemma SuccessSeesDone(c: Config, s: State, t: Thread, arm: Arm)
    requires Inv(c, s) && t in s.threads && StepThread(c, s, t, arm).Some?
    requires var s' := StepThread(c, s, t, arm).value; t in s'.threads && s'.threads[t] == ShutdownReturned(true)
    requires s.threads[t] != ShutdownReturned(true)
    ensures s.done
  {
    var op, next := ThreadTakes(c, s, t, arm);
    TakesMoves(c, s, t, op, next, StepThread(c, s, t, arm).value);
    SuccessText(c, s, t, arm);
  }

  lemma SuccessText(c: Config, s: State, t: Thread, arm: Arm)
    requires t in s.threads && Text(c, s, t, arm).Some? && Text(c, s, t, arm).value.next == ShutdownReturned(true)
    ensures s.done
  {
    match s.threads[t]
    case ShutdownWaiting => case ShutdownEntered => case ShutdownExpired => case _ =>
  }
}
