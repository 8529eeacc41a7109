/** What `Shutdown` does to queued work, stated over what callers and their contexts do. */
module ProtocolDrain {
  import opened Wrappers
  import opened Protocol
  import opened ProtocolInvariant
  import opened ProtocolSafety
  import opened ProtocolShutdown
  import opened ProtocolTermination

  /** The run context is never cancelled from outside, and no `Shutdown` call runs out of time. */
  predicate NoAbort(acts: seq<Action>) {
    forall i | 0 <= i < |acts| :: !acts[i].Cancel? && (acts[i].Expire? ==> Shutdown(acts[i].t) !in acts)
  }

  // ---------------------------------------------------------------- nothing cancels a draining manager

  /** The same for runs whose `Shutdown` calls are among the given callers. */
  predicate Undisturbed(acts: seq<Action>, callers: set<Thread>) {
    forall i | 0 <= i < |acts| ::
      !acts[i].Cancel? && (acts[i].Expire? ==> acts[i].t !in callers) && (acts[i].Shutdown? ==> acts[i].t in callers)
  }

  /** Delivery is not cancelled while a worker is alive, and no `Shutdown` call is about to do it. */
  ghost predicate Calm(c: Config, s: State, callers: set<Thread>) {
    && (s.cancelled ==> WorkersExited(c, s))
    && (forall t | t in s.threads && ShutdownPc(s.threads[t]) :: t in callers && !s.threads[t].ShutdownExpired?)
    && s.expired !! callers
  }

  /** Only the finisher and a `Shutdown` call that ran out of time stop without draining. */
  lemma AbortText(c: Config, s: State, t: Thread, arm: Arm)
    requires t in s.threads && Text(c, s, t, arm).Some?
    ensures var i := Text(c, s, t, arm).value;
      && (i.op.CallStop? ==> i.op.drain || s.threads[t].Stopping? || s.threads[t].ShutdownExpired?)
      && (ShutdownPc(i.next) ==> ShutdownPc(s.threads[t]))
      && (i.next.ShutdownExpired? ==> t in s.expired)
  {
    match s.threads[t]
    case ShutdownEntered => case ShutdownWaiting => case ShutdownExpired => case _ =>
  }

  lemma WorkersStayExited(c: Config, s: State, t: Thread, op: Op, next: Pc, s': State)
    requires Kinds(s) && Lifecycle(c, s) && Takes(c, s, t, op, next, s') && WorkersExited(c, s)
    ensures WorkersExited(c, s')
  {
    TakesMoves(c, s, t, op, next, s');
  }

  /** What `stop` writes besides the channels. */
  lemma StopSets(s: State, drain: bool)
    ensures Stop(s, drain).stopped && Stop(s, drain).cancelled == (s.cancelled || (!drain && s.started))
  {
    if s.stopped {
      StopAgainSets(s, drain);
    }
  }

  lemma StopAgainSets(s: State, drain: bool)
    requires s.stopped
    ensures Stop(s, drain).stopped && Stop(s, drain).cancelled == (s.cancelled || (!drain && s.started))
  {
  }

  lemma StopLeaves(s: State, drain: bool)
    ensures Stop(s, drain).started == s.started && Stop(s, drain).expired == s.expired
  {
    if s.stopped {
      StopAgainLeaves(s, drain);
    }
  }

  lemma StopAgainLeaves(s: State, drain: bool)
    requires s.stopped
    ensures Stop(s, drain).started == s.started && Stop(s, drain).expired == s.expired
  {
  }

  /** A thread cancels the run context only when it aborts a started manager. */
  lemma TakesCancels(c: Config, s: State, t: Thread, op: Op, next: Pc, s': State)
    requires Takes(c, s, t, op, next, s')
    ensures s'.cancelled == (s.cancelled || (op.CallStop? && !op.drain && s.started))
    ensures s'.expired == s.expired && s'.started == s.started && (op.CallStop? ==> s'.stopped)
  {
    if op.CallStop? {
      StopSets(s, op.drain);
      StopLeaves(s, op.drain);
    }
  }

  lemma ThreadKeepsCalm(c: Config, s: State, t: Thread, arm: Arm, callers: set<Thread>)
    requires Inv(c, s) && Calm(c, s, callers) && t in s.threads && StepThread(c, s, t, arm).Some?
    ensures Calm(c, StepThread(c, s, t, arm).value, callers)
  {
    var s' := StepThread(c, s, t, arm).value;
    AbortText(c, s, t, arm);
    var op, next := ThreadTakes(c, s, t, arm);
    TakesKeepsCalm(c, s, t, op, next, s', callers);
  }

  lemma TakesKeepsCalm(c: Config, s: State, t: Thread, op: Op, next: Pc, s': State, callers: set<Thread>)
    requires Kinds(s) && Lifecycle(c, s) && Calm(c, s, callers) && Takes(c, s, t, op, next, s')
    requires op.CallStop? ==> op.drain || s.threads[t].Stopping? || s.threads[t].ShutdownExpired?
    requires ShutdownPc(next) ==> ShutdownPc(s.threads[t]) && (next.ShutdownExpired? ==> t in s.expired)
    ensures Calm(c, s', callers)
  {
    TakesCancels(c, s, t, op, next, s');
    if s'.cancelled {
      CancelFindsExits(c, s, t, op, next);
      WorkersStayExited(c, s, t, op, next, s');
    }
    TakesMoves(c, s, t, op, next, s');
    MovesKeepCallers(s, s', t, next, callers);
  }

  lemma MovesKeepCallers(s: State, s': State, t: Thread, next: Pc, callers: set<Thread>)
    requires forall u | u in s.threads && ShutdownPc(s.threads[u]) :: u in callers && !s.threads[u].ShutdownExpired?
    requires Moves(s, s', t, next) && s.expired !! callers
    requires ShutdownPc(next) ==> ShutdownPc(s.threads[t]) && (next.ShutdownExpired? ==> t in s.expired)
    ensures forall u | u in s'.threads && ShutdownPc(s'.threads[u]) :: u in callers && !s'.threads[u].ShutdownExpired?
  {
  }

  lemma CancelFindsExits(c: Config, s: State, t: Thread, op: Op, next: Pc)
    requires Kinds(s) && Lifecycle(c, s) && t in s.threads
    requires (s.cancelled && WorkersExited(c, s)) || (op.CallStop? && s.threads[t].Stopping?)
    ensures WorkersExited(c, s)
  {
    if s.threads[t].Stopping? {
      assert t.Finisher? && t == Finisher(0);
    }
  }

  lemma BareKeepsCalm(c: Config, s: State, s': State, callers: set<Thread>)
    requires Lifecycle(c, s) && Calm(c, s, callers) && AddsBare(s, s') && s'.cancelled == s.cancelled
    requires s'.started == s.started || !s.cancelled
    requires forall i: nat | Worker(i) in s'.threads :: Worker(i) in s.threads || !s.cancelled
    requires forall t | t in s'.threads && t !in s.threads && ShutdownPc(s'.threads[t]) :: t in callers
    requires s'.expired !! callers
    ensures Calm(c, s', callers)
  {
  }

  lemma CallKeepsCalm(c: Config, s: State, t: Thread, pc: Pc, callers: set<Thread>)
    requires Calm(c, s, callers) && t.Caller? && !ShutdownPc(pc)
    ensures Calm(c, Goto(s, t, pc), callers)
  {
  }

  lemma CallbackKeepsCalm(c: Config, s: State, callers: set<Thread>)
    requires Lifecycle(c, s) && Calm(c, s, callers) && s.cancelled
    ensures Calm(c, Stop(s, false), callers)
  {
    StopIsLocal(s, false);
    StopSets(s, false);
    StopLeaves(s, false);
    assert Finisher(s.spawned) !in s.threads;
  }

  lemma StepKeepsCalm(c: Config, s: State, a: Action, callers: set<Thread>)
    requires Inv(c, s) && Calm(c, s, callers) && Step(c, s, a).Some?
    requires !a.Cancel? && (a.Expire? ==> a.t !in callers) && (a.Shutdown? ==> a.t in callers)
    ensures Calm(c, Step(c, s, a).value, callers)
  {
    match a
    case Enqueue(t, id, _) => CallKeepsCalm(c, s, t, Selecting(id), callers);
    case Run(t, arm) => ThreadKeepsCalm(c, s, t, arm, callers);
    case AfterFunc => CallbackKeepsCalm(c, s, callers);
    case _ => BareStepKeepsCalm(c, s, a, callers);
  }

  lemma BareStepKeepsCalm(c: Config, s: State, a: Action, callers: set<Thread>)
    requires Lifecycle(c, s) && Calm(c, s, callers) && Step(c, s, a).Some? && (a.Shutdown? || a.Start? || a.Expire?)
    requires (a.Expire? ==> a.t !in callers) && (a.Shutdown? ==> a.t in callers)
    ensures Calm(c, Step(c, s, a).value, callers)
  {
    StepAddsBare(c, s, a);
    BareKeepsCalm(c, s, Step(c, s, a).value, callers);
  }

  lemma {:induction false} CalmNeverCancels(c: Config, s: State, acts: seq<Action>, callers: set<Thread>)
    requires c.Valid() && Inv(c, s) && Calm(c, s, callers) && Undisturbed(acts, callers)
    ensures NeverCancelledEarly(c, s, acts)
    decreases |acts|
  {
    if acts != [] && Step(c, s, acts[0]).Some? {
      StepKeepsInv(c, s, acts[0]);
      StepKeepsCalm(c, s, acts[0], callers);
      CalmNeverCancels(c, Step(c, s, acts[0]).value, acts[1..], callers);
    }
  }

  lemma {:induction false} NeverCancelledAtEnd(c: Config, s: State, acts: seq<Action>, t: State)
    requires NeverCancelledEarly(c, s, acts) && Executes(c, s, acts, t)
    ensures t.cancelled ==> WorkersExited(c, t)
    decreases |acts|
  {
    if acts != [] {
      NeverCancelledAtEnd(c, Step(c, s, acts[0]).value, acts[1..], t);
    }
  }

  lemma NoAbortNeverCancels(c: Config, acts: seq<Action>)
    requires c.Valid() && NoAbort(acts)
    ensures NeverCancelledEarly(c, INITIAL, acts)
  {
    var callers := set a | a in acts && a.Shutdown? :: a.t;
    forall i | 0 <= i < |acts| && acts[i].Expire?
      ensures acts[i].t !in callers
    {
      assert Shutdown(acts[i].t) !in acts;
    }
    InitialInv(c);
    CalmNeverCancels(c, INITIAL, acts, callers);
  }

  /**
   `Shutdown` drains: unless the run context is cancelled from outside or a `Shutdown` call runs
   out of time, delivery is not cancelled while a worker is alive, and a manager that was started
   discards nothing. Once `done` is closed, every admitted notification has a delivery result.
   */
  lemma ShutdownDrains(c: Config, acts: seq<Action>, s: State)
    requires c.Valid() && Executes(c, INITIAL, acts, s) && NoAbort(acts)
    ensures s.cancelled ==> WorkersExited(c, s)
    ensures s.started ==> forall k | 0 <= k < |s.completed| :: s.completed[k].outcome != Discarded
    ensures s.started && Finisher(0) in s.threads ==> !Held(s.threads[Finisher(0)])
    ensures s.done ==> multiset(Ids(s.completed)) == multiset(s.admitted)
  {
    NoAbortNeverCancels(c, acts);
    NeverCancelledAtEnd(c, INITIAL, acts, s);
    if s.started {
      GracefulDrain(c, acts, s);
    }
    Quiescence(c, s);
  }

  /**
   And it can always finish: from every state such a run reaches after a stop, more steps of
   goroutines alone lead to `done` with a delivery result for every admitted notification.
   */
  lemma DrainCanComplete(c: Config, acts: seq<Action>, s: State) returns (more: seq<Action>, t: State)
    requires c.Valid() && Executes(c, INITIAL, acts, s) && NoAbort(acts) && s.started && s.stopped
    ensures Executes(c, INITIAL, acts + more, t) && NoAbort(acts + more) && t.done
    ensures multiset(Ids(t.completed)) == multiset(t.admitted)
    ensures forall k | 0 <= k < |t.completed| :: t.completed[k].outcome != Discarded
  {
    InitialInv(c);
    ExecutesKeepsInv(c, INITIAL, acts, s);
    more, t := DoneIsReachable(c, s);
    ExecutesConcat(c, INITIAL, acts, s, more, t);
    RunsAddNoAbort(acts, more);
    StaysStarted(c, s, more, t);
    ShutdownDrains(c, acts + more, t);
  }

  lemma RunsAddNoAbort(acts: seq<Action>, more: seq<Action>)
    requires NoAbort(acts) && forall i | 0 <= i < |more| :: more[i].Run?
    ensures NoAbort(acts + more)
  {
    forall i | 0 <= i < |acts + more|
      ensures !(acts + more)[i].Cancel?
      ensures (acts + more)[i].Expire? ==> Shutdown((acts + more)[i].t) !in acts + more
    {
      if i < |acts| {
        assert (acts + more)[i] == acts[i];
        assert acts[i].Expire? ==> Shutdown(acts[i].t) !in more;
      } else {
        assert (acts + more)[i] == more[i - |acts|];
      }
    }
  }

  lemma {:induction false} StaysStarted(c: Config, s: State, acts: seq<Action>, t: State)
    requires c.Valid() && Inv(c, s) && Executes(c, s, acts, t)
    ensures s.started ==> t.started
    decreases |acts|
  {
    if acts != [] {
      StepKeepsInv(c, s, acts[0]);
      StepOnward(c, s, acts[0]);
      StaysStarted(c, Step(c, s, acts[0]).value, acts[1..], t);
    }
  }

  // ---------------------------------------------------------------- what a Shutdown call has done

  /** How far each `Shutdown` call has come, and what that says about the manager. */
  predicate ShutdownsSeen(s: State) {
    forall t | t in s.threads :: ShutdownSeen(s, t, s.threads[t])
  }

  predicate ShutdownSeen(s: State, t: Thread, pc: Pc) {
    match pc
    case ShutdownWaiting => s.stopped
    case ShutdownExpired => s.stopped && t in s.expired
    case ShutdownReturned(ok) =>
      s.stopped && if ok then s.done else t in s.expired && (s.started ==> s.cancelled)
    case _ => Past(pc) ==> s.stopped && (s.started ==> s.cancelled)
  }

  /** What was seen stays true. */
  lemma SeenStays(s: State, s': State, t: Thread, pc: Pc)
    requires ShutdownSeen(s, t, pc) && Onward(s, s') && s.expired <= s'.expired
    ensures ShutdownSeen(s', t, pc)
  {
  }

  lemma ShutdownTextSees(c: Config, s: State, t: Thread, arm: Arm)
    requires t in s.threads && ShutdownSeen(s, t, s.threads[t]) && Text(c, s, t, arm).Some?
    ensures var i := Text(c, s, t, arm).value;
      match i.next
      case ShutdownWaiting => i.op == CallStop(true)
      case ShutdownExpired => s.stopped && t in s.expired
      case ShutdownReturned(ok) => s.stopped && if ok then s.done else t in s.expired && i.op == CallStop(false)
      case _ => true
  {
    match s.threads[t]
    case ShutdownEntered => case ShutdownWaiting => case ShutdownExpired => case _ =>
  }

  lemma FinisherTextSees(c: Config, s: State, t: Thread, arm: Arm)
    requires t in s.threads && Text(c, s, t, arm).Some?
    ensures var i := Text(c, s, t, arm).value; Past(i.next) ==> Past(s.threads[t]) || i.op == CallStop(false)
  {
    match s.threads[t]
    case Waiting => case Stopping => case _ =>
  }

  lemma ThreadKeepsShutdowns(c: Config, s: State, t: Thread, arm: Arm)
    requires Inv(c, s) && ShutdownsSeen(s) && t in s.threads && StepThread(c, s, t, arm).Some?
    ensures ShutdownsSeen(StepThread(c, s, t, arm).value)
  {
    var s' := StepThread(c, s, t, arm).value;
    ShutdownTextSees(c, s, t, arm);
    FinisherTextSees(c, s, t, arm);
    var op, next := ThreadTakes(c, s, t, arm);
    TakesMoves(c, s, t, op, next, s');
    TakesOnward(c, s, t, op, next, s');
    TakesCancels(c, s, t, op, next, s');
    MoveKeepsSeen(s, s', t, next);
  }

  lemma MoveKeepsSeen(s: State, s': State, t: Thread, next: Pc)
    requires ShutdownsSeen(s) && Onward(s, s') && s'.expired == s.expired && Moves(s, s', t, next)
    requires ShutdownSeen(s', t, next)
    ensures ShutdownsSeen(s')
  {
    forall u | u in s'.threads
      ensures ShutdownSeen(s', u, s'.threads[u])
    {
      if u != t && u in s.threads {
        SeenStays(s, s', u, s.threads[u]);
      }
    }
  }

  lemma StepKeepsShutdowns(c: Config, s: State, a: Action)
    requires Inv(c, s) && ShutdownsSeen(s) && Step(c, s, a).Some?
    ensures ShutdownsSeen(Step(c, s, a).value)
  {
    if a.Run? {
      ThreadKeepsShutdowns(c, s, a.t, a.arm);
      return;
    }
    StepOnward(c, s, a);
    OthersExpire(c, s, a);
    NewHaveSeenNothing(s, Step(c, s, a).value);
  }

  /** New threads have seen no stop, and what the others saw stays true. */
  lemma NewHaveSeenNothing(s: State, s': State)
    requires ShutdownsSeen(s) && Onward(s, s') && s.expired <= s'.expired
    requires forall u | u in s'.threads ::
               (u in s.threads && s'.threads[u] == s.threads[u]) || s'.threads[u].Selecting? || Bare(s'.threads[u])
    ensures ShutdownsSeen(s')
  {
    forall u | u in s'.threads
      ensures ShutdownSeen(s', u, s'.threads[u])
    {
      if u in s.threads && s'.threads[u] == s.threads[u] {
        SeenStays(s, s', u, s.threads[u]);
      }
    }
  }

  /** Actions other than thread steps move no thread and start none that has seen a stop. */
  lemma OthersExpire(c: Config, s: State, a: Action)
    requires Inv(c, s) && Step(c, s, a).Some? && !a.Run?
    ensures var s' := Step(c, s, a).value;
      && s.expired <= s'.expired
      && (forall u | u in s.threads :: u in s'.threads && s'.threads[u] == s.threads[u])
      && (forall u | u in s'.threads && u !in s.threads :: s'.threads[u].Selecting? || Bare(s'.threads[u]))
  {
    match a
    case Enqueue(_, _, _) =>
    case AfterFunc =>
      StopIsLocal(s, false);
      assert Finisher(s.spawned) !in s.threads;
    case _ => StepAddsBare(c, s, a);
  }

  lemma {:induction false} RunKeepsShutdowns(c: Config, s: State, acts: seq<Action>, t: State)
    requires c.Valid() && Inv(c, s) && ShutdownsSeen(s) && Executes(c, s, acts, t)
    ensures ShutdownsSeen(t)
    decreases |acts|
  {
    if acts != [] {
      StepKeepsInv(c, s, acts[0]);
      StepKeepsShutdowns(c, s, acts[0]);
      RunKeepsShutdowns(c, Step(c, s, acts[0]).value, acts[1..], t);
    }
  }

  /**
   A `Shutdown` call that waits has stopped admission; one that returned success has seen `done`;
   one that returned its context's error has seen that context end, and has cancelled delivery if
   the manager was started.
   */
  lemma ShutdownAnswers(c: Config, s: State, t: Thread)
    requires c.Valid() && Reachable(c, s) && t in s.threads
    ensures s.threads[t].ShutdownWaiting? || s.threads[t].ShutdownExpired? || s.threads[t].ShutdownReturned? ==> s.stopped
    ensures s.threads[t] == ShutdownReturned(true) ==> s.done
    ensures s.threads[t] == ShutdownReturned(false) ==> t in s.expired && (s.started ==> s.cancelled)
  {
    ReachableSeen(c, s);
  }

  lemma ReachableSeen(c: Config, s: State)
    requires c.Valid() && Reachable(c, s)
    ensures ShutdownsSeen(s)
  {
    var acts :| Executes(c, INITIAL, acts, s);
    InitialInv(c);
    RunKeepsShutdowns(c, INITIAL, acts, s);
  }

  /** Before it drains the mailbox, the finisher cancels the run context of a started manager. */
  lemma FinisherCancels(c: Config, s: State)
    requires c.Valid() && Reachable(c, s) && s.started
    ensures Finisher(0) in s.threads && !s.threads[Finisher(0)].Waiting? && !s.threads[Finisher(0)].Stopping? ==> s.cancelled
    ensures s.done ==> s.cancelled
  {
    ReachableInv(c, s);
    ReachableSeen(c, s);
    if Finisher(0) in s.threads {
      assert KindOk(Finisher(0), s.threads[Finisher(0)]);
      assert ShutdownSeen(s, Finisher(0), s.threads[Finisher(0)]);
    }
  }
}
