/** Once admission has stopped the manager comes to rest: no livelock and no deadlock. */
module ProtocolTermination {
  import opened Wrappers
  import opened Protocol
  import opened ProtocolInvariant
  import opened ProtocolSafety
  import opened ProtocolShutdown

  // ---------------------------------------------------------------- a bound on manager steps

  /** Steps a worker or the finisher still takes on its own before it must receive again. */
  function PcRank(pc: Pc): nat {
    match pc
    case Idle => 1 case Completing(_, _, _) => 2 case Delivering(_, _) => 3 case Deleted(_, _) => 4
    case Found(_, _) => 5 case Got(_) => 6
    case Draining => 1 case Discarding(_, _) => 2 case Removed(_, _) => 3 case Looked(_, _) => 4
    case Taken(_) => 5 case Stopping => 6 case Waiting => 7
    case _ => 0
  }

  function Rank(threads: map<Thread, Pc>, t: Thread): nat {
    if t in threads then PcRank(threads[t]) else 0
  }

  function WorkersRank(threads: map<Thread, Pc>, n: nat): nat {
    if n == 0 then 0 else WorkersRank(threads, n - 1) + Rank(threads, Worker(n - 1))
  }

  /** A bound on the steps the manager's goroutines can still take once admission has stopped. */
  function Work(c: Config, s: State): nat {
    6 * |s.mailbox| + WorkersRank(s.threads, c.workers) + Rank(s.threads, Finisher(0))
  }

  /** A step of a worker or of the finisher. */
  predicate ManagerStep(a: Action) {
    a.Run? && (a.t.Worker? || a.t.Finisher?)
  }

  lemma {:induction false} WorkersRankGoto(threads: map<Thread, Pc>, n: nat, t: Thread, next: Pc)
    requires t in threads
    ensures WorkersRank(threads[t := next], n)
         == WorkersRank(threads, n)
            + (if t.Worker? && t.i < n then PcRank(next) - PcRank(threads[t]) else 0)
  {
    if n > 0 {
      WorkersRankGoto(threads, n - 1, t, next);
    }
  }

  /** How ranks fall along the program texts. */
  lemma TextRank(c: Config, s: State, t: Thread, arm: Arm)
    requires t in s.threads && KindOk(t, s.threads[t]) && !t.Caller? && Text(c, s, t, arm).Some?
    ensures var i := Text(c, s, t, arm).value;
      && !i.op.Send?
      && PcRank(i.next) < PcRank(s.threads[t]) + (if i.op.Receive? then 6 else 0)
  {
  }

  lemma StopWhenStopped(c: Config, s: State, drain: bool)
    requires Lifecycle(c, s) && s.stopped
    ensures Stop(s, drain).threads == s.threads && Stop(s, drain).mutex == s.mutex && Stop(s, drain).stopped
  {
  }

  lemma WorkGoto(c: Config, s: State, s': State, t: Thread, next: Pc)
    requires Kinds(s) && Lifecycle(c, s) && t in s.threads && s'.threads == s.threads[t := next]
    ensures !t.Caller? ==>
      Work(c, s') - 6 * |s'.mailbox| - PcRank(next) == Work(c, s) - 6 * |s.mailbox| - PcRank(s.threads[t])
  {
    WorkersRankGoto(s.threads, c.workers, t, next);
    if t.Worker? {
      assert t.i < c.workers;
    }
    if t.Finisher? {
      assert t == Finisher(0);
    }
  }

  /**
   Once admission has stopped, every worker or finisher step uses up work and no other step adds
   any.
   */
  lemma WorkDecreases(c: Config, s: State, a: Action)
    requires Inv(c, s) && s.stopped && Step(c, s, a).Some?
    ensures var s' := Step(c, s, a).value;
      s'.stopped && if ManagerStep(a) then Work(c, s') < Work(c, s) else Work(c, s') == Work(c, s)
  {
    StepOnward(c, s, a);
    match a
    case Start => case Cancel => case Expire(_) =>
    case Enqueue(t, id, _) => NewCallerWork(c, s, t, Selecting(id));
    case Shutdown(t) => NewCallerWork(c, s, t, ShutdownEntered);
    case AfterFunc => StopWhenStopped(c, s, false);
    case Run(t, arm) => ThreadWork(c, s, t, arm);
  }

  lemma NewCallerWork(c: Config, s: State, t: Thread, pc: Pc)
    requires t.Caller?
    ensures Work(c, Goto(s, t, pc)) == Work(c, s)
  {
    CallerIsNoWorker(s.threads, c.workers, t, pc);
  }

  lemma {:induction false} CallerIsNoWorker(threads: map<Thread, Pc>, n: nat, t: Thread, pc: Pc)
    requires t.Caller?
    ensures WorkersRank(threads[t := pc], n) == WorkersRank(threads, n)
  {
    if n > 0 {
      CallerIsNoWorker(threads, n - 1, t, pc);
    }
  }

  lemma ThreadWork(c: Config, s: State, t: Thread, arm: Arm)
    requires Inv(c, s) && s.stopped && t in s.threads && StepThread(c, s, t, arm).Some?
    ensures var s' := StepThread(c, s, t, arm).value;
      if t.Caller? then Work(c, s') == Work(c, s) else Work(c, s') < Work(c, s)
  {
    var op, next := ThreadTakes(c, s, t, arm);
    if !t.Caller? {
      TextRank(c, s, t, arm);
    }
    TakesWork(c, s, t, op, next, StepThread(c, s, t, arm).value);
  }

  lemma TakesWork(c: Config, s: State, t: Thread, op: Op, next: Pc, s': State)
    requires Kinds(s) && Lifecycle(c, s) && s.stopped && Takes(c, s, t, op, next, s')
    requires !t.Caller? ==> !op.Send? && PcRank(next) < PcRank(s.threads[t]) + (if op.Receive? then 6 else 0)
    ensures if t.Caller? then Work(c, s') == Work(c, s) else Work(c, s') < Work(c, s)
  {
    TakesThreads(c, s, t, op, next, s');
    TakesLogs(c, s, t, op, next, s');
    SendIsOpen(c, s, t, op, next);
    WorkGoto(c, s, s', t, next);
    if t.Caller? {
      CallerIsNoWorker(s.threads, c.workers, t, next);
    }
  }

  /** Once stopped, a step moves its thread and starts none. */
  lemma TakesThreads(c: Config, s: State, t: Thread, op: Op, next: Pc, s': State)
    requires Lifecycle(c, s) && s.stopped && Takes(c, s, t, op, next, s')
    ensures s'.threads == s.threads[t := next] && s'.stopped
    ensures s'.mutex == if op.Lock? then Some(t) else if op.Unlock? then None else s.mutex
  {
    if op.CallStop? {
      StopWhenStopped(c, s, op.drain);
    }
  }

  function ManagerSteps(acts: seq<Action>): nat {
    if acts == [] then 0 else (if ManagerStep(acts[0]) then 1 else 0) + ManagerSteps(acts[1..])
  }

  lemma {:induction false} WorkBoundsSteps(c: Config, s: State, acts: seq<Action>, t: State)
    requires c.Valid() && Inv(c, s) && s.stopped && Executes(c, s, acts, t)
    ensures ManagerSteps(acts) + Work(c, t) <= Work(c, s)
    decreases |acts|
  {
    if acts != [] {
      StepKeepsInv(c, s, acts[0]);
      WorkDecreases(c, s, acts[0]);
      WorkBoundsSteps(c, Step(c, s, acts[0]).value, acts[1..], t);
    }
  }

  lemma {:induction false} WorkersRankBound(threads: map<Thread, Pc>, n: nat)
    requires forall t | t in threads :: KindOk(t, threads[t])
    ensures WorkersRank(threads, n) <= 6 * n
  {
    if n > 0 {
      WorkersRankBound(threads, n - 1);
    }
  }

  /**
   Termination: after admission has stopped, no schedule, however long and whatever callers do,
   contains more than 6 * (queued + workers) + 7 steps of the manager's goroutines.
   */
  lemma ShutdownTerminates(c: Config, s: State, acts: seq<Action>, t: State)
    requires c.Valid() && Reachable(c, s) && s.stopped && Executes(c, s, acts, t)
    ensures ManagerSteps(acts) <= 6 * (|s.mailbox| + c.workers) + 7
  {
    ReachableInv(c, s);
    WorkBoundsSteps(c, s, acts, t);
    WorkersRankBound(s.threads, c.workers);
  }

  // ---------------------------------------------------------------- someone can always move

  ghost predicate CanRun(c: Config, s: State, t: Thread) {
    exists arm :: Step(c, s, Run(t, arm)).Some?
  }

  /** The thread inside a critical section is never blocked. */
  lemma HolderRuns(c: Config, s: State, t: Thread)
    requires Inv(c, s) && s.mutex == Some(t)
    ensures Step(c, s, Run(t, Proceed)).Some?
  {
    assert Critical(s.threads[t]);
    assert Token(s.threads[t]) ==> t in Tokens(s.threads);
    HolderTextRuns(c, s, t);
  }

  lemma HolderTextRuns(c: Config, s: State, t: Thread)
    requires t in s.threads && Critical(s.threads[t]) && KindOk(t, s.threads[t])
    requires Unsent(s.threads[t]) ==> s.threads[t].id in s.issued
    requires Token(s.threads[t]) ==> s.slots > 0
    requires Admitting(s.threads[t]) ==> !s.closed && (Token(s.threads[t]) ==> |s.mailbox| < c.capacity)
    ensures StepThread(c, s, t, Proceed).Some?
  {
    match s.threads[t]
    case Locked(_) => case Checked(_) => case Stored(_) => case Sent(_) => case Refusing(_, _) => case Refused(_, _) =>
  }

  /** Once admission has stopped a live worker is never blocked. */
  lemma WorkerRuns(c: Config, s: State, t: Thread)
    requires Inv(c, s) && s.stopped && t in s.threads && t.Worker? && !s.threads[t].Exited?
    ensures Step(c, s, Run(t, Proceed)).Some? || Step(c, s, Run(t, Deliver(true))).Some?
  {
    assert Token(s.threads[t]) ==> t in Tokens(s.threads);
    WorkerTextRuns(c, s, t);
  }

  lemma WorkerTextRuns(c: Config, s: State, t: Thread)
    requires t in s.threads && t.Worker? && WorkerPc(s.threads[t]) && !s.threads[t].Exited? && s.closed
    requires Token(s.threads[t]) ==> s.slots > 0
    ensures StepThread(c, s, t, Proceed).Some? || StepThread(c, s, t, Deliver(true)).Some?
  {
    match s.threads[t]
    case Idle => case Got(_) => case Found(_, _) => case Deleted(_, _) => case Delivering(_, _) => case Completing(_, _, _) =>
  }

  /** Once the workers have exited the finisher is blocked at most by the mutex. */
  lemma FinisherRuns(c: Config, s: State, t: Thread)
    requires Inv(c, s) && s.stopped && t in s.threads && t.Finisher? && !s.threads[t].Finished?
    requires WorkersExited(c, s) && s.mutex.None?
    ensures Step(c, s, Run(t, Proceed)).Some?
  {
    if s.threads[t].Stopping? {
      StoppingRuns(c, s, t);
    } else {
      assert Token(s.threads[t]) ==> t in Tokens(s.threads);
      FinisherTextRuns(c, s, t);
    }
  }

  lemma StoppingRuns(c: Config, s: State, t: Thread)
    requires t in s.threads && t.Finisher? && s.threads[t].Stopping? && s.mutex.None?
    ensures StepThread(c, s, t, Proceed).Some?
  {
  }

  lemma FinisherTextRuns(c: Config, s: State, t: Thread)
    requires t in s.threads && t.Finisher? && FinisherPc(s.threads[t]) && s.closed
    requires !s.threads[t].Finished? && !s.threads[t].Stopping?
    requires Token(s.threads[t]) ==> s.slots > 0
    requires WorkersExited(c, s)
    ensures StepThread(c, s, t, Proceed).Some?
  {
    match s.threads[t]
    case Waiting => case Draining => case Taken(_) => case Looked(_, _) => case Removed(_, _) =>
    case Discarding(_, _) =>
  }

  /** The thread that moves next: the mutex holder, else a live worker, else the finisher. */
  ghost function NextRunner(c: Config, s: State): Thread {
    if s.mutex.Some? then s.mutex.value
    else if WorkersExited(c, s) then Finisher(0)
    else
      var i: nat :| i < c.workers && Worker(i) in s.threads && !s.threads[Worker(i)].Exited?;
      Worker(i)
  }

  /**
   Deadlock freedom: from the moment admission stops until `done` is closed, the mutex holder, a
   worker or the finisher has an enabled step.
   */
  lemma Progress(c: Config, s: State)
    requires c.Valid() && Reachable(c, s) && s.stopped && !s.done
    ensures exists t :: CanRun(c, s, t) && (t.Worker? || t.Finisher? || s.mutex == Some(t))
  {
    ReachableInv(c, s);
    RunnerRuns(c, s);
  }

  lemma RunnerRuns(c: Config, s: State)
    requires c.Valid() && Inv(c, s) && s.stopped && !s.done
    ensures var t := NextRunner(c, s); CanRun(c, s, t) && (t.Worker? || t.Finisher? || s.mutex == Some(t))
  {
    var t := NextRunner(c, s);
    if s.mutex.Some? {
      HolderRuns(c, s, t);
    } else if WorkersExited(c, s) {
      FinisherRuns(c, s, t);
    } else {
      WorkerRuns(c, s, t);
    }
  }

  // ---------------------------------------------------------------- a schedule that finishes

  /** Steps the mutex holder still needs to leave its critical section. */
  function HolderRank(s: State): nat {
    if s.mutex.Some? && s.mutex.value in s.threads then
      match s.threads[s.mutex.value]
      case Locked(_) => 3 case Refusing(_, _) => 2 case Refused(_, _) => 1 case _ => 0
    else 0
  }

  lemma RunnerAdvances(c: Config, s: State, t: Thread, arm: Arm)
    requires c.Valid() && Inv(c, s) && s.stopped && Step(c, s, Run(t, arm)).Some?
    requires t.Worker? || t.Finisher? || s.mutex == Some(t)
    ensures var s' := Step(c, s, Run(t, arm)).value;
      s'.stopped && Work(c, s') + HolderRank(s') < Work(c, s) + HolderRank(s)
  {
    WorkDecreases(c, s, Run(t, arm));
    if s.mutex == Some(t) {
      HolderAdvances(c, s, t, arm);
    } else {
      OtherKeepsHolder(c, s, t, arm);
    }
  }

  lemma OtherKeepsHolder(c: Config, s: State, t: Thread, arm: Arm)
    requires Inv(c, s) && s.stopped && t in s.threads && !t.Caller? && StepThread(c, s, t, arm).Some?
    requires s.mutex != Some(t)
    ensures HolderRank(StepThread(c, s, t, arm).value) == HolderRank(s)
  {
    var op, next := ThreadTakes(c, s, t, arm);
    OtherKeepsMutex(c, s, t, op, next, StepThread(c, s, t, arm).value);
  }

  /** Workers and the finisher never own the mutex between two steps. */
  lemma OtherKeepsMutex(c: Config, s: State, t: Thread, op: Op, next: Pc, s': State)
    requires Kinds(s) && Lifecycle(c, s) && s.stopped && Takes(c, s, t, op, next, s')
    requires !t.Caller? && s.mutex != Some(t)
    ensures HolderRank(s') == HolderRank(s)
  {
    TakesThreads(c, s, t, op, next, s');
    assert !Critical(s.threads[t]) && !Critical(next);
  }

  lemma HolderAdvances(c: Config, s: State, t: Thread, arm: Arm)
    requires Inv(c, s) && s.stopped && s.mutex == Some(t) && StepThread(c, s, t, arm).Some?
    ensures HolderRank(StepThread(c, s, t, arm).value) < HolderRank(s) && t.Caller?
  {
    assert Critical(s.threads[t]) && !Admitting(s.threads[t]);
    HolderTextAdvances(c, s, t, arm);
    var op, next := ThreadTakes(c, s, t, arm);
    TakesThreads(c, s, t, op, next, StepThread(c, s, t, arm).value);
  }

  lemma HolderTextAdvances(c: Config, s: State, t: Thread, arm: Arm)
    requires t in s.threads && KindOk(t, s.threads[t]) && Critical(s.threads[t]) && !Admitting(s.threads[t])
    requires s.stopped && Text(c, s, t, arm).Some?
    ensures var i := Text(c, s, t, arm).value;
      && !i.op.CallStop?
      && (s.threads[t].Locked? ==> i.next.Refusing?)
      && (s.threads[t].Refusing? ==> i.next.Refused?)
      && (s.threads[t].Refused? ==> i.op.Unlock?)
  {
  }

  lemma ExecutesCons(c: Config, s: State, a: Action, s': State, rest: seq<Action>, t: State)
    requires Step(c, s, a) == Some(s') && Executes(c, s', rest, t)
    ensures Executes(c, s, [a] + rest, t)
  {
    assert ([a] + rest)[1..] == rest;
  }

  lemma NextStep(c: Config, s: State) returns (a: Action, s': State)
    requires c.Valid() && Inv(c, s) && s.stopped && !s.done
    ensures a.Run? && Step(c, s, a) == Some(s') && Inv(c, s') && s'.stopped
    ensures Work(c, s') + HolderRank(s') < Work(c, s) + HolderRank(s)
  {
    RunnerRuns(c, s);
    var runner := NextRunner(c, s);
    var arm :| Step(c, s, Run(runner, arm)).Some?;
    a, s' := Run(runner, arm), Step(c, s, Run(runner, arm)).value;
    StepKeepsInv(c, s, a);
    RunnerAdvances(c, s, runner, arm);
  }

  /**
   From every reachable state after `stop` there is a schedule, using only the mutex holder, the
   workers and the finisher, that closes `done` within Work + 3 steps.
   */
  lemma {:induction false} DoneIsReachable(c: Config, s: State) returns (acts: seq<Action>, t: State)
    requires c.Valid() && Inv(c, s) && s.stopped
    ensures Executes(c, s, acts, t) && t.done && |acts| <= Work(c, s) + HolderRank(s)
    ensures forall i | 0 <= i < |acts| :: acts[i].Run?
    decreases Work(c, s) + HolderRank(s)
  {
    if s.done {
      acts, t := [], s;
    } else {
      var a, s' := NextStep(c, s);
      var rest;
      rest, t := DoneIsReachable(c, s');
      ExecutesCons(c, s, a, s', rest, t);
      acts := [a] + rest;
    }
  }

  lemma WorkBound(c: Config, s: State)
    requires Kinds(s)
    ensures Work(c, s) + HolderRank(s) <= 6 * (|s.mailbox| + c.workers) + 10
  {
    WorkersRankBound(s.threads, c.workers);
  }

  lemma StoppedFinishes(c: Config, s: State) returns (acts: seq<Action>, t: State)
    requires c.Valid() && Inv(c, s) && s.stopped
    ensures Executes(c, s, acts, t) && Inv(c, t) && t.done
    ensures |acts| <= 6 * (|s.mailbox| + c.workers) + 10
  {
    WorkBound(c, s);
    acts, t := DoneIsReachable(c, s);
    ExecutesKeepsInv(c, s, acts, t);
  }

  /** `Shutdown` can always complete: done is at most 6 * (queued + workers) + 10 steps away. */
  lemma ShutdownCanComplete(c: Config, s: State) returns (acts: seq<Action>, t: State)
    requires c.Valid() && Reachable(c, s) && s.stopped
    ensures Executes(c, s, acts, t) && t.done
    ensures |acts| <= 6 * (|s.mailbox| + c.workers) + 10
  {
    ReachableInv(c, s);
    acts, t := StoppedFinishes(c, s);
  }

  // ---------------------------------------------------------------- cancelling the run context

  /** Steps a critical section still takes, with admission open or stopped. */
  function SectionRank(pc: Pc): nat {
    match pc
    case Locked(_) => 4 case Checked(_) => 3 case Stored(_) => 2 case Sent(_) => 1
    case Refusing(_, _) => 2 case Refused(_, _) => 1 case _ => 0
  }

  /** The critical section may still send. */
  function MaySend(pc: Pc): nat {
    if pc.Locked? || pc.Checked? || pc.Stored? then 1 else 0
  }

  lemma SectionText(c: Config, s: State, t: Thread, arm: Arm)
    requires t in s.threads && KindOk(t, s.threads[t]) && Critical(s.threads[t]) && Text(c, s, t, arm).Some?
    ensures var i := Text(c, s, t, arm).value;
      && !i.op.CallStop? && !i.op.Lock?
      && SectionRank(i.next) < SectionRank(s.threads[t])
      && (i.op.Unlock? <==> SectionRank(i.next) == 0)
      && MaySend(i.next) + (if i.op.Send? then 1 else 0) <= MaySend(s.threads[t])
  {
    match s.threads[t]
    case Locked(_) => case Checked(_) => case Stored(_) => case Sent(_) => case Refusing(_, _) => case Refused(_, _) =>
  }

  /** One step of the mutex holder brings its critical section closer to its end. */
  lemma SectionAdvances(c: Config, s: State, t: Thread) returns (s': State)
    requires c.Valid() && Inv(c, s) && s.mutex == Some(t)
    ensures t in s.threads && Step(c, s, Run(t, Proceed)) == Some(s') && Inv(c, s') && s'.cancelled == s.cancelled
    ensures s'.mutex.None? || (s'.mutex == Some(t) && t in s'.threads && SectionRank(s'.threads[t]) < SectionRank(s.threads[t]))
    ensures |s'.mailbox| + (if s'.mutex.Some? then MaySend(s'.threads[t]) else 0) <= |s.mailbox| + MaySend(s.threads[t])
    ensures SectionRank(s.threads[t]) > 0
  {
    HolderRuns(c, s, t);
    s' := Step(c, s, Run(t, Proceed)).value;
    StepKeepsInv(c, s, Run(t, Proceed));
    SectionText(c, s, t, Proceed);
    var op, next := ThreadTakes(c, s, t, Proceed);
    SectionMoves(c, s, t, op, next, s');
  }

  lemma SectionMoves(c: Config, s: State, t: Thread, op: Op, next: Pc, s': State)
    requires Takes(c, s, t, op, next, s') && s.mutex == Some(t) && !op.CallStop? && !op.Lock?
    ensures s'.cancelled == s.cancelled && t in s'.threads && s'.threads[t] == next
    ensures s'.mutex == if op.Unlock? then None else Some(t)
    ensures |s'.mailbox| <= |s.mailbox| + if op.Send? then 1 else 0
  {
  }

  /** The mutex holder can leave its critical section on its own. */
  lemma {:induction false} SectionEnds(c: Config, s: State, t: Thread) returns (acts: seq<Action>, r: State)
    requires c.Valid() && Inv(c, s) && s.mutex == Some(t)
    ensures t in s.threads && Executes(c, s, acts, r) && Inv(c, r) && r.mutex.None? && r.cancelled == s.cancelled
    ensures |acts| <= SectionRank(s.threads[t]) && |r.mailbox| <= |s.mailbox| + MaySend(s.threads[t])
    decreases if t in s.threads then SectionRank(s.threads[t]) else 0
  {
    var s' := SectionAdvances(c, s, t);
    var rest;
    if s'.mutex.None? {
      rest, r := [], s';
    } else {
      rest, r := SectionEnds(c, s', t);
    }
    ExecutesCons(c, s, Run(t, Proceed), s', rest, r);
    acts := [Run(t, Proceed)] + rest;
  }

  /** The mutex can be released within four steps and one send. */
  lemma MutexIsReleased(c: Config, s: State) returns (acts: seq<Action>, r: State)
    requires c.Valid() && Inv(c, s)
    ensures Executes(c, s, acts, r) && Inv(c, r) && r.mutex.None? && r.cancelled == s.cancelled
    ensures |acts| <= 4 && |r.mailbox| <= |s.mailbox| + 1
  {
    if s.mutex.None? {
      return [], s;
    }
    acts, r := SectionEnds(c, s, s.mutex.value);
  }

  lemma {:induction false} ExecutesConcat(c: Config, s: State, first: seq<Action>, r: State, second: seq<Action>, t: State)
    requires Executes(c, s, first, r) && Executes(c, r, second, t)
    ensures Executes(c, s, first + second, t)
    decreases |first|
  {
    if first == [] {
      assert first + second == second;
    } else {
      ExecutesConcat(c, Step(c, s, first[0]).value, first[1..], r, second, t);
      assert (first + second)[1..] == first[1..] + second;
    }
  }

  lemma CallbackStops(c: Config, s: State) returns (s': State)
    requires c.Valid() && Inv(c, s) && s.cancelled && s.mutex.None?
    ensures Step(c, s, AfterFunc) == Some(s') && Inv(c, s') && s'.stopped && s'.mailbox == s.mailbox
  {
    s' := Stop(s, false);
    StopKeepsInv(c, s, false);
    StopIsLocal(s, false);
  }

  /** With the mutex free, the callback of a cancelled context stops the manager, which then finishes. */
  lemma CallbackFinishes(c: Config, s: State) returns (acts: seq<Action>, t: State)
    requires c.Valid() && Inv(c, s) && s.cancelled && s.mutex.None?
    ensures Executes(c, s, acts, t) && Inv(c, t) && t.done
    ensures |acts| <= 6 * (|s.mailbox| + c.workers) + 11
  {
    var s' := CallbackStops(c, s);
    var rest;
    rest, t := StoppedFinishes(c, s');
    ExecutesCons(c, s, AfterFunc, s', rest, t);
    acts := [AfterFunc] + rest;
  }

  /** Once `done` is closed, every waiting `Shutdown` or `Wait` can return success. */
  lemma WaitersReturn(c: Config, s: State, t: Thread)
    requires Inv(c, s) && s.done && t in s.threads && s.threads[t].ShutdownWaiting?
    ensures Step(c, s, Run(t, Proceed)) == Some(Goto(s, t, ShutdownReturned(true)))
  {
    assert t.Caller?;
    WaiterText(c, s, t);
  }

  lemma WaiterText(c: Config, s: State, t: Thread)
    requires s.done && t in s.threads && t.Caller? && s.threads[t].ShutdownWaiting?
    ensures StepThread(c, s, t, Proceed) == Some(Goto(s, t, ShutdownReturned(true)))
  {
  }

  /**
   Cancelling the context given to `Start` ends the manager: from every reachable state with the
   run context cancelled, `done` is at most 6 * (queued + 1 + workers) + 15 steps away, and then
   every waiting caller can return.
   */
  lemma CancelCanComplete(c: Config, s: State) returns (acts: seq<Action>, t: State)
    requires c.Valid() && Reachable(c, s) && s.cancelled
    ensures Executes(c, s, acts, t) && t.done
    ensures |acts| <= 6 * (|s.mailbox| + 1 + c.workers) + 15
    ensures forall u | u in t.threads && t.threads[u].ShutdownWaiting? :: Step(c, t, Run(u, Proceed)).Some?
  {
    ReachableInv(c, s);
    acts, t := CancelFinishes(c, s);
    forall u | u in t.threads && t.threads[u].ShutdownWaiting?
      ensures Step(c, t, Run(u, Proceed)).Some?
    {
      WaitersReturn(c, t, u);
    }
  }

  lemma CancelFinishes(c: Config, s: State) returns (acts: seq<Action>, t: State)
    requires c.Valid() && Inv(c, s) && s.cancelled
    ensures Executes(c, s, acts, t) && Inv(c, t) && t.done
    ensures |acts| <= 6 * (|s.mailbox| + 1 + c.workers) + 15
  {
    var release, r := MutexIsReleased(c, s);
    var rest;
    rest, t := CallbackFinishes(c, r);
    ExecutesConcat(c, s, release, r, rest, t);
    acts := release + rest;
  }
}
