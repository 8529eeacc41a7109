/** The interleaved protocol refines an atomic bounded queue with a bounded pool of takers. */
module ProtocolRefinement {
  import opened Wrappers
  import opened Protocol
  import opened ProtocolInvariant
  import opened ProtocolSafety
  import opened ProtocolShutdown

  // ---------------------------------------------------------------- the atomic queue

  /** Queued ids in order, ids taken and not completed, the note of every admitted id. */
  datatype Queue = Queue(waiting: seq<Id>, active: set<Id>, notes: map<Id, Note>,
                         completed: seq<Completion>, stopped: bool)

  datatype Event = Admit(id: Id, note: Note) | Take | Complete(completion: Completion) | StopAdmission

  const EMPTY := Queue([], {}, map[], [], false)

  /** What the manager promises its users, one atomic step per event. */
  function QueueStep(c: Config, q: Queue, e: Event): Option<Queue> {
    match e
    case Admit(id, note) =>
      if !q.stopped && |q.waiting| < c.capacity && id !in q.notes then
        Some(q.(waiting := q.waiting + [id], notes := q.notes[id := note]))
      else None
    case Take =>
      if q.waiting != [] && |q.active| < c.workers then
        Some(q.(waiting := q.waiting[1..], active := q.active + {q.waiting[0]}))
      else None
    case Complete(x) =>
      if x.id in q.active && x.id in q.notes && x.note == q.notes[x.id] && (x.outcome == Discarded ==> q.stopped) then
        Some(q.(active := q.active - {x.id}, completed := q.completed + [x]))
      else None
    case StopAdmission => if !q.stopped then Some(q.(stopped := true)) else None
  }

  predicate QueueRuns(c: Config, q: Queue, events: seq<Event>, r: Queue)
    decreases |events|
  {
    if events == [] then q == r
    else QueueStep(c, q, events[0]).Some? && QueueRuns(c, QueueStep(c, q, events[0]).value, events[1..], r)
  }

  // ---------------------------------------------------------------- what every run of the atomic queue satisfies

  /** Bounds, conservation and truthfulness of the atomic queue. */
  ghost predicate QueueOk(c: Config, q: Queue) {
    |q.waiting| <= c.capacity && |q.active| <= c.workers && Conserved(q) && Truthful(q)
  }

  ghost predicate Conserved(q: Queue) {
    multiset(q.waiting) + multiset(q.active) + multiset(Ids(q.completed)) == multiset(q.notes.Keys)
  }

  ghost predicate Truthful(q: Queue) {
    forall k | 0 <= k < |q.completed| ::
      && q.completed[k].id in q.notes && q.completed[k].note == q.notes[q.completed[k].id]
      && (q.completed[k].outcome == Discarded ==> q.stopped)
  }

  lemma QueueStepOk(c: Config, q: Queue, e: Event)
    requires QueueOk(c, q) && QueueStep(c, q, e).Some?
    ensures QueueOk(c, QueueStep(c, q, e).value)
  {
    var r := QueueStep(c, q, e).value;
    match e
    case Admit(id, note) => AdmitConserves(q, r, id);
    case Take => TakeConserves(q, r);
    case Complete(x) => CompleteConserves(q, r, x);
    case StopAdmission =>
  }

  lemma AdmitConserves(q: Queue, r: Queue, id: Id)
    requires Conserved(q) && id !in q.notes && r.waiting == q.waiting + [id] && r.notes.Keys == q.notes.Keys + {id}
    requires r.active == q.active && r.completed == q.completed
    ensures Conserved(r)
  {
    assert multiset(r.notes.Keys) == multiset(q.notes.Keys) + multiset{id};
    assert multiset(r.waiting) == multiset(q.waiting) + multiset{id};
  }

  lemma TakeConserves(q: Queue, r: Queue)
    requires Conserved(q) && q.waiting != [] && r.waiting == q.waiting[1..] && r.active == q.active + {q.waiting[0]}
    requires r.completed == q.completed && r.notes == q.notes
    ensures Conserved(r)
  {
    var id := q.waiting[0];
    assert q.waiting == [id] + q.waiting[1..];
    assert multiset(q.waiting) == multiset{id} + multiset(r.waiting);
    assert multiset(q.notes.Keys)[id] <= 1;
    assert multiset(r.active) == multiset(q.active) + multiset{id};
  }

  lemma CompleteConserves(q: Queue, r: Queue, x: Completion)
    requires Conserved(q) && x.id in q.active && r.active == q.active - {x.id}
    requires r.waiting == q.waiting && r.completed == q.completed + [x] && r.notes == q.notes
    ensures Conserved(r)
  {
    assert multiset(q.active) == multiset(r.active) + multiset{x.id};
    assert Ids(r.completed) == Ids(q.completed) + [x.id];
  }

  /** Ids admitted by some events, in order. */
  function AdmittedIn(events: seq<Event>): seq<Id> {
    if events == [] then []
    else AdmittedIn(events[..|events| - 1]) + match events[|events| - 1] case Admit(id, _) => [id] case _ => []
  }

  function TakesIn(events: seq<Event>): nat {
    if events == [] then 0 else TakesIn(events[..|events| - 1]) + if events[|events| - 1].Take? then 1 else 0
  }

  lemma {:induction false} LastQueueStep(c: Config, q: Queue, events: seq<Event>, r: Queue) returns (p: Queue)
    requires events != [] && QueueRuns(c, q, events, r)
    ensures QueueRuns(c, q, events[..|events| - 1], p) && QueueStep(c, p, events[|events| - 1]) == Some(r)
    decreases |events|
  {
    if |events| == 1 {
      assert events[1..] == [];
      return q;
    }
    p := LastQueueStep(c, QueueStep(c, q, events[0]).value, events[1..], r);
    assert events[1..][..|events| - 2] == events[..|events| - 1][1..];
  }

  /**
   What the atomic queue promises, for every run of it: at most `capacity` ids wait and at most
   `workers` are active; every admitted id waits, is active or was completed, once; ids are taken in
   admission order; completions carry the notification admitted with their id; only a stopped queue
   discards.
   */
  lemma QueueIsSound(c: Config, events: seq<Event>, q: Queue)
    requires QueueRuns(c, EMPTY, events, q)
    ensures |q.waiting| <= c.capacity && |q.active| <= c.workers
    ensures multiset(q.waiting) + multiset(q.active) + multiset(Ids(q.completed)) == multiset(q.notes.Keys)
    ensures TakesIn(events) <= |AdmittedIn(events)|
    ensures q.waiting == AdmittedIn(events)[TakesIn(events)..]
    ensures forall k | 0 <= k < |q.completed| ::
              && q.completed[k].id in q.notes && q.completed[k].note == q.notes[q.completed[k].id]
              && (q.completed[k].outcome == Discarded ==> q.stopped)
  {
    QueueRunOk(c, events, q);
    QueueRunOrder(c, events, q);
  }

  lemma {:induction false} QueueRunOk(c: Config, events: seq<Event>, q: Queue)
    requires QueueRuns(c, EMPTY, events, q)
    ensures QueueOk(c, q)
    decreases |events|
  {
    if events != [] {
      var p := LastQueueStep(c, EMPTY, events, q);
      QueueRunOk(c, events[..|events| - 1], p);
      QueueStepOk(c, p, events[|events| - 1]);
    }
  }

  lemma {:induction false} QueueRunOrder(c: Config, events: seq<Event>, q: Queue)
    requires QueueRuns(c, EMPTY, events, q)
    ensures TakesIn(events) <= |AdmittedIn(events)| && q.waiting == AdmittedIn(events)[TakesIn(events)..]
    decreases |events|
  {
    if events != [] {
      var p := LastQueueStep(c, EMPTY, events, q);
      QueueRunOrder(c, events[..|events| - 1], p);
    }
  }

  /** A stopped queue admits nothing more. */
  lemma {:induction false} StoppedQueueAdmitsNothing(c: Config, q: Queue, events: seq<Event>, r: Queue)
    requires QueueRuns(c, q, events, r) && q.stopped
    ensures r.stopped && r.notes == q.notes
    decreases |events|
  {
    if events != [] {
      StoppedQueueAdmitsNothing(c, QueueStep(c, q, events[0]).value, events[1..], r);
    }
  }

  // ---------------------------------------------------------------- the abstraction

  function AdmittedNotes(s: State): map<Id, Note> {
    map id | id in s.admitted && id in s.issued :: s.issued[id]
  }

  function Abstract(s: State): Queue {
    Queue(s.mailbox, HeldIds(s.threads), AdmittedNotes(s), s.completed, s.stopped)
  }

  /** The visible event of an operation, None for the internal ones. */
  function EventOf(s: State, op: Op): Option<Event> {
    match op
    case Send(id) => if id in s.issued then Some(Admit(id, s.issued[id])) else None
    case Receive => Some(Take)
    case Report(x) => Some(Complete(x))
    case CallStop(_) => if s.stopped then None else Some(StopAdmission)
    case _ => None
  }

  function Visible(c: Config, s: State, a: Action): Option<Event> {
    match a
    case AfterFunc => if s.stopped then None else Some(StopAdmission)
    case Run(t, arm) =>
      if t in s.threads && Text(c, s, t, arm).Some? then EventOf(s, Text(c, s, t, arm).value.op) else None
    case _ => None
  }

  function Trace(c: Config, s: State, acts: seq<Action>): seq<Event>
    decreases |acts|
  {
    if acts == [] || Step(c, s, acts[0]).None? then []
    else
      (match Visible(c, s, acts[0]) case Some(e) => [e] case None => [])
      + Trace(c, Step(c, s, acts[0]).value, acts[1..])
  }

  // ---------------------------------------------------------------- each step refines

  predicate Refines(c: Config, s: State, e: Option<Event>, s': State) {
    match e
    case None => Abstract(s') == Abstract(s)
    case Some(e) => QueueStep(c, Abstract(s), e) == Some(Abstract(s'))
  }

  lemma SameHeldIds(before: map<Thread, Pc>, after: map<Thread, Pc>)
    requires forall u | u in before && Held(before[u]) :: u in after && after[u] == before[u]
    requires forall u | u in after && Held(after[u]) :: u in before && before[u] == after[u]
    ensures HeldIds(after) == HeldIds(before)
  {
  }

  /** Threads that hold nothing do not show in the abstraction. */
  lemma BareRefines(c: Config, s: State, s': State)
    requires AddsBare(s, s') && s'.stopped == s.stopped
    ensures Abstract(s') == Abstract(s)
  {
    SameHeldIds(s.threads, s'.threads);
  }

  lemma CallRefines(c: Config, s: State, s': State, t: Thread, id: Id, note: Note)
    requires Fifo(s) && Calls(s, s', t, id, note) && s'.stopped == s.stopped
    ensures Abstract(s') == Abstract(s)
  {
    SameHeldIds(s.threads, s'.threads);
    assert forall x | x in s.admitted :: x != id;
    assert AdmittedNotes(s').Keys == AdmittedNotes(s).Keys;
  }

  /** A thread that starts to hold an id adds it. */
  lemma HeldIdsGain(threads: map<Thread, Pc>, t: Thread, next: Pc)
    requires t in threads && !Held(threads[t]) && Held(next)
    ensures HeldIds(threads[t := next]) == HeldIds(threads) + {next.id}
  {
    var after := threads[t := next];
    forall id | id in HeldIds(threads)
      ensures id in HeldIds(after)
    {
      var u :| u in threads && Held(threads[u]) && threads[u].id == id;
      assert u in after && after[u] == threads[u];
    }
    assert t in after && after[t] == next;
  }

  /** A thread that lets go of an id no other thread holds removes it. */
  lemma HeldIdsLose(threads: map<Thread, Pc>, t: Thread, next: Pc)
    requires t in threads && Held(threads[t]) && !Held(next)
    requires forall u | u in threads && u != t && Held(threads[u]) :: threads[u].id != threads[t].id
    ensures threads[t].id in HeldIds(threads)
    ensures HeldIds(threads[t := next]) == HeldIds(threads) - {threads[t].id}
  {
    var after := threads[t := next];
    forall id | id in HeldIds(threads) && id != threads[t].id
      ensures id in HeldIds(after)
    {
      var u :| u in threads && Held(threads[u]) && threads[u].id == id;
      assert u in after && after[u] == threads[u];
    }
  }

  lemma HeldIdsKept(threads: map<Thread, Pc>, t: Thread, next: Pc)
    requires t in threads && (Held(next) <==> Held(threads[t])) && (Held(next) ==> next.id == threads[t].id)
    ensures HeldIds(threads[t := next]) == HeldIds(threads)
  {
    var after := threads[t := next];
    forall id | id in HeldIds(threads)
      ensures id in HeldIds(after)
    {
      var u :| u in threads && Held(threads[u]) && threads[u].id == id;
      assert u in after && Held(after[u]) && after[u].id == id;
    }
  }

  /** A thread that can receive leaves room in the pool. */
  lemma TakerHasRoom(c: Config, s: State, t: Thread)
    requires c.Valid() && Kinds(s) && Lifecycle(c, s)
    requires t in s.threads && (s.threads[t].Idle? || s.threads[t].Draining?)
    ensures |HeldIds(s.threads)| < c.workers
  {
    HoldersInPool(c, s);
    assert t in Pool(c, s);
    SubsetSize(HeldThreads(s.threads), Pool(c, s) - {t});
    IdsOfSize(s.threads, HeldThreads(s.threads));
    assert HeldIds(s.threads) == IdsOf(s.threads, HeldThreads(s.threads));
  }

  lemma NotesGrow(s: State, s': State, op: Op)
    requires s'.issued == s.issued && s'.admitted == (if op.Send? then s.admitted + [op.id] else s.admitted)
    ensures op.Send? && op.id in s.issued ==> AdmittedNotes(s') == AdmittedNotes(s)[op.id := s.issued[op.id]]
    ensures !op.Send? ==> AdmittedNotes(s') == AdmittedNotes(s)
  {
  }

  lemma SendRefines(c: Config, s: State, t: Thread, op: Op, next: Pc, s': State)
    requires Lifecycle(c, s) && Fifo(s) && t in s.threads && Fits(c, s, t, op, next) && op.Send?
    requires After(s, t, op, next, s') && |s.mailbox| < c.capacity
    ensures Refines(c, s, EventOf(s, op), s')
  {
    HeldIdsKept(s.threads, t, next);
    NotesGrow(s, s', op);
  }

  lemma ReceiveRefines(c: Config, s: State, t: Thread, op: Op, next: Pc, s': State)
    requires c.Valid() && Kinds(s) && Lifecycle(c, s) && t in s.threads
    requires op.Receive? && s.mailbox != [] && (s.threads[t].Idle? || s.threads[t].Draining?)
    requires FitsQueue(s, s.threads[t], op, next) && After(s, t, op, next, s')
    ensures Refines(c, s, EventOf(s, op), s')
  {
    HeldIdsGain(s.threads, t, next);
    TakerHasRoom(c, s, t);
    NotesGrow(s, s', op);
  }

  lemma ReportRefines(c: Config, s: State, t: Thread, op: Op, next: Pc, s': State)
    requires Lifecycle(c, s) && Drain(s) && Fifo(s) && Custody(s) && t in s.threads && Fits(c, s, t, op, next)
    requires op.Report? && After(s, t, op, next, s')
    ensures Refines(c, s, EventOf(s, op), s')
  {
    HeldIdsLose(s.threads, t, next);
    NotesGrow(s, s', op);
    assert op.completion.id in s.dequeued;
    assert op.completion.outcome == Discarded ==> s.stopped by {
      assert op.completion.outcome == Discarded ==> t == Finisher(0);
    }
  }

  lemma InternalRefines(c: Config, s: State, t: Thread, op: Op, next: Pc, s': State)
    requires t in s.threads && FitsQueue(s, s.threads[t], op, next)
    requires !op.Send? && !op.Receive? && !op.Report? && !op.CallStop? && After(s, t, op, next, s')
    ensures Refines(c, s, EventOf(s, op), s')
  {
    HeldIdsKept(s.threads, t, next);
    NotesGrow(s, s', op);
  }

  lemma StopRefines(c: Config, s: State, drain: bool)
    requires Lifecycle(c, s)
    ensures Refines(c, s, if s.stopped then None else Some(StopAdmission), Stop(s, drain))
  {
    assert Finisher(s.spawned) !in s.threads;
    SameHeldIds(s.threads, Stop(s, drain).threads);
  }

  lemma OpRefines(c: Config, s: State, t: Thread, op: Op, next: Pc, s': State)
    requires c.Valid() && Inv(c, s) && t in s.threads && Fits(c, s, t, op, next) && !op.CallStop?
    requires op.Receive? ==> s.mailbox != [] && (s.threads[t].Idle? || s.threads[t].Draining?)
    requires op.Send? ==> |s.mailbox| < c.capacity
    requires After(s, t, op, next, s')
    ensures Refines(c, s, EventOf(s, op), s')
  {
    match op
    case Send(_) => SendRefines(c, s, t, op, next, s');
    case Receive => ReceiveRefines(c, s, t, op, next, s');
    case Report(_) => ReportRefines(c, s, t, op, next, s');
    case _ => InternalRefines(c, s, t, op, next, s');
  }

  lemma TakesRefines(c: Config, s: State, t: Thread, op: Op, next: Pc, s': State)
    requires c.Valid() && Inv(c, s) && Takes(c, s, t, op, next, s')
    ensures Refines(c, s, EventOf(s, op), s')
  {
    if op.CallStop? {
      StopCallRefines(c, s, t, op, next);
    } else {
      OpRefines(c, s, t, op, next, s');
    }
  }

  lemma ThreadRefines(c: Config, s: State, t: Thread, arm: Arm)
    requires c.Valid() && Inv(c, s) && t in s.threads && StepThread(c, s, t, arm).Some?
    ensures Refines(c, s, EventOf(s, Text(c, s, t, arm).value.op), StepThread(c, s, t, arm).value)
  {
    var op, next := ThreadTakes(c, s, t, arm);
    TakesRefines(c, s, t, op, next, StepThread(c, s, t, arm).value);
  }

  /** Calling `stop` and moving on shows the stop, once. */
  lemma StopCallRefines(c: Config, s: State, t: Thread, op: Op, next: Pc)
    requires Lifecycle(c, s) && t in s.threads && op.CallStop?
    requires FitsQueue(s, s.threads[t], op, next)
    ensures Refines(c, s, EventOf(s, op), Goto(Stop(s, op.drain), t, next))
  {
    StopRefines(c, s, op.drain);
    assert Finisher(s.spawned) !in s.threads;
    StopIsLocal(s, op.drain);
    GotoIsHidden(Stop(s, op.drain), t, next);
  }

  lemma GotoIsHidden(s: State, t: Thread, next: Pc)
    requires t in s.threads && (Held(next) <==> Held(s.threads[t])) && (Held(next) ==> next.id == s.threads[t].id)
    ensures Abstract(Goto(s, t, next)) == Abstract(s)
  {
    HeldIdsKept(s.threads, t, next);
  }

  /** Every step of the protocol is one atomic queue step, or shows nothing. */
  lemma StepRefines(c: Config, s: State, a: Action)
    requires c.Valid() && Inv(c, s) && Step(c, s, a).Some?
    ensures Refines(c, s, Visible(c, s, a), Step(c, s, a).value)
  {
    var s' := Step(c, s, a).value;
    match a
    case Enqueue(t, id, note) => CallRefines(c, s, s', t, id, note);
    case Run(t, arm) => ThreadRefines(c, s, t, arm);
    case AfterFunc => StopRefines(c, s, false);
    case _ =>
      StepAddsBare(c, s, a);
      BareRefines(c, s, s');
  }

  lemma {:induction false} RunRefines(c: Config, s: State, acts: seq<Action>, t: State)
    requires c.Valid() && Inv(c, s) && Executes(c, s, acts, t)
    ensures QueueRuns(c, Abstract(s), Trace(c, s, acts), Abstract(t))
    decreases |acts|
  {
    if acts != [] {
      var s' := Step(c, s, acts[0]).value;
      StepKeepsInv(c, s, acts[0]);
      StepRefines(c, s, acts[0]);
      RunRefines(c, s', acts[1..], t);
      var rest := Trace(c, s', acts[1..]);
      if Visible(c, s, acts[0]).Some? {
        var e := Visible(c, s, acts[0]).value;
        assert ([e] + rest)[1..] == rest;
      } else {
        assert [] + rest == rest;
      }
    }
  }

  /** Refinement: the visible events of every run are a run of the atomic queue. */
  lemma ProtocolRefinesQueue(c: Config, acts: seq<Action>, s: State)
    requires c.Valid() && Executes(c, INITIAL, acts, s)
    ensures QueueRuns(c, EMPTY, Trace(c, INITIAL, acts), Abstract(s))
  {
    InitialInv(c);
    RunRefines(c, INITIAL, acts, s);
    assert Abstract(INITIAL) == EMPTY;
  }
}
