/**
 The manager, its dispatcher and its store as mutable objects, run one call at a time. The
 interleaved protocol and these methods refine the same atomic queue: every method's contract
 says which queue steps it takes.
 */
module Manager {
  import opened Wrappers
  import opened Protocol
  import opened ProtocolInvariant
  import opened ProtocolSafety
  import opened ProtocolRefinement
  import opened Routing

  datatype EnqueueError = MissingId | Refused(why: Refusal)

  datatype StartError = StartContextDone | AlreadyStarted | AlreadyStopped

  /** How the worker loop ends: still waiting for work, mailbox closed, or context done. */
  datatype Exit = WouldBlock | SawClosed | SawCancel

  lemma {:induction false} QueueRunsConcat(c: Config, q: Queue, first: seq<Event>, r: Queue, second: seq<Event>, t: Queue)
    requires QueueRuns(c, q, first, r) && QueueRuns(c, r, second, t)
    ensures QueueRuns(c, q, first + second, t)
    decreases |first|
  {
    if first == [] {
      assert first + second == second;
    } else {
      QueueRunsConcat(c, QueueStep(c, q, first[0]).value, first[1..], r, second, t);
      assert (first + second)[1..] == first[1..] + second;
    }
  }

  const DISCARD: Id -> Outcome := _ => Discarded

  function NoteOf(notes: map<Id, Note>, id: Id): Note {
    if id in notes then notes[id] else ""
  }

  /** The completions of some ids in order, each with its own note and outcome. */
  function Completions(notes: map<Id, Note>, ids: seq<Id>, outcome: Id -> Outcome): seq<Completion> {
    seq(|ids|, i requires 0 <= i < |ids| => Completion(ids[i], NoteOf(notes, ids[i]), outcome(ids[i])))
  }

  /** The queue after its oldest id was taken and completed. */
  function Round(q: Queue, outcome: Id -> Outcome): Queue
    requires q.waiting != []
  {
    var id := q.waiting[0];
    q.(waiting := q.waiting[1..], completed := q.completed + [Completion(id, NoteOf(q.notes, id), outcome(id))])
  }

  /** The queue after its n oldest ids were completed in order, each with its own note. */
  function Served(q: Queue, n: nat, outcome: Id -> Outcome): Queue
    requires n <= |q.waiting|
  {
    q.(waiting := q.waiting[n..], completed := q.completed + Completions(q.notes, q.waiting[..n], outcome))
  }

  /** What serving n ids adds to the completions. */
  lemma ServedCompletions(q: Queue, n: nat, outcome: Id -> Outcome)
    requires n <= |q.waiting|
    ensures q.completed <= Served(q, n, outcome).completed && |Served(q, n, outcome).completed| == |q.completed| + n
    ensures forall k | 0 <= k < n ::
              var x := Served(q, n, outcome).completed[|q.completed| + k];
              x.id == q.waiting[k] && x.outcome == outcome(x.id) && (x.id in q.notes ==> x.note == q.notes[x.id])
  {
  }

  /** One more round serves one more id. */
  lemma OneMoreRound(q: Queue, n: nat, outcome: Id -> Outcome)
    requires n < |q.waiting|
    ensures Served(q, n, outcome).waiting != [] && Round(Served(q, n, outcome), outcome) == Served(q, n + 1, outcome)
  {
    var id := q.waiting[n];
    assert q.waiting[..n + 1] == q.waiting[..n] + [id];
    assert Completions(q.notes, q.waiting[..n + 1], outcome)
        == Completions(q.notes, q.waiting[..n], outcome) + [Completion(id, NoteOf(q.notes, id), outcome(id))];
  }

  lemma NothingServed(q: Queue, outcome: Id -> Outcome)
    ensures Served(q, 0, outcome) == q
  {
    assert Completions(q.notes, q.waiting[..0], outcome) == [];
  }

  /** The atomic events of serving n ids. */
  function ServeEvents(q: Queue, n: nat, outcome: Id -> Outcome): seq<Event>
    requires n <= |q.waiting|
  {
    if n == 0 then []
    else
      var id := q.waiting[n - 1];
      ServeEvents(q, n - 1, outcome) + [Take, Complete(Completion(id, NoteOf(q.notes, id), outcome(id)))]
  }

  /** Serving n ids is a run of the atomic queue; only a stopped queue may discard. */
  lemma {:induction false} ServedRun(c: Config, q: Queue, n: nat, outcome: Id -> Outcome)
    requires c.workers >= 1 && n <= |q.waiting| && q.active == {}
    requires forall i | 0 <= i < n :: q.waiting[i] in q.notes && (outcome(q.waiting[i]) == Discarded ==> q.stopped)
    ensures QueueRuns(c, q, ServeEvents(q, n, outcome), Served(q, n, outcome))
    decreases n
  {
    NothingServed(q, outcome);
    if n > 0 {
      var id := q.waiting[n - 1];
      var x := Completion(id, NoteOf(q.notes, id), outcome(id));
      var before := Served(q, n - 1, outcome);
      ServedRun(c, q, n - 1, outcome);
      OneMoreRound(q, n - 1, outcome);
      TakeThenComplete(c, before, x);
      QueueRunsConcat(c, q, ServeEvents(q, n - 1, outcome), before, [Take, Complete(x)], Served(q, n, outcome));
    }
  }

  /** Taking the oldest id and completing it is two steps of the atomic queue. */
  lemma TakeThenComplete(c: Config, q: Queue, x: Completion)
    requires c.workers >= 1 && q.waiting != [] && q.active == {}
    requires x.id == q.waiting[0] && x.id in q.notes && x.note == q.notes[x.id]
    requires x.outcome == Discarded ==> q.stopped
    ensures QueueRuns(c, q, [Take, Complete(x)], q.(waiting := q.waiting[1..], completed := q.completed + [x]))
  {
    var q1 := q.(waiting := q.waiting[1..], active := {x.id});
    var q2 := q.(waiting := q.waiting[1..], completed := q.completed + [x]);
    assert q.active + {q.waiting[0]} == {x.id};
    assert QueueStep(c, q, Take) == Some(q1);
    assert q1.active - {x.id} == {};
    assert QueueStep(c, q1, Complete(x)) == Some(q2);
    assert [Take, Complete(x)][1..] == [Complete(x)];
    assert [Complete(x)][1..] == [];
    assert QueueRuns(c, q1, [Complete(x)], q2);
  }

  datatype ConfigError = BadCapacity | BadWorkers | BadReceiver(problem: TargetProblem)

  /** `NewManager` for the capacity, worker count and receivers its options leave; the receivers it keeps are fresh. */
  method NewManager(receivers: map<string, Record?>, capacity: int, workers: int)
    returns (r: Result<Manager, ConfigError>, kept: map<string, Record>)
    ensures r.Ok? <==> capacity >= 1 && workers >= 1 && AllHaveTargets(Normalized(Entries(receivers)))
    ensures r.Err? && r.error.BadCapacity? <==> capacity < 1
    ensures r.Err? && r.error.BadWorkers? <==> capacity >= 1 && workers < 1
    ensures r.Ok? ==>
      && fresh(r.value) && fresh(r.value.store) && r.value.Valid() && r.value.Contents() == EMPTY
      && r.value.c == Config(capacity, workers)
      && Values(kept) == Normalized(Entries(receivers)) && forall k | k in kept :: fresh(kept[k])
  {
    kept := map[];
    if capacity < 1 {
      return Err(BadCapacity), kept;
    }
    if workers <= 0 {
      return Err(BadWorkers), kept;
    }
    kept := NormalizeReceivers(receivers);
    var bad := ValidateReceivers(map k | k in kept :: kept[k].value);
    if bad.Some? {
      return Err(BadReceiver(bad.value)), kept;
    }
    var m := new Manager(capacity, workers);
    r := Ok(m);
  }

  /** The in-memory notification store. */
  class Store {
    var items: map<Id, Note>

    constructor ()
      ensures items == map[]
    {
      items := map[];
    }

    method Put(id: Id, note: Note)
      modifies this
      ensures items == old(items)[id := note]
    {
      items := items[id := note];
    }

    method Get(id: Id) returns (r: Option<Note>)
      ensures r == if id in items then Some(items[id]) else None
    {
      r := if id in items then Some(items[id]) else None;
    }

    method Delete(id: Id)
      modifies this
      ensures items == old(items) - {id}
    {
      items := items - {id};
    }
  }

  class Manager {
    const c: Config
    const store: Store

    var slots: nat
    var mailbox: seq<Id>
    var closed: bool
    var started: bool
    var stopped: bool
    var finishing: bool
    var stopping: bool
    var done: bool
    var cancelled: bool

    ghost var notes: map<Id, Note>         // every admitted id with its notification
    ghost var completed: seq<Completion>   // completion callbacks in order

    /** The atomic queue this object stands for. */
    ghost function Contents(): Queue
      reads this
    {
      Queue(mailbox, {}, notes, completed, stopped)
    }

    /** The protocol's invariant at rest: no goroutine between two operations. */
    ghost predicate Valid()
      reads this, store
    {
      && c.Valid()
      && slots == |mailbox| <= c.capacity
      && NoRepeats(mailbox)
      && store.items.Keys == IdSet(mailbox)
      && (forall id | id in store.items :: id in notes && notes[id] == store.items[id])
      && stopped == stopping == closed
      && finishing == (started || stopped)
      && (cancelled ==> started)
      && (done ==> stopped && mailbox == [])
    }

    constructor (capacity: nat, workers: nat)
      requires capacity >= 1 && workers >= 1
      ensures Valid() && Contents() == EMPTY && fresh(store)
      ensures c == Config(capacity, workers) && !started && !done && !cancelled
    {
      c := Config(capacity, workers);
      store := new Store();
      slots, mailbox, closed := 0, [], false;
      started, stopped, finishing, stopping, done, cancelled := false, false, false, false, false, false;
      notes, completed := map[], [];
    }

    /**
     `Enqueue`. `arm` is the ready case its select takes; `early` and `late` say whether the
     caller's context has ended on entry and once the mutex is held.
     */
    method Enqueue(id: Id, note: Note, arm: Arm, early: bool, late: bool) returns (r: Result<Id, EnqueueError>)
      requires Valid() && id !in notes
      requires early || note == "" || match arm
        case Proceed => slots < c.capacity case SeeStopping => stopping case SeeContext => late case Deliver(_) => false
      modifies this, store
      ensures Valid()
      ensures r == if early then Err(EnqueueError.Refused(ContextDone))
                   else if note == "" then Err(MissingId)
                   else if arm.SeeStopping? then Err(EnqueueError.Refused(ManagerStopped))
                   else if arm.SeeContext? then Err(EnqueueError.Refused(ContextDone))
                   else if old(stopped) || (old(started) && old(cancelled)) then Err(EnqueueError.Refused(ManagerStopped))
                   else if late then Err(EnqueueError.Refused(ContextDone))
                   else Ok(id)
      ensures r.Ok? ==> QueueStep(c, old(Contents()), Event.Admit(id, note)) == Some(Contents())
      ensures r.Err? ==> Contents() == old(Contents()) && slots == old(slots) && store.items == old(store.items)
      ensures unchanged(`started, `stopped, `finishing, `stopping, `done, `cancelled, `closed)
    {
      if early {
        return Err(EnqueueError.Refused(ContextDone));
      }
      if note == "" {
        return Err(MissingId);
      }
      if arm.SeeStopping? {
        return Err(EnqueueError.Refused(ManagerStopped));
      }
      if arm.SeeContext? {
        return Err(EnqueueError.Refused(ContextDone));
      }
      slots := slots + 1;
      if stopped || (started && cancelled) {
        slots := slots - 1;
        return Err(EnqueueError.Refused(ManagerStopped));
      }
      if late {
        slots := slots - 1;
        return Err(EnqueueError.Refused(ContextDone));
      }
      store.Put(id, note);
      assert !closed && |mailbox| < c.capacity;  // the send can neither block nor panic
      mailbox := mailbox + [id];
      notes := notes[id := note];
      assert store.items.Keys == IdSet(mailbox);
      return Ok(id);
    }

    /** The critical section of `Start`, after its context check. */
    method Start(ctxDone: bool) returns (r: Result<(), StartError>)
      requires Valid()
      modifies `started, `finishing
      ensures Valid()
      ensures r == if ctxDone then Err(StartContextDone) else if old(started) then Err(AlreadyStarted)
                   else if stopped then Err(AlreadyStopped) else Ok(())
      ensures started == (old(started) || r.Ok?) && finishing == (old(finishing) || r.Ok?)
    {
      if ctxDone {
        return Err(StartContextDone);
      }
      if started {
        return Err(AlreadyStarted);
      }
      if stopped {
        return Err(AlreadyStopped);
      }
      started := true;
      finishing := true;
      return Ok(());
    }

    /** `stop`; `spawned` reports whether this call started the finisher. */
    method Stop(drain: bool) returns (spawned: bool)
      requires Valid()
      modifies `stopped, `stopping, `closed, `cancelled, `finishing
      ensures Valid()
      ensures stopped && finishing && Contents() == old(Contents()).(stopped := true)
      ensures old(stopped) || QueueStep(c, old(Contents()), StopAdmission) == Some(Contents())
      ensures cancelled == (old(cancelled) || (!drain && started))
      ensures spawned == !old(finishing)
    {
      if !stopped {
        stopped := true;
        assert !stopping && !closed;  // neither channel is closed twice
        stopping := true;
        closed := true;
      }
      if !drain && started {
        cancelled := true;
      }
      spawned := !finishing;
      if !finishing {
        finishing := true;
      }
    }

    /** `dispatch`: an id with no stored notification is dropped without a completion. */
    method Dispatch(id: Id, outcome: Outcome)
      requires id in store.items ==> slots > 0
      modifies store, `slots, `completed
      ensures id in old(store.items) ==>
        && store.items == old(store.items) - {id} && slots == old(slots) - 1
        && completed == old(completed) + [Completion(id, old(store.items)[id], outcome)]
      ensures id !in old(store.items) ==> store.items == old(store.items) && slots == old(slots) && completed == old(completed)
    {
      var n := store.Get(id);
      if n == None {
        return;
      }
      store.Delete(id);
      slots := slots - 1;
      completed := completed + [Completion(id, n.value, outcome)];
    }

    /** The ids left after receiving the oldest one. */
    lemma HeadLeaves(ids: seq<Id>)
      requires ids != [] && NoRepeats(ids)
      ensures NoRepeats(ids[1..]) && IdSet(ids[1..]) == IdSet(ids) - {ids[0]}
    {
    }

    /** One turn of the worker loop: a receive and its `dispatch`. */
    method ServeHead(outcome: Id -> Outcome)
      requires Valid() && mailbox != []
      modifies store, `slots, `mailbox, `completed
      ensures Valid() && Contents() == Round(old(Contents()), outcome)
    {
      HeadLeaves(mailbox);
      var id := mailbox[0];
      mailbox := mailbox[1..];
      Dispatch(id, outcome(id));
    }

    /** One turn of the loop in `finish`. */
    method DiscardHead()
      requires Valid() && mailbox != []
      modifies store, `slots, `mailbox, `completed
      ensures Valid() && Contents() == Round(old(Contents()), DISCARD)
    {
      HeadLeaves(mailbox);
      var id := mailbox[0];
      mailbox := mailbox[1..];
      var entry := store.Get(id);
      store.Delete(id);
      slots := slots - 1;
      if entry.Some? {
        completed := completed + [Completion(id, entry.value, Discarded)];
      }
    }

    /**
     A worker's receive loop. `early` is the round in which its select takes the context case;
     `outcome` says how each delivery ends. It serves the oldest ids in order, and stops with the
     mailbox empty unless the context ended first.
     */
    method Work(outcome: Id -> Outcome, early: Option<nat>) returns (exit: Exit)
      requires Valid() && (early.Some? ==> cancelled)
      modifies store, `slots, `mailbox, `completed
      ensures Valid()
      ensures Contents() == Served(old(Contents()), Turns(early, |old(mailbox)|), outcome)
      ensures |completed| == |old(completed)| + Turns(early, |old(mailbox)|)
      ensures |old(mailbox)| - |mailbox| == if early.Some? && early.value < |old(mailbox)| then early.value else |old(mailbox)|
      ensures forall k | 0 <= k < Turns(early, |old(mailbox)|) ::
                var x := completed[|old(completed)| + k];
                x.id == old(mailbox)[k] && x.id in notes && x.note == notes[x.id] && x.outcome == outcome(x.id)
      ensures if early == None then mailbox == [] else mailbox == old(mailbox)[Turns(early, |old(mailbox)|)..]
      ensures exit == if early.Some? && early.value <= |old(mailbox)| then SawCancel else if closed then SawClosed else WouldBlock
    {
      ghost var start, turns := Contents(), Turns(early, |mailbox|);
      NothingServed(start, outcome);
      var round := 0;
      while early != Some(round) && mailbox != []
        invariant Valid() && 0 <= round <= turns && |mailbox| == |start.waiting| - round
        invariant Contents() == Served(start, round, outcome)
        decreases |mailbox|
      {
        OneMoreRound(start, round, outcome);
        ServeHead(outcome);
        round := round + 1;
      }
      assert round == turns;
      ServedCompletions(start, turns, outcome);
      exit := if early == Some(round) then SawCancel else if closed then SawClosed else WouldBlock;
    }

    /** The loop of `finish`: discards what is left, oldest first. */
    method DiscardAll()
      requires Valid()
      modifies store, `slots, `mailbox, `completed
      ensures Valid() && mailbox == [] && Contents() == Served(old(Contents()), |old(mailbox)|, DISCARD)
      ensures |completed| == |old(completed)| + |old(mailbox)|
      ensures forall k | 0 <= k < |old(mailbox)| ::
                var x := completed[|old(completed)| + k];
                x.id == old(mailbox)[k] && x.id in notes && x.note == notes[x.id] && x.outcome == Discarded
    {
      ghost var start, n := Contents(), 0;
      NothingServed(start, DISCARD);
      while mailbox != []
        invariant Valid() && n <= |start.waiting| && Contents() == Served(start, n, DISCARD)
        decreases |mailbox|
      {
        OneMoreRound(start, n, DISCARD);
        DiscardHead();
        n := n + 1;
      }
      ServedCompletions(start, n, DISCARD);
    }

    /** `finish`, once the workers have exited: stop, discard what is left, close `done`. */
    method Finish()
      requires Valid() && finishing && !done
      modifies store, `slots, `mailbox, `completed, `stopped, `stopping, `closed, `cancelled, `finishing, `done
      ensures Valid() && done && mailbox == [] && store.items == map[] && slots == 0
      ensures cancelled == (old(cancelled) || started)
      ensures Contents() == Served(old(Contents()).(stopped := true), |old(mailbox)|, DISCARD)
      ensures |completed| == |old(completed)| + |old(mailbox)|
      ensures forall k | 0 <= k < |old(mailbox)| ::
                var x := completed[|old(completed)| + k];
                x.id == old(mailbox)[k] && x.id in notes && x.note == notes[x.id] && x.outcome == Discarded
    {
      var _ := Stop(false);
      DiscardAll();
      done := true;
      assert store.items.Keys == {};
    }
  }

  /** Rounds a worker serves when its select takes the context case in round `early`. */
  function Turns(early: Option<nat>, queued: nat): nat {
    if early.Some? && early.value < queued then early.value else queued
  }
}
