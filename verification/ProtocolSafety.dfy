/** What every reachable state of the queue protocol satisfies. */
module ProtocolSafety {
  import opened Wrappers
  import opened Protocol
  import opened ProtocolInvariant

  // ---------------------------------------------------------------- counting

  function HeldThreads(threads: map<Thread, Pc>): set<Thread> {
    set t | t in threads && Held(threads[t])
  }

  /** Ids received from the mailbox whose completion has not been reported. */
  function HeldIds(threads: map<Thread, Pc>): set<Id> {
    set t | t in threads && Held(threads[t]) :: threads[t].id
  }

  function IdSet(ids: seq<Id>): set<Id> {
    set id | id in ids
  }

  lemma {:induction false} IdSetSize(ids: seq<Id>)
    ensures |IdSet(ids)| <= |ids|
  {
    if ids != [] {
      IdSetSize(ids[1..]);
      assert IdSet(ids) == IdSet(ids[1..]) + {ids[0]};
    }
  }

  lemma {:induction false} WorkerThreadsSize(n: nat)
    ensures |WorkerThreads(n)| == n
  {
    if n > 0 {
      WorkerThreadsSize(n - 1);
      assert WorkerThreads(n) == WorkerThreads(n - 1) + {Worker(n - 1)};
    }
  }

  /** The ids some threads are working on. */
  function IdsOf(threads: map<Thread, Pc>, ts: set<Thread>): set<Id> {
    set t | t in ts && t in threads && (Held(threads[t]) || Shelved(threads[t])) :: threads[t].id
  }

  lemma {:induction false} IdsOfSize(threads: map<Thread, Pc>, ts: set<Thread>)
    ensures |IdsOf(threads, ts)| <= |ts|
    decreases |ts|
  {
    if ts != {} {
      var t :| t in ts;
      IdsOfSize(threads, ts - {t});
      var one := if t in threads && (Held(threads[t]) || Shelved(threads[t])) then {threads[t].id} else {};
      assert IdsOf(threads, ts) == IdsOf(threads, ts - {t}) + one;
    }
  }

  lemma SubsetSize<T>(a: set<T>, b: set<T>)
    requires a <= b
    ensures |a| <= |b|
  {
    assert b == a + (b - a);
  }

  // ---------------------------------------------------------------- exactly once

  lemma Multiplicity(ids: seq<Id>, id: Id)
    requires NoRepeats(ids)
    ensures multiset(ids)[id] == if id in ids then 1 else 0
    decreases |ids|
  {
    if ids != [] {
      var last := |ids| - 1;
      assert ids == ids[..last] + [ids[last]];
      Multiplicity(ids[..last], id);
    }
  }

  /**
   Conservation: the admitted ids are the disjoint union of the queued, the held and the
   completed ones; each is held by at most one thread and completed at most once, with the note
   it was admitted with.
   */
  lemma ExactlyOnce(c: Config, s: State)
    requires c.Valid() && Reachable(c, s)
    ensures multiset(s.admitted) == multiset(s.mailbox) + multiset(HeldIds(s.threads)) + multiset(Ids(s.completed))
    ensures NoRepeats(s.admitted) && NoRepeats(Ids(s.completed))
    ensures forall t, u | t in HeldThreads(s.threads) && u in HeldThreads(s.threads) && t != u ::
              s.threads[t].id != s.threads[u].id
    ensures forall k | 0 <= k < |s.completed| ::
              && s.completed[k].id in s.admitted && s.completed[k].id in s.issued
              && s.completed[k].note == s.issued[s.completed[k].id]
  {
    ReachableInv(c, s);
    var held := HeldIds(s.threads);
    forall id: Id
      ensures multiset(s.admitted)[id]
           == multiset(s.mailbox)[id] + multiset(held)[id] + multiset(Ids(s.completed))[id]
    {
      QueuedOnce(s);
      Multiplicity(s.admitted, id);
      Multiplicity(s.mailbox, id);
      Multiplicity(Ids(s.completed), id);
      CustodyOf(s, id);
    }
    forall k | 0 <= k < |s.completed|
      ensures s.completed[k].id in s.admitted
    {
      assert Ids(s.completed)[k] in s.dequeued;
    }
  }

  lemma QueuedOnce(s: State)
    requires Fifo(s)
    ensures NoRepeats(s.mailbox) && NoRepeats(s.dequeued)
  {
    assert forall i | 0 <= i < |s.mailbox| :: s.mailbox[i] == s.admitted[|s.dequeued| + i];
    assert forall i | 0 <= i < |s.dequeued| :: s.dequeued[i] == s.admitted[i];
  }

  /** An id is admitted iff it is in exactly one of the three places. */
  lemma CustodyOf(s: State, id: Id)
    requires Fifo(s) && Custody(s)
    ensures var n := (if id in s.mailbox then 1 else 0) + (if id in HeldIds(s.threads) then 1 else 0)
                     + (if id in Ids(s.completed) then 1 else 0);
            n == if id in s.admitted then 1 else 0
  {
    QueuedIsNotReceived(s);
    if id in s.dequeued && id !in Ids(s.completed) {
      assert HeldBySome(s, id);
    }
  }

  // ---------------------------------------------------------------- slots, channels and the store

  /**
   Slot tokens: occupied slots are the buffered ids plus the threads between reservation and
   release. So the mailbox send under the lock finds room and an open channel, every slot
   receive finds a token, and nothing panics.
   */
  lemma SlotConservation(c: Config, s: State)
    requires c.Valid() && Reachable(c, s)
    ensures s.slots == |s.mailbox| + |Tokens(s.threads)| <= c.capacity
    ensures !s.crashed
    ensures forall t | t in s.threads && s.threads[t].Stored? :: !s.closed && |s.mailbox| < c.capacity
    ensures forall t | t in s.threads :: s.threads[t].Refusing? || s.threads[t].Deleted? || s.threads[t].Removed? ==> s.slots > 0
  {
    ReachableInv(c, s);
    forall t | t in s.threads && Token(s.threads[t])
      ensures |Tokens(s.threads)| >= 1
    {
      assert t in Tokens(s.threads);
    }
  }

  /** `crashed` records exactly what panics in Go: a send on a closed channel and a second close. */
  lemma PanicsAreRecorded(c: Config, s: State, t: Thread, op: Op)
    requires Perform(c, s, t, op).Some? && (op.Send? || op.CloseDone? || op.CallStop?) && !s.crashed
    ensures Perform(c, s, t, op).value.crashed <==>
            || (op.Send? && s.closed) || (op.CloseDone? && s.done)
            || (op.CallStop? && !s.stopped && (s.stopping || s.closed))
  {
    match op
    case Send(_) => case CloseDone =>
    case CallStop(drain) => StopPanics(s, drain);
  }

  lemma StopPanics(s: State, drain: bool)
    requires !s.crashed
    ensures Stop(s, drain).crashed <==> !s.stopped && (s.stopping || s.closed)
  {
  }

  /** A closed channel is never closed again, whichever step comes next. */
  lemma OneShotChannels(c: Config, s: State, a: Action)
    requires c.Valid() && Reachable(c, s) && Step(c, s, a).Some?
    ensures var s' := Step(c, s, a).value;
      !s'.crashed && (s.stopping ==> s'.stopping) && (s.closed ==> s'.closed) && (s.done ==> s'.done)
  {
    ReachableInv(c, s);
    StepKeepsInv(c, s, a);
    StepOnward(c, s, a);
  }

  predicate Onward(s: State, s': State) {
    && (s.stopping ==> s'.stopping) && (s.closed ==> s'.closed) && (s.stopped ==> s'.stopped)
    && (s.started ==> s'.started) && (s.stopped ==> s'.started == s.started)
    && (s.done ==> s'.done) && (s.cancelled ==> s'.cancelled) && (s.finishing ==> s'.finishing)
  }

  lemma TakesOnward(c: Config, s: State, t: Thread, op: Op, next: Pc, s': State)
    requires Takes(c, s, t, op, next, s')
    ensures Onward(s, s')
  {
    if op.CallStop? {
      StopOnward(s, op.drain);
    }
  }

  lemma StopOnward(s: State, drain: bool)
    ensures Onward(s, Stop(s, drain))
  {
  }

  lemma StepOnward(c: Config, s: State, a: Action)
    requires Inv(c, s) && Step(c, s, a).Some?
    ensures Onward(s, Step(c, s, a).value)
  {
    match a
    case Enqueue(_, _, _) => case Shutdown(_) => case Start => case Cancel => case Expire(_) =>
    case AfterFunc => StopOnward(s, false);
    case Run(t, arm) =>
      var op, next := ThreadTakes(c, s, t, arm);
      TakesOnward(c, s, t, op, next, Step(c, s, a).value);
  }

  /**
   The store holds exactly what is queued, about to be sent, or received and not yet deleted.
   So "notification not found" never happens, and the store never outgrows the queue capacity.
   */
  lemma StoreAgreement(c: Config, s: State)
    requires c.Valid() && Reachable(c, s)
    ensures forall id :: id in s.store <==>
              id in s.mailbox || exists t :: t in s.threads && Shelved(s.threads[t]) && s.threads[t].id == id
    ensures forall t | t in s.threads && (s.threads[t].Got? || s.threads[t].Taken?) :: s.threads[t].id in s.store
    ensures |s.store| <= c.capacity
  {
    ReachableInv(c, s);
    assert forall id | id in s.store && id !in s.mailbox :: ShelvedBySome(s, id);
    StoreSize(c, s);
  }

  lemma StoreSize(c: Config, s: State)
    requires Slots(c, s) && Stock(s)
    ensures |s.store| <= c.capacity
  {
    var shelved := set t | t in s.threads && Shelved(s.threads[t]);
    assert s.store.Keys <= IdSet(s.mailbox) + IdsOf(s.threads, shelved) by {
      forall id | id in s.store && id !in s.mailbox
        ensures id in IdsOf(s.threads, shelved)
      {
        assert ShelvedBySome(s, id);
      }
    }
    SubsetSize(s.store.Keys, IdSet(s.mailbox) + IdsOf(s.threads, shelved));
    IdSetSize(s.mailbox);
    IdsOfSize(s.threads, shelved);
    SubsetSize(shelved, Tokens(s.threads));
  }

  /**
   Whenever no thread is between reserving and releasing a slot, the semaphore, the mailbox and
   the store agree exactly: this is the invariant of the sequential manager object.
   */
  lemma AtRest(c: Config, s: State)
    requires c.Valid() && Reachable(c, s) && Tokens(s.threads) == {}
    ensures s.slots == |s.mailbox| && NoRepeats(s.mailbox) && s.store.Keys == IdSet(s.mailbox)
    ensures s.store.Keys <= s.issued.Keys && forall id | id in s.store :: s.store[id] == s.issued[id]
    ensures s.stopped == s.stopping == s.closed && s.finishing == (s.started || s.stopped)
  {
    ReachableInv(c, s);
    QueuedOnce(s);
    assert forall t | t in s.threads && Token(s.threads[t]) :: t in Tokens(s.threads);
    forall id: Id
      ensures id in s.store.Keys <==> id in IdSet(s.mailbox)
    {
      assert id in s.store ==> id in s.mailbox || ShelvedBySome(s, id);
      assert id in s.mailbox ==> id in s.store;
    }
  }

  // ---------------------------------------------------------------- who may hold work

  /** The threads that may hold received ids: all workers, or the finisher once they exited. */
  function Pool(c: Config, s: State): set<Thread> {
    if Finisher(0) in s.threads && !s.threads[Finisher(0)].Waiting? then {Finisher(0)}
    else WorkerThreads(c.workers)
  }

  lemma HoldersInPool(c: Config, s: State)
    requires c.Valid() && Kinds(s) && Lifecycle(c, s)
    ensures HeldThreads(s.threads) <= Pool(c, s)
    ensures |Pool(c, s)| <= c.workers
  {
    WorkerThreadsSize(c.workers);
  }

  /** Admitted work that is not completed never exceeds capacity plus workers. */
  lemma UnfinishedBound(c: Config, s: State)
    requires c.Valid() && Reachable(c, s)
    ensures |IdSet(s.admitted) - IdSet(Ids(s.completed))| <= c.capacity + c.workers
  {
    ReachableInv(c, s);
    UnfinishedIds(s);
    var held := HeldThreads(s.threads);
    SubsetSize(IdSet(s.admitted) - IdSet(Ids(s.completed)), IdSet(s.mailbox) + IdsOf(s.threads, held));
    IdSetSize(s.mailbox);
    IdsOfSize(s.threads, held);
    HeldSize(c, s);
  }

  lemma UnfinishedIds(s: State)
    requires Fifo(s) && Custody(s)
    ensures IdSet(s.admitted) - IdSet(Ids(s.completed))
         <= IdSet(s.mailbox) + IdsOf(s.threads, HeldThreads(s.threads))
  {
    forall id | id in s.admitted && id !in Ids(s.completed) && id !in s.mailbox
      ensures id in IdsOf(s.threads, HeldThreads(s.threads))
    {
      assert HeldBySome(s, id);
    }
  }

  lemma HeldSize(c: Config, s: State)
    requires c.Valid() && Kinds(s) && Lifecycle(c, s)
    ensures |HeldThreads(s.threads)| <= |Tokens(s.threads)| + c.workers
  {
    var held, tokens := HeldThreads(s.threads), Tokens(s.threads);
    HoldersInPool(c, s);
    SubsetSize(held, tokens + (held - tokens));
    SubsetSize(held - tokens, Pool(c, s));
  }

  // ---------------------------------------------------------------- order

  /** Ids admitted before position k that are not completed. */
  function EarlierIncomplete(s: State, k: nat): set<Id>
    requires k < |s.admitted|
  {
    set i | 0 <= i < k && s.admitted[i] !in Ids(s.completed) :: s.admitted[i]
  }

  /**
   Bounded overtaking: ids are received in admission order, and when the k-th admitted id is
   about to be completed at most workers - 1 earlier ones are incomplete.
   */
  lemma BoundedOvertaking(c: Config, s: State, t: Thread, k: nat)
    requires c.Valid() && Reachable(c, s)
    requires t in s.threads && (s.threads[t].Completing? || s.threads[t].Discarding?)
    requires k < |s.admitted| && s.admitted[k] == s.threads[t].id
    ensures s.dequeued <= s.admitted
    ensures |EarlierIncomplete(s, k)| <= c.workers - 1
  {
    ReachableInv(c, s);
    Overtaking(c, s, t, k);
  }

  lemma Overtaking(c: Config, s: State, t: Thread, k: nat)
    requires c.Valid() && Kinds(s) && Lifecycle(c, s) && Fifo(s) && Custody(s)
    requires t in s.threads && Held(s.threads[t])
    requires k < |s.admitted| && s.admitted[k] == s.threads[t].id
    ensures |EarlierIncomplete(s, k)| <= c.workers - 1
  {
    var others := HeldThreads(s.threads) - {t};
    EarlierAreHeld(s, t, k);
    SubsetSize(EarlierIncomplete(s, k), IdsOf(s.threads, others));
    IdsOfSize(s.threads, others);
    HoldersInPool(c, s);
    SubsetSize(others, Pool(c, s) - {t});
  }

  lemma EarlierAreHeld(s: State, t: Thread, k: nat)
    requires Fifo(s) && Custody(s)
    requires t in s.threads && Held(s.threads[t])
    requires k < |s.admitted| && s.admitted[k] == s.threads[t].id
    ensures EarlierIncomplete(s, k) <= IdsOf(s.threads, HeldThreads(s.threads) - {t})
  {
    assert k < |s.dequeued| by {
      var j :| 0 <= j < |s.dequeued| && s.dequeued[j] == s.threads[t].id;
      assert s.admitted[j] == s.admitted[k];
    }
    forall id | id in EarlierIncomplete(s, k)
      ensures id in IdsOf(s.threads, HeldThreads(s.threads) - {t})
    {
      var i :| 0 <= i < k && s.admitted[i] !in Ids(s.completed) && s.admitted[i] == id;
      assert s.dequeued[i] == id && HeldBySome(s, id);
      var u :| u in s.threads && Held(s.threads[u]) && s.threads[u].id == id;
      assert u in HeldThreads(s.threads) - {t};
    }
  }
}
