/** The inductive invariant of the queue protocol. */
module ProtocolInvariant {
  import opened Wrappers
  import opened Protocol

  function Tokens(threads: map<Thread, Pc>): set<Thread> {
    set t | t in threads && Token(threads[t])
  }

  /** Every thread runs the program text of its kind. */
  predicate KindOk(t: Thread, pc: Pc) {
    match t
    case Worker(_) => WorkerPc(pc)
    case Finisher(_) => FinisherPc(pc)
    case Caller(_) => !WorkerPc(pc) && !FinisherPc(pc)
  }

  predicate Kinds(s: State) {
    forall t | t in s.threads :: KindOk(t, s.threads[t])
  }

  /** Lifecycle flags, one-shot channels, and the goroutines that exist. */
  ghost predicate Lifecycle(c: Config, s: State) {
    && !s.crashed
    && s.stopped == s.stopping == s.closed
    && s.finishing == (s.started || s.stopped)
    && s.spawned == (if s.finishing then 1 else 0)
    && (s.cancelled ==> s.started)
    && (forall k: nat :: Finisher(k) in s.threads <==> k < s.spawned)
    && (forall i: nat :: Worker(i) in s.threads <==> s.started && i < c.workers)
    && s.done == (Finisher(0) in s.threads && s.threads[Finisher(0)].Finished?)
    && (s.done ==> s.mailbox == [])
    && (Finisher(0) in s.threads && !s.threads[Finisher(0)].Waiting? ==> WorkersExited(c, s))
    && (Finisher(0) in s.threads && !s.threads[Finisher(0)].Waiting? && !s.threads[Finisher(0)].Stopping? ==> s.stopped)
    && (forall t | t in s.threads :: Admitting(s.threads[t]) ==> !s.stopped)
  }

  /** The mutex names exactly the thread inside a critical section. */
  predicate Mutex(s: State) {
    && (s.mutex.Some? ==> s.mutex.value in s.threads)
    && (forall t | t in s.threads :: Critical(s.threads[t]) <==> s.mutex == Some(t))
  }

  /** Occupied slots are the buffered ids plus the threads owning a token. */
  predicate Slots(c: Config, s: State) {
    s.slots == |s.mailbox| + |Tokens(s.threads)| <= c.capacity
  }

  predicate NoRepeats(ids: seq<Id>) {
    forall i, j | 0 <= i < j < |ids| :: ids[i] != ids[j]
  }

  /** The mailbox is the part of the admission log not yet received, and ids are unique. */
  predicate Fifo(s: State) {
    Logged(s) && Waiters(s)
  }

  predicate Logged(s: State) {
    && s.admitted == s.dequeued + s.mailbox
    && NoRepeats(s.admitted)
    && (forall id | id in s.admitted :: id in s.issued)
  }

  /** Calls that have not sent have ids of their own, none of them admitted. */
  predicate Waiters(s: State) {
    && (forall t | t in s.threads && Unsent(s.threads[t]) ::
          s.threads[t].id in s.issued && s.threads[t].id !in s.admitted)
    && (forall t, u | t in s.threads && u in s.threads && t != u
                      && Unsent(s.threads[t]) && Unsent(s.threads[u]) ::
          s.threads[t].id != s.threads[u].id)
  }

  /** A received id is held by exactly one thread or was completed exactly once. */
  ghost predicate Custody(s: State) {
    && NoRepeats(Ids(s.completed))
    && (forall id | id in Ids(s.completed) :: id in s.dequeued)
    && Holders(s)
    && (forall id | id in s.dequeued && id !in Ids(s.completed) :: HeldBySome(s, id))
  }

  /** Held ids are received, not completed, and each has one holder. */
  ghost predicate Holders(s: State) {
    && (forall t | t in s.threads && Held(s.threads[t]) ::
          s.threads[t].id in s.dequeued && s.threads[t].id !in Ids(s.completed))
    && (forall t, u | t in s.threads && u in s.threads && t != u
                      && Held(s.threads[t]) && Held(s.threads[u]) ::
          s.threads[t].id != s.threads[u].id)
  }

  ghost predicate HeldBySome(s: State, id: Id) {
    exists t :: t in s.threads && Held(s.threads[t]) && s.threads[t].id == id
  }

  /** The store holds exactly the ids that are queued or shelved, with the notes issued. */
  ghost predicate Stock(s: State) {
    && (forall id | id in s.store :: id in s.issued && s.store[id] == s.issued[id])
    && Stocked(s)
    && (forall id | id in s.store :: id in s.mailbox || ShelvedBySome(s, id))
  }

  predicate Stocked(s: State) {
    && (forall id | id in s.mailbox :: id in s.store)
    && (forall t | t in s.threads && Shelved(s.threads[t]) :: s.threads[t].id in s.store)
  }

  ghost predicate ShelvedBySome(s: State, id: Id) {
    exists t :: t in s.threads && Shelved(s.threads[t]) && s.threads[t].id == id
  }

  /** Whatever a thread carries towards a completion is the note issued with the id. */
  predicate Labels(s: State) {
    && (forall t | t in s.threads :: LabelOk(s.issued, s.threads[t]))
    && (forall i | 0 <= i < |s.completed| ::
          s.completed[i].id in s.issued && s.completed[i].note == s.issued[s.completed[i].id])
  }

  predicate LabelOk(issued: map<Id, Note>, pc: Pc) {
    match pc
    case Found(id, note) => id in issued && note == issued[id]
    case Deleted(id, note) => id in issued && note == issued[id]
    case Delivering(id, note) => id in issued && note == issued[id]
    case Completing(id, note, outcome) => id in issued && note == issued[id] && outcome != Discarded
    case Looked(id, entry) => id in issued && entry == Some(issued[id])
    case Removed(id, entry) => id in issued && entry == Some(issued[id])
    case Discarding(id, entry) => id in issued && entry == Some(issued[id])
    case _ => true
  }

  /** Something was discarded by the finisher, or is about to be. */
  ghost predicate Discards(s: State) {
    || (exists i :: 0 <= i < |s.completed| && s.completed[i].outcome == Discarded)
    || (Finisher(0) in s.threads && Held(s.threads[Finisher(0)]))
  }

  ghost predicate CancelledExit(s: State) {
    exists t :: t in s.threads && s.threads[t] == Exited(false)
  }

  /** Why queued work may be discarded, and what a draining exit has seen. */
  ghost predicate Drain(s: State) {
    && (forall t | t in s.threads && s.threads[t] == Exited(true) :: s.closed && s.mailbox == [])
    && (Discards(s) ==> s.stopped && (!s.started || CancelledExit(s)))
  }

  ghost predicate Inv(c: Config, s: State) {
    && Kinds(s) && Lifecycle(c, s) && Mutex(s) && Slots(c, s) && Fifo(s)
    && Custody(s) && Stock(s) && Labels(s) && Drain(s)
  }

  // ---------------------------------------------------------------- discipline of the program texts

  /** How one instruction moves a thread between the classes of program counters. */
  predicate Fits(c: Config, s: State, t: Thread, op: Op, next: Pc)
    requires t in s.threads
  {
    var pc := s.threads[t];
    && KindOk(t, next)
    && FitsSlots(pc, op, next)
    && FitsMutex(s, pc, op, next)
    && FitsQueue(s, pc, op, next)
    && FitsStore(s, pc, op, next)
    && FitsLifecycle(c, s, t, op, next)
    && LabelOk(s.issued, next)
    && (op.Report? ==> op.completion.id in s.issued && op.completion.note == s.issued[op.completion.id])
  }

  predicate FitsSlots(pc: Pc, op: Op, next: Pc) {
    && (Token(next) <==> op.AcquireSlot? || op.Receive? || (Token(pc) && !op.ReleaseSlot? && !op.Send?))
    && (op.AcquireSlot? || op.Receive? ==> !Token(pc))
    && (op.ReleaseSlot? || op.Send? ==> Token(pc))
  }

  predicate FitsMutex(s: State, pc: Pc, op: Op, next: Pc) {
    && (Critical(next) <==> op.Lock? || (Critical(pc) && !op.Unlock?))
    && (op.Lock? ==> !Critical(pc))
    && (op.Unlock? ==> Critical(pc))
    && (op.CallStop? ==> !Critical(pc))
    && (Admitting(next) ==> !s.stopped)
    && (op.Send? ==> Admitting(pc))
  }

  predicate FitsQueue(s: State, pc: Pc, op: Op, next: Pc) {
    && (Unsent(next) <==> Unsent(pc) && !op.Send?)
    && (Unsent(next) ==> next.id == pc.id)
    && (op.Send? ==> Unsent(pc) && op.id == pc.id)
    && (Held(next) <==> op.Receive? || (Held(pc) && !op.Report?))
    && (op.Receive? ==> !Held(pc) && s.mailbox != [] && next.id == s.mailbox[0])
    && (Held(next) && !op.Receive? ==> next.id == pc.id)
    && (op.Report? ==> Held(pc) && op.completion.id == pc.id)
  }

  predicate FitsStore(s: State, pc: Pc, op: Op, next: Pc) {
    && (Shelved(next) <==> op.Put? || op.Receive? || (Shelved(pc) && !op.Delete? && !op.Send?))
    && (Shelved(next) && !op.Receive? ==> (Unsent(pc) || Held(pc)) && next.id == pc.id)
    && (op.Put? ==> Unsent(pc) && op.id == pc.id && op.id in s.issued && op.note == s.issued[op.id])
    && (op.Send? ==> Shelved(pc))
    && (op.Delete? ==> Held(pc) && Shelved(pc) && op.id == pc.id)
  }

  predicate FitsLifecycle(c: Config, s: State, t: Thread, op: Op, next: Pc)
    requires t in s.threads
  {
    var pc := s.threads[t];
    && !pc.Exited? && !pc.Finished? && !next.Waiting?
    && (next.Stopping? ==> WorkersExited(c, s) && !op.CallStop?)
    && (Past(next) ==> !pc.Waiting? && (s.stopped || op.CallStop?))
    && (next.Finished? <==> op.CloseDone?)
    && (op.CloseDone? ==> s.mailbox == [] && pc.Draining?)
    && (op.Receive? ==> pc.Idle? || pc.Draining?)
    && (next == Exited(true) ==> s.closed && s.mailbox == [])
    && (op.Report? && op.completion.outcome == Discarded ==> t.Finisher?)
    && (op.CallStop? ==> !Held(pc))
  }

  /** The finisher has closed the mailbox. */
  predicate Past(pc: Pc) {
    pc.Draining? || pc.Taken? || pc.Looked? || pc.Removed? || pc.Discarding? || pc.Finished?
  }

  // ---------------------------------------------------------------- one thread step keeps each part

  /** The state after a non-blocking operation other than `stop`, field by field. */
  predicate After(s: State, t: Thread, op: Op, next: Pc, s': State)
    requires op.Receive? ==> s.mailbox != []
  {
    AfterQueue(s, t, op, next, s') && AfterRest(s, op, s')
  }

  predicate AfterQueue(s: State, t: Thread, op: Op, next: Pc, s': State)
    requires op.Receive? ==> s.mailbox != []
  {
    && s'.threads == s.threads[t := next]
    && s'.mutex == (if op.Lock? then Some(t) else if op.Unlock? then None else s.mutex)
    && (op.Lock? ==> s.mutex.None?)
    && s'.slots == s.slots + (if op.AcquireSlot? then 1 else if op.ReleaseSlot? then -1 else 0)
    && s'.mailbox == (if op.Send? then s.mailbox + [op.id] else if op.Receive? then s.mailbox[1..] else s.mailbox)
    && s'.admitted == (if op.Send? then s.admitted + [op.id] else s.admitted)
    && s'.dequeued == (if op.Receive? then s.dequeued + [s.mailbox[0]] else s.dequeued)
  }

  predicate AfterRest(s: State, op: Op, s': State) {
    AfterLogs(s, op, s') && FlagsKept(s, s')
  }

  predicate AfterLogs(s: State, op: Op, s': State) {
    && s'.store == (if op.Put? then s.store[op.id := op.note] else if op.Delete? then s.store - {op.id} else s.store)
    && s'.completed == (if op.Report? then s.completed + [op.completion] else s.completed)
    && s'.done == (op.CloseDone? || s.done)
    && s'.crashed == (s.crashed || (op.CloseDone? && s.done))
  }

  predicate FlagsKept(s: State, s': State) {
    && s'.closed == s.closed && s'.stopped == s.stopped && s'.stopping == s.stopping
    && s'.started == s.started && s'.finishing == s.finishing && s'.cancelled == s.cancelled
    && s'.spawned == s.spawned && s'.issued == s.issued && s'.expired == s.expired
  }

  /** The operations on the mutex and the semaphore, and those that change nothing shared. */
  predicate OnLocks(op: Op) {
    op.Read? || op.AcquireSlot? || op.ReleaseSlot? || op.Lock? || op.Unlock?
  }

  lemma LockOpAfterQueue(c: Config, s: State, t: Thread, op: Op, next: Pc)
    requires OnLocks(op) && Perform(c, s, t, op).Some?
    ensures AfterQueue(s, t, op, next, Goto(Perform(c, s, t, op).value, t, next))
    ensures op.AcquireSlot? ==> s.slots < c.capacity
  {
    match op
    case Read => case AcquireSlot => case ReleaseSlot => case Lock => case Unlock =>
  }

  lemma DataOpAfterQueue(c: Config, s: State, t: Thread, op: Op, next: Pc)
    requires !OnLocks(op) && !op.CallStop? && Perform(c, s, t, op).Some?
    requires op.Send? ==> !s.closed
    ensures op.Receive? ==> s.mailbox != []
    ensures op.Send? ==> |s.mailbox| < c.capacity
    ensures AfterQueue(s, t, op, next, Goto(Perform(c, s, t, op).value, t, next))
  {
    match op
    case Put(_, _) => case Delete(_) => case Send(_) => case Receive => case Report(_) => case CloseDone =>
  }

  lemma LockOpAfterRest(c: Config, s: State, t: Thread, op: Op, next: Pc)
    requires OnLocks(op) && Perform(c, s, t, op).Some?
    ensures AfterRest(s, op, Goto(Perform(c, s, t, op).value, t, next))
  {
    match op
    case Read => case AcquireSlot => case ReleaseSlot => case Lock => case Unlock =>
  }

  lemma DataOpAfterLogs(c: Config, s: State, t: Thread, op: Op, next: Pc)
    requires !OnLocks(op) && !op.CallStop? && Perform(c, s, t, op).Some?
    requires op.Send? ==> !s.closed
    ensures AfterLogs(s, op, Goto(Perform(c, s, t, op).value, t, next))
  {
    match op
    case Put(_, _) => case Delete(_) => case Send(_) => case Receive => case Report(_) => case CloseDone =>
  }

  lemma DataOpKeepsFlags(c: Config, s: State, t: Thread, op: Op, next: Pc)
    requires !OnLocks(op) && !op.CallStop? && Perform(c, s, t, op).Some?
    ensures FlagsKept(s, Goto(Perform(c, s, t, op).value, t, next))
  {
    match op
    case Report(_) => case CloseDone =>
    case Put(_, _) => StoreOpKeepsFlags(c, s, t, op, next);
    case Delete(_) => StoreOpKeepsFlags(c, s, t, op, next);
    case Send(_) => MailOpKeepsFlags(c, s, t, op, next);
    case Receive => MailOpKeepsFlags(c, s, t, op, next);
  }

  lemma StoreOpKeepsFlags(c: Config, s: State, t: Thread, op: Op, next: Pc)
    requires (op.Put? || op.Delete?) && Perform(c, s, t, op).Some?
    ensures FlagsKept(s, Goto(Perform(c, s, t, op).value, t, next))
  {
  }

  lemma MailOpKeepsFlags(c: Config, s: State, t: Thread, op: Op, next: Pc)
    requires (op.Send? || op.Receive?) && Perform(c, s, t, op).Some?
    ensures FlagsKept(s, Goto(Perform(c, s, t, op).value, t, next))
  {
  }

  lemma PerformAfter(c: Config, s: State, t: Thread, op: Op, next: Pc, s': State)
    requires !op.CallStop? && Perform(c, s, t, op).Some? && s' == Goto(Perform(c, s, t, op).value, t, next)
    requires op.Send? ==> !s.closed
    ensures op.Receive? ==> s.mailbox != []
    ensures op.AcquireSlot? ==> s.slots < c.capacity
    ensures op.Send? ==> |s.mailbox| < c.capacity
    ensures After(s, t, op, next, s')
  {
    if OnLocks(op) {
      LockOpAfterQueue(c, s, t, op, next);
      LockOpAfterRest(c, s, t, op, next);
    } else {
      DataOpAfterQueue(c, s, t, op, next);
      DataOpAfterLogs(c, s, t, op, next);
      DataOpKeepsFlags(c, s, t, op, next);
    }
  }

  lemma KeepsKinds(c: Config, s: State, t: Thread, op: Op, next: Pc, s': State)
    requires t in s.threads && (op.Receive? ==> s.mailbox != []) && After(s, t, op, next, s')
    requires Kinds(s) && KindOk(t, next)
    ensures Kinds(s')
  {
  }

  lemma KeepsMutex(c: Config, s: State, t: Thread, op: Op, next: Pc, s': State)
    requires t in s.threads && (op.Receive? ==> s.mailbox != []) && After(s, t, op, next, s')
    requires Mutex(s) && FitsMutex(s, s.threads[t], op, next)
    ensures Mutex(s')
  {
  }

  lemma KeepsFifo(c: Config, s: State, t: Thread, op: Op, next: Pc, s': State)
    requires t in s.threads && (op.Receive? ==> s.mailbox != []) && After(s, t, op, next, s')
    requires Fifo(s) && FitsQueue(s, s.threads[t], op, next)
    ensures Fifo(s')
  {
    KeepsLogged(s, t, op, next, s');
    KeepsWaiters(s, t, op, next, s');
  }

  lemma KeepsLogged(s: State, t: Thread, op: Op, next: Pc, s': State)
    requires t in s.threads && (op.Receive? ==> s.mailbox != []) && AfterQueue(s, t, op, next, s') && s'.issued == s.issued
    requires Logged(s) && (op.Send? ==> op.id in s.issued && op.id !in s.admitted)
    ensures Logged(s')
  {
  }

  lemma KeepsWaiters(s: State, t: Thread, op: Op, next: Pc, s': State)
    requires t in s.threads && (op.Receive? ==> s.mailbox != []) && AfterQueue(s, t, op, next, s') && s'.issued == s.issued
    requires Waiters(s) && FitsQueue(s, s.threads[t], op, next)
    ensures Waiters(s')
  {
  }

  lemma QueuedIsNotReceived(s: State)
    requires Fifo(s)
    ensures forall id | id in s.mailbox :: id !in s.dequeued
  {
    forall id | id in s.mailbox
      ensures id !in s.dequeued
    {
      var k :| 0 <= k < |s.mailbox| && s.mailbox[k] == id;
      assert s.admitted[|s.dequeued| + k] == id;
      assert forall i | 0 <= i < |s.dequeued| :: s.dequeued[i] == s.admitted[i];
    }
  }

  lemma KeepsCustody(c: Config, s: State, t: Thread, op: Op, next: Pc, s': State)
    requires t in s.threads && (op.Receive? ==> s.mailbox != []) && After(s, t, op, next, s')
    requires Fifo(s) && Custody(s) && FitsQueue(s, s.threads[t], op, next)
    ensures Custody(s')
  {
    CompletedIds(s, op, s');
    KeepsHolders(s, t, op, next, s');
    KeepsHeld(s, t, op, next, s');
  }

  lemma KeepsHolders(s: State, t: Thread, op: Op, next: Pc, s': State)
    requires t in s.threads && (op.Receive? ==> s.mailbox != []) && After(s, t, op, next, s')
    requires Fifo(s) && Custody(s) && FitsQueue(s, s.threads[t], op, next)
    ensures Holders(s')
  {
    CompletedIds(s, op, s');
    QueuedIsNotReceived(s);
  }

  lemma CompletedIds(s: State, op: Op, s': State)
    requires AfterRest(s, op, s')
    ensures Ids(s'.completed) == if op.Report? then Ids(s.completed) + [op.completion.id] else Ids(s.completed)
  {
  }

  /** Every received id that is not completed still has a holder. */
  lemma KeepsHeld(s: State, t: Thread, op: Op, next: Pc, s': State)
    requires t in s.threads && (op.Receive? ==> s.mailbox != []) && After(s, t, op, next, s')
    requires Custody(s) && FitsQueue(s, s.threads[t], op, next)
    ensures forall id | id in s'.dequeued && id !in Ids(s'.completed) :: HeldBySome(s', id)
  {
    CompletedIds(s, op, s');
    forall id | id in s'.dequeued && id !in Ids(s'.completed)
      ensures HeldBySome(s', id)
    {
      if op.Receive? && id == s.mailbox[0] {
        assert s'.threads[t] == next;
      } else {
        assert HeldBySome(s, id);
        var u :| u in s.threads && Held(s.threads[u]) && s.threads[u].id == id;
        assert u in s'.threads && Held(s'.threads[u]) && s'.threads[u].id == id;
      }
    }
  }

  lemma KeepsLabels(c: Config, s: State, t: Thread, op: Op, next: Pc, s': State)
    requires t in s.threads && (op.Receive? ==> s.mailbox != []) && After(s, t, op, next, s')
    requires Labels(s) && LabelOk(s.issued, next)
    requires op.Report? ==> op.completion.id in s.issued && op.completion.note == s.issued[op.completion.id]
    ensures Labels(s')
  {
  }

  lemma KeepsLifecycle(c: Config, s: State, t: Thread, op: Op, next: Pc, s': State)
    requires t in s.threads && (op.Receive? ==> s.mailbox != []) && After(s, t, op, next, s')
    requires Kinds(s) && Lifecycle(c, s) && KindOk(t, next)
    requires FitsMutex(s, s.threads[t], op, next) && FitsLifecycle(c, s, t, op, next)
    requires !op.CallStop?
    ensures Lifecycle(c, s')
  {
  }

  lemma TokensGoto(threads: map<Thread, Pc>, t: Thread, next: Pc)
    requires t in threads
    ensures |Tokens(threads[t := next])| + (if Token(threads[t]) then 1 else 0)
         == |Tokens(threads)| + (if Token(next) then 1 else 0)
  {
    var before, after := Tokens(threads), Tokens(threads[t := next]);
    assert after - {t} == before - {t};
    assert |before| == |before - {t}| + (if t in before then 1 else 0);
    assert |after| == |after - {t}| + (if t in after then 1 else 0);
  }

  lemma KeepsSlots(c: Config, s: State, t: Thread, op: Op, next: Pc, s': State)
    requires t in s.threads && (op.Receive? ==> s.mailbox != []) && After(s, t, op, next, s')
    requires Slots(c, s) && FitsSlots(s.threads[t], op, next)
    requires op.AcquireSlot? ==> s.slots < c.capacity
    ensures Slots(c, s')
  {
    TokensGoto(s.threads, t, next);
  }

  /** No other thread and no queue entry keeps the id of a held notification in the store. */
  lemma HeldIsNotShared(s: State, t: Thread)
    requires t in s.threads && Held(s.threads[t]) && Fifo(s) && Custody(s)
    ensures s.threads[t].id !in s.mailbox
    ensures forall u | u in s.threads && u != t && Shelved(s.threads[u]) :: s.threads[u].id != s.threads[t].id
  {
    QueuedIsNotReceived(s);
    assert s.threads[t].id in s.admitted;
  }

  lemma KeepsStocked(s: State, t: Thread, op: Op, next: Pc, s': State)
    requires t in s.threads && (op.Receive? ==> s.mailbox != []) && After(s, t, op, next, s')
    requires Stocked(s) && FitsQueue(s, s.threads[t], op, next) && FitsStore(s, s.threads[t], op, next)
    requires op.Delete? ==> op.id !in s.mailbox
    requires op.Delete? ==> forall u | u in s.threads && u != t && Shelved(s.threads[u]) :: s.threads[u].id != op.id
    ensures Stocked(s')
  {
  }

  /** Whatever is in the store is queued or shelved. */
  lemma KeepsShelvers(s: State, t: Thread, op: Op, next: Pc, s': State)
    requires t in s.threads && (op.Receive? ==> s.mailbox != []) && After(s, t, op, next, s')
    requires forall id | id in s.store :: id in s.mailbox || ShelvedBySome(s, id)
    requires FitsQueue(s, s.threads[t], op, next) && FitsStore(s, s.threads[t], op, next)
    ensures forall id | id in s'.store :: id in s'.mailbox || ShelvedBySome(s', id)
  {
    forall id | id in s'.store && id !in s'.mailbox
      ensures ShelvedBySome(s', id)
    {
      if (op.Put? && id == op.id) || (op.Receive? && id == s.mailbox[0]) {
        assert s'.threads[t] == next;
      } else {
        assert id !in s.mailbox ==> ShelvedBySome(s, id);
        var u :| u in s.threads && Shelved(s.threads[u]) && s.threads[u].id == id;
        assert u in s'.threads && (s'.threads[u] == s.threads[u] || u == t);
      }
    }
  }

  lemma KeepsNotes(s: State, t: Thread, op: Op, next: Pc, s': State)
    requires t in s.threads && AfterRest(s, op, s') && FitsStore(s, s.threads[t], op, next)
    requires forall id | id in s.store :: id in s.issued && s.store[id] == s.issued[id]
    ensures forall id | id in s'.store :: id in s'.issued && s'.store[id] == s'.issued[id]
  {
  }

  lemma KeepsStock(c: Config, s: State, t: Thread, op: Op, next: Pc, s': State)
    requires t in s.threads && (op.Receive? ==> s.mailbox != []) && After(s, t, op, next, s')
    requires Fifo(s) && Custody(s) && Stock(s)
    requires FitsQueue(s, s.threads[t], op, next) && FitsStore(s, s.threads[t], op, next)
    ensures Stock(s')
  {
    if op.Delete? {
      HeldIsNotShared(s, t);
    }
    KeepsNotes(s, t, op, next, s');
    KeepsStocked(s, t, op, next, s');
    KeepsShelvers(s, t, op, next, s');
  }

  /** With ids left in a closed mailbox, a started manager has a worker that left early. */
  lemma EarlyExit(c: Config, s: State)
    requires c.Valid() && Lifecycle(c, s) && Kinds(s) && Drain(s) && WorkersExited(c, s)
    requires s.started && s.mailbox != []
    ensures CancelledExit(s)
  {
    assert Worker(0) in s.threads;
  }

  lemma KeepsDrain(c: Config, s: State, t: Thread, op: Op, next: Pc, s': State)
    requires c.Valid() && t in s.threads && (op.Receive? ==> s.mailbox != []) && After(s, t, op, next, s')
    requires Kinds(s) && Lifecycle(c, s) && Drain(s) && KindOk(t, next) && !op.CallStop?
    requires FitsQueue(s, s.threads[t], op, next) && FitsMutex(s, s.threads[t], op, next)
    requires FitsLifecycle(c, s, t, op, next)
    ensures Drain(s')
  {
    KeepsEarlyExits(s, t, op, next, s');
    if Discards(s') && !Discards(s) {
      NewDiscard(s, t, op, next, s');
      if s.started {
        EarlyExit(c, s);
      }
    }
  }

  /** A worker that left stays where it is. */
  lemma KeepsEarlyExits(s: State, t: Thread, op: Op, next: Pc, s': State)
    requires t in s.threads && !s.threads[t].Exited? && s'.threads == s.threads[t := next]
    ensures CancelledExit(s) ==> CancelledExit(s')
  {
    if CancelledExit(s) {
      var u :| u in s.threads && s.threads[u] == Exited(false);
      assert u in s'.threads && s'.threads[u] == Exited(false);
    }
  }

  /** The first discard starts when the finisher receives. */
  lemma NewDiscard(s: State, t: Thread, op: Op, next: Pc, s': State)
    requires t in s.threads && (op.Receive? ==> s.mailbox != []) && After(s, t, op, next, s')
    requires FitsQueue(s, s.threads[t], op, next)
    requires op.Report? && op.completion.outcome == Discarded ==> t.Finisher?
    requires t.Finisher? ==> t == Finisher(0)
    requires Discards(s') && !Discards(s)
    ensures t == Finisher(0) && op.Receive?
  {
    assert forall i | 0 <= i < |s.completed| :: s'.completed[i] == s.completed[i];
  }

  // ---------------------------------------------------------------- the program texts keep the discipline

  /** What the invariant says about the thread about to run. */
  predicate Ready(s: State, t: Thread)
    requires t in s.threads
  {
    var pc := s.threads[t];
    && KindOk(t, pc)
    && LabelOk(s.issued, pc)
    && (Admitting(pc) ==> !s.stopped)
    && (Past(pc) ==> s.stopped && s.closed)
    && (Shelved(pc) ==> pc.id in s.store && pc.id in s.issued && s.store[pc.id] == s.issued[pc.id])
  }

  lemma InvReady(c: Config, s: State, t: Thread)
    requires Kinds(s) && Lifecycle(c, s) && Stock(s) && Labels(s) && t in s.threads
    ensures Ready(s, t)
  {
  }

  lemma EnqueueFits(c: Config, s: State, t: Thread, arm: Arm)
    requires t in s.threads && t.Caller? && Ready(s, t)
    requires EnqueueText(s, t, s.threads[t], arm).Some?
    ensures var i := EnqueueText(s, t, s.threads[t], arm).value; Fits(c, s, t, i.op, i.next) && !i.op.CallStop?
  {
    match s.threads[t]
    case Selecting(_) => case Reserved(_) => case Locked(_) => case Checked(_) => case Stored(_) =>
    case Sent(_) => case Refusing(_, _) => case Refused(_, _) =>
  }

  lemma WorkerFits(c: Config, s: State, t: Thread, arm: Arm)
    requires t in s.threads && t.Worker? && Ready(s, t)
    requires WorkerText(s, s.threads[t], arm).Some?
    ensures var i := WorkerText(s, s.threads[t], arm).value; Fits(c, s, t, i.op, i.next) && !i.op.CallStop?
  {
    match s.threads[t]
    case Idle => case Got(_) => case Found(_, _) => case Deleted(_, _) => case Delivering(_, _) =>
    case Completing(_, _, _) =>
  }

  lemma FinisherFits(c: Config, s: State, t: Thread)
    requires t in s.threads && t.Finisher? && Ready(s, t)
    requires FinisherText(c, s, s.threads[t]).Some?
    ensures var i := FinisherText(c, s, s.threads[t]).value; Fits(c, s, t, i.op, i.next)
  {
    match s.threads[t]
    case Waiting => case Stopping => case Draining => case Taken(_) => case Looked(_, _) =>
    case Removed(_, _) => case Discarding(_, _) =>
  }

  lemma ShutdownFits(c: Config, s: State, t: Thread, arm: Arm)
    requires t in s.threads && t.Caller? && Ready(s, t)
    requires ShutdownText(s, t, s.threads[t], arm).Some?
    ensures var i := ShutdownText(s, t, s.threads[t], arm).value; Fits(c, s, t, i.op, i.next)
  {
    match s.threads[t]
    case ShutdownEntered => case ShutdownWaiting => case ShutdownExpired =>
  }

  lemma TextFits(c: Config, s: State, t: Thread, arm: Arm)
    requires t in s.threads && Ready(s, t) && Text(c, s, t, arm).Some?
    ensures var i := Text(c, s, t, arm).value; Fits(c, s, t, i.op, i.next)
  {
    if t.Worker? {
      WorkerFits(c, s, t, arm);
    } else if t.Finisher? {
      FinisherFits(c, s, t);
    } else if ShutdownPc(s.threads[t]) {
      ShutdownFits(c, s, t, arm);
    } else {
      EnqueueFits(c, s, t, arm);
    }
  }

  // ---------------------------------------------------------------- stop, Start and the environment

  lemma StopKeepsLifecycle(c: Config, s: State, drain: bool)
    requires c.Valid() && Kinds(s) && Lifecycle(c, s) && Mutex(s) && s.mutex.None?
    ensures Kinds(Stop(s, drain)) && Lifecycle(c, Stop(s, drain)) && Mutex(Stop(s, drain))
    ensures Stop(s, drain).stopped
  {
  }

  /** `stop` touches neither queue, store nor logs, and starts at most a finisher. */
  predicate SameQueue(s: State, s': State) {
    && s'.mailbox == s.mailbox && s'.slots == s.slots && s'.store == s.store && s'.issued == s.issued
    && s'.admitted == s.admitted && s'.dequeued == s.dequeued && s'.completed == s.completed
  }

  lemma StopIsLocal(s: State, drain: bool)
    ensures SameQueue(s, Stop(s, drain))
    ensures Stop(s, drain).threads == s.threads
         || Stop(s, drain).threads == s.threads[Finisher(s.spawned) := Waiting]
  {
  }

  /** Adding threads that own nothing keeps every part about ids and slots. */
  predicate Bare(pc: Pc) {
    pc.Idle? || pc.Waiting? || pc.ShutdownEntered?
  }

  predicate AddsBare(s: State, s': State) {
    && SameQueue(s, s')
    && (forall t | t in s.threads :: t in s'.threads && s'.threads[t] == s.threads[t])
    && (forall t | t in s'.threads && t !in s.threads :: Bare(s'.threads[t]))
  }

  /** Starting, a `Shutdown` call and the ends of contexts add at most threads that own nothing. */
  lemma StepAddsBare(c: Config, s: State, a: Action)
    requires Lifecycle(c, s) && Step(c, s, a).Some? && (a.Shutdown? || a.Start? || a.Cancel? || a.Expire?)
    ensures AddsBare(s, Step(c, s, a).value) && Step(c, s, a).value.stopped == s.stopped
  {
    match a
    case Shutdown(_) => case Cancel => case Expire(_) =>
    case Start => StartAddsBare(c, s);
  }

  lemma BareKeepsSlots(c: Config, s: State, s': State)
    requires AddsBare(s, s') && Slots(c, s)
    ensures Slots(c, s')
  {
    assert Tokens(s'.threads) == Tokens(s.threads);
  }

  lemma BareKeepsFifo(s: State, s': State)
    requires AddsBare(s, s') && Fifo(s)
    ensures Fifo(s')
  {
    assert forall t | t in s'.threads && Unsent(s'.threads[t]) :: t in s.threads && s.threads[t] == s'.threads[t];
  }

  lemma BareKeepsLabels(s: State, s': State)
    requires AddsBare(s, s') && Labels(s)
    ensures Labels(s')
  {
  }

  lemma BareKeepsCustody(s: State, s': State)
    requires AddsBare(s, s') && Custody(s)
    ensures Custody(s')
  {
    BareKeepsHolders(s, s');
    forall id | id in s'.dequeued && id !in Ids(s'.completed)
      ensures HeldBySome(s', id)
    {
      BareKeepsHeld(s, s', id);
    }
  }

  lemma BareKeepsHolders(s: State, s': State)
    requires AddsBare(s, s') && Holders(s)
    ensures Holders(s')
  {
    assert forall t | t in s'.threads && Held(s'.threads[t]) :: t in s.threads && s.threads[t] == s'.threads[t];
  }

  lemma BareKeepsHeld(s: State, s': State, id: Id)
    requires AddsBare(s, s') && HeldBySome(s, id)
    ensures HeldBySome(s', id)
  {
    var u :| u in s.threads && Held(s.threads[u]) && s.threads[u].id == id;
    assert u in s'.threads && s'.threads[u] == s.threads[u];
  }

  lemma BareKeepsStock(s: State, s': State)
    requires AddsBare(s, s') && Stock(s)
    ensures Stock(s')
  {
    forall id | id in s'.store
      ensures id in s'.mailbox || ShelvedBySome(s', id)
    {
      if id !in s.mailbox {
        assert ShelvedBySome(s, id);
        var u :| u in s.threads && Shelved(s.threads[u]) && s.threads[u].id == id;
        assert u in s'.threads && s'.threads[u] == s.threads[u];
      }
    }
  }

  lemma BareKeepsDrain(c: Config, s: State, s': State)
    requires AddsBare(s, s') && Drain(s) && Lifecycle(c, s)
    requires s.closed ==> s'.closed
    requires s.stopped ==> s'.stopped && s'.started == s.started
    ensures Drain(s')
  {
    if Discards(s') {
      assert Discards(s);
    }
  }

  lemma BareKeepsInv(c: Config, s: State, s': State)
    requires Inv(c, s) && AddsBare(s, s')
    requires s.closed ==> s'.closed
    requires s.stopped ==> s'.stopped && s'.started == s.started
    requires Kinds(s') && Lifecycle(c, s') && Mutex(s')
    ensures Inv(c, s')
  {
    BareKeepsSlots(c, s, s');
    BareKeepsFifo(s, s');
    BareKeepsLabels(s, s');
    BareKeepsCustody(s, s');
    BareKeepsStock(s, s');
    BareKeepsDrain(c, s, s');
  }

  lemma StopKeepsInv(c: Config, s: State, drain: bool)
    requires c.Valid() && Inv(c, s) && s.mutex.None?
    ensures Inv(c, Stop(s, drain)) && Stop(s, drain).stopped
  {
    StopKeepsLifecycle(c, s, drain);
    StopIsLocal(s, drain);
    BareKeepsInv(c, s, Stop(s, drain));
  }

  lemma StartKeepsLifecycle(c: Config, s: State)
    requires c.Valid() && Kinds(s) && Lifecycle(c, s) && Mutex(s) && StepStart(c, s).Some?
    ensures var s' := StepStart(c, s).value; Kinds(s') && Lifecycle(c, s') && Mutex(s')
  {
    LaunchKeepsKinds(c, s);
  }

  lemma LaunchKeepsKinds(c: Config, s: State)
    requires Kinds(s) && Mutex(s) && StepStart(c, s).Some?
    ensures var s' := StepStart(c, s).value; Kinds(s') && Mutex(s')
  {
  }

  lemma StartAddsBare(c: Config, s: State)
    requires Lifecycle(c, s) && StepStart(c, s).Some?
    ensures AddsBare(s, StepStart(c, s).value)
  {
  }

  lemma StartKeepsInv(c: Config, s: State)
    requires c.Valid() && Inv(c, s) && StepStart(c, s).Some?
    ensures Inv(c, StepStart(c, s).value)
  {
    StartKeepsLifecycle(c, s);
    StartAddsBare(c, s);
    BareKeepsInv(c, s, StepStart(c, s).value);
  }

  lemma CancelKeepsLifecycle(c: Config, s: State)
    requires Kinds(s) && Lifecycle(c, s) && Mutex(s) && s.started
    ensures var s' := s.(cancelled := true); Kinds(s') && Lifecycle(c, s') && Mutex(s')
  {
  }

  lemma CancelKeepsInv(c: Config, s: State)
    requires Inv(c, s) && s.started
    ensures Inv(c, s.(cancelled := true))
  {
    CancelKeepsLifecycle(c, s);
    BareKeepsInv(c, s, s.(cancelled := true));
  }

  lemma ExpireKeepsLifecycle(c: Config, s: State, t: Thread)
    requires Kinds(s) && Lifecycle(c, s) && Mutex(s)
    ensures var s' := s.(expired := s.expired + {t}); Kinds(s') && Lifecycle(c, s') && Mutex(s')
  {
  }

  lemma ExpireKeepsInv(c: Config, s: State, t: Thread)
    requires Inv(c, s)
    ensures Inv(c, s.(expired := s.expired + {t}))
  {
    ExpireKeepsLifecycle(c, s, t);
    BareKeepsInv(c, s, s.(expired := s.expired + {t}));
  }

  lemma ShutdownCallKeepsLifecycle(c: Config, s: State, s': State, t: Thread)
    requires Kinds(s) && Lifecycle(c, s) && Mutex(s) && SameFlags(s, s') && SameQueue(s, s')
    requires t.Caller? && t !in s.threads && s'.threads == s.threads[t := ShutdownEntered]
    ensures Kinds(s') && Lifecycle(c, s') && Mutex(s')
  {
  }

  lemma ShutdownCallKeepsInv(c: Config, s: State, t: Thread)
    requires Inv(c, s) && t.Caller? && t !in s.threads
    ensures Inv(c, Goto(s, t, ShutdownEntered))
  {
    ShutdownCallKeepsLifecycle(c, s, Goto(s, t, ShutdownEntered), t);
    BareKeepsInv(c, s, Goto(s, t, ShutdownEntered));
  }

  predicate SameFlags(s: State, s': State) {
    && s'.mutex == s.mutex && s'.closed == s.closed && s'.started == s.started && s'.stopped == s.stopped
    && s'.finishing == s.finishing && s'.stopping == s.stopping && s'.done == s.done
    && s'.cancelled == s.cancelled && s'.spawned == s.spawned && s'.crashed == s.crashed
  }

  /** A new `Enqueue` call: its id is fresh and nothing else changes. */
  predicate Calls(s: State, s': State, t: Thread, id: Id, note: Note) {
    && t.Caller? && t !in s.threads && id !in s.issued
    && s'.threads == s.threads[t := Selecting(id)]
    && s'.issued == s.issued[id := note]
    && s'.mailbox == s.mailbox && s'.slots == s.slots && s'.store == s.store
    && s'.admitted == s.admitted && s'.dequeued == s.dequeued && s'.completed == s.completed
  }

  lemma CallKeepsLifecycle(c: Config, s: State, s': State, t: Thread, id: Id, note: Note)
    requires Kinds(s) && Lifecycle(c, s) && Mutex(s) && Calls(s, s', t, id, note) && SameFlags(s, s')
    ensures Kinds(s') && Lifecycle(c, s') && Mutex(s')
  {
  }

  lemma CallKeepsSlots(c: Config, s: State, s': State, t: Thread, id: Id, note: Note)
    requires Slots(c, s) && Calls(s, s', t, id, note)
    ensures Slots(c, s')
  {
    assert Tokens(s'.threads) == Tokens(s.threads);
  }

  lemma CallKeepsFifo(s: State, s': State, t: Thread, id: Id, note: Note)
    requires Fifo(s) && Labels(s) && Calls(s, s', t, id, note)
    ensures Fifo(s') && Labels(s')
  {
  }

  lemma CallKeepsCustody(s: State, s': State, t: Thread, id: Id, note: Note)
    requires Custody(s) && Calls(s, s', t, id, note)
    ensures Custody(s')
  {
    forall x | x in s'.dequeued && x !in Ids(s'.completed)
      ensures HeldBySome(s', x)
    {
      CallKeepsHeld(s, s', t, id, note, x);
    }
  }

  lemma CallKeepsHeld(s: State, s': State, t: Thread, id: Id, note: Note, x: Id)
    requires Calls(s, s', t, id, note) && HeldBySome(s, x)
    ensures HeldBySome(s', x)
  {
    var u :| u in s.threads && Held(s.threads[u]) && s.threads[u].id == x;
    assert u in s'.threads && s'.threads[u] == s.threads[u];
  }

  lemma CallKeepsStock(s: State, s': State, t: Thread, id: Id, note: Note)
    requires Stock(s) && Calls(s, s', t, id, note)
    ensures Stock(s')
  {
    forall x | x in s'.store
      ensures x in s'.mailbox || ShelvedBySome(s', x)
    {
      if x !in s.mailbox {
        assert ShelvedBySome(s, x);
        var u :| u in s.threads && Shelved(s.threads[u]) && s.threads[u].id == x;
        assert u in s'.threads && s'.threads[u] == s.threads[u];
      }
    }
  }

  lemma CallKeepsDrain(s: State, s': State, t: Thread, id: Id, note: Note)
    requires Drain(s) && Calls(s, s', t, id, note) && SameFlags(s, s')
    ensures Drain(s')
  {
    if Discards(s') {
      assert Discards(s);
      if s.started {
        var u :| u in s.threads && s.threads[u] == Exited(false);
        assert u in s'.threads && s'.threads[u] == Exited(false);
      }
    }
  }

  lemma CallKeepsInv(c: Config, s: State, s': State, t: Thread, id: Id, note: Note)
    requires Inv(c, s) && Calls(s, s', t, id, note) && SameFlags(s, s')
    ensures Inv(c, s')
  {
    CallKeepsLifecycle(c, s, s', t, id, note);
    CallKeepsSlots(c, s, s', t, id, note);
    CallKeepsFifo(s, s', t, id, note);
    CallKeepsCustody(s, s', t, id, note);
    CallKeepsStock(s, s', t, id, note);
    CallKeepsDrain(s, s', t, id, note);
  }

  // ---------------------------------------------------------------- the invariant holds in every run

  lemma InitialInv(c: Config)
    requires c.Valid()
    ensures Inv(c, INITIAL)
  {
    assert Tokens(INITIAL.threads) == {};
  }

  /** A thread step other than a call of `stop`. */
  lemma OpKeepsInv(c: Config, s: State, t: Thread, op: Op, next: Pc, s': State)
    requires c.Valid() && Inv(c, s) && t in s.threads && !op.CallStop? && Fits(c, s, t, op, next)
    requires (op.Receive? ==> s.mailbox != []) && After(s, t, op, next, s')
    requires op.AcquireSlot? ==> s.slots < c.capacity
    ensures Inv(c, s')
  {
    KeepsKinds(c, s, t, op, next, s');
    KeepsLifecycle(c, s, t, op, next, s');
    KeepsMutex(c, s, t, op, next, s');
    KeepsSlots(c, s, t, op, next, s');
    KeepsFifo(c, s, t, op, next, s');
    KeepsCustody(c, s, t, op, next, s');
    KeepsStock(c, s, t, op, next, s');
    KeepsLabels(c, s, t, op, next, s');
    KeepsDrain(c, s, t, op, next, s');
  }

  lemma GotoKeepsInv(c: Config, s: State, t: Thread, next: Pc)
    requires c.Valid() && Inv(c, s) && t in s.threads && Fits(c, s, t, Read, next)
    ensures Inv(c, Goto(s, t, next))
  {
    OpKeepsInv(c, s, t, Read, next, Goto(s, t, next));
  }

  /** After `stop` the caller moves on as if it had read a flag. */
  lemma StopFits(c: Config, s: State, s1: State, t: Thread, drain: bool, next: Pc)
    requires t in s.threads && Fits(c, s, t, CallStop(drain), next)
    requires t in s1.threads && s1.threads[t] == s.threads[t]
    requires SameQueue(s, s1) && s1.stopped && s1.closed
    ensures Fits(c, s1, t, Read, next)
  {
  }

  lemma GotoAfterStop(c: Config, s: State, s1: State, t: Thread, drain: bool, next: Pc)
    requires c.Valid() && Inv(c, s1) && t in s.threads && Fits(c, s, t, CallStop(drain), next)
    requires SameQueue(s, s1) && s1.stopped && s1.closed
    requires t in s1.threads && s1.threads[t] == s.threads[t]
    ensures Inv(c, Goto(s1, t, next))
  {
    StopFits(c, s, s1, t, drain, next);
    GotoKeepsInv(c, s1, t, next);
  }

  lemma StopThenGoto(c: Config, s: State, t: Thread, drain: bool, next: Pc)
    requires c.Valid() && Inv(c, s) && t in s.threads && s.mutex.None? && Fits(c, s, t, CallStop(drain), next)
    ensures Inv(c, Goto(Stop(s, drain), t, next))
  {
    StopKeepsInv(c, s, drain);
    StopKeepsThread(c, s, drain, t);
    GotoAfterStop(c, s, Stop(s, drain), t, drain, next);
  }

  lemma StopKeepsThread(c: Config, s: State, drain: bool, t: Thread)
    requires Lifecycle(c, s) && t in s.threads
    ensures var s1 := Stop(s, drain);
      && SameQueue(s, s1) && s1.stopped && s1.closed
      && t in s1.threads && s1.threads[t] == s.threads[t]
  {
    StopIsLocal(s, drain);
    assert Finisher(s.spawned) !in s.threads;
  }

  /** What one step of a thread does: `stop` and move on, or an operation as `After` says. */
  ghost predicate Takes(c: Config, s: State, t: Thread, op: Op, next: Pc, s': State) {
    && t in s.threads && Fits(c, s, t, op, next)
    && (op.Receive? ==> s.mailbox != [])
    && (op.AcquireSlot? ==> s.slots < c.capacity)
    && (op.Send? ==> |s.mailbox| < c.capacity)
    && if op.CallStop? then s.mutex.None? && s' == Goto(Stop(s, op.drain), t, next) else After(s, t, op, next, s')
  }

  /** A thread moves itself and may start a finisher; other threads stay. */
  predicate Moves(s: State, s': State, t: Thread, next: Pc) {
    && t in s.threads && t in s'.threads && s'.threads[t] == next
    && (forall u | u in s.threads && u != t :: u in s'.threads && s'.threads[u] == s.threads[u])
    && (forall u | u in s'.threads && u != t :: s'.threads[u] == Waiting || (u in s.threads && s'.threads[u] == s.threads[u]))
  }

  lemma TakesMoves(c: Config, s: State, t: Thread, op: Op, next: Pc, s': State)
    requires Lifecycle(c, s) && Takes(c, s, t, op, next, s')
    ensures Moves(s, s', t, next)
  {
    if op.CallStop? {
      StopMoves(c, s, t, op.drain, next);
    }
  }

  lemma StopMoves(c: Config, s: State, t: Thread, drain: bool, next: Pc)
    requires Lifecycle(c, s) && t in s.threads
    ensures Moves(s, Goto(Stop(s, drain), t, next), t, next)
  {
    StopIsLocal(s, drain);
    assert Finisher(s.spawned) !in s.threads;
  }

  /** What one step of a thread writes to the queue and the logs. */
  lemma TakesLogs(c: Config, s: State, t: Thread, op: Op, next: Pc, s': State)
    requires Takes(c, s, t, op, next, s')
    ensures s'.admitted == if op.Send? then s.admitted + [op.id] else s.admitted
    ensures s'.completed == if op.Report? then s.completed + [op.completion] else s.completed
    ensures s'.mailbox == if op.Send? then s.mailbox + [op.id] else if op.Receive? then s.mailbox[1..] else s.mailbox
    ensures s'.issued == s.issued
  {
    if op.CallStop? {
      StopIsLocal(s, op.drain);
    }
  }

  lemma ThreadTakes(c: Config, s: State, t: Thread, arm: Arm) returns (op: Op, next: Pc)
    requires Kinds(s) && Lifecycle(c, s) && Stock(s) && Labels(s) && t in s.threads && StepThread(c, s, t, arm).Some?
    ensures Text(c, s, t, arm) == Some(Instr(op, next))
    ensures Takes(c, s, t, op, next, StepThread(c, s, t, arm).value)
  {
    var i := Text(c, s, t, arm).value;
    op, next := i.op, i.next;
    InvReady(c, s, t);
    TextFits(c, s, t, arm);
    if !op.CallStop? {
      SendIsOpen(c, s, t, op, next);
      PerformAfter(c, s, t, op, next, StepThread(c, s, t, arm).value);
    }
  }

  lemma TakesKeepsInv(c: Config, s: State, t: Thread, op: Op, next: Pc, s': State)
    requires c.Valid() && Inv(c, s) && Takes(c, s, t, op, next, s')
    ensures Inv(c, s')
  {
    if op.CallStop? {
      StopThenGoto(c, s, t, op.drain, next);
    } else {
      OpKeepsInv(c, s, t, op, next, s');
    }
  }

  lemma ThreadKeepsInv(c: Config, s: State, t: Thread, arm: Arm)
    requires c.Valid() && Inv(c, s) && t in s.threads && StepThread(c, s, t, arm).Some?
    ensures Inv(c, StepThread(c, s, t, arm).value)
  {
    var op, next := ThreadTakes(c, s, t, arm);
    TakesKeepsInv(c, s, t, op, next, StepThread(c, s, t, arm).value);
  }

  lemma SendIsOpen(c: Config, s: State, t: Thread, op: Op, next: Pc)
    requires Lifecycle(c, s) && t in s.threads && Fits(c, s, t, op, next)
    ensures op.Send? ==> !s.closed
  {
  }

  lemma StepKeepsInv(c: Config, s: State, a: Action)
    requires c.Valid() && Inv(c, s) && Step(c, s, a).Some?
    ensures Inv(c, Step(c, s, a).value)
  {
    match a
    case Enqueue(t, id, note) => CallKeepsInv(c, s, Step(c, s, a).value, t, id, note);
    case Shutdown(t) => ShutdownCallKeepsInv(c, s, t);
    case Run(t, arm) => ThreadKeepsInv(c, s, t, arm);
    case Start => StartKeepsInv(c, s);
    case Cancel => CancelKeepsInv(c, s);
    case AfterFunc => StopKeepsInv(c, s, false);
    case Expire(t) => ExpireKeepsInv(c, s, t);
  }

  lemma {:induction false} ExecutesKeepsInv(c: Config, s: State, acts: seq<Action>, t: State)
    requires c.Valid() && Inv(c, s) && Executes(c, s, acts, t)
    ensures Inv(c, t)
    decreases |acts|
  {
    if acts != [] {
      StepKeepsInv(c, s, acts[0]);
      ExecutesKeepsInv(c, Step(c, s, acts[0]).value, acts[1..], t);
    }
  }

  /** Every reachable state satisfies the invariant. */
  lemma ReachableInv(c: Config, s: State)
    requires c.Valid() && Reachable(c, s)
    ensures Inv(c, s)
  {
    var acts :| Executes(c, INITIAL, acts, s);
    InitialInv(c);
    ExecutesKeepsInv(c, INITIAL, acts, s);
  }
}
