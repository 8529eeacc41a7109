/**
 The queue lifecycle of a notification manager as a transition system.

 Every goroutine that touches the manager is a thread with a program counter: callers of
 `Enqueue` and `Shutdown`, the dispatcher's workers, and the finisher started by `Start` or by
 the first `stop`. One step of one thread is one mutex, channel, map or context operation, so
 the scheduler may interleave any two of them. The critical sections of `Start` and `stop` are
 single steps that need the mutex to be free; the critical section of `Enqueue` is several.
 */
module Protocol {
  import opened Wrappers

  /** Queue id of one admitted notification. */
  type Id = int

  /** The application-owned notification carried through the queue. */
  type Note = string

  /** Queue capacity and worker count, as accepted by the constructor. */
  datatype Config = Config(capacity: nat, workers: nat) {
    predicate Valid() {
      capacity >= 1 && workers >= 1
    }
  }

  datatype Thread = Caller(n: nat) | Worker(i: nat) | Finisher(k: nat)

  /** Why `Enqueue` returns without admitting. */
  datatype Refusal = ManagerStopped | ContextDone

  /** What a completion callback reports: success, a delivery error, or ErrManagerStopped. */
  datatype Outcome = Delivered | Failed | Discarded

  datatype Completion = Completion(id: Id, note: Note, outcome: Outcome)

  /** Program counters. `id` is the queue id the thread is working on. */
  datatype Pc =
    // Enqueue
    | Selecting(id: Id)                    // at the three-way select
    | Reserved(id: Id)                     // owns a slot, waits for the mutex
    | Locked(id: Id)                       // owns the mutex, before the stopped check
    | Checked(id: Id)                      // before the caller's context check and store.put
    | Stored(id: Id)                       // before the mailbox send
    | Sent(id: Id)                         // before the deferred unlock
    | Refusing(id: Id, why: Refusal)       // before giving the slot back
    | Refused(id: Id, why: Refusal)        // slot returned, before the deferred unlock
    | Accepted(id: Id)                     // returned the id
    | Rejected(id: Id, why: Refusal)       // returned an error
    // dispatcher worker
    | Idle
    | Got(id: Id)                          // received, before store.get
    | Found(id: Id, note: Note)            // before store.delete
    | Deleted(id: Id, note: Note)          // before onDequeue
    | Delivering(id: Id, note: Note)
    | Completing(id: Id, note: Note, outcome: Outcome)
    | Exited(drained: bool)                // drained: saw a closed and empty mailbox
    // finish
    | Waiting                              // at workersDone.Wait
    | Stopping                             // before stop(false)
    | Draining                             // at the range receive
    | Taken(id: Id)
    | Looked(id: Id, entry: Option<Note>)
    | Removed(id: Id, entry: Option<Note>)
    | Discarding(id: Id, entry: Option<Note>)
    | Finished
    // Shutdown
    | ShutdownEntered                      // before stop(true)
    | ShutdownWaiting                      // at the select of Wait
    | ShutdownExpired                      // before stop(false)
    | ShutdownReturned(ok: bool)

  /**
   The manager's shared state, the goroutines, and three logs. `issued` records the arguments
   of every `Enqueue` call under the queue id it generated; `admitted`, `dequeued` and
   `completed` record mailbox sends, mailbox receives and completion callbacks in order.
   `crashed` is set by an operation that panics in Go: a send on a closed channel, or a second
   close.
   */
  datatype State = State(
    mutex: Option<Thread>,
    slots: nat,
    mailbox: seq<Id>,
    closed: bool,
    store: map<Id, Note>,
    started: bool,
    stopped: bool,
    finishing: bool,
    stopping: bool,
    done: bool,
    cancelled: bool,
    spawned: nat,
    threads: map<Thread, Pc>,
    expired: set<Thread>,
    crashed: bool,
    issued: map<Id, Note>,
    admitted: seq<Id>,
    dequeued: seq<Id>,
    completed: seq<Completion>)

  /** Which ready case a `select` takes, or what a delivery returns. */
  datatype Arm = Proceed | SeeStopping | SeeContext | Deliver(ok: bool)

  /** One scheduling decision. */
  datatype Action =
    | Enqueue(t: Thread, id: Id, note: Note)
    | Shutdown(t: Thread)
    | Run(t: Thread, arm: Arm)
    | Start
    | Cancel                               // the context given to Start is cancelled
    | AfterFunc                            // the context callback runs stop(false)
    | Expire(t: Thread)                    // a caller's own context ends

  const INITIAL := State(
    None, 0, [], false, map[], false, false, false, false, false, false, 0, map[], {}, false,
    map[], [], [], [])

  // ---------------------------------------------------------------- helpers on states

  function Goto(s: State, t: Thread, pc: Pc): State {
    s.(threads := s.threads[t := pc])
  }

  function WorkerThreads(n: nat): set<Thread> {
    set i: nat | i < n :: Worker(i)
  }

  predicate WorkersExited(c: Config, s: State) {
    forall i: nat | i < c.workers :: Worker(i) in s.threads ==> s.threads[Worker(i)].Exited?
  }

  /** `Manager.stop`, run with the mutex free. */
  function Stop(s: State, drain: bool): State {
    var s1 :=
      if s.stopped then s
      else s.(stopped := true, stopping := true, closed := true,
              crashed := s.crashed || s.stopping || s.closed);
    var s2 := if !drain && s1.started then s1.(cancelled := true) else s1;
    if s2.finishing then s2
    else s2.(finishing := true, spawned := s2.spawned + 1,
             threads := s2.threads[Finisher(s2.spawned) := Waiting])
  }

  // ---------------------------------------------------------------- shared operations

  /** The operations a thread performs on the shared state, one per step. */
  datatype Op =
    | Read                                 // inspects flags, a context or the store
    | AcquireSlot                          // m.slots <- struct{}{}
    | ReleaseSlot                          // <-m.slots
    | Lock
    | Unlock
    | Put(id: Id, note: Note)              // store.put
    | Delete(id: Id)                       // store.delete
    | Send(id: Id)                         // m.mailbox <- id
    | Receive                              // takes the oldest buffered id
    | Report(completion: Completion)       // onComplete
    | CallStop(drain: bool)
    | CloseDone

  /** The effect of one operation; None when it blocks. */
  function Perform(c: Config, s: State, t: Thread, op: Op): Option<State> {
    match op
    case Read => Some(s)
    case AcquireSlot => if s.slots < c.capacity then Some(s.(slots := s.slots + 1)) else None
    case ReleaseSlot => if s.slots > 0 then Some(s.(slots := s.slots - 1)) else None
    case Lock => if s.mutex.None? then Some(s.(mutex := Some(t))) else None
    case Unlock => Some(s.(mutex := None))
    case Put(id, note) => Some(s.(store := s.store[id := note]))
    case Delete(id) => Some(s.(store := s.store - {id}))
    case Send(id) =>
      if s.closed then Some(s.(crashed := true))
      else if |s.mailbox| < c.capacity then
        Some(s.(mailbox := s.mailbox + [id], admitted := s.admitted + [id]))
      else None
    case Receive =>
      if s.mailbox != [] then
        Some(s.(mailbox := s.mailbox[1..], dequeued := s.dequeued + [s.mailbox[0]]))
      else None
    case Report(completion) => Some(s.(completed := s.completed + [completion]))
    case CallStop(drain) => if s.mutex.None? then Some(Stop(s, drain)) else None
    case CloseDone => Some(s.(done := true, crashed := s.crashed || s.done))
  }

  // ---------------------------------------------------------------- program texts

  /** An operation together with the program counter after it. */
  datatype Instr = Instr(op: Op, next: Pc)

  /** `Enqueue`, from its select to its return. */
  function EnqueueText(s: State, t: Thread, pc: Pc, arm: Arm): Option<Instr> {
    match pc
    case Selecting(id) =>
      (match arm
       case Proceed => Some(Instr(AcquireSlot, Reserved(id)))
       case SeeStopping => if s.stopping then Some(Instr(Read, Rejected(id, ManagerStopped))) else None
       case SeeContext => if t in s.expired then Some(Instr(Read, Rejected(id, ContextDone))) else None
       case Deliver(_) => None)
    case Reserved(id) => Some(Instr(Lock, Locked(id)))
    case Locked(id) =>
      if s.stopped || (s.started && s.cancelled) then Some(Instr(Read, Refusing(id, ManagerStopped)))
      else Some(Instr(Read, Checked(id)))
    case Checked(id) =>
      if t in s.expired then Some(Instr(Read, Refusing(id, ContextDone)))
      else if id in s.issued then Some(Instr(Put(id, s.issued[id]), Stored(id)))
      else None
    case Stored(id) => Some(Instr(Send(id), Sent(id)))
    case Sent(id) => Some(Instr(Unlock, Accepted(id)))
    case Refusing(id, why) => Some(Instr(ReleaseSlot, Refused(id, why)))
    case Refused(id, why) => Some(Instr(Unlock, Rejected(id, why)))
    case _ => None
  }

  /** A dispatcher worker: the receive loop and `dispatch`. */
  function WorkerText(s: State, pc: Pc, arm: Arm): Option<Instr> {
    match pc
    case Idle =>
      (match arm
       case Proceed =>
         if s.mailbox != [] then Some(Instr(Receive, Got(s.mailbox[0])))
         else if s.closed then Some(Instr(Read, Exited(true)))
         else None
       case SeeContext => if s.cancelled then Some(Instr(Read, Exited(false))) else None
       case _ => None)
    case Got(id) =>
      if id in s.store then Some(Instr(Read, Found(id, s.store[id])))
      else Some(Instr(Read, Idle))         // "notification not found": no completion
    case Found(id, note) => Some(Instr(Delete(id), Deleted(id, note)))
    case Deleted(id, note) => Some(Instr(ReleaseSlot, Delivering(id, note)))
    case Delivering(id, note) =>
      if arm.Deliver? then
        Some(Instr(Read, Completing(id, note, if arm.ok then Delivered else Failed)))
      else None
    case Completing(id, note, outcome) => Some(Instr(Report(Completion(id, note, outcome)), Idle))
    case _ => None
  }

  /** The cleanup goroutine `finish`. */
  function FinisherText(c: Config, s: State, pc: Pc): Option<Instr> {
    match pc
    case Waiting => if WorkersExited(c, s) then Some(Instr(Read, Stopping)) else None
    case Stopping => Some(Instr(CallStop(false), Draining))
    case Draining =>
      if s.mailbox != [] then Some(Instr(Receive, Taken(s.mailbox[0])))
      else if s.closed then Some(Instr(CloseDone, Finished))
      else None
    case Taken(id) => Some(Instr(Read, Looked(id, if id in s.store then Some(s.store[id]) else None)))
    case Looked(id, entry) => Some(Instr(Delete(id), Removed(id, entry)))
    case Removed(id, entry) => Some(Instr(ReleaseSlot, Discarding(id, entry)))
    case Discarding(id, entry) =>
      if entry.Some? then Some(Instr(Report(Completion(id, entry.value, Discarded)), Draining))
      else Some(Instr(Read, Draining))
    case _ => None
  }

  /** A `Shutdown` call. */
  function ShutdownText(s: State, t: Thread, pc: Pc, arm: Arm): Option<Instr> {
    match pc
    case ShutdownEntered => Some(Instr(CallStop(true), ShutdownWaiting))
    case ShutdownWaiting =>
      if arm.Proceed? && s.done then Some(Instr(Read, ShutdownReturned(true)))
      else if arm.SeeContext? && t in s.expired then Some(Instr(Read, ShutdownExpired))
      else None
    case ShutdownExpired => Some(Instr(CallStop(false), ShutdownReturned(false)))
    case _ => None
  }

  /** The instruction a thread is at, None when no case of its select is ready. */
  function Text(c: Config, s: State, t: Thread, arm: Arm): Option<Instr>
    requires t in s.threads
  {
    var pc := s.threads[t];
    if t.Worker? then WorkerText(s, pc, arm)
    else if t.Finisher? then FinisherText(c, s, pc)
    else if ShutdownPc(pc) then ShutdownText(s, t, pc, arm)
    else EnqueueText(s, t, pc, arm)
  }

  // ---------------------------------------------------------------- steps

  function StepThread(c: Config, s: State, t: Thread, arm: Arm): Option<State>
    requires t in s.threads
  {
    match Text(c, s, t, arm)
    case None => None
    case Some(Instr(op, next)) =>
      match Perform(c, s, t, op)
      case None => None
      case Some(s1) => Some(Goto(s1, t, next))
  }

  /** The goroutines after `Start` launched the workers and a finisher. */
  function Launched(c: Config, threads: map<Thread, Pc>, k: nat): map<Thread, Pc> {
    threads + (map t | t in WorkerThreads(c.workers) :: Idle) + map[Finisher(k) := Waiting]
  }

  /** The critical section of `Start`; None stands for its two error returns. */
  function StepStart(c: Config, s: State): Option<State> {
    if s.mutex.None? && !s.started && !s.stopped then
      Some(s.(started := true, finishing := true, spawned := s.spawned + 1,
              threads := Launched(c, s.threads, s.spawned)))
    else None
  }

  /** The whole system: None when the action is not enabled. */
  function Step(c: Config, s: State, a: Action): Option<State> {
    match a
    case Enqueue(t, id, note) =>
      if t.Caller? && t !in s.threads && id !in s.issued then
        Some(Goto(s, t, Selecting(id)).(issued := s.issued[id := note]))
      else None
    case Shutdown(t) =>
      if t.Caller? && t !in s.threads then Some(Goto(s, t, ShutdownEntered)) else None
    case Run(t, arm) => if t in s.threads && !s.crashed then StepThread(c, s, t, arm) else None
    case Start => StepStart(c, s)
    case Cancel => if s.started then Some(s.(cancelled := true)) else None
    case AfterFunc => if s.cancelled && s.mutex.None? then Some(Stop(s, false)) else None
    case Expire(t) => if t.Caller? then Some(s.(expired := s.expired + {t})) else None
  }

  // ---------------------------------------------------------------- runs

  /** `t` is reached from `s` by taking the actions `acts` in order. */
  predicate Executes(c: Config, s: State, acts: seq<Action>, t: State)
    decreases |acts|
  {
    if acts == [] then s == t
    else Step(c, s, acts[0]).Some? && Executes(c, Step(c, s, acts[0]).value, acts[1..], t)
  }

  ghost predicate Reachable(c: Config, s: State) {
    exists acts :: Executes(c, INITIAL, acts, s)
  }

  // ---------------------------------------------------------------- classes of program counters

  predicate ShutdownPc(pc: Pc) {
    pc.ShutdownEntered? || pc.ShutdownWaiting? || pc.ShutdownExpired? || pc.ShutdownReturned?
  }

  predicate WorkerPc(pc: Pc) {
    pc.Idle? || pc.Got? || pc.Found? || pc.Deleted? || pc.Delivering? || pc.Completing? || pc.Exited?
  }

  predicate FinisherPc(pc: Pc) {
    || pc.Waiting? || pc.Stopping? || pc.Draining? || pc.Taken? || pc.Looked? || pc.Removed?
    || pc.Discarding? || pc.Finished?
  }

  /** Owns the mutex. */
  predicate Critical(pc: Pc) {
    pc.Locked? || pc.Checked? || pc.Stored? || pc.Sent? || pc.Refusing? || pc.Refused?
  }

  /** Past the stopped check and not yet out of the critical section. */
  predicate Admitting(pc: Pc) {
    pc.Checked? || pc.Stored? || pc.Sent?
  }

  /** Owns one slot of the counting semaphore. */
  predicate Token(pc: Pc) {
    || pc.Reserved? || pc.Locked? || pc.Checked? || pc.Stored? || pc.Refusing?
    || pc.Got? || pc.Found? || pc.Deleted? || pc.Taken? || pc.Looked? || pc.Removed?
  }

  /** An `Enqueue` call whose id has not been sent. */
  predicate Unsent(pc: Pc) {
    || pc.Selecting? || pc.Reserved? || pc.Locked? || pc.Checked? || pc.Stored?
    || pc.Refusing? || pc.Refused? || pc.Rejected?
  }

  /** Received from the mailbox, completion not yet reported. */
  predicate Held(pc: Pc) {
    || pc.Got? || pc.Found? || pc.Deleted? || pc.Delivering? || pc.Completing?
    || pc.Taken? || pc.Looked? || pc.Removed? || pc.Discarding?
  }

  /** The thread's id is in the store although not in the mailbox. */
  predicate Shelved(pc: Pc) {
    pc.Stored? || pc.Got? || pc.Found? || pc.Taken? || pc.Looked?
  }

  function Ids(completed: seq<Completion>): (ids: seq<Id>)
    ensures |ids| == |completed|
    ensures forall i | 0 <= i < |ids| :: ids[i] == completed[i].id
  {
    seq(|completed|, i requires 0 <= i < |completed| => completed[i].id)
  }
}
