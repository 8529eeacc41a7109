/** What the answer of `Enqueue` tells its caller, under every interleaving. */
module ProtocolAnswers {
  import opened Wrappers
  import opened Protocol
  import opened ProtocolInvariant
  import opened ProtocolSafety
  import opened ProtocolShutdown

  /** An `Enqueue` call, from its select to after its return. */
  predicate Asking(pc: Pc) {
    Unsent(pc) || Admitted(pc)
  }

  /** The call has sent its id, or has returned it. */
  predicate Admitted(pc: Pc) {
    pc.Sent? || pc.Accepted?
  }

  /** Calls have ids of their own, and exactly those past the send are admitted. */
  ghost predicate Answered(s: State) {
    && Calling(s)
    && (forall t | t in s.threads && Admitted(s.threads[t]) :: s.threads[t].id in s.admitted)
    && (forall id | id in s.admitted :: AdmittedBySome(s, id))
  }

  predicate Calling(s: State) {
    && (forall t | t in s.threads && Asking(s.threads[t]) :: s.threads[t].id in s.issued)
    && (forall t, u | t in s.threads && u in s.threads && t != u && Asking(s.threads[t]) && Asking(s.threads[u]) ::
          s.threads[t].id != s.threads[u].id)
  }

  ghost predicate AdmittedBySome(s: State, id: Id) {
    exists t :: t in s.threads && Admitted(s.threads[t]) && s.threads[t].id == id
  }

  /** How one instruction moves an `Enqueue` call on. */
  predicate FitsAnswer(pc: Pc, op: Op, next: Pc) {
    && (Asking(next) <==> Asking(pc))
    && (Asking(next) ==> next.id == pc.id)
    && (Admitted(next) <==> Admitted(pc) || op.Send?)
    && (op.Send? ==> Asking(pc) && op.id == pc.id)
  }

  lemma TextAnswers(c: Config, s: State, t: Thread, arm: Arm)
    requires t in s.threads && KindOk(t, s.threads[t]) && Text(c, s, t, arm).Some?
    ensures var i := Text(c, s, t, arm).value; FitsAnswer(s.threads[t], i.op, i.next)
  {
    match s.threads[t]
    case Selecting(_) => case Reserved(_) => case Locked(_) => case Checked(_) => case Stored(_) =>
    case Sent(_) => case Refusing(_, _) => case Refused(_, _) => case _ =>
  }

  lemma MoveKeepsCalls(s: State, s': State, t: Thread, op: Op)
    requires Calling(s) && t in s.threads && t in s'.threads && Moves(s, s', t, s'.threads[t]) && s'.issued == s.issued
    requires FitsAnswer(s.threads[t], op, s'.threads[t])
    ensures Calling(s')
  {
  }

  lemma MoveKeepsAdmitted(s: State, s': State, t: Thread, op: Op, id: Id)
    requires t in s.threads && t in s'.threads && Moves(s, s', t, s'.threads[t])
    requires FitsAnswer(s.threads[t], op, s'.threads[t])
    requires (op.Send? && id == op.id) || AdmittedBySome(s, id)
    ensures AdmittedBySome(s', id)
  {
    if op.Send? && id == op.id {
      assert Admitted(s'.threads[t]) && s'.threads[t].id == id;
    } else {
      var u :| u in s.threads && Admitted(s.threads[u]) && s.threads[u].id == id;
      assert u in s'.threads && Admitted(s'.threads[u]) && s'.threads[u].id == id;
    }
  }

  lemma MoveKeepsAnswers(s: State, s': State, t: Thread, op: Op)
    requires Answered(s) && t in s.threads && t in s'.threads && Moves(s, s', t, s'.threads[t])
    requires FitsAnswer(s.threads[t], op, s'.threads[t]) && s'.issued == s.issued
    requires s'.admitted == if op.Send? then s.admitted + [op.id] else s.admitted
    ensures Answered(s')
  {
    MoveKeepsCalls(s, s', t, op);
    forall id | id in s'.admitted
      ensures AdmittedBySome(s', id)
    {
      MoveKeepsAdmitted(s, s', t, op, id);
    }
  }

  lemma ThreadKeepsAnswers(c: Config, s: State, t: Thread, arm: Arm)
    requires Inv(c, s) && Answered(s) && t in s.threads && StepThread(c, s, t, arm).Some?
    ensures Answered(StepThread(c, s, t, arm).value)
  {
    TextAnswers(c, s, t, arm);
    var op, next := ThreadTakes(c, s, t, arm);
    TakesMoves(c, s, t, op, next, StepThread(c, s, t, arm).value);
    TakesLogs(c, s, t, op, next, StepThread(c, s, t, arm).value);
    MoveKeepsAnswers(s, StepThread(c, s, t, arm).value, t, op);
  }

  /** A new `Enqueue` call has an id no other call has. */
  lemma CallKeepsAnswers(s: State, s': State, t: Thread, id: Id, note: Note)
    requires Answered(s) && Calls(s, s', t, id, note)
    ensures Answered(s')
  {
    forall x | x in s'.admitted
      ensures AdmittedBySome(s', x)
    {
      StillAdmitted(s, s', x);
    }
  }

  lemma StillAdmitted(s: State, s': State, id: Id)
    requires AdmittedBySome(s, id)
    requires forall t | t in s.threads :: t in s'.threads && s'.threads[t] == s.threads[t]
    ensures AdmittedBySome(s', id)
  {
    var u :| u in s.threads && Admitted(s.threads[u]) && s.threads[u].id == id;
    assert u in s'.threads && s'.threads[u] == s.threads[u];
  }

  /** New threads that are no `Enqueue` calls change nothing. */
  lemma BareKeepsAnswers(s: State, s': State)
    requires Answered(s) && AddsBare(s, s')
    ensures Answered(s')
  {
    assert forall t | t in s'.threads && Asking(s'.threads[t]) :: t in s.threads && s.threads[t] == s'.threads[t];
    forall x | x in s'.admitted
      ensures AdmittedBySome(s', x)
    {
      StillAdmitted(s, s', x);
    }
  }

  lemma StopKeepsAnswers(c: Config, s: State, drain: bool)
    requires Lifecycle(c, s) && Answered(s)
    ensures Answered(Stop(s, drain))
  {
    StopIsLocal(s, drain);
    assert Finisher(s.spawned) !in s.threads;
    BareKeepsAnswers(s, Stop(s, drain));
  }

  lemma StepKeepsAnswers(c: Config, s: State, a: Action)
    requires Inv(c, s) && Answered(s) && Step(c, s, a).Some?
    ensures Answered(Step(c, s, a).value)
  {
    var s' := Step(c, s, a).value;
    match a
    case Enqueue(t, id, note) => CallKeepsAnswers(s, s', t, id, note);
    case Run(t, arm) => ThreadKeepsAnswers(c, s, t, arm);
    case AfterFunc => StopKeepsAnswers(c, s, false);
    case _ =>
      StepAddsBare(c, s, a);
      BareKeepsAnswers(s, s');
  }

  lemma {:induction false} RunKeepsAnswers(c: Config, s: State, acts: seq<Action>, t: State)
    requires c.Valid() && Inv(c, s) && Answered(s) && Executes(c, s, acts, t)
    ensures Answered(t)
    decreases |acts|
  {
    if acts != [] {
      StepKeepsInv(c, s, acts[0]);
      StepKeepsAnswers(c, s, acts[0]);
      RunKeepsAnswers(c, Step(c, s, acts[0]).value, acts[1..], t);
    }
  }

  /**
   The answer of `Enqueue` is the truth: an id is admitted iff its call is past the send or has
   returned success, each call has an id of its own, and a refused id is never admitted nor
   completed. So once `done` is closed each accepted call has exactly one completion.
   */
  lemma EnqueueAnswers(c: Config, s: State)
    requires c.Valid() && Reachable(c, s)
    ensures forall id :: id in s.admitted <==> AdmittedBySome(s, id)
    ensures forall t, u | t in s.threads && u in s.threads && t != u && s.threads[t].Accepted? && s.threads[u].Accepted? ::
              s.threads[t].id != s.threads[u].id
    ensures forall t | t in s.threads && s.threads[t].Rejected? ::
              s.threads[t].id !in s.admitted && s.threads[t].id !in Ids(s.completed)
    ensures s.done ==> forall t | t in s.threads && s.threads[t].Accepted? ::
              multiset(Ids(s.completed))[s.threads[t].id] == 1
  {
    ReachableAnswered(c, s);
    ReachableInv(c, s);
    CompletedWereAdmitted(s);
    if s.done {
      Quiescence(c, s);
      forall t | t in s.threads && s.threads[t].Accepted?
        ensures multiset(Ids(s.completed))[s.threads[t].id] == 1
      {
        Multiplicity(s.admitted, s.threads[t].id);
      }
    }
  }

  lemma ReachableAnswered(c: Config, s: State)
    requires c.Valid() && Reachable(c, s)
    ensures Answered(s)
  {
    var acts :| Executes(c, INITIAL, acts, s);
    InitialInv(c);
    RunKeepsAnswers(c, INITIAL, acts, s);
  }

  lemma CompletedWereAdmitted(s: State)
    requires Fifo(s) && Custody(s)
    ensures forall id | id in Ids(s.completed) :: id in s.admitted
  {
  }
}
