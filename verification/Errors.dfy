/** Error trees, their classification, and the built-in retry policies. */
module Errors {
  import opened Wrappers
  import opened Words

  /** What errors.As and errors.Is can see at one node of an error tree. */
  datatype Kind =
    | Plain
    | PermanentMark
    | TransportMark
    | Delivery(failure: Failure)           // *notify.DeliveryError
    | Proxy(status: int)                   // *email.ProxyError
    | Reply(code: int)                     // *textproto.Error
    | Certificate                          // TLS or x509 verification errors
    | Network(timeout: bool)               // net.Error
    | Eof
    | UnexpectedEof
    | DeadlineExceeded                     // also a net.Error that timed out
    | Canceled

  /** The fields of a DeliveryError apart from the wrapped cause. */
  datatype Failure = Failure(receiver: string, target: string, index: nat, attempts: nat, result: DeliveryResult)

  datatype DeliveryResult = DeliveryResult(status: string, statusCode: int, response: string, retryAfter: Int64)

  /** A non-nil error: a leaf, a wrapper around one cause, or errors.Join of several. */
  datatype Error = Leaf(kind: Kind) | Wrap(kind: Kind, cause: Error) | Join(causes: seq<Error>)

  // ---------------------------------------------------------------- errors.As

  /** Depth-first, pre-order search for the first node that matches. */
  function As(e: Error, matches: Kind -> bool): Option<Kind> {
    match e
    case Leaf(k) => if matches(k) then Some(k) else None
    case Wrap(k, cause) => if matches(k) then Some(k) else As(cause, matches)
    case Join(causes) => AsAny(causes, matches)
  }

  function AsAny(causes: seq<Error>, matches: Kind -> bool): Option<Kind> {
    if causes == [] then None
    else
      var first := As(causes[0], matches);
      if first.Some? then first else AsAny(causes[1..], matches)
  }

  /** All nodes of the tree in the order errors.As visits them. */
  function Nodes(e: Error): seq<Kind> {
    match e
    case Leaf(k) => [k]
    case Wrap(k, cause) => [k] + Nodes(cause)
    case Join(causes) => NodesOf(causes)
  }

  function NodesOf(causes: seq<Error>): seq<Kind> {
    if causes == [] then [] else Nodes(causes[0]) + NodesOf(causes[1..])
  }

  /** `r` is the first element of `kinds` that matches, None when there is none. */
  ghost predicate FirstMatch(kinds: seq<Kind>, matches: Kind -> bool, r: Option<Kind>) {
    match r
    case None => forall i | 0 <= i < |kinds| :: !matches(kinds[i])
    case Some(k) => exists i :: 0 <= i < |kinds| && kinds[i] == k && matches(k)
                                && forall j | 0 <= j < i :: !matches(kinds[j])
  }

  lemma FirstMatchConcat(a: seq<Kind>, b: seq<Kind>, matches: Kind -> bool, ra: Option<Kind>, rb: Option<Kind>)
    requires FirstMatch(a, matches, ra) && FirstMatch(b, matches, rb)
    ensures FirstMatch(a + b, matches, if ra.Some? then ra else rb)
  {
    if ra.Some? {
      var i :| 0 <= i < |a| && a[i] == ra.value && matches(ra.value) && forall j | 0 <= j < i :: !matches(a[j]);
      assert (a + b)[i] == ra.value;
      assert forall j | 0 <= j < i :: (a + b)[j] == a[j];
    } else if rb.Some? {
      var i :| 0 <= i < |b| && b[i] == rb.value && matches(rb.value) && forall j | 0 <= j < i :: !matches(b[j]);
      assert (a + b)[|a| + i] == rb.value;
      assert forall j | 0 <= j < |a| + i :: !matches((a + b)[j]);
    }
  }

  /** The search finds exactly the first matching node in visiting order. */
  lemma {:induction false} AsFindsFirst(e: Error, matches: Kind -> bool)
    ensures FirstMatch(Nodes(e), matches, As(e, matches))
  {
    match e
    case Leaf(k) =>
      assert matches(k) ==> [k][0] == k;
    case Wrap(k, cause) =>
      AsFindsFirst(cause, matches);
      assert matches(k) ==> [k][0] == k;
      FirstMatchConcat([k], Nodes(cause), matches, if matches(k) then Some(k) else None, As(cause, matches));
    case Join(causes) =>
      AsAnyFindsFirst(causes, matches);
  }

  lemma {:induction false} AsAnyFindsFirst(causes: seq<Error>, matches: Kind -> bool)
    ensures FirstMatch(NodesOf(causes), matches, AsAny(causes, matches))
  {
    if causes != [] {
      AsFindsFirst(causes[0], matches);
      AsAnyFindsFirst(causes[1..], matches);
      FirstMatchConcat(Nodes(causes[0]), NodesOf(causes[1..]), matches, As(causes[0], matches), AsAny(causes[1..], matches));
    }
  }

  predicate Has(e: Error, matches: Kind -> bool) {
    As(e, matches).Some?
  }

  // ---------------------------------------------------------------- marks

  predicate PermanentKind(k: Kind) { k.PermanentMark? }

  predicate TransportKind(k: Kind) { k.TransportMark? }

  /** Implements net.Error. */
  predicate NetworkKind(k: Kind) { k.Network? || k.DeadlineExceeded? }

  predicate DeadlineKind(k: Kind) { k.DeadlineExceeded? }

  predicate IsPermanent(err: Option<Error>) {
    err.Some? && Has(err.value, PermanentKind)
  }

  predicate IsTransport(err: Option<Error>) {
    err.Some? && !IsPermanent(err) && Has(err.value, TransportKind)
  }

  function Permanent(err: Option<Error>): Option<Error> {
    if err.None? || IsPermanent(err) then err else Some(Wrap(PermanentMark, err.value))
  }

  function Transport(err: Option<Error>): Option<Error> {
    if err.None? || IsPermanent(err) || IsTransport(err) then err else Some(Wrap(TransportMark, err.value))
  }

  /** The two classes exclude each other, and the constructors put an error in its class once. */
  lemma MarksClassify(err: Option<Error>)
    ensures !(IsPermanent(err) && IsTransport(err))
    ensures IsPermanent(Permanent(err)) == err.Some? && Permanent(Permanent(err)) == Permanent(err)
    ensures IsTransport(Transport(err)) == (err.Some? && !IsPermanent(err))
    ensures Transport(Transport(err)) == Transport(err)
    ensures IsPermanent(Transport(err)) == IsPermanent(err)
  {
  }

  /** Marking adds one node in front and keeps the cause; an error that has its class stays as it is. */
  lemma MarkingKeepsCause(e: Error)
    ensures Permanent(None) == None && Transport(None) == None
    ensures var marked := Permanent(Some(e));
      marked.Some? && Nodes(marked.value) == if IsPermanent(Some(e)) then Nodes(e) else [PermanentMark] + Nodes(e)
    ensures var marked := Transport(Some(e));
      && marked.Some?
      && Nodes(marked.value) == if IsPermanent(Some(e)) || IsTransport(Some(e)) then Nodes(e) else [TransportMark] + Nodes(e)
  {
  }

  lemma {:induction false} AnySearches(causes: seq<Error>, matches: Kind -> bool)
    ensures AsAny(causes, matches).Some? <==> exists i :: 0 <= i < |causes| && Has(causes[i], matches)
  {
    if causes != [] {
      var rest := causes[1..];
      AnySearches(rest, matches);
      if Has(causes[0], matches) {
        assert exists i :: i == 0 && Has(causes[i], matches);
      } else {
        assert forall i | 1 <= i < |causes| :: causes[i] == rest[i - 1];
        assert forall i | 0 <= i < |rest| :: rest[i] == causes[i + 1];
      }
    }
  }

  /** A joined error is permanent as soon as one part is. */
  lemma JoinIsPermanent(causes: seq<Error>)
    ensures IsPermanent(Some(Join(causes))) <==> exists i :: 0 <= i < |causes| && IsPermanent(Some(causes[i]))
  {
    AnySearches(causes, PermanentKind);
    assert forall i | 0 <= i < |causes| :: IsPermanent(Some(causes[i])) == Has(causes[i], PermanentKind);
  }

  /** context.DeadlineExceeded anywhere, or the first net.Error says it timed out. */
  predicate IsTimeout(e: Error) {
    Has(e, DeadlineKind)
    || match As(e, NetworkKind) case Some(Network(timeout)) => timeout case Some(_) => true case None => false
  }

  // ---------------------------------------------------------------- retry policies

  datatype Policy =
    | OnError
    | OnStatusCode(codes: seq<int>)
    | OnServerError
    | OnTimeout
    | OnNetworkError
    | AnyOf(parts: seq<Option<Policy>>)    // nil parts are skipped
    | Custom(accept: (DeliveryResult, Option<Error>) -> bool)

  predicate Accepts(p: Policy, result: DeliveryResult, err: Option<Error>) {
    match p
    case OnError => err.Some? && !IsPermanent(err)
    case OnStatusCode(codes) => err.Some? && !IsPermanent(err) && result.statusCode in codes
    case OnServerError => err.Some? && !IsPermanent(err) && 500 <= result.statusCode <= 599
    case OnTimeout => IsTransport(err) && IsTimeout(err.value)
    case OnNetworkError => IsTransport(err) && !IsTimeout(err.value)
    case AnyOf(parts) => exists i :: 0 <= i < |parts| && parts[i].Some? && Accepts(parts[i].value, result, err)
    case Custom(accept) => accept(result, err)
  }

  /** Built from Notifykit's own policies only, however deeply nested. */
  predicate BuiltIn(p: Policy) {
    match p
    case Custom(_) => false
    case AnyOf(parts) => forall i | 0 <= i < |parts| && parts[i].Some? :: BuiltIn(parts[i].value)
    case _ => true
  }

  /** No nesting of built-in policies retries success or a permanent error. */
  lemma {:induction false} BuiltInRejectsPermanent(p: Policy, result: DeliveryResult, err: Option<Error>)
    requires BuiltIn(p) && (err.None? || IsPermanent(err))
    ensures !Accepts(p, result, err)
  {
    match p
    case AnyOf(parts) =>
      forall i | 0 <= i < |parts| && parts[i].Some?
        ensures !Accepts(parts[i].value, result, err)
      {
        BuiltInRejectsPermanent(parts[i].value, result, err);
      }
    case _ =>
  }

  const DEFAULT_POLICY := AnyOf([Some(OnTimeout), Some(OnNetworkError), Some(OnStatusCode([408, 429])), Some(OnServerError)])

  /** The default policy: transport failures, 408, 429 and 500 to 599, never a permanent error. */
  lemma DefaultPolicyMeaning(result: DeliveryResult, err: Option<Error>)
    ensures Accepts(DEFAULT_POLICY, result, err)
        <==> err.Some? && !IsPermanent(err)
             && (IsTransport(err) || result.statusCode in {408, 429} || 500 <= result.statusCode <= 599)
  {
    var parts := DEFAULT_POLICY.parts;
    assert parts[0] == Some(OnTimeout) && parts[1] == Some(OnNetworkError);
    assert parts[2] == Some(OnStatusCode([408, 429])) && parts[3] == Some(OnServerError);
    assert Accepts(DEFAULT_POLICY, result, err)
      <==> Accepts(parts[0].value, result, err) || Accepts(parts[1].value, result, err)
           || Accepts(parts[2].value, result, err) || Accepts(parts[3].value, result, err);
    assert result.statusCode in [408, 429] <==> result.statusCode in {408, 429};
  }

  /** `RetryOnStatusCode` fills its table of codes. */
  method StatusCodeTable(codes: seq<int>) returns (allowed: map<int, ()>)
    ensures forall code :: code in allowed <==> code in codes
  {
    allowed := map[];
    for i := 0 to |codes|
      invariant forall code :: code in allowed <==> code in codes[..i]
    {
      allowed := allowed[codes[i] := ()];
    }
    assert codes[..|codes|] == codes;
  }

  /** The function built by `AnyRetryPolicy`: the first accepting part decides. */
  method EvaluateAny(parts: seq<Option<Policy>>, result: DeliveryResult, err: Option<Error>) returns (retry: bool)
    ensures retry == Accepts(AnyOf(parts), result, err)
  {
    for i := 0 to |parts|
      invariant forall j | 0 <= j < i :: !(parts[j].Some? && Accepts(parts[j].value, result, err))
    {
      if parts[i].Some? && Accepts(parts[i].value, result, err) {
        return true;
      }
    }
    return false;
  }

  /** The function built by `RetryOnStatusCode`: a look into its table. */
  method EvaluateStatusCode(codes: seq<int>, result: DeliveryResult, err: Option<Error>) returns (retry: bool)
    ensures retry == Accepts(OnStatusCode(codes), result, err)
    ensures retry <==> err.Some? && PermanentMark !in Nodes(err.value) && result.statusCode in codes
  {
    var allowed := StatusCodeTable(codes);
    PolicyMeanings(codes, result, err);
    if err.None? || IsPermanent(err) {
      return false;
    }
    retry := result.statusCode in allowed;
  }

  /** Searching finds something iff some node matches. */
  lemma HasNode(e: Error, matches: Kind -> bool)
    ensures Has(e, matches) <==> exists i :: 0 <= i < |Nodes(e)| && matches(Nodes(e)[i])
  {
    AsFindsFirst(e, matches);
    if Has(e, matches) {
      var k := As(e, matches).value;
      var i :| 0 <= i < |Nodes(e)| && Nodes(e)[i] == k && matches(k);
      assert matches(Nodes(e)[i]);
    }
  }

  lemma HasPermanentMark(e: Error)
    ensures Has(e, PermanentKind) <==> PermanentMark in Nodes(e)
  {
    HasNode(e, PermanentKind);
    assert forall i | 0 <= i < |Nodes(e)| :: PermanentKind(Nodes(e)[i]) <==> Nodes(e)[i] == PermanentMark;
  }

  lemma HasTransportMark(e: Error)
    ensures Has(e, TransportKind) <==> TransportMark in Nodes(e)
  {
    HasNode(e, TransportKind);
    assert forall i | 0 <= i < |Nodes(e)| :: TransportKind(Nodes(e)[i]) <==> Nodes(e)[i] == TransportMark;
  }

  /** The first network error among the nodes says that it timed out. */
  ghost predicate FirstNetworkTimedOut(nodes: seq<Kind>) {
    exists i :: 0 <= i < |nodes| && nodes[i] == Network(true) && forall j | 0 <= j < i :: !nodes[j].Network?
  }

  /** An error is a timeout iff a deadline passed or its first network error timed out. */
  lemma TimeoutMeaning(e: Error)
    ensures IsTimeout(e) <==> DeadlineExceeded in Nodes(e) || FirstNetworkTimedOut(Nodes(e))
  {
    HasNode(e, DeadlineKind);
    var nodes := Nodes(e);
    if DeadlineExceeded in nodes {
      return;
    }
    AsFindsFirst(e, NetworkKind);
    assert forall j | 0 <= j < |nodes| :: nodes[j] in nodes;
    assert forall j | 0 <= j < |nodes| :: NetworkKind(nodes[j]) <==> nodes[j].Network?;
    match As(e, NetworkKind)
    case None =>
    case Some(k) =>
      var i :| 0 <= i < |nodes| && nodes[i] == k && NetworkKind(k) && forall j | 0 <= j < i :: !NetworkKind(nodes[j]);
      FirstNetworkIs(nodes, i);
  }

  lemma FirstNetworkIs(nodes: seq<Kind>, i: nat)
    requires i < |nodes| && nodes[i].Network? && forall j | 0 <= j < i :: !nodes[j].Network?
    ensures FirstNetworkTimedOut(nodes) <==> nodes[i].timeout
  {
  }

  /** What each built-in policy accepts, in terms of the nodes of the error. */
  lemma PolicyMeanings(codes: seq<int>, result: DeliveryResult, err: Option<Error>)
    ensures Accepts(OnError, result, err) <==> err.Some? && PermanentMark !in Nodes(err.value)
    ensures Accepts(OnStatusCode(codes), result, err)
        <==> err.Some? && PermanentMark !in Nodes(err.value) && result.statusCode in codes
    ensures Accepts(OnServerError, result, err)
        <==> err.Some? && PermanentMark !in Nodes(err.value) && 500 <= result.statusCode <= 599
    ensures Accepts(OnTimeout, result, err)
        <==> err.Some? && PermanentMark !in Nodes(err.value) && TransportMark in Nodes(err.value)
             && (DeadlineExceeded in Nodes(err.value) || FirstNetworkTimedOut(Nodes(err.value)))
    ensures Accepts(OnNetworkError, result, err)
        <==> err.Some? && PermanentMark !in Nodes(err.value) && TransportMark in Nodes(err.value)
             && !(DeadlineExceeded in Nodes(err.value) || FirstNetworkTimedOut(Nodes(err.value)))
  {
    if err.Some? {
      HasPermanentMark(err.value);
      HasTransportMark(err.value);
      TimeoutMeaning(err.value);
    }
  }

  /** A combination accepts iff some part that is not nil does. */
  lemma AnyMeaning(parts: seq<Option<Policy>>, result: DeliveryResult, err: Option<Error>)
    ensures Accepts(AnyOf(parts), result, err)
        <==> exists p: Policy :: Some(p) in parts && Accepts(p, result, err)
  {
    if Accepts(AnyOf(parts), result, err) {
      var i :| 0 <= i < |parts| && parts[i].Some? && Accepts(parts[i].value, result, err);
      assert Some(parts[i].value) in parts;
    }
  }

  // ---------------------------------------------------------------- SMTP errors

  predicate ProxyKind(k: Kind) { k.Proxy? }

  predicate ReplyKind(k: Kind) { k.Reply? }

  predicate CertificateKind(k: Kind) { k.Certificate? }

  predicate EofKind(k: Kind) { k.Eof? }

  predicate UnexpectedEofKind(k: Kind) { k.UnexpectedEof? }

  predicate CanceledKind(k: Kind) { k.Canceled? }

  /** A lost or interrupted connection. */
  predicate ConnectionKind(k: Kind) {
    NetworkKind(k) || EofKind(k) || UnexpectedEofKind(k) || CanceledKind(k)
  }

  /** A first proxy rejection or SMTP reply that may succeed later, or a lost connection. */
  predicate Transient(e: Error) {
    match As(e, ProxyKind)
    case Some(k) => k.Proxy? && (k.status == 408 || k.status == 429 || k.status >= 500)
    case None =>
      match As(e, ReplyKind)
      case Some(k) => k.Reply? && 400 <= k.code < 500
      case None => !Has(e, CertificateKind) && Has(e, ConnectionKind)
  }

  function ClassifySMTP(err: Option<Error>): Option<Error> {
    if err.None? || IsPermanent(err) then err
    else
      match As(err.value, ProxyKind)
      case Some(k) =>
        if k.Proxy? && (k.status == 408 || k.status == 429 || k.status >= 500) then Transport(err) else Permanent(err)
      case None =>
        match As(err.value, ReplyKind)
        case Some(k) => if k.Reply? && 400 <= k.code < 500 then Transport(err) else Permanent(err)
        case None =>
          if Has(err.value, CertificateKind) then Permanent(err)
          else if Has(err.value, NetworkKind) || Has(err.value, EofKind) || Has(err.value, UnexpectedEofKind)
                  || Has(err.value, DeadlineKind) || Has(err.value, CanceledKind) then Transport(err)
          else Permanent(err)
  }

  /** Searching for any of five kinds finds what one of five searches finds. */
  lemma {:induction false} ConnectionSearches(e: Error)
    ensures Has(e, ConnectionKind)
        <==> Has(e, NetworkKind) || Has(e, EofKind) || Has(e, UnexpectedEofKind) || Has(e, DeadlineKind) || Has(e, CanceledKind)
  {
    match e
    case Leaf(_) =>
    case Wrap(_, cause) => ConnectionSearches(cause);
    case Join(causes) => ConnectionSearchesAny(causes);
  }

  lemma {:induction false} ConnectionSearchesAny(causes: seq<Error>)
    ensures AsAny(causes, ConnectionKind).Some?
        <==> AsAny(causes, NetworkKind).Some? || AsAny(causes, EofKind).Some? || AsAny(causes, UnexpectedEofKind).Some?
             || AsAny(causes, DeadlineKind).Some? || AsAny(causes, CanceledKind).Some?
  {
    if causes != [] {
      ConnectionSearches(causes[0]);
      ConnectionSearchesAny(causes[1..]);
    }
  }

  /**
   Every SMTP failure ends in exactly one class: transport when it is not marked permanent and
   its first proxy status, else its first reply code, else its connection kind says it may pass;
   permanent otherwise.
   */
  lemma ClassifySMTPMeaning(e: Error)
    ensures var r := ClassifySMTP(Some(e));
      IsTransport(r) == (!IsPermanent(Some(e)) && Transient(e)) && IsPermanent(r) == !IsTransport(r)
  {
    ConnectionSearches(e);
    MarksClassify(Some(e));
  }

  /** The search finds the first node that matches. */
  lemma FoundFirst(e: Error, matches: Kind -> bool, i: nat)
    requires i < |Nodes(e)| && matches(Nodes(e)[i]) && forall j | 0 <= j < i :: !matches(Nodes(e)[j])
    ensures As(e, matches) == Some(Nodes(e)[i])
  {
    AsFindsFirst(e, matches);
  }

  lemma FoundNone(e: Error, matches: Kind -> bool)
    requires forall j | 0 <= j < |Nodes(e)| :: !matches(Nodes(e)[j])
    ensures As(e, matches) == None
  {
    AsFindsFirst(e, matches);
  }

  /** Unless marked permanent, a failure with a proxy rejection has the class of the first one. */
  lemma ProxyStatusDecides(e: Error, i: nat)
    requires PermanentMark !in Nodes(e)
    requires i < |Nodes(e)| && Nodes(e)[i].Proxy? && forall j | 0 <= j < i :: !Nodes(e)[j].Proxy?
    ensures var (r, status) := (ClassifySMTP(Some(e)), Nodes(e)[i].status);
      && IsPermanent(r) == !IsTransport(r)
      && (IsTransport(r) <==> status == 408 || status == 429 || status >= 500)
  {
    HasPermanentMark(e);
    ClassifySMTPMeaning(e);
    FoundFirst(e, ProxyKind, i);
  }

  /** Otherwise a failure with an SMTP reply has the class of the first one. */
  lemma ReplyCodeDecides(e: Error, i: nat)
    requires PermanentMark !in Nodes(e) && forall j | 0 <= j < |Nodes(e)| :: !Nodes(e)[j].Proxy?
    requires i < |Nodes(e)| && Nodes(e)[i].Reply? && forall j | 0 <= j < i :: !Nodes(e)[j].Reply?
    ensures var (r, code) := (ClassifySMTP(Some(e)), Nodes(e)[i].code);
      IsPermanent(r) == !IsTransport(r) && (IsTransport(r) <==> 400 <= code < 500)
  {
    HasPermanentMark(e);
    ClassifySMTPMeaning(e);
    FoundNone(e, ProxyKind);
    FoundFirst(e, ReplyKind, i);
  }

  /** Without proxy rejection or SMTP reply, a lost connection is transport unless a certificate was refused. */
  lemma ConnectionDecides(e: Error)
    requires forall k | k in Nodes(e) :: !k.PermanentMark? && !k.Proxy? && !k.Reply?
    ensures var r := ClassifySMTP(Some(e));
      && IsPermanent(r) == !IsTransport(r)
      && (IsTransport(r) <==>
            && Certificate !in Nodes(e)
            && exists k :: k in Nodes(e) && (k.Network? || k.DeadlineExceeded? || k.Eof? || k.UnexpectedEof? || k.Canceled?))
  {
    HasPermanentMark(e);
    ClassifySMTPMeaning(e);
    AsFindsFirst(e, ProxyKind);
    AsFindsFirst(e, ReplyKind);
    HasNode(e, CertificateKind);
    HasNode(e, ConnectionKind);
    var nodes := Nodes(e);
    assert forall i | 0 <= i < |nodes| :: nodes[i] in nodes;
  }

  /** Marked permanent, an error stays as it is. */
  lemma PermanentMarkDecides(e: Error)
    requires PermanentMark in Nodes(e)
    ensures ClassifySMTP(Some(e)) == Some(e) && IsPermanent(Some(e)) && !IsTransport(Some(e))
  {
    HasPermanentMark(e);
  }

  /** Classification does not depend on earlier classification. */
  lemma ClassifySMTPIdempotent(err: Option<Error>)
    ensures ClassifySMTP(ClassifySMTP(err)) == ClassifySMTP(err)
  {
    if err.Some? && !IsPermanent(err) {
      var marked := Wrap(TransportMark, err.value);
      assert As(marked, ProxyKind) == As(err.value, ProxyKind) && As(marked, ReplyKind) == As(err.value, ReplyKind);
      assert Has(marked, CertificateKind) == Has(err.value, CertificateKind);
    }
  }
}
