/** Receiver configuration and the routing of a notification to receivers. */
module Routing {
  import opened Wrappers
  import opened Strings
  import opened Retry

  /** A target is known by the name of its type; it may be nil until it is validated. */
  datatype Target = NilTarget | Target(typeName: string)

  /** The fields of a receiver that routing and delivery use. */
  datatype Receiver = Receiver(id: string, name: string, retry: RetryConfig, targets: seq<Target>) {
    /** There is a target and none is nil. */
    ghost predicate HasTargets() {
      targets != [] && NilTarget !in targets
    }
  }

  /** A receiver as the caller configures it: a record behind a reference that may be nil. */
  class Record {
    var value: Receiver

    constructor (value: Receiver)
      ensures this.value == value
    {
      this.value := value;
    }
  }

  /** cmp.Or on strings: the first that is not empty. */
  function Or(a: string, b: string): string {
    if a != "" then a else b
  }

  // ---------------------------------------------------------------- normalising

  /** The receivers a map of records stands for, nil entries included. */
  ghost function Entries(records: map<string, Record?>): map<string, Option<Receiver>>
    reads set k | k in records :: records[k]
  {
    map k | k in records :: if records[k] == null then None else Some(records[k].value)
  }

  function Defaulted(key: string, r: Receiver): Receiver {
    r.(id := Or(r.id, key), name := Or(r.name, key))
  }

  /** What normalising must give: every non-nil entry under its key, with ID and name defaulted to it. */
  ghost function Normalized(entries: map<string, Option<Receiver>>): map<string, Receiver> {
    map k | k in entries && entries[k].Some? :: Defaulted(k, entries[k].value)
  }

  ghost function Values(records: map<string, Record>): map<string, Receiver>
    reads set k | k in records :: records[k]
  {
    map k | k in records :: records[k].value
  }

  /** `normalizeReceivers`: fresh records, so what the caller passed stays as it was. */
  method NormalizeReceivers(receivers: map<string, Record?>) returns (out: map<string, Record>)
    ensures forall k | k in out :: fresh(out[k])
    ensures Values(out) == Normalized(Entries(receivers))
    ensures Entries(receivers) == old(Entries(receivers))
  {
    out := map[];
    var rest := receivers.Keys;
    while rest != {}
      invariant rest <= receivers.Keys
      invariant forall k :: k in out <==> k in receivers && k !in rest && receivers[k] != null
      invariant forall k | k in out :: fresh(out[k])
      invariant forall k | k in out :: out[k].value == Defaulted(k, receivers[k].value)
      decreases |rest|
    {
      var key :| key in rest;
      rest := rest - {key};
      var receiver := receivers[key];
      if receiver == null {
        continue;
      }
      var normalized := new Record(receiver.value);
      normalized.value := normalized.value.(id := Or(receiver.value.id, key));
      normalized.value := normalized.value.(name := Or(receiver.value.name, key));
      out := out[key := normalized];
    }
  }

  ghost function Present(receivers: map<string, Receiver>): map<string, Option<Receiver>> {
    map k | k in receivers :: Some(receivers[k])
  }

  /** Normalising drops exactly the nil entries and keeps retry policy and targets. */
  lemma NormalizingDropsNil(entries: map<string, Option<Receiver>>)
    ensures forall k :: k in Normalized(entries) <==> k in entries && entries[k] != None
    ensures forall k | k in Normalized(entries) ::
              var (before, after) := (entries[k].value, Normalized(entries)[k]);
              && after.retry == before.retry && after.targets == before.targets
              && after.id == (if before.id == "" then k else before.id)
              && after.name == (if before.name == "" then k else before.name)
  {
  }

  /** Normalising twice is normalising once. */
  lemma NormalizingIsIdempotent(entries: map<string, Option<Receiver>>)
    ensures Normalized(Present(Normalized(entries))) == Normalized(entries)
  {
    var once := Normalized(entries);
    var twice := Normalized(Present(once));
    assert forall k :: k in twice <==> k in once;
    forall k | k in once
      ensures twice[k] == once[k]
    {
      assert Defaulted(k, once[k]) == once[k];
    }
  }

  // ---------------------------------------------------------------- validating

  ghost predicate AllHaveTargets(receivers: map<string, Receiver>) {
    forall k | k in receivers :: receivers[k].HasTargets()
  }

  datatype TargetProblem = NoTargets(key: string) | TargetIsNil(key: string)

  /** `validateReceivers`: a receiver without targets or with a nil one, if there is one. */
  method ValidateReceivers(receivers: map<string, Receiver>) returns (bad: Option<TargetProblem>)
    ensures bad == None <==> AllHaveTargets(receivers)
    ensures match bad
            case None => true
            case Some(NoTargets(k)) => k in receivers && receivers[k].targets == []
            case Some(TargetIsNil(k)) => k in receivers && NilTarget in receivers[k].targets
  {
    var rest := receivers.Keys;
    while rest != {}
      invariant rest <= receivers.Keys
      invariant forall k | k in receivers && k !in rest :: receivers[k].HasTargets()
      decreases |rest|
    {
      var key :| key in rest;
      rest := rest - {key};
      var targets := receivers[key].targets;
      if |targets| == 0 {
        return Some(NoTargets(key));
      }
      for i := 0 to |targets|
        invariant NilTarget !in targets[..i]
      {
        if targets[i] == NilTarget {
          return Some(TargetIsNil(key));
        }
      }
      assert targets[..|targets|] == targets;
    }
    bad := None;
  }

  // ---------------------------------------------------------------- resolving

  /** The receivers stored under known keys, in the order of the keys. */
  function Lookup(receivers: map<string, Receiver>, keys: seq<string>): (r: seq<Receiver>)
    requires forall i | 0 <= i < |keys| :: keys[i] in receivers
    ensures |r| == |keys|
  {
    seq(|keys|, i requires 0 <= i < |keys| => receivers[keys[i]])
  }

  function ReceiverID(r: Receiver): string {
    r.id
  }

  /** Where x stands first in ids. */
  function FirstIndex(ids: seq<string>, x: string): (i: nat)
    requires x in ids
    ensures i < |ids| && ids[i] == x
    ensures forall j | 0 <= j < i :: ids[j] != x
  {
    if ids[0] == x then 0 else 1 + FirstIndex(ids[1..], x)
  }

  /**
   What a request for ids must resolve to: exactly the known ids, each once, in the order in which
   they first appear in the request.
   */
  ghost predicate InRequestOrder(receivers: map<string, Receiver>, ids: seq<string>, keys: seq<string>) {
    && (forall x :: x in keys <==> x in ids && x in receivers)
    && Ascending(ids, keys)
  }

  ghost predicate Ascending(ids: seq<string>, keys: seq<string>)
    requires forall x | x in keys :: x in ids
  {
    forall i, j | 0 <= i < j < |keys| :: FirstIndex(ids, keys[i]) < FirstIndex(ids, keys[j])
  }

  /** What a broadcast must resolve to: all receivers in ID order. */
  ghost predicate AllByID(receivers: map<string, Receiver>, keys: seq<string>, out: seq<Receiver>) {
    && Distinct(keys)
    && (forall x :: x in keys <==> x in receivers)
    && multiset(out) == multiset(Lookup(receivers, keys))
    && (forall i, j | 0 <= i < j < |out| :: AtMost(out[i].id, out[j].id))
  }

  /** The receivers under keys, in the order of the request. */
  ghost predicate Requested(receivers: map<string, Receiver>, ids: seq<string>, keys: seq<string>, out: seq<Receiver>) {
    InRequestOrder(receivers, ids, keys) && out == Lookup(receivers, keys)
  }

  /** The receivers a notification that asks for ids is delivered to. */
  ghost predicate Resolution(receivers: map<string, Receiver>, ids: seq<string>, out: seq<Receiver>) {
    if ids == [] then exists keys :: AllByID(receivers, keys, out)
    else exists keys :: Requested(receivers, ids, keys, out)
  }

  /** `resolveReceivers`. */
  method ResolveReceivers(receivers: map<string, Receiver>, ids: seq<string>) returns (out: seq<Receiver>)
    ensures Resolution(receivers, ids, out)
  {
    if |ids| == 0 {
      out := ResolveAll(receivers);
    } else {
      out := ResolveNamed(receivers, ids);
    }
  }

  method ResolveAll(receivers: map<string, Receiver>) returns (out: seq<Receiver>)
    ensures exists keys :: AllByID(receivers, keys, out)
  {
    ghost var keys: seq<string> := [];
    out := [];
    var rest := receivers.Keys;
    while rest != {}
      invariant rest <= receivers.Keys
      invariant Distinct(keys) && forall x :: x in keys <==> x in receivers && x !in rest
      invariant out == Lookup(receivers, keys)
      decreases |rest|
    {
      var key :| key in rest;
      rest := rest - {key};
      out, keys := out + [receivers[key]], keys + [key];
    }
    SortSorts(out, ReceiverID);
    out := Sort(out, ReceiverID);
    assert forall i, j | 0 <= i < j < |out| :: AtMost(ReceiverID(out[i]), ReceiverID(out[j]));
    assert AllByID(receivers, keys, out);
  }

  lemma LookupOneMore(receivers: map<string, Receiver>, keys: seq<string>, id: string)
    requires (forall i | 0 <= i < |keys| :: keys[i] in receivers) && id in receivers
    ensures Lookup(receivers, keys + [id]) == Lookup(receivers, keys) + [receivers[id]]
  {
  }

  method ResolveNamed(receivers: map<string, Receiver>, ids: seq<string>) returns (out: seq<Receiver>)
    ensures exists keys :: Requested(receivers, ids, keys, out)
  {
    ghost var keys: seq<string> := [];
    out := [];
    var seen: map<string, bool> := map[];
    for n := 0 to |ids|
      invariant forall x :: x in seen <==> x in ids[..n]
      invariant forall x | x in seen :: seen[x]
      invariant InRequestOrder(receivers, ids[..n], keys)
      invariant out == Lookup(receivers, keys)
    {
      assert ids[..n + 1] == ids[..n] + [ids[n]];
      NextKeepsOrder(receivers, ids[..n], ids[n], keys);
      if ids[n] in seen && seen[ids[n]] {
        continue;
      }
      seen := seen[ids[n] := true];
      if ids[n] !in receivers {
        continue;
      }
      LookupOneMore(receivers, keys, ids[n]);
      out, keys := out + [receivers[ids[n]]], keys + [ids[n]];
    }
    assert ids[..|ids|] == ids;
    assert Requested(receivers, ids, keys, out);
  }

  ghost predicate IsConfigured(receivers: map<string, Receiver>, r: Receiver) {
    exists k :: k in receivers && receivers[k] == r
  }

  /** Every resolved receiver is one of those configured. */
  lemma ResolvedAreConfigured(receivers: map<string, Receiver>, ids: seq<string>, out: seq<Receiver>)
    requires Resolution(receivers, ids, out)
    ensures forall r | r in out :: IsConfigured(receivers, r)
  {
    forall r | r in out
      ensures IsConfigured(receivers, r)
    {
      if ids == [] {
        var keys :| AllByID(receivers, keys, out);
        assert r in multiset(out);
        ListedIsConfigured(receivers, keys, r);
      } else {
        var keys :| Requested(receivers, ids, keys, out);
        ListedIsConfigured(receivers, keys, r);
      }
    }
  }

  lemma ListedIsConfigured(receivers: map<string, Receiver>, keys: seq<string>, r: Receiver)
    requires (forall x | x in keys :: x in receivers) && r in Lookup(receivers, keys)
    ensures IsConfigured(receivers, r)
  {
    var j :| 0 <= j < |keys| && Lookup(receivers, keys)[j] == r;
    assert keys[j] in keys;
  }

  /** Looking further into the request does not move a first occurrence. */
  lemma FirstIndexIsStable(ids: seq<string>, id: string, x: string)
    requires x in ids
    ensures x in ids + [id] && FirstIndex(ids + [id], x) == FirstIndex(ids, x)
  {
    var i, k := FirstIndex(ids, x), FirstIndex(ids + [id], x);
    assert (ids + [id])[i] == x;
    assert k <= i;
    assert ids[k] == x;
  }

  lemma NewIdStandsLast(ids: seq<string>, id: string)
    requires id !in ids
    ensures FirstIndex(ids + [id], id) == |ids|
  {
    assert (ids + [id])[|ids|] == id;
    assert forall i | 0 <= i < |ids| :: (ids + [id])[i] == ids[i] && ids[i] in ids;
  }

  lemma OldKeysAscend(ids: seq<string>, id: string, keys: seq<string>)
    requires (forall x | x in keys :: x in ids) && Ascending(ids, keys)
    ensures forall x | x in keys :: x in ids + [id] && FirstIndex(ids + [id], x) < |ids|
    ensures Ascending(ids + [id], keys)
  {
    forall x | x in keys
      ensures x in ids + [id] && FirstIndex(ids + [id], x) == FirstIndex(ids, x)
    {
      FirstIndexIsStable(ids, id, x);
    }
  }

  lemma NewKeyAscends(ids: seq<string>, keys: seq<string>, x: string)
    requires (forall k | k in keys :: k in ids) && Ascending(ids, keys) && x in ids
    requires forall k | k in keys :: FirstIndex(ids, k) < FirstIndex(ids, x)
    ensures (forall k | k in keys + [x] :: k in ids) && Ascending(ids, keys + [x])
  {
  }

  /** One more id of the request adds at most itself, at the end. */
  lemma NextKeepsOrder(receivers: map<string, Receiver>, ids: seq<string>, id: string, keys: seq<string>)
    requires InRequestOrder(receivers, ids, keys)
    ensures InRequestOrder(receivers, ids + [id], if id in ids || id !in receivers then keys else keys + [id])
  {
    OldKeysAscend(ids, id, keys);
    if id in ids || id !in receivers {
      return;
    }
    NewIdStandsLast(ids, id);
    NewKeyAscends(ids + [id], keys, id);
  }

  /** The resolution of a request for ids is canonical: it is the only list of receivers in request order. */
  lemma ResolutionIsUnique(receivers: map<string, Receiver>, ids: seq<string>, a: seq<Receiver>, b: seq<Receiver>)
    requires ids != [] && Resolution(receivers, ids, a) && Resolution(receivers, ids, b)
    ensures a == b
  {
    var ka :| Requested(receivers, ids, ka, a);
    var kb :| Requested(receivers, ids, kb, b);
    SameElementsSameOrder(ids, ka, kb);
  }

  lemma {:induction false} SameElementsSameOrder(ids: seq<string>, a: seq<string>, b: seq<string>)
    requires forall x :: x in a <==> x in b
    requires forall x | x in a :: x in ids
    requires Ascending(ids, a) && Ascending(ids, b)
    ensures a == b
    decreases |a|
  {
    SameEmptiness(a, b);
    if a == [] {
      return;
    }
    var m, n := |a| - 1, |b| - 1;
    assert a[m] == b[n] by {
      assert a[m] in b && b[n] in a;
    }
    ButLast(ids, a);
    ButLast(ids, b);
    forall x
      ensures x in a[..m] <==> x in b[..n]
    {
      assert x in a <==> x in b;
    }
    SameElementsSameOrder(ids, a[..m], b[..n]);
    assert a == a[..m] + [a[m]] && b == b[..n] + [b[n]];
  }

  lemma SameEmptiness(a: seq<string>, b: seq<string>)
    requires forall x :: x in a <==> x in b
    ensures a == [] <==> b == []
  {
    if a != [] {
      assert a[0] in b;
    }
    if b != [] {
      assert b[0] in a;
    }
  }

  /** Without its last element an ascending list is ascending and lists just the others. */
  lemma ButLast(ids: seq<string>, a: seq<string>)
    requires a != [] && (forall x | x in a :: x in ids) && Ascending(ids, a)
    ensures forall x :: x in a[..|a| - 1] <==> x in a && x != a[|a| - 1]
    ensures Ascending(ids, a[..|a| - 1])
  {
    var m := |a| - 1;
    assert a == a[..m] + [a[m]];
    forall i | 0 <= i < m
      ensures a[i] != a[m]
    {
      assert FirstIndex(ids, a[i]) < FirstIndex(ids, a[m]);
    }
  }
}
