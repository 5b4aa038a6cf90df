/** The Saxo snapshot store: a recursive JSON merge and the per-subscription
    snapshots it maintains (crates/saxo/src/delta.rs).

    The merge is specified independently by what it leaves at every path of the
    document (`MergeAt`, with `AtDetermines` saying that this fixes the whole
    value); the algebra of coalescing deltas is then proved exactly.
 */
module SnapshotDelta {
  import opened Sequences

  /** A JSON value. Object members are a map, so member order is not modelled. */
  datatype Json =
    | Null
    | Bool(b: bool)
    | Num(n: real)
    | Str(s: string)
    | Arr(items: seq<Json>)
    | Obj(fields: map<string, Json>)

  /** What merging `delta` into `base` leaves: objects merge member by member,
      anything else (null and arrays included) is replaced by the delta. */
  function Merge(base: Json, delta: Json): Json
    decreases delta, 1
  {
    if base.Obj? && delta.Obj? then
      Obj(map k | k in base.fields.Keys + delta.fields.Keys :: MergeMember(base, delta, k))
    else
      delta
  }

  function MergeMember(base: Json, delta: Json, k: string): Json
    requires base.Obj? && delta.Obj?
    requires k in base.fields || k in delta.fields
    decreases delta, 0
  {
    if k !in delta.fields then base.fields[k]
    else if k !in base.fields then delta.fields[k]
    else Merge(base.fields[k], delta.fields[k])
  }

  /** The merge loop: visits the delta's members in some order and updates the base. */
  method DeepMerge(base: Json, delta: Json) returns (merged: Json)
    ensures merged == Merge(base, delta)
    decreases delta
  {
    if !(base.Obj? && delta.Obj?) {
      return delta;
    }
    var fields := base.fields;
    var pending := delta.fields.Keys;
    while pending != {}
      invariant pending <= delta.fields.Keys
      invariant fields.Keys == base.fields.Keys + (delta.fields.Keys - pending)
      invariant forall k | k in fields && k !in pending :: fields[k] == MergeMember(base, delta, k)
      invariant forall k | k in fields && k in pending :: k in base.fields && fields[k] == base.fields[k]
    {
      var key :| key in pending;
      if key in fields {
        var member := DeepMerge(fields[key], delta.fields[key]);
        fields := fields[key := member];
      } else {
        fields := fields[key := delta.fields[key]];
      }
      pending := pending - {key};
    }
    merged := Obj(fields);
  }

  // ----- What a document holds at a path

  type Path = seq<string>

  /** The node a path leads to: nothing, an object, or a value that is not one. */
  datatype Node = Absent | Branch | Leaf(value: Json)

  function At(v: Json, p: Path): Node {
    if p == [] then
      if v.Obj? then Branch else Leaf(v)
    else if v.Obj? && p[0] in v.fields then
      At(v.fields[p[0]], p[1..])
    else
      Absent
  }

  /** Whether some proper prefix of the path already ends at a leaf. */
  predicate Cut(v: Json, p: Path) {
    p != [] && (!v.Obj? || (p[0] in v.fields && Cut(v.fields[p[0]], p[1..])))
  }

  /** The merge, path by path: the delta's node if it has one, nothing below the
      delta's leaves, and the base's node everywhere else. */
  lemma {:induction false} MergeAt(base: Json, delta: Json, p: Path)
    ensures At(Merge(base, delta), p) ==
            if At(delta, p) != Absent then At(delta, p)
            else if Cut(delta, p) then Absent
            else At(base, p)
    decreases p
  {
    if p != [] && base.Obj? && delta.Obj? && p[0] in base.fields && p[0] in delta.fields {
      MergeAt(base.fields[p[0]], delta.fields[p[0]], p[1..]);
    }
  }

  lemma HasMember(v: Json, k: string)
    requires v.Obj?
    ensures At(v, [k]) != Absent <==> k in v.fields
  {
    if k in v.fields {
      assert [k][1..] == [];
      assert At(v.fields[k], []) != Absent;
    }
  }

  /** Two documents with the same node at every path are the same document. */
  lemma {:induction false} AtDetermines(v: Json, w: Json)
    requires forall p :: At(v, p) == At(w, p)
    ensures v == w
    decreases v
  {
    assert At(v, []) == At(w, []);
    if v.Obj? {
      forall k
        ensures k in v.fields <==> k in w.fields
      {
        assert At(v, [k]) == At(w, [k]);
        HasMember(v, k);
        HasMember(w, k);
      }
      forall k | k in v.fields
        ensures v.fields[k] == w.fields[k]
      {
        forall p
          ensures At(v.fields[k], p) == At(w.fields[k], p)
        {
          assert ([k] + p)[1..] == p;
          assert At(v, [k] + p) == At(w, [k] + p);
        }
        AtDetermines(v.fields[k], w.fields[k]);
      }
      assert v.fields == w.fields;
    }
  }

  // ----- Coalescing

  /** The earlier delta holds a non-object at a path where the later one holds an object. */
  predicate ClashAt(d1: Json, d2: Json, p: Path) {
    At(d1, p).Leaf? && At(d2, p).Branch?
  }

  ghost predicate Clash(d1: Json, d2: Json) {
    exists p :: ClashAt(d1, d2, p)
  }

  ghost predicate Coalesces(d1: Json, d2: Json) {
    forall b :: Merge(Merge(b, d1), d2) == Merge(b, Merge(d1, d2))
  }

  lemma ClashBelow(d1: Json, d2: Json, k: string)
    requires d1.Obj? && d2.Obj? && k in d1.fields && k in d2.fields
    requires Clash(d1.fields[k], d2.fields[k])
    ensures Clash(d1, d2)
  {
    var p :| ClashAt(d1.fields[k], d2.fields[k], p);
    assert ([k] + p)[1..] == p;
    assert ClashAt(d1, d2, [k] + p);
  }

  lemma {:induction false} CoalesceWithoutClash(b: Json, d1: Json, d2: Json)
    requires !Clash(d1, d2)
    ensures Merge(Merge(b, d1), d2) == Merge(b, Merge(d1, d2))
    decreases d2
  {
    assert !ClashAt(d1, d2, []);
    if b.Obj? && d1.Obj? && d2.Obj? {
      var b1, d := Merge(b, d1), Merge(d1, d2);
      var left, right := Merge(b1, d2).fields, Merge(b, d).fields;
      forall k | k in left
        ensures left[k] == right[k]
      {
        assert left[k] == MergeMember(b1, d2, k) && right[k] == MergeMember(b, d, k);
        assert k in b1.fields ==> b1.fields[k] == MergeMember(b, d1, k);
        assert k in d.fields ==> d.fields[k] == MergeMember(d1, d2, k);
        if k in b.fields && k in d1.fields && k in d2.fields {
          if Clash(d1.fields[k], d2.fields[k]) {
            ClashBelow(d1, d2, k);
          }
          CoalesceWithoutClash(b.fields[k], d1.fields[k], d2.fields[k]);
        }
      }
      assert left == right;
    }
  }

  lemma LongKeyIsFresh(keys: set<string>) returns (k: string)
    ensures k !in keys
  {
    var longest: nat := 0;
    var rest := keys;
    while rest != {}
      invariant rest <= keys
      invariant forall x | x in keys - rest :: |x| <= longest
    {
      var x :| x in rest;
      if longest < |x| { longest := |x|; }
      rest := rest - {x};
    }
    k := seq(longest + 1, _ => 'x');
    assert k !in keys - rest;
  }

  /** A base that tells the two merge orders apart at the clashing path: it holds
      there an object with a member the later delta's object lacks. */
  lemma {:induction false} ClashSeparates(d1: Json, d2: Json, p: Path) returns (b: Json)
    requires ClashAt(d1, d2, p)
    ensures Merge(Merge(b, d1), d2) != Merge(b, Merge(d1, d2))
    decreases p
  {
    if p == [] {
      var k := LongKeyIsFresh(d2.fields.Keys);
      b := Obj(map[k := Null]);
      assert k in Merge(b, d2).fields;
    } else {
      var k := p[0];
      var inner := ClashSeparates(d1.fields[k], d2.fields[k], p[1..]);
      b := Obj(map[k := inner]);
      assert Merge(Merge(b, d1), d2).fields[k] == Merge(Merge(inner, d1.fields[k]), d2.fields[k]);
      assert Merge(b, Merge(d1, d2)).fields[k] == Merge(inner, Merge(d1.fields[k], d2.fields[k]));
    }
  }

  /** Two deltas may be merged into one ahead of time, for every base, exactly when
      the first never holds a non-object where the second holds an object. */
  lemma CoalescingExact(d1: Json, d2: Json)
    ensures Coalesces(d1, d2) <==> !Clash(d1, d2)
  {
    if Clash(d1, d2) {
      var p :| ClashAt(d1, d2, p);
      var b := ClashSeparates(d1, d2, p);
      assert Merge(Merge(b, d1), d2) != Merge(b, Merge(d1, d2));
    } else {
      forall b
        ensures Merge(Merge(b, d1), d2) == Merge(b, Merge(d1, d2))
      {
        CoalesceWithoutClash(b, d1, d2);
      }
    }
  }

  /** At some path both documents hold objects, and the base's has a member `k` the delta's lacks. */
  predicate ExtraAt(base: Json, delta: Json, p: Path, k: string) {
    At(base, p).Branch? && At(delta, p).Branch? && At(base, p + [k]) != Absent && At(delta, p + [k]) == Absent
  }

  /** A delta overwrites the base completely exactly when every object of the base
      that faces an object of the delta has no members of its own. */
  lemma {:induction false} MergeIsDeltaExact(base: Json, delta: Json)
    ensures Merge(base, delta) == delta <==> !exists p, k :: ExtraAt(base, delta, p, k)
    decreases delta
  {
    if p, k :| ExtraAt(base, delta, p, k) {
      MergeAt(base, delta, p + [k]);
      BranchIsNotCut(delta, p, k);
    } else {
      NoExtraMeansDelta(base, delta);
    }
  }

  lemma {:induction false} BranchIsNotCut(v: Json, p: Path, k: string)
    requires At(v, p).Branch?
    ensures !Cut(v, p + [k])
    decreases p
  {
    if p != [] {
      assert (p + [k])[1..] == p[1..] + [k];
      BranchIsNotCut(v.fields[p[0]], p[1..], k);
    }
  }

  lemma {:induction false} NoExtraMeansDelta(base: Json, delta: Json)
    requires !exists p, k :: ExtraAt(base, delta, p, k)
    ensures Merge(base, delta) == delta
    decreases delta
  {
    if base.Obj? && delta.Obj? {
      forall k | k in base.fields
        ensures k in delta.fields
      {
        assert [] + [k] == [k];
        assert !ExtraAt(base, delta, [], k);
        HasMember(base, k);
        HasMember(delta, k);
      }
      forall k | k in delta.fields && k in base.fields
        ensures Merge(base.fields[k], delta.fields[k]) == delta.fields[k]
      {
        forall p, j
          ensures !ExtraAt(base.fields[k], delta.fields[k], p, j)
        {
          assert ([k] + p)[1..] == p;
          assert ([k] + p + [j])[1..] == p + [j];
          assert !ExtraAt(base, delta, [k] + p, j);
        }
        NoExtraMeansDelta(base.fields[k], delta.fields[k]);
      }
      assert Merge(base, delta).fields == delta.fields;
    }
  }

  /** Applying the same delta twice changes nothing more. */
  lemma MergeIdempotent(base: Json, delta: Json)
    ensures Merge(Merge(base, delta), delta) == Merge(base, delta)
  {
    assert forall p :: !ClashAt(delta, delta, p);
    CoalesceWithoutClash(base, delta, delta);
    assert forall p, k :: !ExtraAt(delta, delta, p, k);
    NoExtraMeansDelta(delta, delta);
  }

  // ----- The store

  /** One call on the store. */
  datatype Op = SetSnapshot(ref: string, snapshot: Json) | ApplyDelta(ref: string, delta: Json) | Remove(ref: string)

  function Step(m: map<string, Json>, op: Op): map<string, Json> {
    match op
    case SetSnapshot(ref, v) => m[ref := v]
    case ApplyDelta(ref, d) => if ref in m then m[ref := Merge(m[ref], d)] else m
    case Remove(ref) => m - {ref}
  }

  function Run(m: map<string, Json>, ops: seq<Op>): map<string, Json>
    decreases ops
  {
    if ops == [] then m else Run(Step(m, ops[0]), ops[1..])
  }

  function Lookup(m: map<string, Json>, ref: string): Option<Json> {
    if ref in m then Some(m[ref]) else None
  }

  /** The calls that name one subscription, in order. */
  function Only(ops: seq<Op>, ref: string): seq<Op> {
    if ops == [] then []
    else if ops[0].ref == ref then [ops[0]] + Only(ops[1..], ref)
    else Only(ops[1..], ref)
  }

  /** Subscriptions do not affect one another, over any run of calls. */
  lemma {:induction false} SubscriptionsIndependent(m: map<string, Json>, n: map<string, Json>, ops: seq<Op>,
                                                   ref: string)
    requires Lookup(m, ref) == Lookup(n, ref)
    ensures Lookup(Run(m, ops), ref) == Lookup(Run(n, Only(ops, ref)), ref)
    decreases ops
  {
    if ops != [] {
      if ops[0].ref == ref {
        var only := Only(ops, ref);
        assert only[1..] == Only(ops[1..], ref);
        SubscriptionsIndependent(Step(m, ops[0]), Step(n, ops[0]), ops[1..], ref);
      } else {
        SubscriptionsIndependent(Step(m, ops[0]), n, ops[1..], ref);
      }
    }
  }

  function Deltas(ref: string, ds: seq<Json>): seq<Op> {
    seq(|ds|, i requires 0 <= i < |ds| => ApplyDelta(ref, ds[i]))
  }

  /** The deltas merged into one, in order. */
  function Coalesced(ds: seq<Json>): Json
    requires ds != []
  {
    if |ds| == 1 then ds[0] else Merge(Coalesced(ds[..|ds| - 1]), ds[|ds| - 1])
  }

  ghost predicate ClashFree(ds: seq<Json>) {
    forall i | 1 <= i < |ds| :: !Clash(Coalesced(ds[..i]), ds[i])
  }

  lemma {:induction false} RunSplit(m: map<string, Json>, a: seq<Op>, b: seq<Op>)
    ensures Run(m, a + b) == Run(Run(m, a), b)
    decreases a
  {
    if a == [] {
      assert a + b == b;
    } else {
      assert (a + b)[1..] == a[1..] + b;
      RunSplit(Step(m, a[0]), a[1..], b);
    }
  }

  /** A run of clash-free deltas ends where one coalesced delta would. */
  lemma {:induction false} DeltaRunCoalesces(m: map<string, Json>, ref: string, ds: seq<Json>)
    requires ref in m && ds != [] && ClashFree(ds)
    ensures Lookup(Run(m, Deltas(ref, ds)), ref) == Some(Merge(m[ref], Coalesced(ds)))
    decreases |ds|
  {
    var n := |ds| - 1;
    var last := [ApplyDelta(ref, ds[n])];
    assert Deltas(ref, ds) == Deltas(ref, ds[..n]) + last;
    RunSplit(m, Deltas(ref, ds[..n]), last);
    var before := Run(m, Deltas(ref, ds[..n]));
    assert Run(before, last) == Step(before, last[0]) by {
      assert last[1..] == [];
    }
    if n > 0 {
      forall i | 1 <= i < n
        ensures !Clash(Coalesced(ds[..n][..i]), ds[..n][i])
      {
        assert ds[..n][..i] == ds[..i];
      }
      DeltaRunCoalesces(m, ref, ds[..n]);
      CoalesceWithoutClash(m[ref], Coalesced(ds[..n]), ds[n]);
    } else {
      assert Deltas(ref, ds[..0]) == [];
    }
  }

  /** A snapshot set makes what its subscription held before irrelevant: whatever ran until then,
      and whatever other subscriptions do, it and the later calls on it decide what is held. */
  lemma SnapshotStartsAnew(m: map<string, Json>, before: seq<Op>, ref: string, v: Json, after: seq<Op>)
    ensures Lookup(Run(m, before + [SetSnapshot(ref, v)] + after), ref)
            == Lookup(Run(map[ref := v], Only(after, ref)), ref)
  {
    var reset := [SetSnapshot(ref, v)];
    RunSplit(m, before + reset, after);
    RunSplit(m, before, reset);
    var held := Run(m, before);
    assert Run(held, reset) == Step(held, reset[0]) by {
      assert reset[1..] == [];
    }
    SubscriptionsIndependent(Step(held, reset[0]), map[ref := v], after, ref);
  }

  /** So clash-free deltas after a snapshot leave it merged with one delta, from any store, with
      the calls of other subscriptions in between. */
  lemma DeltasAfterSnapshot(m: map<string, Json>, before: seq<Op>, ref: string, v: Json, after: seq<Op>, ds: seq<Json>)
    requires Only(after, ref) == Deltas(ref, ds) && ds != [] && ClashFree(ds)
    ensures Lookup(Run(m, before + [SetSnapshot(ref, v)] + after), ref) == Some(Merge(v, Coalesced(ds)))
  {
    SnapshotStartsAnew(m, before, ref, v, after);
    DeltaRunCoalesces(map[ref := v], ref, ds);
  }

  /** A removed subscription holds nothing until its next snapshot, whatever ran before and
      whatever deltas arrive. */
  lemma {:induction false} RemovedHoldsNothing(m: map<string, Json>, before: seq<Op>, ref: string, after: seq<Op>)
    requires forall i | 0 <= i < |after| && after[i].ref == ref :: !after[i].SetSnapshot?
    ensures Lookup(Run(m, before + [Remove(ref)] + after), ref) == None
    decreases |after|
  {
    var ops := before + [Remove(ref)];
    if after == [] {
      RunSplit(m, before, [Remove(ref)]);
      assert ops + after == ops;
      assert Run(Run(m, before), [Remove(ref)]) == Step(Run(m, before), Remove(ref)) by {
        assert [Remove(ref)][1..] == [];
      }
    } else {
      var n := |after| - 1;
      RemovedHoldsNothing(m, before, ref, after[..n]);
      assert ops + after == (ops + after[..n]) + [after[n]];
      RunSplit(m, ops + after[..n], [after[n]]);
      assert [after[n]][1..] == [];
    }
  }

  /** The store itself: the latest snapshot of every subscription. */
  class SnapshotStore {
    var snapshots: map<string, Json>

    constructor ()
      ensures snapshots == map[]
    {
      snapshots := map[];
    }

    method SetSnapshot(ref: string, snapshot: Json)
      modifies this
      ensures snapshots == Step(old(snapshots), Op.SetSnapshot(ref, snapshot))
    {
      snapshots := snapshots[ref := snapshot];
    }

    /** Merges a delta and returns the full state; `None` when there is no snapshot to merge into. */
    method ApplyDelta(ref: string, delta: Json) returns (merged: Option<Json>)
      modifies this
      ensures snapshots == Step(old(snapshots), Op.ApplyDelta(ref, delta))
      ensures merged == Lookup(snapshots, ref)
      ensures merged.None? <==> ref !in old(snapshots)
    {
      if ref !in snapshots {
        return None;
      }
      var full := DeepMerge(snapshots[ref], delta);
      snapshots := snapshots[ref := full];
      merged := Some(full);
    }

    /** Returns whether there was a snapshot to remove. */
    method Remove(ref: string) returns (existed: bool)
      modifies this
      ensures snapshots == Step(old(snapshots), Op.Remove(ref))
      ensures existed <==> ref in old(snapshots)
    {
      existed := ref in snapshots;
      snapshots := snapshots - {ref};
    }
  }
}
