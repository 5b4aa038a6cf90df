/** The bounded claim-once set of OANDA transaction ids (crates/oanda/src/dedupe.rs):
    a hash set and a FIFO queue, proved to be a sliding window over the log of
    every claim ever made.
 */
module ClaimSet {
  import opened Sequences

  type Id = string

  /** The last `cap` entries of the log, or all of it while it is shorter. */
  function Window(cap: nat, log: seq<Id>): seq<Id> {
    if |log| <= cap then log else log[|log| - cap..]
  }

  /** Whether no id of the claim is in the window. */
  predicate Claimable(cap: nat, log: seq<Id>, ids: seq<Id>) {
    forall id | id in ids :: id !in Window(cap, log)
  }

  /** The log after a successful claim: each id not in the window at its turn is appended. */
  function Extend(cap: nat, log: seq<Id>, ids: seq<Id>): seq<Id>
    decreases ids
  {
    if ids == [] then log
    else if ids[0] in Window(cap, log) then Extend(cap, log, ids[1..])
    else Extend(cap, log + [ids[0]], ids[1..])
  }

  function Contents(s: seq<Id>): set<Id> {
    set id | id in s
  }

  ghost predicate NoDuplicates(s: seq<Id>) {
    forall i, j | 0 <= i < j < |s| :: s[i] != s[j]
  }

  lemma EvictHead(s: seq<Id>)
    requires s != [] && NoDuplicates(s)
    ensures Contents(s[1..]) == Contents(s) - {s[0]}
  {
    forall id | id in s && id != s[0]
      ensures id in s[1..]
    {
      var k :| 0 <= k < |s| && s[k] == id;
      assert s[1..][k - 1] == id;
    }
  }

  /** Two entries of the same id are more than `cap` places apart. */
  ghost predicate Spaced(cap: nat, log: seq<Id>) {
    forall i, j | 0 <= i < j < |log| && log[i] == log[j] :: j - i > cap
  }

  lemma InWindow(cap: nat, log: seq<Id>, id: Id)
    ensures id in Window(cap, log) <==> exists p :: 0 <= p < |log| && |log| - cap <= p && log[p] == id
  {
    var w := Window(cap, log);
    var base := |log| - |w|;
    assert forall k | 0 <= k < |w| :: w[k] == log[base + k];
    if p :| 0 <= p < |log| && |log| - cap <= p && log[p] == id {
      assert w[p - base] == id;
    }
  }

  lemma SpacedAppend(cap: nat, log: seq<Id>, id: Id)
    requires Spaced(cap, log) && id !in Window(cap, log)
    ensures Spaced(cap, log + [id])
  {
    InWindow(cap, log, id);
  }

  lemma SpacedWindow(cap: nat, log: seq<Id>)
    requires Spaced(cap, log)
    ensures NoDuplicates(Window(cap, log)) && NoDuplicates(Window(cap + 1, log))
  {
  }

  lemma {:induction false} ExtendSpaced(cap: nat, log: seq<Id>, ids: seq<Id>)
    requires Spaced(cap, log)
    ensures Spaced(cap, Extend(cap, log, ids))
    decreases ids
  {
    if ids != [] {
      if ids[0] in Window(cap, log) {
        ExtendSpaced(cap, log, ids[1..]);
      } else {
        SpacedAppend(cap, log, ids[0]);
        ExtendSpaced(cap, log + [ids[0]], ids[1..]);
      }
    }
  }

  /** Position `p` of `log` holds `id`, and was added after the first `from` entries. */
  predicate Logged(log: seq<Id>, from: nat, p: nat, id: Id) {
    from <= p < |log| && log[p] == id
  }

  lemma {:induction false} ExtendPrefix(cap: nat, log: seq<Id>, ids: seq<Id>)
    ensures |log| <= |Extend(cap, log, ids)| && Extend(cap, log, ids)[..|log|] == log
    ensures forall p | |log| <= p < |Extend(cap, log, ids)| :: Extend(cap, log, ids)[p] in ids
    decreases ids
  {
    if ids == [] {
    } else if ids[0] in Window(cap, log) {
      ExtendPrefix(cap, log, ids[1..]);
    } else {
      var e := Extend(cap, log + [ids[0]], ids[1..]);
      ExtendPrefix(cap, log + [ids[0]], ids[1..]);
      assert e[..|log|] == e[..|log| + 1][..|log|];
      assert e[|log|] == e[..|log| + 1][|log|] == ids[0];
    }
  }

  lemma {:induction false} ExtendCovers(cap: nat, log: seq<Id>, ids: seq<Id>, id: Id)
    requires id in ids && id !in Window(cap, log)
    ensures exists p: nat :: Logged(Extend(cap, log, ids), |log|, p, id)
    decreases ids
  {
    var e := Extend(cap, log, ids);
    if ids[0] in Window(cap, log) {
      ExtendCovers(cap, log, ids[1..], id);
      var p: nat :| Logged(e, |log|, p, id);
    } else if ids[0] != id {
      StillOutside(cap, log, ids[0], id);
      ExtendCovers(cap, log + [ids[0]], ids[1..], id);
      var p: nat :| Logged(e, |log| + 1, p, id);
      assert Logged(e, |log|, p, id);
    } else {
      ExtendPrefix(cap, log + [id], ids[1..]);
      assert e[..|log| + 1][|log|] == id;
      assert Logged(e, |log|, |log|, id);
    }
  }

  /** A successful claim appends only its own ids, every one of them, and keeps
      equal entries more than `cap` apart. */
  lemma ExtendSound(cap: nat, log: seq<Id>, ids: seq<Id>)
    requires Spaced(cap, log) && Claimable(cap, log, ids)
    ensures log <= Extend(cap, log, ids)
    ensures Spaced(cap, Extend(cap, log, ids))
    ensures forall p | |log| <= p < |Extend(cap, log, ids)| :: Extend(cap, log, ids)[p] in ids
    ensures forall id | id in ids :: exists p: nat :: Logged(Extend(cap, log, ids), |log|, p, id)
  {
    ExtendPrefix(cap, log, ids);
    ExtendSpaced(cap, log, ids);
    forall id | id in ids
      ensures exists p: nat :: Logged(Extend(cap, log, ids), |log|, p, id)
    {
      ExtendCovers(cap, log, ids, id);
    }
  }

  lemma StillOutside(cap: nat, log: seq<Id>, added: Id, id: Id)
    requires id != added && id !in Window(cap, log)
    ensures id !in Window(cap, log + [added])
  {
    InWindow(cap, log, id);
    InWindow(cap, log + [added], id);
  }

  /** The ids of one claim in order, each once. */
  function Once(ids: seq<Id>): seq<Id> {
    if ids == [] then []
    else
      var rest := Once(ids[..|ids| - 1]);
      if ids[|ids| - 1] in rest then rest else rest + [ids[|ids| - 1]]
  }

  lemma {:induction false} ExtendSplit(cap: nat, log: seq<Id>, a: seq<Id>, b: seq<Id>)
    ensures Extend(cap, log, a + b) == Extend(cap, Extend(cap, log, a), b)
    decreases a
  {
    if a == [] {
      assert a + b == b;
    } else {
      assert (a + b)[1..] == a[1..] + b;
      ExtendSplit(cap, if a[0] in Window(cap, log) then log else log + [a[0]], a[1..], b);
    }
  }

  lemma {:induction false} OnceKeeps(ids: seq<Id>, id: Id)
    ensures id in ids <==> id in Once(ids)
    decreases |ids|
  {
    if ids != [] {
      var n := |ids| - 1;
      OnceKeeps(ids[..n], id);
      assert ids == ids[..n] + [ids[n]];
    }
  }

  lemma InSuffix(cap: nat, log: seq<Id>, added: seq<Id>, id: Id)
    requires |added| <= cap
    ensures id in Window(cap, log + added) <==> id in added || id in Window(cap - |added|, log)
  {
    var all := log + added;
    InWindow(cap, all, id);
    InWindow(cap - |added|, log, id);
    if id in added {
      var k :| 0 <= k < |added| && added[k] == id;
      assert all[|log| + k] == id;
    }
    if p :| 0 <= p < |log| && |log| - (cap - |added|) <= p && log[p] == id {
      assert all[p] == id;
    }
  }

  lemma {:induction false} ExtendOnce(cap: nat, log: seq<Id>, ids: seq<Id>)
    requires Claimable(cap, log, ids) && |Once(ids)| <= cap
    ensures Extend(cap, log, ids) == log + Once(ids)
    decreases |ids|
  {
    if ids == [] {
      assert log + [] == log;
    } else {
      var n := |ids| - 1;
      var init, last := ids[..n], ids[n];
      Snoc(ids);
      assert last in ids;
      assert forall id | id in init :: id in ids;
      ExtendOnce(cap, log, init);
      ExtendSplit(cap, log, init, [last]);
      ExtendByOne(cap, log + Once(init), last);
      OutsideSuffix(cap, log, Once(init), last);
      Assoc(log, Once(init), [last]);
    }
  }

  lemma ExtendByOne(cap: nat, log: seq<Id>, id: Id)
    ensures Extend(cap, log, [id]) == if id in Window(cap, log) then log else log + [id]
  {
    assert [id][1..] == [];
  }

  lemma OutsideSuffix(cap: nat, log: seq<Id>, added: seq<Id>, id: Id)
    requires |added| <= cap && id !in Window(cap, log)
    ensures id in Window(cap, log + added) <==> id in added
  {
    InSuffix(cap, log, added, id);
    InWindow(cap, log, id);
    InWindow(cap - |added|, log, id);
  }

  /** A claim of no more than `cap` distinct ids logs each of them once, in order,
      and leaves every one of them claimed. */
  lemma ClaimWithinCapacity(cap: nat, log: seq<Id>, ids: seq<Id>)
    requires Claimable(cap, log, ids) && |Once(ids)| <= cap
    ensures Extend(cap, log, ids) == log + Once(ids)
    ensures forall id | id in ids :: id in Window(cap, Extend(cap, log, ids))
  {
    ExtendOnce(cap, log, ids);
    forall id | id in ids
      ensures id in Window(cap, log + Once(ids))
    {
      OnceKeeps(ids, id);
      InSuffix(cap, log, Once(ids), id);
    }
  }

  /** An id is claimable again exactly when `cap` further entries were logged after its latest one. */
  lemma ReclaimExact(cap: nat, log: seq<Id>, p: nat)
    requires p < |log| && log[p] !in log[p + 1..]
    ensures Claimable(cap, log, [log[p]]) <==> |log[p + 1..]| >= cap
  {
    InWindow(cap, log, log[p]);
    forall q | p < q < |log|
      ensures log[q] != log[p]
    {
      assert log[p + 1..][q - p - 1] == log[q];
    }
    assert log[p] in [log[p]];
  }

  class PublishedTransactions {
    const capacity: nat
    var seen: set<Id>
    var order: seq<Id>
    ghost var log: seq<Id>  // every id ever claimed, oldest first

    /** The set holds exactly the queue, and the queue is the window over the log. */
    ghost predicate Valid()
      reads this
    {
      && order == Window(capacity, log)
      && seen == Contents(order)
      && Spaced(capacity, log)
    }

    constructor (capacity: nat)
      ensures Valid() && this.capacity == capacity && log == []
    {
      this.capacity := capacity;
      seen, order, log := {}, [], [];
    }

    /** Inserts one id at the back of the queue, evicting the oldest beyond capacity. */
    method Insert(id: Id)
      requires Valid() && id !in seen
      modifies this
      ensures Valid() && log == old(log) + [id]
    {
      seen := seen + {id};
      order := order + [id];
      assert seen == Contents(order);
      SpacedAppend(capacity, log, id);
      log := log + [id];
      if |order| > capacity {
        var evicted := order[0];
        assert order == Window(capacity + 1, log);
        SpacedWindow(capacity, log);
        EvictHead(order);
        order := order[1..];
        seen := seen - {evicted};
      }
    }

    /** Claims all of the ids or none: succeeds exactly when none is in the window,
        and a failed claim changes nothing. */
    method TryClaimAll(ids: seq<Id>) returns (claimed: bool)
      requires Valid()
      modifies this
      ensures Valid()
      ensures claimed <==> Claimable(capacity, old(log), ids)
      ensures claimed <==> forall id | id in ids :: id !in old(seen)
      ensures log == if claimed then Extend(capacity, old(log), ids) else old(log)
      ensures !claimed ==> seen == old(seen) && order == old(order)
    {
      for i := 0 to |ids|
        invariant Claimable(capacity, log, ids[..i])
      {
        if ids[i] in seen {
          assert ids[i] in ids;
          return false;
        }
      }
      assert ids[..|ids|] == ids;
      claimed := true;
      for i := 0 to |ids|
        invariant Valid()
        invariant Extend(capacity, log, ids[i..]) == Extend(capacity, old(log), ids)
      {
        assert ids[i..][1..] == ids[i + 1..];
        if ids[i] !in seen {
          Insert(ids[i]);
        }
      }
    }

    method TryClaim(id: Id) returns (claimed: bool)
      requires Valid()
      modifies this
      ensures Valid()
      ensures claimed <==> id !in Window(capacity, old(log))
      ensures log == if claimed then old(log) + [id] else old(log)
      ensures !claimed ==> seen == old(seen) && order == old(order)
    {
      assert [id][1..] == [];
      assert id in [id];
      claimed := TryClaimAll([id]);
    }
  }
}
