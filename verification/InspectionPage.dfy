/** Bounded inspection paging: a strict order on row keys, a top-k heap beyond a cursor,
    and pages that enumerate a fixed revision exactly once. */
module InspectionPage {
  import opened FiniteSets
  import opened Options
  import opened Texts

  datatype Key = Key(source: int, target: int, bucket: int, ordinal: int, kind: string,
                     inhibitory: bool, name: string, score: real)

  // ---------- The order ----------

  predicate KeyLess(a: Key, b: Key, activity: bool) {
    if activity && a.score != b.score then a.score > b.score
    else if a.source != b.source then a.source < b.source
    else if a.target != b.target then a.target < b.target
    else if a.inhibitory != b.inhibitory then !a.inhibitory
    else if a.kind != b.kind then TextLess(a.kind, b.kind)
    else if a.bucket != b.bucket then a.bucket < b.bucket
    else if a.ordinal != b.ordinal then a.ordinal < b.ordinal
    else TextLess(a.name, b.name)
  }

  /** Ties are exactly keys equal up to the score, which only activity order reads. */
  predicate SamePlace(a: Key, b: Key, activity: bool) {
    if activity then a == b else a == b.(score := a.score)
  }

  /** A strict total order: irreflexive, transitive, and total up to ties. */
  lemma KeyOrder(a: Key, b: Key, c: Key, activity: bool)
    ensures !KeyLess(a, a, activity)
    ensures KeyLess(a, b, activity) && KeyLess(b, c, activity) ==> KeyLess(a, c, activity)
    ensures KeyLess(a, b, activity) || KeyLess(b, a, activity) <==> !SamePlace(a, b, activity)
  {
    TextOrder(a.kind, b.kind, c.kind);
    TextOrder(a.name, b.name, c.name);
    TextOrder(b.kind, a.kind, c.kind);
    TextOrder(b.name, a.name, c.name);
  }

  // ---------- Key sets in order ----------

  /** Every key that the scan builds: scores are zero outside activity order. */
  predicate Canonical(k: Key, activity: bool) {
    activity || k.score == 0.0
  }

  ghost predicate Comparable(s: set<Key>, activity: bool) {
    forall k | k in s :: Canonical(k, activity)
  }

  lemma Total(a: Key, b: Key, activity: bool)
    requires Canonical(a, activity) && Canonical(b, activity)
    ensures a == b <==> !KeyLess(a, b, activity) && !KeyLess(b, a, activity)
    ensures !(KeyLess(a, b, activity) && KeyLess(b, a, activity))
  {
    KeyOrder(a, b, a, activity);
    KeyOrder(b, a, b, activity);
  }

  ghost predicate IsLeast(m: Key, s: set<Key>, activity: bool) {
    m in s && forall k | k in s && k != m :: KeyLess(m, k, activity)
  }

  lemma {:induction false} HasLeast(s: set<Key>, activity: bool)
    requires s != {} && Comparable(s, activity)
    ensures exists m :: IsLeast(m, s, activity)
    decreases |s|
  {
    hide KeyLess;
    var x := Pick(s);
    var rest := s - {x};
    if rest == {} {
      assert IsLeast(x, s, activity) by {
        forall k | k in s ensures k == x { assert k == x || k in rest; }
      }
    } else {
      HasLeast(rest, activity);
      var m :| IsLeast(m, rest, activity);
      Total(x, m, activity);
      var least := if KeyLess(x, m, activity) then x else m;
      forall k | k in s && k != least ensures KeyLess(least, k, activity) {
        assert k == x || k in rest;
        KeyOrder(x, m, k, activity);
      }
      assert IsLeast(least, s, activity);
    }
  }

  ghost function Least(s: set<Key>, activity: bool): (m: Key)
    requires s != {} && Comparable(s, activity)
    ensures IsLeast(m, s, activity)
  {
    HasLeast(s, activity);
    var m :| IsLeast(m, s, activity);
    m
  }

  /** The keys of s from least to greatest. */
  ghost function Ascending(s: set<Key>, activity: bool): seq<Key>
    requires Comparable(s, activity)
    decreases |s|
  {
    if s == {} then [] else [Least(s, activity)] + Ascending(s - {Least(s, activity)}, activity)
  }

  ghost predicate Sorted(ks: seq<Key>, activity: bool) {
    forall i, j | 0 <= i < j < |ks| :: KeyLess(ks[i], ks[j], activity)
  }

  lemma {:induction false} AscendingListsAll(s: set<Key>, activity: bool)
    requires Comparable(s, activity)
    ensures Sorted(Ascending(s, activity), activity) && |Ascending(s, activity)| == |s|
    ensures forall k :: k in Ascending(s, activity) <==> k in s
    decreases |s|
  {
    hide KeyLess;
    if s != {} {
      var m, all := Least(s, activity), Ascending(s, activity);
      AscendingListsAll(s - {m}, activity);
      forall i, j | 0 <= i < j < |all| ensures KeyLess(all[i], all[j], activity) {
        assert all[1..][j - 1] in s - {m};
        if i > 0 { assert KeyLess(all[1..][i - 1], all[1..][j - 1], activity); }
      }
    }
  }

  /** Sorted listings are unique, so the heap's final order does not depend on arrival order. */
  lemma {:induction false} SortedIsAscending(ks: seq<Key>, s: set<Key>, activity: bool)
    requires Comparable(s, activity) && Sorted(ks, activity) && forall k :: k in ks <==> k in s
    ensures ks == Ascending(s, activity)
    decreases |ks|
  {
    hide KeyLess;
    if ks == [] {
      if s != {} { var k := Pick(s); }
    } else {
      assert ks[0] in ks;
      var m := Least(s, activity);
      if m != ks[0] {
        var j :| 0 <= j < |ks| && ks[j] == m;
        Total(m, ks[0], activity);
      }
      forall k ensures k in ks[1..] <==> k in s - {m} {
        KeyOrder(m, m, m, activity);
        assert k in ks <==> k == ks[0] || k in ks[1..];
      }
      SortedIsAscending(ks[1..], s - {m}, activity);
    }
  }

  // ---------- The bounded heap ----------

  predicate AtLeast(a: Key, b: Key, activity: bool) { !KeyLess(a, b, activity) }

  lemma AtLeastTransitive(a: Key, b: Key, c: Key, activity: bool)
    requires Canonical(a, activity) && Canonical(b, activity) && Canonical(c, activity)
    requires AtLeast(a, b, activity) && AtLeast(b, c, activity)
    ensures AtLeast(a, c, activity)
  {
    hide KeyLess;
    Total(a, b, activity);
    KeyOrder(b, a, c, activity);
  }

  function Parent(i: nat): (p: nat)
    ensures p <= i && (i > 0 ==> p < i)
  {
    if i == 0 then 0 else (i - 1) / 2
  }

  predicate Above(ks: seq<Key>, i: nat, activity: bool)
    requires i < |ks|
  {
    i == 0 || AtLeast(ks[Parent(i)], ks[i], activity)
  }

  /** Parents are at least their children everywhere except into `hole`, around which it still holds. */
  ghost predicate HeapBelow(ks: seq<Key>, hole: nat, activity: bool)
    requires hole < |ks|
  {
    && (forall i: nat | i < |ks| && i != hole :: Above(ks, i, activity))
    && (forall i: nat | i < |ks| && i > 0 && Parent(i) == hole ::
          AtLeast(ks[Parent(hole)], ks[i], activity) || hole == 0)
  }

  /** Parents are at least their children everywhere except out of `hole`. */
  ghost predicate HeapAbove(ks: seq<Key>, hole: nat, activity: bool)
    requires hole < |ks|
  {
    && (forall i: nat | i < |ks| && Parent(i) != hole :: Above(ks, i, activity))
    && (forall i: nat | i < |ks| && i > 0 && Parent(i) == hole ::
          AtLeast(ks[Parent(hole)], ks[i], activity) || hole == 0)
  }

  ghost predicate IsHeap(ks: seq<Key>, activity: bool) {
    forall i: nat | i < |ks| :: Above(ks, i, activity)
  }

  ghost predicate AllCanonical(ks: seq<Key>, activity: bool) {
    forall i | 0 <= i < |ks| :: Canonical(ks[i], activity)
  }

  lemma {:induction false} RootIsGreatest(ks: seq<Key>, i: nat, activity: bool)
    requires IsHeap(ks, activity) && AllCanonical(ks, activity) && i < |ks|
    ensures AtLeast(ks[0], ks[i], activity)
  {
    hide KeyLess;
    if i == 0 {
      KeyOrder(ks[0], ks[0], ks[0], activity);
    } else {
      RootIsGreatest(ks, Parent(i), activity);
      assert Above(ks, i, activity);
      AtLeastTransitive(ks[0], ks[Parent(i)], ks[i], activity);
    }
  }

  function Swapped(ks: seq<Key>, i: nat, j: nat): (r: seq<Key>)
    requires i < |ks| && j < |ks|
    ensures |r| == |ks| && multiset(r) == multiset(ks)
  {
    assert ks == ks[i := ks[i]];
    ks[i := ks[j]][j := ks[i]]
  }

  lemma SwapUp(ks: seq<Key>, j: nat, activity: bool)
    requires 0 < j < |ks| && AllCanonical(ks, activity) && HeapBelow(ks, j, activity)
    requires KeyLess(ks[Parent(j)], ks[j], activity)
    ensures HeapBelow(Swapped(ks, Parent(j), j), Parent(j), activity)
    ensures AllCanonical(Swapped(ks, Parent(j), j), activity)
  {
    hide KeyLess;
    var i, r := Parent(j), Swapped(ks, Parent(j), j);
    Total(ks[i], ks[j], activity);
    forall m: nat | m < |r| && m != i ensures Above(r, m, activity) {
      if m != 0 && Parent(m) == i && m != j {
        assert Above(ks, m, activity);
        KeyOrder(ks[i], ks[j], ks[m], activity);
      } else {
        assert m != j ==> Above(ks, m, activity);
      }
    }
    forall m: nat | m < |r| && m > 0 && Parent(m) == i && i > 0 ensures AtLeast(r[Parent(i)], r[m], activity) {
      assert Above(ks, i, activity);
      if m != j {
        assert Above(ks, m, activity);
        AtLeastTransitive(ks[Parent(i)], ks[i], ks[m], activity);
      }
    }
  }

  lemma SwapDown(ks: seq<Key>, i: nat, j: nat, activity: bool)
    requires i < j < |ks| && Parent(j) == i && AllCanonical(ks, activity) && HeapAbove(ks, i, activity)
    requires KeyLess(ks[i], ks[j], activity)
    requires forall m: nat | m < |ks| && m > 0 && Parent(m) == i :: AtLeast(ks[j], ks[m], activity)
    ensures HeapAbove(Swapped(ks, i, j), j, activity) && AllCanonical(Swapped(ks, i, j), activity)
  {
    hide KeyLess;
    var r := Swapped(ks, i, j);
    Total(ks[i], ks[j], activity);
    forall m: nat | m < |r| && Parent(m) != j ensures Above(r, m, activity) {
      assert Parent(m) != i ==> Above(ks, m, activity);
    }
    forall m: nat | m < |r| && m > 0 && Parent(m) == j ensures AtLeast(r[Parent(j)], r[m], activity) {
      assert Above(ks, m, activity);
    }
  }

  lemma Settled(ks: seq<Key>, i: nat, j: nat, activity: bool)
    requires i < |ks| && j < |ks| && AllCanonical(ks, activity) && HeapAbove(ks, i, activity)
    requires AtLeast(ks[i], ks[j], activity)
    requires forall m: nat | m < |ks| && m > 0 && Parent(m) == i :: AtLeast(ks[j], ks[m], activity)
    ensures IsHeap(ks, activity)
  {
    hide KeyLess;
    forall m: nat | m < |ks| ensures Above(ks, m, activity) {
      if m > 0 && Parent(m) == i {
        AtLeastTransitive(ks[i], ks[j], ks[m], activity);
      }
    }
  }

  lemma Leaf(ks: seq<Key>, i: nat, activity: bool)
    requires i < |ks| <= 2 * i + 1 && HeapAbove(ks, i, activity)
    ensures IsHeap(ks, activity)
  {
    hide KeyLess;
    forall m: nat | m < |ks| ensures Above(ks, m, activity) {
      assert m > 0 ==> Parent(m) != i;
    }
  }

  function GreaterChild(ks: seq<Key>, i: nat, activity: bool): (j: nat)
    requires 2 * i + 1 < |ks|
    ensures i < j < |ks| && Parent(j) == i
  {
    if 2 * i + 2 < |ks| && KeyLess(ks[2 * i + 1], ks[2 * i + 2], activity) then 2 * i + 2 else 2 * i + 1
  }

  lemma GreaterChildLeads(ks: seq<Key>, i: nat, j: nat, activity: bool)
    requires 2 * i + 1 < |ks| && AllCanonical(ks, activity) && j == GreaterChild(ks, i, activity)
    ensures forall m: nat | m < |ks| && m > 0 && Parent(m) == i :: AtLeast(ks[j], ks[m], activity)
  {
    hide KeyLess;
    KeyOrder(ks[j], ks[j], ks[j], activity);
    forall m: nat | m < |ks| && m > 0 && Parent(m) == i ensures AtLeast(ks[j], ks[m], activity) {
      assert m == 2 * i + 1 || m == 2 * i + 2;
      Total(ks[j], ks[m], activity);
    }
  }

  /** The keys strictly after the cursor. */
  ghost function Beyond(s: set<Key>, after: Option<Key>, activity: bool): set<Key> {
    set k | k in s && (after.None? || KeyLess(after.value, k, activity))
  }

  ghost function Smaller(a: nat, b: nat): nat { if a < b then a else b }

  /** `kept` holds the `limit` least keys of `s`, or all of them. */
  ghost predicate LeastOf(kept: set<Key>, s: set<Key>, limit: nat, activity: bool) {
    && kept <= s && |kept| == Smaller(limit, |s|)
    && forall a, b | a in kept && b in s - kept :: KeyLess(a, b, activity)
  }

  lemma BeyondGrows(s: set<Key>, key: Key, after: Option<Key>, activity: bool)
    requires Comparable(s, activity) && key !in s && Canonical(key, activity)
    ensures var passes := after.None? || KeyLess(after.value, key, activity);
            Beyond(s + {key}, after, activity) == Beyond(s, after, activity) + (if passes then {key} else {})
    ensures key !in Beyond(s, after, activity) && Comparable(Beyond(s, after, activity), activity)
    ensures Comparable(s + {key}, activity)
  {
    hide KeyLess;
  }

  lemma KeptWhenRoom(kept: set<Key>, s: set<Key>, limit: nat, key: Key, activity: bool)
    requires LeastOf(kept, s, limit, activity) && |kept| < limit && key !in s
    ensures key !in kept && LeastOf(kept + {key}, s + {key}, limit, activity)
  {
    hide KeyLess;
    SubsetSize(kept, s);
    assert kept == s;
    assert (s + {key}) - (kept + {key}) == {};
  }

  lemma KeptWhenReplaced(kept: set<Key>, s: set<Key>, limit: nat, root: Key, key: Key, activity: bool)
    requires LeastOf(kept, s, limit, activity) && |kept| == limit && key !in s && root in kept
    requires forall a | a in kept && a != root :: KeyLess(a, root, activity)
    requires KeyLess(key, root, activity)
    ensures LeastOf(kept - {root} + {key}, s + {key}, limit, activity)
  {
    hide KeyLess;
    var next := kept - {root} + {key};
    SubsetSize(kept, s);
    forall a, b | a in next && b in s + {key} - next ensures KeyLess(a, b, activity) {
      assert b == root || b in s - kept;
      KeyOrder(a, root, b, activity);
    }
  }

  lemma KeptWhenSkipped(kept: set<Key>, s: set<Key>, limit: nat, root: Key, key: Key, activity: bool)
    requires LeastOf(kept, s, limit, activity) && |kept| == limit && key !in s && root in kept
    requires forall a | a in kept && a != root :: KeyLess(a, root, activity)
    requires KeyLess(root, key, activity)
    ensures LeastOf(kept, s + {key}, limit, activity)
  {
    hide KeyLess;
    SubsetSize(kept, s);
    forall a, b | a in kept && b in s + {key} - kept ensures KeyLess(a, b, activity) {
      KeyOrder(a, root, b, activity);
    }
  }

  lemma SortedJoin(low: seq<Key>, high: seq<Key>, activity: bool)
    requires Sorted(low, activity) && Sorted(high, activity)
    requires forall a, b | a in low && b in high :: KeyLess(a, b, activity)
    ensures Sorted(low + high, activity)
  {
    hide KeyLess;
    var all := low + high;
    forall i, j | 0 <= i < j < |all| ensures KeyLess(all[i], all[j], activity) {
      if i < |low| && |low| <= j { assert all[i] in low && all[j] in high; }
    }
  }

  /** The least keys of a set, sorted, are a prefix of its ascending listing. */
  lemma LeastIsPrefix(kept: set<Key>, s: set<Key>, limit: nat, activity: bool)
    requires Comparable(s, activity) && LeastOf(kept, s, limit, activity)
    ensures |Ascending(s, activity)| == |s| && |kept| <= |s|
    ensures Comparable(kept, activity) && Ascending(kept, activity) == Ascending(s, activity)[..|kept|]
  {
    hide KeyLess;
    var low, high := Ascending(kept, activity), Ascending(s - kept, activity);
    AscendingListsAll(kept, activity);
    AscendingListsAll(s - kept, activity);
    AscendingListsAll(s, activity);
    SubsetSize(kept, s);
    SortedJoin(low, high, activity);
    SortedIsAscending(low + high, s, activity);
  }

  lemma MembersCanonical(ks: seq<Key>, kept: set<Key>, activity: bool)
    requires multiset(ks) == multiset(kept) && Comparable(kept, activity)
    ensures AllCanonical(ks, activity) && |ks| == |kept|
  {
    forall i | 0 <= i < |ks| ensures Canonical(ks[i], activity) {
      assert ks[i] in multiset(ks);
    }
    assert |multiset(ks)| == |multiset(kept)|;
  }

  lemma RootOf(ks: seq<Key>, kept: set<Key>, activity: bool)
    requires multiset(ks) == multiset(kept) && Comparable(kept, activity) && IsHeap(ks, activity) && ks != []
    ensures ks[0] in kept && AllCanonical(ks, activity) && |ks| == |kept|
    ensures forall a | a in kept && a != ks[0] :: KeyLess(a, ks[0], activity)
  {
    hide KeyLess, IsHeap;
    MembersCanonical(ks, kept, activity);
    assert ks[0] in multiset(ks);
    forall a | a in kept && a != ks[0] ensures KeyLess(a, ks[0], activity) {
      assert a in multiset(kept);
      var i :| 0 <= i < |ks| && ks[i] == a;
      RootIsGreatest(ks, i, activity);
      Total(a, ks[0], activity);
    }
  }

  lemma Appended(ks: seq<Key>, kept: set<Key>, key: Key, activity: bool)
    requires multiset(ks) == multiset(kept) && Comparable(kept, activity) && IsHeap(ks, activity)
    requires key !in kept && Canonical(key, activity)
    ensures HeapBelow(ks + [key], |ks|, activity) && AllCanonical(ks + [key], activity)
    ensures multiset(ks + [key]) == multiset(kept + {key})
  {
    hide KeyLess, AtLeast;
    MembersCanonical(ks, kept, activity);
    forall i: nat | i < |ks| ensures Above(ks + [key], i, activity) { assert Above(ks, i, activity); }
  }

  lemma Replaced(ks: seq<Key>, kept: set<Key>, key: Key, activity: bool)
    requires multiset(ks) == multiset(kept) && Comparable(kept, activity) && IsHeap(ks, activity)
    requires ks != [] && key !in kept && Canonical(key, activity)
    ensures HeapAbove(ks[0 := key], 0, activity) && AllCanonical(ks[0 := key], activity)
    ensures multiset(ks[0 := key]) == multiset(kept - {ks[0]} + {key})
  {
    hide KeyLess, AtLeast;
    MembersCanonical(ks, kept, activity);
    assert ks[0] in multiset(ks);
    forall i: nat | i < |ks| && Parent(i) != 0 ensures Above(ks[0 := key], i, activity) {
      assert Above(ks, i, activity);
    }
  }

  class InspectionHeap {
    var keys: seq<Key>
    const activity: bool
    const limit: nat
    var total: nat
    const after: Option<Key>
    ghost var offered: set<Key>
    ghost var kept: set<Key>

    ghost function Candidates(): set<Key>
      reads this
    {
      Beyond(offered, after, activity)
    }

    /** The stored keys are exactly the least keys offered beyond the cursor, greatest at the root. */
    ghost predicate Valid()
      reads this
    {
      && limit > 0 && Comparable(offered, activity) && total == |offered|
      && multiset(keys) == multiset(kept)
      && LeastOf(kept, Candidates(), limit, activity)
      && IsHeap(keys, activity)
    }

    constructor (limit: nat, activity: bool, after: Option<Key>)
      requires limit > 0
      ensures Valid() && offered == {} && keys == []
      ensures this.limit == limit && this.activity == activity && this.after == after
    {
      this.limit, this.activity, this.after := limit, activity, after;
      keys, total, offered, kept := [], 0, {}, {};
    }

    method SiftUp(start: nat)
      requires start < |keys| && AllCanonical(keys, activity) && HeapBelow(keys, start, activity)
      modifies this`keys
      ensures multiset(keys) == old(multiset(keys)) && IsHeap(keys, activity)
    {
      hide KeyLess;
      var j: nat := start;
      while j > 0 && KeyLess(keys[Parent(j)], keys[j], activity)
        invariant j < |keys| && AllCanonical(keys, activity) && HeapBelow(keys, j, activity)
        invariant multiset(keys) == old(multiset(keys))
      {
        SwapUp(keys, j, activity);
        keys := Swapped(keys, Parent(j), j);
        j := Parent(j);
      }
      assert Above(keys, j, activity);
    }

    method SiftDown()
      requires |keys| > 0 && AllCanonical(keys, activity) && HeapAbove(keys, 0, activity)
      modifies this`keys
      ensures multiset(keys) == old(multiset(keys)) && IsHeap(keys, activity)
    {
      hide KeyLess, Swapped, GreaterChild, Parent;
      var i: nat := 0;
      while 2 * i + 1 < |keys|
        invariant i < |keys| && AllCanonical(keys, activity) && HeapAbove(keys, i, activity)
        invariant multiset(keys) == old(multiset(keys))
        decreases |keys| - i
      {
        var j := GreaterChild(keys, i, activity);
        GreaterChildLeads(keys, i, j, activity);
        if AtLeast(keys[i], keys[j], activity) {
          Settled(keys, i, j, activity);
          return;
        }
        SwapDown(keys, i, j, activity);
        keys := Swapped(keys, i, j);
        i := j;
      }
      Leaf(keys, i, activity);
    }

    /** One offered key: counted always, kept only when it is among the least beyond the cursor. */
    method Add(key: Key)
      requires Valid() && key !in offered && Canonical(key, activity)
      modifies this
      ensures Valid() && offered == old(offered) + {key}
    {
      hide KeyLess, IsHeap, HeapBelow, AllCanonical, Beyond, Canonical;
      BeyondGrows(offered, key, after, activity);
      assert Comparable(kept, activity);
      MembersCanonical(keys, kept, activity);
      ghost var before := Candidates();
      total := total + 1;
      offered := offered + {key};
      if after.Some? && !KeyLess(after.value, key, activity) {
        assert Candidates() == before;
        return;
      }
      assert Candidates() == before + {key};
      if |keys| < limit {
        AddWithRoom(key, before);
      } else {
        FullAdd(key, before);
      }
    }

    method AddWithRoom(key: Key, ghost before: set<Key>)
      requires key !in before && |keys| == |kept| < limit && Canonical(key, activity)
      requires Comparable(offered, activity) && total == |offered| && Comparable(before, activity)
      requires multiset(keys) == multiset(kept) && IsHeap(keys, activity)
      requires LeastOf(kept, before, limit, activity) && Candidates() == before + {key}
      modifies this`keys, this`kept
      ensures Valid()
    {
      hide KeyLess, IsHeap, HeapBelow, AllCanonical;
      KeptWhenRoom(kept, before, limit, key, activity);
      Appended(keys, kept, key, activity);
      keys := keys + [key];
      kept := kept + {key};
      SiftUp(|keys| - 1);
    }

    /** The heap is full: the key replaces the root when it precedes it. */
    method FullAdd(key: Key, ghost before: set<Key>)
      requires key !in before && |keys| == limit > 0 && Canonical(key, activity)
      requires Comparable(offered, activity) && total == |offered| && Comparable(before, activity)
      requires multiset(keys) == multiset(kept) && IsHeap(keys, activity)
      requires LeastOf(kept, before, limit, activity) && Candidates() == before + {key}
      modifies this`keys, this`kept
      ensures Valid()
    {
      hide KeyLess, IsHeap, HeapAbove, AllCanonical, Canonical, Beyond;
      RootOf(keys, kept, activity);
      Total(key, keys[0], activity);
      if KeyLess(key, keys[0], activity) {
        KeptWhenReplaced(kept, before, limit, keys[0], key, activity);
        Replaced(keys, kept, key, activity);
        kept := kept - {keys[0]} + {key};
        keys := keys[0 := key];
        SiftDown();
      } else {
        KeptWhenSkipped(kept, before, limit, keys[0], key, activity);
      }
    }

    /** The final sort leaves the first keys of the ascending listing beyond the cursor. */
    method Sort()
      requires Valid()
      modifies this`keys
      ensures Comparable(Candidates(), activity)
      ensures |Ascending(Candidates(), activity)| == |Candidates()|
      ensures keys == Ascending(Candidates(), activity)[..Smaller(limit, |Candidates()|)]
    {
      hide KeyLess, IsHeap;
      LeastIsPrefix(kept, Candidates(), limit, activity);
      keys := SortKeys(keys, kept, activity);
    }
  }

  /** One insertion into an ascending sequence. */
  function Inserted(ks: seq<Key>, key: Key, activity: bool): (r: seq<Key>) {
    if ks == [] || KeyLess(key, ks[0], activity) then [key] + ks
    else [ks[0]] + Inserted(ks[1..], key, activity)
  }

  lemma {:induction false} InsertedIsSorted(ks: seq<Key>, key: Key, activity: bool)
    requires Sorted(ks, activity) && AllCanonical(ks, activity) && key !in ks && Canonical(key, activity)
    ensures Sorted(Inserted(ks, key, activity), activity)
    ensures AllCanonical(Inserted(ks, key, activity), activity)
    ensures forall k :: k in Inserted(ks, key, activity) <==> k in ks || k == key
  {
    hide KeyLess;
    if ks == [] {
    } else if KeyLess(key, ks[0], activity) {
      forall i | 0 <= i < |ks| ensures KeyLess(key, ks[i], activity) {
        if i > 0 { KeyOrder(key, ks[0], ks[i], activity); }
      }
    } else {
      var rest := Inserted(ks[1..], key, activity);
      InsertedIsSorted(ks[1..], key, activity);
      Total(ks[0], key, activity);
      forall j | 0 <= j < |rest| ensures KeyLess(ks[0], rest[j], activity) {
        assert rest[j] in rest;
        assert rest[j] == key || rest[j] in ks[1..];
      }
      assert ks == [ks[0]] + ks[1..];
    }
  }

  /** A sequence with the elements of a set, each once. */
  lemma SetOfDistinct(ks: seq<Key>, s: set<Key>)
    requires multiset(ks) == multiset(s)
    ensures forall k :: k in ks <==> k in s
    ensures forall i, j | 0 <= i < j < |ks| :: ks[i] != ks[j]
  {
    forall k ensures k in ks <==> k in s { assert k in multiset(ks) <==> k in multiset(s); }
    forall j, i | 0 <= j < i < |ks| ensures ks[j] != ks[i] {
      assert ks == ks[..i] + [ks[i]] + ks[i + 1..];
      assert multiset(ks)[ks[i]] == multiset(ks[..i])[ks[i]] + 1 + multiset(ks[i + 1..])[ks[i]];
      assert multiset(s)[ks[i]] <= 1;
      assert ks[j] in ks[..i];
    }
  }

  method SortKeys(ks: seq<Key>, ghost s: set<Key>, activity: bool) returns (sorted: seq<Key>)
    requires Comparable(s, activity) && multiset(ks) == multiset(s)
    ensures sorted == Ascending(s, activity)
  {
    hide KeyLess, Inserted;
    SetOfDistinct(ks, s);
    MembersCanonical(ks, s, activity);
    sorted := [];
    ghost var done: set<Key> := {};
    for i := 0 to |ks|
      invariant Sorted(sorted, activity) && AllCanonical(sorted, activity)
      invariant forall k :: k in sorted <==> k in done
      invariant forall k :: k in done <==> k in s && exists j :: 0 <= j < i && ks[j] == k
    {
      assert ks[i] in ks;
      InsertedIsSorted(sorted, ks[i], activity);
      sorted := Inserted(sorted, ks[i], activity);
      done := done + {ks[i]};
    }
    assert forall k :: k in done <==> k in s by {
      forall k | k in s ensures k in done { assert k in ks; }
    }
    SortedIsAscending(sorted, s, activity);
  }

  // ---------- Pages ----------

  const MAX_LIMIT := 512
  const BUDGET := 512 * 1024 - 16 * 1024

  /** The encoded row of a key, or None when encoding fails or exceeds the budget. */
  type Rows = f: Key -> Option<string> | forall k :: f(k).Some? ==> |f(k).value| <= BUDGET
    witness k => None

  datatype Page = Page(items: seq<string>, next: Option<Key>, total: nat)

  /** The bytes that rows and their separators take from the budget. */
  function Weight(items: seq<string>): (w: nat)
    ensures items == [] ==> w == 0
  {
    if items == [] then 0 else Weight(items[..|items| - 1]) + |items[|items| - 1]| + 1
  }

  ghost predicate Fits(items: seq<string>) {
    forall m | 0 <= m < |items| :: Weight(items[..m]) + |items[m]| <= BUDGET
  }

  lemma FitsGrows(items: seq<string>, row: string)
    requires Fits(items) && Weight(items) + |row| <= BUDGET
    ensures Fits(items + [row]) && Weight(items + [row]) == Weight(items) + |row| + 1
  {
    var more := items + [row];
    assert more[..|items|] == items;
    forall m | 0 <= m < |items| ensures Weight(more[..m]) + |more[m]| <= BUDGET {
      assert more[..m] == items[..m];
    }
  }

  lemma NothingFits()
    ensures Fits([]) && Weight([]) == 0
  {
  }

  ghost predicate RowsOf(items: seq<string>, all: seq<Key>, rows: Rows) {
    |items| <= |all| && forall i | 0 <= i < |items| :: rows(all[i]) == Some(items[i])
  }

  /** What a page over the ascending keys `all` must be: as many leading rows as limit and budget
      allow, and the last returned key as cursor exactly when rows remain. */
  ghost predicate IsPage(p: Page, all: seq<Key>, limit: nat, rows: Rows, tokens: Key -> bool) {
    var n := |p.items|;
    && n <= limit && RowsOf(p.items, all, rows) && Fits(p.items)
    && (n < |all| && n < limit ==> rows(all[n]).Some? && Weight(p.items) + |rows(all[n]).value| > BUDGET)
    && (if n == |all| then p.next == None else n > 0 && p.next == Some(all[n - 1]) && tokens(all[n - 1]))
  }

  lemma FitsAt(items: seq<string>, m: nat)
    requires Fits(items) && m < |items|
    ensures Weight(items[..m]) + |items[m]| <= BUDGET
  {
  }

  lemma SameRows(a: seq<string>, b: seq<string>, all: seq<Key>, rows: Rows)
    requires RowsOf(a, all, rows) && RowsOf(b, all, rows) && |a| <= |b|
    ensures a == b[..|a|]
  {
    forall i | 0 <= i < |a| ensures a[i] == b[i] {
      assert rows(all[i]) == Some(a[i]);
    }
  }

  /** Rows accepted so far are a prefix of the rows of any page. */
  lemma AcceptedIsPrefix(items: seq<string>, p: Page, all: seq<Key>, limit: nat, rows: Rows, tokens: Key -> bool)
    requires |items| <= limit && RowsOf(items, all, rows) && Fits(items) && IsPage(p, all, limit, rows, tokens)
    ensures items <= p.items
    ensures |items| < |p.items| ==> Weight(items) + |p.items[|items|]| <= BUDGET
  {
    hide Weight, Fits;
    if |p.items| < |items| {
      FitsAt(items, |p.items|);
      SameRows(p.items, items, all, rows);
    } else {
      SameRows(items, p.items, all, rows);
      if |items| < |p.items| {
        FitsAt(p.items, |items|);
      }
    }
  }

  lemma UnencodableRow(items: seq<string>, all: seq<Key>, limit: nat, rows: Rows, tokens: Key -> bool)
    requires |items| < limit && RowsOf(items, all, rows) && Fits(items)
    requires |items| < |all| && rows(all[|items|]).None?
    ensures forall p: Page :: !IsPage(p, all, limit, rows, tokens)
  {
    hide Weight, Fits;
    forall p: Page | IsPage(p, all, limit, rows, tokens) ensures false {
      AcceptedIsPrefix(items, p, all, limit, rows, tokens);
    }
  }

  lemma UnencodableCursor(items: seq<string>, all: seq<Key>, limit: nat, rows: Rows, tokens: Key -> bool)
    requires |items| <= limit && RowsOf(items, all, rows) && Fits(items)
    requires 0 < |items| < |all| && !tokens(all[|items| - 1])
    requires |items| < limit ==> rows(all[|items|]).Some? && Weight(items) + |rows(all[|items|]).value| > BUDGET
    ensures forall p: Page :: !IsPage(p, all, limit, rows, tokens)
  {
    hide Weight, Fits;
    forall p: Page | IsPage(p, all, limit, rows, tokens) ensures false {
      AcceptedIsPrefix(items, p, all, limit, rows, tokens);
    }
  }

  lemma PageIsUnique(p: Page, q: Page, all: seq<Key>, limit: nat, rows: Rows, tokens: Key -> bool)
    requires IsPage(p, all, limit, rows, tokens) && IsPage(q, all, limit, rows, tokens)
    ensures p.items == q.items && p.next == q.next
  {
    AcceptedIsPrefix(p.items, q, all, limit, rows, tokens);
    AcceptedIsPrefix(q.items, p, all, limit, rows, tokens);
  }

  /** `arrivals` lists the keys of a scan once each, in whatever order the maps were walked. */
  ghost predicate Lists(arrivals: seq<Key>, all: set<Key>) {
    && (forall k :: k in arrivals <==> k in all)
    && forall i, j | 0 <= i < j < |arrivals| :: arrivals[i] != arrivals[j]
  }

  method Scan(arrivals: seq<Key>, ghost all: set<Key>, activity: bool, limit: nat, after: Option<Key>)
    returns (keys: seq<Key>, total: nat)
    requires Lists(arrivals, all) && Comparable(all, activity) && limit > 0
    ensures Comparable(Beyond(all, after, activity), activity) && total == |all|
    ensures var ordered := Ascending(Beyond(all, after, activity), activity);
            keys == ordered[..Smaller(limit, |ordered|)]
  {
    hide KeyLess, IsHeap;
    var heap := new InspectionHeap(limit, activity, after);
    for i := 0 to |arrivals|
      invariant fresh(heap) && heap.Valid()
      invariant heap.limit == limit && heap.activity == activity && heap.after == after
      invariant forall k :: k in heap.offered <==> exists j :: 0 <= j < i && arrivals[j] == k
    {
      assert arrivals[i] in arrivals;
      heap.Add(arrivals[i]);
    }
    assert heap.offered == all;
    heap.Sort();
    keys, total := heap.keys, heap.total;
  }

  /** One page. It is refused exactly when no page can be: a row in reach has no encoding,
      or the cursor key has none. */
  method ReadPage(arrivals: seq<Key>, ghost all: set<Key>, activity: bool, limit: nat,
                  after: Option<Key>, rows: Rows, tokens: Key -> bool)
    returns (r: Result<Page>)
    requires Lists(arrivals, all) && Comparable(all, activity)
    ensures Comparable(Beyond(all, after, activity), activity)
    ensures !(1 <= limit <= 512) ==> r == Err
    ensures r.Ok? ==> r.value.total == |all| && IsPage(r.value, Ascending(Beyond(all, after, activity), activity), limit, rows, tokens)
    ensures r.Err? && 1 <= limit <= 512 ==>
              forall p: Page :: !IsPage(p, Ascending(Beyond(all, after, activity), activity), limit, rows, tokens)
    ensures r.Err? && 1 <= limit <= 512 ==>
              exists k :: k in Beyond(all, after, activity) && (rows(k).None? || !tokens(k))
  {
    hide KeyLess;
    if limit < 1 || limit > MAX_LIMIT { return Err; }
    var keys, total := Scan(arrivals, all, activity, limit + 1, after);
    r := FillPage(keys, Ascending(Beyond(all, after, activity), activity), total, limit, rows, tokens);
    AscendingListsAll(Beyond(all, after, activity), activity);
  }

  method FillPage(keys: seq<Key>, ghost ordered: seq<Key>, total: nat, limit: nat, rows: Rows, tokens: Key -> bool)
    returns (r: Result<Page>)
    requires 1 <= limit && keys == ordered[..Smaller(limit + 1, |ordered|)]
    ensures r.Ok? ==> r.value.total == total && IsPage(r.value, ordered, limit, rows, tokens)
    ensures r.Err? ==> forall p: Page :: !IsPage(p, ordered, limit, rows, tokens)
    ensures r.Err? ==> exists k :: k in ordered && (rows(k).None? || !tokens(k))
  {
    hide Weight, Fits;
    var items: seq<string> := [];
    NothingFits();
    var budget: int := BUDGET;
    while |items| < |keys| && |items| < limit
      invariant |items| <= limit && RowsOf(items, ordered, rows) && Fits(items) && |items| <= |keys|
      invariant budget == BUDGET - Weight(items)
    {
      var row := rows(keys[|items|]);
      assert keys[|items|] == ordered[|items|] && keys[|items|] in ordered;
      if row.None? {
        UnencodableRow(items, ordered, limit, rows, tokens);
        return Err;
      }
      if |row.value| > budget {
        break;
      }
      FitsGrows(items, row.value);
      items := items + [row.value];
      budget := budget - |row.value| - 1;
    }
    var next := None;
    if |items| < |keys| {
      if |items| == 0 || !tokens(keys[|items| - 1]) {
        UnencodableCursor(items, ordered, limit, rows, tokens);
        return Err;
      }
      next := Some(keys[|items| - 1]);
    }
    r := Ok(Page(items, next, total));
  }

  // ---------- Following the cursor ----------

  /** What lies beyond the n-th key of the listing is the rest of the listing. */
  lemma BeyondIsSuffix(all: set<Key>, n: nat, activity: bool)
    requires Comparable(all, activity) && 0 < n <= |Ascending(all, activity)|
    ensures var beyond := Beyond(all, Some(Ascending(all, activity)[n - 1]), activity);
            Comparable(beyond, activity) && Ascending(beyond, activity) == Ascending(all, activity)[n..]
  {
    hide KeyLess;
    var ordered := Ascending(all, activity);
    AscendingListsAll(all, activity);
    var cursor := ordered[n - 1];
    var beyond := Beyond(all, Some(cursor), activity);
    forall k ensures k in ordered[n..] <==> k in beyond {
      if k in beyond {
        assert k in ordered;
        var i :| 0 <= i < |ordered| && ordered[i] == k;
        Total(cursor, k, activity);
        assert i >= n;
      }
    }
    SortedIsAscending(ordered[n..], beyond, activity);
  }

  /** Following `next` from no cursor over one fixed revision returns every row exactly once, in
      key order, or stops at a key whose row or cursor cannot be encoded. */
  method Enumerate(arrivals: nat -> seq<Key>, ghost all: set<Key>, activity: bool, limit: nat,
                   rows: Rows, tokens: Key -> bool)
    returns (r: Result<seq<string>>)
    requires Comparable(all, activity) && 1 <= limit <= MAX_LIMIT
    requires forall n: nat :: Lists(arrivals(n), all)
    ensures r.Ok? ==> |r.value| == |all| == |Ascending(all, activity)| && RowsOf(r.value, Ascending(all, activity), rows)
    ensures r.Err? ==> exists k :: k in all && (rows(k).None? || !tokens(k))
  {
    hide KeyLess, Fits, Weight, IsPage, AtCursor, Ascending;
    AtStart(all, activity, rows);
    var out: seq<string>, after: Option<Key> := [], None;
    var visits: nat := 0;
    while true
      invariant |out| <= |Ascending(all, activity)| == |all| && AtCursor(out, after, all, activity, rows)
      decreases |all| - |out|
    {
      var page := ReadPage(arrivals(visits), all, activity, limit, after, rows, tokens);
      if page.Err? { return Err; }
      Resume(out, after, page.value, all, activity, limit, rows, tokens);
      out := out + page.value.items;
      if page.value.next.None? { return Ok(out); }
      after := page.value.next;
      visits := visits + 1;
    }
  }

  /** `out` is the first rows of the listing and `after` the cursor behind them. */
  ghost predicate AtCursor(out: seq<string>, after: Option<Key>, all: set<Key>, activity: bool, rows: Rows)
    requires Comparable(all, activity)
  {
    var ordered := Ascending(all, activity);
    && RowsOf(out, ordered, rows)
    && Comparable(Beyond(all, after, activity), activity)
    && Ascending(Beyond(all, after, activity), activity) == ordered[|out|..]
  }

  lemma AtStart(all: set<Key>, activity: bool, rows: Rows)
    requires Comparable(all, activity)
    ensures AtCursor([], None, all, activity, rows) && |Ascending(all, activity)| == |all|
  {
    AscendingListsAll(all, activity);
    assert Beyond(all, None, activity) == all;
  }

  /** A page moves the cursor forward over exactly the rows it returned. */
  lemma Resume(out: seq<string>, after: Option<Key>, page: Page, all: set<Key>, activity: bool,
               limit: nat, rows: Rows, tokens: Key -> bool)
    requires limit > 0 && Comparable(all, activity) && AtCursor(out, after, all, activity, rows)
    requires IsPage(page, Ascending(Beyond(all, after, activity), activity), limit, rows, tokens)
    ensures var ordered := Ascending(all, activity);
            RowsOf(out + page.items, ordered, rows) &&
            if page.next.None? then |out + page.items| == |ordered|
            else page.items != [] && AtCursor(out + page.items, page.next, all, activity, rows)
  {
    hide KeyLess, Fits, Weight, Ascending;
    RowsAppend(out, page.items, Ascending(all, activity), rows);
    if page.next.Some? {
      BeyondIsSuffix(all, |out| + |page.items|, activity);
    }
  }

  lemma RowsAppend(a: seq<string>, b: seq<string>, all: seq<Key>, rows: Rows)
    requires RowsOf(a, all, rows) && RowsOf(b, all[|a|..], rows)
    ensures RowsOf(a + b, all, rows)
  {
    forall i | |a| <= i < |a + b| ensures rows(all[i]) == Some((a + b)[i]) {
      assert rows(all[|a|..][i - |a|]) == Some(b[i - |a|]);
    }
  }

  // ---------- What a listing and a page look like ----------

  /** A listing falls by score when it is ordered by activity. Otherwise, and among equal scores, it rises by
      source, target, excitatory before inhibitory, kind, bucket, place in the bucket and name, in this order. */
  lemma OrderReads(ks: seq<Key>, activity: bool, i: nat, j: nat)
    requires Sorted(ks, activity) && i < j < |ks|
    ensures var a, b := ks[i], ks[j];
            && (activity ==> a.score >= b.score)
            && (!activity || a.score == b.score ==>
                  && a.source <= b.source
                  && (a.source == b.source ==> a.target <= b.target)
                  && (a.source == b.source && a.target == b.target ==>
                        && (a.inhibitory ==> b.inhibitory)
                        && (a.inhibitory == b.inhibitory ==>
                              && (a.kind == b.kind || TextLess(a.kind, b.kind))
                              && (a.kind == b.kind ==>
                                    && a.bucket <= b.bucket
                                    && (a.bucket == b.bucket ==> a.ordinal <= b.ordinal)
                                    && (a.bucket == b.bucket && a.ordinal == b.ordinal ==> TextLess(a.name, b.name))))))
  {
    assert KeyLess(ks[i], ks[j], activity);
  }

  /** The rows of a page as one text, with commas between them. */
  function Joined(items: seq<string>): string {
    if items == [] then "" else if |items| == 1 then items[0] else Joined(items[..|items| - 1]) + "," + items[|items| - 1]
  }

  lemma {:induction false} JoinedLength(items: seq<string>)
    requires items != []
    ensures |Joined(items)| == Weight(items) - 1
  {
    if |items| > 1 {
      JoinedLength(items[..|items| - 1]);
    } else {
      assert items[..0] == [];
    }
  }

  /** A page holds at most 512 KiB less 16 KiB of text, and the first row left out for its size
      would have exceeded that. */
  lemma PageText(items: seq<string>, row: string)
    ensures Fits(items) ==> |Joined(items)| <= 507904
    ensures Weight(items) + |row| > BUDGET <==> |Joined(items + [row])| > 507904
  {
    if items != [] {
      var m := |items| - 1;
      JoinedLength(items);
      assert Fits(items) ==> Weight(items[..m]) + |items[m]| <= BUDGET;
    }
    JoinedLength(items + [row]);
    assert (items + [row])[..|items|] == items;
  }
}
