/** The members of a finite set of integers in ascending order. */
module SortedInts {
  import opened FiniteSets

  ghost predicate Distinct(keys: seq<int>) {
    forall s, t | 0 <= s < |keys| && 0 <= t < |keys| && keys[s] == keys[t] :: s == t
  }

  lemma HasLeast(s: set<int>)
    requires s != {}
    ensures exists m :: m in s && forall k | k in s :: m <= k
    decreases |s|
  {
    var x := Pick(s);
    var rest := s - {x};
    if rest == {} {
      forall k | k in s ensures k == x {
        assert k == x || k in rest;
      }
    } else {
      HasLeast(rest);
      var m :| m in rest && forall k | k in rest :: m <= k;
      var least := if m <= x then m else x;
      assert forall k | k in s :: k == x || k in rest;
      assert least in s && forall k | k in s :: least <= k;
    }
  }

  ghost function Least(s: set<int>): (m: int)
    requires s != {}
    ensures m in s && forall k | k in s :: m <= k
  {
    HasLeast(s);
    var m :| m in s && forall k | k in s :: m <= k;
    m
  }

  ghost function SortedKeys(s: set<int>): (keys: seq<int>)
    ensures Distinct(keys) && forall k :: k in keys <==> k in s
    decreases |s|
  {
    if s == {} then [] else [Least(s)] + SortedKeys(s - {Least(s)})
  }

  lemma ConcatAssociative<T>(a: seq<T>, b: seq<T>, c: seq<T>)
    ensures (a + b) + c == a + (b + c)
  {
  }

  method SortInts(s: set<int>) returns (keys: seq<int>)
    ensures keys == SortedKeys(s)
  {
    var rest := s;
    keys := [];
    while rest != {}
      invariant keys + SortedKeys(rest) == SortedKeys(s)
      decreases |rest|
    {
      HasLeast(rest);
      var m :| m in rest && forall k | k in rest :: m <= k;
      assert m == Least(rest);
      ghost var tail := SortedKeys(rest - {m});
      assert SortedKeys(rest) == [m] + tail;
      ConcatAssociative(keys, [m], tail);
      keys, rest := keys + [m], rest - {m};
    }
  }

  lemma {:induction false} SortedKeysLast(keys: set<int>, m: int)
    requires m in keys && forall k | k in keys :: k <= m
    ensures SortedKeys(keys) == SortedKeys(keys - {m}) + [m]
    decreases |keys|
  {
    hide Distinct;
    var l := Least(keys);
    var front := SortedKeys(keys - {m} - {l});
    if l == m {
      forall k ensures k !in keys - {m} {}
      assert keys - {m} == {} && SortedKeys(keys - {m}) == [];
    } else {
      SortedKeysLast(keys - {l}, m);
      assert keys - {l} - {m} == keys - {m} - {l};
      assert SortedKeys(keys - {l}) == front + [m];
      assert SortedKeys(keys - {m}) == [l] + front by { LeastOf(keys, m); }
      ConcatAssociative([l], front, [m]);
    }
  }

  lemma LeastOf(keys: set<int>, m: int)
    requires m in keys && Least(keys) != m
    ensures Least(keys) in keys - {m} && Least(keys - {m}) == Least(keys)
  {
  }

  ghost predicate Rising(keys: seq<int>) {
    forall i, j | 0 <= i < j < |keys| :: keys[i] < keys[j]
  }

  lemma RisingPrepend(m: int, keys: seq<int>)
    requires Rising(keys) && forall k | k in keys :: m < k
    ensures Rising([m] + keys)
  {
    var all := [m] + keys;
    forall i, j | 0 <= i < j < |all| ensures all[i] < all[j] {
      assert all[j] == keys[j - 1] && keys[j - 1] in keys;
    }
  }

  lemma {:induction false} SortedKeysRise(s: set<int>)
    ensures Rising(SortedKeys(s)) && |SortedKeys(s)| == |s|
    decreases |s|
  {
    hide Distinct, Rising;
    if s == {} {
      assert Rising([]) by { NothingRises(); }
    } else {
      SortedKeysRise(s - {Least(s)});
      RisingPrepend(Least(s), SortedKeys(s - {Least(s)}));
    }
  }

  lemma NothingRises()
    ensures Rising([])
  {
  }

  lemma SameEmptiness<T>(a: seq<T>, b: seq<T>)
    requires forall k :: k in a <==> k in b
    ensures |a| == 0 <==> |b| == 0
  {
    if |a| > 0 { assert a[0] in a && a[0] in b; }
    if |b| > 0 { assert b[0] in b && b[0] in a; }
  }

  lemma {:induction false} RisingIsUnique(a: seq<int>, b: seq<int>)
    requires Rising(a) && Rising(b) && forall k :: k in a <==> k in b
    ensures a == b
    decreases |a|
  {
    SameEmptiness(a, b);
    if |a| > 0 {
      assert a[|a| - 1] in a && a[|a| - 1] in b;
      assert b[|b| - 1] in b && b[|b| - 1] in a;
      var m := a[|a| - 1];
      assert b[|b| - 1] == m;
      var c, d := a[..|a| - 1], b[..|b| - 1];
      assert a == c + [m] && b == d + [m];
      forall k ensures k in c <==> k in d {
        assert k in a <==> k in c || k == m;
        assert k in b <==> k in d || k == m;
      }
      RisingIsUnique(c, d);
    }
  }
}
