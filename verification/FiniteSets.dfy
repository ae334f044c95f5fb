/** Counting facts about finite sets that several modules share. */
module FiniteSets {
  lemma Pick<T>(s: set<T>) returns (x: T)
    requires s != {}
    ensures x in s
  {
    x :| x in s;
  }

  lemma {:induction false} SubsetSize<T>(a: set<T>, b: set<T>)
    requires a <= b
    ensures |a| <= |b| && (|a| == |b| ==> a == b)
    decreases |a|
  {
    if a != {} {
      var x :| x in a;
      SubsetSize(a - {x}, b - {x});
      assert a == (a - {x}) + {x} && b == (b - {x}) + {x};
    }
  }

  function Image<T, U>(f: T -> U, xs: set<T>): set<U> {
    set x | x in xs :: f(x)
  }

  ghost predicate InjectiveOn<T, U>(f: T -> U, xs: set<T>) {
    forall x, y | x in xs && y in xs && f(x) == f(y) :: x == y
  }

  /** A function never makes a set larger, and keeps its size when injective. */
  lemma {:induction false} ImageSize<T, U>(f: T -> U, xs: set<T>)
    ensures |Image(f, xs)| <= |xs|
    ensures InjectiveOn(f, xs) ==> |Image(f, xs)| == |xs|
    decreases |xs|
  {
    if xs != {} {
      var x :| x in xs;
      ImageSize(f, xs - {x});
      assert Image(f, xs) == Image(f, xs - {x}) + {f(x)};
      if InjectiveOn(f, xs) {
        assert f(x) !in Image(f, xs - {x});
      }
    }
  }

  /** The results of f on the members of xs that satisfy p. */
  ghost function Collected<T, U>(xs: set<T>, p: T -> bool, f: T -> U): set<U> {
    set x | x in xs && p(x) :: f(x)
  }

  lemma CollectedGrows<T, U>(xs: set<T>, x: T, p: T -> bool, f: T -> U)
    ensures Collected(xs + {x}, p, f) == Collected(xs, p, f) + if p(x) then {f(x)} else {}
  {
    forall u ensures u in Collected(xs + {x}, p, f) <==> u in Collected(xs, p, f) || (p(x) && u == f(x)) {}
  }
}
