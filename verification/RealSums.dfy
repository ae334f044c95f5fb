/** Finite sums of reals. Vectors and matrices are read through the total lookups
    `At` and `At2`, zero outside their bounds, so that summands are plain lambdas. */
module RealSums {
  type Vector = seq<real>
  type Matrix = seq<seq<real>>

  function At(v: Vector, i: int): real {
    if 0 <= i < |v| then v[i] else 0.0
  }

  function At2(m: Matrix, i: int, j: int): real {
    if 0 <= i < |m| then At(m[i], j) else 0.0
  }

  function Max(a: real, b: real): real {
    if a >= b then a else b
  }

  function Abs(a: real): real {
    if a >= 0.0 then a else -a
  }

  function Sum(n: nat, f: int -> real): real {
    if n == 0 then 0.0 else Sum(n - 1, f) + f(n - 1)
  }

  function Dot(n: nat, a: Vector, b: Vector): real {
    Sum(n, i => At(a, i) * At(b, i))
  }

  lemma {:induction false} SumCong(n: nat, f: int -> real, g: int -> real)
    requires forall i | 0 <= i < n :: f(i) == g(i)
    ensures Sum(n, f) == Sum(n, g)
  {
    if n > 0 { SumCong(n - 1, f, g); }
  }

  lemma {:induction false} SumMono(n: nat, f: int -> real, g: int -> real)
    requires forall i | 0 <= i < n :: f(i) <= g(i)
    ensures Sum(n, f) <= Sum(n, g)
  {
    if n > 0 { SumMono(n - 1, f, g); }
  }

  lemma {:induction false} SumZero(n: nat, f: int -> real)
    requires forall i | 0 <= i < n :: f(i) == 0.0
    ensures Sum(n, f) == 0.0
  {
    if n > 0 { SumZero(n - 1, f); }
  }

  lemma {:induction false} SumNonNegative(n: nat, f: int -> real)
    requires forall i | 0 <= i < n :: f(i) >= 0.0
    ensures Sum(n, f) >= 0.0
    ensures forall i | 0 <= i < n :: f(i) <= Sum(n, f)
  {
    if n > 0 { SumNonNegative(n - 1, f); }
  }

  /** h = a*f + b*g, pointwise and therefore in sum. */
  lemma {:induction false} SumLinear(n: nat, a: real, f: int -> real, b: real, g: int -> real, h: int -> real)
    requires forall i | 0 <= i < n :: h(i) == a * f(i) + b * g(i)
    ensures Sum(n, h) == a * Sum(n, f) + b * Sum(n, g)
  {
    if n > 0 {
      SumLinear(n - 1, a, f, b, g, h);
      Distributes(a, Sum(n - 1, f), f(n - 1));
      Distributes(b, Sum(n - 1, g), g(n - 1));
    }
  }

  lemma Distributes(c: real, x: real, y: real)
    ensures c * (x + y) == c * x + c * y
  {
  }

  /** Only index k contributes. */
  lemma {:induction false} SumSingle(n: nat, k: nat, f: int -> real)
    requires forall i | 0 <= i < n && i != k :: f(i) == 0.0
    ensures Sum(n, f) == if k < n then f(k) else 0.0
  {
    if n > 0 { SumSingle(n - 1, k, f); }
  }

  lemma SumScale(n: nat, c: real, f: int -> real, h: int -> real)
    requires forall i | 0 <= i < n :: h(i) == f(i) * c
    ensures Sum(n, h) == Sum(n, f) * c
  {
    SumLinear(n, c, f, 0.0, f, h);
  }

  lemma DotLinear(n: nat, a: real, u: Vector, b: real, v: Vector, w: Vector, z: Vector)
    requires forall i | 0 <= i < n :: At(w, i) == a * At(u, i) + b * At(v, i)
    ensures Dot(n, w, z) == a * Dot(n, u, z) + b * Dot(n, v, z)
    ensures Dot(n, z, w) == a * Dot(n, z, u) + b * Dot(n, z, v)
  {
    var f, g, h := i => At(u, i) * At(z, i), i => At(v, i) * At(z, i), i => At(w, i) * At(z, i);
    forall i | 0 <= i < n ensures h(i) == a * f(i) + b * g(i) {
      CombinationTimes(a, At(u, i), b, At(v, i), At(z, i));
    }
    SumLinear(n, a, f, b, g, h);
    DotSymmetric(n, z, w);
    DotSymmetric(n, z, u);
    DotSymmetric(n, z, v);
  }

  lemma CombinationTimes(a: real, x: real, b: real, y: real, z: real)
    ensures (a * x + b * y) * z == a * (x * z) + b * (y * z)
  {
  }

  lemma DotSymmetric(n: nat, a: Vector, b: Vector)
    ensures Dot(n, a, b) == Dot(n, b, a)
  {
    SumCong(n, i => At(a, i) * At(b, i), i => At(b, i) * At(a, i));
  }

  lemma DotCong(n: nat, x: Vector, u: Vector, v: Vector)
    requires forall i | 0 <= i < n :: At(u, i) == At(v, i)
    ensures Dot(n, x, u) == Dot(n, x, v)
  {
    SumCong(n, i => At(x, i) * At(u, i), i => At(x, i) * At(v, i));
  }

  lemma EmptyDot(u: Vector, v: Vector)
    ensures Dot(0, u, v) == 0.0
  {
  }

  lemma DotSquare(n: nat, a: Vector)
    ensures Dot(n, a, a) >= 0.0
    ensures forall i | 0 <= i < n :: At(a, i) * At(a, i) <= Dot(n, a, a)
  {
    var f := i => At(a, i) * At(a, i);
    SumNonNegative(n, f);
    forall i | 0 <= i < n ensures At(a, i) * At(a, i) <= Dot(n, a, a) {
      assert f(i) <= Sum(n, f);
    }
  }

  lemma DotPositive(n: nat, a: Vector, i: nat)
    requires i < n && At(a, i) != 0.0
    ensures Dot(n, a, a) > 0.0
  {
    DotSquare(n, a);
    AboveSquare(At(a, i), Dot(n, a, a));
  }

  lemma AboveSquare(x: real, q: real)
    requires x != 0.0 && x * x <= q
    ensures q > 0.0
  {
    if q <= 0.0 {
      assert Abs(x) * Abs(x) == x * x;
      ProductAbove(Abs(x), Abs(x), q);
    }
  }

  lemma ProductAbove(x: real, y: real, q: real)
    requires x > 0.0 && y > 0.0 && q <= 0.0
    ensures x * y > q
  {
    assert x * y > 0.0;
  }

  lemma DotZero(n: nat, a: Vector, b: Vector)
    requires forall i | 0 <= i < n :: At(a, i) == 0.0
    ensures Dot(n, a, b) == 0.0 == Dot(n, b, a)
  {
    SumZero(n, i => At(a, i) * At(b, i));
    SumZero(n, i => At(b, i) * At(a, i));
  }
}
