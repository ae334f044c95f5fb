/** Cholesky factorisation and the two triangular solves behind the search surrogate. */
module Cholesky {
  import opened Options
  import opened RealSums

  predicate Square(a: Matrix) {
    forall i | 0 <= i < |a| :: |a[i]| == |a|
  }

  predicate Symmetric(a: Matrix) {
    Square(a) && forall i, j | 0 <= i < |a| && 0 <= j < |a| :: a[i][j] == a[j][i]
  }

  /** The first |l| rows of a lower triangular matrix with positive diagonal. */
  predicate LowerPositive(n: nat, l: Matrix) {
    |l| <= n &&
    forall i | 0 <= i < |l| :: |l[i]| == n && l[i][i] > 0.0 && forall k | i < k < n :: l[i][k] == 0.0
  }

  /** Those rows reproduce the leading block of a. */
  predicate Reproduces(n: nat, l: Matrix, a: Matrix) {
    |l| <= |a| == n && Square(a) && forall i, j | 0 <= j <= i < |l| :: Dot(n, l[i], l[j]) == a[i][j]
  }

  ghost predicate IsFactor(a: Matrix, l: Matrix) {
    |l| == |a| && LowerPositive(|a|, l) && Reproduces(|a|, l, a)
  }

  // ---------- Combinations of rows ----------

  /** The combination of rows with coefficients x: for a factor, its transpose applied to x. */
  function Combined(m: nat, rows: seq<Vector>, x: Vector): (v: Vector)
    ensures |v| == m
  {
    if rows == [] then seq(m, _ => 0.0)
    else
      var front, last, c := Combined(m, rows[..|rows| - 1], x), rows[|rows| - 1], At(x, |rows| - 1);
      seq(m, k requires 0 <= k < m => front[k] + c * At(last, k))
  }

  function Products(m: nat, rows: seq<Vector>, u: Vector): (v: Vector)
    ensures |v| == |rows|
  {
    seq(|rows|, j requires 0 <= j < |rows| => Dot(m, u, rows[j]))
  }

  lemma {:induction false} CombinedDot(m: nat, rows: seq<Vector>, x: Vector, u: Vector)
    ensures Dot(m, u, Combined(m, rows, x)) == Dot(|rows|, x, Products(m, rows, u))
  {
    hide Dot, Products;
    if rows == [] {
      DotZero(m, Combined(m, rows, x), u);
      EmptyDot(x, Products(m, rows, u));
    } else {
      var r := |rows| - 1;
      var front := rows[..r];
      CombinedDot(m, front, x, u);
      DotLinear(m, 1.0, Combined(m, front, x), At(x, r), rows[r], Combined(m, rows, x), u);
      ProductsPrefix(m, rows, x, u);
    }
  }

  lemma ProductsPrefix(m: nat, rows: seq<Vector>, x: Vector, u: Vector)
    requires rows != []
    ensures Dot(|rows|, x, Products(m, rows, u)) ==
            Dot(|rows| - 1, x, Products(m, rows[..|rows| - 1], u)) + At(x, |rows| - 1) * Dot(m, u, rows[|rows| - 1])
  {
    var r, all, front := |rows| - 1, Products(m, rows, u), Products(m, rows[..|rows| - 1], u);
    SumCong(r, j => At(x, j) * At(all, j), j => At(x, j) * At(front, j));
  }

  lemma {:induction false} CombinedEntry(m: nat, rows: seq<Vector>, x: Vector, k: nat)
    requires k < m
    ensures Combined(m, rows, x)[k] == Sum(|rows|, j => At(x, j) * At2(rows, j, k))
  {
    if rows != [] {
      var r := |rows| - 1;
      CombinedEntry(m, rows[..r], x, k);
      SumCong(r, j => At(x, j) * At2(rows[..r], j, k), j => At(x, j) * At2(rows, j, k));
    }
  }

  // ---------- The factorisation ----------

  /** What the guard of a diagonal entry sees: the pivot left after the finished rows. */
  function Pivot(n: nat, row: Vector, target: real): real {
    target - Dot(n, row, row)
  }

  /** Forward substitution so far: products with the first j rows meet their targets,
      entries from j on are still zero. Each new factor row is itself one of these. */
  predicate Substituted(n: nat, l: Matrix, row: Vector, target: Vector, j: nat) {
    LowerPositive(n, l) && j <= |l| && |row| == |target| == n &&
    (forall k | j <= k < n :: row[k] == 0.0) &&
    (forall k | 0 <= k < j :: Dot(n, row, l[k]) == target[k])
  }

  lemma ProductAfter(n: nat, row: Vector, j: nat, x: real, v: Vector, k: nat)
    requires k <= j < n == |row| && forall c | k < c < n :: At(v, c) == 0.0
    ensures Dot(n, row[j := x], v) == if k < j then Dot(n, row, v) else Dot(j, row, v) + x * At(v, j)
  {
    DotTruncated(n, row[j := x], v, k + 1);
    DotTruncated(n, row, v, k + 1);
    SumCong(k, c => At(row[j := x], c) * At(v, c), c => At(row, c) * At(v, c));
  }

  /** Setting entry j leaves earlier products alone and fixes the product with row j. */
  lemma SubstituteStep(n: nat, l: Matrix, row: Vector, target: Vector, j: nat, x: real)
    requires Substituted(n, l, row, target, j) && j < |l|
    requires x == (target[j] - Dot(j, row, l[j])) / l[j][j]
    ensures Substituted(n, l, row[j := x], target, j + 1)
  {
    hide Dot;
    forall k | 0 <= k <= j ensures Dot(n, row[j := x], l[k]) == target[k] {
      ProductAfter(n, row, j, x, l[k], k);
      if k == j {
        assert x * l[j][j] == target[j] - Dot(j, row, l[j]);
      }
    }
  }

  /** Products stop where one factor is zero. */
  lemma {:induction false} DotTruncated(n: nat, u: Vector, v: Vector, k: nat)
    requires k <= n && forall c | k <= c < n :: At(v, c) == 0.0
    ensures Dot(n, u, v) == Dot(k, u, v)
    decreases n
  {
    if k < n {
      DotTruncated(n - 1, u, v, k);
    }
  }

  method Remainder(target: real, u: Vector, v: Vector, j: nat) returns (s: real)
    requires j <= |u| && j <= |v|
    ensures s == target - Dot(j, u, v)
  {
    s := target;
    for k := 0 to j
      invariant s == target - Dot(k, u, v)
    {
      s := s - u[k] * v[k];
    }
  }

  lemma DiagonalStep(n: nat, l: Matrix, row: Vector, a: Matrix, i: nat, x: real)
    requires i < |a| == n && |l| == i && Reproduces(n, l, a) && Substituted(n, l, row, a[i], i)
    requires x > 0.0 && x * x == Pivot(n, row, a[i][i])
    ensures LowerPositive(n, l + [row[i := x]]) && Reproduces(n, l + [row[i := x]], a)
  {
    var row' := row[i := x];
    DotTruncated(n, row', row', i + 1);
    DotTruncated(n, row, row, i);
    SumCong(i, c => At(row', c) * At(row', c), c => At(row, c) * At(row, c));
    forall k | 0 <= k < i ensures Dot(n, row', l[k]) == a[i][k] {
      DotTruncated(n, row', l[k], k + 1);
      DotTruncated(n, row, l[k], k + 1);
      SumCong(k + 1, c => At(row', c) * At(l[k], c), c => At(row, c) * At(l[k], c));
    }
  }

  // ---------- Success means positive definite ----------

  function Apply(a: Matrix, x: Vector): (v: Vector)
    ensures |v| == |a|
  {
    seq(|a|, i requires 0 <= i < |a| => Dot(|a|, a[i], x))
  }

  function Quadratic(a: Matrix, x: Vector): real {
    Dot(|a|, x, Apply(a, x))
  }

  ghost predicate PositiveDefinite(a: Matrix) {
    forall x | |x| == |a| && (exists i :: 0 <= i < |x| && x[i] != 0.0) :: Quadratic(a, x) > 0.0
  }

  /** A x is L applied to L^T x. */
  lemma FactorApplies(a: Matrix, l: Matrix, x: Vector, i: nat)
    requires Symmetric(a) && IsFactor(a, l) && i < |a|
    ensures Dot(|a|, a[i], x) == Dot(|a|, l[i], Combined(|a|, l, x))
  {
    hide Dot, Combined;
    var n := |a|;
    CombinedDot(n, l, x, l[i]);
    forall j | 0 <= j < n ensures At(Products(n, l, l[i]), j) == At(a[i], j) {
      DotSymmetric(n, l[i], l[j]);
      assert if j <= i then Dot(n, l[i], l[j]) == a[i][j] else Dot(n, l[j], l[i]) == a[j][i];
    }
    DotSymmetric(n, a[i], x);
    DotCong(n, x, Products(n, l, l[i]), a[i]);
  }

  lemma FactorSize(a: Matrix, l: Matrix)
    requires IsFactor(a, l)
    ensures |l| == |a|
  {
  }

  lemma QuadraticIsSquare(a: Matrix, l: Matrix, x: Vector)
    requires Symmetric(a) && IsFactor(a, l)
    ensures var y := Combined(|a|, l, x); Quadratic(a, x) == Dot(|a|, y, y)
  {
    hide Dot, Combined, IsFactor;
    var n, y := |a|, Combined(|a|, l, x);
    assert |l| == n by { FactorSize(a, l); }
    CombinedDot(n, l, x, y);
    forall i | 0 <= i < n ensures At(Products(n, l, y), i) == At(Apply(a, x), i) {
      FactorApplies(a, l, x, i);
      DotSymmetric(n, l[i], y);
    }
    DotCong(n, x, Products(n, l, y), Apply(a, x));
  }

  /** The last nonzero entry of x survives in L^T x. */
  lemma TransposeKeepsNonzero(n: nat, l: Matrix, x: Vector, i: nat)
    requires |l| == n && LowerPositive(n, l) && i < n && At(x, i) != 0.0
    requires forall j | i < j < n :: At(x, j) == 0.0
    ensures At(Combined(n, l, x), i) != 0.0
  {
    CombinedEntry(n, l, x, i);
    SumSingle(n, i, j => At(x, j) * At2(l, j, i));
    NonzeroProduct(At(x, i), l[i][i]);
  }

  lemma NonzeroProduct(a: real, b: real)
    requires a != 0.0 && b > 0.0
    ensures a * b != 0.0
  {
    if a > 0.0 { assert a * b > 0.0; } else { assert (-a) * b > 0.0; }
  }

  lemma FactorIsDefinite(a: Matrix, l: Matrix)
    requires Symmetric(a) && IsFactor(a, l)
    ensures PositiveDefinite(a)
  {
    forall x | |x| == |a| && (exists i :: 0 <= i < |x| && x[i] != 0.0) ensures Quadratic(a, x) > 0.0 {
      var i: nat :| i < |x| && x[i] != 0.0;
      var last := LastNonzero(x, i);
      TransposeKeepsNonzero(|a|, l, x, last);
      DotPositive(|a|, Combined(|a|, l, x), last);
      QuadraticIsSquare(a, l, x);
    }
  }

  lemma {:induction false} LastNonzero(x: Vector, i: nat) returns (last: nat)
    requires i < |x| && x[i] != 0.0
    ensures last < |x| && x[last] != 0.0 && forall j | last < j < |x| :: x[j] == 0.0
    decreases |x| - i
  {
    if j: nat :| i < j < |x| && x[j] != 0.0 {
      last := LastNonzero(x, j);
    } else {
      last := i;
    }
  }

  // ---------- A failed pivot means not positive definite ----------

  lemma {:induction false} CombinedCong(m: nat, rows: seq<Vector>, x: Vector, y: Vector)
    requires forall j | 0 <= j < |rows| :: At(x, j) == At(y, j)
    ensures Combined(m, rows, x) == Combined(m, rows, y)
  {
    if rows != [] {
      CombinedCong(m, rows[..|rows| - 1], x, y);
    }
  }

  lemma CombinedExtend(m: nat, rows: seq<Vector>, last: Vector, z: Vector, x: Vector)
    requires |z| == |rows| && forall j | 0 <= j < |rows| :: At(x, j) == z[j]
    ensures forall k | 0 <= k < m ::
              Combined(m, rows + [last], x)[k] == Combined(m, rows, z)[k] + At(x, |rows|) * At(last, k)
  {
    assert (rows + [last])[..|rows|] == rows;
    CombinedCong(m, rows, x, z);
  }

  /** A factor's rows combine to every vector supported on their columns. */
  lemma {:induction false} BackSubstitutes(n: nat, l: Matrix, v: Vector) returns (z: Vector)
    requires LowerPositive(n, l) && |v| == n && forall k | |l| <= k < n :: v[k] == 0.0
    ensures |z| == |l| && Combined(n, l, z) == v
    decreases |l|
  {
    if l == [] {
      return [];
    }
    var r := |l| - 1;
    var c := v[r] / l[r][r];
    var v' := seq(n, k requires 0 <= k < n => v[k] - c * l[r][k]);
    assert v'[r] == 0.0;
    var front := BackSubstitutes(n, l[..r], v');
    z := front + [c];
    assert l[..r] + [l[r]] == l;
    CombinedExtend(n, l[..r], l[r], front, z);
    forall k | 0 <= k < n ensures Combined(n, l, z)[k] == v[k] {
      assert At(l[r], k) == l[r][k];
    }
  }

  function Unit(n: nat, i: nat): Vector {
    seq(n, k => if k == i then 1.0 else 0.0)
  }

  /** Row j of the stuck block: products of rows, plus the failed pivot in the corner. */
  lemma StuckEntries(a: Matrix, l: Matrix, row: Vector, i: nat, j: nat, c: real)
    requires Symmetric(a) && i < |a| && |l| == i && Reproduces(|a|, l, a) && Substituted(|a|, l, row, a[i], i)
    requires j <= i && c == if j == i then Pivot(|a|, row, a[i][i]) else 0.0
    ensures var n, rows := |a|, l + [row];
            forall k | 0 <= k <= i :: At(a[j], k) == 1.0 * At(Products(n, rows, rows[j]), k) + c * At(Unit(n, i), k)
  {
    hide Dot, Pivot;
    var n, rows := |a|, l + [row];
    forall k | 0 <= k <= i ensures At(a[j], k) == 1.0 * At(Products(n, rows, rows[j]), k) + c * At(Unit(n, i), k) {
      StuckEntry(a, l, row, i, j, k);
    }
  }

  lemma StuckRow(a: Matrix, l: Matrix, row: Vector, i: nat, j: nat, x: Vector)
    requires Symmetric(a) && i < |a| && |l| == i && Reproduces(|a|, l, a) && Substituted(|a|, l, row, a[i], i)
    requires j <= i && StuckDirection(|a|, l + [row], i, x)
    ensures Dot(|a|, a[j], x) == if j == i then Pivot(|a|, row, a[i][i]) else 0.0
  {
    var n, rows := |a|, l + [row];
    var c := if j == i then Pivot(n, row, a[i][i]) else 0.0;
    hide Combined, Dot, Products, Pivot, Symmetric, Reproduces, Substituted;
    StuckEntries(a, l, row, i, j, c);
    DotTruncated(n, a[j], x, i + 1);
    DotLinear(i + 1, 1.0, Products(n, rows, rows[j]), c, Unit(n, i), a[j], x);
    CombinedDot(n, rows, x, rows[j]);
    DotZero(n, Combined(n, rows, x), rows[j]);
    DotSymmetric(i + 1, x, Products(n, rows, rows[j]));
    UnitDot(i + 1, i, Unit(n, i), x);
  }

  /** A direction that the stuck rows cannot see. */
  predicate StuckDirection(n: nat, rows: seq<Vector>, i: nat, x: Vector) {
    |x| == n && i < n && x[i] == 1.0 && (forall k | i < k < n :: x[k] == 0.0) &&
    forall k | 0 <= k < n :: Combined(n, rows, x)[k] == 0.0
  }

  lemma UnitDot(m: nat, i: nat, e: Vector, x: Vector)
    requires i < m && forall k | 0 <= k < m :: At(e, k) == if k == i then 1.0 else 0.0
    ensures Dot(m, e, x) == At(x, i)
  {
    SumSingle(m, i, k => At(e, k) * At(x, k));
  }

  lemma StuckEntry(a: Matrix, l: Matrix, row: Vector, i: nat, j: nat, k: nat)
    requires Symmetric(a) && i < |a| && |l| == i && Reproduces(|a|, l, a) && Substituted(|a|, l, row, a[i], i)
    requires j <= i && k <= i
    ensures var rows := l + [row];
            a[j][k] == Dot(|a|, rows[j], rows[k]) + if j == i && k == i then Pivot(|a|, row, a[i][i]) else 0.0
  {
    hide Dot;
    var n, rows := |a|, l + [row];
    DotSymmetric(n, rows[j], rows[k]);
    if j < i && k < i {
      assert if k <= j then Dot(n, l[j], l[k]) == a[j][k] else Dot(n, l[k], l[j]) == a[k][j];
    }
  }

  lemma FindStuckDirection(n: nat, l: Matrix, row: Vector, i: nat) returns (x: Vector)
    requires i < n && |l| == i && LowerPositive(n, l) && |row| == n && forall k | i <= k < n :: row[k] == 0.0
    ensures StuckDirection(n, l + [row], i, x)
  {
    var z := BackSubstitutes(n, l, seq(n, k requires 0 <= k < n => -row[k]));
    x := z + [1.0] + seq(n - i - 1, _ => 0.0);
    CombinedExtend(n, l, row, z, x);
  }

  lemma StuckIsNotDefinite(a: Matrix, l: Matrix, row: Vector, i: nat)
    requires Symmetric(a) && i < |a| && |l| == i && Reproduces(|a|, l, a) && Substituted(|a|, l, row, a[i], i)
    requires Pivot(|a|, row, a[i][i]) <= 0.0
    ensures !PositiveDefinite(a)
  {
    var n, s := |a|, Pivot(|a|, row, a[i][i]);
    var x := FindStuckDirection(n, l, row, i);
    hide Dot, Pivot, Symmetric, Reproduces, Substituted, Combined;
    forall j | 0 <= j <= i ensures At(Apply(a, x), j) == if j == i then s else 0.0 {
      StuckRow(a, l, row, i, j, x);
    }
    QuadraticSingle(a, x, i);
    assert x[i] != 0.0;
  }

  lemma QuadraticSingle(a: Matrix, x: Vector, i: nat)
    requires i < |a| && forall j | 0 <= j < |a| && j != i :: At(x, j) == 0.0 || At(Apply(a, x), j) == 0.0
    ensures Quadratic(a, x) == At(x, i) * At(Apply(a, x), i)
  {
    hide Apply;
    SumSingle(|a|, i, j => At(x, j) * At(Apply(a, x), j));
  }

  method Factor(sqrt: real -> real, a: Matrix) returns (r: Result<Matrix>)
    requires Square(a)
    requires forall s | s > 0.0 :: sqrt(s) > 0.0 && sqrt(s) * sqrt(s) == s
    ensures r.Ok? ==> IsFactor(a, r.value)
    ensures Symmetric(a) ==> (r.Ok? <==> PositiveDefinite(a))
  {
    var n := |a|;
    var l: Matrix := [];
    for i := 0 to n
      invariant |l| == i && LowerPositive(n, l) && Reproduces(n, l, a)
    {
      var row := seq(n, _ => 0.0);
      for j := 0 to i
        invariant Substituted(n, l, row, a[i], j)
      {
        var s := Remainder(a[i][j], row, l[j], j);
        SubstituteStep(n, l, row, a[i], j, s / l[j][j]);
        row := row[j := s / l[j][j]];
      }
      var s := Remainder(a[i][i], row, row, i);
      DotTruncated(n, row, row, i);
      if s <= 0.0 {
        if Symmetric(a) {
          StuckIsNotDefinite(a, l, row, i);
        }
        return Err;
      }
      DiagonalStep(n, l, row, a, i, sqrt(s));
      l := l + [row[i := sqrt(s)]];
    }
    if Symmetric(a) {
      FactorIsDefinite(a, l);
    }
    return Ok(l);
  }

  // ---------- The triangular solves ----------

  /** Entry k of L^T x, summing down column k. */
  function TransposeEntry(n: nat, l: Matrix, x: Vector, k: int): real {
    Sum(n, j => At(x, j) * At2(l, j, k))
  }

  lemma TransposeUpdate(n: nat, l: Matrix, x: Vector, i: nat, v: real, k: nat)
    requires i < n == |x| && x[i] == 0.0
    ensures TransposeEntry(n, l, x[i := v], k) == TransposeEntry(n, l, x, k) + v * At2(l, i, k)
  {
    var x' := x[i := v];
    var e := j => if j == i then v * At2(l, i, k) else 0.0;
    SumLinear(n, 1.0, j => At(x, j) * At2(l, j, k), 1.0, e, j => At(x', j) * At2(l, j, k));
    SumSingle(n, i, e);
  }

  /** The backward analogue of SubstituteStep, on columns instead of rows. */
  lemma BackStep(n: nat, l: Matrix, x: Vector, y: Vector, i: nat, v: real)
    requires i < n == |x| == |l| == |y| && LowerPositive(n, l) && x[i] == 0.0
    requires forall k | i < k < n :: TransposeEntry(n, l, x, k) == y[k]
    requires v == (y[i] - TransposeEntry(n, l, x, i)) / l[i][i]
    ensures forall k | i <= k < n :: TransposeEntry(n, l, x[i := v], k) == y[k]
  {
    hide TransposeEntry;
    forall k | i <= k < n ensures TransposeEntry(n, l, x[i := v], k) == y[k] {
      TransposeUpdate(n, l, x, i, v, k);
      if k == i {
        assert v * l[i][i] == y[i] - TransposeEntry(n, l, x, i);
      }
    }
  }

  lemma SolvesWhole(a: Matrix, l: Matrix, x: Vector, y: Vector, b: Vector)
    requires Symmetric(a) && IsFactor(a, l) && |x| == |y| == |b| == |a|
    requires forall k | 0 <= k < |a| :: TransposeEntry(|a|, l, x, k) == y[k]
    requires forall k | 0 <= k < |a| :: Dot(|a|, y, l[k]) == b[k]
    ensures Apply(a, x) == b
  {
    var n := |a|;
    forall k | 0 <= k < n ensures Combined(n, l, x)[k] == y[k] {
      CombinedEntry(n, l, x, k);
    }
    assert Combined(n, l, x) == y;
    hide Dot, Combined, TransposeEntry;
    forall i | 0 <= i < n ensures Apply(a, x)[i] == b[i] {
      FactorApplies(a, l, x, i);
      DotSymmetric(n, y, l[i]);
    }
  }

  method ForwardSolve(l: Matrix, b: Vector) returns (y: Vector)
    requires |b| == |l| && LowerPositive(|l|, l)
    ensures |y| == |l| && forall k | 0 <= k < |l| :: Dot(|l|, y, l[k]) == b[k]
  {
    var n := |l|;
    y := seq(n, _ => 0.0);
    for i := 0 to n
      invariant Substituted(n, l, y, b, i)
    {
      var s := Remainder(b[i], l[i], y, i);
      DotSymmetric(i, l[i], y);
      SubstituteStep(n, l, y, b, i, s / l[i][i]);
      y := y[i := s / l[i][i]];
    }
  }

  method BackwardSolve(l: Matrix, y: Vector) returns (x: Vector)
    requires |y| == |l| && LowerPositive(|l|, l)
    ensures |x| == |l| && forall k | 0 <= k < |l| :: TransposeEntry(|l|, l, x, k) == y[k]
  {
    var n := |l|;
    x := seq(n, _ => 0.0);
    var i := n;
    while i > 0
      invariant 0 <= i <= n == |x| && forall k | i <= k < n :: TransposeEntry(n, l, x, k) == y[k]
      invariant forall k | 0 <= k < i :: x[k] == 0.0
    {
      i := i - 1;
      var s := y[i];
      LeadingZeros(l, x, i);
      for j := i + 1 to n
        invariant s == y[i] - Sum(j, c => At(x, c) * At2(l, c, i))
      {
        s := s - l[j][i] * x[j];
      }
      BackStep(n, l, x, y, i, s / l[i][i]);
      x := x[i := s / l[i][i]];
    }
  }

  method Solve(l: Matrix, b: Vector) returns (x: Vector)
    requires |b| == |l| && LowerPositive(|l|, l)
    ensures |x| == |l|
    // For the factor of a symmetric matrix this is the solution, whatever the right-hand side.
    ensures forall a :: Symmetric(a) && IsFactor(a, l) ==> Apply(a, x) == b
  {
    var y := ForwardSolve(l, b);
    x := BackwardSolve(l, y);
    forall a | Symmetric(a) && IsFactor(a, l) ensures Apply(a, x) == b {
      SolvesWhole(a, l, x, y, b);
    }
  }

  lemma LeadingZeros(l: Matrix, x: Vector, i: nat)
    requires forall k | 0 <= k <= i :: At(x, k) == 0.0
    ensures Sum(i + 1, c => At(x, c) * At2(l, c, i)) == 0.0
  {
    SumZero(i + 1, c => At(x, c) * At2(l, c, i));
  }
}
