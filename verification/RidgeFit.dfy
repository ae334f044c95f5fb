/** The deterministic ridge solve of a response head: normal equations with a
    1e-9 diagonal, Gauss-Jordan elimination in place with partial pivoting. */
module RidgeFit {
  import opened RealSums

  const RIDGE: real := 0.000000001
  const MIN_PIVOT: real := 0.000000000001
  const MAX_WEIGHT: real := 7.99

  type NodeID = int

  datatype Witness = Witness(features: Vector, outcome: real)

  // ---------- The linear system ----------

  /** A row of n coefficients and a right-hand side, read as one linear form on
      n + 1 entries: `x` solves the row when the form vanishes on `x + [-1.0]`. */
  function Value(n: nat, row: Vector, z: Vector): real {
    Dot(n + 1, row, z)
  }

  ghost predicate Vanishes(n: nat, m: Matrix, z: Vector) {
    forall i | 0 <= i < |m| :: Value(n, m[i], z) == 0.0
  }

  predicate Shape(n: nat, m: Matrix) {
    |m| == n && forall i | 0 <= i < n :: |m[i]| == n + 1
  }

  /** A witness as the code extends it: circuit activations, then 1, then the outcome. */
  function Extended(w: Witness): Vector {
    w.features + [1.0, w.outcome]
  }

  predicate WellFormed(n: nat, rows: seq<Witness>) {
    forall r | 0 <= r < |rows| :: |rows[r].features| + 1 == n
  }

  function AddOuter(n: nat, m: Matrix, v: Vector): (s: Matrix)
    ensures Shape(n, s)
  {
    seq(n, i => RowPlus(n, if 0 <= i < |m| then m[i] else [], At(v, i), v))
  }

  function RowPlus(n: nat, row: Vector, x: real, v: Vector): (s: Vector)
    ensures |s| == n + 1
  {
    seq(n + 1, j => At(row, j) + x * At(v, j))
  }

  /** The ridge diagonal plus the outer products of all witnesses, as accumulated. */
  function NormalMatrix(n: nat, rows: seq<Witness>): (m: Matrix)
    ensures Shape(n, m)
  {
    if rows == [] then seq(n, i => seq(n + 1, j => if i == j then RIDGE else 0.0))
    else AddOuter(n, NormalMatrix(n, rows[..|rows| - 1]), Extended(rows[|rows| - 1]))
  }

  // ---------- Row operations ----------

  function Swapped(m: Matrix, i: nat, p: nat): Matrix
    requires i < |m| && p < |m|
  {
    m[i := m[p]][p := m[i]]
  }

  function Scaled(row: Vector, lo: nat, hi: nat, d: real): (s: Vector)
    requires d != 0.0
    ensures |s| == |row|
  {
    seq(|row|, j requires 0 <= j < |row| => if lo <= j < hi then row[j] / d else row[j])
  }

  function Reduced(row: Vector, lo: nat, hi: nat, c: real, pivot: Vector): (s: Vector)
    ensures |s| == |row|
  {
    seq(|row|, j requires 0 <= j < |row| => if lo <= j < hi then row[j] - c * At(pivot, j) else row[j])
  }

  function Cleared(m: Matrix, i: nat, hi: nat): Matrix
    requires i < |m|
  {
    seq(|m|, k requires 0 <= k < |m| =>
      if k < hi && k != i then Reduced(m[k], i, |m[k]|, At(m[k], i), m[i]) else m[k])
  }

  /** One column of Gauss-Jordan: swap the pivot row up, scale it, clear the column. */
  function Step(m: Matrix, i: nat, p: nat): Matrix
    requires i < |m| && p < |m| && At(m[p], i) != 0.0
  {
    var s := Swapped(m, i, p);
    Cleared(s[i := Scaled(s[i], i, |s[i]|, At(s[i], i))], i, |m|)
  }

  // ---------- What a step keeps ----------

  /** The first k columns are columns of the identity. */
  ghost predicate UnitColumns(m: Matrix, k: nat) {
    forall r, c | 0 <= r < |m| && 0 <= c < k :: At(m[r], c) == if r == c then 1.0 else 0.0
  }

  ghost predicate LeadingVanish(n: nat, m: Matrix, k: nat, z: Vector) {
    k <= |m| && forall r | 0 <= r < k :: Value(n, m[r], z) == 0.0
  }

  /** Where the finished rows vanish, an original row vanishes too or takes the
      value of one of the unfinished rows: what partial pivoting cannot destroy. */
  ghost predicate Accounts(n: nat, original: Matrix, m: Matrix, k: nat, z: Vector) {
    LeadingVanish(n, m, k, z) ==>
      forall r | 0 <= r < |original| ::
        Value(n, original[r], z) == 0.0 ||
        exists j :: k <= j < |m| && Value(n, original[r], z) == Value(n, m[j], z)
  }

  ghost predicate KeepsSolutions(n: nat, original: Matrix, m: Matrix) {
    forall z | Vanishes(n, original, z) :: Vanishes(n, m, z)
  }

  ghost predicate AccountsForAll(n: nat, original: Matrix, m: Matrix, k: nat) {
    forall z :: Accounts(n, original, m, k, z)
  }

  ghost predicate Progress(n: nat, original: Matrix, m: Matrix, k: nat) {
    Shape(n, m) && UnitColumns(m, k) && KeepsSolutions(n, original, m) && AccountsForAll(n, original, m, k)
  }

  lemma ScaledValue(n: nat, row: Vector, i: nat, d: real, z: Vector)
    requires |row| == n + 1 && d != 0.0 && forall c | 0 <= c < i :: At(row, c) == 0.0
    ensures d * Value(n, Scaled(row, i, n + 1, d), z) == Value(n, row, z)
  {
    DotLinear(n + 1, d, Scaled(row, i, n + 1, d), 0.0, row, row, z);
  }

  lemma ReducedValue(n: nat, row: Vector, i: nat, c: real, pivot: Vector, z: Vector)
    requires |row| == |pivot| == n + 1 && forall k | 0 <= k < i :: At(pivot, k) == 0.0
    ensures Value(n, Reduced(row, i, n + 1, c, pivot), z) == Value(n, row, z) - c * Value(n, pivot, z)
  {
    DotLinear(n + 1, 1.0, row, -c, pivot, Reduced(row, i, n + 1, c, pivot), z);
  }

  /** Values of all rows after a step, in terms of those before it. */
  lemma StepValues(n: nat, m: Matrix, i: nat, p: nat, z: Vector)
    requires Shape(n, m) && UnitColumns(m, i) && i <= p < n && At(m[p], i) != 0.0
    ensures Shape(n, Step(m, i, p))
    ensures var s, t, d := Swapped(m, i, p), Step(m, i, p), At(m[p], i);
            d * Value(n, t[i], z) == Value(n, m[p], z) &&
            forall k | 0 <= k < n && k != i :: Value(n, t[k], z) == Value(n, s[k], z) - At(s[k], i) * Value(n, t[i], z)
  {
    hide Dot, Reduced;
    var s, d := Swapped(m, i, p), At(m[p], i);
    var pivot := Scaled(s[i], i, n + 1, d);
    assert forall c | 0 <= c < i :: At(m[p], c) == 0.0 && At(pivot, c) == At(m[p], c);
    ScaledValue(n, s[i], i, d, z);
    forall k | 0 <= k < n && k != i
      ensures Value(n, Step(m, i, p)[k], z) == Value(n, s[k], z) - At(s[k], i) * Value(n, pivot, z)
    {
      ReducedValue(n, s[k], i, At(s[k], i), pivot, z);
    }
  }

  lemma StepEntry(n: nat, m: Matrix, i: nat, p: nat, r: nat, c: nat)
    requires Shape(n, m) && i <= p < n && r < n && c <= n && At(m[p], i) != 0.0
    requires c < i ==> At(m[p], c) == 0.0
    ensures var pivot := At(m[p], c) / At(m[p], i);
            At(Step(m, i, p)[r], c) ==
              if r == i then (if c < i then 0.0 else pivot)
              else if c < i then At(Swapped(m, i, p)[r], c)
              else At(Swapped(m, i, p)[r], c) - At(Swapped(m, i, p)[r], i) * pivot
  {
    var s := Swapped(m, i, p);
    var pivot := Scaled(s[i], i, n + 1, At(m[p], i));
    assert At(pivot, c) == if c < i then 0.0 else At(m[p], c) / At(m[p], i);
    if r != i {
      var row := Reduced(s[r], i, n + 1, At(s[r], i), pivot);
      assert Step(m, i, p)[r] == row;
    }
  }

  lemma StepUnitColumns(n: nat, m: Matrix, i: nat, p: nat)
    requires Shape(n, m) && UnitColumns(m, i) && i <= p < n && At(m[p], i) != 0.0
    ensures UnitColumns(Step(m, i, p), i + 1)
  {
    forall r, c | 0 <= r < n && 0 <= c < i + 1 ensures At(Step(m, i, p)[r], c) == if r == c then 1.0 else 0.0 {
      StepEntry(n, m, i, p, r, c);
      assert At(m[p], i) / At(m[p], i) == 1.0;
    }
  }

  lemma StepAccounts(n: nat, original: Matrix, m: Matrix, i: nat, p: nat, z: Vector)
    requires Shape(n, m) && UnitColumns(m, i) && i <= p < n && At(m[p], i) != 0.0
    requires Accounts(n, original, m, i, z)
    ensures Accounts(n, original, Step(m, i, p), i + 1, z)
  {
    var t := Step(m, i, p);
    StepValues(n, m, i, p, z);
    if LeadingVanish(n, t, i + 1, z) {
      assert Value(n, t[i], z) == 0.0 && Value(n, m[p], z) == 0.0;
      forall r | 0 <= r < i ensures Value(n, m[r], z) == 0.0 {
        assert Value(n, t[r], z) == 0.0;
      }
      forall r | 0 <= r < |original| && Value(n, original[r], z) != 0.0
        ensures exists j :: i + 1 <= j < n && Value(n, original[r], z) == Value(n, t[j], z)
      {
        var j :| i <= j < n && Value(n, original[r], z) == Value(n, m[j], z);
        var k := if j == i then p else j;
        assert Value(n, t[k], z) == Value(n, m[j], z);
      }
    }
  }

  lemma StepKeepsProgress(n: nat, original: Matrix, m: Matrix, i: nat, p: nat)
    requires Progress(n, original, m, i) && i <= p < n && At(m[p], i) != 0.0
    ensures Progress(n, original, Step(m, i, p), i + 1)
  {
    var t, k := Step(m, i, p), i + 1;
    StepValues(n, m, i, p, []);
    StepUnitColumns(n, m, i, p);
    assert AccountsForAll(n, original, t, k) by {
      forall z: Vector ensures Accounts(n, original, t, k, z) {
        assert Accounts(n, original, m, i, z);
        StepAccounts(n, original, m, i, p, z);
      }
    }
    assert KeepsSolutions(n, original, t) by {
      forall z | Vanishes(n, original, z) ensures Vanishes(n, t, z) {
        StepValues(n, m, i, p, z);
        assert Value(n, m[p], z) == 0.0;
      }
    }
  }

  // ---------- The normal matrix as a quadratic form ----------

  function Values(n: nat, m: Matrix, z: Vector): (v: Vector)
    ensures |v| == |m|
  {
    seq(|m|, i requires 0 <= i < |m| => Value(n, m[i], z))
  }

  function Form(n: nat, m: Matrix, x: Vector, z: Vector): real {
    Dot(n, x, Values(n, m, z))
  }

  /** The witnesses' part of the form: response to `x` times residual form at `z`. */
  function Cross(n: nat, rows: seq<Witness>, x: Vector, z: Vector): real {
    if rows == [] then 0.0
    else
      var v := Extended(rows[|rows| - 1]);
      Cross(n, rows[..|rows| - 1], x, z) + Value(n, v, z) * Dot(n, x, v)
  }

  lemma OuterRow(n: nat, m: Matrix, v: Vector, i: nat, z: Vector)
    requires Shape(n, m) && i < n
    ensures Value(n, AddOuter(n, m, v)[i], z) == Value(n, m[i], z) + At(v, i) * Value(n, v, z)
  {
    DotLinear(n + 1, 1.0, m[i], At(v, i), v, AddOuter(n, m, v)[i], z);
  }

  lemma OuterValues(n: nat, m: Matrix, v: Vector, z: Vector, before: Vector, after: Vector)
    requires Shape(n, m) && before == Values(n, m, z) && after == Values(n, AddOuter(n, m, v), z)
    ensures forall i | 0 <= i < n :: At(after, i) == 1.0 * At(before, i) + Value(n, v, z) * At(v, i)
  {
    forall i | 0 <= i < n ensures At(after, i) == 1.0 * At(before, i) + Value(n, v, z) * At(v, i) {
      OuterRow(n, m, v, i, z);
    }
  }

  lemma OuterForm(n: nat, m: Matrix, v: Vector, x: Vector, z: Vector)
    requires Shape(n, m)
    ensures Form(n, AddOuter(n, m, v), x, z) == Form(n, m, x, z) + Value(n, v, z) * Dot(n, x, v)
  {
    hide AddOuter, Values, Dot;
    var before, after := Values(n, m, z), Values(n, AddOuter(n, m, v), z);
    OuterValues(n, m, v, z, before, after);
    DotLinear(n, 1.0, before, Value(n, v, z), v, after, x);
  }

  lemma RidgeForm(n: nat, m: Matrix, x: Vector, z: Vector)
    requires m == NormalMatrix(n, [])
    ensures Form(n, m, x, z) == RIDGE * Dot(n, x, z)
  {
    forall i | 0 <= i < n ensures Value(n, m[i], z) == RIDGE * At(z, i) {
      SumSingle(n + 1, i, j => At(m[i], j) * At(z, j));
    }
    DotLinear(n, RIDGE, z, 0.0, z, Values(n, m, z), x);
  }

  lemma {:induction false} NormalForm(n: nat, rows: seq<Witness>, x: Vector, z: Vector)
    ensures Form(n, NormalMatrix(n, rows), x, z) == RIDGE * Dot(n, x, z) + Cross(n, rows, x, z)
  {
    hide Dot, Form, AddOuter, Values;
    if rows == [] {
      RidgeForm(n, NormalMatrix(n, rows), x, z);
    } else {
      var front, v := rows[..|rows| - 1], Extended(rows[|rows| - 1]);
      NormalForm(n, front, x, z);
      OuterForm(n, NormalMatrix(n, front), v, x, z);
    }
  }

  // ---------- The pivot test never fires ----------

  /** The direction that the finished rows cannot see. */
  function Probe(n: nat, m: Matrix, i: nat): Vector {
    seq(n + 1, k => if 0 <= k < i then -At2(m, k, i) else if k == i then 1.0 else 0.0)
  }

  lemma ProbeValue(n: nat, m: Matrix, i: nat, r: nat)
    requires Shape(n, m) && UnitColumns(m, i) && i < n && r < n
    ensures Value(n, m[r], Probe(n, m, i)) == if r < i then 0.0 else At(m[r], i)
  {
    var z, a := Probe(n, m, i), At(m[r], i);
    var f := c => if c == i then a else 0.0;
    var g := c => if c == r && r < i then -a else 0.0;
    SumLinear(n + 1, 1.0, f, 1.0, g, c => At(m[r], c) * At(z, c));
    SumSingle(n + 1, i, f);
    SumSingle(n + 1, r, g);
  }

  /** Without a right-hand side the witnesses contribute squares only. */
  lemma {:induction false} CrossNonNegative(n: nat, rows: seq<Witness>, z: Vector)
    requires At(z, n) == 0.0
    ensures Cross(n, rows, z, z) >= 0.0
  {
    if rows != [] {
      var v := Extended(rows[|rows| - 1]);
      CrossNonNegative(n, rows[..|rows| - 1], z);
      DotSymmetric(n, z, v);
      assert Value(n, v, z) == Dot(n, z, v);
    }
  }

  lemma SmallForm(n: nat, z: Vector, v: Vector)
    requires forall r | 0 <= r < n :: Abs(At(v, r)) <= MIN_PIVOT
    ensures Dot(n, z, v) <= MIN_PIVOT * 500.0 * Dot(n, z, z) + MIN_PIVOT / 2000.0 * n as real
  {
    var h := r => MIN_PIVOT * 500.0 * (At(z, r) * At(z, r)) + MIN_PIVOT / 2000.0;
    forall r | 0 <= r < n ensures At(z, r) * At(v, r) <= h(r) {
      Young(At(z, r), At(v, r));
    }
    SumMono(n, r => At(z, r) * At(v, r), h);
    SumLinear(n, MIN_PIVOT * 500.0, r => At(z, r) * At(z, r), MIN_PIVOT / 2000.0, r => 1.0, h);
    SumOnes(n);
  }

  lemma Young(z: real, v: real)
    requires Abs(v) <= MIN_PIVOT
    ensures z * v <= MIN_PIVOT * 500.0 * (z * z) + MIN_PIVOT / 2000.0
  {
    assert (1000.0 * Abs(z) - 1.0) * (1000.0 * Abs(z) - 1.0) >= 0.0;
    assert z * v <= Abs(z) * MIN_PIVOT;
  }

  lemma {:induction false} SumOnes(n: nat)
    ensures Sum(n, r => 1.0) == n as real
  {
    if n > 0 { SumOnes(n - 1); }
  }

  /** In exact arithmetic some remaining pivot candidate always passes the test:
      the ridge keeps the quadratic form at least RIDGE away from degeneracy. */
  lemma PivotExists(n: nat, rows: seq<Witness>, m: Matrix, i: nat)
    requires i < n < 1000000 && Progress(n, NormalMatrix(n, rows), m, i)
    ensures exists p :: i <= p < n && Abs(At(m[p], i)) >= MIN_PIVOT
  {
    if forall p | i <= p < n :: Abs(At(m[p], i)) < MIN_PIVOT {
      var original, z := NormalMatrix(n, rows), Probe(n, m, i);
      forall r | 0 <= r < n ensures Value(n, m[r], z) == if r < i then 0.0 else At(m[r], i) {
        ProbeValue(n, m, i, r);
      }
      assert Accounts(n, original, m, i, z);
      forall r | 0 <= r < n ensures Abs(At(Values(n, original, z), r)) <= MIN_PIVOT {
        assert Value(n, original[r], z) == 0.0 ||
               exists j :: i <= j < n && Value(n, original[r], z) == Value(n, m[j], z);
      }
      NormalForm(n, rows, z, z);
      CrossNonNegative(n, rows, z);
      DotSquare(n, z);
      assert At(z, i) * At(z, i) == 1.0;
      SmallForm(n, z, Values(n, original, z));
    }
  }

  // ---------- Solutions minimise the ridge objective ----------

  ghost predicate Solves(n: nat, rows: seq<Witness>, w: Vector) {
    |w| == n && Vanishes(n, NormalMatrix(n, rows), w + [-1.0])
  }

  /** Squared residuals: `Value` of an extended witness on w + [-1] is prediction minus outcome. */
  function SquaredError(n: nat, rows: seq<Witness>, z: Vector): real {
    if rows == [] then 0.0
    else
      var e := Value(n, Extended(rows[|rows| - 1]), z);
      SquaredError(n, rows[..|rows| - 1], z) + e * e
  }

  function Objective(n: nat, rows: seq<Witness>, w: Vector): real {
    SquaredError(n, rows, w + [-1.0]) + RIDGE * Dot(n, w, w)
  }

  /** Moving from w by d changes the error by twice the cross term plus a square. */
  lemma {:induction false} ErrorExpansion(n: nat, rows: seq<Witness>, w: Vector, d: Vector, u: Vector)
    requires |w| == |u| == |d| == n && forall i | 0 <= i < n :: u[i] == w[i] + d[i]
    ensures SquaredError(n, rows, u + [-1.0]) >=
            SquaredError(n, rows, w + [-1.0]) + 2.0 * Cross(n, rows, d, w + [-1.0])
  {
    if rows != [] {
      var v, zu, zw := Extended(rows[|rows| - 1]), u + [-1.0], w + [-1.0];
      ErrorExpansion(n, rows[..|rows| - 1], w, d, u);
      DotLinear(n + 1, 1.0, zw, 1.0, d, zu, v);
      DotSymmetric(n, d, v);
      var e, f := Value(n, v, zw), Dot(n, d, v);
      assert Value(n, v, zu) == e + f;
      assert (e + f) * (e + f) == e * e + 2.0 * (e * f) + f * f;
      assert f * f >= 0.0;
    }
  }

  lemma NormExpansion(n: nat, w: Vector, d: Vector, u: Vector)
    requires forall i | 0 <= i < n :: At(u, i) == At(w, i) + At(d, i)
    ensures Dot(n, u, u) == Dot(n, w, w) + 2.0 * Dot(n, d, w) + Dot(n, d, d)
  {
    DotLinear(n, 1.0, w, 1.0, d, u, u);
    DotLinear(n, 1.0, w, 1.0, d, u, w);
    DotLinear(n, 1.0, w, 1.0, d, u, d);
    DotSymmetric(n, d, w);
  }

  lemma VanishingForm(n: nat, m: Matrix, d: Vector, z: Vector)
    requires |m| == n && Vanishes(n, m, z)
    ensures Form(n, m, d, z) == 0.0
  {
    DotZero(n, Values(n, m, z), d);
  }

  lemma SolutionIsStationary(n: nat, rows: seq<Witness>, w: Vector, d: Vector)
    requires Solves(n, rows, w)
    ensures RIDGE * Dot(n, d, w) + Cross(n, rows, d, w + [-1.0]) == 0.0
  {
    hide NormalMatrix, Cross, Values;
    var z := w + [-1.0];
    VanishingForm(n, NormalMatrix(n, rows), d, z);
    NormalForm(n, rows, d, z);
    SumCong(n, i => At(d, i) * At(z, i), i => At(d, i) * At(w, i));
  }

  lemma ObjectiveGap(n: nat, rows: seq<Witness>, w: Vector, u: Vector, d: Vector)
    requires Solves(n, rows, w) && |u| == |d| == n
    requires forall i | 0 <= i < n :: u[i] == w[i] + d[i]
    ensures Objective(n, rows, u) >= Objective(n, rows, w) + RIDGE * Dot(n, d, d)
  {
    SolutionIsStationary(n, rows, w, d);
    ErrorExpansion(n, rows, w, d, u);
    NormExpansion(n, w, d, u);
    Gather(SquaredError(n, rows, u + [-1.0]), SquaredError(n, rows, w + [-1.0]), Cross(n, rows, d, w + [-1.0]),
           Dot(n, u, u), Dot(n, w, w), Dot(n, d, w), Dot(n, d, d));
  }

  lemma Gather(errorU: real, errorW: real, cross: real, uu: real, ww: real, dw: real, dd: real)
    requires errorU >= errorW + 2.0 * cross && RIDGE * dw + cross == 0.0
    requires uu == ww + 2.0 * dw + dd
    ensures errorU + RIDGE * uu >= errorW + RIDGE * ww + RIDGE * dd
  {
  }

  /** A solution of the normal equations is the one and only minimiser. */
  lemma SolutionMinimises(n: nat, rows: seq<Witness>, w: Vector, u: Vector)
    requires Solves(n, rows, w) && |u| == n
    ensures Objective(n, rows, w) <= Objective(n, rows, u)
    ensures Objective(n, rows, w) == Objective(n, rows, u) ==> u == w
  {
    var d := seq(n, i requires 0 <= i < n => u[i] - w[i]);
    ObjectiveGap(n, rows, w, u, d);
    var gap := Dot(n, d, d);
    assert gap >= 0.0 && (u != w ==> gap > 0.0) by {
      DotSquare(n, d);
      if u != w {
        var i :| 0 <= i < n && u[i] != w[i];
        DotPositive(n, d, i);
      }
    }
  }

  // ---------- The fit in the terms of a prediction ----------

  /** What the head would answer for a witness before its answer is cut to [-1, 1]. */
  function Predicted(w: Vector, b: real, features: Vector): real {
    b + Dot(|w|, w, features)
  }

  function Total(codes: Vector -> Vector, rows: seq<Observation>, w: Vector, b: real): real {
    if rows == [] then 0.0
    else
      var last := rows[|rows| - 1];
      var e := Predicted(w, b, codes(last.x)) - last.outcome;
      Total(codes, rows[..|rows| - 1], w, b) + e * e
  }

  /** Squared residuals of the predictions and a billionth of the squared weights and bias. */
  function Loss(codes: Vector -> Vector, rows: seq<Observation>, w: Vector, b: real): real {
    Total(codes, rows, w, b) + 0.000000001 * (Dot(|w|, w, w) + b * b)
  }

  /** Weights and bias with the least loss; any others lose more. */
  ghost predicate IsBestFit(circuits: nat, codes: Vector -> Vector, rows: seq<Observation>, w: Vector, b: real) {
    |w| == circuits &&
    forall u: Vector, c | |u| == circuits && (u != w || c != b) :: Loss(codes, rows, w, b) < Loss(codes, rows, u, c)
  }

  /** The value of an extended witness is prediction minus outcome. */
  lemma ValueIsResidual(features: Vector, outcome: real, w: Vector, b: real)
    requires |features| == |w|
    ensures Value(|w| + 1, Extended(Witness(features, outcome)), w + [b] + [-1.0]) == Predicted(w, b, features) - outcome
  {
    var k, row, z := |w|, Extended(Witness(features, outcome)), w + [b] + [-1.0];
    var f, g := i => At(row, i) * At(z, i), i => At(w, i) * At(features, i);
    forall i | 0 <= i < k ensures f(i) == g(i) {}
    SumCong(k, f, g);
    assert f(k) == b && f(k + 1) == -outcome;
    SumCong(k + 2, i => At(row, i) * At(z, i), f);
    SumCong(k, i => At(w, i) * At(features, i), g);
  }

  lemma {:induction false} ErrorIsTotal(codes: Vector -> Vector, rows: seq<Observation>, w: Vector, b: real)
    requires forall x: Vector :: |codes(x)| == |w|
    ensures SquaredError(|w| + 1, Activated(codes, rows), w + [b] + [-1.0]) == Total(codes, rows, w, b)
  {
    hide Value, Predicted, Extended;
    if rows != [] {
      var m := |rows| - 1;
      assert Activated(codes, rows)[..m] == Activated(codes, rows[..m]);
      ErrorIsTotal(codes, rows[..m], w, b);
      ValueIsResidual(codes(rows[m].x), rows[m].outcome, w, b);
    }
  }

  lemma ObjectiveIsLoss(codes: Vector -> Vector, rows: seq<Observation>, w: Vector, b: real)
    requires forall x: Vector :: |codes(x)| == |w|
    ensures Objective(|w| + 1, Activated(codes, rows), w + [b]) == Loss(codes, rows, w, b)
  {
    ErrorIsTotal(codes, rows, w, b);
    var z := w + [b];
    SumCong(|w|, i => At(z, i) * At(z, i), i => At(w, i) * At(w, i));
  }

  lemma SolutionIsBestFit(circuits: nat, codes: Vector -> Vector, rows: seq<Observation>, w: Vector, b: real)
    requires (forall x: Vector :: |codes(x)| == circuits) && |w| == circuits
    requires Solves(circuits + 1, Activated(codes, rows), w + [b])
    ensures IsBestFit(circuits, codes, rows, w, b)
  {
    hide Solves, Objective, Loss;
    ObjectiveIsLoss(codes, rows, w, b);
    forall u: Vector, c | |u| == circuits && (u != w || c != b) ensures Loss(codes, rows, w, b) < Loss(codes, rows, u, c) {
      ObjectiveIsLoss(codes, rows, u, c);
      SolutionMinimises(circuits + 1, Activated(codes, rows), w + [b], u + [c]);
      assert (w + [b])[..circuits] == w && (u + [c])[..circuits] == u && (w + [b])[circuits] == b && (u + [c])[circuits] == c;
    }
  }

  // ---------- The elimination in place ----------

  method NormalEquations(n: nat, rows: seq<Witness>) returns (a: array<Vector>)
    requires WellFormed(n, rows) && n >= 1
    ensures fresh(a) && a[..] == NormalMatrix(n, rows)
  {
    hide RowPlus;
    a := new Vector[n](i => seq(n + 1, j => if i == j then RIDGE else 0.0));
    assert a[..] == NormalMatrix(n, []);
    for r := 0 to |rows|
      invariant a[..] == NormalMatrix(n, rows[..r])
    {
      ghost var before := a[..];
      for i := 0 to n
        invariant |a[..]| == n
        invariant forall k | 0 <= k < n :: a[k] == if k < i then AddOuter(n, before, Extended(rows[r]))[k] else before[k]
      {
        AccumulateRow(n, a, i, rows[r].features + [1.0], rows[r].outcome);
        assert rows[r].features + [1.0] + [rows[r].outcome] == Extended(rows[r]);
      }
      assert a[..] == AddOuter(n, before, Extended(rows[r]));
      assert rows[..r + 1][..r] == rows[..r];
    }
    assert rows[..|rows|] == rows;
  }

  /** The inner accumulation of one witness into row i: right-hand side, then coefficients. */
  method AccumulateRow(n: nat, a: array<Vector>, i: nat, v: Vector, outcome: real)
    requires i < a.Length && |a[i]| == n + 1 && |v| == n && i < n
    modifies a
    ensures a[..] == old(a[..])[i := RowPlus(n, old(a[i]), v[i], v + [outcome])]
  {
    ghost var before, target := a[..], RowPlus(n, a[i], v[i], v + [outcome]);
    a[i] := a[i][n := a[i][n] + v[i] * outcome];
    for j := 0 to n
      invariant a[..] == before[i := a[i]] && |a[i]| == n + 1
      invariant forall k | 0 <= k <= n :: a[i][k] == if k < j || k == n then target[k] else before[i][k]
    {
      assert target[j] == before[i][j] + v[i] * v[j];
      a[i] := a[i][j := a[i][j] + v[i] * v[j]];
    }
    assert a[i] == target;
  }

  method ScaleRow(a: array<Vector>, i: nat, d: real)
    requires i < a.Length && i < |a[i]| && d != 0.0
    modifies a
    ensures a[..] == old(a[..])[i := Scaled(old(a[i]), i, |old(a[i])|, d)]
  {
    ghost var before := a[..];
    for j := i to |a[i]|
      invariant a[..] == before[i := a[i]] && |a[i]| == |before[i]|
      invariant forall c | 0 <= c < |a[i]| :: a[i][c] == if i <= c < j then before[i][c] / d else before[i][c]
    {
      a[i] := a[i][j := a[i][j] / d];
    }
    assert a[i] == Scaled(before[i], i, |before[i]|, d);
  }

  method ReduceRow(a: array<Vector>, k: nat, i: nat)
    requires k < a.Length && i < a.Length && k != i && i < |a[k]| == |a[i]|
    modifies a
    ensures a[..] == old(a[..])[k := Reduced(old(a[k]), i, |old(a[k])|, old(a[k][i]), old(a[i]))]
  {
    ghost var before, target := a[..], Reduced(a[k], i, |a[k]|, a[k][i], a[i]);
    var d := a[k][i];
    for j := i to |a[k]|
      invariant a[..] == before[k := a[k]] && |a[k]| == |before[k]|
      invariant forall c | 0 <= c < |a[k]| :: a[k][c] == if i <= c < j then target[c] else before[k][c]
    {
      assert target[j] == before[k][j] - d * before[i][j];
      a[k] := a[k][j := a[k][j] - d * a[i][j]];
    }
    assert a[k] == target;
  }

  /** One pass of the elimination: the largest entry of column i at or below the
      diagonal becomes the pivot; too small a pivot gives up. */
  method EliminateColumn(n: nat, a: array<Vector>, i: nat) returns (ok: bool, ghost p: nat)
    requires i < n == a.Length && Shape(n, a[..])
    modifies a
    ensures i <= p < n && forall j | i <= j < n :: Abs(At(old(a[j]), i)) <= Abs(At(old(a[p]), i))
    ensures Shape(n, a[..])
    ensures ok <==> Abs(At(old(a[p]), i)) >= MIN_PIVOT
    ensures ok ==> a[..] == Step(old(a[..]), i, p)
  {
    ghost var before := a[..];
    var pivot := i;
    for j := i + 1 to n
      invariant i <= pivot < n
      invariant forall k | i <= k < j :: Abs(At(before[k], i)) <= Abs(At(before[pivot], i))
    {
      if Abs(a[j][i]) > Abs(a[pivot][i]) {
        pivot := j;
      }
    }
    p := pivot;
    a[i], a[pivot] := a[pivot], a[i];
    assert a[..] == Swapped(before, i, p);
    if Abs(a[i][i]) < MIN_PIVOT {
      return false, p;
    }
    ScaleRow(a, i, a[i][i]);
    ghost var scaled := a[..];
    for k := 0 to n
      invariant a[..] == Cleared(scaled, i, k)
    {
      if k != i {
        ReduceRow(a, k, i);
      }
    }
    return true, p;
  }

  // ---------- Response heads ----------

  datatype Head = Head(query: seq<NodeID>, w: Vector, b: real, known: bool)
  datatype Observation = Observation(x: Vector, outcome: real)

  /** The activations of the model's circuits on each observation, see `nCodes`. */
  function Activated(codes: Vector -> Vector, rows: seq<Observation>): (ws: seq<Witness>)
    ensures |ws| == |rows|
  {
    seq(|rows|, r requires 0 <= r < |rows| => Witness(codes(rows[r].x), rows[r].outcome))
  }

  predicate Bounded(w: Vector) {
    forall i | 0 <= i < |w| :: Abs(w[i]) <= MAX_WEIGHT
  }

  method HeadIndex(heads: seq<Head>, query: seq<NodeID>) returns (hi: int)
    ensures hi == -1 || 0 <= hi < |heads|
    ensures hi >= 0 ==> heads[hi].query == query
    ensures forall k | 0 <= k < (if hi < 0 then |heads| else hi) :: heads[k].query != query
  {
    for i := 0 to |heads|
      invariant forall k | 0 <= k < i :: heads[k].query != query
    {
      if heads[i].query == query {
        return i;
      }
    }
    return -1;
  }

  class Model {
    const circuits: nat
    var heads: seq<Head>

    constructor (circuits: nat, heads: seq<Head>)
      ensures this.circuits == circuits && this.heads == heads
    {
      this.circuits := circuits;
      this.heads := heads;
    }

    /** The ridge path of `nFit`. Below a million unknowns the only reason to refuse is a
        solution with a component beyond MAX_WEIGHT. */
    method Fit(codes: Vector -> Vector, query: seq<NodeID>, rows: seq<Observation>)
      returns (ok: bool, hi: nat, ghost solution: Vector)
      requires forall x: Vector :: |codes(x)| == circuits
      modifies this`heads
      ensures hi < |heads| && heads[hi].query == query
      ensures forall k | 0 <= k < hi :: heads[k].query != query
      ensures |heads| == if hi < |old(heads)| then |old(heads)| else |old(heads)| + 1
      ensures forall k | 0 <= k < |heads| && k != hi :: k < |old(heads)| && heads[k] == old(heads)[k]
      ensures ok ==> heads[hi].known && heads[hi].w + [heads[hi].b] == solution
      ensures !ok && hi < |old(heads)| ==> heads[hi] == old(heads)[hi]
      ensures !ok && hi == |old(heads)| ==> !heads[hi].known
      ensures ok ==> Solves(circuits + 1, Activated(codes, rows), solution)
      ensures ok ==> IsBestFit(circuits, codes, rows, heads[hi].w, heads[hi].b)
      ensures ok ==> -7.99 <= heads[hi].b <= 7.99 && forall i | 0 <= i < circuits :: -7.99 <= heads[hi].w[i] <= 7.99
      ensures !ok && circuits < 999999 ==>
                Solves(circuits + 1, Activated(codes, rows), solution) && |solution| == circuits + 1 && IsBestFit(circuits, codes, rows, solution[..circuits], solution[circuits])
                && exists i :: 0 <= i <= circuits && (solution[i] < -7.99 || solution[i] > 7.99)
    {
      hide Solves, IsBestFit, Bounded;
      var found := HeadIndex(heads, query);
      if found < 0 {
        heads := heads + [Head(query, [], 0.0, false)];
        found := |heads| - 1;
      }
      hi := found;
      var solved, w, b, z := SolveFit(circuits, codes, rows);
      if solved {
        assert z[..circuits] == w && z[circuits] == b;
        BoundedMeans(z, w, b);
        heads := heads[hi := heads[hi].(w := w, b := b, known := true)];
      }
      if !solved && circuits < 999999 {
        assert z == z[..circuits] + [z[circuits]];
        BoundedMeans(z, z[..circuits], z[circuits]);
      }
      return solved, hi, z;
    }
  }

  lemma BoundedMeans(z: Vector, w: Vector, b: real)
    requires z == w + [b]
    ensures Bounded(z) <==> -7.99 <= b <= 7.99 && forall i | 0 <= i < |w| :: -7.99 <= w[i] <= 7.99
    ensures Bounded(z) <==> !exists i :: 0 <= i < |z| && (z[i] < -7.99 || z[i] > 7.99)
  {
    assert z[|w|] == b && forall i | 0 <= i < |w| :: z[i] == w[i];
  }

  /** Accumulate, eliminate and test the magnitudes. */
  method SolveFit(circuits: nat, codes: Vector -> Vector, rows: seq<Observation>)
    returns (ok: bool, w: Vector, b: real, ghost solution: Vector)
    requires forall x: Vector :: |codes(x)| == circuits
    ensures ok ==> w + [b] == solution
    ensures ok || circuits < 999999 ==>
              && Solves(circuits + 1, Activated(codes, rows), solution) && |solution| == circuits + 1
              && IsBestFit(circuits, codes, rows, solution[..circuits], solution[circuits])
    ensures ok ==> Bounded(solution)
    ensures !ok && circuits < 999999 ==> !Bounded(solution)
  {
    hide Solves, IsBestFit, Bounded;
    var n, ws := circuits + 1, Activated(codes, rows);
    forall r | 0 <= r < |ws| ensures |ws[r].features| + 1 == n {
      assert ws[r].features == codes(rows[r].x);
    }
    var a := NormalEquations(n, ws);
    var solved := Eliminate(n, ws, a);
    solution, w, b := RightHandSide(n, a[..]), [], 0.0;
    if !solved { return false, w, b, solution; }
    assert solution[..circuits] + [solution[circuits]] == solution;
    SolutionIsBestFit(circuits, codes, rows, solution[..circuits], solution[circuits]);
    ok, w, b := ReadWeights(n, a);
  }

  /** The magnitude test on every component, weights first and the bias last. */
  method ReadWeights(n: nat, a: array<Vector>) returns (ok: bool, w: Vector, b: real)
    requires n >= 1 && Shape(n, a[..])
    ensures ok <==> Bounded(RightHandSide(n, a[..]))
    ensures ok ==> w + [b] == RightHandSide(n, a[..])
  {
    w, b := [], a[n - 1][n];
    ghost var solution := RightHandSide(n, a[..]);
    assert forall i | 0 <= i < n :: solution[i] == a[i][n];
    for i := 0 to n - 1
      invariant w == solution[..i] && Bounded(w)
    {
      if Abs(a[i][n]) > MAX_WEIGHT {
        return false, w, b;
      }
      w := w + [a[i][n]];
    }
    ok := Abs(b) <= MAX_WEIGHT;
    assert solution == solution[..n - 1] + [solution[n - 1]];
  }

  /** All columns in turn. Giving up needs a million unknowns. */
  method Eliminate(n: nat, rows: seq<Witness>, a: array<Vector>) returns (ok: bool)
    requires a[..] == NormalMatrix(n, rows)
    modifies a
    ensures a.Length == n && Shape(n, a[..])
    ensures ok ==> Solves(n, rows, RightHandSide(n, a[..]))
    ensures n < 1000000 ==> ok
  {
    ghost var original := a[..];
    ProgressStarts(n, original);
    for i := 0 to n
      invariant Progress(n, original, a[..], i)
    {
      if n < 1000000 {
        PivotExists(n, rows, a[..], i);
      }
      ghost var before := a[..];
      var go, p := EliminateColumn(n, a, i);
      if !go {
        return false;
      }
      StepKeepsProgress(n, original, before, i, p);
    }
    ReadOff(n, original, a[..]);
    return true;
  }

  function RightHandSide(n: nat, m: Matrix): Vector {
    seq(n, i => At2(m, i, n))
  }

  lemma ProgressStarts(n: nat, original: Matrix)
    requires Shape(n, original)
    ensures Progress(n, original, original, 0)
  {
  }

  /** Fully reduced rows read w_i = right-hand side, and that w solves the original rows. */
  lemma ReadOff(n: nat, original: Matrix, m: Matrix)
    requires |original| == n && Progress(n, original, m, n)
    ensures Vanishes(n, original, RightHandSide(n, m) + [-1.0])
  {
    var z := RightHandSide(n, m) + [-1.0];
    forall i | 0 <= i < n ensures Value(n, m[i], z) == 0.0 {
      UnitRowValue(n, m[i], i, z);
    }
    assert Accounts(n, original, m, n, z);
  }

  lemma UnitRowValue(n: nat, row: Vector, i: nat, z: Vector)
    requires i < n && forall c | 0 <= c < n :: At(row, c) == if c == i then 1.0 else 0.0
    ensures Value(n, row, z) == At(z, i) + At(row, n) * At(z, n)
  {
    SumSingle(n, i, c => At(row, c) * At(z, c));
  }
}
