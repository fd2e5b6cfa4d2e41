/** The recursive-least-squares step shared by the linear and the quadratic
 *  predictor. Both keep a `predictionLength × inputLength` coefficient
 *  matrix `C` and an `inputLength × inputLength` gain matrix `G`; for a
 *  feature vector `x` (the offset followed by the features of the input) one
 *  step computes
 *
 *    q = xᵀ·G·x,   D = λ + q,   k = G·x / D,
 *    C[p] := C[p] + (target[p] - prediction[p])·k,
 *    G := ((I - k·xᵀ)·G) / λ.
 *
 *  The definitions below are the values the update loops compute; the loops
 *  themselves are the small methods at the end of the module. */
module RLS {
  import opened Matrix
  import Geometry

  /** Every row has exactly `cols` entries. */
  predicate Shaped(m: seq<seq<real>>, rows: nat, cols: nat)
  {
    |m| == rows && forall p :: 0 <= p < rows ==> |m[p]| == cols
  }

  // ---- the values of one step ----

  /** `λ + Σ_i x_i·(G·x)_i`, the divisor of the gain vector. */
  function Divisor(g: seq<seq<real>>, x: seq<real>, n: nat, lambda: real): real
    requires IsSquare(g, n) && n <= |x|
  {
    lambda + Dot(x, MatVec(g, x, n), n)
  }

  /** `k = G·x / D`. */
  function GainVector(g: seq<seq<real>>, x: seq<real>, n: nat, lambda: real): (k: seq<real>)
    requires IsSquare(g, n) && n <= |x| && Divisor(g, x, n, lambda) != 0.0
    ensures |k| == n
  {
    var gx := MatVec(g, x, n);
    var d := Divisor(g, x, n, lambda);
    seq(n, i requires 0 <= i < n => gx[i] / d)
  }

  /** `row + error · k`. */
  function MovedRow(row: seq<real>, error: real, k: seq<real>, n: nat): (r: seq<real>)
    requires n <= |row| && n <= |k|
    ensures |r| == n
  {
    seq(n, i requires 0 <= i < n => row[i] + error * k[i])
  }

  /** Every row `p` moved by `error_p · k`, where the error is the target minus
   *  the prediction held in `pred`. */
  function UpdatedCoefficients(c: seq<seq<real>>, target: seq<real>, pred: seq<real>, k: seq<real>, n: nat): (r: seq<seq<real>>)
    requires |target| >= |c| && |pred| >= |c| && |k| == n
    requires forall p :: 0 <= p < |c| ==> |c[p]| == n
    ensures Shaped(r, |c|, n)
  {
    seq(|c|, p requires 0 <= p < |c| => MovedRow(c[p], target[p] - pred[p], k, n))
  }

  /** `I - k·xᵀ`, written entry by entry as `1 - k_i·x_j` on the diagonal and
   *  `-(k_i·x_j)` elsewhere. */
  function RankOneComplement(k: seq<real>, x: seq<real>, n: nat): (m: seq<seq<real>>)
    requires n <= |k| && n <= |x|
    ensures IsSquare(m, n)
  {
    seq(n, i requires 0 <= i < n => seq(n, j requires 0 <= j < n =>
      if i == j then 1.0 - k[i] * x[j] else -(k[i] * x[j])))
  }

  /** Every entry of the square matrix divided by `d`. */
  function Divided(m: seq<seq<real>>, n: nat, d: real): (r: seq<seq<real>>)
    requires IsSquare(m, n) && d != 0.0
    ensures IsSquare(r, n)
  {
    seq(n, i requires 0 <= i < n => seq(n, j requires 0 <= j < n => m[i][j] / d))
  }

  /** `((I - k·xᵀ)·G) / λ`. */
  function UpdatedGain(g: seq<seq<real>>, k: seq<real>, x: seq<real>, n: nat, lambda: real): (r: seq<seq<real>>)
    requires IsSquare(g, n) && n <= |k| && n <= |x| && lambda != 0.0
    ensures IsSquare(r, n)
  {
    Divided(MatMul(RankOneComplement(k, x, n), g, n), n, lambda)
  }

  /** The prediction of every output: its coefficient row against `x`. */
  function Predictions(c: seq<seq<real>>, x: seq<real>, n: nat): (r: seq<real>)
    requires n <= |x| && forall p :: 0 <= p < |c| ==> n <= |c[p]|
    ensures |r| == |c|
  {
    seq(|c|, p requires 0 <= p < |c| => Dot(c[p], x, n))
  }

  /** The initial coefficients: the offset coefficient of output `p` is the
   *  initial prediction when the offset value is positive, all other
   *  coefficients are 0. */
  function InitialCoefficients(initial: seq<real>, n: nat, offsetValue: real): (r: seq<seq<real>>)
    ensures Shaped(r, |initial|, n)
  {
    seq(|initial|, p requires 0 <= p < |initial| => seq(n, i requires 0 <= i < n =>
      if i == 0 && offsetValue > 0.0 then initial[p] else 0.0))
  }

  /** `resetGainMatrix`: `s` added to the diagonal. */
  function AddDiagonal(g: seq<seq<real>>, n: nat, s: real): (r: seq<seq<real>>)
    requires IsSquare(g, n)
    ensures IsSquare(r, n)
  {
    seq(n, i requires 0 <= i < n => seq(n, j requires 0 <= j < n => if i == j then g[i][j] + s else g[i][j]))
  }

  /** The element-wise average of two coefficient matrices. */
  function AverageRows(a: seq<seq<real>>, b: seq<seq<real>>, n: nat): (r: seq<seq<real>>)
    requires Shaped(a, |a|, n) && Shaped(b, |a|, n)
    ensures Shaped(r, |a|, n)
  {
    seq(|a|, p requires 0 <= p < |a| => seq(n, i requires 0 <= i < n => (a[p][i] + b[p][i]) / 2.0))
  }

  // ---- properties of the step ----

  /** A row moved by `e·k` predicts `e·(k·x)` more on `x`. */
  lemma {:induction false} DotMoved(c: seq<real>, u: seq<real>, k: seq<real>, x: seq<real>, e: real, n: nat)
    requires n <= |c| && n <= |u| && n <= |k| && n <= |x|
    requires forall i :: 0 <= i < n ==> u[i] == c[i] + e * k[i]
    ensures Dot(u, x, n) == Dot(c, x, n) + e * Dot(k, x, n)
  {
    if n > 0 {
      DotMoved(c, u, k, x, e, n - 1);
      var i := n - 1;
      assert u[i] * x[i] == c[i] * x[i] + e * (k[i] * x[i]);
      assert e * Dot(k, x, n) == e * Dot(k, x, i) + e * (k[i] * x[i]);
    }
  }

  /** A row divided by `d` has its dot product divided by `d`. */
  lemma {:induction false} DotDivided(v: seq<real>, w: seq<real>, x: seq<real>, d: real, n: nat)
    requires n <= |v| && n <= |w| && n <= |x| && d != 0.0
    requires forall i :: 0 <= i < n ==> w[i] == v[i] / d
    ensures Dot(w, x, n) == Dot(v, x, n) / d
  {
    if n > 0 {
      DotDivided(v, w, x, d, n - 1);
      var i := n - 1;
      assert w[i] * x[i] == (v[i] * x[i]) / d;
      assert Dot(v, x, n) / d == Dot(v, x, i) / d + (v[i] * x[i]) / d;
    }
  }

  /** `k·x = q / D`: against the input, the gain vector gives the quadratic
   *  form divided by the divisor. */
  lemma {:induction false} GainAgainstInput(g: seq<seq<real>>, x: seq<real>, n: nat, lambda: real)
    requires IsSquare(g, n) && n <= |x| && Divisor(g, x, n, lambda) != 0.0
    ensures Dot(GainVector(g, x, n, lambda), x, n) == Dot(x, MatVec(g, x, n), n) / Divisor(g, x, n, lambda)
  {
    var gx := MatVec(g, x, n);
    DotDivided(gx, GainVector(g, x, n, lambda), x, Divisor(g, x, n, lambda), n);
    DotSymmetric(gx, x, n);
  }

  /** With `k·x = q / d` and `d = λ + q`, the remaining error `e - e·(k·x)`
   *  is `e·λ / d`. */
  lemma {:induction false} ErrorScaled(e: real, dk: real, q: real, lambda: real, d: real)
    requires d == lambda + q && d != 0.0 && dk == q / d
    ensures e - e * dk == e * lambda / d
  {
    assert e * (q / d) == (e * q) / d;
    assert e * lambda / d == (e * d - e * q) / d;
    assert (e * d) / d == e;
  }

  /** The shapes under which row `p` of the step is defined and can be
   *  applied to `x`. */
  predicate Fits(c: seq<seq<real>>, target: seq<real>, pred: seq<real>, k: seq<real>, x: seq<real>, n: nat, p: nat)
  {
    |target| >= |c| && |pred| >= |c| && |k| == n && n <= |x| && p < |c| && forall r :: 0 <= r < |c| ==> |c[r]| == n
  }

  /** Row `p` of the corrected coefficients predicts `error_p · (k·x)` more
   *  on any `x`. */
  lemma {:induction false} MovedRowPredicts(c: seq<seq<real>>, target: seq<real>, pred: seq<real>, k: seq<real>, x: seq<real>, n: nat,
                         p: nat, e: real)
    requires Fits(c, target, pred, k, x, n, p)
    requires e == target[p] - pred[p] && pred[p] == Dot(c[p], x, n)
    ensures Dot(UpdatedCoefficients(c, target, pred, k, n)[p], x, n) == pred[p] + e * Dot(k, x, n)
  {
    UpdatedRow(c, target, pred, k, x, n, p);
    DotMovedRow(c[p], UpdatedCoefficients(c, target, pred, k, n)[p], e, k, x, n);
  }

  /** Row `p` of the corrected coefficients is row `p` moved by its error. */
  lemma {:induction false} UpdatedRow(c: seq<seq<real>>, target: seq<real>, pred: seq<real>, k: seq<real>, x: seq<real>, n: nat, p: nat)
    requires Fits(c, target, pred, k, x, n, p)
    ensures UpdatedCoefficients(c, target, pred, k, n)[p] == MovedRow(c[p], target[p] - pred[p], k, n)
  {
  }

  /** `DotMoved` for `MovedRow`. */
  lemma {:induction false} DotMovedRow(row: seq<real>, m: seq<real>, e: real, k: seq<real>, x: seq<real>, n: nat)
    requires n <= |row| && n <= |k| && n <= |x| && m == MovedRow(row, e, k, n)
    ensures Dot(m, x, n) == Dot(row, x, n) + e * Dot(k, x, n)
  {
    DotMoved(row, m, k, x, e, n);
  }

  /** The RLS step: on an output whose buffered prediction is that of the
   *  current coefficients on the same `x`, the remaining error on `x` is
   *  the old error times `λ / (λ + xᵀGx)`. */
  lemma {:induction false} ErrorAfterUpdate(c: seq<seq<real>>, g: seq<seq<real>>, x: seq<real>, target: seq<real>, pred: seq<real>,
                         n: nat, lambda: real, p: nat)
    requires IsSquare(g, n) && n <= |x| && Divisor(g, x, n, lambda) != 0.0
    requires p < |c| && |target| >= |c| && |pred| >= |c| && forall r :: 0 <= r < |c| ==> |c[r]| == n
    requires pred[p] == Dot(c[p], x, n)
    ensures target[p] - Dot(UpdatedCoefficients(c, target, pred, GainVector(g, x, n, lambda), n)[p], x, n)
         == Remaining(target[p] - pred[p], lambda, Divisor(g, x, n, lambda))
  {
    GainAgainstInput(g, x, n, lambda);
    ErrorAfterGain(c, target, pred, GainVector(g, x, n, lambda), x, n, p, target[p] - pred[p],
                   Dot(x, MatVec(g, x, n), n), lambda, Divisor(g, x, n, lambda));
  }

  /** `ErrorAfterUpdate` for any gain vector `k` with `k·x = q / d`,
   *  `d = λ + q`. */
  lemma {:induction false} ErrorAfterGain(c: seq<seq<real>>, target: seq<real>, pred: seq<real>, k: seq<real>, x: seq<real>, n: nat,
                       p: nat, e: real, q: real, lambda: real, d: real)
    requires Fits(c, target, pred, k, x, n, p)
    requires pred[p] == Dot(c[p], x, n) && e == target[p] - pred[p]
    requires d == lambda + q && d != 0.0 && Dot(k, x, n) == q / d
    ensures target[p] - Dot(UpdatedCoefficients(c, target, pred, k, n)[p], x, n) == Remaining(target[p] - pred[p], lambda, d)
  {
    MovedRowPredicts(c, target, pred, k, x, n, p, e);
    ErrorCombine(target[p], pred[p], e, Dot(UpdatedCoefficients(c, target, pred, k, n)[p], x, n), Dot(k, x, n),
                 q, lambda, d);
  }

  /** The error `t - a` after a move by `e·k` with `e = t - pred` and
   *  `k·x = q / d`, `d = λ + q`, is `e·λ / d`. */
  lemma {:induction false} ErrorCombine(t: real, pred: real, e: real, a: real, dk: real, q: real, lambda: real, d: real)
    requires e == t - pred && a == pred + e * dk
    requires d == lambda + q && d != 0.0 && dk == q / d
    ensures t - a == Remaining(t - pred, lambda, d)
  {
    ErrorScaled(e, dk, q, lambda, d);
  }

  /** The error `e` scaled by `λ / d`. */
  function Remaining(e: real, lambda: real, d: real): real
    requires d != 0.0
  {
    e * lambda / d
  }

  /** Every output's error on `x` after the step, `target_p - c'_p·x`, is
   *  its error before, `target_p - pred_p`, times `λ / (λ + xᵀGx)`. */
  ghost predicate ErrorsScaled(c': seq<seq<real>>, g: seq<seq<real>>, x: seq<real>, target: seq<real>, pred: seq<real>,
                               n: nat, lambda: real)
  {
    && IsSquare(g, n) && n <= |x| && Divisor(g, x, n, lambda) != 0.0
    && Shaped(c', |c'|, n) && |target| >= |c'| && |pred| >= |c'|
    && forall p :: 0 <= p < |c'| ==>
         target[p] - Dot(c'[p], x, n) == Remaining(target[p] - pred[p], lambda, Divisor(g, x, n, lambda))
  }

  /** `ErrorAfterUpdate` for every output at once, when the whole buffered
   *  prediction is that of the current coefficients on `x`. */
  lemma {:induction false} ErrorsAfterUpdate(c: seq<seq<real>>, g: seq<seq<real>>, x: seq<real>, target: seq<real>, pred: seq<real>,
                          n: nat, lambda: real)
    requires IsSquare(g, n) && n <= |x| && Divisor(g, x, n, lambda) != 0.0
    requires |target| >= |c| && Shaped(c, |c|, n) && pred == Predictions(c, x, n)
    ensures ErrorsScaled(UpdatedCoefficients(c, target, pred, GainVector(g, x, n, lambda), n), g, x, target, pred, n, lambda)
  {
    forall p | 0 <= p < |c|
      ensures target[p] - Dot(UpdatedCoefficients(c, target, pred, GainVector(g, x, n, lambda), n)[p], x, n)
        == Remaining(target[p] - pred[p], lambda, Divisor(g, x, n, lambda))
    {
      ErrorAfterUpdate(c, g, x, target, pred, n, lambda, p);
    }
  }

  /** With `λ > 0` and `q >= 0` the factor `λ / (λ + q)` lies in (0, 1],
   *  so the step never increases the error on `x` and keeps its sign. */
  lemma {:induction false} ErrorShrinks(e: real, q: real, lambda: real)
    requires lambda > 0.0 && q >= 0.0
    ensures Geometry.Abs(e * lambda / (lambda + q)) <= Geometry.Abs(e)
    ensures e > 0.0 ==> e * lambda / (lambda + q) > 0.0
    ensures e < 0.0 ==> e * lambda / (lambda + q) < 0.0
  {
    var d := lambda + q;
    UnitFraction(lambda, d);
    MulDiv(e, lambda, d);
    ScaledMagnitude(e, lambda / d);
  }

  /** A positive `a` no larger than `d` makes a fraction in (0, 1]. */
  lemma {:induction false} UnitFraction(a: real, d: real)
    requires 0.0 < a <= d
    ensures 0.0 < a / d <= 1.0
  {
    var f := a / d;
    assert f * d == a;
    if f <= 0.0 {
      Geometry.MulPositive(-f, d);
    }
    if f > 1.0 {
      Geometry.MulPositive(f - 1.0, d);
    }
  }

  /** `e·a / d = e·(a / d)`. */
  lemma {:induction false} MulDiv(e: real, a: real, d: real)
    requires d != 0.0
    ensures e * a / d == e * (a / d)
  {
    var f := a / d;
    assert f * d == a;
    assert (e * f) * d == e * a;
  }

  /** A fraction in (0, 1] of `e` is no larger in magnitude and keeps the
   *  sign. */
  lemma {:induction false} ScaledMagnitude(e: real, f: real)
    requires 0.0 < f <= 1.0
    ensures Geometry.Abs(e * f) <= Geometry.Abs(e)
    ensures e > 0.0 ==> e * f > 0.0
    ensures e < 0.0 ==> e * f < 0.0
  {
    if f == 1.0 {
      assert e * f == e;
    } else if e > 0.0 {
      Geometry.MulPositive(e, f);
      Geometry.MulPositive(e, 1.0 - f);
      assert e * (1.0 - f) == e - e * f;
    } else if e < 0.0 {
      Geometry.MulPositive(-e, f);
      assert (-e) * f == -(e * f);
      Geometry.MulPositive(-e, 1.0 - f);
      assert (-e) * (1.0 - f) == e * f - e;
    }
  }

  /** `Σ x_i·(s·x_i) >= 0` for `s >= 0`. */
  lemma {:induction false} DotScaledSelf(x: seq<real>, w: seq<real>, s: real, n: nat)
    requires n <= |x| && n <= |w| && s >= 0.0
    requires forall i :: 0 <= i < n ==> w[i] == s * x[i]
    ensures Dot(x, w, n) >= 0.0
  {
    if n > 0 {
      DotScaledSelf(x, w, s, n - 1);
      var a := x[n - 1];
      assert a * w[n - 1] == s * (a * a);
      Geometry.SquarePositive(a);
      if s > 0.0 && a != 0.0 {
        Geometry.MulPositive(s, a * a);
      }
    }
  }

  /** Under a fresh gain `diag(s)` with `s >= 0` the quadratic form is not
   *  negative, so the divisor is at least `λ`: with `λ > 0` the step is
   *  defined and shrinks the error. */
  lemma {:induction false} DiagonalDivisor(s: real, x: seq<real>, n: nat, lambda: real)
    requires s >= 0.0 && n <= |x|
    ensures Dot(x, MatVec(Diagonal(s, n), x, n), n) >= 0.0
    ensures Divisor(Diagonal(s, n), x, n, lambda) >= lambda
  {
    DiagonalMatVec(s, x, n);
    DotScaledSelf(x, MatVec(Diagonal(s, n), x, n), s, n);
  }

  /** Initial coefficients predict the initial value times the offset (or 0
   *  when the offset value is not positive), whatever the rest of `x`. */
  lemma {:induction false} InitialPrediction(initial: seq<real>, x: seq<real>, n: nat, offsetValue: real, p: nat)
    requires 1 <= n <= |x| && p < |initial|
    ensures Dot(InitialCoefficients(initial, n, offsetValue)[p], x, n)
         == (if offsetValue > 0.0 then initial[p] * x[0] else 0.0)
  {
    var row := InitialCoefficients(initial, n, offsetValue)[p];
    if offsetValue > 0.0 {
      DotUnit(row, x, n, 0, initial[p]);
    } else {
      DotZero(row, x, n);
    }
  }

  /** Resetting a fresh gain matrix gives the fresh matrix of the summed
   *  scale; only the diagonal moves. */
  lemma {:induction false} AddDiagonalOfDiagonal(a: real, s: real, n: nat)
    ensures AddDiagonal(Diagonal(a, n), n, s) == Diagonal(a + s, n)
    ensures forall i, j :: 0 <= i < n && 0 <= j < n && i != j ==> AddDiagonal(Diagonal(a, n), n, s)[i][j] == 0.0
  {
    var r := AddDiagonal(Diagonal(a, n), n, s);
    assert forall i :: 0 <= i < n ==> r[i] == Diagonal(a + s, n)[i];
  }

  /** The averaged coefficients do not depend on the order of the parents,
   *  and averaging a matrix with itself gives it back. */
  lemma {:induction false} AverageRowsProperties(a: seq<seq<real>>, b: seq<seq<real>>, n: nat)
    requires Shaped(a, |a|, n) && Shaped(b, |a|, n)
    ensures AverageRows(a, b, n) == AverageRows(b, a, n)
    ensures AverageRows(a, a, n) == a
  {
    assert forall p :: 0 <= p < |a| ==> AverageRows(a, b, n)[p] == AverageRows(b, a, n)[p];
    assert forall p :: 0 <= p < |a| ==> AverageRows(a, a, n)[p] == a[p];
  }

  // ---- the loops of one step ----

  /** Step 2 of `update`: the divisor starts at λ and adds `x_i·(G·x)_i`. */
  method SumDivisor(x: seq<real>, gx: seq<real>, n: nat, lambda: real) returns (d: real)
    requires n <= |x| && n <= |gx|
    ensures d == lambda + Dot(x, gx, n)
  {
    d := lambda;
    for i := 0 to n
      invariant d == lambda + Dot(x, gx, i)
    {
      d := d + x[i] * gx[i];
    }
  }

  /** Step 2 of `update`: every entry of the gain vector divided by `d`. */
  method DivideVector(v: seq<real>, n: nat, d: real) returns (k: seq<real>)
    requires n <= |v| && d != 0.0
    ensures |k| == n && forall i :: 0 <= i < n ==> k[i] == v[i] / d
  {
    k := v[..n];
    for i := 0 to n
      invariant |k| == n
      invariant forall j :: 0 <= j < i ==> k[j] == v[j] / d
      invariant forall j :: i <= j < n ==> k[j] == v[j]
    {
      k := k[i := k[i] / d];
    }
  }

  /** Step 3 of `update` for one output: the row moved by `error · k`. */
  method MoveRow(row: seq<real>, error: real, k: seq<real>, n: nat) returns (r: seq<real>)
    requires |row| == n && |k| == n
    ensures r == MovedRow(row, error, k, n)
  {
    r := row;
    for i := 0 to n
      invariant |r| == n
      invariant forall j :: 0 <= j < i ==> r[j] == MovedRow(row, error, k, n)[j]
      invariant forall j :: i <= j < n ==> r[j] == row[j]
    {
      r := r[i := r[i] + error * k[i]];
    }
  }

  /** Step 3 of `update`: every output's coefficients moved by its error
   *  against the buffered prediction. */
  method MoveCoefficients(c: seq<seq<real>>, target: seq<real>, pred: seq<real>, k: seq<real>, n: nat)
    returns (r: seq<seq<real>>)
    requires |target| >= |c| && |pred| >= |c| && |k| == n && Shaped(c, |c|, n)
    ensures r == UpdatedCoefficients(c, target, pred, k, n)
  {
    r := c;
    for p := 0 to |c|
      invariant |r| == |c|
      invariant forall q :: 0 <= q < p ==> r[q] == UpdatedCoefficients(c, target, pred, k, n)[q]
      invariant forall q :: p <= q < |c| ==> r[q] == c[q]
    {
      var error := target[p] - pred[p];
      var row := MoveRow(r[p], error, k, n);
      r := r[p := row];
    }
  }

  /** Step 4 of `update`, one row of `I - k·xᵀ`. */
  method RankOneRow(k: seq<real>, x: seq<real>, i: nat, n: nat) returns (row: seq<real>)
    requires i < n <= |k| && n <= |x|
    ensures row == RankOneComplement(k, x, n)[i]
  {
    row := [];
    for j := 0 to n
      invariant |row| == j
      invariant forall l :: 0 <= l < j ==> row[l] == RankOneComplement(k, x, n)[i][l]
    {
      var tmp := k[i] * x[j];
      if i == j {
        row := row + [1.0 - tmp];
      } else {
        row := row + [-tmp];
      }
    }
  }

  /** Step 4 of `update`: the matrix `I - k·xᵀ`. */
  method RankOneMatrix(k: seq<real>, x: seq<real>, n: nat) returns (m: seq<seq<real>>)
    requires n <= |k| && n <= |x|
    ensures m == RankOneComplement(k, x, n)
  {
    m := [];
    for i := 0 to n
      invariant |m| == i
      invariant forall l :: 0 <= l < i ==> m[l] == RankOneComplement(k, x, n)[l]
    {
      var row := RankOneRow(k, x, i, n);
      m := m + [row];
    }
  }

  /** Step 5 of `update` for one row: every entry divided by λ. */
  method DivideRow(row: seq<real>, n: nat, d: real) returns (r: seq<real>)
    requires |row| == n && d != 0.0
    ensures |r| == n && forall j :: 0 <= j < n ==> r[j] == row[j] / d
  {
    r := [];
    for j := 0 to n
      invariant |r| == j && forall l :: 0 <= l < j ==> r[l] == row[l] / d
    {
      r := r + [row[j] / d];
    }
  }

  /** Step 5 of `update`: every entry of the product divided by λ. */
  method DivideMatrix(m: seq<seq<real>>, n: nat, d: real) returns (r: seq<seq<real>>)
    requires IsSquare(m, n) && d != 0.0
    ensures r == Divided(m, n, d)
  {
    r := [];
    for i := 0 to n
      invariant |r| == i && forall l :: 0 <= l < i ==> r[l] == Divided(m, n, d)[l]
    {
      var row := DivideRow(m[i], n, d);
      r := r + [row];
    }
  }

  /** `initializeGainMatrix`: `s` on the diagonal, 0 elsewhere. */
  method InitialGain(s: real, n: nat) returns (g: seq<seq<real>>)
    ensures g == Diagonal(s, n)
  {
    g := [];
    for row := 0 to n
      invariant |g| == row && forall l :: 0 <= l < row ==> g[l] == Diagonal(s, n)[l]
    {
      var r := [];
      for col := 0 to n
        invariant |r| == col && forall l :: 0 <= l < col ==> r[l] == (if row == l then s else 0.0)
      {
        r := r + [if row != col then 0.0 else s];
      }
      g := g + [r];
    }
  }

  /** The coefficient loops of the covering constructors. */
  method InitCoefficients(initial: seq<real>, n: nat, offsetValue: real) returns (c: seq<seq<real>>)
    requires n >= 1
    ensures c == InitialCoefficients(initial, n, offsetValue)
  {
    c := [];
    for p := 0 to |initial|
      invariant |c| == p && forall l :: 0 <= l < p ==> c[l] == InitialCoefficients(initial, n, offsetValue)[l]
    {
      var row := if offsetValue > 0.0 then [initial[p]] else [0.0];
      for i := 1 to n
        invariant |row| == i && forall l :: 0 <= l < i ==> row[l] == InitialCoefficients(initial, n, offsetValue)[p][l]
      {
        row := row + [0.0];
      }
      c := c + [row];
    }
  }

  /** `resetGainMatrix`: the scale factor added to each diagonal entry. */
  method ResetDiagonal(g: seq<seq<real>>, n: nat, s: real) returns (r: seq<seq<real>>)
    requires IsSquare(g, n)
    ensures r == AddDiagonal(g, n, s)
  {
    r := g;
    for i := 0 to n
      invariant IsSquare(r, n)
      invariant forall l, j :: 0 <= l < n && 0 <= j < n ==>
        r[l][j] == (if l == j && l < i then g[l][j] + s else g[l][j])
    {
      r := r[i := r[i][i := r[i][i] + s]];
    }
    assert forall l :: 0 <= l < n ==> r[l] == AddDiagonal(g, n, s)[l];
  }

  /** The crossover loops: both matrices become their element-wise average. */
  method AverageCoefficients(a: seq<seq<real>>, b: seq<seq<real>>, n: nat) returns (r: seq<seq<real>>)
    requires Shaped(a, |a|, n) && Shaped(b, |a|, n)
    ensures r == AverageRows(a, b, n)
  {
    r := [];
    for p := 0 to |a|
      invariant |r| == p && forall l :: 0 <= l < p ==> r[l] == AverageRows(a, b, n)[l]
    {
      var row := [];
      for i := 0 to n
        invariant |row| == i && forall l :: 0 <= l < i ==> row[l] == (a[p][l] + b[p][l]) / 2.0
      {
        var avg := a[p][i] + b[p][i];
        row := row + [avg / 2.0];
      }
      r := r + [row];
    }
  }

  /** One full step: divisor, gain vector, corrected coefficients and the
   *  new gain matrix, in the order of `update`. */
  method Step(c: seq<seq<real>>, g: seq<seq<real>>, pred: seq<real>, x: seq<real>, target: seq<real>,
              n: nat, lambda: real)
    returns (c': seq<seq<real>>, g': seq<seq<real>>)
    requires IsSquare(g, n) && n <= |x| && Shaped(c, |c|, n) && |pred| >= |c| && |target| >= |c|
    requires lambda != 0.0 && Divisor(g, x, n, lambda) != 0.0
    ensures c' == UpdatedCoefficients(c, target, pred, GainVector(g, x, n, lambda), n)
    ensures g' == UpdatedGain(g, GainVector(g, x, n, lambda), x, n, lambda)
    ensures pred == Predictions(c, x, n) ==> ErrorsScaled(c', g, x, target, pred, n, lambda)
  {
    if pred == Predictions(c, x, n) {
      ErrorsAfterUpdate(c, g, x, target, pred, n, lambda);
    }
    var gx := MatVec(g, x, n);
    var divisor := SumDivisor(x, gx, n, lambda);
    var k := DivideVector(gx, n, divisor);
    assert k == GainVector(g, x, n, lambda);
    c' := MoveCoefficients(c, target, pred, k, n);
    var m := RankOneMatrix(k, x, n);
    var prod := MatMul(m, g, n);
    g' := DivideMatrix(prod, n, lambda);
  }
}
