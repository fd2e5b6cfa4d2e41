/** Real-valued helpers the four condition shapes share: `Math.abs`, the
 *  clamp into the input space, the relative offsets of an input, the
 *  product of doubled stretches, and the random draws of mutation. */
module Geometry {
  import RandomGen
  import XCSFConstants

  function Abs(x: real): (r: real)
    ensures r >= 0.0 && (r == x || r == -x)
  {
    if x < 0.0 then -x else x
  }

  /** The product of two positive reals is positive. */
  lemma {:induction false} MulPositive(a: real, b: real)
    requires a > 0.0 && b > 0.0
    ensures a * b > 0.0
  {
  }

  /** For a positive divisor, the quotient is below 1 exactly when the
   *  dividend is below the divisor. */
  lemma {:induction false} QuotientBelowOne(d: real, s: real)
    requires s > 0.0
    ensures d / s < 1.0 <==> d < s
  {
    var q := d / s;
    assert q * s == d;
    if q < 1.0 {
      MulPositive(1.0 - q, s);
    } else if q > 1.0 {
      MulPositive(q - 1.0, s);
    }
  }

  /** A fraction in (-1, 1) of a positive step is shorter than the step. */
  lemma {:induction false} FractionBelow(f: real, s: real)
    requires -1.0 < f < 1.0 && s > 0.0
    ensures Abs(f * s) < s
  {
    MulPositive(1.0 - f, s);
    MulPositive(1.0 + f, s);
    assert (1.0 - f) * s == s - f * s;
    assert (1.0 + f) * s == s + f * s;
  }

  /** A number of absolute value at least 1 has a square of at least 1. */
  lemma {:induction false} SquareAtLeastOne(x: real)
    ensures Abs(x) >= 1.0 ==> x * x >= 1.0
    ensures x * x < 1.0 ==> Abs(x) < 1.0
  {
    var a := Abs(x);
    assert a * a == x * x by {
      if x < 0.0 {
        assert (-x) * (-x) == x * x;
      }
    }
    if a > 1.0 {
      MulPositive(a - 1.0, a + 1.0);
      assert (a - 1.0) * (a + 1.0) == a * a - 1.0;
    }
  }

  /** A nonzero number has a positive square. */
  lemma {:induction false} SquarePositive(x: real)
    ensures x != 0.0 ==> x * x > 0.0
  {
    if x > 0.0 {
      MulPositive(x, x);
    } else if x < 0.0 {
      MulPositive(-x, -x);
      assert (-x) * (-x) == x * x;
    }
  }

  /** All stretches are positive. */
  ghost predicate Positive(s: seq<real>)
  {
    forall k :: 0 <= k < |s| ==> s[k] > 0.0
  }

  /** The clamp of mutation: below `LOWER_BOUND` becomes the bound, above
   *  `UPPER_BOUND` becomes that bound. */
  function Clamp(x: real): (r: real)
    ensures XCSFConstants.LowerBound <= r <= XCSFConstants.UpperBound
    ensures XCSFConstants.LowerBound <= x <= XCSFConstants.UpperBound ==> r == x
  {
    if x < XCSFConstants.LowerBound then XCSFConstants.LowerBound
    else if x > XCSFConstants.UpperBound then XCSFConstants.UpperBound
    else x
  }

  /** Clamping into [0, 1] never moves a point that is already inside
   *  farther from it. */
  lemma {:induction false} ClampCloser(c0: real, x: real)
    requires XCSFConstants.LowerBound <= c0 <= XCSFConstants.UpperBound
    ensures Abs(Clamp(x) - c0) <= Abs(x - c0)
  {
  }

  /** `(input_i - center_i) / stretch_i` for every i below `|center|`. */
  function Offsets(input: seq<real>, center: seq<real>, stretch: seq<real>): (r: seq<real>)
    requires |input| >= |center| == |stretch| && Positive(stretch)
    ensures |r| == |center|
    ensures forall k :: 0 <= k < |r| ==> r[k] == (input[k] - center[k]) / stretch[k]
  {
    seq(|center|, k requires 0 <= k < |center| => (input[k] - center[k]) / stretch[k])
  }

  /** The largest absolute entry, starting from 0 as the distance loops do
   *  (an entry replaces the running maximum only when strictly larger). */
  function MaxAbs(xs: seq<real>): (r: real)
    ensures r >= 0.0
    ensures forall k :: 0 <= k < |xs| ==> Abs(xs[k]) <= r
  {
    if |xs| == 0 then 0.0
    else
      var m := MaxAbs(xs[..|xs| - 1]);
      assert forall k :: 0 <= k < |xs| - 1 ==> xs[k] == xs[..|xs| - 1][k];
      if Abs(xs[|xs| - 1]) > m then Abs(xs[|xs| - 1]) else m
  }

  /** The maximum is one of the entries, or 0. */
  lemma {:induction false} MaxAbsAttained(xs: seq<real>)
    ensures MaxAbs(xs) == 0.0 || exists k :: 0 <= k < |xs| && MaxAbs(xs) == Abs(xs[k])
  {
    if |xs| > 0 {
      var n := |xs| - 1;
      MaxAbsAttained(xs[..n]);
      if MaxAbs(xs) != Abs(xs[n]) && MaxAbs(xs) != 0.0 {
        var k :| 0 <= k < n && MaxAbs(xs[..n]) == Abs(xs[..n][k]);
        assert xs[..n][k] == xs[k];
      }
    }
  }

  /** The maximum stays below a positive bound exactly when every entry
   *  does. */
  lemma {:induction false} MaxAbsBelow(xs: seq<real>, b: real)
    requires b > 0.0
    ensures MaxAbs(xs) < b <==> forall k :: 0 <= k < |xs| ==> Abs(xs[k]) < b
  {
    MaxAbsAttained(xs);
  }

  /** `Σ x_i²`, summed in index order. */
  function SumSquares(xs: seq<real>): (r: real)
    ensures r >= 0.0
  {
    if |xs| == 0 then 0.0 else SumSquares(xs[..|xs| - 1]) + xs[|xs| - 1] * xs[|xs| - 1]
  }

  /** A zero vector has squared norm 0. */
  lemma {:induction false} SumSquaresZero(xs: seq<real>)
    requires forall k :: 0 <= k < |xs| ==> xs[k] == 0.0
    ensures SumSquares(xs) == 0.0
  {
    if |xs| > 0 {
      SumSquaresZero(xs[..|xs| - 1]);
    }
  }

  /** Every squared entry is bounded by the sum. */
  lemma {:induction false} SumSquaresBounds(xs: seq<real>)
    ensures forall k :: 0 <= k < |xs| ==> xs[k] * xs[k] <= SumSquares(xs)
  {
    if |xs| > 0 {
      var n := |xs| - 1;
      SumSquaresBounds(xs[..n]);
      forall k | 0 <= k < n
        ensures xs[k] * xs[k] <= SumSquares(xs)
      {
        assert xs[..n][k] == xs[k];
      }
    }
  }

  /** `Π (2 · stretch_i)`, as the volume loops multiply it up from 1. */
  function Volume(stretch: seq<real>): real
  {
    if |stretch| == 0 then 1.0 else Volume(stretch[..|stretch| - 1]) * (2.0 * stretch[|stretch| - 1])
  }

  /** Positive stretches give a positive volume. */
  lemma {:induction false} VolumePositive(stretch: seq<real>)
    requires Positive(stretch)
    ensures Volume(stretch) > 0.0
  {
    if |stretch| > 0 {
      VolumePositive(stretch[..|stretch| - 1]);
    }
  }

  /** The volume loop of `getVolume`. */
  method ComputeVolume(stretch: seq<real>) returns (volume: real)
    ensures volume == Volume(stretch)
  {
    volume := 1.0;
    for i := 0 to |stretch|
      invariant volume == Volume(stretch[..i])
    {
      assert stretch[..i + 1][..i] == stretch[..i];
      volume := volume * (2.0 * stretch[i]);
    }
    assert stretch[..|stretch|] == stretch;
  }

  /** The component loop every condition's `equals` runs: center and
   *  stretch compared index by index, stopping at the first difference. */
  method SameShape(center: seq<real>, stretch: seq<real>, otherCenter: seq<real>, otherStretch: seq<real>)
    returns (same: bool)
    requires |center| == |stretch| == |otherCenter| == |otherStretch|
    ensures same <==> center == otherCenter && stretch == otherStretch
  {
    for i := 0 to |center|
      invariant center[..i] == otherCenter[..i] && stretch[..i] == otherStretch[..i]
    {
      if center[i] != otherCenter[i] || stretch[i] != otherStretch[i] {
        return false;
      }
      assert center[..i + 1] == center[..i] + [center[i]];
      assert otherCenter[..i + 1] == otherCenter[..i] + [otherCenter[i]];
      assert stretch[..i + 1] == stretch[..i] + [stretch[i]];
      assert otherStretch[..i + 1] == otherStretch[..i] + [otherStretch[i]];
    }
    assert center[..|center|] == center && otherCenter[..|center|] == otherCenter;
    assert stretch[..|center|] == stretch && otherStretch[..|center|] == otherStretch;
    return true;
  }

  /** The stretch factor of mutation: `1 + u` (enlarge, when the first draw
   *  is below 0.5) or `1 - 0.5·u` (shrink), so always in (0.5, 2). */
  method StretchFactor(rng: RandomGen.Random) returns (f: real)
    requires rng.Valid()
    modifies rng
    ensures rng.Valid()
    ensures 0.5 < f < 2.0 && f != 1.0
  {
    f := 1.0;
    var coin := rng.UniRand();
    var u := rng.UniRand();
    if coin < 0.5 {
      f := f + u;
    } else {
      f := f - 0.5 * u;
    }
  }

  /** The center shift of mutation: `2·u - 1`, in (-1, 1). */
  method ShiftFactor(rng: RandomGen.Random) returns (f: real)
    requires rng.Valid()
    modifies rng
    ensures rng.Valid()
    ensures -1.0 < f < 1.0
  {
    var u := rng.UniRand();
    f := 2.0 * u - 1.0;
  }

  /** A scaled stretch between half and twice the old one, and not equal
   *  to it. */
  ghost predicate ScaledWithin(s: real, s0: real)
  {
    s0 > 0.0 && s0 * 0.5 < s < s0 * 2.0 && s != s0
  }

  lemma {:induction false} ScaledPositive(s0: real, f: real)
    requires s0 > 0.0 && 0.5 < f < 2.0 && f != 1.0
    ensures ScaledWithin(s0 * f, s0)
  {
    MulPositive(s0, f - 0.5);
    MulPositive(s0, 2.0 - f);
    if f > 1.0 {
      MulPositive(s0, f - 1.0);
    } else {
      MulPositive(s0, 1.0 - f);
    }
  }
}
