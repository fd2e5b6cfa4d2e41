/** `ConditionEllipsoid`: an axis-parallel hyperellipsoid given by a center
 *  and a per-dimension stretch (the semi-axis lengths). Like the rectangle,
 *  it caches the last input and its squared relative distance. */
module Ellipsoid {
  import opened Wrappers
  import opened Geometry
  import opened Variation
  import RandomGen
  import XCSFConstants
  import XCSFUtils
  import Rectangle

  /** `calculateRelativeSquaredDistance`: `Σ ((x_i - c_i) / s_i)²`. */
  function SquaredDistance(input: seq<real>, center: seq<real>, stretch: seq<real>): real
    requires |input| >= |center| == |stretch| && Positive(stretch)
  {
    SumSquares(Offsets(input, center, stretch))
  }

  /** The distance is 0 exactly at the center. */
  lemma {:induction false} DistanceZeroIffCenter(input: seq<real>, center: seq<real>, stretch: seq<real>)
    requires |input| == |center| == |stretch| && Positive(stretch)
    ensures SquaredDistance(input, center, stretch) == 0.0 <==> input == center
  {
    var xs := Offsets(input, center, stretch);
    if input == center {
      SumSquaresZero(xs);
    }
    if SquaredDistance(input, center, stretch) == 0.0 {
      SumSquaresBounds(xs);
      forall k | 0 <= k < |center|
        ensures input[k] == center[k]
      {
        SquarePositive(xs[k]);
        var d := input[k] - center[k];
        assert xs[k] == d / stretch[k];
        assert xs[k] * stretch[k] == d;
      }
    }
  }

  /** An ellipsoid lies inside the rectangle with the same center and
   *  stretch: every input it matches, the rectangle matches too. */
  lemma {:induction false} InsideRectangle(input: seq<real>, center: seq<real>, stretch: seq<real>)
    requires |input| >= |center| == |stretch| && Positive(stretch)
    ensures SquaredDistance(input, center, stretch) < 1.0 ==> Rectangle.MaxDistance(input, center, stretch) < 1.0
  {
    var xs := Offsets(input, center, stretch);
    SumSquaresBounds(xs);
    forall k | 0 <= k < |xs|
      ensures SquaredDistance(input, center, stretch) < 1.0 ==> Abs(xs[k]) < 1.0
    {
      SquareAtLeastOne(xs[k]);
    }
    MaxAbsBelow(xs, 1.0);
  }

  /** The dimensions in which two conditions have identical center and
   *  stretch are skipped by `isMoreGeneral`. */
  ghost predicate SameAxis(c1: seq<real>, s1: seq<real>, c2: seq<real>, s2: seq<real>, dim: int)
    requires 0 <= dim < |c1| == |s1| == |c2| == |s2|
  {
    c1[dim] == c2[dim] && s1[dim] == s2[dim]
  }

  /** Both endpoints of the other ellipsoid's axis `dim`, `c2 ± s2[dim]·e_dim`,
   *  lie within relative squared distance 1 of ellipsoid `(c1, s1)`. */
  ghost predicate AxisEndpointsInside(c1: seq<real>, s1: seq<real>, c2: seq<real>, s2: seq<real>, dim: int)
    requires 0 <= dim < |c1| == |s1| == |c2| == |s2| && Positive(s1)
  {
    SquaredDistance(c2[dim := c2[dim] + s2[dim]], c1, s1) <= 1.0 &&
    SquaredDistance(c2[dim := c2[dim] - s2[dim]], c1, s1) <= 1.0
  }

  /** The generality test of `isMoreGeneral`. */
  ghost predicate MoreGeneral(c1: seq<real>, s1: seq<real>, c2: seq<real>, s2: seq<real>)
    requires |c1| == |s1| == |c2| == |s2| && Positive(s1)
  {
    forall dim :: 0 <= dim < |c1| ==>
      SameAxis(c1, s1, c2, s2, dim) || AxisEndpointsInside(c1, s1, c2, s2, dim)
  }

  /** An ellipsoid is as general as an identical one. */
  lemma {:induction false} MoreGeneralReflexive(c: seq<real>, s: seq<real>)
    requires |c| == |s| && Positive(s)
    ensures MoreGeneral(c, s, c, s)
  {
  }

  /** The tested endpoints are the two ends of the other ellipsoid's axis:
   *  they lie at relative squared distance exactly 1 from it. */
  lemma {:induction false} EndpointsOnSurface(c: seq<real>, s: seq<real>, dim: int)
    requires 0 <= dim < |c| == |s| && Positive(s)
    ensures SquaredDistance(c[dim := c[dim] + s[dim]], c, s) == 1.0
    ensures SquaredDistance(c[dim := c[dim] - s[dim]], c, s) == 1.0
  {
    UnitOffset(c, s, dim, 1.0);
    UnitOffset(c, s, dim, -1.0);
  }

  lemma {:induction false} UnitOffset(c: seq<real>, s: seq<real>, dim: int, sign: real)
    requires 0 <= dim < |c| == |s| && Positive(s) && (sign == 1.0 || sign == -1.0)
    ensures SquaredDistance(c[dim := c[dim] + sign * s[dim]], c, s) == 1.0
  {
    var xs := Offsets(c[dim := c[dim] + sign * s[dim]], c, s);
    assert xs[dim] == sign by {
      assert (c[dim] + sign * s[dim] - c[dim]) == sign * s[dim];
    }
    SumSquaresOneHot(xs, dim);
  }

  /** A vector that is zero except for ±1 at one index has squared norm 1. */
  lemma {:induction false} SumSquaresOneHot(xs: seq<real>, dim: int)
    requires 0 <= dim < |xs| && (xs[dim] == 1.0 || xs[dim] == -1.0)
    requires forall k :: 0 <= k < |xs| && k != dim ==> xs[k] == 0.0
    ensures SumSquares(xs) == 1.0
  {
    var n := |xs| - 1;
    if n == dim {
      SumSquaresZero(xs[..n]);
    } else {
      SumSquaresOneHot(xs[..n], dim);
    }
  }

  class ConditionEllipsoid {
    const dimension: nat
    var center: seq<real>
    var stretch: seq<real>
    /** The input whose distance is cached; `None` stands for Java's `null`. */
    var conditionInput: Option<seq<real>>
    var squareDistance: real

    ghost predicate Valid()
      reads this
    {
      |center| == dimension && |stretch| == dimension && Positive(stretch) &&
      (conditionInput.Some? ==> |conditionInput.value| == dimension)
    }

    /** The cached distance belongs to the cached input and the current
     *  shape. */
    ghost predicate CacheConsistent()
      reads this
      requires Valid()
    {
      conditionInput.Some? ==> squareDistance == SquaredDistance(conditionInput.value, center, stretch)
    }

    ghost function Distance(input: seq<real>): real
      reads this
      requires Valid() && |input| == dimension
    {
      SquaredDistance(input, center, stretch)
    }

    /** The covering constructor: centered on the input with stretches drawn
     *  from [minConditionStretch, minConditionStretch + coverConditionRange). */
    constructor Cover(input: seq<real>, p: XCSFConstants.Params, rng: RandomGen.Random)
      requires XCSFConstants.Sane(p) && rng.Valid()
      modifies rng
      ensures Valid() && CacheConsistent() && rng.Valid()
      ensures dimension == |input| && center == input && conditionInput.None?
      ensures forall i :: 0 <= i < dimension ==> CoverStretch(stretch[i], p)
    {
      dimension := |input|;
      center := input;
      var s := CoverStretches(|input|, p, rng);
      stretch := s;
      conditionInput := None;
      squareDistance := 0.0;
    }

    /** The private constructor followed by `System.arraycopy` of both
     *  arrays: a copy with an empty cache. */
    constructor Copy(center: seq<real>, stretch: seq<real>)
      requires |center| == |stretch| && Positive(stretch)
      ensures Valid() && CacheConsistent()
      ensures dimension == |center| && this.center == center && this.stretch == stretch
      ensures conditionInput.None?
    {
      dimension := |center|;
      this.center := center;
      this.stretch := stretch;
      conditionInput := None;
      squareDistance := 0.0;
    }

    /** `calculateRelativeSquaredDistance`: the offsets divided by the
     *  stretches (in a scratch array), then the sum of their squares. */
    method CalculateRelativeSquaredDistance(point: seq<real>) returns (dist: real)
      requires Valid() && |point| >= dimension
      ensures dist == SquaredDistance(point, center, stretch)
    {
      var tmp: seq<real> := [];
      for i := 0 to dimension
        invariant tmp == Offsets(point, center, stretch)[..i]
      {
        tmp := tmp + [(point[i] - center[i]) / stretch[i]];
      }
      assert tmp == Offsets(point, center, stretch);
      dist := 0.0;
      for i := 0 to dimension
        invariant dist == SumSquares(tmp[..i])
      {
        assert tmp[..i + 1][..i] == tmp[..i];
        dist := dist + tmp[i] * tmp[i];
      }
      assert tmp[..dimension] == tmp;
    }

    /** The cache step shared by `doesMatch` and `getActivity`. */
    method Refresh(input: seq<real>)
      requires Valid() && |input| == dimension
      modifies this
      ensures Valid() && conditionInput == Some(input)
      ensures center == old(center) && stretch == old(stretch)
      ensures old(conditionInput) == Some(input) ==> squareDistance == old(squareDistance)
      ensures old(conditionInput) != Some(input) ==> squareDistance == Distance(input)
      ensures old(CacheConsistent()) ==> CacheConsistent()
    {
      var hit := false;
      if conditionInput.Some? {
        XCSFUtils.ValuesEqualSameLength(conditionInput.value, input);
        hit := XCSFUtils.ValuesEqual(conditionInput.value, input) == Success(true);
      }
      if !hit {
        squareDistance := CalculateRelativeSquaredDistance(input);
        conditionInput := Some(input);
      }
    }

    /** `doesMatch`: the cached squared distance is below 1. */
    method DoesMatch(input: seq<real>) returns (b: bool)
      requires Valid() && |input| == dimension
      modifies this
      ensures Valid() && conditionInput == Some(input)
      ensures center == old(center) && stretch == old(stretch)
      ensures old(CacheConsistent()) ==> CacheConsistent() && (b <==> Distance(input) < 1.0)
      ensures old(conditionInput) == Some(input) ==> squareDistance == old(squareDistance)
      ensures b <==> squareDistance < 1.0
    {
      Refresh(input);
      b := squareDistance < 1.0;
    }

    /** `getActivity`: `exp(-squaredDistance)`, from the same cache. */
    method GetActivity(input: seq<real>, exp: real -> real) returns (a: real)
      requires Valid() && |input| == dimension
      modifies this
      ensures Valid() && conditionInput == Some(input)
      ensures center == old(center) && stretch == old(stretch)
      ensures old(CacheConsistent()) ==> CacheConsistent() && a == exp(-Distance(input))
      ensures old(conditionInput) == Some(input) ==> squareDistance == old(squareDistance)
      ensures a == exp(-squareDistance)
    {
      Refresh(input);
      a := exp(-squareDistance);
    }

    /** `isMoreGeneral`: for every dimension where the shapes differ, both
     *  endpoints of the other ellipsoid's axis are within distance 1. Only
     *  a scratch copy of the other center is written. */
    method IsMoreGeneral(other: ConditionEllipsoid) returns (b: bool)
      requires Valid() && other.Valid() && other.dimension == dimension
      ensures b <==> MoreGeneral(center, stretch, other.center, other.stretch)
    {
      for dim := 0 to dimension
        invariant forall k :: 0 <= k < dim ==>
          SameAxis(center, stretch, other.center, other.stretch, k) ||
          AxisEndpointsInside(center, stretch, other.center, other.stretch, k)
      {
        if center[dim] != other.center[dim] || stretch[dim] != other.stretch[dim] {
          var inside := CheckAxis(other, dim);
          if !inside {
            assert !SameAxis(center, stretch, other.center, other.stretch, dim);
            return false;
          }
        }
      }
      return true;
    }

    /** The body of `isMoreGeneral` for one differing dimension: move the
     *  scratch point to `center + stretch[dim]`, then to `center - stretch[dim]`
     *  (by subtracting `2·stretch[dim]`), testing the distance each time. */
    method CheckAxis(other: ConditionEllipsoid, dim: nat) returns (inside: bool)
      requires Valid() && other.Valid() && other.dimension == dimension && dim < dimension
      ensures inside <==> AxisEndpointsInside(center, stretch, other.center, other.stretch, dim)
    {
      var tmp := other.center;
      tmp := tmp[dim := tmp[dim] + other.stretch[dim]];
      var d1 := CalculateRelativeSquaredDistance(tmp);
      if d1 > 1.0 {
        return false;
      }
      tmp := tmp[dim := tmp[dim] - 2.0 * other.stretch[dim]];
      assert tmp == other.center[dim := other.center[dim] - other.stretch[dim]];
      var d2 := CalculateRelativeSquaredDistance(tmp);
      return d2 <= 1.0;
    }

    /** `equals`: center and stretch agree component-wise. */
    method Equals(other: ConditionEllipsoid) returns (b: bool)
      requires Valid() && other.Valid() && other.dimension == dimension
      ensures b <==> center == other.center && stretch == other.stretch
    {
      b := SameShape(center, stretch, other.center, other.stretch);
    }

    /** `reproduce`: an equal, independent copy with an empty cache. */
    method Reproduce() returns (c: ConditionEllipsoid)
      requires Valid()
      ensures fresh(c) && c.Valid() && c.CacheConsistent()
      ensures c.dimension == dimension && c.center == center && c.stretch == stretch
      ensures c.conditionInput.None?
    {
      c := new ConditionEllipsoid.Copy(center, stretch);
    }

    /** `crossover`: with probability pX, every center and every stretch
     *  component is exchanged with the other condition's on a fair coin.
     *  The match caches are left as they are. */
    method Crossover(other: ConditionEllipsoid, p: XCSFConstants.Params, rng: RandomGen.Random)
      requires Valid() && other.Valid() && other.dimension == dimension && other != this
      requires rng.Valid()
      modifies this, other, rng
      ensures Valid() && other.Valid() && rng.Valid()
      ensures exists fc, fs :: FlippedAt(center, other.center, old(center), old(other.center), fc) &&
                              FlippedAt(stretch, other.stretch, old(stretch), old(other.stretch), fs)
      ensures conditionInput == old(conditionInput) && squareDistance == old(squareDistance)
      ensures other.conditionInput == old(other.conditionInput) && other.squareDistance == old(other.squareDistance)
      ensures RandomGen.Lehmer(old(rng.seed)) as real / RandomGen.M as real >= p.pX ==>
        center == old(center) && stretch == old(stretch) &&
        other.center == old(other.center) && other.stretch == old(other.stretch)
    {
      var u := rng.UniRand();
      ghost var fc: set<int> := {};
      ghost var fs: set<int> := {};
      if u < p.pX {
        var any;
        center, other.center, any, fc := SwapSome(center, other.center, rng);
        stretch, other.stretch, any, fs := SwapSome(stretch, other.stretch, rng);
      }
      assert FlippedAt(center, other.center, old(center), old(other.center), fc);
      assert FlippedAt(stretch, other.stretch, old(stretch), old(other.stretch), fs);
    }

    /** `mutation`: each center component moves, with probability
     *  pM / (2·dimension), by up to one stretch and is clamped to [0, 1];
     *  each stretch is then, with the same probability, scaled by a factor
     *  in (0.5, 2). The match cache is left as it is. */
    method Mutation(p: XCSFConstants.Params, rng: RandomGen.Random)
      requires Valid() && rng.Valid()
      modifies this, rng
      ensures Valid() && rng.Valid()
      ensures AllCenterMutated(center, old(center), old(stretch))
      ensures exists mutated :: StretchesMutated(stretch, old(stretch), mutated)
      ensures conditionInput == old(conditionInput) && squareDistance == old(squareDistance)
    {
      var probability := MutationProbability(p.pM, 2 * dimension);
      center := MutateCenters(center, stretch, probability, rng);
      var any;
      ghost var mutated;
      stretch, any, mutated := MutateStretches(stretch, probability, rng);
    }
  }

  /** A covering ellipsoid matches the input it was built around. */
  lemma {:induction false} CoverMatches(input: seq<real>, stretch: seq<real>)
    requires |input| == |stretch| && Positive(stretch)
    ensures SquaredDistance(input, input, stretch) == 0.0
  {
    DistanceZeroIffCenter(input, input, stretch);
  }
}
