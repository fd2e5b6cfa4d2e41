/** `ConditionRectangle`: an axis-parallel hyperrectangle given by a center
 *  and a per-dimension stretch (half the side length). The last input and
 *  its distance are cached so that `doesMatch` and `getActivity` on the same
 *  input compute the distance once. */
module Rectangle {
  import opened Wrappers
  import opened Geometry
  import RandomGen
  import XCSFConstants
  import XCSFUtils
  import opened Variation

  /** Box `(c2, s2)` lies inside box `(c1, s1)` in every dimension. */
  ghost predicate Contains(c1: seq<real>, s1: seq<real>, c2: seq<real>, s2: seq<real>)
    requires |c1| == |s1| == |c2| == |s2|
  {
    forall i :: 0 <= i < |c1| ==> c1[i] - s1[i] <= c2[i] - s2[i] && c2[i] + s2[i] <= c1[i] + s1[i]
  }

  lemma {:induction false} ContainsReflexive(c: seq<real>, s: seq<real>)
    requires |c| == |s|
    ensures Contains(c, s, c, s)
  {
  }

  lemma {:induction false} ContainsTransitive(c1: seq<real>, s1: seq<real>, c2: seq<real>, s2: seq<real>, c3: seq<real>, s3: seq<real>)
    requires |c1| == |s1| == |c2| == |s2| == |c3| == |s3|
    requires Contains(c1, s1, c2, s2) && Contains(c2, s2, c3, s3)
    ensures Contains(c1, s1, c3, s3)
  {
  }

  /** The relative maximum distance of `calculateMaxDistance`. */
  function MaxDistance(input: seq<real>, center: seq<real>, stretch: seq<real>): real
    requires |input| >= |center| == |stretch| && Positive(stretch)
  {
    MaxAbs(Offsets(input, center, stretch))
  }

  /** A rectangle matches exactly the inputs strictly inside it. */
  lemma {:induction false} MatchesInside(input: seq<real>, center: seq<real>, stretch: seq<real>)
    requires |input| >= |center| == |stretch| && Positive(stretch)
    ensures MaxDistance(input, center, stretch) < 1.0 <==>
      forall i :: 0 <= i < |center| ==> Abs(input[i] - center[i]) < stretch[i]
  {
    var xs := Offsets(input, center, stretch);
    MaxAbsBelow(xs, 1.0);
    forall i | 0 <= i < |center|
      ensures Abs(xs[i]) < 1.0 <==> Abs(input[i] - center[i]) < stretch[i]
    {
      OffsetBelowOne(input[i] - center[i], stretch[i]);
    }
  }

  lemma {:induction false} OffsetBelowOne(d: real, s: real)
    requires s > 0.0
    ensures Abs(d / s) < 1.0 <==> Abs(d) < s
  {
    QuotientBelowOne(d, s);
    QuotientBelowOne(-d, s);
    assert (-d) / s == -(d / s);
  }

  /** A more general rectangle matches every input the other one matches. */
  lemma {:induction false} ContainsCoversMatches(input: seq<real>, c1: seq<real>, s1: seq<real>, c2: seq<real>, s2: seq<real>)
    requires |input| >= |c1| && |c1| == |s1| == |c2| == |s2| && Positive(s1) && Positive(s2)
    requires Contains(c1, s1, c2, s2)
    ensures MaxDistance(input, c2, s2) < 1.0 ==> MaxDistance(input, c1, s1) < 1.0
  {
    MatchesInside(input, c1, s1);
    MatchesInside(input, c2, s2);
  }

  /** Every rectangle matches its own center, at distance 0. */
  lemma {:induction false} CenterMatches(center: seq<real>, stretch: seq<real>)
    requires |center| == |stretch| && Positive(stretch)
    ensures MaxDistance(center, center, stretch) == 0.0
  {
    MatchesInside(center, center, stretch);
    MaxAbsAttained(Offsets(center, center, stretch));
  }

  class ConditionRectangle {
    const dimension: nat
    var center: seq<real>
    var stretch: seq<real>
    /** The input whose distance is cached; `None` stands for Java's `null`. */
    var conditionInput: Option<seq<real>>
    var maxDistance: real

    ghost predicate Valid()
      reads this
    {
      |center| == dimension && |stretch| == dimension && Positive(stretch) &&
      (conditionInput.Some? ==> |conditionInput.value| == dimension)
    }

    /** The cached distance belongs to the cached input and the current
     *  shape. */
    ghost predicate CacheConsistent()
      reads this
      requires Valid()
    {
      conditionInput.Some? ==> maxDistance == MaxDistance(conditionInput.value, center, stretch)
    }

    ghost function Distance(input: seq<real>): real
      reads this
      requires Valid() && |input| == dimension
    {
      MaxDistance(input, center, stretch)
    }

    /** The covering constructor: centered on the input with stretches drawn
     *  from [minConditionStretch, minConditionStretch + coverConditionRange). */
    constructor Cover(input: seq<real>, p: XCSFConstants.Params, rng: RandomGen.Random)
      requires XCSFConstants.Sane(p) && rng.Valid()
      modifies rng
      ensures Valid() && CacheConsistent() && rng.Valid()
      ensures dimension == |input| && center == input && conditionInput.None?
      ensures forall i :: 0 <= i < dimension ==> CoverStretch(stretch[i], p)
    {
      dimension := |input|;
      center := input;
      var s := CoverStretches(|input|, p, rng);
      stretch := s;
      conditionInput := None;
      maxDistance := 0.0;
    }

    /** The private constructor followed by `System.arraycopy` of both
     *  arrays: a copy with an empty cache. */
    constructor Copy(center: seq<real>, stretch: seq<real>)
      requires |center| == |stretch| && Positive(stretch)
      ensures Valid() && CacheConsistent()
      ensures dimension == |center| && this.center == center && this.stretch == stretch
      ensures conditionInput.None?
    {
      dimension := |center|;
      this.center := center;
      this.stretch := stretch;
      conditionInput := None;
      maxDistance := 0.0;
    }

    /** `calculateMaxDistance`: the offsets divided by the stretches, then
     *  their largest absolute value. */
    method CalculateMaxDistance(input: seq<real>)
      requires Valid() && |input| == dimension
      modifies this
      ensures center == old(center) && stretch == old(stretch) && conditionInput == old(conditionInput)
      ensures maxDistance == MaxDistance(input, center, stretch)
    {
      var tmp: seq<real> := [];
      for i := 0 to dimension
        invariant tmp == Offsets(input, center, stretch)[..i]
      {
        tmp := tmp + [(input[i] - center[i]) / stretch[i]];
      }
      assert tmp == Offsets(input, center, stretch);
      var m := 0.0;
      for i := 0 to dimension
        invariant m == MaxAbs(tmp[..i])
      {
        assert tmp[..i + 1][..i] == tmp[..i];
        var relativeDist := Abs(tmp[i]);
        if relativeDist > m {
          m := relativeDist;
        }
      }
      assert tmp[..dimension] == tmp;
      maxDistance := m;
    }

    /** The cache step shared by `doesMatch` and `getActivity`: the distance
     *  is recomputed unless the input equals the cached one element-wise. */
    method Refresh(input: seq<real>)
      requires Valid() && |input| == dimension
      modifies this
      ensures Valid() && conditionInput == Some(input)
      ensures center == old(center) && stretch == old(stretch)
      ensures old(conditionInput) == Some(input) ==> maxDistance == old(maxDistance)
      ensures old(conditionInput) != Some(input) ==> maxDistance == Distance(input)
      ensures old(CacheConsistent()) ==> CacheConsistent()
    {
      var hit := false;
      if conditionInput.Some? {
        XCSFUtils.ValuesEqualSameLength(conditionInput.value, input);
        hit := XCSFUtils.ValuesEqual(conditionInput.value, input) == Success(true);
      }
      if !hit {
        CalculateMaxDistance(input);
        conditionInput := Some(input);
      }
    }

    /** `doesMatch`: the cached relative distance is below 1. */
    method DoesMatch(input: seq<real>) returns (b: bool)
      requires Valid() && |input| == dimension
      modifies this
      ensures Valid() && conditionInput == Some(input)
      ensures center == old(center) && stretch == old(stretch)
      ensures old(CacheConsistent()) ==> CacheConsistent() && (b <==> Distance(input) < 1.0)
      ensures old(conditionInput) == Some(input) ==> maxDistance == old(maxDistance)
      ensures b <==> maxDistance < 1.0
    {
      Refresh(input);
      b := maxDistance < 1.0;
    }

    /** `getActivity`: `exp(-distance)`, from the same cache. */
    method GetActivity(input: seq<real>, exp: real -> real) returns (a: real)
      requires Valid() && |input| == dimension
      modifies this
      ensures Valid() && conditionInput == Some(input)
      ensures center == old(center) && stretch == old(stretch)
      ensures old(CacheConsistent()) ==> CacheConsistent() && a == exp(-Distance(input))
      ensures old(conditionInput) == Some(input) ==> maxDistance == old(maxDistance)
      ensures a == exp(-maxDistance)
    {
      Refresh(input);
      a := exp(-maxDistance);
    }

    /** `isMoreGeneral`: this rectangle contains the other in every
     *  dimension. */
    method IsMoreGeneral(other: ConditionRectangle) returns (b: bool)
      requires Valid() && other.Valid() && other.dimension == dimension
      ensures b <==> Contains(center, stretch, other.center, other.stretch)
    {
      for i := 0 to dimension
        invariant forall k :: 0 <= k < i ==>
          center[k] - stretch[k] <= other.center[k] - other.stretch[k] &&
          other.center[k] + other.stretch[k] <= center[k] + stretch[k]
      {
        var l1 := center[i] - stretch[i];
        var u1 := center[i] + stretch[i];
        var l2 := other.center[i] - other.stretch[i];
        var u2 := other.center[i] + other.stretch[i];
        if l1 > l2 || u1 < u2 {
          return false;
        }
      }
      return true;
    }

    /** `getVolume`: `Π 2·stretch_i`. */
    method GetVolume() returns (v: real)
      requires Valid()
      ensures v == Volume(stretch) && v > 0.0
    {
      v := ComputeVolume(stretch);
      VolumePositive(stretch);
    }

    /** `equals`: center and stretch agree component-wise. */
    method Equals(other: ConditionRectangle) returns (b: bool)
      requires Valid() && other.Valid() && other.dimension == dimension
      ensures b <==> center == other.center && stretch == other.stretch
    {
      b := SameShape(center, stretch, other.center, other.stretch);
    }

    /** `reproduce`: an equal, independent copy with an empty cache. */
    method Reproduce() returns (c: ConditionRectangle)
      requires Valid()
      ensures fresh(c) && c.Valid() && c.CacheConsistent()
      ensures c.dimension == dimension && c.center == center && c.stretch == stretch
      ensures c.conditionInput.None?
    {
      c := new ConditionRectangle.Copy(center, stretch);
    }

    /** `crossover`: with probability pX, every center and every stretch
     *  component is exchanged with the other condition's on a fair coin.
     *  The match caches are left as they are. */
    method Crossover(other: ConditionRectangle, p: XCSFConstants.Params, rng: RandomGen.Random)
      requires Valid() && other.Valid() && other.dimension == dimension && other != this
      requires rng.Valid()
      modifies this, other, rng
      ensures Valid() && other.Valid() && rng.Valid()
      ensures exists fc, fs :: FlippedAt(center, other.center, old(center), old(other.center), fc) &&
                              FlippedAt(stretch, other.stretch, old(stretch), old(other.stretch), fs)
      ensures conditionInput == old(conditionInput) && maxDistance == old(maxDistance)
      ensures other.conditionInput == old(other.conditionInput) && other.maxDistance == old(other.maxDistance)
      ensures RandomGen.Lehmer(old(rng.seed)) as real / RandomGen.M as real >= p.pX ==>
        center == old(center) && stretch == old(stretch) &&
        other.center == old(other.center) && other.stretch == old(other.stretch)
    {
      var u := rng.UniRand();
      ghost var fc: set<int> := {};
      ghost var fs: set<int> := {};
      if u < p.pX {
        var any;
        center, other.center, any, fc := SwapSome(center, other.center, rng);
        stretch, other.stretch, any, fs := SwapSome(stretch, other.stretch, rng);
      }
      assert FlippedAt(center, other.center, old(center), old(other.center), fc);
      assert FlippedAt(stretch, other.stretch, old(stretch), old(other.stretch), fs);
    }

    /** `mutation`: each center component moves, with probability
     *  pM / (2·dimension), by up to one stretch and is clamped to [0, 1];
     *  each stretch is then, with the same probability, scaled by a factor
     *  in (0.5, 2). The match cache is left as it is. */
    method Mutation(p: XCSFConstants.Params, rng: RandomGen.Random)
      requires Valid() && rng.Valid()
      modifies this, rng
      ensures Valid() && rng.Valid()
      ensures AllCenterMutated(center, old(center), old(stretch))
      ensures exists mutated :: StretchesMutated(stretch, old(stretch), mutated)
      ensures conditionInput == old(conditionInput) && maxDistance == old(maxDistance)
    {
      var probability := MutationProbability(p.pM, 2 * dimension);
      center := MutateCenters(center, stretch, probability, rng);
      var any;
      ghost var mutated;
      stretch, any, mutated := MutateStretches(stretch, probability, rng);
    }
  }

  /** `reproduce` yields a condition `equals` accepts. */
  lemma {:induction false} ReproduceEquals(a: ConditionRectangle, b: ConditionRectangle)
    requires a.Valid() && b.Valid() && b.dimension == a.dimension
    requires b.center == a.center && b.stretch == a.stretch
    ensures Contains(a.center, a.stretch, b.center, b.stretch) && Contains(b.center, b.stretch, a.center, a.stretch)
  {
  }
}
