/** `ConditionRotatingRectangle`: a hyperrectangle given by center, stretch
 *  and d(d-1)/2 rotation angles, matched through an inverse affine transform
 *  into the unit cube. It keeps the same `changed` flag and match cache as
 *  the rotating ellipsoid. */
module RotatingRectangle {
  import opened Wrappers
  import opened Geometry
  import opened Variation
  import opened Rotation
  import Matrix
  import RandomGen
  import XCSFConstants
  import XCSFUtils

  /** `calculateMaxDistance`: the largest absolute coordinate of the input
   *  in the rectangle's own coordinates. */
  function MaxDistance(inverse: seq<seq<real>>, input: seq<real>, d: nat): real
    requires Homogeneous(inverse, d) && |input| >= d
  {
    MaxAbs(Local(inverse, input, d))
  }

  /** An input matches exactly when every local coordinate lies in (-1, 1). */
  lemma {:induction false} MatchesInside(inverse: seq<seq<real>>, input: seq<real>, d: nat)
    requires Homogeneous(inverse, d) && |input| >= d
    ensures MaxDistance(inverse, input, d) < 1.0 <==>
      forall i :: 0 <= i < d ==> -1.0 < Local(inverse, input, d)[i] < 1.0
  {
    MaxAbsBelow(Local(inverse, input, d), 1.0);
  }

  /** A corner of the unit cube: every coordinate is 1 or -1. */
  ghost predicate IsCorner(c: seq<real>, d: nat)
  {
    |c| == d && forall i :: 0 <= i < d ==> c[i] == 1.0 || c[i] == -1.0
  }

  /** The image of corner `c` under the composed transform stays in the
   *  closed unit cube. */
  ghost predicate CornerInside(m: seq<seq<real>>, d: nat, c: seq<real>)
    requires Matrix.IsSquare(m, d + 1) && |c| == d
  {
    forall i :: 0 <= i < d ==> Abs(Matrix.MatVecExt(m, c, d)[i]) <= 1.0
  }

  /** The recursion of `checkEdges`: the coordinates in `prefix` are fixed,
   *  the next one is tried as 1, then as -1. */
  ghost predicate AllCornersFrom(m: seq<seq<real>>, d: nat, prefix: seq<real>)
    requires Matrix.IsSquare(m, d + 1) && |prefix| <= d
    decreases d - |prefix|
  {
    if |prefix| == d then CornerInside(m, d, prefix)
    else AllCornersFrom(m, d, prefix + [1.0]) && AllCornersFrom(m, d, prefix + [-1.0])
  }

  /** The generality test of `isMoreGeneral`, on the composed transform. */
  ghost predicate MoreGeneral(m: seq<seq<real>>, d: nat)
    requires Matrix.IsSquare(m, d + 1)
  {
    AllCornersFrom(m, d, [])
  }

  /** The recursion visits exactly the corners that extend its prefix. */
  lemma {:induction false} AllCornersFromEvery(m: seq<seq<real>>, d: nat, prefix: seq<real>)
    requires Matrix.IsSquare(m, d + 1) && |prefix| <= d
    requires forall i :: 0 <= i < |prefix| ==> prefix[i] == 1.0 || prefix[i] == -1.0
    ensures AllCornersFrom(m, d, prefix) <==>
      forall c :: IsCorner(c, d) && c[..|prefix|] == prefix ==> CornerInside(m, d, c)
    decreases d - |prefix|
  {
    var n := |prefix|;
    if n == d {
      forall c | IsCorner(c, d) && c[..n] == prefix
        ensures c == prefix
      {
        assert c == c[..n];
      }
    } else {
      var up := prefix + [1.0];
      var down := prefix + [-1.0];
      AllCornersFromEvery(m, d, up);
      AllCornersFromEvery(m, d, down);
      forall c | IsCorner(c, d) && c[..n] == prefix
        ensures c[..n + 1] == up || c[..n + 1] == down
      {
        assert c[..n + 1] == c[..n] + [c[n]];
      }
      forall c | IsCorner(c, d) && (c[..n + 1] == up || c[..n + 1] == down)
        ensures c[..n] == prefix
      {
        assert c[..n] == c[..n + 1][..n];
      }
    }
  }

  /** Hence `isMoreGeneral` holds exactly when every corner of the unit cube
   *  is mapped into the closed unit cube. */
  lemma {:induction false} MoreGeneralEveryCorner(m: seq<seq<real>>, d: nat)
    requires Matrix.IsSquare(m, d + 1)
    ensures MoreGeneral(m, d) <==> forall c :: IsCorner(c, d) ==> CornerInside(m, d, c)
  {
    AllCornersFromEvery(m, d, []);
    forall c | IsCorner(c, d)
      ensures c[..0] == []
    {
    }
  }

  /** `checkEdges(dim)`: at full depth the corner in the buffer is mapped and
   *  tested; otherwise coordinate `dim` is set to 1, then to -1, failing
   *  fast. Only the coordinates below `dim` are read from `corner`. */
  method CheckEdges(m: seq<seq<real>>, d: nat, dim: nat, corner: seq<real>) returns (ok: bool)
    requires Matrix.IsSquare(m, d + 1) && dim <= d && |corner| == d
    ensures ok <==> AllCornersFrom(m, d, corner[..dim])
    decreases d - dim
  {
    if dim == d {
      var image := Matrix.MatVecExt(m, corner, d);
      assert corner[..d] == corner;
      for i := 0 to d
        invariant forall k :: 0 <= k < i ==> Abs(image[k]) <= 1.0
      {
        if Abs(image[i]) > 1.0 {
          return false;
        }
      }
      return true;
    }
    var c1 := corner[dim := 1.0];
    assert c1[..dim + 1] == corner[..dim] + [1.0];
    ok := CheckEdges(m, d, dim + 1, c1);
    if !ok {
      return false;
    }
    var c2 := c1[dim := -1.0];
    assert c2[..dim + 1] == corner[..dim] + [-1.0];
    ok := CheckEdges(m, d, dim + 1, c2);
  }

  class ConditionRotatingRectangle {
    const dimension: nat
    /** How `setTransform` and `setInverseTransform` build the matrices. */
    const tf: Transforms
    var center: seq<real>
    var stretch: seq<real>
    var angle: seq<real>
    var transform: seq<seq<real>>
    var inverseTransform: seq<seq<real>>
    /** Center, stretch or angles changed since the transforms were built. */
    var changed: bool
    /** The input whose distance is cached; `None` stands for Java's `null`. */
    var conditionInput: Option<seq<real>>
    var maxDistance: real

    ghost predicate Valid()
      reads this
    {
      |center| == dimension && |stretch| == dimension && Positive(stretch) &&
      |angle| == AngleCount(dimension) &&
      WellShaped(tf, dimension) &&
      Homogeneous(transform, dimension) && Homogeneous(inverseTransform, dimension) &&
      (conditionInput.Some? ==> |conditionInput.value| == dimension)
    }

    /** The transforms are those of the current parameters. */
    ghost predicate Current()
      reads this
    {
      transform == tf.forward(center, stretch, angle) &&
      inverseTransform == tf.inverse(center, stretch, angle)
    }

    /** As long as `changed` is clear, the transforms are up to date. */
    ghost predicate Consistent()
      reads this
    {
      !changed ==> Current()
    }

    /** The cached distance belongs to the cached input and the current
     *  inverse transform. */
    ghost predicate CacheConsistent()
      reads this
      requires Valid()
    {
      conditionInput.Some? ==> maxDistance == MaxDistance(inverseTransform, conditionInput.value, dimension)
    }

    ghost function Distance(input: seq<real>): real
      reads this
      requires Valid() && |input| == dimension
    {
      MaxDistance(inverseTransform, input, dimension)
    }

    /** The covering constructor: centered on the input, stretches and
     *  angles drawn at random, then `recalculateTransformationMatrix`. */
    constructor Cover(input: seq<real>, p: XCSFConstants.Params, tf: Transforms, rng: RandomGen.Random)
      requires XCSFConstants.Sane(p) && WellShaped(tf, |input|) && rng.Valid()
      modifies rng
      ensures Valid() && Current() && !changed && CacheConsistent() && rng.Valid()
      ensures dimension == |input| && this.tf == tf && center == input && conditionInput.None?
      ensures forall i :: 0 <= i < dimension ==> CoverStretch(stretch[i], p)
      ensures forall i :: 0 <= i < |angle| ==> 0.0 < angle[i] < XCSFConstants.UpperRotationBound
    {
      dimension := |input|;
      this.tf := tf;
      center := input;
      var s := CoverStretches(|input|, p, rng);
      stretch := s;
      var a := CoverAngles(AngleCount(|input|), rng);
      angle := a;
      transform := tf.forward(input, s, a);
      inverseTransform := tf.inverse(input, s, a);
      changed := false;
      conditionInput := None;
      maxDistance := 0.0;
    }

    /** The private constructor followed by the copies of `reproduce`. */
    constructor Copy(tf: Transforms, center: seq<real>, stretch: seq<real>, angle: seq<real>,
                     transform: seq<seq<real>>, inverseTransform: seq<seq<real>>)
      requires |center| == |stretch| && Positive(stretch) && |angle| == AngleCount(|center|)
      requires WellShaped(tf, |center|) && |transform| >= |center| && |inverseTransform| >= |center|
      requires forall i :: 0 <= i < |center| ==> |transform[i]| == |inverseTransform[i]| == |center| + 1
      ensures Valid() && CacheConsistent() && !changed && conditionInput.None?
      ensures dimension == |center| && this.tf == tf
      ensures this.center == center && this.stretch == stretch && this.angle == angle
      ensures this.transform == CloneRows(transform, |center|)
      ensures this.inverseTransform == CloneRows(inverseTransform, |center|)
    {
      dimension := |center|;
      this.tf := tf;
      this.center := center;
      this.stretch := stretch;
      this.angle := angle;
      this.transform := CloneRows(transform, |center|);
      this.inverseTransform := CloneRows(inverseTransform, |center|);
      changed := false;
      conditionInput := None;
      maxDistance := 0.0;
    }

    /** `recalculateTransformationMatrix`: both transforms from the current
     *  parameters; clears `changed` and the cached input. */
    method Recalculate()
      requires Valid()
      modifies this
      ensures center == old(center) && stretch == old(stretch) && angle == old(angle)
      ensures maxDistance == old(maxDistance)
      ensures Valid() && Current() && !changed && conditionInput.None?
    {
      inverseTransform := tf.inverse(center, stretch, angle);
      transform := tf.forward(center, stretch, angle);
      changed := false;
      conditionInput := None;
    }

    /** `calculateMaxDistance`: `multiplyExtended` into a scratch vector,
     *  then its largest absolute entry, written to `maxDistance`. */
    method CalculateMaxDistance(input: seq<real>)
      requires Valid() && |input| == dimension
      modifies this
      ensures center == old(center) && stretch == old(stretch) && angle == old(angle)
      ensures transform == old(transform) && inverseTransform == old(inverseTransform)
      ensures changed == old(changed) && conditionInput == old(conditionInput)
      ensures maxDistance == MaxDistance(inverseTransform, input, dimension)
    {
      var tmp := Local(inverseTransform, input, dimension);
      var m := 0.0;
      for i := 0 to dimension
        invariant m == MaxAbs(tmp[..i])
      {
        assert tmp[..i + 1][..i] == tmp[..i];
        var relativeDist := Abs(tmp[i]);
        if relativeDist > m {
          m := relativeDist;
        }
      }
      assert tmp[..dimension] == tmp;
      maxDistance := m;
    }

    /** The cache step shared by `doesMatch` and `getActivity`. */
    method Refresh(input: seq<real>)
      requires Valid() && |input| == dimension
      modifies this
      ensures center == old(center) && stretch == old(stretch) && angle == old(angle)
      ensures transform == old(transform) && inverseTransform == old(inverseTransform)
      ensures changed == old(changed)
      ensures Valid() && conditionInput == Some(input)
      ensures old(conditionInput) == Some(input) ==> maxDistance == old(maxDistance)
      ensures old(conditionInput) != Some(input) ==> maxDistance == Distance(input)
      ensures old(CacheConsistent()) ==> CacheConsistent()
    {
      var hit := false;
      if conditionInput.Some? {
        XCSFUtils.ValuesEqualSameLength(conditionInput.value, input);
        hit := XCSFUtils.ValuesEqual(conditionInput.value, input) == Success(true);
      }
      if !hit {
        CalculateMaxDistance(input);
        conditionInput := Some(input);
      }
    }

    /** `doesMatch`: the cached maximum distance is below 1. */
    method DoesMatch(input: seq<real>) returns (b: bool)
      requires Valid() && |input| == dimension
      modifies this
      ensures center == old(center) && stretch == old(stretch) && angle == old(angle)
      ensures transform == old(transform) && inverseTransform == old(inverseTransform)
      ensures changed == old(changed)
      ensures Valid() && conditionInput == Some(input)
      ensures old(CacheConsistent()) ==> CacheConsistent() && (b <==> Distance(input) < 1.0)
      ensures old(conditionInput) == Some(input) ==> maxDistance == old(maxDistance)
      ensures b <==> maxDistance < 1.0
    {
      Refresh(input);
      b := maxDistance < 1.0;
    }

    /** `getActivity`: `exp(-maxDistance)`, from the same cache. */
    method GetActivity(input: seq<real>, exp: real -> real) returns (a: real)
      requires Valid() && |input| == dimension
      modifies this
      ensures center == old(center) && stretch == old(stretch) && angle == old(angle)
      ensures transform == old(transform) && inverseTransform == old(inverseTransform)
      ensures changed == old(changed)
      ensures Valid() && conditionInput == Some(input)
      ensures old(CacheConsistent()) ==> CacheConsistent() && a == exp(-Distance(input))
      ensures old(conditionInput) == Some(input) ==> maxDistance == old(maxDistance)
      ensures a == exp(-maxDistance)
    {
      Refresh(input);
      a := exp(-maxDistance);
    }

    /** `isMoreGeneral`: compose this inverse transform with the other's
     *  forward transform and test every corner of the unit cube with
     *  `checkEdges`. */
    method IsMoreGeneral(other: ConditionRotatingRectangle) returns (b: bool)
      requires Valid() && other.Valid() && other.dimension == dimension
      ensures b <==> MoreGeneral(Matrix.MatMul(inverseTransform, other.transform, dimension + 1), dimension)
    {
      var m := Matrix.MatMul(inverseTransform, other.transform, dimension + 1);
      var corner := seq(dimension, _ => 0.0);
      b := CheckEdges(m, dimension, 0, corner);
      assert corner[..0] == [];
    }

    /** `getVolume`: the product of the doubled stretches. */
    method GetVolume() returns (v: real)
      requires Valid()
      ensures v == Volume(stretch) && v > 0.0
    {
      v := ComputeVolume(stretch);
      VolumePositive(stretch);
    }

    /** `equals`: center, stretch and angles agree; the matrices are not
     *  compared. */
    method Equals(other: ConditionRotatingRectangle) returns (b: bool)
      requires Valid() && other.Valid() && other.dimension == dimension
      ensures b <==> center == other.center && stretch == other.stretch && angle == other.angle
    {
      b := SameShape(center, stretch, other.center, other.stretch);
      if b {
        b := SameAngles(angle, other.angle);
      }
    }

    /** `reproduce`: parameters and transform rows copied into a fresh
     *  condition, whose last rows are set to the unit row; the copy starts
     *  with `changed` clear and no cached input. */
    method Reproduce() returns (c: ConditionRotatingRectangle)
      requires Valid()
      ensures fresh(c) && c.Valid() && c.CacheConsistent() && !c.changed && c.conditionInput.None?
      ensures c.dimension == dimension && c.tf == tf
      ensures c.center == center && c.stretch == stretch && c.angle == angle
      ensures c.transform == transform && c.inverseTransform == inverseTransform
      ensures Current() ==> c.Current()
    {
      c := new ConditionRotatingRectangle.Copy(tf, center, stretch, angle, transform, inverseTransform);
      CloneExact(transform, dimension);
      CloneExact(inverseTransform, dimension);
    }

    /** `crossover`: both `changed` flags are cleared; then, with
     *  probability pX, center, stretch and angle components are exchanged
     *  on fair coins, and both flags are set if anything was exchanged. The
     *  transforms and match caches are left as they are. */
    method Crossover(other: ConditionRotatingRectangle, p: XCSFConstants.Params, rng: RandomGen.Random)
      requires Valid() && other.Valid() && other.dimension == dimension && other != this
      requires rng.Valid()
      modifies this, other, rng
      ensures transform == old(transform) && inverseTransform == old(inverseTransform)
      ensures other.transform == old(other.transform) && other.inverseTransform == old(other.inverseTransform)
      ensures conditionInput == old(conditionInput) && maxDistance == old(maxDistance)
      ensures other.conditionInput == old(other.conditionInput) && other.maxDistance == old(other.maxDistance)
      ensures Valid() && other.Valid() && rng.Valid()
      ensures other.changed == changed
      ensures exists fc, fs, fa ::
        FlippedAt(center, other.center, old(center), old(other.center), fc) &&
        FlippedAt(stretch, other.stretch, old(stretch), old(other.stretch), fs) &&
        FlippedAt(angle, other.angle, old(angle), old(other.angle), fa) &&
        (changed <==> fc != {} || fs != {} || fa != {})
      ensures !changed ==>
        center == old(center) && stretch == old(stretch) && angle == old(angle) &&
        other.center == old(other.center) && other.stretch == old(other.stretch) && other.angle == old(other.angle)
      ensures RandomGen.Lehmer(old(rng.seed)) as real / RandomGen.M as real >= p.pX ==> !changed
      ensures old(Current()) && old(other.Current()) ==> Consistent() && other.Consistent()
    {
      changed, other.changed := false, false;
      var u := rng.UniRand();
      ghost var fc: set<int> := {};
      ghost var fs: set<int> := {};
      ghost var fa: set<int> := {};
      if u < p.pX {
        var anyC, anyS, anyA;
        center, other.center, anyC, fc := SwapSome(center, other.center, rng);
        stretch, other.stretch, anyS, fs := SwapSome(stretch, other.stretch, rng);
        angle, other.angle, anyA, fa := SwapSome(angle, other.angle, rng);
        changed := anyC || anyS || anyA;
        other.changed := changed;
      }
      CrossoverKeepsPositive(stretch, other.stretch, old(stretch), old(other.stretch), fs);
      assert FlippedAt(center, other.center, old(center), old(other.center), fc);
      assert FlippedAt(stretch, other.stretch, old(stretch), old(other.stretch), fs);
      assert FlippedAt(angle, other.angle, old(angle), old(other.angle), fa);
      if !changed {
        NoFlipUnchanged(center, other.center, old(center), old(other.center));
        NoFlipUnchanged(stretch, other.stretch, old(stretch), old(other.stretch));
        NoFlipUnchanged(angle, other.angle, old(angle), old(other.angle));
      }
    }

    /** `mutation` with probability pM / (2·dimension + angle count) per
     *  allele. When anything has changed so far, the center moves by the
     *  mutation vector mapped through the linear part of the current
     *  transform, each component clamped to [0, 1]; stretches are scaled by
     *  factors in (0.5, 2); angles turn by less than π/4 and are wrapped.
     *  If anything changed (here or in a preceding crossover), the
     *  transforms are rebuilt and the cache is dropped. `shift` is the
     *  mutation vector, `shifted` whether it was applied and `rebuilt`
     *  whether the transforms were recalculated. */
    method Mutation(p: XCSFConstants.Params, rng: RandomGen.Random)
      returns (ghost shift: seq<real>, ghost shifted: bool, ghost rebuilt: bool)
      requires Valid() && rng.Valid()
      modifies this, rng
      ensures Valid() && rng.Valid() && !changed
      ensures |shift| == dimension && forall i :: 0 <= i < dimension ==> -1.0 < shift[i] < 1.0
      ensures old(changed) ==> shifted
      ensures !shifted ==> forall i :: 0 <= i < dimension ==> shift[i] == 0.0
      ensures center == if shifted then Shifted(old(center), Matrix.MatVec(old(transform), shift, dimension))
                        else old(center)
      ensures exists mutated :: StretchesMutated(stretch, old(stretch), mutated)
      ensures exists mutated :: AnglesMutated(angle, old(angle), mutated)
      ensures rebuilt <==> shifted || stretch != old(stretch) || angle != old(angle)
      ensures rebuilt ==> Current() && conditionInput.None?
      ensures !rebuilt ==>
        transform == old(transform) && inverseTransform == old(inverseTransform) &&
        conditionInput == old(conditionInput)
      ensures maxDistance == old(maxDistance)
      ensures old(Consistent()) ==> Current()
    {
      var probability := MutationProbability(p.pM, 2 * dimension + |angle|);
      var c, st, a, ch;
      c, st, a, ch, shift, shifted := MutateParameters(center, stretch, angle, transform, changed, probability, rng);
      center, stretch, angle, changed := c, st, a, ch;
      rebuilt := changed;
      if changed {
        Recalculate();
      }
    }
  }

}
