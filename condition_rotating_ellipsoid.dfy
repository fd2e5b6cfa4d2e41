/** `ConditionRotatingEllipsoid`: a hyperellipsoid given by center, stretch
 *  and d(d-1)/2 rotation angles, matched through an inverse affine transform
 *  into the unit sphere. The transforms are derived from the parameters and
 *  recomputed only when the `changed` flag says they are stale. */
module RotatingEllipsoid {
  import opened Wrappers
  import opened Geometry
  import opened Variation
  import opened Rotation
  import Matrix
  import RandomGen
  import XCSFConstants
  import XCSFUtils
  import RotatingRectangle

  /** `calculateRelativeSquaredDistance`: the squared norm of the input in
   *  the ellipsoid's own coordinates. */
  function SquaredDistance(inverse: seq<seq<real>>, input: seq<real>, d: nat): real
    requires Homogeneous(inverse, d) && |input| >= d
  {
    SumSquares(Local(inverse, input, d))
  }

  /** A rotated ellipsoid lies inside the rotated rectangle with the same
   *  inverse transform: whatever it matches, that rectangle matches too. */
  lemma {:induction false} InsideRotatedRectangle(inverse: seq<seq<real>>, input: seq<real>, d: nat)
    requires Homogeneous(inverse, d) && |input| >= d
    ensures SquaredDistance(inverse, input, d) < 1.0 ==> RotatingRectangle.MaxDistance(inverse, input, d) < 1.0
  {
    var xs := Local(inverse, input, d);
    SumSquaresBounds(xs);
    forall k | 0 <= k < |xs|
      ensures SquaredDistance(inverse, input, d) < 1.0 ==> Abs(xs[k]) < 1.0
    {
      SquareAtLeastOne(xs[k]);
    }
    MaxAbsBelow(xs, 1.0);
  }

  /** Row-wise image of `+e_dim` under the composed transform `m`: column
   *  `dim` plus the translation column, over the first d rows. */
  function PlusImage(m: seq<seq<real>>, d: nat, dim: nat): (v: seq<real>)
    requires Matrix.IsSquare(m, d + 1) && dim < d
    ensures |v| == d
  {
    seq(d, row requires 0 <= row < d => m[row][dim] + m[row][d])
  }

  /** Row-wise image of `-e_dim`. */
  function MinusImage(m: seq<seq<real>>, d: nat, dim: nat): (v: seq<real>)
    requires Matrix.IsSquare(m, d + 1) && dim < d
    ensures |v| == d
  {
    seq(d, row requires 0 <= row < d => -m[row][dim] + m[row][d])
  }

  /** The vector `sign·e_dim` of length d. */
  function Unit(d: nat, dim: nat, sign: real): (e: seq<real>)
    requires dim < d
    ensures |e| == d && e[dim] == sign
    ensures forall k :: 0 <= k < d && k != dim ==> e[k] == 0.0
  {
    seq(d, k requires 0 <= k < d => if k == dim then sign else 0.0)
  }

  /** The tested points are exactly the images of `±e_dim` under the
   *  extended product. */
  lemma {:induction false} ImagesOfUnitVectors(m: seq<seq<real>>, d: nat, dim: nat)
    requires Matrix.IsSquare(m, d + 1) && dim < d
    ensures PlusImage(m, d, dim) == Matrix.MatVecExt(m, Unit(d, dim, 1.0), d)
    ensures MinusImage(m, d, dim) == Matrix.MatVecExt(m, Unit(d, dim, -1.0), d)
  {
    forall row | 0 <= row < d
      ensures Matrix.Dot(m[row], Unit(d, dim, 1.0), d) == m[row][dim]
      ensures Matrix.Dot(m[row], Unit(d, dim, -1.0), d) == -m[row][dim]
    {
      Matrix.DotUnit(Unit(d, dim, 1.0), m[row], d, dim, 1.0);
      Matrix.DotSymmetric(m[row], Unit(d, dim, 1.0), d);
      Matrix.DotUnit(Unit(d, dim, -1.0), m[row], d, dim, -1.0);
      Matrix.DotSymmetric(m[row], Unit(d, dim, -1.0), d);
    }
  }

  /** Both unit-vector images of axis `dim` stay within the unit sphere. */
  ghost predicate AxisInside(m: seq<seq<real>>, d: nat, dim: nat)
    requires Matrix.IsSquare(m, d + 1) && dim < d
  {
    SumSquares(PlusImage(m, d, dim)) <= 1.0 && SumSquares(MinusImage(m, d, dim)) <= 1.0
  }

  /** The generality test of `isMoreGeneral`, on the composed transform. */
  ghost predicate MoreGeneral(m: seq<seq<real>>, d: nat)
    requires Matrix.IsSquare(m, d + 1)
  {
    forall dim :: 0 <= dim < d ==> AxisInside(m, d, dim)
  }

  /** The inner loop of `isMoreGeneral` for one axis: both squared lengths,
   *  summed row by row. */
  method AxisLengths(m: seq<seq<real>>, d: nat, dim: nat) returns (length1: real, length2: real)
    requires Matrix.IsSquare(m, d + 1) && dim < d
    ensures length1 == SumSquares(PlusImage(m, d, dim))
    ensures length2 == SumSquares(MinusImage(m, d, dim))
  {
    ghost var plus := PlusImage(m, d, dim);
    ghost var minus := MinusImage(m, d, dim);
    length1, length2 := 0.0, 0.0;
    for row := 0 to d
      invariant length1 == SumSquares(plus[..row])
      invariant length2 == SumSquares(minus[..row])
    {
      assert plus[..row + 1][..row] == plus[..row];
      assert minus[..row + 1][..row] == minus[..row];
      var v := m[row][dim] + m[row][d];
      length1 := length1 + v * v;
      v := -m[row][dim] + m[row][d];
      length2 := length2 + v * v;
    }
    assert plus[..d] == plus && minus[..d] == minus;
  }

  class ConditionRotatingEllipsoid {
    const dimension: nat
    /** How `setTransform` and `setInverseTransform` build the matrices. */
    const tf: Transforms
    var center: seq<real>
    var stretch: seq<real>
    var angle: seq<real>
    var transform: seq<seq<real>>
    var inverseTransform: seq<seq<real>>
    /** Center, stretch or angles changed since the transforms were built. */
    var changed: bool
    /** The input whose distance is cached; `None` stands for Java's `null`. */
    var conditionInput: Option<seq<real>>
    var squareDistance: real

    ghost predicate Valid()
      reads this
    {
      |center| == dimension && |stretch| == dimension && Positive(stretch) &&
      |angle| == AngleCount(dimension) &&
      WellShaped(tf, dimension) &&
      Homogeneous(transform, dimension) && Homogeneous(inverseTransform, dimension) &&
      (conditionInput.Some? ==> |conditionInput.value| == dimension)
    }

    /** The transforms are those of the current parameters. */
    ghost predicate Current()
      reads this
    {
      transform == tf.forward(center, stretch, angle) &&
      inverseTransform == tf.inverse(center, stretch, angle)
    }

    /** As long as `changed` is clear, the transforms are up to date. */
    ghost predicate Consistent()
      reads this
    {
      !changed ==> Current()
    }

    /** The cached distance belongs to the cached input and the current
     *  inverse transform. */
    ghost predicate CacheConsistent()
      reads this
      requires Valid()
    {
      conditionInput.Some? ==> squareDistance == SquaredDistance(inverseTransform, conditionInput.value, dimension)
    }

    ghost function Distance(input: seq<real>): real
      reads this
      requires Valid() && |input| == dimension
    {
      SquaredDistance(inverseTransform, input, dimension)
    }

    /** The covering constructor: centered on the input, stretches and
     *  angles drawn at random, then `recalculateTransformationMatrix`. */
    constructor Cover(input: seq<real>, p: XCSFConstants.Params, tf: Transforms, rng: RandomGen.Random)
      requires XCSFConstants.Sane(p) && WellShaped(tf, |input|) && rng.Valid()
      modifies rng
      ensures Valid() && Current() && !changed && CacheConsistent() && rng.Valid()
      ensures dimension == |input| && this.tf == tf && center == input && conditionInput.None?
      ensures forall i :: 0 <= i < dimension ==> CoverStretch(stretch[i], p)
      ensures forall i :: 0 <= i < |angle| ==> 0.0 < angle[i] < XCSFConstants.UpperRotationBound
    {
      dimension := |input|;
      this.tf := tf;
      center := input;
      var s := CoverStretches(|input|, p, rng);
      stretch := s;
      var a := CoverAngles(AngleCount(|input|), rng);
      angle := a;
      transform := tf.forward(input, s, a);
      inverseTransform := tf.inverse(input, s, a);
      changed := false;
      conditionInput := None;
      squareDistance := 0.0;
    }

    /** The private constructor followed by the copies of `reproduce`. */
    constructor Copy(tf: Transforms, center: seq<real>, stretch: seq<real>, angle: seq<real>,
                     transform: seq<seq<real>>, inverseTransform: seq<seq<real>>)
      requires |center| == |stretch| && Positive(stretch) && |angle| == AngleCount(|center|)
      requires WellShaped(tf, |center|) && |transform| >= |center| && |inverseTransform| >= |center|
      requires forall i :: 0 <= i < |center| ==> |transform[i]| == |inverseTransform[i]| == |center| + 1
      ensures Valid() && CacheConsistent() && !changed && conditionInput.None?
      ensures dimension == |center| && this.tf == tf
      ensures this.center == center && this.stretch == stretch && this.angle == angle
      ensures this.transform == CloneRows(transform, |center|)
      ensures this.inverseTransform == CloneRows(inverseTransform, |center|)
    {
      dimension := |center|;
      this.tf := tf;
      this.center := center;
      this.stretch := stretch;
      this.angle := angle;
      this.transform := CloneRows(transform, |center|);
      this.inverseTransform := CloneRows(inverseTransform, |center|);
      changed := false;
      conditionInput := None;
      squareDistance := 0.0;
    }

    /** `recalculateTransformationMatrix`: both transforms from the current
     *  parameters; clears `changed` and the cached input. */
    method Recalculate()
      requires Valid()
      modifies this
      ensures center == old(center) && stretch == old(stretch) && angle == old(angle)
      ensures squareDistance == old(squareDistance)
      ensures Valid() && Current() && !changed && conditionInput.None?
    {
      inverseTransform := tf.inverse(center, stretch, angle);
      transform := tf.forward(center, stretch, angle);
      changed := false;
      conditionInput := None;
    }

    /** `calculateRelativeSquaredDistance`: `multiplyExtended` into a
     *  scratch vector, then the sum of its squares. */
    method CalculateRelativeSquaredDistance(point: seq<real>) returns (dist: real)
      requires Valid() && |point| >= dimension
      ensures dist == SquaredDistance(inverseTransform, point, dimension)
    {
      var tmp := Local(inverseTransform, point, dimension);
      dist := 0.0;
      for i := 0 to dimension
        invariant dist == SumSquares(tmp[..i])
      {
        assert tmp[..i + 1][..i] == tmp[..i];
        dist := dist + tmp[i] * tmp[i];
      }
      assert tmp[..dimension] == tmp;
    }

    /** The cache step shared by `doesMatch` and `getActivity`. */
    method Refresh(input: seq<real>)
      requires Valid() && |input| == dimension
      modifies this
      ensures center == old(center) && stretch == old(stretch) && angle == old(angle)
      ensures transform == old(transform) && inverseTransform == old(inverseTransform)
      ensures changed == old(changed)
      ensures Valid() && conditionInput == Some(input)
      ensures old(conditionInput) == Some(input) ==> squareDistance == old(squareDistance)
      ensures old(conditionInput) != Some(input) ==> squareDistance == Distance(input)
      ensures old(CacheConsistent()) ==> CacheConsistent()
    {
      var hit := false;
      if conditionInput.Some? {
        XCSFUtils.ValuesEqualSameLength(conditionInput.value, input);
        hit := XCSFUtils.ValuesEqual(conditionInput.value, input) == Success(true);
      }
      if !hit {
        squareDistance := CalculateRelativeSquaredDistance(input);
        conditionInput := Some(input);
      }
    }

    /** `doesMatch`: the cached squared distance is below 1. */
    method DoesMatch(input: seq<real>) returns (b: bool)
      requires Valid() && |input| == dimension
      modifies this
      ensures center == old(center) && stretch == old(stretch) && angle == old(angle)
      ensures transform == old(transform) && inverseTransform == old(inverseTransform)
      ensures changed == old(changed)
      ensures Valid() && conditionInput == Some(input)
      ensures old(CacheConsistent()) ==> CacheConsistent() && (b <==> Distance(input) < 1.0)
      ensures old(conditionInput) == Some(input) ==> squareDistance == old(squareDistance)
      ensures b <==> squareDistance < 1.0
    {
      Refresh(input);
      b := squareDistance < 1.0;
    }

    /** `getActivity`: `exp(-squaredDistance)`, from the same cache. */
    method GetActivity(input: seq<real>, exp: real -> real) returns (a: real)
      requires Valid() && |input| == dimension
      modifies this
      ensures center == old(center) && stretch == old(stretch) && angle == old(angle)
      ensures transform == old(transform) && inverseTransform == old(inverseTransform)
      ensures changed == old(changed)
      ensures Valid() && conditionInput == Some(input)
      ensures old(CacheConsistent()) ==> CacheConsistent() && a == exp(-Distance(input))
      ensures old(conditionInput) == Some(input) ==> squareDistance == old(squareDistance)
      ensures a == exp(-squareDistance)
    {
      Refresh(input);
      a := exp(-squareDistance);
    }

    /** `isMoreGeneral`: compose this inverse transform with the other's
     *  forward transform; false as soon as the image of `+e_dim` or `-e_dim`
     *  has squared length above 1. */
    method IsMoreGeneral(other: ConditionRotatingEllipsoid) returns (b: bool)
      requires Valid() && other.Valid() && other.dimension == dimension
      ensures b <==> MoreGeneral(Matrix.MatMul(inverseTransform, other.transform, dimension + 1), dimension)
    {
      var m := Matrix.MatMul(inverseTransform, other.transform, dimension + 1);
      for dim := 0 to dimension
        invariant forall k :: 0 <= k < dim ==> AxisInside(m, dimension, k)
      {
        var length1, length2 := AxisLengths(m, dimension, dim);
        if length1 > 1.0 || length2 > 1.0 {
          assert !AxisInside(m, dimension, dim);
          return false;
        }
      }
      return true;
    }

    /** `equals`: center, stretch and angles agree; the matrices are not
     *  compared. */
    method Equals(other: ConditionRotatingEllipsoid) returns (b: bool)
      requires Valid() && other.Valid() && other.dimension == dimension
      ensures b <==> center == other.center && stretch == other.stretch && angle == other.angle
    {
      b := SameShape(center, stretch, other.center, other.stretch);
      if b {
        b := SameAngles(angle, other.angle);
      }
    }

    /** `reproduce`: parameters and transform rows copied into a fresh
     *  condition, whose last rows are set to the unit row; the copy starts
     *  with `changed` clear and no cached input. */
    method Reproduce() returns (c: ConditionRotatingEllipsoid)
      requires Valid()
      ensures fresh(c) && c.Valid() && c.CacheConsistent() && !c.changed && c.conditionInput.None?
      ensures c.dimension == dimension && c.tf == tf
      ensures c.center == center && c.stretch == stretch && c.angle == angle
      ensures c.transform == transform && c.inverseTransform == inverseTransform
      ensures Current() ==> c.Current()
    {
      c := new ConditionRotatingEllipsoid.Copy(tf, center, stretch, angle, transform, inverseTransform);
      CloneExact(transform, dimension);
      CloneExact(inverseTransform, dimension);
    }

    /** `crossover`: both `changed` flags are cleared; then, with
     *  probability pX, center, stretch and angle components are exchanged
     *  on fair coins, and both flags are set if anything was exchanged. The
     *  transforms and match caches are left as they are. */
    method Crossover(other: ConditionRotatingEllipsoid, p: XCSFConstants.Params, rng: RandomGen.Random)
      requires Valid() && other.Valid() && other.dimension == dimension && other != this
      requires rng.Valid()
      modifies this, other, rng
      ensures transform == old(transform) && inverseTransform == old(inverseTransform)
      ensures other.transform == old(other.transform) && other.inverseTransform == old(other.inverseTransform)
      ensures conditionInput == old(conditionInput) && squareDistance == old(squareDistance)
      ensures other.conditionInput == old(other.conditionInput) && other.squareDistance == old(other.squareDistance)
      ensures Valid() && other.Valid() && rng.Valid()
      ensures other.changed == changed
      ensures exists fc, fs, fa ::
        FlippedAt(center, other.center, old(center), old(other.center), fc) &&
        FlippedAt(stretch, other.stretch, old(stretch), old(other.stretch), fs) &&
        FlippedAt(angle, other.angle, old(angle), old(other.angle), fa) &&
        (changed <==> fc != {} || fs != {} || fa != {})
      ensures !changed ==>
        center == old(center) && stretch == old(stretch) && angle == old(angle) &&
        other.center == old(other.center) && other.stretch == old(other.stretch) && other.angle == old(other.angle)
      ensures RandomGen.Lehmer(old(rng.seed)) as real / RandomGen.M as real >= p.pX ==> !changed
      ensures old(Current()) && old(other.Current()) ==> Consistent() && other.Consistent()
    {
      changed, other.changed := false, false;
      var u := rng.UniRand();
      ghost var fc: set<int> := {};
      ghost var fs: set<int> := {};
      ghost var fa: set<int> := {};
      if u < p.pX {
        var anyC, anyS, anyA;
        center, other.center, anyC, fc := SwapSome(center, other.center, rng);
        stretch, other.stretch, anyS, fs := SwapSome(stretch, other.stretch, rng);
        angle, other.angle, anyA, fa := SwapSome(angle, other.angle, rng);
        changed := anyC || anyS || anyA;
        other.changed := changed;
      }
      CrossoverKeepsPositive(stretch, other.stretch, old(stretch), old(other.stretch), fs);
      assert FlippedAt(center, other.center, old(center), old(other.center), fc);
      assert FlippedAt(stretch, other.stretch, old(stretch), old(other.stretch), fs);
      assert FlippedAt(angle, other.angle, old(angle), old(other.angle), fa);
      if !changed {
        NoFlipUnchanged(center, other.center, old(center), old(other.center));
        NoFlipUnchanged(stretch, other.stretch, old(stretch), old(other.stretch));
        NoFlipUnchanged(angle, other.angle, old(angle), old(other.angle));
      }
    }

    /** `mutation` with probability pM / (2·dimension + angle count) per
     *  allele. When anything has changed so far, the center moves by the
     *  mutation vector mapped through the linear part of the current
     *  transform, each component clamped to [0, 1]; stretches are scaled by
     *  factors in (0.5, 2); angles turn by less than π/4 and are wrapped.
     *  If anything changed (here or in a preceding crossover), the
     *  transforms are rebuilt and the cache is dropped. `shift` is the
     *  mutation vector, `shifted` whether it was applied and `rebuilt`
     *  whether the transforms were recalculated. */
    method Mutation(p: XCSFConstants.Params, rng: RandomGen.Random)
      returns (ghost shift: seq<real>, ghost shifted: bool, ghost rebuilt: bool)
      requires Valid() && rng.Valid()
      modifies this, rng
      ensures Valid() && rng.Valid() && !changed
      ensures |shift| == dimension && forall i :: 0 <= i < dimension ==> -1.0 < shift[i] < 1.0
      ensures old(changed) ==> shifted
      ensures !shifted ==> forall i :: 0 <= i < dimension ==> shift[i] == 0.0
      ensures center == if shifted then Shifted(old(center), Matrix.MatVec(old(transform), shift, dimension))
                        else old(center)
      ensures exists mutated :: StretchesMutated(stretch, old(stretch), mutated)
      ensures exists mutated :: AnglesMutated(angle, old(angle), mutated)
      ensures rebuilt <==> shifted || stretch != old(stretch) || angle != old(angle)
      ensures rebuilt ==> Current() && conditionInput.None?
      ensures !rebuilt ==>
        transform == old(transform) && inverseTransform == old(inverseTransform) &&
        conditionInput == old(conditionInput)
      ensures squareDistance == old(squareDistance)
      ensures old(Consistent()) ==> Current()
    {
      var probability := MutationProbability(p.pM, 2 * dimension + |angle|);
      var c, st, a, ch;
      c, st, a, ch, shift, shifted := MutateParameters(center, stretch, angle, transform, changed, probability, rng);
      center, stretch, angle, changed := c, st, a, ch;
      rebuilt := changed;
      if changed {
        Recalculate();
      }
    }
  }
}
