/** What the two rotating conditions share: the angle count, the extended
 *  (d+1)×(d+1) transforms kept as rows of reals, the construction of those
 *  transforms (left uninterpreted: it multiplies sine/cosine rotations), the
 *  center offset through the linear part of the transform, and the angle
 *  mutation with its wrap into [0, 2π]. */
module Rotation {
  import opened Geometry
  import Variation
  import Matrix
  import RandomGen
  import XCSFConstants

  /** `dimension * (dimension - 1) / 2` rotation angles, one per pair of
   *  axes. */
  function AngleCount(d: nat): (n: nat)
    ensures d <= 1 ==> n == 0
    ensures n == d * (d - 1) / 2
  {
    if d == 0 then 0 else d * (d - 1) / 2
  }

  /** One more axis adds one angle per existing axis. */
  lemma {:induction false} AngleCountStep(d: nat)
    ensures AngleCount(d + 1) == AngleCount(d) + d
  {
    if d > 0 {
      assert (d + 1) * d == d * (d - 1) + 2 * d;
    }
  }

  /** Row `d` of an extended matrix: zero except the final 1. */
  function UnitRow(d: nat): (r: seq<real>)
    ensures |r| == d + 1 && r[d] == 1.0
    ensures forall j :: 0 <= j < d ==> r[j] == 0.0
  {
    seq(d + 1, j requires 0 <= j <= d => if j == d then 1.0 else 0.0)
  }

  /** An extended transform: (d+1)×(d+1) with `UnitRow(d)` as its last row,
   *  as `setTransform` and `setInverseTransform` leave it. */
  ghost predicate Homogeneous(m: seq<seq<real>>, d: nat)
  {
    Matrix.IsSquare(m, d + 1) && m[d] == UnitRow(d)
  }

  /** The affine transforms the two rotating shapes derive from center,
   *  stretch and angles: `setTransform` (translation · rotation · stretch)
   *  and `setInverseTransform` (its inverse). */
  datatype Transforms = Transforms(
    forward: (seq<real>, seq<real>, seq<real>) -> seq<seq<real>>,
    inverse: (seq<real>, seq<real>, seq<real>) -> seq<seq<real>>)

  /** Both constructions produce extended matrices of the condition's
   *  dimension. */
  ghost predicate WellShaped(tf: Transforms, d: nat)
  {
    (forall c, s, a :: |c| == d ==> Homogeneous(tf.forward(c, s, a), d)) &&
    (forall c, s, a :: |c| == d ==> Homogeneous(tf.inverse(c, s, a), d))
  }

  /** The copy `reproduce` makes of an extended matrix: rows 0..d-1 copied,
   *  row d the unit row the fresh array gets from `[d][d] = 1`. */
  function CloneRows(m: seq<seq<real>>, d: nat): (r: seq<seq<real>>)
    requires |m| >= d
    ensures |r| == d + 1 && r[..d] == m[..d] && r[d] == UnitRow(d)
  {
    m[..d] + [UnitRow(d)]
  }

  /** The copy is exact for an extended matrix. */
  lemma {:induction false} CloneExact(m: seq<seq<real>>, d: nat)
    requires Homogeneous(m, d)
    ensures CloneRows(m, d) == m && Homogeneous(CloneRows(m, d), d)
  {
    assert m == m[..d] + [m[d]];
  }

  /** Every extended matrix covers the product with d columns and with the
   *  translation column. */
  lemma {:induction false} HomogeneousCovers(m: seq<seq<real>>, d: nat)
    requires Homogeneous(m, d)
    ensures Matrix.Covers(m, d, d) && Matrix.Covers(m, d, d + 1) && Matrix.Covers(m, d + 1, d + 1)
  {
  }

  /** The `multiplyExtended` step of the distance computations: the input
   *  carried into the shape's own coordinates. */
  function Local(inverse: seq<seq<real>>, input: seq<real>, d: nat): (r: seq<real>)
    requires Homogeneous(inverse, d) && |input| >= d
    ensures |r| == d
  {
    Matrix.MatVecExt(inverse, input, d)
  }

  // ---- covering ----

  /** A covering angle `uniRand() · 2π` lies strictly inside [0, 2π]. */
  ghost predicate InRotationRange(a: real)
  {
    XCSFConstants.LowerRotationBound <= a <= XCSFConstants.UpperRotationBound
  }

  /** The angle loop of the covering constructors. */
  method CoverAngles(n: nat, rng: RandomGen.Random) returns (a: seq<real>)
    requires rng.Valid()
    modifies rng
    ensures rng.Valid() && |a| == n
    ensures forall i :: 0 <= i < n ==> 0.0 < a[i] < XCSFConstants.UpperRotationBound
  {
    a := [];
    for i := 0 to n
      invariant rng.Valid() && |a| == i
      invariant forall k :: 0 <= k < i ==> 0.0 < a[k] < XCSFConstants.UpperRotationBound
    {
      var u := rng.UniRand();
      a := a + [u * 2.0 * XCSFConstants.Pi];
    }
  }

  // ---- center mutation ----

  /** The mutation vector: entry i is `2u - 1` when its draw succeeded (index
   *  in `drawn`) and 0 otherwise. `any` is whether some draw succeeded. */
  method DrawShift(d: nat, probability: real, rng: RandomGen.Random)
    returns (v: seq<real>, any: bool, ghost drawn: set<int>)
    requires rng.Valid()
    modifies rng
    ensures rng.Valid() && |v| == d
    ensures forall i :: i in drawn ==> 0 <= i < d
    ensures forall i :: 0 <= i < d ==> -1.0 < v[i] < 1.0 && (i !in drawn ==> v[i] == 0.0)
    ensures any <==> drawn != {}
  {
    v, any, drawn := [], false, {};
    for i := 0 to d
      invariant rng.Valid() && |v| == i
      invariant forall k :: k in drawn ==> 0 <= k < i
      invariant forall k :: 0 <= k < i ==> -1.0 < v[k] < 1.0 && (k !in drawn ==> v[k] == 0.0)
      invariant any <==> drawn != {}
    {
      var u := rng.UniRand();
      if u < probability {
        any := true;
        var rnd := ShiftFactor(rng);
        v := v + [rnd];
        drawn := drawn + {i};
      } else {
        v := v + [0.0];
      }
    }
  }

  /** The center after `center[i] += offset[i]` and the clamp into [0, 1]. */
  function Shifted(center: seq<real>, offset: seq<real>): (c: seq<real>)
    requires |offset| == |center|
    ensures |c| == |center|
  {
    seq(|center|, i requires 0 <= i < |center| => Clamp(center[i] + offset[i]))
  }

  /** A shifted center lies in the input space, and a component that was
   *  inside it and has no offset stays where it was. */
  lemma {:induction false} ShiftedInBounds(center: seq<real>, offset: seq<real>)
    requires |offset| == |center|
    ensures forall i :: 0 <= i < |center| ==>
      XCSFConstants.LowerBound <= Shifted(center, offset)[i] <= XCSFConstants.UpperBound
    ensures forall i ::
      (0 <= i < |center| && offset[i] == 0.0 &&
       XCSFConstants.LowerBound <= center[i] <= XCSFConstants.UpperBound) ==>
      Shifted(center, offset)[i] == center[i]
  {
  }

  /** A mutation vector without any successful draw moves every center
   *  component by nothing: the linear part maps 0 to 0. */
  lemma {:induction false} ZeroShiftOffset(m: seq<seq<real>>, v: seq<real>, d: nat)
    requires Matrix.Covers(m, d, d) && |v| == d
    requires forall i :: 0 <= i < d ==> v[i] == 0.0
    ensures forall i :: 0 <= i < d ==> Matrix.MatVec(m, v, d)[i] == 0.0
  {
    forall i | 0 <= i < d
      ensures Matrix.MatVec(m, v, d)[i] == 0.0
    {
      Matrix.DotZero(v, m[i], d);
      Matrix.DotSymmetric(m[i], v, d);
    }
  }

  /** The clamp loop of the rotating conditions' mutation. */
  method ShiftCenter(center: seq<real>, offset: seq<real>) returns (c: seq<real>)
    requires |offset| == |center|
    ensures c == Shifted(center, offset)
  {
    c := center;
    for i := 0 to |center|
      invariant |c| == |center|
      invariant forall k :: 0 <= k < i ==> c[k] == Clamp(center[k] + offset[k])
      invariant forall k :: i <= k < |c| ==> c[k] == center[k]
    {
      var x := c[i] + offset[i];
      if x < XCSFConstants.LowerBound {
        x := XCSFConstants.LowerBound;
      } else if x > XCSFConstants.UpperBound {
        x := XCSFConstants.UpperBound;
      }
      c := c[i := x];
    }
  }

  // ---- angle mutation ----

  /** The wrap after an angle change: below 0 add 2π, above 2π subtract
   *  it. */
  function Wrap(a: real): real
  {
    if a < XCSFConstants.LowerRotationBound then a + 2.0 * XCSFConstants.Pi
    else if a > XCSFConstants.UpperRotationBound then a - 2.0 * XCSFConstants.Pi
    else a
  }

  /** A mutated angle differs from the old one by less than π/4, up to one
   *  full turn, is not equal to it, and stays in [0, 2π] when it started
   *  there. */
  ghost predicate AngleMutated(a: real, a0: real)
  {
    a != a0 &&
    (Abs(a - a0) < XCSFConstants.Pi / 4.0 ||
     Abs(a - a0 - 2.0 * XCSFConstants.Pi) < XCSFConstants.Pi / 4.0 ||
     Abs(a - a0 + 2.0 * XCSFConstants.Pi) < XCSFConstants.Pi / 4.0) &&
    (InRotationRange(a0) ==> InRotationRange(a))
  }

  /** A change of magnitude in (0, π/4), wrapped, is an angle mutation. */
  lemma {:induction false} WrapMutates(a0: real, delta: real)
    requires 0.0 < Abs(delta) < XCSFConstants.Pi / 4.0
    ensures AngleMutated(Wrap(a0 + delta), a0)
  {
  }

  /** One angle mutation: a change `u·π·0.25`, negated on a fair coin, then
   *  the wrap. */
  method MutateAngle(a: real, rng: RandomGen.Random) returns (a2: real)
    requires rng.Valid()
    modifies rng
    ensures rng.Valid() && AngleMutated(a2, a)
  {
    var u := rng.UniRand();
    var change := u * XCSFConstants.Pi * 0.25;
    var coin := rng.UniRand();
    var delta := if coin < 0.5 then change else -change;
    a2 := a + delta;
    if a2 < XCSFConstants.LowerRotationBound {
      a2 := a2 + 2.0 * XCSFConstants.Pi;
    } else if a2 > XCSFConstants.UpperRotationBound {
      a2 := a2 - 2.0 * XCSFConstants.Pi;
    }
    WrapMutates(a, delta);
  }

  /** The angles `a` are `a0` with the entries in `mutated` changed by an
   *  angle mutation and all others kept. */
  ghost predicate AnglesMutated(a: seq<real>, a0: seq<real>, mutated: set<int>)
  {
    |a| == |a0| &&
    (forall i :: i in mutated ==> 0 <= i < |a0|) &&
    (forall i :: 0 <= i < |a0| ==> if i in mutated then AngleMutated(a[i], a0[i]) else a[i] == a0[i])
  }

  /** The angle loop of mutation: with probability `probability` an angle
   *  is mutated. `any` tells whether some angle was. */
  method MutateAngles(angle: seq<real>, probability: real, rng: RandomGen.Random)
    returns (a: seq<real>, any: bool, ghost mutated: set<int>)
    requires rng.Valid()
    modifies rng
    ensures rng.Valid()
    ensures AnglesMutated(a, angle, mutated)
    ensures any <==> mutated != {}
  {
    a, any, mutated := angle, false, {};
    for i := 0 to |angle|
      invariant rng.Valid() && |a| == |angle|
      invariant forall k :: k in mutated ==> 0 <= k < i
      invariant forall k :: 0 <= k < |angle| ==>
        if k in mutated then AngleMutated(a[k], angle[k]) else a[k] == angle[k]
      invariant any <==> mutated != {}
    {
      var u := rng.UniRand();
      if u < probability {
        any := true;
        var moved := MutateAngle(a[i], rng);
        a := a[i := moved];
        mutated := mutated + {i};
      }
    }
  }

  /** A mutated angle always differs from the old one, so the angles change
   *  exactly when some angle was mutated; angles in [0, 2π] stay there. */
  lemma {:induction false} AnglesChangedIffMutated(a: seq<real>, a0: seq<real>, mutated: set<int>)
    requires AnglesMutated(a, a0, mutated)
    ensures a != a0 <==> mutated != {}
    ensures (forall i :: 0 <= i < |a0| ==> InRotationRange(a0[i])) ==>
      forall i :: 0 <= i < |a| ==> InRotationRange(a[i])
  {
    if a == a0 {
      assert forall i :: i !in mutated;
      assert mutated == {};
    }
  }

  // ---- the mutation loops together ----

  /** The three loops of the rotating conditions' `mutation` on parameter
   *  values. `changed0` is the `changed` flag on entry, `changed` the flag
   *  afterwards; `shift` is the mutation vector and `shifted` tells whether
   *  it was applied through the linear part of `transform`. */
  method MutateParameters(center: seq<real>, stretch: seq<real>, angle: seq<real>,
                          transform: seq<seq<real>>, changed0: bool, probability: real,
                          rng: RandomGen.Random)
    returns (c: seq<real>, s: seq<real>, a: seq<real>, changed: bool,
             ghost shift: seq<real>, ghost shifted: bool)
    requires |center| == |stretch| && Positive(stretch) && Homogeneous(transform, |center|)
    requires rng.Valid()
    modifies rng
    ensures rng.Valid() && |c| == |center| && Positive(s) && |s| == |stretch| && |a| == |angle|
    ensures |shift| == |center| && forall i :: 0 <= i < |center| ==> -1.0 < shift[i] < 1.0
    ensures changed0 ==> shifted
    ensures !shifted ==> forall i :: 0 <= i < |center| ==> shift[i] == 0.0
    ensures c == if shifted then Shifted(center, Matrix.MatVec(transform, shift, |center|)) else center
    ensures exists mutated :: Variation.StretchesMutated(s, stretch, mutated)
    ensures exists mutated :: AnglesMutated(a, angle, mutated)
    ensures changed <==> shifted || s != stretch || a != angle
  {
    var d := |center|;
    var v, drew;
    ghost var drawn;
    v, drew, drawn := DrawShift(d, probability, rng);
    shift := v;
    changed := changed0 || drew;
    shifted := changed;
    c := center;
    if changed {
      HomogeneousCovers(transform, d);
      var offset := Matrix.MatVec(transform, v, d);
      c := ShiftCenter(center, offset);
    }
    var anyS, anyA;
    ghost var mS, mA;
    s, anyS, mS := Variation.MutateStretches(stretch, probability, rng);
    Variation.StretchChangedIffMutated(s, stretch, mS);
    changed := changed || anyS;
    a, anyA, mA := MutateAngles(angle, probability, rng);
    AnglesChangedIffMutated(a, angle, mA);
    changed := changed || anyA;
  }

  // ---- equality and crossover ----

  /** The angle loop of `equals`. */
  method SameAngles(a: seq<real>, b: seq<real>) returns (same: bool)
    requires |a| == |b|
    ensures same <==> a == b
  {
    for i := 0 to |a|
      invariant a[..i] == b[..i]
    {
      if a[i] != b[i] {
        return false;
      }
      assert a[..i + 1] == a[..i] + [a[i]] && b[..i + 1] == b[..i] + [b[i]];
    }
    assert a[..|a|] == a && b[..|b|] == b;
    return true;
  }

  /** Exchanging stretch components keeps every stretch positive. */
  lemma {:induction false} CrossoverKeepsPositive(a: seq<real>, b: seq<real>, a0: seq<real>, b0: seq<real>, flipped: set<int>)
    requires Variation.FlippedAt(a, b, a0, b0, flipped) && Positive(a0) && Positive(b0)
    ensures Positive(a) && Positive(b)
  {
  }
}
