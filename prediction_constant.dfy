/** `PredictionConstant`: one constant value per output, moved toward the
 *  observed function value by the Widrow-Hoff delta rule. */
module PredConstant {
  import XCSFConstants

  /** `p_i + beta·(target_i - p_i)` for every output. */
  function DeltaRule(p: seq<real>, target: seq<real>, beta: real): (r: seq<real>)
    requires |target| >= |p|
    ensures |r| == |p|
  {
    seq(|p|, i requires 0 <= i < |p| => p[i] + beta * (target[i] - p[i]))
  }

  lemma {:induction false} MulNonNegative(a: real, b: real)
    requires a >= 0.0 && b >= 0.0
    ensures a * b >= 0.0
  {
  }

  /** The remaining error after one step is `(1 - beta)` times the old
   *  error; for `0 <= beta <= 1` the new value lies between the old value
   *  and the target. */
  lemma {:induction false} DeltaStep(p: real, t: real, beta: real)
    ensures t - (p + beta * (t - p)) == (1.0 - beta) * (t - p)
    ensures 0.0 <= beta <= 1.0 && p <= t ==> p <= p + beta * (t - p) <= t
    ensures 0.0 <= beta <= 1.0 && t <= p ==> t <= p + beta * (t - p) <= p
  {
    assert (1.0 - beta) * (t - p) == (t - p) - beta * (t - p);
    if 0.0 <= beta <= 1.0 {
      if p == t {
        assert beta * (t - p) == 0.0;
      } else if p < t {
        MulNonNegative(beta, t - p);
        MulNonNegative(1.0 - beta, t - p);
      } else {
        MulNonNegative(beta, p - t);
        MulNonNegative(1.0 - beta, p - t);
        assert beta * (p - t) == -(beta * (t - p));
        assert (1.0 - beta) * (p - t) == -((1.0 - beta) * (t - p));
      }
    }
  }

  /** One step of the delta rule lands between the old value and the
   *  target. */
  lemma {:induction false} DeltaBetween(a: real, t: real, beta: real, r: real)
    requires r == a + beta * (t - a) && 0.0 <= beta <= 1.0
    ensures a <= t ==> a <= r <= t
    ensures t <= a ==> t <= r <= a
  {
    var d := t - a;
    var m := beta * d;
    assert r == a + m;
    if d >= 0.0 {
      ScaleBetween(beta, d);
    } else {
      ScaleBetween(beta, -d);
      assert beta * -d == -m;
    }
  }

  /** A fraction `0 <= beta <= 1` of a non-negative `d` lies in `[0, d]`. */
  lemma {:induction false} ScaleBetween(beta: real, d: real)
    requires 0.0 <= beta <= 1.0 && d >= 0.0
    ensures 0.0 <= beta * d <= d
  {
    MulNonNegative(beta, d);
    MulNonNegative(1.0 - beta, d);
    assert (1.0 - beta) * d == d - beta * d;
  }

  /** Every output of the delta rule lies between the old prediction and
   *  the target; with `beta = 1` it reaches the target, and a prediction
   *  equal to the target stays put. */
  lemma {:induction false} DeltaRuleBetween(p: seq<real>, target: seq<real>, beta: real)
    requires |target| >= |p| && 0.0 <= beta <= 1.0
    ensures forall i :: 0 <= i < |p| ==>
      (p[i] <= target[i] ==> p[i] <= DeltaRule(p, target, beta)[i] <= target[i]) &&
      (target[i] <= p[i] ==> target[i] <= DeltaRule(p, target, beta)[i] <= p[i])
    ensures beta == 1.0 ==> DeltaRule(p, target, beta) == target[..|p|]
    ensures target[..|p|] == p ==> DeltaRule(p, target, beta) == p
  {
    forall i | 0 <= i < |p|
      ensures (p[i] <= target[i] ==> p[i] <= DeltaRule(p, target, beta)[i] <= target[i]) &&
              (target[i] <= p[i] ==> target[i] <= DeltaRule(p, target, beta)[i] <= p[i])
    {
      var a, t := p[i], target[i];
      DeltaBetween(a, t, beta, DeltaRule(p, target, beta)[i]);
    }
    if target[..|p|] == p {
      forall i | 0 <= i < |p|
        ensures DeltaRule(p, target, beta)[i] == p[i]
      {
        assert target[i] == target[..|p|][i];
      }
    }
  }

  /** The element-wise average `(a_i + b_i) / 2`. */
  function Average(a: seq<real>, b: seq<real>): (r: seq<real>)
    requires |a| == |b|
    ensures |r| == |a|
  {
    seq(|a|, i requires 0 <= i < |a| => (a[i] + b[i]) / 2.0)
  }

  /** The average does not depend on the order, keeps equal vectors and
   *  lies component-wise between its two arguments. */
  lemma {:induction false} AverageProperties(a: seq<real>, b: seq<real>)
    requires |a| == |b|
    ensures Average(a, b) == Average(b, a)
    ensures Average(a, a) == a
    ensures forall i :: 0 <= i < |a| ==>
      (a[i] <= b[i] ==> a[i] <= Average(a, b)[i] <= b[i]) &&
      (b[i] <= a[i] ==> b[i] <= Average(a, b)[i] <= a[i])
  {
  }

  class PredictionConstant {
    const predictionLength: nat
    var prediction: seq<real>

    ghost predicate Valid()
      reads this
    {
      |prediction| == predictionLength
    }

    /** The covering constructor: the length of the prediction input is not
     *  used, the initial prediction is copied. */
    constructor (inputLength: int, initialPrediction: seq<real>)
      ensures Valid() && predictionLength == |initialPrediction| && prediction == initialPrediction
    {
      predictionLength := |initialPrediction|;
      prediction := initialPrediction;
    }

    /** `predict`: a copy of the stored prediction, whatever the input. */
    method Predict(input: seq<real>) returns (pred: seq<real>)
      requires Valid()
      ensures pred == prediction
    {
      pred := [];
      for i := 0 to predictionLength
        invariant pred == prediction[..i]
      {
        pred := pred + [prediction[i]];
      }
      assert prediction[..predictionLength] == prediction;
    }

    /** `update`: the delta rule with rate beta toward the function value;
     *  the prediction input is ignored. */
    method Update(input: seq<real>, functionValue: seq<real>, p: XCSFConstants.Params)
      requires Valid() && |functionValue| >= predictionLength
      modifies this
      ensures Valid() && prediction == DeltaRule(old(prediction), functionValue, p.beta)
    {
      var pred := prediction;
      for i := 0 to predictionLength
        invariant |pred| == predictionLength
        invariant forall k :: 0 <= k < i ==> pred[k] == DeltaRule(prediction, functionValue, p.beta)[k]
        invariant forall k :: i <= k < predictionLength ==> pred[k] == prediction[k]
      {
        var error := functionValue[i] - pred[i];
        pred := pred[i := pred[i] + p.beta * error];
      }
      prediction := pred;
    }

    /** `crossover`: both predictions become their element-wise average. */
    method Crossover(other: PredictionConstant)
      requires Valid() && other.Valid() && other.predictionLength == predictionLength && other != this
      modifies this, other
      ensures Valid() && other.Valid()
      ensures prediction == Average(old(prediction), old(other.prediction))
      ensures other.prediction == prediction
    {
      var mine, theirs := prediction, other.prediction;
      for i := 0 to predictionLength
        invariant |mine| == |theirs| == predictionLength
        invariant forall k :: 0 <= k < i ==>
          mine[k] == theirs[k] == Average(prediction, other.prediction)[k]
        invariant forall k :: i <= k < predictionLength ==>
          mine[k] == prediction[k] && theirs[k] == other.prediction[k]
      {
        var avg := mine[i] + theirs[i];
        mine, theirs := mine[i := avg / 2.0], theirs[i := avg / 2.0];
      }
      prediction, other.prediction := mine, theirs;
    }

    /** `reproduce`: an equal copy in a fresh object. */
    method Reproduce() returns (c: PredictionConstant)
      requires Valid()
      ensures fresh(c) && c.Valid()
      ensures c.predictionLength == predictionLength && c.prediction == prediction
    {
      c := new PredictionConstant(0, prediction);
    }
  }
}
