/** `Classifier`: a rectangular condition, a linear RLS prediction and the
 *  learning statistics of one macro-classifier. The condition and the
 *  prediction objects are fixed at construction; the statistics are
 *  updated in place. */
module Classifiers {
  import opened Geometry
  import opened States
  import opened Rectangle
  import opened LinearRLS
  import opened RLS
  import XCSFConstants
  import RandomGen
  import PredConstant
  import opened Variation

  /** `max{1/experience, beta}`, the rate of `update1` and `update2`. */
  function LearningRate(experience: int, beta: real): (r: real)
    requires experience != 0
    ensures r >= beta && r >= 1.0 / experience as real
    ensures r == beta || r == 1.0 / experience as real
  {
    var rate := 1.0 / experience as real;
    if beta > rate then beta else rate
  }

  /** The rate computation of `update1` and `update2`. */
  method Rate(experience: int, beta: real) returns (rate: real)
    requires experience != 0
    ensures rate == LearningRate(experience, beta)
  {
    rate := 1.0 / experience as real;
    if beta > rate {
      rate := beta;
    }
  }

  /** For an experienced classifier and a rate parameter in (0, 1] the
   *  learning rate lies in (0, 1]: a Widrow-Hoff step with it never
   *  overshoots. */
  lemma {:induction false} LearningRateInUnit(experience: int, beta: real)
    requires experience >= 1 && 0.0 < beta <= 1.0
    ensures 0.0 < LearningRate(experience, beta) <= 1.0
  {
    var e := experience as real;
    assert 1.0 / e <= 1.0 by {
      QuotientBelowOne(1.0, e);
    }
  }

  /** A Widrow-Hoff step `x + rate·(target - x)` with a rate in (0, 1]
   *  lands between the old value and the target. */
  lemma {:induction false} WidrowHoffBetween(x: real, target: real, experience: int, beta: real)
    requires experience >= 1 && 0.0 < beta <= 1.0
    ensures var y := Toward(x, target, LearningRate(experience, beta));
      (x <= target ==> x <= y <= target) && (target <= x ==> target <= y <= x)
  {
    var lr := LearningRate(experience, beta);
    LearningRateInUnit(experience, beta);
    PredConstant.DeltaBetween(x, target, lr, Toward(x, target, lr));
  }

  /** The Widrow-Hoff step `x + rate·(target - x)` of every learning
   *  parameter. */
  function Toward(x: real, target: real, rate: real): real
  {
    x + rate * (target - x)
  }

  /** `getAccuracy`: 1 up to the error threshold, `alpha·(epsilon0/error)^nu`
   *  above it. */
  function Accuracy(predictionError: real, p: XCSFConstants.Params): (a: real)
    requires p.epsilon0 >= 0.0
    ensures predictionError <= p.epsilon0 ==> a == 1.0
    ensures predictionError > p.epsilon0 ==> a == p.alpha * p.pow(p.epsilon0 / predictionError, p.nu)
  {
    if predictionError <= p.epsilon0 then 1.0
    else p.alpha * p.pow(p.epsilon0 / predictionError, p.nu)
  }

  /** `Σ |prediction_i - actual_i|`, the error `update1` measures. */
  function AbsError(prediction: seq<real>, actual: seq<real>): (e: real)
    requires |actual| >= |prediction|
    ensures e >= 0.0
    ensures e == 0.0 <==> forall i :: 0 <= i < |prediction| ==> prediction[i] == actual[i]
    decreases |prediction|
  {
    if |prediction| == 0 then 0.0
    else
      var n := |prediction| - 1;
      AbsError(prediction[..n], actual) + Abs(prediction[n] - actual[n])
  }

  method AbsErrorSum(prediction: seq<real>, actual: seq<real>) returns (e: real)
    requires |actual| >= |prediction|
    ensures e == AbsError(prediction, actual)
  {
    e := 0.0;
    for i := 0 to |prediction|
      invariant e == AbsError(prediction[..i], actual)
    {
      assert prediction[..i + 1][..i] == prediction[..i];
      e := e + Abs(prediction[i] - actual[i]);
    }
    assert prediction[..|prediction|] == prediction;
  }

  /** `input_i - center_i`, the prediction input of a descriptor flagged
   *  `sameInput`. */
  function Differences(input: seq<real>, center: seq<real>): (d: seq<real>)
    requires |center| >= |input|
    ensures |d| == |input|
  {
    seq(|input|, i requires 0 <= i < |input| => input[i] - center[i])
  }

  class Classifier {
    const condition: ConditionRectangle
    const prediction: PredictionLinearRLS
    var fitness: real
    var numerosity: int
    var experience: int
    var setSizeEstimate: real
    var predictionError: real
    var timestamp: int

    ghost predicate Valid()
      reads this, condition, prediction
    {
      condition.Valid() && condition.CacheConsistent() && prediction.Valid() && experience >= 0
    }

    /** The input `predict` and `update1` hand to the prediction: the offset
     *  of the condition input from the center when the descriptor has one
     *  input, its separate prediction input otherwise. */
    ghost function PredictionInput(state: StateDescriptor): seq<real>
      reads condition
      requires |condition.center| >= |state.conditionInput|
    {
      if state.sameInput then Differences(state.conditionInput, condition.center) else state.predictionInput
    }

    /** The covering constructor: a condition centered on the state, a fresh
     *  prediction for the state's output, and the initial statistics. */
    constructor (state: StateDescriptor, timestamp: int, p: XCSFConstants.Params, rng: RandomGen.Random)
      requires XCSFConstants.Sane(p) && rng.Valid()
      modifies rng
      ensures Valid() && rng.Valid() && fresh(condition) && fresh(prediction)
      ensures fitness == p.fitnessIni && numerosity == 1 && experience == 0
      ensures setSizeEstimate == 1.0 && predictionError == p.predictionErrorIni && this.timestamp == timestamp
      ensures condition.dimension == |state.conditionInput| && condition.center == state.conditionInput
      ensures condition.conditionInput.None?
      ensures prediction.inputLength == |state.predictionInput| + 1
      ensures prediction.predictionLength == |state.output|
      ensures Rectangle.MaxDistance(state.conditionInput, condition.center, condition.stretch) == 0.0
    {
      fitness := p.fitnessIni;
      numerosity := 1;
      experience := 0;
      setSizeEstimate := 1.0;
      predictionError := p.predictionErrorIni;
      this.timestamp := timestamp;
      var c := new ConditionRectangle.Cover(state.conditionInput, p, rng);
      var q := new PredictionLinearRLS(|state.predictionInput|, state.output, p);
      condition := c;
      prediction := q;
      Rectangle.CenterMatches(c.center, c.stretch);
    }

    /** The private constructor `reproduce` fills in. */
    constructor Offspring(condition: ConditionRectangle, prediction: PredictionLinearRLS, fitness: real,
                          setSizeEstimate: real, predictionError: real, timestamp: int)
      ensures this.condition == condition && this.prediction == prediction
      ensures this.fitness == fitness && numerosity == 1 && experience == 0
      ensures this.setSizeEstimate == setSizeEstimate && this.predictionError == predictionError
      ensures this.timestamp == timestamp
    {
      this.condition := condition;
      this.prediction := prediction;
      this.fitness := fitness;
      numerosity := 1;
      experience := 0;
      this.setSizeEstimate := setSizeEstimate;
      this.predictionError := predictionError;
      this.timestamp := timestamp;
    }

    /** The condition matches the input: its relative distance is below 1. */
    ghost predicate Matches(input: seq<real>)
      reads condition
      requires condition.Valid() && |input| == condition.dimension
    {
      condition.Distance(input) < 1.0
    }

    /** `doesMatch`, through the condition's cache. */
    method DoesMatch(state: StateDescriptor) returns (b: bool)
      requires Valid() && |state.conditionInput| == condition.dimension
      modifies condition
      ensures Valid() && condition.center == old(condition.center) && condition.stretch == old(condition.stretch)
      ensures b <==> Matches(state.conditionInput)
    {
      b := condition.DoesMatch(state.GetConditionInput());
    }

    /** `getActivity`: `exp(-distance)` through the condition's cache. */
    method GetActivity(state: StateDescriptor, p: XCSFConstants.Params) returns (a: real)
      requires Valid() && |state.conditionInput| == condition.dimension
      modifies condition
      ensures Valid() && condition.center == old(condition.center) && condition.stretch == old(condition.stretch)
      ensures a == p.exp(-condition.Distance(state.conditionInput))
    {
      a := condition.GetActivity(state.GetConditionInput(), p.exp);
    }

    /** The input loop of `predict` and `update1`. */
    method ComputePredictionInput(state: StateDescriptor) returns (input: seq<real>)
      requires condition.Valid() && |state.conditionInput| == condition.dimension
      ensures input == PredictionInput(state)
    {
      if state.IsSameInput() {
        var x := state.GetConditionInput();
        input := [];
        for i := 0 to |x|
          invariant input == Differences(x, condition.center)[..i]
        {
          input := input + [x[i] - condition.center[i]];
        }
      } else {
        input := state.GetPredictionInput();
      }
    }

    /** `predict`: the linear prediction on `PredictionInput(state)`. */
    method Predict(state: StateDescriptor, p: XCSFConstants.Params) returns (pred: seq<real>)
      requires Valid() && |state.conditionInput| == condition.dimension
      requires |PredictionInput(state)| >= prediction.inputLength - 1
      modifies prediction
      ensures Valid()
      ensures prediction.coefficients == old(prediction.coefficients) && prediction.gainMatrix == old(prediction.gainMatrix)
      ensures pred == prediction.prediction
      ensures pred == Predictions(prediction.coefficients,
        Extended(p.predictionOffsetValue, PredictionInput(state)[..prediction.inputLength - 1]), prediction.inputLength)
    {
      var input := ComputePredictionInput(state);
      pred := prediction.Predict(input, p);
    }

    /** `update1`: one more experience, one RLS step of the prediction, then
     *  the prediction error moved toward the error of the new prediction at
     *  rate `max{1/experience, beta}`. */
    method Update1(state: StateDescriptor, p: XCSFConstants.Params)
      requires Valid() && |state.conditionInput| == condition.dimension
      requires |PredictionInput(state)| == prediction.inputLength - 1
      requires |state.output| >= prediction.predictionLength
      requires p.lambdaRLS != 0.0
      requires Divisor(prediction.gainMatrix, Extended(p.predictionOffsetValue, PredictionInput(state)),
                       prediction.inputLength, p.lambdaRLS) != 0.0
      modifies this, prediction
      ensures Valid() && experience == old(experience) + 1
      ensures fitness == old(fitness) && numerosity == old(numerosity)
      ensures setSizeEstimate == old(setSizeEstimate) && timestamp == old(timestamp)
      ensures prediction.coefficients == UpdatedCoefficients(old(prediction.coefficients), state.output,
        old(prediction.prediction),
        GainVector(old(prediction.gainMatrix), Extended(p.predictionOffsetValue, PredictionInput(state)),
                   prediction.inputLength, p.lambdaRLS), prediction.inputLength)
      ensures prediction.prediction == Predictions(prediction.coefficients,
        Extended(p.predictionOffsetValue, PredictionInput(state)), prediction.inputLength)
      ensures predictionError == Toward(old(predictionError),
        AbsError(prediction.prediction, state.output), LearningRate(experience, p.beta))
    {
      experience := experience + 1;
      var current := UpdatePrediction(state, p);
      var absError := AbsErrorSum(current, state.GetOutput());
      ghost var before := predictionError;
      MoveError(absError, p);
      assert before == old(predictionError);
      assert absError == AbsError(prediction.prediction, state.output);
    }

    /** The error part of `update1`: a Widrow-Hoff step toward the measured
     *  error. */
    method MoveError(absError: real, p: XCSFConstants.Params)
      requires experience != 0
      modifies this
      ensures experience == old(experience) && fitness == old(fitness) && numerosity == old(numerosity)
      ensures predictionError == Toward(old(predictionError), absError, LearningRate(experience, p.beta))
      ensures setSizeEstimate == old(setSizeEstimate) && timestamp == old(timestamp)
    {
      var max := Rate(experience, p.beta);
      predictionError := predictionError + max * (absError - predictionError);
    }

    /** The prediction part of `update1`: the RLS step on the prediction
     *  input, then the prediction of the updated coefficients. */
    method UpdatePrediction(state: StateDescriptor, p: XCSFConstants.Params) returns (current: seq<real>)
      requires Valid() && |state.conditionInput| == condition.dimension
      requires |PredictionInput(state)| == prediction.inputLength - 1
      requires |state.output| >= prediction.predictionLength
      requires p.lambdaRLS != 0.0
      requires Divisor(prediction.gainMatrix, Extended(p.predictionOffsetValue, PredictionInput(state)),
                       prediction.inputLength, p.lambdaRLS) != 0.0
      modifies prediction
      ensures Valid()
      ensures prediction.coefficients == UpdatedCoefficients(old(prediction.coefficients), state.output,
        old(prediction.prediction),
        GainVector(old(prediction.gainMatrix), Extended(p.predictionOffsetValue, PredictionInput(state)),
                   prediction.inputLength, p.lambdaRLS), prediction.inputLength)
      ensures current == prediction.prediction
      ensures prediction.prediction == Predictions(prediction.coefficients,
        Extended(p.predictionOffsetValue, PredictionInput(state)), prediction.inputLength)
    {
      var input := ComputePredictionInput(state);
      prediction.Update(input, state.GetOutput(), p);
      current := Predict(state, p);
      assert PredictionInput(state)[..prediction.inputLength - 1] == PredictionInput(state);
    }

    /** `update2`: the set-size estimate moved toward the match set's
     *  numerosity at rate `max{1/experience, beta}`, the fitness toward the
     *  relative accuracy at rate beta. */
    method Update2(accuracySum: real, numerositySum: int, p: XCSFConstants.Params)
      requires experience != 0 && accuracySum != 0.0 && p.epsilon0 >= 0.0
      modifies this
      ensures experience == old(experience) && numerosity == old(numerosity)
      ensures predictionError == old(predictionError) && timestamp == old(timestamp)
      ensures setSizeEstimate == Toward(old(setSizeEstimate), numerositySum as real, LearningRate(experience, p.beta))
      ensures fitness == Toward(old(fitness), Accuracy(predictionError, p) * numerosity as real / accuracySum, p.beta)
    {
      MoveSetSize(numerositySum, p);
      fitness := fitness + p.beta * ((Accuracy(predictionError, p) * numerosity as real) / accuracySum - fitness);
    }

    /** The set-size part of `update2`, which divides by nothing but the
     *  experience: a Widrow-Hoff step toward the match set's numerosity. */
    method MoveSetSize(numerositySum: int, p: XCSFConstants.Params)
      requires experience != 0
      modifies this
      ensures experience == old(experience) && numerosity == old(numerosity) && fitness == old(fitness)
      ensures predictionError == old(predictionError) && timestamp == old(timestamp)
      ensures setSizeEstimate == Toward(old(setSizeEstimate), numerositySum as real, LearningRate(experience, p.beta))
    {
      var learningRate := Rate(experience, p.beta);
      setSizeEstimate := setSizeEstimate + learningRate * (numerositySum as real - setSizeEstimate);
    }

    /** `crossover`: fitness and prediction error become the pair's
     *  averages, then the predictions and the conditions are crossed. */
    method Crossover(other: Classifier, p: XCSFConstants.Params, rng: RandomGen.Random)
      requires Valid() && other.Valid() && rng.Valid()
      requires other != this && other.condition != condition && other.prediction != prediction
      requires other.condition.dimension == condition.dimension
      requires other.prediction.inputLength == prediction.inputLength
      requires other.prediction.predictionLength == prediction.predictionLength
      requires condition.conditionInput.None? && other.condition.conditionInput.None?
      modifies this, other, condition, other.condition, prediction, other.prediction, rng
      ensures Valid() && other.Valid() && rng.Valid()
      ensures predictionError == other.predictionError == (old(predictionError) + old(other.predictionError)) / 2.0
      ensures fitness == other.fitness == (old(fitness) + old(other.fitness)) / 2.0
      ensures numerosity == old(numerosity) && other.numerosity == old(other.numerosity)
      ensures experience == old(experience) && other.experience == old(other.experience)
      ensures condition.conditionInput.None? && other.condition.conditionInput.None?
      ensures prediction.coefficients == other.prediction.coefficients
        == AverageRows(old(prediction.coefficients), old(other.prediction.coefficients), prediction.inputLength)
      ensures exists fc, fs :: FlippedAt(condition.center, other.condition.center, old(condition.center), old(other.condition.center), fc)
                            && FlippedAt(condition.stretch, other.condition.stretch, old(condition.stretch), old(other.condition.stretch), fs)
    {
      var avgPredictionError := (predictionError + other.predictionError) / 2.0;
      predictionError, other.predictionError := avgPredictionError, avgPredictionError;
      var avgFitness := (fitness + other.fitness) / 2.0;
      fitness, other.fitness := avgFitness, avgFitness;
      prediction.Crossover(other.prediction);
      condition.Crossover(other.condition, p, rng);
    }

    /** `mutation`: the condition is mutated; nothing else changes. */
    method Mutation(p: XCSFConstants.Params, rng: RandomGen.Random)
      requires Valid() && rng.Valid()
      requires condition.conditionInput.None?
      modifies condition, rng
      ensures Valid() && rng.Valid() && condition.conditionInput.None?
      ensures AllCenterMutated(condition.center, old(condition.center), old(condition.stretch))
      ensures exists mutated :: StretchesMutated(condition.stretch, old(condition.stretch), mutated)
    {
      condition.Mutation(p, rng);
    }

    /** `reproduce`: fresh copies of condition and prediction, numerosity 1,
     *  experience 0, the fitness per micro-classifier and the error scaled
     *  by their reduction factors, estimate and timestamp copied. */
    method Reproduce(p: XCSFConstants.Params) returns (clone: Classifier)
      requires Valid() && numerosity != 0
      ensures fresh(clone) && fresh(clone.condition) && fresh(clone.prediction) && clone.Valid()
      ensures clone.numerosity == 1 && clone.experience == 0
      ensures clone.fitness == fitness / numerosity as real * p.fitnessReduction
      ensures clone.predictionError == predictionError * p.predictionErrorReduction
      ensures clone.setSizeEstimate == setSizeEstimate && clone.timestamp == timestamp
      ensures clone.condition.dimension == condition.dimension
      ensures clone.condition.center == condition.center && clone.condition.stretch == condition.stretch
      ensures clone.condition.conditionInput.None?
      ensures clone.prediction.inputLength == prediction.inputLength
      ensures clone.prediction.predictionLength == prediction.predictionLength
      ensures clone.prediction.coefficients == prediction.coefficients
    {
      var c := condition.Reproduce();
      var q := prediction.Reproduce(p);
      clone := new Classifier.Offspring(c, q, fitness / numerosity as real * p.fitnessReduction,
                                        setSizeEstimate, predictionError * p.predictionErrorReduction, timestamp);
    }

    /** The deletion vote divides by the numerosity, and by the
     *  micro-fitness only for an experienced classifier whose micro-fitness
     *  is below `delta·meanFitness`: there a zero fitness has no vote. */
    predicate VoteDefined(meanFitness: real, p: XCSFConstants.Params)
      reads this
    {
      numerosity != 0 &&
      (experience >= p.thetaDel && fitness / numerosity as real < p.delta * meanFitness ==> fitness != 0.0)
    }

    /** `getDeletionVote`: the set-size estimate per macro-classifier,
     *  raised by `meanFitness / microFitness` for an experienced classifier
     *  whose micro-fitness is below `delta·meanFitness`. */
    function DeletionVote(meanFitness: real, p: XCSFConstants.Params): (v: real)
      reads this
      requires VoteDefined(meanFitness, p)
      ensures var micro := fitness / numerosity as real;
        (micro >= p.delta * meanFitness || experience < p.thetaDel) ==> v == setSizeEstimate * numerosity as real
      ensures var micro := fitness / numerosity as real;
        (micro < p.delta * meanFitness && experience >= p.thetaDel) ==>
          v == setSizeEstimate * numerosity as real * meanFitness / micro
    {
      var microfitness := fitness / numerosity as real;
      if microfitness >= p.delta * meanFitness || experience < p.thetaDel then
        setSizeEstimate * numerosity as real
      else
        setSizeEstimate * numerosity as real * meanFitness / microfitness
    }

    /** `getAccuracy`. */
    function GetAccuracy(p: XCSFConstants.Params): (a: real)
      reads this
      requires p.epsilon0 >= 0.0
      ensures a == Accuracy(predictionError, p)
    {
      Accuracy(predictionError, p)
    }

    /** `canSubsume`: experienced beyond thetaSub and more accurate than
     *  epsilon0. */
    predicate CanSubsume(p: XCSFConstants.Params)
      reads this
    {
      experience > p.thetaSub && predictionError < p.epsilon0
    }

    /** `isMoreGeneral`: this condition contains the other's. */
    method IsMoreGeneral(other: Classifier) returns (b: bool)
      requires Valid() && other.Valid() && other.condition.dimension == condition.dimension
      ensures b <==> Contains(condition.center, condition.stretch, other.condition.center, other.condition.stretch)
    {
      b := condition.IsMoreGeneral(other.condition);
    }

    /** `addNumerosity`. */
    method AddNumerosity(val: int)
      modifies this
      ensures numerosity == old(numerosity) + val
      ensures fitness == old(fitness) && experience == old(experience) && timestamp == old(timestamp)
      ensures setSizeEstimate == old(setSizeEstimate) && predictionError == old(predictionError)
    {
      numerosity := numerosity + val;
    }

    /** `setTimestamp`. */
    method SetTimestamp(timestamp: int)
      modifies this
      ensures this.timestamp == timestamp
      ensures fitness == old(fitness) && experience == old(experience) && numerosity == old(numerosity)
      ensures setSizeEstimate == old(setSizeEstimate) && predictionError == old(predictionError)
    {
      this.timestamp := timestamp;
    }
  }

  /** A classifier that can subsume is fully accurate. */
  lemma {:induction false} SubsumerIsAccurate(cl: Classifier, p: XCSFConstants.Params)
    requires p.epsilon0 >= 0.0 && cl.CanSubsume(p)
    ensures cl.GetAccuracy(p) == 1.0
  {
  }

  /** An experienced classifier whose positive micro-fitness lies below
   *  `delta·meanFitness` (with `delta <= 1`) gets a strictly higher vote than
   *  the plain estimate times numerosity. */
  lemma {:induction false} LowFitnessRaisesVote(cl: Classifier, meanFitness: real, p: XCSFConstants.Params)
    requires cl.numerosity >= 1 && cl.fitness > 0.0 && cl.setSizeEstimate > 0.0
    requires 0.0 < p.delta <= 1.0 && cl.experience >= p.thetaDel
    requires cl.fitness / cl.numerosity as real < p.delta * meanFitness
    ensures cl.DeletionVote(meanFitness, p) > cl.setSizeEstimate * cl.numerosity as real
  {
    var micro := cl.fitness / cl.numerosity as real;
    var base := cl.setSizeEstimate * cl.numerosity as real;
    assert micro > 0.0;
    assert base > 0.0 by {
      MulPositive(cl.setSizeEstimate, cl.numerosity as real);
    }
    BelowScaledMean(micro, p.delta, meanFitness);
    RaisedRatio(base, meanFitness, micro);
  }

  /** A positive value below `delta·mean`, with `0 < delta <= 1`, is below
   *  the mean, and the mean is positive. */
  lemma {:induction false} BelowScaledMean(micro: real, delta: real, mean: real)
    requires micro > 0.0 && 0.0 < delta <= 1.0 && micro < delta * mean
    ensures 0.0 < micro < mean
  {
    var gap := (1.0 - delta) * mean;
    assert gap == mean - delta * mean;
    assert mean > 0.0;
    PredConstant.MulNonNegative(1.0 - delta, mean);
    assert mean - micro == gap + (delta * mean - micro);
  }

  lemma {:induction false} RaisedRatio(base: real, mean: real, micro: real)
    requires base > 0.0 && mean > micro > 0.0
    ensures base * mean / micro > base
  {
    QuotientBelowOne(micro, mean);
    assert mean / micro > 1.0 by {
      QuotientBelowOne(mean, micro);
    }
    assert base * mean / micro == base * (mean / micro);
    MulPositive(base, mean / micro - 1.0);
  }
}
