/** `PredictionLinearRLS`: one linear model per output over the extended
 *  input `[offset, input_0, …, input_{n-1}]`, fitted by recursive least
 *  squares. The coefficient and gain matrices are rows of reals that the
 *  methods replace; the static scratch buffers of the original are locals. */
module LinearRLS {
  import opened Matrix
  import opened RLS
  import XCSFConstants

  /** The extended prediction input: the offset value, then the input. */
  function Extended(offset: real, input: seq<real>): (x: seq<real>)
    ensures |x| == |input| + 1 && x[0] == offset
    ensures forall i :: 0 <= i < |input| ==> x[i + 1] == input[i]
  {
    [offset] + input
  }

  /** The extension loop of `update`. */
  method ExtendInput(offset: real, input: seq<real>) returns (x: seq<real>)
    ensures x == Extended(offset, input)
  {
    x := [offset];
    for i := 0 to |input|
      invariant x == [offset] + input[..i]
    {
      x := x + [input[i]];
    }
    assert input[..|input|] == input;
  }

  /** One output of `predict`: the offset coefficient times the offset
   *  value, plus `c_i · input_{i-1}` for every further coefficient. */
  method LinearOutput(row: seq<real>, offset: real, input: seq<real>, n: nat) returns (s: real)
    requires 1 <= n <= |row| && n - 1 <= |input|
    ensures s == Dot(row, Extended(offset, input[..n - 1]), n)
  {
    ghost var x := Extended(offset, input[..n - 1]);
    s := row[0] * offset;
    assert Dot(row, x, 1) == row[0] * offset;
    for i := 1 to n
      invariant s == Dot(row, x, i)
    {
      assert x[i] == input[i - 1];
      s := s + row[i] * input[i - 1];
    }
  }

  class PredictionLinearRLS {
    /** The input dimension plus one for the offset. */
    const inputLength: nat
    const predictionLength: nat
    var coefficients: seq<seq<real>>
    var gainMatrix: seq<seq<real>>
    /** The buffer `predict` writes and `update` reads back. */
    var prediction: seq<real>

    ghost predicate Valid()
      reads this
    {
      inputLength >= 1 && Shaped(coefficients, predictionLength, inputLength)
      && IsSquare(gainMatrix, inputLength) && |prediction| == predictionLength
    }

    /** The covering constructor: `dimension + 1` coefficients per output,
     *  the offset rule for the first coefficient, a fresh diagonal gain and a
     *  zero prediction buffer. */
    constructor (dimension: nat, initialPrediction: seq<real>, p: XCSFConstants.Params)
      ensures Valid() && inputLength == dimension + 1 && predictionLength == |initialPrediction|
      ensures coefficients == InitialCoefficients(initialPrediction, dimension + 1, p.predictionOffsetValue)
      ensures gainMatrix == Diagonal(p.rlsInitScaleFactor, dimension + 1)
      ensures prediction == seq(|initialPrediction|, _ => 0.0)
    {
      inputLength := dimension + 1;
      predictionLength := |initialPrediction|;
      prediction := seq(|initialPrediction|, _ => 0.0);
      var c := InitCoefficients(initialPrediction, dimension + 1, p.predictionOffsetValue);
      var g := InitialGain(p.rlsInitScaleFactor, dimension + 1);
      coefficients, gainMatrix := c, g;
    }

    /** The copy `reproduce` builds: the coefficients, a fresh gain matrix
     *  and a new zero prediction buffer. */
    constructor Clone(inputLength: nat, predictionLength: nat, coefficients: seq<seq<real>>, p: XCSFConstants.Params)
      requires inputLength >= 1 && Shaped(coefficients, predictionLength, inputLength)
      ensures Valid() && this.inputLength == inputLength && this.predictionLength == predictionLength
      ensures this.coefficients == coefficients
      ensures gainMatrix == Diagonal(p.rlsInitScaleFactor, inputLength)
      ensures prediction == seq(predictionLength, _ => 0.0)
    {
      this.inputLength := inputLength;
      this.predictionLength := predictionLength;
      this.coefficients := coefficients;
      prediction := seq(predictionLength, _ => 0.0);
      var g := InitialGain(p.rlsInitScaleFactor, inputLength);
      gainMatrix := g;
    }

    /** `predict`: every output's coefficients against the extended input,
     *  written into the prediction buffer, which is returned. */
    method Predict(input: seq<real>, p: XCSFConstants.Params) returns (pred: seq<real>)
      requires Valid() && |input| >= inputLength - 1
      modifies this
      ensures Valid() && coefficients == old(coefficients) && gainMatrix == old(gainMatrix)
      ensures prediction == Predictions(coefficients, Extended(p.predictionOffsetValue, input[..inputLength - 1]), inputLength)
      ensures pred == prediction
    {
      ghost var x := Extended(p.predictionOffsetValue, input[..inputLength - 1]);
      var c := coefficients;
      var buffer := prediction;
      for dim := 0 to predictionLength
        invariant unchanged(this)
        invariant |buffer| == predictionLength
        invariant forall q :: 0 <= q < dim ==> buffer[q] == Dot(c[q], x, inputLength)
      {
        var s := LinearOutput(c[dim], p.predictionOffsetValue, input, inputLength);
        buffer := buffer[dim := s];
      }
      prediction := buffer;
      pred := prediction;
    }

    /** `update`: one RLS step on the extended input with the error read
     *  from the prediction buffer. When that buffer holds the prediction of
     *  the current coefficients on the same input, every output's error on
     *  it is scaled by `λ / (λ + xᵀGx)`. */
    method Update(input: seq<real>, functionValue: seq<real>, p: XCSFConstants.Params)
      requires Valid() && |input| == inputLength - 1 && |functionValue| >= predictionLength
      requires p.lambdaRLS != 0.0
      requires Divisor(gainMatrix, Extended(p.predictionOffsetValue, input), inputLength, p.lambdaRLS) != 0.0
      modifies this
      ensures Valid() && prediction == old(prediction)
      ensures coefficients == UpdatedCoefficients(old(coefficients), functionValue, old(prediction),
        GainVector(old(gainMatrix), Extended(p.predictionOffsetValue, input), inputLength, p.lambdaRLS), inputLength)
      ensures gainMatrix == UpdatedGain(old(gainMatrix),
        GainVector(old(gainMatrix), Extended(p.predictionOffsetValue, input), inputLength, p.lambdaRLS),
        Extended(p.predictionOffsetValue, input), inputLength, p.lambdaRLS)
      ensures old(prediction) == Predictions(old(coefficients), Extended(p.predictionOffsetValue, input), inputLength) ==>
        ErrorsScaled(coefficients, old(gainMatrix), Extended(p.predictionOffsetValue, input), functionValue, old(prediction),
                     inputLength, p.lambdaRLS)
    {
      var x := ExtendInput(p.predictionOffsetValue, input);
      var c, g := Step(coefficients, gainMatrix, prediction, x, functionValue, inputLength, p.lambdaRLS);
      coefficients, gainMatrix := c, g;
    }

    /** `crossover`: both coefficient matrices become their element-wise
     *  average; gain matrices and prediction buffers are untouched. */
    method Crossover(other: PredictionLinearRLS)
      requires Valid() && other.Valid() && other != this
      requires other.inputLength == inputLength && other.predictionLength == predictionLength
      modifies this, other
      ensures Valid() && other.Valid()
      ensures coefficients == AverageRows(old(coefficients), old(other.coefficients), inputLength)
      ensures other.coefficients == coefficients
      ensures gainMatrix == old(gainMatrix) && other.gainMatrix == old(other.gainMatrix)
      ensures prediction == old(prediction) && other.prediction == old(other.prediction)
    {
      var avg := AverageCoefficients(coefficients, other.coefficients, inputLength);
      coefficients := avg;
      other.coefficients := avg;
    }

    /** `reproduce`: a fresh predictor with equal coefficients, a fresh gain
     *  matrix and a zero prediction buffer. */
    method Reproduce(p: XCSFConstants.Params) returns (clone: PredictionLinearRLS)
      requires Valid()
      ensures fresh(clone) && clone.Valid()
      ensures clone.inputLength == inputLength && clone.predictionLength == predictionLength
      ensures clone.coefficients == coefficients
      ensures clone.gainMatrix == Diagonal(p.rlsInitScaleFactor, inputLength)
      ensures clone.prediction == seq(predictionLength, _ => 0.0)
    {
      clone := new PredictionLinearRLS.Clone(inputLength, predictionLength, coefficients, p);
    }

    /** `resetGainMatrix`: the scale factor added to every diagonal entry;
     *  nothing else changes. */
    method ResetGainMatrix(p: XCSFConstants.Params)
      requires Valid()
      modifies this
      ensures Valid() && gainMatrix == AddDiagonal(old(gainMatrix), inputLength, p.rlsInitScaleFactor)
      ensures coefficients == old(coefficients) && prediction == old(prediction)
    {
      gainMatrix := ResetDiagonal(gainMatrix, inputLength, p.rlsInitScaleFactor);
    }
  }
}
