/** `PredictionQuadraticRLS`: recursive least squares over the quadratic
 *  expansion `[offset, x_0, …, x_{n-1}] + [x_i·x_j for i <= j]` of the
 *  prediction input, the pairs listed row by row (`i` ascending, and `j`
 *  from `i` upward within a row). */
module QuadraticRLS {
  import opened Matrix
  import opened RLS
  import XCSFConstants

  /** `1 + 2n + n(n-1)/2`: the offset, n linear terms, n squares and
   *  n(n-1)/2 mixed terms, as the constructor computes it. */
  function FeatureCount(n: nat): int
  {
    1 + 2 * n + n * (n - 1) / 2
  }

  /** The number of pairs in the rows before row `i`: `Σ_{k < i} (n - k)`. */
  function RowStart(n: nat, i: nat): nat
    requires i <= n
  {
    if i == 0 then 0 else RowStart(n, i - 1) + (n - (i - 1))
  }

  /** Row `i` of the pairs: `x_i·x_j` for `j = i, …, n-1`. */
  function RowTerms(x: seq<real>, i: nat): (r: seq<real>)
    requires i <= |x|
    ensures |r| == |x| - i
  {
    seq(|x| - i, k requires 0 <= k < |x| - i => x[i] * x[i + k])
  }

  /** The pair terms of rows `0 … i-1`. */
  function Pairs(x: seq<real>, i: nat): (r: seq<real>)
    requires i <= |x|
    ensures |r| == RowStart(|x|, i)
  {
    if i == 0 then [] else Pairs(x, i - 1) + RowTerms(x, i - 1)
  }

  /** The expanded prediction input `update` builds and `predict` reads. */
  function Expand(offset: real, x: seq<real>): (r: seq<real>)
    ensures |r| == FeatureCount(|x|)
  {
    FeatureCountMatches(|x|);
    [offset] + x + Pairs(x, |x|)
  }

  lemma {:induction false} RowStartFormula(n: nat, i: nat)
    requires i <= n
    ensures 2 * RowStart(n, i) == i * (2 * n - i + 1)
  {
    if i > 0 {
      RowStartFormula(n, i - 1);
      assert (i - 1) * (2 * n - i + 2) + 2 * (n - i + 1) == i * (2 * n - i + 1);
    }
  }

  lemma {:induction false} RowStartMonotone(n: nat, i: nat, m: nat)
    requires i <= m <= n
    ensures RowStart(n, i) <= RowStart(n, m)
    decreases m - i
  {
    if i < m {
      RowStartMonotone(n, i, m - 1);
    }
  }

  /** The constructor's count is the number of features: one offset, n
   *  linear terms and the n(n+1)/2 pairs `i <= j`. */
  lemma {:induction false} FeatureCountMatches(n: nat)
    ensures RowStart(n, n) == n * (n + 1) / 2
    ensures FeatureCount(n) == 1 + n + RowStart(n, n)
  {
    RowStartFormula(n, n);
    assert n * (n + 1) == n * (n - 1) + 2 * n;
  }

  /** A dot product reads only the first `n` entries of its second
   *  argument. */
  lemma {:induction false} DotPrefix(u: seq<real>, v: seq<real>, w: seq<real>, n: nat)
    requires n <= |u| && n <= |v| && n <= |w|
    requires forall i :: 0 <= i < n ==> v[i] == w[i]
    ensures Dot(u, v, n) == Dot(u, w, n)
  {
    if n > 0 {
      DotPrefix(u, v, w, n - 1);
    }
  }

  /** Appending a feature `f` to `e` adds `row[|e|]·f` to the dot product. */
  lemma {:induction false} DotAppend(row: seq<real>, e: seq<real>, f: real)
    requires |e| < |row|
    ensures Dot(row, e + [f], |e| + 1) == Dot(row, e, |e|) + row[|e|] * f
  {
    DotPrefix(row, e + [f], e, |e|);
  }

  /** `c·a·b`, as `predict` groups it, is `c·(a·b)`. */
  lemma {:induction false} Regroup(c: real, a: real, b: real)
    ensures c * a * b == c * (a * b)
  {
  }

  /** One output of `predict`: the offset term, then the linear terms, then
   *  the pairs, with a running index into the coefficients. */
  method QuadraticOutput(row: seq<real>, offset: real, input: seq<real>) returns (s: real)
    requires FeatureCount(|input|) <= |row|
    ensures s == Dot(row, Expand(offset, input), FeatureCount(|input|))
  {
    FeatureCountMatches(|input|);
    var index;
    s, index := LinearOutput(row, offset, input);
    s, index := PairsOutput(row, offset, input, s, index);
  }

  /** The pair part of `predict`, row by row, continuing the dot product
   *  over the offset and linear terms. */
  method PairsOutput(row: seq<real>, offset: real, input: seq<real>, s0: real, index0: nat) returns (s: real, index: nat)
    requires 1 + |input| + RowStart(|input|, |input|) <= |row|
    requires index0 == 1 + |input| && s0 == Dot(row, [offset] + input, index0)
    ensures index == 1 + |input| + RowStart(|input|, |input|)
    ensures s == Dot(row, [offset] + input + Pairs(input, |input|), index)
  {
    s, index := s0, index0;
    assert [offset] + input + Pairs(input, 0) == [offset] + input;
    for i := 0 to |input|
      invariant PairsDone(row, offset, input, i, s, index)
    {
      s, index := PairsStep(row, offset, input, i, s, index);
    }
  }

  /** After rows `0 … i-1` of the pairs: the running index and the dot
   *  product over the expansion so far. */
  ghost predicate PairsDone(row: seq<real>, offset: real, input: seq<real>, i: nat, s: real, index: nat)
  {
    && i <= |input| && index == 1 + |input| + RowStart(|input|, i) && index <= |row|
    && s == Dot(row, [offset] + input + Pairs(input, i), index)
  }

  /** One row of the pairs. */
  method PairsStep(row: seq<real>, offset: real, input: seq<real>, i: nat, s0: real, index0: nat)
    returns (s: real, index: nat)
    requires i < |input| && 1 + |input| + RowStart(|input|, |input|) <= |row|
    requires PairsDone(row, offset, input, i, s0, index0)
    ensures PairsDone(row, offset, input, i + 1, s, index)
  {
    RowStartMonotone(|input|, i + 1, |input|);
    s, index := PairRow(row, input, i, s0, index0, [offset] + input + Pairs(input, i));
    assert [offset] + input + Pairs(input, i) + RowTerms(input, i) == [offset] + input + Pairs(input, i + 1);
  }

  /** The offset and linear part of `predict`: the dot product with
   *  `[offset] + input`, and the index of the first pair coefficient. */
  method LinearOutput(row: seq<real>, offset: real, input: seq<real>) returns (s: real, index: nat)
    requires 1 + |input| <= |row|
    ensures index == 1 + |input| && s == Dot(row, [offset] + input, index)
  {
    ghost var e: seq<real> := [offset];
    s := row[0] * offset;
    DotAppend(row, [], offset);
    assert [] + [offset] == e;
    index := 1;
    for i := 0 to |input|
      invariant index == |e| == 1 + i && e == [offset] + input[..i] && s == Dot(row, e, index)
    {
      DotAppend(row, e, input[i]);
      s := s + row[index] * input[i];
      e := e + [input[i]];
      assert input[..i + 1] == input[..i] + [input[i]];
      index := index + 1;
    }
    assert input[..|input|] == input;
  }

  /** Row `i` of the pairs up to column `j` inclusive. */
  lemma {:induction false} RowTermsStep(x: seq<real>, i: nat, j: nat)
    requires i <= j < |x|
    ensures RowTerms(x, i)[..j + 1 - i] == RowTerms(x, i)[..j - i] + [x[i] * x[j]]
  {
    assert i + (j - i) == j;
    assert RowTerms(x, i)[j - i] == x[i] * x[j];
  }

  /** The inner loop of `predict` for row `i` of the pairs: `c·x_i·x_j` for
   *  `j = i, …, n-1`, with the running index. */
  method PairRow(row: seq<real>, input: seq<real>, i: nat, s0: real, index0: nat, ghost e: seq<real>)
    returns (s: real, index: nat)
    requires i < |input| && index0 == |e| && |e| + |input| - i <= |row| && s0 == Dot(row, e, index0)
    ensures index == |e + RowTerms(input, i)| && s == Dot(row, e + RowTerms(input, i), index)
  {
    ghost var terms := RowTerms(input, i);
    ghost var done := e;
    s, index := s0, index0;
    for j := i to |input|
      invariant done == e + terms[..j - i] && index == |done| && s == Dot(row, done, index)
    {
      DotAppend(row, done, input[i] * input[j]);
      Regroup(row[index], input[i], input[j]);
      s := s + row[index] * input[i] * input[j];
      RowTermsStep(input, i, j);
      done := done + [input[i] * input[j]];
      index := index + 1;
    }
    assert terms[..|input| - i] == terms;
  }

  /** The expansion loops of `update`. */
  method ExpandInput(offset: real, input: seq<real>) returns (e: seq<real>)
    ensures e == Expand(offset, input)
  {
    var length := |input|;
    e := [offset];
    for i := 0 to length
      invariant e == [offset] + input[..i]
    {
      e := e + [input[i]];
    }
    assert input[..length] == input;
    for i := 0 to length
      invariant e == [offset] + input + Pairs(input, i)
    {
      ghost var before := e;
      ghost var row := RowTerms(input, i);
      for j := i to length
        invariant e == before + row[..j - i]
      {
        assert row[j - i] == input[i] * input[j];
        assert row[..j + 1 - i] == row[..j - i] + [input[i] * input[j]];
        e := e + [input[i] * input[j]];
      }
      assert row[..length - i] == row;
      assert Pairs(input, i + 1) == Pairs(input, i) + row;
      assert e == [offset] + input + (Pairs(input, i) + row);
    }
  }

  class PredictionQuadraticRLS {
    /** `1 + 2n + n(n-1)/2` for an input dimension n. */
    const inputLength: nat
    const predictionLength: nat
    var coefficients: seq<seq<real>>
    var gainMatrix: seq<seq<real>>
    /** The buffer `predict` writes and `update` reads back. */
    var prediction: seq<real>

    ghost predicate Valid()
      reads this
    {
      inputLength >= 1 && Shaped(coefficients, predictionLength, inputLength)
      && IsSquare(gainMatrix, inputLength) && |prediction| == predictionLength
    }

    /** The covering constructor: the feature count, the offset rule for
     *  the first coefficient, a fresh diagonal gain and a zero buffer. */
    constructor (dimension: nat, initialPrediction: seq<real>, p: XCSFConstants.Params)
      ensures Valid() && inputLength == FeatureCount(dimension) && predictionLength == |initialPrediction|
      ensures coefficients == InitialCoefficients(initialPrediction, inputLength, p.predictionOffsetValue)
      ensures gainMatrix == Diagonal(p.rlsInitScaleFactor, inputLength)
      ensures prediction == seq(|initialPrediction|, _ => 0.0)
    {
      FeatureCountMatches(dimension);
      var n: nat := 1 + 2 * dimension + dimension * (dimension - 1) / 2;
      inputLength := n;
      predictionLength := |initialPrediction|;
      prediction := seq(|initialPrediction|, _ => 0.0);
      var c := InitCoefficients(initialPrediction, n, p.predictionOffsetValue);
      var g := InitialGain(p.rlsInitScaleFactor, n);
      coefficients, gainMatrix := c, g;
    }

    /** The copy `reproduce` builds: the coefficients, a fresh gain matrix
     *  and a new zero prediction buffer. */
    constructor Clone(inputLength: nat, predictionLength: nat, coefficients: seq<seq<real>>, p: XCSFConstants.Params)
      requires inputLength >= 1 && Shaped(coefficients, predictionLength, inputLength)
      ensures Valid() && this.inputLength == inputLength && this.predictionLength == predictionLength
      ensures this.coefficients == coefficients
      ensures gainMatrix == Diagonal(p.rlsInitScaleFactor, inputLength)
      ensures prediction == seq(predictionLength, _ => 0.0)
    {
      this.inputLength := inputLength;
      this.predictionLength := predictionLength;
      this.coefficients := coefficients;
      prediction := seq(predictionLength, _ => 0.0);
      var g := InitialGain(p.rlsInitScaleFactor, inputLength);
      gainMatrix := g;
    }

    /** `predict`: every output's coefficients against the expansion of the
     *  input (as many features as that input has), written into the
     *  prediction buffer, which is returned. */
    method Predict(input: seq<real>, p: XCSFConstants.Params) returns (pred: seq<real>)
      requires Valid() && FeatureCount(|input|) <= inputLength
      modifies this
      ensures Valid() && coefficients == old(coefficients) && gainMatrix == old(gainMatrix)
      ensures FeatureCount(|input|) >= 0
      ensures prediction == Predictions(coefficients, Expand(p.predictionOffsetValue, input), FeatureCount(|input|))
      ensures pred == prediction
    {
      FeatureCountMatches(|input|);
      ghost var e := Expand(p.predictionOffsetValue, input);
      var c := coefficients;
      var buffer := prediction;
      for dim := 0 to predictionLength
        invariant unchanged(this)
        invariant |buffer| == predictionLength
        invariant forall q :: 0 <= q < dim ==> buffer[q] == Dot(c[q], e, FeatureCount(|input|))
      {
        var s := QuadraticOutput(c[dim], p.predictionOffsetValue, input);
        buffer := buffer[dim := s];
      }
      prediction := buffer;
      pred := prediction;
    }

    /** `update`: one RLS step on the expanded input with the error read
     *  from the prediction buffer; the input must have the dimension this
     *  predictor was built for. When the buffer holds the prediction of the
     *  current coefficients on the same input, every output's error on it is
     *  scaled by `λ / (λ + xᵀGx)`. */
    method Update(input: seq<real>, functionValue: seq<real>, p: XCSFConstants.Params)
      requires Valid() && FeatureCount(|input|) == inputLength && |functionValue| >= predictionLength
      requires p.lambdaRLS != 0.0
      requires Divisor(gainMatrix, Expand(p.predictionOffsetValue, input), inputLength, p.lambdaRLS) != 0.0
      modifies this
      ensures Valid() && prediction == old(prediction)
      ensures coefficients == UpdatedCoefficients(old(coefficients), functionValue, old(prediction),
        GainVector(old(gainMatrix), Expand(p.predictionOffsetValue, input), inputLength, p.lambdaRLS), inputLength)
      ensures gainMatrix == UpdatedGain(old(gainMatrix),
        GainVector(old(gainMatrix), Expand(p.predictionOffsetValue, input), inputLength, p.lambdaRLS),
        Expand(p.predictionOffsetValue, input), inputLength, p.lambdaRLS)
      ensures old(prediction) == Predictions(old(coefficients), Expand(p.predictionOffsetValue, input), inputLength) ==>
        ErrorsScaled(coefficients, old(gainMatrix), Expand(p.predictionOffsetValue, input), functionValue, old(prediction),
                     inputLength, p.lambdaRLS)
    {
      var x := ExpandInput(p.predictionOffsetValue, input);
      var c, g := Step(coefficients, gainMatrix, prediction, x, functionValue, inputLength, p.lambdaRLS);
      coefficients, gainMatrix := c, g;
    }

    /** `crossover`: both coefficient matrices become their element-wise
     *  average; gain matrices and prediction buffers are untouched. */
    method Crossover(other: PredictionQuadraticRLS)
      requires Valid() && other.Valid() && other != this
      requires other.inputLength == inputLength && other.predictionLength == predictionLength
      modifies this, other
      ensures Valid() && other.Valid()
      ensures coefficients == AverageRows(old(coefficients), old(other.coefficients), inputLength)
      ensures other.coefficients == coefficients
      ensures gainMatrix == old(gainMatrix) && other.gainMatrix == old(other.gainMatrix)
      ensures prediction == old(prediction) && other.prediction == old(other.prediction)
    {
      var avg := AverageCoefficients(coefficients, other.coefficients, inputLength);
      coefficients := avg;
      other.coefficients := avg;
    }

    /** `reproduce`: a fresh predictor with equal coefficients, a fresh gain
     *  matrix and a zero prediction buffer. */
    method Reproduce(p: XCSFConstants.Params) returns (clone: PredictionQuadraticRLS)
      requires Valid()
      ensures fresh(clone) && clone.Valid()
      ensures clone.inputLength == inputLength && clone.predictionLength == predictionLength
      ensures clone.coefficients == coefficients
      ensures clone.gainMatrix == Diagonal(p.rlsInitScaleFactor, inputLength)
      ensures clone.prediction == seq(predictionLength, _ => 0.0)
    {
      clone := new PredictionQuadraticRLS.Clone(inputLength, predictionLength, coefficients, p);
    }

    /** `resetGainMatrix`: the scale factor added to every diagonal entry;
     *  nothing else changes. */
    method ResetGainMatrix(p: XCSFConstants.Params)
      requires Valid()
      modifies this
      ensures Valid() && gainMatrix == AddDiagonal(old(gainMatrix), inputLength, p.rlsInitScaleFactor)
      ensures coefficients == old(coefficients) && prediction == old(prediction)
    {
      gainMatrix := ResetDiagonal(gainMatrix, inputLength, p.rlsInitScaleFactor);
    }
  }
}
