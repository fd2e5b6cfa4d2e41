/** The learning parameters of `XCSFConstants`. The Java class holds them in
 *  static fields that a configuration file may overwrite; here they are one
 *  value passed to the operations that read them. The transcendental
 *  functions the source takes from `java.lang.Math` are part of the value,
 *  so the model never fixes how they are computed. */
module XCSFConstants {

  const Pi: real := 3.141592653589793

  /** `Condition.LOWER_BOUND` and `Condition.UPPER_BOUND`: the input space. */
  const LowerBound: real := 0.0
  const UpperBound: real := 1.0

  /** `Condition.LOWER_ROTATION_BOUND` and `UPPER_ROTATION_BOUND`: [0, 2π]. */
  const LowerRotationBound: real := 0.0
  const UpperRotationBound: real := 2.0 * Pi

  /** `Integer.MAX_VALUE`, the threshold that switches threading off. */
  const IntMax: int := 2147483647

  datatype Params = Params(
    multiThreading: bool,
    threadingThreshold: int,
    maxPopSize: int,
    epsilon0: real,
    minConditionStretch: real,
    coverConditionRange: real,
    beta: real,
    delta: real,
    alpha: real,
    doNumClosestMatch: bool,
    numClosestMatch: int,
    thetaGA: int,
    selectionType: real,
    pM: real,
    pX: real,
    thetaDel: int,
    thetaSub: int,
    doGASubsumption: bool,
    nu: real,
    predictionErrorReduction: real,
    fitnessReduction: real,
    predictionErrorIni: real,
    fitnessIni: real,
    rlsInitScaleFactor: real,
    lambdaRLS: real,
    predictionOffsetValue: real,
    exp: real -> real,
    pow: (real, real) -> real)

  /** The values the source ships with, for any choice of `exp` and `pow`. */
  function Defaults(exp: real -> real, pow: (real, real) -> real): (p: Params)
    ensures p.maxPopSize == 6400 && p.thetaSub == 20 && p.thetaDel == 20
    ensures p.selectionType == 0.4 && p.threadingThreshold == -1
  {
    Params(
      multiThreading := true,
      threadingThreshold := -1,
      maxPopSize := 6400,
      epsilon0 := 0.01,
      minConditionStretch := 0.01,
      coverConditionRange := 0.99,
      beta := 0.1,
      delta := 0.1,
      alpha := 1.0,
      doNumClosestMatch := false,
      numClosestMatch := 20,
      thetaGA := 50,
      selectionType := 0.4,
      pM := 1.0,
      pX := 1.0,
      thetaDel := 20,
      thetaSub := 20,
      doGASubsumption := true,
      nu := 5.0,
      predictionErrorReduction := 1.0,
      fitnessReduction := 0.1,
      predictionErrorIni := 0.0,
      fitnessIni := 0.01,
      rlsInitScaleFactor := 1000.0,
      lambdaRLS := 1.0,
      predictionOffsetValue := 1.0,
      exp := exp,
      pow := pow)
  }

  /** What the proofs rely on: a positive minimal stretch, non-negative
   *  covering range, learning rates inside (0, 1], a positive capacity and a
   *  positive error threshold. */
  predicate Sane(p: Params)
  {
    && p.maxPopSize >= 1
    && p.minConditionStretch > 0.0
    && p.coverConditionRange >= 0.0
    && 0.0 < p.beta <= 1.0
    && p.lambdaRLS != 0.0
    && p.epsilon0 > 0.0
  }

  lemma {:induction false} DefaultsSane(exp: real -> real, pow: (real, real) -> real)
    ensures Sane(Defaults(exp, pow))
  {
  }
}
