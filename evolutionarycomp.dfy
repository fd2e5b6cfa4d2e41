/** `EvolutionaryComp`: the genetic algorithm of XCSF on a match set —
 *  the trigger on the mean timestamp, the selection of two parents by
 *  roulette wheel or set-size proportionate tournament, reproduction,
 *  crossover and mutation of the offspring, and their insertion into the
 *  population by subsumption or as new classifiers after the deletion of
 *  the surplus. */
module EvolutionaryComps {
  import opened Wrappers
  import opened States
  import opened Classifiers
  import opened ClassifierSets
  import opened Populations
  import MatchSets
  import XCSFConstants
  import RandomGen
  import Rectangle
  import PredConstant
  import opened Geometry

  /** `SELECTION_SIZE`: two parents per run of the algorithm. */
  const SelectionSize: int := 2

  // ---------------------------------------------------------------------
  // The trigger

  /** `timestamp · numerosity` of every classifier, the integer product the
   *  source adds to its floating-point sum. */
  ghost function Stamps(s: seq<Classifier>): (v: seq<real>)
    reads s
    ensures |v| == |s| && forall k :: 0 <= k < |s| ==> v[k] == (s[k].timestamp * s[k].numerosity) as real
  {
    seq(|s|, k requires 0 <= k < |s| reads s => (s[k].timestamp * s[k].numerosity) as real)
  }

  /** The numerosity-weighted mean timestamp of a set. */
  ghost function MeanTimestamp(s: seq<Classifier>): real
    reads s
    requires Sum(Nums(s)) != 0
  {
    RealSum(Stamps(s)) / Sum(Nums(s)) as real
  }

  /** The algorithm runs once `theta_GA` iterations have passed since the
   *  mean timestamp of the set. */
  ghost predicate Triggered(s: seq<Classifier>, iteration: int, p: XCSFConstants.Params)
    reads s
    requires Sum(Nums(s)) != 0
  {
    !(iteration as real - MeanTimestamp(s) < p.thetaGA as real)
  }

  /** The sums of the first loop of `evolve`: timestamps weighted by
   *  numerosity, fitnesses and numerosities. */
  method Derived(ms: ClassifierSet) returns (avgTimestampSum: real, fitnessSum: real, numerositySum: int)
    requires ms.Valid()
    ensures avgTimestampSum == RealSum(Stamps(ms.Contents()))
    ensures fitnessSum == RealSum(Fitnesses(ms.Contents()))
    ensures numerositySum == Sum(Nums(ms.Contents()))
  {
    ghost var s := ms.Contents();
    avgTimestampSum, fitnessSum, numerositySum := 0.0, 0.0, 0;
    for i := 0 to ms.size
      invariant avgTimestampSum == RealSum(Stamps(s)[..i])
      invariant fitnessSum == RealSum(Fitnesses(s)[..i])
      invariant numerositySum == Sum(Nums(s)[..i])
    {
      var cl := ms.elements[i];
      assert cl == s[i];
      assert Stamps(s)[..i + 1][..i] == Stamps(s)[..i];
      assert Fitnesses(s)[..i + 1][..i] == Fitnesses(s)[..i];
      assert Nums(s)[..i + 1][..i] == Nums(s)[..i];
      fitnessSum := fitnessSum + cl.fitness;
      avgTimestampSum := avgTimestampSum + (cl.timestamp * cl.numerosity) as real;
      numerositySum := numerositySum + cl.numerosity;
    }
    assert Stamps(s)[..|s|] == Stamps(s);
    assert Fitnesses(s)[..|s|] == Fitnesses(s);
    assert Nums(s)[..|s|] == Nums(s);
  }

  /** With every timestamp at least `lo`, the weighted sum is at least `lo`
   *  times the numerosity sum. */
  lemma {:induction false} StampSumAbove(s: seq<Classifier>, lo: int)
    requires forall k :: 0 <= k < |s| ==> lo <= s[k].timestamp && s[k].numerosity >= 0
    ensures lo as real * Sum(Nums(s)) as real <= RealSum(Stamps(s))
  {
    EachAbove(s, lo);
    WeightedAbove(Stamps(s), Nums(s), lo as real);
  }

  lemma {:induction false} EachAbove(s: seq<Classifier>, lo: int)
    requires forall k :: 0 <= k < |s| ==> lo <= s[k].timestamp && s[k].numerosity >= 0
    ensures |Stamps(s)| == |Nums(s)|
    ensures forall k :: 0 <= k < |Stamps(s)| ==> lo as real * Nums(s)[k] as real <= Stamps(s)[k]
  {
    forall k | 0 <= k < |s| ensures lo as real * Nums(s)[k] as real <= Stamps(s)[k] {
      ScaledAbove(s[k].timestamp, s[k].numerosity, lo);
    }
  }

  /** With every timestamp at most `hi`, the weighted sum is at most `hi`
   *  times the numerosity sum. */
  lemma {:induction false} StampSumBelow(s: seq<Classifier>, hi: int)
    requires forall k :: 0 <= k < |s| ==> s[k].timestamp <= hi && s[k].numerosity >= 0
    ensures RealSum(Stamps(s)) <= hi as real * Sum(Nums(s)) as real
  {
    EachBelow(s, hi);
    WeightedBelow(Stamps(s), Nums(s), hi as real);
  }

  lemma {:induction false} EachBelow(s: seq<Classifier>, hi: int)
    requires forall k :: 0 <= k < |s| ==> s[k].timestamp <= hi && s[k].numerosity >= 0
    ensures |Stamps(s)| == |Nums(s)|
    ensures forall k :: 0 <= k < |Stamps(s)| ==> Stamps(s)[k] <= hi as real * Nums(s)[k] as real
  {
    forall k | 0 <= k < |s| ensures Stamps(s)[k] <= hi as real * Nums(s)[k] as real {
      ScaledBelow(s[k].timestamp, s[k].numerosity, hi);
    }
  }

  lemma {:induction false} ScaledAbove(t: int, m: int, lo: int)
    requires lo <= t && m >= 0
    ensures lo as real * m as real <= (t * m) as real
  {
    PredConstant.MulNonNegative((t - lo) as real, m as real);
    assert (t - lo) as real * m as real == (t * m) as real - lo as real * m as real;
  }

  lemma {:induction false} ScaledBelow(t: int, m: int, hi: int)
    requires t <= hi && m >= 0
    ensures (t * m) as real <= hi as real * m as real
  {
    PredConstant.MulNonNegative((hi - t) as real, m as real);
    assert (hi - t) as real * m as real == hi as real * m as real - (t * m) as real;
  }

  /** Terms each at least `c` times their weight sum to at least `c` times
   *  the weight sum. */
  lemma {:induction false} WeightedAbove(v: seq<real>, w: seq<int>, c: real)
    requires |v| == |w| && forall k :: 0 <= k < |v| ==> c * w[k] as real <= v[k]
    ensures c * Sum(w) as real <= RealSum(v)
  {
    if |v| > 0 {
      var n := |v| - 1;
      WeightedAbove(v[..n], w[..n], c);
      assert w[..n] == w[..|w| - 1];
      assert c * (Sum(w[..n]) + w[n]) as real == c * Sum(w[..n]) as real + c * w[n] as real;
    }
  }

  /** Terms each at most `c` times their weight sum to at most `c` times
   *  the weight sum. */
  lemma {:induction false} WeightedBelow(v: seq<real>, w: seq<int>, c: real)
    requires |v| == |w| && forall k :: 0 <= k < |v| ==> v[k] <= c * w[k] as real
    ensures RealSum(v) <= c * Sum(w) as real
  {
    if |v| > 0 {
      var n := |v| - 1;
      WeightedBelow(v[..n], w[..n], c);
      assert w[..n] == w[..|w| - 1];
      assert c * (Sum(w[..n]) + w[n]) as real == c * Sum(w[..n]) as real + c * w[n] as real;
    }
  }

  /** The mean timestamp of a set whose timestamps lie in `[lo, hi]` lies
   *  in `[lo, hi]` too. */
  lemma {:induction false} MeanBetween(s: seq<Classifier>, lo: int, hi: int)
    requires forall k :: 0 <= k < |s| ==> lo <= s[k].timestamp <= hi && s[k].numerosity >= 0
    requires Sum(Nums(s)) >= 1
    ensures lo as real <= MeanTimestamp(s) <= hi as real
  {
    var N := Sum(Nums(s)) as real;
    var x := RealSum(Stamps(s));
    StampSumAbove(s, lo);
    StampSumBelow(s, hi);
    QuotientBounds(x, N, lo as real, hi as real);
  }

  lemma {:induction false} QuotientBounds(x: real, n: real, lo: real, hi: real)
    requires n > 0.0 && lo * n <= x <= hi * n
    ensures lo <= x / n <= hi
  {
    var q := x / n;
    assert q * n == x;
    assert (q - lo) * n >= 0.0;
    assert (hi - q) * n >= 0.0;
    SignOfFactor(q - lo, n);
    SignOfFactor(hi - q, n);
  }

  lemma {:induction false} SignOfFactor(a: real, n: real)
    requires n > 0.0 && a * n >= 0.0
    ensures a >= 0.0
  {
    if a < 0.0 {
      MulPositive(-a, n);
    }
  }

  /** Right after `evolve` stamps a set with the iteration, the algorithm
   *  does not run on it again in that iteration (for a positive
   *  `theta_GA`), and it runs again at the latest `theta_GA` iterations
   *  later. */
  lemma {:induction false} StampedSet(s: seq<Classifier>, iteration: int, later: int, p: XCSFConstants.Params)
    requires forall k :: 0 <= k < |s| ==> s[k].timestamp == iteration && s[k].numerosity >= 0
    requires Sum(Nums(s)) >= 1
    ensures MeanTimestamp(s) == iteration as real
    ensures p.thetaGA >= 1 ==> !Triggered(s, iteration, p)
    ensures later >= iteration + p.thetaGA ==> Triggered(s, later, p)
  {
    MeanBetween(s, iteration, iteration);
  }

  // ---------------------------------------------------------------------
  // Selection

  /** The running-sum search of `selectClassifierRW`: slot `i` is the first
   *  whose running fitness sum reaches `choiceP`. */
  ghost predicate RouletteChoice(f: seq<real>, choiceP: real, i: int)
  {
    && 0 <= i < |f|
    && choiceP <= Running(f, i)
    && forall j :: 0 <= j < i ==> Running(f, j) < choiceP
  }

  /** The running sum of the fitnesses up to and including slot `i`. */
  function Running(f: seq<real>, i: int): real
    requires 0 <= i < |f|
  {
    RealSum(f[..i + 1])
  }

  /** The wheel picks exactly one slot, and only a slot with a positive
   *  fitness past the first one; with a positive choice point the first
   *  slot too needs a positive fitness. */
  lemma {:induction false} RouletteChoiceFacts(f: seq<real>, choiceP: real, i: int, j: int)
    requires RouletteChoice(f, choiceP, i)
    ensures RouletteChoice(f, choiceP, j) ==> i == j
    ensures i > 0 || choiceP > 0.0 ==> f[i] > 0.0
  {
    assert f[..i + 1][..i] == f[..i];
    assert Running(f, i) == RealSum(f[..i]) + f[i];
    if i > 0 {
      var j := i - 1;
      assert Running(f, j) < choiceP;
      assert f[..j + 1] == f[..i];
    } else {
      assert f[..0] == [];
    }
  }

  /** The search loop of `selectClassifierRW` on the choice point. */
  method RouletteIndex(ms: ClassifierSet, choiceP: real) returns (i: int)
    requires ms.Valid() && ms.size >= 1 && choiceP <= RealSum(Fitnesses(ms.Contents()))
    ensures RouletteChoice(Fitnesses(ms.Contents()), choiceP, i)
  {
    ghost var f := Fitnesses(ms.Contents());
    i := 0;
    var cl := ms.elements[i];
    var sum := cl.fitness;
    assert cl == ms.Contents()[0];
    assert f[..1][..0] == [];
    assert Running(f, 0) == RealSum(f[..1][..0]) + f[0];
    while choiceP > sum
      invariant 0 <= i < |f| && sum == Running(f, i)
      invariant forall j :: 0 <= j < i ==> Running(f, j) < choiceP
      decreases |f| - i
    {
      assert f[..|f|] == f;
      i := i + 1;
      cl := ms.elements[i];
      assert f[..i + 1][..i] == f[..i];
      sum := sum + cl.fitness;
    }
  }

  /** A classifier the wheel can return for some draw in (0, 1). */
  ghost predicate RouletteWinner(s: seq<Classifier>, fitSum: real, c: Classifier)
    reads s
  {
    exists u: real, i :: Drawn(Fitnesses(s), fitSum, u, i) && s[i] == c
  }

  /** Slot `i` wins the wheel for the draw `u` in (0, 1). */
  ghost predicate Drawn(f: seq<real>, fitSum: real, u: real, i: int)
  {
    0.0 < u < 1.0 && RouletteChoice(f, u * fitSum, i)
  }

  /** `selectClassifierRW`: the draw scaled by the fitness sum, then the
   *  first classifier whose running fitness sum reaches it. */
  method SelectClassifierRW(ms: ClassifierSet, fitSum: real, rng: RandomGen.Random) returns (cl: Classifier)
    requires ms.Valid() && ms.size >= 1 && rng.Valid()
    requires fitSum == RealSum(Fitnesses(ms.Contents())) && fitSum >= 0.0
    modifies rng
    ensures rng.Valid()
    ensures exists i :: Drawn(Fitnesses(ms.Contents()), fitSum, rng.seed as real / RandomGen.M as real, i)
                     && cl == ms.Contents()[i]
    ensures RouletteWinner(ms.Contents(), fitSum, cl)
  {
    var u := rng.UniRand();
    var choiceP := u * fitSum;
    assert choiceP <= fitSum by {
      PredConstant.MulNonNegative(1.0 - u, fitSum);
    }
    var i := RouletteIndex(ms, choiceP);
    cl := ms.elements[i];
    assert cl == ms.Contents()[i];
    assert Drawn(Fitnesses(ms.Contents()), fitSum, u, i);
  }

  /** `fitness / numerosity`, the fitness of one micro-classifier. */
  function MicroFitness(c: Classifier): real
    reads c
    requires c.numerosity != 0
  {
    c.fitness / c.numerosity as real
  }

  /** The outcome of a tournament: the winner entered it and no entrant has
   *  a higher micro-fitness. */
  ghost predicate BestOf(winner: Classifier, entrants: set<Classifier>)
    reads entrants, winner
  {
    && winner in entrants
    && winner.numerosity != 0
    && forall e :: e in entrants ==> e.numerosity != 0 && MicroFitness(e) <= MicroFitness(winner)
  }

  /** Classifiers whose numerosity is at least 1. */
  ghost predicate Populated(s: seq<Classifier>)
    reads s
  {
    forall c :: c in s ==> c.numerosity >= 1
  }

  /** One pass of `selectClassifierTS` over the match set: every
   *  micro-classifier draws in turn, and a draw below `selectionType`
   *  enters its classifier; an entrant with a higher micro-fitness than the
   *  current winner (or the first entrant) wins, and its classifier's
   *  remaining micro-classifiers skip their draws. */
  method TournamentPass(ms: ClassifierSet, selected: Option<Classifier>, bestFitness: real,
                        ghost entrants: set<Classifier>, p: XCSFConstants.Params, rng: RandomGen.Random)
    returns (selected': Option<Classifier>, bestFitness': real, ghost entrants': set<Classifier>)
    requires ms.Valid() && Populated(ms.Contents()) && rng.Valid()
    requires entrants <= set c | c in ms.Contents()
    requires selected.None? ==> entrants == {}
    requires selected.Some? ==> BestOf(selected.value, entrants) && bestFitness == MicroFitness(selected.value)
    modifies rng
    ensures rng.Valid() && entrants <= entrants' <= set c | c in ms.Contents()
    ensures selected'.None? ==> entrants' == {}
    ensures selected'.Some? ==> BestOf(selected'.value, entrants') && bestFitness' == MicroFitness(selected'.value)
    ensures selected.Some? ==> selected'.Some?
    ensures p.selectionType >= 1.0 && ms.size >= 1 ==> selected'.Some?
  {
    ghost var s := ms.Contents();
    selected', bestFitness', entrants' := selected, bestFitness, entrants;
    for i := 0 to ms.size
      invariant rng.Valid() && entrants <= entrants' <= set c | c in s
      invariant selected'.None? ==> entrants' == {}
      invariant selected'.Some? ==> BestOf(selected'.value, entrants') && bestFitness' == MicroFitness(selected'.value)
      invariant selected.Some? ==> selected'.Some?
      invariant p.selectionType >= 1.0 && i >= 1 ==> selected'.Some?
    {
      var cl := ms.elements[i];
      assert cl in s;
      var microFitness := cl.fitness / cl.numerosity as real;
      ghost var before := selected';
      for j := 0 to cl.numerosity
        invariant rng.Valid() && entrants <= entrants' <= set c | c in s
        invariant selected'.None? ==> entrants' == {}
        invariant selected'.Some? ==> BestOf(selected'.value, entrants') && bestFitness' == MicroFitness(selected'.value)
        invariant before.Some? ==> selected'.Some?
        invariant p.selectionType >= 1.0 && j >= 1 ==> selected'.Some?
      {
        var u := rng.UniRand();
        if u < p.selectionType && (selected'.None? || microFitness > bestFitness') {
          selected', bestFitness' := Some(cl), microFitness;
          entrants' := entrants' + {cl};
          break;
        }
        if u < p.selectionType {
          entrants' := entrants' + {cl};
        }
      }
    }
  }

  /** `selectClassifierTS`: passes over the match set until some
   *  micro-classifier entered. The source repeats without bound; here at
   *  most `fuel` passes run, and `None` says that none entered in them.
   *  With `selectionType >= 1` every draw enters, so one pass over a
   *  nonempty match set always selects. */
  method SelectClassifierTS(ms: ClassifierSet, fuel: nat, p: XCSFConstants.Params, rng: RandomGen.Random)
    returns (r: Option<Classifier>, ghost entrants: set<Classifier>)
    requires ms.Valid() && Populated(ms.Contents()) && rng.Valid()
    modifies rng
    ensures rng.Valid() && entrants <= set c | c in ms.Contents()
    ensures r.Some? ==> r.value in ms.Contents() && BestOf(r.value, entrants)
    ensures p.selectionType >= 1.0 && fuel >= 1 && ms.size >= 1 ==> r.Some?
  {
    var selected: Option<Classifier> := None;
    var bestFitness := 0.0;
    entrants := {};
    var passes := 0;
    while selected.None? && passes < fuel
      invariant rng.Valid() && entrants <= set c | c in ms.Contents()
      invariant selected.None? ==> entrants == {}
      invariant selected.Some? ==> BestOf(selected.value, entrants) && bestFitness == MicroFitness(selected.value)
      invariant p.selectionType >= 1.0 && ms.size >= 1 && passes >= 1 ==> selected.Some?
      decreases fuel - passes
    {
      selected, bestFitness, entrants := TournamentPass(ms, selected, bestFitness, entrants, p, rng);
      passes := passes + 1;
    }
    r := selected;
  }

  /** A parent of `selection`: a roulette-wheel winner when
   *  `selectionType` is 0, otherwise the best of the entrants `pool` of its
   *  tournament. */
  ghost predicate Chosen(s: seq<Classifier>, fitSum: real, c: Classifier, pool: set<Classifier>,
                         p: XCSFConstants.Params)
    reads s, c, pool
  {
    && c in s
    && (p.selectionType == 0.0 ==> RouletteWinner(s, fitSum, c))
    && (p.selectionType != 0.0 ==> pool <= (set x | x in s) && BestOf(c, pool))
  }

  /** What `selection` returns: two parents, or fewer when a tournament
   *  ran out of fuel. */
  ghost predicate Selected(s: seq<Classifier>, fitSum: real, parents: seq<Classifier>,
                           pools: seq<set<Classifier>>, p: XCSFConstants.Params)
    reads s, parents, set k, e | 0 <= k < |pools| && e in pools[k] :: e
  {
    && |parents| == |pools| <= SelectionSize
    && (p.selectionType == 0.0 ==> |parents| == SelectionSize)
    && forall k :: 0 <= k < |parents| ==> Chosen(s, fitSum, parents[k], pools[k], p)
  }

  /** Whether every draw of `selection` is sure to return a classifier:
   *  always by the wheel, and by tournament when every micro-classifier
   *  enters (`selectionType >= 1`) and at least one pass may run. */
  predicate SelectionCompletes(p: XCSFConstants.Params, fuel: nat)
  {
    p.selectionType == 0.0 || (p.selectionType >= 1.0 && fuel >= 1)
  }

  /** One draw of `selection`. */
  method SelectOne(ms: ClassifierSet, fitnessSum: real, fuel: nat, p: XCSFConstants.Params, rng: RandomGen.Random)
    returns (r: Option<Classifier>, ghost pool: set<Classifier>)
    requires ms.Valid() && ms.size >= 1 && Populated(ms.Contents()) && rng.Valid()
    requires fitnessSum == RealSum(Fitnesses(ms.Contents())) && fitnessSum >= 0.0
    modifies rng
    ensures rng.Valid() && (SelectionCompletes(p, fuel) ==> r.Some?)
    ensures r.Some? ==> Chosen(ms.Contents(), fitnessSum, r.value, pool, p)
  {
    if p.selectionType == 0.0 {
      var cl := SelectClassifierRW(ms, fitnessSum, rng);
      r, pool := Some(cl), {};
    } else {
      r, pool := SelectClassifierTS(ms, fuel, p, rng);
    }
  }

  /** `selection`: `SELECTION_SIZE` draws by the wheel or by tournament. A
   *  tournament that runs out of `fuel` ends the selection early. */
  method Selection(ms: ClassifierSet, fitnessSum: real, fuel: nat, p: XCSFConstants.Params, rng: RandomGen.Random)
    returns (parents: seq<Classifier>, ghost pools: seq<set<Classifier>>)
    requires ms.Valid() && ms.size >= 1 && Populated(ms.Contents()) && rng.Valid()
    requires fitnessSum == RealSum(Fitnesses(ms.Contents())) && fitnessSum >= 0.0
    modifies rng
    ensures rng.Valid() && Selected(ms.Contents(), fitnessSum, parents, pools, p)
    ensures SelectionCompletes(p, fuel) ==> |parents| == SelectionSize
  {
    ghost var s := ms.Contents();
    parents, pools := [], [];
    var i := 0;
    while i < SelectionSize
      invariant 0 <= i <= SelectionSize && rng.Valid() && |parents| == |pools| <= i
      invariant SelectionCompletes(p, fuel) ==> |parents| == i
      invariant forall k :: 0 <= k < |parents| ==> Chosen(s, fitnessSum, parents[k], pools[k], p)
    {
      var r, pool := SelectOne(ms, fitnessSum, fuel, p, rng);
      if r.None? {
        break;
      }
      parents, pools := parents + [r.value], pools + [pool];
      i := i + 1;
    }
  }

  // ---------------------------------------------------------------------
  // Reproduction and variation

  /** A classifier the algorithm can work on: valid, with a condition of
   *  dimension `dim` and no cached input, and a prediction of `L` inputs
   *  and `O` outputs. */
  ghost predicate Shaped(c: Classifier, dim: nat, L: int, O: int)
    reads c, c.condition, c.prediction
  {
    && c.Valid() && c.condition.dimension == dim && c.condition.conditionInput.None?
    && c.prediction.inputLength == L && c.prediction.predictionLength == O
  }

  /** What `reproduce` makes of `parent`: a valid copy of one
   *  micro-classifier, its fitness scaled down by the numerosity and the
   *  reduction factor, its error by the error reduction. */
  ghost predicate Clone(c: Classifier, parent: Classifier, p: XCSFConstants.Params)
    reads c, c.condition, c.prediction, parent, parent.condition, parent.prediction
    requires parent.numerosity != 0
  {
    && c.Valid() && c.condition.conditionInput.None?
    && c.numerosity == 1 && c.experience == 0
    && c.fitness == parent.fitness / parent.numerosity as real * p.fitnessReduction
    && c.predictionError == parent.predictionError * p.predictionErrorReduction
    && c.setSizeEstimate == parent.setSizeEstimate && c.timestamp == parent.timestamp
    && c.condition.dimension == parent.condition.dimension
    && c.condition.center == parent.condition.center && c.condition.stretch == parent.condition.stretch
    && c.prediction.inputLength == parent.prediction.inputLength
    && c.prediction.predictionLength == parent.prediction.predictionLength
    && c.prediction.coefficients == parent.prediction.coefficients
  }

  /** The reproduction loop of `evolve`: one `reproduce` per parent, in
   *  order. */
  method Reproduction(parents: seq<Classifier>, p: XCSFConstants.Params) returns (offspring: seq<Classifier>)
    requires forall k :: 0 <= k < |parents| ==> parents[k].Valid() && parents[k].numerosity != 0
    ensures |offspring| == |parents| && Separate(offspring)
    ensures forall k :: 0 <= k < |offspring| ==>
      fresh(offspring[k]) && fresh(offspring[k].condition) && fresh(offspring[k].prediction)
    ensures forall k :: 0 <= k < |offspring| ==> Clone(offspring[k], parents[k], p)
  {
    offspring := [];
    for i := 0 to |parents|
      invariant |offspring| == i && Separate(offspring)
      invariant forall k :: 0 <= k < i ==>
        fresh(offspring[k]) && fresh(offspring[k].condition) && fresh(offspring[k].prediction)
      invariant forall k :: 0 <= k < i ==> Clone(offspring[k], parents[k], p)
    {
      var clone := parents[i].Reproduce(p);
      offspring := offspring + [clone];
    }
  }

  /** The partner of slot `k` among `n` offspring when pairs are taken
   *  from the end: `k - 1` or `k + 1`; -1 leaves the first slot of an odd
   *  count alone. */
  function Mate(k: int, n: int): int
  {
    if (n - 1 - k) % 2 == 0 then k - 1 else k + 1
  }

  /** Pairing is mutual, and only the first slot of an odd count is left
   *  without a partner. */
  lemma {:induction false} MatesPair(k: int, n: int)
    requires 0 <= k < n
    ensures 0 <= Mate(k, n) < n <==> !(k == 0 && n % 2 == 1)
    ensures 0 <= Mate(k, n) < n ==> Mate(Mate(k, n), n) == k
  {
  }

  /** The values after crossover: each paired slot gets the mean of the
   *  pair, an unpaired slot keeps its value. */
  function Averaged(f: seq<real>): (r: seq<real>)
    ensures |r| == |f|
  {
    seq(|f|, k requires 0 <= k < |f| =>
      if 0 <= Mate(k, |f|) < |f| then (f[k] + f[Mate(k, |f|)]) / 2.0 else f[k])
  }

  /** Crossover keeps the total: averaging pairs does not change the sum of
   *  the fitnesses or of the errors. */
  lemma {:induction false} AveragedSum(f: seq<real>)
    ensures RealSum(Averaged(f)) == RealSum(f)
    decreases |f|
  {
    var n := |f|;
    if n <= 1 {
      assert Averaged(f) == f;
    } else {
      var g := f[..n - 2];
      AveragedSum(g);
      var a := (f[n - 2] + f[n - 1]) / 2.0;
      AveragedSplit(f);
      assert f == g + [f[n - 2], f[n - 1]];
      SumTwoMore(Averaged(g), a, a);
      SumTwoMore(g, f[n - 2], f[n - 1]);
    }
  }

  /** The last pair of slots averages on its own; the slots before it pair
   *  as they would without it. */
  lemma {:induction false} AveragedSplit(f: seq<real>)
    requires |f| >= 2
    ensures var n := |f|; var a := (f[n - 2] + f[n - 1]) / 2.0;
      Averaged(f) == Averaged(f[..n - 2]) + [a, a]
  {
    var n := |f|;
    var g := f[..n - 2];
    forall k | 0 <= k < n - 2 ensures Averaged(f)[k] == Averaged(g)[k] {
      assert (n - 1 - k) % 2 == (n - 2 - 1 - k) % 2 by {
        assert n - 1 - k == (n - 2 - 1 - k) + 2;
      }
      assert Mate(k, n) == Mate(k, n - 2);
    }
    assert Mate(n - 2, n) == n - 1 && Mate(n - 1, n) == n - 2;
  }

  lemma {:induction false} SumTwoMore(x: seq<real>, a: real, b: real)
    ensures RealSum(x + [a, b]) == RealSum(x) + a + b
  {
    assert (x + [a, b])[..|x| + 1] == x + [a];
    assert (x + [a])[..|x|] == x;
  }

  /** The experience of every classifier. */
  ghost function Experiences(s: seq<Classifier>): (v: seq<int>)
    reads s
    ensures |v| == |s| && forall k :: 0 <= k < |s| ==> v[k] == s[k].experience
  {
    seq(|s|, k requires 0 <= k < |s| reads s => s[k].experience)
  }

  /** Offspring `c` during the crossover loop: its shape, numerosity and
   *  experience as before, its fitness and error `f` and `e`. */
  ghost predicate VaryAt(c: Classifier, dim: nat, L: int, O: int, n: int, x: int, f: real, e: real)
    reads c, c.condition, c.prediction
  {
    Shaped(c, dim, L, O) && c.numerosity == n && c.experience == x && c.fitness == f && c.predictionError == e
  }

  /** The value of slot `k` while the loop has `index` to go: averaged
   *  above `index`, as before the loop at or below it. */
  function Stage(f: seq<real>, k: int, index: int): real
    requires 0 <= k < |f|
  {
    if k > index then Averaged(f)[k] else f[k]
  }

  /** The crossover loop with `index` still to go: the slots above it hold
   *  the averaged values, the others the values before the loop. */
  ghost predicate VaryProgress(o: seq<Classifier>, index: int, dim: nat, L: int, O: int,
                               N0: seq<int>, X0: seq<int>, F0: seq<real>, E0: seq<real>)
    reads set c | c in o, set c | c in o :: c.condition, set c | c in o :: c.prediction
  {
    && -1 <= index < |o| && (index == -1 || (|o| - 1 - index) % 2 == 0)
    && |N0| == |X0| == |F0| == |E0| == |o|
    && forall k :: 0 <= k < |o| ==>
      VaryAt(o[k], dim, L, O, N0[k], X0[k], Stage(F0, k, index),
             Stage(E0, k, index))
  }

  /** One turn of the crossover loop: the pair at `index` and `index - 1`
   *  is crossed, then both are mutated. */
  method VaryPair(o: seq<Classifier>, index: int, ghost dim: nat, ghost L: int, ghost O: int,
                  ghost N0: seq<int>, ghost X0: seq<int>, ghost F0: seq<real>, ghost E0: seq<real>,
                  p: XCSFConstants.Params, rng: RandomGen.Random)
    requires Separate(o) && rng.Valid() && index >= 1
    requires VaryProgress(o, index, dim, L, O, N0, X0, F0, E0)
    modifies rng, o[index], o[index - 1], o[index].condition, o[index - 1].condition
    modifies o[index].prediction, o[index - 1].prediction
    ensures rng.Valid() && VaryProgress(o, index - 2, dim, L, O, N0, X0, F0, E0)
  {
    var cl1, cl2 := o[index], o[index - 1];
    assert VaryAt(cl1, dim, L, O, N0[index], X0[index], F0[index], E0[index]);
    assert VaryAt(cl2, dim, L, O, N0[index - 1], X0[index - 1], F0[index - 1], E0[index - 1]);
    assert Mate(index, |o|) == index - 1 && Mate(index - 1, |o|) == index;
    CrossAndMutate(cl1, cl2, dim, L, O, N0[index], X0[index], F0[index], E0[index],
                   N0[index - 1], X0[index - 1], F0[index - 1], E0[index - 1], p, rng);
    forall k | 0 <= k < |o|
      ensures VaryAt(o[k], dim, L, O, N0[k], X0[k], Stage(F0, k, index - 2),
                     Stage(E0, k, index - 2))
    {
      if k != index && k != index - 1 {
        assert old(VaryAt(o[k], dim, L, O, N0[k], X0[k], Stage(F0, k, index),
                          Stage(E0, k, index)));
      }
    }
  }

  /** `cl1.crossover(cl2)`, `cl1.mutation()`, `cl2.mutation()`. */
  method CrossAndMutate(cl1: Classifier, cl2: Classifier, ghost dim: nat, ghost L: int, ghost O: int,
                        ghost n1: int, ghost x1: int, ghost f1: real, ghost e1: real,
                        ghost n2: int, ghost x2: int, ghost f2: real, ghost e2: real,
                        p: XCSFConstants.Params, rng: RandomGen.Random)
    requires rng.Valid() && cl1 != cl2 && cl1.condition != cl2.condition && cl1.prediction != cl2.prediction
    requires VaryAt(cl1, dim, L, O, n1, x1, f1, e1) && VaryAt(cl2, dim, L, O, n2, x2, f2, e2)
    modifies rng, cl1, cl2, cl1.condition, cl2.condition, cl1.prediction, cl2.prediction
    ensures rng.Valid()
    ensures VaryAt(cl1, dim, L, O, n1, x1, (f1 + f2) / 2.0, (e1 + e2) / 2.0)
    ensures VaryAt(cl2, dim, L, O, n2, x2, (f2 + f1) / 2.0, (e2 + e1) / 2.0)
  {
    cl1.Crossover(cl2, p, rng);
    cl1.Mutation(p, rng);
    cl2.Mutation(p, rng);
  }

  /** The end of the crossover loop for an odd count: the first offspring
   *  is mutated alone. */
  method VaryLast(o: seq<Classifier>, ghost dim: nat, ghost L: int, ghost O: int,
                  ghost N0: seq<int>, ghost X0: seq<int>, ghost F0: seq<real>, ghost E0: seq<real>,
                  p: XCSFConstants.Params, rng: RandomGen.Random)
    requires Separate(o) && rng.Valid()
    requires VaryProgress(o, 0, dim, L, O, N0, X0, F0, E0)
    modifies rng, o[0].condition
    ensures rng.Valid() && VaryProgress(o, -1, dim, L, O, N0, X0, F0, E0)
  {
    assert VaryAt(o[0], dim, L, O, N0[0], X0[0], F0[0], E0[0]);
    o[0].Mutation(p, rng);
    assert Mate(0, |o|) == -1;
    forall k | 0 <= k < |o|
      ensures VaryAt(o[k], dim, L, O, N0[k], X0[k], Stage(F0, k, -1),
                     Stage(E0, k, -1))
    {
      if k != 0 {
        assert old(VaryAt(o[k], dim, L, O, N0[k], X0[k], Stage(F0, k, 0),
                          Stage(E0, k, 0)));
      }
    }
  }

  /** The crossover and mutation of `evolve`: pairs are taken from the end
   *  of the offspring; each pair is crossed (fitness and error become the
   *  pair's means) and both are mutated; the first offspring of an odd
   *  count is only mutated. */
  method Vary(o: seq<Classifier>, ghost dim: nat, ghost L: int, ghost O: int,
              p: XCSFConstants.Params, rng: RandomGen.Random)
    requires Separate(o) && rng.Valid()
    requires forall k :: 0 <= k < |o| ==> Shaped(o[k], dim, L, O)
    modifies rng, set c | c in o, set c | c in o :: c.condition, set c | c in o :: c.prediction
    ensures rng.Valid() && forall k :: 0 <= k < |o| ==> Shaped(o[k], dim, L, O)
    ensures Fitnesses(o) == Averaged(old(Fitnesses(o))) && MatchSets.Errors(o) == Averaged(old(MatchSets.Errors(o)))
    ensures Nums(o) == old(Nums(o)) && Experiences(o) == old(Experiences(o))
  {
    ghost var N0, X0, F0, E0 := Nums(o), Experiences(o), Fitnesses(o), MatchSets.Errors(o);
    VaryStart(o, dim, L, O, N0, X0, F0, E0);
    var index := CrossPairs(o, dim, L, O, N0, X0, F0, E0, p, rng);
    if index == 0 {
      VaryLast(o, dim, L, O, N0, X0, F0, E0, p, rng);
    }
    VaryEnd(o, dim, L, O, N0, X0, F0, E0);
  }

  /** The loop of the crossover over the pairs, from the end; it stops at
   *  the first slot (an odd count) or before it. */
  method CrossPairs(o: seq<Classifier>, ghost dim: nat, ghost L: int, ghost O: int,
                    ghost N0: seq<int>, ghost X0: seq<int>, ghost F0: seq<real>, ghost E0: seq<real>,
                    p: XCSFConstants.Params, rng: RandomGen.Random)
    returns (index: int)
    requires Separate(o) && rng.Valid()
    requires VaryProgress(o, |o| - 1, dim, L, O, N0, X0, F0, E0)
    modifies rng, set c | c in o, set c | c in o :: c.condition, set c | c in o :: c.prediction
    ensures rng.Valid() && -1 <= index <= 0 && VaryProgress(o, index, dim, L, O, N0, X0, F0, E0)
  {
    index := |o| - 1;
    while index > 0
      invariant rng.Valid() && index >= -1 && VaryProgress(o, index, dim, L, O, N0, X0, F0, E0)
      decreases index
    {
      VaryPair(o, index, dim, L, O, N0, X0, F0, E0, p, rng);
      index := index - 2;
    }
  }

  lemma {:induction false} VaryStart(o: seq<Classifier>, dim: nat, L: int, O: int,
                  N0: seq<int>, X0: seq<int>, F0: seq<real>, E0: seq<real>)
    requires forall k :: 0 <= k < |o| ==> Shaped(o[k], dim, L, O)
    requires N0 == Nums(o) && X0 == Experiences(o) && F0 == Fitnesses(o) && E0 == MatchSets.Errors(o)
    ensures VaryProgress(o, |o| - 1, dim, L, O, N0, X0, F0, E0)
  {
  }

  lemma {:induction false} VaryEnd(o: seq<Classifier>, dim: nat, L: int, O: int,
                N0: seq<int>, X0: seq<int>, F0: seq<real>, E0: seq<real>)
    requires VaryProgress(o, -1, dim, L, O, N0, X0, F0, E0)
    ensures forall k :: 0 <= k < |o| ==> Shaped(o[k], dim, L, O)
    ensures Fitnesses(o) == Averaged(F0) && MatchSets.Errors(o) == Averaged(E0)
    ensures Nums(o) == N0 && Experiences(o) == X0
  {
    forall k | 0 <= k < |o|
      ensures Shaped(o[k], dim, L, O) && o[k].fitness == Averaged(F0)[k] && o[k].predictionError == Averaged(E0)[k]
      ensures o[k].numerosity == N0[k] && o[k].experience == X0[k]
    {
      assert VaryAt(o[k], dim, L, O, N0[k], X0[k], Averaged(F0)[k], Averaged(E0)[k]);
    }
  }

  // ---------------------------------------------------------------------
  // Insertion

  /** `receiver` is the first classifier of `s` whose condition is
   *  identical to that of `cl`, or `cl` itself when there is none. */
  ghost predicate FirstIdentical(s: seq<Classifier>, cl: Classifier, receiver: Classifier)
    reads set c | c in s :: c.condition, cl.condition
  {
    if exists k :: 0 <= k < |s| && Identical(s[k].condition, cl.condition) then
      exists k :: && 0 <= k < |s| && s[k] == receiver && Identical(s[k].condition, cl.condition)
                  && forall j :: 0 <= j < k ==> !Identical(s[j].condition, cl.condition)
    else
      receiver == cl
  }

  /** The statistics but the numerosity of every classifier of `s` are as
   *  before, and only `receiver` gained one micro-classifier. */
  twostate predicate OnlyCredited(s: seq<Classifier>, new receiver: Classifier, cl: Classifier)
    reads s
  {
    forall c :: c in s ==>
      && c.fitness == old(c.fitness) && c.experience == old(c.experience)
      && c.setSizeEstimate == old(c.setSizeEstimate) && c.predictionError == old(c.predictionError)
      && c.timestamp == old(c.timestamp)
      && c.numerosity == old(c.numerosity) + (if c == receiver && receiver != cl then 1 else 0)
  }

  /** `insertClassifier`: a classifier of the match set (when `cl` matches)
   *  or of the population (otherwise) with an identical condition gains a
   *  micro-classifier; failing that `cl` joins the population, if a slot is
   *  free (the Java array store would throw otherwise). When `guarded`, a
   *  classifier found that is no longer in the population counts as not
   *  found (the corrected insertion). */
  method InsertClassifier(cl: Classifier, pop: ClassifierSet, ms: ClassifierSet, doesMatch: bool, guarded: bool,
                          ghost s: seq<Classifier>, ghost dim: nat)
    returns (inserted: bool, ghost receiver: Classifier)
    requires pop.Valid() && ms.Valid() && pop != ms && pop.elements != ms.elements
    requires forall c :: c in ms.Contents() ==> c in s
    requires forall c :: c in pop.Contents() ==> c in s
    requires cl.Valid() && cl.condition.dimension == dim
    requires AllValid(s, dim)
    requires cl !in ms.Contents() && cl !in pop.Contents()
    modifies pop, pop.elements, set c | c in s
    ensures pop.Valid() && ms.Contents() == old(ms.Contents()) && AllValid(s, dim)
    ensures !guarded || receiver != cl ==>
      FirstIdentical(if doesMatch then ms.Contents() else old(pop.Contents()), cl, receiver)
    ensures OnlyCredited(s, receiver, cl)
    ensures receiver != cl ==> !inserted && receiver in ms.Contents() + old(pop.Contents())
    ensures guarded && receiver != cl ==> receiver in old(pop.Contents())
    ensures receiver == cl ==> (inserted <==> old(pop.size) < pop.elements.Length)
    ensures pop.Contents() == old(pop.Contents()) + (if inserted then [cl] else [])
  {
    ghost var searched := if doesMatch then ms.Contents() else pop.Contents();
    var identical := Lookup(cl, pop, ms, doesMatch, s, dim);
    inserted, receiver := Settle(identical, cl, pop, guarded, s, searched, dim);
  }

  /** The second half of `insertClassifier`: credit the classifier found,
   *  or add `cl` to the population. When `guarded`, only a classifier
   *  still in the population is credited. */
  method Settle(identical: Option<Classifier>, cl: Classifier, pop: ClassifierSet, guarded: bool,
                ghost s: seq<Classifier>, ghost searched: seq<Classifier>, ghost dim: nat)
    returns (inserted: bool, ghost receiver: Classifier)
    requires pop.Valid() && AllValid(s, dim)
    requires identical.Some? ==> identical.value in s && identical.value != cl
    requires FirstIdentical(searched, cl, if identical.Some? then identical.value else cl)
    modifies pop, pop.elements, set c | c in s
    ensures pop.Valid() && AllValid(s, dim)
    ensures receiver == (if identical.Some? && (!guarded || identical.value in old(pop.Contents()))
                         then identical.value else cl)
    ensures identical.None? || receiver != cl ==> FirstIdentical(searched, cl, receiver)
    ensures OnlyCredited(s, receiver, cl)
    ensures receiver != cl ==> !inserted && pop.Contents() == old(pop.Contents())
    ensures receiver == cl ==> (inserted <==> old(pop.size) < pop.elements.Length)
    ensures pop.Contents() == old(pop.Contents()) + (if inserted then [cl] else [])
  {
    if identical.Some? && (!guarded || identical.value in pop.elements[..pop.size]) {
      Credit(identical.value, s, cl, dim);
      receiver := identical.value;
      inserted := false;
    } else {
      receiver := cl;
      inserted := AppendIfFree(pop, cl, s, dim);
    }
  }

  /** The search of `insertClassifier`: `findIdenticalCondition` on the
   *  match set or on the population. */
  method Lookup(cl: Classifier, pop: ClassifierSet, ms: ClassifierSet, doesMatch: bool,
                ghost s: seq<Classifier>, ghost dim: nat)
    returns (identical: Option<Classifier>)
    requires pop.Valid() && ms.Valid()
    requires cl.Valid() && cl.condition.dimension == dim && AllValid(s, dim)
    requires forall c :: c in ms.Contents() ==> c in s
    requires forall c :: c in pop.Contents() ==> c in s
    ensures identical.Some? ==> identical.value in ms.Contents() + pop.Contents()
    ensures FirstIdentical(if doesMatch then ms.Contents() else pop.Contents(), cl,
                           if identical.Some? then identical.value else cl)
  {
    if doesMatch {
      identical := ms.FindIdenticalCondition(cl.condition);
    } else {
      identical := pop.FindIdenticalCondition(cl.condition);
    }
  }

  /** `addNumerosity(1)` on the classifier found. */
  method Credit(c: Classifier, ghost s: seq<Classifier>, ghost cl: Classifier, ghost dim: nat)
    requires AllValid(s, dim) && c != cl
    modifies c
    ensures OnlyCredited(s, c, cl) && AllValid(s, dim)
  {
    c.AddNumerosity(1);
  }

  /** `population.add(cl)` when a slot is free. */
  method AppendIfFree(pop: ClassifierSet, cl: Classifier, ghost s: seq<Classifier>, ghost dim: nat)
    returns (inserted: bool)
    requires pop.Valid() && AllValid(s, dim)
    modifies pop, pop.elements
    ensures pop.Valid() && OnlyCredited(s, cl, cl) && AllValid(s, dim)
    ensures inserted <==> old(pop.size) < pop.elements.Length
    ensures pop.Contents() == old(pop.Contents()) + (if inserted then [cl] else [])
  {
    inserted := pop.size < pop.elements.Length;
    if inserted {
      pop.Add(cl);
    }
  }

  // ---------------------------------------------------------------------
  // Subsumption

  /** `c.canSubsume() && c.isMoreGeneral(cl)`: an experienced, accurate
   *  classifier whose rectangle contains that of `cl`. */
  ghost predicate Subsumes(c: Classifier, cl: Classifier, p: XCSFConstants.Params)
    reads c, c.condition, cl.condition
  {
    && c.CanSubsume(p)
    && |c.condition.center| == |c.condition.stretch| == |cl.condition.center| == |cl.condition.stretch|
    && Rectangle.Contains(c.condition.center, c.condition.stretch, cl.condition.center, cl.condition.stretch)
  }

  /** The entries of `s` whose flag in `f` is set, in order. */
  function Filter<T>(s: seq<T>, f: seq<bool>): (r: seq<T>)
    requires |f| == |s|
    ensures |r| <= |s|
  {
    if |s| == 0 then [] else Filter(s[..|s| - 1], f[..|f| - 1]) + (if f[|f| - 1] then [s[|s| - 1]] else [])
  }

  /** The filter keeps exactly the flagged entries. */
  lemma {:induction false} FilterExactly<T>(s: seq<T>, f: seq<bool>)
    requires |f| == |s|
    ensures forall x :: x in Filter(s, f) ==> exists k :: 0 <= k < |s| && s[k] == x && f[k]
    ensures forall k :: 0 <= k < |s| && f[k] ==> s[k] in Filter(s, f)
  {
    if |s| > 0 {
      FilterExactly(s[..|s| - 1], f[..|f| - 1]);
    }
  }

  /** Filtering distributes over concatenation. */
  lemma {:induction false} FilterConcat<T>(a: seq<T>, fa: seq<bool>, b: seq<T>, fb: seq<bool>)
    requires |fa| == |a| && |fb| == |b|
    ensures Filter(a + b, fa + fb) == Filter(a, fa) + Filter(b, fb)
    decreases |b|
  {
    if |b| == 0 {
      assert a + b == a && fa + fb == fa;
    } else {
      assert (a + b)[..|a + b| - 1] == a + b[..|b| - 1];
      assert (fa + fb)[..|fa + fb| - 1] == fa + fb[..|fb| - 1];
      FilterConcat(a, fa, b[..|b| - 1], fb[..|fb| - 1]);
    }
  }

  /** One more entry extends the filter of a prefix. */
  lemma {:induction false} FilterStep<T>(s: seq<T>, f: seq<bool>, i: int)
    requires |f| == |s| && 0 <= i < |s|
    ensures Filter(s[..i + 1], f[..i + 1]) == Filter(s[..i], f[..i]) + (if f[i] then [s[i]] else [])
  {
    assert s[..i + 1][..i] == s[..i] && f[..i + 1][..i] == f[..i];
  }

  /** When no entry before `i` is flagged and entry `i` is, entry `i` heads
   *  the filter. */
  lemma {:induction false} FilterFirstAt<T>(s: seq<T>, f: seq<bool>, i: int)
    requires |f| == |s| && 0 <= i < |s| && Filter(s[..i], f[..i]) == [] && f[i]
    ensures Filter(s, f) != [] && Filter(s, f)[0] == s[i]
  {
    FilterStep(s, f, i);
    FilterConcat(s[..i + 1], f[..i + 1], s[i + 1..], f[i + 1..]);
    assert s[..i + 1] + s[i + 1..] == s && f[..i + 1] + f[i + 1..] == f;
  }

  /** Whether each classifier of `s` subsumes `cl`. */
  ghost function SubsumerFlags(s: seq<Classifier>, cl: Classifier, p: XCSFConstants.Params): (f: seq<bool>)
    reads s, set c | c in s :: c.condition, cl.condition
    ensures |f| == |s|
  {
    seq(|s|, k reads s, set c | c in s :: c.condition, cl.condition
                requires 0 <= k < |s| => Subsumes(s[k], cl, p))
  }

  /** The classifiers of `s` that subsume `cl`, in order. */
  ghost function SubsumersOf(s: seq<Classifier>, cl: Classifier, p: XCSFConstants.Params): seq<Classifier>
    reads s, set c | c in s :: c.condition, cl.condition
  {
    Filter(s, SubsumerFlags(s, cl, p))
  }

  /** The subsumers are exactly the members of `s` that subsume `cl`. */
  lemma {:induction false} SubsumersExactly(s: seq<Classifier>, cl: Classifier, p: XCSFConstants.Params)
    ensures forall c :: c in SubsumersOf(s, cl, p) ==> c in s && Subsumes(c, cl, p)
    ensures forall c :: c in s && Subsumes(c, cl, p) ==> c in SubsumersOf(s, cl, p)
  {
    FilterExactly(s, SubsumerFlags(s, cl, p));
  }

  /** The parent loop of `subsumeClassifier`: the first parent that
   *  subsumes `cl`, if any. */
  method FindSubsumer(parents: seq<Classifier>, cl: Classifier, ghost dim: nat, ghost P: seq<Classifier>,
                      p: XCSFConstants.Params)
    returns (r: Option<Classifier>)
    requires AllValid(parents, dim) && cl.Valid() && cl.condition.dimension == dim
    requires P == SubsumersOf(parents, cl, p)
    ensures r.None? <==> P == []
    ensures r.Some? ==> r.value == P[0] && r.value in parents
  {
    ghost var F := SubsumerFlags(parents, cl, p);
    for i := 0 to |parents|
      invariant Filter(parents[..i], F[..i]) == []
    {
      FilterStep(parents, F, i);
      var clP := parents[i];
      if clP.CanSubsume(p) {
        var general := clP.IsMoreGeneral(cl);
        if general {
          FilterFirstAt(parents, F, i);
          return Some(clP);
        }
      }
    }
    assert parents[..|parents|] == parents && F[..|F|] == F;
    r := None;
  }

  /** The match-set loop of `subsumeClassifier`: the subsumers among the
   *  members, in slot order. */
  method CollectSubsumers(ms: ClassifierSet, cl: Classifier, ghost dim: nat, ghost C: seq<Classifier>,
                          p: XCSFConstants.Params)
    returns (choices: seq<Classifier>)
    requires ms.Valid() && AllValid(ms.Contents(), dim) && cl.Valid() && cl.condition.dimension == dim
    requires C == SubsumersOf(ms.Contents(), cl, p)
    ensures choices == C
    ensures forall c :: c in choices ==> c in ms.Contents()
  {
    ghost var s := ms.Contents();
    ghost var F := SubsumerFlags(s, cl, p);
    choices := [];
    for i := 0 to ms.size
      invariant choices == Filter(s[..i], F[..i])
    {
      FilterStep(s, F, i);
      var c := ms.elements[i];
      assert c == s[i];
      if c.CanSubsume(p) {
        var general := c.IsMoreGeneral(cl);
        if general {
          choices := choices + [c];
        }
      }
    }
    assert s[..ms.size] == s && F[..|F|] == F;
    SubsumersExactly(s, cl, p);
  }

  /** `(int) (u * n)`: the slot a uniform draw in (0, 1) picks among `n`. */
  function Slot(u: real, n: nat): (k: int)
    requires 0.0 < u < 1.0 && n > 0
    ensures 0 <= k < n
  {
    assert u * n as real < n as real;
    (u * n as real).Floor
  }

  /** `r` is the entry of `choices` the draw `u` picks. */
  ghost predicate PickedAt(choices: seq<Classifier>, u: real, r: Classifier)
  {
    0.0 < u < 1.0 && |choices| > 0 && r == choices[Slot(u, |choices|)]
  }

  /** `subsumeClassifier`: the first parent that subsumes `cl` gains a
   *  micro-classifier; failing that, one of the subsumers in the match set
   *  drawn uniformly; failing that, `cl` is inserted as a matching
   *  classifier. When `guarded`, a classifier found that is no longer in
   *  the population counts as not found. */
  method SubsumeClassifier(cl: Classifier, parents: seq<Classifier>, pop: ClassifierSet, ms: ClassifierSet,
                           guarded: bool, ghost s: seq<Classifier>, ghost P: seq<Classifier>, ghost C: seq<Classifier>,
                           ghost dim: nat, p: XCSFConstants.Params, rng: RandomGen.Random)
    returns (inserted: bool, ghost receiver: Classifier, ghost target: Option<Classifier>)
    requires pop.Valid() && ms.Valid() && pop != ms && pop.elements != ms.elements && rng.Valid()
    requires forall c :: c in parents ==> c in s
    requires forall c :: c in ms.Contents() ==> c in s
    requires forall c :: c in pop.Contents() ==> c in s
    requires cl.Valid() && cl.condition.dimension == dim
    requires cl !in parents && cl !in ms.Contents() && cl !in pop.Contents()
    requires AllValid(s, dim)
    requires P == SubsumersOf(parents, cl, p) && C == SubsumersOf(ms.Contents(), cl, p)
    modifies pop, pop.elements, rng, set c | c in s
    ensures pop.Valid() && rng.Valid() && ms.Contents() == old(ms.Contents()) && AllValid(s, dim)
    ensures OnlyCredited(s, receiver, cl)
    ensures pop.Contents() == old(pop.Contents()) + (if inserted then [cl] else [])
    ensures receiver != cl ==> !inserted && receiver in parents + ms.Contents() + old(pop.Contents())
    ensures guarded && receiver != cl ==> receiver in old(pop.Contents())
    ensures receiver == cl ==> (inserted <==> old(pop.size) < pop.elements.Length)
    ensures target.Some? && (!guarded || target.value in old(pop.Contents())) ==> receiver == target.value
    ensures target.None? && (!guarded || receiver != cl) ==> FirstIdentical(ms.Contents(), cl, receiver)
    ensures P != [] ==> target == Some(P[0]) && rng.seed == old(rng.seed)
    ensures P == [] && C != [] ==> target.Some? && PickedAt(C, rng.seed as real / RandomGen.M as real, target.value)
    ensures P == [] && C == [] ==> target.None? && rng.seed == old(rng.seed)
  {
    var found := FindTarget(cl, parents, ms, dim, s, P, C, p, rng);
    target := found;
    inserted, receiver := Absorb(found, cl, parents, pop, ms, guarded, s, dim);
  }

  /** The classifier found gains a micro-classifier; without one, `cl` is
   *  inserted as a matching classifier. When `guarded`, a classifier found
   *  that is no longer in the population counts as not found. */
  method Absorb(target: Option<Classifier>, cl: Classifier, ghost parents: seq<Classifier>, pop: ClassifierSet,
                ms: ClassifierSet, guarded: bool, ghost s: seq<Classifier>, ghost dim: nat)
    returns (inserted: bool, ghost receiver: Classifier)
    requires pop.Valid() && ms.Valid() && pop != ms && pop.elements != ms.elements
    requires forall c :: c in ms.Contents() ==> c in s
    requires forall c :: c in pop.Contents() ==> c in s
    requires cl.Valid() && cl.condition.dimension == dim
    requires cl !in ms.Contents() && cl !in pop.Contents()
    requires AllValid(s, dim)
    requires target.Some? ==> target.value in s && target.value != cl && target.value in parents + ms.Contents()
    modifies pop, pop.elements, set c | c in s
    ensures pop.Valid() && ms.Contents() == old(ms.Contents()) && AllValid(s, dim)
    ensures OnlyCredited(s, receiver, cl)
    ensures pop.Contents() == old(pop.Contents()) + (if inserted then [cl] else [])
    ensures receiver != cl ==> !inserted
    ensures receiver == cl ==> (inserted <==> old(pop.size) < pop.elements.Length)
    ensures receiver != cl ==> receiver in parents + ms.Contents() + old(pop.Contents())
    ensures guarded && receiver != cl ==> receiver in old(pop.Contents())
    ensures target.Some? && (!guarded || target.value in old(pop.Contents())) ==> receiver == target.value
    ensures target.None? && (!guarded || receiver != cl) ==> FirstIdentical(ms.Contents(), cl, receiver)
  {
    if target.Some? && (!guarded || target.value in pop.elements[..pop.size]) {
      Credit(target.value, s, cl, dim);
      return false, target.value;
    }
    inserted, receiver := InsertClassifier(cl, pop, ms, true, guarded, s, dim);
  }

  /** The two searches of `subsumeClassifier`: the classifier that is to
   *  gain a micro-classifier, if any subsumes `cl`. */
  method FindTarget(cl: Classifier, parents: seq<Classifier>, ms: ClassifierSet, ghost dim: nat,
                    ghost s: seq<Classifier>, ghost P: seq<Classifier>, ghost C: seq<Classifier>,
                    p: XCSFConstants.Params, rng: RandomGen.Random)
    returns (target: Option<Classifier>)
    requires ms.Valid() && rng.Valid() && cl.Valid() && cl.condition.dimension == dim
    requires AllValid(s, dim) && (forall c :: c in parents ==> c in s) && (forall c :: c in ms.Contents() ==> c in s)
    requires P == SubsumersOf(parents, cl, p) && C == SubsumersOf(ms.Contents(), cl, p)
    requires cl !in parents && cl !in ms.Contents()
    modifies rng
    ensures rng.Valid()
    ensures target.Some? ==> target.value in parents + ms.Contents() && target.value != cl
    ensures P != [] ==> target == Some(P[0]) && rng.seed == old(rng.seed)
    ensures P == [] && C != [] ==> target.Some? && PickedAt(C, rng.seed as real / RandomGen.M as real, target.value)
    ensures P == [] && C == [] ==> target.None? && rng.seed == old(rng.seed)
  {
    target := FindSubsumer(parents, cl, dim, P, p);
    if target.Some? {
      return;
    }
    var choices := CollectSubsumers(ms, cl, dim, C, p);
    if |choices| > 0 {
      var chosen := Draw(choices, rng);
      target := Some(chosen);
    }
  }

  /** `choices.get((int) (uniRand() * choices.size()))`. */
  method Draw(choices: seq<Classifier>, rng: RandomGen.Random) returns (chosen: Classifier)
    requires |choices| > 0 && rng.Valid()
    modifies rng
    ensures rng.Valid() && chosen in choices
    ensures PickedAt(choices, rng.seed as real / RandomGen.M as real, chosen)
  {
    var u := rng.UniRand();
    chosen := choices[Slot(u, |choices|)];
  }

  // ---------------------------------------------------------------------
  // Insertion of the offspring

  /** One offspring of the insertion loop: it is matched against the
   *  state; with GA subsumption a matching offspring goes through
   *  `subsumeClassifier` and any other through `insertClassifier` on the
   *  population, without it `insertClassifier` searches the match set or
   *  the population as the offspring matches or not. `guarded` selects the
   *  corrected searches, which credit only classifiers still in the
   *  population. */
  method Place(cl: Classifier, parents: seq<Classifier>, pop: ClassifierSet, ms: ClassifierSet,
               state: StateDescriptor, guarded: bool, ghost s: seq<Classifier>, ghost dim: nat,
               p: XCSFConstants.Params, rng: RandomGen.Random)
    returns (inserted: bool, ghost receiver: Classifier)
    requires pop.Valid() && ms.Valid() && pop != ms && pop.elements != ms.elements && rng.Valid()
    requires forall c :: c in parents ==> c in s
    requires forall c :: c in ms.Contents() ==> c in s
    requires forall c :: c in pop.Contents() ==> c in s
    requires AllValid(s, dim)
    requires cl.Valid() && cl.condition.dimension == dim && |state.conditionInput| == dim
    requires cl !in parents && cl !in ms.Contents() && cl !in pop.Contents()
    requires forall c :: c in s && c != cl ==> c.condition != cl.condition
    modifies pop, pop.elements, rng, cl.condition, set c | c in s
    ensures pop.Valid() && rng.Valid() && ms.Contents() == old(ms.Contents()) && AllValid(s, dim)
    ensures cl.Valid() && cl.condition.center == old(cl.condition.center) && cl.condition.stretch == old(cl.condition.stretch)
    ensures OnlyCredited(s, receiver, cl)
    ensures pop.Contents() == old(pop.Contents()) + (if inserted then [cl] else [])
    ensures receiver != cl ==> !inserted && receiver in parents + ms.Contents() + old(pop.Contents())
    ensures guarded && receiver != cl ==> receiver in old(pop.Contents())
    ensures receiver == cl ==> (inserted <==> old(pop.size) < pop.elements.Length)
    ensures !p.doGASubsumption && (!guarded || receiver != cl) ==>
      FirstIdentical(if cl.Matches(state.conditionInput) then ms.Contents() else old(pop.Contents()), cl, receiver)
    ensures p.doGASubsumption && !cl.Matches(state.conditionInput) && (!guarded || receiver != cl) ==>
      FirstIdentical(old(pop.Contents()), cl, receiver)
  {
    var matched := MatchOffspring(cl, state, s, dim);
    if p.doGASubsumption && matched {
      ghost var P, C := SubsumersOf(parents, cl, p), SubsumersOf(ms.Contents(), cl, p);
      ghost var target;
      inserted, receiver, target := SubsumeClassifier(cl, parents, pop, ms, guarded, s, P, C, dim, p, rng);
    } else {
      inserted, receiver := InsertClassifier(cl, pop, ms, matched && !p.doGASubsumption, guarded, s, dim);
    }
  }

  /** `cl.doesMatch(state)`, which touches only the cache of the
   *  offspring's own condition. */
  method MatchOffspring(cl: Classifier, state: StateDescriptor, ghost s: seq<Classifier>, ghost dim: nat)
    returns (matched: bool)
    requires AllValid(s, dim)
    requires cl.Valid() && cl.condition.dimension == dim && |state.conditionInput| == dim
    requires forall c :: c in s && c != cl ==> c.condition != cl.condition
    modifies cl.condition
    ensures AllValid(s, dim) && OnlyCredited(s, cl, cl)
    ensures cl.Valid() && cl.condition.center == old(cl.condition.center) && cl.condition.stretch == old(cl.condition.stretch)
    ensures matched <==> cl.Matches(state.conditionInput)
  {
    matched := cl.DoesMatch(state);
  }

  /** The statistics other than the numerosity of every classifier of `s`
   *  are as they were. */
  twostate predicate StatsKept(s: seq<Classifier>)
    reads s
  {
    forall c :: c in s ==>
      && c.fitness == old(c.fitness) && c.experience == old(c.experience)
      && c.setSizeEstimate == old(c.setSizeEstimate) && c.predictionError == old(c.predictionError)
      && c.timestamp == old(c.timestamp)
  }

  /** Classifiers whose fitness is not zero. */
  ghost predicate Fit(s: seq<Classifier>)
    reads s
  {
    forall c :: c in s ==> c.fitness != 0.0
  }

  /** A set of classifiers with numerosity at least one holds at least as
   *  many micro-classifiers as classifiers. */
  lemma {:induction false} PopulatedSum(s: seq<Classifier>)
    requires Populated(s)
    ensures |s| <= Sum(Nums(s))
  {
    forall k | 0 <= k < |s|
      ensures Nums(s)[k] >= 1
    {
      assert s[k] in s;
    }
    SumAtLeastLength(Nums(s));
  }

  /** Adding one at slot `j` (if it is a slot) adds one to the sum. */
  lemma {:induction false} SumBumped(before: seq<int>, after: seq<int>, j: int)
    requires |after| == |before|
    requires forall k :: 0 <= k < |before| ==> after[k] == before[k] + (if k == j then 1 else 0)
    ensures Sum(after) == Sum(before) + (if 0 <= j < |before| then 1 else 0)
  {
    if 0 <= j < |before| {
      assert after == before[j := before[j] + 1];
      SumUpdate(before, j, before[j] + 1);
    } else {
      assert after == before;
    }
  }

  /** Crediting `receiver` adds one micro-classifier to a repetition-free
   *  sequence that holds it and leaves the sum of any other unchanged;
   *  `before` are the numerosities before the credit. */
  lemma {:induction false} CreditedSum(t: seq<Classifier>, before: seq<int>, receiver: Classifier, cl: Classifier)
    requires |before| == |t| && Separate(t)
    requires forall k :: 0 <= k < |t| ==> t[k].numerosity == before[k] + (if t[k] == receiver && receiver != cl then 1 else 0)
    ensures Sum(Nums(t)) == Sum(before) + (if receiver in t && receiver != cl then 1 else 0)
  {
    var j := if receiver in t && receiver != cl then IndexOf(t, receiver) else -1;
    forall k | 0 <= k < |t|
      ensures Nums(t)[k] == before[k] + (if k == j then 1 else 0)
    {
    }
    SumBumped(before, Nums(t), j);
  }

  /** Appending a classifier adds its numerosity to the sum. */
  lemma {:induction false} SumAppended(t: seq<Classifier>, c: Classifier)
    ensures Sum(Nums(t + [c])) == Sum(Nums(t)) + c.numerosity
  {
    assert Nums(t + [c])[..|t|] == Nums(t);
  }

  /** The slot of `x` in a sequence that holds it. */
  function IndexOf<T(==)>(t: seq<T>, x: T): (j: int)
    requires x in t
    ensures 0 <= j < |t| && t[j] == x
  {
    if t[|t| - 1] == x then |t| - 1 else IndexOf(t[..|t| - 1], x)
  }

  /** The deletion step of `insertion`: the numerosity sum, then
   *  `deleteWorstClassifiers` when that sum plus the `count` offspring
   *  exceeds the maximal population size, and the removal of the emptied
   *  slots. `sum0` is the numerosity sum left. */
  method Prune(pop: ClassifierSet, ms: ClassifierSet, count: int, fuel: nat, ghost all: seq<Classifier>,
               ghost offspring: seq<Classifier>, ghost dim: nat, p: XCSFConstants.Params, rng: RandomGen.Random)
    returns (toDelete: int, ghost deleted: int, ghost sum0: int)
    requires pop.Valid() && ms.Valid() && pop != ms && pop.elements != ms.elements && rng.Valid()
    requires count == |offspring| && forall c :: c in pop.Contents() ==> c in all
    requires AllValid(all + offspring, dim) && Separate(pop.Contents()) && Living(pop.Contents())
    requires Apart(all, offspring) && Unplaced(offspring, 0)
    requires Sum(Nums(pop.Contents())) + count > p.maxPopSize ==> pop.size >= 1
    modifies pop, pop.elements, rng, set c | c in all
    ensures toDelete == old(Sum(Nums(pop.Contents()))) + count - p.maxPopSize
    ensures pop.Valid() && ms.Valid() && rng.Valid() && ms.Contents() == old(ms.Contents())
    ensures 0 <= deleted && (toDelete <= 0 ==> deleted == 0) && (toDelete > 0 ==> deleted <= toDelete)
    ensures toDelete <= 0 ==> pop.Contents() == old(pop.Contents())
    ensures sum0 == Sum(Nums(pop.Contents())) && sum0 == old(Sum(Nums(pop.Contents()))) - deleted
    ensures Separate(pop.Contents()) && Living(pop.Contents())
    ensures forall c :: c in pop.Contents() ==> c in old(pop.Contents())
    ensures AllValid(all + offspring, dim) && Unplaced(offspring, 0) && StatsKept(all + offspring)
    ensures old(Fit(offspring)) ==> Fit(offspring)
  {
    ghost var s0 := pop.Contents();
    var numerositySum := NumerositySum(pop);
    assert pop.Contents() == s0 && numerositySum == Sum(Nums(s0));
    toDelete := numerositySum + count - p.maxPopSize;
    deleted := Trim(pop, ms, toDelete, fuel, all, offspring, dim, p, rng);
    sum0 := numerositySum - deleted;
  }

  /** `deleteWorstClassifiers(toDelete)` when that is positive, and the
   *  removal of the emptied slots, on a population among `all` while
   *  the offspring stand apart. */
  method Trim(pop: ClassifierSet, ms: ClassifierSet, toDelete: int, fuel: nat, ghost all: seq<Classifier>,
              ghost offspring: seq<Classifier>, ghost dim: nat, p: XCSFConstants.Params, rng: RandomGen.Random)
    returns (ghost deleted: int)
    requires pop.Valid() && ms.Valid() && pop != ms && pop.elements != ms.elements && rng.Valid()
    requires forall c :: c in pop.Contents() ==> c in all
    requires AllValid(all + offspring, dim) && Separate(pop.Contents()) && Living(pop.Contents())
    requires Apart(all, offspring) && Unplaced(offspring, 0)
    requires toDelete > 0 ==> pop.size >= 1
    modifies pop, pop.elements, rng, set c | c in all
    ensures pop.Valid() && ms.Valid() && rng.Valid() && ms.Contents() == old(ms.Contents())
    ensures 0 <= deleted && (toDelete <= 0 ==> deleted == 0) && (toDelete > 0 ==> deleted <= toDelete)
    ensures toDelete <= 0 ==> pop.Contents() == old(pop.Contents())
    ensures Sum(Nums(pop.Contents())) == old(Sum(Nums(pop.Contents()))) - deleted
    ensures Separate(pop.Contents()) && Living(pop.Contents())
    ensures forall c :: c in pop.Contents() ==> c in old(pop.Contents())
    ensures AllValid(all + offspring, dim) && Unplaced(offspring, 0) && StatsKept(all + offspring)
    ensures old(Fit(offspring)) ==> Fit(offspring)
  {
    if toDelete > 0 {
      LivingSum(pop.Contents());
    }
    deleted := MatchSets.MakeRoom(pop, toDelete, fuel, dim, all + offspring, p, rng);
    forall k | 0 <= k < |offspring|
      ensures offspring[k].numerosity == 1
    {
      assert offspring[k] in all + offspring && offspring[k] !in old(pop.Contents());
    }
  }

  /** The offspring from slot `from` on have not been placed yet: each is
   *  still a single micro-classifier. */
  ghost predicate Unplaced(offspring: seq<Classifier>, from: int)
    reads offspring
  {
    forall k :: 0 <= from <= k < |offspring| ==> offspring[k].numerosity == 1
  }

  /** The offspring share no object with the classifiers of `all`. */
  ghost predicate Apart(all: seq<Classifier>, offspring: seq<Classifier>)
  {
    forall c, o :: c in all && o in offspring ==> c != o && c.condition != o.condition && c.prediction != o.prediction
  }

  /** Two sets of valid classifiers together are valid. */
  lemma {:induction false} AllValidConcat(a: seq<Classifier>, b: seq<Classifier>, dim: nat)
    requires AllValid(a, dim) && AllValid(b, dim)
    ensures AllValid(a + b, dim)
  {
  }

  /** Offspring `i` shares no object with `all` nor with an earlier
   *  offspring, and no condition with any other classifier. */
  lemma {:induction false} Fresh(all: seq<Classifier>, offspring: seq<Classifier>, i: int)
    requires 0 <= i < |offspring| && Separate(offspring) && Apart(all, offspring)
    ensures forall c :: c in all + offspring[..i] ==>
      c != offspring[i] && c.condition != offspring[i].condition && c.prediction != offspring[i].prediction
    ensures forall c :: c in all + offspring && c != offspring[i] ==> c.condition != offspring[i].condition
  {
    forall c | c in all + offspring[..i]
      ensures c != offspring[i] && c.condition != offspring[i].condition && c.prediction != offspring[i].prediction
    {
      if c !in all {
        var j :| 0 <= j < i && offspring[..i][j] == c;
        assert offspring[j] == c;
      }
    }
    forall c | c in all + offspring && c != offspring[i]
      ensures c.condition != offspring[i].condition
    {
      if c !in all {
        var j :| 0 <= j < |offspring| && offspring[j] == c;
        assert j != i;
      }
    }
  }

  /** A classifier of `all`, an earlier offspring or offspring `i` itself
   *  is none of the later offspring. */
  lemma {:induction false} Earlier(all: seq<Classifier>, offspring: seq<Classifier>, i: int, k: int, c: Classifier)
    requires 0 <= i < k < |offspring| && Separate(offspring) && Apart(all, offspring)
    requires c == offspring[i] || c in all || c in offspring[..i]
    ensures c != offspring[k]
  {
    assert offspring[k] in offspring;
    if c in offspring[..i] {
      var j :| 0 <= j < i && offspring[..i][j] == c;
      assert offspring[j] == c;
    }
  }

  /** `Place` on offspring `i`, with the classifiers it may touch taken
   *  to be those of `all` and the offspring. */
  method PlaceOne(i: int, offspring: seq<Classifier>, parents: seq<Classifier>, ms: ClassifierSet,
                  pop: ClassifierSet, state: StateDescriptor, guarded: bool, ghost all: seq<Classifier>, ghost pop0: seq<Classifier>,
                  ghost dim: nat, p: XCSFConstants.Params, rng: RandomGen.Random)
    returns (inserted: bool, ghost receiver: Classifier)
    requires 0 <= i < |offspring| && |state.conditionInput| == dim
    requires pop.Valid() && ms.Valid() && pop != ms && pop.elements != ms.elements && rng.Valid()
    requires forall c :: c in parents ==> c in all
    requires forall c :: c in ms.Contents() ==> c in all
    requires forall c :: c in pop0 ==> c in all
    requires forall c :: c in pop.Contents() ==> c in pop0 + offspring[..i]
    requires AllValid(all + offspring, dim) && Separate(offspring) && Apart(all, offspring)
    modifies pop, pop.elements, rng, offspring[i].condition, set c | c in all + offspring
    ensures pop.Valid() && rng.Valid() && ms.Contents() == old(ms.Contents()) && AllValid(all + offspring, dim)
    ensures StatsKept(all + offspring)
    ensures forall c :: c in old(pop.Contents()) ==>
      c.numerosity == old(c.numerosity) + (if c == receiver && receiver != offspring[i] then 1 else 0)
    ensures forall k :: i <= k < |offspring| ==> offspring[k].numerosity == old(offspring[k].numerosity)
    ensures pop.Contents() == old(pop.Contents()) + (if inserted then [offspring[i]] else [])
    ensures receiver != offspring[i] ==> !inserted && (receiver in all || receiver in offspring[..i])
    ensures receiver != offspring[i] ==> receiver in parents || receiver in ms.Contents() || receiver in old(pop.Contents())
    ensures guarded && receiver != offspring[i] ==> receiver in old(pop.Contents())
    ensures receiver == offspring[i] ==> (inserted <==> old(pop.size) < pop.elements.Length)
    ensures forall c :: c in old(pop.Contents()) ==>
      c != offspring[i] && c.condition != offspring[i].condition && c.prediction != offspring[i].prediction
  {
    ghost var s := all + offspring;
    ghost var before := pop.Contents();
    Fresh(all, offspring, i);
    inserted, receiver := Place(offspring[i], parents, pop, ms, state, guarded, s, dim, p, rng);
    Attributed(all, offspring, i, pop0, parents, ms.Contents(), before, receiver);
  }

  /** Where the classifier credited by `Place` on offspring `i` can come
   *  from: `all` or an earlier offspring, never a later one; the
   *  population it searched lies within `all + offspring`. */
  lemma {:induction false} Attributed(all: seq<Classifier>, offspring: seq<Classifier>, i: int, pop0: seq<Classifier>,
                   parents: seq<Classifier>, matching: seq<Classifier>, before: seq<Classifier>, receiver: Classifier)
    requires 0 <= i < |offspring| && Separate(offspring) && Apart(all, offspring)
    requires forall c :: c in parents ==> c in all
    requires forall c :: c in matching ==> c in all
    requires forall c :: c in pop0 ==> c in all
    requires forall c :: c in before ==> c in pop0 + offspring[..i]
    requires receiver != offspring[i] ==> receiver in parents + matching + before
    ensures receiver != offspring[i] ==> receiver in all || receiver in offspring[..i]
    ensures forall k :: i < k < |offspring| ==> receiver != offspring[k]
    ensures forall c :: c in before ==> c in all + offspring
  {
    forall k | i < k < |offspring| ensures receiver != offspring[k] {
      Earlier(all, offspring, i, k, receiver);
    }
    forall c | c in before ensures c in all + offspring {
      if c !in all {
        var j :| 0 <= j < i && offspring[..i][j] == c;
        assert c == offspring[j];
      }
    }
  }

  /** One pass of the insertion loop: offspring `i` is placed. `lost` tells
   *  that it found neither a subsumer nor a free slot; `stray` that its
   *  micro-classifier went to a parent or a match set member that is no
   *  longer in the population, which the population total then does not
   *  see; `guarded` placements never stray. Otherwise the population
   *  gained exactly one micro-classifier. */
  method InsertOne(i: int, offspring: seq<Classifier>, parents: seq<Classifier>, ms: ClassifierSet,
                   pop: ClassifierSet, state: StateDescriptor, guarded: bool, ghost all: seq<Classifier>, ghost pop0: seq<Classifier>,
                   ghost dim: nat, p: XCSFConstants.Params, rng: RandomGen.Random)
    returns (ghost lost: bool, ghost stray: bool)
    requires 0 <= i < |offspring| && |state.conditionInput| == dim
    requires pop.Valid() && ms.Valid() && pop != ms && pop.elements != ms.elements && rng.Valid()
    requires forall c :: c in parents ==> c in all
    requires forall c :: c in ms.Contents() ==> c in all
    requires forall c :: c in pop0 ==> c in all
    requires forall c :: c in pop.Contents() ==> c in pop0 + offspring[..i]
    requires Separate(pop.Contents()) && Populated(pop.Contents())
    requires AllValid(all + offspring, dim) && Unplaced(offspring, i)
    requires Separate(offspring) && Apart(all, offspring)
    modifies pop, pop.elements, rng, offspring[i].condition, set c | c in all + offspring
    ensures pop.Valid() && rng.Valid() && ms.Contents() == old(ms.Contents())
    ensures forall c :: c in pop.Contents() ==> c in pop0 + offspring[..i + 1]
    ensures Separate(pop.Contents()) && Populated(pop.Contents())
    ensures AllValid(all + offspring, dim) && Unplaced(offspring, i + 1)
    ensures StatsKept(all + offspring)
    ensures Sum(Nums(pop.Contents())) + (if lost then 1 else 0) + (if stray then 1 else 0) ==
      old(Sum(Nums(pop.Contents()))) + 1
    ensures old(pop.size) < pop.elements.Length ==> !lost
    ensures forall c :: c in old(pop.Contents()) ==> c in pop.Contents()
    ensures (forall c :: c in parents + ms.Contents() ==> c in old(pop.Contents())) ==> !stray
    ensures stray ==> Sum(Nums(pop.Contents())) == old(Sum(Nums(pop.Contents())))
    ensures guarded ==> !stray
  {
    ghost var before := pop.Contents();
    ghost var nums := Nums(before);
    assert forall k :: 0 <= k < |before| ==> nums[k] >= 1 by {
      forall k | 0 <= k < |before| ensures nums[k] >= 1 { assert before[k] in before; }
    }
    var inserted, receiver := PlaceOne(i, offspring, parents, ms, pop, state, guarded, all, pop0, dim, p, rng);
    forall k | 0 <= k < |before|
      ensures before[k].numerosity == nums[k] + (if before[k] == receiver && receiver != offspring[i] then 1 else 0)
    {
      assert before[k] in before;
    }
    Placed(before, nums, pop.Contents(), receiver, offspring[i], inserted);
    lost := receiver == offspring[i] && !inserted;
    stray := receiver != offspring[i] && receiver !in before;
  }

  /** The population after one placement: the receiver, when it is an
   *  earlier classifier, gained one micro-classifier, and an inserted
   *  offspring adds its single one. */
  lemma {:induction false} Placed(before: seq<Classifier>, nums: seq<int>, after: seq<Classifier>, receiver: Classifier,
               cl: Classifier, inserted: bool)
    requires |nums| == |before| && Separate(before)
    requires forall k :: 0 <= k < |before| ==>
      nums[k] >= 1 && before[k].numerosity == nums[k] + (if before[k] == receiver && receiver != cl then 1 else 0)
    requires after == before + (if inserted then [cl] else [])
    requires inserted ==> cl.numerosity == 1
    requires inserted ==> forall x :: x in before ==>
      x != cl && x.condition != cl.condition && x.prediction != cl.prediction
    ensures Separate(after) && Populated(after)
    ensures Sum(Nums(after)) ==
      Sum(nums) + (if receiver in before && receiver != cl then 1 else 0) + (if inserted then 1 else 0)
  {
    CreditedSum(before, nums, receiver, cl);
    forall c | c in before ensures c.numerosity >= 1 {
      var k :| 0 <= k < |before| && before[k] == c;
    }
    if inserted {
      SeparateAppend(before, cl);
      SumAppended(before, cl);
    } else {
      assert after == before;
    }
  }

  /** As written, an offspring credited to a classifier that the deletion
   *  has already removed from the population adds nothing to the
   *  population's total: its micro-classifier is lost. */
  lemma {:induction false} StrayIsLost(before: seq<Classifier>, nums: seq<int>, receiver: Classifier, cl: Classifier)
    requires |nums| == |before| && Separate(before)
    requires forall k :: 0 <= k < |before| ==>
      nums[k] >= 1 && before[k].numerosity == nums[k] + (if before[k] == receiver && receiver != cl then 1 else 0)
    requires receiver != cl && receiver !in before
    ensures Sum(Nums(before)) == Sum(nums)
  {
    Placed(before, nums, before, receiver, cl, false);
  }

  /** `insertion` as written: deletion makes room for the offspring, then
   *  each offspring is placed in turn. `dropped` counts the offspring for which
   *  neither a subsumer nor a free slot was found (the Java array store
   *  would throw there), `strays` those whose micro-classifier went to a
   *  parent or match set member that the deletion had already removed;
   *  every other offspring adds exactly one micro-classifier. When
   *  deletion removed all it was asked to, none is dropped and the
   *  population stays within its maximal size; when nothing was to be
   *  deleted, none strays. `GuardedInsertion` is the corrected form. */
  method Insertion(offspring: seq<Classifier>, parents: seq<Classifier>, ms: ClassifierSet, pop: ClassifierSet,
                   state: StateDescriptor, fuel: nat, ghost all: seq<Classifier>, ghost dim: nat,
                   p: XCSFConstants.Params, rng: RandomGen.Random)
    returns (ghost deleted: int, ghost dropped: nat, ghost strays: nat)
    requires pop.Valid() && ms.Valid() && pop != ms && pop.elements != ms.elements && rng.Valid()
    requires pop.elements.Length == p.maxPopSize
    requires forall c :: c in parents ==> c in all
    requires forall c :: c in ms.Contents() ==> c in all
    requires forall c :: c in pop.Contents() ==> c in all
    requires AllValid(all, dim) && AllValid(offspring, dim) && |state.conditionInput| == dim
    requires Separate(pop.Contents()) && Living(pop.Contents())
    requires Sum(Nums(pop.Contents())) + |offspring| > p.maxPopSize ==> pop.size >= 1
    requires Separate(offspring) && Apart(all, offspring) && forall o :: o in offspring ==> o.numerosity == 1
    modifies pop, pop.elements, rng, set c | c in all + offspring, set o | o in offspring :: o.condition
    ensures pop.Valid() && rng.Valid() && ms.Contents() == old(ms.Contents())
    ensures Separate(pop.Contents()) && AllValid(pop.Contents(), dim) && Populated(pop.Contents())
    ensures old(Fit(offspring)) ==> Living(pop.Contents())
    ensures forall c :: c in pop.Contents() ==> c in old(pop.Contents()) || c in offspring
    ensures StatsKept(all) && StatsKept(offspring)
    ensures Sum(Nums(pop.Contents())) + dropped + strays == old(Sum(Nums(pop.Contents()))) - deleted + |offspring|
    ensures var toDelete := old(Sum(Nums(pop.Contents()))) + |offspring| - p.maxPopSize;
      toDelete <= 0 || deleted == toDelete ==> dropped == 0 && Sum(Nums(pop.Contents())) <= p.maxPopSize
    ensures (old(Sum(Nums(pop.Contents()))) + |offspring| <= p.maxPopSize &&
             (forall c :: c in parents + ms.Contents() ==> c in old(pop.Contents()))) ==> strays == 0
  {
    AllValidConcat(all, offspring, dim);
    ghost var fit := Fit(offspring);
    var toDelete;
    ghost var sum0;
    toDelete, deleted, sum0 := Prune(pop, ms, |offspring|, fuel, all, offspring, dim, p, rng);
    dropped, strays := PlaceAll(offspring, parents, ms, pop, state, false, all, old(pop.Contents()), dim, fit, sum0, p, rng);
    assert forall c :: c in all ==> c in all + offspring;
    assert forall c :: c in offspring ==> c in all + offspring;
  }

  /** The corrected `insertion`: as `Insertion`, except that an offspring
   *  is credited only to a classifier still in the population and is
   *  inserted otherwise, so every offspring that is not dropped for lack
   *  of room adds exactly one micro-classifier to the population. */
  method GuardedInsertion(offspring: seq<Classifier>, parents: seq<Classifier>, ms: ClassifierSet, pop: ClassifierSet,
                   state: StateDescriptor, fuel: nat, ghost all: seq<Classifier>, ghost dim: nat,
                   p: XCSFConstants.Params, rng: RandomGen.Random)
    returns (ghost deleted: int, ghost dropped: nat)
    requires pop.Valid() && ms.Valid() && pop != ms && pop.elements != ms.elements && rng.Valid()
    requires pop.elements.Length == p.maxPopSize
    requires forall c :: c in parents ==> c in all
    requires forall c :: c in ms.Contents() ==> c in all
    requires forall c :: c in pop.Contents() ==> c in all
    requires AllValid(all, dim) && AllValid(offspring, dim) && |state.conditionInput| == dim
    requires Separate(pop.Contents()) && Living(pop.Contents())
    requires Sum(Nums(pop.Contents())) + |offspring| > p.maxPopSize ==> pop.size >= 1
    requires Separate(offspring) && Apart(all, offspring) && forall o :: o in offspring ==> o.numerosity == 1
    modifies pop, pop.elements, rng, set c | c in all + offspring, set o | o in offspring :: o.condition
    ensures pop.Valid() && rng.Valid() && ms.Contents() == old(ms.Contents())
    ensures Separate(pop.Contents()) && AllValid(pop.Contents(), dim) && Populated(pop.Contents())
    ensures old(Fit(offspring)) ==> Living(pop.Contents())
    ensures forall c :: c in pop.Contents() ==> c in old(pop.Contents()) || c in offspring
    ensures StatsKept(all) && StatsKept(offspring)
    ensures Sum(Nums(pop.Contents())) + dropped == old(Sum(Nums(pop.Contents()))) - deleted + |offspring|
    ensures var toDelete := old(Sum(Nums(pop.Contents()))) + |offspring| - p.maxPopSize;
      toDelete <= 0 || deleted == toDelete ==> dropped == 0 && Sum(Nums(pop.Contents())) <= p.maxPopSize
  {
    AllValidConcat(all, offspring, dim);
    ghost var fit := Fit(offspring);
    var toDelete;
    ghost var sum0;
    toDelete, deleted, sum0 := Prune(pop, ms, |offspring|, fuel, all, offspring, dim, p, rng);
    ghost var strays;
    dropped, strays := PlaceAll(offspring, parents, ms, pop, state, true, all, old(pop.Contents()), dim, fit, sum0, p, rng);
    assert forall c :: c in all ==> c in all + offspring;
    assert forall c :: c in offspring ==> c in all + offspring;
  }

  /** The loop of `insertion` over the offspring, after deletion; `orig`
   *  is the population before it. */
  method PlaceAll(offspring: seq<Classifier>, parents: seq<Classifier>, ms: ClassifierSet, pop: ClassifierSet,
                  state: StateDescriptor, guarded: bool, ghost all: seq<Classifier>, ghost orig: seq<Classifier>, ghost dim: nat,
                  ghost fit: bool, ghost sum0: int, p: XCSFConstants.Params, rng: RandomGen.Random)
    returns (ghost dropped: nat, ghost strays: nat)
    requires pop.Valid() && ms.Valid() && pop != ms && pop.elements != ms.elements && rng.Valid()
    requires |state.conditionInput| == dim
    requires forall c :: c in parents ==> c in all
    requires forall c :: c in ms.Contents() ==> c in all
    requires forall c :: c in orig ==> c in all
    requires forall c :: c in pop.Contents() ==> c in orig
    requires Separate(pop.Contents()) && Living(pop.Contents()) && (fit ==> Fit(offspring))
    requires sum0 == Sum(Nums(pop.Contents()))
    requires AllValid(all + offspring, dim) && Unplaced(offspring, 0)
    requires Separate(offspring) && Apart(all, offspring)
    modifies pop, pop.elements, rng, set c | c in all + offspring, set o | o in offspring :: o.condition
    ensures pop.Valid() && rng.Valid() && ms.Contents() == old(ms.Contents())
    ensures forall c :: c in pop.Contents() ==> c in orig || c in offspring
    ensures Separate(pop.Contents()) && AllValid(pop.Contents(), dim) && Populated(pop.Contents())
    ensures fit ==> Living(pop.Contents())
    ensures StatsKept(all + offspring)
    ensures Sum(Nums(pop.Contents())) + dropped + strays == sum0 + |offspring|
    ensures sum0 + |offspring| <= pop.elements.Length ==> dropped == 0
    ensures (forall c :: c in parents + ms.Contents() ==> c in old(pop.Contents())) ==> strays == 0
    ensures guarded ==> strays == 0
  {
    ghost var pop0 := pop.Contents();
    ghost var within := guarded || forall c :: c in parents + ms.Contents() ==> c in pop0;
    dropped, strays := 0, 0;
    for i := 0 to |offspring|
      invariant pop.Valid() && rng.Valid() && ms.Contents() == old(ms.Contents())
      invariant forall c :: c in pop.Contents() ==> c in pop0 + offspring[..i]
      invariant forall c :: c in pop0 ==> c in pop.Contents()
      invariant Separate(pop.Contents()) && Populated(pop.Contents())
      invariant AllValid(all + offspring, dim) && Unplaced(offspring, i)
      invariant StatsKept(all + offspring)
      invariant Sum(Nums(pop.Contents())) + dropped + strays == sum0 + i
      invariant sum0 + |offspring| <= pop.elements.Length ==> dropped == 0
      invariant within ==> strays == 0
    {
      PopulatedSum(pop.Contents());
      var lost, stray := InsertOne(i, offspring, parents, ms, pop, state, guarded, all, pop0, dim, p, rng);
      if lost {
        dropped := dropped + 1;
      }
      if stray {
        strays := strays + 1;
      }
    }
    assert offspring[..|offspring|] == offspring;
    forall c | c in pop.Contents()
      ensures c.Valid() && c.condition.dimension == dim && (fit ==> c.fitness != 0.0)
      ensures c in orig || c in offspring
    {
      assert c in all + offspring;
    }
  }

  // ---------------------------------------------------------------------
  // The algorithm

  /** Every classifier of the set has a prediction of `L` inputs and `O`
   *  outputs. */
  ghost predicate Uniform(s: seq<Classifier>, L: int, O: int)
    reads set c | c in s :: c.prediction
  {
    forall c :: c in s ==> c.prediction.inputLength == L && c.prediction.predictionLength == O
  }

  /** What a run needs of the population and the match set, gathered in
   *  one place: both sets well formed, the match set inside the
   *  population, and the population's own invariants. */
  ghost predicate Ready(pop: ClassifierSet, ms: ClassifierSet, dim: nat, L: int, O: int)
    reads pop, pop.elements, ms, ms.elements
    reads if pop.Valid() then pop.Contents() else []
    reads if pop.Valid() then set c | c in pop.Contents() :: c.condition else {}
    reads if pop.Valid() then set c | c in pop.Contents() :: c.prediction else {}
    reads if ms.Valid() then ms.Contents() else []
    reads if ms.Valid() then set c | c in ms.Contents() :: c.prediction else {}
  {
    && pop.Valid() && ms.Valid() && (forall c :: c in ms.Contents() ==> c in pop.Contents())
    && Separate(pop.Contents()) && Living(pop.Contents()) && AllValid(pop.Contents(), dim)
    && Uniform(ms.Contents(), L, O) && (forall c :: c in ms.Contents() ==> c.fitness >= 0.0)
  }

  /** The timestamp loop of `evolve`: every classifier of the match set
   *  gets the iteration as its timestamp; nothing else changes. */
  method Stamp(ms: ClassifierSet, iteration: int, ghost ps: seq<Classifier>, ghost dim: nat)
    requires ms.Valid() && (forall c :: c in ms.Contents() ==> c in ps) && AllValid(ps, dim) && Living(ps)
    modifies set c | c in ms.Contents()
    ensures forall c :: c in ms.Contents() ==> c.timestamp == iteration
    ensures forall c :: c in ps ==>
      && c.numerosity == old(c.numerosity) && c.fitness == old(c.fitness)
      && c.experience == old(c.experience) && c.setSizeEstimate == old(c.setSizeEstimate)
      && c.predictionError == old(c.predictionError)
    ensures AllValid(ps, dim) && Living(ps)
    ensures Fitnesses(ms.Contents()) == old(Fitnesses(ms.Contents())) && Nums(ps) == old(Nums(ps))
  {
    ghost var s := ms.Contents();
    for i := 0 to ms.size
      invariant forall k :: 0 <= k < i ==> s[k].timestamp == iteration
      invariant forall c :: c in ps ==>
        && c.numerosity == old(c.numerosity) && c.fitness == old(c.fitness)
        && c.experience == old(c.experience) && c.setSizeEstimate == old(c.setSizeEstimate)
        && c.predictionError == old(c.predictionError)
    {
      assert ms.elements[i] == s[i];
      ms.elements[i].SetTimestamp(iteration);
    }
    forall c | c in s ensures c.timestamp == iteration {
      var k :| 0 <= k < |s| && s[k] == c;
    }
    forall k | 0 <= k < |s| ensures Fitnesses(s)[k] == old(Fitnesses(s))[k] {
      assert s[k] in ps;
    }
    forall k | 0 <= k < |ps| ensures Nums(ps)[k] == old(Nums(ps))[k] {
      assert ps[k] in ps;
    }
  }

  /** Selection, reproduction and, unless condensation is on, crossover
   *  and mutation: the offspring are fresh copies of the parents, each of
   *  one micro-classifier; under condensation they are the unaltered
   *  copies. */
  method Breed(ms: ClassifierSet, fitnessSum: real, condensation: bool, fuel: nat, ghost dim: nat,
               ghost L: int, ghost O: int, p: XCSFConstants.Params, rng: RandomGen.Random)
    returns (parents: seq<Classifier>, offspring: seq<Classifier>)
    requires ms.Valid() && ms.size >= 1 && Populated(ms.Contents()) && rng.Valid()
    requires fitnessSum == RealSum(Fitnesses(ms.Contents())) && fitnessSum >= 0.0
    requires AllValid(ms.Contents(), dim) && Uniform(ms.Contents(), L, O)
    modifies rng
    ensures rng.Valid() && |parents| <= SelectionSize && (SelectionCompletes(p, fuel) ==> |parents| == SelectionSize)
    ensures forall k :: 0 <= k < |parents| ==> parents[k] in ms.Contents()
    ensures |offspring| == |parents| && Separate(offspring)
    ensures forall k :: 0 <= k < |offspring| ==>
      fresh(offspring[k]) && fresh(offspring[k].condition) && fresh(offspring[k].prediction)
    ensures forall k :: 0 <= k < |offspring| ==> Shaped(offspring[k], dim, L, O) && offspring[k].numerosity == 1
    ensures condensation ==> forall k :: 0 <= k < |offspring| ==>
      parents[k].numerosity != 0 && Clone(offspring[k], parents[k], p)
  {
    ghost var pools;
    parents, pools := Selection(ms, fitnessSum, fuel, p, rng);
    forall k | 0 <= k < |parents|
      ensures parents[k] in ms.Contents()
      ensures parents[k].Valid() && parents[k].numerosity >= 1 && parents[k].condition.dimension == dim
      ensures parents[k].prediction.inputLength == L && parents[k].prediction.predictionLength == O
    {
      assert Chosen(ms.Contents(), fitnessSum, parents[k], pools[k], p);
    }
    offspring := Descend(parents, condensation, dim, L, O, p, rng);
  }

  /** Reproduction followed, unless condensation is on, by crossover and
   *  mutation of the copies. */
  method Descend(parents: seq<Classifier>, condensation: bool, ghost dim: nat, ghost L: int, ghost O: int,
                 p: XCSFConstants.Params, rng: RandomGen.Random)
    returns (offspring: seq<Classifier>)
    requires rng.Valid()
    requires forall k :: 0 <= k < |parents| ==>
      parents[k].Valid() && parents[k].numerosity >= 1 && parents[k].condition.dimension == dim
    requires forall k :: 0 <= k < |parents| ==>
      parents[k].prediction.inputLength == L && parents[k].prediction.predictionLength == O
    modifies rng
    ensures rng.Valid() && |offspring| == |parents| && Separate(offspring)
    ensures forall k :: 0 <= k < |offspring| ==>
      fresh(offspring[k]) && fresh(offspring[k].condition) && fresh(offspring[k].prediction)
    ensures forall k :: 0 <= k < |offspring| ==> Shaped(offspring[k], dim, L, O) && offspring[k].numerosity == 1
    ensures condensation ==> forall k :: 0 <= k < |offspring| ==> Clone(offspring[k], parents[k], p)
  {
    offspring := Reproduction(parents, p);
    if !condensation {
      Vary(offspring, dim, L, O, p, rng);
      forall k | 0 <= k < |offspring| ensures offspring[k].numerosity == 1 {
        assert Nums(offspring)[k] == offspring[k].numerosity;
      }
    }
  }

  /** The part of a run before the insertion: the match set is stamped
   *  and the offspring are bred; the population and the numerosities are
   *  as they were, and the offspring share nothing with the population. */
  method Prepare(pop: ClassifierSet, ms: ClassifierSet, iteration: int, condensation: bool, fitnessSum: real,
                 fuel: nat, ghost dim: nat, ghost L: int, ghost O: int, p: XCSFConstants.Params, rng: RandomGen.Random)
    returns (parents: seq<Classifier>, offspring: seq<Classifier>)
    requires pop.Valid() && ms.Valid() && rng.Valid()
    requires ms.size >= 1 && forall c :: c in ms.Contents() ==> c in pop.Contents()
    requires Living(pop.Contents()) && AllValid(pop.Contents(), dim)
    requires Uniform(ms.Contents(), L, O) && forall c :: c in ms.Contents() ==> c.fitness >= 0.0
    requires fitnessSum == RealSum(Fitnesses(ms.Contents()))
    modifies rng, set c | c in ms.Contents()
    ensures rng.Valid() && forall c :: c in ms.Contents() ==> c.timestamp == iteration
    ensures Nums(pop.Contents()) == old(Nums(pop.Contents()))
    ensures Living(pop.Contents()) && AllValid(pop.Contents(), dim)
    ensures forall c :: c in parents ==> c in pop.Contents()
    ensures |offspring| == |parents| <= SelectionSize && (SelectionCompletes(p, fuel) ==> |offspring| == SelectionSize)
    ensures Separate(offspring) && Apart(pop.Contents(), offspring) && AllValid(offspring, dim)
    ensures forall o :: o in offspring ==> o.numerosity == 1
    ensures forall k :: 0 <= k < |offspring| ==> fresh(offspring[k]) && fresh(offspring[k].condition)
  {
    ghost var all := pop.Contents();
    ghost var nums := Nums(all);
    assert fitnessSum >= 0.0 by {
      var f := Fitnesses(ms.Contents());
      RealSumGrows(f, 0, |f|, false);
      assert f[..|f|] == f;
    }
    Stamp(ms, iteration, all, dim);
    assert Nums(all) == nums;
    forall c | c in ms.Contents() ensures c.Valid() && c.condition.dimension == dim && c.numerosity >= 1 {
      assert c in all;
    }
    parents, offspring := Offspring(ms, fitnessSum, condensation, fuel, all, dim, L, O, p, rng);
    assert pop.Contents() == all && Nums(all) == nums;
  }

  /** `Breed` seen from the population: the offspring are new classifiers
   *  of the right shape, apart from every classifier already present. */
  method Offspring(ms: ClassifierSet, fitnessSum: real, condensation: bool, fuel: nat, ghost all: seq<Classifier>,
                   ghost dim: nat, ghost L: int, ghost O: int, p: XCSFConstants.Params, rng: RandomGen.Random)
    returns (parents: seq<Classifier>, offspring: seq<Classifier>)
    requires ms.Valid() && ms.size >= 1 && rng.Valid() && Populated(ms.Contents())
    requires fitnessSum == RealSum(Fitnesses(ms.Contents())) && fitnessSum >= 0.0
    requires AllValid(ms.Contents(), dim) && Uniform(ms.Contents(), L, O)
    requires forall c :: c in ms.Contents() ==> c in all
    modifies rng
    ensures rng.Valid() && forall c :: c in parents ==> c in all
    ensures |offspring| == |parents| <= SelectionSize && (SelectionCompletes(p, fuel) ==> |offspring| == SelectionSize)
    ensures Separate(offspring) && Apart(all, offspring) && AllValid(offspring, dim)
    ensures forall o :: o in offspring ==> o.numerosity == 1
    ensures forall k :: 0 <= k < |offspring| ==> fresh(offspring[k]) && fresh(offspring[k].condition)
  {
    parents, offspring := Breed(ms, fitnessSum, condensation, fuel, dim, L, O, p, rng);
    forall c, o | c in all && o in offspring
      ensures c != o && c.condition != o.condition && c.prediction != o.prediction
    {
      var k :| 0 <= k < |offspring| && offspring[k] == o;
    }
    forall o | o in offspring ensures o.Valid() && o.condition.dimension == dim && o.numerosity == 1 {
      var k :| 0 <= k < |offspring| && offspring[k] == o;
    }
    forall c | c in parents ensures c in all {
      var k :| 0 <= k < |parents| && parents[k] == c;
    }
  }

  /** One run of the algorithm once it is triggered: the match set is
   *  stamped, two parents are selected and bred, and the offspring are
   *  inserted into the population. */
  method Generation(pop: ClassifierSet, ms: ClassifierSet, state: StateDescriptor, iteration: int,
                    condensation: bool, fitnessSum: real, fuel: nat, ghost dim: nat, ghost L: int, ghost O: int,
                    p: XCSFConstants.Params, rng: RandomGen.Random)
    returns (ghost offspring: seq<Classifier>, ghost deleted: int, ghost dropped: nat)
    requires pop.Valid() && ms.Valid() && pop != ms && pop.elements != ms.elements && rng.Valid()
    requires pop.elements.Length == p.maxPopSize && |state.conditionInput| == dim
    requires ms.size >= 1 && forall c :: c in ms.Contents() ==> c in pop.Contents()
    requires Separate(pop.Contents()) && Living(pop.Contents()) && AllValid(pop.Contents(), dim)
    requires Uniform(ms.Contents(), L, O) && forall c :: c in ms.Contents() ==> c.fitness >= 0.0
    requires fitnessSum == RealSum(Fitnesses(ms.Contents()))
    modifies pop, pop.elements, rng, set c | c in pop.Contents()
    ensures pop.Valid() && rng.Valid()
    ensures forall c :: c in old(ms.Contents()) ==> c.timestamp == iteration
    ensures Separate(pop.Contents()) && AllValid(pop.Contents(), dim) && Populated(pop.Contents())
    ensures |offspring| <= SelectionSize && (SelectionCompletes(p, fuel) ==> |offspring| == SelectionSize)
    ensures forall k :: 0 <= k < |offspring| ==> fresh(offspring[k]) && fresh(offspring[k].condition)
    ensures forall c :: c in pop.Contents() ==> c in old(pop.Contents()) || c in offspring
    ensures Sum(Nums(pop.Contents())) + dropped == old(Sum(Nums(pop.Contents()))) - deleted + |offspring|
    ensures var toDelete := old(Sum(Nums(pop.Contents()))) + |offspring| - p.maxPopSize;
      toDelete <= 0 || deleted == toDelete ==> dropped == 0 && Sum(Nums(pop.Contents())) <= p.maxPopSize
  {
    ghost var all := pop.Contents();
    var parents, offs := Prepare(pop, ms, iteration, condensation, fitnessSum, fuel, dim, L, O, p, rng);
    offspring := offs;
    deleted, dropped := GuardedInsertion(offs, parents, ms, pop, state, fuel, all, dim, p, rng);
    assert forall c :: c in ms.Contents() ==> c in all;
  }

  /** `EvolutionaryComp`: the genetic algorithm with its condensation
   *  flag. */
  class EvolutionaryComp {
    var condensation: bool

    /** The default constructor: condensation is off. */
    constructor ()
      ensures !condensation
    {
      condensation := false;
    }

    /** `setCondensation`: with condensation on, crossover and mutation are
     *  skipped. */
    method SetCondensation(value: bool)
      modifies this
      ensures condensation == value
    {
      condensation := value;
    }

    /** `evolve`: the derived sums of the match set decide whether the
     *  algorithm runs (`ran`): it does once `theta_GA` iterations have
     *  passed since the mean timestamp; then the match set is stamped and
     *  a generation is bred and inserted. Otherwise nothing changes. */
    method Evolve(pop: ClassifierSet, ms: ClassifierSet, state: StateDescriptor, iteration: int, fuel: nat,
                  ghost dim: nat, ghost L: int, ghost O: int, p: XCSFConstants.Params, rng: RandomGen.Random)
      returns (ran: bool, ghost offspring: seq<Classifier>, ghost deleted: int, ghost dropped: nat)
      requires Ready(pop, ms, dim, L, O) && pop != ms && pop.elements != ms.elements && rng.Valid()
      requires pop.elements.Length == p.maxPopSize && |state.conditionInput| == dim && Sum(Nums(ms.Contents())) >= 1
      modifies pop, pop.elements, rng, set c | c in pop.Contents()
      ensures ran == old(Triggered(ms.Contents(), iteration, p))
      ensures !ran ==> unchanged(pop, pop.elements, rng) && offspring == []
      ensures !ran ==> forall c :: c in old(pop.Contents()) ==> unchanged(c)
      ensures ran ==> forall c :: c in old(ms.Contents()) ==> c.timestamp == iteration
      ensures pop.Valid() && rng.Valid()
      ensures ran ==> Separate(pop.Contents()) && AllValid(pop.Contents(), dim) && Populated(pop.Contents())
      ensures |offspring| <= SelectionSize && (ran && SelectionCompletes(p, fuel) ==> |offspring| == SelectionSize)
      ensures forall k :: 0 <= k < |offspring| ==> fresh(offspring[k])
      ensures forall c :: c in pop.Contents() ==> c in old(pop.Contents()) || c in offspring
      ensures ran ==> Sum(Nums(pop.Contents())) + dropped == old(Sum(Nums(pop.Contents()))) - deleted + |offspring|
      ensures ran ==> var toDelete := old(Sum(Nums(pop.Contents()))) + |offspring| - p.maxPopSize;
        toDelete <= 0 || deleted == toDelete ==> dropped == 0 && Sum(Nums(pop.Contents())) <= p.maxPopSize
    {
      ghost var sum0, due := Sum(Nums(pop.Contents())), Triggered(ms.Contents(), iteration, p);
      var avgTimestampSum, fitnessSum, numerositySum := Derived(ms);
      assert pop.Contents() == old(pop.Contents()) && ms.Contents() == old(ms.Contents());
      assert Nums(pop.Contents()) == old(Nums(pop.Contents())) && Sum(Nums(pop.Contents())) == sum0;
      assert Stamps(ms.Contents()) == old(Stamps(ms.Contents())) && Nums(ms.Contents()) == old(Nums(ms.Contents()));
      assert due == Triggered(ms.Contents(), iteration, p);
      assert Ready(pop, ms, dim, L, O);
      avgTimestampSum := avgTimestampSum / numerositySum as real;
      if iteration as real - avgTimestampSum < p.thetaGA as real {
        return false, [], 0, 0;
      }
      ran := true;
      assert ms.size >= 1;
      offspring, deleted, dropped :=
        Generation(pop, ms, state, iteration, condensation, fitnessSum, fuel, dim, L, O, p, rng);
    }
  }
}
