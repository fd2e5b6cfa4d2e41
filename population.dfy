/** `Population`: the classifier set of the whole system, with roulette-wheel
 *  deletion and greedy compaction. The Java class extends `ClassifierSet`;
 *  here its operations take the set they work on. */
module Populations {
  import opened Wrappers
  import opened Classifiers
  import opened ClassifierSets
  import XCSFConstants
  import RandomGen
  import Rectangle
  import Geometry

  // ---------------------------------------------------------------------
  // The roulette wheel

  function RealSum(v: seq<real>): real
  {
    if |v| == 0 then 0.0 else RealSum(v[..|v| - 1]) + v[|v| - 1]
  }

  predicate AscendingReals(w: seq<real>)
  {
    forall i, j :: 0 <= i < j < |w| ==> w[i] <= w[j]
  }

  predicate StrictlyAscendingReals(w: seq<real>)
  {
    forall i, j :: 0 <= i < j < |w| ==> w[i] < w[j]
  }

  /** The running sums of the votes: entry `k` is the sum of the first
   *  `k + 1` votes. */
  ghost predicate IsWheel(w: seq<real>, votes: seq<real>)
  {
    |w| == |votes| && forall k :: 0 <= k < |w| ==> w[k] == RealSum(votes[..k + 1])
  }

  /** With non-negative votes the wheel ascends; with positive votes it
   *  ascends strictly. */
  lemma {:induction false} WheelAscends(w: seq<real>, votes: seq<real>)
    requires IsWheel(w, votes)
    ensures (forall k :: 0 <= k < |votes| ==> votes[k] >= 0.0) ==> AscendingReals(w)
    ensures (forall k :: 0 <= k < |votes| ==> votes[k] > 0.0) ==> StrictlyAscendingReals(w)
  {
    if forall k :: 0 <= k < |votes| ==> votes[k] >= 0.0 {
      forall i, j | 0 <= i < j < |w|
        ensures w[i] <= w[j]
      {
        RealSumGrows(votes, i + 1, j + 1, false);
      }
    }
    if forall k :: 0 <= k < |votes| ==> votes[k] > 0.0 {
      forall i, j | 0 <= i < j < |w|
        ensures w[i] < w[j]
      {
        RealSumGrows(votes, i + 1, j + 1, true);
      }
    }
  }

  lemma {:induction false} RealSumGrows(votes: seq<real>, a: int, b: int, strict: bool)
    requires 0 <= a <= b <= |votes|
    requires forall k :: 0 <= k < |votes| ==> (if strict then votes[k] > 0.0 else votes[k] >= 0.0)
    ensures RealSum(votes[..a]) <= RealSum(votes[..b])
    ensures strict && a < b ==> RealSum(votes[..a]) < RealSum(votes[..b])
    decreases b - a
  {
    if a < b {
      RealSumGrows(votes, a, b - 1, strict);
      assert votes[..b][..b - 1] == votes[..b - 1];
    }
  }

  /** The vote of every classifier under the mean fitness. */
  ghost function Votes(s: seq<Classifier>, meanFitness: real, p: XCSFConstants.Params): (v: seq<real>)
    reads s
    requires forall k :: 0 <= k < |s| ==> s[k].VoteDefined(meanFitness, p)
    ensures |v| == |s|
    ensures forall k :: 0 <= k < |s| ==> v[k] == s[k].DeletionVote(meanFitness, p)
  {
    seq(|s|, k requires 0 <= k < |s| && s[k].VoteDefined(meanFitness, p) reads s =>
      s[k].DeletionVote(meanFitness, p))
  }

  /** The fitness of every classifier. */
  ghost function Fitnesses(s: seq<Classifier>): (v: seq<real>)
    reads s
    ensures |v| == |s| && forall k :: 0 <= k < |s| ==> v[k] == s[k].fitness
  {
    seq(|s|, k requires 0 <= k < |s| reads s => s[k].fitness)
  }

  /** Positive numerosities add up to at least the number of classifiers. */
  lemma {:induction false} SumAtLeastLength(v: seq<int>)
    requires forall k :: 0 <= k < |v| ==> v[k] >= 1
    ensures Sum(v) >= |v|
    decreases |v|
  {
    if |v| > 0 {
      SumAtLeastLength(v[..|v| - 1]);
    }
  }

  /** `binaryRWSearch`: the low/high search for the wheel slot of the
   *  choice point; an exact hit on an entry returns the slot after it. */
  method BinaryRWSearch(rw: seq<real>, choicePoint: real) returns (index: int)
    ensures |rw| == 0 ==> index == 0
    ensures |rw| > 0 ==> 0 <= index < |rw|
    ensures 0 < index < |rw| ==> rw[index - 1] <= choicePoint
    ensures 0 <= index < |rw| && (index < |rw| - 1 || choicePoint < rw[|rw| - 1]) ==>
      choicePoint < rw[index] || (index > 0 && rw[index - 1] == choicePoint)
  {
    var low := 0;
    var high := |rw| - 1;
    while low < high
      invariant 0 <= low && (|rw| > 0 ==> low <= high < |rw|) && (|rw| == 0 ==> low == 0 && high == -1)
      invariant low > 0 ==> rw[low - 1] < choicePoint
      invariant high < |rw| - 1 ==> choicePoint < rw[high]
      decreases high - low
    {
      var mid := (low + high) / 2;
      if choicePoint < rw[mid] {
        high := mid;
      } else if choicePoint > rw[mid] {
        low := mid + 1;
      } else {
        return mid + 1;
      }
    }
    return low;
  }

  /** What the search promises on an ascending wheel with the choice point
   *  below its last entry: every earlier entry is at most the choice point
   *  and the chosen one at least; on a strictly ascending wheel the chosen
   *  slot is the first whose entry exceeds the choice point. */
  lemma {:induction false} SearchOnAscendingWheel(rw: seq<real>, choicePoint: real, index: int)
    requires AscendingReals(rw) && 0 <= index < |rw| && choicePoint < rw[|rw| - 1]
    requires 0 < index ==> rw[index - 1] <= choicePoint
    requires choicePoint < rw[index] || (index > 0 && rw[index - 1] == choicePoint)
    ensures forall j :: 0 <= j < index ==> rw[j] <= choicePoint
    ensures choicePoint <= rw[index]
    ensures StrictlyAscendingReals(rw) ==> choicePoint < rw[index]
  {
    forall j | 0 <= j < index
      ensures rw[j] <= choicePoint
    {
      assert rw[j] <= rw[index - 1];
    }
    if StrictlyAscendingReals(rw) && index > 0 {
      assert rw[index - 1] < rw[index];
    }
  }

  /** The wheel loop of `deleteWorstClassifiers`. */
  method BuildWheel(pop: ClassifierSet, meanFitness: real, p: XCSFConstants.Params) returns (rw: seq<real>)
    requires pop.Valid() && pop.size >= 1
    requires forall k :: 0 <= k < pop.size ==> pop.elements[k].VoteDefined(meanFitness, p)
    ensures IsWheel(rw, Votes(pop.Contents(), meanFitness, p))
  {
    ghost var votes := Votes(pop.Contents(), meanFitness, p);
    rw := [pop.elements[0].DeletionVote(meanFitness, p)];
    assert votes[..1] == [votes[0]];
    assert votes[..1][..0] == [];
    for i := 1 to pop.size
      invariant IsWheel(rw, votes[..i])
    {
      assert votes[..i + 1][..i] == votes[..i];
      assert votes[..i + 1][..i + 1] == votes[..i + 1];
      rw := rw + [rw[i - 1] + pop.elements[i].DeletionVote(meanFitness, p)];
      assert IsWheel(rw, votes[..i + 1]) by {
        forall k | 0 <= k < i + 1
          ensures rw[k] == RealSum(votes[..i + 1][..k + 1])
        {
          if k < i {
            assert votes[..i + 1][..k + 1] == votes[..i][..k + 1];
          } else {
            assert votes[..i][..i] == votes[..i];
          }
        }
      }
    }
    assert votes[..pop.size] == votes;
  }

  /** The statistics loop of `deleteWorstClassifiers`: the fitness sum and
   *  the numerosity sum. */
  method Totals(pop: ClassifierSet) returns (fitnessSum: real, numerositySum: int)
    requires pop.Valid()
    ensures fitnessSum == RealSum(Fitnesses(pop.Contents()))
    ensures numerositySum == Sum(Nums(pop.Contents()))
  {
    ghost var s := pop.Contents();
    fitnessSum, numerositySum := 0.0, 0;
    for i := 0 to pop.size
      invariant fitnessSum == RealSum(Fitnesses(s)[..i])
      invariant numerositySum == Sum(Nums(s)[..i])
    {
      assert Fitnesses(s)[..i + 1][..i] == Fitnesses(s)[..i];
      assert Nums(s)[..i + 1][..i] == Nums(s)[..i];
      fitnessSum := fitnessSum + pop.elements[i].fitness;
      numerositySum := numerositySum + pop.elements[i].numerosity;
    }
    assert Fitnesses(s)[..pop.size] == Fitnesses(s);
    assert Nums(s)[..pop.size] == Nums(s);
  }

  /** The mean fitness of a set: the fitness sum over the numerosity sum. */
  ghost function MeanFitness(s: seq<Classifier>): real
    reads s
  {
    var total := Sum(Nums(s));
    if total == 0 then 0.0 else RealSum(Fitnesses(s)) / total as real
  }

  /** The wheel initialisation of `deleteWorstClassifiers`: the mean
   *  fitness, then the running sums of the deletion votes under it. */
  method DeletionWheel(pop: ClassifierSet, p: XCSFConstants.Params) returns (rw: seq<real>, meanFitness: real)
    requires pop.Valid() && pop.size >= 1
    requires forall c :: c in pop.Contents() ==> c.numerosity >= 1 && c.VoteDefined(MeanFitness(pop.Contents()), p)
    ensures meanFitness == MeanFitness(pop.Contents())
    ensures IsWheel(rw, Votes(pop.Contents(), meanFitness, p))
  {
    meanFitness := MeanFitnessOf(pop);
    assert forall k :: 0 <= k < pop.size ==> pop.elements[k] in pop.Contents();
    rw := BuildWheel(pop, meanFitness, p);
  }

  /** The first loop of `deleteWorstClassifiers`: the fitness sum over the
   *  numerosity sum, which is positive for a non-empty live set. */
  method MeanFitnessOf(pop: ClassifierSet) returns (meanFitness: real)
    requires pop.Valid() && pop.size >= 1
    requires forall c :: c in pop.Contents() ==> c.numerosity >= 1
    ensures meanFitness == MeanFitness(pop.Contents())
  {
    var fitnessSum, numerositySum := Totals(pop);
    SumAtLeastLength(Nums(pop.Contents()));
    meanFitness := fitnessSum / numerositySum as real;
  }

  /** One draw of the wheel: the choice point `rw[last]·u` for a fresh `u`
   *  and its slot. */
  method Draw(rw: seq<real>, rng: RandomGen.Random) returns (index: int)
    requires |rw| >= 1 && rng.Valid()
    modifies rng
    ensures rng.Valid() && 0 <= index < |rw|
  {
    var u := rng.UniRand();
    index := BinaryRWSearch(rw, rw[|rw| - 1] * u);
  }

  /** The scan for an index among the first `count` entries, stopping at
   *  the first hit. */
  method Includes(a: array<int>, count: int, x: int) returns (b: bool)
    requires 0 <= count <= a.Length
    ensures b <==> x in a[..count]
  {
    b := false;
    for j := 0 to count
      invariant x !in a[..j]
    {
      if a[j] == x {
        return true;
      }
      assert a[..j + 1] == a[..j] + [a[j]];
    }
    assert a[..count] == a[..count][..count];
  }

  /** The entries other than the `-1` placeholder, in order. */
  function Kept(s: seq<int>): (r: seq<int>)
    ensures |r| <= |s|
  {
    if |s| == 0 then []
    else Kept(s[..|s| - 1]) + (if s[|s| - 1] != -1 then [s[|s| - 1]] else [])
  }

  lemma {:induction false} KeptFacts(s: seq<int>)
    requires forall i, j :: 0 <= i < j < |s| && s[i] != -1 ==> s[i] != s[j]
    ensures Distinct(Kept(s))
    ensures forall x :: x in Kept(s) <==> x in s && x != -1
    decreases |s|
  {
    if |s| > 0 {
      var n := |s| - 1;
      KeptFacts(s[..n]);
      assert forall x :: x in s[..n] ==> x in s;
      forall x | x in s && x != -1
        ensures x in Kept(s)
      {
        if x != s[n] {
          var k :| 0 <= k < |s| && s[k] == x;
          assert x in s[..n] by { assert s[..n][k] == x; }
        }
      }
      if s[n] != -1 {
        forall k | 0 <= k < n ensures s[..n][k] != s[n] {}
        assert s[n] !in Kept(s[..n]);
        var K := Kept(s[..n]);
        forall i, j | 0 <= i < j < |K| + 1
          ensures (K + [s[n]])[i] != (K + [s[n]])[j]
        {
          if j == |K| {
            assert K[i] in K;
          }
        }
      }
    }
  }

  lemma {:induction false} KeptPrefix(s: seq<int>, k: int)
    requires 0 <= k <= |s|
    ensures |Kept(s[..k])| <= |Kept(s)|
    decreases |s| - k
  {
    if k < |s| {
      KeptPrefix(s, k + 1);
      assert s[..k + 1][..k] == s[..k];
    } else {
      assert s[..k] == s;
    }
  }

  /** Positions of the zero-numerosity classifiers. */
  ghost function ZeroSlots(s: seq<Classifier>): set<int>
    reads s
  {
    set k | 0 <= k < |s| && s[k].numerosity == 0
  }

  /** The statistics of a classifier other than its numerosity. */
  ghost function Stats(c: Classifier): (real, int, real, real, int)
    reads c
  {
    (c.fitness, c.experience, c.setSizeEstimate, c.predictionError, c.timestamp)
  }

  /** The numerosities mirrored by a ghost sequence. */
  ghost predicate Mirrors(s: seq<Classifier>, nums: seq<int>)
    reads s
  {
    |nums| == |s| && forall k :: 0 <= k < |s| ==> s[k].numerosity == nums[k]
  }

  /** The record the deletion loop keeps over `n` slots: the slots whose
   *  numerosity reached 0 are exactly the recorded ones, each recorded
   *  once, and the unrecorded tail still holds the placeholder. */
  predicate Record(n: int, nums: seq<int>, recorded: seq<int>, deleted: int)
  {
    && |nums| == n && 0 <= deleted <= |recorded|
    && (forall k :: 0 <= k < n ==> nums[k] >= 0)
    && (forall k :: 0 <= k < n ==> (nums[k] == 0 <==> k in recorded[..deleted]))
    && (forall j :: 0 <= j < |recorded| ==> recorded[j] == -1 || 0 <= recorded[j] < n)
    && (forall j :: deleted <= j < |recorded| ==> recorded[j] == -1)
    && (forall i, j :: 0 <= i < j < |recorded| && recorded[i] != -1 ==> recorded[i] != recorded[j])
  }

  /** The record together with the running totals of the draws: no
   *  numerosity grew, the total fell by the number of draws accepted, and
   *  `reallyDeleted` counts the recorded slots. */
  predicate Tally(n: int, nums0: seq<int>, nums: seq<int>, recorded: seq<int>, deleted: int, reallyDeleted: int)
  {
    && Record(n, nums, recorded, deleted)
    && |nums0| == n
    && (forall k :: 0 <= k < n ==> nums[k] <= nums0[k])
    && Sum(nums) == Sum(nums0) - deleted
    && reallyDeleted == |Kept(recorded)|
  }

  ghost predicate DrawsBook(s: seq<Classifier>, nums0: seq<int>, nums: seq<int>, recorded: seq<int>,
                            deleted: int, reallyDeleted: int)
    reads s
  {
    Mirrors(s, nums) && Tally(|s|, nums0, nums, recorded, deleted, reallyDeleted)
  }

  /** An accepted draw of an unrecorded slot keeps the tally: the slot
   *  loses one, and is recorded in the next entry when it reaches 0. */
  lemma {:induction false} TallyStep(n: int, nums0: seq<int>, nums: seq<int>, recorded: seq<int>, deleted: int,
                  reallyDeleted: int, index: int, nums': seq<int>, recorded': seq<int>, reached: bool)
    requires Tally(n, nums0, nums, recorded, deleted, reallyDeleted)
    requires 0 <= index < n && index !in recorded[..deleted] && deleted < |recorded|
    requires nums' == nums[index := nums[index] - 1] && (reached <==> nums'[index] == 0)
    requires recorded' == if reached then recorded[deleted := index] else recorded
    ensures Tally(n, nums0, nums', recorded', deleted + 1, if reached then reallyDeleted + 1 else reallyDeleted)
  {
    RecordStep(n, nums, recorded, deleted, index, nums', recorded', reached);
    SumUpdate(nums, index, nums[index] - 1);
    if reached {
      KeptUpdate(recorded, deleted, index);
    }
  }

  lemma {:induction false} RecordStep(n: int, nums: seq<int>, recorded: seq<int>, deleted: int,
                   index: int, nums': seq<int>, recorded': seq<int>, reached: bool)
    requires Record(n, nums, recorded, deleted)
    requires 0 <= index < n && index !in recorded[..deleted] && deleted < |recorded|
    requires nums' == nums[index := nums[index] - 1] && (reached <==> nums'[index] == 0)
    requires recorded' == if reached then recorded[deleted := index] else recorded
    ensures Record(n, nums', recorded', deleted + 1)
  {
    assert recorded'[..deleted] == recorded[..deleted];
    assert recorded'[..deleted + 1] == recorded[..deleted] + [recorded'[deleted]];
    assert nums[index] >= 1;
    if reached {
      forall i, j | 0 <= i < j < |recorded'| && recorded'[i] != -1
        ensures recorded'[i] != recorded'[j]
      {
        if j == deleted {
          assert recorded[..deleted][i] == recorded[i];
        }
      }
    }
  }

  /** One accepted draw: the classifier loses one micro-classifier and is
   *  recorded when it reaches 0. */
  method Decrement(pop: ClassifierSet, index: int, deletedIndices: array<int>, deleted: int,
                   ghost s: seq<Classifier>, ghost nums: seq<int>) returns (reached: bool, ghost nums': seq<int>)
    requires pop.Valid() && s == pop.Contents() && Separate(s) && 0 <= index < |s|
    requires 0 <= deleted < deletedIndices.Length && Mirrors(s, nums)
    modifies s[index], deletedIndices
    ensures nums' == nums[index := nums[index] - 1] && Mirrors(s, nums')
    ensures reached <==> nums'[index] == 0
    ensures forall c :: c in s ==> Stats(c) == old(Stats(c))
    ensures deletedIndices[..] == if reached then old(deletedIndices[..])[deleted := index] else old(deletedIndices[..])
  {
    var cl := pop.elements[index];
    assert cl == s[index];
    cl.AddNumerosity(-1);
    nums' := nums[index := nums[index] - 1];
    reached := cl.numerosity == 0;
    if reached {
      deletedIndices[deleted] := index;
    }
    forall k | 0 <= k < |s|
      ensures s[k].numerosity == nums'[k]
    {
      if k != index {
        assert s[k] != s[index];
      }
    }
  }

  /** `deleteWorstClassifiers(number)`: draws on the deletion wheel lower
   *  the numerosity of the drawn classifier by one; a slot that reached 0
   *  is recorded and re-rolled when drawn again; at the end the recorded
   *  slots are removed in one batch. The loop re-rolls without bound in the
   *  source; here it stops after `fuel` draws, and the result is the number
   *  of micro-classifiers actually deleted, with `exhausted` telling
   *  whether the draws ran out before `number` were. */
  method DeleteWorstClassifiers(pop: ClassifierSet, number: int, fuel: nat, rng: RandomGen.Random,
                                p: XCSFConstants.Params) returns (deleted: int, exhausted: bool)
    requires pop.Valid() && pop.size >= 1 && rng.Valid() && number >= 0
    requires Separate(pop.Contents())
    requires forall c :: c in pop.Contents() ==> c.numerosity >= 1 && c.VoteDefined(MeanFitness(pop.Contents()), p)
    modifies pop, pop.elements, rng, set c | c in pop.Contents()
    ensures pop.Valid() && rng.Valid()
    ensures 0 <= deleted <= number
    ensures !exhausted ==> deleted == number <= fuel
    ensures exhausted ==> deleted < number
    ensures Sum(Nums(pop.Contents())) == old(Sum(Nums(pop.Contents()))) - deleted
    ensures forall c :: c in old(pop.Contents()) ==> 0 <= c.numerosity <= old(c.numerosity)
    ensures forall c :: c in old(pop.Contents()) ==> unchanged(c`fitness, c`experience, c`setSizeEstimate, c`predictionError, c`timestamp)
    ensures pop.Contents() == Without(old(pop.Contents()), ZeroSlots(old(pop.Contents())))
    ensures forall c :: c in pop.Contents() ==> c.numerosity >= 1
  {
    ghost var s := pop.Contents();
    ghost var nums0 := Nums(s);
    var rouletteWheel, _ := DeletionWheel(pop, p);
    deleted, exhausted := Cull(pop, rouletteWheel, number, fuel, rng, s, nums0);
    forall c | c in s
      ensures 0 <= c.numerosity <= old(c.numerosity)
    {
      var k :| 0 <= k < |s| && s[k] == c;
    }
  }

  /** The draws on the wheel `rw` and the batch removal of the emptied
   *  slots, stated against the population `s` and its numerosities
   *  `nums0` before the first draw. */
  method Cull(pop: ClassifierSet, rw: seq<real>, number: int, fuel: nat, rng: RandomGen.Random,
              ghost s: seq<Classifier>, ghost nums0: seq<int>) returns (deleted: int, exhausted: bool)
    requires pop.Valid() && pop.Contents() == s && Separate(s) && |rw| == |s| >= 1
    requires rng.Valid() && number >= 0 && nums0 == Nums(s)
    requires forall k :: 0 <= k < |s| ==> s[k].numerosity >= 1
    modifies pop, pop.elements, rng, set c | c in s
    ensures pop.Valid() && rng.Valid()
    ensures 0 <= deleted <= number
    ensures !exhausted ==> deleted == number <= fuel
    ensures exhausted ==> deleted < number
    ensures Sum(Nums(pop.Contents())) == Sum(nums0) - deleted
    ensures forall k :: 0 <= k < |s| ==> 0 <= s[k].numerosity <= nums0[k]
    ensures forall c :: c in s ==> Stats(c) == old(Stats(c))
    ensures pop.Contents() == Without(s, ZeroSlots(s))
    ensures forall c :: c in pop.Contents() ==> c.numerosity >= 1
  {
    var deletedIndices, reallyDeleted, draws;
    ghost var nums;
    deletedIndices, deleted, reallyDeleted, draws, nums := DeletionDraws(pop, rw, number, fuel, rng, s, nums0);
    exhausted := deleted < number;
    RemoveRecorded(pop, deletedIndices, reallyDeleted, s, nums0, nums, deleted);
  }

  /** The draw loop of `deleteWorstClassifiers`, up to `fuel` draws. */
  method DeletionDraws(pop: ClassifierSet, rw: seq<real>, number: int, fuel: nat, rng: RandomGen.Random,
                       ghost s: seq<Classifier>, ghost nums0: seq<int>)
    returns (deletedIndices: array<int>, deleted: int, reallyDeleted: int, draws: nat, ghost nums: seq<int>)
    requires pop.Valid() && pop.Contents() == s && Separate(s) && |rw| == |s| >= 1
    requires rng.Valid() && number >= 0 && nums0 == Nums(s)
    requires forall k :: 0 <= k < |s| ==> s[k].numerosity >= 1
    modifies rng, set c | c in s
    ensures fresh(deletedIndices) && deletedIndices.Length == number
    ensures rng.Valid() && 0 <= deleted <= number
    ensures deleted <= draws <= fuel && (deleted < number ==> draws == fuel)
    ensures DrawsBook(s, nums0, nums, deletedIndices[..], deleted, reallyDeleted)
    ensures forall c :: c in s ==> Stats(c) == old(Stats(c))
  {
    deletedIndices := new int[number](_ => -1);
    ghost var none := deletedIndices[..];
    assert Kept(none) == [] by {
      KeptNone(none);
    }
    deleted := 0;
    reallyDeleted := 0;
    draws := 0;
    nums := nums0;
    while deleted < number && draws < fuel
      invariant rng.Valid() && deleted <= draws <= fuel && 0 <= deleted <= number
      invariant DrawsBook(s, nums0, nums, deletedIndices[..], deleted, reallyDeleted)
      invariant forall c :: c in s ==> Stats(c) == old(Stats(c))
      decreases fuel - draws
    {
      draws := draws + 1;
      deleted, reallyDeleted, nums := DrawStep(pop, rw, rng, deletedIndices, deleted, reallyDeleted, s, nums0, nums);
    }
  }

  /** One turn of the draw loop: a draw, the scan of the recorded slots,
   *  and the decrement when the drawn slot is still alive. */
  method DrawStep(pop: ClassifierSet, rw: seq<real>, rng: RandomGen.Random, deletedIndices: array<int>,
                  deleted: int, reallyDeleted: int, ghost s: seq<Classifier>, ghost nums0: seq<int>,
                  ghost nums: seq<int>)
    returns (deleted': int, reallyDeleted': int, ghost nums': seq<int>)
    requires pop.Valid() && pop.Contents() == s && Separate(s) && |rw| == |s| >= 1 && rng.Valid()
    requires 0 <= deleted < deletedIndices.Length
    requires DrawsBook(s, nums0, nums, deletedIndices[..], deleted, reallyDeleted)
    modifies rng, deletedIndices, set c | c in s
    ensures rng.Valid() && deleted <= deleted' <= deleted + 1
    ensures DrawsBook(s, nums0, nums', deletedIndices[..], deleted', reallyDeleted')
    ensures forall c :: c in s ==> Stats(c) == old(Stats(c))
  {
    var index := Draw(rw, rng);
    var alreadyDeleted := Includes(deletedIndices, deleted, index);
    deleted', reallyDeleted', nums' := deleted, reallyDeleted, nums;
    if !alreadyDeleted {
      ghost var before := deletedIndices[..];
      var reached;
      reached, nums' := Decrement(pop, index, deletedIndices, deleted, s, nums);
      TallyStep(|s|, nums0, nums, before, deleted, reallyDeleted, index, nums', deletedIndices[..], reached);
      if reached {
        reallyDeleted' := reallyDeleted + 1;
      }
      deleted' := deleted + 1;
    }
  }

  lemma {:induction false} KeptNone(s: seq<int>)
    requires forall j :: 0 <= j < |s| ==> s[j] == -1
    ensures Kept(s) == []
    decreases |s|
  {
    if |s| > 0 {
      KeptNone(s[..|s| - 1]);
    }
  }

  /** Recording a slot in a placeholder entry adds it to the kept entries. */
  lemma {:induction false} KeptUpdate(s: seq<int>, j: int, x: int)
    requires 0 <= j < |s| && s[j] == -1 && x >= 0
    ensures |Kept(s[j := x])| == |Kept(s)| + 1
  {
    KeptSplit(s, j);
    KeptSplit(s[j := x], j);
    assert s[j := x][..j] == s[..j];
    assert s[j := x][j + 1..] == s[j + 1..];
  }

  lemma {:induction false} KeptSplit(s: seq<int>, j: int)
    requires 0 <= j < |s|
    ensures |Kept(s)| == |Kept(s[..j])| + (if s[j] != -1 then 1 else 0) + |Kept(s[j + 1..])|
  {
    KeptConcat(s[..j + 1], s[j + 1..]);
    assert s == s[..j + 1] + s[j + 1..];
    assert s[..j + 1][..j] == s[..j];
  }

  lemma {:induction false} KeptConcat(a: seq<int>, b: seq<int>)
    ensures Kept(a + b) == Kept(a) + Kept(b)
    decreases |b|
  {
    if |b| == 0 {
      assert a + b == a;
    } else {
      KeptConcat(a, b[..|b| - 1]);
      assert (a + b)[..|a + b| - 1] == a + b[..|b| - 1];
    }
  }

  /** The batch removal that ends `deleteWorstClassifiers`: the recorded
   *  slots are collected into an index array and removed together. */
  method RemoveRecorded(pop: ClassifierSet, deletedIndices: array<int>, reallyDeleted: int,
                        ghost s: seq<Classifier>, ghost nums0: seq<int>, ghost nums: seq<int>, ghost deleted: int)
    requires pop.Valid() && pop.Contents() == s
    requires DrawsBook(s, nums0, nums, deletedIndices[..], deleted, reallyDeleted)
    modifies pop, pop.elements
    ensures pop.Valid() && pop.Contents() == Without(s, ZeroSlots(s))
    ensures Sum(Nums(pop.Contents())) == Sum(nums0) - deleted
    ensures forall c :: c in pop.Contents() ==> c.numerosity >= 1
    ensures forall k :: 0 <= k < |s| ==> 0 <= s[k].numerosity <= nums0[k]
  {
    ghost var recorded := deletedIndices[..];
    KeptInRange(recorded, |s|);
    RemoveKept(pop, deletedIndices, reallyDeleted, s);
    DeletionOutcome(s, nums0, nums, recorded, deleted, reallyDeleted);
  }

  /** The batch removal of the kept entries, when there are any. */
  method RemoveKept(pop: ClassifierSet, deletedIndices: array<int>, reallyDeleted: int, ghost s: seq<Classifier>)
    requires pop.Valid() && pop.Contents() == s
    requires reallyDeleted == |Kept(deletedIndices[..])| && Distinct(Kept(deletedIndices[..]))
    requires forall k :: 0 <= k < |Kept(deletedIndices[..])| ==> 0 <= Kept(deletedIndices[..])[k] < |s|
    modifies pop, pop.elements
    ensures pop.Valid() && pop.Contents() == Without(s, Positions(Kept(deletedIndices[..])))
  {
    if reallyDeleted > 0 {
      var indices := CollectRecorded(deletedIndices, reallyDeleted);
      var r := pop.RemoveAll(indices);
    } else {
      WithoutNone(s, Positions(Kept(deletedIndices[..])));
    }
  }

  /** The index array of the recorded slots, in recording order. */
  method CollectRecorded(deletedIndices: array<int>, reallyDeleted: int) returns (indices: array<int>)
    requires reallyDeleted == |Kept(deletedIndices[..])|
    ensures fresh(indices) && indices[..] == Kept(deletedIndices[..])
  {
    ghost var recorded := deletedIndices[..];
    indices := new int[reallyDeleted];
    var i := 0;
    for k := 0 to deletedIndices.Length
      invariant i == |Kept(recorded[..k])| && i <= reallyDeleted
      invariant indices[..i] == Kept(recorded[..k])
    {
      assert recorded[..k + 1][..k] == recorded[..k];
      KeptPrefix(recorded, k + 1);
      if deletedIndices[k] != -1 {
        indices[i] := deletedIndices[k];
        i := i + 1;
      }
    }
    assert recorded[..deletedIndices.Length] == recorded;
  }

  /** The recorded slots are distinct positions of the set, and they are
   *  exactly the slots whose numerosity reached 0. */
  lemma {:induction false} RecordedSlots(s: seq<Classifier>, nums: seq<int>, recorded: seq<int>, deleted: int)
    requires Mirrors(s, nums) && Record(|s|, nums, recorded, deleted)
    ensures Positions(Kept(recorded)) == ZeroSlots(s)
  {
    KeptFacts(recorded);
    forall x | x in recorded && x != -1
      ensures x in recorded[..deleted]
    {
      var j :| 0 <= j < |recorded| && recorded[j] == x;
      assert recorded[..deleted][j] == x;
    }
  }

  /** The kept entries of a record whose entries are placeholders or
   *  distinct positions below `n` are distinct positions below `n`. */
  lemma {:induction false} KeptInRange(recorded: seq<int>, n: int)
    requires forall j :: 0 <= j < |recorded| ==> recorded[j] == -1 || 0 <= recorded[j] < n
    requires forall i, j :: 0 <= i < j < |recorded| && recorded[i] != -1 ==> recorded[i] != recorded[j]
    ensures Distinct(Kept(recorded))
    ensures forall k :: 0 <= k < |Kept(recorded)| ==> 0 <= Kept(recorded)[k] < n
  {
    KeptFacts(recorded);
    forall k | 0 <= k < |Kept(recorded)|
      ensures 0 <= Kept(recorded)[k] < n
    {
      assert Kept(recorded)[k] in Kept(recorded);
    }
  }

  /** What the draws leave behind: the recorded slots are the zero slots,
   *  removing them keeps the lowered total, only live classifiers remain,
   *  and no numerosity grew. */
  lemma {:induction false} DeletionOutcome(s: seq<Classifier>, nums0: seq<int>, nums: seq<int>, recorded: seq<int>,
                        deleted: int, reallyDeleted: int)
    requires DrawsBook(s, nums0, nums, recorded, deleted, reallyDeleted)
    ensures Positions(Kept(recorded)) == ZeroSlots(s)
    ensures Sum(Nums(Without(s, ZeroSlots(s)))) == Sum(nums0) - deleted
    ensures forall c :: c in Without(s, ZeroSlots(s)) ==> c.numerosity >= 1
    ensures forall k :: 0 <= k < |s| ==> 0 <= s[k].numerosity <= nums0[k]
  {
    RecordedSlots(s, nums, recorded, deleted);
    ZeroRemoval(s, nums);
  }

  /** Taking out the zero-numerosity slots keeps the total numerosity and
   *  leaves only classifiers of numerosity at least 1. */
  lemma {:induction false} ZeroRemoval(s: seq<Classifier>, nums: seq<int>)
    requires |nums| == |s| && forall k :: 0 <= k < |s| ==> s[k].numerosity == nums[k] && nums[k] >= 0
    ensures Sum(Nums(Without(s, ZeroSlots(s)))) == Sum(nums)
    ensures forall c :: c in Without(s, ZeroSlots(s)) ==> c.numerosity >= 1
  {
    ghost var Z := ZeroSlots(s);
    assert Nums(s) == nums;
    SumWithoutZeros(Nums(s), Z);
    NumsWithout(s, Z);
    forall c | c in Without(s, Z)
      ensures c.numerosity >= 1
    {
      WithoutFrom(s, Z, c);
    }
  }

  // ---------------------------------------------------------------------
  // Greedy compaction

  /** `INEXPERIENCED`: the error an inexperienced classifier is assumed to
   *  have. */
  const Inexperienced: real := 1000.0

  /** `Double.compare` on values without NaN or signed zeros: the sign of
   *  `a - b`. */
  function DoubleCompare(a: real, b: real): (r: int)
    ensures r < 0 <==> a < b
    ensures r == 0 <==> a == b
    ensures -1 <= r <= 1
  {
    if a < b then -1 else if a > b then 1 else 0
  }

  /** `COMPACTION_COMPARATOR.compare`. */
  function Compare(cl1: Classifier, cl2: Classifier, p: XCSFConstants.Params): int
    reads cl1, cl2
  {
    if cl1.experience < p.thetaSub && cl2.experience < p.thetaSub then 0
    else if cl1.experience < p.thetaSub then DoubleCompare(Inexperienced, cl2.predictionError)
    else if cl2.experience < p.thetaSub then DoubleCompare(cl1.predictionError, Inexperienced)
    else DoubleCompare(cl1.predictionError, cl2.predictionError)
  }

  /** The error a classifier is ranked by: its prediction error once it has
   *  `thetaSub` experiences, `Inexperienced` before. */
  function CompactionKey(c: Classifier, p: XCSFConstants.Params): real
    reads c
  {
    if c.experience < p.thetaSub then Inexperienced else c.predictionError
  }

  /** The comparator's four branches compare the keys: it is the order of
   *  the keys, hence a total preorder as `Comparator` demands. */
  lemma {:induction false} CompareByKey(cl1: Classifier, cl2: Classifier, cl3: Classifier, p: XCSFConstants.Params)
    ensures Compare(cl1, cl2, p) == DoubleCompare(CompactionKey(cl1, p), CompactionKey(cl2, p))
    ensures Compare(cl1, cl2, p) == -Compare(cl2, cl1, p)
    ensures Compare(cl1, cl2, p) <= 0 && Compare(cl2, cl3, p) <= 0 ==> Compare(cl1, cl3, p) <= 0
  {
  }

  /** The keys of a sequence of classifiers. */
  ghost function Keys(s: seq<Classifier>, p: XCSFConstants.Params): (k: seq<real>)
    reads s
    ensures |k| == |s| && forall a :: 0 <= a < |s| ==> k[a] == CompactionKey(s[a], p)
  {
    seq(|s|, a requires 0 <= a < |s| reads s => CompactionKey(s[a], p))
  }

  ghost predicate KeySorted(s: seq<Classifier>, p: XCSFConstants.Params)
    reads s
  {
    AscendingReals(Keys(s, p))
  }

  /** A value placed after every entry not above it and before the first
   *  entry above it keeps an ascending sequence ascending. */
  lemma {:induction false} InsertAscends(ks: seq<real>, k: int, x: real)
    requires AscendingReals(ks) && 0 <= k <= |ks|
    requires forall t :: 0 <= t < k ==> ks[t] <= x
    requires k < |ks| ==> x < ks[k]
    ensures AscendingReals(ks[..k] + [x] + ks[k..])
  {
    var r := ks[..k] + [x] + ks[k..];
    forall a, b | 0 <= a < b < |r|
      ensures r[a] <= r[b]
    {
      if b == k {
        assert r[a] == ks[a];
      } else if a == k {
        assert r[b] == ks[b - 1] && ks[k] <= ks[b - 1];
      } else {
        assert r[a] == ks[if a < k then a else a - 1];
        assert r[b] == ks[if b < k then b else b - 1];
      }
    }
  }

  /** One step of the sort: `c` goes after every classifier whose key is
   *  not above its own, which keeps equal keys in arrival order. */
  method InsertByKey(sorted: seq<Classifier>, c: Classifier, p: XCSFConstants.Params) returns (r: seq<Classifier>)
    requires KeySorted(sorted, p)
    ensures multiset(r) == multiset(sorted) + multiset{c}
    ensures KeySorted(r, p)
  {
    ghost var ks := Keys(sorted, p);
    var k := 0;
    var key := CompactionKey(c, p);
    while k < |sorted| && CompactionKey(sorted[k], p) <= key
      invariant 0 <= k <= |sorted|
      invariant forall t :: 0 <= t < k ==> ks[t] <= key
    {
      k := k + 1;
    }
    r := sorted[..k] + [c] + sorted[k..];
    InsertAscends(ks, k, key);
    KeysInsert(sorted, c, k, p);
    assert Keys(r, p) == ks[..k] + [key] + ks[k..];
  }

  /** The keys of a sequence with one classifier inserted are its keys
   *  with that classifier's key inserted at the same place. */
  lemma {:induction false} KeysInsert(sorted: seq<Classifier>, c: Classifier, k: int, p: XCSFConstants.Params)
    requires 0 <= k <= |sorted|
    ensures multiset(sorted[..k] + [c] + sorted[k..]) == multiset(sorted) + multiset{c}
    ensures Keys(sorted[..k] + [c] + sorted[k..], p) == Keys(sorted, p)[..k] + [CompactionKey(c, p)] + Keys(sorted, p)[k..]
  {
    var r := sorted[..k] + [c] + sorted[k..];
    assert sorted == sorted[..k] + sorted[k..];
    var ks := Keys(sorted, p);
    var kr := ks[..k] + [CompactionKey(c, p)] + ks[k..];
    var rk := Keys(r, p);
    assert |rk| == |kr|;
    forall a | 0 <= a < |r|
      ensures rk[a] == kr[a]
    {
      if a < k {
        assert r[a] == sorted[a] && kr[a] == ks[a];
      } else if a > k {
        assert r[a] == sorted[a - 1] && kr[a] == ks[a - 1];
      }
    }
  }

  /** `sort(COMPACTION_COMPARATOR)`: `Arrays.sort` of the first `size`
   *  slots, here an insertion of each slot by key into a sorted sequence
   *  that is then written back. Like the object sort of `Arrays.sort`
   *  this sort is stable, since `InsertByKey` places a classifier after
   *  every equal key; the contract states the order of the keys and the
   *  permutation, not the order among classifiers of equal key (every
   *  inexperienced classifier has the same key). */
  method SortForCompaction(pop: ClassifierSet, p: XCSFConstants.Params)
    requires pop.Valid()
    modifies pop.elements
    ensures pop.Valid()
    ensures multiset(pop.Contents()) == multiset(old(pop.Contents()))
    ensures KeySorted(pop.Contents(), p)
    ensures forall a, b :: 0 <= a < b < |pop.Contents()| ==> Compare(pop.Contents()[a], pop.Contents()[b], p) <= 0
  {
    var sorted := SortedByKey(pop, p);
    WriteBack(pop, sorted);
    forall a, b | 0 <= a < b < |sorted|
      ensures Compare(sorted[a], sorted[b], p) <= 0
    {
      CompareByKey(sorted[a], sorted[b], sorted[b], p);
      assert Keys(sorted, p)[a] <= Keys(sorted, p)[b];
    }
  }

  /** The first `size` slots, sorted by key. */
  method SortedByKey(pop: ClassifierSet, p: XCSFConstants.Params) returns (sorted: seq<Classifier>)
    requires pop.Valid()
    ensures multiset(sorted) == multiset(pop.Contents()) && |sorted| == pop.size
    ensures KeySorted(sorted, p)
  {
    ghost var s := pop.Contents();
    sorted := [];
    for k := 0 to pop.size
      invariant multiset(sorted) == multiset(s[..k])
      invariant KeySorted(sorted, p)
    {
      assert s[..k + 1] == s[..k] + [s[k]];
      var c: Classifier := pop.elements[k];
      sorted := InsertByKey(sorted, c, p);
    }
    assert s[..pop.size] == s;
    assert |multiset(sorted)| == |multiset(s)|;
  }

  /** The sorted sequence copied back into the first `size` slots. */
  method WriteBack(pop: ClassifierSet, sorted: seq<Classifier>)
    requires pop.Valid() && |sorted| == pop.size
    modifies pop.elements
    ensures pop.Valid() && pop.Contents() == sorted
  {
    for k := 0 to pop.size
      invariant forall t :: 0 <= t < k ==> pop.elements[t] == sorted[t]
      invariant forall t :: k <= t < pop.size ==> pop.elements[t] != null
    {
      pop.elements[k] := sorted[k];
    }
    assert pop.Contents() == sorted;
  }

  /** What compaction fixes about a classifier at its start: the box of its
   *  condition and its rank. */
  datatype Footprint = Footprint(center: seq<real>, stretch: seq<real>, key: real)

  /** The box of `f` holds `input` strictly inside it. */
  ghost predicate BoxMatch(f: Footprint, input: seq<real>)
  {
    |input| == |f.center| == |f.stretch| && Geometry.Positive(f.stretch)
    && Rectangle.MaxDistance(input, f.center, f.stretch) < 1.0
  }

  /** The condition of `high` matches the center of the condition of
   *  `low`: the test by which `low` absorbs `high`. */
  ghost predicate Covers(low: Classifier, high: Classifier)
    reads low.condition, high.condition
  {
    low.condition.Valid() && high.condition.Valid() && |low.condition.center| == high.condition.dimension
    && high.condition.Distance(low.condition.center) < 1.0
  }

  /** Every classifier of `s0` has a valid `dim`-dimensional condition
   *  with a consistent cache and a valid prediction, and its box is still
   *  the one recorded in `F`. */
  ghost predicate Frozen(s0: seq<Classifier>, F: map<Classifier, Footprint>, dim: nat)
    reads set c | c in s0 :: c.condition, set c | c in s0 :: c.prediction
  {
    forall c :: c in s0 ==>
      && c in F && c.condition.Valid() && c.condition.CacheConsistent() && c.prediction.Valid()
      && c.condition.dimension == dim
      && c.condition.center == F[c].center && c.condition.stretch == F[c].stretch
  }

  /** Every classifier of `s0` still has the rank recorded in `F`. */
  ghost predicate Ranked(s0: seq<Classifier>, F: map<Classifier, Footprint>, p: XCSFConstants.Params)
    reads s0
  {
    forall c :: c in s0 ==> c in F && c.experience >= 0 && CompactionKey(c, p) == F[c].key
  }

  /** The state of the compaction sweep before row `i`: the survivors are
   *  distinct classifiers of `s0` in rank order, and no survivor after a
   *  finished row `a < i` matches the center of row `a`. */
  ghost predicate Swept(C: seq<Classifier>, s0: seq<Classifier>, F: map<Classifier, Footprint>, i: int)
  {
    && 0 <= i <= |C| && Distinct(C) && (forall x :: x in C ==> x in s0 && x in F)
    && (forall a, b :: 0 <= a < b < |C| ==> F[C[a]].key <= F[C[b]].key)
    && (forall a, b :: 0 <= a < i && a < b < |C| ==> !BoxMatch(F[C[b]], F[C[a]].center))
  }

  /** Inside row `i`: no survivor between `i` and `j` matches the center
   *  of row `i`. */
  ghost predicate RowSwept(C: seq<Classifier>, F: map<Classifier, Footprint>, i: int, j: int)
    requires forall x :: x in C ==> x in F
  {
    0 <= i < j <= |C| && forall b :: i < b < j ==> !BoxMatch(F[C[b]], F[C[i]].center)
  }

  /** Removing a later survivor keeps what the sweep has established. */
  lemma {:induction false} SweptRemove(C: seq<Classifier>, s0: seq<Classifier>, F: map<Classifier, Footprint>, i: int, j: int)
    requires Swept(C, s0, F, i) && RowSwept(C, F, i, j) && j < |C|
    ensures Swept(C[..j] + C[j + 1..], s0, F, i) && RowSwept(C[..j] + C[j + 1..], F, i, j)
  {
    var C' := C[..j] + C[j + 1..];
    assert forall b :: 0 <= b < |C'| ==> C'[b] == C[if b < j then b else b + 1];
    forall x | x in C'
      ensures x in C
    {
      var b :| 0 <= b < |C'| && C'[b] == x;
      assert C[if b < j then b else b + 1] == x;
    }
  }

  /** A survivor that does not match the center of row `i` extends the row. */
  lemma {:induction false} RowNext(C: seq<Classifier>, s0: seq<Classifier>, F: map<Classifier, Footprint>, i: int, j: int)
    requires Swept(C, s0, F, i) && RowSwept(C, F, i, j) && j < |C|
    requires !BoxMatch(F[C[j]], F[C[i]].center)
    ensures RowSwept(C, F, i, j + 1)
  {
  }

  /** A finished row extends the sweep. */
  lemma {:induction false} RowDone(C: seq<Classifier>, s0: seq<Classifier>, F: map<Classifier, Footprint>, i: int)
    requires Swept(C, s0, F, i) && i < |C| && (i + 1 == |C| || RowSwept(C, F, i, |C|))
    ensures Swept(C, s0, F, i + 1)
  {
  }

  /** Every classifier holds at least one micro-classifier and has a
   *  non-zero fitness, as the deletion wheel expects. */
  ghost predicate Living(s: seq<Classifier>)
    reads s
  {
    forall c :: c in s ==> c.numerosity >= 1 && c.fitness != 0.0
  }

  /** A population of living classifiers holds at least one
   *  micro-classifier per classifier. */
  lemma {:induction false} LivingSum(s: seq<Classifier>)
    requires Living(s)
    ensures |s| <= Sum(Nums(s))
  {
    forall k | 0 <= k < |s|
      ensures Nums(s)[k] >= 1
    {
      assert s[k] in s;
    }
    SumAtLeastLength(Nums(s));
  }

  /** The numerosity loop that `ensureStateCoverage` and `insertion` run
   *  before deciding how much to delete. */
  method NumerositySum(pop: ClassifierSet) returns (numerositySum: int)
    requires pop.Valid()
    ensures numerositySum == Sum(Nums(pop.Contents()))
  {
    ghost var s := pop.Contents();
    numerositySum := 0;
    for i := 0 to pop.size
      invariant numerositySum == Sum(Nums(s)[..i])
    {
      assert Nums(s)[..i + 1][..i] == Nums(s)[..i];
      numerositySum := numerositySum + pop.elements[i].numerosity;
    }
    assert Nums(s)[..pop.size] == Nums(s);
  }

  /** The survivors of a batch removal from a separate set are separate
   *  and come from the set. */
  lemma {:induction false} SeparateWithout(s: seq<Classifier>, d: set<int>)
    requires Separate(s)
    ensures Separate(Without(s, d)) && forall x :: x in Without(s, d) ==> x in s
  {
    assert Distinct(s);
    WithoutDistinct(s, d);
    forall x | x in Without(s, d)
      ensures x in s
    {
      WithoutFrom(s, d, x);
    }
    SeparateSubset(s, Without(s, d));
  }

  /** The survivors of a deletion keep the invariants of the population
   *  they come from. */
  lemma {:induction false} KeptValid(s: seq<Classifier>, t: seq<Classifier>, dim: nat)
    requires Separate(s) && AllValid(s, dim) && forall c :: c in s ==> c.fitness != 0.0
    requires t == Without(s, ZeroSlots(s))
    requires forall c :: c in t ==> c.numerosity >= 1
    ensures Separate(t) && AllValid(t, dim) && Living(t) && forall x :: x in t ==> x in s
  {
    SeparateWithout(s, ZeroSlots(s));
  }

  /** A classifier whose object, condition and prediction occur nowhere in
   *  a separate set can join it. */
  lemma {:induction false} SeparateAppend(s: seq<Classifier>, c: Classifier)
    requires Separate(s)
    requires forall x :: x in s ==> x != c && x.condition != c.condition && x.prediction != c.prediction
    ensures Separate(s + [c])
  {
    forall i, j | 0 <= i < j < |s + [c]|
      ensures (s + [c])[i] != (s + [c])[j] && (s + [c])[i].condition != (s + [c])[j].condition
        && (s + [c])[i].prediction != (s + [c])[j].prediction
    {
      if j == |s| {
        assert s[i] in s;
      }
    }
  }

  /** Distinct classifiers drawn from a separate set are separate. */
  lemma {:induction false} SeparateSubset(s0: seq<Classifier>, C: seq<Classifier>)
    requires Separate(s0) && Distinct(C) && forall x :: x in C ==> x in s0
    ensures Separate(C)
  {
    forall a, b | 0 <= a < b < |C|
      ensures C[a].condition != C[b].condition && C[a].prediction != C[b].prediction
    {
      assert C[a] in C && C[b] in C;
      var u :| 0 <= u < |s0| && s0[u] == C[a];
      var v :| 0 <= v < |s0| && s0[v] == C[b];
      assert u != v;
    }
  }

  /** A permutation of distinct entries is distinct. */
  lemma {:induction false} DistinctPermutation<T>(s: seq<T>, t: seq<T>)
    requires Distinct(s) && multiset(t) == multiset(s)
    ensures Distinct(t)
  {
    forall i, j | 0 <= i < j < |t|
      ensures t[i] != t[j]
    {
      if t[i] == t[j] {
        DistinctOnce(s, t[i]);
        CountedTwice(t, i, j);
        assert false;
      }
    }
  }

  /** Reordering a set keeps its total numerosity. */
  lemma {:induction false} SumNumsPermutation(a: seq<Classifier>, b: seq<Classifier>)
    requires multiset(a) == multiset(b)
    ensures Sum(Nums(a)) == Sum(Nums(b))
    decreases |a|
  {
    if |a| > 0 {
      var n := |a| - 1;
      assert a[n] in multiset(b);
      var k :| 0 <= k < |b| && b[k] == a[n];
      MultisetRemoveAt(a, n);
      MultisetRemoveAt(b, k);
      assert a[..n] + a[n + 1..] == a[..n];
      SumNumsPermutation(a[..n], b[..k] + b[k + 1..]);
      NumsRemoveAt(a, n);
      NumsRemoveAt(b, k);
      SumRemove(Nums(a), n);
      SumRemove(Nums(b), k);
    }
  }

  lemma {:induction false} MultisetRemoveAt<T>(s: seq<T>, k: int)
    requires 0 <= k < |s|
    ensures multiset(s[..k] + s[k + 1..]) == multiset(s) - multiset{s[k]}
  {
    assert s == s[..k] + [s[k]] + s[k + 1..];
  }

  lemma {:induction false} NumsRemoveAt(s: seq<Classifier>, k: int)
    requires 0 <= k < |s|
    ensures Nums(s[..k] + s[k + 1..]) == Nums(s)[..k] + Nums(s)[k + 1..]
  {
  }

  /** `doesMatch` of the condition at `j` on the center at `i`, with the
   *  recorded footprints kept. */
  method Probe(pop: ClassifierSet, i: int, j: int, ghost s0: seq<Classifier>, ghost F: map<Classifier, Footprint>,
               ghost dim: nat) returns (m: bool)
    requires pop.Valid() && Separate(s0) && Frozen(s0, F, dim)
    requires 0 <= i < pop.size && 0 <= j < pop.size && pop.elements[i] in s0 && pop.elements[j] in s0
    modifies pop.elements[j].condition
    ensures pop.Valid() && pop.Contents() == old(pop.Contents()) && Frozen(s0, F, dim)
    ensures m <==> BoxMatch(F[pop.elements[j]], F[pop.elements[i]].center)
  {
    var low := pop.elements[i];
    var high := pop.elements[j];
    m := high.condition.DoesMatch(low.condition.center);
    forall c | c in s0 && c != high
      ensures c.condition != high.condition
    {
      var u :| 0 <= u < |s0| && s0[u] == c;
      var v :| 0 <= v < |s0| && s0[v] == high;
    }
  }

  /** `clLow.addNumerosity(clHigh.getNumerosity())` followed by
   *  `remove(j)`. */
  method Absorb(pop: ClassifierSet, i: int, j: int, ghost C: seq<Classifier>, ghost nums: seq<int>,
                ghost s0: seq<Classifier>, ghost F: map<Classifier, Footprint>, p: XCSFConstants.Params)
    returns (ghost nums': seq<int>)
    requires pop.Valid() && pop.Contents() == C && Distinct(C) && 0 <= i < j < |C| && Mirrors(C, nums)
    requires Ranked(s0, F, p)
    modifies pop, pop.elements, C[i]
    ensures pop.Valid() && pop.Contents() == C[..j] + C[j + 1..]
    ensures Mirrors(pop.Contents(), nums') && Sum(nums') == Sum(nums)
    ensures Ranked(s0, F, p)
  {
    var low := pop.elements[i];
    var high := pop.elements[j];
    low.AddNumerosity(high.numerosity);
    assert Ranked(s0, F, p) by {
      forall c | c in s0
        ensures c in F && c.experience >= 0 && CompactionKey(c, p) == F[c].key
      {
        assert old(c.experience) >= 0 && old(CompactionKey(c, p)) == F[c].key;
      }
    }
    ghost var raised := nums[i := nums[i] + nums[j]];
    SumUpdate(nums, i, nums[i] + nums[j]);
    forall k | 0 <= k < |C|
      ensures C[k].numerosity == raised[k]
    {
      if k != i {
        assert C[k] != C[i];
      }
    }
    var r := pop.Remove(j);
    nums' := raised[..j] + raised[j + 1..];
    SumRemove(raised, j);
    assert pop.Contents() == C[..j] + C[j + 1..];
    forall k | 0 <= k < |C| - 1
      ensures pop.Contents()[k].numerosity == nums'[k]
    {
      assert pop.Contents()[k] == C[if k < j then k else k + 1];
    }
  }

  /** `applyGreedyCompaction`: with at least two classifiers, the set is
   *  sorted by rank; then, row by row, every later classifier whose
   *  condition matches the center of the row's classifier is absorbed into
   *  it (its numerosity added, its slot removed). Afterwards no survivor
   *  matches the center of an earlier one, the ranks are still in order,
   *  and the total numerosity is what it was. */
  method ApplyGreedyCompaction(pop: ClassifierSet, ghost dim: nat, p: XCSFConstants.Params)
    requires pop.Valid() && Separate(pop.Contents()) && AllValid(pop.Contents(), dim)
    modifies pop, pop.elements, set c | c in pop.Contents(), set c | c in pop.Contents() :: c.condition
    ensures pop.Valid()
    ensures old(pop.size) < 2 ==> pop.Contents() == old(pop.Contents())
    ensures forall c :: c in pop.Contents() ==> c in old(pop.Contents())
    ensures Separate(pop.Contents()) && AllValid(pop.Contents(), dim)
    ensures Sum(Nums(pop.Contents())) == old(Sum(Nums(pop.Contents())))
    ensures KeySorted(pop.Contents(), p)
    ensures forall a, b :: 0 <= a < b < |pop.Contents()| ==> !Covers(pop.Contents()[a], pop.Contents()[b])
  {
    if pop.size < 2 {
      return;
    }
    ghost var s0 := pop.Contents();
    ghost var nums0 := Nums(s0);
    ghost var total := Sum(nums0);
    SortForCompaction(pop, p);
    ghost var F := Footprints(s0, dim, p);
    assert Mirrors(s0, nums0);
    assert Nums(s0) == nums0;
    SumNumsPermutation(pop.Contents(), s0);
    CompactSorted(pop, s0, F, dim, p, total);
  }

  /** The sweep over a population already sorted by rank. */
  method CompactSorted(pop: ClassifierSet, ghost s0: seq<Classifier>, ghost F: map<Classifier, Footprint>,
                       ghost dim: nat, p: XCSFConstants.Params, ghost total: int)
    requires pop.Valid() && Separate(s0) && Frozen(s0, F, dim) && Ranked(s0, F, p)
    requires multiset(pop.Contents()) == multiset(s0) && KeySorted(pop.Contents(), p)
    requires Sum(Nums(pop.Contents())) == total
    modifies pop, pop.elements, set c | c in s0, set c | c in s0 :: c.condition
    ensures pop.Valid()
    ensures forall c :: c in pop.Contents() ==> c in s0
    ensures Separate(pop.Contents()) && AllValid(pop.Contents(), dim)
    ensures Sum(Nums(pop.Contents())) == total
    ensures KeySorted(pop.Contents(), p)
    ensures forall a, b :: 0 <= a < b < |pop.Contents()| ==> !Covers(pop.Contents()[a], pop.Contents()[b])
  {
    SweepStart(s0, pop.Contents(), F, p);
    ghost var nums := Nums(pop.Contents());
    assert Mirrors(pop.Contents(), nums);
    nums := Sweep(pop, s0, F, dim, p, nums, total);
    SweepEnd(s0, pop.Contents(), F, dim, p);
    assert Nums(pop.Contents()) == nums;
  }

  /** The footprints of valid classifiers at the start of compaction. */
  lemma {:induction false} Footprints(s0: seq<Classifier>, dim: nat, p: XCSFConstants.Params) returns (F: map<Classifier, Footprint>)
    requires AllValid(s0, dim)
    ensures Frozen(s0, F, dim) && Ranked(s0, F, p)
  {
    F := map c | c in s0 :: Footprint(c.condition.center, c.condition.stretch, CompactionKey(c, p));
  }

  /** The outer loop of the sweep, over the rows `i`. */
  method Sweep(pop: ClassifierSet, ghost s0: seq<Classifier>, ghost F: map<Classifier, Footprint>,
               ghost dim: nat, p: XCSFConstants.Params, ghost nums: seq<int>, ghost total: int)
    returns (ghost nums': seq<int>)
    requires pop.Valid() && Separate(s0) && Frozen(s0, F, dim) && Ranked(s0, F, p)
    requires Swept(pop.Contents(), s0, F, 0) && Separate(pop.Contents())
    requires Mirrors(pop.Contents(), nums) && Sum(nums) == total
    modifies pop, pop.elements, set c | c in s0, set c | c in s0 :: c.condition
    ensures pop.Valid() && Frozen(s0, F, dim) && Ranked(s0, F, p)
    ensures Swept(pop.Contents(), s0, F, |pop.Contents()|) && Separate(pop.Contents())
    ensures Mirrors(pop.Contents(), nums') && Sum(nums') == total
  {
    nums' := nums;
    var i := 0;
    while i < pop.size
      invariant pop.Valid() && Frozen(s0, F, dim) && Ranked(s0, F, p)
      invariant Swept(pop.Contents(), s0, F, i) && Separate(pop.Contents())
      invariant Mirrors(pop.Contents(), nums') && Sum(nums') == total
      decreases pop.size - i
    {
      nums' := SweepRow(pop, i, s0, F, dim, p, nums', total);
      i := i + 1;
    }
  }

  /** Row `i` of the sweep: the inner loop over `j`. */
  method SweepRow(pop: ClassifierSet, i: int, ghost s0: seq<Classifier>, ghost F: map<Classifier, Footprint>,
                  ghost dim: nat, p: XCSFConstants.Params, ghost nums: seq<int>, ghost total: int)
    returns (ghost nums': seq<int>)
    requires pop.Valid() && Separate(s0) && Frozen(s0, F, dim) && Ranked(s0, F, p)
    requires Swept(pop.Contents(), s0, F, i) && Separate(pop.Contents()) && i < pop.size
    requires Mirrors(pop.Contents(), nums) && Sum(nums) == total
    modifies pop, pop.elements, set c | c in s0, set c | c in s0 :: c.condition
    ensures pop.Valid() && Frozen(s0, F, dim) && Ranked(s0, F, p)
    ensures Swept(pop.Contents(), s0, F, i + 1) && Separate(pop.Contents()) && i < pop.size <= old(pop.size)
    ensures Mirrors(pop.Contents(), nums') && Sum(nums') == total
  {
    nums' := nums;
    var j := i + 1;
    while j < pop.size
      invariant pop.Valid() && Frozen(s0, F, dim) && Ranked(s0, F, p)
      invariant Swept(pop.Contents(), s0, F, i) && Separate(pop.Contents())
      invariant i < j <= pop.size <= old(pop.size) && RowSwept(pop.Contents(), F, i, j)
      invariant Mirrors(pop.Contents(), nums') && Sum(nums') == total
      decreases pop.size - j
    {
      j, nums' := SweepStep(pop, i, j, s0, F, dim, p, nums');
    }
    RowDone(pop.Contents(), s0, F, i);
  }

  /** One turn of the inner loop: absorb the classifier at `j` or move on. */
  method SweepStep(pop: ClassifierSet, i: int, j: int, ghost s0: seq<Classifier>, ghost F: map<Classifier, Footprint>,
                   ghost dim: nat, p: XCSFConstants.Params, ghost nums: seq<int>)
    returns (j': int, ghost nums': seq<int>)
    requires pop.Valid() && Separate(s0) && Frozen(s0, F, dim) && Ranked(s0, F, p)
    requires Swept(pop.Contents(), s0, F, i) && Separate(pop.Contents())
    requires i < j < pop.size && RowSwept(pop.Contents(), F, i, j)
    requires Mirrors(pop.Contents(), nums)
    modifies pop, pop.elements, set c | c in s0, set c | c in s0 :: c.condition
    ensures pop.Valid() && Frozen(s0, F, dim) && Ranked(s0, F, p)
    ensures Swept(pop.Contents(), s0, F, i) && Separate(pop.Contents())
    ensures i < j' <= pop.size && RowSwept(pop.Contents(), F, i, j')
    ensures Mirrors(pop.Contents(), nums') && Sum(nums') == Sum(nums)
    ensures pop.size - j' < old(pop.size) - j && pop.size <= old(pop.size)
  {
    ghost var C := pop.Contents();
    var m := Probe(pop, i, j, s0, F, dim);
    if m {
      nums' := AbsorbAt(pop, i, j, s0, F, dim, p, nums);
      j' := j;
    } else {
      RowNext(C, s0, F, i, j);
      j', nums' := j + 1, nums;
    }
  }

  /** The absorbing branch of the inner loop, with the sweep kept. */
  method AbsorbAt(pop: ClassifierSet, i: int, j: int, ghost s0: seq<Classifier>, ghost F: map<Classifier, Footprint>,
                  ghost dim: nat, p: XCSFConstants.Params, ghost nums: seq<int>) returns (ghost nums': seq<int>)
    requires pop.Valid() && Separate(s0) && Ranked(s0, F, p) && Frozen(s0, F, dim)
    requires Swept(pop.Contents(), s0, F, i) && i < j < pop.size && RowSwept(pop.Contents(), F, i, j)
    requires Mirrors(pop.Contents(), nums)
    modifies pop, pop.elements, pop.elements[i]
    ensures pop.Valid() && Ranked(s0, F, p) && Frozen(s0, F, dim)
    ensures Swept(pop.Contents(), s0, F, i) && Separate(pop.Contents())
    ensures RowSwept(pop.Contents(), F, i, j) && pop.size == old(pop.size) - 1
    ensures Mirrors(pop.Contents(), nums') && Sum(nums') == Sum(nums)
  {
    ghost var C := pop.Contents();
    nums' := Absorb(pop, i, j, C, nums, s0, F, p);
    SweptRemove(C, s0, F, i, j);
    SeparateSubset(s0, pop.Contents());
  }

  /** The sorted set starts the sweep. */
  lemma {:induction false} SweepStart(s0: seq<Classifier>, C: seq<Classifier>, F: map<Classifier, Footprint>,
                   p: XCSFConstants.Params)
    requires Separate(s0) && Ranked(s0, F, p) && multiset(C) == multiset(s0) && KeySorted(C, p)
    ensures Swept(C, s0, F, 0) && Separate(C)
  {
    DistinctPermutation(s0, C);
    forall x | x in C
      ensures x in s0
    {
      assert x in multiset(C);
    }
    SeparateSubset(s0, C);
    forall a, b | 0 <= a < b < |C|
      ensures F[C[a]].key <= F[C[b]].key
    {
      assert C[a] in C && C[b] in C;
      assert Keys(C, p)[a] <= Keys(C, p)[b];
    }
  }

  /** The finished sweep gives the outcome in terms of the conditions. */
  lemma {:induction false} SweepEnd(s0: seq<Classifier>, C: seq<Classifier>, F: map<Classifier, Footprint>, dim: nat,
                 p: XCSFConstants.Params)
    requires Frozen(s0, F, dim) && Ranked(s0, F, p) && Swept(C, s0, F, |C|)
    ensures AllValid(C, dim) && KeySorted(C, p)
    ensures forall a, b :: 0 <= a < b < |C| ==> !Covers(C[a], C[b])
  {
    forall a, b | 0 <= a < b < |C|
      ensures !Covers(C[a], C[b]) && CompactionKey(C[a], p) <= CompactionKey(C[b], p)
    {
      assert C[a] in C && C[b] in C;
      assert !BoxMatch(F[C[b]], F[C[a]].center);
    }
  }
}
