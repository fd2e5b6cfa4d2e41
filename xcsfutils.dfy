/** The array helpers of `XCSFUtils`: `flip`, `arrayEquals` and the
 *  numerosity-weighted quickselect `putNumFirstObjectsFirst`. */
module XCSFUtils {
  import opened Wrappers
  import RandomGen

  // ---- flip ----

  /** Exchanges the entries at `position` of the two arrays. */
  method Flip(position: int, a1: array<real>, a2: array<real>)
    requires 0 <= position < a1.Length && position < a2.Length
    modifies a1, a2
    ensures a1[position] == old(a2[position]) && a2[position] == old(a1[position])
    ensures forall k :: 0 <= k < a1.Length && k != position ==> a1[k] == old(a1[k])
    ensures forall k :: 0 <= k < a2.Length && k != position ==> a2[k] == old(a2[k])
  {
    var tmp := a1[position];
    a1[position] := a2[position];
    a2[position] := tmp;
  }

  // ---- arrayEquals ----

  /** The element-wise loop of `arrayEquals` over the indices of the first
   *  array. The second array is read at the same index without a length
   *  check, so a shorter second array whose entries all agree raises
   *  `ArrayIndexOutOfBoundsException`. */
  function ValuesEqual(s1: seq<real>, s2: seq<real>): Result<bool>
  {
    if |s1| == 0 then Success(true)
    else if |s2| == 0 then Failure(IndexOutOfBounds)
    else if s1[0] != s2[0] then Success(false)
    else ValuesEqual(s1[1..], s2[1..])
  }

  /** `arrayEquals`: true for the same reference, false when exactly one side
   *  is null, and the element-wise comparison otherwise. */
  function ArrayEquals(a1: array?<real>, a2: array?<real>): Result<bool>
    reads a1, a2
  {
    if a1 == a2 then Success(true)
    else if a1 == null || a2 == null then Success(false)
    else ValuesEqual(a1[..], a2[..])
  }

  /** What `arrayEquals` decides: reference equality first, a null on one
   *  side next, and otherwise the contents of the shared length; a second
   *  array shorter than an agreeing first one throws. */
  lemma {:induction false} ArrayEqualsSpec(a1: array?<real>, a2: array?<real>)
    ensures a1 == a2 ==> ArrayEquals(a1, a2) == Success(true)
    ensures a1 != a2 && (a1 == null || a2 == null) ==> ArrayEquals(a1, a2) == Success(false)
    ensures a1 != null && a2 != null && a1.Length == a2.Length ==>
      ArrayEquals(a1, a2) == Success(a1[..] == a2[..])
    ensures a1 != null && a2 != null && a1 != a2 ==>
      (ArrayEquals(a1, a2).Failure? <==> a1.Length > a2.Length && a1[..a2.Length] == a2[..])
  {
    if a1 != null && a2 != null && a1 != a2 {
      ValuesEqualCases(a1[..], a2[..]);
      if a1.Length == a2.Length {
        ValuesEqualSameLength(a1[..], a2[..]);
      }
    }
  }

  /** On arrays of equal length the loop decides equality exactly. */
  lemma {:induction false} ValuesEqualSameLength(s1: seq<real>, s2: seq<real>)
    requires |s1| == |s2|
    ensures ValuesEqual(s1, s2) == Success(s1 == s2)
  {
    if |s1| > 0 && s1[0] == s2[0] {
      ValuesEqualSameLength(s1[1..], s2[1..]);
      if s1[1..] == s2[1..] {
        assert s1 == [s1[0]] + s1[1..] && s2 == [s2[0]] + s2[1..];
      }
    }
  }

  /** All three outcomes of the loop, for arrays of any lengths. */
  lemma {:induction false} ValuesEqualCases(s1: seq<real>, s2: seq<real>)
    ensures ValuesEqual(s1, s2) == Success(true) <==> |s1| <= |s2| && s1 == s2[..|s1|]
    ensures ValuesEqual(s1, s2).Failure? <==> |s1| > |s2| && s1[..|s2|] == s2
  {
    if |s1| > 0 && |s2| > 0 {
      ValuesEqualCases(s1[1..], s2[1..]);
      if s1[0] == s2[0] {
        if |s1| <= |s2| {
          assert s2[..|s1|] == [s2[0]] + s2[1..][..|s1| - 1];
          assert s1 == [s1[0]] + s1[1..];
          assert s1[1..] == s2[1..][..|s1| - 1] <==> s1 == s2[..|s1|];
        } else {
          assert s1[..|s2|] == [s1[0]] + s1[1..][..|s2| - 1];
          assert s2 == [s2[0]] + s2[1..];
          assert s1[1..][..|s2| - 1] == s2[1..] <==> s1[..|s2|] == s2;
        }
      } else if |s1| <= |s2| {
        assert s2[..|s1|][0] == s2[0];
      } else {
        assert s1[..|s2|][0] == s1[0];
      }
    }
  }

  // ---- putNumFirstObjectsFirst ----

  /** One slot of the three arrays that are permuted in lockstep. */
  datatype Entry<T> = Entry(vote: real, num: int, obj: T)

  /** The three arrays have one length and `objs` is a separate array. */
  predicate Lockstep<T>(votes: array<real>, nums: array<int>, objs: array<T>)
  {
    votes.Length == nums.Length == objs.Length &&
    objs as object != votes as object && objs as object != nums as object
  }

  /** Stores one entry into the three parallel arrays. */
  method Put<T>(votes: array<real>, nums: array<int>, objs: array<T>, i: int, e: Entry<T>)
    requires Lockstep(votes, nums, objs) && 0 <= i < votes.Length
    modifies votes, nums, objs
    ensures Zip(votes, nums, objs) == old(Zip(votes, nums, objs))[i := e]
  {
    votes[i], nums[i], objs[i] := e.vote, e.num, e.obj;
  }

  ghost function Zip<T>(votes: array<real>, nums: array<int>, objs: array<T>): (z: seq<Entry<T>>)
    requires votes.Length == nums.Length == objs.Length
    reads votes, nums, objs
    ensures |z| == votes.Length
    ensures forall k :: 0 <= k < |z| ==> z[k] == Entry(votes[k], nums[k], objs[k])
  {
    seq(votes.Length, k requires 0 <= k < votes.Length reads votes, nums, objs =>
      Entry(votes[k], nums[k], objs[k]))
  }

  /** `z` arises from `z0` by rearranging the slots of [b, e) only. */
  ghost predicate PermutedWithin<T>(z: seq<Entry<T>>, z0: seq<Entry<T>>, b: int, e: int)
  {
    |z| == |z0| && 0 <= b <= e <= |z| &&
    z[..b] == z0[..b] && z[e..] == z0[e..] && multiset(z[b..e]) == multiset(z0[b..e])
  }

  /** Every vote in [b, t) is at least every vote in [t, e). */
  ghost predicate VotesSplit<T>(z: seq<Entry<T>>, b: int, t: int, e: int)
    requires 0 <= b <= t <= e <= |z|
  {
    forall x, y :: b <= x < t <= y < e ==> z[x].vote >= z[y].vote
  }

  predicate NumsPositive<T>(z: seq<Entry<T>>)
  {
    forall k :: 0 <= k < |z| ==> z[k].num >= 1
  }

  function SumNum<T>(z: seq<Entry<T>>): int
  {
    if |z| == 0 then 0 else z[0].num + SumNum(z[1..])
  }

  /** The length of the shortest prefix whose numerosities reach `num`
   *  (0 when `num` is not positive, |z| when no prefix reaches it). */
  function FirstReach<T>(z: seq<Entry<T>>, num: int): (t: nat)
    ensures t <= |z|
  {
    if num <= 0 || |z| == 0 then 0 else 1 + FirstReach(z[1..], num - z[0].num)
  }

  /** What the final loop of `putNumFirstObjectsFirst` counts: the smallest
   *  k >= 1 with nums[0] + ... + nums[k-1] >= num, or |z| if there is none. */
  function PrefixCount<T>(z: seq<Entry<T>>, num: int): (k: nat)
    ensures k <= |z|
  {
    if |z| == 0 then 0 else if z[0].num >= num then 1 else 1 + PrefixCount(z[1..], num - z[0].num)
  }

  lemma {:induction false} SumNumConcat<T>(a: seq<Entry<T>>, b: seq<Entry<T>>)
    ensures SumNum(a + b) == SumNum(a) + SumNum(b)
  {
    if |a| > 0 {
      assert (a + b)[1..] == a[1..] + b;
      SumNumConcat(a[1..], b);
    } else {
      assert a + b == b;
    }
  }

  /** Rearranging slots does not change the numerosity sum. */
  lemma {:induction false} SumNumPerm<T>(a: seq<Entry<T>>, b: seq<Entry<T>>)
    requires multiset(a) == multiset(b)
    ensures SumNum(a) == SumNum(b)
    decreases |a|
  {
    if |a| == 0 {
      assert |multiset(b)| == 0;
    } else {
      var x := a[0];
      assert x in multiset(b);
      var k :| 0 <= k < |b| && b[k] == x;
      var rest := b[..k] + b[k + 1..];
      assert b == b[..k] + [x] + b[k + 1..];
      assert a == [x] + a[1..];
      assert multiset(a) == multiset{x} + multiset(a[1..]);
      assert multiset(b) == multiset(b[..k]) + multiset{x} + multiset(b[k + 1..]);
      assert multiset(rest) == multiset(b[..k]) + multiset(b[k + 1..]);
      assert multiset(a[1..]) == multiset(a) - multiset{x};
      assert multiset(rest) == multiset(b) - multiset{x};
      SumNumPerm(a[1..], rest);
      SumNumConcat(b[..k] + [x], b[k + 1..]);
      SumNumConcat(b[..k], [x]);
      SumNumConcat(b[..k], b[k + 1..]);
    }
  }

  lemma {:induction false} SumNumAtLeastLength<T>(z: seq<Entry<T>>)
    requires NumsPositive(z)
    ensures SumNum(z) >= |z|
  {
    if |z| > 0 {
      SumNumAtLeastLength(z[1..]);
    }
  }

  /** Once a prefix of length m reaches `num`, looking beyond it changes
   *  nothing. */
  lemma {:induction false} FirstReachTruncate<T>(z: seq<Entry<T>>, m: nat, num: int)
    requires m <= |z| && SumNum(z[..m]) >= num
    ensures FirstReach(z, num) == FirstReach(z[..m], num)
  {
    if num > 0 {
      assert m > 0;
      assert z[..m][1..] == z[1..][..m - 1];
      FirstReachTruncate(z[1..], m - 1, num - z[0].num);
    }
  }

  /** A prefix of positive numerosities that does not exceed `num` is
   *  skipped as a whole. */
  lemma {:induction false} FirstReachShift<T>(z: seq<Entry<T>>, m: nat, num: int)
    requires m <= |z| && NumsPositive(z[..m]) && SumNum(z[..m]) <= num
    ensures FirstReach(z, num) == m + FirstReach(z[m..], num - SumNum(z[..m]))
  {
    if m == 0 {
      assert z[0..] == z;
    } else {
      assert z[..m][1..] == z[1..][..m - 1];
      assert z[1..][m - 1..] == z[m..];
      SumNumAtLeastLength(z[..m][1..]);
      FirstReachShift(z[1..], m - 1, num - z[0].num);
    }
  }

  /** For a positive target the final count is the quickselect's split. */
  lemma {:induction false} PrefixCountIsFirstReach<T>(z: seq<Entry<T>>, num: int)
    requires num > 0
    ensures PrefixCount(z, num) == FirstReach(z, num)
  {
    if |z| > 0 && z[0].num < num {
      PrefixCountIsFirstReach(z[1..], num - z[0].num);
    }
  }

  lemma {:induction false} SumNumSingle<T>(x: Entry<T>)
    ensures SumNum([x]) == x.num
  {
    assert [x][1..] == [];
  }

  /** Dropping the first slot of a prefix removes its numerosity. */
  lemma {:induction false} SumNumPrefixTail<T>(z: seq<Entry<T>>, k: nat)
    requires 1 <= k <= |z|
    ensures SumNum(z[..k]) == z[0].num + SumNum(z[1..][..k - 1])
  {
    assert z[..k][1..] == z[1..][..k - 1];
  }

  /** The count is the smallest k >= 1 whose prefix reaches `num`, or |z|. */
  lemma {:induction false} PrefixCountMinimal<T>(z: seq<Entry<T>>, num: int)
    ensures |z| > 0 ==> PrefixCount(z, num) >= 1
    ensures PrefixCount(z, num) == |z| || SumNum(z[..PrefixCount(z, num)]) >= num
    ensures forall k :: 1 <= k < PrefixCount(z, num) ==> SumNum(z[..k]) < num
  {
    if |z| > 0 {
      var k0 := PrefixCount(z, num);
      SumNumPrefixTail(z, 1);
      assert z[1..][..0] == [];
      if z[0].num < num {
        var tail := z[1..];
        PrefixCountMinimal(tail, num - z[0].num);
        SumNumPrefixTail(z, k0);
        forall k | 1 <= k < k0
          ensures SumNum(z[..k]) < num
        {
          SumNumPrefixTail(z, k);
        }
      }
    }
  }

  lemma {:induction false} SwapPermutedWithin<T>(z: seq<Entry<T>>, z0: seq<Entry<T>>, b: int, e: int, i: int, j: int)
    requires PermutedWithin(z, z0, b, e) && b <= i < e && b <= j < e
    ensures PermutedWithin(z[i := z[j]][j := z[i]], z0, b, e)
  {
    var z' := z[i := z[j]][j := z[i]];
    assert z'[b..e] == z[b..e][i - b := z[j]][j - b := z[i]];
    assert z'[..b] == z[..b];
    assert z'[e..] == z[e..];
  }

  /** Rearranging a sub-range of a rearranged range rearranges the range. */
  lemma {:induction false} PermutedNested<T>(z2: seq<Entry<T>>, z1: seq<Entry<T>>, z0: seq<Entry<T>>, b: int, e: int, b': int, e': int)
    requires PermutedWithin(z1, z0, b, e) && PermutedWithin(z2, z1, b', e')
    requires b <= b' <= e' <= e
    ensures PermutedWithin(z2, z0, b, e)
  {
    assert z2[b..e] == z2[b..b'] + z2[b'..e'] + z2[e'..e];
    assert z1[b..e] == z1[b..b'] + z1[b'..e'] + z1[e'..e];
    assert z2[b..b'] == z1[b..b'] by {
      assert z2[..b'] == z1[..b'];
    }
    assert z2[e'..e] == z1[e'..e] by {
      assert z2[e'..] == z1[e'..];
    }
    assert z2[..b] == z1[..b] by {
      assert z2[..b] == z2[..b'][..b];
      assert z1[..b] == z1[..b'][..b];
    }
    assert z2[e..] == z1[e..] by {
      assert z2[e..] == z2[e'..][e - e'..];
      assert z1[e..] == z1[e'..][e - e'..];
    }
  }

  /** A bound on the votes of a range survives rearranging that range. */
  lemma {:induction false} PermutedBounds<T>(z: seq<Entry<T>>, z0: seq<Entry<T>>, b: int, e: int, p: real)
    requires PermutedWithin(z, z0, b, e)
    ensures (forall k :: b <= k < e ==> z0[k].vote >= p) ==> forall k :: b <= k < e ==> z[k].vote >= p
    ensures (forall k :: b <= k < e ==> z0[k].vote < p) ==> forall k :: b <= k < e ==> z[k].vote < p
    ensures NumsPositive(z0[b..e]) ==> NumsPositive(z[b..e])
    ensures SumNum(z[b..e]) == SumNum(z0[b..e])
  {
    if forall k :: b <= k < e ==> z0[k].vote >= p {
      forall k | b <= k < e
        ensures z[k].vote >= p
      {
        var k0 := PermutedSource(z, z0, b, e, k);
      }
    }
    if forall k :: b <= k < e ==> z0[k].vote < p {
      forall k | b <= k < e
        ensures z[k].vote < p
      {
        var k0 := PermutedSource(z, z0, b, e, k);
      }
    }
    if NumsPositive(z0[b..e]) {
      forall k | 0 <= k < e - b
        ensures z[b..e][k].num >= 1
      {
        var k0 := PermutedSource(z, z0, b, e, b + k);
        assert z0[b..e][k0 - b] == z0[k0];
      }
    }
    SumNumPerm(z[b..e], z0[b..e]);
  }

  /** An entry of a rearranged range comes from somewhere in that range. */
  lemma {:induction false} PermutedSource<T>(z: seq<Entry<T>>, z0: seq<Entry<T>>, b: int, e: int, k: int) returns (k0: int)
    requires PermutedWithin(z, z0, b, e) && b <= k < e
    ensures b <= k0 < e && z[k] == z0[k0]
  {
    assert z[k] == z[b..e][k - b];
    assert z[k] in multiset(z0[b..e]);
    var k1 :| 0 <= k1 < e - b && z0[b..e][k1] == z[k];
    k0 := b + k1;
  }

  method Swap<T>(votes: array<real>, nums: array<int>, objs: array<T>, i: int, j: int)
    requires Lockstep(votes, nums, objs)
    requires 0 <= i < votes.Length && 0 <= j < votes.Length
    modifies votes, nums, objs
    ensures Zip(votes, nums, objs) == old(Zip(votes, nums, objs))[i := old(Zip(votes, nums, objs))[j]][j := old(Zip(votes, nums, objs))[i]]
    ensures nums[i] == old(nums[j]) && nums[j] == old(nums[i])
  {
    votes[i], votes[j] := votes[j], votes[i];
    nums[i], nums[j] := nums[j], nums[i];
    objs[i], objs[j] := objs[j], objs[i];
  }

  /** The median-of-three pivot rule: the returned position carries a vote
   *  between the other two. */
  function MedianOfThree(v0: real, v1: real, v2: real): (k: int)
    ensures 0 <= k < 3
    ensures k == 0 ==> (v1 <= v0 <= v2 || v2 <= v0 <= v1)
    ensures k == 1 ==> (v0 <= v1 <= v2 || v2 <= v1 <= v0)
    ensures k == 2 ==> (v0 <= v2 <= v1 || v1 <= v2 <= v0)
  {
    if v2 < v1 then
      if v1 < v0 then 1
      else if v0 < v2 then 2
      else 0
    else
      if v2 < v0 then 2
      else if v0 < v1 then 1
      else 0
  }

  /** `begin + (int) (uniRand() * (end + 1 - begin))`: a position in
   *  [begin, end]. */
  method RandomPosition(begin: int, end: int, rng: RandomGen.Random) returns (pos: int)
    requires begin <= end && rng.Valid()
    modifies rng
    ensures rng.Valid()
    ensures begin <= pos <= end
  {
    var u := rng.UniRand();
    var len := (end + 1 - begin) as real;
    assert u * len < len;
    pos := begin + (u * len).Floor;
  }

  /** The pivot choice of `putNumFirstRec`: on a range longer than 21 slots
   *  the median of three random slots is swapped to `end`. */
  method ChoosePivot<T>(votes: array<real>, nums: array<int>, objs: array<T>, begin: int, end: int,
                        rng: RandomGen.Random)
    requires Lockstep(votes, nums, objs)
    requires 0 <= begin < end < votes.Length
    requires rng.Valid()
    modifies votes, nums, objs, rng
    ensures rng.Valid()
    ensures PermutedWithin(Zip(votes, nums, objs), old(Zip(votes, nums, objs)), begin, end + 1)
    ensures end - begin <= 20 ==> Zip(votes, nums, objs) == old(Zip(votes, nums, objs))
  {
    ghost var z0 := Zip(votes, nums, objs);
    if end - begin > 20 {
      var posChosen := MedianPosition(votes, begin, end, rng);
      Swap(votes, nums, objs, posChosen, end);
      SwapPermutedWithin(z0, z0, begin, end + 1, posChosen, end);
    }
  }

  /** Three random slots of [begin, end] and the one holding the median of
   *  their votes. */
  method MedianPosition(votes: array<real>, begin: int, end: int, rng: RandomGen.Random) returns (pos: int)
    requires 0 <= begin <= end < votes.Length && rng.Valid()
    modifies rng
    ensures rng.Valid() && begin <= pos <= end
  {
    var pos0 := RandomPosition(begin, end, rng);
    var pos1 := RandomPosition(begin, end, rng);
    var pos2 := RandomPosition(begin, end, rng);
    var k := MedianOfThree(votes[pos0], votes[pos1], votes[pos2]);
    pos := if k == 0 then pos0 else if k == 1 then pos1 else pos2;
  }

  /** The invariant of the partition loop after the slots [begin, j) have
   *  been visited: [begin, i) holds the votes at least `pivot`, [i, j) the
   *  smaller ones, and `numSize` is the numerosity of [begin, i). */
  ghost predicate PartitionInv<T>(z: seq<Entry<T>>, z0: seq<Entry<T>>, begin: int, end: int,
                                  i: int, j: int, pivot: real, numSize: int)
  {
    0 <= begin <= i <= j <= end < |z| == |z0| &&
    z[end] == z0[end] &&
    (forall k :: begin <= k < i ==> z[k].vote >= pivot) &&
    (forall k :: i <= k < j ==> z[k].vote < pivot) &&
    PermutedWithin(z, z0, begin, end + 1) &&
    numSize == SumNum(z[begin..i])
  }

  /** One exchange of the partition loop keeps its invariant. */
  lemma {:induction false} PartitionStep<T>(z: seq<Entry<T>>, z0: seq<Entry<T>>, begin: int, end: int,
                         i: int, j: int, pivot: real, numSize: int)
    requires PartitionInv(z, z0, begin, end, i, j, pivot, numSize) && j < end
    requires pivot <= z[j].vote
    ensures PartitionInv(z[j := z[i]][i := z[j]], z0, begin, end, i + 1, j + 1, pivot, numSize + z[j].num)
  {
    var z' := z[j := z[i]][i := z[j]];
    SwapPermutedWithin(z, z0, begin, end + 1, j, i);
    forall k | begin <= k < i + 1
      ensures z'[k].vote >= pivot
    {
      if k < i {
        assert z'[k] == z[k];
      }
    }
    forall k | i + 1 <= k < j + 1
      ensures z'[k].vote < pivot
    {
      if k < j {
        assert z'[k] == z[k];
      } else {
        assert z'[k] == z[i];
      }
    }
    assert z'[begin..i + 1] == z[begin..i] + [z[j]];
    SumNumConcat(z[begin..i], [z[j]]);
    SumNumSingle(z[j]);
  }

  /** A slot whose vote is below the pivot stays where it is and joins
   *  the right part. */
  lemma {:induction false} PartitionSkip<T>(z: seq<Entry<T>>, z0: seq<Entry<T>>, begin: int, end: int,
                         i: int, j: int, pivot: real, numSize: int)
    requires PartitionInv(z, z0, begin, end, i, j, pivot, numSize) && j < end
    requires z[j].vote < pivot
    ensures PartitionInv(z, z0, begin, end, i, j + 1, pivot, numSize)
  {
  }

  /** The partition loop: slots whose vote is at least the pivot (the vote
   *  at `end`) are moved to the left of `i`. */
  method PartitionLoop<T>(votes: array<real>, nums: array<int>, objs: array<T>, begin: int, end: int)
      returns (i: int, numSize: int)
    requires Lockstep(votes, nums, objs)
    requires 0 <= begin < end < votes.Length
    modifies votes, nums, objs
    ensures PartitionInv(Zip(votes, nums, objs), old(Zip(votes, nums, objs)), begin, end, i, end,
                         old(votes[end]), numSize)
  {
    ghost var z0 := Zip(votes, nums, objs);
    var pivot := votes[end];
    i := begin;
    numSize := 0;
    for j := begin to end
      invariant PartitionInv(Zip(votes, nums, objs), z0, begin, end, i, j, pivot, numSize)
    {
      i, numSize := PartitionTurn(votes, nums, objs, begin, end, i, j, pivot, numSize, z0);
    }
  }

  /** One turn of the partition loop: a slot whose vote reaches the pivot
   *  is exchanged into the left part and its numerosity counted; any other
   *  slot joins the right part where it is. */
  method PartitionTurn<T>(votes: array<real>, nums: array<int>, objs: array<T>, begin: int, end: int,
                          i: int, j: int, pivot: real, numSize: int, ghost z0: seq<Entry<T>>)
      returns (left: int, leftNum: int)
    requires Lockstep(votes, nums, objs)
    requires PartitionInv(Zip(votes, nums, objs), z0, begin, end, i, j, pivot, numSize) && j < end
    modifies votes, nums, objs
    ensures PartitionInv(Zip(votes, nums, objs), z0, begin, end, left, j + 1, pivot, leftNum)
  {
    ghost var z := Zip(votes, nums, objs);
    left, leftNum := i, numSize;
    if pivot <= votes[j] {
      PartitionStep(z, z0, begin, end, i, j, pivot, numSize);
      Swap(votes, nums, objs, j, i);
      leftNum := numSize + nums[i];
      left := i + 1;
    } else {
      PartitionSkip(z, z0, begin, end, i, j, pivot, numSize);
    }
  }

  /** The pivot choice and partition step of `putNumFirstRec`. Afterwards
   *  the pivot sits at `i`, every vote left of it is at least the pivot,
   *  every vote right of it is smaller, and `numSize` is the numerosity on
   *  the left. */
  method Partition<T>(votes: array<real>, nums: array<int>, objs: array<T>, begin: int, end: int,
                      rng: RandomGen.Random) returns (i: int, numSize: int)
    requires Lockstep(votes, nums, objs)
    requires 0 <= begin < end < votes.Length
    requires rng.Valid()
    modifies votes, nums, objs, rng
    ensures rng.Valid()
    ensures PermutedWithin(Zip(votes, nums, objs), old(Zip(votes, nums, objs)), begin, end + 1)
    ensures Partitioned(Zip(votes, nums, objs), begin, i, end, numSize)
  {
    ghost var z0 := Zip(votes, nums, objs);
    ChoosePivot(votes, nums, objs, begin, end, rng);
    ghost var z1 := Zip(votes, nums, objs);
    ghost var pivot := votes[end];
    i, numSize := PartitionLoop(votes, nums, objs, begin, end);
    ghost var z2 := Zip(votes, nums, objs);
    Swap(votes, nums, objs, i, end);
    PartitionFinish(z0, z1, z2, Zip(votes, nums, objs), begin, end, i, pivot, numSize);
  }

  /** Moving the pivot from `end` to `i` completes the partition. */
  lemma {:induction false} PartitionFinish<T>(z0: seq<Entry<T>>, z1: seq<Entry<T>>, z2: seq<Entry<T>>, z3: seq<Entry<T>>,
                           begin: int, end: int, i: int, pivot: real, numSize: int)
    requires 0 <= end < |z1| && pivot == z1[end].vote
    requires PermutedWithin(z1, z0, begin, end + 1)
    requires PartitionInv(z2, z1, begin, end, i, end, pivot, numSize)
    requires z3 == z2[i := z2[end]][end := z2[i]]
    ensures Partitioned(z3, begin, i, end, numSize)
    ensures PermutedWithin(z3, z0, begin, end + 1)
  {
    SwapPermutedWithin(z2, z1, begin, end + 1, i, end);
    assert z3[begin..i] == z2[begin..i];
    PermutedNested(z3, z1, z0, begin, end + 1, begin, end + 1);
  }

  /** What `putNumFirstRec` promises for [begin, end]: only that range is
   *  rearranged, and when all its numerosities are positive, the slots
   *  whose numerosities first reach `num` carry the largest votes. */
  ghost predicate PutNumPost<T>(z: seq<Entry<T>>, z0: seq<Entry<T>>, begin: int, end: int, num: int)
  {
    PermutedWithin(z, z0, begin, end + 1) &&
    (NumsPositive(z[begin..end + 1]) ==> VotesSplit(z, begin, begin + FirstReach(z[begin..end + 1], num), end + 1))
  }

  /** `putNumFirstRec`: rearranges [begin, end] so that the slots whose
   *  numerosities first reach `num` carry the largest votes. The three
   *  arrays move together. */
  method PutNumFirstRec<T>(votes: array<real>, nums: array<int>, objs: array<T>, begin: int, end: int,
                           num: int, rng: RandomGen.Random)
    requires Lockstep(votes, nums, objs)
    requires 0 <= begin <= end + 1 <= votes.Length
    requires rng.Valid()
    modifies votes, nums, objs, rng
    ensures rng.Valid()
    ensures PutNumPost(Zip(votes, nums, objs), old(Zip(votes, nums, objs)), begin, end, num)
    decreases end - begin, 1
  {
    if num <= 0 || begin >= end {
      TrivialPost(Zip(votes, nums, objs), begin, end, num);
      return;
    }
    ghost var z0 := Zip(votes, nums, objs);
    var i, numSize := Partition(votes, nums, objs, begin, end, rng);
    Descend(votes, nums, objs, begin, i, end, num, numSize, rng);
    ghost var z := Zip(votes, nums, objs);
    PutNumPostChain(z, old(Zip(votes, nums, objs)), z0, begin, end, num);
  }

  lemma {:induction false} TrivialPost<T>(z: seq<Entry<T>>, begin: int, end: int, num: int)
    requires 0 <= begin <= end + 1 <= |z| && (num <= 0 || begin >= end)
    ensures PutNumPost(z, z, begin, end, num)
  {
  }

  lemma {:induction false} PutNumPostChain<T>(z: seq<Entry<T>>, z1: seq<Entry<T>>, z0: seq<Entry<T>>, begin: int, end: int, num: int)
    requires 0 <= begin <= end + 1 <= |z0|
    requires PutNumPost(z, z1, begin, end, num) && PermutedWithin(z1, z0, begin, end + 1)
    ensures PutNumPost(z, z0, begin, end, num)
  {
    PermutedNested(z, z1, z0, begin, end + 1, begin, end + 1);
  }

  /** The recursion step of `putNumFirstRec` after partitioning: the side
   *  of the pivot where the numerosities reach `num` is rearranged. */
  method Descend<T>(votes: array<real>, nums: array<int>, objs: array<T>, begin: int, i: int, end: int,
                    num: int, numSize: int, rng: RandomGen.Random)
    requires Lockstep(votes, nums, objs)
    requires end < votes.Length && 0 < num
    requires Partitioned(Zip(votes, nums, objs), begin, i, end, numSize)
    requires rng.Valid()
    modifies votes, nums, objs, rng
    ensures rng.Valid()
    ensures PutNumPost(Zip(votes, nums, objs), old(Zip(votes, nums, objs)), begin, end, num)
    decreases end - begin, 0
  {
    ghost var z1 := Zip(votes, nums, objs);
    var pivotNum := nums[i];
    if num < numSize {
      PutNumFirstRec(votes, nums, objs, begin, i - 1, num, rng);
      LeftCase(z1, Zip(votes, nums, objs), begin, i, end, num, numSize);
    } else if num < numSize + pivotNum {
      MiddleCase(z1, begin, i, end, num, numSize);
    } else {
      PutNumFirstRec(votes, nums, objs, i + 1, end, num - numSize - pivotNum, rng);
      RightCase(z1, Zip(votes, nums, objs), begin, i, end, num, numSize);
    }
  }

  /** The facts `Partition` establishes, on the zipped slots. */
  ghost predicate Partitioned<T>(z: seq<Entry<T>>, begin: int, i: int, end: int, numSize: int)
  {
    0 <= begin <= i <= end < |z| &&
    (forall k :: begin <= k < i ==> z[k].vote >= z[i].vote) &&
    (forall k :: i < k <= end ==> z[k].vote < z[i].vote) &&
    numSize == SumNum(z[begin..i])
  }

  /** Votes in [b, c) are at least p and votes in [c, e) at most p. */
  ghost predicate SplitAt<T>(z: seq<Entry<T>>, b: int, c: int, e: int, p: real)
    requires 0 <= b <= c <= e <= |z|
  {
    (forall k :: b <= k < c ==> z[k].vote >= p) && (forall k :: c <= k < e ==> z[k].vote <= p)
  }

  lemma {:induction false} JoinLeft<T>(z: seq<Entry<T>>, b: int, t: int, c: int, e: int, p: real)
    requires 0 <= b <= t <= c <= e <= |z| && SplitAt(z, b, c, e, p) && VotesSplit(z, b, t, c)
    ensures VotesSplit(z, b, t, e)
  {
  }

  lemma {:induction false} JoinRight<T>(z: seq<Entry<T>>, b: int, c: int, t: int, e: int, p: real)
    requires 0 <= b <= c <= t <= e <= |z| && SplitAt(z, b, c, e, p) && VotesSplit(z, c, t, e)
    ensures VotesSplit(z, b, t, e)
  {
  }

  lemma {:induction false} SplitAtIsVotesSplit<T>(z: seq<Entry<T>>, b: int, c: int, e: int, p: real)
    requires 0 <= b <= c <= e <= |z| && SplitAt(z, b, c, e, p)
    ensures VotesSplit(z, b, c, e)
  {
  }

  /** Positivity of numerosities carries over to a sub-range. */
  lemma {:induction false} NumsPositiveSlice<T>(z: seq<Entry<T>>, b: int, e: int, b': int, e': int)
    requires 0 <= b <= b' <= e' <= e <= |z| && NumsPositive(z[b..e])
    ensures NumsPositive(z[b'..e'])
  {
    forall k | 0 <= k < e' - b'
      ensures z[b'..e'][k].num >= 1
    {
      assert z[b'..e'][k] == z[b..e][b' - b + k];
    }
  }

  lemma {:induction false} LeftCase<T>(z1: seq<Entry<T>>, z2: seq<Entry<T>>, begin: int, i: int, end: int, num: int, numSize: int)
    requires Partitioned(z1, begin, i, end, numSize) && 0 < num < numSize
    requires PutNumPost(z2, z1, begin, i - 1, num)
    ensures PutNumPost(z2, z1, begin, end, num)
  {
    PermutedNested(z2, z1, z1, begin, end + 1, begin, i);
    if NumsPositive(z2[begin..end + 1]) {
      var p := z1[i].vote;
      PermutedBounds(z2, z1, begin, i, p);
      assert z2[i..] == z1[i..];
      forall k | i <= k <= end
        ensures z2[k].vote <= p
      {
        assert z2[k] == z2[i..][k - i] == z1[i..][k - i] == z1[k];
      }
      assert SplitAt(z2, begin, i, end + 1, p);
      var s := z2[begin..end + 1];
      assert s[..i - begin] == z2[begin..i];
      NumsPositiveSlice(z2, begin, end + 1, begin, i);
      FirstReachTruncate(s, i - begin, num);
      JoinLeft(z2, begin, begin + FirstReach(z2[begin..i], num), i, end + 1, p);
    }
  }

  lemma {:induction false} MiddleCase<T>(z1: seq<Entry<T>>, begin: int, i: int, end: int, num: int, numSize: int)
    requires Partitioned(z1, begin, i, end, numSize) && 0 < num && numSize <= num < numSize + z1[i].num
    ensures PutNumPost(z1, z1, begin, end, num)
  {
    if NumsPositive(z1[begin..end + 1]) {
      var s := z1[begin..end + 1];
      var m := i - begin;
      var p := z1[i].vote;
      assert s[..m] == z1[begin..i];
      NumsPositiveSlice(z1, begin, end + 1, begin, i);
      FirstReachShift(s, m, num);
      assert s[m..][0] == z1[i];
      if num == numSize {
        assert FirstReach(s, num) == m;
        assert SplitAt(z1, begin, i, end + 1, p);
        SplitAtIsVotesSplit(z1, begin, i, end + 1, p);
      } else {
        assert FirstReach(s[m..], num - numSize) == 1 + FirstReach(s[m..][1..], num - numSize - z1[i].num);
        assert FirstReach(s, num) == m + 1;
        assert SplitAt(z1, begin, i + 1, end + 1, p);
        SplitAtIsVotesSplit(z1, begin, i + 1, end + 1, p);
      }
    }
  }

  /** The split point of the whole range, when the left part and the pivot
   *  do not yet reach `num`, lies in the right part. */
  lemma {:induction false} RightReach<T>(z1: seq<Entry<T>>, z2: seq<Entry<T>>, begin: int, i: int, end: int, num: int, numSize: int)
    requires Partitioned(z1, begin, i, end, numSize) && numSize + z1[i].num <= num
    requires PermutedWithin(z2, z1, i + 1, end + 1)
    requires NumsPositive(z2[begin..end + 1])
    ensures NumsPositive(z2[i + 1..end + 1])
    ensures FirstReach(z2[begin..end + 1], num) ==
      i + 1 - begin + FirstReach(z2[i + 1..end + 1], num - numSize - z1[i].num)
  {
    var s := z2[begin..end + 1];
    var m := i + 1 - begin;
    assert z2[..i + 1] == z1[..i + 1];
    assert s[..m] == z1[begin..i + 1] by {
      assert s[..m] == z2[..i + 1][begin..];
      assert z1[begin..i + 1] == z1[..i + 1][begin..];
    }
    assert z1[begin..i + 1] == z1[begin..i] + [z1[i]];
    SumNumConcat(z1[begin..i], [z1[i]]);
    SumNumSingle(z1[i]);
    NumsPositiveSlice(z2, begin, end + 1, begin, i + 1);
    assert s[..m] == z2[begin..i + 1];
    FirstReachShift(s, m, num);
    assert s[m..] == z2[i + 1..end + 1];
    NumsPositiveSlice(z2, begin, end + 1, i + 1, end + 1);
  }

  lemma {:induction false} RightCase<T>(z1: seq<Entry<T>>, z2: seq<Entry<T>>, begin: int, i: int, end: int, num: int, numSize: int)
    requires Partitioned(z1, begin, i, end, numSize) && 0 < num && numSize + z1[i].num <= num
    requires PutNumPost(z2, z1, i + 1, end, num - numSize - z1[i].num)
    ensures PutNumPost(z2, z1, begin, end, num)
  {
    PermutedNested(z2, z1, z1, begin, end + 1, i + 1, end + 1);
    if NumsPositive(z2[begin..end + 1]) {
      var p := z1[i].vote;
      PermutedBounds(z2, z1, i + 1, end + 1, p);
      assert z2[..i + 1] == z1[..i + 1];
      forall k | begin <= k <= i
        ensures z2[k].vote >= p
      {
        assert z2[k] == z2[..i + 1][k] == z1[..i + 1][k] == z1[k];
      }
      assert SplitAt(z2, begin, i + 1, end + 1, p);
      RightReach(z1, z2, begin, i, end, num, numSize);
      JoinRight(z2, begin, i + 1, begin + FirstReach(z2[begin..end + 1], num), end + 1, p);
    }
  }

  /** `putNumFirstObjectsFirst`: runs the quickselect over [0, size) and
   *  returns how many leading slots make up the `num` best. */
  method PutNumFirstObjectsFirst<T>(votes: array<real>, nums: array<int>, objs: array<T>, size: int,
                                    num: int, rng: RandomGen.Random) returns (r: int)
    requires Lockstep(votes, nums, objs)
    requires 0 <= size <= votes.Length
    requires rng.Valid()
    modifies votes, nums, objs, rng
    ensures rng.Valid()
    ensures PermutedWithin(Zip(votes, nums, objs), old(Zip(votes, nums, objs)), 0, size)
    ensures r == PrefixCount(Zip(votes, nums, objs)[..size], num)
    ensures num > 0 && NumsPositive(Zip(votes, nums, objs)[..size]) ==> VotesSplit(Zip(votes, nums, objs), 0, r, size)
  {
    PutNumFirstRec(votes, nums, objs, 0, size - 1, num, rng);
    ghost var z := Zip(votes, nums, objs);
    r := CountToReach(nums, z, size, num);
    if num > 0 {
      PrefixCountIsFirstReach(z[..size], num);
    }
  }

  /** The counting loop of `putNumFirstObjectsFirst`: the numerosities of the
      first slots are added up until they reach `num`. */
  method CountToReach<T>(nums: array<int>, ghost z: seq<Entry<T>>, size: int, num: int) returns (r: int)
    requires 0 <= size <= nums.Length && size <= |z|
    requires forall k :: 0 <= k < size ==> z[k].num == nums[k]
    ensures r == PrefixCount(z[..size], num)
  {
    var numsum := 0;
    var i := 0;
    while i < size
      invariant 0 <= i <= size
      invariant numsum == SumNum(z[..i])
      invariant PrefixCount(z[..size], num) == i + PrefixCount(z[i..size], num - numsum)
    {
      assert z[i..size][0] == z[i];
      assert z[i..size][1..] == z[i + 1..size];
      assert z[..i + 1] == z[..i] + [z[i]];
      SumNumConcat(z[..i], [z[i]]);
      SumNumSingle(z[i]);
      numsum := numsum + nums[i];
      if numsum >= num {
        return i + 1;
      }
      i := i + 1;
    }
    assert z[i..size] == [];
    return size;
  }
}
