/** `ClassifierSet`: a fixed-capacity array of classifiers and the number
 *  of slots in use, with the order-preserving single and batched removal,
 *  the first-match lookup and the iterator the population and the match set
 *  share. The array slots beyond `size` keep whatever they held; only the
 *  first `size` slots are the set. */
module ClassifierSets {
  import opened Wrappers
  import opened Classifiers
  import Rectangle

  /** `s` with the entries at the positions in `d` taken out; the others
   *  keep their order. */
  function Without<T>(s: seq<T>, d: set<int>): (r: seq<T>)
    ensures |r| <= |s|
    decreases |s|
  {
    if |s| == 0 then []
    else Without(s[..|s| - 1], d) + (if |s| - 1 in d then [] else [s[|s| - 1]])
  }

  /** Removing positions that do not occur changes nothing. */
  lemma {:induction false} WithoutNone<T>(s: seq<T>, d: set<int>)
    requires forall k :: 0 <= k < |s| ==> k !in d
    ensures Without(s, d) == s
    decreases |s|
  {
    if |s| > 0 {
      WithoutNone(s[..|s| - 1], d);
    }
  }

  /** Between a removed position `a` and the next removed position `b`,
   *  the prefix up to `b` loses exactly `a` from the prefix up to `a + 1`:
   *  the block `s[a + 1..b]` moves over unchanged. */
  lemma {:induction false} WithoutBlock<T>(s: seq<T>, d: set<int>, a: int, b: int)
    requires 0 <= a < b <= |s| && a in d
    requires forall k :: a < k < b ==> k !in d
    ensures Without(s[..b], d) == Without(s[..a], d) + s[a + 1..b]
    decreases b
  {
    if b == a + 1 {
      assert s[..b][..a] == s[..a];
    } else {
      WithoutBlock(s, d, a, b - 1);
      assert s[..b][..b - 1] == s[..b - 1];
      assert s[a + 1..b] == s[a + 1..b - 1] + [s[b - 1]];
    }
  }

  /** Removing one position is the slice-and-join of `remove(index)`. */
  lemma {:induction false} WithoutSingle<T>(s: seq<T>, i: int)
    requires 0 <= i < |s|
    ensures Without(s, {i}) == s[..i] + s[i + 1..]
  {
    WithoutNone(s[..i], {i});
    WithoutBlock(s, {i}, i, |s|);
    assert s[..|s|] == s;
  }

  /** Every entry that survives comes from a position outside `d`. */
  lemma {:induction false} WithoutFrom<T>(s: seq<T>, d: set<int>, x: T)
    requires x in Without(s, d)
    ensures exists k :: 0 <= k < |s| && k !in d && s[k] == x
    decreases |s|
  {
    var n := |s| - 1;
    if x in Without(s[..n], d) {
      WithoutFrom(s[..n], d, x);
      var k :| 0 <= k < n && k !in d && s[..n][k] == x;
      assert s[k] == x;
    } else {
      assert n !in d && s[n] == x;
    }
  }

  /** Every entry at a position outside `d` survives. */
  lemma {:induction false} WithoutKeeps<T>(s: seq<T>, d: set<int>, k: int)
    requires 0 <= k < |s| && k !in d
    ensures s[k] in Without(s, d)
    decreases |s|
  {
    var n := |s| - 1;
    if k < n {
      WithoutKeeps(s[..n], d, k);
    }
  }

  predicate Distinct<T(==)>(s: seq<T>)
  {
    forall i, j :: 0 <= i < j < |s| ==> s[i] != s[j]
  }

  /** Removing positions from a sequence of distinct entries leaves
   *  distinct entries. */
  lemma {:induction false} WithoutDistinct<T>(s: seq<T>, d: set<int>)
    requires Distinct(s)
    ensures Distinct(Without(s, d))
    decreases |s|
  {
    if |s| > 0 {
      var n := |s| - 1;
      assert Distinct(s[..n]);
      WithoutDistinct(s[..n], d);
      if n !in d && s[n] in Without(s[..n], d) {
        WithoutFrom(s[..n], d, s[n]);
      }
    }
  }

  predicate Ascending(s: seq<int>)
  {
    forall i, j :: 0 <= i < j < |s| ==> s[i] <= s[j]
  }

  predicate StrictlyAscending(s: seq<int>)
  {
    forall i, j :: 0 <= i < j < |s| ==> s[i] < s[j]
  }

  /** The positions an index array names. */
  function Positions(s: seq<int>): (d: set<int>)
    ensures forall x :: x in d <==> x in s
  {
    set x | x in s
  }

  /** No position of a strictly ascending index sequence lies strictly
   *  between two neighbours, below the first or above the last. */
  lemma {:induction false} Gaps(d: seq<int>, i: int)
    requires StrictlyAscending(d) && 0 <= i < |d|
    ensures forall k :: d[i] < k && (i + 1 < |d| ==> k < d[i + 1]) ==> k !in Positions(d)
    ensures forall k :: k < d[0] ==> k !in Positions(d)
  {
    forall k | k in Positions(d)
      ensures k <= d[i] || (i + 1 < |d| && k >= d[i + 1])
      ensures k >= d[0]
    {
      var j :| 0 <= j < |d| && d[j] == k;
      if j > i + 1 {
        assert d[i + 1] < d[j];
      }
      if j > 0 {
        assert d[0] < d[j];
      }
    }
  }

  /** `x` placed into an ascending sequence, before the first larger
   *  entry. */
  function Insert(x: int, s: seq<int>): (r: seq<int>)
    ensures |r| == |s| + 1
    ensures multiset(r) == multiset(s) + multiset{x}
  {
    if |s| == 0 || x <= s[0] then [x] + s
    else
      assert s == [s[0]] + s[1..];
      [s[0]] + Insert(x, s[1..])
  }

  lemma {:induction false} InsertAscending(x: int, s: seq<int>)
    requires Ascending(s)
    ensures Ascending(Insert(x, s))
  {
    if |s| > 0 && x > s[0] {
      var t := Insert(x, s[1..]);
      InsertAscending(x, s[1..]);
      forall k | 0 <= k < |t|
        ensures s[0] <= t[k]
      {
        assert t[k] in multiset(t);
        assert t[k] in multiset(s[1..]) || t[k] == x;
      }
      assert Insert(x, s) == [s[0]] + t;
    }
  }

  /** The order `Arrays.sort(int[])` leaves: the ascending permutation. */
  function SortInts(s: seq<int>): (r: seq<int>)
    ensures |r| == |s| && multiset(r) == multiset(s)
  {
    if |s| == 0 then []
    else
      assert s == [s[0]] + s[1..];
      Insert(s[0], SortInts(s[1..]))
  }

  lemma {:induction false} SortIntsAscending(s: seq<int>)
    ensures Ascending(SortInts(s))
  {
    if |s| > 0 {
      SortIntsAscending(s[1..]);
      InsertAscending(s[0], SortInts(s[1..]));
    }
  }

  /** Distinct entries occur once. */
  lemma {:induction false} DistinctOnce<T>(s: seq<T>, x: T)
    requires Distinct(s)
    ensures multiset(s)[x] <= 1
  {
    if |s| > 0 {
      assert s == [s[0]] + s[1..];
      assert Distinct(s[1..]);
      DistinctOnce(s[1..], x);
      if s[0] == x {
        assert x !in s[1..];
      }
    }
  }

  /** An entry found at two positions occurs at least twice. */
  lemma {:induction false} CountedTwice<T>(t: seq<T>, i: int, j: int)
    requires 0 <= i < j < |t| && t[i] == t[j]
    ensures multiset(t)[t[i]] >= 2
  {
    assert t == t[..j] + t[j..];
    assert multiset(t) == multiset(t[..j]) + multiset(t[j..]);
    assert t[i] == t[..j][i];
    assert t[j] == t[j..][0];
  }

  /** The ascending permutation of distinct values is strictly ascending. */
  lemma {:induction false} SortedDistinct(s: seq<int>, t: seq<int>)
    requires Distinct(s) && multiset(t) == multiset(s) && Ascending(t)
    ensures StrictlyAscending(t)
  {
    forall i, j | 0 <= i < j < |t|
      ensures t[i] < t[j]
    {
      if t[i] == t[j] {
        DistinctOnce(s, t[i]);
        CountedTwice(t, i, j);
        assert false;
      }
    }
  }

  /** `System.arraycopy(a, src, a, dst, count)` for a copy towards the front
   *  (the only direction used here): the block moves into place, the rest of
   *  the array stays. */
  method ShiftLeft<T>(a: array<T>, src: int, dst: int, count: int)
    requires 0 <= dst <= src && 0 <= count && src + count <= a.Length
    modifies a
    ensures a[..dst + count] == old(a[..dst]) + old(a[src..src + count])
    ensures forall q :: dst + count <= q < a.Length ==> a[q] == old(a[q])
  {
    for k := 0 to count
      invariant forall q :: 0 <= q < dst ==> a[q] == old(a[q])
      invariant forall q :: dst <= q < dst + k ==> a[q] == old(a[q - dst + src])
      invariant forall q :: dst + k <= q < a.Length ==> a[q] == old(a[q])
    {
      a[dst + k] := a[src + k];
    }
  }

  /** The in-place sort of the index array. */
  method SortInPlace(a: array<int>)
    modifies a
    ensures a[..] == SortInts(old(a[..]))
  {
    var sorted := SortInts(a[..]);
    for k := 0 to a.Length
      invariant a[..k] == sorted[..k]
    {
      a[k] := sorted[k];
      assert a[..k + 1] == a[..k] + [a[k]];
    }
    assert a[..] == a[..a.Length];
  }

  /** What the sort gives `remove(int[])`: distinct input indices come out
   *  strictly ascending and naming the same positions. */
  /** `Arrays.sort(indices)` followed by the range check of the largest
   *  index against the size `n`; an empty array fails the check. */
  method SortAndCheck(indices: array<int>, n: int) returns (ok: bool)
    requires Distinct(indices[..]) && forall k :: 0 <= k < indices.Length ==> indices[k] >= 0
    modifies indices
    ensures indices[..] == SortInts(old(indices[..]))
    ensures Positions(indices[..]) == Positions(old(indices[..]))
    ensures ok <==> indices.Length > 0 && forall x :: x in old(indices[..]) ==> x < n
    ensures ok ==> StrictlyAscending(indices[..]) && forall k :: 0 <= k < indices.Length ==> 0 <= indices[k] < n
  {
    ghost var original := indices[..];
    assert forall k :: 0 <= k < |original| ==> original[k] >= 0;
    SortInPlace(indices);
    SortedIndices(original, indices[..]);
    ok := RangeCheckLargest(indices, original, n);
  }

  /** `rangeCheck(indices[indices.length - 1])` on the sorted indices: an
   *  empty array or a largest index at or above the size `n` fails. */
  method RangeCheckLargest(indices: array<int>, ghost original: seq<int>, n: int) returns (ok: bool)
    requires StrictlyAscending(indices[..]) && Positions(indices[..]) == Positions(original)
    requires forall k :: 0 <= k < |original| ==> original[k] >= 0
    ensures ok <==> indices.Length > 0 && forall x :: x in original ==> x < n
    ensures ok ==> forall k :: 0 <= k < indices.Length ==> 0 <= indices[k] < n
  {
    if indices.Length == 0 {
      return false;
    }
    ghost var d := indices[..];
    LargestDecides(original, d, n);
    ok := indices[indices.Length - 1] < n;
    if ok {
      IndicesInRange(original, d, n);
      assert forall k :: 0 <= k < indices.Length ==> indices[k] == d[k];
    }
  }

  /** The range check of the largest sorted index decides whether every
   *  index is in range. */
  lemma LargestDecides(original: seq<int>, d: seq<int>, n: int)
    requires StrictlyAscending(d) && |d| > 0 && Positions(d) == Positions(original)
    ensures d[|d| - 1] < n <==> forall x :: x in original ==> x < n
  {
    assert d[|d| - 1] in Positions(original);
    if d[|d| - 1] < n {
      forall x | x in original
        ensures x < n
      {
        assert x in Positions(d);
        var k :| 0 <= k < |d| && d[k] == x;
        assert k == |d| - 1 || d[k] < d[|d| - 1];
      }
    }
  }

  /** Below the size, the largest sorted index keeps every index in range. */
  lemma IndicesInRange(original: seq<int>, d: seq<int>, n: int)
    requires forall k :: 0 <= k < |original| ==> original[k] >= 0
    requires StrictlyAscending(d) && |d| > 0 && d[|d| - 1] < n
    requires Positions(d) == Positions(original)
    ensures forall k :: 0 <= k < |d| ==> 0 <= d[k] < n
  {
    forall k | 0 <= k < |d|
      ensures 0 <= d[k] < n
    {
      assert d[k] in Positions(d);
      assert k == |d| - 1 || d[k] < d[|d| - 1];
    }
  }

  lemma {:induction false} SortedIndices(original: seq<int>, d: seq<int>)
    requires Distinct(original) && d == SortInts(original)
    ensures StrictlyAscending(d) && |d| == |original|
    ensures forall x :: x in d <==> x in original
    ensures Positions(d) == Positions(original)
  {
    SortIntsAscending(original);
    SortedDistinct(original, d);
    forall x
      ensures x in d <==> x in original
    {
      assert x in d <==> x in multiset(d);
    }
  }

  /** One block copy of `remove(int[])`: with the positions up to the
   *  removed slot `a` already compacted by `shift` slots, the block behind
   *  `a` up to the next removed slot `b` moves `shift + 1` slots to the
   *  front. */
  method ShiftBlock(elements: array<Classifier?>, ghost s0: seq<Classifier>, ghost d: seq<int>, ghost D: set<int>,
                    a: int, b: int, shift: int)
    requires StrictlyAscending(d) && D == Positions(d) && 0 <= shift < |d| && d[shift] == a
    requires shift + 1 < |d| ==> b == d[shift + 1]
    requires 0 <= shift <= a < b <= |s0| <= elements.Length
    requires elements[..a - shift] == Without(s0[..a], D)
    requires forall q :: a <= q < |s0| ==> elements[q] == s0[q]
    modifies elements
    ensures elements[..b - (shift + 1)] == Without(s0[..b], D)
    ensures forall q :: b <= q < |s0| ==> elements[q] == s0[q]
  {
    Gaps(d, shift);
    ghost var head := elements[..a - shift];
    ghost var block := elements[a + 1..b];
    assert block == s0[a + 1..b];
    ShiftLeft(elements, a + 1, a - shift, b - a - 1);
    assert elements[..b - (shift + 1)] == head + block;
    WithoutBlock(s0, D, a, b);
  }

  /** The loop of `remove(int[])` over all but the last index: each turn
   *  moves the block between two neighbouring indices to the front. */
  method ShiftBlocks(elements: array<Classifier?>, indices: array<int>, ghost s0: seq<Classifier>, ghost D: set<int>)
    requires indices.Length > 0 && StrictlyAscending(indices[..]) && D == Positions(indices[..])
    requires forall k :: 0 <= k < indices.Length ==> 0 <= indices[k] < |s0|
    requires |s0| <= elements.Length && elements[..|s0|] == s0
    modifies elements
    ensures 0 <= indices[indices.Length - 1] - (indices.Length - 1)
    ensures elements[..indices[indices.Length - 1] - (indices.Length - 1)] ==
      Without(s0[..indices[indices.Length - 1]], D)
    ensures forall q :: indices[indices.Length - 1] <= q < |s0| ==> elements[q] == s0[q]
  {
    ghost var d := indices[..];
    var m := indices.Length;
    FirstBlock(s0, d);
    assert elements[..d[0]] == s0[..d[0]];
    var i := 0;
    while i < m - 1
      invariant 0 <= i <= m - 1 && d == indices[..]
      invariant 0 <= d[i] - i
      invariant elements[..d[i] - i] == Without(s0[..d[i]], D)
      invariant forall q :: d[i] <= q < |s0| ==> elements[q] == s0[q]
    {
      assert d[i] < d[i + 1] && d[i] == indices[i] && d[i + 1] == indices[i + 1];
      ShiftBlock(elements, s0, d, D, indices[i], indices[i + 1], i);
      i := i + 1;
    }
    assert d[i] == indices[indices.Length - 1];
  }

  /** Nothing is removed below the smallest index. */
  lemma {:induction false} FirstBlock<T>(s: seq<T>, d: seq<int>)
    requires StrictlyAscending(d) && |d| > 0 && 0 <= d[0] <= |s|
    ensures Without(s[..d[0]], Positions(d)) == s[..d[0]]
  {
    Gaps(d, 0);
    WithoutNone(s[..d[0]], Positions(d));
  }

  /** The size `remove(index)` leaves as the source is written, or `None`
   *  where it throws: its range check only rejects indices at or above the
   *  size, and the array copy only runs when something lies behind the
   *  index. */
  function RemoveSizeAsWritten(size: int, index: int): Option<int>
  {
    if index >= size then None
    else if size - index - 1 > 0 && index < 0 then None
    else Some(size - 1)
  }

  /** As written, `remove(-1)` on an empty set goes through and leaves the
   *  size at -1. */
  lemma {:induction false} RemoveMinusOneOnEmpty()
    ensures RemoveSizeAsWritten(0, -1) == Some(-1)
  {
  }

  /** As written, `remove` succeeds exactly on the valid indices and on the
   *  one extra case `remove(-1)` of an empty set. */
  lemma {:induction false} RemoveAsWrittenCases(size: int, index: int)
    requires size >= 0
    ensures RemoveSizeAsWritten(size, index).Some? <==> (0 <= index < size || (size == 0 && index == -1))
  {
  }

  /** The numerosities of a sequence of classifiers. */
  ghost function Nums(s: seq<Classifier>): (v: seq<int>)
    reads s
    ensures |v| == |s| && forall k :: 0 <= k < |s| ==> v[k] == s[k].numerosity
  {
    seq(|s|, k requires 0 <= k < |s| reads s => s[k].numerosity)
  }

  function Sum(v: seq<int>): int
  {
    if |v| == 0 then 0 else Sum(v[..|v| - 1]) + v[|v| - 1]
  }

  lemma {:induction false} SumConcat(a: seq<int>, b: seq<int>)
    ensures Sum(a + b) == Sum(a) + Sum(b)
    decreases |b|
  {
    if |b| == 0 {
      assert a + b == a;
    } else {
      SumConcat(a, b[..|b| - 1]);
      assert (a + b)[..|a + b| - 1] == a + b[..|b| - 1];
    }
  }

  /** Taking one entry out lowers the sum by that entry. */
  lemma {:induction false} SumRemove(v: seq<int>, j: int)
    requires 0 <= j < |v|
    ensures Sum(v[..j] + v[j + 1..]) == Sum(v) - v[j]
  {
    SumConcat(v[..j], v[j + 1..]);
    SumConcat(v[..j], [v[j]] + v[j + 1..]);
    SumConcat([v[j]], v[j + 1..]);
    assert v == v[..j] + ([v[j]] + v[j + 1..]);
    assert Sum([v[j]]) == Sum([]) + v[j];
  }

  /** Changing one entry changes the sum by the difference. */
  lemma {:induction false} SumUpdate(v: seq<int>, i: int, x: int)
    requires 0 <= i < |v|
    ensures Sum(v[i := x]) == Sum(v) - v[i] + x
  {
    SumRemove(v, i);
    SumRemove(v[i := x], i);
    assert v[i := x][..i] + v[i := x][i + 1..] == v[..i] + v[i + 1..];
  }

  /** Removing only zero entries keeps the sum. */
  lemma {:induction false} SumWithoutZeros(v: seq<int>, d: set<int>)
    requires forall k :: 0 <= k < |v| && k in d ==> v[k] == 0
    ensures Sum(Without(v, d)) == Sum(v)
    decreases |v|
  {
    if |v| > 0 {
      var n := |v| - 1;
      SumWithoutZeros(v[..n], d);
      SumConcat(Without(v[..n], d), if n in d then [] else [v[n]]);
      assert Sum([v[n]]) == Sum([]) + v[n];
    }
  }

  /** Numerosities commute with the removal of positions. */
  lemma {:induction false} NumsWithout(s: seq<Classifier>, d: set<int>)
    ensures Nums(Without(s, d)) == Without(Nums(s), d)
    decreases |s|
  {
    if |s| > 0 {
      var n := |s| - 1;
      NumsWithout(s[..n], d);
      assert Nums(s)[..n] == Nums(s[..n]);
      assert Nums(Without(s[..n], d) + (if n in d then [] else [s[n]]))
          == Nums(Without(s[..n], d)) + (if n in d then [] else [s[n].numerosity]);
    }
  }

  /** The classifiers of a set are distinct objects with distinct
   *  conditions and predictions, so updating one leaves the others alone. */
  ghost predicate Separate(s: seq<Classifier>)
  {
    forall i, j :: 0 <= i < j < |s| ==>
      s[i] != s[j] && s[i].condition != s[j].condition && s[i].prediction != s[j].prediction
  }

  /** Every classifier keeps its invariant, and all conditions have the
   *  dimension `dim`. */
  ghost predicate AllValid(s: seq<Classifier>, dim: nat)
    reads s, set c | c in s :: c.condition, set c | c in s :: c.prediction
  {
    forall c :: c in s ==> c.Valid() && c.condition.dimension == dim
  }

  class ClassifierSet {
    const elements: array<Classifier?>
    var size: int

    ghost predicate Valid()
      reads this, elements
    {
      0 <= size <= elements.Length && forall i :: 0 <= i < size ==> elements[i] != null
    }

    /** The classifiers in the set, in slot order. */
    ghost function Contents(): seq<Classifier>
      reads this, elements
      requires Valid()
    {
      elements[..size]
    }

    /** The constructor: an empty set over a fresh array of the given
     *  capacity. */
    constructor (capacity: nat)
      ensures Valid() && Contents() == [] && elements.Length == capacity && fresh(elements)
    {
      elements := new Classifier?[capacity];
      size := 0;
    }

    /** `get`: the classifier in the slot, or the exception of the range
     *  check (an index at or above the size) or of the array access (a
     *  negative index). */
    function Get(index: int): (r: Result<Classifier>)
      reads this, elements
      requires Valid()
      ensures 0 <= index < size ==> r == Success(Contents()[index])
      ensures (index < 0 || index >= size) ==> r == Failure(IndexOutOfBounds)
    {
      if index >= size || index < 0 then Failure(IndexOutOfBounds)
      else var c: Classifier := elements[index]; Success(c)
    }

    function Size(): (n: int)
      reads this, elements
      requires Valid()
      ensures n == |Contents()|
    {
      size
    }

    /** `add`: the classifier goes into slot `size`. Callers keep the set
     *  within its capacity. */
    method Add(c: Classifier)
      requires Valid() && size < elements.Length
      modifies this, elements
      ensures Valid() && Contents() == old(Contents()) + [c]
    {
      elements[size] := c;
      size := size + 1;
    }

    /** `clear`: the size drops to 0, the array is left as it is. */
    method Clear()
      modifies this
      ensures Valid() && Contents() == []
    {
      size := 0;
    }

    /** `remove(index)` with a range check that also rejects negative
     *  indices: the later classifiers move one slot to the front. */
    method Remove(index: int) returns (r: Result<()>)
      requires Valid()
      modifies this, elements
      ensures Valid()
      ensures r.Success? <==> 0 <= index < old(size)
      ensures r.Success? ==> Contents() == old(Contents()[..index] + Contents()[index + 1..])
      ensures r.Failure? ==> r.error == IndexOutOfBounds && Contents() == old(Contents())
    {
      if index < 0 || index >= size {
        return Failure(IndexOutOfBounds);
      }
      var numMoved := size - index - 1;
      if numMoved > 0 {
        ShiftLeft(elements, index + 1, index, numMoved);
      }
      size := size - 1;
      assert elements[..size] == old(elements[..size])[..index] + old(elements[..size])[index + 1..];
      assert forall i :: 0 <= i < size ==> elements[i] == elements[..size][i];
      r := Success(());
    }

    /** `remove(int[])`: the index array is sorted in place, the largest
     *  index is range-checked, then every block between two removed slots
     *  moves to the front in one copy. The indices must be distinct and
     *  non-negative. */
    method RemoveAll(indices: array<int>) returns (r: Result<()>)
      requires Valid()
      requires Distinct(indices[..]) && forall k :: 0 <= k < indices.Length ==> indices[k] >= 0
      modifies this, elements, indices
      ensures Valid()
      ensures indices[..] == SortInts(old(indices[..]))
      ensures r.Success? <==> indices.Length > 0 && forall x :: x in old(indices[..]) ==> x < old(size)
      ensures r.Success? ==> Contents() == Without(old(Contents()), Positions(old(indices[..])))
      ensures r.Success? ==> size == old(size) - indices.Length
      ensures r.Failure? ==> r.error == IndexOutOfBounds && Contents() == old(Contents())
    {
      ghost var s0 := Contents();
      var ok := SortAndCheck(indices, size);
      assert Valid() && Contents() == s0;
      if !ok {
        return Failure(IndexOutOfBounds);
      }
      ShiftOut(indices);
      r := Success(());
    }

    /** The copy loop of `remove(int[])` over sorted, distinct, in-range
     *  indices. */
    method ShiftOut(indices: array<int>)
      requires Valid() && indices.Length > 0 && StrictlyAscending(indices[..])
      requires forall k :: 0 <= k < indices.Length ==> 0 <= indices[k] < size
      modifies this, elements
      ensures Valid() && size == old(size) - indices.Length
      ensures Contents() == Without(old(Contents()), Positions(indices[..]))
    {
      ghost var d := indices[..];
      ghost var s0 := Contents();
      ghost var D := Positions(d);
      var m := indices.Length;
      ShiftBlocks(elements, indices, s0, D);
      ShiftBlock(elements, s0, d, D, indices[m - 1], size, m - 1);
      assert s0[..size] == s0;
      size := size - m;
      assert forall q :: 0 <= q < size ==> elements[q] == Without(s0, D)[q];
    }

    /** `findIdenticalCondition`: the first classifier whose condition
     *  equals the given one in center and stretch, or `None`. */
    method FindIdenticalCondition(condition: Rectangle.ConditionRectangle) returns (r: Option<Classifier>)
      requires Valid() && condition.Valid()
      requires forall c :: c in Contents() ==> c.condition.Valid() && c.condition.dimension == condition.dimension
      ensures r.None? ==> forall k :: 0 <= k < size ==> !Identical(Contents()[k].condition, condition)
      ensures r.Some? ==> exists k :: (0 <= k < size && r.value == Contents()[k]
        && Identical(Contents()[k].condition, condition)
        && forall j :: 0 <= j < k ==> !Identical(Contents()[j].condition, condition))
    {
      for i := 0 to size
        invariant forall k :: 0 <= k < i ==> !Identical(Contents()[k].condition, condition)
      {
        var cl := elements[i];
        assert cl == Contents()[i];
        var same := cl.condition.Equals(condition);
        if same {
          assert Identical(Contents()[i].condition, condition);
          return Some(cl);
        }
      }
      return None;
    }

    /** `iterator`: a fresh iterator before the first element. */
    method Iterator() returns (it: Itr)
      requires Valid()
      ensures fresh(it) && it.Valid() && it.owner == this && it.cursor == 0 && it.preventRemoval
    {
      it := new Itr(this);
    }
  }

  /** Two conditions with the same center and stretch. */
  ghost predicate Identical(a: Rectangle.ConditionRectangle, b: Rectangle.ConditionRectangle)
    reads a, b
  {
    a.center == b.center && a.stretch == b.stretch
  }

  /** `ClassifierSet.Itr`: a cursor over the slots and the flag that allows
   *  one removal after each `next`. */
  class Itr {
    const owner: ClassifierSet
    var cursor: int
    var preventRemoval: bool

    ghost predicate Valid()
      reads this, owner, owner.elements
    {
      owner.Valid() && 0 <= cursor <= owner.size && (!preventRemoval ==> cursor >= 1)
    }

    constructor (owner: ClassifierSet)
      requires owner.Valid()
      ensures Valid() && this.owner == owner && cursor == 0 && preventRemoval
    {
      this.owner := owner;
      cursor := 0;
      preventRemoval := true;
    }

    /** `hasNext`: the cursor has not reached the size. */
    function HasNext(): (b: bool)
      reads this, owner, owner.elements
      requires Valid()
      ensures b <==> cursor < |owner.Contents()|
    {
      cursor != owner.size
    }

    /** `next`: the classifier under the cursor; removal becomes allowed. */
    method Next() returns (c: Classifier)
      requires Valid() && cursor < owner.size
      modifies this
      ensures Valid() && c == owner.Contents()[old(cursor)]
      ensures cursor == old(cursor) + 1 && !preventRemoval
    {
      preventRemoval := false;
      c := owner.elements[cursor];
      cursor := cursor + 1;
    }

    /** `remove`: nothing before the first `next` or right after another
     *  removal; otherwise the element `next` returned last leaves the set
     *  and the cursor steps back, so the rest is visited unchanged. */
    method Remove()
      requires Valid()
      modifies this, owner, owner.elements
      ensures Valid()
      ensures old(preventRemoval) ==> cursor == old(cursor) && preventRemoval && owner.Contents() == old(owner.Contents())
      ensures !old(preventRemoval) ==> preventRemoval && cursor == old(cursor) - 1
      ensures !old(preventRemoval) ==>
        owner.Contents() == old(owner.Contents()[..cursor - 1] + owner.Contents()[cursor..])
      ensures !old(preventRemoval) ==> owner.Contents()[cursor..] == old(owner.Contents()[cursor..])
    {
      if preventRemoval {
        return;
      }
      cursor := cursor - 1;
      preventRemoval := true;
      var r := owner.Remove(cursor);
    }
  }
}
