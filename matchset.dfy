/** `MatchSet`: the classifiers of the population that match the current
 *  state, how they are found (serially, by strided scans meant for several
 *  threads, or by closest-classifier matching), covering when nothing
 *  matches, and the two-pass update of their statistics. */
module MatchSets {
  import opened Wrappers
  import opened Classifiers
  import opened ClassifierSets
  import opened States
  import XCSFConstants
  import RandomGen
  import Rectangle
  import opened Populations
  import XCSFUtils
  import LinearRLS
  import RLS
  import Matrix

  // ---- the index sets of the scans ----

  /** The slots 0, 1, ..., count - 1 in order: the serial scan. */
  function Range(count: nat): (r: seq<int>)
    ensures |r| == count && forall k :: 0 <= k < count ==> r[k] == k
  {
    seq(count, k => k)
  }

  /** The slots o, o + n, o + 2n, ... below `count`: the scan of the
   *  thread with offset `o` when there are `n` threads. */
  function StrideIndices(o: nat, n: nat, count: int): seq<int>
    requires n >= 1
    decreases count - o
  {
    if o >= count then [] else [o] + StrideIndices(o + n, n, count)
  }

  /** The scans of the threads with offsets 0, ..., o - 1, one after the
   *  other: one of the orders in which the threads can append. */
  function Strides(n: nat, count: int, o: nat): seq<int>
    requires n >= 1
  {
    if o == 0 then [] else Strides(n, count, o - 1) + StrideIndices(o - 1, n, count)
  }

  /** Each slot below `count` occurs once in the serial scan. */
  lemma {:induction false} RangeCount(count: nat, i: int)
    ensures multiset(Range(count))[i] == if 0 <= i < count then 1 else 0
  {
    if count > 0 {
      RangeCount(count - 1, i);
      assert Range(count) == Range(count - 1) + [count - 1];
    }
  }

  /** The remainder of a slot after dividing by `n`, as the scans see it:
   *  the offset of the thread whose scan visits the slot. */
  function Residue(i: nat, n: nat): (r: nat)
    requires n >= 1
    ensures r < n && r <= i
    decreases i
  {
    if i < n then i else Residue(i - n, n)
  }

  /** Two slots with the same residue are at least `n` apart. */
  lemma {:induction false} SameResidue(i: nat, o: nat, n: nat)
    requires n >= 1 && o < i && Residue(i, n) == Residue(o, n)
    ensures i >= o + n
    decreases o
  {
    if o >= n {
      SameResidue(i - n, o - n, n);
    }
  }

  /** The scan of offset `o` holds each slot from `o` on with the residue
   *  of `o` once, and nothing else. */
  lemma {:induction false} StrideCount(o: nat, n: nat, count: int, i: int)
    requires n >= 1
    ensures multiset(StrideIndices(o, n, count))[i] ==
      if o <= i < count && Residue(i, n) == Residue(o, n) then 1 else 0
    decreases count - o
  {
    if o < count {
      var o': nat := o + n;
      var rest := StrideIndices(o', n, count);
      assert StrideIndices(o, n, count) == [o] + rest;
      assert multiset(rest)[i] == if o' <= i < count && Residue(i, n) == Residue(o', n) then 1 else 0 by {
        StrideCount(o', n, count, i);
      }
      assert Residue(o', n) == Residue(o, n);
      assert multiset([o] + rest)[i] == multiset([o])[i] + multiset(rest)[i];
      if i != o && o <= i < count && Residue(i, n) == Residue(o, n) {
        SameResidue(i, o, n);
      }
    }
  }

  /** The first `o` scans together hold each slot whose residue is below
   *  `o` once. */
  lemma {:induction false} StridesCount(n: nat, count: int, o: nat, i: int)
    requires n >= 1 && o <= n
    ensures multiset(Strides(n, count, o))[i] == if 0 <= i < count && Residue(i, n) < o then 1 else 0
  {
    if o > 0 {
      var m: nat := o - 1;
      var front := Strides(n, count, m);
      var last := StrideIndices(m, n, count);
      assert Strides(n, count, o) == front + last;
      assert multiset(front)[i] == if 0 <= i < count && Residue(i, n) < m then 1 else 0 by {
        StridesCount(n, count, m, i);
      }
      assert multiset(last)[i] == if m <= i < count && Residue(i, n) == Residue(m, n) then 1 else 0 by {
        StrideCount(m, n, count, i);
      }
      assert Residue(m, n) == m;
      assert multiset(front + last)[i] == multiset(front)[i] + multiset(last)[i];
    }
  }

  /** The `n` scans of the threads visit every slot below `count` exactly
   *  once: as a multiset they are the serial scan. */
  lemma {:induction false} StridesPartition(n: nat, count: nat)
    requires n >= 1
    ensures multiset(Strides(n, count, n)) == multiset(Range(count))
  {
    forall i
      ensures multiset(Strides(n, count, n))[i] == multiset(Range(count))[i]
    {
      StridesCount(n, count, n, i);
      RangeCount(count, i);
    }
  }

  // ---- the classifiers a scan appends ----

  /** The slot `x` of `s` holds a classifier whose recorded box holds the
   *  input. */
  ghost predicate Hit(s: seq<Classifier>, F: map<Classifier, Footprint>, input: seq<real>, x: int)
  {
    0 <= x < |s| && s[x] in F && BoxMatch(F[s[x]], input)
  }

  /** The classifiers a scan over the slots `idx` of `s` appends: those
   *  whose box holds the input, in scan order. */
  ghost function Pick(s: seq<Classifier>, F: map<Classifier, Footprint>, input: seq<real>, idx: seq<int>): seq<Classifier>
    decreases |idx|
  {
    if |idx| == 0 then []
    else
      var n := |idx| - 1;
      Pick(s, F, input, idx[..n]) + (if Hit(s, F, input, idx[n]) then [s[idx[n]]] else [])
  }

  lemma {:induction false} PickConcat(s: seq<Classifier>, F: map<Classifier, Footprint>, input: seq<real>,
                                      a: seq<int>, b: seq<int>)
    ensures Pick(s, F, input, a + b) == Pick(s, F, input, a) + Pick(s, F, input, b)
    decreases |b|
  {
    if |b| > 0 {
      var n := |b| - 1;
      PickConcat(s, F, input, a, b[..n]);
      assert (a + b)[..|a + b| - 1] == a + b[..n];
    } else {
      assert a + b == a;
    }
  }

  /** One more slot appends its classifier when it is a hit. */
  lemma {:induction false} PickStep(s: seq<Classifier>, F: map<Classifier, Footprint>, input: seq<real>, idx: seq<int>, x: int)
    ensures Pick(s, F, input, idx + [x]) == Pick(s, F, input, idx) + (if Hit(s, F, input, x) then [s[x]] else [])
  {
    assert (idx + [x])[..|idx|] == idx;
  }

  /** Equal additions cancel. */
  lemma {:induction false} MultisetCancel<T>(m1: multiset<T>, m2: multiset<T>, x: T)
    requires m1 + multiset{x} == m2 + multiset{x}
    ensures m1 == m2
  {
    forall y
      ensures m1[y] == m2[y]
    {
      assert (m1 + multiset{x})[y] == m1[y] + multiset{x}[y];
      assert (m2 + multiset{x})[y] == m2[y] + multiset{x}[y];
    }
  }

  /** A slot taken out of the middle of a scan takes out what it appends. */
  lemma {:induction false} PickSplit(s: seq<Classifier>, F: map<Classifier, Footprint>, input: seq<real>,
                  b1: seq<int>, x: int, b2: seq<int>)
    ensures multiset(Pick(s, F, input, b1 + [x] + b2))
         == multiset(Pick(s, F, input, b1 + b2)) + multiset(Pick(s, F, input, [x]))
  {
    PickConcat(s, F, input, b1 + [x], b2);
    PickConcat(s, F, input, b1, b2);
    PickConcat(s, F, input, b1, [x]);
  }

  /** The last slot of `a` occurs somewhere in a permutation `b` of it;
   *  without it the two are still permutations of each other. */
  lemma {:induction false} TakeLast(a: seq<int>, b: seq<int>) returns (x: int, k: int, b1: seq<int>, b2: seq<int>)
    requires |a| > 0 && multiset(a) == multiset(b)
    ensures x == a[|a| - 1] && a == a[..|a| - 1] + [x]
    ensures 0 <= k < |b| && b[k] == x && b1 == b[..k] && b2 == b[k + 1..] && b == b1 + [x] + b2
    ensures multiset(a[..|a| - 1]) == multiset(b1 + b2)
  {
    var n := |a| - 1;
    x := a[n];
    assert a == a[..n] + [x];
    assert x in multiset(b);
    k :| 0 <= k < |b| && b[k] == x;
    b1, b2 := b[..k], b[k + 1..];
    assert b == b1 + [x] + b2;
    assert multiset(a[..n]) + multiset{x} == multiset(b1 + b2) + multiset{x};
    MultisetCancel(multiset(a[..n]), multiset(b1 + b2), x);
  }

  /** Scans that visit the same slots append the same classifiers, in
   *  some order. */
  lemma {:induction false} PickPermutation(s: seq<Classifier>, F: map<Classifier, Footprint>, input: seq<real>,
                                           a: seq<int>, b: seq<int>)
    requires multiset(a) == multiset(b)
    ensures multiset(Pick(s, F, input, a)) == multiset(Pick(s, F, input, b))
    decreases |a|
  {
    if |a| == 0 {
      assert |b| == |multiset(b)| == 0;
    } else {
      var x, k, b1, b2 := TakeLast(a, b);
      var a1 := a[..|a| - 1];
      PickSplit(s, F, input, b1, x, b2);
      PickSplit(s, F, input, a1, x, []);
      assert a1 + [x] + [] == a && a1 + [] == a1;
      PickPermutation(s, F, input, a1, b1 + b2);
    }
  }

  /** The serial scan appends exactly the classifiers of `s` whose box
   *  holds the input. */
  lemma {:induction false} SerialMembers(s: seq<Classifier>, F: map<Classifier, Footprint>, input: seq<real>,
                                         count: nat, c: Classifier)
    requires count <= |s|
    ensures c in Pick(s, F, input, Range(count)) <==> c in s[..count] && c in F && BoxMatch(F[c], input)
  {
    if count > 0 {
      var m: nat := count - 1;
      var before := Pick(s, F, input, Range(m));
      assert c in before <==> c in s[..m] && c in F && BoxMatch(F[c], input) by {
        SerialMembers(s, F, input, m, c);
      }
      assert Range(count) == Range(m) + [m];
      assert Pick(s, F, input, Range(count)) == before + (if Hit(s, F, input, m) then [s[m]] else []) by {
        PickStep(s, F, input, Range(m), m);
      }
      assert s[..count] == s[..m] + [s[m]];
    }
  }

  /** The strided scans append the same classifiers as the serial scan,
   *  each as often. */
  lemma {:induction false} StridesPickSerial(s: seq<Classifier>, F: map<Classifier, Footprint>, input: seq<real>, n: nat)
    requires n >= 1
    ensures multiset(Pick(s, F, input, Strides(n, |s|, n))) == multiset(Pick(s, F, input, Range(|s|)))
  {
    StridesPartition(n, |s|);
    PickPermutation(s, F, input, Strides(n, |s|, n), Range(|s|));
  }

  /** While the recorded boxes are those of the conditions, the serial scan
   *  appends exactly the classifiers whose condition matches the input,
   *  and so do the strided scans. */
  lemma {:induction false} ScansMatch(s: seq<Classifier>, F: map<Classifier, Footprint>, dim: nat, input: seq<real>,
                   n: nat, c: Classifier)
    requires Frozen(s, F, dim) && |input| == dim && n >= 1
    ensures c in Pick(s, F, input, Range(|s|)) <==> c in s && c.Matches(input)
    ensures c in Pick(s, F, input, Strides(n, |s|, n)) <==> c in s && c.Matches(input)
  {
    SerialMembers(s, F, input, |s|, c);
    assert s[..|s|] == s;
    StridesPickSerial(s, F, input, n);
    assert c in multiset(Pick(s, F, input, Range(|s|))) <==> c in Pick(s, F, input, Range(|s|));
  }

  /** `ScansMatch` for every classifier. */
  lemma {:induction false} ScansMatchAll(s: seq<Classifier>, F: map<Classifier, Footprint>, dim: nat, input: seq<real>, n: nat)
    requires Frozen(s, F, dim) && |input| == dim && n >= 1
    ensures forall c :: c in Pick(s, F, input, Range(|s|)) <==> c in s && c.Matches(input)
    ensures forall c :: c in Pick(s, F, input, Strides(n, |s|, n)) <==> c in s && c.Matches(input)
  {
    forall c
      ensures c in Pick(s, F, input, Range(|s|)) <==> c in s && c.Matches(input)
      ensures c in Pick(s, F, input, Strides(n, |s|, n)) <==> c in s && c.Matches(input)
    {
      ScansMatch(s, F, dim, input, n, c);
    }
  }

  /** Later threads only add to the combined scan; all `n` scans together
   *  visit `count` slots. */
  lemma {:induction false} StridesLength(n: nat, count: nat, o: nat)
    requires n >= 1 && o <= n
    ensures |Strides(n, count, o)| <= |Strides(n, count, n)| == count
    decreases n - o
  {
    if o < n {
      var o': nat := o + 1;
      assert |Strides(n, count, o')| <= |Strides(n, count, n)| == count by {
        StridesLength(n, count, o');
      }
      assert Strides(n, count, o') == Strides(n, count, o) + StrideIndices(o, n, count);
    } else {
      assert |multiset(Strides(n, count, n))| == |multiset(Range(count))| by {
        StridesPartition(n, count);
      }
    }
  }

  // ---- the classifiers of the population the scans see ----

  /** Every classifier has a non-negative experience. */
  ghost predicate Experienced(s: seq<Classifier>)
    reads s
  {
    forall c :: c in s ==> c.experience >= 0
  }

  /** `popElements[k].doesMatch(state)` during a scan: the cache of that
   *  condition may change, its box and every other condition stay. */
  method MatchOne(pop: ClassifierSet, k: int, current: StateDescriptor, ghost s: seq<Classifier>,
                  ghost F: map<Classifier, Footprint>, ghost dim: nat) returns (m: bool)
    requires pop.Valid() && pop.Contents() == s && 0 <= k < |s|
    requires Separate(s) && Frozen(s, F, dim) && Experienced(s) && |current.conditionInput| == dim
    modifies s[k].condition
    ensures Frozen(s, F, dim)
    ensures m <==> Hit(s, F, current.conditionInput, k)
  {
    var cl := pop.elements[k];
    m := cl.DoesMatch(current);
    forall c | c in s && c != cl
      ensures c.condition != cl.condition
    {
      var u :| 0 <= u < |s| && s[u] == c;
    }
  }

  /** One slot of a scan: `if (popElements[i].doesMatch(state)) add(popElements[i])`. */
  method ScanStep(members: ClassifierSet, pop: ClassifierSet, current: StateDescriptor, i: int,
                  ghost idx: seq<int>, ghost s: seq<Classifier>, ghost F: map<Classifier, Footprint>, ghost dim: nat)
    requires members.Valid() && pop.Valid() && pop.Contents() == s && 0 <= i < |s|
    requires pop != members && pop.elements != members.elements && members.size < members.elements.Length
    requires Separate(s) && Frozen(s, F, dim) && Experienced(s) && |current.conditionInput| == dim
    requires members.Contents() == Pick(s, F, current.conditionInput, idx)
    modifies members, members.elements, s[i].condition
    ensures members.Valid() && pop.Contents() == s && Frozen(s, F, dim)
    ensures members.size <= old(members.size) + 1
    ensures members.Contents() == Pick(s, F, current.conditionInput, idx + [i])
  {
    var m := MatchOne(pop, i, current, s, F, dim);
    if m {
      members.Add(pop.elements[i]);
    }
    PickStep(s, F, current.conditionInput, idx, i);
  }

  /** `serialMatching`: every slot in order. */
  method SerialMatching(members: ClassifierSet, pop: ClassifierSet, current: StateDescriptor,
                        ghost s: seq<Classifier>, ghost F: map<Classifier, Footprint>, ghost dim: nat)
    requires members.Valid() && members.Contents() == [] && pop.Valid() && pop.Contents() == s
    requires pop != members && pop.elements != members.elements && |s| <= members.elements.Length
    requires Separate(s) && Frozen(s, F, dim) && Experienced(s) && |current.conditionInput| == dim
    modifies members, members.elements, set c | c in s :: c.condition
    ensures members.Valid() && pop.Contents() == s && Frozen(s, F, dim)
    ensures members.Contents() == Pick(s, F, current.conditionInput, Range(|s|))
  {
    var i := 0;
    while i < pop.size
      invariant 0 <= i <= |s| && members.Valid() && pop.Contents() == s && Frozen(s, F, dim) && Experienced(s)
      invariant members.size <= i
      invariant members.Contents() == Pick(s, F, current.conditionInput, Range(i))
    {
      i := SerialStep(members, pop, current, i, s, F, dim);
    }
    assert i == |s|;
  }

  /** One slot of the serial scan. */
  method SerialStep(members: ClassifierSet, pop: ClassifierSet, current: StateDescriptor, i: nat,
                    ghost s: seq<Classifier>, ghost F: map<Classifier, Footprint>, ghost dim: nat)
    returns (next: nat)
    requires members.Valid() && pop.Valid() && pop.Contents() == s && i < |s|
    requires pop != members && pop.elements != members.elements && |s| <= members.elements.Length
    requires Separate(s) && Frozen(s, F, dim) && Experienced(s) && |current.conditionInput| == dim
    requires members.size <= i
    requires members.Contents() == Pick(s, F, current.conditionInput, Range(i))
    modifies members, members.elements, s[i].condition
    ensures members.Valid() && pop.Contents() == s && Frozen(s, F, dim)
    ensures next == i + 1 && members.size <= next
    ensures members.Contents() == Pick(s, F, current.conditionInput, Range(next))
  {
    ScanStep(members, pop, current, i, Range(i), s, F, dim);
    next := i + 1;
    assert Range(next) == Range(i) + [i];
  }

  /** The loop of the thread with offset `o`: the slots `o, o + n, ...`,
   *  appended after the scans of the threads before it. */
  method StrideMatching(members: ClassifierSet, pop: ClassifierSet, current: StateDescriptor, n: nat, o: nat,
                        ghost s: seq<Classifier>, ghost F: map<Classifier, Footprint>, ghost dim: nat)
    requires members.Valid() && pop.Valid() && pop.Contents() == s
    requires pop != members && pop.elements != members.elements
    requires 1 <= n && o < n && |Strides(n, |s|, o + 1)| <= members.elements.Length
    requires Separate(s) && Frozen(s, F, dim) && Experienced(s) && |current.conditionInput| == dim
    requires members.size <= |Strides(n, |s|, o)|
    requires members.Contents() == Pick(s, F, current.conditionInput, Strides(n, |s|, o))
    modifies members, members.elements, set c | c in s :: c.condition
    ensures members.Valid() && pop.Contents() == s && Frozen(s, F, dim)
    ensures members.size <= |Strides(n, |s|, o + 1)|
    ensures members.Contents() == Pick(s, F, current.conditionInput, Strides(n, |s|, o + 1))
  {
    ghost var full := Strides(n, |s|, o + 1);
    assert full == Strides(n, |s|, o) + StrideIndices(o, n, |s|);
    ghost var seen := Strides(n, |s|, o);
    var i: nat := o;
    while i < pop.size
      invariant members.Valid() && pop.Contents() == s && Frozen(s, F, dim) && Experienced(s)
      invariant seen + StrideIndices(i, n, |s|) == full
      invariant members.size <= |seen|
      invariant members.Contents() == Pick(s, F, current.conditionInput, seen)
      decreases |s| - i
    {
      seen, i := StrideStep(members, pop, current, n, i, seen, full, s, F, dim);
    }
    StrideEnd(seen, i, n, |s|);
  }

  /** One slot of the loop of a thread. */
  method StrideStep(members: ClassifierSet, pop: ClassifierSet, current: StateDescriptor, n: nat, i: nat,
                    ghost seen: seq<int>, ghost full: seq<int>,
                    ghost s: seq<Classifier>, ghost F: map<Classifier, Footprint>, ghost dim: nat)
    returns (ghost seen': seq<int>, next: nat)
    requires members.Valid() && pop.Valid() && pop.Contents() == s && i < |s|
    requires pop != members && pop.elements != members.elements && 1 <= n && |full| <= members.elements.Length
    requires Separate(s) && Frozen(s, F, dim) && Experienced(s) && |current.conditionInput| == dim
    requires seen + StrideIndices(i, n, |s|) == full
    requires members.size <= |seen|
    requires members.Contents() == Pick(s, F, current.conditionInput, seen)
    modifies members, members.elements, s[i].condition
    ensures members.Valid() && pop.Contents() == s && Frozen(s, F, dim)
    ensures next == i + n && seen' + StrideIndices(next, n, |s|) == full
    ensures members.size <= |seen'|
    ensures members.Contents() == Pick(s, F, current.conditionInput, seen')
  {
    next := i + n;
    StrideNext(seen, i, n, |s|, next);
    ScanStep(members, pop, current, i, seen, s, F, dim);
    seen' := seen + [i];
  }

  /** Visiting slot `i` moves it from the rest of the scan to the slots
   *  seen. */
  lemma {:induction false} StrideNext(seen: seq<int>, i: nat, n: nat, count: int, next: nat)
    requires n >= 1 && i < count && next == i + n
    ensures seen + StrideIndices(i, n, count) == (seen + [i]) + StrideIndices(next, n, count)
    ensures |seen| < |seen + StrideIndices(i, n, count)|
  {
    assert StrideIndices(i, n, count) == [i] + StrideIndices(next, n, count);
  }

  /** Past the last slot the scan has nothing left. */
  lemma {:induction false} StrideEnd(seen: seq<int>, i: nat, n: nat, count: int)
    requires n >= 1 && i >= count
    ensures seen + StrideIndices(i, n, count) == seen
  {
  }

  /** `parallelMatching`: the farmer scans offset 0 and the `n - 1`
   *  workers the offsets 1 .. n - 1; their appends are taken in offset
   *  order. */
  method ParallelMatching(members: ClassifierSet, pop: ClassifierSet, current: StateDescriptor, n: nat,
                          ghost s: seq<Classifier>, ghost F: map<Classifier, Footprint>, ghost dim: nat)
    requires members.Valid() && members.Contents() == [] && pop.Valid() && pop.Contents() == s
    requires pop != members && pop.elements != members.elements && |s| <= members.elements.Length
    requires n >= 1 && Separate(s) && Frozen(s, F, dim) && Experienced(s) && |current.conditionInput| == dim
    modifies members, members.elements, set c | c in s :: c.condition
    ensures members.Valid() && pop.Contents() == s && Frozen(s, F, dim)
    ensures members.Contents() == Pick(s, F, current.conditionInput, Strides(n, |s|, n))
  {
    var o: nat := 0;
    while o < n
      invariant o <= n && members.Valid() && pop.Contents() == s && Frozen(s, F, dim) && Experienced(s)
      invariant members.size <= |Strides(n, |s|, o)|
      invariant members.Contents() == Pick(s, F, current.conditionInput, Strides(n, |s|, o))
    {
      o := ThreadScan(members, pop, current, n, o, s, F, dim);
    }
  }

  /** The scan of the thread with offset `o`, appended after those of the
   *  threads before it. */
  method ThreadScan(members: ClassifierSet, pop: ClassifierSet, current: StateDescriptor, n: nat, o: nat,
                    ghost s: seq<Classifier>, ghost F: map<Classifier, Footprint>, ghost dim: nat)
    returns (next: nat)
    requires members.Valid() && pop.Valid() && pop.Contents() == s
    requires pop != members && pop.elements != members.elements && |s| <= members.elements.Length
    requires o < n && Separate(s) && Frozen(s, F, dim) && Experienced(s) && |current.conditionInput| == dim
    requires members.size <= |Strides(n, |s|, o)|
    requires members.Contents() == Pick(s, F, current.conditionInput, Strides(n, |s|, o))
    modifies members, members.elements, set c | c in s :: c.condition
    ensures members.Valid() && pop.Contents() == s && Frozen(s, F, dim)
    ensures next == o + 1 && members.size <= |Strides(n, |s|, next)|
    ensures members.Contents() == Pick(s, F, current.conditionInput, Strides(n, |s|, next))
  {
    next := o + 1;
    StridesLength(n, |s|, next);
    StrideMatching(members, pop, current, n, o, s, F, dim);
  }

  /** Every classifier of `s` has a recorded box of the input's dimension. */
  ghost predicate Boxes(s: seq<Classifier>, F: map<Classifier, Footprint>, input: seq<real>)
  {
    forall c :: c in s ==>
      c in F && |input| == |F[c].center| == |F[c].stretch| && Geometry.Positive(F[c].stretch)
  }

  /** The activity `exp(-distance)` of a recorded box. */
  ghost function Activity(f: Footprint, input: seq<real>, p: XCSFConstants.Params): real
    requires |input| == |f.center| == |f.stretch| && Geometry.Positive(f.stretch)
  {
    p.exp(-Rectangle.MaxDistance(input, f.center, f.stretch))
  }

  /** The entries closest classifier matching ranks: activity, numerosity
   *  and classifier of every slot. */
  ghost function Activities(s: seq<Classifier>, F: map<Classifier, Footprint>, input: seq<real>,
                            p: XCSFConstants.Params): (z: seq<XCSFUtils.Entry<Classifier?>>)
    reads s
    requires Boxes(s, F, input)
    ensures |z| == |s|
  {
    seq(|s|, k requires 0 <= k < |s| reads s =>
      XCSFUtils.Entry(Activity(F[s[k]], input, p), s[k].numerosity, s[k] as Classifier?))
  }

  /** The outcome of closest classifier matching: `order` is the entries
   *  rearranged, the match set is its shortest prefix whose numerosities
   *  reach `numClosestMatch`, and no entry behind it is more active than
   *  one in it. */
  ghost predicate Closeness(m: seq<Classifier>, order: seq<XCSFUtils.Entry<Classifier?>>, s: seq<Classifier>,
                            F: map<Classifier, Footprint>, input: seq<real>, p: XCSFConstants.Params)
    reads s
    requires Boxes(s, F, input)
  {
    && multiset(order) == multiset(Activities(s, F, input, p))
    && |m| == XCSFUtils.PrefixCount(order, p.numClosestMatch) <= |order|
    && (forall k :: 0 <= k < |m| ==> order[k].obj == m[k])
    && (p.numClosestMatch > 0 && XCSFUtils.NumsPositive(order) ==> XCSFUtils.VotesSplit(order, 0, |m|, |order|))
  }

  /** `clSetHelp[i].getActivity(state)` in the first loop of closest
   *  classifier matching. */
  method ActivityOne(pop: ClassifierSet, k: int, current: StateDescriptor, ghost s: seq<Classifier>,
                     ghost F: map<Classifier, Footprint>, ghost dim: nat, p: XCSFConstants.Params)
    returns (a: real)
    requires pop.Valid() && pop.Contents() == s && 0 <= k < |s|
    requires Separate(s) && Frozen(s, F, dim) && Experienced(s) && |current.conditionInput| == dim
    modifies s[k].condition
    ensures Frozen(s, F, dim) && Boxes(s, F, current.conditionInput)
    ensures a == Activity(F[s[k]], current.conditionInput, p)
  {
    var cl := pop.elements[k];
    a := cl.GetActivity(current, p);
    forall c | c in s && c != cl
      ensures c.condition != cl.condition
    {
      var u :| 0 <= u < |s| && s[u] == c;
    }
  }

  /** An entry of a rearrangement of the activities holds one of the
   *  population's classifiers. */
  lemma {:induction false} ChosenFromPopulation(s: seq<Classifier>, F: map<Classifier, Footprint>, input: seq<real>,
                             p: XCSFConstants.Params, order: seq<XCSFUtils.Entry<Classifier?>>, k: int)
    requires Boxes(s, F, input) && multiset(order) == multiset(Activities(s, F, input, p)) && 0 <= k < |order|
    ensures order[k].obj != null && order[k].obj in s
  {
    assert order[k] in multiset(Activities(s, F, input, p));
    var j :| 0 <= j < |s| && Activities(s, F, input, p)[j] == order[k];
  }

  /** The first loop of `serialClostestClassifierMatching`: the parallel
   *  arrays of classifiers, activities and numerosities. */
  method CollectActivities(pop: ClassifierSet, current: StateDescriptor, clSetHelp: array<Classifier?>,
                           votes: array<real>, nums: array<int>, ghost s: seq<Classifier>,
                           ghost F: map<Classifier, Footprint>, ghost dim: nat, p: XCSFConstants.Params)
    requires pop.Valid() && pop.Contents() == s
    requires XCSFUtils.Lockstep(votes, nums, clSetHelp) && clSetHelp.Length == |s| && clSetHelp != pop.elements
    requires Separate(s) && Frozen(s, F, dim) && Experienced(s) && |current.conditionInput| == dim
    modifies clSetHelp, votes, nums, set c | c in s :: c.condition
    ensures Frozen(s, F, dim) && Boxes(s, F, current.conditionInput)
    ensures XCSFUtils.Zip(votes, nums, clSetHelp) == Activities(s, F, current.conditionInput, p)
  {
    ghost var input := current.conditionInput;
    for i := 0 to pop.size
      invariant pop.Contents() == s && Frozen(s, F, dim) && Boxes(s, F, input)
      invariant XCSFUtils.Zip(votes, nums, clSetHelp)[..i] == Activities(s, F, input, p)[..i]
    {
      CollectOne(pop, current, clSetHelp, votes, nums, i, s, F, dim, p);
    }
    assert XCSFUtils.Zip(votes, nums, clSetHelp)[..|s|] == XCSFUtils.Zip(votes, nums, clSetHelp);
    assert Activities(s, F, input, p)[..|s|] == Activities(s, F, input, p);
  }

  /** One slot of the first loop: the classifier, its activity and its
   *  numerosity. */
  method CollectOne(pop: ClassifierSet, current: StateDescriptor, clSetHelp: array<Classifier?>,
                    votes: array<real>, nums: array<int>, i: int, ghost s: seq<Classifier>,
                    ghost F: map<Classifier, Footprint>, ghost dim: nat, p: XCSFConstants.Params)
    requires pop.Valid() && pop.Contents() == s && 0 <= i < |s|
    requires XCSFUtils.Lockstep(votes, nums, clSetHelp) && clSetHelp.Length == |s| && clSetHelp != pop.elements
    requires Separate(s) && Frozen(s, F, dim) && Experienced(s) && |current.conditionInput| == dim
    requires Boxes(s, F, current.conditionInput)
    requires XCSFUtils.Zip(votes, nums, clSetHelp)[..i] == Activities(s, F, current.conditionInput, p)[..i]
    modifies clSetHelp, votes, nums, s[i].condition
    ensures pop.Contents() == s && Frozen(s, F, dim) && Boxes(s, F, current.conditionInput)
    ensures XCSFUtils.Zip(votes, nums, clSetHelp)[..i + 1] == Activities(s, F, current.conditionInput, p)[..i + 1]
  {
    ghost var z := XCSFUtils.Zip(votes, nums, clSetHelp);
    var cl := pop.elements[i];
    var a := ActivityOne(pop, i, current, s, F, dim, p);
    ghost var act := Activities(s, F, current.conditionInput, p);
    assert act[i] == XCSFUtils.Entry(a, cl.numerosity, cl as Classifier?);
    XCSFUtils.Put(votes, nums, clSetHelp, i, XCSFUtils.Entry(a, cl.numerosity, cl as Classifier?));
    PrefixExtend(z, act, i);
  }

  /** Writing the next entry extends the prefix two sequences share. */
  lemma {:induction false} PrefixExtend<T>(z: seq<T>, act: seq<T>, i: int)
    requires |z| == |act| && 0 <= i < |z| && z[..i] == act[..i]
    ensures z[i := act[i]][..i + 1] == act[..i + 1]
  {
    assert forall k :: 0 <= k < i ==> z[k] == z[..i][k];
  }

  /** The last loop of `serialClostestClassifierMatching`: the first
   *  `firstNum` classifiers of the rearranged arrays join the match set. */
  method AddFirst(members: ClassifierSet, clSetHelp: array<Classifier?>, firstNum: int,
                  ghost order: seq<XCSFUtils.Entry<Classifier?>>, ghost s: seq<Classifier>,
                  ghost F: map<Classifier, Footprint>, ghost input: seq<real>, ghost p: XCSFConstants.Params)
    requires members.Valid() && members.Contents() == [] && 0 <= firstNum <= |order| == clSetHelp.Length
    requires firstNum <= members.elements.Length && clSetHelp != members.elements
    requires forall k :: 0 <= k < |order| ==> order[k].obj == clSetHelp[k]
    requires Boxes(s, F, input) && multiset(order) == multiset(Activities(s, F, input, p))
    modifies members, members.elements
    ensures members.Valid() && |members.Contents()| == firstNum
    ensures forall k :: 0 <= k < firstNum ==> order[k].obj == members.Contents()[k]
  {
    for i := 0 to firstNum
      invariant members.Valid() && members.size == i
      invariant forall k :: 0 <= k < i ==> order[k].obj == members.Contents()[k]
    {
      ChosenFromPopulation(s, F, input, p, order, i);
      members.Add(clSetHelp[i]);
    }
  }

  /** `serialClostestClassifierMatching`: the `numClosestMatch` most
   *  active micro-classifiers, ties broken at random. */
  method ClosestMatching(members: ClassifierSet, pop: ClassifierSet, current: StateDescriptor,
                         ghost s: seq<Classifier>, ghost F: map<Classifier, Footprint>, ghost dim: nat,
                         p: XCSFConstants.Params, rng: RandomGen.Random)
    returns (ghost order: seq<XCSFUtils.Entry<Classifier?>>)
    requires members.Valid() && members.Contents() == [] && pop.Valid() && pop.Contents() == s
    requires pop != members && pop.elements != members.elements && |s| <= members.elements.Length
    requires rng.Valid() && Separate(s) && Frozen(s, F, dim) && Experienced(s) && |current.conditionInput| == dim
    modifies members, members.elements, rng, set c | c in s :: c.condition
    ensures members.Valid() && rng.Valid() && pop.Contents() == s && Frozen(s, F, dim)
    ensures Boxes(s, F, current.conditionInput)
    ensures Closeness(members.Contents(), order, s, F, current.conditionInput, p)
  {
    var n := pop.size;
    var clSetHelp := new Classifier?[n];
    var nums := new int[n];
    var votes := new real[n];
    CollectActivities(pop, current, clSetHelp, votes, nums, s, F, dim, p);
    order := RankAndAdd(members, clSetHelp, votes, nums, s, F, dim, current.conditionInput, p, rng);
  }

  /** The rest of `serialClostestClassifierMatching`: the entries are
   *  rearranged so that the closest come first, and those join the match
   *  set. */
  method RankAndAdd(members: ClassifierSet, clSetHelp: array<Classifier?>, votes: array<real>, nums: array<int>,
                    ghost s: seq<Classifier>, ghost F: map<Classifier, Footprint>, ghost dim: nat,
                    ghost input: seq<real>, p: XCSFConstants.Params, rng: RandomGen.Random)
    returns (ghost order: seq<XCSFUtils.Entry<Classifier?>>)
    requires members.Valid() && members.Contents() == [] && rng.Valid()
    requires XCSFUtils.Lockstep(votes, nums, clSetHelp) && clSetHelp.Length <= members.elements.Length
    requires clSetHelp != members.elements && Boxes(s, F, input) && Frozen(s, F, dim)
    requires XCSFUtils.Zip(votes, nums, clSetHelp) == Activities(s, F, input, p)
    modifies members, members.elements, rng, clSetHelp, votes, nums
    ensures members.Valid() && rng.Valid() && Frozen(s, F, dim) && Boxes(s, F, input)
    ensures Closeness(members.Contents(), order, s, F, input, p)
  {
    var firstNum;
    firstNum, order := Rank(clSetHelp, votes, nums, s, F, input, p, rng);
    ghost var acts := Activities(s, F, input, p);
    AddFirst(members, clSetHelp, firstNum, order, s, F, input, p);
    assert Activities(s, F, input, p) == acts;
  }

  /** The call of `putNumFirstObjectsFirst` on the collected activities:
   *  the entries are rearranged and `firstNum` is the length of the
   *  shortest prefix whose numerosities reach `numClosestMatch`. */
  method Rank(clSetHelp: array<Classifier?>, votes: array<real>, nums: array<int>,
              ghost s: seq<Classifier>, ghost F: map<Classifier, Footprint>,
              ghost input: seq<real>, p: XCSFConstants.Params, rng: RandomGen.Random)
    returns (firstNum: int, ghost order: seq<XCSFUtils.Entry<Classifier?>>)
    requires rng.Valid() && XCSFUtils.Lockstep(votes, nums, clSetHelp) && Boxes(s, F, input)
    requires XCSFUtils.Zip(votes, nums, clSetHelp) == Activities(s, F, input, p)
    modifies rng, clSetHelp, votes, nums
    ensures rng.Valid() && order == XCSFUtils.Zip(votes, nums, clSetHelp)
    ensures multiset(order) == multiset(Activities(s, F, input, p))
    ensures firstNum == XCSFUtils.PrefixCount(order, p.numClosestMatch) <= |order|
    ensures p.numClosestMatch > 0 && XCSFUtils.NumsPositive(order) ==> XCSFUtils.VotesSplit(order, 0, firstNum, |order|)
  {
    var n := clSetHelp.Length;
    ghost var z0 := XCSFUtils.Zip(votes, nums, clSetHelp);
    firstNum := XCSFUtils.PutNumFirstObjectsFirst(votes, nums, clSetHelp, n, p.numClosestMatch, rng);
    order := XCSFUtils.Zip(votes, nums, clSetHelp);
    assert order[..n] == order && z0[0..n] == z0 && order[0..n] == order;
  }

  // ---- the choice between the matching procedures ----

  /** The threading state of a match set: the threshold below which the
   *  scan is serial, whether the threshold is still adapted, the two time
   *  estimates (zero while not measured) and the population size at the
   *  last adaptation check. */
  datatype Threading = Threading(threshold: int, adaptive: bool, serialTime: int, parallelTime: int,
                                 lastCheck: int)

  /** The procedures `match` chooses from: closest classifier matching, a
   *  timed serial scan, a timed parallel scan, and the untimed scans. */
  datatype Procedure = Closest | TimeSerial | TimeParallel | Serial | Parallel

  /** The case analysis of `match`: closest matching when asked for; a timed
   *  scan once the population has grown by the adaptation accuracy since the
   *  last check, serial if no serial time is known yet; otherwise the
   *  threshold decides. */
  function Choose(closest: bool, t: Threading, popSize: int, accuracy: int): Procedure
  {
    if closest then Closest
    else if t.adaptive && popSize - t.lastCheck >= accuracy then
      (if t.serialTime == 0 then TimeSerial else TimeParallel)
    else if popSize < t.threshold then Serial
    else Parallel
  }

  /** The threading state after `match` took `elapsed` for its scan: a timed
   *  serial scan records its time; a timed parallel scan compares the two,
   *  and either pushes the threshold above the current size and starts a new
   *  round, or keeps the threshold for good. */
  function Adapt(closest: bool, t: Threading, popSize: int, accuracy: int, elapsed: int): Threading
  {
    match Choose(closest, t, popSize, accuracy)
    case TimeSerial => t.(serialTime := elapsed)
    case TimeParallel =>
      if t.serialTime < elapsed then Threading(popSize + accuracy, t.adaptive, 0, 0, popSize)
      else t.(parallelTime := elapsed, adaptive := false)
    case _ => t
  }

  /** While the threshold is adapted it sits one adaptation accuracy above
   *  the size of the last check, and no parallel time is pending. */
  ghost predicate Calibrated(t: Threading, accuracy: int)
  {
    t.adaptive ==> t.threshold == t.lastCheck + accuracy && t.parallelTime == 0
  }

  /** `Math.max(1, maxPopSize / 25)`: one twenty-fifth of the maximal
   *  population size, at least one. */
  function AdaptationAccuracy(maxPopSize: int): (a: int)
    requires maxPopSize >= 0
    ensures a >= 1
  {
    if maxPopSize / 25 > 1 then maxPopSize / 25 else 1
  }

  /** The adaptation accuracy is one for populations of fewer than fifty
   *  classifiers and a twenty-fifth of the size, rounded down, above. */
  lemma {:induction false} AccuracyBounds(maxPopSize: int)
    requires maxPopSize >= 0
    ensures maxPopSize < 50 ==> AdaptationAccuracy(maxPopSize) == 1
    ensures maxPopSize >= 25 ==>
      25 * AdaptationAccuracy(maxPopSize) <= maxPopSize < 25 * (AdaptationAccuracy(maxPopSize) + 1)
  {
  }

  /** Each `match` keeps the calibration. */
  lemma {:induction false} AdaptKeepsCalibrated(closest: bool, t: Threading, popSize: int, accuracy: int, elapsed: int)
    requires Calibrated(t, accuracy)
    ensures Calibrated(Adapt(closest, t, popSize, accuracy, elapsed), accuracy)
  {
  }

  /** Between two checks the calibrated threshold makes every scan serial,
   *  and nothing is measured. */
  lemma {:induction false} SerialBetweenChecks(t: Threading, popSize: int, accuracy: int, elapsed: int)
    requires Calibrated(t, accuracy) && t.adaptive && popSize - t.lastCheck < accuracy
    ensures Choose(false, t, popSize, accuracy) == Serial
    ensures Adapt(false, t, popSize, accuracy, elapsed) == t
  {
  }

  /** The threshold never drops, and a serial win moves it above the size
   *  of the check. */
  lemma {:induction false} ThresholdRises(t: Threading, popSize: int, accuracy: int, elapsed: int)
    requires Calibrated(t, accuracy) && accuracy >= 1
    ensures Adapt(false, t, popSize, accuracy, elapsed).threshold >= t.threshold
    ensures var t' := Adapt(false, t, popSize, accuracy, elapsed);
      t'.threshold != t.threshold ==> t'.adaptive && t'.threshold > popSize > t.lastCheck
  {
  }

  /** A check measures the serial time first and the parallel time on the
   *  next check; a parallel win ends the adaptation with the threshold as
   *  it is. */
  lemma {:induction false} CheckRound(t: Threading, popSize: int, popSize': int, accuracy: int, elapsed: int, elapsed': int)
    requires Calibrated(t, accuracy) && t.adaptive && t.serialTime == 0 && popSize - t.lastCheck >= accuracy
    requires elapsed != 0 && popSize' >= popSize
    ensures Choose(false, t, popSize, accuracy) == TimeSerial
    ensures var t' := Adapt(false, t, popSize, accuracy, elapsed);
      && Choose(false, t', popSize', accuracy) == TimeParallel
      && (elapsed' <= elapsed ==>
            Adapt(false, t', popSize', accuracy, elapsed') == t.(serialTime := elapsed, parallelTime := elapsed', adaptive := false))
      && (elapsed < elapsed' ==>
            Adapt(false, t', popSize', accuracy, elapsed') == Threading(popSize' + accuracy, true, 0, 0, popSize'))
  {
  }

  /** The threading states of a run of `match` calls with the given
   *  population sizes and scan times. */
  function Run(closest: bool, t: Threading, sizes: seq<int>, times: seq<int>, accuracy: int): Threading
    requires |sizes| == |times|
    decreases |sizes|
  {
    if |sizes| == 0 then t
    else Run(closest, Adapt(closest, t, sizes[0], accuracy, times[0]), sizes[1..], times[1..], accuracy)
  }

  /** A run keeps the calibration, and once the adaptation has stopped the
   *  threading state stays as it is: the threshold is fixed for good. */
  lemma {:induction false} RunSettles(closest: bool, t: Threading, sizes: seq<int>, times: seq<int>, accuracy: int)
    requires |sizes| == |times| && Calibrated(t, accuracy)
    ensures Calibrated(Run(closest, t, sizes, times, accuracy), accuracy)
    ensures !t.adaptive ==> Run(closest, t, sizes, times, accuracy) == t
    ensures Run(closest, t, sizes, times, accuracy).adaptive ==> t.adaptive
    decreases |sizes|
  {
    if |sizes| > 0 {
      var t' := Adapt(closest, t, sizes[0], accuracy, times[0]);
      AdaptKeepsCalibrated(closest, t, sizes[0], accuracy, times[0]);
      RunSettles(closest, t', sizes[1..], times[1..], accuracy);
    }
  }

  /** Without worker threads the threshold is `Integer.MAX_VALUE`, so every
   *  scan of a population the array can hold is serial. */
  lemma {:induction false} WithoutWorkers(closest: bool, t: Threading, popSize: int, accuracy: int, elapsed: int)
    requires t.threshold == XCSFConstants.IntMax && !t.adaptive && popSize < XCSFConstants.IntMax
    ensures Choose(closest, t, popSize, accuracy) == if closest then Closest else Serial
    ensures Adapt(closest, t, popSize, accuracy, elapsed) == t
  {
  }

  /** Classifiers whose conditions and predictions are as recorded and
   *  whose experience is not negative are valid. */
  lemma {:induction false} FrozenValid(s: seq<Classifier>, F: map<Classifier, Footprint>, dim: nat)
    requires Frozen(s, F, dim) && Experienced(s)
    ensures AllValid(s, dim)
  {
  }

  // ---- the match set ----

  /** `MatchSet`: the classifiers of the population that match the current
   *  state, with the settings that choose how they are found. The set of
   *  classifiers is the `ClassifierSet` the Java class extends. */
  class MatchSet {
    const members: ClassifierSet
    var numClosestMatching: bool
    var state: Option<StateDescriptor>
    var popSize: int
    /** Whether worker threads were started; `frequency` counts the farmer
     *  and the workers. */
    var hasWorkers: bool
    var frequency: int
    var adaptationAccuracy: int
    var threadingThreshold: int
    var adaptiveThreading: bool
    var serialMatchingTime: int
    var parallelMatchingTime: int
    var lastCheckSize: int

    /** The threading state the choice of the scan reads. */
    function Steering(): Threading
      reads this
    {
      Threading(threadingThreshold, adaptiveThreading, serialMatchingTime, parallelMatchingTime, lastCheckSize)
    }

    /** The set is a valid classifier set; a threshold is adapted only with
     *  workers to compare against; without workers the threshold is
     *  `Integer.MAX_VALUE`. */
    ghost predicate Valid()
      reads this, members, members.elements
    {
      && members.Valid()
      && (hasWorkers ==> frequency >= 2)
      && (adaptiveThreading ==> hasWorkers && adaptationAccuracy >= 1)
      && (!hasWorkers ==> threadingThreshold == XCSFConstants.IntMax && !adaptiveThreading)
      && Calibrated(Steering(), adaptationAccuracy)
    }

    /** The constructor: an empty set of capacity `maxPopSize`; with more
     *  than one of the `processors` and multi-threading asked for, one
     *  worker per further processor and either the configured threshold or,
     *  for a negative one, an adapted threshold starting at the adaptation
     *  accuracy. */
    constructor (doNumClosestMatch: bool, multithreaded: bool, processors: int, p: XCSFConstants.Params)
      requires p.maxPopSize >= 0
      ensures Valid() && fresh(members) && fresh(members.elements)
      ensures members.Contents() == [] && members.elements.Length == p.maxPopSize
      ensures numClosestMatching == doNumClosestMatch && state.None? && popSize == 0
      ensures hasWorkers == (multithreaded && processors > 1)
      ensures hasWorkers ==> frequency == processors && adaptationAccuracy == AdaptationAccuracy(p.maxPopSize)
      ensures hasWorkers && p.threadingThreshold < 0 ==>
        Steering() == Threading(adaptationAccuracy, true, 0, 0, 0)
      ensures hasWorkers && p.threadingThreshold >= 0 ==>
        Steering() == Threading(p.threadingThreshold, false, 0, 0, 0)
      ensures !hasWorkers ==> Steering() == Threading(XCSFConstants.IntMax, false, 0, 0, 0)
    {
      members := new ClassifierSet(p.maxPopSize);
      numClosestMatching := doNumClosestMatch;
      state := None;
      popSize := 0;
      serialMatchingTime, parallelMatchingTime, lastCheckSize := 0, 0, 0;
      if multithreaded && processors > 1 {
        hasWorkers := true;
        frequency := processors;
        adaptationAccuracy := AdaptationAccuracy(p.maxPopSize);
        if p.threadingThreshold < 0 {
          adaptiveThreading := true;
          threadingThreshold := adaptationAccuracy;
        } else {
          threadingThreshold := p.threadingThreshold;
          adaptiveThreading := false;
        }
      } else {
        hasWorkers := false;
        frequency := 0;
        adaptationAccuracy := 0;
        threadingThreshold := XCSFConstants.IntMax;
        adaptiveThreading := false;
      }
    }

    /** `setNumClosestMatching`. */
    method SetNumClosestMatching(numClosestMatching: bool)
      requires Valid()
      modifies this
      ensures Valid() && this.numClosestMatching == numClosestMatching
      ensures Steering() == old(Steering()) && hasWorkers == old(hasWorkers) && frequency == old(frequency)
      ensures state == old(state) && popSize == old(popSize) && adaptationAccuracy == old(adaptationAccuracy)
    {
      this.numClosestMatching := numClosestMatching;
    }

    /** `shutDownThreads`: without workers the loop over the missing worker
     *  array fails with a null pointer and changes nothing; otherwise the
     *  workers are gone and the threshold switches parallel scans off. */
    method ShutDownThreads() returns (r: Result<()>)
      requires Valid()
      modifies this
      ensures Valid()
      ensures !old(hasWorkers) ==> r == Failure(NullPointer) && Steering() == old(Steering()) && !hasWorkers
      ensures old(hasWorkers) ==> r.Success? && !hasWorkers
      ensures old(hasWorkers) ==> Steering() == old(Steering()).(threshold := XCSFConstants.IntMax, adaptive := false)
      ensures numClosestMatching == old(numClosestMatching) && state == old(state) && popSize == old(popSize)
      ensures frequency == old(frequency) && adaptationAccuracy == old(adaptationAccuracy)
    {
      if !hasWorkers {
        return Failure(NullPointer);
      }
      hasWorkers := false;
      threadingThreshold := XCSFConstants.IntMax;
      adaptiveThreading := false;
      r := Success(());
    }

    /** `match`: the set is emptied and refilled from the population by the
     *  procedure `Choose` picks, and the threading state moves on as `Adapt`
     *  says, `elapsed` being the time the scan took. The boxes of the
     *  population's conditions are recorded in `F` and stay as they are. The
     *  serial scan yields the matching classifiers in population order, the
     *  thread scans the same ones in the order of the threads' slots, and
     *  closest matching the most active ones; `order` is its ranking. */
    method Match(current: StateDescriptor, pop: ClassifierSet, elapsed: int, ghost dim: nat,
                 p: XCSFConstants.Params, rng: RandomGen.Random)
      returns (ghost F: map<Classifier, Footprint>, ghost order: seq<XCSFUtils.Entry<Classifier?>>)
      requires Valid() && pop.Valid() && rng.Valid()
      requires pop != members && pop.elements != members.elements
      requires pop.size <= members.elements.Length && pop.size < XCSFConstants.IntMax
      requires Separate(pop.Contents()) && AllValid(pop.Contents(), dim) && |current.conditionInput| == dim
      modifies this, members, members.elements, rng, set c | c in pop.Contents() :: c.condition
      ensures Valid() && rng.Valid() && pop.Contents() == old(pop.Contents())
      ensures Frozen(old(pop.Contents()), F, dim) && AllValid(old(pop.Contents()), dim)
      ensures state == Some(current) && popSize == old(pop.size)
      ensures numClosestMatching == old(numClosestMatching) && hasWorkers == old(hasWorkers)
      ensures frequency == old(frequency) && adaptationAccuracy == old(adaptationAccuracy)
      ensures Steering() == Adapt(numClosestMatching, old(Steering()), old(pop.size), adaptationAccuracy, elapsed)
      ensures var proc := Choose(numClosestMatching, old(Steering()), old(pop.size), adaptationAccuracy);
        (proc == Serial || proc == TimeSerial ==>
          members.Contents() == Pick(old(pop.Contents()), F, current.conditionInput, Range(old(pop.size))))
      ensures var proc := Choose(numClosestMatching, old(Steering()), old(pop.size), adaptationAccuracy);
        (proc == Parallel || proc == TimeParallel ==>
          frequency >= 2 &&
          members.Contents() == Pick(old(pop.Contents()), F, current.conditionInput, Strides(frequency, old(pop.size), frequency)))
      ensures numClosestMatching ==>
        Boxes(old(pop.Contents()), F, current.conditionInput) &&
        Closeness(members.Contents(), order, old(pop.Contents()), F, current.conditionInput, p)
      ensures !numClosestMatching ==> forall c :: c in members.Contents() <==>
        c in old(pop.Contents()) && c.Matches(current.conditionInput)
    {
      ghost var s := pop.Contents();
      state := Some(current);
      popSize := pop.size;
      var proc := Choose(numClosestMatching, Steering(), popSize, adaptationAccuracy);
      // The bookkeeping reads none of what the scan changes, so it comes first.
      Retune(proc, elapsed);
      F, order := Collect(proc, members, pop, current, frequency, dim, p, rng);
    }

    /** The bookkeeping of `match` after the scan: the times of the timed
     *  scans and the outcome of their comparison. */
    method Retune(proc: Procedure, elapsed: int)
      requires Valid() && proc == Choose(numClosestMatching, Steering(), popSize, adaptationAccuracy)
      requires !numClosestMatching && proc == Parallel ==> popSize >= threadingThreshold
      modifies this
      ensures Valid() && Steering() == Adapt(numClosestMatching, old(Steering()), popSize, adaptationAccuracy, elapsed)
      ensures numClosestMatching == old(numClosestMatching) && hasWorkers == old(hasWorkers)
      ensures frequency == old(frequency) && adaptationAccuracy == old(adaptationAccuracy)
      ensures state == old(state) && popSize == old(popSize)
    {
      if proc == TimeSerial {
        serialMatchingTime := elapsed;
      } else if proc == TimeParallel {
        parallelMatchingTime := elapsed;
        if serialMatchingTime < parallelMatchingTime {
          threadingThreshold := popSize + adaptationAccuracy;
          lastCheckSize := popSize;
          serialMatchingTime, parallelMatchingTime := 0, 0;
        } else {
          adaptiveThreading := false;
        }
      }
    }

    /** `ensureStateCoverage`: when nothing matched, a covering classifier
     *  `cl` for the current state joins the match set and then, as
     *  `AddCovering` says, the population. */
    method EnsureStateCoverage(pop: ClassifierSet, iteration: int, fuel: nat, ghost dim: nat,
                               p: XCSFConstants.Params, rng: RandomGen.Random)
      returns (deleted: int, inserted: bool, ghost cl: Classifier?)
      requires Valid() && pop.Valid() && rng.Valid() && XCSFConstants.Sane(p) && state.Some?
      requires pop != members && pop.elements != members.elements && members.elements.Length >= 1
      requires pop.elements.Length == p.maxPopSize
      requires Separate(pop.Contents()) && AllValid(pop.Contents(), dim) && Living(pop.Contents())
      requires |state.value.conditionInput| == dim
      modifies members, members.elements, pop, pop.elements, rng, set c | c in pop.Contents()
      ensures Valid() && pop.Valid() && rng.Valid()
      ensures Separate(pop.Contents()) && AllValid(pop.Contents(), dim)
      ensures p.fitnessIni != 0.0 ==> Living(pop.Contents())
      ensures forall c :: c in old(pop.Contents()) ==>
        unchanged(c`fitness, c`experience, c`setSizeEstimate, c`predictionError, c`timestamp)
      ensures old(members.size) != 0 ==>
        deleted == 0 && !inserted && cl == null && rng.seed == old(rng.seed) &&
        members.Contents() == old(members.Contents()) && pop.Contents() == old(pop.Contents()) &&
        forall c :: c in old(pop.Contents()) ==> c.numerosity == old(c.numerosity)
      ensures old(members.size) == 0 ==>
        cl != null && fresh(cl) && members.Contents() == [cl] && cl.Valid() &&
        cl.fitness == p.fitnessIni && cl.numerosity == 1 && cl.experience == 0 && cl.timestamp == iteration &&
        cl.condition.center == state.value.conditionInput && cl.Matches(state.value.conditionInput)
      ensures old(members.size) == 0 ==>
        pop.Contents() ==
          Without(old(pop.Contents()), ZeroSlots(old(pop.Contents()))) + (if inserted then [cl] else []) &&
        CoverAccount(old(Sum(Nums(pop.Contents()))), deleted, inserted, Sum(Nums(pop.Contents())), p)
    {
      deleted, inserted, cl := 0, false, null;
      if members.size != 0 {
        return;
      }
      ghost var s := pop.Contents();
      var newCl := CoveringMember(members, s, state.value, iteration, p, rng);
      cl := newCl;
      assert pop.Contents() == s;
      deleted, inserted := AddCovering(pop, newCl, fuel, dim, p, rng);
    }

    /** `updateClassifiers`: every member takes its `update1` step, which
     *  `Learned` describes, while the accuracies (of the new errors) and
     *  numerosities are summed; then every member takes its `update2` step
     *  with those sums. The fitness sum of the match set thereby moves
     *  toward 1 at rate beta. */
    method UpdateClassifiers(p: XCSFConstants.Params) returns (accuracySum: real, numerositySum: int)
      requires Valid() && state.Some? && p.epsilon0 >= 0.0
      requires Separate(members.Contents())
      requires forall c :: c in members.Contents() ==> Ready(c, state.value, p)
      modifies set c | c in members.Contents(), set c | c in members.Contents() :: c.prediction
      ensures Valid() && members.Contents() == old(members.Contents())
      ensures numerositySum == Sum(Nums(members.Contents()))
      ensures accuracySum == RealSum(AccuracyWeights(members.Contents(), p))
      ensures AllLearned(members.Contents(), old(Snaps(members.Contents())), state.value, p)
      ensures AllRefitted(members.Contents(), old(Snaps(members.Contents())), accuracySum, numerositySum, p)
      ensures accuracySum != 0.0 ==>
        RealSum(Fitnesses(members.Contents())) == Toward(old(RealSum(Fitnesses(members.Contents()))), 1.0, p.beta)
    {
      ghost var s := members.Contents();
      ghost var befores := Snaps(s);
      SnapsFitnesses(s);
      accuracySum, numerositySum := LearnPass(members, state.value, p);
      ghost var ws, ns := AccuracyWeights(s, p), Nums(s);
      var slots := members.elements[..members.size];
      RefitPass(slots, accuracySum, numerositySum, befores, ws, ns, state.value, p);
      if accuracySum != 0.0 {
        RefitsTowardOne(BeforeFitnesses(befores), ws, accuracySum, p.beta);
      }
    }
  }

  /** `cl` is the covering classifier for `current` made at `iteration`: a
   *  valid classifier of one micro-classifier with the initial fitness and
   *  no experience whose condition is centered on, and so matches, the
   *  state. */
  ghost predicate Covers(cl: Classifier, current: StateDescriptor, iteration: int, p: XCSFConstants.Params)
    reads cl, cl.condition, cl.prediction
  {
    && cl.Valid() && cl.condition.dimension == |current.conditionInput|
    && cl.fitness == p.fitnessIni && cl.numerosity == 1 && cl.experience == 0 && cl.timestamp == iteration
    && cl.condition.center == current.conditionInput && cl.Matches(current.conditionInput)
  }

  /** The covering classifier for `current`, added to the empty match set
   *  `members`; it shares no object with the classifiers `s`, which stay as
   *  they were. */
  method CoveringMember(members: ClassifierSet, ghost s: seq<Classifier>, current: StateDescriptor, iteration: int,
                        p: XCSFConstants.Params, rng: RandomGen.Random)
    returns (cl: Classifier)
    requires members.Valid() && members.size == 0 && members.elements.Length >= 1
    requires rng.Valid() && XCSFConstants.Sane(p)
    modifies members, members.elements, rng
    ensures members.Valid() && rng.Valid() && fresh(cl)
    ensures members.Contents() == [cl] && Covers(cl, current, iteration, p)
    ensures forall x :: x in s ==> x != cl && x.condition != cl.condition && x.prediction != cl.prediction
    ensures forall dim :: AllValid(s, dim) == old(AllValid(s, dim))
    ensures Living(s) == old(Living(s)) && Sum(Nums(s)) == old(Sum(Nums(s))) && ZeroSlots(s) == old(ZeroSlots(s))
    ensures unchanged(s)
  {
    cl := new Classifier(current, iteration, p, rng);
    Rectangle.CenterMatches(cl.condition.center, cl.condition.stretch);
    members.Add(cl);
  }

  // ---- the update of the match set ----

  /** What `update1` needs of a classifier: its invariant, inputs of the
   *  dimensions it was built for, and a non-zero RLS divisor. */
  ghost predicate Ready(c: Classifier, state: StateDescriptor, p: XCSFConstants.Params)
    reads c, c.condition, c.prediction
  {
    && c.Valid() && |state.conditionInput| == c.condition.dimension
    && |c.PredictionInput(state)| == c.prediction.inputLength - 1
    && |state.output| >= c.prediction.predictionLength
    && p.lambdaRLS != 0.0
    && RLS.Divisor(c.prediction.gainMatrix, LinearRLS.Extended(p.predictionOffsetValue, c.PredictionInput(state)),
                   c.prediction.inputLength, p.lambdaRLS) != 0.0
  }

  /** The fields of a classifier and its prediction that `update1` reads
   *  and writes, as they were before the step. */
  datatype Before = Before(experience: int, numerosity: int, timestamp: int, predictionError: real,
                           fitness: real, setSizeEstimate: real,
                           coefficients: seq<seq<real>>, prediction: seq<real>, gainMatrix: seq<seq<real>>)

  ghost function Snap(c: Classifier): (b: Before)
    reads c, c.prediction
    ensures b.experience == c.experience && b.predictionError == c.predictionError
    ensures b.fitness == c.fitness && b.setSizeEstimate == c.setSizeEstimate
  {
    Before(c.experience, c.numerosity, c.timestamp, c.predictionError, c.fitness, c.setSizeEstimate,
           c.prediction.coefficients, c.prediction.prediction, c.prediction.gainMatrix)
  }

  /** The snapshots of a sequence of classifiers. */
  ghost function Snaps(s: seq<Classifier>): (r: seq<Before>)
    reads s, set c | c in s :: c.prediction
    ensures |r| == |s| && forall k :: 0 <= k < |s| ==> r[k] == Snap(s[k])
  {
    seq(|s|, k requires 0 <= k < |s| reads s, set c | c in s :: c.prediction => Snap(s[k]))
  }

  /** One `update1` step on values: the fields `b` become `a` for the
   *  extended prediction input `x` — one more experience, one RLS step of
   *  the coefficients with the prediction before the step, the prediction
   *  of the new coefficients, and the error moved toward that prediction's
   *  error; numerosity and timestamp stay. (Fitness and set size estimate
   *  are `update2`'s.) */
  ghost predicate Stepped(b: Before, a: Before, x: seq<real>, state: StateDescriptor, p: XCSFConstants.Params)
  {
    var n := |x|;
    && Matrix.IsSquare(b.gainMatrix, n) && RLS.Shaped(b.coefficients, |b.prediction|, n)
    && |state.output| >= |b.prediction| && p.lambdaRLS != 0.0
    && RLS.Divisor(b.gainMatrix, x, n, p.lambdaRLS) != 0.0 && b.experience >= 0
    && a.experience == b.experience + 1 && a.numerosity == b.numerosity && a.timestamp == b.timestamp
    && a.coefficients == RLS.UpdatedCoefficients(b.coefficients, state.output, b.prediction,
         RLS.GainVector(b.gainMatrix, x, n, p.lambdaRLS), n)
    && a.prediction == RLS.Predictions(a.coefficients, x, n)
    && a.predictionError == Toward(b.predictionError, AbsError(a.prediction, state.output),
         LearningRate(a.experience, p.beta))
  }

  /** The extended prediction input a classifier's RLS step uses. */
  ghost function StepInput(c: Classifier, state: StateDescriptor, p: XCSFConstants.Params): seq<real>
    reads c.condition
    requires |c.condition.center| >= |state.conditionInput|
  {
    LinearRLS.Extended(p.predictionOffsetValue, c.PredictionInput(state))
  }

  /** `c` is what `update1` makes of a `Ready` classifier whose fields were
   *  `b`. */
  ghost predicate Learned(c: Classifier, b: Before, state: StateDescriptor, p: XCSFConstants.Params)
    reads c, c.condition, c.prediction
  {
    && c.Valid() && |state.conditionInput| == c.condition.dimension
    && |StepInput(c, state, p)| == c.prediction.inputLength
    && Stepped(b, Snap(c), StepInput(c, state, p), state, p)
  }

  /** The effect of `update2` with the sums of the match set on a
   *  classifier whose fields were `b`: the set size estimate moves toward
   *  the numerosity sum at rate max{1/experience, beta}, the fitness toward
   *  the relative accuracy at rate beta. The fitness step divides by the
   *  accuracy sum, so on a zero sum the fitness stays as it was. */
  ghost predicate Refitted(c: Classifier, b: Before, accuracySum: real, numerositySum: int, p: XCSFConstants.Params)
    reads c
  {
    && c.experience != 0 && p.epsilon0 >= 0.0
    && c.setSizeEstimate == Toward(b.setSizeEstimate, numerositySum as real, LearningRate(c.experience, p.beta))
    && (accuracySum != 0.0 ==>
         c.fitness == Toward(b.fitness, Share(c.predictionError, c.numerosity, p) / accuracySum, p.beta))
    && (accuracySum == 0.0 ==> c.fitness == b.fitness)
  }

  /** Every member `s[k]` is what `update1` made of the fields `befores[k]`. */
  ghost predicate AllLearned(s: seq<Classifier>, befores: seq<Before>, state: StateDescriptor, p: XCSFConstants.Params)
    reads s, set c | c in s :: c.condition, set c | c in s :: c.prediction
  {
    |befores| == |s| && forall k :: 0 <= k < |s| ==> Learned(s[k], befores[k], state, p)
  }

  /** Every member `s[k]` is what `update2` made of the fields `befores[k]`. */
  ghost predicate AllRefitted(s: seq<Classifier>, befores: seq<Before>, accuracySum: real, numerositySum: int,
                              p: XCSFConstants.Params)
    reads s
  {
    |befores| == |s| && forall k :: 0 <= k < |s| ==> Refitted(s[k], befores[k], accuracySum, numerositySum, p)
  }

  /** The members still have the fitness and set size estimate of `befores`. */
  ghost predicate Kept(s: seq<Classifier>, befores: seq<Before>)
    reads s
  {
    |befores| == |s| &&
    forall k :: 0 <= k < |s| ==> s[k].fitness == befores[k].fitness && s[k].setSizeEstimate == befores[k].setSizeEstimate
  }

  /** The fitnesses recorded in `befores`. */
  ghost function BeforeFitnesses(befores: seq<Before>): (f: seq<real>)
    ensures |f| == |befores| && forall k :: 0 <= k < |befores| ==> f[k] == befores[k].fitness
  {
    seq(|befores|, k requires 0 <= k < |befores| => befores[k].fitness)
  }

  /** The recorded fitnesses are the fitnesses. */
  lemma {:induction false} SnapsFitnesses(s: seq<Classifier>)
    ensures BeforeFitnesses(Snaps(s)) == Fitnesses(s)
  {
  }

  /** The prediction errors of the members. */
  ghost function Errors(s: seq<Classifier>): (v: seq<real>)
    reads s
    ensures |v| == |s| && forall k :: 0 <= k < |s| ==> v[k] == s[k].predictionError
  {
    seq(|s|, k requires 0 <= k < |s| reads s => s[k].predictionError)
  }

  /** The numerosity-weighted accuracies of the members. */
  ghost function AccuracyWeights(s: seq<Classifier>, p: XCSFConstants.Params): (w: seq<real>)
    reads s
    requires p.epsilon0 >= 0.0
    ensures |w| == |s| && forall k :: 0 <= k < |s| ==> w[k] == Weight(s[k], p)
  {
    seq(|s|, k requires 0 <= k < |s| reads s => Weight(s[k], p))
  }

  /** Every fitness `f[k]` moved toward its share `w[k] / total`. */
  function Refits(f: seq<real>, w: seq<real>, total: real, beta: real): (r: seq<real>)
    requires |f| == |w| && total != 0.0
    ensures |r| == |f| && forall k :: 0 <= k < |f| ==> r[k] == Toward(f[k], w[k] / total, beta)
  {
    seq(|f|, k requires 0 <= k < |f| => Toward(f[k], w[k] / total, beta))
  }

  /** Moving every fitness toward its share moves their sum toward the sum
   *  of the shares: toward 1 when `total` is the sum of the weights. */
  lemma {:induction false} RefitsSum(f: seq<real>, w: seq<real>, total: real, beta: real)
    requires |f| == |w| && total != 0.0
    ensures RealSum(Refits(f, w, total, beta)) == Toward(RealSum(f), RealSum(w) / total, beta)
    decreases |f|
  {
    if |f| > 0 {
      var n := |f| - 1;
      var r := Refits(f, w, total, beta);
      RefitsSum(f[..n], w[..n], total, beta);
      assert r[..n] == Refits(f[..n], w[..n], total, beta);
      TowardAdd(RealSum(f[..n]), RealSum(w[..n]), f[n], w[n], total, beta);
    }
  }

  /** Two moves at the same rate add up to one move of the sums. */
  lemma {:induction false} TowardAdd(a: real, u: real, b: real, v: real, total: real, beta: real)
    requires total != 0.0
    ensures Toward(a, u / total, beta) + Toward(b, v / total, beta) == Toward(a + b, (u + v) / total, beta)
  {
    assert (u + v) / total == u / total + v / total;
  }

  /** With the sum of the weights as the total, the sum of the fitnesses
   *  moves toward 1. */
  lemma {:induction false} RefitsTowardOne(f: seq<real>, w: seq<real>, total: real, beta: real)
    requires |f| == |w| && total != 0.0 && total == RealSum(w)
    ensures RealSum(Refits(f, w, total, beta)) == Toward(RealSum(f), 1.0, beta)
  {
    RefitsSum(f, w, total, beta);
    DivSelf(total);
  }

  /** A non-zero number divided by itself. */
  lemma {:induction false} DivSelf(x: real)
    requires x != 0.0
    ensures x / x == 1.0
  {
  }

  /** The numerosity-weighted accuracy of a classifier. */
  ghost function Weight(c: Classifier, p: XCSFConstants.Params): real
    reads c
    requires p.epsilon0 >= 0.0
  {
    Share(c.predictionError, c.numerosity, p)
  }

  /** The accuracy of the error `e` weighted by the numerosity `n`. */
  function Share(e: real, n: int, p: XCSFConstants.Params): real
    requires p.epsilon0 >= 0.0
  {
    Accuracy(e, p) * n as real
  }

  /** One iteration of the first loop: `update1`, then the classifier's
   *  weighted accuracy. */
  method LearnStep(cl: Classifier, state: StateDescriptor, p: XCSFConstants.Params) returns (weight: real)
    requires Ready(cl, state, p) && p.epsilon0 >= 0.0
    modifies cl, cl.prediction
    ensures Learned(cl, old(Snap(cl)), state, p) && weight == Weight(cl, p)
    ensures cl.fitness == old(cl.fitness) && cl.setSizeEstimate == old(cl.setSizeEstimate)
  {
    ghost var b := Snap(cl);
    ghost var x := StepInput(cl, state, p);
    ghost var n := cl.prediction.inputLength;
    cl.Update1(state, p);
    ghost var a := Snap(cl);
    assert StepInput(cl, state, p) == x && |x| == n;
    SteppedIntro(b, a, x, state, p);
    weight := WeightedAccuracy(cl, p);
  }

  /** The term the first loop adds to the accuracy sum. */
  method WeightedAccuracy(cl: Classifier, p: XCSFConstants.Params) returns (weight: real)
    requires p.epsilon0 >= 0.0
    ensures weight == Weight(cl, p)
  {
    weight := cl.GetAccuracy(p) * cl.numerosity as real;
  }

  /** The conditions of `Stepped`, one by one. */
  lemma {:induction false} SteppedIntro(b: Before, a: Before, x: seq<real>, state: StateDescriptor, p: XCSFConstants.Params)
    requires Matrix.IsSquare(b.gainMatrix, |x|) && RLS.Shaped(b.coefficients, |b.prediction|, |x|)
    requires |state.output| >= |b.prediction| && p.lambdaRLS != 0.0
    requires RLS.Divisor(b.gainMatrix, x, |x|, p.lambdaRLS) != 0.0 && b.experience >= 0
    requires a.experience == b.experience + 1 && a.numerosity == b.numerosity && a.timestamp == b.timestamp
    requires a.coefficients == RLS.UpdatedCoefficients(b.coefficients, state.output, b.prediction,
      RLS.GainVector(b.gainMatrix, x, |x|, p.lambdaRLS), |x|)
    requires a.prediction == RLS.Predictions(a.coefficients, x, |x|)
    requires a.predictionError == Toward(b.predictionError, AbsError(a.prediction, state.output),
      LearningRate(a.experience, p.beta))
    ensures Stepped(b, a, x, state, p)
  {
  }

  /** How far the first loop has come after `i` members of `s`, whose
   *  fields were `befores`: the first `i` took their step, leading to
   *  `afters` with inputs `xs`, weights `ws` and numerosities `ns`; the
   *  others are untouched and still `Ready`. */
  ghost predicate Progress(s: seq<Classifier>, i: int, befores: seq<Before>, afters: seq<Before>, xs: seq<seq<real>>,
                           ws: seq<real>, ns: seq<int>, state: StateDescriptor, p: XCSFConstants.Params)
    reads s, set c | c in s :: c.condition, set c | c in s :: c.prediction
  {
    && 0 <= i <= |s| && |befores| == |s| && p.epsilon0 >= 0.0
    && Done(s[..i], befores[..i], afters, xs, ws, ns, state, p)
    && Pending(s[i..], befores[i..], state, p)
  }

  /** The members `d`, whose fields were `bs`, took their step. */
  ghost predicate Done(d: seq<Classifier>, bs: seq<Before>, afters: seq<Before>, xs: seq<seq<real>>,
                       ws: seq<real>, ns: seq<int>, state: StateDescriptor, p: XCSFConstants.Params)
    reads d, set c | c in d :: c.condition, set c | c in d :: c.prediction
  {
    && |bs| == |ws| == |ns| == |afters| == |xs| == |d|
    && forall k :: 0 <= k < |d| ==> DoneOne(d[k], bs[k], afters[k], xs[k], ws[k], ns[k], state, p)
  }

  /** One member `c` whose fields were `b` took its step, leading to `a`
   *  for input `x`, with weight `w` and numerosity `n`. */
  ghost predicate DoneOne(c: Classifier, b: Before, a: Before, x: seq<real>, w: real, n: int, state: StateDescriptor,
                          p: XCSFConstants.Params)
    reads c, c.condition, c.prediction
  {
    && p.epsilon0 >= 0.0 && Stepped(b, a, x, state, p)
    && a.fitness == b.fitness && a.setSizeEstimate == b.setSizeEstimate
    && Snap(c) == a && w == Weight(c, p) && n == c.numerosity
    && c.Valid() && |state.conditionInput| == c.condition.dimension
    && StepInput(c, state, p) == x && |x| == c.prediction.inputLength
  }

  /** The members `r` still to come are untouched and ready for their step. */
  ghost predicate Pending(r: seq<Classifier>, bs: seq<Before>, state: StateDescriptor, p: XCSFConstants.Params)
    reads r, set c | c in r :: c.condition, set c | c in r :: c.prediction
    decreases |r|
  {
    && |r| == |bs|
    && (|r| == 0 || (Snap(r[0]) == bs[0] && Ready(r[0], state, p) && Pending(r[1..], bs[1..], state, p)))
  }

  /** Untouched, ready members are pending. */
  lemma {:induction false} PendingAll(r: seq<Classifier>, bs: seq<Before>, state: StateDescriptor, p: XCSFConstants.Params)
    requires |r| == |bs| && forall k :: 0 <= k < |r| ==> Snap(r[k]) == bs[k] && Ready(r[k], state, p)
    ensures Pending(r, bs, state, p)
    decreases |r|
  {
    if |r| > 0 {
      PendingAll(r[1..], bs[1..], state, p);
    }
  }

  /** A member after its step extends what is done. */
  lemma {:induction false} DoneExtend(d: seq<Classifier>, bs: seq<Before>, afters: seq<Before>, xs: seq<seq<real>>,
                   ws: seq<real>, ns: seq<int>, state: StateDescriptor, p: XCSFConstants.Params,
                   c: Classifier, b: Before)
    requires Done(d, bs, afters, xs, ws, ns, state, p) && Learned(c, b, state, p) && p.epsilon0 >= 0.0
    requires c.fitness == b.fitness && c.setSizeEstimate == b.setSizeEstimate
    ensures Done(d + [c], bs + [b], afters + [Snap(c)], xs + [StepInput(c, state, p)], ws + [Weight(c, p)],
                 ns + [c.numerosity], state, p)
  {
    var d', bs', afters' := d + [c], bs + [b], afters + [Snap(c)];
    var xs', ws', ns' := xs + [StepInput(c, state, p)], ws + [Weight(c, p)], ns + [c.numerosity];
    assert DoneOne(c, b, Snap(c), StepInput(c, state, p), Weight(c, p), c.numerosity, state, p);
    forall k | 0 <= k < |d'|
      ensures DoneOne(d'[k], bs'[k], afters'[k], xs'[k], ws'[k], ns'[k], state, p)
    {
      if k < |d| {
        assert d'[k] == d[k] && bs'[k] == bs[k] && afters'[k] == afters[k];
        assert xs'[k] == xs[k] && ws'[k] == ws[k] && ns'[k] == ns[k];
      }
    }
  }

  /** The objects of one member are none of those of the other members. */
  lemma {:induction false} Apart(s: seq<Classifier>, i: int)
    requires Separate(s) && 0 <= i < |s|
    ensures s[i] !in s[..i] && s[i] !in s[i + 1..]
    ensures forall c :: c in s[..i] ==> c.prediction != s[i].prediction
    ensures forall c :: c in s[i + 1..] ==> c.prediction != s[i].prediction
  {
  }

  /** Before the step of member `i`: the members before it are done, it is
   *  ready, and those after it are pending. */
  lemma {:induction false} ProgressSplit(s: seq<Classifier>, i: int, befores: seq<Before>, afters: seq<Before>, xs: seq<seq<real>>,
                      ws: seq<real>, ns: seq<int>, state: StateDescriptor, p: XCSFConstants.Params)
    requires Progress(s, i, befores, afters, xs, ws, ns, state, p) && i < |s|
    ensures Done(s[..i], befores[..i], afters, xs, ws, ns, state, p)
    ensures Snap(s[i]) == befores[i] && Ready(s[i], state, p)
    ensures Pending(s[i + 1..], befores[i + 1..], state, p)
  {
    assert s[i..][1..] == s[i + 1..] && befores[i..][1..] == befores[i + 1..];
  }

  /** A prefix one longer is the prefix and the next element. */
  lemma {:induction false} PrefixStep<T>(s: seq<T>, i: int)
    requires 0 <= i < |s|
    ensures s[..i + 1] == s[..i] + [s[i]]
  {
  }

  /** After the step of member `i`: `Progress` has come one member further. */
  lemma {:induction false} ProgressJoin(s: seq<Classifier>, i: int, befores: seq<Before>, afters: seq<Before>, xs: seq<seq<real>>,
                     ws: seq<real>, ns: seq<int>, state: StateDescriptor, p: XCSFConstants.Params)
    requires 0 <= i < |s| && |befores| == |s| && p.epsilon0 >= 0.0
    requires Done(s[..i + 1], befores[..i + 1], afters, xs, ws, ns, state, p)
    requires Pending(s[i + 1..], befores[i + 1..], state, p)
    ensures Progress(s, i + 1, befores, afters, xs, ws, ns, state, p)
  {
  }

  /** The step of member `cl`, whose fields are `b`, after the members `d`
   *  already done and before the members `r` to come, whose objects are
   *  none of its own. */
  method StepMember(cl: Classifier, ghost b: Before, ghost d: seq<Classifier>, ghost db: seq<Before>,
                        ghost r: seq<Classifier>, ghost rb: seq<Before>, ghost afters: seq<Before>,
                        ghost xs: seq<seq<real>>, ghost ws: seq<real>, ghost ns: seq<int>,
                        state: StateDescriptor, p: XCSFConstants.Params)
    returns (weight: real, numerosity: int)
    requires Ready(cl, state, p) && Snap(cl) == b && p.epsilon0 >= 0.0
    requires Done(d, db, afters, xs, ws, ns, state, p) && Pending(r, rb, state, p)
    requires cl !in d && cl !in r
    requires (forall c :: c in d ==> c.prediction != cl.prediction) && (forall c :: c in r ==> c.prediction != cl.prediction)
    modifies cl, cl.prediction
    ensures Learned(cl, b, state, p) && weight == Weight(cl, p) && numerosity == cl.numerosity
    ensures cl.fitness == b.fitness && cl.setSizeEstimate == b.setSizeEstimate
    ensures Done(d, db, afters, xs, ws, ns, state, p) && Pending(r, rb, state, p)
  {
    weight := LearnStep(cl, state, p);
    numerosity := cl.numerosity;
  }

  /** The body of the first loop for member `i`: it takes its step, and
   *  the loop has come one member further. */
  method LearnIteration(s: seq<Classifier>, i: int, ghost befores: seq<Before>, ghost afters: seq<Before>,
                        ghost xs: seq<seq<real>>, ghost ws: seq<real>, ghost ns: seq<int>,
                        accuracySum: real, numerositySum: int, state: StateDescriptor, p: XCSFConstants.Params)
    returns (accuracySum': real, numerositySum': int, ghost afters': seq<Before>, ghost xs': seq<seq<real>>,
             ghost ws': seq<real>, ghost ns': seq<int>)
    requires Separate(s) && i < |s| && Progress(s, i, befores, afters, xs, ws, ns, state, p)
    requires accuracySum == RealSum(ws) && numerositySum == Sum(ns)
    modifies s[i], s[i].prediction
    ensures Progress(s, i + 1, befores, afters', xs', ws', ns', state, p)
    ensures accuracySum' == RealSum(ws') && numerositySum' == Sum(ns')
  {
    var cl := s[i];
    ProgressSplit(s, i, befores, afters, xs, ws, ns, state, p);
    Apart(s, i);
    PrefixStep(s, i);
    PrefixStep(befores, i);
    var weight, numerosity := StepMember(cl, befores[i], s[..i], befores[..i], s[i + 1..], befores[i + 1..],
                                     afters, xs, ws, ns, state, p);
    DoneExtend(s[..i], befores[..i], afters, xs, ws, ns, state, p, cl, befores[i]);
    afters', xs', ws', ns' := afters + [Snap(cl)], xs + [StepInput(cl, state, p)], ws + [weight], ns + [numerosity];
    ProgressJoin(s, i, befores, afters', xs', ws', ns', state, p);
    SumsStep(ws, ns, weight, numerosity, accuracySum, numerositySum);
    accuracySum', numerositySum' := accuracySum + weight, numerositySum + numerosity;
  }

  /** The first loop of `updateClassifiers`. */
  method LearnPass(members: ClassifierSet, state: StateDescriptor, p: XCSFConstants.Params)
    returns (accuracySum: real, numerositySum: int)
    requires members.Valid() && p.epsilon0 >= 0.0 && Separate(members.Contents())
    requires forall c :: c in members.Contents() ==> Ready(c, state, p)
    modifies set c | c in members.Contents(), set c | c in members.Contents() :: c.prediction
    ensures numerositySum == Sum(Nums(members.Contents()))
    ensures accuracySum == RealSum(AccuracyWeights(members.Contents(), p))
    ensures AllLearned(members.Contents(), old(Snaps(members.Contents())), state, p)
    ensures Kept(members.Contents(), old(Snaps(members.Contents())))
  {
    var s: seq<Classifier> := members.elements[..members.size];
    ghost var befores := Snaps(s);
    PendingAll(s, befores, state, p);
    assert s[0..] == s && befores[0..] == befores && s[..0] == [] && befores[..0] == [];
    ghost var afters, xs, ws, ns;
    accuracySum, numerositySum, afters, xs, ws, ns := LearnLoop(s, befores, state, p);
    assert members.elements[..members.size] == s;
    ProgressDone(s, befores, afters, xs, ws, ns, state, p);
  }

  /** One more weight and numerosity add to their sums. */
  lemma {:induction false} SumsStep(ws: seq<real>, ns: seq<int>, w: real, n: int, accuracySum: real, numerositySum: int)
    requires accuracySum == RealSum(ws) && numerositySum == Sum(ns)
    ensures accuracySum + w == RealSum(ws + [w]) && numerositySum + n == Sum(ns + [n])
  {
    assert (ws + [w])[..|ws|] == ws && (ns + [n])[..|ns|] == ns;
  }

  /** The loop itself, over the members `s` in slot order, with the ghost
   *  record of its progress. */
  method LearnLoop(s: seq<Classifier>, ghost befores: seq<Before>, state: StateDescriptor, p: XCSFConstants.Params)
    returns (accuracySum: real, numerositySum: int, ghost afters: seq<Before>, ghost xs: seq<seq<real>>,
             ghost ws: seq<real>, ghost ns: seq<int>)
    requires Separate(s) && Progress(s, 0, befores, [], [], [], [], state, p)
    modifies set c | c in s, set c | c in s :: c.prediction
    ensures Progress(s, |s|, befores, afters, xs, ws, ns, state, p)
    ensures accuracySum == RealSum(ws) && numerositySum == Sum(ns)
  {
    afters, xs, ws, ns := [], [], [], [];
    accuracySum, numerositySum := 0.0, 0;
    for i := 0 to |s|
      invariant Progress(s, i, befores, afters, xs, ws, ns, state, p)
      invariant accuracySum == RealSum(ws) && numerositySum == Sum(ns)
    {
      accuracySum, numerositySum, afters, xs, ws, ns :=
        LearnIteration(s, i, befores, afters, xs, ws, ns, accuracySum, numerositySum, state, p);
    }
  }

  /** The first loop's invariant at its end: every member took its step,
   *  and the sums are those of the whole match set. */
  lemma {:induction false} ProgressDone(s: seq<Classifier>, befores: seq<Before>, afters: seq<Before>, xs: seq<seq<real>>,
                     ws: seq<real>, ns: seq<int>, state: StateDescriptor, p: XCSFConstants.Params)
    requires Progress(s, |s|, befores, afters, xs, ws, ns, state, p)
    ensures ws == AccuracyWeights(s, p) && ns == Nums(s)
    ensures AllLearned(s, befores, state, p) && Kept(s, befores)
  {
    assert s[..|s|] == s && befores[..|s|] == befores;
  }

  /** The second loop of `updateClassifiers`. The members' fields were
   *  `befores` before the first loop, which `Learned` relates to what it
   *  made of them and which still hold their fitness and set size estimate;
   *  `update2` keeps the weights `ws` and the numerosities `ns`, and moves
   *  the fitnesses `f0` toward their shares of the accuracy sum. */
  method RefitPass(s: seq<Classifier>, accuracySum: real, numerositySum: int, ghost befores: seq<Before>,
                   ghost ws: seq<real>, ghost ns: seq<int>, ghost state: StateDescriptor, p: XCSFConstants.Params)
    requires p.epsilon0 >= 0.0 && Separate(s)
    requires ws == AccuracyWeights(s, p) && ns == Nums(s)
    requires AllLearned(s, befores, state, p) && Kept(s, befores)
    modifies set c | c in s
    ensures AllLearned(s, befores, state, p) && AllRefitted(s, befores, accuracySum, numerositySum, p)
    ensures ws == AccuracyWeights(s, p) && ns == Nums(s)
    ensures accuracySum != 0.0 ==> Fitnesses(s) == Refits(BeforeFitnesses(befores), ws, accuracySum, p.beta)
  {
    ghost var es := Errors(s);
    assert forall k :: 0 <= k < |s| ==> ws[k] == Share(es[k], ns[k], p);
    RefitLoop(s, accuracySum, numerositySum, befores, es, ns, state, p);
    RefitOutcome(s, accuracySum, numerositySum, befores, es, ws, ns, p);
  }

  /** After the second loop: the weights and numerosities are those the
   *  loop kept, and the fitnesses moved toward their shares. */
  lemma {:induction false} RefitOutcome(s: seq<Classifier>, accuracySum: real, numerositySum: int, befores: seq<Before>,
                     es: seq<real>, ws: seq<real>, ns: seq<int>, p: XCSFConstants.Params)
    requires |befores| == |es| == |ws| == |ns| == |s| && p.epsilon0 >= 0.0
    requires AllRefitted(s, befores, accuracySum, numerositySum, p)
    requires forall k :: 0 <= k < |s| ==> s[k].predictionError == es[k] && s[k].numerosity == ns[k]
    requires forall k :: 0 <= k < |s| ==> ws[k] == Share(es[k], ns[k], p)
    ensures ws == AccuracyWeights(s, p) && ns == Nums(s)
    ensures accuracySum != 0.0 ==> Fitnesses(s) == Refits(BeforeFitnesses(befores), ws, accuracySum, p.beta)
  {
    var w := AccuracyWeights(s, p);
    assert forall k :: 0 <= k < |s| ==> w[k] == ws[k];
  }

  /** The loop itself, over the members `s` in slot order. */
  method RefitLoop(s: seq<Classifier>, accuracySum: real, numerositySum: int, ghost befores: seq<Before>,
                   ghost es: seq<real>, ghost ns: seq<int>, ghost state: StateDescriptor, p: XCSFConstants.Params)
    requires p.epsilon0 >= 0.0 && Separate(s)
    requires es == Errors(s) && ns == Nums(s)
    requires AllLearned(s, befores, state, p) && Kept(s, befores)
    modifies set c | c in s
    ensures AllLearned(s, befores, state, p) && AllRefitted(s, befores, accuracySum, numerositySum, p)
    ensures forall k :: 0 <= k < |s| ==> s[k].predictionError == es[k] && s[k].numerosity == ns[k]
  {
    RefitStart(s, accuracySum, numerositySum, befores, es, ns, state, p);
    for i := 0 to |s|
      invariant RefitProgress(s, i, accuracySum, numerositySum, befores, es, ns, state, p)
    {
      RefitIteration(s, i, accuracySum, numerositySum, befores, es, ns, state, p);
    }
    RefitEnd(s, accuracySum, numerositySum, befores, es, ns, state, p);
  }

  /** How far the second loop has come after `i` members of `s`: each
   *  member is where `RefitAt` says, refitted when it comes before `i`. */
  ghost predicate RefitProgress(s: seq<Classifier>, i: int, accuracySum: real, numerositySum: int,
                                befores: seq<Before>, es: seq<real>, ns: seq<int>, state: StateDescriptor,
                                p: XCSFConstants.Params)
    reads s, set c | c in s :: c.condition, set c | c in s :: c.prediction
  {
    && 0 <= i <= |s| && |befores| == |es| == |ns| == |s|
    && forall k :: 0 <= k < |s| ==>
         RefitAt(s[k], befores[k], es[k], ns[k], k < i, accuracySum, numerositySum, state, p)
  }

  /** A member during the second loop: what `update1` made of `b`, with
   *  error `e` and numerosity `n`, and refitted by `update2` or not yet. */
  ghost predicate RefitAt(c: Classifier, b: Before, e: real, n: int, refitted: bool, accuracySum: real,
                          numerositySum: int, state: StateDescriptor, p: XCSFConstants.Params)
    reads c, c.condition, c.prediction
  {
    && p.epsilon0 >= 0.0 && Learned(c, b, state, p) && c.predictionError == e && c.numerosity == n
    && (refitted ==> Refitted(c, b, accuracySum, numerositySum, p))
    && (!refitted ==> c.fitness == b.fitness && c.setSizeEstimate == b.setSizeEstimate)
  }

  /** Before the second loop no member is refitted. */
  lemma {:induction false} RefitStart(s: seq<Classifier>, accuracySum: real, numerositySum: int, befores: seq<Before>,
                   es: seq<real>, ns: seq<int>, state: StateDescriptor, p: XCSFConstants.Params)
    requires p.epsilon0 >= 0.0 && es == Errors(s) && ns == Nums(s)
    requires AllLearned(s, befores, state, p) && Kept(s, befores)
    ensures RefitProgress(s, 0, accuracySum, numerositySum, befores, es, ns, state, p)
  {
  }

  /** After the second loop every member is refitted. */
  lemma {:induction false} RefitEnd(s: seq<Classifier>, accuracySum: real, numerositySum: int, befores: seq<Before>,
                 es: seq<real>, ns: seq<int>, state: StateDescriptor, p: XCSFConstants.Params)
    requires RefitProgress(s, |s|, accuracySum, numerositySum, befores, es, ns, state, p)
    ensures AllLearned(s, befores, state, p) && AllRefitted(s, befores, accuracySum, numerositySum, p)
    ensures forall k :: 0 <= k < |s| ==> s[k].predictionError == es[k] && s[k].numerosity == ns[k]
  {
  }

  /** The body of the second loop for member `i`. */
  method RefitIteration(s: seq<Classifier>, i: int, accuracySum: real, numerositySum: int, ghost befores: seq<Before>,
                        ghost es: seq<real>, ghost ns: seq<int>, ghost state: StateDescriptor, p: XCSFConstants.Params)
    requires Separate(s) && i < |s| && RefitProgress(s, i, accuracySum, numerositySum, befores, es, ns, state, p)
    modifies s[i]
    ensures RefitProgress(s, i + 1, accuracySum, numerositySum, befores, es, ns, state, p)
  {
    Apart(s, i);
    RefitMember(s[i], befores[i], es[i], ns[i], accuracySum, numerositySum, state, p);
    forall k | 0 <= k < |s|
      ensures RefitAt(s[k], befores[k], es[k], ns[k], k < i + 1, accuracySum, numerositySum, state, p)
    {
      if k != i {
        assert old(RefitAt(s[k], befores[k], es[k], ns[k], k < i, accuracySum, numerositySum, state, p));
      }
    }
  }

  /** One iteration of the second loop: `update2`, which on a zero
   *  accuracy sum takes only its set-size step (the fitness step would
   *  divide by zero); it leaves what `update1` did as it was. */
  method RefitMember(cl: Classifier, ghost b: Before, ghost e: real, ghost n: int, accuracySum: real,
                     numerositySum: int, ghost state: StateDescriptor, p: XCSFConstants.Params)
    requires RefitAt(cl, b, e, n, false, accuracySum, numerositySum, state, p)
    modifies cl
    ensures RefitAt(cl, b, e, n, true, accuracySum, numerositySum, state, p)
  {
    ghost var mid := Snap(cl);
    ghost var x := StepInput(cl, state, p);
    if accuracySum == 0.0 {
      cl.MoveSetSize(numerositySum, p);
    } else {
      Refit(cl, b, accuracySum, numerositySum, p);
    }
    assert Snap(cl) == mid.(fitness := cl.fitness, setSizeEstimate := cl.setSizeEstimate);
    SteppedRefit(b, mid, x, cl.fitness, cl.setSizeEstimate, state, p);
  }

  /** `update2` on one classifier whose fitness and set size estimate are
   *  those of `b`, as `Refitted` states it. */
  method Refit(cl: Classifier, ghost b: Before, accuracySum: real, numerositySum: int, p: XCSFConstants.Params)
    requires cl.experience != 0 && accuracySum != 0.0 && p.epsilon0 >= 0.0
    requires cl.fitness == b.fitness && cl.setSizeEstimate == b.setSizeEstimate
    modifies cl
    ensures Refitted(cl, b, accuracySum, numerositySum, p)
    ensures unchanged(cl`experience, cl`numerosity, cl`predictionError, cl`timestamp)
  {
    cl.Update2(accuracySum, numerositySum, p);
  }

  /** `Stepped` does not look at fitness and set size estimate. */
  lemma {:induction false} SteppedRefit(b: Before, a: Before, x: seq<real>, fitness: real, setSizeEstimate: real,
                     state: StateDescriptor, p: XCSFConstants.Params)
    requires Stepped(b, a, x, state, p)
    ensures Stepped(b, a.(fitness := fitness, setSizeEstimate := setSizeEstimate), x, state, p)
  {
  }

  /** The accounting of covering in a population of `total`
   *  micro-classifiers that ends with `final`: `deleted` of the surplus
   *  `total + 1 - maxPopSize` are deleted and the covering classifier is
   *  added when `inserted`; a complete deletion always leaves room for it
   *  and at most `maxPopSize` micro-classifiers. */
  predicate CoverAccount(total: int, deleted: int, inserted: bool, final: int, p: XCSFConstants.Params)
  {
    var toDelete := total + 1 - p.maxPopSize;
    && (toDelete <= 0 ==> deleted == 0 && inserted)
    && (toDelete > 0 ==> 0 <= deleted <= toDelete)
    && (toDelete > 0 && deleted == toDelete ==> inserted)
    && final == total - deleted + (if inserted then 1 else 0)
    && (deleted == (if toDelete > 0 then toDelete else 0) ==> final <= p.maxPopSize)
  }

  /** The population half of `ensureStateCoverage`: the numerosity sum,
   *  the deletion of the surplus, and `population.add(newCl)` when a slot
   *  is free (the Java array store would throw otherwise). */
  method AddCovering(pop: ClassifierSet, newCl: Classifier, fuel: nat, ghost dim: nat,
                     p: XCSFConstants.Params, rng: RandomGen.Random)
    returns (deleted: int, inserted: bool)
    requires pop.Valid() && rng.Valid() && pop.elements.Length == p.maxPopSize && p.maxPopSize >= 1
    requires Separate(pop.Contents()) && AllValid(pop.Contents(), dim) && Living(pop.Contents())
    requires newCl.Valid() && newCl.condition.dimension == dim && newCl.numerosity == 1
    requires forall x :: x in pop.Contents() ==>
      x != newCl && x.condition != newCl.condition && x.prediction != newCl.prediction
    modifies pop, pop.elements, rng, set c | c in pop.Contents()
    ensures pop.Valid() && rng.Valid()
    ensures Separate(pop.Contents()) && AllValid(pop.Contents(), dim)
    ensures newCl.fitness != 0.0 ==> Living(pop.Contents())
    ensures forall c :: c in old(pop.Contents()) ==>
      unchanged(c`fitness, c`experience, c`setSizeEstimate, c`predictionError, c`timestamp)
    ensures pop.Contents() ==
      Without(old(pop.Contents()), ZeroSlots(old(pop.Contents()))) + (if inserted then [newCl] else [])
    ensures CoverAccount(old(Sum(Nums(pop.Contents()))), deleted, inserted, Sum(Nums(pop.Contents())), p)
  {
    var numerositySum := NumerositySum(pop);
    deleted, inserted := CoverCounted(pop, newCl, numerositySum, fuel, dim, pop.Contents(), p, rng);
  }

  /** Covering once the numerosity sum `numerositySum` is known: the
   *  deletion of `numerositySum + 1 - maxPopSize` micro-classifiers and the
   *  insertion when a slot is free. */
  method CoverCounted(pop: ClassifierSet, newCl: Classifier, numerositySum: int, fuel: nat, ghost dim: nat, ghost s: seq<Classifier>,
                      p: XCSFConstants.Params, rng: RandomGen.Random)
    returns (deleted: int, inserted: bool)
    requires pop.Valid() && rng.Valid() && pop.elements.Length == p.maxPopSize && p.maxPopSize >= 1
    requires Separate(pop.Contents()) && AllValid(pop.Contents(), dim) && Living(pop.Contents())
    requires newCl.Valid() && newCl.condition.dimension == dim && newCl.numerosity == 1
    requires forall x :: x in pop.Contents() ==>
      x != newCl && x.condition != newCl.condition && x.prediction != newCl.prediction
    requires numerositySum == Sum(Nums(pop.Contents())) && s == pop.Contents()
    modifies pop, pop.elements, rng, set c | c in pop.Contents()
    ensures pop.Valid() && rng.Valid()
    ensures Separate(pop.Contents()) && AllValid(pop.Contents(), dim)
    ensures newCl.fitness != 0.0 ==> Living(pop.Contents())
    ensures forall c :: c in s ==> Stats(c) == old(Stats(c))
    ensures pop.Contents() ==
      Without(s, ZeroSlots(s)) + (if inserted then [newCl] else [])
    ensures CoverAccount(numerositySum, deleted, inserted, Sum(Nums(pop.Contents())), p)
  {
    deleted := CoverDeletion(pop, newCl, numerositySum, fuel, dim, s, p, rng);
    inserted := AppendCovering(pop, newCl, dim, s, numerositySum, deleted, p);
  }

  /** `toDelete = numerositySum + 1 - maxPopSize` and the deletion of that
   *  many micro-classifiers when it is positive; the covering classifier
   *  `newCl`, outside the population, is left as it was. */
  method CoverDeletion(pop: ClassifierSet, newCl: Classifier, numerositySum: int, fuel: nat, ghost dim: nat,
                       ghost s: seq<Classifier>, p: XCSFConstants.Params, rng: RandomGen.Random)
    returns (deleted: int)
    requires pop.Valid() && rng.Valid() && p.maxPopSize >= 1
    requires Separate(pop.Contents()) && AllValid(pop.Contents(), dim) && Living(pop.Contents())
    requires newCl.Valid() && newCl.condition.dimension == dim && newCl.numerosity == 1
    requires forall x :: x in pop.Contents() ==> x != newCl
    requires numerositySum == Sum(Nums(pop.Contents())) && s == pop.Contents()
    modifies pop, pop.elements, rng, set c | c in pop.Contents()
    ensures pop.Valid() && rng.Valid()
    ensures Separate(pop.Contents()) && AllValid(pop.Contents(), dim) && Living(pop.Contents())
    ensures newCl.Valid() && newCl.condition.dimension == dim && newCl.numerosity == 1
    ensures forall x :: x in pop.Contents() ==> x in s
    ensures pop.size <= Sum(Nums(pop.Contents())) && Sum(Nums(pop.Contents())) == numerositySum - deleted
    ensures 0 <= deleted && (numerositySum + 1 - p.maxPopSize <= 0 ==> deleted == 0)
    ensures numerositySum + 1 - p.maxPopSize > 0 ==> deleted <= numerositySum + 1 - p.maxPopSize
    ensures pop.Contents() == Without(s, ZeroSlots(s))
    ensures forall c :: c in s ==> Stats(c) == old(Stats(c))
  {
    var toDelete := numerositySum + 1 - p.maxPopSize;
    deleted := MakeRoom(pop, toDelete, fuel, dim, s, p, rng);
  }

  /** The part of covering after the deletion: `population.add(newCl)` when
   *  a slot is free, and the accounting of `total` micro-classifiers of
   *  which `deleted` went. */
  method AppendCovering(pop: ClassifierSet, newCl: Classifier, ghost dim: nat, ghost s: seq<Classifier>,
                        total: int, deleted: int, p: XCSFConstants.Params)
    returns (inserted: bool)
    requires pop.Valid() && pop.elements.Length == p.maxPopSize
    requires Separate(pop.Contents()) && AllValid(pop.Contents(), dim) && Living(pop.Contents())
    requires newCl.Valid() && newCl.condition.dimension == dim && newCl.numerosity == 1
    requires forall x :: x in pop.Contents() ==> x in s
    requires forall x :: x in s ==>
      x != newCl && x.condition != newCl.condition && x.prediction != newCl.prediction
    requires pop.size <= Sum(Nums(pop.Contents())) && Sum(Nums(pop.Contents())) == total - deleted
    requires 0 <= deleted && (total + 1 - p.maxPopSize <= 0 ==> deleted == 0)
    requires total + 1 - p.maxPopSize > 0 ==> deleted <= total + 1 - p.maxPopSize
    modifies pop, pop.elements
    ensures pop.Valid() && Separate(pop.Contents()) && AllValid(pop.Contents(), dim)
    ensures newCl.fitness != 0.0 ==> Living(pop.Contents())
    ensures pop.Contents() == old(pop.Contents()) + (if inserted then [newCl] else [])
    ensures CoverAccount(total, deleted, inserted, Sum(Nums(pop.Contents())), p)
    ensures ZeroSlots(s) == old(ZeroSlots(s))
    ensures forall c :: c in s ==> Stats(c) == old(Stats(c))
  {
    ghost var keptSum, keptSize := Sum(Nums(pop.Contents())), pop.size;
    inserted := AppendIfRoom(pop, newCl, dim, s);
    CoverAccounting(total, keptSize, keptSum, deleted, inserted, Sum(Nums(pop.Contents())), p);
  }

  /** The integer side of covering: a population of `keptSize` classifiers
   *  holding `keptSum >= keptSize` micro-classifiers after the deletion
   *  gets the covering classifier exactly when a slot is free. */
  lemma {:induction false} CoverAccounting(total: int, keptSize: int, keptSum: int, deleted: int, inserted: bool, final: int,
                        p: XCSFConstants.Params)
    requires 0 <= keptSize <= keptSum && keptSum == total - deleted
    requires inserted == (keptSize < p.maxPopSize) && final == keptSum + (if inserted then 1 else 0)
    requires 0 <= deleted && (total + 1 - p.maxPopSize <= 0 ==> deleted == 0)
    requires total + 1 - p.maxPopSize > 0 ==> deleted <= total + 1 - p.maxPopSize
    ensures CoverAccount(total, deleted, inserted, final, p)
  {
  }

  /** Deletion of `toDelete` micro-classifiers when that is positive, and
   *  the removal of the emptied slots. `s` holds the population and any
   *  other classifiers the caller keeps track of. */
  method MakeRoom(pop: ClassifierSet, toDelete: int, fuel: nat, ghost dim: nat, ghost s: seq<Classifier>,
                  p: XCSFConstants.Params, rng: RandomGen.Random)
    returns (deleted: int)
    requires pop.Valid() && rng.Valid()
    requires forall c :: c in pop.Contents() ==> c in s
    requires AllValid(s, dim)
    requires Separate(pop.Contents()) && AllValid(pop.Contents(), dim) && Living(pop.Contents())
    requires toDelete > 0 ==> Sum(Nums(pop.Contents())) >= 1
    modifies pop, pop.elements, rng, set c | c in pop.Contents()
    ensures pop.Valid() && rng.Valid()
    ensures 0 <= deleted && (toDelete <= 0 ==> deleted == 0) && (toDelete > 0 ==> deleted <= toDelete)
    ensures pop.Contents() == Without(old(pop.Contents()), ZeroSlots(old(pop.Contents())))
    ensures toDelete <= 0 ==> pop.Contents() == old(pop.Contents())
    ensures Sum(Nums(pop.Contents())) == old(Sum(Nums(pop.Contents()))) - deleted
    ensures Separate(pop.Contents()) && AllValid(pop.Contents(), dim) && Living(pop.Contents())
    ensures forall x :: x in pop.Contents() ==> x in old(pop.Contents())
    ensures forall c :: c in s ==>
      unchanged(c`fitness, c`experience, c`setSizeEstimate, c`predictionError, c`timestamp)
    ensures forall c :: c in s && c !in old(pop.Contents()) ==> c.numerosity == old(c.numerosity)
    ensures AllValid(s, dim)
    ensures pop.size <= Sum(Nums(pop.Contents()))
  {
    ghost var before := pop.Contents();
    var exhausted;
    deleted, exhausted := DeleteSurplus(pop, toDelete, fuel, p, rng);
    forall c | c in s
      ensures c.Valid() && c.condition.dimension == dim && (c in before ==> c.fitness != 0.0)
    {
      assert old(c.Valid());
    }
    KeptValid(before, pop.Contents(), dim);
    LivingSum(pop.Contents());
  }

  /** `deleteWorstClassifiers(toDelete)` when that is positive, and the
   *  removal of the emptied slots (none otherwise). */
  method DeleteSurplus(pop: ClassifierSet, toDelete: int, fuel: nat, p: XCSFConstants.Params, rng: RandomGen.Random)
    returns (deleted: int, exhausted: bool)
    requires pop.Valid() && rng.Valid() && Separate(pop.Contents()) && Living(pop.Contents())
    requires toDelete > 0 ==> Sum(Nums(pop.Contents())) >= 1
    modifies pop, pop.elements, rng, set c | c in pop.Contents()
    ensures pop.Valid() && rng.Valid()
    ensures 0 <= deleted && (toDelete <= 0 ==> deleted == 0) && (toDelete > 0 ==> deleted <= toDelete)
    ensures exhausted <==> toDelete > 0 && deleted < toDelete
    ensures toDelete <= 0 ==> pop.Contents() == old(pop.Contents())
    ensures Sum(Nums(pop.Contents())) == old(Sum(Nums(pop.Contents()))) - deleted
    ensures forall c :: c in old(pop.Contents()) ==> 0 <= c.numerosity <= old(c.numerosity)
    ensures forall c :: c in old(pop.Contents()) ==>
      unchanged(c`fitness, c`experience, c`setSizeEstimate, c`predictionError, c`timestamp)
    ensures pop.Contents() == Without(old(pop.Contents()), ZeroSlots(old(pop.Contents())))
    ensures forall c :: c in pop.Contents() ==> c.numerosity >= 1
  {
    deleted, exhausted := 0, false;
    if toDelete > 0 {
      deleted, exhausted := DeleteWorstClassifiers(pop, toDelete, fuel, rng, p);
    } else {
      WithoutNone(pop.Contents(), ZeroSlots(pop.Contents()));
    }
  }

  /** `population.add(newCl)` when a slot is free. */
  method AppendIfRoom(pop: ClassifierSet, newCl: Classifier, ghost dim: nat, ghost s: seq<Classifier>)
    returns (inserted: bool)
    requires pop.Valid() && Separate(pop.Contents()) && AllValid(pop.Contents(), dim)
    requires newCl.Valid() && newCl.condition.dimension == dim
    requires forall x :: x in pop.Contents() ==>
      x != newCl && x.condition != newCl.condition && x.prediction != newCl.prediction
    modifies pop, pop.elements
    ensures pop.Valid() && Separate(pop.Contents()) && AllValid(pop.Contents(), dim)
    ensures inserted == (old(pop.size) < pop.elements.Length)
    ensures pop.Contents() == old(pop.Contents()) + (if inserted then [newCl] else [])
    ensures Sum(Nums(pop.Contents())) == old(Sum(Nums(pop.Contents()))) + (if inserted then newCl.numerosity else 0)
    ensures Living(old(pop.Contents())) && newCl.numerosity >= 1 && newCl.fitness != 0.0 ==> Living(pop.Contents())
    ensures ZeroSlots(s) == old(ZeroSlots(s))
  {
    inserted := false;
    if pop.size < pop.elements.Length {
      AppendNew(pop, newCl, dim, s);
      inserted := true;
    }
  }

  /** `population.add(newCl)` into a free slot: the classifier joins the
   *  population behind the others and the total rises by its numerosity. */
  method AppendNew(pop: ClassifierSet, newCl: Classifier, ghost dim: nat, ghost s: seq<Classifier>)
    requires pop.Valid() && Separate(pop.Contents()) && AllValid(pop.Contents(), dim)
    requires pop.size < pop.elements.Length
    requires newCl.Valid() && newCl.condition.dimension == dim
    requires forall x :: x in pop.Contents() ==>
      x != newCl && x.condition != newCl.condition && x.prediction != newCl.prediction
    modifies pop, pop.elements
    ensures pop.Valid() && Separate(pop.Contents()) && AllValid(pop.Contents(), dim)
    ensures pop.Contents() == old(pop.Contents()) + [newCl]
    ensures Sum(Nums(pop.Contents())) == old(Sum(Nums(pop.Contents()))) + newCl.numerosity
    ensures Living(old(pop.Contents())) && newCl.numerosity >= 1 && newCl.fitness != 0.0 ==> Living(pop.Contents())
    ensures ZeroSlots(s) == old(ZeroSlots(s))
  {
    ghost var before := Nums(pop.Contents());
    SeparateAppend(pop.Contents(), newCl);
    pop.Add(newCl);
    SumConcat(before, [newCl.numerosity]);
    assert Nums(pop.Contents()) == before + [newCl.numerosity];
  }



  /** The matching part of `match`: the set `members` is emptied and
   *  refilled by `Scan` from the population, whose boxes `F` records. */
  method Collect(proc: Procedure, members: ClassifierSet, pop: ClassifierSet, current: StateDescriptor, n: int,
                 ghost dim: nat, p: XCSFConstants.Params, rng: RandomGen.Random)
    returns (ghost F: map<Classifier, Footprint>, ghost order: seq<XCSFUtils.Entry<Classifier?>>)
    requires members.Valid() && pop.Valid() && rng.Valid()
    requires pop != members && pop.elements != members.elements && pop.size <= members.elements.Length
    requires Separate(pop.Contents()) && AllValid(pop.Contents(), dim) && |current.conditionInput| == dim
    requires proc == Parallel || proc == TimeParallel ==> n >= 1
    modifies members, members.elements, rng, set c | c in pop.Contents() :: c.condition
    ensures members.Valid() && rng.Valid() && pop.Contents() == old(pop.Contents())
    ensures Frozen(old(pop.Contents()), F, dim) && AllValid(old(pop.Contents()), dim)
    ensures proc == Serial || proc == TimeSerial ==>
      members.Contents() == Pick(old(pop.Contents()), F, current.conditionInput, Range(old(pop.size)))
    ensures proc == Parallel || proc == TimeParallel ==>
      members.Contents() == Pick(old(pop.Contents()), F, current.conditionInput, Strides(n, old(pop.size), n))
    ensures proc == Closest ==>
      Boxes(old(pop.Contents()), F, current.conditionInput) &&
      Closeness(members.Contents(), order, old(pop.Contents()), F, current.conditionInput, p)
    ensures proc != Closest ==> forall c :: c in members.Contents() <==>
      c in old(pop.Contents()) && c.Matches(current.conditionInput)
  {
    ghost var s := pop.Contents();
    members.Clear();
    F := Footprints(s, dim, p);
    order := Scan(proc, members, pop, current, n, s, F, dim, p, rng);
    FrozenValid(s, F, dim);
  }

  /** The scan `match` runs for the chosen procedure: closest matching, the
   *  serial scan, or the scans of the `n` threads. */
  method Scan(proc: Procedure, members: ClassifierSet, pop: ClassifierSet, current: StateDescriptor, n: int,
              ghost s: seq<Classifier>, ghost F: map<Classifier, Footprint>, ghost dim: nat,
              p: XCSFConstants.Params, rng: RandomGen.Random)
    returns (ghost order: seq<XCSFUtils.Entry<Classifier?>>)
    requires members.Valid() && members.Contents() == [] && pop.Valid() && pop.Contents() == s
    requires pop != members && pop.elements != members.elements && |s| <= members.elements.Length
    requires rng.Valid() && Separate(s) && Frozen(s, F, dim) && Experienced(s) && |current.conditionInput| == dim
    requires proc == Parallel || proc == TimeParallel ==> n >= 1
    modifies members, members.elements, rng, set c | c in s :: c.condition
    ensures members.Valid() && rng.Valid() && pop.Contents() == s && Frozen(s, F, dim)
    ensures proc == Serial || proc == TimeSerial ==> members.Contents() == Pick(s, F, current.conditionInput, Range(|s|))
    ensures proc == Parallel || proc == TimeParallel ==>
      members.Contents() == Pick(s, F, current.conditionInput, Strides(n, |s|, n))
    ensures proc == Closest ==>
      Boxes(s, F, current.conditionInput) && Closeness(members.Contents(), order, s, F, current.conditionInput, p)
    ensures proc != Closest ==> forall c :: c in members.Contents() <==> c in s && c.Matches(current.conditionInput)
  {
    match proc
    case Closest =>
      order := ClosestMatching(members, pop, current, s, F, dim, p, rng);
    case Serial | TimeSerial =>
      SerialMatching(members, pop, current, s, F, dim);
      ScansMatchAll(s, F, dim, current.conditionInput, 1);
      order := [];
    case Parallel | TimeParallel =>
      ParallelMatching(members, pop, current, n, s, F, dim);
      ScansMatchAll(s, F, dim, current.conditionInput, n);
      order := [];
  }
}
