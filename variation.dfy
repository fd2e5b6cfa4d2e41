/** The covering, crossover and mutation loops the condition shapes share,
 *  written over the parameter vectors (center, stretch, angles) that each
 *  condition keeps. */
module Variation {
  import opened Geometry
  import RandomGen
  import XCSFConstants

  /** A covering stretch lies in [minConditionStretch,
   *  minConditionStretch + coverConditionRange), or equals the minimum
   *  when the range is empty. */
  ghost predicate CoverStretch(s: real, p: XCSFConstants.Params)
  {
    p.minConditionStretch <= s < p.minConditionStretch + p.coverConditionRange ||
    (p.coverConditionRange == 0.0 && s == p.minConditionStretch)
  }

  /** A draw u in (0, 1) gives a positive covering stretch. */
  lemma {:induction false} CoverDraw(p: XCSFConstants.Params, u: real)
    requires XCSFConstants.Sane(p) && 0.0 < u < 1.0
    ensures CoverStretch(p.minConditionStretch + u * p.coverConditionRange, p)
    ensures p.minConditionStretch + u * p.coverConditionRange > 0.0
  {
    var r := p.coverConditionRange;
    if r > 0.0 {
      MulPositive(u, r);
      MulPositive(1.0 - u, r);
      assert (1.0 - u) * r == r - u * r;
    }
  }

  /** The stretch loop of the covering constructors:
   *  `minConditionStretch + uniRand() * coverConditionRange` per dimension. */
  method CoverStretches(n: nat, p: XCSFConstants.Params, rng: RandomGen.Random) returns (s: seq<real>)
    requires XCSFConstants.Sane(p) && rng.Valid()
    modifies rng
    ensures rng.Valid() && |s| == n && Positive(s)
    ensures forall i :: 0 <= i < n ==> CoverStretch(s[i], p)
  {
    s := [];
    for i := 0 to n
      invariant |s| == i && rng.Valid()
      invariant forall k :: 0 <= k < i ==> CoverStretch(s[k], p) && s[k] > 0.0
    {
      var u := rng.UniRand();
      CoverDraw(p, u);
      s := s + [p.minConditionStretch + u * p.coverConditionRange];
    }
  }

  /** The per-allele mutation probability `pM / alleles`; Java's division by
   *  zero for a zero-dimensional condition is taken as 0 here. */
  function MutationProbability(pM: real, alleles: nat): (r: real)
    ensures alleles > 0 && pM >= 0.0 ==> r >= 0.0
  {
    if alleles > 0 then pM / alleles as real else 0.0
  }

  /** The two values at one index were either kept or exchanged. */
  ghost predicate Exchanged(a: real, b: real, a0: real, b0: real)
  {
    (a == a0 && b == b0) || (a == b0 && b == a0)
  }

  /** The result of exchanging the components of `a0` and `b0` at the indices
   *  in `flipped` and keeping all others. */
  ghost predicate FlippedAt(a: seq<real>, b: seq<real>, a0: seq<real>, b0: seq<real>, flipped: set<int>)
  {
    |a| == |b| == |a0| == |b0| &&
    (forall i :: i in flipped ==> 0 <= i < |a0|) &&
    (forall i :: 0 <= i < |a0| ==>
      if i in flipped then a[i] == b0[i] && b[i] == a0[i] else a[i] == a0[i] && b[i] == b0[i])
  }

  /** One crossover loop: for each index, a fair coin decides whether
   *  `XCSFUtils.flip` exchanges the two components. `any` tells whether at
   *  least one exchange happened (the `changed` flag of the rotating
   *  conditions). */
  method SwapSome(a: seq<real>, b: seq<real>, rng: RandomGen.Random)
    returns (a2: seq<real>, b2: seq<real>, any: bool, ghost flipped: set<int>)
    requires |a| == |b| && rng.Valid()
    modifies rng
    ensures rng.Valid()
    ensures FlippedAt(a2, b2, a, b, flipped)
    ensures any <==> flipped != {}
  {
    a2, b2, any, flipped := a, b, false, {};
    for i := 0 to |a|
      invariant rng.Valid() && |a2| == |b2| == |a|
      invariant forall k :: k in flipped ==> 0 <= k < i
      invariant forall k :: 0 <= k < |a| ==>
        if k in flipped then a2[k] == b[k] && b2[k] == a[k] else a2[k] == a[k] && b2[k] == b[k]
      invariant any <==> flipped != {}
    {
      var coin := rng.UniRand();
      if coin < 0.5 {
        any := true;
        a2, b2 := a2[i := b2[i]], b2[i := a2[i]];
        flipped := flipped + {i};
      }
    }
  }

  /** An exchange at chosen indices keeps every pair of values, hence the
   *  pooled values of both vectors. */
  lemma {:induction false} FlippedPooled(a: seq<real>, b: seq<real>, a0: seq<real>, b0: seq<real>, flipped: set<int>)
    requires FlippedAt(a, b, a0, b0, flipped)
    ensures forall i :: 0 <= i < |a| ==> Exchanged(a[i], b[i], a0[i], b0[i])
    ensures multiset(a) + multiset(b) == multiset(a0) + multiset(b0)
  {
    if |a| > 0 {
      var n := |a| - 1;
      FlippedPooled(a[..n], b[..n], a0[..n], b0[..n], flipped - {n});
      PoolLast(a, b, a0, b0);
    }
  }

  /** Extending two pooled prefixes by one exchanged or kept pair keeps
   *  them pooled. */
  lemma PoolLast(a: seq<real>, b: seq<real>, a0: seq<real>, b0: seq<real>)
    requires |a| == |b| == |a0| == |b0| > 0
    requires var n := |a| - 1;
      multiset(a[..n]) + multiset(b[..n]) == multiset(a0[..n]) + multiset(b0[..n]) &&
      Exchanged(a[n], b[n], a0[n], b0[n])
    ensures multiset(a) + multiset(b) == multiset(a0) + multiset(b0)
  {
    var n := |a| - 1;
    LastSplit(a);
    LastSplit(b);
    LastSplit(a0);
    LastSplit(b0);
    assert multiset{a[n]} + multiset{b[n]} == multiset{a0[n]} + multiset{b0[n]};
    PoolSums(multiset(a[..n]), multiset(b[..n]), multiset(a0[..n]), multiset(b0[..n]),
             multiset{a[n]}, multiset{b[n]}, multiset{a0[n]}, multiset{b0[n]});
  }

  /** A non-empty vector pools its prefix and its last component. */
  lemma LastSplit(x: seq<real>)
    requires |x| > 0
    ensures multiset(x) == multiset(x[..|x| - 1]) + multiset{x[|x| - 1]}
  {
    assert x == x[..|x| - 1] + [x[|x| - 1]];
  }

  /** Equal pooled parts give equal pooled wholes. */
  lemma PoolSums(p: multiset<real>, q: multiset<real>, p0: multiset<real>, q0: multiset<real>,
                 u: multiset<real>, v: multiset<real>, u0: multiset<real>, v0: multiset<real>)
    requires p + q == p0 + q0 && u + v == u0 + v0
    ensures (p + u) + (q + v) == (p0 + u0) + (q0 + v0)
  {
    calc {
      (p + u) + (q + v);
      (p + q) + (u + v);
      (p0 + q0) + (u0 + v0);
      (p0 + u0) + (q0 + v0);
    }
  }

  /** Without any exchange both vectors are unchanged. */
  lemma {:induction false} NoFlipUnchanged(a: seq<real>, b: seq<real>, a0: seq<real>, b0: seq<real>)
    requires FlippedAt(a, b, a0, b0, {})
    ensures a == a0 && b == b0
  {
  }

  /** A mutated center component is unchanged, or lies in [0, 1] and, when
   *  it started there, within one stretch of its old value. */
  ghost predicate CenterMutated(c: real, c0: real, s0: real)
  {
    c == c0 ||
    (XCSFConstants.LowerBound <= c <= XCSFConstants.UpperBound &&
     (XCSFConstants.LowerBound <= c0 <= XCSFConstants.UpperBound ==> Abs(c - c0) < s0))
  }

  ghost predicate AllCenterMutated(c: seq<real>, c0: seq<real>, s0: seq<real>)
  {
    |c| == |c0| == |s0| && forall k :: 0 <= k < |c| ==> CenterMutated(c[k], c0[k], s0[k])
  }

  /** A center moved by `rnd·s` with rnd in (-1, 1), then clamped, is a
   *  mutated center. */
  lemma {:induction false} MoveWithinStretch(c: real, rnd: real, s: real)
    requires -1.0 < rnd < 1.0 && s > 0.0
    ensures CenterMutated(Clamp(c + rnd * s), c, s)
  {
    if XCSFConstants.LowerBound <= c <= XCSFConstants.UpperBound {
      ClampCloser(c, c + rnd * s);
      FractionBelow(rnd, s);
      assert (c + rnd * s) - c == rnd * s;
    }
  }

  /** One center mutation: `c += (2u - 1)·s`, then the clamp into [0, 1]. */
  method MoveCenter(c: real, s: real, rng: RandomGen.Random) returns (moved: real)
    requires s > 0.0 && rng.Valid()
    modifies rng
    ensures rng.Valid() && CenterMutated(moved, c, s)
  {
    var rnd := ShiftFactor(rng);
    moved := Clamp(c + rnd * s);
    MoveWithinStretch(c, rnd, s);
  }

  /** Setting one still unmutated component to a mutated value keeps all
   *  components mutated. */
  lemma {:induction false} CenterStep(c: seq<real>, c0: seq<real>, s0: seq<real>, i: nat, x: real)
    requires AllCenterMutated(c, c0, s0) && i < |c|
    requires CenterMutated(x, c[i], s0[i]) && c[i] == c0[i]
    ensures AllCenterMutated(c[i := x], c0, s0)
  {
  }

  /** The center loop of the axis-parallel conditions' mutation: with
   *  probability `probability` a component moves by `(2u - 1)·stretch` and
   *  is clamped to [0, 1]. */
  method MutateCenters(center: seq<real>, stretch: seq<real>, probability: real, rng: RandomGen.Random)
    returns (c: seq<real>)
    requires |center| == |stretch| && Positive(stretch) && rng.Valid()
    modifies rng
    ensures rng.Valid() && AllCenterMutated(c, center, stretch)
  {
    c := center;
    for i := 0 to |center|
      invariant rng.Valid() && AllCenterMutated(c, center, stretch)
      invariant forall k :: i <= k < |c| ==> c[k] == center[k]
    {
      var u := rng.UniRand();
      if u < probability {
        var moved := MoveCenter(c[i], stretch[i], rng);
        CenterStep(c, center, stretch, i, moved);
        c := c[i := moved];
      }
    }
  }

  /** The stretch vector `s` is `s0` with the components in `mutated`
   *  scaled into (s0/2, 2·s0) and all others kept. */
  ghost predicate StretchesMutated(s: seq<real>, s0: seq<real>, mutated: set<int>)
  {
    |s| == |s0| &&
    (forall i :: i in mutated ==> 0 <= i < |s0|) &&
    (forall i :: 0 <= i < |s0| ==> if i in mutated then ScaledWithin(s[i], s0[i]) else s[i] == s0[i])
  }

  /** The stretch loop of every condition's mutation: with probability
   *  `probability` a stretch is multiplied by a factor in (0.5, 2). `any`
   *  tells whether some stretch was mutated. */
  method MutateStretches(stretch: seq<real>, probability: real, rng: RandomGen.Random)
    returns (s: seq<real>, any: bool, ghost mutated: set<int>)
    requires Positive(stretch) && rng.Valid()
    modifies rng
    ensures rng.Valid() && Positive(s)
    ensures StretchesMutated(s, stretch, mutated)
    ensures any <==> mutated != {}
  {
    s, any, mutated := stretch, false, {};
    for i := 0 to |stretch|
      invariant rng.Valid() && StretchesMutated(s, stretch, mutated)
      invariant forall k :: k in mutated ==> k < i
      invariant any <==> mutated != {}
    {
      var u := rng.UniRand();
      if u < probability {
        any := true;
        var rnd := StretchFactor(rng);
        MutateOne(s, stretch, mutated, i, rnd);
        s := s[i := s[i] * rnd];
        mutated := mutated + {i};
      }
    }
    assert forall k :: 0 <= k < |s| ==> s[k] > 0.0;
  }

  /** Scaling one stretch that was not mutated yet by a factor in (0.5, 2)
   *  other than 1 mutates it. */
  lemma MutateOne(s: seq<real>, s0: seq<real>, mutated: set<int>, i: int, f: real)
    requires StretchesMutated(s, s0, mutated) && Positive(s0)
    requires 0 <= i < |s0| && i !in mutated && 0.5 < f < 2.0 && f != 1.0
    ensures StretchesMutated(s[i := s[i] * f], s0, mutated + {i})
  {
    ScaledPositive(s0[i], f);
  }

  /** Scaling by a factor other than 1 is visible: a stretch vector changes
   *  exactly when some component was mutated. */
  lemma {:induction false} StretchChangedIffMutated(s: seq<real>, s0: seq<real>, mutated: set<int>)
    requires StretchesMutated(s, s0, mutated) && Positive(s0)
    ensures s != s0 <==> mutated != {}
  {
    if s == s0 {
      assert forall i :: i !in mutated;
      assert mutated == {};
    }
  }
}
