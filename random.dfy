/** The Park-Miller "minimal standard" generator of `XCSFUtils.Random`,
 *  computed with Schrage's decomposition so that no intermediate product
 *  leaves the range of a 64-bit `long`. The Java class keeps its seed in a
 *  static field; here the generator is an object passed to every operation
 *  that draws a number. */
module RandomGen {

  const M: int := 2147483647   // 2^31 - 1, a prime
  const A: int := 16807        // 7^5
  const Q: int := 127773       // M / A
  const R: int := 2836         // M % A
  const InitialSeed: int := 101

  /** Java's `/` on `long`: truncation toward zero. */
  function JavaDiv(a: int, b: int): (r: int)
    requires b > 0
    ensures a >= 0 ==> r == a / b
  {
    if a >= 0 then a / b else -((-a) / b)
  }

  /** Java's `%` on `long`: the remainder has the sign of the dividend. */
  function JavaRem(a: int, b: int): (r: int)
    requires b > 0
    ensures a == b * JavaDiv(a, b) + r
    ensures a >= 0 ==> r == a % b
  {
    a - b * JavaDiv(a, b)
  }

  /** The seeds the generator is meant to run on (the configuration
   *  documents that the initial seed must lie in [1, 2^31 - 2]). */
  predicate SeedInRange(s: int) { 1 <= s < M }

  /** One Schrage step exactly as the source computes it. */
  function SchrageStep(s: int): int
  {
    var hi := JavaDiv(s, Q);
    var lo := JavaRem(s, Q);
    var test := A * lo - R * hi;
    if test > 0 then test else test + M
  }

  /** The Lehmer recurrence the generator is meant to implement. */
  function Lehmer(s: int): int { (A * s) % M }

  lemma {:induction false} QandR()
    ensures Q == M / A && R == M % A && A * Q + R == M
  {
  }

  /** 16807 is invertible modulo M; the inverse is 1407677000. */
  lemma {:induction false} AInverse()
    ensures (A * 1407677000) % M == 1
  {
  }

  /** Division by a positive modulus has a unique quotient and remainder. */
  lemma {:induction false} DivModUnique(a: int, m: int, d: int, r: int)
    requires m > 0 && a == m * d + r && 0 <= r < m
    ensures a % m == r
  {
    var d0 := a / m;
    var r0 := a % m;
    assert m * (d - d0) == r0 - r;
    if d - d0 >= 1 {
      assert false;
    } else if d - d0 <= -1 {
      assert false;
    }
  }

  lemma {:induction false} MulMod(a: int, b: int, m: int)
    requires m > 0
    ensures (a * b) % m == ((a % m) * b) % m
  {
    var q := a / m;
    var r := a % m;
    assert a * b == m * (q * b) + r * b;
    ModShift(r * b, q * b, m);
  }

  lemma {:induction false} ModShift(x: int, k: int, m: int)
    requires m > 0
    ensures (m * k + x) % m == x % m
  {
    var q := x / m;
    var r := x % m;
    assert m * k + x == m * (k + q) + r;
    DivModUnique(m * k + x, m, k + q, r);
  }

  /** Multiplying the next seed by the inverse of A gives back the seed. */
  lemma {:induction false} LehmerInverse(s: int)
    requires SeedInRange(s)
    ensures (Lehmer(s) * 1407677000) % M == s
  {
    var inv := 1407677000;
    MulMod(A * s, inv, M);
    assert A * s * inv == (A * inv) * s;
    MulMod(A * inv, s, M);
    AInverse();
  }

  /** No seed in range is sent to a multiple of M, because A is invertible. */
  lemma {:induction false} LehmerNonZero(s: int)
    requires SeedInRange(s)
    ensures Lehmer(s) != 0
  {
    LehmerInverse(s);
  }

  /** Schrage's split of A·s: M times the quotient by Q plus a test value
   *  strictly between -M and M. */
  lemma {:induction false} SchrageSplit(s: int)
    requires SeedInRange(s)
    ensures A * s == M * (s / Q) + (A * (s % Q) - R * (s / Q))
    ensures -M < A * (s % Q) - R * (s / Q) < M
  {
    var hi := s / Q;
    var lo := s % Q;
    var test := A * lo - R * hi;
    QandR();
    assert s == Q * hi + lo;
    assert A * s == M * hi + test by {
      calc {
        A * s;
        A * (Q * hi + lo);
        (A * Q) * hi + A * lo;
        (M - R) * hi + A * lo;
        M * hi + test;
      }
    }
    assert 0 <= hi <= A;
    assert 0 <= A * lo <= A * (Q - 1);
    assert 0 <= R * hi <= R * A;
  }

  /** Schrage's decomposition computes the Lehmer recurrence and keeps the
   *  seed in range. */
  lemma {:induction false} SchrageIsLehmer(s: int)
    requires SeedInRange(s)
    ensures SchrageStep(s) == Lehmer(s)
    ensures SeedInRange(SchrageStep(s))
  {
    var hi := s / Q;
    var test := A * (s % Q) - R * hi;
    SchrageSplit(s);
    LehmerNonZero(s);
    if test > 0 {
      ModShift(test, hi, M);
      assert (A * s) % M == test;
    } else {
      ModShift(test + M, hi - 1, M);
      assert A * s == M * (hi - 1) + (test + M);
      assert (A * s) % M == test + M;
    }
  }

  /** Seed 0 is a fixed point of the step after one draw: the generator is
   *  stuck at M and returns 1.0 forever. This is why the seed must be
   *  configured inside [1, 2^31 - 2]. */
  lemma {:induction false} ZeroSeedIsStuck()
    ensures SchrageStep(0) == M
    ensures SchrageStep(M) == M
  {
    QandR();
  }

  class Random {
    var seed: int

    ghost predicate Valid()
      reads this
    {
      SeedInRange(seed)
    }

    constructor ()
      ensures seed == InitialSeed
      ensures Valid()
    {
      seed := InitialSeed;
    }

    method SetSeed(s: int)
      modifies this
      ensures seed == s
    {
      seed := s;
    }

    function GetSeed(): (s: int)
      reads this
      ensures s == seed
    {
      seed
    }

    /** Draws the next number: the seed moves one step along the Lehmer
     *  recurrence and the result is the new seed scaled into (0, 1). */
    method UniRand() returns (u: real)
      modifies this
      ensures seed == SchrageStep(old(seed))
      ensures u == seed as real / M as real
      ensures old(Valid()) ==> Valid() && seed == Lehmer(old(seed))
      ensures old(Valid()) ==> 0.0 < u < 1.0
    {
      var hi := JavaDiv(seed, Q);
      var lo := JavaRem(seed, Q);
      var test := A * lo - R * hi;
      if test > 0 {
        seed := test;
      } else {
        seed := test + M;
      }
      if SeedInRange(old(seed)) {
        SchrageIsLehmer(old(seed));
      }
      u := seed as real / M as real;
    }
  }
}
