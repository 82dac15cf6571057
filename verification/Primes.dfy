/** Prime numbers: Euclid's lemma, Fermat's little theorem and Pocklington's criterion. */
module Primes {
  import opened ModArith

  ghost predicate Prime(p: int) {
    p >= 2 && forall k :: 1 < k < p ==> !Zero(k, p)
  }

  /** Extended Euclid: g = s * a + t * b divides both. */
  lemma Bezout(a: nat, b: nat) returns (g: nat, s: int, t: int)
    requires a > 0 || b > 0
    ensures g > 0 && Zero(g, a) && Zero(g, b) && s * a + t * b == g
    decreases b
  {
    if b == 0 {
      g, s, t := a, 1, 0;
      ZeroIntro(a, 1, a);
      ZeroIntro(a, 0, 0);
    } else {
      var s', t';
      g, s', t' := Bezout(b, a % b);
      ZeroLin(g, a / b, b, 1, a % b);
      s, t := t', s' - t' * (a / b);
      calc {
        s * a + t * b;
        t' * a + s' * b - t' * ((a / b) * b);
        s' * b + t' * (a - (a / b) * b);
        { assert a - (a / b) * b == a % b; }
        g;
      }
    }
  }

  lemma DivisorBound(g: int, a: int)
    requires Zero(g, a) && g > 0 && a > 0
    ensures g <= a
  {
    var k :| a == Mul(k, g);
    MulBound(k, g);
    assert k != 0;
  }

  lemma ZeroTrans(a: int, b: int, c: int)
    requires Zero(a, b) && Zero(b, c)
    ensures Zero(a, c)
  {
    var k :| c == Mul(k, b);
    ZeroScale(a, k, b);
  }

  /** A number that a prime does not divide is invertible modulo it. */
  lemma Inverse(p: int, a: int) returns (s: int)
    requires Prime(p) && !Zero(p, a)
    ensures Cong(p, s * a, 1)
  {
    var r := a % p;
    ModFacts(p, a);
    var g, s', t := Bezout(r, p);
    DivisorBound(g, p);
    if g == p { CongZero(p, a, r); }
    s := s';
    ZeroIntro(p, -t, s * r - 1);
    CongSym(p, a, r);
    InverseResidue(p, s, r, a);
  }

  lemma InverseResidue(f: nat, a: int, s: int, u: int)
    requires Cong(f, a * s, 1) && Cong(f, s, u)
    ensures Cong(f, a * u, 1)
  {
    ZeroLin(f, 1, a * s - 1, -a, s - u);
    assert 1 * (a * s - 1) + -a * (s - u) == a * u - 1;
  }

  lemma CongZero(p: int, a: int, r: int)
    requires Cong(p, a, r) && Zero(p, r)
    ensures Zero(p, a)
  {
    ZeroSum(p, a - r, r);
    assert a - r + r == a;
  }

  lemma Euclid(p: int, a: int, b: int)
    requires Prime(p) && Zero(p, a * b)
    ensures Zero(p, a) || Zero(p, b)
  {
    if !Zero(p, a) {
      var s := Inverse(p, a);
      ZeroLin(p, s, a * b, -b, s * a - 1);
      assert s * (a * b) + -b * (s * a - 1) == b;
    }
  }

  // ---- Fermat's little theorem, by the binomial theorem ----

  function Binomial(n: nat, k: nat): nat {
    if k == 0 then 1 else if n == 0 then 0 else Binomial(n - 1, k - 1) + Binomial(n - 1, k)
  }

  lemma {:induction false} BinomialHigh(n: nat, k: nat)
    requires k > n
    ensures Binomial(n, k) == 0
  {
    if n != 0 {
      BinomialHigh(n - 1, k - 1);
      BinomialHigh(n - 1, k);
    }
  }

  lemma {:induction false} BinomialDiagonal(n: nat)
    ensures Binomial(n, n) == 1
  {
    if n != 0 {
      BinomialDiagonal(n - 1);
      BinomialHigh(n - 1, n);
    }
  }

  lemma {:induction false} BinomialAbsorb(n: nat, k: nat)
    requires n > 0 && k > 0
    ensures k * Binomial(n, k) == n * Binomial(n - 1, k - 1)
  {
    if n == 1 {
      if k > 1 { BinomialHigh(1, k); BinomialHigh(0, k - 1); }
      else { assert Binomial(0, 0) == 1 && Binomial(0, 1) == 0; }
    } else {
      BinomialAbsorb(n - 1, k);
      if k == 1 {
        assert Binomial(n, 1) == 1 + Binomial(n - 1, 1);
      } else {
        BinomialAbsorb(n - 1, k - 1);
        var a, b, c := Binomial(n - 2, k - 2), Binomial(n - 2, k - 1), Binomial(n - 1, k - 1);
        AbsorbStep(n, k, a, b, c, Binomial(n - 1, k));
      }
    }
  }

  lemma AbsorbStep(n: int, k: int, a: int, b: int, c: int, d: int)
    requires c == a + b && (k - 1) * c == (n - 1) * a && k * d == (n - 1) * b
    ensures k * (c + d) == n * c
  {
    assert (n - 1) * c == (n - 1) * a + (n - 1) * b;
    assert k * (c + d) == (k - 1) * c + c + k * d;
  }

  /** The first j terms of the expansion of (1 + a)^n. */
  function Expansion(n: nat, a: int, j: nat): int {
    if j == 0 then 0 else Expansion(n, a, j - 1) + Binomial(n, j - 1) * Exp(a, j - 1)
  }

  lemma Distribute(a: int, b: int, b': int, e: int, s: int)
    ensures (b + b') * (a * e) + a * s == b' * (a * e) + a * (s + b * e)
  {}

  lemma {:induction false} ExpansionStep(n: nat, a: int, j: nat)
    ensures Expansion(n + 1, a, j + 1) == Expansion(n, a, j + 1) + a * Expansion(n, a, j)
  {
    if j == 0 {
      assert Expansion(n + 1, a, 1) == Expansion(n + 1, a, 0) + 1 * Exp(a, 0);
      assert Expansion(n, a, 1) == Expansion(n, a, 0) + 1 * Exp(a, 0);
    } else {
      ExpansionStep(n, a, j - 1);
      var b, b', e := Binomial(n, j - 1), Binomial(n, j), Exp(a, j - 1);
      assert Exp(a, j) == a * e;
      Distribute(a, b, b', e, Expansion(n, a, j - 1));
    }
  }

  lemma {:induction false} BinomialTheorem(n: nat, a: int)
    ensures Expansion(n, a, n + 1) == Exp(1 + a, n)
  {
    if n == 0 {
      assert Expansion(0, a, 1) == Expansion(0, a, 0) + 1 * Exp(a, 0);
    } else {
      ExpansionStep(n - 1, a, n);
      BinomialTheorem(n - 1, a);
      BinomialHigh(n - 1, n);
      var e := Expansion(n - 1, a, n);
      assert Expansion(n - 1, a, n + 1) == e + 0 * Exp(a, n);
      assert e + a * e == (1 + a) * e;
    }
  }

  /** Modulo a prime, only the two outer terms of the p-th expansion survive. */
  lemma {:induction false} ExpansionModPrime(p: nat, a: int, j: nat)
    requires Prime(p) && 1 <= j <= p
    ensures Cong(p, Expansion(p, a, j), 1)
  {
    if j == 1 {
      assert Expansion(p, a, 1) == Expansion(p, a, 0) + 1 * Exp(a, 0);
      CongRefl(p, 1);
    } else {
      ExpansionModPrime(p, a, j - 1);
      var k := j - 1;
      BinomialAbsorb(p, k);
      ZeroIntro(p, Binomial(p - 1, k - 1), k * Binomial(p, k));
      Euclid(p, k, Binomial(p, k));
      if Zero(p, k) { ZeroSmall(p, k); }
      ZeroLin(p, Exp(a, k), Binomial(p, k), 1, Expansion(p, a, k) - 1);
    }
  }

  lemma {:induction false} Frobenius(p: nat, a: nat)
    requires Prime(p)
    ensures Cong(p, Exp(a, p), a)
  {
    if a == 0 {
      assert Exp(0, p) == 0 * Exp(0, p - 1) == 0;
      CongRefl(p, 0);
    } else {
      Frobenius(p, a - 1);
      BinomialTheorem(p, a - 1);
      BinomialDiagonal(p);
      ExpansionModPrime(p, a - 1, p);
      var e := Exp(a - 1, p);
      assert Expansion(p, a - 1, p + 1) == Expansion(p, a - 1, p) + 1 * e;
      ZeroSum(p, Expansion(p, a - 1, p) - 1, e - (a - 1));
      assert Exp(1 + (a - 1), p) == Exp(a, p);
    }
  }

  lemma Fermat(p: nat, a: int)
    requires Prime(p) && !Zero(p, a)
    ensures Cong(p, Exp(a, p - 1), 1)
  {
    var r, e := a % p, Exp(a % p, p - 1);
    ModFacts(p, a);
    Frobenius(p, r);
    assert Zero(p, r * (e - 1)) by {
      assert Exp(r, p) - r == r * (e - 1);
    }
    Euclid(p, r, e - 1);
    if Zero(p, r) { CongZero(p, a, r); }
    CongExp(p, a, r, p - 1);
    CongTrans(p, Exp(a, p - 1), e, 1);
  }

  // ---- Pocklington's criterion ----

  /** An element of prime order f modulo r makes f a divisor of r - 1. */
  lemma OrderDivides(r: nat, f: nat, b: int)
    requires Prime(r) && Prime(f) && Cong(r, Exp(b, f), 1) && !Cong(r, b, 1)
    ensures Zero(f, r - 1)
  {
    if !Zero(f, r - 1) {
      var u, k := PositiveInverse(f, r - 1);
      if Zero(r, b) {
        ZeroScale(r, Exp(b, f - 1), b);
        ZeroSum(r, Exp(b, f), Exp(b, f) - 1);
        assert Exp(b, f) - (Exp(b, f) - 1) == 1;
        ZeroSmall(r, 1);
        assert false;
      }
      Fermat(r, b);
      PowerOfOne(r, b, r - 1, u);
      PowerOfOne(r, b, f, k);
      assert u * (r - 1) == (r - 1) * u && k * f == f * k;
      assert Exp(b, 1 + f * k) == b * Exp(b, f * k);
      CongRefl(r, b);
      CongMul(r, b, b, Exp(b, f * k), 1);
      CongSym(r, b * Exp(b, f * k), b * 1);
      CongTrans(r, b, b * Exp(b, f * k), 1);
    }
  }

  lemma PowerOfOne(r: nat, b: int, e: nat, k: nat)
    requires r > 0 && Cong(r, Exp(b, e), 1)
    ensures e * k >= 0 && Cong(r, Exp(b, e * k), 1)
  {
    ExpMul(b, e, k);
    CongExp(r, Exp(b, e), 1, k);
    ExpOne(k);
  }

  lemma InverseOf(f: nat, a: nat) returns (u: nat, k: nat)
    requires Prime(f) && a % f != 0
    ensures u * a == 1 + k * f
  {
    ModFacts(f, a);
    u, k := PositiveInverse(f, a);
  }

  lemma PositiveInverse(f: nat, a: nat) returns (u: nat, k: nat)
    requires Prime(f) && a > 0 && !Zero(f, a)
    ensures u * a == 1 + k * f
  {
    var s := Inverse(f, a);
    u := s % f;
    ReducedInverse(f, a, s);
    k := Quotient(f, a, u);
  }

  lemma ReducedInverse(f: nat, a: nat, s: int)
    requires f > 0 && Cong(f, s * a, 1)
    ensures Cong(f, (s % f) * a, 1)
  {
    ModFacts(f, s);
    assert s * a == a * s && (s % f) * a == a * (s % f);
    InverseResidue(f, a, s, s % f);
  }

  lemma Quotient(f: nat, a: nat, u: nat) returns (k: nat)
    requires f > 1 && a > 0 && Cong(f, u * a, 1)
    ensures u * a == 1 + k * f
  {
    var k' :| u * a - 1 == Mul(k', f);
    if u == 0 { ZeroSmall(f, -1); assert false; }
    ProductPositive(u, a);
    MulBound(k', f);
    k := k';
  }

  lemma ProductPositive(u: int, a: int)
    requires u >= 1 && a >= 1
    ensures u * a >= 1
  {}

  ghost predicate OrderedFactors(n: int, f: int) {
    forall r: nat :: Prime(r) && Zero(r, n) ==> Zero(f, r - 1)
  }

  lemma Pocklington(n: nat, f: nat, b: int, inv: int)
    requires n > 1 && Prime(f) && PowMod(b, f, n) == 1 && (inv * (b - 1)) % n == 1
    ensures OrderedFactors(n, f)
  {
    ModFacts(n, Exp(b, f));
    ModFacts(n, inv * (b - 1));
    forall r: nat | Prime(r) && Zero(r, n)
      ensures Zero(f, r - 1)
    {
      ZeroTrans(r, n, Exp(b, f) - 1);
      ZeroTrans(r, n, inv * (b - 1) - 1);
      if Cong(r, b, 1) {
        ZeroScale(r, inv, b - 1);
        ZeroSum(r, inv * (b - 1), inv * (b - 1) - 1);
        assert inv * (b - 1) - (inv * (b - 1) - 1) == 1;
        ZeroSmall(r, 1);
        assert false;
      }
      OrderDivides(r, f, b);
    }
  }

  /** The least divisor of n above 1 is prime, and at most the square root of n if n is composite. */
  lemma LeastDivisor(n: nat) returns (r: nat)
    requires n >= 2
    ensures Prime(r) && Zero(r, n) && (Prime(n) || r * r <= n)
  {
    r := 2;
    ZeroIntro(n, 1, n);
    while !Zero(r, n)
      invariant 2 <= r <= n && forall k :: 1 < k < r ==> !Zero(k, n)
      decreases n - r
    {
      r := r + 1;
    }
    forall k | 1 < k < r
      ensures !Zero(k, r)
    {
      if Zero(k, r) { ZeroTrans(k, r, n); }
    }
    if !Prime(n) {
      var k :| n == Mul(k, r);
      assert r != n;
      CofactorBound(n, k, r);
      ZeroIntro(k, r, n);
    }
  }

  lemma CofactorBound(n: int, k: int, r: int)
    requires n == k * r && n > r >= 2
    ensures k >= 2
    ensures k >= r ==> r * r <= n
  {
    MulBound(k, r);
    assert k == 1 ==> k * r == r;
    if k >= r { assert k * r == r * r + (k - r) * r; ProductNonNegative(k - r, r); }
  }

  lemma ProductNonNegative(a: int, b: int)
    requires a >= 0 && b >= 0
    ensures a * b >= 0
  {}

  /** If every prime factor of n is 1 modulo f, one of them is 1 + k * f with a small k, or n is prime. */
  lemma PrimeByOrder(n: nat, f: nat, bound: nat)
    requires n >= 2 && f >= 1 && OrderedFactors(n, f)
    requires (bound * f + 1) * (bound * f + 1) > n
    requires forall k: nat :: 1 <= k < bound ==> !Zero(Mul(k, f) + 1, n)
    ensures Prime(n)
  {
    var r := LeastDivisor(n);
    if !Prime(n) {
      var k :| r - 1 == Mul(k, f);
      MulBound(k, f);
      assert r == Mul(k, f) + 1;
      if k >= bound { SquareMonotone(bound, k, f); }
    }
  }

  lemma SquareMonotone(a: nat, k: nat, f: nat)
    requires k >= a
    ensures (k * f + 1) * (k * f + 1) >= (a * f + 1) * (a * f + 1)
  {
    var x, y := k * f + 1, a * f + 1;
    assert x - y == (k - a) * f;
    ProductNonNegative(k - a, f);
    ProductNonNegative(a, f);
    ProductNonNegative(x - y, x + y);
    assert (x - y) * (x + y) == x * x - y * y;
  }

  /** Two coprime conditions combine. */
  lemma OrderedFactorsProduct(n: nat, f: nat, g: nat)
    requires Prime(f) && Prime(g) && f != g && OrderedFactors(n, f) && OrderedFactors(n, g)
    ensures OrderedFactors(n, f * g)
  {
    forall r: nat | Prime(r) && Zero(r, n)
      ensures Zero(f * g, r - 1)
    {
      CoprimeFactors(f, g, r - 1);
    }
  }

  lemma CoprimeFactors(f: nat, g: nat, m: int)
    requires Prime(f) && Prime(g) && f != g && Zero(f, m) && Zero(g, m)
    ensures Zero(f * g, m)
  {
    var k :| m == Mul(k, f);
    Euclid(g, k, f);
    if g > f && Zero(g, f) { DivisorBound(g, f); }
    ProductFactor(f, g, k, m);
  }

  lemma ProductFactor(f: int, g: int, k: int, m: int)
    requires Zero(g, k) && m == k * f
    ensures Zero(f * g, m)
  {
    var j :| k == Mul(j, g);
    assert (j * g) * f == j * (f * g);
    ZeroIntro(f * g, j, m);
  }
}
