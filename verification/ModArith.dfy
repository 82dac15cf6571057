/** Powers and congruences of integers, for any modulus. */
module ModArith {

  function Exp(b: int, e: nat): int {
    if e == 0 then 1 else b * Exp(b, e - 1)
  }

  /** The builtin `pow(b, e, m)`. */
  function PowMod(b: int, e: nat, m: nat): (r: nat)
    requires m > 0
    ensures r < m
  {
    Exp(b, e) % m
  }

  function Mul(a: int, b: int): int { a * b }

  /** m divides a. */
  ghost predicate Zero(m: int, a: int) {
    exists k :: a == Mul(k, m)
  }

  ghost predicate Cong(m: int, a: int, b: int) {
    Zero(m, a - b)
  }

  lemma ZeroIntro(m: int, k: int, a: int)
    requires a == k * m
    ensures Zero(m, a)
  {
    assert a == Mul(k, m);
  }

  lemma ZeroLin(m: int, c1: int, a1: int, c2: int, a2: int)
    requires Zero(m, a1) && Zero(m, a2)
    ensures Zero(m, c1 * a1 + c2 * a2)
  {
    var k1 :| a1 == Mul(k1, m);
    var k2 :| a2 == Mul(k2, m);
    assert c1 * (k1 * m) == (c1 * k1) * m && c2 * (k2 * m) == (c2 * k2) * m;
    ZeroIntro(m, c1 * k1 + c2 * k2, c1 * a1 + c2 * a2);
  }

  lemma ZeroScale(m: int, c: int, a: int)
    requires Zero(m, a)
    ensures Zero(m, c * a) && Zero(m, a * c)
  {
    ZeroLin(m, c, a, 0, a);
  }

  lemma ZeroSum(m: int, a: int, b: int)
    requires Zero(m, a) && Zero(m, b)
    ensures Zero(m, a + b) && Zero(m, a - b)
  {
    ZeroLin(m, 1, a, 1, b);
    ZeroLin(m, 1, a, -1, b);
  }

  lemma ZeroSmall(m: int, a: int)
    requires Zero(m, a) && -m < a < m
    ensures a == 0
  {
    var k :| a == Mul(k, m);
    MulBound(k, m);
  }

  lemma MulBound(k: int, m: int)
    requires m > 0
    ensures k >= 1 ==> k * m >= m
    ensures k <= -1 ==> k * m <= -m
  {
    assert k * m == m + (k - 1) * m;
    assert k * m == -m + (k + 1) * m;
  }

  lemma Divide(m: nat, a: nat) returns (k: nat)
    requires m > 0
    ensures a == a % m + k * m
  {
    k := a / m;
  }

  lemma ModFacts(m: int, a: int)
    requires m > 0
    ensures 0 <= a % m < m
    ensures Cong(m, a, a % m) && Cong(m, a % m, a)
    ensures Zero(m, a) <==> a % m == 0
  {
    ZeroIntro(m, a / m, a - a % m);
    ZeroIntro(m, -(a / m), a % m - a);
    if Zero(m, a) {
      ZeroSum(m, a, a - a % m);
      assert a - (a - a % m) == a % m;
      ZeroSmall(m, a % m);
    }
  }

  lemma CongMod(m: int, a: int, b: int)
    requires m > 0
    ensures Cong(m, a, b) <==> a % m == b % m
  {
    ModFacts(m, a);
    ModFacts(m, b);
    if Cong(m, a, b) {
      ZeroSum(m, a - b, b - b % m);
      assert (a - b) + (b - b % m) == a - b % m;
      ZeroSum(m, a - b % m, a - a % m);
      assert (a - b % m) - (a - a % m) == a % m - b % m;
      ZeroSmall(m, a % m - b % m);
    }
    if a % m == b % m {
      ZeroSum(m, a - a % m, b - b % m);
      assert (a - a % m) - (b - b % m) == a - b;
    }
  }

  lemma CongOne(m: int, a: int)
    requires m > 1 && Cong(m, a, 1)
    ensures a % m == 1
  {
    CongMod(m, a, 1);
  }

  lemma CongRefl(m: int, a: int)
    ensures Cong(m, a, a)
  {
    ZeroIntro(m, 0, a - a);
  }

  lemma CongSym(m: int, a: int, b: int)
    requires Cong(m, a, b)
    ensures Cong(m, b, a)
  {
    ZeroScale(m, -1, a - b);
    assert -1 * (a - b) == b - a;
  }

  lemma CongTrans(m: int, a: int, b: int, c: int)
    requires Cong(m, a, b) && Cong(m, b, c)
    ensures Cong(m, a, c)
  {
    ZeroSum(m, a - b, b - c);
    assert (a - b) + (b - c) == a - c;
  }

  lemma CongMul(m: int, a: int, b: int, c: int, d: int)
    requires Cong(m, a, b) && Cong(m, c, d)
    ensures Cong(m, a * c, b * d)
  {
    ZeroLin(m, c, a - b, b, c - d);
    assert c * (a - b) + b * (c - d) == a * c - b * d;
  }

  lemma CongExp(m: int, a: int, b: int, e: nat)
    requires Cong(m, a, b)
    ensures Cong(m, Exp(a, e), Exp(b, e))
  {
    if e == 0 {
      CongRefl(m, 1);
    } else {
      CongExp(m, a, b, e - 1);
      CongMul(m, a, b, Exp(a, e - 1), Exp(b, e - 1));
    }
  }

  lemma {:induction false} ExpAdd(b: int, e: nat, f: nat)
    ensures Exp(b, e + f) == Exp(b, e) * Exp(b, f)
  {
    if e != 0 {
      ExpAdd(b, e - 1, f);
      assert Exp(b, e + f) == b * (Exp(b, e - 1) * Exp(b, f));
    }
  }

  lemma {:induction false} ExpMul(b: int, e: nat, f: nat)
    ensures e * f >= 0 && Exp(b, e * f) == Exp(Exp(b, e), f)
  {
    if f != 0 {
      ExpMul(b, e, f - 1);
      assert e * f == e + e * (f - 1);
      ExpAdd(b, e, e * (f - 1));
    }
  }

  lemma {:induction false} ExpBase(a: int, b: int, e: nat)
    ensures Exp(a * b, e) == Exp(a, e) * Exp(b, e)
  {
    if e != 0 {
      ExpBase(a, b, e - 1);
      Regroup(a, b, Exp(a, e - 1), Exp(b, e - 1));
    }
  }

  lemma Regroup(a: int, b: int, c: int, d: int)
    ensures (a * b) * (c * d) == (a * c) * (b * d)
  {}

  lemma ExpOne(e: nat)
    ensures Exp(1, e) == 1
  {}
}
