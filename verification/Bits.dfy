/** The binary digits of a number, lowest first. */
module Bits {
  import opened ModArith

  predicate Bit(n: nat, i: nat) {
    if i == 0 then n % 2 == 1 else Bit(n / 2, i - 1)
  }

  /** Numbers below the same power of two with the same digits are equal. */
  lemma {:induction false} BitsDetermine(a: nat, b: nat, e: nat)
    requires a < Exp(2, e) && b < Exp(2, e) && forall i :: 0 <= i < e ==> Bit(a, i) == Bit(b, i)
    ensures a == b
  {
    if e > 0 {
      assert Bit(a, 0) == Bit(b, 0);
      forall i | 0 <= i < e - 1
        ensures Bit(a / 2, i) == Bit(b / 2, i)
      {
        assert Bit(a, i + 1) == Bit(b, i + 1);
      }
      BitsDetermine(a / 2, b / 2, e - 1);
    }
  }

  /** Reducing modulo a power of two keeps the digits below it. */
  lemma {:induction false} BitsBelow(n: nat, e: nat, i: nat)
    requires Exp(2, e) > 0
    ensures Bit(n % Exp(2, e), i) == (i < e && Bit(n, i))
  {
    if e == 0 {
      BitsOfZero(i);
    } else {
      ExpPositive(e - 1);
      HalfReduced(n, Exp(2, e - 1));
      if i > 0 { BitsBelow(n / 2, e - 1, i - 1); }
    }
  }

  lemma {:induction false} ExpPositive(e: nat)
    ensures Exp(2, e) > 0
  {
    if e > 0 { ExpPositive(e - 1); }
  }

  lemma {:induction false} BitsOfZero(i: nat)
    ensures !Bit(0, i)
  {
    if i > 0 { BitsOfZero(i - 1); }
  }

  lemma HalfReduced(n: nat, m: nat)
    requires m > 0
    ensures n % (2 * m) / 2 == n / 2 % m && n % (2 * m) % 2 == n % 2
  {
    var k := n / (2 * m);
    var r := n % (2 * m);
    assert n == 2 * m * k + r;
    assert n == 2 * (m * k) + r;
    assert n / 2 == m * k + r / 2 && n % 2 == r % 2;
    RemainderOf(n / 2, m, k, r / 2);
  }

  lemma RemainderOf(n: nat, m: nat, k: nat, r: nat)
    requires n == m * k + r && r < m
    ensures n % m == r
  {
    ModFacts(m, n);
    ZeroIntro(m, k, n - r);
    ZeroSum(m, n - r, n - n % m);
    assert (n - r) - (n - n % m) == n % m - r;
    ZeroSmall(m, n % m - r);
  }

  /** Adding a power of two to a number below it sets that one digit. */
  lemma {:induction false} BitAdded(n: nat, e: nat, i: nat)
    requires n < Exp(2, e)
    ensures Bit(n + Exp(2, e), i) == (i == e || Bit(n, i))
  {
    if e == 0 {
      if i > 0 { BitsOfZero(i - 1); }
      BitsOfZero(i);
    } else {
      assert (n + Exp(2, e)) / 2 == n / 2 + Exp(2, e - 1);
      if i > 0 { BitAdded(n / 2, e - 1, i - 1); }
    }
  }

  /** Dividing by 8 and multiplying again clears the three lowest digits. */
  lemma BitsCleared(n: nat, i: nat)
    ensures Bit(n / 8 * 8, i) == (i >= 3 && Bit(n, i))
  {
    var m := n / 8 * 8;
    assert m / 2 == n / 8 * 4 && m / 2 / 2 == n / 8 * 2 && m / 2 / 2 / 2 == n / 8 == n / 2 / 2 / 2;
    assert m % 2 == 0 && m / 2 % 2 == 0 && m / 2 / 2 % 2 == 0;
    if i == 1 { assert Bit(m, 1) == Bit(m / 2, 0); }
    if i == 2 { assert Bit(m, 2) == Bit(m / 2, 1) == Bit(m / 2 / 2, 0); }
    if i >= 3 {
      assert Bit(m, i) == Bit(m / 2, i - 1) == Bit(m / 2 / 2, i - 2) == Bit(m / 2 / 2 / 2, i - 3);
      assert Bit(n, i) == Bit(n / 2, i - 1) == Bit(n / 2 / 2, i - 2) == Bit(n / 2 / 2 / 2, i - 3);
    }
  }
}
