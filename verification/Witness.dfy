/** Checking big powers and big points against literal witnesses.
    The checks are stated over the reals, where the verifier computes with literals exactly. */
module Witness {
  import opened ModArith
  import opened Primes
  import opened Edwards

  ghost predicate Divides(m: real, v: real)
    requires m > 0.0
  {
    v == (v / m).Floor as real * m
  }

  lemma DividesZero(m: nat, v: int)
    requires m > 0 && Divides(m as real, v as real)
    ensures Zero(m, v)
  {
    var k := (v as real / m as real).Floor;
    Twin(k, k as real, m, m as real);
    ZeroIntro(m, k, v);
  }

  // Rounds of squaring, each followed by a multiplication by 1 or by the base.
  ghost function Round1(z: real, m0: real): real { z * z * m0 }
  ghost function Round2(z: real, m1: real, m0: real): real { Round1(z * z * m1, m0) }
  ghost function Round3(z: real, m2: real, m1: real, m0: real): real { Round2(z * z * m2, m1, m0) }
  ghost function Round4(z: real, m3: real, m2: real, m1: real, m0: real): real { Round3(z * z * m3, m2, m1, m0) }

  /** Four rounds in one formula, which evaluates at once on literals. */
  ghost predicate Passes(n: real, x: real, m3: real, m2: real, m1: real, m0: real, y: real)
    requires n > 0.0
  {
    var z3 := x * x * m3;
    var z2 := z3 * z3 * m2;
    var z1 := z2 * z2 * m1;
    Divides(n, z1 * z1 * m0 - y)
  }

  lemma PassesRounds(n: real, x: real, m3: real, m2: real, m1: real, m0: real, y: real)
    requires n > 0.0 && Passes(n, x, m3, m2, m1, m0, y)
    ensures Divides(n, Round4(x, m3, m2, m1, m0) - y)
  {}

  ghost function Bit(d: real): nat { if d == 1.0 then 1 else 0 }

  ghost function Factor(a: real, d: real): real { if d == 1.0 then a else 1.0 }

  ghost predicate Whole(r: real) { r == r.Floor as real }

  /** A literal walk: one link for every four bits of the exponent, with the residue it reaches. */
  datatype Trail = End | Link(d3: real, d2: real, d1: real, d0: real, y: real, rest: Trail)

  ghost predicate Holds(a: real, n: real, x: real, t: Trail)
    requires n > 0.0
    decreases t
  {
    match t
    case End => true
    case Link(d3, d2, d1, d0, y, rest) =>
      && Whole(y) && Holds(a, n, y, rest)
      && Passes(n, x, if d3 == 1.0 then a else 1.0, if d2 == 1.0 then a else 1.0, if d1 == 1.0 then a else 1.0,
                if d0 == 1.0 then a else 1.0, y)
  }

  ghost function Exponent(e: nat, t: Trail): nat
    decreases t
  {
    match t
    case End => e
    case Link(d3, d2, d1, d0, y, rest) =>
      Exponent(16 * e + 8 * Bit(d3) + 4 * Bit(d2) + 2 * Bit(d1) + Bit(d0), rest)
  }

  ghost function Final(x: real, t: Trail): real
    decreases t
  {
    match t
    case End => x
    case Link(_, _, _, _, y, rest) => Final(y, rest)
  }

  ghost predicate Look(e: nat, x: real) { true }

  /** The pairs (e, x) with a^e = x modulo n. A chain of walks carries the set around as a
      variable: its meaning comes into play only where Look is mentioned. */
  ghost predicate PowersOf(powers: iset<(nat, real)>, a: real, n: real) {
    forall e: nat, x: real {:trigger Look(e, x)} :: (e, x) in powers
      <==> Whole(x) && Cong(n.Floor, Exp(a.Floor, e), x.Floor)
  }

  lemma AllPowers(a: real, n: real) returns (powers: iset<(nat, real)>)
    ensures PowersOf(powers, a, n) && (0, 1.0) in powers
  {
    powers := iset e: nat, x: real | Whole(x) && Cong(n.Floor, Exp(a.Floor, e), x.Floor) :: (e, x);
    CongRefl(n.Floor, 1);
    assert Exp(a.Floor, 0) == 1;
  }

  lemma PowerFound(powers: iset<(nat, real)>, a: real, n: real, e: nat, x: real)
    requires PowersOf(powers, a, n) && (e, x) in powers
    ensures Cong(n.Floor, Exp(a.Floor, e), x.Floor)
  {
    assert Look(e, x);
  }

  /** A trail that holds computes a power. */
  lemma {:induction false} Walk(powers: iset<(nat, real)>, a: real, n: real, e: nat, x: real, t: Trail)
    returns (f: nat, y: real)
    requires n > 0.0 && Whole(n) && Whole(a) && PowersOf(powers, a, n) && (e, x) in powers && Holds(a, n, x, t)
    ensures f == Exponent(e, t) && y == Final(x, t) && (f, y) in powers
    decreases t
  {
    match t
    case End =>
      f, y := e, x;
    case Link(d3, d2, d1, d0, z, rest) =>
      assert Look(e, x);
      PassesRounds(n, x, Factor(a, d3), Factor(a, d2), Factor(a, d1), Factor(a, d0), z);
      var g := Step(a, n, e, x, d3, d2, d1, d0, z);
      assert Look(g, z);
      f, y := Walk(powers, a, n, g, z, rest);
  }

  /** From a^e = x to a^(16 * e + ...) = y, modulo n. */
  lemma Step(a: real, n: real, e: nat, x: real, d3: real, d2: real, d1: real, d0: real, y: real) returns (f: nat)
    requires n > 0.0 && Whole(n) && Whole(a) && Whole(x) && Whole(y) && Cong(n.Floor, Exp(a.Floor, e), x.Floor)
    requires Divides(n, Round4(x, Factor(a, d3), Factor(a, d2), Factor(a, d1), Factor(a, d0)) - y)
    ensures f == 16 * e + 8 * Bit(d3) + 4 * Bit(d2) + 2 * Bit(d1) + Bit(d0)
    ensures Cong(n.Floor, Exp(a.Floor, f), y.Floor)
  {
    var m3, m2, m1, m0 := Factor(a, d3), Factor(a, d2), Factor(a, d1), Factor(a, d0);
    var e3, z3 := Round(a, n, e, x, m3, Bit(d3));
    var e2, z2 := Round(a, n, e3, z3, m2, Bit(d2));
    var e1, z1 := Round(a, n, e2, z2, m1, Bit(d1));
    var z: real;
    f, z := Round(a, n, e1, z1, m0, Bit(d0));
    Rounds(x, m3, m2, m1, m0, z3, z2, z1, z);
    LastResidue(n, Exp(a.Floor, f), z, y);
  }

  lemma LastResidue(n: real, p: int, z: real, y: real)
    requires n > 0.0 && Whole(n) && Whole(z) && Whole(y) && Cong(n.Floor, p, z.Floor) && Divides(n, z - y)
    ensures Cong(n.Floor, p, y.Floor)
  {
    assert z - y == (z.Floor - y.Floor) as real;
    DividesZero(n.Floor, z.Floor - y.Floor);
    CongTrans(n.Floor, p, z.Floor, y.Floor);
  }

  ghost predicate Squared(x: real, m: real, z: real) { z == x * x * m }

  lemma Rounds(x: real, m3: real, m2: real, m1: real, m0: real, z3: real, z2: real, z1: real, z: real)
    requires Squared(x, m3, z3) && Squared(z3, m2, z2) && Squared(z2, m1, z1) && Squared(z1, m0, z)
    ensures Round4(x, m3, m2, m1, m0) == z
  {}

  lemma Round(a: real, n: real, e: nat, x: real, m: real, bit: nat) returns (f: nat, z: real)
    requires Whole(a) && Whole(x) && Cong(n.Floor, Exp(a.Floor, e), x.Floor)
    requires (m == 1.0 && bit == 0) || (m == a && bit == 1)
    ensures f == 2 * e + bit && Whole(z) && Squared(x, m, z) && Cong(n.Floor, Exp(a.Floor, f), z.Floor)
  {
    f, z := 2 * e + bit, x * x * m;
    WholeSquare(x, m, z);
    SquareRound(a.Floor, n.Floor, e, x.Floor, m.Floor, bit);
  }

  lemma WholeSquare(x: real, m: real, z: real)
    requires Whole(x) && Whole(m) && z == x * x * m
    ensures Whole(z) && z.Floor == x.Floor * x.Floor * m.Floor
  {
    var i, j := x.Floor, m.Floor;
    Twin(i, x, i, x);
    Twin(i * i, x * x, j, m);
    FloorOf(z, i * i * j);
  }

  lemma FloorOf(z: real, k: int)
    requires z == k as real
    ensures Whole(z) && z.Floor == k
  {}

  lemma SquareRound(a: int, n: int, e: nat, x: int, m: int, bit: nat)
    requires Cong(n, Exp(a, e), x) && ((m == 1 && bit == 0) || (m == a && bit == 1))
    ensures Cong(n, Exp(a, 2 * e + bit), x * x * m)
  {
    var p := Exp(a, e);
    ExpAdd(a, e, e);
    CongMul(n, p, x, p, x);
    CongRefl(n, m);
    CongMul(n, p * p, x * x, m, m);
    assert Exp(a, e + e + 1) == a * Exp(a, e + e);
    assert p * p * 1 == Exp(a, e + e) && p * p * a == Exp(a, e + e + 1);
  }

  // ---- primality certificates ----

  /** One step of a certificate: b^f = 1 modulo n, with f prime and b - 1 invertible. */
  lemma Certified(powers: iset<(nat, real)>, n: nat, b: nat, f: nat, inv: nat)
    requires n > 1 && PowersOf(powers, b as real, n as real) && (f, 1.0) in powers
    requires Prime(f) && (inv * (b - 1)) % n == 1
    ensures OrderedFactors(n, f)
  {
    PowerFound(powers, b as real, n as real, f, 1.0);
    CongOne(n, Exp(b, f));
    Pocklington(n, f, b, inv);
  }

  /** Nothing but odd primes divides an odd number. */
  lemma OddFactors(n: nat)
    requires n % 2 == 1
    ensures OrderedFactors(n, 2)
  {
    forall r: nat | Prime(r) && Zero(r, n)
      ensures Zero(2, r - 1)
    {
      ModFacts(2, n);
      ModFacts(2, r);
      if Zero(2, r) { ZeroTrans(2, r, n); }
      assert r % 2 == 1;
      ZeroIntro(2, (r - 1) / 2, r - 1);
    }
  }

  /** The certificate closes when twice f, or f times another certified prime, exceeds the square root. */
  lemma PrimeByTwice(n: nat, f: nat, bound: nat)
    requires n % 2 == 1 && n > 1 && Prime(f) && f != 2 && OrderedFactors(n, f)
    requires (bound * (2 * f) + 1) * (bound * (2 * f) + 1) > n
    requires bound <= 3 && (bound > 1 ==> n % (2 * f + 1) != 0) && (bound > 2 ==> n % (4 * f + 1) != 0)
    ensures Prime(n)
  {
    OddFactors(n);
    PrimeTwo();
    OrderedFactorsProduct(n, 2, f);
    forall k: nat | 1 <= k < bound
      ensures !Zero(Mul(k, 2 * f) + 1, n)
    {
      assert k == 1 || k == 2;
      ModFacts(Mul(k, 2 * f) + 1, n);
    }
    PrimeByOrder(n, 2 * f, bound);
  }

  lemma PrimeByPair(n: nat, f: nat, g: nat)
    requires n > 1 && Prime(f) && Prime(g) && f != g && OrderedFactors(n, f) && OrderedFactors(n, g)
    requires (f * g + 1) * (f * g + 1) > n
    ensures Prime(n)
  {
    OrderedFactorsProduct(n, f, g);
    PrimeByOrder(n, f * g, 1);
  }

  lemma PrimeTwo()
    ensures Prime(2)
  {}

  lemma SmallPrime(n: nat)
    requires 7 < n < 121 && n % 2 != 0 && n % 3 != 0 && n % 5 != 0 && n % 7 != 0
    ensures Prime(n)
  {
    var r := LeastDivisor(n);
    ModFacts(r, n);
    SmallRoot(r);
    SmallFactor(r);
  }

  lemma SmallRoot(r: nat)
    ensures r >= 11 ==> r * r >= 121
  {}

  lemma SmallFactor(r: nat)
    requires Prime(r)
    ensures r <= 10 ==> r == 2 || r == 3 || r == 5 || r == 7
  {
    ZeroIntro(2, 2, 4);
    ZeroIntro(2, 3, 6);
    ZeroIntro(2, 4, 8);
    ZeroIntro(2, 5, 10);
    ZeroIntro(3, 3, 9);
  }
}
