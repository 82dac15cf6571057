/** The constants of both implementations, and the proof that they have every property the theorems ask for. */
module Constants {
  import opened Common
  import opened ModArith
  import opened Primes
  import opened Edwards
  import opened PointCodec
  import opened Ed25519
  import opened Witness
  import opened PrimeCertificates
  import opened BaseCertificate

  const Q: nat := 57896044618658097711785492504343953926634992332820282019728792003956564819949
  const L: nat := 7237005577332262213973186563042994240857116359379907606001950938285454250989
  const D: nat := 37095705934669439343138083508754565189542113879843219016388785533085940283555
  const I: nat := 19681161376707505956807079304988542015446066515923890162744021073123829784752
  const BASE := Point(15112221349535400772501151409588531511454012693041857206046113283949847762202,
                      46316835694926478169428394003475163141307993866256225615783033603165251855960)

  const ED25519 := Suite(Params(Q, D, I), L, BASE)

  /** Every property that the theorems about a suite require, for the constants of the source. */
  lemma Ed25519Sound()
    ensures ED25519.Sound()
  {
    FieldSize();
    GroupOrder();
    RootOfMinusOne();
    CoefficientNonResidue();
    BaseOnCurve();
    BaseOrder(ED25519.c, BASE);
  }

  /** RFC 8032 completeness for the constants of the source, with no assumption left. */
  lemma SignaturesAccepted(s: Suite, h: Hash, message: seq<byte>, seed: seq<byte>)
    requires s == ED25519 && |seed| == 32
    ensures s.VerifySpec(h, s.SignSpec(h, message, seed).value, message, s.PublicSpec(h, seed).value)
      <==> s.Nonce(h, message, seed) != 0
    ensures s.StrictSpec(h, s.PublicSpec(h, seed).value, message, s.SignSpec(h, message, seed).value)
      <==> s.Nonce(h, message, seed) != 0
  {
    Ed25519Sound();
    s.SignVerify(h, message, seed);
    s.SignStrict(h, message, seed);
  }

  /** The constants are what the class-level expressions of the source evaluate to. */
  lemma ConstantsAsComputed()
    ensures Q == HIGH_BIT - 19 && L == HIGH_BIT / 8 + 27742317777372353535851937790883648493
    ensures I == PowMod(2, (Q - 1) / 4, Q)
    ensures D == (-121665 * PowMod(121666, Q - 2, Q)) % Q
  {
    FieldSize();
    RootOfMinusOne();
    FermatQuotient(Q, -121665, 121666, D);
  }

  /** The base point, as the delivery verifier derives it. */
  function DeliveryBase(c: Params): Option<Point>
    requires c.q > 2
  {
    var y := (4 * PowMod(5, c.q - 2, c.q)) % c.q;
    match RecoverX(c, y)
    case None => None
    case Some(x) => Some(Point(if x % 2 == 0 then x else c.q - x, y))
  }

  /** The base point, as the team-context verifier derives it. */
  function TeamBase(c: Params): Point
    requires c.q > 2
  {
    var y := (4 * PowMod(5, c.q - 2, c.q)) % c.q;
    Point(XRecover(c, y) % c.q, y % c.q)
  }

  /** Both derivations give the one base point. */
  lemma BasesAgree(s: Suite)
    requires s == ED25519
    ensures DeliveryBase(s.c) == Some(s.base) && TeamBase(s.c) == s.base
  {
    EvenBase(s);
    BasesFrom(s.c, s.base);
  }

  lemma EvenBase(s: Suite)
    requires s == ED25519
    ensures s.c.Good() && s.c.OnCurve(s.base) && s.base.x % 2 == 0 && (s.base.y * 5 - 4) % s.c.q == 0 && s.c.q > 5
  {
    Ed25519Sound();
    EvenBaseResidue();
  }

  lemma EvenBaseResidue()
    ensures BASE.x % 2 == 0 && (BASE.y * 5 - 4) % Q == 0
  {}

  /** Either derivation finds the even point with the given y. */
  lemma BasesFrom(c: Params, p: Point)
    requires c.Good() && c.OnCurve(p) && p.x % 2 == 0 && (p.y * 5 - 4) % c.q == 0 && c.q > 5
    ensures DeliveryBase(c) == Some(p) && TeamBase(c) == p
  {
    FermatQuotient(c.q, 4, 5, p.y);
    EvenRoot(c, p.x, p.y);
    Small(c.q, p.y);
    Small(c.q, p.x);
  }

  lemma EvenRoot(c: Params, x: nat, y: nat)
    requires c.Good() && c.OnCurve(Point(x, y)) && x % 2 == 0
    ensures RecoverX(c, y).Some? && XRecover(c, y) == x
    ensures var r := RecoverX(c, y).value; x == if r % 2 == 0 then r else c.q - r
  {
    SomeRoot(c, x, y);
    XRecoverIsRecoverX(c, y);
    EvenOfPair(c.q, x, RecoverX(c, y).value);
  }

  lemma EvenOfPair(q: nat, x: nat, r: nat)
    requires q % 8 == 5 && x % 2 == 0 && r < q && (r == x || r + x == q)
    ensures x == if r % 2 == 0 then r else q - r
    ensures x == if r % 2 != 0 then q - r else r
  {
    assert q == 8 * (q / 8) + 5;
  }

  lemma SomeRoot(c: Params, x: nat, y: nat)
    requires c.Good() && c.OnCurve(Point(x, y))
    ensures RecoverX(c, y).Some? && c.q % 8 == 5 && y < c.q
    ensures var r := RecoverX(c, y).value; r < c.q && (r == x || r + x == c.q)
  {
    RecoverXCorrect(c, y);
    SameY(c, RecoverX(c, y).value, x, y);
  }

  lemma BaseOnCurve()
    ensures ED25519.c.OnCurve(BASE)
  {
    assert CurveEquation(D, BASE.x, BASE.y) % Q == 0;
    ED25519.c.OnCurveEquation(BASE);
  }

  /** The one solution of x * a = A modulo q is what dividing by Fermat's little theorem computes. */
  lemma FermatQuotient(q: nat, A: int, a: nat, x: nat)
    requires Prime(q) && q > 2 && x < q && (x * a - A) % q == 0 && 0 < a < q
    ensures x == (A * PowMod(a, q - 2, q)) % q
  {
    var z := (A * PowMod(a, q - 2, q)) % q;
    ModFacts(q, x * a - A);
    if Zero(q, a) { ZeroSmall(q, a); }
    CongRefl(q, a);
    QuotientInteger(q, A, a, a, z);
    ModFacts(q, A * PowMod(a, q - 2, q));
    OneQuotient(q, A, a, x, z);
  }

  lemma OneQuotient(q: nat, A: int, a: nat, x: nat, z: nat)
    requires Prime(q) && x < q && z < q && !Zero(q, a) && Zero(q, x * a - A) && Zero(q, z * a - A)
    ensures x == z
  {
    ZeroSum(q, x * a - A, z * a - A);
    assert x * a - A - (z * a - A) == (x - z) * a;
    Euclid(q, x - z, a);
    ZeroSmall(q, x - z);
  }

  /** The square root of -1 is the power of 2 that the source computes. */
  lemma RootOfMinusOne()
    ensures Cong(Q, Exp(2, (Q - 1) / 4), I) && I == PowMod(2, (Q - 1) / 4, Q) && Cong(Q, I * I, -1)
  {
    QuarterPower();
    CongMod(Q, Exp(2, (Q - 1) / 4), I);
    Small(Q, I);
    ModFacts(Q, I * I + 1);
    assert (I * I + 1) % Q == 0;
  }

  /** The curve coefficient is twice a square, and 2 is not a square: its power is the root of -1. */
  lemma CoefficientNonResidue()
    ensures NonResidue(Q, D)
  {
    FieldSize();
    RootOfMinusOne();
    var r := 30152228160694284937144285544751646460505239448795619900082871953631125353365;
    ModFacts(Q, 2 * (r * r) - D);
    assert (2 * (r * r) - D) % Q == 0;
    if Zero(Q, r) { ZeroSmall(Q, r); }
    TwiceSquare(Q, D, r, I, (Q - 1) / 4);
  }

  lemma TwiceSquare(q: nat, d: nat, r: nat, i: nat, e: nat)
    requires Prime(q) && q > 2 && 4 * e == q - 1 && Cong(q, Exp(2, e), i) && Cong(q, i * i, -1)
    requires Cong(q, 2 * (r * r), d) && !Zero(q, r)
    ensures NonResidue(q, d)
  {
    forall w, z | Zero(q, Mul(w, w) - Mul(d, Mul(z, z)))
      ensures Zero(q, z)
    {
      if !Zero(q, z) {
        var s := SquareRootOfTwo(q, d, r, w, z);
        TwoNotSquare(q, s, i, e);
      }
    }
  }

  lemma SquareRootOfTwo(q: nat, d: nat, r: nat, w: int, z: int) returns (s: int)
    requires Prime(q) && Cong(q, 2 * (r * r), d) && !Zero(q, r) && !Zero(q, z) && Cong(q, w * w, d * (z * z))
    ensures Cong(q, s * s, 2)
  {
    if Zero(q, r * z) { Euclid(q, r, z); }
    var v := Inverse(q, r * z);
    s := w * v;
    var a, b := r * z, v * v;
    CongRefl(q, z * z);
    CongMul(q, 2 * (r * r), d, z * z, z * z);
    CongSym(q, 2 * (r * r) * (z * z), d * (z * z));
    CongTrans(q, w * w, d * (z * z), 2 * (r * r) * (z * z));
    CongRefl(q, b);
    CongMul(q, w * w, 2 * (r * r) * (z * z), b, b);
    CongMul(q, a * v, 1, a * v, 1);
    CongRefl(q, 2);
    CongMul(q, 2, 2, a * v * (a * v), 1);
    RegroupSquares(w, v, r, z);
    CongTrans(q, s * s, 2 * (a * v * (a * v)), 2);
  }

  lemma RegroupSquares(w: int, v: int, r: int, z: int)
    ensures w * w * (v * v) == w * v * (w * v)
    ensures 2 * (r * r) * (z * z) * (v * v) == 2 * (r * z * v * (r * z * v))
  {
    Regroup(w, w, v, v);
    Regroup(r, r, z, z);
    Regroup(r * z, r * z, v, v);
    var p, s, t := r * r, z * z, v * v;
    assert 2 * p * s * t == 2 * (p * s * t);
  }

  /** 2 to the power (q - 1) / 2 is -1, which for a square it could not be. */
  lemma TwoNotSquare(q: nat, s: int, i: nat, e: nat)
    requires Prime(q) && q > 2 && 4 * e == q - 1 && Cong(q, Exp(2, e), i) && Cong(q, i * i, -1)
    ensures !Cong(q, s * s, 2)
  {
    ExpAdd(2, e, e);
    CongMul(q, Exp(2, e), i, Exp(2, e), i);
    CongTrans(q, Exp(2, 2 * e), i * i, -1);
    if Zero(q, 2) { ZeroSmall(q, 2); }
    if Cong(q, s * s, 2) {
      EulerOne(q, 2, s, 2 * e);
      CongSym(q, Exp(2, 2 * e), 1);
      CongTrans(q, 1, Exp(2, 2 * e), -1);
    }
  }

  lemma QuarterPower()
    ensures Cong(Q, Exp(2, (Q - 1) / 4), I)
  {
    var p := AllPowers(2.0, 57896044618658097711785492504343953926634992332820282019728792003956564819949.0);
    QuarterPowera(p);
    QuarterPowerb(p);
    QuarterPowerc(p);
    QuarterPowerd(p);
    QuarterPowere(p);
    QuarterPowerf(p);
    QuarterPowerg(p);
    PowerFound(p, 2.0, 57896044618658097711785492504343953926634992332820282019728792003956564819949.0,
      14474011154664524427946373126085988481658748083205070504932198000989141204987,
      19681161376707505956807079304988542015446066515923890162744021073123829784752.0);
  }
}
