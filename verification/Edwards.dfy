/** The twisted Edwards group over the integers modulo q, with the source's formulas. */
module Edwards {
  import opened ModArith
  import opened Primes
  import opened CurveAlgebra

  datatype Point = Point(x: nat, y: nat)

  const IDENTITY := Point(0, 1)

  /** The class constants: the field size, the curve coefficient and a square root of -1. */
  datatype Params = Params(q: nat, d: nat, i: nat) {

    /** The facts about the constants that everything below rests on. */
    ghost predicate Good() {
      && Prime(q) && q % 8 == 5
      && Cong(q, i * i, -1)
      && NonResidue(q, d)
    }

    /** Division by Fermat's little theorem. */
    function Over(n: int, denominator: int): nat
      requires q > 2
    {
      (n * PowMod(denominator, q - 2, q)) % q
    }

    function Add(first: Point, second: Point): Point
      requires q > 2
    {
      var denominator := (d * first.x * second.x * first.y * second.y) % q;
      Point(Over(first.x * second.y + second.x * first.y, 1 + denominator),
            Over(first.y * second.y + first.x * second.x, 1 - denominator))
    }

    /** A reduced solution of the curve equation; see OnCurveEquation for the integer form. */
    ghost predicate OnCurve(p: Point) {
      p.x < q && p.y < q && Field().OnCurve(Re(d), Re(p.x), Re(p.y))
    }

    /** The n-fold sum of a point. */
    ghost function Multiple(p: Point, n: nat): Point
      requires q > 2
    {
      if n == 0 then IDENTITY else Add(Multiple(p, n - 1), p)
    }

    function Negative(p: Point): Point
      requires q > 2
    {
      Point((q - p.x) % q, p.y)
    }

    // ---- the group laws ----

    lemma AddOnCurve(p: Point, r: Point)
      requires Good() && OnCurve(p) && OnCurve(r)
      ensures OnCurve(Add(p, r))
    {
      var s := Add(p, r);
      Bridge();
      AddIsSum(p, r);
      Field().Closure(Re(d), Re(i), Re(p.x), Re(p.y), Re(r.x), Re(r.y), Re(s.x), Re(s.y));
    }

    /** Whatever satisfies the addition formulas is the sum. */
    lemma SumIsAdd(p: Point, r: Point, s: Point)
      requires Good() && OnCurve(p) && OnCurve(r) && s.x < q && s.y < q
      requires Field().Sum(Re(d), Re(p.x), Re(p.y), Re(r.x), Re(r.y), Re(s.x), Re(s.y))
      ensures s == Add(p, r)
    {
      var t := Add(p, r);
      Bridge();
      AddIsSum(p, r);
      Field().Unique(Re(d), Re(i), Re(p.x), Re(p.y), Re(r.x), Re(r.y), Re(s.x), Re(s.y), Re(t.x), Re(t.y));
      SameResidue(q, s.x, t.x);
      SameResidue(q, s.y, t.y);
    }

    lemma AddCommutes(p: Point, r: Point)
      requires Good() && OnCurve(p) && OnCurve(r)
      ensures Add(p, r) == Add(r, p)
    {
      var s := Add(p, r);
      AddIsSum(p, r);
      SumSwap(Field(), Re(d), Re(p.x), Re(p.y), Re(r.x), Re(r.y), Re(s.x), Re(s.y));
      SumIsAdd(r, p, s);
    }

    lemma AddAssociates(p: Point, r: Point, t: Point)
      requires Good() && OnCurve(p) && OnCurve(r) && OnCurve(t)
      ensures Add(Add(p, r), t) == Add(p, Add(r, t))
    {
      var pr, rt := Add(p, r), Add(r, t);
      AddOnCurve(p, r);
      AddOnCurve(r, t);
      var s, s' := Add(pr, t), Add(rt, p);
      Bridge();
      AddIsSum(p, r);
      AddIsSum(r, t);
      AddIsSum(pr, t);
      AddIsSum(rt, p);
      Field().Associative(Re(d), Re(i), Re(p.x), Re(p.y), Re(r.x), Re(r.y), Re(t.x), Re(t.y),
        Re(pr.x), Re(pr.y), Re(rt.x), Re(rt.y), Re(s.x), Re(s.y), Re(s'.x), Re(s'.y));
      SameResidue(q, s.x, s'.x);
      SameResidue(q, s.y, s'.y);
      AddCommutes(rt, p);
    }

    lemma IdentityOnCurve()
      requires Good()
      ensures OnCurve(IDENTITY)
    {
      Bridge();
      assert NormPart(0.0, 1.0) - 1.0 - MixedPart(Re(d), 0.0, 1.0) == 0.0;
    }

    lemma AddIdentity(p: Point)
      requires Good() && OnCurve(p)
      ensures Add(p, IDENTITY) == p && Add(IDENTITY, p) == p
    {
      IdentityOnCurve();
      Bridge();
      SumIdentity(Field(), Re(d), Re(p.x), Re(p.y));
      SumIsAdd(p, IDENTITY, p);
      AddCommutes(p, IDENTITY);
    }

    lemma AddNegative(p: Point)
      requires Good() && OnCurve(p)
      ensures OnCurve(Negative(p)) && Add(p, Negative(p)) == IDENTITY
    {
      var n := Negative(p);
      var k := if p.x == 0 then 0 else q;
      IdentityOnCurve();
      Bridge();
      assert n.x == k - p.x by { SmallMod(q, p.x); }
      assert IsMultiple(q, Re(k)) by { ZeroIntro(q, if k == 0 then 0 else 1, k); }
      Field().Opposite(Re(d), Re(p.x), Re(p.y), Re(k));
      SumIsAdd(p, n, IDENTITY);
    }

    // ---- multiples of a point ----

    lemma {:induction false} MultipleOnCurve(p: Point, n: nat)
      requires Good() && OnCurve(p)
      ensures OnCurve(Multiple(p, n))
    {
      if n == 0 {
        IdentityOnCurve();
      } else {
        MultipleOnCurve(p, n - 1);
        AddOnCurve(Multiple(p, n - 1), p);
      }
    }

    lemma {:induction false} MultipleSum(p: Point, m: nat, n: nat)
      requires Good() && OnCurve(p)
      ensures Multiple(p, m + n) == Add(Multiple(p, m), Multiple(p, n))
    {
      MultipleOnCurve(p, m);
      if n == 0 {
        AddIdentity(Multiple(p, m));
      } else {
        MultipleSum(p, m, n - 1);
        MultipleOnCurve(p, n - 1);
        AddAssociates(Multiple(p, m), Multiple(p, n - 1), p);
      }
    }

    lemma MultipleOne(p: Point)
      requires Good() && OnCurve(p)
      ensures Multiple(p, 1) == p
    {
      AddIdentity(p);
      assert Multiple(p, 0) == IDENTITY;
    }

    lemma {:induction false} MultipleProduct(p: Point, m: nat, n: nat)
      requires Good() && OnCurve(p)
      ensures m * n >= 0 && Multiple(Multiple(p, m), n) == Multiple(p, m * n)
    {
      if n != 0 {
        MultipleProduct(p, m, n - 1);
        assert m * n == m * (n - 1) + m;
        MultipleSum(p, m * (n - 1), m);
      }
    }

    lemma {:induction false} MultipleIdentity(n: nat)
      requires Good()
      ensures Multiple(IDENTITY, n) == IDENTITY
    {
      if n != 0 {
        MultipleIdentity(n - 1);
        IdentityOnCurve();
        AddIdentity(IDENTITY);
      }
    }

    /** Low bit first: the loop of the delivery verifier. */
    method Scale(point: Point, scalar: nat) returns (result: Point)
      requires Good() && OnCurve(point)
      ensures result == Multiple(point, scalar)
    {
      result := IDENTITY;
      var current, rest := point, scalar;
      IdentityOnCurve();
      MultipleOnCurve(point, scalar);
      AddIdentity(Multiple(point, scalar));
      while rest != 0
        invariant OnCurve(result) && OnCurve(current)
        invariant Add(result, Multiple(current, rest)) == Multiple(point, scalar)
      {
        AddOnCurve(current, current);
        MultipleDouble(current, rest / 2);
        if rest % 2 == 1 {
          MultipleOdd(result, current, rest / 2);
          AddOnCurve(result, current);
          result := Add(result, current);
        }
        current := Add(current, current);
        rest := rest / 2;
      }
      AddIdentity(result);
    }

    lemma MultipleDouble(p: Point, n: nat)
      requires Good() && OnCurve(p)
      ensures Multiple(Add(p, p), n) == Multiple(p, 2 * n)
    {
      MultipleOne(p);
      MultipleSum(p, 1, 1);
      MultipleProduct(p, 2, n);
    }

    lemma MultipleOdd(result: Point, p: Point, n: nat)
      requires Good() && OnCurve(result) && OnCurve(p)
      ensures Add(Add(result, p), Multiple(p, 2 * n)) == Add(result, Multiple(p, 2 * n + 1))
    {
      MultipleOne(p);
      MultipleSum(p, 1, 2 * n);
      MultipleOnCurve(p, 2 * n);
      AddAssociates(result, p, Multiple(p, 2 * n));
    }

    /** The binary digits of a number, highest first, as `bin` prints them. */
    static function Binary(n: nat): seq<nat> {
      if n < 2 then [n] else Binary(n / 2) + [n % 2]
    }

    /** The number a digit string denotes. */
    static ghost function Denoted(bits: seq<nat>): nat {
      if bits == [] then 0 else 2 * Denoted(bits[..|bits| - 1]) + bits[|bits| - 1]
    }

    static lemma {:induction false} BinaryDenotes(n: nat)
      ensures Denoted(Binary(n)) == n && forall k :: 0 <= k < |Binary(n)| ==> Binary(n)[k] < 2
    {
      if n < 2 {
        assert [n][..0] == [];
      } else {
        BinaryDenotes(n / 2);
        assert Binary(n)[..|Binary(n)| - 1] == Binary(n / 2);
      }
    }

    /** High bit first: the loop of the team-context verifier. */
    method ScalarMult(p: Point, e: nat) returns (r: Point)
      requires Good() && OnCurve(p)
      ensures r == Multiple(p, e)
    {
      r := IDENTITY;
      var bits := Binary(e);
      BinaryDenotes(e);
      for k := 0 to |bits|
        invariant r == Multiple(p, Denoted(bits[..k]))
      {
        ScalarStep(p, bits, k);
        r := EdwardsAdd(r, r);
        if bits[k] == 1 {
          r := EdwardsAdd(r, p);
        }
      }
      assert bits[..|bits|] == bits;
    }

    lemma ScalarStep(p: Point, bits: seq<nat>, k: nat)
      requires Good() && OnCurve(p) && k < |bits| && bits[k] < 2
      ensures var r := Multiple(p, Denoted(bits[..k]));
        var r' := EdwardsAdd(r, r);
        (if bits[k] == 1 then EdwardsAdd(r', p) else r') == Multiple(p, Denoted(bits[..k + 1]))
    {
      assert bits[..k + 1][..k] == bits[..k];
      DoubleAndAdd(p, Denoted(bits[..k]), Multiple(p, Denoted(bits[..k])));
    }

    lemma DoubleAndAdd(p: Point, n: nat, r: Point)
      requires Good() && OnCurve(p) && r == Multiple(p, n)
      ensures EdwardsAdd(r, r) == Multiple(p, 2 * n) && EdwardsAdd(EdwardsAdd(r, r), p) == Multiple(p, 2 * n + 1)
    {
      MultipleSum(p, n, n);
      EdwardsAddIsAdd(r, r);
      EdwardsAddIsAdd(Add(r, r), p);
    }

    /** The team-context verifier's addition, which does not reduce the product first. */
    function EdwardsAdd(p: Point, r: Point): Point
      requires q > 2
    {
      var t := d * p.x * r.x * p.y * r.y;
      Point(Over(p.x * r.y + r.x * p.y, 1 + t), Over(p.y * r.y + p.x * r.x, 1 - t))
    }

    lemma EdwardsAddIsAdd(p: Point, r: Point)
      requires q > 2
      ensures EdwardsAdd(p, r) == Add(p, r)
    {
      var t := d * p.x * r.x * p.y * r.y;
      Shifted(t, t % q);
      CongExp(q, 1 + t, 1 + t % q, q - 2);
      CongExp(q, 1 - t, 1 - t % q, q - 2);
      CongMod(q, Exp(1 + t, q - 2), Exp(1 + t % q, q - 2));
      CongMod(q, Exp(1 - t, q - 2), Exp(1 - t % q, q - 2));
    }

    // ---- between the integers and the algebra ----

    lemma Bridge()
      requires Good()
      ensures Field().Lawful(Re(d), Re(i))
    {
      FieldValid();
      WholeLiteral(d);
      RootBridge();
      NonSquareBridge();
    }

    lemma RootBridge()
      requires Good()
      ensures Field().Root(Re(i))
    {
      WholeLiteral(i);
      Twin(i, Re(i), i, Re(i));
      assert Re(i) * Re(i) + 1.0 == Re(i * i + 1);
    }

    lemma NonSquareBridge()
      requires NonResidue(q, d)
      ensures Field().NonSquare(Re(d))
    {
      forall w, z | IsWhole(w) && IsWhole(z) && IsMultiple(q, w * w - Re(d) * z * z)
        ensures IsMultiple(q, z)
      {
        NonResidueBridge(q, d, w, z);
      }
    }

    lemma OnCurveEquation(p: Point)
      requires q > 0 && p.x < q && p.y < q
      ensures OnCurve(p) <==> CurveEquation(d, p.x, p.y) % q == 0
    {
      ModFacts(q, CurveEquation(d, p.x, p.y));
      WholeLiteral(d);
      WholeLiteral(p.x);
      WholeLiteral(p.y);
      CurveTwin(d, p.x, p.y);
      SameMultiple(q, CurveEquation(d, p.x, p.y),
                   NormPart(Re(p.x), Re(p.y)) - 1.0 - MixedPart(Re(d), Re(p.x), Re(p.y)));
    }

    /** The computed sum satisfies the addition formulas: both denominators are invertible. */
    lemma AddIsSum(p: Point, r: Point)
      requires Good() && OnCurve(p) && OnCurve(r)
      ensures Add(p, r).x < q && Add(p, r).y < q
      ensures Field().Sum(Re(d), Re(p.x), Re(p.y), Re(r.x), Re(r.y), Re(Add(p, r).x), Re(Add(p, r).y))
    {
      var t, A, B := AddTwins(p, r);
      Divided(p, r, t, A, B);
      Field().SumOf(Re(d), Re(p.x), Re(p.y), Re(r.x), Re(r.y), Re(A), Re(B), Re(t), Re(Add(p, r).x), Re(Add(p, r).y));
    }

    lemma Divided(p: Point, r: Point, t: int, A: int, B: int)
      requires Good() && OnCurve(p) && OnCurve(r) && Re(t) == Mixed(Re(d), Re(p.x), Re(p.y), Re(r.x), Re(r.y))
      ensures Field().Quotient(Re(Over(A, 1 + t % q)), Re(A), 1.0 + Re(t))
      ensures Field().Quotient(Re(Over(B, 1 - t % q)), Re(B), 1.0 - Re(t))
    {
      Invertible(p, r, t);
      Shifted(t, t % q);
      QuotientOf(A, Re(A), 1 + t, 1.0 + Re(t), 1 + t % q, Over(A, 1 + t % q));
      QuotientOf(B, Re(B), 1 - t, 1.0 - Re(t), 1 - t % q, Over(B, 1 - t % q));
    }

    lemma Shifted(t: int, t': int)
      requires q > 0 && t' == t % q
      ensures Cong(q, 1 + t, 1 + t') && Cong(q, 1 - t, 1 - t')
    {
      ModFacts(q, t);
    }

    lemma Invertible(p: Point, r: Point, t: int)
      requires Good() && OnCurve(p) && OnCurve(r) && Re(t) == Mixed(Re(d), Re(p.x), Re(p.y), Re(r.x), Re(r.y))
      ensures !IsMultiple(q, 1.0 + Re(t)) && !IsMultiple(q, 1.0 - Re(t))
    {
      Bridge();
      Field().DenominatorsAt(Re(d), Re(i), Re(p.x), Re(p.y), Re(r.x), Re(r.y), Re(t));
    }

    lemma QuotientOf(A: int, rA: real, a: int, ra: real, a': int, x: int)
      requires Prime(q) && q > 2 && Re(A) == rA && Re(a) == ra && !IsMultiple(q, ra)
      requires Cong(q, a, a') && x == Over(A, a')
      ensures Field().Quotient(Re(x), rA, ra)
    {
      NotZero(q, a, ra);
      QuotientInteger(q, A, a, a', x);
      QuotientBridge(x, A, a);
    }

    lemma AddTwins(p: Point, r: Point) returns (t: int, A: int, B: int)
      requires q > 2
      ensures Re(t) == Mixed(Re(d), Re(p.x), Re(p.y), Re(r.x), Re(r.y))
      ensures Re(A) == Diagonal(Re(p.x), Re(p.y), Re(r.x), Re(r.y))
      ensures Re(B) == Straight(Re(p.x), Re(p.y), Re(r.x), Re(r.y))
      ensures Add(p, r) == Point(Over(A, 1 + t % q), Over(B, 1 - t % q))
    {
      t := d * p.x * r.x * p.y * r.y;
      A, B := p.x * r.y + r.x * p.y, p.y * r.y + p.x * r.x;
      MixedTwin(d, p.x, r.x, p.y, r.y);
      Twin(p.x, Re(p.x), r.y, Re(r.y));
      Twin(r.x, Re(r.x), p.y, Re(p.y));
      Twin(p.y, Re(p.y), r.y, Re(r.y));
      Twin(p.x, Re(p.x), r.x, Re(r.x));
    }

    lemma QuotientBridge(x: int, A: int, a: int)
      requires Zero(q, x * a - A)
      ensures Field().Quotient(Re(x), Re(A), Re(a))
    {
      WholeLiteral(x);
      Twin(x, Re(x), a, Re(a));
      assert Re(x) * Re(a) - Re(A) == Re(x * a - A);
    }

    ghost function Field(): Ring {
      Ring(iset r: real | IsWhole(r), iset r: real | IsMultiple(q, r))
    }

    lemma FieldValid()
      requires Prime(q) && q > 2
      ensures Field().Valid()
    {
      WholeLiteral(1);
      WholeLiteral(2);
      NotMultiple(q, 1);
      NotMultiple(q, 2);
      assert IsMultiple(q, 0.0) by {
        ZeroIntro(q, 0, 0);
        assert 0.0 == Re(0);
      }
      FieldRing();
      FieldSums();
      FieldAbsorbing();
      FieldPrime();
    }

    lemma FieldRing()
      ensures Field().RingClosed()
    {
      forall a, b | IsWhole(a) && IsWhole(b)
        ensures IsWhole(a + b) && IsWhole(a - b) && IsWhole(a * b)
      {
        WholeRing(a, b);
      }
    }

    lemma FieldSums()
      ensures Field().SumClosed()
    {
      forall a, b | IsMultiple(q, a) && IsMultiple(q, b)
        ensures IsMultiple(q, a + b) && IsMultiple(q, a - b)
      {
        IdealSum(q, a, b);
      }
    }

    lemma FieldAbsorbing()
      ensures Field().Absorbing()
    {
      forall a, b | IsWhole(a) && IsMultiple(q, b)
        ensures IsMultiple(q, a * b)
      {
        IdealScale(q, a, b);
      }
    }

    lemma FieldPrime()
      requires Prime(q)
      ensures Field().PrimeIdeal()
    {
      forall a, b | IsWhole(a) && IsWhole(b) && IsMultiple(q, a * b)
        ensures IsMultiple(q, a) || IsMultiple(q, b)
      {
        IdealPrime(q, a, b);
      }
    }
  }

  /** Multiplying by the power q - 2 divides, modulo a prime. */
  lemma QuotientInteger(q: nat, A: int, a: int, a': int, x: int)
    requires Prime(q) && q > 2 && !Zero(q, a) && Cong(q, a, a') && x == (A * PowMod(a', q - 2, q)) % q
    ensures Zero(q, x * a - A)
  {
    var v := PowMod(a', q - 2, q);
    FermatInverse(q, a, a');
    ModFacts(q, A * v);
    ZeroLin(q, -a, A * v - x, A, a * v - 1);
    QuotientRearranged(A, a, v, x);
  }

  lemma QuotientRearranged(A: int, a: int, v: int, x: int)
    ensures -a * (A * v - x) + A * (a * v - 1) == x * a - A
  {}

  lemma FermatInverse(q: nat, a: int, a': int)
    requires Prime(q) && q > 2 && !Zero(q, a) && Cong(q, a, a')
    ensures Cong(q, a * PowMod(a', q - 2, q), 1)
  {
    var e := Exp(a, q - 2);
    Fermat(q, a);
    assert Exp(a, q - 1) == a * e;
    CongExp(q, a, a', q - 2);
    ModFacts(q, Exp(a', q - 2));
    CongTrans(q, e, Exp(a', q - 2), PowMod(a', q - 2, q));
    CongSym(q, e, PowMod(a', q - 2, q));
    CongRefl(q, a);
    CongMul(q, a, a, PowMod(a', q - 2, q), e);
    CongTrans(q, a * PowMod(a', q - 2, q), a * e, 1);
  }

  ghost predicate NonResidue(q: nat, d: nat) {
    forall w, z :: Zero(q, Mul(w, w) - Mul(d, Mul(z, z))) ==> Zero(q, z)
  }

  lemma MulTwin(a: int, ra: real, b: int, rb: real)
    requires a as real == ra && b as real == rb
    ensures Mul(a, b) as real == ra * rb
  {}

  lemma NonResidueBridge(q: nat, d: nat, w: real, z: real)
    requires NonResidue(q, d) && IsWhole(w) && IsWhole(z) && IsMultiple(q, w * w - Re(d) * z * z)
    ensures IsMultiple(q, z)
  {
    var j, k :| w == Re(j) && z == Re(k);
    var m :| w * w - Re(d) * z * z == Re(m) && Zero(q, m);
    var n := ResidueForm(q, d, j, k);
    assert m == n;
  }

  lemma ResidueForm(q: nat, d: nat, j: int, k: int) returns (n: int)
    requires NonResidue(q, d)
    ensures Re(n) == Re(j) * Re(j) - Re(d) * Re(k) * Re(k)
    ensures Zero(q, n) ==> Zero(q, k)
  {
    n := Mul(j, j) - Mul(d, Mul(k, k));
    MulTwin(j, Re(j), j, Re(j));
    MulTwin(k, Re(k), k, Re(k));
    MulTwin(d, Re(d), Mul(k, k), Re(k) * Re(k));
  }

  function CurveEquation(d: int, x: int, y: int): int { -x * x + y * y - 1 - d * x * x * y * y }

  lemma CurveTwin(d: int, x: int, y: int)
    ensures Re(CurveEquation(d, x, y)) == NormPart(Re(x), Re(y)) - 1.0 - MixedPart(Re(d), Re(x), Re(y))
  {
    MixedTwin(d, x, x, y, y);
    Twin(-x, -Re(x), x, Re(x));
    Twin(y, Re(y), y, Re(y));
  }

  lemma SameMultiple(q: nat, e: int, r: real)
    requires Re(e) == r
    ensures IsMultiple(q, r) <==> Zero(q, e)
  {
    if IsMultiple(q, r) {
      var k :| r == Re(k) && Zero(q, k);
      assert k == e;
    }
  }

  lemma NotZero(q: nat, e: int, r: real)
    requires Re(e) == r && !IsMultiple(q, r)
    ensures !Zero(q, e)
  {}

  lemma SameResidue(q: nat, a: nat, b: nat)
    requires a < q && b < q && IsMultiple(q, Re(a) - Re(b))
    ensures a == b
  {
    var k :| Re(a) - Re(b) == Re(k) && Zero(q, k);
    assert k == a - b;
    ZeroSmall(q, k);
  }

  lemma SmallMod(q: nat, a: nat)
    requires a < q
    ensures (q - a) % q == if a == 0 then 0 else q - a
  {}

  lemma SumSwap(f: Ring, d: real, x1: real, y1: real, x2: real, y2: real, x: real, y: real)
    requires f.Sum(d, x1, y1, x2, y2, x, y)
    ensures f.Sum(d, x2, y2, x1, y1, x, y)
  {}

  lemma SumIdentity(f: Ring, d: real, x: real, y: real)
    requires f.Valid() && x in f.elems && y in f.elems
    ensures f.Sum(d, x, y, 0.0, 1.0, x, y)
  {
    assert 0.0 in f.elems;
  }

  lemma MixedTwin(d: int, x1: int, x2: int, y1: int, y2: int)
    ensures (d * x1 * x2 * y1 * y2) as real == Re(d) * Re(x1) * Re(x2) * Re(y1) * Re(y2)
  {
    Twin(d, Re(d), x1, Re(x1));
    Twin(d * x1, Re(d) * Re(x1), x2, Re(x2));
    Twin(d * x1 * x2, Re(d) * Re(x1) * Re(x2), y1, Re(y1));
    Twin(d * x1 * x2 * y1, Re(d) * Re(x1) * Re(x2) * Re(y1), y2, Re(y2));
  }

  function Re(k: int): real { k as real }

  ghost predicate IsWhole(r: real) { exists k :: r == Re(k) }

  ghost predicate IsMultiple(q: nat, r: real) { exists k :: r == Re(k) && Zero(q, k) }

  lemma Twin(a: int, ra: real, b: int, rb: real)
    requires a as real == ra && b as real == rb
    ensures (a * b) as real == ra * rb
  {}

  lemma WholeLiteral(k: int)
    ensures IsWhole(k as real)
  {
    assert k as real == Re(k);
  }

  lemma NotMultiple(q: nat, k: int)
    requires 0 < k < q
    ensures !IsMultiple(q, k as real)
  {
    if IsMultiple(q, k as real) {
      var j :| k as real == Re(j) && Zero(q, j);
      assert j == k;
      ZeroSmall(q, k);
    }
  }

  lemma WholeRing(a: real, b: real)
    requires IsWhole(a) && IsWhole(b)
    ensures IsWhole(a + b) && IsWhole(a - b) && IsWhole(a * b)
  {
    var j, k :| a == Re(j) && b == Re(k);
    Twin(j, a, k, b);
    assert a + b == Re(j + k) && a - b == Re(j - k) && a * b == Re(j * k);
  }

  lemma IdealSum(q: nat, a: real, b: real)
    requires IsMultiple(q, a) && IsMultiple(q, b)
    ensures IsMultiple(q, a + b) && IsMultiple(q, a - b)
  {
    var j :| a == Re(j) && Zero(q, j);
    var k :| b == Re(k) && Zero(q, k);
    ZeroSum(q, j, k);
    assert a + b == Re(j + k) && a - b == Re(j - k);
  }

  lemma IdealScale(q: nat, a: real, b: real)
    requires IsWhole(a) && IsMultiple(q, b)
    ensures IsMultiple(q, a * b)
  {
    var j :| a == Re(j);
    var k :| b == Re(k) && Zero(q, k);
    ZeroScale(q, j, k);
    Twin(j, a, k, b);
    assert a * b == Re(j * k);
  }

  lemma IdealPrime(q: nat, a: real, b: real)
    requires Prime(q) && IsWhole(a) && IsWhole(b) && IsMultiple(q, a * b)
    ensures IsMultiple(q, a) || IsMultiple(q, b)
  {
    var j, k :| a == Re(j) && b == Re(k);
    Twin(j, a, k, b);
    var m :| a * b == Re(m) && Zero(q, m);
    assert m == j * k;
    Euclid(q, j, k);
  }
}
