/** Point compression: 32 little-endian bytes hold y and the low bit of x. */
module PointCodec {
  import opened Common
  import opened ModArith
  import opened Primes
  import opened CurveAlgebra
  import opened Edwards

  const HIGH_BIT: nat := 0x8000_0000_0000_0000_0000_0000_0000_0000_0000_0000_0000_0000_0000_0000_0000_0000

  // ---- little-endian integers ----

  function FromLittle(b: seq<byte>): nat {
    if b == [] then 0 else b[0] + 256 * FromLittle(b[1..])
  }

  function ToLittle(n: nat, size: nat): (b: seq<byte>)
    ensures |b| == size
  {
    if size == 0 then [] else [n % 256] + ToLittle(n / 256, size - 1)
  }

  lemma {:induction false} FromToLittle(n: nat, size: nat)
    requires n < Exp(256, size)
    ensures FromLittle(ToLittle(n, size)) == n
  {
    if size != 0 {
      assert Exp(256, size) == 256 * Exp(256, size - 1);
      FromToLittle(n / 256, size - 1);
      assert ToLittle(n, size)[1..] == ToLittle(n / 256, size - 1);
    }
  }

  lemma {:induction false} ToFromLittle(b: seq<byte>)
    ensures ToLittle(FromLittle(b), |b|) == b && FromLittle(b) < Exp(256, |b|)
  {
    if b != [] {
      ToFromLittle(b[1..]);
      LowByte(b[0], FromLittle(b[1..]));
      assert Exp(256, |b|) == 256 * Exp(256, |b| - 1);
      assert b == [b[0]] + b[1..];
    }
  }

  /** The byte of a number at a place, lowest first. */
  function ByteOf(n: nat, k: nat): nat {
    if k == 0 then n % 256 else ByteOf(n / 256, k - 1)
  }

  lemma {:induction false} FromLittleByte(b: seq<byte>, k: nat)
    requires k < |b|
    ensures ByteOf(FromLittle(b), k) == b[k]
  {
    LowByte(b[0], FromLittle(b[1..]));
    if k > 0 { FromLittleByte(b[1..], k - 1); }
  }

  lemma LowByte(b: byte, m: nat)
    ensures (b + 256 * m) % 256 == b && (b + 256 * m) / 256 == m
  {}

  lemma Exp256()
    ensures Exp(256, 32) == 2 * HIGH_BIT
  {
    assert Exp(256, 4) == 0x1_0000_0000;
    ExpAdd(256, 4, 4);
    ExpAdd(256, 8, 8);
    ExpAdd(256, 16, 16);
  }

  // ---- square roots modulo a prime that is 5 modulo 8 ----

  /** The candidate root squares to z or to -z, whenever z is a square. */
  lemma CandidateRoot(q: nat, z: nat, w: int, k: nat, r: nat)
    requires Prime(q) && 8 * k == q + 3 && Cong(q, w * w, z) && r == PowMod(z, k, q)
    ensures Zero(q, r * r - z) || Zero(q, r * r + z)
  {
    var e := Exp(z, k);
    ModFacts(q, e);
    if Zero(q, z) {
      assert e == z * Exp(z, k - 1);
      ZeroScale(q, Exp(z, k - 1), z);
      ZeroScale(q, e, e);
      ZeroSum(q, e * e, z);
    } else {
      FourthPower(q, z, w, k, (q - 1) / 2);
      PlusOrMinus(q, e, z);
    }
    SquareResidue(q, r, e, z);
  }

  lemma SquareResidue(q: nat, r: int, e: int, z: int)
    requires Cong(q, r, e)
    ensures Zero(q, e * e - z) ==> Zero(q, r * r - z)
    ensures Zero(q, e * e + z) ==> Zero(q, r * r + z)
  {
    CongMul(q, r, e, r, e);
    if Zero(q, e * e - z) {
      ZeroSum(q, r * r - e * e, e * e - z);
      assert r * r - e * e + (e * e - z) == r * r - z;
    }
    if Zero(q, e * e + z) {
      ZeroSum(q, r * r - e * e, e * e + z);
      assert r * r - e * e + (e * e + z) == r * r + z;
    }
  }

  lemma PlusOrMinus(q: nat, e: int, z: int)
    requires Prime(q) && Zero(q, e * e * (e * e) - z * z)
    ensures Zero(q, e * e - z) || Zero(q, e * e + z)
  {
    var s := e * e;
    assert (s - z) * (s + z) == s * s - z * z;
    Euclid(q, s - z, s + z);
  }

  lemma FourthPower(q: nat, z: nat, w: int, k: nat, h: nat)
    requires Prime(q) && Cong(q, w * w, z) && !Zero(q, z) && 4 * k == h + 2 && 2 * h == q - 1
    ensures var e := Exp(z, k); Zero(q, e * e * (e * e) - z * z)
  {
    var e := Exp(z, k);
    ExpAdd(z, k, k);
    ExpAdd(z, 2 * k, 2 * k);
    ExpAdd(z, h, 2);
    assert Exp(z, 2) == z * z by { assert Exp(z, 1) == z * Exp(z, 0); }
    EulerOne(q, z, w, h);
    ZeroScale(q, z * z, Exp(z, h) - 1);
    assert z * z * (Exp(z, h) - 1) == Exp(z, h) * (z * z) - z * z;
  }

  /** Euler's criterion, the easy half: a nonzero square to the power (q - 1) / 2 is 1. */
  lemma EulerOne(q: nat, z: int, w: int, h: nat)
    requires Prime(q) && Cong(q, w * w, z) && !Zero(q, z) && 2 * h == q - 1
    ensures Cong(q, Exp(z, h), 1)
  {
    if Zero(q, w) {
      ZeroScale(q, w, w);
      CongSym(q, w * w, z);
      CongZero(q, z, w * w);
    }
    Fermat(q, w);
    ExpBase(w, w, h);
    ExpAdd(w, h, h);
    CongExp(q, w * w, z, h);
    CongSym(q, Exp(w * w, h), Exp(z, h));
    CongTrans(q, Exp(z, h), Exp(w * w, h), 1);
  }

  // ---- recovering x from y ----

  function XSquared(c: Params, y: nat): nat
    requires c.q > 2
  {
    c.Over(y * y - 1, c.d * y * y + 1)
  }

  /** The even-handed root of the delivery verifier; it fails where y is on no curve point. */
  function RecoverX(c: Params, y: nat): (r: Option<nat>)
    requires c.q > 2
    ensures r.Some? ==> r.value < c.q
  {
    var xx := XSquared(c, y);
    Checked(c.q, RootOf(c, xx, (c.q + 3) / 8), xx)
  }

  /** x, if it is a square root of xx. */
  function Checked(q: nat, x: nat, xx: int): Option<nat>
    requires q > 0
  {
    if (x * x - xx) % q != 0 then None else Some(x)
  }

  /** The candidate root, turned by the square root of -1 when it squares to the wrong sign. */
  function RootOf(c: Params, xx: int, k: nat): (r: nat)
    requires c.q > 2
    ensures r < c.q
  {
    var x := PowMod(xx, k, c.q);
    if (x * x - xx) % c.q != 0 then (x * c.i) % c.q else x
  }

  /** The root of the team-context verifier: even, and unchecked. */
  function XRecover(c: Params, y: nat): (r: nat)
    requires c.q > 2
    ensures r < c.q
  {
    var x := RootOf(c, (y * y - 1) * PowMod(c.d * y * y + 1, c.q - 2, c.q), (c.q + 3) / 8);
    if x % 2 != 0 then c.q - x else x
  }

  lemma CurveSplit(d: int, x: int, y: int)
    ensures CurveEquation(d, x, y) == (y * y - 1) - x * x * (d * y * y + 1)
  {
    CurveTwin(d, x, y);
    var m := d * y * y + 1;
    Twin(y, Re(y), y, Re(y));
    Twin(d, Re(d), y, Re(y));
    Twin(d * y, Re(d) * Re(y), y, Re(y));
    Twin(x, Re(x), x, Re(x));
    Twin(x * x, Re(x) * Re(x), m, Re(d) * Re(y) * Re(y) + 1.0);
    assert Re((y * y - 1) - x * x * m) == NormPart(Re(x), Re(y)) - 1.0 - MixedPart(Re(d), Re(x), Re(y));
  }

  lemma DenominatorNonzero(c: Params, y: nat)
    requires c.Good()
    ensures !Zero(c.q, c.d * y * y + 1)
  {
    var q, d, m := c.q, c.d, c.d * y * y + 1;
    if Zero(q, m) {
      assert Mul(c.i, c.i) - Mul(d, Mul(y, y)) == (c.i * c.i - -1) - m by { assert d * y * y == d * (y * y); }
      ZeroSum(q, c.i * c.i - -1, m);
      ZeroScale(q, d * y, y);
      ZeroSum(q, m, d * y * y);
      assert m - d * y * y == 1;
      ZeroSmall(q, 1);
      assert false;
    }
  }

  /** A pair is on the curve exactly when its x squares to the recovered value. */
  lemma OnCurveSquare(c: Params, x: nat, y: nat)
    requires c.Good() && x < c.q && y < c.q
    ensures c.OnCurve(Point(x, y)) <==> Zero(c.q, x * x - XSquared(c, y))
  {
    var q, xx, m, n, s := c.q, XSquared(c, y), c.d * y * y + 1, y * y - 1, x * x;
    c.OnCurveEquation(Point(x, y));
    CurveSplit(c.d, x, y);
    ModFacts(q, CurveEquation(c.d, x, y));
    DenominatorNonzero(c, y);
    CongRefl(q, m);
    QuotientInteger(q, n, m, m, xx);
    SquareQuotient(q, s, xx, m, n);
  }

  lemma SquareQuotient(q: nat, s: int, xx: int, m: int, n: int)
    requires Prime(q) && !Zero(q, m) && Zero(q, xx * m - n)
    ensures Zero(q, n - s * m) <==> Zero(q, s - xx)
  {
    if Zero(q, s - xx) { SquareQuotientTo(q, s, xx, m, n); }
    if Zero(q, n - s * m) { SquareQuotientFrom(q, s, xx, m, n); }
  }

  lemma SquareQuotientTo(q: nat, s: int, xx: int, m: int, n: int)
    requires Zero(q, xx * m - n) && Zero(q, s - xx)
    ensures Zero(q, n - s * m)
  {
    ZeroLin(q, -m, s - xx, -1, xx * m - n);
    assert -m * (s - xx) + -1 * (xx * m - n) == n - s * m;
  }

  lemma SquareQuotientFrom(q: nat, s: int, xx: int, m: int, n: int)
    requires Prime(q) && !Zero(q, m) && Zero(q, xx * m - n) && Zero(q, n - s * m)
    ensures Zero(q, s - xx)
  {
    ZeroSum(q, n - s * m, xx * m - n);
    assert n - s * m + (xx * m - n) == (xx - s) * m;
    Euclid(q, xx - s, m);
    CongSym(q, xx, s);
  }

  lemma RecoverXCorrect(c: Params, y: nat)
    requires c.Good() && y < c.q
    ensures match RecoverX(c, y)
      case Some(x) => x < c.q && c.OnCurve(Point(x, y))
      case None => forall x: nat :: x < c.q ==> !c.OnCurve(Point(x, y))
  {
    var x := RootOf(c, XSquared(c, y), (c.q + 3) / 8);
    RecoverXSome(c, y);
    OnCurveSquare(c, x, y);
    forall w: nat | w < c.q && c.OnCurve(Point(w, y))
      ensures RecoverX(c, y).Some?
    {
      OnCurveSquare(c, w, y);
      RootFound(c, XSquared(c, y), w);
    }
  }

  lemma RecoverXSome(c: Params, y: nat)
    requires c.q > 2
    ensures var xx := XSquared(c, y); var x := RootOf(c, xx, (c.q + 3) / 8);
      && (RecoverX(c, y).Some? <==> Zero(c.q, x * x - xx)) && (RecoverX(c, y).Some? ==> RecoverX(c, y).value == x)
  {
    CheckedRoot(c.q, RootOf(c, XSquared(c, y), (c.q + 3) / 8), XSquared(c, y));
  }

  lemma CheckedRoot(q: nat, x: nat, xx: int)
    requires q > 0
    ensures Checked(q, x, xx).Some? <==> Zero(q, x * x - xx)
  {
    ModFacts(q, x * x - xx);
  }

  lemma RootFound(c: Params, xx: nat, w: nat)
    requires c.Good() && xx < c.q && Cong(c.q, w * w, xx)
    ensures var x := RootOf(c, xx, (c.q + 3) / 8); Zero(c.q, x * x - xx)
  {
    ChosenRoot(c, xx, w, PowMod(xx, (c.q + 3) / 8, c.q));
  }

  lemma ChosenRoot(c: Params, xx: nat, w: nat, r: nat)
    requires c.Good() && xx < c.q && Cong(c.q, w * w, xx) && r == PowMod(xx, (c.q + 3) / 8, c.q)
    ensures var x := if (r * r - xx) % c.q != 0 then (r * c.i) % c.q else r; Zero(c.q, x * x - xx)
  {
    ModFacts(c.q, r * r - xx);
    CandidateRoot(c.q, xx, w, (c.q + 3) / 8, r);
    if Zero(c.q, r * r + xx) { TurnedRoot(c.q, c.i, r, xx); }
  }

  /** Multiplying by the square root of -1 turns a root of -z into a root of z. */
  lemma TurnedRoot(q: nat, i: int, r: int, z: int)
    requires q > 0 && Cong(q, i * i, -1) && Zero(q, r * r + z)
    ensures var x := (r * i) % q; Zero(q, x * x - z)
  {
    var p := r * i;
    var x := p % q;
    ModFacts(q, p);
    TurnedSquare(q, i, r, z);
    SquareResidue(q, x, p, z);
  }

  lemma TurnedSquare(q: nat, i: int, r: int, z: int)
    requires Cong(q, i * i, -1) && Zero(q, r * r + z)
    ensures Zero(q, r * i * (r * i) - z)
  {
    ZeroLin(q, r * r, i * i - -1, -1, r * r + z);
    Regroup(r, i, r, i);
    var s, t := r * r, i * i;
    assert s * (t - -1) + -1 * (s + z) == s * t - z;
  }

  lemma SameY(c: Params, x: nat, x': nat, y: nat)
    requires c.Good() && c.OnCurve(Point(x, y)) && c.OnCurve(Point(x', y))
    ensures x == x' || x + x' == c.q
  {
    var q, xx := c.q, XSquared(c, y);
    OnCurveSquare(c, x, y);
    OnCurveSquare(c, x', y);
    ZeroSum(q, x * x - xx, x' * x' - xx);
    assert (x - x') * (x + x') == x * x - xx - (x' * x' - xx);
    Euclid(q, x - x', x + x');
    if Zero(q, x - x') {
      ZeroSmall(q, x - x');
    } else {
      ZeroIntro(q, 1, q);
      ZeroSum(q, x + x', q);
      ZeroSmall(q, x + x' - q);
    }
  }

  lemma MirrorOnCurve(c: Params, x: nat, y: nat)
    requires c.Good() && c.OnCurve(Point(x, y)) && 0 < x
    ensures c.OnCurve(Point(c.q - x, y))
  {
    c.AddNegative(Point(x, y));
    SmallMod(c.q, x);
  }

  // ---- encoding and decoding points ----

  function Encode(p: Point): seq<byte> {
    ToLittle(p.y + p.x % 2 * HIGH_BIT, 32)
  }

  function Decode(c: Params, value: seq<byte>): Option<Point>
    requires c.q > 2
  {
    if |value| != 32 then None
    else DecodeParts(c, FromLittle(value) / HIGH_BIT, FromLittle(value) % HIGH_BIT)
  }

  function DecodeParts(c: Params, sign: nat, y: nat): Option<Point>
    requires c.q > 2
  {
    if y >= c.q then None else Pick(c.q, RecoverX(c, y), sign, y)
  }

  /** Of the two points with this y, the one whose x has the parity of the sign bit. */
  function Pick(q: nat, root: Option<nat>, sign: nat, y: nat): Option<Point>
    requires root.Some? ==> root.value < q
  {
    match root
    case None => None
    case Some(x) =>
      if x == 0 && sign != 0 then None
      else Some(Point(if x % 2 != sign then q - x else x, y))
  }

  function TeamDecode(c: Params, s: seq<byte>): Option<Point>
    requires c.q > 2 && |s| == 32
  {
    TeamDecodeParts(c, s[31] / 128 % 2, FromLittle(s) % HIGH_BIT)
  }

  function TeamDecodeParts(c: Params, sign: nat, y: nat): Option<Point>
    requires c.q > 2
  {
    if y >= c.q then None else
    var x := XRecover(c, y);
    if x == 0 && sign != 0 then None else
    var p := Point((if x % 2 != sign then c.q - x else x) % c.q, y % c.q);
    if CurveEquation(c.d, p.x, p.y) % c.q == 0 then Some(p) else None
  }

  /** The possible values of x for one y. */
  ghost function Column(c: Params, y: nat): iset<nat>
  {
    iset x: nat | c.OnCurve(Point(x, y))
  }

  ghost predicate Describes(q: nat, root: Option<nat>, column: iset<nat>) {
    match root
    case None => column == iset{}
    case Some(x) =>
      && x < q && x in column && (0 < x ==> q - x in column)
      && forall w :: w in column ==> w < q && (w == x || w + x == q)
  }

  lemma RecoverXDescribes(c: Params, y: nat)
    requires c.Good() && y < c.q
    ensures Describes(c.q, RecoverX(c, y), Column(c, y))
  {
    RecoverXCorrect(c, y);
    match RecoverX(c, y)
    case None =>
    case Some(x) =>
      if 0 < x { MirrorOnCurve(c, x, y); }
      forall w | w in Column(c, y)
        ensures w < c.q && (w == x || w + x == c.q)
      {
        SameY(c, x, w, y);
      }
  }

  lemma PickCorrect(q: nat, root: Option<nat>, column: iset<nat>, sign: nat, y: nat, p: Point)
    requires q % 2 == 1 && sign < 2 && Describes(q, root, column)
    ensures Pick(q, root, sign, y) == Some(p) <==> p.x in column && p.y == y && p.x % 2 == sign
  {}

  /** The points a sign and a y decode to are the curve points with that y and parity of x. */
  lemma DecodePartsCorrect(c: Params, sign: nat, y: nat, p: Point)
    requires c.Good() && sign < 2
    ensures DecodeParts(c, sign, y) == Some(p) <==> c.OnCurve(p) && p.y == y && p.x % 2 == sign
  {
    InColumn(c, y, p);
    if y < c.q {
      RecoverXDescribes(c, y);
      PickCorrect(c.q, RecoverX(c, y), Column(c, y), sign, y, p);
    }
  }

  lemma InColumn(c: Params, y: nat, p: Point)
    ensures p.y == y ==> (p.x in Column(c, y) <==> c.OnCurve(p)) && (c.OnCurve(p) ==> y < c.q)
  {
    assert p == Point(p.x, p.y);
  }

  lemma TeamDecodePartsSame(c: Params, sign: nat, y: nat)
    requires c.Good() && sign < 2
    ensures TeamDecodeParts(c, sign, y) == DecodeParts(c, sign, y)
  {
    if y < c.q {
      XRecoverIsRecoverX(c, y);
      RecoverXDescribes(c, y);
      TeamPickSame(c.q, RecoverX(c, y), Column(c, y), sign, y, XRecover(c, y));
      TeamFilter(c, sign, y);
    }
  }

  function Flip(q: nat, x: nat, sign: nat): nat
    requires x < q
  {
    if x % 2 != sign then q - x else x
  }

  ghost function OnlyIf(b: bool, p: Point): Option<Point> {
    if b then Some(p) else None
  }

  lemma TeamFilter(c: Params, sign: nat, y: nat)
    requires c.Good() && y < c.q && sign < 2
    ensures var x := XRecover(c, y);
      (x == 0 && sign != 0 ==> TeamDecodeParts(c, sign, y) == None)
      && (!(x == 0 && sign != 0) ==>
            TeamDecodeParts(c, sign, y) == OnlyIf(Flip(c.q, x, sign) in Column(c, y), Point(Flip(c.q, x, sign), y)))
  {
    var x := XRecover(c, y);
    if !(x == 0 && sign != 0) {
      var v := Flip(c.q, x, sign);
      Small(c.q, v);
      Small(c.q, y);
      c.OnCurveEquation(Point(v, y));
    }
  }

  lemma TeamPickSame(q: nat, root: Option<nat>, column: iset<nat>, sign: nat, y: nat, x: nat)
    requires q % 2 == 1 && sign < 2 && y < q && Describes(q, root, column) && x < q
    requires root.Some? ==> x == if root.value % 2 != 0 then q - root.value else root.value
    ensures x == 0 && sign != 0 ==> Pick(q, root, sign, y) == None
    ensures !(x == 0 && sign != 0) ==>
              Pick(q, root, sign, y) == OnlyIf(Flip(q, x, sign) in column, Point(Flip(q, x, sign), y))
  {}

  lemma Small(q: nat, a: nat)
    requires a < q
    ensures a % q == a
  {}

  lemma Splits(h: nat, y: nat, sign: nat)
    requires y < h && sign < 2
    ensures (y + sign * h) / h == sign && (y + sign * h) % h == y
  {
    var q, r := (y + sign * h) / h, (y + sign * h) % h;
    Quotient(y + sign * h, h, q, r);
    assert (q - sign) * h == q * h - sign * h;
    MulBound(q - sign, h);
  }

  lemma Quotient(n: nat, h: nat, q: nat, r: nat)
    requires h > 0 && q == n / h && r == n % h
    ensures n == q * h + r && r < h
  {}

  lemma Joins(h: nat, n: nat)
    requires n < 2 * h
    ensures n / h < 2 && n % h < h && n == n % h + n / h * h
  {}

  /** Decoding and encoding are inverse: a point has exactly one accepted encoding, and
      the accepted byte strings are the encodings of the curve points. */
  lemma DecodeIffEncode(c: Params, value: seq<byte>, p: Point)
    requires c.Good() && c.q <= HIGH_BIT
    ensures Decode(c, value) == Some(p) <==> c.OnCurve(p) && Encode(p) == value
  {
    if c.OnCurve(p) && Encode(p) == value {
      EncodedParts(p);
      DecodePartsCorrect(c, p.x % 2, p.y, p);
    }
    if Decode(c, value) == Some(p) {
      EncodesDecoded(c, value, p);
    }
  }

  lemma EncodedParts(p: Point)
    requires p.y < HIGH_BIT
    ensures |Encode(p)| == 32
    ensures var n := FromLittle(Encode(p)); n / HIGH_BIT == p.x % 2 && n % HIGH_BIT == p.y
  {
    Exp256();
    FromToLittle(p.y + p.x % 2 * HIGH_BIT, 32);
    Splits(HIGH_BIT, p.y, p.x % 2);
  }

  lemma EncodesDecoded(c: Params, value: seq<byte>, p: Point)
    requires c.Good() && Decode(c, value) == Some(p)
    ensures c.OnCurve(p) && Encode(p) == value
  {
    Exp256();
    ToFromLittle(value);
    var n := FromLittle(value);
    Joins(HIGH_BIT, n);
    DecodePartsCorrect(c, n / HIGH_BIT, n % HIGH_BIT, p);
  }

  lemma {:induction false} FromLittleLast(b: seq<byte>)
    requires b != []
    ensures FromLittle(b) == FromLittle(b[..|b| - 1]) + Exp(256, |b| - 1) * b[|b| - 1]
  {
    if |b| > 1 {
      var t := b[1..];
      FromLittleLast(t);
      assert b[..|b| - 1][1..] == t[..|t| - 1];
      assert Exp(256, |b| - 1) == 256 * Exp(256, |t| - 1);
      HornerStep(FromLittle(t[..|t| - 1]), Exp(256, |t| - 1), t[|t| - 1]);
    } else {
      assert FromLittle(b[1..]) == 0 && FromLittle(b[..0]) == 0 && Exp(256, 0) == 1;
    }
  }

  lemma HornerStep(a: int, e: int, k: int)
    ensures 256 * (a + e * k) == 256 * a + 256 * e * k
  {}

  lemma TopBit(b: seq<byte>)
    requires |b| == 32
    ensures FromLittle(b) / HIGH_BIT == b[31] / 128
  {
    FromLittleLast(b);
    ToFromLittle(b[..31]);
    Exp31();
    TopBitBound(HIGH_BIT / 128, FromLittle(b[..31]), b[31]);
  }

  lemma Exp31()
    ensures Exp(256, 31) == HIGH_BIT / 128
  {
    Exp256();
    assert Exp(256, 32) == 256 * Exp(256, 31);
  }

  lemma TopBitBound(h: nat, low: nat, top: byte)
    requires low < h
    ensures (low + h * top) / (128 * h) == top / 128
  {
    if top < 128 {
      TopBitRange(h, low, top);
      Splits(128 * h, low + h * top, 0);
    } else {
      TopBitRange(h, low, top - 128);
      assert low + h * top == (low + h * (top - 128)) + 1 * (128 * h);
      Splits(128 * h, low + h * (top - 128), 1);
    }
  }

  lemma TopBitRange(h: nat, low: nat, k: nat)
    requires low < h && k < 128
    ensures 0 <= low + h * k < 128 * h
  {
    assert h * k <= h * 127;
  }

  /** The unreduced intermediate of the team-context verifier makes no difference. */
  lemma XRecoverIsRecoverX(c: Params, y: nat)
    requires c.Good() && y < c.q
    ensures RecoverX(c, y).Some? ==>
      var x := RecoverX(c, y).value; XRecover(c, y) == if x % 2 != 0 then c.q - x else x
  {
    var xx := (y * y - 1) * PowMod(c.d * y * y + 1, c.q - 2, c.q);
    RootOfResidue(c, xx, (c.q + 3) / 8);
  }

  lemma RootOfResidue(c: Params, xx: int, k: nat)
    requires c.q > 2
    ensures RootOf(c, xx, k) == RootOf(c, xx % c.q, k)
  {
    var q, xx' := c.q, xx % c.q;
    ModFacts(q, xx);
    CongExp(q, xx, xx', k);
    CongMod(q, Exp(xx, k), Exp(xx', k));
    var x := PowMod(xx, k, q);
    assert (x * x - xx') - (x * x - xx) == xx - xx';
    CongMod(q, x * x - xx', x * x - xx);
  }

  /** The two decoders accept the same bytes, as the same points. */
  lemma DecodersAgree(c: Params, s: seq<byte>)
    requires c.Good() && c.q <= HIGH_BIT && |s| == 32
    ensures TeamDecode(c, s) == Decode(c, s)
  {
    TopBit(s);
    TeamDecodePartsSame(c, s[31] / 128, FromLittle(s) % HIGH_BIT);
  }
}