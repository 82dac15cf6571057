/** Ed25519 signatures as the two verifiers implement them (RFC 8032, sections 5.1.5 to 5.1.7).
    SHA-512 is a parameter: any function from bytes to 64 bytes. */
module Ed25519 {
  import opened Bits
  import opened Common
  import opened ModArith
  import opened Primes
  import opened Edwards
  import opened PointCodec

  type Digest = b: seq<byte> | |b| == 64 witness seq(64, _ => 0)

  type Hash = seq<byte> -> Digest

  const BIT_254: nat := 0x4000_0000_0000_0000_0000_0000_0000_0000_0000_0000_0000_0000_0000_0000_0000_0000

  lemma Exp254()
    ensures Exp(2, 254) == BIT_254 && Exp(2, 255) == 2 * BIT_254
  {
    assert Exp(2, 8) == 256;
    ExpMul(2, 8, 31);
    Exp31();
    assert Exp(2, 6) == 64;
    ExpAdd(2, 248, 6);
  }

  /** Keep bits 3 to 253 and set bit 254. */
  function Clamp(n: nat): nat {
    n % BIT_254 / 8 * 8 + BIT_254
  }

  /** The class constants: the curve, the group order and the base point. */
  datatype Suite = Suite(c: Params, l: nat, base: Point) {

    /** What the proofs need of the constants; established in module Constants. */
    ghost predicate Sound() {
      && c.Good() && c.q <= HIGH_BIT
      && Prime(l) && BIT_254 < 4 * l < 2 * BIT_254
      && c.OnCurve(base) && base != IDENTITY && c.Multiple(base, l) == IDENTITY
    }

    // ---- specification ----

    ghost function Times(n: nat): Point
      requires c.q > 2
    {
      c.Multiple(base, n)
    }

    function Secret(h: Hash, seed: seq<byte>): nat {
      Clamp(FromLittle(h(seed)[..32]))
    }

    function Nonce(h: Hash, message: seq<byte>, seed: seq<byte>): nat
      requires l > 0
    {
      FromLittle(h(h(seed)[32..] + message)) % l
    }

    function Challenge(h: Hash, r: seq<byte>, public: seq<byte>, message: seq<byte>): nat
      requires l > 0
    {
      FromLittle(h(r + public + message)) % l
    }

    ghost function PublicSpec(h: Hash, seed: seq<byte>): Option<seq<byte>>
      requires c.q > 2
    {
      if |seed| != 32 then None else Some(Encode(Times(Secret(h, seed))))
    }

    ghost function SignSpec(h: Hash, message: seq<byte>, seed: seq<byte>): Option<seq<byte>>
      requires c.q > 2 && l > 0
    {
      if |seed| != 32 then None else
      var r := Encode(Times(Nonce(h, message, seed)));
      var k := Challenge(h, r, PublicSpec(h, seed).value, message);
      Some(r + ToLittle((Nonce(h, message, seed) + k * Secret(h, seed)) % l, 32))
    }

    ghost predicate SmallOrder(p: Point)
      requires c.q > 2
    {
      c.Multiple(p, 8) == IDENTITY
    }

    /** The verification equation, for decoded points and a reduced scalar. */
    ghost predicate Equation(h: Hash, signature: seq<byte>, message: seq<byte>, public: seq<byte>, r: Point, a: Point)
      requires c.q > 2 && l > 0 && |signature| == 64
    {
      Times(FromLittle(signature[32..])) == c.Add(r, c.Multiple(a, Challenge(h, signature[..32], public, message)))
    }

    ghost predicate VerifySpec(h: Hash, signature: seq<byte>, message: seq<byte>, public: seq<byte>)
      requires c.q > 2 && l > 0
    {
      && |signature| == 64
      && FromLittle(signature[32..]) < l
      && var r, a := Decode(c, signature[..32]), Decode(c, public);
      && r.Some? && a.Some?
      && !SmallOrder(r.value) && !SmallOrder(a.value)
      && Equation(h, signature, message, public, r.value, a.value)
    }

    ghost predicate StrictPrimeOrder(p: Point)
      requires c.q > 2
    {
      c.Multiple(p, 8) != IDENTITY && c.Multiple(p, l) == IDENTITY
    }

    /** The points of order exactly l. */
    ghost predicate OfOrder(p: Point)
      requires c.q > 2 && l > 0
    {
      forall n: nat :: c.Multiple(p, n) == IDENTITY <==> n % l == 0
    }

    ghost predicate StrictSpec(h: Hash, public: seq<byte>, message: seq<byte>, signature: seq<byte>)
      requires c.q > 2 && l > 0
    {
      && |public| == 32 && |signature| == 64
      && var a, r := TeamDecode(c, public), TeamDecode(c, signature[..32]);
      && a.Some? && StrictPrimeOrder(a.value) && r.Some? && StrictPrimeOrder(r.value)
      && FromLittle(signature[32..]) < l
      && Equation(h, signature, message, public, r.value, a.value)
    }

    // ---- the cyclic group generated by the base point ----

    lemma TimesOnCurve(n: nat)
      requires Sound()
      ensures c.OnCurve(Times(n))
    {
      c.MultipleOnCurve(base, n);
    }

    lemma TimesOfOrder(k: nat)
      requires Sound()
      ensures k * l >= 0 && Times(k * l) == IDENTITY
    {
      c.MultipleProduct(base, l, k);
      c.MultipleIdentity(k);
      assert k * l == l * k;
    }

    /** The base point has order exactly l. */
    lemma TimesIsIdentity(n: nat)
      requires Sound()
      ensures Times(n) == IDENTITY <==> n % l == 0
    {
      if n % l == 0 {
        TimesWhole(n);
      } else {
        TimesNotIdentity(n);
      }
    }

    lemma TimesWhole(n: nat)
      requires Sound() && n % l == 0
      ensures Times(n) == IDENTITY
    {
      TimesReduced(n);
    }

    lemma TimesNotIdentity(n: nat)
      requires Sound() && n % l != 0
      ensures Times(n) != IDENTITY
    {
      var u, k := InverseOf(l, n);
      TimesNext(n, u, k);
    }

    lemma TimesNext(n: nat, u: nat, k: nat)
      requires Sound() && u * n == 1 + k * l
      ensures Times(n) != IDENTITY
    {
      c.MultipleProduct(base, n, u);
      c.MultipleIdentity(u);
      assert n * u == u * n;
      TimesOfOrder(k);
      c.MultipleSum(base, 1, k * l);
      c.MultipleOne(base);
      c.AddIdentity(base);
    }

    lemma TimesReduced(n: nat)
      requires Sound()
      ensures Times(n % l) == Times(n)
    {
      var k := Divide(l, n);
      TimesOfOrder(k);
      c.MultipleSum(base, n % l, k * l);
      TimesOnCurve(n % l);
      c.AddIdentity(Times(n % l));
    }

    lemma AddFixed(p: Point, x: Point)
      requires Sound() && c.OnCurve(p) && c.OnCurve(x) && c.Add(p, x) == p
      ensures x == IDENTITY
    {
      var n := c.Negative(p);
      c.AddNegative(p);
      c.AddCommutes(p, n);
      c.AddAssociates(n, p, x);
      c.AddIdentity(x);
    }

    lemma TimesDifference(m: nat, n: nat)
      requires Sound() && n <= m && Times(m) == Times(n)
      ensures Times(m - n) == IDENTITY
    {
      c.MultipleSum(base, n, m - n);
      TimesOnCurve(n);
      TimesOnCurve(m - n);
      AddFixed(Times(n), Times(m - n));
    }

    lemma TimesInjective(m: nat, n: nat)
      requires Sound() && m < l && n < l && Times(m) == Times(n)
      ensures m == n
    {
      var d := if m < n then n - m else m - n;
      if m < n { TimesDifference(n, m); } else { TimesDifference(m, n); }
      TimesIsIdentity(d);
      Small(l, d);
    }

    // ---- signing and verifying ----

    lemma ClampBound(n: nat)
      ensures Clamp(n) % 8 == 0 && BIT_254 <= Clamp(n) < 2 * BIT_254
    {}

    /** Digits 3 to 253 are kept, digit 254 is set and all the others are cleared. */
    lemma ClampBits(n: nat, i: nat)
      ensures Bit(Clamp(n), i) <==> i == 254 || (3 <= i < 254 && Bit(n, i))
    {
      Exp254();
      BitsBelow(n, 254, i);
      BitsCleared(n % BIT_254, i);
      BitAdded(n % BIT_254 / 8 * 8, 254, i);
    }

    /** No clamped scalar, even eight times over, is a multiple of the group order. */
    lemma ClampNotIdentity(n: nat)
      requires Sound()
      ensures Clamp(n) % l != 0 && (8 * Clamp(n)) % l != 0
    {
      ClampBound(n);
      var j := Clamp(n) / 8;
      ModFacts(l, Clamp(n));
      ModFacts(l, 8 * Clamp(n));
      ModFacts(l, j);
      if Zero(l, 8 * j) { ScaledEight(j); }
      if Zero(l, 8 * Clamp(n)) { ScaledEight(Clamp(n)); }
      Small(l, j);
    }

    lemma ScaledEight(n: nat)
      requires Sound() && Zero(l, 8 * n)
      ensures Zero(l, n)
    {
      Euclid(l, 8, n);
      if Zero(l, 8) { ZeroSmall(l, 8); }
    }

    lemma SmallOrderTimes(n: nat)
      requires Sound()
      ensures SmallOrder(Times(n)) <==> n % l == 0
    {
      c.MultipleProduct(base, n, 8);
      TimesIsIdentity(n * 8);
      ModFacts(l, n);
      ModFacts(l, n * 8);
      assert n * 8 == 8 * n;
      if Zero(l, 8 * n) { ScaledEight(n); }
      if Zero(l, n) { ZeroScale(l, 8, n); }
    }

    /** A public key derived from a seed is never rejected for small order. */
    lemma PublicKeyAccepted(h: Hash, seed: seq<byte>)
      requires Sound() && |seed| == 32
      ensures Decode(c, PublicSpec(h, seed).value) == Some(Times(Secret(h, seed)))
      ensures !SmallOrder(Times(Secret(h, seed)))
    {
      TimesOnCurve(Secret(h, seed));
      DecodeIffEncode(c, PublicSpec(h, seed).value, Times(Secret(h, seed)));
      ClampNotIdentity(FromLittle(h(seed)[..32]));
      SmallOrderTimes(Secret(h, seed));
    }

    lemma ScalarFits(n: nat)
      requires Sound() && n < l
      ensures FromLittle(ToLittle(n, 32)) == n
    {
      Exp256();
      FromToLittle(n, 32);
    }

    /** r + k * a times the base point is what the verifier computes from the two points. */
    lemma EquationHolds(r: nat, k: nat, a: nat)
      requires Sound()
      ensures k * a >= 0 && Times((r + k * a) % l) == c.Add(Times(r), c.Multiple(Times(a), k))
    {
      assert k * a == a * k;
      c.MultipleProduct(base, a, k);
      c.MultipleSum(base, r, a * k);
      TimesReduced(r + a * k);
    }

    /** Completeness, with its exact condition: a signature is accepted under the signer's public key
        if and only if its nonce is nonzero, that is, if and only if its R is not of small order. */
    lemma SignVerify(h: Hash, message: seq<byte>, seed: seq<byte>)
      requires Sound() && |seed| == 32
      ensures VerifySpec(h, SignSpec(h, message, seed).value, message, PublicSpec(h, seed).value)
        <==> Nonce(h, message, seed) != 0
    {
      var n, a, public := Nonce(h, message, seed), Secret(h, seed), PublicSpec(h, seed).value;
      var r := Encode(Times(n));
      var k := Challenge(h, r, public, message);
      var s := (n + k * a) % l;
      var signature := SignSpec(h, message, seed).value;
      assert signature[..32] == r && signature[32..] == ToLittle(s, 32);
      ScalarFits(s);
      PublicKeyAccepted(h, seed);
      TimesOnCurve(n);
      DecodeIffEncode(c, r, Times(n));
      SmallOrderTimes(n);
      Small(l, n);
      EquationHolds(n, k, a);
    }

    /** An accepted signature is determined by its first half: its scalar cannot be altered. */
    lemma ScalarDetermined(h: Hash, first: seq<byte>, second: seq<byte>, message: seq<byte>, public: seq<byte>)
      requires Sound()
      requires VerifySpec(h, first, message, public) && VerifySpec(h, second, message, public)
      requires first[..32] == second[..32]
      ensures first == second
    {
      var m, n := FromLittle(first[32..]), FromLittle(second[32..]);
      TimesInjective(m, n);
      ToFromLittle(first[32..]);
      ToFromLittle(second[32..]);
      assert first == first[..32] + first[32..] && second == second[..32] + second[32..];
    }

    /** The strict verifier accepts exactly what the other accepts with both points in the prime-order group. */
    lemma StrictIff(h: Hash, public: seq<byte>, message: seq<byte>, signature: seq<byte>)
      requires Sound()
      ensures StrictSpec(h, public, message, signature)
        <==> (&& VerifySpec(h, signature, message, public)
              && c.Multiple(Decode(c, signature[..32]).value, l) == IDENTITY
              && c.Multiple(Decode(c, public).value, l) == IDENTITY)
    {
      if |public| == 32 && |signature| == 64 {
        DecodersAgree(c, public);
        DecodersAgree(c, signature[..32]);
      }
    }

    // ---- what is signed and what is accepted, on bytes and points ----

    /** A seed's public key is the multiple of the base point by the lower half of the seed's digest, with the digits of
        the scalar as RFC 8032 sets them. */
    lemma PublicKeyBits(h: Hash, seed: seq<byte>, a: nat)
      requires Sound() && |seed| == 32 && a < 2 * BIT_254
      requires forall i :: 0 <= i < 255 ==>
        (Bit(a, i) <==> i == 254 || (3 <= i && Bit(FromLittle(h(seed)[..32]), i)))
      ensures Decode(c, PublicSpec(h, seed).value) == Some(Times(a))
    {
      var n := FromLittle(h(seed)[..32]);
      PublicKeyAccepted(h, seed);
      ClampBound(n);
      Exp254();
      forall i | 0 <= i < 255
        ensures Bit(a, i) == Bit(Clamp(n), i)
      {
        ClampBits(n, i);
      }
      BitsDetermine(a, Clamp(n), 255);
    }

    /** The first half of a signature is the multiple of the base point by the digest of the upper half of the seed's
        digest and the message. */
    lemma SignatureNonce(h: Hash, message: seq<byte>, seed: seq<byte>)
      requires Sound() && |seed| == 32
      ensures var first, r := SignSpec(h, message, seed).value[..32], Times(FromLittle(h(h(seed)[32..] + message)));
        Decode(c, first) == Some(r) && first == Encode(r)
    {
      var n, m := Nonce(h, message, seed), FromLittle(h(h(seed)[32..] + message));
      TimesReduced(m);
      TimesOnCurve(n);
      assert SignSpec(h, message, seed).value[..32] == Encode(Times(n));
      DecodeIffEncode(c, Encode(Times(n)), Times(n));
    }

    /** Two messages of one seed share the first half of their signatures exactly if their nonces collide. */
    lemma NonceBinds(h: Hash, first: seq<byte>, second: seq<byte>, seed: seq<byte>)
      requires Sound() && |seed| == 32
      ensures SignSpec(h, first, seed).value[..32] == SignSpec(h, second, seed).value[..32]
        <==> FromLittle(h(h(seed)[32..] + first)) % l == FromLittle(h(h(seed)[32..] + second)) % l
    {
      SignatureNonce(h, first, seed);
      SignatureNonce(h, second, seed);
      SameMultiple(FromLittle(h(h(seed)[32..] + first)), FromLittle(h(h(seed)[32..] + second)));
    }

    /** Multiples of the base point are equal exactly if the factors agree modulo the group order. */
    lemma SameMultiple(m: nat, n: nat)
      requires Sound()
      ensures Times(m) == Times(n) <==> m % l == n % l
    {
      TimesReduced(m);
      TimesReduced(n);
      if Times(m) == Times(n) { TimesInjective(m % l, n % l); }
    }

    /** Acceptance, for all points and scalars: the scalar is reduced, neither point is annihilated by 8, and the
        equation holds with the digest of R, the key and the message. */
    lemma AcceptedPoints(h: Hash, r: Point, s: nat, message: seq<byte>, a: Point)
      requires Sound() && c.OnCurve(r) && c.OnCurve(a) && s < Exp(256, 32)
      ensures VerifySpec(h, Encode(r) + ToLittle(s, 32), message, Encode(a))
        <==> (&& s < l && !SmallOrder(r) && !SmallOrder(a)
              && Times(s) == c.Add(r, c.Multiple(a, FromLittle(h(Encode(r) + Encode(a) + message)) % l)))
    {
      var signature := Encode(r) + ToLittle(s, 32);
      assert signature[..32] == Encode(r) && signature[32..] == ToLittle(s, 32);
      FromToLittle(s, 32);
      DecodeIffEncode(c, Encode(r), r);
      DecodeIffEncode(c, Encode(a), a);
    }

    /** Among multiples of the base point, exactly one scalar is accepted: what signing computes. */
    lemma AcceptedScalar(h: Hash, n: nat, s: nat, message: seq<byte>, a: nat, k: nat)
      requires Sound() && s < Exp(256, 32) && k == FromLittle(h(Encode(Times(n)) + Encode(Times(a)) + message)) % l
      ensures k * a >= 0
      ensures VerifySpec(h, Encode(Times(n)) + ToLittle(s, 32), message, Encode(Times(a)))
        <==> n % l != 0 && a % l != 0 && s == (n + k * a) % l
    {
      AcceptedBetween(h, n, s, message, a, k);
      EquationScalar(n, k, a, s);
    }

    lemma AcceptedBetween(h: Hash, n: nat, s: nat, message: seq<byte>, a: nat, k: nat)
      requires Sound() && s < Exp(256, 32) && k == FromLittle(h(Encode(Times(n)) + Encode(Times(a)) + message)) % l
      ensures VerifySpec(h, Encode(Times(n)) + ToLittle(s, 32), message, Encode(Times(a)))
        <==> n % l != 0 && a % l != 0 && s < l && Times(s) == c.Add(Times(n), c.Multiple(Times(a), k))
    {
      TimesOnCurve(n);
      TimesOnCurve(a);
      AcceptedPoints(h, Times(n), s, message, Times(a));
      SmallOrderTimes(n);
      SmallOrderTimes(a);
    }

    lemma EquationScalar(n: nat, k: nat, a: nat, s: nat)
      requires Sound()
      ensures k * a >= 0
      ensures s < l && Times(s) == c.Add(Times(n), c.Multiple(Times(a), k)) <==> s == (n + k * a) % l
    {
      EquationHolds(n, k, a);
      var reduced := (n + k * a) % l;
      if s < l && Times(s) == Times(reduced) { TimesInjective(s, reduced); }
    }

    /** A signature accepted for one message is accepted for another exactly if the two digests of R, the key and the
        message agree modulo the group order. */
    lemma MessageBound(h: Hash, signature: seq<byte>, first: seq<byte>, second: seq<byte>, public: seq<byte>)
      requires Sound() && VerifySpec(h, signature, first, public)
      requires c.Multiple(Decode(c, public).value, 8 * l) == IDENTITY
      ensures VerifySpec(h, signature, second, public)
        <==> (FromLittle(h(signature[..32] + public + first)) % l
              == FromLittle(h(signature[..32] + public + second)) % l)
    {
      if VerifySpec(h, signature, second, public) {
        var a, r := Decode(c, public).value, Decode(c, signature[..32]).value;
        DecodeIffEncode(c, public, a);
        DecodeIffEncode(c, signature[..32], r);
        var k, m := Challenge(h, signature[..32], public, first), Challenge(h, signature[..32], public, second);
        c.MultipleOnCurve(a, k);
        c.MultipleOnCurve(a, m);
        Cancelled(r, c.Multiple(a, k), c.Multiple(a, m));
        FactorDetermined(a, k, m);
      }
    }

    lemma StrictMessageBound(h: Hash, public: seq<byte>, first: seq<byte>, second: seq<byte>, signature: seq<byte>)
      requires Sound() && StrictSpec(h, public, first, signature)
      ensures StrictSpec(h, public, second, signature)
        <==> (FromLittle(h(signature[..32] + public + first)) % l
              == FromLittle(h(signature[..32] + public + second)) % l)
    {
      StrictIff(h, public, first, signature);
      StrictIff(h, public, second, signature);
      var a := Decode(c, public).value;
      DecodeIffEncode(c, public, a);
      c.MultipleProduct(a, l, 8);
      c.MultipleIdentity(8);
      assert l * 8 == 8 * l;
      MessageBound(h, signature, first, second, public);
    }

    lemma Cancelled(r: Point, x: Point, y: Point)
      requires Sound() && c.OnCurve(r) && c.OnCurve(x) && c.OnCurve(y) && c.Add(r, x) == c.Add(r, y)
      ensures x == y
    {
      var n := c.Negative(r);
      c.AddNegative(r);
      c.AddCommutes(r, n);
      c.AddAssociates(n, r, x);
      c.AddAssociates(n, r, y);
      c.IdentityOnCurve();
      c.AddCommutes(IDENTITY, x);
      c.AddCommutes(IDENTITY, y);
      c.AddIdentity(x);
      c.AddIdentity(y);
    }

    /** A point that 8 times the group order annihilates, but 8 does not, has distinct multiples below the order. */
    lemma FactorDetermined(a: Point, k: nat, m: nat)
      requires Sound() && c.OnCurve(a) && !SmallOrder(a) && c.Multiple(a, 8 * l) == IDENTITY
      requires k < l && m < l && c.Multiple(a, k) == c.Multiple(a, m)
      ensures k == m
    {
      var b := c.Multiple(a, 8);
      var other := Suite(c, l, b);
      c.MultipleOnCurve(a, 8);
      EightTimes(a, l);
      EightTimes(a, k);
      EightTimes(a, m);
      other.TimesInjective(k, m);
    }

    lemma EightTimes(a: Point, k: nat)
      requires Sound() && c.OnCurve(a)
      ensures c.Multiple(c.Multiple(a, 8), k) == c.Multiple(a, 8 * k) == c.Multiple(c.Multiple(a, k), 8)
    {
      c.MultipleProduct(a, 8, k);
      c.MultipleProduct(a, k, 8);
      assert 8 * k == k * 8;
    }

    /** What the verifiers call small order: the order of the point divides 8. */
    lemma SmallOrderMeans(p: Point)
      requires Sound() && c.OnCurve(p)
      ensures SmallOrder(p) <==> exists n: nat :: n > 0 && 8 % n == 0 && c.Multiple(p, n) == IDENTITY
    {
      if n: nat :| n > 0 && 8 % n == 0 && c.Multiple(p, n) == IDENTITY {
        var k := Cofactor(n);
        OrderDivides(p, n, k);
      }
      if SmallOrder(p) { EightAnnihilates(p, 8); }
    }

    lemma Cofactor(n: nat) returns (k: nat)
      requires n > 0 && 8 % n == 0
      ensures n * k == 8
    {
      k := 8 / n;
    }

    lemma EightAnnihilates(p: Point, eight: nat)
      requires Sound() && c.OnCurve(p) && eight == 8 && c.Multiple(p, eight) == IDENTITY
      ensures exists n: nat :: n > 0 && 8 % n == 0 && c.Multiple(p, n) == IDENTITY
    {}

    lemma OrderDivides(p: Point, n: nat, k: nat)
      requires Sound() && c.OnCurve(p) && n * k == 8 && c.Multiple(p, n) == IDENTITY
      ensures SmallOrder(p)
    {
      c.MultipleProduct(p, n, k);
      c.MultipleIdentity(k);
    }

    /** Signatures made from a seed also pass the strict verifier. */
    lemma SignStrict(h: Hash, message: seq<byte>, seed: seq<byte>)
      requires Sound() && |seed| == 32
      ensures StrictSpec(h, PublicSpec(h, seed).value, message, SignSpec(h, message, seed).value)
        <==> Nonce(h, message, seed) != 0
    {
      var n, a := Nonce(h, message, seed), Secret(h, seed);
      var signature, public := SignSpec(h, message, seed).value, PublicSpec(h, seed).value;
      SignVerify(h, message, seed);
      StrictIff(h, public, message, signature);
      PublicKeyAccepted(h, seed);
      TimesOnCurve(n);
      assert signature[..32] == Encode(Times(n));
      DecodeIffEncode(c, signature[..32], Times(n));
      PrimeOrder(n);
      PrimeOrder(a);
    }

    lemma PrimeOrder(n: nat)
      requires Sound()
      ensures c.Multiple(Times(n), l) == IDENTITY
    {
      c.MultipleProduct(base, n, l);
      TimesOfOrder(n);
    }

    /** Any point but the identity that l annihilates is as good a base point. */
    lemma StrictMeansOrder(p: Point)
      requires Sound() && c.OnCurve(p)
      ensures StrictPrimeOrder(p) <==> p != IDENTITY && c.Multiple(p, l) == IDENTITY
      ensures StrictPrimeOrder(p) <==> OfOrder(p)
    {
      if StrictPrimeOrder(p) { c.MultipleIdentity(8); }
      if p != IDENTITY && c.Multiple(p, l) == IDENTITY { OrderOf(p); }
      if OfOrder(p) { OfOrderStrict(p); }
    }

    lemma OfOrderStrict(p: Point)
      requires Sound() && OfOrder(p)
      ensures StrictPrimeOrder(p)
    {
      OrderMeans(p, l);
      OrderMeans(p, 8);
    }

    lemma OrderMeans(p: Point, n: nat)
      requires Sound() && OfOrder(p)
      ensures c.Multiple(p, n) == IDENTITY <==> n % l == 0
    {}

    lemma OrderOf(p: Point)
      requires Sound() && c.OnCurve(p) && p != IDENTITY && c.Multiple(p, l) == IDENTITY
      ensures OfOrder(p) && c.Multiple(p, 8) != IDENTITY
    {
      var other := Suite(c, l, p);
      forall n: nat
        ensures c.Multiple(p, n) == IDENTITY <==> n % l == 0
      {
        other.TimesIsIdentity(n);
      }
      other.TimesIsIdentity(8);
    }

    // ---- the programs ----

    method PublicFromSeed(h: Hash, seed: seq<byte>) returns (r: Option<seq<byte>>)
      requires Sound()
      ensures r == PublicSpec(h, seed)
    {
      if |seed| != 32 {
        return None;
      }
      var point := c.Scale(base, Secret(h, seed));
      return Some(Encode(point));
    }

    method Sign(h: Hash, message: seq<byte>, seed: seq<byte>) returns (r: Option<seq<byte>>)
      requires Sound()
      ensures r == SignSpec(h, message, seed)
    {
      var secret, nonce := Secret(h, seed), Nonce(h, message, seed);
      var point := c.Scale(base, nonce);
      var encoded := Encode(point);
      var public := PublicFromSeed(h, seed);
      if public.None? {
        return None;
      }
      var challenge := Challenge(h, encoded, public.value, message);
      return Some(encoded + ToLittle((nonce + challenge * secret) % l, 32));
    }

    method Verify(h: Hash, signature: seq<byte>, message: seq<byte>, public: seq<byte>) returns (ok: bool)
      requires Sound()
      ensures ok == VerifySpec(h, signature, message, public)
    {
      if |signature| != 64 {
        return false;
      }
      var scalar := FromLittle(signature[32..]);
      if scalar >= l {
        return false;
      }
      var r, a := Decode(c, signature[..32]), Decode(c, public);
      if r.None? || a.None? {
        return false;
      }
      DecodeIffEncode(c, signature[..32], r.value);
      DecodeIffEncode(c, public, a.value);
      var r8 := c.Scale(r.value, 8);
      var a8 := c.Scale(a.value, 8);
      if r8 == IDENTITY || a8 == IDENTITY {
        return false;
      }
      var left := c.Scale(base, scalar);
      var right := c.Scale(a.value, Challenge(h, signature[..32], public, message));
      return left == c.Add(r.value, right);
    }

    method IsStrictPrimeOrder(p: Option<Point>) returns (ok: bool)
      requires Sound() && (p.Some? ==> c.OnCurve(p.value))
      ensures ok == (p.Some? && StrictPrimeOrder(p.value))
      ensures ok == (p.Some? && OfOrder(p.value))
    {
      if p.None? {
        return false;
      }
      var p8 := c.ScalarMult(p.value, 8);
      var pl := c.ScalarMult(p.value, l);
      StrictMeansOrder(p.value);
      return p8 != IDENTITY && pl == IDENTITY;
    }
  }

  /** The team-context verifier, which remembers its answers. */
  class StrictVerifier {
    const suite: Suite
    const h: Hash
    var cache: map<(seq<byte>, seq<byte>, seq<byte>), bool>

    ghost predicate Valid()
      reads this
    {
      && suite.Sound()
      && forall k :: k in cache ==> cache[k] == suite.StrictSpec(h, k.0, k.1, k.2)
    }

    constructor (suite: Suite, h: Hash)
      requires suite.Sound()
      ensures Valid() && this.suite == suite && this.h == h
    {
      this.suite, this.h, cache := suite, h, map[];
    }

    method Verify(public: seq<byte>, message: seq<byte>, signature: seq<byte>) returns (result: bool)
      requires Valid()
      modifies this
      ensures Valid() && result == suite.StrictSpec(h, public, message, signature)
      ensures cache == old(cache)[(public, message, signature) := result]
    {
      var key := (public, message, signature);
      if key in cache {
        return cache[key];
      }
      result := false;
      if |public| == 32 && |signature| == 64 {
        var c := suite.c;
        var a, r := TeamDecode(c, public), TeamDecode(c, signature[..32]);
        TeamDecodeOnCurve(c, public);
        TeamDecodeOnCurve(c, signature[..32]);
        var s := FromLittle(signature[32..]);
        var strictA := suite.IsStrictPrimeOrder(a);
        var strictR := suite.IsStrictPrimeOrder(r);
        if strictA && strictR && s < suite.l {
          var right := c.ScalarMult(suite.base, s);
          var left := c.ScalarMult(a.value, suite.Challenge(h, signature[..32], public, message));
          c.EdwardsAddIsAdd(r.value, left);
          result := c.EdwardsAdd(r.value, left) == right;
        }
      }
      cache := cache[key := result];
    }
  }

  lemma TeamDecodeOnCurve(c: Params, s: seq<byte>)
    requires c.Good() && c.q <= HIGH_BIT && |s| == 32
    ensures TeamDecode(c, s).Some? ==> c.OnCurve(TeamDecode(c, s).value)
  {
    DecodersAgree(c, s);
    if Decode(c, s).Some? { DecodeIffEncode(c, s, Decode(c, s).value); }
  }
}
