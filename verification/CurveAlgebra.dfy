/** The algebra of the twisted Edwards curve -x^2 + y^2 = 1 + d x^2 y^2 over a subring of the
    reals, modulo a prime ideal. Taking the integers and the multiples of a prime q gives the
    curve over the field of q elements (module Edwards). Working over the reals lets the
    verifier check each polynomial identity by normalisation. */
module CurveAlgebra {

  datatype Ring = Ring(elems: iset<real>, zero: iset<real>) {

    // Mentioned where a proof wants the ring laws at a and b.
    ghost predicate At(a: real, b: real) { true }

    ghost predicate Valid() {
      && 1.0 in elems && 1.0 !in zero && 2.0 in elems && 2.0 !in zero && zero <= elems && 0.0 in zero
      && RingClosed() && SumClosed() && Absorbing() && PrimeIdeal()
    }

    ghost predicate RingClosed() {
      forall a, b {:trigger At(a, b)} :: a in elems && b in elems ==> a + b in elems && a - b in elems && a * b in elems
    }

    ghost predicate SumClosed() {
      forall a, b {:trigger At(a, b)} :: a in zero && b in zero ==> a + b in zero && a - b in zero
    }

    ghost predicate Absorbing() {
      forall a, b {:trigger At(a, b)} :: a in elems && b in zero ==> a * b in zero
    }

    ghost predicate PrimeIdeal() {
      forall a, b {:trigger At(a, b)} :: a in elems && b in elems && a * b in zero ==> a in zero || b in zero
    }

    lemma Times(a: real, b: real, c: real)
      requires Valid() && a in elems && b in elems && c == a * b
      ensures c in elems
      ensures a !in zero && b !in zero ==> c !in zero
    {
      assert At(a, b);
    }

    lemma Sums(a: real, b: real)
      requires Valid() && a in elems && b in elems
      ensures a + b in elems && a - b in elems
    {
      assert At(a, b);
    }

    lemma Plus(a: real, b: real, c: real)
      requires Valid() && a in elems && b in elems && c == a + b
      ensures c in elems
    {
      Sums(a, b);
    }

    lemma ZSums(a: real, b: real)
      requires Valid() && a in zero && b in zero
      ensures a + b in zero && a - b in zero
    {
      assert At(a, b);
    }

    lemma ZPlus(a: real, b: real, c: real)
      requires Valid() && a in zero && b in zero && c == a + b
      ensures c in zero
    {
      ZSums(a, b);
    }

    lemma Absorb(c: real, e: real, p: real)
      requires Valid() && c in elems && e in zero && IsProduct(c, e, p)
      ensures p in zero
    {
      assert At(c, e);
    }

    lemma Cancel(a: real, b: real, p: real)
      requires Valid() && a in elems && b in elems && IsProduct(a, b, p) && p in zero && a !in zero
      ensures b in zero
    {
      assert At(a, b);
    }

    ghost predicate OnCurve(d: real, x: real, y: real) {
      d in elems && x in elems && y in elems && Flat(NormPart(x, y), MixedPart(d, x, y))
    }

    ghost predicate Flat(r: real, s: real) { r - 1.0 - s in zero }

    /** x is the quotient A / a, modulo the ideal. */
    ghost predicate Quotient(x: real, A: real, a: real) { x in elems && x * a - A in zero }

    /** (x3, y3) satisfies the cross-multiplied addition formulas at (x1, y1), (x2, y2). */
    ghost predicate Sum(d: real, x1: real, y1: real, x2: real, y2: real, x3: real, y3: real) {
      && Quotient(x3, x1 * y2 + x2 * y1, 1.0 + d * x1 * x2 * y1 * y2)
      && Quotient(y3, y1 * y2 + x1 * x2, 1.0 - d * x1 * x2 * y1 * y2)
    }

    /** i is a square root of -1. */
    ghost predicate Root(i: real) {
      i in elems && i * i + 1.0 in zero
    }

    ghost predicate NonSquare(d: real) {
      forall w, z {:trigger At(w, z)} :: w in elems && z in elems && w * w - d * z * z in zero ==> z in zero
    }

    lemma Monomial(d: real, x1: real, y1: real, x2: real, y2: real)
      requires Valid() && d in elems && x1 in elems && y1 in elems && x2 in elems && y2 in elems
      ensures d * x1 * x2 * y1 * y2 in elems
      ensures 1.0 + d * x1 * x2 * y1 * y2 in elems && 1.0 - d * x1 * x2 * y1 * y2 in elems
    {
      Times(d, x1, d * x1);
      Times(d * x1, x2, d * x1 * x2);
      Times(d * x1 * x2, y1, d * x1 * x2 * y1);
      Times(d * x1 * x2 * y1, y2, d * x1 * x2 * y1 * y2);
      Sums(1.0, d * x1 * x2 * y1 * y2);
    }

    // ---- associativity ----

    lemma Products(s: real, a: real, b: real, c: real, d: real, e: real, f: real)
      requires Valid() && s in elems && a in elems && b in elems && c in elems && d in elems && e in elems && f in elems
      ensures a * b * c - s * (d * e * f) in elems
    {
      Times(a, b, a * b);
      Times(a * b, c, a * b * c);
      Times(d, e, d * e);
      Times(d * e, f, d * e * f);
      Times(s, d * e * f, s * (d * e * f));
      Sums(a * b * c, s * (d * e * f));
    }

    lemma Squares(a: real, b: real, c: real, d: real)
      requires Valid() && a in elems && b in elems && c in elems && d in elems
      ensures a * a * b * b - c * c * d * d in elems && a * a - b * b in elems
    {
      Times(a, a, a * a);
      Times(b, b, b * b);
      Sums(a * a, b * b);
      Times(c, c, c * c);
      Times(d, d, d * d);
      Times(a * a, b * b, a * a * b * b);
      Times(c * c, d * d, c * c * d * d);
      Sums(a * a * b * b, c * c * d * d);
    }

    lemma Combine(a: real, e: real, b: real, f: real, p: real)
      requires Valid() && a in elems && b in elems && e in zero && f in zero && p == a * e + b * f
      ensures p in zero
    {
      Absorb(a, e, a * e);
      Absorb(b, f, b * f);
      ZSums(a * e, b * f);
    }

    lemma Combine4(a: real, e: real, b: real, f: real, c: real, g: real, d: real, h: real, p: real)
      requires Valid() && a in elems && b in elems && c in elems && d in elems
      requires e in zero && f in zero && g in zero && h in zero && p == a * e + b * f - c * g + d * h
      ensures p in zero
    {
      Combine(a, e, b, f, a * e + b * f);
      Absorb(c, g, c * g);
      Absorb(d, h, d * h);
      ZSums(a * e + b * f, c * g);
      ZSums(a * e + b * f - c * g, d * h);
    }

    /** The bracket of BraceIdentity vanishes when all three points are on the curve. */
    lemma Bracket(s: real, S: real, K1: real, K3: real, M12: real, M23: real, U1: real, U2: real, U3: real,
                  r1: real, e1: real, s2: real, e2: real, r3: real, e3: real, p: real)
      requires Valid() && s in elems
      requires S in elems && K1 in elems && K3 in elems && M12 in elems && M23 in elems
      requires U1 in elems && U2 in elems && U3 in elems && r1 in elems && r3 in elems && s2 in elems
      requires e1 in zero && e2 in zero && e3 in zero
      requires p == Defect(s, S, K1, K3, M12, M23, U1, U2, U3, r1, e1, s2, e2, r3, e3)
      ensures p in zero
    {
      Times(K3, M23, K3 * M23);
      Times(S, U2, S * U2);
      Times(K1, M12, K1 * M12);
      Sums(K3 * M23, S * U2);
      Sums(S * U2, K1 * M12);
      Times(U1, K3, U1 * K3);
      Times(s, U1 * K3, s * (U1 * K3));
      Times(U3, K1, U3 * K1);
      Times(s, U3 * K1, s * (U3 * K1));
      Sums(r1, 1.0);
      Sums(r3, 1.0);
      Combine(r3 - 1.0, e2, s2, e3, e2 * (r3 - 1.0) + s2 * e3);
      Combine(r1 - 1.0, e2, s2, e1, e2 * (r1 - 1.0) + s2 * e1);
      Combine4(K3 * M23 - S * U2, e1, S * U2 - K1 * M12, e3, s * (U1 * K3), e2 * (r3 - 1.0) + s2 * e3,
               s * (U3 * K1), e2 * (r1 - 1.0) + s2 * e1, p);
    }

    /** Associativity in the coordinates u = y + x, v = y - x, w = x * y. */
    lemma Crossing(s: real, d: real, u1: real, v1: real, w1: real, u2: real, v2: real, w2: real, u3: real, v3: real,
                   w3: real, S: real, K1: real, K3: real, M12: real, M23: real)
      requires Valid() && (s == 1.0 || s == -1.0) && s in elems && d in elems
      requires u1 in elems && v1 in elems && w1 in elems && u2 in elems && v2 in elems && w2 in elems
      requires u3 in elems && v3 in elems && w3 in elems
      requires Thin(d, u1, v1, w1) && Thin(d, u2, v2, w2) && Thin(d, u3, v3, w3)
      requires Forms(s, u1, v1, u2, v2, u3, v3, S, K1, K3, M12, M23)
      ensures Cross(s, d, w1, w2, w3, S, K1, K3, M12, M23) in zero
    {
      Products(s, u1, u2, u3, v1, v2, v3);
      Products(s, u1, u2, v3, v1, v2, u3);
      Products(s, v1, u2, u3, u1, v2, v3);
      Squares(u1, u2, v1, v2);
      Squares(u2, u3, v2, v3);
      Times(u1, v1, u1 * v1);
      Times(u3, v3, u3 * v3);
      var r1, r2, r3 := u1 * v1, u2 * v2, u3 * v3;
      var s1, s2, s3 := d * w1 * w1, d * w2 * w2, d * w3 * w3;
      Times(d, w2, d * w2);
      Times(d * w2, w2, s2);
      var U1, U2, U3, G := 4.0 * w1, 4.0 * w2, 4.0 * w3, u1 * u1 * v3 * v3 - u3 * u3 * v1 * v1;
      Sums(2.0, 2.0);
      Times(4.0, w1, U1);
      Times(4.0, w2, U2);
      Times(4.0, w3, U3);
      CoreIdentity(s, u1, v1, u2, v2, u3, v3);
      DiagonalIdentity(u1, v1, u2, v2, u3, v3);
      assert CoreHolds(s, S, K1, K3, M12, M23, G, U1, U2, U3, r1, r2, r3);
      assert DiagonalHolds(4.0 * w1, M23, 4.0 * w3, M12, 4.0 * w2, G);
      BraceIdentity(s, d, w1, w2, w3, S, K1, K3, M12, M23, G);
      DefectIdentity(s, S, K1, K3, M12, M23, G, U1, U2, U3, r1, s1, r2, s2, r3, s3);
      var p := Brace(s, S, K1, K3, M12, M23, G, U1, U2, U3, s1, s2, s3);
      Bracket(s, S, K1, K3, M12, M23, U1, U2, U3, r1, r1 - 1.0 - s1, s2, r2 - 1.0 - s2, r3, r3 - 1.0 - s3, p);
      var dw2, cross := d * w2, Cross(s, d, w1, w2, w3, S, K1, K3, M12, M23);
      Times(d, w2, dw2);
      Absorb(dw2, p, cross);
    }

    /** Associativity, cross-multiplied: numerator of one side by denominator of the other. */
    lemma Determinant(s: real, d: real, x1: real, y1: real, x2: real, y2: real, x3: real, y3: real)
      requires Valid() && (s == 1.0 || s == -1.0) && s in elems
      requires OnCurve(d, x1, y1) && OnCurve(d, x2, y2) && OnCurve(d, x3, y3)
      ensures Det(Num(s, d, x1, y1, x2, y2, x3, y3), Den(s, d, x2, y2, x3, y3, x1, y1),
                  Num(s, d, x2, y2, x3, y3, x1, y1), Den(s, d, x1, y1, x2, y2, x3, y3)) in zero
    {
      var S := (y1 + x1) * (y2 + x2) * (y3 + x3) - s * ((y1 - x1) * (y2 - x2) * (y3 - x3));
      var K3 := (y1 + x1) * (y2 + x2) * (y3 - x3) - s * ((y1 - x1) * (y2 - x2) * (y3 + x3));
      var K1 := (y1 - x1) * (y2 + x2) * (y3 + x3) - s * ((y1 + x1) * (y2 - x2) * (y3 - x3));
      var M12 := (y1 + x1) * (y1 + x1) * (y2 + x2) * (y2 + x2) - (y1 - x1) * (y1 - x1) * (y2 - x2) * (y2 - x2);
      var M23 := (y2 + x2) * (y2 + x2) * (y3 + x3) * (y3 + x3) - (y2 - x2) * (y2 - x2) * (y3 - x3) * (y3 - x3);
      assert Forms(s, y1 + x1, y1 - x1, y2 + x2, y2 - x2, y3 + x3, y3 - x3, S, K1, K3, M12, M23);
      Rotate(d, x1, y1);
      Rotate(d, x2, y2);
      Rotate(d, x3, y3);
      Crossing(s, d, y1 + x1, y1 - x1, x1 * y1, y2 + x2, y2 - x2, x2 * y2, y3 + x3, y3 - x3, x3 * y3, S, K1, K3, M12,
               M23);
      NumForm(s, d, x1, y1, x2, y2, x3, y3);
      NumForm(s, d, x2, y2, x3, y3, x1, y1);
      DenForm(s, d, x1, y1, x2, y2, x3, y3);
      DenForm(s, d, x2, y2, x3, y3, x1, y1);
      assert S == (y2 + x2) * (y3 + x3) * (y1 + x1) - s * ((y2 - x2) * (y3 - x3) * (y1 - x1));
      assert K1 == (y2 + x2) * (y3 + x3) * (y1 - x1) - s * ((y2 - x2) * (y3 - x3) * (y1 + x1));
      var nl, dl := Num(s, d, x1, y1, x2, y2, x3, y3), Den(s, d, x1, y1, x2, y2, x3, y3);
      var nr, dr := Num(s, d, x2, y2, x3, y3, x1, y1), Den(s, d, x2, y2, x3, y3, x1, y1);
      assert 2.0 * nr == Twice(s, d, x2 * y2, x3 * y3, S, K1);
      Elements(s, d, x1, y1, x2, y2, x3, y3);
      Elements(s, d, x2, y2, x3, y3, x1, y1);
      CancelEight(nl, dr, nr, dl);
    }

    lemma Parts(d: real, x1: real, y1: real, x2: real, y2: real)
      requires Valid() && d in elems && x1 in elems && y1 in elems && x2 in elems && y2 in elems
      ensures 1.0 + d * x1 * x2 * y1 * y2 in elems && 1.0 - d * x1 * x2 * y1 * y2 in elems
      ensures x1 * y2 + x2 * y1 in elems && y1 * y2 + x1 * x2 in elems
    {
      Monomial(d, x1, y1, x2, y2);
      Times(x1, y2, x1 * y2);
      Times(x2, y1, x2 * y1);
      Sums(x1 * y2, x2 * y1);
      Times(y1, y2, y1 * y2);
      Times(x1, x2, x1 * x2);
      Sums(y1 * y2, x1 * x2);
    }

    lemma DenElement(e: real, A: real, B: real, a: real, b: real)
      requires Valid() && e in elems && A in elems && B in elems && a in elems && b in elems
      ensures DenOf(e, A, B, a, b) in elems
    {
      Times(e, A, e * A);
      Times(e * A, B, e * A * B);
      Times(a, b, a * b);
      Plus(a * b, e * A * B, DenOf(e, A, B, a, b));
    }

    lemma ElementsOf(s: real, d: real, A: real, B: real, a: real, b: real, x3: real, y3: real)
      requires Valid() && s in elems && d in elems && A in elems && B in elems && a in elems && b in elems
      requires x3 in elems && y3 in elems
      ensures NumOf(s, A, B, a, b, x3, y3) in elems && DenOf(s * d * x3 * y3, A, B, a, b) in elems
    {
      Times(A, b, A * b);
      Times(B, a, B * a);
      if s == 1.0 {
        Times(A * b, y3, A * b * y3);
        Times(B * a, x3, B * a * x3);
        Plus(A * b * y3, B * a * x3, NumOf(s, A, B, a, b, x3, y3));
      } else {
        Times(A * b, x3, A * b * x3);
        Times(B * a, y3, B * a * y3);
        Plus(A * b * x3, B * a * y3, NumOf(s, A, B, a, b, x3, y3));
      }
      Times(s, d, s * d);
      Times(s * d, x3, s * d * x3);
      Times(s * d * x3, y3, s * d * x3 * y3);
      DenElement(s * d * x3 * y3, A, B, a, b);
    }

    lemma Elements(s: real, d: real, x1: real, y1: real, x2: real, y2: real, x3: real, y3: real)
      requires Valid() && s in elems && d in elems
      requires x1 in elems && y1 in elems && x2 in elems && y2 in elems && x3 in elems && y3 in elems
      ensures Num(s, d, x1, y1, x2, y2, x3, y3) in elems && Den(s, d, x1, y1, x2, y2, x3, y3) in elems
    {
      Parts(d, x1, y1, x2, y2);
      ElementsOf(s, d, x1 * y2 + x2 * y1, y1 * y2 + x1 * x2, 1.0 + d * x1 * x2 * y1 * y2, 1.0 - d * x1 * x2 * y1 * y2,
                 x3, y3);
    }

    lemma Rotate(d: real, x: real, y: real)
      requires Valid() && OnCurve(d, x, y)
      ensures Thin(d, y + x, y - x, x * y) && y + x in elems && y - x in elems && x * y in elems
    {
      Sums(y, x);
      Times(x, y, x * y);
    }

    lemma CancelEight(a: real, b: real, c: real, d: real)
      requires Valid() && a in elems && b in elems && c in elems && d in elems
      requires Det(2.0 * a, 4.0 * b, 2.0 * c, 4.0 * d) in zero
      ensures Det(a, b, c, d) in zero
    {
      Times(a, b, a * b);
      Times(c, d, c * d);
      Sums(a * b, c * d);
      Times(2.0, 2.0, 4.0);
      Times(2.0, 4.0, 8.0);
      Cancel(8.0, Det(a, b, c, d), Det(2.0 * a, 4.0 * b, 2.0 * c, 4.0 * d));
    }

    lemma FractionDen(e: real, A: real, B: real, a: real, b: real, X: real, Y: real, c: real)
      requires Valid() && e in elems && A in elems && b in elems && Y in elems
      requires X * a - A in zero && Y * b - B in zero && c == 1.0 + e * X * Y
      ensures DenOf(e, A, B, a, b) - a * b * c in zero
    {
      Times(Y, b, Y * b);
      Times(e, A, e * A);
      Times(e, Y * b, e * (Y * b));
      Combine(e * (Y * b), X * a - A, e * A, Y * b - B, a * b * c - DenOf(e, A, B, a, b));
      Times(1.0, 1.0, 1.0);
      Sums(1.0, 1.0);
      Sums(1.0, 2.0);
      Absorb(-1.0, a * b * c - DenOf(e, A, B, a, b), DenOf(e, A, B, a, b) - a * b * c);
    }

    lemma FractionNum(A: real, B: real, a: real, b: real, X: real, Y: real, m: real, m': real, c: real, D: real,
                      Z: real, N: real)
      requires Valid() && a in elems && b in elems && m in elems && m' in elems && Z in elems
      requires X * a - A in zero && Y * b - B in zero && Z * c - (X * m + Y * m') in zero && D - a * b * c in zero
      requires N == A * b * m + B * a * m'
      ensures Z * D - N in zero
    {
      var f, g, h, k := X * a - A, Y * b - B, Z * c - (X * m + Y * m'), D - a * b * c;
      Times(a, b, a * b);
      Times(b, m, b * m);
      Times(a, m', a * m');
      Combine(a * b, h, Z, k, a * b * h + Z * k);
      Combine(b * m, f, a * m', g, b * m * f + a * m' * g);
      ZPlus(a * b * h + Z * k, b * m * f + a * m' * g, Z * D - N);
    }

    /** The sum of (X, Y) = (A / a, B / b) and (x3, y3), over a common denominator:
        Z is its x for s = 1, its y for s = -1. */
    lemma Fraction(s: real, d: real, A: real, B: real, a: real, b: real, X: real, Y: real, x3: real, y3: real, Z: real,
                   c: real, D: real, N: real)
      requires Valid() && (s == 1.0 || s == -1.0) && s in elems && d in elems
      requires A in elems && a in elems && b in elems && Y in elems
      requires x3 in elems && y3 in elems && Z in elems
      requires Quotient(X, A, a) && Quotient(Y, B, b) && c == Side(s, d * X * x3 * Y * y3)
      requires if s == 1.0 then Quotient(Z, X * y3 + x3 * Y, c) else Quotient(Z, Y * y3 + X * x3, c)
      requires D == DenOf(s * d * x3 * y3, A, B, a, b) && N == NumOf(s, A, B, a, b, x3, y3)
      ensures Z * D - N in zero && D - a * b * c in zero
    {
      Times(s, d, s * d);
      Times(s * d, x3, s * d * x3);
      Times(s * d * x3, y3, s * d * x3 * y3);
      FractionDen(s * d * x3 * y3, A, B, a, b, X, Y, c);
      if s == 1.0 {
        FractionNum(A, B, a, b, X, Y, y3, x3, c, D, Z, N);
      } else {
        FractionNum(A, B, a, b, X, Y, x3, y3, c, D, Z, N);
      }
    }

    // ---- completeness: the denominators never vanish ----

    lemma Square(e: real, d: real, i: real, x1: real, y1: real, x2: real, y2: real)
      requires Valid() && NonSquare(d) && (e == 1.0 || e == -1.0) && e in elems && Root(i)
      requires OnCurve(d, x1, y1) && OnCurve(d, x2, y2) && e - d * x1 * x2 * y1 * y2 in zero
      ensures Fold(x1, y1, i, x2, y2) in zero
    {
      Monomial(d, x1, y1, x2, y2);
      Monomial(d, x1, y1, x1, y1);
      Times(x1, y1, x1 * y1);
      Times(i, x1 * y1, i * (x1 * y1));
      Times(2.0, i * (x1 * y1), 2.0 * (i * (x1 * y1)));
      Plus(e, d * x1 * x2 * y1 * y2, e + d * x1 * x2 * y1 * y2);
      Plus(e + d * x1 * x2 * y1 * y2, 2.0 * (i * (x1 * y1)), e + d * x1 * x2 * y1 * y2 + 2.0 * (i * (x1 * y1)));
      Times(x1, x1, x1 * x1);
      Times(x2, x2, x2 * x2);
      Times(d * x1 * x1 * y1 * y1, x2 * x2, d * x1 * x1 * y1 * y1 * (x2 * x2));
      Sums(x1 * x1, d * x1 * x1 * y1 * y1 * (x2 * x2));
      Times(i, x1, i * x1);
      Times(e, y1, e * y1);
      Plus(i * x1, e * y1, i * x1 + e * y1);
      Times(i, x2, i * x2);
      Plus(i * x2, y2, i * x2 + y2);
      Times(x1 * y1, i * x2 + y2, x1 * y1 * (i * x2 + y2));
      SquareIdentity(e, d, i, x1, y1, x2, y2);
      Combined(i * x1 + e * y1, d, x1 * y1 * (i * x2 + y2),
        e + d * x1 * x2 * y1 * y2 + 2.0 * (i * (x1 * y1)), e - d * x1 * x2 * y1 * y2,
        y1 * y1 - x1 * x1 - 1.0 - d * x1 * x1 * y1 * y1, d * x1 * x1 * y1 * y1,
        y2 * y2 - x2 * x2 - 1.0 - d * x2 * x2 * y2 * y2, x1 * x1 - d * x1 * x1 * y1 * y1 * (x2 * x2), i * i + 1.0);
    }

    lemma Combined(w: real, d: real, z: real, c: real, f: real, e1: real, k: real, e2: real, c': real, j: real)
      requires Valid() && NonSquare(d) && SquareHolds(w, d, z, c, f, e1, k, e2, c', j)
      requires w in elems && z in elems && c in elems && k in elems && c' in elems
      requires f in zero && e1 in zero && e2 in zero && j in zero
      ensures z in zero
    {
      Combine4(c, f, 1.0, e1, k, e2, c', j, w * w - d * z * z);
      assert At(w, z);
    }

    lemma NonDegenerate(e: real, d: real, i: real, x1: real, y1: real, x2: real, y2: real)
      requires Valid() && NonSquare(d) && (e == 1.0 || e == -1.0) && e in elems && Root(i)
      requires OnCurve(d, x1, y1) && OnCurve(d, x2, y2)
      ensures e - d * x1 * x2 * y1 * y2 !in zero
    {
      if e - d * x1 * x2 * y1 * y2 in zero {
        Square(e, d, i, x1, y1, x2, y2);
        Negate(i);
        assert Root(-i) by { assert (-i) * (-i) == i * i; }
        Square(e, d, -i, x1, y1, x2, y2);
        Unit(e, d * x1 * x2 * y1 * y2);
        Times(x1, y1, x1 * y1);
        Times(d, x2, d * x2);
        Times(d * x2, y2, d * x2 * y2);
        if x1 * y1 in zero { Absorb(d * x2 * y2, x1 * y1, d * x1 * x2 * y1 * y2); }
        Halve(x1, y1, i, x2, y2);
        Times(d, x1, d * x1);
        Times(d * x1, x2, d * x1 * x2);
        Times(d * x1 * x2, y1, d * x1 * x2 * y1);
        Absorb(d * x1 * x2 * y1, y2, d * x1 * x2 * y1 * y2);
        assert false;
      }
    }

    lemma Halve(x1: real, y1: real, i: real, x2: real, y2: real)
      requires Valid() && x1 * y1 in elems && i in elems && x2 in elems && y2 in elems && x1 * y1 !in zero
      requires Fold(x1, y1, i, x2, y2) in zero && Fold(x1, y1, -i, x2, y2) in zero
      ensures y2 in zero
    {
      Times(i, x2, i * x2);
      Sums(y2, i * x2);
      Cancel(x1 * y1, y2 + i * x2, Fold(x1, y1, i, x2, y2));
      Cancel(x1 * y1, y2 - i * x2, Fold(x1, y1, -i, x2, y2));
      ZSums(y2 + i * x2, y2 - i * x2);
      Cancel(2.0, y2, (y2 + i * x2) + (y2 - i * x2));
    }

    lemma Negate(a: real)
      requires Valid() && a in elems
      ensures -a in elems
    {
      Sums(1.0, 1.0);
      Sums(0.0, a);
    }

    lemma Unit(e: real, t: real)
      requires Valid() && (e == 1.0 || e == -1.0) && e - t in zero
      ensures t !in zero
    {
      if t in zero {
        ZPlus(e - t, t, e);
        Negate(1.0);
        if e == -1.0 { Absorb(-1.0, e, 1.0); }
        assert false;
      }
    }

    lemma Denominators(d: real, i: real, x1: real, y1: real, x2: real, y2: real)
      requires Valid() && NonSquare(d) && Root(i)
      requires OnCurve(d, x1, y1) && OnCurve(d, x2, y2)
      ensures 1.0 + d * x1 * x2 * y1 * y2 !in zero && 1.0 - d * x1 * x2 * y1 * y2 !in zero
    {
      Negate(1.0);
      NonDegenerate(1.0, d, i, x1, y1, x2, y2);
      NonDegenerate(-1.0, d, i, x1, y1, x2, y2);
      if 1.0 + d * x1 * x2 * y1 * y2 in zero {
        Absorb(-1.0, 1.0 + d * x1 * x2 * y1 * y2, -1.0 - d * x1 * x2 * y1 * y2);
      }
    }

    lemma DenominatorsAt(d: real, i: real, x1: real, y1: real, x2: real, y2: real, t: real)
      requires Valid() && NonSquare(d) && Root(i)
      requires OnCurve(d, x1, y1) && OnCurve(d, x2, y2) && t == Mixed(d, x1, y1, x2, y2)
      ensures 1.0 + t !in zero && 1.0 - t !in zero
    {
      Denominators(d, i, x1, y1, x2, y2);
    }

    lemma SumOf(d: real, x1: real, y1: real, x2: real, y2: real, A: real, B: real, t: real, x: real, y: real)
      requires t == Mixed(d, x1, y1, x2, y2) && A == Diagonal(x1, y1, x2, y2) && B == Straight(x1, y1, x2, y2)
      requires Quotient(x, A, 1.0 + t) && Quotient(y, B, 1.0 - t)
      ensures Sum(d, x1, y1, x2, y2, x, y)
    {}

    // ---- the group laws ----

    ghost predicate Lawful(d: real, i: real) {
      Valid() && d in elems && NonSquare(d) && Root(i)
    }

    /** The formulas determine the sum, modulo the ideal. */
    lemma Unique(d: real, i: real, x1: real, y1: real, x2: real, y2: real, x: real, y: real, x': real, y': real)
      requires Lawful(d, i) && OnCurve(d, x1, y1) && OnCurve(d, x2, y2)
      requires Sum(d, x1, y1, x2, y2, x, y) && Sum(d, x1, y1, x2, y2, x', y')
      ensures x - x' in zero && y - y' in zero
    {
      Denominators(d, i, x1, y1, x2, y2);
      Parts(d, x1, y1, x2, y2);
      SameQuotient(x, x', 1.0 + d * x1 * x2 * y1 * y2, x1 * y2 + x2 * y1);
      SameQuotient(y, y', 1.0 - d * x1 * x2 * y1 * y2, y1 * y2 + x1 * x2);
    }

    lemma SameQuotient(x: real, x': real, a: real, A: real)
      requires Valid() && a in elems && a !in zero && Quotient(x, A, a) && Quotient(x', A, a)
      ensures x - x' in zero
    {
      ZSums(x * a - A, x' * a - A);
      Sums(x, x');
      Cancel(a, x - x', (x * a - A) - (x' * a - A));
    }

    /** The sum of two points on the curve is on the curve. */
    lemma Closure(d: real, i: real, x1: real, y1: real, x2: real, y2: real, x3: real, y3: real)
      requires Lawful(d, i) && OnCurve(d, x1, y1) && OnCurve(d, x2, y2) && Sum(d, x1, y1, x2, y2, x3, y3)
      ensures OnCurve(d, x3, y3)
    {
      Denominators(d, i, x1, y1, x2, y2);
      Parts(d, x1, y1, x2, y2);
      ClosureExpand(d, x1, y1, x2, y2);
      Norm(d, x1, y1);
      Norm(d, x2, y2);
      ClosureZero(NormPart(x1, y1), MixedPart(d, x1, y1), NormPart(x2, y2), MixedPart(d, x2, y2));
      ClosureLift(d, 1.0 + d * x1 * x2 * y1 * y2, 1.0 - d * x1 * x2 * y1 * y2, x1 * y2 + x2 * y1, y1 * y2 + x1 * x2, x3,
                  y3);
    }

    lemma Norm(d: real, x: real, y: real)
      requires Valid() && OnCurve(d, x, y)
      ensures NormPart(x, y) in elems && MixedPart(d, x, y) in elems
    {
      Monomial(d, x, y, x, y);
      Times(x, x, x * x);
      Times(y, y, y * y);
      Sums(y * y, x * x);
    }

    lemma ClosureZero(r1: real, s1: real, r2: real, s2: real)
      requires Valid() && r1 in elems && s1 in elems && r2 in elems && s2 in elems
      requires Flat(r1, s1) && Flat(r2, s2)
      ensures Residue(r1, s1, r2, s2) in zero
    {
      Times(s1, s2, s1 * s2);
      Sums(1.0, s1 * s2);
      Sums(1.0, s1);
      Sums(1.0, s2);
      Plus(r1, 1.0 + s1, r1 + 1.0 + s1);
      Plus(r2, 1.0 + s2, r2 + 1.0 + s2);
      Minor(r2, 1.0 + s1 * s2, s2, r1 + 1.0 + s1);
      Minor(1.0 + s1, 1.0 + s1 * s2, s1, r2 + 1.0 + s2);
      ClosureIdentity(r1, s1, r2, s2);
      Linear(Det(r2, 1.0 + s1 * s2, s2, r1 + 1.0 + s1), r1 - 1.0 - s1,
             Det(1.0 + s1, 1.0 + s1 * s2, s1, r2 + 1.0 + s2), r2 - 1.0 - s2, Residue(r1, s1, r2, s2));
    }

    lemma Minor(a: real, b: real, c: real, d: real)
      requires Valid() && a in elems && b in elems && c in elems && d in elems
      ensures Det(a, b, c, d) in elems
    {
      Times(a, b, a * b);
      Times(c, d, c * d);
      Sums(a * b, c * d);
    }

    lemma Linear(a: real, e: real, b: real, f: real, p: real)
      requires Valid() && a in elems && b in elems && e in zero && f in zero && IsLinear(a, e, b, f, p)
      ensures p in zero
    {
      Combine(a, e, b, f, p);
    }

    lemma ClosureLift(d: real, a: real, b: real, A: real, B: real, x: real, y: real)
      requires Valid() && d in elems && a in elems && b in elems && A in elems && B in elems
      requires a !in zero && b !in zero && Quotient(x, A, a) && Quotient(y, B, b) && Lifted(d, a, b, A, B) in zero
      ensures OnCurve(d, x, y)
    {
      var p, q := x * a, y * b;
      Times(x, a, p);
      Times(y, b, q);
      LiftIdentity(d, a, b, A, B, p, q);
      LiftZero(d, a, b, A, B, p, q);
      LiftCurve(d, a, b, x, y);
      Norm'(d, x, y);
      Times(a, b, a * b);
      Times(a * b, a * b, a * b * (a * b));
      var m, e, l := a * b * (a * b), y * y - x * x - 1.0 - d * x * x * y * y, Lifted(d, a, b, p, q);
      Cancel(m, e, l);
    }

    lemma Norm'(d: real, x: real, y: real)
      requires Valid() && d in elems && x in elems && y in elems
      ensures y * y - x * x in elems && d * x * x * y * y in elems && y * y - x * x - 1.0 - d * x * x * y * y in elems
    {
      Monomial(d, x, y, x, y);
      Times(x, x, x * x);
      Times(y, y, y * y);
      Sums(y * y, x * x);
      Plus(1.0, d * x * x * y * y, 1.0 + d * x * x * y * y);
      Sums(y * y - x * x, 1.0 + d * x * x * y * y);
    }

    lemma LiftZero(d: real, a: real, b: real, A: real, B: real, p: real, q: real)
      requires Valid() && d in elems && a in elems && b in elems && A in elems && B in elems && p in elems && q in elems
      requires p - A in zero && q - B in zero && Lifted(d, a, b, A, B) in zero
      ensures Lifted(d, a, b, p, q) in zero
    {
      LiftFactor(q, B, a, d, A);
      LiftFactor(p, A, b, d, q);
      LiftIdentity(d, a, b, A, B, p, q);
      LiftCombine((q + B) * (a * a - d * (A * A)), q - B, Lifted(d, a, b, A, B), (p + A) * (b * b + d * (q * q)), p - A,
                  Lifted(d, a, b, p, q));
    }

    lemma LiftFactor(q: real, B: real, a: real, d: real, A: real)
      requires Valid() && q in elems && B in elems && a in elems && d in elems && A in elems
      ensures (q + B) * (a * a - d * (A * A)) in elems && (q + B) * (a * a + d * (A * A)) in elems
    {
      Sums(q, B);
      Times(a, a, a * a);
      Times(A, A, A * A);
      Times(d, A * A, d * (A * A));
      Sums(a * a, d * (A * A));
      Times(q + B, a * a - d * (A * A), (q + B) * (a * a - d * (A * A)));
      Times(q + B, a * a + d * (A * A), (q + B) * (a * a + d * (A * A)));
    }

    lemma LiftCombine(l: real, e: real, f: real, g: real, h: real, p: real)
      requires Valid() && l in elems && g in elems && e in zero && f in zero && h in zero && IsLift(l, e, f, g, h, p)
      ensures p in zero
    {
      Combine(l, e, 1.0, f, l * e + 1.0 * f);
      Absorb(g, h, g * h);
      ZSums(l * e + 1.0 * f, g * h);
    }

    /** A point and its mirror image add up to the identity. */
    lemma Opposite(d: real, x: real, y: real, k: real)
      requires Valid() && OnCurve(d, x, y) && k in zero
      ensures OnCurve(d, k - x, y) && Sum(d, x, y, k - x, y, 0.0, 1.0)
    {
      var e := NormPart(x, y) - 1.0 - MixedPart(d, x, y);
      Sums(k, x);
      Times(y, y, y * y);
      Times(d, y * y, d * (y * y));
      Sums(1.0, d * (y * y));
      Sums(x, x);
      Sums(x + x, k);
      Times(x + x - k, 1.0 + d * (y * y), (x + x - k) * (1.0 + d * (y * y)));
      OppositeCurve(d, x, y, k);
      Combine(1.0, e, (x + x - k) * (1.0 + d * (y * y)), k, NormPart(k - x, y) - 1.0 - MixedPart(d, k - x, y));
      OppositeTotal(d, x, y, k);
    }

    lemma OppositeTotal(d: real, x: real, y: real, k: real)
      requires Valid() && OnCurve(d, x, y) && k in zero && 1.0 + d * (y * y) in elems
      ensures Sum(d, x, y, k - x, y, 0.0, 1.0)
    {
      var e := NormPart(x, y) - 1.0 - MixedPart(d, x, y);
      Times(x, 1.0 + d * (y * y), x * (1.0 + d * (y * y)));
      Negate(1.0);
      Negate(y);
      Negate(x * (1.0 + d * (y * y)));
      Absorb(-y, k, -y * k);
      Combine(-1.0, e, -(x * (1.0 + d * (y * y))), k, -1.0 * e + -(x * (1.0 + d * (y * y))) * k);
      OppositeSum(d, x, y, k);
      Negate(0.0);
    }

    /** Adding in either order of grouping gives the same point. */
    lemma Associative(d: real, i: real, x1: real, y1: real, x2: real, y2: real, x3: real, y3: real,
                      x12: real, y12: real, x23: real, y23: real, x: real, y: real, x': real, y': real)
      requires Lawful(d, i) && OnCurve(d, x1, y1) && OnCurve(d, x2, y2) && OnCurve(d, x3, y3)
      requires Sum(d, x1, y1, x2, y2, x12, y12) && Sum(d, x2, y2, x3, y3, x23, y23)
      requires Sum(d, x12, y12, x3, y3, x, y) && Sum(d, x23, y23, x1, y1, x', y')
      ensures x - x' in zero && y - y' in zero
    {
      Negate(1.0);
      AssociativeAt(1.0, d, i, x1, y1, x2, y2, x3, y3, x12, y12, x23, y23, x, y, x', y');
      AssociativeAt(-1.0, d, i, x1, y1, x2, y2, x3, y3, x12, y12, x23, y23, x, y, x', y');
    }

    lemma AssociativeAt(s: real, d: real, i: real, x1: real, y1: real, x2: real, y2: real, x3: real, y3: real,
                        x12: real, y12: real, x23: real, y23: real, x: real, y: real, x': real, y': real)
      requires Lawful(d, i) && (s == 1.0 || s == -1.0) && s in elems
      requires OnCurve(d, x1, y1) && OnCurve(d, x2, y2) && OnCurve(d, x3, y3)
      requires Sum(d, x1, y1, x2, y2, x12, y12) && Sum(d, x2, y2, x3, y3, x23, y23)
      requires Sum(d, x12, y12, x3, y3, x, y) && Sum(d, x23, y23, x1, y1, x', y')
      ensures if s == 1.0 then x - x' in zero else y - y' in zero
    {
      var N, D := Num(s, d, x1, y1, x2, y2, x3, y3), Den(s, d, x1, y1, x2, y2, x3, y3);
      var N', D' := Num(s, d, x2, y2, x3, y3, x1, y1), Den(s, d, x2, y2, x3, y3, x1, y1);
      var z, z' := if s == 1.0 then x else y, if s == 1.0 then x' else y';
      Determinant(s, d, x1, y1, x2, y2, x3, y3);
      OverCommon(s, d, i, x1, y1, x2, y2, x3, y3, x12, y12, x, y, z, D, N);
      OverCommon(s, d, i, x2, y2, x3, y3, x1, y1, x23, y23, x', y', z', D', N');
      SameFraction(z, D, N, z', D', N');
    }

    lemma SameFraction(z: real, D: real, N: real, z': real, D': real, N': real)
      requires Valid() && z in elems && D in elems && z' in elems && D' in elems && D !in zero && D' !in zero
      requires z * D - N in zero && z' * D' - N' in zero && Det(N, D', N', D) in zero
      ensures z - z' in zero
    {
      Absorb(D', z * D - N, D' * (z * D - N));
      Absorb(D, z' * D' - N', D * (z' * D' - N'));
      ZSums(D' * (z * D - N), D * (z' * D' - N'));
      ZSums(D' * (z * D - N) - D * (z' * D' - N'), Det(N, D', N', D));
      Times(D, D', D * D');
      Sums(z, z');
      Cancel(D * D', z - z', D' * (z * D - N) - D * (z' * D' - N') + Det(N, D', N', D));
    }

    lemma OverCommon(s: real, d: real, i: real, x1: real, y1: real, x2: real, y2: real, x3: real, y3: real,
                     x12: real, y12: real, x: real, y: real, z: real, D: real, N: real)
      requires Lawful(d, i) && (s == 1.0 || s == -1.0) && s in elems
      requires OnCurve(d, x1, y1) && OnCurve(d, x2, y2) && OnCurve(d, x3, y3)
      requires Sum(d, x1, y1, x2, y2, x12, y12) && Sum(d, x12, y12, x3, y3, x, y)
      requires z == if s == 1.0 then x else y
      requires D == Den(s, d, x1, y1, x2, y2, x3, y3) && N == Num(s, d, x1, y1, x2, y2, x3, y3)
      ensures z in elems && D in elems && D !in zero && z * D - N in zero
    {
      Closure(d, i, x1, y1, x2, y2, x12, y12);
      Denominators(d, i, x1, y1, x2, y2);
      Denominators(d, i, x12, y12, x3, y3);
      Parts(d, x1, y1, x2, y2);
      Elements(s, d, x1, y1, x2, y2, x3, y3);
      Monomial(d, x12, y12, x3, y3);
      var a, b, c := 1.0 + d * x1 * x2 * y1 * y2, 1.0 - d * x1 * x2 * y1 * y2, Side(s, d * x12 * x3 * y12 * y3);
      Fraction(s, d, x1 * y2 + x2 * y1, y1 * y2 + x1 * x2, a, b, x12, y12, x3, y3, z, c, D, N);
      NonzeroProduct(a, b, c, D);
    }

    lemma NonzeroProduct(a: real, b: real, c: real, D: real)
      requires Valid() && a in elems && b in elems && c in elems && a !in zero && b !in zero && c !in zero
      requires D - a * b * c in zero
      ensures D !in zero
    {
      Times(a, b, a * b);
      Times(a * b, c, a * b * c);
      if D in zero { ZSums(D, D - a * b * c); }
    }

    /** The curve equation, as u * v = 1 + d * w^2 with 4 * w = u^2 - v^2. */
    ghost predicate Thin(d: real, u: real, v: real, w: real) {
      u * v - 1.0 - d * w * w in zero && 4.0 * w == u * u - v * v
    }
  }

  // x3 or y3 of a sum, over a common denominator: s = 1 for x, s = -1 for y.
  function Side(s: real, t: real): real { if s == 1.0 then 1.0 + t else 1.0 - t }

  function Num(s: real, d: real, x1: real, y1: real, x2: real, y2: real, x3: real, y3: real): real {
    NumOf(s, x1 * y2 + x2 * y1, y1 * y2 + x1 * x2, 1.0 + d * x1 * x2 * y1 * y2, 1.0 - d * x1 * x2 * y1 * y2, x3, y3)
  }

  function NumOf(s: real, A: real, B: real, a: real, b: real, x3: real, y3: real): real {
    if s == 1.0 then A * b * y3 + B * a * x3 else A * b * x3 + B * a * y3
  }

  function Den(s: real, d: real, x1: real, y1: real, x2: real, y2: real, x3: real, y3: real): real {
    DenOf(s * d * x3 * y3, x1 * y2 + x2 * y1, y1 * y2 + x1 * x2, 1.0 + d * x1 * x2 * y1 * y2,
          1.0 - d * x1 * x2 * y1 * y2)
  }

  function DenOf(e: real, A: real, B: real, a: real, b: real): real {
    a * b + e * A * B
  }

  ghost predicate Forms(s: real, u1: real, v1: real, u2: real, v2: real, u3: real, v3: real,
                        S: real, K1: real, K3: real, M12: real, M23: real) {
    && S == u1 * u2 * u3 - s * (v1 * v2 * v3)
    && K3 == u1 * u2 * v3 - s * (v1 * v2 * u3) && K1 == v1 * u2 * u3 - s * (u1 * v2 * v3)
    && M12 == u1 * u1 * u2 * u2 - v1 * v1 * v2 * v2 && M23 == u2 * u2 * u3 * u3 - v2 * v2 * v3 * v3
  }

  lemma NumForm(s: real, d: real, x1: real, y1: real, x2: real, y2: real, x3: real, y3: real)
    requires s == 1.0 || s == -1.0
    ensures 2.0 * Num(s, d, x1, y1, x2, y2, x3, y3)
      == Twice(s, d, x1 * y1, x2 * y2, (y1 + x1) * (y2 + x2) * (y3 + x3) - s * ((y1 - x1) * (y2 - x2) * (y3 - x3)),
               (y1 + x1) * (y2 + x2) * (y3 - x3) - s * ((y1 - x1) * (y2 - x2) * (y3 + x3)))
  {}

  lemma DenForm(s: real, d: real, x1: real, y1: real, x2: real, y2: real, x3: real, y3: real)
    ensures 4.0 * Den(s, d, x1, y1, x2, y2, x3, y3)
      == FourTimes(s, d, x1 * y1, x2 * y2, x3 * y3,
           (y1 + x1) * (y1 + x1) * (y2 + x2) * (y2 + x2) - (y1 - x1) * (y1 - x1) * (y2 - x2) * (y2 - x2))
  {}

  function Det(a: real, b: real, c: real, d: real): real { a * b - c * d }

  function Twice(s: real, d: real, w1: real, w2: real, S: real, K: real): real { S - s * (d * w1 * w2) * K }

  function FourTimes(s: real, d: real, w1: real, w2: real, w3: real, M: real): real {
    4.0 * (1.0 - d * w1 * w1 * (d * w2 * w2)) + s * d * w3 * M
  }

  function Cross(s: real, d: real, w1: real, w2: real, w3: real, S: real, K1: real, K3: real, M12: real,
                 M23: real): real {
    Det(Twice(s, d, w1, w2, S, K3), FourTimes(s, d, w2, w3, w1, M23), Twice(s, d, w2, w3, S, K1),
        FourTimes(s, d, w1, w2, w3, M12))
  }

  function Brace(s: real, S: real, K1: real, K3: real, M12: real, M23: real, G: real, U1: real, U2: real, U3: real,
                 s1: real, s2: real, s3: real): real {
    S * (U2 * (s1 - s3) + s * G)
    - s * (U1 * K3 * (1.0 - s2 * s3) + s * s1 * K3 * M23 - U3 * K1 * (1.0 - s1 * s2) - s * s3 * K1 * M12)
  }

  function Defect(s: real, S: real, K1: real, K3: real, M12: real, M23: real, U1: real, U2: real, U3: real,
                  r1: real, e1: real, s2: real, e2: real, r3: real, e3: real): real {
    (K3 * M23 - S * U2) * e1 + (S * U2 - K1 * M12) * e3
    - s * (U1 * K3) * (e2 * (r3 - 1.0) + s2 * e3) + s * (U3 * K1) * (e2 * (r1 - 1.0) + s2 * e1)
  }

  // Equations between products, as predicates: a proof can then replace an argument by an equal one.
  ghost predicate IsProduct(a: real, b: real, c: real) { c == a * b }

  ghost predicate DiagonalHolds(U1: real, M23: real, U3: real, M12: real, U2: real, G: real) {
    U1 * M23 - U3 * M12 == U2 * G
  }

  ghost predicate CoreHolds(s: real, S: real, K1: real, K3: real, M12: real, M23: real, G: real, U1: real, U2: real,
                            U3: real, r1: real, r2: real, r3: real) {
    CoreGap(s, S, K1, K3, M12, M23, G, U1, U2, U3, r1, r2, r3) == 0.0
  }

  function CoreGap(s: real, S: real, K1: real, K3: real, M12: real, M23: real, G: real, U1: real, U2: real, U3: real,
                   r1: real, r2: real, r3: real): real {
    S * (U2 * (r1 - r3) + s * G)
    - s * (K3 * (U1 * (r2 + r3 - r2 * r3) + s * ((r1 - 1.0) * M23))
      - K1 * (U3 * (r1 + r2 - r1 * r2) + s * ((r3 - 1.0) * M12)))
  }

  lemma SquareIdentity(e: real, d: real, i: real, x1: real, y1: real, x2: real, y2: real)
    requires e == 1.0 || e == -1.0
    ensures SquareHolds(i * x1 + e * y1, d, x1 * y1 * (i * x2 + y2),
              e + d * x1 * x2 * y1 * y2 + 2.0 * (i * (x1 * y1)), e - d * x1 * x2 * y1 * y2,
              y1 * y1 - x1 * x1 - 1.0 - d * x1 * x1 * y1 * y1, d * x1 * x1 * y1 * y1,
              y2 * y2 - x2 * x2 - 1.0 - d * x2 * x2 * y2 * y2, x1 * x1 - d * x1 * x1 * y1 * y1 * (x2 * x2), i * i + 1.0)
  {}

  function Fold(x1: real, y1: real, i: real, x2: real, y2: real): real { x1 * y1 * (i * x2 + y2) }

  ghost predicate SquareHolds(w: real, d: real, z: real, c: real, f: real, e1: real, k: real, e2: real, c': real,
                              j: real) {
    w * w - d * z * z == c * f + 1.0 * e1 - k * e2 + c' * j
  }

  lemma OppositeCurve(d: real, x: real, y: real, k: real)
    ensures NormPart(k - x, y) - 1.0 - MixedPart(d, k - x, y)
         == 1.0 * (NormPart(x, y) - 1.0 - MixedPart(d, x, y)) + (x + x - k) * (1.0 + d * (y * y)) * k
  {}

  lemma OppositeSum(d: real, x: real, y: real, k: real)
    ensures 0.0 * (1.0 + d * x * (k - x) * y * y) - (x * y + (k - x) * y) == -y * k
    ensures 1.0 * (1.0 - d * x * (k - x) * y * y) - (y * y + x * (k - x))
         == -1.0 * (NormPart(x, y) - 1.0 - MixedPart(d, x, y)) + -(x * (1.0 + d * (y * y))) * k
  {}

  function Mixed(d: real, x1: real, y1: real, x2: real, y2: real): real { d * x1 * x2 * y1 * y2 }

  function Diagonal(x1: real, y1: real, x2: real, y2: real): real { x1 * y2 + x2 * y1 }

  function Straight(x1: real, y1: real, x2: real, y2: real): real { y1 * y2 + x1 * x2 }

  function NormPart(x: real, y: real): real { y * y - x * x }

  function MixedPart(d: real, x: real, y: real): real { d * x * x * y * y }

  function Residue(r1: real, s1: real, r2: real, s2: real): real {
    r1 * r2 * (1.0 + s1 * s2) - (1.0 - s1 * s2) * (1.0 - s1 * s2) - s1 * r2 * r2 - s2 * r1 * r1
  }

  function Lifted(d: real, a: real, b: real, A: real, B: real): real {
    a * a * (B * B) - b * b * (A * A) - a * b * (a * b) - d * (A * A) * (B * B)
  }

  lemma ClosureProducts(d: real, x1: real, y1: real, x2: real, y2: real)
    ensures Lifted(d, 1.0 + d * x1 * x2 * y1 * y2, 1.0 - d * x1 * x2 * y1 * y2, x1 * y2 + x2 * y1, y1 * y2 + x1 * x2)
         == Residue(y1 * y1 - x1 * x1, d * x1 * x1 * y1 * y1, y2 * y2 - x2 * x2, d * x2 * x2 * y2 * y2)
  {}

  ghost predicate IsLinear(a: real, e: real, b: real, f: real, p: real) { p == a * e + b * f }

  ghost predicate IsLift(l: real, e: real, f: real, g: real, h: real, p: real) { p == l * e + 1.0 * f - g * h }

  lemma ClosureIdentity(r1: real, s1: real, r2: real, s2: real)
    ensures IsLinear(Det(r2, 1.0 + s1 * s2, s2, r1 + 1.0 + s1), r1 - 1.0 - s1,
              Det(1.0 + s1, 1.0 + s1 * s2, s1, r2 + 1.0 + s2), r2 - 1.0 - s2, Residue(r1, s1, r2, s2))
  {
    ClosureProduct(r1, s1, r2, s2);
  }

  lemma ClosureProduct(r1: real, s1: real, r2: real, s2: real)
    ensures Residue(r1, s1, r2, s2)
         == (r2 * (1.0 + s1 * s2) - s2 * (r1 + 1.0 + s1)) * (r1 - 1.0 - s1)
          + ((1.0 + s1) * (1.0 + s1 * s2) - s1 * (r2 + 1.0 + s2)) * (r2 - 1.0 - s2)
  {}

  lemma ClosureExpand(d: real, x1: real, y1: real, x2: real, y2: real)
    ensures Lifted(d, 1.0 + d * x1 * x2 * y1 * y2, 1.0 - d * x1 * x2 * y1 * y2, x1 * y2 + x2 * y1, y1 * y2 + x1 * x2)
         == Residue(NormPart(x1, y1), MixedPart(d, x1, y1), NormPart(x2, y2), MixedPart(d, x2, y2))
  {
    ClosureProducts(d, x1, y1, x2, y2);
  }

  lemma LiftIdentity(d: real, a: real, b: real, A: real, B: real, p: real, q: real)
    ensures IsLift((q + B) * (a * a - d * (A * A)), q - B, Lifted(d, a, b, A, B),
              (p + A) * (b * b + d * (q * q)), p - A, Lifted(d, a, b, p, q))
  {
    LiftProduct(d, a, b, A, B, p, q);
  }

  lemma LiftProduct(d: real, a: real, b: real, A: real, B: real, p: real, q: real)
    ensures Lifted(d, a, b, p, q) == (q + B) * (a * a - d * (A * A)) * (q - B) + Lifted(d, a, b, A, B)
              - (p + A) * (b * b + d * (q * q)) * (p - A)
  {}

  lemma LiftCurve(d: real, a: real, b: real, x: real, y: real)
    ensures IsProduct(a * b * (a * b), y * y - x * x - 1.0 - d * x * x * y * y, Lifted(d, a, b, x * a, y * b))
  {}

  lemma CoreIdentity(s: real, u1: real, v1: real, u2: real, v2: real, u3: real, v3: real)
    requires s == 1.0 || s == -1.0
    ensures CoreHolds(s, u1 * u2 * u3 - s * (v1 * v2 * v3), v1 * u2 * u3 - s * (u1 * v2 * v3),
                      u1 * u2 * v3 - s * (v1 * v2 * u3),
              u1 * u1 * u2 * u2 - v1 * v1 * v2 * v2, u2 * u2 * u3 * u3 - v2 * v2 * v3 * v3,
              u1 * u1 * v3 * v3 - u3 * u3 * v1 * v1,
              u1 * u1 - v1 * v1, u2 * u2 - v2 * v2, u3 * u3 - v3 * v3, u1 * v1, u2 * v2, u3 * v3)
  {}

  lemma DiagonalIdentity(u1: real, v1: real, u2: real, v2: real, u3: real, v3: real)
    ensures DiagonalHolds(u1 * u1 - v1 * v1, u2 * u2 * u3 * u3 - v2 * v2 * v3 * v3, u3 * u3 - v3 * v3,
              u1 * u1 * u2 * u2 - v1 * v1 * v2 * v2, u2 * u2 - v2 * v2, u1 * u1 * v3 * v3 - u3 * u3 * v1 * v1)
  {}

  lemma BraceIdentity(s: real, d: real, w1: real, w2: real, w3: real, S: real, K1: real, K3: real, M12: real, M23: real,
                      G: real)
    requires DiagonalHolds(4.0 * w1, M23, 4.0 * w3, M12, 4.0 * w2, G)
    ensures IsProduct(d * w2, Brace(s, S, K1, K3, M12, M23, G, 4.0 * w1, 4.0 * w2, 4.0 * w3, d * w1 * w1, d * w2 * w2,
                                    d * w3 * w3), Cross(s, d, w1, w2, w3, S, K1, K3, M12, M23))
  {
    BraceDiagonal(s, d, w1, w2, w3, S, M12, M23, G);
    CrossExpanded(s, d, w1, w2, w3, S, K1, K3, M12, M23);
    BraceExpanded(s, d, w1, w2, w3, S, K1, K3, M12, M23, G);
    BraceProduct(s, d, w1, w2, w3, S, K1, K3, M12, M23, G);
  }

  lemma BraceDiagonal(s: real, d: real, w1: real, w2: real, w3: real, S: real, M12: real, M23: real, G: real)
    requires DiagonalHolds(4.0 * w1, M23, 4.0 * w3, M12, 4.0 * w2, G)
    ensures s * d * S * (w1 * M23 - w3 * M12 - w2 * G) == 0.0
  {
    Vanishes(s * d * S, w1 * M23 - w3 * M12 - w2 * G);
  }

  lemma Vanishes(a: real, t: real)
    requires t == 0.0
    ensures a * t == 0.0
  {}

  // The same equation with every function unfolded: one polynomial identity.
  lemma BraceProduct(s: real, d: real, w1: real, w2: real, w3: real, S: real, K1: real, K3: real, M12: real, M23: real,
                     G: real)
    ensures IsProduct(d * w2,
              S * (4.0 * w2 * (d * w1 * w1 - d * w3 * w3) + s * G)
              - s * (4.0 * w1 * K3 * (1.0 - d * w2 * w2 * (d * w3 * w3)) + s * (d * w1 * w1) * K3 * M23
                     - 4.0 * w3 * K1 * (1.0 - d * w1 * w1 * (d * w2 * w2)) - s * (d * w3 * w3) * K1 * M12),
              Det(S - s * (d * w1 * w2) * K3, 4.0 * (1.0 - d * w2 * w2 * (d * w3 * w3)) + s * d * w1 * M23,
                  S - s * (d * w2 * w3) * K1, 4.0 * (1.0 - d * w1 * w1 * (d * w2 * w2)) + s * d * w3 * M12)
              - s * d * S * (w1 * M23 - w3 * M12 - w2 * G))
  {}

  lemma BraceExpanded(s: real, d: real, w1: real, w2: real, w3: real, S: real, K1: real, K3: real, M12: real, M23: real,
                      G: real)
    ensures Brace(s, S, K1, K3, M12, M23, G, 4.0 * w1, 4.0 * w2, 4.0 * w3, d * w1 * w1, d * w2 * w2, d * w3 * w3)
      == S * (4.0 * w2 * (d * w1 * w1 - d * w3 * w3) + s * G)
       - s * (4.0 * w1 * K3 * (1.0 - d * w2 * w2 * (d * w3 * w3)) + s * (d * w1 * w1) * K3 * M23
              - 4.0 * w3 * K1 * (1.0 - d * w1 * w1 * (d * w2 * w2)) - s * (d * w3 * w3) * K1 * M12)
  {}

  lemma CrossExpanded(s: real, d: real, w1: real, w2: real, w3: real, S: real, K1: real, K3: real, M12: real, M23: real)
    ensures Cross(s, d, w1, w2, w3, S, K1, K3, M12, M23)
      == Det(S - s * (d * w1 * w2) * K3, 4.0 * (1.0 - d * w2 * w2 * (d * w3 * w3)) + s * d * w1 * M23,
             S - s * (d * w2 * w3) * K1, 4.0 * (1.0 - d * w1 * w1 * (d * w2 * w2)) + s * d * w3 * M12)
  {}

  /** How far the bracket is from the core identity. */
  lemma DefectIdentity(s: real, S: real, K1: real, K3: real, M12: real, M23: real, G: real, U1: real, U2: real,
                       U3: real, r1: real, s1: real, r2: real, s2: real, r3: real, s3: real)
    requires s == 1.0 || s == -1.0
    requires CoreHolds(s, S, K1, K3, M12, M23, G, U1, U2, U3, r1, r2, r3)
    ensures Brace(s, S, K1, K3, M12, M23, G, U1, U2, U3, s1, s2, s3)
      == Defect(s, S, K1, K3, M12, M23, U1, U2, U3, r1, r1 - 1.0 - s1, s2, r2 - 1.0 - s2, r3, r3 - 1.0 - s3)
  {
    if s == 1.0 {
      DefectPlus(S, K1, K3, M12, M23, G, U1, U2, U3, r1, s1, r2, s2, r3, s3);
    } else {
      DefectMinus(S, K1, K3, M12, M23, G, U1, U2, U3, r1, s1, r2, s2, r3, s3);
    }
  }

  lemma DefectPlus(S: real, K1: real, K3: real, M12: real, M23: real, G: real, U1: real, U2: real, U3: real,
                   r1: real, s1: real, r2: real, s2: real, r3: real, s3: real)
    ensures Brace(1.0, S, K1, K3, M12, M23, G, U1, U2, U3, s1, s2, s3)
      == Defect(1.0, S, K1, K3, M12, M23, U1, U2, U3, r1, r1 - 1.0 - s1, s2, r2 - 1.0 - s2, r3, r3 - 1.0 - s3)
       + CoreGap(1.0, S, K1, K3, M12, M23, G, U1, U2, U3, r1, r2, r3)
  {}

  lemma DefectMinus(S: real, K1: real, K3: real, M12: real, M23: real, G: real, U1: real, U2: real, U3: real,
                    r1: real, s1: real, r2: real, s2: real, r3: real, s3: real)
    ensures Brace(-1.0, S, K1, K3, M12, M23, G, U1, U2, U3, s1, s2, s3)
      == Defect(-1.0, S, K1, K3, M12, M23, U1, U2, U3, r1, r1 - 1.0 - s1, s2, r2 - 1.0 - s2, r3, r3 - 1.0 - s3)
       + CoreGap(-1.0, S, K1, K3, M12, M23, G, U1, U2, U3, r1, r2, r3)
  {}
}
