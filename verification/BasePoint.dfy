/** Checking a multiple of the base point against a literal path of additions. */
module BasePoint {
  import opened ModArith
  import opened Primes
  import opened CurveAlgebra
  import opened Edwards
  import opened Witness

  /** A literal path: each step names the point it reaches. */
  datatype Path =
    | Stop
    | Double(x: real, y: real, rest: Path)
    | Plus(k: nat, kx: real, ky: real, x: real, y: real, rest: Path)

  /** The addition formulas, cleared of denominators, in one formula that evaluates at once on literals. */
  ghost predicate Adds(q: real, d: real, x1: real, y1: real, x2: real, y2: real, x: real, y: real)
    requires q > 0.0
  {
    && x == x.Floor as real && y == y.Floor as real && 0.0 <= x < q && 0.0 <= y < q
    && AddsOver(q, x, y, Mixed(d, x1, y1, x2, y2), Diagonal(x1, y1, x2, y2), Straight(x1, y1, x2, y2))
  }

  ghost predicate AddsOver(q: real, x: real, y: real, t: real, A: real, B: real)
    requires q > 0.0
  {
    Solves(q, x, 1.0 + t, A) && Solves(q, y, 1.0 - t, B)
  }

  ghost predicate Solves(q: real, x: real, u: real, A: real)
    requires q > 0.0
  {
    Divides(q, x * u - A)
  }

  ghost predicate Follows(points: iset<(nat, real, real)>, q: real, d: real, x: real, y: real, path: Path)
    requires q > 0.0
    decreases path
  {
    match path
    case Stop => true
    case Double(x', y', rest) => Adds(q, d, x, y, x, y, x', y') && Follows(points, q, d, x', y', rest)
    case Plus(k, kx, ky, x', y', rest) =>
      (k, kx, ky) in points && Adds(q, d, x, y, kx, ky, x', y') && Follows(points, q, d, x', y', rest)
  }

  ghost function Reached(n: nat, x: real, y: real, path: Path): (nat, real, real)
    decreases path
  {
    match path
    case Stop => (n, x, y)
    case Double(x', y', rest) => Reached(2 * n, x', y', rest)
    case Plus(k, _, _, x', y', rest) => Reached(n + k, x', y', rest)
  }

  ghost predicate At(n: nat, x: real, y: real) { true }

  ghost predicate Located(c: Params, base: Point, n: nat, x: real, y: real) {
    c.Good() && c.OnCurve(base) && Re(c.Multiple(base, n).x) == x && Re(c.Multiple(base, n).y) == y
  }

  /** The triples (n, x, y) with n * base = (x, y). */
  ghost predicate MultiplesOf(points: iset<(nat, real, real)>, c: Params, base: Point, q: real, d: real) {
    && Re(c.q) == q && Re(c.d) == d
    && forall n: nat, x: real, y: real {:trigger At(n, x, y)} :: (n, x, y) in points <==> Located(c, base, n, x, y)
  }

  lemma AllMultiples(c: Params, base: Point, q: real, d: real, x: real, y: real)
    returns (points: iset<(nat, real, real)>)
    requires c.Good() && c.OnCurve(base) && Re(c.q) == q && Re(c.d) == d && Re(base.x) == x && Re(base.y) == y
    ensures MultiplesOf(points, c, base, q, d) && (1, x, y) in points
  {
    points := iset n: nat, x: real, y: real | Located(c, base, n, x, y) :: (n, x, y);
    c.MultipleOne(base);
  }

  lemma {:induction false} Travel(points: iset<(nat, real, real)>, c: Params, base: Point, q: real, d: real,
                                  n: nat, x: real, y: real, path: Path)
    requires q > 0.0 && MultiplesOf(points, c, base, q, d) && (n, x, y) in points && Follows(points, q, d, x, y, path)
    ensures Reached(n, x, y, path) in points
    decreases path
  {
    match path
    case Stop =>
    case Double(x', y', rest) =>
      assert At(n, x, y);
      Sum(c, base, q, d, n, x, y, n, x, y, x', y');
      assert At(2 * n, x', y');
      Travel(points, c, base, q, d, 2 * n, x', y', rest);
    case Plus(k, kx, ky, x', y', rest) =>
      assert At(n, x, y) && At(k, kx, ky);
      Sum(c, base, q, d, n, x, y, k, kx, ky, x', y');
      assert At(n + k, x', y');
      Travel(points, c, base, q, d, n + k, x', y', rest);
  }

  lemma Sum(c: Params, base: Point, q: real, d: real, n: nat, x1: real, y1: real, k: nat, x2: real, y2: real, x: real,
            y: real)
    requires q > 0.0 && Re(c.q) == q && Re(c.d) == d && Located(c, base, n, x1, y1) && Located(c, base, k, x2, y2)
    requires Adds(q, d, x1, y1, x2, y2, x, y)
    ensures Located(c, base, n + k, x, y)
  {
    c.MultipleSum(base, n, k);
    c.MultipleOnCurve(base, n);
    c.MultipleOnCurve(base, k);
    AddsSum(c, c.Multiple(base, n), c.Multiple(base, k), Point(x.Floor, y.Floor));
  }

  lemma AddsSum(c: Params, p: Point, r: Point, s: Point)
    requires c.Good() && c.OnCurve(p) && c.OnCurve(r)
    requires Adds(Re(c.q), Re(c.d), Re(p.x), Re(p.y), Re(r.x), Re(r.y), Re(s.x), Re(s.y))
    ensures s == c.Add(p, r)
  {
    SumHolds(c, p, r, s);
    c.SumIsAdd(p, r, s);
  }

  lemma SumHolds(c: Params, p: Point, r: Point, s: Point)
    requires c.q > 2 && Adds(Re(c.q), Re(c.d), Re(p.x), Re(p.y), Re(r.x), Re(r.y), Re(s.x), Re(s.y))
    ensures c.Field().Sum(Re(c.d), Re(p.x), Re(p.y), Re(r.x), Re(r.y), Re(s.x), Re(s.y))
  {
    var t, A, B := c.AddTwins(p, r);
    assert AddsOver(Re(c.q), Re(s.x), Re(s.y), Re(t), Re(A), Re(B));
    QuotientsHold(c, s, t, A, B);
    c.Field().SumOf(Re(c.d), Re(p.x), Re(p.y), Re(r.x), Re(r.y), Re(A), Re(B), Re(t), Re(s.x), Re(s.y));
  }

  lemma QuotientsHold(c: Params, s: Point, t: int, A: int, B: int)
    requires c.q > 2 && AddsOver(Re(c.q), Re(s.x), Re(s.y), Re(t), Re(A), Re(B))
    ensures c.Field().Quotient(Re(s.x), Re(A), 1.0 + Re(t)) && c.Field().Quotient(Re(s.y), Re(B), 1.0 - Re(t))
  {
    QuotientHolds(c, s.x, A, 1 + t, 1.0 + Re(t));
    QuotientHolds(c, s.y, B, 1 - t, 1.0 - Re(t));
  }

  lemma QuotientHolds(c: Params, x: int, A: int, a: int, ra: real)
    requires c.q > 0 && Re(a) == ra && Solves(Re(c.q), Re(x), ra, Re(A))
    ensures c.Field().Quotient(Re(x), Re(A), ra)
  {
    Twin(x, Re(x), a, ra);
    assert Re(x * a - A) == Re(x) * ra - Re(A);
    DividesZero(c.q, x * a - A);
    c.QuotientBridge(x, A, a);
  }
}
