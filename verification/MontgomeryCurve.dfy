/**
The Montgomery curve c v^2 = u^3 + a u^2 + u modulo q, its chord and tangent law, and the proof that the
ladder's arithmetic on u-coordinates is that law. Every u is on such a curve for some c.
*/
module MontgomeryCurve {
  import opened FieldArithmetic

  datatype Point = Infinity | Finite(u: int, v: int)

  function Cubic(a: int, u: int): int {
    u * (u * u + a * u + 1)
  }

  ghost predicate OnCurve(a: int, c: int, p: Point) {
    p.Finite? ==> 0 <= p.u < Q && 0 <= p.v < Q && Eq(c * (p.v * p.v), Cubic(a, p.u))
  }

  function Slope(a: int, c: int, p: Point, r: Point): int
    requires p.Finite? && r.Finite?
  {
    if p.u != r.u then (r.v - p.v) * Inv(r.u - p.u) else (3 * (p.u * p.u) + 2 * a * p.u + 1) * Inv(2 * c * p.v)
  }

  /** Chord and tangent. */
  function Sum(a: int, c: int, p: Point, r: Point): Point {
    if p.Infinity? then r
    else if r.Infinity? then p
    else if p.u == r.u && (p.v != r.v || p.v == 0) then Infinity
    else
      var l := Slope(a, c, p, r);
      var u := Mod(c * (l * l) - a - p.u - r.u);
      Finite(u, Mod(l * (p.u - u) - p.v))
  }

  function Negated(p: Point): Point {
    if p.Infinity? then p else Finite(p.u, Mod(-p.v))
  }

  /** What the slope of a chord is, without division. */
  ghost predicate ChordAt(a: int, c: int, p: Point, r: Point, u: int, l: int)
    requires p.Finite? && r.Finite?
  {
    Eq(l * (r.u - p.u), r.v - p.v) && Eq(u, c * (l * l) - a - p.u - r.u)
  }

  ghost predicate TangentAt(a: int, c: int, p: Point, u: int, l: int)
    requires p.Finite?
  {
    Eq(l * (2 * c * p.v), 3 * (p.u * p.u) + 2 * a * p.u + 1) && Eq(u, c * (l * l) - a - 2 * p.u)
  }

  /** `op` adds these two points by chord and tangent. */
  ghost predicate SumAt(op: (Point, Point) -> Point, a: int, c: int, p: Point, r: Point) {
    if p.Infinity? then op(p, r) == r
    else if r.Infinity? then op(p, r) == p
    else if p.u == r.u && (p.v != r.v || p.v == 0) then op(p, r) == Infinity
    else
      && op(p, r).Finite?
      && exists l :: if p.u == r.u then TangentAt(a, c, p, op(p, r).u, l) else ChordAt(a, c, p, r, op(p, r).u, l)
  }

  // ----- identities -----------------------------------------------------------------------

  lemma {:induction false} SquareOf(x: int, y: int)
    ensures (x + y) * (x + y) == x * x + 2 * (x * y) + y * y
  {
  }

  /** (3u^2 + 2au + 1)^2 - 4 f(u) (a + 2u) = (u^2 - 1)^2. */
  lemma {:induction false} TangentIdentity(a: int, u: int)
    ensures (3 * (u * u) + 2 * a * u + 1) * (3 * (u * u) + 2 * a * u + 1) - 4 * Cubic(a, u) * (a + 2 * u)
      == (u * u - 1) * (u * u - 1)
  {
    var s, t := u * u, a * u;
    var g := s + t + 1;
    assert 2 * a * u == 2 * t;
    assert Cubic(a, u) == u * g;
    assert u * g * (a + 2 * u) == g * (t + 2 * s) by {
      assert u * (a + 2 * u) == t + 2 * s;
      assert u * g * (a + 2 * u) == g * (u * (a + 2 * u));
    }
    assert (3 * s + 2 * t + 1) * (3 * s + 2 * t + 1) - 4 * (g * (t + 2 * s)) == (s - 1) * (s - 1);
  }

  /** u1^3 + u2^3 terms: f1 + f2 - (a + u1 + u2)(u2 - u1)^2 = (u1 + u2)(u1 u2 + 1) + 2 a u1 u2. */
  lemma {:induction false} ChordIdentity(a: int, x: int, y: int)
    ensures Cubic(a, x) + Cubic(a, y) - (a + x + y) * ((y - x) * (y - x)) == (x + y) * (x * y + 1) + 2 * a * (x * y)
  {
    var s, t, p := x * x, y * y, x * y;
    assert (y - x) * (y - x) == s + t - 2 * p;
    assert Cubic(a, x) == x * s + a * s + x;
    assert Cubic(a, y) == y * t + a * t + y;
    assert x * t == y * p && y * s == x * p;
    assert (a + x + y) * (s + t - 2 * p) == a * (s + t - 2 * p) + x * s + x * t - 2 * (x * p) + y * s + y * t - 2 * (y * p);
    assert a * (s + t - 2 * p) == a * s + a * t - 2 * a * p;
    assert (x + y) * (p + 1) == x * p + y * p + x + y;
  }

  /** With p = x y and s = x + y: the product of the cubics. */
  lemma {:induction false} CubicProduct(a: int, x: int, y: int)
    ensures var p, s := x * y, x + y;
      Cubic(a, x) * Cubic(a, y) == p * (p * p + a * (p * s) + (s * s - 2 * p) + a * a * p + a * s + 1)
  {
    var p, s := x * y, x + y;
    var g, h := x * x + a * x + 1, y * y + a * y + 1;
    Shuffle(x, g, y, h);
    QuadraticProduct(a, x, y);
  }

  lemma {:induction false} QuadraticProduct(a: int, x: int, y: int)
    ensures var p, s := x * y, x + y;
      (x * x + a * x + 1) * (y * y + a * y + 1) == p * p + a * (p * s) + (s * s - 2 * p) + a * a * p + a * s + 1
  {
    var p, s := x * y, x + y;
    var m, n := x * x, y * y;
    SquareOf(x, y);
    SquareOfProduct(x, y);
    assert m * n == p * p;
    assert m * (a * y) == a * (p * x) && (a * x) * n == a * (p * y);
    assert (a * x) * (a * y) == a * a * p;
    assert p * s == p * x + p * y;
    assert a * (p * s) == a * (p * x) + a * (p * y);
    assert a * s == a * x + a * y;
    Expand(m, a * x, n, a * y);
  }

  lemma {:induction false} Expand(m: int, x: int, n: int, y: int)
    ensures (m + x + 1) * (n + y + 1) == m * n + m * y + m + x * n + x * y + x + n + y + 1
  {
  }

  /** K^2 - 4 f1 f2 = (u2 - u1)^2 (u1 u2 - 1)^2. */
  lemma {:induction false} DifferentialIdentity(a: int, x: int, y: int)
    ensures var K := (x + y) * (x * y + 1) + 2 * a * (x * y);
      K * K - 4 * (Cubic(a, x) * Cubic(a, y)) == ((y - x) * (y - x)) * ((x * y - 1) * (x * y - 1))
  {
    var p, s := x * y, x + y;
    CubicProduct(a, x, y);
    SymmetricIdentity(a, p, s);
    SquareOf(x, y);
    assert (y - x) * (y - x) == s * s - 4 * p;
  }

  lemma {:induction false} SymmetricIdentity(a: int, p: int, s: int)
    ensures var K := s * (p + 1) + 2 * a * p;
      K * K - 4 * (p * (p * p + a * (p * s) + (s * s - 2 * p) + a * a * p + a * s + 1)) == (s * s - 4 * p) * ((p - 1) * (p - 1))
  {
    var w, z, b := s * (p + 1), 2 * a * p, a * p;
    SquareOf(w, z);
    SquareOfProduct(s, p + 1);
    var S := s * s;
    assert z == 2 * b;
    assert w * z == 2 * (b * w);
    assert b * w == (b * s) * (p + 1) == (b * s) * p + b * s;
    assert p * (a * (p * s)) == (b * s) * p;
    assert p * (a * a * p) == b * b;
    assert p * (a * s) == b * s;
    assert p * (p * p + a * (p * s) + (S - 2 * p) + a * a * p + a * s + 1)
        == p * (p * p) + (b * s) * p + p * S - 2 * (p * p) + b * b + b * s + p;
    Poly(S, p);
  }

  lemma {:induction false} Poly(S: int, p: int)
    ensures S * ((p + 1) * (p + 1)) - 4 * (p * (p * p)) - 4 * (p * S) + 8 * (p * p) - 4 * p == (S - 4 * p) * ((p - 1) * (p - 1))
  {
    var t := p * p;
    assert (p + 1) * (p + 1) == t + 2 * p + 1 && (p - 1) * (p - 1) == t - 2 * p + 1;
    assert S * (t + 2 * p + 1) == S * t + 2 * (p * S) + S;
    assert (S - 4 * p) * (t - 2 * p + 1) == S * t - 2 * (p * S) + S - 4 * (p * t) + 8 * t - 4 * p;
  }

  // ----- the law in u-coordinates ---------------------------------------------------------

  lemma {:induction false} TangentSquares(c: int, v: int, l: int)
    ensures (l * (2 * c * v)) * (l * (2 * c * v)) == (c * (l * l)) * (4 * (c * (v * v)))
  {
    var w := 2 * c * v;
    SquareOfProduct(l, w);
    assert w * w == c * (4 * (c * (v * v))) by {
      assert w == 2 * (c * v);
      SquareOfProduct(c, v);
      assert (c * v) * (c * v) == c * (c * (v * v));
    }
    assert (l * l) * (c * (4 * (c * (v * v)))) == (c * (l * l)) * (4 * (c * (v * v)));
  }

  lemma {:induction false} Spread(g: int, a: int, u: int, m: int)
    ensures (g - a - 2 * u) * m == g * m - m * (a + 2 * u)
  {
  }

  /** The tangent point's u satisfies x 4f(u) = (u^2 - 1)^2. */
  lemma {:induction false} TangentCoordinate(a: int, c: int, u: int, v: int, l: int, x: int)
    requires Eq(c * (v * v), Cubic(a, u)) && Eq(l * (2 * c * v), 3 * (u * u) + 2 * a * u + 1)
    requires Eq(x, c * (l * l) - a - 2 * u)
    ensures Eq(x * (4 * Cubic(a, u)), (u * u - 1) * (u * u - 1))
  {
    var t, m, f, g := 3 * (u * u) + 2 * a * u + 1, 4 * (c * (v * v)), Cubic(a, u), c * (l * l);
    ScaleEq(c * (v * v), f, 4);
    TangentSquares(c, v, l);
    MulEq(l * (2 * c * v), t, l * (2 * c * v), t);
    MulEq(x, g - a - 2 * u, m, m);
    MulEq(x, x, m, 4 * f);
    Spread(g, a, u, m);
    ScaleEq(m, 4 * f, a + 2 * u);
    AddEq(g * m, t * t, m * (a + 2 * u), 4 * f * (a + 2 * u));
    TangentIdentity(a, u);
  }

  /** The symmetric part of the chord's numerator. */
  function Middle(a: int, x: int, y: int): int {
    (x + y) * (x * y + 1) + 2 * a * (x * y)
  }

  lemma {:induction false} ChordSquares(c: int, l: int, d: int, s: int, x: int)
    ensures (c * (l * l) - s) * (d * d) == c * ((l * d) * (l * d)) - s * (d * d)
  {
    SquareOfProduct(l, d);
  }

  lemma {:induction false} SquareOfDifference(c: int, v: int, w: int)
    ensures c * ((w - v) * (w - v)) == c * (v * v) + c * (w * w) - 2 * (c * (v * w))
  {
    var t := v * w;
    assert (w - v) * (w - v) == v * v + w * w - 2 * t;
  }

  lemma {:induction false} ChordNumerator(c: int, v: int, w: int, f: int, g: int, n: int)
    requires Eq(c * (v * v), f) && Eq(c * (w * w), g) && Eq(n, w - v)
    ensures Eq(c * (n * n), f + g - 2 * (c * (v * w)))
  {
    var k := 2 * (c * (v * w));
    MulEq(n, w - v, n, w - v);
    MulEq(c, c, n * n, (w - v) * (w - v));
    SquareOfDifference(c, v, w);
    AddEq(c * (v * v), f, c * (w * w), g);
    AddEq(c * (v * v) + c * (w * w), f + g, k, k);
  }

  lemma {:induction false} Regroup(f: int, g: int, k: int, m: int, e: int)
    requires f + g - e == m
    ensures f + g - k - e == m - k
  {
  }

  /** The chord point's u satisfies x (u2 - u1)^2 = K - 2 c v1 v2. */
  lemma {:induction false} ChordCoordinate(a: int, c: int, x: int, v: int, y: int, w: int, l: int, u: int)
    requires Eq(c * (v * v), Cubic(a, x)) && Eq(c * (w * w), Cubic(a, y))
    requires Eq(l * (y - x), w - v) && Eq(u, c * (l * l) - a - x - y)
    ensures Eq(u * ((y - x) * (y - x)), Middle(a, x, y) - 2 * (c * (v * w)))
  {
    var d, s, k := y - x, a + x + y, 2 * (c * (v * w));
    var f, g, n := Cubic(a, x), Cubic(a, y), l * d;
    ScaleEq(u, c * (l * l) - s, d * d);
    ChordSquares(c, l, d, s, x);
    ChordNumerator(c, v, w, f, g, n);
    AddEq(c * (n * n), f + g - k, s * (d * d), s * (d * d));
    ChordIdentity(a, x, y);
    Regroup(f, g, k, Middle(a, x, y), s * (d * d));
  }

  lemma {:induction false} ProductOfCurve(c: int, v: int, w: int)
    ensures (c * (v * w)) * (c * (v * w)) == (c * (v * v)) * (c * (w * w))
  {
    SquareOfProduct(c, v * w);
    SquareOfProduct(v, w);
    Shuffle(c, v * v, c, w * w);
  }

  lemma {:induction false} Conjugates(k: int, w: int)
    ensures (k - 2 * w) * (k + 2 * w) == k * k - 4 * (w * w)
  {
  }

  /** The chord points through P, Q and through P, -Q: their u's multiply to (u1 u2 - 1)^2 / (u2 - u1)^2. */
  lemma {:induction false} DifferentialCoordinates(a: int, c: int, x: int, v: int, y: int, w: int, u: int, t: int)
    requires Field() && Eq(c * (v * v), Cubic(a, x)) && Eq(c * (w * w), Cubic(a, y)) && !Eq(y - x, 0)
    requires Eq(u * ((y - x) * (y - x)), Middle(a, x, y) - 2 * (c * (v * w)))
    requires Eq(t * ((y - x) * (y - x)), Middle(a, x, y) + 2 * (c * (v * w)))
    ensures Eq((u * t) * ((y - x) * (y - x)), (x * y - 1) * (x * y - 1))
  {
    var D, K, W := (y - x) * (y - x), Middle(a, x, y), c * (v * w);
    var P := (x * y - 1) * (x * y - 1);
    MulEq(u * D, K - 2 * W, t * D, K + 2 * W);
    Conjugates(K, W);
    ProductOfCurve(c, v, w);
    MulEq(c * (v * v), Cubic(a, x), c * (w * w), Cubic(a, y));
    ScaleEq(W * W, Cubic(a, x) * Cubic(a, y), 4);
    AddEq(K * K, K * K, (W * W) * 4, (Cubic(a, x) * Cubic(a, y)) * 4);
    DifferentialIdentity(a, x, y);
    Shuffle(u, D, t, D);
    assert (u * t) * (D * D) == D * ((u * t) * D);
    NonzeroProduct(y - x, y - x);
    Cancel(D, (u * t) * D, P);
  }
}
