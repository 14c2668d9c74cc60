/**
The twisted Edwards curve -x^2 + y^2 = 1 + d x^2 y^2 of section 5.1 of RFC 8032: its affine law, its
completeness, and the extended-coordinate formulas that refine it.
*/
module EdwardsCurve {
  import opened FieldArithmetic

  /** The curve's coefficient d = -121665/121666 and a square root of minus one. */
  const D: int := 37095705934669439343138083508754565189542113879843219016388785533085940283555
  const I: int := 19681161376707505956807079304988542015446066515923890162744021073123829784752

  ghost predicate RootOfMinusOne(i: int) {
    Eq(i * i, -1)
  }

  lemma {:induction false} ConstantsAreRight()
    ensures Eq(D * 121666, -121665) && RootOfMinusOne(I)
  {
    EqIsRemainder(D * 121666, -121665);
    EqIsRemainder(I * I, -1);
  }

  lemma {:induction false} MinusOneIsASquare()
    ensures exists i :: RootOfMinusOne(i)
  {
    ConstantsAreRight();
  }

  datatype Affine = Affine(x: int, y: int)

  /** (X : Y : Z) with T = XY / Z. */
  datatype Extended = Extended(X: int, Y: int, Z: int, T: int)

  ghost predicate OnCurve(d: int, p: Affine) {
    Eq(p.y * p.y - p.x * p.x, 1 + d * (p.x * p.x) * (p.y * p.y))
  }

  ghost predicate Ratio(d: int, u: int, v: int) {
    Eq(u * u, d * (v * v))
  }

  /** d is not a square. */
  ghost predicate NonSquare(d: int) {
    forall u, v :: Ratio(d, u, v) ==> Eq(v, 0)
  }

  /** The product that the affine law divides by one plus and one minus. */
  function Mixed(d: int, p: Affine, r: Affine): int {
    d * (p.x * p.y) * (r.x * r.y)
  }

  function AffineSum(d: int, p: Affine, r: Affine): Affine {
    Affine(Mod((p.x * r.y + r.x * p.y) * Inv(1 + Mixed(d, p, r))),
           Mod((p.y * r.y + p.x * r.x) * Inv(1 - Mixed(d, p, r))))
  }

  // ----- completeness ---------------------------------------------------------------------

  lemma {:induction false} SquareOfSum(i: int, x: int, y: int, e: int)
    requires e == 1 || e == -1
    ensures (i * x + e * y) * (i * x + e * y) == (i * i) * (x * x) + y * y + 2 * e * i * (x * y)
  {
  }

  /** (I x1 + e y1)^2 = 1 + d x1^2 y1^2 + 2 e I x1 y1, for e = 1 or -1. */
  lemma {:induction false} CompletedSquare(d: int, i: int, p: Affine, e: int)
    requires RootOfMinusOne(i) && OnCurve(d, p) && (e == 1 || e == -1)
    ensures Eq((i * p.x + e * p.y) * (i * p.x + e * p.y), 1 + d * (p.x * p.x) * (p.y * p.y) + 2 * e * i * (p.x * p.y))
  {
    var xx, yy, c := p.x * p.x, p.y * p.y, 2 * e * i * (p.x * p.y);
    SquareOfSum(i, p.x, p.y, e);
    ScaleEq(i * i, -1, xx);
    AddEq((i * i) * xx, -1 * xx, yy + c, yy + c);
    AddEq(yy - xx, 1 + d * xx * yy, c, c);
  }

  lemma {:induction false} Spread(d: int, i: int, w: int, u: int, e: int)
    ensures var k := d * w * u;
      (d * (w * w)) * (1 + d * (u * u) + 2 * e * i * u) == d * (w * w) + k * k + 2 * e * i * w * k
  {
    var k := d * w * u;
    assert (d * (w * w)) * (d * (u * u)) == k * k;
    assert (d * (w * w)) * (2 * e * i * u) == 2 * e * i * w * k;
  }

  lemma {:induction false} Regroup(d: int, w: int, s: int)
    ensures d * ((w * s) * (w * s)) == (s * s) * (d * (w * w))
  {
  }

  lemma {:induction false} Reassociate(d: int, x: int, y: int)
    ensures d * (x * x) * (y * y) == d * ((x * y) * (x * y))
  {
  }

  /** d x1^2 y1^2 (I x2 + e y2)^2 = d x1^2 y1^2 + k^2 + 2 e I x1 y1 k, where k is the mixed product. */
  lemma {:induction false} ScaledSquare(d: int, i: int, p: Affine, r: Affine, e: int)
    requires RootOfMinusOne(i) && OnCurve(d, r) && (e == 1 || e == -1)
    ensures var k := Mixed(d, p, r); var v := (p.x * p.y) * (i * r.x + e * r.y);
      Eq(d * (v * v), d * (p.x * p.x) * (p.y * p.y) + k * k + 2 * e * i * (p.x * p.y) * k)
  {
    var w, u, s := p.x * p.y, r.x * r.y, i * r.x + e * r.y;
    CompletedSquare(d, i, r, e);
    Reassociate(d, r.x, r.y);
    Reassociate(d, p.x, p.y);
    ScaleEq(s * s, 1 + d * (u * u) + 2 * e * i * u, d * (w * w));
    Regroup(d, w, s);
    Commute(1 + d * (u * u) + 2 * e * i * u, d * (w * w));
    Spread(d, i, w, u, e);
  }

  lemma {:induction false} Factorings(d: int, w: int, x: int, y: int)
    ensures d * w * (x * y) == w * (d * (x * y)) && d * w * (x * y) == y * (d * w * x)
  {
  }

  lemma {:induction false} TwiceSecond(e: int, a: int, y: int)
    ensures a + e * y - (a - e * y) == (2 * e) * y
  {
  }

  /** If the mixed product were one or minus one, d would be a square or the product zero. */
  lemma {:induction false} MixedVanishes(d: int, i: int, p: Affine, r: Affine, e: int)
    requires Field() && RootOfMinusOne(i) && NonSquare(d) && OnCurve(d, p) && OnCurve(d, r) && (e == 1 || e == -1)
    requires Eq(Mixed(d, p, r), e)
    ensures Eq(Mixed(d, p, r), 0)
  {
    var w := p.x * p.y;
    VanishingFactor(d, i, p, r, e, 1);
    VanishingFactor(d, i, p, r, e, -1);
    Factorings(d, w, r.x, r.y);
    if Eq(w, 0) {
      ScaleEq(w, 0, d * (r.x * r.y));
    } else {
      NoZeroDivisors(w, i * r.x + e * r.y);
      NoZeroDivisors(w, i * r.x - e * r.y);
      AddEq(i * r.x + e * r.y, 0, i * r.x - e * r.y, 0);
      TwiceSecond(e, i * r.x, r.y);
      SmallNumbersDiffer();
      NoZeroDivisors(2 * e, r.y);
      ScaleEq(r.y, 0, d * w * r.x);
    }
  }

  lemma {:induction false} MixedIsNotAUnit(d: int, p: Affine, r: Affine, e: int)
    requires Field() && NonSquare(d) && OnCurve(d, p) && OnCurve(d, r) && (e == 1 || e == -1)
    ensures !Eq(Mixed(d, p, r), e)
  {
    SmallNumbersDiffer();
    MinusOneIsASquare();
    var i :| RootOfMinusOne(i);
    if Eq(Mixed(d, p, r), e) {
      MixedVanishes(d, i, p, r, e);
    }
  }

  /** With k = e both x1 y1 (I x2 + e y2) and x1 y1 (I x2 - e y2) would have to vanish. */
  lemma {:induction false} VanishingFactor(d: int, i: int, p: Affine, r: Affine, e: int, f: int)
    requires RootOfMinusOne(i) && NonSquare(d) && OnCurve(d, p) && OnCurve(d, r) && (e == 1 || e == -1) && (f == 1 || f == -1)
    requires Eq(Mixed(d, p, r), e)
    ensures Eq((p.x * p.y) * (i * r.x + f * e * r.y), 0)
  {
    var k, w, g := Mixed(d, p, r), p.x * p.y, f * e;
    var u, v := i * p.x + f * p.y, w * (i * r.x + g * r.y);
    CompletedSquare(d, i, p, f);
    ScaledSquare(d, i, p, r, g);
    MulEq(k, e, k, e);
    MulEq(2 * g * i * w, 2 * g * i * w, k, e);
    AddEq(k * k, e * e, 2 * g * i * w * k, 2 * g * i * w * e);
    AddEq(d * (p.x * p.x) * (p.y * p.y), d * (p.x * p.x) * (p.y * p.y),
          k * k + 2 * g * i * w * k, e * e + 2 * g * i * w * e);
    assert e * e == 1 && 2 * g * i * w * e == 2 * f * i * w;
    assert Ratio(d, u, v);
  }

  /** The denominators of the affine law never vanish on the curve. */
  lemma {:induction false} Complete(d: int, p: Affine, r: Affine)
    requires Field() && NonSquare(d) && OnCurve(d, p) && OnCurve(d, r)
    ensures !Eq(1 + Mixed(d, p, r), 0) && !Eq(1 - Mixed(d, p, r), 0)
  {
    var k := Mixed(d, p, r);
    MixedIsNotAUnit(d, p, r, 1);
    MixedIsNotAUnit(d, p, r, -1);
    if Eq(1 + k, 0) {
      AddEq(1 + k, 0, 1, 1);
    }
    if Eq(1 - k, 0) {
      AddEq(1 - k, 0, 1, 1);
      Sign(k - 1);
      AddEq(1, 1, 1 - k, 0);
    }
  }

  /** What division means: the sum's coordinates solve the two equations of the affine law. */
  lemma {:induction false} SumSolves(d: int, p: Affine, r: Affine)
    requires Field() && NonSquare(d) && OnCurve(d, p) && OnCurve(d, r)
    ensures var s := AffineSum(d, p, r); var k := Mixed(d, p, r);
      && Eq(s.x * (1 + k), p.x * r.y + r.x * p.y)
      && Eq(s.y * (1 - k), p.y * r.y + p.x * r.x)
  {
    Complete(d, p, r);
    var k := Mixed(d, p, r);
    Quotient(p.x * r.y + r.x * p.y, 1 + k);
    Quotient(p.y * r.y + p.x * r.x, 1 - k);
  }

  lemma {:induction false} Quotient(n: int, m: int)
    requires Field() && !Eq(m, 0)
    ensures Eq(Mod(n * Inv(m)) * m, n)
  {
    Reduced(n * Inv(m));
    MulEq(Mod(n * Inv(m)), n * Inv(m), m, m);
    MulEq(m * Inv(m), 1, n, n);
    assert n * Inv(m) * m == m * Inv(m) * n;
  }

  // ----- closure --------------------------------------------------------------------------

  lemma {:induction false} SumSquares(s: int, t: int, w: int)
    requires s * t == w
    ensures (s + t) * (s + t) == s * s + t * t + 2 * w
  {
  }

  lemma {:induction false} NumeratorIdentity(d: int, w: int, u: int, v: int)
    ensures var k := d * w;
      ((1 + k) * (1 + k)) * (v + 2 * w) - ((1 - k) * (1 - k)) * (u + 2 * w) - d * ((u + 2 * w) * (v + 2 * w))
      == (v - u) * (1 + k * k) + 4 * d * (w * w) - d * (u * v)
  {
  }

  lemma {:induction false} FactorIdentity(d: int, a: int, b: int, m: int, n: int)
    ensures (a - b * (d * m)) * (b - a * (d * n)) == (a * b) * (1 + d * d * (m * n)) - d * ((a * a) * n + (b * b) * m)
  {
  }

  lemma {:induction false} Expand(x: int, y: int, u: int, v: int)
    ensures (x + y) * (u + v) == x * u + x * v + y * u + y * v
  {
  }

  lemma {:induction false} SquareOfDifference(a: int, b: int)
    ensures (b - a) * (b - a) == a * a + b * b - 2 * (a * b)
  {
  }

  lemma {:induction false} CrossSum(s: int, p: int, t: int, q: int)
    ensures (s - 2 * p) * q + (t - 2 * q) * p == s * q + t * p - 4 * (p * q)
  {
  }

  lemma {:induction false} CrossProduct(a: int, b: int, c: int, e: int)
    ensures (a * e + c * b) * (b * e + a * c) == (a * a + b * b) * (c * e) + (c * c + e * e) * (a * b)
  {
    Expand(a * e, c * b, b * e, a * c);
    Shuffle(a, e, b, e);
    Shuffle(a, e, a, c);
    Shuffle(c, b, b, e);
    Commute(b, e);
    Shuffle(c, b, e, b);
    Shuffle(c, b, a, c);
    Commute(a, c);
    Shuffle(c, b, c, a);
    Collect(a * a, b * b, c * e, c * c, e * e, a * b);
  }

  lemma {:induction false} Collect(x: int, y: int, z: int, u: int, v: int, w: int)
    ensures w * v + x * z + z * y + u * w == (x + y) * z + (u + v) * w
  {
  }

  lemma {:induction false} CrossDifference(a: int, b: int, c: int, e: int)
    ensures (b - a) * (e - c) == (b * e + a * c) - (a * e + c * b)
  {
  }

  lemma {:induction false} CrossIdentity(a: int, b: int, c: int, e: int)
    ensures ((b - a) * (b - a)) * (c * e) + ((e - c) * (e - c)) * (a * b)
      == (a * e + c * b) * (b * e + a * c) - 4 * ((a * b) * (c * e))
  {
    SquareOfDifference(a, b);
    SquareOfDifference(c, e);
    CrossSum(a * a + b * b, a * b, c * c + e * e, c * e);
    CrossProduct(a, b, c, e);
  }

  lemma {:induction false} KSquared(d: int, w: int)
    ensures d * d * (w * w) == (d * w) * (d * w)
  {
  }

  /** The numerators satisfy the curve equation up to the factored form of the two points' equations. */
  lemma {:induction false} ClosureIdentity(d: int, x: int, y: int, z: int, w: int)
    ensures var m, n := (x * x) * (y * y), (z * z) * (w * w);
      var k := d * ((x * y) * (z * w));
      var a, b := x * w + z * y, y * w + x * z;
      ((1 + k) * (1 + k)) * (b * b) - ((1 - k) * (1 - k)) * (a * a) - d * ((a * a) * (b * b))
      == ((y * y - x * x) - (w * w - z * z) * (d * m)) * ((w * w - z * z) - (y * y - x * x) * (d * n))
  {
    var m, n, v0 := (x * x) * (y * y), (z * z) * (w * w), (x * y) * (z * w);
    var a, b := x * w + z * y, y * w + x * z;
    var u, v := (x * x) * (w * w) + (z * z) * (y * y), (y * y) * (w * w) + (x * x) * (z * z);
    MixedProducts(x, y, z, w);
    SquareOfProduct(x, w);
    SquareOfProduct(z, y);
    SquareOfProduct(y, w);
    SquareOfProduct(x, z);
    SumSquares(x * w, z * y, v0);
    SumSquares(y * w, x * z, v0);
    NumeratorIdentity(d, v0, u, v);
    FactorIdentity(d, y * y - x * x, w * w - z * z, m, n);
    CrossDifference(x * x, y * y, z * z, w * w);
    CrossIdentity(x * x, y * y, z * z, w * w);
    ProductOfSquares(x, y, z, w);
    Combine4(d, y * y - x * x, w * w - z * z, m, n, v0, u, v);
  }

  lemma {:induction false} MixedProducts(x: int, y: int, z: int, w: int)
    ensures (x * w) * (z * y) == (x * y) * (z * w) && (y * w) * (x * z) == (x * y) * (z * w)
  {
    Commute(z, y);
    Shuffle(x, w, y, z);
    Commute(w, z);
    Shuffle(y, w, x, z);
    Commute(y, x);
  }

  lemma {:induction false} ProductOfSquares(x: int, y: int, z: int, w: int)
    ensures ((x * x) * (y * y)) * ((z * z) * (w * w)) == ((x * y) * (z * w)) * ((x * y) * (z * w))
  {
    SquareOfProduct(x, y);
    SquareOfProduct(z, w);
    SquareOfProduct(x * y, z * w);
  }

  lemma {:induction false} Combine4(d: int, a: int, b: int, m: int, n: int, w: int, u: int, v: int)
    requires a * b == v - u && m * n == w * w
    requires (a * a) * n + (b * b) * m == u * v - 4 * (w * w)
    ensures (a * b) * (1 + d * d * (m * n)) - d * ((a * a) * n + (b * b) * m)
      == (v - u) * (1 + (d * w) * (d * w)) + 4 * d * (w * w) - d * (u * v)
  {
    KSquared(d, w);
  }

  /** 1 + d m - (1 + d n) d m = 1 - d^2 m n. */
  lemma {:induction false} FactorCollapses(d: int, a: int, b: int, m: int, n: int, k: int)
    requires Eq(a, 1 + d * m) && Eq(b, 1 + d * n) && (d * n) * (d * m) == k * k
    ensures Eq(a - b * (d * m), 1 - k * k)
  {
    ScaleEq(b, 1 + d * n, d * m);
    OneTimes(d * n, d * m);
    AddEq(a, 1 + d * m, b * (d * m), (1 + d * n) * (d * m));
  }

  lemma {:induction false} OneTimes(x: int, y: int)
    ensures (1 + x) * y == y + x * y
  {
  }

  lemma {:induction false} ProductOfScaled(d: int, m: int, n: int, w: int)
    requires m * n == w * w
    ensures (d * n) * (d * m) == (d * w) * (d * w) && (d * m) * (d * n) == (d * w) * (d * w)
  {
    assert (d * n) * (d * m) == d * d * (m * n);
    KSquared(d, w);
  }

  lemma {:induction false} DifferenceOfSquares(k: int)
    ensures (1 - k * k) * (1 - k * k) == ((1 + k) * (1 - k)) * ((1 + k) * (1 - k))
  {
  }

  /** Sum numerators over the curve: (1+k)^2 b^2 - (1-k)^2 a^2 = (1-k^2)^2 + d a^2 b^2. */
  lemma {:induction false} NumeratorsOnCurve(d: int, p: Affine, r: Affine)
    requires OnCurve(d, p) && OnCurve(d, r)
    ensures var k := Mixed(d, p, r); var a, b := p.x * r.y + r.x * p.y, p.y * r.y + p.x * r.x;
      var g := (1 + k) * (1 - k);
      Eq(((1 + k) * (1 + k)) * (b * b) - ((1 - k) * (1 - k)) * (a * a), g * g + d * ((a * a) * (b * b)))
  {
    var k := Mixed(d, p, r);
    var a, b := p.x * r.y + r.x * p.y, p.y * r.y + p.x * r.x;
    var m, n, w := (p.x * p.x) * (p.y * p.y), (r.x * r.x) * (r.y * r.y), (p.x * p.y) * (r.x * r.y);
    var f, h := p.y * p.y - p.x * p.x, r.y * r.y - r.x * r.x;
    ClosureIdentity(d, p.x, p.y, r.x, r.y);
    ProductOfSquares(p.x, p.y, r.x, r.y);
    ProductOfScaled(d, m, n, w);
    MixedIs(d, p.x * p.y, r.x * r.y);
    Grouped(d, p.x * p.x, p.y * p.y);
    Grouped(d, r.x * r.x, r.y * r.y);
    FactorCollapses(d, f, h, m, n, k);
    FactorCollapses(d, h, f, n, m, k);
    MulEq(f - h * (d * m), 1 - k * k, h - f * (d * n), 1 - k * k);
    DifferenceOfSquares(k);
    var c := d * ((a * a) * (b * b));
    AddEq(((1 + k) * (1 + k)) * (b * b) - ((1 - k) * (1 - k)) * (a * a) - c, (1 - k * k) * (1 - k * k), c, c);
  }

  lemma {:induction false} MixedIs(d: int, v: int, w: int)
    ensures d * v * w == d * (v * w)
  {
  }

  lemma {:induction false} Grouped(d: int, x: int, y: int)
    ensures d * x * y == d * (x * y)
  {
  }

  lemma {:induction false} ScaledSquares(d: int, x: int, y: int, c: int, e: int)
    ensures ((c * e) * (c * e)) * (x * x) == (e * e) * ((x * c) * (x * c))
    ensures ((c * e) * (c * e)) * (y * y) == (c * c) * ((y * e) * (y * e))
    ensures ((c * e) * (c * e)) * (d * (x * x) * (y * y)) == d * (((x * c) * (x * c)) * ((y * e) * (y * e)))
  {
    assert ((c * e) * (c * e)) * (x * x) == (e * e) * ((x * c) * (x * c));
    assert ((x * c) * (x * c)) == (x * x) * (c * c);
    assert ((y * e) * (y * e)) == (y * y) * (e * e);
    assert ((c * e) * (c * e)) == (c * c) * (e * e);
    FourProducts(d, x * x, y * y, c * c, e * e);
  }

  lemma {:induction false} FourProducts(d: int, x: int, y: int, c: int, e: int)
    ensures (c * e) * (d * x * y) == d * ((x * c) * (y * e))
  {
  }

  lemma {:induction false} Split(g: int, y: int, x: int, t: int)
    ensures g * (y - x) == g * y - g * x && g * (1 + t) == g + g * t
  {
  }

  /** The affine law stays on the curve. */
  lemma {:induction false} SumOnCurve(d: int, p: Affine, r: Affine)
    requires Field() && NonSquare(d) && OnCurve(d, p) && OnCurve(d, r)
    ensures OnCurve(d, AffineSum(d, p, r))
  {
    var s, k := AffineSum(d, p, r), Mixed(d, p, r);
    var a, b := p.x * r.y + r.x * p.y, p.y * r.y + p.x * r.x;
    var c, e := 1 + k, 1 - k;
    var g := c * e;
    SumSolves(d, p, r);
    Complete(d, p, r);
    NonzeroProduct(c, e);
    NonzeroProduct(g, g);
    NumeratorsOnCurve(d, p, r);
    var xc, ye := s.x * c, s.y * e;
    MulEq(xc, a, xc, a);
    MulEq(ye, b, ye, b);
    ScaleEq(xc * xc, a * a, e * e);
    ScaleEq(ye * ye, b * b, c * c);
    Commute(xc * xc, e * e);
    Commute(a * a, e * e);
    Commute(ye * ye, c * c);
    Commute(b * b, c * c);
    MulEq(xc * xc, a * a, ye * ye, b * b);
    ScaleEq((xc * xc) * (ye * ye), (a * a) * (b * b), d);
    Commute((xc * xc) * (ye * ye), d);
    Commute((a * a) * (b * b), d);
    ScaledSquares(d, s.x, s.y, c, e);
    AddEq((c * c) * (ye * ye), (c * c) * (b * b), (e * e) * (xc * xc), (e * e) * (a * a));
    AddEq(g * g, g * g, d * ((xc * xc) * (ye * ye)), d * ((a * a) * (b * b)));
    Split(g * g, s.y * s.y, s.x * s.x, d * (s.x * s.x) * (s.y * s.y));
    Cancel(g * g, s.y * s.y - s.x * s.x, 1 + d * (s.x * s.x) * (s.y * s.y));
  }
}
