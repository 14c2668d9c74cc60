/**
Ed25519 arithmetic in extended coordinates: addition, doubling and scalar multiplication refine the
affine law, and the signature equation holds for what the signer computes.
*/
module EdwardsArithmetic {
  import opened FieldArithmetic
  import opened EdwardsCurve
  import opened Shifts

  const IDENTITY: Extended := Extended(0, 1, 1, 0)
  const ZERO: Affine := Affine(0, 1)

  predicate Canonical(p: Affine) {
    0 <= p.x < Q && 0 <= p.y < Q
  }

  /** X = xZ, Y = yZ and T = xyZ with Z nonzero: then XY = ZT and the affine point is (x, y). */
  ghost predicate Represents(P: Extended, p: Affine) {
    && !Eq(P.Z, 0) && Eq(P.X, p.x * P.Z) && Eq(P.Y, p.y * P.Z) && Eq(P.T, (p.x * p.y) * P.Z)
  }

  function EdwardsAdd(d: int, P: Extended, R: Extended): Extended {
    var A := Mod((P.Y - P.X) * (R.Y - R.X));
    var B := Mod((P.Y + P.X) * (R.Y + R.X));
    var C := Mod(Mod(P.T * Mod(2 * d)) * R.T);
    var K := Mod(Mod(2 * P.Z) * R.Z);
    var E := Mod(B - A);
    var F := Mod(K - C);
    var G := Mod(K + C);
    var H := Mod(B + A);
    Extended(Mod(E * F), Mod(G * H), Mod(F * G), Mod(E * H))
  }

  function EdwardsDouble(P: Extended): Extended {
    var A := Mod(P.X * P.X);
    var B := Mod(P.Y * P.Y);
    var C := Mod(2 * P.Z * P.Z);
    var K := Mod(-A);
    var E := Mod((P.X + P.Y) * (P.X + P.Y) - A - B);
    var G := Mod(K + B);
    var F := Mod(G - C);
    var H := Mod(K - B);
    Extended(Mod(E * F), Mod(G * H), Mod(F * G), Mod(E * H))
  }

  function ToExtended(p: Affine): Extended {
    Extended(Mod(p.x), Mod(p.y), 1, Mod(p.x * p.y))
  }

  function ToAffine(P: Extended): Affine {
    Affine(Mod(P.X * Inv(P.Z)), Mod(P.Y * Inv(P.Z)))
  }

  predicate PointEq(P: Extended, R: Extended) {
    Mod(P.X * R.Z - R.X * P.Z) == 0 && Mod(P.Y * R.Z - R.Y * P.Z) == 0
  }

  // ----- the closing step of both formulas ------------------------------------------------

  /** E = xG and H = yF make (EF : GH : FG), with T = EH, a representation of (x, y). */
  lemma {:induction false} ClosingStep(E: int, F: int, G: int, H: int, p: Affine)
    requires Field() && Eq(E, p.x * G) && Eq(H, p.y * F) && !Eq(F, 0) && !Eq(G, 0)
    ensures Represents(Extended(Mod(E * F), Mod(G * H), Mod(F * G), Mod(E * H)), p)
  {
    NonzeroProduct(F, G);
    Reduced(E * F);
    Reduced(G * H);
    Reduced(F * G);
    Reduced(E * H);
    var z := Mod(F * G);
    ScaleEq(E, p.x * G, F);
    Rotate(p.x, G, F);
    ScaleEq(z, F * G, p.x);
    Commute(z, p.x);
    Commute(F * G, p.x);
    ScaleEq(H, p.y * F, G);
    Rotate(p.y, F, G);
    Commute(H, G);
    Commute(G, F);
    ScaleEq(z, F * G, p.y);
    Commute(z, p.y);
    Commute(F * G, p.y);
    MulEq(E, p.x * G, H, p.y * F);
    Shuffle(p.x, G, p.y, F);
    ScaleEq(z, F * G, p.x * p.y);
    Commute(z, p.x * p.y);
    Commute(F * G, p.x * p.y);
  }

  lemma {:induction false} Rotate(x: int, g: int, f: int)
    ensures (x * g) * f == x * (f * g)
  {
  }

  // ----- addition -------------------------------------------------------------------------

  lemma {:induction false} ProductDifference(a: int, b: int, c: int, d: int)
    ensures (b + a) * (d + c) - (b - a) * (d - c) == 2 * (a * d + c * b)
    ensures (b + a) * (d + c) + (b - a) * (d - c) == 2 * (b * d + a * c)
  {
  }

  /** The four intermediate values of an addition, before the points' equations are used. */
  lemma {:induction false} AddTerms(P: Extended, R: Extended)
    ensures var A := Mod((P.Y - P.X) * (R.Y - R.X)); var B := Mod((P.Y + P.X) * (R.Y + R.X));
      && Eq(Mod(B - A), 2 * (P.X * R.Y + R.X * P.Y))
      && Eq(Mod(B + A), 2 * (P.Y * R.Y + P.X * R.X))
  {
    var a, b := (P.Y - P.X) * (R.Y - R.X), (P.Y + P.X) * (R.Y + R.X);
    Reduced(a);
    Reduced(b);
    ReducedSum(Mod(b), b, Mod(a), a);
    ProductDifference(P.X, P.Y, R.X, R.Y);
  }

  lemma {:induction false} TwoDTerm(d: int, s: int, t: int)
    ensures Eq(Mod(Mod(s * Mod(2 * d)) * t), 2 * (d * (s * t)))
  {
    Reduced(2 * d);
    ScaleEq(Mod(2 * d), 2 * d, s);
    Commute(Mod(2 * d), s);
    Commute(2 * d, s);
    Reduced(s * Mod(2 * d));
    ScaleEq(Mod(s * Mod(2 * d)), s * (2 * d), t);
    Reduced(Mod(s * Mod(2 * d)) * t);
    TwoDFactors(s, t, d);
  }

  lemma {:induction false} TwoDFactors(s: int, t: int, d: int)
    ensures (s * (2 * d)) * t == 2 * (d * (s * t))
  {
  }

  lemma {:induction false} TwoZTerm(s: int, t: int)
    ensures Eq(Mod(Mod(2 * s) * t), 2 * (s * t))
  {
    Reduced(2 * s);
    ScaleEq(Mod(2 * s), 2 * s, t);
    Reduced(Mod(2 * s) * t);
    Grouped(2, s, t);
  }

  /** The products of the representations, with z = Z1 Z2. */
  lemma {:induction false} Cross(a: int, x: int, u: int, b: int, y: int, v: int)
    requires Eq(a, x * u) && Eq(b, y * v)
    ensures Eq(a * b, (x * y) * (u * v))
  {
    MulEq(a, x * u, b, y * v);
    Shuffle(x, u, y, v);
  }

  lemma {:induction false} Doubled(a: int, b: int, x: int, y: int, z: int)
    requires Eq(a, x * z) && Eq(b, y * z)
    ensures Eq(2 * (a + b), (2 * z) * (x + y)) && Eq(2 * (a - b), (2 * z) * (x - y))
  {
    AddEq(a, x * z, b, y * z);
    MulEq(2, 2, a + b, x * z + y * z);
    MulEq(2, 2, a - b, x * z - y * z);
    DoubledTerms(x, y, z);
  }

  lemma {:induction false} DoubledTerms(x: int, y: int, z: int)
    ensures 2 * (x * z + y * z) == (2 * z) * (x + y) && 2 * (x * z - y * z) == (2 * z) * (x - y)
  {
  }

  lemma {:induction false} Swing(z: int, n: int, x: int, m: int)
    requires Eq(x * m, n)
    ensures Eq(z * n, x * (z * m))
  {
    ScaleEq(x * m, n, z);
    Commute(n, z);
    Commute(x * m, z);
    Turn(z, x, m);
  }

  lemma {:induction false} Turn(z: int, x: int, m: int)
    ensures z * (x * m) == x * (z * m)
  {
  }

  /** The four intermediate values of an addition in terms of the represented points. */
  lemma {:induction false} AddIsScaled(P: Extended, p: Affine, R: Extended, r: Affine)
    requires Represents(P, p) && Represents(R, r)
    ensures var z := 2 * (P.Z * R.Z);
      var A, B := Mod((P.Y - P.X) * (R.Y - R.X)), Mod((P.Y + P.X) * (R.Y + R.X));
      Eq(Mod(B - A), z * (p.x * r.y + r.x * p.y)) && Eq(Mod(B + A), z * (p.y * r.y + p.x * r.x))
  {
    var z := P.Z * R.Z;
    AddTerms(P, R);
    Cross(P.X, p.x, P.Z, R.Y, r.y, R.Z);
    Cross(R.X, r.x, R.Z, P.Y, p.y, P.Z);
    Cross(P.Y, p.y, P.Z, R.Y, r.y, R.Z);
    Cross(P.X, p.x, P.Z, R.X, r.x, R.Z);
    Commute(R.Z, P.Z);
    Doubled(P.X * R.Y, R.X * P.Y, p.x * r.y, r.x * p.y, z);
    Doubled(P.Y * R.Y, P.X * R.X, p.y * r.y, p.x * r.x, z);
  }

  /** N = n z and M = m z with x m = n make N = x M. */
  lemma {:induction false} Ratio2(N: int, M: int, z: int, n: int, m: int, x: int)
    requires Eq(N, z * n) && Eq(M, z * m) && Eq(x * m, n)
    ensures Eq(N, x * M)
  {
    Swing(z, n, x, m);
    ScaleEq(M, z * m, x);
    Commute(M, x);
    Commute(z * m, x);
  }

  /** `EdwardsAdd` represents the affine sum. */
  lemma {:induction false} AddRefines(d: int, P: Extended, p: Affine, R: Extended, r: Affine)
    requires Field() && NonSquare(d) && OnCurve(d, p) && OnCurve(d, r) && Represents(P, p) && Represents(R, r)
    ensures Represents(EdwardsAdd(d, P, R), AffineSum(d, p, r))
  {
    var k, z, s := Mixed(d, p, r), 2 * (P.Z * R.Z), AffineSum(d, p, r);
    var A := Mod((P.Y - P.X) * (R.Y - R.X));
    var B := Mod((P.Y + P.X) * (R.Y + R.X));
    var C := Mod(Mod(P.T * Mod(2 * d)) * R.T);
    var K := Mod(Mod(2 * P.Z) * R.Z);
    AddIsScaled(P, p, R, r);
    AddDenominators(d, P, p, R, r);
    Complete(d, p, r);
    SmallNumbersDiffer();
    NonzeroProduct(P.Z, R.Z);
    NonzeroProduct(2, P.Z * R.Z);
    NonzeroProduct(z, 1 + k);
    NonzeroProduct(z, 1 - k);
    SumSolves(d, p, r);
    Ratio2(Mod(B - A), Mod(K + C), z, p.x * r.y + r.x * p.y, 1 + k, s.x);
    Ratio2(Mod(B + A), Mod(K - C), z, p.y * r.y + p.x * r.x, 1 - k, s.y);
    ClosingStep(Mod(B - A), Mod(K - C), Mod(K + C), Mod(B + A), s);
  }

  /** G = 2z(1 + k) and F = 2z(1 - k). */
  lemma {:induction false} AddDenominators(d: int, P: Extended, p: Affine, R: Extended, r: Affine)
    requires Represents(P, p) && Represents(R, r)
    ensures var k, z := Mixed(d, p, r), P.Z * R.Z;
      var C := Mod(Mod(P.T * Mod(2 * d)) * R.T); var K := Mod(Mod(2 * P.Z) * R.Z);
      Eq(Mod(K + C), (2 * z) * (1 + k)) && Eq(Mod(K - C), (2 * z) * (1 - k))
  {
    var k, z := Mixed(d, p, r), P.Z * R.Z;
    var C := Mod(Mod(P.T * Mod(2 * d)) * R.T);
    var K := Mod(Mod(2 * P.Z) * R.Z);
    var w := (p.x * p.y) * (r.x * r.y);
    TwoZTerm(P.Z, R.Z);
    MixedTerm(d, P, p, R, r);
    MixedIs(d, p.x * p.y, r.x * r.y);
    DenominatorsOf(d, K, C, w, z);
  }

  lemma {:induction false} DenominatorsOf(d: int, K: int, C: int, w: int, z: int)
    requires Eq(K, 2 * z) && Eq(C, 2 * (d * (w * z)))
    ensures Eq(Mod(K + C), (2 * z) * (1 + d * w)) && Eq(Mod(K - C), (2 * z) * (1 - d * w))
  {
    ReducedSum(K, 2 * z, C, 2 * (d * (w * z)));
    DenominatorTerms(d, w, z);
  }

  lemma {:induction false} MixedTerm(d: int, P: Extended, p: Affine, R: Extended, r: Affine)
    requires Represents(P, p) && Represents(R, r)
    ensures Eq(Mod(Mod(P.T * Mod(2 * d)) * R.T), 2 * (d * (((p.x * p.y) * (r.x * r.y)) * (P.Z * R.Z))))
  {
    var w, z := (p.x * p.y) * (r.x * r.y), P.Z * R.Z;
    TwoDTerm(d, P.T, R.T);
    Cross(P.T, p.x * p.y, P.Z, R.T, r.x * r.y, R.Z);
    MulEq(d, d, P.T * R.T, w * z);
    MulEq(2, 2, d * (P.T * R.T), d * (w * z));
  }

  lemma {:induction false} DenominatorTerms(d: int, w: int, z: int)
    ensures 2 * z + 2 * (d * (w * z)) == (2 * z) * (1 + d * w) && 2 * z - 2 * (d * (w * z)) == (2 * z) * (1 - d * w)
  {
  }

  // ----- doubling -------------------------------------------------------------------------

  lemma {:induction false} SquareSplit(x: int, y: int)
    ensures (x + y) * (x + y) - x * x - y * y == 2 * (x * y)
  {
  }

  /** The four intermediate values of a doubling. */
  lemma {:induction false} DoubleTerms(P: Extended)
    ensures var A, B := Mod(P.X * P.X), Mod(P.Y * P.Y); var C := Mod(2 * P.Z * P.Z); var K := Mod(-A);
      var G := Mod(K + B);
      && Eq(Mod((P.X + P.Y) * (P.X + P.Y) - A - B), 2 * (P.X * P.Y))
      && Eq(G, P.Y * P.Y - P.X * P.X)
      && Eq(Mod(G - C), (P.Y * P.Y - P.X * P.X) - 2 * (P.Z * P.Z))
      && Eq(Mod(K - B), -(P.X * P.X + P.Y * P.Y))
  {
    var a, b, c, s := P.X * P.X, P.Y * P.Y, 2 * P.Z * P.Z, (P.X + P.Y) * (P.X + P.Y);
    SquareSplit(P.X, P.Y);
    Grouped(2, P.Z, P.Z);
    DoubleValues(a, b, c, s);
  }

  lemma {:induction false} DoubleValues(a: int, b: int, c: int, s: int)
    ensures var K := Mod(-Mod(a)); var G := Mod(K + Mod(b));
      && Eq(Mod(s - Mod(a) - Mod(b)), s - a - b) && Eq(G, b - a)
      && Eq(Mod(G - Mod(c)), (b - a) - c) && Eq(Mod(K - Mod(b)), -(a + b))
  {
    var K := Mod(-Mod(a));
    var G := Mod(K + Mod(b));
    Reduced(a);
    Reduced(b);
    Reduced(c);
    AddEq(s, s, Mod(a), a);
    ReducedSum(s - Mod(a), s - a, Mod(b), b);
    ReducedSum(0, 0, Mod(a), a);
    ReducedSum(K, -a, Mod(b), b);
    ReducedSum(G, b - a, Mod(c), c);
  }

  lemma {:induction false} DoubledSquares(x: int, y: int, z: int, k: int)
    requires Eq(y * y - x * x, 1 + k)
    ensures Eq((y * y) * z - (x * x) * z, z * (1 + k))
    ensures Eq((y * y) * z - (x * x) * z - 2 * z, -(z * (1 - k)))
  {
    ScaleEq(y * y - x * x, 1 + k, z);
    AddEq((y * y - x * x) * z, (1 + k) * z, 2 * z, 2 * z);
    SquareTimes(x * x, y * y, z, k);
  }

  lemma {:induction false} SquareTimes(x: int, y: int, z: int, k: int)
    ensures (y - x) * z == y * z - x * z && (1 + k) * z == z * (1 + k) && (1 + k) * z - 2 * z == -(z * (1 - k))
  {
  }

  lemma {:induction false} NegatedSum(a: int, b: int, x: int, y: int, z: int)
    requires Eq(a, x * z) && Eq(b, y * z)
    ensures Eq(-(a + b), -(z * (y + x)))
  {
    AddEq(a, x * z, b, y * z);
    AddEq(0, 0, a + b, x * z + y * z);
    SumTimes(x, y, z);
  }

  lemma {:induction false} SumTimes(x: int, y: int, z: int)
    ensures x * z + y * z == z * (y + x)
  {
  }

  lemma {:induction false} NegateEq(x: int, y: int)
    requires Eq(x, y)
    ensures Eq(-x, -y)
  {
    AddEq(0, 0, x, y);
  }

  lemma {:induction false} NegativeFactor(x: int, f: int)
    ensures -(x * f) == x * (-f)
  {
  }

  /** The same four values in terms of the represented point. */
  lemma {:induction false} DoubleIsScaled(d: int, P: Extended, p: Affine)
    requires OnCurve(d, p) && Represents(P, p)
    ensures var k, z := Mixed(d, p, p), P.Z * P.Z;
      var A, B := Mod(P.X * P.X), Mod(P.Y * P.Y); var C := Mod(2 * P.Z * P.Z); var K := Mod(-A);
      var G := Mod(K + B);
      && Eq(Mod((P.X + P.Y) * (P.X + P.Y) - A - B), z * (p.x * p.y + p.x * p.y))
      && Eq(G, z * (1 + k))
      && Eq(Mod(G - C), -(z * (1 - k)))
      && Eq(Mod(K - B), -(z * (p.y * p.y + p.x * p.x)))
  {
    var k, z := Mixed(d, p, p), P.Z * P.Z;
    DoubleTerms(P);
    Cross(P.X, p.x, P.Z, P.Y, p.y, P.Z);
    Cross(P.X, p.x, P.Z, P.X, p.x, P.Z);
    Cross(P.Y, p.y, P.Z, P.Y, p.y, P.Z);
    MulEq(2, 2, P.X * P.Y, (p.x * p.y) * z);
    SumTimes(p.x * p.y, p.x * p.y, z);
    AddEq(P.Y * P.Y, (p.y * p.y) * z, P.X * P.X, (p.x * p.x) * z);
    Reassociate(d, p.x, p.y);
    MixedIs(d, p.x * p.y, p.x * p.y);
    DoubledSquares(p.x, p.y, z, k);
    AddEq(P.Y * P.Y - P.X * P.X, (p.y * p.y) * z - (p.x * p.x) * z, 2 * z, 2 * z);
    NegatedSum(P.X * P.X, P.Y * P.Y, p.x * p.x, p.y * p.y, z);
  }

  /** `EdwardsDouble` represents the sum of a point with itself. */
  lemma {:induction false} DoubleRefines(d: int, P: Extended, p: Affine)
    requires Field() && NonSquare(d) && OnCurve(d, p) && Represents(P, p)
    ensures Represents(EdwardsDouble(P), AffineSum(d, p, p))
  {
    var k, z, s := Mixed(d, p, p), P.Z * P.Z, AffineSum(d, p, p);
    var A, B := Mod(P.X * P.X), Mod(P.Y * P.Y);
    var C, K := Mod(2 * P.Z * P.Z), Mod(-A);
    var E, G := Mod((P.X + P.Y) * (P.X + P.Y) - A - B), Mod(K + B);
    var F, H := Mod(G - C), Mod(K - B);
    DoubleIsScaled(d, P, p);
    Complete(d, p, p);
    NonzeroProduct(P.Z, P.Z);
    NonzeroProduct(z, 1 + k);
    NonzeroProduct(z, 1 - k);
    Sign(z * (1 - k));
    SumSolves(d, p, p);
    Swing(z, p.x * p.y + p.x * p.y, s.x, 1 + k);
    Swing(z, p.y * p.y + p.x * p.x, s.y, 1 - k);
    ScaleEq(G, z * (1 + k), s.x);
    Commute(G, s.x);
    Commute(z * (1 + k), s.x);
    NegateEq(z * (p.y * p.y + p.x * p.x), s.y * (z * (1 - k)));
    NegativeFactor(s.y, z * (1 - k));
    ScaleEq(F, -(z * (1 - k)), s.y);
    Commute(F, s.y);
    Commute(-(z * (1 - k)), s.y);
    ClosingStep(E, F, G, H, s);
  }

  // ----- scalar multiplication ------------------------------------------------------------

  /** The e-fold sum. */
  function Times(d: int, e: nat, p: Affine): Affine {
    if e == 0 then ZERO else AffineSum(d, Times(d, e - 1, p), p)
  }

  ghost predicate AssociatesAt(d: int, a: Affine, b: Affine, c: Affine) {
    AffineSum(d, AffineSum(d, a, b), c) == AffineSum(d, a, AffineSum(d, b, c))
  }

  /** The affine law is associative: the one group axiom that is assumed. */
  ghost predicate Associative(d: int) {
    forall a, b, c {:trigger AssociatesAt(d, a, b, c)} ::
      OnCurve(d, a) && OnCurve(d, b) && OnCurve(d, c) ==> AssociatesAt(d, a, b, c)
  }

  lemma {:induction false} SumIsCanonical(d: int, p: Affine, r: Affine)
    ensures Canonical(AffineSum(d, p, r))
  {
    var k := Mixed(d, p, r);
    ModIsSmall((p.x * r.y + r.x * p.y) * Inv(1 + k));
    ModIsSmall((p.y * r.y + p.x * r.x) * Inv(1 - k));
  }

  lemma {:induction false} DivideByOne(n: int, m: int)
    requires Field() && m == 1 && 0 <= n < Q
    ensures Mod(n * Inv(m)) == n
  {
    SmallNumbersDiffer();
    MulEq(n, n, m * Inv(m), 1);
    SameMod(n * Inv(m), n);
  }

  lemma {:induction false} ZeroIsNeutral(d: int, p: Affine)
    requires Field() && Canonical(p)
    ensures AffineSum(d, p, ZERO) == p
  {
    ZeroTerms(d, p.x, p.y);
    DivideByOne(p.x, 1 + Mixed(d, p, ZERO));
    DivideByOne(p.y, 1 - Mixed(d, p, ZERO));
  }

  lemma {:induction false} ZeroTerms(d: int, x: int, y: int)
    ensures d * (x * y) * (0 * 1) == 0 && x * 1 + 0 * y == x && y * 1 + x * 0 == y
  {
  }

  lemma {:induction false} TimesOnCurve(d: int, e: nat, p: Affine)
    requires Field() && NonSquare(d) && OnCurve(d, p)
    ensures OnCurve(d, Times(d, e, p)) && Canonical(Times(d, e, p))
  {
    if e == 0 {
      assert OnCurve(d, ZERO);
    } else {
      TimesOnCurve(d, e - 1, p);
      SumOnCurve(d, Times(d, e - 1, p), p);
      SumIsCanonical(d, Times(d, e - 1, p), p);
    }
  }

  /** [m + n]p = [m]p + [n]p. */
  lemma {:induction false} TimesAdds(d: int, m: nat, n: nat, p: Affine)
    requires Field() && NonSquare(d) && Associative(d) && OnCurve(d, p)
    ensures Times(d, m + n, p) == AffineSum(d, Times(d, m, p), Times(d, n, p))
  {
    TimesOnCurve(d, m, p);
    if n == 0 {
      ZeroIsNeutral(d, Times(d, m, p));
    } else {
      TimesAdds(d, m, n - 1, p);
      TimesOnCurve(d, n - 1, p);
      assert AssociatesAt(d, Times(d, m, p), Times(d, n - 1, p), p);
    }
  }

  /** One bit: double, and add the point if the bit is set. */
  method DoubleAndAdd(d: int, S0: Extended, P: Extended, bit: bool, ghost half: nat, ghost p: Affine) returns (S: Extended)
    requires Field() && NonSquare(d) && Associative(d) && OnCurve(d, p) && Represents(P, p)
    requires Represents(S0, Times(d, half, p))
    ensures Represents(S, Times(d, 2 * half + (if bit then 1 else 0), p))
  {
    TimesOnCurve(d, half, p);
    DoubleRefines(d, S0, Times(d, half, p));
    TimesAdds(d, half, half, p);
    S := EdwardsDouble(S0);
    if bit {
      TimesOnCurve(d, 2 * half, p);
      AddRefines(d, S, Times(d, 2 * half, p), P, p);
      S := EdwardsAdd(d, S, P);
    }
  }

  /** Over every bit, from the top: it keeps [e >> i]P and returns the e-fold sum. */
  method ScalarMult(d: int, P: Extended, e: nat, ghost p: Affine) returns (S: Extended)
    requires Field() && NonSquare(d) && Associative(d) && OnCurve(d, p) && Represents(P, p)
    ensures Represents(S, Times(d, e, p))
  {
    S := IDENTITY;
    var bits := if BitLength(e) < 256 then 256 else BitLength(e);
    ShiftedOut(e, bits);
    IdentityRepresents();
    var i := bits;
    while i > 0
      invariant 0 <= i <= bits
      invariant Represents(S, Times(d, Shifted(e, i), p))
    {
      i := i - 1;
      ShiftStep(e, i);
      S := DoubleAndAdd(d, S, P, Bit(e, i), Shifted(e, i + 1), p);
    }
  }

  lemma {:induction false} IdentityRepresents()
    ensures Represents(IDENTITY, ZERO)
  {
    SmallNumbersDiffer();
  }

  // ----- comparing and normalising --------------------------------------------------------

  lemma {:induction false} Rescale(a: int, x: int, u: int, v: int)
    requires Eq(a, x * u)
    ensures Eq(a * v, x * (u * v))
  {
    ScaleEq(a, x * u, v);
    Associate(x, u, v);
  }

  lemma {:induction false} Associate(x: int, u: int, v: int)
    ensures (x * u) * v == x * (u * v)
  {
  }

  lemma {:induction false} DifferenceIsZero(s: int, t: int)
    ensures Mod(s - t) == 0 <==> Eq(s, t)
  {
    ModIsRemainder(s - t);
    EqIsRemainder(s, t);
  }

  lemma {:induction false} EqualFactors(m: int, x: int, y: int, s: int, t: int)
    requires Field() && !Eq(m, 0) && Eq(s, m * x) && Eq(t, m * y)
    ensures Eq(s, t) <==> Eq(x, y)
  {
    if Eq(x, y) {
      MulEq(m, m, x, y);
    }
    if Eq(s, t) {
      Cancel(m, x, y);
    }
  }

  /** One coordinate of the cross-multiplied comparison. */
  lemma {:induction false} CrossMultiplied(a: int, x: int, u: int, b: int, y: int, v: int)
    requires Field() && !Eq(u, 0) && !Eq(v, 0) && Eq(a, x * u) && Eq(b, y * v)
    ensures Mod(a * v - b * u) == 0 <==> Eq(x, y)
  {
    Rescale(a, x, u, v);
    Rescale(b, y, v, u);
    Commute(v, u);
    Commute(x, u * v);
    Commute(y, u * v);
    NonzeroProduct(u, v);
    EqualFactors(u * v, x, y, a * v, b * u);
    DifferenceIsZero(a * v, b * u);
  }

  lemma {:induction false} CanonicalEq(x: int, y: int)
    requires 0 <= x < Q && 0 <= y < Q
    ensures Eq(x, y) <==> x == y
  {
    EqIsRemainder(x, y);
  }

  /** Projective comparison without inverting decides equality of the represented points. */
  lemma {:induction false} PointEqDecides(P: Extended, p: Affine, R: Extended, r: Affine)
    requires Field() && Represents(P, p) && Represents(R, r) && Canonical(p) && Canonical(r)
    ensures PointEq(P, R) <==> p == r
  {
    CrossMultiplied(P.X, p.x, P.Z, R.X, r.x, R.Z);
    CrossMultiplied(P.Y, p.y, P.Z, R.Y, r.y, R.Z);
    CanonicalEq(p.x, r.x);
    CanonicalEq(p.y, r.y);
  }

  lemma {:induction false} Normalised(a: int, x: int, z: int)
    requires Field() && !Eq(z, 0) && Eq(a, x * z) && 0 <= x < Q
    ensures Mod(a * Inv(z)) == x
  {
    Rescale(a, x, z, Inv(z));
    MulEq(x, x, z * Inv(z), 1);
    SameMod(a * Inv(z), x);
  }

  /** One inversion gives the represented point back. */
  lemma {:induction false} ToAffineInverts(P: Extended, p: Affine)
    requires Field() && Represents(P, p) && Canonical(p)
    ensures ToAffine(P) == p
  {
    Normalised(P.X, p.x, P.Z);
    Normalised(P.Y, p.y, P.Z);
  }

  lemma {:induction false} ToExtendedRepresents(p: Affine)
    ensures Represents(ToExtended(p), p)
  {
    SmallNumbersDiffer();
    Reduced(p.x);
    Reduced(p.y);
    Reduced(p.x * p.y);
  }

  // ----- the signature equation -----------------------------------------------------------

  const L: nat := 7237005577332262213973186563042994240857116359379907606001950938285454250989

  const BASE: Affine := Affine(
    15112221349535400772501151409588531511454012693041857206046113283949847762202,
    46316835694926478169428394003475163141307993866256225615783033603165251855960)

  lemma {:induction false} BaseIsOnCurve()
    ensures OnCurve(D, BASE) && Canonical(BASE) && Eq(5 * BASE.y, 4) && BASE.x % 2 == 0
  {
    EqIsRemainder(BASE.y * BASE.y - BASE.x * BASE.x, 1 + D * (BASE.x * BASE.x) * (BASE.y * BASE.y));
    EqIsRemainder(5 * BASE.y, 4);
  }

  /** [m]([n]p) = [mn]p. */
  lemma {:induction false} TimesMultiplies(d: int, m: nat, n: nat, p: Affine)
    requires Field() && NonSquare(d) && Associative(d) && OnCurve(d, p)
    ensures m * n >= 0 && Times(d, m, Times(d, n, p)) == Times(d, m * n, p)
  {
    if m == 0 {
      assert m * n == 0;
    } else {
      NextMultiple(m, n);
      TimesMultiplies(d, m - 1, n, p);
      TimesAdds(d, (m - 1) * n, n, p);
    }
  }

  lemma {:induction false} ZeroPlusZero(d: int)
    requires Field()
    ensures AffineSum(d, ZERO, ZERO) == ZERO
  {
    ZeroIsNeutral(d, ZERO);
  }

  lemma {:induction false} MultiplesVanish(d: int, j: nat, n: nat, p: Affine)
    requires Field() && NonSquare(d) && Associative(d) && OnCurve(d, p) && Times(d, n, p) == ZERO
    ensures j * n >= 0 && Times(d, j * n, p) == ZERO
  {
    if j == 0 {
      assert j * n == 0;
    } else {
      NextMultiple(j, n);
      MultiplesVanish(d, j - 1, n, p);
      TimesAdds(d, (j - 1) * n, n, p);
      ZeroPlusZero(d);
    }
  }

  lemma {:induction false} MultiplesAddNothing(d: int, s: nat, j: nat, n: nat, p: Affine)
    requires Field() && NonSquare(d) && Associative(d) && OnCurve(d, p) && Times(d, n, p) == ZERO
    ensures j * n >= 0 && Times(d, s + j * n, p) == Times(d, s, p)
  {
    MultiplesVanish(d, j, n, p);
    TimesAdds(d, s, j * n, p);
    TimesOnCurve(d, s, p);
    ZeroIsNeutral(d, Times(d, s, p));
  }

  lemma {:induction false} Division(e: nat)
    ensures e / L >= 0 && 0 <= e % L && e == e % L + (e / L) * L
  {
  }

  /** Scalars may be reduced modulo the order of the point. */
  lemma {:induction false} ScalarsReduce(d: int, e: nat, p: Affine)
    requires Field() && NonSquare(d) && Associative(d) && OnCurve(d, p) && Times(d, L, p) == ZERO
    ensures Times(d, e % L, p) == Times(d, e, p)
  {
    Division(e);
    MultiplesAddNothing(d, e % L, e / L, L, p);
  }

  lemma {:induction false} ReducedScalarSum(d: int, r: nat, m: nat, p: Affine)
    requires Field() && NonSquare(d) && Associative(d) && OnCurve(d, p) && Times(d, L, p) == ZERO
    ensures Times(d, (r + m) % L, p) == AffineSum(d, Times(d, r, p), Times(d, m, p))
  {
    ScalarsReduce(d, r + m, p);
    TimesAdds(d, r, m, p);
  }

  /** What the signer sends satisfies the verifier's equation, for every message hash h and nonce r. */
  lemma {:induction false} SignatureSatisfiesEquation(d: int, r: nat, h: nat, a: nat, p: Affine)
    requires Field() && NonSquare(d) && Associative(d) && OnCurve(d, p) && Times(d, L, p) == ZERO
    ensures h * a >= 0 && Times(d, (r + h * a) % L, p) == AffineSum(d, Times(d, r, p), Times(d, h, Times(d, a, p)))
  {
    TimesMultiplies(d, h, a, p);
    ReducedScalarSum(d, r, h * a, p);
  }

  /** The verifier's comparison: it holds exactly when the affine equation does. */
  method CheckEquation(d: int, base: Affine, S: nat, R: Affine, A: Affine, h: nat) returns (ok: bool)
    requires Field() && NonSquare(d) && Associative(d) && OnCurve(d, base) && OnCurve(d, R) && OnCurve(d, A)
    ensures ok <==> Times(d, S, base) == AffineSum(d, R, Times(d, h, A))
  {
    ToExtendedRepresents(base);
    ToExtendedRepresents(R);
    ToExtendedRepresents(A);
    var v1 := ScalarMult(d, ToExtended(base), S, base);
    var hA := ScalarMult(d, ToExtended(A), h, A);
    TimesOnCurve(d, S, base);
    TimesOnCurve(d, h, A);
    AddRefines(d, ToExtended(R), R, hA, Times(d, h, A));
    var v2 := EdwardsAdd(d, ToExtended(R), hA);
    SumIsCanonical(d, R, Times(d, h, A));
    PointEqDecides(v1, Times(d, S, base), v2, AffineSum(d, R, Times(d, h, A)));
    ok := PointEq(v1, v2);
  }
}
