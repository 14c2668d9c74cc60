/** The ladder's doubling and differential addition are the curve law, so the ladder multiplies points. */
module MontgomeryLadder {
  import opened ByteStrings
  import opened FieldArithmetic
  import opened MontgomeryCurve
  import opened Shifts
  import X25519

  type Rung = X25519.Rung

  /** X / Z is the u-coordinate; the point at infinity has Z = 0. */
  ghost predicate Represents(r: Rung, p: Point) {
    match p
    case Infinity => Eq(r.Z, 0) && !Eq(r.X, 0)
    case Finite(u, _) => !Eq(r.Z, 0) && Eq(r.X, u * r.Z)
  }

  /** What is used of the curve's coefficient and of the ladder's constant. */
  ghost predicate Coefficients(a: int, t: int) {
    a == 4 * t + 2 && !Eq(a * a - 4, 0)
  }

  const A: int := 486662

  lemma {:induction false} CoefficientsOfTheCurve()
    ensures Coefficients(A, X25519.A24)
  {
    EqIsRemainder(A * A - 4, 0);
  }

  // ----- terms ----------------------------------------------------------------------------

  lemma {:induction false} FactorOut(u: int, z: int)
    ensures u * z + z == (u + 1) * z && u * z - z == (u - 1) * z
  {
  }

  lemma {:induction false} ReducedSquare(x: int, y: int)
    requires Eq(x, y)
    ensures Eq(Mod(Mod(x) * Mod(x)), y * y)
  {
    Reduced(x);
    Reduced(Mod(x) * Mod(x));
    MulEq(Mod(x), y, Mod(x), y);
  }

  /** The squared sum and difference of a rung with X = uZ. */
  lemma {:induction false} SquaredTerms(r: Rung, u: int)
    requires Eq(r.X, u * r.Z)
    ensures var A1, B1 := Mod(r.X + r.Z), Mod(r.X - r.Z); var w := r.Z * r.Z;
      Eq(Mod(A1 * A1), ((u + 1) * (u + 1)) * w) && Eq(Mod(B1 * B1), ((u - 1) * (u - 1)) * w)
  {
    var z := r.Z;
    AddEq(r.X, u * z, z, z);
    FactorOut(u, z);
    ReducedSquare(r.X + z, (u + 1) * z);
    ReducedSquare(r.X - z, (u - 1) * z);
    SquareOfProduct(u + 1, z);
    SquareOfProduct(u - 1, z);
  }

  lemma {:induction false} SquaresOf(u: int)
    ensures (u + 1) * (u + 1) - (u - 1) * (u - 1) == 4 * u
    ensures ((u + 1) * (u + 1)) * ((u - 1) * (u - 1)) == (u * u - 1) * (u * u - 1)
  {
    SquareOfProduct(u + 1, u - 1);
    assert (u + 1) * (u - 1) == u * u - 1;
  }

  lemma {:induction false} Times4(s: int, t: int, w: int)
    ensures s * w - t * w == (s - t) * w
  {
  }

  lemma {:induction false} SquareAndStep(a: int, t: int, u: int, w: int)
    requires a == 4 * t + 2
    ensures ((u + 1) * (u + 1)) * w + t * (4 * u * w) == (u * u + a * u + 1) * w
  {
    var m, s := u * w, (u * u) * w;
    assert 4 * u * w == 4 * m;
    assert (u + 1) * (u + 1) == u * u + 2 * u + 1;
    assert (u * u + 2 * u + 1) * w == s + 2 * m + w;
    assert (u * u + a * u + 1) * w == s + a * m + w by {
      assert a * u * w == a * m;
    }
  }

  /** E (AA + t E), with AA = (u + 1)^2 w and E = 4 u w. */
  lemma {:induction false} LastTerm(a: int, t: int, u: int, w: int)
    requires a == 4 * t + 2
    ensures (4 * u * w) * (((u + 1) * (u + 1)) * w + t * (4 * u * w)) == (4 * Cubic(a, u)) * (w * w)
  {
    var g := u * u + a * u + 1;
    SquareAndStep(a, t, u, w);
    Shuffle(4 * u, w, g, w);
    assert 4 * u * g == 4 * Cubic(a, u);
  }

  /** Both coordinates of a doubled rung. */
  lemma {:induction false} DoubledTerms(a: int, t: int, r: Rung, u: int)
    requires a == 4 * t + 2 && Eq(r.X, u * r.Z)
    ensures var d := X25519.Double(t, r); var z4 := (r.Z * r.Z) * (r.Z * r.Z);
      Eq(d.X, ((u * u - 1) * (u * u - 1)) * z4) && Eq(d.Z, (4 * Cubic(a, u)) * z4)
  {
    var w := r.Z * r.Z;
    var A1, B1 := Mod(r.X + r.Z), Mod(r.X - r.Z);
    var AA, BB := Mod(A1 * A1), Mod(B1 * B1);
    var m, n := (u + 1) * (u + 1), (u - 1) * (u - 1);
    SquaredTerms(r, u);
    SquaresOf(u);
    MulEq(AA, m * w, BB, n * w);
    Reduced(AA * BB);
    Shuffle(m, w, n, w);
    LastCoordinate(a, t, AA, BB, u, w);
  }

  lemma {:induction false} LastCoordinate(a: int, t: int, AA: int, BB: int, u: int, w: int)
    requires a == 4 * t + 2 && Eq(AA, ((u + 1) * (u + 1)) * w) && Eq(BB, ((u - 1) * (u - 1)) * w)
    ensures var E := Mod(AA - BB); Eq(Mod(E * (AA + t * E)), (4 * Cubic(a, u)) * (w * w))
  {
    var E := Mod(AA - BB);
    var m, n := (u + 1) * (u + 1), (u - 1) * (u - 1);
    ReducedSum(AA, m * w, BB, n * w);
    Times4(m, n, w);
    SquaresOf(u);
    assert Eq(E, 4 * u * w);
    MulEq(t, t, E, 4 * u * w);
    AddEq(AA, m * w, t * E, t * (4 * u * w));
    MulEq(E, 4 * u * w, AA + t * E, m * w + t * (4 * u * w));
    LastTerm(a, t, u, w);
    Reduced(E * (AA + t * E));
  }

  /** Doubling infinity: X becomes X^4 and Z stays zero. */
  lemma {:induction false} DoubledInfinity(t: int, r: Rung)
    requires Field() && Represents(r, Infinity)
    ensures Represents(X25519.Double(t, r), Infinity)
  {
    var A1, B1 := Mod(r.X + r.Z), Mod(r.X - r.Z);
    var AA, BB := Mod(A1 * A1), Mod(B1 * B1);
    var x := r.X;
    AddEq(x, x, r.Z, 0);
    ReducedSquare(x + r.Z, x);
    ReducedSquare(x - r.Z, x);
    MulEq(AA, x * x, BB, x * x);
    Reduced(AA * BB);
    NonzeroProduct(x, x);
    NonzeroProduct(x * x, x * x);
    ReducedSum(AA, x * x, BB, x * x);
    var E := Mod(AA - BB);
    MulEq(E, 0, AA + t * E, AA + t * E);
    Reduced(E * (AA + t * E));
  }

  /** DA + CB = 2 (Xr Xs - Zr Zs) and DA - CB = 2 (Xs Zr - Zs Xr). */
  lemma {:induction false} CrossTerms(x: int, z: int, y: int, w: int)
    ensures (y - w) * (x + z) + (y + w) * (x - z) == 2 * (x * y - z * w)
    ensures (y - w) * (x + z) - (y + w) * (x - z) == 2 * (y * z - w * x)
  {
    assert (y - w) * (x + z) == x * y + y * z - w * x - z * w;
    assert (y + w) * (x - z) == x * y - y * z + w * x - z * w;
  }

  lemma {:induction false} ReducedProduct(a: int, b: int)
    ensures Eq(Mod(Mod(a) * Mod(b)), a * b)
  {
    Reduced(a);
    Reduced(b);
    MulEq(Mod(a), a, Mod(b), b);
    Reduced(Mod(a) * Mod(b));
  }

  lemma {:induction false} TwiceSquared(m: int)
    ensures (2 * m) * (2 * m) == 4 * (m * m)
  {
  }

  /** Both coordinates of a differential sum. */
  lemma {:induction false} AddedTerms(u: int, r: Rung, s: Rung)
    ensures var h := X25519.Add(u, r, s); var m, n := r.X * s.X - r.Z * s.Z, s.X * r.Z - s.Z * r.X;
      Eq(h.X, 4 * (m * m)) && Eq(h.Z, u * (4 * (n * n)))
  {
    var DA := Mod(Mod(s.X - s.Z) * Mod(r.X + r.Z));
    var CB := Mod(Mod(s.X + s.Z) * Mod(r.X - r.Z));
    var m, n := r.X * s.X - r.Z * s.Z, s.X * r.Z - s.Z * r.X;
    ReducedProduct(s.X - s.Z, r.X + r.Z);
    ReducedProduct(s.X + s.Z, r.X - r.Z);
    CrossTerms(r.X, r.Z, s.X, s.Z);
    AddEq(DA, (s.X - s.Z) * (r.X + r.Z), CB, (s.X + s.Z) * (r.X - r.Z));
    MulEq(DA + CB, 2 * m, DA + CB, 2 * m);
    MulEq(DA - CB, 2 * n, DA - CB, 2 * n);
    TwiceSquared(m);
    TwiceSquared(n);
    Reduced((DA + CB) * (DA + CB));
    Reduced((DA - CB) * (DA - CB));
    MulEq(u, u, Mod((DA - CB) * (DA - CB)), 4 * (n * n));
    Reduced(u * Mod((DA - CB) * (DA - CB)));
  }

  // ----- doubling refines the tangent law -------------------------------------------------

  lemma {:induction false} Divided(n: int, m: int)
    requires Field() && !Eq(m, 0)
    ensures Eq((n * Inv(m)) * m, n)
  {
    MulEq(m * Inv(m), 1, n, n);
    assert (n * Inv(m)) * m == m * Inv(m) * n;
  }

  lemma {:induction false} Residue(v: int)
    requires 0 <= v < Q
    ensures Eq(v, 0) <==> v == 0
  {
    EqIsRemainder(v, 0);
  }

  lemma {:induction false} SmallFour()
    ensures !Eq(4, 0)
  {
    EqIsRemainder(4, 0);
  }

  lemma {:induction false} CubicAtOne(a: int, u: int)
    ensures Cubic(a, u) == u * (u * u - 1) + (2 * u + a) + a * (u * u - 1)
    ensures (2 * u + a) * (2 * u - a) == 4 * (u * u - 1) - (a * a - 4)
  {
    var w := u * u;
    assert Cubic(a, u) == u * w + a * w + u by {
      assert u * (a * u) == a * w;
    }
    assert a * (w - 1) == a * w - a;
    assert u * (w - 1) == u * w - u;
    assert (2 * u + a) * (2 * u - a) == 4 * w - a * a;
  }

  /** a point of order two has u^2 other than one. */
  lemma {:induction false} RootIsNoUnit(a: int, u: int)
    requires Eq(Cubic(a, u), 0) && !Eq(a * a - 4, 0)
    ensures !Eq(u * u - 1, 0)
  {
    var w := u * u - 1;
    if Eq(w, 0) {
      CubicAtOne(a, u);
      MulEq(u, u, w, 0);
      MulEq(a, a, w, 0);
      AddEq(Cubic(a, u), 0, u * w, 0);
      AddEq(Cubic(a, u) - u * w, 0, a * w, 0);
      MulEq(2 * u + a, 0, 2 * u - a, 2 * u - a);
      ScaleEq(w, 0, 4);
      AddEq(4 * w, 0, (2 * u + a) * (2 * u - a), 0);
      SmallFour();
    }
  }

  /** X = n w and Z = m w with x m = n make X = x Z. */
  lemma {:induction false} Quotient(X: int, Z: int, n: int, m: int, w: int, x: int)
    requires Eq(X, n * w) && Eq(Z, m * w) && Eq(x * m, n)
    ensures Eq(X, x * Z)
  {
    MulEq(x, x, Z, m * w);
    assert x * (m * w) == (x * m) * w;
    MulEq(x * m, n, w, w);
  }

  lemma {:induction false} FourthPower(z: int)
    requires Field() && !Eq(z, 0)
    ensures !Eq((z * z) * (z * z), 0)
  {
    NonzeroProduct(z, z);
    NonzeroProduct(z * z, z * z);
  }

  lemma {:induction false} DoubledRoot(a: int, t: int, c: int, r: Rung, u: int, v: int)
    requires Field() && Coefficients(a, t) && OnCurve(a, c, Finite(u, v)) && Represents(r, Finite(u, v)) && v == 0
    ensures Represents(X25519.Double(t, r), Infinity)
  {
    var w := r.Z * r.Z;
    DoubledTerms(a, t, r, u);
    assert c * (v * v) == 0;
    RootIsNoUnit(a, u);
    FourthPower(r.Z);
    NonzeroProduct(u * u - 1, u * u - 1);
    NonzeroProduct((u * u - 1) * (u * u - 1), w * w);
    ScaleEq(Cubic(a, u), 0, 4);
    MulEq(4 * Cubic(a, u), 0, w * w, w * w);
  }

  lemma {:induction false} SumOfDouble(op: (Point, Point) -> Point, a: int, c: int, u: int, v: int)
    requires Field() && !Eq(c, 0) && OnCurve(a, c, Finite(u, v)) && v != 0
    requires SumAt(op, a, c, Finite(u, v), Finite(u, v))
    ensures op(Finite(u, v), Finite(u, v)).Finite?
    ensures Eq(op(Finite(u, v), Finite(u, v)).u * (4 * Cubic(a, u)), (u * u - 1) * (u * u - 1))
    ensures !Eq(4 * Cubic(a, u), 0)
  {
    var p := Finite(u, v);
    var x := op(p, p).u;
    var l :| TangentAt(a, c, p, x, l);
    TangentCoordinate(a, c, u, v, l, x);
    Residue(v);
    NonzeroProduct(v, v);
    NonzeroProduct(c, v * v);
    SmallFour();
    NonzeroProduct(4, Cubic(a, u));
  }

  /** Doubling a rung represents the sum of a point with itself. */
  lemma {:induction false} DoubleRefines(op: (Point, Point) -> Point, a: int, t: int, c: int, r: Rung, p: Point)
    requires Field() && Coefficients(a, t) && !Eq(c, 0) && OnCurve(a, c, p) && Represents(r, p) && SumAt(op, a, c, p, p)
    ensures Represents(X25519.Double(t, r), op(p, p))
  {
    if p.Infinity? {
      DoubledInfinity(t, r);
    } else if p.v == 0 {
      DoubledRoot(a, t, c, r, p.u, p.v);
    } else {
      var u, w, d := p.u, r.Z * r.Z, X25519.Double(t, r);
      var x := op(p, p).u;
      DoubledTerms(a, t, r, u);
      SumOfDouble(op, a, c, u, p.v);
      FourthPower(r.Z);
      NonzeroProduct(4 * Cubic(a, u), w * w);
      Quotient(d.X, d.Z, (u * u - 1) * (u * u - 1), 4 * Cubic(a, u), w * w, x);
    }
  }

  // ----- differential addition refines the chord law --------------------------------------

  lemma {:induction false} NegatedOnCurve(a: int, c: int, p: Point)
    requires OnCurve(a, c, p)
    ensures OnCurve(a, c, Negated(p)) && (p.Finite? ==> Eq(Negated(p).v, -p.v))
  {
    if p.Finite? {
      ModIsSmall(-p.v);
      Reduced(-p.v);
      MulEq(Mod(-p.v), -p.v, Mod(-p.v), -p.v);
      assert (-p.v) * (-p.v) == p.v * p.v;
      MulEq(c, c, Mod(-p.v) * Mod(-p.v), p.v * p.v);
    }
  }

  lemma {:induction false} DistinctResidues(x: int, y: int)
    requires 0 <= x < Q && 0 <= y < Q && x != y
    ensures !Eq(y - x, 0) && !Eq(x - y, 0)
  {
    if Eq(y - x, 0) {
      AddEq(y - x, 0, x, x);
      SameMod(y, x);
      SameMod(y, y);
    }
    Sign(y - x);
  }

  /** Points with one u are equal or opposite. */
  lemma {:induction false} SameCoordinate(a: int, c: int, p: Point, q: Point)
    requires Field() && !Eq(c, 0) && OnCurve(a, c, p) && OnCurve(a, c, q) && p.Finite? && q.Finite? && p.u == q.u
    ensures q == p || q == Negated(p)
  {
    var v, w := p.v, q.v;
    Cancel(c, v * v, w * w);
    AddEq(v * v, w * w, w * w, w * w);
    assert (v - w) * (v + w) == v * v - w * w;
    if v != w {
      DistinctResidues(w, v);
      NoZeroDivisors(v - w, v + w);
      AddEq(v + w, 0, v, v);
      SameMod(-v, w);
    }
  }

  /** Their u's multiply: the coordinates of a chord sum and of the chord difference. */
  lemma {:induction false} ChordPair(op: (Point, Point) -> Point, a: int, c: int, p: Point, q: Point)
    requires Field() && !Eq(c, 0) && OnCurve(a, c, p) && OnCurve(a, c, q) && p.Finite? && q.Finite? && p.u != q.u
    requires SumAt(op, a, c, p, q) && SumAt(op, a, c, q, Negated(p))
    ensures var s, d := op(p, q), op(q, Negated(p)); var n, m := q.u - p.u, p.u * q.u - 1;
      s.Finite? && d.Finite? && Eq((s.u * d.u) * (n * n), m * m)
  {
    var s, d := op(p, q), op(q, Negated(p));
    var x, v, y, w, i := p.u, p.v, q.u, q.v, Negated(p).v;
    var l :| ChordAt(a, c, p, q, s.u, l);
    var k :| ChordAt(a, c, q, Negated(p), d.u, k);
    NegatedOnCurve(a, c, p);
    DistinctResidues(x, y);
    ChordCoordinate(a, c, x, v, y, w, l, s.u);
    ChordCoordinate(a, c, y, w, x, i, k, d.u);
    Mirrored(a, c, x, v, y, w, i, d.u);
    DifferentialCoordinates(a, c, x, v, y, w, s.u, d.u);
  }

  /** The numerator of the difference, with -v in place of v and the points in the other order. */
  lemma {:induction false} Mirrored(a: int, c: int, x: int, v: int, y: int, w: int, t: int, u: int)
    requires Eq(t, -v) && Eq(u * ((x - y) * (x - y)), Middle(a, y, x) - 2 * (c * (w * t)))
    ensures Eq(u * ((y - x) * (y - x)), Middle(a, x, y) + 2 * (c * (v * w)))
  {
    MulEq(w, w, t, -v);
    MulEq(c, c, w * t, w * (-v));
    MulEq(2, 2, c * (w * t), c * (w * (-v)));
    Commute(y, x);
    assert Middle(a, y, x) == Middle(a, x, y);
    Opposite(c, v, w);
    AddEq(Middle(a, y, x), Middle(a, y, x), 2 * (c * (w * t)), 2 * (c * (w * (-v))));
    assert (x - y) * (x - y) == (y - x) * (y - x);
  }

  lemma {:induction false} Opposite(c: int, v: int, w: int)
    ensures 2 * (c * (w * (-v))) == -(2 * (c * (v * w)))
  {
    assert w * (-v) == -(v * w);
    assert c * (-(v * w)) == -(c * (v * w));
  }

  /** The two coordinates of a differential sum of represented points. */
  lemma {:induction false} AddedFinite(b: int, r: Rung, x: int, s: Rung, y: int)
    requires Eq(r.X, x * r.Z) && Eq(s.X, y * s.Z)
    ensures var h := X25519.Add(b, r, s); var z := r.Z * s.Z; var n, m := y - x, x * y - 1;
      Eq(h.X, (4 * (m * m)) * (z * z)) && Eq(h.Z, (b * (4 * (n * n))) * (z * z))
  {
    var z := r.Z * s.Z;
    var n, m := y - x, x * y - 1;
    AddedTerms(b, r, s);
    MulEq(r.X, x * r.Z, s.X, y * s.Z);
    Shuffle(x, r.Z, y, s.Z);
    AddEq(r.X * s.X, (x * y) * z, z, z);
    MulEq(s.X, y * s.Z, r.Z, r.Z);
    MulEq(s.Z, s.Z, r.X, x * r.Z);
    CrossFactors(x, y, r.Z, s.Z);
    AddEq(s.X * r.Z, y * z, s.Z * r.X, x * z);
    var M, N := r.X * s.X - z, s.X * r.Z - s.Z * r.X;
    MulEq(M, m * z, M, m * z);
    MulEq(N, n * z, N, n * z);
    SquareOfProduct(m, z);
    SquareOfProduct(n, z);
    ScaleEq(M * M, (m * m) * (z * z), 4);
    ScaleEq(N * N, (n * n) * (z * z), 4);
    MulEq(b, b, 4 * (N * N), 4 * ((n * n) * (z * z)));
    Grouping(b, m * m, n * n, z * z);
  }

  lemma {:induction false} CrossFactors(x: int, y: int, z: int, w: int)
    ensures (y * w) * z == y * (z * w) && w * (x * z) == x * (z * w)
    ensures (x * y) * (z * w) - z * w == (x * y - 1) * (z * w) && y * (z * w) - x * (z * w) == (y - x) * (z * w)
  {
  }

  lemma {:induction false} Grouping(b: int, m: int, n: int, w: int)
    ensures (m * w) * 4 == (4 * m) * w && b * (4 * (n * w)) == (b * (4 * n)) * w
  {
  }

  lemma {:induction false} FourFactors(b: int, m: int, n: int)
    ensures (b * b) * (4 * n) == b * (b * (4 * n))
    ensures ((b * b) * n) * 4 == (b * b) * (4 * n)
  {
  }

  /** Numerators b t and t, up to sign, make the coordinate b. */
  lemma {:induction false} AddedRatio(b: int, m: int, n: int, t: int, X: int, Z: int)
    requires Field() && Eq(m, b * t) && Eq(n * n, t * t) && !Eq(t, 0) && !Eq(b, 0)
    requires Eq(X, 4 * (m * m)) && Eq(Z, b * (4 * (n * n)))
    ensures Eq(X, b * Z) && !Eq(Z, 0)
  {
    var T := t * t;
    MulEq(m, b * t, m, b * t);
    SquareOfProduct(b, t);
    ScaleEq(m * m, (b * b) * T, 4);
    ScaleEq(n * n, T, 4);
    MulEq(b, b, 4 * (n * n), 4 * T);
    MulEq(b, b, Z, b * (4 * T));
    FourFactors(b, m, T);
    NonzeroProduct(t, t);
    SmallFour();
    NonzeroProduct(4, T);
    NonzeroProduct(b, 4 * T);
  }

  /** With z = 0 and y = b w the two numerators are b x w and, up to sign, x w. */
  lemma {:induction false} InfinityTerms(b: int, x: int, z: int, y: int, w: int)
    requires Field() && Eq(z, 0) && !Eq(x, 0) && Eq(y, b * w) && !Eq(w, 0)
    ensures Eq(x * y - z * w, b * (x * w)) && Eq(x * w - z * y, x * w) && !Eq(x * w, 0)
  {
    MulEq(x, x, y, b * w);
    assert x * (b * w) == b * (x * w);
    MulEq(z, 0, w, w);
    MulEq(z, 0, y, y);
    AddEq(x * y, b * (x * w), z * w, 0);
    AddEq(x * w, x * w, z * y, 0);
    NonzeroProduct(x, w);
  }

  lemma {:induction false} Transposed(x: int, z: int, y: int, w: int)
    ensures y * x - w * z == x * y - z * w
    ensures (y * z - w * x) * (y * z - w * x) == (x * w - z * y) * (x * w - z * y)
  {
    var k := x * w - z * y;
    assert y * z - w * x == -k;
    assert (-k) * (-k) == k * k;
  }

  /** One of the two is infinite: the other is the difference, up to its sign. */
  lemma {:induction false} AddedToInfinity(b: int, r: Rung, s: Rung)
    requires Field() && !Eq(b, 0) && Eq(r.Z, 0) && !Eq(r.X, 0) && Eq(s.X, b * s.Z) && !Eq(s.Z, 0)
    ensures var h := X25519.Add(b, r, s); !Eq(h.Z, 0) && Eq(h.X, b * h.Z)
  {
    var h := X25519.Add(b, r, s);
    var m, n := r.X * s.X - r.Z * s.Z, s.X * r.Z - s.Z * r.X;
    AddedTerms(b, r, s);
    InfinityTerms(b, r.X, r.Z, s.X, s.Z);
    Transposed(r.X, r.Z, s.X, s.Z);
    var k := r.X * s.Z - r.Z * s.X;
    MulEq(k, r.X * s.Z, k, r.X * s.Z);
    AddedRatio(b, m, n, r.X * s.Z, h.X, h.Z);
  }

  // ----- the ladder's invariant -----------------------------------------------------------

  /** With one u the second numerator vanishes, and the first does not where twice the point has one. */
  lemma {:induction false} OppositeTerms(X: int, Z: int, b: int, f: int, x: int, z: int)
    requires Field() && !Eq(b, 0) && !Eq(4 * f, 0) && !Eq(z, 0) && Eq(b * (4 * f), (x * x - 1) * (x * x - 1))
    requires Eq(X, (4 * ((x * x - 1) * (x * x - 1))) * (z * z)) && Eq(Z, (b * (4 * ((x - x) * (x - x)))) * (z * z))
    ensures Eq(Z, 0) && !Eq(X, 0)
  {
    var m := x * x - 1;
    assert (b * (4 * ((x - x) * (x - x)))) * (z * z) == 0;
    NonzeroProduct(b, 4 * f);
    if Eq(m, 0) {
      MulEq(m, 0, m, 0);
    }
    NonzeroProduct(m, m);
    NonzeroProduct(z, z);
    SmallFour();
    NonzeroProduct(4, m * m);
    NonzeroProduct(4 * (m * m), z * z);
  }

  /** Both points are finite and have one u: they are opposite, and twice the second is the difference. */
  lemma {:induction false} AddedOpposite(op: (Point, Point) -> Point, a: int, c: int, b: Point, r: Rung, p: Point, s: Rung, q: Point)
    requires Field() && !Eq(c, 0) && OnCurve(a, c, p) && OnCurve(a, c, q) && Represents(r, p) && Represents(s, q)
    requires b.Finite? && !Eq(b.u, 0) && op(q, Negated(p)) == b
    requires SumAt(op, a, c, p, q) && SumAt(op, a, c, q, Negated(p))
    requires p.Finite? && q.Finite? && p.u == q.u
    ensures Represents(X25519.Add(b.u, r, s), op(p, q))
  {
    SameCoordinate(a, c, p, q);
    OppositeDifference(op, b, p, q);
    SumOfDouble(op, a, c, q.u, q.v);
    OppositeFinite(b.u, Cubic(a, q.u), q.u, r, s);
  }

  lemma {:induction false} OppositeFinite(b: int, f: int, x: int, r: Rung, s: Rung)
    requires Field() && !Eq(r.Z, 0) && Eq(r.X, x * r.Z) && !Eq(s.Z, 0) && Eq(s.X, x * s.Z)
    requires !Eq(b, 0) && !Eq(4 * f, 0) && Eq(b * (4 * f), (x * x - 1) * (x * x - 1))
    ensures Represents(X25519.Add(b, r, s), Infinity)
  {
    var h := X25519.Add(b, r, s);
    AddedFinite(b, r, x, s, x);
    NonzeroProduct(r.Z, s.Z);
    OppositeTerms(h.X, h.Z, b, f, x, r.Z * s.Z);
  }

  lemma {:induction false} OppositeDifference(op: (Point, Point) -> Point, b: Point, p: Point, q: Point)
    requires b.Finite? && op(q, Negated(p)) == b && p.Finite? && q.Finite? && 0 <= p.v < Q
    requires q == p || q == Negated(p)
    requires p.v != q.v || p.v == 0 ==> op(p, q) == Infinity
    requires q.v != Negated(p).v || q.v == 0 ==> op(q, Negated(p)) == Infinity
    ensures q == Negated(p) && q.v != 0 && p.v != q.v && op(q, q) == b && op(p, q) == Infinity
  {
    OddModulus(p.v);
  }

  lemma {:induction false} OddModulus(v: int)
    requires 0 <= v < Q
    ensures Mod(-v) == if v == 0 then 0 else Q - v
    ensures Mod(-v) == v <==> v == 0
  {
    ModIsRemainder(-v);
  }

  /** Differential addition represents the sum of two points that differ by the base point. */
  lemma {:induction false} AddRefines(op: (Point, Point) -> Point, a: int, c: int, b: Point, r: Rung, p: Point, s: Rung, q: Point)
    requires Field() && !Eq(c, 0) && OnCurve(a, c, p) && OnCurve(a, c, q) && Represents(r, p) && Represents(s, q)
    requires b.Finite? && !Eq(b.u, 0) && op(q, Negated(p)) == b
    requires SumAt(op, a, c, p, q) && SumAt(op, a, c, q, Negated(p))
    ensures Represents(X25519.Add(b.u, r, s), op(p, q))
  {
    var h := X25519.Add(b.u, r, s);
    if p.Infinity? {
      AddedToInfinity(b.u, r, s);
    } else if q.Infinity? {
      AddedToInfinity(b.u, s, r);
      X25519.AddIsSymmetric(b.u, r, s);
    } else if p.u == q.u {
      AddedOpposite(op, a, c, b, r, p, s, q);
    } else {
      AddedChord(op, a, c, b, r, p, s, q);
    }
  }

  lemma {:induction false} AddedChord(op: (Point, Point) -> Point, a: int, c: int, b: Point, r: Rung, p: Point, s: Rung, q: Point)
    requires Field() && !Eq(c, 0) && OnCurve(a, c, p) && OnCurve(a, c, q) && Represents(r, p) && Represents(s, q)
    requires b.Finite? && !Eq(b.u, 0) && op(q, Negated(p)) == b
    requires SumAt(op, a, c, p, q) && SumAt(op, a, c, q, Negated(p))
    requires p.Finite? && q.Finite? && p.u != q.u
    ensures Represents(X25519.Add(b.u, r, s), op(p, q))
  {
    var h, z := X25519.Add(b.u, r, s), r.Z * s.Z;
    var n, m, x := q.u - p.u, p.u * q.u - 1, op(p, q).u;
    ChordPair(op, a, c, p, q);
    AddedFinite(b.u, r, p.u, s, q.u);
    FourRatio(x, b.u, m * m, n * n);
    Quotient(h.X, h.Z, 4 * (m * m), b.u * (4 * (n * n)), z * z, x);
    DistinctResidues(p.u, q.u);
    NonzeroProduct(n, n);
    SmallFour();
    NonzeroProduct(4, n * n);
    NonzeroProduct(b.u, 4 * (n * n));
    NonzeroProduct(r.Z, s.Z);
    NonzeroProduct(z, z);
    NonzeroProduct(b.u * (4 * (n * n)), z * z);
  }

  lemma {:induction false} FourRatio(x: int, b: int, m: int, n: int)
    requires Eq((x * b) * n, m)
    ensures Eq(x * (b * (4 * n)), 4 * m)
  {
    ScaleEq((x * b) * n, m, 4);
    assert ((x * b) * n) * 4 == x * (b * (4 * n));
  }

  // ----- multiples ------------------------------------------------------------------------

  ghost predicate CommutesAt(op: (Point, Point) -> Point, on: iset<Point>, p: Point, r: Point) {
    op(p, r) in on && op(p, r) == op(r, p)
  }

  ghost predicate AssociatesAt(op: (Point, Point) -> Point, p: Point, r: Point, s: Point) {
    op(op(p, r), s) == op(p, op(r, s))
  }

  /** The axioms of an abelian group with the point at infinity as its unit, on some set of points. */
  ghost predicate Abelian(op: (Point, Point) -> Point, on: iset<Point>) {
    && Infinity in on
    && (forall p {:trigger op(Infinity, p)} :: p in on ==> op(Infinity, p) == p)
    && (forall p, r {:trigger CommutesAt(op, on, p, r)} :: p in on && r in on ==> CommutesAt(op, on, p, r))
    && (forall p, r, s {:trigger AssociatesAt(op, p, r, s)} ::
          p in on && r in on && s in on ==> AssociatesAt(op, p, r, s))
  }

  /** The n-fold sum. */
  function Times(op: (Point, Point) -> Point, n: nat, p: Point): Point {
    if n == 0 then Infinity else op(Times(op, n - 1, p), p)
  }

  lemma {:induction false} TimesOn(op: (Point, Point) -> Point, on: iset<Point>, n: nat, p: Point)
    requires Abelian(op, on) && p in on
    ensures Times(op, n, p) in on
  {
    if n > 0 {
      TimesOn(op, on, n - 1, p);
      assert CommutesAt(op, on, Times(op, n - 1, p), p);
    }
  }

  /** [m + n]p = [m]p + [n]p. */
  lemma {:induction false} TimesAdds(op: (Point, Point) -> Point, on: iset<Point>, m: nat, n: nat, p: Point)
    requires Abelian(op, on) && p in on
    ensures Times(op, m + n, p) == op(Times(op, m, p), Times(op, n, p))
  {
    TimesOn(op, on, m, p);
    if n > 0 {
      TimesAdds(op, on, m, n - 1, p);
      TimesOn(op, on, n - 1, p);
      assert AssociatesAt(op, Times(op, m, p), Times(op, n - 1, p), p);
    } else {
      assert CommutesAt(op, on, Times(op, m, p), Infinity);
      assert op(Infinity, Times(op, m, p)) == Times(op, m, p);
    }
  }

  /** [m]([n]p) = [mn]p. */
  lemma {:induction false} TimesMultiplies(op: (Point, Point) -> Point, on: iset<Point>, m: nat, n: nat, p: Point)
    requires Abelian(op, on) && p in on
    ensures m * n >= 0 && Times(op, m, Times(op, n, p)) == Times(op, m * n, p)
  {
    TimesOn(op, on, n, p);
    if m > 0 {
      NextMultiple(m, n);
      TimesMultiplies(op, on, m - 1, n, p);
      TimesAdds(op, on, (m - 1) * n, n, p);
    }
  }

  /** Consecutive multiples differ by the point; `t` is the inverse of the lower one. */
  lemma {:induction false} ConsecutiveDiffer(op: (Point, Point) -> Point, on: iset<Point>, n: nat, p: Point, t: Point)
    requires Abelian(op, on) && p in on && t in on && op(Times(op, n, p), t) == Infinity
    ensures op(Times(op, n + 1, p), t) == p
  {
    var s := Times(op, n, p);
    TimesOn(op, on, n, p);
    assert CommutesAt(op, on, s, p) && AssociatesAt(op, p, s, t) && CommutesAt(op, on, p, Infinity);
    assert op(Infinity, p) == p;
  }

  /** The points of the curve. */
  ghost function Curve(a: int, c: int): iset<Point> {
    iset p | OnCurve(a, c, p)
  }

  function Law(a: int, c: int): (Point, Point) -> Point {
    (p, r) => Sum(a, c, p, r)
  }

  /** `op` is the chord and tangent law, and an abelian group on the curve. */
  ghost predicate Follows(op: (Point, Point) -> Point, a: int, c: int) {
    && Abelian(op, Curve(a, c))
    && forall p, r {:trigger SumAt(op, a, c, p, r)} :: p in Curve(a, c) && r in Curve(a, c) ==> SumAt(op, a, c, p, r)
  }

  /** The group axioms that are assumed of the chord and tangent law. */
  ghost predicate Group(a: int, c: int) {
    Abelian(Law(a, c), Curve(a, c))
  }

  lemma {:induction false} TangentOf(a: int, c: int, p: Point)
    requires Field() && !Eq(c, 0) && p.Finite? && 0 < p.v < Q
    ensures exists l :: TangentAt(a, c, p, Sum(a, c, p, p).u, l)
  {
    var l := Slope(a, c, p, p);
    Residue(p.v);
    SmallNumbersDiffer();
    NonzeroProduct(2, c);
    NonzeroProduct(2 * c, p.v);
    Divided(3 * (p.u * p.u) + 2 * a * p.u + 1, 2 * c * p.v);
    Reduced(c * (l * l) - a - p.u - p.u);
    assert TangentAt(a, c, p, Sum(a, c, p, p).u, l);
  }

  lemma {:induction false} ChordOf(a: int, c: int, p: Point, r: Point)
    requires Field() && p.Finite? && r.Finite? && 0 <= p.u < Q && 0 <= r.u < Q && p.u != r.u
    ensures exists l :: ChordAt(a, c, p, r, Sum(a, c, p, r).u, l)
  {
    var l := Slope(a, c, p, r);
    DistinctResidues(p.u, r.u);
    Divided(r.v - p.v, r.u - p.u);
    Reduced(c * (l * l) - a - p.u - r.u);
    assert ChordAt(a, c, p, r, Sum(a, c, p, r).u, l);
  }

  /** Dividing by way of the inverse gives the slopes of the law. */
  lemma {:induction false} LawFollows(a: int, c: int)
    requires Field() && Group(a, c) && !Eq(c, 0)
    ensures Follows(Law(a, c), a, c)
  {
    forall p, r | p in Curve(a, c) && r in Curve(a, c) ensures SumAt(Law(a, c), a, c, p, r) {
      LawAt(a, c, p, r);
    }
  }

  lemma {:induction false} LawAt(a: int, c: int, p: Point, r: Point)
    requires Field() && !Eq(c, 0) && OnCurve(a, c, p) && OnCurve(a, c, r)
    ensures SumAt(Law(a, c), a, c, p, r)
  {
    if p.Finite? && r.Finite? {
      if p.u != r.u {
        ChordOf(a, c, p, r);
      } else if p.v == r.v && p.v != 0 {
        TangentOf(a, c, p);
      }
    }
  }

  lemma {:induction false} NegationInverts(op: (Point, Point) -> Point, a: int, c: int, p: Point)
    requires OnCurve(a, c, p) && SumAt(op, a, c, p, Negated(p))
    ensures op(p, Negated(p)) == Infinity
  {
    if p.Finite? {
      OddModulus(p.v);
    }
  }

  /** The rungs that represent a multiple of the base point. */
  ghost function Multiples(op: (Point, Point) -> Point, b: Point): (Rung, int) -> bool {
    (r: Rung, n: int) => n >= 0 && Represents(r, Times(op, n, b))
  }

  lemma {:induction false} MultiplesDouble(op: (Point, Point) -> Point, a: int, t: int, c: int, b: Point, r: Rung, n: nat)
    requires Field() && Coefficients(a, t) && !Eq(c, 0) && Follows(op, a, c) && b in Curve(a, c)
    requires Represents(r, Times(op, n, b))
    ensures Represents(X25519.Double(t, r), Times(op, 2 * n, b))
  {
    var p := Times(op, n, b);
    TimesOn(op, Curve(a, c), n, b);
    assert SumAt(op, a, c, p, p);
    DoubleRefines(op, a, t, c, r, p);
    TimesAdds(op, Curve(a, c), n, n, b);
  }

  /** The next multiple less this one is the base point. */
  lemma {:induction false} MultiplesDiffer(op: (Point, Point) -> Point, a: int, c: int, b: Point, n: nat)
    requires Follows(op, a, c) && b in Curve(a, c)
    ensures Times(op, n, b) in Curve(a, c) && Times(op, n + 1, b) in Curve(a, c) && Negated(Times(op, n, b)) in Curve(a, c)
    ensures op(Times(op, n + 1, b), Negated(Times(op, n, b))) == b
  {
    var p := Times(op, n, b);
    TimesOn(op, Curve(a, c), n, b);
    TimesOn(op, Curve(a, c), n + 1, b);
    NegatedOnCurve(a, c, p);
    assert SumAt(op, a, c, p, Negated(p));
    NegationInverts(op, a, c, p);
    ConsecutiveDiffer(op, Curve(a, c), n, b, Negated(p));
  }

  lemma {:induction false} MultiplesAdd(op: (Point, Point) -> Point, a: int, c: int, b: Point, r: Rung, s: Rung, n: nat)
    requires Field() && !Eq(c, 0) && Follows(op, a, c) && b in Curve(a, c)
    requires b.Finite? && !Eq(b.u, 0) && Represents(r, Times(op, n, b)) && Represents(s, Times(op, n + 1, b))
    ensures Represents(X25519.Add(b.u, r, s), Times(op, 2 * n + 1, b))
  {
    var p, q := Times(op, n, b), Times(op, n + 1, b);
    MultiplesDiffer(op, a, c, b, n);
    assert SumAt(op, a, c, p, q) && SumAt(op, a, c, q, Negated(p));
    AddRefines(op, a, c, b, r, p, s, q);
    TimesAdds(op, Curve(a, c), n, n + 1, b);
  }

  lemma {:induction false} FirstMultiples(op: (Point, Point) -> Point, on: iset<Point>, b: Point)
    requires Abelian(op, on) && b in on && b.Finite?
    ensures Represents(X25519.Rung(1, 0), Times(op, 0, b)) && Represents(X25519.Rung(b.u, 1), Times(op, 1, b))
  {
    SmallNumbersDiffer();
    assert Times(op, 0, b) == Infinity && Times(op, 1, b) == op(Infinity, b) == b;
    assert b.u == b.u * 1;
  }

  lemma {:induction false} DoublingRespects(op: (Point, Point) -> Point, a: int, t: int, c: int, b: Point)
    requires Field() && Coefficients(a, t) && !Eq(c, 0) && Follows(op, a, c) && b in Curve(a, c)
    ensures forall r, n: int :: Multiples(op, b)(r, n) ==> Multiples(op, b)(X25519.Double(t, r), 2 * n)
  {
    forall r, n: int | Multiples(op, b)(r, n) ensures Multiples(op, b)(X25519.Double(t, r), 2 * n) {
      MultiplesDouble(op, a, t, c, b, r, n);
    }
  }

  lemma {:induction false} AddingRespects(op: (Point, Point) -> Point, a: int, c: int, b: Point)
    requires Field() && !Eq(c, 0) && Follows(op, a, c) && b in Curve(a, c) && b.Finite? && !Eq(b.u, 0)
    ensures forall r, s, n: int :: Multiples(op, b)(r, n) && Multiples(op, b)(s, n + 1) ==>
      Multiples(op, b)(X25519.Add(b.u, r, s), 2 * n + 1)
  {
    forall r, s, n: int | Multiples(op, b)(r, n) && Multiples(op, b)(s, n + 1)
      ensures Multiples(op, b)(X25519.Add(b.u, r, s), 2 * n + 1)
    {
      MultiplesAdd(op, a, c, b, r, s, n);
    }
  }

  /** Doubling and differential addition keep to the multiples of any base point with nonzero u. */
  lemma {:induction false} LadderRespectsMultiples(op: (Point, Point) -> Point, a: int, t: int, c: int, b: Point)
    requires Field() && Coefficients(a, t) && !Eq(c, 0) && Follows(op, a, c) && b in Curve(a, c)
    requires b.Finite? && !Eq(b.u, 0)
    ensures X25519.Respects(t, b.u, Multiples(op, b))
  {
    FirstMultiples(op, Curve(a, c), b);
    DoublingRespects(op, a, t, c, b);
    AddingRespects(op, a, c, b);
  }
}
