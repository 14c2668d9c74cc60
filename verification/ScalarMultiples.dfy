/** X25519 on bytes is multiplication on the curve, and so commutes. */
module ScalarMultiples {
  import opened ByteStrings
  import opened FieldArithmetic
  import opened MontgomeryCurve
  import opened MontgomeryLadder
  import opened Shifts
  import X25519

  // ----- the scalar fits the ladder -------------------------------------------------------

  lemma {:induction false} TwoBitsOut(e: nat)
    ensures Shifted(e, 2) == e / 4
  {
    assert Shifted(e, 2) == Shifted(e / 2, 1) == Shifted(e / 2 / 2, 0);
  }

  lemma {:induction false} OneByteOut(e: nat)
    ensures Shifted(e, 8) == e / 256
  {
    TwoBitsOut(e);
    ShiftsAdd(e, 2, 2);
    TwoBitsOut(e / 4);
    ShiftsAdd(e, 4, 2);
    TwoBitsOut(e / 16);
    ShiftsAdd(e, 6, 2);
    TwoBitsOut(e / 64);
  }

  lemma {:induction false} SevenBitsOut(x: nat)
    requires x < 128
    ensures Shifted(x, 7) == 0
  {
    assert Shifted(x, 7) == Shifted(x / 2, 6) == Shifted(x / 2 / 2, 5) == Shifted(x / 2 / 2 / 2, 4);
    assert Shifted(x / 2 / 2 / 2, 4) == Shifted(x / 2 / 2 / 2 / 2, 3) == Shifted(x / 2 / 2 / 2 / 2 / 2, 2);
  }

  /** A number whose last byte has no top bit is shifted out by all its other bits. */
  lemma {:induction false} TopBitClear(s: Bytes, n: nat)
    requires s != [] && s[|s| - 1] < 128 && n == 8 * (|s| - 1) + 7
    ensures Shifted(Little(s), n) == 0
  {
    if |s| == 1 {
      assert Little(s[1..]) == 0;
      SevenBitsOut(s[0]);
    } else {
      OneByteOut(Little(s));
      ShiftsAdd(Little(s), 8, n - 8);
      assert Little(s) / 256 == Little(s[1..]);
      TopBitClear(s[1..], n - 8);
    }
  }

  lemma {:induction false} ClampedFits(s: Bytes)
    requires |s| == 32
    ensures Shifted(Little(X25519.Clamped(s)), X25519.BITS) == 0
  {
    TopBitClear(X25519.Clamped(s), X25519.BITS);
  }

  // ----- coordinates as bytes -------------------------------------------------------------

  lemma {:induction false} FieldFitsBytes()
    ensures Q < Pow256(32)
  {
    assert Pow256(2) == 256 * Pow256(1) == 0x1_0000;
    Pow256Doubles(2, 0x1_0000);
    Pow256Doubles(4, 0x1_0000_0000);
    Pow256Doubles(8, 0x1_0000_0000_0000_0000);
    Pow256Doubles(16, 0x1_0000_0000_0000_0000_0000_0000_0000_0000);
  }

  lemma {:induction false} CoordinateBytes(x: nat)
    requires x < Q
    ensures Mod(Little(ToLittle(x, 32))) == x
  {
    FieldFitsBytes();
    WrittenRoundTrip(x, Zeros(32));
    ModIsRemainder(x);
  }

  /** What X / Z by way of the inverse makes of a point; infinity becomes zero. */
  function Coordinate(p: Point): (x: nat)
    requires p.Finite? ==> 0 <= p.u < Q
    ensures x < Q
  {
    match p
    case Infinity => 0
    case Finite(u, _) => u
  }

  lemma {:induction false} InverseOfZero(z: int)
    requires Eq(z, 0)
    ensures Eq(Inv(z), 0)
  {
    var y := Power(z, Q - 3);
    MulEq(z, 0, y, y);
    Reduced(z * y);
  }

  lemma {:induction false} CoordinateOf(r: Rung, p: Point)
    requires Field() && Represents(r, p) && (p.Finite? ==> 0 <= p.u < Q)
    ensures Mod(r.X * Inv(r.Z)) == Coordinate(p)
  {
    if p.Infinity? {
      InverseOfZero(r.Z);
      MulEq(r.X, r.X, Inv(r.Z), 0);
      SameMod(r.X * Inv(r.Z), 0);
    } else {
      MulEq(r.X, p.u * r.Z, Inv(r.Z), Inv(r.Z));
      MulEq(p.u, p.u, r.Z * Inv(r.Z), 1);
      assert (p.u * r.Z) * Inv(r.Z) == p.u * (r.Z * Inv(r.Z));
      SameMod(r.X * Inv(r.Z), p.u);
    }
  }

  // ----- the zero coordinate --------------------------------------------------------------

  /** X or Z is zero: the quotient is zero. */
  ghost predicate Vanishes(r: Rung) {
    Eq(r.X, 0) || Eq(r.Z, 0)
  }

  lemma {:induction false} AddVanishes(r: Rung, s: Rung)
    ensures Vanishes(X25519.Add(0, r, s))
  {
    AddedTerms(0, r, s);
  }

  lemma {:induction false} DoubleVanishes(t: int, r: Rung)
    requires Vanishes(r)
    ensures Vanishes(X25519.Double(t, r))
  {
    var A1, B1 := Mod(r.X + r.Z), Mod(r.X - r.Z);
    var AA, BB := Mod(A1 * A1), Mod(B1 * B1);
    AddEq(r.X, r.X, r.Z, r.Z);
    if Eq(r.Z, 0) {
      AddEq(r.X, r.X, r.Z, 0);
      ReducedSquare(r.X + r.Z, r.X);
      ReducedSquare(r.X - r.Z, r.X);
    } else {
      AddEq(r.X, 0, r.Z, r.Z);
      ReducedSquare(r.X + r.Z, r.Z);
      ReducedSquare(r.X - r.Z, -r.Z);
      assert (-r.Z) * (-r.Z) == r.Z * r.Z;
    }
    AddEq(AA, BB, BB, BB);
    Reduced(AA - BB);
    var E := Mod(AA - BB);
    MulEq(E, 0, AA + t * E, AA + t * E);
    Reduced(E * (AA + t * E));
  }

  lemma {:induction false} LadderVanishes(t: int, bits: seq<bool>)
    ensures Vanishes(X25519.Ladder(t, 0, bits).low) && Vanishes(X25519.Ladder(t, 0, bits).high)
  {
    if bits != [] {
      var p := X25519.Ladder(t, 0, bits[..|bits| - 1]);
      LadderVanishes(t, bits[..|bits| - 1]);
      AddVanishes(p.low, p.high);
      DoubleVanishes(t, p.low);
      DoubleVanishes(t, p.high);
    }
  }

  lemma {:induction false} VanishingQuotient(r: Rung)
    requires Vanishes(r)
    ensures Mod(r.X * Inv(r.Z)) == 0
  {
    if Eq(r.Z, 0) {
      InverseOfZero(r.Z);
      MulEq(r.X, r.X, Inv(r.Z), 0);
    } else {
      MulEq(r.X, 0, Inv(r.Z), Inv(r.Z));
    }
    SameMod(r.X * Inv(r.Z), 0);
  }

  /** The zero coordinate, and whatever is congruent to it, is multiplied to zero. */
  lemma {:induction false} ZeroMultiplied(t: int, scalar: Bytes, point: Bytes)
    requires |scalar| == 32 && |point| == 32 && Mod(Little(point)) == 0
    ensures X25519.Multiplied(t, scalar, point) == ToLittle(0, 32)
  {
    var bits := BitsOf(Little(X25519.Clamped(scalar)), X25519.BITS);
    LadderVanishes(t, bits);
    VanishingQuotient(X25519.Ladder(t, 0, bits).low);
  }

  // ----- X25519 multiplies points ---------------------------------------------------------

  /** The function on bytes returns the u-coordinate of the multiple of any point with the given nonzero u. */
  lemma {:induction false} ScalarmultIsMultiple(op: (Point, Point) -> Point, a: int, t: int, c: int, scalar: Bytes, point: Bytes, b: Point)
    requires Field() && Coefficients(a, t) && !Eq(c, 0) && Follows(op, a, c)
    requires |scalar| == 32 && |point| == 32
    requires b in Curve(a, c) && b.Finite? && b.u == Mod(Little(point)) && b.u != 0
    ensures Times(op, Little(X25519.Clamped(scalar)), b) in Curve(a, c)
    ensures X25519.Multiplied(t, scalar, point)
      == ToLittle(Coordinate(Times(op, Little(X25519.Clamped(scalar)), b)), 32)
  {
    var k := Little(X25519.Clamped(scalar));
    var r := X25519.Ladder(t, b.u, BitsOf(k, X25519.BITS)).low;
    ClampedFits(scalar);
    Residue(b.u);
    LadderRespectsMultiples(op, a, t, c, b);
    X25519.LadderReachesMultiple(t, b.u, k, X25519.BITS, Multiples(op, b));
    TimesOn(op, Curve(a, c), k, b);
    CoordinateOf(r, Times(op, k, b));
  }

  // ----- and so it commutes ---------------------------------------------------------------

  /** (0, 0) has order two. */
  lemma {:induction false} OriginMultiples(op: (Point, Point) -> Point, n: nat)
    requires op(Infinity, Finite(0, 0)) == Finite(0, 0) && op(Finite(0, 0), Finite(0, 0)) == Infinity
    ensures Times(op, n, Finite(0, 0)) == Infinity || Times(op, n, Finite(0, 0)) == Finite(0, 0)
  {
    if n > 0 {
      OriginMultiples(op, n - 1);
    }
  }

  lemma {:induction false} InfinityMultiples(op: (Point, Point) -> Point, on: iset<Point>, n: nat)
    requires Abelian(op, on)
    ensures Times(op, n, Infinity) == Infinity
  {
    if n > 0 {
      InfinityMultiples(op, on, n - 1);
      assert op(Infinity, Infinity) == Infinity;
    }
  }

  /** A point with u = 0 is the one of order two. */
  lemma {:induction false} ZeroIsOrigin(a: int, c: int, p: Point)
    requires Field() && !Eq(c, 0) && OnCurve(a, c, p) && p.Finite? && p.u == 0
    ensures p == Finite(0, 0)
  {
    assert Cubic(a, 0) == 0;
    NoZeroDivisors(c, p.v * p.v);
    if !Eq(p.v, 0) {
      NoZeroDivisors(p.v, p.v);
    }
    Residue(p.v);
  }

  /** Multiplying the bytes of a point's coordinate gives the coordinate of its multiple, for every point. */
  lemma {:induction false} CoordinateMultiplies(op: (Point, Point) -> Point, a: int, t: int, c: int, scalar: Bytes, p: Point)
    requires Field() && Coefficients(a, t) && !Eq(c, 0) && Follows(op, a, c)
    requires |scalar| == 32 && p in Curve(a, c)
    ensures Times(op, Little(X25519.Clamped(scalar)), p) in Curve(a, c)
    ensures X25519.Multiplied(t, scalar, ToLittle(Coordinate(p), 32))
      == ToLittle(Coordinate(Times(op, Little(X25519.Clamped(scalar)), p)), 32)
  {
    var k := Little(X25519.Clamped(scalar));
    CoordinateBytes(Coordinate(p));
    TimesOn(op, Curve(a, c), k, p);
    if Coordinate(p) != 0 {
      ScalarmultIsMultiple(op, a, t, c, scalar, ToLittle(Coordinate(p), 32), p);
    } else {
      ZeroMultiplied(t, scalar, ToLittle(Coordinate(p), 32));
      if p.Infinity? {
        InfinityMultiples(op, Curve(a, c), k);
      } else {
        ZeroIsOrigin(a, c, p);
        assert SumAt(op, a, c, Infinity, p) && SumAt(op, a, c, p, p);
        OriginMultiples(op, k);
      }
    }
  }

  const BASE_V: nat := 14781619447589544791020593568409986887264606134616475288964881837755586237401

  lemma {:induction false} BaseIsOnCurve()
    ensures OnCurve(A, 1, Finite(9, BASE_V))
  {
    EqIsRemainder(1 * (BASE_V * BASE_V), Cubic(A, 9));
  }

  /** Two scalars applied to a point, one after the other, in either order. */
  lemma {:induction false} MultipliedTwice(op: (Point, Point) -> Point, a: int, t: int, c: int, b: Point, x: Bytes, y: Bytes)
    requires Field() && Coefficients(a, t) && !Eq(c, 0) && Follows(op, a, c)
    requires |x| == 32 && |y| == 32 && b in Curve(a, c)
    ensures var k, m := Little(X25519.Clamped(x)), Little(X25519.Clamped(y));
      && k * m >= 0 && Times(op, k * m, b) in Curve(a, c)
      && X25519.Multiplied(t, x, X25519.Multiplied(t, y, ToLittle(Coordinate(b), 32)))
         == ToLittle(Coordinate(Times(op, k * m, b)), 32)
  {
    var k, m := Little(X25519.Clamped(x)), Little(X25519.Clamped(y));
    CoordinateMultiplies(op, a, t, c, y, b);
    CoordinateMultiplies(op, a, t, c, x, Times(op, m, b));
    TimesMultiplies(op, Curve(a, c), k, m, b);
  }

  lemma {:induction false} MultipliedCommutes(op: (Point, Point) -> Point, a: int, t: int, c: int, b: Point, x: Bytes, y: Bytes)
    requires Field() && Coefficients(a, t) && !Eq(c, 0) && Follows(op, a, c)
    requires |x| == 32 && |y| == 32 && b in Curve(a, c)
    ensures var u := ToLittle(Coordinate(b), 32);
      X25519.Multiplied(t, x, X25519.Multiplied(t, y, u)) == X25519.Multiplied(t, y, X25519.Multiplied(t, x, u))
  {
    MultipliedTwice(op, a, t, c, b, x, y);
    MultipliedTwice(op, a, t, c, b, y, x);
    Commute(Little(X25519.Clamped(x)), Little(X25519.Clamped(y)));
  }

  /** X25519 of two scalars and the base point does not depend on their order. */
  lemma {:induction false} ScalarsCommute(x: Bytes, y: Bytes)
    requires Field() && Group(A, 1) && |x| == 32 && |y| == 32
    ensures X25519.Multiply(x, X25519.Multiply(y, ToLittle(9, 32))) == X25519.Multiply(y, X25519.Multiply(x, ToLittle(9, 32)))
  {
    CoefficientsOfTheCurve();
    SmallNumbersDiffer();
    BaseIsOnCurve();
    LawFollows(A, 1);
    MultipliedCommutes(Law(A, 1), A, X25519.A24, 1, Finite(9, BASE_V), x, y);
  }
}
