/**
Ed25519 signatures (section 5.1 of RFC 8032) on bytes: points are compressed to y and the parity of x,
and what the signer sends is accepted. The hash is a function to 64 bytes; d, the square root of minus one
and the base point are parameters.
*/
module EdwardsSignature {
  import opened ByteStrings
  import opened EdwardsArithmetic
  import opened EdwardsCurve
  import opened FieldArithmetic
  import opened Wrappers

  // ----- powers ---------------------------------------------------------------------------

  lemma {:induction false} NextPower(x: int, n: nat)
    ensures Eq(Power(x, n + 1), x * Power(x, n))
  {
    Reduced(x * Power(x, n));
  }

  lemma {:induction false} PowersAdd(x: int, m: nat, n: nat)
    ensures Eq(Power(x, m + n), Power(x, m) * Power(x, n))
  {
    if m > 0 {
      PowersAdd(x, m - 1, n);
      NextPower(x, m - 1 + n);
      NextPower(x, m - 1);
      MulEq(x, x, Power(x, m - 1 + n), Power(x, m - 1) * Power(x, n));
      MulEq(Power(x, m), x * Power(x, m - 1), Power(x, n), Power(x, n));
      Associate(x, Power(x, m - 1), Power(x, n));
    }
  }

  /** The powers of a square are even powers. */
  lemma {:induction false} PowersOfSquare(s: int, x: int, n: nat)
    requires Eq(s, x * x)
    ensures Eq(Power(s, n), Power(x, n + n))
  {
    if n > 0 {
      var p := Power(x, n - 1 + (n - 1));
      PowersOfSquare(s, x, n - 1);
      NextPower(s, n - 1);
      MulEq(s, x * x, Power(s, n - 1), p);
      NextPower(x, n - 1 + (n - 1));
      NextPower(x, n + n - 1);
      assert n + n - 1 == n - 1 + (n - 1) + 1;
      MulEq(x, x, Power(x, n + n - 1), x * p);
      Associate(x, x, p);
    }
  }

  /** Fermat's little theorem, from the inverse. */
  lemma {:induction false} LittleTheorem(x: int)
    requires Field() && !Eq(x, 0)
    ensures Eq(Power(x, Q - 1), 1)
  {
    NextPower(x, Q - 2);
    assert Eq(x * Inv(x), 1);
  }

  // ----- square roots ---------------------------------------------------------------------

  lemma {:induction false} UnitRoots(c: int)
    requires Field() && Eq(c * c, 1)
    ensures Eq(c, 1) || Eq(c, -1)
  {
    assert (c - 1) * (c + 1) == c * c - 1;
    AddEq(c * c, 1, 1, 1);
    if !Eq(c - 1, 0) {
      NoZeroDivisors(c - 1, c + 1);
      AddEq(c + 1, 0, 1, 1);
    } else {
      AddEq(c - 1, 0, -1, -1);
    }
  }

  /** For e = (q + 3) / 8 the e-th power of a square is a root of it or of its opposite. */
  lemma {:induction false} CandidateRoot(s: int, x: int, e: nat, g: nat)
    requires Field() && Eq(s, x * x) && e + e == g + 1 && g + g + (g + g) == Q - 1
    ensures var r := Power(s, e); Eq(r * r, s) || Eq(r * r, -s)
  {
    var r := Power(s, e);
    PowersAdd(s, e, e);
    NextPower(s, g);
    assert Eq(r * r, s * Power(s, g));
    if Eq(x, 0) {
      MulEq(x, 0, x, 0);
      MulEq(s, 0, Power(s, g), Power(s, g));
    } else {
      var c := Power(s, g);
      PowersOfSquare(s, x, g);
      PowersAdd(x, g + g, g + g);
      LittleTheorem(x);
      MulEq(c, Power(x, g + g), c, Power(x, g + g));
      UnitRoots(c);
      if Eq(c, 1) {
        MulEq(s, s, c, 1);
      } else {
        MulEq(s, s, c, -1);
        assert s * -1 == -s;
      }
    }
  }

  const ROOT_EXPONENT: nat := 7237005577332262213973186563042994240829374041602535252466099000494570602494

  const QUARTER: nat := 14474011154664524427946373126085988481658748083205070504932198000989141204987

  /** The even one of the two roots, when there are roots. */
  function EvenRoot(i: int, s: int): int {
    var r := Power(s, ROOT_EXPONENT);
    var x := if Mod(r * r - s) != 0 then Mod(r * i) else Mod(r);
    if x % 2 == 1 then Q - x else x
  }

  lemma {:induction false} ReducedIsZero(x: int)
    ensures Mod(x) == 0 <==> Eq(x, 0)
  {
    ModIsRemainder(x);
    EqIsRemainder(x, 0);
  }

  lemma {:induction false} OppositeSquare(x: int, r: int, i: int)
    ensures (-x) * (-x) == x * x && (r * i) * (r * i) == (r * r) * (i * i) && (r * r) * -1 == -(r * r)
  {
  }

  lemma {:induction false} EvenRootSquares(i: int, s: int, x: int)
    requires Field() && RootOfMinusOne(i) && Eq(s, x * x)
    ensures var r := EvenRoot(i, s); 0 <= r <= Q && r % 2 == 0 && Eq(r * r, s)
  {
    CandidateRoot(s, x, ROOT_EXPONENT, QUARTER);
    var r := Power(s, ROOT_EXPONENT);
    ReducedIsZero(r * r - s);
    RootOf(i, s, r);
    var y := if Mod(r * r - s) != 0 then Mod(r * i) else Mod(r);
    ModIsSmall(r * i);
    ModIsSmall(r);
    Parity(y, s);
  }

  lemma {:induction false} RootOf(i: int, s: int, r: int)
    requires RootOfMinusOne(i) && (Eq(r * r, s) || Eq(r * r, -s))
    ensures var y := if Mod(r * r - s) != 0 then Mod(r * i) else Mod(r); Eq(y * y, s)
  {
    ReducedIsZero(r * r - s);
    if Mod(r * r - s) != 0 {
      if Eq(r * r, s) {
        AddEq(r * r, s, s, s);
      }
      Reduced(r * i);
      MulEq(Mod(r * i), r * i, Mod(r * i), r * i);
      OppositeSquare(0, r, i);
      MulEq(r * r, -s, i * i, -1);
      assert -s * -1 == s;
    } else {
      AddEq(r * r - s, 0, s, s);
      Reduced(r);
      MulEq(Mod(r), r, Mod(r), r);
    }
  }

  lemma {:induction false} Parity(y: int, s: int)
    requires 0 <= y < Q && Eq(y * y, s)
    ensures var r := if y % 2 == 1 then Q - y else y; 0 <= r <= Q && r % 2 == 0 && Eq(r * r, s)
  {
    if y % 2 == 1 {
      Shift(-y, 1);
      MulEq(Q - y, -y, Q - y, -y);
      OppositeSquare(y, 0, 0);
    }
  }

  // ----- points as bytes ------------------------------------------------------------------

  /** The top bit of 32 bytes. */
  const TOP: nat := 57896044618658097711785492504343953926634992332820282019728792003956564819968

  /** y in 255 bits and the parity of x in the last. */
  function EncodePoint(p: Affine): (s: Bytes)
    ensures |s| == 32
  {
    ToLittle(p.y % TOP + (if p.x % 2 == 1 then TOP else 0), 32)
  }

  predicate IsOnCurve(d: int, p: Affine) {
    Mod(p.y * p.y - p.x * p.x - 1 - d * (p.x * p.x) * (p.y * p.y)) == 0
  }

  /** The even x for a given y, if there is one. */
  function RecoverX(d: int, i: int, y: int): int {
    EvenRoot(i, Mod((y * y - 1) * Inv(d * (y * y) + 1)))
  }

  /** None is the refusal of a point off the curve. */
  function DecodePoint(d: int, i: int, s: Bytes): Option<Affine>
    requires |s| == 32
  {
    var y, odd := Little(s) % TOP, Little(s) / TOP % 2 == 1;
    var even := RecoverX(d, i, y);
    var p := Affine(if (even % 2 == 1) != odd then Q - even else even, y);
    if IsOnCurve(d, p) then Some(p) else None
  }

  lemma {:induction false} CurveIsChecked(d: int, p: Affine)
    ensures IsOnCurve(d, p) <==> OnCurve(d, p)
  {
    var l, r := p.y * p.y - p.x * p.x, 1 + d * (p.x * p.x) * (p.y * p.y);
    ReducedIsZero(l - r);
    assert l - 1 - d * (p.x * p.x) * (p.y * p.y) == l - r;
    if Eq(l - r, 0) {
      AddEq(l - r, 0, r, r);
    }
    if Eq(l, r) {
      AddEq(l, r, r, r);
    }
  }

  lemma {:induction false} CurveInX(d: int, x: int, y: int)
    ensures y - 1 - x * (d * y + 1) == y - x - (1 + d * x * y)
  {
    assert x * (d * y + 1) == x * (d * y) + x;
    assert x * (d * y) == d * x * y;
  }

  /** On the curve y^2 - 1 = x^2 (d y^2 + 1), and the second factor is not zero. */
  lemma {:induction false} SolvedForX(d: int, i: int, p: Affine)
    requires Field() && NonSquare(d) && RootOfMinusOne(i) && OnCurve(d, p)
    ensures var n, m := p.y * p.y - 1, d * (p.y * p.y) + 1; !Eq(m, 0) && Eq(n * Inv(m), p.x * p.x)
  {
    var x, y := p.x * p.x, p.y * p.y;
    var n, m := y - 1, d * y + 1;
    CurveInX(d, x, y);
    AddEq(y - x, 1 + d * x * y, 1 + d * x * y, 1 + d * x * y);
    AddEq(n - x * m, 0, x * m, x * m);
    assert Eq(n, x * m);
    if Eq(m, 0) {
      MulEq(x, x, m, 0);
      AddEq(n, 0, 1, 1);
      MinusOneRatio(d, i, y);
    }
    MulEq(n, x * m, Inv(m), Inv(m));
    Associate(x, m, Inv(m));
    MulEq(x, x, m * Inv(m), 1);
  }

  /** If d y^2 = -1 with y^2 = 1, then -1 = d would make d a square. */
  lemma {:induction false} MinusOneRatio(d: int, i: int, y: int)
    requires Field() && NonSquare(d) && RootOfMinusOne(i) && Eq(y, 1)
    ensures !Eq(d * y + 1, 0)
  {
    MulEq(d, d, y, 1);
    SmallNumbersDiffer();
    if Eq(d * y + 1, 0) {
      AddEq(d * y + 1, 0, 1, 1);
      assert d * (1 * 1) == d * 1;
      assert Ratio(d, i, 1);
    }
  }

  /** Two roots of one square are equal or opposite. */
  lemma {:induction false} RootsAreOpposite(r: int, x: int)
    requires Field() && Eq(r * r, x * x) && 0 <= x < Q && 0 <= r <= Q
    ensures r == x || r == Q - x || (x == 0 && (r == 0 || r == Q))
  {
    assert (r - x) * (r + x) == r * r - x * x;
    AddEq(r * r, x * x, x * x, x * x);
    EqIsRemainder(r - x, 0);
    EqIsRemainder(r + x, 0);
    if !Eq(r - x, 0) {
      NoZeroDivisors(r - x, r + x);
      SumVanishes(r, x);
    } else {
      DifferenceVanishes(r, x);
    }
  }

  lemma {:induction false} SumVanishes(r: int, x: int)
    requires 0 <= x < Q && 0 <= r <= Q && (r + x) % Q == 0
    ensures r == Q - x || (r == 0 && x == 0)
  {
  }

  lemma {:induction false} DifferenceVanishes(r: int, x: int)
    requires 0 <= x < Q && 0 <= r <= Q && (r - x) % Q == 0
    ensures r == x || (r == Q && x == 0)
  {
  }

  lemma {:induction false} RecoversX(d: int, i: int, p: Affine)
    requires Field() && NonSquare(d) && RootOfMinusOne(i) && OnCurve(d, p) && Canonical(p)
    ensures RecoverX(d, i, p.y) == if p.x % 2 == 0 then p.x else Q - p.x
  {
    var m := d * (p.y * p.y) + 1;
    var n := (p.y * p.y - 1) * Inv(m);
    SolvedForX(d, i, p);
    Reduced(n);
    EvenRootSquares(i, Mod(n), p.x);
    EvenOne(EvenRoot(i, Mod(n)), p.x);
  }

  lemma {:induction false} EvenOne(r: int, x: int)
    requires Field() && Eq(r * r, x * x) && 0 <= x < Q && 0 <= r <= Q && r % 2 == 0
    ensures r == if x % 2 == 0 then x else Q - x
  {
    RootsAreOpposite(r, x);
  }

  lemma {:induction false} EncodedValue(p: Affine)
    requires Canonical(p)
    ensures Little(EncodePoint(p)) % TOP == p.y && Little(EncodePoint(p)) / TOP % 2 == p.x % 2
  {
    var n := p.y % TOP + (if p.x % 2 == 1 then TOP else 0);
    TwoTops();
    assert p.y % TOP == p.y;
    WrittenRoundTrip(n, Zeros(32));
  }

  lemma {:induction false} TwoTops()
    ensures Pow256(32) == 2 * TOP && Q < TOP && L < Pow256(32)
  {
    assert Pow256(2) == 256 * Pow256(1) == 0x1_0000;
    Pow256Doubles(2, 0x1_0000);
    Pow256Doubles(4, 0x1_0000_0000);
    Pow256Doubles(8, 0x1_0000_0000_0000_0000);
    Pow256Doubles(16, 0x1_0000_0000_0000_0000_0000_0000_0000_0000);
  }

  /** Compression loses nothing: every point of the curve is decoded from its bytes. */
  lemma {:induction false} PointRoundTrip(d: int, i: int, p: Affine)
    requires Field() && NonSquare(d) && RootOfMinusOne(i) && OnCurve(d, p) && Canonical(p)
    ensures DecodePoint(d, i, EncodePoint(p)) == Some(p)
  {
    EncodedValue(p);
    RecoversX(d, i, p);
    CurveIsChecked(d, p);
  }

  // ----- signing and verifying ------------------------------------------------------------

  datatype Scheme = Scheme(d: int, i: int, base: Affine, hash: Bytes -> Bytes)

  /** The hypotheses: the field, the curve, the order of the base point and the length of a hash. */
  ghost predicate Sound(c: Scheme) {
    && Field() && NonSquare(c.d) && Associative(c.d) && RootOfMinusOne(c.i)
    && OnCurve(c.d, c.base) && Canonical(c.base) && Times(c.d, L, c.base) == ZERO
    && forall m :: |c.hash(m)| == 64
  }

  /** The constants of Ed25519 satisfy what can be computed of them. */
  lemma {:induction false} ConstantsAreSound(hash: Bytes -> Bytes)
    requires Field() && NonSquare(D) && Associative(D) && Times(D, L, BASE) == ZERO && forall m :: |hash(m)| == 64
    ensures Sound(Scheme(D, I, BASE, hash))
  {
    ConstantsAreRight();
    BaseIsOnCurve();
  }

  const SECRET_TOP: nat := 28948022309329048855892746252171976963317496166410141009864396001978282409984

  /** Bit 254 and the bits 3 to 253 of the hash of the seed. */
  function SecretScalar(h: Bytes): nat
    requires |h| == 64
  {
    var v := Little(h[..32]) % SECRET_TOP;
    SECRET_TOP + (v - v % 8)
  }

  function PublicKey(c: Scheme, seed: Bytes): (pk: Bytes)
    requires |c.hash(seed)| == 64
    ensures |pk| == 32
  {
    EncodePoint(Times(c.d, SecretScalar(c.hash(seed)), c.base))
  }

  function Response(r: nat, k: nat, a: nat): (t: Bytes)
    ensures |t| == 32
  {
    ToLittle((r + k * a) % L, 32)
  }

  /** The signature with nonce r and secret a. */
  function SignedWith(c: Scheme, m: Bytes, r: nat, a: nat, pk: Bytes): (s: Bytes)
    ensures |s| == 64
  {
    var R := EncodePoint(Times(c.d, r, c.base));
    R + Response(r, Little(c.hash(R + pk + m)), a)
  }

  function Signature(c: Scheme, m: Bytes, seed: Bytes, pk: Bytes): (s: Bytes)
    requires |c.hash(seed)| == 64
    ensures |s| == 64
  {
    var h := c.hash(seed);
    SignedWith(c, m, Little(c.hash(h[32..64] + m)), SecretScalar(h), pk)
  }

  /** What verification decides, in affine terms. */
  ghost predicate Accepts(c: Scheme, s: Bytes, m: Bytes, pk: Bytes) {
    && |s| == 64 && |pk| == 32
    && var R, A := DecodePoint(c.d, c.i, s[..32]), DecodePoint(c.d, c.i, pk);
       && R.Some? && A.Some?
       && Times(c.d, Little(s[32..]), c.base)
          == AffineSum(c.d, R.value, Times(c.d, Little(c.hash(EncodePoint(R.value) + pk + m)), A.value))
  }

  lemma {:induction false} TimesRoundTrip(c: Scheme, e: nat)
    requires Sound(c)
    ensures DecodePoint(c.d, c.i, EncodePoint(Times(c.d, e, c.base))) == Some(Times(c.d, e, c.base))
  {
    TimesOnCurve(c.d, e, c.base);
    PointRoundTrip(c.d, c.i, Times(c.d, e, c.base));
  }

  lemma {:induction false} ScalarBytes(n: nat)
    ensures Little(ToLittle(n % L, 32)) == n % L
  {
    TwoTops();
    WrittenRoundTrip(n % L, Zeros(32));
  }

  lemma {:induction false} Concatenated(R: Bytes, t: Bytes)
    requires |R| == 32
    ensures (R + t)[..32] == R && (R + t)[32..] == t
  {
  }

  /** The decoded points of the nonce and of the key satisfy the equation with the scalar that was sent. */
  lemma {:induction false} EquationIsAccepted(c: Scheme, m: Bytes, R: Affine, A: Affine, pk: Bytes, t: Bytes)
    requires |t| == 32 && pk == EncodePoint(A)
    requires DecodePoint(c.d, c.i, EncodePoint(R)) == Some(R) && DecodePoint(c.d, c.i, EncodePoint(A)) == Some(A)
    requires Times(c.d, Little(t), c.base) == AffineSum(c.d, R, Times(c.d, Little(c.hash(EncodePoint(R) + pk + m)), A))
    ensures Accepts(c, EncodePoint(R) + t, m, pk)
  {
    Concatenated(EncodePoint(R), t);
  }

  lemma {:induction false} EquationHolds(c: Scheme, r: nat, a: nat, k: nat)
    requires Sound(c)
    ensures Times(c.d, Little(Response(r, k, a)), c.base)
      == AffineSum(c.d, Times(c.d, r, c.base), Times(c.d, k, Times(c.d, a, c.base)))
  {
    ScalarBytes(r + k * a);
    SignatureSatisfiesEquation(c.d, r, k, a, c.base);
  }

  lemma {:induction false} SignedWithIsAccepted(c: Scheme, m: Bytes, r: nat, a: nat, pk: Bytes)
    requires Sound(c) && pk == EncodePoint(Times(c.d, a, c.base))
    ensures Accepts(c, SignedWith(c, m, r, a, pk), m, pk)
  {
    var R := EncodePoint(Times(c.d, r, c.base));
    var k := Little(c.hash(R + pk + m));
    TimesRoundTrip(c, r);
    TimesRoundTrip(c, a);
    EquationHolds(c, r, a, k);
    EquationIsAccepted(c, m, Times(c.d, r, c.base), Times(c.d, a, c.base), pk, Response(r, k, a));
  }

  /** Every signature is accepted, for every message, seed and hash. */
  lemma {:induction false} SignaturesVerify(c: Scheme, m: Bytes, seed: Bytes)
    requires Sound(c)
    ensures var pk := PublicKey(c, seed); Accepts(c, Signature(c, m, seed, pk), m, pk)
  {
    var h := c.hash(seed);
    SignedWithIsAccepted(c, m, Little(c.hash(h[32..64] + m)), SecretScalar(h), PublicKey(c, seed));
  }

  /**
  The bytes of a signature: the point of the nonce, which is the 64-byte hash of the second half of the seed's
  hash and the message, and the nonce plus the secret times the hash of that point, the key and the message.
  */
  lemma {:induction false} SignatureIs(c: Scheme, m: Bytes, seed: Bytes, pk: Bytes)
    requires forall m :: |c.hash(m)| == 64
    ensures var s := Signature(c, m, seed, pk); var h := c.hash(seed);
      var r := Little(c.hash(h[32..64] + m)); var k := Little(c.hash(s[..32] + pk + m));
      s[..32] == EncodePoint(Times(c.d, r, c.base)) && Little(s[32..]) == (r + k * SecretScalar(h)) % L
  {
    var h := c.hash(seed);
    var r := Little(c.hash(h[32..64] + m));
    var R := EncodePoint(Times(c.d, r, c.base));
    var k := Little(c.hash(R + pk + m));
    Concatenated(R, Response(r, k, SecretScalar(h)));
    ScalarBytes(r + k * SecretScalar(h));
  }

  /** A point in bytes is its y, with the parity of its x in the top bit; a key is the secret's multiple of the base. */
  lemma {:induction false} KeyIs(c: Scheme, seed: Bytes)
    requires Sound(c)
    ensures var p := Times(c.d, SecretScalar(c.hash(seed)), c.base); var n := Little(PublicKey(c, seed));
      n % TOP == p.y && n / TOP % 2 == p.x % 2
  {
    TimesOnCurve(c.d, SecretScalar(c.hash(seed)), c.base);
    EncodedValue(Times(c.d, SecretScalar(c.hash(seed)), c.base));
  }

  method MultiplyBase(c: Scheme, e: nat) returns (p: Affine)
    requires Sound(c)
    ensures p == Times(c.d, e, c.base)
  {
    ToExtendedRepresents(c.base);
    var P := ScalarMult(c.d, ToExtended(c.base), e, c.base);
    TimesOnCurve(c.d, e, c.base);
    ToAffineInverts(P, Times(c.d, e, c.base));
    p := ToAffine(P);
  }

  method SignWith(c: Scheme, m: Bytes, r: nat, a: nat, pk: Bytes) returns (s: Bytes)
    requires Sound(c)
    ensures s == SignedWith(c, m, r, a, pk)
  {
    var point := MultiplyBase(c, r);
    var R := EncodePoint(point);
    s := R + Response(r, Little(c.hash(R + pk + m)), a);
  }

  method Sign(c: Scheme, m: Bytes, seed: Bytes) returns (s: Bytes)
    requires Sound(c)
    ensures s == Signature(c, m, seed, PublicKey(c, seed)) && Accepts(c, s, m, PublicKey(c, seed))
  {
    SignaturesVerify(c, m, seed);
    var h := c.hash(seed);
    var A := MultiplyBase(c, SecretScalar(h));
    s := SignWith(c, m, Little(c.hash(h[32..64] + m)), SecretScalar(h), EncodePoint(A));
  }

  /** False for whatever the verifier refuses: a wrong length, a point off the curve, a wrong equation. */
  method Verify(c: Scheme, s: Bytes, m: Bytes, pk: Bytes) returns (ok: bool)
    requires Sound(c)
    ensures ok <==> Accepts(c, s, m, pk)
  {
    if |s| != 64 || |pk| != 32 {
      return false;
    }
    var R, A := DecodePoint(c.d, c.i, s[..32]), DecodePoint(c.d, c.i, pk);
    if R == None || A == None {
      return false;
    }
    CurveIsChecked(c.d, R.value);
    CurveIsChecked(c.d, A.value);
    ok := CheckEquation(c.d, c.base, Little(s[32..]), R.value, A.value, Little(c.hash(EncodePoint(R.value) + pk + m)));
  }
}
