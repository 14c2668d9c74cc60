/**
X25519 (section 5 of RFC 7748): the Montgomery ladder with delayed swaps refines the textbook ladder,
which climbs from (0, 1) to (k, k + 1) over the bits of the clamped scalar.
*/
module X25519 {
  import opened ByteStrings
  import opened FieldArithmetic
  import opened Shifts

  /** A quarter of the curve's coefficient less two; the arithmetic below takes it as `t`. */
  const A24: int := 121665

  /** A projective u-coordinate X / Z. */
  datatype Rung = Rung(X: int, Z: int)

  datatype Pair = Pair(low: Rung, high: Rung)

  function Double(t: int, r: Rung): Rung {
    var A, B := Mod(r.X + r.Z), Mod(r.X - r.Z);
    var AA, BB := Mod(A * A), Mod(B * B);
    var E := Mod(AA - BB);
    Rung(Mod(AA * BB), Mod(E * (AA + t * E)))
  }

  /** The differential sum of two points whose difference has coordinate u. */
  function Add(u: int, r: Rung, s: Rung): Rung {
    var DA := Mod(Mod(s.X - s.Z) * Mod(r.X + r.Z));
    var CB := Mod(Mod(s.X + s.Z) * Mod(r.X - r.Z));
    Rung(Mod((DA + CB) * (DA + CB)), Mod(u * Mod((DA - CB) * (DA - CB))))
  }

  lemma {:induction false} SquaresAgree(a: int, b: int)
    ensures (a + b) * (a + b) == (b + a) * (b + a) && (a - b) * (a - b) == (b - a) * (b - a)
  {
  }

  /** The differential sum does not depend on the order of its points. */
  lemma {:induction false} AddIsSymmetric(u: int, r: Rung, s: Rung)
    ensures Add(u, r, s) == Add(u, s, r)
  {
    var DA := Mod(Mod(s.X - s.Z) * Mod(r.X + r.Z));
    var CB := Mod(Mod(s.X + s.Z) * Mod(r.X - r.Z));
    Commute(Mod(s.X - s.Z), Mod(r.X + r.Z));
    Commute(Mod(s.X + s.Z), Mod(r.X - r.Z));
    SquaresAgree(DA, CB);
  }

  // ----- the textbook ladder --------------------------------------------------------------

  /** One bit: the pair (n, n + 1) becomes (2n, 2n + 1) or (2n + 1, 2n + 2). */
  function Climb(t: int, u: int, p: Pair, bit: bool): Pair {
    if bit then Pair(Add(u, p.low, p.high), Double(t, p.high)) else Pair(Double(t, p.low), Add(u, p.low, p.high))
  }

  /** The pair after the given bits, most significant first. */
  function Ladder(t: int, u: int, bits: seq<bool>): Pair {
    if bits == [] then Pair(Rung(1, 0), Rung(u, 1))
    else Climb(t, u, Ladder(t, u, bits[..|bits| - 1]), bits[|bits| - 1])
  }

  /** Any family of multiples that doubling and differential addition respect. */
  ghost predicate Respects(t: int, u: int, multiple: (Rung, int) -> bool) {
    && multiple(Rung(1, 0), 0) && multiple(Rung(u, 1), 1)
    && (forall r, n :: multiple(r, n) ==> multiple(Double(t, r), 2 * n))
    && (forall r, s, n :: multiple(r, n) && multiple(s, n + 1) ==> multiple(Add(u, r, s), 2 * n + 1))
  }

  lemma {:induction false} ClimbStep(t: int, u: int, p: Pair, bit: bool, n: int, multiple: (Rung, int) -> bool)
    requires Respects(t, u, multiple) && multiple(p.low, n) && multiple(p.high, n + 1)
    ensures var q := Climb(t, u, p, bit); var m := 2 * n + (if bit then 1 else 0);
      multiple(q.low, m) && multiple(q.high, m + 1)
  {
    assert multiple(Add(u, p.low, p.high), 2 * n + 1);
    if bit {
      assert multiple(Double(t, p.high), 2 * (n + 1));
    } else {
      assert multiple(Double(t, p.low), 2 * n);
    }
  }

  /** The ladder climbs to the multiples n and n + 1, where n is the value of its bits. */
  lemma {:induction false} LadderClimbs(t: int, u: int, bits: seq<bool>, multiple: (Rung, int) -> bool)
    requires Respects(t, u, multiple)
    ensures multiple(Ladder(t, u, bits).low, ValueOf(bits)) && multiple(Ladder(t, u, bits).high, ValueOf(bits) + 1)
  {
    if bits != [] {
      var rest := bits[..|bits| - 1];
      LadderClimbs(t, u, rest, multiple);
      ClimbStep(t, u, Ladder(t, u, rest), bits[|bits| - 1], ValueOf(rest), multiple);
    }
  }

  /** The climb over the bits of k reaches the k-th multiple. */
  lemma {:induction false} LadderReachesMultiple(t: int, u: int, k: nat, n: nat, multiple: (Rung, int) -> bool)
    requires Shifted(k, n) == 0 && Respects(t, u, multiple)
    ensures multiple(Ladder(t, u, BitsOf(k, n)).low, k)
  {
    BitsValue(k, n);
    LadderClimbs(t, u, BitsOf(k, n), multiple);
  }

  // ----- the delayed-swap ladder ----------------------------------------------------------

  const BITS: nat := 255

  function Swapped(p: Pair): Pair {
    Pair(p.high, p.low)
  }

  /** Swaps only when a bit differs from the one before, and once more at the end. */
  method DelayedLadder(t: int, u: int, k: nat) returns (r: Rung)
    ensures r == Ladder(t, u, BitsOf(k, BITS)).low
  {
    var x2, z2, x3, z3, swap := 1, 0, u, 1, false;
    ghost var bits := BitsOf(k, BITS);
    var i := BITS;
    while i > 0
      invariant 0 <= i <= BITS
      invariant Ladder(t, u, bits[..BITS - i]) ==
        if swap then Swapped(Pair(Rung(x2, z2), Rung(x3, z3))) else Pair(Rung(x2, z2), Rung(x3, z3))
    {
      i := i - 1;
      var bit := Bit(k, i);
      assert bits[..BITS - i][..BITS - i - 1] == bits[..BITS - i - 1] && bits[BITS - 1 - i] == bit;
      if swap != bit {
        x2, x3 := x3, x2;
        z2, z3 := z3, z2;
      }
      swap := bit;
      AddIsSymmetric(u, Rung(x2, z2), Rung(x3, z3));
      x2, z2, x3, z3 := StepOnce(t, u, x2, z2, x3, z3);
    }
    assert bits[..BITS] == bits;
    if swap {
      x2, x3 := x3, x2;
      z2, z3 := z3, z2;
    }
    r := Rung(x2, z2);
  }

  /** The loop body's arithmetic: the first point is doubled, the second becomes the sum. */
  method StepOnce(t: int, u: int, x2: int, z2: int, x3: int, z3: int) returns (x4: int, z4: int, x5: int, z5: int)
    ensures Rung(x4, z4) == Double(t, Rung(x2, z2))
    ensures Rung(x5, z5) == Add(u, Rung(x2, z2), Rung(x3, z3))
  {
    var A := Mod(x2 + z2);
    var AA := Mod(A * A);
    var B := Mod(x2 - z2);
    var BB := Mod(B * B);
    var E := Mod(AA - BB);
    var C := Mod(x3 + z3);
    var D := Mod(x3 - z3);
    var DA := Mod(D * A);
    var CB := Mod(C * B);
    x5 := Mod((DA + CB) * (DA + CB));
    z5 := Mod(u * Mod((DA - CB) * (DA - CB)));
    x4 := Mod(AA * BB);
    z4 := Mod(E * (AA + t * E));
  }

  // ----- bytes ----------------------------------------------------------------------------

  /** Clears the low three bits and bit 255, and sets bit 254. */
  function Clamped(s: Bytes): Bytes
    requires |s| == 32
  {
    s[0 := s[0] - s[0] % 8][31 := s[31] % 64 + 64]
  }

  /** X / Z, by way of the inverse. */
  function Quotient(r: Rung): nat {
    ModIsSmall(r.X * Inv(r.Z));
    Mod(r.X * Inv(r.Z))
  }

  /** scalar and point are 32 bytes, little-endian; so is the result. */
  function Multiplied(t: int, scalar: Bytes, point: Bytes): (r: Bytes)
    requires |scalar| == 32 && |point| == 32
    ensures |r| == 32
  {
    ToLittle(Quotient(Ladder(t, Mod(Little(point)), BitsOf(Little(Clamped(scalar)), BITS)).low), 32)
  }

  function Scalarmult(scalar: Bytes, point: Bytes): (r: Bytes)
    requires |scalar| == 32 && |point| == 32
    ensures |r| == 32
  {
    Multiplied(A24, scalar, point)
  }

  method ComputeScalarmult(scalar: Bytes, point: Bytes) returns (r: Bytes)
    requires |scalar| == 32 && |point| == 32
    ensures r == Scalarmult(scalar, point)
  {
    var k := scalar;
    k := k[0 := k[0] - k[0] % 8];
    k := k[31 := k[31] % 128];
    k := k[31 := k[31] % 64 + 64];
    assert k == Clamped(scalar);
    var p := DelayedLadder(A24, Mod(Little(point)), Little(k));
    r := ToLittle(Quotient(p), 32);
  }

  /** The multiplication as a total function, as far as its callers check lengths. */
  function Multiply(scalar: Bytes, point: Bytes): (r: Bytes)
    ensures |r| == 32
  {
    if |scalar| == 32 && |point| == 32 then Scalarmult(scalar, point) else Zeros(32)
  }
}
