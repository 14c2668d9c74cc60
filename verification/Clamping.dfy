/** The three places where bits of a secret are masked, told bit by bit: X25519, Ed25519 and Poly1305. */
module Clamping {
  import opened ByteStrings
  import opened Shifts
  import EdwardsArithmetic
  import EdwardsSignature
  import FieldArithmetic
  import Poly1305
  import X25519

  // ----- bits of byte strings -------------------------------------------------------------

  lemma {:induction false} ShiftedByte(e: nat, b: nat)
    requires b <= 8
    ensures Shifted(e, b)
      == if b == 0 then e else if b == 1 then e / 2 else if b == 2 then e / 4 else if b == 3 then e / 8
         else if b == 4 then e / 16 else if b == 5 then e / 32 else if b == 6 then e / 64
         else if b == 7 then e / 128 else e / 256
  {
    if b > 0 {
      ShiftedByte(e / 2, b - 1);
    }
  }

  lemma {:induction false} Remainder(y: nat, m: nat, q: nat, r: nat)
    requires r < m && y == m * q + r
    ensures y % m == r
  {
    SameQuotient(m, q, r, y / m, y % m);
  }

  lemma {:induction false} Exceeds(m: nat, q: nat, d: nat)
    requires d > 0
    ensures m * (q + d) >= m * q + m
    decreases d
  {
    if d > 1 {
      Exceeds(m, q, d - 1);
    }
    assert m * (q + d) == m * (q + d - 1) + m;
  }

  lemma {:induction false} SameQuotient(m: nat, q: nat, r: nat, p: nat, t: nat)
    requires r < m && t < m && m * q + r == m * p + t
    ensures r == t
  {
    if p > q {
      Exceeds(m, q, p - q);
    } else if p < q {
      Exceeds(m, p, q - p);
    }
  }

  /** The low k bits of x, and x without them. */
  function Low(x: nat, k: nat): nat {
    if k == 0 then 0 else x % 2 + 2 * Low(x / 2, k - 1)
  }

  function High(x: nat, k: nat): nat {
    if k == 0 then x else 2 * High(x / 2, k - 1)
  }

  lemma {:induction false} Doubled(p: nat, h: nat, l: nat, x: nat, d: nat)
    requires x / 2 == l + p * h && d == x % 2
    ensures x == d + 2 * l + (2 * p) * h
  {
    assert 2 * (p * h) == (2 * p) * h;
  }

  lemma {:induction false} LowAndHigh(x: nat, k: nat)
    ensures x == Low(x, k) + High(x, k)
    ensures x == Low(x, k) + Pow2(k) * Shifted(x, k) && Low(x, k) < Pow2(k)
  {
    if k > 0 {
      LowAndHigh(x / 2, k - 1);
      Doubled(Pow2(k - 1), Shifted(x, k), Low(x / 2, k - 1), x, x % 2);
    }
  }

  lemma {:induction false} LowIsRemainder(x: nat, k: nat, m: nat)
    requires Pow2(k) == m
    ensures x % m == Low(x, k) && x - x % m == High(x, k)
  {
    LowAndHigh(x, k);
    Remainder(x, m, Shifted(x, k), Low(x, k));
  }

  lemma {:induction false} LowBits(x: nat, k: nat, b: nat)
    ensures Bit(Low(x, k), b) <==> b < k && Bit(x, b)
  {
    if k == 0 {
      NoBits(b);
    } else if b > 0 {
      LowBits(x / 2, k - 1, b - 1);
      assert Low(x, k) / 2 == Low(x / 2, k - 1);
    }
  }

  lemma {:induction false} HighBits(x: nat, k: nat, b: nat)
    ensures Bit(High(x, k), b) <==> b >= k && Bit(x, b)
  {
    if k > 0 && b > 0 {
      HighBits(x / 2, k - 1, b - 1);
      assert High(x, k) / 2 == High(x / 2, k - 1);
    }
  }

  /** A power of two over a smaller number sets its bit. */
  lemma {:induction false} TopBit(x: nat, k: nat, b: nat)
    requires x < Pow2(k)
    ensures Bit(Pow2(k) + x, b) <==> b == k || Bit(x, b)
  {
    if k > 0 && b > 0 {
      TopBit(x / 2, k - 1, b - 1);
    } else if b > 0 {
      NoBits(b - 1);
      NoBits(b);
    }
  }

  /** Bit b of byte j of a little-endian number. */
  lemma {:induction false} BitOfLittle(s: Bytes, j: nat, b: nat)
    requires j < |s| && b < 8
    ensures Bit(Little(s), 8 * j + b) <==> Bit(s[j], b)
  {
    if j == 0 {
      assert Pow2(8) == 256;
      BitUnder(s[0], Little(s[1..]), 8, b);
    } else {
      ShiftsAdd(Little(s), 8, 8 * (j - 1) + b);
      ShiftedByte(Little(s), 8);
      BitOfLittle(s[1..], j - 1, b);
    }
  }

  lemma {:induction false} BitUnder(x: nat, m: nat, k: nat, b: nat)
    requires b < k
    ensures Bit(x + Pow2(k) * m, b) <==> Bit(x, b)
  {
    var h := Pow2(k - 1) * m;
    assert Pow2(k) * m == 2 * h;
    if b > 0 {
      BitUnder(x / 2, m, k - 1, b - 1);
      assert (x + 2 * h) / 2 == x / 2 + h;
    }
  }

  /** What each mask leaves of a byte. */
  lemma {:induction false} MaskedBits(x: Byte, b: nat)
    requires b < 8
    ensures Bit(x % 16, b) <==> b < 4 && Bit(x, b)
    ensures Bit(x - x % 4, b) <==> b >= 2 && Bit(x, b)
    ensures Bit(x - x % 8, b) <==> b >= 3 && Bit(x, b)
  {
    LowIsRemainder(x, 4, 16);
    LowBits(x, 4, b);
    LowIsRemainder(x, 2, 4);
    HighBits(x, 2, b);
    LowIsRemainder(x, 3, 8);
    HighBits(x, 3, b);
  }

  lemma {:induction false} TopByte(x: Byte, b: nat)
    requires b < 8
    ensures Bit(x % 64 + 64, b) <==> b == 6 || (b < 6 && Bit(x, b))
  {
    LowIsRemainder(x, 6, 64);
    LowBits(x, 6, b);
    TopBit(x % 64, 6, b);
  }

  // ----- X25519 ---------------------------------------------------------------------------

  /** Bits 3 to 253 are the scalar's own, bit 254 is set, and no other is. */
  lemma {:induction false} ScalarBits(s: Bytes, i: nat)
    requires |s| == 32 && i < 256
    ensures Bit(Little(X25519.Clamped(s)), i) <==> i == 254 || (3 <= i < 254 && Bit(Little(s), i))
  {
    var j, b := i / 8, i % 8;
    BitOfLittle(s, j, b);
    BitOfLittle(X25519.Clamped(s), j, b);
    MaskedBits(s[j], b);
    TopByte(s[j], b);
  }

  // ----- Ed25519 --------------------------------------------------------------------------

  lemma {:induction false} PowersOfTwoAdd(m: nat, n: nat)
    ensures Pow2(m + n) == Pow2(m) * Pow2(n)
  {
    if m > 0 {
      PowersOfTwoAdd(m - 1, n);
      assert 2 * (Pow2(m - 1) * Pow2(n)) == Pow2(m) * Pow2(n);
    }
  }

  /** The literals of the moduli and of the masks, as powers of two. */
  lemma {:induction false} LargePowers()
    ensures Pow2(128) == Poly1305.P128 && 4 * Pow2(128) == Poly1305.P + 5
    ensures 4 * (EdwardsArithmetic.L - 27742317777372353535851937790883648493) == Pow2(254)
    ensures Pow2(254) == EdwardsSignature.SECRET_TOP && 2 * Pow2(254) == EdwardsSignature.TOP == FieldArithmetic.Q + 19
  {
    assert Pow2(8) == 0x100;
    PowersOfTwoAdd(8, 8);
    PowersOfTwoAdd(16, 16);
    PowersOfTwoAdd(32, 32);
    PowersOfTwoAdd(64, 64);
    PowersOfTwoAdd(128, 126);
    PowersOfTwoAdd(126, 2);
  }

  /** The same mask on the first half of the hash of the seed, bit for bit and with no other bit anywhere. */
  lemma {:induction false} SecretBits(h: Bytes, i: nat)
    requires |h| == 64
    ensures Bit(EdwardsSignature.SecretScalar(h), i) <==> i == 254 || (3 <= i < 254 && Bit(Little(h[..32]), i))
  {
    var n := Little(h[..32]);
    var v := n % EdwardsSignature.SECRET_TOP;
    LargePowers();
    LowIsRemainder(n, 254, EdwardsSignature.SECRET_TOP);
    LowBits(n, 254, i);
    LowIsRemainder(v, 3, 8);
    HighBits(v, 3, i);
    TopBit(High(v, 3), 254, i);
  }

  // ----- Poly1305 -------------------------------------------------------------------------

  lemma {:induction false} MaskedByte(key: Bytes, j: nat)
    requires |key| == 32 && j < 16
    ensures Poly1305.Masked(key)[j]
      == if j % 4 == 3 then key[j] % 16 else if j % 4 == 0 && j > 0 then key[j] - key[j] % 4 else key[j]
  {
  }

  lemma {:induction false} BitPlace(i: nat)
    ensures i == 8 * (i / 8) + i % 8 && i % 32 == 8 * (i / 8 % 4) + i % 8
  {
  }

  /** The multiplier clears the top four bits of every word and the low two bits of every word but the first. */
  lemma {:induction false} MultiplierBits(key: Bytes, i: nat)
    requires |key| == 32 && i < 128
    ensures Bit(Poly1305.ClampedR(key), i) <==> Bit(Little(key[..16]), i) && i % 32 < 28 && (i < 32 || i % 32 >= 2)
  {
    var j, b := i / 8, i % 8;
    BitPlace(i);
    BitOfLittle(key[..16], j, b);
    BitOfLittle(Poly1305.Masked(key), j, b);
    MaskedByte(key, j);
    MaskedBits(key[j], b);
  }
}
