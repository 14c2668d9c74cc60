/** Byte strings, their little-endian values and their bitwise exclusive or. */
module ByteStrings {
  type Byte = x: int | 0 <= x < 256

  type Bytes = seq<Byte>

  function Zeros(n: nat): (s: Bytes)
    ensures |s| == n
  {
    seq(n, _ => 0)
  }

  function Little(s: Bytes): nat {
    if s == [] then 0 else s[0] + 256 * Little(s[1..])
  }

  function Pow256(n: nat): (r: nat)
    ensures r > 0
  {
    if n == 0 then 1 else 256 * Pow256(n - 1)
  }

  /** n written little-endian over the places of `field`. */
  function Written(n: nat, field: Bytes): (s: Bytes)
    ensures |s| == |field|
  {
    if field == [] then [] else [n % 256] + Written(n / 256, field[1..])
  }

  function ToLittle(n: nat, len: nat): (s: Bytes)
    ensures |s| == len
  {
    Written(n, Zeros(len))
  }

  lemma {:induction false} PowersMultiply(m: nat, n: nat)
    ensures Pow256(m + n) == Pow256(m) * Pow256(n)
  {
    if m > 0 {
      PowersMultiply(m - 1, n);
      assert Pow256(m + n) == 256 * Pow256(m - 1 + n);
      assert 256 * (Pow256(m - 1) * Pow256(n)) == (256 * Pow256(m - 1)) * Pow256(n);
    }
  }

  lemma {:induction false} Pow256Doubles(n: nat, x: nat)
    requires Pow256(n) == x
    ensures Pow256(n + n) == x * x
  {
    PowersMultiply(n, n);
  }

  lemma {:induction false} WrittenRoundTrip(n: nat, field: Bytes)
    requires n < Pow256(|field|)
    ensures Little(Written(n, field)) == n
  {
    if field != [] {
      var s := Written(n, field);
      assert s[1..] == Written(n / 256, field[1..]);
      WrittenRoundTrip(n / 256, field[1..]);
    }
  }

  /** Numbers that fit are told apart by their bytes. */
  lemma {:induction false} ToLittleIsInjective(m: nat, n: nat, len: nat)
    requires m < Pow256(len) && n < Pow256(len) && ToLittle(m, len) == ToLittle(n, len)
    ensures m == n
  {
    WrittenRoundTrip(m, Zeros(len));
    WrittenRoundTrip(n, Zeros(len));
  }

  // ----- exclusive or ---------------------------------------------------------------------

  /** Bit by bit. */
  function Xor(x: nat, y: nat): nat {
    if x == 0 && y == 0 then 0 else (x % 2 + y % 2) % 2 + 2 * Xor(x / 2, y / 2)
  }

  function Pow2(n: nat): (r: nat)
    ensures r > 0
  {
    if n == 0 then 1 else 2 * Pow2(n - 1)
  }

  lemma {:induction false} XorIsBounded(x: nat, y: nat, n: nat)
    requires x < Pow2(n) && y < Pow2(n)
    ensures Xor(x, y) < Pow2(n)
  {
    if n > 0 {
      XorIsBounded(x / 2, y / 2, n - 1);
    }
  }

  lemma {:induction false} XorOfNothing(x: nat)
    ensures Xor(x, 0) == x
  {
    if x > 0 {
      XorOfNothing(x / 2);
    }
  }

  lemma {:induction false} XorDigits(x: nat, y: nat)
    requires y > 0
    ensures Xor(x, y) / 2 == Xor(x / 2, y / 2) && Xor(x, y) % 2 == (x % 2 + y % 2) % 2
  {
    var h, b := Xor(x / 2, y / 2), (x % 2 + y % 2) % 2;
    assert Xor(x, y) == b + 2 * h;
  }

  lemma {:induction false} FromDigits(x: nat, y: nat, z: nat, w: nat)
    requires z % 2 == (x % 2 + y % 2) % 2 && w == (z % 2 + y % 2) % 2 + 2 * (x / 2)
    ensures w == x
  {
  }

  /** Twice the same mask changes nothing. */
  lemma {:induction false} XorUndone(x: nat, y: nat)
    ensures Xor(Xor(x, y), y) == x
  {
    if y == 0 {
      XorOfNothing(x);
    } else {
      var z := Xor(x, y);
      XorUndone(x / 2, y / 2);
      XorDigits(x, y);
      FromDigits(x, y, z, Xor(z, y));
    }
  }

  function XorByte(x: Byte, y: Byte): Byte {
    assert Pow2(8) == 256;
    XorIsBounded(x, y, 8);
    Xor(x, y)
  }
}
