/** Poly1305 (section 2.5 of RFC 8439): the accumulator loop computes the polynomial of the blocks at r. */
module Poly1305 {
  import opened ByteStrings

  const P: nat := 1361129467683753853853498429727072845819
  const P128: nat := 340282366920938463463374607431768211456

  /** x mod 2^130 - 5, by as many subtractions as it takes. */
  function ModP(x: nat): (r: nat)
    ensures r < P
  {
    if x < P then x else ModP(x - P)
  }

  function Wraps(x: nat): nat {
    if x < P then 0 else 1 + Wraps(x - P)
  }

  lemma {:induction false} ModPIsRemainder(x: nat)
    ensures ModP(x) == x % P && x == ModP(x) + Wraps(x) * P
  {
    if x >= P {
      ModPIsRemainder(x - P);
    }
  }

  lemma {:induction false} ModPShift(x: nat, k: nat)
    ensures ModP(x + k * P) == ModP(x)
  {
    if k > 0 {
      ModPShift(x, k - 1);
      assert x + k * P - P == x + (k - 1) * P;
    }
  }

  lemma {:induction false} ScaledWraps(x: nat, m: nat, w: nat, n: nat, r: nat)
    requires x == m + w * P
    ensures w * r >= 0 && (x + n) * r == (m + n) * r + (w * r) * P
  {
  }

  /** Reducing the accumulator before the next block changes nothing. */
  lemma {:induction false} StepReduces(x: nat, n: nat, r: nat)
    ensures ModP((ModP(x) + n) * r) == ModP((x + n) * r)
  {
    ModPIsRemainder(x);
    ScaledWraps(x, ModP(x), Wraps(x), n, r);
    ModPShift((ModP(x) + n) * r, Wraps(x) * r);
  }

  // ----- the polynomial -------------------------------------------------------------------

  function Pow(r: nat, n: nat): nat {
    if n == 0 then 1 else r * Pow(r, n - 1)
  }

  /** c1 r^n + c2 r^(n-1) + ... + cn r. */
  function Polynomial(c: seq<nat>, r: nat): nat {
    if c == [] then 0 else c[0] * Pow(r, |c|) + Polynomial(c[1..], r)
  }

  function Horner(c: seq<nat>, r: nat): nat {
    if c == [] then 0 else (Horner(c[..|c| - 1], r) + c[|c| - 1]) * r
  }

  lemma {:induction false} TermGrows(c: nat, r: nat, p: nat, q: nat, x: nat)
    ensures c * (r * p) + (q + x) * r == (c * p + q + x) * r
  {
  }

  /** One more coefficient multiplies everything before it by r once more. */
  lemma {:induction false} PolynomialExtends(c: seq<nat>, x: nat, r: nat)
    ensures Polynomial(c + [x], r) == (Polynomial(c, r) + x) * r
  {
    if c == [] {
      assert [x][1..] == [] && Pow(r, 1) == r * Pow(r, 0);
    } else {
      PolynomialExtends(c[1..], x, r);
      assert (c + [x])[1..] == c[1..] + [x];
      TermGrows(c[0], r, Pow(r, |c|), Polynomial(c[1..], r), x);
    }
  }

  lemma {:induction false} HornerIsPolynomial(c: seq<nat>, r: nat)
    ensures Horner(c, r) == Polynomial(c, r)
  {
    if c != [] {
      HornerIsPolynomial(c[..|c| - 1], r);
      PolynomialExtends(c[..|c| - 1], c[|c| - 1], r);
      assert c[..|c| - 1] + [c[|c| - 1]] == c;
    }
  }

  // ----- the authenticator ----------------------------------------------------------------

  /** Up to sixteen bytes, little-endian, with a one bit appended. */
  function Coefficient(block: Bytes): nat {
    Little(block) + Pow256(|block|)
  }

  function BlockCount(msg: Bytes): nat {
    (|msg| + 15) / 16
  }

  function Block(msg: Bytes, i: nat): Bytes
    requires i < BlockCount(msg)
  {
    if 16 * i + 16 <= |msg| then msg[16 * i..16 * i + 16] else msg[16 * i..]
  }

  function Coefficients(msg: Bytes): seq<nat> {
    seq(BlockCount(msg), i requires 0 <= i < BlockCount(msg) => Coefficient(Block(msg, i)))
  }

  /** The mask clears the top four bits of every fourth byte and the low two bits of the byte after it. */
  function Masked(key: Bytes): (s: Bytes)
    requires |key| == 32
    ensures |s| == 16
  {
    [key[0], key[1], key[2], key[3] % 16, key[4] - key[4] % 4, key[5], key[6], key[7] % 16,
            key[8] - key[8] % 4, key[9], key[10], key[11] % 16, key[12] - key[12] % 4, key[13], key[14], key[15] % 16]
  }

  function ClampedR(key: Bytes): nat
    requires |key| == 32
  {
    Little(Masked(key))
  }

  /** The tag as the polynomial of the message. */
  function Tag(msg: Bytes, key: Bytes): (t: Bytes)
    requires |key| == 32
    ensures |t| == 16
  {
    ToLittle((Polynomial(Coefficients(msg), ClampedR(key)) % P + Little(key[16..])) % P128, 16)
  }

  /** Evaluates the blocks' polynomial by Horner's rule, reducing at every block. */
  method Accumulate(msg: Bytes, r: nat) returns (acc: nat)
    ensures acc == Polynomial(Coefficients(msg), r) % P
  {
    acc := 0;
    ghost var c := Coefficients(msg);
    var i := 0;
    while i < BlockCount(msg)
      invariant 0 <= i <= BlockCount(msg)
      invariant acc == ModP(Horner(c[..i], r))
    {
      var n := Coefficient(Block(msg, i));
      assert c[..i + 1][..i] == c[..i] && c[i] == n;
      StepReduces(Horner(c[..i], r), n, r);
      acc := ModP((acc + n) * r);
      i := i + 1;
    }
    assert c[..|c|] == c;
    HornerIsPolynomial(c, r);
    ModPIsRemainder(Polynomial(c, r));
  }

  method Mac(msg: Bytes, key: Bytes) returns (t: Bytes)
    requires |key| == 32
    ensures t == Tag(msg, key)
  {
    var r, s := ClampedR(key), Little(key[16..]);
    var acc := Accumulate(msg, r);
    t := ToLittle((acc + s) % P128, 16);
  }

  // ----- what the tag says about the message ----------------------------------------------

  lemma {:induction false} LittleIsSmall(b: Bytes)
    ensures Little(b) < Pow256(|b|)
  {
    if b != [] {
      LittleIsSmall(b[1..]);
    }
  }

  lemma {:induction false} LittleIsInjective(a: Bytes, b: Bytes)
    requires |a| == |b| && Little(a) == Little(b)
    ensures a == b
  {
    if a != [] {
      LittleIsInjective(a[1..], b[1..]);
      assert a == [a[0]] + a[1..] && b == [b[0]] + b[1..];
    }
  }

  lemma {:induction false} PowersGrow(m: nat, n: nat)
    requires m < n
    ensures 2 * Pow256(m) <= Pow256(n)
  {
    if m + 1 < n {
      PowersGrow(m, n - 1);
    }
  }

  /** The one bit appended tells blocks of different lengths apart. */
  lemma {:induction false} CoefficientIsInjective(a: Bytes, b: Bytes)
    requires Little(a) + Pow256(|a|) == Little(b) + Pow256(|b|)
    ensures a == b
  {
    LittleIsSmall(a);
    LittleIsSmall(b);
    if |a| < |b| {
      PowersGrow(|a|, |b|);
    } else if |b| < |a| {
      PowersGrow(|b|, |a|);
    }
    LittleIsInjective(a, b);
  }

  /** The coefficients are the blocks of sixteen bytes, little-endian, each with a one bit above its last byte. */
  lemma {:induction false} CoefficientsAre(msg: Bytes, i: nat)
    requires 16 * i < |msg|
    ensures var c := Coefficients(msg); var b := if 16 * i + 16 <= |msg| then msg[16 * i..16 * i + 16] else msg[16 * i..];
      && 16 * (|c| - 1) < |msg| <= 16 * |c|
      && c[i] == Little(b) + Pow256(|b|) && 0 < c[i] < P
  {
    var b := if 16 * i + 16 <= |msg| then msg[16 * i..16 * i + 16] else msg[16 * i..];
    LittleIsSmall(b);
    if |b| < 16 {
      PowersGrow(|b|, 16);
    }
    SixteenBytes();
  }

  lemma {:induction false} SixteenBytes()
    ensures Pow256(16) == P128 && 2 * P128 < P
  {
    assert Pow256(2) == 256 * Pow256(1) == 0x1_0000;
    Pow256Doubles(2, 0x1_0000);
    Pow256Doubles(4, 0x1_0000_0000);
    Pow256Doubles(8, 0x1_0000_0000_0000_0000);
  }

  /** Different messages have different polynomials, coefficient by coefficient. */
  lemma {:induction false} CoefficientsAreInjective(m: Bytes, n: Bytes)
    requires Coefficients(m) == Coefficients(n)
    ensures m == n
  {
    if m != [] && n != [] {
      var last := BlockCount(m) - 1;
      CoefficientsAre(m, last);
      CoefficientsAre(n, last);
      assert Coefficient(Block(m, last)) == Coefficients(m)[last] == Coefficients(n)[last] == Coefficient(Block(n, last));
      CoefficientIsInjective(Block(m, last), Block(n, last));
      assert |m| == |n|;
      forall k | 0 <= k < |m| ensures m[k] == n[k] {
        var i := k / 16;
        assert Coefficient(Block(m, i)) == Coefficients(m)[i] == Coefficients(n)[i] == Coefficient(Block(n, i));
        CoefficientIsInjective(Block(m, i), Block(n, i));
        assert Block(m, i)[k - 16 * i] == m[k] && Block(n, i)[k - 16 * i] == n[k];
      }
    } else {
      assert |Coefficients(m)| == |Coefficients(n)|;
    }
  }

  /** The tag's number is the polynomial of the blocks at r, mod 2^130 - 5, plus s, mod 2^128. */
  predicate Right(msg: Bytes, key: Bytes, t: Bytes)
    requires |key| == 32
  {
    |t| == 16 && Little(t) == (Polynomial(Coefficients(msg), ClampedR(key)) % P + Little(key[16..])) % P128
  }

  lemma {:induction false} TagIsRight(msg: Bytes, key: Bytes, t: Bytes)
    requires |key| == 32
    ensures t == Tag(msg, key) <==> Right(msg, key, t)
  {
    var n := (Polynomial(Coefficients(msg), ClampedR(key)) % P + Little(key[16..])) % P128;
    SixteenBytes();
    WrittenRoundTrip(n, Zeros(16));
    if |t| == 16 && Little(t) == n {
      LittleIsInjective(t, Tag(msg, key));
    }
  }

  /** Two values that give one tag differ by one of seven multiples of 2^128, mod 2^130 - 5. */
  lemma {:induction false} SameTag(x: nat, y: nat, s: nat) returns (k: int)
    requires (x % P + s) % P128 == (y % P + s) % P128
    ensures -4 < k < 4 && x % P - y % P == k * P128
  {
    var a: int, b: int := x % P + s, y % P + s;
    k := a / P128 - b / P128;
    assert a - b == k * P128;
  }

  /**
  One tag right for two messages makes r a root of one of seven equations between two polynomials that differ
  in length or in a coefficient.
  */
  lemma {:induction false} OneTagTwoMessages(m: Bytes, n: Bytes, key: Bytes, t: Bytes) returns (k: int)
    requires |key| == 32 && m != n && Right(m, key, t) && Right(n, key, t)
    ensures Coefficients(m) != Coefficients(n) && -4 < k < 4
    ensures Polynomial(Coefficients(m), ClampedR(key)) % P - Polynomial(Coefficients(n), ClampedR(key)) % P == k * P128
  {
    if Coefficients(m) == Coefficients(n) {
      CoefficientsAreInjective(m, n);
    }
    var r := ClampedR(key);
    k := SameTag(Polynomial(Coefficients(m), r), Polynomial(Coefficients(n), r), Little(key[16..]));
  }
}
