/** Unpadded URL-safe base64. */
module Base64 {
  import opened ByteStrings
  import opened Wrappers

  function Symbol(n: nat): char
    requires n < 64
  {
    if n < 26 then ('A' as int + n) as char
    else if n < 52 then ('a' as int + n - 26) as char
    else if n < 62 then ('0' as int + n - 52) as char
    else if n == 62 then '-' else '_'
  }

  function ValueOf(c: char): Option<nat> {
    if 'A' <= c <= 'Z' then Some(c as int - 'A' as int)
    else if 'a' <= c <= 'z' then Some(c as int - 'a' as int + 26)
    else if '0' <= c <= '9' then Some(c as int - '0' as int + 52)
    else if c == '-' then Some(62)
    else if c == '_' then Some(63)
    else None
  }

  lemma {:induction false} SymbolHasValue(n: nat)
    requires n < 64
    ensures ValueOf(Symbol(n)) == Some(n)
  {
  }

  /** The first `count` symbols of 24 bits. */
  function Symbols(n: nat, count: nat): string
    requires n < 0x100_0000 && count <= 4
  {
    [Symbol(n / 0x4_0000), Symbol(n / 0x1000 % 64), Symbol(n / 64 % 64), Symbol(n % 64)][..count]
  }

  function Encode(b: Bytes): string {
    if |b| == 0 then ""
    else if |b| == 1 then Symbols(b[0] as int * 0x1_0000, 2)
    else if |b| == 2 then Symbols(b[0] as int * 0x1_0000 + b[1] as int * 0x100, 3)
    else Symbols(b[0] as int * 0x1_0000 + b[1] as int * 0x100 + b[2] as int, 4) + Encode(b[3..])
  }

  /** The first `count` bytes of 24 bits. */
  function Group(n: nat, count: nat): Bytes
    requires n < 0x100_0000 && count <= 3
  {
    [n / 0x1_0000, n / 0x100 % 256, n % 256][..count]
  }

  /** The 24 bits of up to four symbols. */
  function Joined(s: string): Option<nat>
    requires |s| <= 4
  {
    if |s| == 0 then Some(0)
    else
      var rest := Joined(s[1..]);
      var v := ValueOf(s[0]);
      if v == None || rest == None then None
      else Some(v.value * (match |s| case 1 => 1 case 2 => 64 case 3 => 0x1000 case _ => 0x4_0000) + rest.value)
  }

  function Padded(s: string): string
    requires |s| <= 4
  {
    s + ['A', 'A', 'A', 'A'][|s|..]
  }

  /** None for a symbol outside the alphabet or a single trailing symbol. */
  function Decode(s: string): Option<Bytes> {
    if |s| == 0 then Some([])
    else if |s| == 1 then None
    else if |s| < 4 then
      var n := Joined(Padded(s));
      if n == None || n.value >= 0x100_0000 then None else Some(Group(n.value, |s| - 1))
    else
      var n := Joined(s[..4]);
      var rest := Decode(s[4..]);
      if n == None || n.value >= 0x100_0000 || rest == None then None else Some(Group(n.value, 3) + rest.value)
  }

  lemma {:induction false} FourSymbols(a: nat, b: nat, c: nat, d: nat)
    requires a < 64 && b < 64 && c < 64 && d < 64
    ensures Joined([Symbol(a), Symbol(b), Symbol(c), Symbol(d)]) == Some(a * 0x4_0000 + b * 0x1000 + c * 64 + d)
  {
    SymbolHasValue(a);
    SymbolHasValue(b);
    SymbolHasValue(c);
    SymbolHasValue(d);
    var s1, s2, s3: string := [Symbol(d)], [Symbol(c), Symbol(d)], [Symbol(b), Symbol(c), Symbol(d)];
    assert s1[1..] == "" && Joined(s1) == Some(d);
    assert s2[1..] == s1 && Joined(s2) == Some(c * 64 + d);
    assert s3[1..] == s2 && Joined(s3) == Some(b * 0x1000 + c * 64 + d);
    assert [Symbol(a), Symbol(b), Symbol(c), Symbol(d)][1..] == s3;
  }

  lemma {:induction false} Halved(n: nat)
    ensures n / 64 / 64 == n / 0x1000 && n / 0x1000 / 64 == n / 0x4_0000
  {
  }

  /** A number below 2^24 is its four base-64 digits. */
  lemma {:induction false} FourDigits(n: nat)
    requires n < 0x100_0000
    ensures n / 0x4_0000 < 64
    ensures n / 0x4_0000 * 0x4_0000 + n / 0x1000 % 64 * 0x1000 + n / 64 % 64 * 64 + n % 64 == n
  {
    Halved(n);
    var a, b := n / 64, n / 0x1000;
    assert n == a * 64 + n % 64 && a == b * 64 + a % 64 && b == b / 64 * 64 + b % 64;
  }

  lemma {:induction false} JoinedSymbols(n: nat)
    requires n < 0x100_0000
    ensures Joined(Symbols(n, 4)) == Some(n)
  {
    FourDigits(n);
    FourSymbols(n / 0x4_0000, n / 0x1000 % 64, n / 64 % 64, n % 64);
    assert Symbols(n, 4) == [Symbol(n / 0x4_0000), Symbol(n / 0x1000 % 64), Symbol(n / 64 % 64), Symbol(n % 64)];
  }

  lemma {:induction false} PaddedSymbols(n: nat, count: nat)
    requires n < 0x100_0000 && 2 <= count <= 3 && n % (if count == 2 then 0x1000 else 64) == 0
    ensures Padded(Symbols(n, count)) == Symbols(n, 4)
  {
    assert Symbol(0) == 'A';
  }

  lemma {:induction false} GroupOfBytes(a: Byte, b: Byte, c: Byte)
    ensures var n := a as int * 0x1_0000 + b as int * 0x100 + c as int;
      n < 0x100_0000 && Group(n, 3) == [a, b, c] && Group(n, 2) == [a, b] && Group(n, 1) == [a]
  {
    var n := a as int * 0x1_0000 + b as int * 0x100 + c as int;
    var h: nat := a as int * 0x100 + b as int;
    assert n == h * 0x100 + c && n / 0x100 == h && n % 256 == c;
    assert h / 0x100 == a && h % 256 == b;
    assert n / 0x1_0000 == a;
  }

  lemma {:induction false} OneByte(a: Byte)
    ensures Decode(Encode([a])) == Some([a])
  {
    var n := a as int * 0x1_0000;
    GroupOfBytes(a, 0, 0);
    PaddedSymbols(n, 2);
    JoinedSymbols(n);
    assert Encode([a]) == Symbols(n, 2);
  }

  lemma {:induction false} TwoBytes(a: Byte, b: Byte)
    ensures Decode(Encode([a, b])) == Some([a, b])
  {
    var n := a as int * 0x1_0000 + b as int * 0x100;
    GroupOfBytes(a, b, 0);
    PaddedSymbols(n, 3);
    JoinedSymbols(n);
    assert Encode([a, b]) == Symbols(n, 3);
  }

  lemma {:induction false} FirstGroup(s: string, n: nat, rest: string)
    requires n < 0x100_0000 && s == Symbols(n, 4) + rest && Decode(rest).Some?
    ensures Decode(s) == Some(Group(n, 3) + Decode(rest).value)
  {
    JoinedSymbols(n);
    assert s[..4] == Symbols(n, 4) && s[4..] == rest;
  }

  /** What was encoded decodes to itself. */
  lemma {:induction false} RoundTrip(b: Bytes)
    ensures Decode(Encode(b)) == Some(b)
  {
    if |b| == 1 {
      OneByte(b[0]);
      assert b == [b[0]];
    } else if |b| == 2 {
      TwoBytes(b[0], b[1]);
      assert b == [b[0], b[1]];
    } else if |b| > 2 {
      var n := b[0] as int * 0x1_0000 + b[1] as int * 0x100 + b[2] as int;
      GroupOfBytes(b[0], b[1], b[2]);
      RoundTrip(b[3..]);
      FirstGroup(Encode(b), n, Encode(b[3..]));
      assert [b[0], b[1], b[2]] + b[3..] == b;
    }
  }

  /** The letters, the small letters and the digits in their order, then the two signs that are safe in an address. */
  lemma {:induction false} AlphabetIs(n: nat)
    requires n < 63
    ensures Symbol(0) == 'A' && Symbol(25) == 'Z' && Symbol(26) == 'a' && Symbol(51) == 'z'
    ensures Symbol(52) == '0' && Symbol(61) == '9' && Symbol(62) == '-' && Symbol(63) == '_'
    ensures n != 25 && n != 51 && n < 61 ==> Symbol(n + 1) as int == Symbol(n) as int + 1
  {
  }

  lemma {:induction false} DigitsAre(n: nat, w: nat, x: nat, y: nat, z: nat)
    requires w < 64 && x < 64 && y < 64 && z < 64 && n == ((w * 64 + x) * 64 + y) * 64 + z
    ensures n / 0x4_0000 == w && n / 0x1000 % 64 == x && n / 64 % 64 == y && n % 64 == z
  {
    Halved(n);
    var b, a := (w * 64 + x) * 64 + y, w * 64 + x;
    assert n / 64 == b && n % 64 == z;
    assert b / 64 == a && b % 64 == y;
    assert a / 64 == w && a % 64 == x;
  }

  lemma {:induction false} ThreeBytes(a: Byte, b: Byte, c: Byte)
    ensures var n := a as int * 0x1_0000 + b as int * 0x100 + c as int;
      n / 0x4_0000 == a / 4 && n / 0x1000 % 64 == a % 4 * 16 + b / 16 && n / 64 % 64 == b % 16 * 4 + c / 64 && n % 64 == c % 64
  {
    var a1, a0, b1, b0, c1, c0 := a / 4, a % 4, b / 16, b % 16, c / 64, c % 64;
    DigitsAre(a as int * 0x1_0000 + b as int * 0x100 + c as int, a1, a0 * 16 + b1, b0 * 4 + c1, c0);
  }

  /** Three bytes are four symbols of six bits each, from the top; one byte is two symbols, two bytes are three. */
  lemma {:induction false} EncodedBits(b: Bytes)
    requires b != []
    ensures var next: Byte, third: Byte := if |b| > 1 then b[1] else 0, if |b| > 2 then b[2] else 0;
      Encode(b) == [Symbol(b[0] / 4), Symbol(b[0] % 4 * 16 + next / 16)]
                   + (if |b| > 1 then [Symbol(next % 16 * 4 + third / 64)] else [])
                   + (if |b| > 2 then [Symbol(third % 64)] + Encode(b[3..]) else [])
  {
    var next: Byte, third: Byte := if |b| > 1 then b[1] else 0, if |b| > 2 then b[2] else 0;
    ThreeBytes(b[0], next, third);
  }
}
