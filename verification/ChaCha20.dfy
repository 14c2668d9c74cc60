/** ChaCha20 (sections 2.1 to 2.4 of RFC 8439) on 32-bit words. */
module ChaCha20 {
  import opened ByteStrings

  const WORDS: nat := 0x1_0000_0000

  type Word = x: int | 0 <= x < WORDS

  function Plus(v: Word, w: Word): Word {
    (v + w) % WORDS
  }

  function Minus(v: Word, w: Word): Word {
    (v - w) % WORDS
  }

  lemma {:induction false} WordWidth()
    ensures Pow2(32) == WORDS
  {
    assert Pow2(8) == 0x100;
    assert Pow2(16) == 0x1_0000;
    assert Pow2(24) == 0x100_0000;
  }

  function XorWord(v: Word, w: Word): Word {
    WordWidth();
    XorIsBounded(v, w, 32);
    Xor(v, w)
  }

  /** Left rotation by the amounts that occur, forwards and backwards. */
  function Rotl(v: Word, n: nat): Word
    requires n in {7, 8, 12, 16, 20, 24, 25}
  {
    if n == 7 then (v % 0x200_0000) * 0x80 + v / 0x200_0000
    else if n == 8 then (v % 0x100_0000) * 0x100 + v / 0x100_0000
    else if n == 12 then (v % 0x10_0000) * 0x1000 + v / 0x10_0000
    else if n == 16 then (v % 0x1_0000) * 0x1_0000 + v / 0x1_0000
    else if n == 20 then (v % 0x1000) * 0x10_0000 + v / 0x1000
    else if n == 24 then (v % 0x100) * 0x100_0000 + v / 0x100
    else (v % 0x80) * 0x200_0000 + v / 0x80
  }

  datatype Quarter = Quarter(a: Word, b: Word, c: Word, d: Word)

  function QuarterRound(q: Quarter): Quarter {
    var a1 := Plus(q.a, q.b);
    var d1 := Rotl(XorWord(q.d, a1), 16);
    var c1 := Plus(q.c, d1);
    var b1 := Rotl(XorWord(q.b, c1), 12);
    var a2 := Plus(a1, b1);
    var d2 := Rotl(XorWord(d1, a2), 8);
    var c2 := Plus(c1, d2);
    var b2 := Rotl(XorWord(b1, c2), 7);
    Quarter(a2, b2, c2, d2)
  }

  /** The quarter round backwards. */
  function QuarterUndone(q: Quarter): Quarter {
    var b1 := XorWord(Rotl(q.b, 25), q.c);
    var c1 := Minus(q.c, q.d);
    var d1 := XorWord(Rotl(q.d, 24), q.a);
    var a1 := Minus(q.a, b1);
    var b := XorWord(Rotl(b1, 20), c1);
    var c := Minus(c1, d1);
    var d := XorWord(Rotl(d1, 16), a1);
    Quarter(Minus(a1, b), b, c, d)
  }

  lemma {:induction false} Rotation16Undone(v: Word)
    ensures Rotl(Rotl(v, 16), 16) == v
  {
    var lo, hi := v % 0x1_0000, v / 0x1_0000;
    assert Rotl(v, 16) % 0x1_0000 == hi && Rotl(v, 16) / 0x1_0000 == lo;
  }

  lemma {:induction false} Rotation12Undone(v: Word)
    ensures Rotl(Rotl(v, 12), 20) == v
  {
    var lo, hi := v % 0x10_0000, v / 0x10_0000;
    assert Rotl(v, 12) % 0x1000 == hi && Rotl(v, 12) / 0x1000 == lo;
  }

  lemma {:induction false} Rotation8Undone(v: Word)
    ensures Rotl(Rotl(v, 8), 24) == v
  {
    var lo, hi := v % 0x100_0000, v / 0x100_0000;
    assert Rotl(v, 8) % 0x100 == hi && Rotl(v, 8) / 0x100 == lo;
  }

  lemma {:induction false} Rotation7Undone(v: Word)
    ensures Rotl(Rotl(v, 7), 25) == v
  {
    var lo, hi := v % 0x200_0000, v / 0x200_0000;
    assert Rotl(v, 7) % 0x80 == hi && Rotl(v, 7) / 0x80 == lo;
  }

  lemma {:induction false} WordXorUndone(v: Word, w: Word)
    ensures XorWord(XorWord(v, w), w) == v
  {
    XorUndone(v, w);
  }

  lemma {:induction false} PlusUndone(v: Word, w: Word)
    ensures Minus(Plus(v, w), w) == v
  {
  }

  /** No two inputs of a quarter round share an output. */
  lemma {:induction false} QuarterRoundIsInvertible(q: Quarter)
    ensures QuarterUndone(QuarterRound(q)) == q
  {
    var a1 := Plus(q.a, q.b);
    var d1 := Rotl(XorWord(q.d, a1), 16);
    var c1 := Plus(q.c, d1);
    var b1 := Rotl(XorWord(q.b, c1), 12);
    var a2 := Plus(a1, b1);
    var d2 := Rotl(XorWord(d1, a2), 8);
    var c2 := Plus(c1, d2);
    Rotation7Undone(XorWord(b1, c2));
    WordXorUndone(b1, c2);
    PlusUndone(c1, d2);
    Rotation8Undone(XorWord(d1, a2));
    WordXorUndone(d1, a2);
    PlusUndone(a1, b1);
    Rotation12Undone(XorWord(q.b, c1));
    WordXorUndone(q.b, c1);
    PlusUndone(q.c, d1);
    Rotation16Undone(XorWord(q.d, a1));
    WordXorUndone(q.d, a1);
    PlusUndone(q.a, q.b);
  }

  // ----- the block ------------------------------------------------------------------------

  /** Four places of the state. */
  datatype Places = Places(i: nat, j: nat, k: nat, l: nat)

  predicate InState(p: Places) {
    p.i < 16 && p.j < 16 && p.k < 16 && p.l < 16
  }

  /** The four columns, then the four diagonals. */
  function Schedule(): (ps: seq<Places>)
    ensures |ps| == 8 && forall n :: 0 <= n < 8 ==> InState(ps[n])
  {
    [Places(0, 4, 8, 12), Places(1, 5, 9, 13), Places(2, 6, 10, 14), Places(3, 7, 11, 15),
     Places(0, 5, 10, 15), Places(1, 6, 11, 12), Places(2, 7, 8, 13), Places(3, 4, 9, 14)]
  }

  function Mixed(w: seq<Word>, p: Places): (v: seq<Word>)
    requires |w| == 16 && InState(p)
    ensures |v| == 16
  {
    var q := QuarterRound(Quarter(w[p.i], w[p.j], w[p.k], w[p.l]));
    w[p.i := q.a][p.j := q.b][p.k := q.c][p.l := q.d]
  }

  function MixedAll(w: seq<Word>, ps: seq<Places>): (v: seq<Word>)
    requires |w| == 16 && forall n :: 0 <= n < |ps| ==> InState(ps[n])
    ensures |v| == 16
  {
    if ps == [] then w else Mixed(MixedAll(w, ps[..|ps| - 1]), ps[|ps| - 1])
  }

  function DoubleRound(w: seq<Word>): (v: seq<Word>)
    requires |w| == 16
    ensures |v| == 16
  {
    MixedAll(w, Schedule())
  }

  /** One double round for each element of the range. */
  function Rounds(w: seq<Word>, range: seq<nat>): (v: seq<Word>)
    requires |w| == 16
    ensures |v| == 16
  {
    if range == [] then w else DoubleRound(Rounds(w, range[..|range| - 1]))
  }

  function Range(n: nat): (r: seq<nat>)
    ensures |r| == n
  {
    seq(n, i => i)
  }

  function WordAt(s: Bytes, i: nat): Word
    requires 4 * i + 4 <= |s|
  {
    s[4 * i] as int + 0x100 * (s[4 * i + 1] as int) + 0x1_0000 * (s[4 * i + 2] as int) + 0x100_0000 * (s[4 * i + 3] as int)
  }

  function Unpacked(s: Bytes, n: nat): (w: seq<Word>)
    requires 4 * n <= |s|
    ensures |w| == n
  {
    seq(n, i requires 0 <= i < n => WordAt(s, i))
  }

  function Packed(w: Word): (s: Bytes)
    ensures |s| == 4
  {
    [w % 256, w / 0x100 % 256, w / 0x1_0000 % 256, w / 0x100_0000]
  }

  function Serialized(w: seq<Word>): (s: Bytes)
    ensures |s| == 4 * |w|
  {
    if w == [] then [] else Packed(w[0]) + Serialized(w[1..])
  }

  function Initial(key: Bytes, counter: nat, nonce: Bytes): (w: seq<Word>)
    requires |key| == 32 && |nonce| == 12 && counter < WORDS
    ensures |w| == 16
  {
    [0x61707865, 0x3320646e, 0x79622d32, 0x6b206574] + Unpacked(key, 8) + [counter] + Unpacked(nonce, 3)
  }

  function Summed(v: seq<Word>, w: seq<Word>): (r: seq<Word>)
    requires |v| == |w|
    ensures |r| == |v|
  {
    seq(|v|, i requires 0 <= i < |v| => Plus(v[i], w[i]))
  }

  function Block(key: Bytes, counter: nat, nonce: Bytes): (b: Bytes)
    requires |key| == 32 && |nonce| == 12 && counter < WORDS
    ensures |b| == 64
  {
    var st := Initial(key, counter, nonce);
    Serialized(Summed(Rounds(st, Range(10)), st))
  }

  /** One quarter round more of the schedule. */
  method Mix(w: seq<Word>, n: nat, ghost was: seq<Word>) returns (v: seq<Word>)
    requires |was| == 16 && n < 8 && w == MixedAll(was, Schedule()[..n])
    ensures v == MixedAll(was, Schedule()[..n + 1])
  {
    var ps := Schedule();
    assert ps[..n + 1][..n] == ps[..n];
    v := Mixed(w, ps[n]);
  }

  method MixRound(was: seq<Word>) returns (w: seq<Word>)
    requires |was| == 16
    ensures w == DoubleRound(was)
  {
    w := was;
    for n := 0 to 8
      invariant w == MixedAll(was, Schedule()[..n])
    {
      w := Mix(w, n, was);
    }
    assert Schedule()[..8] == Schedule();
  }

  /** Ten double rounds over a mutable state, then the state is added to itself as it was. */
  method ComputeBlock(key: Bytes, counter: nat, nonce: Bytes) returns (b: Bytes)
    requires |key| == 32 && |nonce| == 12 && counter < WORDS
    ensures b == Block(key, counter, nonce)
  {
    var st := Initial(key, counter, nonce);
    var w := st;
    ghost var range := Range(10);
    for n := 0 to 10
      invariant |w| == 16 && w == Rounds(st, range[..n])
    {
      assert range[..n + 1][..n] == range[..n];
      w := MixRound(w);
    }
    assert range[..10] == range;
    b := Serialized(Summed(w, st));
  }

  // ----- the stream -----------------------------------------------------------------------

  /** The keystream from block `counter` on; the counter wraps at 2^32. */
  function Blocks(key: Bytes, counter: nat, nonce: Bytes, count: nat): (bs: seq<Bytes>)
    requires |key| == 32 && |nonce| == 12
    ensures |bs| == count && forall k :: 0 <= k < count ==> |bs[k]| == 64
  {
    var bs := seq(count, k requires 0 <= k < count => Block(key, (counter + k) % WORDS, nonce));
    assert forall k :: 0 <= k < count ==> bs[k] == Block(key, (counter + k) % WORDS, nonce);
    bs
  }

  predicate Covers(bs: seq<Bytes>, data: Bytes) {
    |data| <= 64 * |bs| && forall k :: 0 <= k < |bs| ==> |bs[k]| == 64
  }

  /** Every byte of the data under the byte of the stream at its place. */
  function Masked(data: Bytes, bs: seq<Bytes>): (r: Bytes)
    requires Covers(bs, data)
    ensures |r| == |data| && forall i :: 0 <= i < |data| ==> r[i] == XorByte(data[i], bs[i / 64][i % 64])
  {
    seq(|data|, i requires 0 <= i < |data| => XorByte(data[i], bs[i / 64][i % 64]))
  }

  function BlockCount(data: Bytes): nat {
    (|data| + 63) / 64
  }

  function Xored(key: Bytes, counter: nat, nonce: Bytes, data: Bytes): (r: Bytes)
    requires |key| == 32 && |nonce| == 12
    ensures |r| == |data|
  {
    Masked(data, Blocks(key, counter, nonce, BlockCount(data)))
  }

  lemma {:induction false} ByteXorUndone(v: Byte, w: Byte)
    ensures XorByte(XorByte(v, w), w) == v
  {
    XorUndone(v, w);
  }

  lemma {:induction false} MaskedTwice(data: Bytes, bs: seq<Bytes>)
    requires Covers(bs, data)
    ensures Masked(Masked(data, bs), bs) == data
  {
    var twice := Masked(Masked(data, bs), bs);
    forall i | 0 <= i < |data| ensures twice[i] == data[i] {
      ByteXorUndone(data[i], bs[i / 64][i % 64]);
    }
  }

  /** Applying the stream twice gives the data back. */
  lemma {:induction false} XoredTwice(key: Bytes, counter: nat, nonce: Bytes, data: Bytes)
    requires |key| == 32 && |nonce| == 12
    ensures Xored(key, counter, nonce, Xored(key, counter, nonce, data)) == data
  {
    MaskedTwice(data, Blocks(key, counter, nonce, BlockCount(data)));
  }

  function Smaller(x: nat, y: nat): nat {
    if x < y then x else y
  }

  lemma {:induction false} ChunkPosition(k: nat, j: nat)
    requires j < 64
    ensures (64 * k + j) / 64 == k && (64 * k + j) % 64 == j
  {
  }

  function ChunkXored(chunk: Bytes, ks: Bytes): (out: Bytes)
    requires |chunk| <= |ks|
    ensures |out| == |chunk| && forall j :: 0 <= j < |chunk| ==> out[j] == XorByte(chunk[j], ks[j])
  {
    seq(|chunk|, j requires 0 <= j < |chunk| => XorByte(chunk[j], ks[j]))
  }

  /** A chunk under its block is that slice of the masked data. */
  lemma {:induction false} ChunkIsSlice(data: Bytes, bs: seq<Bytes>, k: nat)
    requires Covers(bs, data) && 64 * k < |data|
    ensures ChunkXored(data[64 * k..Smaller(64 * k + 64, |data|)], bs[k])
      == Masked(data, bs)[64 * k..Smaller(64 * k + 64, |data|)]
  {
    var i := 64 * k;
    var chunk := data[i..Smaller(i + 64, |data|)];
    var all, out := Masked(data, bs), ChunkXored(chunk, bs[k]);
    forall j | 0 <= j < |chunk| ensures out[j] == all[i + j] {
      ChunkPosition(k, j);
    }
  }

  method NextBlock(key: Bytes, start: nat, counter: nat, nonce: Bytes, k: nat, ghost bs: seq<Bytes>) returns (ks: Bytes)
    requires |key| == 32 && |nonce| == 12 && counter == (start + k) % WORDS
    requires k < |bs| && bs == Blocks(key, start, nonce, |bs|)
    ensures ks == bs[k]
  {
    ks := ComputeBlock(key, counter, nonce);
  }

  method XorStream(key: Bytes, start: nat, nonce: Bytes, data: Bytes) returns (out: Bytes)
    requires |key| == 32 && |nonce| == 12 && start < WORDS
    ensures out == Xored(key, start, nonce, data)
  {
    ghost var bs := Blocks(key, start, nonce, BlockCount(data));
    out := [];
    var counter, k := start, 0;
    while 64 * k < |data|
      invariant counter == (start + k) % WORDS
      invariant out == Masked(data, bs)[..Smaller(64 * k, |data|)]
    {
      var ks := NextBlock(key, start, counter, nonce, k, bs);
      var chunk := data[64 * k..Smaller(64 * k + 64, |data|)];
      ChunkIsSlice(data, bs, k);
      out := out + ChunkXored(chunk, ks);
      counter := (counter + 1) % WORDS;
      k := k + 1;
    }
    assert Masked(data, bs)[..|data|] == Masked(data, bs);
  }
}
