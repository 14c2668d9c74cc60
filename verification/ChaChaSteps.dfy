/**
The ChaCha20 block told word by word: where key, counter and nonce stand, what a quarter round computes, and
that the eight quarter rounds of a double round, done in place one after the other, are two parallel layers.
*/
module ChaChaSteps {
  import opened ByteStrings
  import opened ChaCha20
  import opened Shifts

  // ----- words ----------------------------------------------------------------------------

  /** Bit by bit. */
  lemma {:induction false} XorBits(x: nat, y: nat, i: nat)
    ensures Bit(Xor(x, y), i) <==> Bit(x, i) != Bit(y, i)
  {
    if x == 0 && y == 0 {
      NoBits(i);
    } else {
      var h := Xor(x / 2, y / 2);
      assert Xor(x, y) == (x % 2 + y % 2) % 2 + 2 * h;
      if i > 0 {
        XorBits(x / 2, y / 2, i - 1);
        assert Xor(x, y) / 2 == h;
      }
    }
  }

  /** A word's four bytes are its little-endian digits. */
  lemma {:induction false} PackedIsLittle(w: Word)
    ensures Little(Packed(w)) == w
  {
    Digits(w, w / 0x100, w / 0x1_0000, w / 0x100_0000);
    FourBytes(w % 256, w / 0x100 % 256, w / 0x1_0000 % 256, w / 0x100_0000);
  }

  lemma {:induction false} Digits(w: nat, x: nat, y: nat, z: nat)
    requires x == w / 0x100 && y == w / 0x1_0000 && z == w / 0x100_0000
    ensures w == w % 256 + 0x100 * (x % 256) + 0x1_0000 * (y % 256) + 0x100_0000 * z
  {
    assert x / 0x100 == y && y / 0x100 == z;
  }

  /** And so are those that it is read from. */
  lemma {:induction false} WordIsLittle(s: Bytes, i: nat)
    requires 4 * i + 4 <= |s|
    ensures WordAt(s, i) == Little(s[4 * i..4 * i + 4])
  {
    FourBytes(s[4 * i], s[4 * i + 1], s[4 * i + 2], s[4 * i + 3]);
    assert s[4 * i..4 * i + 4] == [s[4 * i], s[4 * i + 1], s[4 * i + 2], s[4 * i + 3]];
  }

  lemma {:induction false} FourBytes(a: Byte, b: Byte, c: Byte, d: Byte)
    ensures Little([a, b, c, d]) == a as int + 0x100 * (b as int) + 0x1_0000 * (c as int) + 0x100_0000 * (d as int)
  {
    var s: Bytes := [a, b, c, d];
    assert s[1..] == [b, c, d] && s[1..][1..] == [c, d] && s[1..][1..][1..] == [d] && s[1..][1..][1..][1..] == [];
    assert Little(s[1..][1..][1..]) == d;
    assert Little(s[1..][1..]) == c + 256 * d;
    assert Little(s[1..]) == b + 256 * (c + 256 * d);
  }

  lemma {:induction false} Powers()
    ensures Pow2(7) == 0x80 && Pow2(8) == 0x100 && Pow2(12) == 0x1000 && Pow2(16) == 0x1_0000
    ensures Pow2(20) == 0x10_0000 && Pow2(24) == 0x100_0000 && Pow2(25) == 0x200_0000
  {
    assert Pow2(12) == 16 * Pow2(8) && Pow2(16) == 16 * Pow2(12);
    assert Pow2(20) == 16 * Pow2(16) && Pow2(24) == 16 * Pow2(20);
  }

  /** What a shift to the left pushes out at the top comes in at the bottom. */
  lemma {:induction false} RotationWraps(v: Word, n: nat)
    requires n in {7, 8, 12, 16, 20, 24, 25}
    ensures Rotl(v, n) == v * Pow2(n) % WORDS + v * Pow2(n) / WORDS
  {
    Powers();
    if n == 7 {
      ShiftWraps(v, 0x80, 0x200_0000, v / 0x200_0000, v % 0x200_0000);
    } else if n == 8 {
      ShiftWraps(v, 0x100, 0x100_0000, v / 0x100_0000, v % 0x100_0000);
    } else if n == 12 {
      ShiftWraps(v, 0x1000, 0x10_0000, v / 0x10_0000, v % 0x10_0000);
    } else if n == 16 {
      ShiftWraps(v, 0x1_0000, 0x1_0000, v / 0x1_0000, v % 0x1_0000);
    } else if n == 20 {
      ShiftWraps(v, 0x10_0000, 0x1000, v / 0x1000, v % 0x1000);
    } else if n == 24 {
      ShiftWraps(v, 0x100_0000, 0x100, v / 0x100, v % 0x100);
    } else {
      ShiftWraps(v, 0x200_0000, 0x80, v / 0x80, v % 0x80);
    }
  }

  lemma {:induction false} ShiftWraps(v: nat, p: nat, m: nat, hi: nat, lo: nat)
    requires p > 0 && m * p == WORDS && v == hi * m + lo && lo < m && v < WORDS
    ensures v * p % WORDS == lo * p && v * p / WORDS == hi
  {
    assert v * p == hi * WORDS + lo * p;
    assert lo * p <= (m - 1) * p;
  }

  // ----- the state ------------------------------------------------------------------------

  /** Four constant words, eight of the key, the counter, three of the nonce. */
  lemma {:induction false} InitialIs(key: Bytes, counter: nat, nonce: Bytes, i: nat)
    requires |key| == 32 && |nonce| == 12 && counter < WORDS && i < 16
    ensures Initial(key, counter, nonce)[i]
      == if i == 0 then 0x61707865 else if i == 1 then 0x3320646e else if i == 2 then 0x79622d32 else if i == 3 then 0x6b206574
         else if i < 12 then Little(key[4 * (i - 4)..4 * (i - 4) + 4])
         else if i == 12 then counter
         else Little(nonce[4 * (i - 13)..4 * (i - 13) + 4])
  {
    if 4 <= i < 12 {
      WordIsLittle(key, i - 4);
    } else if i > 12 {
      WordIsLittle(nonce, i - 13);
    }
  }

  /** Column c of the state, seen as four rows of four. */
  function Column(w: seq<Word>, c: nat): Quarter
    requires |w| == 16 && c < 4
  {
    Quarter(w[c], w[4 + c], w[8 + c], w[12 + c])
  }

  function Wrapped(n: nat): (c: nat)
    requires n < 8
    ensures c < 4
  {
    if n < 4 then n else n - 4
  }

  /** The diagonal from the top of column c: every row is shifted by one place more. */
  function Diagonal(w: seq<Word>, c: nat): Quarter
    requires |w| == 16 && c < 4
  {
    Quarter(w[c], w[4 + Wrapped(c + 1)], w[8 + Wrapped(c + 2)], w[12 + Wrapped(c + 3)])
  }

  predicate Differ(p: Places) {
    InState(p) && p.i != p.j && p.i != p.k && p.i != p.l && p.j != p.k && p.j != p.l && p.k != p.l
  }

  /** The four places get the quarter round of what they held; every other place stays. */
  lemma {:induction false} MixedAt(w: seq<Word>, p: Places)
    requires |w| == 16 && Differ(p)
    ensures var v := Mixed(w, p);
      && Quarter(v[p.i], v[p.j], v[p.k], v[p.l]) == QuarterRound(Quarter(w[p.i], w[p.j], w[p.k], w[p.l]))
      && forall x :: 0 <= x < 16 && x != p.i && x != p.j && x != p.k && x != p.l ==> v[x] == w[x]
  {
  }

  lemma {:induction false} MixedInOrder(w: seq<Word>, ps: seq<Places>, n: nat)
    requires |w| == 16 && (forall n :: 0 <= n < |ps| ==> InState(ps[n])) && n < |ps|
    ensures MixedAll(w, ps[..n + 1]) == Mixed(MixedAll(w, ps[..n]), ps[n])
  {
    assert ps[..n + 1][..n] == ps[..n];
  }

  predicate ColumnsDone(w: seq<Word>, v: seq<Word>, n: nat)
    requires |w| == |v| == 16
  {
    forall c :: 0 <= c < 4 ==> Column(v, c) == if c < n then QuarterRound(Column(w, c)) else Column(w, c)
  }

  predicate DiagonalsDone(w: seq<Word>, v: seq<Word>, n: nat)
    requires |w| == |v| == 16
  {
    forall c :: 0 <= c < 4 ==> Diagonal(v, c) == if c < n then QuarterRound(Diagonal(w, c)) else Diagonal(w, c)
  }

  lemma {:induction false} OneMoreColumn(w: seq<Word>, v: seq<Word>, n: nat, p: Places)
    requires |w| == |v| == 16 && n < 4 && p == Places(n, 4 + n, 8 + n, 12 + n) && ColumnsDone(w, v, n)
    ensures ColumnsDone(w, Mixed(v, p), n + 1)
  {
    MixedAt(v, p);
  }

  lemma {:induction false} OneMoreDiagonal(w: seq<Word>, v: seq<Word>, n: nat, p: Places)
    requires |w| == |v| == 16 && n < 4 && DiagonalsDone(w, v, n)
    requires p == Places(n, 4 + Wrapped(n + 1), 8 + Wrapped(n + 2), 12 + Wrapped(n + 3))
    ensures DiagonalsDone(w, Mixed(v, p), n + 1)
  {
    MixedAt(v, p);
  }

  /** After n quarter rounds of the first layer n columns are done. */
  lemma {:induction false} ColumnsInPlace(w: seq<Word>, ps: seq<Places>, n: nat)
    requires |w| == 16 && n <= 4 && ps == Schedule()
    ensures ColumnsDone(w, MixedAll(w, ps[..n]), n)
  {
    if n > 0 {
      ColumnsInPlace(w, ps, n - 1);
      MixedInOrder(w, ps, n - 1);
      OneMoreColumn(w, MixedAll(w, ps[..n - 1]), n - 1, ps[n - 1]);
    }
  }

  /** And after n more, n diagonals of what the columns left. */
  lemma {:induction false} DiagonalsInPlace(w: seq<Word>, ps: seq<Places>, u: seq<Word>, half: nat, n: nat)
    requires |w| == 16 && n <= half == 4 && |ps| == 8 && ps == Schedule() && u == MixedAll(w, ps[..half])
    ensures DiagonalsDone(u, MixedAll(w, ps[..half + n]), n)
  {
    if n > 0 {
      var v, p := MixedAll(w, ps[..half + n - 1]), ps[half + n - 1];
      DiagonalsInPlace(w, ps, u, half, n - 1);
      MixedInOrder(w, ps, half + n - 1);
      DiagonalPlaces(ps, n - 1);
      OneMoreDiagonal(u, v, n - 1, p);
    }
  }

  lemma {:induction false} DiagonalPlaces(ps: seq<Places>, n: nat)
    requires n < 4 && |ps| == 8 && ps == Schedule()
    ensures ps[4 + n] == Places(n, 4 + Wrapped(n + 1), 8 + Wrapped(n + 2), 12 + Wrapped(n + 3))
  {
  }

  /** The eight quarter rounds in place are two parallel layers: one over the columns, one over the diagonals. */
  lemma {:induction false} DoubleRoundIs(w: seq<Word>, ps: seq<Places>, half: nat)
    requires |w| == 16 && ps == Schedule() && half == 4
    ensures var u := MixedAll(w, ps[..half]); ColumnsDone(w, u, half) && DiagonalsDone(u, DoubleRound(w), half)
  {
    ColumnsInPlace(w, ps, half);
    DiagonalsInPlace(w, ps, MixedAll(w, ps[..half]), half, half);
    assert ps[..half + half] == ps;
  }

  /** No word depends on the order in which a layer is done: a double round is determined column by column. */
  lemma {:induction false} LayersDetermine(w: seq<Word>, u: seq<Word>, v: seq<Word>)
    requires |w| == |u| == |v| == 16 && ColumnsDone(w, u, 4) && DiagonalsDone(u, v, 4)
    ensures v == DoubleRound(w)
  {
    var ps := Schedule();
    DoubleRoundIs(w, ps, 4);
    SameColumns(u, MixedAll(w, ps[..4]));
    SameDiagonals(v, DoubleRound(w));
  }

  lemma {:induction false} SameColumns(u: seq<Word>, v: seq<Word>)
    requires |u| == |v| == 16 && forall c :: 0 <= c < 4 ==> Column(u, c) == Column(v, c)
    ensures u == v
  {
    assert Column(u, 0) == Column(v, 0) && Column(u, 1) == Column(v, 1);
    assert Column(u, 2) == Column(v, 2) && Column(u, 3) == Column(v, 3);
  }

  lemma {:induction false} SameDiagonals(u: seq<Word>, v: seq<Word>)
    requires |u| == |v| == 16 && forall c :: 0 <= c < 4 ==> Diagonal(u, c) == Diagonal(v, c)
    ensures u == v
  {
    assert Diagonal(u, 0) == Diagonal(v, 0) && Diagonal(u, 1) == Diagonal(v, 1);
    assert Diagonal(u, 2) == Diagonal(v, 2) && Diagonal(u, 3) == Diagonal(v, 3);
  }

  // ----- the block ------------------------------------------------------------------------

  /** The rounds do not depend on what the range holds. */
  lemma {:induction false} RoundsCount(w: seq<Word>, range: seq<nat>, other: seq<nat>)
    requires |w| == 16 && |range| == |other|
    ensures Rounds(w, range) == Rounds(w, other)
  {
    if range != [] {
      RoundsCount(w, range[..|range| - 1], other[..|other| - 1]);
    }
  }

  /** Ten double rounds, and then the state is added to itself as it was, word by word, in little-endian bytes. */
  lemma {:induction false} BlockIs(key: Bytes, counter: nat, nonce: Bytes, w: seq<Word>, range: seq<nat>, i: nat)
    requires |key| == 32 && |nonce| == 12 && counter < WORDS && i < |w| == 16 && |range| == 10
    requires w == Initial(key, counter, nonce)
    ensures var b := Block(key, counter, nonce);
      |b| == 64 && Little(b[4 * i..4 * i + 4]) == Plus(Rounds(w, range)[i], w[i])
  {
    RoundsCount(w, Range(10), range);
    var sum := Summed(Rounds(w, Range(10)), w);
    SerializedAt(sum, i);
    PackedIsLittle(sum[i]);
  }

  lemma {:induction false} SerializedAt(w: seq<Word>, i: nat)
    requires i < |w|
    ensures Serialized(w)[4 * i..4 * i + 4] == Packed(w[i])
  {
    if i > 0 {
      SerializedAt(w[1..], i - 1);
      assert Serialized(w)[4..] == Serialized(w[1..]);
      assert Serialized(w)[4 * i..4 * i + 4] == Serialized(w[1..])[4 * (i - 1)..4 * (i - 1) + 4];
    }
  }

  lemma {:induction false} BlocksAt(key: Bytes, start: nat, counter: nat, nonce: Bytes, k: nat, bs: seq<Bytes>)
    requires |key| == 32 && |nonce| == 12 && counter == (start + k) % WORDS
    requires k < |bs| && bs == Blocks(key, start, nonce, |bs|)
    ensures bs[k] == Block(key, counter, nonce)
  {
  }

  /** Byte i of the data meets byte i % 64 of block number start + i / 64, which wraps with the counter. */
  lemma {:induction false} StreamIs(key: Bytes, start: nat, counter: nat, nonce: Bytes, data: Bytes, i: nat)
    requires |key| == 32 && |nonce| == 12 && i < |data| && counter == (start + i / 64) % 0x1_0000_0000
    ensures Xored(key, start, nonce, data)[i] == XorByte(data[i], Block(key, counter, nonce)[i % 64])
  {
    BlocksAt(key, start, counter, nonce, i / 64, Blocks(key, start, nonce, BlockCount(data)));
  }
}
