/** Right shifts of natural numbers, one bit at a time. */
module Shifts {
  /** e >> i. */
  function Shifted(e: nat, i: nat): nat {
    if i == 0 then e else Shifted(e / 2, i - 1)
  }

  predicate Bit(e: nat, i: nat) {
    Shifted(e, i) % 2 == 1
  }

  function BitLength(e: nat): nat {
    if e == 0 then 0 else 1 + BitLength(e / 2)
  }

  lemma {:induction false} ShiftStep(e: nat, i: nat)
    ensures Shifted(e, i) == 2 * Shifted(e, i + 1) + (if Bit(e, i) then 1 else 0)
  {
    if i > 0 {
      ShiftStep(e / 2, i - 1);
    }
  }

  lemma {:induction false} ShiftedOut(e: nat, i: nat)
    requires BitLength(e) <= i
    ensures Shifted(e, i) == 0
  {
    if i > 0 {
      ShiftedOut(e / 2, i - 1);
    }
  }

  lemma {:induction false} ShiftsAdd(e: nat, m: nat, n: nat)
    ensures Shifted(e, m + n) == Shifted(Shifted(e, m), n)
  {
    if m > 0 {
      ShiftsAdd(e / 2, m - 1, n);
    }
  }

  lemma {:induction false} NoBits(b: nat)
    ensures !Bit(0, b)
  {
    if b > 0 {
      NoBits(b - 1);
    }
  }

  // ----- bits, most significant first -----------------------------------------------------

  function BitsOf(e: nat, n: nat): (bits: seq<bool>)
    ensures |bits| == n
  {
    seq(n, i requires 0 <= i < n => Bit(e, n - 1 - i))
  }

  function ValueOf(bits: seq<bool>): nat {
    if bits == [] then 0
    else 2 * ValueOf(bits[..|bits| - 1]) + (if bits[|bits| - 1] then 1 else 0)
  }

  /** The first j of the n bits are the number shifted right by the others. */
  lemma {:induction false} PrefixValue(e: nat, n: nat, j: nat)
    requires j <= n && Shifted(e, n) == 0
    ensures ValueOf(BitsOf(e, n)[..j]) == Shifted(e, n - j)
  {
    if j > 0 {
      PrefixValue(e, n, j - 1);
      assert BitsOf(e, n)[..j][..j - 1] == BitsOf(e, n)[..j - 1];
      ShiftStep(e, n - j);
    }
  }

  lemma {:induction false} BitsValue(e: nat, n: nat)
    requires Shifted(e, n) == 0
    ensures ValueOf(BitsOf(e, n)) == e
  {
    PrefixValue(e, n, n);
    assert BitsOf(e, n)[..n] == BitsOf(e, n);
  }
}
