/** The order of strings by code point, which is also their order by UTF-8 bytes. */
module Ordering {
  predicate Leq(x: string, y: string) {
    x == [] || (y != [] && (x[0] < y[0] || (x[0] == y[0] && Leq(x[1..], y[1..]))))
  }

  lemma {:induction false} LeqReflexive(x: string)
    ensures Leq(x, x)
  {
    if x != [] {
      LeqReflexive(x[1..]);
    }
  }

  lemma {:induction false} LeqAntisymmetric(x: string, y: string)
    requires Leq(x, y) && Leq(y, x)
    ensures x == y
  {
    if x != [] && y != [] {
      LeqAntisymmetric(x[1..], y[1..]);
      assert x == [x[0]] + x[1..] && y == [y[0]] + y[1..];
    }
  }

  lemma {:induction false} LeqTotal(x: string, y: string)
    ensures Leq(x, y) || Leq(y, x)
  {
    if x != [] && y != [] {
      LeqTotal(x[1..], y[1..]);
    }
  }

  lemma {:induction false} LeqTransitive(x: string, y: string, z: string)
    requires Leq(x, y) && Leq(y, z)
    ensures Leq(x, z)
  {
    if x != [] && y != [] && z != [] && x[0] == y[0] == z[0] {
      LeqTransitive(x[1..], y[1..], z[1..]);
    }
  }

  /** At the first difference the lesser character comes first, and a string comes before its extensions. */
  lemma {:induction false} LeqIsByCodePoint(x: string, y: string)
    ensures Leq(x, y) <==>
      || x <= y
      || exists n :: 0 <= n < |x| && n < |y| && x[..n] == y[..n] && x[n] < y[n]
  {
    if x != [] && y != [] {
      if x[0] == y[0] {
        LeqIsByCodePoint(x[1..], y[1..]);
        assert x <= y <==> x[1..] <= y[1..];
        FirstDifference(x, y);
      } else {
        assert !(x <= y);
        assert x[..0] == y[..0];
      }
    }
  }

  lemma FirstDifference(x: string, y: string)
    requires x != [] && y != [] && x[0] == y[0]
    ensures (exists n :: 0 <= n < |x| && n < |y| && x[..n] == y[..n] && x[n] < y[n])
      <==> (exists n :: 0 <= n < |x[1..]| && n < |y[1..]| && x[1..][..n] == y[1..][..n] && x[1..][n] < y[1..][n])
  {
    if n :| 0 <= n < |x| && n < |y| && x[..n] == y[..n] && x[n] < y[n] {
      assert x[1..][..n - 1] == x[..n][1..] && y[1..][..n - 1] == y[..n][1..];
      assert x[1..][n - 1] < y[1..][n - 1];
    }
    if n :| 0 <= n < |x[1..]| && n < |y[1..]| && x[1..][..n] == y[1..][..n] && x[1..][n] < y[1..][n] {
      assert x[..n + 1] == [x[0]] + x[1..][..n] && y[..n + 1] == [y[0]] + y[1..][..n];
      assert x[n + 1] < y[n + 1];
    }
  }
}
