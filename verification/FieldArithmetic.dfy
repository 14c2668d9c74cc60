/** Integers modulo q = 2^255 - 19: congruence, and what follows once every nonzero element has an inverse. */
module FieldArithmetic {
  const Q: nat := 57896044618658097711785492504343953926634992332820282019728792003956564819949

  /**
  x mod q, behind as many steps as the list is long. Dafny unfolds a recursive function a step or two, so
  five steps keep `x % Q` out of every proof that does not call ModIsRemainder: a division by a literal of
  77 digits beside the products of the curve's laws is what makes the solver diverge.
  */
  function Behind(steps: seq<bool>, x: int): int {
    if steps == [] then x % Q else Behind(steps[1..], x)
  }

  function Mod(x: int): int {
    Behind([false, false, false, false, false], x)
  }

  lemma {:induction false} BehindIsRemainder(steps: seq<bool>, x: int)
    ensures Behind(steps, x) == x % Q
  {
    if steps != [] {
      BehindIsRemainder(steps[1..], x);
    }
  }

  lemma {:induction false} ModIsRemainder(x: int)
    ensures Mod(x) == x % Q
  {
    BehindIsRemainder([false, false, false, false, false], x);
  }

  lemma {:induction false} ModIsSmall(x: int)
    ensures 0 <= Mod(x) < Q
  {
    ModIsRemainder(x);
  }

  predicate Congruent(x: int, y: int) {
    (x - y) % Q == 0
  }

  /**
  The box that makes a residue class a value. Two field elements are the same when their boxes are equal,
  which the solver treats as an equality to substitute, like any other, without meeting `%` again: the
  identities below are then proved by rewriting, and EqIsRemainder leads back to remainders.
  */
  datatype Coset<S> = Coset(members: S)

  /** The residue class of x. */
  ghost function Class(x: int): Coset<iset<int>> {
    Coset(iset y: int | Congruent(y, x))
  }

  /** x and y are the same field element. */
  ghost predicate Eq(x: int, y: int) {
    Class(x) == Class(y)
  }

  lemma {:induction false} SameRemainder(x: int, y: int, z: int)
    requires x % Q == y % Q
    ensures Congruent(z, x) <==> Congruent(z, y)
  {
  }

  /** Equal classes are equal remainders. */
  lemma {:induction false} EqIsRemainder(x: int, y: int)
    ensures Eq(x, y) <==> x % Q == y % Q
  {
    var s, t := Class(x).members, Class(y).members;
    if x % Q == y % Q {
      forall z ensures z in s <==> z in t {
        SameRemainder(x, y, z);
      }
      assert s == t;
    } else {
      assert x in s && x !in t;
    }
  }

  // ----- products of integers --------------------------------------------------------------

  lemma {:induction false} Shuffle(a: int, b: int, c: int, d: int)
    ensures (a * b) * (c * d) == (a * c) * (b * d)
  {
  }

  lemma {:induction false} SquareOfProduct(x: int, y: int)
    ensures (x * y) * (x * y) == (x * x) * (y * y)
  {
  }

  lemma {:induction false} NextMultiple(m: nat, n: nat)
    requires m > 0
    ensures (m - 1) * n >= 0 && m * n == (m - 1) * n + n
  {
  }

  // ----- congruence -----------------------------------------------------------------------

  lemma {:induction false} Shift(x: int, k: int)
    ensures Eq(x + k * Q, x)
  {
    EqIsRemainder(x + k * Q, x);
  }

  lemma {:induction false} Difference(x: int, y: int)
    requires Eq(x, y)
    ensures x == y + ((x / Q) - (y / Q)) * Q
  {
    EqIsRemainder(x, y);
  }

  lemma {:induction false} AddEq(a: int, b: int, c: int, d: int)
    requires Eq(a, b) && Eq(c, d)
    ensures Eq(a + c, b + d) && Eq(a - c, b - d)
  {
    var k, m := a / Q - b / Q, c / Q - d / Q;
    Difference(a, b);
    Difference(c, d);
    Shift(b + d, k + m);
    Shift(b - d, k - m);
  }

  lemma {:induction false} Distribute(a: int, b: int, k: int, c: int)
    requires a == b + k * Q
    ensures a * c == b * c + (k * c) * Q
  {
  }

  lemma {:induction false} ScaleEq(a: int, b: int, c: int)
    requires Eq(a, b)
    ensures Eq(a * c, b * c)
  {
    var k := a / Q - b / Q;
    Difference(a, b);
    Distribute(a, b, k, c);
    Shift(b * c, k * c);
  }

  lemma {:induction false} Commute(a: int, b: int)
    ensures a * b == b * a
  {
  }

  lemma {:induction false} MulEq(a: int, b: int, c: int, d: int)
    requires Eq(a, b) && Eq(c, d)
    ensures Eq(a * c, b * d)
  {
    ScaleEq(a, b, c);
    ScaleEq(c, d, b);
    Commute(c, b);
    Commute(d, b);
  }

  lemma {:induction false} Reduced(x: int)
    ensures Eq(Mod(x), x)
  {
    ModIsRemainder(x);
    EqIsRemainder(Mod(x), x);
  }

  lemma {:induction false} SameMod(x: int, y: int)
    requires Eq(x, y) && 0 <= y < Q
    ensures Mod(x) == y
  {
    EqIsRemainder(x, y);
    ModIsRemainder(x);
  }

  lemma {:induction false} SmallNumbersDiffer()
    ensures !Eq(1, 0) && !Eq(-1, 0) && !Eq(2, 0) && !Eq(-2, 0)
  {
    EqIsRemainder(1, 0);
    EqIsRemainder(-1, 0);
    EqIsRemainder(2, 0);
    EqIsRemainder(-2, 0);
  }

  /** Reducing a sum or a difference of values known up to congruence. */
  lemma {:induction false} ReducedSum(a: int, b: int, c: int, d: int)
    requires Eq(a, b) && Eq(c, d)
    ensures Eq(Mod(a + c), b + d) && Eq(Mod(a - c), b - d)
  {
    AddEq(a, b, c, d);
    Reduced(a + c);
    Reduced(a - c);
  }

  // ----- inverses -------------------------------------------------------------------------

  function Power(x: int, n: nat): int {
    if n == 0 then 1 else Mod(x * Power(x, n - 1))
  }

  /** The inverse by Fermat's little theorem. */
  function Inv(x: int): int {
    Power(x, Q - 2)
  }

  /** q is prime, as far as it is used: `Inv` inverts. */
  ghost predicate Field() {
    forall x: int {:trigger Inv(x)} :: !Eq(x, 0) ==> Eq(x * Inv(x), 1)
  }

  lemma {:induction false} NoZeroDivisors(x: int, y: int)
    requires Field() && Eq(x * y, 0) && !Eq(x, 0)
    ensures Eq(y, 0)
  {
    MulEq(x * Inv(x), 1, y, y);
    MulEq(x * y, 0, Inv(x), Inv(x));
    assert x * Inv(x) * y == x * y * Inv(x);
  }

  lemma {:induction false} NonzeroProduct(x: int, y: int)
    requires Field() && !Eq(x, 0) && !Eq(y, 0)
    ensures !Eq(x * y, 0)
  {
    if Eq(x * y, 0) {
      NoZeroDivisors(x, y);
    }
  }

  lemma {:induction false} Cancel(c: int, x: int, y: int)
    requires Field() && !Eq(c, 0) && Eq(c * x, c * y)
    ensures Eq(x, y)
  {
    AddEq(c * x, c * y, c * y, c * y);
    assert c * (x - y) == c * x - c * y;
    NoZeroDivisors(c, x - y);
    AddEq(x - y, 0, y, y);
  }

  lemma {:induction false} Sign(x: int)
    ensures Eq(-x, 0) <==> Eq(x, 0)
  {
    if Eq(x, 0) {
      AddEq(0, 0, x, 0);
    }
    if Eq(-x, 0) {
      AddEq(0, 0, -x, 0);
    }
  }
}
