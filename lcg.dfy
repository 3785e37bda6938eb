/** The linear-congruential generator behind `uniform()` (nbody.h): one unsigned
    32-bit state, the Numerical Recipes coefficients, seed 30031. */
module Lcg {

  const MODULUS: int := 0x1_0000_0000
  const MULTIPLIER: int := 1664525
  const INCREMENT: int := 1013904223

  /** The values an `unsigned int` holds. */
  type Word32 = x: int | 0 <= x < 0x1_0000_0000

  /** The initial value of the static state. */
  const SEED: Word32 := 30031

  /** Storing an unsigned result: reduction modulo 2^32. */
  function Wrap(v: int): (w: Word32)
    ensures 0 <= v < MODULUS ==> w == v
    ensures (v - w) % MODULUS == 0
  {
    v % MODULUS
  }

  /** Reducing the first summand first does not change a sum modulo 2^32. */
  lemma WrapSum(a: int, c: int)
    ensures Wrap(Wrap(a) + c) == Wrap(a + c)
  {
    var q := a / MODULUS;
    assert a == q * MODULUS + Wrap(a);
    assert a + c == q * MODULUS + (Wrap(a) + c);
    var q2 := (Wrap(a) + c) / MODULUS;
    assert Wrap(a) + c == q2 * MODULUS + Wrap(Wrap(a) + c);
    assert a + c == (q + q2) * MODULUS + Wrap(Wrap(a) + c);
  }

  /** One advance of the state: the affine map taken modulo 2^32. */
  function Next(x: Word32): Word32
  {
    (x * MULTIPLIER + INCREMENT) % MODULUS
  }

  /** `x = x * a + c` in unsigned arithmetic wraps the product and then the
      sum; that is the same as one wrap of the whole expression. */
  lemma NextAsUnsigned(x: Word32)
    ensures Wrap(Wrap(x * MULTIPLIER) + INCREMENT) == Next(x)
  {
    WrapSum(x * MULTIPLIER, INCREMENT);
  }

  /** The state after k draws starting from x. */
  function Iterate(x: Word32, k: nat): Word32
  {
    if k == 0 then x else Next(Iterate(x, k - 1))
  }

  /** k1 draws followed by k2 draws are k1 + k2 draws. */
  lemma {:induction false} IterateAdd(x: Word32, k1: nat, k2: nat)
    ensures Iterate(x, k1 + k2) == Iterate(Iterate(x, k1), k2)
  {
    if k2 > 0 {
      IterateAdd(x, k1, k2 - 1);
    }
  }

  /** Draws 2k - 1 and 2k are the two that follow the state y after
      2 (k - 1) draws. */
  lemma IteratePair(x: Word32, k: nat, y: Word32)
    requires 1 <= k && y == Iterate(x, 2 * (k - 1))
    ensures Iterate(x, 2 * k - 1) == Next(y)
    ensures Iterate(x, 2 * k) == Next(Next(y))
  {
    assert Iterate(x, 2 * k - 1) == Next(Iterate(x, 2 * (k - 1)));
  }

  /** The first draw from the seed leaves the state at 3756614242. */
  lemma FirstState()
    ensures Iterate(SEED, 1) == 3756614242
  {
  }

  /** The value returned for state x: x / 2^32, in [0, 1). */
  function ToUnit(x: Word32): (r: real)
    ensures 0.0 <= r < 1.0
    ensures r * (MODULUS as real) == x as real
  {
    (x as real) / (MODULUS as real)
  }

  /** Distinct states give distinct draws. */
  lemma ToUnitInjective(x: Word32, y: Word32)
    requires ToUnit(x) == ToUnit(y)
    ensures x == y
  {
  }

  /** The generator object: the `static unsigned int x` of `uniform()`, with a
      ghost count of the draws made so far. */
  class Prng {
    var x: Word32
    ghost var draws: nat

    /** The state is always the draws-fold iterate of the LCG map on the seed. */
    ghost predicate Valid()
      reads this
    {
      x == Iterate(SEED, draws)
    }

    constructor ()
      ensures Valid() && draws == 0 && x == SEED
    {
      x := SEED;
      draws := 0;
    }

    /** uniform(): advance the state once and return it scaled to [0, 1). */
    method Uniform() returns (r: real)
      requires Valid()
      modifies this
      ensures Valid() && draws == old(draws) + 1
      ensures x == Next(old(x))
      ensures r == ToUnit(x) && 0.0 <= r < 1.0
    {
      NextAsUnsigned(x);
      x := Wrap(Wrap(x * MULTIPLIER) + INCREMENT);
      draws := draws + 1;
      r := ToUnit(x);
    }
  }
}
