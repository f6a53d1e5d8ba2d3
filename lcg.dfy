/**
 * The pseudo-random generator `my_rand` of main.c: one linear congruential
 * step on a 32-bit unsigned seed, followed by the extraction of a 15-bit value.
 */
module Lcg {
  import opened CTypes

  const MULTIPLIER: int := 1103515245
  const INCREMENT: int := 12345
  /** The inverse of MULTIPLIER modulo 2^32; it exists because MULTIPLIER is odd. */
  const INVERSE: int := 4005161829
  /** MULTIPLIER * INVERSE == 1 + INVERSE_QUOTIENT * 2^32. */
  const INVERSE_QUOTIENT: int := 1029054899
  /** `my_rand` returns values in [0, RAND_RANGE). */
  const RAND_RANGE: int := 32768

  /**
   * The seed after one step: `seed * 1103515245 + 12345` in unsigned 32-bit
   * arithmetic, i.e. the one 32-bit value congruent to it modulo 2^32. Both
   * constants are odd, so the lowest bit of the seed flips at every step.
   */
  function Next(seed: uint32): (next: uint32)
    ensures (seed * MULTIPLIER + INCREMENT - next) % TWO_32 == 0
    ensures next % 2 != seed % 2
  {
    var x := seed * MULTIPLIER + INCREMENT;
    assert x - x % TWO_32 == (x / TWO_32) * TWO_32;
    assert x % 2 != seed % 2 by {
      assert x == 2 * (seed * 551757622 + 6172) + seed + 1;
    }
    assert x % TWO_32 == x - (x / TWO_32) * TWO_32;
    assert (x % TWO_32) % 2 == x % 2 by {
      assert x == x % TWO_32 + 2 * ((x / TWO_32) * 0x8000_0000);
    }
    x % TWO_32
  }

  /** The value `my_rand` returns once the seed has been advanced to `seed`. */
  function Output(seed: uint32): (v: nat)
    ensures v < RAND_RANGE
  {
    (seed / 65536) % 32768
  }

  /** The seed before one step: the inverse of Next. */
  function Prev(seed: uint32): uint32 {
    ((seed - INCREMENT) * INVERSE) % TWO_32
  }

  /** Adding a multiple of 2^32 does not change a value's residue. */
  lemma ModAddMultiple(x: int, k: int)
    requires 0 <= x < TWO_32
    ensures (x + k * TWO_32) % TWO_32 == x
  {
  }

  /** Prev undoes Next: no two seeds lead to the same next seed. */
  lemma PrevNext(seed: uint32)
    ensures Prev(Next(seed)) == seed
  {
    var q := (seed * MULTIPLIER + INCREMENT) / TWO_32;
    assert Next(seed) == seed * MULTIPLIER + INCREMENT - q * TWO_32;
    assert MULTIPLIER * INVERSE == 1 + INVERSE_QUOTIENT * TWO_32;
    var k := seed * INVERSE_QUOTIENT - q * INVERSE;
    assert (Next(seed) - INCREMENT) * INVERSE == seed + k * TWO_32;
    ModAddMultiple(seed, k);
  }

  /** Next undoes Prev: every seed is the next seed of some seed. */
  lemma NextPrev(seed: uint32)
    ensures Next(Prev(seed)) == seed
  {
    var q := ((seed - INCREMENT) * INVERSE) / TWO_32;
    assert Prev(seed) == (seed - INCREMENT) * INVERSE - q * TWO_32;
    assert MULTIPLIER * INVERSE == 1 + INVERSE_QUOTIENT * TWO_32;
    var k := (seed - INCREMENT) * INVERSE_QUOTIENT - q * MULTIPLIER;
    assert Prev(seed) * MULTIPLIER + INCREMENT == seed + k * TWO_32;
    ModAddMultiple(seed, k);
  }

  /** Next is injective on seeds, so it permutes the 2^32 seeds. */
  lemma NextInjective(s: uint32, t: uint32)
    ensures Next(s) == Next(t) <==> s == t
  {
    PrevNext(s);
    PrevNext(t);
  }

  /** The `unsigned int` variable whose address is passed to `my_rand`. */
  class SeedCell {
    var seed: uint32

    constructor (initial: uint32)
      ensures seed == initial
    {
      seed := initial;
    }

    /** `my_rand`: advance the seed by one step and return 15 bits of the new seed. */
    method MyRand() returns (v: nat)
      modifies this
      ensures seed == Next(old(seed))
      ensures v == Output(seed) && v < RAND_RANGE
    {
      seed := (seed * MULTIPLIER + INCREMENT) % TWO_32;
      v := (seed / 65536) % 32768;
    }
  }
}
