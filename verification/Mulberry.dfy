// The page's random numbers (apps/web/lib/mosaic-layout.ts:130-138), in JavaScript's 32-bit arithmetic.
module Mulberry {
  import opened MosaicLayout

  function Fraction(t: bv32): (u: real)
    ensures 0.0 <= u < 1.0
  {
    (t as int) as real / 4294967296.0
  }

  function Output(a: bv32): (u: real)
    ensures 0.0 <= u < 1.0
  {
    var t := (a ^ (a >> 15)) * (1 | a);
    var t' := (t + (t ^ (t >> 7)) * (61 | t)) ^ t;
    Fraction(t' ^ (t' >> 14))
  }

  function Advanced(a: bv32): bv32 {
    a + 0x6d2b79f5
  }

  // The number kept after `n` draws.
  function Kept(seed: bv32, n: nat): bv32 {
    if n == 0 then seed else Advanced(Kept(seed, n - 1))
  }

  // The stream the page draws from, for any seed.
  function Stream(seed: bv32): Draws {
    (n: nat) => Output(Kept(seed, n + 1))
  }

  // The first two draws of the page's own seed.
  lemma PageDraws()
    ensures Stream(20260829)(0) == 4021114601.0 / 4294967296.0
    ensures Stream(20260829)(1) == 3549564934.0 / 4294967296.0
  {
    assert Kept(20260829, 1) == 0x6e60a1d2 && Kept(20260829, 2) == 0xdb8c1bc7;
    assert Output(0x6e60a1d2) == Fraction(4021114601);
    assert Output(0xdb8c1bc7) == Fraction(3549564934);
    assert (4021114601 as bv32) as int == 4021114601 && (3549564934 as bv32) as int == 3549564934;
  }

  // The page's top row has its boundary at column 6, the one place where its band may be struck.
  lemma PageTopRow()
    ensures StartAt(Stream(20260829), 0) == 6
  {
    PageDraws();
    hide Stream;
    assert WalkAt(Stream(20260829), 0) == 5;
  }

  // `mulberry32`: a seed, changed by every draw.
  class Mulberry32 {
    const seed: bv32
    var a: bv32
    ghost var drawn: nat

    ghost predicate Valid()
      reads this
    {
      a == Kept(seed, drawn)
    }

    constructor (seed: bv32)
      ensures Valid() && this.seed == seed && drawn == 0
    {
      this.seed, a, drawn := seed, seed, 0;
    }

    // Its successive draws are a stream's: each lies in [0, 1), as `Draws` asks.
    method Next() returns (u: real)
      requires Valid()
      modifies this
      ensures Valid() && drawn == old(drawn) + 1 && u == Stream(seed)(old(drawn)) && 0.0 <= u < 1.0
    {
      hide Output, Advanced;
      a := Advanced(a);
      u := Output(a);
      drawn := drawn + 1;
    }
  }
}
