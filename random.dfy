/**
  * The generator's random source (`IRandom`), as a stream of supplied draws:
  * the n-th draw is `draws(n)`, and each `next...` call consumes one draw and
  * reduces it into the range that call promises.
  */
module Random {

  class Rng {
    /** The supplied draws, in the order they are consumed. */
    const draws: nat -> nat
    /** Whether a float drawn from a given raw value falls below `0.5 * 0.9^k`. */
    const below: (nat, nat) -> bool
    /** How many draws have been consumed so far. */
    var used: nat

    constructor (draws: nat -> nat, below: (nat, nat) -> bool)
      ensures this.draws == draws && this.below == below && used == 0
    {
      this.draws := draws;
      this.below := below;
      used := 0;
    }

    /** `nextInt(bound)`: a value in `[0, bound)`; a bound of 0 throws in Java. */
    method NextInt(bound: nat) returns (r: nat)
      requires bound > 0
      modifies this
      ensures r < bound
      ensures r == draws(old(used)) % bound
      ensures used == old(used) + 1
    {
      r := draws(used) % bound;
      used := used + 1;
    }

    /** `nextBoolean()` */
    method NextBoolean() returns (b: bool)
      modifies this
      ensures b == (draws(old(used)) % 2 == 1)
      ensures used == old(used) + 1
    {
      b := draws(used) % 2 == 1;
      used := used + 1;
    }

    /** `nextFloat() < 0.5 * Math.pow(0.9, k)`: one float draw, compared against the threshold. */
    method NextFloatBelowThreshold(k: nat) returns (b: bool)
      modifies this
      ensures b == below(draws(old(used)), k)
      ensures used == old(used) + 1
    {
      b := below(draws(used), k);
      used := used + 1;
    }
  }
}
