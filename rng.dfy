/** Random number generation as an abstract stream of draws. The generator
    algorithm (numpy's Mersenne Twister) is outside the model: a generator is
    the sequence of raw values it produces, and what matters is which draws an
    operation consumes and in which order. */
module Random {

  /** The raw draws of one generator, in the order it produces them. */
  type Stream = nat -> nat

  /** The stream a generator produces when seeded with a given seed. */
  type Seeding = nat -> Stream

  /** An integer drawn uniformly from [0, hi] (`random_integers(0, hi)`) from one raw draw. */
  function Uniform(raw: nat, hi: nat): (r: nat)
    ensures r <= hi
  {
    raw % (hi + 1)
  }

  /** A Bernoulli(0.5) bit (`binomial(n=1, p=0.5)`) from one raw draw. */
  function Coin(raw: nat): bool
  {
    raw % 2 == 1
  }

  /** One integer per entry of `highs`, drawn in order from position `start`:
      entry k is uniform in [0, highs[k]] and uses draw `start + k`. */
  function Integers(s: Stream, start: nat, highs: seq<nat>): (r: seq<nat>)
    ensures |r| == |highs|
    ensures forall k :: 0 <= k < |r| ==> r[k] <= highs[k]
  {
    seq(|highs|, k requires 0 <= k < |highs| => Uniform(s(start + k), highs[k]))
  }

  /** `n` Bernoulli bits drawn in order from position `start`. */
  function Coins(s: Stream, start: nat, n: nat): (r: seq<bool>)
    ensures |r| == n
  {
    seq(n, k requires 0 <= k < n => Coin(s(start + k)))
  }

  /** Consecutive integer draws are the draws of the concatenated request. */
  lemma IntegersSplit(s: Stream, start: nat, a: seq<nat>, b: seq<nat>)
    ensures Integers(s, start, a + b) == Integers(s, start, a) + Integers(s, start + |a|, b)
  {
  }

  /** A generator: its stream and how many draws it has handed out. */
  class Rng {
    const stream: Stream
    var drawn: nat

    constructor (s: Stream)
      ensures stream == s && drawn == 0
    {
      stream := s;
      drawn := 0;
    }

    /** `random_integers(0, hi)`: one draw. */
    method RandomInteger(hi: nat) returns (r: nat)
      modifies this
      ensures r <= hi
      ensures r == Uniform(stream(old(drawn)), hi)
      ensures drawn == old(drawn) + 1
    {
      r := Uniform(stream(drawn), hi);
      drawn := drawn + 1;
    }

    /** One integer per axis, in axis order: draw k is uniform in [0, highs[k]]. */
    method RandomIntegers(highs: seq<nat>) returns (r: seq<nat>)
      modifies this
      ensures r == Integers(stream, old(drawn), highs)
      ensures drawn == old(drawn) + |highs|
    {
      r := [];
      var k := 0;
      while k < |highs|
        invariant 0 <= k <= |highs|
        invariant drawn == old(drawn) + k
        invariant r == Integers(stream, old(drawn), highs[..k])
      {
        var x := RandomInteger(highs[k]);
        assert highs[..k + 1] == highs[..k] + [highs[k]];
        IntegersSplit(stream, old(drawn), highs[..k], [highs[k]]);
        r := r + [x];
        k := k + 1;
      }
      assert highs[..k] == highs;
    }

    /** `binomial(n=1, p=0.5, size=n)`: n bits, in order. */
    method Binomial(n: nat) returns (bits: seq<bool>)
      modifies this
      ensures bits == Coins(stream, old(drawn), n)
      ensures drawn == old(drawn) + n
    {
      bits := [];
      var k := 0;
      while k < n
        invariant 0 <= k <= n
        invariant drawn == old(drawn) + k
        invariant bits == Coins(stream, old(drawn), k)
      {
        bits := bits + [Coin(stream(drawn))];
        drawn := drawn + 1;
        k := k + 1;
      }
    }
  }
}
