/** The simulation's random source. Python's module-global `random` is replaced by
    an explicit, seedable stream: `stream(k)` is the k-th value that
    `random.random()` would return, and every draw consumes one value. */
module Random {

  /** A value of `random.random()`: a real in [0, 1). */
  type Unit = u: real | 0.0 <= u < 1.0

  class Rng {
    const stream: nat -> Unit
    var next: nat

    constructor (stream: nat -> Unit)
      ensures this.stream == stream && next == 0
    {
      this.stream := stream;
      next := 0;
    }

    /** `random.random()`. */
    method Random() returns (u: real)
      modifies this
      ensures next == old(next) + 1
      ensures u == stream(old(next)) && 0.0 <= u < 1.0
    {
      u := stream(next);
      next := next + 1;
    }

    /** `random.uniform(lo, hi)`: `lo + (hi - lo) * random()`, between the two bounds. */
    method Uniform(lo: real, hi: real) returns (r: real)
      modifies this
      ensures next == old(next) + 1
      ensures r == lo + (hi - lo) * stream(old(next))
      ensures lo <= hi ==> lo <= r <= hi
      ensures hi <= lo ==> hi <= r <= lo
    {
      var u := stream(next);
      next := next + 1;
      r := lo + (hi - lo) * u;
      UniformBetween(lo, hi, u);
    }

    /** `random.randint(lo, hi)`: an integer in [lo, hi], both ends included. */
    method RandInt(lo: int, hi: int) returns (k: int)
      requires lo <= hi
      modifies this
      ensures next == old(next) + 1
      ensures lo <= k <= hi
    {
      var u := stream(next);
      next := next + 1;
      k := lo + ScaledIndex(u, hi - lo + 1);
    }

    /** The index `random.choice` picks from a non-empty sequence of length `n`. */
    method Choice(n: nat) returns (k: nat)
      requires 0 < n
      modifies this
      ensures next == old(next) + 1
      ensures k < n
    {
      var u := stream(next);
      next := next + 1;
      k := ScaledIndex(u, n);
    }
  }

  /** `floor(u * n)`: the index of the bucket of [0, 1) that `u` falls in. */
  function ScaledIndex(u: Unit, n: nat): (k: nat)
    requires 0 < n
    ensures k < n
    ensures k as real <= u * n as real < k as real + 1.0
  {
    assert 0.0 <= u * n as real < n as real by { ScaleBelow(u, n as real); }
    (u * n as real).Floor
  }

  lemma ScaleBelow(u: real, n: real)
    requires 0.0 <= u < 1.0 && 0.0 < n
    ensures 0.0 <= u * n < n
  {
    var un := u * n;
    assert un < 1.0 * n;
  }

  lemma UniformBetween(lo: real, hi: real, u: real)
    requires 0.0 <= u < 1.0
    ensures lo <= hi ==> lo <= lo + (hi - lo) * u <= hi
    ensures hi <= lo ==> hi <= lo + (hi - lo) * u <= lo
  {
    var d := hi - lo;
    var w := d * u;
    var v := 1.0 - u;
    var rest := d * v;
    assert w + rest == d;
    if lo <= hi {
      assert 0.0 <= w && 0.0 <= rest;
    } else {
      assert w <= 0.0 && rest <= 0.0;
    }
  }
}
