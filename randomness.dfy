/** `Math.floor(Math.random() * n)`: the one way the application turns a random
    number into a choice. The random number itself is an input. */
module Randomness {

  /** A value `Math.random()` can return. */
  predicate IsUnitSample(r: real) {
    0.0 <= r < 1.0
  }

  /** A sample scaled by `n` lies in `[0, n)` when `n > 0`. */
  lemma {:induction false} ScaledSample(r: real, n: nat)
    requires IsUnitSample(r)
    ensures 0.0 <= r * n as real
    ensures n > 0 ==> r * n as real < n as real
  {
    if n > 0 {
      ScaledSample(r, n - 1);
      assert r * n as real == r * (n - 1) as real + r;
    }
  }

  /** The index `floor(r * n)` picked from `n` candidates by the sample `r`. */
  function PickIndex(r: real, n: nat): (k: nat)
    requires IsUnitSample(r)
    ensures n > 0 ==> k < n
    ensures n == 0 ==> k == 0
  {
    ScaledSample(r, n);
    (r * n as real).Floor
  }

}
