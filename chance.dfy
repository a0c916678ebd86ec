/**
 * The server draws every random choice as `Math.floor(Math.random() * n)`.
 * A draw of `Math.random()` is modelled as a real `r` with `0 <= r < 1`,
 * passed in by the caller.
 */
module Chance {

  /** True of a value `Math.random()` can return. */
  predicate IsDraw(r: real)
  {
    0.0 <= r < 1.0
  }

  /** Scaling a draw by `n` stays in `[0, n)`, for every positive `n`. */
  lemma {:induction false} ScaledDraw(r: real, n: nat)
    requires IsDraw(r) && n > 0
    ensures 0.0 <= r * n as real < n as real
  {
    if n > 1 {
      ScaledDraw(r, n - 1);
      assert r * n as real == r * (n - 1) as real + r;
    }
  }

  /** `Math.floor(r * n)`: a uniformly chosen index below `n` when `r` is uniform. */
  function Pick(r: real, n: nat): (k: nat)
    requires IsDraw(r) && n > 0
    ensures k < n
    ensures k as real <= r * n as real < k as real + 1.0
  {
    ScaledDraw(r, n);
    (r * n as real).Floor
  }
}
