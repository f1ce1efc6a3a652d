/** The two pieces of JavaScript's `Math` the input synthesizers use: `Math.round`, and the range of `Math.random()`. */
module JsMath {
  /** A draw of `Math.random()`. */
  predicate IsDraw(r: real) {
    0.0 <= r < 1.0
  }

  predicate AllDraws(rand: seq<real>) {
    forall i :: 0 <= i < |rand| ==> IsDraw(rand[i])
  }

  /** `Math.round`: the nearest integer, halves rounded up. */
  function Round(x: real): (n: int)
    ensures x - 0.5 < n as real <= x + 0.5
  {
    (x + 0.5).Floor
  }

  /** A coordinate moved by `(r - 0.5)·2` of jitter and rounded stays within 1.5 of where it was. */
  lemma JitteredRoundNear(x: real, r: real)
    requires IsDraw(r)
    ensures -1.5 < Round(x + (r - 0.5) * 2.0) as real - x <= 1.5
  {
  }
}
