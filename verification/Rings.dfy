/** Indices around a ring buffer. */
module Rings {

  lemma Wraps(a: nat, n: nat)
    requires a < 2 * n
    ensures a % n == if a < n then a else a - n
  {
    var q := a / n;
    assert a == n * q + a % n;
    assert q >= 2 ==> n * q >= n * 2;
    assert q == 0 || q == 1;
  }

  /** A place around a ring of `n` slots. */
  function Around(a: nat, n: nat): (r: nat)
    requires n > 0
    ensures a < 2 * n ==> r == if a < n then a else a - n
  {
    if a < 2 * n then Wraps(a, n); a % n else a % n
  }
}
