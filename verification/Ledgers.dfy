/** Sums over lists of numbers: the scores of a game, the balances of accounts. */
module Ledgers {

  function Total(xs: seq<int>, n: nat): int
    requires n <= |xs|
  {
    if n == 0 then 0 else Total(xs, n - 1) + xs[n - 1]
  }

  lemma {:induction false} TotalUpdate(xs: seq<int>, n: nat, k: nat, x: int)
    requires n <= |xs| && k < |xs|
    ensures Total(xs[k := x], n) == Total(xs, n) + (if k < n then x - xs[k] else 0)
    decreases n
  {
    if n > 0 {
      TotalUpdate(xs, n - 1, k, x);
    }
  }

  /** The sum of the whole list. */
  function Sum(xs: seq<int>): int {
    Total(xs, |xs|)
  }
}
