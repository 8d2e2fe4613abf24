/** Bounds on sums of scores. */
module Scores {
  /** `lo` added `n` times. */
  function Multiple(lo: real, n: nat): real {
    if n == 0 then 0.0 else Multiple(lo, n - 1) + lo
  }

  lemma MultipleTwoMore(lo: real, n: nat)
    ensures Multiple(lo, n + 2) == Multiple(lo, n) + lo + lo
  {
    assert Multiple(lo, n + 1) == Multiple(lo, n) + lo;
  }

  lemma {:induction false} Thousands(n: nat)
    ensures Multiple(-1000.0, n) == -1000.0 * n as real
  {
    if n > 0 {
      Thousands(n - 1);
    }
  }

  lemma {:induction false} MultipleShrinks(lo: real, n: nat, k: nat)
    requires lo <= 0.0 && n <= k
    ensures Multiple(lo, k) <= Multiple(lo, n)
    decreases k
  {
    if n < k {
      MultipleShrinks(lo, n, k - 1);
    }
  }
}
