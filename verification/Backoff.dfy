/** authn/backoff.go: the reject-until window a counter imposes. */
module Backoff {
  import opened Tables

  const USER_FREE_FAILURES: int := 1
  const IP_FREE_FAILURES: int := 10
  const MAX_DELAY: int := 30 * SECOND

  function Pow2(n: nat): (r: nat)
    ensures r >= 1
  {
    if n == 0 then 1 else 2 * Pow2(n - 1)
  }

  function FreeFailures(scope: Scope): int {
    if scope == ByIP then IP_FREE_FAILURES else USER_FREE_FAILURES
  }

  function DelayFor(scope: Scope, failures: nat): int {
    var over := failures - FreeFailures(scope);
    if over <= 0 then 0
    else if over > 5 then MAX_DELAY
    else
      var d := SECOND * Pow2(over - 1);
      if d > MAX_DELAY then MAX_DELAY else d
  }

  predicate Blocks(row: Row) {
    var wait := DelayFor(row.scope, row.counter.failures);
    wait > 0 && row.age < wait
  }

  lemma {:induction false} Pow2Grows(m: nat, n: nat)
    requires m <= n
    ensures Pow2(m) <= Pow2(n)
  {
    if m < n {
      Pow2Grows(m, n - 1);
    }
  }

  /** The branches compute min(30 s, 2^(over-1) s), for every count, not only up to the shift. */
  lemma DelayIsCappedExponential(scope: Scope, failures: nat)
    ensures var over := failures - if scope == ByUser then 1 else 10;
            DelayFor(scope, failures) ==
              if over <= 0 then 0
              else if 1_000_000 * Pow2(over - 1) < 30_000_000 then 1_000_000 * Pow2(over - 1) else 30_000_000
  {
    var over := failures - FreeFailures(scope);
    if over > 5 {
      Pow2Grows(5, over - 1);
      assert Pow2(5) == 2 * Pow2(4) == 4 * Pow2(3) == 8 * Pow2(2) == 16 * Pow2(1) == 32 * Pow2(0);
    }
  }

  lemma DelayMonotone(scope: Scope, m: nat, n: nat)
    requires m <= n
    ensures 0 <= DelayFor(scope, m) <= DelayFor(scope, n) <= MAX_DELAY
  {
    DelayIsCappedExponential(scope, m);
    DelayIsCappedExponential(scope, n);
    if m - FreeFailures(scope) > 0 {
      Pow2Grows(m - FreeFailures(scope) - 1, n - FreeFailures(scope) - 1);
    }
  }
}
