/** Induction from one, for properties that are costly to look into. */
module Induction {
  lemma {:induction false} Upwards(holds: nat -> bool, from: nat, limit: nat, n: nat)
    requires holds(from) && forall k: nat | from <= k < limit && holds(k) :: holds(k + 1)
    requires from <= n <= limit
    ensures holds(n)
  {
    if n > from {
      Upwards(holds, from, limit, n - 1);
    }
  }
}
