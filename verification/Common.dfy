/** Values every other module uses. */
module Common {

  datatype Option<+T> = None | Some(value: T)

  /** A node's identifier. */
  type Node = nat

  /** Block size: the granularity at which device space is allocated and freed. */
  const BLOCK: nat := 4096

  /** Blocks needed to hold `n` bytes. */
  function BlocksFor(n: nat): (b: nat)
    ensures b * BLOCK >= n
    ensures b > 0 ==> (b - 1) * BLOCK < n
  {
    (n + BLOCK - 1) / BLOCK
  }

  predicate InSpan(lo: nat, n: nat, b: nat) {
    lo <= b < lo + n
  }

  /** The `n` consecutive numbers from `lo`. */
  function Span(lo: nat, n: nat): (s: set<nat>)
    ensures forall b :: b in s <==> lo <= b < lo + n
  {
    set b: nat | lo <= b < lo + n && InSpan(lo, n, b)
  }

  predicate Aligned(n: nat) {
    n % BLOCK == 0
  }

  function Max(a: nat, b: nat): nat {
    if a >= b then a else b
  }

  function Min(a: nat, b: nat): nat {
    if a <= b then a else b
  }

  /** How many operations, and how many comparisons, one transaction may carry. */
  const MAX_TXN_OPS: nat := 120
}
