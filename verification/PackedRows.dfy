/** Requests laid end to end: request `q` takes the `lens[q]` positions from `Total(lens, q)` on.

    Kernels find the request of a position by scanning every request and keeping the last match. */
module PackedRows {

  /** The first `n` lengths summed: where request `n` starts. */
  function Total(lens: seq<nat>, n: nat): nat
    requires n <= |lens|
  {
    if n == 0 then 0 else Total(lens, n - 1) + lens[n - 1]
  }

  /** The exclusive running sum the metadata builder computes. */
  method Starts(lens: seq<nat>) returns (starts: seq<nat>)
    ensures |starts| == |lens|
    ensures forall q :: 0 <= q < |lens| ==> starts[q] == Total(lens, q)
  {
    starts := [];
    var sum := 0;
    for q := 0 to |lens|
      invariant |starts| == q && sum == Total(lens, q)
      invariant forall k :: 0 <= k < q ==> starts[k] == Total(lens, k)
    {
      starts := starts + [sum];
      sum := sum + lens[q];
    }
  }

  lemma {:induction false} TotalMonotone(lens: seq<nat>, a: nat, b: nat)
    requires a <= b <= |lens|
    ensures Total(lens, a) <= Total(lens, b)
    decreases b
  {
    if a < b {
      TotalMonotone(lens, a, b - 1);
    }
  }

  /** The row of entry `k` of request `q`. */
  function Row(lens: seq<nat>, q: nat, k: nat): nat
    requires q < |lens|
  {
    Total(lens, q) + k
  }

  predicate Within(lens: seq<nat>, q: int, k: int) {
    0 <= q < |lens| && 0 <= k < lens[q]
  }

  lemma RowInRange(lens: seq<nat>, q: nat, k: nat)
    requires Within(lens, q, k)
    ensures Row(lens, q, k) < Total(lens, q + 1) <= Total(lens, |lens|)
  {
    TotalMonotone(lens, q + 1, |lens|);
  }

  /** No two entries share a row. */
  lemma RowInjective(lens: seq<nat>, q: nat, k: nat, p: nat, j: nat)
    requires Within(lens, q, k) && Within(lens, p, j)
    requires Row(lens, q, k) == Row(lens, p, j)
    ensures q == p && k == j
  {
    if q < p {
      TotalMonotone(lens, q + 1, p);
    } else if p < q {
      TotalMonotone(lens, p + 1, q);
    }
  }

  /** Every row below the total belongs to an entry. */
  lemma {:induction false} RowOnto(lens: seq<nat>, n: nat, row: nat) returns (q: nat, k: nat)
    requires n <= |lens| && row < Total(lens, n)
    ensures q < n && Within(lens, q, k) && Row(lens, q, k) == row
  {
    if row >= Total(lens, n - 1) {
      q, k := n - 1, row - Total(lens, n - 1);
    } else {
      q, k := RowOnto(lens, n - 1, row);
    }
  }

  /** Scan all requests for the one that holds `row`. */
  method Lookup(lens: seq<nat>, starts: seq<nat>, row: nat) returns (req: nat, local: nat, length: nat, found: bool)
    requires |starts| == |lens|
    requires forall q :: 0 <= q < |lens| ==> starts[q] == Total(lens, q)
    ensures found <==> row < Total(lens, |lens|)
    ensures found ==> Within(lens, req, local) && Row(lens, req, local) == row && length == lens[req]
    ensures !found ==> req == 0 && local == 0
  {
    req, local, length, found := 0, 0, 0, false;
    for q := 0 to |lens|
      invariant found <==> row < Total(lens, q)
      invariant found ==> Within(lens, req, local) && Row(lens, req, local) == row && length == lens[req]
      invariant !found ==> req == 0 && local == 0
    {
      if starts[q] <= row < starts[q] + lens[q] {
        req, local, length, found := q, row - starts[q], lens[q], true;
      }
    }
  }
}
