/** Collectives as pure data movement between ranks. */
module Collectives {
  import opened Sharding

  /** The parts one after the other in rank order. */
  function AllGather<T>(parts: seq<seq<T>>): seq<T> {
    if parts == [] then [] else AllGather(parts[..|parts| - 1]) + parts[|parts| - 1]
  }

  /** Rank `r` receives chunk `r` of every rank, in rank order. */
  function AllToAll<T>(inputs: seq<seq<T>>, r: nat, chunk: nat): seq<T>
    requires forall s :: 0 <= s < |inputs| ==> r * chunk + chunk <= |inputs[s]|
  {
    AllGather(seq(|inputs|, s requires 0 <= s < |inputs| => inputs[s][r * chunk..r * chunk + chunk]))
  }

  ghost predicate EqualParts<T>(parts: seq<seq<T>>, size: nat) {
    forall i :: 0 <= i < |parts| ==> |parts[i]| == size
  }

  lemma {:induction false} GatheredLength<T>(parts: seq<seq<T>>, size: nat)
    requires EqualParts(parts, size)
    ensures |AllGather(parts)| == |parts| * size
  {
    if parts != [] {
      GatheredLength(parts[..|parts| - 1], size);
      Distribute(|parts| - 1, 1, size);
    }
  }

  lemma ProductBounds(k: nat, n: nat, size: nat)
    requires k < n
    ensures k * size + size <= n * size && (k + 1 == n ==> k * size + size == n * size)
  {
    MulMonotone(k + 1, n, size);
    Distribute(k, 1, size);
  }

  /** Part `k` of a gathered buffer. */
  lemma {:induction false} GatheredSlice<T>(parts: seq<seq<T>>, size: nat, k: nat)
    requires k < |parts| && EqualParts(parts, size)
    ensures k * size + size <= |AllGather(parts)| == |parts| * size
    ensures AllGather(parts)[k * size..k * size + size] == parts[k]
  {
    GatheredLength(parts, size);
    ProductBounds(k, |parts|, size);
    GatheredFrom(parts, size, k, k * size);
  }

  lemma {:induction false} GatheredFrom<T>(parts: seq<seq<T>>, size: nat, k: nat, at: nat)
    requires k < |parts| && EqualParts(parts, size)
    requires at == k * size && at + size <= |AllGather(parts)|
    ensures AllGather(parts)[at..at + size] == parts[k]
  {
    var front := parts[..|parts| - 1];
    GatheredLength(front, size);
    if k < |front| {
      ProductBounds(k, |front|, size);
      GatheredFrom(front, size, k, at);
      SliceOfPrefix(AllGather(front), parts[|front|], at, at + size);
    }
  }

  lemma SliceOfPrefix<T>(s: seq<T>, more: seq<T>, lo: nat, hi: nat)
    requires lo <= hi <= |s|
    ensures (s + more)[lo..hi] == s[lo..hi]
  {
  }

  /** Entry `x` of part `k` of a gathered buffer. */
  lemma GatheredAt<T>(parts: seq<seq<T>>, size: nat, k: nat, x: nat)
    requires k < |parts| && x < size && EqualParts(parts, size)
    ensures k * size + x < |AllGather(parts)| == |parts| * size
    ensures AllGather(parts)[k * size + x] == parts[k][x]
  {
    GatheredSlice(parts, size, k);
    assert AllGather(parts)[k * size..k * size + size][x] == AllGather(parts)[k * size + x];
  }

  /** What rank `r` receives from rank `s` at row `x` of its chunk. */
  lemma ReceivedAt<T>(inputs: seq<seq<T>>, r: nat, chunk: nat, s: nat, x: nat)
    requires forall s :: 0 <= s < |inputs| ==> r * chunk + chunk <= |inputs[s]|
    requires s < |inputs| && x < chunk
    ensures s * chunk + x < |AllToAll(inputs, r, chunk)| == |inputs| * chunk
    ensures AllToAll(inputs, r, chunk)[s * chunk + x] == inputs[s][r * chunk + x]
  {
    var parts := seq(|inputs|, s requires 0 <= s < |inputs| => inputs[s][r * chunk..r * chunk + chunk]);
    GatheredAt(parts, chunk, s, x);
  }

  /** A row number splits into part and offset in one way. */
  lemma SplitRow(row: nat, size: nat, n: nat)
    requires row < n * size
    ensures size > 0 && row / size < n && row == (row / size) * size + row % size
  {
    if row / size >= n {
      MulMonotone(n, row / size, size);
    }
  }

  lemma {:induction false} GatherJoin<T>(a: seq<seq<T>>, b: seq<seq<T>>)
    ensures AllGather(a + b) == AllGather(a) + AllGather(b)
  {
    if b == [] {
      assert a + b == a;
    } else {
      var front, last := b[..|b| - 1], b[|b| - 1];
      GatherJoin(a, front);
      assert (a + b)[..|a + b| - 1] == a + front;
      assert AllGather(a + b) == AllGather(a + front) + last;
      assert AllGather(a) + AllGather(front) + last == AllGather(a) + (AllGather(front) + last);
    }
  }

  /* ----- parts in another order ----- */

  /** `order` lists 0..n-1 once each. */
  ghost predicate IsOrder(order: seq<nat>, n: nat) {
    |order| == n && multiset(order) == multiset(Counting(n))
  }

  function Counting(n: nat): (s: seq<nat>)
    ensures |s| == n && forall k :: 0 <= k < n ==> s[k] == k
  {
    seq(n, k => k)
  }

  function Reordered<T>(parts: seq<seq<T>>, order: seq<nat>): (s: seq<seq<T>>)
    requires forall k :: 0 <= k < |order| ==> order[k] < |parts|
    ensures |s| == |order|
  {
    seq(|order|, k requires 0 <= k < |order| => parts[order[k]])
  }

  lemma OrderInRange(order: seq<nat>, n: nat)
    requires IsOrder(order, n)
    ensures |order| == n && forall k :: 0 <= k < n ==> order[k] < n
  {
    forall k | 0 <= k < n
      ensures order[k] < n
    {
      assert order[k] in multiset(order);
      assert order[k] in Counting(n);
    }
  }

  /** Dropping the last part from an order. */
  lemma DropLast(order: seq<nat>, n: nat) returns (k: nat)
    requires IsOrder(order, n) && n > 0
    ensures k < n && order[k] == n - 1 && IsOrder(order[..k] + order[k + 1..], n - 1)
  {
    var last: nat := n - 1;
    assert Counting(n) == Counting(n - 1) + [last];
    assert n - 1 in multiset(order);
    k :| 0 <= k < |order| && order[k] == n - 1;
    assert order == order[..k] + [n - 1] + order[k + 1..];
    assert multiset(order[..k] + order[k + 1..]) == multiset(order) - multiset{last};
    assert multiset(Counting(n - 1)) == multiset(Counting(n)) - multiset{last};
  }

  /** Gathering the parts in any order yields the same elements. */
  lemma {:induction false} SameElements<T>(parts: seq<seq<T>>, order: seq<nat>)
    requires IsOrder(order, |parts|)
    ensures forall k :: 0 <= k < |order| ==> order[k] < |parts|
    ensures multiset(AllGather(Reordered(parts, order))) == multiset(AllGather(parts))
  {
    hide Reordered, IsOrder;
    OrderInRange(order, |parts|);
    if parts == [] {
      NoOrder(parts, order);
    } else {
      var n := |parts|;
      var k := DropLast(order, n);
      var front, rest := parts[..n - 1], order[..k] + order[k + 1..];
      SameElements(front, rest);
      MoveLast(parts, order, k, rest);
    }
  }

  lemma NoOrder<T>(parts: seq<seq<T>>, order: seq<nat>)
    requires parts == [] && order == []
    ensures AllGather(Reordered(parts, order)) == []
  {
  }

  /** Moving the last part from position `k` to the end changes no element count. */
  lemma MoveLast<T>(parts: seq<seq<T>>, order: seq<nat>, k: nat, rest: seq<nat>)
    requires parts != [] && k < |order| && order[k] == |parts| - 1 && rest == order[..k] + order[k + 1..]
    requires forall j :: 0 <= j < |order| ==> order[j] < |parts|
    requires forall j :: 0 <= j < |rest| ==> rest[j] < |parts| - 1
    ensures
      multiset(AllGather(Reordered(parts, order))) ==
        multiset(AllGather(Reordered(parts[..|parts| - 1], rest))) + multiset(parts[|parts| - 1])
  {
    hide AllGather;
    var n := |parts|;
    var a, b := Reordered(parts, order[..k]), Reordered(parts, order[k + 1..]);
    assert Reordered(parts, order) == a + ([parts[n - 1]] + b);
    assert Reordered(parts[..n - 1], rest) == a + b;
    GatherJoin(a, [parts[n - 1]] + b);
    GatherJoin([parts[n - 1]], b);
    GatherJoin(a, b);
    GatherOne(parts[n - 1]);
  }

  lemma GatherOne<T>(part: seq<T>)
    ensures AllGather([part]) == part
  {
    assert [part][..0] == [];
  }
}
