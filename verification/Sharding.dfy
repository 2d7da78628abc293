/** Context-parallel sharding arithmetic.

    A sequence of token positions is dealt to `w` ranks in runs of `i` consecutive positions.
    Three closed forms describe the deal: who owns a position, where it sits on its owner, and
    how many of the first `n` positions a rank holds.  The lemmas tie the closed forms together;
    every other module uses them through these lemmas only. */
module Sharding {

  function Min(a: int, b: int): int { if a <= b then a else b }

  function Max(a: int, b: int): int { if a >= b then a else b }

  /** ceil(a / b), as `math.ceil(a / b)` on non-negative operands. */
  function CeilDiv(a: nat, b: nat): nat
    requires b > 0
  {
    (a + b - 1) / b
  }

  /** How many of the first `n` positions rank `r` holds. */
  function LocalNumTokens(n: nat, w: nat, r: nat, i: nat): nat
    requires w > 0 && i > 0
  {
    CycleIsPositive(w, i);
    var cycle := w * i;
    (n / cycle) * i + Min(Max(n % cycle - r * i, 0), i)
  }

  function Owner(t: nat, w: nat, i: nat): nat
    requires w > 0 && i > 0
  {
    (t / i) % w
  }

  function LocalIndex(t: nat, w: nat, i: nat): nat
    requires w > 0 && i > 0
  {
    CycleIsPositive(w, i);
    (t / (w * i)) * i + t % i
  }

  /** The position that rank `r` keeps at local index `l`. */
  function GlobalPosition(l: nat, w: nat, r: nat, i: nat): nat
    requires w > 0 && i > 0
  {
    (l / i) * (w * i) + r * i + l % i
  }

  lemma CycleIsPositive(w: nat, i: nat)
    requires w > 0 && i > 0
    ensures w * i > 0
  {
  }

  lemma MulMonotone(a: int, b: int, k: nat)
    requires a <= b
    ensures a * k <= b * k
  {
  }

  /** A smaller multiple of `k` leaves room for any remainder. */
  lemma MulBelow(a: int, b: int, k: nat, x: int)
    requires a < b && x < k
    ensures a * k + x < b * k
  {
    MulMonotone(a + 1, b, k);
    Distribute(a, 1, k);
  }

  /** Quotient and remainder are determined by any decomposition in range. */
  lemma DivModUnique(n: int, d: int, q: int, x: int)
    requires d > 0 && 0 <= x < d && n == q * d + x
    ensures n / d == q && n % d == x
  {
    var p := n / d;
    assert n == p * d + n % d;
    if q < p {
      MulBelow(q, p, d, x);
      assert false;
    } else if p < q {
      MulBelow(p, q, d, n % d);
      assert false;
    }
  }

  /** Run `c * w + o` of length `i`, offset `x`, read as cycle `c`, rank `o`, offset `x`. */
  lemma CycleForm(c: nat, o: nat, x: nat, w: nat, i: nat)
    requires o < w && x < i
    ensures (c * w + o) * i + x == c * (w * i) + o * i + x
    ensures 0 <= o * i + x < w * i
  {
    Distribute(c * w, o, i);
    Assoc(c, w, i);
    MulBelow(o, w, i, x);
    MulMonotone(0, o, i);
  }

  lemma RunForm(t: nat, w: nat, i: nat)
    requires w > 0 && i > 0
    ensures t == (((t / i) / w) * w + (t / i) % w) * i + t % i
  {
    var b := t / i;
    assert b == (b / w) * w + b % w;
  }

  /** Every position is cycle `c`, rank `o`, offset `x`, and the closed forms read those off. */
  lemma Decompose(t: nat, w: nat, i: nat) returns (c: nat, o: nat, x: nat)
    requires w > 0 && i > 0
    ensures o < w && x < i && t == c * (w * i) + o * i + x
    ensures Owner(t, w, i) == o && LocalIndex(t, w, i) == c * i + x
    ensures 0 <= o * i + x < w * i
    ensures t / (w * i) == c && t % (w * i) == o * i + x
  {
    var b := t / i;
    c, o, x := b / w, b % w, t % i;
    CycleIsPositive(w, i);
    RunForm(t, w, i);
    CycleForm(c, o, x, w, i);
    DivModUnique(t, w * i, c, o * i + x);
  }

  lemma Distribute(a: int, b: int, k: int)
    ensures (a + b) * k == a * k + b * k
  {
  }

  lemma Assoc(a: int, b: int, k: int)
    ensures (a * b) * k == a * (b * k)
  {
  }

  /** One more position adds one token to its owner and nothing to the other ranks. */
  lemma CountStep(n: nat, w: nat, r: nat, i: nat)
    requires r < w && i > 0
    ensures LocalNumTokens(n + 1, w, r, i)
         == LocalNumTokens(n, w, r, i) + (if Owner(n, w, i) == r then 1 else 0)
  {
    var c, o, x := Decompose(n, w, i);
    CycleIsPositive(w, i);
    var cycle := w * i;
    MulMonotone(0, r, i);
    if o < r {
      MulMonotone(o + 1, r, i);
      Distribute(o, 1, i);
    } else if o > r {
      MulMonotone(r + 1, o, i);
      Distribute(r, 1, i);
    }
    if o * i + x + 1 < cycle {
      DivModUnique(n + 1, cycle, c, o * i + x + 1);
    } else {
      Distribute(c, 1, cycle);
      DivModUnique(n + 1, cycle, c + 1, 0);
      Distribute(c, 1, i);
      if o + 1 < w {
        MulBelow(o + 1, w, i, 0);
        Distribute(o, 1, i);
        assert false;
      }
    }
  }

  /** A position's local index is the number of earlier positions its owner holds. */
  lemma LocalIndexIsCount(t: nat, w: nat, i: nat)
    requires w > 0 && i > 0
    ensures Owner(t, w, i) < w
    ensures LocalIndex(t, w, i) == LocalNumTokens(t, w, Owner(t, w, i), i)
  {
    var c, o, x := Decompose(t, w, i);
  }

  /** Counts are monotone and grow by at most one per position. */
  lemma {:induction false} CountMonotone(m: nat, n: nat, w: nat, r: nat, i: nat)
    requires m <= n && r < w && i > 0
    ensures LocalNumTokens(m, w, r, i) <= LocalNumTokens(n, w, r, i)
    ensures LocalNumTokens(n, w, r, i) <= LocalNumTokens(m, w, r, i) + (n - m)
    decreases n - m
  {
    if m < n {
      CountStep(m, w, r, i);
      CountMonotone(m + 1, n, w, r, i);
    }
  }

  lemma CountOfZero(w: nat, r: nat, i: nat)
    requires r < w && i > 0
    ensures LocalNumTokens(0, w, r, i) == 0
  {
    CycleIsPositive(w, i);
    DivModUnique(0, w * i, 0, 0);
    assert r * i >= 0;
  }

  lemma CountAtMost(n: nat, w: nat, r: nat, i: nat)
    requires r < w && i > 0
    ensures LocalNumTokens(n, w, r, i) <= n
  {
    CountMonotone(0, n, w, r, i);
    CountOfZero(w, r, i);
  }

  /** A position lies below `n` exactly when its local index lies below its owner's count. */
  lemma LocalBelowCount(t: nat, n: nat, w: nat, i: nat)
    requires w > 0 && i > 0
    ensures t < n <==> LocalIndex(t, w, i) < LocalNumTokens(n, w, Owner(t, w, i), i)
  {
    var r := Owner(t, w, i);
    LocalIndexIsCount(t, w, i);
    CountStep(t, w, r, i);
    if t < n {
      CountMonotone(t + 1, n, w, r, i);
    } else {
      CountMonotone(n, t, w, r, i);
    }
  }

  function SumCounts(n: nat, w: nat, k: nat, i: nat): nat
    requires k <= w && w > 0 && i > 0
  {
    if k == 0 then 0 else SumCounts(n, w, k - 1, i) + LocalNumTokens(n, w, k - 1, i)
  }

  lemma {:induction false} SumCountsStep(n: nat, w: nat, k: nat, i: nat)
    requires k <= w && w > 0 && i > 0
    ensures SumCounts(n + 1, w, k, i)
         == SumCounts(n, w, k, i) + (if Owner(n, w, i) < k then 1 else 0)
  {
    if k > 0 {
      SumCountsStep(n, w, k - 1, i);
      CountStep(n, w, k - 1, i);
    }
  }

  lemma {:induction false} SumCountsOfZero(w: nat, k: nat, i: nat)
    requires k <= w && w > 0 && i > 0
    ensures SumCounts(0, w, k, i) == 0
  {
    if k > 0 {
      SumCountsOfZero(w, k - 1, i);
      CountOfZero(w, k - 1, i);
    }
  }

  /** The ranks together hold every position exactly once. */
  lemma {:induction false} CountsPartition(n: nat, w: nat, i: nat)
    requires w > 0 && i > 0
    ensures SumCounts(n, w, w, i) == n
  {
    if n == 0 {
      SumCountsOfZero(w, w, i);
    } else {
      CountsPartition(n - 1, w, i);
      SumCountsStep(n - 1, w, w, i);
      LocalIndexIsCount(n - 1, w, i);
    }
  }

  /** Local indices and positions are inverse to each other. */
  lemma GlobalOfLocal(l: nat, w: nat, r: nat, i: nat)
    requires r < w && i > 0
    ensures Owner(GlobalPosition(l, w, r, i), w, i) == r
    ensures LocalIndex(GlobalPosition(l, w, r, i), w, i) == l
  {
    CycleIsPositive(w, i);
    var q, x := l / i, l % i;
    var t := GlobalPosition(l, w, r, i);
    var b := q * w + r;
    assert t == b * i + x by {
      Distribute(q * w, r, i);
      Assoc(q, w, i);
    }
    DivModUnique(t, i, b, x);
    DivModUnique(b, w, q, r);
    MulBelow(r, w, i, x);
    MulMonotone(0, r, i);
    DivModUnique(t, w * i, q, r * i + x);
  }

  lemma LocalOfGlobal(t: nat, w: nat, i: nat)
    requires w > 0 && i > 0
    ensures GlobalPosition(LocalIndex(t, w, i), w, Owner(t, w, i), i) == t
  {
    var c, o, x := Decompose(t, w, i);
    DivModUnique(c * i + x, i, c, x);
  }

  /** On one rank, later local indices are later positions. */
  lemma GlobalMonotone(l: nat, m: nat, w: nat, r: nat, i: nat)
    requires l < m && r < w && i > 0
    ensures GlobalPosition(l, w, r, i) < GlobalPosition(m, w, r, i)
  {
    var s, t := GlobalPosition(l, w, r, i), GlobalPosition(m, w, r, i);
    GlobalOfLocal(l, w, r, i);
    GlobalOfLocal(m, w, r, i);
    LocalIndexIsCount(s, w, i);
    LocalIndexIsCount(t, w, i);
    if t <= s {
      CountMonotone(t, s, w, r, i);
    }
  }

  /** A whole number of cycles shifts every rank's count by the same amount. */
  lemma CountShift(n: nat, k: nat, w: nat, r: nat, i: nat)
    requires r < w && i > 0
    ensures LocalNumTokens(n + k * (w * i), w, r, i) == LocalNumTokens(n, w, r, i) + k * i
  {
    CycleIsPositive(w, i);
    var cycle := w * i;
    Distribute(n / cycle, k, cycle);
    DivModUnique(n + k * cycle, cycle, n / cycle + k, n % cycle);
    Distribute(n / cycle, k, i);
  }

  /** Over whole cycles every rank holds the same share. */
  lemma CountOfCycles(k: nat, w: nat, r: nat, i: nat)
    requires r < w && i > 0
    ensures LocalNumTokens(k * (w * i), w, r, i) == k * i
  {
    CountShift(0, k, w, r, i);
    CountOfZero(w, r, i);
  }

  /** Rounding up to whole units. */
  lemma CeilCovers(n: nat, v: nat)
    requires v > 0
    ensures n <= CeilDiv(n, v) * v
    ensures n % v == 0 ==> CeilDiv(n, v) * v == n
    ensures n % v != 0 ==> n < CeilDiv(n, v) * v
  {
    var q, x := n / v, n % v;
    assert n == q * v + x;
    if x == 0 {
      DivModUnique(n + v - 1, v, q, v - 1);
    } else {
      Distribute(q, 1, v);
      DivModUnique(n + v - 1, v, q + 1, x - 1);
    }
  }
}
