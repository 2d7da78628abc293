/** Alternating column and row normalization of a tile in the log domain, keeping the best-balanced scales.

    The plain loop normalizes columns, then rows, then scores.  The pipelined loop scores candidate k in the
    same pass that normalizes the columns for candidate k + 1. */
module Sinkhorn {
  import opened Quantizer

  const CLIP_MIN := 0.001
  const CLIP_MAX := 1000.0
  const LOG_MIN := -0.3
  const LOG_MAX := 10.0
  const SCORE_FLOOR := 0.00000001
  const COL_MIN_START := 1000000000000000000000000000000.0
  const CHUNK := 8

  ghost predicate Within(s: seq<real>, bound: real) {
    forall k :: 0 <= k < |s| ==> -bound <= s[k] <= bound
  }

  /** The numeric primitives, of which only the listed laws are used: the exponential is positive,
      monotone, one at zero and at least a half at the least log scale, and a standard deviation is
      not negative and at most the width of the range its values lie in. */
  datatype Numerics = Numerics(exponential: real -> real, logarithm: real -> real, deviation: seq<real> -> real) {
    ghost predicate Lawful() {
      && exponential(0.0) == 1.0
      && (forall x: real :: exponential(x) > 0.0)
      && (forall s: seq<real> :: deviation(s) >= 0.0)
      && (forall x: real, y: real :: x <= y ==> exponential(x) <= exponential(y))
      && exponential(LOG_MIN) >= 0.5
      && (forall s: seq<real>, bound: real :: |s| > 0 && Within(s, bound) ==> deviation(s) <= 2.0 * bound)
    }

    function Exp(x: real): (e: real)
      requires Lawful()
      ensures e > 0.0
    {
      exponential(x)
    }

    function Log(x: real): real { logarithm(x) }

    function Std(s: seq<real>): (d: real)
      requires Lawful()
      ensures d >= 0.0
    {
      deviation(s)
    }
  }

  type Vector = seq<real>

  /** The laws do not contradict each other. */
  lemma LawsAreConsistent() returns (n: Numerics)
    ensures n.Lawful()
  {
    n := Numerics(x => if x < 0.0 then 0.5 else 1.0 + x, x => x, s => 0.0);
    forall s: seq<real>, bound: real | |s| > 0 && Within(s, bound)
      ensures n.deviation(s) <= 2.0 * bound
    {
      assert -bound <= s[0] <= bound;
    }
  }

  /** Log scales of the columns and of the rows. */
  datatype Scales = Scales(col: Vector, row: Vector)

  datatype Tile = Tile(values: seq<seq<real>>, rows: nat, cols: nat) {
    ghost predicate Valid() {
      && rows > 0 && cols > 0 && |values| == rows
      && (forall r :: 0 <= r < rows ==> |values[r]| == cols)
    }
  }

  /* ----- one entry, one column, one row under given scales ----- */

  predicate Fits(t: Tile, s: Scales) {
    |s.col| == t.cols && |s.row| == t.rows
  }

  function Entry(n: Numerics, t: Tile, s: Scales, r: nat, c: nat): real
    requires n.Lawful() && t.Valid() && Fits(t, s) && r < t.rows && c < t.cols
  {
    t.values[r][c] / n.Exp(s.col[c]) / n.Exp(s.row[r])
  }

  function ColumnOf(n: Numerics, t: Tile, s: Scales, c: nat): Vector
    requires n.Lawful() && t.Valid() && Fits(t, s) && c < t.cols
  {
    seq(t.rows, r requires 0 <= r < t.rows => Entry(n, t, s, r, c))
  }

  function RowOf(n: Numerics, t: Tile, s: Scales, r: nat): Vector
    requires n.Lawful() && t.Valid() && Fits(t, s) && r < t.rows
  {
    seq(t.cols, c requires 0 <= c < t.cols => Entry(n, t, s, r, c))
  }

  function ColumnStds(n: Numerics, t: Tile, s: Scales): (v: Vector)
    requires n.Lawful() && t.Valid() && Fits(t, s)
    ensures |v| == t.cols && forall c :: 0 <= c < t.cols ==> v[c] >= 0.0
  {
    seq(t.cols, c requires 0 <= c < t.cols => n.Std(ColumnOf(n, t, s, c)))
  }

  function RowStds(n: Numerics, t: Tile, s: Scales): (v: Vector)
    requires n.Lawful() && t.Valid() && Fits(t, s)
    ensures |v| == t.rows && forall r :: 0 <= r < t.rows ==> v[r] >= 0.0
  {
    seq(t.rows, r requires 0 <= r < t.rows => n.Std(RowOf(n, t, s, r)))
  }

  /** Add the clipped log deviation to a log scale and clamp it. */
  function Adjusted(n: Numerics, logScale: real, std: real): real {
    var clipped := MaxReal(MinReal(std, CLIP_MAX), CLIP_MIN);
    MaxReal(MinReal(logScale + n.Log(clipped), LOG_MAX), LOG_MIN)
  }

  function AdjustedAll(n: Numerics, logs: Vector, stds: Vector): (v: Vector)
    requires |logs| == |stds|
    ensures |v| == |logs|
  {
    seq(|logs|, k requires 0 <= k < |logs| => Adjusted(n, logs[k], stds[k]))
  }

  function Zeros(k: nat): (v: Vector)
    ensures |v| == k
  {
    seq(k, _ => 0.0)
  }

  function ExpAll(n: Numerics, v: Vector): (e: Vector)
    requires n.Lawful()
    ensures |e| == |v|
  {
    seq(|v|, k requires 0 <= k < |v| => n.Exp(v[k]))
  }

  /* ----- the candidates, independently of any loop ----- */

  function Columned(n: Numerics, t: Tile, s: Scales): (u: Scales)
    requires n.Lawful() && t.Valid() && Fits(t, s)
    ensures Fits(t, u) && u.row == s.row
  {
    Scales(AdjustedAll(n, s.col, ColumnStds(n, t, s)), s.row)
  }

  function Rowed(n: Numerics, t: Tile, s: Scales): (u: Scales)
    requires n.Lawful() && t.Valid() && Fits(t, s)
    ensures Fits(t, u) && u.col == s.col
  {
    Scales(s.col, AdjustedAll(n, s.row, RowStds(n, t, s)))
  }

  /** Candidate `k`: start at scale one, then `k` rounds of columns and rows. */
  function Candidate(n: Numerics, t: Tile, k: nat): (s: Scales)
    requires n.Lawful() && t.Valid()
    ensures Fits(t, s)
  {
    if k == 0 then Scales(Zeros(t.cols), Zeros(t.rows))
    else Rowed(n, t, Columned(n, t, Candidate(n, t, k - 1)))
  }

  function MinOf(v: Vector): (m: real)
    requires |v| > 0
    ensures m in v && forall k :: 0 <= k < |v| ==> m <= v[k]
  {
    if |v| == 1 then v[0] else MinReal(MinOf(v[..|v| - 1]), v[|v| - 1])
  }

  function MaxOf(v: Vector): (m: real)
    requires |v| > 0
    ensures m in v && forall k :: 0 <= k < |v| ==> v[k] <= m
  {
    if |v| == 1 then v[0] else MaxReal(MaxOf(v[..|v| - 1]), v[|v| - 1])
  }

  function Ratio(max: real, min: real): real {
    max / MaxReal(min, SCORE_FLOOR)
  }

  /** The imbalance of a candidate, with the smallest column deviation given. */
  function Imbalance(n: Numerics, t: Tile, s: Scales, colMin: real): real
    requires n.Lawful() && t.Valid() && Fits(t, s)
  {
    Ratio(MaxOf(ColumnStds(n, t, s)), colMin) + Ratio(MaxOf(RowStds(n, t, s)), MinOf(RowStds(n, t, s)))
  }

  function Score(n: Numerics, t: Tile, k: nat): real
    requires n.Lawful() && t.Valid()
  {
    var s := Candidate(n, t, k);
    Imbalance(n, t, s, MinOf(ColumnStds(n, t, s)))
  }

  /** The pipelined kernel starts its running column minimum at a large constant. */
  function CappedScore(n: Numerics, t: Tile, k: nat): real
    requires n.Lawful() && t.Valid()
  {
    var s := Candidate(n, t, k);
    Imbalance(n, t, s, MinReal(COL_MIN_START, MinOf(ColumnStds(n, t, s))))
  }

  /** The last position with the smallest score. */
  function Best(scores: Vector): (b: nat)
    requires |scores| > 0
    ensures b < |scores|
    ensures forall j :: 0 <= j < |scores| ==> scores[b] <= scores[j]
    ensures forall j :: b < j < |scores| ==> scores[b] < scores[j]
  {
    if |scores| == 1 then 0
    else
      var k, b := |scores| - 1, Best(scores[..|scores| - 1]);
      if scores[k] <= scores[b] then k else b
  }

  /** Minimal and last: no other position fits. */
  lemma BestIsUnique(scores: Vector, b: nat)
    requires b < |scores| && forall j :: 0 <= j < |scores| ==> scores[b] <= scores[j]
    requires forall j :: b < j < |scores| ==> scores[b] < scores[j]
    ensures b == Best(scores)
  {
    var a := Best(scores);
    assert scores[a] <= scores[b] && scores[b] <= scores[a];
  }

  /** The scores of candidates 0..k. */
  function Scores(n: Numerics, t: Tile, k: nat): (v: Vector)
    requires n.Lawful() && t.Valid()
    ensures |v| == k + 1
  {
    seq(k + 1, j requires 0 <= j <= k => Score(n, t, j))
  }

  function CappedScores(n: Numerics, t: Tile, k: nat): (v: Vector)
    requires n.Lawful() && t.Valid()
    ensures |v| == k + 1
  {
    seq(k + 1, j requires 0 <= j <= k => CappedScore(n, t, j))
  }

  /** The smallest column deviation of candidate `k`. */
  function LeastColumn(n: Numerics, t: Tile, k: nat): real
    requires n.Lawful() && t.Valid()
  {
    MinOf(ColumnStds(n, t, Candidate(n, t, k)))
  }

  /* ----- what an adjustment achieves ----- */

  function Divided(s: Vector, d: real): (v: Vector)
    requires d > 0.0
    ensures |v| == |s|
  {
    seq(|s|, k requires 0 <= k < |s| => s[k] / d)
  }

  /** The nearest deviation of the clip range. */
  function Clip(d: real): (k: real)
    ensures k > 0.0
  {
    if d < CLIP_MIN then CLIP_MIN else if d > CLIP_MAX then CLIP_MAX else d
  }

  /** At this log scale, this vector and this factor the primitives are those of the reals: the logarithm
      inverts the exponential, and dividing a vector divides its deviation. */
  ghost predicate ExactAt(n: Numerics, log: real, s: Vector, k: real)
    requires k > 0.0
  {
    && n.exponential(log + n.logarithm(k)) == n.exponential(log) * k
    && n.deviation(Divided(s, k)) == n.deviation(s) / k
  }

  /** From `was` at log scale `log` to `now` at log scale `log'`: the deviation becomes exactly one, or is divided
      by the nearest bound of the clip range, and a log scale that would leave its range stops at the bound. */
  ghost predicate Normalized(n: Numerics, was: Vector, log: real, log': real, now: Vector) {
    var d := n.deviation(was);
    var next := log + n.logarithm(Clip(d));
    && (next < LOG_MIN ==> log' == LOG_MIN) && (next > LOG_MAX ==> log' == LOG_MAX)
    && (LOG_MIN <= next <= LOG_MAX && ExactAt(n, log, was, Clip(d)) ==>
          && n.deviation(now) == d / Clip(d)
          && (CLIP_MIN <= d <= CLIP_MAX ==> n.deviation(now) == 1.0))
  }

  lemma DivideByProduct(x: real, e: real, a: real, d: real, b: real)
    requires a > 0.0 && d > 0.0 && b > 0.0 && e == a * d && e > 0.0
    ensures x / e / b == x / a / b / d
  {
    var y, z := x / e / b, x / a / b / d;
    assert y * b == x / e && x / e * e == x;
    assert z * d == x / a / b && x / a / b * b == x / a && x / a * a == x;
    ProductOfThree(y, z, a, d, b, x);
  }

  lemma ProductOfThree(y: real, z: real, a: real, d: real, b: real, x: real)
    requires a > 0.0 && d > 0.0 && b > 0.0 && y * b * (a * d) == x && z * d * b * a == x
    ensures y == z
  {
    var p := a * d * b;
    assert p > 0.0;
    assert y * p == z * p;
    SameFactor(y, z, p);
  }

  lemma SameFactor(y: real, z: real, p: real)
    requires p > 0.0 && y * p == z * p
    ensures y == z
  {
  }

  lemma RowQuotient(y: real, a: real, d: real)
    requires a > 0.0 && d > 0.0
    ensures y / (a * d) == y / a / d
  {
    var u, z := y / (a * d), y / a / d;
    assert u * (a * d) == y;
    assert z * d == y / a && y / a * a == y;
    ProductOfThree(u, z, a, d, 1.0, y);
  }

  /** A column scale grown by the factor `d` divides the entry by `d`. */
  lemma ColumnEntry(n: Numerics, t: Tile, s: Scales, u: Scales, r: nat, c: nat, d: real)
    requires n.Lawful() && t.Valid() && Fits(t, s) && Fits(t, u) && r < t.rows && c < t.cols && d > 0.0
    requires u.row == s.row && n.Exp(u.col[c]) == n.Exp(s.col[c]) * d
    ensures Entry(n, t, u, r, c) == Entry(n, t, s, r, c) / d
  {
    hide Numerics.Lawful, Numerics.Exp;
    DivideByProduct(t.values[r][c], n.Exp(u.col[c]), n.Exp(s.col[c]), d, n.Exp(s.row[r]));
  }

  lemma RowEntry(n: Numerics, t: Tile, s: Scales, u: Scales, r: nat, c: nat, d: real)
    requires n.Lawful() && t.Valid() && Fits(t, s) && Fits(t, u) && r < t.rows && c < t.cols && d > 0.0
    requires u.col == s.col && n.Exp(u.row[r]) == n.Exp(s.row[r]) * d
    ensures Entry(n, t, u, r, c) == Entry(n, t, s, r, c) / d
  {
    hide Numerics.Lawful, Numerics.Exp;
    RowQuotient(t.values[r][c] / n.Exp(s.col[c]), n.Exp(s.row[r]), d);
  }

  lemma AdjustedScale(n: Numerics, log: real, d: real)
    requires n.Lawful()
    ensures var next := log + n.logarithm(Clip(d));
      && (next < LOG_MIN ==> Adjusted(n, log, d) == LOG_MIN) && (next > LOG_MAX ==> Adjusted(n, log, d) == LOG_MAX)
      && (LOG_MIN <= next <= LOG_MAX ==> Adjusted(n, log, d) == next)
  {
    hide Numerics.Lawful;
  }

  lemma QuotientIsOne(d: real)
    requires d > 0.0
    ensures d / d == 1.0
  {
  }

  lemma ColumnNormalized(n: Numerics, t: Tile, s: Scales, c: nat)
    requires n.Lawful() && t.Valid() && Fits(t, s) && c < t.cols
    ensures var u := Columned(n, t, s);
      Normalized(n, ColumnOf(n, t, s, c), s.col[c], u.col[c], ColumnOf(n, t, u, c))
  {
    hide Numerics.Lawful, Adjusted, Entry;
    var u, was := Columned(n, t, s), ColumnOf(n, t, s, c);
    var d := n.deviation(was);
    var k := Clip(d);
    AdjustedScale(n, s.col[c], d);
    if LOG_MIN <= s.col[c] + n.logarithm(k) <= LOG_MAX && ExactAt(n, s.col[c], was, k) {
      forall r | 0 <= r < t.rows
        ensures Entry(n, t, u, r, c) == Entry(n, t, s, r, c) / k
      {
        ColumnEntry(n, t, s, u, r, c, k);
      }
      assert ColumnOf(n, t, u, c) == Divided(was, k);
      QuotientIsOne(k);
    }
  }

  lemma RowNormalized(n: Numerics, t: Tile, s: Scales, r: nat)
    requires n.Lawful() && t.Valid() && Fits(t, s) && r < t.rows
    ensures var u := Rowed(n, t, s);
      Normalized(n, RowOf(n, t, s, r), s.row[r], u.row[r], RowOf(n, t, u, r))
  {
    hide Numerics.Lawful, Adjusted, Entry;
    var u, was := Rowed(n, t, s), RowOf(n, t, s, r);
    var d := n.deviation(was);
    var k := Clip(d);
    AdjustedScale(n, s.row[r], d);
    if LOG_MIN <= s.row[r] + n.logarithm(k) <= LOG_MAX && ExactAt(n, s.row[r], was, k) {
      forall c | 0 <= c < t.cols
        ensures Entry(n, t, u, r, c) == Entry(n, t, s, r, c) / k
      {
        RowEntry(n, t, s, u, r, c, k);
      }
      assert RowOf(n, t, u, r) == Divided(was, k);
      QuotientIsOne(k);
    }
  }

  /** A round is both normalizations, columns first: between a candidate and the next lies a tile whose columns
      are normalized from the one, and from which the rows of the other are. */
  lemma RoundNormalizes(n: Numerics, t: Tile, k: nat)
    requires n.Lawful() && t.Valid()
    ensures var s, u := Candidate(n, t, k), Candidate(n, t, k + 1);
      var m := Scales(u.col, s.row);
      && (forall c :: 0 <= c < t.cols ==> Normalized(n, ColumnOf(n, t, s, c), s.col[c], u.col[c], ColumnOf(n, t, m, c)))
      && (forall r :: 0 <= r < t.rows ==> Normalized(n, RowOf(n, t, m, r), s.row[r], u.row[r], RowOf(n, t, u, r)))
  {
    hide Numerics.Lawful, AdjustedAll, Normalized, ColumnOf, RowOf;
    var s := Candidate(n, t, k);
    var m := Columned(n, t, s);
    forall c | 0 <= c < t.cols
      ensures Normalized(n, ColumnOf(n, t, s, c), s.col[c], m.col[c], ColumnOf(n, t, m, c))
    {
      ColumnNormalized(n, t, s, c);
    }
    forall r | 0 <= r < t.rows
      ensures Normalized(n, RowOf(n, t, m, r), m.row[r], Rowed(n, t, m).row[r], RowOf(n, t, Rowed(n, t, m), r))
    {
      RowNormalized(n, t, m, r);
    }
  }

  /* ----- the score ----- */

  predicate AllEqual(v: Vector) {
    forall j, k :: 0 <= j < |v| && 0 <= k < |v| ==> v[j] == v[k]
  }

  predicate AllAbove(v: Vector, floor: real) {
    forall k :: 0 <= k < |v| ==> v[k] > floor
  }

  lemma RatioAtLeastOne(v: Vector)
    requires |v| > 0 && AllAbove(v, SCORE_FLOOR)
    ensures Ratio(MaxOf(v), MinOf(v)) >= 1.0
    ensures Ratio(MaxOf(v), MinOf(v)) == 1.0 <==> AllEqual(v)
  {
    hide MaxOf, MinOf, Ratio;
    var most, least := MaxOf(v), MinOf(v);
    assert least <= v[0] <= most;
    QuotientOrder(most, least);
    if most == least {
      assert forall k :: 0 <= k < |v| ==> least <= v[k] <= most;
    }
  }

  lemma QuotientOrder(most: real, least: real)
    requires most >= least > SCORE_FLOOR
    ensures Ratio(most, least) >= 1.0 && (Ratio(most, least) == 1.0 <==> most == least)
  {
    var ratio := most / least;
    assert ratio * least == most;
    if ratio < 1.0 {
      Smaller(ratio, 1.0, least);
    }
  }

  lemma Smaller(a: real, b: real, p: real)
    requires a < b && p > 0.0
    ensures a * p < b * p
  {
  }

  /** The score measures imbalance: with deviations above the floor it is at least two, and exactly two when
      all columns deviate alike and all rows do. */
  lemma ScoreOfBalanced(n: Numerics, t: Tile, k: nat)
    requires n.Lawful() && t.Valid()
    requires AllAbove(ColumnStds(n, t, Candidate(n, t, k)), SCORE_FLOOR)
    requires AllAbove(RowStds(n, t, Candidate(n, t, k)), SCORE_FLOOR)
    ensures Score(n, t, k) >= 2.0
    ensures Score(n, t, k) == 2.0 <==>
      AllEqual(ColumnStds(n, t, Candidate(n, t, k))) && AllEqual(RowStds(n, t, Candidate(n, t, k)))
  {
    hide ColumnStds, RowStds, Candidate, Ratio, AllEqual, AllAbove;
    RatioAtLeastOne(ColumnStds(n, t, Candidate(n, t, k)));
    RatioAtLeastOne(RowStds(n, t, Candidate(n, t, k)));
  }

  /* ----- bounds ----- */

  /** Every log scale of a candidate is at least the clamp. */
  predicate AboveFloor(s: Scales) {
    (forall c :: 0 <= c < |s.col| ==> s.col[c] >= LOG_MIN) && (forall r :: 0 <= r < |s.row| ==> s.row[r] >= LOG_MIN)
  }

  lemma {:induction false} CandidateAboveFloor(n: Numerics, t: Tile, k: nat)
    requires n.Lawful() && t.Valid()
    ensures AboveFloor(Candidate(n, t, k))
  {
    hide ColumnStds, RowStds;
    if k > 0 {
      CandidateAboveFloor(n, t, k - 1);
      var columned := Columned(n, t, Candidate(n, t, k - 1));
      AdjustedAboveFloor(n, Candidate(n, t, k - 1).col, ColumnStds(n, t, Candidate(n, t, k - 1)));
      AdjustedAboveFloor(n, columned.row, RowStds(n, t, columned));
    }
  }

  lemma AdjustedAboveFloor(n: Numerics, logs: Vector, stds: Vector)
    requires |logs| == |stds|
    ensures forall k :: 0 <= k < |logs| ==> AdjustedAll(n, logs, stds)[k] >= LOG_MIN
  {
  }

  /** So every scale is at least a half. */
  lemma ScaleAtLeastHalf(n: Numerics, log: real)
    requires n.Lawful() && log >= LOG_MIN
    ensures n.Exp(log) >= 0.5
  {
    assert n.exponential(LOG_MIN) <= n.exponential(log);
  }

  ghost predicate BoundedTile(t: Tile, bound: real)
    requires t.Valid()
  {
    forall r :: 0 <= r < t.rows ==> Within(t.values[r], bound)
  }

  lemma QuotientBound(x: real, d: real, bound: real)
    requires -bound <= x <= bound && d >= 0.5
    ensures -2.0 * bound <= x / d <= 2.0 * bound
  {
    var q := x / d;
    assert q * d == x;
  }

  lemma EntryBound(n: Numerics, t: Tile, s: Scales, r: nat, c: nat, bound: real)
    requires n.Lawful() && t.Valid() && Fits(t, s) && AboveFloor(s) && r < t.rows && c < t.cols && BoundedTile(t, bound)
    ensures -4.0 * bound <= Entry(n, t, s, r, c) <= 4.0 * bound
  {
    assert Within(t.values[r], bound);
    ScaleAtLeastHalf(n, s.col[c]);
    ScaleAtLeastHalf(n, s.row[r]);
    QuotientBound(t.values[r][c], n.Exp(s.col[c]), bound);
    QuotientBound(t.values[r][c] / n.Exp(s.col[c]), n.Exp(s.row[r]), 2.0 * bound);
  }

  /** No candidate's columns deviate by more than eight times the largest value of the tile. */
  lemma LeastColumnBound(n: Numerics, t: Tile, k: nat, bound: real)
    requires n.Lawful() && t.Valid() && BoundedTile(t, bound)
    ensures LeastColumn(n, t, k) <= 8.0 * bound
  {
    hide Entry, Candidate, BoundedTile;
    var s := Candidate(n, t, k);
    CandidateAboveFloor(n, t, k);
    var column := ColumnOf(n, t, s, 0);
    forall r | 0 <= r < |column|
      ensures -4.0 * bound <= column[r] <= 4.0 * bound
    {
      EntryBound(n, t, s, r, 0, bound);
    }
    assert Within(column, 4.0 * bound);
    assert n.deviation(column) <= 2.0 * (4.0 * bound);
    assert MinOf(ColumnStds(n, t, s)) <= ColumnStds(n, t, s)[0];
  }

  /* ----- best so far ----- */

  datatype Bound = Infinite | Known(score: real)

  /** The kept scales and score are those of the best of the candidates scored so far. */
  ghost predicate Keeps(n: Numerics, t: Tile, scores: Vector, best: Bound, sCol: Vector, sRow: Vector)
    requires n.Lawful() && t.Valid()
  {
    |scores| > 0 && (
      var b := Best(scores);
      && best == Known(scores[b])
      && sCol == ExpAll(n, Candidate(n, t, b).col) && sRow == ExpAll(n, Candidate(n, t, b).row))
  }

  predicate Better(score: real, best: Bound) {
    best.Infinite? || score <= best.score
  }

  /** Scoring one more candidate and keeping it when it is at least as good. */
  lemma KeepsStep(n: Numerics, t: Tile, scores: Vector, best: Bound, sCol: Vector, sRow: Vector, score: real)
    requires n.Lawful() && t.Valid()
    requires if |scores| == 0 then best == Infinite else Keeps(n, t, scores, best, sCol, sRow)
    ensures
      var s := Candidate(n, t, |scores|);
      var better := Better(score, best);
      Keeps(n, t, scores + [score], if better then Known(score) else best,
            if better then ExpAll(n, s.col) else sCol, if better then ExpAll(n, s.row) else sRow)
  {
    var longer := scores + [score];
    assert longer[..|scores|] == scores;
  }

  /* ----- the plain loop ----- */

  function Matrix(n: Numerics, t: Tile, s: Scales): (m: seq<seq<real>>)
    requires n.Lawful() && t.Valid() && Fits(t, s)
    ensures |m| == t.rows && forall r :: 0 <= r < t.rows ==> |m[r]| == t.cols
  {
    seq(t.rows, r requires 0 <= r < t.rows => RowOf(n, t, s, r))
  }

  predicate Shape(t: Tile, m: seq<seq<real>>) {
    |m| == t.rows && forall r :: 0 <= r < t.rows ==> |m[r]| == t.cols
  }

  function ColumnIn(m: seq<seq<real>>, t: Tile, c: nat): Vector
    requires Shape(t, m) && c < t.cols
  {
    seq(t.rows, r requires 0 <= r < t.rows => m[r][c])
  }

  lemma ColumnInMatrix(n: Numerics, t: Tile, s: Scales, c: nat)
    requires n.Lawful() && t.Valid() && Fits(t, s) && c < t.cols
    ensures ColumnIn(Matrix(n, t, s), t, c) == ColumnOf(n, t, s, c)
  {
  }

  lemma RowInMatrix(n: Numerics, t: Tile, s: Scales, r: nat)
    requires n.Lawful() && t.Valid() && Fits(t, s) && r < t.rows
    ensures Matrix(n, t, s)[r] == RowOf(n, t, s, r)
  {
  }

  /** At scale one the current tile is the tile itself. */
  lemma UnitScales(n: Numerics, t: Tile)
    requires n.Lawful() && t.Valid()
    ensures Matrix(n, t, Candidate(n, t, 0)) == t.values
  {
    var s := Candidate(n, t, 0);
    forall r | 0 <= r < t.rows
      ensures RowOf(n, t, s, r) == t.values[r]
    {
      forall c | 0 <= c < t.cols
        ensures Entry(n, t, s, r, c) == t.values[r][c]
      {
        assert n.Exp(0.0) == 1.0;
      }
    }
  }

  class PlainRun {
    const n: Numerics
    const t: Tile
    var current: seq<seq<real>>
    var logCol: Vector
    var logRow: Vector
    var sCol: Vector
    var sRow: Vector
    var colStd: Vector
    var rowStd: Vector
    var best: Bound

    /** The working tile is the tile under the current log scales. */
    ghost predicate Valid()
      reads this
    {
      && n.Lawful() && t.Valid() && Fits(t, Scales(logCol, logRow))
      && current == Matrix(n, t, Scales(logCol, logRow))
    }

    constructor (n: Numerics, t: Tile)
      requires n.Lawful() && t.Valid()
      ensures this.n == n && this.t == t && Valid() && Scales(logCol, logRow) == Candidate(n, t, 0) && best == Infinite
    {
      this.n, this.t := n, t;
      current := t.values;
      logCol, logRow := Zeros(t.cols), Zeros(t.rows);
      sCol, sRow := seq(t.cols, _ => 1.0), seq(t.rows, _ => 1.0);
      colStd, rowStd := [], [];
      best := Infinite;
      UnitScales(n, t);
    }

    method ColumnDeviations()
      requires Valid()
      modifies this`colStd
      ensures colStd == ColumnStds(n, t, Scales(logCol, logRow))
    {
      forall c | 0 <= c < t.cols
        ensures ColumnIn(current, t, c) == ColumnOf(n, t, Scales(logCol, logRow), c)
      {
        ColumnInMatrix(n, t, Scales(logCol, logRow), c);
      }
      colStd := [];
      for c := 0 to t.cols
        invariant colStd == ColumnStds(n, t, Scales(logCol, logRow))[..c]
      {
        colStd := colStd + [n.Std(ColumnIn(current, t, c))];
      }
    }

    method RowDeviations()
      requires Valid()
      modifies this`rowStd
      ensures rowStd == RowStds(n, t, Scales(logCol, logRow))
    {
      rowStd := [];
      for r := 0 to t.rows
        invariant rowStd == RowStds(n, t, Scales(logCol, logRow))[..r]
      {
        assert current[r] == RowOf(n, t, Scales(logCol, logRow), r);
        rowStd := rowStd + [n.Std(current[r])];
      }
    }

    /** Every column program reads and rewrites its own column. */
    method NormalizeColumns()
      requires Valid()
      modifies this`current, this`logCol
      ensures Valid() && Scales(logCol, logRow) == old(Columned(n, t, Scales(logCol, logRow)))
      ensures forall c :: 0 <= c < t.cols ==>
        Normalized(n, old(ColumnIn(current, t, c)), old(logCol[c]), logCol[c], ColumnIn(current, t, c))
    {
      hide ColumnsDone, Matrix, Columned, Normalized;
      ghost var was := Scales(logCol, logRow);
      ColumnsStart(n, t, was, current);
      for c := 0 to t.cols
        invariant ColumnsDone(n, t, was, c, logCol, current)
      {
        ColumnsShape(n, t, was, c, logCol, current);
        var logged := Adjusted(n, logCol[c], n.Std(ColumnIn(current, t, c)));
        var rows := logRow;
        var column := seq(t.rows, r requires 0 <= r < t.rows => RescaledEntry(n, t, logged, rows[r], r, c));
        ColumnsStep(n, t, was, c, logCol, current, column);
        logCol, current := logCol[c := logged], ReplaceColumn(t, current, c, column);
      }
      ColumnsEnd(n, t, was, logCol, current);
      forall c | 0 <= c < t.cols
        ensures Normalized(n, old(ColumnIn(current, t, c)), was.col[c], logCol[c], ColumnIn(current, t, c))
      {
        ColumnNormalized(n, t, was, c);
        ColumnInMatrix(n, t, was, c);
        ColumnInMatrix(n, t, Scales(logCol, logRow), c);
      }
    }

    /** Every row program reads and rewrites its own row, and records its new deviation. */
    method NormalizeRows()
      requires Valid()
      modifies this`current, this`logRow, this`rowStd
      ensures Valid() && Scales(logCol, logRow) == old(Rowed(n, t, Scales(logCol, logRow)))
      ensures rowStd == RowStds(n, t, Scales(logCol, logRow))
      ensures forall r :: 0 <= r < t.rows ==>
        Normalized(n, old(current[r]), old(logRow[r]), logRow[r], current[r])
    {
      hide RowsDone, Matrix, Rowed, Normalized;
      ghost var was := Scales(logCol, logRow);
      rowStd := [];
      RowsStart(n, t, was, current);
      for r := 0 to t.rows
        invariant RowsDone(n, t, was, r, logRow, current, rowStd)
      {
        RowsShape(n, t, was, r, logRow, current, rowStd);
        var logged := Adjusted(n, logRow[r], n.Std(current[r]));
        var cols := logCol;
        var row := seq(t.cols, c requires 0 <= c < t.cols => RescaledRowEntry(n, t, cols[c], logged, r, c));
        RowsStep(n, t, was, r, logRow, current, rowStd, row);
        logRow, current, rowStd := logRow[r := logged], current[r := row], rowStd + [n.Std(row)];
      }
      RowsEnd(n, t, was, logRow, current, rowStd);
      forall r | 0 <= r < t.rows
        ensures Normalized(n, old(current[r]), was.row[r], logRow[r], current[r])
      {
        RowNormalized(n, t, was, r);
        RowInMatrix(n, t, was, r);
        RowInMatrix(n, t, Scales(logCol, logRow), r);
      }
    }

    /** Score the current scales and keep them when they are at least as good as the best so far. */
    method UpdateBest(ghost scores: Vector)
      requires n.Lawful() && t.Valid() && Scales(logCol, logRow) == Candidate(n, t, |scores|)
      requires colStd == ColumnStds(n, t, Candidate(n, t, |scores|))
      requires rowStd == RowStds(n, t, Candidate(n, t, |scores|))
      requires if |scores| == 0 then best == Infinite else Keeps(n, t, scores, best, sCol, sRow)
      modifies this`best, this`sCol, this`sRow
      ensures Keeps(n, t, scores + [Score(n, t, |scores|)], best, sCol, sRow)
    {
      hide Keeps, ColumnStds, RowStds, Candidate;
      var imbalance := Ratio(MaxOf(rowStd), MinOf(rowStd)) + Ratio(MaxOf(colStd), MinOf(colStd));
      KeepsStep(n, t, scores, best, sCol, sRow, imbalance);
      if Better(imbalance, best) {
        best := Known(imbalance);
        sCol, sRow := ExpAll(n, logCol), ExpAll(n, logRow);
      }
    }

    /** Normalize columns, then rows, then refresh the column deviations. */
    method Round(ghost k: nat)
      requires Valid() && Scales(logCol, logRow) == Candidate(n, t, k)
      modifies this`current, this`logCol, this`logRow, this`colStd, this`rowStd
      ensures Valid() && Scales(logCol, logRow) == Candidate(n, t, k + 1)
      ensures colStd == ColumnStds(n, t, Candidate(n, t, k + 1)) && rowStd == RowStds(n, t, Candidate(n, t, k + 1))
    {
      hide ColumnStds, RowStds, Columned, Rowed, Matrix;
      NormalizeColumns();
      NormalizeRows();
      ColumnDeviations();
    }

    /** Score the start, then normalize columns and rows and score, `iterations` times. */
    method Run(iterations: nat)
      requires Valid() && Scales(logCol, logRow) == Candidate(n, t, 0) && best == Infinite
      modifies this
      ensures Keeps(n, t, Scores(n, t, iterations), best, sCol, sRow)
    {
      hide Keeps, ColumnStds, RowStds, Candidate, Scores, Score, Matrix;
      ColumnDeviations();
      RowDeviations();
      UpdateBest([]);
      ScoresGrow(n, t, 0);
      for k := 0 to iterations
        invariant Valid() && Scales(logCol, logRow) == Candidate(n, t, k)
        invariant Keeps(n, t, Scores(n, t, k), best, sCol, sRow)
      {
        Round(k);
        UpdateBest(Scores(n, t, k));
        ScoresGrow(n, t, k + 1);
      }
    }
  }

  lemma ScoresGrow(n: Numerics, t: Tile, k: nat)
    requires n.Lawful() && t.Valid()
    ensures Scores(n, t, k) == (if k == 0 then [] else Scores(n, t, k - 1)) + [Score(n, t, k)]
  {
    hide Score;
  }

  /* ----- columns and rows one at a time ----- */

  /** The first `c` columns are normalized. */
  ghost predicate ColumnsDone(n: Numerics, t: Tile, was: Scales, c: nat, logCol: Vector, current: seq<seq<real>>)
    requires n.Lawful() && t.Valid() && Fits(t, was)
  {
    && |logCol| == t.cols && Shape(t, current)
    && (forall x :: 0 <= x < t.cols ==> logCol[x] == if x < c then Columned(n, t, was).col[x] else was.col[x])
    && (forall x :: 0 <= x < t.cols ==>
          ColumnIn(current, t, x) == ColumnOf(n, t, if x < c then Columned(n, t, was) else was, x))
  }

  lemma ColumnsStart(n: Numerics, t: Tile, was: Scales, current: seq<seq<real>>)
    requires n.Lawful() && t.Valid() && Fits(t, was) && current == Matrix(n, t, was)
    ensures ColumnsDone(n, t, was, 0, was.col, current)
  {
    forall x | 0 <= x < t.cols
      ensures ColumnIn(current, t, x) == ColumnOf(n, t, was, x)
    {
      ColumnInMatrix(n, t, was, x);
    }
  }

  lemma ColumnsShape(n: Numerics, t: Tile, was: Scales, c: nat, logCol: Vector, current: seq<seq<real>>)
    requires n.Lawful() && t.Valid() && Fits(t, was) && ColumnsDone(n, t, was, c, logCol, current)
    ensures |logCol| == t.cols && Shape(t, current)
  {
  }

  lemma ColumnsStep(n: Numerics, t: Tile, was: Scales, c: nat, logCol: Vector, current: seq<seq<real>>, column: Vector)
    requires n.Lawful() && t.Valid() && Fits(t, was) && c < t.cols && ColumnsDone(n, t, was, c, logCol, current)
    requires |logCol| == t.cols && Shape(t, current) && |column| == t.rows
    requires forall r :: 0 <= r < t.rows ==>
      column[r] == RescaledEntry(n, t, Adjusted(n, logCol[c], n.Std(ColumnIn(current, t, c))), was.row[r], r, c)
    ensures ColumnsDone(n, t, was, c + 1, logCol[c := Adjusted(n, logCol[c], n.Std(ColumnIn(current, t, c)))],
                        ReplaceColumn(t, current, c, column))
  {
    hide Adjusted;
    var now, next := Columned(n, t, was), ReplaceColumn(t, current, c, column);
    assert Adjusted(n, logCol[c], n.Std(ColumnIn(current, t, c))) == now.col[c];
    assert ColumnIn(next, t, c) == column == ColumnOf(n, t, now, c);
    forall x | 0 <= x < t.cols && x != c
      ensures ColumnIn(next, t, x) == ColumnIn(current, t, x)
    {
    }
  }

  lemma ColumnsEnd(n: Numerics, t: Tile, was: Scales, logCol: Vector, current: seq<seq<real>>)
    requires n.Lawful() && t.Valid() && Fits(t, was) && ColumnsDone(n, t, was, t.cols, logCol, current)
    ensures logCol == Columned(n, t, was).col && current == Matrix(n, t, Columned(n, t, was))
  {
    var now := Columned(n, t, was);
    forall r | 0 <= r < t.rows
      ensures current[r] == RowOf(n, t, now, r)
    {
      forall c | 0 <= c < t.cols
        ensures current[r][c] == Entry(n, t, now, r, c)
      {
        assert ColumnIn(current, t, c)[r] == ColumnOf(n, t, now, c)[r];
      }
    }
  }

  /** The first `r` rows are normalized. */
  ghost predicate RowsDone(n: Numerics, t: Tile, was: Scales, r: nat, logRow: Vector, current: seq<seq<real>>,
                           rowStd: Vector)
    requires n.Lawful() && t.Valid() && Fits(t, was)
  {
    && |logRow| == t.rows && Shape(t, current) && |rowStd| == r <= t.rows
    && (forall x :: 0 <= x < t.rows ==> logRow[x] == if x < r then Rowed(n, t, was).row[x] else was.row[x])
    && (forall x :: 0 <= x < t.rows ==> current[x] == RowOf(n, t, if x < r then Rowed(n, t, was) else was, x))
    && (forall x :: 0 <= x < r ==> rowStd[x] == n.Std(RowOf(n, t, Rowed(n, t, was), x)))
  }

  lemma RowsStart(n: Numerics, t: Tile, was: Scales, current: seq<seq<real>>)
    requires n.Lawful() && t.Valid() && Fits(t, was) && current == Matrix(n, t, was)
    ensures RowsDone(n, t, was, 0, was.row, current, [])
  {
  }

  lemma RowsShape(n: Numerics, t: Tile, was: Scales, r: nat, logRow: Vector, current: seq<seq<real>>, rowStd: Vector)
    requires n.Lawful() && t.Valid() && Fits(t, was) && RowsDone(n, t, was, r, logRow, current, rowStd)
    ensures |logRow| == t.rows && Shape(t, current)
  {
  }

  lemma RowsStep(n: Numerics, t: Tile, was: Scales, r: nat, logRow: Vector, current: seq<seq<real>>, rowStd: Vector,
                 row: Vector)
    requires n.Lawful() && t.Valid() && Fits(t, was) && r < t.rows && RowsDone(n, t, was, r, logRow, current, rowStd)
    requires |logRow| == t.rows && Shape(t, current) && |row| == t.cols
    requires forall c :: 0 <= c < t.cols ==>
      row[c] == RescaledRowEntry(n, t, was.col[c], Adjusted(n, logRow[r], n.Std(current[r])), r, c)
    ensures RowsDone(n, t, was, r + 1, logRow[r := Adjusted(n, logRow[r], n.Std(current[r]))], current[r := row],
                     rowStd + [n.Std(row)])
  {
    hide Adjusted, RescaledRowEntry;
    var now := Rowed(n, t, was);
    assert Adjusted(n, logRow[r], n.Std(current[r])) == now.row[r];
    RescaledRow(n, t, now, r, row);
  }

  lemma RowsEnd(n: Numerics, t: Tile, was: Scales, logRow: Vector, current: seq<seq<real>>, rowStd: Vector)
    requires n.Lawful() && t.Valid() && Fits(t, was) && RowsDone(n, t, was, t.rows, logRow, current, rowStd)
    ensures logRow == Rowed(n, t, was).row && current == Matrix(n, t, Rowed(n, t, was))
    ensures rowStd == RowStds(n, t, Rowed(n, t, was))
  {
  }

  function RescaledEntry(n: Numerics, t: Tile, logCol: real, logRow: real, r: nat, c: nat): real
    requires n.Lawful() && t.Valid() && r < t.rows && c < t.cols
  {
    t.values[r][c] / n.Exp(logCol) / n.Exp(logRow)
  }

  /** The row kernel divides by the row scale first. */
  function RescaledRowEntry(n: Numerics, t: Tile, logCol: real, logRow: real, r: nat, c: nat): real
    requires n.Lawful() && t.Valid() && r < t.rows && c < t.cols
  {
    t.values[r][c] / n.Exp(logRow) / n.Exp(logCol)
  }

  lemma DivideTwice(x: real, a: real, b: real)
    requires a > 0.0 && b > 0.0
    ensures x / a / b == x / b / a
  {
    var y, z := x / a / b, x / b / a;
    assert y * b == x / a && x / a * a == x;
    assert z * a == x / b && x / b * b == x;
    assert (y - z) * (a * b) == y * b * a - z * a * b;
    assert (y - z) * (a * b) == 0.0;
  }

  lemma RescaledRow(n: Numerics, t: Tile, s: Scales, r: nat, row: Vector)
    requires n.Lawful() && t.Valid() && Fits(t, s) && r < t.rows && |row| == t.cols
    requires forall c :: 0 <= c < t.cols ==> row[c] == RescaledRowEntry(n, t, s.col[c], s.row[r], r, c)
    ensures row == RowOf(n, t, s, r)
  {
    forall c | 0 <= c < t.cols
      ensures row[c] == Entry(n, t, s, r, c)
    {
      DivideTwice(t.values[r][c], n.Exp(s.row[r]), n.Exp(s.col[c]));
    }
  }

  function ReplaceColumn(t: Tile, m: seq<seq<real>>, c: nat, column: Vector): (k: seq<seq<real>>)
    requires Shape(t, m) && c < t.cols && |column| == t.rows
    ensures Shape(t, k)
    ensures forall r, x :: 0 <= r < t.rows && 0 <= x < t.cols ==> k[r][x] == if x == c then column[r] else m[r][x]
  {
    seq(t.rows, r requires 0 <= r < t.rows => m[r][c := column[r]])
  }
}
