/** The pipelined normalization over a scratch record: a row phase, then column phases that score one
    candidate and prepare the next, alternating with row phases. */
module PipelinedSinkhorn {
  import opened Quantizer
  import opened Sinkhorn

  lemma MinJoin(a: Vector, b: Vector)
    requires |a| > 0 && |b| > 0
    ensures MinOf(a + b) == MinReal(MinOf(a), MinOf(b))
  {
    var s := a + b;
    var i :| 0 <= i < |a| && a[i] == MinOf(a);
    var j :| 0 <= j < |b| && b[j] == MinOf(b);
    var k :| 0 <= k < |s| && s[k] == MinOf(s);
    assert s[i] == a[i] && s[|a| + j] == b[j];
    assert if k < |a| then s[k] == a[k] else s[k] == b[k - |a|];
  }

  lemma MaxJoin(a: Vector, b: Vector)
    requires |a| > 0 && |b| > 0
    ensures MaxOf(a + b) == MaxReal(MaxOf(a), MaxOf(b))
  {
    var s := a + b;
    var i :| 0 <= i < |a| && a[i] == MaxOf(a);
    var j :| 0 <= j < |b| && b[j] == MaxOf(b);
    var k :| 0 <= k < |s| && s[k] == MaxOf(s);
    assert s[i] == a[i] && s[|a| + j] == b[j];
    assert if k < |a| then s[k] == a[k] else s[k] == b[k - |a|];
  }

  /** The running extremes of the first `base` deviations. */
  ghost predicate RunningExtremes(v: Vector, base: nat, min: real, max: real) {
    && base <= |v|
    && min == (if base == 0 then COL_MIN_START else MinReal(COL_MIN_START, MinOf(v[..base])))
    && max == (if base == 0 then 0.0 else MaxReal(0.0, MaxOf(v[..base])))
  }

  lemma ExtremesStep(v: Vector, base: nat, min: real, max: real)
    requires RunningExtremes(v, base, min, max) && base + CHUNK <= |v|
    ensures RunningExtremes(v, base + CHUNK, MinReal(min, MinOf(v[base..base + CHUNK])),
                            MaxReal(max, MaxOf(v[base..base + CHUNK])))
  {
    hide MinOf, MaxOf;
    var chunk := v[base..base + CHUNK];
    assert v[..base + CHUNK] == v[..base] + chunk;
    if base > 0 {
      MinJoin(v[..base], chunk);
      MaxJoin(v[..base], chunk);
    } else {
      assert v[..base + CHUNK] == chunk;
    }
  }

  lemma ExtremesEnd(v: Vector, min: real, max: real)
    requires |v| > 0 && RunningExtremes(v, |v|, min, max) && forall k :: 0 <= k < |v| ==> v[k] >= 0.0
    ensures min == MinReal(COL_MIN_START, MinOf(v)) && max == MaxOf(v)
  {
    assert v[..|v|] == v;
  }

  lemma CappedGrow(n: Numerics, t: Tile, k: nat)
    requires n.Lawful() && t.Valid()
    ensures CappedScores(n, t, k) == (if k == 0 then [] else CappedScores(n, t, k - 1)) + [CappedScore(n, t, k)]
  {
    hide CappedScore;
  }

  class PipelinedRun {
    const n: Numerics
    const t: Tile
    var logCol: Vector
    var bestCol: Vector
    var colStd: Vector
    var logRow: Vector
    var bestRow: Vector
    var rowStd: Vector
    var best: Bound

    ghost predicate Valid()
      reads this
    {
      && n.Lawful() && t.Valid() && t.cols % CHUNK == 0
      && |logCol| == |colStd| == t.cols && |logRow| == |rowStd| == t.rows
    }

    /** The scratch words start with whatever their storage held. */
    constructor (n: Numerics, t: Tile, logCol: Vector, bestCol: Vector, colStd: Vector, logRow: Vector, bestRow: Vector,
                 rowStd: Vector, best: Bound)
      requires n.Lawful() && t.Valid() && t.cols % CHUNK == 0
      requires |logCol| == |colStd| == t.cols && |logRow| == |rowStd| == t.rows
      ensures this.n == n && this.t == t && Valid()
    {
      this.n, this.t := n, t;
      this.logCol, this.bestCol, this.colStd := logCol, bestCol, colStd;
      this.logRow, this.bestRow, this.rowStd := logRow, bestRow, rowStd;
      this.best := best;
    }

    /** Zero the row scales and measure the rows of the tile. */
    method InitialRowPhase()
      requires Valid()
      modifies this`logRow, this`rowStd
      ensures Valid() && logRow == Candidate(n, t, 0).row && rowStd == RowStds(n, t, Candidate(n, t, 0))
    {
      UnitScales(n, t);
      for r := 0 to t.rows
        invariant |logRow| == |rowStd| == t.rows
        invariant forall x :: 0 <= x < r ==> logRow[x] == 0.0 && rowStd[x] == RowStds(n, t, Candidate(n, t, 0))[x]
      {
        assert t.values[r] == RowOf(n, t, Candidate(n, t, 0), r);
        logRow := logRow[r := 0.0];
        rowStd := rowStd[r := n.Std(t.values[r])];
      }
    }

    /** Normalize every row and measure it again. */
    method RowPhase()
      requires Valid()
      modifies this`logRow, this`rowStd
      ensures Valid() && Scales(logCol, logRow) == Rowed(n, t, old(Scales(logCol, logRow)))
      ensures rowStd == RowStds(n, t, Scales(logCol, logRow))
    {
      hide RowStds, Rowed;
      ghost var was := Scales(logCol, logRow);
      ghost var now := Rowed(n, t, was);
      for r := 0 to t.rows
        invariant |logRow| == |rowStd| == t.rows
        invariant forall x :: 0 <= x < t.rows ==> logRow[x] == if x < r then now.row[x] else was.row[x]
        invariant forall x :: 0 <= x < r ==> rowStd[x] == RowStds(n, t, now)[x]
      {
        var logged, std := RowProgram(n, t, was, logCol, logRow[r], r);
        logRow, rowStd := logRow[r := logged], rowStd[r := std];
      }
      assert logRow == now.row && rowStd == RowStds(n, t, now);
    }

    /** Deviations of the columns under the given log scales, eight at a time, with their extremes. */
    method MeasureColumns(logs: Vector)
      returns (colMin: real, colMax: real)
      requires Valid() && |logs| == t.cols
      modifies this`colStd
      ensures Valid() && colStd == ColumnStds(n, t, Scales(logs, logRow))
      ensures colMin == MinReal(COL_MIN_START, MinOf(colStd)) && colMax == MaxOf(colStd)
    {
      hide ColumnStds, RunningExtremes, MinOf, MaxOf;
      ghost var stds := ColumnStds(n, t, Scales(logs, logRow));
      colMin, colMax := COL_MIN_START, 0.0;
      NoneSeen(stds);
      var base := 0;
      while base < t.cols
        invariant 0 <= base <= t.cols && base % CHUNK == 0 && |colStd| == t.cols
        invariant colStd[..base] == stds[..base] && RunningExtremes(stds, base, colMin, colMax)
      {
        var chunk := ColumnChunk(n, t, logs, logRow, base);
        ExtremesStep(stds, base, colMin, colMax);
        colStd := colStd[..base] + chunk + colStd[base + CHUNK..];
        colMin, colMax := MinReal(colMin, MinOf(chunk)), MaxReal(colMax, MaxOf(chunk));
        assert stds[..base + CHUNK] == stds[..base] + chunk;
        base := base + CHUNK;
      }
      assert colStd == stds;
      ExtremesEnd(stds, colMin, colMax);
    }

    /** Keep the candidate when its score is at least as good as the best so far. */
    method KeepIfBetter(first: bool, logs: Vector, score: real, ghost scores: Vector)
      requires n.Lawful() && t.Valid() && Scales(logs, logRow) == Candidate(n, t, |scores|)
      requires if |scores| == 0 then first else !first && Keeps(n, t, scores, best, bestCol, bestRow)
      modifies this`best, this`bestCol, this`bestRow
      ensures Keeps(n, t, scores + [score], best, bestCol, bestRow)
    {
      hide Keeps, Candidate;
      var previous := if first then Infinite else best;
      KeepsStep(n, t, scores, previous, bestCol, bestRow, score);
      best := previous;
      if Better(score, previous) {
        best, bestRow, bestCol := Known(score), ExpAll(n, logRow), ExpAll(n, logs);
      }
    }

    /** Score one candidate, keep it if it is at least as good, and normalize the columns for the next. */
    method ColumnPhase(first: bool, normalize: bool, ghost scores: Vector)
      requires Valid()
      requires (if first then Scales(Zeros(t.cols), logRow) else Scales(logCol, logRow)) == Candidate(n, t, |scores|)
      requires rowStd == RowStds(n, t, Candidate(n, t, |scores|))
      requires if |scores| == 0 then first else !first && Keeps(n, t, scores, best, bestCol, bestRow)
      modifies this`best, this`bestCol, this`bestRow, this`colStd, this`logCol
      ensures Valid() && Keeps(n, t, scores + [CappedScore(n, t, |scores|)], best, bestCol, bestRow)
      ensures normalize ==> Scales(logCol, logRow) == Columned(n, t, Candidate(n, t, |scores|))
    {
      hide Keeps, ColumnStds, RowStds, Candidate, MinOf, MaxOf, Ratio, Zeros, AdjustedAll;
      var logs := if first then Zeros(t.cols) else logCol;
      var colMin, colMax := MeasureColumns(logs);
      var score := Ratio(colMax, colMin);
      score := score + Ratio(MaxOf(rowStd), MinOf(rowStd));
      assert score == CappedScore(n, t, |scores|);
      KeepIfBetter(first, logs, score, scores);
      if normalize {
        logCol := AdjustedAll(n, logs, colStd);
      }
    }

    /** Row phase, then column and row phases, then one more scoring. */
    method Run(iterations: nat)
      requires Valid() && iterations > 0
      modifies this
      ensures Keeps(n, t, CappedScores(n, t, iterations), best, bestCol, bestRow)
    {
      hide Keeps, RowStds, CappedScores, CappedScore, Columned, Rowed;
      InitialRowPhase();
      for k := 0 to iterations
        invariant Valid() && logRow == Candidate(n, t, k).row && rowStd == RowStds(n, t, Candidate(n, t, k))
        invariant k > 0 ==> logCol == Candidate(n, t, k).col
        invariant k > 0 ==> Keeps(n, t, CappedScores(n, t, k - 1), best, bestCol, bestRow)
      {
        ColumnPhase(k == 0, true, if k == 0 then [] else CappedScores(n, t, k - 1));
        CappedGrow(n, t, k);
        RowPhase();
      }
      ColumnPhase(false, false, CappedScores(n, t, iterations - 1));
      CappedGrow(n, t, iterations);
    }
  }

  lemma NoneSeen(v: Vector)
    ensures RunningExtremes(v, 0, COL_MIN_START, 0.0)
  {
  }

  function RowUnder(n: Numerics, t: Tile, cols: Vector, logRow: real, r: nat): (row: Vector)
    requires n.Lawful() && t.Valid() && |cols| == t.cols && r < t.rows
    ensures |row| == t.cols
  {
    seq(t.cols, c requires 0 <= c < t.cols => RescaledEntry(n, t, cols[c], logRow, r, c))
  }

  lemma RowUnderIs(n: Numerics, t: Tile, s: Scales, r: nat)
    requires n.Lawful() && t.Valid() && Fits(t, s) && r < t.rows
    ensures RowUnder(n, t, s.col, s.row[r], r) == RowOf(n, t, s, r)
  {
  }

  /** One row: its new log scale and its deviation under it. */
  method RowProgram(n: Numerics, t: Tile, ghost was: Scales, cols: Vector, logRow: real, r: nat)
    returns (logged: real, std: real)
    requires n.Lawful() && t.Valid() && Fits(t, was) && r < t.rows && cols == was.col && logRow == was.row[r]
    ensures logged == Rowed(n, t, was).row[r] && std == RowStds(n, t, Rowed(n, t, was))[r]
  {
    hide Adjusted, RowUnder;
    RowUnderIs(n, t, was, r);
    logged := Adjusted(n, logRow, n.Std(RowUnder(n, t, cols, logRow, r)));
    RowUnderIs(n, t, Rowed(n, t, was), r);
    std := n.Std(RowUnder(n, t, cols, logged, r));
  }

  /** The deviations of eight columns. */
  method ColumnChunk(n: Numerics, t: Tile, logs: Vector, logRow: Vector, base: nat) returns (chunk: Vector)
    requires n.Lawful() && t.Valid() && Fits(t, Scales(logs, logRow)) && base + CHUNK <= t.cols
    ensures chunk == ColumnStds(n, t, Scales(logs, logRow))[base..base + CHUNK]
  {
    chunk := [];
    for k := 0 to CHUNK
      invariant chunk == ColumnStds(n, t, Scales(logs, logRow))[base..base + k]
    {
      var column := seq(t.rows, r requires 0 <= r < t.rows =>
        RescaledEntry(n, t, logs[base + k], logRow[r], r, base + k));
      assert column == ColumnOf(n, t, Scales(logs, logRow), base + k);
      chunk := chunk + [n.Std(column)];
    }
  }

  /** The pipelined loop returns the scales of the plain loop, as long as no candidate's least column
      deviation exceeds the constant the running minimum starts from. */
  lemma PipelinedEqualsPlain(n: Numerics, t: Tile, iterations: nat, best: Bound, sCol: Vector, sRow: Vector,
                             best': Bound, sCol': Vector, sRow': Vector)
    requires n.Lawful() && t.Valid()
    requires Keeps(n, t, Scores(n, t, iterations), best, sCol, sRow)
    requires Keeps(n, t, CappedScores(n, t, iterations), best', sCol', sRow')
    requires forall k :: 0 <= k <= iterations ==> LeastColumn(n, t, k) <= COL_MIN_START
    ensures best == best' && sCol == sCol' && sRow == sRow'
  {
    hide Candidate, LeastColumn, Score, CappedScore, Best, ExpAll;
    forall k | 0 <= k <= iterations
      ensures Score(n, t, k) == CappedScore(n, t, k)
    {
      SameScore(n, t, k);
    }
    assert Scores(n, t, iterations) == CappedScores(n, t, iterations);
  }

  /** Tiles of any size the side storage can hold stay far below that constant, so for them the two
      loops always agree. */
  lemma BoundedTilesAgree(n: Numerics, t: Tile, iterations: nat, best: Bound, sCol: Vector, sRow: Vector,
                          best': Bound, sCol': Vector, sRow': Vector)
    requires n.Lawful() && t.Valid() && BoundedTile(t, COL_MIN_START / 8.0)
    requires Keeps(n, t, Scores(n, t, iterations), best, sCol, sRow)
    requires Keeps(n, t, CappedScores(n, t, iterations), best', sCol', sRow')
    ensures best == best' && sCol == sCol' && sRow == sRow'
  {
    hide LeastColumn, Keeps, BoundedTile, Scores, CappedScores;
    forall k | 0 <= k <= iterations
      ensures LeastColumn(n, t, k) <= COL_MIN_START
    {
      LeastColumnBound(n, t, k, COL_MIN_START / 8.0);
    }
    PipelinedEqualsPlain(n, t, iterations, best, sCol, sRow, best', sCol', sRow');
  }

  lemma SameScore(n: Numerics, t: Tile, k: nat)
    requires n.Lawful() && t.Valid() && LeastColumn(n, t, k) <= COL_MIN_START
    ensures Score(n, t, k) == CappedScore(n, t, k)
  {
    hide Candidate, ColumnStds, RowStds;
  }
}
