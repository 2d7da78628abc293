/** Flushing one complete tile: balance it, serialize every row, and store the words a reader decodes
    it with.

    A latent decodes as token scale times (code times row word plus zero word).  The stored words come
    from the weighted refit; weights are squared token scales, so the refit minimizes exactly the
    squared distance between the tile and what is decoded from the record. */
module TileFlush {
  import opened Quantizer
  import opened Sinkhorn
  import opened AffineRefit
  import opened PackedSerializer
  import opened Sharding

  /** The words of a record beside its codes: a scale and a zero for every row, and the token scales. */
  datatype Words = Words(scale: Vector, zero: Vector, token: Vector)

  /** The token scales the kernel's lanes reach; those of later tokens are not stored. */
  function TokenWords(sCol: Vector): Vector {
    sCol[..Min(LANES, |sCol|)]
  }

  ghost predicate PositiveScales(t: Tile, sCol: Vector, sRow: Vector) {
    && |sCol| == t.cols && |sRow| == t.rows
    && (forall c :: 0 <= c < t.cols ==> sCol[c] > 0.0) && (forall r :: 0 <= r < t.rows ==> sRow[r] > 0.0)
  }

  function BalancedEntry(x: real, sCol: real, sRow: real): real
    requires sCol > 0.0 && sRow > 0.0
  {
    x / sCol / sRow
  }

  /** Row `r` of the balanced tile. */
  ghost predicate IsBalanced(t: Tile, sCol: Vector, sRow: Vector, r: nat, values: seq<real>)
    requires t.Valid() && PositiveScales(t, sCol, sRow) && r < t.rows
  {
    |values| == t.cols && forall c :: 0 <= c < t.cols ==> values[c] == BalancedEntry(t.values[r][c], sCol[c], sRow[r])
  }

  ghost predicate AllBalanced(t: Tile, sCol: Vector, sRow: Vector, balanced: seq<seq<real>>, n: nat)
    requires t.Valid() && PositiveScales(t, sCol, sRow)
  {
    n <= t.rows && n <= |balanced| && forall r :: 0 <= r < n ==> IsBalanced(t, sCol, sRow, r, balanced[r])
  }

  /** Divide every entry by its column's and its row's scale. */
  method Finalize(t: Tile, sCol: Vector, sRow: Vector) returns (balanced: seq<seq<real>>)
    requires t.Valid() && PositiveScales(t, sCol, sRow)
    ensures |balanced| == t.rows && AllBalanced(t, sCol, sRow, balanced, t.rows)
  {
    balanced := [];
    for r := 0 to t.rows
      invariant |balanced| == r && AllBalanced(t, sCol, sRow, balanced, r)
    {
      var row := seq(t.cols, c requires 0 <= c < t.cols => BalancedEntry(t.values[r][c], sCol[c], sRow[r]));
      balanced := balanced + [row];
    }
  }

  /** What the refit of a row works on: squared token scales, codes, balanced values. */
  function Samples(values: seq<real>, lower: real, scale: real, sCol: Vector): (s: seq<Sample>)
    requires scale > 0.0 && |sCol| == |values|
    ensures |s| == |values|
  {
    seq(|values|, k requires 0 <= k < |values| =>
      Sample(sCol[k] * sCol[k], Code(values[k], lower, scale, QMAX) as real, values[k]))
  }

  function RowFit(values: seq<real>, lower: real, scale: real, sCol: Vector): Fit
    requires scale > 0.0 && |sCol| == |values|
  {
    Refit(Samples(values, lower, scale, sCol), scale, lower)
  }

  /** The words stored for the first `n` rows. */
  ghost predicate WordsOf(values: seq<seq<real>>, lowers: Vector, scales: Vector, sCol: Vector, sRow: Vector,
                          words: Words, n: nat)
  {
    && n <= |values| && n <= |lowers| && n <= |scales| && n <= |sRow|
    && |words.scale| == |words.zero| == n && words.token == TokenWords(sCol)
    && forall r :: 0 <= r < n ==> WordsAt(values[r], lowers[r], scales[r], sCol, sRow[r], words, r)
  }

  ghost predicate WordsAt(values: seq<real>, lower: real, scale: real, sCol: Vector, sRow: real, words: Words, r: nat)
    requires r < |words.scale| && r < |words.zero|
  {
    && scale > 0.0 && |sCol| == |values|
    && words.scale[r] == Times(sRow, RowFit(values, lower, scale, sCol).scale)
    && words.zero[r] == Times(sRow, RowFit(values, lower, scale, sCol).zero)
  }

  /** Balance a tile, pack the codes of its rows into the record, and compute its words. */
  method FlushTile(t: Tile, sCol: Vector, sRow: Vector, record: array<Byte8>)
    returns (balanced: seq<seq<real>>, lowers: Vector, scales: Vector, words: Words)
    requires t.Valid() && PositiveScales(t, sCol, sRow) && t.rows * RowBytes(t.cols) <= record.Length
    modifies record
    ensures |balanced| == |lowers| == t.rows && AllBalanced(t, sCol, sRow, balanced, t.rows)
    ensures RowsPacked(balanced, lowers, scales, t.cols, record[..])
    ensures WordsOf(balanced, lowers, scales, sCol, sRow, words, t.rows)
    ensures forall i :: t.rows * RowBytes(t.cols) <= i < record.Length ==> record[i] == old(record[i])
  {
    hide Refit, Code, RowPacked, RowRange;
    balanced := Finalize(t, sCol, sRow);
    lowers, scales := SerializeTile(balanced, t.cols, record);
    words := Words([], [], TokenWords(sCol));
    ghost var packed := record[..];
    for r := 0 to t.rows
      invariant record[..] == packed
      invariant WordsOf(balanced, lowers, scales, sCol, sRow, words, r)
    {
      assert IsBalanced(t, sCol, sRow, r, balanced[r]);
      var fit := RowFit(balanced[r], lowers[r], scales[r], sCol);
      ghost var was := words;
      words := Words(words.scale + [Times(sRow[r], fit.scale)], words.zero + [Times(sRow[r], fit.zero)],
                     words.token);
      WordsGrow(balanced, lowers, scales, sCol, sRow, was, words, r);
    }
  }

  lemma WordsGrow(values: seq<seq<real>>, lowers: Vector, scales: Vector, sCol: Vector, sRow: Vector,
                  was: Words, words: Words, n: nat)
    requires WordsOf(values, lowers, scales, sCol, sRow, was, n)
    requires n < |values| && n < |lowers| && n < |scales| && n < |sRow|
    requires words.token == TokenWords(sCol)
    requires |words.scale| == |words.zero| == n + 1 && words.scale[..n] == was.scale && words.zero[..n] == was.zero
    requires WordsAt(values[n], lowers[n], scales[n], sCol, sRow[n], words, n)
    ensures WordsOf(values, lowers, scales, sCol, sRow, words, n + 1)
  {
    hide Refit, RowFit;
    forall r | 0 <= r < n
      ensures WordsAt(values[r], lowers[r], scales[r], sCol, sRow[r], words, r)
    {
      assert WordsAt(values[r], lowers[r], scales[r], sCol, sRow[r], was, r);
      assert words.scale[..n][r] == was.scale[r] && words.zero[..n][r] == was.zero[r];
    }
  }

  // ---- decoding ----

  function DecodedValue(code: real, scaleWord: real, zeroWord: real, token: real): real {
    (code * scaleWord + zeroWord) * token
  }

  /** A reader's value of token `c` of row `r`. */
  function Decoded(record: seq<Byte8>, words: Words, group: nat, r: nat, c: nat): real
    requires r < |words.scale| && r < |words.zero| && c < |words.token|
    requires BITS * (r * group + c) / 8 + 1 < |record|
  {
    DecodedValue(UnpackCode(record, r * group + c) as int as real, words.scale[r], words.zero[r], words.token[c])
  }

  /** What codes and words decode to. */
  function DecodedRow(samples: seq<Sample>, sCol: Vector, scaleWord: real, zeroWord: real): (d: Vector)
    requires |sCol| == |samples|
    ensures |d| == |samples|
  {
    seq(|samples|, k requires 0 <= k < |samples| => DecodedValue(samples[k].c, scaleWord, zeroWord, sCol[k]))
  }

  function SquaredDistance(a: Vector, b: Vector): real
    requires |a| == |b|
  {
    if a == [] then 0.0 else SquaredDistance(a[1..], b[1..]) + Square(a[0] - b[0])
  }

  /** Row and token scales undo the balancing, token by token. */
  lemma OneLoss(x: real, sCol: real, sRow: real, sample: Sample, scale: real, zero: real)
    requires sCol > 0.0 && sRow > 0.0 && sample.w == sCol * sCol && sample.v == BalancedEntry(x, sCol, sRow)
    ensures Square(x - DecodedValue(sample.c, Times(sRow, scale), Times(sRow, zero), sCol))
         == SquareTimes(sRow, Loss(sample, scale, zero))
  {
    var y := BalancedEntry(x, sCol, sRow);
    var e := y - (scale * sample.c + zero);
    assert x == y * sRow * sCol by {
      assert x / sCol * sCol == x && y * sRow == x / sCol;
    }
    assert x - DecodedValue(sample.c, Times(sRow, scale), Times(sRow, zero), sCol) == sRow * sCol * e;
    SquareOfProduct(sRow, sCol, e);
  }

  lemma SquareOfProduct(a: real, b: real, e: real)
    ensures Square(a * b * e) == a * a * (b * b * Square(e))
  {
  }

  /** The squared distance of a row from its decoded form is its weighted error, scaled. */
  lemma {:induction false} DistanceIsError(xs: Vector, samples: seq<Sample>, sCol: Vector, sRow: real, scale: real,
                                           zero: real)
    requires |xs| == |samples| == |sCol| && sRow > 0.0
    requires forall k :: 0 <= k < |xs| ==> sCol[k] > 0.0
    requires forall k :: 0 <= k < |xs| ==>
      samples[k].w == sCol[k] * sCol[k] && samples[k].v == BalancedEntry(xs[k], sCol[k], sRow)
    ensures SquaredDistance(xs, DecodedRow(samples, sCol, Times(sRow, scale), Times(sRow, zero)))
         == SquareTimes(sRow, Error(samples, scale, zero))
  {
    hide Square, Loss, BalancedEntry, SquareTimes, DecodedValue, Times;
    if xs == [] {
      NothingScaled(sRow);
    } else {
      var d := DecodedRow(samples, sCol, Times(sRow, scale), Times(sRow, zero));
      DistanceIsError(xs[1..], samples[1..], sCol[1..], sRow, scale, zero);
      DecodedTail(samples, sCol, Times(sRow, scale), Times(sRow, zero));
      OneLoss(xs[0], sCol[0], sRow, samples[0], scale, zero);
      assert Square(xs[0] - d[0]) == SquareTimes(sRow, Loss(samples[0], scale, zero));
      Distributes(sRow, Error(samples[1..], scale, zero), Loss(samples[0], scale, zero));
    }
  }

  function SquareTimes(a: real, x: real): real { Times(Square(a), x) }

  lemma NothingScaled(a: real)
    ensures SquareTimes(a, 0.0) == 0.0
  {
  }

  lemma Distributes(a: real, b: real, c: real)
    ensures SquareTimes(a, b + c) == SquareTimes(a, b) + SquareTimes(a, c)
  {
  }

  lemma DecodedTail(samples: seq<Sample>, sCol: Vector, scaleWord: real, zeroWord: real)
    requires |sCol| == |samples| > 0
    ensures DecodedRow(samples, sCol, scaleWord, zeroWord)[0]
         == DecodedValue(samples[0].c, scaleWord, zeroWord, sCol[0])
    ensures DecodedRow(samples, sCol, scaleWord, zeroWord)[1..]
         == DecodedRow(samples[1..], sCol[1..], scaleWord, zeroWord)
  {
    var l, m := DecodedRow(samples, sCol, scaleWord, zeroWord),
        DecodedRow(samples[1..], sCol[1..], scaleWord, zeroWord);
    forall k | 0 <= k < |m|
      ensures l[1..][k] == m[k]
    {
      assert l[1..][k] == l[k + 1] && samples[1..][k] == samples[k + 1] && sCol[1..][k] == sCol[k + 1];
    }
  }

  lemma SquareOrder(a: real, b: real, c: real)
    requires a > 0.0 && b <= c
    ensures SquareTimes(a, b) <= SquareTimes(a, c)
  {
    hide Square;
    SquarePositive(a);
    ScaledOrder(Square(a), b, c);
  }

  lemma ScaledOrder(a: real, b: real, c: real)
    requires a > 0.0 && b <= c
    ensures Times(a, b) <= Times(a, c)
  {
  }

  // ---- the weights of a flushed tile ----

  /** The scales are those of some candidate: what either balancing loop returns. */
  ghost predicate ScalesOf(n: Numerics, t: Tile, sCol: Vector, sRow: Vector)
    requires n.Lawful() && t.Valid()
  {
    exists k: nat :: ScalesOfCandidate(n, t, k, sCol, sRow)
  }

  ghost predicate ScalesOfCandidate(n: Numerics, t: Tile, k: nat, sCol: Vector, sRow: Vector)
    requires n.Lawful() && t.Valid()
  {
    sCol == ExpAll(n, Candidate(n, t, k).col) && sRow == ExpAll(n, Candidate(n, t, k).row)
  }

  /** What either loop ensures. */
  lemma LoopsReturnScales(n: Numerics, t: Tile, scores: Vector, best: Bound, sCol: Vector, sRow: Vector)
    requires n.Lawful() && t.Valid() && Keeps(n, t, scores, best, sCol, sRow)
    ensures ScalesOf(n, t, sCol, sRow)
  {
    hide Candidate, ExpAll;
    assert ScalesOfCandidate(n, t, Best(scores), sCol, sRow);
  }

  /** Every scale either loop returns is at least a half. */
  lemma ScalesAtLeastHalf(n: Numerics, t: Tile, sCol: Vector, sRow: Vector)
    requires n.Lawful() && t.Valid() && ScalesOf(n, t, sCol, sRow)
    ensures PositiveScales(t, sCol, sRow) && forall c :: 0 <= c < t.cols ==> sCol[c] >= 0.5
  {
    hide Candidate;
    var k: nat :| ScalesOfCandidate(n, t, k, sCol, sRow);
    CandidateAboveFloor(n, t, k);
    var s := Candidate(n, t, k);
    forall c | 0 <= c < t.cols
      ensures sCol[c] >= 0.5
    {
      ScaleAtLeastHalf(n, s.col[c]);
    }
    forall r | 0 <= r < t.rows
      ensures sRow[r] > 0.0
    {
      ScaleAtLeastHalf(n, s.row[r]);
    }
  }

  lemma WeightAboveClamp(x: real)
    requires x >= 0.5
    ensures x * x >= FLOOR
  {
    ScaledOrder(x, 0.5, x);
    assert Times(x, 0.5) >= 0.25;
  }

  /** So the weight sum of a flushed row is never clamped. */
  lemma FlushedWeights(n: Numerics, t: Tile, sCol: Vector, sRow: Vector, values: seq<real>, lower: real, scale: real)
    requires n.Lawful() && t.Valid() && ScalesOf(n, t, sCol, sRow) && |values| == t.cols && scale > 0.0
    ensures |sCol| == |values| && SumW(Samples(values, lower, scale, sCol)) >= FLOOR
  {
    hide Code, ScalesOf, SumW;
    ScalesAtLeastHalf(n, t, sCol, sRow);
    var s := Samples(values, lower, scale, sCol);
    forall i | 0 <= i < |s|
      ensures s[i].w >= FLOOR
    {
      WeightAboveClamp(sCol[i]);
    }
    WeightsNotClamped(s);
  }

  // ---- a flushed row ----

  /** Everything known of one row of a flushed tile. */
  ghost predicate FlushedRow(n: Numerics, t: Tile, sCol: Vector, sRow: Vector, r: nat, values: seq<real>,
                             lower: real, scale: real)
  {
    && n.Lawful() && t.Valid() && ScalesOf(n, t, sCol, sRow) && r < t.rows && PositiveScales(t, sCol, sRow)
    && IsBalanced(t, sCol, sRow, r, values) && RowRange(values, lower, scale) && scale > 0.0
  }

  /** What row `r` decodes to with the refitted words, and with those of its plain range. */
  function RefitDecoded(values: seq<real>, lower: real, scale: real, sCol: Vector, sRow: real): Vector
    requires scale > 0.0 && |sCol| == |values|
  {
    var fit := RowFit(values, lower, scale, sCol);
    DecodedRow(Samples(values, lower, scale, sCol), sCol, Times(sRow, fit.scale), Times(sRow, fit.zero))
  }

  function RangeDecoded(values: seq<real>, lower: real, scale: real, sCol: Vector, sRow: real): Vector
    requires scale > 0.0 && |sCol| == |values|
  {
    DecodedRow(Samples(values, lower, scale, sCol), sCol, Times(sRow, scale), Times(sRow, lower))
  }

  lemma RowDistances(n: Numerics, t: Tile, sCol: Vector, sRow: Vector, r: nat, values: seq<real>, lower: real,
                     scale: real,
                     anyScale: real, anyZero: real)
    requires FlushedRow(n, t, sCol, sRow, r, values, lower, scale)
    ensures |sCol| == |values|
    ensures var s := Samples(values, lower, scale, sCol);
      SquaredDistance(t.values[r], DecodedRow(s, sCol, Times(sRow[r], anyScale), Times(sRow[r], anyZero)))
        == SquareTimes(sRow[r], Error(s, anyScale, anyZero))
  {
    hide Code, BalancedEntry, RowRange, ScalesOf, SquareTimes, Times;
    DistanceIsError(t.values[r], Samples(values, lower, scale, sCol), sCol, sRow[r], anyScale, anyZero);
  }

  lemma RangeOfRow(values: seq<real>, lower: real, scale: real) returns (upper: real)
    requires RowRange(values, lower, scale)
    ensures scale == RangeScale(lower, upper, QMAX) && forall i :: 0 <= i < |values| ==> lower <= values[i] <= upper
  {
    hide RangeScale;
    upper :| upper in values && (forall i :: 0 <= i < |values| ==> values[i] <= upper)
        && scale == RangeScale(lower, upper, QMAX);
  }

  /** For every row of every flushed tile the stored words decode at least as close to the tile as the
      words of the plain range would. */
  lemma FlushedRowIsNoWorse(n: Numerics, t: Tile, sCol: Vector, sRow: Vector, r: nat, values: seq<real>,
                            lower: real, scale: real)
    requires FlushedRow(n, t, sCol, sRow, r, values, lower, scale)
    ensures |sCol| == |values|
    ensures SquaredDistance(t.values[r], RefitDecoded(values, lower, scale, sCol, sRow[r]))
         <= SquaredDistance(t.values[r], RangeDecoded(values, lower, scale, sCol, sRow[r]))
  {
    hide Error, SquaredDistance, DecodedRow, Samples, RangeScale, Refit, SumW, ScalesOf, RowRange, SquareTimes, Times;
    var s, fit := Samples(values, lower, scale, sCol), RowFit(values, lower, scale, sCol);
    var upper := RangeOfRow(values, lower, scale);
    FlushedWeights(n, t, sCol, sRow, values, lower, scale);
    RefitVersusRange(s, lower, upper, QMAX);
    RowDistances(n, t, sCol, sRow, r, values, lower, scale, fit.scale, fit.zero);
    RowDistances(n, t, sCol, sRow, r, values, lower, scale, scale, lower);
    SquareOrder(sRow[r], Error(s, fit.scale, fit.zero), Error(s, scale, lower));
  }

  /** What a reader decodes from the record is what the words and codes of the row say. */
  lemma ReaderDecodes(values: seq<seq<real>>, lowers: Vector, scales: Vector, sCol: Vector, sRow: Vector, words: Words,
                      group: nat, record: seq<Byte8>, r: nat, c: nat)
    requires RowsPacked(values, lowers, scales, group, record)
    requires WordsOf(values, lowers, scales, sCol, sRow, words, |lowers|)
    requires r < |lowers| && c < group && group % 8 == 0 && c < LANES
    requires |lowers| * RowBytes(group) < |record|
    ensures |sCol| == |values[r]| == group && scales[r] > 0.0 && BITS * (r * group + c) / 8 + 1 < |record|
    ensures Decoded(record, words, group, r, c) == RefitDecoded(values[r], lowers[r], scales[r], sCol, sRow[r])[c]
  {
    hide RowPacked, RowRange, Code, Refit, UnpackCode, Misfit, RowCodes, RowsPacked, QuantizedCode, Restored;
    assert WordsAt(values[r], lowers[r], scales[r], sCol, sRow[r], words, r);
    PackedRowFacts(values, lowers, scales, group, record, r);
    TileRoundTrip(values, lowers, scales, group, record, r, c);
    ReadCode(values, lowers, scales, group, record, r, c);
    CodeAsInt(values[r][c], lowers[r], scales[r]);
  }

  lemma ReadCode(values: seq<seq<real>>, lowers: Vector, scales: Vector, group: nat, record: seq<Byte8>, r: nat, c: nat)
    requires Restored(values, lowers, scales, group, record, r, c)
    ensures BITS * (r * group + c) / 8 + 1 < |record|
    ensures UnpackCode(record, r * group + c) == QuantizedCode(values[r][c], lowers[r], scales[r])
  {
    hide UnpackCode, Misfit, QuantizedCode, Code;
  }

  /** `decoded` is what a reader gets for row `r`. */
  ghost predicate ReadsRow(record: seq<Byte8>, words: Words, group: nat, r: nat, decoded: Vector) {
    && r < |words.scale| && r < |words.zero| && group <= |words.token| && |decoded| == group
    && forall c :: 0 <= c < group ==> ReadsToken(record, words, group, r, c, decoded[c])
  }

  ghost predicate ReadsToken(record: seq<Byte8>, words: Words, group: nat, r: nat, c: nat, value: real)
    requires r < |words.scale| && r < |words.zero| && c < |words.token|
  {
    BITS * (r * group + c) / 8 + 1 < |record| && value == Decoded(record, words, group, r, c)
  }

  lemma FlushedTileHasRow(n: Numerics, t: Tile, sCol: Vector, sRow: Vector, balanced: seq<seq<real>>, lowers: Vector,
                          scales: Vector, record: seq<Byte8>, r: nat)
    requires n.Lawful() && t.Valid() && ScalesOf(n, t, sCol, sRow) && PositiveScales(t, sCol, sRow) && r < t.rows
    requires |balanced| == |lowers| == t.rows && AllBalanced(t, sCol, sRow, balanced, t.rows)
    requires RowsPacked(balanced, lowers, scales, t.cols, record)
    ensures r < |scales| && FlushedRow(n, t, sCol, sRow, r, balanced[r], lowers[r], scales[r])
  {
    hide RowPacked, RowRange, RowCodes, ScalesOf, BalancedEntry;
  }

  /** Whatever tile was balanced and flushed, each of its rows reads back from the record at least as
      close to the tile as plain min/max quantization of the balanced row would be. */
  lemma FlushedTileIsNoWorse(n: Numerics, t: Tile, scores: Vector, best: Bound, sCol: Vector, sRow: Vector,
                             balanced: seq<seq<real>>, lowers: Vector, scales: Vector, words: Words,
                             record: seq<Byte8>, r: nat, decoded: Vector)
    requires n.Lawful() && t.Valid() && Keeps(n, t, scores, best, sCol, sRow) && PositiveScales(t, sCol, sRow)
    requires r < t.rows && |balanced| == |lowers| == t.rows && AllBalanced(t, sCol, sRow, balanced, t.rows)
    requires RowsPacked(balanced, lowers, scales, t.cols, record)
    requires WordsOf(balanced, lowers, scales, sCol, sRow, words, t.rows)
    requires t.cols % 8 == 0 && t.cols <= LANES && t.rows * RowBytes(t.cols) < |record|
    requires ReadsRow(record, words, t.cols, r, decoded)
    ensures r < |scales| && scales[r] > 0.0 && |sCol| == |balanced[r]| == |decoded| == |t.values[r]|
    ensures SquaredDistance(t.values[r], decoded)
         <= SquaredDistance(t.values[r], RangeDecoded(balanced[r], lowers[r], scales[r], sCol, sRow[r]))
  {
    hide RowPacked, RowRange, RowCodes, ScalesOf, BalancedEntry, RowsPacked, WordsOf, Decoded, DecodedRow, Samples;
    hide SquaredDistance, AllBalanced, Refit, Keeps;
    LoopsReturnScales(n, t, scores, best, sCol, sRow);
    FlushedTileHasRow(n, t, sCol, sRow, balanced, lowers, scales, record, r);
    var values, lower, scale := balanced[r], lowers[r], scales[r];
    FlushedRowIsNoWorse(n, t, sCol, sRow, r, values, lower, scale);
    forall c | 0 <= c < |decoded|
      ensures decoded[c] == RefitDecoded(values, lower, scale, sCol, sRow[r])[c]
    {
      assert ReadsToken(record, words, t.cols, r, c, decoded[c]);
      ReaderDecodes(balanced, lowers, scales, sCol, sRow, words, t.cols, record, r, c);
    }
    assert decoded == RefitDecoded(values, lower, scale, sCol, sRow[r]);
  }
}
