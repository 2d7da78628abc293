/** Building the chunked-context metadata and restoring the token layout after the all-gather. */
module ContextReorg {
  import opened Sharding
  import opened PackedRows
  import opened ChunkPlan

  /* ----- the metadata ----- */

  function MaxLen(s: seq<nat>): (m: nat)
    ensures forall k :: 0 <= k < |s| ==> s[k] <= m
    ensures m == 0 || m in s
  {
    if s == [] then 0 else Max(MaxLen(s[..|s| - 1]), s[|s| - 1])
  }

  function WithContext(lens: seq<nat>, n: nat): (k: nat)
    requires n <= |lens|
    ensures k <= n
    ensures k > 0 <==> exists q :: 0 <= q < n && lens[q] > 0
  {
    if n == 0 then 0 else WithContext(lens, n - 1) + (if lens[n - 1] > 0 then 1 else 0)
  }

  /** The chunk length: an equal share of the workspace per request with context, in whole blocks. */
  function ChunkSize(size: nat, requests: nat, block: nat, align: bool): nat
    requires requests > 0 && block > 0
  {
    var share := size / requests;
    if align then share - share % block else share
  }

  lemma {:induction false} WithContextCounts(lens: seq<nat>, n: nat)
    requires n <= |lens|
    ensures WithContext(lens, n) == |set q | 0 <= q < n && lens[q] > 0|
  {
    if n > 0 {
      WithContextCounts(lens, n - 1);
      var before, now := set q | 0 <= q < n - 1 && lens[q] > 0, set q | 0 <= q < n && lens[q] > 0;
      assert now == if lens[n - 1] > 0 then before + {n - 1} else before;
    }
  }

  /** No longer chunk fits the workspace once per request with context. */
  lemma ChunkIsLargestShare(lens: seq<nat>, size: nat, block: nat, align: bool, longer: nat)
    requires block > 0 && WithContext(lens, |lens|) > 0
    ensures var requests := |set q | 0 <= q < |lens| && lens[q] > 0|;
      var chunk := ChunkSize(size, WithContext(lens, |lens|), block, align);
      && requests * chunk <= size && (align ==> chunk % block == 0)
      && (longer > chunk && (align ==> longer % block == 0) ==> requests * longer > size)
  {
    hide WithContext;
    WithContextCounts(lens, |lens|);
    var k := WithContext(lens, |lens|);
    var share, chunk := size / k, ChunkSize(size, k, block, align);
    MulMonotone(chunk, share, k);
    WholeBlocks(share, block);
    if longer > chunk && (align ==> longer % block == 0) {
      if align && longer <= share {
        MultiplesApart(chunk, longer, block);
        assert false;
      }
      MulMonotone(share + 1, longer, k);
      assert (share + 1) * k == share * k + k;
    }
  }

  lemma WholeBlocks(x: nat, block: nat)
    requires block > 0
    ensures (x - x % block) % block == 0 && x % block <= x
  {
    var q := x / block;
    assert x - x % block == q * block;
    DivModUnique(x - x % block, block, q, 0);
  }

  /** Different multiples of a block lie a block apart. */
  lemma MultiplesApart(a: nat, b: nat, block: nat)
    requires block > 0 && a < b && a % block == 0 && b % block == 0
    ensures a + block <= b
  {
    var i, j := a / block, b / block;
    assert a == i * block && b == j * block;
    if j <= i {
      MulMonotone(j, i, block);
    } else {
      MulMonotone(i + 1, j, block);
      assert (i + 1) * block == i * block + block;
    }
  }

  /** Per chunk: token counts, padded local counts, their sums and the longest request; per request: the
      local length of every rank. */
  datatype Metadata = Metadata(plan: Plan, lens: seq<nat>, chunkLens: seq<seq<nat>>, padded: seq<seq<nat>>,
                               totals: seq<nat>, maxLens: seq<nat>, toks: seq<nat>, locals: seq<seq<int>>)

  function ChunkRow(p: Plan, lens: seq<nat>, c: nat): (s: seq<nat>)
    ensures |s| == |lens|
  {
    seq(|lens|, q requires 0 <= q < |lens| => ChunkLen(p, lens[q], c))
  }

  function PaddedRow(p: Plan, lens: seq<nat>, c: nat): (s: seq<nat>)
    requires p.Valid()
    ensures |s| == |lens|
  {
    seq(|lens|, q requires 0 <= q < |lens| => PaddedChunkLen(p, lens[q], c))
  }

  function LocalRow(p: Plan, n: nat): (s: seq<int>)
    requires p.Valid()
    ensures |s| == p.w
  {
    seq(p.w, r requires 0 <= r < p.w => DcpLocalLen(n, p.w, r, p.i))
  }

  /** What the tables say about chunk `c`. */
  ghost predicate ChunkOk(m: Metadata, c: nat)
    requires m.plan.Valid() && c < |m.chunkLens| == |m.padded| == |m.totals| == |m.maxLens| == |m.toks|
  {
    && m.chunkLens[c] == ChunkRow(m.plan, m.lens, c)
    && m.padded[c] == PaddedRow(m.plan, m.lens, c)
    && m.totals[c] == Total(m.chunkLens[c], |m.lens|)
    && m.maxLens[c] == MaxLen(m.chunkLens[c])
    && m.toks[c] == Total(m.padded[c], |m.lens|)
  }

  ghost predicate MetadataOk(m: Metadata) {
    && m.plan.Valid()
    && |m.chunkLens| == |m.padded| == |m.totals| == |m.maxLens| == |m.toks|
    && (forall c :: 0 <= c < |m.chunkLens| ==> ChunkOk(m, c))
    && |m.locals| == |m.lens| && (forall q :: 0 <= q < |m.lens| ==> m.locals[q] == LocalRow(m.plan, m.lens[q]))
  }

  datatype Built = NoContext | Refused | Built(m: Metadata)

  method Build(lens: seq<nat>, size: nat, block: nat, align: bool, w: nat, i: nat) returns (b: Built)
    requires block > 0 && w > 1 && i > 0
    ensures b.NoContext? <==> forall q :: 0 <= q < |lens| ==> lens[q] == 0
    ensures WithContext(lens, |lens|) > 0 ==>
      var chunk := ChunkSize(size, WithContext(lens, |lens|), block, align);
      (b.Refused? <==> chunk == 0 || chunk % w != 0) &&
      (b.Built? ==> MetadataOk(b.m) && b.m.lens == lens && b.m.plan == Plan(w, i, chunk) &&
                    |b.m.chunkLens| == CeilDiv(MaxLen(lens), chunk))
  {
    var longest := MaxLen(lens);
    if longest == 0 {
      return NoContext;
    }
    var requests := WithContext(lens, |lens|);
    var k :| 0 <= k < |lens| && lens[k] == longest;
    assert lens[k] > 0;
    var chunk := ChunkSize(size, requests, block, align);
    if chunk == 0 || chunk % w != 0 {
      return Refused;
    }
    var p := Plan(w, i, chunk);
    var m := Metadata(p, lens, [], [], [], [], [], seq(|lens|, q requires 0 <= q < |lens| => LocalRow(p, lens[q])));
    for c := 0 to CeilDiv(longest, chunk)
      invariant m.plan == p && m.lens == lens && |m.chunkLens| == c && MetadataOk(m)
    {
      m := AddChunk(m, c);
    }
    b := Built(m);
  }

  /** The rows of one more chunk. */
  method AddChunk(m: Metadata, c: nat) returns (n: Metadata)
    requires MetadataOk(m) && |m.chunkLens| == c
    ensures MetadataOk(n) && n.plan == m.plan && n.lens == m.lens && |n.chunkLens| == c + 1
  {
    hide ChunkRow, PaddedRow, LocalRow;
    var tokens, padded := ChunkRow(m.plan, m.lens, c), PaddedRow(m.plan, m.lens, c);
    n := m.(chunkLens := m.chunkLens + [tokens], padded := m.padded + [padded],
            totals := m.totals + [Total(tokens, |m.lens|)],
            maxLens := m.maxLens + [MaxLen(tokens)], toks := m.toks + [Total(padded, |m.lens|)]);
    forall k | 0 <= k < c + 1
      ensures ChunkOk(n, k)
    {
      assert k < c ==> ChunkOk(m, k);
    }
  }

  /** The final workspace check never fires: no chunk is longer than the workspace. */
  lemma ChunksFitWorkspace(lens: seq<nat>, size: nat, block: nat, align: bool, w: nat, i: nat, c: nat)
    requires block > 0 && WithContext(lens, |lens|) > 0
    ensures
      var chunk := ChunkSize(size, WithContext(lens, |lens|), block, align);
      MaxLen(ChunkRow(Plan(w, i, chunk), lens, c)) <= chunk <= size
  {
    hide WithContext;
    var chunk := ChunkSize(size, WithContext(lens, |lens|), block, align);
    ShareBound(size, WithContext(lens, |lens|));
    var row := ChunkRow(Plan(w, i, chunk), lens, c);
    assert forall q :: 0 <= q < |lens| ==> row[q] <= chunk;
  }

  lemma ShareBound(size: nat, requests: nat)
    requires requests > 0
    ensures size / requests <= size && (size / requests) * requests <= size
  {
    MulMonotone(1, requests, size / requests);
  }

  /* ----- the reorganization ----- */

  datatype Outcome<T> = Failed | Rows(rows: seq<T>)

  /** One rank's rows of one request in this chunk. */
  function SegmentLen(local: int, idx: nat, size: nat, padded: nat): nat {
    Min(Max(0, local - idx * size), padded)
  }

  /** What the reorganization is given. */
  datatype Input<T> = Input(gathered: seq<T>, padded: seq<nat>, locals: seq<seq<int>>, size: nat, idx: nat, toks: nat,
                            w: nat)

  ghost predicate InputOk<T>(g: Input<T>) {
    && |g.locals| == |g.padded| && (forall q :: 0 <= q < |g.locals| ==> |g.locals[q]| == g.w)
    && Total(g.padded, |g.padded|) <= g.toks && |g.gathered| == g.w * g.toks
  }

  lemma SegmentInRange<T>(g: Input<T>, q: nat, r: nat)
    requires InputOk(g) && q < |g.padded| && r < g.w
    ensures SegmentLen(g.locals[q][r], g.idx, g.size, g.padded[q]) <= g.padded[q]
    ensures 0 <= r * g.toks + Total(g.padded, q)
    ensures r * g.toks + Total(g.padded, q) + SegmentLen(g.locals[q][r], g.idx, g.size, g.padded[q]) <= |g.gathered|
  {
    hide SegmentLen, Total;
    SegmentCapped(g.locals[q][r], g.idx, g.size, g.padded[q]);
    NextStart(g.padded, q);
    TotalMonotone(g.padded, q + 1, |g.padded|);
    RangeFits(r, g.w, g.toks, Total(g.padded, q), SegmentLen(g.locals[q][r], g.idx, g.size, g.padded[q]));
  }

  lemma SegmentCapped(local: int, idx: nat, size: nat, padded: nat)
    ensures SegmentLen(local, idx, size, padded) <= padded
  {
  }

  lemma RangeFits(r: nat, w: nat, toks: nat, start: nat, len: nat)
    requires r < w && start + len <= toks
    ensures 0 <= r * toks + start && r * toks + start + len <= w * toks
  {
    MulMonotone(r + 1, w, toks);
    Distribute(r, 1, toks);
  }

  function Segment<T>(g: Input<T>, q: nat, r: nat): (s: seq<T>)
    requires InputOk(g) && q < |g.padded| && r < g.w
    ensures |s| == SegmentLen(g.locals[q][r], g.idx, g.size, g.padded[q])
  {
    SegmentInRange(g, q, r);
    var from := r * g.toks + Total(g.padded, q);
    g.gathered[from..from + SegmentLen(g.locals[q][r], g.idx, g.size, g.padded[q])]
  }

  /** The rows of request `q`, rank by rank. */
  function RequestRows<T>(g: Input<T>, q: nat, n: nat): seq<T>
    requires InputOk(g) && q < |g.padded| && n <= g.w
  {
    if n == 0 then [] else RequestRows(g, q, n - 1) + Segment(g, q, n - 1)
  }

  /** The rows of the first `n` requests, request by request. */
  function AllRows<T>(g: Input<T>, n: nat): seq<T>
    requires InputOk(g) && n <= |g.padded|
  {
    if n == 0 then [] else AllRows(g, n - 1) + RequestRows(g, n - 1, g.w)
  }

  function LongestRequest<T>(g: Input<T>, n: nat): nat
    requires InputOk(g) && n <= |g.padded|
  {
    if n == 0 then 0 else Max(LongestRequest(g, n - 1), |RequestRows(g, n - 1, g.w)|)
  }

  /** Walk requests and ranks, collect the live segments, and check the totals. */
  method ReorgKvcache<T>(g: Input<T>, sumLen: nat, maxLen: nat) returns (o: Outcome<T>)
    requires InputOk(g)
    ensures o == if |AllRows(g, |g.padded|)| == sumLen && LongestRequest(g, |g.padded|) == maxLen
                 then Rows(AllRows(g, |g.padded|)) else Failed
  {
    hide InputOk, RequestRows, Total;
    var rows: seq<T>, src, longest := [], 0, 0;
    NoRows(g);
    for q := 0 to |g.padded|
      invariant rows == AllRows(g, q) && src == Total(g.padded, q) && longest == LongestRequest(g, q)
    {
      var more := CollectRequest(g, q, src);
      rows := rows + more;
      longest := Max(longest, |more|);
      NextStart(g.padded, q);
      src := src + g.padded[q];
    }
    o := if |rows| == sumLen && longest == maxLen then Rows(rows) else Failed;
  }

  lemma NextStart(padded: seq<nat>, q: nat)
    requires q < |padded|
    ensures Total(padded, q + 1) == Total(padded, q) + padded[q]
  {
  }

  lemma NoRows<T>(g: Input<T>)
    requires InputOk(g)
    ensures AllRows(g, 0) == [] && Total(g.padded, 0) == 0 && LongestRequest(g, 0) == 0
  {
  }

  /** One request: the live segment of every rank, starting `src` rows into the rank's slab. */
  method CollectRequest<T>(g: Input<T>, q: nat, src: nat) returns (rows: seq<T>)
    requires InputOk(g) && q < |g.padded| && src == Total(g.padded, q)
    ensures rows == RequestRows(g, q, g.w)
  {
    hide SegmentLen, Total;
    rows := [];
    var current := 0;
    for r := 0 to g.w
      invariant rows == RequestRows(g, q, r) && current == |rows|
    {
      var live := SegmentLen(g.locals[q][r], g.idx, g.size, g.padded[q]);
      SegmentInRange(g, q, r);
      if live != 0 {
        rows := rows + g.gathered[r * g.toks + src..r * g.toks + src + live];
        current := current + live;
      }
    }
  }

  /* ----- lengths: the assertions ----- */

  /** The reorganization of chunk `c` as the metadata drives it. */
  ghost predicate Drives<T>(m: Metadata, c: nat, g: Input<T>) {
    && MetadataOk(m) && c < |m.chunkLens|
    && g.padded == m.padded[c] && g.locals == m.locals && g.size == m.plan.LocalChunk() && g.idx == c
    && g.toks == m.toks[c] && g.w == m.plan.w && |g.gathered| == g.w * g.toks
  }

  lemma DrivenInput<T>(m: Metadata, c: nat, g: Input<T>)
    requires Drives(m, c, g)
    ensures InputOk(g) && |g.padded| == |m.lens|
    ensures forall q, r :: 0 <= q < |m.lens| && 0 <= r < g.w ==>
      SegmentLen(g.locals[q][r], g.idx, g.size, g.padded[q]) == LocalChunkLen(m.plan, m.lens[q], c, r)
  {
    hide DcpLocalLen, CeilDiv, PaddedChunkLen;
    assert ChunkOk(m, c);
  }

  lemma {:induction false} RequestLength<T>(m: Metadata, c: nat, g: Input<T>, q: nat, n: nat)
    requires Drives(m, c, g) && InputOk(g) && q < |m.lens| == |g.padded| && n <= g.w
    ensures |RequestRows(g, q, n)| == SumLocal(m.plan, m.lens[q], c, n)
  {
    hide Drives, Segment, LocalChunkLen, SegmentLen;
    if n > 0 {
      RequestLength(m, c, g, q, n - 1);
      DrivenInput(m, c, g);
      PlanOf(m, c, g);
    }
  }

  lemma PlanOf<T>(m: Metadata, c: nat, g: Input<T>)
    requires Drives(m, c, g)
    ensures m.plan.Valid() && g.w == m.plan.w && g.idx == c && g.size == m.plan.LocalChunk()
  {
  }

  /** The sum the reorganization compares with: rows of the first `n` requests. */
  function SumRows(m: Metadata, c: nat, n: nat): nat
    requires m.plan.Valid() && n <= |m.lens|
  {
    if n == 0 then 0 else SumRows(m, c, n - 1) + SumLocal(m.plan, m.lens[n - 1], c, m.plan.w)
  }

  lemma {:induction false} AllLength<T>(m: Metadata, c: nat, g: Input<T>, n: nat)
    requires Drives(m, c, g) && InputOk(g) && n <= |m.lens| == |g.padded| && m.plan.Valid()
    ensures |AllRows(g, n)| == SumRows(m, c, n)
  {
    hide Drives, RequestRows, SumLocal;
    if n > 0 {
      AllLength(m, c, g, n - 1);
      PlanOf(m, c, g);
      RequestLength(m, c, g, n - 1, g.w);
    }
  }

  lemma {:induction false} AlignedRows(m: Metadata, c: nat, n: nat)
    requires m.plan.Valid() && m.plan.Aligned() && n <= |m.lens|
    ensures SumRows(m, c, n) == Total(ChunkRow(m.plan, m.lens, c), n)
  {
    hide SumLocal, ChunkLen;
    if n > 0 {
      AlignedRows(m, c, n - 1);
      AlignedConserves(m.plan, m.lens[n - 1], c);
    }
  }

  lemma {:induction false} AlignedLongest<T>(m: Metadata, c: nat, g: Input<T>, n: nat)
    requires Drives(m, c, g) && InputOk(g) && n <= |m.lens| == |g.padded| && m.plan.Valid() && m.plan.Aligned()
    ensures LongestRequest(g, n) == MaxLen(ChunkRow(m.plan, m.lens, c)[..n])
  {
    hide Drives, RequestRows, SumLocal, ChunkLen, MaxLen;
    NoneLongest(ChunkRow(m.plan, m.lens, c));
    if n > 0 {
      AlignedLongest(m, c, g, n - 1);
      PlanOf(m, c, g);
      RequestLength(m, c, g, n - 1, g.w);
      AlignedConserves(m.plan, m.lens[n - 1], c);
      LongestStep(ChunkRow(m.plan, m.lens, c), n);
    }
  }

  lemma NoneLongest(row: seq<nat>)
    ensures MaxLen(row[..0]) == 0
  {
  }

  lemma LongestStep(row: seq<nat>, n: nat)
    requires 0 < n <= |row|
    ensures MaxLen(row[..n]) == Max(MaxLen(row[..n - 1]), row[n - 1])
  {
    assert row[..n][..n - 1] == row[..n - 1];
  }

  /** In an aligned plan the assertions of the reorganization hold in every chunk. */
  lemma AssertionsNeverFire<T>(m: Metadata, c: nat, g: Input<T>)
    requires Drives(m, c, g) && m.plan.Valid() && m.plan.Aligned()
    ensures InputOk(g)
    ensures |AllRows(g, |g.padded|)| == m.totals[c] && LongestRequest(g, |g.padded|) == m.maxLens[c]
  {
    hide ChunkRow, PaddedRow, AllRows, LongestRequest;
    DrivenInput(m, c, g);
    AllLength(m, c, g, |m.lens|);
    AlignedRows(m, c, |m.lens|);
    AlignedLongest(m, c, g, |m.lens|);
    assert ChunkOk(m, c);
    var row := ChunkRow(m.plan, m.lens, c);
    assert row[..|m.lens|] == row;
  }

  /** The metadata of one request. */
  ghost predicate Single(m: Metadata, n: nat) {
    MetadataOk(m) && m.lens == [n] && |m.chunkLens| > 0
  }

  /** In a misaligned plan they fail: the first chunk of one long context gathers too many rows. */
  lemma MisalignedFires<T>(m: Metadata, g: Input<T>)
    requires m.plan.Valid() && !m.plan.Aligned() && Single(m, OverflowLen(m.plan)) && Drives(m, 0, g)
    ensures InputOk(g) && |AllRows(g, |g.padded|)| > m.totals[0]
  {
    hide SumLocal, ChunkLen, OverflowLen, PaddedRow;
    MisalignedOverflows(m.plan);
    DrivenInput(m, 0, g);
    AllLength(m, 0, g, 1);
    assert ChunkOk(m, 0);
    SumOfOne(m, OverflowLen(m.plan));
  }

  lemma SumOfOne(m: Metadata, n: nat)
    requires m.plan.Valid() && m.lens == [n]
    ensures SumRows(m, 0, 1) == SumLocal(m.plan, n, 0, m.plan.w)
    ensures Total(ChunkRow(m.plan, m.lens, 0), 1) == ChunkLen(m.plan, n, 0)
  {
    hide SumLocal, ChunkLen;
    assert SumRows(m, 0, 0) == 0 && Total(ChunkRow(m.plan, m.lens, 0), 0) == 0;
  }

  /* ----- workspace ----- */

  /** In an aligned plan built from the workspace size, a chunk's padded local rows fit the share of the
      workspace each rank gathers into. */
  lemma PaddedRowsFit(lens: seq<nat>, size: nat, block: nat, align: bool, p: Plan, c: nat)
    requires block > 0 && WithContext(lens, |lens|) > 0 && p.Valid() && p.Aligned()
    requires p.chunk == ChunkSize(size, WithContext(lens, |lens|), block, align)
    ensures Total(PaddedRow(p, lens, c), |lens|) <= size / p.w
  {
    hide PaddedRow, ChunkSize;
    var k, l := WithContext(lens, |lens|), p.LocalChunk();
    PaddedAtMost(p, lens, c, |lens|);
    ChunkShare(size, k, block, align);
    LocalChunkShare(p);
    Assoc(k, l, p.w);
    assert (k * l) * p.w == k * p.chunk;
    ShareFits(k * l, p.w, size);
  }

  lemma ChunkShare(size: nat, requests: nat, block: nat, align: bool)
    requires requests > 0 && block > 0
    ensures requests * ChunkSize(size, requests, block, align) <= size
  {
    ShareBound(size, requests);
    MulMonotone(ChunkSize(size, requests, block, align), size / requests, requests);
  }

  lemma ShareFits(x: nat, w: nat, size: nat)
    requires w > 0 && x * w <= size
    ensures x <= size / w
  {
    assert size == (size / w) * w + size % w;
    if size / w < x {
      MulMonotone(size / w + 1, x, w);
      Distribute(size / w, 1, w);
      assert false;
    }
  }

  lemma LocalChunkShare(p: Plan)
    requires p.Valid() && p.Aligned()
    ensures p.LocalChunk() * p.w == p.chunk
  {
    var m := CeilDiv(p.chunk, p.Virtual());
    CeilCovers(p.chunk, p.Virtual());
    Assoc(m, p.i, p.w);
    assert p.i * p.w == p.w * p.i;
  }

  lemma {:induction false} PaddedAtMost(p: Plan, lens: seq<nat>, c: nat, n: nat)
    requires p.Valid() && n <= |lens|
    ensures Total(PaddedRow(p, lens, c), n) <= WithContext(lens, n) * p.LocalChunk()
  {
    hide PaddedChunkLen, PaddedLocal, Plan.LocalChunk;
    if n > 0 {
      PaddedAtMost(p, lens, c, n - 1);
      PaddedOfOne(p, lens[n - 1], c);
      Distribute(WithContext(lens, n - 1), 1, p.LocalChunk());
    }
  }

  lemma PaddedOfOne(p: Plan, n: nat, c: nat)
    requires p.Valid()
    ensures PaddedChunkLen(p, n, c) <= (if n > 0 then p.LocalChunk() else 0)
  {
    if n == 0 {
      CeilCovers(0, p.Virtual());
    }
  }

  /* ----- contents: every token once ----- */

  /** A context row: request, rank and index among the rank's tokens of that request. */
  datatype Tag = Padding | Token(q: nat, r: nat, l: nat)

  /** Each rank gathered its own tokens of the chunk, request after request from the padded starts on. */
  ghost predicate Gathers(m: Metadata, c: nat, g: Input<Tag>) {
    && Drives(m, c, g) && InputOk(g) && m.plan.Valid() && |g.padded| == |m.lens|
    && (forall q: nat, r: nat, j: nat :: q < |m.lens| && r < m.plan.w ==> GathersAt(m, c, g, q, r, j))
  }

  /** Row `j` of request `q` in rank `r`'s slab is the rank's next token of the chunk, if it has one. */
  predicate GathersAt(m: Metadata, c: nat, g: Input<Tag>, q: nat, r: nat, j: nat)
    requires m.plan.Valid() && q < |m.lens| && q < |g.padded|
  {
    var l, at := c * m.plan.LocalChunk() + j, r * g.toks + Total(g.padded, q) + j;
    j < g.padded[q] && l < LocalNumTokens(m.lens[q], m.plan.w, r, m.plan.i) ==>
      0 <= at < |g.gathered| && g.gathered[at] == Token(q, r, l)
  }

  /** What the reorganization cuts out for each rank. */
  ghost predicate Runs(m: Metadata, c: nat, g: Input<Tag>) {
    && Drives(m, c, g) && InputOk(g) && m.plan.Valid() && |g.padded| == |m.lens|
    && (forall q, r {:trigger Segment(g, q, r)} :: 0 <= q < |m.lens| && 0 <= r < m.plan.w ==>
          IsRun(Segment(g, q, r), q, r, c * m.plan.LocalChunk()))
    && (forall q, r {:trigger Segment(g, q, r)} :: 0 <= q < |m.lens| && 0 <= r < m.plan.w ==>
          |Segment(g, q, r)| == LocalChunkLen(m.plan, m.lens[q], c, r))
  }

  lemma SegmentIsRun(m: Metadata, c: nat, g: Input<Tag>, q: nat, r: nat)
    requires Gathers(m, c, g) && q < |m.lens| && r < m.plan.w == g.w
    ensures IsRun(Segment(g, q, r), q, r, c * m.plan.LocalChunk())
    ensures |Segment(g, q, r)| == LocalChunkLen(m.plan, m.lens[q], c, r)
  {
    hide InputOk, LocalNumTokens, LocalChunkLen, DcpLocalLen, Total, CeilDiv, Plan.LocalChunk, Drives;
    DrivenInput(m, c, g);
    SegmentInRange(g, q, r);
    LocalChunkIsWindow(m.plan, m.lens[q], c, r);
    var s, from := Segment(g, q, r), r * g.toks + Total(g.padded, q);
    forall j: nat | j < |s|
      ensures s[j] == Token(q, r, c * m.plan.LocalChunk() + j)
    {
      assert GathersAt(m, c, g, q, r, j);
      assert s[j] == g.gathered[from + j];
    }
  }

  lemma GatheredRuns(m: Metadata, c: nat, g: Input<Tag>)
    requires Gathers(m, c, g)
    ensures Runs(m, c, g)
  {
    hide InputOk, LocalChunkLen, IsRun, Plan.LocalChunk, GathersAt, Drives;
    PlanOf(m, c, g);
    forall q, r {:trigger Segment(g, q, r)} | 0 <= q < |m.lens| && 0 <= r < m.plan.w
      ensures IsRun(Segment(g, q, r), q, r, c * m.plan.LocalChunk())
      ensures |Segment(g, q, r)| == LocalChunkLen(m.plan, m.lens[q], c, r)
    {
      SegmentIsRun(m, c, g, q, r);
    }
  }

  /** Consecutive tokens of one request and rank. */
  ghost predicate IsRun(s: seq<Tag>, q: nat, r: nat, from: nat) {
    forall j :: 0 <= j < |s| ==> s[j] == Token(q, r, from + j)
  }

  lemma {:induction false} RunCount(s: seq<Tag>, q: nat, r: nat, from: nat, x: Tag)
    requires IsRun(s, q, r, from)
    ensures multiset(s)[x] == if x.Token? && x.q == q && x.r == r && from <= x.l < from + |s| then 1 else 0
  {
    if s != [] {
      var front, last := s[..|s| - 1], s[|s| - 1];
      RunCount(front, q, r, from, x);
      assert s == front + [last];
    }
  }

  lemma NoneCounted(g: Input<Tag>, q: nat, x: Tag)
    requires InputOk(g) && q < |g.padded|
    ensures multiset(RequestRows(g, q, 0))[x] == 0
  {
  }

  lemma {:induction false} RequestCount(m: Metadata, c: nat, g: Input<Tag>, q: nat, n: nat, x: Tag)
    requires Runs(m, c, g) && q < |m.lens| && n <= m.plan.w == g.w
    ensures
      var from := c * m.plan.LocalChunk();
      multiset(RequestRows(g, q, n))[x] ==
        if x.Token? && x.q == q && x.r < n
           && from <= x.l < from + LocalChunkLen(m.plan, m.lens[q], c, x.r) then 1 else 0
  {
    hide Drives, InputOk, Segment, LocalChunkLen, IsRun, Plan.LocalChunk;
    if n == 0 {
      NoneCounted(g, q, x);
    } else {
      RequestCount(m, c, g, q, n - 1, x);
      RunCount(Segment(g, q, n - 1), q, n - 1, c * m.plan.LocalChunk(), x);
    }
  }

  lemma {:induction false} AllCount(m: Metadata, c: nat, g: Input<Tag>, n: nat, x: Tag)
    requires Runs(m, c, g) && n <= |m.lens|
    ensures
      var from := c * m.plan.LocalChunk();
      multiset(AllRows(g, n))[x] ==
        if x.Token? && x.q < n && x.r < m.plan.w
            && from <= x.l < from + LocalChunkLen(m.plan, m.lens[x.q], c, x.r) then 1 else 0
  {
    hide RequestRows, LocalChunkLen, Plan.LocalChunk;
    if n > 0 {
      AllCount(m, c, g, n - 1, x);
      PlanOf(m, c, g);
      RequestCount(m, c, g, n - 1, m.plan.w, x);
    }
  }

  /** Conservation: in an aligned plan token `t` of request `q` is among the rows of chunk `c` exactly once
      if `c` is its chunk, and not at all otherwise; and no row is padding. */
  lemma EveryTokenOnce(m: Metadata, c: nat, g: Input<Tag>, q: nat, t: nat)
    requires Gathers(m, c, g) && m.plan.Aligned() && q < |m.lens| && t < m.lens[q]
    ensures
      var rows := multiset(AllRows(g, |g.padded|));
      && rows[Token(q, Owner(t, m.plan.w, m.plan.i), LocalIndex(t, m.plan.w, m.plan.i))]
         == (if c == t / m.plan.chunk then 1 else 0)
      && rows[Padding] == 0
  {
    hide AllRows, Drives, InputOk, LocalChunkLen, Owner, LocalIndex, Plan.LocalChunk, Runs;
    GatheredRuns(m, c, g);
    OwnerGathersIt(m.plan, m.lens[q], t, c);
    AllCount(m, c, g, |m.lens|, Token(q, Owner(t, m.plan.w, m.plan.i), LocalIndex(t, m.plan.w, m.plan.i)));
    AllCount(m, c, g, |m.lens|, Padding);
  }

  /* ----- positions: request by request ----- */

  function TokenOf(p: Plan, q: nat, t: nat): Tag
    requires p.Valid()
  {
    Token(q, Owner(t, p.w, p.i), LocalIndex(t, p.w, p.i))
  }

  /** Between the running sums of the chunk's token counts stand exactly request `q`'s tokens of the chunk,
      each once. */
  ghost predicate HoldsRequest(m: Metadata, c: nat, rows: seq<Tag>, q: nat)
    requires m.plan.Valid() && c < |m.chunkLens| && q < |m.lens| == |m.chunkLens[c]|
  {
    var lo, hi := Total(m.chunkLens[c], q), Total(m.chunkLens[c], q + 1);
    && lo <= hi <= |rows|
    && (forall t: nat :: t < m.lens[q] ==>
          multiset(rows[lo..hi])[TokenOf(m.plan, q, t)] == if t / m.plan.chunk == c then 1 else 0)
    && (forall x :: x in rows[lo..hi] ==> exists t: nat :: t < m.lens[q] && x == TokenOf(m.plan, q, t))
  }

  lemma {:induction false} RequestAt<T>(m: Metadata, c: nat, g: Input<T>, q: nat, n: nat)
    requires Drives(m, c, g) && InputOk(g) && q < n <= |m.lens| == |g.padded| && m.plan.Valid() && m.plan.Aligned()
    ensures var cl := ChunkRow(m.plan, m.lens, c);
      && Total(cl, q) <= Total(cl, q + 1) <= |AllRows(g, n)|
      && AllRows(g, n)[Total(cl, q)..Total(cl, q + 1)] == RequestRows(g, q, g.w)
  {
    hide Drives, RequestRows, InputOk, ChunkRow, Total;
    var cl := ChunkRow(m.plan, m.lens, c);
    RowsSoFar(m, c, g, n - 1);
    RowsSoFar(m, c, g, n);
    NextStart(cl, q);
    if q < n - 1 {
      RequestAt(m, c, g, q, n - 1);
    }
  }

  lemma RowsSoFar<T>(m: Metadata, c: nat, g: Input<T>, n: nat)
    requires Drives(m, c, g) && InputOk(g) && n <= |m.lens| == |g.padded| && m.plan.Valid() && m.plan.Aligned()
    ensures |AllRows(g, n)| == Total(ChunkRow(m.plan, m.lens, c), n)
  {
    hide Drives, AllRows, SumRows, ChunkRow;
    AllLength(m, c, g, n);
    AlignedRows(m, c, n);
  }

  /** A row of request `q` in this chunk is one of its tokens. */
  lemma RowIsToken(m: Metadata, c: nat, g: Input<Tag>, q: nat, x: Tag) returns (t: nat)
    requires Runs(m, c, g) && q < |m.lens| && g.w == m.plan.w && x in RequestRows(g, q, g.w)
    ensures t < m.lens[q] && x == TokenOf(m.plan, q, t)
  {
    hide Drives, InputOk, LocalChunkLen, Owner, LocalIndex, Plan.LocalChunk, RequestRows, Segment, IsRun;
    assert multiset(RequestRows(g, q, g.w))[x] > 0;
    RequestCount(m, c, g, q, g.w, x);
    t := TokenInChunk(m.plan, m.lens[q], c, x.r, x.l);
  }

  /** The position of a local token among a rank's rows of a chunk. */
  lemma TokenInChunk(p: Plan, n: nat, c: nat, r: nat, l: nat) returns (t: nat)
    requires p.Valid() && r < p.w && c * p.LocalChunk() <= l < c * p.LocalChunk() + LocalChunkLen(p, n, c, r)
    ensures t < n && Owner(t, p.w, p.i) == r && LocalIndex(t, p.w, p.i) == l
  {
    hide LocalChunkLen, Owner, LocalIndex, Plan.LocalChunk, LocalNumTokens, GlobalPosition;
    LocalChunkIsWindow(p, n, c, r);
    t := GlobalPosition(l, p.w, r, p.i);
    GlobalOfLocal(l, p.w, r, p.i);
    LocalBelowCount(t, n, p.w, p.i);
  }

  lemma RequestHeld(m: Metadata, c: nat, g: Input<Tag>, q: nat)
    requires Gathers(m, c, g) && m.plan.Aligned() && q < |m.lens| && |m.chunkLens[c]| == |m.lens|
    ensures HoldsRequest(m, c, AllRows(g, |g.padded|), q)
  {
    hide AllRows, RequestRows, InputOk, LocalChunkLen, Owner, LocalIndex, Plan.LocalChunk, Runs, ChunkRow, PaddedRow;
    hide LocalRow, Total, GathersAt;
    GatheredRuns(m, c, g);
    assert ChunkOk(m, c);
    RequestAt(m, c, g, q, |m.lens|);
    forall t: nat | t < m.lens[q]
      ensures multiset(RequestRows(g, q, g.w))[TokenOf(m.plan, q, t)] == if t / m.plan.chunk == c then 1 else 0
    {
      OwnerGathersIt(m.plan, m.lens[q], t, c);
      RequestCount(m, c, g, q, g.w, TokenOf(m.plan, q, t));
    }
    forall x | x in RequestRows(g, q, g.w)
      ensures exists t: nat :: t < m.lens[q] && x == TokenOf(m.plan, q, t)
    {
      var t := RowIsToken(m, c, g, q, x);
    }
  }

  lemma CountsOfChunk<T>(m: Metadata, c: nat, g: Input<T>)
    requires Drives(m, c, g)
    ensures c < |m.chunkLens| && |m.chunkLens[c]| == |m.lens| == |g.padded| && c < |m.totals| && c < |m.maxLens|
  {
    hide ChunkRow, PaddedRow;
    DrivenInput(m, c, g);
    assert ChunkOk(m, c);
  }

  /** Reorganizing one gathered chunk of an aligned plan always succeeds, and attention, which cuts the rows
      at the running sums of the token counts, gives every request its own tokens and no others. */
  method ReorgChunk(m: Metadata, c: nat, g: Input<Tag>) returns (o: Outcome<Tag>)
    requires Gathers(m, c, g) && m.plan.Aligned()
    ensures o.Rows? && |o.rows| == m.totals[c] && |m.chunkLens[c]| == |m.lens|
    ensures forall q :: 0 <= q < |m.lens| ==> HoldsRequest(m, c, o.rows, q)
  {
    hide Drives, HoldsRequest, AllRows, LongestRequest, GathersAt, InputOk;
    CountsOfChunk(m, c, g);
    AssertionsNeverFire(m, c, g);
    o := ReorgKvcache(g, m.totals[c], m.maxLens[c]);
    forall q | 0 <= q < |m.lens|
      ensures HoldsRequest(m, c, AllRows(g, |g.padded|), q)
    {
      RequestHeld(m, c, g, q);
    }
  }

  /** Every context token's chunk is one of the chunks that are built. */
  lemma ChunkIsBuilt(n: nat, longest: nat, chunk: nat, t: nat)
    requires chunk > 0 && t < n <= longest
    ensures t / chunk < CeilDiv(longest, chunk)
  {
    CeilCovers(longest, chunk);
    assert t == (t / chunk) * chunk + t % chunk;
    if t / chunk >= CeilDiv(longest, chunk) {
      MulMonotone(CeilDiv(longest, chunk), t / chunk, chunk);
      assert false;
    }
  }
}
