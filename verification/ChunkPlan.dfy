/** Splitting prefill contexts into workspace-sized chunks under context parallelism. */
module ChunkPlan {
  import opened Sharding

  /** World size, interleave and the chunk length in global tokens. */
  datatype Plan = Plan(w: nat, i: nat, chunk: nat) {
    predicate Valid() { w > 0 && i > 0 && chunk > 0 }

    function Virtual(): (v: nat)
      requires Valid()
      ensures v > 0
    {
      CycleIsPositive(w, i);
      w * i
    }

    /** The padded local chunk: how many local tokens a rank contributes per chunk. */
    function LocalChunk(): nat
      requires Valid()
    {
      CeilDiv(chunk, Virtual()) * i
    }

    predicate Aligned()
      requires Valid()
    {
      chunk % Virtual() == 0
    }
  }

  /** A rank's share of a length, in the form the metadata builder computes it. */
  function DcpLocalLen(n: nat, w: nat, r: nat, i: nat): int
    requires w > 0 && i > 0
  {
    var whole := n / i / w * i;
    var remainder := n - whole * w;
    whole + Min(Max(remainder - r * i, 0), i)
  }

  /** It is the same share as everywhere else. */
  lemma DcpLocalLenIsCount(n: nat, w: nat, r: nat, i: nat)
    requires r < w && i > 0
    ensures DcpLocalLen(n, w, r, i) == LocalNumTokens(n, w, r, i)
  {
    hide Owner, LocalIndex;
    var c, o, x := Decompose(n, w, i);
    WholeCycles(n, w, i, c, o, x);
    CycleIsPositive(w, i);
    assert DcpLocalLen(n, w, r, i) == c * i + Min(Max(o * i + x - r * i, 0), i);
  }

  lemma WholeCycles(n: nat, w: nat, i: nat, c: nat, o: nat, x: nat)
    requires o < w && x < i && n == c * (w * i) + o * i + x
    ensures n / i / w == c && n - c * i * w == o * i + x
  {
    CycleForm(c, o, x, w, i);
    DivModUnique(n, i, c * w + o, x);
    DivModUnique(c * w + o, w, c, o);
    Assoc(c, i, w);
    assert i * w == w * i;
  }

  /** Global tokens of chunk `c` of a context of `n` tokens. */
  function ChunkLen(p: Plan, n: nat, c: nat): nat {
    Max(0, Min(n, c * p.chunk + p.chunk) - c * p.chunk)
  }

  function PaddedLocal(p: Plan, n: nat): nat
    requires p.Valid()
  {
    CeilDiv(n, p.Virtual()) * p.i
  }

  /** Local rows every rank gathers for the request in chunk `c`, padding included. */
  function PaddedChunkLen(p: Plan, n: nat, c: nat): nat
    requires p.Valid()
  {
    Max(0, Min(PaddedLocal(p, n), c * p.LocalChunk() + p.LocalChunk()) - c * p.LocalChunk())
  }

  /** Local rows of rank `r` among them that hold tokens. */
  function LocalChunkLen(p: Plan, n: nat, c: nat, r: nat): nat
    requires p.Valid()
  {
    Min(Max(0, DcpLocalLen(n, p.w, r, p.i) - c * p.LocalChunk()), PaddedChunkLen(p, n, c))
  }

  /** Padding never cuts a rank short. */
  lemma PaddedCovers(p: Plan, n: nat, r: nat)
    requires p.Valid() && r < p.w
    ensures DcpLocalLen(n, p.w, r, p.i) <= PaddedLocal(p, n)
  {
    hide LocalNumTokens, DcpLocalLen, CeilDiv;
    DcpLocalLenIsCount(n, p.w, r, p.i);
    CeilCovers(n, p.Virtual());
    CountMonotone(n, CeilDiv(n, p.Virtual()) * p.Virtual(), p.w, r, p.i);
    CountOfCycles(CeilDiv(n, p.Virtual()), p.w, r, p.i);
  }

  /** So a rank's rows in chunk `c` are its tokens between the local chunk bounds. */
  lemma LocalChunkIsWindow(p: Plan, n: nat, c: nat, r: nat)
    requires p.Valid() && r < p.w
    ensures
      var have, from := LocalNumTokens(n, p.w, r, p.i), c * p.LocalChunk();
      LocalChunkLen(p, n, c, r) == Min(have, from + p.LocalChunk()) - Min(have, from)
  {
    hide LocalNumTokens, DcpLocalLen, CeilDiv, PaddedLocal;
    DcpLocalLenIsCount(n, p.w, r, p.i);
    PaddedCovers(p, n, r);
  }

  /** In an aligned plan, global chunk bounds are local chunk bounds on every rank. */
  lemma AlignedBound(p: Plan, c: nat, r: nat)
    requires p.Valid() && p.Aligned() && r < p.w
    ensures LocalNumTokens(c * p.chunk, p.w, r, p.i) == c * p.LocalChunk()
  {
    hide LocalNumTokens;
    var v, m := p.Virtual(), CeilDiv(p.chunk, p.Virtual());
    CeilCovers(p.chunk, v);
    Assoc(c, m, v);
    Assoc(c, m, p.i);
    CountOfCycles(c * m, p.w, r, p.i);
  }

  lemma CountOfMin(n: nat, x: nat, w: nat, r: nat, i: nat)
    requires r < w && i > 0
    ensures LocalNumTokens(Min(n, x), w, r, i) == Min(LocalNumTokens(n, w, r, i), LocalNumTokens(x, w, r, i))
  {
    hide LocalNumTokens;
    if n <= x {
      CountMonotone(n, x, w, r, i);
    } else {
      CountMonotone(x, n, w, r, i);
    }
  }

  /** In an aligned plan a rank's rows in chunk `c` are exactly its share of the global chunk. */
  lemma AlignedShare(p: Plan, n: nat, c: nat, r: nat)
    requires p.Valid() && p.Aligned() && r < p.w
    ensures LocalChunkLen(p, n, c, r) ==
      LocalNumTokens(Min(n, (c + 1) * p.chunk), p.w, r, p.i) - LocalNumTokens(Min(n, c * p.chunk), p.w, r, p.i)
  {
    hide LocalNumTokens, LocalChunkLen;
    LocalChunkIsWindow(p, n, c, r);
    AlignedBound(p, c, r);
    AlignedBound(p, c + 1, r);
    Distribute(c, 1, p.LocalChunk());
    CountOfMin(n, (c + 1) * p.chunk, p.w, r, p.i);
    CountOfMin(n, c * p.chunk, p.w, r, p.i);
  }

  /** Rows of the first `k` ranks. */
  function SumLocal(p: Plan, n: nat, c: nat, k: nat): nat
    requires p.Valid() && k <= p.w
  {
    if k == 0 then 0 else SumLocal(p, n, c, k - 1) + LocalChunkLen(p, n, c, k - 1)
  }

  lemma {:induction false} AlignedSum(p: Plan, n: nat, c: nat, k: nat)
    requires p.Valid() && p.Aligned() && k <= p.w
    ensures SumLocal(p, n, c, k) ==
      SumCounts(Min(n, (c + 1) * p.chunk), p.w, k, p.i) - SumCounts(Min(n, c * p.chunk), p.w, k, p.i)
  {
    hide LocalNumTokens, LocalChunkLen;
    if k > 0 {
      AlignedSum(p, n, c, k - 1);
      AlignedShare(p, n, c, k - 1);
    }
  }

  /** The ranks together contribute the global chunk, no more and no less. */
  lemma AlignedConserves(p: Plan, n: nat, c: nat)
    requires p.Valid() && p.Aligned()
    ensures SumLocal(p, n, c, p.w) == ChunkLen(p, n, c)
  {
    hide LocalNumTokens, SumLocal;
    AlignedSum(p, n, c, p.w);
    CountsPartition(Min(n, (c + 1) * p.chunk), p.w, p.i);
    CountsPartition(Min(n, c * p.chunk), p.w, p.i);
    Distribute(c, 1, p.chunk);
  }

  /** A context that fills the padded local chunk of every rank. */
  function OverflowLen(p: Plan): nat
    requires p.Valid()
  {
    CeilDiv(p.chunk, p.Virtual()) * p.Virtual()
  }

  /** A misaligned plan gathers too much: for that context the ranks contribute more rows to the first chunk
      than the chunk has tokens. */
  lemma MisalignedOverflows(p: Plan)
    requires p.Valid() && !p.Aligned()
    ensures ChunkLen(p, OverflowLen(p), 0) == p.chunk < SumLocal(p, OverflowLen(p), 0, p.w)
  {
    hide LocalNumTokens, DcpLocalLen, CeilDiv, LocalChunkLen;
    var v, m := p.Virtual(), CeilDiv(p.chunk, p.Virtual());
    CeilCovers(p.chunk, v);
    FullRanks(p, m * v, m, p.w);
    Assoc(p.w, m, p.i);
    Assoc(m, p.w, p.i);
    assert p.w * (m * p.i) == m * v;
  }

  lemma {:induction false} FullRanks(p: Plan, n: nat, m: nat, k: nat)
    requires p.Valid() && k <= p.w && m == CeilDiv(p.chunk, p.Virtual()) && n == m * p.Virtual()
    ensures SumLocal(p, n, 0, k) == k * (m * p.i)
  {
    hide LocalNumTokens, DcpLocalLen, CeilDiv, LocalChunkLen;
    if k > 0 {
      FullRanks(p, n, m, k - 1);
      LocalChunkIsWindow(p, n, 0, k - 1);
      CountOfCycles(m, p.w, k - 1, p.i);
      Distribute(k - 1, 1, m * p.i);
    }
  }

  /* ----- which chunk a token is in ----- */

  /** Every context token is in exactly one chunk. */
  lemma ChunkOfToken(p: Plan, n: nat, t: nat, c: nat)
    requires p.Valid() && t < n
    ensures c * p.chunk <= t < c * p.chunk + ChunkLen(p, n, c) <==> c == t / p.chunk
  {
    var q := t / p.chunk;
    assert t == q * p.chunk + t % p.chunk;
    if c < q {
      MulMonotone(c + 1, q, p.chunk);
      Distribute(c, 1, p.chunk);
    } else if c > q {
      MulMonotone(q + 1, c, p.chunk);
      Distribute(q, 1, p.chunk);
    }
  }

  /** In an aligned plan a token is in chunk `c` exactly when its owner gathers it there. */
  lemma OwnerGathersIt(p: Plan, n: nat, t: nat, c: nat)
    requires p.Valid() && p.Aligned() && t < n
    ensures Owner(t, p.w, p.i) < p.w
    ensures
      var l, from := LocalIndex(t, p.w, p.i), c * p.LocalChunk();
      (from <= l < from + LocalChunkLen(p, n, c, Owner(t, p.w, p.i))) <==> c == t / p.chunk
  {
    hide LocalNumTokens, Owner, LocalIndex, LocalChunkLen;
    LocalIndexIsCount(t, p.w, p.i);
    var r := Owner(t, p.w, p.i);
    LocalChunkIsWindow(p, n, c, r);
    LocalBelowCount(t, n, p.w, p.i);
    LocalBelowCount(t, c * p.chunk, p.w, p.i);
    LocalBelowCount(t, (c + 1) * p.chunk, p.w, p.i);
    AlignedBound(p, c, r);
    AlignedBound(p, c + 1, r);
    Distribute(c, 1, p.LocalChunk());
    Distribute(c, 1, p.chunk);
    ChunkOfToken(p, n, t, c);
  }
}
