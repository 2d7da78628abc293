/** Addressing the gathered cache: rank after rank, each rank's requests end to end, padded to a common
    length.  The top-k mapper and the append of the current chunk must agree on every slot. */
module GatheredCache {
  import opened Sharding
  import opened PackedRows
  import opened Collectives

  /** A prefill batch: sequence lengths, query offsets per request, and the request of every token. */
  datatype Batch = Batch(w: nat, i: nat, block: nat, seqLens: seq<nat>, queryStarts: seq<nat>, reqOf: seq<nat>) {
    ghost predicate Valid() {
      && w > 0 && i > 0 && block > 0
      && |queryStarts| == |seqLens| + 1
      && (forall q :: 0 <= q < |seqLens| ==> queryStarts[q] <= queryStarts[q + 1])
      && (forall q :: 0 <= q < |seqLens| ==> queryStarts[q + 1] - queryStarts[q] <= seqLens[q])
      && (forall x :: 0 <= x < |reqOf| ==> reqOf[x] < |seqLens|)
      && (forall x :: 0 <= x < |reqOf| ==> queryStarts[reqOf[x]] <= x < queryStarts[reqOf[x] + 1])
    }

    /** Tokens of every request on rank `r`. */
    function RankLens(r: nat): (s: seq<nat>)
      requires w > 0 && i > 0
      ensures |s| == |seqLens|
    {
      seq(|seqLens|, q requires 0 <= q < |seqLens| => LocalNumTokens(seqLens[q], w, r, i))
    }

    function RankTotal(r: nat): nat
      requires w > 0 && i > 0
    {
      Total(RankLens(r), |seqLens|)
    }

    /** The largest total of the first `k` ranks. */
    function LargestTotal(k: nat): (m: nat)
      requires w > 0 && i > 0
      ensures forall r :: 0 <= r < k ==> RankTotal(r) <= m
    {
      if k == 0 then 0 else Max(LargestTotal(k - 1), RankTotal(k - 1))
    }

    /** Every rank's share of the gathered buffer, in whole blocks. */
    function Padded(): nat
      requires w > 0 && i > 0 && block > 0
    {
      CeilDiv(LargestTotal(w), block) * block
    }

    function RankStarts(r: nat): (s: seq<nat>)
      requires w > 0 && i > 0
      ensures |s| == |seqLens|
    {
      seq(|seqLens|, q requires 0 <= q < |seqLens| => Total(RankLens(r), q))
    }
  }

  /** A selected token is usable when its owner holds it. */
  predicate Usable(b: Batch, q: nat, tok: int)
    requires b.w > 0 && b.i > 0 && q < |b.seqLens|
  {
    tok >= 0 && LocalIndex(tok, b.w, b.i) < b.RankLens(Owner(tok, b.w, b.i))[q]
  }

  /** The slot the mapper computes. */
  function Slot(b: Batch, q: nat, tok: nat): int
    requires b.w > 0 && b.i > 0 && b.block > 0 && q < |b.seqLens|
  {
    var owner := Owner(tok, b.w, b.i);
    owner * b.Padded() + b.RankStarts(owner)[q] + LocalIndex(tok, b.w, b.i)
  }

  lemma PaddedHolds(b: Batch, r: nat)
    requires b.w > 0 && b.i > 0 && b.block > 0 && r < b.w
    ensures b.RankTotal(r) <= b.Padded()
  {
    hide Batch.RankTotal;
    CeilCovers(b.LargestTotal(b.w), b.block);
  }

  lemma {:induction false} LargestIsLeast(b: Batch, k: nat, x: nat)
    requires b.w > 0 && b.i > 0 && forall r :: 0 <= r < k ==> b.RankTotal(r) <= x
    ensures b.LargestTotal(k) <= x
  {
    hide Batch.RankTotal;
    if k > 0 {
      LargestIsLeast(b, k - 1, x);
    }
  }

  /** The share of a rank is the least number of whole blocks that holds every rank's tokens. */
  lemma PaddedIsLeast(b: Batch, blocks: nat)
    requires b.w > 0 && b.i > 0 && b.block > 0
    ensures (forall r :: 0 <= r < b.w ==> b.RankTotal(r) <= blocks * b.block) <==> b.Padded() <= blocks * b.block
  {
    hide Batch.RankTotal, CeilDiv;
    if forall r :: 0 <= r < b.w ==> b.RankTotal(r) <= blocks * b.block {
      LargestIsLeast(b, b.w, blocks * b.block);
      CeilAtMost(b.LargestTotal(b.w), blocks, b.block);
      MulMonotone(CeilDiv(b.LargestTotal(b.w), b.block), blocks, b.block);
    } else {
      CeilCovers(b.LargestTotal(b.w), b.block);
    }
  }

  lemma CeilAtMost(n: nat, blocks: nat, v: nat)
    requires v > 0 && n <= blocks * v
    ensures CeilDiv(n, v) <= blocks
  {
    var q := CeilDiv(n, v);
    assert n + v - 1 == q * v + (n + v - 1) % v;
    if q > blocks {
      MulMonotone(blocks + 1, q, v);
      Distribute(blocks, 1, v);
    }
  }

  lemma UsableIsPosition(b: Batch, q: nat, tok: int)
    requires b.w > 0 && b.i > 0 && q < |b.seqLens| && Usable(b, q, tok)
    ensures tok >= 0
  {
  }

  /** Usable tokens are the tokens of the sequence. */
  lemma UsableIsInSequence(b: Batch, q: nat, tok: int)
    requires b.w > 0 && b.i > 0 && q < |b.seqLens|
    ensures Usable(b, q, tok) <==> 0 <= tok < b.seqLens[q]
  {
    hide LocalNumTokens, Owner, LocalIndex;
    if tok >= 0 {
      LocalBelowCount(tok, b.seqLens[q], b.w, b.i);
    }
  }

  /** A usable token's slot lies in its owner's share of the buffer. */
  lemma SlotInShare(b: Batch, q: nat, tok: nat)
    requires b.Valid() && q < |b.seqLens| && tok < b.seqLens[q]
    ensures Owner(tok, b.w, b.i) < b.w
    ensures Within(b.RankLens(Owner(tok, b.w, b.i)), q, LocalIndex(tok, b.w, b.i))
    ensures Slot(b, q, tok)
         == Owner(tok, b.w, b.i) * b.Padded() + Row(b.RankLens(Owner(tok, b.w, b.i)), q, LocalIndex(tok, b.w, b.i))
    ensures Row(b.RankLens(Owner(tok, b.w, b.i)), q, LocalIndex(tok, b.w, b.i)) < b.Padded()
  {
    hide LocalNumTokens, Owner, LocalIndex, Batch.Padded, Batch.LargestTotal;
    LocalIndexIsCount(tok, b.w, b.i);
    LocalBelowCount(tok, b.seqLens[q], b.w, b.i);
    var r := Owner(tok, b.w, b.i);
    RowInRange(b.RankLens(r), q, LocalIndex(tok, b.w, b.i));
    PaddedHolds(b, r);
  }

  /** Slots stay inside the gathered buffer. */
  lemma SlotInBuffer(b: Batch, q: nat, tok: nat)
    requires b.Valid() && q < |b.seqLens| && tok < b.seqLens[q]
    ensures 0 <= Slot(b, q, tok) < b.w * b.Padded()
  {
    hide Owner, LocalIndex, Row, Batch.Padded, Slot;
    SlotInShare(b, q, tok);
    MulBelow(Owner(tok, b.w, b.i), b.w, b.Padded(),
        Row(b.RankLens(Owner(tok, b.w, b.i)), q, LocalIndex(tok, b.w, b.i)));
  }

  /** Distinct (request, position) pairs have distinct slots. */
  lemma SlotsDistinct(b: Batch, q: nat, tok: nat, q': nat, tok': nat)
    requires b.Valid() && q < |b.seqLens| && tok < b.seqLens[q] && q' < |b.seqLens| && tok' < b.seqLens[q']
    requires Slot(b, q, tok) == Slot(b, q', tok')
    ensures q == q' && tok == tok'
  {
    hide Owner, LocalIndex, Row, Batch.Padded, Slot, LocalNumTokens, Batch.RankLens;
    SlotInShare(b, q, tok);
    SlotInShare(b, q', tok');
    var r, r' := Owner(tok, b.w, b.i), Owner(tok', b.w, b.i);
    var x, x' := Row(b.RankLens(r), q, LocalIndex(tok, b.w, b.i)), Row(b.RankLens(r'), q', LocalIndex(tok', b.w, b.i));
    DivModUnique(Slot(b, q, tok), b.Padded(), r, x);
    DivModUnique(Slot(b, q, tok), b.Padded(), r', x');
    RowInjective(b.RankLens(r), q, LocalIndex(tok, b.w, b.i), q', LocalIndex(tok', b.w, b.i));
    LocalOfGlobal(tok, b.w, b.i);
    LocalOfGlobal(tok', b.w, b.i);
  }

  /* ----- the append of the current chunk ----- */

  /** The position of batch token `x` in its own sequence. */
  function PositionOf(b: Batch, x: nat): int
    requires b.Valid() && x < |b.reqOf|
  {
    var q := b.reqOf[x];
    b.seqLens[q] - (b.queryStarts[q + 1] - b.queryStarts[q]) + (x - b.queryStarts[q])
  }

  /** The chunk is the end of its sequence: a token is as far from the last position as from the last query. */
  lemma PositionIsCurrent(b: Batch, x: nat)
    requires b.Valid() && x < |b.reqOf|
    ensures
      var q := b.reqOf[x];
      && b.seqLens[q] - (b.queryStarts[q + 1] - b.queryStarts[q]) <= PositionOf(b, x) < b.seqLens[q]
      && b.seqLens[q] - PositionOf(b, x) == b.queryStarts[q + 1] - x
  {
  }

  lemma SlotFromStarts(b: Batch, q: nat, tok: nat)
    requires b.Valid() && q < |b.seqLens| && Owner(tok, b.w, b.i) < b.w
    ensures Slot(b, q, tok)
         == Owner(tok, b.w, b.i) * b.Padded() + b.RankStarts(Owner(tok, b.w, b.i))[q] + LocalIndex(tok, b.w, b.i)
  {
    hide Owner, LocalIndex, Batch.Padded, LocalNumTokens;
  }

  /** The slots the current chunk is appended to, through the flattened starts of all ranks. */
  method AppendSlots(b: Batch) returns (slots: seq<int>)
    requires b.Valid()
    ensures |slots| == |b.reqOf|
    ensures forall x :: 0 <= x < |slots| ==>
      0 <= PositionOf(b, x) < b.seqLens[b.reqOf[x]] && slots[x] == Slot(b, b.reqOf[x], PositionOf(b, x))
  {
    hide Owner, LocalIndex, Batch.Padded, Batch.RankStarts, AllGather, Slot, PositionOf;
    var starts := seq(b.w, r requires 0 <= r < b.w => b.RankStarts(r));
    var flat := AllGather(starts);
    slots := [];
    for x := 0 to |b.reqOf|
      invariant |slots| == x
      invariant forall y :: 0 <= y < x ==>
        0 <= PositionOf(b, y) < b.seqLens[b.reqOf[y]] && slots[y] == Slot(b, b.reqOf[y], PositionOf(b, y))
    {
      var q := b.reqOf[x];
      PositionIsCurrent(b, x);
      var position: nat := PositionOf(b, x);
      var owner := Owner(position, b.w, b.i);
      LocalIndexIsCount(position, b.w, b.i);
      GatheredAt(starts, |b.seqLens|, owner, q);
      SlotFromStarts(b, q, position);
      slots := slots + [owner * b.Padded() + flat[owner * |b.seqLens| + q] + LocalIndex(position, b.w, b.i)];
    }
  }

  /** The causal length of a batch token reaches exactly its own position. */
  function CausalLength(b: Batch, x: nat): int
    requires b.Valid() && x < |b.reqOf|
  {
    var q := b.reqOf[x];
    b.seqLens[q] - (b.queryStarts[q + 1] - b.queryStarts[q]) + (x - b.queryStarts[q]) + 1
  }

  /** What a query token may attend to has a slot, and its own position is the last of it. */
  lemma CausalSlots(b: Batch, x: nat, tok: nat)
    requires b.Valid() && x < |b.reqOf| && tok < CausalLength(b, x)
    ensures Usable(b, b.reqOf[x], tok) && tok <= PositionOf(b, x) == CausalLength(b, x) - 1
    ensures b.seqLens[b.reqOf[x]] - PositionOf(b, x) == b.queryStarts[b.reqOf[x] + 1] - x
  {
    PositionIsCurrent(b, x);
    UsableIsInSequence(b, b.reqOf[x], tok);
  }

  /* ----- compacting one row of selected tokens ----- */

  /** The slots of the usable tokens, in order. */
  function Compacted(b: Batch, q: nat, toks: seq<int>): (s: seq<int>)
    requires b.w > 0 && b.i > 0 && b.block > 0 && q < |b.seqLens|
    ensures |s| <= |toks|
  {
    if toks == [] then []
    else
      var front, tok := Compacted(b, q, toks[..|toks| - 1]), toks[|toks| - 1];
      if Usable(b, q, tok) then front + [Slot(b, q, tok)] else front
  }

  /** How many of the selected tokens lie in a sequence of `n` tokens. */
  function Selected(n: nat, toks: seq<int>): (k: nat)
    ensures k <= |toks|
  {
    if toks == [] then 0
    else
      var last := toks[|toks| - 1];
      Selected(n, toks[..|toks| - 1]) + (if 0 <= last < n then 1 else 0)
  }

  /** Every selected token of the sequence has its slot in the output, after the slots of the selected
      tokens before it, and nothing else has. */
  lemma {:induction false} SelectedAreMapped(b: Batch, q: nat, toks: seq<int>, j: nat)
    requires b.w > 0 && b.i > 0 && b.block > 0 && q < |b.seqLens| && j <= |toks|
    ensures |Compacted(b, q, toks)| == Selected(b.seqLens[q], toks)
    ensures j < |toks| && 0 <= toks[j] < b.seqLens[q] ==>
      var at := Selected(b.seqLens[q], toks[..j]);
      at < |Compacted(b, q, toks)| && Compacted(b, q, toks)[at] == Slot(b, q, toks[j])
  {
    hide Usable, Slot;
    if toks != [] {
      var n := |toks| - 1;
      var front := toks[..n];
      SelectedAreMapped(b, q, front, if j < n then j else n);
      UsableIsInSequence(b, q, toks[n]);
      if j < n {
        assert front[..j] == toks[..j];
      }
    }
  }

  /** One program owns the row: slots in selection order, the exact count, and -1 behind them. */
  method MapRow(b: Batch, q: nat, toks: seq<int>, out: array<int>) returns (count: nat)
    requires b.w > 0 && b.i > 0 && b.block > 0 && q < |b.seqLens| && out.Length == |toks|
    modifies out
    ensures count == |Compacted(b, q, toks)| == Selected(b.seqLens[q], toks)
    ensures out[..] == Compacted(b, q, toks) + seq(|toks| - count, _ => -1)
    ensures forall j :: 0 <= j < |toks| && 0 <= toks[j] < b.seqLens[q] ==>
      var at := Selected(b.seqLens[q], toks[..j]); at < count && out[at] == Slot(b, q, toks[j])
  {
    hide Usable, Slot;
    FillMinusOne(out);
    count := CompactTile(b, q, toks, out, 0);
    assert out[..] == Compacted(b, q, toks) + out[count..];
    SelectedAreMapped(b, q, toks, |toks|);
    forall j | 0 <= j < |toks| && 0 <= toks[j] < b.seqLens[q]
      ensures Selected(b.seqLens[q], toks[..j]) < count
      ensures out[Selected(b.seqLens[q], toks[..j])] == Slot(b, q, toks[j])
    {
      SelectedAreMapped(b, q, toks, j);
    }
  }

  method FillMinusOne(out: array<int>)
    modifies out
    ensures forall k :: 0 <= k < out.Length ==> out[k] == -1
  {
    for j := 0 to out.Length
      invariant forall k :: 0 <= k < j ==> out[k] == -1
    {
      out[j] := -1;
    }
  }

  /** Store the usable slots of one tile from `base` on. */
  method CompactTile(b: Batch, q: nat, toks: seq<int>, out: array<int>, base: nat) returns (stored: nat)
    requires b.w > 0 && b.i > 0 && b.block > 0 && q < |b.seqLens| && base + |toks| <= out.Length
    modifies out
    ensures stored == |Compacted(b, q, toks)| && out[base..base + stored] == Compacted(b, q, toks)
    ensures forall k :: 0 <= k < out.Length && !(base <= k < base + stored) ==> out[k] == old(out[k])
  {
    hide Usable, Slot;
    stored := 0;
    for j := 0 to |toks|
      invariant stored == |Compacted(b, q, toks[..j])| <= j && out[base..base + stored] == Compacted(b, q, toks[..j])
      invariant forall k :: 0 <= k < out.Length && !(base <= k < base + stored) ==> out[k] == old(out[k])
    {
      assert toks[..j + 1][..j] == toks[..j];
      if Usable(b, q, toks[j]) {
        UsableIsPosition(b, q, toks[j]);
        out[base + stored] := Slot(b, q, toks[j]);
        stored := stored + 1;
      }
    }
    assert toks[..|toks|] == toks;
  }

  /* ----- several tiles per row ----- */

  function CompactedTiles(b: Batch, q: nat, tiles: seq<seq<int>>): (s: seq<seq<int>>)
    requires b.w > 0 && b.i > 0 && b.block > 0 && q < |b.seqLens|
    ensures |s| == |tiles|
  {
    seq(|tiles|, k requires 0 <= k < |tiles| => Compacted(b, q, tiles[k]))
  }

  lemma {:induction false} CompactedJoin(b: Batch, q: nat, x: seq<int>, y: seq<int>)
    requires b.w > 0 && b.i > 0 && b.block > 0 && q < |b.seqLens|
    ensures Compacted(b, q, x + y) == Compacted(b, q, x) + Compacted(b, q, y)
  {
    hide Usable, Slot;
    if y == [] {
      assert x + y == x;
    } else {
      assert (x + y)[..|x + y| - 1] == x + y[..|y| - 1];
      CompactedJoin(b, q, x, y[..|y| - 1]);
    }
  }

  /** Compacting tile by tile, in tile order, is compacting the row. */
  lemma {:induction false} TilesCompactTheRow(b: Batch, q: nat, tiles: seq<seq<int>>)
    requires b.w > 0 && b.i > 0 && b.block > 0 && q < |b.seqLens|
    ensures AllGather(CompactedTiles(b, q, tiles)) == Compacted(b, q, AllGather(tiles))
  {
    hide Usable, Slot;
    if tiles != [] {
      var front, last := tiles[..|tiles| - 1], tiles[|tiles| - 1];
      TilesCompactTheRow(b, q, front);
      assert CompactedTiles(b, q, tiles)[..|tiles| - 1] == CompactedTiles(b, q, front);
      CompactedJoin(b, q, AllGather(front), last);
    }
  }

  lemma {:induction false} CompactedFits(b: Batch, q: nat, tiles: seq<seq<int>>, n: nat)
    requires b.w > 0 && b.i > 0 && b.block > 0 && q < |b.seqLens| && n <= |tiles|
    ensures |AllGather(CompactedTiles(b, q, tiles)[..n])| <= |AllGather(tiles[..n])|
  {
    if n > 0 {
      CompactedFits(b, q, tiles, n - 1);
      assert CompactedTiles(b, q, tiles)[..n][..n - 1] == CompactedTiles(b, q, tiles)[..n - 1];
      assert tiles[..n][..n - 1] == tiles[..n - 1];
    }
  }

  lemma {:induction false} GatheredPrefix<T>(parts: seq<seq<T>>, n: nat)
    requires n < |parts|
    ensures AllGather(parts[..n + 1]) == AllGather(parts[..n]) + parts[n]
    ensures |AllGather(parts[..n + 1])| <= |AllGather(parts)|
    decreases |parts| - n
  {
    assert parts[..n + 1][..n] == parts[..n];
    if n + 1 < |parts| {
      GatheredPrefix(parts, n + 1);
    } else {
      assert parts[..n + 1] == parts;
    }
  }

  /** Tiles reserve their output ranges in whatever order they reach the counter: the row still holds
      exactly the usable slots, with -1 behind them; only their order is open. */
  method MapTiles(b: Batch, q: nat, tiles: seq<seq<int>>, order: seq<nat>, out: array<int>) returns (count: nat)
    requires b.w > 0 && b.i > 0 && b.block > 0 && q < |b.seqLens|
    requires IsOrder(order, |tiles|) && out.Length == |AllGather(tiles)|
    modifies out
    ensures count == |Compacted(b, q, AllGather(tiles))| == Selected(b.seqLens[q], AllGather(tiles)) <= out.Length
    ensures multiset(out[..count]) == multiset(Compacted(b, q, AllGather(tiles)))
    ensures forall k :: count <= k < out.Length ==> out[k] == -1
  {
    hide Compacted, AllGather, IsOrder;
    OrderInRange(order, |tiles|);
    ghost var visited := Reordered(tiles, order);
    ghost var compacted := CompactedTiles(b, q, visited);
    VisitedLength(tiles, order);
    FillMinusOne(out);
    count := 0;
    NothingGathered<int>();
    for k := 0 to |order|
      invariant count == |AllGather(compacted[..k])| <= |AllGather(visited[..k])| && count <= out.Length
      invariant out[..count] == AllGather(compacted[..k])
      invariant forall j :: count <= j < out.Length ==> out[j] == -1
    {
      GatheredPrefix(visited, k);
      GatheredPrefix(compacted, k);
      CompactedFits(b, q, visited, k);
      var stored := CompactTile(b, q, tiles[order[k]], out, count);
      count := count + stored;
      CompactedFits(b, q, visited, k + 1);
    }
    assert compacted[..|order|] == compacted;
    TilesInAnyOrder(b, q, tiles, order);
    SelectedAreMapped(b, q, AllGather(tiles), 0);
  }

  lemma NothingGathered<T>()
    ensures AllGather<T>([]) == []
  {
  }

  lemma VisitedLength(tiles: seq<seq<int>>, order: seq<nat>)
    requires IsOrder(order, |tiles|)
    ensures forall k :: 0 <= k < |order| ==> order[k] < |tiles|
    ensures |AllGather(Reordered(tiles, order))| == |AllGather(tiles)|
  {
    SameElements(tiles, order);
    assert |multiset(AllGather(Reordered(tiles, order)))| == |multiset(AllGather(tiles))|;
  }

  lemma TilesInAnyOrder(b: Batch, q: nat, tiles: seq<seq<int>>, order: seq<nat>)
    requires b.w > 0 && b.i > 0 && b.block > 0 && q < |b.seqLens| && IsOrder(order, |tiles|)
    ensures forall k :: 0 <= k < |order| ==> order[k] < |tiles|
    ensures multiset(AllGather(CompactedTiles(b, q, Reordered(tiles, order))))
         == multiset(Compacted(b, q, AllGather(tiles)))
    ensures |AllGather(CompactedTiles(b, q, Reordered(tiles, order)))| == |Compacted(b, q, AllGather(tiles))|
  {
    hide Compacted, AllGather;
    OrderInRange(order, |tiles|);
    var parts := CompactedTiles(b, q, tiles);
    SameElements(parts, order);
    assert Reordered(parts, order) == CompactedTiles(b, q, Reordered(tiles, order));
    TilesCompactTheRow(b, q, tiles);
    assert |multiset(AllGather(Reordered(parts, order)))| == |multiset(AllGather(parts))|;
  }
}
