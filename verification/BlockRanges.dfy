/** Which blocks the range updates of module Ownership reach, and with what fill. */
module BlockRanges {
  import opened Sharding
  import opened FillMaps
  import opened Ownership

  lemma PhysicalParts(ids: seq<nat>, m: nat, l: nat)
    requires m > 0 && InTable(ids, l, m)
    ensures l / m < |ids|
    ensures PhysicalBlock(ids, l, m) / m == ids[l / m]
    ensures PhysicalBlock(ids, l, m) % m == l % m
  {
    ManagerBlockInRange(|ids|, l, m);
    DivModUnique(PhysicalBlock(ids, l, m), m, ids[l / m], l % m);
  }

  lemma SameParts(k: nat, l: nat, m: nat)
    requires m > 0 && k / m == l / m && k % m == l % m
    ensures k == l
  {
    assert k == (k / m) * m + k % m;
    assert l == (l / m) * m + l % m;
  }

  /** The physical blocks of a manager block follow one another. */
  lemma ManagerBlockIsContiguous(ids: seq<nat>, q: nat, x: nat, m: nat)
    requires q < |ids| && x < m
    ensures InTable(ids, q * m + x, m) && PhysicalBlock(ids, q * m + x, m) == ids[q] * m + x
  {
    MulBelow(q, |ids|, m, x);
    DivModUnique(q * m + x, m, q, x);
  }

  lemma PhysicalInjective(ids: seq<nat>, m: nat, k: nat, l: nat)
    requires m > 0 && Distinct(ids) && InTable(ids, k, m) && InTable(ids, l, m)
    ensures PhysicalBlock(ids, k, m) == PhysicalBlock(ids, l, m) <==> k == l
  {
    hide PhysicalBlock;
    if PhysicalBlock(ids, k, m) == PhysicalBlock(ids, l, m) {
      PhysicalParts(ids, m, k);
      PhysicalParts(ids, m, l);
      SameParts(k, l, m);
    }
  }

  /** A longer table agrees with the shorter one it extends. */
  lemma PhysicalPrefix(ids: seq<nat>, more: seq<nat>, m: nat, l: nat)
    requires m > 0 && ids <= more && InTable(ids, l, m)
    ensures InTable(more, l, m) && PhysicalBlock(more, l, m) == PhysicalBlock(ids, l, m)
  {
    MulMonotone(|ids|, |more|, m);
    ManagerBlockInRange(|ids|, l, m);
  }

  lemma {:induction false} RangeSize(ids: seq<nat>, m: nat, lo: nat, hi: nat)
    requires m > 0 && (lo < hi ==> hi <= |ids| * m)
    ensures |PhysicalRange(ids, m, lo, hi)| <= Max(hi - lo, 0)
  {
    if lo >= hi {
      assert PhysicalRange(ids, m, lo, hi) == {};
    } else {
      RangeSize(ids, m, lo, hi - 1);
      RangeGrows(ids, m, lo, hi);
    }
  }

  lemma RangeGrows(ids: seq<nat>, m: nat, lo: nat, hi: nat)
    requires m > 0 && lo < hi <= |ids| * m
    ensures PhysicalRange(ids, m, lo, hi) == PhysicalRange(ids, m, lo, hi - 1) + {PhysicalBlock(ids, hi - 1, m)}
  {
    hide PhysicalBlock;
  }

  lemma InRange(ids: seq<nat>, m: nat, lo: nat, hi: nat, l: nat)
    requires m > 0 && lo <= l < hi <= |ids| * m
    ensures PhysicalBlock(ids, l, m) in PhysicalRange(ids, m, lo, hi)
  {
    hide PhysicalBlock;
  }

  lemma RangeWithin(ids: seq<nat>, m: nat, lo: nat, hi: nat, lo': nat, hi': nat)
    requires m > 0 && (lo < hi ==> lo' <= lo && hi <= hi') && (lo' < hi' ==> hi' <= |ids| * m)
    ensures lo < hi ==> hi <= |ids| * m
    ensures PhysicalRange(ids, m, lo, hi) <= PhysicalRange(ids, m, lo', hi')
  {
    hide PhysicalBlock;
  }

  lemma RangePrefix(ids: seq<nat>, more: seq<nat>, m: nat, lo: nat, hi: nat)
    requires m > 0 && ids <= more && (lo < hi ==> hi <= |ids| * m)
    ensures lo < hi ==> hi <= |more| * m
    ensures PhysicalRange(more, m, lo, hi) == PhysicalRange(ids, m, lo, hi)
  {
    hide PhysicalBlock;
    MulMonotone(|ids|, |more|, m);
    forall l | lo <= l < hi
      ensures PhysicalBlock(more, l, m) == PhysicalBlock(ids, l, m)
    {
      PhysicalPrefix(ids, more, m, l);
    }
  }

  lemma {:induction false} AssignKeys(cfg: GroupConfig, ids: seq<nat>, e: nat, lo: nat, hi: nat, blocks: Blocks)
    requires cfg.Valid() && (lo < hi ==> hi <= |ids| * cfg.perManager)
    ensures AssignRange(cfg, ids, e, lo, hi, blocks).Keys == blocks.Keys + PhysicalRange(ids, cfg.perManager, lo, hi)
  {
    hide PhysicalBlock;
    if lo < hi {
      AssignKeys(cfg, ids, e, lo, hi - 1, blocks);
      RangeGrows(ids, cfg.perManager, lo, hi);
    }
  }

  lemma {:induction false} MergeKeys(cfg: GroupConfig, ids: seq<nat>, e: nat, lo: nat, hi: nat, blocks: Blocks)
    requires cfg.Valid() && (lo < hi ==> hi <= |ids| * cfg.perManager)
    ensures MergeRange(cfg, ids, e, lo, hi, blocks).Keys == blocks.Keys + PhysicalRange(ids, cfg.perManager, lo, hi)
  {
    hide PhysicalBlock;
    if lo < hi {
      MergeKeys(cfg, ids, e, lo, hi - 1, blocks);
      RangeGrows(ids, cfg.perManager, lo, hi);
    }
  }

  /** Fill of a block after an assignment over lo..hi. */
  lemma {:induction false} AssignAt(cfg: GroupConfig, ids: seq<nat>, e: nat, lo: nat, hi: nat, blocks: Blocks, l: nat)
    requires cfg.Valid() && Distinct(ids) && InTable(ids, l, cfg.perManager)
    requires lo < hi ==> hi <= |ids| * cfg.perManager
    ensures var b, after := PhysicalBlock(ids, l, cfg.perManager), AssignRange(cfg, ids, e, lo, hi, blocks);
      && (b in after <==> lo <= l < hi || b in blocks)
      && (lo <= l < hi ==> after[b] == FillAt(cfg, e, l))
      && (!(lo <= l < hi) && b in blocks ==> after[b] == blocks[b])
  {
    hide PhysicalBlock, FillAt;
    if lo < hi {
      AssignAt(cfg, ids, e, lo, hi - 1, blocks, l);
      PhysicalInjective(ids, cfg.perManager, hi - 1, l);
    }
  }

  /** Fill of a block after a merge over lo..hi into a map that already holds the same fills. */
  lemma {:induction false} MergeAt(cfg: GroupConfig, ids: seq<nat>, e: nat, lo: nat, hi: nat, blocks: Blocks, l: nat)
    requires cfg.Valid() && Distinct(ids) && InTable(ids, l, cfg.perManager)
    requires lo < hi ==> hi <= |ids| * cfg.perManager
    requires var b := PhysicalBlock(ids, l, cfg.perManager); b in blocks ==> blocks[b] == FillAt(cfg, e, l)
    ensures var b, after := PhysicalBlock(ids, l, cfg.perManager), MergeRange(cfg, ids, e, lo, hi, blocks);
      && (b in after <==> lo <= l < hi || b in blocks)
      && (b in after ==> after[b] == FillAt(cfg, e, l))
  {
    hide PhysicalBlock, FillAt;
    if lo < hi {
      MergeAt(cfg, ids, e, lo, hi - 1, blocks, l);
      PhysicalInjective(ids, cfg.perManager, hi - 1, l);
    }
  }

  /** Blocks outside a merged range keep their fills. */
  lemma {:induction false} MergeElsewhere(cfg: GroupConfig, ids: seq<nat>, e: nat, lo: nat, hi: nat, blocks: Blocks,
                                          b: nat)
    requires cfg.Valid() && (lo < hi ==> hi <= |ids| * cfg.perManager)
    requires b !in PhysicalRange(ids, cfg.perManager, lo, hi)
    ensures b in MergeRange(cfg, ids, e, lo, hi, blocks) <==> b in blocks
    ensures b in blocks ==> MergeRange(cfg, ids, e, lo, hi, blocks)[b] == blocks[b]
  {
    hide PhysicalBlock, FillAt;
    if lo < hi {
      RangeGrows(ids, cfg.perManager, lo, hi);
      MergeElsewhere(cfg, ids, e, lo, hi - 1, blocks, b);
    }
  }

  /** The numbering of a touched range is exact. */
  lemma {:induction false} LogicalAt(ids: seq<nat>, m: nat, lo: nat, hi: nat, l: nat)
    requires m > 0 && Distinct(ids) && InTable(ids, l, m) && (lo < hi ==> hi <= |ids| * m)
    ensures var b, numbers := PhysicalBlock(ids, l, m), LogicalRange(ids, m, lo, hi);
      && (b in numbers <==> lo <= l < hi)
      && (b in numbers ==> numbers[b] == l)
  {
    hide PhysicalBlock;
    if lo < hi {
      LogicalAt(ids, m, lo, hi - 1, l);
      PhysicalInjective(ids, m, hi - 1, l);
    }
  }

  lemma {:induction false} LogicalKeys(ids: seq<nat>, m: nat, lo: nat, hi: nat)
    requires m > 0 && (lo < hi ==> hi <= |ids| * m)
    ensures LogicalRange(ids, m, lo, hi).Keys == PhysicalRange(ids, m, lo, hi)
  {
    hide PhysicalBlock;
    if lo < hi {
      LogicalKeys(ids, m, lo, hi - 1);
      RangeGrows(ids, m, lo, hi);
    }
  }

  // ---- persistent blocks ----

  /** The logical blocks a request keeps: boundary, tail window, and from the current block on. */
  predicate Owns(cfg: GroupConfig, ids: seq<nat>, s: Span, l: nat)
    requires cfg.Valid()
  {
    && l < NumLogical(cfg, ids, s.maxEnd)
    && (l < CeilDiv(cfg.boundary, cfg.group)
        || (cfg.tail > 0 && s.tailStart / cfg.group <= l)
        || FirstCurrent(cfg, s.minEnd) <= l)
  }

  /** With a table free of repetitions the persistent map holds exactly the owned logical blocks,
      each with its fill at the least end. */
  lemma SpanBlocksAt(cfg: GroupConfig, ids: seq<nat>, s: Span, l: nat)
    requires cfg.Valid() && Distinct(ids) && InTable(ids, l, cfg.perManager)
    ensures var b := PhysicalBlock(ids, l, cfg.perManager);
      && (b in SpanBlocks(cfg, ids, s) <==> Owns(cfg, ids, s, l))
      && (b in SpanBlocks(cfg, ids, s) ==> SpanBlocks(cfg, ids, s)[b] == FillAt(cfg, s.minEnd, l))
  {
    hide AssignRange, MergeRange, PhysicalBlock, FillAt, CeilDiv, NumLogical, FirstCurrent;
    var n := NumLogical(cfg, ids, s.maxEnd);
    var top := Min(CeilDiv(cfg.boundary, cfg.group), n);
    var boundary := AssignRange(cfg, ids, s.minEnd, 0, top, map[]);
    AssignAt(cfg, ids, s.minEnd, 0, top, map[], l);
    var first := Min(s.tailStart / cfg.group, n);
    MergeAt(cfg, ids, s.minEnd, first, n, boundary, l);
    var tail := if cfg.tail == 0 then boundary else MergeRange(cfg, ids, s.minEnd, first, n, boundary);
    MergeAt(cfg, ids, s.minEnd, FirstCurrent(cfg, s.minEnd), n, tail, l);
  }

  /** Boundary, tail window and the blocks from the current one on. */
  function SpanKeys(cfg: GroupConfig, ids: seq<nat>, s: Span): set<nat>
    requires cfg.Valid()
  {
    hide CeilDiv, NumLogical, FirstCurrent, PhysicalRange;
    var n := NumLogical(cfg, ids, s.maxEnd);
    PhysicalRange(ids, cfg.perManager, 0, Min(CeilDiv(cfg.boundary, cfg.group), n))
    + (if cfg.tail == 0 then {} else PhysicalRange(ids, cfg.perManager, Min(s.tailStart / cfg.group, n), n))
    + PhysicalRange(ids, cfg.perManager, FirstCurrent(cfg, s.minEnd), n)
  }

  /** Keys of the persistent map, for any table. */
  lemma SpanBlocksKeys(cfg: GroupConfig, ids: seq<nat>, s: Span)
    requires cfg.Valid()
    ensures SpanBlocks(cfg, ids, s).Keys == SpanKeys(cfg, ids, s)
  {
    hide AssignRange, MergeRange, PhysicalRange, NumLogical, FirstCurrent, CeilDiv;
    var n := NumLogical(cfg, ids, s.maxEnd);
    var top := Min(CeilDiv(cfg.boundary, cfg.group), n);
    var boundary := AssignRange(cfg, ids, s.minEnd, 0, top, map[]);
    AssignKeys(cfg, ids, s.minEnd, 0, top, map[]);
    var first := Min(s.tailStart / cfg.group, n);
    MergeKeys(cfg, ids, s.minEnd, first, n, boundary);
    var tail := if cfg.tail == 0 then boundary else MergeRange(cfg, ids, s.minEnd, first, n, boundary);
    MergeKeys(cfg, ids, s.minEnd, FirstCurrent(cfg, s.minEnd), n, tail);
  }

  /** Every persistent block lies within the reached part of the table. */
  lemma SpanBlocksWithin(cfg: GroupConfig, ids: seq<nat>, s: Span)
    requires cfg.Valid()
    ensures SpanBlocks(cfg, ids, s).Keys
         <= PhysicalRange(ids, cfg.perManager, 0, NumLogical(cfg, ids, s.maxEnd))
  {
    hide PhysicalRange, SpanBlocks, CeilDiv, NumLogical, FirstCurrent;
    var n, m := NumLogical(cfg, ids, s.maxEnd), cfg.perManager;
    SpanBlocksKeys(cfg, ids, s);
    RangeWithin(ids, m, 0, Min(CeilDiv(cfg.boundary, cfg.group), n), 0, n);
    RangeWithin(ids, m, Min(s.tailStart / cfg.group, n), n, 0, n);
    RangeWithin(ids, m, FirstCurrent(cfg, s.minEnd), n, 0, n);
  }
}
