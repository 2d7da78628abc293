/** Speculative ownership refines synchronous ownership.

    Each path through the tracker is compared with a recomputation from nothing: the in-place update
    of a scheduled request, the blocks a step enters for its window, and the trimming of a window to
    the end that was settled.  `SpeculativeRuns` composes these into whole runs. */
module AsyncRefinement {
  import opened Sharding
  import opened FillMaps
  import opened Ownership
  import opened BlockRanges
  import opened PoolBound

  /** Persistent blocks of a request known to end in lo..hi. */
  function WideBlocks(cfg: GroupConfig, ids: seq<nat>, lo: nat, hi: nat): Blocks
    requires cfg.Valid()
  {
    SpanBlocks(cfg, ids, SpanOf(cfg, Window(lo, lo, hi)))
  }

  /** The table has a block for every local token below `hi`. */
  predicate Holds(cfg: GroupConfig, ids: seq<nat>, hi: nat)
    requires cfg.Valid()
  {
    CeilDiv(cfg.Local(hi), cfg.group) <= |ids| * cfg.perManager
  }

  // ---- one group ----

  lemma StartIsIrrelevant(cfg: GroupConfig, ids: seq<nat>, w: Window)
    requires cfg.Valid()
    ensures SpanBlocks(cfg, ids, SpanOf(cfg, w)) == WideBlocks(cfg, ids, w.minEnd, w.maxEnd)
  {
    hide LocalNumTokens, PersistentBlocks;
  }

  lemma FloorBelow(a: nat, l: nat, g: nat)
    requires g > 0 && a <= l * g
    ensures a / g <= l
  {
    FloorBounds(a, g);
    if l < a / g {
      MulMonotone(l + 1, a / g, g);
      Distribute(l, 1, g);
      assert false;
    }
  }

  lemma AboveCeil(a: nat, l: nat, g: nat)
    requires g > 0
    ensures CeilDiv(a, g) <= l <==> a <= l * g
  {
    CeilBounds(a, g);
    if CeilDiv(a, g) <= l {
      MulMonotone(CeilDiv(a, g), l, g);
    } else {
      MulMonotone(l + 1, CeilDiv(a, g), g);
      Distribute(l, 1, g);
    }
  }

  /** Below the block that holds token `s`, every later end gives a full block. */
  lemma FullBelow(cfg: GroupConfig, s: nat, e: nat, l: nat)
    requires cfg.Valid() && s <= e && l < s / cfg.group
    ensures FillAt(cfg, e, l) == Known(cfg.group)
  {
    FloorBounds(s, cfg.group);
    MulMonotone(l + 1, s / cfg.group, cfg.group);
    Distribute(l, 1, cfg.group);
  }

  /** Boundary and tail together cover a fully covered request. */
  lemma FullCover(cfg: GroupConfig, ids: seq<nat>, lo: nat, hi: nat, l: nat)
    requires cfg.Valid() && FullContext(cfg, hi) && lo <= hi
    ensures Owns(cfg, ids, SpanOf(cfg, Window(lo, lo, hi)), l) <==> l < NumLogical(cfg, ids, cfg.Local(hi))
  {
    hide LocalNumTokens, CeilDiv;
    var start := Max(lo - cfg.tail, 0);
    CountAtMost(start, cfg.world, cfg.rank, cfg.interleave);
    CountAtMost(hi, cfg.world, cfg.rank, cfg.interleave);
    AboveCeil(cfg.boundary, l, cfg.group);
    if CeilDiv(cfg.boundary, cfg.group) <= l {
      if cfg.tail > 0 {
        FloorBelow(cfg.Local(start), l, cfg.group);
      } else {
        AboveCeil(cfg.Local(hi), l, cfg.group);
      }
    }
  }

  /** The block table maps every owned key back to its logical block. */
  lemma LogicalOf(ids: seq<nat>, m: nat, hi: nat, b: nat) returns (l: nat)
    requires m > 0 && hi <= |ids| * m && b in PhysicalRange(ids, m, 0, hi)
    ensures l < hi && InTable(ids, l, m) && PhysicalBlock(ids, l, m) == b
  {
    hide PhysicalBlock;
    l :| 0 <= l < hi && PhysicalBlock(ids, l, m) == b;
  }

  /** The wide map of a fully covered request, block by block. */
  lemma WideAt(cfg: GroupConfig, ids: seq<nat>, lo: nat, hi: nat, l: nat)
    requires cfg.Valid() && Distinct(ids) && FullContext(cfg, hi) && lo <= hi && InTable(ids, l, cfg.perManager)
    ensures var b, wide := PhysicalBlock(ids, l, cfg.perManager), WideBlocks(cfg, ids, lo, hi);
      && (b in wide <==> l < NumLogical(cfg, ids, cfg.Local(hi)))
      && (b in wide ==> wide[b] == FillAt(cfg, cfg.Local(lo), l))
  {
    hide LocalNumTokens, SpanBlocks, PhysicalBlock, NumLogical, FillAt, Owns;
    SpanBlocksAt(cfg, ids, SpanOf(cfg, Window(lo, lo, hi)), l);
    FullCover(cfg, ids, lo, hi, l);
  }

  lemma WideWithin(cfg: GroupConfig, ids: seq<nat>, lo: nat, hi: nat)
    requires cfg.Valid()
    ensures WideBlocks(cfg, ids, lo, hi).Keys
         <= PhysicalRange(ids, cfg.perManager, 0, NumLogical(cfg, ids, cfg.Local(hi)))
  {
    hide LocalNumTokens, SpanBlocks, PhysicalRange, NumLogical;
    SpanBlocksWithin(cfg, ids, SpanOf(cfg, Window(lo, lo, hi)));
  }

  /** What the in-place update leaves in block `l`, against the map computed from nothing. */
  lemma FastAt(cfg: GroupConfig, ids: seq<nat>, ids': seq<nat>, lo: nat, hi: nat, w: Window, l: nat)
    requires cfg.Valid() && Distinct(ids') && ids <= ids'
    requires FullContext(cfg, hi) && FullContext(cfg, w.maxEnd) && lo <= hi && w.minStart <= w.minEnd <= w.maxEnd
    requires cfg.Local(w.minStart) <= cfg.Local(lo) && cfg.Local(hi) <= cfg.Local(w.maxEnd)
    requires InTable(ids', l, cfg.perManager)
    ensures var b := PhysicalBlock(ids', l, cfg.perManager);
      var fast := FastBlocks(cfg, ids', SpanOf(cfg, w), WideBlocks(cfg, ids, lo, hi));
      var n := NumLogical(cfg, ids', cfg.Local(w.maxEnd));
      && (b in fast <==> FirstUpdate(cfg, SpanOf(cfg, w)) <= l < n || l < NumLogical(cfg, ids, cfg.Local(hi)))
      && (b in fast && l < n ==> fast[b] == FillAt(cfg, cfg.Local(w.minEnd), l))
  {
    hide LocalNumTokens, SpanBlocks, PhysicalBlock, FillAt, PhysicalRange, AssignRange;
    var s, m := SpanOf(cfg, w), cfg.perManager;
    var wide := WideBlocks(cfg, ids, lo, hi);
    var b, n := PhysicalBlock(ids', l, m), NumLogical(cfg, ids', s.maxEnd);
    AssignAt(cfg, ids', s.minEnd, FirstUpdate(cfg, s), n, wide, l);
    OldBlock(cfg, ids, ids', lo, hi, l);
    CountMonotone(lo, hi, cfg.world, cfg.rank, cfg.interleave);
    CountMonotone(w.minStart, w.minEnd, cfg.world, cfg.rank, cfg.interleave);
    CountMonotone(w.minEnd, w.maxEnd, cfg.world, cfg.rank, cfg.interleave);
    if l < FirstUpdate(cfg, s) && b in wide && Touches(s) {
      FullBelow(cfg, s.minStart, cfg.Local(lo), l);
      FullBelow(cfg, s.minStart, s.minEnd, l);
    }
  }

  /** A block of the longer table is in the older map exactly when the older table reached it. */
  lemma OldBlock(cfg: GroupConfig, ids: seq<nat>, ids': seq<nat>, lo: nat, hi: nat, l: nat)
    requires cfg.Valid() && Distinct(ids') && ids <= ids' && FullContext(cfg, hi) && lo <= hi
    requires InTable(ids', l, cfg.perManager)
    ensures var b, wide := PhysicalBlock(ids', l, cfg.perManager), WideBlocks(cfg, ids, lo, hi);
      && (b in wide <==> l < NumLogical(cfg, ids, cfg.Local(hi)))
      && (b in wide ==> wide[b] == FillAt(cfg, cfg.Local(lo), l))
  {
    hide LocalNumTokens, SpanBlocks, PhysicalBlock, FillAt, PhysicalRange;
    var m := cfg.perManager;
    assert Distinct(ids) by { DistinctPrefix(ids, ids'); }
    var b, wide := PhysicalBlock(ids', l, m), WideBlocks(cfg, ids, lo, hi);
    if InTable(ids, l, m) {
      PhysicalPrefix(ids, ids', m, l);
      WideAt(cfg, ids, lo, hi, l);
    } else if b in wide {
      WideWithin(cfg, ids, lo, hi);
      var k := LogicalOf(ids, m, NumLogical(cfg, ids, cfg.Local(hi)), b);
      PhysicalPrefix(ids, ids', m, k);
      PhysicalInjective(ids', m, k, l);
      assert false;
    }
  }

  lemma DistinctPrefix(ids: seq<nat>, ids': seq<nat>)
    requires Distinct(ids') && ids <= ids'
    ensures Distinct(ids)
  {
    assert forall i :: 0 <= i < |ids| ==> ids[i] == ids'[i];
  }

  /** The in-place update gives the map computed from nothing exactly when it leaves no gap: it
      starts within the blocks the previous table reached, or nothing new is reached. */
  lemma FastPathExact(cfg: GroupConfig, ids: seq<nat>, ids': seq<nat>, lo: nat, hi: nat, w: Window)
    requires cfg.Valid() && Distinct(ids') && ids <= ids'
    requires FullContext(cfg, hi) && FullContext(cfg, w.maxEnd) && lo <= hi && w.minStart <= w.minEnd <= w.maxEnd
    requires cfg.Local(w.minStart) <= cfg.Local(lo) && cfg.Local(hi) <= cfg.Local(w.maxEnd)
    ensures FastBlocks(cfg, ids', SpanOf(cfg, w), WideBlocks(cfg, ids, lo, hi))
         == WideBlocks(cfg, ids', w.minEnd, w.maxEnd)
       <==> var was, now := NumLogical(cfg, ids, cfg.Local(hi)), NumLogical(cfg, ids', cfg.Local(w.maxEnd));
            FirstUpdate(cfg, SpanOf(cfg, w)) <= was || now <= was
  {
    hide LocalNumTokens, SpanBlocks, PhysicalBlock, FillAt, PhysicalRange, AssignRange, FirstUpdate, FastBlocks;
    var s, m := SpanOf(cfg, w), cfg.perManager;
    var was, now := NumLogical(cfg, ids, cfg.Local(hi)), NumLogical(cfg, ids', s.maxEnd);
    var wide := WideBlocks(cfg, ids', w.minEnd, w.maxEnd);
    var fast := FastBlocks(cfg, ids', s, WideBlocks(cfg, ids, lo, hi));
    ReachGrows(cfg, ids, ids', hi, w.maxEnd);
    if was < FirstUpdate(cfg, s) && was < now {
      FastAt(cfg, ids, ids', lo, hi, w, was);
      WideAt(cfg, ids', w.minEnd, w.maxEnd, was);
      assert fast != wide;
    } else {
      forall b
        ensures b in fast <==> b in wide
        ensures b in fast ==> fast[b] == wide[b]
      {
        if b in fast || b in wide {
          FastWithin(cfg, ids, ids', lo, hi, w);
          WideWithin(cfg, ids', w.minEnd, w.maxEnd);
          var l := LogicalOf(ids', m, now, b);
          FastAt(cfg, ids, ids', lo, hi, w, l);
          WideAt(cfg, ids', w.minEnd, w.maxEnd, l);
        }
      }
      assert fast == wide;
    }
  }

  lemma ReachGrows(cfg: GroupConfig, ids: seq<nat>, ids': seq<nat>, hi: nat, hi': nat)
    requires cfg.Valid() && ids <= ids' && cfg.Local(hi) <= cfg.Local(hi')
    ensures NumLogical(cfg, ids, cfg.Local(hi)) <= NumLogical(cfg, ids', cfg.Local(hi'))
  {
    hide LocalNumTokens, CeilDiv;
    MulMonotone(|ids|, |ids'|, cfg.perManager);
    CeilMonotone(cfg.Local(hi), cfg.Local(hi'), cfg.group);
  }

  lemma FastWithin(cfg: GroupConfig, ids: seq<nat>, ids': seq<nat>, lo: nat, hi: nat, w: Window)
    requires cfg.Valid() && ids <= ids' && cfg.Local(hi) <= cfg.Local(w.maxEnd)
    ensures FastBlocks(cfg, ids', SpanOf(cfg, w), WideBlocks(cfg, ids, lo, hi)).Keys
         <= PhysicalRange(ids', cfg.perManager, 0, NumLogical(cfg, ids', cfg.Local(w.maxEnd)))
  {
    hide LocalNumTokens, SpanBlocks, AssignRange, NumLogical, FirstUpdate, PhysicalRange;
    var s, m := SpanOf(cfg, w), cfg.perManager;
    var was, now := NumLogical(cfg, ids, cfg.Local(hi)), NumLogical(cfg, ids', s.maxEnd);
    ReachGrows(cfg, ids, ids', hi, w.maxEnd);
    WideWithin(cfg, ids, lo, hi);
    RangePrefix(ids, ids', m, 0, was);
    RangeWithin(ids', m, 0, was, 0, now);
    AssignKeys(cfg, ids', s.minEnd, FirstUpdate(cfg, s), now, WideBlocks(cfg, ids, lo, hi));
    RangeWithin(ids', m, FirstUpdate(cfg, s), now, 0, now);
  }

  /** One token a block, all of them boundary. */
  const PREFIX := GroupConfig(1, 10, 0, 1, 1, 0, 1)

  lemma PrefixCount(n: nat)
    ensures PREFIX.Local(n) == n && CeilDiv(n, 1) == n
  {
    DivModUnique(n, 1, n, 0);
  }

  /** A request of three tokens was scheduled with a table of one block; once its table has grown to
      four, the in-place update for the fourth token leaves out block 21, which is needed. */
  lemma GapIsLeftOut()
    ensures var ids, ids', w := [20], [20, 21, 22, 23], Window(3, 4, 4);
      && 21 !in FastBlocks(PREFIX, ids', SpanOf(PREFIX, w), WideBlocks(PREFIX, ids, 3, 3))
      && 21 in WideBlocks(PREFIX, ids', 4, 4)
  {
    hide LocalNumTokens, SpanBlocks, WideBlocks, FastBlocks, CeilDiv;
    var ids, ids', w := [20], [20, 21, 22, 23], Window(3, 4, 4);
    PrefixCount(3);
    PrefixCount(4);
    assert PhysicalBlock(ids', 1, 1) == 21;
    FastAt(PREFIX, ids, ids', 3, 3, w, 1);
    WideAt(PREFIX, ids', 4, 4, 1);
  }

  /** A table that held the previous step's tokens leaves no gap. */
  lemma NoGap(cfg: GroupConfig, ids: seq<nat>, lo: nat, hi: nat, w: Window)
    requires cfg.Valid() && Holds(cfg, ids, hi) && lo <= hi && w.minStart <= w.minEnd <= w.maxEnd
    requires cfg.Local(w.minStart) <= cfg.Local(lo) && cfg.Local(hi) <= cfg.Local(w.maxEnd)
    ensures FirstUpdate(cfg, SpanOf(cfg, w)) <= NumLogical(cfg, ids, cfg.Local(hi))
  {
    hide LocalNumTokens, CeilDiv;
    CountMonotone(lo, hi, cfg.world, cfg.rank, cfg.interleave);
    CountMonotone(w.minStart, w.minEnd, cfg.world, cfg.rank, cfg.interleave);
    CountMonotone(w.minEnd, w.maxEnd, cfg.world, cfg.rank, cfg.interleave);
    var s := SpanOf(cfg, w);
    if Touches(s) {
      AboveCeil(cfg.Local(hi), CeilDiv(cfg.Local(hi), cfg.group), cfg.group);
      MulMonotone(0, CeilDiv(cfg.Local(hi), cfg.group), cfg.group);
      FloorBelow(s.minStart, CeilDiv(cfg.Local(hi), cfg.group), cfg.group);
    }
  }

  /** Either way of entering a group leaves the blocks computed from nothing for the new window. */
  lemma EnteredGroup(cfg: GroupConfig, ids: seq<nat>, ids': seq<nat>, lo: nat, hi: nat, w: Window,
                     previous: map<GroupId, Blocks>, previousFull: set<GroupId>, g: GroupId)
    requires cfg.Valid() && Distinct(ids') && ids <= ids'
    requires w.minStart <= w.minEnd <= w.maxEnd
    requires g in previous && g in previousFull ==>
      && previous[g] == WideBlocks(cfg, ids, lo, hi) && FullContext(cfg, hi) && Holds(cfg, ids, hi) && lo <= hi
      && cfg.Local(w.minStart) <= cfg.Local(lo) && cfg.Local(hi) <= cfg.Local(w.maxEnd)
    ensures GroupBlocks(cfg, ids', w, previous, previousFull, g) == WideBlocks(cfg, ids', w.minEnd, w.maxEnd)
  {
    hide LocalNumTokens, SpanBlocks, FastBlocks, FullContext, Holds, WideBlocks, FirstUpdate;
    StartIsIrrelevant(cfg, ids', w);
    if FullContext(cfg, w.maxEnd) && g in previousFull && g in previous {
      NoGap(cfg, ids, lo, hi, w);
      FastPathExact(cfg, ids, ids', lo, hi, w);
    }
  }

  // ---- settling a fully covered group ----

  /** When anything may be written, the written range runs to the last reached block. */
  lemma TouchedReachesEnd(cfg: GroupConfig, ids: seq<nat>, s: Span)
    requires cfg.Valid() && Touches(s) && NumLogical(cfg, ids, s.maxEnd) > 0
    ensures TouchedTo(cfg, ids, s) == NumLogical(cfg, ids, s.maxEnd)
  {
    hide CeilDiv;
    LastBlock(s.maxEnd, cfg.group);
  }

  lemma FilledBelow(cfg: GroupConfig, ids: seq<nat>, e: nat, l: nat)
    requires cfg.Valid() && InTable(ids, l, cfg.perManager)
    ensures FillCount(cfg, e, l) > 0 <==> l < NumLogical(cfg, ids, e)
    ensures FillCount(cfg, e, l) > 0 ==> FillAt(cfg, e, l) == Known(FillCount(cfg, e, l))
  {
    hide CeilDiv;
    AboveCeil(e, l, cfg.group);
  }

  /** Rewriting the pending blocks at the true end gives the settled map, block by block. The true
      end may lie below the least one of the step when that was clamped at token zero. */
  lemma TrimAt(cfg: GroupConfig, ids: seq<nat>, w: Window, actual: nat, l: nat)
    requires cfg.Valid() && Distinct(ids) && InTable(ids, l, cfg.perManager)
    requires FullContext(cfg, w.maxEnd) && w.minStart <= w.minEnd <= w.maxEnd && w.minStart <= actual <= w.maxEnd
    requires Touches(SpanOf(cfg, w)) && NumLogical(cfg, ids, cfg.Local(w.maxEnd)) > 0
    ensures var b := PhysicalBlock(ids, l, cfg.perManager);
      var trimmed := TrimPending(cfg, WideBlocks(cfg, ids, w.minEnd, w.maxEnd),
                                 TouchedLogical(cfg, ids, SpanOf(cfg, w)), cfg.Local(actual));
      && (b in trimmed <==> b in WideBlocks(cfg, ids, actual, actual))
      && (b in trimmed ==> trimmed[b] == WideBlocks(cfg, ids, actual, actual)[b])
  {
    hide LocalNumTokens, SpanBlocks, PhysicalBlock, FillAt, FillCount, LogicalRange, WideBlocks, NumLogical;
    var s, m := SpanOf(cfg, w), cfg.perManager;
    TouchedReachesEnd(cfg, ids, s);
    LogicalAt(ids, m, TouchedFrom(cfg, s), TouchedTo(cfg, ids, s), l);
    WideAt(cfg, ids, w.minEnd, w.maxEnd, l);
    WideAt(cfg, ids, actual, actual, l);
    FilledBelow(cfg, ids, cfg.Local(actual), l);
    CountMonotone(w.minStart, w.minEnd, cfg.world, cfg.rank, cfg.interleave);
    CountMonotone(w.minStart, actual, cfg.world, cfg.rank, cfg.interleave);
    CountMonotone(actual, w.maxEnd, cfg.world, cfg.rank, cfg.interleave);
    ReachGrows(cfg, ids, ids, actual, w.maxEnd);
    if l < TouchedFrom(cfg, s) {
      FullBelow(cfg, s.minStart, s.minEnd, l);
      FullBelow(cfg, s.minStart, cfg.Local(actual), l);
      KnownIsFilled(cfg, cfg.Local(actual), l);
    }
  }

  lemma KnownIsFilled(cfg: GroupConfig, e: nat, l: nat)
    requires FillAt(cfg, e, l).Known?
    ensures FillCount(cfg, e, l) > 0
  {
  }

  lemma TrimExact(cfg: GroupConfig, ids: seq<nat>, w: Window, actual: nat)
    requires cfg.Valid() && Distinct(ids)
    requires FullContext(cfg, w.maxEnd) && w.minStart <= w.minEnd <= w.maxEnd && w.minStart <= actual <= w.maxEnd
    requires Touches(SpanOf(cfg, w)) && NumLogical(cfg, ids, cfg.Local(w.maxEnd)) > 0
    ensures TrimPending(cfg, WideBlocks(cfg, ids, w.minEnd, w.maxEnd),
                        TouchedLogical(cfg, ids, SpanOf(cfg, w)), cfg.Local(actual))
         == WideBlocks(cfg, ids, actual, actual)
  {
    hide LocalNumTokens, SpanBlocks, PhysicalBlock, PhysicalRange, LogicalRange, WideBlocks, NumLogical, TrimPending;
    hide TouchedLogical;
    var s, m := SpanOf(cfg, w), cfg.perManager;
    var touched := TouchedLogical(cfg, ids, s);
    var trimmed := TrimPending(cfg, WideBlocks(cfg, ids, w.minEnd, w.maxEnd), touched, cfg.Local(actual));
    var settled := WideBlocks(cfg, ids, actual, actual);
    forall b
      ensures b in trimmed <==> b in settled
      ensures b in trimmed ==> trimmed[b] == settled[b]
    {
      if b in trimmed || b in settled {
        TrimWithin(cfg, ids, w, cfg.Local(actual));
        WideWithin(cfg, ids, actual, actual);
        CountMonotone(actual, w.maxEnd, cfg.world, cfg.rank, cfg.interleave);
        ReachGrows(cfg, ids, ids, actual, w.maxEnd);
        RangeWithin(ids, m, 0, NumLogical(cfg, ids, cfg.Local(actual)), 0, NumLogical(cfg, ids, s.maxEnd));
        var l := LogicalOf(ids, m, NumLogical(cfg, ids, s.maxEnd), b);
        TrimAt(cfg, ids, w, actual, l);
      }
    }
  }

  lemma TrimWithin(cfg: GroupConfig, ids: seq<nat>, w: Window, e: nat)
    requires cfg.Valid() && Touches(SpanOf(cfg, w)) && NumLogical(cfg, ids, cfg.Local(w.maxEnd)) > 0
    ensures TrimPending(cfg, WideBlocks(cfg, ids, w.minEnd, w.maxEnd), TouchedLogical(cfg, ids, SpanOf(cfg, w)), e).Keys
         <= PhysicalRange(ids, cfg.perManager, 0, NumLogical(cfg, ids, cfg.Local(w.maxEnd)))
  {
    hide LocalNumTokens, SpanBlocks, PhysicalRange, LogicalRange, WideBlocks, NumLogical, ResolvedFills;
    var s, m := SpanOf(cfg, w), cfg.perManager;
    var touched := TouchedLogical(cfg, ids, s);
    WideWithin(cfg, ids, w.minEnd, w.maxEnd);
    LogicalKeys(ids, m, TouchedFrom(cfg, s), TouchedTo(cfg, ids, s));
    RangeWithin(ids, m, TouchedFrom(cfg, s), TouchedTo(cfg, ids, s), 0, NumLogical(cfg, ids, s.maxEnd)) by {
      TouchedReachesEnd(cfg, ids, s);
    }
    FillsKeys(cfg, touched, e);
  }
}
