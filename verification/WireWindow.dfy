/** Which of a request's exact pages the wire has room for.

    The wire carries at most sixteen exact pages of a request: its first two and its last fourteen.  The
    tracker keeps the boundary, the tail and whatever a step writes exact.  Staging goes through exactly
    when the second set of pages lies within the first. */
module WireWindow {
  import opened Sharding
  import opened Ownership
  import opened EpochSafety
  import opened PoolBound
  import opened AsyncRefinement
  import opened SpeculativeRuns
  import opened ExactPool
  import opened TileSafety
  import WireLayout
  import NativeWire

  /** The most local tokens a window may have to lie in fourteen pages wherever it starts. */
  const WINDOW_TOKENS := 833

  /** Pages of a request that ends at `end` on this rank. */
  function Pages(cfg: GroupConfig, end: nat): nat
    requires cfg.Valid()
  {
    CeilDiv(cfg.Local(end), WireLayout.GROUP)
  }

  /** The first page a step from `start` to `end` needs exact for another reason than the boundary. */
  function FirstExact(cfg: GroupConfig, start: nat, end: nat): nat
    requires cfg.Valid()
  {
    hide LocalNumTokens, CeilDiv;
    var current := FirstCurrent(cfg, cfg.Local(end));
    var kept := if cfg.tail > 0 then Min(cfg.TailStart(end) / cfg.group, current) else current;
    if cfg.Local(start) < cfg.Local(end) then Min(kept, cfg.Local(start) / cfg.group) else kept
  }

  /** Every exact page of the request has a place on the wire. */
  ghost predicate AllInWindow(cfg: GroupConfig, ids: seq<nat>, start: nat, end: nat)
    requires cfg.Valid()
  {
    forall l: nat :: NeedsLogical(cfg, ids, start, end, l) ==> WireLayout.InWindow(l, Pages(cfg, end))
  }

  /** A page is needed when it belongs to the boundary or lies behind the first exact one. */
  lemma NeededPages(cfg: GroupConfig, ids: seq<nat>, start: nat, end: nat, l: nat)
    requires cfg.Valid() && cfg.group == WireLayout.GROUP && start <= end && Holds(cfg, ids, end)
    ensures NeedsLogical(cfg, ids, start, end, l) <==>
      l < Pages(cfg, end) && (l < CeilDiv(cfg.boundary, cfg.group) || FirstExact(cfg, start, end) <= l)
  {
    hide LocalNumTokens, CeilDiv;
    CountMonotone(start, end, cfg.world, cfg.rank, cfg.interleave);
    if cfg.Local(start) < cfg.Local(end) {
      LastBlock(cfg.Local(end), cfg.group);
    }
  }

  /** The exact pages all have a place if and only if the first one behind the boundary is among the last fourteen. */
  lemma ExactPagesFit(cfg: GroupConfig, ids: seq<nat>, start: nat, end: nat)
    requires cfg.Valid() && cfg.group == WireLayout.GROUP && cfg.boundary <= WireLayout.SINK_PAGES * WireLayout.GROUP
    requires start <= end && Holds(cfg, ids, end)
    ensures AllInWindow(cfg, ids, start, end) <==>
      Pages(cfg, end) <= Max(FirstExact(cfg, start, end), WireLayout.SINK_PAGES) + WireLayout.TAIL_PAGES
  {
    hide LocalNumTokens, CeilDiv, NeedsLogical, FirstExact, Holds;
    CeilMonotone(cfg.boundary, WireLayout.SINK_PAGES * WireLayout.GROUP, cfg.group);
    assert CeilDiv(WireLayout.SINK_PAGES * WireLayout.GROUP, cfg.group) == WireLayout.SINK_PAGES by { TwoPages(); }
    var l := Max(FirstExact(cfg, start, end), WireLayout.SINK_PAGES);
    NeededPages(cfg, ids, start, end, l);
    forall k: nat
      ensures NeedsLogical(cfg, ids, start, end, k) <==>
        k < Pages(cfg, end) && (k < CeilDiv(cfg.boundary, cfg.group) || FirstExact(cfg, start, end) <= k)
    {
      NeededPages(cfg, ids, start, end, k);
    }
  }

  lemma TwoPages()
    ensures CeilDiv(WireLayout.SINK_PAGES * WireLayout.GROUP, WireLayout.GROUP) == WireLayout.SINK_PAGES
  {
  }

  /** The local tokens that must be exact behind the boundary: the tail, and what the step writes. */
  function WindowTokens(cfg: GroupConfig, start: nat, end: nat): int
    requires cfg.Valid()
  {
    cfg.Local(end) - cfg.Local(Min(start, Max(end - cfg.tail, 0)))
  }

  /** Up to 833 of them always fit. */
  lemma ShortWindowFits(cfg: GroupConfig, ids: seq<nat>, start: nat, end: nat)
    requires cfg.Valid() && cfg.group == WireLayout.GROUP && cfg.boundary <= WireLayout.SINK_PAGES * WireLayout.GROUP
    requires start <= end && Holds(cfg, ids, end) && WindowTokens(cfg, start, end) <= WINDOW_TOKENS
    ensures AllInWindow(cfg, ids, start, end)
  {
    hide LocalNumTokens, CeilDiv, AllInWindow, Holds;
    var first := Min(start, Max(end - cfg.tail, 0));
    var s, e := cfg.Local(first), cfg.Local(end);
    CountMonotone(first, start, cfg.world, cfg.rank, cfg.interleave);
    CountMonotone(first, Max(end - cfg.tail, 0), cfg.world, cfg.rank, cfg.interleave);
    CountMonotone(first, end, cfg.world, cfg.rank, cfg.interleave);
    FloorMonotone(s, cfg.Local(start), cfg.group);
    FloorMonotone(s, cfg.TailStart(end), cfg.group);
    WindowBlocks(s, e, WINDOW_TOKENS, cfg.group);
    FourteenPages();
    FirstIsCurrent(cfg, e);
    ExactPagesFit(cfg, ids, start, end);
  }

  lemma FourteenPages()
    ensures CeilDiv(WINDOW_TOKENS + WireLayout.GROUP - 1, WireLayout.GROUP) == WireLayout.TAIL_PAGES
  {
  }

  lemma FirstIsCurrent(cfg: GroupConfig, e: nat)
    requires cfg.Valid()
    ensures CeilDiv(e, cfg.group) <= FirstCurrent(cfg, e) + 1
  {
    hide CeilDiv;
  }

  /** One more can be too many: a window of 834 tokens that starts with the last token of a page has fifteen. */
  lemma LongWindowSpills(s: nat, e: nat)
    requires s % WireLayout.GROUP == WireLayout.GROUP - 1 && e > s + WINDOW_TOKENS
    ensures CeilDiv(e, WireLayout.GROUP) > s / WireLayout.GROUP + WireLayout.TAIL_PAGES
  {
  }

  /** A rank holds at most its share of any stretch of positions, rounded up to whole cycles. */
  lemma ShareOfStretch(cfg: GroupConfig, from: nat, x: nat)
    requires cfg.Valid()
    ensures cfg.world * cfg.interleave > 0
    ensures cfg.Local(from + x) <= cfg.Local(from) + CeilDiv(x, cfg.world * cfg.interleave) * cfg.interleave
  {
    hide LocalNumTokens, CeilDiv;
    CycleIsPositive(cfg.world, cfg.interleave);
    var c := CeilDiv(x, cfg.world * cfg.interleave);
    CeilBounds(x, cfg.world * cfg.interleave);
    CountShift(from, c, cfg.world, cfg.rank, cfg.interleave);
    CountMonotone(from + x, from + c * (cfg.world * cfg.interleave), cfg.world, cfg.rank, cfg.interleave);
  }

  /** What four ranks with an interleave of at most a page hold of 3072 positions. */
  lemma QuarterShare(i: nat)
    requires 0 < i <= WireLayout.GROUP
    ensures CeilDiv(3072, 4 * i) * i <= 768 + i
  {
    hide CeilDiv;
    CeilBounds(3072, 4 * i);
    var c := CeilDiv(3072, 4 * i);
    assert c * (4 * i) == 4 * (c * i);
  }

  /** The geometry for which native staging is enabled. */
  predicate Enabled(cfg: GroupConfig) {
    && cfg.group == WireLayout.GROUP && cfg.boundary <= 128 && cfg.tail <= 3072 && cfg.world == 4
  }

  /** In the enabled geometry, interleaved by at most a page, a step of up to 3072 tokens needs no page the wire has no
      place for. */
  lemma EnabledGeometryFits(cfg: GroupConfig, ids: seq<nat>, start: nat, end: nat)
    requires cfg.Valid() && Enabled(cfg) && cfg.interleave <= WireLayout.GROUP
    requires start <= end <= start + 3072 && Holds(cfg, ids, end)
    ensures AllInWindow(cfg, ids, start, end)
  {
    hide LocalNumTokens, CeilDiv, AllInWindow, Holds;
    var first := Min(start, Max(end - cfg.tail, 0));
    ShareOfStretch(cfg, first, 3072);
    QuarterShare(cfg.interleave);
    CountMonotone(end, first + 3072, cfg.world, cfg.rank, cfg.interleave);
    ShortWindowFits(cfg, ids, start, end);
  }

  /** A much longer step does not fit: one of 4352 tokens writes more pages than the wire has places for. */
  lemma LongStepSpills(cfg: GroupConfig, ids: seq<nat>, start: nat, end: nat)
    requires cfg.Valid() && Enabled(cfg) && cfg.interleave == 1 && start + 4352 <= end && Holds(cfg, ids, end)
    ensures !AllInWindow(cfg, ids, start, end)
  {
    hide LocalNumTokens, AllInWindow, Holds;
    CountShift(start, 1088, 4, cfg.rank, 1);
    CountMonotone(start + 4352, end, 4, cfg.rank, 1);
    ExactPagesFit(cfg, ids, start, end);
  }

  /** Nor would two ranks do: a tail of 3072 tokens has more pages on each of them. */
  lemma TwoRanksSpill(cfg: GroupConfig, ids: seq<nat>, start: nat, end: nat)
    requires cfg.Valid() && cfg.group == WireLayout.GROUP && cfg.boundary <= WireLayout.SINK_PAGES * WireLayout.GROUP
    requires cfg.world == 2 && cfg.interleave == 1 && cfg.tail == 3072
    requires start <= end && end >= 3072 && Holds(cfg, ids, end)
    ensures !AllInWindow(cfg, ids, start, end)
  {
    hide LocalNumTokens, AllInWindow, Holds;
    CountShift(end - 3072, 1536, 2, cfg.rank, 1);
    ExactPagesFit(cfg, ids, start, end);
  }

  // ---- staging a followed request ----

  /** The rank's tables as the system has them: request `q` is the followed one, its pages are the blocks of its
      table, and the mirror shows the mapping. */
  ghost predicate ShowsSystem(rank: NativeWire.Rank, q: nat, cfg: GroupConfig, p: Point)
    requires cfg.Valid()
  {
    && rank.Valid() && q < |rank.lens| && rank.lens[q] == cfg.Local(p.end)
    && rank.mirror == MirrorOf(p.system.slots.mapping, |rank.mirror|) && |rank.latent| == p.system.slots.size
    && forall l: nat {:trigger InTable(p.table, l, cfg.perManager)} ::
         l < Pages(cfg, p.end) && InTable(p.table, l, cfg.perManager) ==>
           rank.table[q][l] == PhysicalBlock(p.table, l, cfg.perManager) < |rank.cache|
  }

  lemma PageAccepted(cfg: GroupConfig, p: Point, rank: NativeWire.Rank, q: nat, l: nat)
    requires cfg.Valid() && cfg.group == WireLayout.GROUP
    requires DataInvariant(cfg, p.table, p.tag, p.system, p.start, p.end)
    requires ShowsSystem(rank, q, cfg, p) && l < Pages(cfg, p.end)
    ensures rank.Pages()[q] == Pages(cfg, p.end)
    ensures rank.PageOk(q, l) <==>
      (NeedsLogical(cfg, p.table, p.start, p.end, l) ==> WireLayout.InWindow(l, Pages(cfg, p.end)))
  {
    hide LocalNumTokens, CeilDiv, PhysicalBlock, NeedsLogical, WireLayout.InWindow, Readable;
    MappingOf(cfg, p.table, p.tag, p.system, p.start, p.end, l);
    var b := PhysicalBlock(p.table, l, cfg.perManager);
    assert rank.mirror[b] == Lookup(p.system.slots.mapping, b);
  }

  lemma RequestAccepted(cfg: GroupConfig, p: Point, rank: NativeWire.Rank, q: nat)
    requires cfg.Valid() && cfg.group == WireLayout.GROUP
    requires DataInvariant(cfg, p.table, p.tag, p.system, p.start, p.end)
    requires ShowsSystem(rank, q, cfg, p)
    ensures rank.Pages()[q] == Pages(cfg, p.end)
    ensures (forall l: nat :: l < Pages(cfg, p.end) ==> rank.PageOk(q, l)) <==>
      AllInWindow(cfg, p.table, p.start, p.end)
  {
    hide LocalNumTokens, CeilDiv, NeedsLogical, WireLayout.InWindow, NativeWire.Rank.PageOk, DataInvariant, ShowsSystem;
    PagesShown(rank, q, cfg, p);
    forall l: nat
      ensures NeedsLogical(cfg, p.table, p.start, p.end, l) ==> l < Pages(cfg, p.end)
    {
      PageInTable(cfg, p, l);
    }
    forall l: nat | l < Pages(cfg, p.end)
      ensures rank.PageOk(q, l) <==>
        (NeedsLogical(cfg, p.table, p.start, p.end, l) ==> WireLayout.InWindow(l, Pages(cfg, p.end)))
    {
      PageAccepted(cfg, p, rank, q, l);
    }
  }

  lemma PagesShown(rank: NativeWire.Rank, q: nat, cfg: GroupConfig, p: Point)
    requires cfg.Valid() && ShowsSystem(rank, q, cfg, p)
    ensures rank.Valid() && q < |rank.lens| && rank.Pages()[q] == Pages(cfg, p.end)
  {
    hide LocalNumTokens;
  }

  lemma PageInTable(cfg: GroupConfig, p: Point, l: nat)
    requires cfg.Valid() && cfg.group == WireLayout.GROUP
    requires DataInvariant(cfg, p.table, p.tag, p.system, p.start, p.end)
    ensures NeedsLogical(cfg, p.table, p.start, p.end, l) ==> l < Pages(cfg, p.end)
  {
    hide LocalNumTokens, CeilDiv, Readable, SlotInvariant, NeedsLogical, Holds;
    StartsBefore(cfg, p);
    NeededPages(cfg, p.table, p.start, p.end, l);
  }

  lemma StartsBefore(cfg: GroupConfig, p: Point)
    requires cfg.Valid() && DataInvariant(cfg, p.table, p.tag, p.system, p.start, p.end)
    ensures p.start <= p.end && Holds(cfg, p.table, p.end)
  {
    hide LocalNumTokens, Readable;
  }

  /** In every reachable moment of a run the index kernel accepts all pages of the followed request if and only if its
      exact pages fit. */
  lemma StagingAccepts(configs: Configs, r: Id, names: iset<Id>, g: GroupId, points: seq<Point>, events: seq<Event>,
                       writes: seq<seq<Write>>, k: nat, rank: NativeWire.Rank, q: nat)
    requires ValidConfigs(configs) && g in configs && configs[g].group == WireLayout.GROUP
    requires SystemRun(configs, r, names, g, points, events, writes) && k <= |events|
    requires ShowsSystem(rank, q, configs[g], points[k])
    ensures rank.Pages()[q] == Pages(configs[g], points[k].end)
    ensures (forall l: nat :: l < Pages(configs[g], points[k].end) ==> rank.PageOk(q, l)) <==>
      AllInWindow(configs[g], points[k].table, points[k].start, points[k].end)
  {
    hide LocalNumTokens, AllInWindow, RunStep, StartsEmpty, ShowsSystem, DataInvariant, TableInvariant;
    SystemStaysSafe(configs, r, names, g, points, events, writes, k);
    RequestAccepted(configs[g], points[k], rank, q);
  }
}
