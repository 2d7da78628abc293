/** The exact pool is large enough.

    `PoolSlots` is the configured capacity.  Over every rollback-free run that keeps at most
    `maxSeqs` requests and schedules at most `maxTokens` tokens a step, the blocks that must stay
    exact never outnumber it, on any rank, so preparing a step cannot fail. */
module PoolBound {
  import opened Sharding
  import opened FillMaps
  import opened Ownership
  import opened BlockRanges
  import opened EpochSafety
  import ExactPool

  /** Blocks one idle request keeps exact. */
  function ResidentBlocks(cfg: GroupConfig): nat
    requires cfg.Valid()
  {
    CeilDiv(cfg.boundary, cfg.group)
    + (if cfg.tail > 0 then CeilDiv(cfg.tail + cfg.group - 1, cfg.group) else 1)
  }

  /** Configured pool capacity. */
  function PoolSlots(cfg: GroupConfig, maxSeqs: nat, maxTokens: nat, maxRollback: nat): nat
    requires cfg.Valid()
  {
    var rollback := if maxRollback > 0 then CeilDiv(maxSeqs * maxRollback, cfg.group) + maxSeqs else 0;
    Max(ResidentBlocks(cfg) * maxSeqs + CeilDiv(maxTokens, cfg.group) + maxSeqs + rollback + 8, 8)
  }

  // ---- arithmetic of block counts ----

  lemma CeilSum(a: nat, b: nat, g: nat)
    requires g > 0
    ensures CeilDiv(a + b, g) <= CeilDiv(a, g) + CeilDiv(b, g) <= CeilDiv(a + b, g) + 1
  {
    CeilBounds(a, g);
    CeilBounds(b, g);
    CeilBounds(a + b, g);
    var p, q, r := CeilDiv(a, g), CeilDiv(b, g), CeilDiv(a + b, g);
    Distribute(p, q, g);
    if p + q < r {
      MulMonotone(p + q + 1, r, g);
      Distribute(p + q, 1, g);
      assert false;
    }
    if p + q > r + 1 {
      MulMonotone(r + 2, p + q, g);
      Distribute(r, 2, g);
      assert false;
    }
  }

  /** The least multiple of `g` that reaches `a`. */
  lemma CeilBounds(a: nat, g: nat)
    requires g > 0
    ensures a <= CeilDiv(a, g) * g < a + g
  {
    var q := CeilDiv(a, g);
    assert a + g - 1 == q * g + (a + g - 1) % g;
  }

  lemma CeilMonotone(a: nat, b: nat, g: nat)
    requires g > 0 && a <= b
    ensures CeilDiv(a, g) <= CeilDiv(b, g)
  {
    CeilSum(a, b - a, g);
    CeilBounds(b - a, g);
    if CeilDiv(a, g) > CeilDiv(b, g) {
      CeilBounds(a, g);
      CeilBounds(b, g);
      MulMonotone(CeilDiv(b, g) + 1, CeilDiv(a, g), g);
      Distribute(CeilDiv(b, g), 1, g);
      assert false;
    }
  }

  lemma FloorBounds(a: nat, g: nat)
    requires g > 0
    ensures (a / g) * g <= a < (a / g) * g + g
  {
    assert a == (a / g) * g + a % g;
  }

  /** A window of at most `t` tokens meets at most ceil((t + g - 1) / g) blocks. */
  lemma WindowBlocks(s: nat, e: nat, t: nat, g: nat)
    requires g > 0 && t > 0 && e <= s + t
    ensures CeilDiv(e, g) <= s / g + CeilDiv(t + g - 1, g)
  {
    FloorBounds(s, g);
    CeilBounds(e, g);
    var k := CeilDiv(t + g - 1, g);
    CeilBounds(t + g - 1, g);
    if CeilDiv(e, g) > s / g + k {
      MulMonotone(s / g + k + 1, CeilDiv(e, g), g);
      Distribute(s / g + k, 1, g);
      Distribute(s / g, k, g);
      assert false;
    }
  }

  /** Writing `n` tokens from `s` starts at most ceil(n / g) blocks after the first. */
  lemma TouchedBlocks(s: nat, e: nat, n: nat, g: nat)
    requires g > 0 && s < e <= s + n
    ensures (e - 1) / g <= s / g + CeilDiv(n, g)
  {
    FloorBounds(s, g);
    FloorBounds(e - 1, g);
    CeilBounds(n, g);
    var k := CeilDiv(n, g);
    if (e - 1) / g > s / g + k {
      MulMonotone(s / g + k + 1, (e - 1) / g, g);
      Distribute(s / g + k, 1, g);
      Distribute(s / g, k, g);
      assert false;
    }
  }

  lemma LastBlock(e: nat, g: nat)
    requires g > 0 && e > 0
    ensures CeilDiv(e, g) == (e - 1) / g + 1
  {
    Distribute(1, (e - 1) / g, g);
    assert e + g - 1 == ((e - 1) / g + 1) * g + (e - 1) % g;
    DivModUnique(e + g - 1, g, (e - 1) / g + 1, (e - 1) % g);
  }

  // ---- one request ----

  lemma SizeOfSubset(a: set<nat>, b: set<nat>)
    requires a <= b
    ensures |a| <= |b|
  {
    ExactPool.SubsetIsSmaller(a, b);
  }

  lemma SizeOfUnion(a: set<nat>, b: set<nat>)
    ensures |a + b| <= |a| + |b|
  {
    assert a + b == a + (b - a);
    SizeOfSubset(b - a, b);
  }

  /** A request at a known end keeps at most `ResidentBlocks` blocks. */
  lemma PersistentSize(cfg: GroupConfig, ids: seq<nat>, s: Span)
    requires cfg.Valid() && s.minEnd == s.maxEnd && s.maxEnd <= s.tailStart + cfg.tail
    ensures |SpanBlocks(cfg, ids, s)| <= ResidentBlocks(cfg)
  {
    hide SpanBlocks, PhysicalRange, CeilDiv;
    var n, m := NumLogical(cfg, ids, s.maxEnd), cfg.perManager;
    var top, current := Min(CeilDiv(cfg.boundary, cfg.group), n), FirstCurrent(cfg, s.minEnd);
    SpanBlocksKeys(cfg, ids, s);
    RangeSize(ids, m, 0, top);
    if cfg.tail == 0 {
      RangeSize(ids, m, current, n);
      SizeOfUnion(PhysicalRange(ids, m, 0, top), PhysicalRange(ids, m, current, n));
    } else {
      WindowBlocks(s.tailStart, s.maxEnd, cfg.tail, cfg.group);
      var first := Min(s.tailStart / cfg.group, n);
      var low := Min(first, current);
      RangeWithin(ids, m, first, n, low, n);
      RangeWithin(ids, m, current, n, low, n);
      RangeSize(ids, m, low, n);
      TailHasBlock(cfg);
      SizeOfUnion(PhysicalRange(ids, m, 0, top), PhysicalRange(ids, m, low, n));
      SizeOfSubset(SpanBlocks(cfg, ids, s).Keys, PhysicalRange(ids, m, 0, top) + PhysicalRange(ids, m, low, n));
    }
  }

  /** With up to `x` of its tokens in doubt a request keeps at most ceil(x / group) blocks more. */
  lemma DoubtedSize(cfg: GroupConfig, ids: seq<nat>, s: Span, x: nat)
    requires cfg.Valid() && s.minEnd <= s.maxEnd <= s.minEnd + x && s.maxEnd <= s.tailStart + cfg.tail + x
    ensures |SpanBlocks(cfg, ids, s)| <= ResidentBlocks(cfg) + CeilDiv(x, cfg.group)
  {
    hide SpanBlocks, PhysicalRange, CeilDiv;
    var n, m := NumLogical(cfg, ids, s.maxEnd), cfg.perManager;
    var top, current := Min(CeilDiv(cfg.boundary, cfg.group), n), FirstCurrent(cfg, s.minEnd);
    SpanBlocksKeys(cfg, ids, s);
    RangeSize(ids, m, 0, top);
    CurrentWindow(cfg, s.minEnd, s.maxEnd, x);
    var low := current;
    if cfg.tail > 0 {
      TailWindow(cfg, s.tailStart, s.maxEnd, x);
      low := Min(Min(s.tailStart / cfg.group, n), current);
      RangeWithin(ids, m, Min(s.tailStart / cfg.group, n), n, low, n);
      TailHasBlock(cfg);
    }
    RangeWithin(ids, m, current, n, low, n);
    RangeSize(ids, m, low, n);
    SizeOfUnion(PhysicalRange(ids, m, 0, top), PhysicalRange(ids, m, low, n));
    SizeOfSubset(SpanBlocks(cfg, ids, s).Keys, PhysicalRange(ids, m, 0, top) + PhysicalRange(ids, m, low, n));
  }

  lemma CurrentWindow(cfg: GroupConfig, lo: nat, hi: nat, x: nat)
    requires cfg.Valid() && lo <= hi <= lo + x
    ensures CeilDiv(hi, cfg.group) <= FirstCurrent(cfg, lo) + 1 + CeilDiv(x, cfg.group)
  {
    hide CeilDiv;
    CeilMonotone(hi, lo + x, cfg.group);
    CeilSum(lo, x, cfg.group);
  }

  lemma TailWindow(cfg: GroupConfig, s: nat, e: nat, x: nat)
    requires cfg.Valid() && cfg.tail > 0 && e <= s + cfg.tail + x
    ensures CeilDiv(e, cfg.group)
         <= s / cfg.group + CeilDiv(cfg.tail + cfg.group - 1, cfg.group) + CeilDiv(x, cfg.group)
  {
    hide CeilDiv;
    var certain := Min(e, s + cfg.tail);
    WindowBlocks(s, certain, cfg.tail, cfg.group);
    CeilMonotone(e, certain + x, cfg.group);
    CeilSum(certain, x, cfg.group);
  }

  lemma TailHasBlock(cfg: GroupConfig)
    requires cfg.Valid() && cfg.tail > 0
    ensures CeilDiv(cfg.tail + cfg.group - 1, cfg.group) >= 1
  {
    CeilBounds(cfg.tail + cfg.group - 1, cfg.group);
  }

  /** A range of a table without repetitions has as many blocks as numbers. */
  lemma {:induction false} RangeIsExact(ids: seq<nat>, m: nat, hi: nat)
    requires m > 0 && Distinct(ids) && hi <= |ids| * m
    ensures |PhysicalRange(ids, m, 0, hi)| == hi
  {
    hide PhysicalBlock, Distinct;
    if hi == 0 {
      assert PhysicalRange(ids, m, 0, 0) == {};
    } else {
      RangeIsExact(ids, m, hi - 1);
      RangeGrows(ids, m, 0, hi);
      var last := PhysicalBlock(ids, hi - 1, m);
      if last in PhysicalRange(ids, m, 0, hi - 1) {
        var l: nat :| l < hi - 1 && PhysicalBlock(ids, l, m) == last;
        PhysicalInjective(ids, m, l, hi - 1);
      }
    }
  }

  lemma OnlyRank(n: nat, i: nat)
    requires i > 0
    ensures LocalNumTokens(n, 1, 0, i) == n
  {
    hide LocalNumTokens;
    CountsPartition(n, 1, i);
    assert SumCounts(n, 1, 0, i) == 0;
  }

  /** Full boundary blocks, then a tail that starts with the last token of a block. */
  lemma WidestWindow(b: nat, t: nat, g: nat) returns (n: nat)
    requires g > 0
    ensures t == 0 ==> CeilDiv(n, g) == b + 1
    ensures t > 0 ==> n >= t && (n - t) / g == b && CeilDiv(n, g) == b + CeilDiv(t + g - 1, g)
  {
    if t == 0 {
      n := b * g + 1;
      Distribute(b, 1, g);
      DivModUnique(n + g - 1, g, b + 1, 0);
    } else {
      n := b * g + (g - 1) + t;
      DivModUnique(n - t, g, b, g - 1);
      var x := t + g - 1 + g - 1;
      assert x == (x / g) * g + x % g;
      Distribute(b, x / g, g);
      DivModUnique(n + g - 1, g, b + x / g, x % g);
    }
  }

  /** The bound is tight: on a single rank some length makes a request keep exactly `ResidentBlocks` blocks. */
  lemma ResidentIsReached(cfg: GroupConfig, ids: seq<nat>) returns (n: nat)
    requires cfg.Valid() && cfg.world == 1 && Distinct(ids) && ResidentBlocks(cfg) <= |ids| * cfg.perManager
    ensures |SpanBlocks(cfg, ids, SpanOf(cfg, Window(n, n, n)))| == ResidentBlocks(cfg)
  {
    hide LocalNumTokens, CeilDiv, PhysicalBlock, PhysicalRange, SpanBlocks, Distinct;
    var m, top := cfg.perManager, CeilDiv(cfg.boundary, cfg.group);
    n := WidestWindow(top, cfg.tail, cfg.group);
    OnlyRank(n, cfg.interleave);
    OnlyRank(Max(n - cfg.tail, 0), cfg.interleave);
    var s := SpanOf(cfg, Window(n, n, n));
    SpanBlocksWithin(cfg, ids, s);
    forall b | b in PhysicalRange(ids, m, 0, ResidentBlocks(cfg))
      ensures b in SpanBlocks(cfg, ids, s)
    {
      var l := NumberOf(ids, m, ResidentBlocks(cfg), b);
      SpanBlocksAt(cfg, ids, s, l);
    }
    RangeIsExact(ids, m, ResidentBlocks(cfg));
    assert SpanBlocks(cfg, ids, s).Keys == PhysicalRange(ids, m, 0, ResidentBlocks(cfg));
  }

  lemma NumberOf(ids: seq<nat>, m: nat, hi: nat, b: nat) returns (l: nat)
    requires m > 0 && hi <= |ids| * m && b in PhysicalRange(ids, m, 0, hi)
    ensures l < hi && InTable(ids, l, m) && PhysicalBlock(ids, l, m) == b
  {
    hide PhysicalBlock;
    l :| 0 <= l < hi && PhysicalBlock(ids, l, m) == b;
  }

  /** A fully covered request reaches at most `ResidentBlocks` blocks. */
  lemma FullContextReach(cfg: GroupConfig, ids: seq<nat>, maxEnd: nat)
    requires cfg.Valid() && FullContext(cfg, maxEnd)
    ensures NumLogical(cfg, ids, cfg.Local(maxEnd)) <= ResidentBlocks(cfg)
  {
    hide LocalNumTokens;
    CountAtMost(maxEnd, cfg.world, cfg.rank, cfg.interleave);
    CeilMonotone(cfg.Local(maxEnd), cfg.boundary + cfg.tail, cfg.group);
    CeilSum(cfg.boundary, cfg.tail, cfg.group);
    CeilMonotone(cfg.tail, cfg.tail + cfg.group - 1, cfg.group);
  }

  function Reach(cfg: GroupConfig, table: seq<nat>): nat
    requires cfg.Valid()
  {
    Min(ResidentBlocks(cfg), |table| * cfg.perManager)
  }

  /** What is known of one owned group: its size, and where its blocks lie while fully covered. */
  ghost predicate OwnedOk(cfg: GroupConfig, table: seq<nat>, blocks: Blocks, full: bool)
    requires cfg.Valid()
  {
    && |blocks| <= ResidentBlocks(cfg)
    && (full ==> blocks.Keys <= PhysicalRange(table, cfg.perManager, 0, Reach(cfg, table)))
  }

  lemma WithinReach(cfg: GroupConfig, ids: seq<nat>, table: seq<nat>, lo: nat, n: nat)
    requires cfg.Valid() && ids <= table && n <= |ids| * cfg.perManager && n <= ResidentBlocks(cfg)
    ensures PhysicalRange(ids, cfg.perManager, lo, n)
         <= PhysicalRange(table, cfg.perManager, 0, Reach(cfg, table))
  {
    hide PhysicalRange, ResidentBlocks;
    var m := cfg.perManager;
    MulMonotone(|ids|, |table|, m);
    RangePrefix(ids, table, m, lo, n);
    RangeWithin(table, m, lo, n, 0, Reach(cfg, table));
  }

  lemma WithinReachIsSmall(cfg: GroupConfig, table: seq<nat>, blocks: Blocks)
    requires cfg.Valid() && blocks.Keys <= PhysicalRange(table, cfg.perManager, 0, Reach(cfg, table))
    ensures |blocks| <= ResidentBlocks(cfg)
  {
    hide PhysicalRange, ResidentBlocks;
    RangeSize(table, cfg.perManager, 0, Reach(cfg, table));
    SizeOfSubset(blocks.Keys, PhysicalRange(table, cfg.perManager, 0, Reach(cfg, table)));
  }

  /** Tail and end of a settled window differ by at most the tail length. */
  lemma SettledSpan(cfg: GroupConfig, start: nat, end: nat)
    requires cfg.Valid()
    ensures var s := SpanOf(cfg, Window(start, end, end));
      s.minEnd == s.maxEnd && s.maxEnd <= s.tailStart + cfg.tail
  {
    hide LocalNumTokens;
    CountMonotone(Max(end - cfg.tail, 0), end, cfg.world, cfg.rank, cfg.interleave);
  }

  /** Scheduling a request without rollback keeps each of its groups within bounds. */
  lemma EnterGroupOk(cfg: GroupConfig, ids: seq<nat>, table: seq<nat>, start: nat, scheduled: nat,
                     previous: map<GroupId, Blocks>, previousFull: set<GroupId>, g: GroupId)
    requires cfg.Valid() && ids <= table
    requires g in previous ==> OwnedOk(cfg, table, previous[g], g in previousFull)
    ensures var w := WindowOf(start, scheduled, 0);
      OwnedOk(cfg, table, GroupBlocks(cfg, ids, w, previous, previousFull, g), FullContext(cfg, w.maxEnd))
  {
    hide LocalNumTokens, SpanBlocks, PhysicalRange, ResidentBlocks, AssignRange, Reach, FirstUpdate;
    var w := WindowOf(start, scheduled, 0);
    var s := SpanOf(cfg, w);
    var n := NumLogical(cfg, ids, s.maxEnd);
    if FullContext(cfg, w.maxEnd) {
      FullContextReach(cfg, ids, w.maxEnd);
      if g in previousFull && g in previous {
        var fast := FastBlocks(cfg, ids, s, previous[g]);
        AssignKeys(cfg, ids, s.minEnd, FirstUpdate(cfg, s), n, previous[g]);
        WithinReach(cfg, ids, table, FirstUpdate(cfg, s), n);
        WithinReachIsSmall(cfg, table, fast);
      } else {
        SpanBlocksWithin(cfg, ids, s);
        WithinReach(cfg, ids, table, 0, n);
        WithinReachIsSmall(cfg, table, SpanBlocks(cfg, ids, s));
      }
    } else {
      SettledSpan(cfg, w.minStart, w.minEnd);
      PersistentSize(cfg, ids, s);
    }
  }

  /** The blocks a request may write beyond those it keeps anyway: at most ceil(n / group). */
  lemma TouchedBeyondOwned(cfg: GroupConfig, ids: seq<nat>, start: nat, n: nat,
                           previous: map<GroupId, Blocks>, previousFull: set<GroupId>, g: GroupId)
    returns (extra: set<nat>)
    requires cfg.Valid()
    requires NumLogical(cfg, ids, SpanOf(cfg, WindowOf(start, n, 0)).maxEnd) > 0
    ensures var w := WindowOf(start, n, 0);
      var s := SpanOf(cfg, w);
      && |extra| <= CeilDiv(n, cfg.group)
      && (Touches(s) ==>
            PhysicalRange(ids, cfg.perManager, TouchedFrom(cfg, s), TouchedTo(cfg, ids, s))
            <= extra + GroupBlocks(cfg, ids, w, previous, previousFull, g).Keys)
  {
    hide LocalNumTokens, PhysicalRange, AssignRange, SpanBlocks, CeilDiv;
    var w := WindowOf(start, n, 0);
    var s := SpanOf(cfg, w);
    extra := {};
    if Touches(s) {
      CountMonotone(w.minStart, w.maxEnd, cfg.world, cfg.rank, cfg.interleave);
      var lo, hi, m := TouchedFrom(cfg, s), TouchedTo(cfg, ids, s), cfg.perManager;
      TouchedBlocks(s.minStart, s.maxEnd, n, cfg.group);
      LastBlock(s.maxEnd, cfg.group);
      if hi == CeilDiv(s.maxEnd, cfg.group) && lo < hi {
        extra := PhysicalRange(ids, m, lo, hi - 1);
        RangeSize(ids, m, lo, hi - 1);
        RangeGrows(ids, m, lo, hi);
        LastTouchedIsOwned(cfg, ids, w, previous, previousFull, g);
      } else {
        extra := PhysicalRange(ids, m, lo, hi);
        RangeSize(ids, m, lo, hi);
      }
    }
  }

  /** The block being filled is kept on either path. */
  lemma LastTouchedIsOwned(cfg: GroupConfig, ids: seq<nat>, w: Window,
                           previous: map<GroupId, Blocks>, previousFull: set<GroupId>, g: GroupId)
    requires cfg.Valid() && w.minEnd == w.maxEnd
    requires var s := SpanOf(cfg, w);
      0 < CeilDiv(s.maxEnd, cfg.group) <= |ids| * cfg.perManager
    ensures PhysicalBlock(ids, CeilDiv(SpanOf(cfg, w).maxEnd, cfg.group) - 1, cfg.perManager)
         in GroupBlocks(cfg, ids, w, previous, previousFull, g).Keys
  {
    hide LocalNumTokens, PhysicalRange, PhysicalBlock, AssignRange, SpanBlocks, CeilDiv;
    var s := SpanOf(cfg, w);
    var n, m := NumLogical(cfg, ids, s.maxEnd), cfg.perManager;
    SpanBlocksKeys(cfg, ids, s);
    InRange(ids, m, FirstCurrent(cfg, s.minEnd), n, n - 1);
    InRange(ids, m, FirstUpdate(cfg, s), n, n - 1);
    if g in previous {
      AssignKeys(cfg, ids, s.minEnd, FirstUpdate(cfg, s), n, previous[g]);
    }
  }

  // ---- whole tables ----

  /** A block table for every request that has one. */
  type BlockTables = map<Id, seq<seq<nat>>>

  ghost predicate GrowsTo(ids: seq<seq<nat>>, ids': seq<seq<nat>>) {
    |ids| <= |ids'| && forall g :: 0 <= g < |ids| ==> ids[g] <= ids'[g]
  }

  /** The tables the tracked requests were last scheduled with: a removed request gives its table
      up, and may come back with another one. */
  function LiveAfter(live: BlockTables, event: Event): BlockTables {
    if event.Step? then
      (live - event.removed)
      + map q | q in Entered(event.requests, event.scheduled) :: event.requests[q].blockIds
    else live
  }

  function Live(events: seq<Event>): BlockTables {
    if events == [] then map[]
    else LiveAfter(Live(events[..|events| - 1]), events[|events| - 1])
  }

  /** While a request stays tracked its table only grows. */
  ghost predicate TablesGrow(live: BlockTables, event: Event)
    requires event.Step?
  {
    forall q :: q in Entered(event.requests, event.scheduled) && q in live && q !in event.removed ==>
      GrowsTo(live[q], event.requests[q].blockIds)
  }

  /** After the step every tracked request that was not removed has a table that grew. */
  lemma LiveGrows(live: BlockTables, event: Event, q: Id)
    requires event.Step? && TablesGrow(live, event)
    ensures q in live && q !in event.removed ==>
      q in LiveAfter(live, event) && GrowsTo(live[q], LiveAfter(live, event)[q])
    ensures q in Entered(event.requests, event.scheduled) ==>
      q in LiveAfter(live, event) && LiveAfter(live, event)[q] == event.requests[q].blockIds
  {
  }

  lemma EnteredHas(requests: map<Id, Request>, scheduled: seq<Schedule>, s: Schedule)
    requires s in scheduled && s.req in requests
    ensures s.req in Entered(requests, scheduled)
  {
  }

  ghost predicate PrefixOf(request: Request, table: seq<seq<nat>>) {
    |request.blockIds| <= |table| && forall g :: 0 <= g < |request.blockIds| ==> request.blockIds[g] <= table[g]
  }

  ghost predicate RequestOk(configs: Configs, table: seq<seq<nat>>, groups: map<GroupId, Blocks>, full: set<GroupId>)
    requires ValidConfigs(configs)
  {
    forall g :: g in groups ==> g in configs && g < |table| && OwnedOk(configs[g], table[g], groups[g], g in full)
  }

  ghost predicate NoEpochs(t: Tables) {
    t.pending == map[] && t.epochBlocks == map[] && t.resolved == map[]
  }

  ghost predicate PoolInvariant(configs: Configs, tables: BlockTables, t: Tables)
    requires ValidConfigs(configs)
  {
    && NoEpochs(t)
    && forall r :: r in t.requestBlocks ==>
         r in tables && RequestOk(configs, tables[r], t.requestBlocks[r], GetOr(t.requestFull, r, {}))
  }

  lemma EnterRequestOk(configs: Configs, table: seq<seq<nat>>, request: Request, scheduled: nat,
                       previous: map<GroupId, Blocks>, previousFull: set<GroupId>)
    requires ValidConfigs(configs) && PrefixOf(request, table)
    requires RequestOk(configs, table, previous, previousFull)
    ensures var w := WindowOf(request.computed, scheduled, 0);
      RequestOk(configs, table, ScheduledGroups(configs, request, w, previous, previousFull),
                ScheduledFull(configs, request, w))
  {
    hide LocalNumTokens, GroupBlocks, OwnedOk, NumLogical, FullContext;
    var w := WindowOf(request.computed, scheduled, 0);
    var groups := ScheduledGroups(configs, request, w, previous, previousFull);
    forall g | g in groups
      ensures g in configs && g < |table|
      ensures OwnedOk(configs[g], table[g], groups[g], g in ScheduledFull(configs, request, w))
    {
      EnterGroupOk(configs[g], request.blockIds[g], table[g], request.computed, scheduled, previous, previousFull, g);
    }
  }

  /** Without rollback, entering a request only replaces its own groups and merges its blocks. */
  lemma EnterWithoutRollback(configs: Configs, t: Tables, requests: map<Id, Request>, s: Schedule,
                             rollback: map<Id, nat>, epochs: map<Id, Id>)
    requires ValidConfigs(configs) && NoEpochs(t) && GetOr(rollback, s.req, 0) == 0 && s.req in requests
    ensures var request := requests[s.req];
      var w := WindowOf(request.computed, s.tokens, 0);
      ScheduleOne(configs, t, requests, s, rollback, epochs)
        == OwnGroups(t, s.req,
             ScheduledGroups(configs, request, w, GetOr(t.requestBlocks, s.req, map[]),
                 GetOr(t.requestFull, s.req, {})),
             ScheduledFull(configs, request, w), ScheduledStep(configs, request, w, t.stepBlocks))
  {
    hide ScheduledGroups, ScheduledFull, ScheduledStep, ScheduledPending, OwnGroups, Resolve;
  }

  lemma OwnKeepsInvariant(configs: Configs, tables: BlockTables, t: Tables, req: Id,
                          groups: map<GroupId, Blocks>, full: set<GroupId>, step: map<GroupId, Blocks>)
    requires ValidConfigs(configs) && PoolInvariant(configs, tables, t)
    requires req in tables && RequestOk(configs, tables[req], groups, full)
    ensures PoolInvariant(configs, tables, OwnGroups(t, req, groups, full, step))
  {
    hide RequestOk;
  }

  /** Blocks of the step tables are either among `budget` extra ones or kept by a processed request. */
  ghost predicate StepBounded(t: Tables, g: GroupId, processed: set<Id>, budget: nat) {
    g in t.stepBlocks
    && exists extra: set<nat> :: |extra| <= budget && StepWithin(t, g, processed, extra)
  }

  ghost predicate StepWithin(t: Tables, g: GroupId, processed: set<Id>, extra: set<nat>)
    requires g in t.stepBlocks
  {
    forall b :: b in t.stepBlocks[g] ==> b in extra || exists r :: r in processed && Keeps(t, r, g, b)
  }

  ghost predicate Keeps(t: Tables, r: Id, g: GroupId, b: nat) {
    r in t.requestBlocks && g in t.requestBlocks[r] && b in t.requestBlocks[r][g]
  }

  /** Tokens scheduled for known requests, and the extra blocks they may need. */
  function Budget(g: nat, requests: map<Id, Request>, scheduled: seq<Schedule>): nat
    requires g > 0
  {
    if scheduled == [] then 0
    else
      var s := scheduled[|scheduled| - 1];
      Budget(g, requests, scheduled[..|scheduled| - 1])
      + (if s.req in requests then CeilDiv(s.tokens, g) else 0)
  }

  function TotalTokens(scheduled: seq<Schedule>): nat {
    if scheduled == [] then 0
    else TotalTokens(scheduled[..|scheduled| - 1]) + scheduled[|scheduled| - 1].tokens
  }

  function Entered(requests: map<Id, Request>, scheduled: seq<Schedule>): set<Id> {
    set s | s in scheduled && s.req in requests :: s.req
  }

  ghost predicate DistinctRequests(scheduled: seq<Schedule>) {
    forall i, j :: 0 <= i < j < |scheduled| ==> scheduled[i].req != scheduled[j].req
  }

  /** Rounding each request's blocks up costs at most one block per request. */
  lemma {:induction false} BudgetBound(g: nat, requests: map<Id, Request>, scheduled: seq<Schedule>)
    requires g > 0 && DistinctRequests(scheduled)
    ensures Budget(g, requests, scheduled)
         <= CeilDiv(TotalTokens(scheduled), g) + |Entered(requests, scheduled)|
  {
    hide CeilDiv;
    if scheduled != [] {
      var front, s := scheduled[..|scheduled| - 1], scheduled[|scheduled| - 1];
      BudgetBound(g, requests, front);
      EnteredGrows(requests, scheduled);
      CeilSum(TotalTokens(front), s.tokens, g);
      CeilMonotone(TotalTokens(front), TotalTokens(front) + s.tokens, g);
    }
  }

  lemma EnteredGrows(requests: map<Id, Request>, scheduled: seq<Schedule>)
    requires scheduled != [] && DistinctRequests(scheduled)
    ensures var front, s := scheduled[..|scheduled| - 1], scheduled[|scheduled| - 1];
      && s.req !in Entered(requests, front)
      && Entered(requests, scheduled) == Entered(requests, front) + (if s.req in requests then {s.req} else {})
  {
    var front, s := scheduled[..|scheduled| - 1], scheduled[|scheduled| - 1];
    assert scheduled == front + [s];
    forall q | q in Entered(requests, front)
      ensures q != s.req
    {
      var i :| 0 <= i < |front| && front[i].req == q;
      assert scheduled[i].req == q;
    }
  }

  /** What one request adds to a step table beyond the blocks it keeps. */
  lemma StepAdds(configs: Configs, step: map<GroupId, Blocks>, request: Request, tokens: nat,
                 previous: map<GroupId, Blocks>, previousFull: set<GroupId>, g: GroupId) returns (more: set<nat>)
    requires ValidConfigs(configs) && g in configs && g in step
    ensures |more| <= CeilDiv(tokens, configs[g].group)
    ensures var w := WindowOf(request.computed, tokens, 0);
      var groups := ScheduledGroups(configs, request, w, previous, previousFull);
      ScheduledStep(configs, request, w, step)[g].Keys <= step[g].Keys + more + GetOr(groups, g, map[]).Keys
  {
    hide LocalNumTokens, GroupBlocks, MergeRange, NumLogical, PhysicalRange, TouchedTo, CeilDiv;
    var w := WindowOf(request.computed, tokens, 0);
    var cfg := configs[g];
    more := {};
    if Active(configs, request, w, g) {
      var ids, s := request.blockIds[g], SpanOf(cfg, w);
      more := TouchedBeyondOwned(cfg, ids, request.computed, tokens, previous, previousFull, g);
      if Touches(s) {
        MergeKeys(cfg, ids, s.minEnd, TouchedFrom(cfg, s), TouchedTo(cfg, ids, s), step[g]);
      }
    }
  }

  lemma StepGrows(t: Tables, req: Id, groups: map<GroupId, Blocks>, full: set<GroupId>,
                  step: map<GroupId, Blocks>, g: GroupId, processed: set<Id>, budget: nat,
                  more: set<nat>, moreBudget: nat)
    requires g in t.stepBlocks && g in step && StepBounded(t, g, processed, budget) && req !in processed
    requires |more| <= moreBudget && step[g].Keys <= t.stepBlocks[g].Keys + more + GetOr(groups, g, map[]).Keys
    ensures StepBounded(OwnGroups(t, req, groups, full, step), g, processed + {req}, budget + moreBudget)
  {
    hide OwnGroups, StepWithin, Keeps;
    var after := OwnGroups(t, req, groups, full, step);
    var extra: set<nat> :| |extra| <= budget && StepWithin(t, g, processed, extra);
    SizeOfUnion(extra, more);
    OwnedStep(t, req, groups, full, step);
    StepWithinGrows(t, req, groups, full, step, g, processed, extra, more);
    assert StepWithin(after, g, processed + {req}, extra + more);
  }

  lemma OwnedStep(t: Tables, req: Id, groups: map<GroupId, Blocks>, full: set<GroupId>, step: map<GroupId, Blocks>)
    ensures OwnGroups(t, req, groups, full, step).stepBlocks == step
  {
  }

  lemma StepWithinGrows(t: Tables, req: Id, groups: map<GroupId, Blocks>, full: set<GroupId>,
                        step: map<GroupId, Blocks>, g: GroupId, processed: set<Id>, extra: set<nat>, more: set<nat>)
    requires g in t.stepBlocks && g in step && StepWithin(t, g, processed, extra) && req !in processed
    requires step[g].Keys <= t.stepBlocks[g].Keys + more + GetOr(groups, g, map[]).Keys
    ensures StepWithin(OwnGroups(t, req, groups, full, step), g, processed + {req}, extra + more)
  {
    hide Keeps;
    var after := OwnGroups(t, req, groups, full, step);
    forall b | b in step[g] && b !in extra + more
      ensures exists r :: r in processed + {req} && Keeps(after, r, g, b)
    {
      if b in t.stepBlocks[g] {
        var r :| r in processed && Keeps(t, r, g, b);
        StillKeeps(t, req, groups, full, step, r, g, b);
        assert r in processed + {req};
      } else {
        NowKeeps(t, req, groups, full, step, g, b);
        assert req in processed + {req};
      }
    }
  }

  lemma StillKeeps(t: Tables, req: Id, groups: map<GroupId, Blocks>, full: set<GroupId>,
                   step: map<GroupId, Blocks>, r: Id, g: GroupId, b: nat)
    requires Keeps(t, r, g, b) && r != req
    ensures Keeps(OwnGroups(t, req, groups, full, step), r, g, b)
  {
  }

  lemma NowKeeps(t: Tables, req: Id, groups: map<GroupId, Blocks>, full: set<GroupId>,
                 step: map<GroupId, Blocks>, g: GroupId, b: nat)
    requires g in groups && b in groups[g]
    ensures Keeps(OwnGroups(t, req, groups, full, step), req, g, b)
  {
  }

  /** Loop invariant of a rollback-free update. */
  ghost predicate Progress(configs: Configs, tables: BlockTables, t: Tables, requests: map<Id, Request>,
                           scheduled: seq<Schedule>, g: GroupId)
    requires ValidConfigs(configs) && g in configs
  {
    && PoolInvariant(configs, tables, t)
    && t.stepBlocks.Keys == configs.Keys
    && Entered(requests, scheduled) <= t.requestBlocks.Keys
    && StepBounded(t, g, Entered(requests, scheduled), Budget(configs[g].group, requests, scheduled))
  }

  lemma ScheduleKeepsInvariant(configs: Configs, tables: BlockTables, t: Tables, requests: map<Id, Request>,
                               s: Schedule, rollback: map<Id, nat>, epochs: map<Id, Id>)
    requires ValidConfigs(configs) && PoolInvariant(configs, tables, t) && t.stepBlocks.Keys == configs.Keys
    requires GetOr(rollback, s.req, 0) == 0 && s.req in requests && s.req in tables
    requires PrefixOf(requests[s.req], tables[s.req])
    ensures var after := ScheduleOne(configs, t, requests, s, rollback, epochs);
      && PoolInvariant(configs, tables, after) && after.stepBlocks.Keys == configs.Keys
      && after.requestBlocks.Keys == t.requestBlocks.Keys + {s.req}
  {
    hide ScheduledGroups, ScheduledFull, ScheduledStep, RequestOk, PoolInvariant, ScheduleOne, PrefixOf;
    var request, w := requests[s.req], WindowOf(requests[s.req].computed, s.tokens, 0);
    var previous, previousFull := GetOr(t.requestBlocks, s.req, map[]), GetOr(t.requestFull, s.req, {});
    InvariantHasNoEpochs(configs, tables, t);
    InvariantOfRequest(configs, tables, t, s.req);
    EnterWithoutRollback(configs, t, requests, s, rollback, epochs);
    NothingIsOk(configs, tables[s.req]);
    EnterRequestOk(configs, tables[s.req], request, s.tokens, previous, previousFull);
    OwnKeepsInvariant(configs, tables, t, s.req, ScheduledGroups(configs, request, w, previous, previousFull),
                      ScheduledFull(configs, request, w), ScheduledStep(configs, request, w, t.stepBlocks));
    ScheduledStepKeys(configs, request, w, t.stepBlocks);
  }

  lemma ScheduleGrows(configs: Configs, t: Tables, requests: map<Id, Request>, s: Schedule, rollback: map<Id, nat>,
                      epochs: map<Id, Id>, g: GroupId, processed: set<Id>, budget: nat)
    requires ValidConfigs(configs) && g in configs && t.stepBlocks.Keys == configs.Keys && NoEpochs(t)
    requires GetOr(rollback, s.req, 0) == 0 && s.req in requests && s.req !in processed
    requires StepBounded(t, g, processed, budget)
    ensures StepBounded(ScheduleOne(configs, t, requests, s, rollback, epochs), g, processed + {s.req},
                        budget + CeilDiv(s.tokens, configs[g].group))
  {
    hide ScheduledGroups, ScheduledFull, ScheduledStep, CeilDiv, StepBounded, ScheduleOne, OwnGroups, NoEpochs;
    var request, w := requests[s.req], WindowOf(requests[s.req].computed, s.tokens, 0);
    var previous, previousFull := GetOr(t.requestBlocks, s.req, map[]), GetOr(t.requestFull, s.req, {});
    EnterWithoutRollback(configs, t, requests, s, rollback, epochs);
    ScheduledStepKeys(configs, request, w, t.stepBlocks);
    var more := StepAdds(configs, t.stepBlocks, request, s.tokens, previous, previousFull, g);
    StepGrows(t, s.req, ScheduledGroups(configs, request, w, previous, previousFull),
              ScheduledFull(configs, request, w), ScheduledStep(configs, request, w, t.stepBlocks), g, processed,
              budget, more, CeilDiv(s.tokens, configs[g].group));
  }

  lemma ProgressOne(configs: Configs, tables: BlockTables, t: Tables, requests: map<Id, Request>,
                    scheduled: seq<Schedule>, rollback: map<Id, nat>, epochs: map<Id, Id>, g: GroupId)
    requires ValidConfigs(configs) && g in configs && scheduled != [] && DistinctRequests(scheduled)
    requires Progress(configs, tables, t, requests, scheduled[..|scheduled| - 1], g)
    requires var s := scheduled[|scheduled| - 1];
      GetOr(rollback, s.req, 0) == 0
      && (s.req in requests ==> s.req in tables && PrefixOf(requests[s.req], tables[s.req]))
    ensures Progress(configs, tables, ScheduleOne(configs, t, requests, scheduled[|scheduled| - 1], rollback, epochs),
                     requests, scheduled, g)
  {
    hide CeilDiv, StepBounded, PoolInvariant, ScheduleOne, Entered, PrefixOf;
    var s := scheduled[|scheduled| - 1];
    EnteredGrows(requests, scheduled);
    if s.req in requests {
      InvariantHasNoEpochs(configs, tables, t);
      ScheduleKeepsInvariant(configs, tables, t, requests, s, rollback, epochs);
      ScheduleGrows(configs, t, requests, s, rollback, epochs, g, Entered(requests, scheduled[..|scheduled| - 1]),
                    Budget(configs[g].group, requests, scheduled[..|scheduled| - 1]));
    } else {
      UnknownRequest(configs, t, requests, s, rollback, epochs);
      assert Entered(requests, scheduled[..|scheduled| - 1]) + {} == Entered(requests, scheduled[..|scheduled| - 1]);
    }
  }

  lemma InvariantOfRequest(configs: Configs, tables: BlockTables, t: Tables, r: Id)
    requires ValidConfigs(configs) && PoolInvariant(configs, tables, t)
    ensures r in t.requestBlocks ==>
      r in tables && RequestOk(configs, tables[r], t.requestBlocks[r], GetOr(t.requestFull, r, {}))
  {
  }

  lemma UnknownRequest(configs: Configs, t: Tables, requests: map<Id, Request>, s: Schedule,
                       rollback: map<Id, nat>, epochs: map<Id, Id>)
    requires ValidConfigs(configs) && s.req !in requests
    ensures ScheduleOne(configs, t, requests, s, rollback, epochs) == t
  {
  }

  lemma NothingIsOk(configs: Configs, table: seq<seq<nat>>)
    requires ValidConfigs(configs)
    ensures forall full :: RequestOk(configs, table, map[], full)
  {
  }

  /** A step that respects the scheduler's limits and rolls nothing back. */
  ghost predicate WithinLimits(live: BlockTables, event: Event, maxTokens: nat) {
    && event.Step?
    && DistinctRequests(event.scheduled) && TotalTokens(event.scheduled) <= maxTokens
    && (forall s :: s in event.scheduled ==> GetOr(event.rollback, s.req, 0) == 0)
    && TablesGrow(live, event)
  }

  lemma {:induction false} ProgressAll(configs: Configs, tables: BlockTables, t: Tables, requests: map<Id, Request>,
                                       scheduled: seq<Schedule>, rollback: map<Id, nat>, epochs: map<Id, Id>,
                                       g: GroupId)
    requires ValidConfigs(configs) && g in configs && DistinctRequests(scheduled)
    requires Progress(configs, tables, t, requests, [], g)
    requires forall s :: s in scheduled ==> GetOr(rollback, s.req, 0) == 0
    requires forall s :: s in scheduled && s.req in requests ==>
      s.req in tables && PrefixOf(requests[s.req], tables[s.req])
    ensures Progress(configs, tables, ScheduleAll(configs, t, requests, scheduled, rollback, epochs), requests,
        scheduled, g)
  {
    hide Progress, ScheduleOne, PrefixOf;
    if scheduled != [] {
      var front := scheduled[..|scheduled| - 1];
      ProgressAll(configs, tables, t, requests, front, rollback, epochs, g);
      ProgressOne(configs, tables, ScheduleAll(configs, t, requests, front, rollback, epochs), requests,
                  scheduled, rollback, epochs, g);
    }
  }

  /** An update starts with empty step tables. */
  lemma BeginWithoutEpochs(configs: Configs, live: BlockTables, t: Tables, event: Event, g: GroupId)
    requires ValidConfigs(configs) && g in configs && PoolInvariant(configs, live, t)
    requires event.Step? && TablesGrow(live, event)
    ensures Progress(configs, LiveAfter(live, event), BeginStep(configs, t, event.removed), event.requests, [], g)
    ensures BeginStep(configs, t, event.removed).requestBlocks == t.requestBlocks - event.removed
  {
    hide PoolInvariant, BeginStep, StepWithin, LiveAfter, TablesGrow;
    InvariantHasNoEpochs(configs, live, t);
    BeginIs(configs, t, event.removed);
    BeginKeepsInvariant(configs, live, t, BeginStep(configs, t, event.removed), event);
    assert Entered(event.requests, []) == {};
    NothingStepped(BeginStep(configs, t, event.removed), g);
  }

  lemma BeginIs(configs: Configs, t: Tables, removed: set<Id>)
    requires NoEpochs(t)
    ensures
      var begun := BeginStep(configs, t, removed);
      && NoEpochs(begun) && begun.stepBlocks == (map g | g in configs :: map[])
      && begun.requestBlocks == t.requestBlocks - removed && begun.requestFull == t.requestFull - removed
  {
    hide ConsumedStep;
    NothingConsumed(RemoveRequests(t.(stepBlocks := map g | g in configs :: map[]), removed));
  }

  lemma BeginKeepsInvariant(configs: Configs, live: BlockTables, t: Tables, begun: Tables, event: Event)
    requires ValidConfigs(configs) && PoolInvariant(configs, live, t) && NoEpochs(begun)
    requires event.Step? && TablesGrow(live, event)
    requires begun.requestBlocks == t.requestBlocks - event.removed
    requires begun.requestFull == t.requestFull - event.removed
    ensures PoolInvariant(configs, LiveAfter(live, event), begun)
  {
    hide RequestOk, LiveAfter, TablesGrow, GrowsTo;
    forall r | r in begun.requestBlocks
      ensures r in LiveAfter(live, event)
      ensures RequestOk(configs, LiveAfter(live, event)[r], begun.requestBlocks[r], GetOr(begun.requestFull, r, {}))
    {
      LiveGrows(live, event, r);
      RequestGrows(configs, live[r], LiveAfter(live, event)[r], t.requestBlocks[r], GetOr(t.requestFull, r, {}));
    }
  }

  lemma RequestGrows(configs: Configs, ids: seq<seq<nat>>, ids': seq<seq<nat>>, groups: map<GroupId, Blocks>,
                     full: set<GroupId>)
    requires ValidConfigs(configs) && RequestOk(configs, ids, groups, full) && GrowsTo(ids, ids')
    ensures RequestOk(configs, ids', groups, full)
  {
    hide OwnedOk;
    forall g | g in groups
      ensures g in configs && g < |ids'| && OwnedOk(configs[g], ids'[g], groups[g], g in full)
    {
      OwnedGrows(configs[g], ids[g], ids'[g], groups[g], g in full);
    }
  }

  /** The reached part of a table is the reached part of every longer one. */
  lemma OwnedGrows(cfg: GroupConfig, ids: seq<nat>, ids': seq<nat>, blocks: Blocks, full: bool)
    requires cfg.Valid() && ids <= ids' && OwnedOk(cfg, ids, blocks, full)
    ensures OwnedOk(cfg, ids', blocks, full)
  {
    hide PhysicalRange, ResidentBlocks;
    WithinReach(cfg, ids, ids', 0, Reach(cfg, ids));
  }

  lemma NothingStepped(t: Tables, g: GroupId)
    requires g in t.stepBlocks && t.stepBlocks[g] == map[]
    ensures StepBounded(t, g, {}, 0)
  {
    assert StepWithin(t, g, {}, {});
  }

  // ---- counting the needed blocks ----

  ghost function OwnedUnion(requestBlocks: map<Id, map<GroupId, Blocks>>, g: GroupId): set<nat> {
    set r, b | r in requestBlocks && b in GetOr(requestBlocks[r], g, map[]) :: b
  }

  lemma {:induction false} OwnedUnionSize(requestBlocks: map<Id, map<GroupId, Blocks>>, g: GroupId, each: nat)
    requires forall r :: r in requestBlocks ==> |GetOr(requestBlocks[r], g, map[])| <= each
    ensures |OwnedUnion(requestBlocks, g)| <= |requestBlocks| * each
    decreases |requestBlocks|
  {
    hide OwnedUnion;
    if requestBlocks == map[] {
      NothingOwned(g);
    } else {
      var r :| r in requestBlocks;
      var rest, last := requestBlocks - {r}, GetOr(requestBlocks[r], g, map[]);
      RestSize(requestBlocks, r);
      OwnedUnionSize(rest, g, each);
      OwnedUnionStep(requestBlocks, r, g);
      SizeOfSubset(OwnedUnion(requestBlocks, g), OwnedUnion(rest, g) + last.Keys);
      SizeOfUnion(OwnedUnion(rest, g), last.Keys);
      OneMoreTimes(|rest|, |requestBlocks|, each);
    }
  }

  lemma OneMoreTimes(n: nat, m: nat, k: nat)
    requires m == n + 1
    ensures m * k == n * k + k
  {
    Distribute(n, 1, k);
  }

  lemma NothingOwned(g: GroupId)
    ensures OwnedUnion(map[], g) == {}
  {
  }

  lemma RestSize<V>(m: map<Id, V>, r: Id)
    requires r in m
    ensures |m - {r}| == |m| - 1
  {
    assert (m - {r}).Keys == m.Keys - {r};
  }

  lemma OwnedUnionStep(requestBlocks: map<Id, map<GroupId, Blocks>>, r: Id, g: GroupId)
    requires r in requestBlocks
    ensures OwnedUnion(requestBlocks, g) <= OwnedUnion(requestBlocks - {r}, g) + GetOr(requestBlocks[r], g, map[]).Keys
  {
    forall b | b in OwnedUnion(requestBlocks, g) && b !in GetOr(requestBlocks[r], g, map[])
      ensures b in OwnedUnion(requestBlocks - {r}, g)
    {
      var q :| q in requestBlocks && b in GetOr(requestBlocks[q], g, map[]);
      InOwnedUnion(requestBlocks - {r}, q, g, b);
    }
  }

  lemma InOwnedUnion(requestBlocks: map<Id, map<GroupId, Blocks>>, r: Id, g: GroupId, b: nat)
    requires r in requestBlocks && b in GetOr(requestBlocks[r], g, map[])
    ensures b in OwnedUnion(requestBlocks, g)
  {
  }

  /** Without epochs, what must stay exact is the step tables and what requests keep. */
  lemma NeededBlocks(t: Tables, g: GroupId)
    requires NoEpochs(t)
    ensures BlockFills(t, g).Keys <= GetOr(t.stepBlocks, g, map[]).Keys + OwnedUnion(t.requestBlocks, g)
  {
    hide JoinOf, IsJoin;
    forall b | b in BlockFills(t, g)
      ensures b in GetOr(t.stepBlocks, g, map[]).Keys + OwnedUnion(t.requestBlocks, g)
    {
      var s := JoinOfKey(Sources(t, g), b);
      if s != GetOr(t.stepBlocks, g, map[]) {
        assert s in GroupSources(t.requestBlocks, g);
      }
    }
  }

  lemma NeededCount(configs: Configs, tables: BlockTables, t: Tables, requests: map<Id, Request>,
                    scheduled: seq<Schedule>, g: GroupId)
    requires ValidConfigs(configs) && g in configs && Progress(configs, tables, t, requests, scheduled, g)
    ensures |BlockFills(t, g)| <= Budget(configs[g].group, requests, scheduled)
                                  + |t.requestBlocks| * ResidentBlocks(configs[g])
  {
    hide BlockFills, ResidentBlocks, Budget, OwnedUnion, PoolInvariant;
    var resident := ResidentBlocks(configs[g]);
    var budget := Budget(configs[g].group, requests, scheduled);
    var owned := OwnedUnion(t.requestBlocks, g);
    var extra: set<nat> :| |extra| <= budget && StepWithin(t, g, Entered(requests, scheduled), extra);
    InvariantHasNoEpochs(configs, tables, t);
    NeededBlocks(t, g);
    forall b | b in BlockFills(t, g)
      ensures b in extra + owned
    {
      if b in t.stepBlocks[g] && b !in extra {
        var r :| r in Entered(requests, scheduled) && Keeps(t, r, g, b);
        KeptIsOwned(t, r, g, b);
      }
    }
    SizeOfSubset(BlockFills(t, g).Keys, extra + owned);
    SizeOfUnion(extra, owned);
    forall r | r in t.requestBlocks
      ensures |GetOr(t.requestBlocks[r], g, map[])| <= resident
    {
      OneOwnedSize(configs, tables, t, r, g);
    }
    OwnedUnionSize(t.requestBlocks, g, resident);
  }

  lemma InvariantHasNoEpochs(configs: Configs, tables: BlockTables, t: Tables)
    requires ValidConfigs(configs) && PoolInvariant(configs, tables, t)
    ensures NoEpochs(t)
  {
  }

  lemma KeptIsOwned(t: Tables, r: Id, g: GroupId, b: nat)
    requires Keeps(t, r, g, b)
    ensures b in OwnedUnion(t.requestBlocks, g)
  {
    InOwnedUnion(t.requestBlocks, r, g, b);
  }

  lemma NeededSize(configs: Configs, tables: BlockTables, t: Tables, requests: map<Id, Request>,
                   scheduled: seq<Schedule>, g: GroupId, maxSeqs: nat, maxTokens: nat)
    requires ValidConfigs(configs) && g in configs && DistinctRequests(scheduled)
    requires Progress(configs, tables, t, requests, scheduled, g)
    requires |t.requestBlocks| <= maxSeqs && TotalTokens(scheduled) <= maxTokens
    ensures |BlockFills(t, g)| + 8 <= PoolSlots(configs[g], maxSeqs, maxTokens, 0)
  {
    hide BlockFills, ResidentBlocks, Budget, CeilDiv, PoolInvariant, StepBounded, TotalTokens;
    NeededCount(configs, tables, t, requests, scheduled, g);
    MulMonotone(|t.requestBlocks|, maxSeqs, ResidentBlocks(configs[g]));
    BudgetBound(configs[g].group, requests, scheduled);
    CeilMonotone(TotalTokens(scheduled), maxTokens, configs[g].group);
    SizeOfSubset(Entered(requests, scheduled), t.requestBlocks.Keys);
  }

  lemma OneOwnedSize(configs: Configs, tables: BlockTables, t: Tables, r: Id, g: GroupId)
    requires ValidConfigs(configs) && g in configs && PoolInvariant(configs, tables, t) && r in t.requestBlocks
    ensures |GetOr(t.requestBlocks[r], g, map[])| <= ResidentBlocks(configs[g])
  {
    hide PhysicalRange, ResidentBlocks;
    assert RequestOk(configs, tables[r], t.requestBlocks[r], GetOr(t.requestFull, r, {}));
  }

  /** Limits respected by every step of a run, and by the number of owned requests after it. */
  ghost predicate RunWithinLimits(configs: Configs, events: seq<Event>, maxSeqs: nat, maxTokens: nat)
    requires ValidConfigs(configs)
  {
    forall k :: 0 <= k < |events| ==> StepWithinLimits(configs, events, k, maxSeqs, maxTokens)
  }

  ghost predicate StepWithinLimits(configs: Configs, events: seq<Event>, k: nat, maxSeqs: nat, maxTokens: nat)
    requires ValidConfigs(configs) && k < |events|
  {
    WithinLimits(Live(events[..k]), events[k], maxTokens) && |Run(configs, events[..k + 1]).requestBlocks| <= maxSeqs
  }

  lemma {:induction false} RunKeepsInvariant(configs: Configs, events: seq<Event>, maxSeqs: nat, maxTokens: nat,
                                             g: GroupId)
    requires ValidConfigs(configs) && g in configs
    requires RunWithinLimits(configs, events, maxSeqs, maxTokens)
    ensures PoolInvariant(configs, Live(events), Run(configs, events))
    ensures events != [] ==>
      var last := events[|events| - 1];
      last.Step? && Progress(configs, Live(events), Run(configs, events), last.requests, last.scheduled, g)
  {
    hide Apply, Progress, PoolInvariant, WithinLimits, LiveAfter;
    if events == [] {
      StartsOk(configs);
    } else {
      var front, last := events[..|events| - 1], events[|events| - 1];
      FrontWithinLimits(configs, events, maxSeqs, maxTokens);
      RunKeepsInvariant(configs, front, maxSeqs, maxTokens, g);
      StepProgress(configs, Live(front), Run(configs, front), last, maxTokens, g);
    }
  }

  lemma StartsOk(configs: Configs)
    requires ValidConfigs(configs)
    ensures PoolInvariant(configs, map[], NO_TABLES)
  {
  }

  lemma FrontWithinLimits(configs: Configs, events: seq<Event>, maxSeqs: nat, maxTokens: nat)
    requires ValidConfigs(configs) && events != []
    requires RunWithinLimits(configs, events, maxSeqs, maxTokens)
    ensures RunWithinLimits(configs, events[..|events| - 1], maxSeqs, maxTokens)
    ensures WithinLimits(Live(events[..|events| - 1]), events[|events| - 1], maxTokens)
    ensures |Run(configs, events).requestBlocks| <= maxSeqs
  {
    hide WithinLimits, Run, Live;
    var front := events[..|events| - 1];
    forall k | 0 <= k < |front|
      ensures StepWithinLimits(configs, front, k, maxSeqs, maxTokens)
    {
      assert StepWithinLimits(configs, events, k, maxSeqs, maxTokens);
      assert front[..k + 1] == events[..k + 1] && front[..k] == events[..k];
    }
    assert StepWithinLimits(configs, events, |events| - 1, maxSeqs, maxTokens);
    assert events[..|events|] == events;
  }

  /** One rollback-free update within the limits. */
  lemma StepProgress(configs: Configs, live: BlockTables, t: Tables, event: Event, maxTokens: nat, g: GroupId)
    requires ValidConfigs(configs) && g in configs && PoolInvariant(configs, live, t)
    requires WithinLimits(live, event, maxTokens)
    ensures event.Step? && PoolInvariant(configs, LiveAfter(live, event), Apply(configs, t, event))
    ensures Progress(configs, LiveAfter(live, event), Apply(configs, t, event), event.requests, event.scheduled, g)
  {
    hide BeginStep, ScheduleAll, StepBounded, PoolInvariant, PrefixOf, DistinctRequests, LiveAfter, TablesGrow, Entered;
    BeginWithoutEpochs(configs, live, t, event, g);
    forall s | s in event.scheduled && s.req in event.requests
      ensures s.req in LiveAfter(live, event) && PrefixOf(event.requests[s.req], LiveAfter(live, event)[s.req])
    {
      EnteredHas(event.requests, event.scheduled, s);
      LiveGrows(live, event, s.req);
      PrefixOfItself(event.requests[s.req]);
    }
    ProgressAll(configs, LiveAfter(live, event), BeginStep(configs, t, event.removed), event.requests,
                event.scheduled, event.rollback, event.epochs, g);
  }

  lemma PrefixOfItself(request: Request)
    ensures PrefixOf(request, request.blockIds)
  {
  }

  /** Without rollback the pool has eight slots more than `maxSeqs` requests may keep and `maxTokens` more tokens may
      reach. */
  lemma SlotsOfPool(cfg: GroupConfig, maxSeqs: nat, maxTokens: nat)
    requires cfg.Valid()
    ensures var kept := CeilDiv(cfg.boundary, cfg.group)
                        + (if cfg.tail > 0 then CeilDiv(cfg.tail + cfg.group - 1, cfg.group) else 1);
      PoolSlots(cfg, maxSeqs, maxTokens, 0) == maxSeqs * kept + (CeilDiv(maxTokens, cfg.group) + maxSeqs) + 8
  {
    hide CeilDiv;
  }

  /** Rounding up once for all requests costs at most one block per request. */
  lemma {:induction false} SharedRounding(n: nat, x: nat, g: nat)
    requires g > 0
    ensures n * CeilDiv(x, g) <= CeilDiv(n * x, g) + n
  {
    hide CeilDiv;
    if n > 0 {
      SharedRounding(n - 1, x, g);
      Distribute(n - 1, 1, x);
      Distribute(n - 1, 1, CeilDiv(x, g));
      CeilSum((n - 1) * x, x, g);
    }
  }

  /** With rollback there is room for as many requests with `maxRollback` tokens in doubt each. */
  lemma SlotsForDoubt(cfg: GroupConfig, maxSeqs: nat, maxTokens: nat, maxRollback: nat)
    requires cfg.Valid() && maxRollback > 0
    ensures PoolSlots(cfg, maxSeqs, maxTokens, maxRollback)
         >= PoolSlots(cfg, maxSeqs, maxTokens, 0) + maxSeqs * CeilDiv(maxRollback, cfg.group)
  {
    hide CeilDiv, ResidentBlocks;
    SharedRounding(maxSeqs, maxRollback, cfg.group);
  }

  /** The pool never exhausts: over every run within the limits, the needed blocks of a group fit
      the configured pool with eight slots to spare. */
  lemma PoolNeverExhausts(configs: Configs, events: seq<Event>, maxSeqs: nat, maxTokens: nat, g: GroupId)
    requires ValidConfigs(configs) && g in configs && events != []
    requires RunWithinLimits(configs, events, maxSeqs, maxTokens)
    ensures |BlockFills(Run(configs, events), g)| + 8 <= PoolSlots(configs[g], maxSeqs, maxTokens, 0)
  {
    hide Progress, PoolInvariant, RunWithinLimits, PoolSlots, Run, Live;
    RunKeepsInvariant(configs, events, maxSeqs, maxTokens, g);
    FrontWithinLimits(configs, events, maxSeqs, maxTokens);
    var last := events[|events| - 1];
    NeededSize(configs, Live(events), Run(configs, events), last.requests, last.scheduled, g, maxSeqs, maxTokens);
  }
}
