/** Which tokens stay exact.

    The purpose of the tracker, stated on token positions: the first `boundary` tokens of a request,
    its last `tail` tokens, and everything a step may write lie in blocks that must stay exact; and
    no fill claims a token that might still be rolled back. */
module ExactWindow {
  import opened Sharding
  import opened FillMaps
  import opened Ownership
  import opened BlockRanges
  import opened EpochSafety
  import opened PoolBound
  import opened AsyncRefinement
  import opened SpeculativeRuns
  import opened Separation
  import opened SettledFills
  import opened SpeculativeRetirement

  /** Position `p` belongs to the boundary, or to the tail of a request that ends at `end`, or lies behind it. */
  predicate BelongsTo(cfg: GroupConfig, end: nat, p: nat) {
    p < cfg.boundary || end <= p + cfg.tail
  }

  /** This rank holds position `p`, and a request known to end between `lo` and `hi` needs it exact: it
      belongs to the boundary, to the tail of the least end, or to what may lie behind that end. */
  predicate MustBeExact(cfg: GroupConfig, lo: nat, hi: nat, p: nat)
    requires cfg.Valid()
  {
    p < hi && Owner(p, cfg.world, cfg.interleave) == cfg.rank && BelongsTo(cfg, lo, p)
  }

  /** The in-place path is for requests all of whose positions belong to the boundary or the tail. */
  lemma FullContextIsWholeContext(cfg: GroupConfig, n: nat)
    ensures FullContext(cfg, n) <==> forall p: nat :: p < n ==> BelongsTo(cfg, n, p)
  {
    if cfg.boundary < n && (forall p: nat :: p < n ==> BelongsTo(cfg, n, p)) {
      assert BelongsTo(cfg, n, cfg.boundary);
    }
  }

  /** The local block of a position. */
  function BlockOf(cfg: GroupConfig, p: nat): nat
    requires cfg.Valid()
  {
    LocalIndex(p, cfg.world, cfg.interleave) / cfg.group
  }

  /** The physical block of position `p` is among `blocks`. */
  predicate Holding(cfg: GroupConfig, ids: seq<nat>, p: nat, blocks: Blocks)
    requires cfg.Valid()
  {
    InTable(ids, BlockOf(cfg, p), cfg.perManager) && PhysicalBlock(ids, BlockOf(cfg, p), cfg.perManager) in blocks
  }

  lemma PositionInTable(cfg: GroupConfig, ids: seq<nat>, hi: nat, p: nat)
    requires cfg.Valid() && p < hi && Owner(p, cfg.world, cfg.interleave) == cfg.rank && Holds(cfg, ids, hi)
    ensures BlockOf(cfg, p) < NumLogical(cfg, ids, cfg.Local(hi)) && InTable(ids, BlockOf(cfg, p), cfg.perManager)
  {
    hide LocalNumTokens, Owner, LocalIndex, CeilDiv;
    LocalBelowCount(p, hi, cfg.world, cfg.interleave);
    var j, n := LocalIndex(p, cfg.world, cfg.interleave), cfg.Local(hi);
    LastBlock(n, cfg.group);
    FloorMonotone(j, n - 1, cfg.group);
  }

  /** The three reasons to keep a block, from the position's side. */
  lemma PositionOwned(cfg: GroupConfig, ids: seq<nat>, lo: nat, hi: nat, p: nat)
    requires cfg.Valid() && MustBeExact(cfg, lo, hi, p) && Holds(cfg, ids, hi)
    ensures Owns(cfg, ids, SpanOf(cfg, Window(lo, lo, hi)), BlockOf(cfg, p))
  {
    hide LocalNumTokens, Owner, LocalIndex, CeilDiv, Holds;
    PositionInTable(cfg, ids, hi, p);
    var j := LocalIndex(p, cfg.world, cfg.interleave);
    if p < cfg.boundary {
      LocalAtMost(p, cfg.world, cfg.interleave);
      LastBlock(cfg.boundary, cfg.group);
      FloorMonotone(j, cfg.boundary - 1, cfg.group);
    } else if cfg.tail > 0 {
      var start := Max(lo - cfg.tail, 0);
      LocalBelowCount(p, start, cfg.world, cfg.interleave);
      FloorMonotone(cfg.Local(start), j, cfg.group);
    } else {
      LocalBelowCount(p, lo, cfg.world, cfg.interleave);
      CurrentIsReached(cfg, cfg.Local(lo), j);
    }
  }

  lemma LocalAtMost(p: nat, w: nat, i: nat)
    requires w > 0 && i > 0
    ensures LocalIndex(p, w, i) <= p
  {
    hide LocalNumTokens, Owner, LocalIndex;
    LocalIndexIsCount(p, w, i);
    CountAtMost(p, w, Owner(p, w, i), i);
  }

  lemma CurrentIsReached(cfg: GroupConfig, e: nat, j: nat)
    requires cfg.Valid() && e <= j
    ensures FirstCurrent(cfg, e) <= j / cfg.group
  {
    hide CeilDiv;
    if e == 0 {
      CeilBounds(0, cfg.group);
    } else {
      LastBlock(e, cfg.group);
      FloorMonotone(e - 1, j, cfg.group);
    }
  }

  lemma WideHolds(cfg: GroupConfig, ids: seq<nat>, lo: nat, hi: nat, p: nat)
    requires cfg.Valid() && Distinct(ids) && MustBeExact(cfg, lo, hi, p) && Holds(cfg, ids, hi)
    ensures Holding(cfg, ids, p, WideBlocks(cfg, ids, lo, hi))
  {
    hide LocalNumTokens, Owner, LocalIndex, CeilDiv, Owns, PhysicalBlock, SpanBlocks, FillAt, MustBeExact;
    assert p < hi && Owner(p, cfg.world, cfg.interleave) == cfg.rank by { MustBeLocal(cfg, lo, hi, p); }
    PositionInTable(cfg, ids, hi, p);
    PositionOwned(cfg, ids, lo, hi, p);
    SpanBlocksAt(cfg, ids, SpanOf(cfg, Window(lo, lo, hi)), BlockOf(cfg, p));
  }

  lemma MustBeLocal(cfg: GroupConfig, lo: nat, hi: nat, p: nat)
    requires cfg.Valid() && MustBeExact(cfg, lo, hi, p)
    ensures p < hi && Owner(p, cfg.world, cfg.interleave) == cfg.rank
  {
  }

  /** Over whole runs: whatever a followed request speculated, settled or dropped, every position that must
      be exact lies in a block that the slot manager is told to keep. */
  lemma WindowStaysExact(configs: Configs, r: Id, mine: iset<Id>, events: seq<Event>, follows: seq<Follow>, k: Track,
                         g: GroupId, p: nat)
    requires ValidConfigs(configs) && Followed(configs, r, mine, events, follows)
    requires follows[|events|] == Tracked(k) && InTables(configs, k.ids, g)
    requires MustBeExact(configs[g], k.lo, k.hi, p)
    ensures Holding(configs[g], k.ids[g], p, BlockFills(Run(configs, events), g))
  {
    hide Run, ViewOf, WideBlocks, FullWithin, PendingOfTrack, InNoDoubt, Epochs, Followed, Holds, Distinct;
    hide MustBeExact, PhysicalBlock, BlockOf, BlockFills;
    RunAgrees(configs, r, mine, events, follows);
    WideHolds(configs[g], k.ids[g], k.lo, k.hi, p);
    NeededByRequest(Run(configs, events), r, g, PhysicalBlock(k.ids[g], BlockOf(configs[g], p), configs[g].perManager));
  }

  /** One scheduler step in which request `r` is computed up to `start`, scheduled for `tokens` more, and
      may lose up to `rollback` of its tokens. */
  ghost predicate LastStep(events: seq<Event>, r: Id, start: nat, tokens: nat, rollback: nat, ids: seq<seq<nat>>) {
    events != [] &&
    var last := events[|events| - 1];
    && last.Step? && r in last.requests && Schedule(r, tokens) in last.scheduled
    && last.requests[r] == Request(ids, start) && GetOr(last.rollback, r, 0) == rollback
  }

  /** What the summary of a request says after a step: its tables and the bounds of its end. */
  lemma StepBounds(configs: Configs, r: Id, mine: iset<Id>, events: seq<Event>, follows: seq<Follow>, k: Track,
                   start: nat, tokens: nat, rollback: nat, ids: seq<seq<nat>>)
    requires ValidConfigs(configs) && Followed(configs, r, mine, events, follows)
    requires follows[|events|] == Tracked(k) && LastStep(events, r, start, tokens, rollback, ids)
    ensures k.ids == ids && k.hi == start + tokens
    ensures k.lo == (if rollback <= start then start - rollback else 0) + tokens
  {
    hide Run, MayEnter, StaysSure, LatestOf;
    var n := |events| - 1;
    var last := events[n];
    assert FollowedAt(configs, r, mine, events, follows, n);
    var s :| s in last.scheduled && s == Schedule(r, tokens);
    var j :| 0 <= j < |last.scheduled| && last.scheduled[j] == s;
    assert last.scheduled[j].req == r;
    assert IsScheduled(r, last.requests, last.scheduled);
  }

  /** After a step: the boundary, the tail before the least end the request may be rolled back to, and
      everything up to the greatest end it may reach. */
  lemma StepKeepsWindow(configs: Configs, r: Id, mine: iset<Id>, events: seq<Event>, follows: seq<Follow>,
                        start: nat, tokens: nat, rollback: nat, ids: seq<seq<nat>>, g: GroupId, p: nat)
    requires ValidConfigs(configs) && Followed(configs, r, mine, events, follows) && follows[|events|].Tracked?
    requires LastStep(events, r, start, tokens, rollback, ids) && InTables(configs, ids, g)
    requires p < start + tokens && Owner(p, configs[g].world, configs[g].interleave) == configs[g].rank
    requires var least := (if rollback <= start then start - rollback else 0) + tokens;
      p < configs[g].boundary || least <= p + configs[g].tail
    ensures Holding(configs[g], ids[g], p, BlockFills(Run(configs, events), g))
  {
    hide Run, LastStep, FollowedAt, Holding, BlockFills;
    var k := follows[|events|].track;
    StepBounds(configs, r, mine, events, follows, k, start, tokens, rollback, ids);
    WindowStaysExact(configs, r, mine, events, follows, k, g, p);
  }

  /** No fill of a kept block claims a token behind the least end. */
  lemma FillsAreCertain(configs: Configs, r: Id, mine: iset<Id>, events: seq<Event>, follows: seq<Follow>,
                        start: nat, tokens: nat, rollback: nat, ids: seq<seq<nat>>, g: GroupId, l: nat, n: nat)
    requires ValidConfigs(configs) && Followed(configs, r, mine, events, follows) && follows[|events|].Tracked?
    requires LastStep(events, r, start, tokens, rollback, ids) && InTables(configs, ids, g)
    requires InTable(ids[g], l, configs[g].perManager) && r in Run(configs, events).requestBlocks
    requires var kept := GetOr(Run(configs, events).requestBlocks[r], g, map[]);
      var b := PhysicalBlock(ids[g], l, configs[g].perManager);
      b in kept && kept[b] == Known(n)
    ensures var least := (if rollback <= start then start - rollback else 0) + tokens;
      0 < n <= configs[g].group && l * configs[g].group + n <= configs[g].Local(least)
  {
    hide Run, FullWithin, PendingOfTrack, InNoDoubt, Epochs, FollowedAt, Holds, Distinct, LastStep, LocalNumTokens;
    hide PhysicalBlock, SpanBlocks, Owns;
    var k := follows[|events|].track;
    StepBounds(configs, r, mine, events, follows, k, start, tokens, rollback, ids);
    RunAgrees(configs, r, mine, events, follows);
    SpanBlocksAt(configs[g], ids[g], SpanOf(configs[g], Window(k.lo, k.lo, k.hi)), l);
  }

  /** The fill of block `b`, if known, claims no token of local block `l` behind `end`. */
  predicate Claims(cfg: GroupConfig, blocks: Blocks, b: nat, l: nat, end: nat)
    requires cfg.Valid()
  {
    b in blocks && blocks[b].Known? ==>
      0 < blocks[b].tokens <= cfg.group && l * cfg.group + blocks[b].tokens <= cfg.Local(end)
  }

  lemma TouchClaims(configs: Configs, request: Request, w: Window, step: map<GroupId, Blocks>, g: GroupId, l: nat)
    requires ValidConfigs(configs) && g in configs && g < |request.blockIds| && g in step
    requires Distinct(request.blockIds[g]) && InTable(request.blockIds[g], l, configs[g].perManager)
    requires PhysicalBlock(request.blockIds[g], l, configs[g].perManager) !in step[g]
    ensures Claims(configs[g], ScheduledStep(configs, request, w, step)[g],
                   PhysicalBlock(request.blockIds[g], l, configs[g].perManager), l, w.minEnd)
  {
    hide LocalNumTokens, NumLogical, MergeRange, PhysicalBlock, Distinct, TouchedFrom, TouchedTo;
    var cfg, ids, s := configs[g], request.blockIds[g], SpanOf(configs[g], w);
    if Active(configs, request, w, g) && Touches(s) {
      MergeAt(cfg, ids, s.minEnd, TouchedFrom(cfg, s), TouchedTo(cfg, ids, s), step[g], l);
    }
  }

  lemma KeptClaims(configs: Configs, request: Request, w: Window, previous: map<GroupId, Blocks>, full: set<GroupId>,
                   g: GroupId, l: nat)
    requires ValidConfigs(configs) && g in configs && g < |request.blockIds|
    requires Distinct(request.blockIds[g]) && InTable(request.blockIds[g], l, configs[g].perManager)
    ensures var groups := ScheduledGroups(configs, request, w, previous, full);
      g in groups && g !in ScheduledFull(configs, request, w) ==>
        Claims(configs[g], groups[g], PhysicalBlock(request.blockIds[g], l, configs[g].perManager), l, w.minEnd)
  {
    hide LocalNumTokens, NumLogical, SpanBlocks, FastBlocks, PhysicalBlock, Distinct, Owns;
    SpanBlocksAt(configs[g], request.blockIds[g], SpanOf(configs[g], w), l);
  }

  lemma RetainedClaims(cfg: GroupConfig, groups: map<GroupId, Blocks>, full: set<GroupId>,
                       pending: map<GroupId, map<nat, nat>>, step: map<GroupId, Blocks>, g: GroupId, b: nat, l: nat,
                       end: nat)
    requires cfg.Valid() && g in step && Claims(cfg, step[g], b, l, end)
    requires g in groups && g !in full ==> Claims(cfg, groups[g], b, l, end)
    ensures Claims(cfg, GetOr(RetainedBlocks(groups, full, pending, step), g, map[]), b, l, end)
  {
    hide LocalNumTokens;
  }

  /** Entering a request claims only certain tokens of a block that was not needed in this step before: neither the
      step table nor the epoch it opens counts a token that might still be rolled back. */
  lemma EnteringClaims(configs: Configs, t: Tables, req: Id, epoch: Id, request: Request, tokens: nat, rollback: nat,
                       g: GroupId, l: nat)
    requires ValidConfigs(configs) && g in configs && g < |request.blockIds| && g in t.stepBlocks
    requires Distinct(request.blockIds[g]) && InTable(request.blockIds[g], l, configs[g].perManager)
    requires PhysicalBlock(request.blockIds[g], l, configs[g].perManager) !in t.stepBlocks[g]
    requires epoch !in t.epochBlocks
    ensures var u := Enter(configs, t, req, epoch, request, tokens, rollback);
      var b := PhysicalBlock(request.blockIds[g], l, configs[g].perManager);
      var least := (if rollback <= request.computed then request.computed - rollback else 0) + tokens;
      && g in u.stepBlocks && Claims(configs[g], u.stepBlocks[g], b, l, least)
      && Claims(configs[g], GetOr(GetOr(u.epochBlocks, epoch, map[]), g, map[]), b, l, least)
  {
    hide ScheduledGroups, ScheduledFull, ScheduledStep, ScheduledPending, RetainedBlocks, Claims, PhysicalBlock;
    hide Distinct;
    var cfg, w := configs[g], WindowOf(request.computed, tokens, rollback);
    var b := PhysicalBlock(request.blockIds[g], l, cfg.perManager);
    var previous, full := GetOr(t.requestBlocks, req, map[]), GetOr(t.requestFull, req, {});
    TouchClaims(configs, request, w, t.stepBlocks, g, l);
    KeptClaims(configs, request, w, previous, full, g, l);
    ScheduledStepKeys(configs, request, w, t.stepBlocks);
    NoClaims(cfg, b, l, w.minEnd);
    RetainedClaims(cfg, ScheduledGroups(configs, request, w, previous, full), ScheduledFull(configs, request, w),
                   ScheduledPending(configs, request, w), ScheduledStep(configs, request, w, t.stepBlocks), g, b, l,
                   w.minEnd);
  }

  lemma NoClaims(cfg: GroupConfig, b: nat, l: nat, end: nat)
    requires cfg.Valid()
    ensures Claims(cfg, map[], b, l, end)
  {
  }

  // ---- what a step may write ----

  lemma StepKeepsKey(configs: Configs, request: Request, w: Window, step: map<GroupId, Blocks>, g: GroupId, b: nat)
    requires ValidConfigs(configs) && g in step && b in step[g]
    ensures g in ScheduledStep(configs, request, w, step) && b in ScheduledStep(configs, request, w, step)[g]
  {
    hide LocalNumTokens, NumLogical, MergeRange, PhysicalRange;
    if Active(configs, request, w, g) && Touches(SpanOf(configs[g], w)) {
      var cfg, ids, s := configs[g], request.blockIds[g], SpanOf(configs[g], w);
      MergeKeys(cfg, ids, s.minEnd, TouchedFrom(cfg, s), TouchedTo(cfg, ids, s), step[g]);
    }
  }

  lemma TurnKeepsKey(configs: Configs, t: Tables, requests: map<Id, Request>, s: Schedule, rollback: map<Id, nat>,
                     epochs: map<Id, Id>, g: GroupId, b: nat)
    requires ValidConfigs(configs) && g in t.stepBlocks && b in t.stepBlocks[g]
    ensures var u := ScheduleOne(configs, t, requests, s, rollback, epochs);
      g in u.stepBlocks && b in u.stepBlocks[g]
  {
    hide Enter, Resolve, ScheduledStep, ScheduledPending, ScheduledFull, RetainedBlocks, ScheduleOne, EpochName;
    hide MergeMaps;
    if s.req in requests {
      var q, request, epoch, back := s.req, requests[s.req], EpochName(epochs, s.req), GetOr(rollback, s.req, 0);
      var cleared := Cleared(configs, t, epoch, request);
      ScheduleOneIs(configs, t, requests, s, rollback, epochs);
      ResolveFields(configs, t, epoch, request, request.computed);
      MergeKeepsKey(Resolve(configs, t, epoch, request, request.computed), epoch, g, b);
      EnterFields(configs, cleared, q, epoch, request, s.tokens, back);
      StepKeepsKey(configs, request, WindowOf(request.computed, s.tokens, back), cleared.stepBlocks, g, b);
    } else {
      UnknownRequest(configs, t, requests, s, rollback, epochs);
    }
  }

  lemma MergeKeepsKey(t: Tables, epoch: Id, g: GroupId, b: nat)
    requires g in t.stepBlocks && b in t.stepBlocks[g]
    ensures var u := ConsumeResolved(t, epoch); g in u.stepBlocks && b in u.stepBlocks[g]
  {
  }

  /** The turn of the request that writes position `p`. */
  lemma TurnWrites(configs: Configs, t: Tables, requests: map<Id, Request>, s: Schedule, rollback: map<Id, nat>,
                   epochs: map<Id, Id>, g: GroupId, p: nat)
    requires ValidConfigs(configs) && s.req in requests && g in t.stepBlocks
    requires Written(configs, requests[s.req], s.tokens, GetOr(rollback, s.req, 0), g, p)
    ensures var u := ScheduleOne(configs, t, requests, s, rollback, epochs);
      g in u.stepBlocks && Holding(configs[g], requests[s.req].blockIds[g], p, u.stepBlocks[g])
  {
    hide Enter, Resolve, ScheduledStep, ScheduledPending, ScheduledFull, RetainedBlocks, ScheduleOne, EpochName;
    hide MergeGroups;
    hide BlockOf, PhysicalBlock, Written;
    var q, request, epoch, back := s.req, requests[s.req], EpochName(epochs, s.req), GetOr(rollback, s.req, 0);
    var cleared := Cleared(configs, t, epoch, request);
    ScheduleOneIs(configs, t, requests, s, rollback, epochs);
    ResolveFields(configs, t, epoch, request, request.computed);
    EnterFields(configs, cleared, q, epoch, request, s.tokens, back);
    ClearedSteps(configs, t, epoch, request, g);
    WrittenIsTouched(configs, request, s.tokens, back, cleared.stepBlocks, g, p);
  }

  lemma ClearedSteps(configs: Configs, t: Tables, epoch: Id, request: Request, g: GroupId)
    requires ValidConfigs(configs) && g in t.stepBlocks
    ensures g in Cleared(configs, t, epoch, request).stepBlocks
  {
    hide Resolve, ResolvedPending, MergeMaps;
    ResolveFields(configs, t, epoch, request, request.computed);
  }

  /** A request computed up to `start` and scheduled for `tokens` more, of which the last `rollback` computed ones
      are in doubt, writes position `p` on this rank. */
  predicate Written(configs: Configs, request: Request, tokens: nat, rollback: nat, g: GroupId, p: nat)
    requires ValidConfigs(configs)
  {
    && g in configs && g < |request.blockIds| && Holds(configs[g], request.blockIds[g], request.computed + tokens)
    && Owner(p, configs[g].world, configs[g].interleave) == configs[g].rank
    && request.computed <= p + rollback && p < request.computed + tokens
  }

  lemma WrittenIsTouched(configs: Configs, request: Request, tokens: nat, rollback: nat, step: map<GroupId, Blocks>,
                         g: GroupId, p: nat)
    requires ValidConfigs(configs) && g in step && Written(configs, request, tokens, rollback, g, p)
    ensures var u := ScheduledStep(configs, request, WindowOf(request.computed, tokens, rollback), step);
      g in u && Holding(configs[g], request.blockIds[g], p, u[g])
  {
    hide LocalNumTokens, Owner, LocalIndex, NumLogical, MergeRange, PhysicalRange, PhysicalBlock, TouchedFrom;
    hide TouchedTo;
    hide CeilDiv;
    var cfg, ids, w := configs[g], request.blockIds[g], WindowOf(request.computed, tokens, rollback);
    var s, l, j := SpanOf(cfg, w), BlockOf(cfg, p), LocalIndex(p, cfg.world, cfg.interleave);
    LocalBelowCount(p, w.minStart, cfg.world, cfg.interleave);
    LocalBelowCount(p, w.maxEnd, cfg.world, cfg.interleave);
    FloorBounds(j, cfg.group);
    Distribute(l, 1, cfg.group);
    TouchedRange(cfg, ids, w, l);
    assert Active(configs, request, w, g);
    MergeKeys(cfg, ids, s.minEnd, TouchedFrom(cfg, s), TouchedTo(cfg, ids, s), step[g]);
    InRange(ids, cfg.perManager, TouchedFrom(cfg, s), TouchedTo(cfg, ids, s), l);
  }

  lemma {:induction false} AllTurnsWrite(configs: Configs, t: Tables, requests: map<Id, Request>,
                                         scheduled: seq<Schedule>, rollback: map<Id, nat>, epochs: map<Id, Id>,
                                         s: Schedule, g: GroupId, p: nat)
    requires ValidConfigs(configs) && t.stepBlocks.Keys == configs.Keys && s in scheduled && s.req in requests
    requires Written(configs, requests[s.req], s.tokens, GetOr(rollback, s.req, 0), g, p)
    ensures var u := ScheduleAll(configs, t, requests, scheduled, rollback, epochs);
      g in u.stepBlocks && Holding(configs[g], requests[s.req].blockIds[g], p, u.stepBlocks[g])
  {
    hide ScheduleOne, BlockOf, PhysicalBlock, Written, Holds;
    var front, last := scheduled[..|scheduled| - 1], scheduled[|scheduled| - 1];
    var before := ScheduleAll(configs, t, requests, front, rollback, epochs);
    WrittenGroup(configs, requests[s.req], s.tokens, GetOr(rollback, s.req, 0), g, p);
    if s == last {
      AllTurnsKeys(configs, t, requests, front, rollback, epochs);
      TurnWrites(configs, before, requests, last, rollback, epochs, g, p);
    } else {
      AllTurnsWrite(configs, t, requests, front, rollback, epochs, s, g, p);
      TurnKeepsKey(configs, before, requests, last, rollback, epochs, g,
                   PhysicalBlock(requests[s.req].blockIds[g], BlockOf(configs[g], p), configs[g].perManager));
    }
  }

  lemma WrittenGroup(configs: Configs, request: Request, tokens: nat, rollback: nat, g: GroupId, p: nat)
    requires ValidConfigs(configs) && Written(configs, request, tokens, rollback, g, p)
    ensures g in configs && g < |request.blockIds|
    ensures Owner(p, configs[g].world, configs[g].interleave) == configs[g].rank
  {
  }

  lemma {:induction false} AllTurnsKeys(configs: Configs, t: Tables, requests: map<Id, Request>,
                                        scheduled: seq<Schedule>, rollback: map<Id, nat>, epochs: map<Id, Id>)
    requires ValidConfigs(configs)
    ensures ScheduleAll(configs, t, requests, scheduled, rollback, epochs).stepBlocks.Keys == t.stepBlocks.Keys
  {
    hide ScheduleOne;
    if scheduled != [] {
      var front, s := scheduled[..|scheduled| - 1], scheduled[|scheduled| - 1];
      AllTurnsKeys(configs, t, requests, front, rollback, epochs);
      TurnKeys(configs, ScheduleAll(configs, t, requests, front, rollback, epochs), requests, s, rollback, epochs);
    }
  }

  lemma TurnKeys(configs: Configs, t: Tables, requests: map<Id, Request>, s: Schedule, rollback: map<Id, nat>,
                 epochs: map<Id, Id>)
    requires ValidConfigs(configs)
    ensures ScheduleOne(configs, t, requests, s, rollback, epochs).stepBlocks.Keys == t.stepBlocks.Keys
  {
    hide Enter, Resolve, ScheduledPending, ScheduledFull, RetainedBlocks, ScheduleOne, EpochName, MergeMaps;
    hide MergeTouched;
    hide Active;
    if s.req in requests {
      var q, request, epoch := s.req, requests[s.req], EpochName(epochs, s.req);
      ScheduleOneIs(configs, t, requests, s, rollback, epochs);
      ResolveFields(configs, t, epoch, request, request.computed);
      EnterFields(configs, Cleared(configs, t, epoch, request), q, epoch, request, s.tokens, GetOr(rollback, q, 0));
    } else {
      UnknownRequest(configs, t, requests, s, rollback, epochs);
    }
  }

  /** Every position a step may write, from the first token in doubt to the last one scheduled, lies in a block
      that is needed after the step, whatever the tables held before and whoever else is scheduled. */
  lemma WritesAreNeeded(configs: Configs, t: Tables, event: Event, s: Schedule, g: GroupId, p: nat)
    requires ValidConfigs(configs) && event.Step? && s in event.scheduled && s.req in event.requests
    requires Written(configs, event.requests[s.req], s.tokens, GetOr(event.rollback, s.req, 0), g, p)
    ensures g in configs && g < |event.requests[s.req].blockIds|
    ensures Holding(configs[g], event.requests[s.req].blockIds[g], p, BlockFills(Apply(configs, t, event), g))
  {
    hide BeginStep, ScheduleAll, BlockOf, PhysicalBlock, Written, Holds, JoinOf, IsJoin;
    WrittenGroup(configs, event.requests[s.req], s.tokens, GetOr(event.rollback, s.req, 0), g, p);
    BeginStepKeys(configs, t, event.removed);
    AllTurnsWrite(configs, BeginStep(configs, t, event.removed), event.requests, event.scheduled, event.rollback,
                  event.epochs, s, g, p);
    var u := Apply(configs, t, event);
    JoinHolds(Sources(u, g), u.stepBlocks[g],
              PhysicalBlock(event.requests[s.req].blockIds[g], BlockOf(configs[g], p), configs[g].perManager));
  }

  // ---- what a speculative step records ----

  /** The open epoch `e` knows that it may have written position `p`, under the number of its local block. */
  predicate Recorded(t: Tables, e: Id, cfg: GroupConfig, ids: seq<nat>, g: GroupId, p: nat)
    requires cfg.Valid()
  {
    && e in t.pending && g in t.pending[e] && InTable(ids, BlockOf(cfg, p), cfg.perManager)
    && PhysicalBlock(ids, BlockOf(cfg, p), cfg.perManager) in t.pending[e][g]
    && t.pending[e][g][PhysicalBlock(ids, BlockOf(cfg, p), cfg.perManager)] == BlockOf(cfg, p)
  }

  lemma {:induction false} LogicalAt(ids: seq<nat>, m: nat, lo: nat, hi: nat, l: nat)
    requires m > 0 && Distinct(ids) && lo <= l < hi <= |ids| * m
    ensures var blocks := LogicalRange(ids, m, lo, hi);
      PhysicalBlock(ids, l, m) in blocks && blocks[PhysicalBlock(ids, l, m)] == l
  {
    hide PhysicalBlock, Distinct;
    if l < hi - 1 {
      LogicalAt(ids, m, lo, hi - 1, l);
      PhysicalInjective(ids, m, hi - 1, l);
    }
  }

  lemma WrittenIsPending(configs: Configs, request: Request, tokens: nat, rollback: nat, g: GroupId, p: nat)
    requires ValidConfigs(configs) && Written(configs, request, tokens, rollback, g, p) && Distinct(request.blockIds[g])
    ensures var l, pending := BlockOf(configs[g], p),
      ScheduledPending(configs, request, WindowOf(request.computed, tokens, rollback));
      && g in pending && InTable(request.blockIds[g], l, configs[g].perManager)
      && PhysicalBlock(request.blockIds[g], l, configs[g].perManager) in pending[g]
      && pending[g][PhysicalBlock(request.blockIds[g], l, configs[g].perManager)] == l
  {
    hide LocalNumTokens, Owner, LocalIndex, NumLogical, PhysicalBlock, TouchedFrom, TouchedTo, CeilDiv, LogicalRange;
    hide Distinct;
    var cfg, ids, w := configs[g], request.blockIds[g], WindowOf(request.computed, tokens, rollback);
    var s, l, j := SpanOf(cfg, w), BlockOf(cfg, p), LocalIndex(p, cfg.world, cfg.interleave);
    LocalBelowCount(p, w.minStart, cfg.world, cfg.interleave);
    LocalBelowCount(p, w.maxEnd, cfg.world, cfg.interleave);
    FloorBounds(j, cfg.group);
    Distribute(l, 1, cfg.group);
    TouchedRange(cfg, ids, w, l);
    assert Active(configs, request, w, g);
    LogicalAt(ids, cfg.perManager, TouchedFrom(cfg, s), TouchedTo(cfg, ids, s), l);
  }

  lemma TurnRecords(configs: Configs, t: Tables, requests: map<Id, Request>, s: Schedule, rollback: map<Id, nat>,
                    epochs: map<Id, Id>, g: GroupId, p: nat)
    requires ValidConfigs(configs) && s.req in requests && GetOr(rollback, s.req, 0) > 0
    requires Written(configs, requests[s.req], s.tokens, GetOr(rollback, s.req, 0), g, p)
    requires Distinct(requests[s.req].blockIds[g])
    ensures Recorded(ScheduleOne(configs, t, requests, s, rollback, epochs), EpochName(epochs, s.req), configs[g],
                     requests[s.req].blockIds[g], g, p)
  {
    hide Enter, Cleared, ScheduledStep, ScheduledPending, ScheduledFull, RetainedBlocks, ScheduleOne, EpochName;
    hide BlockOf, PhysicalBlock, Written, Distinct;
    var q, request, epoch, back := s.req, requests[s.req], EpochName(epochs, s.req), GetOr(rollback, s.req, 0);
    ScheduleOneIs(configs, t, requests, s, rollback, epochs);
    EnterFields(configs, Cleared(configs, t, epoch, request), q, epoch, request, s.tokens, back);
    WrittenIsPending(configs, request, s.tokens, back, g, p);
  }

  /** The call is a step in which the request is scheduled as `s` says, some of its tokens in doubt, under an epoch
      name that no other request of the step uses. */
  ghost predicate Speculates(event: Event, s: Schedule, e: Id) {
    && event.Step? && DistinctRequests(event.scheduled) && s in event.scheduled && s.req in event.requests
    && GetOr(event.rollback, s.req, 0) > 0 && EpochName(event.epochs, s.req) == e
    && forall x :: x in event.scheduled && x.req in event.requests && x.req != s.req ==>
         EpochName(event.epochs, x.req) != e
  }

  /** A speculative step records every position it may write in its epoch. */
  lemma WritesAreRecorded(configs: Configs, t: Tables, event: Event, s: Schedule, e: Id, g: GroupId, p: nat)
    requires ValidConfigs(configs) && Speculates(event, s, e)
    requires Written(configs, event.requests[s.req], s.tokens, GetOr(event.rollback, s.req, 0), g, p)
    requires Distinct(event.requests[s.req].blockIds[g])
    ensures Recorded(Apply(configs, t, event), e, configs[g], event.requests[s.req].blockIds[g], g, p)
  {
    hide BeginStep, ScheduleAll, ScheduleOne, EpochName, Written, Distinct, Recorded;
    var requests, scheduled := event.requests, event.scheduled;
    WrittenGroup(configs, requests[s.req], s.tokens, GetOr(event.rollback, s.req, 0), g, p);
    var j :| 0 <= j < |scheduled| && scheduled[j] == s;
    var pre, post := scheduled[..j], scheduled[j + 1..];
    assert scheduled == (pre + [s]) + post;
    var begun := BeginStep(configs, t, event.removed);
    var t1 := ScheduleAll(configs, begun, requests, pre, event.rollback, event.epochs);
    OneMoreScheduled(configs, begun, requests, pre, s, event.rollback, event.epochs);
    ScheduleParts(configs, begun, requests, pre + [s], post, event.rollback, event.epochs);
    TurnRecords(configs, t1, requests, s, event.rollback, event.epochs, g, p);
    OthersLeaveName(event, s, e, j);
    LaterTurnsKeep(configs, ScheduleOne(configs, t1, requests, s, event.rollback, event.epochs), requests, post,
                   event.rollback, event.epochs, e, configs[g], requests[s.req].blockIds[g], g, p);
  }

  lemma OthersLeaveName(event: Event, s: Schedule, e: Id, j: nat)
    requires Speculates(event, s, e) && j < |event.scheduled| && event.scheduled[j] == s
    ensures forall x :: x in event.scheduled[j + 1..] && x.req in event.requests ==> EpochName(event.epochs, x.req) != e
  {
    hide EpochName;
    var post := event.scheduled[j + 1..];
    forall x | x in post && x.req in event.requests
      ensures EpochName(event.epochs, x.req) != e
    {
      var i :| 0 <= i < |post| && post[i] == x;
      assert event.scheduled[j + 1 + i] == x;
    }
  }

  lemma LaterTurnsKeep(configs: Configs, t: Tables, requests: map<Id, Request>, scheduled: seq<Schedule>,
                       rollback: map<Id, nat>, epochs: map<Id, Id>, e: Id, cfg: GroupConfig, ids: seq<nat>, g: GroupId,
                       p: nat)
    requires ValidConfigs(configs) && cfg.Valid() && Recorded(t, e, cfg, ids, g, p)
    requires forall x :: x in scheduled && x.req in requests ==> EpochName(epochs, x.req) != e
    ensures Recorded(ScheduleAll(configs, t, requests, scheduled, rollback, epochs), e, cfg, ids, g, p)
  {
    hide ScheduleAll, EpochName, BlockOf, PhysicalBlock;
    AllTurnsEpochs(configs, t, requests, scheduled, rollback, epochs, e);
  }

  // ---- what an open epoch keeps ----

  lemma RetainsGroups(groups: map<GroupId, Blocks>, full: set<GroupId>, pending: map<GroupId, map<nat, nat>>,
                      step: map<GroupId, Blocks>, g: GroupId, b: nat)
    requires b in GroupKeys(groups, g) && g !in full
    ensures b in GroupKeys(RetainedBlocks(groups, full, pending, step), g)
  {
  }

  /** The turn that opens an epoch retains what the request keeps. */
  lemma TurnRetains(configs: Configs, t: Tables, requests: map<Id, Request>, s: Schedule, rollback: map<Id, nat>,
                    epochs: map<Id, Id>, mine: iset<Id>, g: GroupId, b: nat)
    requires ValidConfigs(configs) && Epochs(t, s.req, mine) && t.stepBlocks.Keys == configs.Keys && s.req in requests
    requires g in configs && configs[g].boundary + configs[g].tail < requests[s.req].computed + s.tokens
    requires var u := ScheduleOne(configs, t, requests, s, rollback, epochs);
      EpochName(epochs, s.req) in u.pending && b in GroupKeys(GetOr(u.requestBlocks, s.req, map[]), g)
    ensures HeldBy(ScheduleOne(configs, t, requests, s, rollback, epochs), EpochName(epochs, s.req), g, b)
  {
    hide Enter, Cleared, ScheduledStep, ScheduledPending, RetainedBlocks, ScheduleOne, EpochName, Active;
    hide EpochInvariant;
    hide NamedApart, GroupKeys, ViewOf;
    var q, request, epoch, back := s.req, requests[s.req], EpochName(epochs, s.req), GetOr(rollback, s.req, 0);
    var cleared, u := Cleared(configs, t, epoch, request), ScheduleOne(configs, t, requests, s, rollback, epochs);
    var w := WindowOf(request.computed, s.tokens, back);
    ScheduleOneIs(configs, t, requests, s, rollback, epochs);
    ClearedKeeps(configs, t, epoch, request, q, mine);
    EnterFields(configs, cleared, q, epoch, request, s.tokens, back);
    RetainsGroups(GetOr(u.requestBlocks, q, map[]), ScheduledFull(configs, request, w),
                  ScheduledPending(configs, request, w), u.stepBlocks, g, b);
  }

  /** The step in which the request opens epoch `e`. */
  ghost predicate Opens(configs: Configs, t: Tables, event: Event, r: Id, e: Id) {
    && ValidConfigs(configs) && event.Step? && DistinctRequests(event.scheduled)
    && IsScheduled(r, event.requests, event.scheduled) && EpochName(event.epochs, r) == e
    && e in Apply(configs, t, event).pending
  }

  lemma StepRetains(configs: Configs, t: Tables, event: Event, r: Id, mine: iset<Id>, e: Id, s: Schedule, g: GroupId,
                    b: nat)
    requires ValidConfigs(configs) && Epochs(t, r, mine) && Opens(configs, t, event, r, e) && g in configs
    requires NamesApart(r, mine, event.requests, event.scheduled, event.epochs)
    requires s in event.scheduled && s.req == r
    requires configs[g].boundary + configs[g].tail < event.requests[r].computed + s.tokens
    requires b in GetOr(ViewOf(Apply(configs, t, event), r).blocks, g, map[])
    ensures HeldBy(Apply(configs, t, event), e, g, b)
  {
    hide BeginStep, ScheduleAll, ScheduleOne, EpochName, EpochInvariant, NamedApart, HeldBy, GroupKeys, SameEpoch;
    var requests, scheduled := event.requests, event.scheduled;
    var j :| 0 <= j < |scheduled| && scheduled[j] == s;
    var pre, post := scheduled[..j], scheduled[j + 1..];
    assert scheduled == (pre + [s]) + post;
    assert !IsScheduled(r, requests, post);
    var begun := BeginStep(configs, t, event.removed);
    BeginView(configs, t, event.removed, r, mine);
    BeginStepKeys(configs, t, event.removed);
    var t1 := ScheduleAll(configs, begun, requests, pre, event.rollback, event.epochs);
    var t2 := ScheduleOne(configs, t1, requests, s, event.rollback, event.epochs);
    var u := ScheduleAll(configs, t2, requests, post, event.rollback, event.epochs);
    OneMoreScheduled(configs, begun, requests, pre, s, event.rollback, event.epochs);
    ScheduleParts(configs, begun, requests, pre + [s], post, event.rollback, event.epochs);
    ScheduledWithout(configs, begun, requests, pre, event.rollback, event.epochs, r, mine);
    OthersScheduled(configs, t1, requests, s, event.rollback, event.epochs, r, mine);
    ScheduledWithout(configs, t2, requests, post, event.rollback, event.epochs, r, mine);
    LaterTurnsApart(configs, t2, requests, post, event.rollback, event.epochs, r, mine, e);
    SameBlocks(t2, u, r, g, b);
    SameClaims(t2, u, e, g, b, 0);
    TurnRetains(configs, t1, requests, s, event.rollback, event.epochs, mine, g, b);
  }

  lemma LaterTurnsApart(configs: Configs, t: Tables, requests: map<Id, Request>, scheduled: seq<Schedule>,
                        rollback: map<Id, nat>, epochs: map<Id, Id>, r: Id, mine: iset<Id>, e: Id)
    requires ValidConfigs(configs) && !IsScheduled(r, requests, scheduled) && e in mine
    requires NamesApart(r, mine, requests, scheduled, epochs)
    ensures SameEpoch(t, ScheduleAll(configs, t, requests, scheduled, rollback, epochs), e)
  {
    hide ScheduleAll, EpochName, SameEpoch;
    forall x | x in scheduled && x.req in requests
      ensures EpochName(epochs, x.req) != e
    {
      var i :| 0 <= i < |scheduled| && scheduled[i] == x;
      assert x.req == r ==> IsScheduled(r, requests, scheduled);
    }
    AllTurnsEpochs(configs, t, requests, scheduled, rollback, epochs, e);
  }

  lemma SameBlocks(t: Tables, u: Tables, r: Id, g: GroupId, b: nat)
    requires ViewOf(t, r) == ViewOf(u, r) && b in GetOr(ViewOf(u, r).blocks, g, map[])
    ensures b in GroupKeys(GetOr(t.requestBlocks, r, map[]), g)
  {
  }

  /** A call that does not close epoch `e` of request `r`. */
  ghost predicate LeavesOpen(event: Event, r: Id, e: Id) {
    match event
    case Step(requests, scheduled, removed, rollback, epochs) =>
      r !in removed && forall s :: s in scheduled && s.req in requests ==> EpochName(epochs, s.req) != e
    case Settle(epoch, request, actual) => epoch != e
    case Drop(epoch) => epoch != e
    case Forget(req) => true
  }

  /** Epoch `e` is open as before and keeps at least the blocks it kept. */
  ghost predicate Retains(t: Tables, u: Tables, e: Id) {
    && (e in t.pending <==> e in u.pending) && (e in t.pending ==> t.pending[e] == u.pending[e])
    && forall g: GroupId, b: nat {:trigger HeldBy(t, e, g, b)} :: HeldBy(t, e, g, b) ==> HeldBy(u, e, g, b)
  }

  lemma SameRetains(t: Tables, u: Tables, e: Id)
    requires SameEpoch(t, u, e)
    ensures Retains(t, u, e)
  {
  }

  lemma StaysOpen(configs: Configs, t: Tables, event: Event, r: Id, mine: iset<Id>, e: Id)
    requires ValidConfigs(configs) && Epochs(t, r, mine) && e in mine && LeavesOpen(event, r, e)
    ensures Retains(t, Apply(configs, t, event), e)
  {
    hide BeginStep, ScheduleAll, EpochName, EpochInvariant, NamedApart, HeldBy, SameEpoch, Resolve, Discard;
    hide MarkUnknown;
    hide Retains;
    var u := Apply(configs, t, event);
    match event
    case Step(requests, scheduled, removed, rollback, epochs) =>
      var begun := BeginStep(configs, t, removed);
      BeginEpochs(configs, t, removed, r, mine, e);
      AllTurnsEpochs(configs, begun, requests, scheduled, rollback, epochs, e);
      SameEpochTwice(t, begun, u, e);
      SameRetains(t, u, e);
    case Settle(epoch, request, actual) =>
      UntouchedEpoch(configs, t, epoch, request, actual, e);
      SameRetains(t, u, e);
    case Drop(epoch) =>
      DropsOther(t, epoch, e);
      SameRetains(t, u, e);
    case Forget(req) => ForgetsFills(t, req, e);
  }

  lemma DropsOther(t: Tables, epoch: Id, e: Id)
    requires e != epoch
    ensures SameEpoch(t, Discard(t, epoch), e)
  {
  }

  lemma ForgetsFills(t: Tables, req: Id, e: Id)
    ensures Retains(t, MarkUnknown(t, req), e)
  {
  }

  lemma RetainsTwice(t: Tables, u: Tables, v: Tables, e: Id)
    requires Retains(t, u, e) && Retains(u, v, e)
    ensures Retains(t, v, e)
  {
  }

  lemma HeldIsNeeded(t: Tables, e: Id, g: GroupId, b: nat)
    requires HeldBy(t, e, g, b)
    ensures b in BlockFills(t, g)
  {
    hide JoinOf, IsJoin;
    var s := GetOr(GetOr(t.epochBlocks, e, map[]), g, map[]);
    assert e in t.epochBlocks && s in GroupSources(t.epochBlocks, g);
    JoinHolds(Sources(t, g), s, b);
  }

  lemma PrefixIsFollowed(configs: Configs, r: Id, mine: iset<Id>, events: seq<Event>, later: seq<Event>,
                         follows: seq<Follow>)
    requires ValidConfigs(configs) && Followed(configs, r, mine, events + later, follows)
    ensures Followed(configs, r, mine, events, follows[..|events| + 1])
  {
    hide Moves, Run, LatestOf;
    var front := follows[..|events| + 1];
    forall k: nat | k < |events|
      ensures FollowedAt(configs, r, mine, events, front, k)
    {
      assert FollowedAt(configs, r, mine, events + later, follows, k);
      assert (events + later)[..k] == events[..k];
    }
  }

  lemma {:induction false} OpenThroughout(configs: Configs, events: seq<Event>, later: seq<Event>, r: Id,
                                          mine: iset<Id>, follows: seq<Follow>, e: Id)
    requires ValidConfigs(configs) && Followed(configs, r, mine, events + later, follows) && e in mine
    requires forall x :: x in later ==> LeavesOpen(x, r, e)
    ensures Retains(Run(configs, events), Run(configs, events + later), e)
  {
    hide Apply, LeavesOpen, Retains, Epochs, FollowedAt, Follows;
    if later == [] {
      assert events + later == events;
      SameRetains(Run(configs, events), Run(configs, events), e);
    } else {
      var n := |later| - 1;
      var front, last := later[..n], later[n];
      assert (events + later)[..|events + later| - 1] == events + front;
      FrontIsFollowed(configs, r, mine, events + later, follows);
      OpenThroughout(configs, events, front, r, mine, follows[..|events + later|], e);
      RunAgrees(configs, r, mine, events + front, follows[..|events + later|]);
      assert last in later;
      StaysOpen(configs, Run(configs, events + front), last, r, mine, e);
      RetainsTwice(Run(configs, events), Run(configs, events + front), Run(configs, events + later), e);
    }
  }

  /** While it is open, an epoch keeps what its step kept: every position that had to stay exact for a request
      that was not wholly covered stays exact, whatever the request does meanwhile. */
  lemma OpenEpochKeepsWindow(configs: Configs, r: Id, mine: iset<Id>, events: seq<Event>, later: seq<Event>,
                             follows: seq<Follow>, k: Track, e: Id, g: GroupId, p: nat)
    requires ValidConfigs(configs) && Followed(configs, r, mine, events + later, follows) && events != []
    requires follows[|events|] == Tracked(k) && InTables(configs, k.ids, g) && MustBeExact(configs[g], k.lo, k.hi, p)
    requires Opens(configs, Run(configs, events[..|events| - 1]), events[|events| - 1], r, e)
    requires configs[g].boundary + configs[g].tail < k.hi
    requires forall x :: x in later ==> LeavesOpen(x, r, e)
    ensures Holding(configs[g], k.ids[g], p, BlockFills(Run(configs, events + later), g))
  {
    hide Apply, ViewOf, WideBlocks, FullWithin, PendingOfTrack, InNoDoubt, Epochs, FollowedAt, Holds, Distinct;
    hide LeavesOpen;
    hide MustBeExact, PhysicalBlock, BlockOf, BlockFills, HeldBy, EpochName;
    PrefixIsFollowed(configs, r, mine, events, later, follows);
    var front := follows[..|events| + 1];
    RunAgrees(configs, r, mine, events, front);
    WideHolds(configs[g], k.ids[g], k.lo, k.hi, p);
    var b := PhysicalBlock(k.ids[g], BlockOf(configs[g], p), configs[g].perManager);
    OpeningRetains(configs, r, mine, events, front, k, e, g, b);
    OpenThroughout(configs, events, later, r, mine, follows, e);
    HeldIsNeeded(Run(configs, events + later), e, g, b);
  }

  /** What a speculative step wrote and was accepted is published: position `p` is written in the last of `events`,
      its epoch stays open through `later`, and is then settled behind `p`.  At once, and after the next step, the
      position's block is needed, with a fill that covers the position. */
  lemma AcceptedWritesArePublished(configs: Configs, mine: iset<Id>, events: seq<Event>, later: seq<Event>,
                                   follows: seq<Follow>, s: Schedule, e: Id, g: GroupId, p: nat, request: Request,
                                   actual: nat, next: Event)
    requires ValidConfigs(configs) && Followed(configs, s.req, mine, events + later, follows) && events != []
    requires e in mine && forall x :: x in later ==> LeavesOpen(x, s.req, e)
    requires var event := events[|events| - 1];
      && Speculates(event, s, e)
      && Written(configs, event.requests[s.req], s.tokens, GetOr(event.rollback, s.req, 0), g, p)
      && Distinct(event.requests[s.req].blockIds[g])
    requires p < actual && g < |request.blockIds| && next.Step?
    ensures var cfg, ids := configs[g], events[|events| - 1].requests[s.req].blockIds[g];
      var settled := Apply(configs, Run(configs, events + later), Settle(e, request, actual));
      var n := LocalIndex(p, cfg.world, cfg.interleave) - BlockOf(cfg, p) * cfg.group + 1;
      && InTable(ids, BlockOf(cfg, p), cfg.perManager) && 0 < n <= cfg.group
      && AtLeast(BlockFills(settled, g), PhysicalBlock(ids, BlockOf(cfg, p), cfg.perManager), n)
      && AtLeast(BlockFills(Apply(configs, settled, next), g), PhysicalBlock(ids, BlockOf(cfg, p), cfg.perManager), n)
  {
    hide Apply, HeldBy, LeavesOpen, PhysicalBlock, BlockFills, Distinct, Written, FollowedAt, LocalNumTokens;
    hide LocalIndex;
    hide Owner;
    var event := events[|events| - 1];
    WrittenGroup(configs, event.requests[s.req], s.tokens, GetOr(event.rollback, s.req, 0), g, p);
    var cfg, ids, l := configs[g], event.requests[s.req].blockIds[g], BlockOf(configs[g], p);
    WritesAreRecorded(configs, Run(configs, events[..|events| - 1]), event, s, e, g, p);
    OpenThroughout(configs, events, later, s.req, mine, follows, e);
    LocalBelowCount(p, actual, cfg.world, cfg.interleave);
    FloorBounds(LocalIndex(p, cfg.world, cfg.interleave), cfg.group);
    SettledFillsArePublished(configs, Run(configs, events + later), e, request, actual, next, g,
                             PhysicalBlock(ids, l, cfg.perManager));
  }

  lemma OpeningRetains(configs: Configs, r: Id, mine: iset<Id>, events: seq<Event>, follows: seq<Follow>, k: Track,
                       e: Id, g: GroupId, b: nat)
    requires ValidConfigs(configs) && Followed(configs, r, mine, events, follows) && events != [] && g in configs
    requires follows[|events|] == Tracked(k) && configs[g].boundary + configs[g].tail < k.hi
    requires Opens(configs, Run(configs, events[..|events| - 1]), events[|events| - 1], r, e)
    requires b in GetOr(ViewOf(Run(configs, events), r).blocks, g, map[])
    ensures e in mine && HeldBy(Run(configs, events), e, g, b)
  {
    hide Apply, ViewOf, Epochs, HeldBy, EpochName, MayEnter, StaysSure, LatestOf, Agrees;
    var n := |events| - 1;
    var event, before := events[n], Run(configs, events[..n]);
    FrontIsFollowed(configs, r, mine, events, follows);
    RunAgrees(configs, r, mine, events[..n], follows[..n + 1]);
    assert FollowedAt(configs, r, mine, events, follows, n);
    var j :| 0 <= j < |event.scheduled| && event.scheduled[j].req == r;
    var s := event.scheduled[j];
    assert s in event.scheduled;
    StepRetains(configs, before, event, r, mine, e, s, g, b);
  }
}
