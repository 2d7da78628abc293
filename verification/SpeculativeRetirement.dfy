/** A speculating request loses no tile.

    A request may have several open epochs, and each keeps the fills it was opened with.  If the epochs
    of a request are closed in the order in which they were opened, and only its sole open epoch is
    settled, then whenever one of its reached blocks is not needed any more, the last fill the slot
    manager was shown for it is a full one, so the block is flushed in the very step that takes its slot. */
module SpeculativeRetirement {
  import opened Sharding
  import opened FillMaps
  import opened Ownership
  import opened BlockRanges
  import opened EpochSafety
  import opened PoolBound
  import opened AsyncRefinement
  import opened SpeculativeRuns
  import opened Separation
  import opened SettledFills
  import opened ExactPool

  // ---- what a call leaves alone ----

  /** Nothing settled is still to publish, and no epoch of another request may write block `b`. */
  ghost predicate Clear(t: Tables, mine: iset<Id>, g: GroupId, b: nat) {
    && t.resolved == map[]
    && forall e :: e in t.pending && e !in mine ==> b !in GroupKeys(t.pending[e], g)
  }

  predicate SameAt(x: Blocks, y: Blocks, b: nat) {
    (b in x <==> b in y) && (b in x ==> x[b] == y[b])
  }

  predicate SameStep(t: Tables, u: Tables, g: GroupId, b: nat) {
    g in t.stepBlocks && g in u.stepBlocks && SameAt(t.stepBlocks[g], u.stepBlocks[g], b)
  }

  predicate SameEpoch(t: Tables, u: Tables, e: Id) {
    && (e in t.pending <==> e in u.pending) && (e in t.pending ==> t.pending[e] == u.pending[e])
    && (e in t.epochBlocks <==> e in u.epochBlocks) && (e in t.epochBlocks ==> t.epochBlocks[e] == u.epochBlocks[e])
    && (e in t.epochOwners <==> e in u.epochOwners) && (e in t.epochOwners ==> t.epochOwners[e] == u.epochOwners[e])
  }

  ghost predicate KeepsEpochs(t: Tables, u: Tables, mine: iset<Id>) {
    forall e :: e in mine ==> SameEpoch(t, u, e)
  }

  lemma PublishFields(t: Tables, epoch: Id, owner: Id, latest: bool, groups: map<GroupId, Blocks>,
                      fills: map<GroupId, Blocks>)
    ensures var u := PublishEpoch(t, epoch, owner, latest, groups, fills);
      && u.stepBlocks == t.stepBlocks && u.pending == t.pending && u.epochBlocks == t.epochBlocks
      && u.epochOwners == t.epochOwners
      && u.resolved == if fills == map[] then t.resolved else t.resolved[epoch := fills]
  {
  }

  lemma DroppedFields(t: Tables, epoch: Id)
    ensures var u := DropEpoch(t, epoch);
      && u.stepBlocks == t.stepBlocks && u.pending == t.pending - {epoch} && u.resolved == t.resolved
      && u.epochBlocks == t.epochBlocks - {epoch} && u.epochOwners == t.epochOwners - {epoch}
  {
  }

  lemma ResolveFields(configs: Configs, t: Tables, epoch: Id, request: Request, actual: int)
    requires ValidConfigs(configs)
    ensures var u := Resolve(configs, t, epoch, request, actual);
      && u.stepBlocks == t.stepBlocks && u.pending == t.pending - {epoch}
      && u.epochBlocks == t.epochBlocks - {epoch} && u.epochOwners == t.epochOwners - {epoch}
      && (epoch !in t.pending ==> u.resolved == t.resolved)
      && (epoch in t.pending ==>
            var fills: map<GroupId, Blocks> := ResolvedPending(configs, t.pending[epoch], request, actual);
            u.resolved == if fills == map[] then t.resolved else t.resolved[epoch := fills])
  {
    hide ResolvedOwner, ResolvedPending, TrimGroups, PublishEpoch, DropEpoch, GetOr, IsLatest;
    DroppedFields(t, epoch);
    if epoch in t.pending {
      var owner := GetOr(t.epochOwners, epoch, epoch);
      PublishFields(DropEpoch(t, epoch), epoch, owner, IsLatest(t, epoch),
        ResolvedOwner(configs, GetOr(t.requestBlocks, owner, map[]), t.pending[epoch], TrimGroups(t, epoch, owner),
                      request, actual),
        ResolvedPending(configs, t.pending[epoch], request, actual));
    }
  }

  lemma EnterFields(configs: Configs, t: Tables, q: Id, epoch: Id, request: Request, tokens: nat, rollback: nat)
    requires ValidConfigs(configs)
    ensures var u := Enter(configs, t, q, epoch, request, tokens, rollback);
      var w := WindowOf(request.computed, tokens, rollback);
      var pending: map<GroupId, map<nat, nat>> := if rollback > 0 then ScheduledPending(configs, request, w) else map[];
      && u.resolved == t.resolved && u.stepBlocks == ScheduledStep(configs, request, w, t.stepBlocks)
      && (pending == map[] ==>
            u.pending == t.pending && u.epochBlocks == t.epochBlocks && u.epochOwners == t.epochOwners)
      && (pending != map[] ==>
            && u.pending == t.pending[epoch := pending] && u.epochOwners == t.epochOwners[epoch := q]
            && u.requestBlocks == t.requestBlocks[q := GetOr(u.requestBlocks, q, map[])]
            && u.epochBlocks == t.epochBlocks[epoch := RetainedBlocks(GetOr(u.requestBlocks, q, map[]),
                 ScheduledFull(configs, request, w), pending, u.stepBlocks)])
  {
    hide ScheduledPending, ScheduledFull, ScheduledGroups, ScheduledStep, RetainedBlocks;
  }

  lemma ConsumeOther(t: Tables, epoch: Id, g: GroupId, b: nat)
    requires g in t.stepBlocks && (epoch in t.resolved ==> b !in GroupKeys(t.resolved[epoch], g))
    ensures SameStep(t, ConsumeResolved(t, epoch), g, b)
  {
  }

  /** Settling another request's epoch and publishing it at once. */
  lemma SettleOther(configs: Configs, t: Tables, epoch: Id, request: Request, actual: int, mine: iset<Id>, g: GroupId,
                    b: nat)
    requires ValidConfigs(configs) && g in t.stepBlocks && Clear(t, mine, g, b) && epoch !in mine && epoch in t.pending
    ensures var u := ConsumeResolved(Resolve(configs, t, epoch, request, actual), epoch);
      Clear(u, mine, g, b) && SameStep(t, u, g, b) && KeepsEpochs(t, u, mine)
  {
    hide ResolvedPending, Resolve, MergeGroups;
    ResolveFields(configs, t, epoch, request, actual);
    ResolvedPendingApart(configs, t.pending[epoch], request, actual, g, {b});
    ConsumeOther(Resolve(configs, t, epoch, request, actual), epoch, g, b);
  }

  lemma StepMisses(configs: Configs, request: Request, w: Window, step: map<GroupId, Blocks>, g: GroupId, b: nat)
    requires ValidConfigs(configs) && TableApart(configs, request, g, {b}) && g in step
    ensures g in ScheduledStep(configs, request, w, step)
    ensures SameAt(step[g], ScheduledStep(configs, request, w, step)[g], b)
    ensures b !in GroupKeys(ScheduledPending(configs, request, w), g)
  {
    hide LocalNumTokens, NumLogical, MergeRange, PhysicalRange, LogicalRange;
    if Active(configs, request, w, g) {
      var cfg, ids, s := configs[g], request.blockIds[g], SpanOf(configs[g], w);
      TouchedInAll(cfg, ids, s);
      if Touches(s) {
        RangeInAll(ids, cfg.perManager, TouchedFrom(cfg, s), TouchedTo(cfg, ids, s));
        MergeElsewhere(cfg, ids, s.minEnd, TouchedFrom(cfg, s), TouchedTo(cfg, ids, s), step[g], b);
      }
    }
  }

  lemma EnterOther(configs: Configs, t: Tables, q: Id, epoch: Id, request: Request, tokens: nat, rollback: nat,
                   mine: iset<Id>, g: GroupId, b: nat)
    requires ValidConfigs(configs) && g in t.stepBlocks && Clear(t, mine, g, b) && epoch !in mine
    requires TableApart(configs, request, g, {b})
    ensures var u := Enter(configs, t, q, epoch, request, tokens, rollback);
      Clear(u, mine, g, b) && SameStep(t, u, g, b) && KeepsEpochs(t, u, mine)
  {
    hide Enter, ScheduledPending, ScheduledFull, ScheduledStep, RetainedBlocks, TableApart;
    EnterFields(configs, t, q, epoch, request, tokens, rollback);
    StepMisses(configs, request, WindowOf(request.computed, tokens, rollback), t.stepBlocks, g, b);
  }

  /** Another request's turn. */
  lemma OtherTurn(configs: Configs, t: Tables, requests: map<Id, Request>, s: Schedule, rollback: map<Id, nat>,
                  epochs: map<Id, Id>, mine: iset<Id>, g: GroupId, b: nat)
    requires ValidConfigs(configs) && g in t.stepBlocks && Clear(t, mine, g, b)
    requires s.req in requests ==>
      EpochName(epochs, s.req) !in mine && TableApart(configs, requests[s.req], g, {b})
    ensures var u := ScheduleOne(configs, t, requests, s, rollback, epochs);
      Clear(u, mine, g, b) && SameStep(t, u, g, b) && KeepsEpochs(t, u, mine)
  {
    hide Enter, Resolve, ConsumeResolved, TableApart, Clear, ScheduleOne;
    if s.req in requests {
      var request, epoch := requests[s.req], EpochName(epochs, s.req);
      ScheduleOneIs(configs, t, requests, s, rollback, epochs);
      if epoch in t.pending {
        SettleOther(configs, t, epoch, request, request.computed, mine, g, b);
      }
      EnterOther(configs, Cleared(configs, t, epoch, request), s.req, epoch, request, s.tokens,
                 GetOr(rollback, s.req, 0), mine, g, b);
    } else {
      UnknownRequest(configs, t, requests, s, rollback, epochs);
    }
  }

  /** Every scheduled request but `r` has its own epoch names and a table without block `b`. */
  ghost predicate OthersMiss(configs: Configs, requests: map<Id, Request>, scheduled: seq<Schedule>,
                             epochs: map<Id, Id>, r: Id, mine: iset<Id>, g: GroupId, b: nat)
    requires ValidConfigs(configs)
  {
    forall s :: s in scheduled && s.req in requests && s.req != r ==>
      EpochName(epochs, s.req) !in mine && TableApart(configs, requests[s.req], g, {b})
  }

  lemma {:induction false} OthersTurns(configs: Configs, t: Tables, requests: map<Id, Request>,
                                       scheduled: seq<Schedule>, rollback: map<Id, nat>, epochs: map<Id, Id>, r: Id,
                                       mine: iset<Id>, g: GroupId, b: nat)
    requires ValidConfigs(configs) && g in t.stepBlocks && Clear(t, mine, g, b)
    requires OthersMiss(configs, requests, scheduled, epochs, r, mine, g, b) && !IsScheduled(r, requests, scheduled)
    ensures var u := ScheduleAll(configs, t, requests, scheduled, rollback, epochs);
      Clear(u, mine, g, b) && SameStep(t, u, g, b) && KeepsEpochs(t, u, mine)
  {
    hide ScheduleOne, TableApart, Clear, EpochName;
    if scheduled != [] {
      var front, last := scheduled[..|scheduled| - 1], scheduled[|scheduled| - 1];
      assert forall j :: 0 <= j < |front| ==> front[j] == scheduled[j];
      assert last in scheduled && scheduled[|scheduled| - 1] == last;
      OthersTurns(configs, t, requests, front, rollback, epochs, r, mine, g, b);
      OtherTurn(configs, ScheduleAll(configs, t, requests, front, rollback, epochs), requests, last, rollback, epochs,
                mine, g, b);
    }
  }

  // ---- one block of the request ----

  /** All tokens of local block `l` lie below position `lo`. */
  predicate SurelyFull(cfg: GroupConfig, lo: nat, l: nat)
    requires cfg.Valid()
  {
    (l + 1) * cfg.group <= cfg.Local(lo)
  }

  /** A step that may start writing at `from` may write into block `l`. */
  predicate WritesInto(cfg: GroupConfig, from: nat, l: nat)
    requires cfg.Valid()
  {
    cfg.Local(from) < (l + 1) * cfg.group
  }

  lemma FullMeans(cfg: GroupConfig, ids: seq<nat>, lo: nat, hi: nat, l: nat)
    requires cfg.Valid() && SurelyFull(cfg, lo, l) && lo <= hi && Holds(cfg, ids, hi)
    ensures InTable(ids, l, cfg.perManager) && l < NumLogical(cfg, ids, cfg.Local(hi))
    ensures FillAt(cfg, cfg.Local(lo), l) == Known(cfg.group)
    ensures l * cfg.group < cfg.Local(lo) <= cfg.Local(hi) && 0 < hi
  {
    hide LocalNumTokens, CeilDiv;
    CountMonotone(lo, hi, cfg.world, cfg.rank, cfg.interleave);
    CountOfZero(cfg.world, cfg.rank, cfg.interleave);
    Distribute(l, 1, cfg.group);
    MulMonotone(0, l, cfg.group);
    AboveCeil(cfg.Local(hi), l, cfg.group);
  }

  /** Blocks kept for a request that surely has them full are recorded full. */
  lemma KeptIsFull(cfg: GroupConfig, ids: seq<nat>, lo: nat, hi: nat, l: nat)
    requires cfg.Valid() && Distinct(ids) && SurelyFull(cfg, lo, l) && lo <= hi && Holds(cfg, ids, hi)
    ensures InTable(ids, l, cfg.perManager)
    ensures var b := PhysicalBlock(ids, l, cfg.perManager);
      b in WideBlocks(cfg, ids, lo, hi) ==> AtLeast(WideBlocks(cfg, ids, lo, hi), b, cfg.group)
  {
    hide LocalNumTokens, SpanBlocks, PhysicalBlock, FillAt, Owns, Holds, SurelyFull;
    FullMeans(cfg, ids, lo, hi, l);
    SpanBlocksAt(cfg, ids, SpanOf(cfg, Window(lo, lo, hi)), l);
  }

  /** A range that is merged over block `l` records it with at least its fill. */
  lemma {:induction false} MergeRecords(cfg: GroupConfig, ids: seq<nat>, e: nat, lo: nat, hi: nat, blocks: Blocks,
                                        l: nat, n: nat)
    requires cfg.Valid() && lo <= l < hi <= |ids| * cfg.perManager && FillAt(cfg, e, l) == Known(n)
    ensures AtLeast(MergeRange(cfg, ids, e, lo, hi, blocks), PhysicalBlock(ids, l, cfg.perManager), n)
  {
    hide PhysicalBlock, FillAt;
    if l < hi - 1 {
      MergeRecords(cfg, ids, e, lo, hi - 1, blocks, l, n);
      RangeKeepsLeast(cfg, ids, e, hi - 1, hi, MergeRange(cfg, ids, e, lo, hi - 1, blocks),
                      PhysicalBlock(ids, l, cfg.perManager), n);
    }
  }

  /** Block `l` against the range a step touches. */
  lemma TouchedRange(cfg: GroupConfig, ids: seq<nat>, w: Window, l: nat)
    requires cfg.Valid() && w.minStart <= w.minEnd <= w.maxEnd && Holds(cfg, ids, w.maxEnd)
    requires l * cfg.group < cfg.Local(w.maxEnd)
    ensures NumLogical(cfg, ids, SpanOf(cfg, w).maxEnd) > 0 && InTable(ids, l, cfg.perManager)
    ensures var s := SpanOf(cfg, w);
      (Touches(s) && TouchedFrom(cfg, s) <= l < TouchedTo(cfg, ids, s))
        <==> (WritesInto(cfg, w.minStart, l) && Touches(s))
    ensures SurelyFull(cfg, w.minEnd, l) && WritesInto(cfg, w.minStart, l) ==> Touches(SpanOf(cfg, w))
  {
    hide LocalNumTokens, CeilDiv;
    var s := SpanOf(cfg, w);
    CountMonotone(w.minEnd, w.maxEnd, cfg.world, cfg.rank, cfg.interleave);
    AboveCeil(s.maxEnd, l, cfg.group);
    LastBlock(s.maxEnd, cfg.group);
    FloorBounds(s.minStart, cfg.group);
    Distribute(l, 1, cfg.group);
    if s.minStart / cfg.group <= l {
      MulMonotone(s.minStart / cfg.group, l, cfg.group);
    } else {
      MulMonotone(l + 1, s.minStart / cfg.group, cfg.group);
    }
  }

  /** What the request's own step does to a block that is surely full at its least end: it records it full if
      it may write into it, and leaves it alone otherwise. */
  lemma OwnStepAt(configs: Configs, request: Request, w: Window, step: map<GroupId, Blocks>, g: GroupId, l: nat)
    requires ValidConfigs(configs) && InTables(configs, request.blockIds, g) && g in step
    requires GoodTables(configs, request.blockIds, w.maxEnd) && w.minStart <= w.minEnd <= w.maxEnd
    requires SurelyFull(configs[g], w.minEnd, l)
    ensures var cfg, ids := configs[g], request.blockIds[g];
      && InTable(ids, l, cfg.perManager) && g in ScheduledStep(configs, request, w, step)
      && (var b, after := PhysicalBlock(ids, l, cfg.perManager), ScheduledStep(configs, request, w, step)[g];
          if WritesInto(cfg, w.minStart, l) then
            AtLeast(after, b, cfg.group) && b in GroupKeys(ScheduledPending(configs, request, w), g)
          else SameAt(step[g], after, b) && b !in GroupKeys(ScheduledPending(configs, request, w), g))
  {
    hide LocalNumTokens, NumLogical, MergeRange, PhysicalBlock, FillAt, LogicalRange, Holds, Distinct, TouchedFrom;
    hide TouchedTo;
    hide SurelyFull, WritesInto;
    var cfg, ids, s := configs[g], request.blockIds[g], SpanOf(configs[g], w);
    assert Distinct(ids) && Holds(cfg, ids, w.maxEnd);
    FullMeans(cfg, ids, w.minEnd, w.maxEnd, l);
    TouchedRange(cfg, ids, w, l);
    assert Active(configs, request, w, g);
    if Touches(s) {
      TouchedBlock(cfg, ids, s, step[g], l);
    }
  }

  lemma TouchedBlock(cfg: GroupConfig, ids: seq<nat>, s: Span, step: Blocks, l: nat)
    requires cfg.Valid() && Distinct(ids) && InTable(ids, l, cfg.perManager) && NumLogical(cfg, ids, s.maxEnd) > 0
    requires Touches(s) && FillAt(cfg, s.minEnd, l) == Known(cfg.group)
    ensures var b := PhysicalBlock(ids, l, cfg.perManager);
      if TouchedFrom(cfg, s) <= l < TouchedTo(cfg, ids, s) then
        AtLeast(MergeTouched(cfg, ids, s, step), b, cfg.group) && b in TouchedLogical(cfg, ids, s)
      else SameAt(step, MergeTouched(cfg, ids, s, step), b) && b !in TouchedLogical(cfg, ids, s)
  {
    hide LocalNumTokens, NumLogical, MergeRange, PhysicalBlock, FillAt, TouchedFrom, TouchedTo;
    var from, to, b := TouchedFrom(cfg, s), TouchedTo(cfg, ids, s), PhysicalBlock(ids, l, cfg.perManager);
    LogicalAt(ids, cfg.perManager, from, to, l);
    if from <= l < to {
      MergeRecords(cfg, ids, s.minEnd, from, to, step, l, cfg.group);
    } else {
      OutOfRange(ids, cfg.perManager, from, to, l);
      MergeElsewhere(cfg, ids, s.minEnd, from, to, step, b);
    }
  }

  lemma OutOfRange(ids: seq<nat>, m: nat, lo: nat, hi: nat, l: nat)
    requires m > 0 && Distinct(ids) && InTable(ids, l, m) && (lo < hi ==> hi <= |ids| * m) && !(lo <= l < hi)
    ensures PhysicalBlock(ids, l, m) !in PhysicalRange(ids, m, lo, hi)
  {
    hide PhysicalBlock;
    forall k | lo <= k < hi
      ensures PhysicalBlock(ids, k, m) != PhysicalBlock(ids, l, m)
    {
      PhysicalInjective(ids, m, k, l);
    }
  }

  // ---- what the pending numbers of the latest epoch say ----

  /** The numbers recorded for the last step's blocks are those of the request's table. */
  lemma PendingNumber(configs: Configs, k: Track, ids: seq<nat>, g: GroupId, l: nat)
    requires ValidConfigs(configs) && InTables(configs, k.ids, g) && GoodTables(configs, k.ids, k.hi)
    requires k.ids[g] <= ids && Distinct(ids) && InTable(ids, l, configs[g].perManager)
    requires k.start <= k.lo <= k.hi
    ensures var cfg, b := configs[g], PhysicalBlock(ids, l, configs[g].perManager);
      var pending := ScheduledPending(configs, Request(k.ids, 0), LastWindow(k));
      && (b in GroupKeys(pending, g) ==> pending[g][b] == l)
      && (WritesInto(cfg, k.start, l) && l * cfg.group < cfg.Local(k.hi) && Touches(SpanOf(cfg, LastWindow(k))) ==>
            b in GroupKeys(pending, g))
  {
    hide LocalNumTokens, NumLogical, PhysicalBlock, LogicalRange, Holds, Distinct, TouchedFrom, TouchedTo, WritesInto;
    var cfg, was, w := configs[g], k.ids[g], LastWindow(k);
    var s := SpanOf(cfg, w);
    var pending := ScheduledPending(configs, Request(k.ids, 0), w);
    assert Distinct(was) && Holds(cfg, was, k.hi);
    if g in pending {
      NumberedAs(was, ids, cfg.perManager, TouchedFrom(cfg, s), TouchedTo(cfg, was, s), l);
    }
    if WritesInto(cfg, k.start, l) && l * cfg.group < cfg.Local(k.hi) && Touches(s) {
      TouchedRange(cfg, was, w, l);
      TouchedIsPending(configs, Request(k.ids, 0), w, g);
      PhysicalPrefix(was, ids, cfg.perManager, l);
      LogicalAt(was, cfg.perManager, TouchedFrom(cfg, s), TouchedTo(cfg, was, s), l);
    }
  }

  /** Numbers from the shorter table are right for the longer one. */
  lemma NumberedAs(was: seq<nat>, ids: seq<nat>, m: nat, lo: nat, hi: nat, l: nat)
    requires m > 0 && was <= ids && Distinct(ids) && (lo < hi ==> hi <= |was| * m) && InTable(ids, l, m)
    ensures var b, numbers := PhysicalBlock(ids, l, m), LogicalRange(was, m, lo, hi);
      b in numbers ==> numbers[b] == l && InTable(was, l, m)
  {
    hide PhysicalBlock, LogicalRange, PhysicalRange;
    var b, numbers := PhysicalBlock(ids, l, m), LogicalRange(was, m, lo, hi);
    DistinctPrefix(was, ids);
    LogicalKeys(was, m, lo, hi);
    if b in numbers {
      assert lo < hi by { EmptyRange(was, m, lo, hi); }
      RangeWithin(was, m, lo, hi, 0, hi);
      var j := LogicalOf(was, m, hi, b);
      PhysicalPrefix(was, ids, m, j);
      PhysicalInjective(ids, m, j, l);
      LogicalAt(was, m, lo, hi, l);
    }
  }

  lemma EmptyRange(ids: seq<nat>, m: nat, lo: nat, hi: nat)
    requires m > 0 && (lo < hi ==> hi <= |ids| * m)
    ensures lo >= hi ==> PhysicalRange(ids, m, lo, hi) == {}
  {
  }

  // ---- the request's own turn ----

  predicate HeldBy(t: Tables, e: Id, g: GroupId, b: nat) {
    b in GroupKeys(GetOr(t.epochBlocks, e, map[]), g)
  }

  /** Epoch `e` records block `b` of group `g` with at least `n` tokens. */
  predicate RecordedBy(t: Tables, e: Id, g: GroupId, b: nat, n: nat) {
    e in t.epochBlocks && g in t.epochBlocks[e] && AtLeast(t.epochBlocks[e][g], b, n)
  }

  lemma RetainedRecords(groups: map<GroupId, Blocks>, full: set<GroupId>, pending: map<GroupId, map<nat, nat>>,
                        step: map<GroupId, Blocks>, g: GroupId, b: nat, n: nat)
    requires b in GroupKeys(groups, g) ==> AtLeast(groups[g], b, n)
    requires b in GroupKeys(pending, g) ==> g in step && AtLeast(step[g], b, n)
    ensures var kept := RetainedBlocks(groups, full, pending, step);
      && (b in GroupKeys(kept, g) ==> AtLeast(kept[g], b, n))
      && (b in GroupKeys(pending, g) ==> b in GroupKeys(kept, g))
  {
  }

  /** What entering the request does to a block that is surely full at the step's least end. */
  ghost predicate Entered(cfg: GroupConfig, t: Tables, u: Tables, epoch: Id, from: nat, rollback: nat, g: GroupId,
                          b: nat, l: nat)
    requires cfg.Valid()
  {
    && (if WritesInto(cfg, from, l) then Stepped(u, g, b, cfg.group) else SameStep(t, u, g, b))
    && (HeldBy(u, epoch, g, b) && epoch in u.pending ==> RecordedBy(u, epoch, g, b, cfg.group))
    && (WritesInto(cfg, from, l) && rollback > 0 ==> epoch in u.pending && RecordedBy(u, epoch, g, b, cfg.group))
  }

  lemma OwnEnter(configs: Configs, t: Tables, r: Id, epoch: Id, request: Request, tokens: nat, rollback: nat,
                 sure: bool, g: GroupId, l: nat)
    requires ValidConfigs(configs) && InTables(configs, request.blockIds, g) && g in t.stepBlocks
    requires epoch !in t.pending
    requires var w := WindowOf(request.computed, tokens, rollback);
      && GoodTables(configs, request.blockIds, w.maxEnd) && SurelyFull(configs[g], w.minEnd, l)
      && KeepsExactly(configs, ViewOf(Enter(configs, t, r, epoch, request, tokens, rollback), r).blocks,
                      TrackOf(request, w, sure))
    ensures InTable(request.blockIds[g], l, configs[g].perManager)
    ensures Entered(configs[g], t, Enter(configs, t, r, epoch, request, tokens, rollback), epoch,
                    WindowOf(request.computed, tokens, rollback).minStart, rollback, g,
                    PhysicalBlock(request.blockIds[g], l, configs[g].perManager), l)
  {
    hide Enter, ScheduledPending, ScheduledFull, ScheduledStep, RetainedBlocks, LocalNumTokens, WideBlocks, AtLeast;
    hide SurelyFull, WritesInto, Holds, Distinct, PhysicalBlock;
    var cfg, ids, w := configs[g], request.blockIds[g], WindowOf(request.computed, tokens, rollback);
    var u := Enter(configs, t, r, epoch, request, tokens, rollback);
    var pending: map<GroupId, map<nat, nat>> := if rollback > 0 then ScheduledPending(configs, request, w) else map[];
    EnterFields(configs, t, r, epoch, request, tokens, rollback);
    OwnStepAt(configs, request, w, t.stepBlocks, g, l);
    assert Distinct(ids) && Holds(cfg, ids, w.maxEnd);
    KeptIsFull(cfg, ids, w.minEnd, w.maxEnd, l);
    if pending != map[] {
      RetainedRecords(GetOr(u.requestBlocks, r, map[]), ScheduledFull(configs, request, w), pending, u.stepBlocks, g,
                      PhysicalBlock(ids, l, cfg.perManager), cfg.group);
    }
  }

  /** Entering a request touches no epoch but its own. */
  lemma OwnEnterLeaves(configs: Configs, t: Tables, r: Id, epoch: Id, request: Request, tokens: nat, rollback: nat,
                       mine: iset<Id>, g: GroupId, b: nat, e: Id)
    requires ValidConfigs(configs) && Clear(t, mine, g, b) && epoch in mine
    ensures var u := Enter(configs, t, r, epoch, request, tokens, rollback);
      Clear(u, mine, g, b) && (e != epoch ==> SameEpoch(t, u, e))
  {
    hide Enter, ScheduledPending, ScheduledFull, ScheduledStep, RetainedBlocks;
    EnterFields(configs, t, r, epoch, request, tokens, rollback);
  }

  // ---- settling the request's own epoch ----

  /** The fills published when the latest epoch of a request is settled at `actual`: a block that is surely
      full there is published full, and it is published if the step's least end left it in doubt. */
  lemma SettledAt(configs: Configs, t: Tables, r: Id, epoch: Id, request: Request, actual: nat, k: Track, g: GroupId,
                  l: nat)
    requires ValidConfigs(configs) && Agrees(configs, ViewOf(t, r), k) && k.sure && epoch in LatestOf(t, r)
    requires MaySettle(configs, k, request, actual) && InTables(configs, k.ids, g) && epoch in t.pending
    requires SurelyFull(configs[g], actual, l)
    ensures InTables(configs, request.blockIds, g) && InTable(request.blockIds[g], l, configs[g].perManager)
    ensures InTable(k.ids[g], l, configs[g].perManager)
    ensures var cfg, b := configs[g], PhysicalBlock(request.blockIds[g], l, configs[g].perManager);
      var fills := ResolvedPending(configs, t.pending[epoch], request, actual);
      && (b in GroupKeys(fills, g) ==> AtLeast(fills[g], b, cfg.group))
      && (!SurelyFull(cfg, k.lo, l) ==> b in GroupKeys(fills, g))
  {
    hide LocalNumTokens, PhysicalBlock, ScheduledPending, Holds, Distinct, KeepsExactly, FullWithin, SurelyFull;
    hide WritesInto;
    hide InNoDoubt;
    var cfg, ids := configs[g], request.blockIds;
    SameTables(configs, k.ids, ids, g);
    assert Distinct(ids[g]) && Holds(cfg, k.ids[g], k.hi);
    FullMeans(cfg, k.ids[g], actual, k.hi, l);
    PhysicalPrefix(k.ids[g], ids[g], cfg.perManager, l);
    PendingNumber(configs, k, ids[g], g, l);
    assert t.pending[epoch] == ScheduledPending(configs, Request(k.ids, 0), LastWindow(k));
    DoubtIsWritten(cfg, k, actual, l);
    PublishedFill(configs, t.pending[epoch], request, actual, g, l);
  }

  /** A block that is full at the true end but not at the least end is among those the step may write. */
  lemma DoubtIsWritten(cfg: GroupConfig, k: Track, actual: nat, l: nat)
    requires cfg.Valid() && SurelyFull(cfg, actual, l) && k.start <= k.lo <= k.hi && actual <= k.hi
    ensures l * cfg.group < cfg.Local(k.hi)
    ensures !SurelyFull(cfg, k.lo, l) ==> WritesInto(cfg, k.start, l) && Touches(SpanOf(cfg, LastWindow(k)))
  {
    hide LocalNumTokens;
    CountMonotone(actual, k.hi, cfg.world, cfg.rank, cfg.interleave);
    CountMonotone(k.start, k.lo, cfg.world, cfg.rank, cfg.interleave);
    Distribute(l, 1, cfg.group);
  }

  lemma PublishedFill(configs: Configs, pending: map<GroupId, map<nat, nat>>, request: Request, actual: nat,
                      g: GroupId, l: nat)
    requires ValidConfigs(configs) && InTables(configs, request.blockIds, g) && SurelyFull(configs[g], actual, l)
    requires InTable(request.blockIds[g], l, configs[g].perManager)
    requires var b := PhysicalBlock(request.blockIds[g], l, configs[g].perManager);
      b in GroupKeys(pending, g) ==> pending[g][b] == l
    ensures var cfg, b := configs[g], PhysicalBlock(request.blockIds[g], l, configs[g].perManager);
      var fills := ResolvedPending(configs, pending, request, actual);
      (b in GroupKeys(fills, g) <==> b in GroupKeys(pending, g))
      && (b in GroupKeys(fills, g) ==> AtLeast(fills[g], b, cfg.group))
  {
    hide LocalNumTokens, PhysicalBlock;
    var cfg, b := configs[g], PhysicalBlock(request.blockIds[g], l, configs[g].perManager);
    CountOfZero(cfg.world, cfg.rank, cfg.interleave);
    Distribute(l, 1, cfg.group);
    MulMonotone(0, l, cfg.group);
    assert FillCount(cfg, cfg.Local(actual), l) == cfg.group;
    if b in GroupKeys(pending, g) {
      var fills := ResolvedFills(cfg, pending[g], cfg.Local(actual));
      assert b in fills && fills != map[];
    }
  }

  lemma ConsumeOwn(t: Tables, epoch: Id, g: GroupId, b: nat, n: nat)
    requires g in t.stepBlocks
    ensures var fills, u := GetOr(t.resolved, epoch, map[]), ConsumeResolved(t, epoch);
      && u.resolved == t.resolved - {epoch} && g in u.stepBlocks && u.pending == t.pending
      && u.epochBlocks == t.epochBlocks && u.epochOwners == t.epochOwners
      && (b !in GroupKeys(fills, g) ==> SameStep(t, u, g, b))
      && (b in GroupKeys(fills, g) && AtLeast(fills[g], b, n) ==> Stepped(u, g, b, n))
  {
  }

  /** Settling the request's own epoch at the start of its turn. */
  lemma OwnSettle(configs: Configs, t: Tables, r: Id, epoch: Id, request: Request, k: Track, g: GroupId, l: nat)
    requires ValidConfigs(configs) && Agrees(configs, ViewOf(t, r), k) && k.sure && epoch in LatestOf(t, r)
    requires MaySettle(configs, k, request, request.computed) && InTables(configs, k.ids, g) && epoch in t.pending
    requires SurelyFull(configs[g], request.computed, l) && g in t.stepBlocks && t.resolved == map[]
    ensures InTables(configs, request.blockIds, g) && InTable(request.blockIds[g], l, configs[g].perManager)
    ensures var u := Cleared(configs, t, epoch, request);
      var b := PhysicalBlock(request.blockIds[g], l, configs[g].perManager);
      && (SameStep(t, u, g, b) || Stepped(u, g, b, configs[g].group))
      && (!SurelyFull(configs[g], k.lo, l) ==> Stepped(u, g, b, configs[g].group))
  {
    hide LocalNumTokens, PhysicalBlock, ResolvedPending, Resolve, ConsumeResolved, AtLeast, Agrees, SurelyFull;
    hide MaySettle;
    hide GroupKeys;
    SettledAt(configs, t, r, epoch, request, request.computed, k, g, l);
    var b := PhysicalBlock(request.blockIds[g], l, configs[g].perManager);
    var settled := Resolve(configs, t, epoch, request, request.computed);
    var fills: map<GroupId, Blocks> := ResolvedPending(configs, t.pending[epoch], request, request.computed);
    ResolveFields(configs, t, epoch, request, request.computed);
    ConsumeOwn(settled, epoch, g, b, configs[g].group);
    NothingInside(fills, g, b);
    NothingInside(map[], g, b);
  }

  lemma NothingInside(fills: map<GroupId, Blocks>, g: GroupId, b: nat)
    ensures b in GroupKeys(fills, g) ==> fills != map[]
  {
  }

  lemma OwnSettleLeaves(configs: Configs, t: Tables, epoch: Id, request: Request, mine: iset<Id>, g: GroupId, b: nat,
                        e: Id)
    requires ValidConfigs(configs) && Clear(t, mine, g, b) && epoch in mine && g in t.stepBlocks
    ensures var u := Cleared(configs, t, epoch, request);
      && Clear(u, mine, g, b) && (e != epoch ==> SameEpoch(t, u, e)) && g in u.stepBlocks && epoch !in u.pending
  {
    hide ResolvedPending, Resolve, ConsumeResolved, GroupKeys;
    if epoch in t.pending {
      ResolveFields(configs, t, epoch, request, request.computed);
      ConsumeOwn(Resolve(configs, t, epoch, request, request.computed), epoch, g, b, 0);
    }
  }

  // ---- the request's turn as a whole ----

  lemma StepsOn(t: Tables, u: Tables, v: Tables, g: GroupId, b: nat, n: nat)
    requires SameStep(t, u, g, b) || Stepped(u, g, b, n)
    requires SameStep(u, v, g, b) || Stepped(v, g, b, n)
    ensures SameStep(t, v, g, b) || Stepped(v, g, b, n)
    ensures Stepped(u, g, b, n) ==> Stepped(v, g, b, n)
  {
  }

  lemma DoubtReached(cfg: GroupConfig, from: nat, lo: nat, l: nat)
    requires cfg.Valid() && cfg.Local(from) <= cfg.Local(lo) && !SurelyFull(cfg, lo, l)
    ensures WritesInto(cfg, from, l)
  {
    hide LocalNumTokens;
  }

  /** What the turn of the followed request leaves of block `b`, its block `l`. */
  ghost predicate Turned(configs: Configs, t: Tables, u: Tables, name: Id, f: Follow, rollback: nat, mine: iset<Id>,
                         g: GroupId, b: nat, l: nat)
    requires ValidConfigs(configs) && g in configs
  {
    var n, doubted := configs[g].group, f.Tracked? && !SurelyFull(configs[g], f.track.lo, l);
    && Clear(u, mine, g, b) && (forall e :: e in mine && e != name ==> SameEpoch(t, u, e))
    && (SameStep(t, u, g, b) || Stepped(u, g, b, n)) && (doubted ==> Stepped(u, g, b, n))
    && (name in u.pending && HeldBy(u, name, g, b) ==> RecordedBy(u, name, g, b, n))
    && (doubted && rollback > 0 && name !in t.pending ==> name in u.pending && RecordedBy(u, name, g, b, n))
  }

  lemma OwnTurn(configs: Configs, t: Tables, requests: map<Id, Request>, s: Schedule, rollback: map<Id, nat>,
                epochs: map<Id, Id>, mine: iset<Id>, f: Follow, k': Track, g: GroupId, l: nat, b: nat)
    requires ValidConfigs(configs) && Epochs(t, s.req, mine) && t.stepBlocks.Keys == configs.Keys && s.req in requests
    requires Follows(configs, ViewOf(t, s.req), f) && f != Lost
    requires Enters(configs, LatestOf(t, s.req), EpochName(epochs, s.req), f, requests[s.req], s.tokens,
                    GetOr(rollback, s.req, 0), Tracked(k'))
    requires var name := EpochName(epochs, s.req); name in mine && (name in t.pending ==> name in LatestOf(t, s.req))
    requires InTables(configs, k'.ids, g) && SurelyFull(configs[g], k'.lo, l) && Clear(t, mine, g, b)
    requires InTable(k'.ids[g], l, configs[g].perManager) && b == PhysicalBlock(k'.ids[g], l, configs[g].perManager)
    ensures Turned(configs, t, ScheduleOne(configs, t, requests, s, rollback, epochs), EpochName(epochs, s.req), f,
                   GetOr(rollback, s.req, 0), mine, g, b, l)
  {
    hide Enter, Clear, Agrees, EpochInvariant, NamedApart, GoodTables, ScheduleOne, EpochName, ScheduledPending;
    hide PhysicalBlock;
    hide SurelyFull, WritesInto, LocalNumTokens, Stepped, SameStep, HeldBy, RecordedBy, ViewOf, Cleared, SameEpoch;
    hide KeepsExactly, LatestOf;
    var r, request, name, back := s.req, requests[s.req], EpochName(epochs, s.req), GetOr(rollback, s.req, 0);
    var w := WindowOf(request.computed, s.tokens, back);
    var cleared, u := Cleared(configs, t, name, request), ScheduleOne(configs, t, requests, s, rollback, epochs);
    var n := configs[g].group;
    ScheduleOneIs(configs, t, requests, s, rollback, epochs);
    FollowedScheduled(configs, t, requests, s, rollback, epochs, mine, f, Tracked(k'));
    KeepsOfAgrees(configs, ViewOf(u, r), k');
    ClearedKeeps(configs, t, name, request, r, mine);
    OwnSettleLeaves(configs, t, name, request, mine, g, b, name);
    OwnEnter(configs, cleared, r, name, request, s.tokens, back, k'.sure, g, l);
    OwnEnterLeaves(configs, cleared, r, name, request, s.tokens, back, mine, g, b, name);
    forall e | e in mine && e != name
      ensures SameEpoch(t, u, e)
    {
      OwnSettleLeaves(configs, t, name, request, mine, g, b, e);
      OwnEnterLeaves(configs, cleared, r, name, request, s.tokens, back, mine, g, b, e);
      SameEpochTwice(t, cleared, u, e);
    }
    LatestIsMine(t, r, mine);
    ClearMeans(t, mine, g, b);
    TurnReaches(configs, t, r, name, request, w, f, g, l);
    if !WritesInto(configs[g], w.minStart, l) {
      StepsOn(t, cleared, u, g, b, n);
    }
  }

  lemma ClearMeans(t: Tables, mine: iset<Id>, g: GroupId, b: nat)
    requires Clear(t, mine, g, b)
    ensures t.resolved == map[]
  {
  }

  /** Before the request is entered: the step may write into the block, or settling has recorded it full if
      the last step left it in doubt. */
  lemma TurnReaches(configs: Configs, t: Tables, r: Id, name: Id, request: Request, w: Window, f: Follow, g: GroupId,
                    l: nat)
    requires ValidConfigs(configs) && Follows(configs, ViewOf(t, r), f) && f != Lost && g in t.stepBlocks
    requires t.resolved == map[] && InTables(configs, request.blockIds, g)
    requires MayEnter(configs, LatestOf(t, r), name, f, request, w) && w.minStart <= request.computed
    requires (name in t.pending ==> name in LatestOf(t, r)) && LatestOf(t, r) <= t.pending.Keys
    requires InTable(request.blockIds[g], l, configs[g].perManager)
    ensures var u := Cleared(configs, t, name, request);
      var b := PhysicalBlock(request.blockIds[g], l, configs[g].perManager);
      var n, doubted := configs[g].group, f.Tracked? && !SurelyFull(configs[g], f.track.lo, l);
      WritesInto(configs[g], w.minStart, l)
      || ((SameStep(t, u, g, b) || Stepped(u, g, b, n)) && (doubted ==> Stepped(u, g, b, n) && name in t.pending))
  {
    hide Agrees, GoodTables, PhysicalBlock, SurelyFull, LocalNumTokens, Resolve, ConsumeResolved, WritesInto, Stepped;
    hide Overlaps, InNoDoubt;
    if f.Tracked? {
      var k, cfg := f.track, configs[g];
      SameTables(configs, k.ids, request.blockIds, g);
      if name in t.pending {
        GoodIsDistinct(configs, request.blockIds, w.maxEnd);
        if SurelyFull(cfg, request.computed, l) {
          OwnSettle(configs, t, r, name, request, k, g, l);
        } else {
          CountMonotone(w.minStart, request.computed, cfg.world, cfg.rank, cfg.interleave);
          DoubtReached(cfg, w.minStart, request.computed, l);
        }
      } else if !SurelyFull(cfg, k.lo, l) {
        WindowReaches(configs, ViewOf(t, r), k, w, g);
        DoubtReached(cfg, w.minStart, k.lo, l);
      }
    } else {
      AbsentHasNoLatest(configs, ViewOf(t, r));
    }
  }

  lemma AbsentHasNoLatest(configs: Configs, v: View)
    requires ValidConfigs(configs) && Follows(configs, v, Absent)
    ensures v.latest == {}
  {
  }

  lemma KeepsOfAgrees(configs: Configs, v: View, k: Track)
    requires ValidConfigs(configs) && Agrees(configs, v, k)
    ensures KeepsExactly(configs, v.blocks, k)
  {
    hide KeepsExactly;
  }

  lemma SameEpochTwice(t: Tables, u: Tables, v: Tables, e: Id)
    requires SameEpoch(t, u, e) && SameEpoch(u, v, e)
    ensures SameEpoch(t, v, e)
  {
  }

  lemma {:induction false} ScheduleParts(configs: Configs, t: Tables, requests: map<Id, Request>, a: seq<Schedule>,
                                         c: seq<Schedule>, rollback: map<Id, nat>, epochs: map<Id, Id>)
    requires ValidConfigs(configs)
    ensures ScheduleAll(configs, t, requests, a + c, rollback, epochs)
         == ScheduleAll(configs, ScheduleAll(configs, t, requests, a, rollback, epochs), requests, c, rollback, epochs)
  {
    hide ScheduleOne;
    if c == [] {
      assert a + c == a;
    } else {
      var n := |c| - 1;
      assert (a + c)[..|a + c| - 1] == a + c[..n];
      ScheduleParts(configs, t, requests, a, c[..n], rollback, epochs);
    }
  }

  /** The request's turn between the turns of others. */
  lemma TurnAmongOthers(configs: Configs, t: Tables, t1: Tables, t2: Tables, u: Tables, name: Id, f: Follow,
                        rollback: nat, mine: iset<Id>, g: GroupId, b: nat, l: nat)
    requires ValidConfigs(configs) && g in configs && name in mine && Clear(u, mine, g, b)
    requires SameStep(t, t1, g, b) && KeepsEpochs(t, t1, mine)
    requires Turned(configs, t1, t2, name, f, rollback, mine, g, b, l)
    requires SameStep(t2, u, g, b) && KeepsEpochs(t2, u, mine)
    ensures Turned(configs, t, u, name, f, rollback, mine, g, b, l)
  {
    hide Clear, SurelyFull, SameEpoch, GroupKeys;
    assert SameEpoch(t, t1, name) && SameEpoch(t2, u, name);
    SameClaims(t, t1, name, g, b, configs[g].group);
    SameClaims(t2, u, name, g, b, configs[g].group);
    forall e | e in mine && e != name
      ensures SameEpoch(t, u, e)
    {
      assert SameEpoch(t, t1, e) && SameEpoch(t1, t2, e) && SameEpoch(t2, u, e);
      SameEpochTwice(t, t1, t2, e);
      SameEpochTwice(t, t2, u, e);
    }
  }

  lemma SameClaims(t: Tables, u: Tables, e: Id, g: GroupId, b: nat, n: nat)
    requires SameEpoch(t, u, e)
    ensures e in u.pending <==> e in t.pending
    ensures HeldBy(t, e, g, b) <==> HeldBy(u, e, g, b)
    ensures RecordedBy(t, e, g, b, n) <==> RecordedBy(u, e, g, b, n)
  {
  }

  lemma AllTurns(configs: Configs, t: Tables, requests: map<Id, Request>, scheduled: seq<Schedule>,
                 rollback: map<Id, nat>, epochs: map<Id, Id>, mine: iset<Id>, j: nat, f: Follow, k': Track,
                 g: GroupId, l: nat, b: nat)
    requires ValidConfigs(configs) && t.stepBlocks.Keys == configs.Keys && DistinctRequests(scheduled)
    requires j < |scheduled| && scheduled[j].req in requests
    requires var r := scheduled[j].req;
      && Epochs(t, r, mine) && Follows(configs, ViewOf(t, r), f) && f != Lost
      && NamesApart(r, mine, requests, scheduled, epochs)
      && OthersMiss(configs, requests, scheduled, epochs, r, mine, g, b)
      && Enters(configs, LatestOf(t, r), EpochName(epochs, r), f, requests[r], scheduled[j].tokens,
                GetOr(rollback, r, 0), Tracked(k'))
      && (EpochName(epochs, r) in t.pending ==> EpochName(epochs, r) in LatestOf(t, r))
    requires InTables(configs, k'.ids, g) && SurelyFull(configs[g], k'.lo, l) && Clear(t, mine, g, b)
    requires InTable(k'.ids[g], l, configs[g].perManager) && b == PhysicalBlock(k'.ids[g], l, configs[g].perManager)
    ensures var r := scheduled[j].req;
      Turned(configs, t, ScheduleAll(configs, t, requests, scheduled, rollback, epochs), EpochName(epochs, r), f,
             GetOr(rollback, r, 0), mine, g, b, l)
  {
    hide ScheduleOne, ScheduleAll, Follows, Enters, EpochName, Clear, TableApart, SurelyFull, PhysicalBlock, Turned;
    hide EpochInvariant, NamedApart, SameStep;
    var r, s, pre, post := scheduled[j].req, scheduled[j], scheduled[..j], scheduled[j + 1..];
    assert s in scheduled;
    assert scheduled == (pre + [s]) + post;
    var t1 := ScheduleAll(configs, t, requests, pre, rollback, epochs);
    var t2 := ScheduleOne(configs, t1, requests, s, rollback, epochs);
    assert !IsScheduled(r, requests, pre) && !IsScheduled(r, requests, post);
    OthersTurns(configs, t, requests, pre, rollback, epochs, r, mine, g, b);
    ScheduledWithout(configs, t, requests, pre, rollback, epochs, r, mine);
    LatestOfView(t, t1, r);
    assert SameEpoch(t, t1, EpochName(epochs, r));
    OwnTurn(configs, t1, requests, s, rollback, epochs, mine, f, k', g, l, b);
    TurnClears(configs, t1, t2, EpochName(epochs, r), f, GetOr(rollback, r, 0), mine, g, b, l);
    OthersTurns(configs, t2, requests, post, rollback, epochs, r, mine, g, b);
    var u := ScheduleAll(configs, t2, requests, post, rollback, epochs);
    TurnAmongOthers(configs, t, t1, t2, u, EpochName(epochs, r), f, GetOr(rollback, r, 0), mine, g, b, l);
    OneMoreScheduled(configs, t, requests, pre, s, rollback, epochs);
    ScheduleParts(configs, t, requests, pre + [s], post, rollback, epochs);
  }

  lemma LatestOfView(t: Tables, u: Tables, r: Id)
    requires ViewOf(t, r) == ViewOf(u, r)
    ensures LatestOf(t, r) == LatestOf(u, r)
  {
  }

  lemma TurnClears(configs: Configs, t: Tables, u: Tables, name: Id, f: Follow, rollback: nat, mine: iset<Id>,
                   g: GroupId, b: nat, l: nat)
    requires ValidConfigs(configs) && g in configs && Turned(configs, t, u, name, f, rollback, mine, g, b, l)
    ensures Clear(u, mine, g, b) && g in u.stepBlocks
  {
    hide Clear, SurelyFull;
  }

  lemma OneMoreScheduled(configs: Configs, t: Tables, requests: map<Id, Request>, pre: seq<Schedule>, s: Schedule,
                         rollback: map<Id, nat>, epochs: map<Id, Id>)
    requires ValidConfigs(configs)
    ensures ScheduleAll(configs, t, requests, pre + [s], rollback, epochs)
         == ScheduleOne(configs, ScheduleAll(configs, t, requests, pre, rollback, epochs), requests, s, rollback,
             epochs)
  {
    hide ScheduleOne;
    assert (pre + [s])[..|pre|] == pre;
  }

  // ---- the start of a step ----

  lemma BeginFields(configs: Configs, t: Tables, removed: set<Id>)
    ensures var u, gone := BeginStep(configs, t, removed), EpochsOf(t.epochOwners, removed);
      && u.resolved == map[] && u.stepBlocks.Keys == configs.Keys && u.pending == t.pending - gone
      && u.epochBlocks == t.epochBlocks - gone && u.epochOwners == t.epochOwners - gone
  {
    hide ConsumedGroup, EpochsOf;
  }

  /** The step tables start with what the settled epochs publish. */
  lemma BeginIsJoin(configs: Configs, t: Tables, removed: set<Id>, g: GroupId)
    requires g in configs
    ensures var u := BeginStep(configs, t, removed);
      g in u.stepBlocks && u.stepBlocks[g] == JoinOf(GroupSources(t.resolved, g) + {map[]})
  {
    hide JoinOf, IsJoin;
  }

  lemma BeginRecords(configs: Configs, t: Tables, removed: set<Id>, g: GroupId, b: nat, n: nat)
    requires g in configs
    requires forall e :: e in t.resolved && b in GroupKeys(t.resolved[e], g) ==> AtLeast(t.resolved[e][g], b, n)
    ensures var u := BeginStep(configs, t, removed);
      g in u.stepBlocks && (b in u.stepBlocks[g] ==> AtLeast(u.stepBlocks[g], b, n))
  {
    hide JoinOf, IsJoin, BeginStep, AtLeast;
    BeginIsJoin(configs, t, removed, g);
    var sources := GroupSources(t.resolved, g) + {map[]};
    if b in JoinOf(sources) {
      var s := JoinOfKey(sources, b);
      var e :| e in t.resolved && s == GetOr(t.resolved[e], g, map[]);
      JoinKeepsLeast(sources, s, b, n);
    }
  }

  lemma BeginWithout(configs: Configs, t: Tables, removed: set<Id>, g: GroupId, b: nat)
    requires g in configs && forall e :: e in t.resolved ==> b !in GroupKeys(t.resolved[e], g)
    ensures var u := BeginStep(configs, t, removed); g in u.stepBlocks && b !in u.stepBlocks[g]
  {
    hide JoinOf, IsJoin, BeginStep, AtLeast;
    BeginIsJoin(configs, t, removed, g);
    var sources := GroupSources(t.resolved, g) + {map[]};
    forall s | s in sources
      ensures b !in s
    {
      if s != map[] {
        var e :| e in t.resolved && s == GetOr(t.resolved[e], g, map[]);
      }
    }
    if b in JoinOf(sources) {
      var s := JoinOfKey(sources, b);
      assert false;
    }
  }

  /** Epochs of the followed request at the start of a step. */
  lemma BeginEpochs(configs: Configs, t: Tables, removed: set<Id>, r: Id, mine: iset<Id>, e: Id)
    requires Epochs(t, r, mine) && e in mine
    ensures r !in removed ==> SameEpoch(t, BeginStep(configs, t, removed), e)
    ensures r in removed ==>
      e !in BeginStep(configs, t, removed).pending && e !in BeginStep(configs, t, removed).epochBlocks
  {
    hide BeginStep, EpochsCovered, LatestIsOpen;
    BeginFields(configs, t, removed);
  }

  lemma BeginIsClear(configs: Configs, t: Tables, removed: set<Id>, mine: iset<Id>, g: GroupId, b: nat)
    requires g in configs && forall e :: e in t.pending && e !in mine ==> b !in GroupKeys(t.pending[e], g)
    ensures Clear(BeginStep(configs, t, removed), mine, g, b) && g in BeginStep(configs, t, removed).stepBlocks
  {
    hide BeginStep;
    BeginFields(configs, t, removed);
  }

  // ---- epochs in the order in which they were opened ----

  lemma EnterEpochs(configs: Configs, t: Tables, q: Id, epoch: Id, request: Request, tokens: nat, rollback: nat, e: Id)
    requires ValidConfigs(configs) && epoch != e
    ensures SameEpoch(t, Enter(configs, t, q, epoch, request, tokens, rollback), e)
  {
    hide Enter, ScheduledPending, ScheduledFull, ScheduledStep, RetainedBlocks;
    EnterFields(configs, t, q, epoch, request, tokens, rollback);
  }

  lemma ClearedEpochs(configs: Configs, t: Tables, epoch: Id, request: Request, e: Id)
    requires ValidConfigs(configs) && epoch != e
    ensures SameEpoch(t, Cleared(configs, t, epoch, request), e)
  {
    hide Resolve, MergeGroups;
    if epoch in t.pending {
      ResolveFields(configs, t, epoch, request, request.computed);
    }
  }

  lemma TurnEpochs(configs: Configs, t: Tables, requests: map<Id, Request>, s: Schedule, rollback: map<Id, nat>,
                   epochs: map<Id, Id>, e: Id)
    requires ValidConfigs(configs) && (s.req in requests ==> EpochName(epochs, s.req) != e)
    ensures SameEpoch(t, ScheduleOne(configs, t, requests, s, rollback, epochs), e)
  {
    hide Enter, Cleared, ScheduleOne, SameEpoch, EpochName;
    if s.req in requests {
      var q, request, epoch, back := s.req, requests[s.req], EpochName(epochs, s.req), GetOr(rollback, s.req, 0);
      var cleared := Cleared(configs, t, epoch, request);
      ScheduleOneIs(configs, t, requests, s, rollback, epochs);
      ClearedEpochs(configs, t, epoch, request, e);
      EnterEpochs(configs, cleared, q, epoch, request, s.tokens, back, e);
      SameEpochTwice(t, cleared, Enter(configs, cleared, q, epoch, request, s.tokens, back), e);
    } else {
      UnknownRequest(configs, t, requests, s, rollback, epochs);
      SameAsItself(t, e);
    }
  }

  lemma {:induction false} AllTurnsEpochs(configs: Configs, t: Tables, requests: map<Id, Request>,
                                          scheduled: seq<Schedule>, rollback: map<Id, nat>, epochs: map<Id, Id>, e: Id)
    requires ValidConfigs(configs)
    requires forall s :: s in scheduled && s.req in requests ==> EpochName(epochs, s.req) != e
    ensures SameEpoch(t, ScheduleAll(configs, t, requests, scheduled, rollback, epochs), e)
  {
    hide ScheduleOne, SameEpoch, EpochName;
    if scheduled == [] {
      SameAsItself(t, e);
    } else {
      var front, last := scheduled[..|scheduled| - 1], scheduled[|scheduled| - 1];
      var before := ScheduleAll(configs, t, requests, front, rollback, epochs);
      assert last in scheduled;
      AllTurnsEpochs(configs, t, requests, front, rollback, epochs, e);
      TurnEpochs(configs, before, requests, last, rollback, epochs, e);
      SameEpochTwice(t, before, ScheduleOne(configs, before, requests, last, rollback, epochs), e);
    }
  }

  lemma SameAsItself(t: Tables, e: Id)
    ensures SameEpoch(t, t, e)
  {
  }

  /** The latest epoch after the request's turn. */
  lemma TurnLatest(configs: Configs, t: Tables, requests: map<Id, Request>, s: Schedule, rollback: map<Id, nat>,
                   epochs: map<Id, Id>, mine: iset<Id>)
    requires ValidConfigs(configs) && Epochs(t, s.req, mine) && t.stepBlocks.Keys == configs.Keys && s.req in requests
    requires var name := EpochName(epochs, s.req);
      name in t.pending ==> name in LatestOf(t, s.req) && s.req in t.requestBlocks
    ensures var u, name := ScheduleOne(configs, t, requests, s, rollback, epochs), EpochName(epochs, s.req);
      LatestOf(u, s.req) == if name in u.pending then {name} else LatestOf(t, s.req) - {name}
  {
    hide Enter, Resolve, ConsumeResolved, EpochInvariant, NamedApart, ScheduleOne, EpochName, ScheduledPending, Cleared;
    hide ScheduledGroups, ScheduledFull, ScheduledStep;
    var r, request, name := s.req, requests[s.req], EpochName(epochs, s.req);
    var back, cleared := GetOr(rollback, r, 0), Cleared(configs, t, name, request);
    ScheduleOneIs(configs, t, requests, s, rollback, epochs);
    ClearedKeeps(configs, t, name, request, r, mine);
    LatestIsMine(t, r, mine);
    ClearedLatest(configs, t, name, request, r, mine);
    EnterView(configs, cleared, r, name, request, s.tokens, back);
    EnterFields(configs, cleared, r, name, request, s.tokens, back);
  }

  lemma ClearedLatest(configs: Configs, t: Tables, name: Id, request: Request, r: Id, mine: iset<Id>)
    requires ValidConfigs(configs) && Epochs(t, r, mine)
    requires name in t.pending ==> name in LatestOf(t, r) && r in t.requestBlocks
    ensures LatestOf(Cleared(configs, t, name, request), r) == LatestOf(t, r) - {name}
  {
    hide Resolve, ConsumeResolved, EpochInvariant, NamedApart, ViewOf;
    LatestIsMine(t, r, mine);
    if name in t.pending {
      ResolveView(configs, t, r, name, request, request.computed);
      ResolveNamed(configs, t, name, request, request.computed, r, mine);
      ConsumeView(Resolve(configs, t, name, request, request.computed), name, r, mine);
      LatestIsOne(t, Resolve(configs, t, name, request, request.computed), r, name);
    }
  }

  lemma LatestIsOne(t: Tables, u: Tables, r: Id, name: Id)
    requires name in LatestOf(t, r) && ViewOf(u, r).latest == {}
    ensures LatestOf(u, r) == LatestOf(t, r) - {name}
  {
  }

  lemma AllTurnsLatest(configs: Configs, t: Tables, requests: map<Id, Request>, scheduled: seq<Schedule>,
                       rollback: map<Id, nat>, epochs: map<Id, Id>, mine: iset<Id>, j: nat)
    requires ValidConfigs(configs) && t.stepBlocks.Keys == configs.Keys && DistinctRequests(scheduled)
    requires j < |scheduled| && scheduled[j].req in requests
    requires var r := scheduled[j].req;
      && Epochs(t, r, mine) && NamesApart(r, mine, requests, scheduled, epochs)
      && (EpochName(epochs, r) in t.pending ==> EpochName(epochs, r) in LatestOf(t, r) && r in t.requestBlocks)
    ensures var r, u := scheduled[j].req, ScheduleAll(configs, t, requests, scheduled, rollback, epochs);
      LatestOf(u, r) == if EpochName(epochs, r) in u.pending then {EpochName(epochs, r)}
                        else LatestOf(t, r) - {EpochName(epochs, r)}
  {
    hide ScheduleOne, ScheduleAll, EpochName, EpochInvariant, NamedApart, ViewOf, LatestOf;
    var r, s, pre, post := scheduled[j].req, scheduled[j], scheduled[..j], scheduled[j + 1..];
    var name := EpochName(epochs, r);
    assert s in scheduled;
    assert scheduled == (pre + [s]) + post;
    assert !IsScheduled(r, requests, pre) && !IsScheduled(r, requests, post);
    var t1 := ScheduleAll(configs, t, requests, pre, rollback, epochs);
    var t2 := ScheduleOne(configs, t1, requests, s, rollback, epochs);
    var u := ScheduleAll(configs, t2, requests, post, rollback, epochs);
    ScheduledWithout(configs, t, requests, pre, rollback, epochs, r, mine);
    LatestOfView(t, t1, r);
    PresentInView(t, t1, r);
    NameKept(configs, t, requests, pre, rollback, epochs, r, mine, name);
    TurnLatest(configs, t1, requests, s, rollback, epochs, mine);
    OthersScheduled(configs, t1, requests, s, rollback, epochs, r, mine);
    ScheduledWithout(configs, t2, requests, post, rollback, epochs, r, mine);
    LatestOfView(t2, u, r);
    NameKept(configs, t2, requests, post, rollback, epochs, r, mine, name);
    OneMoreScheduled(configs, t, requests, pre, s, rollback, epochs);
    ScheduleParts(configs, t, requests, pre + [s], post, rollback, epochs);
  }

  lemma PresentInView(t: Tables, u: Tables, r: Id)
    requires ViewOf(t, r) == ViewOf(u, r)
    ensures r in t.requestBlocks <==> r in u.requestBlocks
  {
  }

  lemma NameKept(configs: Configs, t: Tables, requests: map<Id, Request>, scheduled: seq<Schedule>,
                 rollback: map<Id, nat>, epochs: map<Id, Id>, r: Id, mine: iset<Id>, name: Id)
    requires ValidConfigs(configs) && NamesApart(r, mine, requests, scheduled, epochs) && name in mine
    requires !IsScheduled(r, requests, scheduled)
    ensures name in ScheduleAll(configs, t, requests, scheduled, rollback, epochs).pending <==> name in t.pending
  {
    hide ScheduleAll, EpochName;
    forall s | s in scheduled && s.req in requests
      ensures EpochName(epochs, s.req) != name
    {
      var j :| 0 <= j < |scheduled| && scheduled[j] == s;
      assert s.req == r ==> IsScheduled(r, requests, scheduled);
    }
    AllTurnsEpochs(configs, t, requests, scheduled, rollback, epochs, name);
  }

  // ---- runs ----

  /** A moment of a run: the tables, the followed request with its open epochs, oldest first, and what the
      slot manager was shown by the last step: the needed blocks, and where the request surely ended. */
  datatype Mark = Mark(tables: Tables, follow: Follow, open: seq<Id>, base: nat, noted: Blocks)

  /** The open epochs of the request are those listed, and the last one opened is its latest. */
  ghost predicate InOrder(t: Tables, r: Id, mine: iset<Id>, open: seq<Id>) {
    && (forall i, j :: 0 <= i < j < |open| ==> open[i] != open[j])
    && (forall e :: e in open <==> e in mine && e in t.pending)
    && LatestOf(t, r) == if open == [] then {} else {open[|open| - 1]}
  }

  /** The followed request as a step finds it. */
  function FollowBefore(m: Mark, r: Id, removed: set<Id>): Follow {
    if r in removed then Absent else m.follow
  }

  function OpenBefore(m: Mark, r: Id, removed: set<Id>): seq<Id> {
    if r in removed then [] else m.open
  }

  /** A step may give a new name while older epochs are open, as long as it opens the new one too; or it may
      reuse the name of the only open epoch, which is then settled first. */
  ghost predicate StepInOrder(r: Id, event: Event, was: seq<Id>, now: seq<Id>, after: Tables)
    requires event.Step?
  {
    if IsScheduled(r, event.requests, event.scheduled) then
      var name := EpochName(event.epochs, r);
      && (was == [] || was == [name] || (name !in was && GetOr(event.rollback, r, 0) > 0))
      && now == (if was == [name] then [] else was) + (if name in after.pending then [name] else [])
    else now == was
  }

  /** Nothing of the request's table `own` is held for anybody else. */
  ghost predicate NotShared(configs: Configs, r: Id, mine: iset<Id>, g: GroupId, own: set<nat>, t: Tables,
                            event: Event, u: Tables)
    requires ValidConfigs(configs) && event.Step?
  {
    && (forall e :: e in t.resolved && (e !in mine || r in event.removed) ==> GroupKeys(t.resolved[e], g) !! own)
    && (forall e :: e in t.pending && e !in mine ==> GroupKeys(t.pending[e], g) !! own)
    && OthersApart(configs, event.requests, event.scheduled, r, g, own)
    && (forall q :: q in u.requestBlocks && q != r ==> GroupKeys(u.requestBlocks[q], g) !! own)
    && (forall e :: e in u.epochBlocks && e !in mine ==> GroupKeys(u.epochBlocks[e], g) !! own)
  }

  function OwnBlocks(configs: Configs, f: Follow, g: GroupId): set<nat>
    requires ValidConfigs(configs)
  {
    if f.Tracked? && InTables(configs, f.track.ids, g) then AllBlocks(f.track.ids[g], configs[g].perManager) else {}
  }

  /** One tracker call.  Epochs of the request are dropped oldest first, and settled only alone. */
  ghost predicate Call(configs: Configs, r: Id, mine: iset<Id>, g: GroupId, m: Mark, event: Event, m': Mark)
    requires ValidConfigs(configs)
  {
    && m'.tables == Apply(configs, m.tables, event) && m'.follow != Lost
    && Moves(configs, r, mine, LatestOf(m.tables, r), m.follow, event, m'.follow)
    && match event
       case Step(requests, scheduled, removed, rollback, epochs) =>
         && StepInOrder(r, event, OpenBefore(m, r, removed), m'.open, m'.tables)
         && NotShared(configs, r, mine, g, OwnBlocks(configs, m'.follow, g), m.tables, event, m'.tables)
         && m'.noted == BlockFills(m'.tables, g)
         && m'.base == (if m'.follow.Tracked? then m'.follow.track.lo else 0)
       case Settle(epoch, request, actual) =>
         && m'.noted == m.noted && m'.base == m.base
         && (if epoch in m.open then m.open == [epoch] && m'.open == [] else m'.open == m.open)
       case Drop(epoch) =>
         && m'.noted == m.noted && m'.base == m.base
         && (if epoch in m.open then epoch == m.open[0] && m'.open == m.open[1..] else m'.open == m.open)
       case Forget(q) => q != r && m'.noted == m.noted && m'.base == m.base && m'.open == m.open
  }

  ghost predicate MarkedRun(configs: Configs, r: Id, mine: iset<Id>, g: GroupId, marks: seq<Mark>, events: seq<Event>)
    requires ValidConfigs(configs)
  {
    && |marks| == |events| + 1 && marks[0] == Mark(NO_TABLES, Absent, [], 0, map[])
    && forall i :: 0 <= i < |events| ==> Call(configs, r, mine, g, marks[i], events[i], marks[i + 1])
  }

  // ---- the invariant ----

  /** Some epoch of the request, settled since the last step, has the block still to publish. */
  ghost predicate OwnUnpublished(t: Tables, mine: iset<Id>, g: GroupId, b: nat, n: nat) {
    exists e :: e in mine && e in t.resolved && g in t.resolved[e] && AtLeast(t.resolved[e][g], b, n)
  }

  /** An epoch that holds the block short of full is covered by one opened no earlier that has it full. */
  ghost predicate Covered(t: Tables, open: seq<Id>, i: nat, g: GroupId, b: nat, n: nat) {
    i < |open| && HeldBy(t, open[i], g, b) ==> exists j :: i <= j < |open| && RecordedBy(t, open[j], g, b, n)
  }

  /** What is known of block `b`, the request's block `l`. */
  ghost predicate BlockOk(cfg: GroupConfig, mine: iset<Id>, g: GroupId, m: Mark, lo: nat, l: nat, b: nat)
    requires cfg.Valid()
  {
    && (SurelyFull(cfg, lo, l) ==>
          && (forall i: nat :: Covered(m.tables, m.open, i, g, b, cfg.group))
          && (forall e :: e in mine && e in m.tables.resolved && b in GroupKeys(m.tables.resolved[e], g) ==>
                AtLeast(m.tables.resolved[e][g], b, cfg.group))
          && (SurelyFull(cfg, m.base, l) || OwnUnpublished(m.tables, mine, g, b, cfg.group)))
    && (SurelyFull(cfg, m.base, l) && b in m.noted ==> AtLeast(m.noted, b, cfg.group))
  }

  ghost predicate BlocksOk(configs: Configs, mine: iset<Id>, g: GroupId, m: Mark, k: Track)
    requires ValidConfigs(configs) && InTables(configs, k.ids, g)
  {
    && (m.open != [] ==> m.base == k.lo && forall e :: e in mine ==> e !in m.tables.resolved)
    && forall l: nat :: InTable(k.ids[g], l, configs[g].perManager) ==>
         BlockOk(configs[g], mine, g, m, k.lo, l, PhysicalBlock(k.ids[g], l, configs[g].perManager))
  }

  ghost predicate MarkOk(configs: Configs, r: Id, mine: iset<Id>, g: GroupId, m: Mark)
    requires ValidConfigs(configs)
  {
    && Epochs(m.tables, r, mine) && m.follow != Lost && Follows(configs, ViewOf(m.tables, r), m.follow)
    && InOrder(m.tables, r, mine, m.open)
    && (m.follow == Absent ==> forall e :: e in mine ==> e !in m.tables.resolved)
    && (m.follow.Tracked? && InTables(configs, m.follow.track.ids, g) ==>
          BlocksOk(configs, mine, g, m, m.follow.track))
  }

  // ---- one step ----

  /** A step of a run, seen from block `b` of the followed request, its block `l`, which is surely full
      afterwards. */
  ghost predicate StepCase(configs: Configs, r: Id, mine: iset<Id>, g: GroupId, m: Mark, event: Event, m': Mark,
                           l: nat, b: nat)
    requires ValidConfigs(configs)
  {
    && MarkOk(configs, r, mine, g, m) && Call(configs, r, mine, g, m, event, m') && event.Step?
    && m'.follow.Tracked? && InTables(configs, m'.follow.track.ids, g)
    && SurelyFull(configs[g], m'.follow.track.lo, l)
    && InTable(m'.follow.track.ids[g], l, configs[g].perManager)
    && b == PhysicalBlock(m'.follow.track.ids[g], l, configs[g].perManager)
  }

  /** The block was not surely full when the step began. */
  predicate Doubted(cfg: GroupConfig, f: Follow, l: nat)
    requires cfg.Valid()
  {
    f.Tracked? && !SurelyFull(cfg, f.track.lo, l)
  }

  ghost predicate StepsTo(configs: Configs, t: Tables, u: Tables, f: Follow, mine: iset<Id>, g: GroupId, b: nat, l: nat)
    requires ValidConfigs(configs) && g in configs
  {
    && Clear(u, mine, g, b) && (SameStep(t, u, g, b) || Stepped(u, g, b, configs[g].group))
    && (Doubted(configs[g], f, l) ==> Stepped(u, g, b, configs[g].group))
  }

  lemma NothingShared(configs: Configs, r: Id, mine: iset<Id>, g: GroupId, m: Mark, event: Event, m': Mark, l: nat,
                      b: nat)
    requires ValidConfigs(configs) && StepCase(configs, r, mine, g, m, event, m', l, b)
    ensures NotShared(configs, r, mine, g, {b}, m.tables, event, m'.tables)
  {
    hide MarkOk, Moves, AllBlocks, PhysicalBlock, SurelyFull, Apply, BlockFills, GroupKeys;
    var own := OwnBlocks(configs, m'.follow, g);
    OwnInAll(m'.follow.track.ids[g], configs[g].perManager, l);
    assert b in own;
    forall s | s in event.scheduled && s.req in event.requests && s.req != r
      ensures TableApart(configs, event.requests[s.req], g, {b})
    {
    }
  }

  lemma OthersMissIt(configs: Configs, r: Id, mine: iset<Id>, g: GroupId, event: Event, t: Tables, u: Tables, b: nat)
    requires ValidConfigs(configs) && event.Step? && NotShared(configs, r, mine, g, {b}, t, event, u)
    requires NamesApart(r, mine, event.requests, event.scheduled, event.epochs)
    ensures OthersMiss(configs, event.requests, event.scheduled, event.epochs, r, mine, g, b)
  {
    hide TableApart, EpochName, GroupKeys;
  }

  lemma BeginCase(configs: Configs, r: Id, mine: iset<Id>, g: GroupId, m: Mark, event: Event)
    requires ValidConfigs(configs) && MarkOk(configs, r, mine, g, m) && event.Step?
    ensures var begun := BeginStep(configs, m.tables, event.removed);
      && Epochs(begun, r, mine) && begun.stepBlocks.Keys == configs.Keys
      && Follows(configs, ViewOf(begun, r), FollowBefore(m, r, event.removed))
      && LatestOf(begun, r) == if r in event.removed then {} else LatestOf(m.tables, r)
  {
    hide BeginStep, EpochInvariant, NamedApart, ViewOf, InOrder, BlocksOk, Agrees;
    BeginView(configs, m.tables, event.removed, r, mine);
    BeginStepKeys(configs, m.tables, event.removed);
    LatestInView(m.tables, r);
    LatestInView(BeginStep(configs, m.tables, event.removed), r);
  }

  lemma LatestInView(t: Tables, r: Id)
    ensures ViewOf(t, r).latest == LatestOf(t, r)
  {
  }

  /** The request's name is either not open or its latest epoch. */
  lemma NameIsLatest(configs: Configs, r: Id, mine: iset<Id>, g: GroupId, m: Mark, event: Event, after: Tables,
                     now: seq<Id>)
    requires ValidConfigs(configs) && MarkOk(configs, r, mine, g, m) && event.Step?
    requires StepInOrder(r, event, OpenBefore(m, r, event.removed), now, after)
    requires IsScheduled(r, event.requests, event.scheduled)
    requires NamesApart(r, mine, event.requests, event.scheduled, event.epochs)
    ensures var begun, name := BeginStep(configs, m.tables, event.removed), EpochName(event.epochs, r);
      && name in mine && (name in begun.pending <==> name in OpenBefore(m, r, event.removed))
      && (name in begun.pending ==> name in LatestOf(begun, r) && r in begun.requestBlocks)
  {
    hide BeginStep, EpochInvariant, NamedApart, ViewOf, BlocksOk, Agrees, EpochName, SameEpoch;
    var begun, name := BeginStep(configs, m.tables, event.removed), EpochName(event.epochs, r);
    var j :| 0 <= j < |event.scheduled| && event.scheduled[j].req == r;
    assert event.scheduled[j] in event.scheduled;
    BeginCase(configs, r, mine, g, m, event);
    BeginEpochs(configs, m.tables, event.removed, r, mine, name);
    if r !in event.removed {
      SamePending(m.tables, begun, name);
    }
    if name in begun.pending {
      TrackedIsPresent(configs, begun, r, FollowBefore(m, r, event.removed));
    }
  }

  lemma SamePending(t: Tables, u: Tables, e: Id)
    requires SameEpoch(t, u, e)
    ensures e in t.pending <==> e in u.pending
  {
  }

  lemma TrackedIsPresent(configs: Configs, t: Tables, r: Id, f: Follow)
    requires ValidConfigs(configs) && Follows(configs, ViewOf(t, r), f) && f != Lost && LatestOf(t, r) != {}
    ensures f.Tracked? && r in t.requestBlocks
  {
  }

  /** The request is scheduled. */
  lemma ScheduledCase(configs: Configs, r: Id, mine: iset<Id>, g: GroupId, m: Mark, event: Event, m': Mark, l: nat,
                      b: nat)
    requires ValidConfigs(configs) && StepCase(configs, r, mine, g, m, event, m', l, b)
    requires IsScheduled(r, event.requests, event.scheduled)
    ensures Turned(configs, BeginStep(configs, m.tables, event.removed), m'.tables, EpochName(event.epochs, r),
                   FollowBefore(m, r, event.removed), GetOr(event.rollback, r, 0), mine, g, b, l)
  {
    hide BeginStep, EpochInvariant, NamedApart, ViewOf, BlocksOk, Agrees, EpochName, Turned, ScheduleAll, Enters;
    hide LatestOf;
    hide PhysicalBlock, SurelyFull, BlockFills, OthersMiss, StepInOrder, Follows, GroupKeys, MarkOk, NotShared, Clear;
    var begun := BeginStep(configs, m.tables, event.removed);
    NothingShared(configs, r, mine, g, m, event, m', l, b);
    OthersMissIt(configs, r, mine, g, event, m.tables, m'.tables, b);
    SharedIsClear(configs, r, mine, g, event, m.tables, m'.tables, b);
    BeginIsClear(configs, m.tables, event.removed, mine, g, b);
    BeginCase(configs, r, mine, g, m, event);
    NameIsLatest(configs, r, mine, g, m, event, m'.tables, m'.open);
    KeptIsTracked(configs, r, mine, g, m);
    var j :| 0 <= j < |event.scheduled| && event.scheduled[j].req == r;
    assert event.scheduled[j] in event.scheduled;
    AllTurns(configs, begun, event.requests, event.scheduled, event.rollback, event.epochs, mine, j,
             FollowBefore(m, r, event.removed), m'.follow.track, g, l, b);
  }

  lemma SharedIsClear(configs: Configs, r: Id, mine: iset<Id>, g: GroupId, event: Event, t: Tables, u: Tables, b: nat)
    requires ValidConfigs(configs) && event.Step? && NotShared(configs, r, mine, g, {b}, t, event, u)
    ensures forall e :: e in t.pending && e !in mine ==> b !in GroupKeys(t.pending[e], g)
  {
    hide GroupKeys, OthersApart;
  }

  lemma KeptIsTracked(configs: Configs, r: Id, mine: iset<Id>, g: GroupId, m: Mark)
    requires ValidConfigs(configs) && MarkOk(configs, r, mine, g, m)
    ensures m.follow != Lost
  {
    hide BlocksOk, Agrees, EpochInvariant;
  }

  /** The request is not scheduled. */
  lemma WaitingCase(configs: Configs, r: Id, mine: iset<Id>, g: GroupId, m: Mark, event: Event, m': Mark, l: nat,
                    b: nat)
    requires ValidConfigs(configs) && StepCase(configs, r, mine, g, m, event, m', l, b)
    requires !IsScheduled(r, event.requests, event.scheduled)
    ensures r !in event.removed && m'.follow == m.follow
    ensures var begun := BeginStep(configs, m.tables, event.removed);
      Clear(m'.tables, mine, g, b) && SameStep(begun, m'.tables, g, b) && KeepsEpochs(begun, m'.tables, mine)
  {
    hide BeginStep, EpochInvariant, NamedApart, ViewOf, BlocksOk, Agrees, EpochName, ScheduleAll, LatestOf;
    hide PhysicalBlock, SurelyFull, BlockFills, OthersMiss, StepInOrder, GroupKeys, MarkOk, NotShared, Clear;
    var begun := BeginStep(configs, m.tables, event.removed);
    NothingShared(configs, r, mine, g, m, event, m', l, b);
    OthersMissIt(configs, r, mine, g, event, m.tables, m'.tables, b);
    SharedIsClear(configs, r, mine, g, event, m.tables, m'.tables, b);
    BeginIsClear(configs, m.tables, event.removed, mine, g, b);
    OthersTurns(configs, begun, event.requests, event.scheduled, event.rollback, event.epochs, r, mine, g, b);
  }

  /** Either way: the step's tables after a step, seen from the block. */
  lemma StepCaseSteps(configs: Configs, r: Id, mine: iset<Id>, g: GroupId, m: Mark, event: Event, m': Mark, l: nat,
                      b: nat)
    requires ValidConfigs(configs) && StepCase(configs, r, mine, g, m, event, m', l, b)
    ensures StepsTo(configs, BeginStep(configs, m.tables, event.removed), m'.tables, FollowBefore(m, r, event.removed),
                    mine, g, b, l)
  {
    hide BeginStep, MarkOk, Call, SurelyFull, PhysicalBlock, Clear, SameStep, Stepped, GroupKeys, SameEpoch, RecordedBy;
    hide HeldBy;
    if IsScheduled(r, event.requests, event.scheduled) {
      ScheduledCase(configs, r, mine, g, m, event, m', l, b);
    } else {
      WaitingCase(configs, r, mine, g, m, event, m', l, b);
    }
  }

  /** What is known of the block before the step, if the request was followed into it. */
  lemma KnownBefore(configs: Configs, r: Id, mine: iset<Id>, g: GroupId, m: Mark, event: Event, m': Mark, l: nat,
                    b: nat)
    requires ValidConfigs(configs) && StepCase(configs, r, mine, g, m, event, m', l, b)
    requires var f := FollowBefore(m, r, event.removed); f.Tracked? && SurelyFull(configs[g], f.track.lo, l)
    ensures r !in event.removed && BlockOk(configs[g], mine, g, m, m.follow.track.lo, l, b)
  {
    hide BeginStep, EpochInvariant, NamedApart, ViewOf, EpochName, LatestOf, Holds, BlockOk, SurelyFull, PhysicalBlock;
    hide BlockFills, StepInOrder, NotShared, InOrder, KeepsExactly, FullWithin, PendingOfTrack, InNoDoubt, Apply;
    var k, k' := m.follow.track, m'.follow.track;
    TablesGrewTo(configs, r, mine, g, m, event, m');
    SameTables(configs, k.ids, k'.ids, g);
    assert Holds(configs[g], k.ids[g], k.hi);
    FullMeans(configs[g], k.ids[g], k.lo, k.hi, l);
    PhysicalPrefix(k.ids[g], k'.ids[g], configs[g].perManager, l);
  }

  lemma TablesGrewTo(configs: Configs, r: Id, mine: iset<Id>, g: GroupId, m: Mark, event: Event, m': Mark)
    requires ValidConfigs(configs) && MarkOk(configs, r, mine, g, m) && Call(configs, r, mine, g, m, event, m')
    requires event.Step? && r !in event.removed && m.follow.Tracked? && m'.follow.Tracked?
    ensures ExtendsTables(m.follow.track.ids, m'.follow.track.ids)
  {
    hide BlocksOk, Agrees, EpochInvariant, NotShared, StepInOrder, Apply, BlockFills, Overlaps, GoodTables, StaysSure;
    if IsScheduled(r, event.requests, event.scheduled) {
      var j :| 0 <= j < |event.scheduled| && event.scheduled[j].req == r;
      assert event.scheduled[j] in event.scheduled;
    } else {
      ExtendsItself(m.follow.track.ids);
    }
  }

  /** The step table claims the block full, if it has it at all. */
  lemma HonestStep(configs: Configs, r: Id, mine: iset<Id>, g: GroupId, m: Mark, event: Event, m': Mark, l: nat, b: nat)
    requires ValidConfigs(configs) && StepCase(configs, r, mine, g, m, event, m', l, b)
    ensures var u := m'.tables;
      g in u.stepBlocks && (b in u.stepBlocks[g] ==> AtLeast(u.stepBlocks[g], b, configs[g].group))
  {
    hide BeginStep, SurelyFull, PhysicalBlock, Clear, GroupKeys, AtLeast, Call, BlocksOk, ViewOf, EpochInvariant;
    hide NamedApart;
    hide InOrder, Agrees;
    StepCaseSteps(configs, r, mine, g, m, event, m', l, b);
    NothingShared(configs, r, mine, g, m, event, m', l, b);
    var t, n, f := m.tables, configs[g].group, FollowBefore(m, r, event.removed);
    if !Doubted(configs[g], f, l) {
      if f.Tracked? {
        KnownBefore(configs, r, mine, g, m, event, m', l, b);
        PublishedFull(configs, r, mine, g, m, event, m'.tables, l, b);
        BeginRecords(configs, t, event.removed, g, b, n);
      } else {
        assert forall e :: e in t.resolved ==> GroupKeys(t.resolved[e], g) !! {b};
        BeginWithout(configs, t, event.removed, g, b);
      }
      SameAtRecords(BeginStep(configs, t, event.removed), m'.tables, g, b, n);
    } else {
      SteppedIsRecorded(m'.tables, g, b, n);
    }
  }

  lemma SameAtRecords(t: Tables, u: Tables, g: GroupId, b: nat, n: nat)
    requires SameStep(t, u, g, b) || Stepped(u, g, b, n)
    requires g in t.stepBlocks && (b in t.stepBlocks[g] ==> AtLeast(t.stepBlocks[g], b, n))
    ensures g in u.stepBlocks && (b in u.stepBlocks[g] ==> AtLeast(u.stepBlocks[g], b, n))
  {
  }

  lemma SteppedIsRecorded(u: Tables, g: GroupId, b: nat, n: nat)
    requires Stepped(u, g, b, n)
    ensures g in u.stepBlocks && AtLeast(u.stepBlocks[g], b, n)
  {
  }

  lemma PublishedFull(configs: Configs, r: Id, mine: iset<Id>, g: GroupId, m: Mark, event: Event, u: Tables, l: nat,
                      b: nat)
    requires ValidConfigs(configs) && g in configs && event.Step? && m.follow.Tracked? && r !in event.removed
    requires NotShared(configs, r, mine, g, {b}, m.tables, event, u)
    requires BlockOk(configs[g], mine, g, m, m.follow.track.lo, l, b) && SurelyFull(configs[g], m.follow.track.lo, l)
    ensures forall e :: e in m.tables.resolved && b in GroupKeys(m.tables.resolved[e], g) ==>
      AtLeast(m.tables.resolved[e][g], b, configs[g].group)
  {
    hide GroupKeys, AtLeast, SurelyFull, OthersApart, Covered, OwnUnpublished;
  }

  /** An open epoch that holds the block is covered. */
  lemma CoveredAfter(configs: Configs, r: Id, mine: iset<Id>, g: GroupId, m: Mark, event: Event, m': Mark, l: nat,
                     b: nat, i: nat)
    requires ValidConfigs(configs) && StepCase(configs, r, mine, g, m, event, m', l, b)
    ensures Covered(m'.tables, m'.open, i, g, b, configs[g].group)
  {
    if i < |m'.open| && HeldBy(m'.tables, m'.open[i], g, b) {
      if IsScheduled(r, event.requests, event.scheduled) {
        CoveredScheduled(configs, r, mine, g, m, event, m', l, b, i);
      } else {
        CoveredWaiting(configs, r, mine, g, m, event, m', l, b, i);
      }
    }
  }

  lemma CoveredWaiting(configs: Configs, r: Id, mine: iset<Id>, g: GroupId, m: Mark, event: Event, m': Mark, l: nat,
                       b: nat, i: nat)
    requires ValidConfigs(configs) && StepCase(configs, r, mine, g, m, event, m', l, b)
    requires !IsScheduled(r, event.requests, event.scheduled)
    requires i < |m'.open| && HeldBy(m'.tables, m'.open[i], g, b)
    ensures exists j :: i <= j < |m'.open| && RecordedBy(m'.tables, m'.open[j], g, b, configs[g].group)
  {
    hide BeginStep, SurelyFull, PhysicalBlock, Clear, GroupKeys, AtLeast, BlocksOk, ViewOf, EpochInvariant, NamedApart;
    hide Agrees, HeldBy, RecordedBy, SameEpoch, NotShared, Apply, BlockFills, Moves;
    WaitingCase(configs, r, mine, g, m, event, m', l, b);
    KnownBefore(configs, r, mine, g, m, event, m', l, b);
    EpochCarried(configs, r, mine, g, m, event, m', b, m.open[i]);
    assert Covered(m.tables, m.open, i, g, b, configs[g].group);
    var j :| i <= j < |m.open| && RecordedBy(m.tables, m.open[j], g, b, configs[g].group);
    EpochCarried(configs, r, mine, g, m, event, m', b, m.open[j]);
  }

  /** Epochs of the request that the step does not name are as they were. */
  lemma EpochCarried(configs: Configs, r: Id, mine: iset<Id>, g: GroupId, m: Mark, event: Event, m': Mark, b: nat,
                     e: Id)
    requires ValidConfigs(configs) && g in configs && MarkOk(configs, r, mine, g, m) && event.Step?
    requires Call(configs, r, mine, g, m, event, m') && e in mine && r !in event.removed
    requires IsScheduled(r, event.requests, event.scheduled) ==> EpochName(event.epochs, r) != e
    ensures HeldBy(m.tables, e, g, b) <==> HeldBy(m'.tables, e, g, b)
    ensures RecordedBy(m.tables, e, g, b, configs[g].group) <==> RecordedBy(m'.tables, e, g, b, configs[g].group)
    ensures e in m'.tables.pending <==> e in m.tables.pending
  {
    hide BeginStep, EpochInvariant, NamedApart, ViewOf, BlocksOk, Agrees, EpochName, ScheduleAll, LatestOf, BlockFills;
    hide StepInOrder, NotShared, SameEpoch, HeldBy, RecordedBy, InOrder;
    var begun := BeginStep(configs, m.tables, event.removed);
    BeginEpochs(configs, m.tables, event.removed, r, mine, e);
    forall s | s in event.scheduled && s.req in event.requests
      ensures EpochName(event.epochs, s.req) != e
    {
      var j :| 0 <= j < |event.scheduled| && event.scheduled[j] == s;
      assert s.req == r ==> IsScheduled(r, event.requests, event.scheduled);
    }
    AllTurnsEpochs(configs, begun, event.requests, event.scheduled, event.rollback, event.epochs, e);
    SameEpochTwice(m.tables, begun, m'.tables, e);
    SameClaims(m.tables, m'.tables, e, g, b, configs[g].group);
  }

  lemma CoveredScheduled(configs: Configs, r: Id, mine: iset<Id>, g: GroupId, m: Mark, event: Event, m': Mark, l: nat,
                         b: nat, i: nat)
    requires ValidConfigs(configs) && StepCase(configs, r, mine, g, m, event, m', l, b)
    requires IsScheduled(r, event.requests, event.scheduled)
    requires i < |m'.open| && HeldBy(m'.tables, m'.open[i], g, b)
    ensures exists j :: i <= j < |m'.open| && RecordedBy(m'.tables, m'.open[j], g, b, configs[g].group)
  {
    hide BeginStep, SurelyFull, PhysicalBlock, Clear, GroupKeys, AtLeast, BlocksOk, ViewOf, EpochInvariant, NamedApart;
    hide Agrees, HeldBy, RecordedBy, SameEpoch, NotShared, Apply, BlockFills, EpochName;
    var name, n := EpochName(event.epochs, r), configs[g].group;
    var was, f := OpenBefore(m, r, event.removed), FollowBefore(m, r, event.removed);
    ScheduledCase(configs, r, mine, g, m, event, m', l, b);
    NameIsLatest(configs, r, mine, g, m, event, m'.tables, m'.open);
    if m'.open[i] == name {
      assert RecordedBy(m'.tables, name, g, b, n);
    } else {
      assert m'.open[i] == was[i] && r !in event.removed && name !in was && GetOr(event.rollback, r, 0) > 0;
      EpochCarried(configs, r, mine, g, m, event, m', b, was[i]);
      OpenIsTracked(configs, r, mine, g, m);
      if Doubted(configs[g], f, l) {
        assert RecordedBy(m'.tables, name, g, b, n) && m'.open[|m'.open| - 1] == name;
      } else {
        KnownBefore(configs, r, mine, g, m, event, m', l, b);
        assert Covered(m.tables, m.open, i, g, b, n);
        var j :| i <= j < |m.open| && RecordedBy(m.tables, m.open[j], g, b, n);
        EpochCarried(configs, r, mine, g, m, event, m', b, m.open[j]);
        assert m'.open[j] == m.open[j];
      }
    }
  }

  lemma OpenIsTracked(configs: Configs, r: Id, mine: iset<Id>, g: GroupId, m: Mark)
    requires ValidConfigs(configs) && MarkOk(configs, r, mine, g, m) && m.open != []
    ensures m.follow.Tracked?
  {
    hide BlocksOk, Agrees, EpochInvariant, NamedApart;
    LatestInView(m.tables, r);
  }

  // ---- what the slot manager is shown ----

  lemma FollowAfter(configs: Configs, r: Id, mine: iset<Id>, g: GroupId, m: Mark, event: Event, m': Mark)
    requires ValidConfigs(configs) && MarkOk(configs, r, mine, g, m) && Call(configs, r, mine, g, m, event, m')
    ensures Epochs(m'.tables, r, mine) && Follows(configs, ViewOf(m'.tables, r), m'.follow)
  {
    hide BlocksOk, InOrder, Agrees, Moves, Apply, ViewOf, LatestOf, NotShared, StepInOrder, BlockFills, Epochs;
    MoveAgrees(configs, m.tables, r, mine, m.follow, event, m'.follow);
  }

  /** Whatever holds the block after a step, some source has it full. */
  lemma HonestSource(configs: Configs, r: Id, mine: iset<Id>, g: GroupId, m: Mark, event: Event, m': Mark, l: nat,
                     b: nat, s: Blocks)
    requires ValidConfigs(configs) && StepCase(configs, r, mine, g, m, event, m', l, b)
    requires s in Sources(m'.tables, g) && b in s
    ensures exists x :: x in Sources(m'.tables, g) && AtLeast(x, b, configs[g].group)
  {
    hide SurelyFull, PhysicalBlock, AtLeast, Call, MarkOk, ViewOf, EpochInvariant, NamedApart;
    var u, n := m'.tables, configs[g].group;
    StepCaseSteps(configs, r, mine, g, m, event, m', l, b);
    NothingShared(configs, r, mine, g, m, event, m', l, b);
    if s == GetOr(u.stepBlocks, g, map[]) {
      HonestStep(configs, r, mine, g, m, event, m', l, b);
    } else if s in GroupSources(u.requestBlocks, g) {
      var q :| q in u.requestBlocks && s == GetOr(u.requestBlocks[q], g, map[]);
      assert q == r;
      HonestKept(configs, r, mine, g, m, event, m', l, b);
    } else if s in GroupSources(u.epochBlocks, g) {
      var e :| e in u.epochBlocks && s == GetOr(u.epochBlocks[e], g, map[]);
      HonestEpoch(configs, r, mine, g, m, event, m', l, b, e);
    }
  }

  lemma HonestKept(configs: Configs, r: Id, mine: iset<Id>, g: GroupId, m: Mark, event: Event, m': Mark, l: nat, b: nat)
    requires ValidConfigs(configs) && StepCase(configs, r, mine, g, m, event, m', l, b)
    requires r in m'.tables.requestBlocks && b in GetOr(m'.tables.requestBlocks[r], g, map[])
    ensures AtLeast(GetOr(m'.tables.requestBlocks[r], g, map[]), b, configs[g].group)
  {
    hide SurelyFull, PhysicalBlock, AtLeast, Call, MarkOk, EpochInvariant, NamedApart, WideBlocks, Holds, Distinct;
    hide FullWithin, PendingOfTrack, InNoDoubt;
    FollowAfter(configs, r, mine, g, m, event, m');
    var k := m'.follow.track;
    assert Distinct(k.ids[g]) && Holds(configs[g], k.ids[g], k.hi);
    KeptIsFull(configs[g], k.ids[g], k.lo, k.hi, l);
  }

  lemma HonestEpoch(configs: Configs, r: Id, mine: iset<Id>, g: GroupId, m: Mark, event: Event, m': Mark, l: nat,
                    b: nat, e: Id)
    requires ValidConfigs(configs) && StepCase(configs, r, mine, g, m, event, m', l, b)
    requires e in m'.tables.epochBlocks && b in GetOr(m'.tables.epochBlocks[e], g, map[])
    ensures exists x :: x in Sources(m'.tables, g) && AtLeast(x, b, configs[g].group)
  {
    hide SurelyFull, PhysicalBlock, AtLeast, Call, MarkOk, ViewOf, NamedApart, LatestIsOpen, EpochsCovered;
    var u, n := m'.tables, configs[g].group;
    NothingShared(configs, r, mine, g, m, event, m', l, b);
    assert e in mine;
    FollowAfter(configs, r, mine, g, m, event, m');
    OrderAfter(configs, r, mine, g, m, event, m');
    assert e in m'.open;
    var i :| 0 <= i < |m'.open| && m'.open[i] == e;
    CoveredAfter(configs, r, mine, g, m, event, m', l, b, i);
    var j :| i <= j < |m'.open| && RecordedBy(u, m'.open[j], g, b, n);
    var x := u.epochBlocks[m'.open[j]][g];
    assert GetOr(u.epochBlocks[m'.open[j]], g, map[]) in GroupSources(u.epochBlocks, g);
    assert x in Sources(u, g);
  }

  /** The list of open epochs stays in order. */
  lemma OrderAfter(configs: Configs, r: Id, mine: iset<Id>, g: GroupId, m: Mark, event: Event, m': Mark)
    requires ValidConfigs(configs) && g in configs && MarkOk(configs, r, mine, g, m) && event.Step?
    requires Call(configs, r, mine, g, m, event, m')
    ensures InOrder(m'.tables, r, mine, m'.open)
  {
    hide BlocksOk, Agrees, Apply, ViewOf, LatestOf, NotShared, BlockFills, EpochInvariant, NamedApart, EpochName;
    hide BeginStep;
    OpenAfter(configs, r, mine, g, m, event, m');
    LatestAfter(configs, r, mine, g, m, event, m');
    if IsScheduled(r, event.requests, event.scheduled) {
      NameIsLatest(configs, r, mine, g, m, event, m'.tables, m'.open);
    }
  }

  lemma OpenAfter(configs: Configs, r: Id, mine: iset<Id>, g: GroupId, m: Mark, event: Event, m': Mark)
    requires ValidConfigs(configs) && g in configs && MarkOk(configs, r, mine, g, m) && event.Step?
    requires Call(configs, r, mine, g, m, event, m')
    ensures forall e :: e in m'.open <==> e in mine && e in m'.tables.pending
  {
    hide BlocksOk, Agrees, ViewOf, LatestOf, NotShared, BlockFills, EpochInvariant, NamedApart, EpochName;
    hide BeginStep, ScheduleAll, HeldBy, RecordedBy;
    var was := OpenBefore(m, r, event.removed);
    if IsScheduled(r, event.requests, event.scheduled) {
      NameIsLatest(configs, r, mine, g, m, event, m'.tables, m'.open);
    }
    forall e | e in mine && (IsScheduled(r, event.requests, event.scheduled) ==> EpochName(event.epochs, r) != e)
      ensures e in m'.tables.pending <==> e in was
    {
      if r in event.removed {
        RemovedEpoch(configs, r, mine, g, m, event, m', e);
      } else {
        EpochCarried(configs, r, mine, g, m, event, m', 0, e);
      }
    }
    forall e
      ensures e in m'.open <==> e in mine && e in m'.tables.pending
    {
    }
  }

  lemma RemovedEpoch(configs: Configs, r: Id, mine: iset<Id>, g: GroupId, m: Mark, event: Event, m': Mark, e: Id)
    requires ValidConfigs(configs) && MarkOk(configs, r, mine, g, m) && event.Step?
    requires Call(configs, r, mine, g, m, event, m') && e in mine && r in event.removed
    requires IsScheduled(r, event.requests, event.scheduled) ==> EpochName(event.epochs, r) != e
    ensures e !in m'.tables.pending
  {
    hide BeginStep, EpochInvariant, NamedApart, ViewOf, BlocksOk, Agrees, EpochName, ScheduleAll, LatestOf, BlockFills;
    hide StepInOrder, NotShared, InOrder;
    var begun := BeginStep(configs, m.tables, event.removed);
    BeginEpochs(configs, m.tables, event.removed, r, mine, e);
    forall s | s in event.scheduled && s.req in event.requests
      ensures EpochName(event.epochs, s.req) != e
    {
      var j :| 0 <= j < |event.scheduled| && event.scheduled[j] == s;
      assert s.req == r ==> IsScheduled(r, event.requests, event.scheduled);
    }
    AllTurnsEpochs(configs, begun, event.requests, event.scheduled, event.rollback, event.epochs, e);
  }

  lemma LatestAfter(configs: Configs, r: Id, mine: iset<Id>, g: GroupId, m: Mark, event: Event, m': Mark)
    requires ValidConfigs(configs) && MarkOk(configs, r, mine, g, m) && event.Step?
    requires Call(configs, r, mine, g, m, event, m')
    ensures LatestOf(m'.tables, r) == if m'.open == [] then {} else {m'.open[|m'.open| - 1]}
  {
    hide BlocksOk, Agrees, ViewOf, LatestOf, NotShared, BlockFills, EpochInvariant, NamedApart, EpochName;
    hide BeginStep, ScheduleAll;
    var begun := BeginStep(configs, m.tables, event.removed);
    BeginCase(configs, r, mine, g, m, event);
    if IsScheduled(r, event.requests, event.scheduled) {
      var j :| 0 <= j < |event.scheduled| && event.scheduled[j].req == r;
      NameIsLatest(configs, r, mine, g, m, event, m'.tables, m'.open);
      AllTurnsLatest(configs, begun, event.requests, event.scheduled, event.rollback, event.epochs, mine, j);
    } else {
      ScheduledWithout(configs, begun, event.requests, event.scheduled, event.rollback, event.epochs, r, mine);
      LatestOfView(begun, m'.tables, r);
    }
  }

  /** The snapshot after a step shows the block full, if it shows it at all. */
  lemma HonestSnapshot(configs: Configs, r: Id, mine: iset<Id>, g: GroupId, m: Mark, event: Event, m': Mark, l: nat,
                       b: nat)
    requires ValidConfigs(configs) && StepCase(configs, r, mine, g, m, event, m', l, b)
    ensures b in m'.noted ==> AtLeast(m'.noted, b, configs[g].group)
  {
    hide SurelyFull, PhysicalBlock, AtLeast, MarkOk, NotShared, StepInOrder, Moves, Apply, JoinOf, IsJoin, Sources;
    if b in m'.noted {
      var s := JoinOfKey(Sources(m'.tables, g), b);
      HonestSource(configs, r, mine, g, m, event, m', l, b, s);
      var x :| x in Sources(m'.tables, g) && AtLeast(x, b, configs[g].group);
      JoinKeepsLeast(Sources(m'.tables, g), x, b, configs[g].group);
    }
  }

  /** A reached block that a step does not need any more was surely full at the step before. */
  lemma LostWasFull(configs: Configs, r: Id, mine: iset<Id>, g: GroupId, m: Mark, event: Event, m': Mark, l: nat,
                    b: nat)
    requires ValidConfigs(configs) && StepCase(configs, r, mine, g, m, event, m', l, b)
    requires r !in event.removed && m.follow.Tracked? && b !in m'.noted
    ensures SurelyFull(configs[g], m.base, l) && BlockOk(configs[g], mine, g, m, m.follow.track.lo, l, b)
  {
    hide SurelyFull, PhysicalBlock, AtLeast, MarkOk, NotShared, StepInOrder, Moves, BlockFills, BeginStep, ScheduleAll;
    hide Clear, SameStep, Stepped, Covered;
    var n := configs[g].group;
    StepCaseSteps(configs, r, mine, g, m, event, m', l, b);
    if Stepped(m'.tables, g, b, n) {
      StepIsNeeded(m'.tables, g, b, n);
      AtLeastIsIn(m'.noted, b, n);
      assert false;
    }
    KnownBefore(configs, r, mine, g, m, event, m', l, b);
    if OwnUnpublished(m.tables, mine, g, b, n) {
      OwnIsUnpublished(m.tables, mine, g, b, n);
      NextStepPublishes(configs, m.tables, event, g, b, n);
      AtLeastIsIn(m'.noted, b, n);
      assert false;
    }
  }

  lemma AtLeastIsIn(blocks: Blocks, b: nat, n: nat)
    requires AtLeast(blocks, b, n)
    ensures b in blocks
  {
  }

  lemma OwnIsUnpublished(t: Tables, mine: iset<Id>, g: GroupId, b: nat, n: nat)
    requires OwnUnpublished(t, mine, g, b, n)
    ensures Unpublished(t, g, b, n)
  {
    hide AtLeast;
  }

  /** The invariant is kept by every step. */
  lemma StepKeepsMark(configs: Configs, r: Id, mine: iset<Id>, g: GroupId, m: Mark, event: Event, m': Mark)
    requires ValidConfigs(configs) && g in configs && MarkOk(configs, r, mine, g, m) && event.Step?
    requires Call(configs, r, mine, g, m, event, m')
    ensures MarkOk(configs, r, mine, g, m')
  {
    hide BlockOk, InOrder, Agrees, Moves, ViewOf, LatestOf, NotShared, StepInOrder, BlockFills, Epochs, BlocksOk;
    hide ScheduleAll, BeginStep;
    FollowAfter(configs, r, mine, g, m, event, m');
    OrderAfter(configs, r, mine, g, m, event, m');
    NothingLeft(configs, m.tables, event);
    if m'.follow.Tracked? && InTables(configs, m'.follow.track.ids, g) {
      StepKeepsBlocks(configs, r, mine, g, m, event, m');
    }
  }

  /** A step publishes everything that was settled. */
  lemma NothingLeft(configs: Configs, t: Tables, event: Event)
    requires ValidConfigs(configs) && event.Step?
    ensures Apply(configs, t, event).resolved == map[]
  {
    hide BeginStep, ScheduleAll;
    BeginFields(configs, t, event.removed);
    AllTurnsResolved(configs, BeginStep(configs, t, event.removed), event.requests, event.scheduled, event.rollback,
                     event.epochs);
  }

  lemma {:induction false} AllTurnsResolved(configs: Configs, t: Tables, requests: map<Id, Request>,
                                            scheduled: seq<Schedule>, rollback: map<Id, nat>, epochs: map<Id, Id>)
    requires ValidConfigs(configs) && t.resolved == map[]
    ensures ScheduleAll(configs, t, requests, scheduled, rollback, epochs).resolved == map[]
  {
    hide ScheduleOne;
    if scheduled != [] {
      var front, s := scheduled[..|scheduled| - 1], scheduled[|scheduled| - 1];
      AllTurnsResolved(configs, t, requests, front, rollback, epochs);
      TurnResolved(configs, ScheduleAll(configs, t, requests, front, rollback, epochs), requests, s, rollback, epochs);
    }
  }

  lemma TurnResolved(configs: Configs, t: Tables, requests: map<Id, Request>, s: Schedule, rollback: map<Id, nat>,
                     epochs: map<Id, Id>)
    requires ValidConfigs(configs) && t.resolved == map[]
    ensures ScheduleOne(configs, t, requests, s, rollback, epochs).resolved == map[]
  {
    hide Enter, Resolve, ScheduledPending, ScheduledFull, ScheduledStep, RetainedBlocks, ScheduleOne, MergeGroups;
    hide EpochName;
    if s.req in requests {
      var q, request, epoch := s.req, requests[s.req], EpochName(epochs, s.req);
      ScheduleOneIs(configs, t, requests, s, rollback, epochs);
      ResolveFields(configs, t, epoch, request, request.computed);
      EnterFields(configs, Cleared(configs, t, epoch, request), q, epoch, request, s.tokens, GetOr(rollback, q, 0));
    } else {
      UnknownRequest(configs, t, requests, s, rollback, epochs);
    }
  }

  lemma StepKeepsBlocks(configs: Configs, r: Id, mine: iset<Id>, g: GroupId, m: Mark, event: Event, m': Mark)
    requires ValidConfigs(configs) && MarkOk(configs, r, mine, g, m) && event.Step?
    requires Call(configs, r, mine, g, m, event, m')
    requires m'.follow.Tracked? && InTables(configs, m'.follow.track.ids, g)
    requires m'.tables.resolved == map[]
    ensures BlocksOk(configs, mine, g, m', m'.follow.track)
  {
    hide InOrder, Agrees, Moves, ViewOf, LatestOf, NotShared, StepInOrder, BlockFills, Epochs, MarkOk;
    hide PhysicalBlock, SurelyFull, Covered, AtLeast, GroupKeys, Apply;
    var k := m'.follow.track;
    forall l: nat | InTable(k.ids[g], l, configs[g].perManager)
      ensures BlockOk(configs[g], mine, g, m', k.lo, l, PhysicalBlock(k.ids[g], l, configs[g].perManager))
    {
      var b := PhysicalBlock(k.ids[g], l, configs[g].perManager);
      if SurelyFull(configs[g], k.lo, l) {
        HonestSnapshot(configs, r, mine, g, m, event, m', l, b);
        forall i: nat
          ensures Covered(m'.tables, m'.open, i, g, b, configs[g].group)
        {
          CoveredAfter(configs, r, mine, g, m, event, m', l, b, i);
        }
      }
    }
  }

  // ---- settlements, drops and forgetting ----

  /** What the request's names have settled is untouched. */
  ghost predicate KeepsResolved(t: Tables, u: Tables, mine: iset<Id>) {
    forall e :: e in mine ==>
      (e in t.resolved <==> e in u.resolved) && (e in t.resolved ==> t.resolved[e] == u.resolved[e])
  }

  lemma QuietKeepsBlocks(configs: Configs, mine: iset<Id>, g: GroupId, m: Mark, m': Mark, k: Track, k': Track)
    requires ValidConfigs(configs) && InTables(configs, k.ids, g) && k'.ids == k.ids && k'.lo == k.lo
    requires BlocksOk(configs, mine, g, m, k) && m'.noted == m.noted && m'.base == m.base
    requires KeepsResolved(m.tables, m'.tables, mine) && forall e :: e in m'.open ==> e in mine
    requires m'.open == m.open || (m.open != [] && m'.open == m.open[1..])
    requires forall e :: e in m'.open ==> SameEpoch(m.tables, m'.tables, e)
    ensures BlocksOk(configs, mine, g, m', k')
  {
    hide PhysicalBlock, SurelyFull, AtLeast, GroupKeys, BlockOk, SameEpoch;
    forall l: nat | InTable(k.ids[g], l, configs[g].perManager)
      ensures BlockOk(configs[g], mine, g, m', k.lo, l, PhysicalBlock(k.ids[g], l, configs[g].perManager))
    {
      QuietKeepsBlock(configs[g], mine, g, m, m', k.lo, l, PhysicalBlock(k.ids[g], l, configs[g].perManager));
    }
  }

  lemma QuietKeepsBlock(cfg: GroupConfig, mine: iset<Id>, g: GroupId, m: Mark, m': Mark, lo: nat, l: nat, b: nat)
    requires cfg.Valid() && BlockOk(cfg, mine, g, m, lo, l, b) && m'.noted == m.noted && m'.base == m.base
    requires KeepsResolved(m.tables, m'.tables, mine) && forall e :: e in m'.open ==> e in mine
    requires m'.open == m.open || (m.open != [] && m'.open == m.open[1..])
    requires forall e :: e in m'.open ==> SameEpoch(m.tables, m'.tables, e)
    ensures BlockOk(cfg, mine, g, m', lo, l, b)
  {
    hide SurelyFull, AtLeast, GroupKeys, SameEpoch, HeldBy, RecordedBy;
    if SurelyFull(cfg, lo, l) {
      forall i: nat
        ensures Covered(m'.tables, m'.open, i, g, b, cfg.group)
      {
        QuietCovered(cfg, mine, g, m, m', lo, l, b, i);
      }
      if OwnUnpublished(m.tables, mine, g, b, cfg.group) {
        var e :| e in mine && e in m.tables.resolved && g in m.tables.resolved[e]
                 && AtLeast(m.tables.resolved[e][g], b, cfg.group);
        assert e in m'.tables.resolved && m'.tables.resolved[e] == m.tables.resolved[e];
      }
    }
  }

  lemma QuietCovered(cfg: GroupConfig, mine: iset<Id>, g: GroupId, m: Mark, m': Mark, lo: nat, l: nat, b: nat, i: nat)
    requires cfg.Valid() && BlockOk(cfg, mine, g, m, lo, l, b) && SurelyFull(cfg, lo, l)
    requires m'.open == m.open || (m.open != [] && m'.open == m.open[1..])
    requires forall e :: e in m'.open ==> SameEpoch(m.tables, m'.tables, e)
    ensures Covered(m'.tables, m'.open, i, g, b, cfg.group)
  {
    hide SurelyFull, AtLeast, GroupKeys, SameEpoch, HeldBy, RecordedBy, OwnUnpublished;
    if i < |m'.open| && HeldBy(m'.tables, m'.open[i], g, b) {
      var d := |m.open| - |m'.open|;
      assert m'.open[i] == m.open[i + d] && m'.open[i] in m'.open;
      SameClaims(m.tables, m'.tables, m'.open[i], g, b, cfg.group);
      assert Covered(m.tables, m.open, i + d, g, b, cfg.group);
      var j :| i + d <= j < |m.open| && RecordedBy(m.tables, m.open[j], g, b, cfg.group);
      assert m'.open[j - d] == m.open[j] && m'.open[j - d] in m'.open;
      SameClaims(m.tables, m'.tables, m.open[j], g, b, cfg.group);
    }
  }

  /** Settling the only open epoch of the request. */
  lemma SettleKeepsBlocks(configs: Configs, r: Id, mine: iset<Id>, g: GroupId, m: Mark, epoch: Id, request: Request,
                          actual: nat, m': Mark)
    requires ValidConfigs(configs) && MarkOk(configs, r, mine, g, m) && m.follow.Tracked? && m.follow.track.sure
    requires InTables(configs, m.follow.track.ids, g) && m.open == [epoch] && m'.open == []
    requires MaySettle(configs, m.follow.track, request, actual)
    requires m'.tables == Resolve(configs, m.tables, epoch, request, actual)
    requires m'.noted == m.noted && m'.base == m.base
    requires m'.follow == Tracked(Track(request.blockIds, actual, actual, actual, true))
    ensures InTables(configs, request.blockIds, g) && BlocksOk(configs, mine, g, m', m'.follow.track)
  {
    hide PhysicalBlock, SurelyFull, AtLeast, Resolve, ViewOf, Agrees, EpochInvariant, NamedApart, MaySettle;
    var k, cfg, ids := m.follow.track, configs[g], request.blockIds;
    GrownTables(configs, k, request, actual, g);
    forall l: nat | InTable(ids[g], l, cfg.perManager)
      ensures BlockOk(cfg, mine, g, m', actual, l, PhysicalBlock(ids[g], l, cfg.perManager))
    {
      SettleKeepsBlock(configs, r, mine, g, m, epoch, request, actual, m', l);
    }
  }

  lemma GrownTables(configs: Configs, k: Track, request: Request, actual: nat, g: GroupId)
    requires ValidConfigs(configs) && InTables(configs, k.ids, g) && MaySettle(configs, k, request, actual)
    ensures InTables(configs, request.blockIds, g) && k.ids[g] <= request.blockIds[g]
    ensures Distinct(request.blockIds[g])
  {
  }

  lemma SettleKeepsBlock(configs: Configs, r: Id, mine: iset<Id>, g: GroupId, m: Mark, epoch: Id, request: Request,
                         actual: nat, m': Mark, l: nat)
    requires ValidConfigs(configs) && MarkOk(configs, r, mine, g, m) && m.follow.Tracked? && m.follow.track.sure
    requires InTables(configs, m.follow.track.ids, g) && m.open == [epoch] && m'.open == []
    requires MaySettle(configs, m.follow.track, request, actual) && InTables(configs, request.blockIds, g)
    requires m'.tables == Resolve(configs, m.tables, epoch, request, actual)
    requires m'.noted == m.noted && m'.base == m.base && InTable(request.blockIds[g], l, configs[g].perManager)
    ensures BlockOk(configs[g], mine, g, m', actual, l, PhysicalBlock(request.blockIds[g], l, configs[g].perManager))
  {
    hide PhysicalBlock, SurelyFull, AtLeast, Resolve, ViewOf, Agrees, EpochInvariant, NamedApart, MaySettle, GroupKeys;
    hide LatestOf, ResolvedPending, BlockOk;
    var k, cfg, ids := m.follow.track, configs[g], request.blockIds;
    var b := PhysicalBlock(ids[g], l, cfg.perManager);
    assert epoch in m.open;
    ResolveFields(configs, m.tables, epoch, request, actual);
    GrownTables(configs, k, request, actual, g);
    if SurelyFull(cfg, m.base, l) {
      EndsLater(configs, ViewOf(m.tables, r), k, g);
      FullMeans(cfg, k.ids[g], k.lo, k.hi, l);
      PhysicalPrefix(k.ids[g], ids[g], cfg.perManager, l);
      assert BlockOk(cfg, mine, g, m, k.lo, l, b);
      NotedOf(cfg, mine, g, m, k.lo, l, b);
    }
    if SurelyFull(cfg, actual, l) {
      SettledAt(configs, m.tables, r, epoch, request, actual, k, g, l);
    }
    SettledBlock(configs, mine, g, m, epoch, request, actual, m', l, b);
  }

  lemma EndsLater(configs: Configs, v: View, k: Track, g: GroupId)
    requires ValidConfigs(configs) && Agrees(configs, v, k) && InTables(configs, k.ids, g)
    ensures k.lo <= k.hi && Holds(configs[g], k.ids[g], k.hi)
  {
    hide KeepsExactly, FullWithin, PendingOfTrack, InNoDoubt, Holds;
  }

  lemma NotedOf(cfg: GroupConfig, mine: iset<Id>, g: GroupId, m: Mark, lo: nat, l: nat, b: nat)
    requires cfg.Valid() && BlockOk(cfg, mine, g, m, lo, l, b)
    ensures SurelyFull(cfg, m.base, l) && b in m.noted ==> AtLeast(m.noted, b, cfg.group)
  {
    hide SurelyFull, AtLeast, Covered, OwnUnpublished;
  }

  lemma SettledBlock(configs: Configs, mine: iset<Id>, g: GroupId, m: Mark, epoch: Id, request: Request, actual: nat,
                     m': Mark, l: nat, b: nat)
    requires ValidConfigs(configs) && g in configs && epoch in mine && epoch in m.tables.pending && m'.open == []
    requires forall e :: e in mine ==> e !in m.tables.resolved
    requires var fills: map<GroupId, Blocks> := ResolvedPending(configs, m.tables.pending[epoch], request, actual);
      && m'.tables.resolved == (if fills == map[] then m.tables.resolved else m.tables.resolved[epoch := fills])
      && (SurelyFull(configs[g], actual, l) ==>
            && (b in GroupKeys(fills, g) ==> AtLeast(fills[g], b, configs[g].group))
            && (!SurelyFull(configs[g], m.base, l) ==> b in GroupKeys(fills, g)))
    requires m'.base == m.base && m'.noted == m.noted
    requires SurelyFull(configs[g], m.base, l) && b in m.noted ==> AtLeast(m.noted, b, configs[g].group)
    ensures BlockOk(configs[g], mine, g, m', actual, l, b)
  {
    hide SurelyFull, AtLeast, ResolvedPending;
    var fills: map<GroupId, Blocks> := ResolvedPending(configs, m.tables.pending[epoch], request, actual);
    NothingInside(fills, g, b);
    if SurelyFull(configs[g], actual, l) && !SurelyFull(configs[g], m.base, l) {
      assert epoch in m'.tables.resolved && AtLeast(m'.tables.resolved[epoch][g], b, configs[g].group);
    }
  }

  lemma QuietKeepsMark(configs: Configs, r: Id, mine: iset<Id>, g: GroupId, m: Mark, m': Mark)
    requires ValidConfigs(configs) && MarkOk(configs, r, mine, g, m) && m'.noted == m.noted && m'.base == m.base
    requires Epochs(m'.tables, r, mine) && Follows(configs, ViewOf(m'.tables, r), m'.follow)
    requires m'.follow == m.follow
             || (m.follow.Tracked? && m'.follow == Tracked(m.follow.track.(sure := false)))
    requires InOrder(m'.tables, r, mine, m'.open) && KeepsResolved(m.tables, m'.tables, mine)
    requires m'.open == m.open || (m.open != [] && m'.open == m.open[1..])
    requires forall e :: e in m'.open ==> SameEpoch(m.tables, m'.tables, e)
    ensures MarkOk(configs, r, mine, g, m')
  {
    hide Agrees, EpochInvariant, NamedApart, ViewOf, BlocksOk, SameEpoch, LatestOf;
    if m'.follow.Tracked? && InTables(configs, m'.follow.track.ids, g) {
      QuietKeepsBlocks(configs, mine, g, m, m', m.follow.track, m'.follow.track);
    }
  }

  lemma SettleKeepsMark(configs: Configs, r: Id, mine: iset<Id>, g: GroupId, m: Mark, event: Event, m': Mark)
    requires ValidConfigs(configs) && MarkOk(configs, r, mine, g, m) && event.Settle?
    requires Call(configs, r, mine, g, m, event, m')
    ensures MarkOk(configs, r, mine, g, m')
  {
    hide Agrees, EpochInvariant, NamedApart, ViewOf, BlocksOk, SameEpoch, Resolve, LatestOf, ResolvedPending, MaySettle;
    var t, u, epoch := m.tables, m'.tables, event.epoch;
    FollowAfter(configs, r, mine, g, m, event, m');
    ResolveFields(configs, t, epoch, event.request, event.actual);
    if epoch in m.open {
      assert epoch in m.open && epoch in LatestOf(t, r);
      OpenIsTracked(configs, r, mine, g, m);
      TrackedIsPresent(configs, t, r, m.follow);
      ResolveView(configs, t, r, epoch, event.request, event.actual);
      LatestInView(u, r);
      SettledEnd(configs, m.follow.track, event.request, event.actual);
      SameLength(configs, m.follow.track, event.request, event.actual, g);
      if InTables(configs, m.follow.track.ids, g) {
        SettleKeepsBlocks(configs, r, mine, g, m, epoch, event.request, event.actual, m');
      }
    } else {
      OthersResolve(configs, t, epoch, event.request, event.actual, r);
      LatestOfView(t, u, r);
      forall e | e in m'.open
        ensures SameEpoch(t, u, e)
      {
        UntouchedEpoch(configs, t, epoch, event.request, event.actual, e);
      }
      QuietKeepsMark(configs, r, mine, g, m, m');
    }
  }

  lemma SameLength(configs: Configs, k: Track, request: Request, actual: int, g: GroupId)
    requires MaySettle(configs, k, request, actual)
    ensures InTables(configs, request.blockIds, g) <==> InTables(configs, k.ids, g)
  {
  }

  lemma UntouchedEpoch(configs: Configs, t: Tables, epoch: Id, request: Request, actual: int, e: Id)
    requires ValidConfigs(configs) && e != epoch
    ensures SameEpoch(t, Resolve(configs, t, epoch, request, actual), e)
  {
    hide Resolve, ResolvedPending;
    ResolveFields(configs, t, epoch, request, actual);
  }

  lemma DiscardFields(t: Tables, epoch: Id)
    ensures var u := Discard(t, epoch);
      && u.resolved == t.resolved && u.pending == t.pending - {epoch} && u.epochBlocks == t.epochBlocks - {epoch}
      && u.epochOwners == t.epochOwners - {epoch}
      && (u.latestEpoch == t.latestEpoch
          || (epoch in t.epochOwners && u.latestEpoch == t.latestEpoch - {t.epochOwners[epoch]}))
  {
  }

  lemma DroppedLatest(t: Tables, epoch: Id, r: Id, mine: iset<Id>)
    requires Epochs(t, r, mine)
    ensures LatestOf(Discard(t, epoch), r) == LatestOf(t, r) - {epoch}
  {
    hide EpochsCovered;
  }

  lemma DropKeepsMark(configs: Configs, r: Id, mine: iset<Id>, g: GroupId, m: Mark, event: Event, m': Mark)
    requires ValidConfigs(configs) && MarkOk(configs, r, mine, g, m) && event.Drop?
    requires Call(configs, r, mine, g, m, event, m')
    ensures MarkOk(configs, r, mine, g, m')
  {
    hide Agrees, EpochInvariant, NamedApart, ViewOf, BlocksOk, Discard, LatestOf;
    var t, u, epoch := m.tables, m'.tables, event.epoch;
    FollowAfter(configs, r, mine, g, m, event, m');
    DiscardFields(t, epoch);
    DroppedLatest(t, epoch, r, mine);
    if epoch in m.open {
      assert m.open == [epoch] + m'.open;
      assert forall e :: e in m'.open <==> e in m.open && e != epoch;
    }
    QuietKeepsMark(configs, r, mine, g, m, m');
  }

  lemma ForgetFields(t: Tables, q: Id, e: Id)
    requires e in t.epochOwners ==> t.epochOwners[e] != q
    ensures var u := MarkUnknown(t, q);
      u.resolved == t.resolved && u.latestEpoch == t.latestEpoch && u.pending == t.pending && SameEpoch(t, u, e)
  {
    hide UnknownGroups;
  }

  lemma ForgetKeepsMark(configs: Configs, r: Id, mine: iset<Id>, g: GroupId, m: Mark, event: Event, m': Mark)
    requires ValidConfigs(configs) && MarkOk(configs, r, mine, g, m) && event.Forget?
    requires Call(configs, r, mine, g, m, event, m')
    ensures MarkOk(configs, r, mine, g, m')
  {
    hide Agrees, ViewOf, BlocksOk, MarkUnknown, SameEpoch, EpochsCovered, LatestIsOpen;
    var t, u := m.tables, m'.tables;
    FollowAfter(configs, r, mine, g, m, event, m');
    forall e | e in m.open
      ensures SameEpoch(t, u, e)
    {
      assert e in mine && e in t.pending;
      ForgetFields(t, event.req, e);
    }
    ForgetTables(t, event.req);
    QuietKeepsMark(configs, r, mine, g, m, m');
  }

  lemma ForgetTables(t: Tables, q: Id)
    ensures var u := MarkUnknown(t, q);
      u.resolved == t.resolved && u.latestEpoch == t.latestEpoch && u.pending == t.pending
  {
  }

  /** The invariant holds at every moment of every run. */
  lemma {:induction false} RunKeepsMarks(configs: Configs, r: Id, mine: iset<Id>, g: GroupId, marks: seq<Mark>,
                                         events: seq<Event>, i: nat)
    requires ValidConfigs(configs) && g in configs && MarkedRun(configs, r, mine, g, marks, events) && i <= |events|
    ensures MarkOk(configs, r, mine, g, marks[i])
  {
    hide MarkOk, Call;
    if i == 0 {
      StartIsOk(configs, r, mine, g);
    } else {
      RunKeepsMarks(configs, r, mine, g, marks, events, i - 1);
      var m, event, m' := marks[i - 1], events[i - 1], marks[i];
      assert Call(configs, r, mine, g, m, event, m');
      match event
      case Step(_, _, _, _, _) => StepKeepsMark(configs, r, mine, g, m, event, m');
      case Settle(_, _, _) => SettleKeepsMark(configs, r, mine, g, m, event, m');
      case Drop(_) => DropKeepsMark(configs, r, mine, g, m, event, m');
      case Forget(_) => ForgetKeepsMark(configs, r, mine, g, m, event, m');
    }
  }

  lemma StartIsOk(configs: Configs, r: Id, mine: iset<Id>, g: GroupId)
    requires ValidConfigs(configs)
    ensures MarkOk(configs, r, mine, g, Mark(NO_TABLES, Absent, [], 0, map[]))
  {
    hide Agrees;
    NothingAgrees(configs, r, mine);
  }

  /** A step that does not need a reached block of the request any more finds it recorded full: every token
      of local block `l` had been accepted, or could not be rolled back, when the slot manager was last shown
      its fill. */
  lemma RetiresFull(configs: Configs, r: Id, mine: iset<Id>, g: GroupId, marks: seq<Mark>, events: seq<Event>, i: nat,
                    l: nat)
    requires ValidConfigs(configs) && g in configs && MarkedRun(configs, r, mine, g, marks, events) && i < |events|
    requires events[i].Step? && r !in events[i].removed && marks[i].follow.Tracked? && marks[i + 1].follow.Tracked?
    requires InTables(configs, marks[i + 1].follow.track.ids, g)
    requires InTable(marks[i + 1].follow.track.ids[g], l, configs[g].perManager)
    requires l * configs[g].group < configs[g].Local(marks[i + 1].follow.track.lo)
    requires var b := PhysicalBlock(marks[i + 1].follow.track.ids[g], l, configs[g].perManager);
      b in marks[i].noted && b !in marks[i + 1].noted
    ensures AtLeast(marks[i].noted, PhysicalBlock(marks[i + 1].follow.track.ids[g], l, configs[g].perManager),
                    configs[g].group)
  {
    hide MarkOk, Call, PhysicalBlock, AtLeast, LocalNumTokens, BlockOk;
    var m, event, m' := marks[i], events[i], marks[i + 1];
    var b := PhysicalBlock(m'.follow.track.ids[g], l, configs[g].perManager);
    RunKeepsMarks(configs, r, mine, g, marks, events, i);
    assert Call(configs, r, mine, g, m, event, m');
    UnneededIsFull(configs, r, mine, g, m, event, m', l);
    LostWasFull(configs, r, mine, g, m, event, m', l, b);
    NotedOf(configs[g], mine, g, m, m.follow.track.lo, l, b);
  }

  /** A reached block that is not needed lies wholly below the least end. */
  lemma UnneededIsFull(configs: Configs, r: Id, mine: iset<Id>, g: GroupId, m: Mark, event: Event, m': Mark, l: nat)
    requires ValidConfigs(configs) && MarkOk(configs, r, mine, g, m) && Call(configs, r, mine, g, m, event, m')
    requires event.Step? && m'.follow.Tracked? && InTables(configs, m'.follow.track.ids, g)
    requires InTable(m'.follow.track.ids[g], l, configs[g].perManager)
    requires l * configs[g].group < configs[g].Local(m'.follow.track.lo)
    requires PhysicalBlock(m'.follow.track.ids[g], l, configs[g].perManager) !in m'.noted
    ensures SurelyFull(configs[g], m'.follow.track.lo, l)
  {
    hide MarkOk, PhysicalBlock, LocalNumTokens, Moves, NotShared, StepInOrder, BlockFills, Apply, SpanBlocks, FillAt;
    hide FullWithin, PendingOfTrack, InNoDoubt, CeilDiv, Distinct, EpochInvariant, NamedApart;
    var k, cfg := m'.follow.track, configs[g];
    FollowAfter(configs, r, mine, g, m, event, m');
    assert Distinct(k.ids[g]) && Holds(cfg, k.ids[g], k.hi);
    if !SurelyFull(cfg, k.lo, l) {
      var b := PhysicalBlock(k.ids[g], l, cfg.perManager);
      SpanBlocksAt(cfg, k.ids[g], SpanOf(cfg, Window(k.lo, k.lo, k.hi)), l);
      CurrentBlock(cfg, k, g, l);
      assert b in GetOr(ViewOf(m'.tables, r).blocks, g, map[]);
      NeededByRequest(m'.tables, r, g, b);
      assert false;
    }
  }

  lemma CurrentBlock(cfg: GroupConfig, k: Track, g: GroupId, l: nat)
    requires cfg.Valid() && g < |k.ids| && k.lo <= k.hi && Holds(cfg, k.ids[g], k.hi)
    requires InTable(k.ids[g], l, cfg.perManager)
    requires l * cfg.group < cfg.Local(k.lo) && !SurelyFull(cfg, k.lo, l)
    ensures Owns(cfg, k.ids[g], SpanOf(cfg, Window(k.lo, k.lo, k.hi)), l)
  {
    hide LocalNumTokens, CeilDiv;
    CountMonotone(k.lo, k.hi, cfg.world, cfg.rank, cfg.interleave);
    AboveCeil(cfg.Local(k.hi), l, cfg.group);
    AboveCeil(cfg.Local(k.lo), l + 1, cfg.group);
    AboveCeil(cfg.Local(k.lo), l, cfg.group);
  }

  lemma NeededByRequest(t: Tables, r: Id, g: GroupId, b: nat)
    requires b in GetOr(ViewOf(t, r).blocks, g, map[])
    ensures b in BlockFills(t, g)
  {
    hide JoinOf, IsJoin;
    var kept := GetOr(ViewOf(t, r).blocks, g, map[]);
    assert r in t.requestBlocks && kept in GroupSources(t.requestBlocks, g);
    JoinHolds(Sources(t, g), kept, b);
  }

  // ---- with the slots ----

  /** Every step of the run prepares the slots for what it needs. */
  ghost predicate SlotRun(marks: seq<Mark>, events: seq<Event>, slots: seq<PoolState>)
    requires |marks| == |events| + 1
  {
    && |slots| == |marks| && slots[0].mapping == map[]
    && forall i :: 0 <= i < |events| ==>
         if events[i].Step? then Prepared(slots[i], marks[i + 1].noted, slots[i + 1]) else slots[i + 1] == slots[i]
  }

  /** The slots hold what was needed last, with the fills that were shown last. */
  ghost predicate Shows(s: PoolState, noted: Blocks) {
    && s.mapping.Keys == noted.Keys
    && forall b :: b in noted && noted[b].Known? ==> b in s.fill && s.fill[b] == noted[b].tokens
  }

  lemma {:induction false} SlotsShow(configs: Configs, r: Id, mine: iset<Id>, g: GroupId, marks: seq<Mark>,
                                     events: seq<Event>, slots: seq<PoolState>, i: nat)
    requires ValidConfigs(configs) && MarkedRun(configs, r, mine, g, marks, events) && i <= |events|
    requires SlotRun(marks, events, slots)
    ensures Shows(slots[i], marks[i].noted)
  {
    hide Moves, Apply, NotShared, StepInOrder;
    if i > 0 {
      SlotsShow(configs, r, mine, g, marks, events, slots, i - 1);
      assert Call(configs, r, mine, g, marks[i - 1], events[i - 1], marks[i]);
    }
  }

  /** No tile of a speculating request is lost: a reached block that loses its slot is flushed in that step. */
  lemma SpeculatedTileIsFlushed(configs: Configs, r: Id, mine: iset<Id>, g: GroupId, marks: seq<Mark>,
                                events: seq<Event>, slots: seq<PoolState>, i: nat, l: nat)
    requires ValidConfigs(configs) && g in configs && MarkedRun(configs, r, mine, g, marks, events) && i < |events|
    requires SlotRun(marks, events, slots)
    requires events[i].Step? && r !in events[i].removed && marks[i].follow.Tracked? && marks[i + 1].follow.Tracked?
    requires InTables(configs, marks[i + 1].follow.track.ids, g)
    requires InTable(marks[i + 1].follow.track.ids[g], l, configs[g].perManager)
    requires l * configs[g].group < configs[g].Local(marks[i + 1].follow.track.lo)
    requires var b := PhysicalBlock(marks[i + 1].follow.track.ids[g], l, configs[g].perManager);
      b in slots[i].mapping && b !in slots[i + 1].mapping
    ensures PhysicalBlock(marks[i + 1].follow.track.ids[g], l, configs[g].perManager)
      in Flushed(slots[i], marks[i + 1].noted, configs[g].group)
  {
    hide MarkOk, Call, PhysicalBlock, LocalNumTokens, MarkedRun;
    SlotsShow(configs, r, mine, g, marks, events, slots, i);
    SlotsShow(configs, r, mine, g, marks, events, slots, i + 1);
    RetiresFull(configs, r, mine, g, marks, events, i, l);
  }
}
