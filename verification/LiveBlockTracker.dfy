/** The tracker object: the ownership tables as mutable fields, and its operations as the loops
    that update them.  Every operation is proved to have exactly the effect on the tables that
    module Ownership defines, whatever order its dictionaries are visited in. */
module LiveBlockTracker {
  import opened Sharding
  import opened FillMaps
  import opened Ownership

  class Tracker {
    const configs: Configs
    var requestBlocks: map<Id, map<GroupId, Blocks>>
    var stepBlocks: map<GroupId, Blocks>
    var pendingBlocks: map<Id, map<GroupId, map<nat, nat>>>
    var resolvedBlocks: map<Id, map<GroupId, Blocks>>
    var epochBlocks: map<Id, map<GroupId, Blocks>>
    var epochOwners: map<Id, Id>
    var latestEpoch: map<Id, Id>
    var requestFullContext: map<Id, set<GroupId>>
    var epochFullContext: map<Id, set<GroupId>>

    ghost function Tables(): Tables
      reads this
    {
      Ownership.Tables.Tables(requestBlocks, stepBlocks, pendingBlocks, resolvedBlocks, epochBlocks,
                       epochOwners, latestEpoch, requestFullContext, epochFullContext)
    }

    constructor (configs: Configs)
      requires ValidConfigs(configs)
      ensures this.configs == configs && Tables() == NO_TABLES
    {
      this.configs := configs;
      requestBlocks, stepBlocks, pendingBlocks, resolvedBlocks := map[], map[], map[], map[];
      epochBlocks, epochOwners, latestEpoch := map[], map[], map[];
      requestFullContext, epochFullContext := map[], map[];
    }

    /** Boundary blocks first, then the tail window, then the block being filled. */
    static method PersistentGroupBlocks(cfg: GroupConfig, ids: seq<nat>, minEnd: nat, maxEnd: nat, tailStart: nat)
      returns (blocks: Blocks)
      requires cfg.Valid()
      ensures blocks == PersistentBlocks(cfg, ids, minEnd, maxEnd, tailStart)
    {
      hide PhysicalBlock, FillAt, NumLogical, FirstCurrent, CeilDiv, MergeFill;
      var n := NumLogical(cfg, ids, maxEnd);
      if n == 0 {
        return map[];
      }
      blocks := map[];
      var boundaryBlocks := Min(CeilDiv(cfg.boundary, cfg.group), n);
      for l := 0 to boundaryBlocks
        invariant blocks == AssignRange(cfg, ids, minEnd, 0, l, map[])
      {
        blocks := blocks[PhysicalBlock(ids, l, cfg.perManager) := FillAt(cfg, minEnd, l)];
      }
      if cfg.tail > 0 {
        blocks := MergeBlocks(cfg, ids, minEnd, Min(tailStart / cfg.group, n), n, blocks);
      }
      blocks := MergeBlocks(cfg, ids, minEnd, FirstCurrent(cfg, minEnd), n, blocks);
    }

    /** Merge the fills of logical blocks first..n, in order. */
    static method MergeBlocks(cfg: GroupConfig, ids: seq<nat>, minEnd: nat, first: nat, n: nat, before: Blocks)
      returns (blocks: Blocks)
      requires cfg.Valid() && (first < n ==> n <= |ids| * cfg.perManager)
      ensures blocks == MergeRange(cfg, ids, minEnd, first, n, before)
    {
      hide PhysicalBlock, FillAt, MergeFill;
      blocks := before;
      var l := first;
      while l < n
        invariant first <= l && (l <= n || l == first)
        invariant blocks == MergeRange(cfg, ids, minEnd, first, l, before)
      {
        blocks := MergeFill(blocks, PhysicalBlock(ids, l, cfg.perManager), FillAt(cfg, minEnd, l));
        l := l + 1;
      }
    }

    /** The in-place update of a fully covered group. */
    static method UpdateInPlace(cfg: GroupConfig, ids: seq<nat>, span: Span, previous: Blocks) returns (blocks: Blocks)
      requires cfg.Valid()
      ensures blocks == FastBlocks(cfg, ids, span, previous)
    {
      blocks := previous;
      var first, n := FirstUpdate(cfg, span), NumLogical(cfg, ids, span.maxEnd);
      var l := first;
      while l < n
        invariant first <= l
        invariant l <= n || l == first
        invariant blocks == AssignRange(cfg, ids, span.minEnd, first, l, previous)
      {
        blocks := blocks[PhysicalBlock(ids, l, cfg.perManager) := FillAt(cfg, span.minEnd, l)];
        l := l + 1;
      }
    }

    /** Merge the touched blocks into the step table and number them. */
    static method Touch(cfg: GroupConfig, ids: seq<nat>, span: Span, step: Blocks)
      returns (merged: Blocks, touched: map<nat, nat>)
      requires cfg.Valid() && NumLogical(cfg, ids, span.maxEnd) > 0
      ensures merged == MergeTouched(cfg, ids, span, step)
      ensures touched == TouchedLogical(cfg, ids, span)
    {
      merged, touched := step, map[];
      if Touches(span) {
        var first, last := TouchedFrom(cfg, span), TouchedTo(cfg, ids, span);
        var l := first;
        while l < last
          invariant first <= l
          invariant l <= last || l == first
          invariant merged == MergeRange(cfg, ids, span.minEnd, first, l, step)
          invariant touched == LogicalRange(ids, cfg.perManager, first, l)
        {
          var block := PhysicalBlock(ids, l, cfg.perManager);
          merged := MergeFill(merged, block, FillAt(cfg, span.minEnd, l));
          touched := touched[block := l];
          l := l + 1;
        }
      }
    }

    /** One group of one scheduled request. */
    static method EnterGroup(cfg: GroupConfig, ids: seq<nat>, w: Window, g: GroupId,
                      previous: map<GroupId, Blocks>, previousFull: set<GroupId>, step: Blocks)
      returns (owned: Blocks, full: bool, merged: Blocks, touched: map<nat, nat>)
      requires cfg.Valid() && NumLogical(cfg, ids, cfg.Local(w.maxEnd)) > 0
      ensures owned == GroupBlocks(cfg, ids, w, previous, previousFull, g)
      ensures full == FullContext(cfg, w.maxEnd)
      ensures merged == MergeTouched(cfg, ids, SpanOf(cfg, w), step)
      ensures touched == TouchedLogical(cfg, ids, SpanOf(cfg, w))
    {
      hide LocalNumTokens;
      var span := SpanOf(cfg, w);
      full := FullContext(cfg, w.maxEnd);
      if full && g in previousFull && g in previous {
        owned := UpdateInPlace(cfg, ids, span, previous[g]);
      } else {
        owned := PersistentGroupBlocks(cfg, ids, span.minEnd, span.maxEnd, span.tailStart);
      }
      merged, touched := Touch(cfg, ids, span, step);
    }

    /** All groups of one scheduled request. */
    method EnterGroups(request: Request, w: Window, previous: map<GroupId, Blocks>,
                       previousFull: set<GroupId>, rollback: nat)
      returns (groups: map<GroupId, Blocks>, full: set<GroupId>, pending: map<GroupId, map<nat, nat>>)
      requires ValidConfigs(configs) && stepBlocks.Keys == configs.Keys
      modifies this`stepBlocks
      ensures groups == ScheduledGroups(configs, request, w, previous, previousFull)
      ensures full == ScheduledFull(configs, request, w)
      ensures stepBlocks == ScheduledStep(configs, request, w, old(stepBlocks))
      ensures pending == if rollback > 0 then ScheduledPending(configs, request, w) else map[]
    {
      hide NumLogical, GroupBlocks, MergeTouched, TouchedLogical, FullContext, SpanOf;
      hide ScheduledGroups, ScheduledFull, ScheduledStep, ScheduledPending;
      groups, full, pending := map[], {}, map[];
      var todo := configs.Keys;
      ghost var step0 := stepBlocks;
      NothingScheduled(configs - todo, request, w, previous, previousFull, step0);
      while todo != {}
        invariant todo <= configs.Keys && stepBlocks.Keys == configs.Keys == step0.Keys
        invariant ValidConfigs(configs - todo)
        invariant groups == ScheduledGroups(configs - todo, request, w, previous, previousFull)
        invariant full == ScheduledFull(configs - todo, request, w)
        invariant stepBlocks == ScheduledStep(configs - todo, request, w, step0)
        invariant pending == if rollback > 0 then ScheduledPending(configs - todo, request, w) else map[]
        decreases todo
      {
        var g :| g in todo;
        ghost var before := configs - todo;
        assert configs - (todo - {g}) == before[g := configs[g]];
        OneMoreGroup(before, g, configs[g], request, w, previous, previousFull);
        OneMoreFull(before, g, configs[g], request, w);
        OneMoreStep(before, g, configs[g], request, w, step0);
        OneMorePending(before, g, configs[g], request, w);
        if Active(configs, request, w, g) {
          var owned, isFull, merged, touched :=
            EnterGroup(configs[g], request.blockIds[g], w, g, previous, previousFull, stepBlocks[g]);
          groups := groups[g := owned];
          if isFull {
            full := full + {g};
          }
          stepBlocks := stepBlocks[g := merged];
          if rollback > 0 && touched != map[] {
            pending := pending[g := touched];
          }
        }
        todo := todo - {g};
      }
      assert configs - todo == configs;
    }

    /** The blocks an unresolved epoch keeps exact. */
    method Retain(groups: map<GroupId, Blocks>, full: set<GroupId>, pending: map<GroupId, map<nat, nat>>)
      returns (retained: map<GroupId, Blocks>)
      ensures retained == RetainedBlocks(groups, full, pending, stepBlocks)
    {
      hide RetainedBlocks;
      retained := map g | g in groups && g !in full :: groups[g];
      NothingRetained(groups, full, stepBlocks);
      assert pending - pending.Keys == map[];
      var todo := pending.Keys;
      while todo != {}
        invariant todo <= pending.Keys
        invariant retained == RetainedBlocks(groups, full, pending - todo, stepBlocks)
        decreases todo
      {
        var g :| g in todo;
        ghost var before := pending - todo;
        assert pending - (todo - {g}) == before[g := pending[g]];
        OneMoreRetained(groups, full, before, g, pending[g], stepBlocks);
        var base := GetOr(retained, g, map[]);
        var merged := MergeEntries(base, Restrict(GetOr(stepBlocks, g, map[]), pending[g].Keys));
        retained := retained[g := merged];
        todo := todo - {g};
      }
      assert pending - todo == pending;
    }

    /** Merge one epoch's resolved fills into the step tables. */
    method ConsumeResolved(epoch: Id)
      modifies this`resolvedBlocks, this`stepBlocks
      ensures Tables() == Ownership.ConsumeResolved(old(Tables()), epoch)
      ensures stepBlocks.Keys == old(stepBlocks.Keys)
    {
      var groups := GetOr(resolvedBlocks, epoch, map[]);
      resolvedBlocks := resolvedBlocks - {epoch};
      var todo := groups.Keys * stepBlocks.Keys;
      ghost var step0 := stepBlocks;
      hide MergeGroups;
      NoneMerged(step0, groups);
      while todo != {}
        invariant todo <= groups.Keys * step0.Keys && stepBlocks.Keys == step0.Keys
        invariant resolvedBlocks == old(resolvedBlocks) - {epoch}
        invariant stepBlocks == MergeGroups(step0, WithoutKeys(groups, todo))
        decreases todo
      {
        var g :| g in todo;
        OneMerged(step0, groups, todo, g);
        var merged := MergeEntries(stepBlocks[g], groups[g]);
        stepBlocks := stepBlocks[g := merged];
        todo := todo - {g};
      }
      AllMerged(groups);
    }

    /** Fills of one group's pending blocks at a known local end, written into the owner's group
        when `trim` asks for it. */
    static method SettlePending(cfg: GroupConfig, pending: map<nat, nat>, owned: Blocks, e: nat, trim: bool)
      returns (settled: Blocks, resolved: Blocks)
      ensures settled == if trim then TrimPending(cfg, owned, pending, e) else owned
      ensures resolved == ResolvedFills(cfg, pending, e)
    {
      settled, resolved := owned, map[];
      var todo := pending.Keys;
      while todo != {}
        invariant todo <= pending.Keys
        invariant resolved == ResolvedFills(cfg, pending - todo, e)
        invariant settled == if trim then TrimPending(cfg, owned, pending - todo, e) else owned
        decreases todo
      {
        var b :| b in todo;
        ghost var before := pending - todo;
        assert pending - (todo - {b}) == before[b := pending[b]];
        OneMoreFill(cfg, before, b, pending[b], e);
        OneMoreTrim(cfg, before, b, pending[b], owned, e);
        var fill := FillCount(cfg, e, pending[b]);
        if fill > 0 {
          resolved := resolved[b := Known(fill)];
          if trim {
            settled := settled[b := Known(fill)];
          }
        } else if trim {
          settled := settled - {b};
        }
        todo := todo - {b};
      }
      assert pending - todo == pending;
    }

    /** Settle every group of one epoch. */
    method SettleGroups(groups: map<GroupId, Blocks>, pending: map<GroupId, map<nat, nat>>, trims: set<GroupId>,
                        request: Request, actual: int)
      returns (settled: map<GroupId, Blocks>, resolved: map<GroupId, Blocks>)
      requires ValidConfigs(configs)
      ensures settled == ResolvedOwner(configs, groups, pending, trims, request, actual)
      ensures resolved == ResolvedPending(configs, pending, request, actual)
    {
      hide ResolvedFills, TrimPending, PersistentBlocks, LocalNumTokens, ResolvedOwner, ResolvedPending;
      settled, resolved := groups, map[];
      var todo := configs.Keys;
      NothingSettled(configs - todo, groups, pending, trims, request, actual);
      while todo != {}
        invariant todo <= configs.Keys && ValidConfigs(configs - todo)
        invariant settled == ResolvedOwner(configs - todo, groups, pending, trims, request, actual)
        invariant resolved == ResolvedPending(configs - todo, pending, request, actual)
        decreases todo
      {
        var g :| g in todo;
        ghost var before := configs - todo;
        assert configs - (todo - {g}) == before[g := configs[g]];
        OneMoreResolved(before, g, configs[g], groups, pending, trims, request, actual);
        UnknownGroupStays(before, g, groups, pending, trims, request, actual);
        OneMoreResolvedPending(before, g, configs[g], pending, request, actual);
        var pendingGroup := GetOr(pending, g, map[]);
        if Reaches(request, actual, g) {
          var e := configs[g].Local(actual);
          var owned, fills := SettlePending(configs[g], pendingGroup, GetOr(settled, g, map[]), e, g in trims);
          if g !in trims {
            var span := SpanOf(configs[g], Window(actual, actual, actual));
            owned := PersistentGroupBlocks(configs[g], request.blockIds[g], span.minEnd, span.maxEnd, span.tailStart);
          }
          settled := settled[g := owned];
          if fills != map[] {
            resolved := resolved[g := fills];
          }
        } else if g in trims && g in settled {
          settled := settled[g := settled[g] - pendingGroup.Keys];
        } else {
          settled := settled - {g};
        }
        todo := todo - {g};
      }
      assert configs - todo == configs;
    }

    method CloseEpoch(epoch: Id)
      modifies this
      ensures Tables() == DropEpoch(old(Tables()), epoch)
    {
      pendingBlocks := pendingBlocks - {epoch};
      epochOwners := epochOwners - {epoch};
      epochBlocks := epochBlocks - {epoch};
      epochFullContext := epochFullContext - {epoch};
    }

    method Publish(epoch: Id, owner: Id, isLatest: bool, settled: map<GroupId, Blocks>, resolved: map<GroupId, Blocks>)
      modifies this
      ensures Tables() == PublishEpoch(old(Tables()), epoch, owner, isLatest, settled, resolved)
    {
      if isLatest && owner in requestBlocks {
        requestBlocks := requestBlocks[owner := settled];
      }
      if isLatest {
        latestEpoch := latestEpoch - {owner};
      }
      if resolved != map[] {
        resolvedBlocks := resolvedBlocks[epoch := resolved];
      }
    }

    /** Settle an epoch at the end its request turned out to have. */
    method ResolveAsync(epoch: Id, request: Request, actual: int)
      requires ValidConfigs(configs)
      modifies this
      ensures Tables() == Resolve(configs, old(Tables()), epoch, request, actual)
    {
      hide ResolvedOwner, ResolvedPending, DropEpoch, PublishEpoch;
      var known, pending := epoch in pendingBlocks, GetOr(pendingBlocks, epoch, map[]);
      var owner := GetOr(epochOwners, epoch, epoch);
      var isLatest := owner in latestEpoch && latestEpoch[owner] == epoch;
      var trims := GetOr(epochFullContext, epoch, {}) * GetOr(requestFullContext, owner, {});
      var groups := GetOr(requestBlocks, owner, map[]);
      CloseEpoch(epoch);
      if known {
        var settled, resolved := SettleGroups(groups, pending, trims, request, actual);
        Publish(epoch, owner, isLatest, settled, resolved);
      }
    }

    /** Close an epoch and forget what it would have published. */
    method DiscardEpoch(epoch: Id)
      modifies this
      ensures Tables() == Discard(old(Tables()), epoch)
    {
      pendingBlocks := pendingBlocks - {epoch};
      epochBlocks := epochBlocks - {epoch};
      epochFullContext := epochFullContext - {epoch};
      if epoch in epochOwners {
        var owner := epochOwners[epoch];
        epochOwners := epochOwners - {epoch};
        if owner in latestEpoch && latestEpoch[owner] == epoch {
          latestEpoch := latestEpoch - {owner};
        }
      }
    }

    method MarkEpochs(req: Id) returns (marked: map<Id, map<GroupId, Blocks>>)
      requires epochOwners.Keys <= epochBlocks.Keys
      ensures marked == UnknownEpochs(Tables(), req, epochOwners.Keys)
    {
      hide UnknownGroups, UnknownEpochs;
      marked := epochBlocks;
      NoneMarked(Tables(), req);
      var todo := epochOwners.Keys;
      assert epochOwners.Keys - todo == {};
      while todo != {}
        invariant todo <= epochOwners.Keys
        invariant marked == UnknownEpochs(Tables(), req, epochOwners.Keys - todo)
        decreases todo
      {
        var e :| e in todo;
        OneMoreMarked(Tables(), req, epochOwners.Keys - todo, e);
        assert epochOwners.Keys - (todo - {e}) == epochOwners.Keys - todo + {e};
        if epochOwners[e] == req {
          marked := marked[e := UnknownGroups(marked[e])];
        }
        todo := todo - {e};
      }
      assert epochOwners.Keys - todo == epochOwners.Keys;
    }

    /** Keep a request's blocks but forget how full they are, in its own tables and in those of its
        epochs.  Every epoch with an owner must have its tables, or the lookup fails. */
    method MarkRequestUnknown(req: Id)
      requires epochOwners.Keys <= epochBlocks.Keys
      modifies this
      ensures Tables() == MarkUnknown(old(Tables()), req)
    {
      hide UnknownGroups, UnknownEpochs;
      var marked := MarkEpochs(req);
      if req in requestBlocks {
        requestBlocks := requestBlocks[req := UnknownGroups(requestBlocks[req])];
      }
      epochBlocks := marked;
    }

    method RemoveOwners(removed: set<Id>)
      modifies this
      ensures Tables() == RemovedSoFar(old(Tables()), removed, {})
    {
      NothingRemoved(Tables(), removed);
      requestBlocks := requestBlocks - removed;
      requestFullContext := requestFullContext - removed;
      latestEpoch := latestEpoch - removed;
    }

    /** Forget finished and preempted requests and discard their epochs. */
    method Remove(removed: set<Id>)
      modifies this
      ensures Tables() == RemoveRequests(old(Tables()), removed)
    {
      hide Discard, RemovedSoFar, RemoveRequests, EpochsOf;
      ghost var t := Tables();
      var todo := EpochsOf(epochOwners, removed);
      RemoveOwners(removed);
      ghost var done := {};
      while todo != {}
        invariant todo !! done && todo + done == EpochsOf(t.epochOwners, removed)
        invariant Tables() == RemovedSoFar(t, removed, done)
        decreases todo
      {
        var e :| e in todo;
        OneMoreRemoved(t, removed, done, e);
        DiscardEpoch(e);
        todo, done := todo - {e}, done + {e};
      }
      AllRemoved(t, removed);
    }

    /** Merge the resolved fills of every settled epoch into the step tables. */
    method ConsumeEverything()
      modifies this`resolvedBlocks, this`stepBlocks
      ensures Tables() == ConsumeAll(old(Tables()))
    {
      hide ConsumedGroup, MergeGroups, ConsumedStep;
      ghost var t := Tables();
      var todo := resolvedBlocks.Keys;
      NothingConsumed(t);
      assert t.resolved - t.resolved.Keys == map[];
      while todo != {}
        invariant todo <= t.resolved.Keys
        invariant resolvedBlocks == t.resolved - (t.resolved.Keys - todo)
        invariant stepBlocks == ConsumedStep(t, t.resolved - todo)
        decreases todo
      {
        var e :| e in todo;
        ConsumeOne(t, todo, e);
        ConsumeResolved(e);
        todo := todo - {e};
      }
      assert t.resolved - todo == t.resolved;
    }

    /** Start of an update: clear the step tables, forget removed requests, publish settled fills. */
    method Begin(removed: set<Id>)
      modifies this
      ensures Tables() == BeginStep(configs, old(Tables()), removed)
    {
      hide RemoveRequests, ConsumeAll;
      stepBlocks := map g | g in configs :: map[];
      Remove(removed);
      ConsumeEverything();
    }

    method Open(req: Id, epoch: Id, groups: map<GroupId, Blocks>, full: set<GroupId>,
                pending: map<GroupId, map<nat, nat>>)
      modifies this
      ensures Tables() == OpenEpoch(old(Tables()), req, epoch, groups, full, pending)
    {
      hide RetainedBlocks;
      var retained := Retain(groups, full, pending);
      var epochFull := full * pending.Keys;
      pendingBlocks := pendingBlocks[epoch := pending];
      epochBlocks := epochBlocks[epoch := retained];
      if epochFull != {} {
        epochFullContext := epochFullContext[epoch := epochFull];
      }
      epochOwners := epochOwners[epoch := req];
      latestEpoch := latestEpoch[req := epoch];
    }

    /** Enter one scheduled request. */
    method EnterRequest(req: Id, epoch: Id, request: Request, scheduled: nat, rollback: nat)
      requires ValidConfigs(configs) && stepBlocks.Keys == configs.Keys
      modifies this
      ensures Tables() == Enter(configs, old(Tables()), req, epoch, request, scheduled, rollback)
      ensures stepBlocks.Keys == configs.Keys
    {
      hide ScheduledGroups, ScheduledFull, ScheduledPending, ScheduledStep, OpenEpoch;
      var w := WindowOf(request.computed, scheduled, rollback);
      ScheduledStepKeys(configs, request, w, stepBlocks);
      var groups, full, pending := EnterGroups(request, w, GetOr(requestBlocks, req, map[]),
                                               GetOr(requestFullContext, req, {}), rollback);
      requestBlocks := requestBlocks[req := groups];
      requestFullContext := requestFullContext[req := full];
      if pending != map[] {
        OpenEpochKeepsStep(Tables(), req, epoch, groups, full, pending);
        Open(req, epoch, groups, full, pending);
      }
    }

    /** One scheduler step. */
    method Update(requests: map<Id, Request>, scheduled: seq<Schedule>, removed: set<Id>,
                  rollback: map<Id, nat>, epochs: map<Id, Id>)
      requires ValidConfigs(configs)
      modifies this
      ensures Tables() == Ownership.Update(configs, old(Tables()), requests, scheduled, removed, rollback, epochs)
    {
      hide Enter, Resolve, ConsumeAll, RemoveRequests;
      Begin(removed);
      ghost var t := Tables();
      BeginStepKeys(configs, old(Tables()), removed);
      for j := 0 to |scheduled|
        invariant stepBlocks.Keys == configs.Keys
        invariant Tables() == ScheduleAll(configs, t, requests, scheduled[..j], rollback, epochs)
      {
        assert scheduled[..j + 1][..j] == scheduled[..j];
        var req := scheduled[j].req;
        if req in requests {
          var request, epoch := requests[req], GetOr(epochs, req, req);
          if epoch in pendingBlocks {
            ResolveKeepsStep(configs, Tables(), epoch, request, request.computed);
            ResolveAsync(epoch, request, request.computed);
            ConsumeResolved(epoch);
          }
          EnterRequest(req, epoch, request, scheduled[j].tokens, GetOr(rollback, req, 0));
        }
      }
      assert scheduled[..|scheduled|] == scheduled;
    }

    static method GroupOf(m: map<Id, map<GroupId, Blocks>>, g: GroupId) returns (sources: seq<Blocks>)
      ensures SetOf(sources) == GroupSources(m, g)
    {
      sources := [];
      var todo := m.Keys;
      while todo != {}
        invariant todo <= m.Keys
        invariant SetOf(sources) == GroupSources(m - todo, g)
        decreases todo
      {
        var k :| k in todo;
        GroupSourcesInsert(m, todo, k, g);
        SetOfAppend(sources, GetOr(m[k], g, map[]));
        sources := sources + [GetOr(m[k], g, map[])];
        todo := todo - {k};
      }
      assert m - todo == m;
    }

    /** Blocks that must stay exact, each with the largest known fill over every table. */
    method BlockFills(g: GroupId) returns (fills: Blocks)
      ensures IsJoin(fills, Sources(Tables(), g))
      ensures fills == Ownership.BlockFills(Tables(), g)
    {
      hide JoinAll, IsJoin, JoinOf;
      var requests := GroupOf(requestBlocks, g);
      var epochs := GroupOf(epochBlocks, g);
      var resolved := GroupOf(resolvedBlocks, g);
      var sources := [GetOr(stepBlocks, g, map[])] + requests + epochs + resolved;
      SetOfConcat([GetOr(stepBlocks, g, map[])], requests);
      SetOfConcat([GetOr(stepBlocks, g, map[])] + requests, epochs);
      SetOfConcat([GetOr(stepBlocks, g, map[])] + requests + epochs, resolved);
      assert SetOf([GetOr(stepBlocks, g, map[])]) == {GetOr(stepBlocks, g, map[])};
      fills := MergeSources(sources);
      JoinUnique(fills, Ownership.BlockFills(Tables(), g), Sources(Tables(), g));
    }
  }
}
