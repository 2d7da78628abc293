/** Keeping one request's blocks apart from everybody else's.

    Requests share a pool of physical blocks, and a block moves from one request to another when
    it is recycled.  As long as nothing the tracker holds for other requests meets the blocks of
    request `r`, no call on behalf of another request can bring them in, and in the step tables
    the blocks of `r` are exactly those its own step writes. */
module Separation {
  import opened Sharding
  import opened FillMaps
  import opened Ownership
  import opened BlockRanges
  import opened EpochSafety
  import opened PoolBound
  import opened AsyncRefinement
  import opened SpeculativeRuns

  /** All physical blocks of a table. */
  function AllBlocks(ids: seq<nat>, m: nat): set<nat>
    requires m > 0
  {
    PhysicalRange(ids, m, 0, |ids| * m)
  }

  function GroupKeys<V>(groups: map<GroupId, map<nat, V>>, g: GroupId): set<nat> {
    if g in groups then groups[g].Keys else {}
  }

  ghost predicate AllApart<V>(tables: map<Id, map<GroupId, map<nat, V>>>, g: GroupId, own: set<nat>) {
    forall k :: k in tables ==> GroupKeys(tables[k], g) !! own
  }

  /** Nothing held for requests other than `r` meets `own`: not what they keep, not what their
      epochs retain or may still write, and not the settled fills still to be published. */
  ghost predicate KeepApart(t: Tables, r: Id, g: GroupId, own: set<nat>) {
    && AllApart(t.requestBlocks - {r}, g, own)
    && AllApart(t.epochBlocks, g, own) && AllApart(t.pending, g, own) && AllApart(t.resolved, g, own)
  }

  /** No epoch of `r` is open. */
  ghost predicate NoEpochOf(t: Tables, r: Id) {
    forall e :: e in t.epochOwners ==> t.epochOwners[e] != r
  }

  /** The table of group `g` in `request` meets none of the blocks in `own`. */
  ghost predicate TableApart(configs: Configs, request: Request, g: GroupId, own: set<nat>)
    requires ValidConfigs(configs)
  {
    g in configs && g < |request.blockIds| ==> AllBlocks(request.blockIds[g], configs[g].perManager) !! own
  }

  // ---- ranges of a table ----

  lemma RangeInAll(ids: seq<nat>, m: nat, lo: nat, hi: nat)
    requires m > 0 && (lo < hi ==> hi <= |ids| * m)
    ensures PhysicalRange(ids, m, lo, hi) <= AllBlocks(ids, m)
  {
    hide PhysicalRange;
    RangeWithin(ids, m, lo, hi, 0, |ids| * m);
  }

  lemma OwnInAll(ids: seq<nat>, m: nat, l: nat)
    requires m > 0 && InTable(ids, l, m)
    ensures PhysicalBlock(ids, l, m) in AllBlocks(ids, m)
  {
    hide PhysicalBlock, PhysicalRange;
    InRange(ids, m, 0, |ids| * m, l);
  }

  lemma SpanInAll(cfg: GroupConfig, ids: seq<nat>, s: Span)
    requires cfg.Valid()
    ensures SpanBlocks(cfg, ids, s).Keys <= AllBlocks(ids, cfg.perManager)
  {
    hide PhysicalRange, SpanBlocks, AllBlocks, NumLogical;
    RangeInAll(ids, cfg.perManager, 0, NumLogical(cfg, ids, s.maxEnd));
    SpanBlocksWithin(cfg, ids, s);
  }

  /** Blocks kept for a scheduled request stay apart from `own`. */
  lemma GroupApart(cfg: GroupConfig, ids: seq<nat>, w: Window, previous: map<GroupId, Blocks>,
                   previousFull: set<GroupId>, g: GroupId, own: set<nat>)
    requires cfg.Valid() && AllBlocks(ids, cfg.perManager) !! own && GroupKeys(previous, g) !! own
    ensures GroupBlocks(cfg, ids, w, previous, previousFull, g).Keys !! own
  {
    hide LocalNumTokens, PhysicalRange, AssignRange, SpanBlocks, FirstUpdate, AllBlocks, NumLogical;
    var s, m := SpanOf(cfg, w), cfg.perManager;
    var n := NumLogical(cfg, ids, s.maxEnd);
    RangeInAll(ids, m, FirstUpdate(cfg, s), n);
    SpanInAll(cfg, ids, s);
    if g in previous {
      AssignKeys(cfg, ids, s.minEnd, FirstUpdate(cfg, s), n, previous[g]);
    }
  }

  lemma TouchedInAll(cfg: GroupConfig, ids: seq<nat>, s: Span)
    requires cfg.Valid() && NumLogical(cfg, ids, s.maxEnd) > 0
    ensures TouchedLogical(cfg, ids, s).Keys <= AllBlocks(ids, cfg.perManager)
  {
    hide PhysicalRange, AllBlocks, NumLogical, LogicalRange, TouchedFrom;
    if Touches(s) {
      LogicalKeys(ids, cfg.perManager, TouchedFrom(cfg, s), TouchedTo(cfg, ids, s));
      RangeInAll(ids, cfg.perManager, TouchedFrom(cfg, s), TouchedTo(cfg, ids, s));
    }
  }

  // ---- step tables ----

  /** In a step table exactly the blocks lo..hi of the table occur, with their fills at end `e`. */
  ghost predicate StepIs(cfg: GroupConfig, ids: seq<nat>, step: Blocks, lo: nat, hi: nat, e: nat)
    requires cfg.Valid()
  {
    forall l: nat :: InTable(ids, l, cfg.perManager) ==> StepHas(cfg, ids, step, lo, hi, e, l)
  }

  ghost predicate StepHas(cfg: GroupConfig, ids: seq<nat>, step: Blocks, lo: nat, hi: nat, e: nat, l: nat)
    requires cfg.Valid() && InTable(ids, l, cfg.perManager)
  {
    var b := PhysicalBlock(ids, l, cfg.perManager);
    (b in step <==> lo <= l < hi) && (b in step ==> step[b] == FillAt(cfg, e, l))
  }

  /** Maps that agree on the request's blocks agree on what its step wrote. */
  lemma StepSame(cfg: GroupConfig, mine: seq<nat>, step: Blocks, step': Blocks, lo: nat, hi: nat, e: nat)
    requires cfg.Valid() && StepIs(cfg, mine, step, lo, hi, e)
    requires forall b :: b in AllBlocks(mine, cfg.perManager) ==>
      (b in step' <==> b in step) && (b in step ==> step'[b] == step[b])
    ensures StepIs(cfg, mine, step', lo, hi, e)
  {
    hide PhysicalRange, PhysicalBlock, AllBlocks, FillAt;
    forall l: nat | InTable(mine, l, cfg.perManager)
      ensures StepHas(cfg, mine, step', lo, hi, e, l)
    {
      assert StepHas(cfg, mine, step, lo, hi, e, l);
      OwnInAll(mine, cfg.perManager, l);
    }
  }

  /** Merging blocks of other requests leaves the followed request's entries alone. */
  lemma StepMergeApart(cfg: GroupConfig, mine: seq<nat>, step: Blocks, more: Blocks, lo: nat, hi: nat, e: nat)
    requires cfg.Valid() && StepIs(cfg, mine, step, lo, hi, e) && more.Keys !! AllBlocks(mine, cfg.perManager)
    ensures StepIs(cfg, mine, MergeMaps(step, more), lo, hi, e)
  {
    hide StepIs, AllBlocks;
    StepSame(cfg, mine, step, MergeMaps(step, more), lo, hi, e);
  }

  lemma StepApart(cfg: GroupConfig, ids: seq<nat>, s: Span, step: Blocks, mine: seq<nat>, lo: nat, hi: nat, e: nat)
    requires cfg.Valid() && AllBlocks(ids, cfg.perManager) !! AllBlocks(mine, cfg.perManager)
    requires NumLogical(cfg, ids, s.maxEnd) > 0 && StepIs(cfg, mine, step, lo, hi, e)
    ensures StepIs(cfg, mine, MergeTouched(cfg, ids, s, step), lo, hi, e)
  {
    hide PhysicalRange, MergeRange, NumLogical, AllBlocks, TouchedFrom, TouchedTo, StepIs;
    if Touches(s) {
      var from, to := TouchedFrom(cfg, s), TouchedTo(cfg, ids, s);
      RangeInAll(ids, cfg.perManager, from, to);
      forall b | b in AllBlocks(mine, cfg.perManager)
        ensures b in MergeTouched(cfg, ids, s, step) <==> b in step
        ensures b in step ==> MergeTouched(cfg, ids, s, step)[b] == step[b]
      {
        MergeElsewhere(cfg, ids, s.minEnd, from, to, step, b);
      }
      StepSame(cfg, mine, step, MergeTouched(cfg, ids, s, step), lo, hi, e);
    }
  }

  /** Merging the followed request's own touched blocks. */
  lemma StepOwn(cfg: GroupConfig, ids: seq<nat>, s: Span, step: Blocks)
    requires cfg.Valid() && Distinct(ids)
    requires NumLogical(cfg, ids, s.maxEnd) > 0 && StepIs(cfg, ids, step, 0, 0, 0)
    ensures StepIs(cfg, ids, MergeTouched(cfg, ids, s, step),
                   if Touches(s) then TouchedFrom(cfg, s) else 0, TouchedTo(cfg, ids, s), s.minEnd)
  {
    hide PhysicalRange, PhysicalBlock, MergeRange, NumLogical, FillAt, TouchedFrom;
    var from, to := TouchedFrom(cfg, s), TouchedTo(cfg, ids, s);
    forall l: nat | InTable(ids, l, cfg.perManager)
      ensures StepHas(cfg, ids, MergeTouched(cfg, ids, s, step), if Touches(s) then from else 0, to, s.minEnd, l)
    {
      assert StepHas(cfg, ids, step, 0, 0, 0, l);
      if Touches(s) {
        MergeAt(cfg, ids, s.minEnd, from, to, step, l);
      }
    }
  }

  lemma StepEmpty(cfg: GroupConfig, ids: seq<nat>, step: Blocks, e: nat)
    requires cfg.Valid()
    ensures StepIs(cfg, ids, step, 0, 0, 0) <==> StepIs(cfg, ids, step, 0, 0, e)
  {
    hide PhysicalBlock, FillAt;
    forall l: nat | InTable(ids, l, cfg.perManager)
      ensures StepHas(cfg, ids, step, 0, 0, 0, l) <==> StepHas(cfg, ids, step, 0, 0, e, l)
    {
    }
  }

  /** A step table without the request's blocks. */
  lemma StepFree(cfg: GroupConfig, ids: seq<nat>, step: Blocks)
    requires cfg.Valid() && step.Keys !! AllBlocks(ids, cfg.perManager)
    ensures StepIs(cfg, ids, step, 0, 0, 0)
  {
    hide PhysicalBlock, FillAt, AllBlocks;
    forall l: nat | InTable(ids, l, cfg.perManager)
      ensures StepHas(cfg, ids, step, 0, 0, 0, l)
    {
      OwnInAll(ids, cfg.perManager, l);
    }
  }

  ghost predicate StepOf(configs: Configs, t: Tables, g: GroupId, mine: seq<nat>, lo: nat, hi: nat, e: nat)
    requires ValidConfigs(configs) && g in configs
  {
    g in t.stepBlocks && StepIs(configs[g], mine, t.stepBlocks[g], lo, hi, e)
  }

  // ---- settling and dropping epochs of other requests ----

  lemma SettledApart(cfg: GroupConfig, owned: Blocks, pending: map<nat, nat>, trim: bool, request: Request,
                     actual: int, g: GroupId, own: set<nat>)
    requires cfg.Valid() && owned.Keys !! own && pending.Keys !! own
    requires g < |request.blockIds| ==> AllBlocks(request.blockIds[g], cfg.perManager) !! own
    ensures SettledGroup(cfg, owned, pending, trim, request, actual, g).Keys !! own
  {
    hide LocalNumTokens, AllBlocks, SpanBlocks, ResolvedFills;
    if Reaches(request, actual, g) {
      FillsKeys(cfg, pending, cfg.Local(actual));
      SpanInAll(cfg, request.blockIds[g], SpanOf(cfg, Window(actual, actual, actual)));
    }
  }

  lemma ResolvedOwnerApart(configs: Configs, groups: map<GroupId, Blocks>, pending: map<GroupId, map<nat, nat>>,
                           trims: set<GroupId>, request: Request, actual: int, g: GroupId, own: set<nat>)
    requires ValidConfigs(configs) && TableApart(configs, request, g, own)
    requires GroupKeys(groups, g) !! own && GroupKeys(pending, g) !! own
    ensures GroupKeys(ResolvedOwner(configs, groups, pending, trims, request, actual), g) !! own
  {
    hide SettledGroup, AllBlocks, Reaches;
    if g in configs {
      SettledApart(configs[g], GetOr(groups, g, map[]), GetOr(pending, g, map[]), g in trims, request, actual, g, own);
    }
  }

  lemma ResolvedPendingApart(configs: Configs, pending: map<GroupId, map<nat, nat>>, request: Request, actual: int,
                             g: GroupId, own: set<nat>)
    requires ValidConfigs(configs) && GroupKeys(pending, g) !! own
    ensures GroupKeys(ResolvedPending(configs, pending, request, actual), g) !! own
  {
    hide ResolvedFills, LocalNumTokens;
    if g in configs && g in pending && actual > 0 {
      FillsKeys(configs[g], pending[g], configs[g].Local(actual));
    }
  }

  lemma FewerApart<V>(tables: map<Id, map<GroupId, map<nat, V>>>, gone: set<Id>, g: GroupId, own: set<nat>)
    requires AllApart(tables, g, own)
    ensures AllApart(tables - gone, g, own)
  {
    hide GroupKeys;
  }

  lemma MoreApart<V>(tables: map<Id, map<GroupId, map<nat, V>>>, k: Id, groups: map<GroupId, map<nat, V>>,
                     g: GroupId, own: set<nat>)
    requires AllApart(tables, g, own) && GroupKeys(groups, g) !! own
    ensures AllApart(tables[k := groups], g, own)
  {
    hide GroupKeys;
  }

  lemma OneApart<V>(tables: map<Id, map<GroupId, map<nat, V>>>, k: Id, g: GroupId, own: set<nat>)
    requires AllApart(tables, g, own)
    ensures GroupKeys(GetOr(tables, k, map[]), g) !! own
  {
  }

  lemma DropApart(t: Tables, epoch: Id, r: Id, g: GroupId, own: set<nat>)
    requires KeepApart(t, r, g, own)
    ensures KeepApart(DropEpoch(t, epoch), r, g, own)
  {
    hide AllApart;
    FewerApart(t.epochBlocks, {epoch}, g, own);
    FewerApart(t.pending, {epoch}, g, own);
  }

  lemma WithoutUpdate<V>(m: map<Id, V>, r: Id, q: Id, v: V)
    requires q != r
    ensures m[q := v] - {r} == (m - {r})[q := v]
  {
  }

  lemma PublishApart(t: Tables, epoch: Id, owner: Id, latest: bool, groups: map<GroupId, Blocks>,
                     resolved: map<GroupId, Blocks>, r: Id, g: GroupId, own: set<nat>)
    requires KeepApart(t, r, g, own) && owner != r && GroupKeys(groups, g) !! own && GroupKeys(resolved, g) !! own
    ensures KeepApart(PublishEpoch(t, epoch, owner, latest, groups, resolved), r, g, own)
  {
    hide AllApart, GroupKeys;
    WithoutUpdate(t.requestBlocks, r, owner, groups);
    MoreApart(t.requestBlocks - {r}, owner, groups, g, own);
    MoreApart(t.resolved, epoch, resolved, g, own);
  }

  lemma OwnerIsOther(t: Tables, epoch: Id, r: Id)
    requires EpochInvariant(t) && NoEpochOf(t, r) && epoch in t.pending
    ensures GetOr(t.epochOwners, epoch, epoch) != r
  {
    hide EpochsCovered, LatestIsOpen;
  }

  lemma ResolveApart(configs: Configs, t: Tables, epoch: Id, request: Request, actual: int, r: Id, g: GroupId,
                     own: set<nat>)
    requires ValidConfigs(configs) && EpochInvariant(t) && NoEpochOf(t, r) && KeepApart(t, r, g, own)
    requires epoch in t.pending ==> TableApart(configs, request, g, own)
    ensures KeepApart(Resolve(configs, t, epoch, request, actual), r, g, own)
    ensures NoEpochOf(Resolve(configs, t, epoch, request, actual), r)
    ensures Resolve(configs, t, epoch, request, actual).stepBlocks == t.stepBlocks
  {
    hide ResolvedOwner, ResolvedPending, TrimGroups, IsLatest, DropEpoch, PublishEpoch, EpochInvariant, AllApart;
    hide TableApart;
    ResolvedOwners(configs, t, epoch, request, actual);
    ResolveKeepsStep(configs, t, epoch, request, actual);
    DropApart(t, epoch, r, g, own);
    if epoch in t.pending {
      var owner := GetOr(t.epochOwners, epoch, epoch);
      var groups := GetOr(t.requestBlocks, owner, map[]);
      OwnerIsOther(t, epoch, r);
      assert GetOr(t.requestBlocks - {r}, owner, map[]) == groups;
      OneApart(t.requestBlocks - {r}, owner, g, own);
      OneApart(t.pending, epoch, g, own);
      ResolvedOwnerApart(configs, groups, t.pending[epoch], TrimGroups(t, epoch, owner), request, actual, g, own);
      ResolvedPendingApart(configs, t.pending[epoch], request, actual, g, own);
      PublishApart(DropEpoch(t, epoch), epoch, owner, IsLatest(t, epoch),
        ResolvedOwner(configs, groups, t.pending[epoch], TrimGroups(t, epoch, owner), request, actual),
        ResolvedPending(configs, t.pending[epoch], request, actual), r, g, own);
    }
  }

  lemma DiscardApart(t: Tables, epoch: Id, r: Id, g: GroupId, own: set<nat>)
    requires KeepApart(t, r, g, own) && NoEpochOf(t, r)
    ensures KeepApart(Discard(t, epoch), r, g, own) && NoEpochOf(Discard(t, epoch), r)
  {
    hide AllApart;
    DropApart(t, epoch, r, g, own);
  }

  lemma UnknownKeys(groups: map<GroupId, Blocks>, g: GroupId)
    ensures GroupKeys(UnknownGroups(groups), g) == GroupKeys(groups, g)
  {
  }

  lemma MarkApart(t: Tables, req: Id, r: Id, g: GroupId, own: set<nat>)
    requires KeepApart(t, r, g, own) && NoEpochOf(t, r)
    ensures KeepApart(MarkUnknown(t, req), r, g, own) && NoEpochOf(MarkUnknown(t, req), r)
  {
    hide UnknownGroups, GroupKeys;
    var u := MarkUnknown(t, req);
    forall q | q in u.requestBlocks - {r}
      ensures GroupKeys(u.requestBlocks[q], g) !! own
    {
      assert q in t.requestBlocks - {r};
      UnknownKeys(t.requestBlocks[q], g);
    }
    forall e | e in u.epochBlocks
      ensures GroupKeys(u.epochBlocks[e], g) !! own
    {
      UnknownKeys(t.epochBlocks[e], g);
    }
  }

  // ---- one scheduled request ----

  lemma ConsumeApart(configs: Configs, t: Tables, epoch: Id, r: Id, g: GroupId, mine: seq<nat>, lo: nat, hi: nat,
                     e: nat)
    requires ValidConfigs(configs) && g in configs
    requires KeepApart(t, r, g, AllBlocks(mine, configs[g].perManager))
    ensures KeepApart(ConsumeResolved(t, epoch), r, g, AllBlocks(mine, configs[g].perManager))
    ensures StepOf(configs, t, g, mine, lo, hi, e) ==> StepOf(configs, ConsumeResolved(t, epoch), g, mine, lo, hi, e)
  {
    hide AllApart, AllBlocks, StepIs, MergeGroups;
    var own, more := AllBlocks(mine, configs[g].perManager), GetOr(t.resolved, epoch, map[]);
    FewerApart(t.resolved, {epoch}, g, own);
    OneApart(t.resolved, epoch, g, own);
    if StepOf(configs, t, g, mine, lo, hi, e) {
      GroupsMergeApart(configs[g], t.stepBlocks, more, g, mine, lo, hi, e);
    }
  }

  lemma GroupsMergeApart(cfg: GroupConfig, step: map<GroupId, Blocks>, more: map<GroupId, Blocks>, g: GroupId,
                         mine: seq<nat>, lo: nat, hi: nat, e: nat)
    requires cfg.Valid() && g in step && StepIs(cfg, mine, step[g], lo, hi, e)
    requires GroupKeys(more, g) !! AllBlocks(mine, cfg.perManager)
    ensures g in MergeGroups(step, more) && StepIs(cfg, mine, MergeGroups(step, more)[g], lo, hi, e)
  {
    hide AllBlocks, StepIs, MergeMaps;
    if g in more {
      StepMergeApart(cfg, mine, step[g], more[g], lo, hi, e);
    }
  }

  lemma ClearedApart(configs: Configs, t: Tables, epoch: Id, request: Request, r: Id, g: GroupId, mine: seq<nat>,
                     lo: nat, hi: nat, e: nat)
    requires ValidConfigs(configs) && g in configs && EpochInvariant(t) && NoEpochOf(t, r)
    requires KeepApart(t, r, g, AllBlocks(mine, configs[g].perManager))
    requires epoch in t.pending ==> TableApart(configs, request, g, AllBlocks(mine, configs[g].perManager))
    ensures var cleared := Cleared(configs, t, epoch, request);
      && KeepApart(cleared, r, g, AllBlocks(mine, configs[g].perManager)) && NoEpochOf(cleared, r)
      && (StepOf(configs, t, g, mine, lo, hi, e) ==> StepOf(configs, cleared, g, mine, lo, hi, e))
  {
    hide Resolve, AllApart, AllBlocks, StepIs, EpochInvariant, KeepApart, TableApart;
    if epoch in t.pending {
      ResolveApart(configs, t, epoch, request, request.computed, r, g, AllBlocks(mine, configs[g].perManager));
      ConsumeApart(configs, Resolve(configs, t, epoch, request, request.computed), epoch, r, g, mine, lo, hi, e);
    }
  }

  /** What a request entered with a table apart from `own` adds. */
  lemma ScheduledApart(configs: Configs, request: Request, w: Window, previous: map<GroupId, Blocks>,
                       previousFull: set<GroupId>, g: GroupId, own: set<nat>)
    requires ValidConfigs(configs) && TableApart(configs, request, g, own) && GroupKeys(previous, g) !! own
    ensures GroupKeys(ScheduledGroups(configs, request, w, previous, previousFull), g) !! own
    ensures GroupKeys(ScheduledPending(configs, request, w), g) !! own
  {
    hide LocalNumTokens, GroupBlocks, TouchedLogical, NumLogical, AllBlocks;
    if g in configs && Active(configs, request, w, g) {
      GroupApart(configs[g], request.blockIds[g], w, previous, previousFull, g, own);
      TouchedInAll(configs[g], request.blockIds[g], SpanOf(configs[g], w));
    }
  }

  lemma RetainedApart(groups: map<GroupId, Blocks>, full: set<GroupId>, pending: map<GroupId, map<nat, nat>>,
                      step: map<GroupId, Blocks>, g: GroupId, own: set<nat>)
    requires GroupKeys(groups, g) !! own && GroupKeys(pending, g) !! own
    ensures GroupKeys(RetainedBlocks(groups, full, pending, step), g) !! own
  {
  }

  lemma OpenApart(t: Tables, q: Id, epoch: Id, groups: map<GroupId, Blocks>, full: set<GroupId>,
                  pending: map<GroupId, map<nat, nat>>, r: Id, g: GroupId, own: set<nat>)
    requires KeepApart(t, r, g, own) && NoEpochOf(t, r) && q != r
    requires GroupKeys(groups, g) !! own && GroupKeys(pending, g) !! own
    ensures KeepApart(OpenEpoch(t, q, epoch, groups, full, pending), r, g, own)
    ensures NoEpochOf(OpenEpoch(t, q, epoch, groups, full, pending), r)
  {
    hide RetainedBlocks, AllApart, GroupKeys;
    RetainedApart(groups, full, pending, t.stepBlocks, g, own);
    MoreApart(t.pending, epoch, pending, g, own);
    MoreApart(t.epochBlocks, epoch, RetainedBlocks(groups, full, pending, t.stepBlocks), g, own);
  }

  lemma OwnApart(t: Tables, q: Id, groups: map<GroupId, Blocks>, full: set<GroupId>, step: map<GroupId, Blocks>,
                 r: Id, g: GroupId, own: set<nat>)
    requires KeepApart(t, r, g, own) && NoEpochOf(t, r) && (q != r ==> GroupKeys(groups, g) !! own)
    ensures KeepApart(OwnGroups(t, q, groups, full, step), r, g, own)
    ensures NoEpochOf(OwnGroups(t, q, groups, full, step), r)
    ensures OwnGroups(t, q, groups, full, step).stepBlocks == step
  {
    hide AllApart, GroupKeys;
    if q != r {
      WithoutUpdate(t.requestBlocks, r, q, groups);
      MoreApart(t.requestBlocks - {r}, q, groups, g, own);
    } else {
      assert t.requestBlocks[q := groups] - {r} == t.requestBlocks - {r};
    }
  }

  /** Entering another request. */
  lemma EnterApart(configs: Configs, t: Tables, q: Id, epoch: Id, request: Request, tokens: nat, rollback: nat,
                   r: Id, g: GroupId, mine: seq<nat>, lo: nat, hi: nat, e: nat)
    requires ValidConfigs(configs) && g in configs && q != r && t.stepBlocks.Keys == configs.Keys && NoEpochOf(t, r)
    requires KeepApart(t, r, g, AllBlocks(mine, configs[g].perManager))
    requires TableApart(configs, request, g, AllBlocks(mine, configs[g].perManager))
    ensures var after := Enter(configs, t, q, epoch, request, tokens, rollback);
      && KeepApart(after, r, g, AllBlocks(mine, configs[g].perManager)) && NoEpochOf(after, r)
      && (StepOf(configs, t, g, mine, lo, hi, e) ==> StepOf(configs, after, g, mine, lo, hi, e))
  {
    hide ScheduledGroups, ScheduledFull, ScheduledPending, OwnGroups, OpenEpoch, AllBlocks, KeepApart, TableApart;
    hide LocalNumTokens, NumLogical, MergeTouched, StepIs, NoEpochOf, GroupKeys;
    var own := AllBlocks(mine, configs[g].perManager);
    var w := WindowOf(request.computed, tokens, rollback);
    var previous, previousFull := GetOr(t.requestBlocks, q, map[]), GetOr(t.requestFull, q, {});
    var groups, full := ScheduledGroups(configs, request, w, previous, previousFull),
        ScheduledFull(configs, request, w);
    var step, pending := ScheduledStep(configs, request, w, t.stepBlocks), ScheduledPending(configs, request, w);
    PreviousApart(t, q, r, g, own);
    ScheduledApart(configs, request, w, previous, previousFull, g, own);
    OwnApart(t, q, groups, full, step, r, g, own);
    var owned := OwnGroups(t, q, groups, full, step);
    OpenEpochKeepsStep(owned, q, epoch, groups, full, pending);
    OpenApart(owned, q, epoch, groups, full, pending, r, g, own);
    if StepOf(configs, t, g, mine, lo, hi, e) && Active(configs, request, w, g) {
      TableApartIs(configs, request, g, own);
      StepApart(configs[g], request.blockIds[g], SpanOf(configs[g], w), t.stepBlocks[g], mine, lo, hi, e);
    }
  }

  lemma TableApartIs(configs: Configs, request: Request, g: GroupId, own: set<nat>)
    requires ValidConfigs(configs) && TableApart(configs, request, g, own) && g in configs && g < |request.blockIds|
    ensures AllBlocks(request.blockIds[g], configs[g].perManager) !! own
  {
  }

  lemma PreviousApart(t: Tables, q: Id, r: Id, g: GroupId, own: set<nat>)
    requires KeepApart(t, r, g, own) && q != r
    ensures GroupKeys(GetOr(t.requestBlocks, q, map[]), g) !! own
  {
    hide AllApart, GroupKeys;
    OneApart(t.requestBlocks - {r}, q, g, own);
  }

  /** Another request is scheduled: its open epoch is settled first. */
  lemma OtherScheduled(configs: Configs, t: Tables, requests: map<Id, Request>, s: Schedule, rollback: map<Id, nat>,
                       epochs: map<Id, Id>, r: Id, names: iset<Id>, g: GroupId, mine: seq<nat>, lo: nat, hi: nat,
                       e: nat)
    requires ValidConfigs(configs) && g in configs && s.req != r && t.stepBlocks.Keys == configs.Keys
    requires Epochs(t, r, names) && NoEpochOf(t, r) && KeepApart(t, r, g, AllBlocks(mine, configs[g].perManager))
    requires s.req in requests ==> TableApart(configs, requests[s.req], g, AllBlocks(mine, configs[g].perManager))
    ensures var after := ScheduleOne(configs, t, requests, s, rollback, epochs);
      && KeepApart(after, r, g, AllBlocks(mine, configs[g].perManager)) && NoEpochOf(after, r)
      && (StepOf(configs, t, g, mine, lo, hi, e) ==> StepOf(configs, after, g, mine, lo, hi, e))
  {
    hide KeepApart, NoEpochOf, StepOf, TableApart, AllBlocks, Enter, EpochInvariant, NamedApart, EpochName, ScheduleOne;
    hide Cleared;
    if s.req in requests {
      var q, epoch, request := s.req, EpochName(epochs, s.req), requests[s.req];
      var cleared := Cleared(configs, t, epoch, request);
      ScheduleOneIs(configs, t, requests, s, rollback, epochs);
      ClearedKeeps(configs, t, epoch, request, r, names);
      ClearedApart(configs, t, epoch, request, r, g, mine, lo, hi, e);
      EnterApart(configs, cleared, q, epoch, request, s.tokens, GetOr(rollback, q, 0), r, g, mine, lo, hi, e);
    } else {
      UnknownRequest(configs, t, requests, s, rollback, epochs);
    }
  }

  /** Entering a request that is not rolled back, under a name that is not open. */
  lemma EnterPlain(configs: Configs, t: Tables, requests: map<Id, Request>, s: Schedule, rollback: map<Id, nat>,
                   epochs: map<Id, Id>)
    requires ValidConfigs(configs) && s.req in requests && GetOr(rollback, s.req, 0) == 0
    requires EpochName(epochs, s.req) !in t.pending
    ensures var request := requests[s.req];
      var w := WindowOf(request.computed, s.tokens, 0);
      ScheduleOne(configs, t, requests, s, rollback, epochs)
        == OwnGroups(t, s.req,
             ScheduledGroups(configs, request, w, GetOr(t.requestBlocks, s.req, map[]),
                 GetOr(t.requestFull, s.req, {})),
             ScheduledFull(configs, request, w), ScheduledStep(configs, request, w, t.stepBlocks))
  {
    hide ScheduledGroups, ScheduledFull, ScheduledStep, ScheduledPending, OwnGroups, Resolve;
  }

  lemma MineIsClosed(t: Tables, r: Id, names: iset<Id>, epoch: Id)
    requires Epochs(t, r, names) && NoEpochOf(t, r) && epoch in names
    ensures epoch !in t.pending
  {
    hide LatestIsOpen, EpochsCovered;
  }

  /** First and last touched logical block of a rollback-free step. */
  function TagFrom(cfg: GroupConfig, start: nat, end: nat): nat
    requires cfg.Valid()
  {
    if cfg.Local(start) < cfg.Local(end) then cfg.Local(start) / cfg.group else 0
  }

  function TagTo(cfg: GroupConfig, start: nat, end: nat): nat
    requires cfg.Valid()
  {
    if cfg.Local(start) < cfg.Local(end) then CeilDiv(cfg.Local(end), cfg.group) else 0
  }

  lemma UntouchedTo(cfg: GroupConfig, ids: seq<nat>, s: Span)
    requires cfg.Valid() && NumLogical(cfg, ids, s.maxEnd) > 0 && !Touches(s)
    ensures TouchedTo(cfg, ids, s) == 0
  {
  }

  /** The followed request is scheduled without rollback. */
  lemma OwnScheduled(configs: Configs, t: Tables, requests: map<Id, Request>, s: Schedule, rollback: map<Id, nat>,
                     epochs: map<Id, Id>, names: iset<Id>, g: GroupId)
    requires ValidConfigs(configs) && g in configs && s.req in requests && g < |requests[s.req].blockIds|
    requires Epochs(t, s.req, names) && NoEpochOf(t, s.req) && EpochName(epochs, s.req) in names
    requires GetOr(rollback, s.req, 0) == 0 && t.stepBlocks.Keys == configs.Keys
    requires Distinct(requests[s.req].blockIds[g])
    requires Holds(configs[g], requests[s.req].blockIds[g], requests[s.req].computed + s.tokens)
    requires KeepApart(t, s.req, g, AllBlocks(requests[s.req].blockIds[g], configs[g].perManager))
    requires StepOf(configs, t, g, requests[s.req].blockIds[g], 0, 0, 0)
    ensures var start, mine := requests[s.req].computed, requests[s.req].blockIds[g];
      var after, end := ScheduleOne(configs, t, requests, s, rollback, epochs), start + s.tokens;
      && KeepApart(after, s.req, g, AllBlocks(mine, configs[g].perManager)) && NoEpochOf(after, s.req)
      && StepOf(configs, after, g, mine, TagFrom(configs[g], start, end), TagTo(configs[g], start, end),
                configs[g].Local(end))
  {
    hide LocalNumTokens, GroupBlocks, MergeTouched, StepIs, AllBlocks, OwnGroups, Distinct, KeepApart, NoEpochOf;
    hide ScheduleOne, TouchedTo, CeilDiv, EpochInvariant, NamedApart, EpochName;
    var cfg, r, request := configs[g], s.req, requests[s.req];
    var w := WindowOf(request.computed, s.tokens, 0);
    var span, ids := SpanOf(cfg, w), request.blockIds[g];
    var previous, previousFull := GetOr(t.requestBlocks, r, map[]), GetOr(t.requestFull, r, {});
    var step := ScheduledStep(configs, request, w, t.stepBlocks);
    MineIsClosed(t, r, names, EpochName(epochs, r));
    EnterPlain(configs, t, requests, s, rollback, epochs);
    OwnApart(t, r, ScheduledGroups(configs, request, w, previous, previousFull), ScheduledFull(configs, request, w),
             step, r, g, AllBlocks(ids, cfg.perManager));
    CountOfZero(cfg.world, cfg.rank, cfg.interleave);
    CeilBounds(0, cfg.group);
    CeilBounds(span.maxEnd, cfg.group);
    if Active(configs, request, w, g) {
      StepOwn(cfg, ids, span, t.stepBlocks[g]);
      if Touches(span) {
        TouchedReachesEnd(cfg, ids, span);
      } else {
        UntouchedTo(cfg, ids, span);
        StepEmpty(cfg, ids, step[g], span.minEnd);
      }
    } else {
      StepEmpty(cfg, ids, step[g], span.minEnd);
    }
  }

  // ---- one update ----

  /** Tables of the other scheduled requests meet none of the blocks in `own`. */
  ghost predicate OthersApart(configs: Configs, requests: map<Id, Request>, scheduled: seq<Schedule>, r: Id,
                              g: GroupId, own: set<nat>)
    requires ValidConfigs(configs)
  {
    forall s :: s in scheduled && s.req in requests && s.req != r ==> TableApart(configs, requests[s.req], g, own)
  }

  lemma {:induction false} AllApartFrom(configs: Configs, t: Tables, requests: map<Id, Request>,
                                        scheduled: seq<Schedule>,
                                        rollback: map<Id, nat>, epochs: map<Id, Id>, r: Id, names: iset<Id>,
                                        g: GroupId, mine: seq<nat>)
    requires ValidConfigs(configs) && g in configs && t.stepBlocks.Keys == configs.Keys
    requires Epochs(t, r, names) && NoEpochOf(t, r) && NamesApart(r, names, requests, scheduled, epochs)
    requires KeepApart(t, r, g, AllBlocks(mine, configs[g].perManager)) && StepOf(configs, t, g, mine, 0, 0, 0)
    requires OthersApart(configs, requests, scheduled, r, g, AllBlocks(mine, configs[g].perManager))
    requires !IsScheduled(r, requests, scheduled)
    ensures var after := ScheduleAll(configs, t, requests, scheduled, rollback, epochs);
      && KeepApart(after, r, g, AllBlocks(mine, configs[g].perManager)) && NoEpochOf(after, r)
      && StepOf(configs, after, g, mine, 0, 0, 0)
  {
    hide ScheduleOne, KeepApart, StepOf, NoEpochOf, TableApart, AllBlocks, EpochInvariant, NamedApart, EpochName;
    if scheduled != [] {
      var front, last := scheduled[..|scheduled| - 1], scheduled[|scheduled| - 1];
      assert forall j :: 0 <= j < |front| ==> front[j] == scheduled[j];
      assert scheduled[|scheduled| - 1] == last;
      AllApartFrom(configs, t, requests, front, rollback, epochs, r, names, g, mine);
      ScheduledWithout(configs, t, requests, front, rollback, epochs, r, names);
      var before := ScheduleAll(configs, t, requests, front, rollback, epochs);
      if last.req == r {
        UnknownRequest(configs, before, requests, last, rollback, epochs);
      } else {
        OtherScheduled(configs, before, requests, last, rollback, epochs, r, names, g, mine, 0, 0, 0);
      }
    }
  }

  lemma {:induction false} AllTagged(configs: Configs, t: Tables, requests: map<Id, Request>, scheduled: seq<Schedule>,
                                     rollback: map<Id, nat>, epochs: map<Id, Id>, j: nat, names: iset<Id>,
                                     g: GroupId, mine: seq<nat>)
    requires ValidConfigs(configs) && g in configs && j < |scheduled| && DistinctRequests(scheduled)
    requires scheduled[j].req in requests && g < |requests[scheduled[j].req].blockIds|
    requires var r := scheduled[j].req;
      && mine == requests[r].blockIds[g] && t.stepBlocks.Keys == configs.Keys
      && Epochs(t, r, names) && NoEpochOf(t, r) && NamesApart(r, names, requests, scheduled, epochs)
      && KeepApart(t, r, g, AllBlocks(mine, configs[g].perManager)) && StepOf(configs, t, g, mine, 0, 0, 0)
      && OthersApart(configs, requests, scheduled, r, g, AllBlocks(mine, configs[g].perManager))
      && GetOr(rollback, r, 0) == 0 && Distinct(mine)
      && Holds(configs[g], mine, requests[r].computed + scheduled[j].tokens)
    ensures var start := requests[scheduled[j].req].computed;
      var after, end := ScheduleAll(configs, t, requests, scheduled, rollback, epochs), start + scheduled[j].tokens;
      && KeepApart(after, scheduled[j].req, g, AllBlocks(mine, configs[g].perManager))
      && NoEpochOf(after, scheduled[j].req)
      && StepOf(configs, after, g, mine, TagFrom(configs[g], start, end), TagTo(configs[g], start, end),
                configs[g].Local(end))
  {
    hide ScheduleOne, KeepApart, StepOf, NoEpochOf, TableApart, AllBlocks, EpochInvariant, NamedApart, EpochName;
    hide TagFrom, TagTo, LocalNumTokens, Holds, Distinct;
    var front, last := scheduled[..|scheduled| - 1], scheduled[|scheduled| - 1];
    var r, start := scheduled[j].req, requests[scheduled[j].req].computed;
    var end := start + scheduled[j].tokens;
    var before := ScheduleAll(configs, t, requests, front, rollback, epochs);
    ScheduledWithout(configs, t, requests, front, rollback, epochs, r, names);
    if j == |scheduled| - 1 {
      assert !IsScheduled(r, requests, front);
      AllApartFrom(configs, t, requests, front, rollback, epochs, r, names, g, mine);
      assert last in scheduled;
      OwnScheduled(configs, before, requests, last, rollback, epochs, names, g);
    } else {
      AllTagged(configs, t, requests, front, rollback, epochs, j, names, g, mine);
      assert last in scheduled;
      OtherScheduled(configs, before, requests, last, rollback, epochs, r, names, g, mine,
                     TagFrom(configs[g], start, end), TagTo(configs[g], start, end), configs[g].Local(end));
    }
  }

  /** At the start of a step, after the removals, nothing held for other requests and no table of
      another scheduled request meets the table `mine` of request `r`. */
  ghost predicate Unshared(configs: Configs, t: Tables, event: Event, r: Id, g: GroupId, mine: seq<nat>)
    requires ValidConfigs(configs) && g in configs && event.Step?
  {
    var own := AllBlocks(mine, configs[g].perManager);
    && KeepApart(RemoveRequests(t, event.removed), r, g, own)
    && OthersApart(configs, event.requests, event.scheduled, r, g, own)
  }

  lemma RemovedApart(t: Tables, step: map<GroupId, Blocks>, removed: set<Id>, r: Id, g: GroupId, own: set<nat>)
    requires r in removed || NoEpochOf(t, r)
    requires KeepApart(RemoveRequests(t, removed), r, g, own)
    ensures KeepApart(RemoveRequests(t.(stepBlocks := step), removed), r, g, own)
    ensures NoEpochOf(RemoveRequests(t.(stepBlocks := step), removed), r)
  {
    hide AllApart;
  }

  lemma ConsumeAllApart(t: Tables, r: Id, g: GroupId, own: set<nat>)
    requires KeepApart(t, r, g, own) && NoEpochOf(t, r)
    ensures KeepApart(ConsumeAll(t), r, g, own) && NoEpochOf(ConsumeAll(t), r)
    ensures g in t.stepBlocks && t.stepBlocks[g] == map[] ==>
      g in ConsumeAll(t).stepBlocks && ConsumeAll(t).stepBlocks[g].Keys !! own
  {
    hide AllApart, ConsumedGroup, JoinOf;
    NoneApart<Fill>(g, own);
    if g in t.stepBlocks && t.stepBlocks[g] == map[] {
      ConsumedApart(t, t.resolved, g, own);
    }
  }

  lemma BeginApart(configs: Configs, t: Tables, removed: set<Id>, r: Id, g: GroupId, mine: seq<nat>)
    requires ValidConfigs(configs) && g in configs && (r in removed || NoEpochOf(t, r))
    requires KeepApart(RemoveRequests(t, removed), r, g, AllBlocks(mine, configs[g].perManager))
    ensures var begun := BeginStep(configs, t, removed);
      && KeepApart(begun, r, g, AllBlocks(mine, configs[g].perManager)) && NoEpochOf(begun, r)
      && StepOf(configs, begun, g, mine, 0, 0, 0)
  {
    hide AllBlocks, KeepApart, NoEpochOf, ConsumeAll, StepIs, RemoveRequests, BeginStep;
    var own, empty := AllBlocks(mine, configs[g].perManager), EmptyStep(configs);
    BeginIsConsumed(configs, t, removed);
    RemovedApart(t, empty, removed, r, g, own);
    RemovedStep(t.(stepBlocks := empty), removed);
    ConsumeAllApart(RemoveRequests(t.(stepBlocks := empty), removed), r, g, own);
    StepFree(configs[g], mine, BeginStep(configs, t, removed).stepBlocks[g]);
  }

  function EmptyStep(configs: Configs): map<GroupId, Blocks> {
    map g | g in configs :: map[]
  }

  lemma BeginIsConsumed(configs: Configs, t: Tables, removed: set<Id>)
    ensures BeginStep(configs, t, removed) == ConsumeAll(RemoveRequests(t.(stepBlocks := EmptyStep(configs)), removed))
  {
    hide ConsumeAll, RemoveRequests;
  }

  lemma RemovedStep(t: Tables, removed: set<Id>)
    ensures RemoveRequests(t, removed).stepBlocks == t.stepBlocks
  {
  }

  lemma NoneApart<V>(g: GroupId, own: set<nat>)
    ensures AllApart<V>(map[], g, own)
  {
  }

  lemma ConsumedApart(t: Tables, done: map<Id, map<GroupId, Blocks>>, g: GroupId, own: set<nat>)
    requires g in t.stepBlocks && t.stepBlocks[g] == map[] && AllApart(done, g, own)
    ensures ConsumedGroup(t, done, g).Keys !! own
  {
    hide JoinOf, IsJoin;
    forall b | b in ConsumedGroup(t, done, g)
      ensures b !in own
    {
      var s := JoinOfKey(GroupSources(done, g) + {t.stepBlocks[g]}, b);
      var k :| k in done && s == GetOr(done[k], g, map[]);
      assert GroupKeys(done[k], g) !! own;
    }
  }

  /** What one update leaves in group `g` for a request that is not rolled back: its touched
      blocks in the step table, and nobody else's blocks among its own. */
  lemma UpdateTagged(configs: Configs, t: Tables, event: Event, r: Id, names: iset<Id>, g: GroupId, mine: seq<nat>,
                     start: nat, end: nat)
    requires ValidConfigs(configs) && g in configs && event.Step? && DistinctRequests(event.scheduled)
    requires Epochs(t, r, names) && (r in event.removed || NoEpochOf(t, r))
    requires NamesApart(r, names, event.requests, event.scheduled, event.epochs)
    requires Unshared(configs, t, event, r, g, mine)
    requires if IsScheduled(r, event.requests, event.scheduled) then
        && g < |event.requests[r].blockIds| && mine == event.requests[r].blockIds[g] && Distinct(mine)
        && start == event.requests[r].computed && Holds(configs[g], mine, end) && GetOr(event.rollback, r, 0) == 0
        && (forall s :: s in event.scheduled && s.req == r ==> start + s.tokens == end)
      else start == end
    ensures var after := Apply(configs, t, event);
      && KeepApart(after, r, g, AllBlocks(mine, configs[g].perManager)) && NoEpochOf(after, r)
      && StepOf(configs, after, g, mine, TagFrom(configs[g], start, end), TagTo(configs[g], start, end),
                configs[g].Local(end))
  {
    hide KeepApart, StepOf, NoEpochOf, TableApart, AllBlocks, EpochInvariant, NamedApart, LocalNumTokens, Holds;
    hide BeginStep, ScheduleAll, Distinct, NamesApart, OthersApart;
    var begun := BeginStep(configs, t, event.removed);
    BeginView(configs, t, event.removed, r, names);
    BeginStepKeys(configs, t, event.removed);
    BeginApart(configs, t, event.removed, r, g, mine);
    if IsScheduled(r, event.requests, event.scheduled) {
      var j :| 0 <= j < |event.scheduled| && event.scheduled[j].req == r;
      assert event.scheduled[j] in event.scheduled;
      AllTagged(configs, begun, event.requests, event.scheduled, event.rollback, event.epochs, j, names, g, mine);
    } else {
      AllApartFrom(configs, begun, event.requests, event.scheduled, event.rollback, event.epochs, r, names, g, mine);
      EmptyIsAnyEnd(configs, Apply(configs, t, event), g, mine, configs[g].Local(end));
    }
  }

  lemma EmptyIsAnyEnd(configs: Configs, t: Tables, g: GroupId, mine: seq<nat>, e: nat)
    requires ValidConfigs(configs) && g in configs && StepOf(configs, t, g, mine, 0, 0, 0)
    ensures StepOf(configs, t, g, mine, 0, 0, e)
  {
    hide StepIs;
    StepEmpty(configs[g], mine, t.stepBlocks[g], e);
  }

  // ---- disjoint block tables suffice ----

  /** Every tracked request keeps only blocks of its live table. */
  ghost predicate KeptInTables(configs: Configs, live: BlockTables, t: Tables, g: GroupId)
    requires ValidConfigs(configs) && g in configs
  {
    forall q :: q in t.requestBlocks ==> q in live && KeptIn(configs, t.requestBlocks[q], live[q], g)
  }

  ghost predicate KeptIn(configs: Configs, groups: map<GroupId, Blocks>, ids: seq<seq<nat>>, g: GroupId)
    requires ValidConfigs(configs) && g in configs
  {
    GroupKeys(groups, g) <= if g < |ids| then AllBlocks(ids[g], configs[g].perManager) else {}
  }

  lemma AllGrows(ids: seq<nat>, ids': seq<nat>, m: nat)
    requires m > 0 && ids <= ids'
    ensures AllBlocks(ids, m) <= AllBlocks(ids', m)
  {
    hide PhysicalRange;
    MulMonotone(|ids|, |ids'|, m);
    RangePrefix(ids, ids', m, 0, |ids| * m);
    RangeWithin(ids', m, 0, |ids| * m, 0, |ids'| * m);
  }

  lemma KeptGrows(configs: Configs, groups: map<GroupId, Blocks>, ids: seq<seq<nat>>, ids': seq<seq<nat>>, g: GroupId)
    requires ValidConfigs(configs) && g in configs && KeptIn(configs, groups, ids, g) && GrowsTo(ids, ids')
    ensures KeptIn(configs, groups, ids', g)
  {
    hide GroupKeys, AllBlocks;
    if g < |ids| {
      AllGrows(ids[g], ids'[g], configs[g].perManager);
    }
  }

  lemma EnterKept(configs: Configs, request: Request, w: Window, previous: map<GroupId, Blocks>,
                  previousFull: set<GroupId>, g: GroupId)
    requires ValidConfigs(configs) && g in configs && KeptIn(configs, previous, request.blockIds, g)
    ensures KeptIn(configs, ScheduledGroups(configs, request, w, previous, previousFull), request.blockIds, g)
  {
    hide LocalNumTokens, AllBlocks, AssignRange, SpanBlocks, NumLogical, FirstUpdate, PhysicalRange;
    if Active(configs, request, w, g) {
      var cfg, ids := configs[g], request.blockIds[g];
      var s, n := SpanOf(cfg, w), NumLogical(cfg, ids, SpanOf(cfg, w).maxEnd);
      RangeInAll(ids, cfg.perManager, FirstUpdate(cfg, s), n);
      SpanInAll(cfg, ids, s);
      if g in previous {
        AssignKeys(cfg, ids, s.minEnd, FirstUpdate(cfg, s), n, previous[g]);
      }
    }
  }

  lemma OwnKept(configs: Configs, live: BlockTables, t: Tables, q: Id, groups: map<GroupId, Blocks>,
                full: set<GroupId>, step: map<GroupId, Blocks>, g: GroupId)
    requires ValidConfigs(configs) && g in configs && KeptInTables(configs, live, t, g)
    requires q in live && KeptIn(configs, groups, live[q], g) && NoEpochs(t)
    ensures KeptInTables(configs, live, OwnGroups(t, q, groups, full, step), g)
    ensures NoEpochs(OwnGroups(t, q, groups, full, step))
  {
    hide KeptIn;
  }

  lemma PreviousKept(configs: Configs, live: BlockTables, t: Tables, q: Id, g: GroupId)
    requires ValidConfigs(configs) && g in configs && KeptInTables(configs, live, t, g) && q in live
    ensures KeptIn(configs, GetOr(t.requestBlocks, q, map[]), live[q], g)
  {
    hide AllBlocks;
  }

  lemma {:induction false} ScheduledKept(configs: Configs, live: BlockTables, t: Tables, requests: map<Id, Request>,
                                         scheduled: seq<Schedule>, rollback: map<Id, nat>, epochs: map<Id, Id>,
                                         g: GroupId)
    requires ValidConfigs(configs) && g in configs && KeptInTables(configs, live, t, g) && NoEpochs(t)
    requires forall s :: s in scheduled ==> GetOr(rollback, s.req, 0) == 0
    requires forall s :: s in scheduled && s.req in requests ==>
      s.req in live && live[s.req] == requests[s.req].blockIds
    ensures KeptInTables(configs, live, ScheduleAll(configs, t, requests, scheduled, rollback, epochs), g)
    ensures NoEpochs(ScheduleAll(configs, t, requests, scheduled, rollback, epochs))
  {
    hide ScheduleOne, KeptInTables, NoEpochs, ScheduledGroups, ScheduledFull, ScheduledStep;
    if scheduled != [] {
      var front, s := scheduled[..|scheduled| - 1], scheduled[|scheduled| - 1];
      ScheduledKept(configs, live, t, requests, front, rollback, epochs, g);
      var before := ScheduleAll(configs, t, requests, front, rollback, epochs);
      if s.req in requests {
        var request, w := requests[s.req], WindowOf(requests[s.req].computed, s.tokens, 0);
        var previous, previousFull := GetOr(before.requestBlocks, s.req, map[]), GetOr(before.requestFull, s.req, {});
        EnterWithoutRollback(configs, before, requests, s, rollback, epochs);
        PreviousKept(configs, live, before, s.req, g);
        EnterKept(configs, request, w, previous, previousFull, g);
        OwnKept(configs, live, before, s.req, ScheduledGroups(configs, request, w, previous, previousFull),
                ScheduledFull(configs, request, w), ScheduledStep(configs, request, w, before.stepBlocks), g);
      } else {
        UnknownRequest(configs, before, requests, s, rollback, epochs);
      }
    }
  }

  /** A step without rollback whose requests' tables only grow. */
  ghost predicate PlainStep(live: BlockTables, event: Event) {
    event.Step? && TablesGrow(live, event) && forall s :: s in event.scheduled ==> GetOr(event.rollback, s.req, 0) == 0
  }

  lemma StepKept(configs: Configs, live: BlockTables, t: Tables, event: Event, g: GroupId)
    requires ValidConfigs(configs) && g in configs && KeptInTables(configs, live, t, g) && NoEpochs(t)
    requires PlainStep(live, event)
    ensures KeptInTables(configs, LiveAfter(live, event), Apply(configs, t, event), g)
    ensures NoEpochs(Apply(configs, t, event))
  {
    hide BeginStep, ScheduleAll, KeptIn, LiveAfter, TablesGrow, GrowsTo, NoEpochs, Entered;
    var begun, after := BeginStep(configs, t, event.removed), LiveAfter(live, event);
    BeginIs(configs, t, event.removed);
    forall q | q in begun.requestBlocks
      ensures q in after && KeptIn(configs, begun.requestBlocks[q], after[q], g)
    {
      LiveGrows(live, event, q);
      KeptGrows(configs, t.requestBlocks[q], live[q], after[q], g);
    }
    forall s | s in event.scheduled && s.req in event.requests
      ensures s.req in after && after[s.req] == event.requests[s.req].blockIds
    {
      EnteredHas(event.requests, event.scheduled, s);
      LiveGrows(live, event, s.req);
    }
    ScheduledKept(configs, after, begun, event.requests, event.scheduled, event.rollback, event.epochs, g);
  }

  /** In a run without rollback every request keeps only blocks of the table it was last
      scheduled with. */
  lemma {:induction false} PlainRunKeepsTables(configs: Configs, events: seq<Event>, g: GroupId)
    requires ValidConfigs(configs) && g in configs
    requires forall k :: 0 <= k < |events| ==> PlainStep(Live(events[..k]), events[k])
    ensures KeptInTables(configs, Live(events), Run(configs, events), g) && NoEpochs(Run(configs, events))
  {
    hide Apply, PlainStep, LiveAfter, KeptIn;
    if events != [] {
      var n := |events| - 1;
      forall k | 0 <= k < n
        ensures PlainStep(Live(events[..n][..k]), events[..n][k])
      {
        assert events[..n][..k] == events[..k];
      }
      PlainRunKeepsTables(configs, events[..n], g);
      StepKept(configs, Live(events[..n]), Run(configs, events[..n]), events[n], g);
    }
  }

  /** So it suffices that, after the removals, no tracked and no scheduled request's table meets
      that of `r`. */
  lemma DisjointTablesSuffice(configs: Configs, live: BlockTables, t: Tables, event: Event, r: Id, g: GroupId,
                              mine: seq<nat>)
    requires ValidConfigs(configs) && g in configs && event.Step?
    requires KeptInTables(configs, live, t, g) && NoEpochs(t)
    requires var own := AllBlocks(mine, configs[g].perManager);
      && (forall q :: q in live && q !in event.removed && q != r ==> TableApart(configs, Request(live[q], 0), g, own))
      && OthersApart(configs, event.requests, event.scheduled, r, g, own)
    ensures Unshared(configs, t, event, r, g, mine)
  {
    hide AllBlocks, OthersApart;
    var own, left := AllBlocks(mine, configs[g].perManager), RemoveRequests(t, event.removed);
    forall q | q in left.requestBlocks - {r}
      ensures GroupKeys(left.requestBlocks[q], g) !! own
    {
      assert KeptIn(configs, t.requestBlocks[q], live[q], g);
      assert TableApart(configs, Request(live[q], 0), g, own);
    }
  }
}
