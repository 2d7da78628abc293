/** What settling an epoch publishes.

    Once it is known how many of a step's tokens were accepted, the blocks the step may have written get
    their true fills, and they stay needed until the next step has shown those fills to the slot manager. */
module SettledFills {
  import opened Sharding
  import opened FillMaps
  import opened Ownership
  import opened EpochSafety

  /** Block `b` is recorded with at least `n` tokens. */
  predicate AtLeast(blocks: Blocks, b: nat, n: nat) {
    b in blocks && blocks[b].Known? && blocks[b].tokens >= n
  }

  lemma {:induction false} RangeKeepsLeast(cfg: GroupConfig, ids: seq<nat>, e: nat, lo: nat, hi: nat, blocks: Blocks,
                                           b: nat, n: nat)
    requires cfg.Valid() && (lo < hi ==> hi <= |ids| * cfg.perManager) && AtLeast(blocks, b, n)
    ensures AtLeast(MergeRange(cfg, ids, e, lo, hi, blocks), b, n)
  {
    hide PhysicalBlock, FillAt;
    if lo < hi {
      RangeKeepsLeast(cfg, ids, e, lo, hi - 1, blocks, b, n);
    }
  }

  lemma MergeKeepsLeast(blocks: Blocks, more: Blocks, b: nat, n: nat)
    requires AtLeast(blocks, b, n) || AtLeast(more, b, n)
    ensures AtLeast(MergeMaps(blocks, more), b, n)
  {
  }

  lemma JoinKeepsLeast(sources: set<Blocks>, s: Blocks, b: nat, n: nat)
    requires s in sources && AtLeast(s, b, n)
    ensures AtLeast(JoinOf(sources), b, n)
  {
    assert Below(s, JoinOf(sources));
  }

  /** The step tables of group `g` record block `b` with at least `n` tokens. */
  predicate Stepped(t: Tables, g: GroupId, b: nat, n: nat) {
    g in t.stepBlocks && AtLeast(t.stepBlocks[g], b, n)
  }

  lemma EnterKeepsLeast(configs: Configs, t: Tables, req: Id, epoch: Id, request: Request, scheduled: nat,
                        rollback: nat, g: GroupId, b: nat, n: nat)
    requires ValidConfigs(configs) && Stepped(t, g, b, n)
    ensures Stepped(Enter(configs, t, req, epoch, request, scheduled, rollback), g, b, n)
  {
    hide ScheduledGroups, ScheduledFull, ScheduledPending, ScheduledStep, RetainedBlocks, AtLeast;
    StepKeepsLeast(configs, request, WindowOf(request.computed, scheduled, rollback), t.stepBlocks, g, b, n);
  }

  lemma StepKeepsLeast(configs: Configs, request: Request, w: Window, step: map<GroupId, Blocks>, g: GroupId, b: nat,
                       n: nat)
    requires ValidConfigs(configs) && g in step && AtLeast(step[g], b, n)
    ensures g in ScheduledStep(configs, request, w, step)
    ensures AtLeast(ScheduledStep(configs, request, w, step)[g], b, n)
  {
    hide LocalNumTokens, NumLogical, MergeRange, AtLeast;
    if Active(configs, request, w, g) && Touches(SpanOf(configs[g], w)) {
      var cfg, ids, s := configs[g], request.blockIds[g], SpanOf(configs[g], w);
      RangeKeepsLeast(cfg, ids, s.minEnd, TouchedFrom(cfg, s), TouchedTo(cfg, ids, s), step[g], b, n);
    }
  }

  lemma ConsumeKeepsLeast(t: Tables, epoch: Id, g: GroupId, b: nat, n: nat)
    requires g in t.stepBlocks
    requires Stepped(t, g, b, n)
      || (epoch in t.resolved && g in t.resolved[epoch] && AtLeast(t.resolved[epoch][g], b, n))
    ensures Stepped(ConsumeResolved(t, epoch), g, b, n)
  {
    hide MergeMaps, AtLeast;
    var more := GetOr(t.resolved, epoch, map[]);
    if g in more {
      MergeKeepsLeast(t.stepBlocks[g], more[g], b, n);
    }
  }

  lemma ScheduleKeepsLeast(configs: Configs, t: Tables, requests: map<Id, Request>, s: Schedule,
                           rollback: map<Id, nat>, epochs: map<Id, Id>, g: GroupId, b: nat, n: nat)
    requires ValidConfigs(configs) && Stepped(t, g, b, n)
    ensures Stepped(ScheduleOne(configs, t, requests, s, rollback, epochs), g, b, n)
  {
    hide Enter, Resolve, ConsumeResolved, AtLeast;
    if s.req in requests {
      var request, epoch := requests[s.req], GetOr(epochs, s.req, s.req);
      if epoch in t.pending {
        ResolveKeepsStep(configs, t, epoch, request, request.computed);
        var settled := Resolve(configs, t, epoch, request, request.computed);
        ConsumeKeepsLeast(settled, epoch, g, b, n);
        EnterKeepsLeast(configs, ConsumeResolved(settled, epoch), s.req, epoch, request, s.tokens,
                        GetOr(rollback, s.req, 0), g, b, n);
      } else {
        EnterKeepsLeast(configs, t, s.req, epoch, request, s.tokens, GetOr(rollback, s.req, 0), g, b, n);
      }
    }
  }

  lemma {:induction false} AllKeepLeast(configs: Configs, t: Tables, requests: map<Id, Request>,
                                        scheduled: seq<Schedule>, rollback: map<Id, nat>, epochs: map<Id, Id>,
                                        g: GroupId, b: nat, n: nat)
    requires ValidConfigs(configs) && Stepped(t, g, b, n)
    ensures Stepped(ScheduleAll(configs, t, requests, scheduled, rollback, epochs), g, b, n)
  {
    hide ScheduleOne, Stepped;
    if scheduled != [] {
      var front := scheduled[..|scheduled| - 1];
      AllKeepLeast(configs, t, requests, front, rollback, epochs, g, b, n);
      ScheduleKeepsLeast(configs, ScheduleAll(configs, t, requests, front, rollback, epochs), requests,
                         scheduled[|scheduled| - 1], rollback, epochs, g, b, n);
    }
  }

  /** Some settled epoch has block `b` of group `g` still to publish, with at least `n` tokens. */
  predicate Unpublished(t: Tables, g: GroupId, b: nat, n: nat) {
    exists e :: e in t.resolved && g in t.resolved[e] && AtLeast(t.resolved[e][g], b, n)
  }

  lemma ConsumingPublishes(t: Tables, g: GroupId, b: nat, n: nat)
    requires g in t.stepBlocks && Unpublished(t, g, b, n)
    ensures Stepped(ConsumeAll(t), g, b, n)
  {
    hide AtLeast, JoinOf, IsJoin;
    var e :| e in t.resolved && g in t.resolved[e] && AtLeast(t.resolved[e][g], b, n);
    assert GetOr(t.resolved[e], g, map[]) in GroupSources(t.resolved, g);
    JoinKeepsLeast(GroupSources(t.resolved, g) + {t.stepBlocks[g]}, t.resolved[e][g], b, n);
  }

  lemma RemovalLeaves(t: Tables, removed: set<Id>)
    ensures RemoveRequests(t, removed).resolved == t.resolved && RemoveRequests(t, removed).stepBlocks == t.stepBlocks
  {
  }

  lemma SameUnpublished(t: Tables, u: Tables, g: GroupId, b: nat, n: nat)
    requires t.resolved == u.resolved && Unpublished(t, g, b, n)
    ensures Unpublished(u, g, b, n)
  {
  }

  lemma BeginPublishes(configs: Configs, t: Tables, removed: set<Id>, g: GroupId, b: nat, n: nat)
    requires g in configs && Unpublished(t, g, b, n)
    ensures Stepped(BeginStep(configs, t, removed), g, b, n)
  {
    hide Unpublished, Stepped, ConsumeAll, RemoveRequests;
    var cleared := t.(stepBlocks := map h | h in configs :: map[]);
    RemovalLeaves(cleared, removed);
    SameUnpublished(t, RemoveRequests(cleared, removed), g, b, n);
    ConsumingPublishes(RemoveRequests(cleared, removed), g, b, n);
  }

  lemma StepIsNeeded(t: Tables, g: GroupId, b: nat, n: nat)
    requires Stepped(t, g, b, n)
    ensures AtLeast(BlockFills(t, g), b, n)
  {
    hide AtLeast, JoinOf, IsJoin;
    JoinKeepsLeast(Sources(t, g), t.stepBlocks[g], b, n);
  }

  lemma ResolvedIsNeeded(t: Tables, g: GroupId, b: nat, n: nat)
    requires Unpublished(t, g, b, n)
    ensures AtLeast(BlockFills(t, g), b, n)
  {
    hide AtLeast, JoinOf, IsJoin;
    var e :| e in t.resolved && g in t.resolved[e] && AtLeast(t.resolved[e][g], b, n);
    assert GetOr(t.resolved[e], g, map[]) in GroupSources(t.resolved, g);
    JoinKeepsLeast(Sources(t, g), t.resolved[e][g], b, n);
  }

  /** What the next step does with fills still to publish: the blocks stay needed, with those fills. */
  lemma NextStepPublishes(configs: Configs, t: Tables, event: Event, g: GroupId, b: nat, n: nat)
    requires ValidConfigs(configs) && g in configs && Unpublished(t, g, b, n) && event.Step?
    ensures Stepped(Apply(configs, t, event), g, b, n) && AtLeast(BlockFills(Apply(configs, t, event), g), b, n)
  {
    hide BeginStep, ScheduleAll, AtLeast, BlockFills, Unpublished, Stepped;
    BeginPublishes(configs, t, event.removed, g, b, n);
    AllKeepLeast(configs, BeginStep(configs, t, event.removed), event.requests, event.scheduled, event.rollback,
                 event.epochs, g, b, n);
    StepIsNeeded(Apply(configs, t, event), g, b, n);
  }

  /** Tokens of local block `l` among the first `e` local tokens. */
  function TokensIn(cfg: GroupConfig, e: nat, l: nat): (n: nat)
    ensures l * cfg.group >= e ==> n == 0
    ensures l * cfg.group < e ==> n == Min(cfg.group, e - l * cfg.group)
  {
    if l * cfg.group < e then Min(cfg.group, e - l * cfg.group) else 0
  }

  lemma SettlingRecords(configs: Configs, t: Tables, epoch: Id, request: Request, actual: nat, g: GroupId, b: nat)
    requires ValidConfigs(configs) && g in configs && g < |request.blockIds| && epoch in t.pending
    requires g in t.pending[epoch] && b in t.pending[epoch][g]
    requires t.pending[epoch][g][b] * configs[g].group < configs[g].Local(actual)
    ensures var n := TokensIn(configs[g], configs[g].Local(actual), t.pending[epoch][g][b]);
      Unpublished(Resolve(configs, t, epoch, request, actual), g, b, n)
  {
    hide ResolvedOwner, LocalNumTokens, TrimGroups;
    var cfg, l := configs[g], t.pending[epoch][g][b];
    var n := TokensIn(cfg, cfg.Local(actual), l);
    assert actual > 0 by {
      CountOfZero(cfg.world, cfg.rank, cfg.interleave);
    }
    var after := Resolve(configs, t, epoch, request, actual);
    assert FillCount(cfg, cfg.Local(actual), l) == n;
    var fills := ResolvedFills(cfg, t.pending[epoch][g], cfg.Local(actual));
    assert b in fills && fills[b] == Known(n);
    var resolved: map<GroupId, Blocks> := ResolvedPending(configs, t.pending[epoch], request, actual);
    assert g in resolved && resolved[g] == fills;
    assert after.resolved == t.resolved[epoch := resolved];
    assert epoch in after.resolved && AtLeast(after.resolved[epoch][g], b, n);
  }

  /** The record of a settled epoch: of the blocks its step might have written, those that hold an accepted token,
      each with exactly its accepted tokens. */
  lemma SettledRecordIsExact(configs: Configs, t: Tables, epoch: Id, request: Request, actual: nat, g: GroupId, b: nat)
    requires ValidConfigs(configs) && epoch in t.pending && epoch !in t.resolved
    ensures var recorded := GetOr(GetOr(Resolve(configs, t, epoch, request, actual).resolved, epoch, map[]), g, map[]);
      var written := GetOr(t.pending[epoch], g, map[]);
      && (b in recorded <==> g in configs && g < |request.blockIds| && b in written
                             && written[b] * configs[g].group < configs[g].Local(actual))
      && (b in recorded ==>
            recorded[b] == Known(Min(configs[g].group, configs[g].Local(actual) - written[b] * configs[g].group)))
  {
    hide ResolvedPending, ResolvedOwner, LocalNumTokens, TrimGroups, IsLatest;
    RecordOfGroup(configs, t.pending[epoch], request, actual, g, b);
  }

  lemma RecordOfGroup(configs: Configs, pending: map<GroupId, map<nat, nat>>, request: Request, actual: nat, g: GroupId,
                      b: nat)
    requires ValidConfigs(configs)
    ensures var recorded := GetOr(ResolvedPending(configs, pending, request, actual), g, map[]);
      var written := GetOr(pending, g, map[]);
      && (b in recorded <==> g in configs && g < |request.blockIds| && b in written
                             && written[b] * configs[g].group < configs[g].Local(actual))
      && (b in recorded ==>
            recorded[b] == Known(Min(configs[g].group, configs[g].Local(actual) - written[b] * configs[g].group)))
  {
    hide LocalNumTokens, ResolvedFills;
    if g in configs {
      CountOfZero(configs[g].world, configs[g].rank, configs[g].interleave);
      FillsOfGroup(configs[g], GetOr(pending, g, map[]), configs[g].Local(actual), b);
    }
  }

  lemma FillsOfGroup(cfg: GroupConfig, pending: map<nat, nat>, e: nat, b: nat)
    requires cfg.Valid()
    ensures var fills := ResolvedFills(cfg, pending, e);
      && (b in fills <==> b in pending && pending[b] * cfg.group < e)
      && (b in fills ==> fills[b] == Known(Min(cfg.group, e - pending[b] * cfg.group)))
  {
  }

  /** Once an epoch is settled, every block it might have written and that holds an accepted token is
      needed, with all its accepted tokens, at once and after the next step, whoever that step removes
      or schedules. */
  lemma SettledFillsArePublished(configs: Configs, t: Tables, epoch: Id, request: Request, actual: nat, event: Event,
                                 g: GroupId, b: nat)
    requires ValidConfigs(configs) && g in configs && g < |request.blockIds| && epoch in t.pending
    requires g in t.pending[epoch] && b in t.pending[epoch][g] && event.Step?
    requires t.pending[epoch][g][b] * configs[g].group < configs[g].Local(actual)
    ensures var n := TokensIn(configs[g], configs[g].Local(actual), t.pending[epoch][g][b]);
      var settled := Apply(configs, t, Settle(epoch, request, actual));
      && n > 0 && AtLeast(BlockFills(settled, g), b, n)
      && AtLeast(BlockFills(Apply(configs, settled, event), g), b, n)
  {
    hide Resolve, Update, AtLeast, BlockFills, Unpublished, LocalNumTokens;
    var n := TokensIn(configs[g], configs[g].Local(actual), t.pending[epoch][g][b]);
    var settled := Resolve(configs, t, epoch, request, actual);
    SettlingRecords(configs, t, epoch, request, actual, g, b);
    ResolvedIsNeeded(settled, g, b, n);
    NextStepPublishes(configs, settled, event, g, b, n);
  }
}
