/** Ownership epochs over whole runs of the tracker.

    An epoch stays open while it is unknown how many of a step's tokens were accepted.  In every
    reachable state the epoch tables agree on which epochs are open, the latest epoch of a
    request is an open epoch of that request, and every block an open epoch may have written is
    among the blocks that must stay exact. */
module EpochSafety {
  import opened Sharding
  import opened FillMaps
  import opened Ownership

  datatype Event =
    | Step(requests: map<Id, Request>, scheduled: seq<Schedule>, removed: set<Id>,
           rollback: map<Id, nat>, epochs: map<Id, Id>)
    | Settle(epoch: Id, request: Request, actual: int)
    | Drop(epoch: Id)
    | Forget(req: Id)

  ghost function Apply(configs: Configs, t: Tables, event: Event): Tables
    requires ValidConfigs(configs)
  {
    match event
    case Step(requests, scheduled, removed, rollback, epochs) =>
      Update(configs, t, requests, scheduled, removed, rollback, epochs)
    case Settle(epoch, request, actual) => Resolve(configs, t, epoch, request, actual)
    case Drop(epoch) => Discard(t, epoch)
    case Forget(req) => MarkUnknown(t, req)
  }

  ghost function Run(configs: Configs, events: seq<Event>): Tables
    requires ValidConfigs(configs)
  {
    if events == [] then NO_TABLES
    else Apply(configs, Run(configs, events[..|events| - 1]), events[|events| - 1])
  }

  /** Every block of `pending` is among `kept`, group by group. */
  ghost predicate Covers(kept: map<GroupId, Blocks>, pending: map<GroupId, map<nat, nat>>) {
    forall g :: g in pending ==> g in kept && pending[g].Keys <= kept[g].Keys
  }

  ghost predicate SameEpochs(t: Tables) {
    t.pending.Keys == t.epochBlocks.Keys == t.epochOwners.Keys && t.epochFull.Keys <= t.pending.Keys
  }

  ghost predicate LatestIsOpen(t: Tables) {
    forall r :: r in t.latestEpoch ==> t.latestEpoch[r] in t.epochOwners && t.epochOwners[t.latestEpoch[r]] == r
  }

  ghost predicate EpochsCovered(t: Tables) {
    forall e :: e in t.pending && e in t.epochBlocks ==> Covers(t.epochBlocks[e], t.pending[e])
  }

  ghost predicate EpochInvariant(t: Tables) {
    SameEpochs(t) && LatestIsOpen(t) && EpochsCovered(t)
  }

  // ---- each operation keeps the invariant ----

  /** Closing one epoch leaves at most its own owner without an open latest epoch. */
  lemma DropLeavesEpochs(t: Tables, epoch: Id)
    requires EpochInvariant(t)
    ensures SameEpochs(DropEpoch(t, epoch)) && EpochsCovered(DropEpoch(t, epoch))
    ensures epoch !in DropEpoch(t, epoch).pending
    ensures LatestIsOpen(DropEpoch(t, epoch).(latestEpoch :=
      if IsLatest(t, epoch) then t.latestEpoch - {GetOr(t.epochOwners, epoch, epoch)} else t.latestEpoch))
  {
    hide Covers;
  }

  lemma ResolveKeepsEpochs(configs: Configs, t: Tables, epoch: Id, request: Request, actual: int)
    requires ValidConfigs(configs) && EpochInvariant(t)
    ensures EpochInvariant(Resolve(configs, t, epoch, request, actual))
    ensures epoch !in Resolve(configs, t, epoch, request, actual).pending
  {
    hide ResolvedOwner, ResolvedPending, TrimGroups, DropEpoch, PublishEpoch, GetOr;
    hide SameEpochs, EpochsCovered;
    DropLeavesEpochs(t, epoch);
    var dropped := DropEpoch(t, epoch);
    if epoch in t.pending {
      var owner := GetOr(t.epochOwners, epoch, epoch);
      DropFields(t, epoch);
      PublishKeepsEpochs(dropped, epoch, owner, IsLatest(t, epoch),
        ResolvedOwner(configs, GetOr(t.requestBlocks, owner, map[]), t.pending[epoch],
                      TrimGroups(t, epoch, owner), request, actual),
        ResolvedPending(configs, t.pending[epoch], request, actual));
    } else {
      DropOfClosed(t, epoch);
    }
  }

  lemma DropFields(t: Tables, epoch: Id)
    ensures DropEpoch(t, epoch).latestEpoch == t.latestEpoch
  {
  }

  lemma DropOfClosed(t: Tables, epoch: Id)
    requires EpochInvariant(t) && epoch !in t.pending
    ensures EpochInvariant(DropEpoch(t, epoch))
  {
    hide Covers;
  }

  lemma PublishKeepsEpochs(t: Tables, epoch: Id, owner: Id, latest: bool,
                           groups: map<GroupId, Blocks>, resolved: map<GroupId, Blocks>)
    requires SameEpochs(t) && EpochsCovered(t)
    requires LatestIsOpen(t.(latestEpoch := if latest then t.latestEpoch - {owner} else t.latestEpoch))
    ensures EpochInvariant(PublishEpoch(t, epoch, owner, latest, groups, resolved))
    ensures PublishEpoch(t, epoch, owner, latest, groups, resolved).pending == t.pending
  {
    hide Covers;
  }

  lemma DiscardKeepsEpochs(t: Tables, epoch: Id)
    requires EpochInvariant(t)
    ensures EpochInvariant(Discard(t, epoch))
  {
    hide Covers;
  }

  lemma UnknownKeepsCover(kept: map<GroupId, Blocks>, pending: map<GroupId, map<nat, nat>>)
    requires Covers(kept, pending)
    ensures Covers(UnknownGroups(kept), pending)
  {
  }

  lemma MarkKeepsEpochs(t: Tables, req: Id)
    requires EpochInvariant(t)
    ensures EpochInvariant(MarkUnknown(t, req))
  {
    hide UnknownGroups, Covers;
    forall e | e in t.pending
      ensures Covers(MarkUnknown(t, req).epochBlocks[e], t.pending[e])
    {
      UnknownKeepsCover(t.epochBlocks[e], t.pending[e]);
    }
  }

  lemma RemoveKeepsEpochs(t: Tables, removed: set<Id>)
    requires EpochInvariant(t)
    ensures EpochInvariant(RemoveRequests(t, removed))
  {
    hide Covers;
  }

  lemma ConsumeKeepsEpochs(t: Tables, epoch: Id)
    requires EpochInvariant(t)
    ensures EpochInvariant(ConsumeResolved(t, epoch))
    ensures ConsumeResolved(t, epoch).stepBlocks.Keys == t.stepBlocks.Keys
  {
    hide Covers;
  }

  /** The epoch tables alone decide the invariant. */
  lemma OtherSteps(t: Tables, u: Tables)
    requires EpochInvariant(t)
    requires u.pending == t.pending && u.epochBlocks == t.epochBlocks && u.epochFull == t.epochFull
    requires u.epochOwners == t.epochOwners && u.latestEpoch == t.latestEpoch
    ensures EpochInvariant(u)
  {
    hide Covers;
  }

  lemma BeginKeepsEpochs(configs: Configs, t: Tables, removed: set<Id>)
    requires EpochInvariant(t)
    ensures EpochInvariant(BeginStep(configs, t, removed))
  {
    hide Covers, RemoveRequests, ConsumedStep, EpochInvariant;
    var cleared := t.(stepBlocks := map g | g in configs :: map[]);
    OtherSteps(t, cleared);
    RemoveKeepsEpochs(cleared, removed);
    OtherSteps(RemoveRequests(cleared, removed), ConsumeAll(RemoveRequests(cleared, removed)));
  }

  // ---- what a step may write is kept ----

  lemma {:induction false} TouchedIsMerged(cfg: GroupConfig, ids: seq<nat>, e: nat, lo: nat, hi: nat, blocks: Blocks)
    requires cfg.Valid() && (lo < hi ==> hi <= |ids| * cfg.perManager)
    ensures LogicalRange(ids, cfg.perManager, lo, hi).Keys <= MergeRange(cfg, ids, e, lo, hi, blocks).Keys
  {
    if lo < hi {
      TouchedIsMerged(cfg, ids, e, lo, hi - 1, blocks);
    }
  }

  lemma PendingIsStepped(configs: Configs, request: Request, w: Window, step: map<GroupId, Blocks>)
    requires ValidConfigs(configs) && step.Keys == configs.Keys
    ensures Covers(ScheduledStep(configs, request, w, step), ScheduledPending(configs, request, w))
  {
    hide LocalNumTokens, LogicalRange, MergeRange, NumLogical;
    var pending := ScheduledPending(configs, request, w);
    forall g | g in pending
      ensures pending[g].Keys <= ScheduledStep(configs, request, w, step)[g].Keys
    {
      var cfg, ids, span := configs[g], request.blockIds[g], SpanOf(configs[g], w);
      if Touches(span) {
        TouchedIsMerged(cfg, ids, span.minEnd, TouchedFrom(cfg, span), TouchedTo(cfg, ids, span), step[g]);
      }
    }
  }

  lemma RetainedCovers(groups: map<GroupId, Blocks>, full: set<GroupId>,
                       pending: map<GroupId, map<nat, nat>>, step: map<GroupId, Blocks>)
    requires Covers(step, pending)
    ensures Covers(RetainedBlocks(groups, full, pending, step), pending)
  {
  }

  lemma OpenKeepsEpochs(t: Tables, req: Id, epoch: Id, groups: map<GroupId, Blocks>, full: set<GroupId>,
                        pending: map<GroupId, map<nat, nat>>)
    requires EpochInvariant(t) && epoch !in t.pending && Covers(t.stepBlocks, pending)
    ensures EpochInvariant(OpenEpoch(t, req, epoch, groups, full, pending))
  {
    hide Covers, RetainedBlocks, SameEpochs, LatestIsOpen, EpochsCovered, OpenEpoch;
    RetainedCovers(groups, full, pending, t.stepBlocks);
    OpenAgrees(t, req, epoch, groups, full, pending);
    OpenIsLatest(t, req, epoch, groups, full, pending);
    OpenIsCovered(t, req, epoch, groups, full, pending);
  }

  lemma OpenAgrees(t: Tables, req: Id, epoch: Id, groups: map<GroupId, Blocks>, full: set<GroupId>,
                   pending: map<GroupId, map<nat, nat>>)
    requires SameEpochs(t)
    ensures SameEpochs(OpenEpoch(t, req, epoch, groups, full, pending))
  {
    hide RetainedBlocks;
  }

  lemma OpenIsLatest(t: Tables, req: Id, epoch: Id, groups: map<GroupId, Blocks>, full: set<GroupId>,
                     pending: map<GroupId, map<nat, nat>>)
    requires SameEpochs(t) && LatestIsOpen(t) && epoch !in t.pending
    ensures LatestIsOpen(OpenEpoch(t, req, epoch, groups, full, pending))
  {
    hide RetainedBlocks;
  }

  lemma OpenIsCovered(t: Tables, req: Id, epoch: Id, groups: map<GroupId, Blocks>, full: set<GroupId>,
                      pending: map<GroupId, map<nat, nat>>)
    requires SameEpochs(t) && EpochsCovered(t)
    requires Covers(RetainedBlocks(groups, full, pending, t.stepBlocks), pending)
    ensures EpochsCovered(OpenEpoch(t, req, epoch, groups, full, pending))
  {
    hide Covers, RetainedBlocks;
    var after := OpenEpoch(t, req, epoch, groups, full, pending);
    forall e | e in after.pending && e in after.epochBlocks
      ensures Covers(after.epochBlocks[e], after.pending[e])
    {
      if e != epoch {
        assert e in t.pending && e in t.epochBlocks;
      }
    }
  }

  lemma EnterKeepsEpochs(configs: Configs, t: Tables, req: Id, epoch: Id, request: Request,
                         scheduled: nat, rollback: nat)
    requires ValidConfigs(configs) && EpochInvariant(t)
    requires t.stepBlocks.Keys == configs.Keys && epoch !in t.pending
    ensures EpochInvariant(Enter(configs, t, req, epoch, request, scheduled, rollback))
    ensures Enter(configs, t, req, epoch, request, scheduled, rollback).stepBlocks.Keys == configs.Keys
  {
    hide Covers, ScheduledGroups, ScheduledFull, ScheduledStep, ScheduledPending, OpenEpoch;
    var w := WindowOf(request.computed, scheduled, rollback);
    var groups := ScheduledGroups(configs, request, w,
      GetOr(t.requestBlocks, req, map[]), GetOr(t.requestFull, req, {}));
    var full := ScheduledFull(configs, request, w);
    var pending := ScheduledPending(configs, request, w);
    var owned := OwnGroups(t, req, groups, full, ScheduledStep(configs, request, w, t.stepBlocks));
    ScheduledStepKeys(configs, request, w, t.stepBlocks);
    PendingIsStepped(configs, request, w, t.stepBlocks);
    OpenEpochKeepsStep(owned, req, epoch, groups, full, pending);
    OpenKeepsEpochs(owned, req, epoch, groups, full, pending);
  }

  lemma ScheduleOneKeepsEpochs(configs: Configs, t: Tables, requests: map<Id, Request>, s: Schedule,
                               rollback: map<Id, nat>, epochs: map<Id, Id>)
    requires ValidConfigs(configs) && EpochInvariant(t) && t.stepBlocks.Keys == configs.Keys
    ensures EpochInvariant(ScheduleOne(configs, t, requests, s, rollback, epochs))
    ensures ScheduleOne(configs, t, requests, s, rollback, epochs).stepBlocks.Keys == configs.Keys
  {
    hide EpochInvariant, Enter, Resolve, ConsumeResolved;
    if s.req in requests {
      var request, epoch := requests[s.req], GetOr(epochs, s.req, s.req);
      if epoch in t.pending {
        var settled := Resolve(configs, t, epoch, request, request.computed);
        ResolveKeepsEpochs(configs, t, epoch, request, request.computed);
        ResolveKeepsStep(configs, t, epoch, request, request.computed);
        ConsumeKeepsEpochs(settled, epoch);
        ConsumeKeepsPending(settled, epoch);
        EnterKeepsEpochs(configs, ConsumeResolved(settled, epoch), s.req, epoch, request, s.tokens,
                         GetOr(rollback, s.req, 0));
      } else {
        EnterKeepsEpochs(configs, t, s.req, epoch, request, s.tokens, GetOr(rollback, s.req, 0));
      }
    }
  }

  lemma ConsumeKeepsPending(t: Tables, epoch: Id)
    ensures ConsumeResolved(t, epoch).pending == t.pending
  {
  }

  lemma {:induction false} ScheduleAllKeepsEpochs(configs: Configs, t: Tables, requests: map<Id, Request>,
                                                  scheduled: seq<Schedule>, rollback: map<Id, nat>, epochs: map<Id, Id>)
    requires ValidConfigs(configs) && EpochInvariant(t) && t.stepBlocks.Keys == configs.Keys
    ensures EpochInvariant(ScheduleAll(configs, t, requests, scheduled, rollback, epochs))
    ensures ScheduleAll(configs, t, requests, scheduled, rollback, epochs).stepBlocks.Keys == configs.Keys
  {
    hide EpochInvariant, ScheduleOne;
    if scheduled != [] {
      var front := scheduled[..|scheduled| - 1];
      ScheduleAllKeepsEpochs(configs, t, requests, front, rollback, epochs);
      ScheduleOneKeepsEpochs(configs, ScheduleAll(configs, t, requests, front, rollback, epochs), requests,
                             scheduled[|scheduled| - 1], rollback, epochs);
    }
  }

  lemma ApplyKeepsEpochs(configs: Configs, t: Tables, event: Event)
    requires ValidConfigs(configs) && EpochInvariant(t)
    ensures EpochInvariant(Apply(configs, t, event))
  {
    hide EpochInvariant, Resolve, Discard, MarkUnknown, BeginStep, ScheduleAll;
    match event
    case Step(requests, scheduled, removed, rollback, epochs) =>
      BeginKeepsEpochs(configs, t, removed);
      BeginStepKeys(configs, t, removed);
      ScheduleAllKeepsEpochs(configs, BeginStep(configs, t, removed), requests, scheduled, rollback, epochs);
    case Settle(epoch, request, actual) => ResolveKeepsEpochs(configs, t, epoch, request, actual);
    case Drop(epoch) => DiscardKeepsEpochs(t, epoch);
    case Forget(req) => MarkKeepsEpochs(t, req);
  }

  /** The epoch invariant holds after any sequence of tracker calls. */
  lemma {:induction false} EpochInvariantHolds(configs: Configs, events: seq<Event>)
    requires ValidConfigs(configs)
    ensures EpochInvariant(Run(configs, events))
  {
    hide Apply;
    if events != [] {
      EpochInvariantHolds(configs, events[..|events| - 1]);
      ApplyKeepsEpochs(configs, Run(configs, events[..|events| - 1]), events[|events| - 1]);
    }
  }

  /** Whatever calls were made, a block that an unresolved epoch may have written is among the
      blocks that must stay exact. */
  lemma UnresolvedWritesStayExact(configs: Configs, events: seq<Event>, epoch: Id, g: GroupId, block: nat)
    requires ValidConfigs(configs)
    requires epoch in Run(configs, events).pending
    requires g in Run(configs, events).pending[epoch] && block in Run(configs, events).pending[epoch][g]
    ensures block in BlockFills(Run(configs, events), g)
  {
    hide Run, IsJoin, JoinOf;
    EpochInvariantHolds(configs, events);
    var t := Run(configs, events);
    assert Covers(t.epochBlocks[epoch], t.pending[epoch]);
    var kept := GetOr(t.epochBlocks[epoch], g, map[]);
    assert kept in GroupSources(t.epochBlocks, g);
    JoinHolds(Sources(t, g), kept, block);
  }

  lemma JoinHolds(sources: set<Blocks>, s: Blocks, k: nat)
    requires s in sources && k in s
    ensures k in JoinOf(sources)
  {
    assert Below(s, JoinOf(sources));
  }

  /** Forgetting a request makes every fill of its own blocks and of its epochs' blocks unknown, keeps all
      those blocks, and leaves every other fill as it was. */
  lemma ForgottenFills(configs: Configs, t: Tables, req: Id, k: Id, g: GroupId, b: nat)
    requires ValidConfigs(configs) && t.epochOwners.Keys <= t.epochBlocks.Keys
    ensures var u := Apply(configs, t, Forget(req));
      && (var was, now := GetOr(GetOr(t.requestBlocks, k, map[]), g, map[]),
              GetOr(GetOr(u.requestBlocks, k, map[]), g, map[]);
          && (b in now <==> b in was) && (b in was ==> now[b] == if k == req then Unknown else was[b]))
      && (var was, now := GetOr(GetOr(t.epochBlocks, k, map[]), g, map[]),
              GetOr(GetOr(u.epochBlocks, k, map[]), g, map[]);
          var its := k in t.epochOwners && t.epochOwners[k] == req;
          && (b in now <==> b in was) && (b in was ==> now[b] == if its then Unknown else was[b]))
      && u.stepBlocks == t.stepBlocks && u.resolved == t.resolved
  {
  }

  /** A request's latest epoch is one of its own unresolved epochs, and forgetting a request's
      fills always finds the tables of its epochs. */
  lemma LatestEpochIsUnresolved(configs: Configs, events: seq<Event>, req: Id)
    requires ValidConfigs(configs)
    ensures var t := Run(configs, events);
      && t.epochOwners.Keys <= t.epochBlocks.Keys
      && (req in t.latestEpoch ==>
            t.latestEpoch[req] in t.pending && t.latestEpoch[req] in t.epochOwners
            && t.epochOwners[t.latestEpoch[req]] == req)
  {
    hide Run;
    EpochInvariantHolds(configs, events);
  }
}
