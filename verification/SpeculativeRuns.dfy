/** One request followed through whole runs with speculation.

    A request may have any number of open epochs, under any names, as long as no name is shared
    with another request.  A followed request is summarised by a `Track`; `Moves` says what each
    tracker call does to the summary, and the main lemma shows that the tracker's tables always
    agree with it. */
module SpeculativeRuns {
  import opened Sharding
  import opened FillMaps
  import opened Ownership
  import opened BlockRanges
  import opened EpochSafety
  import opened PoolBound
  import opened AsyncRefinement

  /** Block tables of a request, where its last step may have started writing, and the bounds
      between which the request ends.  It is `sure` while the request's latest open epoch, if any,
      is the one its last step opened; an epoch that a later step left behind, or that was dropped
      unsettled, no longer says where the request ends. */
  datatype Track = Track(ids: seq<seq<nat>>, start: nat, lo: nat, hi: nat, sure: bool)

  /** Nothing is claimed of a `Lost` request until it is removed. */
  datatype Follow = Absent | Tracked(track: Track) | Lost

  /** Everything the tables say about one request and its latest epoch. */
  datatype View = View(present: bool, blocks: map<GroupId, Blocks>, full: set<GroupId>,
                       latest: set<Id>, pending: map<GroupId, map<nat, nat>>, epochFull: set<GroupId>)

  const NO_VIEW := View(false, map[], {}, {}, map[], {})

  /** The latest open epoch of a request, if it has one. */
  function LatestOf(t: Tables, r: Id): set<Id> {
    if r in t.latestEpoch then {t.latestEpoch[r]} else {}
  }

  function ViewOf(t: Tables, r: Id): View {
    View(r in t.requestBlocks, GetOr(t.requestBlocks, r, map[]), GetOr(t.requestFull, r, {}), LatestOf(t, r),
         if r in t.latestEpoch then GetOr(t.pending, t.latestEpoch[r], map[]) else map[],
         if r in t.latestEpoch then GetOr(t.epochFull, t.latestEpoch[r], {}) else {})
  }

  /** The names in `mine` are used for epochs of `r` and of no other request. */
  ghost predicate NamedApart(owners: map<Id, Id>, r: Id, mine: iset<Id>) {
    forall e :: e in owners ==> (e in mine <==> owners[e] == r)
  }

  ghost predicate Epochs(t: Tables, r: Id, mine: iset<Id>) {
    EpochInvariant(t) && NamedApart(t.epochOwners, r, mine)
  }

  predicate InTables(configs: Configs, ids: seq<seq<nat>>, g: GroupId) {
    g in configs && g < |ids|
  }

  ghost predicate GoodTables(configs: Configs, ids: seq<seq<nat>>, hi: nat)
    requires ValidConfigs(configs)
  {
    forall g: GroupId :: InTables(configs, ids, g) ==> Distinct(ids[g]) && Holds(configs[g], ids[g], hi)
  }

  ghost predicate ExtendsTables(ids: seq<seq<nat>>, ids': seq<seq<nat>>) {
    |ids| == |ids'| && forall g :: 0 <= g < |ids| ==> ids[g] <= ids'[g]
  }

  /** Nothing of this rank's tokens is in doubt. */
  predicate InNoDoubt(cfg: GroupConfig, k: Track)
    requires cfg.Valid()
  {
    k.lo == k.hi || cfg.Local(k.start) >= cfg.Local(k.hi)
  }

  function LastWindow(k: Track): Window {
    Window(k.start, k.lo, k.hi)
  }

  /** The blocks kept are those computed from nothing for the request's bounds. */
  ghost predicate KeepsExactly(configs: Configs, blocks: map<GroupId, Blocks>, k: Track)
    requires ValidConfigs(configs)
  {
    && (forall g :: g in blocks ==> InTables(configs, k.ids, g))
    && (forall g: GroupId :: InTables(configs, k.ids, g) ==>
          GetOr(blocks, g, map[]) == WideBlocks(configs[g], k.ids[g], k.lo, k.hi))
  }

  ghost predicate FullWithin(configs: Configs, full: set<GroupId>, k: Track)
    requires ValidConfigs(configs)
  {
    forall g :: g in full ==> InTables(configs, k.ids, g) && FullContext(configs[g], k.hi)
  }

  ghost predicate PendingOfTrack(configs: Configs, v: View, k: Track)
    requires ValidConfigs(configs)
  {
    var request := Request(k.ids, 0);
    && v.pending == ScheduledPending(configs, request, LastWindow(k))
    && v.epochFull == v.full * v.pending.Keys
    && v.full == ScheduledFull(configs, request, LastWindow(k))
  }

  ghost predicate Agrees(configs: Configs, v: View, k: Track)
    requires ValidConfigs(configs)
  {
    && v.present && k.start <= k.lo <= k.hi
    && GoodTables(configs, k.ids, k.hi)
    && KeepsExactly(configs, v.blocks, k)
    && FullWithin(configs, v.full, k)
    && (k.sure ==>
          if v.latest != {} then PendingOfTrack(configs, v, k)
          else forall g: GroupId :: InTables(configs, k.ids, g) ==> InNoDoubt(configs[g], k))
  }

  ghost predicate Follows(configs: Configs, v: View, f: Follow)
    requires ValidConfigs(configs)
  {
    match f
    case Absent => v == NO_VIEW
    case Tracked(k) => Agrees(configs, v, k)
    case Lost => true
  }

  // ---- what each call does to the summary ----

  function TrackOf(request: Request, w: Window, sure: bool): Track {
    Track(request.blockIds, w.minStart, w.minEnd, w.maxEnd, sure)
  }

  /** Where the request may end, as far as a call that leaves the `latest` epoch open can tell:
      the new window reaches around the whole doubt, or there is no doubt and it overlaps. */
  predicate Overlaps(k: Track, latest: set<Id>, w: Window) {
    || (w.minStart <= k.lo && k.hi <= w.maxEnd)
    || (k.sure && latest == {} && w.minStart <= k.hi && k.lo <= w.maxEnd)
  }

  /** The request is scheduled within what is known of its end, with tables that only grew and
      hold the step's tokens.  An open latest epoch of the step's own name is settled first. */
  ghost predicate MayEnter(configs: Configs, latest: set<Id>, epoch: Id, f: Follow, request: Request, w: Window)
    requires ValidConfigs(configs)
  {
    && GoodTables(configs, request.blockIds, w.maxEnd)
    && (f.Tracked? ==>
          && ExtendsTables(f.track.ids, request.blockIds)
          && (if epoch in latest then f.track.sure && f.track.start <= request.computed <= f.track.hi
              else Overlaps(f.track, latest, w)))
  }

  /** An epoch is settled between where its step may have started and where it may have ended. */
  ghost predicate MaySettle(configs: Configs, k: Track, request: Request, actual: int) {
    && ExtendsTables(k.ids, request.blockIds) && k.start <= actual <= k.hi
    && DistinctTables(configs, request.blockIds)
  }

  /** Tables without repetitions. */
  ghost predicate DistinctTables(configs: Configs, ids: seq<seq<nat>>) {
    forall g: GroupId :: InTables(configs, ids, g) ==> Distinct(ids[g])
  }

  predicate IsScheduled(r: Id, requests: map<Id, Request>, scheduled: seq<Schedule>) {
    r in requests && exists j :: 0 <= j < |scheduled| && scheduled[j].req == r
  }

  function EpochName(epochs: map<Id, Id>, r: Id): Id {
    GetOr(epochs, r, r)
  }

  /** The step names the epochs of `r`, and no others, from `mine`. */
  ghost predicate NamesApart(r: Id, mine: iset<Id>, requests: map<Id, Request>, scheduled: seq<Schedule>,
                             epochs: map<Id, Id>)
  {
    forall s :: s in scheduled && s.req in requests ==> (EpochName(epochs, s.req) in mine <==> s.req == r)
  }

  /** A step that opens an epoch, or leaves none of an earlier step open, is sure of its doubt. */
  predicate StaysSure(configs: Configs, latest: set<Id>, epoch: Id, request: Request, w: Window, rollback: nat)
    requires ValidConfigs(configs)
  {
    latest - {epoch} == {} || (rollback > 0 && ScheduledPending(configs, request, w) != map[])
  }

  /** Scheduling the request: `f` is what is known when the step starts. */
  ghost predicate Enters(configs: Configs, latest: set<Id>, epoch: Id, f: Follow, request: Request,
                         tokens: nat, rollback: nat, f': Follow)
    requires ValidConfigs(configs)
  {
    var w := WindowOf(request.computed, tokens, rollback);
    if f == Lost then f' == Lost
    else
      && MayEnter(configs, latest, epoch, f, request, w)
      && f' == Tracked(TrackOf(request, w, StaysSure(configs, latest, epoch, request, w, rollback)))
  }

  /** Settling the latest epoch. */
  ghost predicate Settles(configs: Configs, f: Follow, request: Request, actual: int, f': Follow) {
    if f.Tracked? && f.track.sure then
      && MaySettle(configs, f.track, request, actual)
      && f' == Tracked(Track(request.blockIds, actual, actual, actual, true))
    else f' == Lost
  }

  /** What a call does to the summary of `r`, whose latest open epoch is `latest`. */
  ghost predicate Moves(configs: Configs, r: Id, mine: iset<Id>, latest: set<Id>, f: Follow, event: Event, f': Follow)
    requires ValidConfigs(configs)
  {
    match event
    case Step(requests, scheduled, removed, rollback, epochs) =>
      var kept, open := if r in removed then Absent else f, if r in removed then {} else latest;
      && DistinctRequests(scheduled) && NamesApart(r, mine, requests, scheduled, epochs)
      && (if IsScheduled(r, requests, scheduled) then
            forall s :: s in scheduled && s.req == r ==>
              Enters(configs, open, EpochName(epochs, r), kept, requests[r], s.tokens, GetOr(rollback, r, 0), f')
          else f' == kept)
    case Settle(epoch, request, actual) =>
      if epoch in latest then Settles(configs, f, request, actual, f') else f' == f
    case Drop(epoch) =>
      f' == if epoch in latest && f.Tracked? then Tracked(f.track.(sure := false)) else f
    case Forget(req) =>
      f' == if req == r && f.Tracked? then Lost else f
  }

  // ---- entering and settling ----

  lemma SameTables(configs: Configs, ids: seq<seq<nat>>, ids': seq<seq<nat>>, g: GroupId)
    requires ExtendsTables(ids, ids')
    ensures InTables(configs, ids, g) <==> InTables(configs, ids', g)
    ensures g < |ids| ==> ids[g] <= ids'[g]
  {
  }

  /** Bounds of a request without doubt still bracket any overlapping window. */
  lemma WindowOverlaps(cfg: GroupConfig, k: Track, w: Window)
    requires cfg.Valid() && InNoDoubt(cfg, k) && k.start <= k.lo <= k.hi
    requires w.minStart <= k.hi && k.lo <= w.maxEnd
    ensures cfg.Local(w.minStart) <= cfg.Local(k.lo) && cfg.Local(k.hi) <= cfg.Local(w.maxEnd)
  {
    hide LocalNumTokens;
    CountMonotone(w.minStart, k.hi, cfg.world, cfg.rank, cfg.interleave);
    CountMonotone(k.lo, w.maxEnd, cfg.world, cfg.rank, cfg.interleave);
    if k.lo != k.hi {
      CountMonotone(k.start, k.lo, cfg.world, cfg.rank, cfg.interleave);
      CountMonotone(k.lo, k.hi, cfg.world, cfg.rank, cfg.interleave);
    }
  }

  /** An inactive group keeps nothing. */
  lemma InactiveIsEmpty(configs: Configs, request: Request, w: Window, g: GroupId)
    requires ValidConfigs(configs) && InTables(configs, request.blockIds, g) && !Active(configs, request, w, g)
    requires w.minEnd <= w.maxEnd
    ensures WideBlocks(configs[g], request.blockIds[g], w.minEnd, w.maxEnd) == map[]
  {
    hide LocalNumTokens, SpanBlocks, PhysicalRange;
    var cfg, ids := configs[g], request.blockIds[g];
    if w.maxEnd == 0 {
      CountOfZero(cfg.world, cfg.rank, cfg.interleave);
      CeilBounds(0, cfg.group);
    }
    assert NumLogical(cfg, ids, cfg.Local(w.maxEnd)) == 0;
    WideWithin(cfg, ids, w.minEnd, w.maxEnd);
    RangeSize(ids, cfg.perManager, 0, 0);
    assert WideBlocks(cfg, ids, w.minEnd, w.maxEnd).Keys == {};
  }

  /** What the tables know about the previous step suffices for the new one. */
  ghost predicate Ready(configs: Configs, v: View, f: Follow, request: Request, w: Window)
    requires ValidConfigs(configs)
  {
    && f != Lost && Follows(configs, v, f)
    && w.minStart <= w.minEnd <= w.maxEnd
    && GoodTables(configs, request.blockIds, w.maxEnd)
    && (f.Tracked? ==> ExtendsTables(f.track.ids, request.blockIds) && Overlaps(f.track, v.latest, w))
  }

  /** The new window reaches around what this rank keeps of the old one. */
  lemma WindowReaches(configs: Configs, v: View, k: Track, w: Window, g: GroupId)
    requires ValidConfigs(configs) && Agrees(configs, v, k) && Overlaps(k, v.latest, w) && InTables(configs, k.ids, g)
    ensures configs[g].Local(w.minStart) <= configs[g].Local(k.lo)
    ensures configs[g].Local(k.hi) <= configs[g].Local(w.maxEnd)
  {
    hide LocalNumTokens, GoodTables, KeepsExactly, FullWithin, PendingOfTrack, InNoDoubt;
    var cfg := configs[g];
    if w.minStart <= k.lo && k.hi <= w.maxEnd {
      CountMonotone(w.minStart, k.lo, cfg.world, cfg.rank, cfg.interleave);
      CountMonotone(k.hi, w.maxEnd, cfg.world, cfg.rank, cfg.interleave);
    } else {
      WindowOverlaps(cfg, k, w);
    }
  }

  lemma EnterKeepsExactly(configs: Configs, v: View, f: Follow, request: Request, w: Window, sure: bool)
    requires ValidConfigs(configs) && Ready(configs, v, f, request, w)
    ensures KeepsExactly(configs, ScheduledGroups(configs, request, w, v.blocks, v.full), TrackOf(request, w, sure))
  {
    hide LocalNumTokens, GroupBlocks, WideBlocks, Holds, NumLogical, InNoDoubt, PendingOfTrack, FullContext;
    var groups := ScheduledGroups(configs, request, w, v.blocks, v.full);
    forall g: GroupId | InTables(configs, request.blockIds, g)
      ensures GetOr(groups, g, map[]) == WideBlocks(configs[g], request.blockIds[g], w.minEnd, w.maxEnd)
    {
      if Active(configs, request, w, g) {
        EnterOne(configs, v, f, request, w, g);
      } else {
        InactiveIsEmpty(configs, request, w, g);
      }
    }
  }

  lemma EnterOne(configs: Configs, v: View, f: Follow, request: Request, w: Window, g: GroupId)
    requires ValidConfigs(configs) && Ready(configs, v, f, request, w) && InTables(configs, request.blockIds, g)
    ensures GroupBlocks(configs[g], request.blockIds[g], w, v.blocks, v.full, g)
         == WideBlocks(configs[g], request.blockIds[g], w.minEnd, w.maxEnd)
  {
    hide LocalNumTokens, GroupBlocks, WideBlocks, Holds, PendingOfTrack, FullContext, InNoDoubt;
    match f
    case Absent =>
      EnteredGroup(configs[g], [], request.blockIds[g], 0, 0, w, v.blocks, v.full, g);
    case Tracked(k) =>
      SameTables(configs, k.ids, request.blockIds, g);
      WindowReaches(configs, v, k, w, g);
      EnteredGroup(configs[g], k.ids[g], request.blockIds[g], k.lo, k.hi, w, v.blocks, v.full, g);
  }

  lemma FullAfterEnter(configs: Configs, request: Request, w: Window, sure: bool)
    requires ValidConfigs(configs)
    ensures FullWithin(configs, ScheduledFull(configs, request, w), TrackOf(request, w, sure))
  {
    hide LocalNumTokens, NumLogical;
  }

  /** A rank that may write something has something pending. */
  lemma TouchedIsPending(configs: Configs, request: Request, w: Window, g: GroupId)
    requires ValidConfigs(configs) && InTables(configs, request.blockIds, g)
    requires GoodTables(configs, request.blockIds, w.maxEnd) && Touches(SpanOf(configs[g], w))
    ensures g in ScheduledPending(configs, request, w)
  {
    hide LocalNumTokens, CeilDiv, PhysicalBlock, Distinct;
    var cfg, ids := configs[g], request.blockIds[g];
    var s := SpanOf(cfg, w);
    assert Distinct(ids) && Holds(cfg, ids, w.maxEnd);
    LastBlock(s.maxEnd, cfg.group);
    assert w.maxEnd > 0 by {
      CountOfZero(cfg.world, cfg.rank, cfg.interleave);
    }
    assert Active(configs, request, w, g);
    TouchedReachesEnd(cfg, ids, s);
    FloorMonotone(s.minStart, s.maxEnd - 1, cfg.group);
    LogicalAt(ids, cfg.perManager, TouchedFrom(cfg, s), TouchedTo(cfg, ids, s), TouchedFrom(cfg, s));
    assert PhysicalBlock(ids, TouchedFrom(cfg, s), cfg.perManager) in TouchedLogical(cfg, ids, s);
  }

  /** With nothing pending after a rollback step, this rank had nothing to write. */
  lemma NothingPendingNoDoubt(configs: Configs, request: Request, w: Window, sure: bool, g: GroupId)
    requires ValidConfigs(configs) && InTables(configs, request.blockIds, g)
    requires GoodTables(configs, request.blockIds, w.maxEnd)
    requires ScheduledPending(configs, request, w) == map[]
    ensures InNoDoubt(configs[g], TrackOf(request, w, sure))
  {
    hide LocalNumTokens, ScheduledPending, GoodTables;
    if Touches(SpanOf(configs[g], w)) {
      TouchedIsPending(configs, request, w, g);
      assert false;
    }
  }

  lemma FloorMonotone(a: nat, b: nat, g: nat)
    requires g > 0 && a <= b
    ensures a / g <= b / g
  {
    FloorBounds(a, g);
    FloorBounds(b, g);
    if b / g < a / g {
      MulMonotone(b / g + 1, a / g, g);
      Distribute(b / g, 1, g);
      assert false;
    }
  }

  lemma PendingIgnoresCount(configs: Configs, request: Request, w: Window)
    requires ValidConfigs(configs)
    ensures ScheduledPending(configs, request, w) == ScheduledPending(configs, Request(request.blockIds, 0), w)
    ensures ScheduledFull(configs, request, w) == ScheduledFull(configs, Request(request.blockIds, 0), w)
  {
    hide LocalNumTokens, NumLogical, TouchedLogical, FullContext;
  }

  /** The request's view after it was entered. */
  lemma EnterView(configs: Configs, t: Tables, r: Id, epoch: Id, request: Request, scheduled: nat, rollback: nat)
    requires ValidConfigs(configs)
    ensures var w := WindowOf(request.computed, scheduled, rollback);
      var v, u := ViewOf(t, r), ViewOf(Enter(configs, t, r, epoch, request, scheduled, rollback), r);
      var full := ScheduledFull(configs, request, w);
      var pending := if rollback > 0 then ScheduledPending(configs, request, w) else map[];
      && u.present && u.full == full
      && u.blocks == ScheduledGroups(configs, request, w, v.blocks, v.full)
      && (pending == map[] ==> u.latest == v.latest)
      && (pending != map[] ==> u.latest == {epoch} && u.pending == pending)
      && (pending != map[] && epoch !in t.epochFull ==> u.epochFull == full * pending.Keys)
  {
    hide ScheduledGroups, ScheduledFull, ScheduledStep, ScheduledPending, RetainedBlocks;
  }

  lemma EnterAgrees(configs: Configs, t: Tables, r: Id, epoch: Id, f: Follow, request: Request,
                    scheduled: nat, rollback: nat)
    requires ValidConfigs(configs) && EpochInvariant(t) && epoch !in t.pending
    requires var w := WindowOf(request.computed, scheduled, rollback);
      Ready(configs, ViewOf(t, r), f, request, w)
    ensures var w := WindowOf(request.computed, scheduled, rollback);
      var sure := StaysSure(configs, LatestOf(t, r), epoch, request, w, rollback);
      Agrees(configs, ViewOf(Enter(configs, t, r, epoch, request, scheduled, rollback), r), TrackOf(request, w, sure))
  {
    hide Enter, KeepsExactly, FullWithin, GoodTables, InNoDoubt, ScheduledGroups, ScheduledFull, ScheduledPending;
    hide Ready, ViewOf, EpochInvariant;
    var w := WindowOf(request.computed, scheduled, rollback);
    var sure := StaysSure(configs, LatestOf(t, r), epoch, request, w, rollback);
    var u := ViewOf(Enter(configs, t, r, epoch, request, scheduled, rollback), r);
    ReadyFacts(configs, ViewOf(t, r), f, request, w);
    NewEpoch(t, r, epoch);
    EnterView(configs, t, r, epoch, request, scheduled, rollback);
    EnterKeepsExactly(configs, ViewOf(t, r), f, request, w, sure);
    FullAfterEnter(configs, request, w, sure);
    PendingIgnoresCount(configs, request, w);
    if u.latest == {} {
      forall g: GroupId | InTables(configs, request.blockIds, g)
        ensures InNoDoubt(configs[g], TrackOf(request, w, sure))
      {
        if rollback == 0 {
          MeetingBounds(configs[g], TrackOf(request, w, sure));
        } else {
          NothingPendingNoDoubt(configs, request, w, sure, g);
        }
      }
    }
  }

  /** An epoch that is not open is no request's latest, and covers no group. */
  lemma NewEpoch(t: Tables, r: Id, epoch: Id)
    requires EpochInvariant(t) && epoch !in t.pending
    ensures epoch !in LatestOf(t, r) && epoch !in t.epochFull && ViewOf(t, r).latest == LatestOf(t, r)
  {
    hide EpochsCovered;
  }

  lemma MeetingBounds(cfg: GroupConfig, k: Track)
    requires cfg.Valid() && k.lo == k.hi
    ensures InNoDoubt(cfg, k)
  {
  }

  lemma ReadyFacts(configs: Configs, v: View, f: Follow, request: Request, w: Window)
    requires ValidConfigs(configs) && Ready(configs, v, f, request, w)
    ensures w.minStart <= w.minEnd <= w.maxEnd && GoodTables(configs, request.blockIds, w.maxEnd)
  {
  }

  /** Blocks of a settled request do not depend on how far its table was grown. */
  lemma WidePrefix(cfg: GroupConfig, ids: seq<nat>, ids': seq<nat>, lo: nat, hi: nat)
    requires cfg.Valid() && ids <= ids' && Distinct(ids') && Holds(cfg, ids, hi)
    ensures WideBlocks(cfg, ids', lo, hi) == WideBlocks(cfg, ids, lo, hi)
  {
    hide LocalNumTokens, SpanBlocks, PhysicalRange, PhysicalBlock, CeilDiv;
    var s, m := SpanOf(cfg, Window(lo, lo, hi)), cfg.perManager;
    var a, b := WideBlocks(cfg, ids, lo, hi), WideBlocks(cfg, ids', lo, hi);
    MulMonotone(|ids|, |ids'|, m);
    var n := NumLogical(cfg, ids, s.maxEnd);
    assert n == NumLogical(cfg, ids', s.maxEnd);
    DistinctPrefix(ids, ids');
    WideWithin(cfg, ids, lo, hi);
    WideWithin(cfg, ids', lo, hi);
    RangePrefix(ids, ids', m, 0, n);
    forall k
      ensures k in a <==> k in b
      ensures k in a ==> a[k] == b[k]
    {
      if k in a || k in b {
        var l := LogicalOf(ids, m, n, k);
        PhysicalPrefix(ids, ids', m, l);
        SpanBlocksAt(cfg, ids, s, l);
        SpanBlocksAt(cfg, ids', s, l);
      }
    }
  }

  /** A group of the owner after its pending epoch was settled. */
  lemma SettleOne(configs: Configs, v: View, k: Track, request: Request, actual: nat, g: GroupId)
    requires ValidConfigs(configs) && Agrees(configs, v, k) && k.sure && v.latest != {}
    requires MaySettle(configs, k, request, actual) && InTables(configs, request.blockIds, g)
    requires GoodTables(configs, request.blockIds, actual)
    ensures var trims := v.epochFull * v.full;
      GetOr(ResolvedOwner(configs, v.blocks, v.pending, trims, request, actual), g, map[])
        == WideBlocks(configs[g], request.blockIds[g], actual, actual)
  {
    hide LocalNumTokens, WideBlocks, Holds, TrimPending, PersistentBlocks, TouchedLogical, NumLogical, Distinct;
    var cfg, ids, ids' := configs[g], k.ids[g], request.blockIds[g];
    var trims, w := v.epochFull * v.full, LastWindow(k);
    SameTables(configs, k.ids, request.blockIds, g);
    StartIsIrrelevant(cfg, ids', Window(actual, actual, actual));
    if actual == 0 {
      NothingAtZero(cfg, ids');
    }
    if g in trims {
      assert g in ScheduledPending(configs, Request(k.ids, 0), w);
      TrimmedGroup(cfg, ids, ids', w, actual);
    }
  }

  lemma NothingAtZero(cfg: GroupConfig, ids: seq<nat>)
    requires cfg.Valid()
    ensures WideBlocks(cfg, ids, 0, 0) == map[]
  {
    hide LocalNumTokens, SpanBlocks, PhysicalRange;
    CountOfZero(cfg.world, cfg.rank, cfg.interleave);
    CeilBounds(0, cfg.group);
    WideWithin(cfg, ids, 0, 0);
    RangeSize(ids, cfg.perManager, 0, 0);
    assert WideBlocks(cfg, ids, 0, 0).Keys == {};
  }

  /** A fully covered group: rewriting its pending blocks, or dropping them at end zero. */
  lemma TrimmedGroup(cfg: GroupConfig, ids: seq<nat>, ids': seq<nat>, w: Window, actual: nat)
    requires cfg.Valid() && ids <= ids' && Distinct(ids') && Distinct(ids)
    requires FullContext(cfg, w.maxEnd) && w.minStart <= w.minEnd <= w.maxEnd && w.minStart <= actual <= w.maxEnd
    requires Holds(cfg, ids, w.maxEnd)
    requires NumLogical(cfg, ids, SpanOf(cfg, w).maxEnd) > 0 && TouchedLogical(cfg, ids, SpanOf(cfg, w)) != map[]
    ensures var owned, pending := WideBlocks(cfg, ids, w.minEnd, w.maxEnd), TouchedLogical(cfg, ids, SpanOf(cfg, w));
      && TrimPending(cfg, owned, pending, cfg.Local(actual)) == WideBlocks(cfg, ids', actual, actual)
      && (actual == 0 ==> owned - pending.Keys == map[])
  {
    hide LocalNumTokens, WideBlocks, TrimPending, LogicalRange, CeilDiv;
    assert Touches(SpanOf(cfg, w));
    TrimExact(cfg, ids, w, actual);
    CountMonotone(actual, w.maxEnd, cfg.world, cfg.rank, cfg.interleave);
    CeilMonotone(cfg.Local(actual), cfg.Local(w.maxEnd), cfg.group);
    WidePrefix(cfg, ids, ids', actual, actual);
    if actual == 0 {
      NothingAtZero(cfg, ids);
      TrimKeeps(cfg, WideBlocks(cfg, ids, w.minEnd, w.maxEnd), TouchedLogical(cfg, ids, SpanOf(cfg, w)), cfg.Local(0));
    }
  }

  lemma TrimKeeps(cfg: GroupConfig, owned: Blocks, pending: map<nat, nat>, e: nat)
    requires TrimPending(cfg, owned, pending, e) == map[]
    ensures owned - pending.Keys == map[]
  {
    assert (owned - pending.Keys).Keys <= TrimPending(cfg, owned, pending, e).Keys;
  }

  /** The request's view after its latest epoch was settled. */
  lemma ResolveView(configs: Configs, t: Tables, r: Id, epoch: Id, request: Request, actual: int)
    requires ValidConfigs(configs) && EpochInvariant(t) && epoch in LatestOf(t, r) && r in t.requestBlocks
    ensures var v, u := ViewOf(t, r), ViewOf(Resolve(configs, t, epoch, request, actual), r);
      && u.present && u.latest == {} && u.full == v.full
      && u.blocks == ResolvedOwner(configs, v.blocks, v.pending, v.epochFull * v.full, request, actual)
  {
    hide ResolvedOwner, ResolvedPending, Covers, EpochsCovered;
  }

  lemma SettleKeepsExactly(configs: Configs, v: View, k: Track, request: Request, actual: nat)
    requires ValidConfigs(configs) && Agrees(configs, v, k) && k.sure && v.latest != {}
    requires MaySettle(configs, k, request, actual) && GoodTables(configs, request.blockIds, actual)
    ensures KeepsExactly(configs, ResolvedOwner(configs, v.blocks, v.pending, v.epochFull * v.full, request, actual),
                         Track(request.blockIds, actual, actual, actual, true))
  {
    hide WideBlocks, GoodTables, SettledGroup, PendingOfTrack, FullContext;
    var trims := v.epochFull * v.full;
    var groups := ResolvedOwner(configs, v.blocks, v.pending, trims, request, actual);
    forall g: GroupId | InTables(configs, request.blockIds, g)
      ensures GetOr(groups, g, map[]) == WideBlocks(configs[g], request.blockIds[g], actual, actual)
    {
      SettleOne(configs, v, k, request, actual, g);
    }
    forall g | g in groups
      ensures InTables(configs, request.blockIds, g)
    {
      assert KeepsGroup(configs, v.blocks, trims, request, actual, g);
      SameTables(configs, k.ids, request.blockIds, g);
    }
  }

  /** A table long enough for a larger end is long enough for a smaller one. */
  lemma GoodForLess(configs: Configs, ids: seq<seq<nat>>, ids': seq<seq<nat>>, lo: nat, hi: nat)
    requires ValidConfigs(configs) && ExtendsTables(ids, ids') && GoodTables(configs, ids, hi) && lo <= hi
    requires forall g: GroupId :: InTables(configs, ids', g) ==> Distinct(ids'[g])
    ensures GoodTables(configs, ids', lo)
  {
    hide LocalNumTokens, CeilDiv, Distinct;
    forall g: GroupId | InTables(configs, ids', g)
      ensures Holds(configs[g], ids'[g], lo)
    {
      var cfg := configs[g];
      SameTables(configs, ids, ids', g);
      assert Holds(cfg, ids[g], hi);
      CountMonotone(lo, hi, cfg.world, cfg.rank, cfg.interleave);
      CeilMonotone(cfg.Local(lo), cfg.Local(hi), cfg.group);
      MulMonotone(|ids[g]|, |ids'[g]|, cfg.perManager);
    }
  }

  lemma FullForLess(configs: Configs, full: set<GroupId>, k: Track, ids': seq<seq<nat>>, lo: nat)
    requires ValidConfigs(configs) && FullWithin(configs, full, k) && ExtendsTables(k.ids, ids') && lo <= k.hi
    ensures FullWithin(configs, full, Track(ids', lo, lo, lo, true))
  {
  }

  lemma SettleAgrees(configs: Configs, t: Tables, r: Id, epoch: Id, k: Track, request: Request, actual: nat)
    requires ValidConfigs(configs) && EpochInvariant(t) && epoch in LatestOf(t, r)
    requires Agrees(configs, ViewOf(t, r), k) && k.sure && MaySettle(configs, k, request, actual)
    ensures Agrees(configs, ViewOf(Resolve(configs, t, epoch, request, actual), r),
                   Track(request.blockIds, actual, actual, actual, true))
    ensures LatestOf(Resolve(configs, t, epoch, request, actual), r) == {}
  {
    hide Resolve, KeepsExactly, FullWithin, GoodTables, PendingOfTrack, ResolvedOwner, EpochInvariant, InNoDoubt;
    var settled := Track(request.blockIds, actual, actual, actual, true);
    GoodForLess(configs, k.ids, request.blockIds, actual, k.hi);
    ResolveView(configs, t, r, epoch, request, actual);
    SettleKeepsExactly(configs, ViewOf(t, r), k, request, actual);
    FullForLess(configs, ViewOf(t, r).full, k, request.blockIds, actual);
    forall g: GroupId | InTables(configs, settled.ids, g)
      ensures InNoDoubt(configs[g], settled)
    {
      MeetingBounds(configs[g], settled);
    }
  }

  // ---- epochs that are not the request's latest ----

  lemma OthersPublish(t: Tables, epoch: Id, owner: Id, latest: bool, groups: map<GroupId, Blocks>,
                      resolved: map<GroupId, Blocks>, r: Id)
    requires latest ==> owner != r
    ensures ViewOf(PublishEpoch(t, epoch, owner, latest, groups, resolved), r) == ViewOf(t, r)
  {
  }

  lemma OthersDrop(t: Tables, epoch: Id, r: Id)
    requires epoch !in LatestOf(t, r)
    ensures ViewOf(DropEpoch(t, epoch), r) == ViewOf(t, r)
  {
  }

  /** Settling an epoch that is not the request's latest changes nothing about the request. */
  lemma OthersResolve(configs: Configs, t: Tables, epoch: Id, request: Request, actual: int, r: Id)
    requires ValidConfigs(configs) && EpochInvariant(t) && epoch !in LatestOf(t, r)
    ensures ViewOf(Resolve(configs, t, epoch, request, actual), r) == ViewOf(t, r)
  {
    hide ResolvedOwner, ResolvedPending, EpochInvariant, DropEpoch, PublishEpoch, ViewOf, TrimGroups;
    OthersDrop(t, epoch, r);
    if epoch in t.pending {
      var owner := GetOr(t.epochOwners, epoch, epoch);
      OthersPublish(DropEpoch(t, epoch), epoch, owner, IsLatest(t, epoch),
        ResolvedOwner(configs, GetOr(t.requestBlocks, owner, map[]), t.pending[epoch], TrimGroups(t, epoch, owner),
                      request, actual),
        ResolvedPending(configs, t.pending[epoch], request, actual), r);
    }
  }

  lemma PublishKeepsOwners(t: Tables, epoch: Id, owner: Id, latest: bool, groups: map<GroupId, Blocks>,
                           resolved: map<GroupId, Blocks>)
    ensures PublishEpoch(t, epoch, owner, latest, groups, resolved).epochOwners == t.epochOwners
  {
  }

  lemma ResolvedOwners(configs: Configs, t: Tables, epoch: Id, request: Request, actual: int)
    requires ValidConfigs(configs)
    ensures Resolve(configs, t, epoch, request, actual).epochOwners == t.epochOwners - {epoch}
  {
    hide ResolvedOwner, ResolvedPending, TrimGroups, PublishEpoch, GetOr, IsLatest;
    if epoch in t.pending {
      var owner := GetOr(t.epochOwners, epoch, epoch);
      PublishKeepsOwners(DropEpoch(t, epoch), epoch, owner, IsLatest(t, epoch),
        ResolvedOwner(configs, GetOr(t.requestBlocks, owner, map[]), t.pending[epoch], TrimGroups(t, epoch, owner),
                      request, actual),
        ResolvedPending(configs, t.pending[epoch], request, actual));
    }
  }

  lemma FewerNamed(owners: map<Id, Id>, epochs: set<Id>, r: Id, mine: iset<Id>)
    requires NamedApart(owners, r, mine)
    ensures NamedApart(owners - epochs, r, mine)
  {
  }

  lemma ResolveNamed(configs: Configs, t: Tables, epoch: Id, request: Request, actual: int, r: Id, mine: iset<Id>)
    requires ValidConfigs(configs) && Epochs(t, r, mine)
    ensures Epochs(Resolve(configs, t, epoch, request, actual), r, mine)
    ensures epoch !in Resolve(configs, t, epoch, request, actual).pending
  {
    hide Resolve, EpochInvariant, NamedApart;
    ResolveKeepsEpochs(configs, t, epoch, request, actual);
    ResolvedOwners(configs, t, epoch, request, actual);
    FewerNamed(t.epochOwners, {epoch}, r, mine);
  }

  lemma ConsumeView(t: Tables, epoch: Id, r: Id, mine: iset<Id>)
    requires Epochs(t, r, mine)
    ensures Epochs(ConsumeResolved(t, epoch), r, mine)
    ensures ViewOf(ConsumeResolved(t, epoch), r) == ViewOf(t, r)
    ensures ConsumeResolved(t, epoch).pending == t.pending && LatestOf(ConsumeResolved(t, epoch), r) == LatestOf(t, r)
  {
    hide MergeGroups, EpochInvariant;
    ConsumeKeepsEpochs(t, epoch);
  }

  lemma OthersOwn(t: Tables, q: Id, groups: map<GroupId, Blocks>, full: set<GroupId>, step: map<GroupId, Blocks>, r: Id)
    requires q != r
    ensures ViewOf(OwnGroups(t, q, groups, full, step), r) == ViewOf(t, r)
  {
  }

  lemma OthersOpen(t: Tables, q: Id, epoch: Id, groups: map<GroupId, Blocks>, full: set<GroupId>,
                   pending: map<GroupId, map<nat, nat>>, r: Id)
    requires q != r && epoch !in LatestOf(t, r)
    ensures ViewOf(OpenEpoch(t, q, epoch, groups, full, pending), r) == ViewOf(t, r)
  {
    hide RetainedBlocks;
  }

  lemma OthersEnter(configs: Configs, t: Tables, q: Id, epoch: Id, request: Request, scheduled: nat, rollback: nat,
                    r: Id)
    requires ValidConfigs(configs) && q != r && epoch !in LatestOf(t, r)
    ensures ViewOf(Enter(configs, t, q, epoch, request, scheduled, rollback), r) == ViewOf(t, r)
  {
    hide ScheduledGroups, ScheduledFull, ScheduledStep, ScheduledPending, OpenEpoch, ViewOf;
    var w := WindowOf(request.computed, scheduled, rollback);
    var groups := ScheduledGroups(configs, request, w, GetOr(t.requestBlocks, q, map[]), GetOr(t.requestFull, q, {}));
    var full, step := ScheduledFull(configs, request, w), ScheduledStep(configs, request, w, t.stepBlocks);
    OthersOwn(t, q, groups, full, step, r);
    OthersOpen(OwnGroups(t, q, groups, full, step), q, epoch, groups, full, ScheduledPending(configs, request, w), r);
  }

  lemma EnterNamed(configs: Configs, t: Tables, q: Id, epoch: Id, request: Request, scheduled: nat, rollback: nat,
                   r: Id, mine: iset<Id>)
    requires ValidConfigs(configs) && Epochs(t, r, mine) && t.stepBlocks.Keys == configs.Keys
    requires epoch !in t.pending && (epoch in mine <==> q == r)
    ensures Epochs(Enter(configs, t, q, epoch, request, scheduled, rollback), r, mine)
    ensures Enter(configs, t, q, epoch, request, scheduled, rollback).stepBlocks.Keys == configs.Keys
  {
    hide ScheduledGroups, ScheduledFull, ScheduledStep, ScheduledPending, RetainedBlocks, EpochInvariant;
    EnterKeepsEpochs(configs, t, q, epoch, request, scheduled, rollback);
  }

  // ---- one scheduled request, one step, one run ----

  /** The tables in which a scheduled request is entered: an open epoch of its name is settled. */
  function Cleared(configs: Configs, t: Tables, epoch: Id, request: Request): Tables
    requires ValidConfigs(configs)
  {
    if epoch in t.pending then ConsumeResolved(Resolve(configs, t, epoch, request, request.computed), epoch) else t
  }

  lemma ScheduleOneIs(configs: Configs, t: Tables, requests: map<Id, Request>, s: Schedule,
                      rollback: map<Id, nat>, epochs: map<Id, Id>)
    requires ValidConfigs(configs) && s.req in requests
    ensures ScheduleOne(configs, t, requests, s, rollback, epochs)
         == Enter(configs, Cleared(configs, t, EpochName(epochs, s.req), requests[s.req]), s.req,
                  EpochName(epochs, s.req), requests[s.req], s.tokens, GetOr(rollback, s.req, 0))
  {
    hide Enter, Resolve, ConsumeResolved;
  }

  lemma ClearedKeeps(configs: Configs, t: Tables, epoch: Id, request: Request, r: Id, mine: iset<Id>)
    requires ValidConfigs(configs) && Epochs(t, r, mine) && t.stepBlocks.Keys == configs.Keys
    ensures var cleared := Cleared(configs, t, epoch, request);
      && Epochs(cleared, r, mine) && epoch !in cleared.pending && cleared.stepBlocks.Keys == configs.Keys
      && (epoch !in LatestOf(t, r) ==> ViewOf(cleared, r) == ViewOf(t, r))
  {
    hide Resolve, ConsumeResolved, ViewOf, NamedApart, EpochInvariant, LatestOf;
    if epoch in t.pending {
      var settled := Resolve(configs, t, epoch, request, request.computed);
      ResolveNamed(configs, t, epoch, request, request.computed, r, mine);
      ResolveKeepsStep(configs, t, epoch, request, request.computed);
      ConsumeView(settled, epoch, r, mine);
      ConsumeKeepsEpochs(settled, epoch);
      if epoch !in LatestOf(t, r) {
        OthersResolve(configs, t, epoch, request, request.computed, r);
      }
    }
  }

  /** The latest epoch of the request is one of its own names. */
  lemma LatestIsMine(t: Tables, r: Id, mine: iset<Id>)
    requires Epochs(t, r, mine)
    ensures LatestOf(t, r) <= t.pending.Keys && forall e :: e in LatestOf(t, r) ==> e in mine
  {
    hide EpochsCovered;
  }

  /** Entering any request keeps the epochs apart; entering another one leaves the view alone. */
  lemma OthersScheduled(configs: Configs, t: Tables, requests: map<Id, Request>, s: Schedule,
                        rollback: map<Id, nat>, epochs: map<Id, Id>, r: Id, mine: iset<Id>)
    requires ValidConfigs(configs) && Epochs(t, r, mine) && t.stepBlocks.Keys == configs.Keys
    requires s.req in requests ==> (EpochName(epochs, s.req) in mine <==> s.req == r)
    ensures var after := ScheduleOne(configs, t, requests, s, rollback, epochs);
      && Epochs(after, r, mine) && after.stepBlocks.Keys == configs.Keys
      && (s.req != r || r !in requests ==> ViewOf(after, r) == ViewOf(t, r))
  {
    hide Enter, Resolve, ConsumeResolved, EpochInvariant, NamedApart, ViewOf, LatestOf, ScheduleOne, EpochName, Cleared;
    if s.req in requests {
      var q, epoch, request := s.req, EpochName(epochs, s.req), requests[s.req];
      var cleared := Cleared(configs, t, epoch, request);
      ScheduleOneIs(configs, t, requests, s, rollback, epochs);
      LatestIsMine(t, r, mine);
      ClearedKeeps(configs, t, epoch, request, r, mine);
      EnterNamed(configs, cleared, q, epoch, request, s.tokens, GetOr(rollback, q, 0), r, mine);
      if q != r {
        LatestIsMine(cleared, r, mine);
        OthersEnter(configs, cleared, q, epoch, request, s.tokens, GetOr(rollback, q, 0), r);
      }
    } else {
      UnknownRequest(configs, t, requests, s, rollback, epochs);
    }
  }

  /** Entering the followed request, settling an open epoch of the same name first. */
  lemma FollowedScheduled(configs: Configs, t: Tables, requests: map<Id, Request>, s: Schedule,
                          rollback: map<Id, nat>, epochs: map<Id, Id>, mine: iset<Id>, f: Follow, f': Follow)
    requires ValidConfigs(configs) && Epochs(t, s.req, mine) && t.stepBlocks.Keys == configs.Keys && s.req in requests
    requires Follows(configs, ViewOf(t, s.req), f)
    requires Enters(configs, LatestOf(t, s.req), EpochName(epochs, s.req), f, requests[s.req], s.tokens,
                    GetOr(rollback, s.req, 0), f')
    ensures Follows(configs, ViewOf(ScheduleOne(configs, t, requests, s, rollback, epochs), s.req), f')
  {
    hide Enter, Resolve, ConsumeResolved, Agrees, EpochInvariant, NamedApart, GoodTables, ScheduleOne, EpochName;
    hide ScheduledPending;
    if f != Lost {
      var r, request, epoch := s.req, requests[s.req], EpochName(epochs, s.req);
      var w := WindowOf(request.computed, s.tokens, GetOr(rollback, r, 0));
      var cleared := Cleared(configs, t, epoch, request);
      ScheduleOneIs(configs, t, requests, s, rollback, epochs);
      ClearedKeeps(configs, t, epoch, request, r, mine);
      LatestIsMine(t, r, mine);
      if epoch in LatestOf(t, r) {
        var a := request.computed;
        GoodIsDistinct(configs, request.blockIds, w.maxEnd);
        SettleAgrees(configs, t, r, epoch, f.track, request, a);
        ResolveNamed(configs, t, epoch, request, a, r, mine);
        ConsumeView(Resolve(configs, t, epoch, request, a), epoch, r, mine);
        ExtendsItself(request.blockIds);
        EnterAgrees(configs, cleared, r, epoch, Tracked(Track(request.blockIds, a, a, a, true)), request,
                    s.tokens, GetOr(rollback, r, 0));
      } else {
        EnterAgrees(configs, cleared, r, epoch, f, request, s.tokens, GetOr(rollback, r, 0));
      }
    }
  }

  lemma GoodIsDistinct(configs: Configs, ids: seq<seq<nat>>, hi: nat)
    requires ValidConfigs(configs) && GoodTables(configs, ids, hi)
    ensures DistinctTables(configs, ids)
  {
    hide Holds;
  }

  lemma ExtendsItself(ids: seq<seq<nat>>)
    ensures ExtendsTables(ids, ids)
  {
  }

  lemma {:induction false} ScheduledWithout(configs: Configs, t: Tables, requests: map<Id, Request>,
                                            scheduled: seq<Schedule>,
                                            rollback: map<Id, nat>, epochs: map<Id, Id>, r: Id, mine: iset<Id>)
    requires ValidConfigs(configs) && Epochs(t, r, mine) && t.stepBlocks.Keys == configs.Keys
    requires NamesApart(r, mine, requests, scheduled, epochs)
    ensures var after := ScheduleAll(configs, t, requests, scheduled, rollback, epochs);
      && Epochs(after, r, mine) && after.stepBlocks.Keys == configs.Keys
      && (!IsScheduled(r, requests, scheduled) ==> ViewOf(after, r) == ViewOf(t, r))
  {
    hide ScheduleOne, EpochInvariant, NamedApart, ViewOf, EpochName;
    if scheduled != [] {
      var front, last := scheduled[..|scheduled| - 1], scheduled[|scheduled| - 1];
      ScheduledWithout(configs, t, requests, front, rollback, epochs, r, mine);
      OthersScheduled(configs, ScheduleAll(configs, t, requests, front, rollback, epochs), requests, last, rollback,
                      epochs, r, mine);
      if !IsScheduled(r, requests, scheduled) {
        assert forall j :: 0 <= j < |front| ==> front[j] == scheduled[j];
        assert scheduled[|scheduled| - 1] == last;
      }
    }
  }

  lemma {:induction false} ScheduledWith(configs: Configs, t: Tables, requests: map<Id, Request>,
                                         scheduled: seq<Schedule>,
                                         rollback: map<Id, nat>, epochs: map<Id, Id>, mine: iset<Id>, j: nat,
                                         f: Follow, f': Follow)
    requires ValidConfigs(configs) && t.stepBlocks.Keys == configs.Keys
    requires DistinctRequests(scheduled) && j < |scheduled| && scheduled[j].req in requests
    requires Epochs(t, scheduled[j].req, mine) && NamesApart(scheduled[j].req, mine, requests, scheduled, epochs)
    requires Follows(configs, ViewOf(t, scheduled[j].req), f)
    requires var r := scheduled[j].req;
      Enters(configs, ViewOf(t, r).latest, EpochName(epochs, r), f, requests[r], scheduled[j].tokens,
             GetOr(rollback, r, 0), f')
    ensures var after := ScheduleAll(configs, t, requests, scheduled, rollback, epochs);
      Follows(configs, ViewOf(after, scheduled[j].req), f')
  {
    hide ScheduleOne, EpochInvariant, NamedApart, Follows, Enters, EpochName;
    var front, last := scheduled[..|scheduled| - 1], scheduled[|scheduled| - 1];
    var r := scheduled[j].req;
    ScheduledWithout(configs, t, requests, front, rollback, epochs, r, mine);
    var before := ScheduleAll(configs, t, requests, front, rollback, epochs);
    if j == |scheduled| - 1 {
      assert !IsScheduled(r, requests, front);
      assert ViewOf(before, r) == ViewOf(t, r);
      FollowedScheduled(configs, before, requests, last, rollback, epochs, mine, f, f');
    } else {
      ScheduledWith(configs, t, requests, front, rollback, epochs, mine, j, f, f');
      OthersScheduled(configs, before, requests, last, rollback, epochs, r, mine);
    }
  }

  lemma RemoveView(t: Tables, removed: set<Id>, r: Id)
    requires EpochInvariant(t)
    ensures r !in removed ==> ViewOf(RemoveRequests(t, removed), r) == ViewOf(t, r)
    ensures r in removed ==> ViewOf(RemoveRequests(t, removed), r) == NO_VIEW
  {
    hide EpochsCovered;
  }

  lemma SameView(t: Tables, u: Tables, r: Id)
    requires t.requestBlocks == u.requestBlocks && t.requestFull == u.requestFull
    requires t.pending == u.pending && t.epochFull == u.epochFull && t.latestEpoch == u.latestEpoch
    ensures ViewOf(t, r) == ViewOf(u, r)
  {
  }

  lemma RemoveNamed(t: Tables, removed: set<Id>, r: Id, mine: iset<Id>)
    requires NamedApart(t.epochOwners, r, mine)
    ensures NamedApart(RemoveRequests(t, removed).epochOwners, r, mine)
  {
  }

  lemma ConsumedAllView(t: Tables, r: Id)
    ensures ViewOf(ConsumeAll(t), r) == ViewOf(t, r) && ConsumeAll(t).epochOwners == t.epochOwners
  {
    hide ConsumedStep;
    SameView(t, ConsumeAll(t), r);
  }

  /** Emptying the step tables, removing requests and consuming what is settled. */
  lemma ClearedView(t: Tables, cleared: Tables, removed: set<Id>, r: Id, mine: iset<Id>)
    requires Epochs(t, r, mine) && cleared == t.(stepBlocks := cleared.stepBlocks)
    ensures var u := ConsumeAll(RemoveRequests(cleared, removed));
      && NamedApart(u.epochOwners, r, mine)
      && ViewOf(u, r) == if r in removed then NO_VIEW else ViewOf(t, r)
  {
    hide RemoveRequests, ConsumeAll, EpochInvariant, NamedApart, ViewOf;
    RemoveNamed(cleared, removed, r, mine);
    OtherSteps(t, cleared);
    RemoveView(cleared, removed, r);
    SameView(cleared, t, r);
    ConsumedAllView(RemoveRequests(cleared, removed), r);
  }

  lemma BeginView(configs: Configs, t: Tables, removed: set<Id>, r: Id, mine: iset<Id>)
    requires Epochs(t, r, mine)
    ensures Epochs(BeginStep(configs, t, removed), r, mine)
    ensures r !in removed ==> ViewOf(BeginStep(configs, t, removed), r) == ViewOf(t, r)
    ensures r in removed ==> ViewOf(BeginStep(configs, t, removed), r) == NO_VIEW
  {
    hide RemoveRequests, ConsumeAll, EpochInvariant, NamedApart, ViewOf;
    var cleared := t.(stepBlocks := map g | g in configs :: map[]);
    BeginKeepsEpochs(configs, t, removed);
    ClearedView(t, cleared, removed, r, mine);
  }

  lemma DiscardView(t: Tables, epoch: Id, r: Id, mine: iset<Id>)
    requires Epochs(t, r, mine)
    ensures Epochs(Discard(t, epoch), r, mine)
    ensures epoch !in LatestOf(t, r) ==> ViewOf(Discard(t, epoch), r) == ViewOf(t, r)
    ensures epoch in LatestOf(t, r) ==>
      var u, v := ViewOf(Discard(t, epoch), r), ViewOf(t, r);
      u.present == v.present && u.blocks == v.blocks && u.full == v.full && u.latest == {}
  {
    hide EpochInvariant, NamedApart;
    DiscardKeepsEpochs(t, epoch);
    FewerNamed(t.epochOwners, {epoch}, r, mine);
    if epoch in LatestOf(t, r) {
      DiscardLatest(t, epoch, r);
    } else {
      DiscardStale(t, epoch, r);
    }
  }

  lemma DiscardLatest(t: Tables, epoch: Id, r: Id)
    requires EpochInvariant(t) && epoch in LatestOf(t, r)
    ensures var u, v := ViewOf(Discard(t, epoch), r), ViewOf(t, r);
      u.present == v.present && u.blocks == v.blocks && u.full == v.full && u.latest == {}
  {
    hide EpochsCovered, SameEpochs;
  }

  lemma DiscardStale(t: Tables, epoch: Id, r: Id)
    requires epoch !in LatestOf(t, r)
    ensures ViewOf(Discard(t, epoch), r) == ViewOf(t, r)
  {
  }

  lemma MarkView(t: Tables, q: Id, r: Id, mine: iset<Id>)
    requires Epochs(t, r, mine)
    ensures Epochs(MarkUnknown(t, q), r, mine)
    ensures q != r || r !in t.requestBlocks ==> ViewOf(MarkUnknown(t, q), r) == ViewOf(t, r)
  {
    hide EpochsCovered, LatestIsOpen, UnknownGroups, UnknownEpochs;
    MarkKeepsEpochs(t, q);
  }

  /** One tracker call, whatever it does to other requests. */
  lemma MoveAgrees(configs: Configs, t: Tables, r: Id, mine: iset<Id>, f: Follow, event: Event, f': Follow)
    requires ValidConfigs(configs) && Epochs(t, r, mine) && Follows(configs, ViewOf(t, r), f)
    requires Moves(configs, r, mine, LatestOf(t, r), f, event, f')
    ensures Epochs(Apply(configs, t, event), r, mine) && Follows(configs, ViewOf(Apply(configs, t, event), r), f')
  {
    hide EpochInvariant, NamedApart, Agrees, BeginStep, ScheduleAll, Resolve, Discard, MarkUnknown, Enters, MaySettle;
    hide EpochName;
    match event
    case Step(requests, scheduled, removed, rollback, epochs) =>
      var begun := BeginStep(configs, t, removed);
      BeginView(configs, t, removed, r, mine);
      BeginStepKeys(configs, t, removed);
      ScheduledWithout(configs, begun, requests, scheduled, rollback, epochs, r, mine);
      if IsScheduled(r, requests, scheduled) {
        var j :| 0 <= j < |scheduled| && scheduled[j].req == r;
        assert scheduled[j] in scheduled;
        ScheduledWith(configs, begun, requests, scheduled, rollback, epochs, mine, j,
                      if r in removed then Absent else f, f');
      }
    case Settle(epoch, request, actual) =>
      ResolveNamed(configs, t, epoch, request, actual, r, mine);
      if epoch !in LatestOf(t, r) {
        OthersResolve(configs, t, epoch, request, actual, r);
      } else if f.Tracked? && f.track.sure {
        SettledEnd(configs, f.track, request, actual);
        SettleAgrees(configs, t, r, epoch, f.track, request, actual);
      }
    case Drop(epoch) =>
      DiscardView(t, epoch, r, mine);
      if epoch in LatestOf(t, r) && f.Tracked? {
        DroppedAgrees(configs, ViewOf(t, r), ViewOf(Discard(t, epoch), r), f.track);
      }
    case Forget(req) => MarkView(t, req, r, mine);
  }

  lemma SettledEnd(configs: Configs, k: Track, request: Request, actual: int)
    requires MaySettle(configs, k, request, actual)
    ensures actual >= 0
  {
  }

  lemma DroppedAgrees(configs: Configs, v: View, u: View, k: Track)
    requires ValidConfigs(configs) && Agrees(configs, v, k)
    requires u.present == v.present && u.blocks == v.blocks && u.full == v.full
    ensures Agrees(configs, u, k.(sure := false))
  {
    hide GoodTables, KeepsExactly, FullWithin;
    SameKept(configs, v.blocks, v.full, k);
  }

  lemma SameKept(configs: Configs, blocks: map<GroupId, Blocks>, full: set<GroupId>, k: Track)
    requires ValidConfigs(configs) && KeepsExactly(configs, blocks, k) && FullWithin(configs, full, k)
    ensures KeepsExactly(configs, blocks, k.(sure := false)) && FullWithin(configs, full, k.(sure := false))
  {
  }

  /** `follows` summarises request `r` before and after every call of the run. */
  ghost predicate Followed(configs: Configs, r: Id, mine: iset<Id>, events: seq<Event>, follows: seq<Follow>)
    requires ValidConfigs(configs)
  {
    && |follows| == |events| + 1 && follows[0] == Absent
    && forall k :: 0 <= k < |events| ==> FollowedAt(configs, r, mine, events, follows, k)
  }

  ghost predicate FollowedAt(configs: Configs, r: Id, mine: iset<Id>, events: seq<Event>, follows: seq<Follow>, k: nat)
    requires ValidConfigs(configs) && k < |events| && |follows| == |events| + 1
  {
    Moves(configs, r, mine, LatestOf(Run(configs, events[..k]), r), follows[k], events[k], follows[k + 1])
  }

  /** In every reachable state the tables agree with the summary of the followed request. */
  lemma {:induction false} RunAgrees(configs: Configs, r: Id, mine: iset<Id>, events: seq<Event>, follows: seq<Follow>)
    requires ValidConfigs(configs) && Followed(configs, r, mine, events, follows)
    ensures Epochs(Run(configs, events), r, mine)
    ensures Follows(configs, ViewOf(Run(configs, events), r), follows[|events|])
  {
    hide Epochs, Agrees, Moves, Apply, ViewOf, LatestOf;
    if events == [] {
      NothingAgrees(configs, r, mine);
    } else {
      var n := |events| - 1;
      FrontIsFollowed(configs, r, mine, events, follows);
      RunAgrees(configs, r, mine, events[..n], follows[..n + 1]);
      MoveAgrees(configs, Run(configs, events[..n]), r, mine, follows[n], events[n], follows[n + 1]);
    }
  }

  lemma NothingAgrees(configs: Configs, r: Id, mine: iset<Id>)
    requires ValidConfigs(configs)
    ensures Epochs(NO_TABLES, r, mine) && Follows(configs, ViewOf(NO_TABLES, r), Absent)
  {
  }

  lemma FrontIsFollowed(configs: Configs, r: Id, mine: iset<Id>, events: seq<Event>, follows: seq<Follow>)
    requires ValidConfigs(configs) && Followed(configs, r, mine, events, follows) && events != []
    ensures Followed(configs, r, mine, events[..|events| - 1], follows[..|events|])
    ensures FollowedAt(configs, r, mine, events, follows, |events| - 1)
  {
    hide Moves, Run, LatestOf;
    var n := |events| - 1;
    var front, before := events[..n], follows[..n + 1];
    forall k: nat | k < n
      ensures FollowedAt(configs, r, mine, front, before, k)
    {
      assert FollowedAt(configs, r, mine, events, follows, k);
      assert front[..k] == events[..k];
    }
  }

  /** Speculation leaves no trace: two runs that bring a request to the same tables and the same
      settled end keep the same blocks of it with the same fills, whatever either run rolled
      back, settled late, updated in place, or did for other requests. */
  lemma SpeculationLeavesNoTrace(configs: Configs, r: Id, mine: iset<Id>, events: seq<Event>, follows: seq<Follow>,
                                 mine': iset<Id>, events': seq<Event>, follows': seq<Follow>, k: Track, k': Track,
                                 g: GroupId)
    requires ValidConfigs(configs)
    requires Followed(configs, r, mine, events, follows) && Followed(configs, r, mine', events', follows')
    requires follows[|events|] == Tracked(k) && follows'[|events'|] == Tracked(k')
    requires k.ids == k'.ids && k.lo == k.hi == k'.lo == k'.hi
    ensures GetOr(ViewOf(Run(configs, events), r).blocks, g, map[])
         == GetOr(ViewOf(Run(configs, events'), r).blocks, g, map[])
  {
    hide Run, ViewOf, WideBlocks, GoodTables, FullWithin, PendingOfTrack, InNoDoubt, Epochs, Followed;
    RunAgrees(configs, r, mine, events, follows);
    RunAgrees(configs, r, mine', events', follows');
  }

  /** A settled request keeps exactly the boundary, tail and current blocks of its true end, each
      with its true fill. */
  lemma SettledRequestIsExact(configs: Configs, r: Id, mine: iset<Id>, events: seq<Event>, follows: seq<Follow>,
                              k: Track,
                              g: GroupId, l: nat)
    requires ValidConfigs(configs) && Followed(configs, r, mine, events, follows)
    requires follows[|events|] == Tracked(k) && k.lo == k.hi
    requires InTables(configs, k.ids, g) && InTable(k.ids[g], l, configs[g].perManager)
    ensures var kept := GetOr(ViewOf(Run(configs, events), r).blocks, g, map[]);
      var b := PhysicalBlock(k.ids[g], l, configs[g].perManager);
      && (b in kept <==> Owns(configs[g], k.ids[g], SpanOf(configs[g], Window(k.hi, k.hi, k.hi)), l))
      && (b in kept ==> kept[b] == FillAt(configs[g], configs[g].Local(k.hi), l))
  {
    hide Run, ViewOf, SpanBlocks, FullWithin, PendingOfTrack, InNoDoubt, Epochs, Followed, LocalNumTokens;
    hide FillAt, Owns, PhysicalBlock, Holds;
    RunAgrees(configs, r, mine, events, follows);
    SpanBlocksAt(configs[g], k.ids[g], SpanOf(configs[g], Window(k.hi, k.hi, k.hi)), l);
  }

  // ---- one settlement, for any tables ----

  /** Settling a request's latest epoch leaves, in every group that is not merely trimmed, the
      blocks of the true end, whatever the tables held before. */
  lemma SettlingLatest(configs: Configs, t: Tables, r: Id, epoch: Id, request: Request, actual: nat, g: GroupId)
    requires ValidConfigs(configs) && EpochInvariant(t) && epoch in LatestOf(t, r) && ViewOf(t, r).present
    requires g in configs && Reaches(request, actual, g) && g !in TrimGroups(t, epoch, r)
    ensures GetOr(ViewOf(Resolve(configs, t, epoch, request, actual), r).blocks, g, map[])
         == WideBlocks(configs[g], request.blockIds[g], actual, actual)
  {
    hide Resolve, EpochInvariant, WideBlocks, SpanBlocks, TrimPending, LocalNumTokens;
    ResolveView(configs, t, r, epoch, request, actual);
    StartIsIrrelevant(configs[g], request.blockIds[g], Window(actual, actual, actual));
  }

  /** So the block holding the last token of a request that reached `end` survives the settlement
      exactly when the settled end lies in the same block. */
  lemma SettledKeepsCurrent(configs: Configs, t: Tables, r: Id, epoch: Id, request: Request, actual: nat, end: nat,
                            g: GroupId)
    requires ValidConfigs(configs) && EpochInvariant(t) && epoch in LatestOf(t, r) && ViewOf(t, r).present
    requires g in configs && Reaches(request, actual, g) && g !in TrimGroups(t, epoch, r)
    requires Distinct(request.blockIds[g]) && Holds(configs[g], request.blockIds[g], end)
    requires actual <= end && configs[g].Local(end) > 0
    ensures var cfg, ids := configs[g], request.blockIds[g];
      var last := CeilDiv(cfg.Local(end), cfg.group);
      && 0 < last && InTable(ids, last - 1, cfg.perManager)
      && (PhysicalBlock(ids, last - 1, cfg.perManager)
            in GetOr(ViewOf(Resolve(configs, t, epoch, request, actual), r).blocks, g, map[])
          <==> CeilDiv(cfg.Local(actual), cfg.group) == last)
  {
    hide Resolve, EpochInvariant, ViewOf, SpanBlocks, LocalNumTokens, CeilDiv, PhysicalBlock, Distinct, TrimGroups;
    var cfg, ids := configs[g], request.blockIds[g];
    var last := CeilDiv(cfg.Local(end), cfg.group);
    LastBlock(cfg.Local(end), cfg.group);
    CountMonotone(actual, end, cfg.world, cfg.rank, cfg.interleave);
    CeilMonotone(cfg.Local(actual), cfg.Local(end), cfg.group);
    SettlingLatest(configs, t, r, epoch, request, actual, g);
    SpanBlocksAt(cfg, ids, SpanOf(cfg, Window(actual, actual, actual)), last - 1);
  }

  /** Settling an epoch that is not its owner's latest, and dropping any epoch, moves no blocks. */
  lemma StaleEpochIsInert(configs: Configs, t: Tables, epoch: Id, request: Request, actual: int)
    requires ValidConfigs(configs)
    ensures !IsLatest(t, epoch) ==>
      && Resolve(configs, t, epoch, request, actual).requestBlocks == t.requestBlocks
      && Resolve(configs, t, epoch, request, actual).latestEpoch == t.latestEpoch
    ensures Discard(t, epoch).requestBlocks == t.requestBlocks
  {
    hide ResolvedOwner, ResolvedPending, TrimGroups, IsLatest, PublishEpoch, GetOr, DropEpoch;
    DropMovesNothing(t, epoch);
    if epoch in t.pending && !IsLatest(t, epoch) {
      var owner := GetOr(t.epochOwners, epoch, epoch);
      PublishStale(DropEpoch(t, epoch), epoch, owner,
        ResolvedOwner(configs, GetOr(t.requestBlocks, owner, map[]), t.pending[epoch], TrimGroups(t, epoch, owner),
                      request, actual),
        ResolvedPending(configs, t.pending[epoch], request, actual));
    }
  }

  lemma DropMovesNothing(t: Tables, epoch: Id)
    ensures DropEpoch(t, epoch).requestBlocks == t.requestBlocks && DropEpoch(t, epoch).latestEpoch == t.latestEpoch
  {
  }

  lemma PublishStale(t: Tables, epoch: Id, owner: Id, groups: map<GroupId, Blocks>, resolved: map<GroupId, Blocks>)
    ensures PublishEpoch(t, epoch, owner, false, groups, resolved).requestBlocks == t.requestBlocks
    ensures PublishEpoch(t, epoch, owner, false, groups, resolved).latestEpoch == t.latestEpoch
  {
  }

  // ---- an epoch left behind ----

  /** One request scheduled alone, under an epoch name that is not open. */
  lemma ScheduledAlone(configs: Configs, t: Tables, r: Id, mine: iset<Id>, epoch: Id, request: Request,
                       tokens: nat, rollback: nat)
    requires ValidConfigs(configs) && Epochs(t, r, mine) && epoch in mine && epoch !in t.pending
    ensures var event := Alone(r, epoch, request, tokens, rollback);
      var after, w := Apply(configs, t, event), WindowOf(request.computed, tokens, rollback);
      var opens := rollback > 0 && ScheduledPending(configs, request, w) != map[];
      && Epochs(after, r, mine) && ViewOf(after, r).present
      && LatestOf(after, r) == (if opens then {epoch} else LatestOf(t, r))
      && ViewOf(after, r).full == ScheduledFull(configs, request, w)
      && after.pending.Keys <= t.pending.Keys + {epoch}
  {
    hide Enter, ScheduledPending, ScheduledFull, ScheduledGroups, NamedApart, EpochInvariant, BeginStep, ScheduleOne;
    var event := Alone(r, epoch, request, tokens, rollback);
    var begun := BeginStep(configs, t, {});
    BeginView(configs, t, {}, r, mine);
    BeginStepKeys(configs, t, {});
    BeginPending(configs, t);
    ScheduledWithout(configs, begun, event.requests, event.scheduled, event.rollback, event.epochs, r, mine);
    AllOfOne(configs, begun, event.requests, event.scheduled, event.rollback, event.epochs);
    ScheduleOneIs(configs, begun, event.requests, event.scheduled[0], event.rollback, event.epochs);
    EnterView(configs, begun, r, epoch, request, tokens, rollback);
    EnterPending(configs, begun, r, epoch, request, tokens, rollback);
  }

  lemma EnterPending(configs: Configs, t: Tables, r: Id, epoch: Id, request: Request, tokens: nat, rollback: nat)
    requires ValidConfigs(configs)
    ensures Enter(configs, t, r, epoch, request, tokens, rollback).pending.Keys <= t.pending.Keys + {epoch}
  {
    hide ScheduledPending, ScheduledFull, ScheduledGroups, ScheduledStep, RetainedBlocks, OwnGroups, OpenEpoch;
    var w := WindowOf(request.computed, tokens, rollback);
    var groups := ScheduledGroups(configs, request, w, GetOr(t.requestBlocks, r, map[]), GetOr(t.requestFull, r, {}));
    OwnedPending(t, r, epoch, groups, ScheduledFull(configs, request, w),
                 ScheduledStep(configs, request, w, t.stepBlocks), ScheduledPending(configs, request, w));
  }

  lemma OwnedPending(t: Tables, r: Id, epoch: Id, groups: map<GroupId, Blocks>, full: set<GroupId>,
                     step: map<GroupId, Blocks>, pending: map<GroupId, map<nat, nat>>)
    ensures var owned := OwnGroups(t, r, groups, full, step);
      && owned.pending == t.pending
      && OpenEpoch(owned, r, epoch, groups, full, pending).pending.Keys == t.pending.Keys + {epoch}
  {
    hide RetainedBlocks;
  }

  function Alone(r: Id, epoch: Id, request: Request, tokens: nat, rollback: nat): Event {
    Step(map[r := request], [Schedule(r, tokens)], {}, map[r := rollback], map[r := epoch])
  }

  lemma AllOfOne(configs: Configs, t: Tables, requests: map<Id, Request>, scheduled: seq<Schedule>,
                 rollback: map<Id, nat>, epochs: map<Id, Id>)
    requires ValidConfigs(configs) && |scheduled| == 1
    ensures ScheduleAll(configs, t, requests, scheduled, rollback, epochs)
         == ScheduleOne(configs, t, requests, scheduled[0], rollback, epochs)
  {
    hide ScheduleOne;
    assert scheduled[..0] == [];
  }

  lemma BeginPending(configs: Configs, t: Tables)
    ensures BeginStep(configs, t, {}).pending == t.pending
  {
    hide ConsumedStep;
    assert EpochsOf(t.epochOwners, {}) == {};
  }

  const PAGES := GroupConfig(1, 0, 0, 1, 1, 0, 1)

  lemma PageCount(n: nat)
    ensures PAGES.Local(n) == n
  {
    DivModUnique(n, 1, n, 0);
  }

  lemma PagesOpen(configs: Configs, ids: seq<nat>)
    requires configs == map[0 := PAGES] && ids == [10, 11, 12]
    ensures ScheduledPending(configs, Request([ids], 0), WindowOf(0, 1, 1)) != map[]
    ensures ScheduledFull(configs, Request([ids], 1), WindowOf(1, 2, 0)) == {}
  {
    hide LocalNumTokens, ScheduledPending;
    PageCount(0);
    PageCount(1);
    var w := WindowOf(0, 1, 1);
    assert GoodTables(configs, [ids], 1);
    TouchedIsPending(configs, Request([ids], 0), w, 0);
  }

  lemma NoTrim(t: Tables, r: Id, epoch: Id)
    requires ViewOf(t, r).full == {}
    ensures TrimGroups(t, epoch, r) == {}
  {
  }

  lemma PagesAt(ids: seq<nat>)
    requires ids == [10, 11, 12]
    ensures 10 in WideBlocks(PAGES, ids, 1, 1) && 12 !in WideBlocks(PAGES, ids, 1, 1)
  {
    hide LocalNumTokens, SpanBlocks;
    PageCount(1);
    assert Distinct(ids);
    assert PhysicalBlock(ids, 0, 1) == 10 && PhysicalBlock(ids, 2, 1) == 12;
    SpanBlocksAt(PAGES, ids, SpanOf(PAGES, Window(1, 1, 1)), 0);
    SpanBlocksAt(PAGES, ids, SpanOf(PAGES, Window(1, 1, 1)), 2);
  }

  lemma RunOfThree(configs: Configs, a: Event, b: Event, c: Event)
    requires ValidConfigs(configs)
    ensures Run(configs, [a, b, c]) == Apply(configs, Apply(configs, Apply(configs, NO_TABLES, a), b), c)
  {
    hide Apply;
    assert [a, b, c][..2] == [a, b];
    assert Run(configs, [a, b, c]) == Apply(configs, Run(configs, [a, b]), c);
    assert [a, b][..1] == [a];
    assert Run(configs, [a, b]) == Apply(configs, Run(configs, [a]), b);
    assert [a][..0] == [];
    assert Run(configs, [a]) == Apply(configs, NO_TABLES, a);
  }

  /** A step that opens no epoch leaves an earlier one the latest, and settling that one rewinds
      the request: at end 3 it keeps the block of its first token and not that of its last. */
  lemma LeftoverEpochRewinds()
    ensures var configs: Configs, ids := map[0 := PAGES], [10, 11, 12];
      ValidConfigs(configs) &&
      var t := Run(configs, [Alone(5, 7, Request([ids], 0), 1, 1), Alone(5, 8, Request([ids], 1), 2, 0),
                             Settle(7, Request([ids], 1), 1)]);
      var kept := GetOr(ViewOf(t, 5).blocks, 0, map[]);
      10 in kept && 12 !in kept
  {
    hide ViewOf, WideBlocks, SpanBlocks, Resolve, Update, LocalNumTokens, EpochInvariant, NamedApart;
    hide ScheduledFull, ScheduledPending;
    var configs: Configs, ids := map[0 := PAGES], [10, 11, 12];
    var mine := iset{7, 8};
    var first, second := Alone(5, 7, Request([ids], 0), 1, 1), Alone(5, 8, Request([ids], 1), 2, 0);
    var last := Settle(7, Request([ids], 1), 1);
    RunOfThree(configs, first, second, last);
    hide Run;
    var t1 := Apply(configs, NO_TABLES, first);
    var t2 := Apply(configs, t1, second);
    NothingAgrees(configs, 5, mine);
    PagesOpen(configs, ids);
    ScheduledAlone(configs, NO_TABLES, 5, mine, 7, Request([ids], 0), 1, 1);
    LatestIsMine(t1, 5, mine);
    ScheduledAlone(configs, t1, 5, mine, 8, Request([ids], 1), 2, 0);
    NoTrim(t2, 5, 7);
    SettlingLatest(configs, t2, 5, 7, Request([ids], 1), 1, 0);
    assert Apply(configs, t2, last) == Resolve(configs, t2, 7, Request([ids], 1), 1);
    PagesAt(ids);
  }
}
