/** The exact-block ownership tables and what each tracker operation does to them, on values.

    A request's tokens live in fixed-size tiles ("blocks").  The tracker decides which physical
    blocks must stay exact: the leading boundary tiles, a tail window, the tile being filled, and
    whatever the current step may write.  Under speculation the end of a request is only known
    to lie between two bounds, so ownership covers the widest end and fills claim the least. */
module Ownership {
  import opened Sharding
  import opened FillMaps

  /** Request keys and epoch keys; only equality on them is ever used. */
  type Id = nat

  type GroupId = nat

  datatype GroupConfig = GroupConfig(
    group: nat, boundary: nat, tail: nat, perManager: nat, world: nat, rank: nat, interleave: nat)
  {
    predicate Valid() {
      group > 0 && perManager > 0 && rank < world && interleave > 0
    }

    /** Tokens of the first `n` that this rank holds. */
    function Local(n: nat): nat
      requires Valid()
    {
      LocalNumTokens(n, world, rank, interleave)
    }

    /** First local token of the precision tail of a sequence of `n` tokens. */
    function TailStart(n: nat): nat
      requires Valid()
    {
      Local(Max(n - tail, 0))
    }
  }

  type Configs = map<GroupId, GroupConfig>

  predicate ValidConfigs(configs: Configs) {
    forall g :: g in configs ==> configs[g].Valid()
  }

  datatype Request = Request(blockIds: seq<seq<nat>>, computed: nat)

  datatype Tables = Tables(
    requestBlocks: map<Id, map<GroupId, Blocks>>,
    stepBlocks: map<GroupId, Blocks>,
    pending: map<Id, map<GroupId, map<nat, nat>>>,
    resolved: map<Id, map<GroupId, Blocks>>,
    epochBlocks: map<Id, map<GroupId, Blocks>>,
    epochOwners: map<Id, Id>,
    latestEpoch: map<Id, Id>,
    requestFull: map<Id, set<GroupId>>,
    epochFull: map<Id, set<GroupId>>)

  const NO_TABLES := Tables(map[], map[], map[], map[], map[], map[], map[], map[], map[])

  function GetOr<K, V>(m: map<K, V>, k: K, default: V): V {
    if k in m then m[k] else default
  }

  // ---- one group of one request ----

  predicate InTable(ids: seq<nat>, logical: nat, perManager: nat) {
    logical < |ids| * perManager
  }

  lemma ManagerBlockInRange(n: nat, logical: nat, m: nat)
    requires m > 0 && logical < n * m
    ensures logical / m < n
  {
    if logical / m >= n {
      MulMonotone(n, logical / m, m);
    }
  }

  function PhysicalBlock(ids: seq<nat>, logical: nat, perManager: nat): nat
    requires perManager > 0 && InTable(ids, logical, perManager)
  {
    ManagerBlockInRange(|ids|, logical, perManager);
    ids[logical / perManager] * perManager + logical % perManager
  }

  /** Logical blocks a request of `e` local tokens reaches within its block table. */
  function NumLogical(cfg: GroupConfig, ids: seq<nat>, e: nat): (n: nat)
    requires cfg.Valid()
    ensures n <= |ids| * cfg.perManager
  {
    Min(CeilDiv(e, cfg.group), |ids| * cfg.perManager)
  }

  /** Tokens of logical block `l` below local token `e`. */
  function FillCount(cfg: GroupConfig, e: nat, l: nat): nat {
    Min(cfg.group, Max(e - l * cfg.group, 0))
  }

  /** An empty block is recorded as unknown. */
  function FillAt(cfg: GroupConfig, e: nat, l: nat): Fill {
    if FillCount(cfg, e, l) == 0 then Unknown else Known(FillCount(cfg, e, l))
  }

  /** Physical blocks of logical blocks lo..hi. */
  function PhysicalRange(ids: seq<nat>, perManager: nat, lo: nat, hi: nat): set<nat>
    requires perManager > 0 && (lo < hi ==> hi <= |ids| * perManager)
  {
    set l | lo <= l < hi :: PhysicalBlock(ids, l, perManager)
  }

  /** Assign fills at end `e` to blocks lo..hi, in order. */
  function AssignRange(cfg: GroupConfig, ids: seq<nat>, e: nat, lo: nat, hi: nat, blocks: Blocks): Blocks
    requires cfg.Valid() && (lo < hi ==> hi <= |ids| * cfg.perManager)
  {
    if lo >= hi then blocks
    else AssignRange(cfg, ids, e, lo, hi - 1, blocks)
           [PhysicalBlock(ids, hi - 1, cfg.perManager) := FillAt(cfg, e, hi - 1)]
  }

  /** Merge fills at end `e` of blocks lo..hi, in order. */
  function MergeRange(cfg: GroupConfig, ids: seq<nat>, e: nat, lo: nat, hi: nat, blocks: Blocks): Blocks
    requires cfg.Valid() && (lo < hi ==> hi <= |ids| * cfg.perManager)
  {
    if lo >= hi then blocks
    else MergeFill(MergeRange(cfg, ids, e, lo, hi - 1, blocks),
                   PhysicalBlock(ids, hi - 1, cfg.perManager), FillAt(cfg, e, hi - 1))
  }

  /** Logical numbers of the physical blocks lo..hi. */
  function LogicalRange(ids: seq<nat>, perManager: nat, lo: nat, hi: nat): map<nat, nat>
    requires perManager > 0 && (lo < hi ==> hi <= |ids| * perManager)
  {
    if lo >= hi then map[]
    else LogicalRange(ids, perManager, lo, hi - 1)[PhysicalBlock(ids, hi - 1, perManager) := hi - 1]
  }

  function FirstCurrent(cfg: GroupConfig, e: nat): nat
    requires cfg.Valid()
  {
    Max(CeilDiv(e, cfg.group) - 1, 0)
  }

  /** Boundary, tail and current blocks of a request whose local end lies in `minEnd`..`maxEnd`. */
  function PersistentBlocks(cfg: GroupConfig, ids: seq<nat>, minEnd: nat, maxEnd: nat, tailStart: nat): Blocks
    requires cfg.Valid()
  {
    hide CeilDiv, NumLogical, FirstCurrent, AssignRange, MergeRange;
    var n := NumLogical(cfg, ids, maxEnd);
    var boundary := AssignRange(cfg, ids, minEnd, 0, Min(CeilDiv(cfg.boundary, cfg.group), n), map[]);
    var tail := if cfg.tail == 0 then boundary
                else MergeRange(cfg, ids, minEnd, Min(tailStart / cfg.group, n), n, boundary);
    MergeRange(cfg, ids, minEnd, FirstCurrent(cfg, minEnd), n, tail)
  }

  /** Token bounds of one scheduled request: where writing may start and where it may end. */
  datatype Window = Window(minStart: nat, minEnd: nat, maxEnd: nat)

  function WindowOf(start: nat, scheduled: nat, rollback: nat): Window {
    var minStart := Max(start - rollback, 0);
    Window(minStart, minStart + scheduled, start + scheduled)
  }

  /** A window in this rank's local tokens, with the start of the precision tail. */
  datatype Span = Span(minStart: nat, minEnd: nat, maxEnd: nat, tailStart: nat)

  function SpanOf(cfg: GroupConfig, w: Window): Span
    requires cfg.Valid()
  {
    Span(cfg.Local(w.minStart), cfg.Local(w.minEnd), cfg.Local(w.maxEnd), cfg.TailStart(w.minEnd))
  }

  predicate Touches(s: Span) {
    s.minStart < s.maxEnd
  }

  /** The logical blocks a step may write are TouchedFrom..TouchedTo. */
  function TouchedFrom(cfg: GroupConfig, s: Span): nat
    requires cfg.Valid()
  {
    s.minStart / cfg.group
  }

  function TouchedTo(cfg: GroupConfig, ids: seq<nat>, s: Span): (hi: nat)
    requires cfg.Valid() && NumLogical(cfg, ids, s.maxEnd) > 0
    ensures hi <= |ids| * cfg.perManager
  {
    if Touches(s) then
      Min((s.maxEnd - 1) / cfg.group, NumLogical(cfg, ids, s.maxEnd) - 1) + 1
    else 0
  }

  predicate FullContext(cfg: GroupConfig, maxEnd: nat) {
    cfg.boundary + cfg.tail >= maxEnd
  }

  /** Where the in-place update of a fully covered request starts. */
  function FirstUpdate(cfg: GroupConfig, s: Span): nat
    requires cfg.Valid()
  {
    var current := FirstCurrent(cfg, s.minEnd);
    if Touches(s) then Min(current, TouchedFrom(cfg, s)) else current
  }

  function FastBlocks(cfg: GroupConfig, ids: seq<nat>, s: Span, previous: Blocks): Blocks
    requires cfg.Valid()
  {
    AssignRange(cfg, ids, s.minEnd, FirstUpdate(cfg, s), NumLogical(cfg, ids, s.maxEnd), previous)
  }

  function SpanBlocks(cfg: GroupConfig, ids: seq<nat>, s: Span): Blocks
    requires cfg.Valid()
  {
    PersistentBlocks(cfg, ids, s.minEnd, s.maxEnd, s.tailStart)
  }

  function GroupBlocks(cfg: GroupConfig, ids: seq<nat>, w: Window,
                       previous: map<GroupId, Blocks>, previousFull: set<GroupId>, g: GroupId): Blocks
    requires cfg.Valid()
  {
    if FullContext(cfg, w.maxEnd) && g in previousFull && g in previous then
      FastBlocks(cfg, ids, SpanOf(cfg, w), previous[g])
    else
      SpanBlocks(cfg, ids, SpanOf(cfg, w))
  }

  predicate Active(configs: Configs, request: Request, w: Window, g: GroupId)
    requires ValidConfigs(configs)
  {
    && g in configs && g < |request.blockIds| && w.maxEnd > 0
    && NumLogical(configs[g], request.blockIds[g], configs[g].Local(w.maxEnd)) > 0
  }

  function TouchedLogical(cfg: GroupConfig, ids: seq<nat>, s: Span): map<nat, nat>
    requires cfg.Valid() && NumLogical(cfg, ids, s.maxEnd) > 0
  {
    if Touches(s) then LogicalRange(ids, cfg.perManager, TouchedFrom(cfg, s), TouchedTo(cfg, ids, s))
    else map[]
  }

  function MergeTouched(cfg: GroupConfig, ids: seq<nat>, s: Span, step: Blocks): Blocks
    requires cfg.Valid() && NumLogical(cfg, ids, s.maxEnd) > 0
  {
    if Touches(s) then
      MergeRange(cfg, ids, s.minEnd, TouchedFrom(cfg, s), TouchedTo(cfg, ids, s), step)
    else step
  }

  // ---- whole-table operations ----

  function ScheduledGroups(configs: Configs, request: Request, w: Window,
                           previous: map<GroupId, Blocks>, previousFull: set<GroupId>): map<GroupId, Blocks>
    requires ValidConfigs(configs)
  {
    map g | g in configs && Active(configs, request, w, g) ::
      GroupBlocks(configs[g], request.blockIds[g], w, previous, previousFull, g)
  }

  function ScheduledFull(configs: Configs, request: Request, w: Window): set<GroupId>
    requires ValidConfigs(configs)
  {
    set g | g in configs && Active(configs, request, w, g) && FullContext(configs[g], w.maxEnd)
  }

  function ScheduledStep(configs: Configs, request: Request, w: Window,
                         step: map<GroupId, Blocks>): map<GroupId, Blocks>
    requires ValidConfigs(configs)
  {
    map g | g in step ::
      if Active(configs, request, w, g) then
        MergeTouched(configs[g], request.blockIds[g], SpanOf(configs[g], w), step[g])
      else step[g]
  }

  function ScheduledPending(configs: Configs, request: Request, w: Window): map<GroupId, map<nat, nat>>
    requires ValidConfigs(configs)
  {
    map g | g in configs && Active(configs, request, w, g)
            && TouchedLogical(configs[g], request.blockIds[g], SpanOf(configs[g], w)) != map[] ::
      TouchedLogical(configs[g], request.blockIds[g], SpanOf(configs[g], w))
  }

  function Restrict(m: Blocks, keys: set<nat>): Blocks {
    map k | k in m && k in keys :: m[k]
  }

  /** What an unresolved epoch keeps exact: the request's non-full groups and every block the
      step may write. */
  function RetainedBlocks(groups: map<GroupId, Blocks>, full: set<GroupId>,
                          pending: map<GroupId, map<nat, nat>>, step: map<GroupId, Blocks>): map<GroupId, Blocks>
  {
    map g | g in (groups.Keys - full) + pending.Keys ::
      var base := if g in groups && g !in full then groups[g] else map[];
      if g in pending then MergeMaps(base, Restrict(GetOr(step, g, map[]), pending[g].Keys)) else base
  }

  function MergeGroups(step: map<GroupId, Blocks>, more: map<GroupId, Blocks>): map<GroupId, Blocks> {
    map g | g in step :: if g in more then MergeMaps(step[g], more[g]) else step[g]
  }

  function WithoutKeys<V>(m: map<GroupId, V>, keys: set<GroupId>): map<GroupId, V> {
    m - keys
  }

  lemma NoneMerged(step: map<GroupId, Blocks>, more: map<GroupId, Blocks>)
    ensures MergeGroups(step, WithoutKeys(more, more.Keys * step.Keys)) == step
  {
  }

  lemma AllMerged(more: map<GroupId, Blocks>)
    ensures WithoutKeys(more, {}) == more
  {
  }

  /** Merging one more group changes that group only. */
  lemma OneMerged(step: map<GroupId, Blocks>, more: map<GroupId, Blocks>, todo: set<GroupId>, g: GroupId)
    requires g in todo && todo <= more.Keys * step.Keys
    ensures MergeGroups(step, WithoutKeys(more, todo)).Keys == step.Keys
    ensures MergeGroups(step, WithoutKeys(more, todo))[g] == step[g]
    ensures MergeGroups(step, WithoutKeys(more, todo - {g}))
         == MergeGroups(step, WithoutKeys(more, todo))[g := MergeMaps(step[g], more[g])]
  {
    hide MergeMaps;
  }

  /** Move one epoch's resolved fills into the step tables. */
  function ConsumeResolved(t: Tables, epoch: Id): Tables {
    t.(resolved := t.resolved - {epoch},
       stepBlocks := MergeGroups(t.stepBlocks, GetOr(t.resolved, epoch, map[])))
  }

  /** Fills of the pending blocks once the local end is known; empty blocks are dropped. */
  function ResolvedFills(cfg: GroupConfig, pending: map<nat, nat>, e: nat): Blocks {
    map b | b in pending && FillCount(cfg, e, pending[b]) > 0 :: Known(FillCount(cfg, e, pending[b]))
  }

  /** Rewrite the pending blocks of a fully covered group at the known end. */
  function TrimPending(cfg: GroupConfig, owned: Blocks, pending: map<nat, nat>, e: nat): Blocks {
    (owned - pending.Keys) + ResolvedFills(cfg, pending, e)
  }

  function ResolvedGroup(cfg: GroupConfig, ids: seq<nat>, actual: nat): Blocks
    requires cfg.Valid()
  {
    SpanBlocks(cfg, ids, SpanOf(cfg, Window(actual, actual, actual)))
  }

  predicate Reaches(request: Request, actual: int, g: GroupId) {
    g < |request.blockIds| && actual > 0
  }

  /** Groups fully covered both when the epoch was opened and now: only their pending blocks
      are rewritten. */
  function TrimGroups(t: Tables, epoch: Id, owner: Id): set<GroupId> {
    GetOr(t.epochFull, epoch, {}) * GetOr(t.requestFull, owner, {})
  }

  predicate KeepsGroup(configs: Configs, groups: map<GroupId, Blocks>, trims: set<GroupId>,
                       request: Request, actual: int, g: GroupId)
  {
    if g in configs then Reaches(request, actual, g) || (g in trims && g in groups) else g in groups
  }

  function SettledGroup(cfg: GroupConfig, owned: Blocks, pending: map<nat, nat>, trim: bool,
                        request: Request, actual: int, g: GroupId): Blocks
    requires cfg.Valid()
  {
    if !Reaches(request, actual, g) then owned - pending.Keys
    else if trim then TrimPending(cfg, owned, pending, cfg.Local(actual))
    else ResolvedGroup(cfg, request.blockIds[g], actual)
  }

  /** The owner's groups after its latest epoch is settled at `actual`. */
  function ResolvedOwner(configs: Configs, groups: map<GroupId, Blocks>, pending: map<GroupId, map<nat, nat>>,
                         trims: set<GroupId>, request: Request, actual: int): map<GroupId, Blocks>
    requires ValidConfigs(configs)
  {
    map g | g in groups.Keys + configs.Keys && KeepsGroup(configs, groups, trims, request, actual, g) ::
      if g in configs then
        SettledGroup(configs[g], GetOr(groups, g, map[]), GetOr(pending, g, map[]), g in trims, request, actual, g)
      else groups[g]
  }

  function ResolvedPending(configs: Configs, pending: map<GroupId, map<nat, nat>>, request: Request,
                           actual: int): map<GroupId, Blocks>
    requires ValidConfigs(configs)
  {
    map g | g in configs && g in pending && Reaches(request, actual, g)
            && ResolvedFills(configs[g], pending[g], configs[g].Local(actual)) != map[] ::
      ResolvedFills(configs[g], pending[g], configs[g].Local(actual))
  }

  function DropEpoch(t: Tables, epoch: Id): Tables {
    t.(pending := t.pending - {epoch}, epochBlocks := t.epochBlocks - {epoch},
       epochFull := t.epochFull - {epoch}, epochOwners := t.epochOwners - {epoch})
  }

  function IsLatest(t: Tables, epoch: Id): bool {
    var owner := GetOr(t.epochOwners, epoch, epoch);
    owner in t.latestEpoch && t.latestEpoch[owner] == epoch
  }

  /** Write the outcome of settling `epoch` of `owner`: the owner's groups if this was its latest
      epoch, and the fills to publish. */
  function PublishEpoch(t: Tables, epoch: Id, owner: Id, latest: bool,
                        groups: map<GroupId, Blocks>, resolved: map<GroupId, Blocks>): Tables
  {
    t.(requestBlocks :=
         if latest && owner in t.requestBlocks then t.requestBlocks[owner := groups] else t.requestBlocks,
       latestEpoch := if latest then t.latestEpoch - {owner} else t.latestEpoch,
       resolved := if resolved == map[] then t.resolved else t.resolved[epoch := resolved])
  }

  /** Settle one conservative epoch at its true end. */
  function Resolve(configs: Configs, t: Tables, epoch: Id, request: Request, actual: int): Tables
    requires ValidConfigs(configs)
  {
    if epoch !in t.pending then DropEpoch(t, epoch)
    else
      var owner := GetOr(t.epochOwners, epoch, epoch);
      PublishEpoch(DropEpoch(t, epoch), epoch, owner, IsLatest(t, epoch),
        ResolvedOwner(configs, GetOr(t.requestBlocks, owner, map[]), t.pending[epoch],
                      TrimGroups(t, epoch, owner), request, actual),
        ResolvedPending(configs, t.pending[epoch], request, actual))
  }

  /** Close an epoch, publishing nothing. */
  function Discard(t: Tables, epoch: Id): Tables {
    var latest := epoch in t.epochOwners
                  && t.epochOwners[epoch] in t.latestEpoch
                  && t.latestEpoch[t.epochOwners[epoch]] == epoch;
    DropEpoch(t, epoch).(
      latestEpoch := if latest then t.latestEpoch - {t.epochOwners[epoch]} else t.latestEpoch)
  }

  function UnknownFills(blocks: Blocks): Blocks {
    map b | b in blocks :: Unknown
  }

  function UnknownGroups(groups: map<GroupId, Blocks>): map<GroupId, Blocks> {
    map g | g in groups :: UnknownFills(groups[g])
  }

  /** Epoch tables with the epochs of `req` among `done` forgotten. */
  function UnknownEpochs(t: Tables, req: Id, done: set<Id>): map<Id, map<GroupId, Blocks>> {
    map e | e in t.epochBlocks ::
      if e in done && e in t.epochOwners && t.epochOwners[e] == req then UnknownGroups(t.epochBlocks[e])
      else t.epochBlocks[e]
  }

  lemma NoneMarked(t: Tables, req: Id)
    ensures UnknownEpochs(t, req, {}) == t.epochBlocks
  {
  }

  lemma OneMoreMarked(t: Tables, req: Id, done: set<Id>, e: Id)
    requires e !in done && e in t.epochOwners && e in t.epochBlocks
    ensures var marked := UnknownEpochs(t, req, done);
      && e in marked
      && UnknownEpochs(t, req, done + {e})
         == if t.epochOwners[e] == req then marked[e := UnknownGroups(marked[e])] else marked
  {
    hide UnknownGroups;
  }

  /** Forget every fill of a request, keeping its blocks. */
  function MarkUnknown(t: Tables, req: Id): Tables {
    t.(requestBlocks :=
         if req in t.requestBlocks then t.requestBlocks[req := UnknownGroups(t.requestBlocks[req])]
         else t.requestBlocks,
       epochBlocks := UnknownEpochs(t, req, t.epochOwners.Keys))
  }

  function EpochsOf(owners: map<Id, Id>, removed: set<Id>): set<Id> {
    set e | e in owners && owners[e] in removed
  }

  /** Forget finished and preempted requests together with their epochs. */
  function RemoveRequests(t: Tables, removed: set<Id>): Tables {
    var epochs := EpochsOf(t.epochOwners, removed);
    t.(requestBlocks := t.requestBlocks - removed, requestFull := t.requestFull - removed,
       latestEpoch := t.latestEpoch - removed,
       pending := t.pending - epochs, epochBlocks := t.epochBlocks - epochs,
       epochFull := t.epochFull - epochs, epochOwners := t.epochOwners - epochs)
  }

  /** The sources of one group among per-key tables. */
  function GroupSources(m: map<Id, map<GroupId, Blocks>>, g: GroupId): set<Blocks> {
    set k | k in m :: GetOr(m[k], g, map[])
  }

  /** Step tables after the epochs in `done` were consumed. */
  ghost function ConsumedStep(t: Tables, done: map<Id, map<GroupId, Blocks>>): map<GroupId, Blocks> {
    map g | g in t.stepBlocks :: ConsumedGroup(t, done, g)
  }

  ghost function ConsumedGroup(t: Tables, done: map<Id, map<GroupId, Blocks>>, g: GroupId): Blocks
    requires g in t.stepBlocks
  {
    JoinOf(GroupSources(done, g) + {t.stepBlocks[g]})
  }

  ghost function ConsumeAll(t: Tables): Tables {
    t.(resolved := map[], stepBlocks := ConsumedStep(t, t.resolved))
  }

  /** Start of an update: fresh step tables, removals, then every settled fill. */
  ghost function BeginStep(configs: Configs, t: Tables, removed: set<Id>): Tables {
    var cleared := t.(stepBlocks := map g | g in configs :: map[]);
    ConsumeAll(RemoveRequests(cleared, removed))
  }

  /** Record what request `req` owns and the step tables it was merged into. */
  function OwnGroups(t: Tables, req: Id, groups: map<GroupId, Blocks>, full: set<GroupId>,
                     step: map<GroupId, Blocks>): Tables
  {
    t.(requestBlocks := t.requestBlocks[req := groups], requestFull := t.requestFull[req := full],
       stepBlocks := step)
  }

  /** Open an epoch of `req` for the blocks whose fills stay provisional. */
  function OpenEpoch(t: Tables, req: Id, epoch: Id, groups: map<GroupId, Blocks>, full: set<GroupId>,
                     pending: map<GroupId, map<nat, nat>>): Tables
  {
    var epochFull := full * pending.Keys;
    t.(pending := t.pending[epoch := pending],
       epochBlocks := t.epochBlocks[epoch := RetainedBlocks(groups, full, pending, t.stepBlocks)],
       epochFull := if epochFull == {} then t.epochFull else t.epochFull[epoch := epochFull],
       epochOwners := t.epochOwners[epoch := req],
       latestEpoch := t.latestEpoch[req := epoch])
  }

  /** Enter one scheduled request into the tables. */
  function Enter(configs: Configs, t: Tables, req: Id, epoch: Id, request: Request,
                 scheduled: nat, rollback: nat): Tables
    requires ValidConfigs(configs)
  {
    var w := WindowOf(request.computed, scheduled, rollback);
    var groups := ScheduledGroups(configs, request, w,
      GetOr(t.requestBlocks, req, map[]), GetOr(t.requestFull, req, {}));
    var full := ScheduledFull(configs, request, w);
    var pending := if rollback > 0 then ScheduledPending(configs, request, w) else map[];
    var owned := OwnGroups(t, req, groups, full, ScheduledStep(configs, request, w, t.stepBlocks));
    if pending == map[] then owned else OpenEpoch(owned, req, epoch, groups, full, pending)
  }

  datatype Schedule = Schedule(req: Id, tokens: nat)

  /** One scheduled request: settle an unresolved epoch of the same name first. */
  function ScheduleOne(configs: Configs, t: Tables, requests: map<Id, Request>, s: Schedule,
                       rollback: map<Id, nat>, epochs: map<Id, Id>): Tables
    requires ValidConfigs(configs)
  {
    if s.req !in requests then t
    else
      var request := requests[s.req];
      var epoch := GetOr(epochs, s.req, s.req);
      var settled := if epoch in t.pending
                     then ConsumeResolved(Resolve(configs, t, epoch, request, request.computed), epoch)
                     else t;
      Enter(configs, settled, s.req, epoch, request, s.tokens, GetOr(rollback, s.req, 0))
  }

  function ScheduleAll(configs: Configs, t: Tables, requests: map<Id, Request>, scheduled: seq<Schedule>,
                       rollback: map<Id, nat>, epochs: map<Id, Id>): Tables
    requires ValidConfigs(configs)
  {
    if scheduled == [] then t
    else
      var before := ScheduleAll(configs, t, requests, scheduled[..|scheduled| - 1], rollback, epochs);
      ScheduleOne(configs, before, requests, scheduled[|scheduled| - 1], rollback, epochs)
  }

  /** One scheduler step. */
  ghost function Update(configs: Configs, t: Tables, requests: map<Id, Request>, scheduled: seq<Schedule>,
                        removed: set<Id>, rollback: map<Id, nat>, epochs: map<Id, Id>): Tables
    requires ValidConfigs(configs)
  {
    ScheduleAll(configs, BeginStep(configs, t, removed), requests, scheduled, rollback, epochs)
  }

  /** Everything that keeps a block of group `g` exact. */
  function Sources(t: Tables, g: GroupId): set<Blocks> {
    {GetOr(t.stepBlocks, g, map[])}
    + GroupSources(t.requestBlocks, g)
    + GroupSources(t.epochBlocks, g)
    + GroupSources(t.resolved, g)
  }

  /** Blocks that must stay exact, with the best known fill of each. */
  ghost function BlockFills(t: Tables, g: GroupId): Blocks {
    JoinOf(Sources(t, g))
  }

  // ---- the same tables built one group at a time ----

  lemma NothingScheduled(configs: Configs, request: Request, w: Window,
                         previous: map<GroupId, Blocks>, previousFull: set<GroupId>, step: map<GroupId, Blocks>)
    requires configs == map[]
    ensures ScheduledGroups(configs, request, w, previous, previousFull) == map[]
    ensures ScheduledFull(configs, request, w) == {}
    ensures ScheduledStep(configs, request, w, step) == step
    ensures ScheduledPending(configs, request, w) == map[]
  {
  }

  lemma ActiveExtends(before: Configs, g: GroupId, cfg: GroupConfig, request: Request, w: Window)
    requires ValidConfigs(before) && cfg.Valid() && g !in before
    ensures ValidConfigs(before[g := cfg])
    ensures forall h :: h != g ==> (Active(before[g := cfg], request, w, h) <==> Active(before, request, w, h))
    ensures !Active(before, request, w, g)
  {
    hide LocalNumTokens, NumLogical;
  }

  lemma OneMoreGroup(before: Configs, g: GroupId, cfg: GroupConfig, request: Request, w: Window,
                     previous: map<GroupId, Blocks>, previousFull: set<GroupId>)
    requires ValidConfigs(before) && cfg.Valid() && g !in before
    ensures ValidConfigs(before[g := cfg])
    ensures ScheduledGroups(before[g := cfg], request, w, previous, previousFull)
         == (var groups := ScheduledGroups(before, request, w, previous, previousFull);
             if Active(before[g := cfg], request, w, g)
             then groups[g := GroupBlocks(cfg, request.blockIds[g], w, previous, previousFull, g)] else groups)
  {
    hide LocalNumTokens, NumLogical, GroupBlocks, MergeTouched, TouchedLogical, FullContext, SpanOf, Active;
    ActiveExtends(before, g, cfg, request, w);
  }

  lemma OneMoreFull(before: Configs, g: GroupId, cfg: GroupConfig, request: Request, w: Window)
    requires ValidConfigs(before) && cfg.Valid() && g !in before
    ensures ValidConfigs(before[g := cfg])
    ensures ScheduledFull(before[g := cfg], request, w)
         == ScheduledFull(before, request, w)
            + (if Active(before[g := cfg], request, w, g) && FullContext(cfg, w.maxEnd) then {g} else {})
  {
    hide LocalNumTokens, NumLogical, GroupBlocks, MergeTouched, TouchedLogical, FullContext, SpanOf, Active;
    ActiveExtends(before, g, cfg, request, w);
  }

  lemma OneMoreStep(before: Configs, g: GroupId, cfg: GroupConfig, request: Request, w: Window,
                    step: map<GroupId, Blocks>)
    requires ValidConfigs(before) && cfg.Valid() && g !in before && g in step
    ensures ValidConfigs(before[g := cfg])
    ensures ScheduledStep(before, request, w, step).Keys == step.Keys
    ensures ScheduledStep(before, request, w, step)[g] == step[g]
    ensures ScheduledStep(before[g := cfg], request, w, step)
         == (var merged := ScheduledStep(before, request, w, step);
             if Active(before[g := cfg], request, w, g)
             then merged[g := MergeTouched(cfg, request.blockIds[g], SpanOf(cfg, w), step[g])] else merged)
  {
    hide LocalNumTokens, NumLogical, GroupBlocks, MergeTouched, TouchedLogical, FullContext, SpanOf, Active;
    ActiveExtends(before, g, cfg, request, w);
  }

  lemma OneMorePending(before: Configs, g: GroupId, cfg: GroupConfig, request: Request, w: Window)
    requires ValidConfigs(before) && cfg.Valid() && g !in before
    ensures ValidConfigs(before[g := cfg])
    ensures ScheduledPending(before[g := cfg], request, w)
         == (var pending := ScheduledPending(before, request, w);
             if Active(before[g := cfg], request, w, g)
                && TouchedLogical(cfg, request.blockIds[g], SpanOf(cfg, w)) != map[]
             then pending[g := TouchedLogical(cfg, request.blockIds[g], SpanOf(cfg, w))] else pending)
  {
    hide LocalNumTokens, NumLogical, GroupBlocks, MergeTouched, TouchedLogical, FullContext, SpanOf, Active;
    ActiveExtends(before, g, cfg, request, w);
    var l := ScheduledPending(before[g := cfg], request, w);
    var pending := ScheduledPending(before, request, w);
    forall h | h != g
      ensures h in l <==> h in pending
      ensures h in l ==> l[h] == pending[h]
    {
    }
  }

  lemma NothingRetained(groups: map<GroupId, Blocks>, full: set<GroupId>, step: map<GroupId, Blocks>)
    ensures RetainedBlocks(groups, full, map[], step) == map g | g in groups && g !in full :: groups[g]
  {
  }

  lemma OneMoreRetained(groups: map<GroupId, Blocks>, full: set<GroupId>, before: map<GroupId, map<nat, nat>>,
                        g: GroupId, touched: map<nat, nat>, step: map<GroupId, Blocks>)
    requires g !in before
    ensures RetainedBlocks(groups, full, before[g := touched], step)
         == (var retained := RetainedBlocks(groups, full, before, step);
             retained[g := MergeMaps(GetOr(retained, g, map[]), Restrict(GetOr(step, g, map[]), touched.Keys))])
  {
    hide MergeMaps, Restrict;
    var l := RetainedBlocks(groups, full, before[g := touched], step);
    var retained := RetainedBlocks(groups, full, before, step);
    var r := retained[g := MergeMaps(GetOr(retained, g, map[]), Restrict(GetOr(step, g, map[]), touched.Keys))];
    assert l.Keys == r.Keys;
  }

  lemma OneMoreResolved(before: Configs, g: GroupId, cfg: GroupConfig, groups: map<GroupId, Blocks>,
                        pending: map<GroupId, map<nat, nat>>, trims: set<GroupId>, request: Request, actual: int)
    requires ValidConfigs(before) && cfg.Valid() && g !in before
    ensures ValidConfigs(before[g := cfg])
    ensures ResolvedOwner(before[g := cfg], groups, pending, trims, request, actual)
         == (var settled := ResolvedOwner(before, groups, pending, trims, request, actual);
             if Reaches(request, actual, g) || (g in trims && g in groups)
             then settled[g := SettledGroup(cfg, GetOr(groups, g, map[]), GetOr(pending, g, map[]), g in trims,
                                            request, actual, g)]
             else settled - {g})
  {
    hide SettledGroup, Reaches, ResolvedOwner;
    var l := ResolvedOwner(before[g := cfg], groups, pending, trims, request, actual);
    var settled := ResolvedOwner(before, groups, pending, trims, request, actual);
    ResolvedNewGroup(before, g, cfg, groups, pending, trims, request, actual);
    forall h | h != g
      ensures h in l <==> h in settled
      ensures h in l ==> l[h] == settled[h]
    {
      ResolvedOldGroup(before, g, cfg, groups, pending, trims, request, actual, h);
    }
  }

  lemma ResolvedNewGroup(before: Configs, g: GroupId, cfg: GroupConfig, groups: map<GroupId, Blocks>,
                         pending: map<GroupId, map<nat, nat>>, trims: set<GroupId>, request: Request, actual: int)
    requires ValidConfigs(before[g := cfg])
    ensures var l := ResolvedOwner(before[g := cfg], groups, pending, trims, request, actual);
      && (g in l <==> Reaches(request, actual, g) || (g in trims && g in groups))
      && (g in l ==> l[g] == SettledGroup(cfg, GetOr(groups, g, map[]), GetOr(pending, g, map[]), g in trims,
                                          request, actual, g))
  {
    hide SettledGroup, Reaches;
  }

  lemma ResolvedOldGroup(before: Configs, g: GroupId, cfg: GroupConfig, groups: map<GroupId, Blocks>,
                         pending: map<GroupId, map<nat, nat>>, trims: set<GroupId>, request: Request, actual: int,
                         h: GroupId)
    requires ValidConfigs(before) && ValidConfigs(before[g := cfg]) && h != g
    ensures var l := ResolvedOwner(before[g := cfg], groups, pending, trims, request, actual);
      var settled := ResolvedOwner(before, groups, pending, trims, request, actual);
      (h in l <==> h in settled) && (h in l ==> l[h] == settled[h])
  {
    hide SettledGroup, Reaches;
  }

  /** Without its configuration a group stays as it is. */
  lemma UnknownGroupStays(before: Configs, g: GroupId, groups: map<GroupId, Blocks>,
                          pending: map<GroupId, map<nat, nat>>, trims: set<GroupId>, request: Request, actual: int)
    requires ValidConfigs(before) && g !in before
    ensures (g in ResolvedOwner(before, groups, pending, trims, request, actual)) == (g in groups)
    ensures g in groups ==> ResolvedOwner(before, groups, pending, trims, request, actual)[g] == groups[g]
  {
    hide SettledGroup, Reaches;
  }

  lemma OneMoreResolvedPending(before: Configs, g: GroupId, cfg: GroupConfig,
                               pending: map<GroupId, map<nat, nat>>, request: Request, actual: int)
    requires ValidConfigs(before) && cfg.Valid() && g !in before
    ensures ValidConfigs(before[g := cfg])
    ensures ResolvedPending(before[g := cfg], pending, request, actual)
         == (var resolved := ResolvedPending(before, pending, request, actual);
             if Reaches(request, actual, g)
                && ResolvedFills(cfg, GetOr(pending, g, map[]), cfg.Local(actual)) != map[]
             then resolved[g := ResolvedFills(cfg, GetOr(pending, g, map[]), cfg.Local(actual))] else resolved)
  {
    hide ResolvedFills, LocalNumTokens;
    NothingPending(cfg, cfg.Local(Max(actual, 0)));
    var l := ResolvedPending(before[g := cfg], pending, request, actual);
    var resolved := ResolvedPending(before, pending, request, actual);
    forall h | h != g
      ensures h in l <==> h in resolved
      ensures h in l ==> l[h] == resolved[h]
    {
    }
  }

  lemma NothingPending(cfg: GroupConfig, e: nat)
    ensures ResolvedFills(cfg, map[], e) == map[]
  {
  }

  lemma NothingSettled(configs: Configs, groups: map<GroupId, Blocks>, pending: map<GroupId, map<nat, nat>>,
                       trims: set<GroupId>, request: Request, actual: int)
    requires configs == map[]
    ensures ResolvedOwner(configs, groups, pending, trims, request, actual) == groups
    ensures ResolvedPending(configs, pending, request, actual) == map[]
  {
  }

  lemma OneMoreFill(cfg: GroupConfig, before: map<nat, nat>, b: nat, l: nat, e: nat)
    requires b !in before
    ensures ResolvedFills(cfg, before[b := l], e)
         == (var fills := ResolvedFills(cfg, before, e);
             if FillCount(cfg, e, l) > 0 then fills[b := Known(FillCount(cfg, e, l))] else fills)
  {
    hide FillCount;
  }

  lemma OneMoreTrim(cfg: GroupConfig, before: map<nat, nat>, b: nat, l: nat, owned: Blocks, e: nat)
    requires b !in before
    ensures TrimPending(cfg, owned, before[b := l], e)
         == (var trimmed := TrimPending(cfg, owned, before, e);
             if FillCount(cfg, e, l) > 0 then trimmed[b := Known(FillCount(cfg, e, l))] else trimmed - {b})
  {
    hide FillCount, ResolvedFills;
    OneMoreFill(cfg, before, b, l, e);
    assert before[b := l].Keys == before.Keys + {b};
    assert b !in ResolvedFills(cfg, before, e) by { FillsKeys(cfg, before, e); }
  }

  lemma FillsKeys(cfg: GroupConfig, pending: map<nat, nat>, e: nat)
    ensures ResolvedFills(cfg, pending, e).Keys <= pending.Keys
  {
  }

  lemma NothingConsumed(t: Tables)
    ensures ConsumedStep(t, map[]) == t.stepBlocks
  {
    forall g | g in t.stepBlocks
      ensures ConsumedStep(t, map[])[g] == t.stepBlocks[g]
    {
      assert GroupSources(map[], g) + {t.stepBlocks[g]} == {t.stepBlocks[g]};
      JoinOfOne(t.stepBlocks[g]);
      JoinUnique(JoinOf({t.stepBlocks[g]}), t.stepBlocks[g], {t.stepBlocks[g]});
    }
  }

  lemma OneMoreConsumed(t: Tables, done: map<Id, map<GroupId, Blocks>>, e: Id, groups: map<GroupId, Blocks>)
    requires e !in done
    ensures ConsumedStep(t, done[e := groups]) == MergeGroups(ConsumedStep(t, done), groups)
  {
    hide MergeMaps, ConsumedGroup, GetOr, MergeGroups;
    forall g | g in t.stepBlocks
      ensures ConsumedGroup(t, done[e := groups], g) == MergeMaps(ConsumedGroup(t, done, g), GetOr(groups, g, map[]))
    {
      OneMoreGroupConsumed(t, done, e, groups, g);
    }
    MergeNothing(ConsumedStep(t, done), groups);
  }

  /** One turn of the loop that consumes every settled epoch. */
  lemma ConsumeOne(t: Tables, todo: set<Id>, e: Id)
    requires e in todo && todo <= t.resolved.Keys
    ensures var left := t.resolved - (t.resolved.Keys - todo);
      && GetOr(left, e, map[]) == t.resolved[e]
      && left - {e} == t.resolved - (t.resolved.Keys - (todo - {e}))
    ensures MergeGroups(ConsumedStep(t, t.resolved - todo), t.resolved[e]) == ConsumedStep(t, t.resolved - (todo - {e}))
  {
    hide ConsumedStep, MergeGroups;
    var before := t.resolved - todo;
    assert t.resolved - (todo - {e}) == before[e := t.resolved[e]];
    OneMoreConsumed(t, before, e, t.resolved[e]);
  }

  lemma OneMoreGroupConsumed(t: Tables, done: map<Id, map<GroupId, Blocks>>, e: Id, groups: map<GroupId, Blocks>,
                             g: GroupId)
    requires e !in done && g in t.stepBlocks
    ensures ConsumedGroup(t, done[e := groups], g) == MergeMaps(ConsumedGroup(t, done, g), GetOr(groups, g, map[]))
  {
    hide JoinOf, MergeMaps, GroupSources;
    OneMoreSource(done, e, groups, g, t.stepBlocks[g]);
  }

  lemma MergeNothing(step: map<GroupId, Blocks>, more: map<GroupId, Blocks>)
    ensures MergeGroups(step, more) == map g | g in step :: MergeMaps(step[g], GetOr(more, g, map[]))
  {
    hide MergeMaps;
    forall g | g in step && g !in more
      ensures MergeMaps(step[g], map[]) == step[g]
    {
      MergeEmpty(step[g]);
    }
  }

  lemma OneMoreSource(done: map<Id, map<GroupId, Blocks>>, e: Id, groups: map<GroupId, Blocks>, g: GroupId,
                      step: Blocks)
    requires e !in done
    ensures JoinOf(GroupSources(done[e := groups], g) + {step})
         == MergeMaps(JoinOf(GroupSources(done, g) + {step}), GetOr(groups, g, map[]))
  {
    hide JoinOf, MergeMaps, GroupSources;
    var base, more := GroupSources(done, g) + {step}, GetOr(groups, g, map[]);
    GroupSourcesAdd(done, e, groups, g);
    assert GroupSources(done[e := groups], g) + {step} == base + {more};
    JoinOfInsert(base, more);
  }

  lemma GroupSourcesAdd(m: map<Id, map<GroupId, Blocks>>, k: Id, groups: map<GroupId, Blocks>, g: GroupId)
    requires k !in m
    ensures GroupSources(m[k := groups], g) == GroupSources(m, g) + {GetOr(groups, g, map[])}
  {
    hide GetOr;
    var l, r := GroupSources(m[k := groups], g), GroupSources(m, g) + {GetOr(groups, g, map[])};
    forall s | s in l
      ensures s in r
    {
      var j :| j in m[k := groups] && s == GetOr(m[k := groups][j], g, map[]);
      if j != k {
        assert s == GetOr(m[j], g, map[]);
      }
    }
    forall s | s in r
      ensures s in l
    {
      if s in GroupSources(m, g) {
        var j :| j in m && s == GetOr(m[j], g, map[]);
        assert s == GetOr(m[k := groups][j], g, map[]);
      } else {
        assert s == GetOr(m[k := groups][k], g, map[]);
      }
    }
  }

  lemma GroupSourcesInsert(m: map<Id, map<GroupId, Blocks>>, todo: set<Id>, k: Id, g: GroupId)
    requires k in todo && todo <= m.Keys
    ensures GroupSources(m - (todo - {k}), g) == GroupSources(m - todo, g) + {GetOr(m[k], g, map[])}
  {
    assert m - (todo - {k}) == (m - todo)[k := m[k]];
    GroupSourcesAdd(m - todo, k, m[k], g);
  }

  lemma BeginStepKeys(configs: Configs, t: Tables, removed: set<Id>)
    ensures BeginStep(configs, t, removed).stepBlocks.Keys == configs.Keys
  {
  }

  lemma ResolveKeepsStep(configs: Configs, t: Tables, epoch: Id, request: Request, actual: int)
    requires ValidConfigs(configs)
    ensures Resolve(configs, t, epoch, request, actual).stepBlocks == t.stepBlocks
  {
    hide ResolvedOwner, ResolvedPending, TrimGroups, IsLatest, DropEpoch, PublishEpoch, GetOr;
    assert DropEpoch(t, epoch).stepBlocks == t.stepBlocks by { DropKeepsStep(t, epoch); }
    if epoch in t.pending {
      var owner := GetOr(t.epochOwners, epoch, epoch);
      PublishKeepsStep(DropEpoch(t, epoch), epoch, owner, IsLatest(t, epoch),
        ResolvedOwner(configs, GetOr(t.requestBlocks, owner, map[]), t.pending[epoch],
                      TrimGroups(t, epoch, owner), request, actual),
        ResolvedPending(configs, t.pending[epoch], request, actual));
    }
  }

  lemma DropKeepsStep(t: Tables, epoch: Id)
    ensures DropEpoch(t, epoch).stepBlocks == t.stepBlocks
  {
  }

  lemma PublishKeepsStep(t: Tables, epoch: Id, owner: Id, latest: bool,
                         groups: map<GroupId, Blocks>, resolved: map<GroupId, Blocks>)
    ensures PublishEpoch(t, epoch, owner, latest, groups, resolved).stepBlocks == t.stepBlocks
  {
  }

  /** Removal once the epochs in `done` were discarded. */
  function RemovedSoFar(t: Tables, removed: set<Id>, done: set<Id>): Tables {
    t.(requestBlocks := t.requestBlocks - removed, requestFull := t.requestFull - removed,
       latestEpoch := t.latestEpoch - removed,
       pending := t.pending - done, epochBlocks := t.epochBlocks - done,
       epochFull := t.epochFull - done, epochOwners := t.epochOwners - done)
  }

  lemma OneMoreRemoved(t: Tables, removed: set<Id>, done: set<Id>, e: Id)
    requires e in EpochsOf(t.epochOwners, removed) && e !in done
    ensures Discard(RemovedSoFar(t, removed, done), e) == RemovedSoFar(t, removed, done + {e})
  {
    var before, after := RemovedSoFar(t, removed, done), RemovedSoFar(t, removed, done + {e});
    RemoveOneMore(t.pending, done, e);
    RemoveOneMore(t.epochBlocks, done, e);
    RemoveOneMore(t.epochFull, done, e);
    RemoveOneMore(t.epochOwners, done, e);
    assert before.epochOwners[e] !in before.latestEpoch;
  }

  lemma RemoveOneMore<V>(m: map<Id, V>, done: set<Id>, e: Id)
    ensures (m - done) - {e} == m - (done + {e})
  {
  }

  lemma NothingRemoved(t: Tables, removed: set<Id>)
    ensures RemovedSoFar(t, removed, {}) == t.(requestBlocks := t.requestBlocks - removed,
      requestFull := t.requestFull - removed, latestEpoch := t.latestEpoch - removed)
  {
  }

  lemma AllRemoved(t: Tables, removed: set<Id>)
    ensures RemovedSoFar(t, removed, EpochsOf(t.epochOwners, removed)) == RemoveRequests(t, removed)
  {
  }

  lemma ScheduledStepKeys(configs: Configs, request: Request, w: Window, step: map<GroupId, Blocks>)
    requires ValidConfigs(configs)
    ensures ScheduledStep(configs, request, w, step).Keys == step.Keys
  {
    hide LocalNumTokens, NumLogical, MergeTouched;
  }

  lemma OpenEpochKeepsStep(t: Tables, req: Id, epoch: Id, groups: map<GroupId, Blocks>, full: set<GroupId>,
                           pending: map<GroupId, map<nat, nat>>)
    ensures OpenEpoch(t, req, epoch, groups, full, pending).stepBlocks == t.stepBlocks
  {
  }
}
