/** No tile is lost.

    Tracker, pool and caches run together.  A followed request starts at zero tokens, is never
    rolled back, and shares no block with another request while it holds it; blocks may come from
    requests that are gone and go to later ones.  Whatever the other requests do, speculation
    included, after every call each of its tokens can be read: from its block's exact slot if the
    block is mapped, and otherwise from the packed tile that was flushed when the block was full. */
module TileSafety {
  import opened Sharding
  import opened FillMaps
  import opened Ownership
  import opened BlockRanges
  import opened EpochSafety
  import opened PoolBound
  import opened AsyncRefinement
  import opened SpeculativeRuns
  import opened Separation
  import opened ExactPool

  // ---- which of the request's blocks are needed ----

  /** Logical blocks that a step from `start` to `end` needs: those kept and those written. */
  predicate NeedsLogical(cfg: GroupConfig, ids: seq<nat>, start: nat, end: nat, l: nat)
    requires cfg.Valid()
  {
    || Owns(cfg, ids, SpanOf(cfg, Window(end, end, end)), l)
    || TagFrom(cfg, start, end) <= l < TagTo(cfg, start, end)
  }

  /** The needed blocks of the followed request, with their fills. */
  lemma NeededAt(configs: Configs, t: Tables, r: Id, g: GroupId, mine: seq<nat>, start: nat, end: nat, l: nat)
    requires ValidConfigs(configs) && g in configs && Distinct(mine)
    requires KeepApart(t, r, g, AllBlocks(mine, configs[g].perManager))
    requires StepOf(configs, t, g, mine, TagFrom(configs[g], start, end), TagTo(configs[g], start, end),
                    configs[g].Local(end))
    requires GetOr(GetOr(t.requestBlocks, r, map[]), g, map[]) == WideBlocks(configs[g], mine, end, end)
    requires InTable(mine, l, configs[g].perManager)
    ensures var b, needed := PhysicalBlock(mine, l, configs[g].perManager), BlockFills(t, g);
      && (b in needed <==> NeedsLogical(configs[g], mine, start, end, l))
      && (b in needed ==> needed[b] == FillAt(configs[g], configs[g].Local(end), l))
  {
    hide LocalNumTokens, SpanBlocks, PhysicalBlock, FillAt, AllBlocks, TagFrom, TagTo, Owns, JoinOf, IsJoin, KeepApart;
    var cfg := configs[g];
    var b, fill := PhysicalBlock(mine, l, cfg.perManager), FillAt(cfg, cfg.Local(end), l);
    var step, kept := t.stepBlocks[g], WideBlocks(cfg, mine, end, end);
    var lo, hi := TagFrom(cfg, start, end), TagTo(cfg, start, end);
    assert StepHas(cfg, mine, step, lo, hi, cfg.Local(end), l);
    SpanBlocksAt(cfg, mine, SpanOf(cfg, Window(end, end, end)), l);
    OwnInAll(mine, cfg.perManager, l);
    StepAndKept(t, r, g, AllBlocks(mine, cfg.perManager), b, step, kept);
    if b in step {
      JoinOfAgreeing(Sources(t, g), step, b, fill);
    } else if b in kept {
      KeptIsSource(t, r, g, kept);
      JoinOfAgreeing(Sources(t, g), kept, b, fill);
    } else if b in BlockFills(t, g) {
      var s := JoinOfKey(Sources(t, g), b);
      assert false;
    }
  }

  lemma SourceApart(tables: map<Id, map<GroupId, Blocks>>, g: GroupId, own: set<nat>, b: nat, s: Blocks)
    requires AllApart(tables, g, own) && b in own && b in s
    ensures s !in GroupSources(tables, g)
  {
  }

  /** Only the step table and the request's own entry can hold one of its blocks. */
  lemma StepAndKept(t: Tables, r: Id, g: GroupId, own: set<nat>, b: nat, step: Blocks, kept: Blocks)
    requires KeepApart(t, r, g, own) && b in own && g in t.stepBlocks && step == t.stepBlocks[g]
    requires GetOr(GetOr(t.requestBlocks, r, map[]), g, map[]) == kept
    ensures forall s :: s in Sources(t, g) && b in s ==> s == step || s == kept
    ensures step in Sources(t, g)
  {
    hide AllApart;
    forall s | s in Sources(t, g) && b in s
      ensures s == step || s == kept
    {
      SourceApart(t.epochBlocks, g, own, b, s);
      SourceApart(t.resolved, g, own, b, s);
      SourceApart(t.requestBlocks - {r}, g, own, b, s);
      if s != step {
        var q :| q in t.requestBlocks && s == GetOr(t.requestBlocks[q], g, map[]);
        OthersAreSources(t, r, q, g);
      }
    }
  }

  lemma OthersAreSources(t: Tables, r: Id, q: Id, g: GroupId)
    requires q in t.requestBlocks
    ensures q != r ==> GetOr(t.requestBlocks[q], g, map[]) in GroupSources(t.requestBlocks - {r}, g)
  {
    if q != r {
      assert GetOr((t.requestBlocks - {r})[q], g, map[]) == GetOr(t.requestBlocks[q], g, map[]);
    }
  }

  lemma KeptIsSource(t: Tables, r: Id, g: GroupId, kept: Blocks)
    requires GetOr(GetOr(t.requestBlocks, r, map[]), g, map[]) == kept && kept != map[]
    ensures kept in Sources(t, g)
  {
    assert r in t.requestBlocks;
    assert kept in GroupSources(t.requestBlocks, g);
  }

  /** A reached block that is not needed is full, and no later step needs it again. */
  lemma RetiredForGood(cfg: GroupConfig, ids: seq<nat>, start: nat, end: nat, end': nat, l: nat)
    requires cfg.Valid() && end <= end' && l < CeilDiv(cfg.Local(end), cfg.group) && Holds(cfg, ids, end)
    requires !NeedsLogical(cfg, ids, start, end, l)
    ensures FillAt(cfg, cfg.Local(end), l) == Known(cfg.group)
    ensures !NeedsLogical(cfg, ids, end, end', l)
  {
    hide LocalNumTokens, CeilDiv;
    CountMonotone(end, end', cfg.world, cfg.rank, cfg.interleave);
    CountMonotone(Max(end - cfg.tail, 0), Max(end' - cfg.tail, 0), cfg.world, cfg.rank, cfg.interleave);
    CeilMonotone(cfg.Local(end), cfg.Local(end'), cfg.group);
    FloorMonotone(cfg.TailStart(end), cfg.TailStart(end'), cfg.group);
    BeforeCurrent(cfg.Local(end), l, cfg.group);
    FullBelow(cfg, cfg.Local(end), cfg.Local(end), l);
  }

  lemma BeforeCurrent(e: nat, l: nat, g: nat)
    requires g > 0 && l + 1 < CeilDiv(e, g)
    ensures l < e / g
  {
    LastBlock(e, g) by {
      CeilBounds(0, g);
    }
    FloorMonotone(e - 1, e, g);
  }

  /** A block that was reached and is needed no more was complete before the step. */
  lemma RetiredIsFull(cfg: GroupConfig, ids: seq<nat>, start: nat, end: nat, l: nat)
    requires cfg.Valid() && start <= end && l < CeilDiv(cfg.Local(start), cfg.group) && Holds(cfg, ids, end)
    requires !NeedsLogical(cfg, ids, start, end, l)
    ensures FillAt(cfg, cfg.Local(start), l) == Known(cfg.group)
  {
    hide LocalNumTokens, CeilDiv;
    CountMonotone(start, end, cfg.world, cfg.rank, cfg.interleave);
    CeilMonotone(cfg.Local(start), cfg.Local(end), cfg.group);
    if cfg.Local(start) < cfg.Local(end) {
      FullBelow(cfg, cfg.Local(start), cfg.Local(start), l);
    } else {
      BeforeCurrent(cfg.Local(end), l, cfg.group);
      FullBelow(cfg, cfg.Local(start), cfg.Local(start), l);
    }
  }

  /** Every block written by a step is needed by it. */
  lemma WrittenIsNeeded(cfg: GroupConfig, ids: seq<nat>, start: nat, end: nat, j: nat, l: nat)
    requires cfg.Valid() && cfg.Local(start) <= j < cfg.Local(end) && l == j / cfg.group
    ensures NeedsLogical(cfg, ids, start, end, l)
  {
    hide LocalNumTokens, Owns, CeilDiv;
    FloorMonotone(cfg.Local(start), j, cfg.group);
    ReachedBlock(j, cfg.Local(end), cfg.group);
  }

  lemma ReachedBlock(j: nat, e: nat, g: nat)
    requires g > 0 && j < e
    ensures j / g < CeilDiv(e, g)
  {
    LastBlock(e, g);
    FloorMonotone(j, e - 1, g);
  }

  // ---- pool contents ----

  /** The row of one local token; the tag names the request and the period in which it was written. */
  datatype Row = Row(tag: nat, index: nat)

  /** Rows of one block by offset. */
  type Tile = map<nat, Row>

  datatype Write = Write(block: nat, offset: nat, row: Row)

  function TileAt(pool: map<nat, Tile>, slot: nat): Tile {
    GetOr(pool, slot, map[])
  }

  /** Write the step's rows through the block-to-slot mapping; unmapped blocks are skipped. */
  function Scatter(pool: map<nat, Tile>, mapping: map<nat, nat>, writes: seq<Write>): map<nat, Tile> {
    if writes == [] then pool
    else
      var before, w := Scatter(pool, mapping, writes[..|writes| - 1]), writes[|writes| - 1];
      if w.block in mapping then
        before[mapping[w.block] := TileAt(before, mapping[w.block])[w.offset := w.row]]
      else before
  }

  /** The packed image of a slot: its first `group` rows. */
  function Pack(tile: Tile, group: nat): Tile {
    map o | o in tile && o < group :: tile[o]
  }

  function Flush(pool: map<nat, Tile>, packed: map<nat, Tile>, flushed: map<nat, nat>, group: nat): map<nat, Tile> {
    packed + map b | b in flushed :: Pack(TileAt(pool, flushed[b]), group)
  }

  datatype System = System(tables: Tables, slots: PoolState, pool: map<nat, Tile>, packed: map<nat, Tile>)

  /** One engine step: update ownership, prepare the pool, flush, then write the new rows. */
  ghost predicate SystemStep(configs: Configs, g: GroupId, s: System, event: Event, writes: seq<Write>, s': System)
    requires ValidConfigs(configs) && g in configs
  {
    && s'.tables == Apply(configs, s.tables, event)
    && Prepared(s.slots, BlockFills(s'.tables, g), s'.slots) && Partition(s'.slots)
    && s'.packed == Flush(s.pool, s.packed, Flushed(s.slots, BlockFills(s'.tables, g), configs[g].group),
        configs[g].group)
    && s'.pool == Scatter(s.pool, s'.slots.mapping, writes)
  }

  /** The rows written into the followed request's blocks are those of its new tokens. */
  ghost predicate WritesTagged(cfg: GroupConfig, ids: seq<nat>, tag: nat, writes: seq<Write>, lo: nat, hi: nat)
    requires cfg.Valid() && hi <= |ids| * cfg.perManager * cfg.group
  {
    && (forall w :: w in writes && w.block in AllBlocks(ids, cfg.perManager) ==>
          exists j :: lo <= j < hi && w == TokenWrite(cfg, ids, tag, j))
    && (forall j :: lo <= j < hi ==> TokenWrite(cfg, ids, tag, j) in writes)
  }

  function TokenWrite(cfg: GroupConfig, ids: seq<nat>, tag: nat, j: nat): Write
    requires cfg.Valid() && j < |ids| * cfg.perManager * cfg.group
  {
    ManagerBlockInRange(|ids| * cfg.perManager, j, cfg.group);
    Write(PhysicalBlock(ids, j / cfg.group, cfg.perManager), j % cfg.group, Row(tag, j))
  }

  /** Local token `j` can be read: from its mapped slot, or from its packed tile. */
  ghost predicate Readable(cfg: GroupConfig, ids: seq<nat>, tag: nat, s: System, j: nat)
    requires cfg.Valid() && j < |ids| * cfg.perManager * cfg.group
  {
    var w := TokenWrite(cfg, ids, tag, j);
    if w.block in s.slots.mapping then
      var tile := TileAt(s.pool, s.slots.mapping[w.block]);
      w.offset in tile && tile[w.offset] == w.row
    else
      w.block in s.packed && w.offset in s.packed[w.block] && s.packed[w.block][w.offset] == w.row
  }

  predicate Hits(w: Write, b: nat, o: nat) {
    w.block == b && w.offset == o
  }

  /** A row no write aims at keeps its value. */
  lemma {:induction false} ScatterKeeps(pool: map<nat, Tile>, mapping: map<nat, nat>, writes: seq<Write>, b: nat,
                                        o: nat)
    requires Injective(mapping) && b in mapping
    requires forall w :: w in writes ==> !Hits(w, b, o)
    ensures var before, after := TileAt(pool, mapping[b]), TileAt(Scatter(pool, mapping, writes), mapping[b]);
      (o in after <==> o in before) && (o in before ==> after[o] == before[o])
  {
    if writes != [] {
      var front, last := writes[..|writes| - 1], writes[|writes| - 1];
      ScatterKeeps(pool, mapping, front, b, o);
      assert last in writes && !Hits(last, b, o);
      if last.block in mapping && last.block != b {
        assert mapping[last.block] != mapping[b];
      }
    }
  }

  /** A row that some write aims at, and all such writes agree on, takes that value. */
  lemma {:induction false} ScatterSets(pool: map<nat, Tile>, mapping: map<nat, nat>, writes: seq<Write>,
                                       b: nat, o: nat, row: Row)
    requires Injective(mapping) && b in mapping && Write(b, o, row) in writes
    requires forall w :: w in writes && Hits(w, b, o) ==> w.row == row
    ensures var after := TileAt(Scatter(pool, mapping, writes), mapping[b]);
      o in after && after[o] == row
  {
    var front, last := writes[..|writes| - 1], writes[|writes| - 1];
    assert last in writes;
    if !Hits(last, b, o) {
      assert writes == front + [last];
      ScatterSets(pool, mapping, front, b, o, row);
      if last.block in mapping && last.block != b {
        assert mapping[last.block] != mapping[b];
      }
    }
  }

  // ---- the followed request inside the system ----

  /** A moment of a run: the system, and the followed request with its table in the group, the
      tag of its current period, and where its last step started and ended. */
  datatype Point = Point(system: System, follow: Follow, table: seq<nat>, tag: nat, start: nat, end: nat)

  ghost predicate FollowAt(f: Follow, table: seq<nat>, g: GroupId, end: nat) {
    match f
    case Absent => end == 0 && table == []
    case Tracked(k) => k.sure && k.lo == k.hi == end && g < |k.ids| && k.ids[g] == table
    case Lost => false
  }

  /** The tables agree with the followed request, and hold its blocks for nobody else. */
  ghost predicate TableInvariant(configs: Configs, r: Id, names: iset<Id>, g: GroupId, p: Point)
    requires ValidConfigs(configs) && g in configs
  {
    && Epochs(p.system.tables, r, names) && NoEpochOf(p.system.tables, r)
    && KeepApart(p.system.tables, r, g, AllBlocks(p.table, configs[g].perManager))
    && Follows(configs, ViewOf(p.system.tables, r), p.follow) && FollowAt(p.follow, p.table, g, p.end)
  }

  ghost predicate MappingAt(cfg: GroupConfig, ids: seq<nat>, slots: PoolState, start: nat, end: nat, l: nat)
    requires cfg.Valid() && InTable(ids, l, cfg.perManager)
  {
    var b, fill := PhysicalBlock(ids, l, cfg.perManager), FillAt(cfg, cfg.Local(end), l);
    && (b in slots.mapping <==> NeedsLogical(cfg, ids, start, end, l))
    && (b in slots.mapping && fill.Known? ==> b in slots.fill && slots.fill[b] == fill.tokens)
  }

  /** Logical block `l` of the table has been reached by a request that ends at `end`. */
  predicate Reached(cfg: GroupConfig, ids: seq<nat>, end: nat, l: nat)
    requires cfg.Valid()
  {
    l < CeilDiv(cfg.Local(end), cfg.group) && InTable(ids, l, cfg.perManager)
  }

  /** Slots of the blocks reached so far; of the others in the table nothing is known. */
  ghost predicate SlotInvariant(cfg: GroupConfig, ids: seq<nat>, slots: PoolState, start: nat, end: nat)
    requires cfg.Valid()
  {
    && Partition(slots) && start <= end
    && forall l: nat :: Reached(cfg, ids, end, l) ==> MappingAt(cfg, ids, slots, start, end, l)
  }

  ghost predicate DataInvariant(cfg: GroupConfig, ids: seq<nat>, tag: nat, s: System, start: nat, end: nat)
    requires cfg.Valid()
  {
    && Distinct(ids) && Holds(cfg, ids, end)
    && SlotInvariant(cfg, ids, s.slots, start, end)
    && cfg.Local(end) <= |ids| * cfg.perManager * cfg.group
    && forall j :: 0 <= j < cfg.Local(end) ==> Readable(cfg, ids, tag, s, j)
  }

  ghost predicate PointOk(configs: Configs, r: Id, names: iset<Id>, g: GroupId, p: Point)
    requires ValidConfigs(configs) && g in configs
  {
    && TableInvariant(configs, r, names, g, p)
    && DataInvariant(configs[g], p.table, p.tag, p.system, p.start, p.end)
  }

  /** The table has room for every local token below the end. */
  lemma RoomFor(cfg: GroupConfig, ids: seq<nat>, end: nat)
    requires cfg.Valid() && Holds(cfg, ids, end)
    ensures cfg.Local(end) <= |ids| * cfg.perManager * cfg.group
  {
    hide LocalNumTokens;
    CeilBounds(cfg.Local(end), cfg.group);
    MulMonotone(CeilDiv(cfg.Local(end), cfg.group), |ids| * cfg.perManager, cfg.group);
  }

  lemma HoldsLonger(cfg: GroupConfig, ids: seq<nat>, ids': seq<nat>, end: nat)
    requires cfg.Valid() && ids <= ids' && Holds(cfg, ids, end)
    ensures Holds(cfg, ids', end)
  {
    hide LocalNumTokens, CeilDiv;
    MulMonotone(|ids|, |ids'|, cfg.perManager);
  }

  lemma HoldsNothing(cfg: GroupConfig, ids: seq<nat>)
    requires cfg.Valid()
    ensures Holds(cfg, ids, 0) && cfg.Local(0) == 0 && CeilDiv(cfg.Local(0), cfg.group) == 0
  {
    hide LocalNumTokens;
    CountOfZero(cfg.world, cfg.rank, cfg.interleave);
    CeilBounds(0, cfg.group);
    MulMonotone(0, |ids|, cfg.perManager);
  }

  /** Before its first token a request's data is in order, whatever the system holds. */
  lemma NothingToRead(cfg: GroupConfig, ids: seq<nat>, tag: nat, s: System)
    requires cfg.Valid() && Distinct(ids) && Partition(s.slots)
    ensures DataInvariant(cfg, ids, tag, s, 0, 0)
  {
    hide LocalNumTokens, Partition, CeilDiv, Readable, MappingAt;
    HoldsNothing(cfg, ids);
    MulMonotone(0, |ids| * cfg.perManager, cfg.group);
  }

  /** Growing the table changes nothing about the blocks reached so far. */
  lemma DataGrows(cfg: GroupConfig, ids: seq<nat>, ids': seq<nat>, tag: nat, s: System, start: nat, end: nat)
    requires cfg.Valid() && DataInvariant(cfg, ids, tag, s, start, end) && ids <= ids' && Distinct(ids')
    ensures DataInvariant(cfg, ids', tag, s, start, end)
  {
    hide LocalNumTokens, CeilDiv, PhysicalBlock, Distinct, FillAt, Partition, Readable, TagFrom, TagTo;
    HoldsLonger(cfg, ids, ids', end);
    RoomFor(cfg, ids', end);
    forall l: nat | Reached(cfg, ids', end, l)
      ensures MappingAt(cfg, ids', s.slots, start, end, l)
    {
      assert Reached(cfg, ids, end, l) && MappingAt(cfg, ids, s.slots, start, end, l);
      PhysicalPrefix(ids, ids', cfg.perManager, l);
    }
    forall j | 0 <= j < cfg.Local(end)
      ensures Readable(cfg, ids', tag, s, j)
    {
      assert Readable(cfg, ids, tag, s, j);
      SameToken(cfg, ids, ids', tag, j);
      SameReadable(cfg, ids, ids', tag, s, j);
    }
  }

  lemma SameToken(cfg: GroupConfig, ids: seq<nat>, ids': seq<nat>, tag: nat, j: nat)
    requires cfg.Valid() && ids <= ids' && j < |ids| * cfg.perManager * cfg.group
    ensures j < |ids'| * cfg.perManager * cfg.group && TokenWrite(cfg, ids', tag, j) == TokenWrite(cfg, ids, tag, j)
  {
    hide PhysicalBlock;
    MulMonotone(|ids|, |ids'|, cfg.perManager);
    MulMonotone(|ids| * cfg.perManager, |ids'| * cfg.perManager, cfg.group);
    ManagerBlockInRange(|ids| * cfg.perManager, j, cfg.group);
    PhysicalPrefix(ids, ids', cfg.perManager, j / cfg.group);
  }

  lemma SameReadable(cfg: GroupConfig, ids: seq<nat>, ids': seq<nat>, tag: nat, s: System, j: nat)
    requires cfg.Valid() && j < |ids| * cfg.perManager * cfg.group && j < |ids'| * cfg.perManager * cfg.group
    requires TokenWrite(cfg, ids', tag, j) == TokenWrite(cfg, ids, tag, j)
    ensures Readable(cfg, ids', tag, s, j) == Readable(cfg, ids, tag, s, j)
  {
    hide TokenWrite;
  }

  /** What the tracker keeps for the followed request. */
  lemma KeptAtEnd(configs: Configs, r: Id, g: GroupId, t: Tables, f: Follow, table: seq<nat>, end: nat)
    requires ValidConfigs(configs) && g in configs
    requires Follows(configs, ViewOf(t, r), f) && FollowAt(f, table, g, end)
    ensures GetOr(GetOr(t.requestBlocks, r, map[]), g, map[]) == WideBlocks(configs[g], table, end, end)
    ensures Holds(configs[g], table, end)
  {
    hide LocalNumTokens, WideBlocks, Holds, FullWithin, PendingOfTrack, InNoDoubt;
    match f
    case Absent =>
      NothingAtZero(configs[g], table);
      HoldsNothing(configs[g], table);
    case Tracked(k) =>
      assert InTables(configs, k.ids, g);
  }

  // ---- one call ----

  /** The followed request as a step finds it: a removed request starts over. */
  function Base(p: Point, r: Id, removed: set<Id>): Point {
    if r in removed then p.(follow := Absent, table := [], start := 0, end := 0) else p
  }

  /** One step as the followed request sees it: no rollback, started where it ended, its table
      shared with nobody, its new rows written. */
  ghost predicate OwnStep(configs: Configs, r: Id, names: iset<Id>, g: GroupId, p: Point, event: Event,
                          writes: seq<Write>, p': Point)
    requires ValidConfigs(configs) && g in configs && event.Step?
  {
    var base, cfg := Base(p, r, event.removed), configs[g];
    && Moves(configs, r, names, {}, p.follow, event, p'.follow)
    && Unshared(configs, p.system.tables, event, r, g, p'.table)
    && (if IsScheduled(r, event.requests, event.scheduled) then
          && GetOr(event.rollback, r, 0) == 0 && event.requests[r].computed == base.end
          && g < |event.requests[r].blockIds| && p'.table == event.requests[r].blockIds[g]
          && (forall s :: s in event.scheduled && s.req == r ==> base.end + s.tokens == p'.end)
        else p'.table == base.table && p'.end == base.end)
    && p'.start == base.end && (r in event.removed || p'.tag == p.tag)
    && (cfg.Local(p'.end) <= |p'.table| * cfg.perManager * cfg.group ==>
          WritesTagged(cfg, p'.table, p'.tag, writes, cfg.Local(base.end), cfg.Local(p'.end)))
  }

  /** One call of a run: a whole engine step, or a settlement, drop or forgetting for others. */
  ghost predicate RunStep(configs: Configs, r: Id, names: iset<Id>, g: GroupId, p: Point, event: Event,
                          writes: seq<Write>, p': Point)
    requires ValidConfigs(configs) && g in configs
  {
    if event.Step? then
      OwnStep(configs, r, names, g, p, event, writes, p') && SystemStep(configs, g, p.system, event, writes, p'.system)
    else
      && p' == p.(system := p.system.(tables := Apply(configs, p.system.tables, event)))
      && (event.Settle? ==> TableApart(configs, event.request, g, AllBlocks(p.table, configs[g].perManager)))
      && (event.Forget? ==> event.req != r)
  }

  lemma NoLatest(t: Tables, r: Id, names: iset<Id>)
    requires Epochs(t, r, names) && NoEpochOf(t, r)
    ensures LatestOf(t, r) == {}
  {
    hide EpochsCovered, SameEpochs;
  }

  lemma CallKeepsApart(configs: Configs, t: Tables, event: Event, r: Id, g: GroupId, own: set<nat>)
    requires ValidConfigs(configs) && EpochInvariant(t) && !event.Step?
    requires KeepApart(t, r, g, own) && NoEpochOf(t, r)
    requires event.Settle? ==> TableApart(configs, event.request, g, own)
    ensures KeepApart(Apply(configs, t, event), r, g, own) && NoEpochOf(Apply(configs, t, event), r)
  {
    hide KeepApart, NoEpochOf, TableApart, EpochInvariant, Resolve, Discard, MarkUnknown;
    match event
    case Settle(epoch, request, actual) => ResolveApart(configs, t, epoch, request, actual, r, g, own);
    case Drop(epoch) => DiscardApart(t, epoch, r, g, own);
    case Forget(req) => MarkApart(t, req, r, g, own);
  }

  /** Calls for others leave the followed request where it is. */
  lemma CallMoves(configs: Configs, r: Id, names: iset<Id>, f: Follow, event: Event)
    requires ValidConfigs(configs) && !event.Step? && (event.Forget? ==> event.req != r)
    ensures Moves(configs, r, names, {}, f, event, f)
  {
  }

  /** A call between steps. */
  lemma CallKeepsPoint(configs: Configs, r: Id, names: iset<Id>, g: GroupId, p: Point, event: Event, writes: seq<Write>,
                       p': Point)
    requires ValidConfigs(configs) && g in configs && !event.Step?
    requires PointOk(configs, r, names, g, p) && RunStep(configs, r, names, g, p, event, writes, p')
    ensures PointOk(configs, r, names, g, p')
  {
    hide LocalNumTokens, KeepApart, NoEpochOf, TableApart, AllBlocks, EpochInvariant, NamedApart, Follows, ViewOf;
    hide FollowAt;
    hide LatestOf, DataInvariant, Moves, Apply;
    var t := p.system.tables;
    NoLatest(t, r, names);
    CallMoves(configs, r, names, p.follow, event);
    MoveAgrees(configs, t, r, names, p.follow, event, p.follow);
    CallKeepsApart(configs, t, event, r, g, AllBlocks(p.table, configs[g].perManager));
    SameData(configs[g], p.table, p.tag, p.system, p'.system, p.start, p.end);
  }

  lemma SameData(cfg: GroupConfig, ids: seq<nat>, tag: nat, s: System, s': System, start: nat, end: nat)
    requires cfg.Valid() && DataInvariant(cfg, ids, tag, s, start, end)
    requires s'.slots == s.slots && s'.pool == s.pool && s'.packed == s.packed
    ensures DataInvariant(cfg, ids, tag, s', start, end)
  {
    hide LocalNumTokens, Distinct, Holds, SlotInvariant, TokenWrite;
    forall j | 0 <= j < cfg.Local(end)
      ensures Readable(cfg, ids, tag, s', j)
    {
      assert Readable(cfg, ids, tag, s, j);
    }
  }

  /** What is known of a scheduled step of the followed request. */
  lemma OwnSchedule(configs: Configs, r: Id, names: iset<Id>, g: GroupId, p: Point, event: Event, writes: seq<Write>,
                    p': Point, s: Schedule)
    requires ValidConfigs(configs) && g in configs && event.Step?
    requires OwnStep(configs, r, names, g, p, event, writes, p') && s in event.scheduled && s.req == r
    requires IsScheduled(r, event.requests, event.scheduled) && FollowAt(p.follow, p.table, g, p.end)
    ensures var base := Base(p, r, event.removed);
      && p'.end == base.end + s.tokens && Holds(configs[g], p'.table, p'.end) && Distinct(p'.table)
      && FollowAt(p'.follow, p'.table, g, p'.end) && base.table <= p'.table
  {
    hide LocalNumTokens, Holds, Distinct, Unshared, WritesTagged, ScheduledPending;
    var base := Base(p, r, event.removed);
    assert Enters(configs, {}, EpochName(event.epochs, r), base.follow, event.requests[r], s.tokens, 0, p'.follow);
    assert InTables(configs, event.requests[r].blockIds, g);
  }

  lemma StepKeepsTables(configs: Configs, r: Id, names: iset<Id>, g: GroupId, p: Point, event: Event,
                        writes: seq<Write>, p': Point)
    requires ValidConfigs(configs) && g in configs && event.Step? && TableInvariant(configs, r, names, g, p)
    requires OwnStep(configs, r, names, g, p, event, writes, p')
    requires p'.system.tables == Apply(configs, p.system.tables, event)
    ensures var base := Base(p, r, event.removed);
      && base.end <= p'.end && TableInvariant(configs, r, names, g, p')
      && StepOf(configs, p'.system.tables, g, p'.table, TagFrom(configs[g], base.end, p'.end),
                TagTo(configs[g], base.end, p'.end), configs[g].Local(p'.end))
  {
    hide LocalNumTokens, Holds, KeepApart, NoEpochOf, Agrees, AllBlocks, StepOf, Apply, TagFrom, TagTo, Distinct;
    hide EpochInvariant, NamedApart, ViewOf, LatestOf, Unshared, WritesTagged, FollowAt, NamesApart, Enters;
    var base := Base(p, r, event.removed);
    NoLatest(p.system.tables, r, names);
    MoveAgrees(configs, p.system.tables, r, names, p.follow, event, p'.follow);
    if IsScheduled(r, event.requests, event.scheduled) {
      var j :| 0 <= j < |event.scheduled| && event.scheduled[j].req == r;
      OwnSchedule(configs, r, names, g, p, event, writes, p', event.scheduled[j]);
    } else {
      BaseFollows(p, r, event.removed, g);
    }
    UpdateTagged(configs, p.system.tables, event, r, names, g, p'.table, base.end, p'.end);
  }

  lemma BaseFollows(p: Point, r: Id, removed: set<Id>, g: GroupId)
    requires FollowAt(p.follow, p.table, g, p.end)
    ensures var base := Base(p, r, removed); FollowAt(base.follow, base.table, g, base.end)
  {
  }

  lemma PreparedSlots(before: PoolState, fills: Blocks, after: PoolState, b: nat)
    requires Prepared(before, fills, after)
    ensures b in after.mapping <==> b in fills
    ensures b in fills && fills[b].Known? ==> b in after.fill && after.fill[b] == fills[b].tokens
    ensures b in fills && b in before.mapping ==> after.mapping[b] == before.mapping[b]
  {
  }

  lemma SlotsAfterStep(configs: Configs, t: Tables, r: Id, g: GroupId, mine: seq<nat>, before: PoolState,
                       after: PoolState, start: nat, end: nat)
    requires ValidConfigs(configs) && g in configs && Distinct(mine) && start <= end
    requires KeepApart(t, r, g, AllBlocks(mine, configs[g].perManager))
    requires StepOf(configs, t, g, mine, TagFrom(configs[g], start, end), TagTo(configs[g], start, end),
                    configs[g].Local(end))
    requires GetOr(GetOr(t.requestBlocks, r, map[]), g, map[]) == WideBlocks(configs[g], mine, end, end)
    requires Prepared(before, BlockFills(t, g), after) && Partition(after)
    ensures SlotInvariant(configs[g], mine, after, start, end)
  {
    hide LocalNumTokens, NeedsLogical, WideBlocks, KeepApart, StepOf, TagFrom, TagTo, BlockFills, Prepared, Partition;
    hide FillAt, PhysicalBlock, AllBlocks, Distinct, CeilDiv;
    var cfg := configs[g];
    forall l: nat | Reached(cfg, mine, end, l)
      ensures MappingAt(cfg, mine, after, start, end, l)
    {
      NeededAt(configs, t, r, g, mine, start, end, l);
      PreparedSlots(before, BlockFills(t, g), after, PhysicalBlock(mine, l, cfg.perManager));
    }
  }

  /** A full block that is mapped and no longer needed is flushed from its slot. */
  lemma FlushedAtRetirement(s: PoolState, fills: Blocks, group: nat, b: nat)
    requires b in s.mapping && b !in fills && b in s.fill && s.fill[b] == group
    ensures b in Flushed(s, fills, group) && Flushed(s, fills, group)[b] == s.mapping[b]
  {
  }

  lemma FlushedWasMapped(s: PoolState, fills: Blocks, group: nat, b: nat)
    requires b in Flushed(s, fills, group)
    ensures b in s.mapping && b !in fills
  {
  }

  lemma SamePlace(cfg: GroupConfig, ids: seq<nat>, tag: nat, i: nat, j: nat)
    requires cfg.Valid() && Distinct(ids)
    requires i < |ids| * cfg.perManager * cfg.group && j < |ids| * cfg.perManager * cfg.group
    requires TokenWrite(cfg, ids, tag, i).block == TokenWrite(cfg, ids, tag, j).block
    requires TokenWrite(cfg, ids, tag, i).offset == TokenWrite(cfg, ids, tag, j).offset
    ensures i == j
  {
    hide PhysicalBlock;
    ManagerBlockInRange(|ids| * cfg.perManager, i, cfg.group);
    ManagerBlockInRange(|ids| * cfg.perManager, j, cfg.group);
    PhysicalInjective(ids, cfg.perManager, i / cfg.group, j / cfg.group);
    SameParts(i, j, cfg.group);
  }

  lemma BlockOf(cfg: GroupConfig, ids: seq<nat>, tag: nat, j: nat)
    requires cfg.Valid() && j < |ids| * cfg.perManager * cfg.group
    ensures InTable(ids, j / cfg.group, cfg.perManager)
    ensures TokenWrite(cfg, ids, tag, j).block == PhysicalBlock(ids, j / cfg.group, cfg.perManager)
    ensures TokenWrite(cfg, ids, tag, j).block in AllBlocks(ids, cfg.perManager)
  {
    hide PhysicalBlock, AllBlocks;
    ManagerBlockInRange(|ids| * cfg.perManager, j, cfg.group);
    OwnInAll(ids, cfg.perManager, j / cfg.group);
  }

  /** New rows miss every earlier token's place and hit their own. */
  lemma WritesMissOld(cfg: GroupConfig, ids: seq<nat>, tag: nat, writes: seq<Write>, lo: nat, hi: nat, j: nat)
    requires cfg.Valid() && Distinct(ids) && hi <= |ids| * cfg.perManager * cfg.group
    requires WritesTagged(cfg, ids, tag, writes, lo, hi) && j < lo <= hi
    ensures var w := TokenWrite(cfg, ids, tag, j);
      forall v :: v in writes ==> !Hits(v, w.block, w.offset)
  {
    hide PhysicalBlock, AllBlocks;
    var w := TokenWrite(cfg, ids, tag, j);
    forall v | v in writes
      ensures !Hits(v, w.block, w.offset)
    {
      if Hits(v, w.block, w.offset) {
        BlockOf(cfg, ids, tag, j);
        var i :| lo <= i < hi && v == TokenWrite(cfg, ids, tag, i);
        SamePlace(cfg, ids, tag, i, j);
        assert false;
      }
    }
  }

  lemma WritesHitNew(cfg: GroupConfig, ids: seq<nat>, tag: nat, writes: seq<Write>, lo: nat, hi: nat, j: nat)
    requires cfg.Valid() && Distinct(ids) && hi <= |ids| * cfg.perManager * cfg.group
    requires WritesTagged(cfg, ids, tag, writes, lo, hi) && lo <= j < hi
    ensures var w := TokenWrite(cfg, ids, tag, j);
      && w in writes
      && forall v :: v in writes && Hits(v, w.block, w.offset) ==> v.row == w.row
  {
    hide PhysicalBlock, AllBlocks;
    var w := TokenWrite(cfg, ids, tag, j);
    forall v | v in writes && Hits(v, w.block, w.offset)
      ensures v.row == w.row
    {
      BlockOf(cfg, ids, tag, j);
      var i :| lo <= i < hi && v == TokenWrite(cfg, ids, tag, i);
      SamePlace(cfg, ids, tag, i, j);
    }
  }

  /** Facts of one step that concern the contents of one logical block. */
  ghost predicate DataStep(cfg: GroupConfig, ids: seq<nat>, tag: nat, s: System, fills: Blocks, writes: seq<Write>,
                           s': System, start: nat, end: nat, end': nat)
    requires cfg.Valid()
  {
    && Distinct(ids) && start <= end <= end'
    && Holds(cfg, ids, end) && Holds(cfg, ids, end')
    && cfg.Local(end) <= cfg.Local(end') <= |ids| * cfg.perManager * cfg.group
    && SlotInvariant(cfg, ids, s.slots, start, end) && SlotInvariant(cfg, ids, s'.slots, end, end')
    && Prepared(s.slots, fills, s'.slots)
    && s'.packed == Flush(s.pool, s.packed, Flushed(s.slots, fills, cfg.group), cfg.group)
    && s'.pool == Scatter(s.pool, s'.slots.mapping, writes)
    && WritesTagged(cfg, ids, tag, writes, cfg.Local(end), cfg.Local(end'))
  }

  /** A token that was readable stays readable. */
  lemma OldStaysReadable(cfg: GroupConfig, ids: seq<nat>, tag: nat, s: System, fills: Blocks, writes: seq<Write>,
                         s': System, start: nat, end: nat, end': nat, j: nat)
    requires cfg.Valid() && DataStep(cfg, ids, tag, s, fills, writes, s', start, end, end')
    requires j < cfg.Local(end) && Readable(cfg, ids, tag, s, j)
    ensures Readable(cfg, ids, tag, s', j)
  {
    hide LocalNumTokens, NeedsLogical, Prepared, FillAt, PhysicalBlock, WritesTagged, Holds, Scatter, Flushed;
    hide Partition, CeilDiv;
    var w, l := TokenWrite(cfg, ids, tag, j), j / cfg.group;
    BlockOf(cfg, ids, tag, j);
    ReachedBlock(j, cfg.Local(end), cfg.group);
    ReachedBlock(j, cfg.Local(end'), cfg.group);
    assert Reached(cfg, ids, end, l) && Reached(cfg, ids, end', l);
    assert MappingAt(cfg, ids, s.slots, start, end, l) && MappingAt(cfg, ids, s'.slots, end, end', l);
    PreparedSlots(s.slots, fills, s'.slots, w.block);
    if w.block in s.slots.mapping {
      if w.block in s'.slots.mapping {
        PartitionInjective(s'.slots);
        WritesMissOld(cfg, ids, tag, writes, cfg.Local(end), cfg.Local(end'), j);
        ScatterKeeps(s.pool, s'.slots.mapping, writes, w.block, w.offset);
      } else {
        RetiredIsFull(cfg, ids, end, end', l);
        FlushedAtRetirement(s.slots, fills, cfg.group, w.block);
      }
    } else {
      RetiredForGood(cfg, ids, start, end, end', l);
      if w.block in Flushed(s.slots, fills, cfg.group) {
        FlushedWasMapped(s.slots, fills, cfg.group, w.block);
      }
    }
  }

  lemma PartitionInjective(s: PoolState)
    requires Partition(s)
    ensures Injective(s.mapping)
  {
  }

  /** A token written in this step is readable from its slot. */
  lemma NewIsReadable(cfg: GroupConfig, ids: seq<nat>, tag: nat, s: System, fills: Blocks, writes: seq<Write>,
                      s': System, start: nat, end: nat, end': nat, j: nat)
    requires cfg.Valid() && DataStep(cfg, ids, tag, s, fills, writes, s', start, end, end')
    requires cfg.Local(end) <= j < cfg.Local(end')
    ensures Readable(cfg, ids, tag, s', j)
  {
    hide LocalNumTokens, NeedsLogical, Prepared, FillAt, PhysicalBlock, WritesTagged, Holds, Scatter, Flushed;
    hide Partition, CeilDiv;
    var w, l := TokenWrite(cfg, ids, tag, j), j / cfg.group;
    BlockOf(cfg, ids, tag, j);
    WrittenIsNeeded(cfg, ids, end, end', j, l);
    ReachedBlock(j, cfg.Local(end'), cfg.group);
    assert Reached(cfg, ids, end', l);
    assert MappingAt(cfg, ids, s'.slots, end, end', l);
    WritesHitNew(cfg, ids, tag, writes, cfg.Local(end), cfg.Local(end'), j);
    PartitionInjective(s'.slots);
    ScatterSets(s.pool, s'.slots.mapping, writes, w.block, w.offset, w.row);
  }

  // ---- whole runs ----

  /** The followed request's data when the step starts, seen through its new table. */
  lemma BaseData(configs: Configs, r: Id, names: iset<Id>, g: GroupId, p: Point, event: Event, writes: seq<Write>,
                 p': Point)
    requires ValidConfigs(configs) && g in configs && event.Step? && PointOk(configs, r, names, g, p)
    requires OwnStep(configs, r, names, g, p, event, writes, p')
    ensures var base := Base(p, r, event.removed);
      && DataInvariant(configs[g], p'.table, p'.tag, p.system, base.start, base.end)
      && Holds(configs[g], p'.table, p'.end)
  {
    hide LocalNumTokens, Holds, Distinct, SlotInvariant, Readable, KeepApart, NoEpochOf, Agrees, Moves, Unshared;
    hide WritesTagged, FollowAt, DataInvariant;
    var base, cfg := Base(p, r, event.removed), configs[g];
    DataFacts(cfg, p.table, p.tag, p.system, p.start, p.end);
    NoRepetitions();
    if IsScheduled(r, event.requests, event.scheduled) {
      var j :| 0 <= j < |event.scheduled| && event.scheduled[j].req == r;
      OwnSchedule(configs, r, names, g, p, event, writes, p', event.scheduled[j]);
      if r in event.removed {
        NothingToRead(cfg, p'.table, p'.tag, p.system);
      } else {
        DataGrows(cfg, p.table, p'.table, p.tag, p.system, p.start, p.end);
      }
    } else if r in event.removed {
      NothingToRead(cfg, [], p'.tag, p.system);
      HoldsNothing(cfg, []);
    }
  }

  lemma NoRepetitions()
    ensures Distinct([])
  {
  }

  lemma DataFacts(cfg: GroupConfig, ids: seq<nat>, tag: nat, s: System, start: nat, end: nat)
    requires cfg.Valid() && DataInvariant(cfg, ids, tag, s, start, end)
    ensures Distinct(ids) && Holds(cfg, ids, end) && Partition(s.slots) && start <= end
  {
    hide LocalNumTokens, Readable, MappingAt;
  }

  lemma StepKeepsPoint(configs: Configs, r: Id, names: iset<Id>, g: GroupId, p: Point, event: Event, writes: seq<Write>,
                       p': Point)
    requires ValidConfigs(configs) && g in configs && event.Step? && PointOk(configs, r, names, g, p)
    requires RunStep(configs, r, names, g, p, event, writes, p')
    ensures PointOk(configs, r, names, g, p')
  {
    hide LocalNumTokens, TableInvariant, SlotInvariant, Readable, Holds, WritesTagged, Apply, Prepared, KeepApart;
    hide StepOf;
    hide BlockFills, Flushed, Flush, Scatter, TagFrom, TagTo, WideBlocks, Distinct, AllBlocks, DataStep, Partition;
    hide Moves, Unshared, DataInvariant;
    var base, cfg := Base(p, r, event.removed), configs[g];
    var s, s', ids, tag := p.system, p'.system, p'.table, p'.tag;
    StepKeepsTables(configs, r, names, g, p, event, writes, p');
    BaseData(configs, r, names, g, p, event, writes, p');
    DataFacts(cfg, ids, tag, s, base.start, base.end);
    TableFacts(configs, r, names, g, p');
    KeptAtEnd(configs, r, g, s'.tables, p'.follow, ids, p'.end);
    SlotsAfterStep(configs, s'.tables, r, g, ids, s.slots, s'.slots, base.end, p'.end);
    RoomFor(cfg, ids, p'.end);
    StepIsData(cfg, ids, tag, s, BlockFills(s'.tables, g), writes, s', base.start, base.end, p'.end);
    StepKeepsData(cfg, ids, tag, s, BlockFills(s'.tables, g), writes, s', base.start, base.end, p'.end);
  }

  lemma TableFacts(configs: Configs, r: Id, names: iset<Id>, g: GroupId, p: Point)
    requires ValidConfigs(configs) && g in configs && TableInvariant(configs, r, names, g, p)
    ensures KeepApart(p.system.tables, r, g, AllBlocks(p.table, configs[g].perManager))
    ensures Follows(configs, ViewOf(p.system.tables, r), p.follow) && FollowAt(p.follow, p.table, g, p.end)
  {
  }

  lemma StepIsData(cfg: GroupConfig, ids: seq<nat>, tag: nat, s: System, fills: Blocks, writes: seq<Write>, s': System,
                   start: nat, end: nat, end': nat)
    requires cfg.Valid() && DataInvariant(cfg, ids, tag, s, start, end) && end <= end'
    requires SlotInvariant(cfg, ids, s'.slots, end, end') && Holds(cfg, ids, end')
    requires cfg.Local(end') <= |ids| * cfg.perManager * cfg.group && Prepared(s.slots, fills, s'.slots)
    requires s'.packed == Flush(s.pool, s.packed, Flushed(s.slots, fills, cfg.group), cfg.group)
    requires s'.pool == Scatter(s.pool, s'.slots.mapping, writes)
    requires WritesTagged(cfg, ids, tag, writes, cfg.Local(end), cfg.Local(end'))
    ensures DataStep(cfg, ids, tag, s, fills, writes, s', start, end, end')
  {
    hide LocalNumTokens, Holds, WritesTagged, Prepared, Flushed, Flush, Scatter, MappingAt, Partition, Readable;
    hide Distinct;
    CountMonotone(end, end', cfg.world, cfg.rank, cfg.interleave);
  }

  lemma StepKeepsData(cfg: GroupConfig, ids: seq<nat>, tag: nat, s: System, fills: Blocks, writes: seq<Write>,
                      s': System,
                      start: nat, end: nat, end': nat)
    requires cfg.Valid() && DataStep(cfg, ids, tag, s, fills, writes, s', start, end, end')
    requires DataInvariant(cfg, ids, tag, s, start, end)
    ensures DataInvariant(cfg, ids, tag, s', end, end')
  {
    hide LocalNumTokens, Holds, WritesTagged, Prepared, Flushed, Flush, Scatter, MappingAt, Partition, Readable;
    hide Distinct;
    hide SlotInvariant;
    forall j: nat | j < cfg.Local(end')
      ensures Readable(cfg, ids, tag, s', j)
    {
      if j < cfg.Local(end) {
        assert Readable(cfg, ids, tag, s, j);
        OldStaysReadable(cfg, ids, tag, s, fills, writes, s', start, end, end', j);
      } else {
        NewIsReadable(cfg, ids, tag, s, fills, writes, s', start, end, end', j);
      }
    }
  }

  /** A run of the whole system in which request `r` is followed. */
  ghost predicate SystemRun(configs: Configs, r: Id, names: iset<Id>, g: GroupId, points: seq<Point>,
                            events: seq<Event>, writes: seq<seq<Write>>)
    requires ValidConfigs(configs) && g in configs
  {
    && |points| == |events| + 1 && |writes| == |events|
    && StartsEmpty(points[0])
    && forall k :: 0 <= k < |events| ==> RunStep(configs, r, names, g, points[k], events[k], writes[k], points[k + 1])
  }

  ghost predicate StartsEmpty(p: Point) {
    && p.system.tables == NO_TABLES && p.system.slots.mapping == map[] && Partition(p.system.slots)
    && p.follow == Absent && p.table == [] && p.start == p.end == 0
  }

  lemma StartIsSafe(configs: Configs, r: Id, names: iset<Id>, g: GroupId, p: Point)
    requires ValidConfigs(configs) && g in configs && StartsEmpty(p)
    ensures PointOk(configs, r, names, g, p)
  {
    hide LocalNumTokens, AllBlocks, Partition, DataInvariant, ViewOf;
    NothingAgrees(configs, r, names);
    NothingToRead(configs[g], [], p.tag, p.system);
  }

  lemma {:induction false} SystemStaysSafe(configs: Configs, r: Id, names: iset<Id>, g: GroupId, points: seq<Point>,
                                           events: seq<Event>, writes: seq<seq<Write>>, k: nat)
    requires ValidConfigs(configs) && g in configs
    requires SystemRun(configs, r, names, g, points, events, writes) && k <= |events|
    ensures PointOk(configs, r, names, g, points[k])
  {
    hide PointOk, RunStep, StartsEmpty;
    if k == 0 {
      StartIsSafe(configs, r, names, g, points[0]);
    } else {
      SystemStaysSafe(configs, r, names, g, points, events, writes, k - 1);
      assert RunStep(configs, r, names, g, points[k - 1], events[k - 1], writes[k - 1], points[k]);
      if events[k - 1].Step? {
        StepKeepsPoint(configs, r, names, g, points[k - 1], events[k - 1], writes[k - 1], points[k]);
      } else {
        CallKeepsPoint(configs, r, names, g, points[k - 1], events[k - 1], writes[k - 1], points[k]);
      }
    }
  }

  /** No tile is lost: after every call of every run, every token of the followed request on this
      rank is in its block's slot, or in the tile flushed when that block was complete. */
  lemma NoTileIsLost(configs: Configs, r: Id, names: iset<Id>, g: GroupId, points: seq<Point>, events: seq<Event>,
                     writes: seq<seq<Write>>, k: nat, j: nat)
    requires ValidConfigs(configs) && g in configs
    requires SystemRun(configs, r, names, g, points, events, writes) && k <= |events|
    requires j < configs[g].Local(points[k].end)
    ensures j < |points[k].table| * configs[g].perManager * configs[g].group
    ensures Readable(configs[g], points[k].table, points[k].tag, points[k].system, j)
  {
    hide LocalNumTokens, Readable, SlotInvariant, TableInvariant, SystemRun, Holds, Distinct;
    SystemStaysSafe(configs, r, names, g, points, events, writes, k);
  }

  /** One call moves no retired block back and leaves its packed tile alone. */
  lemma RetiredStays(configs: Configs, r: Id, names: iset<Id>, g: GroupId, p: Point, event: Event, writes: seq<Write>,
                     p': Point, l: nat)
    requires ValidConfigs(configs) && g in configs && PointOk(configs, r, names, g, p)
    requires PointOk(configs, r, names, g, p')
    requires RunStep(configs, r, names, g, p, event, writes, p') && (event.Step? ==> r !in event.removed)
    requires Reached(configs[g], p.table, p.end, l)
    requires PhysicalBlock(p.table, l, configs[g].perManager) !in p.system.slots.mapping
    ensures Reached(configs[g], p'.table, p'.end, l)
    ensures var b := PhysicalBlock(p.table, l, configs[g].perManager);
      && b == PhysicalBlock(p'.table, l, configs[g].perManager) && b !in p'.system.slots.mapping
      && (b in p.system.packed ==> b in p'.system.packed && p'.system.packed[b] == p.system.packed[b])
  {
    hide LocalNumTokens, PhysicalBlock, CeilDiv, NeedsLogical, WritesTagged, Apply, Prepared, Partition;
    hide BlockFills, Flushed, Holds, Moves, Unshared, DataInvariant, StepOf, TableInvariant, Scatter;
    if event.Step? {
      var cfg := configs[g];
      var b := PhysicalBlock(p.table, l, cfg.perManager);
      StepKeepsTables(configs, r, names, g, p, event, writes, p');
      BaseData(configs, r, names, g, p, event, writes, p');
      TableGrew(configs, r, names, g, p, event, writes, p');
      PhysicalPrefix(p.table, p'.table, cfg.perManager, l);
      CountMonotone(p.end, p'.end, cfg.world, cfg.rank, cfg.interleave);
      CeilMonotone(cfg.Local(p.end), cfg.Local(p'.end), cfg.group);
      MappingOf(cfg, p'.table, p'.tag, p.system, p.start, p.end, l);
      MappingOf(cfg, p'.table, p'.tag, p'.system, p'.start, p'.end, l);
      RetiredForGood(cfg, p'.table, p.start, p.end, p'.end, l);
      if b in Flushed(p.system.slots, BlockFills(p'.system.tables, g), cfg.group) {
        FlushedWasMapped(p.system.slots, BlockFills(p'.system.tables, g), cfg.group, b);
      }
    }
  }

  lemma MappingOf(cfg: GroupConfig, ids: seq<nat>, tag: nat, s: System, start: nat, end: nat, l: nat)
    requires cfg.Valid() && DataInvariant(cfg, ids, tag, s, start, end) && Reached(cfg, ids, end, l)
    ensures MappingAt(cfg, ids, s.slots, start, end, l) && Holds(cfg, ids, end)
  {
    hide LocalNumTokens, Readable, Partition;
  }

  /** A step that does not remove the request only extends its table. */
  lemma TableGrew(configs: Configs, r: Id, names: iset<Id>, g: GroupId, p: Point, event: Event, writes: seq<Write>,
                  p': Point)
    requires ValidConfigs(configs) && g in configs && event.Step? && r !in event.removed
    requires TableInvariant(configs, r, names, g, p) && OwnStep(configs, r, names, g, p, event, writes, p')
    ensures p.table <= p'.table
  {
    hide LocalNumTokens, Holds, Distinct, Unshared, WritesTagged, Agrees, KeepApart;
    if IsScheduled(r, event.requests, event.scheduled) {
      var j :| 0 <= j < |event.scheduled| && event.scheduled[j].req == r;
      OwnSchedule(configs, r, names, g, p, event, writes, p', event.scheduled[j]);
    }
  }

  /** While the request is tracked, a block that was reached and released never comes back, and
      its packed tile stays as it was. */
  lemma {:induction false} RetiredNeverReturns(configs: Configs, r: Id, names: iset<Id>, g: GroupId, points: seq<Point>,
                                               events: seq<Event>, writes: seq<seq<Write>>, k: nat, k': nat, l: nat)
    requires ValidConfigs(configs) && g in configs
    requires SystemRun(configs, r, names, g, points, events, writes) && k <= k' <= |events|
    requires forall i :: k <= i < k' && events[i].Step? ==> r !in events[i].removed
    requires Reached(configs[g], points[k].table, points[k].end, l)
    requires PhysicalBlock(points[k].table, l, configs[g].perManager) !in points[k].system.slots.mapping
    ensures var b := PhysicalBlock(points[k].table, l, configs[g].perManager);
      && b !in points[k'].system.slots.mapping
      && (b in points[k].system.packed ==>
            b in points[k'].system.packed && points[k'].system.packed[b] == points[k].system.packed[b])
    decreases k' - k
  {
    hide LocalNumTokens, PhysicalBlock, CeilDiv, PointOk, RunStep, StartsEmpty;
    if k < k' {
      SystemStaysSafe(configs, r, names, g, points, events, writes, k);
      SystemStaysSafe(configs, r, names, g, points, events, writes, k + 1);
      RetiredStays(configs, r, names, g, points[k], events[k], writes[k], points[k + 1], l);
      RetiredNeverReturns(configs, r, names, g, points, events, writes, k + 1, k', l);
    }
  }
}
