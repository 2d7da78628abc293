/** The configured pool suffices for whole runs of the system.

    A step that finds the pool too small releases the retired slots and fails.  With the configured
    number of slots no step within the scheduler's limits ever does, so over such runs no tile is
    lost, without assuming that any step succeeds. */
module PoolSuffices {
  import opened Ownership
  import opened EpochSafety
  import opened PoolBound
  import opened ExactPool
  import opened TileSafety

  /** One engine step, whether or not the pool is large enough: what is flushed is written either
      way, the new rows only if the step is prepared. */
  ghost predicate EngineStep(configs: Configs, g: GroupId, s: System, event: Event, writes: seq<Write>, s': System)
    requires ValidConfigs(configs) && g in configs
  {
    var fills, group := BlockFills(s'.tables, g), configs[g].group;
    && s'.tables == Apply(configs, s.tables, event) && Partition(s'.slots)
    && s'.packed == Flush(s.pool, s.packed, Flushed(s.slots, fills, group), group)
    && (if |fills| <= s.slots.size then
          Prepared(s.slots, fills, s'.slots) && s'.pool == Scatter(s.pool, s'.slots.mapping, writes)
        else Released(s.slots, fills, s'.slots) && s'.pool == s.pool)
  }

  ghost predicate EngineCall(configs: Configs, r: Id, names: iset<Id>, g: GroupId, p: Point, event: Event,
                             writes: seq<Write>, p': Point)
    requires ValidConfigs(configs) && g in configs
  {
    if event.Step? then
      OwnStep(configs, r, names, g, p, event, writes, p') && EngineStep(configs, g, p.system, event, writes, p'.system)
    else RunStep(configs, r, names, g, p, event, writes, p')
  }

  /** A run of the whole system in which steps may fail. */
  ghost predicate EngineRun(configs: Configs, r: Id, names: iset<Id>, g: GroupId, points: seq<Point>,
                            events: seq<Event>, writes: seq<seq<Write>>)
    requires ValidConfigs(configs) && g in configs
  {
    && |points| == |events| + 1 && |writes| == |events|
    && StartsEmpty(points[0])
    && forall k :: 0 <= k < |events| ==>
         EngineCall(configs, r, names, g, points[k], events[k], writes[k], points[k + 1])
  }

  lemma CallKeepsSize(configs: Configs, r: Id, names: iset<Id>, g: GroupId, p: Point, event: Event,
                      writes: seq<Write>, p': Point)
    requires ValidConfigs(configs) && g in configs && EngineCall(configs, r, names, g, p, event, writes, p')
    ensures p'.system.tables == Apply(configs, p.system.tables, event)
    ensures p'.system.slots.size == p.system.slots.size
  {
    hide OwnStep, Apply, Partition, Flush, Scatter, BlockFills, Flushed, RunStep;
    if !event.Step? {
      CallKeepsSlots(configs, r, names, g, p, event, writes, p');
    }
  }

  lemma CallKeepsSlots(configs: Configs, r: Id, names: iset<Id>, g: GroupId, p: Point, event: Event,
                       writes: seq<Write>, p': Point)
    requires ValidConfigs(configs) && g in configs && RunStep(configs, r, names, g, p, event, writes, p')
    requires !event.Step?
    ensures p'.system == p.system.(tables := Apply(configs, p.system.tables, event))
  {
    hide Apply;
  }

  /** The tracker's tables and the pool's size at every moment of a run. */
  lemma {:induction false} RunTables(configs: Configs, r: Id, names: iset<Id>, g: GroupId, points: seq<Point>,
                                     events: seq<Event>, writes: seq<seq<Write>>, k: nat)
    requires ValidConfigs(configs) && g in configs
    requires EngineRun(configs, r, names, g, points, events, writes) && k <= |events|
    ensures points[k].system.tables == Run(configs, events[..k])
    ensures points[k].system.slots.size == points[0].system.slots.size
  {
    hide EngineCall, Apply;
    if k > 0 {
      RunTables(configs, r, names, g, points, events, writes, k - 1);
      assert EngineCall(configs, r, names, g, points[k - 1], events[k - 1], writes[k - 1], points[k]);
      CallKeepsSize(configs, r, names, g, points[k - 1], events[k - 1], writes[k - 1], points[k]);
      assert events[..k][..k - 1] == events[..k - 1];
    }
  }

  lemma PrefixWithinLimits(configs: Configs, events: seq<Event>, maxSeqs: nat, maxTokens: nat, n: nat)
    requires ValidConfigs(configs) && n <= |events| && RunWithinLimits(configs, events, maxSeqs, maxTokens)
    ensures RunWithinLimits(configs, events[..n], maxSeqs, maxTokens)
  {
    hide WithinLimits, Run, Live;
    var front := events[..n];
    forall k | 0 <= k < |front|
      ensures StepWithinLimits(configs, front, k, maxSeqs, maxTokens)
    {
      assert StepWithinLimits(configs, events, k, maxSeqs, maxTokens);
      assert front[..k + 1] == events[..k + 1] && front[..k] == events[..k];
    }
  }

  /** The blocks a step needs fit the configured pool. */
  lemma StepFits(configs: Configs, r: Id, names: iset<Id>, g: GroupId, points: seq<Point>, events: seq<Event>,
                 writes: seq<seq<Write>>, maxSeqs: nat, maxTokens: nat, k: nat)
    requires ValidConfigs(configs) && g in configs && k < |events|
    requires EngineRun(configs, r, names, g, points, events, writes)
    requires RunWithinLimits(configs, events, maxSeqs, maxTokens)
    requires points[0].system.slots.size == PoolSlots(configs[g], maxSeqs, maxTokens, 0)
    ensures |BlockFills(points[k + 1].system.tables, g)| + 8 <= points[k].system.slots.size
  {
    hide EngineRun, RunWithinLimits, PoolSlots, Run, BlockFills;
    RunTables(configs, r, names, g, points, events, writes, k);
    RunTables(configs, r, names, g, points, events, writes, k + 1);
    PrefixWithinLimits(configs, events, maxSeqs, maxTokens, k + 1);
    PoolNeverExhausts(configs, events[..k + 1], maxSeqs, maxTokens, g);
  }

  lemma FittingStepPrepares(configs: Configs, r: Id, names: iset<Id>, g: GroupId, p: Point, event: Event,
                            writes: seq<Write>, p': Point)
    requires ValidConfigs(configs) && g in configs && EngineCall(configs, r, names, g, p, event, writes, p')
    requires |BlockFills(p'.system.tables, g)| <= p.system.slots.size
    ensures RunStep(configs, r, names, g, p, event, writes, p')
  {
    hide OwnStep, Apply, Partition, Flush, Scatter, BlockFills, Flushed, Prepared;
  }

  /** With the configured pool every step of a run within the limits prepares, with eight slots to
      spare: a run in which steps might fail is one in which none does. */
  lemma EveryStepPrepares(configs: Configs, r: Id, names: iset<Id>, g: GroupId, points: seq<Point>,
                          events: seq<Event>, writes: seq<seq<Write>>, maxSeqs: nat, maxTokens: nat)
    requires ValidConfigs(configs) && g in configs
    requires EngineRun(configs, r, names, g, points, events, writes)
    requires RunWithinLimits(configs, events, maxSeqs, maxTokens)
    requires points[0].system.slots.size == PoolSlots(configs[g], maxSeqs, maxTokens, 0)
    ensures SystemRun(configs, r, names, g, points, events, writes)
    ensures forall k :: 0 <= k < |events| ==>
      |BlockFills(points[k + 1].system.tables, g)| + 8 <= points[k].system.slots.size
  {
    hide EngineCall, RunStep, RunWithinLimits, PoolSlots, BlockFills, StartsEmpty;
    forall k | 0 <= k < |events|
      ensures |BlockFills(points[k + 1].system.tables, g)| + 8 <= points[k].system.slots.size
      ensures RunStep(configs, r, names, g, points[k], events[k], writes[k], points[k + 1])
    {
      StepFits(configs, r, names, g, points, events, writes, maxSeqs, maxTokens, k);
      FittingStepPrepares(configs, r, names, g, points[k], events[k], writes[k], points[k + 1]);
    }
  }

  /** So in such runs every token written on this rank can be read after every step, and no step is
      assumed to succeed. */
  lemma ConfiguredPoolLosesNothing(configs: Configs, r: Id, names: iset<Id>, g: GroupId, points: seq<Point>,
                                   events: seq<Event>, writes: seq<seq<Write>>, maxSeqs: nat, maxTokens: nat,
                                   k: nat, j: nat)
    requires ValidConfigs(configs) && g in configs
    requires EngineRun(configs, r, names, g, points, events, writes)
    requires RunWithinLimits(configs, events, maxSeqs, maxTokens)
    requires points[0].system.slots.size == PoolSlots(configs[g], maxSeqs, maxTokens, 0)
    requires k <= |events| && j < configs[g].Local(points[k].end)
    ensures j < |points[k].table| * configs[g].perManager * configs[g].group
    ensures Readable(configs[g], points[k].table, points[k].tag, points[k].system, j)
  {
    hide EngineRun, SystemRun, RunWithinLimits, PoolSlots, Readable;
    EveryStepPrepares(configs, r, names, g, points, events, writes, maxSeqs, maxTokens);
    NoTileIsLost(configs, r, names, g, points, events, writes, k, j);
  }
}
