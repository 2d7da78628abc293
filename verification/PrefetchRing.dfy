/** Cross-layer prefetch of the gathered cache: one lane's lookahead state and the stream operations
    each layer queues. */
module PrefetchRing {
  import opened Sharding
  import opened RingOrder

  /** A layer's registered cache; a layer never registered has none. */
  datatype Cache = Missing | Cache(owner: nat, dtype: int, geometry: int)

  /** The layers to prefetch from `distance` layers ahead on: pending ones are passed over, the first
      missing one ends the lookahead. */
  function Targets(layer: nat, distance: nat, depth: nat, caches: seq<Cache>, pending: set<nat>): (t: seq<nat>)
    decreases depth + 1 - distance
  {
    if distance > depth then []
    else if layer + distance in pending then Targets(layer, distance + 1, depth, caches, pending)
    else if layer + distance >= |caches| || caches[layer + distance] == Missing then []
    else [layer + distance] + Targets(layer, distance + 1, depth, caches, pending)
  }

  /** No unregistered layer interrupts the lookahead from `from` to `y`. */
  predicate Unbroken(from: nat, y: nat, caches: seq<Cache>, pending: set<nat>) {
    forall z: nat :: from <= z <= y && z !in pending ==> z < |caches| && caches[z] != Missing
  }

  /** Targets ascend within the lookahead, are registered and are not pending; nothing closer is left
      out: every layer up to a target is pending or a target itself, and so is every layer of the lookahead
      before the first unregistered one. */
  ghost predicate Sound(t: seq<nat>, from: nat, to: nat, caches: seq<Cache>, pending: set<nat>) {
    && (forall x: nat :: x in t ==> from <= x <= to && x !in pending && x < |caches| && caches[x] != Missing)
    && (forall i, j :: 0 <= i < j < |t| ==> t[i] < t[j])
    && (forall x: nat, y: nat :: x in t && from <= y < x && y !in pending ==> y in t)
    && (forall y: nat :: from <= y <= to && y !in pending && Unbroken(from, y, caches, pending) ==> y in t)
  }

  lemma {:induction false} TargetsSound(layer: nat, distance: nat, depth: nat, caches: seq<Cache>, pending: set<nat>)
    requires distance <= depth + 1
    ensures Sound(Targets(layer, distance, depth, caches, pending), layer + distance, layer + depth, caches, pending)
    decreases depth + 1 - distance
  {
    hide Sound;
    var x := layer + distance;
    if distance > depth || (x !in pending && (x >= |caches| || caches[x] == Missing)) {
      SoundEnd(x, layer + depth, caches, pending);
    } else {
      TargetsSound(layer, distance + 1, depth, caches, pending);
      var rest := Targets(layer, distance + 1, depth, caches, pending);
      if x in pending {
        SoundSkip(rest, x, layer + depth, caches, pending);
      } else {
        SoundCons(rest, x, layer + depth, caches, pending);
      }
    }
  }

  lemma SoundEnd(x: nat, to: nat, caches: seq<Cache>, pending: set<nat>)
    requires x > to || (x !in pending && (x >= |caches| || caches[x] == Missing))
    ensures Sound([], x, to, caches, pending)
  {
  }

  lemma SoundSkip(rest: seq<nat>, x: nat, to: nat, caches: seq<Cache>, pending: set<nat>)
    requires Sound(rest, x + 1, to, caches, pending) && x in pending
    ensures Sound(rest, x, to, caches, pending)
  {
    forall y: nat | Unbroken(x, y, caches, pending)
      ensures Unbroken(x + 1, y, caches, pending)
    {
      UnbrokenTail(x, y, caches, pending);
    }
  }

  lemma SoundCons(rest: seq<nat>, x: nat, to: nat, caches: seq<Cache>, pending: set<nat>)
    requires Sound(rest, x + 1, to, caches, pending) && x <= to
    requires x !in pending && x < |caches| && caches[x] != Missing
    ensures Sound([x] + rest, x, to, caches, pending)
  {
    hide Unbroken;
    var t := [x] + rest;
    assert forall y: nat :: y in t <==> y == x || y in rest by { InCons(x, rest); }
    forall i, j | 0 <= i < j < |t|
      ensures t[i] < t[j]
    {
      assert t[j] == rest[j - 1] && rest[j - 1] in rest;
      assert i > 0 ==> t[i] == rest[i - 1];
    }
    forall y: nat | x <= y <= to && y !in pending && Unbroken(x, y, caches, pending)
      ensures y in t
    {
      UnbrokenTail(x, y, caches, pending);
    }
  }

  lemma InCons(x: nat, rest: seq<nat>)
    ensures forall y: nat :: y in [x] + rest <==> y == x || y in rest
  {
    assert ([x] + rest)[0] == x && forall i :: 0 <= i < |rest| ==> ([x] + rest)[i + 1] == rest[i];
  }

  lemma UnbrokenTail(x: nat, y: nat, caches: seq<Cache>, pending: set<nat>)
    requires Unbroken(x, y, caches, pending)
    ensures Unbroken(x + 1, y, caches, pending)
  {
  }

  class Lane {
    const depth: nat
    const supported: bool
    var pending: map<nat, Pending>
    var last: int
    var caches: seq<Cache>
    var log: seq<Op>
    var mainSees: nat
    var step: nat

    ghost function Snap(): Ring
      reads this
    {
      Ring(depth, pending, last, log, mainSees, step)
    }

    constructor (depth: nat, supported: bool)
      ensures Fresh(Snap()) && ReadsAll(log)
      ensures this.depth == depth && this.supported == supported && caches == []
      ensures Snap() == Ring(depth, map[], -1, [], 0, 0)
      ensures Inv(Snap()) && AllIntact(Snap())
    {
      this.depth := depth;
      this.supported := supported;
      pending, last, caches, log, mainSees, step := map[], -1, [], [], 0, 0;
    }

    /** Make the main stream wait for every pending gather. */
    method WaitForPendingWrites()
      requires Inv(Snap()) && Fresh(Snap())
      modifies this`mainSees
      ensures Fresh(Snap())
      ensures Inv(Snap()) && old(mainSees) <= mainSees
      ensures forall l :: l in pending ==> pending[l].event <= mainSees
    {
      hide Inv, Fresh;
      var rest := pending.Keys;
      while rest != {}
        invariant Inv(Snap()) && Fresh(Snap()) && rest <= pending.Keys && old(mainSees) <= mainSees
        invariant forall l :: l in pending && l !in rest ==> pending[l].event <= mainSees
      {
        var l :| l in rest;
        EventInRange(Snap(), l);
        WaitKeeps(Snap(), pending[l].event);
        FreshKept(Snap(), Waited(Snap(), pending[l].event));
        mainSees := Max(mainSees, pending[l].event);
        rest := rest - {l};
      }
    }

    method BeginStep()
      requires Inv(Snap()) && Fresh(Snap())
      modifies this`mainSees, this`pending, this`last, this`step
      ensures Fresh(Snap())
      ensures Inv(Snap()) && pending == map[] && last == -1 && step == old(step) + 1
    {
      hide Inv, Fresh;
      WaitForPendingWrites();
      ClearKeeps(Snap());
      FreshCleared(Snap());
      pending := map[];
      last := -1;
      step := step + 1;
    }

    /** A layer at or before the previous one starts a new step. */
    method EnterLayer(layer: nat)
      requires Inv(Snap()) && Fresh(Snap())
      modifies this`mainSees, this`pending, this`last, this`step
      ensures Fresh(Snap())
      ensures Inv(Snap()) && last == layer && Entering(Snap(), layer)
      ensures old(last) < layer ==> pending == old(pending) && mainSees == old(mainSees) && step == old(step)
      ensures old(last) >= layer ==> pending == map[] && step == old(step) + 1
      ensures old(AllIntact(Snap())) ==> AllIntact(Snap())
    {
      hide Inv, Fresh;
      if last != -1 && layer <= last {
        BeginStep();
      }
      assert last < layer by { LastInRange(Snap()); }
      EnterKeeps(Snap(), layer);
      FreshKept(Snap(), Snap().(last := layer));
      EnterIsEntering(Snap(), layer);
      last := layer;
    }

    /** Record a layer's cache; a live owner may not be replaced by another. */
    method RegisterCache(layer: nat, cache: Cache, expired: set<nat>) returns (ok: bool)
      requires cache.Cache?
      modifies this`caches
      ensures ok <==> (layer < |old(caches)| && old(caches)[layer].Cache? && old(caches)[layer].owner !in expired ==>
                         old(caches)[layer].owner == cache.owner)
      ensures |caches| == Max(|old(caches)|, layer + 1)
      ensures forall l :: 0 <= l < |caches| ==>
        caches[l] == if ok && l == layer then cache else if l < |old(caches)| then old(caches)[l] else Missing
    {
      while |caches| <= layer
        invariant |old(caches)| <= |caches| <= Max(|old(caches)|, layer + 1)
        invariant forall l :: 0 <= l < |caches| ==> caches[l] == if l < |old(caches)| then old(caches)[l] else Missing
      {
        caches := caches + [Missing];
      }
      var existing := caches[layer];
      if existing.Cache? && existing.owner !in expired && existing.owner != cache.owner {
        return false;
      }
      caches := caches[layer := cache];
      ok := true;
    }

    /** Scan the lookahead. */
    method TargetIndices(layer: nat) returns (targets: seq<nat>)
      ensures targets == Targets(layer, 1, depth, caches, pending.Keys)
    {
      targets := [];
      for distance := 1 to depth + 1
        invariant targets + Targets(layer, distance, depth, caches, pending.Keys)
             == Targets(layer, 1, depth, caches, pending.Keys)
      {
        var target := layer + distance;
        if target in pending {
          continue;
        }
        if target >= |caches| || caches[target] == Missing {
          break;
        }
        assert targets + Targets(layer, distance, depth, caches, pending.Keys)
            == (targets + [target]) + Targets(layer, distance + 1, depth, caches, pending.Keys);
        targets := targets + [target];
      }
    }

    /** Queue one gather on the side stream, after everything queued so far, and record its event. */
    method QueueGather(layer: nat, target: nat)
      requires Inv(Snap()) && Fresh(Snap()) && last == layer && Near(Snap(), layer)
      requires layer < target <= layer + depth && target !in pending
      modifies this`log, this`pending
      ensures Fresh(Snap()) && (old(ReadsAll(log)) ==> ReadsAll(log))
      ensures Snap() == Prefetch(old(Snap()), layer, target)
      ensures Inv(Snap()) && Near(Snap(), layer)
      ensures old(AllIntact(Snap())) ==> AllIntact(Snap())
      ensures log == old(log) + [log[|old(log)|]] && log[|old(log)|].slot != SlotOf(layer, depth)
    {
      hide Inv, Near, AllIntact, Fresh, ReadsAll;
      PrefetchKeeps(Snap(), layer, target);
      FreshPrefetch(Snap(), layer, target);
      if ReadsAll(log) {
        ReadsAppend(log, Op(Side, Gather, target, layer, SlotOf(target, depth), step, |log|));
      }
      PrefetchIsNear(Snap(), layer, target);
      if AllIntact(Snap()) {
        PrefetchIntact(Snap(), layer, target);
      }
      SlotsDiffer(target, layer, depth);
      log := log + [Op(Side, Gather, target, layer, SlotOf(target, depth), step, |log|)];
      pending := pending[target := Pending(|log|, SlotOf(target, depth))];
    }

    /** Queue the gathers of the lookahead on the side stream; false when a target cannot be staged. */
    method Launch(layer: nat, own: Cache, expired: set<nat>) returns (ok: bool)
      requires Inv(Snap()) && Fresh(Snap()) && last == layer && Near(Snap(), layer) && own.Cache?
      modifies this`log, this`pending
      ensures Fresh(Snap()) && (old(ReadsAll(log)) ==> ReadsAll(log))
      ensures Inv(Snap()) && Near(Snap(), layer)
      ensures old(AllIntact(Snap())) ==> AllIntact(Snap())
      ensures old(log) <= log && Elsewhere(log, |old(log)|, SlotOf(layer, depth))
      ensures forall l :: l in old(pending) ==> l in pending && pending[l] == old(pending[l])
      ensures forall l :: l in pending && l !in old(pending) ==>
        layer < l <= layer + depth && l < |caches| && caches[l].Cache? && caches[l].dtype == own.dtype
      ensures ok ==> forall l ::
        l in Targets(layer, 1, depth, caches, old(pending).Keys) && Ready(caches, l, own) ==> l in pending
      ensures expired == {} && SameGeometry(caches, own) ==> ok
    {
      hide Inv, Near, AllIntact, SlotOf, Fresh, ReadsAll, Elsewhere;
      var targets := TargetIndices(layer);
      TargetsSound(layer, 1, depth, caches, pending.Keys);
      NothingElsewhere(log, SlotOf(layer, depth));
      for i := 0 to |targets|
        invariant Inv(Snap()) && Near(Snap(), layer) && Fresh(Snap())
        invariant old(AllIntact(Snap())) ==> AllIntact(Snap())
        invariant old(ReadsAll(log)) ==> ReadsAll(log)
        invariant forall l :: l in targets[..i] && Ready(caches, l, own) ==> l in pending
        invariant old(log) <= log && Elsewhere(log, |old(log)|, SlotOf(layer, depth))
        invariant forall l :: l in old(pending) ==> l in pending && pending[l] == old(pending[l])
        invariant forall l :: l in pending && l !in old(pending) ==>
          l in targets[..i] && l < |caches| && caches[l].Cache? && caches[l].dtype == own.dtype
      {
        var target := targets[i];
        assert target in targets;
        if caches[target].owner in expired {
          return false;
        }
        if caches[target].dtype != own.dtype {
          continue;
        }
        if caches[target].geometry != own.geometry {
          return false;
        }
        ghost var before := log;
        QueueGather(layer, target);
        OneMoreElsewhere(before, log, |old(log)|, SlotOf(layer, depth));
      }
      ok := true;
    }

    /** Take the prefetched slot of `layer`: wait for its gather, then append the current chunk. */
    method Take(layer: nat)
      requires Inv(Snap()) && Fresh(Snap()) && last == layer && Entering(Snap(), layer) && layer in pending
      modifies this`mainSees, this`pending, this`log
      ensures Fresh(Snap()) && (old(ReadsAll(log)) ==> ReadsAll(log))
      ensures Inv(Snap()) && Near(Snap(), layer) && pending == old(pending) - {layer}
      ensures old(AllIntact(Snap())) ==> AllIntact(Snap())
      ensures |log| == |old(log)| + 1 && old(log) <= log && log[|old(log)|].kind == Append
      ensures old(Intact(Snap(), layer)) ==>
        SlotHolds(log, old(pending)[layer].event - 1, layer, SlotOf(layer, depth), step)
    {
      hide Inv, Near, AllIntact, Entering, Intact, SlotHolds, Fresh, ReadsAll;
      ghost var before := Snap();
      var entry := pending[layer];
      EventInRange(before, layer);
      HitIsNear(before, layer);
      SlotOfEntry(before, layer);
      WaitKeeps(before, entry.event);
      mainSees := Max(mainSees, entry.event);
      FreshKept(before, Snap());
      PopKeeps(Snap(), layer);
      FreshKept(Snap(), Snap().(pending := pending - {layer}));
      pending := pending - {layer};
      if AllIntact(before) {
        IntactKept(before, Snap());
        OwnSlotIntact(Snap(), Append, layer);
      }
      OwnSlotKeeps(Snap(), Append, layer);
      FreshMain(Snap(), Append, layer, SlotOf(layer, depth));
      if ReadsAll(log) {
        ReadsAppend(log, Op(Main, Append, layer, layer, entry.slot, step, mainSees));
      }
      log := log + [Op(Main, Append, layer, layer, entry.slot, step, mainSees)];
      if Intact(before, layer) {
        HitHolds(before, layer, log);
      }
    }

    /** Gather `layer` on the main stream, after all pending gathers. */
    method GatherHere(layer: nat)
      requires Inv(Snap()) && Fresh(Snap()) && (last == layer || depth == 0)
      modifies this`mainSees, this`log
      ensures Fresh(Snap()) && (old(ReadsAll(log)) ==> ReadsAll(log))
      ensures Inv(Snap()) && Near(Snap(), layer)
      ensures old(AllIntact(Snap())) ==> AllIntact(Snap())
      ensures SlotHolds(log, |log| - 1, layer, SlotOf(layer, depth), step)
    {
      hide Inv, AllIntact, Fresh, ReadsAll;
      ghost var before := Snap();
      WaitForPendingWrites();
      if AllIntact(before) {
        IntactKept(before, Snap());
        KeepAhead(Snap(), Gather, layer);
      }
      MainKeeps(Snap(), Gather, layer, SlotOf(layer, depth));
      FreshMain(Snap(), Gather, layer, SlotOf(layer, depth));
      if ReadsAll(log) {
        ReadsAppend(log, Op(Main, Gather, layer, layer, SlotOf(layer, depth), step, mainSees));
      }
      log := log + [Op(Main, Gather, layer, layer, SlotOf(layer, depth), step, mainSees)];
    }

    /** Fill the layer's slot, from a prefetch if there is one. */
    method Acquire(layer: nat) returns (ghost i: int)
      requires Inv(Snap()) && Fresh(Snap()) && (depth == 0 ==> pending == map[])
      requires depth > 0 ==> last == layer && Entering(Snap(), layer)
      modifies this`mainSees, this`pending, this`log
      ensures Fresh(Snap()) && (old(ReadsAll(log)) ==> ReadsAll(log))
      ensures Inv(Snap()) && Near(Snap(), layer)
      ensures old(AllIntact(Snap())) ==> AllIntact(Snap())
      ensures old(layer in pending) ==> |log| == |old(log)| + 1 && old(log) <= log && log[|old(log)|].kind == Append
      ensures old(layer in pending ==> Intact(Snap(), layer)) ==> SlotHolds(log, i, layer, SlotOf(layer, depth), step)
    {
      hide Inv, Near, AllIntact, Entering, Intact, SlotHolds, Fresh, ReadsAll;
      if depth > 0 && layer in pending {
        i := pending[layer].event - 1;
        Take(layer);
      } else {
        GatherHere(layer);
        i := |log| - 1;
      }
    }

    /** Attention reads the layer's slot. */
    method Attention(layer: nat)
      requires Inv(Snap()) && Fresh(Snap()) && Near(Snap(), layer) && (last == layer || depth == 0)
      modifies this`log
      ensures Fresh(Snap())
      ensures Inv(Snap()) && log == old(log) + [Op(Main, Attend, layer, layer, SlotOf(layer, depth), step, mainSees)]
      ensures old(AllIntact(Snap())) ==> AllIntact(Snap())
    {
      hide Inv, Near, AllIntact, Fresh, ReadsAll;
      OwnSlotKeeps(Snap(), Attend, layer);
      FreshMain(Snap(), Attend, layer, SlotOf(layer, depth));
      if AllIntact(Snap()) {
        KeepAhead(Snap(), Attend, layer);
      }
      log := log + [Op(Main, Attend, layer, layer, SlotOf(layer, depth), step, mainSees)];
    }

    /** With lookahead, enter the layer and register its cache. */
    method Arrive(layer: nat, own: Cache, expired: set<nat>) returns (ok: bool)
      requires Inv(Snap()) && Fresh(Snap()) && own.Cache?
      modifies this`mainSees, this`pending, this`last, this`step, this`caches
      ensures Inv(Snap()) && Fresh(Snap())
      ensures old(AllIntact(Snap())) ==> AllIntact(Snap())
      ensures depth == 0 ==> ok && pending == map[]
      ensures depth > 0 ==> last == layer && Entering(Snap(), layer)
      ensures old(last) < layer ==> step == old(step)
      ensures !old(Spoiled(Snap(), layer)) ==> (layer in pending ==> Intact(Snap(), layer))
      ensures old(Spoiled(Snap(), layer)) ==> layer in pending && old(last) < layer
      ensures Welcome(old(caches), layer, own) && expired == {} ==> ok && SameGeometry(caches, own)
      ensures |old(caches)| <= |caches| <= Max(|old(caches)|, layer + 1)
      ensures forall l :: 0 <= l < |old(caches)| && l != layer ==> caches[l] == old(caches)[l]
      ensures ok && depth > 0 ==> layer < |caches| && caches[layer] == own
    {
      hide Inv, Fresh, Intact, AllIntact, Entering, Spoiled, SameGeometry;
      ghost var start := Snap();
      if depth > 0 {
        EnterLayer(layer);
        ok := RegisterCache(layer, own, expired);
        if Welcome(old(caches), layer, own) && expired == {} {
          StillSame(old(caches), caches, layer, own);
        }
      } else {
        NoLookahead(Snap());
        ok := true;
      }
      SpoiledOrHolds(start, Snap(), layer);
    }

    /** Run a layer that gathers: take its prefetched slot, or gather into its own slot after waiting for
        the side stream; prefetch the layers ahead; attend.  False when registering or staging fails.
        Attention reads the layer's own gather exactly when no prefetch of it was overwritten. */
    method Forward(layer: nat, own: Cache, expired: set<nat>) returns (ok: bool)
      requires Inv(Snap()) && Fresh(Snap()) && own.Cache?
      modifies this`mainSees, this`pending, this`last, this`step, this`caches, this`log
      ensures Inv(Snap()) && Fresh(Snap())
      ensures old(AllIntact(Snap())) ==> AllIntact(Snap())
      ensures ok ==>
        |log| > 0 && log[|log| - 1].kind == Attend && log[|log| - 1].layer == layer && log[|log| - 1].step == step
      ensures ok ==> (ReadsOwnGather(log) <==> !old(Spoiled(Snap(), layer)))
      ensures old(ReadsAll(log)) && (ok ==> ReadsOwnGather(log)) ==> ReadsAll(log)
      ensures ok && supported && depth > 0 && Ready(caches, layer + 1, own) ==> layer + 1 in pending
      ensures Welcome(old(caches), layer, own) && expired == {} ==> ok
      ensures old(last) < layer && ok && depth > 0 ==> last == layer && step == old(step)
      ensures |old(caches)| <= |caches| <= Max(|old(caches)|, layer + 1)
      ensures forall l :: 0 <= l < |old(caches)| && l != layer ==> caches[l] == old(caches)[l]
      ensures ok && depth > 0 ==> layer < |caches| && caches[layer] == own
    {
      hide Inv, Near, AllIntact, Entering, ReadsAt, Elsewhere, Intact, SlotHolds, SlotOf, Fresh, ReadsAll;
      hide Spoiled, SameGeometry, ReadsOwnGather;
      ghost var start := Snap();
      ok := Arrive(layer, own, expired);
      if !ok {
        return;
      }
      ghost var i := Acquire(layer);
      ghost var ready := log;
      NothingElsewhere(log, SlotOf(layer, depth));
      if supported && depth > 0 {
        NextIsTarget(layer, depth, caches, pending.Keys);
        ok := Launch(layer, own, expired);
        if !ok {
          return;
        }
      }
      AttendExact(start, ready, log, layer, i, Op(Main, Attend, layer, layer, SlotOf(layer, depth), step, mainSees));
      Attention(layer);
      ok := true;
    }

    /** Run a layer whose index is unknown: no lookahead, ring slot 0. */
    method ForwardUnindexed()
      requires Inv(Snap()) && Fresh(Snap())
      modifies this`mainSees, this`log
      ensures Fresh(Snap()) && (old(ReadsAll(log)) ==> ReadsAll(log))
      ensures Inv(Snap())
      ensures |log| >= 2 && log[|log| - 1].kind == Attend && log[|log| - 1].layer == -1 && ReadsOwnGather(log)
      ensures forall l :: l in pending ==> (Intact(Snap(), l) <==> old(Intact(Snap(), l)) && SlotOf(l, depth) != 0)
    {
      hide Inv, Intact, Fresh, ReadsAll;
      LastInRange(Snap());
      WaitForPendingWrites();
      ghost var before := Snap();
      MainKeeps(before, Gather, -1, 0);
      FreshMain(before, Gather, -1, 0);
      if ReadsAll(log) {
        ReadsAppend(log, Op(Main, Gather, -1, -1, 0, step, mainSees));
      }
      log := log + [Op(Main, Gather, -1, -1, 0, step, mainSees)];
      ghost var gathered := Snap();
      MainKeeps(gathered, Attend, -1, 0);
      FreshMain(gathered, Attend, -1, 0);
      HoldsFeeds(log, |log| - 1, Op(Main, Attend, -1, -1, 0, step, mainSees));
      if ReadsAll(log) {
        ReadsAppend(log, Op(Main, Attend, -1, -1, 0, step, mainSees));
      }
      log := log + [Op(Main, Attend, -1, -1, 0, step, mainSees)];
      forall l | l in pending
        ensures Intact(Snap(), l) <==> Intact(before, l) && SlotOf(l, depth) != 0
      {
        IntactAfterMain(before, Gather, -1, 0, l);
        IntactAfterMain(gathered, Attend, -1, 0, l);
      }
      forall l | l in pending
        ensures Intact(before, l) <==> old(Intact(Snap(), l))
      {
        SameSlots(before, old(Snap()), l);
      }
    }
  }

  /** Every registered cache has the geometry of `own`. */
  predicate SameGeometry(caches: seq<Cache>, own: Cache)
    requires own.Cache?
  {
    forall l :: 0 <= l < |caches| && caches[l].Cache? ==> caches[l].geometry == own.geometry
  }

  /** Nothing stands in the way of running `layer`. */
  predicate Welcome(caches: seq<Cache>, layer: nat, own: Cache)
    requires own.Cache?
  {
    SameGeometry(caches, own) && (layer < |caches| && caches[layer].Cache? ==> caches[layer].owner == own.owner)
  }

  predicate Ready(caches: seq<Cache>, layer: nat, own: Cache)
    requires own.Cache?
  {
    layer < |caches| && caches[layer].Cache? && caches[layer].dtype == own.dtype
  }

  lemma NextIsTarget(layer: nat, depth: nat, caches: seq<Cache>, pending: set<nat>)
    requires depth > 0
    ensures layer + 1 < |caches| && caches[layer + 1].Cache? && layer + 1 !in pending ==>
      layer + 1 in Targets(layer, 1, depth, caches, pending)
  {
  }

  /** A layer that is entered finds its slot intact, or spoiled, or not prefetched. */
  lemma SpoiledOrHolds(start: Ring, entered: Ring, layer: nat)
    requires start.depth == entered.depth && start.log == entered.log
    requires start.last < layer && start.depth > 0 ==> entered.pending == start.pending
    requires start.last >= layer || start.depth == 0 ==> layer !in entered.pending
    requires start.depth == 0 ==> start.pending == map[]
    ensures !Spoiled(start, layer) ==> (layer in entered.pending ==> Intact(entered, layer))
    ensures Spoiled(start, layer) ==> layer in entered.pending && start.last < layer
  {
  }

  lemma StillSame(before: seq<Cache>, caches: seq<Cache>, layer: nat, own: Cache)
    requires own.Cache? && Welcome(before, layer, own)
    requires |caches| == Max(|before|, layer + 1) && caches[layer] == own
    requires forall l :: 0 <= l < |caches| && l != layer ==> caches[l] == if l < |before| then before[l] else Missing
    ensures SameGeometry(caches, own)
  {
  }

  /** Attention reads the layer's own gather exactly when the layer's prefetch was not overwritten. */
  lemma AttendExact(start: Ring, ready: seq<Op>, log: seq<Op>, layer: nat, i: int, attend: Op)
    requires Inv(start) && Fresh(start) && ready <= log && Elsewhere(log, |ready|, SlotOf(layer, start.depth))
    requires attend.kind == Attend && attend.layer == layer && attend.slot == SlotOf(layer, start.depth)
    requires if Spoiled(start, layer) then
        |ready| == |start.log| + 1 && start.log <= ready && ready[|start.log|].kind == Append
            && attend.step == start.step
      else SlotHolds(ready, i, layer, SlotOf(layer, start.depth), attend.step)
    ensures ReadsOwnGather(log + [attend]) <==> !Spoiled(start, layer)
    ensures ReadsAll(log) && ReadsOwnGather(log + [attend]) ==> ReadsAll(log + [attend])
  {
    hide Inv, Fresh, SlotOf, SlotHolds, Spoiled, ReadsAll, ReadsAt, Elsewhere;
    if Spoiled(start, layer) {
      OnlyAppended(start, ready, log, layer);
      SpoiledNeverFeeds(start, layer, log + [attend], |log|);
    } else {
      LaterElsewhere(ready, log, i, layer, SlotOf(layer, start.depth), attend.step);
      HoldsFeeds(log, i, attend);
    }
    if ReadsAll(log) && ReadsOwnGather(log + [attend]) {
      ReadsAppend(log, attend);
    }
  }

  /** Taking a prefetched slot and looking ahead gathers nothing into it. */
  lemma OnlyAppended(start: Ring, ready: seq<Op>, log: seq<Op>, layer: nat)
    requires |ready| == |start.log| + 1 && start.log <= ready <= log && ready[|start.log|].kind == Append
    requires Elsewhere(log, |ready|, SlotOf(layer, start.depth))
    ensures forall k {:trigger log[k]} :: |start.log| <= k < |log| && log[k].slot == SlotOf(layer, start.depth) ==>
      log[k].kind != Gather
  {
    hide SlotOf;
  }

  lemma SameSlots(r: Ring, s: Ring, l: nat)
    requires l in r.pending && r.pending == s.pending && r.log == s.log && r.depth == s.depth
    ensures Intact(r, l) <==> Intact(s, l)
  {
  }

  lemma SlotOfEntry(r: Ring, l: nat)
    requires Inv(r) && l in r.pending
    ensures r.pending[l].slot == SlotOf(l, r.depth)
  {
    assert EntryOk(r, l);
  }

  lemma OneMoreElsewhere(log: seq<Op>, log': seq<Op>, from: nat, slot: nat)
    requires |log'| == |log| + 1 && log <= log' && log'[|log|].slot != slot
    requires from <= |log| && Elsewhere(log, from, slot)
    ensures Elsewhere(log', from, slot)
  {
    forall k {:trigger log'[k]} | from <= k < |log'|
      ensures log'[k].slot != slot
    {
      if k < |log| {
        assert log'[k] == log[k];
      }
    }
  }

  lemma NothingElsewhere(log: seq<Op>, slot: nat)
    ensures Elsewhere(log, |log|, slot)
  {
  }

  lemma KeepAhead(r: Ring, kind: Kind, layer: nat)
    requires Inv(r) && AllIntact(r) && (r.last == layer || r.depth == 0)
    ensures AllIntact(OnMain(r, kind, layer, SlotOf(layer, r.depth)))
  {
    if r.depth == 0 {
      NoLookahead(r);
    } else {
      OwnSlotIntact(r, kind, layer);
    }
  }

  lemma EventInRange(r: Ring, l: nat)
    requires Inv(r) && l in r.pending
    ensures 1 <= r.pending[l].event <= |r.log|
  {
    assert EntryOk(r, l);
  }

  lemma LastInRange(r: Ring)
    requires Inv(r)
    ensures r.last >= -1
  {
  }

  /** What can happen on a lane, in any order. */
  datatype Action =
    | Layer(index: nat, own: Cache, expired: set<nat>)
    | Unindexed
    | Seen(index: nat, own: Cache, expired: set<nat>)
    | NewStep

  /** Whatever layers run, are skipped, fail to stage or start a step over, no two conflicting accesses
      are unordered; and while no unindexed layer gathers, every attention reads a gather of its own
      layer and step. */
  method Replay(lane: Lane, actions: seq<Action>)
    requires Inv(lane.Snap()) && Fresh(lane.Snap())
    requires forall a :: a in actions && !a.Unindexed? && !a.NewStep? ==> a.own.Cache?
    modifies lane
    ensures Inv(lane.Snap()) && Fresh(lane.Snap()) && Ordered(lane.log)
    ensures old(AllIntact(lane.Snap()) && ReadsAll(lane.log)) && Unindexed !in actions ==>
      AllIntact(lane.Snap()) && ReadsAll(lane.log)
  {
    hide AllIntact, Fresh, ReadsAll, Intact, ReadsOwnGather;
    for i := 0 to |actions|
      invariant Inv(lane.Snap()) && Fresh(lane.Snap())
      invariant old(AllIntact(lane.Snap()) && ReadsAll(lane.log)) && Unindexed !in actions ==>
        AllIntact(lane.Snap()) && ReadsAll(lane.log)
    {
      hide Inv;
      assert actions[i] in actions;
      match actions[i] {
        case Layer(index, own, expired) =>
          if AllIntact(lane.Snap()) {
            NeverSpoiled(lane.Snap(), index);
          }
          var _ := lane.Forward(index, own, expired);
        case Unindexed =>
          lane.ForwardUnindexed();
        case Seen(index, own, expired) =>
          var _ := lane.RegisterCache(index, own, expired);
        case NewStep =>
          lane.BeginStep();
          NothingPending(lane.Snap());
      }
    }
  }

  lemma NeverSpoiled(r: Ring, layer: nat)
    requires AllIntact(r)
    ensures !Spoiled(r, layer)
  {
  }

  /** With a lookahead of one, layer 1 prefetches layer 2 into slot 0; an unindexed layer overwrites it;
      and the attention of layer 2 then reads no gather of its own. */
  method UnindexedLayerSpoils() returns (lane: Lane, ok: bool)
    ensures fresh(lane) && ok && |lane.log| > 0
    ensures lane.log[|lane.log| - 1].kind == Attend && lane.log[|lane.log| - 1].layer == 2
    ensures !ReadsOwnGather(lane.log)
  {
    hide Inv, Fresh, ReadsOwnGather, Intact;
    lane := new Lane(1, true);
    var cache := Cache(0, 0, 0);
    ok := lane.RegisterCache(2, cache, {});
    ok := lane.Forward(1, cache, {});
    lane.ForwardUnindexed();
    assert SlotOf(2, 1) == 0;
    ok := lane.Forward(2, cache, {});
  }

  lemma NothingPending(r: Ring)
    requires r.pending == map[]
    ensures AllIntact(r)
  {
  }
}
