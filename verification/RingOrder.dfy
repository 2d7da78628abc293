/** The happens-before order of two CUDA streams that share a ring of gather buffers and one staging
    region, and the invariants that keep every pair of conflicting accesses ordered. */
module RingOrder {
  import opened Sharding

  datatype Stream = Main | Side

  /** A gather writes the staging region and its slot, an append writes its slot, attention reads it. */
  datatype Kind = Gather | Append | Attend

  /** One queued operation.  `issuer` is the layer that queued it, `layer` the layer it works for (-1 when
      the layer has no index); of the other stream it waits for everything queued before `sees`. */
  datatype Op = Op(stream: Stream, kind: Kind, layer: int, issuer: int, slot: nat, step: nat, sees: nat)

  predicate Conflict(a: Op, b: Op) {
    || (a.slot == b.slot && (a.kind != Attend || b.kind != Attend))
    || (a.kind == Gather && b.kind == Gather)
  }

  /** Operation `i` is complete before operation `j` starts: same stream, or waited for. */
  predicate Before(log: seq<Op>, i: nat, j: nat)
    requires i < j < |log|
  {
    log[i].stream == log[j].stream || i < log[j].sees
  }

  /** No two conflicting operations can run at the same time. */
  ghost predicate Ordered(log: seq<Op>) {
    forall i, j :: 0 <= i < j < |log| && Conflict(log[i], log[j]) ==> Before(log, i, j)
  }

  datatype Pending = Pending(event: nat, slot: nat)

  /** The state of one lane: `last` is -1 before the first layer of a step; an event covers the
      operations queued before it; `mainSees` is how far the main stream has waited for the side one. */
  datatype Ring = Ring(depth: nat, pending: map<nat, Pending>, last: int, log: seq<Op>, mainSees: nat, step: nat)

  function SlotOf(layer: nat, depth: nat): nat { layer % (depth + 1) }

  /** The prefetch a pending entry stands for. */
  predicate EntryOk(r: Ring, l: nat)
    requires l in r.pending
  {
    var e := r.pending[l].event;
    && 1 <= e <= |r.log| && r.pending[l].slot == SlotOf(l, r.depth)
    && r.log[e - 1].stream == Side && r.log[e - 1].kind == Gather && r.log[e - 1].layer == l
    && r.log[e - 1].slot == SlotOf(l, r.depth) && r.log[e - 1].step == r.step
    && r.log[e - 1].issuer < l <= r.log[e - 1].issuer + r.depth && r.log[e - 1].issuer <= r.last
  }

  function LaunchedBy(r: Ring, l: nat): int
    requires l in r.pending && EntryOk(r, l)
  {
    r.log[r.pending[l].event - 1].issuer
  }

  /** A side operation the main stream has not waited for is the gather of a pending layer. */
  predicate Accounted(r: Ring, k: nat)
    requires k < |r.log|
  {
    r.log[k].stream == Side && k >= r.mainSees ==>
      r.log[k].kind == Gather && r.log[k].layer >= 0 &&
      r.log[k].layer in r.pending && r.pending[r.log[k].layer].event == k + 1
  }

  ghost predicate Inv(r: Ring) {
    && r.mainSees <= |r.log| && Ordered(r.log) && r.last >= -1
    && (forall k {:trigger Accounted(r, k)} :: 0 <= k < |r.log| ==> Accounted(r, k))
    && (forall l {:trigger EntryOk(r, l)} :: l in r.pending ==> EntryOk(r, l))
    && InLaunchOrder(r)
  }

  /** Later events belong to later or equal launching layers. */
  ghost predicate InLaunchOrder(r: Ring)
    requires forall l {:trigger EntryOk(r, l)} :: l in r.pending ==> EntryOk(r, l)
  {
    forall l, m {:trigger LaunchedBy(r, l), LaunchedBy(r, m)} ::
      l in r.pending && m in r.pending && r.pending[l].event < r.pending[m].event ==>
      LaunchedBy(r, l) <= LaunchedBy(r, m)
  }

  /** Every prefetch the main stream has not waited for is for another layer within the lookahead of
      `layer`, on either side. */
  ghost predicate Near(r: Ring, layer: nat) {
    forall l :: l in r.pending && r.pending[l].event > r.mainSees ==>
      l != layer && layer - r.depth <= l <= layer + r.depth
  }

  /** The slot of a pending layer still holds that layer's gather. */
  ghost predicate Intact(r: Ring, l: nat)
    requires l in r.pending
  {
    forall k {:trigger r.log[k]} :: r.pending[l].event <= k < |r.log| && r.log[k].kind != Attend ==>
      r.log[k].slot != SlotOf(l, r.depth)
  }

  /** A gather another layer queued ahead of time lacks the current chunk: before `j` the layer itself has appended it
      to the slot. */
  ghost predicate Completed(log: seq<Op>, i: int, j: int)
    requires 0 <= i < |log| && j <= |log|
  {
    log[i].issuer == log[i].layer
    || exists k {:trigger log[k]} :: i < k < j && log[k].kind == Append && log[k].layer == log[i].layer
                                     && log[k].slot == log[i].slot && log[k].step == log[i].step
  }

  /** What attention at position `j` reads: a gather for its own layer and step at position `i`, completed with the
      current chunk, and since then nothing but its own appends in the slot. */
  ghost predicate Feeds(log: seq<Op>, i: int, j: int) {
    && 0 <= i < j < |log|
    && log[i].kind == Gather && log[i].layer == log[j].layer && log[i].step == log[j].step && log[i].slot == log[j].slot
    && Completed(log, i, j)
    && (forall k {:trigger log[k]} :: i < k < j && log[k].slot == log[j].slot && log[k].kind != Attend ==>
          log[k].kind == Append && log[k].layer == log[j].layer && log[k].step == log[j].step)
  }

  /** A longer log still completes what a shorter one did. */
  lemma StaysCompleted(log: seq<Op>, log': seq<Op>, i: int, j: int, j': int)
    requires 0 <= i < |log| && j <= |log| && log <= log' && j <= j' <= |log'| && Completed(log, i, j)
    ensures Completed(log', i, j')
  {
    assert log'[i] == log[i];
    if k :| i < k < j && log[k].kind == Append && log[k].layer == log[i].layer && log[k].slot == log[i].slot
            && log[k].step == log[i].step {
      assert log'[k] == log[k];
    }
  }

  /* ----- the primitive steps ----- */

  /** The main stream waits for an event. */
  function Waited(r: Ring, event: nat): Ring {
    r.(mainSees := Max(r.mainSees, event))
  }

  /** Queue an operation on the main stream. */
  function OnMain(r: Ring, kind: Kind, layer: int, slot: nat): Ring {
    r.(log := r.log + [Op(Main, kind, layer, layer, slot, r.step, r.mainSees)])
  }

  /** Queue a gather on the side stream, after everything queued so far, and record its event. */
  function Prefetch(r: Ring, layer: nat, target: nat): Ring {
    r.(log := r.log + [Op(Side, Gather, target, layer, SlotOf(target, r.depth), r.step, |r.log|)],
       pending := r.pending[target := Pending(|r.log| + 1, SlotOf(target, r.depth))])
  }

  /** Two layers less than a ring apart use different slots. */
  lemma SlotsDiffer(a: nat, b: nat, depth: nat)
    requires a != b && b - depth <= a <= b + depth
    ensures a % (depth + 1) != b % (depth + 1)
  {
    var d := depth + 1;
    if a % d == b % d {
      var p, q := a / d, b / d;
      assert a == p * d + a % d && b == q * d + b % d;
      if p > q {
        MulMonotone(q + 1, p, d);
        Distribute(q, 1, d);
        assert false;
      } else if p < q {
        MulMonotone(p + 1, q, d);
        Distribute(p, 1, d);
        assert false;
      }
    }
  }

  lemma EntryKept(r: Ring, s: Ring, l: nat)
    requires l in r.pending && l in s.pending && s.pending[l] == r.pending[l] && EntryOk(r, l)
    requires s.depth == r.depth && s.step == r.step && r.last <= s.last && r.log <= s.log
    ensures EntryOk(s, l) && LaunchedBy(s, l) == LaunchedBy(r, l)
  {
    assert s.log[r.pending[l].event - 1] == r.log[r.pending[l].event - 1];
  }

  /** Entries survive a longer queue, a later layer and the loss of other entries. */
  lemma EntriesKept(r: Ring, s: Ring)
    requires Inv(r) && s.depth == r.depth && s.step == r.step && r.last <= s.last && r.log <= s.log
    requires forall l :: l in s.pending ==> l in r.pending && s.pending[l] == r.pending[l]
    ensures forall l {:trigger EntryOk(s, l)} :: l in s.pending ==> EntryOk(s, l)
    ensures InLaunchOrder(s)
  {
    hide EntryOk, LaunchedBy, Ordered, Accounted;
    forall l | l in s.pending
      ensures EntryOk(s, l) && EntryOk(r, l) && LaunchedBy(s, l) == LaunchedBy(r, l)
    {
      assert EntryOk(r, l);
      EntryKept(r, s, l);
    }
  }

  lemma WaitKeeps(r: Ring, event: nat)
    requires Inv(r) && event <= |r.log|
    ensures Inv(Waited(r, event))
  {
    hide Ordered, EntryOk;
    var s := Waited(r, event);
    forall k | 0 <= k < |s.log|
      ensures Accounted(s, k)
    {
      assert Accounted(r, k);
    }
    EntriesKept(r, s);
  }

  /** A main-stream operation is ordered after every conflicting operation when the slots of the
      prefetches it has not waited for are others, and it uses the staging region only when it has
      waited for all of them. */
  lemma MainKeeps(r: Ring, kind: Kind, layer: int, slot: nat)
    requires Inv(r)
    requires forall l :: l in r.pending && r.pending[l].event > r.mainSees ==>
      SlotOf(l, r.depth) != slot && kind != Gather
    ensures Inv(OnMain(r, kind, layer, slot))
  {
    hide InLaunchOrder;
    var s := OnMain(r, kind, layer, slot);
    var n := |r.log|;
    forall i, j | 0 <= i < j < |s.log| && Conflict(s.log[i], s.log[j])
      ensures Before(s.log, i, j)
    {
      if j < n {
        assert Before(r.log, i, j);
      } else if r.log[i].stream == Side && i >= r.mainSees {
        assert Accounted(r, i);
        NoConflict(r, i, Op(Main, kind, layer, layer, slot, r.step, r.mainSees));
        assert false;
      }
    }
    forall k | 0 <= k < |s.log|
      ensures Accounted(s, k)
    {
      if k < n {
        assert Accounted(r, k) && s.log[k] == r.log[k];
      }
    }
    EntriesKept(r, s);
  }

  lemma NoConflict(r: Ring, i: nat, op: Op)
    requires Inv(r) && i < |r.log| && r.log[i].stream == Side && i >= r.mainSees
    requires forall l :: l in r.pending && r.pending[l].event > r.mainSees ==>
      SlotOf(l, r.depth) != op.slot && op.kind != Gather
    ensures !Conflict(r.log[i], op)
  {
    hide InLaunchOrder, Ordered;
    assert Accounted(r, i);
    assert EntryOk(r, r.log[i].layer);
  }

  /** A prefetch keeps the order: it waits for everything queued before it. */
  lemma PrefetchKeeps(r: Ring, layer: nat, target: nat)
    requires Inv(r) && r.last == layer && layer < target <= layer + r.depth && target !in r.pending
    ensures Inv(Prefetch(r, layer, target))
  {
    hide InLaunchOrder;
    var s := Prefetch(r, layer, target);
    var n := |r.log|;
    forall i, j | 0 <= i < j < |s.log| && Conflict(s.log[i], s.log[j])
      ensures Before(s.log, i, j)
    {
      if j < n {
        assert Before(r.log, i, j);
      }
    }
    forall k | 0 <= k < |s.log|
      ensures Accounted(s, k)
    {
      if k < n {
        assert Accounted(r, k) && s.log[k] == r.log[k];
      }
    }
    PrefetchEntries(r, layer, target);
  }

  lemma PrefetchEntries(r: Ring, layer: nat, target: nat)
    requires Inv(r) && r.last == layer && layer < target <= layer + r.depth && target !in r.pending
    ensures
      var s := Prefetch(r, layer, target);
      (forall l {:trigger EntryOk(s, l)} :: l in s.pending ==> EntryOk(s, l)) && InLaunchOrder(s)
  {
    hide Ordered, Accounted;
    var s := Prefetch(r, layer, target);
    assert EntryOk(s, target) && LaunchedBy(s, target) == layer;
    forall l | l in r.pending
      ensures EntryOk(s, l) && EntryOk(r, l) && LaunchedBy(s, l) == LaunchedBy(r, l) <= layer
      ensures s.pending[l].event < s.pending[target].event
    {
      assert EntryOk(r, l);
      EntryKept(r, s, l);
    }
    hide EntryOk, LaunchedBy;
    forall l, m | l in s.pending && m in s.pending && s.pending[l].event < s.pending[m].event
      ensures EntryOk(s, l) && EntryOk(s, m) && LaunchedBy(s, l) <= LaunchedBy(s, m)
    {
      if l != target && m != target {
        assert LaunchedBy(r, l) <= LaunchedBy(r, m);
      }
    }
  }

  /** Dropping the entry of a layer whose event was waited for. */
  lemma PopKeeps(r: Ring, layer: nat)
    requires Inv(r) && layer in r.pending && r.pending[layer].event <= r.mainSees
    ensures Inv(r.(pending := r.pending - {layer}))
  {
    hide Ordered, EntryOk;
    var s := r.(pending := r.pending - {layer});
    forall k | 0 <= k < |s.log|
      ensures Accounted(s, k)
    {
      assert Accounted(r, k);
    }
    EntriesKept(r, s);
  }

  /** A step starts over: with every pending event waited for, the entries can go. */
  lemma ClearKeeps(r: Ring)
    requires Inv(r) && forall l :: l in r.pending ==> r.pending[l].event <= r.mainSees
    ensures Inv(r.(pending := map[], last := -1, step := r.step + 1))
  {
    hide Ordered;
    var s := r.(pending := map[], last := -1, step := r.step + 1);
    forall k | 0 <= k < |s.log|
      ensures Accounted(s, k)
    {
      assert Accounted(r, k);
    }
  }

  lemma EnterKeeps(r: Ring, layer: nat)
    requires Inv(r) && r.last < layer
    ensures Inv(r.(last := layer))
  {
    hide Ordered, EntryOk;
    var s := r.(last := layer);
    forall k | 0 <= k < |s.log|
      ensures Accounted(s, k)
    {
      assert Accounted(r, k);
    }
    EntriesKept(r, s);
  }

  /* ----- which slots are in use ----- */

  /** The layer being run and the pending layers above it all use different slots. */
  lemma DistinctSlots(r: Ring, layer: nat, l: nat, m: nat)
    requires Inv(r) && r.last == layer && l in r.pending && m in r.pending && layer < l && layer < m && l != m
    ensures SlotOf(l, r.depth) != SlotOf(m, r.depth) && SlotOf(l, r.depth) != SlotOf(layer, r.depth)
  {
    hide Ordered, InLaunchOrder;
    assert EntryOk(r, l) && EntryOk(r, m);
    SlotsDiffer(l, m, r.depth);
    SlotsDiffer(l, layer, r.depth);
  }

  /** Every pending prefetch was launched by an earlier layer. */
  ghost predicate Entering(r: Ring, layer: nat) {
    forall l {:trigger EntryOk(r, l)} :: l in r.pending ==> EntryOk(r, l) && LaunchedBy(r, l) < layer
  }

  lemma EnterIsEntering(r: Ring, layer: nat)
    requires Inv(r) && r.last < layer
    ensures Entering(r.(last := layer), layer)
  {
    hide Ordered, InLaunchOrder;
    var s := r.(last := layer);
    forall l | l in s.pending
      ensures EntryOk(s, l) && LaunchedBy(s, l) < layer
    {
      assert EntryOk(r, l);
    }
  }

  /** Waiting for a layer's own prefetch also waits for every prefetch that could share its slot. */
  lemma HitIsNear(r: Ring, layer: nat)
    requires Inv(r) && Entering(r, layer) && layer in r.pending
    ensures Near(Waited(r, r.pending[layer].event).(pending := r.pending - {layer}), layer)
  {
    hide Ordered, Accounted;
    var e := r.pending[layer].event;
    assert EntryOk(r, layer);
    forall l | l in r.pending && l != layer && r.pending[l].event > e
      ensures layer - r.depth <= l <= layer + r.depth
    {
      assert EntryOk(r, l);
      assert LaunchedBy(r, layer) <= LaunchedBy(r, l);
    }
  }

  lemma PrefetchIsNear(r: Ring, layer: nat, target: nat)
    requires Near(r, layer) && layer < target <= layer + r.depth
    ensures Near(Prefetch(r, layer, target), layer)
  {
  }

  /** Running a layer's own work in its own slot is ordered. */
  lemma OwnSlotKeeps(r: Ring, kind: Kind, layer: nat)
    requires Inv(r) && Near(r, layer) && kind != Gather
    ensures Inv(OnMain(r, kind, layer, SlotOf(layer, r.depth)))
    ensures Near(OnMain(r, kind, layer, SlotOf(layer, r.depth)), layer)
  {
    hide Inv;
    forall l | l in r.pending && r.pending[l].event > r.mainSees
      ensures SlotOf(l, r.depth) != SlotOf(layer, r.depth)
    {
      SlotsDiffer(l, layer, r.depth);
    }
    MainKeeps(r, kind, layer, SlotOf(layer, r.depth));
  }

  /* ----- what the slots hold ----- */

  /** A write on the main stream spoils exactly the pending layer that shares its slot. */
  lemma IntactAfterMain(r: Ring, kind: Kind, layer: int, slot: nat, l: nat)
    requires Inv(r) && l in r.pending
    ensures Intact(OnMain(r, kind, layer, slot), l) <==> Intact(r, l) && (kind == Attend || slot != SlotOf(l, r.depth))
  {
    hide Ordered, InLaunchOrder;
    var s := OnMain(r, kind, layer, slot);
    assert EntryOk(r, l);
    assert s.log[|r.log|] == Op(Main, kind, layer, layer, slot, r.step, r.mainSees);
    assert forall k {:trigger r.log[k]} :: 0 <= k < |r.log| ==> s.log[k] == r.log[k];
  }

  lemma IntactAfterPrefetch(r: Ring, layer: nat, target: nat, l: nat)
    requires Inv(r) && target !in r.pending && (l == target || l in r.pending)
    requires l != target ==> SlotOf(l, r.depth) != SlotOf(target, r.depth)
    ensures Intact(Prefetch(r, layer, target), l) <==> l == target || Intact(r, l)
  {
    hide Ordered, InLaunchOrder;
    var s := Prefetch(r, layer, target);
    if l != target {
      assert EntryOk(r, l);
    }
    assert forall k {:trigger r.log[k]} :: 0 <= k < |r.log| ==> s.log[k] == r.log[k];
  }

  /** Every pending layer still ahead finds its own gather in its slot. */
  ghost predicate AllIntact(r: Ring) {
    forall l :: l in r.pending && l > r.last ==> Intact(r, l)
  }

  /** A layer's own work leaves the prefetches ahead intact. */
  lemma OwnSlotIntact(r: Ring, kind: Kind, layer: nat)
    requires Inv(r) && r.last == layer && AllIntact(r)
    ensures AllIntact(OnMain(r, kind, layer, SlotOf(layer, r.depth)))
  {
    hide Inv;
    forall l | l in r.pending && l > layer
      ensures Intact(OnMain(r, kind, layer, SlotOf(layer, r.depth)), l)
    {
      IntactAfterMain(r, kind, layer, SlotOf(layer, r.depth), l);
      AheadDiffers(r, layer, l);
    }
  }

  lemma AheadDiffers(r: Ring, layer: nat, l: nat)
    requires Inv(r) && r.last == layer && l in r.pending && l > layer
    ensures l <= layer + r.depth && SlotOf(l, r.depth) != SlotOf(layer, r.depth)
  {
    hide Ordered, InLaunchOrder;
    assert EntryOk(r, l);
    SlotsDiffer(l, layer, r.depth);
  }

  lemma PrefetchIntact(r: Ring, layer: nat, target: nat)
    requires Inv(r) && r.last == layer && AllIntact(r) && layer < target <= layer + r.depth && target !in r.pending
    ensures AllIntact(Prefetch(r, layer, target))
  {
    hide Inv;
    forall l | l in Prefetch(r, layer, target).pending && l > layer
      ensures Intact(Prefetch(r, layer, target), l)
    {
      if l != target {
        AheadDiffers(r, layer, l);
        SlotsDiffer(l, target, r.depth);
      }
      IntactAfterPrefetch(r, layer, target, l);
    }
  }

  /** Queued work of other layers: prefetches into other slots than `slot`. */
  ghost predicate Elsewhere(log: seq<Op>, from: nat, slot: nat) {
    forall k {:trigger log[k]} :: from <= k < |log| ==> log[k].slot != slot
  }

  /** Position `i` is the layer's gather of this step, complete, and only its own appends touched the slot since. */
  ghost predicate SlotHolds(log: seq<Op>, i: int, layer: int, slot: nat, step: nat) {
    && 0 <= i < |log|
    && log[i].kind == Gather && log[i].layer == layer && log[i].step == step && log[i].slot == slot
    && Completed(log, i, |log|)
    && (forall k {:trigger log[k]} :: i < k < |log| && log[k].slot == slot && log[k].kind != Attend ==>
          log[k].kind == Append && log[k].layer == layer && log[k].step == step)
  }

  /** A prefetched layer whose slot is intact finds its own gather there. */
  lemma HitHolds(r: Ring, layer: nat, log: seq<Op>)
    requires Inv(r) && layer in r.pending && Intact(r, layer)
    requires |log| == |r.log| + 1 && r.log == log[..|r.log|] && log[|r.log|].kind == Append
    requires log[|r.log|].layer == layer && log[|r.log|].step == r.step && log[|r.log|].slot == SlotOf(layer, r.depth)
    ensures SlotHolds(log, r.pending[layer].event - 1, layer, SlotOf(layer, r.depth), r.step)
  {
    hide Ordered, InLaunchOrder;
    assert EntryOk(r, layer);
    assert forall k {:trigger log[k]} :: 0 <= k < |r.log| ==> log[k] == r.log[k];
  }

  lemma LaterElsewhere(log: seq<Op>, log': seq<Op>, i: int, layer: int, slot: nat, step: nat)
    requires SlotHolds(log, i, layer, slot, step) && log <= log' && Elsewhere(log', |log|, slot)
    ensures SlotHolds(log', i, layer, slot, step)
  {
    assert forall k {:trigger log'[k]} :: 0 <= k < |log| ==> log'[k] == log[k];
    StaysCompleted(log, log', i, |log|, |log'|);
  }

  lemma HoldsFeeds(log: seq<Op>, i: int, op: Op)
    requires op.kind == Attend && SlotHolds(log, i, op.layer, op.slot, op.step)
    ensures ReadsOwnGather(log + [op])
  {
    var j := |log + [op]| - 1;
    assert Feeds(log + [op], i, j) by {
      assert forall k {:trigger (log + [op])[k]} :: 0 <= k < |log| ==> (log + [op])[k] == log[k];
      StaysCompleted(log, log + [op], i, |log|, j);
    }
  }

  ghost predicate ReadsAt(log: seq<Op>, j: int) {
    exists i :: Feeds(log, i, j)
  }

  /** The last operation reads its own gather. */
  ghost predicate ReadsOwnGather(log: seq<Op>) {
    ReadsAt(log, |log| - 1)
  }

  /** Every attention reads a gather of its own layer and step. */
  ghost predicate ReadsAll(log: seq<Op>) {
    forall j :: 0 <= j < |log| && log[j].kind == Attend ==> ReadsAt(log, j)
  }

  lemma ReadsAppend(log: seq<Op>, op: Op)
    requires ReadsAll(log) && (op.kind != Attend || ReadsOwnGather(log + [op]))
    ensures ReadsAll(log + [op])
  {
    var longer := log + [op];
    forall j | 0 <= j < |longer| && longer[j].kind == Attend
      ensures ReadsAt(longer, j)
    {
      if j < |log| {
        assert longer[j] == log[j] && ReadsAt(log, j);
        var i :| Feeds(log, i, j);
        assert forall k {:trigger longer[k]} :: 0 <= k < |log| ==> longer[k] == log[k];
        StaysCompleted(log, longer, i, j, j);
        assert Feeds(longer, i, j);
      }
    }
  }

  /** Waiting, entering a layer and dropping entries leave the slots as they are. */
  lemma IntactKept(r: Ring, s: Ring)
    requires AllIntact(r) && s.log == r.log && s.depth == r.depth && r.last <= s.last
    requires forall l :: l in s.pending ==> l in r.pending && s.pending[l] == r.pending[l]
    ensures AllIntact(s)
  {
    forall l | l in s.pending && l > s.last
      ensures Intact(s, l)
    {
      assert Intact(r, l);
    }
  }

  /** Without lookahead nothing is ever pending. */
  lemma NoLookahead(r: Ring)
    requires Inv(r) && r.depth == 0
    ensures r.pending == map[]
  {
    if l :| l in r.pending {
      EntryNeedsLookahead(r, l);
    }
  }

  lemma EntryNeedsLookahead(r: Ring, l: nat)
    requires Inv(r) && l in r.pending
    ensures r.depth > 0
  {
    hide Ordered, InLaunchOrder;
    assert EntryOk(r, l);
  }

  /* ----- who wrote what in this step ----- */

  /** With lookahead, nothing of this step was written for a layer still ahead but its pending gather. */
  predicate KnownAt(r: Ring, k: nat)
    requires k < |r.log|
  {
    var op := r.log[k];
    && op.step <= r.step
    && (r.depth > 0 && op.step == r.step && op.kind != Attend && op.layer > r.last ==>
          op.kind == Gather && op.layer >= 0 && op.layer in r.pending && r.pending[op.layer].event == k + 1)
  }

  ghost predicate Fresh(r: Ring) {
    forall k {:trigger KnownAt(r, k)} :: 0 <= k < |r.log| ==> KnownAt(r, k)
  }

  /** Waiting, entering a layer, and dropping the entry of a layer no longer ahead. */
  lemma FreshKept(r: Ring, s: Ring)
    requires Fresh(r) && s.log == r.log && s.depth == r.depth && s.step == r.step && r.last <= s.last
    requires forall l :: l in r.pending && l > s.last ==> l in s.pending && s.pending[l] == r.pending[l]
    ensures Fresh(s)
  {
    forall k | 0 <= k < |s.log|
      ensures KnownAt(s, k)
    {
      assert KnownAt(r, k);
    }
  }

  lemma FreshCleared(r: Ring)
    requires Fresh(r)
    ensures Fresh(r.(pending := map[], last := -1, step := r.step + 1))
  {
    var s := r.(pending := map[], last := -1, step := r.step + 1);
    forall k | 0 <= k < |s.log|
      ensures KnownAt(s, k)
    {
      assert KnownAt(r, k);
    }
  }

  lemma FreshMain(r: Ring, kind: Kind, layer: int, slot: nat)
    requires Fresh(r) && (layer <= r.last || r.depth == 0)
    ensures Fresh(OnMain(r, kind, layer, slot))
  {
    var s := OnMain(r, kind, layer, slot);
    forall k | 0 <= k < |s.log|
      ensures KnownAt(s, k)
    {
      if k < |r.log| {
        assert KnownAt(r, k) && s.log[k] == r.log[k];
      }
    }
  }

  lemma FreshPrefetch(r: Ring, layer: nat, target: nat)
    requires Fresh(r) && target !in r.pending
    ensures Fresh(Prefetch(r, layer, target))
  {
    var s := Prefetch(r, layer, target);
    forall k | 0 <= k < |s.log|
      ensures KnownAt(s, k)
    {
      if k < |r.log| {
        assert KnownAt(r, k) && s.log[k] == r.log[k];
      }
    }
  }

  /** The prefetch of a layer about to run was overwritten. */
  ghost predicate Spoiled(r: Ring, layer: nat) {
    r.last < layer && layer in r.pending && !Intact(r, layer)
  }

  /** Then no gather feeds the layer's attention, as long as it is not gathered again. */
  lemma SpoiledNeverFeeds(r: Ring, layer: nat, log: seq<Op>, j: nat)
    requires Inv(r) && Fresh(r) && Spoiled(r, layer) && r.log <= log && |r.log| <= j < |log|
    requires log[j].kind == Attend && log[j].layer == layer && log[j].step == r.step
    requires log[j].slot == SlotOf(layer, r.depth)
    requires forall k {:trigger log[k]} :: |r.log| <= k < j && log[k].slot == SlotOf(layer, r.depth) ==>
      log[k].kind != Gather
    ensures !ReadsAt(log, j)
  {
    hide Ordered, InLaunchOrder;
    assert EntryOk(r, layer);
    EntryNeedsLookahead(r, layer);
    var e := r.pending[layer].event;
    var k :| e <= k < |r.log| && r.log[k].kind != Attend && r.log[k].slot == SlotOf(layer, r.depth);
    assert log[k] == r.log[k] && KnownAt(r, k);
    forall i
      ensures !Feeds(log, i, j)
    {
      if 0 <= i < |r.log| {
        assert log[i] == r.log[i] && KnownAt(r, i);
      }
    }
  }
}
