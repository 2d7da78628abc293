/** The exact-slot pool shared by the layers of one cache group.

    A pool of `size` slots holds the blocks that must stay exact.  Preparing a step gives every
    needed block a slot, releases the others (flushing the full ones first) and patches the
    per-device mirrors of the block-to-slot mapping. */
module ExactPool {
  import opened FillMaps

  datatype PoolState = PoolState(size: nat, mapping: map<nat, nat>, free: seq<nat>, fill: map<nat, nat>)

  ghost predicate Injective(m: map<nat, nat>) {
    forall a, b :: a in m && b in m && a != b ==> m[a] != m[b]
  }

  /** Free and mapped slots partition 0..size without duplicates. */
  ghost predicate Partition(s: PoolState) {
    && Distinct(s.free) && Injective(s.mapping)
    && (forall i :: 0 <= i < |s.free| ==> s.free[i] < s.size)
    && (forall b :: b in s.mapping ==> s.mapping[b] < s.size && s.mapping[b] !in s.free)
    && |s.free| + |s.mapping| == s.size
  }

  function SlotRange(n: nat): (slots: set<nat>)
    ensures forall k: nat :: k in slots <==> k < n
    ensures |slots| == n
  {
    if n == 0 then {} else SlotRange(n - 1) + {n - 1}
  }

  ghost function Elements(s: seq<nat>): set<nat> {
    set k | k in s
  }

  lemma {:induction false} DistinctSize(s: seq<nat>)
    requires Distinct(s)
    ensures |Elements(s)| == |s|
  {
    if s != [] {
      var front, last := s[..|s| - 1], s[|s| - 1];
      DistinctSize(front);
      assert s == front + [last];
      assert Elements(s) == Elements(front) + {last};
      assert last !in front;
    }
  }

  lemma {:induction false} InjectiveSize(m: map<nat, nat>)
    requires Injective(m)
    ensures |m.Values| == |m|
    decreases |m|
  {
    if m != map[] {
      var b :| b in m;
      var rest := m - {b};
      assert rest.Keys == m.Keys - {b};
      assert |rest| == |m| - 1;
      InjectiveSize(rest);
      forall v | v in m.Values
        ensures v in rest.Values + {m[b]}
      {
        var k :| k in m && m[k] == v;
        if k != b {
          assert k in rest && rest[k] == v;
        }
      }
      assert m.Values == rest.Values + {m[b]};
      assert m[b] !in rest.Values;
    }
  }

  lemma SubsetOfSameSize(a: set<nat>, b: set<nat>)
    requires a <= b && |a| == |b|
    ensures a == b
  {
    if exists k :: k in b && k !in a {
      var k :| k in b && k !in a;
      assert |b - {k}| == |b| - 1;
      SubsetIsSmaller(a, b - {k});
    }
  }

  lemma {:induction false} SubsetIsSmaller(a: set<nat>, b: set<nat>)
    requires a <= b
    ensures |a| <= |b|
  {
    if a != {} {
      var k :| k in a;
      SubsetIsSmaller(a - {k}, b - {k});
      assert |b - {k}| == |b| - 1;
    }
  }

  /** No slot is lost: every slot below the size is free or holds a block. */
  lemma EverySlotAccounted(s: PoolState, slot: nat)
    requires Partition(s) && slot < s.size
    ensures slot in s.free || exists b :: b in s.mapping && s.mapping[b] == slot
  {
    hide Distinct, Injective;
    var free, used := Elements(s.free), s.mapping.Values;
    DistinctSize(s.free);
    InjectiveSize(s.mapping);
    SlotsInRange(s);
    AllTaken(free, used, SlotRange(s.size));
    assert slot in SlotRange(s.size);
  }

  lemma SlotsInRange(s: PoolState)
    requires Partition(s)
    ensures Elements(s.free) !! s.mapping.Values && Elements(s.free) + s.mapping.Values <= SlotRange(s.size)
  {
    hide Distinct, Injective;
  }

  lemma AllTaken(a: set<nat>, b: set<nat>, all: set<nat>)
    requires a !! b && a + b <= all && |a| + |b| == |all|
    ensures a + b == all
  {
    assert |a + b| == |a| + |b|;
    SubsetOfSameSize(a + b, all);
  }

  // ---- what one step does ----

  /** Stored fills after the step's snapshot replaced those of its blocks. */
  function NotedFills(fill: map<nat, nat>, fills: Blocks): map<nat, nat> {
    map b | b in fill.Keys + fills.Keys && (b in fills ==> fills[b].Known?) ::
      if b in fills then fills[b].tokens else fill[b]
  }

  lemma NothingNoted(fill: map<nat, nat>, fills: Blocks)
    ensures NotedFills(fill, fills - fills.Keys) == fill
  {
  }

  /** Noting one more of the fills still to do. */
  lemma OneMoreNoted(fill: map<nat, nat>, fills: Blocks, todo: set<nat>, b: nat)
    requires b in todo && todo <= fills.Keys
    ensures var noted := NotedFills(fill, fills - todo);
      NotedFills(fill, fills - (todo - {b})) == if fills[b].Known? then noted[b := fills[b].tokens] else noted - {b}
  {
  }

  function Retired(mapping: map<nat, nat>, fills: Blocks): set<nat> {
    mapping.Keys - fills.Keys
  }

  /** The retired blocks that are packed from their slots: exactly the full ones. */
  function Flushed(s: PoolState, fills: Blocks, group: nat): map<nat, nat> {
    map b | b in s.mapping && b !in fills
            && b in NotedFills(s.fill, fills) && NotedFills(s.fill, fills)[b] >= group :: s.mapping[b]
  }

  /** Slots after the release phase. */
  ghost predicate Released(before: PoolState, fills: Blocks, after: PoolState) {
    && after.size == before.size
    && after.mapping == before.mapping - Retired(before.mapping, fills)
    && after.fill == NotedFills(before.fill, fills) - Retired(before.mapping, fills)
  }

  /** A completed step: needed blocks are exactly the mapped ones, and those that were mapped
      keep their slots. */
  ghost predicate Prepared(before: PoolState, fills: Blocks, after: PoolState) {
    && after.size == before.size
    && after.mapping.Keys == fills.Keys
    && (forall b :: b in before.mapping && b in fills ==> after.mapping[b] == before.mapping[b])
    && after.fill == NotedFills(before.fill, fills) - Retired(before.mapping, fills)
  }

  /** After a step the stored fills of needed blocks are those of the snapshot, an unknown one is forgotten, and a
      retired block has none: a block is flushed only if the last snapshot that needed it showed it full. */
  lemma StoredFills(before: PoolState, fills: Blocks, after: PoolState, later: Blocks, group: nat, b: nat)
    requires Prepared(before, fills, after)
    ensures b in fills ==>
      (b in after.fill <==> fills[b].Known?) && (b in after.fill ==> after.fill[b] == fills[b].tokens)
    ensures b in before.mapping && b !in fills ==> b !in after.fill
    ensures b in Flushed(after, later, group) <==>
      b in fills && b !in later && fills[b].Known? && fills[b].tokens >= group
  {
  }

  function Lookup(mapping: map<nat, nat>, b: nat): int {
    if b in mapping then mapping[b] else -1
  }

  /** The device image of the mapping for the first `n` blocks. */
  function MirrorOf(mapping: map<nat, nat>, n: nat): seq<int> {
    seq(n, b requires 0 <= b < n => Lookup(mapping, b))
  }

  function Patched(mirror: seq<int>, updates: map<nat, int>): seq<int> {
    seq(|mirror|, b requires 0 <= b < |mirror| => if b in updates then updates[b] else mirror[b])
  }

  function StepUpdates(before: map<nat, nat>, after: map<nat, nat>): map<nat, int> {
    map b | b in before.Keys + after.Keys && (b !in before || b !in after) :: Lookup(after, b)
  }

  /** Retired blocks become unmapped, missing ones get their new slot. */
  function MirrorUpdates(retired: set<nat>, missing: set<nat>, mapping: map<nat, nat>): map<nat, int> {
    map b | b in retired + missing :: if b in missing then Lookup(mapping, b) else -1
  }

  /** Patching retired and new blocks is the same as rebuilding the whole mirror. */
  lemma PatchIsRebuild(before: map<nat, nat>, after: map<nat, nat>, n: nat)
    requires forall b :: b in before && b in after ==> after[b] == before[b]
    ensures Patched(MirrorOf(before, n), StepUpdates(before, after)) == MirrorOf(after, n)
  {
  }

  lemma PreparedMirror(before: PoolState, fills: Blocks, after: PoolState, mirror: seq<int>)
    requires Prepared(before, fills, after) && mirror == MirrorOf(before.mapping, |mirror|)
    ensures Patched(mirror, StepUpdates(before.mapping, after.mapping)) == MirrorOf(after.mapping, |mirror|)
  {
    PatchIsRebuild(before.mapping, after.mapping, |mirror|);
  }

  lemma KeysSize(m: map<nat, nat>, gone: set<nat>)
    requires gone <= m.Keys
    ensures |m - gone| == |m| - |gone|
  {
    assert (m - gone).Keys == m.Keys - gone;
    assert m.Keys == (m.Keys - gone) + gone;
  }

  /** After a failed step the unpatched mirror is still right exactly when none of the released
      blocks lies within it. */
  lemma FailedStepMirror(before: PoolState, fills: Blocks, after: PoolState, n: nat)
    requires Released(before, fills, after)
    ensures MirrorOf(before.mapping, n) == MirrorOf(after.mapping, n)
       <==> forall b :: b in Retired(before.mapping, fills) ==> b >= n
  {
    var was, now := MirrorOf(before.mapping, n), MirrorOf(after.mapping, n);
    forall b | b in Retired(before.mapping, fills) && b < n
      ensures was[b] != now[b]
    {
    }
    if forall b :: b in Retired(before.mapping, fills) ==> b >= n {
      forall b | 0 <= b < n
        ensures was[b] == now[b]
      {
        assert b in before.mapping ==> b in fills;
      }
    }
  }

  class Group {
    const size: nat
    var mapping: map<nat, nat>
    var freeSlots: seq<nat>
    var blockFill: map<nat, nat>
    /** Device images of the mapping; each device has its own array. */
    var mirrors: map<nat, array<int>>

    ghost function State(): PoolState
      reads this
    {
      PoolState(size, mapping, freeSlots, blockFill)
    }

    ghost predicate Valid()
      reads this
    {
      Partition(State()) && SeparateMirrors(mirrors)
    }

    ghost predicate MirrorsAgree()
      reads this, mirrors.Values
    {
      forall d :: d in mirrors ==> mirrors[d][..] == MirrorOf(mapping, mirrors[d].Length)
    }

    constructor (size: nat)
      ensures Valid() && this.size == size && mapping == map[] && blockFill == map[] && mirrors == map[]
      ensures MirrorsAgree()
    {
      this.size := size;
      mapping, blockFill, mirrors := map[], map[], map[];
      freeSlots := seq(size, k requires 0 <= k < size => size - 1 - k);
    }

    /** Record the snapshot's fills; unknown ones are forgotten. */
    method NoteFills(fills: Blocks)
      modifies this`blockFill
      ensures blockFill == NotedFills(old(blockFill), fills)
    {
      hide NotedFills;
      ghost var fill0 := blockFill;
      var todo := fills.Keys;
      NothingNoted(fill0, fills);
      while todo != {}
        invariant todo <= fills.Keys
        invariant blockFill == NotedFills(fill0, fills - todo)
        decreases todo
      {
        var b :| b in todo;
        OneMoreNoted(fill0, fills, todo, b);
        match fills[b] {
          case Unknown => blockFill := blockFill - {b};
          case Known(tokens) => blockFill := blockFill[b := tokens];
        }
        todo := todo - {b};
      }
      assert fills - todo == fills;
    }

    method FreeBlock(b: nat)
      requires Valid() && b in mapping
      modifies this`mapping, this`freeSlots, this`blockFill
      ensures Valid()
      ensures mapping == old(mapping) - {b} && blockFill == old(blockFill) - {b}
      ensures freeSlots == old(freeSlots) + [old(mapping)[b]]
    {
      hide Partition;
      FreeKeepsPartition(State(), b, blockFill - {b});
      freeSlots := freeSlots + [mapping[b]];
      mapping := mapping - {b};
      blockFill := blockFill - {b};
    }

    /** Return the slots of the retired blocks. */
    method Release(retired: set<nat>)
      requires Valid() && retired <= mapping.Keys
      modifies this`mapping, this`freeSlots, this`blockFill
      ensures Valid()
      ensures mapping == old(mapping) - retired && blockFill == old(blockFill) - retired
    {
      hide Valid;
      ghost var mapping0, fill0 := mapping, blockFill;
      var todo := retired;
      while todo != {}
        invariant todo <= retired <= mapping0.Keys
        invariant mapping == mapping0 - (retired - todo) && blockFill == fill0 - (retired - todo)
        invariant Valid()
        decreases todo
      {
        var b :| b in todo;
        DropOneMore(mapping0, retired, todo, b);
        DropOneMore(fill0, retired, todo, b);
        FreeBlock(b);
        todo := todo - {b};
      }
    }

    /** Map `b` to the slot on top of the free stack. */
    method TakeSlot(b: nat)
      requires Valid() && b !in mapping && freeSlots != []
      modifies this`mapping, this`freeSlots
      ensures Valid()
      ensures freeSlots == old(freeSlots)[..|old(freeSlots)| - 1]
      ensures mapping == old(mapping)[b := old(freeSlots)[|old(freeSlots)| - 1]]
    {
      hide Partition;
      TakeKeepsPartition(State(), b);
      var slot := freeSlots[|freeSlots| - 1];
      freeSlots := freeSlots[..|freeSlots| - 1];
      mapping := mapping[b := slot];
    }

    /** Give every missing block, lowest first, the slot on top of the free stack. */
    method Assign(missing: set<nat>)
      requires Valid() && missing !! mapping.Keys && |missing| <= |freeSlots|
      modifies this`mapping, this`freeSlots
      ensures Valid()
      ensures Extends(old(mapping), missing, mapping)
    {
      hide Valid, Extends;
      ExtendsNothing(mapping);
      ghost var mapping0, done := mapping, {};
      var todo := missing;
      while todo != {}
        invariant Valid() && |todo| <= |freeSlots|
        invariant done + todo == missing
        invariant forall b :: b in todo ==> b !in mapping
        invariant Extends(mapping0, done, mapping)
        decreases todo
      {
        var b := Lowest(todo);
        ghost var before := mapping;
        TakeSlot(b);
        ExtendsMore(mapping0, done, before, b, mapping[b]);
        todo, done := todo - {b}, done + {b};
      }
    }

    /** Overwrite the listed entries of one mirror; blocks beyond it are skipped. */
    static method UpdateMirror(mirror: array<int>, updates: map<nat, int>)
      modifies mirror
      ensures mirror[..] == Patched(old(mirror[..]), updates)
    {
      ghost var image := mirror[..];
      var todo := updates.Keys;
      while todo != {}
        invariant todo <= updates.Keys
        invariant forall b :: 0 <= b < mirror.Length ==>
          mirror[b] == if b in updates && b !in todo then updates[b] else image[b]
        decreases todo
      {
        var b :| b in todo;
        if b < mirror.Length {
          mirror[b] := updates[b];
        }
        todo := todo - {b};
      }
    }

    /** Rebuild one mirror from the mapping. */
    method SyncMirror(mirror: array<int>)
      modifies mirror
      ensures mirror[..] == MirrorOf(mapping, mirror.Length)
    {
      for k := 0 to mirror.Length
        invariant forall b :: 0 <= b < k ==> mirror[b] == -1
      {
        mirror[k] := -1;
      }
      UpdateMirror(mirror, map b | b in mapping :: Lookup(mapping, b));
    }

    /** The device's mirror of at least `numBlocks` entries, rebuilt when it had to be replaced. */
    method EnsureMirror(device: nat, numBlocks: nat) returns (mirror: array<int>)
      requires Valid() && MirrorsAgree()
      modifies this`mirrors
      ensures Valid() && MirrorsAgree()
      ensures device in mirrors && mirrors[device] == mirror && mirror.Length >= numBlocks
      ensures fresh(mirror) || mirror in old(mirrors).Values
      ensures mirrors.Keys == old(mirrors.Keys) + {device}
      ensures forall d :: d in old(mirrors) && d != device ==> mirrors[d] == old(mirrors)[d]
    {
      if device in mirrors && mirrors[device].Length >= numBlocks {
        return mirrors[device];
      }
      mirror := new int[numBlocks];
      SyncMirror(mirror);
      mirrors := mirrors[device := mirror];
    }

    method PatchMirrors(updates: map<nat, int>)
      requires SeparateMirrors(mirrors)
      modifies mirrors.Values
      ensures forall d :: d in mirrors ==> mirrors[d][..] == Patched(old(mirrors[d][..]), updates)
    {
      var todo := mirrors.Keys;
      while todo != {}
        invariant todo <= mirrors.Keys
        invariant forall d :: d in mirrors && d in todo ==> mirrors[d][..] == old(mirrors[d][..])
        invariant forall d :: d in mirrors && d !in todo ==> mirrors[d][..] == Patched(old(mirrors[d][..]), updates)
        decreases todo
      {
        var d :| d in todo;
        UpdateMirror(mirrors[d], updates);
        todo := todo - {d};
      }
    }

    /** Prepare one step.  It fails exactly when more blocks are needed than there are slots; a
        failed step has already released and flushed, but not patched any mirror. */
    method PrepareStep(fills: Blocks, group: nat) returns (ok: bool, flushed: map<nat, nat>)
      requires Valid()
      modifies this`mapping, this`freeSlots, this`blockFill, mirrors.Values
      ensures Valid()
      ensures ok <==> |fills| <= size
      ensures flushed == Flushed(old(State()), fills, group)
      ensures ok ==> Prepared(old(State()), fills, State())
      ensures !ok ==> Released(old(State()), fills, State())
      ensures ok && old(MirrorsAgree()) ==> MirrorsAgree()
      ensures !ok ==> forall d :: d in mirrors ==> mirrors[d][..] == old(mirrors[d][..])
    {
      hide Partition, Prepared, Released, Flushed, Patched, MirrorOf, StepUpdates;
      var updates;
      ok, flushed, updates := Remap(fills, group);
      if ok {
        PatchMirrors(updates);
        if old(MirrorsAgree()) {
          forall d | d in mirrors
            ensures mirrors[d][..] == MirrorOf(mapping, mirrors[d].Length)
          {
            PreparedMirror(old(State()), fills, State(), old(mirrors[d][..]));
          }
        }
      }
    }

    /** The part of a step that touches only the mapping: note fills, flush, release, assign. */
    method Remap(fills: Blocks, group: nat) returns (ok: bool, flushed: map<nat, nat>, updates: map<nat, int>)
      requires Valid()
      modifies this`mapping, this`freeSlots, this`blockFill
      ensures Valid()
      ensures ok <==> |fills| <= size
      ensures flushed == Flushed(old(State()), fills, group)
      ensures ok ==> Prepared(old(State()), fills, State())
      ensures !ok ==> Released(old(State()), fills, State())
      ensures ok ==> updates == StepUpdates(old(mapping), mapping)
    {
      hide Partition, SeparateMirrors, Prepared, Released, Flushed, StepUpdates, Extends;
      ghost var before := State();
      var retired := Retired(mapping, fills);
      flushed := ReleaseRetired(fills, group);
      ghost var released := State();
      RetiredKeys(before, fills, released);
      var missing := fills.Keys - mapping.Keys;
      SlotsAddUp(released);
      MissingSize(fills, mapping, freeSlots, size);
      ok := |missing| <= |freeSlots|;
      updates := map[];
      if ok {
        Assign(missing);
        AssignedIsPrepared(before, fills, released, State());
        updates := MirrorUpdates(retired, missing, mapping);
      }
    }

    /** Note the snapshot's fills, pick the full retired blocks for flushing, release the retired. */
    method ReleaseRetired(fills: Blocks, group: nat) returns (flushed: map<nat, nat>)
      requires Valid()
      modifies this`mapping, this`freeSlots, this`blockFill
      ensures Valid()
      ensures flushed == Flushed(old(State()), fills, group)
      ensures Released(old(State()), fills, State())
    {
      hide Partition, SeparateMirrors, NotedFills, Flushed, Released;
      ghost var before := State();
      NoteFills(fills);
      FillIsFree(before, blockFill);
      flushed := map b | b in mapping && b !in fills && b in blockFill && blockFill[b] >= group :: mapping[b];
      FlushedIs(before, fills, group, blockFill, flushed);
      Release(mapping.Keys - fills.Keys);
      ReleasedIs(before, fills, State());
    }
  }

  lemma FlushedIs(before: PoolState, fills: Blocks, group: nat, noted: map<nat, nat>, flushed: map<nat, nat>)
    requires noted == NotedFills(before.fill, fills)
    requires flushed
          == map b | b in before.mapping && b !in fills && b in noted && noted[b] >= group :: before.mapping[b]
    ensures flushed == Flushed(before, fills, group)
  {
    hide NotedFills;
  }

  lemma ReleasedIs(before: PoolState, fills: Blocks, after: PoolState)
    requires after.size == before.size && after.mapping == before.mapping - (before.mapping.Keys - fills.Keys)
    requires after.fill == NotedFills(before.fill, fills) - (before.mapping.Keys - fills.Keys)
    ensures Released(before, fills, after)
  {
    hide NotedFills;
  }

  lemma RetiredKeys(before: PoolState, fills: Blocks, released: PoolState)
    requires Released(before, fills, released)
    ensures released.mapping.Keys == before.mapping.Keys * fills.Keys
  {
  }

  lemma AssignedIsPrepared(before: PoolState, fills: Blocks, released: PoolState, after: PoolState)
    requires Released(before, fills, released)
    requires after.size == released.size && after.fill == released.fill
    requires Extends(released.mapping, fills.Keys - released.mapping.Keys, after.mapping)
    ensures Prepared(before, fills, after)
    ensures StepUpdates(before.mapping, after.mapping)
         == MirrorUpdates(Retired(before.mapping, fills), fills.Keys - released.mapping.Keys, after.mapping)
  {
  }

  lemma FillIsFree(s: PoolState, fill: map<nat, nat>)
    requires Partition(s)
    ensures Partition(s.(fill := fill))
  {
  }

  lemma SlotsAddUp(s: PoolState)
    requires Partition(s)
    ensures |s.free| + |s.mapping| == s.size
  {
  }

  ghost predicate SeparateMirrors(mirrors: map<nat, array<int>>) {
    forall d, e :: d in mirrors && e in mirrors && d != e ==> mirrors[d] != mirrors[e]
  }

  /** The missing blocks outnumber the free slots exactly when the needed blocks outnumber all slots. */
  lemma MissingSize(fills: Blocks, mapping: map<nat, nat>, free: seq<nat>, size: nat)
    requires mapping.Keys <= fills.Keys && |free| + |mapping| == size
    ensures |fills.Keys - mapping.Keys| <= |free| <==> |fills| <= size
  {
    assert fills.Keys == (fills.Keys - mapping.Keys) + mapping.Keys;
    assert |fills| == |fills.Keys| && |mapping| == |mapping.Keys|;
  }

  /** `m` is `base` with entries added for exactly the blocks in `added`. */
  ghost predicate Extends(base: map<nat, nat>, added: set<nat>, m: map<nat, nat>) {
    m.Keys == base.Keys + added && forall b :: b in base ==> m[b] == base[b]
  }

  lemma ExtendsNothing(m: map<nat, nat>)
    ensures Extends(m, {}, m)
  {
  }

  lemma ExtendsMore(base: map<nat, nat>, added: set<nat>, m: map<nat, nat>, b: nat, slot: nat)
    requires Extends(base, added, m) && b !in m
    ensures Extends(base, added + {b}, m[b := slot])
  {
  }

  lemma DropOneMore(m: map<nat, nat>, gone: set<nat>, todo: set<nat>, b: nat)
    requires b in todo && todo <= gone
    ensures (m - (gone - todo)) - {b} == m - (gone - (todo - {b}))
  {
  }

  lemma FreeKeepsPartition(s: PoolState, b: nat, fill: map<nat, nat>)
    requires Partition(s) && b in s.mapping
    ensures Partition(PoolState(s.size, s.mapping - {b}, s.free + [s.mapping[b]], fill))
  {
    KeysSize(s.mapping, {b});
  }

  lemma TakeKeepsPartition(s: PoolState, b: nat)
    requires Partition(s) && b !in s.mapping && s.free != []
    ensures Partition(s.(free := s.free[..|s.free| - 1], mapping := s.mapping[b := s.free[|s.free| - 1]]))
  {
    var mapping := s.mapping[b := s.free[|s.free| - 1]];
    assert mapping.Keys == s.mapping.Keys + {b};
    assert |mapping.Keys| == |s.mapping.Keys| + 1;
  }

  method Lowest(s: set<nat>) returns (low: nat)
    requires s != {}
    ensures low in s && forall k :: k in s ==> low <= k
  {
    low :| low in s;
    var todo := s - {low};
    while todo != {}
      invariant todo <= s && low in s
      invariant forall k :: k in s && k !in todo ==> low <= k
      decreases todo
    {
      var k :| k in todo;
      if k < low {
        low := k;
      }
      todo := todo - {k};
    }
  }

  lemma OnlySlot(before: PoolState, fills: Blocks, after: PoolState)
    requires Prepared(before, fills, after) && Partition(after) && after.size == 1 && fills == map[0 := Known(1)]
    ensures after.mapping == map[0 := 0]
  {
    hide NotedFills, Retired, Partition;
    SlotInPool(after, 0);
    OnlyMapping(after.mapping);
  }

  lemma SlotInPool(s: PoolState, b: nat)
    requires Partition(s) && b in s.mapping
    ensures s.mapping[b] < s.size
  {
  }

  lemma OnlyMapping(m: map<nat, nat>)
    requires m.Keys == {0} && m[0] == 0
    ensures m == map[0 := 0]
  {
  }

  lemma TwoNeeded(others: Blocks)
    requires others == map[1 := Known(1), 2 := Known(1)]
    ensures |others| == 2 && 0 !in others
  {
    assert others.Keys == {1, 2};
  }

  lemma OnlyEntry(n: nat)
    requires n >= 1
    ensures MirrorOf(map[0 := 0], n)[0] == 0
  {
  }

  method OneSlotPool() returns (pool: Group)
    ensures fresh(pool) && pool.Valid() && pool.size == 1 && pool.mapping == map[0 := 0]
    ensures pool.mirrors.Keys == {7} && fresh(pool.mirrors[7]) && pool.mirrors[7].Length >= 1 && pool.mirrors[7][0] == 0
  {
    hide Prepared, Partition, Released, MirrorOf, Flushed, SeparateMirrors;
    pool := new Group(1);
    ghost var start := pool.State();
    var needed: Blocks := map[0 := Known(1)];
    var ok, flushed := pool.PrepareStep(needed, 64);
    OnlySlot(start, needed, pool.State());
    var mirror := pool.EnsureMirror(7, 1);
    OnlyEntry(mirror.Length);
    assert mirror[..][0] == 0;
  }

  /** A pool of one slot maps block 0; a step that needs blocks 1 and 2 fails; and the mirror still
      shows slot 0 for block 0, which has none any more. */
  method FailedStepLeavesStaleMirror() returns (ok: bool, shown: int, slot: int)
    ensures !ok && shown == 0 && slot == -1
  {
    hide Prepared, Partition, MirrorOf, Flushed, SeparateMirrors, NotedFills;
    var pool := OneSlotPool();
    var mirror := pool.mirrors[7];
    ghost var image := mirror[..];
    var others: Blocks := map[1 := Known(1), 2 := Known(1)];
    TwoNeeded(others);
    var flushed;
    ok, flushed := pool.PrepareStep(others, 64);
    assert mirror[..] == image;
    shown, slot := pool.mirrors[7][0], Lookup(pool.mapping, 0);
  }
}
