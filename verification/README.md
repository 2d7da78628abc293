# Verified model of the KVarN MLA cache runtime

This project models, in Dafny, the parts of the KVarN MLA runtime whose correctness rests on more than
one function: which physical cache blocks stay exact and for how long, how the compressed cache is
shipped between context-parallel ranks, and how the per-rank and per-split results are recombined. The
model follows the Python and Triton code branch by branch; the lemmas state what a run, a transfer or a
merge guarantees. `dafny verify dfyconfig.toml` checks the whole project.

## What is modelled

**Exact-pool ownership.** `KVarNMLALiveBlockTracker` keeps the tables that say which blocks must stay
exact and how full each is, across speculative rollback, asynchronous epochs and context-parallel
sharding. `LiveBlockTracker` is that class with its loops and in-place updates; every method is proved
against a function of the tables in `Ownership`. `EpochSafety`, `PoolBound`, `AsyncRefinement`,
`SpeculativeRuns`, `Separation`, `TileSafety`, `PoolSuffices`, `ExactWindow`, `SettledFills` and
`SpeculativeRetirement` prove properties of them over whole runs:
`SpeculativeRuns` follows one request with any number of open epochs under any names, `Separation` keeps
the blocks of one request apart from everybody else's while blocks are recycled, `TileSafety` runs tracker,
slots and caches together, and `PoolSuffices` does so with the configured number of slots. `ExactWindow` says
on token positions what has to stay exact, `SettledFills` what settling an epoch publishes, and
`SpeculativeRetirement` that a speculating request gives up a block only when it is full. `ExactPool` is
`KVarNMLAStateManager.prepare_step` with its free list, mapping and device mirrors.

**Moving the cache.** `WireLayout` and `NativeWire` stage, gather and rebuild the compressed pages byte
by byte, and `WireWindow` says when the pages the tracker keeps exact fit the wire. `GatheredCache` is
the addressing of the gathered buffer. `RingOrder` and `PrefetchRing` are the two-stream prefetch ring
with its happens-before order. `ChunkPlan` and `ContextReorg` are the chunked prefill context and its
reorganization after the all-gather. `FreeBlockQueue` is the doubly linked free list.

**Recombining results.** `TopkMerge` and `CandidateExchange` are the sharded top-k, and `GlobalTopk` is
their composition. `SplitAttention` is the log-sum-exp merge of attention splits. `Sinkhorn` and
`PipelinedSinkhorn` are the two forms of tile balancing, `Quantizer`, `PackedSerializer` and `AffineRefit`
the five-bit serializer, and `TileFlush` takes a tile through balancing, serializing and reading back.

`Sharding` holds the context-parallel arithmetic all of them rest on, `PackedRows` the layout of requests
laid end to end, and `Collectives` the all-gather and all-to-all as rearrangements of sequences.

## Where the code falls short of what it promises

* *A failed step leaves stale mirrors.* `prepare_step` frees retired slots before it notices that the pool
  is too small, and patches the device mirrors only afterwards. After a failure a mirror is up to date if
  and only if no retired block lies within it (`ExactPool.FailedStepMirror`). In
  `ExactPool.FailedStepLeavesStaleMirror` a pool of one slot fails and its mirror still shows the slot.
* *An unindexed layer can spoil a prefetch.* A layer whose index cannot be resolved gathers into ring slot
  0. The accesses stay ordered, but a pending layer keeps its own data if and only if its slot is not 0
  (`PrefetchRing.Lane.ForwardUnindexed`), and attention reads its own gather if and only if its layer was
  not spoiled (`PrefetchRing.Lane.Forward`). `PrefetchRing.UnindexedLayerSpoils` runs into it.
* *Chunk sizes must be whole interleave cycles.* The comment in the builder asks only for divisibility by
  the world size. The three assertions of the reorganization hold for all context lengths if and only if
  the chunk is a multiple of interleave times world size (`ContextReorg.AssertionsNeverFire`,
  `ContextReorg.MisalignedFires`).

## What the code leaves to its callers

These are conditions the modelled functions do not check themselves; where the repository meets them, the
place is named.

* *Block tables must cover their request.* The in-place update equals recomputing the persistent blocks if
  and only if it starts no later than the blocks recorded so far, or nothing is new
  (`AsyncRefinement.FastPathExact`). `AsyncRefinement.GapIsLeftOut` is a table that was too short for its
  request and grows: the block in the gap is needed and left out. Block tables that cover their request
  never leave a gap (`AsyncRefinement.NoGap`).
* *An epoch left behind must not be settled.* A step that opens no epoch does not close an earlier one,
  which stays its request's latest; settling it rewrites the request to the earlier end. The block of the
  last token survives such a settlement if and only if the settled end lies in the same block
  (`SpeculativeRuns.SettledKeepsCurrent`); in `SpeculativeRuns.LeftoverEpochRewinds` it does not. The runner
  that names its epochs settles one only if no step followed it
  (build-exact-h16-v1/vllm/v1/worker/gpu/model_runner.py:1384-1390).
* *Epochs must be closed in order.* That a speculating request's block retires only when it is full is proved
  for calls that close the open epochs of a request oldest first, and settle an epoch only if no other is open
  (`SpeculativeRetirement.RetiresFull`). The runner works through its epochs in order and drops one that a later
  step followed (build-exact-h16-v1/vllm/v1/worker/gpu/model_runner.py:1369-1411).
* *Prefill steps must fit the wire.* The native gather carries the first two and the last fourteen pages of a
  request exactly, and its index kernel asserts that no other page is exact. It is enabled for 64-token groups,
  four ranks, a boundary of at most 128 and a tail of at most 3072 tokens
  (active-r634-b12x-compact/b12x_mla_sparse.py:1913-1923). There the assertion holds for steps of up to 3072
  tokens (`WireWindow.EnabledGeometryFits`) and fails for every step of 4352 or more
  (`WireWindow.LongStepSpills`, for an interleave of one); nothing in the gate bounds the step. The start scripts schedule at most 2048
  tokens (boot-tr3-k4v2.sh:13).
* *Groups must be of 64 tokens.* The serializer stores at most 64 bytes per row and 64 token scales. In the
  64-token format a row takes 40 bytes and every code round-trips
  (`PackedSerializer.SupportedTileRoundTrip`); rows of up to 96 codes always do
  (`PackedSerializer.RowRoundTrip`). Of a wider row only the first 102 codes and what the record happened to
  hold before read back (`PackedSerializer.WideRowIsLost`). The cache format string admits groups of 128, but
  the workspace geometry checks refuse them (active-r634-b12x-compact/config.py:705-728), so no such tile is
  serialized.

## Conventions

Integers are unbounded; the one place where a 32-bit word is stored and read back (the index of the native
wire) is modelled with its encoding. Floating-point values are reals; exponentials, logarithms, deviations
and the numeric decoding of cache records are parameters with stated laws, which are shown to be consistent
(`Sinkhorn.LawsAreConsistent`). GPU programs that write disjoint data are loops over program numbers. Clocks,
streams and collectives appear as the order they impose and the data they move.

## Model

| member | source | states |
|---|---|---|
| Sharding.CountStep | bake-context/kvarn_mla_state_dbg2.py:106-117 | extending a sequence by one token adds one local token to that token's owner and none to any other rank |
| Sharding.CountMonotone | bake-context/kvarn_mla_state_dbg2.py:106-117 | local counts never shrink and grow by at most the number of new tokens |
| Sharding.CountsPartition | bake-context/kvarn_mla_state_dbg2.py:106-117 | over all ranks the local counts add up to the sequence length |
| Sharding.LocalBelowCount | bake-context/kvarn_mla_state_dbg2.py:106-117 | a position is below a length exactly when its local index is below its owner's count for that length |
| Sharding.LocalIndexIsCount | active-r634-b12x-compact/sparse_attn_indexer.py:83-87 | a position's local index is the number of earlier positions its owner holds |
| Sharding.GlobalOfLocal | active-r634-b12x-compact/sparse_attn_indexer.py:73-87 | mapping a local index to its global position and back returns the rank and the index |
| Sharding.LocalOfGlobal | active-r634-b12x-compact/sparse_attn_indexer.py:73-87 | mapping a global position to its owner and back returns the position |
| Sharding.GlobalMonotone | active-r634-b12x-compact/sparse_attn_indexer.py:73-80 | on one rank, local order and global order agree |
| FillMaps.MergeEntries | bake-context/kvarn_mla_state_dbg2.py:119-129 | merging entry by entry yields the pointwise maximum with an unknown fill lowest |
| FillMaps.JoinUnique | bake-context/kvarn_mla_state_dbg2.py:509-533 | the pointwise maximum of a set of sources is unique, so no merge order can matter |
| FillMaps.MergeSources | bake-context/kvarn_mla_state_dbg2.py:509-533 | starting from the largest source and overwriting before re-merging overlaps still yields the pointwise maximum of all sources |
| BlockRanges.PhysicalInjective | bake-context/kvarn_mla_state_dbg2.py:96-103 | distinct logical blocks of a table without repeated manager blocks have distinct physical ids |
| BlockRanges.ManagerBlockIsContiguous | bake-context/kvarn_mla_state_dbg2.py:96-103 | the physical blocks of a manager block follow one another |
| LiveBlockTracker.Tracker.PersistentGroupBlocks | bake-context/kvarn_mla_state_dbg2.py:132-199 | the three loops compute the boundary, tail and current blocks with their fills |
| LiveBlockTracker.Tracker.UpdateInPlace | bake-context/kvarn_mla_state_dbg2.py:420-449 | the fast path rewrites exactly the fills from the first current or touched block on |
| LiveBlockTracker.Tracker.Touch | bake-context/kvarn_mla_state_dbg2.py:467-481 | the written range is merged into the step table and recorded with its logical numbers |
| LiveBlockTracker.Tracker.ConsumeResolved | bake-context/kvarn_mla_state_dbg2.py:201-205 | one epoch's settled fills move into the step tables and nothing else changes |
| LiveBlockTracker.Tracker.ResolveAsync | bake-context/kvarn_mla_state_dbg2.py:207-305 | settling an epoch publishes its fills, settles the owner only if the epoch is its latest, and closes the epoch; `SettledFills.SettledRecordIsExact` and `SettledFillsArePublished` say what becomes of the fills |
| LiveBlockTracker.Tracker.DiscardEpoch | bake-context/kvarn_mla_state_dbg2.py:307-314 | an epoch disappears from all its tables, and from the latest table exactly when it was its owner's latest |
| LiveBlockTracker.Tracker.MarkRequestUnknown | bake-context/kvarn_mla_state_dbg2.py:316-326 | every fill of the request and of its epochs becomes unknown, the blocks stay owned (`EpochSafety.ForgottenFills`) |
| LiveBlockTracker.Tracker.Update | bake-context/kvarn_mla_state_dbg2.py:328-507 | one scheduler step: removals, settled epochs, then every scheduled request in order; `ExactWindow` says which token positions stay exact by it |
| LiveBlockTracker.Tracker.BlockFills | bake-context/kvarn_mla_state_dbg2.py:509-533 | the snapshot is the join of the step, request, epoch and resolved tables of the group |
| EpochSafety.EpochInvariantHolds | bake-context/kvarn_mla_state_dbg2.py:201-348 | after any sequence of tracker calls the pending, retained and owner tables have the same epochs, latest epochs are open and owned, and every block an epoch may write is retained |
| EpochSafety.UnresolvedWritesStayExact | bake-context/kvarn_mla_state_dbg2.py:484-533 | every block an unresolved epoch may write is in the snapshot the slot manager is given |
| EpochSafety.LatestEpochIsUnresolved | bake-context/kvarn_mla_state_dbg2.py:207-326 | a request's latest epoch is open and owned by that request |
| EpochSafety.ForgottenFills | bake-context/kvarn_mla_state_dbg2.py:316-326 | after forgetting a request every fill its tables and the epochs it owns recorded is unknown, entry by entry, no block is dropped, and nobody else's fills change |
| ExactWindow.WindowStaysExact | bake-context/kvarn_mla_state_dbg2.py:132-199 | over whole speculative runs every position of a request that this rank holds and that belongs to the boundary, to the tail of the least end or to what may lie behind it has its block needed |
| ExactWindow.FullContextIsWholeContext | bake-context/kvarn_mla_state_dbg2.py:420-430 | a group takes the in-place path exactly when every position of the request belongs to the boundary or the tail |
| ExactWindow.StepKeepsWindow | bake-context/kvarn_mla_state_dbg2.py:354-465 | after a step from `start` with `tokens` scheduled and `rollback` in doubt the boundary, the tail before `max(start - rollback, 0) + tokens` and everything up to `start + tokens` lie in needed blocks |
| ExactWindow.FillsAreCertain | bake-context/kvarn_mla_state_dbg2.py:354-465 | no fill of a block the request keeps claims a token at or behind `max(start - rollback, 0) + tokens` |
| ExactWindow.EnteringClaims | bake-context/kvarn_mla_state_dbg2.py:467-507 | neither the step table nor the epoch a turn opens claims a token at or behind `max(start - rollback, 0) + tokens` of a block not needed in this step before |
| ExactWindow.WritesAreNeeded | bake-context/kvarn_mla_state_dbg2.py:411-481 | every position a scheduled request may write, from `start - rollback` to `start + tokens`, lies in a block that is needed after the step, whatever the tables held before |
| ExactWindow.WritesAreRecorded | bake-context/kvarn_mla_state_dbg2.py:467-507 | a step with tokens in doubt opens its epoch and records in it the block of every position it may write, under its local number |
| ExactWindow.OpenEpochKeepsWindow | bake-context/kvarn_mla_state_dbg2.py:484-507 | until it is settled, dropped or its request removed, an epoch of a request that is not wholly covered keeps every position exact that had to stay exact after its step, whatever the request does meanwhile |
| SettledFills.SettledRecordIsExact | bake-context/kvarn_mla_state_dbg2.py:291-305 | a settled epoch records exactly the blocks its step might have written that hold an accepted token, each with the number of its accepted tokens |
| SettledFills.SettledFillsArePublished | bake-context/kvarn_mla_state_dbg2.py:201-305 | these blocks are needed with at least those tokens at once, and still after the next step, whoever that step removes or schedules |
| SettledFills.NextStepPublishes | bake-context/kvarn_mla_state_dbg2.py:201-350 | the next step shows every fill still to publish to the slot manager |
| ExactWindow.AcceptedWritesArePublished | bake-context/kvarn_mla_state_dbg2.py:201-507 | a position written by a speculative step whose epoch stays open over any calls and is then settled behind the position has its block needed with a fill that covers it, at once and after the next step |
| SpeculativeRetirement.RetiresFull | bake-context/kvarn_mla_state_dbg2.py:509-533 | over runs of a speculating request with several open epochs, closed oldest first and settled only alone, a reached block that is no longer needed was last recorded full |
| SpeculativeRetirement.SpeculatedTileIsFlushed | bake-context/kvarn_mla_state_dbg2.py:643-672 | in such runs a reached block of the request that loses its slot is flushed in that step |
| ExactPool.EverySlotAccounted | bake-context/kvarn_mla_state_dbg2.py:536-547 | every slot below the pool size is free or holds a block |
| ExactPool.Group.constructor | bake-context/kvarn_mla_state_dbg2.py:536-547 | all slots start free, none twice |
| ExactPool.Group.EnsureMirror | bake-context/kvarn_mla_state_dbg2.py:571-584 | a missing or too short mirror is replaced by one that shows the mapping |
| ExactPool.Group.SyncMirror | bake-context/kvarn_mla_state_dbg2.py:586-598 | a rebuilt mirror shows the slot of each mapped block and -1 elsewhere |
| ExactPool.Group.UpdateMirror | bake-context/kvarn_mla_state_dbg2.py:600-609 | a patch changes exactly the listed blocks that lie within the mirror |
| ExactPool.PatchIsRebuild | bake-context/kvarn_mla_state_dbg2.py:681-688 | patching retired and newly assigned blocks gives the mirror a full rebuild would give |
| ExactPool.Group.PrepareStep | bake-context/kvarn_mla_state_dbg2.py:611-688 | the step fails exactly when more blocks are needed than there are slots; otherwise the mapped blocks are exactly the needed ones, kept blocks keep their slots, full retired blocks are flushed, free and mapped slots still partition the pool, and every mirror equals a rebuild |
| ExactPool.StoredFills | bake-context/kvarn_mla_state_dbg2.py:642-672 | a step stores the snapshot's fills and forgets unknown ones, so a block is flushed exactly when it is no longer needed and the last snapshot that needed it showed it full |
| ExactPool.PreparedMirror | bake-context/kvarn_mla_state_dbg2.py:681-688 | after a completed step an incrementally patched mirror of any length shows the new mapping |
| ExactPool.FailedStepMirror | bake-context/kvarn_mla_state_dbg2.py:670-688 | after a failed step a mirror is current if and only if no retired block lies within it |
| ExactPool.FailedStepLeavesStaleMirror | bake-context/kvarn_mla_state_dbg2.py:643-688 | a pool of one slot, asked for two other blocks, fails and its mirror still shows slot 0 for a block that has none |
| PoolBound.PersistentSize | active-r634-b12x-compact/config.py:650-657 | the boundary, tail and current blocks of one request fit `resident_blocks_per_seq` |
| PoolBound.ResidentIsReached | active-r634-b12x-compact/config.py:650-657 | the bound is tight: on a single rank some length makes a request keep exactly that many blocks |
| PoolBound.TouchedBeyondOwned | bake-context/kvarn_mla_state_dbg2.py:411-481 | a request scheduled for n tokens touches at most ceil(n / group) blocks beyond those it keeps |
| PoolBound.RunKeepsInvariant | bake-context/kvarn_mla_state_dbg2.py:328-507 | over any run within the configured limits in which nothing is rolled back and tables only grow between removals, each request's blocks stay within its resident bound and the touched blocks within the token budget |
| PoolBound.PoolNeverExhausts | active-r634-b12x-compact/config.py:659-676 | after every step of such a run the needed blocks of every group fit `pool_slots`, with the eight spare slots unused; a removed request may come back with any table |
| PoolBound.SlotsOfPool | active-r634-b12x-compact/config.py:659-676 | without rollback the pool has exactly eight slots more than the requests may keep and the scheduled tokens may reach |
| PoolBound.DoubtedSize | active-r634-b12x-compact/config.py:650-657 | with x of its tokens in doubt a request keeps at most ceil(x / group) blocks more than `resident_blocks_per_seq` |
| PoolBound.SlotsForDoubt | active-r634-b12x-compact/config.py:659-676 | the rollback share of the pool has room for these blocks of every request |
| AsyncRefinement.FastPathExact | bake-context/kvarn_mla_state_dbg2.py:420-465 | the in-place update equals recomputing the persistent blocks if and only if there is no gap between the recorded and the updated blocks |
| AsyncRefinement.GapIsLeftOut | bake-context/kvarn_mla_state_dbg2.py:420-465 | a request of three tokens recorded with a table of one block: once the table has grown, the in-place update for the fourth token leaves out a block that is needed |
| AsyncRefinement.NoGap | bake-context/kvarn_mla_state_dbg2.py:420-465 | block tables that cover the request leave no gap |
| AsyncRefinement.EnteredGroup | bake-context/kvarn_mla_state_dbg2.py:420-465 | whichever path a group takes, it ends with the blocks a recomputation gives |
| AsyncRefinement.TrimExact | bake-context/kvarn_mla_state_dbg2.py:207-305 | settling a full-context group at any end between the step's start and its greatest end leaves exactly the blocks and fills of a step without rollback that ends there |
| SpeculativeRuns.RunAgrees | bake-context/kvarn_mla_state_dbg2.py:207-507 | over any run of steps, settlements, drops and removals, with any number of open epochs under any names not shared between requests, the tables agree with a short description of the followed request: where its tokens surely and possibly end, and whether its latest epoch still decides between them |
| SpeculativeRuns.SettledRequestIsExact | bake-context/kvarn_mla_state_dbg2.py:207-305 | once an end is settled, even below the step's least end, the request keeps exactly the blocks a synchronous step to that end owns, with the same fills |
| SpeculativeRuns.SpeculationLeavesNoTrace | bake-context/kvarn_mla_state_dbg2.py:207-507 | two runs that settle the same tables at the same end own the same blocks and fills, however they speculated |
| SpeculativeRuns.SettlingLatest | bake-context/kvarn_mla_state_dbg2.py:207-305 | whatever the tables hold, settling a request's latest epoch leaves in every group that is not trimmed the blocks of the settled end |
| SpeculativeRuns.StaleEpochIsInert | bake-context/kvarn_mla_state_dbg2.py:207-314 | settling an epoch that is not its owner's latest, and dropping any epoch, moves no request's blocks |
| SpeculativeRuns.SettledKeepsCurrent | bake-context/kvarn_mla_state_dbg2.py:207-305 | the block of a request's last token survives the settlement of its latest epoch if and only if the settled end lies in the same block |
| SpeculativeRuns.LeftoverEpochRewinds | bake-context/kvarn_mla_state_dbg2.py:467-507 | a request scheduled for one token with rollback and for two more without, whose first epoch is then settled, keeps the block of its first token and not that of its last |
| Separation.UpdateTagged | bake-context/kvarn_mla_state_dbg2.py:328-507 | if nothing held for others meets a request's table after the removals, an update keeps it so, and the step table holds exactly the request's own written blocks, whatever other requests speculate |
| Separation.PlainRunKeepsTables | bake-context/kvarn_mla_state_dbg2.py:328-507 | in a run without rollback every request keeps only blocks of the table it was last scheduled with |
| Separation.DisjointTablesSuffice | bake-context/kvarn_mla_state_dbg2.py:328-507 | so disjoint tables of the tracked and scheduled requests, after the removals, keep a request's blocks apart; recycled blocks are allowed |
| TileSafety.NeededAt | bake-context/kvarn_mla_state_dbg2.py:484-533 | the needed blocks of a followed request are those it keeps and those the step writes, with known fills |
| TileSafety.RetiredForGood | bake-context/kvarn_mla_state_dbg2.py:643-672 | a reached block that is no longer needed is full, and no later step needs it again |
| TileSafety.SystemStaysSafe | bake-context/kvarn_mla_state_dbg2.py:611-688 | tracker, slots, pool rows and packed tiles keep their joint invariant over every run in which the followed request is not rolled back and shares no block while it holds it; its blocks may be recycled, it may be removed and start again, and other requests may speculate |
| TileSafety.NoTileIsLost | active-r634-b12x-compact/kvarn_mla.py:36-90 | after every call of such a run every written token can be read back: from its exact slot while its block is mapped, from the packed tile afterwards |
| TileSafety.RetiredNeverReturns | bake-context/kvarn_mla_state_dbg2.py:643-688 | until the request is removed, a reached block that has lost its slot never gets one again, and its packed tile never changes |
| PoolSuffices.EveryStepPrepares | active-r634-b12x-compact/config.py:659-676 | with `pool_slots` slots, in runs within the scheduler's limits and without rollback, every engine step prepares with eight slots to spare, although steps are allowed to fail |
| PoolSuffices.ConfiguredPoolLosesNothing | bake-context/kvarn_mla_state_dbg2.py:611-688 | so in such runs every written token can be read back after every step, without assuming that any step succeeds |
| PackedRows.Starts | active-r634-b12x-compact/b12x_mla_sparse.py:1475-1480 | the running sums are where each request starts |
| PackedRows.Lookup | active-r634-b12x-compact/kvarn_api_k4.py:277-296 | the scan finds the request and offset of a row exactly when some request holds it |
| PackedRows.RowInjective | active-r634-b12x-compact/kvarn_api_k4.py:277-296 | no two entries share a row, so the last match is the only match |
| PackedRows.RowOnto | active-r634-b12x-compact/kvarn_api_k4.py:277-296 | every row below the total belongs to an entry |
| WireLayout.AddressInjective | active-r634-b12x-compact/kvarn_api_k4.py:264-274 | the packed, index, latent and rope regions of the wire never overlap |
| WireLayout.AddressesFillTheWire | active-r634-b12x-compact/kvarn_api_k4.py:264-274 | every byte of the declared size belongs to one of the four regions |
| WireLayout.DeclaredSize | active-r634-b12x-compact/kvarn_api_k4.py:264-274 | the declared size is the end of the last region |
| WireLayout.WordRoundTrip | active-r634-b12x-compact/kvarn_api_k4.py:363-367 | an exact id or -1 survives being stored as a 32-bit word, whose four bytes are the number modulo 2^32, low byte first |
| WireLayout.ExactIdInRange | active-r634-b12x-compact/kvarn_api_k4.py:299-317 | a page in the sink or tail window always gets one of its request's sixteen exact pages, so the capacity assertion cannot fire |
| WireLayout.ExactIdInjective | active-r634-b12x-compact/kvarn_api_k4.py:299-317 | no two exact pages share an id |
| WireLayout.ExactIdsAscend | active-r634-b12x-compact/kvarn_api_k4.py:299-317 | within a request the ids ascend with the pages, and of a request of up to sixteen pages they count them |
| NativeWire.StageIndex | active-r634-b12x-compact/kvarn_api_k4.py:320-367 | the kernel succeeds exactly when its assertions hold on every live page, and then every word is the page's exact id or -1 |
| NativeWire.StagePacked | active-r634-b12x-compact/kvarn_api_k4.py:370-404 | every live page carries the tile its block table entry points at, and the index and exact regions are untouched |
| NativeWire.StageExact | active-r634-b12x-compact/kvarn_api_k4.py:407-478 | every exact page carries its pool slot under its exact id, and the packed and index regions are untouched |
| NativeWire.SlotHoldsRows | active-r634-b12x-compact/kvarn_api_k4.py:481-616 | rows laid end to end in a pool slot read back one by one, each latent row with its own rope row |
| NativeWire.Stage | active-r634-b12x-compact/kvarn_api_k4.py:828-876 | the three kernels together leave a complete wire |
| WireWindow.ExactPagesFit | active-r634-b12x-compact/kvarn_api_k4.py:299-317 | all pages the tracker keeps exact for a request have a place on the wire if and only if the first one behind the boundary is among the last fourteen |
| WireWindow.ShortWindowFits | active-r634-b12x-compact/kvarn_api_k4.py:299-317 | they have whenever the tail and the tokens a step writes span at most 833 local tokens |
| WireWindow.LongWindowSpills | active-r634-b12x-compact/kvarn_api_k4.py:299-317 | the bound is tight: one token more spans fifteen pages where it starts with the last token of a page |
| WireWindow.EnabledGeometryFits | active-r634-b12x-compact/b12x_mla_sparse.py:1913-1923 | in the geometry the native gather is enabled for, with an interleave of at most a page, every step of up to 3072 tokens fits |
| WireWindow.LongStepSpills | active-r634-b12x-compact/b12x_mla_sparse.py:1913-1923 | a step of 4352 tokens or more does not |
| WireWindow.TwoRanksSpill | active-r634-b12x-compact/b12x_mla_sparse.py:1913-1923 | with two ranks instead of four the tail alone would not |
| WireWindow.StagingAccepts | active-r634-b12x-compact/kvarn_api_k4.py:320-367 | in every moment of every run of `TileSafety` the index kernel accepts all pages of the followed request if and only if its exact pages fit |
| NativeWire.MaterializeRow | active-r634-b12x-compact/kvarn_api_k4.py:506-616 | a row rebuilt from a rank's wire is the row that rank reads directly; a row past its tokens is left out |
| NativeWire.Materialize | active-r634-b12x-compact/kvarn_api_k4.py:481-616 | all rows of the gathered buffer are rebuilt, the others unchanged |
| NativeWire.GatherEqualsDirectRead | active-r634-b12x-compact/b12x_mla_sparse.py:3706-3776 | at the row of each token of each rank the gathered buffer holds the exact-pool row when the block is mapped, and otherwise the packed row at the same block and offset |
| NativeWire.CompactSlots | active-r634-b12x-compact/kvarn_mla.py:1029-1051 | the canonical path lists block times page size plus offset for every token |
| NativeWire.StageRecords | active-r634-b12x-compact/kvarn_api_k4.py:99-253 | a valid slot yields the direct row of its token; an invalid one leaves its row unchanged |
| NativeWire.StageCanonical | active-r634-b12x-compact/b12x_mla_sparse.py:3777-3811 | the canonical path yields the same direct rows as the native wire |
| Collectives.GatheredAt | active-r634-b12x-compact/sparse_attn_indexer.py:390-415 | entry x of rank k sits at k times the part size plus x of a gathered buffer |
| Collectives.ReceivedAt | active-r634-b12x-compact/sparse_attn_indexer.py:354-389 | row x received from rank s by rank r is row r * chunk + x of rank s |
| Collectives.SameElements | active-r634-b12x-compact/b12x_mla_sparse.py:972-975 | concatenating parts in any order keeps the elements |
| RingOrder.SlotsDiffer | active-r634-b12x-compact/b12x_mla_sparse.py:402-403 | layers at most the lookahead apart use different ring slots |
| RingOrder.DistinctSlots | active-r634-b12x-compact/b12x_mla_sparse.py:525-539 | in every reachable state the current layer and all pending layers above it use distinct slots |
| RingOrder.HitIsNear | active-r634-b12x-compact/b12x_mla_sparse.py:4603-4610 | waiting for a layer's own gather also waits for every other gather that could share its slot |
| RingOrder.MainKeeps | active-r634-b12x-compact/b12x_mla_sparse.py:4623-4639 | a main-stream access is ordered after every conflicting access when no gather it has not waited for shares its slot |
| RingOrder.PrefetchKeeps | active-r634-b12x-compact/b12x_mla_sparse.py:3694-3701 | a side-stream gather is ordered after everything queued before it |
| PrefetchRing.TargetsSound | active-r634-b12x-compact/b12x_mla_sparse.py:525-539 | targets ascend within the lookahead, are registered and not pending, and leave out no layer of the lookahead before the first unregistered one |
| PrefetchRing.Lane.TargetIndices | active-r634-b12x-compact/b12x_mla_sparse.py:525-539 | the scan returns those targets |
| PrefetchRing.Lane.WaitForPendingWrites | active-r634-b12x-compact/b12x_mla_sparse.py:597-602 | afterwards the main stream has waited for every pending gather |
| PrefetchRing.Lane.EnterLayer | active-r634-b12x-compact/b12x_mla_sparse.py:604-607 | a layer at or before the previous one starts a new step with nothing pending; otherwise nothing is lost |
| PrefetchRing.Lane.RegisterCache | active-r634-b12x-compact/b12x_mla_sparse.py:609-627 | a cache is recorded unless a live owner would be replaced by another |
| PrefetchRing.Lane.Take | active-r634-b12x-compact/b12x_mla_sparse.py:4603-4622 | a prefetched layer is popped after its event, and its slot holds its own gather and its own append |
| PrefetchRing.Lane.GatherHere | active-r634-b12x-compact/b12x_mla_sparse.py:4623-4639 | a synchronous gather waits for all side-stream gathers before it uses the staging region |
| PrefetchRing.Lane.Launch | active-r634-b12x-compact/b12x_mla_sparse.py:4653-4720 | prefetches go only to registered, live targets of the same cache format, into other slots than the current layer's |
| PrefetchRing.Lane.Forward | active-r634-b12x-compact/b12x_mla_sparse.py:4600-4720 | every conflicting pair of accesses stays ordered, and attention reads its own layer's gather of this step, with the current chunk appended to it if it was prefetched, if and only if no later write reached the layer's slot before it was taken |
| PrefetchRing.Lane.ForwardUnindexed | active-r634-b12x-compact/b12x_mla_sparse.py:4628-4639 | accesses stay ordered; a pending layer's data survives if and only if its slot is not 0 |
| PrefetchRing.UnindexedLayerSpoils | active-r634-b12x-compact/b12x_mla_sparse.py:4600-4720 | with a lookahead of one, layer 1, an unindexed layer and layer 2 in this order leave the attention of layer 2 without a gather of its own |
| RingOrder.SpoiledNeverFeeds | active-r634-b12x-compact/b12x_mla_sparse.py:4603-4639 | a pending layer whose slot was written after its gather feeds no attention until it is gathered again |
| PrefetchRing.Replay | active-r634-b12x-compact/b12x_mla_sparse.py:4600-4720 | over any sequence of layers, skips, failures and restarts no two conflicting accesses can run at once; if no layer was unindexed, every attention in the log reads its own gather, complete with the current chunk |
| TopkMerge.KernelPositionIsGlobal | runtime-vllm-extras/vllm/v1/attention/backends/mla/sparse_utils.py:37-41 | the kernel's global id is the position its rank keeps at that local index |
| TopkMerge.ConvertRow | runtime-vllm-extras/vllm/v1/attention/backends/mla/sparse_utils.py:15-46 | valid ids become global in place, invalid ones -1 with the lowest score |
| TopkMerge.SlabPosition | active-r634-b12x-compact/sparse_attn_indexer.py:418-447 | rank s's candidate j of a row ends at column s * k + j |
| TopkMerge.Unpack | active-r634-b12x-compact/sparse_attn_indexer.py:418-447 | every row collects its candidates from all ranks, rank after rank |
| TopkMerge.ReplicatedMerge | active-r634-b12x-compact/sparse_attn_indexer.py:1067-1147 | every row is selected from the candidates of all ranks of the group |
| TopkMerge.OwnerPart | active-r634-b12x-compact/sparse_attn_indexer.py:1255-1303 | an owner's rows are its slice of what the replicated merge computes |
| TopkMerge.OwnerMerge | active-r634-b12x-compact/sparse_attn_indexer.py:1183-1309 | for every row selector the gathered owner rows are the replicated results of the query partitions, one after the other |
| TopkMerge.OwnersRun | active-r634-b12x-compact/sparse_attn_indexer.py:1202-1236 | the owner path runs only when rows split evenly, the partitions fill the world and the output has room for all rows |
| TopkMerge.RanksDecideAlike | active-r634-b12x-compact/sparse_attn_indexer.py:1202-1236 | the owner path is taken, and an error raised, exactly under the stated conditions; apart from wiring errors these are conditions on sizes all ranks share, so they decide alike |
| CandidateExchange.LocalPicksAreBest | active-r634-b12x-compact/sparse_attn_indexer.py:73-80 | a rank's local selection, in global ids, is the selection of the positions it owns, with ties broken by position or either way |
| CandidateExchange.ExchangeIsExact | active-r634-b12x-compact/sparse_attn_indexer.py:730-780 | for any sharding, any k and either treatment of ties the top-k of the published candidates is the top-k of the full row |
| CandidateExchange.TopKUnique | active-r634-b12x-compact/sparse_attn_indexer.py:730-780 | under the fixed order the selection is unique |
| CandidateExchange.TopKExists | active-r634-b12x-compact/sparse_attn_indexer.py:730-780 | a selection exists for every row and every k |
| GlobalTopk.CandidatesAreExchanged | active-r634-b12x-compact/sparse_attn_indexer.py:730-780 | the gathered candidates of a row are exactly what the ranks publish, with the scores of the full row |
| GlobalTopk.SelectionPicksBest | runtime-vllm-extras/vllm/v1/attention/backends/mla/sparse_utils.py:15-46 | a selector that sees nothing but scores picks the best valid candidates, because exactly the valid ones have a finite score after conversion and none is listed twice |
| GlobalTopk.MergedRowIsTopK | active-r634-b12x-compact/sparse_attn_indexer.py:1067-1147 | selecting the best gathered candidates selects the top-k of the full row: exactly the one of the fixed order if ties are broken by id, and otherwise one of which every score is at least every score left out |
| GlobalTopk.OwnerMergeIsExact | active-r634-b12x-compact/sparse_attn_indexer.py:1183-1309 | every row an owner merge returns, on every rank, names the top-k positions of its full score row in the same sense, for any sharding, any k and any number of query partitions |
| Quantizer.RoundIsNearest | active-r634-b12x-compact/kvarn_mla.py:135-144 | rounding picks a nearest integer, the even one on ties |
| Quantizer.CodeIsBest | active-r634-b12x-compact/kvarn_mla.py:148-153 | a code lies in range and no other code of the range reconstructs the value more closely |
| Quantizer.WithinHalfStep | active-r634-b12x-compact/kvarn_mla.py:193-199 | with the row's range scale every value is reconstructed to within half a step |
| Quantizer.TopCode | active-r634-b12x-compact/kvarn_mla.py:193-199 | a row whose range exceeds the least scale uses every code: its largest value gets the top one |
| Quantizer.LowerIsZero | active-r634-b12x-compact/kvarn_mla.py:234-251 | the fill value of a masked load quantizes to code zero |
| PackedSerializer.EightCodes | active-r634-b12x-compact/kvarn_mla.py:228-258 | eight codes survive their five bytes, whatever follows them |
| PackedSerializer.BytesAreOneNumber | active-r634-b12x-compact/kvarn_mla.py:228-258 | the five bytes, low byte first, are the number whose base-32 digits are the eight codes, first code lowest |
| PackedSerializer.PackRow | active-r634-b12x-compact/kvarn_mla.py:228-258 | the lanes store the packed bytes of the row and nothing else |
| PackedSerializer.RowRoundTrip | active-r634-b12x-compact/kvarn_mla.py:24-32 | every code of a row that fits 64 bytes, and the first 96 of any row, read back, the last one too, whose high byte lies outside the row |
| PackedSerializer.WideRowIsLost | active-r634-b12x-compact/kvarn_mla.py:228-258 | of a row of more than 64 bytes, packed over any record, a code reads back if and only if it is one of the first 102, or the next one and the record already held its three high bits, or a later one and the record already held it |
| PackedSerializer.SerializeTile | active-r634-b12x-compact/kvarn_mla.py:193-258 | every row is packed with its own smallest value and step, and the rest of the record is untouched |
| PackedSerializer.StoredWithin | active-r634-b12x-compact/kvarn_mla.py:193-258 | every value of a packed row is reconstructed to within a 62nd of the row's range, or half the least scale, and when the range is at least 31 least scales the largest value has code 31 |
| PackedSerializer.TileRoundTrip | active-r634-b12x-compact/kvarn_mla.py:24-32 | unpacking a value of the payload, any value of rows that fit and the first 96 of others, gives its code, which reconstructs it to within half a step |
| PackedSerializer.SupportedTileRoundTrip | active-r634-b12x-compact/kvarn_mla.py:228-258 | in the 64-token format a row takes 40 bytes and every value's code reads back, which reconstructs it to within half a step |
| AffineRefit.ErrorAround | active-r634-b12x-compact/kvarn_mla.py:199-219 | the weighted error is a quadratic of the row's moments around any centre |
| AffineRefit.RefitNeverHurts | active-r634-b12x-compact/kvarn_mla.py:199-219 | with a usable spread and an unclamped weight sum the fitted scale and zero beat every scale of at least 1e-10 with every zero |
| AffineRefit.RefitVersusRange | active-r634-b12x-compact/kvarn_mla.py:191-219 | the stored pair is never worse than the plain range pair |
| AffineRefit.WeightsNotClamped | active-r634-b12x-compact/kvarn_mla.py:200-204 | token scales of at least 1e-10 keep the weight sum from being clamped |
| AffineRefit.ClampedRefitCanHurt | active-r634-b12x-compact/kvarn_mla.py:204-219 | the hypothesis on the weight sum is needed: with weights below the clamp the refit can spoil an exact reconstruction |
| TileFlush.Finalize | active-r634-b12x-compact/triton_kvarn_sinkhorn.py:436-457 | every entry is divided by its token's and its row's scale |
| TileFlush.FlushTile | active-r634-b12x-compact/kvarn_mla.py:193-271 | every row of the balanced tile is packed, its stored words are the refitted scale and zero times the row's scale, the token scales are those the 64 lanes reach, and the rest of the payload is untouched |
| TileFlush.ScalesAtLeastHalf | active-r634-b12x-compact/triton_kvarn_sinkhorn.py:22-25 | every scale either balancing loop returns is at least a half |
| TileFlush.FlushedWeights | active-r634-b12x-compact/kvarn_mla.py:200-204 | so for every flushed row the weight sum is never clamped |
| TileFlush.ReaderDecodes | active-r634-b12x-compact/kvarn_api_k4.py:161-178 | what a reader decodes from the record is what the refitted words make of the row's codes |
| TileFlush.FlushedRowIsNoWorse | active-r634-b12x-compact/kvarn_mla.py:191-226 | for every row of every flushed tile the stored words decode at least as close to the original tile, in squared distance, as the words of the plain range |
| TileFlush.FlushedTileIsNoWorse | active-r634-b12x-compact/kvarn_mla.py:193-271 | balanced by either loop, serialized and read back, every row of a tile of at most 64 tokens is at least as close to the original as plain min/max quantization would be |
| Sinkhorn.BestIsUnique | active-r634-b12x-compact/triton_kvarn_sinkhorn.py:405-436 | the kept candidate is determined by being minimal and last |
| Sinkhorn.LeastColumnBound | active-r634-b12x-compact/triton_kvarn_sinkhorn.py:333-403 | no candidate's columns deviate by more than eight times the largest value of the tile |
| Sinkhorn.ColumnNormalized | active-r634-b12x-compact/triton_kvarn_sinkhorn.py:333-363 | where the primitives are exact, a column whose deviation lies in the clip range gets deviation one and any other is divided by the nearest bound of that range; a log scale that would leave its range stops at the bound |
| Sinkhorn.RowNormalized | active-r634-b12x-compact/triton_kvarn_sinkhorn.py:366-403 | the same for a row |
| Sinkhorn.RoundNormalizes | active-r634-b12x-compact/triton_kvarn_sinkhorn.py:586-699 | each candidate follows from the one before by normalizing every column and then every row of the result |
| Sinkhorn.ScoreOfBalanced | active-r634-b12x-compact/triton_kvarn_sinkhorn.py:405-436 | with deviations above the floor a score is at least two, and two exactly when all columns deviate alike and all rows do |
| Sinkhorn.PlainRun.NormalizeColumns | active-r634-b12x-compact/triton_kvarn_sinkhorn.py:333-363 | every column of the working tile is normalized in the sense of `Sinkhorn.ColumnNormalized`, and nothing else changes |
| Sinkhorn.PlainRun.NormalizeRows | active-r634-b12x-compact/triton_kvarn_sinkhorn.py:366-403 | every row of the working tile is normalized in the sense of `Sinkhorn.RowNormalized`, and its new deviation recorded |
| Sinkhorn.PlainRun.Run | active-r634-b12x-compact/triton_kvarn_sinkhorn.py:586-699 | the plain loop keeps the last minimal-imbalance candidate among the start and all iterates |
| PipelinedSinkhorn.PipelinedRun.RowPhase | active-r634-b12x-compact/triton_kvarn_sinkhorn.py:158-211 | the row phase adjusts every row scale and measures the result |
| PipelinedSinkhorn.PipelinedRun.ColumnPhase | active-r634-b12x-compact/triton_kvarn_sinkhorn.py:214-305 | one pass scores the current candidate, keeps it if it is as good, and normalizes the columns for the next |
| PipelinedSinkhorn.PipelinedRun.Run | active-r634-b12x-compact/triton_kvarn_sinkhorn.py:530-583 | for every iteration count the phases keep the last minimal candidate, whatever the scratch words held before |
| PipelinedSinkhorn.PipelinedEqualsPlain | active-r634-b12x-compact/triton_kvarn_sinkhorn.py:530-699 | both loops return the same scales when no candidate's least column deviation exceeds the constant 1e30 the running minimum starts from |
| PipelinedSinkhorn.BoundedTilesAgree | active-r634-b12x-compact/triton_kvarn_sinkhorn.py:530-699 | both loops return the same scales for every tile whose values stay below an eighth of that constant |
| SplitAttention.SplitKernel | active-r634-b12x-compact/kvarn_mla.py:1440-1507 | a split's normalized output and log-sum-exp are attention over its own active candidates |
| SplitAttention.MergeKernel | active-r634-b12x-compact/kvarn_mla.py:1510-1579 | merging the parts of any splits, some of them empty, gives attention over all candidates |
| SplitAttention.SplitAndMerge | active-r634-b12x-compact/kvarn_mla.py:1440-1579 | the result does not depend on how the candidates are split |
| SplitAttention.OutputIsMean | active-r634-b12x-compact/kvarn_mla.py:1440-1507 | attention is a mean: along every dimension the output lies between the least and the largest value of the active candidates |
| SplitAttention.WeightsFollowLogits | active-r634-b12x-compact/kvarn_mla.py:1440-1507 | two candidates weigh as the exponentials of their logits; one candidate gives its own value and its logit as log-sum-exp |
| SplitAttention.BaseTwoAgrees | active-r634-b12x-compact/kvarn_api_k4.py:1219-1261 | the base-two merge gives the same output, and its log-sum-exp times ln 2 is the natural one |
| ChunkPlan.DcpLocalLenIsCount | build-exact-h16-v1/vllm/v1/attention/backends/utils.py:887-924 | the metadata builder's local length is the same share as the tracker's |
| ChunkPlan.LocalChunkIsWindow | active-r634-b12x-compact/mla_attention.py:3323-3326 | a rank's rows in a chunk are its tokens between the local chunk bounds |
| ChunkPlan.AlignedConserves | active-r634-b12x-compact/mla_attention.py:2847-2875 | in an aligned plan the ranks together contribute exactly the tokens of the global chunk |
| ChunkPlan.MisalignedOverflows | active-r634-b12x-compact/mla_attention.py:2855-2862 | in a misaligned plan some context contributes more rows than the chunk has tokens |
| ChunkPlan.OwnerGathersIt | active-r634-b12x-compact/mla_attention.py:3316-3326 | in an aligned plan a token is gathered by its owner in exactly the chunk that contains it |
| ContextReorg.Build | active-r634-b12x-compact/mla_attention.py:2794-2911 | with context parallelism: no context, a refused chunk size, or tables that hold every chunk's token counts, padded counts, totals and maxima |
| ContextReorg.ChunkIsLargestShare | active-r634-b12x-compact/mla_attention.py:2794-2830 | the chunk length, in whole blocks where asked for, is the largest that fits the workspace once per request with context |
| ContextReorg.ChunksFitWorkspace | active-r634-b12x-compact/mla_attention.py:2928-2929 | the final workspace assertion cannot fire |
| ContextReorg.ReorgKvcache | active-r634-b12x-compact/mla_attention.py:3307-3348 | the loops collect the live segments request by request, or fail exactly when the sum or the maximum disagrees; `ContextReorg.ReorgChunk` says whose rows come where |
| ContextReorg.AssertionsNeverFire | active-r634-b12x-compact/mla_attention.py:3345-3347 | in an aligned plan the assertions hold in every chunk |
| ContextReorg.MisalignedFires | active-r634-b12x-compact/mla_attention.py:3345-3347 | in a misaligned plan they fail on the first chunk of one long context |
| ContextReorg.PaddedRowsFit | active-r634-b12x-compact/mla_attention.py:3598-3608 | in an aligned plan a chunk's padded rows fit the rank's share of the workspace |
| ContextReorg.EveryTokenOnce | active-r634-b12x-compact/mla_attention.py:3307-3348 | in an aligned plan every context token is among the rows of its own chunk exactly once, of no other chunk, and no row is padding |
| ContextReorg.ReorgChunk | active-r634-b12x-compact/mla_attention.py:3307-3348 | in an aligned plan the rows returned for a chunk are as many as its tokens, and between the running sums of a request's and the next request's token counts they are exactly that request's tokens of the chunk, each once |
| ContextReorg.ChunkIsBuilt | active-r634-b12x-compact/mla_attention.py:2809-2823 | every context token's chunk is among those built |
| GatheredCache.UsableIsInSequence | active-r634-b12x-compact/b12x_mla_sparse.py:947-961 | the mapper accepts exactly the tokens of the sequence |
| GatheredCache.SlotInBuffer | active-r634-b12x-compact/b12x_mla_sparse.py:962 | accepted slots lie inside the gathered buffer |
| GatheredCache.SlotsDistinct | active-r634-b12x-compact/b12x_mla_sparse.py:947-962 | distinct requests and positions have distinct slots |
| GatheredCache.PaddedIsLeast | active-r634-b12x-compact/b12x_mla_sparse.py:1514-1522 | a rank's share of the buffer is the least number of whole blocks that holds every rank's tokens |
| GatheredCache.AppendSlots | active-r634-b12x-compact/b12x_mla_sparse.py:3962-4001 | a current token is written to the slot the mapper computes for its request and position |
| GatheredCache.CausalSlots | active-r634-b12x-compact/b12x_mla_sparse.py:892-910 | everything within a token's causal length has a slot, its own position is the last of it, and that position is as far from the end of the sequence as the token from the end of its query |
| GatheredCache.SelectedAreMapped | active-r634-b12x-compact/b12x_mla_sparse.py:914-981 | every selected token of the sequence has its slot in the output, after the slots of the selected tokens before it, and nothing else has |
| GatheredCache.MapRow | active-r634-b12x-compact/b12x_mla_sparse.py:914-981 | with one tile per row the slot of each selected token of the sequence sits behind those of the selected tokens before it, the count is exact and -1 fills the rest |
| GatheredCache.MapTiles | active-r634-b12x-compact/b12x_mla_sparse.py:964-981 | with several tiles in any order the row holds exactly the usable slots, the exact count and -1 behind them |
| FreeBlockQueue.Queue.constructor | active-r634-b12x-compact/kv_cache_utils.py:211-239 | the links form the given blocks between the two sentinels |
| FreeBlockQueue.Queue.PopLeft | active-r634-b12x-compact/kv_cache_utils.py:241-276 | the first block is removed and unlinked; an empty queue is refused |
| FreeBlockQueue.Queue.PopLeftN | active-r634-b12x-compact/kv_cache_utils.py:278-309 | the first n blocks are removed in order and unlinked, as n single pops would |
| FreeBlockQueue.Queue.Remove | active-r634-b12x-compact/kv_cache_utils.py:311-329 | one block is deleted, the order of the others kept; a block not linked on both sides is refused |
| FreeBlockQueue.Queue.Append | active-r634-b12x-compact/kv_cache_utils.py:331-352 | the block goes to the back |
| FreeBlockQueue.Queue.PrependN | active-r634-b12x-compact/kv_cache_utils.py:354-373 | the blocks go to the front in order |
| FreeBlockQueue.Queue.AppendN | active-r634-b12x-compact/kv_cache_utils.py:375-398 | the blocks go to the back in order |
| FreeBlockQueue.Queue.AllFree | active-r634-b12x-compact/kv_cache_utils.py:400-418 | walking the links lists the free blocks in eviction order |

## Left out

- ExactPool.Group.PrepareStep: the contract does not say which free slot a block gets; any slot of the free list satisfies it.
- PoolBound.PoolNeverExhausts: states the bound for runs without rollback; with open epochs and fills still to publish it is not claimed (`PoolBound.SlotsForDoubt` covers the requests' own blocks).
- TileSafety.NoTileIsLost: the followed request starts at zero and is never rolled back; a packed block that re-enters ownership through the prefix cache gets a fresh slot without its rows.
- SpeculativeRuns.SettledRequestIsExact: when a later step opened no epoch of its own, or an epoch was dropped unsettled, the next settlement is not followed until the request is removed (`SpeculativeRuns.SettlingLatest` says what it leaves); epoch names must not be shared between requests.
- SpeculativeRetirement.RetiresFull: the request shares no block with others while it holds it, and epochs are closed oldest first and settled only alone; a request whose epochs are closed in another order is followed by `SpeculativeRuns` only.
- ExactWindow.OpenEpochKeepsWindow: of a request that is wholly covered an epoch keeps only the blocks its step may write; the others are kept by the request itself.
- ExactWindow.EnteringClaims: speaks of one request's turn; fills that other requests or settled epochs put into the same block in the same step are not bounded by it.
- NativeWire.StageIndex: pages hold 64 tokens; launch geometry, alignment and dtype checks of the wrappers are not modelled.
- NativeWire.Materialize: the numeric decoding of a packed or exact row into a record is a parameter, so rounding and FP8 conversion are not covered.
- PrefetchRing.Lane.Forward: covers the ring slots and the staging region; writes to the paged cache by later layers while a prefetch reads it are not part of the order.
- PrefetchRing.Lane.RegisterCache: workspace pools, state registries and retirement across execution lanes are not modelled.
- TopkMerge.Unpack: candidate buffers grow by one slab per rank; the fixed buffers of the source appear through the column each candidate ends in.
- PackedSerializer.SerializeTile: reals stand for the balanced values, and the rope region of a record is not stored; scale, zero and token words are in `TileFlush`, as reals beside the bytes.
- AffineRefit.RefitNeverHurts: states that the condition suffices; below the clamp, which flushed tiles never reach, the refit may or may not hurt.
- PipelinedSinkhorn.PipelinedRun.Run: one tile; the batch dimension and the single-program variant for small tiles are not modelled.
- PipelinedSinkhorn.PipelinedEqualsPlain: deviations are parameters bounded by twice the largest value, so no tile above 1e30 on which the loops differ is given.
- ContextReorg.Build: the branch without context parallelism and the token-to-request tables are not built.
- GlobalTopk.OwnerMergeIsExact: the selector is a parameter that picks the best candidates; how it finds them is not modelled.
- SplitAttention.MergeKernel: which candidates are active is an input; the decoding of keys and values is not modelled.
- ContextReorg.EveryTokenOnce: that each rank's cache gather lists its own tokens in order is an assumption on the input.
- FreeBlockQueue.Queue.Remove: a block linked into another list is outside the caller's contract; resumable iteration after a cursor is not modelled.
- The key-value cache manager delegates to a coordinator and a block pool that are not part of this model.
- Memory sizing, capacity searches, layer grouping and configuration parsing only compute closed forms.
- Absorbed-weight preparation, query routing and backend selection in the attention layers.
- IEEE rounding, FP8 and BF16 conversion, and the values of exponentials, logarithms and deviations.
- CUDA streams and NCCL beyond the order and the data movement they impose.
