/** Merging per-shard top-k candidates: every rank merges every row (replicated), or an all-to-all hands
    each row to one owner and an all-gather brings the owners' rows back together. */
module TopkMerge {
  import opened Sharding
  import opened Collectives

  datatype Score = NegInf | Finite(value: real)

  /** One rank's candidates for one query row. */
  datatype Row = Row(ids: seq<int>, scores: seq<Score>)

  predicate Shaped(rows: seq<Row>, k: nat) {
    forall x :: 0 <= x < |rows| ==> |rows[x].ids| == |rows[x].scores| == k
  }

  /* ----- local ids to global ids ----- */

  function KernelPosition(l: nat, w: nat, r: nat, i: nat): nat
    requires i > 0
  {
    ((l / i) * w + r) * i + l % i
  }

  /** The kernel's global id is the position the rank keeps at that local index. */
  lemma KernelPositionIsGlobal(l: nat, w: nat, r: nat, i: nat)
    requires r < w && i > 0
    ensures KernelPosition(l, w, r, i) == GlobalPosition(l, w, r, i)
    ensures Owner(KernelPosition(l, w, r, i), w, i) == r && LocalIndex(KernelPosition(l, w, r, i), w, i) == l
  {
    CycleForm(l / i, r, l % i, w, i);
    GlobalOfLocal(l, w, r, i);
  }

  function GlobalId(id: int, w: nat, r: nat, i: nat): int
    requires r < w && i > 0
  {
    if id >= 0 then GlobalPosition(id, w, r, i) else -1
  }

  /** A row with global ids; an invalid candidate scores minus infinity. */
  function Converted(row: Row, w: nat, r: nat, i: nat): (c: Row)
    requires |row.ids| == |row.scores| && r < w && i > 0
    ensures |c.ids| == |c.scores| == |row.ids|
  {
    Row(seq(|row.ids|, j requires 0 <= j < |row.ids| => GlobalId(row.ids[j], w, r, i)),
        seq(|row.ids|, j requires 0 <= j < |row.ids| => if row.ids[j] >= 0 then row.scores[j] else NegInf))
  }

  /** Convert one row in place. */
  method ConvertRow(ids: array<int>, scores: array<Score>, w: nat, r: nat, i: nat)
    requires ids.Length == scores.Length && r < w && i > 0
    modifies ids, scores
    ensures Row(ids[..], scores[..]) == Converted(Row(old(ids[..]), old(scores[..])), w, r, i)
  {
    hide GlobalPosition, KernelPosition;
    for j := 0 to ids.Length
      invariant forall x :: 0 <= x < j ==> ids[x] == GlobalId(old(ids[x]), w, r, i)
      invariant forall x :: 0 <= x < j ==> scores[x] == if old(ids[x]) >= 0 then old(scores[x]) else NegInf
      invariant forall x :: j <= x < ids.Length ==> ids[x] == old(ids[x]) && scores[x] == old(scores[x])
    {
      if ids[j] >= 0 {
        KernelPositionIsGlobal(ids[j], w, r, i);
        ids[j] := KernelPosition(ids[j], w, r, i);
      } else {
        ids[j], scores[j] := -1, NegInf;
      }
    }
  }

  /* ----- one merged row ----- */

  function IdsOf(column: seq<Row>): seq<seq<int>> {
    seq(|column|, s requires 0 <= s < |column| => column[s].ids)
  }

  function ScoresOf(column: seq<Row>): seq<seq<Score>> {
    seq(|column|, s requires 0 <= s < |column| => column[s].scores)
  }

  /** The ids at the chosen positions; -1 for a position outside the row. */
  function Pick(ids: seq<int>, positions: seq<int>): seq<int> {
    seq(|positions|, j requires 0 <= j < |positions| =>
      if 0 <= positions[j] < |ids| then ids[positions[j]] else -1)
  }

  /** The merge of one query row from every rank's candidates, rank-major, for a row selector `topk`. */
  function MergedRow(topk: seq<Score> -> seq<int>, column: seq<Row>): seq<int> {
    Pick(AllGather(IdsOf(column)), topk(AllGather(ScoresOf(column))))
  }

  /** Row `x` of every rank of a group. */
  function Column(group: seq<seq<Row>>, x: nat): seq<Row>
    requires forall s :: 0 <= s < |group| ==> x < |group[s]|
  {
    seq(|group|, s requires 0 <= s < |group| => group[s][x])
  }

  /** The candidates of row `x` from the first `n` ranks of a gathered buffer with `rows` rows per rank. */
  function GatheredColumn(gathered: seq<Row>, w: nat, rows: nat, x: nat, n: nat): (c: seq<Row>)
    requires n <= w && x < rows && |gathered| == w * rows
    ensures |c| == n
  {
    seq(n, s requires 0 <= s < n => (ProductBounds(s, w, rows); gathered[s * rows + x]))
  }

  /** Rank `s`'s candidate `j` sits at column `s * k + j` of the unpacked row. */
  lemma SlabPosition(gathered: seq<Row>, w: nat, rows: nat, k: nat, x: nat, s: nat, j: nat)
    requires x < rows && |gathered| == w * rows && s < w && j < k && Shaped(gathered, k)
    ensures 0 <= s * rows + x < |gathered|
    ensures s * k + j < |AllGather(IdsOf(GatheredColumn(gathered, w, rows, x, w)))| == w * k
    ensures AllGather(IdsOf(GatheredColumn(gathered, w, rows, x, w)))[s * k + j] == gathered[s * rows + x].ids[j]
  {
    hide AllGather, GatheredColumn, Shaped;
    var ids := IdsOf(GatheredColumn(gathered, w, rows, x, w));
    forall q | 0 <= q < w
      ensures 0 <= q * rows + x < |gathered| && ids[q] == gathered[q * rows + x].ids && |ids[q]| == k
    {
      ColumnEntry(gathered, w, rows, k, x, q);
    }
    GatheredAt(ids, k, s, j);
  }

  lemma ColumnEntry(gathered: seq<Row>, w: nat, rows: nat, k: nat, x: nat, q: nat)
    requires x < rows && |gathered| == w * rows && q < w && Shaped(gathered, k)
    ensures 0 <= q * rows + x < |gathered| && |gathered[q * rows + x].ids| == k
    ensures GatheredColumn(gathered, w, rows, x, w)[q] == gathered[q * rows + x]
  {
    ProductBounds(q, w, rows);
  }

  /** One more rank's slab extends an unpacked row. */
  lemma ColumnStep(gathered: seq<Row>, w: nat, rows: nat, x: nat, n: nat)
    requires n < w && x < rows && |gathered| == w * rows
    ensures 0 <= n * rows + x < |gathered|
    ensures AllGather(IdsOf(GatheredColumn(gathered, w, rows, x, n + 1)))
         == AllGather(IdsOf(GatheredColumn(gathered, w, rows, x, n))) + gathered[n * rows + x].ids
    ensures AllGather(ScoresOf(GatheredColumn(gathered, w, rows, x, n + 1)))
         == AllGather(ScoresOf(GatheredColumn(gathered, w, rows, x, n))) + gathered[n * rows + x].scores
  {
    ProductBounds(n, w, rows);
    var longer, shorter := GatheredColumn(gathered, w, rows, x, n + 1), GatheredColumn(gathered, w, rows, x, n);
    assert IdsOf(longer)[..n] == IdsOf(shorter) && ScoresOf(longer)[..n] == ScoresOf(shorter);
  }

  /** Row `x` unpacked from the first `n` ranks. */
  function Unpacked(gathered: seq<Row>, w: nat, rows: nat, x: nat, n: nat): Row
    requires n <= w && x < rows && |gathered| == w * rows
  {
    var column := GatheredColumn(gathered, w, rows, x, n);
    Row(AllGather(IdsOf(column)), AllGather(ScoresOf(column)))
  }

  /** Copy the gathered slabs side by side, one rank at a time. */
  method Unpack(gathered: seq<Row>, w: nat, rows: nat) returns (unpacked: seq<Row>)
    requires |gathered| == w * rows
    ensures |unpacked| == rows
    ensures forall x :: 0 <= x < rows ==> unpacked[x] == Unpacked(gathered, w, rows, x, w)
  {
    unpacked := seq(rows, _ => Row([], []));
    for rank := 0 to w
      invariant |unpacked| == rows
      invariant forall x :: 0 <= x < rows ==> unpacked[x] == Unpacked(gathered, w, rows, x, rank)
    {
      unpacked := CopySlab(gathered, w, rows, rank, unpacked);
    }
  }

  method CopySlab(gathered: seq<Row>, w: nat, rows: nat, rank: nat, before: seq<Row>) returns (after: seq<Row>)
    requires |gathered| == w * rows && rank < w && |before| == rows
    requires forall x :: 0 <= x < rows ==> before[x] == Unpacked(gathered, w, rows, x, rank)
    ensures |after| == rows
    ensures forall x :: 0 <= x < rows ==> after[x] == Unpacked(gathered, w, rows, x, rank + 1)
  {
    hide AllGather, IdsOf, ScoresOf, GatheredColumn;
    after := [];
    for x := 0 to rows
      invariant |after| == x
      invariant forall y :: 0 <= y < x ==> after[y] == Unpacked(gathered, w, rows, y, rank + 1)
    {
      ColumnStep(gathered, w, rows, x, rank);
      var slab := gathered[rank * rows + x];
      after := after + [Row(before[x].ids + slab.ids, before[x].scores + slab.scores)];
    }
  }

  /** Select from the unpacked rows and look the ids up. */
  method MergeRows(topk: seq<Score> -> seq<int>, gathered: seq<Row>, w: nat, rows: nat) returns (merged: seq<seq<int>>)
    requires |gathered| == w * rows
    ensures |merged| == rows
    ensures forall x :: 0 <= x < rows ==> merged[x] == MergedRow(topk, GatheredColumn(gathered, w, rows, x, w))
  {
    hide AllGather, IdsOf, ScoresOf, GatheredColumn;
    var unpacked := Unpack(gathered, w, rows);
    merged := [];
    for x := 0 to rows
      invariant |merged| == x
      invariant forall y :: 0 <= y < x ==> merged[y] == MergedRow(topk, GatheredColumn(gathered, w, rows, y, w))
    {
      merged := merged + [Pick(unpacked[x].ids, topk(unpacked[x].scores))];
    }
  }

  /* ----- the two merges ----- */

  /** What every rank of a group ends with, row by row. */
  function ReplicatedRows(topk: seq<Score> -> seq<int>, group: seq<seq<Row>>, rows: nat): (m: seq<seq<int>>)
    requires EqualParts(group, rows)
    ensures |m| == rows
  {
    seq(rows, x requires 0 <= x < rows => MergedRow(topk, Column(group, x)))
  }

  /** All-gather everything and merge every row on this rank. */
  method ReplicatedMerge(topk: seq<Score> -> seq<int>, group: seq<seq<Row>>, rows: nat) returns (merged: seq<seq<int>>)
    requires EqualParts(group, rows)
    ensures merged == ReplicatedRows(topk, group, rows)
  {
    hide MergedRow, AllGather;
    GatheredLength(group, rows);
    merged := MergeRows(topk, AllGather(group), |group|, rows);
    forall x | 0 <= x < rows
      ensures GatheredColumn(AllGather(group), |group|, rows, x, |group|) == Column(group, x)
    {
      GatheredIsColumn(group, rows, x);
    }
  }

  lemma GatheredIsColumn(group: seq<seq<Row>>, rows: nat, x: nat)
    requires EqualParts(group, rows) && x < rows
    ensures |AllGather(group)| == |group| * rows
    ensures GatheredColumn(AllGather(group), |group|, rows, x, |group|) == Column(group, x)
  {
    hide AllGather;
    GatheredLength(group, rows);
    forall s | 0 <= s < |group|
      ensures s * rows + x < |AllGather(group)|
      ensures GatheredColumn(AllGather(group), |group|, rows, x, |group|)[s] == Column(group, x)[s]
    {
      GatheredAt(group, rows, s, x);
    }
  }

  /** The candidates an owner receives for its row `x` are those of row `r * owned + x` of the group. */
  lemma ReceivedIsColumn(group: seq<seq<Row>>, owned: nat, r: nat, x: nat)
    requires EqualParts(group, |group| * owned) && r < |group| && x < owned
    ensures forall s :: 0 <= s < |group| ==> r * owned + owned <= |group[s]|
    ensures |AllToAll(group, r, owned)| == |group| * owned && r * owned + x < |group| * owned
    ensures GatheredColumn(AllToAll(group, r, owned), |group|, owned, x, |group|) == Column(group, r * owned + x)
  {
    hide AllGather, AllToAll, EqualParts;
    ProductBounds(r, |group|, owned);
    ChunksFit(group, owned, r);
    ReceivedLength(group, r, owned);
    MulBelow(r, |group|, owned, x);
    var received := AllToAll(group, r, owned);
    var row := r * owned + x;
    forall s | 0 <= s < |group|
      ensures GatheredColumn(received, |group|, owned, x, |group|)[s] == Column(group, row)[s]
    {
      ProductBounds(s, |group|, owned);
      ReceivedAt(group, r, owned, s, x);
    }
  }

  /** One rank's part of the owner merge: receive its rows from the group and merge them. */
  method OwnerPart(topk: seq<Score> -> seq<int>, group: seq<seq<Row>>, owned: nat, r: nat)
    returns (merged: seq<seq<int>>)
    requires EqualParts(group, |group| * owned) && r < |group|
    ensures |merged| == owned && r * owned + owned <= |group| * owned
    ensures merged == ReplicatedRows(topk, group, |group| * owned)[r * owned..r * owned + owned]
  {
    hide MergedRow, AllGather, AllToAll, GatheredColumn;
    ProductBounds(r, |group|, owned);
    ReceivedLength(group, r, owned);
    merged := MergeRows(topk, AllToAll(group, r, owned), |group|, owned);
    forall x | 0 <= x < owned
      ensures merged[x] == ReplicatedRows(topk, group, |group| * owned)[r * owned + x]
    {
      ReceivedIsColumn(group, owned, r, x);
    }
  }

  lemma ChunksFit(group: seq<seq<Row>>, owned: nat, r: nat)
    requires EqualParts(group, |group| * owned) && r * owned + owned <= |group| * owned
    ensures forall s :: 0 <= s < |group| ==> r * owned + owned <= |group[s]| == |group| * owned
  {
  }

  lemma ReceivedLength(group: seq<seq<Row>>, r: nat, owned: nat)
    requires EqualParts(group, |group| * owned) && r * owned + owned <= |group| * owned
    ensures |AllToAll(group, r, owned)| == |group| * owned
  {
    var parts := seq(|group|, s requires 0 <= s < |group| => group[s][r * owned..r * owned + owned]);
    GatheredLength(parts, owned);
  }

  /* ----- the owner merge over all ranks ----- */

  datatype Decision = Fallback | Raise | Owners

  /** When a rank takes the owner path. */
  function Decide(w: nat, rows: nat, k: nat, scored: bool, tp: nat, tpRank: nat, dcpRank: nat, gatheredRows: nat,
                  sameTrailing: bool, aliased: bool): Decision
  {
    if w <= 1 || rows * k == 0 then Fallback
    else if !scored then Raise
    else if rows % w != 0 then Fallback
    else if tp % w != 0 then Fallback
    else if tpRank % w != dcpRank then Raise
    else if gatheredRows != rows * (tp / w) then Fallback
    else if !sameTrailing || !aliased then Raise
    else Owners
  }

  function ConvertedRows(rows: seq<Row>, w: nat, r: nat, i: nat): (c: seq<Row>)
    requires r < w && i > 0 && forall x :: 0 <= x < |rows| ==> |rows[x].ids| == |rows[x].scores|
    ensures |c| == |rows|
  {
    seq(|rows|, x requires 0 <= x < |rows| => Converted(rows[x], w, r, i))
  }

  /** The ranks of the whole tensor-parallel world with their candidate rows; `w` consecutive ranks share
      one query partition. */
  datatype World = World(ranks: seq<seq<Row>>, w: nat, i: nat, rows: nat) {
    ghost predicate Valid() {
      && w > 0 && i > 0 && |ranks| % w == 0 && EqualParts(ranks, rows)
      && (forall t, x :: 0 <= t < |ranks| && 0 <= x < rows ==> |ranks[t][x].ids| == |ranks[t][x].scores|)
    }

    function Partitions(): nat
      requires w > 0
    {
      |ranks| / w
    }

    /** The converted candidates of rank `r` of partition `q`. */
    function Local(q: nat, r: nat): (rows: seq<Row>)
      requires Valid() && q < Partitions() && r < w
      ensures |rows| == this.rows
    {
      RankInRange(q, r);
      ConvertedRows(ranks[q * w + r], w, r, i)
    }

    lemma RankInRange(q: nat, r: nat)
      requires w > 0 && |ranks| % w == 0 && q < Partitions() && r < w
      ensures 0 <= q * w + r < |ranks| == Partitions() * w
    {
      Divides(|ranks|, w);
      MulBelow(q, Partitions(), w, r);
    }

    /** The converted candidates of partition `q`, rank by rank. */
    function Group(q: nat): (g: seq<seq<Row>>)
      requires Valid() && q < Partitions()
      ensures |g| == w && EqualParts(g, rows)
    {
      seq(w, r requires 0 <= r < w => Local(q, r))
    }
  }

  /** The replicated results of the first `n` partitions. */
  function Replicas(topk: seq<Score> -> seq<int>, world: World, n: nat): (s: seq<seq<seq<int>>>)
    requires world.Valid() && n <= world.Partitions()
    ensures |s| == n && EqualParts(s, world.rows)
  {
    seq(n, q requires 0 <= q < n => ReplicatedRows(topk, world.Group(q), world.rows))
  }

  lemma ReplicasStep(topk: seq<Score> -> seq<int>, world: World, n: nat)
    requires world.Valid() && n < world.Partitions()
    ensures AllGather(Replicas(topk, world, n + 1))
         == AllGather(Replicas(topk, world, n)) + ReplicatedRows(topk, world.Group(n), world.rows)
  {
    hide ReplicatedRows;
    assert Replicas(topk, world, n + 1)[..n] == Replicas(topk, world, n);
  }

  /** Every rank merges the rows it owns; gathering the owners' rows over all ranks, in rank order, gives the
      replicated result of every query partition, one after the other. */
  method OwnerMerge(topk: seq<Score> -> seq<int>, world: World) returns (merged: seq<seq<int>>)
    requires world.Valid() && world.rows % world.w == 0
    ensures merged == AllGather(Replicas(topk, world, world.Partitions()))
    ensures |merged| == world.Partitions() * world.rows
  {
    hide AllGather, Replicas, ReplicatedRows;
    var w, owned := world.w, world.rows / world.w;
    assert world.rows == w * owned by { Divides(world.rows, w); }
    var parts: seq<seq<seq<int>>> := [];
    NothingGathered(topk, world);
    for q := 0 to world.Partitions()
      invariant AllGather(parts) == AllGather(Replicas(topk, world, q))
    {
      parts := PartitionMerge(topk, world, owned, q, parts);
      ReplicasStep(topk, world, q);
    }
    merged := AllGather(parts);
    GatheredLength(Replicas(topk, world, world.Partitions()), world.rows);
  }

  lemma NothingGathered(topk: seq<Score> -> seq<int>, world: World)
    requires world.Valid()
    ensures AllGather<seq<int>>([]) == AllGather(Replicas(topk, world, 0)) == []
  {
  }

  /** The ranks of one partition put their rows behind the ranks before them. */
  method PartitionMerge(topk: seq<Score> -> seq<int>, world: World, owned: nat, q: nat, before: seq<seq<seq<int>>>)
    returns (parts: seq<seq<seq<int>>>)
    requires world.Valid() && world.rows == world.w * owned && q < world.Partitions()
    ensures |parts| == |before| + world.w
    ensures AllGather(parts) == AllGather(before) + ReplicatedRows(topk, world.Group(q), world.rows)
  {
    hide ReplicatedRows, World.Group, AllGather;
    parts := before;
    ghost var rows := ReplicatedRows(topk, world.Group(q), world.rows);
    var have := 0;
    for r := 0 to world.w
      invariant |parts| == |before| + r && have == r * owned <= world.rows
      invariant AllGather(parts) == AllGather(before) + rows[..have]
    {
      ProductBounds(r, world.w, owned);
      var part := OwnerPart(topk, world.Group(q), owned, r);
      GatherOneMore(parts, part);
      Extend(AllGather(before), rows, have, have + owned);
      parts := parts + [part];
      have := have + owned;
    }
    assert rows[..have] == rows;
  }

  lemma GatherOneMore<T>(parts: seq<seq<T>>, part: seq<T>)
    ensures AllGather(parts + [part]) == AllGather(parts) + part
  {
    assert (parts + [part])[..|parts|] == parts;
  }

  lemma Extend<T>(before: seq<T>, s: seq<T>, lo: nat, hi: nat)
    requires lo <= hi <= |s|
    ensures before + s[..lo] + s[lo..hi] == before + s[..hi]
  {
  }

  lemma Divides(n: nat, w: nat)
    requires w > 0 && n % w == 0
    ensures n == w * (n / w) == (n / w) * w
  {
  }

  /** The owner path is taken exactly when there is work, rows and ranks split evenly, the output has room and nothing
      is wired up wrongly; a rank raises exactly when scores are missing or the wiring is wrong.  Apart from
      the wiring every condition is one on sizes the ranks share, so they decide alike. */
  lemma RanksDecideAlike(w: nat, rows: nat, k: nat, scored: bool, tp: nat, tpRank: nat, dcpRank: nat, gatheredRows: nat,
                         sameTrailing: bool, aliased: bool)
    requires w > 0
    ensures var d := Decide(w, rows, k, scored, tp, tpRank, dcpRank, gatheredRows, sameTrailing, aliased);
      var work, even := w > 1 && rows > 0 && k > 0, rows % w == 0 && tp % w == 0;
      var room, wired := gatheredRows == rows * (tp / w), sameTrailing && aliased;
      && (d == Owners <==> work && scored && even && tpRank % w == dcpRank && room && wired)
      && (d == Raise <==> work && (!scored || (even && (tpRank % w != dcpRank || (room && !wired)))))
  {
    if rows > 0 && k > 0 {
      MulMonotone(1, rows, k);
    }
  }

  /** A rank takes the owner path only when the rows split evenly among the ranks of a partition, the
      partitions fill the tensor-parallel world and the output has room for all their rows. */
  lemma OwnersRun(w: nat, rows: nat, k: nat, scored: bool, tp: nat, tpRank: nat, dcpRank: nat, gatheredRows: nat,
                  sameTrailing: bool, aliased: bool)
    requires Decide(w, rows, k, scored, tp, tpRank, dcpRank, gatheredRows, sameTrailing, aliased) == Owners
    requires tpRank < tp
    ensures rows % w == 0 && tpRank / w < tp / w && tpRank == (tpRank / w) * w + dcpRank && dcpRank < w
    ensures gatheredRows == (tp / w) * rows
  {
    Divides(tp, w);
    SplitRow(tpRank, w, tp / w);
  }
}
