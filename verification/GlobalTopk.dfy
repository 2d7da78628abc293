/** The whole sharded selection: every rank selects from its own shard, the owner merge selects from the
    published candidates, and what every rank ends with is the selection from the full row. */
module GlobalTopk {
  import opened Sharding
  import opened Collectives
  import opened TopkMerge
  import opened CandidateExchange

  /** The positions named in a row of ids; -1 names none. */
  function Named(ids: seq<int>): set<int> {
    set v | v in ids && v >= 0
  }

  /** No id names a position twice. */
  ghost predicate NoRepeats(ids: seq<int>) {
    forall p, q :: 0 <= p < q < |ids| && ids[p] >= 0 ==> ids[p] != ids[q]
  }

  /** A rank's candidates for one query row: exactly the top-k of its shard, each once, with their scores.  Whatever
      scores accompany an invalid id are left over from other rows. */
  ghost predicate Presents(row: Row, shard: seq<real>, ties: Ties, k: nat, picks: set<int>) {
    && |row.ids| == |row.scores| && Named(row.ids) == picks && IsTopK(shard, ties, All(|shard|), k, picks)
    && NoRepeats(row.ids)
    && forall j :: 0 <= j < |row.ids| && row.ids[j] >= 0 ==>
         row.ids[j] < |shard| && row.scores[j] == Finite(shard[row.ids[j]])
  }

  /** A global candidate with its score in the full row. */
  predicate Scored(id: int, s: Score, score: seq<real>) {
    id >= 0 ==> id < |score| && s == Finite(score[id])
  }

  ghost predicate AllScored(ids: seq<int>, scores: seq<Score>, score: seq<real>) {
    |ids| == |scores| && forall j :: 0 <= j < |ids| ==> Scored(ids[j], scores[j], score)
  }

  /** Higher scores first; equal scores as `ties` says, by id or either way. */
  predicate Ahead(ties: Ties, id: int, s: Score, id': int, s': Score) {
    && s.Finite? && s'.Finite?
    && (s.value > s'.value || (s.value == s'.value && (ties == EitherWay || id < id')))
  }

  /** The positions of the finite scores, and those among them that were chosen. */
  function Ranked(scores: seq<Score>): set<nat> {
    set p: nat | p < |scores| && scores[p].Finite?
  }

  function Chosen(scores: seq<Score>, positions: seq<int>): set<nat> {
    set p: nat | p < |scores| && p in positions && scores[p].Finite?
  }

  /** What a row selector does, which sees nothing but scores: as many finite scores as there are, up to k, and none
      left out that is ahead.  Positions of infinite scores and positions outside the row fill up. */
  ghost predicate SelectsBest(ids: seq<int>, scores: seq<Score>, ties: Ties, positions: seq<int>, k: nat) {
    && |ids| == |scores| && |Chosen(scores, positions)| == Min(k, |Ranked(scores)|)
    && forall p, q :: p in Chosen(scores, positions) && q in Ranked(scores) && q !in positions ==>
         Ahead(ties, ids[p], scores[p], ids[q], scores[q])
  }

  /** The chosen positions name the best k candidates. */
  ghost predicate PicksBest(ids: seq<int>, scores: seq<Score>, ties: Ties, positions: seq<int>, k: nat) {
    && |ids| == |scores| && |Named(Pick(ids, positions))| == Min(k, |Named(ids)|)
    && forall p, q :: 0 <= p < |ids| && 0 <= q < |ids| && p in positions && q !in positions
                      && ids[p] >= 0 && ids[q] >= 0 ==>
         Ahead(ties, ids[p], scores[p], ids[q], scores[q])
  }

  /** Exactly the valid candidates have a finite score. */
  ghost predicate Masked(ids: seq<int>, scores: seq<Score>) {
    |ids| == |scores| && forall j :: 0 <= j < |ids| ==> (scores[j].Finite? <==> ids[j] >= 0)
  }

  function IdsAt(ids: seq<int>, ps: set<nat>): set<int> {
    set p | p in ps && p < |ids| :: ids[p]
  }

  lemma {:induction false} IdsAtSize(ids: seq<int>, ps: set<nat>)
    requires NoRepeats(ids) && forall p :: p in ps ==> p < |ids| && ids[p] >= 0
    ensures |IdsAt(ids, ps)| == |ps|
    decreases ps
  {
    if ps == {} {
      assert IdsAt(ids, ps) == {};
    } else {
      var x :| x in ps;
      IdsAtSize(ids, ps - {x});
      OneMoreId(ids, ps, x);
    }
  }

  lemma OneMoreId(ids: seq<int>, ps: set<nat>, x: nat)
    requires NoRepeats(ids) && x in ps && forall p :: p in ps ==> p < |ids| && ids[p] >= 0
    ensures IdsAt(ids, ps) == IdsAt(ids, ps - {x}) + {ids[x]} && ids[x] !in IdsAt(ids, ps - {x})
  {
    forall p | p in ps - {x}
      ensures ids[p] != ids[x]
    {
      assert p < x || x < p;
    }
  }

  /** Where the scores mask what is invalid, selecting by score picks the best valid candidates. */
  lemma SelectionPicksBest(ids: seq<int>, scores: seq<Score>, ties: Ties, positions: seq<int>, k: nat)
    requires Masked(ids, scores) && NoRepeats(ids) && SelectsBest(ids, scores, ties, positions, k)
    ensures PicksBest(ids, scores, ties, positions, k)
  {
    var ranked, chosen := Ranked(scores), Chosen(scores, positions);
    IdsAtSize(ids, ranked);
    IdsAtSize(ids, chosen);
    RankedIsNamed(ids, scores);
    ChosenIsPicked(ids, scores, positions);
    forall p, q | 0 <= p < |ids| && 0 <= q < |ids| && p in positions && q !in positions && ids[p] >= 0 && ids[q] >= 0
      ensures Ahead(ties, ids[p], scores[p], ids[q], scores[q])
    {
      assert p in chosen && q in ranked;
    }
  }

  lemma RankedIsNamed(ids: seq<int>, scores: seq<Score>)
    requires Masked(ids, scores)
    ensures IdsAt(ids, Ranked(scores)) == Named(ids)
  {
    forall v | v in Named(ids)
      ensures v in IdsAt(ids, Ranked(scores))
    {
      var j :| 0 <= j < |ids| && ids[j] == v;
      assert j in Ranked(scores);
    }
  }

  lemma ChosenIsPicked(ids: seq<int>, scores: seq<Score>, positions: seq<int>)
    requires Masked(ids, scores)
    ensures IdsAt(ids, Chosen(scores, positions)) == Named(Pick(ids, positions))
  {
    var picked := Pick(ids, positions);
    forall v | v in Named(picked)
      ensures v in IdsAt(ids, Chosen(scores, positions))
    {
      var j :| 0 <= j < |picked| && picked[j] == v;
      assert positions[j] in Chosen(scores, positions);
    }
    forall v | v in IdsAt(ids, Chosen(scores, positions))
      ensures v in Named(picked)
    {
      var p :| p in Chosen(scores, positions) && ids[p] == v;
      var j :| 0 <= j < |positions| && positions[j] == p;
      assert picked[j] == v;
    }
  }

  // ---- one rank's converted row ----

  lemma ConvertedScores(row: Row, score: seq<real>, ties: Ties, k: nat, w: nat, r: nat, i: nat, picks: set<int>)
    requires r < w && i > 0 && Presents(row, Shard(score, w, r, i), ties, k, picks)
    ensures var c := Converted(row, w, r, i); AllScored(c.ids, c.scores, score)
  {
    hide LocalNumTokens, GlobalPosition;
  }

  lemma ConvertedNames(row: Row, score: seq<real>, ties: Ties, k: nat, w: nat, r: nat, i: nat, picks: set<int>)
    requires r < w && i > 0 && Presents(row, Shard(score, w, r, i), ties, k, picks)
    ensures Named(Converted(row, w, r, i).ids) == Published(|score|, w, r, i, picks)
  {
    hide LocalNumTokens, GlobalPosition, Owner, LocalIndex, IsTopK;
    var ids, published := Converted(row, w, r, i).ids, Published(|score|, w, r, i, picks);
    forall t | t in Named(ids)
      ensures t in published
    {
      var j :| 0 <= j < |ids| && ids[j] == t;
      assert row.ids[j] in row.ids;
      GlobalOfLocal(row.ids[j], w, r, i);
      assert GlobalPosition(row.ids[j], w, r, i) < |score|;
    }
    forall t | t in published
      ensures t in Named(ids)
    {
      var j :| 0 <= j < |row.ids| && row.ids[j] == LocalIndex(t, w, i);
      LocalOfGlobal(t, w, i);
      assert ids[j] == t;
    }
  }

  /** Valid ids with finite scores, none twice, all owned by one of the first `n` ranks. */
  ghost predicate Candidates(ids: seq<int>, scores: seq<Score>, w: nat, i: nat, lo: nat, hi: nat)
    requires w > 0 && i > 0
  {
    && Masked(ids, scores) && NoRepeats(ids)
    && forall j :: 0 <= j < |ids| && ids[j] >= 0 ==> lo <= Owner(ids[j], w, i) < hi
  }

  lemma ConvertedCandidates(row: Row, score: seq<real>, ties: Ties, k: nat, w: nat, r: nat, i: nat, picks: set<int>)
    requires r < w && i > 0 && Presents(row, Shard(score, w, r, i), ties, k, picks)
    ensures var c := Converted(row, w, r, i); Candidates(c.ids, c.scores, w, i, r, r + 1)
  {
    hide LocalNumTokens, GlobalPosition, Owner, LocalIndex, IsTopK, Named, Shard;
    var c := Converted(row, w, r, i);
    forall j | 0 <= j < |c.ids| && c.ids[j] >= 0
      ensures row.ids[j] >= 0 && Owner(c.ids[j], w, i) == r && LocalIndex(c.ids[j], w, i) == row.ids[j]
    {
      GlobalOfLocal(row.ids[j], w, r, i);
    }
  }

  lemma JoinCandidates(a: seq<int>, s: seq<Score>, b: seq<int>, t: seq<Score>, w: nat, i: nat, n: nat)
    requires w > 0 && i > 0 && Candidates(a, s, w, i, 0, n) && Candidates(b, t, w, i, n, n + 1)
    ensures Candidates(a + b, s + t, w, i, 0, n + 1)
  {
    hide Owner;
    var ids := a + b;
    forall p, q | 0 <= p < q < |ids| && ids[p] >= 0
      ensures ids[p] != ids[q]
    {
      if p < |a| <= q && ids[q] >= 0 {
        assert Owner(a[p], w, i) < n <= Owner(b[q - |a|], w, i);
      }
    }
  }

  // ---- gathered rows ----

  lemma {:induction false} GatheredCandidates(column: seq<Row>, w: nat, i: nat)
    requires w > 0 && i > 0
    requires forall s :: 0 <= s < |column| ==> Candidates(column[s].ids, column[s].scores, w, i, s, s + 1)
    ensures Candidates(AllGather(IdsOf(column)), AllGather(ScoresOf(column)), w, i, 0, |column|)
  {
    hide Candidates;
    if column == [] {
      NoCandidates(w, i);
    } else {
      var n := |column| - 1;
      var front := column[..n];
      assert IdsOf(column)[..n] == IdsOf(front) && ScoresOf(column)[..n] == ScoresOf(front);
      GatheredCandidates(front, w, i);
      JoinCandidates(AllGather(IdsOf(front)), AllGather(ScoresOf(front)), column[n].ids, column[n].scores, w, i, n);
    }
  }

  lemma NoCandidates(w: nat, i: nat)
    requires w > 0 && i > 0
    ensures Candidates([], [], w, i, 0, 0)
  {
  }

  lemma {:induction false} GatheredScores(column: seq<Row>, score: seq<real>)
    requires forall s :: 0 <= s < |column| ==> AllScored(column[s].ids, column[s].scores, score)
    ensures AllScored(AllGather(IdsOf(column)), AllGather(ScoresOf(column)), score)
  {
    hide Scored;
    if column != [] {
      var n := |column| - 1;
      var front := column[..n];
      assert IdsOf(column)[..n] == IdsOf(front) && ScoresOf(column)[..n] == ScoresOf(front);
      GatheredScores(front, score);
      assert AllScored(column[n].ids, column[n].scores, score);
      JoinScored(AllGather(IdsOf(front)), AllGather(ScoresOf(front)), column[n].ids, column[n].scores, score);
    }
  }

  lemma JoinScored(a: seq<int>, s: seq<Score>, b: seq<int>, t: seq<Score>, score: seq<real>)
    requires AllScored(a, s, score) && AllScored(b, t, score)
    ensures AllScored(a + b, s + t, score)
  {
    hide Scored;
  }

  lemma NamedJoin(a: seq<int>, b: seq<int>)
    ensures Named(a + b) == Named(a) + Named(b)
  {
    forall v | v in Named(a) + Named(b)
      ensures v in a + b
    {
      if v in a {
        var j :| 0 <= j < |a| && a[j] == v;
        assert (a + b)[j] == v;
      } else {
        var j :| 0 <= j < |b| && b[j] == v;
        assert (a + b)[|a| + j] == v;
      }
    }
  }

  /** The gathered candidates name what some rank published. */
  lemma {:induction false} GatheredNames(column: seq<Row>, v: int)
    ensures v in Named(AllGather(IdsOf(column))) <==> exists s :: 0 <= s < |column| && v in Named(column[s].ids)
  {
    hide Named;
    if column == [] {
      NothingNamed();
    } else {
      var n := |column| - 1;
      var front := column[..n];
      assert IdsOf(column)[..n] == IdsOf(front);
      GatheredNames(front, v);
      NamedJoin(AllGather(IdsOf(front)), column[n].ids);
      if s :| 0 <= s < n && v in Named(front[s].ids) {
        assert v in Named(column[s].ids);
      }
      if s :| 0 <= s < |column| && v in Named(column[s].ids) {
        assert s < n ==> v in Named(front[s].ids);
      }
    }
  }

  lemma NothingNamed()
    ensures Named([]) == {}
  {
  }

  // ---- the merged row ----

  /** The converted candidates of every rank for one query row. */
  ghost predicate IsColumn(column: seq<Row>, rows: seq<Row>, w: nat, i: nat)
    requires w > 0 && i > 0
  {
    |column| == |rows| == w
    && forall r :: 0 <= r < w ==> |rows[r].ids| == |rows[r].scores| && column[r] == Converted(rows[r], w, r, i)
  }

  ghost predicate AllPresent(rows: seq<Row>, score: seq<real>, ties: Ties, k: nat, w: nat, i: nat, picks: seq<set<int>>)
    requires i > 0
  {
    |rows| == |picks| == w && forall r :: 0 <= r < w ==> Presents(rows[r], Shard(score, w, r, i), ties, k, picks[r])
  }

  lemma CandidatesAreExchanged(column: seq<Row>, rows: seq<Row>, score: seq<real>, ties: Ties, k: nat, w: nat,
                               i: nat, picks: seq<set<int>>)
    requires w > 0 && i > 0 && IsColumn(column, rows, w, i) && AllPresent(rows, score, ties, k, w, i, picks)
    ensures Named(AllGather(IdsOf(column))) == Exchanged(|score|, w, i, picks)
    ensures AllScored(AllGather(IdsOf(column)), AllGather(ScoresOf(column)), score)
  {
    hide Named, Converted, Shard, Presents, Published, AllScored, LocalNumTokens, Owner, LocalIndex, AllGather;
    forall r | 0 <= r < w
      ensures Named(column[r].ids) == Published(|score|, w, r, i, picks[r])
      ensures AllScored(column[r].ids, column[r].scores, score)
    {
      ConvertedNames(rows[r], score, ties, k, w, r, i, picks[r]);
      ConvertedScores(rows[r], score, ties, k, w, r, i, picks[r]);
    }
    GatheredScores(column, score);
    forall v
      ensures v in Named(AllGather(IdsOf(column))) <==> v in Exchanged(|score|, w, i, picks)
    {
      GatheredNames(column, v);
      PublishedSomewhere(|score|, w, i, picks, v);
    }
  }

  lemma PublishedSomewhere(n: nat, w: nat, i: nat, picks: seq<set<int>>, v: int)
    requires w > 0 && i > 0 && |picks| == w
    ensures v in Exchanged(n, w, i, picks) <==> exists r :: 0 <= r < w && v in Published(n, w, r, i, picks[r])
  {
    hide LocalNumTokens, Owner, LocalIndex;
    if v in Exchanged(n, w, i, picks) {
      OwnersInRange(n, w, i);
      assert v in Published(n, w, Owner(v, w, i), i, picks[Owner(v, w, i)]);
    }
  }

  /** Choosing the best of scored candidates chooses the top-k of the positions they name. */
  lemma BestIsTopK(ids: seq<int>, scores: seq<Score>, ties: Ties, positions: seq<int>, k: nat, score: seq<real>)
    requires AllScored(ids, scores, score) && PicksBest(ids, scores, ties, positions, k)
    ensures IsTopK(score, ties, Named(ids), k, Named(Pick(ids, positions)))
  {
    var chosen := Named(Pick(ids, positions));
    forall a | a in chosen
      ensures exists p :: 0 <= p < |ids| && p in positions && ids[p] == a
    {
      var j :| 0 <= j < |positions| && Pick(ids, positions)[j] == a;
      assert positions[j] in positions;
    }
    forall a, b | a in chosen && b in Named(ids) && b !in chosen
      ensures Beats(score, ties, a, b)
    {
      var p :| 0 <= p < |ids| && p in positions && ids[p] == a;
      var q :| 0 <= q < |ids| && ids[q] == b;
      ChosenIsNamed(ids, positions, q);
      assert Ahead(ties, ids[p], scores[p], ids[q], scores[q]);
      assert Scored(ids[p], scores[p], score) && Scored(ids[q], scores[q], score);
    }
    assert chosen <= Named(ids);
  }

  lemma ChosenIsNamed(ids: seq<int>, positions: seq<int>, q: nat)
    requires q < |ids| && ids[q] >= 0
    ensures q in positions ==> ids[q] in Named(Pick(ids, positions))
  {
    if q in positions {
      var j :| 0 <= j < |positions| && positions[j] == q;
      assert Pick(ids, positions)[j] == ids[q];
    }
  }

  lemma ColumnCandidates(column: seq<Row>, rows: seq<Row>, score: seq<real>, ties: Ties, k: nat, w: nat, i: nat,
                         picks: seq<set<int>>)
    requires w > 0 && i > 0 && IsColumn(column, rows, w, i) && AllPresent(rows, score, ties, k, w, i, picks)
    ensures Candidates(AllGather(IdsOf(column)), AllGather(ScoresOf(column)), w, i, 0, w)
  {
    hide Candidates, Converted, Presents, Shard, AllGather;
    forall r | 0 <= r < w
      ensures Candidates(column[r].ids, column[r].scores, w, i, r, r + 1)
    {
      ConvertedCandidates(rows[r], score, ties, k, w, r, i, picks[r]);
    }
    GatheredCandidates(column, w, i);
  }

  /** The merged row names exactly the top-k positions of the full row. */
  lemma MergedRowIsTopK(topk: seq<Score> -> seq<int>, column: seq<Row>, rows: seq<Row>, score: seq<real>, ties: Ties,
                        k: nat, w: nat, i: nat, picks: seq<set<int>>)
    requires w > 0 && i > 0 && IsColumn(column, rows, w, i) && AllPresent(rows, score, ties, k, w, i, picks)
    requires var scores := AllGather(ScoresOf(column));
      SelectsBest(AllGather(IdsOf(column)), scores, ties, topk(scores), k)
    ensures IsTopK(score, ties, All(|score|), k, Named(MergedRow(topk, column)))
  {
    hide Named, Shard, AllScored, PicksBest, SelectsBest, IsTopK, IsColumn, Exchanged, AllGather, Masked, NoRepeats;
    CandidatesAreExchanged(column, rows, score, ties, k, w, i, picks);
    ColumnCandidates(column, rows, score, ties, k, w, i, picks);
    var ids, scores := AllGather(IdsOf(column)), AllGather(ScoresOf(column));
    SelectionPicksBest(ids, scores, ties, topk(scores), k);
    BestIsTopK(ids, scores, ties, topk(scores), k, score);
    ExchangeIsExact(score, ties, k, w, i, picks, Named(MergedRow(topk, column)));
  }

  /** The candidates of row `x` of partition `q`, rank by rank. */
  ghost predicate IsPartitionRow(world: World, q: nat, x: nat, column: seq<Row>)
    requires world.Valid()
  {
    q < world.Partitions() && x < world.rows && column == Column(world.Group(q), x)
  }

  lemma MergedAt(topk: seq<Score> -> seq<int>, world: World, merged: seq<seq<int>>, q: nat, x: nat, at: nat,
                 column: seq<Row>)
    requires world.Valid() && merged == AllGather(Replicas(topk, world, world.Partitions()))
    requires IsPartitionRow(world, q, x, column) && at == q * world.rows + x
    ensures at < |merged| && merged[at] == MergedRow(topk, column) && world.w > 0 && world.i > 0
  {
    hide AllGather, MergedRow, World.Group, EqualParts;
    GatheredAt(Replicas(topk, world, world.Partitions()), world.rows, q, x);
  }

  /** Row `x` as the ranks of partition `q` hold it before conversion. */
  ghost predicate HeldRows(world: World, q: nat, x: nat, rows: seq<Row>)
    requires world.Valid() && x < world.rows
  {
    && |rows| == world.w
    && forall r :: 0 <= r < world.w ==>
         0 <= q * world.w + r < |world.ranks| && rows[r] == world.ranks[q * world.w + r][x]
  }

  /** The columns of a partition are the converted rows of its ranks. */
  lemma PartitionColumn(world: World, q: nat, x: nat, column: seq<Row>, rows: seq<Row>)
    requires world.Valid() && IsPartitionRow(world, q, x, column) && HeldRows(world, q, x, rows)
    ensures IsColumn(column, rows, world.w, world.i)
  {
    hide Converted;
    forall r | 0 <= r < world.w
      ensures |rows[r].ids| == |rows[r].scores| && column[r] == Converted(rows[r], world.w, r, world.i)
    {
      world.RankInRange(q, r);
      assert rows[r] == world.ranks[q * world.w + r][x];
    }
  }

  /** Every row an owner merge returns, on every rank, names the top-k positions of its full score row: for
      any sharding, any k, any number of ranks and query partitions, and either treatment of ties. */
  lemma OwnerMergeIsExact(topk: seq<Score> -> seq<int>, world: World, merged: seq<seq<int>>, q: nat, x: nat, at: nat,
                          column: seq<Row>, score: seq<real>, ties: Ties, k: nat, picks: seq<set<int>>,
                          rows: seq<Row>)
    requires world.Valid() && merged == AllGather(Replicas(topk, world, world.Partitions()))
    requires IsPartitionRow(world, q, x, column) && HeldRows(world, q, x, rows) && at == q * world.rows + x
    requires AllPresent(rows, score, ties, k, world.w, world.i, picks)
    requires var scores := AllGather(ScoresOf(column));
      SelectsBest(AllGather(IdsOf(column)), scores, ties, topk(scores), k)
    ensures at < |merged| && IsTopK(score, ties, All(|score|), k, Named(merged[at]))
  {
    hide Named, AllScored, SelectsBest, IsTopK, IsColumn, AllGather, MergedRow, AllPresent, World.Group, Replicas;
    hide Column, IdsOf, ScoresOf, EqualParts, All, World.Valid, HeldRows, IsPartitionRow;
    MergedAt(topk, world, merged, q, x, at, column);
    PartitionColumn(world, q, x, column, rows);
    MergedRowIsTopK(topk, column, rows, score, ties, k, world.w, world.i, picks);
  }
}
