/** Global top-k over a sharded score row: each rank publishes the top-k of its own shard, and the top-k
    of what was published is the top-k of the whole row. */
module CandidateExchange {
  import opened Sharding

  /** How a selector decides between equal scores: the earlier position first, or either way. */
  datatype Ties = ByPosition | EitherWay

  /** Higher scores first; equal scores as `ties` says. */
  predicate Beats(score: seq<real>, ties: Ties, a: int, b: int) {
    && 0 <= a < |score| && 0 <= b < |score|
    && (score[a] > score[b] || (score[a] == score[b] && (ties == EitherWay || a < b)))
  }

  /** `s` holds the best min(k, |u|) positions of `u`. */
  ghost predicate IsTopK(score: seq<real>, ties: Ties, u: set<int>, k: nat, s: set<int>) {
    && s <= u && |s| == Min(k, |u|)
    && (forall a, b :: a in s && b in u && b !in s ==> Beats(score, ties, a, b))
  }

  /** The positions of a row of `n` scores. */
  function All(n: nat): set<int> {
    set t: int | 0 <= t < n && InRow(t, n)
  }

  predicate InRow(t: int, n: nat) { 0 <= t < n }

  /** The positions rank `r` owns. */
  function Owned(n: nat, w: nat, r: nat, i: nat): set<int>
    requires w > 0 && i > 0
  {
    set t: int | 0 <= t < n && Owner(t, w, i) == r
  }

  /** Rank `r`'s shard of the row. */
  function Shard(score: seq<real>, w: nat, r: nat, i: nat): (s: seq<real>)
    requires r < w && i > 0
    ensures |s| == LocalNumTokens(|score|, w, r, i)
    ensures forall l :: 0 <= l < |s| ==>
      GlobalPosition(l, w, r, i) < |score| && s[l] == score[GlobalPosition(l, w, r, i)]
  {
    forall l: nat | l < LocalNumTokens(|score|, w, r, i)
      ensures GlobalPosition(l, w, r, i) < |score|
    {
      GlobalInRange(l, |score|, w, r, i);
    }
    seq(LocalNumTokens(|score|, w, r, i),
        l requires 0 <= l < LocalNumTokens(|score|, w, r, i) => score[GlobalPosition(l, w, r, i)])
  }

  lemma GlobalInRange(l: nat, n: nat, w: nat, r: nat, i: nat)
    requires r < w && i > 0
    ensures l < LocalNumTokens(n, w, r, i) <==> GlobalPosition(l, w, r, i) < n
  {
    hide LocalNumTokens, GlobalPosition, Owner, LocalIndex;
    GlobalOfLocal(l, w, r, i);
    LocalBelowCount(GlobalPosition(l, w, r, i), n, w, i);
  }

  /** What rank `r` publishes: the global ids of its local picks. */
  function Published(n: nat, w: nat, r: nat, i: nat, picks: set<int>): set<int>
    requires w > 0 && i > 0
  {
    set t: int | 0 <= t < n && Owner(t, w, i) == r && LocalIndex(t, w, i) in picks
  }

  /** Local indices and global ids correspond one to one. */
  lemma {:induction false} PublishedSize(n: nat, w: nat, r: nat, i: nat, picks: set<int>)
    requires r < w && i > 0 && picks <= All(LocalNumTokens(n, w, r, i))
    ensures |Published(n, w, r, i, picks)| == |picks|
    decreases picks
  {
    hide LocalNumTokens, GlobalPosition, Owner, LocalIndex;
    var p := Published(n, w, r, i, picks);
    if l :| l in picks {
      var t := GlobalPosition(l, w, r, i);
      GlobalOfLocal(l, w, r, i);
      GlobalInRange(l, n, w, r, i);
      forall x | x in p && LocalIndex(x, w, i) == l
        ensures x == t
      {
        LocalOfGlobal(x, w, i);
      }
      PublishedSize(n, w, r, i, picks - {l});
      assert p == Published(n, w, r, i, picks - {l}) + {t};
    }
  }

  lemma OwnedIsPublished(n: nat, w: nat, r: nat, i: nat)
    requires r < w && i > 0
    ensures Owned(n, w, r, i) == Published(n, w, r, i, All(LocalNumTokens(n, w, r, i)))
  {
    hide LocalNumTokens, GlobalPosition, Owner, LocalIndex;
    forall t: int | t in Owned(n, w, r, i)
      ensures LocalIndex(t, w, i) in All(LocalNumTokens(n, w, r, i))
    {
      LocalBelowCount(t, n, w, i);
    }
  }

  /** The local top-k of a shard, in global ids, is the top-k of the positions the rank owns: local and
      global order agree on one rank. */
  lemma LocalPicksAreBest(score: seq<real>, ties: Ties, k: nat, w: nat, r: nat, i: nat, picks: set<int>)
    requires r < w && i > 0
    requires IsTopK(Shard(score, w, r, i), ties, All(LocalNumTokens(|score|, w, r, i)), k, picks)
    ensures IsTopK(score, ties, Owned(|score|, w, r, i), k, Published(|score|, w, r, i, picks))
  {
    hide LocalNumTokens, GlobalPosition, Owner, LocalIndex;
    var n := |score|;
    var m, shard := LocalNumTokens(n, w, r, i), Shard(score, w, r, i);
    PublishedSize(n, w, r, i, picks);
    PublishedSize(n, w, r, i, All(m));
    OwnedIsPublished(n, w, r, i);
    forall a, b | a in Published(n, w, r, i, picks) && b in Owned(n, w, r, i) && b !in Published(n, w, r, i, picks)
      ensures Beats(score, ties, a, b)
    {
      var x, y := LocalIndex(a, w, i), LocalIndex(b, w, i);
      LocalOfGlobal(a, w, i);
      LocalOfGlobal(b, w, i);
      LocalBelowCount(b, n, w, i);
      assert Beats(shard, ties, x, y);
      if x < y {
        GlobalMonotone(x, y, w, r, i);
      }
    }
  }

  lemma BeatsTransitive(score: seq<real>, ties: Ties, a: int, b: int, c: int)
    requires Beats(score, ties, a, b) && Beats(score, ties, b, c)
    ensures Beats(score, ties, a, c)
  {
  }

  /** All candidates of the exchange. */
  function Exchanged(n: nat, w: nat, i: nat, picks: seq<set<int>>): set<int>
    requires w > 0 && i > 0 && |picks| == w
  {
    OwnersInRange(n, w, i);
    set t: int | 0 <= t < n && LocalIndex(t, w, i) in picks[Owner(t, w, i)]
  }

  lemma OwnersInRange(n: nat, w: nat, i: nat)
    requires w > 0 && i > 0
    ensures forall t: int :: 0 <= t < n ==> Owner(t, w, i) < w
  {
    forall t: int | 0 <= t < n
      ensures Owner(t, w, i) < w
    {
      LocalIndexIsCount(t, w, i);
    }
  }

  lemma SubsetSize(a: set<int>, b: set<int>)
    requires a <= b
    ensures |a| <= |b| && (|a| == |b| ==> a == b)
  {
    assert b == a + (b - a);
  }

  /** A position its owner left out loses to everything the exchange keeps. */
  lemma LeftOutLoses(score: seq<real>, ties: Ties, k: nat, w: nat, i: nat, picks: seq<set<int>>, g: set<int>, a: int,
                     b: int)
    requires w > 0 && i > 0 && |picks| == w
    requires forall r :: 0 <= r < w ==>
      IsTopK(Shard(score, w, r, i), ties, All(LocalNumTokens(|score|, w, r, i)), k, picks[r])
    requires IsTopK(score, ties, Exchanged(|score|, w, i, picks), k, g)
    requires a in g && 0 <= b < |score| && b !in Exchanged(|score|, w, i, picks)
    ensures Beats(score, ties, a, b) && |g| == k
  {
    hide LocalNumTokens, GlobalPosition, Owner, LocalIndex;
    var n, r := |score|, Owner(b, w, i);
    OwnersInRange(n, w, i);
    LocalPicksAreBest(score, ties, k, w, r, i, picks[r]);
    var mine := Published(n, w, r, i, picks[r]);
    assert b in Owned(n, w, r, i) && b !in mine;
    SubsetSize(mine, Owned(n, w, r, i));
    assert |mine| == k;
    var u := Exchanged(n, w, i, picks);
    assert mine <= u;
    SubsetSize(mine, u);
    if c :| c in mine && c !in g {
      BeatsTransitive(score, ties, a, c, b);
    } else {
      SubsetSize(mine, g);
    }
  }

  /** The exchange is exact: merging the per-rank selections gives the top-k of the full row, for every
      sharding, every k and either treatment of ties. */
  lemma ExchangeIsExact(score: seq<real>, ties: Ties, k: nat, w: nat, i: nat, picks: seq<set<int>>, g: set<int>)
    requires w > 0 && i > 0 && |picks| == w
    requires forall r :: 0 <= r < w ==>
      IsTopK(Shard(score, w, r, i), ties, All(LocalNumTokens(|score|, w, r, i)), k, picks[r])
    requires IsTopK(score, ties, Exchanged(|score|, w, i, picks), k, g)
    ensures IsTopK(score, ties, All(|score|), k, g)
  {
    hide LocalNumTokens, GlobalPosition, Owner, LocalIndex;
    var n := |score|;
    var u := Exchanged(n, w, i, picks);
    SubsetSize(u, All(n));
    forall a, b | a in g && b in All(n) && b !in g
      ensures Beats(score, ties, a, b)
    {
      if b !in u {
        LeftOutLoses(score, ties, k, w, i, picks, g, a, b);
      }
    }
    if |u| < k && u != All(n) {
      var b :| b in All(n) && b !in u;
      AllPublished(score, ties, k, w, i, picks, b);
    }
  }

  /** A rank that leaves a position out has already published k others. */
  lemma AllPublished(score: seq<real>, ties: Ties, k: nat, w: nat, i: nat, picks: seq<set<int>>, b: int)
    requires w > 0 && i > 0 && |picks| == w
    requires forall r :: 0 <= r < w ==>
      IsTopK(Shard(score, w, r, i), ties, All(LocalNumTokens(|score|, w, r, i)), k, picks[r])
    requires 0 <= b < |score| && b !in Exchanged(|score|, w, i, picks)
    ensures |Exchanged(|score|, w, i, picks)| >= k
  {
    hide LocalNumTokens, GlobalPosition, Owner, LocalIndex;
    var n, r := |score|, Owner(b, w, i);
    OwnersInRange(n, w, i);
    LocalPicksAreBest(score, ties, k, w, r, i, picks[r]);
    var mine := Published(n, w, r, i, picks[r]);
    assert b in Owned(n, w, r, i) && b !in mine;
    SubsetSize(mine, Owned(n, w, r, i));
    SubsetSize(mine, Exchanged(n, w, i, picks));
  }

  /* ----- the selection exists and is unique ----- */

  lemma TopKUnique(score: seq<real>, u: set<int>, k: nat, s: set<int>, t: set<int>)
    requires IsTopK(score, ByPosition, u, k, s) && IsTopK(score, ByPosition, u, k, t)
    ensures s == t
  {
    forall b | b in t && b !in s
      ensures s <= t
    {
      OneOf(score, u, k, s, t, b);
    }
    if s <= t {
      SubsetSize(s, t);
    } else {
      assert forall b :: b in t ==> b in s;
      SubsetSize(t, s);
    }
  }

  /** If `b` was chosen only in `t`, nothing was chosen only in `s`. */
  lemma OneOf(score: seq<real>, u: set<int>, k: nat, s: set<int>, t: set<int>, b: int)
    requires IsTopK(score, ByPosition, u, k, s) && IsTopK(score, ByPosition, u, k, t) && b in t && b !in s
    ensures s <= t
  {
    forall a | a in s
      ensures a in t
    {
    }
  }

  lemma {:induction false} BestOf(score: seq<real>, u: set<int>) returns (a: int)
    requires u != {} && u <= All(|score|)
    ensures a in u && forall b :: b in u && b != a ==> Beats(score, ByPosition, a, b)
    decreases |u|
  {
    a :| a in u;
    if u != {a} {
      var c := BestOf(score, u - {a});
      if Beats(score, ByPosition, c, a) {
        a := c;
      } else {
        forall b | b in u && b != a
          ensures Beats(score, ByPosition, a, b)
        {
          if b != c {
            BeatsTransitive(score, ByPosition, a, c, b);
          }
        }
      }
    }
  }

  lemma {:induction false} TopKExists(score: seq<real>, u: set<int>, k: nat) returns (s: set<int>)
    requires u <= All(|score|)
    ensures IsTopK(score, ByPosition, u, k, s)
    decreases k
  {
    if k == 0 || u == {} {
      s := {};
    } else {
      var a := BestOf(score, u);
      var rest := TopKExists(score, u - {a}, k - 1);
      s := rest + {a};
    }
  }
}
