/** Fill counts of physical blocks, and the join of several fill maps.

    A block's fill is a token count or unknown; unknown is lowest.  `MergeFill` is the tracker's
    single-entry update.  Joining maps is associative, commutative and idempotent, which is what
    makes the order of the sources irrelevant. */
module FillMaps {

  /** A sequence of blocks or slots without repetitions. */
  ghost predicate Distinct(s: seq<nat>) {
    forall i, j :: 0 <= i < j < |s| ==> s[i] != s[j]
  }

  datatype Fill = Unknown | Known(tokens: nat)

  type Blocks = map<nat, Fill>

  function JoinFill(a: Fill, b: Fill): Fill {
    match (a, b)
    case (Unknown, _) => b
    case (_, Unknown) => a
    case (Known(m), Known(n)) => if n > m then b else a
  }

  predicate AtMost(a: Fill, b: Fill) {
    a.Unknown? || (b.Known? && a.tokens <= b.tokens)
  }

  /** Keep the larger fill of `block`; a block not yet present is entered as it is. */
  function MergeFill(blocks: Blocks, block: nat, fill: Fill): Blocks {
    blocks[block := if block in blocks then JoinFill(blocks[block], fill) else fill]
  }

  function MergeMaps(a: Blocks, b: Blocks): Blocks {
    map k | k in a.Keys + b.Keys ::
      if k !in a then b[k] else if k !in b then a[k] else JoinFill(a[k], b[k])
  }

  /** Some source gives block `k` the fill `f`. */
  ghost predicate Attained(sources: set<Blocks>, k: nat, f: Fill) {
    exists s :: s in sources && k in s && s[k] == f
  }

  ghost predicate Below(s: Blocks, m: Blocks) {
    forall k :: k in s ==> k in m && AtMost(s[k], m[k])
  }

  /** `m` is the pointwise maximum of `sources`: it has exactly their blocks, every value is
      taken from some source, and no source exceeds it. */
  ghost predicate IsJoin(m: Blocks, sources: set<Blocks>) {
    && (forall k :: k in m ==> Attained(sources, k, m[k]))
    && (forall s :: s in sources ==> Below(s, m))
  }

  lemma JoinAtMost(m: Blocks, n: Blocks, sources: set<Blocks>, k: nat)
    requires IsJoin(m, sources) && IsJoin(n, sources) && k in m
    ensures k in n && AtMost(m[k], n[k])
  {
    assert Attained(sources, k, m[k]);
    var s :| s in sources && k in s && s[k] == m[k];
    assert Below(s, n);
  }

  lemma JoinSame(m: Blocks, n: Blocks, sources: set<Blocks>, k: nat)
    requires IsJoin(m, sources) && IsJoin(n, sources)
    ensures k in m <==> k in n
    ensures k in m ==> m[k] == n[k]
  {
    if k in m {
      JoinAtMost(m, n, sources, k);
    }
    if k in n {
      JoinAtMost(n, m, sources, k);
    }
  }

  /** A pointwise maximum is unique, so any order of merging gives the same map. */
  lemma JoinUnique(m: Blocks, n: Blocks, sources: set<Blocks>)
    requires IsJoin(m, sources) && IsJoin(n, sources)
    ensures m == n
  {
    forall k
      ensures (k in m <==> k in n) && (k in m ==> m[k] == n[k])
    {
      JoinSame(m, n, sources, k);
    }
  }

  lemma AttainedIn(sources: set<Blocks>, s: Blocks, k: nat)
    requires s in sources && k in s
    ensures Attained(sources, k, s[k])
  {
  }

  lemma AttainedWiden(sources: set<Blocks>, wider: set<Blocks>, k: nat, f: Fill)
    requires sources <= wider && Attained(sources, k, f)
    ensures Attained(wider, k, f)
  {
    var s :| s in sources && k in s && s[k] == f;
    AttainedIn(wider, s, k);
  }

  lemma InsertAttained(m: Blocks, sources: set<Blocks>, s: Blocks, k: nat)
    requires IsJoin(m, sources) && k in MergeMaps(m, s)
    ensures Attained(sources + {s}, k, MergeMaps(m, s)[k])
  {
    if k in m && MergeMaps(m, s)[k] == m[k] {
      AttainedWiden(sources, sources + {s}, k, m[k]);
    } else {
      AttainedIn(sources + {s}, s, k);
    }
  }

  lemma BelowMerge(t: Blocks, m: Blocks, s: Blocks)
    ensures Below(t, m) ==> Below(t, MergeMaps(m, s))
    ensures Below(s, MergeMaps(m, s))
  {
  }

  lemma JoinInsert(m: Blocks, sources: set<Blocks>, s: Blocks)
    requires IsJoin(m, sources)
    ensures IsJoin(MergeMaps(m, s), sources + {s})
  {
    var n := MergeMaps(m, s);
    forall k | k in n
      ensures Attained(sources + {s}, k, n[k])
    {
      InsertAttained(m, sources, s, k);
    }
    forall t | t in sources + {s}
      ensures Below(t, n)
    {
      BelowMerge(t, m, s);
    }
  }

  lemma JoinOfOne(m: Blocks)
    ensures IsJoin(m, {m})
  {
    forall k | k in m
      ensures Attained({m}, k, m[k])
    {
      AttainedIn({m}, m, k);
    }
  }

  /** The pointwise maximum exists. */
  ghost function JoinOf(sources: set<Blocks>): (m: Blocks)
    ensures IsJoin(m, sources)
  {
    hide IsJoin, MergeMaps;
    if sources == {} then
      JoinOfNone();
      map[]
    else
      var s :| s in sources;
      JoinOneMore(JoinOf(sources - {s}), sources, s);
      MergeMaps(JoinOf(sources - {s}), s)
  }

  lemma JoinOfNone()
    ensures IsJoin(map[], {})
  {
  }

  lemma JoinOneMore(m: Blocks, sources: set<Blocks>, s: Blocks)
    requires s in sources && IsJoin(m, sources - {s})
    ensures IsJoin(MergeMaps(m, s), sources)
  {
    hide IsJoin, MergeMaps;
    JoinInsert(m, sources - {s}, s);
    assert sources - {s} + {s} == sources;
  }

  lemma JoinOfInsert(sources: set<Blocks>, s: Blocks)
    ensures JoinOf(sources + {s}) == MergeMaps(JoinOf(sources), s)
  {
    hide IsJoin, MergeMaps;
    JoinInsert(JoinOf(sources), sources, s);
    JoinUnique(JoinOf(sources + {s}), MergeMaps(JoinOf(sources), s), sources + {s});
  }

  /** The value of a block in the join when all sources that hold it agree. */
  lemma JoinOfAgreeing(sources: set<Blocks>, s: Blocks, k: nat, f: Fill)
    requires s in sources && k in s
    requires forall t :: t in sources && k in t ==> t[k] == f
    ensures k in JoinOf(sources) && JoinOf(sources)[k] == f
  {
    var m := JoinOf(sources);
    assert Below(s, m);
    assert Attained(sources, k, m[k]);
  }

  lemma JoinOfKey(sources: set<Blocks>, k: nat) returns (s: Blocks)
    requires k in JoinOf(sources)
    ensures s in sources && k in s
  {
    assert Attained(sources, k, JoinOf(sources)[k]);
    s :| s in sources && k in s && s[k] == JoinOf(sources)[k];
  }

  function SetOf(sources: seq<Blocks>): set<Blocks> {
    set s | s in sources
  }

  lemma SetOfConcat(a: seq<Blocks>, b: seq<Blocks>)
    ensures SetOf(a + b) == SetOf(a) + SetOf(b)
  {
    forall s | s in SetOf(a) + SetOf(b)
      ensures s in SetOf(a + b)
    {
      if s in SetOf(a) {
        var j :| 0 <= j < |a| && a[j] == s;
        assert (a + b)[j] == s;
      } else {
        var j :| 0 <= j < |b| && b[j] == s;
        assert (a + b)[|a| + j] == s;
      }
    }
  }

  lemma SetOfAppend(a: seq<Blocks>, s: Blocks)
    ensures SetOf(a + [s]) == SetOf(a) + {s}
  {
    SetOfConcat(a, [s]);
    assert SetOf([s]) == {s};
  }

  /** Fold every entry of `entries` into `blocks`, one `MergeFill` at a time. */
  method MergeEntries(blocks: Blocks, entries: Blocks) returns (merged: Blocks)
    ensures merged == MergeMaps(blocks, entries)
  {
    merged := blocks;
    var todo := entries.Keys;
    while todo != {}
      invariant todo <= entries.Keys
      invariant merged == MergeMaps(blocks, entries - todo)
      decreases todo
    {
      var k :| k in todo;
      assert (entries - (todo - {k})).Keys == (entries - todo).Keys + {k};
      merged := MergeFill(merged, k, entries[k]);
      todo := todo - {k};
    }
    assert entries - todo == entries;
  }

  method IndexOfLargest(sources: seq<Blocks>) returns (index: nat)
    requires sources != []
    ensures index < |sources|
    ensures forall j :: 0 <= j < |sources| ==> |sources[j]| <= |sources[index]|
    ensures forall j :: 0 <= j < index ==> |sources[j]| < |sources[index]|
  {
    index := 0;
    for j := 1 to |sources|
      invariant index < j
      invariant forall h :: 0 <= h < j ==> |sources[h]| <= |sources[index]|
      invariant forall h :: 0 <= h < index ==> |sources[h]| < |sources[index]|
    {
      if |sources[j]| > |sources[index]| {
        index := j;
      }
    }
  }

  /** Overwrite `fills` with `blocks`, then fold the overwritten values back in. */
  method Absorb(fills: Blocks, blocks: Blocks) returns (merged: Blocks)
    ensures merged == MergeMaps(fills, blocks)
  {
    var previous := map k | k in fills && k in blocks :: fills[k];
    merged := MergeEntries(fills + blocks, previous);
    forall k | k in merged
      ensures merged[k] == MergeMaps(fills, blocks)[k]
    {
      if k in previous {
        assert JoinFill(blocks[k], fills[k]) == JoinFill(fills[k], blocks[k]);
      }
    }
  }

  function JoinAll(sources: seq<Blocks>): Blocks {
    if sources == [] then map[]
    else MergeMaps(JoinAll(sources[..|sources| - 1]), sources[|sources| - 1])
  }

  lemma {:induction false} JoinAllIsJoin(sources: seq<Blocks>)
    ensures IsJoin(JoinAll(sources), SetOf(sources))
  {
    if sources == [] {
    } else {
      var front, s := sources[..|sources| - 1], sources[|sources| - 1];
      JoinAllIsJoin(front);
      JoinInsert(JoinAll(front), SetOf(front), s);
      assert sources == front + [s];
      assert SetOf(sources) == SetOf(front) + {s};
    }
  }

  lemma MergeSwap(a: Blocks, b: Blocks, c: Blocks)
    ensures MergeMaps(MergeMaps(a, b), c) == MergeMaps(MergeMaps(a, c), b)
  {
    var l, r := MergeMaps(MergeMaps(a, b), c), MergeMaps(MergeMaps(a, c), b);
    assert l.Keys == r.Keys;
  }

  lemma MergeEmpty(a: Blocks)
    ensures MergeMaps(a, map[]) == a && MergeMaps(map[], a) == a
  {
  }

  lemma {:induction false} JoinAllAbsorbs(sources: seq<Blocks>, j: nat)
    requires j < |sources|
    ensures MergeMaps(JoinAll(sources), sources[j]) == JoinAll(sources)
  {
    var front, s := sources[..|sources| - 1], sources[|sources| - 1];
    if j < |front| {
      JoinAllAbsorbs(front, j);
      MergeSwap(JoinAll(front), s, sources[j]);
    } else {
      MergeAgain(JoinAll(front), s);
    }
  }

  lemma MergeAgain(a: Blocks, b: Blocks)
    ensures MergeMaps(MergeMaps(a, b), b) == MergeMaps(a, b)
  {
  }

  /** Start from the largest source and absorb the other non-empty ones: the result is the
      pointwise maximum of all sources, whatever their order. */
  method MergeSources(sources: seq<Blocks>) returns (fills: Blocks)
    ensures fills == JoinAll(sources)
    ensures IsJoin(fills, SetOf(sources))
  {
    if sources == [] {
      JoinAllIsJoin(sources);
      return map[];
    }
    var largest := IndexOfLargest(sources);
    ghost var first := sources[largest];
    fills := sources[largest];
    MergeEmpty(first);
    for index := 0 to |sources|
      invariant fills == MergeMaps(JoinAll(sources[..index]), first)
    {
      ghost var before := JoinAll(sources[..index]);
      assert sources[..index + 1][..index] == sources[..index];
      MergeSwap(before, first, sources[index]);
      MergeEmpty(before);
      if index == largest || sources[index] == map[] {
        MergeAgain(before, first);
      } else {
        fills := Absorb(fills, sources[index]);
      }
    }
    assert sources[..|sources|] == sources;
    JoinAllAbsorbs(sources, largest);
    JoinAllIsJoin(sources);
  }
}
