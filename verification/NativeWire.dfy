/** The native gather of the compressed cache: every rank stages its live pages and exact overrides
    into one flat wire, the wires are gathered, and every rank rebuilds the rows of all ranks. */
module NativeWire {
  import opened Sharding
  import opened PackedRows
  import opened WireLayout
  import opened Collectives

  /** One rank's cache: block table and token count per request, packed tiles per block, the pool slot
      of each block (negative when packed), and the exact pools per slot. */
  datatype Rank = Rank(table: seq<seq<int>>, lens: seq<nat>, cache: seq<seq<Byte>>, mirror: seq<int>,
                       latent: seq<seq<Byte>>, rope: seq<seq<Byte>>) {

    function Pages(): (s: seq<nat>)
      ensures |s| == |lens|
    {
      seq(|lens|, q requires 0 <= q < |lens| => CeilDiv(lens[q], GROUP))
    }

    ghost predicate Valid() {
      && |table| == |lens| && |mirror| == |cache| && |latent| == |rope|
      && (forall q :: 0 <= q < |lens| ==> |table[q]| >= Pages()[q])
      && (forall b :: 0 <= b < |cache| ==> |cache[b]| == TILE_BYTES)
      && (forall p :: 0 <= p < |latent| ==> |latent[p]| == LATENT_PAGE && |rope[p]| == ROPE_PAGE)
    }

    ghost predicate Fits(cap: Capacity) {
      && Total(Pages(), |lens|) <= cap.pages
      && |lens| * EXACT_PAGES <= cap.exact <= 0x8000_0000
    }

    function Block(q: nat, k: nat): int
      requires Valid() && Within(Pages(), q, k)
    {
      table[q][k]
    }

    predicate HasTile(q: nat, k: nat)
      requires Valid() && Within(Pages(), q, k)
    {
      0 <= Block(q, k) < |cache|
    }

    /** The page is overridden by an exact slot. */
    predicate IsExact(q: nat, k: nat)
      requires Valid() && Within(Pages(), q, k)
    {
      HasTile(q, k) && 0 <= mirror[Block(q, k)] < |latent|
    }

    /** What the index kernel asserts about a page. */
    predicate PageOk(q: nat, k: nat)
      requires Valid() && Within(Pages(), q, k)
    {
      && HasTile(q, k)
      && mirror[Block(q, k)] < |latent|
      && (mirror[Block(q, k)] >= 0 ==> InWindow(k, Pages()[q]))
    }

    ghost predicate PagesOk()
      requires Valid()
    {
      forall q, k {:trigger Row(Pages(), q, k)} :: Within(Pages(), q, k) ==> PageOk(q, k)
    }

    function Id(q: nat, k: nat): int
      requires q < |lens|
    {
      ExactId(q, k, Pages()[q])
    }

    /** The index entry of a page. */
    function Entry(q: nat, k: nat): int
      requires Valid() && Within(Pages(), q, k)
    {
      if IsExact(q, k) then Id(q, k) else -1
    }
  }

  /* ----- reading a wire ----- */

  function TileAt(w: seq<Byte>, cap: Capacity, page: nat): seq<Byte>
    requires |w| == cap.WireBytes() && page < cap.pages
  {
    w[page * TILE_BYTES..page * TILE_BYTES + TILE_BYTES]
  }

  function IndexAt(w: seq<Byte>, cap: Capacity, page: nat): (s: seq<Byte>)
    requires |w| == cap.WireBytes() && page < cap.pages
    ensures |s| == 4
  {
    w[cap.IndexBase() + 4 * page..cap.IndexBase() + 4 * page + 4]
  }

  function LatentAt(w: seq<Byte>, cap: Capacity, id: nat): seq<Byte>
    requires |w| == cap.WireBytes() && id < cap.exact
  {
    w[cap.LatentBase() + id * LATENT_PAGE..cap.LatentBase() + id * LATENT_PAGE + LATENT_PAGE]
  }

  function RopeAt(w: seq<Byte>, cap: Capacity, id: nat): seq<Byte>
    requires |w| == cap.WireBytes() && id < cap.exact
  {
    w[cap.RopeBase() + id * ROPE_PAGE..cap.RopeBase() + id * ROPE_PAGE + ROPE_PAGE]
  }

  /* ----- what the three kernels leave on the wire ----- */

  /** The first `n` index words are right: an exact id, or -1 for packed and for unused pages. */
  ghost predicate IndexDone(r: Rank, cap: Capacity, w: seq<Byte>, n: nat)
    requires r.Valid() && r.Fits(cap) && |w| == cap.WireBytes() && n <= cap.pages
  {
    && (forall q, k {:trigger Row(r.Pages(), q, k)} :: Within(r.Pages(), q, k) && Row(r.Pages(), q, k) < n ==>
          IndexAt(w, cap, Row(r.Pages(), q, k)) == Word(r.Entry(q, k)))
    && (forall page :: Total(r.Pages(), |r.lens|) <= page < n ==> IndexAt(w, cap, page) == Word(-1))
  }

  /** The first `n` pages carry the tiles the block table points at. */
  ghost predicate PackedDone(r: Rank, cap: Capacity, w: seq<Byte>, n: nat)
    requires r.Valid() && r.Fits(cap) && |w| == cap.WireBytes() && n <= cap.pages
  {
    forall q, k {:trigger Row(r.Pages(), q, k)} ::
      Within(r.Pages(), q, k) && Row(r.Pages(), q, k) < n && r.HasTile(q, k) ==>
        TileAt(w, cap, Row(r.Pages(), q, k)) == r.cache[r.Block(q, k)]
  }

  ghost predicate ExactPage(r: Rank, cap: Capacity, w: seq<Byte>, q: nat, k: nat)
    requires r.Valid() && |w| == cap.WireBytes()
    requires Within(r.Pages(), q, k) && r.IsExact(q, k)
  {
    var id, slot := r.Id(q, k), r.mirror[r.Block(q, k)];
    && 0 <= id < cap.exact
    && LatentAt(w, cap, id) == r.latent[slot] && RopeAt(w, cap, id) == r.rope[slot]
  }

  /** The exact pages among the first `n` carry their pool slots under their exact ids. */
  ghost predicate ExactDone(r: Rank, cap: Capacity, w: seq<Byte>, n: nat)
    requires r.Valid() && r.Fits(cap) && |w| == cap.WireBytes() && n <= cap.pages
  {
    forall q, k {:trigger Row(r.Pages(), q, k)} ::
      Within(r.Pages(), q, k) && Row(r.Pages(), q, k) < n && r.IsExact(q, k) ==> ExactPage(r, cap, w, q, k)
  }

  ghost predicate Staged(r: Rank, cap: Capacity, w: seq<Byte>) {
    && r.Valid() && r.Fits(cap) && |w| == cap.WireBytes() && r.PagesOk()
    && IndexDone(r, cap, w, cap.pages) && PackedDone(r, cap, w, cap.pages) && ExactDone(r, cap, w, cap.pages)
  }

  /* ----- one page of each kernel ----- */

  lemma IndexStep(r: Rank, cap: Capacity, w: seq<Byte>, page: nat, v: int)
    requires r.Valid() && r.Fits(cap) && |w| == cap.WireBytes() && page < cap.pages
    requires IndexDone(r, cap, w, page)
    requires page >= Total(r.Pages(), |r.lens|) ==> v == -1
    requires forall q, k {:trigger Row(r.Pages(), q, k)} ::
      Within(r.Pages(), q, k) && Row(r.Pages(), q, k) == page ==> v == r.Entry(q, k)
    ensures IndexDone(r, cap, Overwrite(w, cap.IndexBase() + 4 * page, Word(v)), page + 1)
  {
    hide Row, Total, Overwrite, Word, IndexAt, Rank.Entry, Rank.Pages, Capacity.WireBytes, Capacity.IndexBase;
    IndexOverwritten(w, cap, page, v);
  }

  /** Overwriting one index word changes that word only. */
  lemma IndexOverwritten(w: seq<Byte>, cap: Capacity, page: nat, v: int)
    requires |w| == cap.WireBytes() && page < cap.pages
    ensures cap.IndexBase() + 4 * page + 4 <= |w|
    ensures var after := Overwrite(w, cap.IndexBase() + 4 * page, Word(v));
      && |after| == |w| && IndexAt(after, cap, page) == Word(v)
      && (forall p: nat :: p < page ==> IndexAt(after, cap, p) == IndexAt(w, cap, p))
  {
    hide Overwrite, Word;
    var at := cap.IndexBase() + 4 * page;
    ReadBack(w, at, Word(v));
    forall p: nat | p < page
      ensures IndexAt(Overwrite(w, at, Word(v)), cap, p) == IndexAt(w, cap, p)
    {
      ReadElsewhere(w, at, Word(v), cap.IndexBase() + 4 * p, cap.IndexBase() + 4 * p + 4);
    }
  }

  lemma PackedStep(r: Rank, cap: Capacity, w: seq<Byte>, page: nat, tile: seq<Byte>)
    requires r.Valid() && r.Fits(cap) && |w| == cap.WireBytes() && page < cap.pages
    requires PackedDone(r, cap, w, page) && |tile| == TILE_BYTES
    requires forall q, k {:trigger Row(r.Pages(), q, k)} ::
      Within(r.Pages(), q, k) && Row(r.Pages(), q, k) == page && r.HasTile(q, k) ==> tile == r.cache[r.Block(q, k)]
    ensures PackedDone(r, cap, Overwrite(w, page * TILE_BYTES, tile), page + 1)
  {
    hide Row, Total, Overwrite;
    var at := page * TILE_BYTES;
    ReadBack(w, at, tile);
    forall p: nat | p < page
      ensures TileAt(Overwrite(w, at, tile), cap, p) == TileAt(w, cap, p)
    {
      ReadElsewhere(w, at, tile, p * TILE_BYTES, p * TILE_BYTES + TILE_BYTES);
    }
  }

  /** The wire after one exact page was stored under its id. */
  ghost function StoreExact(cap: Capacity, w: seq<Byte>, id: nat, latent: seq<Byte>, rope: seq<Byte>): (s: seq<Byte>)
    requires |w| == cap.WireBytes() && id < cap.exact && |latent| == LATENT_PAGE && |rope| == ROPE_PAGE
    ensures |s| == |w|
  {
    Overwrite(Overwrite(w, cap.LatentBase() + id * LATENT_PAGE, latent), cap.RopeBase() + id * ROPE_PAGE, rope)
  }

  lemma ExactStored(cap: Capacity, w: seq<Byte>, id: nat, latent: seq<Byte>, rope: seq<Byte>)
    requires |w| == cap.WireBytes() && id < cap.exact && |latent| == LATENT_PAGE && |rope| == ROPE_PAGE
    ensures LatentAt(StoreExact(cap, w, id, latent, rope), cap, id) == latent
    ensures RopeAt(StoreExact(cap, w, id, latent, rope), cap, id) == rope
  {
    var mid := Overwrite(w, cap.LatentBase() + id * LATENT_PAGE, latent);
    ReadBack(w, cap.LatentBase() + id * LATENT_PAGE, latent);
    ReadBack(mid, cap.RopeBase() + id * ROPE_PAGE, rope);
    LatentKept(cap, mid, id, rope, id);
  }

  lemma IdsDiffer(r: Rank, q: nat, k: nat, p: nat, j: nat)
    requires r.Valid() && r.PagesOk() && Within(r.Pages(), q, k) && Within(r.Pages(), p, j)
    requires r.IsExact(q, k) && r.IsExact(p, j) && Row(r.Pages(), p, j) != Row(r.Pages(), q, k)
    ensures r.Id(p, j) != r.Id(q, k)
  {
    assert Row(r.Pages(), p, j) >= 0 && Row(r.Pages(), q, k) >= 0;
    assert r.PageOk(p, j) && r.PageOk(q, k);
    if r.Id(p, j) == r.Id(q, k) {
      ExactIdInjective(p, j, r.Pages()[p], q, k, r.Pages()[q]);
    }
  }

  /** Storing one exact page leaves the others alone: their ids differ. */
  lemma ExactStep(r: Rank, cap: Capacity, w: seq<Byte>, q: nat, k: nat, id: nat, slot: nat)
    requires r.Valid() && r.Fits(cap) && |w| == cap.WireBytes() && r.PagesOk()
    requires Within(r.Pages(), q, k) && r.IsExact(q, k) && Row(r.Pages(), q, k) < cap.pages
    requires id == r.Id(q, k) < cap.exact && slot == r.mirror[r.Block(q, k)]
    requires ExactDone(r, cap, w, Row(r.Pages(), q, k))
    ensures ExactDone(r, cap, StoreExact(cap, w, id, r.latent[slot], r.rope[slot]), Row(r.Pages(), q, k) + 1)
  {
    hide Row, Overwrite, LatentAt, RopeAt, StoreExact, ExactId;
    var w' := StoreExact(cap, w, id, r.latent[slot], r.rope[slot]);
    ExactStored(cap, w, id, r.latent[slot], r.rope[slot]);
    forall p, j | Within(r.Pages(), p, j) && Row(r.Pages(), p, j) < Row(r.Pages(), q, k) + 1 && r.IsExact(p, j)
      ensures ExactPage(r, cap, w', p, j)
    {
      if Row(r.Pages(), p, j) == Row(r.Pages(), q, k) {
        RowInjective(r.Pages(), p, j, q, k);
      } else {
        IdsDiffer(r, q, k, p, j);
        assert ExactPage(r, cap, w, p, j);
        ExactKept(cap, w, id, r.latent[slot], r.rope[slot], r.Id(p, j));
      }
    }
  }

  /** Storing rope bytes does not touch the latent pages. */
  lemma LatentKept(cap: Capacity, w: seq<Byte>, id: nat, rope: seq<Byte>, other: nat)
    requires |w| == cap.WireBytes() && id < cap.exact && |rope| == ROPE_PAGE && other < cap.exact
    ensures LatentAt(Overwrite(w, cap.RopeBase() + id * ROPE_PAGE, rope), cap, other) == LatentAt(w, cap, other)
  {
    ReadElsewhere(w, cap.RopeBase() + id * ROPE_PAGE, rope, cap.LatentBase() + other * LATENT_PAGE,
                  cap.LatentBase() + other * LATENT_PAGE + LATENT_PAGE);
  }

  lemma ExactKept(cap: Capacity, w: seq<Byte>, id: nat, latent: seq<Byte>, rope: seq<Byte>, other: nat)
    requires |w| == cap.WireBytes() && id < cap.exact && other < cap.exact && other != id
    requires |latent| == LATENT_PAGE && |rope| == ROPE_PAGE
    ensures
      var w' := StoreExact(cap, w, id, latent, rope);
      LatentAt(w', cap, other) == LatentAt(w, cap, other) && RopeAt(w', cap, other) == RopeAt(w, cap, other)
  {
    var mid := Overwrite(w, cap.LatentBase() + id * LATENT_PAGE, latent);
    LatentKept(cap, mid, id, rope, other);
    RopeKept(cap, mid, id, rope, other);
    LatentOnly(cap, w, id, latent, other);
  }

  lemma RopeKept(cap: Capacity, w: seq<Byte>, id: nat, rope: seq<Byte>, other: nat)
    requires |w| == cap.WireBytes() && id < cap.exact && |rope| == ROPE_PAGE && other < cap.exact && other != id
    ensures RopeAt(Overwrite(w, cap.RopeBase() + id * ROPE_PAGE, rope), cap, other) == RopeAt(w, cap, other)
  {
    ReadElsewhere(w, cap.RopeBase() + id * ROPE_PAGE, rope, cap.RopeBase() + other * ROPE_PAGE,
                  cap.RopeBase() + other * ROPE_PAGE + ROPE_PAGE);
  }

  lemma LatentOnly(cap: Capacity, w: seq<Byte>, id: nat, latent: seq<Byte>, other: nat)
    requires |w| == cap.WireBytes() && id < cap.exact && |latent| == LATENT_PAGE && other < cap.exact && other != id
    ensures LatentAt(Overwrite(w, cap.LatentBase() + id * LATENT_PAGE, latent), cap, other) == LatentAt(w, cap, other)
    ensures RopeAt(Overwrite(w, cap.LatentBase() + id * LATENT_PAGE, latent), cap, other) == RopeAt(w, cap, other)
  {
    ReadElsewhere(w, cap.LatentBase() + id * LATENT_PAGE, latent, cap.LatentBase() + other * LATENT_PAGE,
                  cap.LatentBase() + other * LATENT_PAGE + LATENT_PAGE);
    ReadElsewhere(w, cap.LatentBase() + id * LATENT_PAGE, latent, cap.RopeBase() + other * ROPE_PAGE,
                  cap.RopeBase() + other * ROPE_PAGE + ROPE_PAGE);
  }

  /* ----- the staging kernels ----- */

  /** The entry `Lookup` found is the only one in its row. */
  lemma OnlyEntry(lens: seq<nat>, req: nat, local: nat)
    requires Within(lens, req, local)
    ensures forall q, k {:trigger Row(lens, q, k)} ::
      Within(lens, q, k) && Row(lens, q, k) == Row(lens, req, local) ==> q == req && k == local
  {
    forall q, k | Within(lens, q, k) && Row(lens, q, k) == Row(lens, req, local)
      ensures q == req && k == local
    {
      RowInjective(lens, q, k, req, local);
    }
  }

  lemma NoEntry(lens: seq<nat>, row: nat)
    requires row >= Total(lens, |lens|)
    ensures forall q, k {:trigger Row(lens, q, k)} :: Within(lens, q, k) ==> Row(lens, q, k) != row
  {
    forall q, k | Within(lens, q, k)
      ensures Row(lens, q, k) != row
    {
      RowInRange(lens, q, k);
    }
  }

  /** Fill the index words; false when an assertion of the kernel fires on some page. */
  method StageIndex(r: Rank, starts: seq<nat>, cap: Capacity, wire: array<Byte>) returns (ok: bool)
    requires r.Valid() && r.Fits(cap) && wire.Length == cap.WireBytes()
    requires |starts| == |r.lens| && forall q :: 0 <= q < |starts| ==> starts[q] == Total(r.Pages(), q)
    modifies wire
    ensures ok <==> r.PagesOk()
    ensures ok ==> IndexDone(r, cap, wire[..], cap.pages)
  {
    hide Row, Overwrite, IndexAt, Total;
    for page := 0 to cap.pages
      invariant IndexDone(r, cap, wire[..], page)
      invariant forall q, k {:trigger Row(r.Pages(), q, k)} ::
        Within(r.Pages(), q, k) && Row(r.Pages(), q, k) < page ==> r.PageOk(q, k)
    {
      var req, local, length, found := Lookup(r.Pages(), starts, page);
      var entry := -1;
      if found {
        OnlyEntry(r.Pages(), req, local);
        var block := r.table[req][local];
        if block < 0 || block >= |r.cache| {
          assert !r.PageOk(req, local);
          return false;
        }
        var slot := r.mirror[block];
        if slot >= |r.latent| || (slot >= 0 && !InWindow(local, length)) {
          assert !r.PageOk(req, local);
          return false;
        }
        if slot >= 0 {
          entry := ExactId(req, local, length);
        }
      } else {
        NoEntry(r.Pages(), page);
      }
      IndexStep(r, cap, wire[..], page, entry);
      Copy(wire, cap.IndexBase() + 4 * page, Word(entry));
    }
    forall q, k | Within(r.Pages(), q, k)
      ensures Row(r.Pages(), q, k) < cap.pages
    {
      RowInRange(r.Pages(), q, k);
    }
    ok := true;
  }

  /** Copy the tile of every live page. */
  method StagePacked(r: Rank, starts: seq<nat>, cap: Capacity, wire: array<Byte>)
    requires r.Valid() && r.Fits(cap) && wire.Length == cap.WireBytes()
    requires |starts| == |r.lens| && forall q :: 0 <= q < |starts| ==> starts[q] == Total(r.Pages(), q)
    modifies wire
    ensures PackedDone(r, cap, wire[..], cap.pages)
    ensures wire[cap.IndexBase()..] == old(wire[cap.IndexBase()..])
  {
    hide Row, Overwrite, TileAt, Total;
    for page := 0 to cap.pages
      invariant PackedDone(r, cap, wire[..], page)
      invariant wire[cap.IndexBase()..] == old(wire[cap.IndexBase()..])
    {
      var req, local, _, found := Lookup(r.Pages(), starts, page);
      if found {
        OnlyEntry(r.Pages(), req, local);
      } else {
        NoEntry(r.Pages(), page);
      }
      if found && 0 <= r.table[req][local] < |r.cache| {
        var tile := r.cache[r.table[req][local]];
        PackedStep(r, cap, wire[..], page, tile);
        ReadElsewhere(wire[..], page * TILE_BYTES, tile, cap.IndexBase(), wire.Length);
        Copy(wire, page * TILE_BYTES, tile);
      }
    }
  }

  /** Copy the latent and rope pages of every exact page under its exact id. */
  method StageExact(r: Rank, starts: seq<nat>, cap: Capacity, wire: array<Byte>)
    requires r.Valid() && r.Fits(cap) && wire.Length == cap.WireBytes() && r.PagesOk()
    requires |starts| == |r.lens| && forall q :: 0 <= q < |starts| ==> starts[q] == Total(r.Pages(), q)
    modifies wire
    ensures ExactDone(r, cap, wire[..], cap.pages)
    ensures wire[..cap.LatentBase()] == old(wire[..cap.LatentBase()])
  {
    hide Row, Overwrite, LatentAt, RopeAt, Total;
    for page := 0 to cap.pages
      invariant ExactDone(r, cap, wire[..], page)
      invariant wire[..cap.LatentBase()] == old(wire[..cap.LatentBase()])
    {
      var req, local, length, found := Lookup(r.Pages(), starts, page);
      if found {
        OnlyEntry(r.Pages(), req, local);
        var block := r.table[req][local];
        if 0 <= block < |r.cache| && 0 <= r.mirror[block] < |r.latent| {
          assert r.PageOk(req, local);
          ExactIdInRange(req, local, length, |r.lens|);
          var id, slot := ExactId(req, local, length), r.mirror[block];
          ExactStep(r, cap, wire[..], req, local, id, slot);
          StorePage(cap, wire, id, r.latent[slot], r.rope[slot]);
        }
      } else {
        NoEntry(r.Pages(), page);
      }
    }
  }

  method StorePage(cap: Capacity, wire: array<Byte>, id: nat, latent: seq<Byte>, rope: seq<Byte>)
    requires wire.Length == cap.WireBytes() && id < cap.exact && |latent| == LATENT_PAGE && |rope| == ROPE_PAGE
    modifies wire
    ensures wire[..] == StoreExact(cap, old(wire[..]), id, latent, rope)
    ensures wire[..cap.LatentBase()] == old(wire[..cap.LatentBase()])
  {
    Copy(wire, cap.LatentBase() + id * LATENT_PAGE, latent);
    Copy(wire, cap.RopeBase() + id * ROPE_PAGE, rope);
  }

  /** Stage one rank: index words, then packed tiles, then exact pages. */
  method Stage(r: Rank, cap: Capacity, wire: array<Byte>) returns (ok: bool)
    requires r.Valid() && r.Fits(cap) && wire.Length == cap.WireBytes()
    modifies wire
    ensures ok <==> r.PagesOk()
    ensures ok ==> Staged(r, cap, wire[..])
  {
    hide Row, IndexDone, PackedDone, ExactDone;
    var starts := Starts(r.Pages());
    ok := StageIndex(r, starts, cap, wire);
    if !ok {
      return;
    }
    ghost var indexed := wire[..];
    StagePacked(r, starts, cap, wire);
    ghost var packed := wire[..];
    IndexFrame(r, cap, indexed, packed);
    StageExact(r, starts, cap, wire);
    PrefixFrame(r, cap, packed, wire[..]);
  }

  lemma IndexFrame(r: Rank, cap: Capacity, w: seq<Byte>, w': seq<Byte>)
    requires r.Valid() && r.Fits(cap) && |w| == |w'| == cap.WireBytes()
    requires w[cap.IndexBase()..] == w'[cap.IndexBase()..] && IndexDone(r, cap, w, cap.pages)
    ensures IndexDone(r, cap, w', cap.pages)
  {
    forall page: nat | page < cap.pages
      ensures IndexAt(w, cap, page) == IndexAt(w', cap, page)
    {
      SubSlice(w, cap.IndexBase(), |w|, 4 * page, 4 * page + 4);
      SubSlice(w', cap.IndexBase(), |w|, 4 * page, 4 * page + 4);
    }
  }

  lemma SamePage(cap: Capacity, w: seq<Byte>, w': seq<Byte>, page: nat)
    requires |w| == |w'| == cap.WireBytes() && page < cap.pages
    requires w[..cap.LatentBase()] == w'[..cap.LatentBase()]
    ensures IndexAt(w, cap, page) == IndexAt(w', cap, page) && TileAt(w, cap, page) == TileAt(w', cap, page)
  {
    var base := cap.LatentBase();
    var a, b := page * TILE_BYTES, cap.IndexBase() + 4 * page;
    assert w[a..a + TILE_BYTES] == w[..base][a..a + TILE_BYTES];
    assert w'[a..a + TILE_BYTES] == w'[..base][a..a + TILE_BYTES];
    assert w[b..b + 4] == w[..base][b..b + 4];
    assert w'[b..b + 4] == w'[..base][b..b + 4];
  }

  lemma PrefixFrame(r: Rank, cap: Capacity, w: seq<Byte>, w': seq<Byte>)
    requires r.Valid() && r.Fits(cap) && |w| == |w'| == cap.WireBytes()
    requires w[..cap.LatentBase()] == w'[..cap.LatentBase()]
    requires IndexDone(r, cap, w, cap.pages) && PackedDone(r, cap, w, cap.pages)
    ensures IndexDone(r, cap, w', cap.pages) && PackedDone(r, cap, w', cap.pages)
  {
    hide IndexAt, TileAt, Row, Total;
    forall page: nat | page < cap.pages
      ensures IndexAt(w, cap, page) == IndexAt(w', cap, page)
      ensures TileAt(w, cap, page) == TileAt(w', cap, page)
    {
      SamePage(cap, w, w', page);
    }
  }

  /* ----- rebuilding the rows ----- */

  /** The numeric decoding, which staging does not touch: a row of a packed tile, or an exact latent and
      rope row, to a cache record. */
  datatype Codec<!R> = Codec(packed: (seq<Byte>, int) -> R, exact: (seq<Byte>, seq<Byte>) -> R)

  const ROPE_ROW := 2 * ROPE

  /** Row `off` of pool slot `slot`. */
  function ExactRow<R>(c: Codec<R>, latent: seq<Byte>, rope: seq<Byte>, off: nat): R
    requires |latent| == LATENT_PAGE && |rope| == ROPE_PAGE && off < GROUP
  {
    c.exact(latent[off * LATENT..off * LATENT + LATENT], rope[off * ROPE_ROW..off * ROPE_ROW + ROPE_ROW])
  }

  /** Rows laid end to end in a slot read back one by one, each latent with its own rope. */
  lemma SlotHoldsRows<R>(c: Codec<R>, latents: seq<seq<Byte>>, ropes: seq<seq<Byte>>, off: nat)
    requires |latents| == |ropes| == GROUP && EqualParts(latents, LATENT) && EqualParts(ropes, ROPE_ROW) && off < GROUP
    ensures |AllGather(latents)| == LATENT_PAGE && |AllGather(ropes)| == ROPE_PAGE
    ensures ExactRow(c, AllGather(latents), AllGather(ropes), off) == c.exact(latents[off], ropes[off])
  {
    hide AllGather;
    GatheredSlice(latents, LATENT, off);
    GatheredSlice(ropes, ROPE_ROW, off);
  }

  /** The record of token `t` of request `q` read straight through the block table: the exact pool when
      its block is mapped, the packed tile otherwise, at the same offset. */
  function DirectRow<R>(c: Codec<R>, r: Rank, q: nat, t: nat): R
    requires r.Valid() && r.PagesOk() && Within(r.lens, q, t)
  {
    PageOfToken(r, q, t);
    var block := r.Block(q, t / GROUP);
    if r.mirror[block] >= 0 then ExactRow(c, r.latent[r.mirror[block]], r.rope[r.mirror[block]], t % GROUP)
    else c.packed(r.cache[block], t % GROUP)
  }

  lemma PageOfToken(r: Rank, q: nat, t: nat)
    requires r.Valid() && Within(r.lens, q, t)
    ensures Within(r.Pages(), q, t / GROUP)
    ensures r.PagesOk() ==> r.PageOk(q, t / GROUP)
  {
    assert Row(r.Pages(), q, t / GROUP) >= 0;
  }

  /** The four facts a reader of the wire uses about one page. */
  lemma PageOnWire(r: Rank, cap: Capacity, w: seq<Byte>, q: nat, k: nat)
    requires Staged(r, cap, w) && Within(r.Pages(), q, k)
    ensures Row(r.Pages(), q, k) < cap.pages && r.PageOk(q, k)
    ensures WordValue(IndexAt(w, cap, Row(r.Pages(), q, k))) == r.Entry(q, k)
    ensures TileAt(w, cap, Row(r.Pages(), q, k)) == r.cache[r.Block(q, k)]
    ensures r.IsExact(q, k) ==> ExactPage(r, cap, w, q, k)
  {
    hide Total, IndexAt, TileAt;
    RowInRange(r.Pages(), q, k);
    if r.IsExact(q, k) {
      ExactIdInRange(q, k, r.Pages()[q], |r.lens|);
    }
    WordRoundTrip(r.Entry(q, k));
  }

  /** Read row `off` of one page of the wire: under its exact id if its index word holds one, from its
      packed tile otherwise. */
  method ReadRow<R>(c: Codec<R>, ghost r: Rank, cap: Capacity, wire: seq<Byte>, ghost q: nat, ghost t: nat, page: nat,
                    off: nat)
    returns (row: R)
    requires Staged(r, cap, wire) && Within(r.lens, q, t) && off == t % GROUP
    requires Within(r.Pages(), q, t / GROUP) && page == Row(r.Pages(), q, t / GROUP)
    ensures row == DirectRow(c, r, q, t)
  {
    hide Row, Total, LatentAt, RopeAt, TileAt, IndexAt, Staged, Word, WordValue;
    PageOnWire(r, cap, wire, q, t / GROUP);
    WireSize(r, cap, wire);
    PageBytes(cap, wire, page);
    var exactId := WordValue(wire[cap.IndexBase() + 4 * page..cap.IndexBase() + 4 * page + 4]);
    if exactId >= 0 {
      var latentRow := cap.LatentBase() + exactId * LATENT_PAGE + off * LATENT;
      var ropeRow := cap.RopeBase() + exactId * ROPE_PAGE + off * ROPE_ROW;
      ExactRowOnWire(cap, wire, exactId, off);
      row := c.exact(wire[latentRow..latentRow + LATENT], wire[ropeRow..ropeRow + ROPE_ROW]);
    } else {
      row := c.packed(wire[page * TILE_BYTES..page * TILE_BYTES + TILE_BYTES], off);
    }
  }

  lemma PageBytes(cap: Capacity, w: seq<Byte>, page: nat)
    requires |w| == cap.WireBytes() && page < cap.pages
    ensures IndexAt(w, cap, page) == w[cap.IndexBase() + 4 * page..cap.IndexBase() + 4 * page + 4]
    ensures TileAt(w, cap, page) == w[page * TILE_BYTES..page * TILE_BYTES + TILE_BYTES]
  {
  }

  lemma WireSize(r: Rank, cap: Capacity, w: seq<Byte>)
    requires Staged(r, cap, w)
    ensures r.Valid() && r.Fits(cap) && r.PagesOk() && |w| == cap.WireBytes()
  {
  }

  /** Rebuild one row of one rank from its wire; nothing for a row past the rank's tokens. */
  method MaterializeRow<R>(c: Codec<R>, ghost r: Rank, cap: Capacity, wire: seq<Byte>, lens: seq<nat>,
                           tokenStarts: seq<nat>,
                           pageStarts: seq<nat>, rankToken: nat) returns (found: bool, row: seq<R>)
    requires Staged(r, cap, wire) && lens == r.lens && |tokenStarts| == |pageStarts| == |lens|
    requires forall q :: 0 <= q < |lens| ==> tokenStarts[q] == Total(lens, q) && pageStarts[q] == Total(r.Pages(), q)
    ensures found <==> rankToken < Total(lens, |lens|)
    ensures found ==> |row| == 1 && forall q, t {:trigger Row(r.lens, q, t)} ::
      Within(lens, q, t) && Row(lens, q, t) == rankToken ==> row[0] == DirectRow(c, r, q, t)
  {
    hide Row, Total, Staged, DirectRow;
    WireSize(r, cap, wire);
    var req, token, _, valid := Lookup(lens, tokenStarts, rankToken);
    found, row := valid, [];
    if !valid {
      return;
    }
    OnlyEntry(lens, req, token);
    PageOfToken(r, req, token);
    RowIs(r.Pages(), req, token / GROUP);
    var record := ReadRow(c, r, cap, wire, req, token, pageStarts[req] + token / GROUP, token % GROUP);
    row := [record];
  }

  lemma RowIs(lens: seq<nat>, q: nat, k: nat)
    requires q < |lens|
    ensures Row(lens, q, k) == Total(lens, q) + k
  {
  }

  /** A row of an exact page, at its own place on the wire. */
  lemma ExactRowOnWire(cap: Capacity, w: seq<Byte>, id: nat, off: nat)
    requires |w| == cap.WireBytes() && id < cap.exact && off < GROUP
    ensures
      var a := cap.LatentBase() + id * LATENT_PAGE + off * LATENT;
      a + LATENT <= |w| && |LatentAt(w, cap, id)| == LATENT_PAGE &&
      LatentAt(w, cap, id)[off * LATENT..off * LATENT + LATENT] == w[a..a + LATENT]
    ensures
      var a := cap.RopeBase() + id * ROPE_PAGE + off * ROPE_ROW;
      a + ROPE_ROW <= |w| && |RopeAt(w, cap, id)| == ROPE_PAGE &&
      RopeAt(w, cap, id)[off * ROPE_ROW..off * ROPE_ROW + ROPE_ROW] == w[a..a + ROPE_ROW]
  {
    var la, ra := cap.LatentBase() + id * LATENT_PAGE, cap.RopeBase() + id * ROPE_PAGE;
    SubSlice(w, la, la + LATENT_PAGE, off * LATENT, off * LATENT + LATENT);
    SubSlice(w, ra, ra + ROPE_PAGE, off * ROPE_ROW, off * ROPE_ROW + ROPE_ROW);
  }

  /* ----- all ranks ----- */

  /** One output row: the direct row of the token it belongs to, or untouched when it belongs to none. */
  ghost predicate Rebuilt<R>(c: Codec<R>, r: Rank, x: nat, was: R, now: R)
    requires r.Valid() && r.PagesOk()
  {
    && (x >= Total(r.lens, |r.lens|) ==> now == was)
    && (forall q, t {:trigger Row(r.lens, q, t)} :: Within(r.lens, q, t) && Row(r.lens, q, t) == x ==>
          now == DirectRow(c, r, q, t))
  }

  ghost predicate RowSettled<R>(c: Codec<R>, ranks: seq<Rank>, padded: nat, row: nat, was: R, now: R) {
    && padded > 0 && row / padded < |ranks|
    && ranks[row / padded].Valid() && ranks[row / padded].PagesOk()
    && Rebuilt(c, ranks[row / padded], row % padded, was, now)
  }

  /** The first `n` rows of the gathered buffer are rebuilt, the others untouched. */
  ghost predicate AllRebuilt<R>(c: Codec<R>, ranks: seq<Rank>, padded: nat, was: seq<R>, now: seq<R>, n: nat) {
    && n <= |was| == |now|
    && (forall row {:trigger now[row]} :: 0 <= row < n ==> RowSettled(c, ranks, padded, row, was[row], now[row]))
    && (forall row {:trigger now[row]} :: n <= row < |now| ==> now[row] == was[row])
  }

  /** The gathered wires and the page and token starts of every rank. */
  datatype Gathered = Gathered(cap: Capacity, bytes: seq<Byte>, lens: seq<seq<nat>>, tokenStarts: seq<seq<nat>>,
                               pageStarts: seq<seq<nat>>)

  ghost predicate GatheredBy(g: Gathered, ranks: seq<Rank>, wires: seq<seq<Byte>>) {
    && |ranks| == |wires| == |g.lens| == |g.tokenStarts| == |g.pageStarts|
    && (forall k :: 0 <= k < |ranks| ==> Staged(ranks[k], g.cap, wires[k]))
    && (forall k :: 0 <= k < |ranks| ==> g.lens[k] == ranks[k].lens)
    && (forall k :: 0 <= k < |ranks| ==> |g.tokenStarts[k]| == |g.pageStarts[k]| == |g.lens[k]|)
    && (forall k, q :: 0 <= k < |ranks| && 0 <= q < |g.lens[k]| ==>
          g.tokenStarts[k][q] == Total(g.lens[k], q) && g.pageStarts[k][q] == Total(ranks[k].Pages(), q))
    && g.bytes == AllGather(wires)
  }

  /** The value one row of the gathered buffer ends with. */
  method SettleRow<R>(c: Codec<R>, ghost ranks: seq<Rank>, ghost wires: seq<seq<Byte>>, g: Gathered, padded: nat,
                      row: nat, was: R)
    returns (now: R)
    requires GatheredBy(g, ranks, wires) && row < |g.lens| * padded
    ensures RowSettled(c, ranks, padded, row, was, now)
  {
    hide Row, Total, Rebuilt, Staged, GatheredBy;
    assert |ranks| == |g.lens| by { SameRanks(g, ranks, wires); }
    SplitRow(row, padded, |g.lens|);
    var rank, rankToken, size := row / padded, row % padded, g.cap.WireBytes();
    WireOfRank(g, ranks, wires, rank);
    var wire := g.bytes[rank * size..rank * size + size];
    WireSize(ranks[rank], g.cap, wire);
    var found, rows := MaterializeRow(c, ranks[rank], g.cap, wire, g.lens[rank], g.tokenStarts[rank],
        g.pageStarts[rank], rankToken);
    if found {
      now := rows[0];
    } else {
      now := was;
      NoEntry(g.lens[rank], rankToken);
    }
    RowRebuilt(c, ranks[rank], rankToken, was, now, found);
  }

  lemma SameRanks(g: Gathered, ranks: seq<Rank>, wires: seq<seq<Byte>>)
    requires GatheredBy(g, ranks, wires)
    ensures |ranks| == |g.lens| == |g.tokenStarts| == |g.pageStarts|
  {
  }

  /** Slicing the gathered bytes by rank gives back what that rank staged. */
  lemma WireOfRank(g: Gathered, ranks: seq<Rank>, wires: seq<seq<Byte>>, k: nat)
    requires GatheredBy(g, ranks, wires) && k < |ranks|
    ensures |g.tokenStarts| == |g.pageStarts| == |g.lens| == |ranks|
    ensures g.lens[k] == ranks[k].lens && |g.tokenStarts[k]| == |g.pageStarts[k]| == |g.lens[k]|
    ensures forall q :: 0 <= q < |g.lens[k]| ==>
      g.tokenStarts[k][q] == Total(g.lens[k], q) && g.pageStarts[k][q] == Total(ranks[k].Pages(), q)
    ensures
      var size := g.cap.WireBytes();
      0 <= k * size <= k * size + size <= |g.bytes| && Staged(ranks[k], g.cap, g.bytes[k * size..k * size + size])
  {
    hide Staged, Total, AllGather;
    forall i | 0 <= i < |wires|
      ensures |wires[i]| == g.cap.WireBytes()
    {
      WireSize(ranks[i], g.cap, wires[i]);
    }
    GatheredSlice(wires, g.cap.WireBytes(), k);
  }

  /** Rebuild the rows of every rank. */
  method Materialize<R>(c: Codec<R>, ghost ranks: seq<Rank>, ghost wires: seq<seq<Byte>>, g: Gathered, padded: nat,
                        output: array<R>)
    requires GatheredBy(g, ranks, wires) && output.Length == |g.lens| * padded
    modifies output
    ensures AllRebuilt(c, ranks, padded, old(output[..]), output[..], output.Length)
  {
    hide GatheredBy, RowSettled;
    for row := 0 to output.Length
      invariant AllRebuilt(c, ranks, padded, old(output[..]), output[..], row)
    {
      output[row] := SettleRow(c, ranks, wires, g, padded, row, output[row]);
    }
  }

  lemma RowRebuilt<R>(c: Codec<R>, r: Rank, x: nat, was: R, now: R, found: bool)
    requires r.Valid() && r.PagesOk() && (found <==> x < Total(r.lens, |r.lens|)) && (!found ==> now == was)
    requires forall q, t {:trigger Row(r.lens, q, t)} ::
      Within(r.lens, q, t) && Row(r.lens, q, t) == x ==> found && now == DirectRow(c, r, q, t)
    ensures Rebuilt(c, r, x, was, now)
  {
  }

  /** The row of token `t` of request `q` of rank `k` in the gathered buffer. */
  lemma GatheredRow(lens: seq<nat>, k: nat, q: nat, t: nat, padded: nat, ranks: nat)
    requires k < ranks && Within(lens, q, t) && Total(lens, |lens|) <= padded
    ensures
      var row := k * padded + Row(lens, q, t);
      padded > 0 && row < ranks * padded && row / padded == k && row % padded == Row(lens, q, t)
  {
    hide Total, Row;
    RowInRange(lens, q, t);
    MulBelow(k, ranks, padded, Row(lens, q, t));
    DivModUnique(k * padded + Row(lens, q, t), padded, k, Row(lens, q, t));
  }

  /** After the gather every rank holds, at the row of each token of each rank, the record that rank
      would read directly. */
  lemma GatherEqualsDirectRead<R>(c: Codec<R>, ranks: seq<Rank>, padded: nat, was: seq<R>, output: seq<R>, k: nat,
                                  q: nat, t: nat)
    requires AllRebuilt(c, ranks, padded, was, output, |output|) && |output| == |ranks| * padded
    requires k < |ranks| && ranks[k].Valid() && ranks[k].PagesOk()
    requires Within(ranks[k].lens, q, t) && Total(ranks[k].lens, |ranks[k].lens|) <= padded
    ensures 0 <= k * padded + Row(ranks[k].lens, q, t) < |output|
    ensures output[k * padded + Row(ranks[k].lens, q, t)] == DirectRow(c, ranks[k], q, t)
    ensures t / GROUP < |ranks[k].table[q]| && 0 <= ranks[k].table[q][t / GROUP] < |ranks[k].cache|
    ensures var r, block, off := ranks[k], ranks[k].table[q][t / GROUP], t % GROUP;
      output[k * padded + Row(r.lens, q, t)]
        == if 0 <= r.mirror[block] < |r.latent|
           then ExactRow(c, r.latent[r.mirror[block]], r.rope[r.mirror[block]], off)
           else c.packed(r.cache[block], off)
  {
    GatheredRow(ranks[k].lens, k, q, t, padded, |ranks|);
    PageOfToken(ranks[k], q, t);
  }

  /* ----- the canonical path: compact slots, then records ----- */

  /** The physical slot of every token, request after request. */
  method CompactSlots(r: Rank, starts: seq<nat>, output: array<int>)
    requires r.Valid() && output.Length >= Total(r.lens, |r.lens|)
    requires |starts| == |r.lens| + 1 && forall q :: 0 <= q <= |r.lens| ==> starts[q] == Total(r.lens, q)
    modifies output
    ensures forall q, t {:trigger Row(r.lens, q, t)} :: Within(r.lens, q, t) ==>
      Row(r.lens, q, t) < output.Length && output[Row(r.lens, q, t)] == r.table[q][t / GROUP] * GROUP + t % GROUP
  {
    forall q, t | Within(r.lens, q, t)
      ensures Row(r.lens, q, t) < output.Length
    {
      RowInRange(r.lens, q, t);
    }
    for q := 0 to |r.lens|
      invariant forall p, t {:trigger Row(r.lens, p, t)} :: Within(r.lens, p, t) && p < q ==>
        output[Row(r.lens, p, t)] == r.table[p][t / GROUP] * GROUP + t % GROUP
    {
      for offset := 0 to starts[q + 1] - starts[q]
        invariant forall p, t {:trigger Row(r.lens, p, t)} ::
          Within(r.lens, p, t) && (p < q || (p == q && t < offset)) ==>
            output[Row(r.lens, p, t)] == r.table[p][t / GROUP] * GROUP + t % GROUP
      {
        PageOfToken(r, q, offset);
        OnlyEntry(r.lens, q, offset);
        assert starts[q] + offset == Row(r.lens, q, offset);
        output[starts[q] + offset] := r.table[q][offset / GROUP] * GROUP + offset % GROUP;
      }
    }
  }

  /** Turn physical slots into records; an invalid slot leaves its row unchanged. */
  method StageRecords<R>(c: Codec<R>, r: Rank, slots: seq<int>, output: array<R>)
    requires r.Valid() && |slots| <= output.Length
    modifies output
    ensures forall q, t {:trigger Row(r.lens, q, t)} ::
      r.PagesOk() && Within(r.lens, q, t) && Row(r.lens, q, t) < |slots| &&
      slots[Row(r.lens, q, t)] == r.table[q][t / GROUP] * GROUP + t % GROUP ==>
        output[Row(r.lens, q, t)] == DirectRow(c, r, q, t)
    ensures forall row :: |slots| <= row < output.Length ==> output[row] == old(output[row])
  {
    for row := 0 to |slots|
      invariant forall q, t {:trigger Row(r.lens, q, t)} ::
        r.PagesOk() && Within(r.lens, q, t) && Row(r.lens, q, t) < row &&
        slots[Row(r.lens, q, t)] == r.table[q][t / GROUP] * GROUP + t % GROUP ==>
          output[Row(r.lens, q, t)] == DirectRow(c, r, q, t)
      invariant forall i :: |slots| <= i < output.Length ==> output[i] == old(output[i])
    {
      var block, off := slots[row] / GROUP, slots[row] % GROUP;
      if 0 <= slots[row] && block < |r.cache| && r.mirror[block] < |r.latent| {
        var slot := r.mirror[block];
        output[row] := if slot >= 0 then ExactRow(c, r.latent[slot], r.rope[slot], off)
            else c.packed(r.cache[block], off);
      }
      forall q, t | r.PagesOk() && Within(r.lens, q, t) && Row(r.lens, q, t) == row &&
                    slots[row] == r.table[q][t / GROUP] * GROUP + t % GROUP
        ensures output[row] == DirectRow(c, r, q, t)
      {
        PageOfToken(r, q, t);
        assert block == r.Block(q, t / GROUP) && off == t % GROUP;
      }
    }
  }

  /** The canonical path leaves the direct row of every token. */
  method StageCanonical<R>(c: Codec<R>, r: Rank, slots: array<int>, output: array<R>)
    requires r.Valid() && r.PagesOk() && slots.Length == Total(r.lens, |r.lens|) <= output.Length
    modifies slots, output
    ensures forall q, t {:trigger Row(r.lens, q, t)} :: Within(r.lens, q, t) ==>
      Row(r.lens, q, t) < output.Length && output[Row(r.lens, q, t)] == DirectRow(c, r, q, t)
  {
    var starts := Starts(r.lens);
    CompactSlots(r, starts + [slots.Length], slots);
    StageRecords(c, r, slots[..], output);
  }
}
