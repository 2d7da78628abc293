/** The byte layout of one rank's native wire: packed pages, a 32-bit index per page, then the exact
    latent pages and the exact rope pages. */
module WireLayout {
  import opened Sharding

  type Byte = b: int | 0 <= b < 256

  const GROUP := 64
  const LATENT := 512
  const ROPE := 64
  const TILE_BYTES := 26752
  const LATENT_PAGE := 32768
  const ROPE_PAGE := 8192
  const SINK_PAGES := 2
  const TAIL_PAGES := 14
  const EXACT_PAGES := 16

  datatype Size = NegativeCapacity | Bytes(n: nat)

  /** The declared size of one rank's wire. */
  function RankBytes(pages: int, exact: int): Size {
    if pages < 0 || exact < 0 then NegativeCapacity
    else Bytes(pages * (TILE_BYTES + 4) + exact * (GROUP * LATENT + GROUP * ROPE * 2))
  }

  datatype Capacity = Capacity(pages: nat, exact: nat) {
    function IndexBase(): nat { pages * TILE_BYTES }

    function LatentBase(): nat { pages * (TILE_BYTES + 4) }

    function RopeBase(): nat { LatentBase() + exact * LATENT_PAGE }

    function WireBytes(): nat { RopeBase() + exact * ROPE_PAGE }
  }

  /** What a byte of the wire belongs to. */
  datatype Cell = Packed(page: nat, offset: nat) | Index(page: nat, offset: nat)
                | Latent(id: nat, offset: nat) | Rope(id: nat, offset: nat)

  predicate CellOk(c: Cell, cap: Capacity) {
    match c
    case Packed(page, offset) => page < cap.pages && offset < TILE_BYTES
    case Index(page, offset) => page < cap.pages && offset < 4
    case Latent(id, offset) => id < cap.exact && offset < LATENT_PAGE
    case Rope(id, offset) => id < cap.exact && offset < ROPE_PAGE
  }

  function Address(c: Cell, cap: Capacity): nat {
    match c
    case Packed(page, offset) => page * TILE_BYTES + offset
    case Index(page, offset) => cap.IndexBase() + 4 * page + offset
    case Latent(id, offset) => cap.LatentBase() + id * LATENT_PAGE + offset
    case Rope(id, offset) => cap.RopeBase() + id * ROPE_PAGE + offset
  }

  /** The regions are disjoint: two cells never share an address. */
  lemma AddressInjective(c: Cell, d: Cell, cap: Capacity)
    requires CellOk(c, cap) && CellOk(d, cap) && Address(c, cap) == Address(d, cap)
    ensures c == d
  {
  }

  /** The regions fill the declared size and nothing else. */
  lemma AddressesFillTheWire(cap: Capacity, a: nat) returns (c: Cell)
    requires a < cap.WireBytes()
    ensures CellOk(c, cap) && Address(c, cap) == a
  {
    if a < cap.IndexBase() {
      c := Packed(a / TILE_BYTES, a % TILE_BYTES);
    } else if a < cap.LatentBase() {
      var b := a - cap.IndexBase();
      c := Index(b / 4, b % 4);
    } else if a < cap.RopeBase() {
      var b := a - cap.LatentBase();
      c := Latent(b / LATENT_PAGE, b % LATENT_PAGE);
    } else {
      var b := a - cap.RopeBase();
      c := Rope(b / ROPE_PAGE, b % ROPE_PAGE);
    }
  }

  lemma DeclaredSize(cap: Capacity, c: Cell)
    ensures RankBytes(cap.pages, cap.exact) == Bytes(cap.WireBytes())
    ensures CellOk(c, cap) ==> Address(c, cap) < cap.WireBytes()
  {
  }

  predicate FitsInt32(v: int) { -0x8000_0000 <= v < 0x8000_0000 }

  /** A 32-bit two's complement integer as four bytes, low byte first. */
  function Word(v: int): (s: seq<Byte>)
    ensures |s| == 4
  {
    var u := v % 0x1_0000_0000;
    var u1 := u / 256;
    var u2 := u1 / 256;
    [u % 256, u1 % 256, u2 % 256, u2 / 256]
  }

  function WordValue(s: seq<Byte>): int
    requires |s| == 4
  {
    var b0: int, b1: int, b2: int, b3: int := s[0], s[1], s[2], s[3];
    var u := b0 + 256 * (b1 + 256 * (b2 + 256 * b3));
    if u < 0x8000_0000 then u else u - 0x1_0000_0000
  }

  lemma WordRoundTrip(v: int)
    requires FitsInt32(v)
    ensures WordValue(Word(v)) == v
    ensures var w: seq<int> := Word(v); w[0] + 0x100 * w[1] + 0x1_0000 * w[2] + 0x100_0000 * w[3] == v % 0x1_0000_0000
  {
  }

  predicate InWindow(local: int, pageLen: int) {
    local < SINK_PAGES || local >= Max(pageLen - TAIL_PAGES, SINK_PAGES)
  }

  function WithinRequest(local: int, pageLen: int): int {
    if local < SINK_PAGES then local
    else SINK_PAGES + local - Max(pageLen - TAIL_PAGES, SINK_PAGES)
  }

  function ExactId(req: int, local: int, pageLen: int): int {
    req * EXACT_PAGES + WithinRequest(local, pageLen)
  }

  /** A page in the sink or tail window always gets one of its request's sixteen exact pages. */
  lemma ExactIdInRange(req: nat, local: nat, pageLen: nat, requests: nat)
    requires req < requests && local < pageLen && InWindow(local, pageLen)
    ensures 0 <= WithinRequest(local, pageLen) < EXACT_PAGES
    ensures 0 <= ExactId(req, local, pageLen) < requests * EXACT_PAGES
  {
  }

  /** No two exact pages share an id. */
  lemma ExactIdInjective(req: nat, local: nat, pageLen: nat, req': nat, local': nat, pageLen': nat)
    requires local < pageLen && InWindow(local, pageLen) && local' < pageLen' && InWindow(local', pageLen')
    requires ExactId(req, local, pageLen) == ExactId(req', local', pageLen')
    ensures req == req' && (pageLen == pageLen' ==> local == local')
  {
  }

  /** Within a request the ids ascend with the pages, and of a request of up to sixteen pages they count them. */
  lemma ExactIdsAscend(req: nat, local: nat, later: nat, pageLen: nat)
    requires local < later < pageLen && InWindow(local, pageLen) && InWindow(later, pageLen)
    ensures ExactId(req, local, pageLen) < ExactId(req, later, pageLen)
    ensures pageLen <= EXACT_PAGES ==> ExactId(req, local, pageLen) == req * EXACT_PAGES + local
  {
  }

  /** Copying `src` over the bytes from `at` on. */
  function Overwrite(s: seq<Byte>, at: nat, src: seq<Byte>): (r: seq<Byte>)
    requires at + |src| <= |s|
    ensures |r| == |s|
  {
    s[..at] + src + s[at + |src|..]
  }

  lemma ReadBack(s: seq<Byte>, at: nat, src: seq<Byte>)
    requires at + |src| <= |s|
    ensures Overwrite(s, at, src)[at..at + |src|] == src
  {
  }

  lemma ReadElsewhere(s: seq<Byte>, at: nat, src: seq<Byte>, lo: nat, hi: nat)
    requires at + |src| <= |s| && lo <= hi <= |s| && (hi <= at || at + |src| <= lo)
    ensures Overwrite(s, at, src)[lo..hi] == s[lo..hi]
  {
    forall k | lo <= k < hi
      ensures Overwrite(s, at, src)[k] == s[k]
    {
    }
    assert Overwrite(s, at, src)[lo..hi] == s[lo..hi];
  }

  /** A slice of a slice. */
  lemma SubSlice(s: seq<Byte>, lo: nat, hi: nat, a: nat, b: nat)
    requires lo <= hi <= |s| && a <= b <= hi - lo
    ensures s[lo..hi][a..b] == s[lo + a..lo + b]
  {
    assert forall k {:trigger s[lo..hi][a..b][k]} :: 0 <= k < b - a ==> s[lo..hi][a..b][k] == s[lo + a..lo + b][k];
  }

  method Copy(wire: array<Byte>, at: nat, src: seq<Byte>)
    requires at + |src| <= wire.Length
    modifies wire
    ensures wire[..] == Overwrite(old(wire[..]), at, src)
  {
    for i := 0 to |src|
      invariant forall k :: 0 <= k < wire.Length ==>
        wire[k] == if at <= k < at + i then src[k - at] else old(wire[k])
    {
      wire[at + i] := src[i];
    }
  }
}
