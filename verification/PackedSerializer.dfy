/** The dense five-bit code payload: each stored byte is cut from a window of three codes, and a reader
    gets each code back from two neighbouring bytes. */
module PackedSerializer {
  import opened Quantizer
  import opened Sharding
  import opened Collectives

  const BITS := 5
  const QMAX := 31
  /** The kernel writes a row with one vector of this many byte lanes. */
  const LANES := 64

  type Code5 = c: bv32 | c <= 31 witness 0
  type Byte8 = b: bv32 | b <= 255 witness 0

  function RowBytes(group: nat): nat { group * BITS / 8 }

  /** The code at position `k` of a row; a masked load past the row reads code zero. */
  function CodeAt(codes: seq<Code5>, k: nat): Code5 {
    if k < |codes| then codes[k] else 0
  }

  /** Byte `j` of a packed row. */
  function PackedByte(codes: seq<Code5>, j: nat): Byte8 {
    var source, shift := 8 * j / BITS, 8 * j % BITS;
    Window(CodeAt(codes, source), CodeAt(codes, source + 1), CodeAt(codes, source + 2), shift)
  }

  function Window(c0: Code5, c1: Code5, c2: Code5, shift: nat): Byte8
    requires shift < BITS
  {
    ((c0 | (c1 << 5) | (c2 << 10)) >> shift) & 0xFF
  }

  /** Five bits at bit offset `shift` of two neighbouring bytes. */
  function Extract(lo: Byte8, hi: Byte8, shift: nat): Code5
    requires shift < 8
  {
    ((lo | (hi << 8)) >> shift) & 31
  }

  /** Value `i` of a packed payload. */
  function UnpackCode(payload: seq<Byte8>, i: nat): Code5
    requires BITS * i / 8 + 1 < |payload|
  {
    Extract(payload[BITS * i / 8], payload[BITS * i / 8 + 1], BITS * i % 8)
  }

  /** Eight codes survive five bytes, whatever follows them on either side of the row's end. */
  lemma EightCodes(c0: Code5, c1: Code5, c2: Code5, c3: Code5, c4: Code5, c5: Code5, c6: Code5, c7: Code5,
                   next: Code5, hi: Byte8)
    ensures
      var b0, b1, b2 := Window(c0, c1, c2, 0), Window(c1, c2, c3, 3), Window(c3, c4, c5, 1);
      var b3, b4 := Window(c4, c5, c6, 4), Window(c6, c7, next, 2);
      && Extract(b0, b1, 0) == c0 && Extract(b0, b1, 5) == c1 && Extract(b1, b2, 2) == c2 && Extract(b1, b2, 7) == c3
      && Extract(b2, b3, 4) == c4 && Extract(b3, b4, 1) == c5 && Extract(b3, b4, 6) == c6 && Extract(b4, hi, 3) == c7
  {
  }

  /** The five bytes, low byte first, are the number whose base-32 digits are the eight codes, first code lowest. */
  lemma BytesAreOneNumber(c0: Code5, c1: Code5, c2: Code5, c3: Code5, c4: Code5, c5: Code5, c6: Code5, c7: Code5,
                          next: Code5)
    ensures
      var b0, b1, b2 := Window(c0, c1, c2, 0), Window(c1, c2, c3, 3), Window(c3, c4, c5, 1);
      var b3, b4 := Window(c4, c5, c6, 4), Window(c6, c7, next, 2);
      b0 as bv40 | (b1 as bv40 << 8) | (b2 as bv40 << 16) | (b3 as bv40 << 24) | (b4 as bv40 << 32)
        == c0 as bv40 | (c1 as bv40 << 5) | (c2 as bv40 << 10) | (c3 as bv40 << 15)
           | (c4 as bv40 << 20) | (c5 as bv40 << 25) | (c6 as bv40 << 30) | (c7 as bv40 << 35)
  {
  }

  /** With another byte in place of the fifth, six of the codes survive, and the seventh if that byte
      happens to hold its three high bits. */
  lemma SixCodes(c0: Code5, c1: Code5, c2: Code5, c3: Code5, c4: Code5, c5: Code5, c6: Code5, old4: Byte8)
    ensures
      var b0, b1, b2 := Window(c0, c1, c2, 0), Window(c1, c2, c3, 3), Window(c3, c4, c5, 1);
      var b3 := Window(c4, c5, c6, 4);
      && Extract(b0, b1, 0) == c0 && Extract(b0, b1, 5) == c1 && Extract(b1, b2, 2) == c2 && Extract(b1, b2, 7) == c3
      && Extract(b2, b3, 4) == c4 && Extract(b3, old4, 1) == c5
      && (Extract(b3, old4, 6) == c6 <==> old4 & 7 == c6 >> 2)
  {
  }

  /** What the kernel leaves of one row at `base`: the packed bytes its lanes reach. */
  ghost predicate RowPacked(codes: seq<Code5>, record: seq<Byte8>, base: nat) {
    && base + RowBytes(|codes|) <= |record|
    && (forall j :: 0 <= j < RowBytes(|codes|) && j < LANES ==> record[base + j] == PackedByte(codes, j))
  }

  /** Packing a row over `was` leaves `now`: its stored bytes, and everything else as it was. */
  ghost predicate PackedOver(codes: seq<Code5>, was: seq<Byte8>, now: seq<Byte8>, base: nat) {
    && |now| == |was| && RowPacked(codes, now, base)
    && (forall i :: 0 <= i < |was| && !(base <= i < base + Min(RowBytes(|codes|), LANES)) ==> now[i] == was[i])
  }

  predicate ReadsAt(codes: seq<Code5>, record: seq<Byte8>, base: nat, t: nat)
    requires t < |codes|
  {
    && base + BITS * t / 8 + 1 < |record|
    && Extract(record[base + BITS * t / 8], record[base + BITS * t / 8 + 1], BITS * t % 8) == codes[t]
  }

  /** Code `t` of a row whose packed bytes all lie within the lanes reads back, up to the last one,
      whose high byte lies outside the row. */
  lemma RowRoundTrip(codes: seq<Code5>, record: seq<Byte8>, base: nat, t: nat)
    requires |codes| % 8 == 0 && t < |codes| && (RowBytes(|codes|) <= LANES || t < 96)
    requires RowPacked(codes, record, base) && base + RowBytes(|codes|) < |record|
    ensures ReadsAt(codes, record, base, t)
  {
    hide RowPacked, Window, Extract, GroupWindows;
    var a, b := t / 8, t % 8;
    RowFits(codes, record, base);
    GroupInRow(codes, record, base, a);
    GroupRead(codes[8 * a..8 * a + 8], CodeAt(codes, 8 * a + 8), record[base + 5 * a..base + 5 * a + 6], b);
    SliceCode(codes, 8 * a, b);
    ReadOffset(a, b);
  }

  lemma SliceCode(codes: seq<Code5>, at: nat, i: nat)
    requires at + 8 <= |codes| && i < 8
    ensures codes[at..at + 8][i] == CodeAt(codes, at + i)
  {
    var eight := codes[at..at + 8];
    assert eight[i] == codes[at + i];
  }

  lemma GroupInRow(codes: seq<Code5>, record: seq<Byte8>, base: nat, a: nat)
    requires |codes| % 8 == 0 && 8 * a < |codes| && (RowBytes(|codes|) <= LANES || a < 12)
    requires RowPacked(codes, record, base) && base + RowBytes(|codes|) < |record|
    ensures 8 * a + 8 <= |codes| && base + 5 * a + 6 <= |record|
    ensures GroupWindows(codes[8 * a..8 * a + 8], CodeAt(codes, 8 * a + 8), record[base + 5 * a..base + 5 * a + 6])
  {
    hide RowPacked, Window, CodeAt, RowBytes;
    GroupFits(codes, record, base, a);
    var eight, bytes := codes[8 * a..8 * a + 8], record[base + 5 * a..base + 5 * a + 6];
    forall i: nat {:trigger eight[i]} | i < 8
      ensures eight[i] == CodeAt(codes, 8 * a + i)
    {
      SliceCode(codes, 8 * a, i);
    }
    assert forall m {:trigger bytes[m]} :: 0 <= m < 6 ==> bytes[m] == record[base + 5 * a + m];
    GroupByte(codes, record, base, a, 0);
    GroupByte(codes, record, base, a, 1);
    GroupByte(codes, record, base, a, 2);
    GroupByte(codes, record, base, a, 3);
    GroupByte(codes, record, base, a, 4);
  }

  /** The five bytes of eight codes, and one byte more. */
  ghost predicate GroupWindows(codes: seq<Code5>, next: Code5, bytes: seq<Byte8>) {
    && |codes| == 8 && |bytes| == 6
    && bytes[0] == Window(codes[0], codes[1], codes[2], 0) && bytes[1] == Window(codes[1], codes[2], codes[3], 3)
    && bytes[2] == Window(codes[3], codes[4], codes[5], 1) && bytes[3] == Window(codes[4], codes[5], codes[6], 4)
    && bytes[4] == Window(codes[6], codes[7], next, 2)
  }

  lemma GroupFits(codes: seq<Code5>, record: seq<Byte8>, base: nat, a: nat)
    requires RowPacked(codes, record, base) && |codes| % 8 == 0 && 8 * a < |codes|
    requires base + RowBytes(|codes|) < |record|
    ensures 8 * a + 8 <= |codes| && base + 5 * a + 6 <= |record|
  {
    hide RowPacked;
    RowFits(codes, record, base);
  }

  lemma RowFits(codes: seq<Code5>, record: seq<Byte8>, base: nat)
    requires RowPacked(codes, record, base)
    ensures base + RowBytes(|codes|) <= |record|
  {
  }

  /** Reading code `b` of eight from their five bytes and whatever byte follows. */
  lemma GroupRead(codes: seq<Code5>, next: Code5, bytes: seq<Byte8>, b: nat)
    requires GroupWindows(codes, next, bytes) && b < 8
    ensures Extract(bytes[5 * b / 8], bytes[5 * b / 8 + 1], 5 * b % 8) == codes[b]
  {
    hide Window, Extract;
    EightCodes(codes[0], codes[1], codes[2], codes[3], codes[4], codes[5], codes[6], codes[7], next, bytes[5]);
    if b == 0 {
    } else if b == 1 {
    } else if b == 2 {
    } else if b == 3 {
    } else if b == 4 {
    } else if b == 5 {
    } else if b == 6 {
    }
  }

  /** Byte `m` of group `a`: the window that starts at code 8m/5 of the group. */
  lemma GroupByte(codes: seq<Code5>, record: seq<Byte8>, base: nat, a: nat, m: nat)
    requires RowPacked(codes, record, base) && |codes| % 8 == 0 && 8 * a < |codes| && m < 5
    requires RowBytes(|codes|) <= LANES || 5 * a + m < LANES
    ensures base + 5 * a + m < |record|
    ensures
      var source := 8 * a + 8 * m / 5;
      record[base + 5 * a + m] ==
        Window(CodeAt(codes, source), CodeAt(codes, source + 1), CodeAt(codes, source + 2), 8 * m % 5)
  {
    hide RowPacked, PackedByte, Window, CodeAt;
    GroupFitsRow(|codes|, a, m);
    StoredByte(codes, record, base, 5 * a + m);
    PackedFrom(codes, a, m);
  }

  lemma GroupFitsRow(n: nat, a: nat, m: nat)
    requires n % 8 == 0 && 8 * a < n && m < 5
    ensures 5 * a + m < RowBytes(n)
  {
  }

  lemma StoredByte(codes: seq<Code5>, record: seq<Byte8>, base: nat, j: nat)
    requires RowPacked(codes, record, base) && j < RowBytes(|codes|) && j < LANES
    ensures base + j < |record| && record[base + j] == PackedByte(codes, j)
  {
    hide PackedByte;
  }

  lemma PackedFrom(codes: seq<Code5>, a: nat, m: nat)
    requires m < 5
    ensures
      var source := 8 * a + 8 * m / 5;
      PackedByte(codes, 5 * a + m)
        == Window(CodeAt(codes, source), CodeAt(codes, source + 1), CodeAt(codes, source + 2), 8 * m % 5)
  {
    hide Window, CodeAt;
    ByteSource(5 * a, m, 8 * a);
  }

  lemma ByteSource(j: nat, m: nat, k: nat)
    requires 5 * k == 8 * j && m < 5
    ensures 8 * (j + m) / BITS == k + 8 * m / 5 && 8 * (j + m) % BITS == 8 * m % 5
  {
  }

  lemma ReadOffset(a: nat, b: nat)
    requires b < 8
    ensures BITS * (8 * a + b) / 8 == 5 * a + 5 * b / 8 && BITS * (8 * a + b) % 8 == 5 * b % 8
  {
  }

  // ---- rows wider than the lanes ----

  /** What a row of a hundred and four or more codes reads back: its first 102 codes, the next one if
      the record happened to hold its three high bits, and every later one if the record happened to
      hold it. */
  lemma WideRowIsLost(codes: seq<Code5>, was: seq<Byte8>, now: seq<Byte8>, base: nat, t: nat)
    requires |codes| % 8 == 0 && RowBytes(|codes|) > LANES && t < |codes|
    requires base + RowBytes(|codes|) < |was| && PackedOver(codes, was, now, base)
    ensures ReadsAt(codes, now, base, t) <==>
      t < 102 || (if t == 102 then was[base + LANES] & 7 == codes[t] >> 2 else ReadsAt(codes, was, base, t))
  {
    hide RowPacked, Window, Extract;
    var a, b := t / 8, t % 8;
    RowFits(codes, now, base);
    ReadOffset(a, b);
    if a < 12 {
      RowRoundTrip(codes, now, base, t);
    } else if t < 103 {
      GroupFits(codes, now, base, 12);
      GroupByte(codes, now, base, 12, 0);
      GroupByte(codes, now, base, 12, 1);
      GroupByte(codes, now, base, 12, 2);
      GroupByte(codes, now, base, 12, 3);
      assert now[base + LANES] == was[base + LANES];
      LastLane(codes, now, base, b);
    } else {
      GroupFits(codes, now, base, a);
      PastLanes(codes, was, now, base, t);
    }
  }

  /** The group of codes 96 to 103 of a wide row: four of its five bytes are stored. */
  lemma LastLane(codes: seq<Code5>, record: seq<Byte8>, base: nat, b: nat)
    requires 104 <= |codes| && base + 66 <= |record| && b < 7
    requires record[base + 60] == Window(CodeAt(codes, 96), CodeAt(codes, 97), CodeAt(codes, 98), 0)
    requires record[base + 61] == Window(CodeAt(codes, 97), CodeAt(codes, 98), CodeAt(codes, 99), 3)
    requires record[base + 62] == Window(CodeAt(codes, 99), CodeAt(codes, 100), CodeAt(codes, 101), 1)
    requires record[base + 63] == Window(CodeAt(codes, 100), CodeAt(codes, 101), CodeAt(codes, 102), 4)
    ensures Extract(record[base + 60 + 5 * b / 8], record[base + 61 + 5 * b / 8], 5 * b % 8) == codes[96 + b]
       <==> b < 6 || record[base + 64] & 7 == codes[102] >> 2
  {
    hide Window, Extract;
    SixCodes(codes[96], codes[97], codes[98], codes[99], codes[100], codes[101], codes[102], record[base + 64]);
    if b == 0 {
    } else if b == 1 {
    } else if b == 2 {
    } else if b == 3 {
    } else if b == 4 {
    } else if b == 5 {
    }
  }

  /** Of the codes after that nothing is stored: both their bytes are as they were. */
  lemma PastLanes(codes: seq<Code5>, was: seq<Byte8>, now: seq<Byte8>, base: nat, t: nat)
    requires |codes| % 8 == 0 && 103 <= t < |codes| && base + RowBytes(|codes|) < |was|
    requires PackedOver(codes, was, now, base)
    ensures ReadsAt(codes, now, base, t) <==> ReadsAt(codes, was, base, t)
  {
    hide RowPacked, Extract;
    var j := BITS * t / 8;
    assert LANES <= j;
    if base + j + 1 < |was| {
      assert now[base + j] == was[base + j] && now[base + j + 1] == was[base + j + 1];
    }
  }

  /** A row of a payload of equal rows, by value number. */
  lemma ValueInRow(group: nat, r: nat, t: nat)
    requires group % 8 == 0 && t < group
    ensures BITS * (r * group + t) / 8 == r * RowBytes(group) + BITS * t / 8
    ensures BITS * (r * group + t) % 8 == BITS * t % 8
  {
    var g := group / 8;
    assert group == 8 * g && RowBytes(group) == 5 * g;
    var p := r * g;
    assert r * group == 8 * p && r * RowBytes(group) == 5 * p;
  }

  function AsCode(c: int): Code5
    requires 0 <= c <= QMAX
  {
    SmallFits(c);
    c as bv32
  }

  lemma SmallFits(c: int)
    requires 0 <= c <= QMAX
    ensures c as bv32 <= 31
  {
  }

  /** The codes of one row of values. */
  function RowCodes(values: seq<real>, lower: real, scale: real): (codes: seq<Code5>)
    requires scale > 0.0
    ensures |codes| == |values|
  {
    seq(|values|, k requires 0 <= k < |values| => QuantizedCode(values[k], lower, scale))
  }

  function QuantizedCode(value: real, lower: real, scale: real): Code5
    requires scale > 0.0
  {
    CodeIsBest(value, lower, scale, QMAX, 0);
    AsCode(Code(value, lower, scale, QMAX))
  }

  /** Pack one row: each lane loads a window of three values, quantizes them and stores one byte. */
  method PackRow(values: seq<real>, lower: real, scale: real, record: array<Byte8>, base: nat)
    requires scale > 0.0 && base + RowBytes(|values|) <= record.Length
    modifies record
    ensures PackedOver(RowCodes(values, lower, scale), old(record[..]), record[..], base)
  {
    hide PackedByte, Window, QuantizedCode;
    for j := 0 to LANES
      invariant forall l :: 0 <= l < j && l < RowBytes(|values|) ==>
        record[base + l] == PackedByte(RowCodes(values, lower, scale), l)
      invariant forall i :: 0 <= i < record.Length && !(base <= i < base + Min(RowBytes(|values|), j)) ==>
        record[i] == old(record[i])
    {
      if j < RowBytes(|values|) {
        record[base + j] := WindowByte(values, lower, scale, j);
      }
    }
  }

  method WindowByte(values: seq<real>, lower: real, scale: real, j: nat) returns (packed: Byte8)
    requires scale > 0.0
    ensures packed == PackedByte(RowCodes(values, lower, scale), j)
  {
    hide Window, Code;
    var source, shift := 8 * j / BITS, 8 * j % BITS;
    var source0 := if source < |values| then values[source] else lower;
    var source1 := if source + 1 < |values| then values[source + 1] else lower;
    var source2 := if source + 2 < |values| then values[source + 2] else lower;
    LowerIsZero(lower, scale, QMAX);
    packed := Window(QuantizedCode(source0, lower, scale), QuantizedCode(source1, lower, scale),
                     QuantizedCode(source2, lower, scale), shift);
  }

  /** The zero point and step of one row: its smallest value and a 31st of its range. */
  ghost predicate RowRange(values: seq<real>, lower: real, scale: real) {
    && lower in values && (forall i :: 0 <= i < |values| ==> lower <= values[i])
    && (exists upper ::
          && upper in values && (forall i :: 0 <= i < |values| ==> values[i] <= upper)
          && scale == RangeScale(lower, upper, QMAX))
  }

  /** The rows packed so far, one after the other. */
  ghost predicate RowsPacked(values: seq<seq<real>>, lowers: seq<real>, scales: seq<real>, group: nat,
                             record: seq<Byte8>) {
    && |lowers| == |scales| <= |values|
    && (forall r :: 0 <= r < |lowers| ==> |values[r]| == group && RowRange(values[r], lowers[r], scales[r]))
    && (forall r :: 0 <= r < |lowers| ==>
          scales[r] > 0.0 && RowPacked(RowCodes(values[r], lowers[r], scales[r]), record, r * RowBytes(group)))
  }

  lemma RowsKept(values: seq<seq<real>>, lowers: seq<real>, scales: seq<real>, group: nat, was: seq<Byte8>,
                 now: seq<Byte8>)
    requires RowsPacked(values, lowers, scales, group, was) && |was| == |now|
    requires forall i :: 0 <= i < |lowers| * RowBytes(group) && i < |was| ==> now[i] == was[i]
    ensures RowsPacked(values, lowers, scales, group, now)
  {
    hide RowPacked, RowCodes, RowRange;
    forall r | 0 <= r < |lowers|
      ensures RowPacked(RowCodes(values[r], lowers[r], scales[r]), now, r * RowBytes(group))
    {
      ProductBounds(r, |lowers|, RowBytes(group));
      PackedKept(RowCodes(values[r], lowers[r], scales[r]), was, now, r * RowBytes(group), |lowers| * RowBytes(group));
    }
  }

  lemma PackedKept(codes: seq<Code5>, was: seq<Byte8>, now: seq<Byte8>, base: nat, end: nat)
    requires RowPacked(codes, was, base) && |was| == |now| && base + RowBytes(|codes|) <= end
    requires forall i :: 0 <= i < end && i < |was| ==> now[i] == was[i]
    ensures RowPacked(codes, now, base)
  {
    hide PackedByte;
  }

  /** Pack every row of a tile at the front of its record. */
  method SerializeTile(values: seq<seq<real>>, group: nat, record: array<Byte8>)
    returns (lowers: seq<real>, scales: seq<real>)
    requires group > 0 && forall r :: 0 <= r < |values| ==> |values[r]| == group
    requires |values| * RowBytes(group) <= record.Length
    modifies record
    ensures |lowers| == |values| && RowsPacked(values, lowers, scales, group, record[..])
    ensures forall i :: |values| * RowBytes(group) <= i < record.Length ==> record[i] == old(record[i])
  {
    lowers, scales := [], [];
    for r := 0 to |values|
      invariant |lowers| == r && RowsPacked(values, lowers, scales, group, record[..])
      invariant forall i :: |values| * RowBytes(group) <= i < record.Length ==> record[i] == old(record[i])
    {
      ghost var was := record[..];
      ProductBounds(r, |values|, RowBytes(group));
      var lower, scale := PackOne(values[r], record, r * RowBytes(group));
      RowsKept(values, lowers, scales, group, was, record[..]);
      RowsExtended(values, lowers, scales, group, record[..], lower, scale);
      lowers, scales := lowers + [lower], scales + [scale];
    }
  }

  method PackOne(values: seq<real>, record: array<Byte8>, base: nat) returns (lower: real, scale: real)
    requires |values| > 0 && base + RowBytes(|values|) <= record.Length
    modifies record
    ensures RowRange(values, lower, scale) && scale > 0.0
    ensures RowPacked(RowCodes(values, lower, scale), record[..], base)
    ensures forall i :: 0 <= i < record.Length && !(base <= i < base + RowBytes(|values|)) ==>
      record[i] == old(record[i])
  {
    lower := Lowest(values);
    var upper := Highest(values);
    scale := RangeScale(lower, upper, QMAX);
    PackRow(values, lower, scale, record, base);
  }

  lemma RowsExtended(values: seq<seq<real>>, lowers: seq<real>, scales: seq<real>, group: nat, record: seq<Byte8>,
                     lower: real, scale: real)
    requires RowsPacked(values, lowers, scales, group, record) && |lowers| < |values|
    requires |values[|lowers|]| == group && RowRange(values[|lowers|], lower, scale) && scale > 0.0
    requires RowPacked(RowCodes(values[|lowers|], lower, scale), record, |lowers| * RowBytes(group))
    ensures RowsPacked(values, lowers + [lower], scales + [scale], group, record)
  {
    hide RowPacked, RowRange;
  }

  predicate ReadsBack(record: seq<Byte8>, i: nat, code: Code5) {
    BITS * i / 8 + 1 < |record| && UnpackCode(record, i) == code
  }

  /** Value `t` of row `r` reads back as its code, and the code reconstructs it to within half a step. */
  ghost predicate Restored(values: seq<seq<real>>, lowers: seq<real>, scales: seq<real>, group: nat, record: seq<Byte8>,
                           r: nat, t: nat) {
    && r < |values| && r < |lowers| == |scales| && t < |values[r]| && scales[r] > 0.0
    && ReadsBack(record, r * group + t, QuantizedCode(values[r][t], lowers[r], scales[r]))
    && Misfit(values[r][t], lowers[r], scales[r], Code(values[r][t], lowers[r], scales[r], QMAX)) <= scales[r] / 2.0
  }

  /** Unpacking value r * group + t of the payload gives the code of value `t` of row `r`, for every row and
      every value whose packed bytes lie within the lanes, whatever follows the payload. */
  lemma TileRoundTrip(values: seq<seq<real>>, lowers: seq<real>, scales: seq<real>, group: nat, record: seq<Byte8>,
                      r: nat, t: nat)
    requires RowsPacked(values, lowers, scales, group, record) && r < |lowers| && t < group
    requires group % 8 == 0 && (RowBytes(group) <= LANES || t < 96) && |lowers| * RowBytes(group) < |record|
    ensures Restored(values, lowers, scales, group, record, r, t)
  {
    hide RowPacked, RowRange, RowCodes, Misfit, Extract, Code, QuantizedCode, RangeScale;
    var base, codes := r * RowBytes(group), RowCodes(values[r], lowers[r], scales[r]);
    assert |codes| == group && codes[t] == QuantizedCode(values[r][t], lowers[r], scales[r]) by {
      CodesAt(values[r], lowers[r], scales[r], t);
    }
    ProductBounds(r, |lowers|, RowBytes(group));
    RowRoundTrip(codes, record, base, t);
    ValueInRow(group, r, t);
    HalfStep(values[r], lowers[r], scales[r], t);
  }

  lemma CodeAsInt(value: real, lower: real, scale: real)
    requires scale > 0.0
    ensures QuantizedCode(value, lower, scale) as int == Code(value, lower, scale, QMAX)
  {
    hide Code;
    CodeIsBest(value, lower, scale, QMAX, 0);
    SmallAsInt(Code(value, lower, scale, QMAX));
  }

  lemma SmallAsInt(c: int)
    requires 0 <= c <= QMAX
    ensures c as bv32 as int == c
  {
    SmallFits(c);
  }

  lemma PackedRowFacts(values: seq<seq<real>>, lowers: seq<real>, scales: seq<real>, group: nat, record: seq<Byte8>,
                       r: nat)
    requires RowsPacked(values, lowers, scales, group, record) && r < |lowers|
    ensures |lowers| == |scales| <= |values| && |values[r]| == group && scales[r] > 0.0
    ensures RowRange(values[r], lowers[r], scales[r])
  {
    hide RowPacked, RowRange, RowCodes;
  }

  /** The smallest and the largest value of a row. */
  ghost predicate Extremes(values: seq<real>, lower: real, upper: real) {
    lower in values && upper in values && forall i :: 0 <= i < |values| ==> lower <= values[i] <= upper
  }

  lemma RangeOf(values: seq<real>, lower: real, scale: real, least: real, most: real)
    requires RowRange(values, lower, scale) && Extremes(values, least, most)
    ensures lower == least && scale == RangeScale(least, most, QMAX)
  {
    hide RangeScale;
    var upper :| upper in values && (forall i :: 0 <= i < |values| ==> values[i] <= upper)
        && scale == RangeScale(lower, upper, QMAX);
  }

  /** The codes use the whole range of a row: what is read back for a value lies within a 62nd of the row's
      range (or half the least scale) of it, and the largest value of a wide enough row has the largest code. */
  lemma StoredWithin(values: seq<seq<real>>, lowers: seq<real>, scales: seq<real>, group: nat, record: seq<Byte8>,
                     r: nat, t: nat, least: real, most: real)
    requires RowsPacked(values, lowers, scales, group, record) && r < |lowers| && t < group
    requires group % 8 == 0 && (RowBytes(group) <= LANES || t < 96) && |lowers| * RowBytes(group) < |record|
    requires Extremes(values[r], least, most)
    ensures |values[r]| == group && lowers[r] == least && BITS * (r * group + t) / 8 + 1 < |record|
    ensures var code, value := UnpackCode(record, r * group + t) as int, values[r][t];
      && Abs(value - (least + scales[r] * code as real)) <= MaxReal((most - least) / 62.0, MIN_SCALE / 2.0)
      && (value == most && most - least >= 31.0 * MIN_SCALE ==> code == 31)
  {
    hide RowPacked, RowRange, RowCodes, UnpackCode, Code, QuantizedCode, RangeScale, Abs, RowsPacked, RowBytes;
    PackedRowFacts(values, lowers, scales, group, record, r);
    TileRoundTrip(values, lowers, scales, group, record, r, t);
    CodeAsInt(values[r][t], lowers[r], scales[r]);
    RangeOf(values[r], lowers[r], scales[r], least, most);
    HalfRange(least, most);
    if values[r][t] == most && most - least >= 31.0 * MIN_SCALE {
      TopCode(least, most, QMAX);
    }
  }

  /** In the 64-token format a row takes 40 bytes, so every code of every row round-trips. */
  lemma SupportedTileRoundTrip(values: seq<seq<real>>, lowers: seq<real>, scales: seq<real>, record: seq<Byte8>,
                               r: nat, t: nat)
    requires RowsPacked(values, lowers, scales, 64, record) && r < |lowers| && t < 64
    requires |lowers| * RowBytes(64) < |record|
    ensures RowBytes(64) == 40 && Restored(values, lowers, scales, 64, record, r, t)
  {
    hide RowsPacked, Restored;
    TileRoundTrip(values, lowers, scales, 64, record, r, t);
  }

  lemma CodesAt(values: seq<real>, lower: real, scale: real, t: nat)
    requires scale > 0.0 && t < |values|
    ensures |RowCodes(values, lower, scale)| == |values|
    ensures RowCodes(values, lower, scale)[t] == QuantizedCode(values[t], lower, scale)
  {
  }

  lemma HalfStep(values: seq<real>, lower: real, scale: real, t: nat)
    requires RowRange(values, lower, scale) && t < |values| && scale > 0.0
    ensures Misfit(values[t], lower, scale, Code(values[t], lower, scale, QMAX)) <= scale / 2.0
  {
    hide Misfit, Code, RangeScale;
    var upper :| upper in values && (forall i :: 0 <= i < |values| ==> values[i] <= upper)
        && scale == RangeScale(lower, upper, QMAX);
    WithinHalfStep(values[t], lower, upper, scale, QMAX);
  }
}
