/**
 * The chunked-append path of the segment appender: a scanner over ISO base
 * media file format box headers (a 32-bit big-endian size followed by a
 * four-character type, section 4.2 of ISO/IEC 14496-12) and the buffer that
 * collects the chunks read from the network and hands the prefix up to the
 * last complete `moov` or `mdat` box to the media source.
 *
 * The scanner departs from the standard as the player does: a size of 0
 * stops the scan (instead of meaning "to the end of the file"), a size of 1
 * (a 64-bit largesize follows) is not recognised, and sizes are read as
 * signed 32-bit integers, so a size of 2^31 or more is negative and moves
 * the scan backwards.
 */
module SegmentAppending {
  import opened Wrappers
  import opened JsInt

  type Byte = b: int | 0 <= b < 256

  /**
   * `data[i]` of a `Uint8Array`. An index out of range (a negative one
   * included) reads `undefined`, which the bit operators and
   * `String.fromCharCode` both treat as 0.
   */
  function ByteAt(data: seq<Byte>, i: int): Byte {
    if 0 <= i < |data| then data[i] else 0
  }

  /** The unsigned big-endian value of the four bytes at `offset`. */
  function BigEndian32(data: seq<Byte>, offset: int): int {
    ByteAt(data, offset) * 0x100_0000 + ByteAt(data, offset + 1) * 0x1_0000
      + ByteAt(data, offset + 2) * 0x100 + ByteAt(data, offset + 3)
  }

  /** Converting a 32-bit pattern to signed and back to unsigned gives it back. */
  lemma SignedRoundTrip(x: int)
    requires 0 <= x < TWO_32
    ensures ToUint32(ToInt32(x)) == x
  {
    assert x % TWO_32 == x;
    if x >= TWO_31 {
      assert (x - TWO_32) % TWO_32 == x;
    }
  }

  /** `(d << k) >>> 0` for a byte `d` and a shift that keeps it within 32 bits is the byte moved into its lane. */
  lemma LaneValue(d: Byte, k: nat)
    requires k == 8 || k == 16 || k == 24
    ensures ToUint32(JsShiftLeft(d, k)) == d * Pow2(k)
  {
    Pow2Values();
    assert ToInt32(d) == d;
    if k == 8 {
      assert JsShiftLeft(d, k) == ToInt32(d * 0x100);
      SignedRoundTrip(d * 0x100);
    } else if k == 16 {
      assert JsShiftLeft(d, k) == ToInt32(d * 0x1_0000);
      SignedRoundTrip(d * 0x1_0000);
    } else {
      assert JsShiftLeft(d, k) == ToInt32(d * 0x100_0000);
      SignedRoundTrip(d * 0x100_0000);
    }
  }

  /** The value of JavaScript's `|` over the four shifted byte lanes, before the signed conversion. */
  function Lanes(data: seq<Byte>, offset: int): int {
    ToUint32(ByteAt(data, offset + 3)) + ToUint32(JsShiftLeft(ByteAt(data, offset + 2), 8))
      + ToUint32(JsShiftLeft(ByteAt(data, offset + 1), 16)) + ToUint32(JsShiftLeft(ByteAt(data, offset), 24))
  }

  /** The lanes add up to the unsigned big-endian value, which fits in 32 bits and reaches 2^31 exactly when the first byte does 0x80. */
  lemma LanesAreBigEndian(data: seq<Byte>, offset: int)
    ensures Lanes(data, offset) == BigEndian32(data, offset)
    ensures 0 <= BigEndian32(data, offset) < TWO_32
    ensures BigEndian32(data, offset) < TWO_31 <==> ByteAt(data, offset) < 0x80
  {
    LaneValue(ByteAt(data, offset + 2), 8);
    LaneValue(ByteAt(data, offset + 1), 16);
    LaneValue(ByteAt(data, offset), 24);
    Pow2Values();
    var d0, d1, d2, d3 := ByteAt(data, offset) as int, ByteAt(data, offset + 1) as int,
                          ByteAt(data, offset + 2) as int, ByteAt(data, offset + 3) as int;
    assert 0 <= d1 * 0x1_0000 + d2 * 0x100 + d3 < 0x100_0000;
  }

  /** ToInt32 of an unsigned 32-bit value: itself below 2^31, 2^32 less from there on. */
  lemma SignedOfUnsigned(x: int)
    requires 0 <= x < TWO_32
    ensures x < TWO_31 ==> ToInt32(x) == x
    ensures x >= TWO_31 ==> ToInt32(x) == x - TWO_32
  {
    assert x % TWO_32 == x;
  }

  /** `parseUint32`: the four bytes at `offset` combined by `|`, which yields a signed 32-bit result. */
  function ParseUint32(data: seq<Byte>, offset: int): (r: int)
    ensures -TWO_31 <= r < TWO_31
  {
    ToInt32(Lanes(data, offset))
  }

  /** The size field read as a signed big-endian 32-bit integer. */
  function SizeAt(data: seq<Byte>, offset: int): int {
    var u := BigEndian32(data, offset);
    if u < TWO_31 then u else u - TWO_32
  }

  /**
   * Each operand `(d << 8k) >>> 0` of `parseUint32` holds one byte in its
   * own 8-bit lane; the lanes are disjoint, so `|` combines them as their
   * sum, and `|` reads the sum as a signed 32-bit integer. The size read is
   * therefore the unsigned big-endian value when the first byte is below
   * 0x80 and that value minus 2^32 (a negative number) otherwise.
   */
  lemma ParseUint32IsBigEndian(data: seq<Byte>, offset: int)
    ensures ParseUint32(data, offset) == SizeAt(data, offset)
    ensures ByteAt(data, offset) < 0x80 ==> ParseUint32(data, offset) == BigEndian32(data, offset)
    ensures ByteAt(data, offset) >= 0x80 ==> ParseUint32(data, offset) < 0
    ensures ByteAt(data, offset) >= 0x80 ==> ParseUint32(data, offset) == BigEndian32(data, offset) - TWO_32
  {
    LanesAreBigEndian(data, offset);
    SignedOfUnsigned(BigEndian32(data, offset));
  }

  /** `parseBoxType`: the four bytes at `offset` as characters, in order. */
  function ParseBoxType(data: seq<Byte>, offset: int): (r: string)
    ensures |r| == 4
    ensures forall k :: 0 <= k < 4 ==> r[k] == ByteAt(data, offset + k) as char
  {
    [ByteAt(data, offset) as char, ByteAt(data, offset + 1) as char,
     ByteAt(data, offset + 2) as char, ByteAt(data, offset + 3) as char]
  }

  /** A box header as it is written: the size big-endian, then the type's four characters. */
  function EncodeHeader(size: nat, boxType: string): seq<Byte>
    requires size < TWO_32 && |boxType| == 4 && forall k :: 0 <= k < 4 ==> boxType[k] as int < 256
  {
    [size / 0x100_0000, (size / 0x1_0000) % 0x100, (size / 0x100) % 0x100, size % 0x100,
     boxType[0] as int, boxType[1] as int, boxType[2] as int, boxType[3] as int]
  }

  /** The four size bytes of a header put back together give the size. */
  lemma SizeBytesRecombine(size: nat)
    requires size < TWO_32
    ensures var b0, b1, b2, b3 := size / 0x100_0000, (size / 0x1_0000) % 0x100, (size / 0x100) % 0x100, size % 0x100;
      b0 * 0x100_0000 + b1 * 0x1_0000 + b2 * 0x100 + b3 == size
  {
    var x2 := size / 0x100;
    var x1 := size / 0x1_0000;
    assert size == x2 * 0x100 + size % 0x100;
    assert x1 == x2 / 0x100;
    assert x2 == x1 * 0x100 + x2 % 0x100;
    assert size / 0x100_0000 == x1 / 0x100;
    assert x1 == (x1 / 0x100) * 0x100 + x1 % 0x100;
  }

  /**
   * A header written with a size below 2^31 at any position of a buffer
   * reads back as that size and type.
   */
  lemma HeaderRoundTrip(data: seq<Byte>, p: nat, size: nat, boxType: string)
    requires size < TWO_31 && |boxType| == 4 && forall k :: 0 <= k < 4 ==> boxType[k] as int < 256
    requires p + 8 <= |data| && data[p..p + 8] == EncodeHeader(size, boxType)
    ensures ParseUint32(data, p) == size && SizeAt(data, p) == size && ParseBoxType(data, p + 4) == boxType
  {
    var h := EncodeHeader(size, boxType);
    forall k | 0 <= k < 8 ensures ByteAt(data, p + k) == h[k] {
      assert data[p + k] == data[p..p + 8][k];
    }
    assert ByteAt(data, p) < 0x80;
    SizeBytesRecombine(size);
    assert BigEndian32(data, p) == size;
    ParseUint32IsBigEndian(data, p);
    var t := ParseBoxType(data, p + 4);
    forall k | 0 <= k < 4 ensures t[k] == boxType[k] {
      assert ByteAt(data, p + 4 + k) == h[4 + k];
    }
  }

  /** `concatData`: the remaining bytes followed by the new ones (the new array itself when nothing remains). */
  function ConcatData(remaining: seq<Byte>, data: seq<Byte>): (r: seq<Byte>)
    ensures r == remaining + data
    ensures |r| == |remaining| + |data|
  {
    if |remaining| == 0 then data else remaining + data
  }

  /**
   * A `subarray` index: a negative one counts from the end, and both are
   * clamped to the array.
   */
  function RelativeIndex(i: int, length: nat): (r: nat)
    ensures r <= length
    ensures 0 <= i <= length ==> r == i
  {
    if i < 0 then (if length + i < 0 then 0 else length + i)
    else if i > length then length
    else i
  }

  /** `subarray(begin, end)` of a typed array. */
  function Subarray(s: seq<Byte>, begin: int, end: int): (r: seq<Byte>)
    ensures |r| <= |s|
    ensures 0 <= begin <= end <= |s| ==> r == s[begin..end]
  {
    var b := RelativeIndex(begin, |s|);
    var e := RelativeIndex(end, |s|);
    if b <= e then s[b..e] else []
  }

  /** Cutting at any position, `subarray(0, end)` followed by `subarray(end)` is the whole array. */
  lemma SplitConserves(s: seq<Byte>, end: int)
    ensures Subarray(s, 0, end) + Subarray(s, end, |s|) == s
  {
    var e := RelativeIndex(end, |s|);
    assert Subarray(s, 0, end) == s[..e];
    assert Subarray(s, end, |s|) == s[e..];
  }

  /** A complete box of a listed type found by the scan: where the scan reports it, and its size. */
  datatype Box = Box(offset: int, size: int)

  /** The scan's answer: `{found: false, offset?}` or `{found: true, offset, size}`. */
  datatype BoxesInfo = NotFound(lastOffset: Option<int>) | Found(offset: int, size: int)

  /**
   * The scan from `offset` stops within `n` boxes: it reaches the end of the
   * buffer or a size-0 box. A negative size moves the scan backwards, so
   * a buffer can make it loop for ever; callers supply the bound.
   */
  ghost predicate Halts(buffer: seq<Byte>, offset: int, n: nat)
    decreases n
  {
    || offset >= |buffer|
    || SizeAt(buffer, offset) == 0
    || (n > 0 && Halts(buffer, offset + SizeAt(buffer, offset), n - 1))
  }

  /** Every size the scan reads from `offset` on is positive (up to the first size-0 box), within `n` boxes. */
  ghost predicate PositiveChain(buffer: seq<Byte>, offset: int, n: nat)
    decreases n
  {
    || offset >= |buffer|
    || SizeAt(buffer, offset) == 0
    || (SizeAt(buffer, offset) > 0 && n > 0 && PositiveChain(buffer, offset + SizeAt(buffer, offset), n - 1))
  }

  lemma {:induction false} PositiveChainHalts(buffer: seq<Byte>, offset: int, n: nat)
    requires PositiveChain(buffer, offset, n)
    ensures Halts(buffer, offset, n)
    decreases n
  {
    if offset < |buffer| && SizeAt(buffer, offset) != 0 {
      PositiveChainHalts(buffer, offset + SizeAt(buffer, offset), n - 1);
    }
  }

  function Finish(box: Option<Box>, lastOffset: int): BoxesInfo {
    if box.Some? then Found(box.value.offset, box.value.size) else NotFound(Some(lastOffset))
  }

  /**
   * The rest of the scan of `findLastBoxCompleted` from `offset`, given the
   * end of the latest complete box of an unlisted type (`lastOffset`) and
   * the latest complete box of a listed type (`box`). A size-0 box stops
   * the scan; a box is complete when it ends within the buffer; a listed
   * complete box is recorded at `lastOffset`, not at its own offset.
   */
  ghost function ScanFrom(types: seq<string>, buffer: seq<Byte>, offset: int, lastOffset: int,
                          box: Option<Box>, n: nat): BoxesInfo
    requires Halts(buffer, offset, n)
    decreases n
  {
    if offset >= |buffer| then Finish(box, lastOffset)
    else
      var size := SizeAt(buffer, offset);
      var boxType := ParseBoxType(buffer, offset + 4);
      if size == 0 then Finish(box, lastOffset)
      else
        var complete := offset + size <= |buffer|;
        ScanFrom(types, buffer, offset + size,
                 if complete && boxType !in types then offset + size else lastOffset,
                 if complete && boxType in types then Some(Box(lastOffset, size)) else box,
                 n - 1)
  }

  /**
   * One box of the scan: past a non-zero size inside the buffer, the scan
   * goes on at the next box with the given end of the latest unlisted box
   * and latest listed box.
   */
  lemma ScanStep(types: seq<string>, buffer: seq<Byte>, offset: int, lastOffset: int, box: Option<Box>, n: nat,
                 size: int, listed: bool, nextLastOffset: int, nextBox: Option<Box>)
    requires Halts(buffer, offset, n) && offset < |buffer|
    requires size == SizeAt(buffer, offset) && size != 0 && listed == (ParseBoxType(buffer, offset + 4) in types)
    requires nextLastOffset == if offset + size <= |buffer| && !listed then offset + size else lastOffset
    requires nextBox == if offset + size <= |buffer| && listed then Some(Box(lastOffset, size)) else box
    ensures n > 0 && Halts(buffer, offset + size, n - 1)
    ensures ScanFrom(types, buffer, offset, lastOffset, box, n) == ScanFrom(types, buffer, offset + size, nextLastOffset, nextBox, n - 1)
  {
  }

  /** The `parseUint32` call of the scan, with its value as a signed big-endian size. */
  method ReadSize(buffer: seq<Byte>, position: int) returns (size: int)
    ensures size == SizeAt(buffer, position)
  {
    size := ParseUint32(buffer, position);
    ParseUint32IsBigEndian(buffer, position);
  }

  /**
   * `findLastBoxCompleted`: nothing is reported when fewer than nine bytes
   * lie past `offset`; otherwise the scan from `offset` answers.
   */
  method FindLastBoxCompleted(types: seq<string>, buffer: seq<Byte>, offset: int, ghost n: nat) returns (r: BoxesInfo)
    requires offset + 8 < |buffer| ==> Halts(buffer, offset, n)
    ensures offset + 8 >= |buffer| ==> r == NotFound(None)
    ensures offset + 8 < |buffer| ==> r == ScanFrom(types, buffer, offset, 0, None, n)
  {
    if offset + 8 >= |buffer| {
      return NotFound(None);
    }
    var boxInfo: Option<Box> := None;
    var lastOffset := 0;
    var position := offset;
    ghost var fuel := n;
    while position < |buffer|
      invariant Halts(buffer, position, fuel)
      invariant ScanFrom(types, buffer, position, lastOffset, boxInfo, fuel) == ScanFrom(types, buffer, offset, 0, None, n)
      decreases fuel
    {
      var size := ReadSize(buffer, position);
      var boxType := ParseBoxType(buffer, position + 4);
      if size == 0 {
        break;
      }
      ghost var (p, l, b) := (position, lastOffset, boxInfo);
      var listed := boxType in types;
      if position + size <= |buffer| {
        if listed {
          boxInfo := Some(Box(lastOffset, size));
        } else {
          lastOffset := position + size;
        }
      }
      position := position + size;
      ScanStep(types, buffer, p, l, b, fuel, size, listed, lastOffset, boxInfo);
      fuel := fuel - 1;
    }
    r := Finish(boxInfo, lastOffset);
  }

  /**
   * With positive sizes and a scan starting inside the buffer, a found box
   * reported at `offset` with `size` ends within the buffer, after its
   * start; the offset reported when nothing is found is within the buffer.
   */
  lemma {:induction false} FoundBoxFits(types: seq<string>, buffer: seq<Byte>, offset: int, lastOffset: int,
                                         box: Option<Box>, n: nat)
    requires PositiveChain(buffer, offset, n) && Halts(buffer, offset, n)
    requires 0 <= lastOffset <= offset && lastOffset <= |buffer|
    requires box.Some? ==> 0 <= box.value.offset && 0 < box.value.size && box.value.offset + box.value.size <= |buffer|
    ensures var r := ScanFrom(types, buffer, offset, lastOffset, box, n);
      && (r.Found? ==> 0 <= r.offset && 0 < r.size && r.offset + r.size <= |buffer|)
      && (r.NotFound? ==> r.lastOffset.Some? && 0 <= r.lastOffset.value <= |buffer|)
    decreases n
  {
    if offset < |buffer| {
      var size := SizeAt(buffer, offset);
      var boxType := ParseBoxType(buffer, offset + 4);
      if size != 0 {
        var complete := offset + size <= |buffer|;
        FoundBoxFits(types, buffer, offset + size,
                     if complete && boxType !in types then offset + size else lastOffset,
                     if complete && boxType in types then Some(Box(lastOffset, size)) else box,
                     n - 1);
      }
    }
  }

  /**
   * With positive sizes the cut of a found box lies inside the buffer, so
   * the prefix handed on and the rest kept are plain slices at the end of
   * that box.
   */
  lemma CutWithinBuffer(types: seq<string>, buffer: seq<Byte>, n: nat)
    requires PositiveChain(buffer, 0, n)
    ensures Halts(buffer, 0, n)
    ensures var r := ScanFrom(types, buffer, 0, 0, None, n);
      r.Found? ==>
        var end := r.offset + r.size;
        0 < end <= |buffer| && Subarray(buffer, 0, end) == buffer[..end] && Subarray(buffer, end, |buffer|) == buffer[end..]
  {
    PositiveChainHalts(buffer, 0, n);
    FoundBoxFits(types, buffer, 0, 0, None, n);
  }

  /** With no listed type, the scan never finds a box. */
  lemma {:induction false} NoTypesNotFound(buffer: seq<Byte>, offset: int, lastOffset: int, n: nat)
    requires Halts(buffer, offset, n)
    ensures ScanFrom([], buffer, offset, lastOffset, None, n).NotFound?
    decreases n
  {
    if offset < |buffer| {
      var size := SizeAt(buffer, offset);
      if size != 0 {
        var complete := offset + size <= |buffer|;
        NoTypesNotFound(buffer, offset + size, if complete then offset + size else lastOffset, n - 1);
      }
    }
  }

  /**
   * The offsets of the boxes the scan from `offset` steps over, in order:
   * each lies inside the buffer with a non-zero size, and the next starts
   * where the previous one ends.
   */
  ghost function Visited(buffer: seq<Byte>, offset: int, n: nat): (v: seq<int>)
    requires Halts(buffer, offset, n)
    ensures v != [] ==> v[0] == offset
    ensures forall i :: 0 <= i < |v| ==> v[i] < |buffer| && SizeAt(buffer, v[i]) != 0
    ensures forall i :: 0 <= i < |v| - 1 ==> v[i + 1] == v[i] + SizeAt(buffer, v[i])
    decreases n
  {
    if offset >= |buffer| || SizeAt(buffer, offset) == 0 then []
    else [offset] + Visited(buffer, offset + SizeAt(buffer, offset), n - 1)
  }

  /** The box at `p` ends within the buffer and has one of the listed types. */
  ghost predicate CompleteListed(types: seq<string>, buffer: seq<Byte>, p: int) {
    p + SizeAt(buffer, p) <= |buffer| && ParseBoxType(buffer, p + 4) in types
  }

  /** The box at `p` ends within the buffer and has none of the listed types. */
  ghost predicate CompleteUnlisted(types: seq<string>, buffer: seq<Byte>, p: int) {
    p + SizeAt(buffer, p) <= |buffer| && ParseBoxType(buffer, p + 4) !in types
  }

  /** The index in `v` of the last complete box of a listed type, or -1. */
  ghost function LastListed(types: seq<string>, buffer: seq<Byte>, v: seq<int>): (k: int)
    ensures -1 <= k < |v|
    ensures k >= 0 ==> CompleteListed(types, buffer, v[k])
    ensures forall j :: k < j < |v| ==> !CompleteListed(types, buffer, v[j])
    decreases |v|
  {
    if v == [] then -1
    else if CompleteListed(types, buffer, v[|v| - 1]) then |v| - 1
    else LastListed(types, buffer, v[..|v| - 1])
  }

  /** The index in `v` of the last complete box of an unlisted type, or -1. */
  ghost function LastUnlisted(types: seq<string>, buffer: seq<Byte>, v: seq<int>): (k: int)
    ensures -1 <= k < |v|
    ensures k >= 0 ==> CompleteUnlisted(types, buffer, v[k])
    ensures forall j :: k < j < |v| ==> !CompleteUnlisted(types, buffer, v[j])
    decreases |v|
  {
    if v == [] then -1
    else if CompleteUnlisted(types, buffer, v[|v| - 1]) then |v| - 1
    else LastUnlisted(types, buffer, v[..|v| - 1])
  }

  /** Where the last complete unlisted box among the boxes at `v` ends, or 0 if there is none. */
  ghost function UnlistedEnd(types: seq<string>, buffer: seq<Byte>, v: seq<int>): int {
    var j := LastUnlisted(types, buffer, v);
    if j < 0 then 0 else v[j] + SizeAt(buffer, v[j])
  }

  /**
   * The box the scan has recorded after stepping over the boxes at `v`:
   * the last complete listed one, with its size, placed at the end of the
   * last complete unlisted box before it.
   */
  ghost function RecordedBox(types: seq<string>, buffer: seq<Byte>, v: seq<int>): Option<Box> {
    var k := LastListed(types, buffer, v);
    if k < 0 then None else Some(Box(UnlistedEnd(types, buffer, v[..k]), SizeAt(buffer, v[k])))
  }

  /** Stepping over one more box at `p` updates the recorded box and the unlisted end as the scan does. */
  lemma StepOver(types: seq<string>, buffer: seq<Byte>, pre: seq<int>, p: int)
    ensures var w := pre + [p];
      && UnlistedEnd(types, buffer, w)
           == (if CompleteUnlisted(types, buffer, p) then p + SizeAt(buffer, p) else UnlistedEnd(types, buffer, pre))
      && RecordedBox(types, buffer, w)
           == (if CompleteListed(types, buffer, p) then Some(Box(UnlistedEnd(types, buffer, pre), SizeAt(buffer, p)))
               else RecordedBox(types, buffer, pre))
  {
    var w := pre + [p];
    assert w[..|w| - 1] == pre;
    var k := LastListed(types, buffer, pre);
    if k >= 0 {
      assert w[..k] == pre[..k];
    }
  }

  /** The scan after the boxes at `pre` ends with the recorded box of all the boxes it steps over. */
  lemma {:induction false} ScanAfter(types: seq<string>, buffer: seq<Byte>, pre: seq<int>, offset: int, n: nat)
    requires Halts(buffer, offset, n)
    ensures ScanFrom(types, buffer, offset, UnlistedEnd(types, buffer, pre), RecordedBox(types, buffer, pre), n)
              == Finish(RecordedBox(types, buffer, pre + Visited(buffer, offset, n)),
                        UnlistedEnd(types, buffer, pre + Visited(buffer, offset, n)))
    decreases n
  {
    var all := pre + Visited(buffer, offset, n);
    if offset >= |buffer| || SizeAt(buffer, offset) == 0 {
      assert all == pre;
    } else {
      var size := SizeAt(buffer, offset);
      var w := pre + [offset];
      var rest := Visited(buffer, offset + size, n - 1);
      assert Visited(buffer, offset, n) == [offset] + rest;
      assert all == w + rest;
      StepOver(types, buffer, pre, offset);
      ScanStep(types, buffer, offset, UnlistedEnd(types, buffer, pre), RecordedBox(types, buffer, pre), n,
               size, ParseBoxType(buffer, offset + 4) in types, UnlistedEnd(types, buffer, w), RecordedBox(types, buffer, w));
      ScanAfter(types, buffer, w, offset + size, n - 1);
    }
  }

  /**
   * What the scan from `offset` reports: among the boxes it steps over, the
   * last complete box of a listed type is found, with its own size but at
   * the end of the last complete unlisted box before it (0 if none); with
   * no complete listed box, the end of the last complete unlisted box (0 if
   * none) is reported.
   */
  lemma ScanFindsLastListed(types: seq<string>, buffer: seq<Byte>, offset: int, n: nat)
    requires Halts(buffer, offset, n)
    ensures var v := Visited(buffer, offset, n);
      var k := LastListed(types, buffer, v);
      ScanFrom(types, buffer, offset, 0, None, n)
        == if k >= 0 then Found(UnlistedEnd(types, buffer, v[..k]), SizeAt(buffer, v[k]))
           else NotFound(Some(UnlistedEnd(types, buffer, v)))
  {
    ScanAfter(types, buffer, [], offset, n);
    assert [] + Visited(buffer, offset, n) == Visited(buffer, offset, n);
  }

  const MOOF: string := "moof"
  const MDAT: string := "mdat"
  const MOOV: string := "moov"

  /** A `moof` box of 16 bytes, an `mdat` box of 12, and the 9 bytes read so far of a `moof` of 100. */
  function FragmentBuffer(payload: seq<Byte>): seq<Byte>
    requires |payload| == 8
  {
    EncodeHeader(16, MOOF) + payload + EncodeHeader(12, MDAT) + payload[..4] + EncodeHeader(100, MOOF) + [0]
  }

  lemma FragmentHeaders(payload: seq<Byte>)
    requires |payload| == 8
    ensures var buffer := FragmentBuffer(payload);
      && |buffer| == 37
      && SizeAt(buffer, 0) == 16 && ParseBoxType(buffer, 4) == MOOF
      && SizeAt(buffer, 16) == 12 && ParseBoxType(buffer, 20) == MDAT
      && SizeAt(buffer, 28) == 100
  {
    var buffer := FragmentBuffer(payload);
    assert SizeAt(buffer, 0) == 16 && ParseBoxType(buffer, 4) == MOOF by {
      assert buffer[0..8] == EncodeHeader(16, MOOF);
      HeaderRoundTrip(buffer, 0, 16, MOOF);
    }
    assert SizeAt(buffer, 16) == 12 && ParseBoxType(buffer, 20) == MDAT by {
      assert buffer[16..24] == EncodeHeader(12, MDAT);
      HeaderRoundTrip(buffer, 16, 12, MDAT);
    }
    assert SizeAt(buffer, 28) == 100 by {
      assert buffer[28..36] == EncodeHeader(100, MOOF);
      HeaderRoundTrip(buffer, 28, 100, MOOF);
    }
  }

  /**
   * On that buffer the scan reports the `mdat` at the end of the `moof`, so
   * the cut falls at the end of the `mdat` and the partial box stays behind.
   */
  lemma FragmentExample(payload: seq<Byte>)
    requires |payload| == 8
    ensures Halts(FragmentBuffer(payload), 0, 3)
    ensures ScanFrom([MOOV, MDAT], FragmentBuffer(payload), 0, 0, None, 3) == Found(16, 12)
  {
    var buffer := FragmentBuffer(payload);
    FragmentHeaders(payload);
    var types := [MOOV, MDAT];
    assert MOOF !in types && MDAT in types;
    assert Halts(buffer, 128, 0);
    assert Halts(buffer, 28, 1);
    assert Halts(buffer, 16, 2);
    assert ScanFrom(types, buffer, 28, 16, Some(Box(16, 12)), 1) == Found(16, 12);
    assert ScanFrom(types, buffer, 16, 16, None, 2) == ScanFrom(types, buffer, 28, 16, Some(Box(16, 12)), 1);
  }

  /** Two `mdat` boxes in a row, of 12 and 16 bytes. */
  function ConsecutiveBuffer(payload: seq<Byte>): seq<Byte>
    requires |payload| == 8
  {
    EncodeHeader(12, MDAT) + payload[..4] + EncodeHeader(16, MDAT) + payload
  }

  /**
   * On that buffer the second box is reported at offset 0 (where the scan
   * last passed the end of an unlisted box), so the reported end, 16, falls
   * inside the second box rather than at its end, 28.
   */
  lemma ConsecutiveMatchesExample(payload: seq<Byte>)
    requires |payload| == 8
    ensures Halts(ConsecutiveBuffer(payload), 0, 2)
    ensures ScanFrom([MOOV, MDAT], ConsecutiveBuffer(payload), 0, 0, None, 2) == Found(0, 16)
  {
    var buffer := ConsecutiveBuffer(payload);
    assert |buffer| == 28;
    assert buffer[0..8] == EncodeHeader(12, MDAT);
    HeaderRoundTrip(buffer, 0, 12, MDAT);
    assert buffer[12..20] == EncodeHeader(16, MDAT);
    HeaderRoundTrip(buffer, 12, 16, MDAT);
    assert Halts(buffer, 28, 0);
    assert Halts(buffer, 12, 1);
  }

  /** The concatenation of a list of chunks. */
  function Flatten(chunks: seq<seq<Byte>>): seq<Byte> {
    if chunks == [] then [] else Flatten(chunks[..|chunks| - 1]) + chunks[|chunks| - 1]
  }

  class SegmentAppender {
    var buffer: seq<Byte>
    /** The scan's start; `onReadUpdate` only ever sets it to 0. */
    var offset: int
    /** The buffer's length as of the last split (0 at first), compared against the cut. */
    var bufferSize: int
    /** Every chunk handed to `onSegmentBoxReady`, in order. */
    ghost var emitted: seq<seq<Byte>>
    /** Every non-empty chunk read from the stream, in order. */
    ghost var received: seq<seq<Byte>>
    /** How many times `onSegmentAppendCompleted` was called. */
    ghost var completions: nat

    /** No byte read is lost or duplicated: what was handed on, then what is held, is what was read. */
    ghost predicate Conserved()
      reads this
    {
      Flatten(emitted) + buffer == Flatten(received)
    }

    constructor ()
      ensures buffer == [] && offset == 0 && bufferSize == 0
      ensures emitted == [] && received == [] && completions == 0
      ensures Conserved()
    {
      buffer := [];
      offset := 0;
      bufferSize := 0;
      emitted := [];
      received := [];
      completions := 0;
    }

    /**
     * The split of `onReadUpdate`: the prefix up to `end` is handed on. When
     * `end` equals the length recorded at the last split the whole buffer
     * goes, new bytes included; otherwise the buffer is cut at `end`.
     */
    method SplitAt(end: int)
      modifies this`buffer, this`bufferSize, this`emitted
      ensures emitted == old(emitted) + [if end == old(bufferSize) then old(buffer) else Subarray(old(buffer), 0, end)]
      ensures buffer == if end == old(bufferSize) then [] else Subarray(old(buffer), end, |old(buffer)|)
      ensures Flatten(emitted) + buffer == Flatten(old(emitted)) + old(buffer)
      ensures bufferSize == |buffer|
    {
      var data;
      if end == bufferSize {
        data := buffer;
        buffer := [];
        bufferSize := 0;
      } else {
        data := Subarray(buffer, 0, end);
        buffer := Subarray(buffer, end, |buffer|);
        SplitConserves(old(buffer), end);
      }
      bufferSize := |buffer|;
      // `if (data)` holds for every typed array, the empty one included.
      emitted := emitted + [data];
      assert Flatten(emitted) == Flatten(old(emitted)) + data;
    }

    /** The concatenation step of `onReadUpdate`: `value` joins the buffer and the bytes received. */
    method Receive(value: seq<Byte>)
      modifies this`buffer, this`received
      ensures buffer == old(buffer) + value && received == old(received) + [value]
      ensures Flatten(received) == Flatten(old(received)) + value
    {
      buffer := ConcatData(buffer, value);
      received := received + [value];
      assert Flatten(received) == Flatten(old(received)) + value;
    }

    /**
     * The not-done branch of `onReadUpdate` for a non-empty `value`: the
     * value is appended to the buffer and, once the init segment is
     * appended, the prefix up to the last complete `moov` or `mdat` is
     * handed on. `fuel` bounds the scan.
     */
    method ReadChunk(value: seq<Byte>, initSegmentAppended: bool, ghost fuel: nat)
      requires offset == 0 && |value| > 0
      requires 8 < |buffer| + |value| ==> Halts(buffer + value, 0, fuel)
      modifies this`buffer, this`bufferSize, this`emitted, this`received, this`offset
      ensures offset == 0 && received == old(received) + [value]
      ensures old(Conserved()) ==> Conserved()
      ensures !initSegmentAppended ==> buffer == old(buffer) + value && emitted == old(emitted) && bufferSize == old(bufferSize)
      ensures initSegmentAppended ==>
                var all := old(buffer) + value;
                var r := if 8 < |all| then ScanFrom([MOOV, MDAT], all, 0, 0, None, fuel) else NotFound(None);
                var end := if r.Found? then r.offset + r.size else 0;
                && (r.Found? ==>
                      && emitted == old(emitted) + [if end == old(bufferSize) then all else Subarray(all, 0, end)]
                      && buffer == (if end == old(bufferSize) then [] else Subarray(all, end, |all|))
                      && bufferSize == |buffer|)
                && (r.NotFound? ==> buffer == all && emitted == old(emitted) && bufferSize == old(bufferSize))
    {
      ghost var all := buffer + value;
      Receive(value);
      var boxesInfo := FindLastBoxCompleted([MOOV, MDAT], buffer, offset, fuel);
      ghost var r := if 8 < |all| then ScanFrom([MOOV, MDAT], all, 0, 0, None, fuel) else NotFound(None);
      assert boxesInfo == r;
      if boxesInfo.Found? && initSegmentAppended {
        var end := boxesInfo.offset + boxesInfo.size;
        SplitAt(end);
        offset := 0;
        assert emitted == old(emitted) + [if end == old(bufferSize) then all else Subarray(all, 0, end)];
        assert buffer == (if end == old(bufferSize) then [] else Subarray(all, end, |all|));
      }
    }

    /**
     * `onReadUpdate` with the stream's `done` flag and `value`. When done,
     * a non-empty buffer is handed on (and kept) if the init segment was
     * appended, and completion is reported. Otherwise a non-empty value is
     * taken in by `ReadChunk`, and anything else is ignored.
     */
    method OnReadUpdate(done: bool, value: Option<seq<Byte>>, initSegmentAppended: bool, ghost fuel: nat)
      requires offset == 0
      requires !done && value.Some? && 8 < |buffer| + |value.value| ==> Halts(buffer + value.value, 0, fuel)
      modifies this
      ensures offset == 0
      ensures done ==>
                && buffer == old(buffer) && bufferSize == old(bufferSize) && received == old(received)
                && completions == old(completions) + 1
                && emitted == old(emitted) + (if |buffer| > 0 && initSegmentAppended then [buffer] else [])
      ensures !done && (value.None? || |value.value| == 0) ==>
                && buffer == old(buffer) && bufferSize == old(bufferSize)
                && emitted == old(emitted) && received == old(received) && completions == old(completions)
      ensures !done && value.Some? && |value.value| > 0 ==>
                && received == old(received) + [value.value] && completions == old(completions)
                && (old(Conserved()) ==> Conserved())
                && (!initSegmentAppended ==>
                      buffer == old(buffer) + value.value && emitted == old(emitted) && bufferSize == old(bufferSize))
                && (initSegmentAppended ==>
                      var all := old(buffer) + value.value;
                      var r := if 8 < |all| then ScanFrom([MOOV, MDAT], all, 0, 0, None, fuel) else NotFound(None);
                      var end := if r.Found? then r.offset + r.size else 0;
                      && (r.Found? ==>
                            && emitted == old(emitted) + [if end == old(bufferSize) then all else Subarray(all, 0, end)]
                            && buffer == (if end == old(bufferSize) then [] else Subarray(all, end, |all|))
                            && bufferSize == |buffer|)
                      && (r.NotFound? ==> buffer == all && emitted == old(emitted) && bufferSize == old(bufferSize)))
    {
      if done {
        if |buffer| > 0 && initSegmentAppended {
          emitted := emitted + [buffer];
        }
        completions := completions + 1;
      } else if value.Some? && |value.value| > 0 {
        ReadChunk(value.value, initSegmentAppended, fuel);
      }
    }

    /**
     * When the stream ends after the init segment was appended, the buffer
     * handed on completes what was handed on before: every byte delivered
     * has been handed on, once and in order.
     */
    lemma DoneHandsOnEverything()
      requires Conserved()
      ensures Flatten(emitted + [buffer]) == Flatten(received)
    {
      assert (emitted + [buffer])[..|emitted|] == emitted;
    }
  }
}
