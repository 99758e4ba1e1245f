/** The box scanner of the reader (main.go:77-139): an ISO-BMFF box starts with
    an 8-byte header, a big-endian 32-bit size that counts the header itself,
    followed by a 4-character type tag.  The file is an immutable byte sequence;
    every read is a slice of it. */
module Boxes {
  import opened Bytes
  import opened Optional

  const BoxHeaderSize: nat := 8

  /** Box of main.go:127-131, without the back pointer to the reader: the file
      it lives in is passed to every operation instead. */
  datatype Box = Box(name: string, size: U32, start: nat)

  /** ReadBytesAt: an io.ReaderAt read of n bytes at offset.  A read that would
      run past the end of the file fails, and the Go function then returns a nil
      slice, here the empty sequence. */
  function ReadBytesAt(file: seq<Byte>, n: nat, offset: nat): (word: seq<Byte>)
    ensures offset + n <= |file| ==> word == file[offset..offset + n]
    ensures offset + n > |file| ==> word == []
  {
    if offset + n <= |file| then file[offset..offset + n] else []
  }

  /** ReadBoxAt: the size and tag of the header at offset.  Go reads the
      header with ReadBytesAt and slices the buffer with buf[0:4], which panics
      when the read failed, so the header must lie inside the file; the read
      is then the slice of the file at offset. */
  function ReadBoxAt(file: seq<Byte>, offset: nat): (h: (U32, string))
    requires offset + BoxHeaderSize <= |file|
    ensures |h.1| == 4
  {
    var buf := file[offset..offset + BoxHeaderSize];
    (BE32(buf[0..4]), Chars(buf[4..8]))
  }

  /** The on-disk form of a header. */
  function EncodeHeader(size: U32, tag: string): (bytes: seq<Byte>)
    requires |tag| == 4
    ensures |bytes| == BoxHeaderSize
  {
    U32Bytes(size) + Octets(tag)
  }

  /** Decoding an encoded header gives back its size and tag. */
  lemma ReadBoxAtEncoded(file: seq<Byte>, offset: nat, size: U32, tag: string)
    requires |tag| == 4 && Latin1(tag)
    requires offset + BoxHeaderSize <= |file|
    requires file[offset..offset + BoxHeaderSize] == EncodeHeader(size, tag)
    ensures ReadBoxAt(file, offset) == (size, tag)
  {
    var buf := file[offset..offset + BoxHeaderSize];
    assert buf[0..4] == U32Bytes(size);
    assert buf[4..8] == Octets(tag);
    BE32RoundTrip(size);
    CharsOfOctets(tag);
  }

  /** Conversely a header loses nothing: re-encoding what was decoded gives the
      eight bytes that were read. */
  lemma EncodeReadBoxAt(file: seq<Byte>, offset: nat)
    requires offset + BoxHeaderSize <= |file|
    ensures EncodeHeader(ReadBoxAt(file, offset).0, ReadBoxAt(file, offset).1)
            == file[offset..offset + BoxHeaderSize]
  {
    var buf := file[offset..offset + BoxHeaderSize];
    U32BytesOfBE32(buf[0..4]);
    OctetsOfChars(buf[4..8]);
    assert buf == buf[0..4] + buf[4..8];
  }

  // ---- Scanning sibling boxes -------------------------------------------

  /** The header of b is stored at b.start and decodes to b's size and name. */
  predicate HeaderAt(file: seq<Byte>, b: Box)
  {
    b.start + BoxHeaderSize <= |file| && ReadBoxAt(file, b.start) == (b.size, b.name)
  }

  /** The condition under which the loop of readBoxes (main.go:95-110), started
      at offset with limit end, neither panics nor runs forever: every header it
      reaches lies inside the file and declares a nonzero size.  A size of zero
      leaves offset where it is, and the Go loop then never ends. */
  predicate Scannable(file: seq<Byte>, offset: nat, end: int)
    decreases end - offset
  {
    offset >= end ||
    (offset + BoxHeaderSize <= |file| && ReadBoxAt(file, offset).0 > 0 &&
     Scannable(file, offset + ReadBoxAt(file, offset).0, end))
  }

  /** The boxes readBoxes collects between offset and end. */
  function Scan(file: seq<Byte>, offset: nat, end: int): (boxes: seq<Box>)
    requires Scannable(file, offset, end)
    decreases end - offset
  {
    if offset >= end then []
    else
      var h := ReadBoxAt(file, offset);
      [Box(h.1, h.0, offset)] + Scan(file, offset + h.0, end)
  }

  /** One step of the scan: the box at offset, then the scan from its end. */
  lemma ScanStep(file: seq<Byte>, offset: nat, end: int)
    requires Scannable(file, offset, end) && offset < end
    ensures offset + BoxHeaderSize <= |file| && ReadBoxAt(file, offset).0 > 0
    ensures Scannable(file, offset + ReadBoxAt(file, offset).0, end)
    ensures Scan(file, offset, end) ==
            [Box(ReadBoxAt(file, offset).1, ReadBoxAt(file, offset).0, offset)] +
            Scan(file, offset + ReadBoxAt(file, offset).0, end)
  {
  }

  /** The loop step of readBoxes: appending the box at offset to the boxes
      found so far and moving past it keeps what is still to be scanned. */
  lemma ScanNext(file: seq<Byte>, offset: nat, end: int, found: seq<Box>, whole: seq<Box>)
    requires Scannable(file, offset, end) && offset < end
    requires found + Scan(file, offset, end) == whole
    ensures var h := ReadBoxAt(file, offset);
            h.0 > 0 && Scannable(file, offset + h.0, end) &&
            (found + [Box(h.1, h.0, offset)]) + Scan(file, offset + h.0, end) == whole
  {
    ScanStep(file, offset, end);
    var h := ReadBoxAt(file, offset);
    var rest := Scan(file, offset + h.0, end);
    assert found + ([Box(h.1, h.0, offset)] + rest) == (found + [Box(h.1, h.0, offset)]) + rest;
  }

  /** readBoxes(m, start, n): walks sibling boxes from start while the offset is
      below start + n, advancing by each declared size. */
  method ReadBoxes(file: seq<Byte>, start: nat, n: int) returns (l: seq<Box>)
    requires Scannable(file, start, start + n)
    ensures l == Scan(file, start, start + n)
  {
    ghost var whole := Scan(file, start, start + n);
    l := [];
    var offset := start;
    while offset < start + n
      invariant start <= offset
      invariant Scannable(file, offset, start + n)
      invariant l + Scan(file, offset, start + n) == whole
      decreases start + n - offset
    {
      ScanNext(file, offset, start + n, l, whole);
      var (size, name) := ReadBoxAt(file, offset);
      var b := Box(name, size, offset);
      l := l + [b];
      offset := offset + size;
    }
  }

  /** A sequence of boxes that tiles [offset, end): it starts at offset, each
      box starts where the previous one ends, every header lies in the file
      and declares a nonzero size, every box starts inside the range, and the
      last one reaches (or overshoots) end. */
  ghost predicate Chain(file: seq<Byte>, bs: seq<Box>, offset: nat, end: int)
  {
    && (bs == [] <==> offset >= end)
    && (bs != [] ==> bs[0].start == offset && bs[|bs| - 1].start + bs[|bs| - 1].size >= end)
    && (forall k :: 0 <= k < |bs| ==>
          HeaderAt(file, bs[k]) && bs[k].size > 0 && offset <= bs[k].start < end)
    && (forall j, k :: 0 <= j < k < |bs| && k == j + 1 ==> bs[k].start == bs[j].start + bs[j].size)
  }

  /** What readBoxes returns is such a tiling. */
  lemma {:induction false} ScanIsChain(file: seq<Byte>, offset: nat, end: int)
    requires Scannable(file, offset, end)
    ensures Chain(file, Scan(file, offset, end), offset, end)
    decreases end - offset
  {
    if offset < end {
      ScanStep(file, offset, end);
      var h := ReadBoxAt(file, offset);
      ScanIsChain(file, offset + h.0, end);
      ChainCons(file, Box(h.1, h.0, offset), Scan(file, offset + h.0, end), offset, end);
    }
  }

  /** A box whose header sits at offset, in front of a tiling of the rest of
      the range, gives a tiling of the whole range. */
  lemma ChainCons(file: seq<Byte>, b: Box, rest: seq<Box>, offset: nat, end: int)
    requires offset < end && b.start == offset && HeaderAt(file, b) && b.size > 0
    requires Chain(file, rest, offset + b.size, end)
    ensures Chain(file, [b] + rest, offset, end)
  {
    var bs := [b] + rest;
    forall k | 0 <= k < |bs|
      ensures HeaderAt(file, bs[k]) && bs[k].size > 0 && offset <= bs[k].start < end
    {
      if k > 0 { assert bs[k] == rest[k - 1]; }
    }
    forall j, k | 0 <= j < k < |bs| && k == j + 1
      ensures bs[k].start == bs[j].start + bs[j].size
    {
      if j > 0 { assert bs[j] == rest[j - 1] && bs[k] == rest[k - 1]; }
    }
  }

  /** In a tiling the starts never decrease. */
  lemma {:induction false} ChainStartsGrow(file: seq<Byte>, bs: seq<Box>, offset: nat, end: int, j: nat, k: nat)
    requires Chain(file, bs, offset, end)
    requires j <= k < |bs|
    ensures bs[j].start + (if j < k then bs[j].size else 0) <= bs[k].start
    decreases k - j
  {
    if j < k {
      ChainStartsGrow(file, bs, offset, end, j + 1, k);
      assert bs[j + 1].start == bs[j].start + bs[j].size;
    }
  }

  /** A box whose header sits at offset, followed by a scannable rest, is
      the first box of the scan. */
  lemma ScanCons(file: seq<Byte>, b: Box, offset: nat, end: int)
    requires offset < end && b.start == offset && HeaderAt(file, b) && b.size > 0
    requires Scannable(file, offset + b.size, end)
    ensures Scannable(file, offset, end)
    ensures Scan(file, offset, end) == [b] + Scan(file, offset + b.size, end)
  {
    ScanStep(file, offset, end);
  }

  /** Dropping the first box of a tiling leaves a tiling of the rest. */
  lemma ChainTail(file: seq<Byte>, bs: seq<Box>, offset: nat, end: int)
    requires Chain(file, bs, offset, end) && bs != []
    ensures Chain(file, bs[1..], offset + bs[0].size, end)
  {
    ChainTailBoxes(file, bs, offset, end);
    ChainTailLinks(file, bs, offset, end);
    if |bs| > 1 {
      assert bs[1..][0].start == bs[1].start == offset + bs[0].size;
    }
  }

  lemma ChainTailBoxes(file: seq<Byte>, bs: seq<Box>, offset: nat, end: int)
    requires Chain(file, bs, offset, end) && bs != []
    ensures forall k :: 1 <= k < |bs| ==>
              HeaderAt(file, bs[k]) && bs[k].size > 0 && offset + bs[0].size <= bs[k].start < end
  {
    forall k | 1 <= k < |bs|
      ensures offset + bs[0].size <= bs[k].start
    {
      ChainStartsGrow(file, bs, offset, end, 0, k);
    }
  }

  lemma ChainTailLinks(file: seq<Byte>, bs: seq<Box>, offset: nat, end: int)
    requires Chain(file, bs, offset, end) && bs != []
    ensures forall j, k :: 0 <= j < k < |bs[1..]| && k == j + 1 ==>
              bs[1..][k].start == bs[1..][j].start + bs[1..][j].size
  {
    var rest := bs[1..];
    forall j, k | 0 <= j < k < |rest| && k == j + 1
      ensures rest[k].start == rest[j].start + rest[j].size
    {
      assert rest[j] == bs[j + 1] && rest[k] == bs[k + 1];
    }
  }

  /** A tiling is exactly what readBoxes returns: the scan is the only one. */
  lemma {:induction false} ChainIsScan(file: seq<Byte>, bs: seq<Box>, offset: nat, end: int)
    requires Chain(file, bs, offset, end)
    ensures Scannable(file, offset, end) && Scan(file, offset, end) == bs
    decreases |bs|
  {
    if bs == [] {
      assert offset >= end;
    } else {
      var b, rest := bs[0], bs[1..];
      assert offset < end && b.start == offset && HeaderAt(file, b) && b.size > 0;
      ChainTail(file, bs, offset, end);
      ChainIsScan(file, rest, offset + b.size, end);
      assert Scannable(file, offset + b.size, end);
      ScanCons(file, b, offset, end);
      assert bs == [b] + rest;
    }
  }

  /** The box data: empty for a box no larger than its header, otherwise the
      size - 8 bytes after the header (Box.ReadBoxData, main.go:134-139).  A
      payload reaching past the end of the file is a failed read, which yields
      nil in Go. */
  function ReadBoxData(file: seq<Byte>, b: Box): (data: seq<Byte>)
    ensures b.size <= BoxHeaderSize ==> data == []
    ensures b.size > BoxHeaderSize && b.start + b.size <= |file| ==>
              data == file[b.start + BoxHeaderSize..b.start + b.size]
    ensures b.start + b.size > |file| ==> data == []
  {
    if b.size <= BoxHeaderSize then []
    else ReadBytesAt(file, b.size - BoxHeaderSize, b.start + BoxHeaderSize)
  }

  /** The children of a container box: the container parsers call
      readBoxes(b.Reader, b.Start+8, b.Size-8), i.e. they scan the range
      [Start + 8, Start + Size). */
  function Children(file: seq<Byte>, b: Box): (kids: seq<Box>)
    requires Scannable(file, b.start + BoxHeaderSize, b.start + b.size)
    ensures forall c :: c in kids ==> b.start + BoxHeaderSize <= c.start < b.start + b.size
    ensures forall c :: c in kids ==> HeaderAt(file, c) && c.size > 0
  {
    ScanIsChain(file, b.start + BoxHeaderSize, b.start + b.size);
    Scan(file, b.start + BoxHeaderSize, b.start + b.size)
  }

  // ---- The last box with a given tag --------------------------------------

  /** The last box of bs whose name is tag: the container parsers assign a
      pointer field each time such a child is met, so the last one wins. */
  function LastWith(bs: seq<Box>, tag: string): (r: Option<Box>)
    ensures r.Some? ==> r.value in bs && r.value.name == tag
    ensures r.None? <==> forall b :: b in bs ==> b.name != tag
  {
    if bs == [] then None
    else if bs[|bs| - 1].name == tag then Some(bs[|bs| - 1])
    else
      var r := LastWith(bs[..|bs| - 1], tag);
      assert forall b :: b in bs ==> b in bs[..|bs| - 1] || b == bs[|bs| - 1];
      r
  }

  /** A box with the tag and no later box with the tag is what LastWith finds. */
  lemma {:induction false} LastWithAt(bs: seq<Box>, tag: string, k: nat)
    requires k < |bs| && bs[k].name == tag
    requires forall j :: k < j < |bs| ==> bs[j].name != tag
    ensures LastWith(bs, tag) == Some(bs[k])
    decreases |bs|
  {
    if k < |bs| - 1 {
      var front := bs[..|bs| - 1];
      assert front[k] == bs[k];
      LastWithAt(front, tag, k);
    }
  }

  /** LastWith finds a box with the tag after which no box has the tag; k is
      its position. */
  lemma {:induction false} LastWithIsLast(bs: seq<Box>, tag: string) returns (k: nat)
    requires LastWith(bs, tag).Some?
    ensures k < |bs| && bs[k] == LastWith(bs, tag).value
    ensures forall j :: k < j < |bs| ==> bs[j].name != tag
    decreases |bs|
  {
    var last := |bs| - 1;
    if bs[last].name == tag {
      k := last;
    } else {
      var front := bs[..last];
      assert LastWith(bs, tag) == LastWith(front, tag);
      k := LastWithIsLast(front, tag);
      assert bs[k] == front[k];
      forall j | k < j < |bs| ensures bs[j].name != tag {
        if j < last { assert bs[j] == front[j]; }
      }
    }
  }

  /** One more child: a box with the tag replaces the previous winner, any
      other box leaves it as it was. */
  lemma LastWithSnoc(bs: seq<Box>, b: Box, tag: string)
    ensures LastWith(bs + [b], tag) == if b.name == tag then Some(b) else LastWith(bs, tag)
  {
    assert (bs + [b])[..|bs|] == bs;
  }

  /** LastWithSnoc at position i of a scan: the i-th child, read in order. */
  lemma LastWithStep(bs: seq<Box>, i: nat, tag: string)
    requires i < |bs|
    ensures LastWith(bs[..i + 1], tag) == if bs[i].name == tag then Some(bs[i]) else LastWith(bs[..i], tag)
  {
    assert bs[..i + 1] == bs[..i] + [bs[i]];
    LastWithSnoc(bs[..i], bs[i], tag);
  }

  // ---- Writing boxes out, for the scanner's round trip -----------------------

  /** A box to be written: a tag and the data that follows the header. */
  datatype Item = Item(tag: string, payload: seq<Byte>)

  predicate WellFormedItem(it: Item)
  {
    |it.tag| == 4 && Latin1(it.tag) && BoxHeaderSize + |it.payload| < 0x1_0000_0000
  }

  predicate WellFormedItems(items: seq<Item>)
  {
    forall i :: 0 <= i < |items| ==> WellFormedItem(items[i])
  }

  function EncodeBox(it: Item): (bytes: seq<Byte>)
    requires WellFormedItem(it)
    ensures |bytes| == BoxHeaderSize + |it.payload|
  {
    EncodeHeader(BoxHeaderSize + |it.payload|, it.tag) + it.payload
  }

  /** Sibling boxes written one after the other. */
  function Serialize(items: seq<Item>): (bytes: seq<Byte>)
    requires WellFormedItems(items)
  {
    if items == [] then [] else EncodeBox(items[0]) + Serialize(items[1..])
  }

  /** The boxes a reader should find in Serialize(items) written at offset. */
  function Layout(items: seq<Item>, offset: nat): (boxes: seq<Box>)
    requires WellFormedItems(items)
    ensures |boxes| == |items|
  {
    if items == [] then []
    else
      [Box(items[0].tag, BoxHeaderSize + |items[0].payload|, offset)] +
      Layout(items[1..], offset + BoxHeaderSize + |items[0].payload|)
  }

  /** The first box written, as header, payload and the remaining boxes. */
  lemma SerializeCons(items: seq<Item>)
    requires WellFormedItems(items) && items != []
    ensures WellFormedItems(items[1..])
    ensures Serialize(items) ==
            EncodeHeader(BoxHeaderSize + |items[0].payload|, items[0].tag) +
            items[0].payload + Serialize(items[1..])
  {
    forall i | 0 <= i < |items[1..]| ensures WellFormedItem(items[1..][i]) {
      assert items[1..][i] == items[i + 1];
    }
  }

  /** The box header at offset of a written box, and its payload. */
  lemma EncodedBoxAt(file: seq<Byte>, it: Item, offset: nat)
    requires WellFormedItem(it)
    requires offset + |EncodeBox(it)| <= |file|
    requires file[offset..offset + |EncodeBox(it)|] == EncodeBox(it)
    ensures HeaderAt(file, Box(it.tag, BoxHeaderSize + |it.payload|, offset))
    ensures ReadBoxData(file, Box(it.tag, BoxHeaderSize + |it.payload|, offset)) == it.payload
  {
    var size := BoxHeaderSize + |it.payload|;
    var bytes := EncodeBox(it);
    assert file[offset..offset + BoxHeaderSize] == bytes[..BoxHeaderSize];
    ReadBoxAtEncoded(file, offset, size, it.tag);
    if |it.payload| > 0 {
      assert file[offset + BoxHeaderSize..offset + size] == bytes[BoxHeaderSize..size];
    }
  }

  /** A range holding serialized boxes holds the first box, then the rest. */
  lemma SerializedSplit(file: seq<Byte>, items: seq<Item>, offset: nat, end: int)
    requires WellFormedItems(items) && items != []
    requires end == offset + |Serialize(items)| <= |file|
    requires file[offset..end] == Serialize(items)
    ensures WellFormedItems(items[1..])
    ensures offset + |EncodeBox(items[0])| + |Serialize(items[1..])| == end
    ensures file[offset..offset + |EncodeBox(items[0])|] == EncodeBox(items[0])
    ensures file[offset + |EncodeBox(items[0])|..end] == Serialize(items[1..])
  {
    SerializeCons(items);
    var size := |EncodeBox(items[0])|;
    var bytes := Serialize(items);
    assert bytes == EncodeBox(items[0]) + Serialize(items[1..]);
    assert file[offset..offset + size] == bytes[..size];
    assert file[offset + size..end] == bytes[size..];
  }

  /** Scanning a range that holds serialized boxes finds exactly those boxes. */
  lemma {:induction false} ScanSerialized(file: seq<Byte>, items: seq<Item>, offset: nat, end: int)
    requires WellFormedItems(items)
    requires end == offset + |Serialize(items)| <= |file|
    requires file[offset..end] == Serialize(items)
    ensures Scannable(file, offset, end)
    ensures Scan(file, offset, end) == Layout(items, offset)
    decreases |items|
  {
    if items != [] {
      var it := items[0];
      var next := offset + BoxHeaderSize + |it.payload|;
      SerializedSplit(file, items, offset, end);
      EncodedBoxAt(file, it, offset);
      ScanSerialized(file, items[1..], next, end);
      ScanCons(file, Box(it.tag, BoxHeaderSize + |it.payload|, offset), offset, end);
    }
  }

  /** The data of the k-th box found in serialized boxes is the k-th payload. */
  lemma {:induction false} DataSerialized(file: seq<Byte>, items: seq<Item>, offset: nat, end: int, k: nat)
    requires WellFormedItems(items) && k < |items|
    requires end == offset + |Serialize(items)| <= |file|
    requires file[offset..end] == Serialize(items)
    ensures ReadBoxData(file, Layout(items, offset)[k]) == items[k].payload
    decreases k
  {
    SerializedSplit(file, items, offset, end);
    var next := offset + BoxHeaderSize + |items[0].payload|;
    if k == 0 {
      EncodedBoxAt(file, items[0], offset);
    } else {
      DataSerialized(file, items[1..], next, end, k - 1);
      assert Layout(items, offset)[k] == Layout(items[1..], next)[k - 1];
      assert items[k] == items[1..][k - 1];
    }
  }
}
