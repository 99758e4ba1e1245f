/** The box objects of main.go.  Every Go struct that embeds *Box is a class
    with the box as a constant and the struct's fields as mutable fields;
    its parse method assigns them.  The file's bytes, which Go reads through
    Mp4Reader.Reader, are passed to each Parse.  A leaf box's Value() is its
    fields as a Decoders value; a container's Value() is the subtree of
    values below it, read through Objects(), the set of objects it owns.  Each
    Parse is proved to leave Value() equal to what the Tree functions say,
    starting from whatever the fields held before. */
module Objects {
  import opened Bytes
  import opened Optional
  import opened Boxes
  import opened Decoders
  import opened Tree

  /** The loop the full-box parsers use to copy the three flag bytes. */
  method CopyFlags(data: seq<Byte>) returns (flags: seq<Byte>)
    requires |data| >= 4
    ensures flags == FlagsOf(data)
  {
    flags := [0, 0, 0];
    for i := 0 to 3
      invariant |flags| == 3
      invariant forall j :: 0 <= j < i ==> flags[j] == data[j + 1]
    {
      flags := flags[i := data[i + 1]];
    }
  }

  /** The empty entry loops of the stsz, stsc and stco parsers: a uint32
      counter starts at 1 and is incremented, wrapping at 2^32, while it is
      at most count.  It makes count iterations when it ends. */
  method SkipEntries(count: U32) returns (iterations: nat)
    requires EntryLoopEnds(count)
    ensures iterations == count
  {
    var i: U32 := 1;
    iterations := 0;
    while i <= count
      invariant 1 <= i <= count + 1
      invariant iterations == i - 1
      decreases count - i
    {
      i := (i + 1) % 0x1_0000_0000;
      iterations := iterations + 1;
    }
  }

  // ---- Leaf boxes ------------------------------------------------------------

  /** FtypBox (main.go:146-163). */
  class FtypBox {
    const box: Box
    var majorBrand: string
    var minorVersion: U32
    var compatibleBrands: seq<string>

    constructor (box: Box)
      ensures this.box == box && Value() == FileType([], 0, [])
    {
      this.box := box;
      majorBrand, minorVersion, compatibleBrands := [], 0, [];
    }

    function Value(): FileType
      reads this
    {
      FileType(majorBrand, minorVersion, compatibleBrands)
    }

    /** The brands are appended to those already held: a fresh box ends with
        exactly the decoded ones. */
    method Parse(file: seq<Byte>)
      requires FtypLayout(ReadBoxData(file, box))
      modifies this
      ensures var f := DecodeFtyp(ReadBoxData(file, box));
              Value() == f.(compatibleBrands := old(compatibleBrands) + f.compatibleBrands)
    {
      var data := ReadBoxData(file, box);
      majorBrand := Chars(data[0..4]);
      minorVersion := BE32(data[4..8]);
      if |data| > 8 {
        var i := 8;
        while i < |data|
          invariant 8 <= i <= |data| && (i - 8) % 4 == 0
          invariant majorBrand == Chars(data[0..4]) && minorVersion == BE32(data[4..8])
          invariant compatibleBrands == old(compatibleBrands) + Brands(data[8..i])
        {
          assert data[8..i + 4] == data[8..i] + data[i..i + 4];
          BrandsAppend(data[8..i], data[i..i + 4]);
          compatibleBrands := compatibleBrands + [Chars(data[i..i + 4])];
          i := i + 4;
        }
        assert data[8..i] == data[8..];
      } else {
        assert data[8..] == [];
      }
    }
  }

  /** MovieHeaderBox (main.go:207-232). */
  class MovieHeaderBox {
    const box: Box
    var version: Byte
    var flags: U32
    var creationTime: U32
    var modificationTime: U32
    var timescale: U32
    var duration: U32
    var rate: U32
    var volume: U16

    constructor (box: Box)
      ensures this.box == box && Value() == MovieHeader(0, 0, 0, 0, 0, 0, 0, 0)
    {
      this.box := box;
      version, flags, creationTime, modificationTime := 0, 0, 0, 0;
      timescale, duration, rate, volume := 0, 0, 0, 0;
    }

    function Value(): MovieHeader
      reads this
    {
      MovieHeader(version, flags, creationTime, modificationTime, timescale, duration, rate, volume)
    }

    /** Flags and the two times are not assigned and keep what they held. */
    method Parse(file: seq<Byte>)
      requires |ReadBoxData(file, box)| >= 26
      modifies this
      ensures Value() == DecodeMvhd(ReadBoxData(file, box)).(
                flags := old(flags), creationTime := old(creationTime),
                modificationTime := old(modificationTime))
    {
      var data := ReadBoxData(file, box);
      version := data[0];
      timescale := BE32(data[12..16]);
      duration := BE32(data[16..20]);
      rate := Fixed32(data[20..24]);
      volume := Fixed16(data[24..26]);
    }
  }

  /** TrackHeaderBox (main.go:262-301). */
  class TrackHeaderBox {
    const box: Box
    var version: Byte
    var flags: seq<Byte>
    var creationTime: U32
    var modificationTime: U32
    var trackId: U32
    var reserved: U32
    var duration: U32
    var layer: U16
    var alternateGroup: U16
    var volume: U16
    var width: U16
    var height: U16

    constructor (box: Box)
      ensures this.box == box && Value() == TrackHeader(0, [0, 0, 0], 0, 0, 0, 0, 0, 0, 0, 0, 0, 0)
    {
      this.box := box;
      version, flags := 0, [0, 0, 0];
      creationTime, modificationTime, trackId, reserved, duration := 0, 0, 0, 0, 0;
      layer, alternateGroup, volume, width, height := 0, 0, 0, 0, 0;
    }

    function Value(): TrackHeader
      reads this
    {
      TrackHeader(version, flags, creationTime, modificationTime, trackId, reserved, duration,
                  layer, alternateGroup, volume, width, height)
    }

    method Parse(file: seq<Byte>)
      requires |ReadBoxData(file, box)| >= 84
      modifies this
      ensures Value() == DecodeTkhd(ReadBoxData(file, box))
    {
      var data := ReadBoxData(file, box);
      var fl := CopyFlags(data);
      version, flags := data[0], fl;
      creationTime, modificationTime := BE32(data[4..8]), BE32(data[8..12]);
      trackId, reserved, duration := BE32(data[12..16]), BE32(data[16..20]), BE32(data[20..24]);
      layer, alternateGroup := BE16(data[32..34]), BE16(data[34..36]);
      volume, width, height := Fixed16(data[36..38]), Fixed16(data[76..80]), Fixed16(data[80..84]);
      assert Value() == DecodeTkhd(data);
    }
  }

  /** MediaHeaderBox (main.go:342-369). */
  class MediaHeaderBox {
    const box: Box
    var version: Byte
    var flags: seq<Byte>
    var creationTime: U32
    var modificationTime: U32
    var timescale: U32
    var duration: U32
    var language: seq<Byte>
    var preDefined: U16

    constructor (box: Box)
      ensures this.box == box && Value() == MediaHeader(0, [0, 0, 0], 0, 0, 0, 0, [0, 0, 0], 0)
    {
      this.box := box;
      version, flags, language := 0, [0, 0, 0], [0, 0, 0];
      creationTime, modificationTime, timescale, duration, preDefined := 0, 0, 0, 0, 0;
    }

    function Value(): MediaHeader
      reads this
    {
      MediaHeader(version, flags, creationTime, modificationTime, timescale, duration, language, preDefined)
    }

    /** Language is not assigned and keeps what it held. */
    method Parse(file: seq<Byte>)
      requires |ReadBoxData(file, box)| >= 21
      modifies this
      ensures Value() == DecodeMdhd(ReadBoxData(file, box)).(language := old(language))
    {
      var data := ReadBoxData(file, box);
      version := data[0];
      flags := CopyFlags(data);
      creationTime := BE32(data[4..8]);
      modificationTime := BE32(data[8..12]);
      timescale := BE32(data[8..12]);
      duration := BE32(data[12..16]);
      preDefined := BE16(data[19..21]);
    }
  }

  /** HandlerBox (main.go:376-400). */
  class HandlerBox {
    const box: Box
    var version: Byte
    var flags: seq<Byte>
    var preDefined: U32
    var handlerType: U32
    var reserved: seq<U32>
    var typeName: string

    constructor (box: Box)
      ensures this.box == box && Value() == Handler(0, [0, 0, 0], 0, 0, [0, 0, 0], [])
    {
      this.box := box;
      version, flags, preDefined, handlerType := 0, [0, 0, 0], 0, 0;
      reserved, typeName := [0, 0, 0], [];
    }

    function Value(): Handler
      reads this
    {
      Handler(version, flags, preDefined, handlerType, reserved, typeName)
    }

    /** Reserved is not assigned and keeps what it held. */
    method Parse(file: seq<Byte>)
      requires |ReadBoxData(file, box)| >= 12
      modifies this
      ensures Value() == DecodeHdlr(ReadBoxData(file, box)).(reserved := old(reserved))
    {
      var data := ReadBoxData(file, box);
      version := data[0];
      flags := CopyFlags(data);
      preDefined := BE32(data[4..8]);
      handlerType := BE32(data[8..12]);
      typeName := Chars(data[8..12]);
    }
  }

  /** VideoMediaHeaderBox (main.go:440-452): its parse method reads nothing,
      so the model keeps only its box. */
  class VideoMediaHeaderBox {
    const box: Box

    constructor (box: Box)
      ensures this.box == box
    {
      this.box := box;
    }
  }

  /** SoundMediaHeaderBox (main.go:454-466): as the video media header. */
  class SoundMediaHeaderBox {
    const box: Box

    constructor (box: Box)
      ensures this.box == box
    {
      this.box := box;
    }
  }

  /** HintMediaHeaderBox (main.go:468-478): as the video media header. */
  class HintMediaHeaderBox {
    const box: Box

    constructor (box: Box)
      ensures this.box == box
    {
      this.box := box;
    }
  }

  /** SampleSizeBox (main.go:515-546). */
  class SampleSizeBox {
    const box: Box
    var version: Byte
    var flags: seq<Byte>
    var sampleSize: U32
    var sampleCount: U32

    constructor (box: Box)
      ensures this.box == box && Value() == SampleSize(0, [0, 0, 0], 0, 0)
    {
      this.box := box;
      version, flags, sampleSize, sampleCount := 0, [0, 0, 0], 0, 0;
    }

    function Value(): SampleSize
      reads this
    {
      SampleSize(version, flags, sampleSize, sampleCount)
    }

    method Parse(file: seq<Byte>)
      requires StszOk(file, box)
      modifies this
      ensures Value() == DecodeStsz(ReadBoxData(file, box))
    {
      var data := ReadBoxData(file, box);
      version := data[0];
      flags := CopyFlags(data);
      sampleSize := BE32(data[4..8]);
      sampleCount := BE32(data[8..12]);
      var _ := SkipEntries(sampleCount);
    }
  }

  /** SampleToChunkBox (main.go:548-574). */
  class SampleToChunkBox {
    const box: Box
    var version: Byte
    var flags: seq<Byte>
    var entryCount: U32

    constructor (box: Box)
      ensures this.box == box && Value() == SampleToChunk(0, [0, 0, 0], 0)
    {
      this.box := box;
      version, flags, entryCount := 0, [0, 0, 0], 0;
    }

    function Value(): SampleToChunk
      reads this
    {
      SampleToChunk(version, flags, entryCount)
    }

    method Parse(file: seq<Byte>)
      requires StscOk(file, box)
      modifies this
      ensures Value() == DecodeStsc(ReadBoxData(file, box))
    {
      var data := ReadBoxData(file, box);
      version := data[0];
      flags := CopyFlags(data);
      entryCount := BE32(data[4..8]);
      var _ := SkipEntries(entryCount);
    }
  }

  /** ChunkOffsetBox (main.go:576-602). */
  class ChunkOffsetBox {
    const box: Box
    var version: Byte
    var flags: seq<Byte>
    var entryCount: U32

    constructor (box: Box)
      ensures this.box == box && Value() == ChunkOffset(0, [0, 0, 0], 0)
    {
      this.box := box;
      version, flags, entryCount := 0, [0, 0, 0], 0;
    }

    function Value(): ChunkOffset
      reads this
    {
      ChunkOffset(version, flags, entryCount)
    }

    method Parse(file: seq<Byte>)
      requires StcoOk(file, box)
      modifies this
      ensures Value() == DecodeStco(ReadBoxData(file, box))
    {
      var data := ReadBoxData(file, box);
      version := data[0];
      flags := CopyFlags(data);
      entryCount := BE32(data[4..8]);
      var _ := SkipEntries(entryCount);
    }
  }

  /** MediaDataBox (main.go:604-612). */
  class MediaDataBox {
    const box: Box
    var data: seq<Byte>

    constructor (box: Box)
      ensures this.box == box && data == []
    {
      this.box := box;
      data := [];
    }

    method Parse(file: seq<Byte>)
      modifies this
      ensures data == ReadBoxData(file, box)
    {
      data := ReadBoxData(file, box);
    }
  }

  // ---- Containers --------------------------------------------------------------

  /* A container holds a pointer per child kind.  Its Objects() is itself,
     those pointers and, below each child container, that child's
     Objects(); its Value() reads them.  Each container parse is its
     readBoxes call and a loop over the children; the loop body, the switch
     on the child's tag, is ParseChild.  Each case is
     `b.X = &XBox{Box: box}; b.X.parse()`: the pointer is set to a fresh
     box, which is then parsed, so it ends up holding exactly what its
     decoder says, and the case replaces that one field of Value().  That
     is the step the Tree lemmas take from one prefix of the children to
     the next. */

  /** The call every container parser starts with:
      readBoxes(b.Reader, b.Start+BoxHeaderSize, b.Size-BoxHeaderSize). */
  method ReadChildren(file: seq<Byte>, b: Box) returns (boxes: seq<Box>)
    requires Scans(file, b)
    ensures boxes == Children(file, b)
  {
    var start, n := b.start + BoxHeaderSize, b.size - BoxHeaderSize;
    assert start + n == b.start + b.size;
    boxes := ReadBoxes(file, start, n);
  }

  /** SampleTableBox (main.go:484-513). */
  class SampleTableBox {
    const box: Box
    var stsz: SampleSizeBox?
    var stsc: SampleToChunkBox?
    var stco: ChunkOffsetBox?

    function Objects(): set<object?>
      reads this
    {
      {this, stsz, stsc, stco}
    }

    function Value(): SampleTable
      reads Objects()
    {
      SampleTable(
        if stsz == null then None else Some(Parsed(stsz.box, stsz.Value())),
        if stsc == null then None else Some(Parsed(stsc.box, stsc.Value())),
        if stco == null then None else Some(Parsed(stco.box, stco.Value())))
    }

    /** Every object of Objects() exists. */
    lemma Allocated()
      ensures forall o :: o in Objects() && o != null ==> allocated(o)
    {
    }

    /** No box of a kind that contains this one is among its objects. */
    lemma Omits(o: object)
      requires o is MediaInformationBox || o is MediaBox || o is TrackBox || o is MovieBox || o is Mp4Reader
      ensures o !in Objects()
    {
    }

    /** Changing none of the objects leaves the value as it was. */
    twostate lemma Unchanged()
      requires unchanged(old(Objects()) - {null})
      ensures Objects() == old(Objects()) && Value() == old(Value())
    {
    }

    constructor (box: Box)
      ensures this.box == box && Value() == SampleTable(None, None, None)
    {
      this.box := box;
      stsz, stsc, stco := null, null, null;
    }

    method Parse(file: seq<Byte>)
      requires StblOk(file, box)
      modifies this
      ensures Value() == StblOf(file, box).Over(old(Value()))
    {
      Allocated();
      var boxes := ReadChildren(file, box);
      Unchanged();
      for i := 0 to |boxes|
        invariant Value() == StblFrom(file, boxes[..i]).Over(old(Value()))
      {
        StblOverStep(file, boxes, i, old(Value()));
        ParseChild(file, boxes[i]);
      }
      assert boxes[..|boxes|] == boxes;
    }

    method ParseChild(file: seq<Byte>, b: Box)
      requires StblChildOk(file, b)
      modifies this
      ensures Value() == StblApply(old(Value()), file, b)
    {
      if b.name == "stsz" {
        stsz := new SampleSizeBox(b);
        stsz.Parse(file);
      } else if b.name == "stsc" {
        stsc := new SampleToChunkBox(b);
        stsc.Parse(file);
      } else if b.name == "stco" {
        stco := new ChunkOffsetBox(b);
        stco.Parse(file);
      }
    }
  }

  /** MediaInformationBox (main.go:407-437). */
  class MediaInformationBox {
    const box: Box
    var vmhd: VideoMediaHeaderBox?
    var smhd: SoundMediaHeaderBox?
    var hmhd: HintMediaHeaderBox?
    var stbl: SampleTableBox?

    function Objects(): set<object?>
      reads this, if stbl != null then stbl.Objects() else {}
    {
      {this, vmhd, smhd, hmhd, stbl} + (if stbl != null then stbl.Objects() else {})
    }

    function Value(): MediaInformation
      reads Objects()
    {
      MediaInformation(
        if vmhd == null then None else Some(vmhd.box),
        if smhd == null then None else Some(smhd.box),
        if hmhd == null then None else Some(hmhd.box),
        if stbl == null then None else Some(Parsed(stbl.box, stbl.Value())))
    }

    /** Every object of Objects() exists. */
    lemma Allocated()
      ensures forall o :: o in Objects() && o != null ==> allocated(o)
    {
      if stbl != null { stbl.Allocated(); }
    }

    /** No box of a kind that contains this one is among its objects. */
    lemma Omits(o: object)
      requires o is MediaBox || o is TrackBox || o is MovieBox || o is Mp4Reader
      ensures o !in Objects()
    {
      if stbl != null { stbl.Omits(o); }
    }

    /** Changing none of the objects leaves the value as it was. */
    twostate lemma Unchanged()
      requires unchanged(old(Objects()) - {null})
      ensures Objects() == old(Objects()) && Value() == old(Value())
    {
      if stbl != null { stbl.Unchanged(); }
    }

    constructor (box: Box)
      ensures this.box == box && Value() == MediaInformation(None, None, None, None)
    {
      this.box := box;
      vmhd, smhd, hmhd, stbl := null, null, null, null;
    }

    method Parse(file: seq<Byte>)
      requires MinfOk(file, box)
      modifies this
      ensures Value() == MinfOf(file, box).Over(old(Value()))
    {
      Allocated();
      var boxes := ReadChildren(file, box);
      Unchanged();
      for i := 0 to |boxes|
        invariant Value() == MinfFrom(file, boxes[..i]).Over(old(Value()))
      {
        MinfOverStep(file, boxes, i, old(Value()));
        ParseChild(file, boxes[i]);
      }
      assert boxes[..|boxes|] == boxes;
    }

    /** The three media header cases create the box; their parse methods
        do nothing. */
    method ParseChild(file: seq<Byte>, b: Box)
      requires MinfChildOk(file, b)
      modifies this
      ensures Value() == MinfApply(old(Value()), file, b)
    {
      if b.name == "vmhd" || b.name == "smhd" || b.name == "hmhd" {
        ParseMediaHeader(b);
      } else if b.name == "stbl" {
        ParseStbl(file, b);
      }
    }

    method ParseMediaHeader(b: Box)
      requires b.name == "vmhd" || b.name == "smhd" || b.name == "hmhd"
      modifies this
      ensures b.name == "vmhd" ==> Value() == old(Value()).(vmhd := Some(b))
      ensures b.name == "smhd" ==> Value() == old(Value()).(smhd := Some(b))
      ensures b.name == "hmhd" ==> Value() == old(Value()).(hmhd := Some(b))
    {
      if stbl != null { stbl.Allocated(); stbl.Omits(this); }
      if b.name == "vmhd" {
        vmhd := new VideoMediaHeaderBox(b);
      } else if b.name == "smhd" {
        smhd := new SoundMediaHeaderBox(b);
      } else {
        hmhd := new HintMediaHeaderBox(b);
      }
      if stbl != null { stbl.Unchanged(); }
    }

    method ParseStbl(file: seq<Byte>, b: Box)
      requires StblOk(file, b)
      modifies this
      ensures Value() == old(Value()).(stbl := Some(Parsed(b, StblOf(file, b))))
    {
      stbl := new SampleTableBox(b);
      stbl.Parse(file);
    }
  }

  /** MediaBox (main.go:308-335). */
  class MediaBox {
    const box: Box
    var mdhd: MediaHeaderBox?
    var hdlr: HandlerBox?
    var minf: MediaInformationBox?

    function Objects(): set<object?>
      reads this, if minf != null then minf.Objects() else {}
    {
      {this, mdhd, hdlr, minf} + (if minf != null then minf.Objects() else {})
    }

    function Value(): Media
      reads Objects()
    {
      Media(
        if mdhd == null then None else Some(Parsed(mdhd.box, mdhd.Value())),
        if hdlr == null then None else Some(Parsed(hdlr.box, hdlr.Value())),
        if minf == null then None else Some(Parsed(minf.box, minf.Value())))
    }

    /** Every object of Objects() exists. */
    lemma Allocated()
      ensures forall o :: o in Objects() && o != null ==> allocated(o)
    {
      if minf != null { minf.Allocated(); }
    }

    /** No box of a kind that contains this one is among its objects. */
    lemma Omits(o: object)
      requires o is TrackBox || o is MovieBox || o is Mp4Reader
      ensures o !in Objects()
    {
      if minf != null { minf.Omits(o); }
    }

    /** Changing none of the objects leaves the value as it was. */
    twostate lemma Unchanged()
      requires unchanged(old(Objects()) - {null})
      ensures Objects() == old(Objects()) && Value() == old(Value())
    {
      if minf != null { minf.Unchanged(); }
    }

    constructor (box: Box)
      ensures this.box == box && Value() == Media(None, None, None)
    {
      this.box := box;
      mdhd, hdlr, minf := null, null, null;
    }

    method Parse(file: seq<Byte>)
      requires MdiaOk(file, box)
      modifies this
      ensures Value() == MdiaOf(file, box).Over(old(Value()))
    {
      Allocated();
      var boxes := ReadChildren(file, box);
      Unchanged();
      for i := 0 to |boxes|
        invariant Value() == MdiaFrom(file, boxes[..i]).Over(old(Value()))
      {
        MdiaOverStep(file, boxes, i, old(Value()));
        ParseChild(file, boxes[i]);
      }
      assert boxes[..|boxes|] == boxes;
    }

    method ParseChild(file: seq<Byte>, b: Box)
      requires MdiaChildOk(file, b)
      modifies this
      ensures Value() == MdiaApply(old(Value()), file, b)
    {
      if b.name == "mdhd" {
        ParseMdhd(file, b);
      } else if b.name == "hdlr" {
        ParseHdlr(file, b);
      } else if b.name == "minf" {
        ParseMinf(file, b);
      }
    }

    method ParseMdhd(file: seq<Byte>, b: Box)
      requires |ReadBoxData(file, b)| >= 21
      modifies this
      ensures Value() == old(Value()).(mdhd := Some(Parsed(b, DecodeMdhd(ReadBoxData(file, b)))))
    {
      if minf != null { minf.Allocated(); minf.Omits(this); }
      mdhd := new MediaHeaderBox(b);
      mdhd.Parse(file);
      if minf != null { minf.Unchanged(); }
    }

    method ParseHdlr(file: seq<Byte>, b: Box)
      requires |ReadBoxData(file, b)| >= 12
      modifies this
      ensures Value() == old(Value()).(hdlr := Some(Parsed(b, DecodeHdlr(ReadBoxData(file, b)))))
    {
      if minf != null { minf.Allocated(); minf.Omits(this); }
      hdlr := new HandlerBox(b);
      hdlr.Parse(file);
      if minf != null { minf.Unchanged(); }
    }

    method ParseMinf(file: seq<Byte>, b: Box)
      requires MinfOk(file, b)
      modifies this
      ensures Value() == old(Value()).(minf := Some(Parsed(b, MinfOf(file, b))))
    {
      minf := new MediaInformationBox(b);
      minf.Parse(file);
    }
  }

  /** TrackBox (main.go:234-255). */
  class TrackBox {
    const box: Box
    var tkhd: TrackHeaderBox?
    var mdia: MediaBox?

    function Objects(): set<object?>
      reads this, if mdia != null then mdia.Objects() else {}
    {
      {this, tkhd, mdia} + (if mdia != null then mdia.Objects() else {})
    }

    function Value(): Track
      reads Objects()
    {
      Track(
        if tkhd == null then None else Some(Parsed(tkhd.box, tkhd.Value())),
        if mdia == null then None else Some(Parsed(mdia.box, mdia.Value())))
    }

    /** Every object of Objects() exists. */
    lemma Allocated()
      ensures forall o :: o in Objects() && o != null ==> allocated(o)
    {
      if mdia != null { mdia.Allocated(); }
    }

    /** No box of a kind that contains this one is among its objects. */
    lemma Omits(o: object)
      requires o is MovieBox || o is Mp4Reader
      ensures o !in Objects()
    {
      if mdia != null { mdia.Omits(o); }
    }

    /** Changing none of the objects leaves the value as it was. */
    twostate lemma Unchanged()
      requires unchanged(old(Objects()) - {null})
      ensures Objects() == old(Objects()) && Value() == old(Value())
    {
      if mdia != null { mdia.Unchanged(); }
    }

    /** A track whose value has a handler holds that handler's object, and
        the handler's type name on the object is the one in the value. */
    lemma HandlerOfValue()
      requires Value().HasHandler()
      ensures mdia != null && mdia.hdlr != null
      ensures Value().IsVideo() <==> mdia.hdlr.typeName == "vide"
    {
    }

    constructor (box: Box)
      ensures this.box == box && Value() == Track(None, None)
    {
      this.box := box;
      tkhd, mdia := null, null;
    }

    method Parse(file: seq<Byte>)
      requires TrakOk(file, box)
      modifies this
      ensures Value() == TrakOf(file, box).Over(old(Value()))
    {
      Allocated();
      var boxes := ReadChildren(file, box);
      Unchanged();
      for i := 0 to |boxes|
        invariant Value() == TrakFrom(file, boxes[..i]).Over(old(Value()))
      {
        TrakOverStep(file, boxes, i, old(Value()));
        ParseChild(file, boxes[i]);
      }
      assert boxes[..|boxes|] == boxes;
    }

    method ParseChild(file: seq<Byte>, b: Box)
      requires TrakChildOk(file, b)
      modifies this
      ensures Value() == TrakApply(old(Value()), file, b)
    {
      if b.name == "tkhd" {
        ParseTkhd(file, b);
      } else if b.name == "mdia" {
        ParseMdia(file, b);
      }
    }

    method ParseTkhd(file: seq<Byte>, b: Box)
      requires |ReadBoxData(file, b)| >= 84
      modifies this
      ensures Value() == old(Value()).(tkhd := Some(Parsed(b, DecodeTkhd(ReadBoxData(file, b)))))
    {
      if mdia != null { mdia.Allocated(); mdia.Omits(this); }
      tkhd := new TrackHeaderBox(b);
      tkhd.Parse(file);
      if mdia != null { mdia.Unchanged(); }
    }

    method ParseMdia(file: seq<Byte>, b: Box)
      requires MdiaOk(file, b)
      modifies this
      ensures Value() == old(Value()).(mdia := Some(Parsed(b, MdiaOf(file, b))))
    {
      mdia := new MediaBox(b);
      mdia.Parse(file);
    }
  }

  /** parseTrack (main.go:196-200): a fresh TrackBox for the box, parsed. */
  method ParseTrack(file: seq<Byte>, b: Box) returns (t: TrackBox)
    requires TrakOk(file, b)
    ensures fresh(t) && t.box == b && t.Value() == TrakOf(file, b)
  {
    t := new TrackBox(b);
    t.Parse(file);
  }

  /** MovieBox (main.go:170-194). */
  class MovieBox {
    const box: Box
    var mvhd: MovieHeaderBox?
    var trak: TrackBox?

    function Objects(): set<object?>
      reads this, if trak != null then trak.Objects() else {}
    {
      {this, mvhd, trak} + (if trak != null then trak.Objects() else {})
    }

    function Value(): Movie
      reads Objects()
    {
      Movie(
        if mvhd == null then None else Some(Parsed(mvhd.box, mvhd.Value())),
        if trak == null then None else Some(Parsed(trak.box, trak.Value())))
    }

    /** Every object of Objects() exists. */
    lemma Allocated()
      ensures forall o :: o in Objects() && o != null ==> allocated(o)
    {
      if trak != null { trak.Allocated(); }
    }

    /** No box of a kind that contains this one is among its objects. */
    lemma Omits(o: object)
      requires o is Mp4Reader
      ensures o !in Objects()
    {
      if trak != null { trak.Omits(o); }
    }

    /** Changing none of the objects leaves the value as it was. */
    twostate lemma Unchanged()
      requires unchanged(old(Objects()) - {null})
      ensures Objects() == old(Objects()) && Value() == old(Value())
    {
      if trak != null { trak.Unchanged(); }
    }

    constructor (box: Box)
      ensures this.box == box && Value() == Movie(None, None)
    {
      this.box := box;
      mvhd, trak := null, null;
    }

    method Parse(file: seq<Byte>)
      requires MoovOk(file, box)
      modifies this
      ensures Value() == MoovOf(file, box).Over(old(Value()))
    {
      Allocated();
      var boxes := ReadChildren(file, box);
      Unchanged();
      for i := 0 to |boxes|
        invariant Value() == MoovFrom(file, boxes[..i]).Over(old(Value()))
      {
        MoovOverStep(file, boxes, i, old(Value()));
        ParseChild(file, boxes[i]);
      }
      assert boxes[..|boxes|] == boxes;
    }

    /** A trak child is parsed on its own and kept only when its handler's
        type name is "vide". */
    method ParseChild(file: seq<Byte>, b: Box)
      requires MoovChildOk(file, b)
      modifies this
      ensures Value() == MoovApply(old(Value()), file, b)
    {
      if b.name == "mvhd" {
        ParseMvhd(file, b);
      } else if b.name == "trak" {
        ParseTrak(file, b);
      }
    }

    method ParseMvhd(file: seq<Byte>, b: Box)
      requires |ReadBoxData(file, b)| >= 26
      modifies this
      ensures Value() == old(Value()).(mvhd := Some(Parsed(b, DecodeMvhd(ReadBoxData(file, b)))))
    {
      if trak != null { trak.Allocated(); trak.Omits(this); }
      mvhd := new MovieHeaderBox(b);
      mvhd.Parse(file);
      if trak != null { trak.Unchanged(); }
    }

    method ParseTrak(file: seq<Byte>, b: Box)
      requires b.name == "trak" && VideoTestOk(file, b)
      modifies this
      ensures IsVideoTrak(file, b) ==> Value() == old(Value()).(trak := Some(Parsed(b, TrakOf(file, b))))
      ensures !IsVideoTrak(file, b) ==> Value() == old(Value())
    {
      if trak != null { trak.Allocated(); }
      var t := ParseTrack(file, b);
      if trak != null { trak.Unchanged(); }
      t.HandlerOfValue();
      if t.mdia.hdlr.typeName == "vide" {
        t.Omits(this);
        Keep(t);
      }
    }

    /** The movie keeps t as its track. */
    method Keep(t: TrackBox)
      requires this !in t.Objects()
      modifies this
      ensures Value() == old(Value()).(trak := Some(Parsed(t.box, old(t.Value()))))
    {
      t.Allocated();
      label Before:
      trak := t;
      t.Unchanged@Before();
    }
  }

  // ---- The reader ----------------------------------------------------------------

  /** Mp4Reader (main.go:37-75).  Its Reader is the file's bytes. */
  class Mp4Reader {
    const file: seq<Byte>
    var size: int
    var ftyp: FtypBox?
    var moov: MovieBox?
    var mdat: MediaDataBox?

    function Objects(): set<object?>
      reads this, if moov != null then moov.Objects() else {}
    {
      {this, ftyp, moov, mdat} + (if moov != null then moov.Objects() else {})
    }

    function Value(): File
      reads Objects()
    {
      File(
        if ftyp == null then None else Some(Parsed(ftyp.box, ftyp.Value())),
        if moov == null then None else Some(Parsed(moov.box, moov.Value())),
        if mdat == null then None else Some(Parsed(mdat.box, mdat.data)))
    }

    /** Every object of Objects() exists. */
    lemma Allocated()
      ensures forall o :: o in Objects() && o != null ==> allocated(o)
    {
      if moov != null { moov.Allocated(); }
    }

    /** Changing none of the objects leaves the value as it was. */
    twostate lemma Unchanged()
      requires unchanged(old(Objects()) - {null})
      ensures Objects() == old(Objects()) && Value() == old(Value())
    {
      if moov != null { moov.Unchanged(); }
    }

    /** Each pointer is set exactly when the value has that field, and
        then holds that field's box. */
    lemma Pointers()
      ensures (ftyp != null <==> Value().ftyp.Some?) && (ftyp != null ==> ftyp.box == Value().ftyp.value.box)
      ensures (moov != null <==> Value().moov.Some?) && (moov != null ==> moov.box == Value().moov.value.box)
      ensures (mdat != null <==> Value().mdat.Some?) && (mdat != null ==> mdat.box == Value().mdat.value.box)
    {
    }

    constructor (file: seq<Byte>)
      ensures this.file == file && size == 0 && Value() == File(None, None, None)
    {
      this.file := file;
      size := 0;
      ftyp, moov, mdat := null, null, null;
    }

    /** A Size of 0 is first replaced by the file's size; the top-level
        boxes of [0, Size) are then read and dispatched. */
    method Parse()
      requires ReaderOk(file, size)
      modifies this
      ensures size == ScanSize(file, old(size))
      ensures Value() == FileOf(file, old(size)).Over(old(Value()))
    {
      ResolveSize();
      label Sized:
      Allocated();
      var boxes := ReadBoxes(file, 0, size);
      Unchanged@Sized();
      for i := 0 to |boxes|
        invariant size == ScanSize(file, old(size))
        invariant Value() == FileFrom(file, boxes[..i]).Over(old(Value()))
      {
        FileOverStep(file, boxes, i, old(Value()));
        ParseChild(boxes[i]);
      }
      assert boxes[..|boxes|] == boxes;
    }

    /** A Size of 0 (a reader whose size was not known) becomes the file's size. */
    method ResolveSize()
      modifies this
      ensures size == ScanSize(file, old(size)) && Value() == old(Value())
    {
      if moov != null { moov.Allocated(); moov.Omits(this); }
      if size == 0 {
        size := |file|;
      }
      if moov != null { moov.Unchanged(); }
    }

    method ParseChild(b: Box)
      requires FileChildOk(file, b)
      modifies this
      ensures size == old(size)
      ensures Value() == FileApply(old(Value()), file, b)
    {
      if b.name == "ftyp" {
        ParseFtyp(b);
      } else if b.name == "moov" {
        ParseMoov(b);
      } else if b.name == "mdat" {
        ParseMdat(b);
      }
    }

    method ParseFtyp(b: Box)
      requires FtypLayout(ReadBoxData(file, b))
      modifies this
      ensures size == old(size)
      ensures Value() == old(Value()).(ftyp := Some(Parsed(b, DecodeFtyp(ReadBoxData(file, b)))))
    {
      if moov != null { moov.Allocated(); moov.Omits(this); }
      ftyp := new FtypBox(b);
      ftyp.Parse(file);
      assert [] + DecodeFtyp(ReadBoxData(file, b)).compatibleBrands == DecodeFtyp(ReadBoxData(file, b)).compatibleBrands;
      if moov != null { moov.Unchanged(); }
    }

    method ParseMoov(b: Box)
      requires MoovOk(file, b)
      modifies this
      ensures size == old(size)
      ensures Value() == old(Value()).(moov := Some(Parsed(b, MoovOf(file, b))))
    {
      moov := new MovieBox(b);
      moov.Parse(file);
    }

    method ParseMdat(b: Box)
      modifies this
      ensures size == old(size)
      ensures Value() == old(Value()).(mdat := Some(Parsed(b, ReadBoxData(file, b))))
    {
      if moov != null { moov.Allocated(); moov.Omits(this); }
      mdat := new MediaDataBox(b);
      mdat.Parse(file);
      if moov != null { moov.Unchanged(); }
    }
  }

  /** Open (main.go:112-124): a reader over the file, with Size 0, parsed.
      Opening the path is outside the model; the file's bytes are given. */
  method Open(file: seq<Byte>) returns (m: Mp4Reader)
    requires ReaderOk(file, 0)
    ensures fresh(m) && m.file == file && m.size == |file|
    ensures m.Value() == FileOf(file, 0)
    ensures var top := Scan(file, 0, |file|);
            (m.ftyp != null <==> LastWith(top, "ftyp").Some?) &&
            (m.ftyp != null ==> m.ftyp.box == LastWith(top, "ftyp").value) &&
            (m.moov != null <==> LastWith(top, "moov").Some?) &&
            (m.moov != null ==> m.moov.box == LastWith(top, "moov").value) &&
            (m.mdat != null <==> LastWith(top, "mdat").Some?) &&
            (m.mdat != null ==> m.mdat.box == LastWith(top, "mdat").value)
    ensures m.moov != null ==> MoovOk(file, m.moov.box) && m.moov.Value() == MoovOf(file, m.moov.box)
  {
    m := new Mp4Reader(file);
    m.Parse();
    m.Pointers();
    FileOfKeepsLast(file, 0);
  }
}
