/** The typed leaf-box decoders of main.go: each reads big-endian fields at
    fixed offsets of a box's data.  Each decoder is paired with an encoder that
    lays the fields out as ISO/IEC 14496-12 (version 0 boxes) does, and a lemma
    that says what decoding that layout gives back.  Every decoder requires the
    data to be long enough for its last slice: Go panics otherwise. */
module Decoders {
  import opened Bytes

  // ---- Fixed-point fields (main.go:18-34) --------------------------------

  /** fixed16: an 8.8 fixed-point value read as a big-endian uint16.  Only the
      first two bytes of the slice are read, whatever its length: the first
      is the integer part, the second the fraction in 256ths. */
  function Fixed16(b: seq<Byte>): (f: U16)
    requires |b| >= 2
    ensures f / 0x100 == b[0] && f % 0x100 == b[1]
  {
    BE16(b)
  }

  /** fixed32: a 16.16 fixed-point value read as a big-endian uint32: the
      first two bytes are the integer part, the next two the fraction in
      65536ths. */
  function Fixed32(b: seq<Byte>): (f: U32)
    requires |b| >= 4
    ensures f / 0x1_0000 == BE16(b[..2]) && f % 0x1_0000 == BE16(b[2..4])
  {
    BE32(b)
  }

  /** Fixed16.String prints uint16(f) >> 8: the integer part of the 8.8
      value, the fraction dropped. */
  function Fixed16String(f: U16): (intPart: Byte)
    ensures intPart * 0x100 <= f < (intPart + 1) * 0x100
  {
    f / 0x100
  }

  /** Three flag bytes, as the version-and-flags word of a full box has. */
  predicate IsFlags(flags: seq<Byte>)
  {
    |flags| == 3
  }

  /** Bytes 1..4 of a full box's data, copied one by one as main.go does. */
  function FlagsOf(data: seq<Byte>): (flags: seq<Byte>)
    requires |data| >= 4
    ensures IsFlags(flags)
  {
    data[1..4]
  }

  /** A run of n zero bytes (the reserved fields of the layouts). */
  function Zeros(n: nat): (z: seq<Byte>)
    ensures |z| == n
  {
    seq(n, i => 0)
  }

  // ---- ftyp (main.go:146-163) -----------------------------------------------

  datatype FileType = FileType(majorBrand: string, minorVersion: U32, compatibleBrands: seq<string>)

  /** The data FtypBox.parse can read without panicking: the brand and the
      version, then whole 4-byte brands up to the end (a trailing partial
      brand makes data[i:i+4] go out of range). */
  predicate FtypLayout(data: seq<Byte>)
  {
    |data| >= 8 && (|data| - 8) % 4 == 0
  }

  /** The consecutive 4-character brands of data. */
  function Brands(data: seq<Byte>): (brands: seq<string>)
    requires |data| % 4 == 0
    ensures |brands| == |data| / 4
    ensures forall k :: 0 <= k < |brands| ==> brands[k] == Chars(data[4 * k..4 * k + 4])
    decreases |data|
  {
    if data == [] then []
    else
      var tail := Brands(data[4..]);
      assert forall k :: 0 <= k < |tail| ==> data[4..][4 * k..4 * k + 4] == data[4 * (k + 1)..4 * (k + 1) + 4];
      [Chars(data[..4])] + tail
  }

  /** One more 4-byte group adds one brand at the end: the step of the
      FtypBox.parse loop. */
  lemma {:induction false} BrandsAppend(data: seq<Byte>, group: seq<Byte>)
    requires |data| % 4 == 0 && |group| == 4
    ensures Brands(data + group) == Brands(data) + [Chars(group)]
    decreases |data|
  {
    if data == [] {
      assert data + group == group;
      assert group[..4] == group && group[4..] == [];
      assert Brands(group) == [Chars(group)] + Brands([]);
    } else {
      BrandsAppend(data[4..], group);
      assert (data + group)[..4] == data[..4];
      assert (data + group)[4..] == data[4..] + group;
      assert Brands(data + group) == [Chars(data[..4])] + Brands(data[4..] + group);
    }
  }

  /** What FtypBox.parse stores. */
  function DecodeFtyp(data: seq<Byte>): (f: FileType)
    requires FtypLayout(data)
    ensures |f.majorBrand| == 4
    ensures |f.compatibleBrands| == (|data| - 8) / 4
  {
    FileType(Chars(data[0..4]), BE32(data[4..8]), Brands(data[8..]))
  }

  /** The brands an encoder may write: four one-byte characters each. */
  predicate IsBrand(s: string)
  {
    |s| == 4 && Latin1(s)
  }

  function EncodeBrands(brands: seq<string>): (bytes: seq<Byte>)
    requires forall k :: 0 <= k < |brands| ==> IsBrand(brands[k])
    ensures |bytes| == 4 * |brands|
  {
    if brands == [] then []
    else
      assert IsBrand(brands[0]);
      Octets(brands[0]) + EncodeBrands(brands[1..])
  }

  /** The ftyp data of ISO/IEC 14496-12 section 4.3. */
  function EncodeFtyp(f: FileType): (bytes: seq<Byte>)
    requires IsBrand(f.majorBrand)
    requires forall k :: 0 <= k < |f.compatibleBrands| ==> IsBrand(f.compatibleBrands[k])
    ensures FtypLayout(bytes)
  {
    Octets(f.majorBrand) + U32Bytes(f.minorVersion) + EncodeBrands(f.compatibleBrands)
  }

  lemma {:induction false} BrandsOfEncoded(brands: seq<string>)
    requires forall k :: 0 <= k < |brands| ==> IsBrand(brands[k])
    ensures Brands(EncodeBrands(brands)) == brands
    decreases |brands|
  {
    if brands != [] {
      var bytes := EncodeBrands(brands);
      BrandsOfEncoded(brands[1..]);
      assert bytes[..4] == Octets(brands[0]);
      assert bytes[4..] == EncodeBrands(brands[1..]);
      CharsOfOctets(brands[0]);
    }
  }

  lemma {:induction false} EncodedBrandsOf(data: seq<Byte>)
    requires |data| % 4 == 0
    ensures forall k :: 0 <= k < |Brands(data)| ==> IsBrand(Brands(data)[k])
    ensures EncodeBrands(Brands(data)) == data
    decreases |data|
  {
    if data != [] {
      EncodedBrandsOf(data[4..]);
      OctetsOfChars(data[..4]);
      assert Brands(data) == [Chars(data[..4])] + Brands(data[4..]);
      assert data == data[..4] + data[4..];
    }
  }

  /** Decoding an encoded ftyp gives back its brand, version and brands. */
  lemma FtypRoundTrip(f: FileType)
    requires IsBrand(f.majorBrand)
    requires forall k :: 0 <= k < |f.compatibleBrands| ==> IsBrand(f.compatibleBrands[k])
    ensures DecodeFtyp(EncodeFtyp(f)) == f
  {
    var bytes := EncodeFtyp(f);
    assert bytes[0..4] == Octets(f.majorBrand);
    assert bytes[4..8] == U32Bytes(f.minorVersion);
    assert bytes[8..] == EncodeBrands(f.compatibleBrands);
    CharsOfOctets(f.majorBrand);
    BE32RoundTrip(f.minorVersion);
    BrandsOfEncoded(f.compatibleBrands);
  }

  /** ftyp decoding loses nothing: re-encoding gives the data back. */
  lemma FtypReencode(data: seq<Byte>)
    requires FtypLayout(data)
    ensures IsBrand(DecodeFtyp(data).majorBrand)
    ensures forall k :: 0 <= k < |DecodeFtyp(data).compatibleBrands| ==>
              IsBrand(DecodeFtyp(data).compatibleBrands[k])
    ensures EncodeFtyp(DecodeFtyp(data)) == data
  {
    OctetsOfChars(data[0..4]);
    U32BytesOfBE32(data[4..8]);
    EncodedBrandsOf(data[8..]);
    assert data == data[0..4] + data[4..8] + data[8..];
  }

  // ---- mvhd (main.go:207-227) -----------------------------------------------

  datatype MovieHeader = MovieHeader(
    version: Byte, flags: U32, creationTime: U32, modificationTime: U32,
    timescale: U32, duration: U32, rate: U32, volume: U16)

  /** What MovieHeaderBox.parse stores.  It never assigns Flags, CreationTime
      or ModificationTime, which keep Go's zero value. */
  function DecodeMvhd(data: seq<Byte>): (h: MovieHeader)
    requires |data| >= 26
    ensures h.flags == 0 && h.creationTime == 0 && h.modificationTime == 0
  {
    MovieHeader(data[0], 0, 0, 0, BE32(data[12..16]), BE32(data[16..20]),
                Fixed32(data[20..24]), Fixed16(data[24..26]))
  }

  /** The first 26 bytes of the mvhd data of ISO/IEC 14496-12 section 8.2.2
      (version 0): version, flags, creation and modification times,
      timescale, duration, rate, volume. */
  function EncodeMvhd(h: MovieHeader, flags: seq<Byte>): (bytes: seq<Byte>)
    requires IsFlags(flags)
    ensures |bytes| == 26
  {
    [h.version] + flags + U32Bytes(h.creationTime) + U32Bytes(h.modificationTime) +
    U32Bytes(h.timescale) + U32Bytes(h.duration) + U32Bytes(h.rate) + U16Bytes(h.volume)
  }

  /** Decoding an mvhd laid out by the standard recovers version, timescale,
      duration, rate and volume, whatever follows them; flags and the two
      times are dropped. */
  lemma MvhdRoundTrip(h: MovieHeader, flags: seq<Byte>, rest: seq<Byte>)
    requires IsFlags(flags)
    ensures DecodeMvhd(EncodeMvhd(h, flags) + rest) ==
            h.(flags := 0, creationTime := 0, modificationTime := 0)
  {
    var data := EncodeMvhd(h, flags) + rest;
    assert data[12..16] == U32Bytes(h.timescale);
    assert data[16..20] == U32Bytes(h.duration);
    assert data[20..24] == U32Bytes(h.rate);
    assert data[24..26] == U16Bytes(h.volume);
    BE32RoundTrip(h.timescale);
    BE32RoundTrip(h.duration);
    BE32RoundTrip(h.rate);
    BE16RoundTrip(h.volume);
  }

  // ---- tkhd (main.go:262-301) -----------------------------------------------

  datatype TrackHeader = TrackHeader(
    version: Byte, flags: seq<Byte>, creationTime: U32, modificationTime: U32,
    trackId: U32, reserved: U32, duration: U32, layer: U16, alternateGroup: U16,
    volume: U16, width: U16, height: U16)

  /** What TrackHeaderBox.parse stores.  Width and height are read with
      fixed16 from the 4-byte slices [76:80] and [80:84], so only the first
      two bytes of each count. */
  function DecodeTkhd(data: seq<Byte>): (h: TrackHeader)
    requires |data| >= 84
    ensures IsFlags(h.flags)
  {
    TrackHeader(data[0], FlagsOf(data), BE32(data[4..8]), BE32(data[8..12]),
                BE32(data[12..16]), BE32(data[16..20]), BE32(data[20..24]),
                BE16(data[32..34]), BE16(data[34..36]), Fixed16(data[36..38]),
                Fixed16(data[76..80]), Fixed16(data[80..84]))
  }

  /** The first 84 bytes of the tkhd data of ISO/IEC 14496-12 section 8.3.2
      (version 0).  Width and height are 16.16 fixed-point numbers there: the
      integer part comes from h, the fractional parts are given separately. */
  function EncodeTkhd(h: TrackHeader, matrix: seq<Byte>, widthFrac: U16, heightFrac: U16): (bytes: seq<Byte>)
    requires IsFlags(h.flags) && |matrix| == 36
    ensures |bytes| == 84
  {
    TkhdTimes(h) + TkhdLayering(h) + matrix + TkhdSize(h, widthFrac, heightFrac)
  }

  /** Bytes 0..24: version, flags, the two times, track ID, reserved, duration. */
  function TkhdTimes(h: TrackHeader): (bytes: seq<Byte>)
    requires IsFlags(h.flags)
    ensures |bytes| == 24
  {
    [h.version] + h.flags + U32Bytes(h.creationTime) + U32Bytes(h.modificationTime) +
    U32Bytes(h.trackId) + U32Bytes(h.reserved) + U32Bytes(h.duration)
  }

  /** Bytes 24..40: two reserved words, layer, alternate group, volume, reserved. */
  function TkhdLayering(h: TrackHeader): (bytes: seq<Byte>)
    ensures |bytes| == 16
  {
    Zeros(8) + U16Bytes(h.layer) + U16Bytes(h.alternateGroup) + U16Bytes(h.volume) + Zeros(2)
  }

  /** Bytes 76..84: width and height as 16.16 fixed-point numbers. */
  function TkhdSize(h: TrackHeader, widthFrac: U16, heightFrac: U16): (bytes: seq<Byte>)
    ensures |bytes| == 8
  {
    U16Bytes(h.width) + U16Bytes(widthFrac) + U16Bytes(h.height) + U16Bytes(heightFrac)
  }

  /** Any slice inside the first part of a concatenation is a slice of that
      part, and what follows the first part is the second. */
  lemma AppendSlices(a: seq<Byte>, b: seq<Byte>)
    ensures forall i, j :: 0 <= i <= j <= |a| ==> (a + b)[i..j] == a[i..j]
    ensures (a + b)[|a|..] == b
  {
  }

  lemma TkhdTimesFields(h: TrackHeader)
    requires IsFlags(h.flags)
    ensures var t := TkhdTimes(h);
            t[0] == h.version && t[1..4] == h.flags &&
            BE32(t[4..8]) == h.creationTime && BE32(t[8..12]) == h.modificationTime &&
            BE32(t[12..16]) == h.trackId && BE32(t[16..20]) == h.reserved &&
            BE32(t[20..24]) == h.duration
  {
    var t := TkhdTimes(h);
    var p0 := [h.version] + h.flags;
    var p1 := p0 + U32Bytes(h.creationTime);
    var p2 := p1 + U32Bytes(h.modificationTime);
    var p3 := p2 + U32Bytes(h.trackId);
    var p4 := p3 + U32Bytes(h.reserved);
    assert t == p4 + U32Bytes(h.duration);
    AppendSlices(p0, U32Bytes(h.creationTime));
    AppendSlices(p1, U32Bytes(h.modificationTime));
    AppendSlices(p2, U32Bytes(h.trackId));
    AppendSlices(p3, U32Bytes(h.reserved));
    AppendSlices(p4, U32Bytes(h.duration));
    BE32RoundTrip(h.creationTime);
    BE32RoundTrip(h.modificationTime);
    BE32RoundTrip(h.trackId);
    BE32RoundTrip(h.reserved);
    BE32RoundTrip(h.duration);
  }

  lemma TkhdLayeringFields(h: TrackHeader)
    ensures var t := TkhdLayering(h);
            BE16(t[8..10]) == h.layer && BE16(t[10..12]) == h.alternateGroup &&
            BE16(t[12..14]) == h.volume
  {
    var t := TkhdLayering(h);
    assert t[8..10] == U16Bytes(h.layer);
    assert t[10..12] == U16Bytes(h.alternateGroup);
    assert t[12..14] == U16Bytes(h.volume);
    BE16RoundTrip(h.layer);
    BE16RoundTrip(h.alternateGroup);
    BE16RoundTrip(h.volume);
  }

  lemma TkhdSizeFields(h: TrackHeader, widthFrac: U16, heightFrac: U16)
    ensures var t := TkhdSize(h, widthFrac, heightFrac);
            BE16(t[0..4]) == h.width && BE16(t[4..8]) == h.height
  {
    var t := TkhdSize(h, widthFrac, heightFrac);
    assert t[0..2] == U16Bytes(h.width);
    assert t[4..6] == U16Bytes(h.height);
    BE16RoundTrip(h.width);
    BE16RoundTrip(h.height);
  }

  /** Decoding a standard tkhd gives back every field, and of the 16.16 width
      and height only their integer parts: the fractions are lost. */
  lemma TkhdRoundTrip(h: TrackHeader, matrix: seq<Byte>, widthFrac: U16, heightFrac: U16, rest: seq<Byte>)
    requires IsFlags(h.flags) && |matrix| == 36
    ensures DecodeTkhd(EncodeTkhd(h, matrix, widthFrac, heightFrac) + rest) == h
  {
    var times, layering, size := TkhdTimes(h), TkhdLayering(h), TkhdSize(h, widthFrac, heightFrac);
    var data := EncodeTkhd(h, matrix, widthFrac, heightFrac) + rest;
    assert data[..24] == times;
    assert data[24..40] == layering;
    assert data[76..84] == size;
    TkhdTimesFields(h);
    TkhdLayeringFields(h);
    TkhdSizeFields(h, widthFrac, heightFrac);
    assert data[1..4] == times[1..4];
    assert data[4..8] == times[4..8] && data[8..12] == times[8..12] && data[12..16] == times[12..16];
    assert data[16..20] == times[16..20] && data[20..24] == times[20..24];
    assert data[32..34] == layering[8..10] && data[34..36] == layering[10..12] && data[36..38] == layering[12..14];
    assert data[76..80] == size[0..4] && data[80..84] == size[4..8];
  }

  // ---- mdhd (main.go:342-369) -----------------------------------------------

  datatype MediaHeader = MediaHeader(
    version: Byte, flags: seq<Byte>, creationTime: U32, modificationTime: U32,
    timescale: U32, duration: U32, language: seq<Byte>, preDefined: U16)

  /** What MediaHeaderBox.parse stores.  Timescale is read from [8:12), the
      bytes ModificationTime is read from, so the two are always equal;
      Language is never assigned and keeps its zero value. */
  function DecodeMdhd(data: seq<Byte>): (h: MediaHeader)
    requires |data| >= 21
    ensures h.timescale == h.modificationTime
    ensures IsFlags(h.flags) && h.language == [0, 0, 0]
  {
    MediaHeader(data[0], FlagsOf(data), BE32(data[4..8]), BE32(data[8..12]),
                BE32(data[8..12]), BE32(data[12..16]), [0, 0, 0], BE16(data[19..21]))
  }

  /** The mdhd data of ISO/IEC 14496-12 section 8.4.2 (version 0): times,
      timescale and duration, then the packed language code and pre_defined. */
  function EncodeMdhd(version: Byte, flags: seq<Byte>, creationTime: U32, modificationTime: U32,
                      timescale: U32, duration: U32, language: U16, preDefined: U16): (bytes: seq<Byte>)
    requires IsFlags(flags)
    ensures |bytes| == 24
  {
    [version] + flags + U32Bytes(creationTime) + U32Bytes(modificationTime) +
    U32Bytes(timescale) + U32Bytes(duration) + U16Bytes(language) + U16Bytes(preDefined)
  }

  /** What the decoder makes of a standard mdhd: the times come back, but
      its Timescale is the modification time, its Duration is the stored
      timescale, and its PreDefined is made of the last byte of the stored
      duration and the first byte of the language code. */
  lemma MdhdOfStandardLayout(version: Byte, flags: seq<Byte>, creationTime: U32, modificationTime: U32,
                             timescale: U32, duration: U32, language: U16, preDefined: U16)
    requires IsFlags(flags)
    ensures DecodeMdhd(EncodeMdhd(version, flags, creationTime, modificationTime,
                                  timescale, duration, language, preDefined)) ==
            MediaHeader(version, flags, creationTime, modificationTime, modificationTime,
                        timescale, [0, 0, 0], (duration % 0x100) * 0x100 + language / 0x100)
  {
    var data := EncodeMdhd(version, flags, creationTime, modificationTime,
                           timescale, duration, language, preDefined);
    assert data[1..4] == flags;
    assert data[4..8] == U32Bytes(creationTime);
    assert data[8..12] == U32Bytes(modificationTime);
    assert data[12..16] == U32Bytes(timescale);
    assert data[16..20] == U32Bytes(duration);
    assert data[20..22] == U16Bytes(language);
    assert data[19..21] == [duration % 0x100, language / 0x100];
    BE32RoundTrip(creationTime);
    BE32RoundTrip(modificationTime);
    BE32RoundTrip(timescale);
  }

  // ---- hdlr (main.go:376-400) -----------------------------------------------

  datatype Handler = Handler(
    version: Byte, flags: seq<Byte>, preDefined: U32, handlerType: U32,
    reserved: seq<U32>, typeName: string)

  /** What HandlerBox.parse stores.  HandlerType and TypeName both come from
      [8:12): one as a big-endian number, the other as a 4-character string.
      Reserved is never assigned. */
  function DecodeHdlr(data: seq<Byte>): (h: Handler)
    requires |data| >= 12
    ensures |h.typeName| == 4 && h.handlerType == BE32(Octets(h.typeName))
    ensures IsFlags(h.flags) && h.reserved == [0, 0, 0]
  {
    OctetsOfChars(data[8..12]);
    Handler(data[0], FlagsOf(data), BE32(data[4..8]), BE32(data[8..12]), [0, 0, 0], Chars(data[8..12]))
  }

  /** The hdlr data of ISO/IEC 14496-12 section 8.4.3: pre_defined, the
      4-character handler_type, three reserved words, then the
      zero-terminated human-readable name. */
  function EncodeHdlr(version: Byte, flags: seq<Byte>, preDefined: U32, handlerType: string, name: seq<Byte>): (bytes: seq<Byte>)
    requires IsFlags(flags) && IsBrand(handlerType)
  {
    [version] + flags + U32Bytes(preDefined) + Octets(handlerType) + Zeros(12) + name + [0]
  }

  /** TypeName, the string the movie parser compares with "vide", is the
      handler_type of the standard layout, not its name field. */
  lemma HdlrOfStandardLayout(version: Byte, flags: seq<Byte>, preDefined: U32, handlerType: string, name: seq<Byte>)
    requires IsFlags(flags) && IsBrand(handlerType)
    ensures DecodeHdlr(EncodeHdlr(version, flags, preDefined, handlerType, name)) ==
            Handler(version, flags, preDefined, BE32(Octets(handlerType)), [0, 0, 0], handlerType)
  {
    var data := EncodeHdlr(version, flags, preDefined, handlerType, name);
    assert data[1..4] == flags;
    assert data[4..8] == U32Bytes(preDefined);
    assert data[8..12] == Octets(handlerType);
    BE32RoundTrip(preDefined);
    CharsOfOctets(handlerType);
  }

  // ---- stsz, stsc, stco (main.go:515-597) -------------------------------------

  datatype SampleSize = SampleSize(version: Byte, flags: seq<Byte>, sampleSize: U32, sampleCount: U32)

  datatype SampleToChunk = SampleToChunk(version: Byte, flags: seq<Byte>, entryCount: U32)

  datatype ChunkOffset = ChunkOffset(version: Byte, flags: seq<Byte>, entryCount: U32)

  /** The entry loops of the three table parsers have empty bodies and run a
      uint32 counter from 1 while it is <= the count: for the largest count
      the counter wraps to 0 and the loop never ends. */
  predicate EntryLoopEnds(count: U32)
  {
    count < 0xFFFF_FFFF
  }

  /** What SampleSizeBox.parse stores. */
  function DecodeStsz(data: seq<Byte>): (h: SampleSize)
    requires |data| >= 12
    ensures IsFlags(h.flags)
  {
    SampleSize(data[0], FlagsOf(data), BE32(data[4..8]), BE32(data[8..12]))
  }

  /** What SampleToChunkBox.parse stores. */
  function DecodeStsc(data: seq<Byte>): (h: SampleToChunk)
    requires |data| >= 8
    ensures IsFlags(h.flags)
  {
    SampleToChunk(data[0], FlagsOf(data), BE32(data[4..8]))
  }

  /** What ChunkOffsetBox.parse stores. */
  function DecodeStco(data: seq<Byte>): (h: ChunkOffset)
    requires |data| >= 8
    ensures IsFlags(h.flags)
  {
    ChunkOffset(data[0], FlagsOf(data), BE32(data[4..8]))
  }

  /** The stsz header of ISO/IEC 14496-12 section 8.7.3: default size, count. */
  function EncodeStsz(h: SampleSize): (bytes: seq<Byte>)
    requires IsFlags(h.flags)
    ensures |bytes| == 12
  {
    [h.version] + h.flags + U32Bytes(h.sampleSize) + U32Bytes(h.sampleCount)
  }

  /** The entry-count header shared by stsc and stco (sections 8.7.4, 8.7.5). */
  function EncodeCountHeader(version: Byte, flags: seq<Byte>, entryCount: U32): (bytes: seq<Byte>)
    requires IsFlags(flags)
    ensures |bytes| == 8
  {
    [version] + flags + U32Bytes(entryCount)
  }

  /** The sample-size header comes back whatever table follows it. */
  lemma StszRoundTrip(h: SampleSize, table: seq<Byte>)
    requires IsFlags(h.flags)
    ensures DecodeStsz(EncodeStsz(h) + table) == h
  {
    var data := EncodeStsz(h) + table;
    assert data[1..4] == h.flags;
    assert data[4..8] == U32Bytes(h.sampleSize);
    assert data[8..12] == U32Bytes(h.sampleCount);
    BE32RoundTrip(h.sampleSize);
    BE32RoundTrip(h.sampleCount);
  }

  /** The sample-to-chunk header comes back whatever entries follow it. */
  lemma StscRoundTrip(h: SampleToChunk, table: seq<Byte>)
    requires IsFlags(h.flags)
    ensures DecodeStsc(EncodeCountHeader(h.version, h.flags, h.entryCount) + table) == h
  {
    var data := EncodeCountHeader(h.version, h.flags, h.entryCount) + table;
    assert data[1..4] == h.flags;
    assert data[4..8] == U32Bytes(h.entryCount);
    BE32RoundTrip(h.entryCount);
  }

  /** The chunk-offset header comes back whatever offsets follow it. */
  lemma StcoRoundTrip(h: ChunkOffset, table: seq<Byte>)
    requires IsFlags(h.flags)
    ensures DecodeStco(EncodeCountHeader(h.version, h.flags, h.entryCount) + table) == h
  {
    var data := EncodeCountHeader(h.version, h.flags, h.entryCount) + table;
    assert data[1..4] == h.flags;
    assert data[4..8] == U32Bytes(h.entryCount);
    BE32RoundTrip(h.entryCount);
  }
}
