# A verified model of a small MP4 (ISO-BMFF) reader

The program reads an MP4 file as a tree of ISO/IEC 14496-12 boxes. Each box
starts with an 8-byte header: a big-endian 32-bit size and a 4-character tag.
The reader scans the top-level boxes (`ftyp`, `moov`, `mdat`) and descends
through `moov`, `trak`, `mdia`, `minf` and `stbl`. It decodes the fixed
fields of the leaf boxes (`mvhd`, `tkhd`, `mdhd`, `hdlr`, `stsz`, `stsc`,
`stco`) and keeps the last `trak` whose handler is `vide`. Finally it puts
the start code `00 00 00 01` in place of the first four bytes of the `mdat`
payload. That gives an H.264 Annex-B stream only when the payload holds a
single length-prefixed NAL unit: the length prefixes of later units stay.

The model has six modules:

- `Bytes` (`bytes.dfy`): 8-, 16- and 32-bit unsigned integers, big-endian
  decoding and encoding, and one-byte-per-character strings. `Optional`
  holds the `Option` type that stands for a Go pointer that may be nil.
- `Boxes` (`boxes.dfy`): the box header, `ReadBytesAt`, `ReadBoxAt`, and the
  `readBoxes` loop as a method proved equal to a recursive scan. It proves
  that the scan tiles its range and that it finds exactly the boxes an
  encoder wrote. It also has `ReadBoxData` and the "last box with this tag"
  rule the tag switches follow.
- `Decoders` (`decoders.dfy`): each leaf box's decoder is a pure function of
  the box data. Each comes with an encoder in the standard's layout and a
  round-trip lemma; the lemmas also record the fields the code reads twice,
  reads short, or never assigns.
- `Tree` (`tree.dfy`): the value each container holds after parsing, as a
  function of the file. Each kept child is recorded with the box it was
  parsed from (`Parsed`), so the value says which box every pointer holds.
  These functions are written with the last-wins rule and related to the
  child-by-child loop through one step lemma per container.
- `Objects` (`objects.dfy`): one class per Go box struct. A leaf class has
  the struct's fields. A container class has its nullable child pointers.
  Every `Parse` method assigns fields in place, and its contract states the
  new value in terms of the `Tree` and `Decoders` functions and the old
  value. `Mp4Reader` and `Open` model the reader.
- `AnnexB` (`annexb.dfy`): `extractVideoChunks`.

A Go panic is the precondition that rules it out. This covers a slice index
out of range or a nil `Mdia`/`Hdlr` dereference in the movie parser. A
`readBoxes` scan that never advances (a box of size 0) and an entry loop
that never ends (a count of 2^32 - 1) are also preconditions.

Two places where the code is followed as written:

- The handler's `TypeName` is read from bytes 8..12 of the `hdlr` data.
  That is the handler type, not the name field, so `vide` is tested against
  the handler type.
- The `mdhd` time scale is read from the same bytes as the modification
  time, and the duration from the bytes that hold the time scale.

`Decoders.HdlrOfStandardLayout` and `Decoders.MdhdOfStandardLayout` state
what these readings produce on data that follows the standard.

## Model

| member | source | states |
|---|---|---|
| Bytes.BE32RoundTrip | main.go:80 | decoding the four big-endian bytes of a 32-bit value gives the value back |
| Bytes.U32BytesOfBE32 | main.go:80 | re-encoding a decoded 32-bit size gives back the four bytes it was read from |
| Bytes.CharsInjective | main.go:81 | two byte strings convert to the same Go string only when they are equal, so a tag test compares the tag's bytes |
| Bytes.CharsOfOctets | main.go:81 | a one-byte-per-character string survives the trip to bytes and back |
| Boxes.ReadBytesAt | main.go:86-93 | an in-range read returns exactly the n bytes at the offset; a read past the end returns nothing, as the error path does |
| Boxes.ReadBoxAt | main.go:78-83 | the header gives the 32-bit size and a 4-character tag; it needs 8 bytes at the offset |
| Boxes.ReadBoxAtEncoded | main.go:78-83 | a header written as size and tag reads back as that size and tag |
| Boxes.EncodeReadBoxAt | main.go:78-83 | re-encoding the decoded size and tag gives back the 8 header bytes |
| Boxes.ScanStep | main.go:96-108 | while the offset is below the end, the header at the offset is in the file and has a non-zero size; the scan is that box followed by the scan from offset + size |
| Boxes.ReadBoxes | main.go:95-110 | the loop returns exactly the boxes of the scan of [start, start + n) |
| Boxes.ScanIsChain | main.go:95-110 | the scanned boxes tile the range: the first starts at start, each next one starts at the previous start + size, every start is in [start, start + n), and every header is the one stored at its start with a non-zero size |
| Boxes.ChainIsScan | main.go:95-110 | any tiling of the range is the scan, so the scan is the only box sequence with those properties |
| Boxes.ChainStartsGrow | main.go:95-110 | in a tiling, a later box starts no earlier than the end of an earlier one |
| Boxes.ScanCons | main.go:96-108 | a scannable rest behind a well-formed box with a non-zero size makes the whole range scannable, with that box first |
| Boxes.ReadBoxData | main.go:134-139 | the data is empty for a box no larger than its header and for a box that runs past the end of the file; otherwise it is exactly the size - 8 bytes after the header |
| Boxes.Children | main.go:178 | every child found in a container starts inside [start + 8, start + size), and its header is stored there with a non-zero size |
| Boxes.LastWith | main.go:58-73 | the box found has the tag and is one of the boxes; none is found exactly when no box has the tag |
| Boxes.LastWithAt | main.go:58-73 | a box with the tag that no later box with the tag follows is the one found |
| Boxes.LastWithIsLast | main.go:58-73 | the box found sits at a position after which no box has the tag |
| Boxes.LastWithSnoc | main.go:58-73 | one more box with the tag replaces the previous winner; one with another tag changes nothing |
| Boxes.ScanSerialized | main.go:95-110 | scanning a range that holds written boxes finds exactly those boxes, at the offsets they were written to |
| Boxes.DataSerialized | main.go:134-139 | the data of the k-th box found in written boxes is the k-th payload written |
| Decoders.Fixed16 | main.go:25-27 | of the two bytes read, the first is the integer part of the 8.8 value and the second its fraction in 256ths |
| Decoders.Fixed32 | main.go:32-34 | of the four bytes read, the first two are the integer part of the 16.16 value and the last two its fraction in 65536ths |
| Decoders.Fixed16String | main.go:21-23 | the printed value is the integer part of the 8.8 fixed-point value: f lies in [256 * r, 256 * (r + 1)) |
| Decoders.FlagsOf | main.go:358-360 | the flags are three bytes, bytes 1..4 of the data |
| Decoders.Brands | main.go:157-161 | there is one brand per 4-byte group, and the k-th brand is the string of group k |
| Decoders.BrandsAppend | main.go:158-160 | one more 4-byte group appends exactly one brand |
| Decoders.DecodeFtyp | main.go:153-163 | the major brand has 4 characters and there are (the data length - 8) / 4 compatible brands, that is (size - 16) / 4 for a box of that size |
| Decoders.FtypRoundTrip | main.go:153-163 | decoding an encoded ftyp gives back the major brand, the minor version and every compatible brand |
| Decoders.FtypReencode | main.go:153-163 | ftyp decoding loses nothing: re-encoding the decoded value gives the data back |
| Decoders.DecodeMvhd | main.go:219-227 | Flags, CreationTime and ModificationTime are never read and stay at Go's zero value |
| Decoders.MvhdRoundTrip | main.go:219-227 | on a standard mvhd, version, time scale, duration, rate and volume come back from bytes 0, 12..16, 16..20, 20..24 and 24..26, whatever follows |
| Decoders.DecodeTkhd | main.go:278-301 | the flags are three bytes |
| Decoders.TkhdRoundTrip | main.go:278-301 | on a standard tkhd every field comes back; width and height keep only the integer halves of the 16.16 fields, because only the first two bytes are read |
| Decoders.DecodeMdhd | main.go:354-369 | the time scale equals the modification time, because both are read from bytes 8..12; the language is never set |
| Decoders.MdhdOfStandardLayout | main.go:354-369 | on a standard mdhd, version, flags and both times come back; the time scale is the modification time, the duration is the stored time scale, and PreDefined is the last byte of the stored duration followed by the first byte of the language code |
| Decoders.DecodeHdlr | main.go:386-400 | HandlerType is the big-endian value of the 4 bytes whose string is TypeName; the reserved words are never set |
| Decoders.HdlrOfStandardLayout | main.go:386-400 | on a standard hdlr, TypeName is the handler type (such as "vide") and not the name field |
| Decoders.DecodeStsz | main.go:523-540 | the flags are three bytes |
| Decoders.StszRoundTrip | main.go:523-540 | version, flags, sample size (bytes 4..8) and sample count (bytes 8..12) come back, whatever table follows |
| Decoders.DecodeStsc | main.go:555-569 | the flags are three bytes |
| Decoders.StscRoundTrip | main.go:555-569 | version, flags and entry count (bytes 4..8) come back, whatever entries follow |
| Decoders.DecodeStco | main.go:583-597 | the flags are three bytes |
| Decoders.StcoRoundTrip | main.go:583-597 | version, flags and entry count (bytes 4..8) come back, whatever offsets follow |
| Tree.StblFromStep | main.go:494-506 | after one more child, the field for that child's tag holds its decoded table and every other field is as before |
| Tree.StblOverStep | main.go:494-506 | with any earlier contents, scanning one more child applies that child's case of the switch to what the earlier children built |
| Tree.StblOfKeepsLast | main.go:491-508 | each sample table field comes from the last child with its tag, and is empty exactly when there is none |
| Tree.MinfFromStep | main.go:420-435 | a media header child records its box and an stbl child its sample table; other fields are unchanged |
| Tree.MinfOverStep | main.go:420-435 | with any earlier contents, one more child applies that child's case of the switch |
| Tree.MinfOfKeepsLast | main.go:417-437 | each media header box and the sample table come from the last child with their tag, and are absent exactly when there is none |
| Tree.MdiaFromStep | main.go:319-333 | an mdhd, hdlr or minf child replaces its field with its decoded value; other fields are unchanged |
| Tree.MdiaOverStep | main.go:319-333 | with any earlier contents, one more child applies that child's case of the switch |
| Tree.MdiaOfKeepsLast | main.go:315-335 | mdhd, hdlr and minf come from the last child with their tag, and are absent exactly when there is none |
| Tree.TrakFromStep | main.go:243-253 | a tkhd or mdia child replaces its field with its decoded value; other fields are unchanged |
| Tree.TrakOverStep | main.go:243-253 | with any earlier contents, one more child applies that child's case of the switch |
| Tree.TrakOfKeepsLast | main.go:240-255 | tkhd and mdia come from the last child with their tag, and are absent exactly when there is none |
| Tree.LastVideoTrak | main.go:180-191 | the track found is a child, is a trak and has handler "vide"; none is found exactly when no child is such a track |
| Tree.LastVideoTrakStep | main.go:185-187 | a later video trak replaces the earlier one; a trak of another handler, or any other box, changes nothing |
| Tree.KeptTrakStep | main.go:185-187 | the track kept after one more child is that child, parsed, when it is a video trak, and otherwise the track kept before |
| Tree.MoovFromStep | main.go:180-191 | an mvhd replaces the header, a video trak the track, and every other child, non-video traks included, changes nothing |
| Tree.MoovOverStep | main.go:180-191 | with any earlier contents, one more child applies that child's case of the switch |
| Tree.MoovOfKeepsLast | main.go:177-194 | the mvhd comes from the last mvhd child and the track from the last trak child whose handler is "vide"; each is absent exactly when there is none |
| Tree.FileFromStep | main.go:59-73 | an ftyp, moov or mdat replaces its field with its decoded value; other boxes are ignored |
| Tree.FileOverStep | main.go:59-73 | with any earlier contents, one more top-level box applies that box's case of the switch |
| Tree.FileFromKeepsLast | main.go:59-73 | ftyp, moov and mdat come from the last top-level box with their tag, and the moov is that box parsed |
| Tree.FileOfKeepsLast | main.go:46-75 | the kept ftyp, moov and mdat are the last top-level boxes with their tags, absent exactly when there is none; the kept moov is that box, parsed |
| Objects.CopyFlags | main.go:358-360 | the loop copies data[1..4] into the three flag bytes |
| Objects.SkipEntries | main.go:535-537 | the empty entry loop, whose uint32 counter wraps around, ends after count iterations when count < 2^32 - 1 |
| Objects.FtypBox.Parse | main.go:153-163 | the box holds the decoded major brand and minor version, and the decoded brands appended to those it held |
| Objects.MovieHeaderBox.Parse | main.go:219-227 | version, time scale, duration, rate and volume are the decoded ones; the other fields keep their values |
| Objects.TrackHeaderBox.Parse | main.go:278-301 | every field is the decoded one |
| Objects.MediaHeaderBox.Parse | main.go:354-369 | every field except the language is the decoded one |
| Objects.HandlerBox.Parse | main.go:386-400 | every field except the reserved words is the decoded one |
| Objects.SampleSizeBox.Parse | main.go:523-540 | the fields are the decoded ones, and the entry loop ends |
| Objects.SampleToChunkBox.Parse | main.go:555-569 | the fields are the decoded ones, and the entry loop ends |
| Objects.ChunkOffsetBox.Parse | main.go:583-597 | the fields are the decoded ones, and the entry loop ends |
| Objects.MediaDataBox.Parse | main.go:609-612 | the data is the box data |
| Objects.ReadChildren | main.go:317 | the readBoxes call over [start + 8, start + size) returns exactly the container's children |
| Objects.SampleTableBox.Parse | main.go:491-508 | each table field holds the decoded last child with its tag; a field with no such child keeps its old value |
| Objects.SampleTableBox.ParseChild | main.go:495-505 | one case of the switch: the field of the child's tag holds a fresh, parsed box |
| Objects.MediaInformationBox.Parse | main.go:417-437 | each field holds the last child with its tag (the stbl one parsed); a field with no such child keeps its old value |
| Objects.MediaInformationBox.ParseChild | main.go:421-434 | one case of the switch |
| Objects.MediaBox.Parse | main.go:315-335 | mdhd, hdlr and minf hold the parsed last child with their tags; a field with no such child keeps its old value |
| Objects.MediaBox.ParseChild | main.go:320-332 | one case of the switch |
| Objects.TrackBox.Parse | main.go:240-255 | tkhd and mdia hold the parsed last child with their tags; a field with no such child keeps its old value |
| Objects.TrackBox.ParseChild | main.go:244-253 | one case of the switch |
| Objects.ParseTrack | main.go:196-200 | a fresh track box for the box, parsed from empty |
| Objects.MovieBox.Parse | main.go:177-194 | mvhd holds the last parsed mvhd and trak the last trak whose handler is "vide"; a field with no such child keeps its old value |
| Objects.MovieBox.ParseChild | main.go:181-190 | one case of the switch |
| Objects.MovieBox.ParseTrak | main.go:185-188 | a trak is parsed on its own and kept only when its handler's TypeName is "vide"; otherwise the movie is unchanged |
| Objects.Mp4Reader.Parse | main.go:46-75 | Size becomes the scanned size, and ftyp, moov and mdat hold the parsed last top-level box with their tags; a field with no such box keeps its old value |
| Objects.Mp4Reader.ResolveSize | main.go:47-56 | a Size of 0 becomes the file's size, and the parsed boxes are untouched |
| Objects.Mp4Reader.ParseChild | main.go:59-72 | one case of the switch; Size is unchanged |
| Objects.Open | main.go:113-124 | the reader over the file has Size equal to the file's length and holds exactly the decoded top-level boxes; each of Ftyp, Moov and Mdat is set exactly when a top-level box with its tag exists, and then points to the last such box |
| AnnexB.ReplaceLengthPrefix | main.go:614-622 | the stream is as long as the data, starts with 00 00 00 01, and agrees with the data after the first four bytes |
| AnnexB.ExtractVideoChunks | main.go:614-622 | the buffer built is the start code followed by the mdat data after its first four bytes; it needs an mdat of at least four bytes |
| AnnexB.SingleNalUnit | main.go:614-622 | mdat data holding one length-prefixed NAL unit becomes that unit behind a start code |
| AnnexB.SecondPrefixKept | main.go:614-622 | with two length-prefixed NAL units only the first prefix is replaced: the second unit's length prefix is still in the stream |

## Left out

- Reading from the operating system: `os.Open` and its error, and `os.File.Stat` and its error. The file is an immutable byte sequence given to `Open` and `Mp4Reader`. `Size` 0 becomes that sequence's length; a non-file reader, whose Size the code leaves at 0, is not modelled.
- `ReadBytesAt` errors other than reading past the end of the file are not modelled.
- The command line, `main`, `writeVideoStreamInAnnexBFormat` and the output file: these are I/O only.
- The `fmt.Println` diagnostics in the parsers: they are logging only.
- The fields of `vmhd`, `smhd` and `hmhd`: their parse methods have empty bodies, so only the box each pointer gets is modelled.
- Panics are preconditions rather than modelled failures. This covers a slice out of range, a nil `Mdia` or `Hdlr` in the movie parser, and a header read past the end of the file. Parsing with `Parse` stops being total at each of these.
- A box of size 0 makes `readBoxes` loop for ever. This is a precondition (`Scannable`), not a modelled non-termination.
- An entry count of 2^32 - 1 makes the empty entry loops in the stsz, stsc and stco parsers run for ever, because the uint32 counter wraps. This is a precondition (`EntryLoopEnds`).
- `int64` overflow of `offset += size` in `readBoxes` is not modelled: offsets are unbounded integers, and every offset stays below the file length plus 2^32, so a file shorter than 2^63 - 2^32 bytes cannot reach an overflow.
- Box size 1 (a 64-bit `largesize`), size 0 meaning "to the end of the file", and version 1 of mvhd, tkhd and mdhd are not handled by the code, so the model does not handle them either.
- Decoders.Fixed16String: `fmt.Sprintf("%v", ...)` is stated as the integer value it prints, not as its decimal digits.
- Fixed16 and Fixed32 are kept as raw integers, not as real numbers.
- AnnexB.ExtractVideoChunks: the code leaves sample extraction and per-NAL rewriting as a to-do, so only the first 4-byte prefix is replaced. The model keeps exactly that and proves no Annex-B property for data with more than one NAL unit.
- Go's aliasing of boxes is not modelled: many `*Box` pointers share one `Reader` in Go. In the model each box is a value and the reader's bytes are passed to each `Parse`.
