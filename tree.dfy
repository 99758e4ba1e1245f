/** What the container parsers of main.go build, as values.  A container
    scans its children with readBoxes and dispatches on each child's tag;
    a later child with the same tag replaces an earlier one, so each field
    holds the decoding of the LAST child with its tag (LastWith).  Each
    "...Ok" predicate says when a parser, and every parser it calls, runs
    without a Go panic: the child scan stays inside the file and ends, and
    each decoder gets enough bytes. */
module Tree {
  import opened Bytes
  import opened Optional
  import opened Boxes
  import opened Decoders

  /** A field after a parse: what the parse found, else what was there. */
  function Latest<T>(prior: Option<T>, found: Option<T>): Option<T>
  {
    if found.Some? then found else prior
  }

  /** A child box a container keeps, with what its parse made of it.  The
      value records which box each Go pointer was set to, not only its
      decoding. */
  datatype Parsed<T> = Parsed(box: Box, value: T)

  /** The box a kept child came from, if there is one. */
  function BoxOf<T>(p: Option<Parsed<T>>): Option<Box>
  {
    match p
    case None => None
    case Some(q) => Some(q.box)
  }

  /** The children of a container box, when they can be scanned. */
  predicate Scans(file: seq<Byte>, b: Box)
  {
    Scannable(file, b.start + BoxHeaderSize, b.start + b.size)
  }

  // ---- stbl (main.go:484-513) -----------------------------------------------

  datatype SampleTable = SampleTable(
    stsz: Option<Parsed<SampleSize>>, stsc: Option<Parsed<SampleToChunk>>, stco: Option<Parsed<ChunkOffset>>)
  {
    /** The fields found by a parse replace those of prior. */
    function Over(prior: SampleTable): SampleTable
    {
      SampleTable(Latest(prior.stsz, stsz), Latest(prior.stsc, stsc), Latest(prior.stco, stco))
    }
  }

  predicate StszOk(file: seq<Byte>, b: Box)
  {
    |ReadBoxData(file, b)| >= 12 && EntryLoopEnds(DecodeStsz(ReadBoxData(file, b)).sampleCount)
  }

  predicate StscOk(file: seq<Byte>, b: Box)
  {
    |ReadBoxData(file, b)| >= 8 && EntryLoopEnds(DecodeStsc(ReadBoxData(file, b)).entryCount)
  }

  predicate StcoOk(file: seq<Byte>, b: Box)
  {
    |ReadBoxData(file, b)| >= 8 && EntryLoopEnds(DecodeStco(ReadBoxData(file, b)).entryCount)
  }

  /** A child of an stbl that SampleTableBox.parse can handle. */
  predicate StblChildOk(file: seq<Byte>, c: Box)
  {
    (c.name == "stsz" ==> StszOk(file, c)) &&
    (c.name == "stsc" ==> StscOk(file, c)) &&
    (c.name == "stco" ==> StcoOk(file, c))
  }

  /** Every table child of an stbl can be parsed. */
  predicate StblEntriesOk(file: seq<Byte>, cs: seq<Box>)
  {
    forall k :: 0 <= k < |cs| ==> StblChildOk(file, cs[k])
  }

  /** The sample table a fresh SampleTableBox builds from the children cs. */
  function StblFrom(file: seq<Byte>, cs: seq<Box>): SampleTable
    requires StblEntriesOk(file, cs)
  {
    SampleTable(
      match LastWith(cs, "stsz") case None => None case Some(c) => Some(Parsed(c, DecodeStsz(ReadBoxData(file, c)))),
      match LastWith(cs, "stsc") case None => None case Some(c) => Some(Parsed(c, DecodeStsc(ReadBoxData(file, c)))),
      match LastWith(cs, "stco") case None => None case Some(c) => Some(Parsed(c, DecodeStco(ReadBoxData(file, c)))))
  }

  /** One more child: a table child replaces its field, any other child
      leaves the table as it was. */
  lemma StblFromStep(file: seq<Byte>, cs: seq<Box>, i: nat)
    requires StblEntriesOk(file, cs) && i < |cs|
    ensures StblEntriesOk(file, cs[..i]) && StblEntriesOk(file, cs[..i + 1])
    ensures StblFrom(file, cs[..i + 1]).stsz ==
              if cs[i].name == "stsz" then Some(Parsed(cs[i], DecodeStsz(ReadBoxData(file, cs[i])))) else StblFrom(file, cs[..i]).stsz
    ensures StblFrom(file, cs[..i + 1]).stsc ==
              if cs[i].name == "stsc" then Some(Parsed(cs[i], DecodeStsc(ReadBoxData(file, cs[i])))) else StblFrom(file, cs[..i]).stsc
    ensures StblFrom(file, cs[..i + 1]).stco ==
              if cs[i].name == "stco" then Some(Parsed(cs[i], DecodeStco(ReadBoxData(file, cs[i])))) else StblFrom(file, cs[..i]).stco
  {
    assert forall k :: 0 <= k <= i ==> cs[..i + 1][k] == cs[k];
    LastWithStep(cs, i, "stsz");
    LastWithStep(cs, i, "stsc");
    LastWithStep(cs, i, "stco");
  }

  /** The effect of parsing one child c on what the box holds: a table child replaces the table of its tag;
      any other child changes nothing. */
  function StblApply(t: SampleTable, file: seq<Byte>, c: Box): SampleTable
    requires StblChildOk(file, c)
  {
    if c.name == "stsz" then t.(stsz := Some(Parsed(c, DecodeStsz(ReadBoxData(file, c)))))
    else if c.name == "stsc" then t.(stsc := Some(Parsed(c, DecodeStsc(ReadBoxData(file, c)))))
    else if c.name == "stco" then t.(stco := Some(Parsed(c, DecodeStco(ReadBoxData(file, c)))))
    else t
  }

  /** Parsing the first i + 1 children applies the (i + 1)-th child to what the
      first i built, whatever the box held before (prior). */
  lemma StblOverStep(file: seq<Byte>, cs: seq<Box>, i: nat, prior: SampleTable)
    requires StblEntriesOk(file, cs) && i < |cs|
    ensures StblEntriesOk(file, cs[..i]) && StblEntriesOk(file, cs[..i + 1]) && StblChildOk(file, cs[i])
    ensures StblFrom(file, cs[..i + 1]).Over(prior) == StblApply(StblFrom(file, cs[..i]).Over(prior), file, cs[i])
  {
    StblFromStep(file, cs, i);
  }

  predicate StblOk(file: seq<Byte>, b: Box)
  {
    Scans(file, b) && StblEntriesOk(file, Children(file, b))
  }

  function StblOf(file: seq<Byte>, b: Box): SampleTable
    requires StblOk(file, b)
  {
    StblFrom(file, Children(file, b))
  }

  /** Each table comes from the last child with its tag. */
  lemma StblOfKeepsLast(file: seq<Byte>, b: Box)
    requires StblOk(file, b)
    ensures var cs, t := Children(file, b), StblOf(file, b);
            BoxOf(t.stsz) == LastWith(cs, "stsz") && BoxOf(t.stsc) == LastWith(cs, "stsc") &&
            BoxOf(t.stco) == LastWith(cs, "stco")
  {
  }

  // ---- minf (main.go:407-438) -----------------------------------------------

  /** The three media headers are kept as their boxes: their parse methods
      read nothing. */
  datatype MediaInformation = MediaInformation(
    vmhd: Option<Box>, smhd: Option<Box>, hmhd: Option<Box>, stbl: Option<Parsed<SampleTable>>)
  {
    function Over(prior: MediaInformation): MediaInformation
    {
      MediaInformation(Latest(prior.vmhd, vmhd), Latest(prior.smhd, smhd),
                       Latest(prior.hmhd, hmhd), Latest(prior.stbl, stbl))
    }
  }

  predicate MinfChildOk(file: seq<Byte>, c: Box)
  {
    c.name == "stbl" ==> StblOk(file, c)
  }

  predicate MinfEntriesOk(file: seq<Byte>, cs: seq<Box>)
  {
    forall k :: 0 <= k < |cs| ==> MinfChildOk(file, cs[k])
  }

  function MinfFrom(file: seq<Byte>, cs: seq<Box>): MediaInformation
    requires MinfEntriesOk(file, cs)
  {
    MediaInformation(LastWith(cs, "vmhd"), LastWith(cs, "smhd"), LastWith(cs, "hmhd"),
      match LastWith(cs, "stbl") case None => None case Some(c) => Some(Parsed(c, StblOf(file, c))))
  }

  lemma MinfFromStep(file: seq<Byte>, cs: seq<Box>, i: nat)
    requires MinfEntriesOk(file, cs) && i < |cs|
    ensures MinfEntriesOk(file, cs[..i]) && MinfEntriesOk(file, cs[..i + 1])
    ensures MinfFrom(file, cs[..i + 1]).vmhd == if cs[i].name == "vmhd" then Some(cs[i]) else MinfFrom(file, cs[..i]).vmhd
    ensures MinfFrom(file, cs[..i + 1]).smhd == if cs[i].name == "smhd" then Some(cs[i]) else MinfFrom(file, cs[..i]).smhd
    ensures MinfFrom(file, cs[..i + 1]).hmhd == if cs[i].name == "hmhd" then Some(cs[i]) else MinfFrom(file, cs[..i]).hmhd
    ensures MinfFrom(file, cs[..i + 1]).stbl ==
              if cs[i].name == "stbl" then Some(Parsed(cs[i], StblOf(file, cs[i]))) else MinfFrom(file, cs[..i]).stbl
  {
    assert forall k :: 0 <= k <= i ==> cs[..i + 1][k] == cs[k];
    LastWithStep(cs, i, "vmhd");
    LastWithStep(cs, i, "smhd");
    LastWithStep(cs, i, "hmhd");
    LastWithStep(cs, i, "stbl");
  }

  /** The effect of parsing one child c on what the box holds: a media header or an stbl replaces the field of its tag;
      any other child changes nothing. */
  function MinfApply(t: MediaInformation, file: seq<Byte>, c: Box): MediaInformation
    requires MinfChildOk(file, c)
  {
    if c.name == "vmhd" then t.(vmhd := Some(c))
    else if c.name == "smhd" then t.(smhd := Some(c))
    else if c.name == "hmhd" then t.(hmhd := Some(c))
    else if c.name == "stbl" then t.(stbl := Some(Parsed(c, StblOf(file, c))))
    else t
  }

  /** Parsing the first i + 1 children applies the (i + 1)-th child to what the
      first i built, whatever the box held before (prior). */
  lemma MinfOverStep(file: seq<Byte>, cs: seq<Box>, i: nat, prior: MediaInformation)
    requires MinfEntriesOk(file, cs) && i < |cs|
    ensures MinfEntriesOk(file, cs[..i]) && MinfEntriesOk(file, cs[..i + 1]) && MinfChildOk(file, cs[i])
    ensures MinfFrom(file, cs[..i + 1]).Over(prior) == MinfApply(MinfFrom(file, cs[..i]).Over(prior), file, cs[i])
  {
    MinfFromStep(file, cs, i);
  }

  predicate MinfOk(file: seq<Byte>, b: Box)
  {
    Scans(file, b) && MinfEntriesOk(file, Children(file, b))
  }

  function MinfOf(file: seq<Byte>, b: Box): MediaInformation
    requires MinfOk(file, b)
  {
    MinfFrom(file, Children(file, b))
  }

  /** Each media header and the sample table come from the last child with their tag. */
  lemma MinfOfKeepsLast(file: seq<Byte>, b: Box)
    requires MinfOk(file, b)
    ensures var cs, t := Children(file, b), MinfOf(file, b);
            t.vmhd == LastWith(cs, "vmhd") && t.smhd == LastWith(cs, "smhd") &&
            t.hmhd == LastWith(cs, "hmhd") && BoxOf(t.stbl) == LastWith(cs, "stbl")
  {
  }

  // ---- mdia (main.go:308-340) -----------------------------------------------

  datatype Media = Media(
    mdhd: Option<Parsed<MediaHeader>>, hdlr: Option<Parsed<Handler>>, minf: Option<Parsed<MediaInformation>>)
  {
    function Over(prior: Media): Media
    {
      Media(Latest(prior.mdhd, mdhd), Latest(prior.hdlr, hdlr), Latest(prior.minf, minf))
    }
  }

  predicate MdiaChildOk(file: seq<Byte>, c: Box)
  {
    (c.name == "mdhd" ==> |ReadBoxData(file, c)| >= 21) &&
    (c.name == "hdlr" ==> |ReadBoxData(file, c)| >= 12) &&
    (c.name == "minf" ==> MinfOk(file, c))
  }

  predicate MdiaEntriesOk(file: seq<Byte>, cs: seq<Box>)
  {
    forall k :: 0 <= k < |cs| ==> MdiaChildOk(file, cs[k])
  }

  function MdiaFrom(file: seq<Byte>, cs: seq<Box>): Media
    requires MdiaEntriesOk(file, cs)
  {
    Media(
      match LastWith(cs, "mdhd") case None => None case Some(c) => Some(Parsed(c, DecodeMdhd(ReadBoxData(file, c)))),
      match LastWith(cs, "hdlr") case None => None case Some(c) => Some(Parsed(c, DecodeHdlr(ReadBoxData(file, c)))),
      match LastWith(cs, "minf") case None => None case Some(c) => Some(Parsed(c, MinfOf(file, c))))
  }

  lemma MdiaFromStep(file: seq<Byte>, cs: seq<Box>, i: nat)
    requires MdiaEntriesOk(file, cs) && i < |cs|
    ensures MdiaEntriesOk(file, cs[..i]) && MdiaEntriesOk(file, cs[..i + 1])
    ensures MdiaFrom(file, cs[..i + 1]).mdhd ==
              if cs[i].name == "mdhd" then Some(Parsed(cs[i], DecodeMdhd(ReadBoxData(file, cs[i])))) else MdiaFrom(file, cs[..i]).mdhd
    ensures MdiaFrom(file, cs[..i + 1]).hdlr ==
              if cs[i].name == "hdlr" then Some(Parsed(cs[i], DecodeHdlr(ReadBoxData(file, cs[i])))) else MdiaFrom(file, cs[..i]).hdlr
    ensures MdiaFrom(file, cs[..i + 1]).minf ==
              if cs[i].name == "minf" then Some(Parsed(cs[i], MinfOf(file, cs[i]))) else MdiaFrom(file, cs[..i]).minf
  {
    assert forall k :: 0 <= k <= i ==> cs[..i + 1][k] == cs[k];
    LastWithStep(cs, i, "mdhd");
    LastWithStep(cs, i, "hdlr");
    LastWithStep(cs, i, "minf");
  }

  /** The effect of parsing one child c on what the box holds: an mdhd, hdlr or minf replaces the field of its tag;
      any other child changes nothing. */
  function MdiaApply(t: Media, file: seq<Byte>, c: Box): Media
    requires MdiaChildOk(file, c)
  {
    if c.name == "mdhd" then t.(mdhd := Some(Parsed(c, DecodeMdhd(ReadBoxData(file, c)))))
    else if c.name == "hdlr" then t.(hdlr := Some(Parsed(c, DecodeHdlr(ReadBoxData(file, c)))))
    else if c.name == "minf" then t.(minf := Some(Parsed(c, MinfOf(file, c))))
    else t
  }

  /** Parsing the first i + 1 children applies the (i + 1)-th child to what the
      first i built, whatever the box held before (prior). */
  lemma MdiaOverStep(file: seq<Byte>, cs: seq<Box>, i: nat, prior: Media)
    requires MdiaEntriesOk(file, cs) && i < |cs|
    ensures MdiaEntriesOk(file, cs[..i]) && MdiaEntriesOk(file, cs[..i + 1]) && MdiaChildOk(file, cs[i])
    ensures MdiaFrom(file, cs[..i + 1]).Over(prior) == MdiaApply(MdiaFrom(file, cs[..i]).Over(prior), file, cs[i])
  {
    MdiaFromStep(file, cs, i);
  }

  predicate MdiaOk(file: seq<Byte>, b: Box)
  {
    Scans(file, b) && MdiaEntriesOk(file, Children(file, b))
  }

  function MdiaOf(file: seq<Byte>, b: Box): Media
    requires MdiaOk(file, b)
  {
    MdiaFrom(file, Children(file, b))
  }

  /** The mdhd, hdlr and minf come from the last child with their tag. */
  lemma MdiaOfKeepsLast(file: seq<Byte>, b: Box)
    requires MdiaOk(file, b)
    ensures var cs, t := Children(file, b), MdiaOf(file, b);
            BoxOf(t.mdhd) == LastWith(cs, "mdhd") && BoxOf(t.hdlr) == LastWith(cs, "hdlr") &&
            BoxOf(t.minf) == LastWith(cs, "minf")
  {
  }

  // ---- trak (main.go:196-260) -----------------------------------------------

  datatype Track = Track(tkhd: Option<Parsed<TrackHeader>>, mdia: Option<Parsed<Media>>)
  {
    function Over(prior: Track): Track
    {
      Track(Latest(prior.tkhd, tkhd), Latest(prior.mdia, mdia))
    }

    /** The movie parser reads trak.Mdia.Hdlr.TypeName: both must exist. */
    predicate HasHandler()
    {
      mdia.Some? && mdia.value.value.hdlr.Some?
    }

    predicate IsVideo()
      requires HasHandler()
    {
      mdia.value.value.hdlr.value.value.typeName == "vide"
    }
  }

  predicate TrakChildOk(file: seq<Byte>, c: Box)
  {
    (c.name == "tkhd" ==> |ReadBoxData(file, c)| >= 84) &&
    (c.name == "mdia" ==> MdiaOk(file, c))
  }

  predicate TrakEntriesOk(file: seq<Byte>, cs: seq<Box>)
  {
    forall k :: 0 <= k < |cs| ==> TrakChildOk(file, cs[k])
  }

  function TrakFrom(file: seq<Byte>, cs: seq<Box>): Track
    requires TrakEntriesOk(file, cs)
  {
    Track(
      match LastWith(cs, "tkhd") case None => None case Some(c) => Some(Parsed(c, DecodeTkhd(ReadBoxData(file, c)))),
      match LastWith(cs, "mdia") case None => None case Some(c) => Some(Parsed(c, MdiaOf(file, c))))
  }

  lemma TrakFromStep(file: seq<Byte>, cs: seq<Box>, i: nat)
    requires TrakEntriesOk(file, cs) && i < |cs|
    ensures TrakEntriesOk(file, cs[..i]) && TrakEntriesOk(file, cs[..i + 1])
    ensures TrakFrom(file, cs[..i + 1]).tkhd ==
              if cs[i].name == "tkhd" then Some(Parsed(cs[i], DecodeTkhd(ReadBoxData(file, cs[i])))) else TrakFrom(file, cs[..i]).tkhd
    ensures TrakFrom(file, cs[..i + 1]).mdia ==
              if cs[i].name == "mdia" then Some(Parsed(cs[i], MdiaOf(file, cs[i]))) else TrakFrom(file, cs[..i]).mdia
  {
    assert forall k :: 0 <= k <= i ==> cs[..i + 1][k] == cs[k];
    LastWithStep(cs, i, "tkhd");
    LastWithStep(cs, i, "mdia");
  }

  /** The effect of parsing one child c on what the box holds: a tkhd or mdia replaces the field of its tag;
      any other child changes nothing. */
  function TrakApply(t: Track, file: seq<Byte>, c: Box): Track
    requires TrakChildOk(file, c)
  {
    if c.name == "tkhd" then t.(tkhd := Some(Parsed(c, DecodeTkhd(ReadBoxData(file, c)))))
    else if c.name == "mdia" then t.(mdia := Some(Parsed(c, MdiaOf(file, c))))
    else t
  }

  /** Parsing the first i + 1 children applies the (i + 1)-th child to what the
      first i built, whatever the box held before (prior). */
  lemma TrakOverStep(file: seq<Byte>, cs: seq<Box>, i: nat, prior: Track)
    requires TrakEntriesOk(file, cs) && i < |cs|
    ensures TrakEntriesOk(file, cs[..i]) && TrakEntriesOk(file, cs[..i + 1]) && TrakChildOk(file, cs[i])
    ensures TrakFrom(file, cs[..i + 1]).Over(prior) == TrakApply(TrakFrom(file, cs[..i]).Over(prior), file, cs[i])
  {
    TrakFromStep(file, cs, i);
  }

  predicate TrakOk(file: seq<Byte>, b: Box)
  {
    Scans(file, b) && TrakEntriesOk(file, Children(file, b))
  }

  /** What parseTrack returns for the box b. */
  function TrakOf(file: seq<Byte>, b: Box): Track
    requires TrakOk(file, b)
  {
    TrakFrom(file, Children(file, b))
  }

  /** The tkhd and mdia come from the last child with their tag. */
  lemma TrakOfKeepsLast(file: seq<Byte>, b: Box)
    requires TrakOk(file, b)
    ensures var cs, t := Children(file, b), TrakOf(file, b);
            BoxOf(t.tkhd) == LastWith(cs, "tkhd") && BoxOf(t.mdia) == LastWith(cs, "mdia")
  {
  }

  // ---- moov (main.go:170-205) -----------------------------------------------

  datatype Movie = Movie(mvhd: Option<Parsed<MovieHeader>>, trak: Option<Parsed<Track>>)
  {
    function Over(prior: Movie): Movie
    {
      Movie(Latest(prior.mvhd, mvhd), Latest(prior.trak, trak))
    }
  }

  /** A trak box the "vide" test can be applied to: it parses, and the
      parsed track has a media box with a handler. */
  predicate VideoTestOk(file: seq<Byte>, b: Box)
  {
    TrakOk(file, b) && TrakOf(file, b).HasHandler()
  }

  predicate MoovChildOk(file: seq<Byte>, c: Box)
  {
    (c.name == "mvhd" ==> |ReadBoxData(file, c)| >= 26) &&
    (c.name == "trak" ==> VideoTestOk(file, c))
  }

  predicate MoovEntriesOk(file: seq<Byte>, cs: seq<Box>)
  {
    forall k :: 0 <= k < |cs| ==> MoovChildOk(file, cs[k])
  }

  /** A trak child the movie parser keeps: its handler type is "vide". */
  predicate IsVideoTrak(file: seq<Byte>, b: Box)
  {
    b.name == "trak" && VideoTestOk(file, b) && TrakOf(file, b).IsVideo()
  }

  /** The last trak child whose handler is "vide". */
  function LastVideoTrak(file: seq<Byte>, cs: seq<Box>): (r: Option<Box>)
    ensures r.Some? ==> r.value in cs && IsVideoTrak(file, r.value)
    ensures r.None? <==> forall b :: b in cs ==> !IsVideoTrak(file, b)
  {
    if cs == [] then None
    else if IsVideoTrak(file, cs[|cs| - 1]) then Some(cs[|cs| - 1])
    else
      var r := LastVideoTrak(file, cs[..|cs| - 1]);
      assert forall b :: b in cs ==> b in cs[..|cs| - 1] || b == cs[|cs| - 1];
      r
  }

  lemma LastVideoTrakStep(file: seq<Byte>, cs: seq<Box>, i: nat)
    requires i < |cs|
    ensures LastVideoTrak(file, cs[..i + 1]) ==
              if IsVideoTrak(file, cs[i]) then Some(cs[i]) else LastVideoTrak(file, cs[..i])
  {
    var s := cs[..i + 1];
    assert s != [] && s[|s| - 1] == cs[i] && s[..|s| - 1] == cs[..i];
    assert LastVideoTrak(file, s) ==
             if IsVideoTrak(file, s[|s| - 1]) then Some(s[|s| - 1]) else LastVideoTrak(file, s[..|s| - 1]);
  }

  /** The track a movie keeps from the children cs: the last video trak, parsed. */
  function KeptTrak(file: seq<Byte>, cs: seq<Box>): Option<Parsed<Track>>
  {
    match LastVideoTrak(file, cs) case None => None case Some(c) => Some(Parsed(c, TrakOf(file, c)))
  }

  lemma KeptTrakStep(file: seq<Byte>, cs: seq<Box>, i: nat)
    requires i < |cs|
    ensures KeptTrak(file, cs[..i + 1]) ==
              if IsVideoTrak(file, cs[i]) then Some(Parsed(cs[i], TrakOf(file, cs[i]))) else KeptTrak(file, cs[..i])
  {
    LastVideoTrakStep(file, cs, i);
  }

  function MoovFrom(file: seq<Byte>, cs: seq<Box>): Movie
    requires MoovEntriesOk(file, cs)
  {
    Movie(
      match LastWith(cs, "mvhd") case None => None case Some(c) => Some(Parsed(c, DecodeMvhd(ReadBoxData(file, c)))),
      KeptTrak(file, cs))
  }

  lemma MoovFromStep(file: seq<Byte>, cs: seq<Box>, i: nat)
    requires MoovEntriesOk(file, cs) && i < |cs|
    ensures MoovEntriesOk(file, cs[..i]) && MoovEntriesOk(file, cs[..i + 1])
    ensures MoovFrom(file, cs[..i + 1]).mvhd ==
              if cs[i].name == "mvhd" then Some(Parsed(cs[i], DecodeMvhd(ReadBoxData(file, cs[i])))) else MoovFrom(file, cs[..i]).mvhd
    ensures MoovFrom(file, cs[..i + 1]).trak ==
              if IsVideoTrak(file, cs[i]) then Some(Parsed(cs[i], TrakOf(file, cs[i]))) else MoovFrom(file, cs[..i]).trak
  {
    assert forall k :: 0 <= k <= i ==> cs[..i + 1][k] == cs[k];
    LastWithStep(cs, i, "mvhd");
    KeptTrakStep(file, cs, i);
  }

  /** The effect of parsing one child c on what the box holds: an mvhd replaces the header, a video trak replaces the track, and
      a trak of any other handler is dropped;
      any other child changes nothing. */
  function MoovApply(t: Movie, file: seq<Byte>, c: Box): Movie
    requires MoovChildOk(file, c)
  {
    if c.name == "mvhd" then t.(mvhd := Some(Parsed(c, DecodeMvhd(ReadBoxData(file, c)))))
    else if IsVideoTrak(file, c) then t.(trak := Some(Parsed(c, TrakOf(file, c))))
    else t
  }

  /** Parsing the first i + 1 children applies the (i + 1)-th child to what the
      first i built, whatever the box held before (prior). */
  lemma MoovOverStep(file: seq<Byte>, cs: seq<Box>, i: nat, prior: Movie)
    requires MoovEntriesOk(file, cs) && i < |cs|
    ensures MoovEntriesOk(file, cs[..i]) && MoovEntriesOk(file, cs[..i + 1]) && MoovChildOk(file, cs[i])
    ensures MoovFrom(file, cs[..i + 1]).Over(prior) == MoovApply(MoovFrom(file, cs[..i]).Over(prior), file, cs[i])
  {
    MoovFromStep(file, cs, i);
  }

  predicate MoovOk(file: seq<Byte>, b: Box)
  {
    Scans(file, b) && MoovEntriesOk(file, Children(file, b))
  }

  function MoovOf(file: seq<Byte>, b: Box): Movie
    requires MoovOk(file, b)
  {
    MoovFrom(file, Children(file, b))
  }

  /** The mvhd comes from the last mvhd child, the track from the last trak
      child whose handler is "vide". */
  lemma MoovOfKeepsLast(file: seq<Byte>, b: Box)
    requires MoovOk(file, b)
    ensures var cs, t := Children(file, b), MoovOf(file, b);
            BoxOf(t.mvhd) == LastWith(cs, "mvhd") && BoxOf(t.trak) == LastVideoTrak(file, cs)
  {
  }

  // ---- The file (main.go:37-76) ------------------------------------------------

  datatype File = File(ftyp: Option<Parsed<FileType>>, moov: Option<Parsed<Movie>>, mdat: Option<Parsed<seq<Byte>>>)
  {
    function Over(prior: File): File
    {
      File(Latest(prior.ftyp, ftyp), Latest(prior.moov, moov), Latest(prior.mdat, mdat))
    }
  }

  predicate FileChildOk(file: seq<Byte>, c: Box)
  {
    (c.name == "ftyp" ==> FtypLayout(ReadBoxData(file, c))) &&
    (c.name == "moov" ==> MoovOk(file, c))
  }

  predicate FileEntriesOk(file: seq<Byte>, cs: seq<Box>)
  {
    forall k :: 0 <= k < |cs| ==> FileChildOk(file, cs[k])
  }

  function FileFrom(file: seq<Byte>, cs: seq<Box>): File
    requires FileEntriesOk(file, cs)
  {
    File(
      match LastWith(cs, "ftyp") case None => None case Some(c) => Some(Parsed(c, DecodeFtyp(ReadBoxData(file, c)))),
      match LastWith(cs, "moov") case None => None case Some(c) => Some(Parsed(c, MoovOf(file, c))),
      match LastWith(cs, "mdat") case None => None case Some(c) => Some(Parsed(c, ReadBoxData(file, c))))
  }

  lemma FileFromStep(file: seq<Byte>, cs: seq<Box>, i: nat)
    requires FileEntriesOk(file, cs) && i < |cs|
    ensures FileEntriesOk(file, cs[..i]) && FileEntriesOk(file, cs[..i + 1])
    ensures FileFrom(file, cs[..i + 1]).ftyp ==
              if cs[i].name == "ftyp" then Some(Parsed(cs[i], DecodeFtyp(ReadBoxData(file, cs[i])))) else FileFrom(file, cs[..i]).ftyp
    ensures FileFrom(file, cs[..i + 1]).moov ==
              if cs[i].name == "moov" then Some(Parsed(cs[i], MoovOf(file, cs[i]))) else FileFrom(file, cs[..i]).moov
    ensures FileFrom(file, cs[..i + 1]).mdat ==
              if cs[i].name == "mdat" then Some(Parsed(cs[i], ReadBoxData(file, cs[i]))) else FileFrom(file, cs[..i]).mdat
  {
    assert forall k :: 0 <= k <= i ==> cs[..i + 1][k] == cs[k];
    LastWithStep(cs, i, "ftyp");
    LastWithStep(cs, i, "moov");
    LastWithStep(cs, i, "mdat");
  }

  /** The effect of parsing one child c on what the box holds: an ftyp, moov or mdat replaces the field of its tag;
      any other child changes nothing. */
  function FileApply(t: File, file: seq<Byte>, c: Box): File
    requires FileChildOk(file, c)
  {
    if c.name == "ftyp" then t.(ftyp := Some(Parsed(c, DecodeFtyp(ReadBoxData(file, c)))))
    else if c.name == "moov" then t.(moov := Some(Parsed(c, MoovOf(file, c))))
    else if c.name == "mdat" then t.(mdat := Some(Parsed(c, ReadBoxData(file, c))))
    else t
  }

  /** Parsing the first i + 1 children applies the (i + 1)-th child to what the
      first i built, whatever the box held before (prior). */
  lemma FileOverStep(file: seq<Byte>, cs: seq<Box>, i: nat, prior: File)
    requires FileEntriesOk(file, cs) && i < |cs|
    ensures FileEntriesOk(file, cs[..i]) && FileEntriesOk(file, cs[..i + 1]) && FileChildOk(file, cs[i])
    ensures FileFrom(file, cs[..i + 1]).Over(prior) == FileApply(FileFrom(file, cs[..i]).Over(prior), file, cs[i])
  {
    FileFromStep(file, cs, i);
  }

  /** The number of bytes Mp4Reader.Parse scans: a Size of 0 is replaced by
      the size of the file. */
  function ScanSize(file: seq<Byte>, size: int): (n: int)
    ensures size != 0 ==> n == size
    ensures size == 0 ==> n == |file|
  {
    if size == 0 then |file| else size
  }

  /** Mp4Reader.Parse runs without a panic on this file when its Size is size. */
  predicate ReaderOk(file: seq<Byte>, size: int)
  {
    Scannable(file, 0, ScanSize(file, size)) && FileEntriesOk(file, Scan(file, 0, ScanSize(file, size)))
  }

  function FileOf(file: seq<Byte>, size: int): File
    requires ReaderOk(file, size)
  {
    FileFrom(file, Scan(file, 0, ScanSize(file, size)))
  }

  /** The boxes a parsed file keeps: an ftyp, moov or mdat is kept exactly
      when the top level has a box with that tag, and it is the last such
      box, parsed as a moov (whose track MoovOfKeepsLast describes). */
  lemma FileOfKeepsLast(file: seq<Byte>, size: int)
    requires ReaderOk(file, size)
    ensures var top, f := Scan(file, 0, ScanSize(file, size)), FileOf(file, size);
            BoxOf(f.ftyp) == LastWith(top, "ftyp") &&
            BoxOf(f.moov) == LastWith(top, "moov") &&
            BoxOf(f.mdat) == LastWith(top, "mdat")
    ensures var f := FileOf(file, size);
            f.moov.Some? ==>
              MoovOk(file, f.moov.value.box) && f.moov.value.value == MoovOf(file, f.moov.value.box)
  {
    var top := Scan(file, 0, ScanSize(file, size));
    FileFromKeepsLast(file, top);
  }

  lemma FileFromKeepsLast(file: seq<Byte>, cs: seq<Box>)
    requires FileEntriesOk(file, cs)
    ensures var f := FileFrom(file, cs);
            BoxOf(f.ftyp) == LastWith(cs, "ftyp") &&
            BoxOf(f.moov) == LastWith(cs, "moov") &&
            BoxOf(f.mdat) == LastWith(cs, "mdat")
    ensures LastWith(cs, "moov").Some? ==>
              var c := LastWith(cs, "moov").value;
              MoovOk(file, c) && FileFrom(file, cs).moov == Some(Parsed(c, MoovOf(file, c)))
  {
  }
}
