/** extractVideoChunks (main.go:614-622): the media data of the mdat box with
    its first four bytes replaced by the Annex-B start code 00 00 00 01.  In
    an MP4 sample each NAL unit is preceded by its 4-byte big-endian length;
    the function rewrites only the first of those prefixes. */
module AnnexB {
  import opened Bytes
  import opened Objects

  /** The Annex-B start code the output buffer is created with. */
  const StartCode: seq<Byte> := [0, 0, 0, 1]

  /** The stream built from mdat data: the start code, then every byte of the
      data after its first four. */
  function ReplaceLengthPrefix(data: seq<Byte>): (stream: seq<Byte>)
    requires |data| >= 4
    ensures |stream| == |data|
    ensures stream[..4] == StartCode
    ensures forall k :: 4 <= k < |data| ==> stream[k] == data[k]
  {
    StartCode + data[4..]
  }

  /** The buffer starts as the start code and the data after the first four
      bytes is written to it.  Go panics when there is no mdat box or its
      data is shorter than four bytes. */
  method ExtractVideoChunks(mp4: Mp4Reader) returns (stream: seq<Byte>)
    requires mp4.mdat != null && |mp4.mdat.data| >= 4
    ensures stream == ReplaceLengthPrefix(mp4.mdat.data)
  {
    var chunks := [0, 0, 0, 1];
    chunks := chunks + mp4.mdat.data[4..];
    stream := chunks;
  }

  /** Mdat data holding a single length-prefixed NAL unit becomes that NAL
      unit in Annex-B form. */
  lemma SingleNalUnit(nal: seq<Byte>)
    requires |nal| < 0x1_0000_0000
    ensures ReplaceLengthPrefix(U32Bytes(|nal|) + nal) == StartCode + nal
  {
    assert (U32Bytes(|nal|) + nal)[4..] == nal;
  }

  /** With two length-prefixed NAL units only the first prefix is replaced:
      the second unit's length prefix is still in the stream, just after the
      first unit. */
  lemma SecondPrefixKept(a: seq<Byte>, b: seq<Byte>)
    requires |a| < 0x1_0000_0000 && |b| < 0x1_0000_0000
    ensures var stream := ReplaceLengthPrefix(U32Bytes(|a|) + a + U32Bytes(|b|) + b);
            stream == StartCode + a + U32Bytes(|b|) + b &&
            stream[4 + |a|..8 + |a|] == U32Bytes(|b|)
  {
    var data := U32Bytes(|a|) + a + U32Bytes(|b|) + b;
    assert data[4..] == a + U32Bytes(|b|) + b;
    assert (StartCode + a + U32Bytes(|b|) + b)[4 + |a|..8 + |a|] == U32Bytes(|b|);
  }
}
