/** Fixed-width unsigned integers, big-endian byte decoding as done by Go's
    encoding/binary.BigEndian, the matching encoders, and the byte-to-string
    conversion Go performs with string(b) on a byte slice. */
module Bytes {

  type Byte = x: int | 0 <= x < 0x100
  type U16 = x: int | 0 <= x < 0x1_0000
  type U32 = x: int | 0 <= x < 0x1_0000_0000

  /** binary.BigEndian.Uint16: reads the first two bytes of b (the slice may be longer). */
  function BE16(b: seq<Byte>): (r: U16)
    requires |b| >= 2
  {
    b[0] as int * 0x100 + b[1] as int
  }

  /** binary.BigEndian.Uint32: reads the first four bytes of b. */
  function BE32(b: seq<Byte>): (r: U32)
    requires |b| >= 4
  {
    b[0] as int * 0x100_0000 + b[1] as int * 0x1_0000 + b[2] as int * 0x100 + b[3] as int
  }

  /** The two big-endian bytes of x. */
  function U16Bytes(x: U16): (b: seq<Byte>)
    ensures |b| == 2
  {
    [x / 0x100, x % 0x100]
  }

  /** The four big-endian bytes of x. */
  function U32Bytes(x: U32): (b: seq<Byte>)
    ensures |b| == 4
  {
    U16Bytes(x / 0x1_0000) + U16Bytes(x % 0x1_0000)
  }

  lemma BE16RoundTrip(x: U16)
    ensures BE16(U16Bytes(x)) == x
  {
  }

  lemma U16BytesOfBE16(b: seq<Byte>)
    requires |b| >= 2
    ensures U16Bytes(BE16(b)) == b[..2]
  {
  }

  /** Decoding the encoding of a 32-bit value gives the value back. */
  lemma BE32RoundTrip(x: U32)
    ensures BE32(U32Bytes(x)) == x
  {
    var b := U32Bytes(x);
    assert b[..2] == U16Bytes(x / 0x1_0000);
    assert b[2..4] == U16Bytes(x % 0x1_0000);
    BE16RoundTrip(x / 0x1_0000);
    BE16RoundTrip(x % 0x1_0000);
  }

  /** Encoding the decoded value of four bytes gives those bytes back. */
  lemma U32BytesOfBE32(b: seq<Byte>)
    requires |b| >= 4
    ensures U32Bytes(BE32(b)) == b[..4]
  {
    var hi, lo := BE16(b[..2]), BE16(b[2..4]);
    assert BE32(b) / 0x1_0000 == hi && BE32(b) % 0x1_0000 == lo;
    U16BytesOfBE16(b[..2]);
    U16BytesOfBE16(b[2..4]);
    assert b[..4] == b[..2] + b[2..4];
  }

  // ---- Strings built from bytes -------------------------------------------

  /** A string every character of which fits in one byte. */
  predicate Latin1(s: string)
  {
    forall i :: 0 <= i < |s| ==> s[i] as int < 0x100
  }

  /** Go's string(b) for a byte slice b: one character per byte. */
  function Chars(b: seq<Byte>): (s: string)
    ensures |s| == |b|
  {
    seq(|b|, i requires 0 <= i < |b| => b[i] as char)
  }

  /** The bytes of a one-byte-per-character string (each character taken
      modulo 256, which changes nothing for a Latin1 string). */
  function Octets(s: string): (b: seq<Byte>)
    ensures |b| == |s|
  {
    seq(|s|, i requires 0 <= i < |s| => s[i] as int % 0x100)
  }

  lemma OctetsOfChars(b: seq<Byte>)
    ensures Octets(Chars(b)) == b
  {
  }

  lemma CharsOfOctets(s: string)
    requires Latin1(s)
    ensures Chars(Octets(s)) == s
  {
  }

  /** The same bytes always yield the same string, and only they do. */
  lemma CharsInjective(a: seq<Byte>, b: seq<Byte>)
    requires Chars(a) == Chars(b)
    ensures a == b
  {
    OctetsOfChars(a);
    OctetsOfChars(b);
  }
}

/** The optional value used for the Go pointers that stay nil until a box with
    the right tag is seen. */
module Optional {

  datatype Option<+T> = None | Some(value: T)
}
