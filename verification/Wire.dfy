/** Bytes, little-endian integers and the packed package header.
    The header is copied to and from the socket as raw memory, so its layout is part of the
    protocol: packed fields, two's complement, least significant byte first. */
module Wire {

  type byte = b: int | 0 <= b < 256

  const SIZE_T_SPAN := 0x1_0000_0000_0000_0000 // Values of `size_t`.

  /** Stock optional value, used where the source returns a nullable pointer. */
  datatype Option<+T> = None | Some(value: T)

  // ---------------------------------------------------------------- integers

  /** The `width` low bytes of `n`, least significant first. Division rounds down, so a negative
      `n` is written in two's complement. */
  function EncodeInt(n: int, width: nat): (s: seq<byte>)
    ensures |s| == width
    decreases width
  {
    if width == 0 then [] else [n % 256] + EncodeInt(n / 256, width - 1)
  }

  function DecodeUnsigned(s: seq<byte>): nat
  {
    if s == [] then 0 else s[0] + 256 * DecodeUnsigned(s[1..])
  }

  function DecodeSigned(s: seq<byte>): int
    requires s != []
  {
    if |s| == 1 then (if s[0] < 128 then s[0] else s[0] - 256)
    else s[0] + 256 * DecodeSigned(s[1..])
  }

  /** Number of values of `width` bytes. */
  function Span(width: nat): (r: nat)
    ensures r > 0
  {
    if width == 0 then 1 else 256 * Span(width - 1)
  }

  predicate FitsUnsigned(n: int, width: nat) {
    0 <= n < Span(width)
  }

  predicate FitsSigned(n: int, width: nat)
    requires width > 0
  {
    -128 * Span(width - 1) <= n < 128 * Span(width - 1)
  }

  lemma {:induction false} UnsignedRoundTrip(n: int, width: nat)
    requires FitsUnsigned(n, width)
    ensures DecodeUnsigned(EncodeInt(n, width)) == n
    decreases width
  {
    if width > 0 {
      assert EncodeInt(n, width)[1..] == EncodeInt(n / 256, width - 1);
      UnsignedRoundTrip(n / 256, width - 1);
    }
  }

  lemma {:induction false} SignedRoundTrip(n: int, width: nat)
    requires width > 0 && FitsSigned(n, width)
    ensures DecodeSigned(EncodeInt(n, width)) == n
    decreases width
  {
    assert EncodeInt(n, width)[1..] == EncodeInt(n / 256, width - 1);
    if width > 1 {
      SignedRoundTrip(n / 256, width - 1);
    }
  }

  lemma SpanValues()
    ensures Span(1) == 0x100 && Span(2) == 0x1_0000 && Span(3) == 0x100_0000 && Span(4) == 0x1_0000_0000
    ensures Span(7) == 0x100_0000_0000_0000 && Span(8) == 0x1_0000_0000_0000_0000
  {
    assert Span(1) == 256 * Span(0);
    assert Span(2) == 256 * Span(1);
    assert Span(3) == 256 * Span(2);
    assert Span(4) == 256 * Span(3);
    assert Span(5) == 256 * Span(4);
    assert Span(6) == 256 * Span(5);
    assert Span(7) == 256 * Span(6);
    assert Span(8) == 256 * Span(7);
  }

  // ------------------------------------------------------------------ header

  const PACKAGE_VERSION := 2
  const BASE_HEADER_LEN := 10
  const HEADER_LEN := 18
  const MAX_CONTENT_LEN := 65518 // 65536 bytes of buffer minus the header.

  datatype Header = Header(version: int, command: int, contentLength: int, selfId: int, triggerId: int)

  predicate HeaderFits(h: Header) {
    && FitsSigned(h.version, 2) && FitsSigned(h.command, 4) && FitsSigned(h.contentLength, 4)
    && FitsSigned(h.selfId, 4) && FitsSigned(h.triggerId, 4)
  }

  function EncodeHeader(h: Header): (s: seq<byte>)
    ensures |s| == HEADER_LEN
  {
    EncodeBase(h) + EncodeExtend(h)
  }

  function EncodeBase(h: Header): (s: seq<byte>)
    ensures |s| == BASE_HEADER_LEN
  {
    EncodeInt(h.version, 2) + EncodeInt(h.command, 4) + EncodeInt(h.contentLength, 4)
  }

  function EncodeExtend(h: Header): (s: seq<byte>)
    ensures |s| == HEADER_LEN - BASE_HEADER_LEN
  {
    EncodeInt(h.selfId, 4) + EncodeInt(h.triggerId, 4)
  }

  function HeaderVersion(s: seq<byte>): int
    requires |s| >= BASE_HEADER_LEN
  {
    DecodeSigned(s[0..2])
  }

  function HeaderCommand(s: seq<byte>): int
    requires |s| >= BASE_HEADER_LEN
  {
    DecodeSigned(s[2..6])
  }

  function DecodeHeader(s: seq<byte>): Header
    requires |s| >= HEADER_LEN
  {
    Header(HeaderVersion(s), HeaderCommand(s),
           DecodeSigned(s[6..10]), DecodeSigned(s[10..14]), DecodeSigned(s[14..18]))
  }

  /** The base part of a header does not depend on what follows it. */
  lemma HeaderPrefix(s: seq<byte>, tail: seq<byte>)
    requires |s| >= BASE_HEADER_LEN
    ensures HeaderVersion(s + tail) == HeaderVersion(s)
    ensures HeaderCommand(s + tail) == HeaderCommand(s)
    ensures |s| >= HEADER_LEN ==> DecodeHeader(s + tail) == DecodeHeader(s)
  {
    assert (s + tail)[0..2] == s[0..2];
    assert (s + tail)[2..6] == s[2..6];
    if |s| >= HEADER_LEN {
      assert (s + tail)[6..10] == s[6..10];
      assert (s + tail)[10..14] == s[10..14];
      assert (s + tail)[14..18] == s[14..18];
    }
  }

  lemma BaseRoundTrip(h: Header)
    requires HeaderFits(h)
    ensures HeaderVersion(EncodeBase(h)) == h.version && HeaderCommand(EncodeBase(h)) == h.command
    ensures DecodeSigned(EncodeBase(h)[6..10]) == h.contentLength
  {
    var s := EncodeBase(h);
    assert s[0..2] == EncodeInt(h.version, 2);
    assert s[2..6] == EncodeInt(h.command, 4);
    assert s[6..10] == EncodeInt(h.contentLength, 4);
    SignedRoundTrip(h.version, 2);
    SignedRoundTrip(h.command, 4);
    SignedRoundTrip(h.contentLength, 4);
  }

  lemma ExtendRoundTrip(h: Header)
    requires HeaderFits(h)
    ensures DecodeSigned(EncodeExtend(h)[0..4]) == h.selfId && DecodeSigned(EncodeExtend(h)[4..8]) == h.triggerId
  {
    var s := EncodeExtend(h);
    assert s[0..4] == EncodeInt(h.selfId, 4);
    assert s[4..8] == EncodeInt(h.triggerId, 4);
    SignedRoundTrip(h.selfId, 4);
    SignedRoundTrip(h.triggerId, 4);
  }

  /** Any header whose fields fit their widths is read back from its image. */
  lemma HeaderRoundTrip(h: Header, tail: seq<byte>)
    requires HeaderFits(h)
    ensures DecodeHeader(EncodeHeader(h) + tail) == h
  {
    var base, extend, s := EncodeBase(h), EncodeExtend(h), EncodeHeader(h);
    BaseRoundTrip(h);
    ExtendRoundTrip(h);
    HeaderPrefix(base, extend);
    assert s[6..10] == base[6..10];
    assert s[10..14] == extend[0..4];
    assert s[14..18] == extend[4..8];
    HeaderPrefix(s, tail);
  }
}
