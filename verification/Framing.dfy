/** Framing against a one-shot parse. Once an endpoint has settled into plain or encrypted mode,
    the packages it completes from any bytes, however they arrive, are those a single pass over
    the whole input finds, and what it keeps is the unparsed tail. */
module Framing {
  import opened Wire
  import opened Aes
  import opened Packages
  import opened Session

  /** What is left after the complete packages: an incomplete one, something the endpoint closes
      on (wrong version, content too long for the buffer, a late security setting) and what it writes
      then, or a length outside the supported range. */
  datatype Rest = Incomplete(tail: seq<byte>) | Rejected(answer: seq<byte>) | Unsupported

  datatype Parsed = Parsed(packages: seq<Packet>, rest: Rest)

  /** One pass over `s`. `secure` selects the padded content lengths. */
  function Parse(secure: bool, s: seq<byte>): Parsed {
    if |s| >= BASE_HEADER_LEN && HeaderVersion(s) != PACKAGE_VERSION then
      Parsed([], Rejected(if HeaderCommand(s) == NTF_INVALID_VERSION then [] else ControlImage(NTF_INVALID_VERSION, [])))
    else if |s| < HEADER_LEN then Parsed([], Incomplete(s))
    else
      var h := DecodeHeader(s);
      var need := Need(secure, h.contentLength);
      if !(0 <= need < INT_SPAN_HALF) then Parsed([], Unsupported)
      else if need > MAX_CONTENT_LEN then Parsed([], Rejected([]))
      else if |s| < HEADER_LEN + need then Parsed([], Incomplete(s))
      else if h.command == NTF_SECURITY_SETTING then Parsed([], Rejected([]))
      else
        var later := Parse(secure, s[HEADER_LEN + need..]);
        later.(packages := [Packet(h, s[HEADER_LEN..HEADER_LEN + need])] + later.packages)
  }

  /** The endpoint has left the opening phase and, if security is on, the key exchange. */
  predicate Settled(c: Conn) {
    Live(c) && !c.opening && (c.secure.Some? ==> c.secure.value.started)
  }

  /** A framed package as the worker sees it: the content itself, or its decryption. */
  function Delivery(env: Env, c: Conn, p: Packet): Packet {
    if c.secure.Some?
    then Packet(p.header, Take(env.cipher.Decrypt(c.secure.value.key, p.content), p.header.contentLength))
    else p
  }

  function Deliveries(env: Env, c: Conn, ps: seq<Packet>): seq<Packet> {
    seq(|ps|, i requires 0 <= i < |ps| => Delivery(env, c, ps[i]))
  }

  predicate Agrees(env: Env, c: Conn, r: Conn, parsed: Parsed) {
    var expected := c.delivered + Deliveries(env, c, parsed.packages);
    match parsed.rest
    case Incomplete(tail) => r == c.(partial := tail, delivered := expected)
    case Rejected(answer) => r.shut && r.delivered == expected && r.wire == c.wire + answer
    case Unsupported => r.broken && !r.shut && r.delivered == expected && r.wire == c.wire
  }

  /** Agreement on the rest, seen from before the package that was completed first. */
  lemma AgreesEarlier(env: Env, c: Conn, c1: Conn, r: Conn, first: Packet, later: Parsed)
    requires c1 == c.(partial := [], delivered := c.delivered + [Delivery(env, c, first)])
    requires Agrees(env, c1, r, later)
    ensures Agrees(env, c, r, later.(packages := [first] + later.packages))
  {
    var all := [first] + later.packages;
    assert Deliveries(env, c, all) == [Delivery(env, c, first)] + Deliveries(env, c1, later.packages);
    assert c.delivered + Deliveries(env, c, all) == c1.delivered + Deliveries(env, c1, later.packages);
  }

  /** A settled endpoint delivers a completed package, unless it is a security setting. */
  lemma Completed(env: Env, c: Conn, h: Header, payload: seq<byte>)
    requires Settled(c)
    ensures h.command != NTF_SECURITY_SETTING && Need(c.secure.Some?, h.contentLength) == |payload| ==>
              Complete(env, c.(partial := []), h, payload)
              == c.(partial := [], delivered := c.delivered + [Delivery(env, c, Packet(h, payload))])
    ensures h.command == NTF_SECURITY_SETTING ==> Complete(env, c.(partial := []), h, payload) == Shut(c)
  {
  }

  /** A header announcing -15 to -1 is a whole package on a settled secure connection: it is
      delivered with an empty content. */
  lemma SmallNegativeIsEmpty(env: Env, c: Conn, h: Header)
    requires Settled(c) && c.secure.Some? && c.partial == []
    requires HeaderFits(h) && h.version == PACKAGE_VERSION && h.command != NTF_SECURITY_SETTING
    requires -BLOCK_SIZE < h.contentLength < 0
    ensures Feed(env, c, EncodeHeader(h)) == c.(delivered := c.delivered + [Packet(h, [])])
  {
    FeedImage(env, c, h, []);
    assert EncodeHeader(h) + [] == EncodeHeader(h);
    Completed(env, c, h, []);
    assert env.cipher.Decrypt(c.secure.value.key, []) == [];
  }

  /** The parse of an input that starts with a whole package. */
  lemma ParseFirst(secure: bool, head: seq<byte>, payload: seq<byte>, later: seq<byte>)
    requires |head| == HEADER_LEN && HeaderVersion(head) == PACKAGE_VERSION
    requires Need(secure, DecodeHeader(head).contentLength) == |payload| <= MAX_CONTENT_LEN
    ensures var first, rest := Packet(DecodeHeader(head), payload), Parse(secure, later);
            Parse(secure, (head + payload) + later)
            == if first.header.command == NTF_SECURITY_SETTING then Parsed([], Rejected([]))
               else rest.(packages := [first] + rest.packages)
  {
    var s := (head + payload) + later;
    assert s == head + (payload + later);
    HeaderPrefix(head, payload + later);
    assert s[HEADER_LEN..HEADER_LEN + |payload|] == payload;
    assert s[HEADER_LEN + |payload|..] == later;
  }

  /** The endpoint has just taken the whole of a first package; the rest of the input follows. */
  lemma FramingAfterPackage(env: Env, c: Conn, c1: Conn, head: seq<byte>, payload: seq<byte>, later: seq<byte>)
    requires Settled(c) && |head| == HEADER_LEN && HeaderVersion(head) == PACKAGE_VERSION
    requires Need(c.secure.Some?, DecodeHeader(head).contentLength) == |payload| <= MAX_CONTENT_LEN
    requires c1 == Complete(env, c.(partial := []), DecodeHeader(head), payload)
    ensures Agrees(env, c, Feed(env, c1, later), Parse(c.secure.Some?, (head + payload) + later))
    decreases |later|, 2
  {
    var first := Packet(DecodeHeader(head), payload);
    Completed(env, c, first.header, payload);
    ParseFirst(c.secure.Some?, head, payload, later);
    if first.header.command == NTF_SECURITY_SETTING {
      FeedStopped(env, c1, later);
    } else {
      assert [] + later == later;
      FramingIsParsing(env, c1, later);
      AgreesEarlier(env, c, c1, Feed(env, c1, later), first, Parse(c.secure.Some?, later));
    }
  }

  /** Main statement: for every stretch of input, however it was cut into reads (see
      SegmentationIndependent), the machine and the one-shot parse agree. */
  lemma {:induction false} FramingIsParsing(env: Env, c: Conn, bytes: seq<byte>)
    requires Settled(c) && PartialOk(c)
    ensures Agrees(env, c, Feed(env, c, bytes), Parse(c.secure.Some?, c.partial + bytes))
    decreases |bytes|, 1
  {
    if |c.partial| >= HEADER_LEN {
      FramingFromContent(env, c, bytes);
    } else if |c.partial + bytes| < HEADER_LEN {
      FramingShort(env, c, bytes);
    } else {
      var k := HEADER_LEN - |c.partial|;
      assert bytes == bytes[..k] + bytes[k..];
      FramingFromHeader(env, c, bytes[..k], bytes[k..]);
    }
  }

  lemma FramingShort(env: Env, c: Conn, bytes: seq<byte>)
    requires Settled(c) && PartialOk(c) && |c.partial + bytes| < HEADER_LEN
    ensures Agrees(env, c, Feed(env, c, bytes), Parse(c.secure.Some?, c.partial + bytes))
  {
    var s := c.partial + bytes;
    assert c.delivered + [] == c.delivered;
    if bytes == [] {
      assert s == c.partial;
    } else if |s| >= BASE_HEADER_LEN && HeaderVersion(s) != PACKAGE_VERSION {
      FeedWrongVersion(env, c, bytes);
    } else {
      FeedWithinHeader(env, c, bytes);
    }
  }

  lemma FramingFromHeader(env: Env, c: Conn, chunk: seq<byte>, later: seq<byte>)
    requires Settled(c) && PartialOk(c) && |c.partial| < HEADER_LEN && |c.partial| + |chunk| == HEADER_LEN
    ensures Agrees(env, c, Feed(env, c, chunk + later), Parse(c.secure.Some?, c.partial + (chunk + later)))
    decreases |later|, 4
  {
    var head := c.partial + chunk;
    assert c.partial + (chunk + later) == head + later;
    assert c.delivered + [] == c.delivered;
    HeaderPrefix(head, later);
    FeedConcat(env, c, chunk, later);
    if HeaderVersion(head) != PACKAGE_VERSION {
      FeedWrongVersion(env, c, chunk);
      FeedStopped(env, Feed(env, c, chunk), later);
    } else {
      FeedHeaderEnd(env, c, chunk);
      FramingAfterHeader(env, c, head, later);
    }
  }

  lemma FramingAfterHeader(env: Env, c: Conn, head: seq<byte>, later: seq<byte>)
    requires Settled(c) && |head| == HEADER_LEN && HeaderVersion(head) == PACKAGE_VERSION
    ensures Agrees(env, c, Feed(env, HeaderDone(env, c.(partial := head)), later), Parse(c.secure.Some?, head + later))
    decreases |later|, 3
  {
    var c1 := HeaderDone(env, c.(partial := head));
    var need := Need(c.secure.Some?, DecodeHeader(head).contentLength);
    assert c.delivered + [] == c.delivered;
    HeaderPrefix(head, later);
    if need == 0 {
      assert head + [] == head;
      FramingAfterPackage(env, c, c1, head, [], later);
    } else if 0 < need <= MAX_CONTENT_LEN {
      FramingFromContent(env, c1, later);
    } else {
      FeedStopped(env, c1, later);
    }
  }

  lemma FramingFromContent(env: Env, c: Conn, bytes: seq<byte>)
    requires Settled(c) && PartialOk(c) && |c.partial| >= HEADER_LEN
    ensures Agrees(env, c, Feed(env, c, bytes), Parse(c.secure.Some?, c.partial + bytes))
    decreases |bytes|, 0
  {
    var s, head := c.partial + bytes, c.partial[..HEADER_LEN];
    assert c.partial == head + c.partial[HEADER_LEN..];
    HeaderPrefix(head, c.partial[HEADER_LEN..]);
    HeaderPrefix(c.partial, bytes);
    assert c.delivered + [] == c.delivered;
    var total := HEADER_LEN + Need(c.secure.Some?, DecodeHeader(head).contentLength);
    if |s| < total {
      FeedWithinContent(env, c, bytes);
    } else {
      var k := total - |c.partial|;
      var chunk, later := bytes[..k], bytes[k..];
      var payload := (c.partial + chunk)[HEADER_LEN..];
      assert bytes == chunk + later;
      assert s == (head + payload) + later;
      FeedConcat(env, c, chunk, later);
      FeedContentEnd(env, c, chunk);
      FramingAfterPackage(env, c, Feed(env, c, chunk), head, payload, later);
    }
  }
}
