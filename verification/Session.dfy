/** The reference behaviour of one connection endpoint, as a machine that takes one received byte
    at a time. It says nothing about read sizes, write sizes or buffers: how much of `wire` has
    already been written, and how the received bytes were cut into reads, does not matter to it. */
module Session {
  import opened Wire
  import opened Aes
  import opened Packages

  const NTF_INVALID_VERSION := 1
  const NTF_SECURITY_SETTING := 2
  const REQ_START_CRYPTO := 3
  const RSP_START_CRYPTO := 4
  const CLOSE_SECURITY: byte := 1
  const OPEN_SECURITY: byte := 2

  datatype Role = Active | Passive

  /** The cryptography an endpoint uses. `wrap` is RSA encryption with a received public key,
      `unwrap` RSA decryption with the endpoint's own private key. */
  datatype Env = Env(cipher: BlockCipher, publicKey: seq<byte>, sessionKey: Key,
                     wrap: (seq<byte>, Key) -> seq<byte>, unwrap: seq<byte> -> seq<byte>)

  datatype Secure = Secure(started: bool, key: Key, pending: seq<Entry>)

  /** A package as handed to the worker: header and the bytes its content view shows. */
  datatype Packet = Packet(header: Header, content: seq<byte>)

  /** `shut`: closing or closed. `broken`: a received length is outside what the buffer growth
      supports, see BrokenExactly; nothing is claimed after that.
      `wire`: all bytes handed to the socket or waiting in the send queue, in order.
      `partial`: the received bytes of the package that is not complete yet. */
  datatype Conn = Conn(role: Role, opening: bool, shut: bool, broken: bool,
                       secure: Option<Secure>, pending: seq<Entry>,
                       wire: seq<byte>, partial: seq<byte>, delivered: seq<Packet>)

  // ------------------------------------------------------------------- sending

  function SendRaw(c: Conn, e: Entry): Conn {
    c.(wire := c.wire + Image(e))
  }

  /** Encryption in place of the padded content, and the length calculator that goes with it. */
  function EncryptEntry(env: Env, key: Key, e: Entry): Entry {
    var n := if e.header.contentLength >= 0 then CipherLength(e.header.contentLength) else 0;
    e.(content := if n <= |e.content| then env.cipher.Encrypt(key, e.content[..n]) + e.content[n..] else e.content,
       padded := true)
  }

  function SecureSend(env: Env, c: Conn, e: Entry): Conn
    requires c.secure.Some?
  {
    var s := c.secure.value;
    if s.started then SendRaw(c, EncryptEntry(env, s.key, e))
    else c.(secure := Some(s.(pending := s.pending + [e])))
  }

  function Send(env: Env, c: Conn, e: Entry): (r: Conn)
    ensures r == c.(wire := r.wire, pending := r.pending, secure := r.secure)
  {
    if c.shut then c
    else if c.secure.Some? then SecureSend(env, c, e)
    else if c.opening then c.(pending := c.pending + [e])
    else SendRaw(c, e)
  }

  function SendAll(env: Env, c: Conn, es: seq<Entry>): Conn
    decreases |es|
  {
    if es == [] then c else SendAll(env, Send(env, c, es[0]), es[1..])
  }

  // ----------------------------------------------------------------- receiving

  function Shut(c: Conn): Conn {
    c.(shut := true, partial := [])
  }

  function ControlImage(command: int, content: seq<byte>): seq<byte> {
    EncodeHeader(Header(PACKAGE_VERSION, command, |content|, 0, 0)) + content
  }

  function KeyFrom(plain: seq<byte>): (k: Key)
    ensures |k| == KEY_LEN
  {
    if |plain| >= KEY_LEN then plain[..KEY_LEN] else plain + Zeros(KEY_LEN - |plain|)
  }

  function Start(env: Env, c: Conn, key: Key): Conn
    requires c.secure.Some?
  {
    SendAll(env, c.(secure := Some(Secure(true, key, []))), c.secure.value.pending)
  }

  /** Making a string of a content of negative length throws, which the reactor catches. */
  function SecureReceive(env: Env, c: Conn, h: Header, payload: seq<byte>): Conn
    requires c.secure.Some?
  {
    var s := c.secure.value;
    var content := Take(payload, h.contentLength);
    if s.started then
      c.(delivered := c.delivered + [Packet(h, Take(env.cipher.Decrypt(s.key, payload), h.contentLength))])
    else if h.contentLength < 0 then c
    else if c.role.Passive? && h.command == RSP_START_CRYPTO then
      Start(env, c, KeyFrom(env.unwrap(content)))
    else if c.role.Active? && h.command == REQ_START_CRYPTO then
      Start(env, c.(wire := c.wire + ControlImage(RSP_START_CRYPTO, env.wrap(content, env.sessionKey))), env.sessionKey)
    else c
  }

  function ReceiveSetting(env: Env, c: Conn, h: Header, payload: seq<byte>): Conn {
    if c.role.Passive? || !c.opening || h.contentLength < 1 || payload == [] then Shut(c)
    else
      var ready := c.(opening := false, pending := [],
                       secure := if payload[0] == OPEN_SECURITY then Some(Secure(false, Zeros(KEY_LEN), [])) else None);
      SendAll(env, ready, c.pending)
  }

  function Complete(env: Env, c: Conn, h: Header, payload: seq<byte>): Conn {
    if h.command == NTF_SECURITY_SETTING then ReceiveSetting(env, c, h, payload)
    else if c.opening then c
    else if c.secure.Some? then SecureReceive(env, c, h, payload)
    else c.(delivered := c.delivered + [Packet(h, payload)])
  }

  /** Number of content bytes that follow a header with this length field. On a secure connection
      there are none for -15 to -1. */
  function Need(secure: bool, contentLength: int): int {
    if secure then Rounded(contentLength) else contentLength
  }

  /** It is what the buffer grows for, and it leaves the range of an endpoint exactly where growth
      runs into the empty buffer or does not end. */
  lemma BrokenExactly(secure: bool, contentLength: int)
    requires IsInt(contentLength)
    ensures 0 <= Need(secure, contentLength) < INT_SPAN_HALF ==> Requested(secure, contentLength) == Need(secure, contentLength)
    ensures 0 <= Need(secure, contentLength) < INT_SPAN_HALF <==> Outcome(Requested(secure, contentLength)) != Overrun
  {
    if secure {
      RequestedIsRounded(contentLength);
    }
  }

  function RejectVersion(c: Conn, command: int): Conn {
    if command != NTF_INVALID_VERSION then Shut(c.(wire := c.wire + ControlImage(NTF_INVALID_VERSION, [])))
    else Shut(c)
  }

  /** A complete header of the right version is in `partial`. */
  function HeaderDone(env: Env, c: Conn): Conn
    requires |c.partial| == HEADER_LEN
  {
    var h := DecodeHeader(c.partial);
    var need := Need(c.secure.Some?, h.contentLength);
    if !(0 <= need < INT_SPAN_HALF) then c.(broken := true)
    else if need == 0 then Complete(env, c.(partial := []), h, [])
    else if need > MAX_CONTENT_LEN then Shut(c)
    else c
  }

  function FeedByte(env: Env, c: Conn, b: byte): Conn {
    if c.shut || c.broken then c
    else
      var p := c.partial + [b];
      var c1 := c.(partial := p);
      if |p| < BASE_HEADER_LEN then c1
      else if |p| <= HEADER_LEN && HeaderVersion(p) != PACKAGE_VERSION then RejectVersion(c1, HeaderCommand(p))
      else if |p| < HEADER_LEN then c1
      else if |p| == HEADER_LEN then HeaderDone(env, c1)
      else
        var h := DecodeHeader(p);
        if |p| == HEADER_LEN + Need(c.secure.Some?, h.contentLength)
        then Complete(env, c.(partial := []), h, p[HEADER_LEN..])
        else c1
  }

  function Feed(env: Env, c: Conn, bytes: seq<byte>): Conn
    decreases |bytes|
  {
    if bytes == [] then c else Feed(env, FeedByte(env, c, bytes[0]), bytes[1..])
  }

  /** Cutting the input differently makes no difference. */
  lemma {:induction false} FeedConcat(env: Env, c: Conn, a: seq<byte>, b: seq<byte>)
    ensures Feed(env, c, a + b) == Feed(env, Feed(env, c, a), b)
    decreases |a|
  {
    if a == [] {
      assert a + b == b;
    } else {
      assert (a + b)[1..] == a[1..] + b;
      FeedConcat(env, FeedByte(env, c, a[0]), a[1..], b);
    }
  }

  function FeedChunks(env: Env, c: Conn, chunks: seq<seq<byte>>): Conn
    decreases |chunks|
  {
    if chunks == [] then c else FeedChunks(env, Feed(env, c, chunks[0]), chunks[1..])
  }

  function Flatten(chunks: seq<seq<byte>>): seq<byte> {
    if chunks == [] then [] else chunks[0] + Flatten(chunks[1..])
  }

  lemma {:induction false} SegmentationIndependent(env: Env, c: Conn, chunks: seq<seq<byte>>)
    ensures FeedChunks(env, c, chunks) == Feed(env, c, Flatten(chunks))
    decreases |chunks|
  {
    if chunks != [] {
      FeedConcat(env, c, chunks[0], Flatten(chunks[1..]));
      SegmentationIndependent(env, Feed(env, c, chunks[0]), chunks[1..]);
    }
  }

  /** Where reading can stand: before a package, inside a header, or inside a content whose length
      is known and fits the buffer. */
  predicate PartialOk(c: Conn) {
    && (|c.partial| >= BASE_HEADER_LEN ==> HeaderVersion(c.partial) == PACKAGE_VERSION)
    && (|c.partial| >= HEADER_LEN ==>
          var need := Need(c.secure.Some?, DecodeHeader(c.partial).contentLength);
          0 < need <= MAX_CONTENT_LEN && |c.partial| < HEADER_LEN + need)
  }

  predicate Live(c: Conn) {
    !c.shut && !c.broken
  }

  lemma {:induction false} FeedStopped(env: Env, c: Conn, bytes: seq<byte>)
    requires !Live(c)
    ensures Feed(env, c, bytes) == c
  {
    if bytes != [] {
      FeedStopped(env, c, bytes[1..]);
    }
  }

  lemma {:induction false} SendAllKeeps(env: Env, c: Conn, es: seq<Entry>)
    ensures var r := SendAll(env, c, es); r == c.(wire := r.wire, pending := r.pending, secure := r.secure)
    ensures var r := SendAll(env, c, es);
            r.secure.Some? == c.secure.Some?
            && (c.secure.Some? ==>
                  && r.pending == c.pending
                  && r.secure.value.started == c.secure.value.started && r.secure.value.key == c.secure.value.key)
    decreases |es|
  {
    if es != [] {
      SendAllKeeps(env, Send(env, c, es[0]), es[1..]);
    }
  }

  lemma CompleteKeeps(env: Env, c: Conn, h: Header, payload: seq<byte>)
    requires Live(c)
    ensures var r := Complete(env, c, h, payload);
            r.role == c.role && !r.broken && (r.shut ==> r.partial == []) && (!r.shut ==> r.partial == c.partial)
  {
    if h.command == NTF_SECURITY_SETTING {
      var ready := c.(opening := false, pending := [],
                       secure := if payload != [] && payload[0] == OPEN_SECURITY then Some(Secure(false, Zeros(KEY_LEN), [])) else None);
      SendAllKeeps(env, ready, c.pending);
    } else if c.secure.Some? {
      var s := c.secure.value;
      SendAllKeeps(env, c.(secure := Some(Secure(true, KeyFrom(env.unwrap(Take(payload, h.contentLength))), []))), s.pending);
      var c1 := c.(wire := c.wire + ControlImage(RSP_START_CRYPTO, env.wrap(Take(payload, h.contentLength), env.sessionKey)));
      SendAllKeeps(env, c1.(secure := Some(Secure(true, env.sessionKey, []))), s.pending);
    }
  }

  /** The reading position stays sensible, byte after byte. */
  lemma FeedBytePartial(env: Env, c: Conn, b: byte)
    requires PartialOk(c)
    ensures Live(FeedByte(env, c, b)) ==> PartialOk(FeedByte(env, c, b))
  {
    if Live(c) {
      var p := c.partial + [b];
      if |c.partial| >= BASE_HEADER_LEN {
        HeaderPrefix(c.partial, [b]);
      }
      if |p| >= HEADER_LEN {
        CompleteKeeps(env, c.(partial := []), DecodeHeader(p), p[HEADER_LEN..]);
      }
    }
  }

  // --------------------------------------------------------- chunks of a read

  /** A read that stays inside the header, before the version can be checked or with the right one. */
  lemma {:induction false} FeedWithinHeader(env: Env, c: Conn, chunk: seq<byte>)
    requires Live(c) && |c.partial| + |chunk| < HEADER_LEN
    requires |c.partial| + |chunk| >= BASE_HEADER_LEN ==> HeaderVersion(c.partial + chunk) == PACKAGE_VERSION
    ensures Feed(env, c, chunk) == c.(partial := c.partial + chunk)
    decreases |chunk|
  {
    if chunk == [] {
      assert c.partial + chunk == c.partial;
    } else {
      var p := c.partial + [chunk[0]];
      assert p + chunk[1..] == c.partial + chunk;
      if |p| >= BASE_HEADER_LEN {
        HeaderPrefix(p, chunk[1..]);
      }
      FeedWithinHeader(env, c.(partial := p), chunk[1..]);
    }
  }

  /** What is written on reading a wrong version: a notice, unless the package read is one. */
  function VersionNotice(silent: bool): seq<byte> {
    if silent then [] else ControlImage(NTF_INVALID_VERSION, [])
  }

  /** A read inside the header that reveals a wrong version. */
  lemma {:induction false} FeedWrongVersion(env: Env, c: Conn, chunk: seq<byte>)
    requires Live(c) && |c.partial| + |chunk| <= HEADER_LEN && chunk != []
    requires |c.partial| + |chunk| >= BASE_HEADER_LEN && HeaderVersion(c.partial + chunk) != PACKAGE_VERSION
    requires |c.partial| >= BASE_HEADER_LEN ==> HeaderVersion(c.partial) == PACKAGE_VERSION
    ensures Feed(env, c, chunk)
         == c.(shut := true, partial := [], wire := c.wire + VersionNotice(HeaderCommand(c.partial + chunk) == NTF_INVALID_VERSION))
    decreases |chunk|
  {
    var p := c.partial + [chunk[0]];
    assert p + chunk[1..] == c.partial + chunk;
    if |p| >= BASE_HEADER_LEN {
      HeaderPrefix(p, chunk[1..]);
      FeedStopped(env, FeedByte(env, c, chunk[0]), chunk[1..]);
      assert c.wire + [] == c.wire;
    } else {
      FeedWrongVersion(env, c.(partial := p), chunk[1..]);
    }
  }

  /** Whatever follows a base header of another version, and however it is cut: the end closes, has
      written the notice exactly if that package is none itself, and takes nothing more in. */
  lemma ForeignVersion(env: Env, c: Conn, bytes: seq<byte>)
    requires Live(c) && |c.partial| < BASE_HEADER_LEN <= |c.partial| + |bytes|
    requires HeaderVersion(c.partial + bytes) != PACKAGE_VERSION
    ensures Feed(env, c, bytes)
         == c.(shut := true, partial := [],
               wire := if HeaderCommand(c.partial + bytes) == NTF_INVALID_VERSION then c.wire
                       else c.wire + ControlImage(NTF_INVALID_VERSION, []))
  {
    var k := BASE_HEADER_LEN - |c.partial|;
    var base, later := bytes[..k], bytes[k..];
    assert bytes == base + later && (c.partial + base) + later == c.partial + bytes;
    HeaderPrefix(c.partial + base, later);
    FeedWrongVersion(env, c, base);
    FeedConcat(env, c, base, later);
    FeedStopped(env, Feed(env, c, base), later);
    assert c.wire + [] == c.wire;
  }

  /** A read that completes the header. */
  lemma FeedHeaderEnd(env: Env, c: Conn, chunk: seq<byte>)
    requires Live(c) && |c.partial| + |chunk| == HEADER_LEN && chunk != []
    requires HeaderVersion(c.partial + chunk) == PACKAGE_VERSION
    ensures Feed(env, c, chunk) == HeaderDone(env, c.(partial := c.partial + chunk))
  {
    var front, last := chunk[..|chunk| - 1], chunk[|chunk| - 1];
    assert chunk == front + [last];
    assert (c.partial + front) + [last] == c.partial + chunk;
    if |c.partial + front| >= BASE_HEADER_LEN {
      HeaderPrefix(c.partial + front, [last]);
    }
    FeedWithinHeader(env, c, front);
    FeedConcat(env, c, front, [last]);
    assert Feed(env, c.(partial := c.partial + front), [last]) == FeedByte(env, c.(partial := c.partial + front), last);
  }

  /** A read inside the content. */
  lemma {:induction false} FeedWithinContent(env: Env, c: Conn, chunk: seq<byte>)
    requires Live(c) && |c.partial| >= HEADER_LEN
    requires |c.partial| + |chunk| < HEADER_LEN + Need(c.secure.Some?, DecodeHeader(c.partial).contentLength)
    ensures Feed(env, c, chunk) == c.(partial := c.partial + chunk)
    decreases |chunk|
  {
    if chunk == [] {
      assert c.partial + chunk == c.partial;
    } else {
      var p := c.partial + [chunk[0]];
      assert p + chunk[1..] == c.partial + chunk;
      HeaderPrefix(c.partial, [chunk[0]]);
      FeedWithinContent(env, c.(partial := p), chunk[1..]);
    }
  }

  /** A read that completes the content. */
  lemma FeedContentEnd(env: Env, c: Conn, chunk: seq<byte>)
    requires Live(c) && |c.partial| >= HEADER_LEN && chunk != []
    requires |c.partial| + |chunk| == HEADER_LEN + Need(c.secure.Some?, DecodeHeader(c.partial).contentLength)
    ensures Feed(env, c, chunk)
            == Complete(env, c.(partial := []), DecodeHeader(c.partial), (c.partial + chunk)[HEADER_LEN..])
  {
    var front, last := chunk[..|chunk| - 1], chunk[|chunk| - 1];
    assert chunk == front + [last];
    assert (c.partial + front) + [last] == c.partial + chunk;
    HeaderPrefix(c.partial, front);
    HeaderPrefix(c.partial, chunk);
    FeedWithinContent(env, c, front);
    FeedConcat(env, c, front, [last]);
    assert Feed(env, c.(partial := c.partial + front), [last]) == FeedByte(env, c.(partial := c.partial + front), last);
  }

  lemma FeedHead(env: Env, c: Conn, h: Header)
    requires Live(c) && c.partial == []
    requires HeaderFits(h) && h.version == PACKAGE_VERSION
    ensures DecodeHeader(EncodeHeader(h)) == h && HeaderVersion(EncodeHeader(h)) == PACKAGE_VERSION
    ensures Feed(env, c, EncodeHeader(h)) == HeaderDone(env, c.(partial := EncodeHeader(h)))
  {
    var head := EncodeHeader(h);
    HeaderRoundTrip(h, []);
    assert head + [] == head && [] + head == head;
    FeedHeaderEnd(env, c, head);
  }

  /** A whole package image fed to an endpoint that stands between packages and whose mode makes
      it expect just that many content bytes. */
  lemma FeedImage(env: Env, c: Conn, h: Header, payload: seq<byte>)
    requires Live(c) && c.partial == []
    requires HeaderFits(h) && h.version == PACKAGE_VERSION
    requires Need(c.secure.Some?, h.contentLength) == |payload| <= MAX_CONTENT_LEN
    ensures Feed(env, c, EncodeHeader(h) + payload) == Complete(env, c, h, payload)
  {
    var head := EncodeHeader(h);
    FeedHead(env, c, h);
    FeedConcat(env, c, head, payload);
    assert c.(partial := []) == c;
    if payload != [] {
      FeedContentEnd(env, c.(partial := head), payload);
      assert (head + payload)[HEADER_LEN..] == payload;
    }
  }

  /** An active end that waits for the security setting takes nothing else, and is secure from then on
      exactly if the setting says so. */
  lemma OpeningTakesTheSetting(env: Env, c: Conn, h: Header, payload: seq<byte>)
    requires Live(c) && c.partial == [] && c.opening && c.role.Active? && c.secure.None?
    requires HeaderFits(h) && h.version == PACKAGE_VERSION && h.contentLength == |payload| <= MAX_CONTENT_LEN
    ensures var r := Feed(env, c, EncodeHeader(h) + payload);
            && r.delivered == c.delivered
            && (h.command != NTF_SECURITY_SETTING ==> r == c)
            && (h.command == NTF_SECURITY_SETTING ==>
                  if payload == [] then r.shut && r.wire == c.wire
                  else !r.shut && !r.opening && (r.secure.Some? <==> payload[0] == OPEN_SECURITY))
  {
    FeedImage(env, c, h, payload);
    if h.command == NTF_SECURITY_SETTING && payload != [] {
      var ready := c.(opening := false, pending := [],
                      secure := if payload[0] == OPEN_SECURITY then Some(Secure(false, Zeros(KEY_LEN), [])) else None);
      SendAllKeeps(env, ready, c.pending);
    }
  }

  /** A security setting after that, or for a passive end, closes without an answer. */
  lemma SettingOnce(env: Env, c: Conn, h: Header, payload: seq<byte>)
    requires Live(c) && c.partial == [] && (!c.opening || c.role.Passive?)
    requires HeaderFits(h) && h.version == PACKAGE_VERSION && h.command == NTF_SECURITY_SETTING
    requires Need(c.secure.Some?, h.contentLength) == |payload| <= MAX_CONTENT_LEN
    ensures var r := Feed(env, c, EncodeHeader(h) + payload);
            r.shut && r.wire == c.wire && r.delivered == c.delivered
  {
    FeedImage(env, c, h, payload);
  }

  /** Until the key exchange is over only the message of it that this role waits for has any effect. */
  lemma ExchangeTakesItsMessage(env: Env, c: Conn, h: Header, payload: seq<byte>)
    requires Live(c) && c.partial == [] && !c.opening && c.secure.Some? && !c.secure.value.started
    requires HeaderFits(h) && h.version == PACKAGE_VERSION && h.command != NTF_SECURITY_SETTING
    requires Need(true, h.contentLength) == |payload| <= MAX_CONTENT_LEN
    ensures var r := Feed(env, c, EncodeHeader(h) + payload);
            && r.delivered == c.delivered && r.secure.Some?
            && (r.secure.value.started <==> h.contentLength >= 0 && h.command == if c.role.Passive? then RSP_START_CRYPTO else REQ_START_CRYPTO)
            && (!r.secure.value.started ==> r == c)
  {
    FeedImage(env, c, h, payload);
    var s := c.secure.value;
    SendAllKeeps(env, c.(secure := Some(Secure(true, KeyFrom(env.unwrap(Take(payload, h.contentLength))), []))), s.pending);
    var c1 := c.(wire := c.wire + ControlImage(RSP_START_CRYPTO, env.wrap(Take(payload, h.contentLength), env.sessionKey)));
    SendAllKeeps(env, c1.(secure := Some(Secure(true, env.sessionKey, []))), s.pending);
  }

  /** A closed end writes and delivers nothing more, whatever arrives and whatever is sent. */
  lemma {:induction false} ClosedForGood(env: Env, c: Conn, es: seq<Entry>, bytes: seq<byte>)
    requires c.shut
    ensures SendAll(env, c, es) == c && Feed(env, c, bytes) == c
    decreases |es|
  {
    FeedStopped(env, c, bytes);
    if es != [] {
      ClosedForGood(env, c, es[1..], bytes);
    }
  }

  /** A proper prefix of such an image only fills `partial`. */
  lemma FeedImagePrefix(env: Env, c: Conn, h: Header, payload: seq<byte>, n: nat)
    requires Live(c) && c.partial == []
    requires HeaderFits(h) && h.version == PACKAGE_VERSION
    requires Need(c.secure.Some?, h.contentLength) == |payload| <= MAX_CONTENT_LEN
    requires n < HEADER_LEN + |payload|
    ensures Feed(env, c, (EncodeHeader(h) + payload)[..n]) == c.(partial := (EncodeHeader(h) + payload)[..n])
  {
    var head, image := EncodeHeader(h), EncodeHeader(h) + payload;
    if n < HEADER_LEN {
      assert image[..n] == head[..n];
      FeedHeadFront(env, c, h, n);
    } else {
      var front := payload[..n - HEADER_LEN];
      assert image[..n] == head + front;
      FeedHeadAndFront(env, c, h, payload, front);
    }
  }

  lemma FeedHeadFront(env: Env, c: Conn, h: Header, n: nat)
    requires Live(c) && c.partial == []
    requires HeaderFits(h) && h.version == PACKAGE_VERSION && n < HEADER_LEN
    ensures Feed(env, c, EncodeHeader(h)[..n]) == c.(partial := EncodeHeader(h)[..n])
  {
    var head := EncodeHeader(h);
    HeaderRoundTrip(h, []);
    assert head + [] == head == head[..n] + head[n..];
    assert [] + head[..n] == head[..n];
    if n >= BASE_HEADER_LEN {
      HeaderPrefix(head[..n], head[n..]);
    }
    FeedWithinHeader(env, c, head[..n]);
  }

  lemma FeedHeadAndFront(env: Env, c: Conn, h: Header, payload: seq<byte>, front: seq<byte>)
    requires Live(c) && c.partial == []
    requires HeaderFits(h) && h.version == PACKAGE_VERSION
    requires Need(c.secure.Some?, h.contentLength) == |payload| <= MAX_CONTENT_LEN
    requires |front| < |payload|
    ensures Feed(env, c, EncodeHeader(h) + front) == c.(partial := EncodeHeader(h) + front)
  {
    var head := EncodeHeader(h);
    FeedHead(env, c, h);
    FeedConcat(env, c, head, front);
    FeedWithinContent(env, c.(partial := head), front);
  }
}
