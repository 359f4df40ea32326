/** Two endpoints joined by one byte channel in each direction. Any run interleaves submissions at
    either end with writes and reads of any number of bytes; the theorems hold after every run. */
module Endpoints {
  import opened Wire
  import opened Aes
  import opened Packages
  import opened Session

  /** `written` counts the bytes of an endpoint's `wire` its socket has taken, `read` those of the
      peer's that this endpoint has received. `submitted` is the history of SendPackage calls. */
  datatype End = End(conn: Conn, submitted: seq<Entry>, written: nat, read: nat)

  /** Both ends, seen from one of them. Runs are seen from the active end. */
  datatype System = System(here: End, there: End)

  function Swap(s: System): System {
    System(s.there, s.here)
  }

  /** What an end can do: take a package from the worker, have some bytes accepted by its socket,
      receive some bytes. */
  datatype Act = Submit(entry: Entry) | Write(count: nat) | Read(count: nat)

  datatype Step = Step(role: Role, act: Act)

  function Peer(role: Role): Role {
    if role.Active? then Passive else Active
  }

  // -------------------------------------------------------------- assumptions

  /** The cryptography works. */
  ghost predicate Works(env: Env) {
    && env.cipher.Inverts()
    && |env.sessionKey| == KEY_LEN
    && env.unwrap(Wrapped(env)) == env.sessionKey
  }

  function Wrapped(env: Env): seq<byte> {
    env.wrap(env.publicKey, env.sessionKey)
  }

  predicate WholeBlocks(length: nat) {
    length % BLOCK_SIZE == 0 && length <= MAX_CONTENT_LEN
  }

  /** Besides, the two key-exchange messages are whole blocks: the receivers round their lengths up
      while the senders do not. */
  ghost predicate EnvOk(env: Env) {
    Works(env) && WholeBlocks(|env.publicKey|) && WholeBlocks(|Wrapped(env)|)
  }

  /** What the worker hands over: a package as registered, of this version, not a security
      setting, whose padded content fits a receive buffer. */
  predicate Submittable(e: Entry) {
    && WellFormed(e) && !e.padded
    && HeaderFits(e.header) && e.header.version == PACKAGE_VERSION
    && e.header.command != NTF_SECURITY_SETTING
    && CipherLength(e.header.contentLength) <= MAX_CONTENT_LEN
  }

  // --------------------------------------------------------------- the system

  const NEW_ACTIVE := Conn(Active, true, false, false, None, [], [], [], [])

  function Hello(env: Env, secure: bool): seq<Packet> {
    [Control(NTF_SECURITY_SETTING, [if secure then OPEN_SECURITY else CLOSE_SECURITY])]
    + if secure then [Control(REQ_START_CRYPTO, env.publicKey)] else []
  }

  function NewPassive(env: Env, secure: bool): Conn {
    Conn(Passive, false, false, false,
         if secure then Some(Secure(false, Zeros(KEY_LEN), [])) else None,
         [], Images(Hello(env, secure)), [], [])
  }

  function Initial(env: Env, secure: bool): System {
    System(End(NEW_ACTIVE, [], 0, 0), End(NewPassive(env, secure), [], 0, 0))
  }

  predicate Enabled(s: System, act: Act) {
    match act
    case Submit(e) => Submittable(e)
    case Write(n) => s.here.written + n <= |s.here.conn.wire|
    case Read(n) => s.here.read + n <= s.there.written <= |s.there.conn.wire|
  }

  function Do(env: Env, s: System, act: Act): System
    requires Enabled(s, act)
  {
    var end := s.here;
    match act
    case Submit(e) => s.(here := end.(conn := Send(env, end.conn, e), submitted := end.submitted + [e]))
    case Write(n) => s.(here := end.(written := end.written + n))
    case Read(n) => s.(here := ReadFrom(env, end, s.there.conn.wire, n))
  }

  function ReadFrom(env: Env, end: End, wire: seq<byte>, count: nat): End
    requires end.read + count <= |wire|
  {
    end.(conn := Feed(env, end.conn, wire[end.read..end.read + count]), read := end.read + count)
  }

  function From(role: Role, s: System): System {
    if role.Active? then s else Swap(s)
  }

  function Apply(env: Env, s: System, step: Step): System
    requires Enabled(From(step.role, s), step.act)
  {
    From(step.role, Do(env, From(step.role, s), step.act))
  }

  predicate Legal(env: Env, s: System, run: seq<Step>)
    decreases |run|
  {
    run == [] || (Enabled(From(run[0].role, s), run[0].act) && Legal(env, Apply(env, s, run[0]), run[1..]))
  }

  function After(env: Env, s: System, run: seq<Step>): System
    requires Legal(env, s, run)
    decreases |run|
  {
    if run == [] then s else After(env, Apply(env, s, run[0]), run[1..])
  }

  // ------------------------------------------------------------------- frames

  function Control(command: int, content: seq<byte>): Packet {
    Packet(Header(PACKAGE_VERSION, command, |content|, 0, 0), content)
  }

  function FrameImage(f: Packet): (s: seq<byte>)
    ensures |s| == HEADER_LEN + |f.content|
  {
    EncodeHeader(f.header) + f.content
  }

  function Images(fs: seq<Packet>): seq<byte> {
    if fs == [] then [] else FrameImage(fs[0]) + Images(fs[1..])
  }

  /** What a passive end says first, byte by byte. */
  lemma HelloImages(env: Env, secure: bool)
    ensures var setting := ControlImage(NTF_SECURITY_SETTING, [if secure then OPEN_SECURITY else CLOSE_SECURITY]);
            Images(Hello(env, secure)) == if secure then setting + ControlImage(REQ_START_CRYPTO, env.publicKey) else setting
  {
    var setting := Control(NTF_SECURITY_SETTING, [if secure then OPEN_SECURITY else CLOSE_SECURITY]);
    var request := Control(REQ_START_CRYPTO, env.publicKey);
    OneImage(setting);
    OneImage(request);
    assert Hello(env, secure)[1..] == if secure then [request] else [];
  }

  /** What the constructor of a passive connection does to a blank one. */
  function Announce(env: Env, c: Conn, setting: byte): Conn {
    var c1 := c.(opening := false, wire := c.wire + ControlImage(NTF_SECURITY_SETTING, [setting]));
    if setting == OPEN_SECURITY
    then c1.(secure := Some(Secure(false, Zeros(KEY_LEN), [])), wire := c1.wire + ControlImage(REQ_START_CRYPTO, env.publicKey))
    else c1
  }

  lemma NewPassiveAnnounces(env: Env, setting: byte)
    requires setting == OPEN_SECURITY || setting == CLOSE_SECURITY
    ensures Announce(env, NEW_ACTIVE.(role := Passive), setting) == NewPassive(env, setting == OPEN_SECURITY)
  {
    hide Images, Hello, ControlImage;
    HelloImages(env, setting == OPEN_SECURITY);
    assert [] + ControlImage(NTF_SECURITY_SETTING, [setting]) == ControlImage(NTF_SECURITY_SETTING, [setting]);
  }

  lemma OneImage(f: Packet)
    ensures Images([f]) == FrameImage(f)
  {
    assert [f][1..] == [] && FrameImage(f) + [] == FrameImage(f);
  }

  /** How a submitted package travels: as it is, or with its padded content encrypted. */
  function FrameOf(env: Env, key: Option<Key>, e: Entry): Packet {
    Packet(e.header,
           if key.Some? then env.cipher.Encrypt(key.value, Take(e.content, Need(true, e.header.contentLength)))
           else Take(e.content, e.header.contentLength))
  }

  function Frames(env: Env, key: Option<Key>, es: seq<Entry>): (fs: seq<Packet>)
    ensures |fs| == |es|
  {
    seq(|es|, i requires 0 <= i < |es| => FrameOf(env, key, es[i]))
  }

  /** What the other worker is to see of a submitted package: its header and content. */
  function Logical(e: Entry): Packet {
    Packet(e.header, Take(e.content, e.header.contentLength))
  }

  function Logicals(es: seq<Entry>): (ps: seq<Packet>)
    ensures |ps| == |es|
  {
    seq(|es|, i requires 0 <= i < |es| => Logical(es[i]))
  }

  predicate AllSubmittable(es: seq<Entry>) {
    forall i | 0 <= i < |es| :: Submittable(es[i])
  }

  lemma {:induction false} ImagesConcat(a: seq<Packet>, b: seq<Packet>)
    ensures Images(a + b) == Images(a) + Images(b)
  {
    if a == [] {
      assert a + b == b;
    } else {
      assert (a + b)[1..] == a[1..] + b;
      ImagesConcat(a[1..], b);
    }
  }

  lemma FrameLengths(env: Env, key: Option<Key>, e: Entry)
    requires EnvOk(env) && Submittable(e)
    ensures |FrameOf(env, key, e).content| == Need(key.Some?, e.header.contentLength) <= MAX_CONTENT_LEN
    ensures key.Some? ==> Image(EncryptEntry(env, key.value, e)) == FrameImage(FrameOf(env, key, e))
    ensures key.None? ==> Image(e) == FrameImage(FrameOf(env, key, e))
  {
    if key.Some? {
      var n := CipherLength(e.header.contentLength);
      DecryptEncrypt(env.cipher, key.value, e.content[..n]);
      var encrypted := env.cipher.Encrypt(key.value, e.content[..n]);
      assert (encrypted + e.content[n..])[..n] == encrypted;
    }
  }

  /** Decrypting a received frame gives the submitted package's content. */
  lemma FrameDecrypts(env: Env, key: Key, e: Entry)
    requires EnvOk(env) && Submittable(e)
    ensures Take(env.cipher.Decrypt(key, FrameOf(env, Some(key), e).content), e.header.contentLength) == Logical(e).content
  {
    DecryptEncrypt(env.cipher, key, Take(e.content, Need(true, e.header.contentLength)));
  }

  // ------------------------------------------------- draining the pending lists

  /** Sending the first of `es` and then the others. */
  lemma FramesCons(env: Env, key: Option<Key>, wire: seq<byte>, es: seq<Entry>)
    requires es != []
    ensures (wire + FrameImage(FrameOf(env, key, es[0]))) + Images(Frames(env, key, es[1..]))
            == wire + Images(Frames(env, key, es))
  {
    hide FrameOf, FrameImage;
    assert Frames(env, key, es)[1..] == Frames(env, key, es[1..]);
  }

  lemma {:induction false} DrainStarted(env: Env, c: Conn, es: seq<Entry>)
    requires EnvOk(env) && AllSubmittable(es) && !c.shut && c.secure.Some? && c.secure.value.started
    ensures SendAll(env, c, es) == c.(wire := c.wire + Images(Frames(env, Some(c.secure.value.key), es)))
    decreases |es|
  {
    var key := Some(c.secure.value.key);
    if es == [] {
      assert c.wire + [] == c.wire;
    } else {
      FrameLengths(env, key, es[0]);
      FramesCons(env, key, c.wire, es);
      DrainStarted(env, Send(env, c, es[0]), es[1..]);
    }
  }

  lemma {:induction false} DrainPlain(env: Env, c: Conn, es: seq<Entry>)
    requires EnvOk(env) && AllSubmittable(es) && !c.shut && c.secure.None? && !c.opening
    ensures SendAll(env, c, es) == c.(wire := c.wire + Images(Frames(env, None, es)))
    decreases |es|
  {
    if es == [] {
      assert c.wire + [] == c.wire;
    } else {
      FrameLengths(env, None, es[0]);
      FramesCons(env, None, c.wire, es);
      DrainPlain(env, Send(env, c, es[0]), es[1..]);
    }
  }

  lemma {:induction false} DrainStarting(env: Env, c: Conn, es: seq<Entry>)
    requires !c.shut && c.secure.Some? && !c.secure.value.started
    ensures SendAll(env, c, es) == c.(secure := Some(c.secure.value.(pending := c.secure.value.pending + es)))
    decreases |es|
  {
    if es == [] {
      assert c.secure.value.pending + [] == c.secure.value.pending;
    } else {
      assert (c.secure.value.pending + [es[0]]) + es[1..] == c.secure.value.pending + es;
      DrainStarting(env, Send(env, c, es[0]), es[1..]);
    }
  }

  // ----------------------------------------------------------------- invariant

  /** The state of each end is a function of what was submitted at both ends and of the number of
      frames it has received completely. */
  function ActiveState(env: Env, secure: bool, own: seq<Entry>, other: seq<Entry>, k: nat, partial: seq<byte>): Conn {
    if k == 0 then NEW_ACTIVE.(pending := own, partial := partial)
    else if !secure then
      NEW_ACTIVE.(opening := false, partial := partial, wire := Images(Frames(env, None, own)),
                  delivered := Logicals(TakeEntries(other, k - 1)))
    else if k == 1 then
      NEW_ACTIVE.(opening := false, partial := partial, secure := Some(Secure(false, Zeros(KEY_LEN), own)))
    else
      NEW_ACTIVE.(opening := false, partial := partial, secure := Some(Secure(true, env.sessionKey, [])),
                  wire := Images(ActiveFrames(env, secure, own, k)),
                  delivered := Logicals(TakeEntries(other, k - 2)))
  }

  function PassiveState(env: Env, secure: bool, own: seq<Entry>, other: seq<Entry>, k: nat, partial: seq<byte>): Conn {
    var c := NewPassive(env, secure).(partial := partial, wire := Images(PassiveFrames(env, secure, own, k)));
    if !secure then c.(delivered := Logicals(TakeEntries(other, k)))
    else if k == 0 then c.(secure := Some(Secure(false, Zeros(KEY_LEN), own)))
    else c.(secure := Some(Secure(true, env.sessionKey, [])), delivered := Logicals(TakeEntries(other, k - 1)))
  }

  function TakeEntries(es: seq<Entry>, n: nat): seq<Entry> {
    if n <= |es| then es[..n] else es
  }

  /** Everything the active end has sent after `k` received frames. */
  function ActiveFrames(env: Env, secure: bool, own: seq<Entry>, k: nat): seq<Packet> {
    if !secure then (if k == 0 then [] else Frames(env, None, own))
    else if k < 2 then []
    else [Control(RSP_START_CRYPTO, env.wrap(env.publicKey, env.sessionKey))] + Frames(env, Some(env.sessionKey), own)
  }

  function PassiveFrames(env: Env, secure: bool, own: seq<Entry>, k: nat): seq<Packet> {
    Hello(env, secure)
    + if !secure then Frames(env, None, own) else if k == 0 then [] else Frames(env, Some(env.sessionKey), own)
  }

  /** The receiver has taken `k` whole frames and, in `partial`, a proper prefix of the next. */
  predicate At(frames: seq<Packet>, read: nat, k: nat, partial: seq<byte>) {
    && (|| (partial == [] && k <= |frames|)
        || (k < |frames| && |partial| < |FrameImage(frames[k])| && partial <= FrameImage(frames[k])))
    && read == |Images(frames[..k])| + |partial|
  }

  function State(env: Env, secure: bool, role: Role, own: seq<Entry>, other: seq<Entry>, k: nat, partial: seq<byte>): Conn {
    if role.Active? then ActiveState(env, secure, own, other, k, partial)
    else PassiveState(env, secure, own, other, k, partial)
  }

  function Sent(env: Env, secure: bool, role: Role, own: seq<Entry>, k: nat): seq<Packet> {
    if role.Active? then ActiveFrames(env, secure, own, k) else PassiveFrames(env, secure, own, k)
  }

  /** The ends that play `role` and stand after `k` received frames of `incoming`. */
  ghost function Standing(env: Env, secure: bool, role: Role, other: seq<Entry>, incoming: seq<Packet>, k: nat): iset<End> {
    iset end: End |
      && AllSubmittable(end.submitted)
      && end.conn == State(env, secure, role, end.submitted, other, k, end.conn.partial)
      && At(incoming, end.read, k, end.conn.partial)
      && Live(end.conn) && end.conn.wire == Images(Sent(env, secure, role, end.submitted, k))
  }

  /** Both ends, seen from the one that plays `role`. */
  ghost predicate Pair(env: Env, secure: bool, role: Role, own: End, peer: End, k: nat, kPeer: nat) {
    && own in Standing(env, secure, role, peer.submitted, Sent(env, secure, Peer(role), peer.submitted, kPeer), k)
    && peer in Standing(env, secure, Peer(role), own.submitted, Sent(env, secure, role, own.submitted, k), kPeer)
    && peer.read <= own.written <= |own.conn.wire| && own.read <= peer.written <= |peer.conn.wire|
  }

  /** The states runs stay within, seen from the end that plays `role`. */
  ghost function Consistent(env: Env, secure: bool, role: Role): iset<System> {
    iset s: System | exists k, kPeer :: Pair(env, secure, role, s.here, s.there, k, kPeer)
  }

  lemma ConsistentSymmetric(env: Env, secure: bool, role: Role, s: System)
    requires s in Consistent(env, secure, role)
    ensures Swap(s) in Consistent(env, secure, Peer(role))
  {
    var k, kPeer :| Pair(env, secure, role, s.here, s.there, k, kPeer);
    var seen := Pair(env, secure, Peer(role), s.there, s.here, kPeer, k);
  }

  lemma WireIsSent(env: Env, secure: bool, role: Role, own: seq<Entry>, other: seq<Entry>, k: nat, partial: seq<byte>)
    ensures var c := State(env, secure, role, own, other, k, partial);
            c.wire == Images(Sent(env, secure, role, own, k)) && c.partial == partial && Live(c)
    ensures State(env, secure, role, own, other, k, partial).(partial := [])
            == State(env, secure, role, own, other, k, [])
  {
  }

  lemma AtExtends(frames: seq<Packet>, more: seq<Packet>, read: nat, k: nat, partial: seq<byte>)
    requires At(frames, read, k, partial)
    ensures At(frames + more, read, k, partial)
    ensures |Images(frames)| <= |Images(frames + more)|
  {
    assert (frames + more)[..k] == frames[..k];
    assert k < |frames| ==> (frames + more)[k] == frames[k];
    ImagesConcat(frames, more);
  }

  lemma ImagesAt(frames: seq<Packet>, k: nat)
    requires k < |frames|
    ensures Images(frames) == Images(frames[..k]) + (FrameImage(frames[k]) + Images(frames[k + 1..]))
  {
    assert frames == frames[..k] + frames[k..];
    ImagesConcat(frames[..k], frames[k..]);
    assert frames[k..][1..] == frames[k + 1..];
  }

  /** The position in a byte stream of whole frames determines the frame being received. */
  lemma AtByte(frames: seq<Packet>, read: nat, k: nat, partial: seq<byte>)
    requires At(frames, read, k, partial) && read < |Images(frames)|
    ensures k < |frames| && |partial| < |FrameImage(frames[k])| && partial <= FrameImage(frames[k])
    ensures Images(frames)[read] == FrameImage(frames[k])[|partial|]
  {
    assert frames[..|frames|] == frames;
    ImagesAt(frames, k);
  }

  /** A frame this endpoint, in its present mode, delimits as the sender meant it. */
  predicate Acceptable(c: Conn, f: Packet) {
    && HeaderFits(f.header) && f.header.version == PACKAGE_VERSION
    && Need(c.secure.Some?, f.header.contentLength) == |f.content| <= MAX_CONTENT_LEN
  }

  lemma {:induction false} FeedLast(env: Env, c: Conn, s: seq<byte>, b: byte)
    ensures Feed(env, c, s + [b]) == FeedByte(env, Feed(env, c, s), b)
  {
    FeedConcat(env, c, s, [b]);
    assert Feed(env, Feed(env, c, s), [b]) == Feed(env, FeedByte(env, Feed(env, c, s), b), []);
  }

  lemma PrefixStep(s: seq<byte>, n: nat)
    requires n < |s|
    ensures s[..n + 1] == s[..n] + [s[n]]
    ensures n + 1 == |s| ==> s[..n + 1] == s
  {
  }

  /** One more byte of an acceptable frame. */
  lemma ByteOfFrame(env: Env, c: Conn, f: Packet)
    requires Live(c) && Acceptable(c, f)
    requires |c.partial| < |FrameImage(f)| && c.partial <= FrameImage(f)
    ensures var n := |c.partial|;
            FeedByte(env, c, FrameImage(f)[n])
            == if n + 1 == |FrameImage(f)| then Complete(env, c.(partial := []), f.header, f.content)
               else c.(partial := FrameImage(f)[..n + 1])
  {
    var n, image, c0 := |c.partial|, FrameImage(f), c.(partial := []);
    assert Feed(env, c0, image[..n]) == c by {
      assert c.partial == image[..n];
      FeedImagePrefix(env, c0, f.header, f.content, n);
    }
    assert FeedByte(env, c, image[n]) == Feed(env, c0, image[..n + 1]) by {
      PrefixStep(image, n);
      FeedLast(env, c0, image[..n], image[n]);
    }
    FrameFed(env, c0, f, n + 1);
  }

  lemma FrameFed(env: Env, c: Conn, f: Packet, n: nat)
    requires Live(c) && Acceptable(c, f) && c.partial == [] && n <= |FrameImage(f)|
    ensures Feed(env, c, FrameImage(f)[..n])
            == if n == |FrameImage(f)| then Complete(env, c, f.header, f.content) else c.(partial := FrameImage(f)[..n])
  {
    if n == |FrameImage(f)| {
      assert FrameImage(f)[..n] == FrameImage(f);
      FeedImage(env, c, f.header, f.content);
    } else {
      FeedImagePrefix(env, c, f.header, f.content, n);
    }
  }

  /** The position after one more byte. */
  lemma AtNext(frames: seq<Packet>, read: nat, k: nat, partial: seq<byte>)
    requires At(frames, read, k, partial) && read < |Images(frames)|
    requires k < |frames| && |partial| < |FrameImage(frames[k])|
    ensures |partial| + 1 < |FrameImage(frames[k])| ==>
              At(frames, read + 1, k, FrameImage(frames[k])[..|partial| + 1])
    ensures |partial| + 1 == |FrameImage(frames[k])| ==> At(frames, read + 1, k + 1, [])
  {
    hide Images, FrameImage;
    assert frames[..k + 1] == frames[..k] + [frames[k]];
    ImagesConcat(frames[..k], [frames[k]]);
    OneImage(frames[k]);
  }

  // ------------------------------------------------------- submissions keep it

  lemma TakeExtends(es: seq<Entry>, more: seq<Entry>, n: nat)
    requires n <= |es|
    ensures TakeEntries(es + more, n) == TakeEntries(es, n)
  {
    assert (es + more)[..n] == es[..n];
  }

  lemma SubmitActive(env: Env, secure: bool, own: seq<Entry>, other: seq<Entry>, k: nat, partial: seq<byte>, e: Entry)
    requires EnvOk(env) && Submittable(e)
    ensures Send(env, ActiveState(env, secure, own, other, k, partial), e)
            == ActiveState(env, secure, own + [e], other, k, partial)
    ensures ActiveFrames(env, secure, own, k) <= ActiveFrames(env, secure, own + [e], k)
    ensures k >= (if secure then 2 else 1) ==>
              Images(ActiveFrames(env, secure, own + [e], k))
              == Images(ActiveFrames(env, secure, own, k)) + FrameImage(FrameOf(env, if secure then Some(env.sessionKey) else None, e))
  {
    var key := if secure then Some(env.sessionKey) else None;
    FrameLengths(env, key, e);
    if k >= (if secure then 2 else 1) {
      AppendFrame(env, key, own, e, if secure then [Control(RSP_START_CRYPTO, env.wrap(env.publicKey, env.sessionKey))] else []);
      assert [] + Frames(env, key, own) == Frames(env, key, own);
      assert [] + Frames(env, key, own + [e]) == Frames(env, key, own + [e]);
    }
  }

  lemma AppendFrame(env: Env, key: Option<Key>, own: seq<Entry>, e: Entry, front: seq<Packet>)
    ensures front + Frames(env, key, own + [e]) == (front + Frames(env, key, own)) + [FrameOf(env, key, e)]
    ensures Images(front + Frames(env, key, own + [e]))
            == Images(front + Frames(env, key, own)) + FrameImage(FrameOf(env, key, e))
  {
    assert Frames(env, key, own + [e]) == Frames(env, key, own) + [FrameOf(env, key, e)];
    assert front + (Frames(env, key, own) + [FrameOf(env, key, e)]) == (front + Frames(env, key, own)) + [FrameOf(env, key, e)];
    ImagesConcat(front + Frames(env, key, own), [FrameOf(env, key, e)]);
    OneImage(FrameOf(env, key, e));
  }

  lemma SubmitPassive(env: Env, secure: bool, own: seq<Entry>, other: seq<Entry>, k: nat, partial: seq<byte>, e: Entry)
    requires EnvOk(env) && Submittable(e)
    ensures Send(env, PassiveState(env, secure, own, other, k, partial), e)
            == PassiveState(env, secure, own + [e], other, k, partial)
    ensures PassiveFrames(env, secure, own, k) <= PassiveFrames(env, secure, own + [e], k)
  {
    var key := if secure then Some(env.sessionKey) else None;
    FrameLengths(env, key, e);
    AppendFrame(env, key, own, e, Hello(env, secure));
  }

  /** At the other end a submission only makes the stream to come longer. */
  lemma SubmitSeenByPeer(env: Env, secure: bool, own: seq<Entry>, other: seq<Entry>, k: nat, partial: seq<byte>, e: Entry)
    ensures k <= |other| + 2 && (!secure ==> k <= |other| + 1) ==>
              ActiveState(env, secure, own, other + [e], k, partial) == ActiveState(env, secure, own, other, k, partial)
    ensures k <= |other| + 1 && (!secure ==> k <= |other|) ==>
              PassiveState(env, secure, own, other + [e], k, partial) == PassiveState(env, secure, own, other, k, partial)
  {
    if 2 <= k <= |other| + 2 { TakeExtends(other, [e], k - 2); }
    if 1 <= k <= |other| + 1 { TakeExtends(other, [e], k - 1); }
    if k <= |other| { TakeExtends(other, [e], k); }
  }

  lemma SubmitStands(env: Env, secure: bool, role: Role, end: End, other: seq<Entry>, incoming: seq<Packet>, k: nat, e: Entry)
    requires EnvOk(env) && Submittable(e) && end in Standing(env, secure, role, other, incoming, k)
    ensures end.(conn := Send(env, end.conn, e), submitted := end.submitted + [e]) in Standing(env, secure, role, other, incoming, k)
    ensures Sent(env, secure, role, end.submitted, k) <= Sent(env, secure, role, end.submitted + [e], k)
  {
    WireIsSent(env, secure, role, end.submitted + [e], other, k, end.conn.partial);
    if role.Active? {
      SubmitActive(env, secure, end.submitted, other, k, end.conn.partial, e);
    } else {
      SubmitPassive(env, secure, end.submitted, other, k, end.conn.partial, e);
    }
  }

  lemma PeerSubmitStands(env: Env, secure: bool, role: Role, end: End, other: seq<Entry>, incoming: seq<Packet>, k: nat, e: Entry)
    requires end in Standing(env, secure, role, other, incoming, k)
    requires |incoming| <= |other| + FrameLead(secure, role)
    ensures end in Standing(env, secure, role, other + [e], incoming, k)
  {
    SubmitSeenByPeer(env, secure, end.submitted, other, k, end.conn.partial, e);
  }

  /** How many control frames an end receives before the first package. */
  function FrameLead(secure: bool, role: Role): nat {
    (if secure then 1 else 0) + (if role.Active? then 1 else 0)
  }

  lemma SentLength(env: Env, secure: bool, role: Role, own: seq<Entry>, k: nat)
    ensures |Sent(env, secure, role, own, k)| <= |own| + FrameLead(secure, Peer(role))
  {
  }

  lemma StandsExtends(env: Env, secure: bool, role: Role, end: End, other: seq<Entry>, incoming: seq<Packet>, k: nat,
                      incoming': seq<Packet>)
    requires end in Standing(env, secure, role, other, incoming, k) && incoming <= incoming'
    ensures end in Standing(env, secure, role, other, incoming', k)
    ensures |Images(incoming)| <= |Images(incoming')|
  {
    assert incoming' == incoming + incoming'[|incoming|..];
    AtExtends(incoming, incoming'[|incoming|..], end.read, k, end.conn.partial);
  }

  lemma SubmitKeeps(env: Env, secure: bool, role: Role, s: System, e: Entry)
    requires EnvOk(env) && Submittable(e) && s in Consistent(env, secure, role)
    ensures Do(env, s, Submit(e)) in Consistent(env, secure, role)
  {
    hide Standing, Sent, Submittable, EnvOk, Images, EncryptEntry, Image;
    var own, peer, own' := s.here, s.there, Do(env, s, Submit(e)).here;
    var k, kPeer :| Pair(env, secure, role, own, peer, k, kPeer);
    var before := Sent(env, secure, role, own.submitted, k);
    SubmitStands(env, secure, role, own, peer.submitted, Sent(env, secure, Peer(role), peer.submitted, kPeer), k, e);
    SentLength(env, secure, role, own.submitted, k);
    PeerSubmitStands(env, secure, Peer(role), peer, own.submitted, before, kPeer, e);
    StandsExtends(env, secure, Peer(role), peer, own'.submitted, before, kPeer, Sent(env, secure, role, own'.submitted, k));
    var seen := Pair(env, secure, role, own', peer, k, kPeer);
  }

  lemma WriteKeeps(env: Env, secure: bool, role: Role, s: System, count: nat)
    requires s in Consistent(env, secure, role) && Enabled(s, Write(count))
    ensures Do(env, s, Write(count)) in Consistent(env, secure, role)
  {
    var k, kPeer :| Pair(env, secure, role, s.here, s.there, k, kPeer);
    var seen := Pair(env, secure, role, Do(env, s, Write(count)).here, s.there, k, kPeer);
  }

  // ------------------------------------------------------------- reads keep it

  lemma ControlAcceptable(c: Conn, command: int, content: seq<byte>)
    requires 0 <= command < 128 && |content| <= MAX_CONTENT_LEN
    requires c.secure.Some? ==> |content| % BLOCK_SIZE == 0
    ensures Acceptable(c, Control(command, content))
    ensures Take(content, |content|) == content
  {
    SpanValues();
  }

  lemma TakeNext(es: seq<Entry>, n: nat)
    requires n < |es|
    ensures Logicals(TakeEntries(es, n + 1)) == Logicals(TakeEntries(es, n)) + [Logical(es[n])]
  {
    assert es[..n + 1] == es[..n] + [es[n]];
  }

  /** An end that has settled delivers what was submitted, whatever travelled. */
  lemma DeliversFrame(env: Env, c: Conn, e: Entry)
    requires EnvOk(env) && Submittable(e) && !c.opening
    requires c.secure.Some? ==> c.secure.value.started
    ensures var f := FrameOf(env, if c.secure.Some? then Some(c.secure.value.key) else None, e);
            Acceptable(c, f)
            && Complete(env, c, f.header, f.content) == c.(delivered := c.delivered + [Logical(e)])
  {
    var key := if c.secure.Some? then Some(c.secure.value.key) else None;
    FrameLengths(env, key, e);
    if key.Some? {
      FrameDecrypts(env, key.value, e);
    }
  }

  /** The frames after the control messages are the submitted packages, in order. */
  lemma FrameAt(env: Env, secure: bool, role: Role, own: seq<Entry>, k: nat, n: nat)
    requires n >= FrameLead(secure, Peer(role)) && n < |Sent(env, secure, role, own, k)|
    ensures n - FrameLead(secure, Peer(role)) < |own|
    ensures Sent(env, secure, role, own, k)[n]
            == FrameOf(env, if secure then Some(env.sessionKey) else None, own[n - FrameLead(secure, Peer(role))])
  {
    hide Frames, FrameOf, Control, Hello;
    var key := if secure then Some(env.sessionKey) else None;
    var lead := if role.Passive? then Hello(env, secure)
                else if secure then [Control(RSP_START_CRYPTO, env.wrap(env.publicKey, env.sessionKey))] else [];
    HelloLength(env, secure);
    assert Sent(env, secure, role, own, k) == lead + Frames(env, key, own) by {
      assert [] + Frames(env, key, own) == Frames(env, key, own);
    }
    FrameBehind(lead, env, key, own, n);
  }

  lemma HelloLength(env: Env, secure: bool)
    ensures |Hello(env, secure)| == if secure then 2 else 1
  {
  }

  lemma FrameBehind(lead: seq<Packet>, env: Env, key: Option<Key>, own: seq<Entry>, n: nat)
    requires |lead| <= n < |lead + Frames(env, key, own)|
    ensures n - |lead| < |own| && (lead + Frames(env, key, own))[n] == FrameOf(env, key, own[n - |lead|])
  {
  }

  /** The active end completes frame `k` of what the passive end sends. */
  lemma ActiveCompletes(env: Env, secure: bool, own: seq<Entry>, other: seq<Entry>, k: nat, kP: nat)
    requires EnvOk(env) && AllSubmittable(own) && AllSubmittable(other)
    requires k < |PassiveFrames(env, secure, other, kP)|
    ensures var c, f := ActiveState(env, secure, own, other, k, []), PassiveFrames(env, secure, other, kP)[k];
            Acceptable(c, f)
            && Complete(env, c, f.header, f.content) == ActiveState(env, secure, own, other, k + 1, [])
  {
    var c, f := ActiveState(env, secure, own, other, k, []), PassiveFrames(env, secure, other, kP)[k];
    var key := if secure then Some(env.sessionKey) else None;
    if k == 0 {
      ControlAcceptable(c, NTF_SECURITY_SETTING, f.content);
      var ready := c.(opening := false, pending := [],
                      secure := if secure then Some(Secure(false, Zeros(KEY_LEN), [])) else None);
      if secure {
        DrainStarting(env, ready, own);
        assert [] + own == own;
      } else {
        DrainPlain(env, ready, own);
        assert [] + Images(Frames(env, None, own)) == Images(Frames(env, None, own));
        assert Logicals(TakeEntries(other, 0)) == [];
      }
    } else if secure && k == 1 {
      ControlAcceptable(c, REQ_START_CRYPTO, env.publicKey);
      ActiveStarts(env, own, other);
    } else {
      var n := if secure then k - 2 else k - 1;
      FrameAt(env, secure, Passive, other, kP, k);
      DeliversFrame(env, c, other[n]);
      TakeNext(other, n);
    }
  }

  /** The key request: the session key goes back and the secure pending list follows, encrypted. */
  lemma ActiveStarts(env: Env, own: seq<Entry>, other: seq<Entry>)
    requires EnvOk(env) && AllSubmittable(own)
    ensures var c, f := ActiveState(env, true, own, other, 1, []), Control(REQ_START_CRYPTO, env.publicKey);
            Complete(env, c, f.header, f.content) == ActiveState(env, true, own, other, 2, [])
  {
    var c := ActiveState(env, true, own, other, 1, []);
    var reply := Control(RSP_START_CRYPTO, env.wrap(env.publicKey, env.sessionKey));
    var frames := Frames(env, Some(env.sessionKey), own);
    assert Take(env.publicKey, |env.publicKey|) == env.publicKey;
    assert Logicals(TakeEntries(other, 0)) == [];
    var c1 := c.(wire := c.wire + FrameImage(reply), secure := Some(Secure(true, env.sessionKey, [])));
    hide Frames, EncodeHeader, Logicals, TakeEntries, Works, WholeBlocks, AllSubmittable;
    DrainStarted(env, c1, own);
    assert ([reply] + frames)[1..] == frames;
    assert [] + FrameImage(reply) == FrameImage(reply);
  }

  /** The passive end completes frame `k` of what the active end sends. */
  lemma PassiveCompletes(env: Env, secure: bool, own: seq<Entry>, other: seq<Entry>, k: nat, kA: nat)
    requires EnvOk(env) && AllSubmittable(own) && AllSubmittable(other)
    requires k < |ActiveFrames(env, secure, other, kA)|
    ensures var c, f := PassiveState(env, secure, own, other, k, []), ActiveFrames(env, secure, other, kA)[k];
            Acceptable(c, f)
            && Complete(env, c, f.header, f.content) == PassiveState(env, secure, own, other, k + 1, [])
  {
    var c, f := PassiveState(env, secure, own, other, k, []), ActiveFrames(env, secure, other, kA)[k];
    var key := if secure then Some(env.sessionKey) else None;
    if secure && k == 0 {
      ControlAcceptable(c, RSP_START_CRYPTO, env.wrap(env.publicKey, env.sessionKey));
      PassiveStarts(env, own, other);
    } else {
      var n := if secure then k - 1 else k;
      FrameAt(env, secure, Active, other, kA, k);
      DeliversFrame(env, c, other[n]);
      TakeNext(other, n);
    }
  }

  lemma PassiveStarts(env: Env, own: seq<Entry>, other: seq<Entry>)
    requires EnvOk(env) && AllSubmittable(own)
    ensures var c, f := PassiveState(env, true, own, other, 0, []),
                        Control(RSP_START_CRYPTO, env.wrap(env.publicKey, env.sessionKey));
            Complete(env, c, f.header, f.content) == PassiveState(env, true, own, other, 1, [])
  {
    hide EncodeHeader, Feed, Images, Frames, Logicals, Hello;
    var c := PassiveState(env, true, own, other, 0, []);
    var wrapped := env.wrap(env.publicKey, env.sessionKey);
    assert Take(wrapped, |wrapped|) == wrapped;
    assert env.sessionKey[..KEY_LEN] == env.sessionKey;
    var c1 := c.(secure := Some(Secure(true, env.sessionKey, [])));
    DrainStarted(env, c1, own);
    assert Hello(env, true) + [] == Hello(env, true);
    ImagesConcat(Hello(env, true), Frames(env, Some(env.sessionKey), own));
    assert Logicals(TakeEntries(other, 0)) == [];
  }

  /** Completing a frame changes what an end has sent only by appending. */
  lemma SentGrows(env: Env, secure: bool, role: Role, own: seq<Entry>, k: nat)
    ensures Sent(env, secure, role, own, k) <= Sent(env, secure, role, own, k + 1)
  {
  }

  lemma FeedOne(env: Env, c: Conn, wire: seq<byte>, at: nat)
    requires at < |wire|
    ensures Feed(env, c, wire[at..at + 1]) == FeedByte(env, c, wire[at])
  {
    assert wire[at..at + 1] == [] + [wire[at]];
    FeedLast(env, c, [], wire[at]);
  }

  lemma Completes(env: Env, secure: bool, role: Role, own: seq<Entry>, other: seq<Entry>, k: nat, kPeer: nat)
    requires EnvOk(env) && AllSubmittable(own) && AllSubmittable(other)
    requires k < |Sent(env, secure, Peer(role), other, kPeer)|
    ensures var c, f := State(env, secure, role, own, other, k, []), Sent(env, secure, Peer(role), other, kPeer)[k];
            Acceptable(c, f) && Complete(env, c, f.header, f.content) == State(env, secure, role, own, other, k + 1, [])
  {
    if role.Active? {
      ActiveCompletes(env, secure, own, other, k, kPeer);
    } else {
      PassiveCompletes(env, secure, own, other, k, kPeer);
    }
  }

  /** One byte more of the frame being received. */
  lemma ByteCompletes(env: Env, secure: bool, role: Role, own: seq<Entry>, other: seq<Entry>, k: nat, kPeer: nat, partial: seq<byte>)
    requires EnvOk(env) && AllSubmittable(own) && AllSubmittable(other)
    requires k < |Sent(env, secure, Peer(role), other, kPeer)|
    requires var image := FrameImage(Sent(env, secure, Peer(role), other, kPeer)[k]);
             |partial| < |image| && partial <= image
    ensures var image, n := FrameImage(Sent(env, secure, Peer(role), other, kPeer)[k]), |partial|;
            FeedByte(env, State(env, secure, role, own, other, k, partial), image[n])
            == if n + 1 == |image| then State(env, secure, role, own, other, k + 1, [])
               else State(env, secure, role, own, other, k, image[..n + 1])
  {
    var f := Sent(env, secure, Peer(role), other, kPeer)[k];
    Completes(env, secure, role, own, other, k, kPeer);
    WireIsSent(env, secure, role, own, other, k, partial);
    ByteOfFrame(env, State(env, secure, role, own, other, k, partial), f);
    StatePartial(env, secure, role, own, other, k, partial, FrameImage(f)[..|partial| + 1]);
  }

  lemma ConnAfterByte(env: Env, secure: bool, role: Role, end: End, other: seq<Entry>, kPeer: nat, k: nat)
    returns (k': nat, partial: seq<byte>)
    requires EnvOk(env) && AllSubmittable(other) && AllSubmittable(end.submitted)
    requires end.conn == State(env, secure, role, end.submitted, other, k, end.conn.partial)
    requires At(Sent(env, secure, Peer(role), other, kPeer), end.read, k, end.conn.partial)
    requires end.read < |Images(Sent(env, secure, Peer(role), other, kPeer))|
    ensures var incoming := Sent(env, secure, Peer(role), other, kPeer);
            && Feed(env, end.conn, Images(incoming)[end.read..end.read + 1])
               == State(env, secure, role, end.submitted, other, k', partial)
            && At(incoming, end.read + 1, k', partial)
    ensures Sent(env, secure, role, end.submitted, k) <= Sent(env, secure, role, end.submitted, k')
  {
    hide *;
    var incoming, p := Sent(env, secure, Peer(role), other, kPeer), end.conn.partial;
    AtByte(incoming, end.read, k, p);
    AtNext(incoming, end.read, k, p);
    FeedOne(env, end.conn, Images(incoming), end.read);
    ByteCompletes(env, secure, role, end.submitted, other, k, kPeer, p);
    SentGrows(env, secure, role, end.submitted, k);
    var image := FrameImage(incoming[k]);
    if |p| + 1 == |image| {
      k', partial := k + 1, [];
    } else {
      k', partial := k, image[..|p| + 1];
    }
  }

  lemma StandsAfterByte(env: Env, secure: bool, role: Role, end: End, other: seq<Entry>, kPeer: nat, k: nat) returns (k': nat)
    requires EnvOk(env) && AllSubmittable(other)
    requires end in Standing(env, secure, role, other, Sent(env, secure, Peer(role), other, kPeer), k)
    requires end.read < |Images(Sent(env, secure, Peer(role), other, kPeer))|
    ensures var incoming := Sent(env, secure, Peer(role), other, kPeer);
            ReadFrom(env, end, Images(incoming), 1) in Standing(env, secure, role, other, incoming, k')
    ensures Sent(env, secure, role, end.submitted, k) <= Sent(env, secure, role, end.submitted, k')
  {
    hide Standing, State, At, Sent, Images, Feed, AllSubmittable, EnvOk;
    var incoming := Sent(env, secure, Peer(role), other, kPeer);
    StandingParts(env, secure, role, other, incoming, k, end);
    var partial;
    k', partial := ConnAfterByte(env, secure, role, end, other, kPeer, k);
    StandingIf(env, secure, role, other, incoming, k', ReadFrom(env, end, Images(incoming), 1), partial);
  }

  /** The parts of a standing, put together and taken apart. */
  lemma StandingIf(env: Env, secure: bool, role: Role, other: seq<Entry>, incoming: seq<Packet>, k: nat, end: End, partial: seq<byte>)
    requires AllSubmittable(end.submitted)
    requires end.conn == State(env, secure, role, end.submitted, other, k, partial)
    requires At(incoming, end.read, k, partial)
    ensures end in Standing(env, secure, role, other, incoming, k)
  {
    WireIsSent(env, secure, role, end.submitted, other, k, partial);
  }

  lemma StandingParts(env: Env, secure: bool, role: Role, other: seq<Entry>, incoming: seq<Packet>, k: nat, end: End)
    requires end in Standing(env, secure, role, other, incoming, k)
    ensures AllSubmittable(end.submitted) && end.conn.wire == Images(Sent(env, secure, role, end.submitted, k))
    ensures end.conn == State(env, secure, role, end.submitted, other, k, end.conn.partial)
    ensures At(incoming, end.read, k, end.conn.partial)
  {
  }

  lemma StatePartial(env: Env, secure: bool, role: Role, own: seq<Entry>, other: seq<Entry>, k: nat, p: seq<byte>, q: seq<byte>)
    ensures State(env, secure, role, own, other, k, p).(partial := q) == State(env, secure, role, own, other, k, q)
  {
  }

  lemma ReadByteKeeps(env: Env, secure: bool, role: Role, s: System)
    requires EnvOk(env) && s in Consistent(env, secure, role) && Enabled(s, Read(1))
    ensures Do(env, s, Read(1)) in Consistent(env, secure, role)
  {
    var own, peer := s.here, s.there;
    var k, kPeer :| Pair(env, secure, role, own, peer, k, kPeer);
    var incoming, sent := Sent(env, secure, Peer(role), peer.submitted, kPeer), Sent(env, secure, role, own.submitted, k);
    StandingParts(env, secure, Peer(role), own.submitted, sent, kPeer, peer);
    StandingParts(env, secure, role, peer.submitted, incoming, k, own);
    var k' := StandsAfterByte(env, secure, role, own, peer.submitted, kPeer, k);
    var own', sent' := ReadFrom(env, own, peer.conn.wire, 1), Sent(env, secure, role, own.submitted, k');
    StandingParts(env, secure, role, peer.submitted, incoming, k', own');
    StandsExtends(env, secure, Peer(role), peer, own.submitted, sent, kPeer, sent');
    PairIf(env, secure, role, own', peer, k', kPeer);
  }

  lemma PairIf(env: Env, secure: bool, role: Role, own: End, peer: End, k: nat, kPeer: nat)
    requires own in Standing(env, secure, role, peer.submitted, Sent(env, secure, Peer(role), peer.submitted, kPeer), k)
    requires peer in Standing(env, secure, Peer(role), own.submitted, Sent(env, secure, role, own.submitted, k), kPeer)
    requires peer.read <= own.written <= |own.conn.wire| && own.read <= peer.written <= |peer.conn.wire|
    ensures System(own, peer) in Consistent(env, secure, role)
  {
    var seen := Pair(env, secure, role, own, peer, k, kPeer);
  }

  /** A set of states that single-byte reads do not leave is not left by longer ones. */
  lemma {:induction false} ReadInduction(env: Env, inv: iset<System>, s: System, count: nat)
    requires forall t | t in inv && Enabled(t, Read(1)) :: Do(env, t, Read(1)) in inv
    requires s in inv && Enabled(s, Read(count))
    ensures Do(env, s, Read(count)) in inv
    decreases count
  {
    var wire, from := s.there.conn.wire, s.here.read;
    if count == 0 {
      assert wire[from..from] == [];
      assert Do(env, s, Read(0)) == s;
    } else {
      var first, rest := wire[from..from + 1], wire[from + 1..from + count];
      assert wire[from..from + count] == first + rest;
      FeedConcat(env, s.here.conn, first, rest);
      assert Enabled(s, Read(1));
      ReadInduction(env, inv, Do(env, s, Read(1)), count - 1);
    }
  }

  lemma ActKeeps(env: Env, secure: bool, role: Role, s: System, act: Act)
    requires EnvOk(env) && s in Consistent(env, secure, role) && Enabled(s, act)
    ensures Do(env, s, act) in Consistent(env, secure, role)
  {
    match act {
      case Submit(e) => SubmitKeeps(env, secure, role, s, e);
      case Write(n) => WriteKeeps(env, secure, role, s, n);
      case Read(n) =>
        forall t | t in Consistent(env, secure, role) && Enabled(t, Read(1))
          ensures Do(env, t, Read(1)) in Consistent(env, secure, role)
        {
          ReadByteKeeps(env, secure, role, t);
        }
        ReadInduction(env, Consistent(env, secure, role), s, n);
    }
  }

  /** Two sets of states, one for each point of view, that acts do not leave, are not left by runs. */
  lemma {:induction false} RunInduction(env: Env, inv: Role -> iset<System>, s: System, run: seq<Step>)
    requires forall r, t | t in inv(r) :: Swap(t) in inv(Peer(r))
    requires forall r, t, act | t in inv(r) && Enabled(t, act) :: Do(env, t, act) in inv(r)
    requires s in inv(Active) && Legal(env, s, run)
    ensures After(env, s, run) in inv(Active)
    decreases |run|
  {
    if run != [] {
      var role, act := run[0].role, run[0].act;
      assert Swap(s) in inv(Peer(Active));
      assert From(role, s) in inv(role);
      assert Do(env, From(role, s), act) in inv(role);
      assert Swap(Do(env, From(role, s), act)) in inv(Peer(role));
      RunInduction(env, inv, Apply(env, s, run[0]), run[1..]);
    }
  }

  lemma InitialConsistent(env: Env, secure: bool)
    ensures Initial(env, secure) in Consistent(env, secure, Active)
  {
    var s := Initial(env, secure);
    assert Hello(env, secure) + [] == Hello(env, secure);
    assert Hello(env, secure)[..0] == [] && ActiveFrames(env, secure, [], 0)[..0] == [];
    assert Logicals(TakeEntries([], 0)) == [];
    var seen := Pair(env, secure, Active, s.here, s.there, 0, 0);
  }

  lemma Reached(env: Env, secure: bool, run: seq<Step>) returns (kA: nat, kP: nat)
    requires EnvOk(env) && Legal(env, Initial(env, secure), run)
    ensures var s := After(env, Initial(env, secure), run); Pair(env, secure, Active, s.here, s.there, kA, kP)
  {
    InitialConsistent(env, secure);
    forall r, t | t in Consistent(env, secure, r)
      ensures Swap(t) in Consistent(env, secure, Peer(r))
    {
      ConsistentSymmetric(env, secure, r, t);
    }
    forall r, t, act | t in Consistent(env, secure, r) && Enabled(t, act)
      ensures Do(env, t, act) in Consistent(env, secure, r)
    {
      ActKeeps(env, secure, r, t, act);
    }
    RunInduction(env, r => Consistent(env, secure, r), Initial(env, secure), run);
    var s := After(env, Initial(env, secure), run);
    kA, kP :| Pair(env, secure, Active, s.here, s.there, kA, kP);
  }

  // ------------------------------------------------------------------ theorems

  predicate Started(c: Conn) {
    c.secure.Some? && c.secure.value.started
  }

  predicate SameKey(s: System) {
    var a, p := s.here.conn.secure, s.there.conn.secure;
    a.Some? && p.Some? && a.value.started && p.value.started && a.value.key == p.value.key
  }

  /** Safety, after any run: each end has delivered to its worker, in order and unchanged, a prefix
      of what was submitted at the other end; neither has closed; and with security on nothing is
      delivered anywhere before both ends hold the same key. */
  lemma DeliveredIsPrefixOfSubmitted(env: Env, secure: bool, run: seq<Step>)
    requires EnvOk(env) && Legal(env, Initial(env, secure), run)
    ensures var s := After(env, Initial(env, secure), run);
            && s.there.conn.delivered <= Logicals(s.here.submitted)
            && s.here.conn.delivered <= Logicals(s.there.submitted)
            && Live(s.here.conn) && Live(s.there.conn)
            && (secure && (s.here.conn.delivered != [] || s.there.conn.delivered != []) ==> SameKey(s))
  {
    var kA, kP := Reached(env, secure, run);
    var s := After(env, Initial(env, secure), run);
    DeliveredOf(env, secure, Passive, s.there, s.here.submitted, kP);
    DeliveredOf(env, secure, Active, s.here, s.there.submitted, kA);
  }

  /** What an end has delivered after `k` received frames. */
  lemma DeliveredOf(env: Env, secure: bool, role: Role, end: End, other: seq<Entry>, k: nat)
    requires end.conn == State(env, secure, role, end.submitted, other, k, end.conn.partial)
    ensures Live(end.conn) && end.conn.delivered <= Logicals(other)
    ensures end.conn.delivered != [] ==> k > FrameLead(secure, role)
    ensures k == |other| + FrameLead(secure, role) ==> end.conn.delivered == Logicals(other)
    ensures secure && k > FrameLead(secure, role) - 1 ==>
              end.conn.secure.Some? && end.conn.secure.value.started && end.conn.secure.value.key == env.sessionKey
  {
  }

  predicate AllRead(s: System) {
    s.here.read == |s.there.conn.wire| && s.there.read == |s.here.conn.wire|
  }

  predicate AllDelivered(s: System) {
    s.there.conn.delivered == Logicals(s.here.submitted) && s.here.conn.delivered == Logicals(s.there.submitted)
  }

  /** Nothing is lost or stuck: once everything sent has been read, everything submitted has been
      delivered, in both directions. */
  lemma AllReadMeansAllDelivered(env: Env, secure: bool, run: seq<Step>)
    requires EnvOk(env) && Legal(env, Initial(env, secure), run)
    ensures var s := After(env, Initial(env, secure), run);
            AllRead(s) ==> AllDelivered(s)
  {
    var kA, kP := Reached(env, secure, run);
    var s := After(env, Initial(env, secure), run);
    if AllRead(s) {
      WireIsSent(env, secure, Active, s.here.submitted, s.there.submitted, kA, s.here.conn.partial);
      WireIsSent(env, secure, Passive, s.there.submitted, s.here.submitted, kP, s.there.conn.partial);
      AtEnd(PassiveFrames(env, secure, s.there.submitted, kP), s.here.read, kA, s.here.conn.partial);
      AtEnd(ActiveFrames(env, secure, s.here.submitted, kA), s.there.read, kP, s.there.conn.partial);
      DeliveredOf(env, secure, Passive, s.there, s.here.submitted, kP);
      DeliveredOf(env, secure, Active, s.here, s.there.submitted, kA);
    }
  }

  /** A reader that has taken the whole stream has completed all of its frames. */
  lemma AtEnd(frames: seq<Packet>, read: nat, k: nat, partial: seq<byte>)
    requires At(frames, read, k, partial) && read == |Images(frames)|
    ensures k == |frames|
  {
    assert frames == frames[..k] + frames[k..];
    ImagesConcat(frames[..k], frames[k..]);
  }

  /** Sending order: what either end has handed to its socket is its control messages followed by
      all submitted packages in submission order, each once. With security on each is encrypted
      exactly once, and none is sent before that end has the key. */
  lemma WireIsSubmissionOrder(env: Env, secure: bool, run: seq<Step>)
    requires EnvOk(env) && Legal(env, Initial(env, secure), run)
    ensures var s := After(env, Initial(env, secure), run);
            var a, p := s.here, s.there;
            var key := if secure then Some(env.sessionKey) else None;
            var reply := if secure then [Control(RSP_START_CRYPTO, env.wrap(env.publicKey, env.sessionKey))] else [];
            && a.conn.wire == (if a.conn.opening || (secure && !Started(a.conn)) then []
                               else Images(reply + Frames(env, key, a.submitted)))
            && p.conn.wire == (if secure && !Started(p.conn) then Images(Hello(env, secure))
                               else Images(Hello(env, secure) + Frames(env, key, p.submitted)))
  {
    var kA, kP := Reached(env, secure, run);
    var s := After(env, Initial(env, secure), run);
    ActiveWire(env, secure, s.here, s.there.submitted, kA);
    PassiveWire(env, secure, s.there, s.here.submitted, kP);
  }

  lemma ActiveWire(env: Env, secure: bool, end: End, other: seq<Entry>, k: nat)
    requires end.conn == State(env, secure, Active, end.submitted, other, k, end.conn.partial)
    ensures var key := if secure then Some(env.sessionKey) else None;
            var reply := if secure then [Control(RSP_START_CRYPTO, env.wrap(env.publicKey, env.sessionKey))] else [];
            end.conn.wire == if end.conn.opening || (secure && !Started(end.conn)) then []
                             else Images(reply + Frames(env, key, end.submitted))
  {
    assert [] + Frames(env, None, end.submitted) == Frames(env, None, end.submitted);
  }

  lemma PassiveWire(env: Env, secure: bool, end: End, other: seq<Entry>, k: nat)
    requires end.conn == State(env, secure, Passive, end.submitted, other, k, end.conn.partial)
    ensures var key := if secure then Some(env.sessionKey) else None;
            end.conn.wire == if secure && !Started(end.conn) then Images(Hello(env, secure))
                             else Images(Hello(env, secure) + Frames(env, key, end.submitted))
  {
    assert Hello(env, secure) + [] == Hello(env, secure);
  }
}
