/** Why the key exchange needs whole blocks: the receiver rounds the lengths of the public key and of
    the wrapped session key up to a block, the sender pads neither. */
module Handshake {
  import opened Wire
  import opened Aes
  import opened Packages
  import opened Session
  import opened Endpoints

  /** The two images a passive end starts with. */
  function Setting(): Header {
    Header(PACKAGE_VERSION, NTF_SECURITY_SETTING, 1, 0, 0)
  }

  function Request(env: Env): Header {
    Header(PACKAGE_VERSION, REQ_START_CRYPTO, |env.publicKey|, 0, 0)
  }

  function SettingImage(): (s: seq<byte>)
    ensures |s| == HEADER_LEN + 1
  {
    EncodeHeader(Setting()) + [OPEN_SECURITY]
  }

  function RequestImage(env: Env): (s: seq<byte>)
    ensures |s| == HEADER_LEN + |env.publicKey|
  {
    EncodeHeader(Request(env)) + env.publicKey
  }

  /** The length fits the header's field, rounded up too. */
  predicate Announceable(length: nat) {
    CipherLength(length) < INT_SPAN_HALF
  }

  ghost predicate OddKey(env: Env) {
    Announceable(|env.publicKey|) && !WholeBlocks(|env.publicKey|)
  }

  /** The active end with packages `es` waiting, before anything has arrived and after the setting. */
  function Opening(es: seq<Entry>): Conn {
    NEW_ACTIVE.(pending := es)
  }

  function Starting(es: seq<Entry>): Conn {
    Conn(Active, false, false, false, Some(Secure(false, Zeros(KEY_LEN), es)), [], [], [], [])
  }

  /** The active end after the first `n` bytes of the passive end. */
  function Early(env: Env, es: seq<Entry>, n: nat): Conn {
    if n < HEADER_LEN + 1 then Opening(es).(partial := SettingImage()[..n])
    else Starting(es).(partial := Take(RequestImage(env), n - HEADER_LEN - 1))
  }

  /** The header of the request makes it give up. */
  predicate GivesUp(env: Env, n: nat) {
    n >= 2 * HEADER_LEN + 1 && CipherLength(|env.publicKey|) > MAX_CONTENT_LEN
  }

  lemma SettingArrives(env: Env, es: seq<Entry>)
    ensures Feed(env, Opening(es), SettingImage()) == Starting(es)
  {
    SpanValues();
    FeedImage(env, Opening(es), Setting(), [OPEN_SECURITY]);
    var ready := Starting([]);
    DrainStarting(env, ready, es);
    assert [] + es == es;
  }

  /** However much of a package without whole blocks arrives, it is never complete. */
  lemma MisfitStays(env: Env, c: Conn, h: Header, payload: seq<byte>, n: nat)
    requires Live(c) && c.partial == [] && c.secure.Some?
    requires HeaderFits(h) && h.version == PACKAGE_VERSION && h.contentLength == |payload|
    requires Announceable(|payload|) && !WholeBlocks(|payload|) && n <= HEADER_LEN + |payload|
    ensures var image := EncodeHeader(h) + payload;
            Feed(env, c, image[..n])
            == if n >= HEADER_LEN && CipherLength(|payload|) > MAX_CONTENT_LEN then Shut(c) else c.(partial := image[..n])
  {
    var image := EncodeHeader(h) + payload;
    if n < HEADER_LEN {
      assert image[..n] == EncodeHeader(h)[..n];
      FeedHeadFront(env, c, h, n);
    } else {
      var head, front := EncodeHeader(h), payload[..n - HEADER_LEN];
      assert image[..n] == head + front;
      FeedHead(env, c, h);
      FeedConcat(env, c, head, front);
      if CipherLength(|payload|) > MAX_CONTENT_LEN {
        FeedStopped(env, Shut(c), front);
      } else {
        FeedWithinContent(env, c.(partial := head), front);
      }
    }
  }

  lemma RequestStays(env: Env, es: seq<Entry>, n: nat)
    requires OddKey(env) && n <= |RequestImage(env)|
    ensures var c := Feed(env, Starting(es), RequestImage(env)[..n]);
            if n >= HEADER_LEN && CipherLength(|env.publicKey|) > MAX_CONTENT_LEN then c == Shut(Starting(es))
            else c == Starting(es).(partial := RequestImage(env)[..n])
  {
    SpanValues();
    MisfitStays(env, Starting(es), Request(env), env.publicKey, n);
  }

  /** What has arrived from the start, in one read. */
  lemma FromTheStart(env: Env, es: seq<Entry>, n: nat)
    requires OddKey(env) && n <= |SettingImage() + RequestImage(env)|
    ensures var c := Feed(env, Opening(es), (SettingImage() + RequestImage(env))[..n]);
            if GivesUp(env, n) then c == Shut(Starting(es)) else c == Early(env, es, n)
  {
    hide Feed, FeedByte, Complete;
    var s, r := SettingImage(), RequestImage(env);
    if n < |s| {
      assert (s + r)[..n] == s[..n];
      SpanValues();
      FeedImagePrefix(env, Opening(es), Setting(), [OPEN_SECURITY], n);
    } else {
      assert (s + r)[..n] == s + r[..n - |s|];
      FeedConcat(env, Opening(es), s, r[..n - |s|]);
      SettingArrives(env, es);
      RequestStays(env, es, n - |s|);
    }
  }

  // ------------------------------------------------------------------- runs

  ghost predicate ActiveStuck(env: Env, end: End) {
    && end.conn.wire == [] && end.conn.delivered == [] && !Started(end.conn)
    && (end.conn.shut || (end.read <= |SettingImage() + RequestImage(env)| && !GivesUp(env, end.read)
                          && end.conn == Early(env, end.submitted, end.read)))
  }

  ghost predicate PassiveStuck(env: Env, end: End) {
    end.read == 0 && end.conn == NewPassive(env, true).(secure := Some(Secure(false, Zeros(KEY_LEN), end.submitted)))
  }

  ghost predicate Stuck(env: Env, s: System) {
    ActiveStuck(env, s.here) && PassiveStuck(env, s.there)
  }

  /** It has sent and delivered nothing, whether it waits or has given up. */
  lemma EarlyIsIdle(env: Env, es: seq<Entry>, n: nat)
    ensures forall c | c == Early(env, es, n) || c == Shut(Starting(es)) ::
              c.wire == [] && c.delivered == [] && !Started(c)
    ensures Shut(Starting(es)).shut
  {
  }

  lemma HelloWire(env: Env, end: End)
    requires PassiveStuck(env, end)
    ensures end.conn.wire == SettingImage() + RequestImage(env)
  {
    HelloImages(env, true);
  }

  lemma ActiveReads(env: Env, s: System, count: nat)
    requires OddKey(env) && Stuck(env, s) && s.here.read + count <= |s.there.conn.wire|
    ensures ActiveStuck(env, ReadFrom(env, s.here, s.there.conn.wire, count))
  {
    hide Feed, Early, Starting, Shut, Started, SettingImage, RequestImage, GivesUp, PassiveStuck, OddKey;
    HelloWire(env, s.there);
    var end, wire := s.here, s.there.conn.wire;
    if end.conn.shut {
      FeedStopped(env, end.conn, wire[end.read..end.read + count]);
    } else {
      EarlyReads(env, end.submitted, end.read, count);
      EarlyIsIdle(env, end.submitted, end.read + count);
    }
  }

  lemma EarlyReads(env: Env, es: seq<Entry>, n: nat, count: nat)
    requires OddKey(env) && n + count <= |SettingImage() + RequestImage(env)| && !GivesUp(env, n)
    ensures var c := Feed(env, Early(env, es, n), (SettingImage() + RequestImage(env))[n..n + count]);
            if GivesUp(env, n + count) then c == Shut(Starting(es)) else c == Early(env, es, n + count)
  {
    hide Feed, Early, Opening, Starting, SettingImage, RequestImage, GivesUp, OddKey;
    var wire := SettingImage() + RequestImage(env);
    FromTheStart(env, es, n);
    FromTheStart(env, es, n + count);
    FeedConcat(env, Opening(es), wire[..n], wire[n..n + count]);
    assert wire[..n + count] == wire[..n] + wire[n..n + count];
  }

  lemma ActStays(env: Env, s: System, step: Step)
    requires OddKey(env) && Stuck(env, s) && Enabled(From(step.role, s), step.act)
    ensures Stuck(env, Apply(env, s, step))
  {
    if step.role.Active? {
      match step.act
      case Submit(e) =>
      case Write(_) =>
      case Read(count) =>
        ActiveReads(env, s, count);
    } else {
      match step.act
      case Submit(e) =>
      case Write(_) =>
      case Read(count) =>
        assert s.here.conn.wire[0..0] == [];
    }
  }

  lemma {:induction false} RunStays(env: Env, s: System, run: seq<Step>)
    requires OddKey(env) && Stuck(env, s) && Legal(env, s, run)
    ensures Stuck(env, After(env, s, run))
    decreases |run|
  {
    if run != [] {
      ActStays(env, s, run[0]);
      RunStays(env, Apply(env, s, run[0]), run[1..]);
    }
  }

  /** With security on and a public key that is not a whole number of blocks, no run ever delivers
      anything at either end, and no key is ever agreed on. */
  lemma OddKeyDeliversNothing(env: Env, run: seq<Step>)
    requires OddKey(env) && Legal(env, Initial(env, true), run)
    ensures var s := After(env, Initial(env, true), run);
            s.here.conn.delivered == [] && s.there.conn.delivered == [] && !Started(s.here.conn) && !Started(s.there.conn)
  {
    assert SettingImage()[..0] == [];
    RunStays(env, Initial(env, true), run);
  }

  // ------------------------------------------------------------ what is needed

  const WITNESS := Entry(Header(PACKAGE_VERSION, 100, 0, 0, 0), [], false)

  lemma OneMore(env: Env, s: System, run: seq<Step>, step: Step) returns (longer: seq<Step>)
    requires Legal(env, s, run) && Enabled(From(step.role, After(env, s, run)), step.act)
    ensures Legal(env, s, longer) && After(env, s, longer) == Apply(env, After(env, s, run), step)
    decreases |run|
  {
    if run == [] {
      longer := [step];
      assert Legal(env, Apply(env, s, step), longer[1..]);
    } else {
      var rest := OneMore(env, Apply(env, s, run[0]), run[1..], step);
      longer := [run[0]] + rest;
      assert longer[1..] == rest;
    }
  }

  /** The passive end once it has a package waiting, and the active end once it has read everything
      that one has written. */
  function Waiting(env: Env): Conn {
    NewPassive(env, true).(secure := Some(Secure(false, Zeros(KEY_LEN), [WITNESS])))
  }

  function Answered(env: Env): Conn {
    Feed(env, NEW_ACTIVE, NewPassive(env, true).wire)
  }

  /** The exchange is over at the active end; the wrapped key is all it has sent. */
  lemma KeyAnswered(env: Env)
    requires WholeBlocks(|env.publicKey|)
    ensures Answered(env).delivered == [] && Answered(env).wire == ControlImage(RSP_START_CRYPTO, Wrapped(env))
  {
    hide Feed, ControlImage, Complete, Wrapped, Request, RequestImage, SettingImage, Starting, Opening;
    FirstHello(env);
    SettingArrives(env, []);
    FirstOpening();
    FeedConcat(env, NEW_ACTIVE, SettingImage(), RequestImage(env));
    RequestArrives(env);
  }

  lemma FirstHello(env: Env)
    ensures NewPassive(env, true).wire == SettingImage() + RequestImage(env)
  {
    HelloImages(env, true);
  }

  lemma FirstOpening()
    ensures NEW_ACTIVE == Opening([])
  {
  }

  lemma RequestArrives(env: Env)
    requires WholeBlocks(|env.publicKey|)
    ensures var c := Feed(env, Starting([]), RequestImage(env));
            c.delivered == [] && c.wire == ControlImage(RSP_START_CRYPTO, Wrapped(env))
  {
    hide Feed;
    SpanValues();
    FeedImage(env, Starting([]), Request(env), env.publicKey);
    hide ControlImage;
    assert Take(env.publicKey, |env.publicKey|) == env.publicKey;
    assert [] + ControlImage(RSP_START_CRYPTO, Wrapped(env)) == ControlImage(RSP_START_CRYPTO, Wrapped(env));
  }

  lemma KeyUnanswered(env: Env)
    requires OddKey(env)
    ensures Answered(env).delivered == [] && Answered(env).wire == []
  {
    HelloImages(env, true);
    var hello := SettingImage() + RequestImage(env);
    FromTheStart(env, [], |hello|);
    assert hello[..|hello|] == hello;
  }

  /** What the active end sends in answer reaches a passive end that does not understand it. */
  lemma AnswerIsLost(env: Env)
    requires Announceable(|env.publicKey|) && Announceable(|Wrapped(env)|)
    requires !WholeBlocks(|env.publicKey|) || !WholeBlocks(|Wrapped(env)|)
    ensures Answered(env).delivered == []
    ensures var c := Feed(env, Waiting(env), Answered(env).wire);
            c.wire == Waiting(env).wire && c.delivered == []
  {
    if WholeBlocks(|env.publicKey|) {
      KeyAnswered(env);
      var h, image := Header(PACKAGE_VERSION, RSP_START_CRYPTO, |Wrapped(env)|, 0, 0), Answered(env).wire;
      SpanValues();
      MisfitStays(env, Waiting(env), h, Wrapped(env), |image|);
      assert image[..|image|] == image;
    } else {
      KeyUnanswered(env);
    }
  }

  /** A run in which everything written is read and a package is not delivered. */
  lemma StallingRun(env: Env) returns (run: seq<Step>)
    requires Announceable(|env.publicKey|) && Announceable(|Wrapped(env)|)
    requires !WholeBlocks(|env.publicKey|) || !WholeBlocks(|Wrapped(env)|)
    ensures Legal(env, Initial(env, true), run)
    ensures AllRead(After(env, Initial(env, true), run)) && !AllDelivered(After(env, Initial(env, true), run))
  {
    var s := Initial(env, true);
    var hello, answer := s.there.conn.wire, Answered(env).wire;
    AnswerIsLost(env);
    WitnessWaits(env);
    hide Feed, Legal, After, Answered, Waiting, Announceable, WholeBlocks, Logicals, NewPassive, Send, Submittable;
    var c := Feed(env, Waiting(env), answer);
    assert hello[0..|hello|] == hello && answer[0..|answer|] == answer;
    run := OneMore(env, s, [], Step(Passive, Submit(WITNESS)));
    assert After(env, s, run) == System(s.here, End(Waiting(env), [WITNESS], 0, 0));
    run := OneMore(env, s, run, Step(Passive, Write(|hello|)));
    assert After(env, s, run) == System(s.here, End(Waiting(env), [WITNESS], |hello|, 0));
    run := OneMore(env, s, run, Step(Active, Read(|hello|)));
    assert After(env, s, run) == System(End(Answered(env), [], 0, |hello|), End(Waiting(env), [WITNESS], |hello|, 0));
    run := OneMore(env, s, run, Step(Active, Write(|answer|)));
    assert After(env, s, run).here == End(Answered(env), [], |answer|, |hello|);
    run := OneMore(env, s, run, Step(Passive, Read(|answer|)));
    assert After(env, s, run).there == End(c, [WITNESS], |hello|, |answer|);
  }

  lemma WitnessWaits(env: Env)
    ensures Submittable(WITNESS) && Legal(env, Initial(env, true), [])
    ensures After(env, Initial(env, true), []) == Initial(env, true)
    ensures [] + [WITNESS] == [WITNESS] && |Logicals([WITNESS])| == 1
    ensures Send(env, NewPassive(env, true), WITNESS) == Waiting(env)
    ensures Waiting(env).wire == NewPassive(env, true).wire
    ensures Initial(env, true).here == End(NEW_ACTIVE, [], 0, 0)
    ensures Initial(env, true).there == End(NewPassive(env, true), [], 0, 0)
    ensures Feed(env, NEW_ACTIVE, NewPassive(env, true).wire) == Answered(env)
  {
    SpanValues();
  }

  /** With working cryptography, everything read means everything delivered, in all runs, exactly if
      both messages of the key exchange are whole blocks that fit a receive buffer. */
  lemma ExchangeNeedsWholeBlocks(env: Env)
    requires Works(env) && Announceable(|env.publicKey|) && Announceable(|Wrapped(env)|)
    ensures (forall run | Legal(env, Initial(env, true), run) ::
               AllRead(After(env, Initial(env, true), run)) ==> AllDelivered(After(env, Initial(env, true), run)))
            <==> WholeBlocks(|env.publicKey|) && WholeBlocks(|Wrapped(env)|)
  {
    if WholeBlocks(|env.publicKey|) && WholeBlocks(|Wrapped(env)|) {
      forall run | Legal(env, Initial(env, true), run)
        ensures AllRead(After(env, Initial(env, true), run)) ==> AllDelivered(After(env, Initial(env, true), run))
      {
        AllReadMeansAllDelivered(env, true, run);
      }
    } else {
      var run := StallingRun(env);
    }
  }
}
