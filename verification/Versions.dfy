/** Two ends of different versions: what they say to each other before both have closed. Of a package
    of another version only the base header is understood. */
module Versions {
  import opened Wire
  import opened Session

  /** The base header of a package. */
  datatype Sign = Sign(version: int, command: int)

  /** `heard` counts the packages of the other end whose base header has been read. */
  datatype Peer = Peer(version: int, shut: bool, sent: seq<Sign>, heard: nat)

  /** An end reads the next base header. */
  function Heard(p: Peer, s: Sign): Peer {
    if p.shut then p
    else
      var p1 := p.(heard := p.heard + 1);
      if s.version == p.version then p1
      else if s.command == NTF_INVALID_VERSION then p1.(shut := true)
      else p1.(shut := true, sent := p.sent + [Sign(p.version, NTF_INVALID_VERSION)])
  }

  datatype Step = Say(byFirst: bool, command: int) | Hear(byFirst: bool)

  predicate Enabled(a: Peer, b: Peer, step: Step) {
    var (p, o) := if step.byFirst then (a, b) else (b, a);
    match step
    case Say(_, command) => !p.shut && command != NTF_INVALID_VERSION
    case Hear(_) => p.heard < |o.sent|
  }

  function Moved(p: Peer, o: Peer, step: Step): Peer
    requires step.Hear? ==> p.heard < |o.sent|
  {
    match step
    case Say(_, command) => p.(sent := p.sent + [Sign(p.version, command)])
    case Hear(_) => Heard(p, o.sent[p.heard])
  }

  function Next(a: Peer, b: Peer, step: Step): (Peer, Peer)
    requires Enabled(a, b, step)
  {
    if step.byFirst then (Moved(a, b, step), b) else (a, Moved(b, a, step))
  }

  predicate Legal(a: Peer, b: Peer, run: seq<Step>)
    decreases |run|
  {
    run == [] || (Enabled(a, b, run[0]) && Legal(Next(a, b, run[0]).0, Next(a, b, run[0]).1, run[1..]))
  }

  function After(a: Peer, b: Peer, run: seq<Step>): (Peer, Peer)
    requires Legal(a, b, run)
    decreases |run|
  {
    if run == [] then (a, b) else After(Next(a, b, run[0]).0, Next(a, b, run[0]).1, run[1..])
  }

  function Notices(sent: seq<Sign>): nat {
    if sent == [] then 0 else (if sent[0].command == NTF_INVALID_VERSION then 1 else 0) + Notices(sent[1..])
  }

  lemma {:induction false} NoticesAppend(sent: seq<Sign>, s: Sign)
    ensures Notices(sent + [s]) == Notices(sent) + if s.command == NTF_INVALID_VERSION then 1 else 0
  {
    if sent == [] {
      assert [s][1..] == [];
    } else {
      assert (sent + [s])[1..] == sent[1..] + [s];
      NoticesAppend(sent[1..], s);
    }
  }

  predicate BeginsWithNotice(sent: seq<Sign>) {
    sent != [] && sent[0].command == NTF_INVALID_VERSION
  }

  /** One end has heard nothing, or one package of the other; then it is closed, and has sent a notice
      exactly if that package was none. */
  predicate Settled(p: Peer, o: Peer) {
    && (forall i | 0 <= i < |p.sent| :: p.sent[i].version == p.version)
    && p.heard <= 1 && p.heard <= |o.sent| && (p.shut <==> p.heard == 1)
    && Notices(p.sent) == if p.heard == 1 && o.sent[0].command != NTF_INVALID_VERSION then 1 else 0
  }

  lemma StepSettles(a: Peer, b: Peer, step: Step)
    requires a.version != b.version && Settled(a, b) && Settled(b, a) && Enabled(a, b, step)
    ensures var (a', b') := Next(a, b, step);
            a'.version == a.version && b'.version == b.version && Settled(a', b') && Settled(b', a')
  {
    var p := if step.byFirst then a else b;
    match step
    case Say(_, command) => NoticesAppend(p.sent, Sign(p.version, command));
    case Hear(_) => NoticesAppend(p.sent, Sign(p.version, NTF_INVALID_VERSION));
  }

  lemma {:induction false} RunSettles(a: Peer, b: Peer, run: seq<Step>)
    requires a.version != b.version && Settled(a, b) && Settled(b, a) && Legal(a, b, run)
    ensures var (a', b') := After(a, b, run); Settled(a', b') && Settled(b', a')
    decreases |run|
  {
    if run != [] {
      StepSettles(a, b, run[0]);
      RunSettles(Next(a, b, run[0]).0, Next(a, b, run[0]).1, run[1..]);
    }
  }

  function NewPeer(version: int): Peer {
    Peer(version, false, [], 0)
  }

  /** Whatever two ends of different versions say and whenever they read: each sends at most one
      notice, none in answer to a notice, and closes on the first package it reads. */
  lemma OneNoticeEach(v: int, w: int, run: seq<Step>)
    requires v != w && Legal(NewPeer(v), NewPeer(w), run)
    ensures var (a, b) := After(NewPeer(v), NewPeer(w), run);
            && Notices(a.sent) <= 1 && Notices(b.sent) <= 1
            && (Notices(a.sent) == 1 <==> a.shut && !BeginsWithNotice(b.sent))
            && (Notices(b.sent) == 1 <==> b.shut && !BeginsWithNotice(a.sent))
            && (a.shut <==> a.heard > 0) && (b.shut <==> b.heard > 0)
  {
    assert Notices([]) == 0;
    RunSettles(NewPeer(v), NewPeer(w), run);
  }

  /** An end of this version, fed with a package of another one and whatever follows, does just that:
      it closes, and what it writes are the images of what the peer sends. */
  lemma HeardIsFed(env: Env, c: Conn, p: Peer, h: Header, rest: seq<byte>)
    requires Live(c) && c.partial == [] && p.version == PACKAGE_VERSION && !p.shut
    requires HeaderFits(h) && h.version != PACKAGE_VERSION
    ensures var c', p' := Feed(env, c, EncodeHeader(h) + rest), Heard(p, Sign(h.version, h.command));
            && c'.shut == p'.shut && c'.delivered == c.delivered
            && c'.wire == c.wire + if |p'.sent| > |p.sent| then ControlImage(p'.sent[|p.sent|].command, []) else []
  {
    var head := EncodeHeader(h);
    HeaderRoundTrip(h, []);
    assert head + [] == head && [] + (head + rest) == head + rest && c.wire + [] == c.wire;
    HeaderPrefix(head, rest);
    ForeignVersion(env, c, head + rest);
  }
}
