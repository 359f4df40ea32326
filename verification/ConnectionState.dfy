/** The fields of a connection as one value: what makes them consistent, what they mean in terms of
    Session, and what each elementary change of the code does to that meaning. */
module ConnectionState {
  import opened Wire
  import opened Aes
  import opened Packages
  import opened Session

  datatype ReceiveState = ReceiveHeader | ReceiveContent

  datatype SecureFields = SecureFields(started: bool, key: Key, pending: seq<int>)

  /** `sendList`, `pending` and the secure `pending` hold package ids; `packages` and `nextId` are
      the package manager's; `outbox` is everything the socket has taken; `data` is the receive
      buffer. `finished` is history: the images of the packages written completely, in order. */
  datatype Fields = Fields(role: Role, opening: bool, closing: bool, destroyed: bool,
                           secure: Option<SecureFields>, pending: seq<int>,
                           sendList: seq<int>, sendLen: nat, outbox: seq<byte>, finished: seq<byte>,
                           packages: map<int, Entry>, nextId: int,
                           state: ReceiveState, receiveLen: nat, data: seq<byte>, delivered: seq<Packet>)

  // ------------------------------------------------------------ package queues

  /** The packages a queue of ids stands for; ids whose package is gone are skipped. */
  function Collect(m: map<int, Entry>, ids: seq<int>): seq<Entry> {
    if ids == [] then []
    else if ids[0] in m then [m[ids[0]]] + Collect(m, ids[1..])
    else Collect(m, ids[1..])
  }

  function EntryImages(es: seq<Entry>): seq<byte> {
    if es == [] then [] else Image(es[0]) + EntryImages(es[1..])
  }

  predicate Distinct(ids: seq<int>) {
    ids == [] || (ids[0] !in ids[1..] && Distinct(ids[1..]))
  }

  predicate SameEntry(m: map<int, Entry>, m': map<int, Entry>, id: int) {
    (id in m <==> id in m') && (id in m ==> m[id] == m'[id])
  }

  /** Packages outside the queue do not matter to it. */
  lemma {:induction false} CollectFrame(m: map<int, Entry>, m': map<int, Entry>, ids: seq<int>)
    requires forall id | id in ids :: SameEntry(m, m', id)
    ensures Collect(m, ids) == Collect(m', ids)
    decreases |ids|
  {
    if ids != [] {
      assert SameEntry(m, m', ids[0]);
      CollectFrame(m, m', ids[1..]);
    }
  }

  lemma {:induction false} CollectAppend(m: map<int, Entry>, ids: seq<int>, id: int)
    requires id in m
    ensures Collect(m, ids + [id]) == Collect(m, ids) + [m[id]]
  {
    if ids == [] {
      assert [id][1..] == [];
    } else {
      assert (ids + [id])[1..] == ids[1..] + [id];
      CollectAppend(m, ids[1..], id);
    }
  }

  lemma {:induction false} EntryImagesAppend(es: seq<Entry>, e: Entry)
    ensures EntryImages(es + [e]) == EntryImages(es) + Image(e)
  {
    if es == [] {
      assert [e][1..] == [];
    } else {
      assert (es + [e])[1..] == es[1..] + [e];
      EntryImagesAppend(es[1..], e);
    }
  }

  // ---------------------------------------------------------------- invariants

  function SecurePending(f: Fields): seq<int> {
    if f.secure.None? then [] else f.secure.value.pending
  }

  function Queued(f: Fields): seq<int> {
    f.pending + SecurePending(f) + f.sendList
  }

  /** The send invariant: the socket has taken the images of all finished packages and, after
      them, the first `sendLen` bytes of the package at the head of the queue. */
  predicate SendInv(f: Fields) {
    if f.sendLen == 0 then f.outbox == f.finished
    else
      && f.sendList != [] && f.sendList[0] in f.packages
      && f.sendLen < |Image(f.packages[f.sendList[0]])|
      && f.outbox == f.finished + Image(f.packages[f.sendList[0]])[..f.sendLen]
  }

  /** Number of content bytes announced by the header in the buffer. */
  function Announced(f: Fields): int
    requires |f.data| >= HEADER_LEN
  {
    Need(f.secure.Some?, DecodeHeader(f.data[..HEADER_LEN]).contentLength)
  }

  /** No content byte has been received into a buffer that still has to grow for the package. */
  predicate ReceiveInv(f: Fields) {
    && |f.data| >= HEADER_LEN
    && (f.state.ReceiveHeader? ==> f.receiveLen <= HEADER_LEN)
    && (f.state.ReceiveContent? && f.receiveLen > 0 ==> f.receiveLen < Announced(f) <= |f.data| - HEADER_LEN)
  }

  predicate QueueInv(f: Fields) {
    && Distinct(Queued(f))
    && (forall id | id in Queued(f) :: id < f.nextId)
    && (forall id | id in Queued(f) && id in f.packages :: WellFormed(f.packages[id]))
    && (forall id | id in f.packages :: id < f.nextId)
  }

  /** The field values that keep the send invariant, and those with consistent queues. */
  ghost function SendSound(): iset<Fields> {
    iset f: Fields | SendInv(f)
  }

  ghost function QueueSound(): iset<Fields> {
    iset f: Fields | QueueInv(f)
  }

  /** The consistent field values. */
  ghost function Sound(): iset<Fields> {
    iset f: Fields | f in SendSound() && f in QueueSound() && ReceiveInv(f) && (f.opening && f.role.Active? ==> f.secure.None?)
  }

  // ------------------------------------------------------------------- meaning

  function SecureView(f: Fields): Option<Secure> {
    if f.secure.None? then None
    else Some(Secure(f.secure.value.started, f.secure.value.key, Collect(f.packages, f.secure.value.pending)))
  }

  function PartialView(f: Fields): seq<byte> {
    if f.closing || f.destroyed then []
    else if f.state.ReceiveHeader? then Take(f.data, f.receiveLen)
    else Take(f.data, HEADER_LEN + f.receiveLen)
  }

  function View(f: Fields): Conn {
    Conn(f.role, f.opening, f.closing || f.destroyed, false, SecureView(f), Collect(f.packages, f.pending),
         f.finished + EntryImages(Collect(f.packages, f.sendList)), PartialView(f), f.delivered)
  }

  // ------------------------------------------------------------------- changes

  /** Only the package table changes, and only for ids no queue holds. */
  lemma TableChange(f: Fields, m: map<int, Entry>, nextId: int)
    requires f in Sound() && f.nextId <= nextId
    requires forall id | id in Queued(f) :: SameEntry(f.packages, m, id)
    requires forall id | id in m :: id < nextId
    ensures f.(packages := m, nextId := nextId) in Sound()
    ensures View(f.(packages := m, nextId := nextId)) == View(f)
  {
    var f' := f.(packages := m, nextId := nextId);
    assert forall id | id in f.pending || id in SecurePending(f) || id in f.sendList :: id in Queued(f);
    CollectFrame(f.packages, m, f.pending);
    CollectFrame(f.packages, m, SecurePending(f));
    CollectFrame(f.packages, m, f.sendList);
    assert f.sendList != [] ==> SameEntry(f.packages, m, f.sendList[0]);
    assert forall id | id in Queued(f) && id in m :: SameEntry(f.packages, m, id);
  }

  lemma Register(f: Fields, f': Fields, e: Entry)
    requires f in Sound() && f' == f.(packages := f.packages[f.nextId := e], nextId := f.nextId + 1)
    ensures f' in Sound() && View(f') == View(f)
    ensures WellFormed(e) ==> Sendable(f', f.nextId)
  {
    TableChange(f, f'.packages, f'.nextId);
    assert Queued(f') == Queued(f);
  }

  lemma ChangeEntry(f: Fields, id: int, e: Entry)
    requires f in Sound() && id in f.packages && id !in Queued(f)
    ensures f.(packages := f.packages[id := e]) in Sound()
    ensures View(f.(packages := f.packages[id := e])) == View(f)
  {
    assert f.(packages := f.packages[id := e]) == f.(packages := f.packages[id := e], nextId := f.nextId);
    TableChange(f, f.packages[id := e], f.nextId);
  }

  lemma DropEntry(f: Fields, id: int)
    requires f in Sound() && id !in Queued(f)
    ensures f.(packages := f.packages - {id}) in Sound()
    ensures View(f.(packages := f.packages - {id})) == View(f)
  {
    assert f.(packages := f.packages - {id}) == f.(packages := f.packages - {id}, nextId := f.nextId);
    TableChange(f, f.packages - {id}, f.nextId);
  }

  predicate Sendable(f: Fields, id: int) {
    id in f.packages && id !in Queued(f) && WellFormed(f.packages[id])
  }

  lemma ImageLength(e: Entry)
    requires WellFormed(e)
    ensures |Image(e)| == HEADER_LEN + ValidContentLength(e)
  {
  }

  lemma WireAppend(m: map<int, Entry>, finished: seq<byte>, ids: seq<int>, id: int)
    requires id in m
    ensures finished + EntryImages(Collect(m, ids + [id])) == (finished + EntryImages(Collect(m, ids))) + Image(m[id])
  {
    CollectAppend(m, ids, id);
    EntryImagesAppend(Collect(m, ids), m[id]);
  }

  lemma QueueGrows(f: Fields, f': Fields, a: seq<int>, id: int, b: seq<int>)
    requires f in QueueSound() && Sendable(f, id)
    requires Queued(f) == a + b && Queued(f') == a + [id] + b && f'.packages == f.packages && f'.nextId == f.nextId
    ensures f' in QueueSound()
  {
    QueueInsert(a, b, id);
  }

  lemma QueueShrinks(f: Fields, f': Fields, a: seq<int>, id: int, b: seq<int>)
    requires f in QueueSound()
    requires Queued(f) == a + [id] + b && Queued(f') == a + b && f'.packages == f.packages && f'.nextId == f.nextId
    ensures f' in QueueSound() && id !in Queued(f')
    ensures id in f.packages ==> Sendable(f', id)
  {
    QueueRemove(a, id, b);
    assert id in Queued(f);
  }

  /** A package joins the send queue, of which the socket may at once take a part (only when the
      queue was empty). */
  lemma JoinSendList(f: Fields, f': Fields, id: int, n: nat)
    requires f in Sound() && Sendable(f, id)
    requires n < |Image(f.packages[id])| && (f.sendList != [] ==> n == 0)
    requires f' == f.(sendList := f.sendList + [id], sendLen := if f.sendList == [] then n else f.sendLen,
                      outbox := f.outbox + Image(f.packages[id])[..n])
    ensures f' in Sound() && View(f') == SendRaw(View(f), f.packages[id])
  {
    JoinSendQueue(f, f', id);
    JoinSendHead(f, f', id, n);
    WireAppend(f.packages, f.finished, f.sendList, id);
  }

  lemma JoinSendQueue(f: Fields, f': Fields, id: int)
    requires f in QueueSound() && Sendable(f, id)
    requires f'.pending == f.pending && f'.secure == f.secure && f'.sendList == f.sendList + [id]
    requires f'.packages == f.packages && f'.nextId == f.nextId
    ensures f' in QueueSound()
  {
    assert Queued(f) + [] == Queued(f) && Queued(f') == Queued(f) + [id] + [];
    QueueGrows(f, f', Queued(f), id, []);
  }

  lemma JoinSendHead(f: Fields, f': Fields, id: int, n: nat)
    requires f in SendSound() && id in f.packages
    requires n < |Image(f.packages[id])| && (f.sendList != [] ==> n == 0)
    requires f'.sendList == f.sendList + [id] && f'.sendLen == (if f.sendList == [] then n else f.sendLen)
    requires f'.outbox == f.outbox + Image(f.packages[id])[..n] && f'.finished == f.finished && f'.packages == f.packages
    ensures f' in SendSound()
  {
    assert f.outbox + Image(f.packages[id])[..0] == f.outbox;
    assert f'.sendList[0] == if f.sendList == [] then id else f.sendList[0];
  }

  /** A package is taken whole by the socket and leaves the table. */
  lemma SentWhole(f: Fields, f': Fields, id: int)
    requires f in Sound() && Sendable(f, id) && f.sendList == []
    requires f' == f.(sendLen := 0, outbox := f.outbox + Image(f.packages[id]),
                      finished := f.finished + Image(f.packages[id]), packages := f.packages - {id})
    ensures f' in Sound() && View(f') == SendRaw(View(f), f.packages[id])
  {
    var f1 := f.(packages := f.packages - {id});
    DropEntry(f, id);
    TakenWhole(f1, f', Image(f.packages[id]));
  }

  lemma TakenWhole(f: Fields, f': Fields, image: seq<byte>)
    requires f in Sound() && f.sendList == []
    requires f' == f.(sendLen := 0, outbox := f.outbox + image, finished := f.finished + image)
    ensures f' in Sound() && View(f') == View(f).(wire := View(f).wire + image)
  {
    SameQueues(f, f');
    assert EntryImages(Collect(f.packages, [])) == [];
    assert (f.finished + image) + [] == (f.finished + []) + image;
  }

  lemma JoinSecurePending(env: Env, f: Fields, id: int)
    requires f in Sound() && Sendable(f, id) && f.secure.Some? && !f.secure.value.started
    ensures var f' := f.(secure := Some(f.secure.value.(pending := f.secure.value.pending + [id])));
            f' in Sound() && View(f') == SecureSend(env, View(f), f.packages[id])
  {
    hide SendSound, QueueSound, Distinct, DecodeHeader, WellFormed, Image;
    var f' := f.(secure := Some(f.secure.value.(pending := f.secure.value.pending + [id])));
    CollectAppend(f.packages, f.secure.value.pending, id);
    assert Queued(f') == (f.pending + f.secure.value.pending) + [id] + f.sendList;
    SameSend(f, f');
    QueueGrows(f, f', f.pending + f.secure.value.pending, id, f.sendList);
  }

  lemma {:induction false} QueueInsert(a: seq<int>, b: seq<int>, id: int)
    requires Distinct(a + b) && id !in a + b
    ensures Distinct(a + [id] + b)
    ensures forall x | x in a + [id] + b :: x == id || x in a + b
  {
    if a == [] {
      assert a + b == b && (a + [id] + b)[1..] == b;
    } else {
      assert (a + b)[1..] == a[1..] + b;
      assert (a + [id] + b)[1..] == a[1..] + [id] + b;
      QueueInsert(a[1..], b, id);
    }
  }

  lemma JoinPending(f: Fields, id: int)
    requires f in Sound() && Sendable(f, id)
    ensures var f' := f.(pending := f.pending + [id]);
            f' in Sound() && View(f') == View(f).(pending := View(f).pending + [f.packages[id]])
  {
    var f' := f.(pending := f.pending + [id]);
    CollectAppend(f.packages, f.pending, id);
    JoinPendingQueue(f, f', id);
    SameSend(f, f');
  }

  lemma JoinPendingQueue(f: Fields, f': Fields, id: int)
    requires f in QueueSound() && Sendable(f, id)
    requires f'.pending == f.pending + [id] && f'.secure == f.secure && f'.sendList == f.sendList
    requires f'.packages == f.packages && f'.nextId == f.nextId
    ensures f' in QueueSound()
  {
    var later := SecurePending(f) + f.sendList;
    assert f.pending + later == Queued(f);
    assert Queued(f') == f.pending + [id] + later;
    QueueGrows(f, f', f.pending, id, later);
  }

  lemma SameSend(f: Fields, f': Fields)
    requires f in SendSound() && f'.sendList == f.sendList && f'.sendLen == f.sendLen && f'.packages == f.packages
    requires f'.outbox == f.outbox && f'.finished == f.finished
    ensures f' in SendSound()
  {
  }

  lemma SameQueues(f: Fields, f': Fields)
    requires f in QueueSound() && f'.pending == f.pending && f'.secure == f.secure && f'.sendList == f.sendList
    requires f'.packages == f.packages && f'.nextId == f.nextId
    ensures f' in QueueSound()
  {
    assert Queued(f') == Queued(f);
  }

  lemma {:induction false} QueueRemove(a: seq<int>, id: int, b: seq<int>)
    requires Distinct(a + [id] + b)
    ensures Distinct(a + b) && id !in a + b
    ensures forall x | x in a + b :: x in a + [id] + b
  {
    if a == [] {
      assert a + b == b && (a + [id] + b)[1..] == b;
    } else {
      assert (a + b)[1..] == a[1..] + b;
      assert (a + [id] + b)[1..] == a[1..] + [id] + b;
      QueueRemove(a[1..], id, b);
    }
  }

  /** The head of a pending list is taken off. */
  lemma PopPending(f: Fields)
    requires f in Sound() && f.pending != []
    ensures var id, f' := f.pending[0], f.(pending := f.pending[1..]);
            && f' in Sound() && id !in Queued(f')
            && (id in f.packages ==> Sendable(f', id) && View(f).pending == [f.packages[id]] + View(f').pending)
            && (id !in f.packages ==> View(f).pending == View(f').pending)
            && View(f') == View(f).(pending := View(f').pending)
  {
    var id, f' := f.pending[0], f.(pending := f.pending[1..]);
    var later := f.pending[1..] + SecurePending(f) + f.sendList;
    assert Queued(f) == [] + [id] + later && Queued(f') == [] + later;
    QueueShrinks(f, f', [], id, later);
  }

  lemma PopSecurePending(f: Fields)
    requires f in Sound() && f.secure.Some? && f.secure.value.pending != []
    ensures var s := f.secure.value;
            var id, f' := s.pending[0], f.(secure := Some(s.(pending := s.pending[1..])));
            && f' in Sound() && id !in Queued(f')
            && (id in f.packages ==>
                  Sendable(f', id) && View(f).secure.value.pending == [f.packages[id]] + View(f').secure.value.pending)
            && (id !in f.packages ==> View(f).secure.value.pending == View(f').secure.value.pending)
            && View(f') == View(f).(secure := View(f').secure)
  {
    var s := f.secure.value;
    var id, f' := s.pending[0], f.(secure := Some(s.(pending := s.pending[1..])));
    var later := s.pending[1..] + f.sendList;
    assert Queued(f) == f.pending + [id] + later && Queued(f') == f.pending + later;
    QueueShrinks(f, f', f.pending, id, later);
  }

  /** The head of the send queue is gone from the table and is skipped. */
  lemma SkipHead(f: Fields)
    requires f in Sound() && f.sendList != [] && f.sendList[0] !in f.packages
    ensures f.(sendList := f.sendList[1..]) in Sound() && View(f.(sendList := f.sendList[1..])) == View(f)
  {
    PopSendQueue(f, f.(sendList := f.sendList[1..]));
  }

  /** The head of the send queue is known to the table (else it would be skipped), so `sendLen`
      counts bytes of its image. */
  lemma HeadImage(f: Fields)
    requires f in Sound() && f.sendList != [] && f.sendList[0] in f.packages
    ensures var e := f.packages[f.sendList[0]];
            f.sendLen <= |Image(e)| == HEADER_LEN + ValidContentLength(e)
  {
    var id := f.sendList[0];
    assert id in Queued(f) && f in QueueSound();
    assert WellFormed(f.packages[id]);
    ImageLength(f.packages[id]);
  }

  /** The socket takes `n` more bytes of the head of the send queue, but not its end. */
  lemma SentMore(f: Fields, f': Fields, n: nat)
    requires f in Sound() && f.sendList != [] && f.sendList[0] in f.packages
    requires f.sendLen + n < |Image(f.packages[f.sendList[0]])|
    requires f' == f.(sendLen := f.sendLen + n,
                      outbox := f.outbox + Image(f.packages[f.sendList[0]])[f.sendLen..][..n])
    ensures f' in Sound() && View(f') == View(f)
  {
    MiddleBytes(f.finished, Image(f.packages[f.sendList[0]]), f.sendLen, n);
    SameQueues(f, f');
  }

  lemma MiddleBytes(finished: seq<byte>, image: seq<byte>, k: nat, n: nat)
    requires k + n <= |image|
    ensures finished + image[..k] + image[k..][..n] == finished + image[..k + n]
    ensures k == 0 ==> finished + image[k..][..n] == finished + image[..k + n]
    ensures k + n == 0 ==> finished + image[k..][..n] == finished
  {
    assert image[..k] + image[k..][..n] == image[..k + n];
    assert (finished + image[..k]) + image[k..][..n] == finished + (image[..k] + image[k..][..n]);
  }

  /** The socket takes the rest of the head, which leaves the queue and the table. */
  lemma SentRest(f: Fields, f': Fields)
    requires f in Sound() && f.sendList != [] && f.sendList[0] in f.packages
    requires f.sendLen <= |Image(f.packages[f.sendList[0]])|
    requires var image := Image(f.packages[f.sendList[0]]);
             f' == f.(sendLen := 0, outbox := f.outbox + image[f.sendLen..], finished := f.finished + image,
                      sendList := f.sendList[1..], packages := f.packages - {f.sendList[0]})
    ensures f' in Sound() && View(f') == View(f)
  {
    var f1 := f'.(packages := f.packages);
    HeadDone(f, f1);
    DropEntry(f1, f.sendList[0]);
  }

  lemma HeadDone(f: Fields, f': Fields)
    requires f in Sound() && f.sendList != [] && f.sendList[0] in f.packages
    requires f.sendLen <= |Image(f.packages[f.sendList[0]])|
    requires var image := Image(f.packages[f.sendList[0]]);
             f' == f.(sendLen := 0, outbox := f.outbox + image[f.sendLen..], finished := f.finished + image,
                      sendList := f.sendList[1..])
    ensures f' in Sound() && View(f') == View(f) && f.sendList[0] !in Queued(f')
  {
    PopSendQueue(f, f');
    HeadBytes(f.finished, Image(f.packages[f.sendList[0]]), f.sendLen);
    WireHead(f.packages, f.finished, f.sendList);
  }

  lemma PopSendQueue(f: Fields, f': Fields)
    requires f in QueueSound() && f.sendList != []
    requires f'.pending == f.pending && f'.secure == f.secure && f'.sendList == f.sendList[1..]
    requires f'.packages == f.packages && f'.nextId == f.nextId
    ensures f' in QueueSound() && f.sendList[0] !in Queued(f')
  {
    var front := f.pending + SecurePending(f);
    assert Queued(f) == front + [f.sendList[0]] + f.sendList[1..];
    QueueShrinks(f, f', front, f.sendList[0], f.sendList[1..]);
  }

  lemma WireHead(m: map<int, Entry>, finished: seq<byte>, ids: seq<int>)
    requires ids != [] && ids[0] in m
    ensures finished + EntryImages(Collect(m, ids)) == finished + Image(m[ids[0]]) + EntryImages(Collect(m, ids[1..]))
  {
    var rest := EntryImages(Collect(m, ids[1..]));
    assert Collect(m, ids)[1..] == Collect(m, ids[1..]);
    assert finished + (Image(m[ids[0]]) + rest) == finished + Image(m[ids[0]]) + rest;
  }

  lemma HeadBytes(finished: seq<byte>, image: seq<byte>, n: nat)
    requires n <= |image|
    ensures finished + image[..n] + image[n..] == finished + image
    ensures n == 0 ==> finished + image[n..] == finished + image
  {
    assert image[..n] + image[n..] == image;
    assert (finished + image[..n]) + image[n..] == finished + (image[..n] + image[n..]);
  }

  // ----------------------------------------------------------------- receiving

  predicate Alive(f: Fields) {
    !f.closing && !f.destroyed
  }

  /** Field values between two rounds of the receive loop. */
  ghost function Going(): iset<Fields> {
    iset f: Fields | f in Sound() && Alive(f) && (f.state.ReceiveHeader? ==> f.receiveLen < HEADER_LEN)
  }

  /** Field values between two calls: what has been received of a package makes sense. */
  ghost function Resting(): iset<Fields> {
    iset f: Fields | f in Sound() && (Alive(f) ==> f in Going() && PartialOk(View(f)))
  }

  /** Once the header is complete the loop changes state first and judges the header in its next
      round; this is the meaning with that judgement made. */
  function Settle(env: Env, f: Fields): Conn
    requires |f.data| >= HEADER_LEN
  {
    if Alive(f) && f.state.ReceiveContent? && f.receiveLen == 0 then HeaderDone(env, View(f)) else View(f)
  }

  /** The storage after `chunk` has been received at `at`. */
  function Stored(data: seq<byte>, at: nat, chunk: seq<byte>): (r: seq<byte>)
    requires at + |chunk| <= |data|
    ensures |r| == |data| && r[..at + |chunk|] == data[..at] + chunk
  {
    data[..at] + chunk + data[at + |chunk|..]
  }

  lemma SameReceive(f: Fields, f': Fields)
    requires f in Sound() && ReceiveInv(f')
    requires f' == f.(state := f'.state, receiveLen := f'.receiveLen, data := f'.data)
    ensures f' in Sound() && View(f') == View(f).(partial := PartialView(f'))
  {
    SameSend(f, f');
    SameQueues(f, f');
  }

  lemma HeaderBytes(f: Fields, f': Fields, chunk: seq<byte>)
    requires f in Going() && f.state.ReceiveHeader? && f.receiveLen + |chunk| <= HEADER_LEN
    requires f' == f.(data := f'.data, receiveLen := f.receiveLen + |chunk|) && f'.data == Stored(f.data, f.receiveLen, chunk)
    ensures f' in Sound() && View(f') == View(f).(partial := View(f).partial + chunk)
  {
    SameReceive(f, f');
  }

  lemma HeaderComplete(env: Env, f: Fields, f': Fields)
    requires f in Sound() && Alive(f) && f.state.ReceiveHeader? && f.receiveLen == HEADER_LEN
    requires f' == f.(receiveLen := 0, state := ReceiveContent)
    ensures f' in Going() && |View(f).partial| == HEADER_LEN && Settle(env, f') == HeaderDone(env, View(f))
  {
    SameReceive(f, f');
  }

  lemma Grown(f: Fields, f': Fields)
    requires f in Going() && f.state.ReceiveContent? && |f'.data| >= HEADER_LEN && f' == f.(data := f'.data)
    requires f' == f || (f.receiveLen == 0 && f'.data[..HEADER_LEN] == f.data[..HEADER_LEN])
    ensures f' in Going() && View(f') == View(f)
  {
    if f' != f {
      SameReceive(f, f');
    }
  }

  lemma ContentBytes(f: Fields, f': Fields, chunk: seq<byte>)
    requires f in Going() && f.state.ReceiveContent? && chunk != []
    requires f.receiveLen + |chunk| < Announced(f) <= |f.data| - HEADER_LEN
    requires f' == f.(data := f'.data, receiveLen := f.receiveLen + |chunk|)
    requires f'.data == Stored(f.data, HEADER_LEN + f.receiveLen, chunk)
    ensures f' in Going() && View(f') == View(f).(partial := View(f).partial + chunk)
  {
    assert f'.data[..HEADER_LEN] == f.data[..HEADER_LEN];
    SameReceive(f, f');
  }

  lemma ContentComplete(f: Fields, f': Fields, chunk: seq<byte>)
    requires f in Going() && f.state.ReceiveContent? && 0 <= Announced(f)
    requires f.receiveLen + |chunk| == Announced(f) <= |f.data| - HEADER_LEN
    requires f' == f.(data := f'.data, receiveLen := 0, state := ReceiveHeader)
    requires f'.data == Stored(f.data, HEADER_LEN + f.receiveLen, chunk)
    ensures f' in Going() && View(f') == View(f).(partial := [])
    ensures View(f).partial == f.data[..HEADER_LEN + f.receiveLen]
  {
    SameReceive(f, f');
  }

  lemma FeedNothing(env: Env, c: Conn)
    ensures Feed(env, c, []) == c
  {
  }

  /** How the loop judges a complete header. */
  lemma Judge(env: Env, f: Fields)
    requires f in Going() && f.state.ReceiveContent? && !Settle(env, f).broken
    ensures 0 <= Announced(f) && f.receiveLen <= Announced(f)
    ensures Announced(f) < INT_SPAN_HALF || f.receiveLen > 0
    ensures f.receiveLen > 0 ==> Settle(env, f) == View(f) && 0 < Announced(f) <= |f.data| - HEADER_LEN
    ensures f.receiveLen == 0 ==>
              Settle(env, f) == if Announced(f) == 0 then Complete(env, View(f).(partial := []), DecodeHeader(f.data[..HEADER_LEN]), [])
                                else if Announced(f) > MAX_CONTENT_LEN then Shut(View(f)) else View(f)
  {
  }

  lemma ContentRead(env: Env, f: Fields, f': Fields, chunk: seq<byte>)
    requires f in Going() && f.state.ReceiveContent? && chunk != []
    requires f.receiveLen + |chunk| < Announced(f) <= |f.data| - HEADER_LEN
    requires f' == f.(data := f'.data, receiveLen := f.receiveLen + |chunk|)
    requires f'.data == Stored(f.data, HEADER_LEN + f.receiveLen, chunk)
    ensures f' in Going() && Settle(env, f') == Feed(env, View(f), chunk)
  {
    ContentBytes(f, f', chunk);
    CompleteBytes(f.data, f.receiveLen, []);
    FeedWithinContent(env, View(f), chunk);
  }

  lemma ContentEnd(env: Env, f: Fields, f': Fields, chunk: seq<byte>)
    requires f in Going() && f.state.ReceiveContent? && chunk != []
    requires f.receiveLen + |chunk| == Announced(f) <= |f.data| - HEADER_LEN
    requires f' == f.(data := f'.data, receiveLen := 0, state := ReceiveHeader)
    requires f'.data == Stored(f.data, HEADER_LEN + f.receiveLen, chunk)
    ensures f' in Going() && DecodeHeader(f'.data[..HEADER_LEN]) == DecodeHeader(f.data[..HEADER_LEN])
    ensures Complete(env, View(f'), DecodeHeader(f'.data[..HEADER_LEN]), f'.data[HEADER_LEN..HEADER_LEN + Announced(f)])
         == Feed(env, View(f), chunk)
  {
    ContentComplete(f, f', chunk);
    CompleteBytes(f.data, f.receiveLen, chunk);
    FeedContentEnd(env, View(f), chunk);
  }

  lemma EmptyContent(env: Env, f: Fields, f': Fields)
    requires f in Going() && f.state.ReceiveContent? && f.receiveLen == 0 && Announced(f) == 0
    requires f' == f.(state := ReceiveHeader)
    ensures f' in Going() && Settle(env, f) == Complete(env, View(f'), DecodeHeader(f.data[..HEADER_LEN]), [])
  {
    assert Stored(f.data, HEADER_LEN, []) == f.data;
    ContentComplete(f, f', []);
  }

  /** A read inside the header, judged by its version. */
  lemma HeaderRead(env: Env, f: Fields, f': Fields, chunk: seq<byte>)
    requires f in Going() && f.state.ReceiveHeader? && PartialOk(View(f)) && chunk != []
    requires f.receiveLen + |chunk| <= HEADER_LEN
    requires f' == f.(data := f'.data, receiveLen := f.receiveLen + |chunk|) && f'.data == Stored(f.data, f.receiveLen, chunk)
    ensures f' in Sound() && |View(f').partial| == f'.receiveLen
    ensures var p := View(f').partial;
            Feed(env, View(f), chunk) == if |p| >= BASE_HEADER_LEN && HeaderVersion(p) != PACKAGE_VERSION
                                         then View(f').(shut := true, partial := [],
                                                       wire := View(f').wire + VersionNotice(HeaderCommand(p) == NTF_INVALID_VERSION))
                                         else if |p| < HEADER_LEN then View(f') else HeaderDone(env, View(f'))
  {
    HeaderBytes(f, f', chunk);
    var c, p := View(f), View(f').partial;
    if |p| >= BASE_HEADER_LEN && HeaderVersion(p) != PACKAGE_VERSION {
      FeedWrongVersion(env, c, chunk);
    } else if |p| < HEADER_LEN {
      FeedWithinHeader(env, c, chunk);
    } else {
      FeedHeaderEnd(env, c, chunk);
    }
  }

  /** The security setting has arrived. */
  lemma OpeningDone(f: Fields, f': Fields, secure: bool)
    requires f in Sound() && f.opening && f.role.Active? && f.state.ReceiveHeader?
    requires f' == f.(opening := false, secure := if secure then Some(SecureFields(false, Zeros(KEY_LEN), [])) else None)
    ensures f' in Sound()
    ensures View(f') == View(f).(opening := false, secure := if secure then Some(Secure(false, Zeros(KEY_LEN), [])) else None)
  {
    SameSend(f, f');
    assert Queued(f') == Queued(f);
  }

  /** A passive connection turns security on, or has said what it had to say. */
  lemma PassiveSetting(f: Fields, f': Fields)
    requires f in Sound() && f.role.Passive? && f.state.ReceiveHeader?
    requires f' == f.(opening := f'.opening, secure := f'.secure)
    requires f'.secure == f.secure || (f.secure.None? && f'.secure == Some(SecureFields(false, Zeros(KEY_LEN), [])))
    ensures f' in Sound() && View(f') == View(f).(opening := f'.opening, secure := SecureView(f'))
  {
    SameSend(f, f');
    assert Queued(f') == Queued(f);
  }

  lemma BetweenPackages(f: Fields)
    requires f in Sound() && f.state.ReceiveHeader? && f.receiveLen == 0
    ensures f in Resting()
  {
  }

  /** The key exchange makes progress. */
  lemma KeySet(f: Fields, f': Fields)
    requires f in Sound() && f.secure.Some? && f'.secure.Some?
    requires f' == f.(secure := f'.secure) && f'.secure.value.pending == f.secure.value.pending
    ensures f' in Sound()
    ensures View(f') == View(f).(secure := Some(Secure(f'.secure.value.started, f'.secure.value.key, View(f).secure.value.pending)))
  {
    SameSend(f, f');
    assert Queued(f') == Queued(f);
  }

  lemma CompleteBytes(data: seq<byte>, received: nat, chunk: seq<byte>)
    requires HEADER_LEN + received + |chunk| <= |data|
    ensures var data', p := Stored(data, HEADER_LEN + received, chunk), data[..HEADER_LEN + received];
            && DecodeHeader(data'[..HEADER_LEN]) == DecodeHeader(data[..HEADER_LEN]) == DecodeHeader(p)
            && data'[HEADER_LEN..HEADER_LEN + received + |chunk|] == (p + chunk)[HEADER_LEN..]
  {
    var data', p := Stored(data, HEADER_LEN + received, chunk), data[..HEADER_LEN + received];
    assert data'[..HEADER_LEN] == data[..HEADER_LEN];
    HeaderPrefix(data[..HEADER_LEN], p[HEADER_LEN..]);
    assert data[..HEADER_LEN] + p[HEADER_LEN..] == p;
    assert data'[HEADER_LEN..HEADER_LEN + received + |chunk|] == data'[..HEADER_LEN + received + |chunk|][HEADER_LEN..];
  }

  /** Only flags of the connection's end change. */
  lemma Ended(f: Fields, closing: bool, destroyed: bool)
    requires f in Sound() && (closing || destroyed)
    ensures f.(closing := closing, destroyed := destroyed) in Resting()
    ensures View(f.(closing := closing, destroyed := destroyed)) == Shut(View(f))
  {
    var f' := f.(closing := closing, destroyed := destroyed);
    SameSend(f, f');
    SameQueues(f, f');
  }

  lemma TakePrefix(a: seq<byte>, b: seq<byte>, n: int)
    requires a <= b && n <= |a|
    ensures Take(a, n) == Take(b, n)
    ensures n == |a| ==> Take(b, n) == a
  {
  }

  lemma ManagerValid(f: Fields)
    requires f in Sound()
    ensures forall id | id in f.packages :: id < f.nextId
  {
    assert f in QueueSound();
  }

  lemma Delivered(f: Fields, f': Fields, p: Packet)
    requires f in Sound() && f' == f.(delivered := f.delivered + [p])
    ensures f' in Sound() && View(f') == View(f).(delivered := View(f).delivered + [p])
  {
    SameSend(f, f');
    SameQueues(f, f');
  }

  /** A destroyed connection writes nothing more: what the socket has taken is all there is. */
  lemma Discarded(f: Fields, f': Fields)
    requires f in Sound() && f' == f.(destroyed := true, sendLen := 0, finished := f.outbox)
    ensures f' in Sound() && View(f') == Shut(View(f)).(wire := View(f').wire)
    ensures f.sendList == [] ==> View(f).wire == f.outbox
  {
    SameQueues(f, f');
    assert f.finished + [] == f.finished;
  }

  /** A destroyed connection with nothing queued rests, and what it has written is all. */
  lemma AllForgotten(f: Fields)
    requires f in Sound() && f.destroyed && f.sendList == []
    ensures f in Resting() && View(f).wire == f.finished
  {
    assert f.finished + [] == f.finished;
  }

  /** The head of the queue is dropped unsent, package and all. */
  lemma ForgetHead(f: Fields, f': Fields)
    requires f in Sound() && f.sendList != [] && f.sendLen == 0
    requires f' == f.(sendList := f.sendList[1..], packages := f.packages - {f.sendList[0]})
    ensures f' in Sound() && View(f') == View(f).(wire := View(f').wire)
  {
    var f1 := f.(sendList := f.sendList[1..]);
    PopSendQueue(f, f1);
    DropEntry(f1, f.sendList[0]);
  }

  /** Bytes written and bytes queued are the wire. */
  lemma WrittenSoFar(f: Fields)
    requires f in Sound()
    ensures f.outbox <= View(f).wire
    ensures f.sendList == [] ==> f.outbox == View(f).wire
  {
    var wire := View(f).wire;
    if f.sendList == [] || f.sendLen == 0 {
      assert f.finished + [] == f.finished;
    } else {
      WireHead(f.packages, f.finished, f.sendList);
      var image := Image(f.packages[f.sendList[0]]);
      assert f.finished + image[..f.sendLen] == (f.finished + image)[..|f.finished| + f.sendLen];
    }
  }

  lemma AlreadyShut(f: Fields)
    requires f.closing
    ensures Shut(View(f)) == View(f)
  {
  }

  /** Sending does not touch what has been received. */
  lemma SameReading(f: Fields, f': Fields)
    requires f in Resting() && f' in Sound() && (Alive(f') ==> Alive(f))
    requires f'.state == f.state && f'.receiveLen == f.receiveLen && f'.data == f.data && f'.secure.Some? == f.secure.Some?
    ensures f' in Resting()
  {
  }

  lemma FirstRound(env: Env, f: Fields)
    requires f in Resting() && Alive(f)
    ensures f in Going() && Settle(env, f) == View(f) == Feed(env, View(f), [])
    ensures PartialOk(View(f))
  {
  }

  lemma InRound(env: Env, f: Fields)
    requires f in Going() && f.state.ReceiveHeader? && (Live(Settle(env, f)) ==> PartialOk(Settle(env, f)))
    ensures Settle(env, f) == View(f) && PartialOk(View(f))
  {
  }

  lemma BackAtRest(f: Fields)
    requires f in Resting() || (f in Sound() && (f in Going() || !Alive(f)) && (Live(View(f)) ==> PartialOk(View(f))))
    ensures f in Resting()
  {
  }

  /** What is not broken in the end was not broken before. */
  lemma NotBroken(env: Env, c: Conn, a: seq<byte>, b: seq<byte>)
    requires !Feed(env, c, a + b).broken
    ensures !Feed(env, c, a).broken
  {
    FeedConcat(env, c, a, b);
    if Feed(env, c, a).broken {
      FeedStopped(env, Feed(env, c, a), b);
    }
  }

  lemma BeforeRound(env: Env, c: Conn, consumed: seq<byte>, inbox: seq<byte>)
    requires (Live(c) ==> PartialOk(c)) && !Feed(env, c, consumed + inbox).broken
    ensures !Feed(env, c, consumed).broken && (Live(Feed(env, c, consumed)) ==> PartialOk(Feed(env, c, consumed)))
  {
    NotBroken(env, c, consumed, inbox);
    FeedPartial(env, c, consumed);
  }

  lemma AfterRound(env: Env, c: Conn, consumed: seq<byte>, chunk: seq<byte>)
    requires Live(c) ==> PartialOk(c)
    ensures Feed(env, c, consumed + chunk) == Feed(env, Feed(env, c, consumed), chunk)
    ensures Live(Feed(env, c, consumed + chunk)) ==> PartialOk(Feed(env, c, consumed + chunk))
    ensures chunk == [] ==> consumed + chunk == consumed
  {
    FeedConcat(env, c, consumed, chunk);
    FeedPartial(env, c, consumed + chunk);
  }

  lemma {:induction false} FeedPartial(env: Env, c: Conn, bytes: seq<byte>)
    requires Live(c) ==> PartialOk(c)
    ensures Live(Feed(env, c, bytes)) ==> PartialOk(Feed(env, c, bytes))
    decreases |bytes|
  {
    if !Live(c) {
      FeedStopped(env, c, bytes);
    } else if bytes != [] {
      FeedBytePartial(env, c, bytes[0]);
      FeedPartial(env, FeedByte(env, c, bytes[0]), bytes[1..]);
    }
  }
}
