/** The connection object itself: socket, receive buffer, send queue, pending lists and the key
    exchange. Every method is proved against the reference behaviour in Session; how far the socket
    has taken the queue is kept apart by the send invariant. */
module Connection {
  import opened Wire
  import opened Aes
  import opened Packages
  import opened Session
  import opened ConnectionState
  import Endpoints

  /** A non-blocking socket. What it accepts and delivers per call is not determined. */
  class Socket {
    var inbox: seq<byte>  // Sent by the peer, not yet received.
    var outbox: seq<byte> // Everything accepted so far.
    var peerClosed: bool

    constructor ()
      ensures inbox == [] && outbox == [] && !peerClosed
    {
      inbox, outbox, peerClosed := [], [], false;
    }

    method SendBytes(data: seq<byte>) returns (len: nat)
      modifies this`outbox
      ensures len <= |data| && outbox == old(outbox) + data[..len]
    {
      len :| 0 <= len <= |data|;
      outbox := outbox + data[..len];
    }

    /** -1: nothing available; 0: closed by the peer; otherwise the number of bytes received. */
    method ReceiveBytes(size: nat) returns (len: int, data: seq<byte>)
      requires size > 0
      modifies this`inbox
      ensures -1 <= len <= size && |data| == (if len > 0 then len else 0)
      ensures old(inbox) == data + inbox
      ensures len == 0 ==> inbox == [] && peerClosed
    {
      data := [];
      if inbox == [] {
        len := if peerClosed then 0 else -1;
      } else {
        len :| -1 <= len <= size && len != 0 && len <= |inbox|;
        if len > 0 {
          data := inbox[..len];
          inbox := inbox[len..];
        }
      }
    }
  }

  /** Why a round of the receive loop, or the loop, returned. */
  datatype ReadEnd = GoOn | WouldBlock | Stopped | PeerClosed

  class SecureConnection {
    var started: bool
    var aesKey: Key
    var pendingList: seq<int>

    constructor ()
      ensures !started && aesKey == Zeros(KEY_LEN) && pendingList == []
    {
      started, aesKey, pendingList := false, Zeros(KEY_LEN), [];
    }
  }

  /** The pending list of a session does not matter to a send that does not use it. */
  lemma SendIgnoresPending(env: Env, c: Conn, e: Entry, pending: seq<Entry>)
    requires !c.opening
    ensures Send(env, c.(pending := pending), e) == Send(env, c, e).(pending := pending)
    ensures Send(env, c, e).pending == c.pending
  {
  }

  lemma SecureSendIgnoresPending(env: Env, c: Conn, e: Entry)
    requires c.secure.Some? && c.secure.value.started && Live(c)
    ensures var bare := c.(secure := Some(c.secure.value.(pending := [])));
            var r := SecureSend(env, c, e);
            && r.secure == c.secure
            && Send(env, bare, e) == r.(secure := bare.secure)
  {
  }

  /** What draining the secure pending list leads to. */
  function SendSecurePending(env: Env, c: Conn): Conn
    requires c.secure.Some?
  {
    SendAll(env, c.(secure := Some(c.secure.value.(pending := []))), c.secure.value.pending)
  }

  lemma SendAllHead(env: Env, c: Conn, e: Entry, rest: seq<Entry>)
    ensures SendAll(env, c, [e] + rest) == SendAll(env, Send(env, c, e), rest)
  {
    assert ([e] + rest)[1..] == rest;
  }

  lemma Drained(env: Env, c: Conn)
    requires c.pending == []
    ensures SendAll(env, c.(pending := []), c.pending) == c
  {
  }

  lemma SecureDrained(env: Env, c: Conn)
    requires c.secure.Some? && c.secure.value.pending == []
    ensures SendSecurePending(env, c) == c
  {
  }

  lemma EncryptedWellFormed(env: Env, key: Key, e: Entry)
    requires WellFormed(e) && env.cipher.Inverts()
    ensures WellFormed(EncryptEntry(env, key, e))
  {
    DecryptEncrypt(env.cipher, key, e.content[..CipherLength(e.header.contentLength)]);
  }

  /** One round of the encryption in place. */
  lemma EncryptedBlock(c: BlockCipher, key: Key, plain: seq<byte>, i: nat, content: seq<byte>, was: seq<byte>)
    requires c.Inverts() && i % BLOCK_SIZE == 0 && i + BLOCK_SIZE <= |plain| && plain <= was
    requires content == c.Encrypt(key, plain[..i]) + was[i..]
    ensures |content| == |was|
    ensures content[..i] + c.enc(key, content[i..i + BLOCK_SIZE]) + content[i + BLOCK_SIZE..]
         == c.Encrypt(key, plain[..i + BLOCK_SIZE]) + was[i + BLOCK_SIZE..]
  {
    BlockwiseStep(b => c.enc(key, b), plain, i);
    DecryptEncrypt(c, key, plain[..i]);
    assert content[i..i + BLOCK_SIZE] == plain[i..i + BLOCK_SIZE];
    assert content[i + BLOCK_SIZE..] == was[i + BLOCK_SIZE..];
  }

  /** The fields of a new connection. */
  lemma Blank(f: Fields)
    requires f.opening && !f.closing && !f.destroyed && f.secure.None? && f.delivered == []
    requires f.pending == [] && f.sendList == [] && f.sendLen == 0 && f.outbox == [] && f.finished == []
    requires f.state.ReceiveHeader? && f.receiveLen == 0 && |f.data| >= HEADER_LEN
    requires forall id | id in f.packages :: id < f.nextId
    ensures f in Sound() && View(f) == Endpoints.NEW_ACTIVE.(role := f.role)
  {
  }

  class Connection {
    const env: Env
    const role: Role
    const socket: Socket
    const manager: PackageManager
    const buffer: PackageBuffer
    var receiveLen: nat
    var receiveState: ReceiveState
    var sendList: seq<int>
    var sendLen: nat
    var isOpening: bool
    var isClosing: bool
    var isDestroyed: bool
    var secureConn: SecureConnection?
    var pendingList: seq<int>
    var inQueue: seq<int>            // Package ids handed to the worker.
    ghost var finished: seq<byte>    // Images of the packages written completely, in order.
    ghost var delivered: seq<Packet> // What the packages in inQueue showed when they were queued.

    ghost function Storage(): (data: seq<byte>)
      reads buffer, buffer.data
    {
      buffer.data[..]
    }

    ghost function Snapshot(): Fields
      reads this, socket, manager, buffer, buffer.data, secureConn
    {
      Fields(role, isOpening, isClosing, isDestroyed,
             if secureConn == null then None
             else Some(SecureFields(secureConn.started, secureConn.aesKey, secureConn.pendingList)),
             pendingList, sendList, sendLen, socket.outbox, finished, manager.packages, manager.nextId,
             receiveState, receiveLen, Storage(), delivered)
    }

    /** This endpoint as Session sees it. */
    ghost function Abstract(): Conn
      reads this, socket, manager, buffer, buffer.data, secureConn
    {
      View(Snapshot())
    }

    constructor (env: Env, role: Role, socket: Socket, manager: PackageManager, setting: byte)
      requires manager.Valid() && socket.outbox == []
      modifies socket`outbox, manager
      ensures fresh(this) && fresh(buffer) && fresh(buffer.data) && buffer.Valid() && fresh(SecureRepr())
      ensures this.env == env && this.role == role && this.socket == socket && this.manager == manager
      ensures Snapshot() in Resting()
      ensures role.Active? ==> Abstract() == Endpoints.NEW_ACTIVE
      ensures role.Passive? && (setting == OPEN_SECURITY || setting == CLOSE_SECURITY) ==>
                Abstract() == Endpoints.NewPassive(env, setting == OPEN_SECURITY)
    {
      this.env, this.role, this.socket, this.manager := env, role, socket, manager;
      buffer := new PackageBuffer();
      receiveLen, receiveState := 0, ReceiveHeader;
      sendList, sendLen, pendingList, inQueue := [], 0, [], [];
      isOpening, isClosing, isDestroyed := true, false, false;
      secureConn := null;
      finished, delivered := [], [];
      new;
      hide Endpoints.Announce, Endpoints.NewPassive, Sound, Resting, View, Endpoints.NEW_ACTIVE;
      Blank(Snapshot());
      BetweenPackages(Snapshot());
      if role.Passive? {
        AnnounceSetting(setting);
        if setting == OPEN_SECURITY || setting == CLOSE_SECURITY {
          Endpoints.NewPassiveAnnounces(env, setting);
        }
        BetweenPackages(Snapshot());
      }
    }

    ghost function SecureRepr(): set<object>
      reads this`secureConn
    {
      if secureConn == null then {} else {secureConn}
    }

    // ------------------------------------------------------------------ sending

    method SendRawPackage(id: int)
      requires Snapshot() in Sound() && Sendable(Snapshot(), id)
      modifies this`sendList, this`sendLen, this`finished, socket`outbox, manager`packages
      ensures Snapshot() in Sound() && (old(Snapshot()) in Resting() ==> Snapshot() in Resting())
      ensures Abstract() == SendRaw(old(Abstract()), old(manager.packages[id]))
    {
      hide Sound, Resting, Going, View, Queued, WellFormed;
      ghost var s := Snapshot();
      if sendList == [] {
        SendAtOnce(id);
      } else {
        sendList := sendList + [id];
        assert s.outbox + Image(manager.packages[id])[..0] == s.outbox;
        JoinSendList(s, Snapshot(), id, 0);
      }
      if s in Resting() {
        SameReading(s, Snapshot());
      }
    }

    /** Offers a package to the socket; what is left of it waits in the queue. */
    method SendAtOnce(id: int)
      requires Snapshot() in Sound() && Sendable(Snapshot(), id) && sendList == []
      modifies this`sendList, this`sendLen, this`finished, socket`outbox, manager`packages
      ensures Snapshot() in Sound()
      ensures Abstract() == SendRaw(old(Abstract()), old(manager.packages[id]))
    {
      ghost var s, image := Snapshot(), Image(manager.packages[id]);
      ImageLength(manager.packages[id]);
      var len := HEADER_LEN + ValidContentLength(manager.packages[id]);
      sendLen := socket.SendBytes(Image(manager.packages[id]));
      if sendLen == len {
        sendLen := 0;
        finished := finished + image;
        manager.packages := manager.packages - {id};
        SentWhole(s, Snapshot(), id);
      } else {
        sendList := sendList + [id];
        JoinSendList(s, Snapshot(), id, sendLen);
      }
    }

    /** Encryption in place of the package's padded content, block by block. */
    method EncryptContent(id: int)
      requires id in manager.packages && WellFormed(manager.packages[id]) && env.cipher.Inverts() && secureConn != null
      modifies manager`packages
      ensures manager.packages
              == old(manager.packages)[id := EncryptEntry(env, secureConn.aesKey, old(manager.packages[id]))]
    {
      var key, content := secureConn.aesKey, manager.packages[id].content;
      var cipherLen := CipherLength(manager.packages[id].header.contentLength);
      ghost var m, e := manager.packages, manager.packages[id];
      ghost var plain := content[..cipherLen];
      var i := 0;
      while i + BLOCK_SIZE <= cipherLen
        invariant 0 <= i <= cipherLen && i % BLOCK_SIZE == 0 && |content| == |e.content|
        invariant content == env.cipher.Encrypt(key, plain[..i]) + e.content[i..]
        invariant manager.packages == m[id := e.(content := content)]
      {
        EncryptedBlock(env.cipher, key, plain, i, content, e.content);
        var block := env.cipher.enc(key, content[i..i + BLOCK_SIZE]);
        content := content[..i] + block + content[i + BLOCK_SIZE..];
        manager.packages := manager.packages[id := manager.packages[id].(content := content)];
        i := i + BLOCK_SIZE;
      }
      assert plain[..i] == plain;
      manager.packages := manager.packages[id := manager.packages[id].(padded := true)];
    }

    method SecureSendPackage(id: int)
      requires Snapshot() in Sound() && Sendable(Snapshot(), id)
      requires secureConn != null && env.cipher.Inverts()
      modifies this`sendList, this`sendLen, this`finished, socket`outbox, manager`packages, secureConn`pendingList
      ensures Snapshot() in Sound() && (old(Snapshot()) in Resting() ==> Snapshot() in Resting())
      ensures Abstract() == SecureSend(env, old(Abstract()), old(manager.packages[id]))
      ensures old(secureConn.started) ==> secureConn.pendingList == old(secureConn.pendingList)
    {
      hide Sound, Resting, Going, View, Queued, SecureSend;
      ghost var s := Snapshot();
      if !secureConn.started {
        JoinSecurePending(env, s, id);
        secureConn.pendingList := secureConn.pendingList + [id];
        assert Snapshot() == s.(secure := Some(s.secure.value.(pending := s.secure.value.pending + [id])));
      } else {
        EncryptAndSend(id);
      }
      if s in Resting() {
        SameReading(s, Snapshot());
      }
    }

    method EncryptAndSend(id: int)
      requires Snapshot() in Sound() && Sendable(Snapshot(), id)
      requires secureConn != null && secureConn.started && env.cipher.Inverts()
      modifies this`sendList, this`sendLen, this`finished, socket`outbox, manager`packages
      ensures Snapshot() in Sound()
      ensures Abstract() == SecureSend(env, old(Abstract()), old(manager.packages[id]))
    {
      ghost var s := Snapshot();
      EncryptContent(id);
      ghost var e := EncryptEntry(env, secureConn.aesKey, s.packages[id]);
      ChangeEntry(s, id, e);
      EncryptedWellFormed(env, secureConn.aesKey, s.packages[id]);
      assert Snapshot() == s.(packages := s.packages[id := e]);
      SendRawPackage(id);
    }

    method SendPackage(id: int)
      requires Snapshot() in Sound() && Sendable(Snapshot(), id)
      requires !isDestroyed && env.cipher.Inverts()
      modifies this`sendList, this`sendLen, this`finished, this`pendingList, socket`outbox, manager`packages, SecureRepr()
      ensures Snapshot() in Sound() && (old(Snapshot()) in Resting() ==> Snapshot() in Resting())
      ensures Abstract() == Send(env, old(Abstract()), old(manager.packages[id]))
      ensures !isOpening ==> pendingList == old(pendingList)
      ensures secureConn != null ==> unchanged(secureConn`started, secureConn`aesKey)
    {
      hide Sound, Resting, Going, Queued, WellFormed, SecureSend, PartialView, EntryImages, Collect;
      ghost var s := Snapshot();
      if isClosing {
        DropEntry(s, id);
        manager.packages := manager.packages - {id};
        assert Snapshot() == s.(packages := s.packages - {id});
      } else if secureConn != null {
        SecureSendPackage(id);
      } else if isOpening {
        JoinPending(s, id);
        pendingList := pendingList + [id];
        assert Snapshot() == s.(pending := s.pending + [id]);
      } else {
        SendRawPackage(id);
      }
      if s in Resting() {
        SameReading(s, Snapshot());
      }
    }

    /** The loop ends because sending no longer adds to the list it drains. */
    method SendAllPendingPackage()
      requires Snapshot() in Sound()
      requires !isOpening && !isDestroyed && env.cipher.Inverts()
      modifies this`sendList, this`sendLen, this`finished, this`pendingList, socket`outbox, manager`packages, SecureRepr()
      ensures Snapshot() in Sound() && pendingList == []
      ensures Abstract() == SendAll(env, old(Abstract()).(pending := []), old(Abstract()).pending)
    {
      hide Sound, Send, SendAll, SecureView, PartialView, EntryImages, Sendable;
      ghost var goal := SendAll(env, Abstract().(pending := []), Abstract().pending);
      while pendingList != []
        invariant Snapshot() in Sound()
        invariant SendAll(env, Abstract().(pending := []), Abstract().pending) == goal
        decreases |pendingList|
      {
        ghost var s := Snapshot();
        PopPending(s);
        var id := pendingList[0];
        pendingList := pendingList[1..];
        assert Snapshot() == s.(pending := s.pending[1..]);
        if id in manager.packages {
          ghost var c := Abstract();
          SendIgnoresPending(env, c, manager.packages[id], []);
          SendAllHead(env, c.(pending := []), manager.packages[id], c.pending);
          SendPackage(id);
        }
      }
      Drained(env, Abstract());
    }

    method SendAllSecurePending()
      requires Snapshot() in Sound()
      requires secureConn != null && secureConn.started && !isClosing && !isDestroyed && env.cipher.Inverts()
      modifies this`sendList, this`sendLen, this`finished, socket`outbox, manager`packages, secureConn`pendingList
      ensures Snapshot() in Sound() && secureConn.pendingList == []
      ensures var c := old(Abstract());
              Abstract() == SendAll(env, c.(secure := Some(c.secure.value.(pending := []))), c.secure.value.pending)
    {
      hide Sound, SecureSend, SendAll, PartialView, EntryImages, Sendable, Resting, Going, Queued, Image;
      ghost var goal := SendSecurePending(env, Abstract());
      while secureConn.pendingList != []
        invariant Snapshot() in Sound()
        invariant SendSecurePending(env, Abstract()) == goal
        decreases |secureConn.pendingList|
      {
        ghost var s := Snapshot();
        PopSecurePending(s);
        var id := secureConn.pendingList[0];
        secureConn.pendingList := secureConn.pendingList[1..];
        assert Snapshot() == s.(secure := Some(s.secure.value.(pending := s.secure.value.pending[1..])));
        if id in manager.packages {
          ghost var c, e := Abstract(), manager.packages[id];
          SecureSendIgnoresPending(env, c, e);
          SendAllHead(env, c.(secure := Some(c.secure.value.(pending := []))), e, c.secure.value.pending);
          SecureSendPackage(id);
        }
      }
      SecureDrained(env, Abstract());
    }

    // ------------------------------------------------------------------ closing

    /** The destructor: the packages still queued are forgotten. What the object held besides that
        no longer matters. */
    method Destroy()
      requires Snapshot() in Sound()
      modifies this`isDestroyed, this`sendList, this`sendLen, this`finished, manager`packages
      ensures Snapshot() in Resting() && isDestroyed && sendList == []
      ensures Abstract() == Shut(old(Abstract())).(wire := socket.outbox)
      ensures old(sendList) == [] ==> old(Abstract()).wire == socket.outbox
    {
      hide Sound, View, Resting;
      ghost var s := Snapshot();
      isDestroyed := true;
      sendLen := 0;
      finished := socket.outbox;
      Discarded(s, Snapshot());
      while sendList != []
        invariant Snapshot() in Sound() && finished == socket.outbox && isDestroyed && sendLen == 0
        invariant Abstract().(wire := []) == Shut(View(s)).(wire := [])
        decreases |sendList|
      {
        DropHead();
      }
      AllForgotten(Snapshot());
    }

    method DropHead()
      requires Snapshot() in Sound() && sendList != [] && sendLen == 0
      modifies this`sendList, manager`packages
      ensures Snapshot() in Sound() && sendList == old(sendList)[1..]
      ensures Abstract() == old(Abstract()).(wire := Abstract().wire)
    {
      hide Sound, View;
      ghost var s := Snapshot();
      var id := sendList[0];
      sendList := sendList[1..];
      manager.packages := manager.packages - {id};
      ForgetHead(s, Snapshot());
    }

    /** At once when the queue is empty, otherwise after everything in it has been written. */
    method Close()
      requires Snapshot() in Sound()
      modifies this`isClosing, this`isDestroyed, this`sendList, this`sendLen, this`finished, manager`packages
      ensures Snapshot() in Resting() && Abstract() == Shut(old(Abstract()))
      ensures isDestroyed <==> old(isDestroyed) || old(sendList) == []
      ensures isDestroyed && !old(isDestroyed) ==> socket.outbox == Abstract().wire
    {
      if sendList == [] {
        Destroy();
        return;
      }
      ghost var s := Snapshot();
      isClosing := true;
      Ended(s, true, s.destroyed);
      assert Snapshot() == s.(closing := true, destroyed := s.destroyed);
    }

    /** The socket can take more. The connection still stands for the same bytes afterwards, and if
        this was the end of a delayed close, all of them have been written. */
    method OnWritable()
      requires Snapshot() in Sound() && !isDestroyed
      modifies this`isDestroyed, this`sendList, this`sendLen, this`finished, socket`outbox, manager`packages
      ensures Snapshot() in Sound() && (old(Snapshot()) in Resting() ==> Snapshot() in Resting())
      ensures Abstract() == old(Abstract())
      ensures old(socket.outbox) <= socket.outbox <= Abstract().wire
      ensures isDestroyed ==> isClosing && socket.outbox == Abstract().wire
    {
      hide Sound, Resting, Going, SecureView, PartialView, EntryImages, Collect;
      ghost var s := Snapshot();
      SkipMissing();
      if sendList != [] {
        WriteHead();
        if sendList == [] && isClosing {
          AlreadyShut(Snapshot());
          Destroy();
        }
      }
      WrittenSoFar(Snapshot());
      if s in Resting() {
        SameReading(s, Snapshot());
      }
    }

    /** Packages that were removed meanwhile leave the queue. */
    method SkipMissing()
      requires Snapshot() in Sound()
      modifies this`sendList
      ensures Snapshot() in Sound() && Abstract() == old(Abstract())
      ensures sendList == [] || sendList[0] in manager.packages
    {
      while sendList != [] && sendList[0] !in manager.packages
        invariant Snapshot() in Sound() && Abstract() == old(Abstract())
        decreases |sendList|
      {
        ghost var s := Snapshot();
        SkipHead(s);
        sendList := sendList[1..];
        assert Snapshot() == s.(sendList := s.sendList[1..]);
      }
    }

    /** The rest of the head's image has been written. */
    method FinishHead(ghost s: Fields, id: int, ghost image: seq<byte>)
      requires s in Sound() && s.sendList != [] && s.sendList[0] in s.packages
      requires id == s.sendList[0] && image == Image(s.packages[id]) && s.sendLen <= |image|
      requires Snapshot() == s.(sendLen := 0, outbox := s.outbox + image[s.sendLen..])
      modifies this`sendList, this`finished, manager`packages
      ensures Snapshot() in Sound() && Abstract() == View(s) && socket.outbox == old(socket.outbox)
    {
      hide Sound, View, Image;
      finished := finished + image;
      sendList := sendList[1..];
      manager.packages := manager.packages - {id};
      SentRest(s, Snapshot());
    }

    method WriteHead()
      requires Snapshot() in Sound() && sendList != [] && sendList[0] in manager.packages
      modifies this`sendList, this`sendLen, this`finished, socket`outbox, manager`packages
      ensures Snapshot() in Sound() && Abstract() == old(Abstract())
      ensures old(socket.outbox) <= socket.outbox
    {
      hide Sound, View, Image, ValidContentLength, CipherLength;
      ghost var s := Snapshot();
      var id := sendList[0];
      var image := Image(manager.packages[id]);
      HeadImage(s);
      var len := HEADER_LEN + ValidContentLength(manager.packages[id]);
      var rest := image[sendLen..];
      var sent := socket.SendBytes(rest);
      sendLen := sendLen + sent;
      if sendLen == len {
        assert rest[..sent] == rest;
        sendLen := 0;
        FinishHead(s, id, image);
      } else {
        SentMore(s, Snapshot(), sent);
      }
    }

    // ---------------------------------------------------------- control packages

    /** Registers a package and fills its header and the front of its content. */
    method NewPackage(header: Header, content: seq<byte>) returns (id: int)
      requires Snapshot() in Sound() && header.contentLength <= |content|
      modifies manager
      ensures Snapshot() in Sound() && Abstract() == old(Abstract())
      ensures id in manager.packages && (0 <= header.contentLength ==> Sendable(Snapshot(), id))
      ensures manager.packages[id].header == header && !manager.packages[id].padded
      ensures content <= manager.packages[id].content
    {
      hide Sound, View, Queued;
      ghost var s := Snapshot();
      ManagerValid(s);
      id := manager.RegisterPackage(|content|);
      var storage := content + manager.packages[id].content[|content|..];
      manager.packages := manager.packages[id := Entry(header, storage, false)];
      Register(s, Snapshot(), Entry(header, storage, false));
    }

    /** Fills and sends one of the connection's own packages. */
    method SendControl(command: int, content: seq<byte>)
      requires Snapshot() in Sound()
      modifies this`sendList, this`sendLen, this`finished, socket`outbox, manager
      ensures Snapshot() in Sound()
      ensures Abstract() == old(Abstract()).(wire := old(Abstract()).wire + ControlImage(command, content))
    {
      hide Sound, View, Sendable, EncodeHeader;
      var id := NewPackage(FRESH_HEADER.(command := command, contentLength := |content|), content);
      SendRawPackage(id);
    }

    /** Hands a received package to the worker. */
    method Deliver(id: int)
      requires Snapshot() in Sound() && id in manager.packages
      modifies this`inQueue, this`delivered
      ensures Snapshot() in Sound() && inQueue == old(inQueue) + [id]
      ensures var e := manager.packages[id];
              Abstract() == old(Abstract()).(delivered := old(Abstract()).delivered
                                               + [Packet(e.header, Take(e.content, e.header.contentLength))])
    {
      hide Sound, View, Take;
      ghost var s := Snapshot();
      inQueue := inQueue + [id];
      ghost var e := manager.packages[id];
      ghost var p := Packet(e.header, Take(e.content, e.header.contentLength));
      delivered := delivered + [p];
      Delivered(s, Snapshot(), p);
    }

    /** A passive connection announces its security setting and, if that asks for it, starts the
        key exchange. */
    method AnnounceSetting(setting: byte)
      requires Snapshot() in Sound() && role.Passive? && receiveState.ReceiveHeader? && secureConn == null
      modifies this`isOpening, this`secureConn, this`sendList, this`sendLen, this`finished, socket`outbox, manager
      ensures secureConn == null || fresh(secureConn)
      ensures Snapshot() in Sound() && Abstract() == Endpoints.Announce(env, old(Abstract()), setting)
    {
      hide Sound, Collect, EntryImages, ControlImage;
      SendControl(NTF_SECURITY_SETTING, [setting]);
      if setting == OPEN_SECURITY {
        CreateSecureConnection();
      }
      ghost var s := Snapshot();
      isOpening := false;
      PassiveSetting(s, Snapshot());
    }

    method CreateSecureConnection()
      requires Snapshot() in Sound() && role.Passive? && receiveState.ReceiveHeader? && secureConn == null
      modifies this`secureConn, this`sendList, this`sendLen, this`finished, socket`outbox, manager
      ensures fresh(secureConn) && Snapshot() in Sound()
      ensures Abstract() == old(Abstract()).(secure := Some(Secure(false, Zeros(KEY_LEN), [])),
                                             wire := old(Abstract()).wire + ControlImage(REQ_START_CRYPTO, env.publicKey))
    {
      hide Sound, EntryImages, ControlImage;
      ghost var s := Snapshot();
      secureConn := new SecureConnection();
      PassiveSetting(s, Snapshot());
      SendControl(REQ_START_CRYPTO, env.publicKey);
    }

    // ------------------------------------------------------------ key exchange

    /** A complete package while security is on: `h` and `payload` are in the buffer. `false`: an
        exchange message of negative length throws, which ends the receive loop. */
    method SecureReceivePackage(h: Header, payload: seq<byte>) returns (ok: bool)
      requires Snapshot() in Sound() && !isClosing && !isDestroyed
      requires secureConn != null && env.cipher.Inverts()
      requires |payload| == Need(true, h.contentLength)
      modifies this`sendList, this`sendLen, this`finished, this`inQueue, this`delivered
      modifies socket`outbox, manager, SecureRepr()
      ensures Snapshot() in Sound()
      ensures Abstract() == SecureReceive(env, old(Abstract()), h, payload)
      ensures ok <==> h.contentLength >= 0 || old(secureConn.started)
                      || h.command != if role.Passive? then RSP_START_CRYPTO else REQ_START_CRYPTO
    {
      if secureConn.started {
        DeliverDecrypted(h, payload);
      } else if h.command == if role.Passive? then RSP_START_CRYPTO else REQ_START_CRYPTO {
        if h.contentLength < 0 {
          return false;
        }
        ReceiveExchange(payload[..h.contentLength]);
      }
      ok := true;
    }

    /** The message of the key exchange this end waits for. */
    method ReceiveExchange(content: seq<byte>)
      requires Snapshot() in Sound() && !isClosing && !isDestroyed
      requires secureConn != null && env.cipher.Inverts()
      modifies this`sendList, this`sendLen, this`finished, socket`outbox, manager, SecureRepr()
      ensures Snapshot() in Sound()
      ensures var c := old(Abstract());
              Abstract() == if role.Passive? then Start(env, c, KeyFrom(env.unwrap(content)))
                            else Start(env, c.(wire := c.wire + ControlImage(RSP_START_CRYPTO, env.wrap(content, env.sessionKey))),
                                       env.sessionKey)
    {
      if role.Passive? {
        StartCrypto(KeyFrom(env.unwrap(content)));
      } else {
        SendControl(RSP_START_CRYPTO, env.wrap(content, env.sessionKey));
        StartCrypto(env.sessionKey);
      }
    }

    /** STARTED is set before the pending packages are sent again, so they are not put back. */
    method StartCrypto(key: Key)
      requires Snapshot() in Sound() && !isClosing && !isDestroyed
      requires secureConn != null && env.cipher.Inverts()
      modifies this`sendList, this`sendLen, this`finished, socket`outbox, manager`packages, secureConn
      ensures Snapshot() in Sound() && Abstract() == Start(env, old(Abstract()), key)
    {
      ghost var s := Snapshot();
      secureConn.aesKey := key;
      secureConn.started := true;
      KeySet(s, Snapshot());
      SendAllSecurePending();
    }

    method DecryptContent(payload: seq<byte>) returns (plain: array<byte>)
      requires secureConn != null && env.cipher.Inverts() && |payload| % BLOCK_SIZE == 0
      ensures fresh(plain) && plain.Length == |payload| && plain[..] == env.cipher.Decrypt(secureConn.aesKey, payload)
    {
      hide Blockwise;
      plain := new byte[|payload|];
      var end := DecryptBuffer(env.cipher, secureConn.aesKey, payload, plain);
      assert payload[..|payload|] == payload;
    }

    method DeliverDecrypted(h: Header, payload: seq<byte>)
      requires Snapshot() in Sound()
      requires secureConn != null && env.cipher.Inverts()
      requires |payload| == Need(true, h.contentLength)
      modifies this`inQueue, this`delivered, manager
      ensures Snapshot() in Sound()
      ensures Abstract() == old(Abstract()).(delivered := old(Abstract()).delivered
                            + [Packet(h, Take(env.cipher.Decrypt(secureConn.aesKey, payload), h.contentLength))])
    {
      hide Sound, View, Sendable, Blockwise, Rounded, CipherLength, Take, Queued;
      var plain := DecryptContent(payload);
      var id := NewPackage(h, plain[..]);
      TakePrefix(plain[..], manager.packages[id].content, h.contentLength);
      Deliver(id);
    }

    // ---------------------------------------------------------------- receiving

    method ReceiveSecuritySetting(h: Header, payload: seq<byte>) returns (ok: bool)
      requires Snapshot() in Sound() && !isClosing && !isDestroyed && receiveState.ReceiveHeader?
      requires env.cipher.Inverts() && h.contentLength <= |payload|
      modifies this`isOpening, this`secureConn, this`pendingList, this`isClosing, this`isDestroyed
      modifies this`sendList, this`sendLen, this`finished, socket`outbox, manager`packages, SecureRepr()
      ensures secureConn == old(secureConn) || (secureConn != null && fresh(secureConn))
      ensures Snapshot() in Sound() && Abstract() == ReceiveSetting(env, old(Abstract()), h, payload)
      ensures ok <==> !isClosing && !isDestroyed
    {
      hide Sound, SendAll, EntryImages, Collect, PartialView;
      if role.Passive? || !isOpening || h.contentLength < 1 {
        Close();
        return false;
      }
      EndOpening(payload[0] == OPEN_SECURITY);
      ok := true;
    }

    /** The mode is settled before the pending packages are sent. */
    method EndOpening(security: bool)
      requires Snapshot() in Sound() && isOpening && role.Active? && !isClosing && !isDestroyed && receiveState.ReceiveHeader?
      requires env.cipher.Inverts()
      modifies this`isOpening, this`secureConn, this`pendingList
      modifies this`sendList, this`sendLen, this`finished, socket`outbox, manager`packages, SecureRepr()
      ensures secureConn == old(secureConn) || (secureConn != null && fresh(secureConn))
      ensures Snapshot() in Sound()
      ensures var c := old(Abstract());
              var ready := c.(opening := false, pending := [],
                              secure := if security then Some(Secure(false, Zeros(KEY_LEN), [])) else None);
              Abstract() == SendAll(env, ready, c.pending)
    {
      hide Sound, SendAll, EntryImages, Collect, PartialView;
      ghost var s := Snapshot();
      isOpening := false;
      if security {
        secureConn := new SecureConnection();
      }
      OpeningDone(s, Snapshot(), security);
      SendAllPendingPackage();
    }

    /** Dispatch of a complete package; `false` makes the receive loop return. */
    method OnReceiveCompletePackage(h: Header, payload: seq<byte>) returns (ok: bool)
      requires Snapshot() in Sound() && !isClosing && !isDestroyed && receiveState.ReceiveHeader?
      requires env.cipher.Inverts() && |payload| == Need(secureConn != null, h.contentLength)
      modifies this`isOpening, this`secureConn, this`pendingList, this`isClosing, this`isDestroyed
      modifies this`sendList, this`sendLen, this`finished, this`inQueue, this`delivered
      modifies socket`outbox, manager, SecureRepr()
      ensures secureConn == old(secureConn) || (secureConn != null && fresh(secureConn))
      ensures Snapshot() in Sound() && Abstract() == Complete(env, old(Abstract()), h, payload)
      ensures ok ==> !isClosing && !isDestroyed
    {
      if h.command == NTF_SECURITY_SETTING {
        ok := ReceiveSecuritySetting(h, payload);
      } else if isOpening {
        ok := false;
      } else if secureConn != null {
        ok := SecureReceivePackage(h, payload);
      } else {
        DeliverPlain(h, payload);
        ok := true;
      }
    }

    method DeliverPlain(h: Header, payload: seq<byte>)
      requires Snapshot() in Sound() && |payload| == h.contentLength
      modifies this`inQueue, this`delivered, manager
      ensures Snapshot() in Sound()
      ensures Abstract() == old(Abstract()).(delivered := old(Abstract()).delivered + [Packet(h, payload)])
    {
      hide Sound, View, Sendable;
      var id := NewPackage(h, payload);
      TakePrefix(payload, manager.packages[id].content, h.contentLength);
      Deliver(id);
    }

    /** The version is checked as soon as the base header is there. */
    method ProcessCheckPackageVersion(len: nat) returns (ok: bool)
      requires Snapshot() in Sound() && !isClosing && !isDestroyed
      requires receiveState.ReceiveHeader? && len == receiveLen == |Abstract().partial|
      modifies this`isClosing, this`isDestroyed, this`sendList, this`sendLen, this`finished, socket`outbox, manager
      ensures ok <==> !(len >= BASE_HEADER_LEN && HeaderVersion(old(Abstract()).partial) != PACKAGE_VERSION)
      ensures ok ==> Snapshot() == old(Snapshot())
      ensures !ok ==> Snapshot() in Resting()
                      && Abstract() == old(Abstract()).(
                           shut := true, partial := [],
                           wire := if HeaderCommand(old(Abstract()).partial) == NTF_INVALID_VERSION then old(Abstract()).wire
                                   else old(Abstract()).wire + ControlImage(NTF_INVALID_VERSION, []))
    {
      if len < BASE_HEADER_LEN {
        return true;
      }
      var base := buffer.data[..len];
      if HeaderVersion(base) != PACKAGE_VERSION {
        if HeaderCommand(base) != NTF_INVALID_VERSION {
          SendControl(NTF_INVALID_VERSION, []);
        }
        Close();
        return false;
      }
      return true;
    }

    method StoreReceived(at: nat, chunk: seq<byte>)
      requires at + |chunk| <= buffer.data.Length
      modifies buffer.data
      ensures buffer.data[..] == Stored(old(buffer.data[..]), at, chunk)
    {
      forall j | 0 <= j < |chunk| {
        buffer.data[at + j] := chunk[j];
      }
    }

    method StoreChunk(at: nat, data: seq<byte>)
      requires at + |data| <= buffer.data.Length
      modifies this`receiveLen, buffer.data
      ensures Snapshot() == old(Snapshot()).(data := Stored(old(Storage()), at, data), receiveLen := old(receiveLen) + |data|)
    {
      hide Stored;
      StoreReceived(at, data);
      receiveLen := receiveLen + |data|;
    }

    method ReceiveHeaderPart() returns (end: ReadEnd, ghost chunk: seq<byte>)
      requires Snapshot() in Going() && receiveState.ReceiveHeader? && PartialOk(Abstract())
      modifies this`isClosing, this`isDestroyed, this`sendList, this`sendLen, this`finished
      modifies this`receiveLen, this`receiveState, socket, manager, buffer.data
      ensures old(socket.inbox) == chunk + socket.inbox
      ensures end.GoOn? ==> chunk != [] && Snapshot() in Going()
                            && Settle(env, Snapshot()) == Feed(env, old(Abstract()), chunk)
      ensures end.WouldBlock? ==> chunk == [] && Snapshot() == old(Snapshot())
      ensures end.Stopped? ==> Snapshot() in Resting() && Abstract() == Feed(env, old(Abstract()), chunk)
      ensures end.PeerClosed? ==> chunk == [] && socket.inbox == [] && Snapshot() in Resting()
                                  && Abstract() == Shut(old(Abstract())).(wire := socket.outbox)
    {
      hide Sound, View, Feed, HeaderDone, Complete, PartialOk;
      var len, data := socket.ReceiveBytes(HEADER_LEN - receiveLen);
      chunk := data;
      if len == -1 {
        return WouldBlock, chunk;
      }
      if len == 0 {
        Destroy();
        return PeerClosed, chunk;
      }
      end := StoreHeader(data);
    }

    method StoreHeader(data: seq<byte>) returns (end: ReadEnd)
      requires Snapshot() in Going() && receiveState.ReceiveHeader? && PartialOk(Abstract())
      requires data != [] && receiveLen + |data| <= HEADER_LEN
      modifies this`isClosing, this`isDestroyed, this`sendList, this`sendLen, this`finished
      modifies this`receiveLen, this`receiveState, socket`outbox, manager, buffer.data
      ensures end == Stopped || end == GoOn
      ensures end == GoOn ==> Snapshot() in Going() && Settle(env, Snapshot()) == Feed(env, old(Abstract()), data)
      ensures end == Stopped ==> Snapshot() in Resting() && Abstract() == Feed(env, old(Abstract()), data)
    {
      hide Sound, View, Feed, HeaderDone, Complete, RejectVersion, EntryImages, Collect, SecureView, HeaderVersion, Stored;
      ghost var s := Snapshot();
      StoreChunk(receiveLen, data);
      HeaderRead(env, s, Snapshot(), data);
      var ok := ProcessCheckPackageVersion(receiveLen);
      if !ok {
        return Stopped;
      }
      if receiveLen == HEADER_LEN {
        ghost var s1 := Snapshot();
        receiveLen := 0;
        receiveState := ReceiveContent;
        HeaderComplete(env, s1, Snapshot());
      }
      return GoOn;
    }

    method ReceiveContentPart() returns (end: ReadEnd, ghost chunk: seq<byte>)
      requires Snapshot() in Going() && receiveState.ReceiveContent?
      requires buffer.Valid() && env.cipher.Inverts() && !Settle(env, Snapshot()).broken
      modifies this`isOpening, this`secureConn, this`pendingList, this`isClosing, this`isDestroyed
      modifies this`sendList, this`sendLen, this`finished, this`inQueue, this`delivered
      modifies this`receiveLen, this`receiveState, socket, manager, buffer, buffer.data, SecureRepr()
      ensures secureConn == old(secureConn) || (secureConn != null && fresh(secureConn))
      ensures buffer.Valid() && (buffer.data == old(buffer.data) || fresh(buffer.data))
      ensures old(socket.inbox) == chunk + socket.inbox
      ensures end.GoOn? ==> (chunk != [] || receiveState.ReceiveHeader?) && Snapshot() in Going()
                            && Settle(env, Snapshot()) == Feed(env, old(Settle(env, Snapshot())), chunk)
      ensures end.WouldBlock? || end.Stopped? ==>
                Snapshot() in Sound() && (Snapshot() in Going() || !Alive(Snapshot()))
                && Abstract() == Feed(env, old(Settle(env, Snapshot())), chunk)
      ensures end.PeerClosed? ==> chunk == [] && socket.inbox == [] && Snapshot() in Resting()
                                  && Abstract() == Shut(old(Settle(env, Snapshot()))).(wire := socket.outbox)
    {
      hide Sound, Going, Resting, View, Feed, HeaderDone, Complete, DecodeHeader, Settle, BufferLength;
      Judge(env, Snapshot());
      FeedNothing(env, Settle(env, Snapshot()));
      var h := DecodeHeader(buffer.data[..HEADER_LEN]);
      var readContentLen := Need(secureConn != null, h.contentLength);
      if readContentLen == 0 {
        chunk := [];
        end := ReceiveNoContent();
      } else {
        end, chunk := ReceiveSomeContent(readContentLen);
      }
    }

    /** The buffer grows before the first byte of the content; too long a content closes. */
    method ReceiveSomeContent(readContentLen: nat) returns (end: ReadEnd, ghost chunk: seq<byte>)
      requires Snapshot() in Going() && receiveState.ReceiveContent?
      requires buffer.Valid() && env.cipher.Inverts() && !Settle(env, Snapshot()).broken
      requires 0 < readContentLen == Announced(Snapshot())
      modifies this`isOpening, this`secureConn, this`pendingList, this`isClosing, this`isDestroyed
      modifies this`sendList, this`sendLen, this`finished, this`inQueue, this`delivered
      modifies this`receiveLen, this`receiveState, socket, manager, buffer, buffer.data, SecureRepr()
      ensures secureConn == old(secureConn) || (secureConn != null && fresh(secureConn))
      ensures buffer.Valid() && (buffer.data == old(buffer.data) || fresh(buffer.data))
      ensures old(socket.inbox) == chunk + socket.inbox
      ensures end.GoOn? ==> (chunk != [] || receiveState.ReceiveHeader?) && Snapshot() in Going()
                            && Settle(env, Snapshot()) == Feed(env, old(Settle(env, Snapshot())), chunk)
      ensures end.WouldBlock? || end.Stopped? ==>
                Snapshot() in Sound() && (Snapshot() in Going() || !Alive(Snapshot()))
                && Abstract() == Feed(env, old(Settle(env, Snapshot())), chunk)
      ensures end.PeerClosed? ==> chunk == [] && socket.inbox == [] && Snapshot() in Resting()
                                  && Abstract() == Shut(old(Settle(env, Snapshot()))).(wire := socket.outbox)
    {
      hide Sound, Going, Resting, View, Feed, HeaderDone, Complete, DecodeHeader, Settle, BufferLength;
      ghost var s := Snapshot();
      Judge(env, s);
      FeedNothing(env, Settle(env, s));
      var grown := buffer.ExpectContentLength(readContentLen);
      Grown(s, Snapshot());
      if !grown.Room? {
        Close();
        return Stopped, [];
      }
      end, chunk := ReadContent(readContentLen);
    }

    method ReceiveNoContent() returns (end: ReadEnd)
      requires Snapshot() in Going() && receiveState.ReceiveContent? && receiveLen == 0 && Announced(Snapshot()) == 0
      requires env.cipher.Inverts()
      modifies this`isOpening, this`secureConn, this`pendingList, this`isClosing, this`isDestroyed
      modifies this`sendList, this`sendLen, this`finished, this`inQueue, this`delivered
      modifies this`receiveState, socket`outbox, manager, SecureRepr()
      ensures secureConn == old(secureConn) || (secureConn != null && fresh(secureConn))
      ensures receiveState.ReceiveHeader?
      ensures Snapshot() in Resting() && (end == Stopped || (end == GoOn && Snapshot() in Going()))
      ensures Abstract() == Settle(env, Snapshot()) == old(Settle(env, Snapshot()))
    {
      hide Sound, Going, Resting, View, Feed, HeaderDone, Complete, DecodeHeader, Settle;
      ghost var s := Snapshot();
      receiveState := ReceiveHeader;
      EmptyContent(env, s, Snapshot());
      assert buffer.data[HEADER_LEN..HEADER_LEN + 0] == [];
      end := HandlePackage(0);
    }

    /** The buffer has room for the whole content. */
    method ReadContent(readContentLen: nat) returns (end: ReadEnd, ghost chunk: seq<byte>)
      requires Snapshot() in Going() && receiveState.ReceiveContent? && env.cipher.Inverts()
      requires receiveLen < readContentLen == Announced(Snapshot()) <= buffer.data.Length - HEADER_LEN
      modifies this`isOpening, this`secureConn, this`pendingList, this`isClosing, this`isDestroyed
      modifies this`sendList, this`sendLen, this`finished, this`inQueue, this`delivered
      modifies this`receiveLen, this`receiveState, socket, manager, buffer.data, SecureRepr()
      ensures secureConn == old(secureConn) || (secureConn != null && fresh(secureConn))
      ensures old(socket.inbox) == chunk + socket.inbox
      ensures end.GoOn? ==> chunk != [] && Snapshot() in Going()
                            && Settle(env, Snapshot()) == Feed(env, old(Abstract()), chunk)
      ensures end.WouldBlock? || end.Stopped? ==>
                Snapshot() in Sound() && (Snapshot() in Going() || !Alive(Snapshot()))
                && Abstract() == Feed(env, old(Abstract()), chunk)
      ensures end.PeerClosed? ==> chunk == [] && socket.inbox == [] && Snapshot() in Resting()
                                  && Abstract() == Shut(old(Abstract())).(wire := socket.outbox)
    {
      hide Sound, View, Feed, HeaderDone, Complete, DecodeHeader;
      ghost var s := Snapshot();
      var len, data := socket.ReceiveBytes(readContentLen - receiveLen);
      chunk := data;
      FeedNothing(env, View(s));
      if len == -1 {
        return WouldBlock, [];
      }
      if len == 0 {
        Destroy();
        return PeerClosed, [];
      }
      end := StoreContent(readContentLen, data);
    }

    method StoreContent(readContentLen: nat, data: seq<byte>) returns (end: ReadEnd)
      requires Snapshot() in Going() && receiveState.ReceiveContent? && env.cipher.Inverts()
      requires data != [] && receiveLen + |data| <= readContentLen == Announced(Snapshot()) <= buffer.data.Length - HEADER_LEN
      modifies this`isOpening, this`secureConn, this`pendingList, this`isClosing, this`isDestroyed
      modifies this`sendList, this`sendLen, this`finished, this`inQueue, this`delivered
      modifies this`receiveLen, this`receiveState, socket`outbox, manager, buffer.data, SecureRepr()
      ensures secureConn == old(secureConn) || (secureConn != null && fresh(secureConn))
      ensures end == Stopped || end == GoOn
      ensures end == GoOn ==> Snapshot() in Going() && Settle(env, Snapshot()) == Feed(env, old(Abstract()), data)
      ensures end == Stopped ==> Snapshot() in Resting() && Abstract() == Feed(env, old(Abstract()), data)
    {
      hide Sound, Going, Resting, View, Feed, HeaderDone, Complete, DecodeHeader, Settle;
      ghost var s := Snapshot();
      StoreChunk(HEADER_LEN + receiveLen, data);
      if receiveLen < readContentLen {
        ContentRead(env, s, Snapshot(), data);
        end := GoOn;
      } else {
        end := FinishContent(readContentLen, s, data);
      }
    }

    /** The content that began at `s` is complete. */
    method FinishContent(readContentLen: nat, ghost s: Fields, ghost data: seq<byte>) returns (end: ReadEnd)
      requires s in Going() && s.state.ReceiveContent? && data != [] && env.cipher.Inverts()
      requires s.receiveLen + |data| == readContentLen == Announced(s) <= |s.data| - HEADER_LEN
      requires Snapshot() == s.(receiveLen := readContentLen, data := Stored(s.data, HEADER_LEN + s.receiveLen, data))
      modifies this`isOpening, this`secureConn, this`pendingList, this`isClosing, this`isDestroyed
      modifies this`sendList, this`sendLen, this`finished, this`inQueue, this`delivered
      modifies this`receiveLen, this`receiveState, socket`outbox, manager, SecureRepr()
      ensures secureConn == old(secureConn) || (secureConn != null && fresh(secureConn))
      ensures end == Stopped || end == GoOn
      ensures end == GoOn ==> Snapshot() in Going() && Settle(env, Snapshot()) == Feed(env, View(s), data)
      ensures end == Stopped ==> Snapshot() in Resting() && Abstract() == Feed(env, View(s), data)
    {
      hide Sound, Going, Resting, View, Feed, HeaderDone, Complete, DecodeHeader, Settle;
      receiveLen := 0;
      receiveState := ReceiveHeader;
      ContentEnd(env, s, Snapshot(), data);
      end := HandlePackage(readContentLen);
    }

    method HandlePackage(contentLen: nat) returns (end: ReadEnd)
      requires Snapshot() in Going() && receiveState.ReceiveHeader? && receiveLen == 0 && env.cipher.Inverts()
      requires HEADER_LEN + contentLen <= buffer.data.Length
      requires contentLen == Need(secureConn != null, DecodeHeader(buffer.data[..HEADER_LEN]).contentLength)
      modifies this`isOpening, this`secureConn, this`pendingList, this`isClosing, this`isDestroyed
      modifies this`sendList, this`sendLen, this`finished, this`inQueue, this`delivered
      modifies socket`outbox, manager, SecureRepr()
      ensures secureConn == old(secureConn) || (secureConn != null && fresh(secureConn))
      ensures Snapshot() in Resting() && (end == Stopped || (end == GoOn && Snapshot() in Going()))
      ensures Abstract() == Complete(env, old(Abstract()), old(DecodeHeader(buffer.data[..HEADER_LEN])),
                                     old(buffer.data[HEADER_LEN..HEADER_LEN + contentLen]))
      ensures Settle(env, Snapshot()) == Abstract()
    {
      hide Sound, View, Complete, DecodeHeader;
      var h := DecodeHeader(buffer.data[..HEADER_LEN]);
      var ok := OnReceiveCompletePackage(h, buffer.data[HEADER_LEN..HEADER_LEN + contentLen]);
      BetweenPackages(Snapshot());
      end := if ok then GoOn else Stopped;
    }

    method ReceiveRound() returns (end: ReadEnd, ghost chunk: seq<byte>)
      requires Snapshot() in Going() && buffer.Valid() && env.cipher.Inverts() && !Settle(env, Snapshot()).broken
      requires Live(Settle(env, Snapshot())) ==> PartialOk(Settle(env, Snapshot()))
      modifies this`isOpening, this`secureConn, this`pendingList, this`isClosing, this`isDestroyed
      modifies this`sendList, this`sendLen, this`finished, this`inQueue, this`delivered
      modifies this`receiveLen, this`receiveState, socket, manager, buffer, buffer.data, SecureRepr()
      ensures secureConn == old(secureConn) || (secureConn != null && fresh(secureConn))
      ensures buffer.Valid() && (buffer.data == old(buffer.data) || fresh(buffer.data))
      ensures old(socket.inbox) == chunk + socket.inbox
      ensures end.GoOn? ==> (chunk != [] || (old(receiveState).ReceiveContent? && receiveState.ReceiveHeader?))
                            && Snapshot() in Going()
                            && Settle(env, Snapshot()) == Feed(env, old(Settle(env, Snapshot())), chunk)
      ensures end.WouldBlock? || end.Stopped? ==>
                Snapshot() in Sound() && (Snapshot() in Going() || !Alive(Snapshot()))
                && Abstract() == Feed(env, old(Settle(env, Snapshot())), chunk)
      ensures end.PeerClosed? ==> chunk == [] && socket.inbox == [] && Snapshot() in Resting()
                                  && Abstract() == Shut(old(Settle(env, Snapshot()))).(wire := socket.outbox)
    {
      hide Sound, View, Feed, Settle;
      FeedNothing(env, Settle(env, Snapshot()));
      if receiveState.ReceiveHeader? {
        InRound(env, Snapshot());
        end, chunk := ReceiveHeaderPart();
      } else {
        end, chunk := ReceiveContentPart();
      }
    }

    /** Everything the socket has, in whatever portions it comes. The received bytes have the effect
        Session gives them; a closed peer ends the connection with what was written so far. */
    method ReceiveForState() returns (end: ReadEnd, ghost consumed: seq<byte>)
      requires Snapshot() in Resting() && !isClosing && !isDestroyed
      requires buffer.Valid() && env.cipher.Inverts()
      requires !Feed(env, Abstract(), socket.inbox).broken
      modifies this, socket, manager, buffer, buffer.data, SecureRepr()
      ensures buffer.Valid() && Snapshot() in Resting()
      ensures old(socket.inbox) == consumed + socket.inbox
      ensures !end.PeerClosed? ==> Abstract() == Feed(env, old(Abstract()), consumed)
      ensures end.PeerClosed? ==> socket.inbox == []
                                  && Abstract() == Shut(Feed(env, old(Abstract()), consumed)).(wire := socket.outbox)
    {
      hide Sound, Going, Resting, View, Feed, Settle, PartialOk, BufferLength, Shut, Live, FeedByte, Announced, PartialView, SecureView, QueueSound, SendSound;
      ghost var c, input := Abstract(), socket.inbox;
      consumed := [];
      FirstRound(env, Snapshot());
      while true
        invariant Snapshot() in Going() && buffer.Valid()
        invariant input == consumed + socket.inbox
        invariant Settle(env, Snapshot()) == Feed(env, c, consumed)
        invariant secureConn == old(secureConn) || (secureConn != null && fresh(secureConn))
        invariant buffer.data == old(buffer.data) || fresh(buffer.data)
        decreases |socket.inbox|, if receiveState.ReceiveContent? then 1 else 0
      {
        ghost var chunk;
        BeforeRound(env, c, consumed, socket.inbox);
        end, chunk := ReceiveRound();
        AfterRound(env, c, consumed, chunk);
        consumed := consumed + chunk;
        if end != GoOn {
          BackAtRest(Snapshot());
          return;
        }
      }
    }

    /** The socket has something to read; a closing connection does not look at it. Between such
        calls, OnWritable and SendPackage the connection rests. */
    method OnReadable() returns (peerClosed: bool, ghost consumed: seq<byte>)
      requires Snapshot() in Resting() && !isDestroyed && buffer.Valid() && env.cipher.Inverts()
      requires !Feed(env, Abstract(), socket.inbox).broken
      modifies this, socket, manager, buffer, buffer.data, SecureRepr()
      ensures buffer.Valid() && Snapshot() in Resting()
      ensures old(socket.inbox) == consumed + socket.inbox
      ensures old(isClosing) ==> consumed == [] && !peerClosed
      ensures !peerClosed ==> Abstract() == Feed(env, old(Abstract()), consumed)
      ensures peerClosed ==> socket.inbox == [] && Abstract() == Shut(Feed(env, old(Abstract()), consumed)).(wire := socket.outbox)
    {
      hide Resting, View, Feed, Shut;
      if isClosing {
        FeedNothing(env, Abstract());
        return false, [];
      }
      var end;
      end, consumed := ReceiveForState();
      peerClosed := end.PeerClosed?;
    }
  }
}
