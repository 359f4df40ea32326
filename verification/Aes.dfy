/** Electronic-codebook encryption of byte sequences, buffers and streams (section 6.1 of
    NIST SP 800-38A). The block function is a parameter; all that is asked of it is that it maps
    blocks to blocks and that decryption undoes encryption. */
module Aes {
  import opened Wire

  const BLOCK_SIZE := 16
  const KEY_LEN := 32

  type Key = seq<byte>

  datatype BlockCipher = BlockCipher(enc: (Key, seq<byte>) -> seq<byte>, dec: (Key, seq<byte>) -> seq<byte>) {
    ghost predicate Inverts() {
      forall k, b | |b| == BLOCK_SIZE ::
        |enc(k, b)| == BLOCK_SIZE && |dec(k, b)| == BLOCK_SIZE && dec(k, enc(k, b)) == b
    }

    function Encrypt(k: Key, s: seq<byte>): seq<byte> {
      Blockwise(b => enc(k, b), s)
    }

    function Decrypt(k: Key, s: seq<byte>): seq<byte> {
      Blockwise(b => dec(k, b), s)
    }
  }

  /** `aes_cipher_length`. */
  function CipherLength(plainLength: nat): (r: nat)
    ensures r % BLOCK_SIZE == 0 && plainLength <= r < plainLength + BLOCK_SIZE
    ensures plainLength % BLOCK_SIZE == 0 ==> r == plainLength
  {
    var over := plainLength % BLOCK_SIZE;
    var padLength := if over == 0 then 0 else BLOCK_SIZE - over;
    plainLength + padLength
  }

  /** The same for integers: rounded up to whole blocks. */
  function Rounded(n: int): (r: int)
    ensures r % BLOCK_SIZE == 0 && n <= r < n + BLOCK_SIZE
    ensures n >= 0 ==> r == CipherLength(n)
  {
    if n >= 0 then CipherLength(n) else -(-n / BLOCK_SIZE * BLOCK_SIZE)
  }

  /** `aes_cipher_length` in 64-bit arithmetic. */
  function CipherLength64(plainLength: nat): (r: nat)
    requires plainLength < SIZE_T_SPAN
    ensures r < SIZE_T_SPAN
  {
    CipherLength(plainLength) % SIZE_T_SPAN
  }

  /** It wraps, and is then zero, exactly within a block of 2 to the 64. */
  lemma CipherLengthWraps(plainLength: nat)
    requires plainLength < SIZE_T_SPAN
    ensures CipherLength64(plainLength) >= plainLength <==> plainLength <= SIZE_T_SPAN - BLOCK_SIZE
    ensures CipherLength64(plainLength) == if plainLength <= SIZE_T_SPAN - BLOCK_SIZE then CipherLength(plainLength) else 0
  {
    assert SIZE_T_SPAN % BLOCK_SIZE == 0;
    if plainLength > SIZE_T_SPAN - BLOCK_SIZE {
      assert CipherLength(plainLength) == SIZE_T_SPAN;
    }
  }

  function Zeros(n: nat): (s: seq<byte>)
    ensures |s| == n && forall i | 0 <= i < n :: s[i] == 0
  {
    seq(n, i => 0)
  }

  function Pad(plain: seq<byte>): (s: seq<byte>)
    ensures |s| == CipherLength(|plain|)
  {
    plain + Zeros(CipherLength(|plain|) - |plain|)
  }

  /** Applies `f` to every whole block of `s`; bytes after the last whole block are kept. */
  function Blockwise(f: seq<byte> -> seq<byte>, s: seq<byte>): seq<byte> {
    if |s| < BLOCK_SIZE then s
    else f(s[..BLOCK_SIZE]) + Blockwise(f, s[BLOCK_SIZE..])
  }

  ghost predicate BlockFunction(f: seq<byte> -> seq<byte>) {
    forall b | |b| == BLOCK_SIZE :: |f(b)| == BLOCK_SIZE
  }

  lemma {:induction false} BlockwiseLength(f: seq<byte> -> seq<byte>, s: seq<byte>)
    requires BlockFunction(f)
    ensures |Blockwise(f, s)| == |s|
  {
    if |s| >= BLOCK_SIZE {
      BlockwiseLength(f, s[BLOCK_SIZE..]);
    }
  }

  lemma {:induction false} BlockwiseInverts(f: seq<byte> -> seq<byte>, g: seq<byte> -> seq<byte>, s: seq<byte>)
    requires BlockFunction(f)
    requires forall b | |b| == BLOCK_SIZE :: g(f(b)) == b
    ensures Blockwise(g, Blockwise(f, s)) == s
  {
    if |s| >= BLOCK_SIZE {
      var head, tail := f(s[..BLOCK_SIZE]), Blockwise(f, s[BLOCK_SIZE..]);
      assert (head + tail)[..BLOCK_SIZE] == head;
      assert (head + tail)[BLOCK_SIZE..] == tail;
      BlockwiseInverts(f, g, s[BLOCK_SIZE..]);
      assert s == s[..BLOCK_SIZE] + s[BLOCK_SIZE..];
    }
  }

  lemma {:induction false} BlockwiseConcat(f: seq<byte> -> seq<byte>, s: seq<byte>, t: seq<byte>)
    requires |s| % BLOCK_SIZE == 0
    ensures Blockwise(f, s + t) == Blockwise(f, s) + Blockwise(f, t)
  {
    if s == [] {
      assert s + t == t;
    } else {
      assert (s + t)[..BLOCK_SIZE] == s[..BLOCK_SIZE];
      assert (s + t)[BLOCK_SIZE..] == s[BLOCK_SIZE..] + t;
      BlockwiseConcat(f, s[BLOCK_SIZE..], t);
    }
  }

  /** One more block: the step of every encryption loop. */
  lemma BlockwiseStep(f: seq<byte> -> seq<byte>, s: seq<byte>, i: nat)
    requires i % BLOCK_SIZE == 0 && i + BLOCK_SIZE <= |s|
    ensures Blockwise(f, s[..i + BLOCK_SIZE]) == Blockwise(f, s[..i]) + f(s[i..i + BLOCK_SIZE])
  {
    var block := s[i..i + BLOCK_SIZE];
    assert s[..i + BLOCK_SIZE] == s[..i] + block;
    BlockwiseConcat(f, s[..i], block);
    assert block[..BLOCK_SIZE] == block;
    assert Blockwise(f, block) == f(block) + Blockwise(f, []);
  }

  lemma DecryptEncrypt(c: BlockCipher, k: Key, s: seq<byte>)
    requires c.Inverts()
    ensures |c.Encrypt(k, s)| == |s|
    ensures c.Decrypt(k, c.Encrypt(k, s)) == s
  {
    BlockwiseLength(b => c.enc(k, b), s);
    BlockwiseInverts(b => c.enc(k, b), b => c.dec(k, b), s);
  }

  // ----------------------------------------------------------------- shrink

  /** Drops trailing zero bytes, at most `limit` of them. */
  function StripZeros(s: seq<byte>, limit: nat): seq<byte>
    decreases limit
  {
    if limit == 0 || s == [] || s[|s| - 1] != 0 then s
    else StripZeros(s[..|s| - 1], limit - 1)
  }

  function DecryptSpec(c: BlockCipher, k: Key, cipher: seq<byte>, shrink: bool): seq<byte> {
    var plain := c.Decrypt(k, cipher);
    if shrink then StripZeros(plain, BLOCK_SIZE) else plain
  }

  lemma {:induction false} StripPadding(s: seq<byte>, pad: nat, limit: nat)
    requires pad <= limit
    ensures StripZeros(s + Zeros(pad), limit) == StripZeros(s, limit - pad)
  {
    if pad == 0 {
      assert s + Zeros(0) == s;
    } else {
      assert (s + Zeros(pad))[..|s| + pad - 1] == s + Zeros(pad - 1);
      StripPadding(s, pad - 1, limit - 1);
    }
  }

  lemma {:induction false} StripShorter(s: seq<byte>, limit: nat)
    ensures |StripZeros(s, limit)| <= |s|
    decreases limit
  {
    if limit != 0 && s != [] && s[|s| - 1] == 0 {
      StripShorter(s[..|s| - 1], limit - 1);
    }
  }

  /** Decryption without shrinking gives back the plaintext and its zero padding; with shrinking
      it gives back a non-empty plaintext exactly when that does not end in a zero byte. */
  lemma DecryptionRestoresPlaintext(c: BlockCipher, k: Key, plain: seq<byte>)
    requires c.Inverts()
    ensures DecryptSpec(c, k, c.Encrypt(k, Pad(plain)), false) == Pad(plain)
    ensures plain != [] ==>
              (DecryptSpec(c, k, c.Encrypt(k, Pad(plain)), true) == plain <==> plain[|plain| - 1] != 0)
  {
    DecryptEncrypt(c, k, Pad(plain));
    if plain != [] {
      var pad := CipherLength(|plain|) - |plain|;
      StripPadding(plain, pad, BLOCK_SIZE);
      if plain[|plain| - 1] == 0 {
        StripShorter(plain[..|plain| - 1], BLOCK_SIZE - pad - 1);
      }
    }
  }

  // ---------------------------------------------------------------- buffers

  lemma WholeBlockFollows(i: nat, whole: nat)
    requires i % BLOCK_SIZE == 0 && whole % BLOCK_SIZE == 0
    ensures i < whole ==> i + BLOCK_SIZE <= whole
  {
  }

  method StoreBlock(out: array<byte>, at: nat, block: seq<byte>)
    requires |block| == BLOCK_SIZE && at + BLOCK_SIZE <= out.Length
    modifies out
    ensures out[..at + BLOCK_SIZE] == old(out[..at]) + block
    ensures out[at + BLOCK_SIZE..] == old(out[at + BLOCK_SIZE..])
  {
    forall j | 0 <= j < BLOCK_SIZE {
      out[at + j] := block[j];
    }
  }

  /** How a buffer call ends. `NotEnough` stands for the thrown "space not enough", `PastEnd` for the
      loop going on past the end of its input: it runs on the length of the output. */
  datatype BufferEnd = Done | NotEnough | PastEnd

  function EncryptEnd(length: nat, room: nat): BufferEnd {
    if room < CipherLength(length) then NotEnough
    else if room < length + BLOCK_SIZE then Done
    else PastEnd
  }

  /** The padded last block goes to the end of the buffer. */
  function EncryptedBuffer(c: BlockCipher, k: Key, plain: seq<byte>, before: seq<byte>): (r: seq<byte>)
    requires c.Inverts() && |before| >= CipherLength(|plain|)
    ensures |r| == |before|
  {
    var over := |plain| % BLOCK_SIZE;
    var whole := |plain| - over;
    BlockwiseLength(b => c.enc(k, b), plain[..whole]);
    c.Encrypt(k, plain[..whole])
    + if over == 0 then before[whole..]
      else before[whole..|before| - BLOCK_SIZE] + c.enc(k, plain[whole..] + Zeros(BLOCK_SIZE - over))
  }

  /** In a buffer of the cipher length, or with whole blocks, this is the encrypted plaintext. */
  lemma EncryptedBufferIsCipher(c: BlockCipher, k: Key, plain: seq<byte>, before: seq<byte>)
    requires c.Inverts() && |before| >= CipherLength(|plain|)
    requires |plain| % BLOCK_SIZE == 0 || |before| == CipherLength(|plain|)
    ensures EncryptedBuffer(c, k, plain, before)
         == c.Encrypt(k, Pad(plain)) + before[CipherLength(|plain|)..]
    ensures |c.Encrypt(k, Pad(plain))| == CipherLength(|plain|)
  {
    var over := |plain| % BLOCK_SIZE;
    var whole := |plain| - over;
    BlockwiseLength(b => c.enc(k, b), Pad(plain));
    if over == 0 {
      assert Pad(plain) == plain && plain[..whole] == plain;
    } else {
      BlockwiseStep(b => c.enc(k, b), Pad(plain), whole);
      assert Pad(plain)[..whole] == plain[..whole] && Pad(plain)[..whole + BLOCK_SIZE] == Pad(plain);
      assert Pad(plain)[whole..] == plain[whole..] + Zeros(BLOCK_SIZE - over);
    }
  }

  /** Where the loop ends, these are exactly the buffer lengths for which the result starts with the
      encrypted plaintext, whatever the buffer held before. */
  lemma RightBufferLengths(c: BlockCipher, k: Key, plain: seq<byte>, room: nat)
    requires c.Inverts() && EncryptEnd(|plain|, room).Done?
    ensures (forall before: seq<byte> | |before| == room ::
               c.Encrypt(k, Pad(plain)) <= EncryptedBuffer(c, k, plain, before))
            <==> |plain| % BLOCK_SIZE == 0 || room == CipherLength(|plain|)
  {
    var over := |plain| % BLOCK_SIZE;
    var whole := |plain| - over;
    if over == 0 || room == CipherLength(|plain|) {
      forall before: seq<byte> | |before| == room
        ensures c.Encrypt(k, Pad(plain)) <= EncryptedBuffer(c, k, plain, before)
      {
        EncryptedBufferIsCipher(c, k, plain, before);
      }
    } else {
      BlockwiseLength(b => c.enc(k, b), Pad(plain));
      BlockwiseLength(b => c.enc(k, b), plain[..whole]);
      var right := c.Encrypt(k, Pad(plain))[whole];
      var before: seq<byte> := seq(room, i => if right == 0 then 1 else 0);
      assert EncryptedBuffer(c, k, plain, before)[whole] == before[whole] != right;
    }
  }

  /** 16 bytes into 32: the loop reads a second block the plaintext does not have. 20 bytes into 33:
      the last block goes to 17, and byte 16 is never written. */
  lemma LargerBufferGoesWrong(c: BlockCipher, k: Key, plain: seq<byte>, before: seq<byte>)
    requires c.Inverts() && |plain| == 20 && |before| == 33
    ensures EncryptEnd(16, 32).PastEnd? && EncryptEnd(20, 33).Done?
    ensures EncryptedBuffer(c, k, plain, before)[16] == before[16]
    ensures EncryptedBuffer(c, k, plain, before)[17..] == c.enc(k, plain[16..] + Zeros(12))
  {
    BlockwiseLength(b => c.enc(k, b), plain[..16]);
  }

  lemma BlocksThen(blocks: seq<byte>, before: seq<byte>, whole: nat, at: nat)
    requires |blocks| == |before| && whole <= at <= |before| && blocks[whole..] == before[whole..]
    ensures blocks[..at] == blocks[..whole] + before[whole..at]
  {
    assert blocks[whole..][..at - whole] == before[whole..][..at - whole];
  }

  /** The end of a buffer encryption: what is over the whole blocks, padded with zeros. */
  method EncryptOver(c: BlockCipher, k: Key, plain: seq<byte>, over: nat, cipher: array<byte>, ghost before: seq<byte>)
    requires c.Inverts() && over == |plain| % BLOCK_SIZE && |before| == cipher.Length >= CipherLength(|plain|)
    requires cipher[..|plain| - over] == c.Encrypt(k, plain[..|plain| - over])
    requires cipher[|plain| - over..] == before[|plain| - over..]
    modifies cipher
    ensures cipher[..] == EncryptedBuffer(c, k, plain, before)
  {
    hide Blockwise;
    ghost var whole, blocks := |plain| - over, cipher[..];
    if over != 0 {
      var at := cipher.Length - BLOCK_SIZE;
      StoreBlock(cipher, at, c.enc(k, plain[|plain| - over..] + Zeros(BLOCK_SIZE - over)));
      assert cipher[..] == blocks[..at] + c.enc(k, plain[whole..] + Zeros(BLOCK_SIZE - over));
      BlocksThen(blocks, before, whole, at);
    } else {
      assert blocks == blocks[..whole] + blocks[whole..];
    }
  }

  /** Where the loop leaves the plaintext, and where it ends. */
  lemma LoopEnds(length: nat, room: nat, i: nat)
    requires i % BLOCK_SIZE == 0 && i <= length - length % BLOCK_SIZE && room >= CipherLength(length)
    ensures i + BLOCK_SIZE <= length ==> i + BLOCK_SIZE <= length - length % BLOCK_SIZE
    ensures i + BLOCK_SIZE <= room - length % BLOCK_SIZE && i + BLOCK_SIZE > length ==> room >= length + BLOCK_SIZE
    ensures i + BLOCK_SIZE > room - length % BLOCK_SIZE ==> i == length - length % BLOCK_SIZE && room < length + BLOCK_SIZE
    ensures (i + BLOCK_SIZE) % BLOCK_SIZE == 0
  {
  }

  /** The loop of a buffer encryption, which runs on the length of the buffer. */
  method EncryptBlocks(c: BlockCipher, k: Key, plain: seq<byte>, over: nat, cipher: array<byte>) returns (pastEnd: bool)
    requires c.Inverts() && over == |plain| % BLOCK_SIZE <= |plain| && cipher.Length >= CipherLength(|plain|)
    modifies cipher
    ensures pastEnd <==> cipher.Length >= |plain| + BLOCK_SIZE
    ensures !pastEnd ==> var whole := |plain| - over;
                         cipher[..whole] == c.Encrypt(k, plain[..whole]) && cipher[whole..] == old(cipher[..])[whole..]
  {
    ghost var f, whole := (b: seq<byte>) => c.enc(k, b), |plain| - over;
    var i := 0;
    assert plain[..0] == [] && Blockwise(f, []) == [];
    hide Blockwise, CipherLength;
    while i + BLOCK_SIZE <= cipher.Length - over
      invariant 0 <= i <= whole && i % BLOCK_SIZE == 0
      invariant cipher[..i] == Blockwise(f, plain[..i])
      invariant cipher[i..] == old(cipher[..])[i..]
    {
      LoopEnds(|plain|, cipher.Length, i);
      if i + BLOCK_SIZE > |plain| {
        return true;
      }
      BlockwiseStep(f, plain, i);
      StoreBlock(cipher, i, c.enc(k, plain[i..i + BLOCK_SIZE]));
      i := i + BLOCK_SIZE;
    }
    LoopEnds(|plain|, cipher.Length, i);
    return false;
  }

  /** Buffer encryption, for any length of the buffer. */
  method EncryptBuffer(c: BlockCipher, k: Key, plain: seq<byte>, cipher: array<byte>) returns (end: BufferEnd)
    requires c.Inverts()
    modifies cipher
    ensures end == EncryptEnd(|plain|, cipher.Length)
    ensures end.Done? ==> cipher[..] == EncryptedBuffer(c, k, plain, old(cipher[..]))
    ensures end.NotEnough? ==> cipher[..] == old(cipher[..])
  {
    var over := |plain| % BLOCK_SIZE;
    var padLength := if over == 0 then 0 else BLOCK_SIZE - over;
    if cipher.Length < |plain| + padLength {
      return NotEnough;
    }
    var pastEnd := EncryptBlocks(c, k, plain, over, cipher);
    if pastEnd {
      return PastEnd;
    }
    EncryptOver(c, k, plain, over, cipher, old(cipher[..]));
    return Done;
  }

  function DecryptEnd(length: nat, room: nat): BufferEnd {
    if room < length then NotEnough
    else if room < length - length % BLOCK_SIZE + BLOCK_SIZE then Done
    else PastEnd
  }

  /** Buffer decryption, for any lengths. What follows the last whole block is left alone. */
  method DecryptBuffer(c: BlockCipher, k: Key, cipher: seq<byte>, plain: array<byte>) returns (end: BufferEnd)
    requires c.Inverts()
    modifies plain
    ensures end == DecryptEnd(|cipher|, plain.Length)
    ensures end.Done? ==> var whole := |cipher| - |cipher| % BLOCK_SIZE;
                          plain[..] == c.Decrypt(k, cipher[..whole]) + old(plain[whole..])
    ensures end.NotEnough? ==> plain[..] == old(plain[..])
  {
    if plain.Length < |cipher| {
      return NotEnough;
    }
    ghost var f, whole := (b: seq<byte>) => c.dec(k, b), |cipher| - |cipher| % BLOCK_SIZE;
    var i := 0;
    assert cipher[..0] == [] && Blockwise(f, []) == [];
    hide Blockwise;
    while i + BLOCK_SIZE <= plain.Length
      invariant 0 <= i <= whole && i % BLOCK_SIZE == 0
      invariant plain[..i] == Blockwise(f, cipher[..i])
      invariant plain[i..] == old(plain[i..])
    {
      WholeBlockFollows(i, whole);
      if i + BLOCK_SIZE > |cipher| {
        return PastEnd;
      }
      BlockwiseStep(f, cipher, i);
      StoreBlock(plain, i, c.dec(k, cipher[i..i + BLOCK_SIZE]));
      i := i + BLOCK_SIZE;
    }
    WholeBlockFollows(i, whole);
    assert i == whole && plain[..] == plain[..i] + plain[i..];
    return Done;
  }

  // ---------------------------------------------------------------- strings

  method EncryptString(c: BlockCipher, k: Key, plain: seq<byte>) returns (cipher: seq<byte>)
    requires c.Inverts()
    ensures cipher == c.Encrypt(k, Pad(plain))
  {
    var buffer := new byte[CipherLength(|plain|)];
    ghost var before := buffer[..];
    var end := EncryptBuffer(c, k, plain, buffer);
    EncryptedBufferIsCipher(c, k, plain, before);
    cipher := buffer[..];
  }

  /** What is left of an incomplete block is zeros. */
  function DecryptText(c: BlockCipher, k: Key, cipher: seq<byte>): seq<byte> {
    var over := |cipher| % BLOCK_SIZE;
    c.Decrypt(k, cipher[..|cipher| - over]) + Zeros(over)
  }

  /** `None`: a text shorter than a block is shrunk past its front. */
  method DecryptString(c: BlockCipher, k: Key, cipher: seq<byte>, shrink: bool) returns (plain: Option<seq<byte>>)
    requires c.Inverts()
    ensures plain.None? <==> shrink && |cipher| < BLOCK_SIZE
    ensures plain.Some? && !shrink ==> plain.value == DecryptText(c, k, cipher)
    ensures plain.Some? && shrink ==> plain.value == StripZeros(DecryptText(c, k, cipher), BLOCK_SIZE)
    ensures plain.Some? && |cipher| % BLOCK_SIZE == 0 ==> plain.value == DecryptSpec(c, k, cipher, shrink)
  {
    var buffer := new byte[|cipher|](_ => 0);
    var end := DecryptBuffer(c, k, cipher, buffer);
    ghost var over := |cipher| % BLOCK_SIZE;
    BlockwiseLength(b => c.dec(k, b), cipher[..|cipher| - over]);
    assert buffer[..] == DecryptText(c, k, cipher);
    if over == 0 {
      assert cipher[..|cipher| - over] == cipher && DecryptText(c, k, cipher) == c.Decrypt(k, cipher);
    }
    if !shrink {
      return Some(buffer[..]);
    }
    if |cipher| < BLOCK_SIZE {
      return None;
    }
    var shrunk := ShrinkString(buffer[..]);
    return Some(shrunk);
  }

  /** Shrinks for unused characters, at most one block of them. */
  method ShrinkString(plain: seq<byte>) returns (shrunk: seq<byte>)
    requires |plain| >= BLOCK_SIZE
    ensures shrunk == StripZeros(plain, BLOCK_SIZE)
  {
    var unuseLen := 1;
    assert plain[..|plain|] == plain;
    while unuseLen <= BLOCK_SIZE
      invariant 1 <= unuseLen <= BLOCK_SIZE + 1
      invariant StripZeros(plain, BLOCK_SIZE) == StripZeros(plain[..|plain| - unuseLen + 1], BLOCK_SIZE + 1 - unuseLen)
    {
      if plain[|plain| - unuseLen] != 0 {
        break;
      }
      assert plain[..|plain| - unuseLen + 1][..|plain| - unuseLen] == plain[..|plain| - unuseLen];
      unuseLen := unuseLen + 1;
    }
    shrunk := plain[..|plain| - unuseLen + 1];
  }

  // ---------------------------------------------------------------- streams

  /** The parts of `std::istream` the loops use: unread bytes, state flag and last read count. */
  class InputStream {
    var rest: seq<byte>
    var good: bool
    var gcount: nat

    constructor (data: seq<byte>)
      ensures rest == data && good && gcount == 0
    {
      rest, good, gcount := data, true, 0;
    }

    /** Reads up to `size` bytes; a short read clears the state flag. */
    method Read(size: nat) returns (data: seq<byte>)
      modifies this
      ensures data == (if !old(good) then [] else if |old(rest)| < size then old(rest) else old(rest)[..size])
      ensures gcount == |data| && old(rest) == data + rest
      ensures good == (old(good) && |old(rest)| >= size)
    {
      if !good {
        data := [];
      } else if |rest| < size {
        data := rest;
        good := false;
      } else {
        data := rest[..size];
      }
      rest := rest[|data|..];
      gcount := |data|;
    }
  }

  /** Padding only concerns what follows the last whole block. */
  lemma PadTail(done: seq<byte>, tail: seq<byte>)
    requires |done| % BLOCK_SIZE == 0
    ensures Pad(done + tail) == done + Pad(tail)
  {
  }

  lemma OneBlock(f: seq<byte> -> seq<byte>, done: seq<byte>, block: seq<byte>)
    requires |done| % BLOCK_SIZE == 0 && |block| == BLOCK_SIZE
    ensures Blockwise(f, done + block) == Blockwise(f, done) + f(block)
    ensures |done + block| % BLOCK_SIZE == 0
  {
    BlockwiseConcat(f, done, block);
    assert block[..BLOCK_SIZE] == block;
    assert Blockwise(f, block) == f(block) + Blockwise(f, []);
  }

  /** One read of the encrypting loop: `got` is what the read delivered after `done`. */
  lemma EncryptRound(c: BlockCipher, k: Key, done: seq<byte>, got: seq<byte>, rest: seq<byte>)
    requires |done| % BLOCK_SIZE == 0 && |got| <= BLOCK_SIZE && (|got| < BLOCK_SIZE ==> rest == [])
    ensures done + (got + rest) == (done + got) + rest
    ensures |got| == BLOCK_SIZE ==> |done + got| % BLOCK_SIZE == 0
    ensures got != [] ==> c.Encrypt(k, Pad(done + got)) == c.Encrypt(k, done) + c.enc(k, got + Zeros(BLOCK_SIZE - |got|))
    ensures Pad(done) == done
    ensures |got| == BLOCK_SIZE ==> Pad(done + got) == done + got
  {
    assert Pad(done) == done;
    PadTail(done, got);
    if got != [] {
      assert Pad(got) == got + Zeros(BLOCK_SIZE - |got|);
      OneBlock(b => c.enc(k, b), done, Pad(got));
    }
  }

  method EncryptStream(c: BlockCipher, k: Key, input: InputStream) returns (out: seq<byte>)
    requires c.Inverts() && input.good
    modifies input
    ensures out == c.Encrypt(k, Pad(old(input.rest)))
  {
    ghost var all, done := input.rest, [];
    var plain := Zeros(BLOCK_SIZE);
    out := [];
    while true
      invariant input.good && |plain| == BLOCK_SIZE
      invariant all == done + input.rest && |done| % BLOCK_SIZE == 0
      invariant out == c.Encrypt(k, done)
      decreases |input.rest|
    {
      var got := input.Read(BLOCK_SIZE);
      EncryptRound(c, k, done, got, input.rest);
      plain := got + plain[|got|..];
      if input.gcount > 0 {
        if input.gcount < |plain| {
          plain := plain[..input.gcount] + Zeros(|plain| - input.gcount);
        }
        assert plain == got + Zeros(BLOCK_SIZE - |got|);
        out := out + c.enc(k, plain);
      }
      if !input.good {
        assert all == done + got;
        break;
      }
      done := done + got;
    }
  }

  lemma DecryptRound(c: BlockCipher, k: Key, done: seq<byte>, got: seq<byte>, rest: seq<byte>)
    requires |done| % BLOCK_SIZE == 0 && |got| <= BLOCK_SIZE && (|got| < BLOCK_SIZE ==> rest == [])
    ensures done + (got + rest) == (done + got) + rest
    ensures |got| == BLOCK_SIZE ==>
              |done + got| % BLOCK_SIZE == 0 && c.Decrypt(k, done + got) == c.Decrypt(k, done) + c.dec(k, got)
    ensures 0 < |got| < BLOCK_SIZE ==> |(done + got) + rest| % BLOCK_SIZE != 0
  {
    if |got| == BLOCK_SIZE {
      OneBlock(b => c.dec(k, b), done, got);
    }
  }

  /** Stream decryption with a one-block look-ahead. `ok == false` stands for the thrown
      "incomplete data". */
  method DecryptStream(c: BlockCipher, k: Key, input: InputStream, shrink: bool) returns (ok: bool, out: seq<byte>)
    requires c.Inverts() && input.good
    modifies input
    ensures ok <==> |old(input.rest)| % BLOCK_SIZE == 0
    ensures ok ==> out == DecryptSpec(c, k, old(input.rest), shrink)
  {
    ghost var all, done := input.rest, [];
    var plain := Zeros(BLOCK_SIZE);
    var previous := 0;
    out := [];
    while true
      invariant input.good && |plain| == BLOCK_SIZE && 0 <= previous
      invariant all == done + input.rest && |done| % BLOCK_SIZE == 0
      invariant previous > 0 <==> done != []
      invariant c.Decrypt(k, done) == out + (if previous > 0 then plain else [])
      decreases |input.rest|
    {
      var cipher := input.Read(BLOCK_SIZE);
      DecryptRound(c, k, done, cipher, input.rest);
      if previous > 0 {
        if input.good {
          out := out + plain;
        } else {
          var realLen := BLOCK_SIZE;
          if shrink {
            realLen := UsefulLength(out, plain);
          }
          assert realLen == BLOCK_SIZE ==> plain[..realLen] == plain;
          out := out + plain[..realLen];
        }
      }
      previous := input.gcount;
      if input.gcount > 0 {
        if input.gcount < BLOCK_SIZE {
          return false, out;
        }
        plain := c.dec(k, cipher);
        done := done + cipher;
      }
      if !input.good {
        assert all == done;
        break;
      }
    }
    return true, out;
  }

  /** The backwards scan for the last useful byte of the final block. */
  method UsefulLength(ghost before: seq<byte>, plain: seq<byte>) returns (realLen: nat)
    requires |plain| == BLOCK_SIZE
    ensures realLen <= BLOCK_SIZE
    ensures before + plain[..realLen] == StripZeros(before + plain, BLOCK_SIZE)
  {
    realLen := BLOCK_SIZE;
    assert plain[..BLOCK_SIZE] == plain;
    while realLen > 0
      invariant 0 <= realLen <= BLOCK_SIZE
      invariant StripZeros(before + plain, BLOCK_SIZE) == StripZeros(before + plain[..realLen], realLen)
    {
      if plain[realLen - 1] != 0 {
        break;
      }
      assert (before + plain[..realLen])[..|before| + realLen - 1] == before + plain[..realLen - 1];
      realLen := realLen - 1;
    }
  }
}
