/** Package storage: the receive buffer of a connection and the manager of outgoing packages. */
module Packages {
  import opened Wire
  import opened Aes

  const STACK_BUFFER_LEN := 338 // Header plus 320 bytes.
  const FIRST_HEAP_BUFFER_LEN := 512
  const MAX_BUFFER_LEN := 65536
  const INT_SPAN_HALF := 0x8000_0000 // Half the values of `int`.

  function Pow2(k: nat): (r: nat)
    ensures r > 0
  {
    if k == 0 then 1 else 2 * Pow2(k - 1)
  }

  lemma {:induction false} Pow2Monotone(i: nat, j: nat)
    requires i <= j
    ensures Pow2(i) <= Pow2(j)
    decreases j
  {
    if i < j {
      Pow2Monotone(i, j - 1);
    }
  }

  /** The buffer lengths a connection can have: the built-in one, or 512 doubled up to 65536. */
  predicate BufferLength(n: nat): (r: bool)
    ensures r ==> HEADER_LEN < n <= MAX_BUFFER_LEN
  {
    n == STACK_BUFFER_LEN || HeapLength(n)
  }

  predicate HeapLength(n: nat) {
    n == 512 || n == 1024 || n == 2048 || n == 4096 || n == 8192 || n == 16384 || n == 32768 || n == 65536
  }

  lemma HeapLengthIsPower(n: nat) returns (k: nat)
    requires HeapLength(n)
    ensures n == 512 * Pow2(k) && k <= 7
  {
    k := if n == 512 then 0 else if n == 1024 then 1 else if n == 2048 then 2 else if n == 4096 then 3
         else if n == 8192 then 4 else if n == 16384 then 5 else if n == 32768 then 6 else 7;
    assert Pow2(0) == 1 && Pow2(1) == 2 && Pow2(2) == 4 && Pow2(3) == 8;
    assert Pow2(4) == 16 && Pow2(5) == 32 && Pow2(6) == 64 && Pow2(7) == 128;
  }

  lemma LargePower(k: nat)
    ensures k >= 8 <==> 512 * Pow2(k) > MAX_BUFFER_LEN
    ensures k >= 8 ==> 512 * Pow2(k) >= 2 * MAX_BUFFER_LEN
  {
    assert Pow2(7) == 128 && Pow2(8) == 256;
    if k >= 8 {
      Pow2Monotone(8, k);
    } else {
      Pow2Monotone(k, 7);
    }
  }

  lemma SmallPowerIsHeapLength(k: nat)
    requires 512 * Pow2(k) <= MAX_BUFFER_LEN
    ensures HeapLength(512 * Pow2(k))
  {
    LargePower(k);
    assert Pow2(0) == 1 && Pow2(1) == 2 && Pow2(2) == 4 && Pow2(3) == 8;
    assert Pow2(4) == 16 && Pow2(5) == 32 && Pow2(6) == 64 && Pow2(7) == 128;
  }

  lemma Pow2Of54()
    ensures Pow2(54) == 0x40_0000_0000_0000
  {
    assert Pow2(10) == 1024;
    assert Pow2(20) == 0x10_0000;
    assert Pow2(30) == 0x4000_0000;
    assert Pow2(40) == 0x100_0000_0000;
    assert Pow2(50) == 0x4_0000_0000_0000;
  }

  /** `n * 2` in 64-bit arithmetic. */
  function Double64(n: nat): (r: nat)
    requires n < SIZE_T_SPAN
    ensures r < SIZE_T_SPAN
  {
    if 2 * n < SIZE_T_SPAN then 2 * n else 2 * n - SIZE_T_SPAN
  }

  /** Doubling stays inside 64 bits as long as the request does not exceed half their range. */
  lemma DoublingInRange(k: nat)
    ensures k <= 53 ==> 512 * Pow2(k) * 2 == 512 * Pow2(k + 1) <= SIZE_T_SPAN / 2
    ensures k >= 54 ==> 512 * Pow2(k) >= SIZE_T_SPAN / 2
  {
    Pow2Of54();
    if k <= 53 {
      Pow2Monotone(k + 1, 54);
    } else {
      Pow2Monotone(54, k);
    }
  }

  /** Receive buffer. `data` is the current storage, at first the one built into the object. */
  class PackageBuffer {
    var data: array<byte>

    ghost predicate Valid()
      reads this
    {
      BufferLength(data.Length)
    }

    constructor ()
      ensures Valid() && fresh(data) && data.Length == STACK_BUFFER_LEN
    {
      data := new byte[STACK_BUFFER_LEN];
    }

    /** Growth for `contentLength` bytes of content. All arithmetic is 64-bit. The loop ends for no
        larger request (GrowthEnds). */
    method ExpectContentLength(contentLength: nat) returns (r: Growth)
      requires Valid() && contentLength <= SIZE_T_SPAN - HEADER_LEN
      modifies this
      ensures Valid()
      ensures r == Outcome(contentLength)
      ensures r.Room? ==> contentLength <= data.Length - HEADER_LEN
      ensures old(data.Length) - HEADER_LEN >= contentLength || !r.Room? ==> data == old(data)
      ensures data == old(data) || (fresh(data) && data[..HEADER_LEN] == old(data[..HEADER_LEN]))
      ensures data.Length != old(data.Length) ==>
                data.Length == FIRST_HEAP_BUFFER_LEN || data.Length / 2 - HEADER_LEN < contentLength
    {
      hide Pow2, HeapLength;
      if data.Length - HEADER_LEN >= contentLength {
        return Room;
      }
      var oldLength := if data.Length == STACK_BUFFER_LEN then FIRST_HEAP_BUFFER_LEN else data.Length;
      var newLength := oldLength;
      ghost var k := HeapLengthIsPower(oldLength);
      GrownLengthDoubles(k);
      while Minus64(newLength, HEADER_LEN) < contentLength
        invariant data == old(data) && Valid()
        invariant newLength == oldLength == GrownLength(k) && k <= 55
        invariant newLength == FIRST_HEAP_BUFFER_LEN || newLength == data.Length
                  || (k > 0 && Minus64(GrownLength(k - 1), HEADER_LEN) < contentLength)
        decreases 55 - k
      {
        GrownLengthIs(k);
        newLength := Double64(oldLength);
        oldLength := newLength;
        k := k + 1;
        GrownLengthIs(k);
      }
      GrownLengthIs(k);
      GrownLengthIs(if k > 0 then k - 1 else 0);
      LargePower(k);
      if newLength > MAX_BUFFER_LEN {
        return TooLong;
      }
      if newLength < HEADER_LEN {
        return Overrun;
      }
      SmallPowerIsHeapLength(k);
      MoveTo(newLength);
      return Room;
    }

    /** Only the header is carried over. */
    method MoveTo(newLength: nat)
      requires HEADER_LEN <= data.Length && HEADER_LEN <= newLength
      modifies this
      ensures fresh(data) && data.Length == newLength && data[..HEADER_LEN] == old(data[..HEADER_LEN])
    {
      var newData := new byte[newLength];
      forall i | 0 <= i < HEADER_LEN {
        newData[i] := data[i];
      }
      assert newData[..HEADER_LEN] == data[..HEADER_LEN];
      data := newData;
    }
  }

  /** `Room`: the content fits. `TooLong`: false is returned. `Overrun`: the new length has wrapped
      to zero, which passes for short enough, and the header is copied into an empty buffer; or the
      loop does not end. */
  datatype Growth = Room | TooLong | Overrun

  function Outcome(contentLength: nat): Growth {
    if contentLength <= MAX_CONTENT_LEN then Room
    else if contentLength <= SIZE_T_SPAN / 2 - HEADER_LEN then TooLong
    else Overrun
  }

  /** `n - m` in 64-bit arithmetic. */
  function Minus64(n: nat, m: nat): (r: nat)
    requires n < SIZE_T_SPAN && m < SIZE_T_SPAN
    ensures r < SIZE_T_SPAN
  {
    if m <= n then n - m else n - m + SIZE_T_SPAN
  }

  /** A signed length as `size_t`. */
  function SizeT(n: int): (r: nat)
    requires -SIZE_T_SPAN / 2 <= n < SIZE_T_SPAN / 2
    ensures r < SIZE_T_SPAN
  {
    if n < 0 then n + SIZE_T_SPAN else n
  }

  /** The length the growth loop holds after `k` rounds when it starts at 512. */
  function GrownLength(k: nat): (r: nat)
    ensures r < SIZE_T_SPAN
  {
    if k == 0 then FIRST_HEAP_BUFFER_LEN else Double64(GrownLength(k - 1))
  }

  lemma {:induction false} GrownLengthDoubles(k: nat)
    requires k <= 54
    ensures GrownLength(k) == 512 * Pow2(k) <= SIZE_T_SPAN / 2
  {
    if k == 0 {
      DoublingInRange(k);
    } else {
      GrownLengthDoubles(k - 1);
      DoublingInRange(k - 1);
    }
  }

  /** 512 doubled, up to half of 2 to the 64, and zero from then on. */
  lemma {:induction false} GrownLengthIs(k: nat)
    ensures GrownLength(k) == if k <= 54 then 512 * Pow2(k) else 0
    ensures k <= 54 ==> FIRST_HEAP_BUFFER_LEN <= GrownLength(k) <= SIZE_T_SPAN / 2
    ensures k == 54 ==> GrownLength(k) == SIZE_T_SPAN / 2
  {
    if k <= 54 {
      GrownLengthDoubles(k);
      Pow2Of54();
    } else {
      GrownLengthIs(k - 1);
    }
  }

  /** The loop's guard fails, for the first time, after `k` rounds. */
  predicate StopsAt(contentLength: nat, k: nat) {
    && Minus64(GrownLength(k), HEADER_LEN) >= contentLength
    && forall i | 0 <= i < k :: Minus64(GrownLength(i), HEADER_LEN) < contentLength
  }

  lemma {:induction false} FirstStop(contentLength: nat, k: nat) returns (first: nat)
    requires Minus64(GrownLength(k), HEADER_LEN) >= contentLength
    ensures StopsAt(contentLength, first)
  {
    if i: nat :| i < k && Minus64(GrownLength(i), HEADER_LEN) >= contentLength {
      first := FirstStop(contentLength, i);
    } else {
      first := k;
    }
  }

  /** The loop ends exactly for requests that zero minus the header's length still covers. */
  lemma GrowthEnds(contentLength: nat)
    ensures (exists k: nat :: StopsAt(contentLength, k)) <==> contentLength <= SIZE_T_SPAN - HEADER_LEN
  {
    GrownLengthIs(55);
    if contentLength <= SIZE_T_SPAN - HEADER_LEN {
      var first := FirstStop(contentLength, 55);
    } else {
      forall k: nat
        ensures !StopsAt(contentLength, k)
      {
        GrownLengthIs(k);
      }
    }
  }

  /** Where the loop ends it has found a length with room exactly for requests up to half the 64-bit
      range; it holds zero for all others. Not larger than the maximum is a length found for a
      request up to the maximum, and the zero. */
  lemma GrowthHasRoom(contentLength: nat, k: nat)
    requires StopsAt(contentLength, k)
    ensures GrownLength(k) >= HEADER_LEN + contentLength <==> contentLength <= SIZE_T_SPAN / 2 - HEADER_LEN
    ensures GrownLength(k) == 0 <==> contentLength > SIZE_T_SPAN / 2 - HEADER_LEN
    ensures GrownLength(k) > MAX_BUFFER_LEN <==> Outcome(contentLength) == TooLong
  {
    hide StopsAt, GrownLength, Pow2, Minus64;
    GrownLengthIs(k);
    LargePower(k);
    StopBounds(contentLength, k);
  }

  lemma StopBounds(contentLength: nat, k: nat)
    requires StopsAt(contentLength, k)
    ensures k <= 54 ==> contentLength <= GrownLength(k) - HEADER_LEN
    ensures k >= 8 ==> contentLength > MAX_CONTENT_LEN
    ensures k >= 55 ==> contentLength > SIZE_T_SPAN / 2 - HEADER_LEN
  {
    hide Pow2;
    GrownLengthIs(k);
    if k >= 8 {
      EarlierLengths();
      assert Minus64(GrownLength(7), HEADER_LEN) < contentLength;
    }
    if k >= 55 {
      assert Minus64(GrownLength(54), HEADER_LEN) < contentLength;
    }
  }

  lemma EarlierLengths()
    ensures GrownLength(7) == MAX_BUFFER_LEN && GrownLength(54) == SIZE_T_SPAN / 2
  {
    GrownLengthIs(7);
    GrownLengthIs(54);
    assert Pow2(7) == 128;
  }

  /** The values of the source's `int`. */
  predicate IsInt(n: int) {
    -INT_SPAN_HALF <= n < INT_SPAN_HALF
  }

  /** A `size_t` as `int`: its low 32 bits. */
  function AsInt(n: nat): (r: int)
    ensures IsInt(r)
  {
    var low := n % (2 * INT_SPAN_HALF);
    if low < INT_SPAN_HALF then low else low - 2 * INT_SPAN_HALF
  }

  /** What a header that announces this length makes the buffer grow for: a secure connection rounds
      the length first, in 64 bits. */
  function Requested(secure: bool, contentLength: int): (r: nat)
    requires IsInt(contentLength)
    ensures r < SIZE_T_SPAN
  {
    SizeT(if secure then AsInt(CipherLength64(SizeT(contentLength))) else contentLength)
  }

  /** Rounding in 64 bits is rounding, but the largest lengths become the least `int`. */
  lemma RequestedIsRounded(contentLength: int)
    requires IsInt(contentLength)
    ensures Requested(true, contentLength)
         == SizeT(if Rounded(contentLength) < INT_SPAN_HALF then Rounded(contentLength) else -INT_SPAN_HALF)
  {
    CipherLengthWraps(SizeT(contentLength));
    assert SIZE_T_SPAN % BLOCK_SIZE == 0;
    if -BLOCK_SIZE < contentLength < 0 {
      assert CipherLength64(SizeT(contentLength)) == 0 == Rounded(contentLength);
    } else if contentLength < 0 {
      SameRounding(contentLength);
    } else {
      assert CipherLength64(SizeT(contentLength)) == Rounded(contentLength);
    }
  }

  lemma SameRounding(n: int)
    requires IsInt(n) && n <= -BLOCK_SIZE
    ensures CipherLength64(SizeT(n)) == SizeT(Rounded(n)) && AsInt(SizeT(Rounded(n))) == Rounded(n)
  {
    var r := CipherLength(SizeT(n)) - SIZE_T_SPAN;
    assert r % BLOCK_SIZE == 0 && n <= r < n + BLOCK_SIZE;
    assert r == Rounded(n);
  }

  /** Where growth for a request above half the 64-bit range leads. */
  lemma FateOf(request: nat)
    requires request < SIZE_T_SPAN
    ensures (forall k: nat :: !StopsAt(request, k)) <==> SIZE_T_SPAN - HEADER_LEN < request
    ensures StopsAt(request, 55) && GrownLength(55) == 0 && Outcome(request) == Overrun
            <==> SIZE_T_SPAN / 2 - HEADER_LEN < request <= SIZE_T_SPAN - HEADER_LEN
  {
    GrownLengthIs(55);
    GrowthEnds(request);
    if SIZE_T_SPAN / 2 - HEADER_LEN < request <= SIZE_T_SPAN - HEADER_LEN {
      StopsAtZero(request);
    }
  }

  lemma NegativeRequest(secure: bool, contentLength: int)
    requires IsInt(contentLength) && contentLength < 0
    ensures Requested(secure, contentLength) == if !secure then SIZE_T_SPAN + contentLength
                                                else if -15 <= contentLength then 0
                                                else SIZE_T_SPAN + Rounded(contentLength)
    ensures -31 <= contentLength <= -16 <==> Rounded(contentLength) == -16
    ensures contentLength <= -32 <==> Rounded(contentLength) <= -32
    ensures -INT_SPAN_HALF <= Rounded(contentLength)
  {
    if secure {
      RequestedIsRounded(contentLength);
    }
  }

  /** The exact fates of a header that announces a negative length. Rounding makes -15 to -1 zero,
      which needs no buffer. From -17 plain, and from -31 to -16 secure, growth does not end. Below
      that it ends with an empty buffer. */
  lemma NegativeLength(secure: bool, contentLength: int)
    requires IsInt(contentLength) && contentLength < 0
    ensures var request := Requested(secure, contentLength);
            && (request == 0 <==> secure && -15 <= contentLength)
            && ((forall k: nat :: !StopsAt(request, k)) <==> if secure then -31 <= contentLength <= -16 else -17 <= contentLength)
            && (StopsAt(request, 55) && GrownLength(55) == 0 && Outcome(request) == Overrun
                <==> if secure then contentLength <= -32 else contentLength <= -18)
  {
    hide Requested, Rounded, StopsAt, GrownLength, Outcome;
    FateOf(Requested(secure, contentLength));
    NegativeRequest(secure, contentLength);
  }
  lemma StopsAtZero(request: nat)
    requires SIZE_T_SPAN / 2 - HEADER_LEN < request <= SIZE_T_SPAN - HEADER_LEN
    ensures StopsAt(request, 55)
  {
    forall k: nat | k <= 55
      ensures Minus64(GrownLength(k), HEADER_LEN) >= request <==> k == 55
    {
      GrownLengthIs(k);
    }
  }

  // ------------------------------------------------------- outgoing packages

  /** A registered package: header, content storage, and whether a length calculator for
      encrypted content has been set. */
  datatype Entry = Entry(header: Header, content: seq<byte>, padded: bool)

  /** The header's length is not negative and the storage has room for the padded content. */
  predicate WellFormed(e: Entry) {
    0 <= e.header.contentLength && CipherLength(e.header.contentLength) <= |e.content|
  }

  function Take(s: seq<byte>, n: int): (r: seq<byte>)
    ensures 0 <= n <= |s| ==> r == s[..n]
  {
    if n < 0 then [] else if n <= |s| then s[..n] else s
  }

  function ValidContentLength(e: Entry): int {
    if e.padded && e.header.contentLength >= 0 then CipherLength(e.header.contentLength) else e.header.contentLength
  }

  /** What a package looks like on the wire: the first `valid_length` bytes of its storage. */
  function Image(e: Entry): seq<byte> {
    EncodeHeader(e.header) + Take(e.content, ValidContentLength(e))
  }

  const FRESH_HEADER := Header(PACKAGE_VERSION, 0, 0, 0, 0)

  class PackageManager {
    var nextId: int
    var packages: map<int, Entry>

    ghost predicate Valid()
      reads this
    {
      forall id | id in packages :: id < nextId
    }

    constructor ()
      ensures Valid() && packages == map[] && nextId == 1
    {
      nextId, packages := 1, map[];
    }

    /** The storage is rounded up to whole blocks, for encryption in place; its bytes are not
        initialised. */
    method RegisterPackage(contentLen: nat) returns (id: int)
      requires Valid()
      modifies this
      ensures Valid() && id == old(nextId) && nextId == old(nextId) + 1
      ensures id !in old(packages) && id in packages && packages == old(packages)[id := packages[id]]
      ensures packages[id].header == FRESH_HEADER && !packages[id].padded
      ensures |packages[id].content| == CipherLength(contentLen)
    {
      var data := new byte[CipherLength(contentLen)];
      id := nextId;
      nextId := nextId + 1;
      packages := packages[id := Entry(FRESH_HEADER, data[..], false)];
    }

    method RemovePackage(id: int)
      requires Valid()
      modifies this`packages
      ensures Valid() && packages == old(packages) - {id}
    {
      packages := packages - {id};
    }
  }
}
