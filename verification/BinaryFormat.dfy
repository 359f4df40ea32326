/** The string table, the writer that stores format arguments in a bounded buffer, and the one that
    renders them later. */
module BinaryFormat {
  import opened Wire
  import opened IntegerText
  import opened Formatting
  import opened TextWriter
  import opened Deferred

  class StringTable {
    var strArray: Table
    var strHash: map<seq<byte>, nat>

    ghost predicate Valid()
      reads this
    {
      && (forall s | s in strHash :: s in strArray && strHash[s] == IndexOf(strArray, s))
      && (forall i | 0 <= i < |strArray| :: strArray[i] in strHash)
    }

    constructor ()
      ensures Valid() && strArray == []
    {
      strArray, strHash := [], map[];
    }

    /** Strings already given an index keep it. */
    method GetIndex(s: seq<byte>) returns (index: nat)
      requires Valid()
      modifies this
      ensures Valid() && strArray == WithString(old(strArray), s) && index == IndexOf(old(strArray), s)
      ensures index < |strArray| && strArray[index] == s && old(strArray) <= strArray
    {
      if s in strHash {
        index := strHash[s];
      } else {
        index := AddStr(s);
      }
    }

    method AddStr(s: seq<byte>) returns (index: nat)
      requires Valid() && s !in strHash
      modifies this
      ensures Valid() && strArray == old(strArray) + [s] && index == |old(strArray)|
      ensures s !in old(strArray)
    {
      ghost var before := strArray;
      assert forall i | 0 <= i < |before| :: before[i] in strHash;
      strArray := strArray + [s];
      index := |strArray| - 1;
      NewIndex(before, s);
      forall t | t in before
        ensures IndexOf(strArray, t) == IndexOf(before, t)
      {
        IndexIsKept(before, s, t);
      }
      strHash := strHash[s := index];
    }

    method GetStr(index: nat) returns (found: Option<seq<byte>>)
      ensures found == if index < |strArray| then Some(strArray[index]) else None
    {
      found := if index < |strArray| then Some(strArray[index]) else None;
    }
  }

  lemma {:induction false} IndexIsKept(table: Table, s: seq<byte>, t: seq<byte>)
    requires t in table
    ensures IndexOf(table + [s], t) == IndexOf(table, t)
  {
    if table[0] != t {
      assert (table + [s])[1..] == table[1..] + [s];
      IndexIsKept(table[1..], s, t);
    }
  }

  class BinaryStoreWriter {
    const buffer: array<byte>
    const strTable: StringTable?
    var length: nat
    var started: bool      // The state STARTED of a composed argument.
    var memberNum: nat     // A 16-bit count.

    ghost predicate Valid()
      reads this, strTable
    {
      && (strTable != null ==> strTable.Valid())
      && (!started ==> length <= buffer.Length)
    }

    ghost function TableView(): Option<Table>
      reads this, strTable
    {
      if strTable == null then None else Some(strTable.strArray)
    }

    ghost function TableRepr(): set<object> {
      if strTable == null then {} else {strTable}
    }

    ghost function Bytes(): seq<byte>
      requires length <= buffer.Length
      reads this, buffer
    {
      buffer[..length]
    }

    constructor (capacity: nat, strTable: StringTable?)
      requires strTable != null ==> strTable.Valid()
      ensures Valid() && fresh(buffer) && buffer.Length == capacity && this.strTable == strTable
      ensures !started && length == 0
    {
      buffer := new byte[capacity];
      this.strTable := strTable;
      length, started, memberNum := 0, false, 0;
    }

    predicate CanAppend(len: nat)
      reads this
    {
      length + len <= buffer.Length
    }

    /** Counts a member and writes its bytes. */
    method StorePiece(e: seq<byte>)
      requires Valid() && CanAppend(|e|)
      modifies this`length, this`memberNum, buffer
      ensures Valid() && length == old(length) + |e| <= buffer.Length && Bytes() == old(Bytes()) + e
      ensures memberNum == if started then (old(memberNum) + 1) % COUNT_SPAN else old(memberNum)
    {
      if started {
        memberNum := (memberNum + 1) % COUNT_SPAN;
      }
      forall j | 0 <= j < |e| {
        buffer[length + j] := e[j];
      }
      length := length + |e|;
      assert buffer[..length] == old(buffer[..length]) + e;
    }

    /** The piece `a` is stored if its encoding fits, and otherwise nothing happens. */
    twostate predicate Took(a: Atom)
      requires AtomOk(a) && !Silent(a)
      reads this, buffer, strTable
    {
      var e := Encode(a, old(TableView()));
      if old(length) + |e| <= buffer.Length then
        && length == old(length) + |e| <= buffer.Length && Bytes() == old(Bytes()) + e
        && memberNum == (if started then (old(memberNum) + 1) % COUNT_SPAN else old(memberNum))
        && TableView() == TableAfter(a, old(TableView()))
      else
        && length == old(length) && buffer[..] == old(buffer[..]) && memberNum == old(memberNum)
        && TableView() == old(TableView())
    }

    method AppendChar(ch: byte)
      requires Valid()
      modifies this`length, this`memberNum, buffer
      ensures Valid() && Took(CharAtom(ch))
    {
      if CanAppend(2) {
        StorePiece([CODE_CHAR, ch]);
      }
    }

    method AppendString(s: seq<byte>, storeInTable: bool)
      requires Valid()
      modifies this`length, this`memberNum, buffer, TableRepr()
      ensures Valid()
      ensures s != [] ==> Took(StringAtom(s, storeInTable))
      ensures s == [] ==> length == old(length) && buffer[..] == old(buffer[..]) && memberNum == old(memberNum)
                          && TableView() == old(TableView())
    {
      if |s| == 0 {
        return;
      } else if |s| == 1 {
        AppendChar(s[0]);
      } else if storeInTable && strTable != null {
        if CanAppend(5) {
          var index := strTable.GetIndex(s);
          StorePiece([CODE_STRING_REF] + EncodeInt(index, 4));
        }
      } else if CanAppend(|s| + 2) {
        StorePiece([CODE_STRING, |s| % 256] + s);
      }
    }

    /** Tries the next smaller type first. */
    method InsertInteger(n: int, width: nat, signed: bool)
      requires Valid() && WidthOk(width) && FitsType(n, width, signed)
      modifies this`length, this`memberNum, buffer
      ensures Valid() && Took(IntAtom(n, width, signed))
      decreases width
    {
      if width > 1 && FitsType(n, width / 2, signed) {
        InsertInteger(n, width / 2, signed);
        return;
      }
      if CanAppend(1 + width) {
        StorePiece([TypeCode(width, signed)] + EncodeInt(n, width));
      }
    }

    /** Between the pieces of a composed argument whose header starts at `base`: the header is
        reserved, and `g` is what has been stored behind it. */
    ghost predicate Gathering(base: nat, content: seq<byte>, g: Gather)
      reads this, buffer, strTable
    {
      && started && memberNum == |g.kept| % COUNT_SPAN && TableView() == g.table && 2 * |g.kept| <= |g.bytes|
      && (g.kept == [] ==> g.bytes == [])
      && length == base + COMPOSED_HEADER_LEN + |g.bytes|
      && base <= buffer.Length && buffer[..base] == content
      && (g.bytes != [] ==> length <= buffer.Length)
      && (length <= buffer.Length ==> buffer[base + COMPOSED_HEADER_LEN..length] == g.bytes)
    }

    method StoreAtom(a: Atom)
      requires Valid() && AtomOk(a)
      modifies this`length, this`memberNum, buffer, TableRepr()
      ensures Valid()
      ensures !Silent(a) ==> Took(a)
      ensures Silent(a) ==> length == old(length) && buffer[..] == old(buffer[..]) && memberNum == old(memberNum)
                            && TableView() == old(TableView())
    {
      hide Encode, TableAfter, FitsType;
      match a {
        case CharAtom(ch) => AppendChar(ch);
        case StringAtom(s, inTable) => AppendString(s, inTable);
        case IntAtom(n, width, signed) => InsertInteger(n, width, signed);
      }
    }

    method InsertAtom(a: Atom, ghost base: nat, ghost content: seq<byte>, ghost g: Gather)
      requires Valid() && AtomOk(a) && Gathering(base, content, g)
      modifies this`length, this`memberNum, buffer, TableRepr()
      ensures Valid() && Gathering(base, content, AddAtom(g, base + COMPOSED_HEADER_LEN, buffer.Length, a))
    {
      hide Encode, TableAfter, AtomOk, Packed;
      StoreAtom(a);
      if !Silent(a) {
        ghost var e := Encode(a, g.table);
        if old(length) + |e| <= buffer.Length {
          GatheredMore(old(buffer[..]), buffer[..], base, old(length), e);
        }
      }
    }

    /** The header is reserved before the first piece and written, or given up, after the last. */
    method AddComposedType(atoms: seq<Atom>)
      requires Valid() && !started && AtomsOk(atoms)
      modifies this`length, this`memberNum, this`started, buffer, TableRepr()
      ensures Valid() && !started
      ensures var before := Store(old(Bytes()), [], old(TableView()));
              var st := StoreArgument(before, buffer.Length, atoms);
              && TableView() == st.table
              && (|Gathered(before, buffer.Length, atoms).kept| < COUNT_SPAN ==> Bytes() == st.bytes)
    {
      ghost var content := Bytes();
      memberNum := 0;
      var base := length;
      length := length + COMPOSED_HEADER_LEN;
      started := true;
      ghost var g := Gather([], [], TableView());
      var i := 0;
      assert atoms[0..] == atoms;
      while i < |atoms|
        invariant 0 <= i <= |atoms| && Valid() && Gathering(base, content, g)
        invariant AddAtoms(g, base + COMPOSED_HEADER_LEN, buffer.Length, atoms[i..])
               == AddAtoms(Gather([], [], old(TableView())), base + COMPOSED_HEADER_LEN, buffer.Length, atoms)
      {
        assert atoms[i..][0] == atoms[i] && atoms[i..][1..] == atoms[i + 1..];
        InsertAtom(atoms[i], base, content, g);
        g := AddAtom(g, base + COMPOSED_HEADER_LEN, buffer.Length, atoms[i]);
        i := i + 1;
      }
      assert g == AddAtoms(Gather([], [], old(TableView())), base + COMPOSED_HEADER_LEN, buffer.Length, atoms);
      FinishComposed(base, content, g);
    }

    method FinishComposed(base: nat, ghost content: seq<byte>, ghost g: Gather)
      requires Valid() && Gathering(base, content, g)
      modifies this`length, this`started, buffer
      ensures Valid() && !started
      ensures |g.kept| < COUNT_SPAN ==> Bytes() == content + if g.kept == [] then [] else Packed(g)
    {
      hide EncodeInt, AtomOk;
      CountInWidth(|g.kept|);
      started := false;
      ghost var fits := |g.kept| < COUNT_SPAN;
      assert fits ==> memberNum == |g.kept|;
      if memberNum > 1 {
        WriteHeader(base);
      } else if memberNum == 1 {
        MoveBack(base);
      } else {
        length := length - COMPOSED_HEADER_LEN;
        assert fits ==> buffer[..length] == content;
      }
    }

    method WriteHeader(base: nat)
      requires base + COMPOSED_HEADER_LEN <= length <= buffer.Length
      modifies buffer
      ensures Bytes() == old(buffer[..base]) + ([CODE_COMPOSED] + EncodeInt(memberNum, 2))
                         + old(buffer[base + COMPOSED_HEADER_LEN..length])
    {
      var header := [CODE_COMPOSED] + EncodeInt(memberNum, 2);
      forall j | 0 <= j < COMPOSED_HEADER_LEN {
        buffer[base + j] := header[j];
      }
    }

    method MoveBack(base: nat)
      requires base + COMPOSED_HEADER_LEN <= length <= buffer.Length
      modifies this`length, buffer
      ensures length == old(length) - COMPOSED_HEADER_LEN
      ensures Bytes() == old(buffer[..base]) + old(buffer[base + COMPOSED_HEADER_LEN..length])
    {
      var len := length - (base + COMPOSED_HEADER_LEN);
      forall j | 0 <= j < len {
        buffer[base + j] := buffer[base + COMPOSED_HEADER_LEN + j];
      }
      length := length - COMPOSED_HEADER_LEN;
    }

    /** The storing `write`. */
    method Write(fmt: seq<byte>, args: seq<seq<Atom>>)
      requires Valid() && !started && ArgumentsOk(args)
      modifies this`length, this`memberNum, this`started, buffer, TableRepr()
      ensures Valid() && !started
      ensures var before := Store(old(Bytes()), [], old(TableView()));
              var st := StoreWrite(before, buffer.Length, fmt, args);
              CountsFit(before, buffer.Length, fmt, args) ==> Bytes() == st.bytes && TableView() == st.table
      decreases |args|
    {
      if args == [] {
        return;
      }
      var i := FindPlaceholder(fmt);
      if i < |fmt| {
        ghost var before := Store(Bytes(), [], TableView());
        ghost var st := StoreArgument(before, buffer.Length, args[0]);
        AddComposedType(args[0]);
        ghost var now := Store(Bytes(), [], TableView());
        if |Gathered(before, buffer.Length, args[0]).kept| < COUNT_SPAN {
          KeptDoesNotMatter(st, now, buffer.Length, fmt[i + 2..], args[1..]);
        }
        Write(fmt[i + 2..], args[1..]);
      }
    }
  }

  lemma CountInWidth(count: nat)
    ensures count < COUNT_SPAN ==> count % COUNT_SPAN == count
    ensures count % COUNT_SPAN > 0 ==> count > 0
  {
  }

  /** No argument stores as many pieces as wrap the 16-bit count. */
  predicate CountsFit(st: Store, capacity: nat, fmt: seq<byte>, args: seq<seq<Atom>>)
    requires ArgumentsOk(args)
    decreases |args|
  {
    if args == [] then true
    else
      var i := Placeholder(fmt, 0);
      i < |fmt| ==>
        && |Gathered(st, capacity, args[0]).kept| < COUNT_SPAN
        && CountsFit(StoreArgument(st, capacity, args[0]), capacity, fmt[i + 2..], args[1..])
  }

  /** In buffers below 131072 bytes the count never wraps. */
  lemma {:induction false} SmallBuffersCount(st: Store, capacity: nat, fmt: seq<byte>, args: seq<seq<Atom>>)
    requires ArgumentsOk(args) && capacity < 2 * COUNT_SPAN
    ensures CountsFit(st, capacity, fmt, args)
    decreases |args|
  {
    if args != [] {
      var i := Placeholder(fmt, 0);
      if i < |fmt| {
        AddAtomsSize(Gather([], [], st.table), |st.bytes| + COMPOSED_HEADER_LEN, capacity, args[0]);
        SmallBuffersCount(StoreArgument(st, capacity, args[0]), capacity, fmt[i + 2..], args[1..]);
      }
    }
  }

  lemma GatheredMore(before: seq<byte>, now: seq<byte>, base: nat, length: nat, e: seq<byte>)
    requires base + COMPOSED_HEADER_LEN <= length && length + |e| <= |before| == |now|
    requires now[..length + |e|] == before[..length] + e
    ensures now[..base] == before[..base]
    ensures now[base + COMPOSED_HEADER_LEN..length + |e|] == before[base + COMPOSED_HEADER_LEN..length] + e
  {
    assert now[..base] == now[..length + |e|][..base];
    assert now[base + COMPOSED_HEADER_LEN..length + |e|] == now[..length + |e|][base + COMPOSED_HEADER_LEN..];
  }

  /** The history of kept pieces has no influence on what is stored. */
  lemma {:induction false} KeptDoesNotMatter(a: Store, b: Store, capacity: nat, fmt: seq<byte>, args: seq<seq<Atom>>)
    requires ArgumentsOk(args) && a.bytes == b.bytes && a.table == b.table
    ensures var a', b' := StoreWrite(a, capacity, fmt, args), StoreWrite(b, capacity, fmt, args);
            a'.bytes == b'.bytes && a'.table == b'.table
    ensures CountsFit(a, capacity, fmt, args) == CountsFit(b, capacity, fmt, args)
    decreases |args|
  {
    if args != [] {
      var i := Placeholder(fmt, 0);
      if i < |fmt| {
        KeptDoesNotMatter(StoreArgument(a, capacity, args[0]), StoreArgument(b, capacity, args[0]), capacity, fmt[i + 2..], args[1..]);
      }
    }
  }

  // ----------------------------------------------------------------- restoring

  lemma {:induction false} InsertAllConcat(text: seq<byte>, max: nat, a: seq<Op>, b: seq<Op>)
    ensures InsertAll(text, max, a + b) == InsertAll(InsertAll(text, max, a), max, b)
    decreases |a|
  {
    if a == [] {
      assert a + b == b;
    } else {
      assert (a + b)[1..] == a[1..] + b;
      InsertAllConcat(Insert(text, max, a[0]), max, a[1..], b);
    }
  }

  lemma FirstMember(bytes: seq<byte>, table: Option<Table>, num: nat, width: nat) returns (first: Piece, rest: Piece)
    requires 0 < num < COUNT_SPAN && RestoreMembers(bytes, table, num, width).Some?
    ensures 1 + width <= |bytes| && RestoreArgument(bytes[1 + width..], table) == Some(first)
    ensures RestoreMembers(bytes, table, num - 1, (width + first.width) % 256) == Some(rest)
    ensures RestoreMembers(bytes, table, num, width) == Some(Piece(first.ops + rest.ops, rest.width))
  {
    first := RestoreArgument(bytes[1 + width..], table).value;
    rest := RestoreMembers(bytes, table, num - 1, (width + first.width) % 256).value;
  }

  lemma NoMembers(bytes: seq<byte>, table: Option<Table>, width: nat, text: seq<byte>, max: nat)
    ensures RestoreMembers(bytes, table, 0, width) == Some(Piece([], width))
    ensures InsertAll(text, max, []) == text
  {
  }

  lemma {:induction false} DecodedFits(s: seq<byte>)
    requires s != []
    ensures FitsUnsigned(DecodeUnsigned(s), |s|) && FitsSigned(DecodeSigned(s), |s|)
  {
    if |s| > 1 {
      DecodedFits(s[1..]);
    }
  }

  class BinaryRestoreWriter {
    const writer: TextWriter
    const strTable: StringTable?

    ghost predicate Valid()
      reads writer
    {
      writer.Valid() && !writer.hasHandler
    }

    ghost function TableView(): Option<Table>
      reads strTable
    {
      if strTable == null then None else Some(strTable.strArray)
    }

    ghost function Text(): seq<byte>
      requires Valid()
      reads writer, writer.buffer
    {
      writer.Text()
    }

    constructor (capacity: nat, strTable: StringTable?)
      requires capacity >= 1
      ensures Valid() && Text() == [] && this.strTable == strTable && fresh(writer) && fresh(writer.buffer)
      ensures writer.MaxSize() == capacity - 1
    {
      writer := new TextWriter(capacity, false);
      this.strTable := strTable;
    }

    method Append(s: seq<byte>)
      requires Valid()
      modifies writer, writer.buffer
      ensures Valid() && Text() == InsertAll(old(Text()), writer.MaxSize(), [PutString(s)])
    {
      InsertOne(Text(), writer.MaxSize(), PutString(s));
      writer.AppendString(s);
    }

    method InsertInteger(n: int, width: nat)
      requires Valid() && FitsInteger(n, width)
      modifies writer, writer.buffer
      ensures Valid() && Text() == InsertAll(old(Text()), writer.MaxSize(), [PutInteger(n)])
    {
      InsertOne(Text(), writer.MaxSize(), PutInteger(n));
      writer.InsertInteger(n, width);
    }

    /** Renders the argument at the front of `bytes` and returns its width, computed in a byte. */
    method WriteArgument(bytes: seq<byte>) returns (width: nat)
      requires Valid() && RestoreArgument(bytes, TableView()).Some?
      modifies writer, writer.buffer
      ensures Valid()
      ensures var arg := RestoreArgument(bytes, TableView()).value;
              width == arg.width && Text() == InsertAll(old(Text()), writer.MaxSize(), arg.ops)
      decreases |bytes|, COUNT_SPAN
    {
      var code := bytes[0];
      if code == CODE_COMPOSED {
        CountBounded(bytes[1..3]);
        width := WriteMembers(bytes, DecodeUnsigned(bytes[1..3]));
        width := (width + 1) % 256;
      } else if code == CODE_STRING_REF {
        WriteReference(bytes);
        width := 5;
      } else {
        width := WritePlain(bytes);
      }
    }

    method WriteMembers(bytes: seq<byte>, num: nat) returns (width: nat)
      requires Valid() && num < COUNT_SPAN && bytes != [] && RestoreMembers(bytes, TableView(), num, 2).Some?
      modifies writer, writer.buffer
      ensures Valid()
      ensures var members := RestoreMembers(bytes, TableView(), num, 2).value;
              width == members.width && Text() == InsertAll(old(Text()), writer.MaxSize(), members.ops)
      decreases |bytes|, num
    {
      hide RestoreArgument, RestoreMembers, InsertAll;
      width := 2;
      var i := 0;
      ghost var all := RestoreMembers(bytes, TableView(), num, 2).value;
      ghost var left := all;
      while i < num
        invariant 0 <= i <= num && Valid()
        invariant RestoreMembers(bytes, TableView(), num - i, width) == Some(left) && left.width == all.width
        invariant InsertAll(Text(), writer.MaxSize(), left.ops) == InsertAll(old(Text()), writer.MaxSize(), all.ops)
      {
        ghost var first, rest := FirstMember(bytes, TableView(), num - i, width);
        InsertAllConcat(Text(), writer.MaxSize(), first.ops, rest.ops);
        var w := WriteArgument(bytes[1 + width..]);
        width := (width + w) % 256;
        left := rest;
        i := i + 1;
      }
      NoMembers(bytes, TableView(), width, Text(), writer.MaxSize());
    }

    /** The codes other than composed arguments and references. */
    method WritePlain(bytes: seq<byte>) returns (width: nat)
      requires Valid() && RestoreArgument(bytes, TableView()).Some?
      requires bytes[0] != CODE_COMPOSED && bytes[0] != CODE_STRING_REF
      modifies writer, writer.buffer
      ensures Valid()
      ensures var arg := RestoreArgument(bytes, TableView()).value;
              width == arg.width && Text() == InsertAll(old(Text()), writer.MaxSize(), arg.ops)
    {
      var code := bytes[0];
      if code == 0 || code > CODE_STRING_REF {
        return 1;
      }
      if code == 1 {
        Append(Chars(if bytes[1] != 0 then "true" else "false"));
        width := 2;
      } else if code == CODE_CHAR {
        Append([bytes[1]]);
        width := 2;
      } else if code == CODE_STRING {
        var length: nat := bytes[1];
        Append(bytes[2..2 + length]);
        width := ((1 + length) % 256 + 1) % 256;
      } else {
        var w := IntegerWidth(code);
        var value := bytes[1..1 + w];
        DecodedFits(value);
        InsertInteger(if code % 2 == 0 then DecodeSigned(value) else DecodeUnsigned(value), w);
        width := 1 + w;
      }
    }

    method WriteReference(bytes: seq<byte>)
      requires Valid() && |bytes| >= 5 && bytes[0] == CODE_STRING_REF
      modifies writer, writer.buffer
      ensures Valid()
      ensures Text() == InsertAll(old(Text()), writer.MaxSize(), RestoreReference(bytes, TableView()).value.ops)
    {
      var index := DecodeUnsigned(bytes[1..5]);
      if strTable == null {
        Append(Chars("[[Use STRING_REF but string table is not set]]"));
        return;
      }
      var found := strTable.GetStr(index);
      if found.Some? {
        Append(found.value);
      } else {
        ghost var front, back := [PutString(Chars("[[Invalid string index: "))], [PutString(Chars("]]"))];
        InsertAllConcat(Text(), writer.MaxSize(), front, [PutInteger(index)] + back);
        InsertAllConcat(InsertAll(Text(), writer.MaxSize(), front), writer.MaxSize(), [PutInteger(index)], back);
        assert front + ([PutInteger(index)] + back) == RestoreReference(bytes, TableView()).value.ops;
        Append(Chars("[[Invalid string index: "));
        DecodedFits(bytes[1..5]);
        InsertInteger(index, 4);
        Append(Chars("]]"));
      }
    }

    /** The restoring `write`. */
    method WriteBinary(fmt: seq<byte>, bytes: seq<byte>)
      requires Valid() && Formatting.WriteBinary(Text(), writer.MaxSize(), fmt, bytes, TableView()).Some?
      modifies writer, writer.buffer
      ensures Valid()
      ensures Some(Text()) == Formatting.WriteBinary(old(Text()), writer.MaxSize(), fmt, bytes, TableView())
      decreases |fmt|
    {
      if bytes == [] {
        writer.AppendString(fmt);
        return;
      }
      var i := FindPlaceholder(fmt);
      writer.AppendString(fmt[..i]);
      if i < |fmt| {
        var width := WriteArgument(bytes);
        WriteBinary(fmt[i + 2..], bytes[width..]);
      }
    }
  }
}
