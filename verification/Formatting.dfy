/** Formatting with `{}` placeholders, directly and deferred: the deferred form stores encoded
    arguments in a bounded buffer and renders them later. */
module Formatting {
  import opened Wire
  import opened IntegerText

  const OPEN: byte := 123
  const CLOSE: byte := 125
  const MAX_STRING := 253   // Longest string whose width fits in a byte.
  const MAX_ARGUMENT := 255

  const CODE_CHAR: byte := 2
  const CODE_STRING: byte := 3
  const CODE_INT8: byte := 4
  const CODE_COMPOSED: byte := 12
  const CODE_STRING_REF: byte := 13
  const COMPOSED_HEADER_LEN := 3
  const COUNT_SPAN := 0x1_0000

  /** What a value's rendering inserts, piece by piece. A string may be meant for the string table.
      `width` is the size in bytes of the integer's own type. */
  datatype Atom = CharAtom(ch: byte)
                | StringAtom(s: seq<byte>, inTable: bool)
                | IntAtom(n: int, width: nat, signed: bool)

  /** Insertions into a text writer. */
  datatype Op = PutString(s: seq<byte>) | PutInteger(n: int)

  type Table = seq<seq<byte>>

  // --------------------------------------------------------------- plain text

  /** A writer without full handler keeps the first `max` characters. */
  function Put(text: seq<byte>, max: nat, s: seq<byte>): seq<byte> {
    if |text| + |s| <= max then text + s
    else if |text| <= max then text + s[..max - |text|] else text
  }

  function Insert(text: seq<byte>, max: nat, op: Op): seq<byte> {
    match op
    case PutString(s) => Put(text, max, s)
    case PutInteger(n) => if |text| + |Decimal(n)| <= max then text + Decimal(n) else text
  }

  function InsertAll(text: seq<byte>, max: nat, ops: seq<Op>): seq<byte>
    decreases |ops|
  {
    if ops == [] then text else InsertAll(Insert(text, max, ops[0]), max, ops[1..])
  }

  predicate IsPlaceholder(fmt: seq<byte>, i: nat) {
    i + 1 < |fmt| && fmt[i] == OPEN && fmt[i + 1] == CLOSE
  }

  /** Position of the first placeholder at or after `from`, or the end. */
  function Placeholder(fmt: seq<byte>, from: nat): (i: nat)
    requires from <= |fmt|
    ensures from <= i <= |fmt| && (i < |fmt| ==> IsPlaceholder(fmt, i))
    ensures forall j | from <= j < i :: !IsPlaceholder(fmt, j)
    decreases |fmt| - from
  {
    if from == |fmt| || IsPlaceholder(fmt, from) then from else Placeholder(fmt, from + 1)
  }

  /** Each placeholder takes the next group; without groups the rest is copied. */
  function Render(text: seq<byte>, max: nat, fmt: seq<byte>, groups: seq<seq<Op>>): seq<byte>
    decreases |groups|
  {
    if groups == [] then Put(text, max, fmt)
    else
      var i := Placeholder(fmt, 0);
      var t := Put(text, max, fmt[..i]);
      if i < |fmt| then Render(InsertAll(t, max, groups[0]), max, fmt[i + 2..], groups[1..]) else t
  }

  function AtomOp(a: Atom): Op {
    match a
    case CharAtom(ch) => PutString([ch])
    case StringAtom(s, _) => PutString(s)
    case IntAtom(n, _, _) => PutInteger(n)
  }

  function Ops(atoms: seq<Atom>): (ops: seq<Op>)
    ensures |ops| == |atoms|
  {
    if atoms == [] then [] else [AtomOp(atoms[0])] + Ops(atoms[1..])
  }

  function Groups(args: seq<seq<Atom>>): (groups: seq<seq<Op>>)
    ensures |groups| == |args|
  {
    if args == [] then [] else [Ops(args[0])] + Groups(args[1..])
  }

  /** The direct form. */
  function WriteText(text: seq<byte>, max: nat, fmt: seq<byte>, args: seq<seq<Atom>>): seq<byte> {
    Render(text, max, fmt, Groups(args))
  }

  lemma WriteTextNext(text: seq<byte>, max: nat, fmt: seq<byte>, args: seq<seq<Atom>>)
    requires args != []
    ensures var i := Placeholder(fmt, 0);
            var t := Put(text, max, fmt[..i]);
            WriteText(text, max, fmt, args)
            == if i < |fmt| then WriteText(InsertAll(t, max, Ops(args[0])), max, fmt[i + 2..], args[1..]) else t
  {
    assert Groups(args)[1..] == Groups(args[1..]);
  }

  // --------------------------------------------------------------- whole texts

  function OpText(op: Op): seq<byte> {
    match op
    case PutString(s) => s
    case PutInteger(n) => Decimal(n)
  }

  function OpsText(ops: seq<Op>): seq<byte> {
    if ops == [] then [] else OpText(ops[0]) + OpsText(ops[1..])
  }

  /** The text without any limit of room. */
  function FullText(fmt: seq<byte>, groups: seq<seq<Op>>): seq<byte>
    decreases |groups|
  {
    if groups == [] then fmt
    else
      var i := Placeholder(fmt, 0);
      fmt[..i] + if i < |fmt| then OpsText(groups[0]) + FullText(fmt[i + 2..], groups[1..]) else []
  }

  lemma {:induction false} InsertAllWithRoom(text: seq<byte>, max: nat, ops: seq<Op>)
    requires |text| + |OpsText(ops)| <= max
    ensures InsertAll(text, max, ops) == text + OpsText(ops)
    decreases |ops|
  {
    if ops == [] {
      assert text + [] == text;
    } else {
      InsertAllWithRoom(text + OpText(ops[0]), max, ops[1..]);
      assert text + OpText(ops[0]) + OpsText(ops[1..]) == text + OpsText(ops);
    }
  }

  /** With room for it the whole text is written. */
  lemma {:induction false} RenderWithRoom(text: seq<byte>, max: nat, fmt: seq<byte>, groups: seq<seq<Op>>)
    requires |text| + |FullText(fmt, groups)| <= max
    ensures Render(text, max, fmt, groups) == text + FullText(fmt, groups)
    decreases |groups|
  {
    hide Placeholder, OpsText, InsertAll;
    if groups != [] {
      var i := Placeholder(fmt, 0);
      var t := text + fmt[..i];
      if i < |fmt| {
        InsertAllWithRoom(t, max, groups[0]);
        RenderWithRoom(t + OpsText(groups[0]), max, fmt[i + 2..], groups[1..]);
        assert t + OpsText(groups[0]) + FullText(fmt[i + 2..], groups[1..]) == text + FullText(fmt, groups);
      } else {
        assert t + [] == text + (fmt[..i] + []);
      }
    }
  }

  /** How many placeholders there are. */
  function Places(fmt: seq<byte>): nat
    decreases |fmt|
  {
    var i := Placeholder(fmt, 0);
    if i < |fmt| then 1 + Places(fmt[i + 2..]) else 0
  }

  function GroupsLength(groups: seq<seq<Op>>): nat {
    if groups == [] then 0 else |OpsText(groups[0])| + GroupsLength(groups[1..])
  }

  /** Each group that finds a placeholder replaces its two characters. */
  lemma {:induction false} FullTextLength(fmt: seq<byte>, groups: seq<seq<Op>>)
    requires |groups| <= Places(fmt)
    ensures |FullText(fmt, groups)| + 2 * |groups| == |fmt| + GroupsLength(groups)
    decreases |groups|
  {
    if groups != [] {
      FullTextLength(fmt[Placeholder(fmt, 0) + 2..], groups[1..]);
    }
  }

  // ------------------------------------------------------------------ encoding

  predicate WidthOk(width: nat) {
    width == 1 || width == 2 || width == 4 || width == 8
  }

  predicate FitsType(n: int, width: nat, signed: bool)
    requires width > 0
  {
    if signed then FitsSigned(n, width) else FitsUnsigned(n, width)
  }

  /** The chain of narrowing conversions ends at the smallest type that holds the value. */
  function NarrowWidth(n: int, width: nat, signed: bool): (w: nat)
    requires WidthOk(width) && FitsType(n, width, signed)
    ensures WidthOk(w) && w <= width && FitsType(n, w, signed)
    ensures w > 1 ==> !FitsType(n, w / 2, signed)
    decreases width
  {
    if width > 1 && FitsType(n, width / 2, signed) then NarrowWidth(n, width / 2, signed) else width
  }

  function TypeCode(width: nat, signed: bool): byte
    requires WidthOk(width)
  {
    (if width == 1 then CODE_INT8 else if width == 2 then 6 else if width == 4 then 8 else 10) + if signed then 0 else 1
  }

  /** Index of a string in the table; a new string goes to the end. */
  function IndexOf(table: Table, s: seq<byte>): (i: nat)
    ensures i <= |table| && (i < |table| ==> table[i] == s)
    ensures i == |table| <==> s !in table
  {
    if table == [] then 0 else if table[0] == s then 0 else 1 + IndexOf(table[1..], s)
  }

  function WithString(table: Table, s: seq<byte>): (t: Table)
    ensures table <= t && IndexOf(table, s) < |t| && t[IndexOf(table, s)] == s
  {
    if IndexOf(table, s) == |table| then table + [s] else table
  }

  predicate AtomOk(a: Atom) {
    match a
    case CharAtom(_) => true
    case StringAtom(s, _) => true
    case IntAtom(n, width, signed) => WidthOk(width) && FitsType(n, width, signed)
  }

  /** Inserting an empty string stores nothing. */
  predicate Silent(a: Atom) {
    a.StringAtom? && a.s == []
  }

  predicate Referred(a: Atom, table: Option<Table>) {
    a.StringAtom? && |a.s| > 1 && a.inTable && table.Some?
  }

  function Encode(a: Atom, table: Option<Table>): (e: seq<byte>)
    requires AtomOk(a) && !Silent(a)
    ensures |e| >= 2
  {
    match a
    case CharAtom(ch) => [CODE_CHAR, ch]
    case StringAtom(s, inTable) =>
      if |s| == 1 then [CODE_CHAR, s[0]]
      else if inTable && table.Some? then [CODE_STRING_REF] + EncodeInt(IndexOf(table.value, s), 4)
      else [CODE_STRING, |s| % 256] + s
    case IntAtom(n, width, signed) =>
      var w := NarrowWidth(n, width, signed);
      [TypeCode(w, signed)] + EncodeInt(n, w)
  }

  function TableAfter(a: Atom, table: Option<Table>): (t: Option<Table>)
    ensures t.Some? == table.Some? && (t.Some? ==> table.value <= t.value)
  {
    if Referred(a, table) then Some(WithString(table.value, a.s)) else table
  }

  // ------------------------------------------------------------------- storing

  /** What the pieces of one argument have become: their bytes, how many there are, which ones. */
  datatype Gather = Gather(bytes: seq<byte>, kept: seq<Atom>, table: Option<Table>)

  /** A piece that does not fit is left out, and later ones are still tried. */
  function AddAtom(g: Gather, used: nat, capacity: nat, a: Atom): Gather
    requires AtomOk(a)
  {
    if Silent(a) then g
    else
      var e := Encode(a, g.table);
      if used + |g.bytes| + |e| <= capacity then Gather(g.bytes + e, g.kept + [a], TableAfter(a, g.table)) else g
  }

  predicate AtomsOk(atoms: seq<Atom>) {
    forall i | 0 <= i < |atoms| :: AtomOk(atoms[i])
  }

  function AddAtoms(g: Gather, used: nat, capacity: nat, atoms: seq<Atom>): Gather
    requires AtomsOk(atoms)
    decreases |atoms|
  {
    if atoms == [] then g else AddAtoms(AddAtom(g, used, capacity, atoms[0]), used, capacity, atoms[1..])
  }

  /** The stored form of an argument: a composed header only in front of several pieces. */
  function Packed(g: Gather): seq<byte> {
    if |g.kept| > 1 then [CODE_COMPOSED] + EncodeInt(|g.kept|, 2) + g.bytes
    else g.bytes
  }

  /** `kept` lists what was kept of each argument of which something was. */
  datatype Store = Store(bytes: seq<byte>, kept: seq<seq<Atom>>, table: Option<Table>)

  function Gathered(st: Store, capacity: nat, atoms: seq<Atom>): Gather
    requires AtomsOk(atoms)
  {
    AddAtoms(Gather([], [], st.table), |st.bytes| + COMPOSED_HEADER_LEN, capacity, atoms)
  }

  /** The header is reserved before the first piece, even if it is given up later. */
  function StoreArgument(st: Store, capacity: nat, atoms: seq<Atom>): Store
    requires AtomsOk(atoms)
  {
    var g := Gathered(st, capacity, atoms);
    if g.kept == [] then st.(table := g.table) else Store(st.bytes + Packed(g), st.kept + [g.kept], g.table)
  }

  predicate ArgumentsOk(args: seq<seq<Atom>>) {
    forall i | 0 <= i < |args| :: AtomsOk(args[i])
  }

  /** The storing `write`: an argument for each placeholder, nothing else. */
  function StoreWrite(st: Store, capacity: nat, fmt: seq<byte>, args: seq<seq<Atom>>): Store
    requires ArgumentsOk(args)
    decreases |args|
  {
    if args == [] then st
    else
      var i := Placeholder(fmt, 0);
      if i < |fmt| then StoreWrite(StoreArgument(st, capacity, args[0]), capacity, fmt[i + 2..], args[1..]) else st
  }

  // ----------------------------------------------------------------- restoring

  /** What a stored argument inserts, and its width as the reader computes it, in a byte.
      `None` where the reader would look past the end of the bytes. */
  datatype Piece = Piece(ops: seq<Op>, width: nat)

  function Chars(s: string): (r: seq<byte>)
    ensures |r| == |s|
  {
    seq(|s|, i requires 0 <= i < |s| => (s[i] as int) % 256)
  }

  function Single(op: Op, width: nat): Option<Piece> {
    Some(Piece([op], width % 256))
  }

  function RestoreInteger(bytes: seq<byte>, width: nat, signed: bool): Option<Piece>
    requires width > 0
  {
    if |bytes| <= width then None
    else
      var value := bytes[1..1 + width];
      Single(PutInteger(if signed then DecodeSigned(value) else DecodeUnsigned(value)), width + 1)
  }

  function RestoreString(bytes: seq<byte>): Option<Piece>
    requires |bytes| >= 2
  {
    var length: nat := bytes[1];
    if |bytes| < 2 + length then None else Single(PutString(bytes[2..2 + length]), (1 + length) % 256 + 1)
  }

  function RestoreReference(bytes: seq<byte>, table: Option<Table>): Option<Piece>
    requires |bytes| >= 2
  {
    if |bytes| < 5 then None
    else
      var index := DecodeUnsigned(bytes[1..5]);
      if table.None? then Single(PutString(Chars("[[Use STRING_REF but string table is not set]]")), 5)
      else if index < |table.value| then Single(PutString(table.value[index]), 5)
      else Some(Piece([PutString(Chars("[[Invalid string index: ")), PutInteger(index), PutString(Chars("]]"))], 5))
  }

  /** write_argument. */
  function RestoreArgument(bytes: seq<byte>, table: Option<Table>): Option<Piece>
    decreases |bytes|, COUNT_SPAN
  {
    if bytes == [] then None
    else if bytes[0] == 0 || bytes[0] > CODE_STRING_REF then Some(Piece([], 1))
    else if |bytes| < 2 then None
    else if bytes[0] == 1 then Single(PutString(Chars(if bytes[1] != 0 then "true" else "false")), 2)
    else if bytes[0] == CODE_CHAR then Single(PutString([bytes[1]]), 2)
    else if bytes[0] == CODE_STRING then RestoreString(bytes)
    else if bytes[0] == CODE_STRING_REF then RestoreReference(bytes, table)
    else if bytes[0] == CODE_COMPOSED then
      if |bytes| < COMPOSED_HEADER_LEN then None
      else
        CountBounded(bytes[1..3]);
        var members := RestoreMembers(bytes, table, DecodeUnsigned(bytes[1..3]), 2);
        if members.None? then None else Some(Piece(members.value.ops, (members.value.width + 1) % 256))
    else RestoreInteger(bytes, IntegerWidth(bytes[0]), bytes[0] % 2 == 0)
  }

  function IntegerWidth(code: byte): (w: nat)
    ensures WidthOk(w)
  {
    if code <= 5 then 1 else if code <= 7 then 2 else if code <= 9 then 4 else 8
  }

  lemma CountBounded(s: seq<byte>)
    requires |s| == 2
    ensures DecodeUnsigned(s) < COUNT_SPAN
  {
    assert DecodeUnsigned(s) == s[0] + 256 * DecodeUnsigned(s[1..]);
    assert DecodeUnsigned(s[1..]) == s[1] + 256 * DecodeUnsigned(s[1..][1..]);
  }

  /** `num` members of a composed argument, the first at `1 + width`. */
  function RestoreMembers(bytes: seq<byte>, table: Option<Table>, num: nat, width: nat): Option<Piece>
    requires num < COUNT_SPAN
    decreases |bytes|, num
  {
    if num == 0 then Some(Piece([], width))
    else if 1 + width > |bytes| then None
    else
      var first := RestoreArgument(bytes[1 + width..], table);
      if first.None? then None
      else
        var rest := RestoreMembers(bytes, table, num - 1, (width + first.value.width) % 256);
        if rest.None? then None else Some(Piece(first.value.ops + rest.value.ops, rest.value.width))
  }

  /** All stored arguments. */
  function RestoreAll(bytes: seq<byte>, table: Option<Table>): Option<seq<seq<Op>>>
    decreases |bytes|
  {
    if bytes == [] then Some([])
    else
      var arg := RestoreArgument(bytes, table);
      if arg.None? || arg.value.width == 0 || arg.value.width > |bytes| then None
      else
        var rest := RestoreAll(bytes[arg.value.width..], table);
        if rest.None? then None else Some([arg.value.ops] + rest.value)
  }

  /** write_binary; `None` where it would read past the end of the arguments. */
  function WriteBinary(text: seq<byte>, max: nat, fmt: seq<byte>, bytes: seq<byte>, table: Option<Table>): Option<seq<byte>>
    decreases |fmt|
  {
    if bytes == [] then Some(Put(text, max, fmt))
    else
      var i := Placeholder(fmt, 0);
      var t := Put(text, max, fmt[..i]);
      if i == |fmt| then Some(t)
      else
        var arg := RestoreArgument(bytes, table);
        if arg.None? || arg.value.width > |bytes| then None
        else WriteBinary(InsertAll(t, max, arg.value.ops), max, fmt[i + 2..], bytes[arg.value.width..], table)
  }
}
