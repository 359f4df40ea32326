/** Deferred formatting gives the same text as direct formatting. */
module Deferred {
  import opened Wire
  import opened Formatting

  // ------------------------------------------------------------ stored pieces

  /** The table knows the strings of referring pieces. */
  predicate Known(a: Atom, table: Option<Table>) {
    !Referred(a, table) || a.s in table.value
  }

  /** Strings stored in place have a width that fits in a byte. */
  predicate StringOk(a: Atom, hasTable: bool) {
    a.StringAtom? && |a.s| > 1 && !(a.inTable && hasTable) ==> |a.s| <= MAX_STRING
  }

  predicate Stored(a: Atom, table: Option<Table>) {
    AtomOk(a) && !Silent(a) && Known(a, table) && StringOk(a, table.Some?)
  }

  predicate AllStored(kept: seq<Atom>, table: Option<Table>) {
    forall i | 0 <= i < |kept| :: Stored(kept[i], table)
  }

  predicate Indexable(table: Option<Table>) {
    table.Some? ==> |table.value| <= Span(4)
  }

  function EncodeAll(kept: seq<Atom>, table: Option<Table>): (e: seq<byte>)
    requires AllStored(kept, table)
    ensures |e| >= 2 * |kept|
  {
    if kept == [] then [] else Encode(kept[0], table) + EncodeAll(kept[1..], table)
  }

  lemma IntegerRestores(n: int, width: nat, signed: bool, rest: seq<byte>, table: Option<Table>)
    requires WidthOk(width) && FitsType(n, width, signed)
    ensures RestoreArgument([TypeCode(width, signed)] + EncodeInt(n, width) + rest, table) == Some(Piece([PutInteger(n)], 1 + width))
  {
    var bytes := [TypeCode(width, signed)] + EncodeInt(n, width) + rest;
    assert bytes[1..1 + width] == EncodeInt(n, width);
    if signed {
      SignedRoundTrip(n, width);
    } else {
      UnsignedRoundTrip(n, width);
    }
  }

  lemma ReferenceRestores(s: seq<byte>, table: Table, rest: seq<byte>)
    requires s in table && |table| <= Span(4)
    ensures RestoreArgument([CODE_STRING_REF] + EncodeInt(IndexOf(table, s), 4) + rest, Some(table)) == Some(Piece([PutString(s)], 5))
  {
    var bytes := [CODE_STRING_REF] + EncodeInt(IndexOf(table, s), 4) + rest;
    assert bytes[1..5] == EncodeInt(IndexOf(table, s), 4);
    UnsignedRoundTrip(IndexOf(table, s), 4);
  }

  lemma StringRestores(s: seq<byte>, rest: seq<byte>, table: Option<Table>)
    requires |s| <= MAX_STRING
    ensures RestoreArgument([CODE_STRING, |s|] + s + rest, table) == Some(Piece([PutString(s)], |s| + 2))
  {
    assert ([CODE_STRING, |s|] + s + rest)[2..2 + |s|] == s;
  }

  /** A stored piece is read back as the insertion it stands for, whatever follows it. */
  lemma PieceRestores(a: Atom, table: Option<Table>, rest: seq<byte>)
    requires Stored(a, table) && Indexable(table)
    ensures RestoreArgument(Encode(a, table) + rest, table) == Some(Piece([AtomOp(a)], |Encode(a, table)|))
    ensures |Encode(a, table)| <= MAX_ARGUMENT
  {
    hide EncodeInt, IndexOf, FitsType, TypeCode;
    match a
    case CharAtom(ch) =>
    case StringAtom(s, inTable) =>
      if |s| == 1 {
        assert [s[0]] == s;
      } else if inTable && table.Some? {
        ReferenceRestores(s, table.value, rest);
      } else {
        StringRestores(s, rest, table);
      }
    case IntAtom(n, width, signed) =>
      IntegerRestores(n, NarrowWidth(n, width, signed), signed, rest, table);
  }

  lemma EncodeAllCons(kept: seq<Atom>, table: Option<Table>)
    requires AllStored(kept, table) && kept != []
    ensures EncodeAll(kept, table) == Encode(kept[0], table) + EncodeAll(kept[1..], table)
    ensures |kept| == 1 ==> EncodeAll(kept, table) == Encode(kept[0], table)
  {
    if |kept| == 1 {
      assert EncodeAll(kept[1..], table) == [];
      assert Encode(kept[0], table) + [] == Encode(kept[0], table);
    }
  }

  /** One member is read and its width added up. */
  lemma MemberRestores(first: Piece, bytes: seq<byte>, table: Option<Table>, num: nat, width: nat, rest: Piece)
    requires 0 < num < COUNT_SPAN && 1 + width <= |bytes| && width + first.width < 256
    requires RestoreArgument(bytes[1 + width..], table) == Some(first)
    requires RestoreMembers(bytes, table, num - 1, width + first.width) == Some(rest)
    ensures RestoreMembers(bytes, table, num, width) == Some(Piece(first.ops + rest.ops, rest.width))
  {
  }

  lemma {:induction false} MembersRestore(kept: seq<Atom>, table: Option<Table>, head: seq<byte>, rest: seq<byte>, width: nat)
    requires AllStored(kept, table) && Indexable(table) && |kept| < COUNT_SPAN
    requires |head| == 1 + width && width + |EncodeAll(kept, table)| < MAX_ARGUMENT
    ensures RestoreMembers(head + EncodeAll(kept, table) + rest, table, |kept|, width)
         == Some(Piece(Ops(kept), width + |EncodeAll(kept, table)|))
    decreases |kept|
  {
    hide RestoreArgument, Encode, AtomOp;
    if kept != [] {
      assert Ops(kept) == [AtomOp(kept[0])] + Ops(kept[1..]);
      hide Ops, EncodeAll, RestoreMembers;
      var e, tail := Encode(kept[0], table), EncodeAll(kept[1..], table);
      var bytes := head + EncodeAll(kept, table) + rest;
      EncodeAllCons(kept, table);
      assert bytes[1 + width..] == e + (tail + rest);
      PieceRestores(kept[0], table, tail + rest);
      assert bytes == (head + e) + tail + rest;
      MembersRestore(kept[1..], table, head + e, rest, width + |e|);
      MemberRestores(Piece([AtomOp(kept[0])], |e|), bytes, table, |kept|, width, Piece(Ops(kept[1..]), width + |e| + |tail|));
    }
  }

  function PackedKept(kept: seq<Atom>, table: Option<Table>): (p: seq<byte>)
    requires AllStored(kept, table)
    ensures kept != [] ==> p != []
  {
    Packed(Gather(EncodeAll(kept, table), kept, table))
  }

  /** A stored argument is read back as its pieces. */
  lemma ArgumentRestores(kept: seq<Atom>, table: Option<Table>, rest: seq<byte>)
    requires AllStored(kept, table) && Indexable(table) && kept != []
    requires |PackedKept(kept, table)| <= MAX_ARGUMENT
    ensures RestoreArgument(PackedKept(kept, table) + rest, table) == Some(Piece(Ops(kept), |PackedKept(kept, table)|))
  {
    var e := EncodeAll(kept, table);
    if |kept| == 1 {
      EncodeAllCons(kept, table);
      PieceRestores(kept[0], table, rest);
      assert Ops(kept) == [AtomOp(kept[0])] + Ops(kept[1..]) == [AtomOp(kept[0])];
      assert PackedKept(kept, table) == Encode(kept[0], table);
    } else {
      ComposedRestores(kept, table, rest);
    }
  }

  lemma ComposedRestores(kept: seq<Atom>, table: Option<Table>, rest: seq<byte>)
    requires AllStored(kept, table) && Indexable(table) && |kept| > 1
    requires |PackedKept(kept, table)| <= MAX_ARGUMENT
    ensures RestoreArgument(PackedKept(kept, table) + rest, table) == Some(Piece(Ops(kept), |PackedKept(kept, table)|))
  {
    hide RestoreMembers, EncodeAll;
    var e, head := EncodeAll(kept, table), [CODE_COMPOSED] + EncodeInt(|kept|, 2);
    var bytes := head + e + rest;
    assert bytes[1..3] == EncodeInt(|kept|, 2);
    SpanValues();
    UnsignedRoundTrip(|kept|, 2);
    MembersRestore(kept, table, head, rest, 2);
  }

  // ---------------------------------------------------------- stored arguments

  predicate ArgumentStored(kept: seq<Atom>, table: Option<Table>) {
    AllStored(kept, table) && kept != [] && |PackedKept(kept, table)| <= MAX_ARGUMENT
  }

  predicate AllArgumentsStored(args: seq<seq<Atom>>, table: Option<Table>) {
    forall i | 0 <= i < |args| :: ArgumentStored(args[i], table)
  }

  function PackAll(args: seq<seq<Atom>>, table: Option<Table>): seq<byte>
    requires AllArgumentsStored(args, table)
  {
    if args == [] then [] else PackedKept(args[0], table) + PackAll(args[1..], table)
  }

  /** What decodes back is exactly what was kept, in order. */
  lemma {:induction false} StoredArgumentsRestore(args: seq<seq<Atom>>, table: Option<Table>)
    requires AllArgumentsStored(args, table) && Indexable(table)
    ensures RestoreAll(PackAll(args, table), table) == Some(Groups(args))
    decreases |args|
  {
    if args != [] {
      var p, tail := PackedKept(args[0], table), PackAll(args[1..], table);
      ArgumentRestores(args[0], table, tail);
      assert (p + tail)[|p|..] == tail;
      StoredArgumentsRestore(args[1..], table);
    }
  }

  /** Rendering the stored arguments is rendering what was kept of them. */
  lemma {:induction false} WriteBinaryRenders(text: seq<byte>, max: nat, fmt: seq<byte>, args: seq<seq<Atom>>, table: Option<Table>)
    requires AllArgumentsStored(args, table) && Indexable(table)
    ensures WriteBinary(text, max, fmt, PackAll(args, table), table) == Some(Render(text, max, fmt, Groups(args)))
    decreases |args|
  {
    if args != [] {
      var p, tail := PackedKept(args[0], table), PackAll(args[1..], table);
      var i := Placeholder(fmt, 0);
      var t := Put(text, max, fmt[..i]);
      if i < |fmt| {
        ArgumentRestores(args[0], table, tail);
        assert (p + tail)[|p|..] == tail;
        WriteBinaryRenders(InsertAll(t, max, Ops(args[0])), max, fmt[i + 2..], args[1..], table);
        assert Groups(args)[1..] == Groups(args[1..]);
      }
    }
  }

  // ------------------------------------------------------------- what is kept

  /** A table that has only grown. */
  predicate Grown(table: Option<Table>, table': Option<Table>) {
    table.Some? == table'.Some? && (table.Some? ==> table.value <= table'.value)
  }

  lemma {:induction false} IndexIsStable(table: Table, table': Table, s: seq<byte>)
    requires table <= table' && s in table
    ensures IndexOf(table', s) == IndexOf(table, s)
    decreases |table|
  {
    if table[0] != s {
      assert table[1..] <= table'[1..];
      assert s in table[1..];
      IndexIsStable(table[1..], table'[1..], s);
    }
  }

  lemma StoredIsStable(a: Atom, table: Option<Table>, table': Option<Table>)
    requires Stored(a, table) && Grown(table, table')
    ensures Stored(a, table') && Encode(a, table') == Encode(a, table)
  {
    if Referred(a, table) {
      IndexIsStable(table.value, table'.value, a.s);
    }
  }

  lemma {:induction false} AllStoredIsStable(kept: seq<Atom>, table: Option<Table>, table': Option<Table>)
    requires AllStored(kept, table) && Grown(table, table')
    ensures AllStored(kept, table') && EncodeAll(kept, table') == EncodeAll(kept, table)
    decreases |kept|
  {
    forall i | 0 <= i < |kept|
      ensures Stored(kept[i], table')
    {
      StoredIsStable(kept[i], table, table');
    }
    if kept != [] {
      StoredIsStable(kept[0], table, table');
      AllStoredIsStable(kept[1..], table, table');
    }
  }

  lemma {:induction false} EncodeAllAppend(kept: seq<Atom>, a: Atom, table: Option<Table>)
    requires AllStored(kept, table) && Stored(a, table)
    ensures EncodeAll(kept + [a], table) == EncodeAll(kept, table) + Encode(a, table)
    decreases |kept|
  {
    if kept == [] {
      EncodeAllCons([a], table);
    } else {
      assert (kept + [a])[1..] == kept[1..] + [a];
      EncodeAllAppend(kept[1..], a, table);
    }
  }

  /** The bytes gathered are the encodings of the pieces kept. */
  predicate Consistent(g: Gather) {
    AllStored(g.kept, g.table) && g.bytes == EncodeAll(g.kept, g.table)
  }

  predicate StringsOk(atoms: seq<Atom>, hasTable: bool) {
    forall i | 0 <= i < |atoms| :: StringOk(atoms[i], hasTable)
  }

  lemma NewIsStored(a: Atom, table: Option<Table>)
    requires AtomOk(a) && !Silent(a) && StringOk(a, table.Some?)
    ensures Stored(a, TableAfter(a, table)) && Encode(a, TableAfter(a, table)) == Encode(a, table)
  {
    if Referred(a, table) && a.s !in table.value {
      NewIndex(table.value, a.s);
    }
  }

  lemma {:induction false} NewIndex(table: Table, s: seq<byte>)
    requires s !in table
    ensures IndexOf(table + [s], s) == |table|
  {
    if table != [] {
      assert (table + [s])[1..] == table[1..] + [s];
      NewIndex(table[1..], s);
    }
  }

  lemma AddAtomConsistent(g: Gather, used: nat, capacity: nat, a: Atom)
    requires Consistent(g) && AtomOk(a)
    requires StringsOk(AddAtom(g, used, capacity, a).kept, g.table.Some?)
    ensures var g' := AddAtom(g, used, capacity, a); Consistent(g') && Grown(g.table, g'.table)
  {
    if !Silent(a) && used + |g.bytes| + |Encode(a, g.table)| <= capacity {
      var table' := TableAfter(a, g.table);
      assert AddAtom(g, used, capacity, a).kept[|g.kept|] == a;
      NewIsStored(a, g.table);
      AllStoredIsStable(g.kept, g.table, table');
      EncodeAllAppend(g.kept, a, table');
    }
  }

  lemma {:induction false} KeptOnlyGrows(g: Gather, used: nat, capacity: nat, atoms: seq<Atom>)
    requires AtomsOk(atoms)
    ensures g.kept <= AddAtoms(g, used, capacity, atoms).kept
    decreases |atoms|
  {
    if atoms != [] {
      KeptOnlyGrows(AddAtom(g, used, capacity, atoms[0]), used, capacity, atoms[1..]);
    }
  }

  lemma {:induction false} AddAtomsConsistent(g: Gather, used: nat, capacity: nat, atoms: seq<Atom>)
    requires Consistent(g) && AtomsOk(atoms)
    requires StringsOk(AddAtoms(g, used, capacity, atoms).kept, g.table.Some?)
    ensures var g' := AddAtoms(g, used, capacity, atoms); Consistent(g') && Grown(g.table, g'.table)
    decreases |atoms|
  {
    hide Consistent, Encode;
    if atoms != [] {
      var g1 := AddAtom(g, used, capacity, atoms[0]);
      KeptOnlyGrows(g1, used, capacity, atoms[1..]);
      AddAtomConsistent(g, used, capacity, atoms[0]);
      AddAtomsConsistent(g1, used, capacity, atoms[1..]);
    }
  }

  /** Every stored argument is short enough for its width. */
  predicate StoreOk(st: Store) {
    AllArgumentsStored(st.kept, st.table) && st.bytes == PackAll(st.kept, st.table)
  }

  lemma {:induction false} PackAllIsStable(args: seq<seq<Atom>>, table: Option<Table>, table': Option<Table>)
    requires AllArgumentsStored(args, table) && Grown(table, table')
    ensures AllArgumentsStored(args, table') && PackAll(args, table') == PackAll(args, table)
    decreases |args|
  {
    forall i | 0 <= i < |args|
      ensures ArgumentStored(args[i], table')
    {
      assert ArgumentStored(args[i], table);
      AllStoredIsStable(args[i], table, table');
    }
    if args != [] {
      assert ArgumentStored(args[0], table);
      AllStoredIsStable(args[0], table, table');
      PackAllIsStable(args[1..], table, table');
    }
  }

  lemma {:induction false} PackAllAppend(args: seq<seq<Atom>>, kept: seq<Atom>, table: Option<Table>)
    requires AllArgumentsStored(args, table) && ArgumentStored(kept, table)
    ensures PackAll(args + [kept], table) == PackAll(args, table) + PackedKept(kept, table)
    decreases |args|
  {
    hide PackedKept;
    if args == [] {
      assert [kept][1..] == [] && PackAll([kept], table) == PackedKept(kept, table) + [];
    } else {
      assert (args + [kept])[1..] == args[1..] + [kept];
      PackAllAppend(args[1..], kept, table);
    }
  }

  /** The encoded size of a piece does not depend on what the table holds. */
  function PieceSize(a: Atom, hasTable: bool): (n: nat)
    requires AtomOk(a)
    ensures n == 0 <==> Silent(a)
  {
    match a
    case CharAtom(_) => 2
    case StringAtom(s, inTable) => if s == [] then 0 else if |s| == 1 then 2 else if inTable && hasTable then 5 else |s| + 2
    case IntAtom(n, width, signed) => 1 + NarrowWidth(n, width, signed)
  }

  lemma SizeOfEncoding(a: Atom, table: Option<Table>)
    requires AtomOk(a) && !Silent(a)
    ensures |Encode(a, table)| == PieceSize(a, table.Some?)
  {
  }

  function PiecesSize(atoms: seq<Atom>, hasTable: bool): nat
    requires AtomsOk(atoms)
  {
    if atoms == [] then 0 else PieceSize(atoms[0], hasTable) + PiecesSize(atoms[1..], hasTable)
  }

  /** The pieces that store something. */
  function Loud(atoms: seq<Atom>): (r: seq<Atom>)
    ensures |r| <= |atoms|
  {
    if atoms == [] then [] else (if Silent(atoms[0]) then [] else [atoms[0]]) + Loud(atoms[1..])
  }

  lemma {:induction false} AddAtomsSize(g: Gather, used: nat, capacity: nat, atoms: seq<Atom>)
    requires AtomsOk(atoms)
    ensures var g' := AddAtoms(g, used, capacity, atoms);
            && |g.bytes| <= |g'.bytes| <= |g.bytes| + PiecesSize(atoms, g.table.Some?)
            && (used + |g.bytes| <= capacity ==> used + |g'.bytes| <= capacity)
            && (g'.bytes != g.bytes ==> used + |g'.bytes| <= capacity)
            && |g'.bytes| - |g.bytes| >= 2 * (|g'.kept| - |g.kept|)
            && 0 <= |g'.kept| - |g.kept| <= |Loud(atoms)|
    decreases |atoms|
  {
    if atoms != [] {
      if !Silent(atoms[0]) {
        SizeOfEncoding(atoms[0], g.table);
      }
      AddAtomsSize(AddAtom(g, used, capacity, atoms[0]), used, capacity, atoms[1..]);
    }
  }

  function StoredSize(atoms: seq<Atom>, hasTable: bool): nat
    requires AtomsOk(atoms)
  {
    PiecesSize(atoms, hasTable) + if |Loud(atoms)| > 1 then COMPOSED_HEADER_LEN else 0
  }

  /** The limits under which what is stored of an argument can be told apart again. */
  predicate GatherLimited(g: Gather) {
    StringsOk(g.kept, g.table.Some?) && |Packed(g)| <= MAX_ARGUMENT
  }

  lemma StoreArgumentOk(st: Store, capacity: nat, atoms: seq<Atom>)
    requires StoreOk(st) && AtomsOk(atoms) && GatherLimited(Gathered(st, capacity, atoms))
    ensures var st' := StoreArgument(st, capacity, atoms); StoreOk(st') && Grown(st.table, st'.table)
  {
    var g0, g := Gather([], [], st.table), Gathered(st, capacity, atoms);
    TableStays(g0, |st.bytes| + COMPOSED_HEADER_LEN, capacity, atoms);
    AddAtomsConsistent(g0, |st.bytes| + COMPOSED_HEADER_LEN, capacity, atoms);
    PackAllIsStable(st.kept, st.table, g.table);
    if g.kept != [] {
      assert g == Gather(EncodeAll(g.kept, g.table), g.kept, g.table);
      PackAllAppend(st.kept, g.kept, g.table);
    }
  }

  lemma {:induction false} TableStays(g: Gather, used: nat, capacity: nat, atoms: seq<Atom>)
    requires AtomsOk(atoms)
    ensures AddAtoms(g, used, capacity, atoms).table.Some? == g.table.Some?
    decreases |atoms|
  {
    if atoms != [] {
      TableStays(AddAtom(g, used, capacity, atoms[0]), used, capacity, atoms[1..]);
    }
  }

  /** The limits hold for what is stored of every argument a placeholder takes. */
  predicate StoreLimited(st: Store, capacity: nat, fmt: seq<byte>, args: seq<seq<Atom>>)
    requires ArgumentsOk(args)
    decreases |args|
  {
    if args == [] then true
    else
      var i := Placeholder(fmt, 0);
      i < |fmt| ==>
        && GatherLimited(Gathered(st, capacity, args[0]))
        && StoreLimited(StoreArgument(st, capacity, args[0]), capacity, fmt[i + 2..], args[1..])
  }

  lemma {:induction false} StoreWriteOk(st: Store, capacity: nat, fmt: seq<byte>, args: seq<seq<Atom>>)
    requires ArgumentsOk(args) && StoreOk(st) && StoreLimited(st, capacity, fmt, args)
    ensures var st' := StoreWrite(st, capacity, fmt, args); StoreOk(st') && Grown(st.table, st'.table)
    decreases |args|
  {
    hide StoreArgument, GatherLimited, StoreOk;
    if args != [] {
      var i := Placeholder(fmt, 0);
      if i < |fmt| {
        StoreArgumentOk(st, capacity, args[0]);
        StoreWriteOk(StoreArgument(st, capacity, args[0]), capacity, fmt[i + 2..], args[1..]);
      }
    }
  }

  /** For every capacity: what is read back from the store is what fitted, piece by piece, in
      order. */
  lemma WhatFittedIsRestored(capacity: nat, fmt: seq<byte>, args: seq<seq<Atom>>, table: Option<Table>)
    requires ArgumentsOk(args) && StoreLimited(Store([], [], table), capacity, fmt, args)
    requires Indexable(StoreWrite(Store([], [], table), capacity, fmt, args).table)
    ensures var st := StoreWrite(Store([], [], table), capacity, fmt, args);
            RestoreAll(st.bytes, st.table) == Some(Groups(st.kept))
  {
    var st := StoreWrite(Store([], [], table), capacity, fmt, args);
    StoreWriteOk(Store([], [], table), capacity, fmt, args);
    StoredArgumentsRestore(st.kept, st.table);
  }

  /** The store never grows beyond its buffer, although room for a header is reserved unchecked. */
  lemma {:induction false} StoreStaysInBuffer(st: Store, capacity: nat, fmt: seq<byte>, args: seq<seq<Atom>>)
    requires ArgumentsOk(args) && |st.bytes| <= capacity
    ensures |StoreWrite(st, capacity, fmt, args).bytes| <= capacity
    decreases |args|
  {
    if args != [] {
      var i := Placeholder(fmt, 0);
      if i < |fmt| {
        AddAtomsSize(Gather([], [], st.table), |st.bytes| + COMPOSED_HEADER_LEN, capacity, args[0]);
        StoreStaysInBuffer(StoreArgument(st, capacity, args[0]), capacity, fmt[i + 2..], args[1..]);
      }
    }
  }

  // -------------------------------------------------------- deferred is direct

  /** Every argument a placeholder takes keeps the limits and fits. */
  predicate Deferrable(used: nat, capacity: nat, fmt: seq<byte>, args: seq<seq<Atom>>, hasTable: bool)
    requires ArgumentsOk(args)
    decreases |args|
  {
    if args == [] then true
    else
      var i := Placeholder(fmt, 0);
      i < |fmt| ==>
        && StringsOk(args[0], hasTable) && StoredSize(args[0], hasTable) <= MAX_ARGUMENT
        && used + COMPOSED_HEADER_LEN + PiecesSize(args[0], hasTable) <= capacity
        && Deferrable(used + StoredSize(args[0], hasTable), capacity, fmt[i + 2..], args[1..], hasTable)
  }

  /** What the placeholders take. */
  function Taken(fmt: seq<byte>, args: seq<seq<Atom>>): seq<seq<Atom>>
    decreases |args|
  {
    if args == [] then []
    else
      var i := Placeholder(fmt, 0);
      if i < |fmt| then [Loud(args[0])] + Taken(fmt[i + 2..], args[1..]) else []
  }

  /** What is left when arguments that render nothing are dropped, and how many those are. */
  function Speaking(args: seq<seq<Atom>>): (r: seq<seq<Atom>>)
    ensures |r| <= |args|
  {
    if args == [] then [] else (if args[0] == [] then [] else [args[0]]) + Speaking(args[1..])
  }

  function SilentCount(fmt: seq<byte>, args: seq<seq<Atom>>): nat {
    |Taken(fmt, args)| - |Speaking(Taken(fmt, args))|
  }

  lemma {:induction false} AllFits(g: Gather, used: nat, capacity: nat, atoms: seq<Atom>)
    requires AtomsOk(atoms) && used + |g.bytes| + PiecesSize(atoms, g.table.Some?) <= capacity
    ensures var g' := AddAtoms(g, used, capacity, atoms);
            g'.kept == g.kept + Loud(atoms) && |g'.bytes| == |g.bytes| + PiecesSize(atoms, g.table.Some?)
    decreases |atoms|
  {
    hide Encode, PieceSize, TableAfter;
    if atoms != [] {
      if !Silent(atoms[0]) {
        SizeOfEncoding(atoms[0], g.table);
        assert g.kept + [atoms[0]] + Loud(atoms[1..]) == g.kept + Loud(atoms);
      } else {
        assert Loud(atoms) == Loud(atoms[1..]);
      }
      AllFits(AddAtom(g, used, capacity, atoms[0]), used, capacity, atoms[1..]);
    }
  }

  lemma {:induction false} SilentHasNoSize(atoms: seq<Atom>, hasTable: bool)
    requires AtomsOk(atoms) && Loud(atoms) == []
    ensures PiecesSize(atoms, hasTable) == 0
    decreases |atoms|
  {
    if atoms != [] {
      SilentHasNoSize(atoms[1..], hasTable);
    }
  }

  lemma {:induction false} LoudStringsOk(atoms: seq<Atom>, hasTable: bool)
    requires StringsOk(atoms, hasTable)
    ensures StringsOk(Loud(atoms), hasTable)
    decreases |atoms|
  {
    if atoms != [] {
      LoudStringsOk(atoms[1..], hasTable);
    }
  }

  lemma ArgumentFits(st: Store, capacity: nat, atoms: seq<Atom>)
    requires AtomsOk(atoms) && StringsOk(atoms, st.table.Some?) && StoredSize(atoms, st.table.Some?) <= MAX_ARGUMENT
    requires |st.bytes| + COMPOSED_HEADER_LEN + PiecesSize(atoms, st.table.Some?) <= capacity
    ensures GatherLimited(Gathered(st, capacity, atoms))
    ensures var st' := StoreArgument(st, capacity, atoms);
            && st'.kept == st.kept + (if Loud(atoms) == [] then [] else [Loud(atoms)])
            && st'.table.Some? == st.table.Some?
            && |st'.bytes| == |st.bytes| + StoredSize(atoms, st.table.Some?)
  {
    var g := Gather([], [], st.table);
    AllFits(g, |st.bytes| + COMPOSED_HEADER_LEN, capacity, atoms);
    TableStays(g, |st.bytes| + COMPOSED_HEADER_LEN, capacity, atoms);
    LoudStringsOk(atoms, st.table.Some?);
    assert [] + Loud(atoms) == Loud(atoms);
    if Loud(atoms) == [] {
      SilentHasNoSize(atoms, st.table.Some?);
      assert st.kept + [] == st.kept;
    }
  }

  /** When everything fits, everything that renders something is kept. */
  lemma {:induction false} EverythingIsKept(st: Store, capacity: nat, fmt: seq<byte>, args: seq<seq<Atom>>)
    requires ArgumentsOk(args) && Deferrable(|st.bytes|, capacity, fmt, args, st.table.Some?)
    ensures StoreLimited(st, capacity, fmt, args)
    ensures StoreWrite(st, capacity, fmt, args).kept == st.kept + Speaking(Taken(fmt, args))
    decreases |args|
  {
    hide StringsOk, StoreArgument, StoredSize, PiecesSize, Loud, GatherLimited, Gathered;
    if args == [] {
      assert st.kept + [] == st.kept;
    } else {
      var i := Placeholder(fmt, 0);
      if i < |fmt| {
        ArgumentFits(st, capacity, args[0]);
        var st' := StoreArgument(st, capacity, args[0]);
        EverythingIsKept(st', capacity, fmt[i + 2..], args[1..]);
        SpeakingCons(Loud(args[0]), Taken(fmt[i + 2..], args[1..]));
        var first := if Loud(args[0]) == [] then [] else [Loud(args[0])];
        assert st.kept + first + Speaking(Taken(fmt[i + 2..], args[1..])) == st.kept + Speaking(Taken(fmt, args));
      } else {
        assert st.kept + [] == st.kept;
      }
    }
  }

  lemma SpeakingCons(first: seq<Atom>, rest: seq<seq<Atom>>)
    ensures Speaking([first] + rest) == (if first == [] then [] else [first]) + Speaking(rest)
  {
    assert ([first] + rest)[1..] == rest;
  }

  lemma {:induction false} LoudRenders(text: seq<byte>, max: nat, atoms: seq<Atom>)
    ensures InsertAll(text, max, Ops(Loud(atoms))) == InsertAll(text, max, Ops(atoms))
    decreases |atoms|
  {
    if atoms != [] {
      var op := AtomOp(atoms[0]);
      if Silent(atoms[0]) {
        assert text + [] == text;
        assert [] + Loud(atoms[1..]) == Loud(atoms[1..]);
      } else {
        assert Loud(atoms)[1..] == Loud(atoms[1..]);
        assert Ops(Loud(atoms))[1..] == Ops(Loud(atoms[1..]));
      }
      assert Ops(atoms)[1..] == Ops(atoms[1..]);
      LoudRenders(Insert(text, max, op), max, atoms[1..]);
    }
  }

  lemma {:induction false} TakenRenders(text: seq<byte>, max: nat, fmt: seq<byte>, args: seq<seq<Atom>>)
    ensures Render(text, max, fmt, Groups(Taken(fmt, args))) == Render(text, max, fmt, Groups(args))
    decreases |args|
  {
    if args != [] {
      var i := Placeholder(fmt, 0);
      var t := Put(text, max, fmt[..i]);
      if i < |fmt| {
        var rest := Taken(fmt[i + 2..], args[1..]);
        assert Taken(fmt, args)[1..] == rest;
        assert Groups(Taken(fmt, args))[1..] == Groups(rest) && Groups(args)[1..] == Groups(args[1..]);
        LoudRenders(t, max, args[0]);
        TakenRenders(InsertAll(t, max, Ops(args[0])), max, fmt[i + 2..], args[1..]);
      } else {
        assert fmt[..i] == fmt;
      }
    }
  }

  /** The same text, for every format string, every mismatch between placeholders and arguments, and
      every room in the text writer, when every argument a placeholder takes renders something. */
  lemma DeferredEqualsDirect(text: seq<byte>, max: nat, fmt: seq<byte>, args: seq<seq<Atom>>, capacity: nat, table: Option<Table>)
    requires ArgumentsOk(args) && Deferrable(0, capacity, fmt, args, table.Some?) && SilentCount(fmt, args) == 0
    requires Indexable(StoreWrite(Store([], [], table), capacity, fmt, args).table)
    ensures var st := StoreWrite(Store([], [], table), capacity, fmt, args);
            WriteBinary(text, max, fmt, st.bytes, st.table) == Some(WriteText(text, max, fmt, args))
  {
    DeferredText(text, max, fmt, args, capacity, table);
    AllSpeak(Taken(fmt, args));
    TakenRenders(text, max, fmt, args);
  }

  /** The deferred text is that of the arguments that render something. */
  lemma DeferredText(text: seq<byte>, max: nat, fmt: seq<byte>, args: seq<seq<Atom>>, capacity: nat, table: Option<Table>)
    requires ArgumentsOk(args) && Deferrable(0, capacity, fmt, args, table.Some?)
    requires Indexable(StoreWrite(Store([], [], table), capacity, fmt, args).table)
    ensures var st := StoreWrite(Store([], [], table), capacity, fmt, args);
            WriteBinary(text, max, fmt, st.bytes, st.table) == Some(Render(text, max, fmt, Groups(Speaking(Taken(fmt, args)))))
  {
    var st := StoreWrite(Store([], [], table), capacity, fmt, args);
    EverythingIsKept(Store([], [], table), capacity, fmt, args);
    StoreWriteOk(Store([], [], table), capacity, fmt, args);
    assert [] + Speaking(Taken(fmt, args)) == Speaking(Taken(fmt, args));
    WriteBinaryRenders(text, max, fmt, st.kept, st.table);
  }

  lemma {:induction false} AllSpeak(args: seq<seq<Atom>>)
    ensures |Speaking(args)| == |args| <==> Speaking(args) == args
    ensures |Speaking(args)| <= |args|
  {
    if args != [] {
      AllSpeak(args[1..]);
      if Speaking(args[1..]) == args[1..] && args[0] != [] {
        assert [args[0]] + args[1..] == args;
      }
    }
  }

  // ----------------------------------------------------- arguments of no length

  lemma {:induction false} TakenPlaces(fmt: seq<byte>, args: seq<seq<Atom>>)
    ensures |Taken(fmt, args)| <= Places(fmt)
    decreases |args|
  {
    if args != [] {
      var i := Placeholder(fmt, 0);
      if i < |fmt| {
        TakenPlaces(fmt[i + 2..], args[1..]);
      }
    }
  }

  lemma {:induction false} SpeakingLength(args: seq<seq<Atom>>)
    ensures GroupsLength(Groups(Speaking(args))) == GroupsLength(Groups(args))
  {
    if args != [] {
      SpeakingLength(args[1..]);
      assert Groups(args)[1..] == Groups(args[1..]);
      if args[0] != [] {
        assert Speaking(args)[1..] == Speaking(args[1..]);
        assert Groups(Speaking(args))[1..] == Groups(Speaking(args[1..]));
      } else {
        assert [] + Speaking(args[1..]) == Speaking(args[1..]);
      }
    }
  }

  /** The texts without limits of room: the direct one, and the deferred one. */
  function DirectFull(fmt: seq<byte>, args: seq<seq<Atom>>): seq<byte> {
    FullText(fmt, Groups(Taken(fmt, args)))
  }

  function DeferredFull(fmt: seq<byte>, args: seq<seq<Atom>>): seq<byte> {
    FullText(fmt, Groups(Speaking(Taken(fmt, args))))
  }

  /** Each argument that renders nothing leaves a placeholder in the deferred text. */
  lemma DeferredIsLonger(fmt: seq<byte>, args: seq<seq<Atom>>)
    ensures |DeferredFull(fmt, args)| == |DirectFull(fmt, args)| + 2 * SilentCount(fmt, args)
  {
    var taken := Taken(fmt, args);
    TakenPlaces(fmt, args);
    SpeakingLength(taken);
    FullTextLength(fmt, Groups(taken));
    FullTextLength(fmt, Groups(Speaking(taken)));
  }

  /** Within the limits and with room for both texts, they are equal exactly if every argument a
      placeholder takes renders something. */
  lemma EqualIffNoneIsSilent(text: seq<byte>, max: nat, fmt: seq<byte>, args: seq<seq<Atom>>, capacity: nat, table: Option<Table>)
    requires ArgumentsOk(args) && Deferrable(0, capacity, fmt, args, table.Some?)
    requires Indexable(StoreWrite(Store([], [], table), capacity, fmt, args).table)
    requires |text| + |DirectFull(fmt, args)| + 2 * SilentCount(fmt, args) <= max
    ensures var st := StoreWrite(Store([], [], table), capacity, fmt, args);
            var deferred := WriteBinary(text, max, fmt, st.bytes, st.table);
            && deferred.Some?
            && |deferred.value| == |WriteText(text, max, fmt, args)| + 2 * SilentCount(fmt, args)
            && (deferred.value == WriteText(text, max, fmt, args) <==> SilentCount(fmt, args) == 0)
  {
    var taken := Taken(fmt, args);
    DeferredText(text, max, fmt, args, capacity, table);
    DeferredIsLonger(fmt, args);
    RenderWithRoom(text, max, fmt, Groups(Speaking(taken)));
    RenderWithRoom(text, max, fmt, Groups(taken));
    TakenRenders(text, max, fmt, args);
    if SilentCount(fmt, args) == 0 {
      AllSpeak(taken);
    }
  }

  lemma InsertOne(text: seq<byte>, max: nat, op: Op)
    ensures InsertAll(text, max, [op]) == Insert(text, max, op)
  {
    assert [op][1..] == [];
  }

  const TWO_PLACES: seq<byte> := [OPEN, CLOSE, OPEN, CLOSE]
  const ONE_PLACE: seq<byte> := [OPEN, CLOSE]
  const NOTHING: seq<Atom> := [StringAtom([], false)]
  const LETTER: seq<Atom> := [CharAtom(97)]

  lemma ExamplePlaces()
    ensures Placeholder(TWO_PLACES, 0) == 0 && Placeholder(ONE_PLACE, 0) == 0
    ensures TWO_PLACES[2..] == ONE_PLACE && ONE_PLACE[2..] == [] && TWO_PLACES[..0] == [] && ONE_PLACE[..0] == []
  {
  }

  lemma DirectRendering()
    ensures WriteText([], 10, TWO_PLACES, [NOTHING, LETTER]) == [97]
  {
    ExamplePlaces();
    InsertOne([], 10, PutString([]));
    InsertOne([], 10, PutString([97]));
    assert Ops(NOTHING) == [PutString([])] && Ops(LETTER) == [PutString([97])];
    assert Groups([NOTHING, LETTER])[1..] == Groups([LETTER]) && Groups([LETTER])[1..] == [];
    assert Render([], 10, ONE_PLACE, Groups([LETTER])) == Render([97], 10, [], []);
  }

  lemma OnlyLetterIsStored()
    ensures StoreWrite(Store([], [], None), 100, TWO_PLACES, [NOTHING, LETTER]).bytes == [CODE_CHAR, 97]
  {
    var st := Store([], [], None);
    ExamplePlaces();
    assert [NOTHING, LETTER][1..] == [LETTER] && [LETTER][1..] == [];
    assert NOTHING[1..] == [] && LETTER[1..] == [];
    assert StoreArgument(st, 100, NOTHING) == st;
    var st' := StoreArgument(st, 100, LETTER);
    assert st'.bytes == [CODE_CHAR, 97];
    assert StoreWrite(st', 100, [], []) == st';
    assert StoreWrite(st, 100, ONE_PLACE, [LETTER]) == st';
    assert StoreWrite(st, 100, TWO_PLACES, [NOTHING, LETTER]) == StoreWrite(st, 100, ONE_PLACE, [LETTER]);
  }

  lemma LetterIsRestored()
    ensures WriteBinary([], 10, TWO_PLACES, [CODE_CHAR, 97], None) == Some([97, OPEN, CLOSE])
  {
    ExamplePlaces();
    InsertOne([], 10, PutString([97]));
    assert RestoreArgument([CODE_CHAR, 97], None) == Some(Piece([PutString([97])], 2));
    assert [CODE_CHAR, 97][2..] == [];
    assert [97] + ONE_PLACE == [97, OPEN, CLOSE];
    assert Put([], 10, []) == [] && InsertAll([], 10, [PutString([97])]) == [97];
    assert WriteBinary([97], 10, ONE_PLACE, [], None) == Some([97] + ONE_PLACE);
  }

  /** An argument that renders nothing is not stored, so the next one takes its placeholder. */
  lemma EmptyArgumentShifts()
    ensures WriteText([], 10, TWO_PLACES, [NOTHING, LETTER]) == [97]
    ensures WriteBinary([], 10, TWO_PLACES, StoreWrite(Store([], [], None), 100, TWO_PLACES, [NOTHING, LETTER]).bytes, None)
         == Some([97, OPEN, CLOSE])
  {
    DirectRendering();
    OnlyLetterIsStored();
    LetterIsRestored();
  }
}
