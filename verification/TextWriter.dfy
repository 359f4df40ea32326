/** The text writer with its fixed buffer and optional full handler. */
module TextWriter {
  import opened Wire
  import opened IntegerText
  import opened Formatting

  /** The scan of the `write` functions. */
  method FindPlaceholder(fmt: seq<byte>) returns (i: nat)
    ensures i == Placeholder(fmt, 0)
  {
    i := 0;
    while i < |fmt|
      invariant i <= |fmt| && Placeholder(fmt, 0) == Placeholder(fmt, i)
    {
      if fmt[i] == OPEN && i + 1 < |fmt| && fmt[i + 1] == CLOSE {
        break;
      }
      i := i + 1;
    }
  }

  /** What is left of a string after one round of the loop that flushes full buffers. */
  function NextPart(s: seq<byte>, max: nat): seq<byte> {
    s[if |s| <= max then |s| else max..]
  }

  function Rounds(s: seq<byte>, max: nat, k: nat): seq<byte> {
    if k == 0 then s else NextPart(Rounds(s, max, k - 1), max)
  }

  lemma {:induction false} RoundsShorten(s: seq<byte>, max: nat, k: nat)
    ensures max > 0 ==> |Rounds(s, max, k)| <= if |s| >= k then |s| - k else 0
    ensures max == 0 ==> Rounds(s, max, k) == s
  {
    if k > 0 {
      RoundsShorten(s, max, k - 1);
    }
  }

  /** The loop comes to an end exactly if there is room for at least one character besides the
      final null, or nothing to append. */
  lemma FlushLoopEnds(s: seq<byte>, max: nat)
    ensures (exists k: nat :: Rounds(s, max, k) == []) <==> max > 0 || s == []
  {
    RoundsShorten(s, max, |s|);
    assert max > 0 ==> Rounds(s, max, |s|) == [];
    assert Rounds(s, max, 0) == s;
    forall k: nat | max == 0
      ensures Rounds(s, max, k) == s
    {
      RoundsShorten(s, max, k);
    }
  }

  /** What the full handler has been given, and what the buffer holds. */
  datatype Sink = Sink(flushed: seq<byte>, text: seq<byte>) {
    function Everything(): seq<byte> {
      flushed + text
    }
  }

  /** How much of what follows a full buffer stays in the buffer. */
  function Kept(length: nat, max: nat): (n: nat)
    requires max > 0
    ensures n <= length
  {
    if length <= max then length else length % max
  }

  /** Appending a string: what fits, and then, with a handler, full buffers until the rest fits.
      With a handler and no room at all the loop does not end (FlushLoopEnds). */
  function Appended(o: Sink, max: nat, handler: bool, s: seq<byte>): Sink {
    if |o.text| + |s| <= max then o.(text := o.text + s)
    else if !handler || max == 0 || |o.text| > max then o.(text := if handler then o.text else Put(o.text, max, s))
    else
      var kept := Kept(|s| - (max - |o.text|), max);
      Sink(o.flushed + o.text + s[..|s| - kept], s[|s| - kept..])
  }

  /** An integer is inserted whole or not at all; the handler is not asked. */
  function Inserted(o: Sink, max: nat, handler: bool, op: Op): Sink {
    match op
    case PutString(s) => Appended(o, max, handler, s)
    case PutInteger(n) => o.(text := Insert(o.text, max, op))
  }

  function InsertedAll(o: Sink, max: nat, handler: bool, ops: seq<Op>): Sink
    decreases |ops|
  {
    if ops == [] then o else InsertedAll(Inserted(o, max, handler, ops[0]), max, handler, ops[1..])
  }

  /** The direct `write`: placeholders take the arguments in turn. */
  function Written(o: Sink, max: nat, handler: bool, fmt: seq<byte>, args: seq<seq<Atom>>): Sink
    decreases |args|
  {
    if args == [] then Appended(o, max, handler, fmt)
    else
      var i := Placeholder(fmt, 0);
      var o1 := Appended(o, max, handler, fmt[..i]);
      if i < |fmt| then Written(InsertedAll(o1, max, handler, Ops(args[0])), max, handler, fmt[i + 2..], args[1..]) else o1
  }

  // ------------------------------------------------------- what writers promise

  lemma AppendedKeepsEverything(o: Sink, max: nat, s: seq<byte>)
    requires max > 0 && |o.text| <= max
    ensures var o' := Appended(o, max, true, s); o'.Everything() == o.Everything() + s && |o'.text| <= max
  {
    if |o.text| + |s| > max {
      var kept := Kept(|s| - (max - |o.text|), max);
      assert s == s[..|s| - kept] + s[|s| - kept..];
    }
  }

  function AppendedEach(o: Sink, max: nat, handler: bool, ss: seq<seq<byte>>): Sink
    decreases |ss|
  {
    if ss == [] then o else AppendedEach(Appended(o, max, handler, ss[0]), max, handler, ss[1..])
  }

  function Joined(ss: seq<seq<byte>>): seq<byte> {
    if ss == [] then [] else ss[0] + Joined(ss[1..])
  }

  /** With a handler, after any sequence of appends, what was flushed and what the buffer holds is
      everything appended, for every capacity with room for a character. */
  lemma {:induction false} NothingIsLost(o: Sink, max: nat, ss: seq<seq<byte>>)
    requires max > 0 && |o.text| <= max
    ensures AppendedEach(o, max, true, ss).Everything() == o.Everything() + Joined(ss)
    decreases |ss|
  {
    if ss == [] {
      assert o.Everything() + [] == o.Everything();
    } else {
      AppendedKeepsEverything(o, max, ss[0]);
      NothingIsLost(Appended(o, max, true, ss[0]), max, ss[1..]);
      assert o.Everything() + ss[0] + Joined(ss[1..]) == o.Everything() + Joined(ss);
    }
  }

  function First(s: seq<byte>, max: nat): seq<byte> {
    if |s| <= max then s else s[..max]
  }

  /** Without a handler the buffer holds the first characters of everything appended. */
  lemma {:induction false} FirstCharactersStay(o: Sink, max: nat, ss: seq<seq<byte>>)
    requires |o.text| <= max
    ensures AppendedEach(o, max, false, ss) == o.(text := First(o.text + Joined(ss), max))
    decreases |ss|
  {
    if ss == [] {
      assert o.text + [] == o.text;
    } else {
      var o1 := Appended(o, max, false, ss[0]);
      assert o1.text == First(o.text + ss[0], max);
      FirstCharactersStay(o1, max, ss[1..]);
      assert o.text + ss[0] + Joined(ss[1..]) == o.text + Joined(ss);
      assert First(First(o.text + ss[0], max) + Joined(ss[1..]), max) == First(o.text + ss[0] + Joined(ss[1..]), max);
    }
  }

  lemma {:induction false} InsertedWithoutHandler(o: Sink, max: nat, ops: seq<Op>)
    ensures InsertedAll(o, max, false, ops) == o.(text := InsertAll(o.text, max, ops))
    decreases |ops|
  {
    if ops != [] {
      InsertedWithoutHandler(Inserted(o, max, false, ops[0]), max, ops[1..]);
    }
  }

  /** Without a handler `write` is direct formatting into a bounded text. */
  lemma {:induction false} WrittenWithoutHandler(o: Sink, max: nat, fmt: seq<byte>, args: seq<seq<Atom>>)
    ensures Written(o, max, false, fmt, args) == o.(text := WriteText(o.text, max, fmt, args))
    decreases |args|
  {
    hide Placeholder, Ops, InsertAll, InsertedAll;
    if args != [] {
      var i := Placeholder(fmt, 0);
      WriteTextNext(o.text, max, fmt, args);
      var o1 := Appended(o, max, false, fmt[..i]);
      hide WriteText, Appended, Put;
      if i < |fmt| {
        InsertedWithoutHandler(o1, max, Ops(args[0]));
        WrittenWithoutHandler(InsertedAll(o1, max, false, Ops(args[0])), max, fmt[i + 2..], args[1..]);
      }
    }
  }

  // ------------------------------------------- integers in front of a handler

  /** How full the buffer is after an operation, from lengths alone. */
  function Filled(used: nat, max: nat, op: Op): (r: nat)
    requires used <= max && max > 0
    ensures r <= max
  {
    var length := |OpText(op)|;
    if used + length <= max then used + length
    else if op.PutInteger? then used
    else Kept(length - (max - used), max)
  }

  /** An integer is lost if it does not fit what is left when its turn comes. */
  predicate Fits(used: nat, max: nat, op: Op) {
    op.PutInteger? ==> used + |OpText(op)| <= max
  }

  predicate AllFit(used: nat, max: nat, ops: seq<Op>)
    requires used <= max && max > 0
    decreases |ops|
  {
    ops == [] || (Fits(used, max, ops[0]) && AllFit(Filled(used, max, ops[0]), max, ops[1..]))
  }

  /** The operations without the integers that are lost. */
  function Survivors(used: nat, max: nat, ops: seq<Op>): seq<Op>
    requires used <= max && max > 0
    decreases |ops|
  {
    if ops == [] then []
    else (if Fits(used, max, ops[0]) then [ops[0]] else []) + Survivors(Filled(used, max, ops[0]), max, ops[1..])
  }

  lemma InsertedOne(o: Sink, max: nat, op: Op)
    requires max > 0 && |o.text| <= max
    ensures var o' := Inserted(o, max, true, op);
            && |o'.text| == Filled(|o.text|, max, op)
            && o'.Everything() == o.Everything() + if Fits(|o.text|, max, op) then OpText(op) else []
  {
    match op
    case PutString(s) => AppendedKeepsEverything(o, max, s);
    case PutInteger(n) =>
      if Fits(|o.text|, max, op) {
        assert o.flushed + (o.text + Decimal(n)) == o.Everything() + Decimal(n);
      } else {
        assert o.Everything() + [] == o.Everything();
      }
  }

  /** With a handler everything arrives in order but the integers that did not fit. */
  lemma {:induction false} OthersArrive(o: Sink, max: nat, ops: seq<Op>)
    requires max > 0 && |o.text| <= max
    ensures InsertedAll(o, max, true, ops).Everything() == o.Everything() + OpsText(Survivors(|o.text|, max, ops))
    decreases |ops|
  {
    hide Inserted, Filled, Fits, OpText;
    if ops == [] {
      assert o.Everything() + [] == o.Everything();
    } else {
      var o1, fits := Inserted(o, max, true, ops[0]), Fits(|o.text|, max, ops[0]);
      InsertedOne(o, max, ops[0]);
      OthersArrive(o1, max, ops[1..]);
      var rest := Survivors(Filled(|o.text|, max, ops[0]), max, ops[1..]);
      assert fits ==> ([ops[0]] + rest)[1..] == rest;
      assert !fits ==> [] + rest == rest;
      assert o.Everything() + OpText(ops[0]) + OpsText(rest) == o.Everything() + (OpText(ops[0]) + OpsText(rest));
      assert o.Everything() + [] == o.Everything();
    }
  }

  lemma {:induction false} LossIsSeen(used: nat, max: nat, ops: seq<Op>)
    requires used <= max && max > 0
    ensures AllFit(used, max, ops) ==> Survivors(used, max, ops) == ops
    ensures |OpsText(Survivors(used, max, ops))| <= |OpsText(ops)|
    ensures !AllFit(used, max, ops) ==> |OpsText(Survivors(used, max, ops))| < |OpsText(ops)|
    decreases |ops|
  {
    hide Filled;
    if ops != [] {
      var rest := Survivors(Filled(used, max, ops[0]), max, ops[1..]);
      LossIsSeen(Filled(used, max, ops[0]), max, ops[1..]);
      assert ([ops[0]] + rest)[1..] == rest && [] + rest == rest;
      assert OpsText([ops[0]] + rest) == OpText(ops[0]) + OpsText(rest);
      assert ops == [ops[0]] + ops[1..];
    }
  }

  /** With a handler, for every capacity with room for a character: what was flushed and what the
      buffer holds is everything inserted exactly if each integer fits what is left at its turn. */
  lemma IntegersSurviveIff(o: Sink, max: nat, ops: seq<Op>)
    requires max > 0 && |o.text| <= max
    ensures InsertedAll(o, max, true, ops).Everything() == o.Everything() + OpsText(ops)
            <==> AllFit(|o.text|, max, ops)
  {
    hide InsertedAll, OpsText, Survivors, AllFit;
    OthersArrive(o, max, ops);
    LossIsSeen(|o.text|, max, ops);
    assert |o.Everything() + OpsText(ops)| == |o.Everything()| + |OpsText(ops)|;
  }

  /** The operations of a direct `write`. */
  function WriteOps(fmt: seq<byte>, args: seq<seq<Atom>>): seq<Op>
    decreases |args|
  {
    if args == [] then [PutString(fmt)]
    else
      var i := Placeholder(fmt, 0);
      [PutString(fmt[..i])] + if i < |fmt| then Ops(args[0]) + WriteOps(fmt[i + 2..], args[1..]) else []
  }

  lemma {:induction false} InsertedAllConcat(o: Sink, max: nat, handler: bool, a: seq<Op>, b: seq<Op>)
    ensures InsertedAll(o, max, handler, a + b) == InsertedAll(InsertedAll(o, max, handler, a), max, handler, b)
    decreases |a|
  {
    hide Inserted;
    if a == [] {
      assert a + b == b;
    } else {
      assert (a + b)[1..] == a[1..] + b;
      InsertedAllConcat(Inserted(o, max, handler, a[0]), max, handler, a[1..], b);
    }
  }

  lemma {:induction false} OpsTextConcat(a: seq<Op>, b: seq<Op>)
    ensures OpsText(a + b) == OpsText(a) + OpsText(b)
  {
    if a == [] {
      assert a + b == b;
    } else {
      assert (a + b)[1..] == a[1..] + b;
      OpsTextConcat(a[1..], b);
    }
  }

  lemma OneInserted(o: Sink, max: nat, handler: bool, s: seq<byte>)
    ensures InsertedAll(o, max, handler, [PutString(s)]) == Appended(o, max, handler, s)
  {
    assert [PutString(s)][1..] == [];
  }

  lemma OneText(s: seq<byte>)
    ensures OpsText([PutString(s)]) == s
  {
    assert [PutString(s)][1..] == [];
    assert s + [] == s;
  }

  /** `write` is its operations. */
  lemma {:induction false} WrittenIsInserted(o: Sink, max: nat, handler: bool, fmt: seq<byte>, args: seq<seq<Atom>>)
    ensures Written(o, max, handler, fmt, args) == InsertedAll(o, max, handler, WriteOps(fmt, args))
    decreases |args|
  {
    hide Placeholder, Ops, InsertedAll, Appended;
    if args == [] {
      OneInserted(o, max, handler, fmt);
    } else {
      var i := Placeholder(fmt, 0);
      var first := [PutString(fmt[..i])];
      OneInserted(o, max, handler, fmt[..i]);
      if i < |fmt| {
        var o1, later := Appended(o, max, handler, fmt[..i]), WriteOps(fmt[i + 2..], args[1..]);
        InsertedAllConcat(o, max, handler, first, Ops(args[0]) + later);
        InsertedAllConcat(o1, max, handler, Ops(args[0]), later);
        WrittenIsInserted(InsertedAll(o1, max, handler, Ops(args[0])), max, handler, fmt[i + 2..], args[1..]);
      } else {
        assert first + [] == first;
      }
    }
  }

  /** Their texts are the whole text. */
  lemma {:induction false} WriteOpsText(fmt: seq<byte>, args: seq<seq<Atom>>)
    ensures OpsText(WriteOps(fmt, args)) == FullText(fmt, Groups(args))
    decreases |args|
  {
    hide Placeholder, Ops, OpsText;
    if args == [] {
      OneText(fmt);
    } else {
      var i := Placeholder(fmt, 0);
      var first := [PutString(fmt[..i])];
      OneText(fmt[..i]);
      assert Groups(args)[1..] == Groups(args[1..]);
      if i < |fmt| {
        var later := WriteOps(fmt[i + 2..], args[1..]);
        OpsTextConcat(first, Ops(args[0]) + later);
        OpsTextConcat(Ops(args[0]), later);
        WriteOpsText(fmt[i + 2..], args[1..]);
      } else {
        assert first + [] == first && fmt[..i] + [] == fmt[..i];
      }
    }
  }

  /** With a handler `write` formats in full exactly if each integer fits at its turn. */
  lemma WrittenInFullIff(o: Sink, max: nat, fmt: seq<byte>, args: seq<seq<Atom>>)
    requires max > 0 && |o.text| <= max
    ensures Written(o, max, true, fmt, args).Everything() == o.Everything() + FullText(fmt, Groups(args))
            <==> AllFit(|o.text|, max, WriteOps(fmt, args))
  {
    hide Written, InsertedAll, FullText, OpsText, WriteOps, AllFit;
    WrittenIsInserted(o, max, true, fmt, args);
    WriteOpsText(fmt, args);
    IntegersSurviveIff(o, max, WriteOps(fmt, args));
  }

  predicate NoIntegers(ops: seq<Op>) {
    forall i | 0 <= i < |ops| :: ops[i].PutString?
  }

  lemma {:induction false} StringsFit(used: nat, max: nat, ops: seq<Op>)
    requires used <= max && max > 0 && NoIntegers(ops)
    ensures AllFit(used, max, ops)
    decreases |ops|
  {
    if ops != [] {
      StringsFit(Filled(used, max, ops[0]), max, ops[1..]);
    }
  }

  lemma {:induction false} OnlyStrings(fmt: seq<byte>, args: seq<seq<Atom>>)
    requires forall i | 0 <= i < |args| :: NoIntegers(Ops(args[i]))
    ensures NoIntegers(WriteOps(fmt, args))
    decreases |args|
  {
    hide Placeholder, Ops;
    if args != [] {
      var i := Placeholder(fmt, 0);
      if i < |fmt| {
        OnlyStrings(fmt[i + 2..], args[1..]);
        assert NoIntegers(Ops(args[0]));
      }
    }
  }

  /** With a handler, arguments without integers are formatted in full, whatever the capacity. */
  lemma WrittenWithHandler(o: Sink, max: nat, fmt: seq<byte>, args: seq<seq<Atom>>)
    requires max > 0 && |o.text| <= max
    requires forall i | 0 <= i < |args| :: NoIntegers(Ops(args[i]))
    ensures Written(o, max, true, fmt, args).Everything() == o.Everything() + FullText(fmt, Groups(args))
  {
    OnlyStrings(fmt, args);
    StringsFit(|o.text|, max, WriteOps(fmt, args));
    WrittenInFullIff(o, max, fmt, args);
  }

  /** Ten characters and a four-digit number in a buffer of twelve: the number is lost although the
      handler could have made room. */
  lemma IntegersAreNotFlushed(s: seq<byte>, n: int)
    requires |s| == 10 && |Decimal(n)| == 4
    ensures InsertedAll(Sink([], []), 12, true, [PutString(s), PutInteger(n)]).Everything() == s
  {
    var ops := [PutString(s), PutInteger(n)];
    assert ops[1..] == [PutInteger(n)] && [PutInteger(n)][1..] == [];
    OthersArrive(Sink([], []), 12, ops);
    assert Survivors(10, 12, [PutInteger(n)]) == [] + Survivors(10, 12, []);
    assert Survivors(0, 12, ops) == [PutString(s)] + [];
    OneText(s);
    assert [] + s == s;
  }

  class TextWriter {
    const buffer: array<byte>
    const hasHandler: bool
    var length: nat
    var flushed: seq<byte> // What the full handler has been given.

    ghost predicate Valid()
      reads this
    {
      buffer.Length >= 1 && length <= buffer.Length - 1
    }

    /** One character remains for the final null. */
    function MaxSize(): nat
      requires buffer.Length >= 1
    {
      buffer.Length - 1
    }

    ghost function Text(): seq<byte>
      requires Valid()
      reads this, buffer
    {
      buffer[..length]
    }

    ghost function Out(): Sink
      requires Valid()
      reads this, buffer
    {
      Sink(flushed, Text())
    }

    constructor (capacity: nat, hasHandler: bool)
      requires capacity >= 1
      ensures Valid() && fresh(buffer) && Text() == [] && flushed == []
      ensures this.hasHandler == hasHandler && MaxSize() == capacity - 1
    {
      buffer := new byte[capacity];
      this.hasHandler := hasHandler;
      length, flushed := 0, [];
    }

    method Flush()
      requires Valid()
      modifies this`length, this`flushed
      ensures Valid() && Out() == Sink(old(Out()).Everything(), [])
    {
      flushed := flushed + buffer[..length];
      length := 0;
    }

    method Copy(s: seq<byte>)
      requires Valid() && length + |s| <= MaxSize()
      modifies this`length, buffer
      ensures Valid() && Text() == old(Text()) + s
    {
      forall j | 0 <= j < |s| {
        buffer[length + j] := s[j];
      }
      length := length + |s|;
      assert buffer[..length] == old(buffer[..length]) + s;
    }

    /** A buffer of a single byte loses every character. */
    method AppendChar(ch: byte)
      requires Valid()
      modifies this`length, this`flushed, buffer
      ensures Valid() && Out() == Appended(old(Out()), MaxSize(), hasHandler, [ch])
      decreases length
    {
      hide Appended;
      AppendedChar(Out(), MaxSize(), hasHandler, ch);
      if length + 1 <= MaxSize() {
        buffer[length] := ch;
        length := length + 1;
        assert buffer[..length] == old(buffer[..length]) + [ch];
      } else if hasHandler {
        Flush();
        AppendedChar(Out(), MaxSize(), hasHandler, ch);
        if 1 <= MaxSize() {
          AppendChar(ch);
        }
      }
    }

    method AppendString(s: seq<byte>)
      requires Valid() && (hasHandler && s != [] ==> MaxSize() > 0)
      modifies this`length, this`flushed, buffer
      ensures Valid() && Out() == Appended(old(Out()), MaxSize(), hasHandler, s)
      decreases |s|, if length + |s| <= MaxSize() then 0 else 2
    {
      hide Appended, Kept;
      AppendedFits(Out(), MaxSize(), hasHandler, s);
      if length + |s| <= MaxSize() {
        Copy(s);
      } else {
        var part, rest := s[..MaxSize() - length], s[MaxSize() - length..];
        FilledUp(Out(), MaxSize(), hasHandler, s);
        AppendString(part);
        HandleFull(rest);
      }
    }

    /** The buffer goes to the handler, and so does what follows, in full buffers. */
    method HandleFull(s: seq<byte>)
      requires Valid() && (hasHandler && s != [] ==> MaxSize() > 0)
      modifies this`length, this`flushed, buffer
      ensures Valid()
      ensures !hasHandler || MaxSize() == 0 ==> Out() == if hasHandler then Sink(old(Out()).Everything(), []) else old(Out())
      ensures hasHandler && MaxSize() > 0 ==>
                var kept := Kept(|s|, MaxSize());
                Out() == Sink(old(Out()).Everything() + s[..|s| - kept], s[|s| - kept..])
      decreases |s|, 1
    {
      if hasHandler {
        Flush();
        ghost var all := old(Out()).Everything();
        assert all + [] == all && [] + s == s;
        if |s| <= MaxSize() {
          AppendString(s);
        } else {
          AppendFullBuffers(s);
        }
      }
    }

    method AppendFullBuffers(s: seq<byte>)
      requires Valid() && hasHandler && length == 0 && |s| > MaxSize() > 0
      modifies this`length, this`flushed, buffer
      ensures Valid()
      ensures Out() == Sink(old(flushed) + s[..|s| - |s| % MaxSize()], s[|s| - |s| % MaxSize()..])
      decreases |s|, 0
    {
      hide Appended, Kept;
      ghost var all := flushed;
      var rest := s;
      assert all + s[..0] == all;
      while rest != []
        invariant Valid() && |rest| <= |s|
        invariant rest != [] ==> Halfway(Out(), all, s, |s| - |rest|, MaxSize()) && rest == s[|s| - |rest|..]
        invariant rest == [] ==> Out() == Sink(all + s[..|s| - |s| % MaxSize()], s[|s| - |s| % MaxSize()..])
        decreases |rest|
      {
        var appendLen := if |rest| <= MaxSize() then |rest| else MaxSize();
        var part := rest[..appendLen];
        ghost var done, o := |s| - |rest|, Out();
        PartOf(s, done, appendLen, MaxSize());
        AppendedToEmpty(o, MaxSize(), part);
        AppendString(part);
        if appendLen == MaxSize() {
          Flush();
        }
        OnePart(all, s, done, appendLen, MaxSize());
        rest := rest[appendLen..];
      }
    }

    /** An integer of a type of `width` bytes is inserted whole or not at all; the handler is not
        asked. */
    method InsertInteger(n: int, width: nat)
      requires Valid() && FitsInteger(n, width)
      modifies this`length, buffer
      ensures Valid() && Text() == Insert(old(Text()), MaxSize(), PutInteger(n))
    {
      var len := FormatNeedSpace(n, width);
      if length + len <= MaxSize() {
        var begin := FormatInteger(n, width, buffer, length + len);
        length := length + len;
        assert buffer[..length] == buffer[..begin] + buffer[begin..length];
        assert buffer[..begin] == old(buffer[..length]);
      }
    }

    method InsertAtom(a: Atom)
      requires Valid() && AtomOk(a) && (hasHandler ==> MaxSize() > 0)
      modifies this`length, this`flushed, buffer
      ensures Valid() && Out() == Inserted(old(Out()), MaxSize(), hasHandler, AtomOp(a))
    {
      match a
      case CharAtom(ch) => AppendChar(ch);
      case StringAtom(s, _) => AppendString(s);
      case IntAtom(n, width, _) => InsertInteger(n, width);
    }

    /** A value inserts its pieces one after the other. */
    method InsertAtoms(atoms: seq<Atom>)
      requires Valid() && AtomsOk(atoms) && (hasHandler ==> MaxSize() > 0)
      modifies this`length, this`flushed, buffer
      ensures Valid() && Out() == InsertedAll(old(Out()), MaxSize(), hasHandler, Ops(atoms))
    {
      var i := 0;
      assert atoms[0..] == atoms;
      while i < |atoms|
        invariant 0 <= i <= |atoms| && Valid()
        invariant InsertedAll(Out(), MaxSize(), hasHandler, Ops(atoms[i..])) == InsertedAll(old(Out()), MaxSize(), hasHandler, Ops(atoms))
      {
        assert atoms[i..][0] == atoms[i] && atoms[i..][1..] == atoms[i + 1..];
        assert Ops(atoms[i..])[1..] == Ops(atoms[i + 1..]);
        InsertAtom(atoms[i]);
        i := i + 1;
      }
    }

    /** The direct `write`. */
    method Write(fmt: seq<byte>, args: seq<seq<Atom>>)
      requires Valid() && ArgumentsOk(args) && (hasHandler ==> MaxSize() > 0)
      modifies this`length, this`flushed, buffer
      ensures Valid() && Out() == Written(old(Out()), MaxSize(), hasHandler, fmt, args)
      decreases |args|
    {
      hide InsertedAll, Inserted, Appended, Ops, Placeholder;
      if args == [] {
        AppendString(fmt);
      } else {
        var i := FindPlaceholder(fmt);
        AppendString(fmt[..i]);
        if i < |fmt| {
          InsertAtoms(args[0]);
          Write(fmt[i + 2..], args[1..]);
        }
      }
    }
  }

  /** Whole buffers of `s` have gone to the handler, and the buffer is empty. */
  predicate Halfway(o: Sink, all: seq<byte>, s: seq<byte>, done: nat, max: nat) {
    max > 0 && done <= |s| && done % max == 0 && o == Sink(all + s[..done], [])
  }

  lemma AppendedChar(o: Sink, max: nat, handler: bool, ch: byte)
    requires |o.text| <= max
    ensures Appended(o, max, handler, [ch])
         == if |o.text| + 1 <= max then o.(text := o.text + [ch])
            else if handler then Sink(o.Everything(), if max == 0 then [] else [ch]) else o
  {
    assert o.text + [] == o.text && o.Everything() + [] == o.Everything();
    assert max == 0 ==> o.text == [];
  }

  lemma AppendedFits(o: Sink, max: nat, handler: bool, s: seq<byte>)
    ensures |o.text| + |s| <= max ==> Appended(o, max, handler, s) == o.(text := o.text + s)
  {
  }

  /** What does not fit fills the buffer up first. */
  lemma FilledUp(o: Sink, max: nat, handler: bool, s: seq<byte>)
    requires |o.text| <= max < |o.text| + |s|
    ensures var part, rest := s[..max - |o.text|], s[max - |o.text|..];
            var o1 := Appended(o, max, handler, part);
            && (!handler ==> Appended(o, max, handler, s) == o1)
            && (handler && max > 0 ==>
                  var kept := Kept(|rest|, max);
                  Appended(o, max, handler, s) == Sink(o1.Everything() + rest[..|rest| - kept], rest[|rest| - kept..]))
  {
    var part, rest := s[..max - |o.text|], s[max - |o.text|..];
    AppendedFits(o, max, handler, part);
    if handler && max > 0 {
      var kept := Kept(|rest|, max);
      assert s[|s| - kept..] == rest[|rest| - kept..];
      assert s[..|s| - kept] == part + rest[..|rest| - kept];
      assert o.flushed + (o.text + part) + rest[..|rest| - kept] == o.flushed + o.text + (part + rest[..|rest| - kept]);
    }
  }

  lemma AppendedToEmpty(o: Sink, max: nat, part: seq<byte>)
    requires o.text == [] && |part| <= max
    ensures Appended(o, max, true, part) == Sink(o.flushed, part)
  {
    assert [] + part == part;
  }

  lemma OnePart(all: seq<byte>, s: seq<byte>, done: nat, part: nat, max: nat)
    requires done + part <= |s|
    ensures all + s[..done] + s[done..done + part] == all + s[..done + part]
  {
    assert s[..done + part] == s[..done] + s[done..done + part];
  }

  /** A part of the rest that starts after whole buffers. */
  lemma PartOf(s: seq<byte>, done: nat, part: nat, max: nat)
    requires max > 0 && done + part <= |s| && done % max == 0
    requires part == (if |s| - done <= max then |s| - done else max)
    ensures part == max ==> (done + part) % max == 0
    ensures done + part == |s| && part < max ==> |s| % max == part
    ensures s[done..][..part] == s[done..done + part] && s[..done] + s[done..done + part] == s[..done + part]
    ensures s[done..][part..] == s[done + part..]
  {
    assert done == max * (done / max);
    if part == max {
      assert done + part == max * (done / max + 1);
      IsMultiple(max, done / max + 1);
    } else {
      RemainderOf(max, done / max, part);
    }
  }

  lemma IsMultiple(max: nat, k: nat)
    requires max > 0
    ensures (max * k) % max == 0
  {
    QuotientIs(max * k, max, k);
  }

  lemma RemainderOf(max: nat, k: nat, part: nat)
    requires part < max
    ensures (max * k + part) % max == part
  {
    QuotientIs(max * k + part, max, k);
  }
}
