/** Integers as text: the decimal writer that works backwards two digits at a time, and the binary,
    octal and hexadecimal ones. */
module IntegerText {
  import opened Wire

  const MINUS: byte := 45
  const ZERO_CHAR: byte := 48

  // -------------------------------------------------------------------- digits

  lemma {:induction false} MulSteps(base: nat, a: int, b: int)
    requires a < b
    ensures base * a + base <= base * b
    decreases b - a
  {
    assert base * (a + 1) == base * a + base;
    if a + 1 < b {
      MulSteps(base, a + 1, b);
    }
  }

  lemma QuotientSize(n: nat, base: nat)
    requires base >= 2
    ensures n >= base ==> 0 < n / base < n
    ensures n < base ==> n / base == 0
  {
    var q := n / base;
    assert n == base * q + n % base;
    if n >= base && q <= 0 {
      assert false;
    }
    if n >= base {
      assert base * q >= 2 * q;
    }
  }

  function Quotient(n: nat, base: nat): (q: nat)
    requires base >= 2
    ensures n >= base ==> 0 < q < n
    ensures n < base ==> q == 0
  {
    QuotientSize(n, base);
    n / base
  }

  function Remainder(n: nat, base: nat): (r: nat)
    requires base >= 2
    ensures r < base && (n < base ==> r == n)
  {
    n % base
  }

  function Joined(q: nat, d: nat, base: nat): nat {
    base * q + d
  }

  lemma JoinSplit(n: nat, base: nat)
    requires base >= 2
    ensures Joined(Quotient(n, base), Remainder(n, base), base) == n
  {
  }

  lemma SplitJoin(q: nat, d: nat, base: nat)
    requires base >= 2 && d < base
    ensures Quotient(Joined(q, d, base), base) == q && Remainder(Joined(q, d, base), base) == d
    ensures q > 0 ==> Joined(q, d, base) >= base
  {
    var n := Joined(q, d, base);
    var q' := n / base;
    assert n == base * q' + n % base;
    if q' < q {
      MulSteps(base, q', q);
    } else if q < q' {
      MulSteps(base, q, q');
    }
    if q > 0 {
      MulSteps(base, 0, q);
    }
  }

  /** The digits of `n`, most significant first, without leading zeros. */
  function DigitsOf(n: nat, base: nat): (ds: seq<nat>)
    requires base >= 2
    ensures ds != [] && forall d | d in ds :: d < base
    decreases n
  {
    if n < base then [n] else DigitsOf(Quotient(n, base), base) + [Remainder(n, base)]
  }

  function Value(ds: seq<nat>, base: nat): nat {
    if ds == [] then 0 else Joined(Value(ds[..|ds| - 1], base), ds[|ds| - 1], base)
  }

  predicate Canonical(ds: seq<nat>, base: nat) {
    ds != [] && (forall d | d in ds :: d < base) && (|ds| > 1 ==> ds[0] != 0)
  }

  lemma ValueAppend(ds: seq<nat>, d: nat, base: nat)
    ensures Value(ds + [d], base) == Joined(Value(ds, base), d, base)
  {
    assert (ds + [d])[..|ds|] == ds;
  }

  lemma ValueSingle(d: nat, base: nat)
    ensures Value([d], base) == d
  {
    assert [] + [d] == [d];
    ValueAppend([], d, base);
  }

  /** The digits denote the number and are canonical. */
  lemma {:induction false} DigitsDenote(n: nat, base: nat)
    requires base >= 2
    ensures Value(DigitsOf(n, base), base) == n
    ensures Canonical(DigitsOf(n, base), base) && (n > 0 ==> DigitsOf(n, base)[0] != 0)
    decreases n
  {
    hide Joined, Quotient, Remainder;
    if n < base {
      ValueSingle(n, base);
    } else {
      var q, r := Quotient(n, base), Remainder(n, base);
      DigitsDenote(q, base);
      ValueAppend(DigitsOf(q, base), r, base);
      JoinSplit(n, base);
    }
  }

  /** No other canonical digits denote it. */
  lemma {:induction false} DigitsUnique(ds: seq<nat>, base: nat)
    requires base >= 2 && Canonical(ds, base)
    ensures DigitsOf(Value(ds, base), base) == ds
    ensures ds[0] != 0 ==> Value(ds, base) > 0
    decreases |ds|
  {
    hide Joined, Quotient, Remainder;
    var front, d := ds[..|ds| - 1], ds[|ds| - 1];
    assert d in ds && ds == front + [d];
    if front == [] {
      ValueSingle(d, base);
    } else {
      assert forall x | x in front :: x in ds;
      DigitsUnique(front, base);
      SplitJoin(Value(front, base), d, base);
    }
  }

  function Power(base: nat, k: nat): nat {
    if k == 0 then 1 else base * Power(base, k - 1)
  }

  /** A number below `base` to the `k` has at most `k` digits. */
  lemma {:induction false} DigitCount(n: nat, base: nat, k: nat)
    requires base >= 2 && k >= 1 && n < Power(base, k)
    ensures |DigitsOf(n, base)| <= k
    decreases k
  {
    if n >= base {
      assert Power(base, 1) == base * Power(base, 0);
      QuotientBelow(n, base, Power(base, k - 1));
      DigitCount(Quotient(n, base), base, k - 1);
    }
  }

  lemma QuotientBelow(n: nat, base: nat, bound: nat)
    requires base >= 2 && n < base * bound
    ensures Quotient(n, base) < bound
  {
    assert n == base * (n / base) + n % base;
    if bound < n / base {
      MulSteps(base, bound, n / base);
    }
  }

  // ------------------------------------------------------------------- decimal

  function DigitChar(d: nat): byte {
    if d < 10 then ZERO_CHAR + d else ZERO_CHAR
  }

  function DecimalChars(ds: seq<nat>): (s: seq<byte>)
    ensures |s| == |ds| && forall i | 0 <= i < |s| :: s[i] == DigitChar(ds[i])
  {
    seq(|ds|, i requires 0 <= i < |ds| => DigitChar(ds[i]))
  }

  function Unsigned(n: nat): seq<byte> {
    DecimalChars(DigitsOf(n, 10))
  }

  function Abs(n: int): nat {
    if n < 0 then -n else n
  }

  // ------------------------------------------------------- fixed-width negation

  /** `n` is a value of an integer type of `width` bytes, of either sign. */
  predicate FitsInteger(n: int, width: nat) {
    width > 0 && (FitsSigned(n, width) || FitsUnsigned(n, width))
  }

  /** The conversion to the unsigned type of that many bytes. */
  function ToUnsigned(n: int, width: nat): nat {
    n % Span(width)
  }

  /** `0 - a` in that type. */
  function Negated(a: int, width: nat): nat {
    -a % Span(width)
  }

  /** What the formaters take apart: the value in the unsigned type, negated there if negative. */
  function Absolute(n: int, width: nat): nat {
    var absolute := ToUnsigned(n, width);
    if n < 0 then Negated(absolute, width) else absolute
  }

  lemma WrapsOnce(n: int, span: int)
    requires span > 0
    ensures 0 <= n < span ==> n % span == n
    ensures -span <= n < 0 ==> n % span == n + span
  {
    if 0 <= n < span {
      QuotientIs(n, span, 0);
    } else if -span <= n < 0 {
      QuotientIs(n, span, -1);
    }
  }

  lemma QuotientIs(n: int, span: nat, q: int)
    requires span > 0 && span * q <= n < span * q + span
    ensures n / span == q && n % span == n - span * q
  {
    assert n == span * (n / span) + n % span;
    if n / span < q {
      MulSteps(span, n / span, q);
    } else if q < n / span {
      MulSteps(span, q, n / span);
    }
  }

  /** The negation in the unsigned type is the absolute value, for every value of every width. */
  lemma AbsoluteIsAbs(n: int, width: nat)
    requires FitsInteger(n, width)
    ensures Absolute(n, width) == Abs(n)
  {
    assert Span(width) == 256 * Span(width - 1);
    WrapsOnce(n, Span(width));
    if n < 0 {
      WrapsOnce(0 - (n + Span(width)), Span(width));
    }
  }

  /** The minimum: it is its own negation in the unsigned type, and there it is its absolute value. */
  lemma MinimumNegatesToItself(width: nat)
    requires width > 0
    ensures var min := -128 * Span(width - 1);
            && FitsSigned(min, width) && !FitsSigned(-min, width)
            && ToUnsigned(min, width) == Absolute(min, width) == -min
  {
    assert Span(width) == 256 * Span(width - 1);
    WrapsOnce(-128 * Span(width - 1), Span(width));
    AbsoluteIsAbs(-128 * Span(width - 1), width);
  }

  /** The decimal text of any integer. */
  function Decimal(n: int): seq<byte> {
    (if n < 0 then [MINUS] else []) + Unsigned(Abs(n))
  }

  /** The pair table: characters 2k and 2k + 1 are the two digits of k. */
  function PairChar(index: nat): byte
    requires index < 200
  {
    ZERO_CHAR + if index % 2 == 0 then index / 2 / 10 else index / 2 % 10
  }

  function Pair(k: nat): seq<byte>
    requires k < 100
  {
    [PairChar(2 * k), PairChar(2 * k + 1)]
  }

  /** Dividing by a hundred takes off two digits. */
  lemma TwoDigits(a: nat)
    requires a >= 10
    ensures a >= 100 ==> Unsigned(a) == Unsigned(a / 100) + Pair(a % 100)
    ensures a < 100 ==> Unsigned(a) == Pair(a)
  {
    assert a / 10 / 10 == a / 100 && a / 10 % 10 == a % 100 / 10 && a % 100 % 10 == a % 10;
    if a >= 100 {
      assert DigitsOf(a, 10) == DigitsOf(a / 10, 10) + [a % 10];
      assert DigitsOf(a / 10, 10) == DigitsOf(a / 100, 10) + [a % 100 / 10];
    } else {
      assert DigitsOf(a, 10) == DigitsOf(a / 10, 10) + [a % 10];
    }
  }

  /** The number of characters needed for an integer of a type of `width` bytes. */
  method FormatNeedSpace(n: int, width: nat) returns (count: nat)
    requires FitsInteger(n, width)
    ensures count == |Decimal(n)|
  {
    var absolute := ToUnsigned(n, width);
    AbsoluteIsAbs(n, width);
    count := 0;
    if n < 0 {
      absolute := Negated(absolute, width);
      count := 1;
    }
    ghost var sign := count;
    if absolute == 0 {
      count := 1;
      return;
    }
    while absolute >= 100
      invariant count + |Unsigned(absolute)| == sign + |Unsigned(Abs(n))|
    {
      TwoDigits(absolute);
      absolute := absolute / 100;
      count := count + 2;
    }
    if absolute < 10 {
      count := count + 1;
    } else {
      TwoDigits(absolute);
      count := count + 2;
    }
  }

  /** Writes backwards from `output` (exclusive) and returns the position of the first character. */
  method FormatInteger(n: int, width: nat, buffer: array<byte>, output: nat) returns (begin: nat)
    requires FitsInteger(n, width) && |Decimal(n)| <= output <= buffer.Length
    modifies buffer
    ensures begin == output - |Decimal(n)| && buffer[begin..output] == Decimal(n)
    ensures forall i | 0 <= i < begin || output <= i < buffer.Length :: buffer[i] == old(buffer[i])
  {
    var absolute := ToUnsigned(n, width);
    AbsoluteIsAbs(n, width);
    if n < 0 {
      absolute := Negated(absolute, width);
    }
    if absolute == 0 {
      begin := output - 1;
      buffer[begin] := ZERO_CHAR;
    } else {
      begin := WriteDigits(absolute, buffer, output);
    }
    assert buffer[begin..output] == Unsigned(Abs(n));
    if n < 0 {
      begin := begin - 1;
      buffer[begin] := MINUS;
    }
    assert buffer[begin..output] == Decimal(n);
  }

  method WriteDigits(n: nat, buffer: array<byte>, output: nat) returns (begin: nat)
    requires n > 0 && |Unsigned(n)| <= output <= buffer.Length
    modifies buffer
    ensures begin == output - |Unsigned(n)| && buffer[begin..output] == Unsigned(n)
    ensures forall i | 0 <= i < begin || output <= i < buffer.Length :: buffer[i] == old(buffer[i])
  {
    var absolute := n;
    begin := output;
    while absolute >= 100
      invariant |Unsigned(absolute)| <= begin <= output
      invariant Unsigned(n) == Unsigned(absolute) + buffer[begin..output]
      invariant forall i | 0 <= i < begin || output <= i < buffer.Length :: buffer[i] == old(buffer[i])
    {
      TwoDigits(absolute);
      ghost var rest := buffer[begin..output];
      begin := begin - 2;
      StorePair(buffer, begin, absolute % 100);
      assert buffer[begin + 2..output] == rest;
      assert buffer[begin..output] == buffer[begin..begin + 2] + buffer[begin + 2..output];
      absolute := absolute / 100;
    }
    ghost var rest := buffer[begin..output];
    if absolute < 10 {
      begin := begin - 1;
      buffer[begin] := ZERO_CHAR + absolute;
      assert buffer[begin + 1..output] == rest && buffer[begin..output] == [buffer[begin]] + buffer[begin + 1..output];
    } else {
      TwoDigits(absolute);
      begin := begin - 2;
      StorePair(buffer, begin, absolute);
      assert buffer[begin + 2..output] == rest;
      assert buffer[begin..output] == buffer[begin..begin + 2] + buffer[begin + 2..output];
    }
  }

  method StorePair(buffer: array<byte>, at: nat, k: nat)
    requires k < 100 && at + 2 <= buffer.Length
    modifies buffer
    ensures buffer[at..at + 2] == Pair(k)
    ensures forall i | 0 <= i < at || at + 2 <= i < buffer.Length :: buffer[i] == old(buffer[i])
  {
    var index := k * 2;
    buffer[at + 1] := PairChar(index + 1);
    buffer[at] := PairChar(index);
  }

  /** The number a decimal text denotes. */
  function ParseDecimal(s: seq<byte>): int
    requires s != [] && (s[0] == MINUS ==> |s| > 1)
  {
    if s[0] == MINUS then 0 - Value(CharDigits(s[1..]), 10) else Value(CharDigits(s), 10)
  }

  function CharDigits(s: seq<byte>): (ds: seq<nat>)
    ensures |ds| == |s|
  {
    seq(|s|, i requires 0 <= i < |s| => if s[i] >= ZERO_CHAR then s[i] - ZERO_CHAR else 0)
  }

  /** Parsing the text of `n` gives `n`, and the text has no leading zeros. */
  lemma DecimalRoundTrip(n: int)
    ensures Decimal(n) != [] && (Decimal(n)[0] == MINUS ==> |Decimal(n)| > 1)
    ensures ParseDecimal(Decimal(n)) == n
    ensures |Unsigned(Abs(n))| > 1 ==> Unsigned(Abs(n))[0] != ZERO_CHAR
  {
    hide Joined, Quotient, Remainder, Value;
    var ds := DigitsOf(Abs(n), 10);
    DigitsDenote(Abs(n), 10);
    assert forall i | 0 <= i < |ds| :: ds[i] in ds;
    assert CharDigits(Unsigned(Abs(n))) == ds;
    if n < 0 {
      assert Decimal(n)[1..] == Unsigned(Abs(n));
    } else {
      assert Decimal(n) == Unsigned(Abs(n));
    }
  }

  const FORMATER_BUFFER := 21 // digits10 of the widest unsigned type, plus one digit, plus the final zero.

  lemma {:induction false} SpanGrows(i: nat, j: nat)
    requires i <= j
    ensures Span(i) <= Span(j)
    decreases j
  {
    if i < j {
      SpanGrows(i, j - 1);
    }
  }

  lemma DecimalFits(n: int, width: nat)
    requires FitsInteger(n, width) && width <= 8
    ensures |Decimal(n)| <= FORMATER_BUFFER - 1
  {
    SpanValues();
    SpanGrows(width, 8);
    SpanGrows(width - 1, 7);
    assert Power(10, 5) == 100000;
    assert Power(10, 10) == 1_0000000000;
    assert Power(10, 15) == 1_000000000000000;
    assert Power(10, 19) == 1_0000000000000000000;
    assert Power(10, 20) == 10 * Power(10, 19);
    DigitCount(Abs(n), 10, if n < 0 then 19 else 20);
  }

  /** Any 8- to 64-bit integer fits the formater's buffer. */
  method FormatInBuffer(n: int, width: nat) returns (text: seq<byte>)
    requires FitsInteger(n, width) && width <= 8
    ensures text == Decimal(n)
  {
    var buffer := new byte[FORMATER_BUFFER];
    DecimalFits(n, width);
    buffer[FORMATER_BUFFER - 1] := 0;
    var begin := FormatInteger(n, width, buffer, FORMATER_BUFFER - 1);
    text := buffer[begin..FORMATER_BUFFER - 1];
  }

  // --------------------------------------------- binary, octal and hexadecimal

  function BaseChar(d: nat, upper: bool): byte {
    if d < 10 then ZERO_CHAR + d else if d < 36 then (if upper then 65 else 97) + d - 10 else ZERO_CHAR
  }

  function BaseChars(ds: seq<nat>, upper: bool): (s: seq<byte>)
    ensures |s| == |ds|
  {
    seq(|ds|, i requires 0 <= i < |ds| => BaseChar(ds[i], upper))
  }

  lemma CharsConcat(a: seq<nat>, b: seq<nat>)
    ensures BaseChars(a + b, false) == BaseChars(a, false) + BaseChars(b, false)
  {
  }

  /** Sign and digits. */
  function BaseText(value: nat, negative: bool, base: nat, upper: bool): seq<byte>
    requires base >= 2
  {
    (if negative then [MINUS] else []) + BaseChars(DigitsOf(value, base), upper)
  }

  /** Fill characters in front, up to the width of the field; -1 is no width. */
  function Field(text: seq<byte>, fieldWidth: int, fill: byte): seq<byte> {
    (if |text| < fieldWidth then seq(fieldWidth - |text|, i => fill) else []) + text
  }

  /** The digit a character stands for. */
  /** The text is at the right of its field, and the fill at its left. */
  lemma FieldFillsLeft(text: seq<byte>, fieldWidth: int, fill: byte)
    ensures var r := Field(text, fieldWidth, fill);
            && |r| == (if |text| < fieldWidth then fieldWidth else |text|)
            && r[|r| - |text|..] == text
            && (forall i | 0 <= i < |r| - |text| :: r[i] == fill)
  {
  }

  function CharDigit(ch: byte): nat {
    if 48 <= ch < 58 then ch - 48 else if 97 <= ch then ch - 87 else if 65 <= ch then ch - 55 else 0
  }

  function BaseDigits(s: seq<byte>): (ds: seq<nat>)
    ensures |ds| == |s|
  {
    seq(|s|, i requires 0 <= i < |s| => CharDigit(s[i]))
  }

  /** The number such a text denotes. */
  function ParseBase(s: seq<byte>, base: nat): int
    requires s != [] && (s[0] == MINUS ==> |s| > 1)
  {
    if s[0] == MINUS then 0 - Value(BaseDigits(s[1..]), base) else Value(BaseDigits(s), base)
  }

  /** Parsing the text of `n` in base 2, 8 or 16 gives `n`, and the text has no leading zeros. */
  lemma BaseRoundTrip(n: int, base: nat, upper: bool)
    requires base == 2 || base == 8 || base == 16
    ensures var s := BaseText(Abs(n), n < 0, base, upper);
            s != [] && (s[0] == MINUS ==> |s| > 1) && ParseBase(s, base) == n
    ensures |DigitsOf(Abs(n), base)| > 1 ==> BaseChars(DigitsOf(Abs(n), base), upper)[0] != ZERO_CHAR
  {
    hide Joined, Quotient, Remainder, Value;
    var ds := DigitsOf(Abs(n), base);
    var chars := BaseChars(ds, upper);
    DigitsDenote(Abs(n), base);
    forall i | 0 <= i < |ds|
      ensures CharDigit(chars[i]) == ds[i] && chars[i] != MINUS
    {
      assert ds[i] in ds;
    }
    assert BaseDigits(chars) == ds;
    if n < 0 {
      assert BaseText(Abs(n), true, base, upper)[1..] == chars;
    } else {
      assert BaseText(Abs(n), false, base, upper) == chars;
    }
  }

  /** `value >> k`. */
  function Shift(value: nat, k: nat): nat {
    if k == 0 then value else Shift(value / 2, k - 1)
  }

  lemma {:induction false} ShiftNext(value: nat, k: nat)
    ensures Shift(value, k + 1) == Shift(value, k) / 2
  {
    if k > 0 {
      ShiftNext(value / 2, k - 1);
    }
  }

  /** `a & b`. */
  function BitAnd(a: nat, b: nat): nat
    decreases a
  {
    if a == 0 then 0 else (a % 2) * (b % 2) + 2 * BitAnd(a / 2, b / 2)
  }

  lemma {:induction false} AndNothing(a: nat)
    ensures BitAnd(a, 0) == 0
    decreases a
  {
    if a > 0 {
      AndNothing(a / 2);
    }
  }

  /** A mask of one bit tests that bit. */
  lemma {:induction false} MaskTestsBit(value: nat, k: nat)
    ensures BitAnd(value, Power(2, k)) != 0 <==> Shift(value, k) % 2 == 1
    decreases k
  {
    if value == 0 {
      ZeroShifts(k);
    } else if k == 0 {
      AndNothing(value / 2);
    } else {
      assert Power(2, k) / 2 == Power(2, k - 1) && Power(2, k) % 2 == 0;
      MaskTestsBit(value / 2, k - 1);
    }
  }

  lemma {:induction false} ZeroShifts(k: nat)
    ensures Shift(0, k) == 0
  {
    if k > 0 {
      ZeroShifts(k - 1);
    }
  }

  lemma {:induction false} ShiftShrinks(value: nat, k: nat, j: nat)
    requires k <= j
    ensures Shift(value, j) <= Shift(value, k)
    decreases j
  {
    if k < j {
      ShiftShrinks(value, k, j - 1);
      ShiftNext(value, j - 1);
    }
  }

  /** Binary: counts the digits, then walks a mask down from the highest. */
  method FormatBinary(value: nat, bits: nat, negative: bool, fieldWidth: int, fill: byte) returns (text: seq<byte>)
    requires bits > 0 && value < Power(2, bits)
    ensures text == Field(BaseText(value, negative, 2, false), fieldWidth, fill)
    ensures |DigitsOf(value, 2)| <= bits
  {
    hide Quotient, Remainder;
    var absoluteValue, num := value, 0;
    while true
      invariant absoluteValue == Shift(value, num)
      invariant |DigitsOf(value, 2)| == num + |DigitsOf(absoluteValue, 2)|
      invariant num > 0 ==> absoluteValue > 0
      decreases absoluteValue
    {
      DigitsHalve(absoluteValue);
      ShiftNext(value, num);
      num := num + 1;
      absoluteValue := absoluteValue / 2;
      if absoluteValue == 0 {
        break;
      }
    }
    DigitCount(value, 2, bits);
    var width := if negative then num + 1 else num;
    text := [];
    if fieldWidth != -1 && width < fieldWidth {
      text := seq(fieldWidth - width, i => fill);
    }
    if negative {
      text := text + [MINUS];
    }
    var digits := MaskedDigits(value, num);
    text := text + digits;
  }

  lemma DigitsHalve(n: nat)
    ensures DigitsOf(n, 2) == (if n / 2 == 0 then [] else DigitsOf(n / 2, 2)) + [n % 2]
  {
    assert n < 2 ==> n % 2 == n;
  }

  method MaskedDigits(value: nat, num: nat) returns (text: seq<byte>)
    requires num == |DigitsOf(value, 2)| && Shift(value, num) == 0
    requires num > 1 ==> Shift(value, num - 1) > 0
    ensures text == BaseChars(DigitsOf(value, 2), false)
  {
    var mask := Power(2, num - 1);
    text := [];
    ghost var k := num;
    assert BaseChars([], false) == [];
    while mask != 0
      invariant 0 <= k <= num && mask == (if k == 0 then 0 else Power(2, k - 1))
      invariant text == if k == num then [] else BaseChars(DigitsOf(Shift(value, k), 2), false)
      decreases mask
    {
      k := k - 1;
      ShiftNext(value, k);
      if k + 1 < num {
        ShiftShrinks(value, k + 1, num - 1);
      }
      DigitsHalve(Shift(value, k));
      MaskTestsBit(value, k);
      var ch: byte := if BitAnd(value, mask) != 0 then ZERO_CHAR + 1 else ZERO_CHAR;
      assert ch == BaseChar(Shift(value, k) % 2, false);
      text := text + [ch];
      CharsConcat(if Shift(value, k) / 2 == 0 then [] else DigitsOf(Shift(value, k) / 2, 2), [Shift(value, k) % 2]);
      assert k > 0 ==> Power(2, k) / 2 == Power(2, k - 1);
      mask := mask / 2;
    }
    if k > 0 {
      PowerGrows(2, k - 1, k - 1);
    }
  }

  /** Array length of the octal and hexadecimal formaters: whole digits for all bits of the type. */
  function DigitRoom(bits: nat, digitBits: nat): nat
    requires digitBits > 0
  {
    bits / digitBits + if bits % digitBits != 0 then 1 else 0
  }

  lemma {:induction false} PowerOfPower(k: nat)
    ensures Power(2, 3 * k) == Power(8, k) && Power(2, 4 * k) == Power(16, k)
  {
    if k > 0 {
      PowerOfPower(k - 1);
      assert Power(2, 3 * k) == 2 * Power(2, 3 * k - 1) == 4 * Power(2, 3 * k - 2) == 8 * Power(2, 3 * (k - 1));
      assert Power(2, 4 * k) == 4 * Power(2, 4 * k - 2) == 16 * Power(2, 4 * (k - 1));
    }
  }

  lemma {:induction false} PowerGrows(base: nat, i: nat, j: nat)
    requires base > 0 && i <= j
    ensures 0 < Power(base, i) <= Power(base, j)
    decreases j
  {
    if i < j {
      PowerGrows(base, i, j - 1);
      assert base * Power(base, j - 1) >= Power(base, j - 1);
    } else if i > 0 {
      PowerGrows(base, i - 1, i - 1);
    }
  }

  /** Octal (`digitBits` 3) and hexadecimal (4): masks and shifts from the end of an array with
      just enough room, whatever the value. */
  method FormatBits(value: nat, bits: nat, digitBits: nat, upper: bool, negative: bool, fieldWidth: int, fill: byte)
    returns (text: seq<byte>)
    requires digitBits == 3 || digitBits == 4
    requires bits > 0 && value < Power(2, bits)
    ensures text == Field(BaseText(value, negative, Power(2, digitBits), upper), fieldWidth, fill)
    ensures |DigitsOf(value, Power(2, digitBits))| <= DigitRoom(bits, digitBits)
  {
    hide DigitsOf, BaseChars, BaseChar;
    var len := DigitRoom(bits, digitBits);
    var str := new byte[len];
    var base := if digitBits == 3 then 8 else 16;
    assert Power(2, 3) == 8 && Power(2, 4) == 16;
    PowerOfPower(len);
    PowerGrows(2, bits, digitBits * len);
    DigitCount(value, base, len);
    var digits := FormatMasked(value, base, str, upper);
    var width := if negative then |digits| + 1 else |digits|;
    text := [];
    if fieldWidth != -1 && width < fieldWidth {
      text := seq(fieldWidth - width, i => fill);
    }
    if negative {
      text := text + [MINUS];
    }
    text := text + digits;
  }

  method FormatMasked(value: nat, base: nat, str: array<byte>, upper: bool) returns (text: seq<byte>)
    requires base == 8 || base == 16
    requires |DigitsOf(value, base)| <= str.Length
    modifies str
    ensures text == BaseChars(DigitsOf(value, base), upper)
  {
    hide Quotient, Remainder;
    var absoluteValue: nat, ptr: nat := value, str.Length;
    ghost var done: seq<nat> := [];
    while true
      invariant |DigitsOf(absoluteValue, base)| <= ptr <= str.Length
      invariant DigitsOf(value, base) == DigitsOf(absoluteValue, base) + done
      invariant str[ptr..] == BaseChars(done, upper)
      decreases absoluteValue
    {
      ptr := ptr - 1;
      str[ptr] := BaseChar(Remainder(absoluteValue, base), upper);
      done := [Remainder(absoluteValue, base)] + done;
      assert str[ptr..] == [str[ptr]] + str[ptr + 1..];
      absoluteValue := Quotient(absoluteValue, base);
      if absoluteValue == 0 {
        break;
      }
    }
    text := str[ptr..];
  }

  lemma {:induction false} SpanIsPower(width: nat)
    ensures Span(width) == Power(2, 8 * width)
  {
    if width > 0 {
      SpanIsPower(width - 1);
      PowerBySteps(8 * width);
    }
  }

  lemma PowerBySteps(k: nat)
    requires k >= 8
    ensures Power(2, k) == 256 * Power(2, k - 8)
  {
    assert Power(2, k) == 2 * Power(2, k - 1) == 4 * Power(2, k - 2) == 8 * Power(2, k - 3) == 16 * Power(2, k - 4);
    assert Power(2, k - 4) == 2 * Power(2, k - 5) == 4 * Power(2, k - 6) == 8 * Power(2, k - 7) == 16 * Power(2, k - 8);
  }

  datatype Base = Binary | Octal | Hex

  function BaseNumber(base: Base): (b: nat)
    ensures b >= 2
  {
    match base
    case Binary => 2
    case Octal => 8
    case Hex => 16
  }

  /** The formaters for integers of either sign of a type of `width` bytes: the minimum included,
      sign and digits of the value, in the field asked for. */
  method FormatBased(n: int, width: nat, base: Base, upper: bool, fieldWidth: int, fill: byte) returns (text: seq<byte>)
    requires FitsInteger(n, width)
    ensures text == Field(BaseText(Abs(n), n < 0, BaseNumber(base), upper), fieldWidth, fill)
  {
    var absolute := ToUnsigned(n, width);
    AbsoluteIsAbs(n, width);
    SpanIsPower(width);
    var negative := n < 0;
    if negative {
      absolute := Negated(absolute, width);
    }
    assert Power(2, 3) == 8 && Power(2, 4) == 16;
    match base {
      case Binary =>
        text := FormatBinary(absolute, 8 * width, negative, fieldWidth, fill);
        LowDigits(absolute, upper);
      case Octal => text := FormatBits(absolute, 8 * width, 3, upper, negative, fieldWidth, fill);
      case Hex => text := FormatBits(absolute, 8 * width, 4, upper, negative, fieldWidth, fill);
    }
  }

  /** Binary digits have no letters. */
  lemma LowDigits(n: nat, upper: bool)
    ensures BaseChars(DigitsOf(n, 2), upper) == BaseChars(DigitsOf(n, 2), false)
  {
    var ds := DigitsOf(n, 2);
    assert forall i | 0 <= i < |ds| :: ds[i] in ds;
  }
}
