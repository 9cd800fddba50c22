/** Every JSON text, whatever blanks and escapes it is written with, is read as what it means. */
module JsonReading {
  import opened Common
  import opened JsonTree
  import opened JsonTextSpec
  import opened JsonTextProof
  import opened JsonMeaning
  import G = JsmnGrammar
  import P = JsmnProof

  // ---- Blanks ----

  lemma {:induction false} BlanksSkipped(input: seq<byte>, pos: nat, blank: seq<byte>)
    requires On(input, pos, blank) && G.Blank(blank)
    ensures SkipBlanks(input, pos) == SkipBlanks(input, pos + |blank|)
    decreases |blank|
  {
    if blank != [] {
      assert blank == [blank[0]] + blank[1..];
      OnFirst(input, pos, blank[0], blank[1..]);
      BlanksSkipped(input, pos + 1, blank[1..]);
    }
  }

  lemma ValueBehindBlanks(input: seq<byte>, pos: nat, blank: seq<byte>, limit: nat, found: bool, before: Tree)
    requires On(input, pos, blank) && G.Blank(blank)
    ensures ParseValue(input, pos, limit, found, before) == ParseValue(input, pos + |blank|, limit, found, before)
  {
    hide ParseList, ParseRecord, ReadQuoted, ReadNumeric, SkipWord;
    BlanksSkipped(input, pos, blank);
  }

  // ---- Strings ----

  lemma DigitRead(c: byte)
    requires G.HexDigit(c)
    ensures HexValue(c) == Digit(c) < 16 && c != 0
  {
  }

  lemma HexStep(input: seq<byte>, pos: nat, n: nat, value: nat, c: byte)
    requires n > 0 && value < 0x1000 && Current(input, pos) == c && G.HexDigit(c)
    ensures ReadHex(input, pos, n, value) == ReadHex(input, pos + 1, n - 1, value * 16 + Digit(c))
  {
    DigitRead(c);
    hide HexValue, Digit;
  }

  lemma UnitRead(input: seq<byte>, pos: nat, h: seq<byte>)
    requires IsUnit(h) && On(input, pos, h)
    ensures ReadHex(input, pos, 4, 0) == Good(Unit(h), pos + 4)
  {
    var part := input[pos..pos + 4];
    assert input[pos] == part[0] && input[pos + 1] == part[1] && input[pos + 2] == part[2] && input[pos + 3] == part[3];
    DigitRead(h[0]);
    DigitRead(h[1]);
    DigitRead(h[2]);
    var a := Digit(h[0]);
    var b := a * 16 + Digit(h[1]);
    var c := b * 16 + Digit(h[2]);
    var d := c * 16 + Digit(h[3]);
    hide Digit, HexValue;
    HexStep(input, pos, 4, 0, h[0]);
    HexStep(input, pos + 1, 3, a, h[1]);
    HexStep(input, pos + 2, 2, b, h[2]);
    HexStep(input, pos + 3, 1, c, h[3]);
    assert ReadHex(input, pos + 4, 0, d) == Good(d, pos + 4);
  }

  /** What the reader does with one character of a string. */
  function CharTaken(c: G.Char, high: nat): (r: (seq<byte>, nat))
    requires G.LegalChar(c) && High(high)
    ensures High(r.1)
  {
    match c
    case Itself(b) => ([b], high)
    case Escaped(letter) => ([Control(letter)], high)
    case Unicode(h) =>
      var unit := Unit(h);
      if High(unit) then ([], unit) else if Low(unit) then (Utf8(Paired(high, unit)), high) else (Utf8(unit), high)
  }

  lemma UnitTaken(unit: nat, high: nat)
    requires unit < 0x10000 && High(high)
    ensures TakeUnit(unit, high - 0xD800)
         == if High(unit) then ([], unit - 0xD800)
            else (if Low(unit) then Utf8(Paired(high, unit)) else Utf8(unit), high - 0xD800)
  {
    hide Utf8;
    assert High(unit) ==> unit % 0x400 == unit - 0xD800;
    assert Low(unit) ==> unit % 0x400 == unit - 0xDC00;
  }

  lemma CharRead(input: seq<byte>, pos: nat, c: G.Char, high: nat)
    requires G.LegalChar(c) && On(input, pos, G.CharText(c)) && High(high)
    ensures var (bytes, kept) := CharTaken(c, high);
            ReadQuoted(input, pos, QUOTE, high - 0xD800)
            == Prepend(bytes, ReadQuoted(input, pos + |G.CharText(c)|, QUOTE, kept - 0xD800))
  {
    hide Utf8, TakeUnit, ReadHex;
    var text := G.CharText(c);
    assert forall k :: pos <= k < pos + |text| ==> input[k] == input[pos..pos + |text|][k - pos];
    assert input[pos] == text[0];
    match c
    case Itself(_) =>
    case Escaped(letter) =>
      assert input[pos + 1] == text[1];
    case Unicode(h) =>
      assert input[pos + 1] == text[1];
      assert [92, 117] + h == text;
      OnParts(input, pos, [92, 117], h);
      UnitRead(input, pos + 2, h);
      UnitTaken(Unit(h), high);
  }

  /** The string as the reader takes it, character by character. */
  lemma {:induction false} StringTaken(chars: seq<G.Char>, high: nat)
    requires G.LegalChars(chars) && High(high) && chars != []
    ensures StringBytes(chars, high) == CharTaken(chars[0], high).0 + StringBytes(chars[1..], CharTaken(chars[0], high).1)
  {
    hide Utf8;
    var c := chars[0];
    if c.Unicode? && High(Unit(c.h)) {
      assert [] + StringBytes(chars[1..], Unit(c.h)) == StringBytes(chars[1..], Unit(c.h));
      if LowNext(chars[1..]) {
        assert chars[1..][0] == chars[1] && chars[1..][1..] == chars[2..];
      }
    }
  }

  lemma NoCharsRead(input: seq<byte>, pos: nat, high: nat)
    requires High(high) && On(input, pos, G.CharsText([]) + [QUOTE])
    ensures ReadQuoted(input, pos, QUOTE, high - 0xD800) == Good(StringBytes([], high), pos + |G.CharsText([])| + 1)
  {
    assert G.CharsText([]) + [QUOTE] == [QUOTE] + [];
    OnFirst(input, pos, QUOTE, []);
  }

  lemma CharsParts(input: seq<byte>, pos: nat, chars: seq<G.Char>)
    requires chars != [] && On(input, pos, G.CharsText(chars) + [QUOTE])
    ensures var first, rest := G.CharText(chars[0]), G.CharsText(chars[1..]);
            && On(input, pos, first) && On(input, pos + |first|, rest + [QUOTE])
            && |G.CharsText(chars)| == |first| + |rest|
  {
    FirstChar(chars);
    hide *;
    TwoParts(input, pos, G.CharsText(chars), G.CharText(chars[0]), G.CharsText(chars[1..]), [QUOTE]);
  }

  lemma TwoParts(input: seq<byte>, pos: nat, text: seq<byte>, a: seq<byte>, b: seq<byte>, c: seq<byte>)
    requires text == a + b && On(input, pos, text + c)
    ensures On(input, pos, a) && On(input, pos + |a|, b + c) && |text| == |a| + |b|
  {
    hide On;
    Associative(a, b, c);
    OnParts(input, pos, a, b + c);
  }

  lemma FirstChar(chars: seq<G.Char>)
    requires chars != []
    ensures G.CharsText(chars) == G.CharText(chars[0]) + G.CharsText(chars[1..])
  {
    hide G.CharText;
  }

  lemma {:induction false} CharsRead(input: seq<byte>, pos: nat, chars: seq<G.Char>, high: nat)
    requires G.LegalChars(chars) && High(high) && On(input, pos, G.CharsText(chars) + [QUOTE])
    ensures ReadQuoted(input, pos, QUOTE, high - 0xD800) == Good(StringBytes(chars, high), pos + |G.CharsText(chars)| + 1)
    decreases |chars|
  {
    hide ReadQuoted, StringBytes, CharTaken, G.CharText, G.CharsText, On;
    if chars == [] {
      NoCharsRead(input, pos, high);
    } else {
      var (bytes, kept) := CharTaken(chars[0], high);
      CharsParts(input, pos, chars);
      CharRead(input, pos, chars[0], high);
      CharsRead(input, pos + |G.CharText(chars[0])|, chars[1..], kept);
      StringTaken(chars, high);
    }
  }

  lemma QuotedRead(input: seq<byte>, pos: nat, chars: seq<G.Char>)
    requires G.LegalChars(chars) && On(input, pos, G.Quoted(chars))
    ensures Current(input, pos) == QUOTE
    ensures ReadQuoted(input, pos + 1, QUOTE, 0) == Good(TextOf(chars), pos + |G.Quoted(chars)|)
  {
    hide ReadQuoted;
    Associative([QUOTE], G.CharsText(chars), [QUOTE]);
    OnFirst(input, pos, QUOTE, G.CharsText(chars) + [QUOTE]);
    CharsRead(input, pos + 1, chars, 0xD800);
  }

  // ---- Numbers ----

  lemma {:induction false} ValueGrows(n: nat, digits: seq<byte>)
    requires Digits(digits)
    ensures Value(n, digits) >= n
    decreases |digits|
  {
    if digits != [] {
      assert IsDigit(digits[0]);
      ValueGrows(n * 10 + (digits[0] as nat - 0x30), digits[1..]);
    }
  }

  /** Each further digit multiplies by ten. */
  lemma {:induction false} ValueAtLeast(n: nat, digits: seq<byte>, k: nat)
    requires Digits(digits) && k <= |digits|
    ensures Value(n, digits) >= n * Power10(k)
    decreases k
  {
    if k == 0 {
      ValueGrows(n, digits);
    } else {
      assert IsDigit(digits[0]);
      var m := n * 10 + (digits[0] as nat - 0x30);
      ValueAtLeast(m, digits[1..], k - 1);
      Power10Step(k);
      Scaled(n, m, Power10(k - 1));
    }
  }

  lemma Scaled(n: nat, m: nat, p: nat)
    requires m >= n * 10
    ensures m * p >= n * (10 * p)
  {
    assert (m - n * 10) * p >= 0;
    assert n * (10 * p) == n * 10 * p;
  }

  /** A number of more than twenty digits that does not start with zero does not fit 64 bits. */
  lemma LongNumber(digits: seq<byte>)
    requires Digits(digits) && |digits| > 20 && digits[0] != 48
    ensures Value(0, digits) > UINT64_MAX
  {
    assert IsDigit(digits[0]);
    var d := digits[0] as nat - 0x30;
    ValueAtLeast(d, digits[1..], 20);
    assert Value(0, digits) == Value(d, digits[1..]);
    assert Power10(4) == 10000;
    assert Power10(8) == 10000 * Power10(4);
    assert Power10(12) == 10000 * Power10(8);
    assert Power10(16) == 10000 * Power10(12);
    assert Power10(20) == 10000 * Power10(16);
  }

  /** Digits are accumulated while they fit; otherwise some are left. */
  lemma {:induction false} DigitsAccumulate(n: nat, digits: seq<byte>, tail: seq<byte>)
    requires n <= UINT64_MAX && Digits(digits)
    ensures if Value(n, digits) <= UINT64_MAX then Accumulate(digits + tail, n) == Accumulate(tail, Value(n, digits))
            else Accumulate(digits + tail, n).1 != []
    decreases |digits|
  {
    if digits == [] {
      assert digits + tail == tail;
    } else {
      assert IsDigit(digits[0]);
      var m := n * 10 + (digits[0] as nat - 0x30);
      ValueGrows(m, digits[1..]);
      assert (digits + tail)[1..] == digits[1..] + tail;
      if m <= UINT64_MAX {
        DigitsAccumulate(m, digits[1..], tail);
      }
    }
  }

  /** How the reader sees the characters of a number: sign, digits, and what is not a digit behind them. */
  lemma NumeralRead(minus: bool, digits: seq<byte>, tail: seq<byte>)
    requires Digits(digits) && digits != [] && (tail != [] ==> !IsDigit(tail[0]))
    ensures var n := Value(0, digits);
            ReadNumber((if minus then [MINUS] else []) + (digits + tail))
            == if tail != [] then Real
               else if minus then (if n <= 0x8000_0000_0000_0000 then Whole(0 - n) else Real)
               else if n <= UINT64_MAX then Whole(n) else Real
  {
    var s := (if minus then [MINUS] else []) + (digits + tail);
    var n := Value(0, digits);
    assert IsDigit(digits[0]);
    assert (digits + tail)[0] == digits[0];
    if minus {
      assert s[1..] == digits + tail;
    } else {
      assert s == digits + tail;
    }
    DigitsAccumulate(0, digits, tail);
    if n <= UINT64_MAX {
      assert Accumulate(tail, n) == (n, tail);
    }
  }

  /** What follows the digits of a number before the point. */
  function Tail(fraction: Option<seq<byte>>, exponent: Option<G.Exponent>): seq<byte> {
    (if fraction.Some? then [POINT] + fraction.value else []) + (if exponent.Some? then G.ExponentText(exponent.value) else [])
  }

  predicate AllInNumber(s: seq<byte>) {
    forall i :: 0 <= i < |s| ==> InNumber(s[i])
  }

  lemma AllInParts(a: seq<byte>, b: seq<byte>)
    requires AllInNumber(a) && AllInNumber(b)
    ensures AllInNumber(a + b)
  {
  }

  lemma DigitsInNumber(digits: seq<byte>)
    requires G.Digits(digits)
    ensures AllInNumber(digits) && Digits(digits) && digits != []
  {
  }

  lemma TailShape(fraction: Option<seq<byte>>, exponent: Option<G.Exponent>)
    requires fraction.Some? ==> G.Digits(fraction.value)
    requires exponent.Some? ==> G.LegalExponent(exponent.value)
    ensures var tail := Tail(fraction, exponent);
            && AllInNumber(tail) && (tail != [] ==> !IsDigit(tail[0]))
            && (tail == [] <==> fraction.None? && exponent.None?)
  {
    var a := if fraction.Some? then [POINT] + fraction.value else [];
    var b := if exponent.Some? then G.ExponentText(exponent.value) else [];
    if fraction.Some? {
      DigitsInNumber(fraction.value);
      AllInParts([POINT], fraction.value);
    }
    if exponent.Some? {
      var e := exponent.value;
      var sign := if e.sign.Some? then [e.sign.value] else [];
      DigitsInNumber(e.digits);
      AllInParts([e.letter], sign);
      AllInParts([e.letter] + sign, e.digits);
    }
    AllInParts(a, b);
  }

  lemma NumberShape(minus: bool, whole: seq<byte>, fraction: Option<seq<byte>>, exponent: Option<G.Exponent>)
    requires G.Legal(G.Number(minus, whole, fraction, exponent))
    ensures var text := G.NumberText(minus, whole, fraction, exponent);
            text == (if minus then [MINUS] else []) + (whole + Tail(fraction, exponent)) && AllInNumber(text)
  {
    hide G.ExponentText;
    var sign := if minus then [MINUS] else [];
    var a := if fraction.Some? then [POINT] + fraction.value else [];
    var b := if exponent.Some? then G.ExponentText(exponent.value) else [];
    Associative(sign, whole, a);
    Associative(sign, whole + a, b);
    Associative(whole, a, b);
    TailShape(fraction, exponent);
    DigitsInNumber(whole);
    AllInParts(whole, Tail(fraction, exponent));
    AllInParts(sign, whole + Tail(fraction, exponent));
  }

  lemma OnPrefix(input: seq<byte>, pos: nat, text: seq<byte>, k: nat)
    requires On(input, pos, text) && k <= |text|
    ensures On(input, pos, text[..k])
  {
    assert text[..k] + text[k..] == text;
    OnParts(input, pos, text[..k], text[k..]);
  }

  /** A number is an integer if it fits, and left to floating point otherwise, however many characters it has. */
  lemma NumericRead(input: seq<byte>, pos: nat, minus: bool, whole: seq<byte>, fraction: Option<seq<byte>>, exponent: Option<G.Exponent>)
    requires G.Legal(G.Number(minus, whole, fraction, exponent))
    requires var text := G.NumberText(minus, whole, fraction, exponent);
             On(input, pos, text) && !InNumber(Current(input, pos + |text|))
    ensures ReadNumeric(input, pos)
         == Result(NumberMeans(minus, whole, fraction, exponent), pos + |G.NumberText(minus, whole, fraction, exponent)|)
  {
    hide InNumber, Accumulate, Value, On, Tail, NumberText, ReadNumber;
    var text, tail := G.NumberText(minus, whole, fraction, exponent), Tail(fraction, exponent);
    var sign := if minus then [MINUS] else [];
    NumberShape(minus, whole, fraction, exponent);
    TailShape(fraction, exponent);
    DigitsInNumber(whole);
    if |text| <= 63 {
      NumberTextBack(input, pos, text, 63);
      NumeralRead(minus, whole, tail);
    } else {
      OnPrefix(input, pos, text, 63);
      NumberTextBack(input, pos, text[..63], 63);
      LongRead(minus, whole, tail);
      if tail == [] {
        LongNumber(whole);
      }
    }
  }

  /** The first 63 characters of a longer number do not make an integer. */
  lemma LongRead(minus: bool, whole: seq<byte>, tail: seq<byte>)
    requires Digits(whole) && whole != [] && (whole[0] == 48 ==> |whole| == 1) && (tail != [] ==> !IsDigit(tail[0]))
    requires |(if minus then [MINUS] else []) + (whole + tail)| > 63
    ensures ReadNumber(((if minus then [MINUS] else []) + (whole + tail))[..63]) == Real
  {
    hide ReadNumber, Value;
    var sign := if minus then [MINUS] else [];
    var text := sign + (whole + tail);
    var k := 63 - |sign|;
    assert text[..63] == sign + (whole + tail)[..k];
    if |whole| < k {
      assert (whole + tail)[..k] == whole + tail[..k - |whole|];
      NumeralRead(minus, whole, tail[..k - |whole|]);
    } else {
      assert (whole + tail)[..k] == whole[..k] + [];
      assert Digits(whole[..k]);
      LongNumber(whole[..k]);
      NumeralRead(minus, whole[..k], []);
    }
  }

  // ---- Values ----

  /** What may follow a value: nothing, for numbers, that could be part of it. */
  predicate EndsAt(input: seq<byte>, pos: nat, v: G.Value) {
    v.Number? ==> !InNumber(Current(input, pos))
  }

  lemma NumberStarts(minus: bool, whole: seq<byte>, fraction: Option<seq<byte>>, exponent: Option<G.Exponent>)
    requires G.Legal(G.Number(minus, whole, fraction, exponent))
    ensures var text := G.NumberText(minus, whole, fraction, exponent); text != [] && (text[0] == MINUS || IsDigit(text[0]))
  {
    hide Tail, G.NumberText;
    NumberShape(minus, whole, fraction, exponent);
    DigitsInNumber(whole);
    assert IsDigit(whole[0]);
    assert (whole + Tail(fraction, exponent))[0] == whole[0];
  }

  lemma WordRead(input: seq<byte>, pos: nat, word: seq<byte>, limit: nat, found: bool, before: Tree)
    requires On(input, pos, word) && G.Legal(G.Word(word))
    ensures ParseValue(input, pos, limit, found, before) == Result(Means(G.Word(word), limit, before), pos + |word|)
  {
    hide ParseList, ParseRecord, ReadQuoted, ReadNumeric, SkipWord, On;
    WordStarts(input, pos, word);
    WordBack(input, pos, word, if word == NULL_WORD then before else Boolean(word == TRUE_WORD));
  }

  lemma NumberRead(input: seq<byte>, pos: nat, v: G.Value, limit: nat, found: bool, before: Tree)
    requires v.Number? && G.Legal(v) && On(input, pos, G.Print(v)) && EndsAt(input, pos + |G.Print(v)|, v)
    ensures ParseValue(input, pos, limit, found, before) == Result(Means(v, limit, before), pos + |G.Print(v)|)
  {
    hide ParseList, ParseRecord, ReadQuoted, ReadNumeric, SkipWord, On, NumberMeans, G.NumberText;
    NumberStarts(v.minus, v.whole, v.fraction, v.exponent);
    WordStarts(input, pos, G.Print(v));
    NumericRead(input, pos, v.minus, v.whole, v.fraction, v.exponent);
  }

  lemma TextRead(input: seq<byte>, pos: nat, v: G.Value, limit: nat, found: bool, before: Tree)
    requires v.Text? && G.Legal(v) && On(input, pos, G.Print(v))
    ensures ParseValue(input, pos, limit, found, before) == Result(Means(v, limit, before), pos + |G.Print(v)|)
  {
    hide ParseList, ParseRecord, ReadQuoted, ReadNumeric, SkipWord, On, TextOf, G.Quoted;
    QuotedRead(input, pos, v.chars);
  }

  /** A value is read as what it means. */
  lemma {:induction false} ValueRead(input: seq<byte>, pos: nat, v: G.Value, limit: nat, found: bool, before: Tree)
    requires G.Legal(v) && On(input, pos, G.Print(v)) && EndsAt(input, pos + |G.Print(v)|, v)
    ensures ParseValue(input, pos, limit, found, before) == Result(Means(v, limit, before), pos + |G.Print(v)|)
    decreases v
  {
    hide ParseValue, G.Print, On, Means, EndsAt;
    match v
    case Word(text) =>
      PrintedWord(text);
      WordRead(input, pos, text, limit, found, before);
    case Number(_, _, _, _) => NumberRead(input, pos, v, limit, found, before);
    case Text(_) => TextRead(input, pos, v, limit, found, before);
    case List(blank, items) => ListRead(input, pos, blank, items, limit, found, before);
    case Record(blank, members) => RecordRead(input, pos, blank, members, limit, found, before);
  }

  lemma PrintedWord(text: seq<byte>)
    ensures G.Print(G.Word(text)) == text
  {
  }

  // ---- Lists ----

  /** Reading depends on a position only through the first character behind its blanks. */
  lemma SameValue(input: seq<byte>, pos: nat, other: nat, limit: nat, found: bool, before: Tree)
    requires SkipBlanks(input, pos) == SkipBlanks(input, other)
    ensures ParseValue(input, pos, limit, found, before) == ParseValue(input, other, limit, found, before)
  {
    hide ParseList, ParseRecord, ReadQuoted, ReadNumeric, SkipWord, SkipBlanks;
  }

  lemma SameItems(input: seq<byte>, pos: nat, other: nat, limit: nat, items: seq<Tree>)
    requires limit > 0 && SkipBlanks(input, pos) == SkipBlanks(input, other)
    ensures ParseItems(input, pos, limit, items) == ParseItems(input, other, limit, items)
  {
    hide ParseValue, SkipBlanks;
    SameValue(input, pos, other, limit - 1, true, Null);
  }

  lemma ValueStarts(v: G.Value)
    requires G.Legal(v)
    ensures G.Print(v) != []
    ensures var c := G.Print(v)[0]; !IsBlank(c) && c != 0 && c != CLOSE_LIST
  {
    if v.Number? {
      hide G.NumberText;
      NumberStarts(v.minus, v.whole, v.fraction, v.exponent);
    }
  }

  /** Behind a value come blanks, then a comma or a closing bracket: nothing that could be part of a number. */
  lemma NumberStops(input: seq<byte>, end: nat, after: seq<byte>, stop: byte)
    requires On(input, end, after) && G.Blank(after) && Current(input, end + |after|) == stop
    requires stop == COMMA || stop == CLOSE_LIST || stop == CLOSE_RECORD || stop == 0
    ensures !InNumber(Current(input, end)) && SkipBlanks(input, end) == end + |after|
  {
    BlanksSkipped(input, end, after);
    NoBlank(input, end + |after|);
    if after != [] {
      WordStarts(input, end, after);
      assert G.Ws(after[0]);
    }
  }

  /** Where the parts of the first of several items are. */
  lemma ItemPlaces(input: seq<byte>, at: nat, items: G.Items)
    requires items.Item? && On(input, at, G.PrintItems(items))
    ensures On(input, at, items.before) && On(input, at + |items.before|, G.Print(items.value))
    ensures On(input, at + |items.before| + |G.Print(items.value)|, items.after)
  {
    ItemText(items);
    hide *;
    Spread(input, at, G.PrintItems(items), items.before, G.Print(items.value), items.after, ItemTail(items.rest));
  }

  /** Behind a value the list ends, or a comma and further items follow. */
  lemma ItemsEnd(input: seq<byte>, at: nat, items: G.Items)
    requires items.Item? && items.rest.NoItems? && On(input, at, G.PrintItems(items))
    ensures at + |items.before| + |G.Print(items.value)| + |items.after| == at + |G.PrintItems(items)|
  {
    ItemText(items);
    hide *;
    Spread(input, at, G.PrintItems(items), items.before, G.Print(items.value), items.after, ItemTail(items.rest));
  }

  lemma ItemsFollow(input: seq<byte>, at: nat, items: G.Items)
    requires items.Item? && items.rest.Item? && On(input, at, G.PrintItems(items))
    ensures CommaAt(input, at + |items.before| + |G.Print(items.value)| + |items.after|, G.PrintItems(items.rest))
    ensures at + |items.before| + |G.Print(items.value)| + |items.after| + 1 + |G.PrintItems(items.rest)| == at + |G.PrintItems(items)|
  {
    ItemText(items);
    hide *;
    var tail := ItemTail(items.rest);
    Spread(input, at, G.PrintItems(items), items.before, G.Print(items.value), items.after, tail);
    CommaFirst(input, at + |items.before| + |G.Print(items.value)| + |items.after|, tail, G.PrintItems(items.rest));
  }

  /** A comma, and the text behind it. */
  predicate CommaAt(input: seq<byte>, at: nat, text: seq<byte>) {
    Current(input, at) == COMMA && On(input, at + 1, text)
  }

  lemma CommaFirst(input: seq<byte>, at: nat, tail: seq<byte>, text: seq<byte>)
    requires tail == [COMMA] + text && On(input, at, tail)
    ensures CommaAt(input, at, text) && |tail| == 1 + |text|
  {
    hide On;
    OnFirst(input, at, COMMA, text);
  }

  lemma Spread(input: seq<byte>, at: nat, text: seq<byte>, a: seq<byte>, b: seq<byte>, c: seq<byte>, d: seq<byte>)
    requires On(input, at, text) && text == a + (b + (c + d))
    ensures On(input, at, a) && On(input, at + |a|, b) && On(input, at + |a| + |b|, c) && On(input, at + |a| + |b| + |c|, d)
    ensures |text| == |a| + |b| + |c| + |d|
  {
    hide On;
    OnParts(input, at, a, b + (c + d));
    OnParts(input, at + |a|, b, c + d);
    OnParts(input, at + |a| + |b|, c, d);
  }

  function ItemTail(rest: G.Items): (r: seq<byte>)
    ensures rest.NoItems? ==> r == []
    ensures rest.Item? ==> r == [COMMA] + G.PrintItems(rest) && |r| == 1 + |G.PrintItems(rest)|
  {
    if rest.NoItems? then [] else [COMMA] + G.PrintItems(rest)
  }

  lemma ItemText(items: G.Items)
    requires items.Item?
    ensures G.PrintItems(items) == items.before + (G.Print(items.value) + (items.after + ItemTail(items.rest)))
  {
    hide G.Print;
  }

  lemma {:induction false} ListRead(input: seq<byte>, pos: nat, blank: seq<byte>, items: G.Items, limit: nat, found: bool, before: Tree)
    requires G.Legal(G.List(blank, items)) && On(input, pos, G.Print(G.List(blank, items)))
    ensures ParseValue(input, pos, limit, found, before)
         == Result(Means(G.List(blank, items), limit, before), pos + |G.Print(G.List(blank, items))|)
    decreases items, 1
  {
    hide ParseItems, G.PrintItems, On, ItemsMean, G.Blank, ReadQuoted, ReadNumeric, SkipWord, ParseRecord, SkipBlanks;
    var text := G.PrintItems(items);
    var at := pos + 1 + |blank|;
    P.BracketParts(input, pos, OPEN_LIST, blank, text, CLOSE_LIST);
    NoBlank(input, pos);
    if limit > 0 {
      BlanksSkipped(input, pos + 1, blank);
      if items.NoItems? {
        NothingInside(limit - 1);
        NoBlank(input, at);
      } else {
        ItemsBegin(input, at, items);
        var start := SkipBlanks(input, at);
        NoBlank(input, start);
        SameItems(input, start, at, limit, []);
        ItemsRead(input, at, limit, [], items);
      }
    }
  }

  lemma NothingInside(limit: nat)
    ensures G.PrintItems(G.NoItems) == [] && G.PrintMembers(G.NoMembers) == []
    ensures ItemsMean(G.NoItems, limit, []) == Is([]) && MembersMean(G.NoMembers, limit, []) == Is([])
  {
  }

  lemma ItemsBegin(input: seq<byte>, at: nat, items: G.Items)
    requires items.Item? && G.LegalItems(items) && On(input, at, G.PrintItems(items))
    ensures var start := SkipBlanks(input, at);
            Current(input, start) != 0 && Current(input, start) != CLOSE_LIST && !IsBlank(Current(input, start))
  {
    hide G.Print, G.PrintItems, On, G.Blank, SkipBlanks;
    ItemPlaces(input, at, items);
    BlanksSkipped(input, at, items.before);
    ValueStarts(items.value);
    WordStarts(input, at + |items.before|, G.Print(items.value));
    NoBlank(input, at + |items.before|);
  }

  /** The reader's way past one item and the blanks behind it. */
  lemma ItemStep(input: seq<byte>, at: nat, limit: nat, earlier: seq<Tree>, m: Meaning<Tree>, end: nat, next: nat)
    requires limit > 0 && ParseValue(input, at, limit - 1, true, Null) == Result(m, end) && SkipBlanks(input, end) == next
    requires Current(input, next) == COMMA || Current(input, next) == CLOSE_LIST
    ensures ParseItems(input, at, limit, earlier)
         == match m
            case Is(tree) =>
              if Current(input, next) == CLOSE_LIST then Good(earlier + [tree], next + 1)
              else ParseItems(input, next + 1, limit, earlier + [tree])
            case Deep => Bad(TooDeep)
            case Floating => Outside
  {
    hide ParseValue, SkipBlanks;
  }

  /** The items of a list are read as what they mean, up to the closing bracket. */
  lemma {:induction false} ItemsRead(input: seq<byte>, at: nat, limit: nat, earlier: seq<Tree>, items: G.Items)
    requires limit > 0 && items.Item? && G.LegalItems(items) && On(input, at, G.PrintItems(items))
    requires Current(input, at + |G.PrintItems(items)|) == CLOSE_LIST
    ensures ParseItems(input, at, limit, earlier)
         == Result(ItemsMean(items, limit - 1, earlier), at + |G.PrintItems(items)| + 1)
    decreases items, 0
  {
    hide ParseValue, ParseItems, G.Print, G.PrintItems, On, Means, G.Blank, G.Legal, SkipBlanks, InNumber;
    var valueAt := at + |items.before|;
    var end := valueAt + |G.Print(items.value)|;
    var next := end + |items.after|;
    var m := Means(items.value, limit - 1, Null);
    ItemPlaces(input, at, items);
    if items.rest.Item? {
      ItemsFollow(input, at, items);
    } else {
      ItemsEnd(input, at, items);
    }
    NumberStops(input, end, items.after, if items.rest.NoItems? then CLOSE_LIST else COMMA);
    ValueBehindBlanks(input, at, items.before, limit - 1, true, Null);
    ValueRead(input, valueAt, items.value, limit - 1, true, Null);
    ItemStep(input, at, limit, earlier, m, end, next);
    if items.rest.Item? && m.Is? {
      ItemsRead(input, next + 1, limit, earlier + [m.value], items.rest);
    }
  }

  // ---- Objects ----

  function MemberTail(rest: G.Members): (r: seq<byte>)
    ensures rest.NoMembers? ==> r == []
    ensures rest.Member? ==> r == [COMMA] + G.PrintMembers(rest) && |r| == 1 + |G.PrintMembers(rest)|
  {
    if rest.NoMembers? then [] else [COMMA] + G.PrintMembers(rest)
  }

  /** What stands behind the colon of the first of several members. */
  function BehindColon(members: G.Members): seq<byte>
    requires members.Member?
  {
    members.gap + (G.Print(members.value) + (members.after + MemberTail(members.rest)))
  }

  /** Where that colon is, and where the value and what follows it stand. */
  function ColonAt(at: nat, members: G.Members): nat
    requires members.Member?
  {
    at + |members.before| + |G.Quoted(members.key)| + |members.middle|
  }

  function ValueAt(at: nat, members: G.Members): nat
    requires members.Member?
  {
    ColonAt(at, members) + 1 + |members.gap|
  }

  function NextAt(at: nat, members: G.Members): nat
    requires members.Member?
  {
    ValueAt(at, members) + |G.Print(members.value)| + |members.after|
  }

  lemma KeyPlaces(input: seq<byte>, at: nat, members: G.Members)
    requires members.Member? && On(input, at, G.PrintMembers(members))
    ensures On(input, at, members.before) && On(input, at + |members.before|, G.Quoted(members.key))
    ensures On(input, at + |members.before| + |G.Quoted(members.key)|, members.middle)
  {
    MemberText(members);
    hide *;
    Spread(input, at, G.PrintMembers(members), members.before, G.Quoted(members.key), members.middle, [COLON] + BehindColon(members));
  }

  lemma ColonPlace(input: seq<byte>, at: nat, members: G.Members)
    requires members.Member? && On(input, at, G.PrintMembers(members))
    ensures Current(input, ColonAt(at, members)) == COLON && On(input, ColonAt(at, members) + 1, BehindColon(members))
    ensures at + |G.PrintMembers(members)| == ColonAt(at, members) + 1 + |BehindColon(members)|
  {
    MemberText(members);
    hide On, G.Print, G.PrintMembers, G.Quoted, BehindColon;
    Spread(input, at, G.PrintMembers(members), members.before, G.Quoted(members.key), members.middle, [COLON] + BehindColon(members));
    OnFirst(input, ColonAt(at, members), COLON, BehindColon(members));
  }

  lemma ValuePlaces(input: seq<byte>, at: nat, members: G.Members)
    requires members.Member? && On(input, at, G.PrintMembers(members))
    ensures On(input, ColonAt(at, members) + 1, members.gap) && On(input, ValueAt(at, members), G.Print(members.value))
    ensures On(input, ValueAt(at, members) + |G.Print(members.value)|, members.after)
    ensures On(input, NextAt(at, members), MemberTail(members.rest))
    ensures at + |G.PrintMembers(members)| == NextAt(at, members) + |MemberTail(members.rest)|
  {
    hide On, Current, G.Print, G.PrintMembers, G.Quoted, MemberTail, ColonAt;
    ColonPlace(input, at, members);
    Spread(input, ColonAt(at, members) + 1, BehindColon(members), members.gap, G.Print(members.value), members.after, MemberTail(members.rest));
  }

  /** Behind a value the object ends, or a comma and further members follow. */
  lemma MembersEnd(input: seq<byte>, at: nat, members: G.Members)
    requires members.Member? && members.rest.NoMembers? && On(input, at, G.PrintMembers(members))
    ensures NextAt(at, members) == at + |G.PrintMembers(members)|
  {
    hide *;
    ValuePlaces(input, at, members);
  }

  lemma MembersFollow(input: seq<byte>, at: nat, members: G.Members)
    requires members.Member? && members.rest.Member? && On(input, at, G.PrintMembers(members))
    ensures CommaAt(input, NextAt(at, members), G.PrintMembers(members.rest))
    ensures NextAt(at, members) + 1 + |G.PrintMembers(members.rest)| == at + |G.PrintMembers(members)|
  {
    hide *;
    ValuePlaces(input, at, members);
    CommaFirst(input, NextAt(at, members), MemberTail(members.rest), G.PrintMembers(members.rest));
  }

  lemma MemberText(members: G.Members)
    requires members.Member?
    ensures G.PrintMembers(members) == members.before + (G.Quoted(members.key) + (members.middle + ([COLON] + BehindColon(members))))
  {
    hide G.Quoted, G.Print;
  }

  lemma {:induction false} RecordRead(input: seq<byte>, pos: nat, blank: seq<byte>, members: G.Members, limit: nat, found: bool, before: Tree)
    requires G.Legal(G.Record(blank, members)) && On(input, pos, G.Print(G.Record(blank, members)))
    ensures ParseValue(input, pos, limit, found, before)
         == Result(Means(G.Record(blank, members), limit, before), pos + |G.Print(G.Record(blank, members))|)
    decreases members, 1
  {
    hide ParseMembers, G.PrintMembers, On, MembersMean, G.Blank, ReadQuoted, ReadNumeric, SkipWord, ParseList, SkipBlanks;
    var text := G.PrintMembers(members);
    var at := pos + 1 + |blank|;
    P.BracketParts(input, pos, OPEN_RECORD, blank, text, CLOSE_RECORD);
    NoBlank(input, pos);
    if limit > 0 {
      BlanksSkipped(input, pos + 1, blank);
      if members.NoMembers? {
        NothingInside(limit - 1);
        NoBlank(input, at);
      } else {
        MembersBegin(input, at, members);
        MembersRead(input, at, limit, [], members);
      }
    }
  }

  lemma MembersBegin(input: seq<byte>, at: nat, members: G.Members)
    requires members.Member? && G.LegalMembers(members) && On(input, at, G.PrintMembers(members))
    ensures SkipBlanks(input, at) == at + |members.before| && Current(input, at + |members.before|) == QUOTE
  {
    hide G.Print, G.PrintMembers, On, G.Blank, SkipBlanks, G.Quoted, TextOf, ReadQuoted;
    KeyPlaces(input, at, members);
    BlanksSkipped(input, at, members.before);
    QuotedRead(input, at + |members.before|, members.key);
    NoBlank(input, at + |members.before|);
  }

  /** The reader's way past one member. */
  lemma MemberStep(input: seq<byte>, keyAt: nat, limit: nat, earlier: seq<Pair>, chars: seq<G.Char>, middleAt: nat, colon: nat,
                   m: Meaning<Tree>, end: nat, next: nat)
    requires limit > 0 && G.LegalChars(chars) && ReadKey(input, keyAt) == Good(TextOf(chars), middleAt)
    requires SkipBlanks(input, middleAt) == colon && Current(input, colon) == COLON
    requires ParseValue(input, colon + 1, limit - 1, true, Before(earlier, Cut(TextOf(chars)))) == Result(m, end)
    requires SkipBlanks(input, end) == next && (Current(input, next) == COMMA || Current(input, next) == CLOSE_RECORD)
    requires Current(input, next) == COMMA ==> Current(input, SkipBlanks(input, next + 1)) == QUOTE
    ensures ParseMembers(input, keyAt, limit, earlier)
         == match m
            case Is(tree) =>
              var more := Put(earlier, Cut(TextOf(chars)), tree);
              if Current(input, next) == CLOSE_RECORD then Good(more, next + 1)
              else ParseMembers(input, SkipBlanks(input, next + 1), limit, more)
            case Deep => Bad(TooDeep)
            case Floating => Outside
  {
    hide ParseValue, SkipBlanks, ReadKey, TextOf, Put, Before, Cut;
  }

  /** The members of an object are read as what they mean, up to the closing bracket. */
  lemma {:induction false} MembersRead(input: seq<byte>, at: nat, limit: nat, earlier: seq<Pair>, members: G.Members)
    requires limit > 0 && members.Member? && G.LegalMembers(members) && On(input, at, G.PrintMembers(members))
    requires Current(input, at + |G.PrintMembers(members)|) == CLOSE_RECORD
    ensures ParseMembers(input, at + |members.before|, limit, earlier)
         == Result(MembersMean(members, limit - 1, earlier), at + |G.PrintMembers(members)| + 1)
    decreases members, 0
  {
    hide ParseValue, ParseMembers, G.Print, G.PrintMembers, On, Means, G.Blank, G.Legal, SkipBlanks, InNumber, TextOf, G.Quoted,
         Put, Before, Cut, ReadQuoted, MemberTail, BehindColon;
    var keyAt := at + |members.before|;
    var middleAt := keyAt + |G.Quoted(members.key)|;
    var colon := ColonAt(at, members);
    var valueAt := ValueAt(at, members);
    var end := valueAt + |G.Print(members.value)|;
    var next := NextAt(at, members);
    var held := Before(earlier, Cut(TextOf(members.key)));
    var m := Means(members.value, limit - 1, held);
    KeyPlaces(input, at, members);
    ColonPlace(input, at, members);
    ValuePlaces(input, at, members);
    if members.rest.Member? {
      MembersFollow(input, at, members);
    } else {
      MembersEnd(input, at, members);
    }
    QuotedRead(input, keyAt, members.key);
    BlanksSkipped(input, middleAt, members.middle);
    NoBlank(input, colon);
    NumberStops(input, end, members.after, if members.rest.NoMembers? then CLOSE_RECORD else COMMA);
    ValueBehindBlanks(input, colon + 1, members.gap, limit - 1, true, held);
    ValueRead(input, valueAt, members.value, limit - 1, true, held);
    if members.rest.Member? {
      MembersBegin(input, next + 1, members.rest);
    }
    MemberStep(input, keyAt, limit, earlier, members.key, middleAt, colon, m, end, next);
    if members.rest.Member? && m.Is? {
      MembersRead(input, next + 1, limit, Put(earlier, Cut(TextOf(members.key)), m.value), members.rest);
    }
  }

  // ---- Texts ----

  /**
   Any JSON text of RFC 8259, with any blanks around and inside it, is deserialized as what it means, nesting up to the
   limit. There is one exception: an integer on its own is rejected when blanks follow it.
   */
  lemma ReadsAnyText(before: seq<byte>, v: G.Value, after: seq<byte>, limit: nat)
    requires G.Blank(before) && G.Legal(v) && G.Blank(after)
    ensures var m := Means(v, limit, Null);
            Deserialize(before + (G.Print(v) + after), limit)
            == if m.Is? && m.value.Integer? && after != [] then Bad(InvalidInput) else Result(m, |before| + |G.Print(v)|)
  {
    hide ParseValue, G.Print, Means, G.Legal, InNumber, SkipBlanks;
    var input := before + (G.Print(v) + after);
    var end := |before| + |G.Print(v)|;
    assert input[0..|input|] == input;
    OnParts(input, 0, before, G.Print(v) + after);
    OnParts(input, |before|, G.Print(v), after);
    NumberStops(input, end, after, 0);
    ValueBehindBlanks(input, 0, before, limit, false, Null);
    ValueRead(input, |before|, v, limit, false, Null);
    if after != [] {
      WordStarts(input, end, after);
      assert G.Ws(after[0]);
    }
  }
}
