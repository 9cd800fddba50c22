/** JSON text as ArduinoJson writes and reads it, as functions on byte sequences. */
module JsonTextSpec {
  import opened Common
  import opened JsonTree

  const QUOTE: byte := 34
  const APOSTROPHE: byte := 39
  const BACKSLASH: byte := 92
  const COMMA: byte := 44
  const COLON: byte := 58
  const OPEN_LIST: byte := 91
  const CLOSE_LIST: byte := 93
  const OPEN_RECORD: byte := 123
  const CLOSE_RECORD: byte := 125
  const MINUS: byte := 45
  const PLUS: byte := 43
  const POINT: byte := 46

  const NULL_WORD: seq<byte> := [110, 117, 108, 108]
  const TRUE_WORD: seq<byte> := [116, 114, 117, 101]
  const FALSE_WORD: seq<byte> := [102, 97, 108, 115, 101]
  const ZERO_ESCAPE: seq<byte> := [92, 117, 48, 48, 48, 48]

  // ---- Escapes ----

  /** The letter a character is escaped with, zero for none. */
  function Escape(c: byte): byte {
    if c == QUOTE then QUOTE else if c == BACKSLASH then BACKSLASH
    else if c == 8 then 98 else if c == 12 then 102 else if c == 10 then 110 else if c == 13 then 114 else if c == 9 then 116
    else 0
  }

  /** The character an escape letter stands for, zero for none; a solidus may be escaped, too. */
  function Unescape(c: byte): byte {
    if c == 47 then 47 else if c == QUOTE then QUOTE else if c == BACKSLASH then BACKSLASH
    else if c == 98 then 8 else if c == 102 then 12 else if c == 110 then 10 else if c == 114 then 13 else if c == 116 then 9
    else 0
  }

  // ---- Writing ----

  function PrintChar(c: byte): (r: seq<byte>)
    ensures r != []
  {
    if Escape(c) != 0 then [BACKSLASH, Escape(c)] else if c != 0 then [c] else ZERO_ESCAPE
  }

  function PrintChars(s: seq<byte>): seq<byte>
    decreases |s|
  {
    if s == [] then [] else PrintChar(s[0]) + PrintChars(s[1..])
  }

  function PrintString(s: seq<byte>): seq<byte> {
    [QUOTE] + (PrintChars(s) + [QUOTE])
  }

  function PrintInteger(n: int): seq<byte> {
    if n < 0 then [MINUS] + Decimal(-n) else Decimal(n)
  }

  function Print(t: Tree): (r: seq<byte>)
    decreases t
  {
    match t
    case Null => NULL_WORD
    case Boolean(b) => if b then TRUE_WORD else FALSE_WORD
    case Integer(n) => PrintInteger(n)
    case Text(bytes) => PrintString(bytes)
    case List(items) => [OPEN_LIST] + (PrintItems(items) + [CLOSE_LIST])
    case Record(members) => [OPEN_RECORD] + (PrintMembers(members) + [CLOSE_RECORD])
  }

  function PrintItems(items: seq<Tree>): seq<byte>
    decreases items
  {
    if items == [] then []
    else Print(items[0]) + (if |items| == 1 then [] else [COMMA] + PrintItems(items[1..]))
  }

  /** A key is written up to its first zero byte. */
  function PrintMembers(members: seq<Pair>): seq<byte>
    decreases members
  {
    if members == [] then []
    else
      PrintString(Cut(members[0].key)) + ([COLON] + (Print(members[0].value)
      + (if |members| == 1 then [] else [COMMA] + PrintMembers(members[1..]))))
  }

  // ---- Reading characters ----

  /** The character at a position, zero behind the end. */
  function Current(input: seq<byte>, pos: nat): byte {
    if pos < |input| then input[pos] else 0
  }

  function Next(input: seq<byte>, pos: nat): nat {
    if pos < |input| then pos + 1 else pos
  }

  predicate IsBlank(c: byte) {
    c == 32 || c == 9 || c == 13 || c == 10
  }

  function SkipBlanks(input: seq<byte>, pos: nat): (r: nat)
    ensures r >= pos && !IsBlank(Current(input, r)) && (pos <= |input| ==> r <= |input|)
    decreases |input| - pos
  {
    if IsBlank(Current(input, pos)) then SkipBlanks(input, pos + 1) else pos
  }

  function SkipWord(input: seq<byte>, pos: nat, word: seq<byte>, value: Tree): (r: Parsed<Tree>)
    requires 0 !in word
    ensures r.Good? ==> r.value == value && r.pos == pos + |word| && (word != [] ==> r.pos <= |input|)
    ensures !r.Outside?
    decreases |word|
  {
    if word == [] then Good(value, pos)
    else
      var c := Current(input, pos);
      if c == 0 then Bad(IncompleteInput)
      else if c != word[0] then Bad(InvalidInput)
      else SkipWord(input, pos + 1, word[1..], value)
  }

  // ---- Reading strings ----

  function HexValue(c: byte): nat {
    if c < 65 then (c as int - 48) % 256
    else ((if c as int / 32 % 2 == 1 then c as int - 32 else c as int) - 65 + 10) % 256
  }

  /** Four hexadecimal digits, `n` of them left to read. */
  function ReadHex(input: seq<byte>, pos: nat, n: nat, value: nat): (r: Parsed<nat>)
    ensures r.Good? ==> r.pos == pos + n && (n > 0 ==> r.pos <= |input|)
    ensures !r.Outside?
    ensures r.Good? && value < 0x10000 ==> r.value < 0x10000
    decreases n
  {
    if n == 0 then Good(value, pos)
    else
      var c := Current(input, pos);
      if c == 0 then Bad(IncompleteInput)
      else if HexValue(c) > 15 then Bad(InvalidInput)
      else ReadHex(input, pos + 1, n - 1, (value * 16 + HexValue(c)) % 0x10000)
  }

  /** The UTF-8 bytes of a code point. */
  function Utf8(codepoint: nat): seq<byte>
    requires codepoint < 0x110000
  {
    if codepoint < 0x80 then [codepoint as byte]
    else
      var low := (0x80 + codepoint % 64) as byte;
      var rest := codepoint / 64;
      if rest < 0x20 then [(0xC0 + rest) as byte, low]
      else
        var middle := (0x80 + rest % 64) as byte;
        var rest := rest / 64;
        if rest < 0x10 then [(0xE0 + rest) as byte, middle, low]
        else [(0xF0 + rest / 64) as byte, (0x80 + rest % 64) as byte, middle, low]
  }

  /** A code unit taken: the bytes it completes, none for a high surrogate, and the high surrogate kept. */
  function TakeUnit(unit: nat, high: nat): (r: (seq<byte>, nat))
    requires unit < 0x10000 && high < 0x400
    ensures r.1 < 0x400
  {
    if 0xD800 <= unit < 0xDC00 then ([], unit % 0x400)
    else if 0xDC00 <= unit < 0xE000 then (Utf8(0x10000 + high * 0x400 + unit % 0x400), high)
    else (Utf8(unit), high)
  }

  function Prepend(bytes: seq<byte>, rest: Parsed<seq<byte>>): Parsed<seq<byte>> {
    match rest
    case Good(more, pos) => Good(bytes + more, pos)
    case Bad(code) => Bad(code)
    case Outside => Outside
  }

  /** A string up to its closing quote `stop`. */
  function ReadQuoted(input: seq<byte>, pos: nat, stop: byte, high: nat): (r: Parsed<seq<byte>>)
    requires stop != 0 && high < 0x400
    ensures r.Good? ==> pos < r.pos <= |input|
    ensures !r.Outside?
    decreases |input| - pos
  {
    var c := Current(input, pos);
    if c == stop then Good([], pos + 1)
    else if c == 0 then Bad(IncompleteInput)
    else if c == BACKSLASH then
      var e := Current(input, pos + 1);
      if e == 0 then Bad(IncompleteInput)
      else if e == 117 then
        match ReadHex(input, pos + 2, 4, 0)
        case Bad(code) => Bad(code)
        case Good(unit, next) =>
          var (bytes, kept) := TakeUnit(unit, high);
          Prepend(bytes, ReadQuoted(input, next, stop, kept))
      else if Unescape(e) == 0 then Bad(InvalidInput)
      else Prepend([Unescape(e)], ReadQuoted(input, pos + 2, stop, high))
    else Prepend([c], ReadQuoted(input, pos + 1, stop, high))
  }

  predicate InBareKey(c: byte) {
    48 <= c <= 57 || 95 <= c <= 122 || 65 <= c <= 90
  }

  function ReadBare(input: seq<byte>, pos: nat): (r: seq<byte>)
    ensures |r| <= |input| - pos || r == []
    decreases |input| - pos
  {
    if InBareKey(Current(input, pos)) then [Current(input, pos)] + ReadBare(input, pos + 1) else []
  }

  predicate IsQuote(c: byte) {
    c == QUOTE || c == APOSTROPHE
  }

  /** A key, with or without quotes. */
  function ReadKey(input: seq<byte>, pos: nat): (r: Parsed<seq<byte>>)
    ensures r.Good? ==> pos < r.pos <= |input|
    ensures !r.Outside?
  {
    var c := Current(input, pos);
    if IsQuote(c) then ReadQuoted(input, pos + 1, c, 0)
    else if ReadBare(input, pos) == [] then Bad(InvalidInput)
    else Good(ReadBare(input, pos), pos + |ReadBare(input, pos)|)
  }

  // ---- Reading numbers ----

  predicate InNumber(c: byte) {
    IsDigit(c) || c == PLUS || c == MINUS || c == POINT || c == 101 || c == 69
  }

  /** The characters of a number, 63 at most. */
  function NumberText(input: seq<byte>, pos: nat, room: nat): (r: seq<byte>)
    ensures |r| <= room && (pos <= |input| ==> pos + |r| <= |input|)
    decreases room
  {
    if room > 0 && InNumber(Current(input, pos)) then [Current(input, pos)] + NumberText(input, pos + 1, room - 1) else []
  }

  datatype Numeral = NoNumber | Whole(n: int) | Real

  /** Leading digits accumulated onto `mantissa`, as long as it fits 64 bits: the mantissa and what is left. */
  function Accumulate(s: seq<byte>, mantissa: nat): (nat, seq<byte>)
    decreases |s|
  {
    if s == [] || !IsDigit(s[0]) then (mantissa, s)
    else if mantissa > UINT64_MAX / 10 then (mantissa, s)
    else if mantissa * 10 > UINT64_MAX - (s[0] as int - 48) then (mantissa * 10, s)
    else Accumulate(s[1..], mantissa * 10 + (s[0] as nat - 48))
  }

  /** Whole numbers are converted exactly; everything else is left to floating point. */
  function ReadNumber(s: seq<byte>): Numeral {
    var negative := s != [] && s[0] == MINUS;
    var digits := if s != [] && (s[0] == MINUS || s[0] == PLUS) then s[1..] else s;
    if digits == [] || (!IsDigit(digits[0]) && digits[0] != POINT) then NoNumber
    else
      var (mantissa, rest) := Accumulate(digits, 0);
      if rest != [] then Real
      else if !negative then Whole(mantissa as int)
      else if mantissa <= -INT64_MIN then Whole(-(mantissa as int))
      else Real
  }

  function ReadNumeric(input: seq<byte>, pos: nat): (r: Parsed<Tree>)
    ensures r.Good? ==> pos < r.pos <= |input|
  {
    var text := NumberText(input, pos, 63);
    match ReadNumber(text)
    case NoNumber => Bad(InvalidInput)
    case Whole(n) => Good(Integer(n), pos + |text|)
    case Real => Outside
  }

  // ---- Reading values ----

  /** A value; `before` is what the variant holds beforehand, which `null` leaves in place. */
  function ParseValue(input: seq<byte>, pos: nat, limit: nat, found: bool, before: Tree): (r: Parsed<Tree>)
    ensures r.Good? ==> pos < r.pos <= |input|
    decreases limit, |input| - pos, 3
  {
    var at := SkipBlanks(input, pos);
    var c := Current(input, at);
    if c == 0 then Bad(if found then IncompleteInput else EmptyInput)
    else if c == OPEN_LIST then (if limit == 0 then Bad(TooDeep) else ParseList(input, at + 1, limit))
    else if c == OPEN_RECORD then (if limit == 0 then Bad(TooDeep) else ParseRecord(input, at + 1, limit))
    else if IsQuote(c) then
      match ReadQuoted(input, at + 1, c, 0)
      case Good(bytes, next) => Good(Text(bytes), next)
      case Bad(code) => Bad(code)
    else if c == 116 then SkipWord(input, at, TRUE_WORD, Boolean(true))
    else if c == 102 then SkipWord(input, at, FALSE_WORD, Boolean(false))
    else if c == 110 then SkipWord(input, at, NULL_WORD, before)
    else ReadNumeric(input, at)
  }

  function ParseList(input: seq<byte>, pos: nat, limit: nat): (r: Parsed<Tree>)
    requires limit > 0
    ensures r.Good? ==> pos < r.pos <= |input| && r.value.List?
    decreases limit, |input| - pos, 2
  {
    var at := SkipBlanks(input, pos);
    if Current(input, at) == 0 then Bad(IncompleteInput)
    else if Current(input, at) == CLOSE_LIST then Good(List([]), at + 1)
    else
      match ParseItems(input, at, limit, [])
      case Good(items, next) => Good(List(items), next)
      case Bad(code) => Bad(code)
      case Outside => Outside
  }

  /** The items from `pos` on, behind those in `items`. */
  function ParseItems(input: seq<byte>, pos: nat, limit: nat, items: seq<Tree>): (r: Parsed<seq<Tree>>)
    requires limit > 0
    ensures r.Good? ==> pos < r.pos <= |input|
    decreases limit, |input| - pos, 0
  {
    match ParseValue(input, pos, limit - 1, true, Null)
    case Bad(code) => Bad(code)
    case Outside => Outside
    case Good(value, next) =>
      var at := SkipBlanks(input, next);
      var c := Current(input, at);
      if c == 0 then Bad(IncompleteInput)
      else if c == CLOSE_LIST then Good(items + [value], at + 1)
      else if c != COMMA then Bad(InvalidInput)
      else ParseItems(input, at + 1, limit, items + [value])
  }

  function ParseRecord(input: seq<byte>, pos: nat, limit: nat): (r: Parsed<Tree>)
    requires limit > 0
    ensures r.Good? ==> pos < r.pos <= |input| && r.value.Record?
    decreases limit, |input| - pos, 2
  {
    var at := SkipBlanks(input, pos);
    if Current(input, at) == 0 then Bad(IncompleteInput)
    else if Current(input, at) == CLOSE_RECORD then Good(Record([]), at + 1)
    else
      match ParseMembers(input, at, limit, [])
      case Good(members, next) => Good(Record(members), next)
      case Bad(code) => Bad(code)
      case Outside => Outside
  }

  /** One member: a key, and a value that is set in `members`. */
  function ParseMember(input: seq<byte>, pos: nat, limit: nat, members: seq<Pair>): (r: Parsed<seq<Pair>>)
    requires limit > 0
    ensures r.Good? ==> pos < r.pos <= |input|
    decreases limit, |input| - pos, 0
  {
    match ReadKey(input, pos)
    case Bad(code) => Bad(code)
    case Good(text, next) =>
      var key := Cut(text);
      var colon := SkipBlanks(input, next);
      if Current(input, colon) == 0 then Bad(IncompleteInput)
      else if Current(input, colon) != COLON then Bad(InvalidInput)
      else
        match ParseValue(input, colon + 1, limit - 1, true, Before(members, key))
        case Bad(code) => Bad(code)
        case Outside => Outside
        case Good(value, end) => Good(Put(members, key, value), end)
  }

  /** The members from `pos` on, set in `members` one after the other. */
  function ParseMembers(input: seq<byte>, pos: nat, limit: nat, members: seq<Pair>): (r: Parsed<seq<Pair>>)
    requires limit > 0
    ensures r.Good? ==> pos < r.pos <= |input|
    decreases limit, |input| - pos, 1
  {
    match ParseMember(input, pos, limit, members)
    case Bad(code) => Bad(code)
    case Outside => Outside
    case Good(more, end) =>
      var at := SkipBlanks(input, end);
      var c := Current(input, at);
      if c == 0 then Bad(IncompleteInput)
      else if c == CLOSE_RECORD then Good(more, at + 1)
      else if c != COMMA then Bad(InvalidInput)
      else
        var following := SkipBlanks(input, at + 1);
        if Current(input, following) == 0 then Bad(IncompleteInput)
        else ParseMembers(input, following, limit, more)
  }

  /** A whole text: a number must not be followed by anything. */
  function Deserialize(input: seq<byte>, limit: nat): Parsed<Tree> {
    match ParseValue(input, 0, limit, false, Null)
    case Bad(code) => Bad(code)
    case Outside => Outside
    case Good(value, pos) =>
      if Current(input, pos) != 0 && value.Integer? then Bad(InvalidInput) else Good(value, pos)
  }
}
