/**
 What a JSON text means (RFC 8259), said over the grammar of such texts with their blanks and escapes: the document it
 stands for, and where the deserializer has to stop short of it. `JsonReading` proves that every text is read as this.
 */
module JsonMeaning {
  import opened Common
  import opened JsonTree
  import opened JsonTextSpec
  import G = JsmnGrammar

  // ---- UTF-8 ----

  predicate Continues(b: byte) {
    0x80 <= b < 0xC0
  }

  function Payload(b: byte): nat
    requires Continues(b)
  {
    b as nat - 0x80
  }

  /** A code point, unless it is too small for its number of bytes or no code point at all. */
  function InRange(least: nat, codepoint: nat): Option<nat> {
    if least <= codepoint < 0x110000 then Some(codepoint) else None
  }

  /** The code point that a sequence of bytes encodes (section 3 of RFC 3629), if it is as short as it can be. */
  function Decoded(s: seq<byte>): Option<nat> {
    if |s| == 1 && s[0] < 0x80 then Some(s[0] as nat)
    else if |s| == 2 && 0xC0 <= s[0] < 0xE0 && Continues(s[1]) then
      InRange(0x80, (s[0] as nat - 0xC0) * 0x40 + Payload(s[1]))
    else if |s| == 3 && 0xE0 <= s[0] < 0xF0 && Continues(s[1]) && Continues(s[2]) then
      InRange(0x800, (s[0] as nat - 0xE0) * 0x1000 + Payload(s[1]) * 0x40 + Payload(s[2]))
    else if |s| == 4 && 0xF0 <= s[0] < 0xF8 && Continues(s[1]) && Continues(s[2]) && Continues(s[3]) then
      InRange(0x10000, (s[0] as nat - 0xF0) * 0x40000 + Payload(s[1]) * 0x1000 + Payload(s[2]) * 0x40 + Payload(s[3]))
    else None
  }

  /** Decoding what the deserializer writes for a code point gives the code point; it takes one, two, three or four bytes. */
  lemma Utf8Decodes(codepoint: nat)
    requires codepoint < 0x110000
    ensures Decoded(Utf8(codepoint)) == Some(codepoint)
    ensures |Utf8(codepoint)| == if codepoint < 0x80 then 1 else if codepoint < 0x800 then 2 else if codepoint < 0x10000 then 3 else 4
  {
    var a := codepoint / 0x40;
    var b := a / 0x40;
    assert codepoint == a * 0x40 + codepoint % 0x40 && a == b * 0x40 + a % 0x40 && b == b / 0x40 * 0x40 + b % 0x40;
  }

  // ---- Strings ----

  /** What a letter behind a backslash stands for. */
  function Control(letter: byte): byte {
    match letter as int
    case 0x62 => 0x08
    case 0x66 => 0x0C
    case 0x6E => 0x0A
    case 0x72 => 0x0D
    case 0x74 => 0x09
    case _ => letter
  }

  function Digit(c: byte): nat
    requires G.HexDigit(c)
  {
    if c < 0x41 then c as nat - 0x30 else if c < 0x61 then c as nat - 0x41 + 10 else c as nat - 0x61 + 10
  }

  predicate IsUnit(h: seq<byte>) {
    |h| == 4 && forall i :: 0 <= i < 4 ==> G.HexDigit(h[i])
  }

  /** The UTF-16 code unit in four hexadecimal digits. */
  function Unit(h: seq<byte>): (r: nat)
    requires IsUnit(h)
    ensures r < 0x10000
  {
    Digit(h[0]) * 0x1000 + Digit(h[1]) * 0x100 + Digit(h[2]) * 0x10 + Digit(h[3])
  }

  predicate High(unit: nat) {
    0xD800 <= unit < 0xDC00
  }

  predicate Low(unit: nat) {
    0xDC00 <= unit < 0xE000
  }

  /** The code point of a surrogate pair. */
  function Paired(high: nat, low: nat): (r: nat)
    requires High(high) && Low(low)
    ensures 0x10000 <= r < 0x110000
  {
    0x10000 + (high - 0xD800) * 0x400 + (low - 0xDC00)
  }

  predicate LowNext(chars: seq<G.Char>)
    requires G.LegalChars(chars)
  {
    chars != [] && chars[0].Unicode? && Low(Unit(chars[0].h))
  }

  /**
   The bytes of a string: its characters, escapes replaced by what they stand for, code points as UTF-8. A pair of
   surrogates is one code point. Surrogates without their other half stand for no code point: of such a high one nothing
   is kept, a low one is joined to `high`, the latest high one before it in the string.
   */
  function StringBytes(chars: seq<G.Char>, high: nat): seq<byte>
    requires G.LegalChars(chars) && High(high)
    decreases |chars|
  {
    if chars == [] then []
    else
      match chars[0]
      case Itself(b) => [b] + StringBytes(chars[1..], high)
      case Escaped(letter) => [Control(letter)] + StringBytes(chars[1..], high)
      case Unicode(h) =>
        var unit := Unit(h);
        if High(unit) then
          if LowNext(chars[1..]) then Utf8(Paired(unit, Unit(chars[1].h))) + StringBytes(chars[2..], unit)
          else StringBytes(chars[1..], unit)
        else if Low(unit) then Utf8(Paired(high, unit)) + StringBytes(chars[1..], high)
        else Utf8(unit) + StringBytes(chars[1..], high)
  }

  /** A string starts with no surrogate to join. */
  function TextOf(chars: seq<G.Char>): seq<byte>
    requires G.LegalChars(chars)
  {
    StringBytes(chars, 0xD800)
  }

  // ---- Values ----

  /** The number with these digits behind those of `n`. */
  function Value(n: nat, digits: seq<byte>): nat
    requires Digits(digits)
    decreases |digits|
  {
    if digits == [] then n
    else
      assert IsDigit(digits[0]);
      Value(n * 10 + (digits[0] as nat - 0x30), digits[1..])
  }

  /** A number without fraction and exponent that fits 64 bits is an integer. */
  function NumberMeans(minus: bool, whole: seq<byte>, fraction: Option<seq<byte>>, exponent: Option<G.Exponent>): Meaning<Tree>
    requires G.Digits(whole)
  {
    var n: int := Value(0, whole);
    if fraction.Some? || exponent.Some? then Floating
    else if minus then (if n <= 0x8000_0000_0000_0000 then Is(Integer(-n)) else Floating)
    else if n < 0x1_0000_0000_0000_0000 then Is(Integer(n))
    else Floating
  }

  /** A value nested at most `limit` deep; `before` is what `null` stands for where a member is set again. */
  function Means(v: G.Value, limit: nat, before: Tree): Meaning<Tree>
    requires G.Legal(v)
    decreases v
  {
    match v
    case Word(text) => Is(if text == G.TRUE_WORD then Boolean(true) else if text == G.FALSE_WORD then Boolean(false) else before)
    case Number(minus, whole, fraction, exponent) => NumberMeans(minus, whole, fraction, exponent)
    case Text(chars) => Is(Text(TextOf(chars)))
    case List(_, items) =>
      if limit == 0 then Deep
      else
        (match ItemsMean(items, limit - 1, [])
         case Is(trees) => Is(List(trees))
         case Deep => Deep
         case Floating => Floating)
    case Record(_, members) =>
      if limit == 0 then Deep
      else
        match MembersMean(members, limit - 1, [])
        case Is(pairs) => Is(Record(pairs))
        case Deep => Deep
        case Floating => Floating
  }

  /** The items behind those in `earlier`. */
  function ItemsMean(items: G.Items, limit: nat, earlier: seq<Tree>): Meaning<seq<Tree>>
    requires G.LegalItems(items)
    decreases items
  {
    match items
    case NoItems => Is(earlier)
    case Item(_, value, _, rest) =>
      match Means(value, limit, Null)
      case Is(tree) => ItemsMean(rest, limit, earlier + [tree])
      case Deep => Deep
      case Floating => Floating
  }

  /** The members set one after the other in `earlier`, their keys cut at the first zero byte. */
  function MembersMean(members: G.Members, limit: nat, earlier: seq<Pair>): Meaning<seq<Pair>>
    requires G.LegalMembers(members)
    decreases members
  {
    match members
    case NoMembers => Is(earlier)
    case Member(_, chars, _, _, value, _, rest) =>
      var key := Cut(TextOf(chars));
      match Means(value, limit, Before(earlier, key))
      case Is(tree) => MembersMean(rest, limit, Put(earlier, key, tree))
      case Deep => Deep
      case Floating => Floating
  }
}
