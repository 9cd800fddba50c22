/**
 The MessagePack format as its specification describes it: every way of encoding a value, shortest or not, with numbers
 as arithmetic on bytes. Any encoding is read as what it means, and a cut-off one as incomplete.
 */
module MsgPackMeaning {
  import opened Common
  import opened JsonTree

  // ---- The format ----

  /**
   `width` is the number of bytes of a length or number behind the code, zero where the code holds it. `HugeExt` is the
   head of an extension of 2^32 - 1 bytes: with its type that is 2^32 bytes, which the reader takes for none.
   */
  datatype Packed =
    | Nil
    | Bool(b: bool)
    | Fixed(n: int)
    | Unsigned(width: nat, n: int)
    | Signed(width: nat, n: int)
    | Float(width: nat, bytes: seq<byte>)
    | Str(str: PackedString)
    | Bin(width: nat, bytes: seq<byte>)
    | Ext(width: nat, typ: byte, bytes: seq<byte>)
    | HugeExt
    | Array(width: nat, items: PackedItems)
    | Map(width: nat, members: PackedMembers)

  datatype PackedString = PackedString(width: nat, text: seq<byte>)

  datatype PackedItems = NoItems | Item(value: Packed, rest: PackedItems)

  datatype PackedMembers = NoMembers | Member(key: PackedString, value: Packed, rest: PackedMembers)

  /** How many numbers fit a number of bytes. */
  function Range(width: nat): nat {
    match width
    case 1 => 0x100
    case 2 => 0x1_0000
    case 4 => 0x1_0000_0000
    case 8 => 0x1_0000_0000_0000_0000
    case _ => 0
  }

  function Quarter(n: nat): (r: seq<byte>)
    requires n < 0x1_0000_0000
    ensures |r| == 4
  {
    [(n / 0x100_0000) as byte, (n / 0x1_0000 % 0x100) as byte, (n / 0x100 % 0x100) as byte, (n % 0x100) as byte]
  }

  /** A number, highest byte first. */
  function NumberBytes(n: nat, width: nat): (r: seq<byte>)
    requires n < Range(width)
    ensures |r| == width
  {
    match width
    case 1 => [n as byte]
    case 2 => [(n / 0x100) as byte, (n % 0x100) as byte]
    case 4 => Quarter(n)
    case _ => Quarter(n / 0x1_0000_0000) + Quarter(n % 0x1_0000_0000)
  }

  /** The length of data fits its width; `room` is what fits the code. */
  predicate Fits(n: nat, width: nat, room: nat) {
    if width == 0 then n < room else (width == 1 || width == 2 || width == 4) && n < Range(width)
  }

  predicate LegalString(s: PackedString) {
    Fits(|s.text|, s.width, 0x20)
  }

  /** The extensions with a length of their own; the length with the type in front fits 32 bits. */
  predicate LegalExt(width: nat, n: nat) {
    if width == 0 then n == 1 || n == 2 || n == 4 || n == 8 || n == 16
    else (width == 1 || width == 2 || width == 4) && n < Range(width) && n < 0xFFFF_FFFF
  }

  predicate LegalPacked(p: Packed)
    decreases p
  {
    match p
    case Nil => true
    case Bool(_) => true
    case Fixed(n) => -0x20 <= n < 0x80
    case Unsigned(width, n) => 0 <= n < Range(width)
    case Signed(width, n) => -(Range(width) as int) <= 2 * n < Range(width)
    case Float(width, bytes) => (width == 4 || width == 8) && |bytes| == width
    case Str(str) => LegalString(str)
    case Bin(width, bytes) => Fits(|bytes|, width, 0)
    case Ext(width, _, bytes) => LegalExt(width, |bytes|)
    case HugeExt => true
    case Array(width, items) => width != 1 && Fits(CountItems(items), width, 0x10) && LegalItemsOf(items)
    case Map(width, members) => width != 1 && Fits(CountMembers(members), width, 0x10) && LegalMembersOf(members)
  }

  predicate LegalItemsOf(items: PackedItems)
    decreases items
  {
    items.Item? ==> LegalPacked(items.value) && LegalItemsOf(items.rest)
  }

  predicate LegalMembersOf(members: PackedMembers)
    decreases members
  {
    members.Member? ==> LegalString(members.key) && LegalPacked(members.value) && LegalMembersOf(members.rest)
  }

  function CountItems(items: PackedItems): nat {
    if items.NoItems? then 0 else 1 + CountItems(items.rest)
  }

  function CountMembers(members: PackedMembers): nat {
    if members.NoMembers? then 0 else 1 + CountMembers(members.rest)
  }

  /** A code with the length in it, or one followed by the length. */
  function Head(n: nat, width: nat, fix: nat, one: byte, two: byte, four: byte): (r: seq<byte>)
    requires if width == 0 then fix + n < 0x100 else (width == 1 || width == 2 || width == 4) && n < Range(width)
    ensures |r| == 1 + width
  {
    match width
    case 0 => [(fix + n) as byte]
    case 1 => [one] + NumberBytes(n, 1)
    case 2 => [two] + NumberBytes(n, 2)
    case _ => [four] + NumberBytes(n, 4)
  }

  function EncodedString(s: PackedString): seq<byte>
    requires LegalString(s)
  {
    Head(|s.text|, s.width, 0xA0, 0xD9, 0xDA, 0xDB) + s.text
  }

  function ExtHead(width: nat, n: nat): (r: seq<byte>)
    requires LegalExt(width, n)
    ensures |r| == 1 + width
  {
    if width == 0 then [if n == 1 then 0xD4 else if n == 2 then 0xD5 else if n == 4 then 0xD6 else if n == 8 then 0xD7 else 0xD8]
    else Head(n, width, 0, 0xC7, 0xC8, 0xC9)
  }

  function UnsignedCode(width: nat): byte {
    if width == 1 then 0xCC else if width == 2 then 0xCD else if width == 4 then 0xCE else 0xCF
  }

  function SignedCode(width: nat): byte {
    if width == 1 then 0xD0 else if width == 2 then 0xD1 else if width == 4 then 0xD2 else 0xD3
  }

  /** A negative number as two's complement. */
  function Wrapped(n: int, width: nat): nat
    requires -(Range(width) as int) <= 2 * n < Range(width)
  {
    if n < 0 then n + Range(width) else n
  }

  function Encoded(p: Packed): (r: seq<byte>)
    requires LegalPacked(p)
    ensures r != []
    decreases p
  {
    match p
    case Nil => [0xC0]
    case Bool(b) => [if b then 0xC3 else 0xC2]
    case Fixed(n) => [(if n < 0 then n + 0x100 else n) as byte]
    case Unsigned(width, n) => [UnsignedCode(width)] + NumberBytes(n, width)
    case Signed(width, n) => [SignedCode(width)] + NumberBytes(Wrapped(n, width), width)
    case Float(width, bytes) => [if width == 4 then 0xCA else 0xCB] + bytes
    case Str(str) => EncodedString(str)
    case Bin(width, bytes) => Head(|bytes|, width, 0, 0xC4, 0xC5, 0xC6) + bytes
    case Ext(width, typ, bytes) => ExtHead(width, |bytes|) + ([typ] + bytes)
    case HugeExt => [0xC9, 0xFF, 0xFF, 0xFF, 0xFF]
    case Array(width, items) => Head(CountItems(items), width, 0x90, 0, 0xDC, 0xDD) + EncodedItems(items)
    case Map(width, members) => Head(CountMembers(members), width, 0x80, 0, 0xDE, 0xDF) + EncodedMembers(members)
  }

  function EncodedItems(items: PackedItems): seq<byte>
    requires LegalItemsOf(items)
    decreases items
  {
    if items.NoItems? then [] else Encoded(items.value) + EncodedItems(items.rest)
  }

  function EncodedMembers(members: PackedMembers): seq<byte>
    requires LegalMembersOf(members)
    decreases members
  {
    if members.NoMembers? then [] else EncodedString(members.key) + (Encoded(members.value) + EncodedMembers(members.rest))
  }

  // ---- What it means ----

  /** A value nested at most `limit` deep. Binary data and extensions are not kept; floats are left to floating point. */
  function PackedMeans(p: Packed, limit: nat): Meaning<Tree>
    decreases p
  {
    match p
    case Nil => Is(Null)
    case Bool(b) => Is(Boolean(b))
    case Fixed(n) => Is(Integer(n))
    case Unsigned(_, n) => Is(Integer(n))
    case Signed(_, n) => Is(Integer(n))
    case Float(_, _) => Floating
    case Str(str) => Is(Text(str.text))
    case Bin(_, _) => Is(Null)
    case Ext(_, _, _) => Is(Null)
    case HugeExt => Is(Null)
    case Array(_, items) =>
      if limit == 0 then Deep
      else
        (match PackedItemsMean(items, limit - 1, [])
         case Is(trees) => Is(List(trees))
         case Deep => Deep
         case Floating => Floating)
    case Map(_, members) =>
      if limit == 0 then Deep
      else
        match PackedMembersMean(members, limit - 1, [])
        case Is(pairs) => Is(Record(pairs))
        case Deep => Deep
        case Floating => Floating
  }

  function PackedItemsMean(items: PackedItems, limit: nat, earlier: seq<Tree>): Meaning<seq<Tree>>
    decreases items
  {
    match items
    case NoItems => Is(earlier)
    case Item(value, rest) =>
      match PackedMeans(value, limit)
      case Is(tree) => PackedItemsMean(rest, limit, earlier + [tree])
      case Deep => Deep
      case Floating => Floating
  }

  /** Members are kept in order, repeated keys included; keys are cut at the first zero byte. */
  function PackedMembersMean(members: PackedMembers, limit: nat, earlier: seq<Pair>): Meaning<seq<Pair>>
    decreases members
  {
    match members
    case NoMembers => Is(earlier)
    case Member(key, value, rest) =>
      match PackedMeans(value, limit)
      case Is(tree) => PackedMembersMean(rest, limit, earlier + [Pair(Cut(key.text), tree)])
      case Deep => Deep
      case Floating => Floating
  }
}
