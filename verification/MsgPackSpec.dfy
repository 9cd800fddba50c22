/** MessagePack as ArduinoJson writes and reads it, as functions on byte sequences. */
module MsgPackSpec {
  import opened Common
  import opened JsonTree

  // ---- Numbers ----

  function Power256(k: nat): nat {
    if k == 0 then 1 else 256 * Power256(k - 1)
  }

  /** The lowest `k` bytes of a number, highest first. */
  function BigEndian(n: nat, k: nat): (r: seq<byte>)
    ensures |r| == k
  {
    if k == 0 then [] else BigEndian(n / 256, k - 1) + [(n % 256) as byte]
  }

  /** The number written in bytes, highest first. */
  function FromBigEndian(s: seq<byte>): nat
    decreases |s|
  {
    if s == [] then 0 else FromBigEndian(s[..|s| - 1]) * 256 + s[|s| - 1] as nat
  }

  /** The two's complement of a negative number in `k` bytes, and back. */
  function Complement(n: int, k: nat): nat
    requires -(Power256(k) as int) <= n
  {
    if n < 0 then n + Power256(k) else n
  }

  function Signed(n: nat, k: nat): int {
    if n * 2 < Power256(k) then n else n - Power256(k)
  }

  // ---- Writing ----

  /** A length: within the code byte if it is small, otherwise behind a code of its own. */
  function PackLength(n: nat, small: byte, room: nat, code8: Option<byte>, code16: byte, code32: byte): (r: seq<byte>)
    requires n < 0x1_0000_0000 && small as nat + room <= 256
    ensures r != []
  {
    if n < room then [(small as nat + n) as byte]
    else if code8.Some? && n < 0x100 then [code8.value] + BigEndian(n, 1)
    else if n < 0x10000 then [code16] + BigEndian(n, 2)
    else [code32] + BigEndian(n, 4)
  }

  function PackUnsigned(n: nat): (r: seq<byte>)
    ensures r != []
  {
    if n <= 0x7F then BigEndian(n, 1)
    else if n <= 0xFF then [0xCC] + BigEndian(n, 1)
    else if n <= 0xFFFF then [0xCD] + BigEndian(n, 2)
    else if n <= 0xFFFF_FFFF then [0xCE] + BigEndian(n, 4)
    else [0xCF] + BigEndian(n, 8)
  }

  function PackInteger(n: int): (r: seq<byte>)
    requires INT64_MIN <= n <= UINT64_MAX
    ensures r != []
  {
    Powers();
    if n > 0 then PackUnsigned(n)
    else if n >= -0x20 then BigEndian(Complement(n, 1), 1)
    else if n >= -0x80 then [0xD0] + BigEndian(Complement(n, 1), 1)
    else if n >= -0x8000 then [0xD1] + BigEndian(Complement(n, 2), 2)
    else if n >= -0x8000_0000 then [0xD2] + BigEndian(Complement(n, 4), 4)
    else [0xD3] + BigEndian(Complement(n, 8), 8)
  }

  lemma Powers()
    ensures Power256(1) == 0x100 && Power256(2) == 0x10000 && Power256(4) == 0x1_0000_0000
    ensures Power256(8) == 0x1_0000_0000_0000_0000
  {
    assert Power256(4) == 0x10000 * Power256(2);
    assert Power256(6) == 0x10000 * Power256(4);
    assert Power256(8) == 0x10000 * Power256(6);
  }

  function PackString(s: seq<byte>): (r: seq<byte>)
    requires |s| < 0x1_0000_0000
  {
    PackLength(|s|, 0xA0, 0x20, Some(0xD9), 0xDA, 0xDB) + s
  }

  /** Integers fit 64 bits, lengths fit 32 bits, and keys are C strings. */
  predicate Packable(t: Tree)
    decreases t
  {
    match t
    case Integer(n) => INT64_MIN <= n <= UINT64_MAX
    case Text(bytes) => |bytes| < 0x1_0000_0000
    case List(items) => |items| < 0x1_0000_0000 && PackableItems(items)
    case Record(members) => |members| < 0x1_0000_0000 && PackableMembers(members)
    case _ => true
  }

  predicate PackableItems(items: seq<Tree>)
    decreases items
  {
    items == [] || (Packable(items[0]) && PackableItems(items[1..]))
  }

  predicate PackableMembers(members: seq<Pair>)
    decreases members
  {
    members == []
    || (|members[0].key| < 0x1_0000_0000 && 0 !in members[0].key && Packable(members[0].value) && PackableMembers(members[1..]))
  }

  function Pack(t: Tree): seq<byte>
    requires Packable(t)
    decreases t
  {
    match t
    case Null => [0xC0]
    case Boolean(b) => [if b then 0xC3 else 0xC2]
    case Integer(n) => PackInteger(n)
    case Text(bytes) => PackString(bytes)
    case List(items) => PackLength(|items|, 0x90, 0x10, None, 0xDC, 0xDD) + PackItems(items)
    case Record(members) => PackLength(|members|, 0x80, 0x10, None, 0xDE, 0xDF) + PackMembers(members)
  }

  function PackItems(items: seq<Tree>): seq<byte>
    requires PackableItems(items)
    decreases items
  {
    if items == [] then [] else Pack(items[0]) + PackItems(items[1..])
  }

  function PackMembers(members: seq<Pair>): seq<byte>
    requires PackableMembers(members)
    decreases members
  {
    if members == [] then []
    else PackString(members[0].key) + (Pack(members[0].value) + PackMembers(members[1..]))
  }

  // ---- Reading ----

  /** `n` bytes from `pos` on. */
  function ReadBytes(input: seq<byte>, pos: nat, n: nat): Parsed<seq<byte>> {
    if pos + n <= |input| then Good(input[pos..pos + n], pos + n) else Bad(IncompleteInput)
  }

  function ReadUnsigned(input: seq<byte>, pos: nat, k: nat): (r: Parsed<nat>)
    ensures !r.Outside?
    ensures r.Good? ==> r.pos == pos + k
  {
    match ReadBytes(input, pos, k)
    case Good(bytes, next) => Good(FromBigEndian(bytes), next)
    case Bad(code) => Bad(code)
  }

  function SkipBytes(input: seq<byte>, pos: nat, n: nat): Parsed<Tree> {
    if pos + n <= |input| then Good(Null, pos + n) else Bad(IncompleteInput)
  }

  /** Binary data and extensions are passed over, leaving null. */
  function SkipSized(input: seq<byte>, pos: nat, k: nat, extra: nat): Parsed<Tree> {
    match ReadUnsigned(input, pos, k)
    case Bad(code) => Bad(code)
    case Good(n, next) => SkipBytes(input, next, (n + extra) % 0x1_0000_0000)
  }

  function ReadInteger(input: seq<byte>, pos: nat, k: nat, signed: bool): Parsed<Tree> {
    match ReadUnsigned(input, pos, k)
    case Bad(code) => Bad(code)
    case Good(n, next) => Good(Integer(if signed then Signed(n, k) else n), next)
  }

  function ReadText(input: seq<byte>, pos: nat, n: nat): Parsed<Tree> {
    match ReadBytes(input, pos, n)
    case Good(bytes, next) => Good(Text(bytes), next)
    case Bad(code) => Bad(code)
  }

  function ReadSizedText(input: seq<byte>, pos: nat, k: nat): Parsed<Tree> {
    match ReadUnsigned(input, pos, k)
    case Bad(code) => Bad(code)
    case Good(n, next) => ReadText(input, next, n)
  }

  function ReadSizedKey(input: seq<byte>, pos: nat, k: nat): Parsed<seq<byte>> {
    match ReadUnsigned(input, pos, k)
    case Bad(code) => Bad(code)
    case Good(n, next) => ReadBytes(input, next, n)
  }

  function ReadKey(input: seq<byte>, pos: nat): (r: Parsed<seq<byte>>)
    ensures !r.Outside?
  {
    if pos >= |input| then Bad(IncompleteInput)
    else
      var code := input[pos];
      if 0xA0 <= code < 0xC0 then ReadBytes(input, pos + 1, code as nat - 0xA0)
      else if code == 0xD9 then ReadSizedKey(input, pos + 1, 1)
      else if code == 0xDA then ReadSizedKey(input, pos + 1, 2)
      else if code == 0xDB then ReadSizedKey(input, pos + 1, 4)
      else Bad(InvalidInput)
  }

  /** Values without parts. */
  function UnpackScalar(input: seq<byte>, pos: nat, code: byte): Parsed<Tree>
  {
    if code == 0xC0 then Good(Null, pos)
    else if code == 0xC1 then Bad(InvalidInput)
    else if code == 0xC2 then Good(Boolean(false), pos)
    else if code == 0xC3 then Good(Boolean(true), pos)
    else if code == 0xC4 then SkipSized(input, pos, 1, 0)
    else if code == 0xC5 then SkipSized(input, pos, 2, 0)
    else if code == 0xC6 then SkipSized(input, pos, 4, 0)
    else if code == 0xC7 then SkipSized(input, pos, 1, 1)
    else if code == 0xC8 then SkipSized(input, pos, 2, 1)
    else if code == 0xC9 then SkipSized(input, pos, 4, 1)
    else if code == 0xCA || code == 0xCB then Outside
    else if code == 0xCC then ReadInteger(input, pos, 1, false)
    else if code == 0xCD then ReadInteger(input, pos, 2, false)
    else if code == 0xCE then ReadInteger(input, pos, 4, false)
    else if code == 0xCF then ReadInteger(input, pos, 8, false)
    else if code == 0xD0 then ReadInteger(input, pos, 1, true)
    else if code == 0xD1 then ReadInteger(input, pos, 2, true)
    else if code == 0xD2 then ReadInteger(input, pos, 4, true)
    else if code == 0xD3 then ReadInteger(input, pos, 8, true)
    else if code == 0xD4 then SkipBytes(input, pos, 2)
    else if code == 0xD5 then SkipBytes(input, pos, 3)
    else if code == 0xD6 then SkipBytes(input, pos, 5)
    else if code == 0xD7 then SkipBytes(input, pos, 9)
    else if code == 0xD8 then SkipBytes(input, pos, 17)
    else if code == 0xD9 then ReadSizedText(input, pos, 1)
    else if code == 0xDA then ReadSizedText(input, pos, 2)
    else if code == 0xDB then ReadSizedText(input, pos, 4)
    else if 0xA0 <= code < 0xC0 then ReadText(input, pos, code as nat - 0xA0)
    else Good(Integer(if code < 0x80 then code as int else code as int - 0x100), pos)
  }

  /** The number of bytes of the length behind the code of a collection; none if it is no collection. */
  datatype Collection = Items(k: nat) | Members(k: nat) | Scalar

  function CollectionOf(code: byte): Collection {
    if 0x80 <= code < 0x90 then Members(0)
    else if 0x90 <= code < 0xA0 then Items(0)
    else if code == 0xDC then Items(2)
    else if code == 0xDD then Items(4)
    else if code == 0xDE then Members(2)
    else if code == 0xDF then Members(4)
    else Scalar
  }

  /** The length of a collection: in its code, or behind it. */
  function ReadLength(input: seq<byte>, pos: nat, code: byte, k: nat): (r: Parsed<nat>)
    ensures !r.Outside?
  {
    if k == 0 then Good(code as nat % 16, pos) else ReadUnsigned(input, pos, k)
  }

  function Unpack(input: seq<byte>, pos: nat, limit: nat): Parsed<Tree>
    decreases limit, 1, 0
  {
    if pos >= |input| then Bad(IncompleteInput)
    else
      var code := input[pos];
      match CollectionOf(code)
      case Scalar => UnpackScalar(input, pos + 1, code)
      case Items(k) =>
        (match ReadLength(input, pos + 1, code, k)
         case Bad(error) => Bad(error)
         case Good(n, next) =>
           if limit == 0 then Bad(TooDeep)
           else
             match UnpackItems(input, next, limit, n, [])
             case Good(items, end) => Good(List(items), end)
             case Bad(error) => Bad(error)
             case Outside => Outside)
      case Members(k) =>
        (match ReadLength(input, pos + 1, code, k)
         case Bad(error) => Bad(error)
         case Good(n, next) =>
           if limit == 0 then Bad(TooDeep)
           else
             match UnpackMembers(input, next, limit, n, [])
             case Good(members, end) => Good(Record(members), end)
             case Bad(error) => Bad(error)
             case Outside => Outside)
  }

  function UnpackItems(input: seq<byte>, pos: nat, limit: nat, n: nat, items: seq<Tree>): Parsed<seq<Tree>>
    requires limit > 0
    decreases limit, 0, n
  {
    if n == 0 then Good(items, pos)
    else
      match Unpack(input, pos, limit - 1)
      case Bad(error) => Bad(error)
      case Outside => Outside
      case Good(item, next) => UnpackItems(input, next, limit, n - 1, items + [item])
  }

  /** Members are added one after the other, whether their keys have occurred before or not. */
  function UnpackMembers(input: seq<byte>, pos: nat, limit: nat, n: nat, members: seq<Pair>): Parsed<seq<Pair>>
    requires limit > 0
    decreases limit, 0, n
  {
    if n == 0 then Good(members, pos)
    else
      match ReadKey(input, pos)
      case Bad(error) => Bad(error)
      case Good(key, next) =>
        match Unpack(input, next, limit - 1)
        case Bad(error) => Bad(error)
        case Outside => Outside
        case Good(value, end) => UnpackMembers(input, end, limit, n - 1, members + [Pair(Cut(key), value)])
  }

  function Deserialize(input: seq<byte>, limit: nat): Parsed<Tree> {
    if input == [] then Bad(EmptyInput) else Unpack(input, 0, limit)
  }
}
