/** Every MessagePack encoding of a value is read as what it means, and every cut-off one as incomplete. */
module MsgPackReading {
  import opened Common
  import opened JsonTree
  import opened MsgPackSpec
  import opened MsgPackMeaning

  // ---- Numbers ----

  lemma {:induction false} FromOne(n: nat)
    requires n < 0x100
    ensures FromBigEndian([n as byte]) == n
  {
    assert [n as byte][..0] == [];
  }

  lemma FromMore(s: seq<byte>, b: byte)
    ensures FromBigEndian(s + [b]) == FromBigEndian(s) * 0x100 + b as nat
  {
    assert (s + [b])[..|s|] == s;
  }

  lemma FromQuarter(s: seq<byte>, n: nat)
    requires n < 0x1_0000_0000
    ensures FromBigEndian(s + Quarter(n)) == FromBigEndian(s) * 0x1_0000_0000 + n
  {
    var q := Quarter(n);
    var a, b, c := n / 0x100, n / 0x1_0000, n / 0x100_0000;
    assert a / 0x100 == b && b / 0x100 == c;
    assert n == a * 0x100 + n % 0x100 && a == b * 0x100 + a % 0x100 && b == c * 0x100 + b % 0x100;
    FromFour(s, q[0], q[1], q[2], q[3]);
    assert s + q == s + [q[0], q[1], q[2], q[3]];
  }

  lemma FromFour(s: seq<byte>, a: byte, b: byte, c: byte, d: byte)
    ensures FromBigEndian(s + [a, b, c, d])
         == FromBigEndian(s) * 0x1_0000_0000 + a as nat * 0x100_0000 + b as nat * 0x1_0000 + c as nat * 0x100 + d as nat
  {
    hide FromBigEndian;
    FromMore(s, a);
    FromMore(s + [a], b);
    FromMore(s + [a] + [b], c);
    FromMore(s + [a] + [b] + [c], d);
    assert s + [a] + [b] + [c] + [d] == s + [a, b, c, d];
  }

  /** The bytes of a number are read as the number. */
  lemma NumberRead(input: seq<byte>, pos: nat, n: nat, width: nat)
    requires n < Range(width) && On(input, pos, NumberBytes(n, width))
    ensures ReadUnsigned(input, pos, width) == Good(n, pos + width)
  {
    hide Quarter;
    var bytes := NumberBytes(n, width);
    assert FromBigEndian([]) == 0;
    match width
    case 1 => FromOne(n);
    case 2 =>
      FromOne(n / 0x100);
      FromMore([(n / 0x100) as byte], (n % 0x100) as byte);
      assert [(n / 0x100) as byte] + [(n % 0x100) as byte] == bytes;
    case 4 =>
      FromQuarter([], n);
      assert [] + Quarter(n) == bytes;
    case _ =>
      FromQuarter([], n / 0x1_0000_0000);
      assert [] + Quarter(n / 0x1_0000_0000) == Quarter(n / 0x1_0000_0000);
      FromQuarter(Quarter(n / 0x1_0000_0000), n % 0x1_0000_0000);
  }

  lemma RangePower(width: nat)
    requires width == 1 || width == 2 || width == 4 || width == 8
    ensures Power256(width) == Range(width)
  {
    Powers();
  }

  // ---- Values without parts ----

  lemma CodeStep(input: seq<byte>, pos: nat, code: byte, rest: seq<byte>, limit: nat)
    requires On(input, pos, [code] + rest) && CollectionOf(code) == Scalar
    ensures On(input, pos + 1, rest)
    ensures Unpack(input, pos, limit) == UnpackScalar(input, pos + 1, code)
  {
    hide UnpackScalar;
    OnFirst(input, pos, code, rest);
  }

  lemma CodeAlone(input: seq<byte>, pos: nat, code: byte, limit: nat)
    requires On(input, pos, [code]) && CollectionOf(code) == Scalar
    ensures Unpack(input, pos, limit) == UnpackScalar(input, pos + 1, code)
  {
    assert [code] == [code] + [];
    CodeStep(input, pos, code, [], limit);
  }

  lemma IntegerCodes(input: seq<byte>, pos: nat, width: nat)
    requires width == 1 || width == 2 || width == 4 || width == 8
    ensures CollectionOf(UnsignedCode(width)) == Scalar && CollectionOf(SignedCode(width)) == Scalar
    ensures UnpackScalar(input, pos, UnsignedCode(width)) == ReadInteger(input, pos, width, false)
    ensures UnpackScalar(input, pos, SignedCode(width)) == ReadInteger(input, pos, width, true)
  {
    hide ReadInteger, SkipSized, SkipBytes, ReadText, ReadSizedText;
  }

  lemma IntegerRead(input: seq<byte>, pos: nat, n: nat, width: nat, signed: bool)
    requires n < Range(width) && On(input, pos, NumberBytes(n, width))
    ensures ReadInteger(input, pos, width, signed)
         == Good(Integer(if signed && 2 * n >= Range(width) then n - Range(width) else n), pos + width)
  {
    hide NumberBytes, ReadUnsigned, Power256, On;
    NumberRead(input, pos, n, width);
    RangePower(width);
  }

  lemma UnsignedRead(input: seq<byte>, pos: nat, width: nat, n: int, limit: nat)
    requires 0 <= n < Range(width) && On(input, pos, [UnsignedCode(width)] + NumberBytes(n, width))
    ensures Unpack(input, pos, limit) == Good(Integer(n), pos + 1 + width)
  {
    IntegerCodes(input, pos + 1, width);
    hide *;
    CodeStep(input, pos, UnsignedCode(width), NumberBytes(n, width), limit);
    IntegerRead(input, pos + 1, n, width, false);
  }

  lemma SignedRead(input: seq<byte>, pos: nat, width: nat, n: int, limit: nat)
    requires -(Range(width) as int) <= 2 * n < Range(width) && On(input, pos, [SignedCode(width)] + NumberBytes(Wrapped(n, width), width))
    ensures Unpack(input, pos, limit) == Good(Integer(n), pos + 1 + width)
  {
    IntegerCodes(input, pos + 1, width);
    hide Unpack, UnpackScalar, ReadInteger, NumberBytes, On, SignedCode, UnsignedCode, CollectionOf;
    CodeStep(input, pos, SignedCode(width), NumberBytes(Wrapped(n, width), width), limit);
    IntegerRead(input, pos + 1, Wrapped(n, width), width, true);
  }

  lemma PlainRead(input: seq<byte>, pos: nat, p: Packed, limit: nat)
    requires LegalPacked(p) && (p.Nil? || p.Bool? || p.Fixed? || p.Float?) && On(input, pos, Encoded(p))
    ensures Unpack(input, pos, limit) == Result(PackedMeans(p, limit), pos + |Encoded(p)|)
  {
    hide ReadInteger, SkipSized, SkipBytes, ReadText, ReadSizedText;
    if p.Float? {
      CodeStep(input, pos, if p.width == 4 then 0xCA else 0xCB, p.bytes, limit);
    } else {
      var code := Encoded(p)[0];
      assert Encoded(p) == [code];
      CodeAlone(input, pos, code, limit);
    }
  }

  // ---- Data of some length ----

  /** A head stands in front of its data: the code, then the length if it has a width. */
  lemma HeadRead(input: seq<byte>, pos: nat, n: nat, width: nat, fix: nat, one: byte, two: byte, four: byte, rest: seq<byte>)
    requires if width == 0 then fix + n < 0x100 else (width == 1 || width == 2 || width == 4) && n < Range(width)
    requires On(input, pos, Head(n, width, fix, one, two, four) + rest)
    ensures pos < |input| && On(input, pos + 1 + width, rest)
    ensures input[pos] == if width == 0 then (fix + n) as byte else if width == 1 then one else if width == 2 then two else four
    ensures width > 0 ==> ReadUnsigned(input, pos + 1, width) == Good(n, pos + 1 + width)
  {
    hide NumberBytes, ReadUnsigned, On;
    var head := Head(n, width, fix, one, two, four);
    OnParts(input, pos, head, rest);
    if width == 0 {
      assert head == [head[0]] + [];
      OnFirst(input, pos, head[0], []);
    } else {
      OnFirst(input, pos, head[0], NumberBytes(n, width)) by { assert head == [head[0]] + NumberBytes(n, width); }
      NumberRead(input, pos + 1, n, width);
    }
  }

  lemma BytesRead(input: seq<byte>, pos: nat, s: seq<byte>)
    requires On(input, pos, s)
    ensures ReadBytes(input, pos, |s|) == Good(s, pos + |s|) && pos + |s| <= |input|
  {
  }

  /** A string, as a value and as a key. */
  lemma StringRead(input: seq<byte>, pos: nat, s: PackedString, limit: nat)
    requires LegalString(s) && On(input, pos, EncodedString(s))
    ensures Unpack(input, pos, limit) == Good(Text(s.text), pos + |EncodedString(s)|)
    ensures ReadKey(input, pos) == Good(s.text, pos + |EncodedString(s)|)
  {
    hide ReadUnsigned, ReadBytes, On, Head, SkipSized, SkipBytes, ReadInteger;
    HeadRead(input, pos, |s.text|, s.width, 0xA0, 0xD9, 0xDA, 0xDB, s.text);
    BytesRead(input, pos + 1 + s.width, s.text);
  }

  lemma BinRead(input: seq<byte>, pos: nat, width: nat, bytes: seq<byte>, limit: nat)
    requires LegalPacked(Bin(width, bytes)) && On(input, pos, Encoded(Bin(width, bytes)))
    ensures Unpack(input, pos, limit) == Good(Null, pos + |Encoded(Bin(width, bytes))|)
  {
    hide ReadUnsigned, ReadBytes, On, Head, ReadInteger, ReadText, ReadSizedText;
    HeadRead(input, pos, |bytes|, width, 0, 0xC4, 0xC5, 0xC6, bytes);
    BytesRead(input, pos + 1 + width, bytes);
  }

  lemma ExtRead(input: seq<byte>, pos: nat, width: nat, typ: byte, bytes: seq<byte>, limit: nat)
    requires LegalPacked(Ext(width, typ, bytes)) && On(input, pos, Encoded(Ext(width, typ, bytes)))
    ensures Unpack(input, pos, limit) == Good(Null, pos + |Encoded(Ext(width, typ, bytes))|)
  {
    hide ReadUnsigned, ReadBytes, On, Head, ReadInteger, ReadText, ReadSizedText;
    var data := [typ] + bytes;
    if width == 0 {
      var code := ExtHead(width, |bytes|)[0];
      assert ExtHead(width, |bytes|) == [code];
      CodeStep(input, pos, code, data, limit);
    } else {
      HeadRead(input, pos, |bytes|, width, 0, 0xC7, 0xC8, 0xC9, data);
    }
    BytesRead(input, pos + 1 + width, data);
  }

  lemma HugeRead(input: seq<byte>, pos: nat, limit: nat)
    requires On(input, pos, Encoded(HugeExt))
    ensures Unpack(input, pos, limit) == Good(Null, pos + 5)
  {
    hide ReadUnsigned, ReadBytes, On, ReadInteger, ReadText, ReadSizedText, NumberBytes;
    HugeLength();
    CodeStep(input, pos, 0xC9, NumberBytes(0xFFFF_FFFF, 4), limit);
    NumberRead(input, pos + 1, 0xFFFF_FFFF, 4);
    BytesRead(input, pos + 5, []) by { NothingOn(input, pos + 1, NumberBytes(0xFFFF_FFFF, 4)); }
  }

  lemma HugeLength()
    ensures Encoded(HugeExt) == [0xC9] + NumberBytes(0xFFFF_FFFF, 4)
  {
  }

  lemma NothingOn(input: seq<byte>, pos: nat, s: seq<byte>)
    requires On(input, pos, s)
    ensures On(input, pos + |s|, [])
  {
  }

  // ---- Values ----

  /** Any encoding of a value is read as what it means. */
  lemma {:induction false} PackedRead(input: seq<byte>, pos: nat, p: Packed, limit: nat)
    requires LegalPacked(p) && On(input, pos, Encoded(p))
    ensures Unpack(input, pos, limit) == Result(PackedMeans(p, limit), pos + |Encoded(p)|)
    decreases p
  {
    hide Unpack, On, Head, ExtHead, EncodedItems, EncodedMembers, EncodedString, NumberBytes;
    match p
    case Unsigned(width, n) => UnsignedRead(input, pos, width, n, limit);
    case Signed(width, n) => SignedRead(input, pos, width, n, limit);
    case Str(str) => StringRead(input, pos, str, limit);
    case Bin(width, bytes) => BinRead(input, pos, width, bytes, limit);
    case Ext(width, typ, bytes) => ExtRead(input, pos, width, typ, bytes, limit);
    case Array(width, items) => ArrayRead(input, pos, width, items, limit);
    case Map(width, members) => MapRead(input, pos, width, members, limit);
    case HugeExt => HugeRead(input, pos, limit);
    case _ => PlainRead(input, pos, p, limit);
  }

  lemma ArrayHead(input: seq<byte>, pos: nat, n: nat, width: nat, rest: seq<byte>)
    requires width != 1 && Fits(n, width, 0x10) && On(input, pos, Head(n, width, 0x90, 0, 0xDC, 0xDD) + rest)
    ensures pos < |input| && CollectionOf(input[pos]).Items? && On(input, pos + 1 + width, rest)
    ensures ReadLength(input, pos + 1, input[pos], CollectionOf(input[pos]).k) == Good(n, pos + 1 + width)
  {
    hide On, Head, ReadUnsigned;
    HeadRead(input, pos, n, width, 0x90, 0, 0xDC, 0xDD, rest);
  }

  lemma MapHead(input: seq<byte>, pos: nat, n: nat, width: nat, rest: seq<byte>)
    requires width != 1 && Fits(n, width, 0x10) && On(input, pos, Head(n, width, 0x80, 0, 0xDE, 0xDF) + rest)
    ensures pos < |input| && CollectionOf(input[pos]).Members? && On(input, pos + 1 + width, rest)
    ensures ReadLength(input, pos + 1, input[pos], CollectionOf(input[pos]).k) == Good(n, pos + 1 + width)
  {
    hide On, Head, ReadUnsigned;
    HeadRead(input, pos, n, width, 0x80, 0, 0xDE, 0xDF, rest);
  }

  lemma {:induction false} ArrayRead(input: seq<byte>, pos: nat, width: nat, items: PackedItems, limit: nat)
    requires LegalPacked(Array(width, items)) && On(input, pos, Encoded(Array(width, items)))
    ensures Unpack(input, pos, limit) == Result(PackedMeans(Array(width, items), limit), pos + |Encoded(Array(width, items))|)
    decreases items, 1
  {
    hide UnpackScalar, UnpackItems, UnpackMembers, On, Head, EncodedItems, PackedItemsMean, ReadLength, CollectionOf, CountItems;
    ArrayHead(input, pos, CountItems(items), width, EncodedItems(items));
    if limit > 0 {
      PackedItemsRead(input, pos + 1 + width, limit, [], items);
    }
  }

  lemma {:induction false} PackedItemsRead(input: seq<byte>, pos: nat, limit: nat, earlier: seq<Tree>, items: PackedItems)
    requires limit > 0 && LegalItemsOf(items) && On(input, pos, EncodedItems(items))
    ensures UnpackItems(input, pos, limit, CountItems(items), earlier)
         == Result(PackedItemsMean(items, limit - 1, earlier), pos + |EncodedItems(items)|)
    decreases items, 0
  {
    hide Unpack, On, Encoded, PackedMeans, LegalPacked;
    if items.Item? {
      OnParts(input, pos, Encoded(items.value), EncodedItems(items.rest));
      PackedRead(input, pos, items.value, limit - 1);
      var m := PackedMeans(items.value, limit - 1);
      if m.Is? {
        PackedItemsRead(input, pos + |Encoded(items.value)|, limit, earlier + [m.value], items.rest);
      }
    }
  }

  lemma {:induction false} MapRead(input: seq<byte>, pos: nat, width: nat, members: PackedMembers, limit: nat)
    requires LegalPacked(Map(width, members)) && On(input, pos, Encoded(Map(width, members)))
    ensures Unpack(input, pos, limit) == Result(PackedMeans(Map(width, members), limit), pos + |Encoded(Map(width, members))|)
    decreases members, 1
  {
    hide UnpackScalar, UnpackItems, UnpackMembers, On, Head, EncodedMembers, PackedMembersMean, ReadLength, CollectionOf, CountMembers;
    MapHead(input, pos, CountMembers(members), width, EncodedMembers(members));
    if limit > 0 {
      PackedMembersRead(input, pos + 1 + width, limit, [], members);
    }
  }

  lemma {:induction false} PackedMembersRead(input: seq<byte>, pos: nat, limit: nat, earlier: seq<Pair>, members: PackedMembers)
    requires limit > 0 && LegalMembersOf(members) && On(input, pos, EncodedMembers(members))
    ensures UnpackMembers(input, pos, limit, CountMembers(members), earlier)
         == Result(PackedMembersMean(members, limit - 1, earlier), pos + |EncodedMembers(members)|)
    decreases members, 0
  {
    hide Unpack, On, Encoded, PackedMeans, LegalPacked, ReadKey, EncodedString, Cut;
    if members.Member? {
      var key := EncodedString(members.key);
      OnParts(input, pos, key, Encoded(members.value) + EncodedMembers(members.rest));
      OnParts(input, pos + |key|, Encoded(members.value), EncodedMembers(members.rest));
      StringRead(input, pos, members.key, limit);
      PackedRead(input, pos + |key|, members.value, limit - 1);
      var m := PackedMeans(members.value, limit - 1);
      if m.Is? {
        PackedMembersRead(input, pos + |key| + |Encoded(members.value)|, limit,
                          earlier + [Pair(Cut(members.key.text), m.value)], members.rest);
      }
    }
  }

  /** Every MessagePack encoding of every value is deserialized as what it means; what follows it is not looked at. */
  lemma ReadsAnyEncoding(p: Packed, after: seq<byte>, limit: nat)
    requires LegalPacked(p)
    ensures Deserialize(Encoded(p) + after, limit) == Result(PackedMeans(p, limit), |Encoded(p)|)
  {
    hide Unpack, Encoded, PackedMeans;
    var input := Encoded(p) + after;
    assert input[0..|Encoded(p)|] == Encoded(p);
    PackedRead(input, 0, p, limit);
  }

  // ---- Cut-off input ----

  /** What reading a prefix gives, where reading the whole gives `r`. */
  ghost predicate CutOff<T>(r: Parsed<T>, prefix: Parsed<T>, length: nat) {
    r.Good? ==> prefix == if r.pos <= length then r else Bad(IncompleteInput)
  }

  lemma BytesCut(input: seq<byte>, k: nat, pos: nat, n: nat)
    requires k <= |input|
    ensures CutOff(ReadBytes(input, pos, n), ReadBytes(input[..k], pos, n), k)
    ensures CutOff(SkipBytes(input, pos, n), SkipBytes(input[..k], pos, n), k)
  {
    if pos + n <= k {
      assert input[..k][pos..pos + n] == input[pos..pos + n];
    }
  }

  lemma UnsignedCut(input: seq<byte>, k: nat, pos: nat, width: nat)
    requires k <= |input|
    ensures CutOff(ReadUnsigned(input, pos, width), ReadUnsigned(input[..k], pos, width), k)
  {
    hide ReadBytes, FromBigEndian;
    BytesCut(input, k, pos, width);
    LengthOf(input, pos, width);
  }

  lemma LengthOf(input: seq<byte>, pos: nat, n: nat)
    ensures ReadBytes(input, pos, n).Good? ==> ReadBytes(input, pos, n).pos == pos + n
  {
  }

  lemma SizedCut(input: seq<byte>, k: nat, pos: nat, width: nat, extra: nat)
    requires k <= |input|
    ensures CutOff(SkipSized(input, pos, width, extra), SkipSized(input[..k], pos, width, extra), k)
    ensures CutOff(ReadSizedText(input, pos, width), ReadSizedText(input[..k], pos, width), k)
    ensures CutOff(ReadSizedKey(input, pos, width), ReadSizedKey(input[..k], pos, width), k)
  {
    hide ReadUnsigned, FromBigEndian;
    UnsignedCut(input, k, pos, width);
    var r := ReadUnsigned(input, pos, width);
    if r.Good? {
      BytesCut(input, k, r.pos, r.value);
      BytesCut(input, k, r.pos, (r.value + extra) % 0x1_0000_0000);
    }
  }

  lemma PlainCut(input: seq<byte>, k: nat, pos: nat, n: nat, width: nat, signed: bool)
    requires k <= |input|
    ensures CutOff(ReadText(input, pos, n), ReadText(input[..k], pos, n), k)
    ensures CutOff(ReadInteger(input, pos, width, signed), ReadInteger(input[..k], pos, width, signed), k)
  {
    hide ReadBytes, ReadUnsigned, Power256;
    BytesCut(input, k, pos, n);
    UnsignedCut(input, k, pos, width);
  }

  /** The number of bytes of a number or length behind a code, and what an extension of fixed size takes. */
  function CodeWidth(code: byte): nat {
    if code == 0xC4 || code == 0xC7 || code == 0xCC || code == 0xD0 || code == 0xD9 then 1
    else if code == 0xC5 || code == 0xC8 || code == 0xCD || code == 0xD1 || code == 0xDA then 2
    else if code == 0xCF || code == 0xD3 then 8
    else 4
  }

  function CodeSize(code: byte): nat {
    if code == 0xD4 then 2 else if code == 0xD5 then 3 else if code == 0xD6 then 5 else if code == 0xD7 then 9 else 17
  }

  lemma ScalarCut(input: seq<byte>, k: nat, pos: nat, code: byte)
    requires k <= |input| && pos <= k
    ensures CutOff(UnpackScalar(input, pos, code), UnpackScalar(input[..k], pos, code), k)
  {
    hide SkipSized, SkipBytes, ReadText, ReadSizedText, ReadInteger;
    PlainCut(input, k, pos, if 0xA0 <= code < 0xC0 then code as nat - 0xA0 else 0, CodeWidth(code), 0xD0 <= code <= 0xD3);
    SizedCut(input, k, pos, CodeWidth(code), if 0xC7 <= code <= 0xC9 then 1 else 0);
    BytesCut(input, k, pos, CodeSize(code));
  }

  /** Reading behind a position does not end before it. */
  lemma {:induction false} Advances(input: seq<byte>, pos: nat, limit: nat)
    ensures Unpack(input, pos, limit).Good? ==> Unpack(input, pos, limit).pos > pos
    decreases limit, 1, 0
  {
    hide UnpackItems, UnpackMembers;
    if pos < |input| && limit > 0 {
      match CollectionOf(input[pos])
      case Scalar =>
      case Items(k) =>
        var n := ReadLength(input, pos + 1, input[pos], k);
        if n.Good? {
          ItemsAdvance(input, n.pos, limit, n.value, []);
        }
      case Members(k) =>
        var n := ReadLength(input, pos + 1, input[pos], k);
        if n.Good? {
          MembersAdvance(input, n.pos, limit, n.value, []);
        }
    }
  }

  lemma {:induction false} ItemsAdvance(input: seq<byte>, pos: nat, limit: nat, n: nat, items: seq<Tree>)
    requires limit > 0
    ensures UnpackItems(input, pos, limit, n, items).Good? ==> UnpackItems(input, pos, limit, n, items).pos >= pos
    decreases limit, 0, n
  {
    hide Unpack;
    if n > 0 {
      Advances(input, pos, limit - 1);
      var r := Unpack(input, pos, limit - 1);
      if r.Good? {
        ItemsAdvance(input, r.pos, limit, n - 1, items + [r.value]);
      }
    }
  }

  lemma KeyAdvances(input: seq<byte>, pos: nat)
    ensures ReadKey(input, pos).Good? ==> ReadKey(input, pos).pos > pos
  {
  }

  lemma {:induction false} MembersAdvance(input: seq<byte>, pos: nat, limit: nat, n: nat, members: seq<Pair>)
    requires limit > 0
    ensures UnpackMembers(input, pos, limit, n, members).Good? ==> UnpackMembers(input, pos, limit, n, members).pos >= pos
    decreases limit, 0, n
  {
    hide Unpack, ReadKey, Cut;
    if n > 0 {
      KeyAdvances(input, pos);
      var key := ReadKey(input, pos);
      if key.Good? {
        Advances(input, key.pos, limit - 1);
        var r := Unpack(input, key.pos, limit - 1);
        if r.Good? {
          MembersAdvance(input, r.pos, limit, n - 1, members + [Pair(Cut(key.value), r.value)]);
        }
      }
    }
  }

  lemma LengthCut(input: seq<byte>, k: nat, pos: nat, code: byte, width: nat)
    requires k <= |input| && pos <= k
    ensures CutOff(ReadLength(input, pos, code, width), ReadLength(input[..k], pos, code, width), k)
  {
    hide ReadUnsigned;
    UnsignedCut(input, k, pos, width);
  }

  lemma KeyCut(input: seq<byte>, k: nat, pos: nat)
    requires k <= |input|
    ensures CutOff(ReadKey(input, pos), ReadKey(input[..k], pos), k)
  {
    hide ReadSizedKey, ReadBytes;
    if pos < k {
      SizedCut(input, k, pos + 1, 1, 0);
      SizedCut(input, k, pos + 1, 2, 0);
      SizedCut(input, k, pos + 1, 4, 0);
      BytesCut(input, k, pos + 1, if 0xA0 <= input[pos] < 0xC0 then input[pos] as nat - 0xA0 else 0);
    } else {
      KeyAdvances(input, pos);
    }
  }

  lemma {:induction false} UnpackCut(input: seq<byte>, k: nat, pos: nat, limit: nat)
    requires k <= |input|
    ensures CutOff(Unpack(input, pos, limit), Unpack(input[..k], pos, limit), k)
    decreases limit, 1, 0
  {
    hide UnpackItems, UnpackMembers, UnpackScalar, ReadLength, CollectionOf;
    Advances(input, pos, limit);
    if pos < k {
      var code := input[pos];
      match CollectionOf(code)
      case Scalar => ScalarCut(input, k, pos + 1, code);
      case Items(width) =>
        LengthCut(input, k, pos + 1, code, width);
        var n := ReadLength(input, pos + 1, code, width);
        if n.Good? && limit > 0 {
          ItemsCut(input, k, n.pos, limit, n.value, []);
          ItemsAdvance(input, n.pos, limit, n.value, []);
        }
      case Members(width) =>
        LengthCut(input, k, pos + 1, code, width);
        var n := ReadLength(input, pos + 1, code, width);
        if n.Good? && limit > 0 {
          MembersCut(input, k, n.pos, limit, n.value, []);
          MembersAdvance(input, n.pos, limit, n.value, []);
        }
    }
  }

  lemma {:induction false} ItemsCut(input: seq<byte>, k: nat, pos: nat, limit: nat, n: nat, items: seq<Tree>)
    requires k <= |input| && limit > 0
    ensures pos <= k ==> CutOff(UnpackItems(input, pos, limit, n, items), UnpackItems(input[..k], pos, limit, n, items), k)
    decreases limit, 0, n
  {
    hide Unpack;
    if n > 0 {
      UnpackCut(input, k, pos, limit - 1);
      var r := Unpack(input, pos, limit - 1);
      if r.Good? {
        ItemsCut(input, k, r.pos, limit, n - 1, items + [r.value]);
        ItemsAdvance(input, r.pos, limit, n - 1, items + [r.value]);
      }
    }
  }

  lemma {:induction false} MembersCut(input: seq<byte>, k: nat, pos: nat, limit: nat, n: nat, members: seq<Pair>)
    requires k <= |input| && limit > 0
    ensures pos <= k ==> CutOff(UnpackMembers(input, pos, limit, n, members), UnpackMembers(input[..k], pos, limit, n, members), k)
    decreases limit, 0, n
  {
    hide Unpack, ReadKey, Cut;
    if n > 0 {
      KeyCut(input, k, pos);
      var key := ReadKey(input, pos);
      if key.Good? {
        UnpackCut(input, k, key.pos, limit - 1);
        Advances(input, key.pos, limit - 1);
        var r := Unpack(input, key.pos, limit - 1);
        if r.Good? {
          MembersCut(input, k, r.pos, limit, n - 1, members + [Pair(Cut(key.value), r.value)]);
          MembersAdvance(input, r.pos, limit, n - 1, members + [Pair(Cut(key.value), r.value)]);
        }
      }
    }
  }

  /**
   For every input that is read to the end of its value: what is cut off behind the value makes no difference, and
   cut off before its end it is reported as incomplete, or as empty when nothing is left.
   */
  lemma PrefixIncomplete(input: seq<byte>, limit: nat, k: nat)
    requires Deserialize(input, limit).Good? && k <= |input|
    ensures var r := Deserialize(input, limit);
            Deserialize(input[..k], limit) == if k == 0 then Bad(EmptyInput) else if k < r.pos then Bad(IncompleteInput) else r
  {
    hide Unpack;
    UnpackCut(input, k, 0, limit);
    Advances(input, 0, limit);
  }
}
