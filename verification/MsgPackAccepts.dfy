/** The MessagePack deserializer accepts nothing but MessagePack: whatever it reads is an encoding of what it yields. */
module MsgPackAccepts {
  import opened Common
  import opened JsonTree
  import opened MsgPackSpec
  import opened MsgPackMeaning
  import R = MsgPackReading

  lemma OnJoin(s: seq<byte>, at: nat, a: seq<byte>, b: seq<byte>)
    requires On(s, at, a) && On(s, at + |a|, b)
    ensures On(s, at, a + b)
  {
    assert s[at..at + |a + b|] == s[at..at + |a|] + s[at + |a|..at + |a| + |b|];
  }

  lemma OnOne(s: seq<byte>, at: nat)
    requires at < |s|
    ensures On(s, at, [s[at]])
  {
  }

  // ---- Numbers ----

  lemma BytesOfTwo(a: byte, b: byte)
    ensures FromBigEndian([a, b]) == a as nat * 0x100 + b as nat
  {
    R.FromOne(a as nat);
    R.FromMore([a], b);
    assert [a] + [b] == [a, b];
  }

  lemma QuarterBack(s: seq<byte>)
    requires |s| == 4
    ensures FromBigEndian(s) < 0x1_0000_0000 && Quarter(FromBigEndian(s)) == s
  {
    var a, b, c, d := s[0] as nat, s[1] as nat, s[2] as nat, s[3] as nat;
    assert FromBigEndian([]) == 0;
    R.FromFour([], s[0], s[1], s[2], s[3]);
    assert [] + [s[0], s[1], s[2], s[3]] == s;
    hide FromBigEndian;
    QuarterIs(a, b, c, d);
    hide Quarter;
    assert [a as byte, b as byte, c as byte, d as byte] == s;
  }

  lemma QuarterIs(a: nat, b: nat, c: nat, d: nat)
    requires a < 0x100 && b < 0x100 && c < 0x100 && d < 0x100
    ensures var n := a * 0x100_0000 + b * 0x1_0000 + c * 0x100 + d;
            n < 0x1_0000_0000 && Quarter(n) == [a as byte, b as byte, c as byte, d as byte]
  {
    var n := a * 0x100_0000 + b * 0x1_0000 + c * 0x100 + d;
    assert n / 0x100 == a * 0x1_0000 + b * 0x100 + c;
    assert n / 0x1_0000 == a * 0x100 + b;
    assert n / 0x100_0000 == a;
  }

  /** A number read is the one whose bytes are there. */
  lemma NumberThere(input: seq<byte>, pos: nat, width: nat)
    requires width == 1 || width == 2 || width == 4 || width == 8
    requires ReadUnsigned(input, pos, width).Good?
    ensures var n := ReadUnsigned(input, pos, width).value; n < Range(width) && On(input, pos, NumberBytes(n, width))
  {
    hide Quarter;
    var s := input[pos..pos + width];
    match width
    case 1 =>
      R.FromOne(s[0] as nat);
      assert s == [s[0] as nat as byte];
    case 2 =>
      BytesOfTwo(s[0], s[1]);
      assert s == [s[0], s[1]];
    case 4 => QuarterBack(s);
    case _ =>
      QuarterBack(s[..4]);
      QuarterBack(s[4..]);
      R.FromQuarter(s[..4], FromBigEndian(s[4..]));
      assert s == s[..4] + s[4..];
  }

  lemma BytesThere(input: seq<byte>, pos: nat, n: nat)
    requires ReadBytes(input, pos, n).Good?
    ensures On(input, pos, ReadBytes(input, pos, n).value) && |ReadBytes(input, pos, n).value| == n
    ensures ReadBytes(input, pos, n).pos == pos + n
  {
  }

  // ---- Strings and data ----

  /** A code and the length behind it. */
  lemma HeadThere(input: seq<byte>, pos: nat, width: nat, fix: nat, one: byte, two: byte, four: byte)
    requires (width == 1 || width == 2 || width == 4) && pos < |input| && ReadUnsigned(input, pos + 1, width).Good?
    requires input[pos] == if width == 1 then one else if width == 2 then two else four
    ensures var n := ReadUnsigned(input, pos + 1, width).value;
            n < Range(width) && On(input, pos, Head(n, width, fix, one, two, four))
  {
    hide ReadUnsigned, NumberBytes, On;
    NumberThere(input, pos + 1, width);
    OnOne(input, pos);
    OnJoin(input, pos, [input[pos]], NumberBytes(ReadUnsigned(input, pos + 1, width).value, width));
  }

  lemma FixedHead(input: seq<byte>, pos: nat, n: nat, fix: nat, one: byte, two: byte, four: byte)
    requires pos < |input| && fix + n < 0x100 && input[pos] as nat == fix + n
    ensures On(input, pos, Head(n, 0, fix, one, two, four))
  {
    OnOne(input, pos);
  }

  /** A string of known length, behind its head. */
  lemma StringThere(input: seq<byte>, pos: nat, width: nat, n: nat) returns (s: PackedString)
    requires Fits(n, width, 0x20) && On(input, pos, Head(n, width, 0xA0, 0xD9, 0xDA, 0xDB))
    requires ReadBytes(input, pos + 1 + width, n).Good?
    ensures LegalString(s) && s.text == ReadBytes(input, pos + 1 + width, n).value
    ensures On(input, pos, EncodedString(s)) && |EncodedString(s)| == 1 + width + n
  {
    hide ReadBytes, On, Head;
    BytesThere(input, pos + 1 + width, n);
    s := PackedString(width, ReadBytes(input, pos + 1 + width, n).value);
    OnJoin(input, pos, Head(n, width, 0xA0, 0xD9, 0xDA, 0xDB), s.text);
  }

  lemma SizedString(input: seq<byte>, pos: nat, width: nat) returns (s: PackedString)
    requires (width == 1 || width == 2 || width == 4) && pos < |input|
    requires input[pos] == if width == 1 then 0xD9 else if width == 2 then 0xDA else 0xDB
    requires ReadSizedKey(input, pos + 1, width).Good?
    ensures LegalString(s) && On(input, pos, EncodedString(s))
    ensures ReadSizedKey(input, pos + 1, width) == Good(s.text, pos + |EncodedString(s)|)
  {
    hide ReadBytes, ReadUnsigned, On, Head;
    HeadThere(input, pos, width, 0xA0, 0xD9, 0xDA, 0xDB);
    var n := ReadUnsigned(input, pos + 1, width).value;
    s := StringThere(input, pos, width, n);
    BytesThere(input, pos + 1 + width, n);
  }

  lemma KeyThere(input: seq<byte>, pos: nat) returns (s: PackedString)
    requires ReadKey(input, pos).Good?
    ensures LegalString(s) && On(input, pos, EncodedString(s)) && ReadKey(input, pos) == Good(s.text, pos + |EncodedString(s)|)
  {
    hide ReadBytes, ReadSizedKey, On, Head, EncodedString;
    var code := input[pos];
    if 0xA0 <= code < 0xC0 {
      var n := code as nat - 0xA0;
      FixedHead(input, pos, n, 0xA0, 0xD9, 0xDA, 0xDB);
      s := StringThere(input, pos, 0, n);
      BytesThere(input, pos + 1, n);
    } else {
      s := SizedString(input, pos, if code == 0xD9 then 1 else if code == 0xDA then 2 else 4);
    }
  }

  // ---- Values ----

  /** What is to be shown: `p` is there, and is what was read. */
  ghost predicate There(input: seq<byte>, pos: nat, p: Packed, limit: nat, r: Parsed<Tree>) {
    LegalPacked(p) && On(input, pos, Encoded(p)) && r == Result(PackedMeans(p, limit), pos + |Encoded(p)|)
  }

  lemma IntegerThere(input: seq<byte>, pos: nat, width: nat, signed: bool, limit: nat) returns (p: Packed)
    requires (width == 1 || width == 2 || width == 4 || width == 8) && pos < |input|
    requires input[pos] == if signed then SignedCode(width) else UnsignedCode(width)
    requires ReadInteger(input, pos + 1, width, signed).Good?
    ensures There(input, pos, p, limit, ReadInteger(input, pos + 1, width, signed))
  {
    hide ReadUnsigned, NumberBytes, On, Power256;
    NumberThere(input, pos + 1, width);
    R.RangePower(width);
    var n := ReadUnsigned(input, pos + 1, width).value;
    EndOf(input, pos + 1, width);
    OnOne(input, pos);
    OnJoin(input, pos, [input[pos]], NumberBytes(n, width));
    if signed {
      p := Packed.Signed(width, if n * 2 < Range(width) then n else n - Range(width));
    } else {
      p := Unsigned(width, n);
    }
  }

  lemma EndOf(input: seq<byte>, pos: nat, k: nat)
    requires ReadUnsigned(input, pos, k).Good?
    ensures ReadUnsigned(input, pos, k).pos == pos + k
  {
  }

  lemma TextThere(input: seq<byte>, pos: nat, limit: nat) returns (p: Packed)
    requires pos < |input| && (0xA0 <= input[pos] < 0xC0 || 0xD9 <= input[pos] <= 0xDB)
    requires UnpackScalar(input, pos + 1, input[pos]).Good?
    ensures There(input, pos, p, limit, UnpackScalar(input, pos + 1, input[pos]))
  {
    hide ReadBytes, ReadUnsigned, On, SkipSized, SkipBytes, ReadInteger, EncodedString;
    var s := KeyThere(input, pos);
    p := Str(s);
  }

  lemma SkippedThere(input: seq<byte>, pos: nat, n: nat) returns (s: seq<byte>)
    requires SkipBytes(input, pos, n).Good?
    ensures |s| == n && On(input, pos, s) && SkipBytes(input, pos, n) == Good(Null, pos + n)
  {
    s := input[pos..pos + n];
  }

  lemma BinThere(input: seq<byte>, pos: nat, width: nat, limit: nat) returns (p: Packed)
    requires (width == 1 || width == 2 || width == 4) && pos < |input|
    requires input[pos] == if width == 1 then 0xC4 else if width == 2 then 0xC5 else 0xC6
    requires SkipSized(input, pos + 1, width, 0).Good?
    ensures There(input, pos, p, limit, SkipSized(input, pos + 1, width, 0))
  {
    hide ReadUnsigned, On, Head, SkipBytes;
    HeadThere(input, pos, width, 0, 0xC4, 0xC5, 0xC6);
    EndOf(input, pos + 1, width);
    var n := ReadUnsigned(input, pos + 1, width).value;
    var s := SkippedThere(input, pos + 1 + width, n);
    OnJoin(input, pos, Head(n, width, 0, 0xC4, 0xC5, 0xC6), s);
    p := Bin(width, s);
  }

  lemma HugeThere(input: seq<byte>, pos: nat, limit: nat)
    requires pos < |input| && input[pos] == 0xC9 && ReadUnsigned(input, pos + 1, 4) == Good(0xFFFF_FFFF, pos + 5)
    ensures There(input, pos, HugeExt, limit, Good(Null, pos + 5))
  {
    hide ReadUnsigned, On, NumberBytes;
    NumberThere(input, pos + 1, 4);
    R.HugeLength();
    OnOne(input, pos);
    OnJoin(input, pos, [input[pos]], NumberBytes(0xFFFF_FFFF, 4));
  }

  lemma ExtThere(input: seq<byte>, pos: nat, width: nat, limit: nat) returns (p: Packed)
    requires (width == 1 || width == 2 || width == 4) && pos < |input|
    requires input[pos] == if width == 1 then 0xC7 else if width == 2 then 0xC8 else 0xC9
    requires SkipSized(input, pos + 1, width, 1).Good?
    ensures There(input, pos, p, limit, SkipSized(input, pos + 1, width, 1))
  {
    hide ReadUnsigned, On, Head, SkipBytes, There;
    HeadThere(input, pos, width, 0, 0xC7, 0xC8, 0xC9);
    EndOf(input, pos + 1, width);
    var n := ReadUnsigned(input, pos + 1, width).value;
    if n == 0xFFFF_FFFF {
      HugeThere(input, pos, limit);
      var s := SkippedThere(input, pos + 5, 0);
      p := HugeExt;
    } else {
      var s := SkippedThere(input, pos + 1 + width, n + 1);
      p := ExtWith(input, pos, width, n, s, limit);
    }
  }

  lemma ExtWith(input: seq<byte>, pos: nat, width: nat, n: nat, s: seq<byte>, limit: nat) returns (p: Packed)
    requires LegalExt(width, n) && |s| == n + 1 && On(input, pos, ExtHead(width, n)) && On(input, pos + 1 + width, s)
    ensures There(input, pos, p, limit, Good(Null, pos + 1 + width + |s|))
  {
    hide On, ExtHead;
    p := Ext(width, s[0], s[1..]);
    assert [s[0]] + s[1..] == s;
    OnJoin(input, pos, ExtHead(width, n), s);
  }

  lemma FixedExtThere(input: seq<byte>, pos: nat, limit: nat) returns (p: Packed)
    requires pos < |input| && 0xD4 <= input[pos] <= 0xD8 && UnpackScalar(input, pos + 1, input[pos]).Good?
    ensures There(input, pos, p, limit, UnpackScalar(input, pos + 1, input[pos]))
  {
    hide On, There, SkipBytes, SkipSized, ReadText, ReadSizedText, ReadInteger;
    var n := R.CodeSize(input[pos]);
    var s := SkippedThere(input, pos + 1, n);
    FixedExtHead(input, pos);
    p := ExtWith(input, pos, 0, n - 1, s, limit);
  }

  lemma FixedExtHead(input: seq<byte>, pos: nat)
    requires pos < |input| && 0xD4 <= input[pos] <= 0xD8
    ensures LegalExt(0, R.CodeSize(input[pos]) - 1) && On(input, pos, ExtHead(0, R.CodeSize(input[pos]) - 1))
  {
    OnOne(input, pos);
  }

  lemma PlainThere(input: seq<byte>, pos: nat, limit: nat) returns (p: Packed)
    requires pos < |input| && CollectionOf(input[pos]) == Scalar && UnpackScalar(input, pos + 1, input[pos]).Good?
    requires var code := input[pos]; code == 0xC0 || code == 0xC2 || code == 0xC3 || code < 0x80 || code >= 0xE0
    ensures There(input, pos, p, limit, UnpackScalar(input, pos + 1, input[pos]))
  {
    hide SkipBytes, SkipSized, ReadText, ReadSizedText, ReadInteger;
    var code := input[pos];
    OnOne(input, pos);
    p := if code == 0xC0 then Nil else if code == 0xC2 || code == 0xC3 then Bool(code == 0xC3)
         else Fixed(if code < 0x80 then code as int else code as int - 0x100);
  }

  lemma ScalarThere(input: seq<byte>, pos: nat, limit: nat) returns (p: Packed)
    requires pos < |input| && CollectionOf(input[pos]) == Scalar && UnpackScalar(input, pos + 1, input[pos]).Good?
    ensures There(input, pos, p, limit, UnpackScalar(input, pos + 1, input[pos]))
  {
    hide There, SkipBytes, SkipSized, ReadText, ReadSizedText, ReadInteger;
    var code, width := input[pos], R.CodeWidth(input[pos]);
    if 0xC4 <= code <= 0xC6 {
      p := BinThere(input, pos, width, limit);
    } else if 0xC7 <= code <= 0xC9 {
      p := ExtThere(input, pos, width, limit);
    } else if 0xCC <= code <= 0xD3 {
      p := IntegerThere(input, pos, width, code >= 0xD0, limit);
    } else if 0xD4 <= code <= 0xD8 {
      p := FixedExtThere(input, pos, limit);
    } else if 0xA0 <= code < 0xC0 || 0xD9 <= code <= 0xDB {
      p := TextThere(input, pos, limit);
    } else {
      p := PlainThere(input, pos, limit);
    }
  }

  // ---- Collections ----

  lemma LengthThere(input: seq<byte>, pos: nat, fix: nat, two: byte, four: byte, width: nat)
    requires pos < |input| && (width == 0 || width == 2 || width == 4) && fix % 0x10 == 0
    requires if width == 0 then fix <= input[pos] as nat < fix + 0x10 else input[pos] == (if width == 2 then two else four)
    requires ReadLength(input, pos + 1, input[pos], width).Good?
    ensures var n := ReadLength(input, pos + 1, input[pos], width);
            Fits(n.value, width, 0x10) && n.pos == pos + 1 + width
            && (width == 0 ==> fix + n.value < 0x100) && On(input, pos, Head(n.value, width, fix, 0, two, four))
  {
    hide ReadUnsigned, On, Head;
    if width == 0 {
      FixedHead(input, pos, input[pos] as nat % 0x10, fix, 0, two, four);
    } else {
      HeadThere(input, pos, width, fix, 0, two, four);
      EndOf(input, pos + 1, width);
    }
  }

  /** Whatever is read as a value is an encoding of it. */
  lemma {:induction false} ValueThere(input: seq<byte>, pos: nat, limit: nat) returns (p: Packed)
    requires Unpack(input, pos, limit).Good?
    ensures There(input, pos, p, limit, Unpack(input, pos, limit))
    decreases limit, 1, 0
  {
    hide There, UnpackScalar, UnpackItems, UnpackMembers, ReadLength, Head, On;
    var code := input[pos];
    match CollectionOf(code)
    case Scalar => p := ScalarThere(input, pos, limit);
    case Items(width) =>
      LengthThere(input, pos, 0x90, 0xDC, 0xDD, width);
      var n := ReadLength(input, pos + 1, code, width);
      Reached(input, pos, Head(n.value, width, 0x90, 0, 0xDC, 0xDD));
      var items := ItemsThere(input, n.pos, limit, n.value, []);
      p := ArrayThere(input, pos, limit, width, items);
    case Members(width) =>
      LengthThere(input, pos, 0x80, 0xDE, 0xDF, width);
      var n := ReadLength(input, pos + 1, code, width);
      Reached(input, pos, Head(n.value, width, 0x80, 0, 0xDE, 0xDF));
      var members := MembersThere(input, n.pos, limit, n.value, []);
      p := MapThere(input, pos, limit, width, members);
  }

  lemma ArrayThere(input: seq<byte>, pos: nat, limit: nat, width: nat, items: PackedItems) returns (p: Packed)
    requires limit > 0 && width != 1 && Fits(CountItems(items), width, 0x10) && LegalItemsOf(items)
    requires On(input, pos, Head(CountItems(items), width, 0x90, 0, 0xDC, 0xDD)) && On(input, pos + 1 + width, EncodedItems(items))
    requires PackedItemsMean(items, limit - 1, []).Is?
    ensures There(input, pos, p, limit, Good(List(PackedItemsMean(items, limit - 1, []).value), pos + 1 + width + |EncodedItems(items)|))
  {
    hide On, Head, EncodedItems, PackedItemsMean, CountItems;
    p := Array(width, items);
    OnJoin(input, pos, Head(CountItems(items), width, 0x90, 0, 0xDC, 0xDD), EncodedItems(items));
  }

  lemma MapThere(input: seq<byte>, pos: nat, limit: nat, width: nat, members: PackedMembers) returns (p: Packed)
    requires limit > 0 && width != 1 && Fits(CountMembers(members), width, 0x10) && LegalMembersOf(members)
    requires On(input, pos, Head(CountMembers(members), width, 0x80, 0, 0xDE, 0xDF)) && On(input, pos + 1 + width, EncodedMembers(members))
    requires PackedMembersMean(members, limit - 1, []).Is?
    ensures There(input, pos, p, limit, Good(Record(PackedMembersMean(members, limit - 1, []).value), pos + 1 + width + |EncodedMembers(members)|))
  {
    hide On, Head, EncodedMembers, PackedMembersMean, CountMembers;
    p := Map(width, members);
    OnJoin(input, pos, Head(CountMembers(members), width, 0x80, 0, 0xDE, 0xDF), EncodedMembers(members));
  }

  lemma {:induction false} ItemsThere(input: seq<byte>, pos: nat, limit: nat, n: nat, earlier: seq<Tree>) returns (items: PackedItems)
    requires limit > 0 && UnpackItems(input, pos, limit, n, earlier).Good? && pos <= |input|
    ensures LegalItemsOf(items) && CountItems(items) == n && On(input, pos, EncodedItems(items))
    ensures UnpackItems(input, pos, limit, n, earlier) == Result(PackedItemsMean(items, limit - 1, earlier), pos + |EncodedItems(items)|)
    decreases limit, 0, n
  {
    hide Unpack, Encoded, LegalPacked, PackedMeans, On;
    if n == 0 {
      items := NoItems;
      NothingThere(input, pos);
    } else {
      var p := ValueThere(input, pos, limit - 1);
      var r := Unpack(input, pos, limit - 1);
      Reached(input, pos, Encoded(p));
      var rest := ItemsThere(input, r.pos, limit, n - 1, earlier + [r.value]);
      items := Item(p, rest);
      OnJoin(input, pos, Encoded(p), EncodedItems(rest));
    }
  }

  lemma NothingThere(input: seq<byte>, pos: nat)
    requires pos <= |input|
    ensures On(input, pos, [])
  {
  }

  lemma Reached(input: seq<byte>, pos: nat, s: seq<byte>)
    requires On(input, pos, s)
    ensures pos + |s| <= |input|
  {
  }

  lemma {:induction false} MembersThere(input: seq<byte>, pos: nat, limit: nat, n: nat, earlier: seq<Pair>) returns (members: PackedMembers)
    requires limit > 0 && UnpackMembers(input, pos, limit, n, earlier).Good? && pos <= |input|
    ensures LegalMembersOf(members) && CountMembers(members) == n && On(input, pos, EncodedMembers(members))
    ensures UnpackMembers(input, pos, limit, n, earlier)
         == Result(PackedMembersMean(members, limit - 1, earlier), pos + |EncodedMembers(members)|)
    decreases limit, 0, n
  {
    hide Unpack, Encoded, LegalPacked, PackedMeans, On, ReadKey, EncodedString, LegalString, Cut;
    if n == 0 {
      members := NoMembers;
      NothingThere(input, pos);
    } else {
      var key := KeyThere(input, pos);
      var valueAt := pos + |EncodedString(key)|;
      var p := ValueThere(input, valueAt, limit - 1);
      var r := Unpack(input, valueAt, limit - 1);
      Reached(input, valueAt, Encoded(p));
      var rest := MembersThere(input, r.pos, limit, n - 1, earlier + [Pair(Cut(key.text), r.value)]);
      members := Member(key, p, rest);
      OnJoin(input, valueAt, Encoded(p), EncodedMembers(rest));
      OnJoin(input, pos, EncodedString(key), Encoded(p) + EncodedMembers(rest));
    }
  }

  /**
   Whatever is deserialized is, up to where reading stopped, the MessagePack encoding of what it yields. With
   `ReadsAnyEncoding`: input is accepted if and only if it begins with an encoding without floats, nested within the limit.
   */
  lemma AcceptsOnlyEncodings(input: seq<byte>, limit: nat) returns (p: Packed)
    requires Deserialize(input, limit).Good?
    ensures LegalPacked(p) && Encoded(p) <= input
    ensures Deserialize(input, limit) == Result(PackedMeans(p, limit), |Encoded(p)|)
  {
    hide Unpack, Encoded, PackedMeans, LegalPacked;
    p := ValueThere(input, 0, limit);
    assert input[0..|Encoded(p)|] == Encoded(p);
  }
}
