/** What ArduinoJson writes as MessagePack, it reads back. */
module MsgPackProof {
  import opened Common
  import opened JsonTree
  import opened MsgPackSpec

  // ---- Numbers ----

  lemma {:induction false} BigEndianBack(n: nat, k: nat)
    requires n < Power256(k)
    ensures FromBigEndian(BigEndian(n, k)) == n
    decreases k
  {
    if k > 0 {
      BigEndianBack(n / 256, k - 1);
      var s := BigEndian(n, k);
      assert s[..|s| - 1] == BigEndian(n / 256, k - 1);
    }
  }

  lemma UnsignedBack(input: seq<byte>, pos: nat, n: nat, k: nat)
    requires n < Power256(k) && On(input, pos, BigEndian(n, k))
    ensures ReadUnsigned(input, pos, k) == Good(n, pos + k)
  {
    BigEndianBack(n, k);
  }

  lemma ComplementBack(n: int, k: nat)
    requires k > 0 && -(Power256(k) as int) <= 2 * n < Power256(k)
    ensures Complement(n, k) < Power256(k) && Signed(Complement(n, k), k) == n
  {
  }

  lemma IntegerRead(input: seq<byte>, pos: nat, n: int, k: nat, signed: bool)
    requires k > 0
    requires if signed then -(Power256(k) as int) <= 2 * n < Power256(k) else 0 <= n < Power256(k)
    requires On(input, pos, BigEndian(if signed then Complement(n, k) else n, k))
    ensures ReadInteger(input, pos, k, signed) == Good(Integer(n), pos + k)
  {
    if signed {
      ComplementBack(n, k);
    }
    UnsignedBack(input, pos, if signed then Complement(n, k) else n, k);
  }

  lemma ScalarStep(input: seq<byte>, pos: nat, code: byte, rest: seq<byte>, limit: nat)
    requires On(input, pos, [code] + rest) && CollectionOf(code) == Scalar
    ensures On(input, pos + 1, rest)
    ensures Unpack(input, pos, limit) == UnpackScalar(input, pos + 1, code)
  {
    hide UnpackScalar;
    OnFirst(input, pos, code, rest);
  }

  /** Small integers are their own code. */
  lemma SmallBack(input: seq<byte>, pos: nat, n: int, limit: nat)
    requires -0x20 <= n <= 0x7F && On(input, pos, PackInteger(n))
    ensures PackInteger(n) == [Complement(n, 1) as byte]
    ensures Unpack(input, pos, limit) == Good(Integer(n), pos + 1)
  {
    Powers();
    var code := Complement(n, 1) as byte;
    assert BigEndian(Complement(n, 1), 1) == [code];
    assert [code] == [code] + [];
    ScalarStep(input, pos, code, [], limit);
  }

  /** Integers of every size are read back, across all boundaries between the formats. */
  lemma IntegerBack(input: seq<byte>, pos: nat, n: int, limit: nat)
    requires INT64_MIN <= n <= UINT64_MAX && On(input, pos, PackInteger(n))
    ensures Unpack(input, pos, limit) == Good(Integer(n), pos + |PackInteger(n)|)
  {
    hide Unpack, BigEndian, Complement, ReadInteger;
    Powers();
    if -0x20 <= n <= 0x7F {
      SmallBack(input, pos, n, limit);
    } else {
      var (code, k, signed) :=
        if n > 0xFFFF_FFFF then (0xCF as byte, 8 as nat, false)
        else if n > 0xFFFF then (0xCE, 4, false)
        else if n > 0xFF then (0xCD, 2, false)
        else if n > 0 then (0xCC, 1, false)
        else if n >= -0x80 then (0xD0, 1, true)
        else if n >= -0x8000 then (0xD1, 2, true)
        else if n >= -0x8000_0000 then (0xD2, 4, true)
        else (0xD3, 8, true);
      var bytes := BigEndian(if signed then Complement(n, k) else n, k);
      assert PackInteger(n) == [code] + bytes;
      ScalarStep(input, pos, code, bytes, limit);
      IntegerRead(input, pos + 1, n, k, signed);
    }
  }

  // ---- Strings ----

  /** The code of a length, and how many bytes of it follow. */
  function LengthCode(n: nat, small: byte, room: nat, code8: Option<byte>, code16: byte, code32: byte): (byte, nat)
    requires n < 0x1_0000_0000 && small as nat + room <= 256
  {
    if n < room then ((small as nat + n) as byte, 0)
    else if code8.Some? && n < 0x100 then (code8.value, 1)
    else if n < 0x10000 then (code16, 2)
    else (code32, 4)
  }

  lemma LengthSplits(n: nat, small: byte, room: nat, code8: Option<byte>, code16: byte, code32: byte)
    requires n < 0x1_0000_0000 && small as nat + room <= 256
    ensures var (code, k) := LengthCode(n, small, room, code8, code16, code32);
            PackLength(n, small, room, code8, code16, code32) == [code] + (if k == 0 then [] else BigEndian(n, k))
            && (k > 0 ==> n < Power256(k))
  {
    hide BigEndian;
    Powers();
    assert [LengthCode(n, small, room, code8, code16, code32).0] + [] == [LengthCode(n, small, room, code8, code16, code32).0];
  }

  lemma BytesBack(input: seq<byte>, pos: nat, s: seq<byte>)
    requires On(input, pos, s)
    ensures ReadBytes(input, pos, |s|) == Good(s, pos + |s|)
  {
  }

  /** A string is read back, as a value and as a key. */
  lemma StringBack(input: seq<byte>, pos: nat, s: seq<byte>, limit: nat)
    requires |s| < 0x1_0000_0000 && On(input, pos, PackString(s))
    ensures Unpack(input, pos, limit) == Good(Text(s), pos + |PackString(s)|)
    ensures ReadKey(input, pos) == Good(s, pos + |PackString(s)|)
  {
    hide Unpack, BigEndian, ReadUnsigned, ReadBytes, PackLength;
    var (code, k) := LengthCode(|s|, 0xA0, 0x20, Some(0xD9), 0xDA, 0xDB);
    LengthSplits(|s|, 0xA0, 0x20, Some(0xD9), 0xDA, 0xDB);
    var length := if k == 0 then [] else BigEndian(|s|, k);
    Associative([code], length, s);
    OnFirst(input, pos, code, length + s);
    OnParts(input, pos + 1, length, s);
    ScalarStep(input, pos, code, length + s, limit);
    if k > 0 {
      UnsignedBack(input, pos + 1, |s|, k);
    }
    BytesBack(input, pos + 1 + |length|, s);
  }

  // ---- Collections ----

  lemma ListHead(input: seq<byte>, pos: nat, n: nat, rest: seq<byte>)
    requires n < 0x1_0000_0000 && On(input, pos, PackLength(n, 0x90, 0x10, None, 0xDC, 0xDD) + rest)
    ensures pos < |input| && CollectionOf(input[pos]).Items?
    ensures var next := pos + |PackLength(n, 0x90, 0x10, None, 0xDC, 0xDD)|;
            ReadLength(input, pos + 1, input[pos], CollectionOf(input[pos]).k) == Good(n, next) && On(input, next, rest)
  {
    hide BigEndian, ReadUnsigned, PackLength;
    var (code, k) := LengthCode(n, 0x90, 0x10, None, 0xDC, 0xDD);
    LengthSplits(n, 0x90, 0x10, None, 0xDC, 0xDD);
    var length := if k == 0 then [] else BigEndian(n, k);
    Associative([code], length, rest);
    OnFirst(input, pos, code, length + rest);
    OnParts(input, pos + 1, length, rest);
    if k > 0 {
      UnsignedBack(input, pos + 1, n, k);
    }
  }

  lemma RecordHead(input: seq<byte>, pos: nat, n: nat, rest: seq<byte>)
    requires n < 0x1_0000_0000 && On(input, pos, PackLength(n, 0x80, 0x10, None, 0xDE, 0xDF) + rest)
    ensures pos < |input| && CollectionOf(input[pos]).Members?
    ensures var next := pos + |PackLength(n, 0x80, 0x10, None, 0xDE, 0xDF)|;
            ReadLength(input, pos + 1, input[pos], CollectionOf(input[pos]).k) == Good(n, next) && On(input, next, rest)
  {
    hide BigEndian, ReadUnsigned, PackLength;
    var (code, k) := LengthCode(n, 0x80, 0x10, None, 0xDE, 0xDF);
    LengthSplits(n, 0x80, 0x10, None, 0xDE, 0xDF);
    var length := if k == 0 then [] else BigEndian(n, k);
    Associative([code], length, rest);
    OnFirst(input, pos, code, length + rest);
    OnParts(input, pos + 1, length, rest);
    if k > 0 {
      UnsignedBack(input, pos + 1, n, k);
    }
  }

  lemma WordBack(input: seq<byte>, pos: nat, code: byte, limit: nat)
    requires On(input, pos, [code]) && (code == 0xC0 || code == 0xC2 || code == 0xC3)
    ensures Unpack(input, pos, limit) == Good(if code == 0xC0 then Null else Boolean(code == 0xC3), pos + 1)
  {
    assert [code] == [code] + [];
    ScalarStep(input, pos, code, [], limit);
  }

  /** A packed value is read back when it is nested no deeper than the limit. */
  lemma {:induction false} ValueBack(input: seq<byte>, pos: nat, t: Tree, limit: nat)
    requires Packable(t) && On(input, pos, Pack(t))
    ensures Unpack(input, pos, limit) == Outcome(Nesting(t) > limit, t, pos + |Pack(t)|)
    decreases t
  {
    hide Unpack, PackInteger, PackString, PackLength, PackItems, PackMembers, ItemsNesting, MembersNesting;
    match t
    case Null => WordBack(input, pos, 0xC0, limit);
    case Boolean(b) => WordBack(input, pos, if b then 0xC3 else 0xC2, limit);
    case Integer(n) => IntegerBack(input, pos, n, limit);
    case Text(bytes) => StringBack(input, pos, bytes, limit);
    case List(items) => ListBack(input, pos, items, limit);
    case Record(members) => RecordBack(input, pos, members, limit);
  }

  lemma {:induction false} ListBack(input: seq<byte>, pos: nat, items: seq<Tree>, limit: nat)
    requires Packable(List(items)) && On(input, pos, Pack(List(items)))
    ensures Unpack(input, pos, limit) == Outcome(Nesting(List(items)) > limit, List(items), pos + |Pack(List(items))|)
    decreases items, 1
  {
    hide PackLength, PackItems, ItemsNesting, UnpackItems, CollectionOf, ReadLength;
    ListHead(input, pos, |items|, PackItems(items));
    if limit > 0 {
      ItemsBack(input, pos + |PackLength(|items|, 0x90, 0x10, None, 0xDC, 0xDD)|, limit, [], items);
      assert [] + items == items;
    }
  }

  lemma {:induction false} ItemsBack(input: seq<byte>, pos: nat, limit: nat, earlier: seq<Tree>, items: seq<Tree>)
    requires limit > 0 && PackableItems(items) && On(input, pos, PackItems(items))
    ensures UnpackItems(input, pos, limit, |items|, earlier)
         == Outcome(ItemsNesting(items) > limit - 1, earlier + items, pos + |PackItems(items)|)
    decreases items, 0
  {
    hide Unpack, Pack, Nesting, Packable;
    if items == [] {
      assert earlier + [] == earlier;
    } else {
      OnParts(input, pos, Pack(items[0]), PackItems(items[1..]));
      ValueBack(input, pos, items[0], limit - 1);
      ItemsBack(input, pos + |Pack(items[0])|, limit, earlier + [items[0]], items[1..]);
      assert earlier + [items[0]] + items[1..] == earlier + items;
    }
  }

  lemma {:induction false} RecordBack(input: seq<byte>, pos: nat, members: seq<Pair>, limit: nat)
    requires Packable(Record(members)) && On(input, pos, Pack(Record(members)))
    ensures Unpack(input, pos, limit)
         == Outcome(Nesting(Record(members)) > limit, Record(members), pos + |Pack(Record(members))|)
    decreases members, 1
  {
    hide PackLength, PackMembers, MembersNesting, UnpackMembers, CollectionOf, ReadLength;
    RecordHead(input, pos, |members|, PackMembers(members));
    if limit > 0 {
      MembersBack(input, pos + |PackLength(|members|, 0x80, 0x10, None, 0xDE, 0xDF)|, limit, [], members);
      assert [] + members == members;
    }
  }

  lemma {:induction false} MembersBack(input: seq<byte>, pos: nat, limit: nat, earlier: seq<Pair>, members: seq<Pair>)
    requires limit > 0 && PackableMembers(members) && On(input, pos, PackMembers(members))
    ensures UnpackMembers(input, pos, limit, |members|, earlier)
         == Outcome(MembersNesting(members) > limit - 1, earlier + members, pos + |PackMembers(members)|)
    decreases members, 0
  {
    hide Unpack, Pack, Nesting, Packable, PackString, ReadKey;
    if members == [] {
      assert earlier + [] == earlier;
    } else {
      var key, value, rest := members[0].key, members[0].value, members[1..];
      OnParts(input, pos, PackString(key), Pack(value) + PackMembers(rest));
      var valueAt := pos + |PackString(key)|;
      OnParts(input, valueAt, Pack(value), PackMembers(rest));
      StringBack(input, pos, key, limit);
      assert Pair(Cut(key), value) == members[0];
      ValueBack(input, valueAt, value, limit - 1);
      MembersBack(input, valueAt + |Pack(value)|, limit, earlier + [members[0]], rest);
      assert earlier + [members[0]] + rest == earlier + members;
    }
  }

  lemma PackStarts(t: Tree)
    requires Packable(t)
    ensures Pack(t) != []
  {
  }

  /** The MessagePack form of any document is read back as the same document, or reported as too deep beyond the limit. */
  lemma PackRoundTrip(t: Tree, limit: nat)
    requires Packable(t)
    ensures Deserialize(Pack(t), limit) == if Nesting(t) <= limit then Good(t, |Pack(t)|) else Bad(TooDeep)
  {
    hide Unpack, Pack, Nesting, Packable;
    PackStarts(t);
    assert Pack(t)[0..|Pack(t)|] == Pack(t);
    ValueBack(Pack(t), 0, t, limit);
  }
}
