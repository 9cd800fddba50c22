/** The MessagePack serializer and deserializer themselves, proved against MsgPackSpec. */
module MsgPack {
  import opened Common
  import opened JsonTree
  import opened MsgPackSpec

  class Serializer {
    var output: seq<byte>

    constructor ()
      ensures output == []
    {
      output := [];
    }

    method WriteByte(c: byte)
      modifies this
      ensures output == old(output) + [c]
    {
      output := output + [c];
    }

    method WriteBytes(s: seq<byte>)
      modifies this
      ensures output == old(output) + s
    {
      output := output + s;
    }

    /** The lowest `k` bytes of a number, highest first. */
    method WriteInteger(n: nat, k: nat)
      modifies this
      ensures output == old(output) + BigEndian(n, k)
    {
      WriteBytes(BigEndian(n, k));
    }

    method VisitUnsigned(n: nat)
      requires n <= UINT64_MAX
      modifies this
      ensures output == old(output) + PackUnsigned(n)
    {
      hide BigEndian;
      if n <= 0x7F {
        WriteInteger(n, 1);
      } else if n <= 0xFF {
        WriteByte(0xCC);
        WriteInteger(n, 1);
      } else if n <= 0xFFFF {
        WriteByte(0xCD);
        WriteInteger(n, 2);
      } else if n <= 0xFFFF_FFFF {
        WriteByte(0xCE);
        WriteInteger(n, 4);
      } else {
        WriteByte(0xCF);
        WriteInteger(n, 8);
      }
    }

    method VisitInteger(n: int)
      requires INT64_MIN <= n <= UINT64_MAX
      modifies this
      ensures output == old(output) + PackInteger(n)
    {
      hide BigEndian, Complement, PackUnsigned;
      Powers();
      if n > 0 {
        VisitUnsigned(n);
      } else if n >= -0x20 {
        WriteInteger(Complement(n, 1), 1);
      } else if n >= -0x80 {
        WriteByte(0xD0);
        WriteInteger(Complement(n, 1), 1);
      } else if n >= -0x8000 {
        WriteByte(0xD1);
        WriteInteger(Complement(n, 2), 2);
      } else if n >= -0x8000_0000 {
        WriteByte(0xD2);
        WriteInteger(Complement(n, 4), 4);
      } else {
        WriteByte(0xD3);
        WriteInteger(Complement(n, 8), 8);
      }
    }

    method VisitString(s: seq<byte>)
      requires |s| < 0x1_0000_0000
      modifies this
      ensures output == old(output) + PackString(s)
    {
      hide BigEndian;
      var n := |s|;
      if n < 0x20 {
        WriteByte((0xA0 + n) as byte);
      } else if n < 0x100 {
        WriteByte(0xD9);
        WriteInteger(n, 1);
      } else if n < 0x10000 {
        WriteByte(0xDA);
        WriteInteger(n, 2);
      } else {
        WriteByte(0xDB);
        WriteInteger(n, 4);
      }
      assert output == old(output) + PackLength(n, 0xA0, 0x20, Some(0xD9), 0xDA, 0xDB);
      WriteBytes(s);
    }

    method Visit(t: Tree)
      requires Packable(t)
      modifies this
      ensures output == old(output) + Pack(t)
      decreases t
    {
      hide PackString, PackInteger, PackItems, PackMembers, PackLength;
      match t
      case Null => WriteByte(0xC0);
      case Boolean(b) => WriteByte(if b then 0xC3 else 0xC2);
      case Integer(n) => VisitInteger(n);
      case Text(bytes) => VisitString(bytes);
      case List(items) => VisitArray(items);
      case Record(members) => VisitObject(members);
    }

    lemma PackableFrom(items: seq<Tree>, i: nat)
      requires PackableItems(items) && i <= |items|
      ensures PackableItems(items[i..])
    {
      if i > 0 {
        PackableFrom(items[1..], i - 1);
        assert items[1..][i - 1..] == items[i..];
      }
    }

    method VisitArray(items: seq<Tree>)
      requires Packable(List(items))
      modifies this
      ensures output == old(output) + Pack(List(items))
      decreases items
    {
      hide BigEndian, Pack, Packable;
      PackableList(items);
      var n := |items|;
      if n < 0x10 {
        WriteByte((0x90 + n) as byte);
      } else if n < 0x10000 {
        WriteByte(0xDC);
        WriteInteger(n, 2);
      } else {
        WriteByte(0xDD);
        WriteInteger(n, 4);
      }
      assert output == old(output) + PackLength(n, 0x90, 0x10, None, 0xDC, 0xDD);
      ghost var start := output;
      PackableFrom(items, 0);
      assert items[0..] == items;
      for i := 0 to n
        invariant PackableItems(items[i..]) && output + PackItems(items[i..]) == start + PackItems(items)
      {
        assert items[i..][1..] == items[i + 1..];
        VisitItem(items, i);
      }
      assert items[n..] == [] && PackItems([]) == [] && output + [] == output;
    }

    lemma PackableList(items: seq<Tree>)
      requires Packable(List(items))
      ensures |items| < 0x1_0000_0000 && PackableItems(items)
      ensures Pack(List(items)) == PackLength(|items|, 0x90, 0x10, None, 0xDC, 0xDD) + PackItems(items)
    {
    }

    method VisitItem(items: seq<Tree>, i: nat)
      requires i < |items| && PackableItems(items[i..])
      modifies this
      ensures PackableItems(items[i + 1..]) && output + PackItems(items[i + 1..]) == old(output) + PackItems(items[i..])
      decreases items, 0
    {
      hide Pack, Packable;
      assert items[i..][1..] == items[i + 1..];
      Visit(items[i]);
      Associative(old(output), Pack(items[i]), PackItems(items[i + 1..]));
    }

    lemma PackableRecord(members: seq<Pair>)
      requires Packable(Record(members))
      ensures |members| < 0x1_0000_0000 && PackableMembers(members)
      ensures Pack(Record(members)) == PackLength(|members|, 0x80, 0x10, None, 0xDE, 0xDF) + PackMembers(members)
    {
    }

    method VisitObject(members: seq<Pair>)
      requires Packable(Record(members))
      modifies this
      ensures output == old(output) + Pack(Record(members))
      decreases members
    {
      hide BigEndian, Pack, Packable;
      PackableRecord(members);
      var n := |members|;
      if n < 0x10 {
        WriteByte((0x80 + n) as byte);
      } else if n < 0x10000 {
        WriteByte(0xDE);
        WriteInteger(n, 2);
      } else {
        WriteByte(0xDF);
        WriteInteger(n, 4);
      }
      assert output == old(output) + PackLength(n, 0x80, 0x10, None, 0xDE, 0xDF);
      ghost var start := output;
      assert members[0..] == members;
      for i := 0 to n
        invariant PackableMembers(members[i..]) && output + PackMembers(members[i..]) == start + PackMembers(members)
      {
        VisitMember(members, i);
      }
      assert members[n..] == [] && PackMembers([]) == [] && output + [] == output;
    }

    /** A key is written up to its first zero byte, and a value behind it. */
    method VisitMember(members: seq<Pair>, i: nat)
      requires i < |members| && PackableMembers(members[i..])
      modifies this
      ensures PackableMembers(members[i + 1..]) && output + PackMembers(members[i + 1..]) == old(output) + PackMembers(members[i..])
      decreases members, 0
    {
      hide Pack, Packable, PackString;
      assert members[i..][1..] == members[i + 1..];
      VisitString(Cut(members[i].key));
      ghost var key := PackString(members[i].key);
      Visit(members[i].value);
      Associative(old(output), key, Pack(members[i].value));
      Associative(old(output) + key, Pack(members[i].value), PackMembers(members[i + 1..]));
      Associative(old(output), key, Pack(members[i].value) + PackMembers(members[i + 1..]));
    }
  }

  class Deserializer {
    const input: seq<byte>
    var position: nat
    var foundSomething: bool

    constructor (input: seq<byte>)
      ensures Valid() && this.input == input && position == 0 && !foundSomething
    {
      this.input := input;
      position, foundSomething := 0, false;
    }

    ghost predicate Valid()
      reads this
    {
      position <= |input|
    }

    method NextByte() returns (c: Option<byte>)
      requires Valid()
      modifies this`position
      ensures Valid()
      ensures c == if old(position) < |input| then Some(input[old(position)]) else None
      ensures position == if c.Some? then old(position) + 1 else old(position)
    {
      if position >= |input| {
        return None;
      }
      c := Some(input[position]);
      position := position + 1;
    }

    /** `n` bytes, read one by one. */
    method TakeBytes(n: nat) returns (r: Parsed<seq<byte>>)
      requires Valid()
      modifies this`position
      ensures Valid() && r == ReadBytes(input, old(position), n) && (r.Good? ==> position == r.pos)
    {
      var bytes := [];
      for i := 0 to n
        invariant Valid() && position == old(position) + i && bytes == input[old(position)..position]
      {
        var c := NextByte();
        if c.None? {
          return Bad(IncompleteInput);
        }
        bytes := bytes + [c.value];
      }
      return Good(bytes, position);
    }

    method Skip(n: nat) returns (r: Parsed<Tree>)
      requires Valid()
      modifies this`position
      ensures Valid() && r == SkipBytes(input, old(position), n) && (r.Good? ==> position == r.pos)
    {
      for i := 0 to n
        invariant Valid() && position == old(position) + i
      {
        var c := NextByte();
        if c.None? {
          return Bad(IncompleteInput);
        }
      }
      return Good(Null, position);
    }

    method TakeUnsigned(k: nat) returns (r: Parsed<nat>)
      requires Valid()
      modifies this`position
      ensures Valid() && r == ReadUnsigned(input, old(position), k) && (r.Good? ==> position == r.pos)
    {
      var bytes := TakeBytes(k);
      if !bytes.Good? {
        return Bad(IncompleteInput);
      }
      return Good(FromBigEndian(bytes.value), position);
    }

    method SkipString(k: nat, extra: nat) returns (r: Parsed<Tree>)
      requires Valid()
      modifies this`position
      ensures Valid() && r == SkipSized(input, old(position), k, extra) && (r.Good? ==> position == r.pos)
    {
      var n := TakeUnsigned(k);
      if n.Bad? {
        return Bad(n.code);
      }
      r := Skip((n.value + extra) % 0x1_0000_0000);
    }

    method TakeInteger(k: nat, signed: bool) returns (r: Parsed<Tree>)
      requires Valid()
      modifies this`position
      ensures Valid() && r == ReadInteger(input, old(position), k, signed) && (r.Good? ==> position == r.pos)
    {
      var n := TakeUnsigned(k);
      if n.Bad? {
        return Bad(n.code);
      }
      return Good(Integer(if signed then Signed(n.value, k) else n.value), position);
    }

    method TakeText(n: nat) returns (r: Parsed<Tree>)
      requires Valid()
      modifies this`position
      ensures Valid() && r == ReadText(input, old(position), n) && (r.Good? ==> position == r.pos)
    {
      var bytes := TakeBytes(n);
      if !bytes.Good? {
        return Bad(IncompleteInput);
      }
      return Good(Text(bytes.value), position);
    }

    method TakeSizedText(k: nat) returns (r: Parsed<Tree>)
      requires Valid()
      modifies this`position
      ensures Valid() && r == ReadSizedText(input, old(position), k) && (r.Good? ==> position == r.pos)
    {
      var n := TakeUnsigned(k);
      if n.Bad? {
        return Bad(n.code);
      }
      r := TakeText(n.value);
    }

    method TakeSizedKey(k: nat) returns (r: Parsed<seq<byte>>)
      requires Valid()
      modifies this`position
      ensures Valid() && r == ReadSizedKey(input, old(position), k) && (r.Good? ==> position == r.pos)
    {
      var n := TakeUnsigned(k);
      if n.Bad? {
        return Bad(n.code);
      }
      r := TakeBytes(n.value);
    }

    method TakeKey() returns (r: Parsed<seq<byte>>)
      requires Valid()
      modifies this`position
      ensures Valid() && r == ReadKey(input, old(position)) && (r.Good? ==> position == r.pos)
    {
      hide ReadBytes, ReadSizedKey;
      var c := NextByte();
      if c.None? {
        return Bad(IncompleteInput);
      }
      var code := c.value;
      if 0xA0 <= code < 0xC0 {
        r := TakeBytes(code as nat - 0xA0);
      } else if code == 0xD9 {
        r := TakeSizedKey(1);
      } else if code == 0xDA {
        r := TakeSizedKey(2);
      } else if code == 0xDB {
        r := TakeSizedKey(4);
      } else {
        return Bad(InvalidInput);
      }
    }

    /** Values without parts, by their code. */
    method ParseScalar(code: byte) returns (r: Parsed<Tree>)
      requires Valid()
      modifies this`position
      ensures Valid() && r == UnpackScalar(input, old(position), code) && (r.Good? ==> position == r.pos)
    {
      hide SkipSized, SkipBytes, ReadInteger, ReadText, ReadSizedText;
      if code == 0xC0 { return Good(Null, position); }
      if code == 0xC1 { return Bad(InvalidInput); }
      if code == 0xC2 { return Good(Boolean(false), position); }
      if code == 0xC3 { return Good(Boolean(true), position); }
      if code == 0xC4 { r := SkipString(1, 0); return; }
      if code == 0xC5 { r := SkipString(2, 0); return; }
      if code == 0xC6 { r := SkipString(4, 0); return; }
      if code == 0xC7 { r := SkipString(1, 1); return; }
      if code == 0xC8 { r := SkipString(2, 1); return; }
      if code == 0xC9 { r := SkipString(4, 1); return; }
      if code == 0xCA || code == 0xCB { return Outside; }
      if code == 0xCC { r := TakeInteger(1, false); return; }
      if code == 0xCD { r := TakeInteger(2, false); return; }
      if code == 0xCE { r := TakeInteger(4, false); return; }
      if code == 0xCF { r := TakeInteger(8, false); return; }
      if code == 0xD0 { r := TakeInteger(1, true); return; }
      if code == 0xD1 { r := TakeInteger(2, true); return; }
      if code == 0xD2 { r := TakeInteger(4, true); return; }
      if code == 0xD3 { r := TakeInteger(8, true); return; }
      if code == 0xD4 { r := Skip(2); return; }
      if code == 0xD5 { r := Skip(3); return; }
      if code == 0xD6 { r := Skip(5); return; }
      if code == 0xD7 { r := Skip(9); return; }
      if code == 0xD8 { r := Skip(17); return; }
      if code == 0xD9 { r := TakeSizedText(1); return; }
      if code == 0xDA { r := TakeSizedText(2); return; }
      if code == 0xDB { r := TakeSizedText(4); return; }
      if 0xA0 <= code < 0xC0 { r := TakeText(code as nat - 0xA0); return; }
      return Good(Integer(if code < 0x80 then code as int else code as int - 0x100), position);
    }

    method TakeLength(code: byte, k: nat) returns (r: Parsed<nat>)
      requires Valid()
      modifies this`position
      ensures Valid() && r == ReadLength(input, old(position), code, k) && (r.Good? ==> position == r.pos)
    {
      if k == 0 {
        return Good(code as nat % 16, position);
      }
      r := TakeUnsigned(k);
    }

    method Parse(limit: nat) returns (r: Parsed<Tree>)
      requires Valid() && position == 0 && !foundSomething
      modifies this
      ensures r == Deserialize(input, limit)
    {
      hide Unpack;
      r := ParseVariant(limit);
      if !foundSomething {
        return Bad(EmptyInput);
      }
    }

    method ParseVariant(limit: nat) returns (r: Parsed<Tree>)
      requires Valid()
      modifies this
      ensures Valid() && r == Unpack(input, old(position), limit) && (r.Good? ==> position == r.pos)
      ensures foundSomething == (old(foundSomething) || old(position) < |input|)
      decreases limit, 1
    {
      hide UnpackScalar, UnpackItems, UnpackMembers, ReadLength;
      var c := NextByte();
      if c.None? {
        return Bad(IncompleteInput);
      }
      foundSomething := true;
      match CollectionOf(c.value)
      case Scalar =>
        r := ParseScalar(c.value);
      case Items(k) =>
        var n := TakeLength(c.value, k);
        if n.Bad? {
          return Bad(n.code);
        }
        if limit == 0 {
          return Bad(TooDeep);
        }
        var items := ParseItems(limit, n.value);
        match items {
          case Good(value, end) => return Good(List(value), end);
          case Bad(code) => return Bad(code);
          case Outside => return Outside;
        }
      case Members(k) =>
        var n := TakeLength(c.value, k);
        if n.Bad? {
          return Bad(n.code);
        }
        if limit == 0 {
          return Bad(TooDeep);
        }
        var members := ParseMembers(limit, n.value);
        match members {
          case Good(value, end) => return Good(Record(value), end);
          case Bad(code) => return Bad(code);
          case Outside => return Outside;
        }
    }

    method ParseItems(limit: nat, count: nat) returns (r: Parsed<seq<Tree>>)
      requires Valid() && limit > 0 && foundSomething
      modifies this
      ensures Valid() && foundSomething && r == UnpackItems(input, old(position), limit, count, []) && (r.Good? ==> position == r.pos)
      decreases limit, 0
    {
      hide Unpack;
      var items: seq<Tree> := [];
      var n := count;
      while n > 0
        invariant Valid() && foundSomething
        invariant UnpackItems(input, position, limit, n, items) == UnpackItems(input, old(position), limit, count, [])
      {
        var item := ParseVariant(limit - 1);
        match item {
          case Good(value, _) => items := items + [value];
          case Bad(code) => return Bad(code);
          case Outside => return Outside;
        }
        n := n - 1;
      }
      return Good(items, position);
    }

    method ParseMembers(limit: nat, count: nat) returns (r: Parsed<seq<Pair>>)
      requires Valid() && limit > 0 && foundSomething
      modifies this
      ensures Valid() && foundSomething && r == UnpackMembers(input, old(position), limit, count, []) && (r.Good? ==> position == r.pos)
      decreases limit, 0
    {
      hide Unpack, ReadKey, Cut;
      var members: seq<Pair> := [];
      var n := count;
      while n > 0
        invariant Valid() && foundSomething
        invariant UnpackMembers(input, position, limit, n, members) == UnpackMembers(input, old(position), limit, count, [])
      {
        var key := TakeKey();
        if key.Bad? {
          return Bad(key.code);
        }
        var item := ParseVariant(limit - 1);
        match item {
          case Good(value, _) => members := members + [Pair(Cut(key.value), value)];
          case Bad(code) => return Bad(code);
          case Outside => return Outside;
        }
        n := n - 1;
      }
      return Good(members, position);
    }
  }
}
