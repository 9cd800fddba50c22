/** ArduinoJson writes the shortest MessagePack encoding there is of a document. */
module MsgPackShortest {
  import opened Common
  import opened JsonTree
  import opened MsgPackSpec
  import opened MsgPackMeaning

  // ---- Lengths of what is written ----

  lemma LengthSize(n: nat, small: byte, room: nat, code8: Option<byte>, code16: byte, code32: byte)
    requires n < 0x1_0000_0000 && small as nat + room <= 256
    ensures |PackLength(n, small, room, code8, code16, code32)|
         == if n < room then 1 else if code8.Some? && n < 0x100 then 2 else if n < 0x1_0000 then 3 else 5
  {
    hide BigEndian;
  }

  lemma IntegerSize(n: int)
    requires INT64_MIN <= n <= UINT64_MAX
    ensures |PackInteger(n)|
         == if -0x20 <= n < 0x80 then 1 else if -0x80 <= n < 0x100 then 2 else if -0x8000 <= n < 0x1_0000 then 3
            else if -0x8000_0000 <= n < 0x1_0000_0000 then 5 else 9
  {
    hide BigEndian;
  }

  lemma StringSize(s: PackedString)
    requires LegalString(s)
    ensures |PackString(s.text)| <= |EncodedString(s)|
  {
    hide PackLength, Head;
    LengthSize(|s.text|, 0xA0, 0x20, Some(0xD9), 0xDA, 0xDB);
  }

  lemma ScalarSize(p: Packed, n: int)
    requires LegalPacked(p) && ((p.Fixed? && p.n == n) || (p.Unsigned? && p.n == n) || (p.Signed? && p.n == n))
    ensures INT64_MIN <= n <= UINT64_MAX && |PackInteger(n)| <= |Encoded(p)|
  {
    hide PackInteger, NumberBytes;
    IntegerSize(n);
  }

  /** A key written is no longer than the key it was cut from. */
  lemma KeySize(s: PackedString)
    requires LegalString(s)
    ensures |Cut(s.text)| < 0x1_0000_0000 && 0 !in Cut(s.text) && |PackString(Cut(s.text))| <= |EncodedString(s)|
  {
    hide PackLength, Head;
    LengthSize(|Cut(s.text)|, 0xA0, 0x20, Some(0xD9), 0xDA, 0xDB);
  }

  // ---- Collections ----

  lemma {:induction false} ItemsShortest(items: PackedItems, limit: nat, earlier: seq<Tree>, trees: seq<Tree>)
    requires LegalItemsOf(items) && PackedItemsMean(items, limit, earlier) == Is(trees)
    ensures |trees| == |earlier| + CountItems(items)
    ensures PackableItems(trees[|earlier|..]) && |PackItems(trees[|earlier|..])| <= |EncodedItems(items)|
    ensures trees[..|earlier|] == earlier
    decreases items, 0
  {
    hide Pack, Encoded, Packable, LegalPacked, PackedMeans;
    match items
    case NoItems => assert trees[|earlier|..] == [];
    case Item(value, rest) =>
      var tree := PackedMeans(value, limit).value;
      Shortest(value, limit, tree);
      ItemsShortest(rest, limit, earlier + [tree], trees);
      var own := trees[|earlier|..];
      assert own[0] == trees[..|earlier| + 1][|earlier|] == tree;
      assert own[1..] == trees[|earlier| + 1..];
      assert trees[..|earlier|] == trees[..|earlier| + 1][..|earlier|];
  }

  lemma {:induction false} MembersShortest(members: PackedMembers, limit: nat, earlier: seq<Pair>, pairs: seq<Pair>)
    requires LegalMembersOf(members) && PackedMembersMean(members, limit, earlier) == Is(pairs)
    ensures |pairs| == |earlier| + CountMembers(members)
    ensures PackableMembers(pairs[|earlier|..]) && |PackMembers(pairs[|earlier|..])| <= |EncodedMembers(members)|
    ensures pairs[..|earlier|] == earlier
    decreases members, 0
  {
    hide Pack, Encoded, Packable, LegalPacked, PackedMeans, PackString, EncodedString, Cut, LegalString;
    match members
    case NoMembers => assert pairs[|earlier|..] == [];
    case Member(key, value, rest) =>
      var pair := Pair(Cut(key.text), PackedMeans(value, limit).value);
      KeySize(key);
      Shortest(value, limit, pair.value);
      MembersShortest(rest, limit, earlier + [pair], pairs);
      var own := pairs[|earlier|..];
      assert own[0] == pairs[..|earlier| + 1][|earlier|] == pair;
      assert own[1..] == pairs[|earlier| + 1..];
      assert pairs[..|earlier|] == pairs[..|earlier| + 1][..|earlier|];
  }

  lemma {:induction false} ArrayShortest(width: nat, items: PackedItems, limit: nat, trees: seq<Tree>)
    requires LegalPacked(Array(width, items)) && limit > 0 && PackedItemsMean(items, limit - 1, []) == Is(trees)
    ensures Packable(List(trees)) && |Pack(List(trees))| <= |Encoded(Array(width, items))|
    decreases items, 1
  {
    hide PackLength, PackItems, EncodedItems, Head, CountItems, PackableItems;
    ItemsShortest(items, limit - 1, [], trees);
    assert trees[0..] == trees;
    LengthSize(|trees|, 0x90, 0x10, None, 0xDC, 0xDD);
  }

  lemma {:induction false} MapShortest(width: nat, members: PackedMembers, limit: nat, pairs: seq<Pair>)
    requires LegalPacked(Map(width, members)) && limit > 0 && PackedMembersMean(members, limit - 1, []) == Is(pairs)
    ensures Packable(Record(pairs)) && |Pack(Record(pairs))| <= |Encoded(Map(width, members))|
    decreases members, 1
  {
    hide PackLength, PackMembers, EncodedMembers, Head, CountMembers, PackableMembers;
    MembersShortest(members, limit - 1, [], pairs);
    assert pairs[0..] == pairs;
    LengthSize(|pairs|, 0x80, 0x10, None, 0xDE, 0xDF);
  }

  /** No encoding of a document is shorter than the one written. */
  lemma {:induction false} Shortest(p: Packed, limit: nat, t: Tree)
    requires LegalPacked(p) && PackedMeans(p, limit) == Is(t)
    ensures Packable(t) && |Pack(t)| <= |Encoded(p)|
    decreases p
  {
    hide PackInteger, PackString, EncodedString, PackItems, PackMembers, PackedItemsMean, PackedMembersMean, PackLength, Head;
    match p
    case Fixed(n) => ScalarSize(p, n);
    case Unsigned(_, n) => ScalarSize(p, n);
    case Signed(_, n) => ScalarSize(p, n);
    case Str(str) => StringSize(str);
    case Array(width, items) => ArrayShortest(width, items, limit, t.items);
    case Map(width, members) => MapShortest(width, members, limit, t.members);
    case _ =>
  }
}
