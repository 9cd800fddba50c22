/** What ArduinoJson prints as JSON text, it reads back. */
module JsonTextProof {
  import opened Common
  import opened JsonTree
  import opened JsonTextSpec

  // ---- Strings ----

  /** One printed character is read back. */
  lemma CharBack(input: seq<byte>, pos: nat, c: byte, high: nat)
    requires On(input, pos, PrintChar(c)) && high < 0x400
    ensures ReadQuoted(input, pos, QUOTE, high) == Prepend([c], ReadQuoted(input, pos + |PrintChar(c)|, QUOTE, high))
  {
    var text := PrintChar(c);
    assert forall k :: pos <= k < pos + |text| ==> input[k] == input[pos..pos + |text|][k - pos];
    if Escape(c) != 0 {
      assert input[pos] == BACKSLASH && input[pos + 1] == Escape(c);
    } else if c != 0 {
      assert input[pos] == c;
    } else {
      assert input[pos] == BACKSLASH && input[pos + 1] == 117;
      assert input[pos + 2] == 48 && input[pos + 3] == 48 && input[pos + 4] == 48 && input[pos + 5] == 48;
      assert ReadHex(input, pos + 6, 0, 0) == Good(0, pos + 6);
      assert ReadHex(input, pos + 5, 1, 0) == Good(0, pos + 6);
      assert ReadHex(input, pos + 4, 2, 0) == Good(0, pos + 6);
      assert ReadHex(input, pos + 3, 3, 0) == Good(0, pos + 6);
      assert TakeUnit(0, high) == ([0], high);
    }
  }

  lemma {:induction false} CharsBack(input: seq<byte>, pos: nat, s: seq<byte>)
    requires On(input, pos, PrintChars(s) + [QUOTE])
    ensures ReadQuoted(input, pos, QUOTE, 0) == Good(s, pos + |PrintChars(s)| + 1)
    decreases |s|
  {
    hide PrintChar;
    if s == [] {
      assert PrintChars(s) + [QUOTE] == [QUOTE] + [];
      OnFirst(input, pos, QUOTE, []);
    } else {
      hide ReadQuoted;
      var first, rest := PrintChar(s[0]), PrintChars(s[1..]);
      Associative(first, rest, [QUOTE]);
      OnParts(input, pos, first, rest + [QUOTE]);
      CharBack(input, pos, s[0], 0);
      CharsBack(input, pos + |first|, s[1..]);
      assert s == [s[0]] + s[1..];
    }
  }

  /** Any string, zero bytes included, is read back. */
  lemma StringBack(input: seq<byte>, pos: nat, s: seq<byte>)
    requires On(input, pos, PrintString(s))
    ensures pos < |input| && input[pos] == QUOTE
    ensures ReadQuoted(input, pos + 1, QUOTE, 0) == Good(s, pos + |PrintString(s)|)
  {
    OnFirst(input, pos, QUOTE, PrintChars(s) + [QUOTE]);
    CharsBack(input, pos + 1, s);
  }

  // ---- Words ----

  lemma {:induction false} WordBack(input: seq<byte>, pos: nat, word: seq<byte>, value: Tree)
    requires On(input, pos, word) && 0 !in word
    ensures SkipWord(input, pos, word, value) == Good(value, pos + |word|)
    decreases |word|
  {
    if word != [] {
      assert word == [word[0]] + word[1..];
      OnFirst(input, pos, word[0], word[1..]);
      WordBack(input, pos + 1, word[1..], value);
    }
  }

  // ---- Integers ----

  lemma {:induction false} AccumulateBack(n: nat, rest: seq<byte>)
    requires n <= UINT64_MAX
    ensures Accumulate(Decimal(n) + rest, 0) == Accumulate(rest, n)
    decreases n
  {
    var d := [(48 + n % 10) as byte];
    if n < 10 {
      assert (d + rest)[1..] == rest;
    } else {
      AccumulateBack(n / 10, d + rest);
      Associative(Decimal(n / 10), d, rest);
      assert (d + rest)[1..] == rest;
    }
  }

  lemma IntegerRead(n: int)
    requires INT64_MIN <= n <= UINT64_MAX
    ensures ReadNumber(PrintInteger(n)) == Whole(n)
  {
    var digits := Decimal(if n < 0 then -n else n);
    assert IsDigit(digits[0]);
    AccumulateBack(if n < 0 then -n else n, []);
    assert digits + [] == digits;
    if n < 0 {
      assert PrintInteger(n)[1..] == digits;
    }
  }

  lemma {:induction false} NumberTextBack(input: seq<byte>, pos: nat, text: seq<byte>, room: nat)
    requires On(input, pos, text) && |text| <= room
    requires forall i :: 0 <= i < |text| ==> InNumber(text[i])
    requires |text| == room || !InNumber(Current(input, pos + |text|))
    ensures NumberText(input, pos, room) == text
    decreases |text|
  {
    if text != [] {
      assert text == [text[0]] + text[1..];
      OnFirst(input, pos, text[0], text[1..]);
      NumberTextBack(input, pos + 1, text[1..], room - 1);
    }
  }

  lemma IntegerBack(input: seq<byte>, pos: nat, n: int)
    requires INT64_MIN <= n <= UINT64_MAX && On(input, pos, PrintInteger(n))
    requires !InNumber(Current(input, pos + |PrintInteger(n)|))
    ensures ReadNumeric(input, pos) == Good(Integer(n), pos + |PrintInteger(n)|)
  {
    DecimalLength(if n < 0 then -n else n);
    NumberTextBack(input, pos, PrintInteger(n), 63);
    IntegerRead(n);
  }

  // ---- Values ----

  /** What may follow a value: nothing, for numbers, that could be part of it. */
  predicate Ended(input: seq<byte>, pos: nat, t: Tree) {
    t.Integer? ==> !InNumber(Current(input, pos))
  }

  lemma NoBlank(input: seq<byte>, pos: nat)
    requires !IsBlank(Current(input, pos))
    ensures SkipBlanks(input, pos) == pos
  {
  }

  lemma IntegerStarts(n: int)
    ensures PrintInteger(n) != []
    ensures PrintInteger(n)[0] == MINUS || IsDigit(PrintInteger(n)[0])
  {
    assert IsDigit(Decimal(if n < 0 then -n else n)[0]);
  }

  lemma ScalarBack(input: seq<byte>, pos: nat, t: Tree, limit: nat, found: bool)
    requires !t.List? && !t.Record? && Legal(t) && On(input, pos, Print(t)) && Ended(input, pos + |Print(t)|, t)
    ensures ParseValue(input, pos, limit, found, Null) == Good(t, pos + |Print(t)|)
  {
    hide ParseList, ParseRecord, ReadQuoted, ReadNumeric, SkipWord;
    match t
    case Null =>
      WordStarts(input, pos, NULL_WORD);
      WordBack(input, pos, NULL_WORD, Null);
    case Boolean(b) =>
      WordStarts(input, pos, Print(t));
      WordBack(input, pos, Print(t), t);
    case Integer(n) =>
      IntegerStarts(n);
      WordStarts(input, pos, PrintInteger(n));
      IntegerBack(input, pos, n);
    case Text(bytes) =>
      StringBack(input, pos, bytes);
  }

  lemma WordStarts(input: seq<byte>, pos: nat, text: seq<byte>)
    requires On(input, pos, text) && text != []
    ensures Current(input, pos) == text[0]
  {
    assert input[pos] == input[pos..pos + |text|][0];
  }

  /**
   A printed value is read back when it is nested no deeper than the limit; deeper nesting is reported
   as such.
   */
  lemma {:induction false} ValueBack(input: seq<byte>, pos: nat, t: Tree, limit: nat, found: bool)
    requires Legal(t) && On(input, pos, Print(t)) && Ended(input, pos + |Print(t)|, t)
    ensures ParseValue(input, pos, limit, found, Null) == Outcome(Nesting(t) > limit, t, pos + |Print(t)|)
    decreases t
  {
    match t
    case List(items) => ListBack(input, pos, items, limit, found);
    case Record(members) => RecordBack(input, pos, members, limit, found);
    case _ => ScalarBack(input, pos, t, limit, found);
  }

  lemma {:induction false} ListBack(input: seq<byte>, pos: nat, items: seq<Tree>, limit: nat, found: bool)
    requires LegalItems(items) && On(input, pos, Print(List(items)))
    ensures ParseValue(input, pos, limit, found, Null)
         == Outcome(Nesting(List(items)) > limit, List(items), pos + |Print(List(items))|)
    decreases items, 1
  {
    hide ParseItems, PrintItems, ItemsNesting;
    var text := PrintItems(items);
    OnFirst(input, pos, OPEN_LIST, text + [CLOSE_LIST]);
    NoBlank(input, pos);
    if limit > 0 {
      if items == [] {
        NoItems();
        assert text + [CLOSE_LIST] == [CLOSE_LIST] + [];
        OnFirst(input, pos + 1, CLOSE_LIST, []);
        NoBlank(input, pos + 1);
      } else {
        ItemsStart(input, pos + 1, items);
        NoBlank(input, pos + 1);
        ItemsBack(input, pos + 1, limit, [], items);
        assert [] + items == items;
      }
    }
  }

  lemma NoItems()
    ensures PrintItems([]) == [] && ItemsNesting([]) == 0 && PrintMembers([]) == [] && MembersNesting([]) == 0
  {
  }

  /** A printed value starts with neither a blank, a zero byte nor a closing bracket. */
  lemma PrintStarts(t: Tree)
    ensures Print(t) != []
    ensures var c := Print(t)[0]; !IsBlank(c) && c != 0 && c != CLOSE_LIST
  {
    if t.Integer? {
      IntegerStarts(t.n);
    }
  }

  lemma ItemsStart(input: seq<byte>, pos: nat, items: seq<Tree>)
    requires items != [] && On(input, pos, PrintItems(items) + [CLOSE_LIST])
    ensures !IsBlank(Current(input, pos)) && Current(input, pos) != 0 && Current(input, pos) != CLOSE_LIST
  {
    hide Print;
    PrintStarts(items[0]);
    WordStarts(input, pos, PrintItems(items) + [CLOSE_LIST]);
  }

  /** The reader's way past one item. */
  lemma ItemsStep(input: seq<byte>, pos: nat, limit: nat, earlier: seq<Tree>, value: Tree, end: nat, deep: bool)
    requires limit > 0 && ParseValue(input, pos, limit - 1, true, Null) == Outcome(deep, value, end)
    ensures deep ==> ParseItems(input, pos, limit, earlier) == Bad(TooDeep)
    ensures !deep && Current(input, end) == CLOSE_LIST ==> ParseItems(input, pos, limit, earlier) == Good(earlier + [value], end + 1)
    ensures !deep && Current(input, end) == COMMA ==>
              ParseItems(input, pos, limit, earlier) == ParseItems(input, end + 1, limit, earlier + [value])
  {
    hide ParseValue;
    if Current(input, end) == CLOSE_LIST || Current(input, end) == COMMA {
      NoBlank(input, end);
    }
  }

  lemma ItemsParts(input: seq<byte>, pos: nat, items: seq<Tree>)
    requires items != [] && On(input, pos, PrintItems(items) + [CLOSE_LIST])
    ensures var end, rest := pos + |Print(items[0])|, items[1..];
            && On(input, pos, Print(items[0]))
            && (if rest == [] then Current(input, end) == CLOSE_LIST && end == pos + |PrintItems(items)|
                else Current(input, end) == COMMA && On(input, end + 1, PrintItems(rest) + [CLOSE_LIST])
                     && end + 1 + |PrintItems(rest)| == pos + |PrintItems(items)|)
  {
    hide Print;
    var first, rest := Print(items[0]), items[1..];
    var end := pos + |first|;
    if rest == [] {
      assert first + [] == first;
      OnParts(input, pos, first, [CLOSE_LIST]);
      assert [CLOSE_LIST] + [] == [CLOSE_LIST];
      OnFirst(input, end, CLOSE_LIST, []);
    } else {
      Associative(first, [COMMA] + PrintItems(rest), [CLOSE_LIST]);
      Associative([COMMA], PrintItems(rest), [CLOSE_LIST]);
      OnParts(input, pos, first, [COMMA] + (PrintItems(rest) + [CLOSE_LIST]));
      OnFirst(input, end, COMMA, PrintItems(rest) + [CLOSE_LIST]);
    }
  }

  lemma {:induction false} ItemsBack(input: seq<byte>, pos: nat, limit: nat, earlier: seq<Tree>, items: seq<Tree>)
    requires limit > 0 && items != [] && LegalItems(items) && On(input, pos, PrintItems(items) + [CLOSE_LIST])
    ensures ParseItems(input, pos, limit, earlier)
         == Outcome(ItemsNesting(items) > limit - 1, earlier + items, pos + |PrintItems(items)| + 1)
    decreases items, 0
  {
    hide ParseValue, ParseItems, Print, PrintItems, Nesting, Legal, On;
    var rest := items[1..];
    var end := pos + |Print(items[0])|;
    ItemsParts(input, pos, items);
    ValueBack(input, pos, items[0], limit - 1, true);
    ItemsStep(input, pos, limit, earlier, items[0], end, Nesting(items[0]) > limit - 1);
    if rest == [] {
      assert items == [items[0]];
    } else {
      ItemsBack(input, end + 1, limit, earlier + [items[0]], rest);
      assert earlier + [items[0]] + rest == earlier + items;
    }
  }

  lemma {:induction false} RecordBack(input: seq<byte>, pos: nat, members: seq<Pair>, limit: nat, found: bool)
    requires LegalMembers([], members) && On(input, pos, Print(Record(members)))
    ensures ParseValue(input, pos, limit, found, Null)
         == Outcome(Nesting(Record(members)) > limit, Record(members), pos + |Print(Record(members))|)
    decreases members, 1
  {
    hide ParseMembers, PrintMembers, MembersNesting;
    var text := PrintMembers(members);
    OnFirst(input, pos, OPEN_RECORD, text + [CLOSE_RECORD]);
    NoBlank(input, pos);
    if limit > 0 {
      if members == [] {
        NoItems();
        assert text + [CLOSE_RECORD] == [CLOSE_RECORD] + [];
        OnFirst(input, pos + 1, CLOSE_RECORD, []);
        NoBlank(input, pos + 1);
      } else {
        MembersStart(input, pos + 1, members, [CLOSE_RECORD]);
        NoBlank(input, pos + 1);
        MembersBack(input, pos + 1, limit, [], members);
        assert [] + members == members;
      }
    }
  }

  lemma MembersStart(input: seq<byte>, pos: nat, members: seq<Pair>, tail: seq<byte>)
    requires members != [] && On(input, pos, PrintMembers(members) + tail)
    ensures Current(input, pos) == QUOTE
  {
    WordStarts(input, pos, PrintMembers(members) + tail);
  }

  lemma KeyBack(input: seq<byte>, pos: nat, key: seq<byte>)
    requires 0 !in key && On(input, pos, PrintString(Cut(key)))
    ensures ReadKey(input, pos) == Good(key, pos + |PrintString(Cut(key))|) && Cut(key) == key
  {
    hide PrintString, ReadQuoted;
    StringBack(input, pos, key);
  }

  lemma PutFresh(members: seq<Pair>, key: seq<byte>, value: Tree)
    requires Fresh(members, key)
    ensures Put(members, key, value) == members + [Pair(key, value)] && Before(members, key) == Null
  {
  }

  /** The reader's way past one member with a new key. */
  lemma MembersStep(input: seq<byte>, pos: nat, limit: nat, earlier: seq<Pair>, key: seq<byte>, colon: nat, value: Tree, end: nat, deep: bool)
    requires limit > 0 && Fresh(earlier, key) && ReadKey(input, pos) == Good(key, colon) && Cut(key) == key
    requires Current(input, colon) == COLON
    requires ParseValue(input, colon + 1, limit - 1, true, Null) == Outcome(deep, value, end)
    ensures deep ==> ParseMembers(input, pos, limit, earlier) == Bad(TooDeep)
    ensures !deep && Current(input, end) == CLOSE_RECORD ==>
              ParseMembers(input, pos, limit, earlier) == Good(earlier + [Pair(key, value)], end + 1)
    ensures !deep && Current(input, end) == COMMA && Current(input, end + 1) == QUOTE ==>
              ParseMembers(input, pos, limit, earlier) == ParseMembers(input, end + 1, limit, earlier + [Pair(key, value)])
  {
    hide ParseValue, ReadKey, Put, Before, Cut;
    NoBlank(input, colon);
    PutFresh(earlier, key, value);
    if Current(input, end) == CLOSE_RECORD || Current(input, end) == COMMA {
      NoBlank(input, end);
    }
    if Current(input, end + 1) == QUOTE {
      NoBlank(input, end + 1);
    }
  }

  /** Where the parts of the first of several printed members are. */
  lemma MembersParts(input: seq<byte>, pos: nat, members: seq<Pair>)
    requires members != [] && On(input, pos, PrintMembers(members) + [CLOSE_RECORD])
    ensures var colon := pos + |PrintString(Cut(members[0].key))|;
            var end, rest := colon + 1 + |Print(members[0].value)|, members[1..];
            && On(input, pos, PrintString(Cut(members[0].key))) && Current(input, colon) == COLON
            && On(input, colon + 1, Print(members[0].value))
            && (if rest == [] then Current(input, end) == CLOSE_RECORD && end == pos + |PrintMembers(members)|
                else Current(input, end) == COMMA && Current(input, end + 1) == QUOTE
                     && On(input, end + 1, PrintMembers(rest) + [CLOSE_RECORD])
                     && end + 1 + |PrintMembers(rest)| == pos + |PrintMembers(members)|)
  {
    hide Print, PrintString, Cut, On;
    var rest := members[1..];
    var tail := if |members| == 1 then [] else [COMMA] + PrintMembers(rest);
    var key, value := PrintString(Cut(members[0].key)), Print(members[0].value);
    var end := pos + |key| + 1 + |value|;
    assert PrintMembers(members) == key + ([COLON] + (value + tail));
    hide PrintMembers;
    MemberParts(input, pos, key, value, tail);
    if rest == [] {
      assert [] + [CLOSE_RECORD] == [CLOSE_RECORD] + [];
      OnFirst(input, end, CLOSE_RECORD, []);
    } else {
      Associative([COMMA], PrintMembers(rest), [CLOSE_RECORD]);
      OnFirst(input, end, COMMA, PrintMembers(rest) + [CLOSE_RECORD]);
      MembersStart(input, end + 1, rest, [CLOSE_RECORD]);
    }
  }

  lemma {:induction false} MembersBack(input: seq<byte>, pos: nat, limit: nat, earlier: seq<Pair>, members: seq<Pair>)
    requires limit > 0 && members != [] && LegalMembers(earlier, members) && On(input, pos, PrintMembers(members) + [CLOSE_RECORD])
    ensures ParseMembers(input, pos, limit, earlier)
         == Outcome(MembersNesting(members) > limit - 1, earlier + members, pos + |PrintMembers(members)| + 1)
    decreases members, 0
  {
    hide ParseValue, ParseMembers, Print, PrintMembers, PrintString, Nesting, Legal, ReadKey, On, Cut, Fresh;
    var key, value := members[0].key, members[0].value;
    var rest := members[1..];
    var colon := pos + |PrintString(Cut(key))|;
    var end := colon + 1 + |Print(value)|;
    MembersParts(input, pos, members);
    KeyBack(input, pos, key);
    ValueBack(input, colon + 1, value, limit - 1, true);
    MembersStep(input, pos, limit, earlier, key, colon, value, end, Nesting(value) > limit - 1);
    assert members[0] == Pair(key, value);
    if rest == [] {
      assert members == [members[0]];
    } else {
      MembersBack(input, end + 1, limit, earlier + [members[0]], rest);
      assert earlier + [members[0]] + rest == earlier + members;
    }
  }

  lemma MemberParts(input: seq<byte>, pos: nat, key: seq<byte>, value: seq<byte>, tail: seq<byte>)
    requires On(input, pos, (key + ([COLON] + (value + tail))) + [CLOSE_RECORD])
    ensures var colon := pos + |key|;
            && On(input, pos, key) && Current(input, colon) == COLON && On(input, colon + 1, value)
            && On(input, colon + 1 + |value|, tail + [CLOSE_RECORD])
  {
    var close := [CLOSE_RECORD];
    Associative(key, [COLON] + (value + tail), close);
    Associative([COLON], value + tail, close);
    Associative(value, tail, close);
    OnParts(input, pos, key, [COLON] + (value + (tail + close)));
    OnFirst(input, pos + |key|, COLON, value + (tail + close));
    OnParts(input, pos + |key| + 1, value, tail + close);
  }

  /** The text of any document is read back as the same document, or reported as too deep beyond the limit. */
  lemma TextRoundTrip(t: Tree, limit: nat)
    requires Legal(t)
    ensures Deserialize(Print(t), limit) == if Nesting(t) <= limit then Good(t, |Print(t)|) else Bad(TooDeep)
  {
    hide ParseValue, Print, Nesting, Legal;
    assert Print(t)[0..|Print(t)|] == Print(t);
    ValueBack(Print(t), 0, t, limit, false);
  }
}
