/** The text serializer and deserializer themselves, proved against JsonTextSpec. */
module JsonText {
  import opened Common
  import opened JsonTree
  import opened JsonTextSpec

  class Formatter {
    var output: seq<byte>

    constructor ()
      ensures output == []
    {
      output := [];
    }

    method WriteRaw(text: seq<byte>)
      modifies this
      ensures output == old(output) + text
    {
      output := output + text;
    }

    method WriteChar(c: byte)
      modifies this
      ensures output == old(output) + PrintChar(c)
    {
      var special := Escape(c);
      if special != 0 {
        WriteRaw([BACKSLASH]);
        WriteRaw([special]);
      } else if c != 0 {
        WriteRaw([c]);
      } else {
        WriteRaw(ZERO_ESCAPE);
      }
    }

    method WriteString(s: seq<byte>)
      modifies this
      ensures output == old(output) + PrintString(s)
    {
      hide PrintChar;
      ghost var start := output;
      WriteRaw([QUOTE]);
      for i := 0 to |s|
        invariant output + PrintChars(s[i..]) == start + [QUOTE] + PrintChars(s)
      {
        assert s[i..][1..] == s[i + 1..];
        WriteChar(s[i]);
      }
      WriteRaw([QUOTE]);
      assert s[|s|..] == [];
      assert output == start + [QUOTE] + PrintChars(s) + [QUOTE];
    }

    /** Digits produced from the last to the first in a buffer on the stack. */
    method WriteUnsigned(n: nat)
      requires n <= UINT64_MAX
      modifies this
      ensures output == old(output) + Decimal(n)
    {
      DecimalLength(n);
      hide Decimal, DigitOf, HigherDigits;
      var buffer := new byte[22];
      var begin := buffer.Length;
      var value := n;
      ghost var digits: seq<byte> := [];
      assert Decimal(n) == Decimal(value) + digits;
      while true
        invariant output == old(output)
        invariant 0 < begin <= buffer.Length && |Decimal(n)| < buffer.Length
        invariant digits == buffer[begin..] && Decimal(n) == Decimal(value) + digits
        decreases value
      {
        LastDigit(value);
        begin := begin - 1;
        buffer[begin] := DigitOf(value);
        digits := [DigitOf(value)] + digits;
        Associative(HigherDigits(value / 10), [DigitOf(value)], digits[1..]);
        value := value / 10;
        if value == 0 {
          break;
        }
      }
      assert digits == buffer[begin..] == Decimal(n);
      WriteRaw(buffer[begin..]);
    }

    static function DigitOf(value: nat): byte {
      (value % 10 + 48) as byte
    }

    /** The digits still to be written in front. */
    static ghost function HigherDigits(value: nat): (r: seq<byte>)
      ensures value > 0 ==> r != []
    {
      if value == 0 then [] else Decimal(value)
    }

    lemma LastDigit(value: nat)
      ensures Decimal(value) == HigherDigits(value / 10) + [DigitOf(value)]
      ensures value > 0 ==> HigherDigits(value) == Decimal(value)
      ensures HigherDigits(0) == []
    {
    }

    /** The absolute value of a negative number is its complement plus one, in unsigned arithmetic. */
    method WriteInteger(n: int)
      requires INT64_MIN <= n <= UINT64_MAX
      modifies this
      ensures output == old(output) + PrintInteger(n)
    {
      var value := n;
      if n < 0 {
        WriteRaw([MINUS]);
        value := (-1 - n) + 1;
      }
      WriteUnsigned(value);
    }

    method Write(t: Tree)
      requires Legal(t)
      modifies this
      ensures output == old(output) + Print(t)
      decreases t
    {
      hide PrintString, PrintInteger, PrintItems, PrintMembers;
      match t
      case Null => WriteRaw(NULL_WORD);
      case Boolean(b) => WriteRaw(if b then TRUE_WORD else FALSE_WORD);
      case Integer(n) => WriteInteger(n);
      case Text(bytes) => WriteString(bytes);
      case List(items) => WriteList(items);
      case Record(members) => WriteRecord(members);
    }

    lemma LegalFrom(items: seq<Tree>, i: nat)
      requires LegalItems(items) && i <= |items|
      ensures LegalItems(items[i..])
    {
      if i > 0 {
        LegalFrom(items[1..], i - 1);
        assert items[1..][i - 1..] == items[i..];
      }
    }

    method WriteList(items: seq<Tree>)
      requires LegalItems(items)
      modifies this
      ensures output == old(output) + Print(List(items))
      decreases items
    {
      ghost var start := output;
      WriteRaw([OPEN_LIST]);
      for i := 0 to |items|
        invariant output + PrintItems(items[i..]) == start + [OPEN_LIST] + PrintItems(items)
      {
        LegalFrom(items, i);
        WriteItem(items, i, start + [OPEN_LIST] + PrintItems(items));
      }
      assert items[|items|..] == [] && PrintItems([]) == [] && output + [] == output;
      WriteRaw([CLOSE_LIST]);
      assert output == start + ([OPEN_LIST] + (PrintItems(items) + [CLOSE_LIST]));
    }

    /** Item `i` written, with a comma behind it unless it is the last. */
    method WriteItem(items: seq<Tree>, i: nat, ghost all: seq<byte>)
      requires i < |items| && LegalItems(items[i..]) && output + PrintItems(items[i..]) == all
      modifies this
      ensures output + PrintItems(items[i + 1..]) == all
      decreases items, 0
    {
      hide Print, Legal;
      assert items[i..][1..] == items[i + 1..];
      ghost var before := output;
      Write(items[i]);
      if i + 1 < |items| {
        WriteRaw([COMMA]);
      }
      assert output + PrintItems(items[i + 1..])
          == before + (Print(items[i]) + (if i + 1 == |items| then [] else [COMMA] + PrintItems(items[i + 1..])));
    }

    lemma LegalMembersFrom(earlier: seq<Pair>, members: seq<Pair>, i: nat)
      requires LegalMembers(earlier, members) && i <= |members|
      ensures LegalMembers(earlier + members[..i], members[i..])
      decreases i
    {
      hide Legal, Fresh;
      if i == 0 {
        assert earlier + [] == earlier;
      } else {
        LegalMembersFrom(earlier + [members[0]], members[1..], i - 1);
        assert members[1..][i - 1..] == members[i..];
        assert earlier + [members[0]] + members[1..][..i - 1] == earlier + members[..i];
      }
    }

    method WriteRecord(members: seq<Pair>)
      requires LegalMembers([], members)
      modifies this
      ensures output == old(output) + Print(Record(members))
      decreases members
    {
      ghost var start := output;
      WriteRaw([OPEN_RECORD]);
      for i := 0 to |members|
        invariant output + PrintMembers(members[i..]) == start + [OPEN_RECORD] + PrintMembers(members)
      {
        LegalMembersFrom([], members, i);
        WriteMember(members, i, start + [OPEN_RECORD] + PrintMembers(members));
      }
      assert members[|members|..] == [] && PrintMembers([]) == [] && output + [] == output;
      WriteRaw([CLOSE_RECORD]);
      assert output == start + ([OPEN_RECORD] + (PrintMembers(members) + [CLOSE_RECORD]));
    }

    method WriteMember(members: seq<Pair>, i: nat, ghost all: seq<byte>)
      requires i < |members| && Legal(members[i].value) && output + PrintMembers(members[i..]) == all
      modifies this
      ensures output + PrintMembers(members[i + 1..]) == all
      decreases members, 0
    {
      hide Print, Legal, PrintString, Cut;
      assert members[i..][1..] == members[i + 1..];
      ghost var before := output;
      WriteString(Cut(members[i].key));
      WriteRaw([COLON]);
      Write(members[i].value);
      if i + 1 < |members| {
        WriteRaw([COMMA]);
      }
      assert output + PrintMembers(members[i + 1..])
          == before + (PrintString(Cut(members[i].key)) + ([COLON] + (Print(members[i].value)
             + (if i + 1 == |members| then [] else [COMMA] + PrintMembers(members[i + 1..])))));
    }
  }

  method Serialize(t: Tree) returns (text: seq<byte>)
    requires Legal(t)
    ensures text == Print(t)
  {
    var formatter := new Formatter();
    formatter.Write(t);
    text := formatter.output;
  }

  // ---- Reading ----

  lemma PrependTwice(a: seq<byte>, b: seq<byte>, r: Parsed<seq<byte>>)
    ensures Prepend(a, Prepend(b, r)) == Prepend(a + b, r)
    ensures Prepend([], r) == r
  {
    if r.Good? {
      Associative(a, b, r.value);
      assert [] + r.value == r.value;
    }
  }

  /** The input, one character ahead: `loaded` tells whether the current character has been read. */
  class Deserializer {
    const input: seq<byte>
    var position: nat
    var loaded: bool
    var last: byte
    var foundSomething: bool
    /** Where the current character is; the position reported with results. */
    var pos: nat

    constructor (input: seq<byte>)
      ensures Valid() && this.input == input && pos == 0 && !foundSomething
    {
      this.input := input;
      position, loaded, last, foundSomething := 0, false, 0, false;
      pos := 0;
    }

    ghost predicate Valid()
      reads this
    {
      && pos <= position <= |input|
      && (!loaded ==> position == pos)
      && (loaded ==> last == JsonTextSpec.Current(input, pos) && position == Next(input, pos))
    }

    /** The current character, read when it is first asked for; zero at the end. */
    method Current() returns (c: byte)
      requires Valid()
      modifies this`position, this`loaded, this`last
      ensures Valid() && loaded && c == JsonTextSpec.Current(input, pos)
    {
      if !loaded {
        if position < |input| {
          last := input[position];
          position := position + 1;
        } else {
          last := 0;
        }
        loaded := true;
      }
      return last;
    }

    method Move()
      requires Valid() && loaded
      modifies this`loaded, this`pos
      ensures Valid() && pos == Next(input, old(pos)) && position == old(position)
    {
      loaded := false;
      pos := Next(input, pos);
    }

    method Eat(c: byte) returns (eaten: bool)
      requires Valid() && c != 0
      modifies this`position, this`loaded, this`last, this`pos
      ensures Valid() && eaten == (JsonTextSpec.Current(input, old(pos)) == c)
      ensures pos == if eaten then old(pos) + 1 else old(pos)
    {
      var current := Current();
      if current != c {
        return false;
      }
      Move();
      return true;
    }

    method SkipSpaces() returns (error: Option<Code>)
      requires Valid()
      modifies this
      ensures Valid() && pos == SkipBlanks(input, old(pos))
      ensures error == if JsonTextSpec.Current(input, pos) != 0 then None
                       else if old(foundSomething) then Some(IncompleteInput) else Some(EmptyInput)
      ensures foundSomething == (old(foundSomething) || error.None?)
    {
      while true
        invariant Valid() && SkipBlanks(input, pos) == SkipBlanks(input, old(pos)) && foundSomething == old(foundSomething)
        decreases |input| - pos
      {
        var c := Current();
        if c == 0 {
          return if foundSomething then Some(IncompleteInput) else Some(EmptyInput);
        }
        if !IsBlank(c) {
          foundSomething := true;
          return None;
        }
        Move();
      }
    }

    method SkipKeyword(word: seq<byte>, value: Tree) returns (r: Parsed<Tree>)
      requires Valid() && 0 !in word
      modifies this`position, this`loaded, this`last, this`pos
      ensures Valid() && r == SkipWord(input, old(pos), word, value) && (r.Good? ==> pos == r.pos)
    {
      for i := 0 to |word|
        invariant Valid() && SkipWord(input, pos, word[i..], value) == SkipWord(input, old(pos), word, value)
      {
        assert word[i..][0] == word[i] && word[i..][1..] == word[i + 1..];
        var c := Current();
        if c == 0 {
          return Bad(IncompleteInput);
        }
        if c != word[i] {
          return Bad(InvalidInput);
        }
        Move();
      }
      return Good(value, pos);
    }

    method ParseHex4() returns (r: Parsed<nat>)
      requires Valid()
      modifies this`position, this`loaded, this`last, this`pos
      ensures Valid() && r == ReadHex(input, old(pos), 4, 0) && (r.Good? ==> pos == r.pos)
    {
      var result := 0;
      for i := 0 to 4
        invariant Valid() && ReadHex(input, pos, 4 - i, result) == ReadHex(input, old(pos), 4, 0)
      {
        var digit := Current();
        if digit == 0 {
          return Bad(IncompleteInput);
        }
        var value := HexValue(digit);
        if value > 0x0F {
          return Bad(InvalidInput);
        }
        result := (result * 16 + value) % 0x10000;
        Move();
      }
      return Good(result, pos);
    }

    /** A quoted string; the current character is the quote it ends with. */
    method ParseQuotedString() returns (r: Parsed<seq<byte>>)
      requires Valid() && IsQuote(JsonTextSpec.Current(input, pos))
      modifies this`position, this`loaded, this`last, this`pos
      ensures Valid()
      ensures r == ReadQuoted(input, old(pos) + 1, JsonTextSpec.Current(input, old(pos)), 0) && (r.Good? ==> pos == r.pos)
    {
      hide ReadHex, HexValue, TakeUnit, Unescape;
      var high := 0;
      var stop := Current();
      Move();
      var text: seq<byte> := [];
      PrependTwice([], [], ReadQuoted(input, pos, stop, 0));
      while true
        invariant Valid() && high < 0x400
        invariant Prepend(text, ReadQuoted(input, pos, stop, high)) == ReadQuoted(input, old(pos) + 1, stop, 0)
        decreases |input| - pos
      {
        ghost var here := pos;
        ghost var rest := ReadQuoted(input, here, stop, high);
        var c := Current();
        Move();
        if c == stop {
          assert text + [] == text;
          return Good(text, pos);
        }
        if c == 0 {
          return Bad(IncompleteInput);
        }
        if c == BACKSLASH {
          c := Current();
          if c == 0 {
            return Bad(IncompleteInput);
          }
          if c == 117 {
            Move();
            var unit := ParseHex4();
            if unit.Bad? {
              return Bad(unit.code);
            }
            var (bytes, kept) := TakeUnit(unit.value, high);
            PrependTwice(text, bytes, ReadQuoted(input, pos, stop, kept));
            text := text + bytes;
            high := kept;
            continue;
          }
          c := Unescape(c);
          if c == 0 {
            return Bad(InvalidInput);
          }
          Move();
        }
        PrependTwice(text, [c], ReadQuoted(input, pos, stop, high));
        text := text + [c];
      }
    }

    method ParseNonQuotedString() returns (r: Parsed<seq<byte>>)
      requires Valid() && !IsQuote(JsonTextSpec.Current(input, pos))
      modifies this`position, this`loaded, this`last, this`pos
      ensures Valid() && r == ReadKey(input, old(pos)) && (r.Good? ==> pos == r.pos)
    {
      var text: seq<byte> := [];
      var c := Current();
      if !InBareKey(c) {
        return Bad(InvalidInput);
      }
      while InBareKey(c)
        invariant Valid() && loaded && c == JsonTextSpec.Current(input, pos)
        invariant pos == old(pos) + |text| && text + ReadBare(input, pos) == ReadBare(input, old(pos))
        decreases |input| - pos
      {
        Move();
        text := text + [c];
        c := Current();
      }
      assert text + [] == text;
      return Good(text, pos);
    }

    method ParseKey() returns (r: Parsed<seq<byte>>)
      requires Valid()
      modifies this`position, this`loaded, this`last, this`pos
      ensures Valid() && r == ReadKey(input, old(pos)) && (r.Good? ==> pos == r.pos)
    {
      var c := Current();
      if IsQuote(c) {
        r := ParseQuotedString();
      } else {
        r := ParseNonQuotedString();
      }
    }

    method CollectNumber() returns (buffer: seq<byte>)
      requires Valid()
      modifies this`position, this`loaded, this`last, this`pos
      ensures Valid() && loaded && buffer == NumberText(input, old(pos), 63) && pos == old(pos) + |buffer|
    {
      hide InNumber;
      buffer := [];
      var c := Current();
      while InNumber(c) && |buffer| < 63
        invariant Valid() && loaded && c == JsonTextSpec.Current(input, pos) && |buffer| <= 63
        invariant pos == old(pos) + |buffer|
        invariant buffer + NumberText(input, pos, 63 - |buffer|) == NumberText(input, old(pos), 63)
        decreases 63 - |buffer|
      {
        NumberTextStep(input, pos, 63 - |buffer|);
        Associative(buffer, [c], NumberText(input, pos + 1, 62 - |buffer|));
        Move();
        buffer := buffer + [c];
        c := Current();
      }
      assert NumberText(input, pos, 63 - |buffer|) == [];
      assert buffer + [] == buffer;
    }

    lemma NumberTextStep(input: seq<byte>, pos: nat, room: nat)
      requires room > 0 && InNumber(JsonTextSpec.Current(input, pos))
      ensures pos < |input|
      ensures NumberText(input, pos, room) == [JsonTextSpec.Current(input, pos)] + NumberText(input, pos + 1, room - 1)
    {
    }

    /** A number, collected into a buffer of 64 characters first. */
    method ParseNumericValue() returns (r: Parsed<Tree>)
      requires Valid()
      modifies this`position, this`loaded, this`last, this`pos
      ensures Valid() && r == ReadNumeric(input, old(pos)) && (r.Good? ==> pos == r.pos && loaded)
    {
      hide NumberText, ReadNumber;
      var buffer := CollectNumber();
      var number := ParseNumber(buffer);
      match number
      case NoNumber => return Bad(InvalidInput);
      case Whole(n) => return Good(Integer(n), pos);
      case Real => return Outside;
    }

    /** The leading digits accumulated, as far as they fit 64 bits; the rest is left to floating point. */
    static method ParseNumber(s: seq<byte>) returns (r: Numeral)
      ensures r == ReadNumber(s)
    {
      var i := 0;
      var negative := false;
      if s != [] && s[0] == MINUS {
        negative := true;
        i := 1;
      } else if s != [] && s[0] == PLUS {
        i := 1;
      }
      if i == |s| || (!IsDigit(s[i]) && s[i] != POINT) {
        return NoNumber;
      }
      assert s[0..] == s;
      ghost var start := s[i..];
      var mantissa: nat := 0;
      while i < |s| && IsDigit(s[i])
        invariant i <= |s| && Accumulate(s[i..], mantissa) == Accumulate(start, 0)
      {
        var digit := s[i] as nat - 48;
        assert s[i..][1..] == s[i + 1..];
        if mantissa > UINT64_MAX / 10 {
          return Real;
        }
        mantissa := mantissa * 10;
        if mantissa > UINT64_MAX - digit {
          return Real;
        }
        mantissa := mantissa + digit;
        i := i + 1;
      }
      if i < |s| {
        return Real;
      }
      if !negative {
        return Whole(mantissa as int);
      }
      if mantissa <= -INT64_MIN {
        return Whole(-(mantissa as int));
      }
      return Real;
    }

    method Parse(limit: nat) returns (r: Parsed<Tree>)
      requires Valid() && pos == 0 && !foundSomething
      modifies this
      ensures r == Deserialize(input, limit)
    {
      hide ParseValue;
      r := ParseVariant(limit, Null);
      if r.Good? && r.value.Integer? {
        if last != 0 {
          return Bad(InvalidInput);
        }
      }
    }

    /** A value; `before` is what the variant holds beforehand. */
    method ParseVariant(limit: nat, before: Tree) returns (r: Parsed<Tree>)
      requires Valid()
      modifies this
      ensures Valid() && r == ParseValue(input, old(pos), limit, old(foundSomething), before)
      ensures r.Good? ==> pos == r.pos && foundSomething && (r.value.Integer? && !before.Integer? ==> loaded)
      decreases limit, 2
    {
      hide ParseList, ParseRecord, ReadQuoted, ReadNumeric, SkipWord, SkipBlanks;
      var error := SkipSpaces();
      if error.Some? {
        return Bad(error.value);
      }
      var c := Current();
      if c == OPEN_LIST {
        if limit == 0 {
          return Bad(TooDeep);
        }
        r := ParseArray(limit);
      } else if c == OPEN_RECORD {
        if limit == 0 {
          return Bad(TooDeep);
        }
        r := ParseObject(limit);
      } else if IsQuote(c) {
        var text := ParseQuotedString();
        if text.Good? {
          r := Good(Text(text.value), text.pos);
        } else {
          r := Bad(text.code);
        }
      } else if c == 116 {
        r := SkipKeyword(TRUE_WORD, Boolean(true));
      } else if c == 102 {
        r := SkipKeyword(FALSE_WORD, Boolean(false));
      } else if c == 110 {
        r := SkipKeyword(NULL_WORD, before);
      } else {
        r := ParseNumericValue();
      }
    }

    method ParseArray(limit: nat) returns (r: Parsed<Tree>)
      requires Valid() && loaded && foundSomething && limit > 0 && JsonTextSpec.Current(input, pos) == OPEN_LIST
      modifies this
      ensures Valid() && r == ParseList(input, old(pos) + 1, limit) && (r.Good? ==> pos == r.pos && foundSomething)
      decreases limit, 0
    {
      hide ParseValue, SkipBlanks;
      Move();
      var error := SkipSpaces();
      if error.Some? {
        return Bad(error.value);
      }
      var empty := Eat(CLOSE_LIST);
      if empty {
        return Good(List([]), pos);
      }
      var items: seq<Tree> := [];
      ghost var start := pos;
      while true
        invariant Valid() && foundSomething && ParseItems(input, pos, limit, items) == ParseItems(input, start, limit, [])
        decreases |input| - pos
      {
        var item := ParseVariant(limit - 1, Null);
        if !item.Good? {
          return item;
        }
        error := SkipSpaces();
        if error.Some? {
          return Bad(error.value);
        }
        items := items + [item.value];
        var closed := Eat(CLOSE_LIST);
        if closed {
          return Good(List(items), pos);
        }
        var comma := Eat(COMMA);
        if !comma {
          return Bad(InvalidInput);
        }
      }
    }

    method ParseOneMember(limit: nat, members: seq<Pair>) returns (r: Parsed<seq<Pair>>)
      requires Valid() && foundSomething && limit > 0
      modifies this
      ensures Valid() && r == ParseMember(input, old(pos), limit, members) && (r.Good? ==> pos == r.pos && foundSomething)
      decreases limit, 0
    {
      hide ParseValue, SkipBlanks, ReadKey, Put, Before, Cut;
      var text := ParseKey();
      if text.Bad? {
        return Bad(text.code);
      }
      var error := SkipSpaces();
      if error.Some? {
        return Bad(error.value);
      }
      var colon := Eat(COLON);
      if !colon {
        return Bad(InvalidInput);
      }
      var key := Cut(text.value);
      var value := ParseVariant(limit - 1, Before(members, key));
      match value
      case Good(v, end) => return Good(Put(members, key, v), end);
      case Bad(code) => return Bad(code);
      case Outside => return Outside;
    }

    method ParseObject(limit: nat) returns (r: Parsed<Tree>)
      requires Valid() && loaded && foundSomething && limit > 0 && JsonTextSpec.Current(input, pos) == OPEN_RECORD
      modifies this
      ensures Valid() && r == ParseRecord(input, old(pos) + 1, limit) && (r.Good? ==> pos == r.pos && foundSomething)
      decreases limit, 1
    {
      hide ParseMember, SkipBlanks;
      Move();
      var error := SkipSpaces();
      if error.Some? {
        return Bad(error.value);
      }
      var empty := Eat(CLOSE_RECORD);
      if empty {
        return Good(Record([]), pos);
      }
      var members: seq<Pair> := [];
      ghost var start := pos;
      while true
        invariant Valid() && foundSomething && ParseMembers(input, pos, limit, members) == ParseMembers(input, start, limit, [])
        decreases |input| - pos
      {
        var more := ParseOneMember(limit, members);
        if !more.Good? {
          return if more.Bad? then Bad(more.code) else Outside;
        }
        members := more.value;
        error := SkipSpaces();
        if error.Some? {
          return Bad(error.value);
        }
        var closed := Eat(CLOSE_RECORD);
        if closed {
          return Good(Record(members), pos);
        }
        var comma := Eat(COMMA);
        if !comma {
          return Bad(InvalidInput);
        }
        error := SkipSpaces();
        if error.Some? {
          return Bad(error.value);
        }
      }
    }
  }
}
