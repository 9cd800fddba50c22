/**
 Which texts the JSON deserializer accepts, for every input: a machine that reads one character at a time and keeps the
 open brackets on a stack, without building a document, gives the same verdict as the recursive deserializer, error
 codes included.
 */
module JsonMachine {
  import opened Common
  import opened JsonTree
  import opened JsonTextSpec
  import opened JsonTextProof
  import M = JsonMeaning
  import R = JsonReading
  import G = JsmnGrammar

  // ---- The machine ----

  /**
   What comes next: a value; an item or `]`; a comma or bracket; a key; a key or `}`; a colon. Or what is being read: a
   string or quoted key, one of its escapes, an unquoted key, the rest of a word.
   */
  datatype Mode =
    | AtValue | AtItem | Behind | AtKey | AtMember | AtColon
    | InText(quote: byte, key: bool) | InEscape(quote: byte, key: bool) | InHex(left: nat, quote: byte, key: bool)
    | InBare | InWord(rest: seq<byte>)

  datatype Verdict = Accepted(end: nat) | Stopped(code: Code) | Float

  /** What the decoder of escapes takes for a hexadecimal digit: the digits, and seven more characters. */
  predicate LaxDigit(c: byte) {
    0x30 <= c <= 0x3F || 0x41 <= c <= 0x46 || 0x60 <= c <= 0x66
  }

  predicate BareChar(c: byte) {
    0x30 <= c <= 0x39 || 0x41 <= c <= 0x5A || 0x5F <= c <= 0x7A
  }

  predicate NumberChar(c: byte) {
    0x30 <= c <= 0x39 || c == 0x2B || c == 0x2D || c == 0x2E || c == 0x45 || c == 0x65
  }

  /** The end of a number, `room` characters on at most. */
  function NumberEnd(input: seq<byte>, i: nat, room: nat): (r: nat)
    ensures i <= r && (i <= |input| ==> r <= |input|)
    decreases room
  {
    if room > 0 && NumberChar(Current(input, i)) then NumberEnd(input, i + 1, room - 1) else i
  }

  /** Whether the characters are a number at all, and an integer of 64 bits: a sign, and digits only. */
  function Judged(s: seq<byte>): Meaning<bool> {
    var digits := if s != [] && (s[0] == 0x2B || s[0] == 0x2D) then s[1..] else s;
    if digits == [] || !(IsDigit(digits[0]) || digits[0] == 0x2E) then Is(false)
    else if !Digits(digits) then Floating
    else if M.Value(0, digits) > (if s[0] == 0x2D then 0x8000_0000_0000_0000 else 0xFFFF_FFFF_FFFF_FFFF) then Floating
    else Is(true)
  }

  function Rank(mode: Mode): nat {
    match mode
    case AtItem => 3 case AtMember => 3
    case AtValue => 2 case AtKey => 2
    case InWord(_) => 1 case InBare => 1
    case _ => 0
  }

  function Machine(input: seq<byte>, i: nat, mode: Mode, stack: seq<byte>, limit: nat): Verdict
    decreases |input| - i, Rank(mode)
  {
    var c := Current(input, i);
    match mode
    case AtValue =>
      if G.Ws(c) then Machine(input, i + 1, mode, stack, limit)
      else if c == 0 then Stopped(if stack == [] then EmptyInput else IncompleteInput)
      else if c == 0x5B || c == 0x7B then
        if |stack| >= limit then Stopped(TooDeep)
        else Machine(input, i + 1, if c == 0x5B then AtItem else AtMember, stack + [c], limit)
      else if c == 0x22 || c == 0x27 then Machine(input, i + 1, InText(c, false), stack, limit)
      else if c == 0x74 then Machine(input, i, InWord(G.TRUE_WORD), stack, limit)
      else if c == 0x66 then Machine(input, i, InWord(G.FALSE_WORD), stack, limit)
      else if c == 0x6E then Machine(input, i, InWord(G.NULL_WORD), stack, limit)
      else
        var end := NumberEnd(input, i, 63);
        (match Judged(input[i..end])
         case Is(true) => if end > i then Machine(input, end, Behind, stack, limit) else Stopped(InvalidInput)
         case Is(false) => Stopped(InvalidInput)
         case _ => Float)
    case AtItem =>
      if G.Ws(c) then Machine(input, i + 1, mode, stack, limit)
      else if c == 0 then Stopped(IncompleteInput)
      else if c == 0x5D then Machine(input, i + 1, Behind, Popped(stack), limit)
      else Machine(input, i, AtValue, stack, limit)
    case Behind =>
      if stack == [] then Accepted(i)
      else if G.Ws(c) then Machine(input, i + 1, mode, stack, limit)
      else if c == 0 then Stopped(IncompleteInput)
      else if c == 0x2C then Machine(input, i + 1, if stack[|stack| - 1] == 0x5B then AtValue else AtKey, stack, limit)
      else if c == (if stack[|stack| - 1] == 0x5B then 0x5D else 0x7D) then Machine(input, i + 1, Behind, Popped(stack), limit)
      else Stopped(InvalidInput)
    case AtMember =>
      if G.Ws(c) then Machine(input, i + 1, mode, stack, limit)
      else if c == 0 then Stopped(IncompleteInput)
      else if c == 0x7D then Machine(input, i + 1, Behind, Popped(stack), limit)
      else Machine(input, i, AtKey, stack, limit)
    case AtKey =>
      if G.Ws(c) then Machine(input, i + 1, mode, stack, limit)
      else if c == 0 then Stopped(IncompleteInput)
      else if c == 0x22 || c == 0x27 then Machine(input, i + 1, InText(c, true), stack, limit)
      else if BareChar(c) then Machine(input, i + 1, InBare, stack, limit)
      else Stopped(InvalidInput)
    case InBare =>
      if BareChar(c) then Machine(input, i + 1, InBare, stack, limit) else Machine(input, i, AtColon, stack, limit)
    case AtColon =>
      if G.Ws(c) then Machine(input, i + 1, mode, stack, limit)
      else if c == 0 then Stopped(IncompleteInput)
      else if c == 0x3A then Machine(input, i + 1, AtValue, stack, limit)
      else Stopped(InvalidInput)
    case InText(quote, key) =>
      if c == 0 then Stopped(IncompleteInput)
      else if c == quote then Machine(input, i + 1, if key then AtColon else Behind, stack, limit)
      else Machine(input, i + 1, if c == 0x5C then InEscape(quote, key) else mode, stack, limit)
    case InEscape(quote, key) =>
      if c == 0 then Stopped(IncompleteInput)
      else if c == 0x75 then Machine(input, i + 1, InHex(4, quote, key), stack, limit)
      else if G.ShortEscape(c) then Machine(input, i + 1, InText(quote, key), stack, limit)
      else Stopped(InvalidInput)
    case InHex(left, quote, key) =>
      if left == 0 then Stopped(InvalidInput)
      else if c == 0 then Stopped(IncompleteInput)
      else if LaxDigit(c) then Machine(input, i + 1, if left == 1 then InText(quote, key) else InHex(left - 1, quote, key), stack, limit)
      else Stopped(InvalidInput)
    case InWord(rest) =>
      if rest == [] then Machine(input, i, Behind, stack, limit)
      else if c == 0 then Stopped(IncompleteInput)
      else if c != rest[0] then Stopped(InvalidInput)
      else Machine(input, i + 1, InWord(rest[1..]), stack, limit)
  }

  function Popped(stack: seq<byte>): seq<byte> {
    if stack == [] then [] else stack[..|stack| - 1]
  }

  /** A part has been read: the machine goes on in `mode`, or reports the same. */
  function Then<T>(r: Parsed<T>, input: seq<byte>, mode: Mode, stack: seq<byte>, limit: nat): Verdict {
    match r
    case Good(_, pos) => Machine(input, pos, mode, stack, limit)
    case Bad(code) => Stopped(code)
    case Outside => Float
  }

  // ---- Blanks and words ----

  predicate Skips(mode: Mode, stack: seq<byte>) {
    mode.AtValue? || mode.AtItem? || mode.AtKey? || mode.AtMember? || mode.AtColon? || (mode.Behind? && stack != [])
  }

  lemma {:induction false} BlanksRun(input: seq<byte>, i: nat, mode: Mode, stack: seq<byte>, limit: nat)
    requires Skips(mode, stack)
    ensures Machine(input, i, mode, stack, limit) == Machine(input, SkipBlanks(input, i), mode, stack, limit)
    decreases |input| - i
  {
    if G.Ws(Current(input, i)) {
      BlanksRun(input, i + 1, mode, stack, limit);
    }
  }

  lemma {:induction false} WordRuns(input: seq<byte>, i: nat, word: seq<byte>, value: Tree, stack: seq<byte>, limit: nat)
    requires 0 !in word
    ensures Machine(input, i, InWord(word), stack, limit) == Then(SkipWord(input, i, word, value), input, Behind, stack, limit)
    decreases |word|
  {
    if word != [] && Current(input, i) == word[0] {
      WordRuns(input, i + 1, word[1..], value, stack, limit);
    }
  }

  // ---- Strings and keys ----

  lemma {:induction false} HexRuns(input: seq<byte>, i: nat, n: nat, value: nat, quote: byte, key: bool, stack: seq<byte>, limit: nat)
    requires n > 0
    ensures Machine(input, i, InHex(n, quote, key), stack, limit)
         == Then(ReadHex(input, i, n, value), input, InText(quote, key), stack, limit)
    decreases n
  {
    var c := Current(input, i);
    LaxIs(c);
    hide HexValue, LaxDigit;
    if c != 0 && HexValue(c) <= 15 && n > 1 {
      HexRuns(input, i + 1, n - 1, (value * 16 + HexValue(c)) % 0x10000, quote, key, stack, limit);
    }
  }

  lemma LaxIs(c: byte)
    ensures LaxDigit(c) <==> HexValue(c) <= 15 && c != 0
  {
  }

  lemma EscapeIs(c: byte)
    ensures G.ShortEscape(c) <==> Unescape(c) != 0
  {
  }

  function BehindText(key: bool): Mode {
    if key then AtColon else Behind
  }

  lemma {:induction false} TextRuns(input: seq<byte>, i: nat, quote: byte, high: nat, key: bool, stack: seq<byte>, limit: nat)
    requires quote != 0 && quote != BACKSLASH && high < 0x400
    ensures Machine(input, i, InText(quote, key), stack, limit)
         == Then(ReadQuoted(input, i, quote, high), input, BehindText(key), stack, limit)
    decreases |input| - i
  {
    hide TakeUnit, Unescape, G.ShortEscape, LaxDigit, ReadHex;
    var c := Current(input, i);
    if c != quote && c != 0 {
      if c != BACKSLASH {
        TextRuns(input, i + 1, quote, high, key, stack, limit);
      } else {
        var e := Current(input, i + 1);
        EscapeIs(e);
        if e == 117 {
          HexRuns(input, i + 2, 4, 0, quote, key, stack, limit);
          var unit := ReadHex(input, i + 2, 4, 0);
          if unit.Good? {
            TextRuns(input, unit.pos, quote, TakeUnit(unit.value, high).1, key, stack, limit);
          }
        } else if e != 0 {
          TextRuns(input, i + 2, quote, high, key, stack, limit);
        }
      }
    }
  }

  lemma {:induction false} BareRuns(input: seq<byte>, i: nat, stack: seq<byte>, limit: nat)
    ensures Machine(input, i, InBare, stack, limit) == Machine(input, i + |ReadBare(input, i)|, AtColon, stack, limit)
    decreases |input| - i
  {
    if InBareKey(Current(input, i)) {
      BareRuns(input, i + 1, stack, limit);
    }
  }

  lemma KeyRuns(input: seq<byte>, i: nat, stack: seq<byte>, limit: nat)
    requires !IsBlank(Current(input, i)) && Current(input, i) != 0
    ensures Machine(input, i, AtKey, stack, limit) == Then(ReadKey(input, i), input, AtColon, stack, limit)
  {
    hide ReadQuoted;
    var c := Current(input, i);
    if IsQuote(c) {
      TextRuns(input, i + 1, c, 0, true, stack, limit);
    } else if InBareKey(c) {
      BareRuns(input, i + 1, stack, limit);
    }
  }

  // ---- Numbers ----

  lemma {:induction false} NumberEnds(input: seq<byte>, i: nat, room: nat)
    ensures var end := NumberEnd(input, i, room);
            i <= |input| ==> end == i + |NumberText(input, i, room)| && input[i..end] == NumberText(input, i, room)
    decreases room
  {
    if room > 0 && NumberChar(Current(input, i)) {
      NumberEnds(input, i + 1, room - 1);
      var end := NumberEnd(input, i, room);
      assert input[i..end] == [input[i]] + input[i + 1..end];
    }
  }

  lemma {:induction false} DigitsOnly(s: seq<byte>, n: nat)
    requires n <= UINT64_MAX && !Digits(s)
    ensures Accumulate(s, n).1 != []
    decreases |s|
  {
    if s != [] && IsDigit(s[0]) {
      var m := n * 10 + (s[0] as nat - 48);
      if m <= UINT64_MAX {
        assert !Digits(s[1..]) by {
          var k :| 0 <= k < |s| && !IsDigit(s[k]);
          assert s[1..][k - 1] == s[k];
        }
        DigitsOnly(s[1..], m);
      }
    }
  }

  /** The shape of a number decides. */
  lemma JudgedRight(s: seq<byte>)
    ensures Judged(s) == match ReadNumber(s) case NoNumber => Is(false) case Whole(_) => Is(true) case Real => Floating
  {
    hide Accumulate, M.Value;
    var digits := if s != [] && (s[0] == MINUS || s[0] == PLUS) then s[1..] else s;
    if digits != [] && (IsDigit(digits[0]) || digits[0] == POINT) {
      if Digits(digits) {
        WholeIs(digits);
      } else {
        DigitsOnly(digits, 0);
      }
    }
  }

  lemma WholeIs(digits: seq<byte>)
    requires Digits(digits)
    ensures var n := M.Value(0, digits);
            if n <= UINT64_MAX then Accumulate(digits, 0) == (n, []) else Accumulate(digits, 0).1 != []
  {
    R.DigitsAccumulate(0, digits, []);
    assert digits + [] == digits;
  }

  // ---- Values ----

  lemma NumericRuns(input: seq<byte>, i: nat, stack: seq<byte>, limit: nat)
    requires i < |input|
    requires var c := input[i]; !IsBlank(c) && c != 0 && c != OPEN_LIST && c != OPEN_RECORD && !IsQuote(c) && c != 116 && c != 102 && c != 110
    ensures Machine(input, i, AtValue, stack, limit) == Then(ReadNumeric(input, i), input, Behind, stack, limit)
  {
    hide NumberText, NumberEnd, Judged, ReadNumber;
    NumberEnds(input, i, 63);
    JudgedRight(input[i..NumberEnd(input, i, 63)]);
    if NumberText(input, i, 63) == [] {
      NoNumberRead();
    }
  }

  lemma NoNumberRead()
    ensures ReadNumber([]) == NoNumber && Judged([]) == Is(false)
  {
  }

  /** A value read anywhere: the machine gets behind it, or gives the same verdict. */
  lemma {:induction false} ValueRuns(input: seq<byte>, i: nat, room: nat, before: Tree, stack: seq<byte>, limit: nat)
    requires |stack| + room == limit
    ensures Machine(input, i, AtValue, stack, limit) == Then(ParseValue(input, i, room, stack != [], before), input, Behind, stack, limit)
    decreases room, |input| - i, 3
  {
    hide ParseList, ParseRecord, ReadQuoted, ReadNumeric, SkipWord, SkipBlanks, Judged, NumberEnd;
    BlanksRun(input, i, AtValue, stack, limit);
    var at := SkipBlanks(input, i);
    var c := Current(input, at);
    if c == OPEN_LIST {
      if room > 0 {
        ListRuns(input, i, at, room, stack, limit);
      }
    } else if c == OPEN_RECORD {
      if room > 0 {
        RecordRuns(input, i, at, room, stack, limit);
      }
    } else if c != 0 {
      ScalarRuns(input, at, room, before, stack, limit);
      ScalarParse(input, i, room, stack != [], before);
    }
  }

  /** A value that is neither a list nor an object. */
  function Scalar(input: seq<byte>, at: nat, before: Tree): Parsed<Tree> {
    var c := Current(input, at);
    if IsQuote(c) then
      match ReadQuoted(input, at + 1, c, 0)
      case Good(bytes, next) => Good(Text(bytes), next)
      case Bad(code) => Bad(code)
    else if c == 116 then SkipWord(input, at, TRUE_WORD, Boolean(true))
    else if c == 102 then SkipWord(input, at, FALSE_WORD, Boolean(false))
    else if c == 110 then SkipWord(input, at, NULL_WORD, before)
    else ReadNumeric(input, at)
  }

  lemma ScalarParse(input: seq<byte>, i: nat, room: nat, found: bool, before: Tree)
    requires var c := Current(input, SkipBlanks(input, i)); c != 0 && c != OPEN_LIST && c != OPEN_RECORD
    ensures ParseValue(input, i, room, found, before) == Scalar(input, SkipBlanks(input, i), before)
  {
    hide ParseList, ParseRecord, ReadQuoted, ReadNumeric, SkipWord, SkipBlanks;
  }

  lemma ScalarRuns(input: seq<byte>, at: nat, room: nat, before: Tree, stack: seq<byte>, limit: nat)
    requires var c := Current(input, at); !IsBlank(c) && c != 0 && c != OPEN_LIST && c != OPEN_RECORD
    ensures Machine(input, at, AtValue, stack, limit) == Then(Scalar(input, at, before), input, Behind, stack, limit)
  {
    hide ReadQuoted, ReadNumeric, SkipWord, Judged, NumberEnd;
    var c := Current(input, at);
    if IsQuote(c) {
      TextRuns(input, at + 1, c, 0, false, stack, limit);
    } else if c == 116 {
      WordRuns(input, at, TRUE_WORD, Boolean(true), stack, limit);
    } else if c == 102 {
      WordRuns(input, at, FALSE_WORD, Boolean(false), stack, limit);
    } else if c == 110 {
      WordRuns(input, at, NULL_WORD, before, stack, limit);
    } else {
      NumericRuns(input, at, stack, limit);
    }
  }

  // ---- Lists ----

  lemma PopLast(stack: seq<byte>, b: byte)
    ensures Popped(stack + [b]) == stack && (stack + [b])[|stack + [b]| - 1] == b
  {
  }

  lemma {:induction false} ListRuns(input: seq<byte>, i: nat, at: nat, room: nat, stack: seq<byte>, limit: nat)
    requires |stack| + room == limit && room > 0 && i <= at < |input| && input[at] == OPEN_LIST
    ensures Machine(input, at, AtValue, stack, limit) == Then(ParseList(input, at + 1, room), input, Behind, stack, limit)
    decreases room, |input| - i, 2
  {
    hide ParseItems, SkipBlanks;
    var inner := stack + [OPEN_LIST];
    PopLast(stack, OPEN_LIST);
    BlanksRun(input, at + 1, AtItem, inner, limit);
    var start := SkipBlanks(input, at + 1);
    if Current(input, start) != 0 && Current(input, start) != CLOSE_LIST {
      ItemsRun(input, start, room, [], inner, limit);
    }
  }

  /** Behind a part of a list or object comes a comma or the closing bracket. */
  lemma BehindRuns(input: seq<byte>, i: nat, inner: seq<byte>, limit: nat)
    requires inner != []
    ensures var at := SkipBlanks(input, i);
            var c, list := Current(input, at), inner[|inner| - 1] == OPEN_LIST;
            Machine(input, i, Behind, inner, limit) ==
            if c == 0 then Stopped(IncompleteInput)
            else if c == COMMA then Machine(input, at + 1, if list then AtValue else AtKey, inner, limit)
            else if c == (if list then CLOSE_LIST else CLOSE_RECORD) then Machine(input, at + 1, Behind, Popped(inner), limit)
            else Stopped(InvalidInput)
  {
    hide SkipBlanks;
    BlanksRun(input, i, Behind, inner, limit);
  }

  /** Behind an item: the next one, or the end of the list. */
  lemma {:induction false} ItemsRun(input: seq<byte>, i: nat, room: nat, items: seq<Tree>, inner: seq<byte>, limit: nat)
    requires room > 0 && |inner| + room == limit + 1 && inner != [] && inner[|inner| - 1] == OPEN_LIST
    ensures Machine(input, i, AtValue, inner, limit)
         == Then(ParseItems(input, i, room, items), input, Behind, Popped(inner), limit)
    decreases room, |input| - i, 0
  {
    hide ParseValue, SkipBlanks, Machine, Popped;
    ValueRuns(input, i, room - 1, Null, inner, limit);
    var r := ParseValue(input, i, room - 1, true, Null);
    if r.Good? {
      BehindRuns(input, r.pos, inner, limit);
      var at := SkipBlanks(input, r.pos);
      if Current(input, at) == COMMA {
        ItemsRun(input, at + 1, room, items + [r.value], inner, limit);
      }
    }
  }

  // ---- Objects ----

  lemma {:induction false} RecordRuns(input: seq<byte>, i: nat, at: nat, room: nat, stack: seq<byte>, limit: nat)
    requires |stack| + room == limit && room > 0 && i <= at < |input| && input[at] == OPEN_RECORD
    ensures Machine(input, at, AtValue, stack, limit) == Then(ParseRecord(input, at + 1, room), input, Behind, stack, limit)
    decreases room, |input| - i, 2
  {
    hide ParseMembers, SkipBlanks;
    var inner := stack + [OPEN_RECORD];
    PopLast(stack, OPEN_RECORD);
    BlanksRun(input, at + 1, AtMember, inner, limit);
    var start := SkipBlanks(input, at + 1);
    if Current(input, start) != 0 && Current(input, start) != CLOSE_RECORD {
      MembersRun(input, start, room, [], inner, limit);
    }
  }

  /** A member: its key, a colon, its value. */
  lemma {:induction false} MemberRuns(input: seq<byte>, i: nat, room: nat, members: seq<Pair>, inner: seq<byte>, limit: nat)
    requires room > 0 && |inner| + room == limit + 1 && inner != []
    requires !IsBlank(Current(input, i)) && Current(input, i) != 0
    ensures Machine(input, i, AtKey, inner, limit)
         == Then(ParseMember(input, i, room, members), input, Behind, inner, limit)
    decreases room, |input| - i, 0
  {
    hide ParseValue, SkipBlanks, ReadKey, Put, Before, Cut;
    KeyRuns(input, i, inner, limit);
    var key := ReadKey(input, i);
    if key.Good? {
      BlanksRun(input, key.pos, AtColon, inner, limit);
      var colon := SkipBlanks(input, key.pos);
      if Current(input, colon) == COLON {
        ValueRuns(input, colon + 1, room - 1, Before(members, Cut(key.value)), inner, limit);
      }
    }
  }

  /** Behind a member: the next one, or the end of the object. */
  lemma {:induction false} MembersRun(input: seq<byte>, i: nat, room: nat, members: seq<Pair>, inner: seq<byte>, limit: nat)
    requires room > 0 && |inner| + room == limit + 1 && inner != [] && inner[|inner| - 1] == OPEN_RECORD
    requires !IsBlank(Current(input, i)) && Current(input, i) != 0
    ensures Machine(input, i, AtKey, inner, limit)
         == Then(ParseMembers(input, i, room, members), input, Behind, Popped(inner), limit)
    decreases room, |input| - i, 1
  {
    hide ParseMember, SkipBlanks, Popped;
    MemberRuns(input, i, room, members, inner, limit);
    var r := ParseMember(input, i, room, members);
    if r.Good? {
      BehindRuns(input, r.pos, inner, limit);
      var at := SkipBlanks(input, r.pos);
      if Current(input, at) == COMMA {
        BlanksRun(input, at + 1, AtKey, inner, limit);
        var following := SkipBlanks(input, at + 1);
        if Current(input, following) != 0 {
          MembersRun(input, following, room, r.value, inner, limit);
        }
      }
    }
  }

  /**
   For every input the deserializer accepts, stops with the same error code, or meets a number that needs floating point,
   as the machine does; only an integer on its own is rejected when anything follows it.
   */
  lemma AcceptsAsMachine(input: seq<byte>, limit: nat)
    ensures var r, verdict := Deserialize(input, limit), Machine(input, 0, AtValue, [], limit);
            && (verdict.Stopped? ==> r == Bad(verdict.code))
            && (verdict.Float? ==> r == Outside)
            && (verdict.Accepted? ==>
                  if r.Good? then r.pos == verdict.end && (r.value.Integer? ==> Current(input, verdict.end) == 0)
                  else r == Bad(InvalidInput) && Current(input, verdict.end) != 0)
  {
    hide ParseValue, Machine;
    ValueRuns(input, 0, limit, Null, [], limit);
    var r := ParseValue(input, 0, limit, false, Null);
    if r.Good? {
      BehindAll(input, r.pos, limit);
    }
  }

  lemma BehindAll(input: seq<byte>, i: nat, limit: nat)
    ensures Machine(input, i, Behind, [], limit) == Accepted(i)
  {
  }
}
