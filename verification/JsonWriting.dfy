/**
 Whether what ArduinoJson writes is JSON as RFC 8259 defines it: it is, but for control characters that have no short
 escape, which are written as they are.
 */
module JsonWriting {
  import opened Common
  import opened JsonTree
  import opened JsonTextSpec
  import opened JsonTextProof
  import M = JsonMeaning
  import G = JsmnGrammar

  // ---- Strings ----

  /** Not a control character, or one that is written escaped. */
  predicate CleanByte(c: byte) {
    c >= 0x20 || c as int in {0x00, 0x08, 0x09, 0x0A, 0x0C, 0x0D}
  }

  predicate Clean(s: seq<byte>) {
    forall i :: 0 <= i < |s| ==> CleanByte(s[i])
  }

  /** The character of a JSON string that stands for a byte. */
  function CharOf(c: byte): G.Char {
    if c == 0x22 || c == 0x5C then G.Escaped(c)
    else if c == 0x08 then G.Escaped(0x62)
    else if c == 0x0C then G.Escaped(0x66)
    else if c == 0x0A then G.Escaped(0x6E)
    else if c == 0x0D then G.Escaped(0x72)
    else if c == 0x09 then G.Escaped(0x74)
    else if c == 0 then G.Unicode([0x30, 0x30, 0x30, 0x30])
    else G.Itself(c)
  }

  function CharsOf(s: seq<byte>): (r: seq<G.Char>)
    ensures |r| == |s| && forall i :: 0 <= i < |s| ==> r[i] == CharOf(s[i])
  {
    seq(|s|, i requires 0 <= i < |s| => CharOf(s[i]))
  }

  lemma CharWritten(c: byte)
    ensures G.CharText(CharOf(c)) == PrintChar(c)
    ensures G.LegalChar(CharOf(c)) <==> CleanByte(c)
  {
  }

  lemma CleanChars(s: seq<byte>)
    ensures G.LegalChars(CharsOf(s)) <==> Clean(s)
  {
    hide CharOf, CleanByte, G.LegalChar;
    forall i | 0 <= i < |s| ensures G.LegalChar(CharsOf(s)[i]) <==> CleanByte(s[i]) {
      CharWritten(s[i]);
    }
  }

  lemma {:induction false} CharsWritten(s: seq<byte>)
    ensures G.CharsText(CharsOf(s)) == PrintChars(s)
    decreases |s|
  {
    hide CharOf, PrintChar;
    if s != [] {
      assert CharsOf(s)[1..] == CharsOf(s[1..]);
      CharWritten(s[0]);
      CharsWritten(s[1..]);
    }
  }

  lemma StringWritten(s: seq<byte>)
    ensures G.Quoted(CharsOf(s)) == PrintString(s)
  {
    hide CharsOf;
    CharsWritten(s);
    Associative([QUOTE], PrintChars(s), [QUOTE]);
  }

  /** All bytes of a text are above the control characters. */
  predicate Printable(s: seq<byte>) {
    forall i :: 0 <= i < |s| ==> s[i] >= 0x20
  }

  lemma {:induction false} LegalPrintable(chars: seq<G.Char>)
    requires G.LegalChars(chars)
    ensures Printable(G.CharsText(chars))
    decreases |chars|
  {
    if chars != [] {
      LegalPrintable(chars[1..]);
      assert Printable(G.CharText(chars[0]));
    }
  }

  lemma {:induction false} PrintableClean(s: seq<byte>)
    requires Printable(PrintChars(s))
    ensures Clean(s)
    decreases |s|
  {
    if s != [] {
      var text := PrintChars(s);
      assert Printable(text[..|PrintChar(s[0])|]) && Printable(text[|PrintChar(s[0])|..]);
      assert text[..|PrintChar(s[0])|] == PrintChar(s[0]) && text[|PrintChar(s[0])|..] == PrintChars(s[1..]);
      assert PrintChar(s[0])[0] >= 0x20;
      PrintableClean(s[1..]);
      assert s == [s[0]] + s[1..];
    }
  }

  /** What is written for a string is a JSON string if and only if its control characters are NUL, BS, HT, LF, FF or CR. */
  lemma StringLegalExactly(s: seq<byte>)
    ensures Clean(s) <==> exists chars :: G.LegalChars(chars) && G.Quoted(chars) == PrintString(s)
  {
    StringWritten(s);
    CleanChars(s);
    if chars :| G.LegalChars(chars) && G.Quoted(chars) == PrintString(s) {
      LegalPrintable(chars);
      assert G.Quoted(chars)[1..|G.Quoted(chars)| - 1] == G.CharsText(chars);
      assert PrintString(s)[1..|PrintString(s)| - 1] == PrintChars(s);
      PrintableClean(s);
    }
  }

  // ---- Documents ----

  /** All strings and keys of a document are clean. */
  predicate CleanTree(t: Tree)
    decreases t
  {
    match t
    case Text(bytes) => Clean(bytes)
    case List(items) => CleanItems(items)
    case Record(members) => CleanMembers(members)
    case _ => true
  }

  predicate CleanItems(items: seq<Tree>)
    decreases items
  {
    items == [] || (CleanTree(items[0]) && CleanItems(items[1..]))
  }

  predicate CleanMembers(members: seq<Pair>)
    decreases members
  {
    members == [] || (Clean(Cut(members[0].key)) && CleanTree(members[0].value) && CleanMembers(members[1..]))
  }

  /** The JSON text of a document, without blanks. */
  function TextFor(t: Tree): G.Value
    decreases t
  {
    match t
    case Null => G.Word(G.NULL_WORD)
    case Boolean(b) => G.Word(if b then G.TRUE_WORD else G.FALSE_WORD)
    case Integer(n) => G.Number(n < 0, Decimal(if n < 0 then -n else n), None, None)
    case Text(bytes) => G.Text(CharsOf(bytes))
    case List(items) => G.List([], ItemsFor(items))
    case Record(members) => G.Record([], MembersFor(members))
  }

  function ItemsFor(items: seq<Tree>): G.Items
    decreases items
  {
    if items == [] then G.NoItems else G.Item([], TextFor(items[0]), [], ItemsFor(items[1..]))
  }

  function MembersFor(members: seq<Pair>): G.Members
    decreases members
  {
    if members == [] then G.NoMembers
    else G.Member([], CharsOf(Cut(members[0].key)), [], [], TextFor(members[0].value), [], MembersFor(members[1..]))
  }

  lemma {:induction false} NoLeadingZero(n: nat)
    ensures n > 0 ==> Decimal(n)[0] != 48
    ensures n == 0 ==> Decimal(n) == [48]
  {
    if n >= 10 {
      NoLeadingZero(n / 10);
    }
  }

  lemma IntegerWritten(n: int)
    ensures G.Legal(TextFor(Integer(n))) && G.Print(TextFor(Integer(n))) == PrintInteger(n)
  {
    hide Decimal;
    var m := if n < 0 then -n else n;
    NoLeadingZero(m);
    assert forall i :: 0 <= i < |Decimal(m)| ==> IsDigit(Decimal(m)[i]);
    assert [] + Decimal(m) + [] + [] == Decimal(m);
    assert [MINUS] + Decimal(m) + [] + [] == [MINUS] + Decimal(m);
  }

  /** A document whose strings are clean is written as a JSON text of RFC 8259. */
  lemma {:induction false} WritesJson(t: Tree)
    requires CleanTree(t)
    ensures G.Legal(TextFor(t)) && G.Print(TextFor(t)) == Print(t)
    decreases t
  {
    hide CharsOf, G.Quoted, PrintString, PrintItems, PrintMembers, G.PrintItems, G.PrintMembers, ItemsFor, MembersFor, G.LegalChars;
    match t
    case Null =>
    case Boolean(_) =>
    case Integer(n) => IntegerWritten(n);
    case Text(bytes) =>
      CleanChars(bytes);
      StringWritten(bytes);
    case List(items) =>
      ItemsWritten(items);
      assert [] + (PrintItems(items) + [CLOSE_LIST]) == PrintItems(items) + [CLOSE_LIST];
    case Record(members) =>
      MembersWritten(members);
      assert [] + (PrintMembers(members) + [CLOSE_RECORD]) == PrintMembers(members) + [CLOSE_RECORD];
  }

  lemma {:induction false} ItemsWritten(items: seq<Tree>)
    requires CleanItems(items)
    ensures G.LegalItems(ItemsFor(items)) && G.PrintItems(ItemsFor(items)) == PrintItems(items)
    decreases items
  {
    hide Print, G.Print, TextFor, CleanTree, G.Legal;
    if items != [] {
      WritesJson(items[0]);
      ItemsWritten(items[1..]);
      var tail := if |items| == 1 then [] else [COMMA] + PrintItems(items[1..]);
      assert [] + (Print(items[0]) + ([] + tail)) == Print(items[0]) + tail;
    }
  }

  lemma {:induction false} MembersWritten(members: seq<Pair>)
    requires CleanMembers(members)
    ensures G.LegalMembers(MembersFor(members)) && G.PrintMembers(MembersFor(members)) == PrintMembers(members)
    decreases members
  {
    hide Print, G.Print, TextFor, CleanTree, G.Legal, Cut, CharsOf, PrintString, G.Quoted, Clean, G.LegalChars;
    if members != [] {
      var key, value := PrintString(Cut(members[0].key)), Print(members[0].value);
      CleanChars(Cut(members[0].key));
      StringWritten(Cut(members[0].key));
      WritesJson(members[0].value);
      MembersWritten(members[1..]);
      var tail := if |members| == 1 then [] else [COMMA] + PrintMembers(members[1..]);
      NoBlanks(key, value, tail);
    }
  }

  lemma NoBlanks(key: seq<byte>, value: seq<byte>, tail: seq<byte>)
    ensures [] + (key + ([] + ([COLON] + ([] + (value + ([] + tail)))))) == key + ([COLON] + (value + tail))
  {
    assert [] + tail == tail;
    assert [] + (value + tail) == value + tail;
    assert [] + ([COLON] + (value + tail)) == [COLON] + (value + tail);
  }
}
