/** The tokenizer refines the JSON grammar: its token list is the preorder of the text's nodes. */
module JsmnProof {
  import opened Common
  import opened JsmnSpec
  import opened JsmnGrammar

  lemma BracketParts(js: seq<byte>, at: nat, open: byte, blank: seq<byte>, text: seq<byte>, close: byte)
    requires On(js, at, [open] + (blank + (text + [close])))
    ensures at < |js| && js[at] == open && On(js, at + 1, blank) && On(js, at + 1 + |blank|, text)
    ensures at + 1 + |blank| + |text| < |js| && js[at + 1 + |blank| + |text|] == close
  {
    hide On;
    OnFirst(js, at, open, blank + (text + [close]));
    OnParts(js, at + 1, blank, text + [close]);
    OnParts(js, at + 1 + |blank|, text, [close]);
    assert [close] + [] == [close];
    OnFirst(js, at + 1 + |blank| + |text|, close, []);
  }

  /** What may follow an unquoted value. */
  predicate Followed(js: seq<byte>, i: nat) {
    AtEnd(js, i) || EndsPrimitive(js[i])
  }

  // ---- Scanning ----

  lemma {:induction false} BlankRuns(js: seq<byte>, room: nat, s: State, blank: seq<byte>)
    requires Sound(s) && On(js, s.pos, blank) && Blank(blank)
    ensures Run(js, room, s) == Run(js, room, s.(pos := s.pos + |blank|))
    decreases |blank|
  {
    hide LastOpen, LastContainer, StringEnd, PrimitiveEnd, Run;
    RunStep(js, room, s);
    if blank != [] {
      assert blank == [blank[0]] + blank[1..];
      OnFirst(js, s.pos, blank[0], blank[1..]);
      BlankRuns(js, room, s.(pos := s.pos + 1), blank[1..]);
    }
  }

  lemma CharScans(js: seq<byte>, i: nat, c: Char)
    requires LegalChar(c) && On(js, i, CharText(c))
    ensures StringEnd(js, i) == StringEnd(js, i + |CharText(c)|)
  {
    var text := CharText(c);
    assert forall k :: i <= k < i + |text| ==> js[k] == js[i..i + |text|][k - i];
    match c
    case Itself(_) =>
    case Escaped(b) =>
      assert js[i] == text[0] && js[i + 1] == text[1];
    case Unicode(h) =>
      assert js[i] == text[0] && js[i + 1] == text[1];
      assert js[i + 2] == h[0] && js[i + 3] == h[1] && js[i + 4] == h[2] && js[i + 5] == h[3];
      assert HexEnd(js, i + 6, 0) == Some(i + 6);
      assert HexEnd(js, i + 5, 1) == Some(i + 6);
      assert HexEnd(js, i + 4, 2) == Some(i + 6);
      assert HexEnd(js, i + 3, 3) == Some(i + 6);
  }

  lemma {:induction false} CharsScan(js: seq<byte>, i: nat, chars: seq<Char>)
    requires LegalChars(chars) && On(js, i, CharsText(chars) + [QUOTE])
    ensures StringEnd(js, i) == Found(i + |CharsText(chars)|)
    decreases |chars|
  {
    if chars == [] {
      assert CharsText(chars) + [QUOTE] == [QUOTE] + [];
      OnFirst(js, i, QUOTE, []);
    } else {
      Associative(CharText(chars[0]), CharsText(chars[1..]), [QUOTE]);
      OnParts(js, i, CharText(chars[0]), CharsText(chars[1..]) + [QUOTE]);
      CharScans(js, i, chars[0]);
      CharsScan(js, i + |CharText(chars[0])|, chars[1..]);
    }
  }

  /** Text that can only be an unquoted value. */
  predicate Plain(text: seq<byte>) {
    forall i :: 0 <= i < |text| ==> 32 < text[i] < 127 && !EndsPrimitive(text[i])
  }

  predicate StartsPrimitive(b: byte) {
    b != QUOTE && b != OPEN_ARRAY && b != OPEN_OBJECT
  }

  lemma {:induction false} PlainScans(js: seq<byte>, i: nat, text: seq<byte>)
    requires On(js, i, text) && Plain(text) && Followed(js, i + |text|)
    ensures PrimitiveEnd(js, i) == Found(i + |text|)
    decreases |text|
  {
    if text != [] {
      assert text == [text[0]] + text[1..];
      OnFirst(js, i, text[0], text[1..]);
      PlainScans(js, i + 1, text[1..]);
    }
  }

  lemma NumbersPlain(minus: bool, whole: seq<byte>, fraction: Option<seq<byte>>, exponent: Option<Exponent>)
    requires Legal(Number(minus, whole, fraction, exponent))
    ensures var text := NumberText(minus, whole, fraction, exponent); text != [] && Plain(text) && StartsPrimitive(text[0])
  {
    var a := (if minus then [MINUS] else []) + whole;
    var b := if fraction.Some? then [POINT] + fraction.value else [];
    var c := if exponent.Some? then ExponentText(exponent.value) else [];
    assert Plain(a) && a != [] && StartsPrimitive(a[0]);
    assert Plain(b);
    assert Plain(c) by {
      if exponent.Some? {
        var e := exponent.value;
        var sign := if e.sign.Some? then [e.sign.value] else [];
        assert Plain([e.letter]) && Plain(sign) && Plain(e.digits);
        PlainAppend([e.letter], sign);
        PlainAppend([e.letter] + sign, e.digits);
      }
    }
    PlainAppend(a, b);
    PlainAppend(a + b, c);
    assert NumberText(minus, whole, fraction, exponent)[0] == a[0];
  }

  lemma PlainAppend(a: seq<byte>, b: seq<byte>)
    requires Plain(a) && Plain(b)
    ensures Plain(a + b)
  {
  }

  lemma PrimitivesPlain(v: Value)
    requires Legal(v) && (v.Word? || v.Number?)
    ensures Print(v) != [] && Plain(Print(v)) && StartsPrimitive(Print(v)[0])
  {
    if v.Number? {
      NumbersPlain(v.minus, v.whole, v.fraction, v.exponent);
    }
  }

  // ---- Open tokens ----

  predicate Closed(tokens: seq<Token>) {
    forall i :: 0 <= i < |tokens| ==> !Open(tokens[i])
  }

  lemma {:induction false} LastOpenAppend(a: seq<Token>, b: seq<Token>)
    requires Closed(b)
    ensures LastOpen(a + b) == LastOpen(a)
    decreases |b|
  {
    if b == [] {
      assert a + b == a;
    } else {
      assert (a + b)[..|a + b| - 1] == a + b[..|b| - 1];
      LastOpenAppend(a, b[..|b| - 1]);
    }
  }

  lemma {:induction false} LastOpenBump(tokens: seq<Token>, i: int)
    requires -1 <= i < |tokens|
    ensures LastOpen(Bump(tokens, i)) == LastOpen(tokens)
    decreases |tokens|
  {
    if i != -1 {
      var n := |tokens| - 1;
      if i < n {
        LastOpenBump(tokens[..n], i);
        assert Bump(tokens, i)[..n] == Bump(tokens[..n], i);
      } else {
        assert Bump(tokens, i)[..n] == tokens[..n];
      }
    }
  }

  /** An open container followed by closed tokens is the last open token, and the last open container. */
  lemma {:induction false} LastIs(pre: seq<Token>, t: Token, kids: seq<Token>)
    requires Open(t) && (t.kind == Array || t.kind == Object) && Closed(kids)
    ensures LastOpen(pre + [t] + kids) == |pre| == LastContainer(pre + [t] + kids)
    decreases |kids|
  {
    var all := pre + [t] + kids;
    if kids != [] {
      assert all[..|all| - 1] == pre + [t] + kids[..|kids| - 1];
      LastIs(pre, t, kids[..|kids| - 1]);
    }
  }

  lemma {:induction false} NodesClosed(v: Value, at: nat)
    ensures Closed(Nodes(v, at)) && |Nodes(v, at)| > 0
    decreases v
  {
    match v
    case List(blank, items) => ItemNodesClosed(items, at + 1 + |blank|);
    case Record(blank, members) => MemberNodesClosed(members, at + 1 + |blank|);
    case _ =>
  }

  lemma {:induction false} ItemNodesClosed(items: Items, at: nat)
    ensures Closed(ItemNodes(items, at))
    decreases items
  {
    match items
    case NoItems =>
    case Item(before, value, after, rest) =>
      NodesClosed(value, at + |before|);
      ItemNodesClosed(rest, at + |before| + |Print(value)| + |after| + 1);
  }

  lemma {:induction false} MemberNodesClosed(members: Members, at: nat)
    ensures Closed(MemberNodes(members, at))
    decreases members
  {
    match members
    case NoMembers =>
    case Member(before, key, middle, gap, value, after, rest) =>
      var start := at + |before| + |Quoted(key)| + |middle| + 1 + |gap|;
      NodesClosed(value, start);
      MemberNodesClosed(rest, start + |Print(value)| + |after| + 1);
  }

  // ---- One value ----

  function AfterValue(s: State, v: Value): State
    requires Sound(s)
  {
    State(s.pos + |Print(v)|, if v.List? || v.Record? then LastOpen(s.tokens) else s.super,
          Bump(s.tokens, s.super) + Nodes(v, s.pos))
  }

  lemma BumpAppend(tokens: seq<Token>, i: int, more: seq<Token>)
    requires -1 <= i < |tokens|
    ensures Bump(tokens + more, i) == Bump(tokens, i) + more
  {
  }

  lemma StringRuns(js: seq<byte>, room: nat, s: State, chars: seq<Char>)
    requires Sound(s) && LegalChars(chars) && On(js, s.pos, Quoted(chars)) && |s.tokens| < room
    ensures Run(js, room, s) == Run(js, room, State(s.pos + |Quoted(chars)|, s.super,
                                                    Bump(s.tokens, s.super) + [StringToken(chars, s.pos, 0)]))
  {
    hide LastOpen, LastContainer, StringEnd, PrimitiveEnd, Bump, Run;
    RunStep(js, room, s);
    assert Quoted(chars) == [QUOTE] + (CharsText(chars) + [QUOTE]);
    OnFirst(js, s.pos, QUOTE, CharsText(chars) + [QUOTE]);
    CharsScan(js, s.pos + 1, chars);
    BumpAppend(s.tokens, s.super, [StringToken(chars, s.pos, 0)]);
  }

  lemma PrimitiveRuns(js: seq<byte>, room: nat, s: State, text: seq<byte>)
    requires Sound(s) && text != [] && Plain(text) && StartsPrimitive(text[0]) && On(js, s.pos, text)
    requires Followed(js, s.pos + |text|) && |s.tokens| < room
    ensures Run(js, room, s) == Run(js, room, State(s.pos + |text|, s.super,
                                                    Bump(s.tokens, s.super) + [Token(Primitive, s.pos, s.pos + |text|, 0)]))
  {
    hide LastOpen, LastContainer, StringEnd, PrimitiveEnd, Bump, Run;
    RunStep(js, room, s);
    assert text == [text[0]] + text[1..];
    OnFirst(js, s.pos, text[0], text[1..]);
    PlainScans(js, s.pos, text);
    BumpAppend(s.tokens, s.super, [Token(Primitive, s.pos, s.pos + |text|, 0)]);
  }

  lemma CloseRuns(js: seq<byte>, room: nat, s: State, kind: Kind, pre: seq<Token>, t: Token, kids: seq<Token>)
    requires Sound(s) && s.tokens == pre + [t] + kids && Open(t) && t.kind == kind && Closed(kids)
    requires kind == Array || kind == Object
    requires s.pos < |js| && js[s.pos] == if kind == Array then CLOSE_ARRAY else CLOSE_OBJECT
    ensures Run(js, room, s) == Run(js, room, State(s.pos + 1, LastOpen(pre), pre + [t.(end := s.pos + 1)] + kids))
  {
    LastIs(pre, t, kids);
    var closed := pre + [t.(end := s.pos + 1)] + kids;
    assert s.tokens[|pre| := t.(end := s.pos + 1)] == closed;
    LastOpenAppend(pre, [t.(end := s.pos + 1)]);
    LastOpenAppend(pre + [t.(end := s.pos + 1)], kids);
    hide LastOpen, LastContainer, StringEnd, PrimitiveEnd, Bump, Run;
    RunStep(js, room, s);
    assert Step(js, room, s) == Next(State(s.pos + 1, LastOpen(closed), closed));
  }

  /** A value met in state `s` leaves its nodes behind, counts once for the token it belongs to, and nothing else. */
  lemma {:induction false} ValueRuns(js: seq<byte>, room: nat, s: State, v: Value)
    requires Sound(s) && Legal(v) && On(js, s.pos, Print(v)) && Followed(js, s.pos + |Print(v)|)
    requires |s.tokens| + |Nodes(v, s.pos)| <= room
    ensures Sound(AfterValue(s, v)) && Run(js, room, s) == Run(js, room, AfterValue(s, v))
    decreases v, 0
  {
    hide LastOpen, LastContainer, StringEnd, PrimitiveEnd, Step, Run, Bump;
    NodesClosed(v, s.pos);
    match v
    case Word(_) =>
      PrimitivesPlain(v);
      PrimitiveRuns(js, room, s, Print(v));
    case Number(_, _, _, _) =>
      PrimitivesPlain(v);
      PrimitiveRuns(js, room, s, Print(v));
    case Text(chars) => StringRuns(js, room, s, chars);
    case List(blank, items) => ListRuns(js, room, s, blank, items);
    case Record(blank, members) => RecordRuns(js, room, s, blank, members);
  }

  lemma OpenRuns(js: seq<byte>, room: nat, s: State, kind: Kind)
    requires Sound(s) && |s.tokens| < room && (kind == Array || kind == Object)
    requires s.pos < |js| && js[s.pos] == if kind == Array then OPEN_ARRAY else OPEN_OBJECT
    ensures var inside := State(s.pos + 1, |s.tokens|, Bump(s.tokens, s.super) + [Token(kind, s.pos, -1, 0)]);
            Sound(inside) && Run(js, room, s) == Run(js, room, inside)
  {
    hide LastOpen, LastContainer, StringEnd, PrimitiveEnd, Bump, Run;
    RunStep(js, room, s);
  }

  lemma {:induction false} ListRuns(js: seq<byte>, room: nat, s: State, blank: seq<byte>, items: Items)
    requires Sound(s) && Legal(List(blank, items)) && On(js, s.pos, Print(List(blank, items)))
    requires |s.tokens| + |Nodes(List(blank, items), s.pos)| <= room
    ensures Sound(AfterValue(s, List(blank, items))) && Run(js, room, s) == Run(js, room, AfterValue(s, List(blank, items)))
    decreases items, 1
  {
    hide LastOpen, LastContainer, StringEnd, PrimitiveEnd, Step, Run, Bump, On, Blank, PrintItems, PrintMembers, ItemNodes, MemberNodes;
    var text := PrintItems(items);
    var at := s.pos + 1 + |blank|;
    BracketParts(js, s.pos, OPEN_ARRAY, blank, text, CLOSE_ARRAY);
    OpenRuns(js, room, s, Array);
    var pre := Bump(s.tokens, s.super);
    var t := Token(Array, s.pos, -1, 0);
    BlankRuns(js, room, State(s.pos + 1, |pre|, pre + [t]), blank);
    assert pre + [t] + [] == pre + [t];
    ItemsRun(js, room, pre, t, [], items, at);
    var nodes := ItemNodes(items, at);
    ItemNodesClosed(items, at);
    assert [] + nodes == nodes;
    var full := t.(size := ItemCount(items));
    var s1 := State(at + |text|, |pre|, pre + [full] + nodes);
    CloseRuns(js, room, s1, Array, pre, full, nodes);
    LastOpenBump(s.tokens, s.super);
    Associative(pre, [full.(end := at + |text| + 1)], nodes);
  }

  lemma {:induction false} ItemsRun(js: seq<byte>, room: nat, pre: seq<Token>, t: Token, kids: seq<Token>, items: Items, at: nat)
    requires Open(t) && t.kind == Array && Closed(kids) && LegalItems(items)
    requires On(js, at, PrintItems(items)) && at + |PrintItems(items)| < |js| && js[at + |PrintItems(items)|] == CLOSE_ARRAY
    requires |pre| + 1 + |kids| + |ItemNodes(items, at)| <= room
    ensures Run(js, room, State(at, |pre|, pre + [t] + kids))
         == Run(js, room, State(at + |PrintItems(items)|, |pre|,
                                pre + [t.(size := t.size + ItemCount(items))] + (kids + ItemNodes(items, at))))
    decreases items, 0
  {
    hide LastOpen, LastContainer, StringEnd, PrimitiveEnd, Step, Run, Bump, Print, Nodes, On, Legal;
    match items
    case NoItems =>
      assert kids + [] == kids;
    case Item(before, value, after, rest) =>
      var tail := if rest.NoItems? then [] else [COMMA] + PrintItems(rest);
      var valueAt := at + |before|;
      var end := valueAt + |Print(value)| + |after|;
      var nodes := Nodes(value, valueAt);
      var t1 := t.(size := t.size + 1);
      ItemRuns(js, room, pre, t, kids, before, value, after, tail, at);
      if rest.NoItems? {
        assert nodes + [] == nodes;
      } else {
        NodesClosed(value, valueAt);
        OnFirst(js, end, COMMA, PrintItems(rest));
        CommaRuns(js, room, pre, t1, kids + nodes, end, |pre|);
        ItemsRun(js, room, pre, t1, kids + nodes, rest, end + 1);
        Associative(kids, nodes, ItemNodes(rest, end + 1));
      }
  }

  /** One item of an open list. */
  lemma {:induction false} ItemRuns(js: seq<byte>, room: nat, pre: seq<Token>, t: Token, kids: seq<Token>,
                                    before: seq<byte>, value: Value, after: seq<byte>, tail: seq<byte>, at: nat)
    requires Open(t) && t.kind == Array && Closed(kids) && Blank(before) && Legal(value) && Blank(after)
    requires On(js, at, before + (Print(value) + (after + tail)))
    requires var end := at + |before| + |Print(value)| + |after|;
             if tail == [] then end < |js| && js[end] == CLOSE_ARRAY else tail[0] == COMMA
    requires |pre| + 1 + |kids| + |Nodes(value, at + |before|)| <= room
    ensures On(js, at + |before| + |Print(value)| + |after|, tail)
    ensures Run(js, room, State(at, |pre|, pre + [t] + kids))
         == Run(js, room, State(at + |before| + |Print(value)| + |after|, |pre|,
                                pre + [t.(size := t.size + 1)] + (kids + Nodes(value, at + |before|))))
    decreases value, 1
  {
    hide LastOpen, LastContainer, StringEnd, PrimitiveEnd, Step, Run, Bump, Print, Nodes, On, Blank, Legal;
    var s := State(at, |pre|, pre + [t] + kids);
    OnParts(js, at, before, Print(value) + (after + tail));
    OnParts(js, at + |before|, Print(value), after + tail);
    var end := at + |before| + |Print(value)|;
    OnParts(js, end, after, tail);
    BlankRuns(js, room, s, before);
    FollowedBy(js, end, after, tail, CLOSE_ARRAY);
    var s1 := s.(pos := at + |before|);
    ValueRuns(js, room, s1, value);
    var s2 := AfterValue(s1, value);
    LastIs(pre, t, kids);
    BumpContainer(pre, t, kids);
    Associative(pre + [t.(size := t.size + 1)], kids, Nodes(value, at + |before|));
    BlankRuns(js, room, s2, after);
  }

  lemma BumpContainer(pre: seq<Token>, t: Token, kids: seq<Token>)
    ensures Bump(pre + [t] + kids, |pre|) == pre + [t.(size := t.size + 1)] + kids
  {
  }

  /** Behind a value comes a blank, a comma, or the closing bracket. */
  lemma FollowedBy(js: seq<byte>, at: nat, after: seq<byte>, tail: seq<byte>, close: byte)
    requires On(js, at, after) && On(js, at + |after|, tail) && Blank(after) && (tail != [] ==> tail[0] == COMMA)
    requires tail == [] ==> at + |after| < |js| && js[at + |after|] == close
    requires close == CLOSE_ARRAY || close == CLOSE_OBJECT
    ensures Followed(js, at)
  {
    if after != [] {
      assert js[at] == js[at..at + |after|][0];
    } else if tail != [] {
      assert js[at] == js[at..at + |tail|][0];
    }
  }

  /** A comma leads back to the open container, from it or from a key in it. */
  lemma CommaRuns(js: seq<byte>, room: nat, pre: seq<Token>, t: Token, kids: seq<Token>, at: nat, super: nat)
    requires Open(t) && (t.kind == Array || t.kind == Object) && Closed(kids) && at < |js| && js[at] == COMMA
    requires super == |pre| || (|pre| < super <= |pre| + |kids| && kids[super - |pre| - 1].kind == String)
    ensures Run(js, room, State(at, super, pre + [t] + kids)) == Run(js, room, State(at + 1, |pre|, pre + [t] + kids))
  {
    hide StringEnd, PrimitiveEnd, Bump, Run;
    LastIs(pre, t, kids);
    hide LastOpen, LastContainer;
    RunStep(js, room, State(at, super, pre + [t] + kids));
    var tokens := pre + [t] + kids;
    assert tokens[|pre|] == t;
    assert super != |pre| ==> tokens[super] == kids[super - |pre| - 1];
  }

  lemma ColonRuns(js: seq<byte>, room: nat, s: State)
    requires Sound(s) && s.pos < |js| && js[s.pos] == COLON
    ensures Run(js, room, s) == Run(js, room, State(s.pos + 1, |s.tokens| - 1, s.tokens))
  {
    hide StringEnd, PrimitiveEnd, Bump, LastOpen, LastContainer, Run;
    RunStep(js, room, s);
  }

  /** The state in front of the value of a member: its key has become the token that collects. */
  function AtMemberValue(pre: seq<Token>, t: Token, kids: seq<Token>, key: seq<Char>, keyAt: nat, pos: nat): State {
    State(pos, |pre| + 1 + |kids|, pre + [t.(size := t.size + 1)] + (kids + [StringToken(key, keyAt, 0)]))
  }

  lemma KeyRuns(js: seq<byte>, room: nat, pre: seq<Token>, t: Token, kids: seq<Token>, at: nat,
                before: seq<byte>, key: seq<Char>, middle: seq<byte>, gap: seq<byte>, tail: seq<byte>)
    requires Blank(before) && LegalChars(key) && Blank(middle) && Blank(gap) && |pre| + 1 + |kids| < room
    requires On(js, at, before + (Quoted(key) + (middle + ([COLON] + (gap + tail)))))
    ensures var valueAt := at + |before| + |Quoted(key)| + |middle| + 1 + |gap|;
            On(js, valueAt, tail)
            && Run(js, room, State(at, |pre|, pre + [t] + kids)) == Run(js, room, AtMemberValue(pre, t, kids, key, at + |before|, valueAt))
  {
    hide LastOpen, LastContainer, StringEnd, PrimitiveEnd, Step, Run, Bump, Quoted, StringToken, CharsText;
    var s := State(at, |pre|, pre + [t] + kids);
    OnParts(js, at, before, Quoted(key) + (middle + ([COLON] + (gap + tail))));
    BlankRuns(js, room, s, before);
    var keyAt := at + |before|;
    OnParts(js, keyAt, Quoted(key), middle + ([COLON] + (gap + tail)));
    StringRuns(js, room, s.(pos := keyAt), key);
    BumpContainer(pre, t, kids);
    var t1 := t.(size := t.size + 1);
    Associative(pre + [t1], kids, [StringToken(key, keyAt, 0)]);
    var middleAt := keyAt + |Quoted(key)|;
    var s1 := State(middleAt, |pre|, pre + [t1] + (kids + [StringToken(key, keyAt, 0)]));
    OnParts(js, middleAt, middle, [COLON] + (gap + tail));
    BlankRuns(js, room, s1, middle);
    OnFirst(js, middleAt + |middle|, COLON, gap + tail);
    ColonRuns(js, room, s1.(pos := middleAt + |middle|));
    OnParts(js, middleAt + |middle| + 1, gap, tail);
    BlankRuns(js, room, AtMemberValue(pre, t, kids, key, keyAt, middleAt + |middle| + 1), gap);
  }

  lemma BumpKey(pre: seq<Token>, t: Token, kids: seq<Token>, key: seq<Char>, keyAt: nat)
    ensures Bump(pre + [t] + (kids + [StringToken(key, keyAt, 0)]), |pre| + 1 + |kids|)
         == pre + [t] + (kids + [StringToken(key, keyAt, 1)])
  {
  }

  lemma {:induction false} MembersRun(js: seq<byte>, room: nat, pre: seq<Token>, t: Token, kids: seq<Token>, members: Members, at: nat)
    returns (last: State)
    requires Open(t) && t.kind == Object && Closed(kids) && LegalMembers(members)
    requires On(js, at, PrintMembers(members))
    requires at + |PrintMembers(members)| < |js| && js[at + |PrintMembers(members)|] == CLOSE_OBJECT
    requires |pre| + 1 + |kids| + |MemberNodes(members, at)| <= room
    ensures Sound(last) && last.pos == at + |PrintMembers(members)|
    ensures last.tokens == pre + [t.(size := t.size + MemberCount(members))] + (kids + MemberNodes(members, at))
    ensures Run(js, room, State(at, |pre|, pre + [t] + kids)) == Run(js, room, last)
    decreases members, 0
  {
    hide LastOpen, LastContainer, StringEnd, PrimitiveEnd, Step, Run, Bump, Quoted, CharsText, Print, Nodes, On, Legal;
    match members
    case NoMembers =>
      assert kids + [] == kids;
      last := State(at, |pre|, pre + [t] + kids);
    case Member(before, key, middle, gap, value, after, rest) =>
      var tail := if rest.NoMembers? then [] else [COMMA] + PrintMembers(rest);
      var keyAt := at + |before|;
      var valueAt := keyAt + |Quoted(key)| + |middle| + 1 + |gap|;
      var end := valueAt + |Print(value)| + |after|;
      var k1 := StringToken(key, keyAt, 1);
      var nodes := Nodes(value, valueAt);
      var t1 := t.(size := t.size + 1);
      last := MemberRuns(js, room, pre, t, kids, before, key, middle, gap, value, after, tail, at);
      if rest.NoMembers? {
        assert nodes + [] == nodes;
      } else {
        NodesClosed(value, valueAt);
        var kids1 := kids + ([k1] + nodes);
        assert Closed(kids1) && kids1[|kids|].kind == String;
        var mid := last;
        last := NextMembers(js, room, pre, t1, kids1, rest, mid.pos, mid.super);
        var more := MemberNodes(rest, end + 1);
        Associative([k1], nodes, more);
        Associative(kids, [k1] + nodes, more);
      }
  }

  /** A comma and the members behind it. */
  lemma {:induction false} NextMembers(js: seq<byte>, room: nat, pre: seq<Token>, t: Token, kids: seq<Token>, rest: Members, at: nat, super: int)
    returns (last: State)
    requires Open(t) && t.kind == Object && Closed(kids) && LegalMembers(rest)
    requires super == |pre| || (|pre| < super <= |pre| + |kids| && kids[super - |pre| - 1].kind == String)
    requires On(js, at, [COMMA] + PrintMembers(rest))
    requires at + 1 + |PrintMembers(rest)| < |js| && js[at + 1 + |PrintMembers(rest)|] == CLOSE_OBJECT
    requires |pre| + 1 + |kids| + |MemberNodes(rest, at + 1)| <= room
    ensures Sound(last) && last.pos == at + 1 + |PrintMembers(rest)|
    ensures last.tokens == pre + [t.(size := t.size + MemberCount(rest))] + (kids + MemberNodes(rest, at + 1))
    ensures Run(js, room, State(at, super, pre + [t] + kids)) == Run(js, room, last)
    decreases rest, 1
  {
    hide LastOpen, LastContainer, StringEnd, PrimitiveEnd, Step, Run, Bump, PrintMembers, MemberNodes, On, LegalMembers, Closed;
    OnFirst(js, at, COMMA, PrintMembers(rest));
    CommaRuns(js, room, pre, t, kids, at, super);
    last := MembersRun(js, room, pre, t, kids, rest, at + 1);
  }

  /** One member of an open object: its key, then its value, which counts for the key. */
  lemma {:induction false} MemberRuns(js: seq<byte>, room: nat, pre: seq<Token>, t: Token, kids: seq<Token>,
                                      before: seq<byte>, key: seq<Char>, middle: seq<byte>, gap: seq<byte>,
                                      value: Value, after: seq<byte>, tail: seq<byte>, at: nat)
    returns (last: State)
    requires Open(t) && t.kind == Object && Closed(kids)
    requires Blank(before) && LegalChars(key) && Blank(middle) && Blank(gap) && Legal(value) && Blank(after)
    requires On(js, at, before + (Quoted(key) + (middle + ([COLON] + (gap + (Print(value) + (after + tail)))))))
    requires var end := at + |before| + |Quoted(key)| + |middle| + 1 + |gap| + |Print(value)| + |after|;
             if tail == [] then end < |js| && js[end] == CLOSE_OBJECT else tail[0] == COMMA
    requires |pre| + 2 + |kids| + |Nodes(value, at + |before| + |Quoted(key)| + |middle| + 1 + |gap|)| <= room
    ensures On(js, last.pos, tail) && Sound(last)
    ensures last.pos == at + |before| + |Quoted(key)| + |middle| + 1 + |gap| + |Print(value)| + |after|
    ensures last.super == |pre| || last.super == |pre| + 1 + |kids|
    ensures last.tokens == pre + [t.(size := t.size + 1)] + (kids + ([StringToken(key, at + |before|, 1)]
                           + Nodes(value, at + |before| + |Quoted(key)| + |middle| + 1 + |gap|)))
    ensures Run(js, room, State(at, |pre|, pre + [t] + kids)) == Run(js, room, last)
    decreases value, 1
  {
    hide LastOpen, LastContainer, StringEnd, PrimitiveEnd, Step, Run, Bump, Quoted, CharsText, Print, Nodes, On, Blank, Legal, LegalChars;
    KeyRuns(js, room, pre, t, kids, at, before, key, middle, gap, Print(value) + (after + tail));
    var keyAt := at + |before|;
    var valueAt := keyAt + |Quoted(key)| + |middle| + 1 + |gap|;
    var end := valueAt + |Print(value)|;
    OnParts(js, valueAt, Print(value), after + tail);
    OnParts(js, end, after, tail);
    FollowedBy(js, end, after, tail, CLOSE_OBJECT);
    var s1 := AtMemberValue(pre, t, kids, key, keyAt, valueAt);
    ValueRuns(js, room, s1, value);
    var s2 := AfterValue(s1, value);
    var t1 := t.(size := t.size + 1);
    var k1 := StringToken(key, keyAt, 1);
    var nodes := Nodes(value, valueAt);
    LastIs(pre, t1, kids + [StringToken(key, keyAt, 0)]);
    BumpKey(pre, t1, kids, key, keyAt);
    Associative(pre + [t1], kids + [k1], nodes);
    Associative(kids, [k1], nodes);
    BlankRuns(js, room, s2, after);
    last := s2.(pos := end + |after|);
  }

  lemma {:induction false} RecordRuns(js: seq<byte>, room: nat, s: State, blank: seq<byte>, members: Members)
    requires Sound(s) && Legal(Record(blank, members)) && On(js, s.pos, Print(Record(blank, members)))
    requires |s.tokens| + |Nodes(Record(blank, members), s.pos)| <= room
    ensures Sound(AfterValue(s, Record(blank, members)))
    ensures Run(js, room, s) == Run(js, room, AfterValue(s, Record(blank, members)))
    decreases members, 1
  {
    hide LastOpen, LastContainer, StringEnd, PrimitiveEnd, Step, Run, Bump, On, Blank, PrintItems, PrintMembers, ItemNodes, MemberNodes;
    var text := PrintMembers(members);
    var at := s.pos + 1 + |blank|;
    BracketParts(js, s.pos, OPEN_OBJECT, blank, text, CLOSE_OBJECT);
    OpenRuns(js, room, s, Object);
    var pre := Bump(s.tokens, s.super);
    var t := Token(Object, s.pos, -1, 0);
    BlankRuns(js, room, State(s.pos + 1, |pre|, pre + [t]), blank);
    assert pre + [t] + [] == pre + [t];
    var last := MembersRun(js, room, pre, t, [], members, at);
    var nodes := MemberNodes(members, at);
    MemberNodesClosed(members, at);
    assert [] + nodes == nodes;
    var full := t.(size := MemberCount(members));
    CloseRuns(js, room, last, Object, pre, full, nodes);
    LastOpenBump(s.tokens, s.super);
    Associative(pre, [full.(end := at + |text| + 1)], nodes);
  }

  /**
   The tokenizer on any JSON text, whatever blanks it is written with, and with room for its nodes:
   it returns their number, and the tokens are the nodes in preorder with their spans and sizes.
   */
  lemma ParsesAnyText(before: seq<byte>, v: Value, after: seq<byte>, room: nat)
    requires Blank(before) && Legal(v) && Blank(after) && |Nodes(v, |before|)| <= room
    ensures var js := before + (Print(v) + after);
            var (result, done) := Run(js, room, INITIAL);
            result == Count(|Nodes(v, |before|)|) && done.tokens == Nodes(v, |before|) && done.pos == |js|
  {
    hide LastOpen, LastContainer, StringEnd, PrimitiveEnd, Step, Run, Bump, Print, Nodes;
    var js := before + (Print(v) + after);
    assert js[0..|js|] == js;
    OnParts(js, 0, before, Print(v) + after);
    OnParts(js, |before|, Print(v), after);
    BlankRuns(js, room, INITIAL, before);
    var at := |before|;
    assert Followed(js, at + |Print(v)|) by {
      if after != [] {
        assert js[at + |Print(v)|] == after[0];
      }
    }
    var s := State(at, -1, []);
    ValueRuns(js, room, s, v);
    var done := State(|js|, AfterValue(s, v).super, Nodes(v, at));
    NothingBefore(Nodes(v, at));
    BlankRuns(js, room, AfterValue(s, v), after);
    NodesClosed(v, at);
    LastOpenAppend([], Nodes(v, at));
    EndRuns(js, room, done);
  }

  lemma NothingBefore(nodes: seq<Token>)
    ensures Bump([], -1) + nodes == nodes && [] + nodes == nodes && LastOpen([]) == -1
  {
  }

  lemma EndRuns(js: seq<byte>, room: nat, s: State)
    requires Sound(s) && AtEnd(js, s.pos) && LastOpen(s.tokens) == -1
    ensures Run(js, room, s) == (Count(|s.tokens|), s)
  {
    RunStep(js, room, s);
  }

  /** Without a token array, the tokenizer counts the nodes of any JSON text. */
  lemma CountsAnyText(before: seq<byte>, v: Value, after: seq<byte>)
    requires Blank(before) && Legal(v) && Blank(after)
    ensures Tally(before + (Print(v) + after), 0, 0) == Count(|Nodes(v, |before|)|)
  {
    var room := |Nodes(v, |before|)|;
    ParsesAnyText(before, v, after, room);
    TallyAgrees(before + (Print(v) + after), room, INITIAL);
  }
}
