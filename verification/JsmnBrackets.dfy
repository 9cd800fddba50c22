/**
 What the tokenizer accepts, for every input: brackets outside strings and unquoted values are balanced and of one
 kind pairwise, strings are finished and their escapes known, unquoted values are printable. This is said by a reader
 that goes over the characters once and keeps the brackets still open, without tokens.
 */
module JsmnBrackets {
  import opened Common
  import opened JsmnSpec
  import G = JsmnGrammar

  // ---- The reader ----

  /** Where the reader is: between tokens, in a string, behind a backslash, in front of `left` hexadecimal digits, in an unquoted value. */
  datatype Mode = Between | InString | Escape | Hex(left: nat) | Bare

  datatype Verdict = Balanced | CutShort | Broken

  predicate Separates(c: byte) {
    G.Ws(c) || c == 0x2C || c == 0x3A
  }

  /** What ends an unquoted value. */
  predicate EndsBare(c: byte) {
    Separates(c) || c == 0x5D || c == 0x7D
  }

  /** `[` with `]`, `{` with `}`. */
  predicate Pair(a: byte, b: byte) {
    (a == 0x5B && b == 0x5D) || (a == 0x7B && b == 0x7D)
  }

  /** Judges the text from `i` on, with the brackets of `stack` open, the innermost last. */
  function Judge(js: seq<byte>, i: nat, mode: Mode, stack: seq<byte>): Verdict
    decreases |js| - i, if mode == Bare then 1 else 0
  {
    if i >= |js| || js[i] == 0 then
      match mode
      case Between => if stack == [] then Balanced else CutShort
      case Bare => if stack == [] then Balanced else CutShort
      case Escape => if i < |js| then Broken else CutShort
      case _ => CutShort
    else
      var c := js[i];
      match mode
      case InString => Judge(js, i + 1, if c == 0x22 then Between else if c == 0x5C then Escape else InString, stack)
      case Escape =>
        if G.ShortEscape(c) then Judge(js, i + 1, InString, stack)
        else if c == 0x75 then Judge(js, i + 1, Hex(4), stack)
        else Broken
      case Hex(left) =>
        if G.HexDigit(c) then Judge(js, i + 1, if left <= 1 then InString else Hex(left - 1), stack) else Broken
      case Bare =>
        if EndsBare(c) then Judge(js, i, Between, stack)
        else if c < 0x20 || c >= 0x7F then Broken
        else Judge(js, i + 1, Bare, stack)
      case Between =>
        if Separates(c) then Judge(js, i + 1, Between, stack)
        else if c == 0x5B || c == 0x7B then Judge(js, i + 1, Between, stack + [c])
        else if c == 0x5D || c == 0x7D then
          if stack != [] && Pair(stack[|stack| - 1], c) then Judge(js, i + 1, Between, stack[..|stack| - 1]) else Broken
        else if c == 0x22 then Judge(js, i + 1, InString, stack)
        else if c < 0x20 || c >= 0x7F then Broken
        else Judge(js, i + 1, Bare, stack)
  }

  // ---- The scanners ----

  lemma {:induction false} HexJudged(js: seq<byte>, i: nat, n: nat, stack: seq<byte>)
    requires n > 0
    ensures Judge(js, i, Hex(n), stack) ==
            match HexEnd(js, i, n) case Some(j) => Judge(js, j, InString, stack) case None => Broken
    decreases n
  {
    if !AtEnd(js, i) && n > 1 {
      HexJudged(js, i + 1, n - 1, stack);
    }
  }

  lemma {:induction false} StringJudged(js: seq<byte>, i: nat, stack: seq<byte>)
    ensures Judge(js, i, InString, stack) ==
            match StringEnd(js, i)
            case Found(end) => Judge(js, end + 1, Between, stack)
            case BadText => Broken
            case Unfinished => CutShort
    decreases |js| - i
  {
    if !AtEnd(js, i) && js[i] != QUOTE {
      if js[i] != BACKSLASH {
        StringJudged(js, i + 1, stack);
      } else if i + 1 < |js| {
        if IsEscape(js[i + 1]) {
          StringJudged(js, i + 2, stack);
        } else if js[i + 1] == 117 {
          HexJudged(js, i + 2, 4, stack);
          if HexEnd(js, i + 2, 4).Some? {
            StringJudged(js, HexEnd(js, i + 2, 4).value, stack);
          }
        }
      }
    }
  }

  lemma {:induction false} PrimitiveJudged(js: seq<byte>, i: nat, stack: seq<byte>)
    ensures Judge(js, i, Bare, stack) ==
            match PrimitiveEnd(js, i) case Found(end) => Judge(js, end, Between, stack) case _ => Broken
    decreases |js| - i
  {
    if !AtEnd(js, i) && !EndsPrimitive(js[i]) && 32 <= js[i] < 127 {
      PrimitiveJudged(js, i + 1, stack);
    }
  }

  // ---- Brackets and open tokens ----

  function Bracket(kind: Kind): byte {
    match kind
    case Array => OPEN_ARRAY
    case Object => OPEN_OBJECT
    case _ => 0
  }

  /** The brackets of the open tokens. */
  function OpenBrackets(tokens: seq<Token>): seq<byte>
    decreases |tokens|
  {
    if tokens == [] then []
    else
      var last := tokens[|tokens| - 1];
      OpenBrackets(tokens[..|tokens| - 1]) + if Open(last) then [Bracket(last.kind)] else []
  }

  /** The last open token stands for the innermost bracket; the tokens before it for the others. */
  lemma {:induction false} LastOpenBracket(tokens: seq<Token>)
    ensures var i := LastOpen(tokens);
            OpenBrackets(tokens) == if i == -1 then [] else OpenBrackets(tokens[..i]) + [Bracket(tokens[i].kind)]
    decreases |tokens|
  {
    if tokens != [] && !Open(tokens[|tokens| - 1]) {
      var front := tokens[..|tokens| - 1];
      LastOpenBracket(front);
      if LastOpen(front) != -1 {
        assert front[..LastOpen(front)] == tokens[..LastOpen(front)];
      }
    }
  }

  /** A token that is open before an edit and after it, or at neither time, keeps its bracket. */
  lemma {:induction false} SameBrackets(a: seq<Token>, b: seq<Token>)
    requires |a| == |b|
    requires forall i :: 0 <= i < |a| ==> Open(a[i]) == Open(b[i]) && a[i].kind == b[i].kind
    ensures OpenBrackets(a) == OpenBrackets(b)
    decreases |a|
  {
    if a != [] {
      SameBrackets(a[..|a| - 1], b[..|b| - 1]);
    }
  }

  /** Closing the last open token takes the innermost bracket away. */
  lemma {:induction false} ClosedBrackets(tokens: seq<Token>, i: nat, end: nat)
    requires i == LastOpen(tokens)
    ensures OpenBrackets(tokens[i := tokens[i].(end := end)]) == OpenBrackets(tokens[..i])
    decreases |tokens|
  {
    var closed := tokens[i := tokens[i].(end := end)];
    if i == |tokens| - 1 {
      assert closed[..i] == tokens[..i];
    } else {
      var front := tokens[..|tokens| - 1];
      ClosedBrackets(front, i, end);
      assert closed[..|tokens| - 1] == front[i := front[i].(end := end)];
      assert front[..i] == tokens[..i];
    }
  }

  lemma MoreBrackets(tokens: seq<Token>, token: Token)
    ensures OpenBrackets(tokens + [token]) == OpenBrackets(tokens) + if Open(token) then [Bracket(token.kind)] else []
  {
    assert (tokens + [token])[..|tokens|] == tokens;
  }

  lemma BumpBrackets(tokens: seq<Token>, i: int)
    requires -1 <= i < |tokens|
    ensures OpenBrackets(Bump(tokens, i)) == OpenBrackets(tokens)
  {
    SameBrackets(tokens, Bump(tokens, i));
  }

  // ---- Accepted, cut short, rejected ----

  predicate Outcome(result: Result, verdict: Verdict) {
    && (result.Count? <==> verdict == Balanced)
    && (result.Partial? <==> verdict == CutShort)
    && (result.Invalid? <==> verdict == Broken)
  }

  lemma StepJudged(js: seq<byte>, room: nat, s: State)
    requires Sound(s) && !AtEnd(js, s.pos)
    ensures var verdict, r := Judge(js, s.pos, Between, OpenBrackets(s.tokens)), Step(js, room, s);
            if r.Stop? then r.result == NoMemory || Outcome(r.result, verdict)
            else verdict == Judge(js, r.state.pos, Between, OpenBrackets(r.state.tokens))
  {
    hide StringEnd, PrimitiveEnd, LastOpen, LastContainer, OpenBrackets, Bump;
    var c, stack := js[s.pos], OpenBrackets(s.tokens);
    if c == OPEN_OBJECT || c == OPEN_ARRAY {
      var token := Token(if c == OPEN_OBJECT then Object else Array, s.pos, -1, 0);
      BumpBrackets(s.tokens, s.super);
      MoreBrackets(Bump(s.tokens, s.super), token);
    } else if c == CLOSE_OBJECT || c == CLOSE_ARRAY {
      LastOpenBracket(s.tokens);
      var i := LastOpen(s.tokens);
      if i != -1 {
        ClosedBrackets(s.tokens, i, s.pos + 1);
        assert (OpenBrackets(s.tokens[..i]) + [Bracket(s.tokens[i].kind)])[..|stack| - 1] == OpenBrackets(s.tokens[..i]);
      }
    } else if c == QUOTE {
      StringJudged(js, s.pos + 1, stack);
      LeafBrackets(s, String, s.pos + 1);
    } else if !IsBlank(c) && c != COLON && c != COMMA {
      PrimitiveJudged(js, s.pos, stack);
      LeafBrackets(s, Primitive, s.pos);
    }
  }

  lemma LeafBrackets(s: State, kind: Kind, start: nat)
    requires Sound(s)
    ensures forall end: nat :: OpenBrackets(Bump(s.tokens + [Token(kind, start, end, 0)], s.super)) == OpenBrackets(s.tokens)
  {
    hide OpenBrackets, Bump;
    forall end: nat ensures OpenBrackets(Bump(s.tokens + [Token(kind, start, end, 0)], s.super)) == OpenBrackets(s.tokens) {
      MoreBrackets(s.tokens, Token(kind, start, end, 0));
      BumpBrackets(s.tokens + [Token(kind, start, end, 0)], s.super);
    }
  }

  /** What a call answers, in any state, if it does not run out of tokens. */
  lemma {:induction false} RunJudged(js: seq<byte>, room: nat, s: State)
    requires Sound(s)
    ensures Run(js, room, s).0 == NoMemory || Outcome(Run(js, room, s).0, Judge(js, s.pos, Between, OpenBrackets(s.tokens)))
    decreases |js| - s.pos
  {
    hide Step, Run, OpenBrackets, LastOpen;
    RunStep(js, room, s);
    if AtEnd(js, s.pos) {
      LastOpenBracket(s.tokens);
    } else {
      StepJudged(js, room, s);
      if Step(js, room, s).Next? {
        RunJudged(js, room, Step(js, room, s).state);
      }
    }
  }

  /** As many tokens as characters always suffice. */
  lemma {:induction false} EnoughRoom(js: seq<byte>, room: nat, s: State)
    requires Sound(s) && |s.tokens| <= s.pos && room >= |js|
    ensures Run(js, room, s).0 != NoMemory
    decreases |js| - s.pos
  {
    hide Run, LastOpen, LastContainer, StringEnd, PrimitiveEnd, Bump;
    RunStep(js, room, s);
    if !AtEnd(js, s.pos) {
      if Step(js, room, s).Next? {
        StepCounts(js, room, s);
        EnoughRoom(js, room, Step(js, room, s).state);
      }
    }
  }

  /**
   For every input, a call that does not run out of tokens succeeds if and only if the text is balanced, answers
   `Partial` if and only if it ends in a string or with a bracket open and no error before, and `Invalid` if and only if
   there is an error; and it does not run out with as many tokens as characters.
   */
  lemma AcceptsBalanced(js: seq<byte>, room: nat)
    ensures var result := Run(js, room, INITIAL).0;
            && (result == NoMemory || Outcome(result, Judge(js, 0, Between, [])))
            && (room >= |js| ==> result != NoMemory)
  {
    hide Run, Judge;
    RunJudged(js, room, INITIAL);
    if room >= |js| {
      EnoughRoom(js, room, INITIAL);
    }
  }

  // ---- What stands where a token begins and ends ----

  predicate Delimited(js: seq<byte>, token: Token, pos: nat) {
    match token.kind
    case Array => Bracketed(js, token, pos, 0x5B, 0x5D)
    case Object => Bracketed(js, token, pos, 0x7B, 0x7D)
    case String =>
      && 0 < token.start <= token.end < pos <= |js|
      && js[token.start - 1] == 0x22 == js[token.end]
    case Primitive =>
      && 0 <= token.start < token.end <= pos <= |js|
      && (forall k :: token.start <= k < token.end ==> 0x20 < js[k] < 0x7F && !EndsBare(js[k]))
      && (token.end == |js| || js[token.end] == 0 || EndsBare(js[token.end]))
  }

  predicate Bracketed(js: seq<byte>, token: Token, pos: nat, a: byte, b: byte) {
    && 0 <= token.start < pos <= |js| && js[token.start] == a
    && (token.end == -1 || (token.start + 1 < token.end <= pos && js[token.end - 1] == b))
  }

  predicate AllDelimited(js: seq<byte>, tokens: seq<Token>, pos: nat) {
    forall i :: 0 <= i < |tokens| ==> Delimited(js, tokens[i], pos)
  }

  lemma {:induction false} PrimitiveSpan(js: seq<byte>, i: nat)
    requires i <= |js| && PrimitiveEnd(js, i).Found?
    ensures var end := PrimitiveEnd(js, i).end;
            && i <= end <= |js| && (end == |js| || js[end] == 0 || EndsBare(js[end]))
            && (forall k :: i <= k < end ==> 0x20 < js[k] < 0x7F && !EndsBare(js[k]))
    decreases |js| - i
  {
    if !(AtEnd(js, i) || EndsPrimitive(js[i])) {
      PrimitiveSpan(js, i + 1);
    }
  }

  lemma {:induction false} StringSpan(js: seq<byte>, i: nat)
    requires StringEnd(js, i).Found?
    ensures js[StringEnd(js, i).end] == 0x22
    decreases |js| - i
  {
    if js[i] != QUOTE {
      if js[i] == BACKSLASH && i + 1 < |js| {
        StringSpan(js, if IsEscape(js[i + 1]) then i + 2 else HexEnd(js, i + 2, 4).value);
      } else {
        StringSpan(js, i + 1);
      }
    }
  }

  lemma StillDelimited(js: seq<byte>, tokens: seq<Token>, pos: nat, more: nat)
    requires AllDelimited(js, tokens, pos) && pos <= more <= |js|
    ensures AllDelimited(js, tokens, more)
  {
    forall i | 0 <= i < |tokens| ensures Delimited(js, tokens[i], more) {
      assert Delimited(js, tokens[i], pos);
    }
  }

  lemma BumpDelimited(js: seq<byte>, tokens: seq<Token>, i: int, pos: nat)
    requires -1 <= i < |tokens| && AllDelimited(js, tokens, pos)
    ensures AllDelimited(js, Bump(tokens, i), pos)
  {
    if i != -1 {
      assert Delimited(js, tokens[i], pos);
    }
  }

  lemma LeafDelimited(js: seq<byte>, tokens: seq<Token>, token: Token, super: int, pos: nat)
    requires AllDelimited(js, tokens, pos) && Delimited(js, token, pos) && -1 <= super < |tokens|
    ensures AllDelimited(js, Bump(tokens + [token], super), pos)
  {
    hide Delimited, Bump;
    BumpDelimited(js, tokens + [token], super, pos);
  }

  lemma OpenDelimited(js: seq<byte>, tokens: seq<Token>, token: Token, super: int, pos: nat)
    requires AllDelimited(js, tokens, pos) && Delimited(js, token, pos) && -1 <= super < |tokens|
    ensures AllDelimited(js, Bump(tokens, super) + [token], pos)
  {
    hide Delimited, Bump;
    BumpDelimited(js, tokens, super, pos);
  }

  lemma CloseDelimited(js: seq<byte>, tokens: seq<Token>, i: nat, end: nat)
    requires i < |tokens| && AllDelimited(js, tokens, end) && tokens[i].start < end - 1
    requires 0 < end <= |js|
    requires (tokens[i].kind == Array && js[end - 1] == 0x5D) || (tokens[i].kind == Object && js[end - 1] == 0x7D)
    ensures AllDelimited(js, tokens[i := tokens[i].(end := end)], end)
  {
    assert Delimited(js, tokens[i], end);
  }

  lemma StepDelimited(js: seq<byte>, room: nat, s: State)
    requires Sound(s) && !AtEnd(js, s.pos) && Step(js, room, s).Next? && AllDelimited(js, s.tokens, s.pos)
    ensures var next := Step(js, room, s).state; AllDelimited(js, next.tokens, next.pos)
  {
    hide StringEnd, PrimitiveEnd, LastOpen, LastContainer, Bump, AllDelimited;
    var c, next := js[s.pos], Step(js, room, s).state;
    StillDelimited(js, s.tokens, s.pos, next.pos);
    if c == OPEN_OBJECT || c == OPEN_ARRAY {
      OpenDelimited(js, s.tokens, Token(if c == OPEN_OBJECT then Object else Array, s.pos, -1, 0), s.super, next.pos);
    } else if c == CLOSE_OBJECT || c == CLOSE_ARRAY {
      var i := LastOpen(s.tokens);
      StartsBefore(js, s.tokens, s.pos, i);
      CloseDelimited(js, s.tokens, i, next.pos);
    } else if c == QUOTE {
      StringSpan(js, s.pos + 1);
      LeafDelimited(js, s.tokens, Token(String, s.pos + 1, StringEnd(js, s.pos + 1).end, 0), s.super, next.pos);
    } else if !IsBlank(c) && c != COLON && c != COMMA {
      PrimitiveSpan(js, s.pos);
      StartedBare(js, s.pos);
      LeafDelimited(js, s.tokens, Token(Primitive, s.pos, PrimitiveEnd(js, s.pos).end, 0), s.super, next.pos);
    }
  }

  lemma StartsBefore(js: seq<byte>, tokens: seq<Token>, pos: nat, i: nat)
    requires i < |tokens| && AllDelimited(js, tokens, pos)
    ensures tokens[i].start < pos
  {
    assert Delimited(js, tokens[i], pos);
  }

  lemma StartedBare(js: seq<byte>, i: nat)
    requires PrimitiveEnd(js, i).Found? && !AtEnd(js, i) && !EndsPrimitive(js[i])
    ensures PrimitiveEnd(js, i).end > i
  {
  }

  lemma {:induction false} NoneOpen(tokens: seq<Token>, i: nat)
    requires LastOpen(tokens) == -1 && i < |tokens|
    ensures !Open(tokens[i])
    decreases |tokens|
  {
    if i < |tokens| - 1 {
      NoneOpen(tokens[..|tokens| - 1], i);
    }
  }

  lemma {:induction false} RunDelimited(js: seq<byte>, room: nat, s: State)
    requires Sound(s) && AllDelimited(js, s.tokens, s.pos)
    ensures var done := Run(js, room, s).1; AllDelimited(js, done.tokens, done.pos)
    decreases |js| - s.pos
  {
    hide Step, Run, AllDelimited, LastOpen;
    RunStep(js, room, s);
    if !AtEnd(js, s.pos) && Step(js, room, s).Next? {
      StepDelimited(js, room, s);
      RunDelimited(js, room, Step(js, room, s).state);
    }
  }

  /**
   For every input, whatever the call answers, each token in use lies where its kind says: an array or object starts
   with its opening bracket and, once closed, ends with the closing bracket of its kind, a string has a quote on either
   side, and an unquoted value is a longest run of printable characters that do not end one. After a success all are closed.
   */
  lemma TokensDelimited(js: seq<byte>, room: nat)
    ensures var (result, done) := Run(js, room, INITIAL);
            && AllDelimited(js, done.tokens, done.pos)
            && (result.Count? ==> forall i :: 0 <= i < |done.tokens| ==> done.tokens[i].end >= 0)
  {
    hide Run, Delimited;
    var (result, done) := Run(js, room, INITIAL);
    RunDelimited(js, room, INITIAL);
    if result.Count? {
      CountsTokens(js, room, INITIAL);
      forall i | 0 <= i < |done.tokens| ensures done.tokens[i].end >= 0 {
        NoneOpen(done.tokens, i);
        EndsKnown(js, done.tokens[i], done.pos);
      }
    }
  }

  lemma EndsKnown(js: seq<byte>, token: Token, pos: nat)
    requires Delimited(js, token, pos) && !Open(token)
    ensures token.end >= 0
  {
  }
}
