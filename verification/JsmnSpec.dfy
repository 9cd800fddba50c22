/**
 The jsmn tokenizer as a function: one step per character of the main loop, over a token list and
 the index of the token that collects the next one. Positions fit the C integer types.
 */
module JsmnSpec {
  import opened Common

  datatype Kind = Object | Array | String | Primitive

  /** `end` is -1 while an object or array is still open. */
  datatype Token = Token(kind: Kind, start: int, end: int, size: nat)

  /** The parser's position, the token the next one belongs to (-1 for none), and the tokens in use. */
  datatype State = State(pos: nat, super: int, tokens: seq<Token>)

  datatype Result = Count(n: nat) | NoMemory | Invalid | Partial

  const INITIAL := State(0, -1, [])

  const QUOTE: byte := 34
  const COMMA: byte := 44
  const SLASH: byte := 47
  const COLON: byte := 58
  const BACKSLASH: byte := 92
  const OPEN_ARRAY: byte := 91
  const CLOSE_ARRAY: byte := 93
  const OPEN_OBJECT: byte := 123
  const CLOSE_OBJECT: byte := 125

  predicate IsBlank(b: byte) {
    b == 9 || b == 10 || b == 13 || b == 32
  }

  predicate IsHex(b: byte) {
    48 <= b <= 57 || 65 <= b <= 70 || 97 <= b <= 102
  }

  /** What may follow a backslash, apart from `u`. */
  predicate IsEscape(b: byte) {
    b == QUOTE || b == SLASH || b == BACKSLASH || b == 98 || b == 102 || b == 114 || b == 110 || b == 116
  }

  /** What ends an unquoted value. */
  predicate EndsPrimitive(b: byte) {
    b == COLON || IsBlank(b) || b == COMMA || b == CLOSE_ARRAY || b == CLOSE_OBJECT
  }

  /** The text ends at its length or at a zero byte. */
  predicate AtEnd(js: seq<byte>, i: nat) {
    i >= |js| || js[i] == 0
  }

  // ---- Scanning one token ----

  datatype Scan = Found(end: nat) | BadText | Unfinished

  /** Up to `n` hexadecimal digits from `i`: where they end, none if another character is among them. */
  function HexEnd(js: seq<byte>, i: nat, n: nat): (r: Option<nat>)
    ensures r.Some? ==> i <= r.value
    ensures r.Some? && i <= |js| ==> r.value <= |js|
    decreases n
  {
    if n == 0 || AtEnd(js, i) then Some(i)
    else if IsHex(js[i]) then HexEnd(js, i + 1, n - 1)
    else None
  }

  /** The closing quote of a string, scanning from `i`. */
  function StringEnd(js: seq<byte>, i: nat): (r: Scan)
    ensures r.Found? ==> i <= r.end < |js|
    decreases |js| - i
  {
    if AtEnd(js, i) then Unfinished
    else if js[i] == QUOTE then Found(i)
    else if js[i] == BACKSLASH && i + 1 < |js| then
      if IsEscape(js[i + 1]) then StringEnd(js, i + 2)
      else if js[i + 1] == 117 then
        match HexEnd(js, i + 2, 4)
        case Some(j) => StringEnd(js, j)
        case None => BadText
      else BadText
    else StringEnd(js, i + 1)
  }

  /** The end of an unquoted value, scanning from `i`. */
  function PrimitiveEnd(js: seq<byte>, i: nat): (r: Scan)
    ensures r.Found? ==> i <= r.end && (i <= |js| ==> r.end <= |js|)
    decreases |js| - i
  {
    if AtEnd(js, i) || EndsPrimitive(js[i]) then Found(i)
    else if js[i] < 32 || js[i] >= 127 then BadText
    else PrimitiveEnd(js, i + 1)
  }

  // ---- The token list ----

  predicate Open(token: Token) {
    token.start != -1 && token.end == -1
  }

  /** The last open token, -1 if there is none. */
  function LastOpen(tokens: seq<Token>): (r: int)
    ensures -1 <= r < |tokens|
    ensures r >= 0 ==> Open(tokens[r])
    decreases |tokens|
  {
    if tokens == [] then -1
    else if Open(tokens[|tokens| - 1]) then |tokens| - 1
    else LastOpen(tokens[..|tokens| - 1])
  }

  /** The last open object or array. */
  function LastContainer(tokens: seq<Token>): (r: int)
    ensures -1 <= r < |tokens|
    decreases |tokens|
  {
    if tokens == [] then -1
    else
      var last := tokens[|tokens| - 1];
      if (last.kind == Array || last.kind == Object) && Open(last) then |tokens| - 1
      else LastContainer(tokens[..|tokens| - 1])
  }

  /** One more token belongs to token `i`. */
  function Bump(tokens: seq<Token>, i: int): (r: seq<Token>)
    requires -1 <= i < |tokens|
    ensures |r| == |tokens|
  {
    if i == -1 then tokens else tokens[i := tokens[i].(size := tokens[i].size + 1)]
  }

  predicate Sound(s: State) {
    -1 <= s.super < |s.tokens|
  }

  // ---- One character of the main loop ----

  datatype Move = Next(state: State) | Stop(result: Result)

  /** A string or an unquoted value from `start` to `end`, the loop going on at `next`. */
  function Leaf(s: State, room: nat, kind: Kind, start: nat, end: nat, next: nat): Move
    requires Sound(s)
  {
    if |s.tokens| >= room then Stop(NoMemory)
    else Next(State(next, s.super, Bump(s.tokens + [Token(kind, start, end, 0)], s.super)))
  }

  function Close(s: State, kind: Kind): Move
    requires Sound(s)
  {
    var i := LastOpen(s.tokens);
    if i == -1 || s.tokens[i].kind != kind then Stop(Invalid)
    else
      var tokens := s.tokens[i := s.tokens[i].(end := s.pos + 1)];
      Next(State(s.pos + 1, LastOpen(tokens), tokens))
  }

  /** One round of the main loop, with room for `room` tokens. */
  function Step(js: seq<byte>, room: nat, s: State): (r: Move)
    requires Sound(s) && !AtEnd(js, s.pos)
    ensures r.Next? ==> Sound(r.state) && s.pos < r.state.pos <= |js|
  {
    var c := js[s.pos];
    if c == OPEN_OBJECT || c == OPEN_ARRAY then
      if |s.tokens| >= room then Stop(NoMemory)
      else
        var kind := if c == OPEN_OBJECT then Object else Array;
        Next(State(s.pos + 1, |s.tokens|, Bump(s.tokens, s.super) + [Token(kind, s.pos, -1, 0)]))
    else if c == CLOSE_OBJECT || c == CLOSE_ARRAY then Close(s, if c == CLOSE_OBJECT then Object else Array)
    else if c == QUOTE then
      match StringEnd(js, s.pos + 1)
      case Found(end) => Leaf(s, room, String, s.pos + 1, end, end + 1)
      case BadText => Stop(Invalid)
      case Unfinished => Stop(Partial)
    else if IsBlank(c) then Next(s.(pos := s.pos + 1))
    else if c == COLON then Next(State(s.pos + 1, |s.tokens| - 1, s.tokens))
    else if c == COMMA then
      if s.super != -1 && s.tokens[s.super].kind != Array && s.tokens[s.super].kind != Object && LastContainer(s.tokens) != -1 then
        Next(State(s.pos + 1, LastContainer(s.tokens), s.tokens))
      else Next(s.(pos := s.pos + 1))
    else
      match PrimitiveEnd(js, s.pos)
      case Found(end) => Leaf(s, room, Primitive, s.pos, end, end)
      case _ => Stop(Invalid)
  }

  /** What a round that meets character `c` adds to the count: containers, strings and unquoted values count. */
  function Counted(c: byte): nat {
    if c == CLOSE_OBJECT || c == CLOSE_ARRAY || IsBlank(c) || c == COLON || c == COMMA then 0 else 1
  }

  /** The main loop, with `count` counted so far: the result of the call and the state it leaves. */
  function Loop(js: seq<byte>, room: nat, s: State, count: nat): (Result, State)
    requires Sound(s)
    decreases |js| - s.pos
  {
    if AtEnd(js, s.pos) then (if LastOpen(s.tokens) != -1 then Partial else Count(count), s)
    else
      match Step(js, room, s)
      case Stop(result) => (result, s)
      case Next(next) => Loop(js, room, next, count + Counted(js[s.pos]))
  }

  /** A call of the tokenizer in state `s`; it starts to count at the tokens in use. */
  function Run(js: seq<byte>, room: nat, s: State): (Result, State)
    requires Sound(s)
  {
    Loop(js, room, s, |s.tokens|)
  }

  /** The count keeps step with the tokens in use. */
  lemma StepCounts(js: seq<byte>, room: nat, s: State)
    requires Sound(s) && !AtEnd(js, s.pos) && Step(js, room, s).Next?
    ensures |Step(js, room, s).state.tokens| == |s.tokens| + Counted(js[s.pos])
  {
    hide LastOpen, LastContainer, StringEnd, PrimitiveEnd, Bump;
  }

  /** A call takes one round and goes on like a call from there. */
  lemma RunStep(js: seq<byte>, room: nat, s: State)
    requires Sound(s)
    ensures Run(js, room, s) ==
      if AtEnd(js, s.pos) then (if LastOpen(s.tokens) != -1 then Partial else Count(|s.tokens|), s)
      else
        match Step(js, room, s)
        case Stop(result) => (result, s)
        case Next(next) => Run(js, room, next)
  {
    hide LastOpen, Step;
    if !AtEnd(js, s.pos) && Step(js, room, s).Next? {
      StepCounts(js, room, s);
    }
  }

  // ---- Without a token array ----

  /** A call without a token array only counts. */
  function Tally(js: seq<byte>, pos: nat, count: nat): Result
    decreases |js| - pos
  {
    if AtEnd(js, pos) then Count(count)
    else
      var c := js[pos];
      if c == OPEN_OBJECT || c == OPEN_ARRAY then Tally(js, pos + 1, count + 1)
      else if c == CLOSE_OBJECT || c == CLOSE_ARRAY || IsBlank(c) || c == COLON || c == COMMA then Tally(js, pos + 1, count)
      else if c == QUOTE then
        match StringEnd(js, pos + 1)
        case Found(end) => Tally(js, end + 1, count + 1)
        case BadText => Invalid
        case Unfinished => Partial
      else
        match PrimitiveEnd(js, pos)
        case Found(end) => Tally(js, end, count + 1)
        case _ => Invalid
  }

  // ---- Restarting and counting ----

  lemma RestartStep(js: seq<byte>, room: nat, more: nat, s: State)
    requires Sound(s) && room <= more && !AtEnd(js, s.pos)
    ensures Step(js, room, s) == Stop(NoMemory) || Step(js, more, s) == Step(js, room, s)
  {
    hide LastOpen, LastContainer, Bump, StringEnd, PrimitiveEnd;
  }

  /**
   Running out of tokens loses nothing: calling again with a larger array does what one call with
   the larger array does. A call that does not run out does the same with any larger array.
   */
  lemma {:induction false} RestartAgrees(js: seq<byte>, room: nat, more: nat, s: State)
    requires Sound(s) && room <= more
    ensures Sound(Run(js, room, s).1)
    ensures if Run(js, room, s).0 == NoMemory then Run(js, more, Run(js, room, s).1) == Run(js, more, s)
            else Run(js, more, s) == Run(js, room, s)
    decreases |js| - s.pos
  {
    hide Step, Run;
    RunStep(js, room, s);
    RunStep(js, more, s);
    if !AtEnd(js, s.pos) {
      RestartStep(js, room, more, s);
      if Step(js, room, s).Next? {
        RestartAgrees(js, room, more, Step(js, room, s).state);
      }
    }
  }

  /** Whenever a call with tokens succeeds, the counting call returns the same number. */
  lemma {:induction false} TallyAgrees(js: seq<byte>, room: nat, s: State)
    requires Sound(s) && Run(js, room, s).0.Count?
    ensures Tally(js, s.pos, |s.tokens|) == Run(js, room, s).0
    decreases |js| - s.pos
  {
    hide LastOpen, LastContainer, Bump, StringEnd, PrimitiveEnd, Run;
    RunStep(js, room, s);
    if !AtEnd(js, s.pos) {
      TallyAgrees(js, room, Step(js, room, s).state);
    }
  }

  /** A successful call returns the number of tokens, all of them closed. */
  lemma {:induction false} CountsTokens(js: seq<byte>, room: nat, s: State)
    requires Sound(s) && Run(js, room, s).0.Count? && |s.tokens| <= room
    ensures var (result, done) := Run(js, room, s);
            result.n == |done.tokens| <= room && LastOpen(done.tokens) == -1 && s.pos <= done.pos && AtEnd(js, done.pos)
    decreases |js| - s.pos
  {
    hide LastOpen, LastContainer, StringEnd, PrimitiveEnd, Run;
    RunStep(js, room, s);
    if !AtEnd(js, s.pos) {
      CountsTokens(js, room, Step(js, room, s).state);
    }
  }
}
