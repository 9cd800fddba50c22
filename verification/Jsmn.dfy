/**
 The tokenizer itself: a parser object that fills the caller's token array in place, proved against
 the functions of JsmnSpec.
 */
module Jsmn {
  import opened Common
  import opened JsmnSpec

  class Parser {
    var pos: nat
    var toknext: nat
    var toksuper: int

    constructor ()
      ensures pos == 0 && toknext == 0 && toksuper == -1
    {
      pos, toknext, toksuper := 0, 0, -1;
    }

    ghost predicate Valid(tokens: array?<Token>)
      reads this
    {
      if tokens == null then toknext == 0 && toksuper == -1
      else toknext <= tokens.Length && -1 <= toksuper < toknext
    }

    /** The tokens in use are the first ones of the array. */
    ghost function View(tokens: array?<Token>): (s: State)
      requires Valid(tokens)
      reads this, tokens
      ensures Sound(s)
    {
      State(pos, toksuper, if tokens == null then [] else tokens[..toknext])
    }

    /** Scans a string from the quote at `pos` and appends its token. */
    method ParseString(js: seq<byte>, tokens: array?<Token>, room: nat) returns (error: Option<Result>)
      requires Valid(tokens) && pos < |js| && (tokens != null ==> room <= tokens.Length)
      modifies this`pos, this`toknext, tokens
      ensures Valid(tokens)
      ensures match StringEnd(js, old(pos) + 1)
              case BadText => error == Some(Invalid) && View(tokens) == old(View(tokens))
              case Unfinished => error == Some(Partial) && View(tokens) == old(View(tokens))
              case Found(end) =>
                if tokens == null then error == None && View(tokens) == old(View(tokens)).(pos := end)
                else if old(toknext) >= room then error == Some(NoMemory) && View(tokens) == old(View(tokens))
                else error == None && View(tokens) == State(end, toksuper, old(View(tokens)).tokens + [Token(String, old(pos) + 1, end, 0)])
    {
      var start := pos;
      pos := pos + 1;
      while pos < |js| && js[pos] != 0
        invariant Valid(tokens) && toknext == old(toknext) && (tokens != null ==> tokens[..] == old(tokens[..]))
        invariant start < pos && StringEnd(js, pos) == StringEnd(js, start + 1)
        decreases |js| - pos
      {
        var c := js[pos];
        if c == QUOTE {
          if tokens == null {
            return None;
          }
          if toknext >= room {
            pos := start;
            return Some(NoMemory);
          }
          tokens[toknext] := Token(String, start + 1, pos, 0);
          toknext := toknext + 1;
          return None;
        }
        if c == BACKSLASH && pos + 1 < |js| {
          pos := pos + 1;
          if js[pos] == 117 {
            var digits := SkipDigits(js);
            if !digits {
              pos := start;
              return Some(Invalid);
            }
          } else if !IsEscape(js[pos]) {
            pos := start;
            return Some(Invalid);
          }
        }
        pos := pos + 1;
      }
      pos := start;
      return Some(Partial);
    }

    /** From the `u` of an escape to the last of its digits, as far as they are there. */
    method SkipDigits(js: seq<byte>) returns (digits: bool)
      requires pos < |js|
      modifies this`pos
      ensures digits == HexEnd(js, old(pos) + 1, 4).Some?
      ensures digits ==> pos + 1 == HexEnd(js, old(pos) + 1, 4).value
    {
      pos := pos + 1;
      var i := 0;
      while i < 4 && pos < |js| && js[pos] != 0
        invariant i <= 4 && old(pos) < pos <= |js|
        invariant HexEnd(js, pos, 4 - i) == HexEnd(js, old(pos) + 1, 4)
      {
        if !IsHex(js[pos]) {
          return false;
        }
        pos := pos + 1;
        i := i + 1;
      }
      pos := pos - 1;
      return true;
    }

    /** Scans an unquoted value from `pos`, appends its token and stops on its last character. */
    method ParsePrimitive(js: seq<byte>, tokens: array?<Token>, room: nat) returns (error: Option<Result>)
      requires Valid(tokens) && !AtEnd(js, pos) && !EndsPrimitive(js[pos]) && (tokens != null ==> room <= tokens.Length)
      modifies this`pos, this`toknext, tokens
      ensures Valid(tokens)
      ensures match PrimitiveEnd(js, old(pos))
              case BadText => error == Some(Invalid) && View(tokens) == old(View(tokens))
              case Unfinished => false
              case Found(end) =>
                && end > old(pos)
                && if tokens == null then error == None && View(tokens) == old(View(tokens)).(pos := end - 1)
                   else if old(toknext) >= room then error == Some(NoMemory) && View(tokens) == old(View(tokens))
                   else error == None && View(tokens) == State(end - 1, toksuper, old(View(tokens)).tokens + [Token(Primitive, old(pos), end, 0)])
    {
      var start := pos;
      while pos < |js| && js[pos] != 0 && !EndsPrimitive(js[pos])
        invariant start <= pos && PrimitiveEnd(js, pos) == PrimitiveEnd(js, start)
        invariant pos == start ==> !AtEnd(js, pos) && !EndsPrimitive(js[pos])
        invariant Valid(tokens) && toknext == old(toknext) && (tokens != null ==> tokens[..] == old(tokens[..]))
        decreases |js| - pos
      {
        if js[pos] < 32 || js[pos] >= 127 {
          pos := start;
          return Some(Invalid);
        }
        pos := pos + 1;
      }
      if tokens == null {
        pos := pos - 1;
        return None;
      }
      if toknext >= room {
        pos := start;
        return Some(NoMemory);
      }
      tokens[toknext] := Token(Primitive, start, pos, 0);
      toknext := toknext + 1;
      pos := pos - 1;
      return None;
    }

    /** One more token belongs to the collecting one. */
    method CountChild(tokens: array<Token>)
      requires Valid(tokens)
      modifies tokens
      ensures Valid(tokens) && View(tokens) == old(View(tokens)).(tokens := Bump(old(View(tokens)).tokens, toksuper))
    {
      if toksuper != -1 {
        tokens[toksuper] := tokens[toksuper].(size := tokens[toksuper].size + 1);
      }
    }

    method OpenContainer(tokens: array<Token>, room: nat, kind: Kind) returns (error: Option<Result>)
      requires Valid(tokens) && room <= tokens.Length
      modifies this`toknext, this`toksuper, tokens
      ensures Valid(tokens)
      ensures if old(toknext) >= room then error == Some(NoMemory) && View(tokens) == old(View(tokens))
              else error == None && View(tokens) == State(pos, old(toknext), Bump(old(View(tokens)).tokens, old(toksuper)) + [Token(kind, pos, -1, 0)])
    {
      if toknext >= room {
        return Some(NoMemory);
      }
      CountChild(tokens);
      ghost var before := View(tokens).tokens;
      tokens[toknext] := Token(kind, pos, -1, 0);
      toknext := toknext + 1;
      toksuper := toknext - 1;
      assert tokens[..toknext] == before + [Token(kind, pos, -1, 0)];
      return None;
    }

    lemma OpenBelow(tokens: array<Token>, n: nat)
      requires n <= tokens.Length
      ensures LastOpen(tokens[..n]) == if n == 0 then -1 else if Open(tokens[n - 1]) then n - 1 else LastOpen(tokens[..n - 1])
      ensures LastContainer(tokens[..n])
           == if n == 0 then -1
              else if (tokens[n - 1].kind == Array || tokens[n - 1].kind == Object) && Open(tokens[n - 1]) then n - 1
              else LastContainer(tokens[..n - 1])
    {
      if n > 0 {
        assert tokens[..n][..n - 1] == tokens[..n - 1];
      }
    }

    lemma ClosedFrom(tokens: array<Token>, i: nat, n: nat)
      requires i <= n <= tokens.Length && forall j :: i <= j < n ==> !Open(tokens[j])
      ensures LastOpen(tokens[..n]) == LastOpen(tokens[..i])
    {
      if i < n {
        OpenBelow(tokens, n);
        ClosedFrom(tokens, i, n - 1);
      }
    }

    /** The last open token among the first `n`, searched for from the back; -1 if there is none. */
    method FindOpen(tokens: array<Token>, n: nat) returns (i: int)
      requires n <= tokens.Length
      ensures i == LastOpen(tokens[..n])
      ensures forall j :: i < j < n ==> !Open(tokens[j])
    {
      hide LastOpen, LastContainer;
      OpenBelow(tokens, 0);
      i := n - 1;
      while i >= 0
        invariant -1 <= i < n && LastOpen(tokens[..i + 1]) == LastOpen(tokens[..n])
        invariant forall j :: i < j < n ==> !Open(tokens[j])
      {
        OpenBelow(tokens, i + 1);
        if tokens[i].start != -1 && tokens[i].end == -1 {
          return;
        }
        i := i - 1;
      }
    }

    method CloseContainer(tokens: array<Token>, kind: Kind) returns (error: Option<Result>)
      requires Valid(tokens)
      modifies this`toksuper, tokens
      ensures Valid(tokens)
      ensures match Close(old(View(tokens)), kind)
              case Stop(result) => error == Some(result) && View(tokens) == old(View(tokens))
              case Next(s) => error == None && View(tokens).(pos := pos + 1) == s
    {
      hide LastOpen, LastContainer;
      var i := FindOpen(tokens, toknext);
      if i == -1 {
        return Some(Invalid);
      }
      if tokens[i].kind != kind {
        return Some(Invalid);
      }
      ghost var before := tokens[..toknext];
      tokens[i] := tokens[i].(end := pos + 1);
      assert tokens[..toknext] == before[i := before[i].(end := pos + 1)];
      OpenBelow(tokens, i + 1);
      ClosedFrom(tokens, i, toknext);
      toksuper := FindOpen(tokens, i + 1);
      return None;
    }

    /** A comma leads from a key back to the open container. */
    method LeaveKey(tokens: array<Token>)
      requires Valid(tokens)
      modifies this`toksuper
      ensures Valid(tokens)
      ensures toksuper == var old_ := old(toksuper);
                          if old_ != -1 && tokens[old_].kind != Array && tokens[old_].kind != Object && LastContainer(tokens[..toknext]) != -1
                          then LastContainer(tokens[..toknext]) else old_
    {
      if toksuper != -1 && tokens[toksuper].kind != Array && tokens[toksuper].kind != Object {
        hide LastOpen, LastContainer;
        OpenBelow(tokens, 0);
        var i := toknext - 1;
        while i >= 0
          invariant -1 <= i < toknext && LastContainer(tokens[..i + 1]) == LastContainer(tokens[..toknext])
          invariant toksuper == old(toksuper)
        {
          OpenBelow(tokens, i + 1);
          if tokens[i].kind == Array || tokens[i].kind == Object {
            if tokens[i].start != -1 && tokens[i].end == -1 {
              toksuper := i;
              return;
            }
          }
          i := i - 1;
        }
      }
    }

    /** One round of the main loop, up to the increment of the position. */
    method Advance(js: seq<byte>, tokens: array<Token>, room: nat, counted: nat) returns (error: Option<Result>, count: nat)
      requires Valid(tokens) && room <= tokens.Length && !AtEnd(js, pos)
      modifies this, tokens
      ensures Valid(tokens)
      ensures match Step(js, room, old(View(tokens)))
              case Stop(result) => error == Some(result) && View(tokens) == old(View(tokens))
              case Next(s) =>
                error == None && View(tokens).(pos := pos + 1) == s && count == counted + Counted(js[old(pos)])
    {
      count := counted;
      hide LastOpen, LastContainer, Bump, StringEnd, PrimitiveEnd;
      var c := js[pos];
      ghost var s := View(tokens);
      if c == OPEN_OBJECT || c == OPEN_ARRAY {
        count := count + 1;
        error := OpenContainer(tokens, room, if c == OPEN_OBJECT then Object else Array);
      } else if c == CLOSE_OBJECT || c == CLOSE_ARRAY {
        error := CloseContainer(tokens, if c == CLOSE_OBJECT then Object else Array);
      } else if c == QUOTE {
        error := ParseString(js, tokens, room);
        if error.None? {
          count := count + 1;
          CountChild(tokens);
        }
      } else if IsBlank(c) {
        error := None;
      } else if c == COLON {
        toksuper := toknext - 1;
        error := None;
      } else if c == COMMA {
        LeaveKey(tokens);
        error := None;
      } else {
        error := ParsePrimitive(js, tokens, room);
        if error.None? {
          count := count + 1;
          CountChild(tokens);
        }
      }
    }

    /** A call with a token array, of which the first `room` entries may be used. It keeps a count beside the tokens. */
    method Parse(js: seq<byte>, tokens: array<Token>, room: nat) returns (result: Result)
      requires Valid(tokens) && room <= tokens.Length
      modifies this, tokens
      ensures Valid(tokens) && (result, View(tokens)) == Run(js, room, old(View(tokens)))
    {
      hide Step, LastOpen;
      var count := toknext;
      while pos < |js| && js[pos] != 0
        invariant Valid(tokens) && Loop(js, room, View(tokens), count) == Run(js, room, old(View(tokens)))
        invariant count == toknext
        decreases |js| - pos
      {
        ghost var s := View(tokens);
        var error;
        error, count := Advance(js, tokens, room, count);
        if error.Some? {
          return error.value;
        }
        pos := pos + 1;
        assert View(tokens) == Step(js, room, s).state;
        StepCounts(js, room, s);
      }
      var open := FindOpen(tokens, toknext);
      if open != -1 {
        return Partial;
      }
      return Count(count);
    }

    /** A call without a token array. */
    method CountTokens(js: seq<byte>) returns (result: Result)
      requires Valid(null)
      modifies this
      ensures Valid(null) && result == Tally(js, old(pos), 0)
    {
      hide StringEnd, PrimitiveEnd;
      var count := toknext;
      while pos < |js| && js[pos] != 0
        invariant Valid(null) && Tally(js, pos, count) == Tally(js, old(pos), 0)
        decreases |js| - pos
      {
        var c := js[pos];
        if c == OPEN_OBJECT || c == OPEN_ARRAY {
          count := count + 1;
        } else if c == CLOSE_OBJECT || c == CLOSE_ARRAY || IsBlank(c) || c == COMMA {
        } else if c == COLON {
          toksuper := toknext - 1;
        } else if c == QUOTE {
          var error := ParseString(js, null, 0);
          if error.Some? {
            return error.value;
          }
          count := count + 1;
        } else {
          var error := ParsePrimitive(js, null, 0);
          if error.Some? {
            return error.value;
          }
          count := count + 1;
        }
        pos := pos + 1;
      }
      return Count(count);
    }
  }
}
