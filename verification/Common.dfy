/** Small types shared by the models. */
module Common {
  datatype Option<+T> = None | Some(value: T) {
    function GetOr(default: T): T {
      if Some? then value else default
    }
  }

  newtype byte = n: int | 0 <= n < 256

  /** A byte buffer read as a C string ends at its first zero byte. */
  function Cut(s: seq<byte>): (r: seq<byte>)
    ensures |r| <= |s| && r == s[..|r|]
    ensures 0 !in r
    ensures 0 !in s ==> r == s
  {
    if s == [] || s[0] == 0 then [] else
      var rest := Cut(s[1..]);
      assert s == [s[0]] + s[1..];
      [s[0]] + rest
  }

  predicate IsDigit(b: byte) {
    48 <= b <= 57
  }

  predicate Digits(s: seq<byte>) {
    forall i :: 0 <= i < |s| ==> IsDigit(s[i])
  }

  function Decimal(n: nat): (r: seq<byte>)
    ensures r != [] && Digits(r)
  {
    if n < 10 then [(48 + n) as byte] else Decimal(n / 10) + [(48 + n % 10) as byte]
  }

  /** Positions around index `i` of a sequence, for loops that walk or edit a list. */
  lemma Around<T>(s: seq<T>, i: nat)
    requires i < |s|
    ensures s[i..][0] == s[i] && s[i..][1..] == s[i + 1..]
    ensures s[..i + 1] == s[..i] + [s[i]]
    ensures (s[..i] + s[i + 1..])[..i] == s[..i] && (s[..i] + s[i + 1..])[i..] == s[i + 1..]
  {
  }

  /** `r` is `s` without its element at `i`. */
  ghost predicate CutAt<T>(r: seq<T>, s: seq<T>, i: nat) {
    i < |s| && r == s[..i] + s[i + 1..]
  }

  lemma CutHead<T>(s: seq<T>)
    requires s != []
    ensures CutAt(s[1..], s, 0)
  {
  }

  lemma CutFromRest<T>(r: seq<T>, s: seq<T>, i: nat)
    requires s != [] && CutAt(r, s[1..], i)
    ensures CutAt([s[0]] + r, s, i + 1)
  {
    assert s[1..][..i] == s[1..i + 1] && s[1..][i + 1..] == s[i + 2..];
    assert s[..i + 1] == [s[0]] + s[1..i + 1];
  }

  /** The text stands at position `at`. */
  predicate On(s: seq<byte>, at: nat, text: seq<byte>) {
    at + |text| <= |s| && s[at..at + |text|] == text
  }

  lemma OnParts(s: seq<byte>, at: nat, a: seq<byte>, b: seq<byte>)
    requires On(s, at, a + b)
    ensures On(s, at, a) && On(s, at + |a|, b)
  {
    var all := s[at..at + |a + b|];
    assert s[at..at + |a|] == all[..|a|] == a;
    assert s[at + |a|..at + |a| + |b|] == all[|a|..] == b;
  }

  lemma OnFirst(s: seq<byte>, at: nat, b: byte, rest: seq<byte>)
    requires On(s, at, [b] + rest)
    ensures at < |s| && s[at] == b && On(s, at + 1, rest)
  {
    OnParts(s, at, [b], rest);
    assert s[at] == s[at..at + 1][0];
  }

  lemma Associative<T>(a: seq<T>, b: seq<T>, c: seq<T>)
    ensures a + (b + c) == (a + b) + c
  {
  }
}
