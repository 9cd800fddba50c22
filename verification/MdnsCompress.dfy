/**
 Writing domain names: the suffix search behind name compression, and the round trip through the
 reader.
 */
module MdnsCompress {
  import opened Common
  import opened MdnsName

  /** Strings the writer is called with: C strings that fit the name buffers. */
  predicate Text(part: Label) {
    |part| < NAME_BUF && 0 !in part
  }

  predicate Texts(strings: seq<Label>) {
    forall i :: 0 <= i < |strings| ==> Text(strings[i])
  }

  // ---- The suffix search ----

  predicate Matches(name: Name, strings: seq<Label>)
    requires |name.fields| == 4
  {
    name.parts == |strings| <= 4 && forall i :: 0 <= i < |strings| ==> Same(strings[i], name.fields[i])
  }

  /**
   Position `p` holds the first string, preceded by its length, and reads back as the whole name.
   A comparison that would run past the buffer can be left to fail: so does reading the name there.
   */
  predicate Hit(packet: seq<byte>, past: byte, p: nat, strings: seq<Label>)
    requires strings != [] && Texts(strings)
  {
    var len := |strings[0]|;
    && p + 1 + len <= |packet| && packet[p] as int == len && packet[p + 1..p + 1 + len] == strings[0]
    && Read(packet, past, p, p, EMPTY).0.Some?
    && Matches(Read(packet, past, p, p, EMPTY).1, strings)
  }

  /** The first hit from `from` on and before `index`. */
  function Search(packet: seq<byte>, past: byte, from: nat, index: nat, strings: seq<Label>): (r: Option<nat>)
    requires strings != [] && Texts(strings) && from <= index <= |packet|
    ensures r.Some? ==> from <= r.value < index && Hit(packet, past, r.value, strings)
    ensures forall q :: from <= q < (if r.Some? then r.value else index) ==> !Hit(packet, past, q, strings)
    decreases index - from
  {
    if from == index then None
    else if Hit(packet, past, from, strings) then Some(from)
    else Search(packet, past, from + 1, index, strings)
  }

  lemma SearchStep(packet: seq<byte>, past: byte, from: nat, index: nat, strings: seq<Label>)
    requires strings != [] && Texts(strings) && from <= index <= |packet|
    ensures Search(packet, past, from, index, strings)
         == if from == index then None
            else if Hit(packet, past, from, strings) then Some(from)
            else Search(packet, past, from + 1, index, strings)
  {
    hide Hit;
  }

  // ---- The writer ----

  /** A packet buffer and the position up to which it has been written. */
  datatype Out = Out(packet: seq<byte>, index: nat)

  predicate Sound(out: Out) {
    out.index <= |out.packet| == MAX_PACKET
  }

  /** `bytes` stored at the write position, which moves behind them. */
  function Put(out: Out, bytes: seq<byte>): (r: Out)
    requires Sound(out) && out.index + |bytes| <= MAX_PACKET
    ensures Sound(r) && r.index == out.index + |bytes|
  {
    Out(out.packet[..out.index] + bytes + out.packet[out.index + |bytes|..], out.index + |bytes|)
  }

  lemma PutTwice(out: Out, a: seq<byte>, b: seq<byte>)
    requires Sound(out) && out.index + |a| + |b| <= MAX_PACKET
    ensures Put(Put(out, a), b) == Put(out, a + b)
  {
    var first := Put(out, a);
    assert first.packet[..first.index] == out.packet[..out.index] + a;
    assert first.packet[first.index + |b|..] == out.packet[first.index + |b|..];
    Associative(out.packet[..out.index], a, b);
  }

  /** More may have been written behind `out`, but nothing before its write position has changed. */
  predicate Extends(out: Out, done: Out) {
    Sound(out) && Sound(done) && out.index <= done.index && done.packet[..out.index] == out.packet[..out.index]
  }

  lemma ExtendsItself(out: Out)
    requires Sound(out)
    ensures Extends(out, out)
  {
  }

  lemma ExtendsThrough(a: Out, b: Out, c: Out)
    requires Extends(a, b) && Extends(b, c)
    ensures Extends(a, c)
  {
    assert c.packet[..a.index] == c.packet[..b.index][..a.index];
  }

  function AppendU8(out: Out, value: byte): (r: (Out, nat))
    requires Sound(out)
    ensures Sound(r.0)
  {
    if out.index >= MAX_PACKET then (out, 0) else (Put(out, [value]), 1)
  }

  function U16(value: nat): (r: seq<byte>)
    requires value < 0x10000
    ensures |r| == 2
  {
    [(value / 256) as byte, (value % 256) as byte]
  }

  function AppendU16(out: Out, value: nat): (r: (Out, nat))
    requires Sound(out) && value < 0x10000
    ensures Sound(r.0)
  {
    if out.index + 1 >= MAX_PACKET then (out, 0) else (Put(out, U16(value)), 2)
  }

  /** A string with its length in front; one byte is always left free behind it. */
  function AppendString(out: Out, text: seq<byte>): (r: (Out, nat))
    requires Sound(out) && |text| < 256
    ensures Sound(r.0)
  {
    if out.index + |text| + 1 >= MAX_PACKET then (out, 0)
    else (Put(out, [|text| as byte] + text), |text| + 1)
  }

  /** The reference to offset `p`. */
  function Pointer(p: nat): nat
    requires p < 0x4000
  {
    0xC000 + p
  }

  /** A name appended with compression, and the number of bytes reported. */
  function AppendName(out: Out, past: byte, strings: seq<Label>): (r: (Out, nat))
    requires Sound(out) && Texts(strings)
    ensures Sound(r.0)
    decreases |strings|
  {
    if strings == [] then AppendU8(out, 0)
    else
      match Search(out.packet, past, 0, out.index, strings)
      case Some(p) => AppendU16(out, Pointer(p))
      case None =>
        var (next, written) := AppendString(out, strings[0]);
        if written == 0 then (next, 0)
        else
          var (done, rest) := AppendName(next, past, strings[1..]);
          (done, written + rest)
  }

  /** The writer never reports more than it wrote, and leaves what was written before alone. */
  lemma {:induction false} AppendKeeps(out: Out, past: byte, strings: seq<Label>)
    requires Sound(out) && Texts(strings)
    ensures var (done, written) := AppendName(out, past, strings);
            done.index == out.index + written && Extends(out, done)
    decreases |strings|
  {
    hide Hit;
    if strings != [] && Search(out.packet, past, 0, out.index, strings).None? {
      var (next, written) := AppendString(out, strings[0]);
      if written != 0 {
        AppendKeeps(next, past, strings[1..]);
        ExtendsThrough(out, next, AppendName(next, past, strings[1..]).0);
      }
    }
  }

  // ---- Reading back what was written ----

  /** A complete name lies wholly before `origin` at `p`. */
  predicate Complete(packet: seq<byte>, origin: nat, p: nat)
    requires origin <= |packet|
  {
    p < origin && Decode(packet[..origin], p, p).Some?
  }

  /** The name fits, and the hit it is cut short with, if any, is a complete name before `origin`. */
  predicate Placed(out: Out, past: byte, strings: seq<Label>, origin: nat)
    requires Sound(out) && Texts(strings) && origin <= out.index
    decreases |strings|
  {
    if strings == [] then out.index < MAX_PACKET
    else
      match Search(out.packet, past, 0, out.index, strings)
      case Some(p) => out.index + 1 < MAX_PACKET && Complete(out.packet, origin, p)
      case None =>
        && out.index + |strings[0]| + 1 < MAX_PACKET
        && Placed(AppendString(out, strings[0]).0, past, strings[1..], origin)
  }

  /** How many of the strings are written out before a pointer or the end. */
  function Written(out: Out, past: byte, strings: seq<Label>): (k: nat)
    requires Sound(out) && Texts(strings)
    ensures k <= |strings|
    decreases |strings|
  {
    if strings == [] || Search(out.packet, past, 0, out.index, strings).Some? then 0
    else 1 + Written(AppendString(out, strings[0]).0, past, strings[1..])
  }

  /** The labels of the name found by the search, empty if there is none. */
  function Found(out: Out, past: byte, strings: seq<Label>, origin: nat): (r: seq<Label>)
    requires Sound(out) && Texts(strings) && origin <= out.index && Placed(out, past, strings, origin)
    ensures Short(r)
    decreases |strings|
  {
    if strings == [] then []
    else
      match Search(out.packet, past, 0, out.index, strings)
      case Some(p) => Decode(out.packet[..origin], p, p).value.0
      case None => Found(AppendString(out, strings[0]).0, past, strings[1..], origin)
  }

  lemma PointerDecodes(bytes: seq<byte>, early: seq<byte>, origin: nat, at: nat, p: nat)
    requires early <= bytes && p < origin <= at && at + 2 <= |bytes| && p < 0x4000
    requires bytes[at..at + 2] == U16(Pointer(p)) && Decode(early, p, p).Some?
    ensures Decode(bytes, origin, at) == Some((Decode(early, p, p).value.0, at + 2))
  {
    assert bytes[at] == bytes[at..at + 2][0] && bytes[at + 1] == bytes[at..at + 2][1];
    DecodeStable(early, bytes, p, p);
  }

  lemma TerminatorDecodes(bytes: seq<byte>, origin: nat, at: nat)
    requires origin <= at < |bytes| && bytes[at..at + 1] == [0]
    ensures Decode(bytes, origin, at) == Some(([], at + 1))
  {
    assert bytes[at] == bytes[at..at + 1][0];
  }

  lemma LabelDecodes(bytes: seq<byte>, origin: nat, at: nat, part: Label)
    requires origin <= at && 1 <= |part| <= 63 && at + 1 + |part| <= |bytes|
    requires bytes[at..at + 1 + |part|] == [|part| as byte] + part
    requires Decode(bytes, origin, at + 1 + |part|).Some?
    ensures var (rest, end) := Decode(bytes, origin, at + 1 + |part|).value;
            Decode(bytes, origin, at) == Some(([part] + rest, end))
  {
    assert bytes[at] == bytes[at..at + 1 + |part|][0];
    assert bytes[at + 1..at + 1 + |part|] == bytes[at..at + 1 + |part|][1..] == part;
  }

  /** The bytes hold everything before `origin` and what was written between `out` and `done`. */
  predicate Shows(bytes: seq<byte>, out: Out, done: Out, origin: nat)
    requires Sound(out) && Sound(done)
  {
    && origin <= out.index <= done.index <= |bytes|
    && bytes[..origin] == out.packet[..origin] && bytes[out.index..done.index] == done.packet[out.index..done.index]
  }

  lemma ShowsItself(out: Out, done: Out)
    requires Extends(out, done)
    ensures Shows(done.packet[..done.index], out, done, out.index)
  {
    var bytes := done.packet[..done.index];
    assert bytes[..out.index] == done.packet[..out.index];
    assert bytes[out.index..done.index] == done.packet[out.index..done.index];
  }

  /** What has just been put stays where it is when more is appended. */
  lemma PutStays(out: Out, put: seq<byte>, done: Out, bytes: seq<byte>, origin: nat)
    requires Sound(out) && out.index + |put| <= MAX_PACKET && Extends(Put(out, put), done) && Shows(bytes, out, done, origin)
    ensures |bytes| >= out.index + |put| && bytes[out.index..out.index + |put|] == put
    ensures Shows(bytes, Put(out, put), done, origin)
  {
    var next := Put(out, put);
    assert next.packet[..next.index][out.index..] == put;
    assert done.packet[..next.index][out.index..] == done.packet[out.index..next.index];
    assert bytes[out.index..done.index][..|put|] == bytes[out.index..next.index];
    assert done.packet[out.index..done.index][..|put|] == done.packet[out.index..next.index];
    assert bytes[next.index..done.index] == bytes[out.index..done.index][|put|..];
    assert done.packet[next.index..done.index] == done.packet[out.index..done.index][|put|..];
    assert next.packet[..origin] == out.packet[..origin];
  }

  /**
   Decoding what was written yields the strings written out and then, literally, the labels of the
   name found, and ends at the new write position.
   */
  lemma {:induction false} AppendDecodes(out: Out, past: byte, strings: seq<Label>, origin: nat, start: nat, bytes: seq<byte>)
    requires Sound(out) && Texts(strings) && Short(strings) && origin <= start <= out.index && Placed(out, past, strings, origin)
    requires Shows(bytes, out, AppendName(out, past, strings).0, origin)
    ensures Decode(bytes, start, out.index)
         == Some((strings[..Written(out, past, strings)] + Found(out, past, strings, origin), AppendName(out, past, strings).0.index))
    decreases |strings|, 1
  {
    hide Hit, Put, Search, U16, Decode, Extends, Shows;
    var done := AppendName(out, past, strings).0;
    if strings == [] {
      ExtendsItself(done);
      PutStays(out, [0], done, bytes, origin);
      TerminatorDecodes(bytes, start, out.index);
      assert strings[..0] + Found(out, past, strings, origin) == [];
    } else if Search(out.packet, past, 0, out.index, strings).Some? {
      var p := Search(out.packet, past, 0, out.index, strings).value;
      ExtendsItself(done);
      PutStays(out, U16(Pointer(p)), done, bytes, origin);
      EarlyShown(bytes, out, done, origin);
      PointerDecodes(bytes, out.packet[..origin], start, out.index, p);
      assert strings[..0] + Found(out, past, strings, origin) == Found(out, past, strings, origin);
    } else {
      AppendLabelDecodes(out, past, strings, origin, start, bytes);
    }
  }

  lemma EarlyShown(bytes: seq<byte>, out: Out, done: Out, origin: nat)
    requires Sound(out) && Sound(done) && Shows(bytes, out, done, origin)
    ensures origin <= out.index && out.packet[..origin] <= bytes
  {
  }

  lemma {:induction false} AppendLabelDecodes(out: Out, past: byte, strings: seq<Label>, origin: nat, start: nat, bytes: seq<byte>)
    requires Sound(out) && Texts(strings) && Short(strings) && origin <= start <= out.index && Placed(out, past, strings, origin)
    requires Shows(bytes, out, AppendName(out, past, strings).0, origin)
    requires strings != [] && Search(out.packet, past, 0, out.index, strings).None?
    ensures Decode(bytes, start, out.index)
         == Some((strings[..Written(out, past, strings)] + Found(out, past, strings, origin), AppendName(out, past, strings).0.index))
    decreases |strings|, 0
  {
    hide Hit, Put, Search, U16, Decode, Extends, Shows;
    var done := AppendName(out, past, strings).0;
    var next := AppendString(out, strings[0]).0;
    AppendKeeps(next, past, strings[1..]);
    PutStays(out, [|strings[0]| as byte] + strings[0], done, bytes, origin);
    AppendDecodes(next, past, strings[1..], origin, start, bytes);
    LabelDecodes(bytes, start, out.index, strings[0]);
    var k := Written(next, past, strings[1..]);
    assert strings[..k + 1] == [strings[0]] + strings[1..][..k];
    Associative([strings[0]], strings[1..][..k], Found(next, past, strings[1..], origin));
  }

  lemma HitStands(packet: seq<byte>, past: byte, origin: nat, p: nat, strings: seq<Label>)
    requires strings != [] && Texts(strings) && Short(strings) && Hit(packet, past, p, strings)
    requires origin <= |packet| && Complete(packet, origin, p)
    ensures var found := Decode(packet[..origin], p, p).value.0;
            found != [] && found[0] == strings[0] && Matches(AcceptAll(EMPTY, found), strings)
  {
    hide Accept, Read;
    var bytes := packet[..origin];
    var found := Decode(bytes, p, p).value.0;
    var len := |strings[0]|;
    assert bytes[p] == packet[p];
    assert bytes[p + 1..p + 1 + len] == packet[p + 1..p + 1 + len];
    assert found != [] && found[0] == strings[0];
    DecodeStable(bytes, packet, p, p);
    ReadDecodes(packet, past, p, p, EMPTY);
  }

  /** The name found starts with the very string searched for and reads back as the rest of the name. */
  lemma {:induction false} FoundStands(out: Out, past: byte, strings: seq<Label>, origin: nat)
    requires Sound(out) && Texts(strings) && Short(strings) && origin <= out.index && Placed(out, past, strings, origin)
    ensures var k, found := Written(out, past, strings), Found(out, past, strings, origin);
            if k == |strings| then found == []
            else found != [] && found[0] == strings[k] && Matches(AcceptAll(EMPTY, found), strings[k..])
    decreases |strings|
  {
    hide Hit, AcceptAll, Decode;
    if strings == [] {
    } else if Search(out.packet, past, 0, out.index, strings).Some? {
      var p := Search(out.packet, past, 0, out.index, strings).value;
      HitStands(out.packet, past, origin, p, strings);
      assert strings[0..] == strings;
    } else {
      FoundStands(AppendString(out, strings[0]).0, past, strings[1..], origin);
      var k := Written(AppendString(out, strings[0]).0, past, strings[1..]);
      assert strings[1..][k..] == strings[k + 1..];
    }
  }

  // ---- The fields the reader gets ----

  /** The kinds of names the responder uses: nothing in them but the first label has a special meaning. */
  predicate Plain(strings: seq<Label>) {
    && 1 <= |strings| <= 4 && Texts(strings)
    && (forall i :: 0 <= i < |strings| ==> strings[i] != [] && !Same(strings[i], SUB))
    && (|strings| > 1 ==> !ExtendsHost(strings[1]))
  }

  /** Those among them whose labels are short enough for the wire. */
  predicate Shape(strings: seq<Label>) {
    Plain(strings) && Short(strings)
  }

  lemma {:induction false} AcceptAllAppend(name: Name, a: seq<Label>, b: seq<Label>)
    requires Wellformed(name) && Short(a) && Short(b)
    ensures AcceptAll(name, a + b) == AcceptAll(AcceptAll(name, a), b)
    decreases |a|
  {
    hide Accept;
    if a == [] {
      assert a + b == b;
    } else {
      AcceptAllAppend(Accept(name, a[0]), a[1..], b);
      assert (a + b)[0] == a[0] && (a + b)[1..] == a[1..] + b;
    }
  }

  /** The first `k` strings fill the first `k` fields. */
  lemma {:induction false} AcceptWritten(strings: seq<Label>, k: nat)
    requires Shape(strings) && k <= |strings|
    ensures var name := AcceptAll(EMPTY, strings[..k]);
            name.parts == k && !name.sub && !name.invalid && forall i :: 0 <= i < k ==> name.fields[i] == strings[i]
  {
    if k > 0 {
      AcceptWritten(strings, k - 1);
      assert strings[..k] == strings[..k - 1] + [strings[k - 1]];
      AcceptAllAppend(EMPTY, strings[..k - 1], [strings[k - 1]]);
      assert [strings[k - 1]][1..] == [];
      assert Cut(strings[k - 1]) == strings[k - 1];
    }
  }

  /** Two readings of the same labels, the second with `k` fields filled beforehand. */
  predicate Beside(a: Name, b: Name, k: nat) {
    && Wellformed(a) && Wellformed(b) && b.parts == a.parts + k && a.sub == b.sub
    && forall i :: 0 <= i < a.parts ==> b.fields[k + i] == a.fields[i]
  }

  lemma {:induction false} AcceptAllGrows(name: Name, labels: seq<Label>)
    requires Wellformed(name) && Short(labels)
    ensures var r := AcceptAll(name, labels); r.parts >= name.parts && |r.fields[0]| >= if name.parts > 0 then |name.fields[0]| else 0
    decreases |labels|
  {
    if labels != [] {
      AcceptAllGrows(Accept(name, labels[0]), labels[1..]);
    }
  }

  /** As long as the first reading does not lengthen its first field, the two stay side by side. */
  lemma {:induction false} AcceptBeside(a: Name, b: Name, k: nat, labels: seq<Label>)
    requires Beside(a, b, k) && k > 0 && a.parts > 0 && Short(labels)
    requires |AcceptAll(a, labels).fields[0]| == |a.fields[0]| < NAME_BUF - 1 && AcceptAll(a, labels).parts + k <= 4
    ensures Beside(AcceptAll(a, labels), AcceptAll(b, labels), k)
    ensures forall i :: 0 <= i < k ==> AcceptAll(b, labels).fields[i] == b.fields[i]
    decreases |labels|
  {
    if labels != [] {
      AcceptAllGrows(Accept(a, labels[0]), labels[1..]);
      AcceptBeside(Accept(a, labels[0]), Accept(b, labels[0]), k, labels[1..]);
    }
  }

  lemma ReadsBackBeside(strings: seq<Label>, k: nat, found: seq<Label>, b: Name)
    requires Shape(strings) && 0 < k < |strings| && Short(found)
    requires found != [] && found[0] == strings[k] && Matches(AcceptAll(EMPTY, found), strings[k..])
    requires Wellformed(b) && b.parts == k && !b.sub && !b.invalid
    ensures Beside(AcceptAll(EMPTY, found), AcceptAll(b, found), k)
    ensures forall i :: 0 <= i < k ==> AcceptAll(b, found).fields[i] == b.fields[i]
  {
    assert Cut(strings[k]) == strings[k];
    var a1, b1 := Accept(EMPTY, found[0]), Accept(b, found[0]);
    assert a1.parts == 1 && b1.parts == k + 1 && a1.fields[0] == b1.fields[k] == strings[k] && !a1.sub && !b1.sub;
    hide Accept;
    assert Same(strings[k..][0], AcceptAll(EMPTY, found).fields[0]);
    AcceptBeside(a1, b1, k, found[1..]);
  }

  /** The strings written out, followed by labels that stand for the rest, read back as the strings. */
  lemma ReadsBack(strings: seq<Label>, k: nat, found: seq<Label>)
    requires Shape(strings) && k <= |strings| && Short(found)
    requires if k == |strings| then found == []
             else found != [] && found[0] == strings[k] && Matches(AcceptAll(EMPTY, found), strings[k..])
    ensures Short(strings[..k] + found)
    ensures Matches(AcceptAll(EMPTY, strings[..k] + found), strings)
    ensures AcceptAll(EMPTY, strings[..k] + found).sub == AcceptAll(EMPTY, found).sub
  {
    hide Accept;
    AcceptWritten(strings, k);
    AcceptAllAppend(EMPTY, strings[..k], found);
    if k == |strings| {
      assert strings[..k] == strings;
    } else if k == 0 {
      assert strings[0..] == strings;
    } else {
      hide AcceptAll;
      var b := AcceptAll(EMPTY, strings[..k]);
      ReadsBackBeside(strings, k, found, b);
      forall i | 0 <= i < |strings| ensures Same(strings[i], AcceptAll(b, found).fields[i]) {
        if i >= k {
          assert strings[k..][i - k] == strings[i];
        }
      }
    }
  }

  // ---- The round trip ----

  /** The round trip for any bytes that hold what came before `origin` and the name itself. */
  lemma RoundTripIn(out: Out, past: byte, strings: seq<Label>, origin: nat, bytes: seq<byte>, after: byte)
    requires Sound(out) && Shape(strings) && origin <= out.index && Placed(out, past, strings, origin)
    requires Shows(bytes, out, AppendName(out, past, strings).0, origin)
    ensures var (end, name) := Read(bytes, after, out.index, out.index, EMPTY);
            && end == Some(AppendName(out, past, strings).0.index) && Matches(name, strings)
            && (name.sub <==> AcceptAll(EMPTY, Found(out, past, strings, origin)).sub)
  {
    hide Hit, Search, Decode, Read, AcceptAll, AppendName, Placed, Shows;
    var k, found := Written(out, past, strings), Found(out, past, strings, origin);
    AppendDecodes(out, past, strings, origin, out.index, bytes);
    FoundStands(out, past, strings, origin);
    ReadsBack(strings, k, found);
    ReadDecodes(bytes, after, out.index, out.index, EMPTY);
  }

  /**
   A name of one of the responder's shapes, appended to a packet, reads back as itself up to ASCII
   case, and the reader stops exactly at the new write position. The mark for subtypes is set exactly
   if the name pointed to contains a subtype label.
   */
  lemma RoundTrip(out: Out, past: byte, strings: seq<Label>, after: byte)
    requires Sound(out) && Shape(strings) && Placed(out, past, strings, out.index)
    ensures var done := AppendName(out, past, strings).0;
            var (end, name) := Read(done.packet[..done.index], after, out.index, out.index, EMPTY);
            && end == Some(done.index) && Matches(name, strings)
            && (name.sub <==> AcceptAll(EMPTY, Found(out, past, strings, out.index)).sub)
  {
    hide AppendName, Placed, Found, Read, AcceptAll, Matches;
    AppendKeeps(out, past, strings);
    var done := AppendName(out, past, strings).0;
    ShowsItself(out, done);
    RoundTripIn(out, past, strings, out.index, done.packet[..done.index], after);
  }

  // ---- Names of subtypes ----

  /** The name of a subtype: the mark for subtypes stands behind the first label. */
  function Subtyped(strings: seq<Label>): seq<Label>
    requires strings != []
  {
    [strings[0], SUB] + strings[1..]
  }

  /** The first field is never the mark for subtypes. */
  lemma {:induction false} FirstFieldNotSub(name: Name, labels: seq<Label>)
    requires Wellformed(name) && Short(labels) && !Same(SUB, name.fields[0])
    ensures !Same(SUB, AcceptAll(name, labels).fields[0])
    decreases |labels|
  {
    if labels != [] {
      var marked, text := Marked(name), Cut(labels[0]);
      if marked.parts == 1 && ExtendsHost(text) {
        LengthenedNotSub(marked.fields[0], text);
      }
      assert !Same(text, SUB) ==> !Same(SUB, text);
      FirstFieldNotSub(Accept(name, labels[0]), labels[1..]);
    }
  }

  lemma LengthenedNotSub(host: seq<byte>, text: seq<byte>)
    requires |host| < NAME_BUF && !Same(SUB, host)
    ensures !Same(SUB, Lengthen(host, text))
  {
    var r := Lengthen(host, text);
    if |r| == 4 {
      assert r[|host|] == DOT;
      assert Lower(SUB[0]) != Lower(DOT) && Lower(SUB[1]) != Lower(DOT) && Lower(SUB[2]) != Lower(DOT) && Lower(SUB[3]) != Lower(DOT);
    }
  }

  /** The mark for subtypes has no influence on how labels are taken in. */
  lemma {:induction false} AcceptAllMarked(name: Name, labels: seq<Label>)
    requires Wellformed(name) && Short(labels)
    ensures AcceptAll(name.(sub := true), labels) == AcceptAll(name, labels).(sub := true)
    decreases |labels|
  {
    if labels != [] {
      assert Accept(name.(sub := true), labels[0]) == Accept(name, labels[0]).(sub := true);
      AcceptAllMarked(Accept(name, labels[0]), labels[1..]);
    }
  }

  /** No name that reads as a subtype's name from the mark on is ever found. */
  lemma SubNeverFound(strings: seq<Label>, found: seq<Label>)
    requires strings != [] && Short(found) && strings[0] == SUB
    ensures !Matches(AcceptAll(EMPTY, found), strings)
  {
    FirstFieldNotSub(EMPTY, found);
  }

  lemma SubMarks(first: Label)
    requires Text(first) && 1 <= |first| <= 63 && !Same(first, SUB)
    ensures Short([first, SUB]) && AcceptAll(EMPTY, [first, SUB]) == AcceptAll(EMPTY, [first]).(sub := true)
  {
    assert Cut(first) == first && Cut(SUB) == SUB;
    var named := Accept(EMPTY, first);
    assert named.parts == 1 && !ExtendsHost(SUB);
    assert Accept(named, SUB) == named.(sub := true);
    hide Accept;
    assert [first, SUB][1..] == [SUB] && [SUB][1..] == [] && [first][1..] == [];
    assert AcceptAll(named, [SUB]) == AcceptAll(Accept(named, SUB), []);
    assert AcceptAll(EMPTY, [first]) == AcceptAll(named, []);
  }

  /** A subtype's name taken in is the name without the mark, and the mark is set. */
  lemma SubtypedReadsBack(strings: seq<Label>, k: nat, found: seq<Label>)
    requires Shape(strings) && |strings| == 4 && k <= 5 && Short(found)
    requires if k == 5 then found == []
             else found != [] && found[0] == Subtyped(strings)[k] && Matches(AcceptAll(EMPTY, found), Subtyped(strings)[k..])
    ensures Short(Subtyped(strings)[..k] + found)
    ensures var name := AcceptAll(EMPTY, Subtyped(strings)[..k] + found); Matches(name, strings) && name.sub
  {
    hide Accept, AcceptAll, Same;
    var all := Subtyped(strings);
    if k == 1 {
      SubNeverFound(all[1..], found);
      assert false;
    } else if k >= 2 {
      SubtypedTail(strings, k, found);
    }
  }

  lemma SubtypedTail(strings: seq<Label>, k: nat, found: seq<Label>)
    requires Shape(strings) && |strings| == 4 && 2 <= k <= 5 && Short(found)
    requires if k == 5 then found == []
             else found != [] && found[0] == Subtyped(strings)[k] && Matches(AcceptAll(EMPTY, found), Subtyped(strings)[k..])
    ensures Short(Subtyped(strings)[..k] + found)
    ensures var name := AcceptAll(EMPTY, Subtyped(strings)[..k] + found); Matches(name, strings) && name.sub
  {
    hide Accept, AcceptAll, Same, Matches;
    var all := Subtyped(strings);
    assert all[k..] == strings[k - 1..];
    ReadsBack(strings, k - 1, found);
    var tail := strings[1..k - 1] + found;
    assert Short([strings[0]]) && Short(tail);
    assert all[..k] + found == [strings[0], SUB] + tail;
    assert strings[..k - 1] + found == [strings[0]] + tail;
    SubMarks(strings[0]);
    AcceptAllAppend(EMPTY, [strings[0], SUB], tail);
    AcceptAllAppend(EMPTY, [strings[0]], tail);
    AcceptAllMarked(AcceptAll(EMPTY, [strings[0]]), tail);
    var name := AcceptAll(EMPTY, strings[..k - 1] + found);
    MarkedMatches(name, strings);
  }

  lemma MarkedMatches(name: Name, strings: seq<Label>)
    requires |name.fields| == 4
    ensures Matches(name.(sub := true), strings) <==> Matches(name, strings)
  {
  }

  /** The name of a subtype reads back without the mark in it, and with the mark set. */
  lemma SubtypeRoundTripIn(out: Out, past: byte, strings: seq<Label>, origin: nat, bytes: seq<byte>, after: byte)
    requires Sound(out) && Shape(strings) && |strings| == 4 && Texts(Subtyped(strings)) && origin <= out.index
    requires Placed(out, past, Subtyped(strings), origin) && Shows(bytes, out, AppendName(out, past, Subtyped(strings)).0, origin)
    ensures var (end, name) := Read(bytes, after, out.index, out.index, EMPTY);
            end == Some(AppendName(out, past, Subtyped(strings)).0.index) && Matches(name, strings) && name.sub
  {
    hide Hit, Search, Decode, Read, AcceptAll, AppendName, Placed, Shows;
    var all := Subtyped(strings);
    assert Short(all);
    var k, found := Written(out, past, all), Found(out, past, all, origin);
    AppendDecodes(out, past, all, origin, out.index, bytes);
    FoundStands(out, past, all, origin);
    SubtypedReadsBack(strings, k, found);
    ReadDecodes(bytes, after, out.index, out.index, EMPTY);
  }

  /** Names complete before an append decode the same afterwards. */
  lemma EarlierNamesKept(out: Out, past: byte, strings: seq<Label>, q: nat)
    requires Sound(out) && Texts(strings) && Complete(out.packet, out.index, q)
    ensures var done := AppendName(out, past, strings).0;
            && done.index >= out.index
            && Decode(done.packet[..done.index], q, q) == Decode(out.packet[..out.index], q, q)
  {
    AppendKeeps(out, past, strings);
    var done := AppendName(out, past, strings).0;
    assert out.packet[..out.index] <= done.packet[..done.index] by {
      assert out.packet[..out.index] == done.packet[..out.index];
    }
    DecodeStable(out.packet[..out.index], done.packet[..done.index], q, q);
  }

  // ---- Labels that are too long ----

  /** All fields the reader fills but the first hold one label each. */
  predicate SingleLabels(name: Name) {
    Wellformed(name) && forall i :: 1 <= i < 4 ==> |name.fields[i]| <= 63
  }

  lemma {:induction false} ReadSingleLabels(packet: seq<byte>, past: byte, start: nat, at: nat, name: Name)
    requires start <= at && SingleLabels(name)
    ensures SingleLabels(Read(packet, past, start, at, name).1)
    decreases start, |packet| - at
  {
    if at < |packet| && packet[at] != 0 {
      var len := packet[at] as int;
      if len < 0xC0 {
        if len <= 63 && at + 1 + len <= |packet| {
          ReadSingleLabels(packet, past, start, at + 1 + len, Accept(name, packet[at + 1..at + 1 + len]));
        }
      } else {
        var address := Address(packet[at], At(packet, at + 1, past));
        if address < start {
          ReadSingleLabels(packet, past, address, address, Marked(name));
        }
      }
    }
  }

  /** The search never finds a name with a label of more than 63 bytes. */
  lemma HitShort(packet: seq<byte>, past: byte, p: nat, strings: seq<Label>)
    requires strings != [] && Texts(strings) && Hit(packet, past, p, strings)
    ensures forall i :: 0 <= i < |strings| ==> |strings[i]| <= 63
  {
    ReadSingleLabels(packet, past, p, p, EMPTY);
    assert packet[p] as int == |strings[0]|;
  }

  /**
   A label of 64 bytes fits the buffers of the responder and is written out, at whatever position of
   the name it stands, but the name cannot be read.
   */
  lemma {:induction false} LongLabelUnreadable(out: Out, past: byte, strings: seq<Label>, origin: nat, start: nat, bytes: seq<byte>,
                                               after: byte, name: Name, i: nat)
    requires Sound(out) && Texts(strings) && origin <= start <= out.index && Placed(out, past, strings, origin)
    requires Shows(bytes, out, AppendName(out, past, strings).0, origin)
    requires i < |strings| && |strings[i]| == 64 && (forall k :: 0 <= k < i ==> strings[k] != [])
    requires Wellformed(name)
    ensures Read(bytes, after, start, out.index, name).0 == None
    decreases |strings|
  {
    hide Hit, Put, Search, Decode, Extends, Shows, Accept;
    var found := Search(out.packet, past, 0, out.index, strings);
    if found.Some? {
      HitShort(out.packet, past, found.value, strings);
      assert false;
    } else {
      var part := strings[0];
      var next := AppendString(out, part).0;
      AppendKeeps(next, past, strings[1..]);
      var done := AppendName(next, past, strings[1..]).0;
      PutStays(out, [|part| as byte] + part, done, bytes, origin);
      assert bytes[out.index] == bytes[out.index..out.index + 1 + |part|][0];
      if |part| <= 63 {
        var at := out.index + 1 + |part|;
        LongLabelUnreadable(next, past, strings[1..], origin, start, bytes, after, Accept(name, bytes[out.index + 1..at]), i - 1);
      }
    }
  }

  /**
   A name of one of the responder's kinds, once appended, can be read exactly if every label is at
   most 63 bytes long, and then it reads back as itself.
   */
  lemma ReadableExactly(out: Out, past: byte, strings: seq<Label>, after: byte)
    requires Sound(out) && Plain(strings) && Placed(out, past, strings, out.index)
    ensures var done := AppendName(out, past, strings).0;
            var (end, name) := Read(done.packet[..done.index], after, out.index, out.index, EMPTY);
            && (end.Some? <==> forall i :: 0 <= i < |strings| ==> |strings[i]| <= 63)
            && (end.Some? ==> end == Some(done.index) && Matches(name, strings))
  {
    hide AppendName, Placed, Found, Read, AcceptAll, Matches, Search;
    if forall i :: 0 <= i < |strings| ==> |strings[i]| <= 63 {
      RoundTrip(out, past, strings, after);
    } else {
      var i :| 0 <= i < |strings| && |strings[i]| > 63;
      AppendKeeps(out, past, strings);
      var done := AppendName(out, past, strings).0;
      ShowsItself(out, done);
      LongLabelUnreadable(out, past, strings, out.index, out.index, done.packet[..done.index], after, EMPTY, i);
    }
  }
}
