/**
 Domain names on the wire (section 4.1.4 of RFC 1035): the reader that follows compression
 pointers, the writer that compresses by searching the packet for a suffix already written, and
 the round trip between them.
 */
module MdnsName {
  import opened Common

  type Label = seq<byte>

  const LOCAL: Label := [108, 111, 99, 97, 108]
  const ARPA: Label := [97, 114, 112, 97]
  const IP6: Label := [105, 112, 54]
  const IN_ADDR: Label := [105, 110, 45, 97, 100, 100, 114]
  const SUB: Label := [95, 115, 117, 98]
  const UNDERSCORE: byte := 95
  const DOT: byte := 46

  /** The size of the buffer a packet is written to. */
  const MAX_PACKET := 1460
  /** The size of one field of a parsed name, terminator included. */
  const NAME_BUF := 65

  // ---- C strings ----

  function Lower(b: byte): byte {
    if 65 <= b <= 90 then b + 32 else b
  }

  /** Equality up to ASCII case. */
  predicate Same(a: seq<byte>, b: seq<byte>) {
    |a| == |b| && forall i :: 0 <= i < |a| ==> Lower(a[i]) == Lower(b[i])
  }

  /** Bounded concatenation into a buffer of `NAME_BUF` bytes, terminator included. */
  function Concat(a: seq<byte>, b: seq<byte>): (r: seq<byte>)
    ensures |a| < NAME_BUF ==> |r| < NAME_BUF
    ensures a <= r || |a| >= NAME_BUF
  {
    if |a| >= NAME_BUF then a
    else if |a| + |b| < NAME_BUF then a + b
    else (a + b)[..NAME_BUF - 1]
  }

  // ---- Reading ----

  /** The parsed form of a name: up to four fields. */
  datatype Name = Name(fields: seq<seq<byte>>, parts: nat, sub: bool, invalid: bool)

  const EMPTY := Name([[], [], [], []], 0, false, false)

  predicate Wellformed(name: Name) {
    |name.fields| == 4 && name.parts <= 4 && (name.invalid ==> name.parts == 4)
    && forall i :: 0 <= i < 4 ==> |name.fields[i]| < NAME_BUF
  }

  /** What the reader does to the name before it looks at the next label or pointer. */
  function Marked(name: Name): (r: Name)
    ensures Wellformed(name) ==> Wellformed(r)
  {
    if name.parts == 4 then name.(invalid := true) else name
  }

  predicate ExtendsHost(text: seq<byte>) {
    (text == [] || text[0] != UNDERSCORE)
    && !Same(text, LOCAL) && !Same(text, ARPA) && !Same(text, IP6) && !Same(text, IN_ADDR)
  }

  function Lengthen(host: seq<byte>, text: seq<byte>): (r: seq<byte>)
    ensures |host| < NAME_BUF ==> |r| < NAME_BUF
    ensures |host| < NAME_BUF - 1 ==> |r| > |host|
    ensures |r| >= |host|
  {
    Concat(Concat(host, [DOT]), text)
  }

  /** One label taken into a name. */
  function Accept(name: Name, part: Label): (r: Name)
    requires Wellformed(name)
    ensures |part| <= 63 ==> Wellformed(r)
  {
    var marked := Marked(name);
    var text := Cut(part);
    if marked.parts == 1 && ExtendsHost(text) then
      marked.(fields := marked.fields[0 := Lengthen(marked.fields[0], text)])
    else if Same(text, SUB) then marked.(sub := true)
    else if marked.invalid then marked
    else marked.(fields := marked.fields[marked.parts := text], parts := marked.parts + 1)
  }

  predicate Short(labels: seq<Label>) {
    forall i :: 0 <= i < |labels| ==> 1 <= |labels[i]| <= 63
  }

  function AcceptAll(name: Name, labels: seq<Label>): (r: Name)
    requires Wellformed(name) && Short(labels)
    ensures Wellformed(r)
    decreases |labels|
  {
    if labels == [] then name else AcceptAll(Accept(name, labels[0]), labels[1..])
  }

  /** The byte behind the last one of the packet is read unchecked; `past` is its value. */
  function At(packet: seq<byte>, i: nat, past: byte): byte {
    if i < |packet| then packet[i] else past
  }

  function Address(hi: byte, lo: byte): nat
    requires hi >= 0xC0
  {
    (hi as int - 0xC0) * 256 + lo as int
  }

  /**
   The reader, `at` bytes along a name that starts at `start`: where the name ends, or none on
   error, and the name collected so far. It terminates on every packet, keeps the name within its
   buffers, and ends behind the place it started from.
   */
  function Read(packet: seq<byte>, past: byte, start: nat, at: nat, name: Name): (r: (Option<nat>, Name))
    requires start <= at && Wellformed(name)
    ensures Wellformed(r.1)
    ensures r.0.Some? ==> at < r.0.value <= if at <= |packet| then |packet| + 1 else at + 1
    decreases start, |packet| - at
  {
    if at >= |packet| || packet[at] == 0 then (Some(at + 1), name)
    else
      var len := packet[at] as int;
      if len < 0xC0 then
        if len > 63 || at + 1 + len > |packet| then (None, Marked(name))
        else Read(packet, past, start, at + 1 + len, Accept(name, packet[at + 1..at + 1 + len]))
      else
        var address := Address(packet[at], At(packet, at + 1, past));
        if address >= start then (None, Marked(name))
        else
          var (r, n) := Read(packet, past, address, address, Marked(name));
          (if r.Some? then Some(at + 2) else None, n)
  }

  // ---- Decoding a complete name, as RFC 1035 defines it ----

  /**
   The labels of a name all of whose bytes lie in `bytes`, and the position behind it. Pointers lead
   to a name that starts earlier. There is none when the name runs off the end or is malformed.
   */
  function Decode(bytes: seq<byte>, start: nat, at: nat): (r: Option<(seq<Label>, nat)>)
    requires start <= at
    ensures r.Some? ==> at < r.value.1 <= |bytes| && Short(r.value.0)
    decreases start, |bytes| - at
  {
    if at >= |bytes| then None
    else if bytes[at] == 0 then Some(([], at + 1))
    else
      var len := bytes[at] as int;
      if len < 0xC0 then
        if len > 63 || at + 1 + len > |bytes| then None
        else
          match Decode(bytes, start, at + 1 + len)
          case None => None
          case Some((rest, end)) => Some(([bytes[at + 1..at + 1 + len]] + rest, end))
      else if at + 1 >= |bytes| then None
      else
        var address := Address(bytes[at], bytes[at + 1]);
        if address >= start then None
        else
          match Decode(bytes, address, address)
          case None => None
          case Some((rest, _)) => Some((rest, at + 2))
  }

  /** Further bytes behind a complete name do not change it. */
  lemma {:induction false} DecodeStable(bytes: seq<byte>, more: seq<byte>, start: nat, at: nat)
    requires start <= at && bytes <= more && Decode(bytes, start, at).Some?
    ensures Decode(more, start, at) == Decode(bytes, start, at)
    decreases start, |bytes| - at
  {
    var len := bytes[at] as int;
    if len == 0 {
    } else if len < 0xC0 {
      DecodeStable(bytes, more, start, at + 1 + len);
      assert more[at + 1..at + 1 + len] == bytes[at + 1..at + 1 + len];
    } else {
      var address := Address(bytes[at], bytes[at + 1]);
      DecodeStable(bytes, more, address, address);
    }
  }

  /** Names that agree on everything but the mark for superfluous labels. */
  predicate Alike(a: Name, b: Name) {
    a.fields == b.fields && a.parts == b.parts && a.sub == b.sub
  }

  lemma {:induction false} AcceptAllAlike(a: Name, b: Name, labels: seq<Label>)
    requires Wellformed(a) && Wellformed(b) && Alike(a, b) && Short(labels)
    ensures Alike(AcceptAll(a, labels), AcceptAll(b, labels))
    decreases |labels|
  {
    if labels != [] {
      AcceptAllAlike(Accept(a, labels[0]), Accept(b, labels[0]), labels[1..]);
    }
  }

  /** On a complete name the reader takes in exactly its labels, and ends where it ends. */
  lemma {:induction false} ReadDecodes(packet: seq<byte>, past: byte, start: nat, at: nat, name: Name)
    requires start <= at && Wellformed(name) && Decode(packet, start, at).Some?
    ensures Read(packet, past, start, at, name).0 == Some(Decode(packet, start, at).value.1)
    ensures Alike(Read(packet, past, start, at, name).1, AcceptAll(name, Decode(packet, start, at).value.0))
    decreases start, |packet| - at
  {
    hide Accept;
    var (labels, end) := Decode(packet, start, at).value;
    var len := packet[at] as int;
    if len == 0 {
    } else if len < 0xC0 {
      var part := packet[at + 1..at + 1 + len];
      ReadDecodes(packet, past, start, at + 1 + len, Accept(name, part));
      assert labels[1..] == Decode(packet, start, at + 1 + len).value.0;
    } else {
      var address := Address(packet[at], packet[at + 1]);
      ReadDecodes(packet, past, address, address, Marked(name));
      AcceptAllAlike(name, Marked(name), labels);
    }
  }
}
