/**
 Resource records (section 3.2.1 of RFC 1035): the writers, and the walk that skips records the
 way the parser does.
 */
module MdnsRecord {
  import opened Common
  import opened MdnsName
  import opened MdnsCompress

  const TYPE_A := 0x0001
  const TYPE_PTR := 0x000C
  const TYPE_TXT := 0x0010
  const TYPE_AAAA := 0x001C
  const TYPE_SRV := 0x0021
  const CLASS_IN := 0x0001
  const CLASS_IN_FLUSH := 0x8001
  const TTL_LONG := 4500
  const TTL_HOST := 120
  const HEADER_SIZE := 10
  const LENGTH_OFFSET := 8

  const SERVICES: Label := [95, 115, 101, 114, 118, 105, 99, 101, 115]
  const DNS_SD: Label := [95, 100, 110, 115, 45, 115, 100]
  const UDP: Label := [95, 117, 100, 112]
  const EQUALS: byte := 61

  /** One entry of a TXT record: `key` or `key=value`. */
  datatype TxtEntry = TxtEntry(key: seq<byte>, value: Option<seq<byte>>)

  /** The data of a record. */
  datatype Data =
    | Target(name: seq<Label>)
    | Entries(entries: seq<TxtEntry>)
    | Location(priority: nat, weight: nat, port: nat, host: seq<Label>)
    | Ip4(ip: seq<byte>)
    | Ip6(ip: seq<byte>)

  datatype Record = Record(owner: seq<Label>, ownerChecked: bool, kind: nat, flush: bool, ttl: nat, data: Data)

  predicate ValidData(data: Data) {
    match data
    case Target(name) => Texts(name) && Size(name) < 256
    case Entries(_) => true
    case Location(priority, weight, port, host) =>
      priority < 0x10000 && weight < 0x10000 && port < 0x10000 && Texts(host) && |host| == 2 && Size(host) < 256
    case Ip4(ip) => |ip| == 4
    case Ip6(ip) => |ip| == 16
  }

  predicate ValidRecord(record: Record) {
    Texts(record.owner) && Size(record.owner) < 256 && record.kind < 0x10000 && record.ttl < 0x1_0000_0000 && ValidData(record.data)
  }

  // ---- Lengths are kept in eight bits ----

  function Size(strings: seq<Label>): (r: nat)
    ensures r > |strings|
    decreases |strings|
  {
    if strings == [] then 1 else |strings[0]| + 1 + Size(strings[1..])
  }

  /** What is written for a name is never longer than the uncompressed name. */
  lemma {:induction false} WrittenBound(out: Out, past: byte, strings: seq<Label>)
    requires Sound(out) && Texts(strings)
    ensures AppendName(out, past, strings).1 <= Size(strings)
    decreases |strings|
  {
    hide Hit, Put;
    if strings != [] && Search(out.packet, past, 0, out.index, strings).None? {
      WrittenBound(AppendString(out, strings[0]).0, past, strings[1..]);
    }
  }

  /** No name the responder writes reaches 256 bytes. */
  lemma NamesFitEightBits(a: Label, b: Label, c: Label)
    requires |a| < NAME_BUF && |b| < NAME_BUF && |c| < NAME_BUF
    ensures Size([a, LOCAL]) < 256 && Size([a, b, LOCAL]) < 256 && Size([a, b, c, LOCAL]) < 256
    ensures Size([a, SUB, b, c, LOCAL]) < 256 && Size([SERVICES, DNS_SD, UDP, LOCAL]) < 256
  {
    assert [LOCAL] + [] == [LOCAL] && [a] + [LOCAL] == [a, LOCAL] && [b] + [LOCAL] == [b, LOCAL] && [c] + [LOCAL] == [c, LOCAL];
    assert [b] + [c, LOCAL] == [b, c, LOCAL] && [a] + [b, LOCAL] == [a, b, LOCAL] && [a] + [b, c, LOCAL] == [a, b, c, LOCAL];
    assert [SUB] + [b, c, LOCAL] == [SUB, b, c, LOCAL] && [a] + [SUB, b, c, LOCAL] == [a, SUB, b, c, LOCAL];
    assert [UDP] + [LOCAL] == [UDP, LOCAL] && [DNS_SD] + [UDP, LOCAL] == [DNS_SD, UDP, LOCAL];
    assert [SERVICES] + [DNS_SD, UDP, LOCAL] == [SERVICES, DNS_SD, UDP, LOCAL];
    assert Size([]) == 1;
    hide Size;
    SizeCons(LOCAL, []);
    SizeCons(a, [LOCAL]);
    SizeCons(c, [LOCAL]);
    SizeCons(b, [LOCAL]);
    SizeCons(b, [c, LOCAL]);
    SizeCons(a, [b, LOCAL]);
    SizeCons(a, [b, c, LOCAL]);
    SizeCons(SUB, [b, c, LOCAL]);
    SizeCons(a, [SUB, b, c, LOCAL]);
    SizeCons(UDP, [LOCAL]);
    SizeCons(DNS_SD, [UDP, LOCAL]);
    SizeCons(SERVICES, [DNS_SD, UDP, LOCAL]);
  }

  lemma SizeCons(first: Label, rest: seq<Label>)
    ensures Size([first] + rest) == |first| + 1 + Size(rest)
  {
    assert ([first] + rest)[1..] == rest;
  }

  // ---- The records of the responder ----

  function PtrRecord(instance: Label, service: Label, proto: Label, bye: bool): Record {
    Record([service, proto, LOCAL], true, TYPE_PTR, false, if bye then 0 else TTL_LONG,
           Target([instance, service, proto, LOCAL]))
  }

  function SubtypePtrRecord(instance: Label, subtype: Label, service: Label, proto: Label, bye: bool): Record {
    Record([subtype, SUB, service, proto, LOCAL], true, TYPE_PTR, false, if bye then 0 else TTL_LONG,
           Target([instance, service, proto, LOCAL]))
  }

  /** The result of appending the owner name of this record is not checked. */
  function SdPtrRecord(service: Label, proto: Label, flush: bool): Record {
    Record([SERVICES, DNS_SD, UDP, LOCAL], false, TYPE_PTR, flush, TTL_LONG, Target([service, proto, LOCAL]))
  }

  function TxtRecord(instance: Label, service: Label, proto: Label, entries: seq<TxtEntry>, flush: bool, bye: bool): Record {
    Record([instance, service, proto, LOCAL], true, TYPE_TXT, flush, if bye then 0 else TTL_LONG, Entries(entries))
  }

  function SrvRecord(instance: Label, service: Label, proto: Label, priority: nat, weight: nat, port: nat,
                     host: Label, flush: bool, bye: bool): Record {
    Record([instance, service, proto, LOCAL], true, TYPE_SRV, flush, if bye then 0 else TTL_HOST,
           Location(priority, weight, port, [host, LOCAL]))
  }

  function ARecord(host: Label, ip: seq<byte>, flush: bool, bye: bool): Record {
    Record([host, LOCAL], true, TYPE_A, flush, if bye then 0 else TTL_HOST, Ip4(ip))
  }

  function AaaaRecord(host: Label, ip: seq<byte>, flush: bool, bye: bool): Record {
    Record([host, LOCAL], true, TYPE_AAAA, flush, if bye then 0 else TTL_HOST, Ip6(ip))
  }

  /** With texts that fit the name buffers, every record of the responder is one the writers handle. */
  lemma RecordsValid(a: Label, b: Label, c: Label, d: Label, entries: seq<TxtEntry>, ip4: seq<byte>, ip6: seq<byte>,
                     priority: nat, weight: nat, port: nat, flush: bool, bye: bool)
    requires Text(a) && Text(b) && Text(c) && Text(d) && |ip4| == 4 && |ip6| == 16
    requires priority < 0x10000 && weight < 0x10000 && port < 0x10000
    ensures ValidRecord(PtrRecord(a, b, c, bye)) && ValidRecord(SubtypePtrRecord(a, d, b, c, bye))
    ensures ValidRecord(SdPtrRecord(b, c, flush)) && ValidRecord(TxtRecord(a, b, c, entries, flush, bye))
    ensures ValidRecord(SrvRecord(a, b, c, priority, weight, port, d, flush, bye))
    ensures ValidRecord(ARecord(a, ip4, flush, bye)) && ValidRecord(AaaaRecord(a, ip6, flush, bye))
    ensures SubtypePtrRecord(a, d, b, c, bye).owner == Subtyped([d, b, c, LOCAL])
  {
    hide Size;
    SubtypeOwner(a, d, b, c, bye);
    NamesFitEightBits(a, b, c);
    NamesFitEightBits(b, c, c);
    NamesFitEightBits(d, b, c);
    assert Text(LOCAL) && Text(SUB) && Text(SERVICES) && Text(DNS_SD) && Text(UDP);
  }

  /** An IPv4 address as it is kept in memory, lowest byte first. */
  function IpBytes(ip: nat): (r: seq<byte>)
    requires ip < 0x1_0000_0000
    ensures |r| == 4
  {
    [(ip % 256) as byte, (ip / 0x100 % 256) as byte, (ip / 0x10000 % 256) as byte, (ip / 0x1000000 % 256) as byte]
  }

  lemma IpBytesOrder(ip: nat)
    requires ip < 0x1_0000_0000
    ensures var r := IpBytes(ip);
            r[0] as nat + r[1] as nat * 0x100 + r[2] as nat * 0x10000 + r[3] as nat * 0x1000000 == ip
  {
    var a, b, c := ip / 0x100, ip / 0x10000, ip / 0x1000000;
    assert a / 0x100 == b && b / 0x100 == c;
    assert ip == ip % 256 + a * 0x100 && a == a % 256 + b * 0x100 && b == b % 256 + c * 0x100;
  }

  // ---- Appending ----

  function U32(value: nat): (r: seq<byte>)
    requires value < 0x1_0000_0000
    ensures |r| == 4
  {
    U16(value / 0x10000) + U16(value % 0x10000)
  }

  /** The fixed part of a record; its length field is filled in later. */
  function Header(kind: nat, flush: bool, ttl: nat, length: nat): (r: seq<byte>)
    requires kind < 0x10000 && ttl < 0x1_0000_0000 && length < 0x10000
    ensures |r| == HEADER_SIZE
  {
    U16(kind) + U16(if flush then CLASS_IN_FLUSH else CLASS_IN) + U32(ttl) + U16(length)
  }

  function AppendHeader(out: Out, kind: nat, flush: bool, ttl: nat): (r: (Out, nat))
    requires Sound(out) && kind < 0x10000 && ttl < 0x1_0000_0000
    ensures Sound(r.0)
  {
    if out.index + HEADER_SIZE >= MAX_PACKET then (out, 0)
    else (Put(out, Header(kind, flush, ttl, 0)), HEADER_SIZE)
  }

  function EntryText(entry: TxtEntry): seq<byte> {
    entry.key + if entry.value.Some? then [EQUALS] + entry.value.value else []
  }

  /** The length byte of an entry is cut to eight bits. */
  function AppendEntry(out: Out, entry: TxtEntry): (r: (Out, nat))
    requires Sound(out)
    ensures Sound(r.0)
  {
    var text := EntryText(entry);
    if out.index + |text| + 1 >= MAX_PACKET then (out, 0)
    else (Put(out, [(|text| % 256) as byte] + text), |text| + 1)
  }

  /** The entries appended, and their total length unless one does not fit. */
  function AppendEntries(out: Out, entries: seq<TxtEntry>): (r: (Out, Option<nat>))
    requires Sound(out)
    ensures Sound(r.0)
    decreases |entries|
  {
    if entries == [] then (out, Some(0))
    else
      var (next, written) := AppendEntry(out, entries[0]);
      if written == 0 then (next, None)
      else
        var (done, rest) := AppendEntries(next, entries[1..]);
        (done, if rest.Some? then Some(written + rest.value) else None)
  }

  /** The data appended, and its length unless it does not fit. A TXT record without entries holds one zero byte. */
  function AppendData(out: Out, past: byte, data: Data): (r: (Out, Option<nat>))
    requires Sound(out) && ValidData(data) && out.index < MAX_PACKET
    ensures Sound(r.0)
  {
    match data
    case Target(name) =>
      var (done, written) := AppendName(out, past, name);
      (done, if written == 0 then None else Some(written))
    case Entries(entries) =>
      if entries == [] then (Put(out, [0]), Some(1)) else AppendEntries(out, entries)
    case Location(priority, weight, port, host) =>
      var (o1, w1) := AppendU16(out, priority);
      var (o2, w2) := AppendU16(o1, weight);
      var (o3, w3) := AppendU16(o2, port);
      if w1 + w2 + w3 != 6 || host[0] == [] then (o3, None)
      else
        var (done, written) := AppendName(o3, past, host);
        (done, if written == 0 then None else Some(written + 6))
    case Ip4(ip) => if out.index + 3 >= MAX_PACKET then (out, None) else (Put(out, ip), Some(4))
    case Ip6(ip) => if out.index + 16 > MAX_PACKET then (out, None) else (Put(out, ip), Some(16))
  }

  function SetU16(out: Out, at: nat, value: nat): (r: Out)
    requires Sound(out) && at + 2 <= out.index && value < 0x10000
    ensures Sound(r) && r.index == out.index
  {
    Out(out.packet[..at] + U16(value) + out.packet[at + 2..], out.index)
  }

  /** A record appended, and the number of bytes reported; zero when it failed. */
  function AppendRecord(out: Out, past: byte, record: Record): (r: (Out, nat))
    requires Sound(out) && ValidRecord(record)
    ensures Sound(r.0)
  {
    var (named, w) := AppendName(out, past, record.owner);
    if w == 0 && record.ownerChecked then (named, 0)
    else
      var (headed, h) := AppendHeader(named, record.kind, record.flush, record.ttl);
      if h == 0 then (headed, 0)
      else
        var (done, length) := AppendData(headed, past, record.data);
        if length.None? then (done, 0)
        else
          DataKeeps(headed, past, record.data);
          (SetU16(done, headed.index - 2, length.value), w + h + length.value)
  }

  lemma {:induction false} EntriesKeep(out: Out, entries: seq<TxtEntry>)
    requires Sound(out)
    ensures var (done, length) := AppendEntries(out, entries);
            && Extends(out, done)
            && (length.Some? ==> done.index == out.index + length.value && (entries != [] ==> length.value > 0))
    decreases |entries|
  {
    if entries != [] {
      var (next, written) := AppendEntry(out, entries[0]);
      if written != 0 {
        EntriesKeep(next, entries[1..]);
        ExtendsThrough(out, next, AppendEntries(next, entries[1..]).0);
      }
    }
  }

  lemma NumbersKeep(out: Out, a: nat, b: nat, c: nat)
    requires Sound(out) && a < 0x10000 && b < 0x10000 && c < 0x10000
    ensures var (o1, w1) := AppendU16(out, a);
            var (o2, w2) := AppendU16(o1, b);
            var (o3, w3) := AppendU16(o2, c);
            Extends(out, o3) && o3.index == out.index + w1 + w2 + w3
  {
    var o1 := AppendU16(out, a).0;
    var o2 := AppendU16(o1, b).0;
    var o3 := AppendU16(o2, c).0;
    assert Extends(out, o1) && Extends(o1, o2) && Extends(o2, o3);
    ExtendsThrough(out, o1, o2);
    ExtendsThrough(out, o2, o3);
  }

  /** The length reported for the data is exactly what was written; nothing before it changes. */
  lemma DataKeeps(out: Out, past: byte, data: Data)
    requires Sound(out) && ValidData(data) && out.index < MAX_PACKET
    ensures var (done, length) := AppendData(out, past, data);
            && Extends(out, done)
            && (length.Some? ==> done.index == out.index + length.value && length.value > 0)
  {
    hide AppendName, AppendEntries, AppendU16;
    match data
    case Target(name) => AppendKeeps(out, past, name);
    case Entries(entries) => EntriesKeep(out, entries);
    case Location(priority, weight, port, host) =>
      NumbersKeep(out, priority, weight, port);
      var o3 := AppendU16(AppendU16(AppendU16(out, priority).0, weight).0, port).0;
      AppendKeeps(o3, past, host);
      ExtendsThrough(out, o3, AppendName(o3, past, host).0);
    case Ip4(_) =>
    case Ip6(_) =>
  }

  // ---- What the data looks like ----

  function EntryBytes(entry: TxtEntry): (r: seq<byte>)
    ensures |r| == |EntryText(entry)| + 1
  {
    [(|EntryText(entry)| % 256) as byte] + EntryText(entry)
  }

  function EntriesBytes(entries: seq<TxtEntry>): seq<byte>
    decreases |entries|
  {
    if entries == [] then [] else EntryBytes(entries[0]) + EntriesBytes(entries[1..])
  }

  /** The data of a text record; without entries it is one zero byte. */
  function TxtBytes(entries: seq<TxtEntry>): seq<byte> {
    if entries == [] then [0] else EntriesBytes(entries)
  }

  /** The writer of text records puts down exactly these bytes. */
  lemma {:induction false} EntriesWritten(out: Out, entries: seq<TxtEntry>)
    requires Sound(out) && AppendEntries(out, entries).1.Some?
    ensures out.index + |EntriesBytes(entries)| <= MAX_PACKET
    ensures AppendEntries(out, entries).0 == Put(out, EntriesBytes(entries))
    decreases |entries|
  {
    EntriesKeep(out, entries);
    if entries != [] {
      var next := AppendEntry(out, entries[0]).0;
      EntriesWritten(next, entries[1..]);
      EntriesKeep(next, entries[1..]);
      hide Put, EntryText;
      PutTwice(out, EntryBytes(entries[0]), EntriesBytes(entries[1..]));
    } else {
      assert out.packet[..out.index] + [] + out.packet[out.index..] == out.packet;
    }
  }

  lemma TxtWritten(out: Out, past: byte, entries: seq<TxtEntry>)
    requires Sound(out) && out.index < MAX_PACKET && AppendData(out, past, Entries(entries)).1.Some?
    ensures out.index + |TxtBytes(entries)| <= MAX_PACKET
    ensures AppendData(out, past, Entries(entries)).0 == Put(out, TxtBytes(entries))
  {
    if entries != [] {
      EntriesWritten(out, entries);
      EntriesKeep(out, entries);
    }
  }

  lemma NumbersPut(out: Out, a: nat, b: nat, c: nat)
    requires Sound(out) && a < 0x10000 && b < 0x10000 && c < 0x10000 && out.index + 6 <= MAX_PACKET
    ensures AppendU16(AppendU16(AppendU16(out, a).0, b).0, c).0 == Put(out, U16(a) + U16(b) + U16(c))
  {
    hide Put, U16;
    PutTwice(out, U16(a), U16(b));
    PutTwice(out, U16(a) + U16(b), U16(c));
  }

  // ---- Reading numbers ----

  /** The number in two bytes, highest first. */
  function Word(bytes: seq<byte>, at: nat): nat
    requires at + 2 <= |bytes|
  {
    bytes[at] as nat * 0x100 + bytes[at + 1] as nat
  }

  /** The number in four bytes, highest first. */
  function Quad(bytes: seq<byte>, at: nat): nat
    requires at + 4 <= |bytes|
  {
    bytes[at] as nat * 0x1000000 + bytes[at + 1] as nat * 0x10000 + bytes[at + 2] as nat * 0x100 + bytes[at + 3] as nat
  }

  /**
   The fixed fields of a record at `at` (section 3.2.1 of RFC 1035): type, class with the cache-flush bit in front of it
   (section 10.2 of RFC 6762), time to live, and the length of the data.
   */
  predicate FieldsRead(bytes: seq<byte>, at: nat, kind: nat, flush: bool, ttl: nat, length: nat) {
    && at + 10 <= |bytes|
    && Word(bytes, at) == kind
    && Word(bytes, at + 2) % 0x8000 == 1 && (Word(bytes, at + 2) >= 0x8000 <==> flush)
    && Quad(bytes, at + 4) == ttl
    && Word(bytes, at + 8) == length
  }

  lemma U16Reads(bytes: seq<byte>, at: nat, value: nat)
    requires value < 0x10000 && On(bytes, at, U16(value))
    ensures at + 2 <= |bytes| && Word(bytes, at) == value
  {
    var part := bytes[at..at + 2];
    assert bytes[at] == part[0] && bytes[at + 1] == part[1];
  }

  lemma U32Reads(bytes: seq<byte>, at: nat, value: nat)
    requires value < 0x1_0000_0000 && On(bytes, at, U32(value))
    ensures at + 4 <= |bytes| && Quad(bytes, at) == value
  {
    hide U16;
    OnParts(bytes, at, U16(value / 0x10000), U16(value % 0x10000));
    U16Reads(bytes, at, value / 0x10000);
    U16Reads(bytes, at + 2, value % 0x10000);
  }

  lemma HeaderReads(bytes: seq<byte>, at: nat, kind: nat, flush: bool, ttl: nat, length: nat)
    requires kind < 0x10000 && ttl < 0x1_0000_0000 && length < 0x10000 && On(bytes, at, Header(kind, flush, ttl, length))
    ensures FieldsRead(bytes, at, kind, flush, ttl, length)
  {
    hide U16, U32, On, Word, Quad;
    var class_ := if flush then CLASS_IN_FLUSH else CLASS_IN;
    OnParts(bytes, at, U16(kind) + U16(class_) + U32(ttl), U16(length));
    OnParts(bytes, at, U16(kind) + U16(class_), U32(ttl));
    OnParts(bytes, at, U16(kind), U16(class_));
    U16Reads(bytes, at, kind);
    U16Reads(bytes, at + 2, class_);
    U32Reads(bytes, at + 4, ttl);
    U16Reads(bytes, at + 8, length);
  }

  lemma NumbersRead(bytes: seq<byte>, at: nat, a: nat, b: nat, c: nat)
    requires a < 0x10000 && b < 0x10000 && c < 0x10000 && On(bytes, at, U16(a) + U16(b) + U16(c))
    ensures at + 6 <= |bytes| && Word(bytes, at) == a && Word(bytes, at + 2) == b && Word(bytes, at + 4) == c
  {
    hide U16, On, Word;
    OnParts(bytes, at, U16(a) + U16(b), U16(c));
    OnParts(bytes, at, U16(a), U16(b));
    U16Reads(bytes, at, a);
    U16Reads(bytes, at + 2, b);
    U16Reads(bytes, at + 4, c);
  }

  // ---- The layout of a record ----

  /** The packet as it is sent: up to the write position. */
  function Sent(out: Out): seq<byte>
    requires Sound(out)
  {
    out.packet[..out.index]
  }

  /** The positions inside a record that starts at `start`. */
  datatype Layout = Layout(start: nat, header: nat, data: nat, end: nat)

  function LayoutOf(out: Out, past: byte, record: Record): Layout
    requires Sound(out) && ValidRecord(record) && AppendRecord(out, past, record).1 != 0
  {
    var named := AppendName(out, past, record.owner).0;
    Layout(out.index, named.index, named.index + HEADER_SIZE, AppendRecord(out, past, record).0.index)
  }

  lemma SentSlice(out: Out, i: nat, j: nat)
    requires Sound(out) && i <= j <= out.index
    ensures Sent(out)[i..j] == out.packet[i..j]
  {
  }

  /**
   A record that is reported at all advances the write position by exactly the number reported, keeps
   everything before it, and its fixed fields read as type, flush bit, time to live and the number of bytes of its data.
   */
  lemma RecordFramed(out: Out, past: byte, record: Record)
    requires Sound(out) && ValidRecord(record) && AppendRecord(out, past, record).1 != 0
    ensures var (done, written) := AppendRecord(out, past, record);
            var at := LayoutOf(out, past, record);
            && done.index == out.index + written && Extends(out, done)
            && at.start <= at.header && at.data < at.end
            && Extends(AppendName(out, past, record.owner).0, done)
            && FieldsRead(Sent(done), at.header, record.kind, record.flush, record.ttl, at.end - at.data)
  {
    hide AppendName, AppendData, U16, U32, FieldsRead;
    AppendKeeps(out, past, record.owner);
    var named := AppendName(out, past, record.owner).0;
    var headed := AppendHeader(named, record.kind, record.flush, record.ttl).0;
    DataKeeps(headed, past, record.data);
    var (done, length) := AppendData(headed, past, record.data);
    var n := length.value;
    var final := SetU16(done, headed.index - 2, n);
    assert Extends(named, headed);
    ExtendsThrough(named, headed, done);
    assert final.packet[..named.index] == done.packet[..named.index];
    ExtendsThrough(out, named, final);
    assert headed.packet[named.index..headed.index] == Header(record.kind, record.flush, record.ttl, 0);
    assert done.packet[named.index..headed.index] == done.packet[..headed.index][named.index..];
    assert done.packet[named.index..headed.index - 2] == headed.packet[named.index..headed.index][..8];
    assert final.packet[named.index..headed.index]
        == done.packet[named.index..headed.index - 2] + U16(n);
    SentSlice(final, named.index, headed.index);
    HeaderReads(Sent(final), named.index, record.kind, record.flush, record.ttl, n);
  }

  // ---- Skipping records ----

  function Length(packet: seq<byte>, at: nat): nat
    requires at + HEADER_SIZE <= |packet|
  {
    Word(packet, at + LENGTH_OFFSET)
  }

  /** The parser's way past the record at `at`: none if the packet is malformed. */
  function Skip(packet: seq<byte>, past: byte, at: nat): (r: Option<nat>)
    ensures r.Some? ==> at < r.value <= |packet|
  {
    match Read(packet, past, at, at, EMPTY).0
    case None => None
    case Some(header) =>
      if header + LENGTH_OFFSET + 1 >= |packet| then None
      else
        var next := header + HEADER_SIZE + Length(packet, header);
        if next > |packet| then None else Some(next)
  }

  /** The number of records from `at` to the end of the packet. */
  function Walk(packet: seq<byte>, past: byte, at: nat): Option<nat>
    decreases |packet| - at
  {
    if at >= |packet| then Some(0)
    else
      match Skip(packet, past, at)
      case None => None
      case Some(next) =>
        match Walk(packet, past, next)
        case None => None
        case Some(n) => Some(n + 1)
  }

  /** A record with a complete owner name reaches from `at` to `end`. */
  predicate Spans(bytes: seq<byte>, at: nat, end: nat) {
    && Decode(bytes, at, at).Some?
    && var header := Decode(bytes, at, at).value.1;
       header + HEADER_SIZE <= |bytes| && end == header + HEADER_SIZE + Length(bytes, header) <= |bytes|
  }

  lemma SpansStable(bytes: seq<byte>, more: seq<byte>, at: nat, end: nat)
    requires Spans(bytes, at, end) && bytes <= more
    ensures Spans(more, at, end)
  {
    DecodeStable(bytes, more, at, at);
  }

  lemma SpansSkips(bytes: seq<byte>, past: byte, at: nat, end: nat)
    requires Spans(bytes, at, end)
    ensures Skip(bytes, past, at) == Some(end)
  {
    hide Decode, Read;
    ReadDecodes(bytes, past, at, at, EMPTY);
  }

  lemma ExtendsSent(out: Out, done: Out)
    requires Extends(out, done)
    ensures Sent(out) <= Sent(done)
  {
    assert Sent(done)[..out.index] == done.packet[..out.index];
  }

  /** The owner name of the record fits, and reads back. */
  predicate Owned(out: Out, past: byte, record: Record)
    requires Sound(out) && ValidRecord(record)
  {
    Short(record.owner) && Placed(out, past, record.owner, out.index) && AppendRecord(out, past, record).1 != 0
  }

  lemma RecordSpans(out: Out, past: byte, record: Record)
    requires Sound(out) && ValidRecord(record) && Owned(out, past, record)
    ensures var done := AppendRecord(out, past, record).0; Spans(Sent(done), out.index, done.index)
  {
    hide AppendName, AppendRecord, Decode, Placed, Header;
    var done := AppendRecord(out, past, record).0;
    var named := AppendName(out, past, record.owner).0;
    var at := LayoutOf(out, past, record);
    AppendKeeps(out, past, record.owner);
    ShowsItself(out, named);
    AppendDecodes(out, past, record.owner, out.index, out.index, Sent(named));
    RecordFramed(out, past, record);
    ExtendsSent(named, done);
    DecodeStable(Sent(named), Sent(done), out.index, out.index);
  }

  function AppendRecords(out: Out, past: byte, records: seq<Record>): (r: Out)
    requires Sound(out) && forall i :: 0 <= i < |records| ==> ValidRecord(records[i])
    ensures Sound(r)
    decreases |records|
  {
    if records == [] then out else AppendRecords(AppendRecord(out, past, records[0]).0, past, records[1..])
  }

  predicate AllOwned(out: Out, past: byte, records: seq<Record>)
    requires Sound(out) && forall i :: 0 <= i < |records| ==> ValidRecord(records[i])
    decreases |records|
  {
    records == [] || (Owned(out, past, records[0]) && AllOwned(AppendRecord(out, past, records[0]).0, past, records[1..]))
  }

  lemma {:induction false} RecordsKeep(out: Out, past: byte, records: seq<Record>)
    requires Sound(out) && (forall i :: 0 <= i < |records| ==> ValidRecord(records[i])) && AllOwned(out, past, records)
    ensures Extends(out, AppendRecords(out, past, records))
    decreases |records|
  {
    hide AppendRecord;
    if records == [] {
      ExtendsItself(out);
    } else {
      var next := AppendRecord(out, past, records[0]).0;
      RecordFramed(out, past, records[0]);
      RecordsKeep(next, past, records[1..]);
      ExtendsThrough(out, next, AppendRecords(next, past, records[1..]));
    }
  }

  /** The parser's walk over records written one after the other ends exactly at the packet's end, having met each. */
  lemma {:induction false} WalkMeetsAll(out: Out, past: byte, records: seq<Record>, after: byte)
    requires Sound(out) && (forall i :: 0 <= i < |records| ==> ValidRecord(records[i])) && AllOwned(out, past, records)
    ensures Walk(Sent(AppendRecords(out, past, records)), after, out.index) == Some(|records|)
    decreases |records|
  {
    hide AppendRecord, Skip, Spans, Owned;
    if records == [] {
    } else {
      var next := AppendRecord(out, past, records[0]).0;
      RecordSpans(out, past, records[0]);
      WalkMeetsAll(next, past, records[1..], after);
      RecordsKeep(next, past, records[1..]);
      var done := AppendRecords(next, past, records[1..]);
      ExtendsSent(next, done);
      SpansStable(Sent(next), Sent(done), out.index, next.index);
      SpansSkips(Sent(done), after, out.index, next.index);
    }
  }

  // ---- Reading a record back ----

  /** The names in the data fit, and are cut short only by names that end before the length field. */
  predicate DataPlaced(out: Out, past: byte, data: Data)
    requires Sound(out) && ValidData(data) && 2 <= out.index
  {
    match data
    case Target(name) => Shape(name) && Placed(out, past, name, out.index - 2)
    case Location(priority, weight, port, host) =>
      Shape(host) && Placed(AppendU16(AppendU16(AppendU16(out, priority).0, weight).0, port).0, past, host, out.index - 2)
    case _ => true
  }

  /** The name at `at` reads as `strings` and ends at `end`. */
  predicate NameReads(bytes: seq<byte>, after: byte, at: nat, end: nat, strings: seq<Label>) {
    Read(bytes, after, at, at, EMPTY).0 == Some(end) && Matches(Read(bytes, after, at, at, EMPTY).1, strings)
  }

  /** The bytes from `at` to `end` are the data. */
  predicate DataReads(bytes: seq<byte>, after: byte, at: nat, end: nat, data: Data)
    requires ValidData(data)
  {
    && at <= end <= |bytes|
    && match data
       case Target(name) => NameReads(bytes, after, at, end, name)
       case Entries(entries) => bytes[at..end] == TxtBytes(entries)
       case Location(priority, weight, port, host) =>
         && at + 6 <= end
         && Word(bytes, at) == priority && Word(bytes, at + 2) == weight && Word(bytes, at + 4) == port
         && NameReads(bytes, after, at + 6, end, host)
       case Ip4(ip) => bytes[at..end] == ip
       case Ip6(ip) => bytes[at..end] == ip
  }

  lemma PutReads(out: Out, put: seq<byte>, bytes: seq<byte>, origin: nat)
    requires Sound(out) && out.index + |put| <= MAX_PACKET && Shows(bytes, out, Put(out, put), origin)
    ensures bytes[out.index..out.index + |put|] == put
  {
    ExtendsItself(Put(out, put));
    PutStays(out, put, Put(out, put), bytes, origin);
  }

  lemma DataBack(out: Out, past: byte, data: Data, bytes: seq<byte>, after: byte)
    requires Sound(out) && ValidData(data) && 2 <= out.index < MAX_PACKET && DataPlaced(out, past, data)
    requires AppendData(out, past, data).1.Some? && Shows(bytes, out, AppendData(out, past, data).0, out.index - 2)
    ensures DataReads(bytes, after, out.index, AppendData(out, past, data).0.index, data)
  {
    hide AppendName, Placed, Put, U16, Read, Matches, AppendEntries, TxtBytes, Shape, Shows;
    match data
    case Target(name) =>
      ShownBound(bytes, out, AppendName(out, past, name).0, out.index - 2);
      RoundTripIn(out, past, name, out.index - 2, bytes, after);
    case Entries(entries) =>
      TxtWritten(out, past, entries);
      ShownBound(bytes, out, Put(out, TxtBytes(entries)), out.index - 2);
      PutReads(out, TxtBytes(entries), bytes, out.index - 2);
    case Location(priority, weight, port, host) => LocationBack(out, past, priority, weight, port, host, bytes, after);
    case Ip4(ip) =>
      ShownBound(bytes, out, Put(out, ip), out.index - 2);
      PutReads(out, ip, bytes, out.index - 2);
    case Ip6(ip) =>
      ShownBound(bytes, out, Put(out, ip), out.index - 2);
      PutReads(out, ip, bytes, out.index - 2);
  }

  lemma ShownBound(bytes: seq<byte>, out: Out, done: Out, origin: nat)
    requires Sound(out) && Sound(done) && Shows(bytes, out, done, origin)
    ensures out.index <= done.index <= |bytes|
  {
  }

  lemma LocationBack(out: Out, past: byte, priority: nat, weight: nat, port: nat, host: seq<Label>, bytes: seq<byte>, after: byte)
    requires Sound(out) && ValidData(Location(priority, weight, port, host)) && 2 <= out.index < MAX_PACKET
    requires DataPlaced(out, past, Location(priority, weight, port, host))
    requires AppendData(out, past, Location(priority, weight, port, host)).1.Some?
    requires Shows(bytes, out, AppendData(out, past, Location(priority, weight, port, host)).0, out.index - 2)
    ensures DataReads(bytes, after, out.index, AppendData(out, past, Location(priority, weight, port, host)).0.index,
                      Location(priority, weight, port, host))
  {
    hide AppendName, Placed, Put, U16, Read, Matches, Shape, Shows, Extends, Word;
    NumbersKeep(out, priority, weight, port);
    NumbersPut(out, priority, weight, port);
    var numbers := U16(priority) + U16(weight) + U16(port);
    var o3 := Put(out, numbers);
    var done := AppendName(o3, past, host).0;
    AppendKeeps(o3, past, host);
    PutStays(out, numbers, done, bytes, out.index - 2);
    NumbersRead(bytes, out.index, priority, weight, port);
    ShownBound(bytes, o3, done, out.index - 2);
    RoundTripIn(o3, past, host, out.index - 2, bytes, after);
  }

  /** The packet up to the header of the record, and where the data is appended. */
  function Headed(out: Out, past: byte, record: Record): (r: Out)
    requires Sound(out) && ValidRecord(record)
    ensures Sound(r)
  {
    AppendHeader(AppendName(out, past, record.owner).0, record.kind, record.flush, record.ttl).0
  }

  /** Behind the owner name stand the ten bytes of the fixed fields, and the data with the names in it. */
  predicate RestReads(sent: seq<byte>, after: byte, at: Layout, record: Record)
    requires ValidRecord(record)
  {
    && at.data == at.header + 10 && at.data <= at.end == |sent|
    && FieldsRead(sent, at.header, record.kind, record.flush, record.ttl, at.end - at.data)
    && DataReads(sent, after, at.data, at.end, record.data)
  }

  lemma RestBack(out: Out, past: byte, record: Record, after: byte)
    requires Sound(out) && ValidRecord(record) && Owned(out, past, record)
    requires 2 <= Headed(out, past, record).index && DataPlaced(Headed(out, past, record), past, record.data)
    ensures RestReads(Sent(AppendRecord(out, past, record).0), after, LayoutOf(out, past, record), record)
  {
    hide AppendName, AppendData, Placed, Header, Read, Matches, Shape, DataPlaced, DataReads, NameReads, Decode, Put, FieldsRead;
    var done := AppendRecord(out, past, record).0;
    var at := LayoutOf(out, past, record);
    RecordFramed(out, past, record);
    DataShown(out, past, record);
    DataBack(Headed(out, past, record), past, record.data, Sent(done), after);
  }

  /** Everything in a record can be read back from the packet as it is sent, from the owner name on. */
  lemma RecordReadsBack(out: Out, past: byte, record: Record, after: byte)
    requires Sound(out) && ValidRecord(record) && Shape(record.owner) && Owned(out, past, record)
    requires 2 <= Headed(out, past, record).index && DataPlaced(Headed(out, past, record), past, record.data)
    ensures var sent := Sent(AppendRecord(out, past, record).0);
            var at := LayoutOf(out, past, record);
            NameReads(sent, after, at.start, at.header, record.owner) && RestReads(sent, after, at, record)
  {
    hide AppendName, AppendRecord, NameReads, RestReads, DataPlaced, Headed, Shape;
    OwnerBack(out, past, record, after);
    RestBack(out, past, record, after);
  }

  lemma SubtypeOwner(instance: Label, subtype: Label, service: Label, proto: Label, bye: bool)
    ensures SubtypePtrRecord(instance, subtype, service, proto, bye).owner == Subtyped([subtype, service, proto, LOCAL])
  {
    assert [subtype, service, proto, LOCAL][1..] == [service, proto, LOCAL];
  }

  /** So can a record owned by a subtype: its owner reads as the name without the mark for subtypes, and the mark is set. */
  lemma SubtypeRecordReadsBack(out: Out, past: byte, record: Record, strings: seq<Label>, after: byte)
    requires Sound(out) && ValidRecord(record) && Shape(strings) && |strings| == 4 && record.owner == Subtyped(strings)
    requires Owned(out, past, record)
    requires 2 <= Headed(out, past, record).index && DataPlaced(Headed(out, past, record), past, record.data)
    ensures var sent := Sent(AppendRecord(out, past, record).0);
            var at := LayoutOf(out, past, record);
            && NameReads(sent, after, at.start, at.header, strings)
            && Read(sent, after, at.start, at.start, EMPTY).1.sub
            && RestReads(sent, after, at, record)
  {
    hide AppendName, AppendRecord, RestReads, DataPlaced, Headed, Shape, Read, Placed, Matches, AppendData, ValidData, ValidRecord, Owned, Subtyped;
    SubtypeOwnerBack(out, past, record, strings, after);
    RestBack(out, past, record, after);
  }

  lemma SubtypeOwnerBack(out: Out, past: byte, record: Record, strings: seq<Label>, after: byte)
    requires Sound(out) && ValidRecord(record) && Shape(strings) && |strings| == 4 && record.owner == Subtyped(strings)
    requires Owned(out, past, record)
    ensures var named := AppendName(out, past, record.owner).0;
            var (end, name) := Read(Sent(AppendRecord(out, past, record).0), after, out.index, out.index, EMPTY);
            end == Some(named.index) && Matches(name, strings) && name.sub
  {
    hide AppendName, AppendRecord, Shape, Read, Placed, Matches, Extends, Shows;
    var named, done := AppendName(out, past, record.owner).0, AppendRecord(out, past, record).0;
    NamedKeeps(out, past, record);
    NameShown(out, named, done);
    SubtypeRoundTripIn(out, past, strings, out.index, Sent(done), after);
  }

  lemma NamedKeeps(out: Out, past: byte, record: Record)
    requires Sound(out) && ValidRecord(record) && AppendRecord(out, past, record).1 != 0
    ensures var named := AppendName(out, past, record.owner).0;
            Extends(out, named) && Extends(named, AppendRecord(out, past, record).0)
  {
    hide AppendName, AppendRecord, Header;
    AppendKeeps(out, past, record.owner);
    RecordFramed(out, past, record);
  }

  lemma OwnerBack(out: Out, past: byte, record: Record, after: byte)
    requires Sound(out) && ValidRecord(record) && Shape(record.owner) && Owned(out, past, record)
    ensures var named := AppendName(out, past, record.owner).0;
            NameReads(Sent(AppendRecord(out, past, record).0), after, out.index, named.index, record.owner)
  {
    hide AppendName, AppendRecord, Placed, Header, Read, Matches, Shape;
    var done := AppendRecord(out, past, record).0;
    var named := AppendName(out, past, record.owner).0;
    NamedKeeps(out, past, record);
    NameShown(out, named, done);
    RoundTripIn(out, past, record.owner, out.index, Sent(done), after);
  }

  lemma NameShown(out: Out, named: Out, done: Out)
    requires Extends(out, named) && Extends(named, done)
    ensures Shows(Sent(done), out, named, out.index)
  {
    var bytes := Sent(done);
    assert bytes[..named.index] == done.packet[..named.index] == named.packet[..named.index];
    assert bytes[..out.index] == bytes[..named.index][..out.index];
    assert named.packet[..out.index] == named.packet[..named.index][..out.index];
    assert bytes[out.index..named.index] == bytes[..named.index][out.index..];
    assert named.packet[out.index..named.index] == named.packet[..named.index][out.index..];
  }

  lemma DataShown(out: Out, past: byte, record: Record)
    requires Sound(out) && ValidRecord(record) && AppendRecord(out, past, record).1 != 0
    ensures var headed, done := Headed(out, past, record), AppendRecord(out, past, record).0;
            && 2 <= headed.index < MAX_PACKET && headed.index == LayoutOf(out, past, record).data
            && var (stored, length) := AppendData(headed, past, record.data);
               length.Some? && stored.index == done.index && Shows(Sent(done), headed, stored, headed.index - 2)
  {
    hide AppendName, AppendData, Header, Put, U16;
    var headed := Headed(out, past, record);
    var (stored, length) := AppendData(headed, past, record.data);
    DataKeeps(headed, past, record.data);
    var done := SetU16(stored, headed.index - 2, length.value);
    assert done.packet[..headed.index - 2] == stored.packet[..headed.index - 2];
    assert stored.packet[..headed.index][..headed.index - 2] == stored.packet[..headed.index - 2];
    assert headed.packet[..headed.index][..headed.index - 2] == headed.packet[..headed.index - 2];
    assert Sent(done)[..headed.index - 2] == done.packet[..headed.index - 2];
    assert Sent(done)[headed.index..stored.index] == done.packet[headed.index..stored.index];
  }
}
