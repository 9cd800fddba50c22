/**
 The packet buffer as the responder fills it: bytes written in place through a moving index. Every
 method is proved against the functions of MdnsName, MdnsCompress and MdnsRecord.
 */
module MdnsPacket {
  import opened Common
  import opened MdnsName
  import opened MdnsCompress
  import opened MdnsRecord

  class Packet {
    const bytes: array<byte>
    /** What lies in memory behind the buffer. */
    const past: byte
    var index: nat

    ghost predicate Valid()
      reads this, bytes
    {
      bytes.Length == MAX_PACKET && index <= MAX_PACKET
    }

    ghost function View(): (r: Out)
      requires Valid()
      reads this, bytes
      ensures Sound(r)
    {
      Out(bytes[..], index)
    }

    /** A packet with an empty header; what follows is left as it was found. */
    constructor (contents: seq<byte>, past: byte)
      requires |contents| == MAX_PACKET
      ensures Valid() && fresh(bytes) && this.past == past
      ensures View() == Out(seq(12, _ => 0) + contents[12..], 12)
    {
      var b := new byte[MAX_PACKET](i requires 0 <= i < MAX_PACKET => if i < 12 then 0 else contents[i]);
      this.bytes := b;
      this.past := past;
      this.index := 12;
      new;
      assert bytes[..] == seq(12, _ => 0) + contents[12..];
    }

    /** Bytes stored at the write position. */
    method Store(data: seq<byte>)
      requires Valid() && index + |data| <= MAX_PACKET
      modifies this`index, bytes
      ensures Valid() && View() == Put(old(View()), data)
    {
      ghost var before := bytes[..];
      for i := 0 to |data|
        invariant index == old(index)
        invariant bytes[..] == before[..index] + data[..i] + before[index + i..]
      {
        bytes[index + i] := data[i];
      }
      index := index + |data|;
      assert data[..|data|] == data;
    }

    method StoreU8(value: byte) returns (written: nat)
      requires Valid()
      modifies this`index, bytes
      ensures Valid() && (View(), written) == AppendU8(old(View()), value)
    {
      if index >= MAX_PACKET {
        return 0;
      }
      Store([value]);
      return 1;
    }

    method StoreU16(value: nat) returns (written: nat)
      requires Valid() && value < 0x10000
      modifies this`index, bytes
      ensures Valid() && (View(), written) == AppendU16(old(View()), value)
    {
      if index + 1 >= MAX_PACKET {
        return 0;
      }
      var w := StoreU8((value / 256) as byte);
      w := StoreU8((value % 256) as byte);
      PutTwice(old(View()), [(value / 256) as byte], [(value % 256) as byte]);
      assert [(value / 256) as byte] + [(value % 256) as byte] == U16(value);
      return 2;
    }

    method PatchU16(at: nat, value: nat)
      requires Valid() && at + 2 <= index && value < 0x10000
      modifies bytes
      ensures Valid() && View() == SetU16(old(View()), at, value)
    {
      if at + 1 >= MAX_PACKET {
        return;
      }
      bytes[at] := (value / 256) as byte;
      bytes[at + 1] := (value % 256) as byte;
      assert bytes[..] == old(bytes[..])[..at] + U16(value) + old(bytes[..])[at + 2..];
    }

    method StoreString(text: seq<byte>) returns (written: nat)
      requires Valid() && |text| < 256
      modifies this`index, bytes
      ensures Valid() && (View(), written) == AppendString(old(View()), text)
    {
      if index + |text| + 1 >= MAX_PACKET {
        return 0;
      }
      var w := StoreU8(|text| as byte);
      Store(text);
      PutTwice(old(View()), [|text| as byte], text);
      return |text| + 1;
    }

    /** The label of `len` bytes at `at`, none if the packet ends before. */
    method ReadLabel(at: nat, len: nat) returns (part: Option<Label>)
      requires Valid() && at <= MAX_PACKET
      ensures part == if at + len > MAX_PACKET then None else Some(bytes[..][at..at + len])
    {
      var text := [];
      for i := 0 to len
        invariant at + i <= MAX_PACKET && text == bytes[at..at + i]
      {
        if at + i >= bytes.Length {
          return None;
        }
        text := text + [bytes[at + i]];
      }
      return Some(text);
    }

    /** One label taken into the name. */
    static method TakeLabel(name0: Name, part: Label) returns (name: Name)
      requires Wellformed(name0)
      ensures name == Accept(name0, part)
    {
      name := name0;
      if name.parts == 4 {
        name := name.(invalid := true);
      }
      var text := Cut(part);
      if name.parts == 1 && ExtendsHost(text) {
        var host := Concat(name.fields[0], [DOT]);
        host := Concat(host, text);
        name := name.(fields := name.fields[0 := host]);
      } else if Same(text, SUB) {
        name := name.(sub := true);
      } else if !name.invalid {
        name := name.(fields := name.fields[name.parts := text], parts := name.parts + 1);
      }
    }

    /**
     The name at `start` read into `name`: where it ends, or none on error. A pointer is followed by
     a recursive call into the same name.
     */
    method ReadName(start: nat, name0: Name) returns (end: Option<nat>, name: Name)
      requires Valid() && Wellformed(name0)
      ensures (end, name) == Read(bytes[..], past, start, start, name0)
      decreases start
    {
      hide Accept;
      var at := start;
      name := name0;
      while at < bytes.Length && bytes[at] != 0
        invariant at >= start && Wellformed(name)
        invariant Read(bytes[..], past, start, at, name) == Read(bytes[..], past, start, start, name0)
        decreases bytes.Length - at
      {
        var len := bytes[at];
        at := at + 1;
        if len < 0xC0 {
          if len > 63 {
            return None, Marked(name);
          }
          var part := ReadLabel(at, len as nat);
          if part.None? {
            return None, Marked(name);
          }
          name := TakeLabel(name, part.value);
          at := at + len as nat;
        } else {
          var low := past;
          if at < bytes.Length {
            low := bytes[at];
          }
          at := at + 1;
          var address := Address(len, low);
          if address >= start {
            return None, Marked(name);
          }
          var target;
          target, name := ReadName(address, Marked(name));
          if target.Some? {
            return Some(at), name;
          }
          return None, name;
        }
      }
      return Some(at + 1), name;
    }

    /** The first byte equal to `value` at or behind `from` and before the write position. */
    method FindByte(from: nat, value: byte) returns (at: Option<nat>)
      requires Valid() && from <= index
      ensures match at
              case None => forall q :: from <= q < index ==> bytes[q] != value
              case Some(p) => from <= p < index && bytes[p] == value && forall q :: from <= q < p ==> bytes[q] != value
    {
      for i := from to index
        invariant forall q :: from <= q < i ==> bytes[q] != value
      {
        if bytes[i] == value {
          return Some(i);
        }
      }
      return None;
    }

    lemma NoHitBefore(from: nat, to: nat, strings: seq<Label>)
      requires Valid() && strings != [] && Texts(strings) && from <= to <= index
      requires forall q :: from <= q < to ==> !Hit(bytes[..], past, q, strings)
      ensures Search(bytes[..], past, from, index, strings) == Search(bytes[..], past, to, index, strings)
    {
      hide Hit;
      var i := to;
      while i > from
        invariant from <= i <= to
        invariant Search(bytes[..], past, i, index, strings) == Search(bytes[..], past, to, index, strings)
      {
        i := i - 1;
        assert !Hit(bytes[..], past, i, strings);
      }
    }

    /** Whether the name read back is the one given by `strings`. */
    method Agrees(name: Name, strings: seq<Label>) returns (same: bool)
      requires |name.fields| == 4
      ensures same == Matches(name, strings)
    {
      if name.parts != |strings| || |strings| > 4 {
        return false;
      }
      for i := 0 to |strings|
        invariant forall j :: 0 <= j < i ==> Same(strings[j], name.fields[j])
      {
        if !Same(strings[i], name.fields[i]) {
          return false;
        }
      }
      return true;
    }

    /** Whether the whole name can be found at `at`, where a byte equal to the first length is. */
    method FoundAt(at: nat, strings: seq<Label>) returns (hit: bool)
      requires Valid() && strings != [] && Texts(strings) && at < index && bytes[at] as int == |strings[0]|
      ensures hit == Hit(bytes[..], past, at, strings)
    {
      hide Read, Matches;
      var text := ReadLabel(at + 1, |strings[0]|);
      if text != Some(strings[0]) {
        return false;
      }
      var end, name := ReadName(at, EMPTY);
      if end.None? {
        return false;
      }
      hit := Agrees(name, strings);
    }

    /** The first place before the write position where the name can be pointed to. */
    method FindName(strings: seq<Label>) returns (location: Option<nat>)
      requires Valid() && strings != [] && Texts(strings)
      ensures location == Search(bytes[..], past, 0, index, strings)
    {
      hide Hit, Search;
      var len := |strings[0]| as byte;
      var p := FindByte(0, len);
      NotAt(0, p, strings);
      while p.Some?
        invariant p.Some? ==> p.value < index && bytes[p.value] == len
        invariant Search(bytes[..], past, 0, index, strings)
               == Search(bytes[..], past, if p.Some? then p.value else index, index, strings)
        decreases if p.Some? then index - p.value else 0
      {
        var at := p.value;
        var hit := FoundAt(at, strings);
        SearchStep(bytes[..], past, at, index, strings);
        if hit {
          return p;
        }
        p := FindByte(at + 1, len);
        NotAt(at + 1, p, strings);
      }
      SearchStep(bytes[..], past, index, index, strings);
      return None;
    }

    lemma NotAt(from: nat, p: Option<nat>, strings: seq<Label>)
      requires Valid() && strings != [] && Texts(strings) && from <= index
      requires match p
               case None => forall q :: from <= q < index ==> bytes[q] as int != |strings[0]|
               case Some(p) => from <= p < index && forall q :: from <= q < p ==> bytes[q] as int != |strings[0]|
      ensures Search(bytes[..], past, from, index, strings)
           == Search(bytes[..], past, if p.Some? then p.value else index, index, strings)
    {
      forall q | from <= q < (if p.Some? then p.value else index) ensures !Hit(bytes[..], past, q, strings) {
        hide Read, Matches;
        assert bytes[..][q] == bytes[q];
      }
      NoHitBefore(from, if p.Some? then p.value else index, strings);
    }

    /** A name appended, with a pointer in place of a suffix that is already in the packet. */
    method StoreName(strings: seq<Label>) returns (written: nat)
      requires Valid() && Texts(strings)
      modifies this`index, bytes
      ensures Valid() && (View(), written) == AppendName(old(View()), past, strings)
      decreases |strings|
    {
      hide Hit, Put, Search;
      if strings == [] {
        written := StoreU8(0);
        return;
      }
      var location := FindName(strings);
      if location.None? {
        written := StoreString(strings[0]);
        if written == 0 {
          return;
        }
        var rest := StoreName(strings[1..]);
        return written + rest;
      }
      written := StoreU16(Pointer(location.value));
    }

    // ---- Records ----

    method StoreU32(value: nat) returns (written: nat)
      requires Valid() && value < 0x1_0000_0000
      modifies this`index, bytes
      ensures Valid() && (View(), written) == if old(index) + 3 >= MAX_PACKET then (old(View()), 0) else (Put(old(View()), U32(value)), 4)
    {
      hide U16;
      if index + 3 >= MAX_PACKET {
        return 0;
      }
      var w := StoreU16(value / 0x10000);
      w := StoreU16(value % 0x10000);
      PutTwice(old(View()), U16(value / 0x10000), U16(value % 0x10000));
      return 4;
    }

    method StoreHeader(kind: nat, flush: bool, ttl: nat) returns (written: nat)
      requires Valid() && kind < 0x10000 && ttl < 0x1_0000_0000
      modifies this`index, bytes
      ensures Valid() && (View(), written) == AppendHeader(old(View()), kind, flush, ttl)
    {
      hide U16, U32, Put;
      if index + HEADER_SIZE >= MAX_PACKET {
        return 0;
      }
      var class_ := if flush then CLASS_IN_FLUSH else CLASS_IN;
      ghost var start := View();
      var w := StoreU16(kind);
      w := StoreU16(class_);
      PutTwice(start, U16(kind), U16(class_));
      w := StoreU32(ttl);
      PutTwice(start, U16(kind) + U16(class_), U32(ttl));
      w := StoreU16(0);
      PutTwice(start, U16(kind) + U16(class_) + U32(ttl), U16(0));
      return HEADER_SIZE;
    }

    /** A name stored; its length is kept in eight bits, which loses nothing. */
    method StorePart(strings: seq<Label>) returns (part: nat)
      requires Valid() && Texts(strings) && Size(strings) < 256
      modifies this`index, bytes
      ensures Valid() && (View(), part) == AppendName(old(View()), past, strings)
      ensures part < 256 && index == old(index) + part
    {
      hide AppendName;
      ghost var start := View();
      part := StoreName(strings);
      WrittenBound(start, past, strings);
      AppendKeeps(start, past, strings);
      part := part % 256;
    }

    method StorePtr(instance: Label, service: Label, proto: Label, bye: bool) returns (length: nat)
      requires Valid() && Text(instance) && Text(service) && Text(proto)
      modifies this`index, bytes
      ensures Valid() && ValidRecord(PtrRecord(instance, service, proto, bye))
      ensures (View(), length) == AppendRecord(old(View()), past, PtrRecord(instance, service, proto, bye))
    {
      hide AppendName, Put, U16, Size, Header;
      RecordsValid(instance, service, proto, proto, [], [0, 0, 0, 0], seq(16, _ => 0), 0, 0, 0, false, bye);
      var strings := [instance, service, proto, LOCAL];
      assert strings[1..] == [service, proto, LOCAL];
      var part := StorePart(strings[1..]);
      if part == 0 {
        return 0;
      }
      length := part;
      part := StoreHeader(TYPE_PTR, false, if bye then 0 else TTL_LONG);
      if part == 0 {
        return 0;
      }
      length := length + part;
      var at := index - 2;
      part := StorePart(strings);
      if part == 0 {
        return 0;
      }
      PatchU16(at, part);
      return length + part;
    }

    method StoreSubtypePtr(instance: Label, subtype: Label, service: Label, proto: Label, bye: bool) returns (length: nat)
      requires Valid() && Text(instance) && Text(subtype) && Text(service) && Text(proto)
      modifies this`index, bytes
      ensures Valid() && ValidRecord(SubtypePtrRecord(instance, subtype, service, proto, bye))
      ensures (View(), length) == AppendRecord(old(View()), past, SubtypePtrRecord(instance, subtype, service, proto, bye))
    {
      hide AppendName, Put, U16, Size, Header;
      RecordsValid(instance, service, proto, subtype, [], [0, 0, 0, 0], seq(16, _ => 0), 0, 0, 0, false, bye);
      var part := StorePart([subtype, SUB, service, proto, LOCAL]);
      if part == 0 {
        return 0;
      }
      length := part;
      part := StoreHeader(TYPE_PTR, false, if bye then 0 else TTL_LONG);
      if part == 0 {
        return 0;
      }
      length := length + part;
      var at := index - 2;
      part := StorePart([instance, service, proto, LOCAL]);
      if part == 0 {
        return 0;
      }
      PatchU16(at, part);
      return length + part;
    }

    /** The length of the owner name is added without looking whether it was written. */
    method StoreSdPtr(service: Label, proto: Label, flush: bool) returns (length: nat)
      requires Valid() && Text(service) && Text(proto)
      modifies this`index, bytes
      ensures Valid() && ValidRecord(SdPtrRecord(service, proto, flush))
      ensures (View(), length) == AppendRecord(old(View()), past, SdPtrRecord(service, proto, flush))
    {
      hide AppendName, Put, U16, Size, Header;
      RecordsValid(service, service, proto, proto, [], [0, 0, 0, 0], seq(16, _ => 0), 0, 0, 0, flush, false);
      var part := StorePart([SERVICES, DNS_SD, UDP, LOCAL]);
      length := part;
      part := StoreHeader(TYPE_PTR, flush, TTL_LONG);
      if part == 0 {
        return 0;
      }
      length := length + part;
      var at := index - 2;
      part := StorePart([service, proto, LOCAL]);
      if part == 0 {
        return 0;
      }
      PatchU16(at, part);
      return length + part;
    }

    method StoreEntry(entry: TxtEntry) returns (length: nat)
      requires Valid()
      modifies this`index, bytes
      ensures Valid() && (View(), length) == AppendEntry(old(View()), entry)
    {
      hide Put;
      var len := |entry.key| + (if entry.value.Some? then |entry.value.value| + 1 else 0);
      if index + len + 1 >= MAX_PACKET {
        return 0;
      }
      ghost var start := View();
      var w := StoreU8((len % 256) as byte);
      Store(entry.key);
      PutTwice(start, [(len % 256) as byte], entry.key);
      if entry.value.Some? {
        Store([EQUALS]);
        PutTwice(start, [(len % 256) as byte] + entry.key, [EQUALS]);
        Store(entry.value.value);
        PutTwice(start, [(len % 256) as byte] + entry.key + [EQUALS], entry.value.value);
        assert [(len % 256) as byte] + entry.key + [EQUALS] + entry.value.value == [(len % 256) as byte] + EntryText(entry);
      } else {
        assert entry.key + [] == entry.key;
      }
      return len + 1;
    }

    method StoreEntries(entries: seq<TxtEntry>) returns (length: Option<nat>)
      requires Valid()
      modifies this`index, bytes
      ensures Valid() && (View(), length) == AppendEntries(old(View()), entries)
    {
      hide AppendEntry;
      var total := 0;
      ghost var start := View();
      for i := 0 to |entries|
        invariant Valid()
        invariant AppendEntries(start, entries) == Continued(AppendEntries(View(), entries[i..]), total)
      {
        assert entries[i..][1..] == entries[i + 1..];
        var l := StoreEntry(entries[i]);
        if l == 0 {
          return None;
        }
        total := total + l;
      }
      return Some(total);
    }

    static function Continued(rest: (Out, Option<nat>), total: nat): (Out, Option<nat>) {
      (rest.0, if rest.1.Some? then Some(total + rest.1.value) else None)
    }

    method StoreTxt(instance: Option<Label>, service: Label, proto: Label, entries: seq<TxtEntry>, flush: bool, bye: bool) returns (length: nat)
      requires Valid() && Text(instance.GetOr([])) && Text(service) && Text(proto)
      modifies this`index, bytes
      ensures Valid() && ValidRecord(TxtRecord(instance.GetOr([]), service, proto, entries, flush, bye))
      ensures (View(), length) ==
        if instance.None? then (old(View()), 0)
        else AppendRecord(old(View()), past, TxtRecord(instance.GetOr([]), service, proto, entries, flush, bye))
    {
      hide AppendName, Put, U16, Size, Header, AppendEntry;
      RecordsValid(instance.GetOr([]), service, proto, proto, entries, [0, 0, 0, 0], seq(16, _ => 0), 0, 0, 0, flush, bye);
      if instance.None? {
        return 0;
      }
      var part := StorePart([instance.value, service, proto, LOCAL]);
      if part == 0 {
        return 0;
      }
      length := part;
      part := StoreHeader(TYPE_TXT, flush, if bye then 0 else TTL_LONG);
      if part == 0 {
        return 0;
      }
      length := length + part;
      var at := index - 2;
      EntriesKeep(View(), entries);
      var data := StoreEntries(entries);
      if data.None? {
        return 0;
      }
      var dataLen := data.value;
      if dataLen == 0 {
        dataLen := 1;
        Store([0]);
      }
      PatchU16(at, dataLen);
      return length + dataLen;
    }

    method StoreNumbers(a: nat, b: nat, c: nat) returns (written: nat)
      requires Valid() && a < 0x10000 && b < 0x10000 && c < 0x10000
      modifies this`index, bytes
      ensures Valid() && index == old(index) + written
      ensures var (o1, w1) := AppendU16(old(View()), a);
              var (o2, w2) := AppendU16(o1, b);
              var (o3, w3) := AppendU16(o2, c);
              View() == o3 && written == w1 + w2 + w3
    {
      hide AppendU16;
      NumbersKeep(View(), a, b, c);
      var w1 := StoreU16(a);
      var w2 := StoreU16(b);
      var w3 := StoreU16(c);
      return w1 + w2 + w3;
    }

    method StoreSrv(instance: Option<Label>, service: Label, proto: Label, priority: nat, weight: nat, port: nat,
                    host: Label, flush: bool, bye: bool) returns (length: nat)
      requires Valid() && Text(instance.GetOr([])) && Text(service) && Text(proto) && Text(host)
            && priority < 0x10000 && weight < 0x10000 && port < 0x10000
      modifies this`index, bytes
      ensures Valid() && ValidRecord(SrvRecord(instance.GetOr([]), service, proto, priority, weight, port, host, flush, bye))
      ensures (View(), length) ==
        if instance.None? then (old(View()), 0)
        else AppendRecord(old(View()), past, SrvRecord(instance.GetOr([]), service, proto, priority, weight, port, host, flush, bye))
    {
      hide AppendName, Put, U16, Size, Header, AppendU16;
      RecordsValid(instance.GetOr([]), service, proto, host, [], [0, 0, 0, 0], seq(16, _ => 0), priority, weight, port, flush, bye);
      if instance.None? {
        return 0;
      }
      var part := StorePart([instance.value, service, proto, LOCAL]);
      if part == 0 {
        return 0;
      }
      length := part;
      part := StoreHeader(TYPE_SRV, flush, if bye then 0 else TTL_HOST);
      if part == 0 {
        return 0;
      }
      length := length + part;
      var at := index - 2;
      part := StoreNumbers(priority, weight, port);
      if part != 6 {
        return 0;
      }
      if host == [] {
        return 0;
      }
      part := StorePart([host, LOCAL]);
      if part == 0 {
        return 0;
      }
      PatchU16(at, part + 6);
      return length + part + 6;
    }

    method StoreA(host: Label, ip: nat, flush: bool, bye: bool) returns (length: nat)
      requires Valid() && Text(host) && ip < 0x1_0000_0000
      modifies this`index, bytes
      ensures Valid() && ValidRecord(ARecord(host, IpBytes(ip), flush, bye))
      ensures (View(), length) == if host == [] then (old(View()), 0) else AppendRecord(old(View()), past, ARecord(host, IpBytes(ip), flush, bye))
    {
      hide AppendName, Put, U16, Size, Header, IpBytes;
      RecordsValid(host, host, host, host, [], IpBytes(ip), seq(16, _ => 0), 0, 0, 0, flush, bye);
      if host == [] {
        return 0;
      }
      var part := StorePart([host, LOCAL]);
      if part == 0 {
        return 0;
      }
      length := part;
      part := StoreHeader(TYPE_A, flush, if bye then 0 else TTL_HOST);
      if part == 0 {
        return 0;
      }
      length := length + part;
      var at := index - 2;
      if index + 3 >= MAX_PACKET {
        return 0;
      }
      StoreIp(ip);
      PatchU16(at, 4);
      return length + 4;
    }

    method StoreIp(ip: nat)
      requires Valid() && index + 4 <= MAX_PACKET && ip < 0x1_0000_0000
      modifies this`index, bytes
      ensures Valid() && View() == Put(old(View()), IpBytes(ip))
    {
      hide Put;
      ghost var start := View();
      var w := StoreU8((ip % 256) as byte);
      w := StoreU8((ip / 0x100 % 256) as byte);
      PutTwice(start, IpBytes(ip)[..1], IpBytes(ip)[1..2]);
      w := StoreU8((ip / 0x10000 % 256) as byte);
      PutTwice(start, IpBytes(ip)[..2], IpBytes(ip)[2..3]);
      w := StoreU8((ip / 0x1000000 % 256) as byte);
      PutTwice(start, IpBytes(ip)[..3], IpBytes(ip)[3..]);
      assert IpBytes(ip)[..1] == [(ip % 256) as byte] && IpBytes(ip)[1..2] == [(ip / 0x100 % 256) as byte];
      assert IpBytes(ip)[2..3] == [(ip / 0x10000 % 256) as byte] && IpBytes(ip)[3..] == [(ip / 0x1000000 % 256) as byte];
      assert IpBytes(ip)[..1] + IpBytes(ip)[1..2] == IpBytes(ip)[..2];
      assert IpBytes(ip)[..2] + IpBytes(ip)[2..3] == IpBytes(ip)[..3];
      assert IpBytes(ip)[..3] + IpBytes(ip)[3..] == IpBytes(ip);
    }

    method StoreAaaa(host: Label, ip: seq<byte>, flush: bool, bye: bool) returns (length: nat)
      requires Valid() && Text(host) && |ip| == 16
      modifies this`index, bytes
      ensures Valid() && ValidRecord(AaaaRecord(host, ip, flush, bye))
      ensures (View(), length) == if host == [] then (old(View()), 0) else AppendRecord(old(View()), past, AaaaRecord(host, ip, flush, bye))
    {
      hide AppendName, Put, U16, Size, Header;
      RecordsValid(host, host, host, host, [], [0, 0, 0, 0], ip, 0, 0, 0, flush, bye);
      if host == [] {
        return 0;
      }
      var part := StorePart([host, LOCAL]);
      if part == 0 {
        return 0;
      }
      length := part;
      part := StoreHeader(TYPE_AAAA, flush, if bye then 0 else TTL_HOST);
      if part == 0 {
        return 0;
      }
      length := length + part;
      var at := index - 2;
      if index + 16 > MAX_PACKET {
        return 0;
      }
      Store(ip);
      PatchU16(at, 16);
      return length + 16;
    }
  }
}
