/** The link protocol itself: packages that own their bytes, and the encoder and decoder over byte buffers. */
module Titanium {
  import opened Common
  import opened Crc
  import opened TitaniumBytes
  import opened TitaniumSpec

  class TitaniumPackage {
    const size: nat
    const uuid: bv32
    const address: nat
    const memoryArea: bv8
    const data: array<bv8>

    ghost predicate Valid() {
      size < 0x10000 && address < 0x10000 && data.Length == size
    }

    ghost function View(): (c: Content)
      requires Valid()
      reads data
      ensures ValidContent(c) && |c.payload| == size
    {
      Content(uuid, address, memoryArea, data[..])
    }

    /** A package holds its own copy of `source`; `uuid` is drawn at random by the caller's generator. */
    constructor (size: nat, address: nat, memoryArea: bv8, source: seq<bv8>, uuid: bv32)
      requires size < 0x10000 && address < 0x10000 && |source| == size
      ensures Valid() && fresh(data)
      ensures View() == Content(uuid, address, memoryArea, source) && this.size == size
    {
      this.size := size;
      this.address := address;
      this.memoryArea := memoryArea;
      this.uuid := uuid;
      var own := new bv8[size];
      this.data := own;
      new;
      for i := 0 to size
        invariant own == data && own[..i] == source[..i]
      {
        own[i] := source[i];
      }
    }

    /** The payload copied to `offset` in the caller's buffer; zero when there is nothing to copy. */
    method Consume(buffer: array<bv8>, offset: nat) returns (copied: nat)
      requires Valid() && offset + size <= buffer.Length && buffer != data
      modifies buffer
      ensures copied == size
      ensures forall k :: 0 <= k < size ==> buffer[offset + k] == data[k]
      ensures forall i :: 0 <= i < buffer.Length && !(offset <= i < offset + size) ==> buffer[i] == old(buffer[i])
    {
      if size == 0 {
        return 0;
      }
      for i := 0 to size
        invariant forall k :: 0 <= k < i ==> buffer[offset + k] == data[k]
        invariant forall k :: 0 <= k < buffer.Length && !(offset <= k < offset + i) ==> buffer[k] == old(buffer[k])
      {
        buffer[offset + i] := data[i];
      }
      return size;
    }
  }

  /** Four bytes of `x` at `offset`, lowest first. */
  method StoreWord(buffer: array<bv8>, offset: nat, x: bv32)
    requires offset + 4 <= buffer.Length
    modifies buffer
    ensures buffer[offset..offset + 4] == Bytes(x)
    ensures forall i :: 0 <= i < buffer.Length && !(offset <= i < offset + 4) ==> buffer[i] == old(buffer[i])
  {
    buffer[offset] := (x & 0xFF) as bv8;
    buffer[offset + 1] := ((x >> 8) & 0xFF) as bv8;
    buffer[offset + 2] := ((x >> 16) & 0xFF) as bv8;
    buffer[offset + 3] := ((x >> 24) & 0xFF) as bv8;
  }

  method StoreShort(buffer: array<bv8>, offset: nat, x: nat)
    requires offset + 2 <= buffer.Length && x < 0x10000
    modifies buffer
    ensures buffer[offset] == Low(x) && buffer[offset + 1] == High(x)
    ensures forall i :: 0 <= i < buffer.Length && !(offset <= i < offset + 2) ==> buffer[i] == old(buffer[i])
  {
    buffer[offset] := Low(x);
    buffer[offset + 1] := High(x);
  }

  /** The frame of a package at the front of `buffer`; nothing when there is no buffer or it is too small. */
  method Encode(package: TitaniumPackage, buffer: array?<bv8>, size: nat) returns (written: nat)
    requires package.Valid() && size < 0x10000
    requires buffer != null ==> size <= buffer.Length && buffer != package.data
    modifies buffer
    ensures if buffer == null then written == 0
            else if size < package.size + OVERHEAD then written == 0 && buffer[..] == old(buffer[..])
            else written == package.size + OVERHEAD && buffer[..] == Frame(package.View()) + old(buffer[written..])
  {
    hide Low, High, Bytes, Crc32, Prefix, Frame;
    if buffer == null {
      return 0;
    }
    var n := package.size;
    if size < n + OVERHEAD {
      return 0;
    }
    EncodeFields(package, buffer);
    ghost var prefix := buffer[..PAYLOAD + n];
    assert buffer[0..0 + (PAYLOAD + n)] == prefix;
    var crc := CalculatedCrc32(buffer, 0, PAYLOAD + n);
    StoreWord(buffer, PAYLOAD + n, crc);
    assert buffer[..PAYLOAD + n] == prefix;
    FrameStored(buffer[..], package.View());
    assert buffer[n + OVERHEAD..] == old(buffer[n + OVERHEAD..]);
    return n + OVERHEAD;
  }

  /** Everything but the checksum. */
  method EncodeFields(package: TitaniumPackage, buffer: array<bv8>)
    requires package.Valid() && package.size + OVERHEAD <= buffer.Length && buffer != package.data
    modifies buffer
    ensures buffer[..PAYLOAD + package.size] == Prefix(package.View())
    ensures buffer[PAYLOAD + package.size + 4] == END_BYTE
    ensures forall i :: package.size + OVERHEAD <= i < buffer.Length ==> buffer[i] == old(buffer[i])
  {
    hide Low, High, Bytes, Crc32, Prefix;
    var n := package.size;
    buffer[0] := START_BYTE;
    buffer[AREA] := package.memoryArea;
    buffer[PAYLOAD + n + 4] := END_BYTE;
    var copied := package.Consume(buffer, PAYLOAD);
    StoreWord(buffer, UUID, package.uuid);
    StoreShort(buffer, LENGTH, n);
    StoreShort(buffer, ADDRESS, package.address);
    assert buffer[UUID..UUID + 4] == Bytes(package.uuid);
    PrefixStored(buffer[..], package.View());
  }

  lemma PrefixStored(b: seq<bv8>, c: Content)
    requires ValidContent(c) && PAYLOAD + |c.payload| <= |b|
    requires b[0] == START_BYTE && b[UUID..UUID + 4] == Bytes(c.uuid) && b[AREA] == c.area
    requires b[LENGTH] == Low(|c.payload|) && b[LENGTH + 1] == High(|c.payload|)
    requires b[ADDRESS] == Low(c.address) && b[ADDRESS + 1] == High(c.address)
    requires forall k :: 0 <= k < |c.payload| ==> b[PAYLOAD + k] == c.payload[k]
    ensures b[..PAYLOAD + |c.payload|] == Prefix(c)
  {
    hide Low, High, Bytes;
    var n := |c.payload|;
    assert b[PAYLOAD..PAYLOAD + n] == c.payload;
    assert b[LENGTH..PAYLOAD] == [Low(n), High(n), c.area, Low(c.address), High(c.address)];
    assert b[..PAYLOAD + n] == [b[0]] + b[UUID..UUID + 4] + b[LENGTH..PAYLOAD] + b[PAYLOAD..PAYLOAD + n];
  }

  lemma FrameStored(b: seq<bv8>, c: Content)
    requires ValidContent(c) && OVERHEAD + |c.payload| <= |b|
    requires b[..PAYLOAD + |c.payload|] == Prefix(c)
    requires b[PAYLOAD + |c.payload|..PAYLOAD + |c.payload| + 4] == Bytes(Crc32(Prefix(c)))
    requires b[PAYLOAD + |c.payload| + 4] == END_BYTE
    ensures b == Frame(c) + b[OVERHEAD + |c.payload|..]
  {
    hide Prefix, Bytes, Crc32;
    var m := PAYLOAD + |c.payload|;
    assert b == b[..m] + b[m..m + 4] + [b[m + 4]] + b[m + 5..];
  }

  // ---- Reading fields ----

  method StarByteOffset(buffer: array<bv8>, size: nat) returns (offset: nat)
    requires size <= buffer.Length && size < 0x10000
    ensures offset == StartOffset(buffer[..], 0, size)
  {
    for i := 0 to size
      invariant StartOffset(buffer[..], 0, size) == StartOffset(buffer[..], i, size)
    {
      if buffer[i] == START_BYTE {
        return i;
      }
    }
    return NO_START;
  }

  function Or(a: bv8, b: bv8, c: bv8, d: bv8): bv32 {
    a as bv32 | (b as bv32 << 8) | (c as bv32 << 16) | (d as bv32 << 24)
  }

  lemma JoinOr(a: bv8, b: bv8, c: bv8, d: bv8)
    ensures Join(Join(Join(Join(0, d), c), b), a) == Or(a, b, c, d)
  {
  }

  lemma WordIsOr(w: seq<bv8>)
    requires |w| == 4
    ensures Word(w) == Or(w[0], w[1], w[2], w[3])
  {
    hide Join, Or;
    assert w[1..] == [w[1], w[2], w[3]] && w[1..][1..] == [w[2], w[3]] && w[1..][1..][1..] == [w[3]];
    assert w[1..][1..][1..][1..] == [];
    assert Word(w[1..][1..][1..]) == Join(0, w[3]);
    assert Word(w[1..][1..]) == Join(Join(0, w[3]), w[2]);
    assert Word(w[1..]) == Join(Join(Join(0, w[3]), w[2]), w[1]);
    JoinOr(w[0], w[1], w[2], w[3]);
  }

  method GetUuid(buffer: array<bv8>, start: nat, remaining: int) returns (uuid: bv32)
    requires start + PAYLOAD <= buffer.Length
    ensures uuid == Uuid(buffer[..], start, remaining)
  {
    hide Or, Word;
    if Uint16(remaining) - 4 <= 0 {
      return 0xFFFFFFF7;
    }
    WordIsOr(buffer[..][start + UUID..start + LENGTH]);
    return Or(buffer[start + UUID], buffer[start + UUID + 1], buffer[start + UUID + 2], buffer[start + UUID + 3]);
  }

  method GetPayloadLength(buffer: array<bv8>, start: nat, remaining: int) returns (length: nat)
    requires start + PAYLOAD <= buffer.Length
    ensures length == PayloadLength(buffer[..], start, remaining)
  {
    if Uint16(remaining) <= 0 {
      return 0xFFFE;
    }
    return Number(buffer[start + LENGTH], buffer[start + LENGTH + 1]);
  }

  method GetMemoryArea(buffer: array<bv8>, start: nat, remaining: int) returns (area: bv8)
    requires start + PAYLOAD <= buffer.Length
    ensures area == MemoryArea(buffer[..], start, remaining)
  {
    if Uint16(remaining) <= 0 {
      return 0xFC;
    }
    return buffer[start + AREA];
  }

  method GetAddress(buffer: array<bv8>, start: nat, remaining: int) returns (address: nat)
    requires start + PAYLOAD <= buffer.Length
    ensures address == Address(buffer[..], start, remaining)
  {
    if Uint16(remaining) <= 0 {
      return 0xFFFB;
    }
    return Number(buffer[start + ADDRESS], buffer[start + ADDRESS + 1]);
  }

  method GetCrc(buffer: array<bv8>, start: nat, length: nat, remaining: int) returns (crc: bv32)
    requires start + OVERHEAD + length <= buffer.Length
    ensures crc == Checksum(buffer[..], start, length, remaining)
  {
    hide Or, Word;
    if Uint16(remaining) <= 0 {
      return 0xFFFFFFFB;
    }
    var at := start + PAYLOAD + length;
    WordIsOr(buffer[..][at..at + 4]);
    return Or(buffer[at], buffer[at + 1], buffer[at + 2], buffer[at + 3]);
  }

  method GetEndByte(buffer: array<bv8>, start: nat, length: nat, remaining: int) returns (end: bv8)
    requires start + OVERHEAD + length <= buffer.Length
    ensures end == EndByte(buffer[..], start, length, remaining)
  {
    if Uint16(remaining) <= 0 {
      return 0xF8;
    }
    return buffer[start + PAYLOAD + length + 4];
  }

  // ---- Decoding ----

  /** The package in the first frame of `buffer`, or an error code; the new package draws its own uuid. */
  method Decode(buffer: array<bv8>, size: nat, uuid: bv32) returns (result: int, package: TitaniumPackage?)
    requires InMemory(buffer[..], size)
    ensures match TitaniumSpec.Decode(buffer[..], size)
            case Failed(code) => result == code && package == null
            case Decoded(length, address, area, payload) =>
              result == 0 && package != null && package.Valid() && package.View() == Content(uuid, address, area, payload)
  {
    hide StartOffset, Word, Crc32, Number, Int16, Uuid, PayloadLength, MemoryArea, Address, Checksum, EndByte;
    ghost var memory := buffer[..];
    var remaining := Int16(size);
    var start := StarByteOffset(buffer, Uint16(size));
    if start == NO_START {
      return BAD_START_BYTE, null;
    }
    remaining := Int16(remaining - start);
    if remaining <= 0 {
      return BAD_START_BYTE, null;
    }
    remaining := Int16(remaining - 4);
    var id := GetUuid(buffer, start, remaining);
    if id == INVALID_UUID {
      return BAD_UUID, null;
    }
    remaining := Int16(remaining - 2);
    var length := GetPayloadLength(buffer, start, remaining);
    if length > MAXIMUM_MESSAGE_SIZE {
      return BAD_PAYLOAD_SIZE, null;
    }
    LengthInMemory(memory, size, remaining);
    remaining := Int16(remaining - 1);
    var area := GetMemoryArea(buffer, start, remaining);
    remaining := Int16(remaining - 2);
    var address := GetAddress(buffer, start, remaining);
    if address == INVALID_ADDRESS {
      return BAD_ADDRESS, null;
    }
    remaining := Int16(remaining - length);
    if Uint16(remaining) <= 0 {
      return BAD_PAYLOAD, null;
    }
    remaining := Int16(remaining - 4);
    var stored := GetCrc(buffer, start, length, remaining);
    var crc := CalculatedCrc32(buffer, start, PAYLOAD + length);
    assert buffer[start..start + (PAYLOAD + length)] == memory[start..start + PAYLOAD + length];
    if crc != stored {
      return BAD_CRC, null;
    }
    remaining := Int16(remaining - 1);
    var end := GetEndByte(buffer, start, length, remaining);
    if end != END_BYTE {
      return BAD_END_BYTE, null;
    }
    result := 0;
    assert buffer[start + PAYLOAD..start + PAYLOAD + length] == memory[start + PAYLOAD..start + PAYLOAD + length];
    package := new TitaniumPackage(length, address, area, buffer[start + PAYLOAD..start + PAYLOAD + length], uuid);
  }

  lemma LengthInMemory(memory: seq<bv8>, size: nat, remaining: int)
    requires InMemory(memory, size) && Start(memory, size) != NO_START
    requires PayloadLength(memory, Start(memory, size), remaining) <= MAXIMUM_MESSAGE_SIZE
    ensures var start := Start(memory, size);
            start + OVERHEAD + PayloadLength(memory, start, remaining) <= |memory|
  {
  }
}
