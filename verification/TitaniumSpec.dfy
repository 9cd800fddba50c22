/** Frames of the Titanium link: their layout, the decoder, and what it recovers and rejects. */
module TitaniumSpec {
  import opened Common
  import opened Crc
  import opened TitaniumBytes

  const START_BYTE: bv8 := 2
  const END_BYTE: bv8 := 3
  const MAXIMUM_MESSAGE_SIZE := 1024

  // Offsets inside a frame.
  const UUID := 1
  const LENGTH := 5
  const AREA := 7
  const ADDRESS := 8
  const PAYLOAD := 10
  const OVERHEAD := 15

  const NO_START := 0xFFFF
  const INVALID_ADDRESS := 0xFFFF
  const INVALID_UUID: bv32 := 0xFFFFFFFF

  // Error codes.
  const BAD_START_BYTE := -1
  const BAD_PAYLOAD_SIZE := -2
  const BAD_ADDRESS := -5
  const BAD_PAYLOAD := -6
  const BAD_CRC := -7
  const BAD_END_BYTE := -8
  const BAD_UUID := -9

  /** What a package carries. */
  datatype Content = Content(uuid: bv32, address: nat, area: bv8, payload: seq<bv8>)

  predicate ValidContent(c: Content) {
    c.address < 0x10000 && |c.payload| < 0x10000
  }

  datatype Outcome = Decoded(size: nat, address: nat, area: bv8, payload: seq<bv8>) | Failed(code: int)

  // ---- C integers ----

  function Int16(x: int): int {
    var m := x % 0x10000;
    if m < 0x8000 then m else m - 0x10000
  }

  function Uint16(x: int): nat {
    x % 0x10000
  }

  // ---- Encoding ----

  /** Everything the checksum covers. */
  function Prefix(c: Content): (r: seq<bv8>)
    requires ValidContent(c)
    ensures |r| == PAYLOAD + |c.payload|
  {
    [START_BYTE] + Bytes(c.uuid) + [Low(|c.payload|), High(|c.payload|), c.area, Low(c.address), High(c.address)] + c.payload
  }

  function Frame(c: Content): (r: seq<bv8>)
    requires ValidContent(c)
    ensures |r| == OVERHEAD + |c.payload|
  {
    Prefix(c) + Bytes(Crc32(Prefix(c))) + [END_BYTE]
  }

  // ---- Decoding ----

  /** The first start byte among the first `n` bytes. */
  function StartOffset(memory: seq<bv8>, from: nat, n: nat): (r: nat)
    requires from <= n <= |memory| && n < 0x10000
    ensures r == NO_START || (from <= r < n && memory[r] == START_BYTE && forall i :: from <= i < r ==> memory[i] != START_BYTE)
    ensures r == NO_START ==> forall i :: from <= i < n ==> memory[i] != START_BYTE
    decreases n - from
  {
    if from == n then NO_START
    else if memory[from] == START_BYTE then from
    else StartOffset(memory, from + 1, n)
  }

  function Start(memory: seq<bv8>, size: nat): nat
    requires Uint16(size) <= |memory|
  {
    StartOffset(memory, 0, Uint16(size))
  }

  function AnnouncedLength(memory: seq<bv8>, start: nat): nat
    requires start + PAYLOAD <= |memory|
  {
    Number(memory[start + LENGTH], memory[start + LENGTH + 1])
  }

  /** All bytes the decoder may look at are there. */
  predicate InMemory(memory: seq<bv8>, size: nat) {
    && Uint16(size) <= |memory|
    && var start := Start(memory, size);
       start != NO_START ==>
         && start + PAYLOAD <= |memory|
         && (AnnouncedLength(memory, start) <= MAXIMUM_MESSAGE_SIZE ==>
               start + OVERHEAD + AnnouncedLength(memory, start) <= |memory|)
  }

  function Uuid(memory: seq<bv8>, start: nat, remaining: int): bv32
    requires start + PAYLOAD <= |memory|
  {
    if Uint16(remaining) - 4 <= 0 then 0xFFFFFFF7 else Word(memory[start + UUID..start + LENGTH])
  }

  function PayloadLength(memory: seq<bv8>, start: nat, remaining: int): nat
    requires start + PAYLOAD <= |memory|
  {
    if Uint16(remaining) == 0 then 0xFFFE else AnnouncedLength(memory, start)
  }

  function MemoryArea(memory: seq<bv8>, start: nat, remaining: int): bv8
    requires start + PAYLOAD <= |memory|
  {
    if Uint16(remaining) == 0 then 0xFC else memory[start + AREA]
  }

  function Address(memory: seq<bv8>, start: nat, remaining: int): (r: nat)
    requires start + PAYLOAD <= |memory|
    ensures r < 0x10000
  {
    if Uint16(remaining) == 0 then 0xFFFB else Number(memory[start + ADDRESS], memory[start + ADDRESS + 1])
  }

  function Checksum(memory: seq<bv8>, start: nat, length: nat, remaining: int): bv32
    requires start + OVERHEAD + length <= |memory|
  {
    if Uint16(remaining) == 0 then 0xFFFFFFFB else Word(memory[start + PAYLOAD + length..start + PAYLOAD + length + 4])
  }

  function EndByte(memory: seq<bv8>, start: nat, length: nat, remaining: int): bv8
    requires start + OVERHEAD + length <= |memory|
  {
    if Uint16(remaining) == 0 then 0xF8 else memory[start + PAYLOAD + length + 4]
  }

  /** The decoder, with its count of remaining bytes kept in sixteen bits with sign. */
  function Decode(memory: seq<bv8>, size: nat): Outcome
    requires InMemory(memory, size)
  {
    var start := Start(memory, size);
    if start == NO_START then Failed(BAD_START_BYTE)
    else
      var r1 := Int16(Int16(size) - start);
      if r1 <= 0 then Failed(BAD_START_BYTE)
      else
        var r2 := Int16(r1 - 4);
        if Uuid(memory, start, r2) == INVALID_UUID then Failed(BAD_UUID)
        else
          var r3 := Int16(r2 - 2);
          var length := PayloadLength(memory, start, r3);
          if length > MAXIMUM_MESSAGE_SIZE then Failed(BAD_PAYLOAD_SIZE)
          else
            var r4 := Int16(r3 - 1);
            var area := MemoryArea(memory, start, r4);
            var r5 := Int16(r4 - 2);
            var address := Address(memory, start, r5);
            if address == INVALID_ADDRESS then Failed(BAD_ADDRESS)
            else
              var r6 := Int16(r5 - length);
              if Uint16(r6) == 0 then Failed(BAD_PAYLOAD)
              else
                var r7 := Int16(r6 - 4);
                if Crc32(memory[start..start + PAYLOAD + length]) != Checksum(memory, start, length, r7) then Failed(BAD_CRC)
                else
                  var r8 := Int16(r7 - 1);
                  if EndByte(memory, start, length, r8) != END_BYTE then Failed(BAD_END_BYTE)
                  else Decoded(length, address, area, memory[start + PAYLOAD..start + PAYLOAD + length])
  }

  // ---- What a whole frame decodes to ----

  /** The announced frame lies in the message. */
  predicate Whole(memory: seq<bv8>, size: nat) {
    && size <= |memory| && size < 0x8000
    && var start := Start(memory, size);
       start != NO_START && start + OVERHEAD <= size && start + OVERHEAD + AnnouncedLength(memory, start) <= size
  }

  lemma WholeInMemory(memory: seq<bv8>, size: nat)
    requires Whole(memory, size)
    ensures InMemory(memory, size) && Uint16(size) == size
  {
  }

  lemma Small(x: int)
    requires 0 <= x < 0x8000
    ensures Int16(x) == x && Uint16(x) == x
  {
  }

  /** On a whole frame the count of remaining bytes plays no part. */
  lemma DecodeWhole(memory: seq<bv8>, size: nat)
    requires Whole(memory, size)
    ensures InMemory(memory, size)
    ensures var start := Start(memory, size);
            var length := AnnouncedLength(memory, start);
            var address := Number(memory[start + ADDRESS], memory[start + ADDRESS + 1]);
            var payload := memory[start + PAYLOAD..start + PAYLOAD + length];
            Decode(memory, size) ==
            if Word(memory[start + UUID..start + LENGTH]) == INVALID_UUID then Failed(BAD_UUID)
            else if length > MAXIMUM_MESSAGE_SIZE then Failed(BAD_PAYLOAD_SIZE)
            else if address == INVALID_ADDRESS then Failed(BAD_ADDRESS)
            else if Crc32(memory[start..start + PAYLOAD + length]) != Word(memory[start + PAYLOAD + length..start + PAYLOAD + length + 4])
              then Failed(BAD_CRC)
            else if memory[start + PAYLOAD + length + 4] != END_BYTE then Failed(BAD_END_BYTE)
            else Decoded(length, address, memory[start + AREA], payload)
  {
    hide Int16, Uint16, Number, Crc32, Word, Start, Uuid, PayloadLength, MemoryArea, Address, Checksum, EndByte;
    WholeInMemory(memory, size);
    var start := Start(memory, size);
    var length := AnnouncedLength(memory, start);
    var r := size - start;
    Small(size);
    Small(r);
    Small(r - 4);
    Small(r - 6);
    Small(r - 7);
    Small(r - 9);
    Small(r - 9 - length);
    Small(r - 13 - length);
    Small(r - 14 - length);
    HeaderReads(memory, start, r);
    if length <= MAXIMUM_MESSAGE_SIZE {
      TrailerReads(memory, start, length, r);
    }
  }

  lemma HeaderReads(memory: seq<bv8>, start: nat, r: int)
    requires start + PAYLOAD <= |memory| && OVERHEAD <= r < 0x8000
    ensures Uuid(memory, start, r - 4) == Word(memory[start + UUID..start + LENGTH])
    ensures PayloadLength(memory, start, r - 6) == AnnouncedLength(memory, start)
    ensures MemoryArea(memory, start, r - 7) == memory[start + AREA]
    ensures Address(memory, start, r - 9) == Number(memory[start + ADDRESS], memory[start + ADDRESS + 1])
  {
  }

  lemma TrailerReads(memory: seq<bv8>, start: nat, length: nat, r: int)
    requires start + OVERHEAD + length <= |memory| && OVERHEAD + length <= r < 0x8000
    ensures Checksum(memory, start, length, r - 13 - length) == Word(memory[start + PAYLOAD + length..start + PAYLOAD + length + 4])
    ensures EndByte(memory, start, length, r - 14 - length) == memory[start + PAYLOAD + length + 4]
  {
  }

  // ---- Round trip ----

  lemma {:induction false} StartsAt(memory: seq<bv8>, from: nat, at: nat, n: nat)
    requires from <= at < n <= |memory| && n < 0x10000
    requires memory[at] == START_BYTE && forall i :: from <= i < at ==> memory[i] != START_BYTE
    ensures StartOffset(memory, from, n) == at
    decreases at - from
  {
    if from < at {
      StartsAt(memory, from + 1, at, n);
    }
  }

  /** The fields of a frame sit at their offsets. */
  lemma FrameFields(c: Content)
    requires ValidContent(c)
    ensures var f, n := Frame(c), |c.payload|;
            && f[0] == START_BYTE && f[UUID..LENGTH] == Bytes(c.uuid)
            && f[LENGTH] == Low(n) && f[LENGTH + 1] == High(n) && f[AREA] == c.area
            && f[ADDRESS] == Low(c.address) && f[ADDRESS + 1] == High(c.address)
            && f[PAYLOAD..PAYLOAD + n] == c.payload && f[0..PAYLOAD + n] == Prefix(c)
            && f[PAYLOAD + n..PAYLOAD + n + 4] == Bytes(Crc32(Prefix(c))) && f[PAYLOAD + n + 4] == END_BYTE
  {
    hide Low, High, Bytes, Crc32;
  }

  /**
   The layout of a frame in numbers, lowest byte first: 2, the uuid, the length of the payload, the memory area, the address,
   the payload, the checksum of everything before it, 3.
   */
  lemma FrameLayout(c: Content)
    requires ValidContent(c)
    ensures var f, n := Frame(c), |c.payload|;
            && |f| == 15 + n && f[0] == 2 && f[14 + n] == 3
            && BytesOf(f, 1, c.uuid)
            && f[5] == (n % 0x100) as bv8 && f[6] == (n / 0x100) as bv8 && f[7] == c.area
            && f[8] == (c.address % 0x100) as bv8 && f[9] == (c.address / 0x100) as bv8
            && f[10..10 + n] == c.payload
            && BytesOf(f, 10 + n, Crc32(f[..10 + n]))
  {
    hide Low, High, Bytes, Crc32, BytesOf, Prefix, Frame, Number;
    var f, n := Frame(c), |c.payload|;
    FrameFields(c);
    LowHigh(n);
    LowHigh(c.address);
    WordBytes(f, 1, c.uuid);
    WordBytes(f, 10 + n, Crc32(Prefix(c)));
    assert f[..10 + n] == f[0..10 + n];
  }

  /** The four bytes of a word, lowest first. */
  predicate BytesOf(f: seq<bv8>, at: nat, w: bv32) {
    && at + 4 <= |f|
    && f[at] as bv32 == w & 0xFF && f[at + 1] as bv32 == (w >> 8) & 0xFF
    && f[at + 2] as bv32 == (w >> 16) & 0xFF && f[at + 3] as bv32 == (w >> 24) & 0xFF
  }

  lemma WordBytes(f: seq<bv8>, at: nat, w: bv32)
    requires at + 4 <= |f| && f[at..at + 4] == Bytes(w)
    ensures BytesOf(f, at, w)
  {
    var b := Bytes(w);
    assert f[at] == f[at..at + 4][0] && f[at + 1] == f[at..at + 4][1] && f[at + 2] == f[at..at + 4][2] && f[at + 3] == f[at..at + 4][3];
  }

  /** A stretch of a frame, seen inside a longer message. */
  lemma Inside(noise: seq<bv8>, frame: seq<bv8>, tail: seq<bv8>, i: nat, j: nat)
    requires i <= j <= |frame|
    ensures (noise + frame + tail)[|noise| + i..|noise| + j] == frame[i..j]
    ensures i < |frame| ==> (noise + frame + tail)[|noise| + i] == frame[i]
  {
  }

  /**
   Behind noise without a start byte, a frame decodes to the package it was made from, whatever
   follows it.
   */
  lemma RoundTrip(noise: seq<bv8>, c: Content, tail: seq<bv8>)
    requires ValidContent(c) && |c.payload| <= MAXIMUM_MESSAGE_SIZE && c.address != INVALID_ADDRESS && c.uuid != INVALID_UUID
    requires START_BYTE !in noise && |noise + Frame(c) + tail| < 0x8000
    ensures var memory := noise + Frame(c) + tail;
            InMemory(memory, |memory|) && Decode(memory, |memory|) == Decoded(|c.payload|, c.address, c.area, c.payload)
  {
    hide Low, High, Bytes, Crc32, Prefix, Frame, Number, Word, Decode, StartOffset;
    var memory, f, s, n := noise + Frame(c) + tail, Frame(c), |noise|, |c.payload|;
    FrameFields(c);
    FrameInside(noise, c, tail);
    Small(|memory|);
    StartsAt(memory, 0, s, |memory|);
    NumberBack(n);
    NumberBack(c.address);
    BytesWord(c.uuid);
    BytesWord(Crc32(Prefix(c)));
    DecodeWhole(memory, |memory|);
  }

  lemma FrameInside(noise: seq<bv8>, c: Content, tail: seq<bv8>)
    requires ValidContent(c)
    ensures var memory, f, s, n := noise + Frame(c) + tail, Frame(c), |noise|, |c.payload|;
            && memory[s] == f[0] && memory[s + UUID..s + LENGTH] == f[UUID..LENGTH]
            && memory[s + LENGTH] == f[LENGTH] && memory[s + LENGTH + 1] == f[LENGTH + 1] && memory[s + AREA] == f[AREA]
            && memory[s + ADDRESS] == f[ADDRESS] && memory[s + ADDRESS + 1] == f[ADDRESS + 1]
            && memory[s + PAYLOAD..s + PAYLOAD + n] == f[PAYLOAD..PAYLOAD + n] && memory[s..s + PAYLOAD + n] == f[0..PAYLOAD + n]
            && memory[s + PAYLOAD + n..s + PAYLOAD + n + 4] == f[PAYLOAD + n..PAYLOAD + n + 4]
            && memory[s + PAYLOAD + n + 4] == f[PAYLOAD + n + 4]
            && forall i :: 0 <= i < s ==> memory[i] == noise[i]
  {
    hide Frame;
    var f, n := Frame(c), |c.payload|;
    Inside(noise, f, tail, 0, PAYLOAD + n);
    Inside(noise, f, tail, UUID, LENGTH);
    Inside(noise, f, tail, LENGTH, LENGTH);
    Inside(noise, f, tail, LENGTH + 1, LENGTH + 1);
    Inside(noise, f, tail, AREA, AREA);
    Inside(noise, f, tail, ADDRESS, ADDRESS);
    Inside(noise, f, tail, ADDRESS + 1, ADDRESS + 1);
    Inside(noise, f, tail, PAYLOAD, PAYLOAD + n);
    Inside(noise, f, tail, PAYLOAD + n, PAYLOAD + n + 4);
    Inside(noise, f, tail, PAYLOAD + n + 4, PAYLOAD + n + 4);
  }

  // ---- Damage within four consecutive bytes ----

  /** The damaged stretch lies in the uuid, or between the memory area and the end of the checksum. */
  predicate Guarded(start: nat, length: nat, from: nat, to: nat) {
    (start + UUID <= from && to <= start + LENGTH) || (start + AREA <= from && to <= start + PAYLOAD + length + 4)
  }

  lemma SameElsewhere(before: seq<bv8>, v: seq<bv8>, w: seq<bv8>, after: seq<bv8>, i: nat)
    requires |v| == |w| && i < |before + v + after| && !(|before| <= i < |before| + |v|)
    ensures (before + w + after)[i] == (before + v + after)[i]
  {
  }

  /** The damage does not reach the start byte nor the announced length. */
  lemma SameAnnounced(before: seq<bv8>, v: seq<bv8>, w: seq<bv8>, after: seq<bv8>, size: nat)
    requires |v| == |w|
    requires var memory := before + v + after;
             Whole(memory, size)
             && Guarded(Start(memory, size), AnnouncedLength(memory, Start(memory, size)), |before|, |before| + |v|)
    ensures var memory, damaged := before + v + after, before + w + after;
            && Whole(damaged, size) && Start(damaged, size) == Start(memory, size)
            && AnnouncedLength(damaged, Start(memory, size)) == AnnouncedLength(memory, Start(memory, size))
  {
    hide StartOffset, Number;
    var memory, damaged := before + v + after, before + w + after;
    var start := Start(memory, size);
    WholeInMemory(memory, size);
    Small(size);
    forall i | 0 <= i <= start ensures damaged[i] == memory[i] {
      SameElsewhere(before, v, w, after, i);
    }
    StartsAt(damaged, 0, start, size);
    SameElsewhere(before, v, w, after, start + LENGTH);
    SameElsewhere(before, v, w, after, start + LENGTH + 1);
  }

  /** The checked span of a message, around the stretch. */
  lemma SpanSplits(before: seq<bv8>, v: seq<bv8>, after: seq<bv8>, start: nat, middle: nat, end: nat)
    requires start <= |before| && |before| + |v| <= end <= |before + v + after| && start <= middle <= end
    ensures var memory := before + v + after;
            memory[start..middle] + memory[middle..end] == before[start..] + v + after[..end - |before| - |v|]
  {
    var memory := before + v + after;
    assert memory[start..middle] + memory[middle..end] == memory[start..end];
  }

  /** Damage within four bytes of a message and its checksum leaves a checksum that does not fit. */
  lemma ChecksumBroken(before: seq<bv8>, v: seq<bv8>, w: seq<bv8>, after: seq<bv8>, start: nat, middle: nat)
    requires |v| == |w| <= 4 && v != w
    requires start <= |before| && |before| + |v| <= middle + 4 <= |before + v + after| && start <= middle
    requires Word((before + v + after)[middle..middle + 4]) == Crc32((before + v + after)[start..middle])
    ensures Word((before + w + after)[middle..middle + 4]) != Crc32((before + w + after)[start..middle])
  {
    hide Crc32, Word, Divide;
    var memory, damaged := before + v + after, before + w + after;
    ChecksumIffResidue(memory[start..middle], memory[middle..middle + 4]);
    ChecksumIffResidue(damaged[start..middle], damaged[middle..middle + 4]);
    SpanSplits(before, v, after, start, middle, middle + 4);
    SpanSplits(before, w, after, start, middle, middle + 4);
    BurstChangesRemainder(ONES, before[start..], v, w, after[..middle + 4 - |before| - |v|]);
  }

  /** Replacing up to four consecutive guarded bytes of a valid frame always makes the decoder fail. */
  lemma BurstDetected(before: seq<bv8>, v: seq<bv8>, w: seq<bv8>, after: seq<bv8>, size: nat)
    requires |v| == |w| <= 4 && v != w
    requires var memory := before + v + after;
             Whole(memory, size) && InMemory(memory, size) && Decode(memory, size).Decoded?
             && Guarded(Start(memory, size), AnnouncedLength(memory, Start(memory, size)), |before|, |before| + |v|)
    ensures InMemory(before + w + after, size) && Decode(before + w + after, size).Failed?
  {
    hide Decode, Crc32, Word, Number, StartOffset, Start, InMemory;
    var memory, damaged := before + v + after, before + w + after;
    var start := Start(memory, size);
    SameAnnounced(before, v, w, after, size);
    DecodeWhole(memory, size);
    DecodeWhole(damaged, size);
    ChecksumBroken(before, v, w, after, start, start + PAYLOAD + AnnouncedLength(memory, start));
  }
}
