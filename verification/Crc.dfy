/**
 The CRC-32 of the link frames (section 8 of RFC 1952): the table-driven loop computes bitwise
 reflected division, and no change within four consecutive bytes goes unnoticed.
 */
module Crc {
  import opened Common

  /** The reflected generator polynomial. */
  const POLYNOMIAL: bv32 := 0xEDB88320
  const ONES: bv32 := 0xFFFFFFFF

  /** Addition and halving of polynomials. */
  function Plus(a: bv32, b: bv32): bv32 {
    a ^ b
  }

  function Half(a: bv32): bv32 {
    a >> 1
  }

  // ---- Bitwise division ----

  /** The register after one more bit of the message. */
  function FeedBit(c: bv32, bit: bv32): bv32 {
    if (c ^ bit) & 1 == 1 then (c >> 1) ^ POLYNOMIAL else c >> 1
  }

  /** The register after the low `n` bits of `b`, lowest first. */
  function FeedBits(c: bv32, b: bv32, n: nat): bv32
    decreases n
  {
    if n == 0 then c else FeedBits(FeedBit(c, b & 1), b >> 1, n - 1)
  }

  function Divide(c: bv32, message: seq<bv8>): bv32
    decreases |message|
  {
    if message == [] then c else Divide(FeedBits(c, message[0] as bv32, 8), message[1..])
  }

  function Crc32(message: seq<bv8>): bv32 {
    Plus(Divide(ONES, message), ONES)
  }

  // ---- Eight bits at a time ----

  function Bit(c: bv32): bv32 {
    if c & 1 == 1 then (c >> 1) ^ POLYNOMIAL else c >> 1
  }

  function Bits2(c: bv32): bv32 {
    Bit(Bit(c))
  }

  function Bits4(c: bv32): bv32 {
    Bits2(Bits2(c))
  }

  function Bits8(c: bv32): bv32 {
    Bits4(Bits4(c))
  }

  lemma PlusZero(c: bv32)
    ensures Plus(c, 0) == c
  {
  }

  lemma PlusCancel(a: bv32, b: bv32, d: bv32)
    ensures Plus(a, d) == Plus(b, d) ==> a == b
    ensures Plus(d, a) == Plus(d, b) ==> a == b
  {
    assert (a ^ d) ^ d == a && (b ^ d) ^ d == b && d ^ a == a ^ d && d ^ b == b ^ d;
  }

  lemma XorParts(x: bv32, y: bv32)
    ensures (x ^ y) >> 1 == (x >> 1) ^ (y >> 1) && (x ^ y) & 1 == (x & 1) ^ (y & 1)
    ensures (x & 1 == 0 || x & 1 == 1) && (y & 1 == 0 || y & 1 == 1)
  {
  }

  lemma XorMix(x: bv32, y: bv32, p: bv32)
    ensures (x ^ p) ^ (y ^ p) == x ^ y && (x ^ y) ^ p == (x ^ p) ^ y && (x ^ y) ^ p == x ^ (y ^ p)
    ensures (x ^ y) ^ p == x ^ (p ^ y)
  {
  }

  lemma XorZero(x: bv32, y: bv32)
    ensures x ^ y == 0 <==> x == y
    ensures x ^ 0 == x
  {
  }

  /** Feeding a bit is the same as adding the message to the register before it is shifted. */
  lemma FeedStep(c: bv32, b: bv32)
    ensures Plus(FeedBit(c, b & 1), Half(b)) == Bit(Plus(c, b))
  {
    assert (c ^ (b & 1)) & 1 == (c ^ b) & 1;
    XorParts(c, b);
    XorMix(c >> 1, b >> 1, POLYNOMIAL);
    if (c ^ b) & 1 == 1 {
      assert FeedBit(c, b & 1) == (c >> 1) ^ POLYNOMIAL;
    } else {
      assert FeedBit(c, b & 1) == c >> 1;
    }
  }

  /** Some bits of the message at once: what is left of the message has been added beforehand. */
  lemma {:induction false} FeedSome(c: bv32, b: bv32, n: nat) returns (rest: bv32)
    ensures rest == Halves(b, n) && Plus(FeedBits(c, b, n), rest) == Shift(Plus(c, b), n)
    decreases n
  {
    hide Plus, Half, Bit, FeedBit;
    if n == 0 {
      rest := b;
    } else {
      FeedStep(c, b);
      rest := FeedSome(FeedBit(c, b & 1), Half(b), n - 1);
      HalfShifts(b);
    }
  }

  lemma HalfShifts(b: bv32)
    ensures Half(b) == b >> 1
  {
  }

  function Halves(b: bv32, n: nat): bv32
    decreases n
  {
    if n == 0 then b else Halves(Half(b), n - 1)
  }

  function Shift(c: bv32, n: nat): bv32
    decreases n
  {
    if n == 0 then c else Shift(Bit(c), n - 1)
  }

  lemma ByteHalves(b: bv8)
    ensures Halves(b as bv32, 8) == 0
  {
    var x := b as bv32;
    assert Halves(x, 8) == Halves(Half(Half(Half(Half(x)))), 4);
    assert Half(Half(Half(Half(Half(Half(Half(Half(x)))))))) == 0;
  }

  lemma ShiftEight(c: bv32)
    ensures Shift(c, 8) == Bits8(c)
  {
    hide Bit;
    assert Shift(c, 8) == Shift(Bits4(c), 4);
  }

  lemma FeedByte(c: bv32, b: bv8)
    ensures FeedBits(c, b as bv32, 8) == Bits8(Plus(c, b as bv32))
  {
    hide FeedBits, Shift, Halves, Bits8, Plus;
    var rest := FeedSome(c, b as bv32, 8);
    ByteHalves(b);
    ShiftEight(Plus(c, b as bv32));
    PlusZero(FeedBits(c, b as bv32, 8));
  }

  // ---- Shifting is linear and loses nothing ----

  lemma BitXor(a: bv32, b: bv32)
    ensures Bit(a ^ b) == Bit(a) ^ Bit(b)
  {
    XorParts(a, b);
    XorMix(a >> 1, b >> 1, POLYNOMIAL);
    if a & 1 == 1 {
      if b & 1 == 1 {
        assert (a ^ b) & 1 == 0;
      } else {
        assert (a ^ b) & 1 == 1;
      }
    } else {
      if b & 1 == 1 {
        assert (a ^ b) & 1 == 1;
      } else {
        assert (a ^ b) & 1 == 0;
      }
    }
  }

  lemma BitLinear(a: bv32, b: bv32)
    ensures Bit(Plus(a, b)) == Plus(Bit(a), Bit(b))
  {
    BitXor(a, b);
    hide Bit;
  }

  lemma Bits4Linear(a: bv32, b: bv32)
    ensures Bits4(Plus(a, b)) == Plus(Bits4(a), Bits4(b))
  {
    hide Bit, Plus;
    BitLinear(a, b);
    BitLinear(Bit(a), Bit(b));
    BitLinear(Bits2(a), Bits2(b));
    BitLinear(Bit(Bits2(a)), Bit(Bits2(b)));
  }

  lemma Bits8Linear(a: bv32, b: bv32)
    ensures Bits8(Plus(a, b)) == Plus(Bits8(a), Bits8(b))
  {
    hide Bits4, Plus;
    Bits4Linear(a, b);
    Bits4Linear(Bits4(a), Bits4(b));
  }

  lemma BitLow(c: bv32)
    ensures c & 1 == 0 ==> Bit(c) == Half(c)
    ensures Bit(c) == 0 ==> c == 0
  {
  }

  lemma Bits4High(c: bv32)
    requires c & 0xF == 0
    ensures Bits4(c) == c >> 4
  {
    var c1, c2, c3 := Half(c), Half(Half(c)), Half(Half(Half(c)));
    assert c & 1 == 0 && c1 & 1 == 0 && c2 & 1 == 0 && c3 & 1 == 0;
    assert Half(c3) == c >> 4;
    BitLow(c);
    BitLow(c1);
    BitLow(c2);
    BitLow(c3);
    hide Bit, Half;
  }

  /** A register whose low byte is zero is merely shifted. */
  lemma Bits8High(c: bv32)
    requires c & 0xFF == 0
    ensures Bits8(c) == c >> 8
  {
    hide Bits4;
    Bits4High(c);
    Bits4High(c >> 4);
    assert c >> 4 >> 4 == c >> 8;
  }

  lemma Bits8Injective(a: bv32, b: bv32)
    requires Bits8(a) == Bits8(b)
    ensures a == b
  {
    var d := Plus(a, b);
    assert Bits8(d) == 0 by {
      Bits8Linear(a, b);
      XorZero(Bits8(a), Bits8(b));
    }
    BitLow(d);
    BitLow(Bit(d));
    BitLow(Bits2(d));
    BitLow(Bit(Bits2(d)));
    BitLow(Bits4(d));
    BitLow(Bit(Bits4(d)));
    BitLow(Bits2(Bits4(d)));
    BitLow(Bit(Bits2(Bits4(d))));
    hide Bit;
    XorZero(a, b);
  }

  // ---- The table ----

  const ROW0: seq<bv32> := [
    0x00000000, 0x77073096, 0xee0e612c, 0x990951ba, 0x076dc419, 0x706af48f, 0xe963a535, 0x9e6495a3,
    0x0edb8832, 0x79dcb8a4, 0xe0d5e91e, 0x97d2d988, 0x09b64c2b, 0x7eb17cbd, 0xe7b82d07, 0x90bf1d91
  ]
  const ROW1: seq<bv32> := [
    0x1db71064, 0x6ab020f2, 0xf3b97148, 0x84be41de, 0x1adad47d, 0x6ddde4eb, 0xf4d4b551, 0x83d385c7,
    0x136c9856, 0x646ba8c0, 0xfd62f97a, 0x8a65c9ec, 0x14015c4f, 0x63066cd9, 0xfa0f3d63, 0x8d080df5
  ]
  const ROW2: seq<bv32> := [
    0x3b6e20c8, 0x4c69105e, 0xd56041e4, 0xa2677172, 0x3c03e4d1, 0x4b04d447, 0xd20d85fd, 0xa50ab56b,
    0x35b5a8fa, 0x42b2986c, 0xdbbbc9d6, 0xacbcf940, 0x32d86ce3, 0x45df5c75, 0xdcd60dcf, 0xabd13d59
  ]
  const ROW3: seq<bv32> := [
    0x26d930ac, 0x51de003a, 0xc8d75180, 0xbfd06116, 0x21b4f4b5, 0x56b3c423, 0xcfba9599, 0xb8bda50f,
    0x2802b89e, 0x5f058808, 0xc60cd9b2, 0xb10be924, 0x2f6f7c87, 0x58684c11, 0xc1611dab, 0xb6662d3d
  ]
  const ROW4: seq<bv32> := [
    0x76dc4190, 0x01db7106, 0x98d220bc, 0xefd5102a, 0x71b18589, 0x06b6b51f, 0x9fbfe4a5, 0xe8b8d433,
    0x7807c9a2, 0x0f00f934, 0x9609a88e, 0xe10e9818, 0x7f6a0dbb, 0x086d3d2d, 0x91646c97, 0xe6635c01
  ]
  const ROW5: seq<bv32> := [
    0x6b6b51f4, 0x1c6c6162, 0x856530d8, 0xf262004e, 0x6c0695ed, 0x1b01a57b, 0x8208f4c1, 0xf50fc457,
    0x65b0d9c6, 0x12b7e950, 0x8bbeb8ea, 0xfcb9887c, 0x62dd1ddf, 0x15da2d49, 0x8cd37cf3, 0xfbd44c65
  ]
  const ROW6: seq<bv32> := [
    0x4db26158, 0x3ab551ce, 0xa3bc0074, 0xd4bb30e2, 0x4adfa541, 0x3dd895d7, 0xa4d1c46d, 0xd3d6f4fb,
    0x4369e96a, 0x346ed9fc, 0xad678846, 0xda60b8d0, 0x44042d73, 0x33031de5, 0xaa0a4c5f, 0xdd0d7cc9
  ]
  const ROW7: seq<bv32> := [
    0x5005713c, 0x270241aa, 0xbe0b1010, 0xc90c2086, 0x5768b525, 0x206f85b3, 0xb966d409, 0xce61e49f,
    0x5edef90e, 0x29d9c998, 0xb0d09822, 0xc7d7a8b4, 0x59b33d17, 0x2eb40d81, 0xb7bd5c3b, 0xc0ba6cad
  ]
  const ROW8: seq<bv32> := [
    0xedb88320, 0x9abfb3b6, 0x03b6e20c, 0x74b1d29a, 0xead54739, 0x9dd277af, 0x04db2615, 0x73dc1683,
    0xe3630b12, 0x94643b84, 0x0d6d6a3e, 0x7a6a5aa8, 0xe40ecf0b, 0x9309ff9d, 0x0a00ae27, 0x7d079eb1
  ]
  const ROW9: seq<bv32> := [
    0xf00f9344, 0x8708a3d2, 0x1e01f268, 0x6906c2fe, 0xf762575d, 0x806567cb, 0x196c3671, 0x6e6b06e7,
    0xfed41b76, 0x89d32be0, 0x10da7a5a, 0x67dd4acc, 0xf9b9df6f, 0x8ebeeff9, 0x17b7be43, 0x60b08ed5
  ]
  const ROWA: seq<bv32> := [
    0xd6d6a3e8, 0xa1d1937e, 0x38d8c2c4, 0x4fdff252, 0xd1bb67f1, 0xa6bc5767, 0x3fb506dd, 0x48b2364b,
    0xd80d2bda, 0xaf0a1b4c, 0x36034af6, 0x41047a60, 0xdf60efc3, 0xa867df55, 0x316e8eef, 0x4669be79
  ]
  const ROWB: seq<bv32> := [
    0xcb61b38c, 0xbc66831a, 0x256fd2a0, 0x5268e236, 0xcc0c7795, 0xbb0b4703, 0x220216b9, 0x5505262f,
    0xc5ba3bbe, 0xb2bd0b28, 0x2bb45a92, 0x5cb36a04, 0xc2d7ffa7, 0xb5d0cf31, 0x2cd99e8b, 0x5bdeae1d
  ]
  const ROWC: seq<bv32> := [
    0x9b64c2b0, 0xec63f226, 0x756aa39c, 0x026d930a, 0x9c0906a9, 0xeb0e363f, 0x72076785, 0x05005713,
    0x95bf4a82, 0xe2b87a14, 0x7bb12bae, 0x0cb61b38, 0x92d28e9b, 0xe5d5be0d, 0x7cdcefb7, 0x0bdbdf21
  ]
  const ROWD: seq<bv32> := [
    0x86d3d2d4, 0xf1d4e242, 0x68ddb3f8, 0x1fda836e, 0x81be16cd, 0xf6b9265b, 0x6fb077e1, 0x18b74777,
    0x88085ae6, 0xff0f6a70, 0x66063bca, 0x11010b5c, 0x8f659eff, 0xf862ae69, 0x616bffd3, 0x166ccf45
  ]
  const ROWE: seq<bv32> := [
    0xa00ae278, 0xd70dd2ee, 0x4e048354, 0x3903b3c2, 0xa7672661, 0xd06016f7, 0x4969474d, 0x3e6e77db,
    0xaed16a4a, 0xd9d65adc, 0x40df0b66, 0x37d83bf0, 0xa9bcae53, 0xdebb9ec5, 0x47b2cf7f, 0x30b5ffe9
  ]
  const ROWF: seq<bv32> := [
    0xbdbdf21c, 0xcabac28a, 0x53b39330, 0x24b4a3a6, 0xbad03605, 0xcdd70693, 0x54de5729, 0x23d967bf,
    0xb3667a2e, 0xc4614ab8, 0x5d681b02, 0x2a6f2b94, 0xb40bbe37, 0xc30c8ea1, 0x5a05df1b, 0x2d02ef8d
  ]
  const TABLE: seq<seq<bv32>> := [ROW0, ROW1, ROW2, ROW3, ROW4, ROW5, ROW6, ROW7, ROW8, ROW9, ROWA, ROWB, ROWC, ROWD, ROWE, ROWF]

  /** The table entry for `index`. */
  function Entry(index: bv8): bv32 {
    TABLE[(index >> 4) as int][(index & 15) as int]
  }

  /** The rest of a row follows from its first entry and the first row. */
  predicate Adds(row: seq<bv32>) {
    |row| == 16 && forall i :: 0 <= i < 16 ==> row[i] == row[0] ^ ROW0[i]
  }

  lemma Row0Adds()
    ensures Adds(ROW0)
  {
  }

  lemma Row1Adds()
    ensures Adds(ROW1)
  {
  }

  lemma Row2Adds()
    ensures Adds(ROW2)
  {
  }

  lemma Row3Adds()
    ensures Adds(ROW3)
  {
  }

  lemma Row4Adds()
    ensures Adds(ROW4)
  {
  }

  lemma Row5Adds()
    ensures Adds(ROW5)
  {
  }

  lemma Row6Adds()
    ensures Adds(ROW6)
  {
  }

  lemma Row7Adds()
    ensures Adds(ROW7)
  {
  }

  lemma Row8Adds()
    ensures Adds(ROW8)
  {
  }

  lemma Row9Adds()
    ensures Adds(ROW9)
  {
  }

  lemma RowAAdds()
    ensures Adds(ROWA)
  {
  }

  lemma RowBAdds()
    ensures Adds(ROWB)
  {
  }

  lemma RowCAdds()
    ensures Adds(ROWC)
  {
  }

  lemma RowDAdds()
    ensures Adds(ROWD)
  {
  }

  lemma RowEAdds()
    ensures Adds(ROWE)
  {
  }

  lemma RowFAdds()
    ensures Adds(ROWF)
  {
  }

  lemma RowsAdd(k: nat)
    requires k < 16
    ensures Adds(TABLE[k])
  {
    hide Adds;
    Row0Adds();
    Row1Adds();
    Row2Adds();
    Row3Adds();
    Row4Adds();
    Row5Adds();
    Row6Adds();
    Row7Adds();
    Row8Adds();
    Row9Adds();
    RowAAdds();
    RowBAdds();
    RowCAdds();
    RowDAdds();
    RowEAdds();
    RowFAdds();
  }

  // The first row and the first column are built from eight powers of two.

  lemma LowBasis12()
    ensures Bits8(1) == ROW0[1] && Bits8(2) == ROW0[2]
  {
  }

  lemma LowBasis48()
    ensures Bits8(0) == 0 && Bits8(4) == ROW0[4] && Bits8(8) == ROW0[8]
  {
  }

  lemma HighBasis()
    ensures Bits8(0) == 0 && Bits8(0x10) == ROW1[0] && Bits8(0x20) == ROW2[0]
    ensures Bits8(0x40) == ROW4[0] && Bits8(0x80) == ROW8[0]
  {
  }

  /** Sums of the entries for the single bits of a nibble. */
  function Sum(bits: bv8, a: bv32, b: bv32, c: bv32, d: bv32): bv32 {
    ((if bits & 1 == 1 then a else 0) ^ (if bits & 2 == 2 then b else 0))
    ^ ((if bits & 4 == 4 then c else 0) ^ (if bits & 8 == 8 then d else 0))
  }

  lemma LowSums(low: bv8)
    requires low < 16
    ensures ROW0[low as int] == Sum(low, ROW0[1], ROW0[2], ROW0[4], ROW0[8])
  {
  }

  lemma HighSums(high: bv8)
    requires high < 16
    ensures TABLE[high as int][0] == Sum(high, ROW1[0], ROW2[0], ROW4[0], ROW8[0])
  {
  }

  lemma LowDivides(low: bv8)
    requires low < 16
    ensures Bits8(low as bv32) == Sum(low, ROW0[1], ROW0[2], ROW0[4], ROW0[8])
  {
    LowBasis12();
    LowBasis48();
    var x := low as bv32;
    var a, b, c, d := x & 1, x & 2, x & 4, x & 8;
    assert x == Plus(Plus(a, b), Plus(c, d));
    Bits8Linear(Plus(a, b), Plus(c, d));
    Bits8Linear(a, b);
    Bits8Linear(c, d);
    hide Bits8;
  }

  lemma HighDivides(high: bv8)
    requires high < 16
    ensures Bits8(high as bv32 << 4) == Sum(high, ROW1[0], ROW2[0], ROW4[0], ROW8[0])
  {
    HighBasis();
    var x := high as bv32 << 4;
    var a, b, c, d := x & 0x10, x & 0x20, x & 0x40, x & 0x80;
    assert x == Plus(Plus(a, b), Plus(c, d));
    Bits8Linear(Plus(a, b), Plus(c, d));
    Bits8Linear(a, b);
    Bits8Linear(c, d);
    hide Bits8;
  }

  lemma EntrySplits(index: bv8)
    ensures Entry(index) == Plus(TABLE[(index >> 4) as int][0], ROW0[(index & 15) as int])
  {
    RowsAdd((index >> 4) as int);
  }

  lemma IndexSplits(index: bv8)
    ensures index >> 4 < 16 && index & 15 < 16
    ensures index as bv32 == Plus((index >> 4) as bv32 << 4, (index & 15) as bv32)
  {
  }

  /** Every table entry is the division of its index. */
  lemma TableDivides(index: bv8)
    ensures Entry(index) == Bits8(index as bv32)
  {
    hide Bits8, Sum, Plus, Entry;
    var high, low := index >> 4, index & 15;
    EntrySplits(index);
    IndexSplits(index);
    LowSums(low);
    HighSums(high);
    LowDivides(low);
    HighDivides(high);
    Bits8Linear(high as bv32 << 4, low as bv32);
  }

  // ---- The loop over the table ----

  function CrcTable(index: bv32): bv32
    requires index < 0x100
  {
    Entry(index as bv8)
  }

  /** The register after one more byte, by one lookup. */
  function TableRound(c: bv32, b: bv8): bv32 {
    assert (c ^ b as bv32) & 0xFF < 0x100;
    Plus(CrcTable((c ^ b as bv32) & 0xFF), (c >> 8) & 0x00FFFFFF)
  }

  function LowByte(x: bv32): bv8 {
    assert x & 0xFF < 0x100;
    (x & 0xFF) as bv8
  }

  function Rest(x: bv32): bv32 {
    x & 0xFFFFFF00
  }

  function Top(x: bv32): bv32 {
    (x >> 8) & 0x00FFFFFF
  }

  lemma RoundSplits(x: bv32)
    ensures x == Plus(LowByte(x) as bv32, Rest(x)) && Rest(x) & 0xFF == 0 && Rest(x) >> 8 == Top(x)
  {
  }

  lemma RoundIs(c: bv32, b: bv8)
    ensures TableRound(c, b) == Plus(Entry(LowByte(Plus(c, b as bv32))), Top(Plus(c, b as bv32)))
  {
    assert (c >> 8) & 0x00FFFFFF == Top(Plus(c, b as bv32));
    assert c ^ b as bv32 == Plus(c, b as bv32);
    hide Entry, Plus, Top;
  }

  lemma TopDivides(x: bv32)
    ensures Bits8(Rest(x)) == Top(x)
  {
    RoundSplits(x);
    Bits8High(Rest(x));
    hide Bits8;
  }

  lemma TableStep(c: bv32, b: bv8)
    ensures TableRound(c, b) == FeedBits(c, b as bv32, 8)
  {
    hide Bits8, Entry, FeedBits, Plus, TableRound, LowByte, Rest, Top;
    var x := Plus(c, b as bv32);
    RoundIs(c, b);
    RoundSplits(x);
    TableDivides(LowByte(x));
    TopDivides(x);
    Bits8Linear(LowByte(x) as bv32, Rest(x));
    FeedByte(c, b);
  }

  /** The checksum of `size` bytes from `start`, one table lookup a byte; zero without a message. */
  method CalculatedCrc32(bytes: array?<bv8>, start: nat, size: nat) returns (crc: bv32)
    requires bytes != null ==> start + size <= bytes.Length
    ensures crc == if bytes == null then 0 else Crc32(bytes[start..start + size])
  {
    hide TableRound, FeedBits;
    var c := ONES;
    if bytes == null {
      return 0;
    }
    ghost var message := bytes[start..start + size];
    for i := 0 to size
      invariant Divide(c, message[i..]) == Divide(ONES, message)
    {
      TableStep(c, bytes[start + i]);
      assert message[i..][1..] == message[i + 1..];
      c := TableRound(c, bytes[start + i]);
    }
    return Plus(c, ONES);
  }

  // ---- The check value ----

  lemma CheckByte(c: bv32, b: bv8, next: bv32, rest: seq<bv8>)
    requires Bits8(Plus(c, b as bv32)) == next
    ensures Divide(c, [b] + rest) == Divide(next, rest)
  {
    hide Bits8, FeedBits, Plus;
    FeedByte(c, b);
    assert ([b] + rest)[1..] == rest;
  }

  lemma Behind(message: seq<bv8>, i: nat)
    requires i < |message|
    ensures message[i..] == [message[i]] + message[i + 1..]
  {
  }

  /** The checksum of the nine digits 1 to 9 is the one CRC-32 is known by. */
  lemma CheckValue()
    ensures Crc32([0x31, 0x32, 0x33, 0x34, 0x35, 0x36, 0x37, 0x38, 0x39]) == 0xCBF43926
  {
    hide Divide;
    var message: seq<bv8> := [0x31, 0x32, 0x33, 0x34, 0x35, 0x36, 0x37, 0x38, 0x39];
    assert message[0..] == message;
    Behind(message, 0);
    CheckByte(0xFFFFFFFF, 0x31, 0x7C231048, message[1..]);
    Behind(message, 1);
    CheckByte(0x7C231048, 0x32, 0xB0ACBB32, message[2..]);
    Behind(message, 2);
    CheckByte(0xB0ACBB32, 0x33, 0x77B79C2D, message[3..]);
    Behind(message, 3);
    CheckByte(0x77B79C2D, 0x34, 0x641C1F5C, message[4..]);
    Behind(message, 4);
    CheckByte(0x641C1F5C, 0x35, 0x340AC5E3, message[5..]);
    Behind(message, 5);
    CheckByte(0x340AC5E3, 0x36, 0xF68D2C9E, message[6..]);
    Behind(message, 6);
    CheckByte(0xF68D2C9E, 0x37, 0xAFFC9660, message[7..]);
    Behind(message, 7);
    CheckByte(0xAFFC9660, 0x38, 0x651F2550, message[8..]);
    Behind(message, 8);
    CheckByte(0x651F2550, 0x39, 0x340BC6D9, message[9..]);
    assert message[9..] == [];
    DivideNothing(0x340BC6D9);
  }

  lemma DivideNothing(c: bv32)
    ensures Divide(c, []) == c
  {
  }

  // ---- No change within four bytes goes unnoticed ----

  lemma {:induction false} DivideAppend(c: bv32, a: seq<bv8>, b: seq<bv8>)
    ensures Divide(c, a + b) == Divide(Divide(c, a), b)
    decreases |a|
  {
    hide FeedBits;
    if a == [] {
      assert a + b == b;
    } else {
      assert (a + b)[1..] == a[1..] + b;
      DivideAppend(FeedBits(c, a[0] as bv32, 8), a[1..], b);
    }
  }

  /** Different registers stay different. */
  lemma {:induction false} DivideInjective(c: bv32, d: bv32, message: seq<bv8>)
    requires Divide(c, message) == Divide(d, message)
    ensures c == d
    decreases |message|
  {
    hide FeedBits, Plus, Bits8;
    if message != [] {
      var b := message[0] as bv32;
      DivideInjective(FeedBits(c, b, 8), FeedBits(d, b, 8), message[1..]);
      FeedByte(c, message[0]);
      FeedByte(d, message[0]);
      Bits8Injective(Plus(c, b), Plus(d, b));
      PlusCancel(c, d, b);
    }
  }

  function Join(rest: bv32, b: bv8): bv32 {
    (rest << 8) ^ b as bv32
  }

  /** Up to four bytes as one number, first byte lowest. */
  function Word(w: seq<bv8>): bv32
    requires |w| <= 4
    decreases |w|
  {
    if w == [] then 0 else Join(Word(w[1..]), w[0])
  }

  lemma {:induction false} WordBound(w: seq<bv8>)
    requires |w| <= 3
    ensures Word(w) >> 24 == 0
    ensures |w| <= 2 ==> Word(w) >> 16 == 0
    ensures |w| <= 1 ==> Word(w) >> 8 == 0
    decreases |w|
  {
    hide Join;
    if w != [] {
      WordBound(w[1..]);
      JoinBound(Word(w[1..]), w[0]);
    }
  }

  lemma JoinBound(rest: bv32, b: bv8)
    ensures rest >> 16 == 0 ==> Join(rest, b) >> 24 == 0
    ensures rest >> 8 == 0 ==> Join(rest, b) >> 16 == 0
    ensures rest == 0 ==> Join(rest, b) >> 8 == 0
  {
  }

  lemma JoinInjective(r: bv32, s: bv32, a: bv8, b: bv8)
    requires r >> 24 == 0 && s >> 24 == 0 && Join(r, a) == Join(s, b)
    ensures r == s && a == b
  {
  }

  lemma {:induction false} WordInjective(v: seq<bv8>, w: seq<bv8>)
    requires |v| == |w| <= 4 && Word(v) == Word(w)
    ensures v == w
    decreases |v|
  {
    hide Join;
    if v != [] {
      WordBound(v[1..]);
      WordBound(w[1..]);
      JoinInjective(Word(v[1..]), Word(w[1..]), v[0], w[0]);
      WordInjective(v[1..], w[1..]);
      assert v == [v[0]] + v[1..] && w == [w[0]] + w[1..];
    }
  }

  lemma JoinSplits(c: bv32, rest: bv32, b: bv8)
    requires rest >> 24 == 0
    ensures (rest << 8) & 0xFF == 0 && (rest << 8) >> 8 == rest
    ensures Plus(c, Join(rest, b)) == Plus(Plus(c, b as bv32), rest << 8)
  {
    XorMix(c, b as bv32, rest << 8);
  }

  lemma JoinDivides(c: bv32, rest: bv32, b: bv8)
    requires rest >> 24 == 0
    ensures Bits8(Plus(c, Join(rest, b))) == Plus(Bits8(Plus(c, b as bv32)), rest)
  {
    hide Bits8, Plus, Join;
    JoinSplits(c, rest, b);
    Bits8High(rest << 8);
    Bits8Linear(Plus(c, b as bv32), rest << 8);
  }

  /** Feeding up to four bytes is adding their word to the register and shifting it out. */
  lemma {:induction false} DivideWord(c: bv32, w: seq<bv8>)
    requires |w| <= 4
    ensures Divide(c, w) == Shift(Plus(c, Word(w)), 8 * |w|)
    decreases |w|
  {
    hide FeedBits, Bits8, Bit, Plus, Join;
    if w == [] {
      PlusZero(c);
    } else {
      FeedByte(c, w[0]);
      DivideWord(Bits8(Plus(c, w[0] as bv32)), w[1..]);
      WordBound(w[1..]);
      JoinDivides(c, Word(w[1..]), w[0]);
      ShiftMore(Plus(c, Word(w)), 8 * |w[1..]|);
    }
  }

  lemma ShiftMore(c: bv32, n: nat)
    ensures Shift(c, n + 8) == Shift(Bits8(c), n)
  {
    hide Bit;
    assert Shift(c, n + 8) == Shift(Bits2(c), n + 6);
    assert Shift(Bits2(c), n + 6) == Shift(Bits4(c), n + 4);
    assert Shift(Bits4(c), n + 4) == Shift(Bits2(Bits4(c)), n + 2);
  }

  lemma {:induction false} ShiftInjective(c: bv32, d: bv32, n: nat)
    requires Shift(c, n) == Shift(d, n)
    ensures c == d
    decreases n
  {
    if n > 0 {
      ShiftInjective(Bit(c), Bit(d), n - 1);
      BitInjective(c, d);
    }
  }

  lemma BitInjective(c: bv32, d: bv32)
    requires Bit(c) == Bit(d)
    ensures c == d
  {
    BitXor(c, d);
    XorZero(Bit(c), Bit(d));
    BitLow(c ^ d);
    XorZero(c, d);
  }

  /** Two messages that differ only within four consecutive bytes have different remainders. */
  lemma BurstChangesRemainder(c: bv32, before: seq<bv8>, v: seq<bv8>, w: seq<bv8>, after: seq<bv8>)
    requires |v| == |w| <= 4 && v != w
    ensures Divide(c, before + v + after) != Divide(c, before + w + after)
  {
    hide Divide, Shift, Word, Plus;
    DivideAppend(c, before + v, after);
    DivideAppend(c, before, v);
    DivideAppend(c, before + w, after);
    DivideAppend(c, before, w);
    var d := Divide(c, before);
    if Divide(c, before + v + after) == Divide(c, before + w + after) {
      DivideInjective(Divide(d, v), Divide(d, w), after);
      DivideWord(d, v);
      DivideWord(d, w);
      ShiftInjective(Plus(d, Word(v)), Plus(d, Word(w)), 8 * |v|);
      PlusCancel(Word(v), Word(w), d);
      WordInjective(v, w);
    }
  }

  // ---- Messages followed by their checksum ----

  function Bytes(x: bv32): (r: seq<bv8>)
    ensures |r| == 4
  {
    [(x & 0xFF) as bv8, ((x >> 8) & 0xFF) as bv8, ((x >> 16) & 0xFF) as bv8, ((x >> 24) & 0xFF) as bv8]
  }

  lemma BytesWord(x: bv32)
    ensures Word(Bytes(x)) == x
  {
    JoinBytes(x);
    hide Join;
    var b := Bytes(x);
    assert b[1..] == [b[1], b[2], b[3]] && b[1..][1..] == [b[2], b[3]] && b[1..][1..][1..] == [b[3]];
    assert b[1..][1..][1..][1..] == [];
    assert Word(b[1..][1..][1..]) == Join(0, b[3]);
    assert Word(b[1..][1..]) == Join(Join(0, b[3]), b[2]);
    assert Word(b[1..]) == Join(Join(Join(0, b[3]), b[2]), b[1]);
  }

  lemma JoinBytes(x: bv32)
    ensures x == Join(Join(Join(Join(0, ((x >> 24) & 0xFF) as bv8), ((x >> 16) & 0xFF) as bv8), ((x >> 8) & 0xFF) as bv8), (x & 0xFF) as bv8)
  {
  }

  /** The remainder of a message followed by its checksum, whatever the message. */
  function Residue(): bv32 {
    Shift(ONES, 32)
  }

  /** Four bytes behind a message are its checksum exactly when the remainder of the whole is the residue. */
  lemma ChecksumIffResidue(message: seq<bv8>, tail: seq<bv8>)
    requires |tail| == 4
    ensures Word(tail) == Crc32(message) <==> Divide(ONES, message + tail) == Residue()
  {
    hide Divide, Shift, Word, Plus, Crc32;
    var r := Divide(ONES, message);
    DivideAppend(ONES, message, tail);
    DivideWord(r, tail);
    if Divide(ONES, message + tail) == Residue() {
      ShiftInjective(Plus(r, Word(tail)), ONES, 32);
    }
    CrcFills(message, Word(tail));
  }

  lemma CrcFills(message: seq<bv8>, x: bv32)
    ensures x == Crc32(message) <==> Plus(Divide(ONES, message), x) == ONES
  {
    hide Divide, Plus;
    ChecksumFills(Divide(ONES, message), x);
  }

  lemma ChecksumFills(r: bv32, x: bv32)
    ensures x == Plus(r, ONES) <==> Plus(r, x) == ONES
  {
    hide Plus;
    PlusTwice(r, ONES);
    PlusTwice(r, x);
  }

  lemma PlusTwice(r: bv32, x: bv32)
    ensures Plus(r, Plus(r, x)) == x
  {
  }
}
