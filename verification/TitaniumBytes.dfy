/** Numbers of sixteen bits in two bytes, the lower one first. */
module TitaniumBytes {
  function Low(x: nat): bv8 {
    (x % 0x100) as bv8
  }

  function High(x: nat): bv8 {
    (x / 0x100 % 0x100) as bv8
  }

  function Number(low: bv8, high: bv8): (r: nat)
    ensures r < 0x10000
  {
    low as nat + 0x100 * high as nat
  }

  lemma NumberBack(x: nat)
    requires x < 0x10000
    ensures Number(Low(x), High(x)) == x
  {
    ByteBack(x % 0x100);
    ByteBack(x / 0x100 % 0x100);
    assert x / 0x100 % 0x100 == x / 0x100;
  }

  lemma ByteBack(x: nat)
    requires x < 0x100
    ensures (x as bv8) as nat == x
  {
    assert x % 0x100 == x && (x as bv8) as nat == x;
  }

  lemma LowHigh(x: nat)
    requires x < 0x10000
    ensures Low(x) == (x % 0x100) as bv8 && High(x) == (x / 0x100) as bv8
  {
  }
}
