/**
 What the data of a TXT record says (section 6 of RFC 6763): strings, each with its length in front, split at the first
 equals sign; strings without a key say nothing.
 */
module MdnsTxt {
  import opened Common
  import opened MdnsRecord

  /** The position of the first equals sign, or the length. */
  function KeyLength(text: seq<byte>): (r: nat)
    ensures r <= |text| && (r < |text| ==> text[r] == 0x3D) && forall i :: 0 <= i < r ==> text[i] != 0x3D
  {
    if text == [] || text[0] == 0x3D then 0 else 1 + KeyLength(text[1..])
  }

  /** What one string says. */
  function Said(text: seq<byte>): seq<TxtEntry> {
    var n := KeyLength(text);
    if n == 0 then [] else [TxtEntry(text[..n], if n < |text| then Some(text[n + 1..]) else None)]
  }

  /** What the data says, unless a string reaches beyond its end. */
  function Strings(data: seq<byte>): Option<seq<TxtEntry>>
    decreases |data|
  {
    if data == [] then Some([])
    else
      var end := 1 + data[0] as nat;
      if end > |data| then None
      else
        match Strings(data[end..])
        case None => None
        case Some(rest) => Some(Said(data[1..end]) + rest)
  }

  /** Entries with a key that has no equals sign in it, short enough for their length byte. */
  predicate Plain(entry: TxtEntry) {
    entry.key != [] && 0x3D !in entry.key && |EntryText(entry)| < 256
  }

  lemma SaidBack(entry: TxtEntry)
    requires Plain(entry)
    ensures Said(EntryText(entry)) == [entry]
  {
    var text, k := EntryText(entry), |entry.key|;
    var n := KeyLength(text);
    assert forall i :: 0 <= i < k ==> text[i] == entry.key[i];
    if entry.value.Some? {
      assert text[k] == 0x3D;
      assert text[k + 1..] == entry.value.value;
    }
    assert n == k;
    assert text[..k] == entry.key;
  }

  lemma {:induction false} EntriesBack(entries: seq<TxtEntry>)
    requires forall i :: 0 <= i < |entries| ==> Plain(entries[i])
    ensures Strings(EntriesBytes(entries)) == Some(entries)
    decreases |entries|
  {
    if entries != [] {
      var text, rest := EntryText(entries[0]), EntriesBytes(entries[1..]);
      var data := [|text| as byte] + text + rest;
      assert EntriesBytes(entries) == data;
      assert data[1..1 + |text|] == text && data[1 + |text|..] == rest;
      assert Plain(entries[0]);
      SaidBack(entries[0]);
      EntriesBack(entries[1..]);
      assert entries == [entries[0]] + entries[1..];
    }
  }

  /** The data of a TXT record says exactly the entries it was written for, the single zero byte that there are none. */
  lemma TxtSays(entries: seq<TxtEntry>)
    requires forall i :: 0 <= i < |entries| ==> Plain(entries[i])
    ensures Strings(TxtBytes(entries)) == Some(entries)
  {
    if entries == [] {
      var zero: seq<byte> := [0];
      assert zero[1..1] == [] && zero[1..] == [];
      assert Strings([]) == Some([]) && Said([]) + [] == [];
    } else {
      EntriesBack(entries);
    }
  }
}
