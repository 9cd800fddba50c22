/**
 The reader's walk over a name, label by label and pointer by pointer: when it depends on the byte behind the
 packet, and when it marks a name as having too many labels.
 */
module MdnsWalk {
  import opened Common
  import opened MdnsName
  import opened MdnsCompress

  // ---- The byte behind the packet ----

  /** The walk meets a pointer whose second byte lies behind the packet. */
  predicate CutOff(packet: seq<byte>, start: nat, at: nat)
    requires start <= at
    decreases start, |packet| - at
  {
    if at >= |packet| || packet[at] == 0 then false
    else
      var len := packet[at] as int;
      if len < 0xC0 then len <= 63 && at + 1 + len <= |packet| && CutOff(packet, start, at + 1 + len)
      else if at + 1 >= |packet| then true
      else
        var address := Address(packet[at], packet[at + 1]);
        address < start && CutOff(packet, address, address)
  }

  /** The byte behind the packet does not matter unless a pointer is cut off. */
  lemma {:induction false} PastMatters(packet: seq<byte>, past: byte, other: byte, start: nat, at: nat, name: Name)
    requires start <= at && Wellformed(name) && !CutOff(packet, start, at)
    ensures Read(packet, past, start, at, name) == Read(packet, other, start, at, name)
    decreases start, |packet| - at
  {
    hide Accept;
    if at < |packet| && packet[at] != 0 {
      var len := packet[at] as int;
      if len < 0xC0 {
        if len <= 63 && at + 1 + len <= |packet| {
          PastMatters(packet, past, other, start, at + 1 + len, Accept(name, packet[at + 1..at + 1 + len]));
        }
      } else {
        var address := Address(packet[at], packet[at + 1]);
        if address < start {
          PastMatters(packet, past, other, address, address, Marked(name));
        }
      }
    }
  }

  /** A complete name is never cut off: it is read, whatever comes behind the packet. */
  lemma {:induction false} CompleteNotCutOff(packet: seq<byte>, past: byte, start: nat, at: nat, name: Name)
    requires start <= at && Wellformed(name)
    ensures Decode(packet, start, at).Some? ==> !CutOff(packet, start, at) && Read(packet, past, start, at, name).0.Some?
    decreases start, |packet| - at
  {
    hide Accept;
    if at < |packet| && packet[at] != 0 {
      var len := packet[at] as int;
      if len < 0xC0 {
        if len <= 63 && at + 1 + len <= |packet| {
          CompleteNotCutOff(packet, past, start, at + 1 + len, Accept(name, packet[at + 1..at + 1 + len]));
        }
      } else if at + 1 < |packet| {
        var address := Address(packet[at], packet[at + 1]);
        if address < start {
          CompleteNotCutOff(packet, past, address, address, Marked(name));
        }
      }
    }
  }

  // ---- The walk over a complete name ----

  datatype Item = Part(part: Label) | Jump

  function Parts(labels: seq<Label>): (r: seq<Item>)
    ensures |r| == |labels| && forall i :: 0 <= i < |r| ==> r[i] == Part(labels[i])
  {
    seq(|labels|, i requires 0 <= i < |labels| => Part(labels[i]))
  }

  /** What the reader meets on its way through a complete name. */
  function Items(bytes: seq<byte>, start: nat, at: nat): (r: Option<seq<Item>>)
    requires start <= at
    decreases start, |bytes| - at
  {
    if at >= |bytes| then None
    else if bytes[at] == 0 then Some([])
    else
      var len := bytes[at] as int;
      if len < 0xC0 then
        if len > 63 || at + 1 + len > |bytes| then None
        else
          match Items(bytes, start, at + 1 + len)
          case None => None
          case Some(rest) => Some([Part(bytes[at + 1..at + 1 + len])] + rest)
      else if at + 1 >= |bytes| then None
      else
        var address := Address(bytes[at], bytes[at + 1]);
        if address >= start then None
        else
          match Items(bytes, address, address)
          case None => None
          case Some(rest) => Some([Jump] + rest)
  }

  function Labels(items: seq<Item>): seq<Label> {
    if items == [] then []
    else (match items[0] case Part(part) => [part] case Jump => []) + Labels(items[1..])
  }

  /** Among what it meets are the labels of the name. */
  lemma {:induction false} ItemsDecode(bytes: seq<byte>, start: nat, at: nat)
    requires start <= at
    ensures Items(bytes, start, at).Some? <==> Decode(bytes, start, at).Some?
    ensures Items(bytes, start, at).Some? ==> Labels(Items(bytes, start, at).value) == Decode(bytes, start, at).value.0
    decreases start, |bytes| - at
  {
    if at < |bytes| && bytes[at] != 0 {
      var len := bytes[at] as int;
      if len < 0xC0 {
        if len <= 63 && at + 1 + len <= |bytes| {
          ItemsDecode(bytes, start, at + 1 + len);
          if Items(bytes, start, at + 1 + len).Some? {
            PartLabels(bytes[at + 1..at + 1 + len], Items(bytes, start, at + 1 + len).value);
          }
        }
      } else if at + 1 < |bytes| {
        var address := Address(bytes[at], bytes[at + 1]);
        if address < start {
          ItemsDecode(bytes, address, address);
          if Items(bytes, address, address).Some? {
            JumpedLabels(Items(bytes, address, address).value);
          }
        }
      }
    }
  }

  lemma PartLabels(part: Label, items: seq<Item>)
    ensures Labels([Part(part)] + items) == [part] + Labels(items)
  {
    assert ([Part(part)] + items)[1..] == items;
  }

  lemma JumpedLabels(items: seq<Item>)
    ensures Labels([Jump] + items) == Labels(items)
  {
    assert ([Jump] + items)[1..] == items;
    assert [] + Labels(items) == Labels(items);
  }

  predicate ShortItems(items: seq<Item>) {
    forall i :: 0 <= i < |items| && items[i].Part? ==> 1 <= |items[i].part| <= 63
  }

  function Take(name: Name, item: Item): (r: Name)
    requires Wellformed(name) && (item.Part? ==> 1 <= |item.part| <= 63)
    ensures Wellformed(r)
  {
    match item
    case Part(part) => Accept(name, part)
    case Jump => Marked(name)
  }

  function TakeAll(name: Name, items: seq<Item>): (r: Name)
    requires Wellformed(name) && ShortItems(items)
    ensures Wellformed(r)
    decreases |items|
  {
    if items == [] then name else TakeAll(Take(name, items[0]), items[1..])
  }

  lemma {:induction false} LabelsAppend(a: seq<Item>, b: seq<Item>)
    ensures Labels(a + b) == Labels(a) + Labels(b)
  {
    if a == [] {
      assert a + b == b;
    } else {
      assert (a + b)[1..] == a[1..] + b;
      LabelsAppend(a[1..], b);
      Associative(match a[0] case Part(part) => [part] case Jump => [], Labels(a[1..]), Labels(b));
    }
  }

  lemma {:induction false} LabelsParts(labels: seq<Label>)
    ensures Labels(Parts(labels)) == labels
  {
    if labels != [] {
      assert Parts(labels)[1..] == Parts(labels[1..]);
      LabelsParts(labels[1..]);
    }
  }

  lemma {:induction false} ShortLabels(items: seq<Item>)
    requires ShortItems(items)
    ensures Short(Labels(items))
  {
    if items != [] {
      ShortLabels(items[1..]);
    }
  }

  lemma {:induction false} ItemsShort(bytes: seq<byte>, start: nat, at: nat)
    requires start <= at && Items(bytes, start, at).Some?
    ensures ShortItems(Items(bytes, start, at).value)
    decreases start, |bytes| - at
  {
    if bytes[at] != 0 {
      var len := bytes[at] as int;
      if len < 0xC0 {
        ItemsShort(bytes, start, at + 1 + len);
      } else {
        var address := Address(bytes[at], bytes[at + 1]);
        ItemsShort(bytes, address, address);
      }
    }
  }

  lemma {:induction false} ItemsStable(bytes: seq<byte>, more: seq<byte>, start: nat, at: nat)
    requires start <= at && bytes <= more && Items(bytes, start, at).Some?
    ensures Items(more, start, at) == Items(bytes, start, at)
    decreases start, |bytes| - at
  {
    var len := bytes[at] as int;
    if len == 0 {
    } else if len < 0xC0 {
      ItemsStable(bytes, more, start, at + 1 + len);
      assert more[at + 1..at + 1 + len] == bytes[at + 1..at + 1 + len];
    } else {
      var address := Address(bytes[at], bytes[at + 1]);
      ItemsStable(bytes, more, address, address);
    }
  }

  /** The reader takes in exactly what it meets, marks included. */
  lemma {:induction false} ReadTakes(packet: seq<byte>, past: byte, start: nat, at: nat, name: Name)
    requires start <= at && Wellformed(name) && Items(packet, start, at).Some?
    ensures ShortItems(Items(packet, start, at).value)
    ensures Read(packet, past, start, at, name).1 == TakeAll(name, Items(packet, start, at).value)
    decreases start, |packet| - at
  {
    hide Accept;
    ItemsShort(packet, start, at);
    var items := Items(packet, start, at).value;
    var len := packet[at] as int;
    if len == 0 {
    } else if len < 0xC0 {
      var part := packet[at + 1..at + 1 + len];
      ReadTakes(packet, past, start, at + 1 + len, Accept(name, part));
      assert items[1..] == Items(packet, start, at + 1 + len).value;
    } else {
      var address := Address(packet[at], packet[at + 1]);
      ReadTakes(packet, past, address, address, Marked(name));
      assert items[1..] == Items(packet, address, address).value;
    }
  }

  /** Pointers matter for the mark of superfluous labels only. */
  lemma {:induction false} TakeAllAlike(name: Name, items: seq<Item>)
    requires Wellformed(name) && ShortItems(items)
    ensures Short(Labels(items)) && Alike(TakeAll(name, items), AcceptAll(name, Labels(items)))
    decreases |items|
  {
    hide Accept, Marked, Alike, Wellformed, Labels;
    ShortLabels(items);
    if items == [] {
      NoItems();
      Itself(name);
    } else {
      var rest := items[1..];
      assert items == [items[0]] + rest;
      ShortLabels(rest);
      TakeAllAlike(Take(name, items[0]), rest);
      match items[0]
      case Part(part) =>
        PartLabels(part, rest);
        assert ([part] + Labels(rest))[1..] == Labels(rest);
      case Jump =>
        JumpedLabels(rest);
        MarkedAlike(name);
        AcceptAllAlike(Marked(name), name, Labels(rest));
        AlikeThrough(TakeAll(Marked(name), rest), AcceptAll(Marked(name), Labels(rest)), AcceptAll(name, Labels(rest)));
    }
  }

  lemma Itself(name: Name)
    ensures Alike(name, name)
  {
  }

  lemma MarkedAlike(name: Name)
    ensures Alike(Marked(name), name)
  {
  }

  lemma AlikeThrough(a: Name, b: Name, c: Name)
    requires Alike(a, b) && Alike(b, c)
    ensures Alike(a, c)
  {
  }

  // ---- The mark for superfluous labels ----

  lemma {:induction false} TakeAllLast(name: Name, items: seq<Item>, item: Item)
    requires Wellformed(name) && ShortItems(items) && (item.Part? ==> 1 <= |item.part| <= 63)
    ensures ShortItems(items + [item]) && TakeAll(name, items + [item]) == Take(TakeAll(name, items), item)
    decreases |items|
  {
    hide Take;
    if items == [] {
      assert items + [item] == [item] && [item][1..] == [];
    } else {
      TakeAllLast(Take(name, items[0]), items[1..], item);
      assert (items + [item])[1..] == items[1..] + [item];
    }
  }

  /** Four fields are filled before the walk is over. */
  ghost predicate FullEarly(name: Name, items: seq<Item>)
    requires Wellformed(name) && ShortItems(items)
  {
    exists j :: 0 <= j < |items| && TakeAll(name, items[..j]).parts == 4
  }

  /** A name is marked exactly if something is met after its four fields have been filled. */
  lemma {:induction false} MarkedExactly(name: Name, items: seq<Item>)
    requires Wellformed(name) && ShortItems(items) && !name.invalid
    ensures TakeAll(name, items).invalid <==> FullEarly(name, items)
    decreases |items|
  {
    if items != [] {
      var n := |items| - 1;
      var init := items[..n];
      MarkedExactly(name, init);
      TakeAllLast(name, init, items[n]);
      assert items == init + [items[n]];
      TakeMarks(TakeAll(name, init), items[n]);
      if FullEarly(name, items) {
        var j :| 0 <= j < |items| && TakeAll(name, items[..j]).parts == 4;
        if j < n {
          assert init[..j] == items[..j];
        }
      }
    }
  }

  lemma TakeMarks(name: Name, item: Item)
    requires Wellformed(name) && (item.Part? ==> 1 <= |item.part| <= 63)
    ensures Take(name, item).invalid <==> name.invalid || name.parts == 4
  {
  }

  // ---- The mark of a name just written ----

  /** What the reader meets in the name found by the search, nothing if there is none. */
  function FoundItems(out: Out, past: byte, strings: seq<Label>, origin: nat): (r: seq<Item>)
    requires Sound(out) && Texts(strings) && origin <= out.index && Placed(out, past, strings, origin)
    decreases |strings|
  {
    if strings == [] then []
    else
      match Search(out.packet, past, 0, out.index, strings)
      case Some(p) =>
        ItemsDecode(out.packet[..origin], p, p);
        Items(out.packet[..origin], p, p).value
      case None => FoundItems(AppendString(out, strings[0]).0, past, strings[1..], origin)
  }

  lemma {:induction false} FoundItemsLabels(out: Out, past: byte, strings: seq<Label>, origin: nat)
    requires Sound(out) && Texts(strings) && origin <= out.index && Placed(out, past, strings, origin)
    ensures ShortItems(FoundItems(out, past, strings, origin))
    ensures Labels(FoundItems(out, past, strings, origin)) == Found(out, past, strings, origin)
    decreases |strings|
  {
    hide Search, Items, Decode, ShortItems;
    if strings == [] {
      assert ShortItems([]) by { NoItems(); }
    } else {
      match Search(out.packet, past, 0, out.index, strings)
      case Some(p) =>
        ItemsDecode(out.packet[..origin], p, p);
        ItemsShort(out.packet[..origin], p, p);
      case None => FoundItemsLabels(AppendString(out, strings[0]).0, past, strings[1..], origin);
    }
  }

  lemma NoItems()
    ensures ShortItems([]) && Labels([]) == []
  {
  }

  /** The walk over what was written: the strings written out, and then, behind a pointer, the name found. */
  function WrittenItems(out: Out, past: byte, strings: seq<Label>, origin: nat): (r: seq<Item>)
    requires Sound(out) && Texts(strings) && origin <= out.index && Placed(out, past, strings, origin)
  {
    var k := Written(out, past, strings);
    Parts(strings[..k]) + if k == |strings| then [] else [Jump] + FoundItems(out, past, strings, origin)
  }

  lemma PointerItems(bytes: seq<byte>, early: seq<byte>, origin: nat, at: nat, p: nat)
    requires early <= bytes && p < origin <= at && at + 2 <= |bytes| && p < 0x4000
    requires bytes[at..at + 2] == U16(Pointer(p)) && Items(early, p, p).Some?
    ensures Items(bytes, origin, at) == Some([Jump] + Items(early, p, p).value)
  {
    assert bytes[at] == bytes[at..at + 2][0] && bytes[at + 1] == bytes[at..at + 2][1];
    ItemsStable(early, bytes, p, p);
  }

  lemma LabelItems(bytes: seq<byte>, origin: nat, at: nat, part: Label)
    requires origin <= at && 1 <= |part| <= 63 && at + 1 + |part| <= |bytes|
    requires bytes[at..at + 1 + |part|] == [|part| as byte] + part
    requires Items(bytes, origin, at + 1 + |part|).Some?
    ensures Items(bytes, origin, at) == Some([Part(part)] + Items(bytes, origin, at + 1 + |part|).value)
  {
    assert bytes[at] == bytes[at..at + 1 + |part|][0];
    assert bytes[at + 1..at + 1 + |part|] == bytes[at..at + 1 + |part|][1..] == part;
  }

  lemma {:induction false} AppendItems(out: Out, past: byte, strings: seq<Label>, origin: nat, start: nat, bytes: seq<byte>)
    requires Sound(out) && Texts(strings) && Short(strings) && origin <= start <= out.index && Placed(out, past, strings, origin)
    requires Shows(bytes, out, AppendName(out, past, strings).0, origin)
    ensures Items(bytes, start, out.index) == Some(WrittenItems(out, past, strings, origin))
    decreases |strings|
  {
    hide Hit, Put, Search, U16, Decode, Extends, Shows, Items, Labels, Found;
    var done := AppendName(out, past, strings).0;
    if strings == [] {
      ExtendsItself(done);
      PutStays(out, [0], done, bytes, origin);
      TerminatorItems(bytes, start, out.index);
      assert WrittenItems(out, past, strings, origin) == [];
    } else if Search(out.packet, past, 0, out.index, strings).Some? {
      var p := Search(out.packet, past, 0, out.index, strings).value;
      ExtendsItself(done);
      PutStays(out, U16(Pointer(p)), done, bytes, origin);
      EarlyShown(bytes, out, done, origin);
      ItemsDecode(out.packet[..origin], p, p);
      PointerItems(bytes, out.packet[..origin], start, out.index, p);
      assert WrittenItems(out, past, strings, origin) == [Jump] + Items(out.packet[..origin], p, p).value;
    } else {
      var next := AppendString(out, strings[0]).0;
      AppendKeeps(next, past, strings[1..]);
      PutStays(out, [|strings[0]| as byte] + strings[0], done, bytes, origin);
      AppendItems(next, past, strings[1..], origin, start, bytes);
      LabelItems(bytes, start, out.index, strings[0]);
      var k := Written(next, past, strings[1..]);
      assert strings[..k + 1] == [strings[0]] + strings[1..][..k];
      assert Parts(strings[..k + 1]) == [Part(strings[0])] + Parts(strings[1..][..k]);
      var tail := if k == |strings[1..]| then [] else [Jump] + FoundItems(next, past, strings[1..], origin);
      Associative([Part(strings[0])], Parts(strings[1..][..k]), tail);
      assert WrittenItems(out, past, strings, origin) == Parts(strings[..k + 1]) + tail;
    }
  }

  lemma TerminatorItems(bytes: seq<byte>, origin: nat, at: nat)
    requires origin <= at < |bytes| && bytes[at..at + 1] == [0]
    ensures Items(bytes, origin, at) == Some([])
  {
    assert bytes[at] == bytes[at..at + 1][0];
  }

  /** The fields of a name are filled before everything in it has been met. */
  ghost predicate Trails(items: seq<Item>, fields: nat)
    requires ShortItems(items)
  {
    exists j :: 0 <= j < |items| && TakeAll(EMPTY, items[..j]).parts == fields
  }

  /** The strings written out fill one field each. */
  lemma PartsFill(strings: seq<Label>, j: nat)
    requires Shape(strings) && j <= |strings|
    ensures ShortItems(Parts(strings[..j])) && TakeAll(EMPTY, Parts(strings[..j])).parts == j
  {
    hide AcceptAll;
    LabelsParts(strings[..j]);
    TakeAllAlike(EMPTY, Parts(strings[..j]));
    AcceptWritten(strings, j);
  }

  /** The first labels of the name found fill as many fields behind the strings written out as on their own. */
  lemma PrefixBeside(strings: seq<Label>, k: nat, first: seq<Label>, rest: seq<Label>, b: Name)
    requires Shape(strings) && 0 < k < |strings| && Short(first) && Short(rest) && Short(first + rest)
    requires first != [] && first[0] == strings[k] && Matches(AcceptAll(EMPTY, first + rest), strings[k..])
    requires Wellformed(b) && b.parts == k && !b.sub && !b.invalid
    ensures AcceptAll(b, first).parts == k + AcceptAll(EMPTY, first).parts <= |strings|
  {
    assert Cut(strings[k]) == strings[k];
    var a1, b1 := Accept(EMPTY, first[0]), Accept(b, first[0]);
    assert a1.parts == 1 && b1.parts == k + 1 && a1.fields[0] == b1.fields[k] == strings[k] && !a1.sub && !b1.sub;
    hide Accept;
    AcceptAllAppend(EMPTY, first, rest);
    AcceptAllGrows(AcceptAll(EMPTY, first), rest);
    AcceptAllGrows(a1, first[1..]);
    assert Same(strings[k..][0], AcceptAll(EMPTY, first + rest).fields[0]);
    AcceptBeside(a1, b1, k, first[1..]);
  }

  lemma PrefixParts(strings: seq<Label>, k: nat, first: seq<Label>, rest: seq<Label>)
    requires Shape(strings) && k < |strings| && Short(first) && Short(rest) && Short(first + rest)
    requires first + rest != [] && (first + rest)[0] == strings[k] && Matches(AcceptAll(EMPTY, first + rest), strings[k..])
    ensures Short(strings[..k] + first)
    ensures AcceptAll(EMPTY, strings[..k] + first).parts == k + AcceptAll(EMPTY, first).parts <= |strings|
  {
    hide Accept, Matches;
    AcceptWritten(strings, k);
    AcceptAllAppend(EMPTY, strings[..k], first);
    if first == [] {
      assert AcceptAll(EMPTY, first) == EMPTY;
    } else if k == 0 {
      assert strings[..0] == [] && strings[0..] == strings;
      AcceptAllAppend(EMPTY, first, rest);
      AcceptAllGrows(AcceptAll(EMPTY, first), rest);
      MatchedParts(AcceptAll(EMPTY, first + rest), strings);
    } else {
      assert (first + rest)[0] == first[0];
      PrefixBeside(strings, k, first, rest, AcceptAll(EMPTY, strings[..k]));
    }
  }

  lemma MatchedParts(name: Name, strings: seq<Label>)
    requires |name.fields| == 4 && Matches(name, strings)
    ensures name.parts == |strings|
  {
  }

  /** The fields filled once the walk has come `j` items far into the name found. */
  lemma FieldsFilled(strings: seq<Label>, k: nat, items: seq<Item>, j: nat)
    requires Shape(strings) && k < |strings| && ShortItems(items) && j <= |items| && Short(Labels(items))
    requires Short(strings[..k])
    requires Labels(items) != [] && Labels(items)[0] == strings[k] && Matches(AcceptAll(EMPTY, Labels(items)), strings[k..])
    ensures ShortItems(Parts(strings[..k]) + ([Jump] + items[..j]))
    ensures TakeAll(EMPTY, Parts(strings[..k]) + ([Jump] + items[..j])).parts == k + TakeAll(EMPTY, items[..j]).parts <= |strings|
  {
    hide Accept, AcceptAll, Matches, Labels, TakeAll, Shape, Short, ShortItems, Parts;
    var first, rest := items[..j], items[j..];
    assert items == first + rest;
    ShortTaken(items, j);
    LabelsAppend(first, rest);
    ShortLabels(first);
    ShortLabels(rest);
    PrefixParts(strings, k, Labels(first), Labels(rest));
    LabelsOfWalk(strings[..k], first);
    TakeAllAlike(EMPTY, Parts(strings[..k]) + ([Jump] + first));
    TakeAllAlike(EMPTY, first);
  }

  lemma ShortTaken(items: seq<Item>, j: nat)
    requires ShortItems(items) && j <= |items|
    ensures ShortItems(items[..j]) && ShortItems(items[j..])
  {
  }

  lemma LabelsOfWalk(strings: seq<Label>, items: seq<Item>)
    requires Short(strings) && ShortItems(items)
    ensures ShortItems(Parts(strings) + ([Jump] + items))
    ensures Labels(Parts(strings) + ([Jump] + items)) == strings + Labels(items)
  {
    hide Labels;
    LabelsAppend(Parts(strings), [Jump] + items);
    JumpedLabels(items);
    LabelsParts(strings);
  }

  /** Behind a pointer, the walk goes on after the fourth field exactly if it does so in the name found. */
  lemma FullEarlyBehind(strings: seq<Label>, k: nat, items: seq<Item>)
    requires Shape(strings) && k < |strings| && ShortItems(items) && Short(Labels(items))
    requires Labels(items) != [] && Labels(items)[0] == strings[k] && Matches(AcceptAll(EMPTY, Labels(items)), strings[k..])
    ensures ShortItems(Parts(strings[..k]) + ([Jump] + items))
    ensures FullEarly(EMPTY, Parts(strings[..k]) + ([Jump] + items)) <==> |strings| == 4 && Trails(items, 4 - k)
  {
    hide Accept, AcceptAll, Matches, Labels, TakeAll;
    var all := Parts(strings[..k]) + ([Jump] + items);
    forall j | 0 <= j <= k ensures ShortItems(all[..j]) && TakeAll(EMPTY, all[..j]).parts == j {
      assert all[..j] == Parts(strings[..j]);
      PartsFill(strings, j);
    }
    forall i | 0 <= i <= |items|
      ensures ShortItems(all[..k + 1 + i]) && TakeAll(EMPTY, all[..k + 1 + i]).parts == k + TakeAll(EMPTY, items[..i]).parts <= |strings|
    {
      assert all[..k + 1 + i] == Parts(strings[..k]) + ([Jump] + items[..i]);
      FieldsFilled(strings, k, items, i);
    }
    if FullEarly(EMPTY, all) {
      var j :| 0 <= j < |all| && TakeAll(EMPTY, all[..j]).parts == 4;
      assert j > k;
      var i := j - k - 1;
      assert all[..k + 1 + i] == all[..j];
      assert TakeAll(EMPTY, items[..i]).parts == 4 - k;
    }
    if |strings| == 4 && Trails(items, 4 - k) {
      var i :| 0 <= i < |items| && TakeAll(EMPTY, items[..i]).parts == 4 - k;
      assert TakeAll(EMPTY, all[..k + 1 + i]).parts == 4;
    }
  }

  lemma NotFullEarly(strings: seq<Label>)
    requires Shape(strings)
    ensures ShortItems(Parts(strings)) && !FullEarly(EMPTY, Parts(strings))
  {
    hide TakeAll;
    forall j | 0 <= j < |strings| ensures ShortItems(Parts(strings)[..j]) && TakeAll(EMPTY, Parts(strings)[..j]).parts == j {
      assert Parts(strings)[..j] == Parts(strings[..j]);
      PartsFill(strings, j);
    }
  }

  /**
   A name of one of the responder's shapes, once appended, reads back with the mark for superfluous labels
   exactly if it has four labels and ends in a pointer to a name in which more follows after its last field.
   */
  lemma RoundTripMark(out: Out, past: byte, strings: seq<Label>, after: byte)
    requires Sound(out) && Shape(strings) && Placed(out, past, strings, out.index)
    ensures var done := AppendName(out, past, strings).0;
            var k, found := Written(out, past, strings), FoundItems(out, past, strings, out.index);
            ShortItems(found) &&
            (Read(done.packet[..done.index], after, out.index, out.index, EMPTY).1.invalid <==>
             |strings| == 4 && k < 4 && Trails(found, 4 - k))
  {
    hide AppendName, Placed, Read, AcceptAll, Matches, Items, TakeAll, Search, Written, FoundItems, FullEarly, Trails, Labels;
    AppendKeeps(out, past, strings);
    var done := AppendName(out, past, strings).0;
    var bytes := done.packet[..done.index];
    ShowsItself(out, done);
    AppendItems(out, past, strings, out.index, out.index, bytes);
    ReadTakes(bytes, after, out.index, out.index, EMPTY);
    var items := WrittenItems(out, past, strings, out.index);
    MarkedExactly(EMPTY, items);
    FoundItemsLabels(out, past, strings, out.index);
    FoundStands(out, past, strings, out.index);
    var k, found := Written(out, past, strings), FoundItems(out, past, strings, out.index);
    ShortLabels(found);
    if k == |strings| {
      assert strings[..k] == strings && items == Parts(strings);
      NotFullEarly(strings);
    } else {
      FullEarlyBehind(strings, k, found);
    }
  }
}
