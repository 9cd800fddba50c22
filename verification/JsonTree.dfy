/** JSON documents as trees, shared by the text and the MessagePack formats. */
module JsonTree {
  import opened Common

  /** Integers are 64 bits wide, signed or unsigned; strings are arbitrary bytes. */
  datatype Tree =
    | Null
    | Boolean(b: bool)
    | Integer(n: int)
    | Text(bytes: seq<byte>)
    | List(items: seq<Tree>)
    | Record(members: seq<Pair>)

  datatype Pair = Pair(key: seq<byte>, value: Tree)

  const INT64_MIN := -0x8000_0000_0000_0000
  const UINT64_MAX := 0xFFFF_FFFF_FFFF_FFFF

  /** The deserializers' results. */
  datatype Code = EmptyInput | IncompleteInput | InvalidInput | TooDeep

  /** What a step of a reader yields; inputs that need floating point are outside the model. */
  datatype Parsed<T> = Good(value: T, pos: nat) | Bad(code: Code) | Outside

  /** What a text stands for: a value, or that it is nested too deeply, or that it holds a number that needs floating point. */
  datatype Meaning<+T> = Is(value: T) | Deep | Floating

  /** A meaning as a reader reports it that has got to `end`. */
  function Result<T>(m: Meaning<T>, end: nat): Parsed<T> {
    match m
    case Is(value) => Good(value, end)
    case Deep => Bad(TooDeep)
    case Floating => Outside
  }

  function Nesting(t: Tree): nat
    decreases t
  {
    match t
    case List(items) => 1 + ItemsNesting(items)
    case Record(members) => 1 + MembersNesting(members)
    case _ => 0
  }

  function ItemsNesting(items: seq<Tree>): nat
    decreases items
  {
    if items == [] then 0 else Max(Nesting(items[0]), ItemsNesting(items[1..]))
  }

  function MembersNesting(members: seq<Pair>): nat
    decreases members
  {
    if members == [] then 0 else Max(Nesting(members[0].value), MembersNesting(members[1..]))
  }

  function Max(a: nat, b: nat): nat {
    if a < b then b else a
  }

  function Outcome<T>(deep: bool, value: T, pos: nat): Parsed<T> {
    if deep then Bad(TooDeep) else Good(value, pos)
  }

  /** The key does not occur among the members. */
  predicate Fresh(members: seq<Pair>, key: seq<byte>) {
    forall i :: 0 <= i < |members| ==> members[i].key != key
  }

  /** Integers fit 64 bits; the keys of an object are C strings, each used once. */
  predicate Legal(t: Tree)
    decreases t
  {
    match t
    case Integer(n) => INT64_MIN <= n <= UINT64_MAX
    case List(items) => LegalItems(items)
    case Record(members) => LegalMembers([], members)
    case _ => true
  }

  predicate LegalItems(items: seq<Tree>)
    decreases items
  {
    items == [] || (Legal(items[0]) && LegalItems(items[1..]))
  }

  /** The members are legal behind those in `earlier`. */
  predicate LegalMembers(earlier: seq<Pair>, members: seq<Pair>)
    decreases members
  {
    members == []
    || (Legal(members[0].value) && 0 !in members[0].key && Fresh(earlier, members[0].key)
        && LegalMembers(earlier + [members[0]], members[1..]))
  }

  /** The first member with the key. */
  function Find(members: seq<Pair>, key: seq<byte>): (r: Option<nat>)
    ensures r.None? <==> Fresh(members, key)
    ensures r.Some? ==> r.value < |members| && members[r.value].key == key && Fresh(members[..r.value], key)
    decreases |members|
  {
    if members == [] then None
    else if members[0].key == key then Some(0)
    else
      match Find(members[1..], key)
      case None =>
        assert forall i :: 1 <= i < |members| ==> members[i] == members[1..][i - 1];
        None
      case Some(i) =>
        assert members[..i + 1] == [members[0]] + members[1..][..i];
        Some(i + 1)
  }

  /** A member set: in place if its key is there already. */
  function Put(members: seq<Pair>, key: seq<byte>, value: Tree): seq<Pair> {
    match Find(members, key)
    case None => members + [Pair(key, value)]
    case Some(i) => members[i := Pair(key, value)]
  }

  /** The value a member has before it is read; null for a new one. */
  function Before(members: seq<Pair>, key: seq<byte>): Tree {
    match Find(members, key)
    case None => Null
    case Some(i) => members[i].value
  }

  /** Setting a member: its key has the value afterwards, every other key what it had; a new key goes behind the others. */
  lemma PutSets(members: seq<Pair>, key: seq<byte>, value: Tree, other: seq<byte>)
    ensures var r := Put(members, key, value);
            && Find(r, key).Some? && Before(r, key) == value
            && (other != key ==> Find(r, other) == Find(members, other) && Before(r, other) == Before(members, other))
            && (Fresh(members, key) ==> r == members + [Pair(key, value)])
            && (!Fresh(members, key) ==> |r| == |members|)
            && forall i :: 0 <= i < |members| ==> r[i].key == members[i].key
  {
    var r := Put(members, key, value);
    match Find(members, key)
    case None =>
      FindIs(r, key, |members|);
      if other != key {
        SameFind(members, r, other);
      }
    case Some(k) =>
      assert r[..k] == members[..k];
      FindIs(r, key, k);
      if other != key {
        SameFind(members, r, other);
      }
  }

  lemma FindIs(members: seq<Pair>, key: seq<byte>, i: nat)
    requires i < |members| && members[i].key == key && Fresh(members[..i], key)
    ensures Find(members, key) == Some(i)
  {
    var r := Find(members, key);
    assert !Fresh(members, key);
    assert forall k :: 0 <= k < i ==> members[..i][k] == members[k];
    assert forall k :: 0 <= k < r.value ==> members[..r.value][k] == members[k];
  }

  /** The same keys in front, and only the key asked for behind them. */
  lemma SameFind(a: seq<Pair>, b: seq<Pair>, key: seq<byte>)
    requires |a| <= |b| && (forall i :: 0 <= i < |a| ==> b[i].key == a[i].key) && (forall i :: |a| <= i < |b| ==> b[i].key != key)
    ensures Find(b, key) == Find(a, key)
  {
    if Find(a, key).Some? {
      var i := Find(a, key).value;
      assert forall k :: 0 <= k < i ==> a[..i][k].key != key;
      FindIs(b, key, i);
    }
  }

  // ---- Decimal numbers ----

  /** A 64-bit number has at most twenty digits. */
  lemma DecimalLength(n: nat)
    requires n <= UINT64_MAX
    ensures |Decimal(n)| <= 20
  {
    assert Power10(4) == 10000;
    assert Power10(8) == 10000 * Power10(4);
    assert Power10(12) == 10000 * Power10(8);
    assert Power10(16) == 10000 * Power10(12);
    assert Power10(20) == 10000 * Power10(16);
    DecimalShort(n, 20);
  }

  lemma {:induction false} DecimalShort(n: nat, digits: nat)
    requires digits > 0 && n < Power10(digits)
    ensures |Decimal(n)| <= digits
    decreases digits
  {
    if n >= 10 {
      Power10Step(digits);
      DecimalShort(n / 10, digits - 1);
    }
  }

  function Power10(k: nat): nat {
    if k == 0 then 1 else if k == 1 then 10 else if k == 2 then 100 else if k == 3 then 1000 else 10000 * Power10(k - 4)
  }

  lemma {:induction false} Power10Step(k: nat)
    requires k > 0
    ensures Power10(k) == 10 * Power10(k - 1)
  {
    if k > 4 {
      Power10Step(k - 4);
    }
  }
}
