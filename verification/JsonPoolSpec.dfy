/**
 A JSON document inside its memory pool: strings grow from the left end, slots from the right end,
 and the slots refer to both by address. What the document means, and what moving it must keep.
 */
module JsonPoolSpec {
  import opened Common

  /** The distance between neighbouring slots in bytes. */
  const SLOT_SIZE := 16
  /** The alignment of addresses. */
  const ALIGNMENT := 4

  /**
   The content of a variant. Linked strings and raw values live outside the pool; a collection holds
   the addresses of its first and last slot, zero when it is empty.
   */
  datatype Content =
    | Null
    | Boolean(b: bool)
    | Unsigned(u: nat)
    | Signed(n: int)
    | Float(bits: int)
    | Linked(raw: bool, address: int, size: nat)
    | Owned(raw: bool, address: int, size: nat)
    | Collection(keyed: bool, head: int, tail: int)

  datatype Key = NoKey | LinkedKey(address: int) | OwnedKey(address: int)

  /** `next` is the distance to the next slot of the collection in slots, zero at the end. */
  datatype Slot = Slot(content: Content, next: int, key: Key)

  /**
   The block from `begin` to `end`: the strings are the bytes up to `left`, and `slots` lists the slots
   in the order in which they were allocated, downwards from `end`.
   */
  datatype Pool = Pool(begin: int, end: int, text: seq<byte>, slots: seq<Slot>)

  function Left(p: Pool): int {
    p.begin + |p.text|
  }

  function Right(p: Pool): int {
    p.end - SLOT_SIZE * |p.slots|
  }

  predicate Sound(p: Pool) {
    0 < p.begin && Left(p) <= Right(p)
  }

  function Address(p: Pool, i: nat): int {
    p.end - SLOT_SIZE * (i + 1)
  }

  /** The string at an address, `size` bytes long, lies in the left part with its terminator. */
  predicate Holds(p: Pool, address: int, size: nat) {
    p.begin <= address && address + size < Left(p)
  }

  function StringAt(p: Pool, address: int, size: nat): seq<byte>
    requires Holds(p, address, size)
  {
    p.text[address - p.begin..address - p.begin + size]
  }

  /** The C string at an address, if it is terminated inside the left part. */
  function CString(text: seq<byte>): (r: Option<seq<byte>>)
    decreases |text|
  {
    if text == [] then None
    else if text[0] == 0 then Some([])
    else match CString(text[1..]) { case None => None case Some(s) => Some([text[0]] + s) }
  }

  predicate HoldsCString(p: Pool, address: int) {
    p.begin <= address < Left(p) && CString(p.text[address - p.begin..]).Some?
  }

  // ---- The block of memory ----

  /** One byte of the block. */
  datatype Cell = Free | Char(b: byte) | SlotByte(slot: Slot, k: nat)

  function CharCells(text: seq<byte>): (r: seq<Cell>)
    ensures |r| == |text|
    ensures forall i :: 0 <= i < |text| ==> r[i] == Char(text[i])
  {
    seq(|text|, i requires 0 <= i < |text| => Char(text[i]))
  }

  function SlotCells(slot: Slot): (r: seq<Cell>)
    ensures |r| == SLOT_SIZE
    ensures forall k :: 0 <= k < SLOT_SIZE ==> r[k] == SlotByte(slot, k)
  {
    seq(SLOT_SIZE, k requires 0 <= k < SLOT_SIZE => SlotByte(slot, k))
  }

  /** The cells from position `at` on hold the slot. */
  predicate SlotStored(memory: seq<Cell>, at: int, slot: Slot) {
    0 <= at && at + SLOT_SIZE <= |memory| && memory[at..at + SLOT_SIZE] == SlotCells(slot)
  }

  /** The block holds the strings of the pool from its left end and the slots up to its right end. */
  predicate Laid(memory: seq<Cell>, p: Pool) {
    && Sound(p) && p.end - p.begin <= |memory| && memory[..|p.text|] == CharCells(p.text)
    && forall i :: 0 <= i < |p.slots| ==> SlotStored(memory, Address(p, i) - p.begin, p.slots[i])
  }

  lemma SoundBound(p: Pool, i: nat)
    requires Sound(p) && i < |p.slots|
    ensures |p.text| <= Address(p, i) - p.begin && Address(p, i) - p.begin + SLOT_SIZE <= p.end - p.begin
  {
  }

  lemma SliceOfSlice<T>(s: seq<T>, a: int, b: int, from: int, to: int)
    requires 0 <= a <= from <= to <= b <= |s|
    ensures s[a..b][from - a..to - a] == s[from..to]
  {
    var outer, inner := s[a..b], s[from..to];
    forall i | 0 <= i < to - from ensures outer[from - a + i] == inner[i] {
    }
    assert outer[from - a..to - a] == inner;
  }

  /** Only where the strings and the slots lie in the block matters. */
  lemma LaidElsewhere(memory: seq<Cell>, p: Pool, other: seq<Cell>, q: Pool)
    requires Laid(memory, p) && q.begin > 0 && q.end - q.begin == p.end - p.begin && q.text == p.text && q.slots == p.slots
    requires p.end - p.begin <= |other| && other[..p.end - p.begin] == memory[..p.end - p.begin]
    ensures Laid(other, q)
  {
    var n := p.end - p.begin;
    assert |p.text| <= n;
    assert other[..|p.text|] == other[..n][..|p.text|] && memory[..|p.text|] == memory[..n][..|p.text|];
    forall i | 0 <= i < |q.slots| ensures SlotStored(other, Address(q, i) - q.begin, q.slots[i]) {
      SoundBound(p, i);
      var at := Address(p, i) - p.begin;
      assert SlotStored(memory, at, p.slots[i]);
      SliceOfSlice(other, 0, n, at, at + SLOT_SIZE);
      SliceOfSlice(memory, 0, n, at, at + SLOT_SIZE);
    }
  }

  /** The slots lie where they lay before, moved down by `down`. */
  lemma LaidMovedDown(memory: seq<Cell>, p: Pool, other: seq<Cell>, down: nat)
    requires Laid(memory, p) && Left(p) <= Right(p) - down && |other| == |memory|
    requires var from := Right(p) - p.begin; var size := p.end - Right(p);
             other[from - down..from - down + size] == memory[from..from + size] && other[..from - down] == memory[..from - down]
    ensures Laid(other, p.(end := p.end - down))
  {
    var q := p.(end := p.end - down);
    var from, size := Right(p) - p.begin, p.end - Right(p);
    assert other[..|p.text|] == other[..from - down][..|p.text|] && memory[..|p.text|] == memory[..from - down][..|p.text|];
    forall i | 0 <= i < |q.slots| ensures SlotStored(other, Address(q, i) - q.begin, q.slots[i]) {
      SoundBound(p, i);
      var at := Address(p, i) - p.begin;
      assert SlotStored(memory, at, p.slots[i]);
      SliceOfSlice(memory, from, from + size, at, at + SLOT_SIZE);
      SliceOfSlice(other, from - down, from - down + size, at - down, at - down + SLOT_SIZE);
    }
  }

  /** One slot overwritten; strings and other slots stay. */
  lemma LaidUpdated(memory: seq<Cell>, p: Pool, other: seq<Cell>, i: nat, slot: Slot)
    requires Laid(memory, p) && i < |p.slots| && |other| == |memory|
    requires var at := Address(p, i) - p.begin;
             && 0 <= at && at + SLOT_SIZE <= |memory|
             && other == memory[..at] + SlotCells(slot) + memory[at + SLOT_SIZE..]
    ensures Laid(other, p.(slots := p.slots[i := slot]))
  {
    var q := p.(slots := p.slots[i := slot]);
    SoundBound(p, i);
    var at := Address(p, i) - p.begin;
    assert other[..|p.text|] == memory[..|p.text|];
    forall j | 0 <= j < |q.slots| ensures SlotStored(other, Address(q, j) - q.begin, q.slots[j]) {
      SoundBound(p, j);
      var to := Address(p, j) - p.begin;
      assert SlotStored(memory, to, p.slots[j]);
      if j == i {
        assert other[at..at + SLOT_SIZE] == SlotCells(slot);
      } else {
        assert other[to..to + SLOT_SIZE] == memory[to..to + SLOT_SIZE];
      }
    }
  }

  // ---- What a document means ----

  datatype TreeKey = Keyless | Outside(address: int) | Named(name: seq<byte>)

  datatype Tree = Leaf(content: Content) | Text(raw: bool, bytes: seq<byte>) | Node(keyed: bool, children: Children)

  datatype Children = NoChildren | Child(key: TreeKey, value: Tree, rest: Children)

  /** Which slots make up a document: the plan along which it is read. */
  datatype Shape = Atom | Group(members: Members)

  datatype Members = NoMembers | Member(index: nat, shape: Shape, rest: Members)

  function Indices(shape: Shape): set<nat> {
    match shape
    case Atom => {}
    case Group(members) => MemberIndices(members)
  }

  function MemberIndices(members: Members): set<nat> {
    match members
    case NoMembers => {}
    case Member(i, shape, rest) => {i} + Indices(shape) + MemberIndices(rest)
  }

  predicate KeyFits(p: Pool, key: Key) {
    key.OwnedKey? ==> HoldsCString(p, key.address)
  }

  /** The content is laid out in the pool along `shape`; no slot is reached twice. */
  predicate Fits(p: Pool, content: Content, shape: Shape)
    decreases shape
  {
    match shape
    case Atom => !content.Collection? && (content.Owned? ==> Holds(p, content.address, content.size))
    case Group(members) =>
      content.Collection? && Chain(p, content.head, members) && content.tail == Last(p, members)
  }

  function Last(p: Pool, members: Members): int {
    match members
    case NoMembers => 0
    case Member(i, _, rest) => if rest.NoMembers? then Address(p, i) else Last(p, rest)
  }

  /** The slots of a collection, linked from the address `head` on. */
  predicate Chain(p: Pool, head: int, members: Members)
    decreases members
  {
    match members
    case NoMembers => head == 0
    case Member(i, shape, rest) =>
      && i < |p.slots| && head == Address(p, i) && KeyFits(p, p.slots[i].key)
      && Fits(p, p.slots[i].content, shape)
      && i !in Indices(shape) && i !in MemberIndices(rest) && Indices(shape) !! MemberIndices(rest)
      && NextIs(p.slots[i].next, i, rest)
      && (rest.Member? ==> Chain(p, Address(p, rest.index), rest))
  }

  predicate NextIs(next: int, i: nat, rest: Members) {
    if rest.NoMembers? then next == 0 else next != 0 && rest.index == i - next
  }

  function KeyMeaning(p: Pool, key: Key): TreeKey
    requires KeyFits(p, key)
  {
    match key
    case NoKey => Keyless
    case LinkedKey(address) => Outside(address)
    case OwnedKey(address) => Named(CString(p.text[address - p.begin..]).value)
  }

  function Meaning(p: Pool, content: Content, shape: Shape): Tree
    requires Fits(p, content, shape)
    decreases shape
  {
    match shape
    case Atom => if content.Owned? then Text(content.raw, StringAt(p, content.address, content.size)) else Leaf(content)
    case Group(members) => Node(content.keyed, ChildrenMeaning(p, content.head, members))
  }

  function ChildrenMeaning(p: Pool, head: int, members: Members): Children
    requires Chain(p, head, members)
    decreases members
  {
    match members
    case NoMembers => NoChildren
    case Member(i, shape, rest) =>
      Child(KeyMeaning(p, p.slots[i].key), Meaning(p, p.slots[i].content, shape),
            if rest.NoMembers? then NoChildren else ChildrenMeaning(p, Address(p, rest.index), rest))
  }

  // ---- Moving ----

  function MovedAddress(address: int, distance: int): int {
    if address == 0 then 0 else address + distance
  }

  function MovedKey(key: Key, strings: int): Key {
    if key.OwnedKey? then OwnedKey(key.address + strings) else key
  }

  /** Addresses of strings move by one distance, addresses of slots by another. */
  function MovedContent(content: Content, strings: int, slots: int): Content {
    match content
    case Owned(raw, address, size) => Owned(raw, address + strings, size)
    case Collection(keyed, head, tail) => Collection(keyed, MovedAddress(head, slots), MovedAddress(tail, slots))
    case _ => content
  }

  function MovedSlot(slot: Slot, strings: int, slots: int): Slot {
    Slot(MovedContent(slot.content, strings, slots), slot.next, MovedKey(slot.key, strings))
  }

  /** The pool after its strings and its slots have been moved, with just the slots in `done` brought up to date. */
  predicate MovedTo(p: Pool, q: Pool, strings: int, slots: int, done: set<nat>) {
    && q.begin == p.begin + strings && q.end == p.end + slots && q.text == p.text && |q.slots| == |p.slots|
    && forall i :: 0 <= i < |p.slots| ==> q.slots[i] == if i in done then MovedSlot(p.slots[i], strings, slots) else p.slots[i]
  }

  /** A document whose every slot has been brought up to date once means what it meant before. */
  lemma {:induction false} MovedMeans(p: Pool, q: Pool, strings: int, slots: int, done: set<nat>, content: Content, shape: Shape)
    requires Sound(p) && Sound(q) && MovedTo(p, q, strings, slots, done)
    requires Fits(p, content, shape) && Indices(shape) <= done
    ensures Fits(q, MovedContent(content, strings, slots), shape)
    ensures Meaning(q, MovedContent(content, strings, slots), shape) == Meaning(p, content, shape)
    decreases shape
  {
    match shape
    case Atom =>
    case Group(members) =>
      MembersMean(p, q, strings, slots, done, content.head, members);
      LastMoves(p, q, slots, members);
  }

  lemma {:induction false} LastMoves(p: Pool, q: Pool, slots: int, members: Members)
    requires Sound(p) && q.end == p.end + slots && forall i :: i in MemberIndices(members) ==> i < |p.slots|
    ensures Last(q, members) == MovedAddress(Last(p, members), slots)
    decreases members
  {
    if members.Member? {
      if members.rest.Member? {
        assert MemberIndices(members.rest) <= MemberIndices(members);
        LastMoves(p, q, slots, members.rest);
      } else {
        assert members.index in MemberIndices(members);
      }
    }
  }

  lemma {:induction false} ChainInside(p: Pool, head: int, members: Members)
    requires Chain(p, head, members)
    ensures forall i :: i in MemberIndices(members) ==> i < |p.slots|
    decreases members
  {
    if members.Member? {
      FitsInside(p, p.slots[members.index].content, members.shape);
      if members.rest.Member? {
        ChainInside(p, Address(p, members.rest.index), members.rest);
      }
    }
  }

  lemma {:induction false} FitsInside(p: Pool, content: Content, shape: Shape)
    requires Fits(p, content, shape)
    ensures forall i :: i in Indices(shape) ==> i < |p.slots|
    decreases shape
  {
    if shape.Group? {
      ChainInside(p, content.head, shape.members);
    }
  }

  lemma {:induction false} MembersMean(p: Pool, q: Pool, strings: int, slots: int, done: set<nat>, head: int, members: Members)
    requires Sound(p) && Sound(q) && MovedTo(p, q, strings, slots, done)
    requires Chain(p, head, members) && MemberIndices(members) <= done
    ensures Chain(q, MovedAddress(head, slots), members)
    ensures ChildrenMeaning(q, MovedAddress(head, slots), members) == ChildrenMeaning(p, head, members)
    ensures forall i :: i in MemberIndices(members) ==> i < |p.slots|
    decreases members
  {
    ChainInside(p, head, members);
    match members
    case NoMembers =>
    case Member(i, shape, rest) =>
      assert i in done;
      MovedMeans(p, q, strings, slots, done, p.slots[i].content, shape);
      if rest.Member? {
        MembersMean(p, q, strings, slots, done, Address(p, rest.index), rest);
      }
  }
}
