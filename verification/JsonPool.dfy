/** The memory pool, a block of bytes, and its in-place compaction, proved against JsonPoolSpec. */
module JsonPool {
  import opened Common
  import opened JsonPoolSpec

  function AddPadding(address: int): (r: int)
    ensures address <= r < address + ALIGNMENT && r % ALIGNMENT == 0
  {
    (address + ALIGNMENT - 1) / ALIGNMENT * ALIGNMENT
  }

  ghost function Weight(shape: Shape): nat {
    match shape
    case Atom => 0
    case Group(members) => MembersWeight(members)
  }

  ghost function MembersWeight(members: Members): nat {
    match members
    case NoMembers => 0
    case Member(_, shape, rest) => 1 + Weight(shape) + MembersWeight(rest)
  }

  lemma ChainHead(p: Pool, head: int, members: Members)
    requires Chain(p, head, members) && Sound(p)
    ensures members.NoMembers? ==> head == 0
    ensures members.Member? ==> head == Address(p, members.index) && Right(p) <= head
  {
  }

  lemma {:induction false} LastAddress(p: Pool, members: Members)
    requires Sound(p) && (members.Member? ==> Chain(p, Address(p, members.index), members))
    ensures Last(p, members) == 0 || Right(p) <= Last(p, members)
    decreases members
  {
    if members.Member? {
      LastAddress(p, members.rest);
    }
  }

  lemma NoMore()
    ensures MemberIndices(NoMembers) == {}
  {
  }

  lemma ChainStep(p: Pool, members: Members)
    requires Sound(p) && members.Member? && Chain(p, Address(p, members.index), members)
    ensures var i, shape, rest := members.index, members.shape, members.rest;
            && i < |p.slots| && Fits(p, p.slots[i].content, shape)
            && i !in Indices(shape) && i !in MemberIndices(rest) && Indices(shape) !! MemberIndices(rest)
            && (p.slots[i].next == 0 <==> rest.NoMembers?)
            && (rest.Member? ==> rest.index == i - p.slots[i].next && Chain(p, Address(p, rest.index), rest)
                                 && Right(p) <= Address(p, rest.index))
            && MemberIndices(members) == {i} + Indices(shape) + MemberIndices(rest)
            && MembersWeight(members) == 1 + Weight(shape) + MembersWeight(rest)
  {
    if members.rest.Member? {
      ChainHead(p, Address(p, members.rest.index), members.rest);
    }
  }

  /** Moves `size` cells down; the two ranges may overlap. */
  method MemMove(memory: array<Cell>, to: nat, from: nat, size: nat)
    requires to <= from && from + size <= memory.Length
    modifies memory
    ensures memory[to..to + size] == old(memory[from..from + size])
    ensures memory[..to] == old(memory[..to])
  {
    for k := 0 to size
      invariant memory[to..to + k] == old(memory[from..from + k])
      invariant memory[..to] == old(memory[..to])
      invariant memory[from + k..from + size] == old(memory[from + k..from + size])
    {
      ghost var before := memory[..];
      assert memory[from + k] == memory[from + k..from + size][0];
      assert old(memory[from + k]) == old(memory[from + k..from + size])[0];
      memory[to + k] := memory[from + k];
      assert memory[to..to + k + 1] == before[to..to + k] + [before[from + k]];
      assert old(memory[from..from + k + 1]) == old(memory[from..from + k]) + [old(memory[from + k])];
      assert memory[from + k + 1..from + size] == before[from + k..from + size][1..];
      assert old(memory[from + k + 1..from + size]) == old(memory[from + k..from + size])[1..];
      assert memory[..to] == before[..to];
    }
  }

  method StoreSlot(memory: array<Cell>, at: nat, slot: Slot)
    requires at + SLOT_SIZE <= memory.Length
    modifies memory
    ensures memory[..] == old(memory[..at]) + SlotCells(slot) + old(memory[at + SLOT_SIZE..])
  {
    for k := 0 to SLOT_SIZE
      invariant forall i :: 0 <= i < k ==> memory[at + i] == SlotCells(slot)[i]
      invariant forall i :: 0 <= i < memory.Length && !(at <= i < at + k) ==> memory[i] == old(memory[i])
    {
      memory[at + k] := SlotByte(slot, k);
    }
    ghost var after := old(memory[..at]) + SlotCells(slot) + old(memory[at + SLOT_SIZE..]);
    forall i | 0 <= i < memory.Length ensures memory[i] == after[i] {
      if at <= i < at + SLOT_SIZE {
        assert memory[at + (i - at)] == SlotCells(slot)[i - at];
      }
    }
  }

  class MemoryPool {
    /** The block, its first cell at address `begin`. */
    var memory: array<Cell>
    var begin: int
    var left: int
    var right: int
    var end: int
    /** The bytes from `begin` to `left`. */
    ghost var text: seq<byte>
    /** The slots from `end` down to `right`. */
    ghost var slots: seq<Slot>

    ghost predicate Valid()
      reads this, memory
    {
      && 0 < begin <= left <= right <= end
      && left == begin + |text| && right == end - SLOT_SIZE * |slots|
      && begin % ALIGNMENT == 0 && right % ALIGNMENT == 0
      && Laid(memory[..], View())
    }

    ghost function View(): Pool
      reads this
    {
      Pool(begin, end, text, slots)
    }

    function Capacity(): int
      reads this
    {
      end - begin
    }

    /** The slots moved down to the strings; the number of bytes reclaimed. */
    method Squash() returns (reclaimed: int)
      requires Valid()
      modifies this`right, this`end, memory
      ensures Valid() && reclaimed >= 0 && View() == old(View()).(end := old(end) - reclaimed)
      ensures reclaimed == if AddPadding(left) < old(right) then old(right) - AddPadding(left) else 0
    {
      hide Laid;
      ghost var p, before := View(), memory[..];
      LaidBound(before, p);
      var newRight := AddPadding(left);
      if newRight >= right {
        return 0;
      }
      var size := end - right;
      MemMove(memory, newRight - begin, right - begin, size);
      LaidMovedDown(before, p, memory[..], right - newRight);
      reclaimed := right - newRight;
      right := newRight;
      end := newRight + size;
    }

    /** The block given back for one just large enough; what is kept is copied. */
    method Reallocate()
      requires Valid()
      modifies this`memory
      ensures Valid() && fresh(memory) && memory.Length == Capacity() && View() == old(View())
    {
      hide Laid;
      LaidBound(memory[..], View());
      var block := new Cell[Capacity()];
      for i := 0 to Capacity()
        invariant memory == old(memory) && block[..i] == memory[..i]
      {
        block[i] := memory[i];
        assert block[..i + 1] == block[..i] + [block[i]];
      }
      assert block[..] == block[..Capacity()];
      LaidElsewhere(memory[..], View(), block[..], View());
      memory := block;
    }

    /** The block has another address; what it holds is the same. */
    method MovePointers(offset: int)
      requires Valid() && begin + offset > 0 && offset % ALIGNMENT == 0
      modifies this`begin, this`left, this`right, this`end
      ensures Valid() && View() == old(View()).(begin := old(begin) + offset, end := old(end) + offset)
      ensures left - begin == old(left - begin) && right - begin == old(right - begin)
    {
      hide Laid;
      LaidBound(memory[..], View());
      ghost var p := View();
      AlignedMove(right, 0, offset);
      AlignedMove(begin, 0, offset);
      begin := begin + offset;
      left := left + offset;
      right := right + offset;
      end := end + offset;
      LaidElsewhere(memory[..], p, memory[..], View());
    }

    function SlotAt(address: int): (slot: Slot)
      reads this, memory
      requires 0 <= address - begin < memory.Length && memory[address - begin].SlotByte?
    {
      memory[address - begin].slot
    }

    method WriteSlot(address: int, slot: Slot, ghost index: nat)
      requires Valid() && index < |slots| && address == Address(View(), index)
      modifies memory, this`slots
      ensures Valid() && slots == old(slots)[index := slot]
    {
      hide Laid;
      ghost var p, before := View(), memory[..];
      LaidBound(before, p);
      SoundBound(p, index);
      var at := address - begin;
      StoreSlot(memory, at, slot);
      LaidUpdated(before, p, memory[..], index, slot);
      slots := slots[index := slot];
    }

    /** A slot of the pool is read at its address. */
    lemma SlotRead(index: nat)
      requires Valid() && index < |slots|
      ensures var at := Address(View(), index) - begin;
              0 <= at < memory.Length && memory[at] == SlotByte(slots[index], 0)
    {
      var at := Address(View(), index) - begin;
      assert SlotStored(memory[..], at, slots[index]);
      assert memory[at] == memory[..][at..at + SLOT_SIZE][0];
    }

    /** The addresses in a content brought up to date, and with them those in all slots below it. */
    method MoveContent(content: Content, strings: int, slotDistance: int, ghost shape: Shape, ghost p: Pool) returns (moved: Content)
      requires Valid() && Sound(p) && end == p.end + slotDistance && |slots| == |p.slots|
      requires Fits(p, content, shape)
      requires forall i :: i in Indices(shape) && i < |slots| ==> slots[i] == p.slots[i]
      modifies this`slots, memory
      ensures Valid() && moved == MovedContent(content, strings, slotDistance)
      ensures |slots| == |p.slots|
      ensures forall i :: 0 <= i < |slots| ==>
                slots[i] == if i in Indices(shape) then MovedSlot(p.slots[i], strings, slotDistance) else old(slots[i])
      decreases Weight(shape), 1
    {
      hide Chain, Last, MovedSlot, KeyFits, MemberIndices, MembersWeight, Laid;
      if content.Owned? {
        return Content.Owned(content.raw, content.address + strings, content.size);
      }
      if !content.Collection? {
        return content;
      }
      var head := if content.head == 0 then 0 else content.head + slotDistance;
      var tail := if content.tail == 0 then 0 else content.tail + slotDistance;
      moved := Content.Collection(content.keyed, head, tail);
      ChainHead(p, content.head, shape.members);
      MoveMembers(head, strings, slotDistance, shape.members, p);
    }

    /** The slots of a collection brought up to date: visited one by one from `head` on, each exactly once. */
    method MoveMembers(head: int, strings: int, slotDistance: int, ghost members: Members, ghost p: Pool)
      requires Valid() && Sound(p) && end == p.end + slotDistance && |slots| == |p.slots|
      requires members.NoMembers? ==> head == 0
      requires members.Member? ==> Chain(p, Address(p, members.index), members) && head == Address(p, members.index) + slotDistance
      requires forall i :: i in MemberIndices(members) && i < |slots| ==> slots[i] == p.slots[i]
      modifies this`slots, memory
      ensures Valid() && |slots| == |p.slots|
      ensures forall i :: 0 <= i < |slots| ==>
                slots[i] == if i in MemberIndices(members) then MovedSlot(p.slots[i], strings, slotDistance) else old(slots[i])
      decreases MembersWeight(members), 0
    {
      hide Chain, Last, MovedSlot, KeyFits, Fits, Indices, MemberIndices, Weight, MembersWeight, Laid;
      var address := head;
      ghost var todo := members;
      ghost var all := MemberIndices(members);
      NoMore();
      if members.Member? {
        ChainHead(p, Address(p, members.index), members);
      }
      while address != 0
        invariant Valid()
        invariant address != 0 <==> todo.Member?
        invariant todo.Member? ==> Chain(p, Address(p, todo.index), todo) && address == Address(p, todo.index) + slotDistance
        invariant MemberIndices(todo) <= all && MembersWeight(todo) <= MembersWeight(members)
        invariant |slots| == |p.slots|
        invariant forall i :: 0 <= i < |slots| ==>
                    slots[i] == if i in all && i !in MemberIndices(todo) then MovedSlot(p.slots[i], strings, slotDistance) else old(slots[i])
        decreases todo
      {
        ghost var index := todo.index;
        ChainStep(p, todo);
        SlotRead(index);
        var next := SlotAt(address).next;
        MoveSlot(address, strings, slotDistance, index, todo.shape, p);
        address := if next == 0 then 0 else address + SLOT_SIZE * next;
        todo := todo.rest;
      }
    }

    /** One slot brought up to date: its key, its content, and what is below it. */
    method MoveSlot(address: int, strings: int, slotDistance: int, ghost index: nat, ghost shape: Shape, ghost p: Pool)
      requires Valid() && Sound(p) && end == p.end + slotDistance && |slots| == |p.slots|
      requires index < |slots| && slots[index] == p.slots[index] && index !in Indices(shape) && address == Address(View(), index)
      requires Fits(p, p.slots[index].content, shape)
      requires forall i :: i in Indices(shape) && i < |slots| ==> slots[i] == p.slots[i]
      modifies this`slots, memory
      ensures Valid() && |slots| == |p.slots|
      ensures forall i :: 0 <= i < |slots| ==>
                slots[i] == if i == index || i in Indices(shape) then MovedSlot(p.slots[i], strings, slotDistance) else old(slots[i])
      decreases Weight(shape), 2
    {
      hide Fits, Indices, Weight, Laid;
      SlotRead(index);
      var slot := SlotAt(address);
      if slot.key.OwnedKey? {
        slot := slot.(key := OwnedKey(slot.key.address + strings));
        WriteSlot(address, slot, index);
      }
      var content := MoveContent(slot.content, strings, slotDistance, shape, p);
      WriteSlot(address, slot.(content := content), index);
    }
  }

  lemma LaidBound(memory: seq<Cell>, p: Pool)
    requires Laid(memory, p)
    ensures Sound(p) && p.end - p.begin <= |memory|
  {
  }

  lemma AlignedMove(at: int, base: int, newBase: int)
    requires at % ALIGNMENT == 0 && base % ALIGNMENT == 0 && newBase % ALIGNMENT == 0
    ensures (at + (newBase - base)) % ALIGNMENT == 0
  {
  }

  class JsonDocument {
    const pool: MemoryPool
    var data: Content

    constructor (pool: MemoryPool, data: Content)
      ensures this.pool == pool && this.data == data
    {
      this.pool := pool;
      this.data := data;
    }

    /**
     The document squeezed into the smallest block, which is reallocated at `address`: it means what it
     meant before, and its strings and slots still lie side by side in the new block.
     */
    method ShrinkToFit(address: int, ghost shape: Shape)
      requires pool.Valid() && Fits(pool.View(), data, shape)
      requires 0 < address && address % ALIGNMENT == 0
      modifies this, pool, pool.memory
      ensures pool.Valid() && Fits(pool.View(), data, shape)
      ensures Meaning(pool.View(), data, shape) == old(Meaning(pool.View(), data, shape))
      ensures pool.right - pool.left < ALIGNMENT && pool.Capacity() <= old(pool.Capacity())
      ensures pool.Capacity() < old(pool.Capacity()) ==> fresh(pool.memory) && pool.memory.Length == pool.Capacity()
    {
      hide Fits, Meaning, Indices, MovedSlot, MovedContent, Laid;
      ghost var p := pool.View();
      var reclaimed := pool.Squash();
      if reclaimed == 0 {
        return;
      }
      pool.Reallocate();
      var offset := address - pool.begin;
      pool.MovePointers(offset);
      assert Sound(p) && pool.Valid() && pool.end == p.end + offset - reclaimed;
      FitsInside(p, old(data), shape);
      data := pool.MoveContent(data, offset, offset - reclaimed, shape, p);
      LaidBound(pool.memory[..], pool.View());
      assert MovedTo(p, pool.View(), offset, offset - reclaimed, Indices(shape));
      MovedMeans(p, pool.View(), offset, offset - reclaimed, Indices(shape), old(data), shape);
    }
  }
}
