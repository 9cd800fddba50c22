/**
 Agreement between scheduler and executor: the transmit queue is ordered by due time, its queued
 packets come first, and the pending TX_HANDLE actions that name a packet still in the queue are
 exactly those packets, in the same order.
 */
module MdnsQueue {
  import opened Common
  import opened MdnsState
  import opened MdnsSpec

  // ---- The invariant ----

  ghost predicate Before(a: Packet, b: Packet) {
    a.sendAt <= b.sendAt && a.id != b.id && (b.queued ==> a.queued)
  }

  ghost predicate Ordered(tx: seq<Packet>) {
    tx == [] || ((forall b :: b in tx[1..] ==> Before(tx[0], b)) && Ordered(tx[1..]))
  }

  ghost function Ids(tx: seq<Packet>): set<nat> {
    set p | p in tx :: p.id
  }

  function QueuedIds(tx: seq<Packet>): seq<nat> {
    if tx == [] then [] else (if tx[0].queued then [tx[0].id] else []) + QueuedIds(tx[1..])
  }

  /** The actions of `pending` whose packet is one of `ids`. */
  ghost function Live(pending: seq<nat>, ids: set<nat>): seq<nat> {
    if pending == [] then []
    else (if pending[0] in ids then [pending[0]] else []) + Live(pending[1..], ids)
  }

  ghost predicate Agreement(tx: seq<Packet>, pending: seq<nat>, now: nat, nextId: nat) {
    && Ordered(tx)
    && (forall p :: p in tx ==> p.id < nextId)
    && (forall p :: p in tx && p.queued ==> p.sendAt < now)
    && (forall id :: id in pending ==> id < nextId)
    && Live(pending, Ids(tx)) == QueuedIds(tx)
  }

  // ---- What the order means position by position ----

  lemma {:induction false} OrderedByIndex(tx: seq<Packet>, i: nat, j: nat)
    requires Ordered(tx) && i < j < |tx|
    ensures Before(tx[i], tx[j])
  {
    if i == 0 {
      assert tx[j] == tx[1..][j - 1];
    } else {
      OrderedByIndex(tx[1..], i - 1, j - 1);
    }
  }

  // ---- Facts about Live ----

  lemma {:induction false} LiveAppend(a: seq<nat>, b: seq<nat>, ids: set<nat>)
    ensures Live(a + b, ids) == Live(a, ids) + Live(b, ids)
  {
    if a == [] {
      assert a + b == b;
    } else {
      assert (a + b)[1..] == a[1..] + b;
      LiveAppend(a[1..], b, ids);
      var head := if a[0] in ids then [a[0]] else [];
      assert head + (Live(a[1..], ids) + Live(b, ids)) == (head + Live(a[1..], ids)) + Live(b, ids);
    }
  }

  lemma {:induction false} LiveCongruence(pending: seq<nat>, ids: set<nat>, ids': set<nat>)
    requires forall id :: id in pending ==> (id in ids <==> id in ids')
    ensures Live(pending, ids) == Live(pending, ids')
  {
    if pending != [] {
      assert forall id :: id in pending[1..] ==> id in pending;
      LiveCongruence(pending[1..], ids, ids');
    }
  }

  lemma {:induction false} LiveOfLive(pending: seq<nat>, ids: set<nat>, sub: set<nat>)
    requires sub <= ids
    ensures Live(Live(pending, ids), sub) == Live(pending, sub)
  {
    if pending != [] {
      LiveOfLive(pending[1..], ids, sub);
      var head := if pending[0] in ids then [pending[0]] else [];
      LiveAppend(head, Live(pending[1..], ids), sub);
    }
  }

  lemma {:induction false} LiveAll(pending: seq<nat>, ids: set<nat>)
    requires forall id :: id in pending ==> id in ids
    ensures Live(pending, ids) == pending
  {
    if pending != [] {
      LiveAll(pending[1..], ids);
    }
  }

  lemma {:induction false} LiveMember(pending: seq<nat>, ids: set<nat>, id: nat)
    ensures id in Live(pending, ids) <==> id in pending && id in ids
  {
    if pending != [] {
      LiveMember(pending[1..], ids, id);
    }
  }

  lemma {:induction false} QueuedMember(tx: seq<Packet>, id: nat)
    requires id in QueuedIds(tx)
    ensures exists p :: p in tx && p.id == id && p.queued
  {
    if !(tx[0].queued && tx[0].id == id) {
      QueuedMember(tx[1..], id);
      var p :| p in tx[1..] && p.id == id && p.queued;
      assert p in tx;
    } else {
      assert tx[0] in tx;
    }
  }

  // ---- Scheduling ----

  lemma {:induction false} InsertMembers(tx: seq<Packet>, p: Packet, x: Packet)
    ensures x in Insert(tx, p) <==> x == p || x in tx
  {
    if tx != [] && tx[0].sendAt <= p.sendAt {
      assert tx == [tx[0]] + tx[1..];
      InsertMembers(tx[1..], p, x);
    }
  }

  lemma {:induction false} InsertOrdered(tx: seq<Packet>, p: Packet)
    requires Ordered(tx) && !p.queued
    requires forall b :: b in tx ==> b.id != p.id && (b.queued ==> b.sendAt <= p.sendAt)
    ensures Ordered(Insert(tx, p))
    ensures QueuedIds(Insert(tx, p)) == QueuedIds(tx)
  {
    if tx != [] && tx[0].sendAt <= p.sendAt {
      InsertOrdered(tx[1..], p);
      forall b | b in Insert(tx[1..], p) ensures Before(tx[0], b) {
        InsertMembers(tx[1..], p, b);
      }
      assert Insert(tx, p)[1..] == Insert(tx[1..], p);
    } else {
      assert ([p] + tx)[1..] == tx;
      if tx != [] {
        forall b | b in tx ensures Before(p, b) {
          assert b == tx[0] || b in tx[1..];
        }
      }
    }
  }

  lemma ScheduleAgrees(tx: seq<Packet>, pending: seq<nat>, now: nat, nextId: nat, p: Packet)
    requires Agreement(tx, pending, now, nextId)
    requires !p.queued && p.sendAt >= now && p.id < nextId
    requires p.id !in Ids(tx) && p.id !in pending
    ensures Agreement(Insert(tx, p), pending, now, nextId)
  {
    forall b | b in tx ensures b.id != p.id {
      assert b.id in Ids(tx);
    }
    InsertOrdered(tx, p);
    forall b | b in Insert(tx, p) ensures b == p || b in tx {
      InsertMembers(tx, p, b);
    }
    forall id | id in pending ensures id in Ids(tx) <==> id in Ids(Insert(tx, p)) {
      forall b | b in tx ensures b in Insert(tx, p) {
        InsertMembers(tx, p, b);
      }
    }
    LiveCongruence(pending, Ids(tx), Ids(Insert(tx, p)));
  }

  // ---- Removing packets and editing their contents ----

  predicate SameSlot(a: Packet, b: Packet) {
    a.id == b.id && a.sendAt == b.sendAt && a.pcb == b.pcb && a.queued == b.queued
  }

  /** `tx'` is `tx` with some packets gone and the contents of others edited. */
  ghost predicate Shrunk(tx: seq<Packet>, tx': seq<Packet>)
    decreases |tx|
  {
    if tx == [] then tx' == []
    else Shrunk(tx[1..], tx') || (tx' != [] && SameSlot(tx[0], tx'[0]) && Shrunk(tx[1..], tx'[1..]))
  }

  lemma {:induction false} ShrunkMember(tx: seq<Packet>, tx': seq<Packet>, x: Packet)
    requires Shrunk(tx, tx') && x in tx'
    ensures exists p :: p in tx && SameSlot(p, x)
    decreases |tx|
  {
    if Shrunk(tx[1..], tx') {
      ShrunkMember(tx[1..], tx', x);
      var p :| p in tx[1..] && SameSlot(p, x);
      assert p in tx;
    } else if x != tx'[0] {
      ShrunkMember(tx[1..], tx'[1..], x);
      var p :| p in tx[1..] && SameSlot(p, x);
      assert p in tx;
    } else {
      assert tx[0] in tx;
    }
  }

  lemma {:induction false} ShrunkOrdered(tx: seq<Packet>, tx': seq<Packet>)
    requires Ordered(tx) && Shrunk(tx, tx')
    ensures Ordered(tx')
    ensures QueuedIds(tx') == Live(QueuedIds(tx), Ids(tx'))
    decreases |tx|
  {
    if tx == [] {
    } else if Shrunk(tx[1..], tx') {
      ShrunkOrdered(tx[1..], tx');
      assert tx[0].id !in Ids(tx') by { HeadGone(tx, tx'); }
      LiveAppend(if tx[0].queued then [tx[0].id] else [], QueuedIds(tx[1..]), Ids(tx'));
    } else {
      ShrunkOrdered(tx[1..], tx'[1..]);
      assert tx[0].id !in Ids(tx'[1..]) by { HeadGone(tx, tx'[1..]); }
      forall b | b in tx'[1..] ensures Before(tx'[0], b) {
        ShrunkMember(tx[1..], tx'[1..], b);
      }
      assert tx' == [tx'[0]] + tx'[1..];
      assert Ids(tx') == {tx[0].id} + Ids(tx'[1..]);
      forall id | id in QueuedIds(tx[1..]) ensures id != tx[0].id {
        QueuedMember(tx[1..], id);
      }
      LiveCongruence(QueuedIds(tx[1..]), Ids(tx'[1..]), Ids(tx'));
      LiveAppend(if tx[0].queued then [tx[0].id] else [], QueuedIds(tx[1..]), Ids(tx'));
    }
  }

  lemma HeadGone(tx: seq<Packet>, rest: seq<Packet>)
    requires tx != [] && Ordered(tx) && Shrunk(tx[1..], rest)
    ensures tx[0].id !in Ids(rest)
  {
    forall x | x in rest ensures x.id != tx[0].id {
      ShrunkMember(tx[1..], rest, x);
    }
  }

  lemma ShrinkAgrees(tx: seq<Packet>, tx': seq<Packet>, pending: seq<nat>, now: nat, nextId: nat)
    requires Agreement(tx, pending, now, nextId) && Shrunk(tx, tx')
    ensures Agreement(tx', pending, now, nextId)
  {
    ShrunkOrdered(tx, tx');
    forall x | x in tx' ensures exists p :: p in tx && SameSlot(p, x) {
      ShrunkMember(tx, tx', x);
    }
    assert Ids(tx') <= Ids(tx);
    LiveOfLive(pending, Ids(tx), Ids(tx'));
  }

  lemma {:induction false} ShrunkSelf(tx: seq<Packet>)
    ensures Shrunk(tx, tx)
  {
    if tx != [] {
      ShrunkSelf(tx[1..]);
    }
  }

  lemma {:induction false} ShrunkNothing(tx: seq<Packet>)
    ensures Shrunk(tx, [])
  {
    if tx != [] {
      ShrunkNothing(tx[1..]);
    }
  }

  lemma {:induction false} ShrunkPointwise(tx: seq<Packet>, tx': seq<Packet>)
    requires |tx| == |tx'| && forall i :: 0 <= i < |tx| ==> SameSlot(tx[i], tx'[i])
    ensures Shrunk(tx, tx')
  {
    if tx != [] {
      ShrunkPointwise(tx[1..], tx'[1..]);
    }
  }

  lemma {:induction false} WithoutShrinks(tx: seq<Packet>, q: nat)
    ensures Shrunk(tx, Without(tx, q))
    ensures forall x :: x in Without(tx, q) <==> x in tx && x.pcb != q
  {
    if tx != [] {
      WithoutShrinks(tx[1..], q);
      assert tx == [tx[0]] + tx[1..];
      var rest := Without(tx[1..], q);
      assert ([tx[0]] + rest)[1..] == rest && [] + rest == rest;
    }
  }

  lemma {:induction false} PurgeShrinks(pcbs: seq<Pcb>, tx: seq<Packet>, s: Service)
    ensures Shrunk(tx, PurgeQueue(pcbs, tx, s).1)
    decreases |tx|
  {
    if tx == [] {
    } else if tx[0].pcb >= |pcbs| {
      PurgeShrinks(pcbs, tx[1..], s);
      assert ([tx[0]] + PurgeQueue(pcbs, tx[1..], s).1)[1..] == PurgeQueue(pcbs, tx[1..], s).1;
    } else {
      var (pcb, p) := Purge(pcbs[tx[0].pcb], tx[0], s);
      var pcbs' := pcbs[tx[0].pcb := pcb];
      PurgeShrinks(pcbs', tx[1..], s);
      var rest := PurgeQueue(pcbs', tx[1..], s).1;
      assert SameSlot(tx[0], p);
      assert PurgeQueue(pcbs, tx, s).1 == (if p.IsEmpty() then [] else [p]) + rest;
      assert ([p] + rest)[1..] == rest && [] + rest == rest;
    }
  }

  // ---- The timer ----

  /** A posted packet differs from the original only in being queued, and then it was due. */
  lemma {:induction false} PostMember(rest: seq<Packet>, now: nat, room: nat, p: Packet) returns (r: Packet)
    requires p in Post(rest, now, room).0
    requires forall x :: x in rest ==> !x.queued
    ensures r in rest && p == r.(queued := p.queued)
    ensures p.queued ==> p.sendAt < now && room > 0
    decreases |rest|
  {
    if rest == [] || rest[0].sendAt >= now {
      r := p;
    } else {
      var room' := if room > 0 then room - 1 else 0;
      if p == rest[0].(queued := room > 0) {
        r := rest[0];
      } else {
        r := PostMember(rest[1..], now, room', p);
      }
    }
  }

  lemma {:induction false} PostedIds(rest: seq<Packet>, now: nat, room: nat)
    requires forall x :: x in rest ==> !x.queued
    ensures QueuedIds(Post(rest, now, room).0) == Post(rest, now, room).1
    ensures Ids(Post(rest, now, room).0) == Ids(rest)
    ensures forall id :: id in Post(rest, now, room).1 ==> id in Ids(rest)
    decreases |rest|
  {
    if rest == [] || rest[0].sendAt >= now {
      NoneQueued(rest);
    } else {
      var room' := if room > 0 then room - 1 else 0;
      PostedIds(rest[1..], now, room');
      var (tail, ids) := Post(rest[1..], now, room');
      var head := rest[0].(queued := room > 0);
      assert Post(rest, now, room).0 == [head] + tail;
      assert ([head] + tail)[1..] == tail;
      IdsCons(head, tail);
      IdsCons(rest[0], rest[1..]);
      assert rest == [rest[0]] + rest[1..];
    }
  }

  lemma IdsCons(p: Packet, tx: seq<Packet>)
    ensures Ids([p] + tx) == {p.id} + Ids(tx)
  {
    assert forall x :: x in [p] + tx <==> x == p || x in tx;
    forall id | id in {p.id} + Ids(tx) ensures id in Ids([p] + tx) {
      if id == p.id {
        assert p in [p] + tx;
      } else {
        var x :| x in tx && x.id == id;
        assert x in [p] + tx;
      }
    }
  }

  lemma {:induction false} PostOrdered(rest: seq<Packet>, now: nat, room: nat)
    requires Ordered(rest) && forall p :: p in rest ==> !p.queued
    ensures Ordered(Post(rest, now, room).0)
    decreases |rest|
  {
    if rest != [] && rest[0].sendAt < now {
      var room' := if room > 0 then room - 1 else 0;
      PostOrdered(rest[1..], now, room');
      var tail := Post(rest[1..], now, room').0;
      var head := rest[0].(queued := room > 0);
      assert Post(rest, now, room).0 == [head] + tail;
      assert ([head] + tail)[1..] == tail;
      forall p | p in tail ensures Before(head, p) {
        var r := PostMember(rest[1..], now, room', p);
      }
    }
  }

  lemma {:induction false} QueuedAppears(tx: seq<Packet>, p: Packet)
    requires p in tx && p.queued
    ensures p.id in QueuedIds(tx)
  {
    if tx[0] != p {
      QueuedAppears(tx[1..], p);
    }
  }

  lemma {:induction false} NoneQueued(tx: seq<Packet>)
    requires forall p :: p in tx ==> !p.queued
    ensures QueuedIds(tx) == []
  {
    if tx != [] {
      assert tx[0] in tx;
      NoneQueued(tx[1..]);
    }
  }

  lemma {:induction false} OrderedJoin(a: seq<Packet>, b: seq<Packet>)
    requires Ordered(a) && Ordered(b)
    requires forall x, y :: x in a && y in b ==> Before(x, y)
    ensures Ordered(a + b)
  {
    if a == [] {
      assert a + b == b;
    } else {
      assert (a + b)[1..] == a[1..] + b;
      OrderedJoin(a[1..], b);
    }
  }

  lemma {:induction false} QueuedJoin(a: seq<Packet>, b: seq<Packet>)
    ensures QueuedIds(a + b) == QueuedIds(a) + QueuedIds(b)
  {
    if a == [] {
      assert a + b == b;
    } else {
      assert (a + b)[1..] == a[1..] + b;
      QueuedJoin(a[1..], b);
    }
  }

  lemma OrderedCross(tx: seq<Packet>, k: nat)
    requires Ordered(tx) && k <= |tx|
    ensures forall x, y :: x in tx[..k] && y in tx[k..] ==> Before(x, y)
  {
    forall x, y | x in tx[..k] && y in tx[k..] ensures Before(x, y) {
      var i :| 0 <= i < k && tx[i] == x;
      var j :| 0 <= j < |tx| - k && tx[k..][j] == y;
      OrderedByIndex(tx, i, k + j);
    }
  }

  lemma {:induction false} OrderedTake(tx: seq<Packet>, k: nat)
    requires Ordered(tx) && k <= |tx|
    ensures Ordered(tx[..k])
  {
    if k > 0 {
      OrderedTake(tx[1..], k - 1);
      assert tx[..k][1..] == tx[1..][..k - 1];
      forall b | b in tx[..k][1..] ensures Before(tx[0], b) {
        assert b in tx[1..];
      }
    }
  }

  lemma {:induction false} OrderedDrop(tx: seq<Packet>, k: nat)
    requires Ordered(tx) && k <= |tx|
    ensures Ordered(tx[k..])
  {
    if k > 0 {
      OrderedDrop(tx[1..], k - 1);
      assert tx[k..] == tx[1..][k - 1..];
    } else {
      assert tx[0..] == tx;
    }
  }

  lemma IdsJoin(a: seq<Packet>, b: seq<Packet>)
    ensures Ids(a + b) == Ids(a) + Ids(b)
  {
    assert forall x :: x in a + b <==> x in a || x in b;
  }

  lemma RestUnqueued(tx: seq<Packet>, k: nat)
    requires Ordered(tx) && k == FirstUnqueued(tx)
    ensures forall p :: p in tx[k..] ==> !p.queued
  {
    forall p | p in tx[k..] ensures !p.queued {
      var j :| 0 <= j < |tx| - k && tx[k..][j] == p;
      if j > 0 {
        OrderedByIndex(tx, k, k + j);
      }
    }
  }

  lemma TimerOrdered(tx: seq<Packet>, now: nat, room: nat)
    requires Ordered(tx)
    ensures var k := FirstUnqueued(tx); Ordered(tx[..k] + Post(tx[k..], now, room).0)
  {
    var k := FirstUnqueued(tx);
    var queued, rest := tx[..k], tx[k..];
    OrderedTake(tx, k);
    OrderedDrop(tx, k);
    OrderedCross(tx, k);
    RestUnqueued(tx, k);
    PostOrdered(rest, now, room);
    var rest' := Post(rest, now, room).0;
    forall x, y | x in queued && y in rest' ensures Before(x, y) {
      var r := PostMember(rest, now, room, y);
    }
    OrderedJoin(queued, rest');
  }

  lemma TimerQueue(tx: seq<Packet>, now: nat, room: nat)
    requires Ordered(tx)
    ensures var k := FirstUnqueued(tx);
            var (rest', ids) := Post(tx[k..], now, room);
            && Ids(tx[..k] + rest') == Ids(tx)
            && QueuedIds(tx[..k] + rest') == QueuedIds(tx) + ids
            && (forall id :: id in ids ==> id in Ids(tx))
  {
    hide Ordered, QueuedIds, Ids, Post;
    var k := FirstUnqueued(tx);
    var queued, rest := tx[..k], tx[k..];
    RestUnqueued(tx, k);
    PostedIds(rest, now, room);
    NoneQueued(rest);
    var rest' := Post(rest, now, room).0;
    QueuedJoin(queued, rest');
    QueuedJoin(queued, rest);
    IdsJoin(queued, rest');
    IdsJoin(queued, rest);
    assert tx == queued + rest;
  }

  lemma TimerAgrees(st: State, room: nat)
    requires Agreement(st.tx, st.pending, st.now, st.nextId)
    ensures var st' := Timer(st, room); Agreement(st'.tx, st'.pending, st'.now, st'.nextId)
  {
    hide Ordered, QueuedIds, Post, Live;
    var k := FirstUnqueued(st.tx);
    var queued, rest := st.tx[..k], st.tx[k..];
    var (rest', ids) := Post(rest, st.now, room);
    RestUnqueued(st.tx, k);
    TimerOrdered(st.tx, st.now, room);
    TimerQueue(st.tx, st.now, room);
    LiveAppend(st.pending, ids, Ids(st.tx));
    LiveAll(ids, Ids(st.tx));
    forall id | id in ids ensures id < st.nextId {
      assert id in Ids(st.tx);
    }
    forall p | p in queued + rest' ensures p.id < st.nextId && (p.queued ==> p.sendAt < st.now) {
      if p in rest' {
        var r := PostMember(rest, st.now, room, p);
        assert r in st.tx;
      } else {
        assert p in st.tx;
      }
    }
  }

  // ---- The executor ----

  /** An action naming a packet still in the queue always finds it at the head, queued. */
  lemma NeverSkipped(st: State)
    requires Agreement(st.tx, st.pending, st.now, st.nextId)
    requires st.pending != [] && st.pending[0] in Ids(st.tx)
    ensures st.tx != [] && st.tx[0].id == st.pending[0] && st.tx[0].queued
  {
    assert Live(st.pending, Ids(st.tx))[0] == st.pending[0];
    assert QueuedIds(st.tx)[0] == st.pending[0];
    if st.tx[0].queued {
    } else {
      forall p | p in st.tx ensures !p.queued {
        assert p == st.tx[0] || p in st.tx[1..];
      }
      NoneQueued(st.tx);
    }
  }

  /** A queued packet is never stranded: an action for it is pending. */
  lemma NeverStranded(st: State, p: Packet)
    requires Agreement(st.tx, st.pending, st.now, st.nextId)
    requires p in st.tx && p.queued
    ensures p.id in st.pending
  {
    QueuedAppears(st.tx, p);
    LiveMember(st.pending, Ids(st.tx), p.id);
  }

  /** Taking the head packet and its action leaves the agreement intact and no further action for it. */
  lemma PopAgrees(tx: seq<Packet>, pending: seq<nat>, now: nat, nextId: nat)
    requires Agreement(tx, pending, now, nextId)
    requires tx != [] && pending != [] && tx[0].id == pending[0] && tx[0].queued
    ensures Agreement(tx[1..], pending[1..], now, nextId)
    ensures tx[0].id !in Ids(tx[1..]) && tx[0].id !in pending[1..]
  {
    var ids, ids' := Ids(tx), Ids(tx[1..]);
    assert tx == [tx[0]] + tx[1..] && pending == [pending[0]] + pending[1..];
    IdsCons(tx[0], tx[1..]);
    assert tx[0].id !in ids';
    assert Live(pending[1..], ids) == Live(pending, ids)[1..] == QueuedIds(tx)[1..] == QueuedIds(tx[1..]);
    forall id | id in QueuedIds(tx[1..]) ensures id != tx[0].id {
      QueuedMember(tx[1..], id);
    }
    forall id | id in pending[1..] ensures id < nextId {
      assert id in pending;
    }
    LiveMember(pending[1..], ids, tx[0].id);
    LiveCongruence(pending[1..], ids, ids');
  }

  /** An action whose packet is gone has no effect on the agreement. */
  lemma SkipAgrees(tx: seq<Packet>, pending: seq<nat>, now: nat, nextId: nat)
    requires Agreement(tx, pending, now, nextId)
    requires pending != [] && pending[0] !in Ids(tx)
    ensures Agreement(tx, pending[1..], now, nextId)
  {
    assert pending == [pending[0]] + pending[1..];
    assert Live(pending[1..], Ids(tx)) == Live(pending, Ids(tx));
    forall id | id in pending[1..] ensures id < nextId {
      assert id in pending;
    }
  }
}
