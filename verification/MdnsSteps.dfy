/**
 Preservation of the engine invariant by the operations that involve several control blocks, by
 service removal, and by the executor and the timer.
 */
module MdnsSteps {
  import opened Common
  import opened MdnsState
  import opened MdnsSpec
  import opened MdnsQueue
  import opened MdnsContents
  import opened MdnsLifecycle

  // ---- All control blocks ----

  /** Every control block may be probed anew: what is up need not have its packet, what is down is left alone. */
  ghost predicate Restartable(st: State, q: nat)
    requires q < |st.pcbs|
  {
    Sound(st.pcbs[q]) && (!st.pcbs[q].ready ==> Life(st, q))
  }

  lemma ProbeOneInv(st: State, q: nat, services: seq<Service>, probeIp: bool, clearOld: bool, random: nat, allowed: seq<Service>)
    requires Base(st, allowed) && q < |st.pcbs| && Restartable(st, q)
    requires NoDuplicates(services) && Subset(services, allowed) && (services != [] || probeIp)
    ensures var st' := ProbeOne(st, q, services, probeIp, clearOld, random);
            Base(st', allowed) && Confined(st, st', q) && Life(st', q) && st'.pcbs[q].ready == st.pcbs[q].ready
  {
    hide Agreement, ThreeProbesFirst, Recorded, InitProbe, PacketMentionsOnly, Since;
    var pcb := st.pcbs[q];
    if !pcb.ready {
    } else if clearOld {
      var st1 := st.(pcbs := st.pcbs[q := pcb.(probeServices := [], probeRunning := false)]);
      assert Idle(pcb) ==> Idle(st1.pcbs[q]);
      assert Base(st1, allowed);
      ConfinedIntro(st, st1, q);
      InitProbeInv(st1, q, services, probeIp, random, allowed);
    } else {
      InitProbeInv(st, q, services, probeIp, random, allowed);
    }
  }

  lemma {:induction false} ProbeFirstInv(st: State, n: nat, services: seq<Service>, probeIp: bool, clearOld: bool,
                                         random: nat -> nat, allowed: seq<Service>)
    requires Base(st, allowed) && n <= |st.pcbs| && forall q :: 0 <= q < |st.pcbs| ==> Restartable(st, q)
    requires NoDuplicates(services) && Subset(services, allowed) && (services != [] || probeIp)
    ensures var st' := ProbeFirst(st, n, services, probeIp, clearOld, random);
            && Base(st', allowed) && |st'.pcbs| == |st.pcbs|
            && st'.services == st.services && st'.hostSet == st.hostSet && st'.partner == st.partner
            && (forall q :: 0 <= q < n ==> Life(st', q))
            && (forall q :: n <= q < |st.pcbs| ==> st'.pcbs[q] == st.pcbs[q] && Restartable(st', q))
  {
    hide Base, Life, ProbeOne, Sound;
    if n > 0 {
      ProbeFirstInv(st, n - 1, services, probeIp, clearOld, random, allowed);
      var mid := ProbeFirst(st, n - 1, services, probeIp, clearOld, random);
      ProbeOneInv(mid, n - 1, services, probeIp, clearOld, random(n - 1), allowed);
    }
  }

  lemma ProbeAllInv(st: State, services: seq<Service>, probeIp: bool, clearOld: bool, random: nat -> nat, known: seq<Service>)
    requires Base(st, known) && NoDuplicates(st.services) && Subset(st.services, known)
    requires forall q :: 0 <= q < |st.pcbs| ==> Restartable(st, q)
    requires NoDuplicates(services) && Subset(services, known) && (services != [] || probeIp)
    ensures Inv(ProbeAll(st, services, probeIp, clearOld, random), known)
  {
    hide Base, Life, ProbeFirst, Sound;
    ProbeFirstInv(st, |st.pcbs|, services, probeIp, clearOld, random, known);
  }

  lemma InvRestartable(st: State)
    requires AllLife(st)
    ensures forall q :: 0 <= q < |st.pcbs| ==> Restartable(st, q)
  {
    hide Recorded, Claimed, Anchored, Sound;
    forall q | 0 <= q < |st.pcbs| ensures Restartable(st, q) {
      assert Life(st, q);
    }
  }

  /** Everything scheduled is dropped and every control block that is up starts over. */
  lemma RestartAllInv(st: State, random: nat -> nat, known: seq<Service>)
    requires Inv(st, known)
    ensures Inv(RestartAll(st.(hostSet := true), random), known)
  {
    hide Sound, ProbeAll, Shrunk, PacketMentionsOnly, Since, AsksEnough, Progress, Agreement, ThreeProbesFirst;
    ShrunkNothing(st.tx);
    ShrinkBase(st, [], known);
    var cleared := st.(tx := [], hostSet := true);
    assert Base(cleared, known);
    forall q | 0 <= q < |st.pcbs| ensures Restartable(cleared, q) {
      assert Life(st, q);
    }
    ProbeAllInv(cleared, st.services, true, true, random, known);
  }

  lemma {:induction false} AnnounceFirstInv(st: State, n: nat, services: seq<Service>, withIp: bool, random: nat -> nat, allowed: seq<Service>)
    requires Base(st, allowed) && n <= |st.pcbs| && AllLife(st)
    requires NoDuplicates(services) && Subset(services, allowed) && (services != [] || withIp)
    ensures var st' := AnnounceFirst(st, n, services, withIp, random);
            && Base(st', allowed) && |st'.pcbs| == |st.pcbs| && AllLife(st')
            && st'.services == st.services && st'.hostSet == st.hostSet && st'.partner == st.partner
  {
    hide Base, Life, Announce;
    if n > 0 {
      AnnounceFirstInv(st, n - 1, services, withIp, random, allowed);
      var mid := AnnounceFirst(st, n - 1, services, withIp, random);
      AnnounceInv(mid, n - 1, services, withIp, random(n - 1), allowed);
    }
  }

  lemma AnnounceAllInv(st: State, services: seq<Service>, withIp: bool, random: nat -> nat, known: seq<Service>)
    requires Inv(st, known) && NoDuplicates(services) && Subset(services, known) && (services != [] || withIp)
    ensures Inv(AnnounceAll(st, services, withIp, random), known)
  {
    hide Base, Life, AnnounceFirst;
    AnnounceFirstInv(st, |st.pcbs|, services, withIp, random, known);
  }

  lemma ConfinedInv(st: State, st': State, q: nat, known: seq<Service>)
    requires Inv(st, known) && Confined(st, st', q) && Base(st', known) && (q < |st.pcbs| ==> Life(st', q))
    ensures Inv(st', known)
  {
    hide Base, Life;
  }

  // ---- Service removal ----

  ghost predicate Excludes(list: seq<Answer>, s: Service) {
    forall a :: a in list ==> a.svc != Some(s)
  }

  lemma {:induction false} IndexOfFound(services: seq<Service>, s: Service)
    ensures IndexOf(services, s) < |services| <==> s in services
    ensures s in services ==> services[IndexOf(services, s)] == s
  {
    if services != [] {
      assert services == [services[0]] + services[1..];
      IndexOfFound(services[1..], s);
    }
  }

  lemma RemovedMembers(services: seq<Service>, i: nat)
    requires i < |services|
    ensures forall x :: x in services[..i] + services[i + 1..] ==> x in services
    ensures forall x :: x in services && x != services[i] ==> x in services[..i] + services[i + 1..]
  {
    var r := services[..i] + services[i + 1..];
    forall x | x in services && x != services[i] ensures x in r {
      var k :| 0 <= k < |services| && services[k] == x;
      assert if k < i then r[k] == x else r[k - 1] == x;
    }
  }

  lemma RemovedDistinct(services: seq<Service>, i: nat)
    requires i < |services| && NoDuplicates(services)
    ensures NoDuplicates(services[..i] + services[i + 1..]) && services[i] !in services[..i] + services[i + 1..]
  {
    var r := services[..i] + services[i + 1..];
    assert forall k :: 0 <= k < |r| ==> r[k] == services[if k < i then k else k + 1];
  }

  /** Taking one occurrence out of a list without duplicates takes the element out. */
  lemma RemoveAt(services: seq<Service>, s: Service)
    requires NoDuplicates(services) && s in services
    ensures var i := IndexOf(services, s);
            var r := services[..i] + services[i + 1..];
            && NoDuplicates(r) && s !in r
            && (forall x :: x in r <==> x in services && x != s)
            && (forall t :: OfType(r, t) + (if s.typ == t then 1 else 0) == OfType(services, t))
  {
    hide NoDuplicates, OfType, IndexOf;
    IndexOfFound(services, s);
    var i := IndexOf(services, s);
    RemovedMembers(services, i);
    RemovedDistinct(services, i);
    var r := services[..i] + services[i + 1..];
    forall t ensures OfType(r, t) + (if s.typ == t then 1 else 0) == OfType(services, t) {
      OfTypeRemove(services, i, t);
    }
  }

  lemma {:induction false} OfTypeRemove(services: seq<Service>, i: nat, t: nat)
    requires i < |services|
    ensures OfType(services[..i] + services[i + 1..], t) + (if services[i].typ == t then 1 else 0) == OfType(services, t)
  {
    if i == 0 {
      assert services[..0] + services[1..] == services[1..];
    } else {
      OfTypeRemove(services[1..], i - 1, t);
      assert services[..i] + services[i + 1..] == [services[0]] + (services[1..][..i - 1] + services[1..][i..]);
    }
  }

  lemma {:induction false} DropQuestionCounts(questions: seq<Question>, s: Service, t: nat)
    ensures AskedOfType(DropQuestion(questions, s), t) + (if s.typ == t then 1 else 0) >= AskedOfType(questions, t)
  {
    if questions != [] && !(questions[0].subject.OfService? && questions[0].subject.svc.typ == s.typ) {
      var rest := DropQuestion(questions[1..], s);
      assert ([questions[0]] + rest)[1..] == rest;
      DropQuestionCounts(questions[1..], s, t);
    }
  }

  /** Exactly the first question of that service type goes. */
  lemma {:induction false} DropQuestionAt(questions: seq<Question>, s: Service) returns (i: nat)
    ensures i <= |questions|
    ensures forall k :: 0 <= k < i ==> !(questions[k].subject.OfService? && questions[k].subject.svc.typ == s.typ)
    ensures i < |questions| ==> questions[i].subject.OfService? && questions[i].subject.svc.typ == s.typ &&
                                CutAt(DropQuestion(questions, s), questions, i)
    ensures i == |questions| ==> DropQuestion(questions, s) == questions
  {
    hide CutAt;
    if questions == [] {
      i := 0;
    } else if questions[0].subject.OfService? && questions[0].subject.svc.typ == s.typ {
      i := 0;
      CutHead(questions);
    } else {
      var j := DropQuestionAt(questions[1..], s);
      i := j + 1;
      forall k | 0 < k < i ensures !(questions[k].subject.OfService? && questions[k].subject.svc.typ == s.typ) {
        assert questions[k] == questions[1..][k - 1];
      }
      if i < |questions| {
        CutFromRest(DropQuestion(questions[1..], s), questions, j);
      } else {
        assert questions == [questions[0]] + questions[1..];
      }
    }
  }

  lemma {:induction false} DropQuestionMembers(questions: seq<Question>, s: Service)
    ensures Asked(questions, OfHost(None)) ==> Asked(DropQuestion(questions, s), OfHost(None))
    ensures forall x :: x in DropQuestion(questions, s) ==> x in questions
  {
    if questions != [] {
      assert questions == [questions[0]] + questions[1..];
      DropQuestionMembers(questions[1..], s);
      var r := DropQuestion(questions, s);
      if Asked(questions, OfHost(None)) {
        var i :| 0 <= i < |questions| && questions[i].subject == OfHost(None);
        if questions[0].subject.OfService? && questions[0].subject.svc.typ == s.typ {
          assert r[i - 1].subject == OfHost(None);
        } else if i == 0 {
          assert r[0].subject == OfHost(None);
        } else {
          assert questions[1..][i - 1].subject == OfHost(None);
          var k :| 0 <= k < |DropQuestion(questions[1..], s)| && DropQuestion(questions[1..], s)[k].subject == OfHost(None);
          assert r[k + 1].subject == OfHost(None);
        }
      }
    }
  }

  /** The lists of a purged packet lose exactly the answers of the service. */
  lemma PurgedPacket(pcb: Pcb, p: Packet, s: Service)
    ensures var p' := Purge(pcb, p, s).1;
            && SameSlot(p, p') && p'.distributed == p.distributed
            && (forall a :: a in p'.answers <==> a in p.answers && a.svc != Some(s))
            && (forall a :: a in p'.servers <==> a in p.servers && a.svc != Some(s))
            && (forall a :: a in p'.additional <==> a in p.additional && a.svc != Some(s))
  {
    DropServiceMembers(p.answers, s);
    DropServiceMembers(p.servers, s);
    DropServiceMembers(p.additional, s);
  }

  /** What purging does to a probing control block itself. */
  lemma PurgeProbingPcb(pcb: Pcb, p: Packet, s: Service)
    requires pcb.ready && Sound(pcb) && pcb.state.Probing()
    ensures var (pcb', p') := Purge(pcb, p, s);
            && Sound(pcb') && pcb'.ready && pcb'.probeIp == pcb.probeIp
            && (forall x :: x in pcb'.probeServices <==> x in pcb.probeServices && x != s)
            && (pcb'.state.Running? || pcb'.state == pcb.state)
            && (AsksEnough(p.questions, pcb) ==> AsksEnough(p'.questions, pcb'))
            && (forall x :: x in p'.questions ==> x in p.questions)
  {
    hide DropService, AsksEnough, OfType, DropQuestion, NoDuplicates, IndexOf;
    IndexOfFound(pcb.probeServices, s);
    if s in pcb.probeServices {
      RemoveAt(pcb.probeServices, s);
      DropQuestionMembers(p.questions, s);
      if AsksEnough(p.questions, pcb) {
        PurgedQuestions(pcb, p, Purge(pcb, p, s).0, s);
      }
    }
  }

  /** The only packet of a probing control block stays its probe, unless nothing is left to probe. */
  lemma PurgeProbe(pcb: Pcb, p: Packet, s: Service, h: seq<Output>)
    requires pcb.ready && Sound(pcb) && pcb.state.Probing() && ProbeFor(p, pcb) && Progress(p, pcb, h)
    ensures var (pcb', p') := Purge(pcb, p, s);
            && Sound(pcb') && pcb'.ready
            && (forall x :: x in pcb'.probeServices <==> x in pcb.probeServices && x != s)
            && (pcb'.state.Running? || (pcb'.state == pcb.state && ProbeFor(p', pcb') && Progress(p', pcb', h) && !p'.IsEmpty()))
  {
    hide Purge, AsksEnough, Sound, ProperProbes;
    var (pcb', p') := Purge(pcb, p, s);
    PurgedPacket(pcb, p, s);
    PurgeProbingPcb(pcb, p, s);
    if !pcb'.state.Running? {
      if pcb.probeIp {
        var a :| a in p.servers && a.typ == RecordType.A && a.svc == None;
        assert a in p'.servers;
      }
      forall i | 0 <= i < |p'.questions| ensures p'.questions[i].unicast == (|h| == 0) {
        assert p'.questions[i] in p.questions;
      }
      assert ProbeFor(p', pcb');
      ProbeAsks(p', pcb');
    }
  }

  lemma PurgedQuestions(pcb: Pcb, p: Packet, pcb': Pcb, s: Service)
    requires AsksEnough(p.questions, pcb) && pcb'.probeIp == pcb.probeIp
    requires forall t :: OfType(pcb'.probeServices, t) + (if s.typ == t then 1 else 0) == OfType(pcb.probeServices, t)
    ensures AsksEnough(DropQuestion(p.questions, s), pcb')
  {
    forall t ensures AskedOfType(DropQuestion(p.questions, s), t) >= OfType(pcb'.probeServices, t) {
      DropQuestionCounts(p.questions, s, t);
      assert OfType(pcb'.probeServices, t) + (if s.typ == t then 1 else 0) == OfType(pcb.probeServices, t);
    }
    DropQuestionMembers(p.questions, s);
  }

  /** One packet of an announcing control block: an anchor survives or the control block is done announcing. */
  lemma PurgeAnnounce(pcb: Pcb, p: Packet, s: Service)
    requires pcb.ready && Sound(pcb) && !pcb.state.CountsAsProbing()
    ensures var (pcb', p') := Purge(pcb, p, s);
            && (pcb' == pcb || (pcb.state.Announcing() && pcb' == pcb.(state := Running)))
            && (pcb' == pcb && pcb.state.Announcing() && Anchor(p) ==> Anchor(p') && !p'.IsEmpty())
  {
    PurgedPacket(pcb, p, s);
    var (pcb', p') := Purge(pcb, p, s);
    if pcb' == pcb && pcb.state.Announcing() && Anchor(p) {
      if p.answers == [] {
        var a :| a in p.servers && a.svc == None;
        assert a in p'.servers;
      }
    }
  }

  // What PurgeQueue does to control block `q`, packet by packet.

  lemma {:induction false} PurgeOthers(pcbs: seq<Pcb>, tx: seq<Packet>, s: Service, q: nat)
    requires q < |pcbs| && forall p :: p in tx ==> p.pcb != q
    ensures PurgeQueue(pcbs, tx, s).0[q] == pcbs[q]
    decreases |tx|
  {
    if tx != [] {
      assert tx == [tx[0]] + tx[1..];
      assert tx[0] in tx;
      if tx[0].pcb >= |pcbs| {
        PurgeOthers(pcbs, tx[1..], s, q);
      } else {
        PurgeOthers(pcbs[tx[0].pcb := Purge(pcbs[tx[0].pcb], tx[0], s).0], tx[1..], s, q);
      }
    }
  }

  /** A purged packet descends from one of the queue and no longer mentions the service. */
  lemma {:induction false} PurgeMember(pcbs: seq<Pcb>, tx: seq<Packet>, s: Service, x: Packet) returns (p: Packet)
    requires (forall p :: p in tx ==> p.pcb < |pcbs|) && x in PurgeQueue(pcbs, tx, s).1
    ensures p in tx && SameSlot(p, x)
    ensures Excludes(x.answers, s) && Excludes(x.servers, s) && Excludes(x.additional, s)
    ensures forall allowed: seq<Service> :: PacketMentionsOnly(p, allowed) ==> PacketMentionsOnly(x, allowed)
    ensures !pcbs[p.pcb].ready ==> x.questions == p.questions
    decreases |tx|
  {
    assert tx == [tx[0]] + tx[1..];
    var (pcb, h) := Purge(pcbs[tx[0].pcb], tx[0], s);
    PurgedPacket(pcbs[tx[0].pcb], tx[0], s);
    if x == h {
      p := tx[0];
    } else {
      p := PurgeMember(pcbs[tx[0].pcb := pcb], tx[1..], s, x);
    }
  }

  lemma {:induction false} PurgeProbing(pcbs: seq<Pcb>, tx: seq<Packet>, s: Service, q: nat, p: Packet)
    requires (forall p :: p in tx ==> p.pcb < |pcbs|) && q < |pcbs|
    requires p in tx && p.pcb == q && Ordered(tx) && forall r :: r in tx && r.pcb == q ==> r.id == p.id
    ensures var (pcbs', tx') := PurgeQueue(pcbs, tx, s);
            var (pcb, p') := Purge(pcbs[q], p, s);
            && pcbs'[q] == pcb
            && (!p'.IsEmpty() ==> p' in tx')
    decreases |tx|
  {
    assert tx == [tx[0]] + tx[1..];
    var (pcb, h) := Purge(pcbs[tx[0].pcb], tx[0], s);
    var pcbs1 := pcbs[tx[0].pcb := pcb];
    if tx[0].pcb == q {
      forall r | r in tx[1..] ensures r.pcb != q {
        assert r in tx && tx[0] in tx;
      }
      assert p == tx[0];
      PurgeOthers(pcbs1, tx[1..], s, q);
    } else {
      PurgeProbing(pcbs1, tx[1..], s, q, p);
    }
  }

  lemma {:induction false} PurgeAnnouncing(pcbs: seq<Pcb>, tx: seq<Packet>, s: Service, q: nat)
    requires (forall p :: p in tx ==> p.pcb < |pcbs|) && q < |pcbs|
    requires pcbs[q].ready && Sound(pcbs[q]) && !pcbs[q].state.CountsAsProbing()
    ensures var (pcbs', tx') := PurgeQueue(pcbs, tx, s);
            && (pcbs'[q] == pcbs[q] || (pcbs[q].state.Announcing() && pcbs'[q] == pcbs[q].(state := Running)))
            && (pcbs[q].state.Announcing() && pcbs'[q] == pcbs[q] && Anchored(tx, q) ==> Anchored(tx', q))
    decreases |tx|
  {
    hide Purge, Anchor;
    if tx != [] {
      assert tx == [tx[0]] + tx[1..];
      var (pcb, h) := Purge(pcbs[tx[0].pcb], tx[0], s);
      var pcbs1 := pcbs[tx[0].pcb := pcb];
      PurgedPacket(pcbs[tx[0].pcb], tx[0], s);
      if tx[0].pcb == q {
        PurgeAnnounce(pcbs[q], tx[0], s);
      }
      PurgeAnnouncing(pcbs1, tx[1..], s, q);
      var rest := PurgeQueue(pcbs1, tx[1..], s).1;
      var tx' := (if h.IsEmpty() then [] else [h]) + rest;
      if Anchored(tx, q) && !Anchored(tx[1..], q) {
        var a :| a in tx && a.pcb == q && Anchor(a);
        assert a == tx[0];
        if !h.IsEmpty() {
          assert h in tx';
        }
      }
      if Anchored(rest, q) {
        var a :| a in rest && a.pcb == q && Anchor(a);
        assert a in tx';
      }
    }
  }

  /** Nothing changes a control block that is down. */
  lemma {:induction false} PurgeDown(pcbs: seq<Pcb>, tx: seq<Packet>, s: Service, q: nat)
    requires q < |pcbs| && !pcbs[q].ready
    ensures PurgeQueue(pcbs, tx, s).0[q] == pcbs[q]
    decreases |tx|
  {
    if tx == [] {
    } else if tx[0].pcb >= |pcbs| {
      PurgeDown(pcbs, tx[1..], s, q);
    } else {
      PurgeDown(pcbs[tx[0].pcb := Purge(pcbs[tx[0].pcb], tx[0], s).0], tx[1..], s, q);
    }
  }

  /** What removing the records of a service does to one control block. */
  lemma PurgeLife(st: State, q: nat, s: Service, allowed: seq<Service>)
    requires Base(st, allowed) && q < |st.pcbs| && Life(st, q)
    ensures var st' := RemoveScheduled(st, s);
            && Life(st', q) && st'.pcbs[q].ready == st.pcbs[q].ready
            && (Idle(st.pcbs[q]) ==> Idle(st'.pcbs[q]))
            && (s in st'.pcbs[q].probeServices <==> s in st.pcbs[q].probeServices && !st.pcbs[q].ready)
            && Subset(st'.pcbs[q].probeServices, st.pcbs[q].probeServices)
  {
    hide Live, QueuedIds, Ids, ThreeProbesFirst, PurgeQueue, Purge, Since, PacketMentionsOnly, ProperProbes, AsksEnough, Ordered;
    hide Recorded, Claimed;
    var pcb := st.pcbs[q];
    if !pcb.ready {
      PurgeDownLife(st, q, s, allowed);
    } else if pcb.state.Probing() {
      PurgeProbingLife(st, q, s, allowed);
    } else {
      PurgeAnnouncing(st.pcbs, st.tx, s, q);
    }
  }

  lemma PurgeDownLife(st: State, q: nat, s: Service, allowed: seq<Service>)
    requires Base(st, allowed) && q < |st.pcbs| && Life(st, q) && !st.pcbs[q].ready
    ensures var st' := RemoveScheduled(st, s); Life(st', q) && st'.pcbs[q] == st.pcbs[q]
  {
    hide Live, QueuedIds, Ids, ThreeProbesFirst, PurgeQueue, Purge, Since, PacketMentionsOnly, ProperProbes, AsksEnough, Ordered;
    PurgeDown(st.pcbs, st.tx, s, q);
    var st' := RemoveScheduled(st, s);
    var pcb, h := st.pcbs[q], Since(st.out, q);
    if pcb.state.Probing() {
      forall x | x in st'.tx && x.pcb == q
        ensures AsksEnough(x.questions, pcb) && Progress(x, pcb, h)
        ensures forall y :: y in st'.tx && y.pcb == q ==> x.id == y.id
      {
        var p := PurgeMember(st.pcbs, st.tx, s, x);
        forall y | y in st'.tx && y.pcb == q ensures x.id == y.id {
          var r := PurgeMember(st.pcbs, st.tx, s, y);
        }
      }
    }
  }

  lemma PurgeProbingLife(st: State, q: nat, s: Service, allowed: seq<Service>)
    requires Base(st, allowed) && q < |st.pcbs| && Life(st, q) && st.pcbs[q].state.Probing() && st.pcbs[q].ready
    ensures var st' := RemoveScheduled(st, s);
            && Life(st', q) && st'.pcbs[q].ready
            && !st'.pcbs[q].state.Announcing()
            && s !in st'.pcbs[q].probeServices && Subset(st'.pcbs[q].probeServices, st.pcbs[q].probeServices)
  {
    hide Live, QueuedIds, Ids, ThreeProbesFirst, PurgeQueue, Purge, Since, PacketMentionsOnly, ProperProbes, AsksEnough;
    hide Recorded, Claimed, Sound;
    var pcb, h := st.pcbs[q], Since(st.out, q);
    var (pcbs', tx') := PurgeQueue(st.pcbs, st.tx, s);
    var p := SoleProbe(st, q);
    PurgeProbe(pcb, p, s, h);
    PurgeProbing(st.pcbs, st.tx, s, q, p);
    PurgedPacket(pcb, p, s);
    var (pcb', p') := Purge(pcb, p, s);
    var st' := RemoveScheduled(st, s);
    if pcb'.state.Probing() {
      PurgeShrinks(st.pcbs, st.tx, s);
      ShrunkOrdered(st.tx, tx');
      forall r | r in tx' && r.pcb == q ensures r == p' {
        var o := PurgeMember(st.pcbs, st.tx, s, r);
        SameId(tx', r, p');
      }
      ProbingLife(st', q, p', h);
    }
  }

  lemma SameId(tx: seq<Packet>, a: Packet, b: Packet)
    requires Ordered(tx) && a in tx && b in tx && a.id == b.id
    ensures a == b
  {
    var i :| 0 <= i < |tx| && tx[i] == a;
    var j :| 0 <= j < |tx| && tx[j] == b;
    if i < j {
      OrderedByIndex(tx, i, j);
    } else if j < i {
      OrderedByIndex(tx, j, i);
    }
  }

  /** Removing a service's records leaves no mention of it, in any packet or in the probe of an interface that is up. */
  lemma RemoveScheduledInv(st: State, s: Service, allowed: seq<Service>)
    requires Base(st, allowed) && AllLife(st)
    ensures var st' := RemoveScheduled(st, s);
            && Base(st', allowed) && AllLife(st')
            && |st'.pcbs| == |st.pcbs| && st'.services == st.services && st'.hostSet == st.hostSet
    ensures forall x :: x in RemoveScheduled(st, s).tx ==> Excludes(x.answers, s) && Excludes(x.servers, s) && Excludes(x.additional, s)
    ensures var st' := RemoveScheduled(st, s);
            forall q :: 0 <= q < |st.pcbs| ==>
              && st'.pcbs[q].ready == st.pcbs[q].ready
              && (s in st'.pcbs[q].probeServices <==> s in st.pcbs[q].probeServices && !st.pcbs[q].ready)
              && Subset(st'.pcbs[q].probeServices, st.pcbs[q].probeServices)
  {
    hide Live, QueuedIds, Ids, Ordered, ThreeProbesFirst, PurgeQueue, Life, Shrunk, PacketMentionsOnly;
    var st' := RemoveScheduled(st, s);
    PurgeShrinks(st.pcbs, st.tx, s);
    ShrinkAgrees(st.tx, st'.tx, st.pending, st.now, st.nextId);
    forall q | 0 <= q < |st.pcbs|
      ensures Life(st', q) && st'.pcbs[q].ready == st.pcbs[q].ready
      ensures Subset(st'.pcbs[q].probeServices, st.pcbs[q].probeServices)
      ensures s in st'.pcbs[q].probeServices <==> s in st.pcbs[q].probeServices && !st.pcbs[q].ready
      ensures Idle(st.pcbs[q]) ==> Idle(st'.pcbs[q])
    {
      PurgeLife(st, q, s, allowed);
    }
    forall x | x in st'.tx
      ensures x.pcb < |st.pcbs| && PacketMentionsOnly(x, allowed)
      ensures Excludes(x.answers, s) && Excludes(x.servers, s) && Excludes(x.additional, s)
    {
      var p := PurgeMember(st.pcbs, st.tx, s, x);
    }
  }

  lemma ServiceDelInv(st: State, s: Service, known: seq<Service>)
    requires Inv(st, known)
    ensures Inv(ServiceDel(st, s), known)
  {
    hide Life, RemoveScheduled, Agreement, ThreeProbesFirst, PacketMentionsOnly, OfType;
    IndexOfFound(st.services, s);
    if s in st.services {
      RemoveAt(st.services, s);
      var i := IndexOf(st.services, s);
      var st1 := st.(services := st.services[..i] + st.services[i + 1..]);
      ServicesLife(st, st1);
      RemoveScheduledInv(st1, s, known);
    }
  }

  /** The life of the control blocks does not depend on the list of services. */
  lemma ServicesLife(st: State, st': State)
    requires AllLife(st) && st' == st.(services := st'.services)
    ensures AllLife(st')
  {
    hide Life;
    forall q | 0 <= q < |st.pcbs| ensures Life(st', q) {
      assert Life(st, q);
      LifeFrame(st, st', q);
    }
  }

  lemma {:induction false} RemoveEachInv(st: State, services: seq<Service>, known: seq<Service>)
    requires Base(st, known) && AllLife(st)
    ensures Base(RemoveEach(st, services), known) && AllLife(RemoveEach(st, services))
    decreases |services|
  {
    hide Life, RemoveScheduled, Base;
    if services != [] {
      RemoveScheduledInv(st, services[0], known);
      RemoveEachInv(RemoveScheduled(st, services[0]), services[1..], known);
    }
  }

  lemma {:induction false} RemoveEachKeeps(st: State, services: seq<Service>)
    ensures RemoveEach(st, services).services == st.services
    decreases |services|
  {
    if services != [] {
      RemoveEachKeeps(RemoveScheduled(st, services[0]), services[1..]);
    }
  }

  lemma ServicesClearInv(st: State, known: seq<Service>)
    requires Inv(st, known)
    ensures Inv(ServicesClear(st), known)
  {
    hide Life, RemoveEach, Agreement, ThreeProbesFirst, PacketMentionsOnly;
    var st1 := st.(services := []);
    ServicesLife(st, st1);
    RemoveEachInv(st1, st.services, known);
    RemoveEachKeeps(st1, st.services);
  }

  // ---- Executor ----

  /** The packet at the head of the queue is handed over to its control block. */
  ghost predicate TakenFor(st: State, p: Packet, allowed: seq<Service>) {
    && Base(st, allowed) && p.pcb < |st.pcbs| && !p.queued
    && PacketMentionsOnly(p, allowed)
    && p.id < st.nextId && p.id !in Ids(st.tx) && p.id !in st.pending
    && p.sendAt < st.now
  }

  /** `HandlePacket` in the first two probing states. */
  lemma HandleProbeIs(st: State, p: Packet)
    requires p.pcb < |st.pcbs| && (st.pcbs[p.pcb].state.Probe1? || st.pcbs[p.pcb].state.Probe2?)
    ensures var pcb := st.pcbs[p.pcb];
            var o := Sent(p.pcb, st.now, pcb.state, UnicastFlags(p.questions));
            var next := pcb.(state := if pcb.state.Probe1? then Probe2 else Probe3);
            var p1 := if pcb.state.Probe1? then p.(questions := Quiet(p.questions)) else p;
            HandlePacket(st, p) == Schedule(st.(out := st.out + [o], pcbs := st.pcbs[p.pcb := next]), p1, 250)
  {
    hide Insert, Quiet, UnicastFlags;
  }

  /** `HandlePacket` in the last one. */
  lemma HandleLastProbeIs(st: State, p: Packet)
    requires p.pcb < |st.pcbs| && st.pcbs[p.pcb].state.Probe3?
    ensures var pcb := st.pcbs[p.pcb];
            var o := Sent(p.pcb, st.now, pcb.state, UnicastFlags(p.questions));
            var next := pcb.(state := Announce1, probeRunning := false, probeIp := false, probeServices := [], failedProbes := 0);
            var mid := st.(nextId := st.nextId + 1, out := st.out + [o] + [Announced(p.pcb, st.now)], pcbs := st.pcbs[p.pcb := next]);
            HandlePacket(st, p) == Schedule(mid, BlankPacket(st.nextId, p.pcb).(answers := FromProbe([], p.servers)), 250)
  {
    hide Insert, FromProbe, UnicastFlags;
  }

  lemma HandleProbeInv(st: State, p: Packet, allowed: seq<Service>)
    requires TakenFor(st, p, allowed) && Sound(st.pcbs[p.pcb])
    requires st.pcbs[p.pcb].state.Probe1? || st.pcbs[p.pcb].state.Probe2?
    requires AsksEnough(p.questions, st.pcbs[p.pcb]) && (st.pcbs[p.pcb].ready ==> ProbeFor(p, st.pcbs[p.pcb]))
    requires Progress(p, st.pcbs[p.pcb], Since(st.out, p.pcb))
    requires forall x :: x in st.tx ==> x.pcb != p.pcb
    ensures var st' := HandlePacket(st, p); Base(st', allowed) && Confined(st, st', p.pcb) && Life(st', p.pcb)
  {
    hide Agreement, ThreeProbesFirst, PacketMentionsOnly, AsksEnough, Since, Insert, Progress, ProbeFor, HandlePacket, Life, Quiet, UnicastFlags;
    var q, pcb := p.pcb, st.pcbs[p.pcb];
    var h := Since(st.out, q);
    var o := Sent(q, st.now, pcb.state, UnicastFlags(p.questions));
    var next := pcb.(state := if pcb.state.Probe1? then Probe2 else Probe3);
    var p1 := if pcb.state.Probe1? then p.(questions := Quiet(p.questions)) else p;
    SinceAppend(st.out, o, q);
    SentBase(st, q, next, o, allowed);
    var mid := st.(out := st.out + [o], pcbs := st.pcbs[q := next]);
    assert PacketMentionsOnly(p1, allowed) by { SameMentions(p, p1, allowed); }
    ScheduleBase(mid, p1, 250, allowed);
    var st' := Schedule(mid, p1, 250);
    HandleProbeIs(st, p);
    var p2 := p1.(sendAt := st.now + 250);
    ProbeMoved(p, pcb, h, o, p2, next);
    ProbingLife(st', q, p2, h + [o]);
    ConfinedIntro(st, st', q);
  }

  /** A probe sent once more: it asks and claims the same, and the record has grown by one. */
  lemma ProbeMoved(p: Packet, pcb: Pcb, h: seq<Output>, o: Output, p2: Packet, next: Pcb)
    requires Sound(pcb) && (pcb.state.Probe1? || pcb.state.Probe2?) && Progress(p, pcb, h)
    requires AsksEnough(p.questions, pcb) && (pcb.ready ==> ProbeFor(p, pcb))
    requires o.Sent? && o.phase == pcb.state && o.unicast == UnicastFlags(p.questions) && o.time > p.sendAt
    requires next == pcb.(state := if pcb.state.Probe1? then Probe2 else Probe3)
    requires p2 == p.(questions := if pcb.state.Probe1? then Quiet(p.questions) else p.questions, sendAt := o.time + 250)
    ensures Progress(p2, next, h + [o]) && AsksEnough(p2.questions, next) && (pcb.ready ==> ProbeFor(p2, next))
  {
    hide AsksEnough, ProperProbes, UnicastFlags;
    ProbeSent(p, pcb, h, o);
    QuietAsks(p.questions, pcb);
    AsksSame(p2.questions, pcb, next);
  }

  lemma SameMentions(p: Packet, p': Packet, allowed: seq<Service>)
    requires p.answers == p'.answers && p.servers == p'.servers && p.additional == p'.additional
    ensures PacketMentionsOnly(p, allowed) ==> PacketMentionsOnly(p', allowed)
  {
  }

  lemma {:induction false} QuietCounts(questions: seq<Question>, t: nat)
    ensures AskedOfType(Quiet(questions), t) == AskedOfType(questions, t)
  {
    if questions != [] {
      assert Quiet(questions)[1..] == Quiet(questions[1..]);
      QuietCounts(questions[1..], t);
    }
  }

  lemma QuietAsks(questions: seq<Question>, pcb: Pcb)
    requires AsksEnough(questions, pcb)
    ensures AsksEnough(Quiet(questions), pcb)
  {
    forall t ensures AskedOfType(Quiet(questions), t) >= OfType(pcb.probeServices, t) {
      QuietCounts(questions, t);
    }
    if pcb.probeIp {
      var i :| 0 <= i < |questions| && questions[i].subject == OfHost(None);
      assert Quiet(questions)[i].subject == OfHost(None);
    }
  }

  lemma AsksSame(questions: seq<Question>, pcb: Pcb, next: Pcb)
    requires next.probeServices == pcb.probeServices && next.probeIp == pcb.probeIp
    ensures AsksEnough(questions, pcb) ==> AsksEnough(questions, next)
  {
  }

  /** A packet is sent and its control block moves to another state of the same kind. */
  lemma SentBase(st: State, q: nat, next: Pcb, o: Output, allowed: seq<Service>)
    requires Base(st, allowed) && q < |st.pcbs| && o.Sent? && o.pcb == q
    requires next.ready == st.pcbs[q].ready && next.probeServices == st.pcbs[q].probeServices
    requires !st.hostSet ==> Idle(next)
    ensures Base(st.(out := st.out + [o], pcbs := st.pcbs[q := next]), allowed)
    ensures forall r: nat :: r != q ==> Since(st.out, r) == Since(st.out + [o], r)
  {
    hide Agreement, ThreeProbesFirst, PacketMentionsOnly, Since;
    ThreeProbesAppend(st.out, o);
    SinceFrame(st.out, o, q);
  }

  /** Sending the probe packet extends the record by one proper probe. */
  lemma ProbeSent(p: Packet, pcb: Pcb, h: seq<Output>, o: Output)
    requires Sound(pcb) && pcb.state.Probing() && AsksEnough(p.questions, pcb) && Progress(p, pcb, h)
    requires o.Sent? && o.phase == pcb.state && o.unicast == UnicastFlags(p.questions) && o.time > p.sendAt
    ensures ProperProbes(h + [o])
  {
    ProbeAsks(p, pcb);
  }

  lemma HandleLastProbeInv(st: State, p: Packet, allowed: seq<Service>)
    requires TakenFor(st, p, allowed) && Sound(st.pcbs[p.pcb]) && st.pcbs[p.pcb].state.Probe3?
    requires AsksEnough(p.questions, st.pcbs[p.pcb]) && (st.pcbs[p.pcb].ready ==> ProbeFor(p, st.pcbs[p.pcb]))
    requires Progress(p, st.pcbs[p.pcb], Since(st.out, p.pcb))
    requires forall x :: x in st.tx ==> x.pcb != p.pcb
    ensures var st' := HandlePacket(st, p); Base(st', allowed) && Confined(st, st', p.pcb) && Life(st', p.pcb)
  {
    hide Ordered, Live, QueuedIds, ThreeProbesFirst, Recorded, Claimed, AsksEnough, Since, Insert, ProperProbes, FromProbe, HandlePacket;
    var q, pcb := p.pcb, st.pcbs[p.pcb];
    var h := Since(st.out, q);
    var o1, o2 := Sent(q, st.now, pcb.state, UnicastFlags(p.questions)), Announced(q, st.now);
    ThreeProbesAppend(st.out, o1);
    SinceAppend(st.out, o1, q);
    ProbeSent(p, pcb, h, o1);
    ThreeProbesAppend(st.out + [o1], o2);
    SinceFrame(st.out, o1, q);
    SinceFrame(st.out + [o1], o2, q);
    var next := pcb.(state := Announce1, probeRunning := false, probeIp := false, probeServices := [], failedProbes := 0);
    var a := BlankPacket(st.nextId, q).(answers := FromProbe([], p.servers));
    FromProbeGrows([], p.servers, allowed);
    if pcb.ready {
      ProbeAnnounces(p, pcb, allowed);
    }
    assert !Idle(pcb);
    FreshId(st, allowed);
    var mid := st.(nextId := st.nextId + 1, out := st.out + [o1] + [o2], pcbs := st.pcbs[q := next]);
    assert Base(mid, allowed);
    ScheduleBase(mid, a, 250, allowed);
    var st' := Schedule(mid, a, 250);
    HandleLastProbeIs(st, p);
    AnnouncingLife(st', q, a.(sendAt := st.now + 250));
    ConfinedIntro(st, st', q);
  }

  /** Whatever a probe claims, something is announced for it. */
  lemma ProbeAnnounces(p: Packet, pcb: Pcb, allowed: seq<Service>)
    requires Sound(pcb) && pcb.state.Probing() && ProbeFor(p, pcb) && PacketMentionsOnly(p, allowed)
    ensures FromProbe([], p.servers) != []
  {
    if pcb.probeServices != [] {
      FromProbeAnnounces([], p.servers, Answer(SRV, Some(pcb.probeServices[0]), None), allowed);
    } else {
      var a :| a in p.servers && a.typ == RecordType.A && a.svc == None;
      FromProbeAnnounces([], p.servers, a, allowed);
    }
  }

  /** `HandlePacket` in the first two announcing states. */
  lemma HandleAnnounceIs(st: State, p: Packet)
    requires p.pcb < |st.pcbs| && (st.pcbs[p.pcb].state.Announce1? || st.pcbs[p.pcb].state.Announce2?)
    ensures var pcb := st.pcbs[p.pcb];
            var o := Sent(p.pcb, st.now, pcb.state, UnicastFlags(p.questions));
            var next := pcb.(state := if pcb.state.Announce1? then Announce2 else Announce3);
            HandlePacket(st, p) == Schedule(st.(out := st.out + [o], pcbs := st.pcbs[p.pcb := next]), p, 1000)
  {
    hide Insert, UnicastFlags;
  }

  lemma HandleAnnounceInv(st: State, p: Packet, allowed: seq<Service>)
    requires TakenFor(st, p, allowed) && Sound(st.pcbs[p.pcb])
    requires st.pcbs[p.pcb].state.Announce1? || st.pcbs[p.pcb].state.Announce2?
    requires st.pcbs[p.pcb].ready ==> Anchor(p) || Anchored(st.tx, p.pcb)
    ensures var st' := HandlePacket(st, p); Base(st', allowed) && Confined(st, st', p.pcb) && Life(st', p.pcb)
  {
    hide Agreement, ThreeProbesFirst, Recorded, Claimed, PacketMentionsOnly, Since, Insert, Anchor, UnicastFlags, HandlePacket;
    var q, pcb := p.pcb, st.pcbs[p.pcb];
    var o := Sent(q, st.now, pcb.state, UnicastFlags(p.questions));
    var next := pcb.(state := if pcb.state.Announce1? then Announce2 else Announce3);
    SentBase(st, q, next, o, allowed);
    var mid := st.(out := st.out + [o], pcbs := st.pcbs[q := next]);
    ScheduleBase(mid, p, 1000, allowed);
    var st' := Schedule(mid, p, 1000);
    HandleAnnounceIs(st, p);
    var p' := p.(sendAt := st.now + 1000);
    var a := p';
    if pcb.ready {
      a := KeptAnchor(st.tx, p, p');
    }
    AnnouncingLife(st', q, a);
    ConfinedIntro(st, st', q);
  }

  lemma SameAnchor(p: Packet, p': Packet)
    requires p.answers == p'.answers && p.servers == p'.servers && p.distributed == p'.distributed
    ensures Anchor(p) ==> Anchor(p')
  {
  }

  lemma KeptAnchor(tx: seq<Packet>, p: Packet, p': Packet) returns (a: Packet)
    requires Anchor(p) || Anchored(tx, p.pcb)
    requires p.pcb == p'.pcb && p.answers == p'.answers && p.servers == p'.servers && p.distributed == p'.distributed
    ensures (a == p' || a in tx) && a.pcb == p.pcb && Anchor(a)
  {
    if Anchor(p) {
      SameAnchor(p, p');
      a := p';
    } else {
      a :| a in tx && a.pcb == p.pcb && Anchor(a);
    }
  }

  lemma HandleDoneInv(st: State, p: Packet, allowed: seq<Service>)
    requires TakenFor(st, p, allowed) && Sound(st.pcbs[p.pcb]) && !st.pcbs[p.pcb].state.Probing()
    requires !st.pcbs[p.pcb].state.Announce1? && !st.pcbs[p.pcb].state.Announce2?
    ensures var st' := HandlePacket(st, p); Base(st', allowed) && Confined(st, st', p.pcb) && Life(st', p.pcb)
  {
    hide Agreement, ThreeProbesFirst, Recorded, Claimed, PacketMentionsOnly, Since, Insert, Anchor;
    var q, pcb := p.pcb, st.pcbs[p.pcb];
    if pcb.state.Off? {
      ConfinedIntro(st, st, q);
    } else {
      var o := Sent(q, st.now, pcb.state, UnicastFlags(p.questions));
      SentBase(st, q, if pcb.state.Announce3? then pcb.(state := Running) else pcb, o, allowed);
      ConfinedIntro(st, HandlePacket(st, p), q);
    }
  }

  lemma ExecuteLiveInv(st: State, known: seq<Service>)
    requires Inv(st, known) && st.pending != [] && st.pending[0] in Ids(st.tx)
    ensures Inv(ExecuteNext(st), known)
  {
    hide Ordered, Live, QueuedIds, ThreeProbesFirst, PacketMentionsOnly, Since, HandlePacket, ProbeFor, Progress, Sound;
    NeverSkipped(st);
    var head := st.tx[0];
    var p, q := head.(queued := false), head.pcb;
    assert head in st.tx;
    assert st.tx == [head] + st.tx[1..];
    PopAgrees(st.tx, st.pending, st.now, st.nextId);
    var popped := st.(tx := st.tx[1..], pending := st.pending[1..]);
    assert Base(popped, known);
    SameMentions(head, p, known);
    assert TakenFor(popped, p, known);
    assert Life(st, q);
    HandleTaken(st, popped, head, known);
    assert ExecuteNext(st) == HandlePacket(popped, p);
    var st' := HandlePacket(popped, p);
    forall r | 0 <= r < |st.pcbs| ensures Life(st', r) {
      if r != q {
        assert Life(st, r);
        LifeFrame(st, popped, r);
      }
    }
  }

  lemma HandleTaken(st: State, popped: State, head: Packet, known: seq<Service>)
    requires head in st.tx && st.tx == [head] + popped.tx && head.id !in Ids(popped.tx)
    requires head.pcb < |st.pcbs| && Life(st, head.pcb)
    requires popped == st.(tx := popped.tx, pending := popped.pending)
    requires TakenFor(popped, head.(queued := false), known)
    ensures var st' := HandlePacket(popped, head.(queued := false));
            Base(st', known) && Confined(popped, st', head.pcb) && Life(st', head.pcb)
  {
    hide Agreement, ThreeProbesFirst, PacketMentionsOnly, Since, HandlePacket, Sound, ProperProbes, AsksEnough;
    var p, q := head.(queued := false), head.pcb;
    var pcb := st.pcbs[q];
    if pcb.state.Probing() {
      forall r | r in popped.tx ensures r.pcb != q {
        assert r in st.tx && r.id in Ids(popped.tx);
      }
      if pcb.ready {
        var x :| x in st.tx && x.pcb == q && ProbeFor(x, pcb);
        assert x == head;
      }
      if pcb.state.Probe3? {
        HandleLastProbeInv(popped, p, known);
      } else {
        HandleProbeInv(popped, p, known);
      }
    } else if pcb.state.Announce1? || pcb.state.Announce2? {
      if pcb.ready {
        var a :| a in st.tx && a.pcb == q && Anchor(a);
        SameAnchor(head, p);
        assert if a == head then Anchor(p) else a in popped.tx;
      }
      HandleAnnounceInv(popped, p, known);
    } else {
      HandleDoneInv(popped, p, known);
    }
  }

  lemma ExecuteNextInv(st: State, known: seq<Service>)
    requires Inv(st, known)
    ensures Inv(ExecuteNext(st), known)
  {
    hide Ordered, Live, QueuedIds, ThreeProbesFirst, PacketMentionsOnly, HandlePacket, Life;
    if st.pending == [] {
    } else if st.pending[0] in Ids(st.tx) {
      ExecuteLiveInv(st, known);
    } else {
      SkipAgrees(st.tx, st.pending, st.now, st.nextId);
      var st' := st.(pending := st.pending[1..]);
      assert ExecuteNext(st) == st';
      assert Base(st', known);
      forall r | 0 <= r < |st.pcbs| ensures Life(st', r) {
        assert Life(st, r);
        LifeFrame(st, st', r);
      }
    }
  }

  // ---- Timer ----

  /** Every packet survives a timer pass, up to being queued. */
  lemma {:induction false} PostKeeps(rest: seq<Packet>, now: nat, room: nat, r: Packet) returns (p: Packet)
    requires r in rest
    ensures p in Post(rest, now, room).0 && p == r.(queued := p.queued)
    decreases |rest|
  {
    if rest[0].sendAt >= now {
      p := r;
    } else if r == rest[0] {
      p := r.(queued := room > 0);
    } else {
      p := PostKeeps(rest[1..], now, if room > 0 then room - 1 else 0, r);
    }
  }

  lemma TimerDescends(st: State, room: nat, x: Packet) returns (r: Packet)
    requires Ordered(st.tx) && x in Timer(st, room).tx
    ensures r in st.tx && x == r.(queued := x.queued)
  {
    var k := FirstUnqueued(st.tx);
    var queued, rest := st.tx[..k], st.tx[k..];
    RestUnqueued(st.tx, k);
    assert st.tx == queued + rest;
    if x in queued {
      r := x;
    } else {
      r := PostMember(rest, st.now, room, x);
    }
  }

  lemma TimerSurvives(st: State, room: nat, r: Packet) returns (x: Packet)
    requires r in st.tx
    ensures x in Timer(st, room).tx && x == r.(queued := x.queued)
  {
    var k := FirstUnqueued(st.tx);
    var queued, rest := st.tx[..k], st.tx[k..];
    assert st.tx == queued + rest;
    if r in queued {
      x := r;
    } else {
      x := PostKeeps(rest, st.now, room, r);
    }
  }

  lemma TimerLife(st: State, room: nat, q: nat)
    requires Ordered(st.tx) && q < |st.pcbs| && Life(st, q)
    ensures Life(Timer(st, room), q)
  {
    hide Ordered, Timer, Since, AsksEnough, Sound, ProperProbes, FirstUnqueued;
    var st' := Timer(st, room);
    TimerKeeps(st, room);
    var pcb, h := st.pcbs[q], Since(st.out, q);
    if pcb.state.Probing() {
      forall x | x in st'.tx && x.pcb == q
        ensures AsksEnough(x.questions, pcb) && Progress(x, pcb, h)
        ensures forall y :: y in st'.tx && y.pcb == q ==> x.id == y.id
      {
        var p := TimerDescends(st, room, x);
        forall y | y in st'.tx && y.pcb == q ensures x.id == y.id {
          var r := TimerDescends(st, room, y);
        }
      }
    }
    if pcb.ready && pcb.state.Probing() {
      var p :| p in st.tx && p.pcb == q && ProbeFor(p, pcb);
      var x := TimerSurvives(st, room, p);
      assert ProbeFor(x, pcb);
    } else if pcb.ready && pcb.state.Announcing() {
      var p :| p in st.tx && p.pcb == q && Anchor(p);
      var x := TimerSurvives(st, room, p);
      assert Anchor(x);
    }
  }

  lemma TimerKeeps(st: State, room: nat)
    ensures var st' := Timer(st, room); st' == st.(tx := st'.tx, pending := st'.pending)
  {
  }

  lemma TimerInv(st: State, room: nat, known: seq<Service>)
    requires Inv(st, known)
    ensures Inv(Timer(st, room), known)
  {
    hide Ordered, Live, QueuedIds, Ids, Post, Timer, ThreeProbesFirst, Life, FirstUnqueued;
    TimerAgrees(st, room);
    TimerKeeps(st, room);
    var st' := Timer(st, room);
    forall x | x in st'.tx ensures x.pcb < |st.pcbs| && PacketMentionsOnly(x, known) {
      var r := TimerDescends(st, room, x);
      SameMentions(r, x, known);
    }
    forall q | 0 <= q < |st.pcbs| ensures Life(st', q) {
      assert Life(st, q);
      TimerLife(st, room, q);
    }
  }
}
