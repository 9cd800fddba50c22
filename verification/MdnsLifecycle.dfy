/**
 Life-cycle invariant of the control blocks, the services that may be mentioned and the record of probes
 sent, with their preservation by the operations on a single control block.
 */
module MdnsLifecycle {
  import opened Common
  import opened MdnsState
  import opened MdnsSpec
  import opened MdnsQueue
  import opened MdnsContents

  // ---- The probe record ----

  /** What control block `q` has sent since its probe was last (re)started. */
  function Since(out: seq<Output>, q: nat): seq<Output> {
    if out == [] then []
    else
      var last := out[|out| - 1];
      match last
      case ProbeRestart(r, _) => if r == q then [] else Since(out[..|out| - 1], q)
      case Sent(r, _, _, _) => if r == q then Since(out[..|out| - 1], q) + [last] else Since(out[..|out| - 1], q)
      case Announced(_, _) => Since(out[..|out| - 1], q)
  }

  /** Probes in order, at least 250 ms apart; only the first one asks for unicast replies. */
  ghost predicate ProperProbes(h: seq<Output>) {
    && |h| <= 3
    && forall i :: 0 <= i < |h| ==>
         && h[i].Sent?
         && h[i].phase.Rank() == Probe1.Rank() + i
         && h[i].unicast != []
         && (forall k :: 0 <= k < |h[i].unicast| ==> h[i].unicast[k] == (i == 0))
         && (i > 0 ==> h[i].time >= h[i - 1].time + 250)
  }

  /** Every announcement followed three proper probes since the latest restart. */
  ghost predicate ThreeProbesFirst(out: seq<Output>) {
    forall i :: 0 <= i < |out| && out[i].Announced? ==>
      ProperProbes(Since(out[..i], out[i].pcb)) && |Since(out[..i], out[i].pcb)| == 3
  }

  lemma SinceAppend(out: seq<Output>, o: Output, q: nat)
    ensures Since(out + [o], q) ==
      (match o
       case ProbeRestart(r, _) => if r == q then [] else Since(out, q)
       case Sent(r, _, _, _) => if r == q then Since(out, q) + [o] else Since(out, q)
       case Announced(_, _) => Since(out, q))
  {
    assert (out + [o])[..|out + [o]| - 1] == out;
  }

  lemma ThreeProbesAppend(out: seq<Output>, o: Output)
    requires ThreeProbesFirst(out)
    requires o.Announced? ==> ProperProbes(Since(out, o.pcb)) && |Since(out, o.pcb)| == 3
    ensures ThreeProbesFirst(out + [o])
  {
    forall i | 0 <= i < |out + [o]| && (out + [o])[i].Announced?
      ensures ProperProbes(Since((out + [o])[..i], (out + [o])[i].pcb)) && |Since((out + [o])[..i], (out + [o])[i].pcb)| == 3
    {
      assert (out + [o])[..i] == out[..i];
      assert out[..|out|] == out;
    }
  }

  // ---- The invariant of one control block ----

  /** The part that concerns the control block alone. */
  ghost predicate Sound(pcb: Pcb) {
    && (pcb.ready ==> pcb.state.Rank() >= Probe1.Rank())
    && (pcb.ready && !pcb.state.Probing() ==> pcb.probeServices == [] && !pcb.probeRunning)
    && (pcb.state.Probing() ==> pcb.probeRunning && (pcb.probeServices != [] || pcb.probeIp))
    && (pcb.probeServices != [] ==> pcb.probeRunning && (pcb.state.Off? || pcb.state.CountsAsProbing()))
    && NoDuplicates(pcb.probeServices)
  }

  /** How far the probe has got, as seen in the record of packets sent. */
  ghost predicate Progress(p: Packet, pcb: Pcb, h: seq<Output>) {
    && ProperProbes(h)
    && Probe1.Rank() + |h| == pcb.state.Rank()
    && (|h| > 0 ==> p.sendAt >= h[|h| - 1].time + 250)
    && (forall i :: 0 <= i < |p.questions| ==> p.questions[i].unicast == (|h| == 0))
  }

  /** Whatever is scheduled for a probing control block is its one probe, as far as it has got. */
  ghost predicate Recorded(tx: seq<Packet>, q: nat, pcb: Pcb, h: seq<Output>) {
    && (forall p :: p in tx && p.pcb == q ==> AsksEnough(p.questions, pcb) && Progress(p, pcb, h))
    && (forall p, r :: p in tx && r in tx && p.pcb == q && r.pcb == q ==> p.id == r.id)
  }

  ghost predicate Claimed(tx: seq<Packet>, q: nat, pcb: Pcb) {
    exists p :: p in tx && p.pcb == q && ProbeFor(p, pcb)
  }

  ghost predicate Anchored(tx: seq<Packet>, q: nat) {
    exists p :: p in tx && p.pcb == q && Anchor(p)
  }

  /** A control block that is up always has the packet that moves it on; one that is down may have lost it. */
  ghost predicate Life(st: State, q: nat)
    requires q < |st.pcbs|
  {
    && Sound(st.pcbs[q])
    && (st.pcbs[q].state.Probing() ==> Recorded(st.tx, q, st.pcbs[q], Since(st.out, q)))
    && (st.pcbs[q].ready && st.pcbs[q].state.Probing() ==> Claimed(st.tx, q, st.pcbs[q]))
    && (st.pcbs[q].ready && st.pcbs[q].state.Announcing() ==> Anchored(st.tx, q))
  }

  // ---- The invariant shared by all control blocks ----

  /** What a control block is like as long as the responder has no name. */
  predicate Idle(pcb: Pcb) {
    !pcb.state.Probing() && !pcb.state.Announcing() && pcb.probeServices == [] && !pcb.probeRunning
  }

  /** Queue agreement, no service outside `known` mentioned anywhere, no probe without a host name. */
  ghost predicate Base(st: State, known: seq<Service>) {
    && |st.pcbs| == 2 * |st.partner|
    && Agreement(st.tx, st.pending, st.now, st.nextId)
    && (forall p :: p in st.tx ==> p.pcb < |st.pcbs| && PacketMentionsOnly(p, known))
    && (forall q :: 0 <= q < |st.pcbs| ==> Subset(st.pcbs[q].probeServices, known))
    && (forall q :: 0 <= q < |st.pcbs| && !st.hostSet ==> Idle(st.pcbs[q]))
    && ThreeProbesFirst(st.out)
  }

  ghost predicate AllLife(st: State) {
    forall q :: 0 <= q < |st.pcbs| ==> Life(st, q)
  }

  /** The invariant of the engine; `known` lists the services that have been registered so far. */
  ghost predicate Inv(st: State, known: seq<Service>) {
    Base(st, known) && NoDuplicates(st.services) && Subset(st.services, known) && AllLife(st)
  }

  // ---- Frames ----

  /** A step confined to control block `q`: the others keep their state and their life. */
  ghost predicate Confined(st: State, st': State, q: nat) {
    && |st'.pcbs| == |st.pcbs| && st'.partner == st.partner
    && st'.services == st.services && st'.hostSet == st.hostSet
    && (forall r :: 0 <= r < |st.pcbs| && r != q ==> st'.pcbs[r] == st.pcbs[r] && (Life(st, r) ==> Life(st', r)))
  }

  lemma ConfinedIntro(st: State, st': State, q: nat)
    requires |st'.pcbs| == |st.pcbs| && st'.partner == st.partner
    requires st'.services == st.services && st'.hostSet == st.hostSet
    requires forall r :: 0 <= r < |st.pcbs| && r != q ==> st'.pcbs[r] == st.pcbs[r]
    requires forall p: Packet :: p.pcb != q ==> (p in st.tx <==> p in st'.tx)
    requires forall r: nat :: r != q ==> Since(st.out, r) == Since(st'.out, r)
    ensures Confined(st, st', q)
  {
    forall r | 0 <= r < |st.pcbs| && r != q ensures Life(st, r) ==> Life(st', r) {
      LifeFrame(st, st', r);
    }
  }

  lemma SinceFrame(out: seq<Output>, o: Output, q: nat)
    requires o.pcb == q
    ensures forall r: nat :: r != q ==> Since(out, r) == Since(out + [o], r)
  {
    forall r: nat | r != q ensures Since(out, r) == Since(out + [o], r) {
      SinceAppend(out, o, r);
    }
  }

  /** The life of a control block depends on itself, on its own packets and on its own record only. */
  lemma LifeFrame(st: State, st': State, q: nat)
    requires q < |st.pcbs| && q < |st'.pcbs| && st.pcbs[q] == st'.pcbs[q]
    requires forall p: Packet :: p.pcb == q ==> (p in st.tx <==> p in st'.tx)
    requires Since(st.out, q) == Since(st'.out, q)
    ensures Life(st, q) ==> Life(st', q)
  {
    hide Since, AsksEnough, Progress, ProbeFor, Anchor, Sound;
    if Life(st, q) && st.pcbs[q].ready {
      if st.pcbs[q].state.Probing() {
        var p :| p in st.tx && p.pcb == q && ProbeFor(p, st.pcbs[q]);
        assert p in st'.tx;
      } else if st.pcbs[q].state.Announcing() {
        var p :| p in st.tx && p.pcb == q && Anchor(p);
        assert p in st'.tx;
      }
    }
  }

  lemma ScheduleBase(st: State, p: Packet, after: nat, allowed: seq<Service>)
    requires Base(st, allowed)
    requires !p.queued && p.pcb < |st.pcbs| && PacketMentionsOnly(p, allowed)
    requires p.id < st.nextId && p.id !in Ids(st.tx) && p.id !in st.pending
    ensures Base(Schedule(st, p, after), allowed)
    ensures forall x :: x in Schedule(st, p, after).tx <==> x in st.tx || x == p.(sendAt := st.now + after)
  {
    var p' := p.(sendAt := st.now + after);
    ScheduleAgrees(st.tx, st.pending, st.now, st.nextId, p');
    forall x ensures x in Insert(st.tx, p') <==> x in st.tx || x == p' {
      InsertMembers(st.tx, p', x);
    }
  }

  /** A new packet carries an id that names neither a scheduled packet nor a pending action. */
  lemma FreshId(st: State, allowed: seq<Service>)
    requires Base(st, allowed)
    ensures st.nextId !in Ids(st.tx) && st.nextId !in st.pending
    ensures Base(st.(nextId := st.nextId + 1), allowed)
  {
  }

  lemma ShrinkBase(st: State, tx': seq<Packet>, allowed: seq<Service>)
    requires Base(st, allowed) && Shrunk(st.tx, tx')
    requires forall p :: p in tx' ==> PacketMentionsOnly(p, allowed)
    ensures Base(st.(tx := tx'), allowed)
  {
    ShrinkAgrees(st.tx, tx', st.pending, st.now, st.nextId);
    forall x | x in tx' ensures x.pcb < |st.pcbs| {
      ShrunkMember(st.tx, tx', x);
    }
  }

  lemma ClearBase(st: State, q: nat, allowed: seq<Service>)
    requires Base(st, allowed)
    ensures Base(st.(tx := Without(st.tx, q)), allowed)
    ensures forall x :: x in Without(st.tx, q) <==> x in st.tx && x.pcb != q
  {
    WithoutShrinks(st.tx, q);
    ShrinkBase(st, Without(st.tx, q), allowed);
  }

  /** The packet of a probing control block always has a question in it. */
  lemma ProbeAsks(p: Packet, pcb: Pcb)
    requires Sound(pcb) && pcb.state.Probing() && AsksEnough(p.questions, pcb)
    ensures p.questions != []
  {
    if pcb.probeServices != [] {
      AskedPositive(p.questions, pcb.probeServices);
    }
  }

  // ---- Starting a probe ----

  lemma NoDuplicatesJoin(a: seq<Service>, b: seq<Service>)
    requires NoDuplicates(a) && NoDuplicates(b) && forall s :: s in a ==> s !in b
    ensures NoDuplicates(a + b)
  {
    forall i, j | 0 <= i < j < |a + b| ensures (a + b)[i] != (a + b)[j] {
      if i < |a| <= j {
        assert (a + b)[i] in a && (a + b)[j] in b;
      }
    }
  }

  /** The control block of a probe just (re)started, and its packet. */
  function Started(pcb: Pcb, services: seq<Service>, probeIp: bool): Pcb {
    pcb.(state := Probe1, probeServices := Probed(pcb, services), probeIp := pcb.probeIp || probeIp, probeRunning := true)
  }

  function StartedPacket(st: State, q: nat, services: seq<Service>, probeIp: bool, random: nat): Packet
    requires q < |st.pcbs|
  {
    var pcb := Started(st.pcbs[q], services, probeIp);
    ProbePacket(st.nextId, q, pcb.probeServices, pcb.probeIp).(sendAt := st.now + ProbeDelay(pcb.failedProbes, random))
  }

  lemma StartProbeBase(st: State, q: nat, services: seq<Service>, probeIp: bool, random: nat, allowed: seq<Service>)
    requires Base(st, allowed) && st.hostSet && q < |st.pcbs|
    requires NoDuplicates(Probed(st.pcbs[q], services)) && Subset(Probed(st.pcbs[q], services), allowed)
    ensures var st' := StartProbe(st, q, services, probeIp, random);
            && Base(st', allowed)
            && st'.partner == st.partner && st'.services == st.services && st'.hostSet == st.hostSet
            && st'.out == st.out + [ProbeRestart(q, st.now)] && st'.pcbs == st.pcbs[q := Started(st.pcbs[q], services, probeIp)]
            && forall x :: x in st'.tx <==> x in st.tx || x == StartedPacket(st, q, services, probeIp, random)
  {
    hide Base, Ids, ProbePacket, PacketMentionsOnly, Insert, Spills, AsksEnough, Probed, ProbeFor;
    var pcb := st.pcbs[q];
    var pcb' := Started(pcb, services, probeIp);
    FreshId(st, allowed);
    var mid := st.(nextId := st.nextId + 1, out := st.out + [ProbeRestart(q, st.now)], pcbs := st.pcbs[q := pcb'],
                   spilt := if Spills(pcb, services) then st.spilt + [q] else st.spilt);
    StartedBase(st.(nextId := st.nextId + 1), mid, q, allowed);
    ProbePacketFits(st.nextId, q, pcb', allowed);
    ScheduleBase(mid, ProbePacket(st.nextId, q, pcb'.probeServices, pcb'.probeIp), ProbeDelay(pcb.failedProbes, random), allowed);
  }

  lemma StartedBase(st: State, mid: State, q: nat, allowed: seq<Service>)
    requires Base(st, allowed) && st.hostSet && q < |st.pcbs| == |mid.pcbs| && Subset(mid.pcbs[q].probeServices, allowed)
    requires mid == st.(out := st.out + [ProbeRestart(q, st.now)], pcbs := st.pcbs[q := mid.pcbs[q]], spilt := mid.spilt)
    ensures Base(mid, allowed)
  {
    hide Agreement, ThreeProbesFirst, PacketMentionsOnly, Subset;
    ThreeProbesAppend(st.out, ProbeRestart(q, st.now));
  }

  lemma StartProbeInv(st: State, q: nat, services: seq<Service>, probeIp: bool, random: nat, allowed: seq<Service>)
    requires Base(st, allowed) && st.hostSet && q < |st.pcbs|
    requires forall p :: p in st.tx ==> p.pcb != q
    requires var all := Probed(st.pcbs[q], services);
             NoDuplicates(all) && Subset(all, allowed) && (all != [] || probeIp || st.pcbs[q].probeIp)
    ensures var st' := StartProbe(st, q, services, probeIp, random);
            && Base(st', allowed) && Confined(st, st', q) && Life(st', q) && st'.pcbs[q].ready == st.pcbs[q].ready
  {
    hide Base, StartProbe, ProbePacket, PacketMentionsOnly, AsksEnough, Sound, Progress, Life, Since, Probed, Subset;
    var pcb' := Started(st.pcbs[q], services, probeIp);
    StartProbeBase(st, q, services, probeIp, random, allowed);
    ProbePacketFits(st.nextId, q, pcb', allowed);
    var st' := StartProbe(st, q, services, probeIp, random);
    var o := ProbeRestart(q, st.now);
    SinceAppend(st.out, o, q);
    StartedSound(pcb');
    var p := StartedPacket(st, q, services, probeIp, random);
    StartedProgress(p, pcb');
    ProbingLife(st', q, p, []);
    SinceFrame(st.out, o, q);
    ConfinedIntro(st, st', q);
  }

  lemma StartedSound(pcb: Pcb)
    requires pcb.state.Probe1? && pcb.probeRunning && NoDuplicates(pcb.probeServices) && (pcb.probeServices != [] || pcb.probeIp)
    ensures Sound(pcb)
  {
  }

  lemma StartedProgress(p: Packet, pcb: Pcb)
    requires pcb.state.Probe1? && forall i :: 0 <= i < |p.questions| ==> p.questions[i].unicast
    ensures Progress(p, pcb, [])
  {
  }

  /** A probing control block with a single packet scheduled. */
  lemma ProbingLife(st: State, q: nat, p: Packet, h: seq<Output>)
    requires q < |st.pcbs| && Sound(st.pcbs[q]) && st.pcbs[q].state.Probing()
    requires h == Since(st.out, q)
    requires p in st.tx && p.pcb == q && forall r :: r in st.tx && r.pcb == q ==> r == p
    requires AsksEnough(p.questions, st.pcbs[q]) && (st.pcbs[q].ready ==> ProbeFor(p, st.pcbs[q]))
    requires Progress(p, st.pcbs[q], h)
    ensures Life(st, q)
  {
    hide Since, AsksEnough, Progress, ProbeFor, Sound;
  }

  lemma AnnouncingLife(st: State, q: nat, p: Packet)
    requires q < |st.pcbs| && Sound(st.pcbs[q]) && st.pcbs[q].state.Announcing()
    requires st.pcbs[q].ready ==> p in st.tx && p.pcb == q && Anchor(p)
    ensures Life(st, q)
  {
  }

  /** A control block that neither probes nor announces. */
  lemma QuietLife(st: State, q: nat)
    requires q < |st.pcbs| && Sound(st.pcbs[q]) && !st.pcbs[q].state.Probing() && !st.pcbs[q].state.Announcing()
    ensures Life(st, q)
  {
  }

  /** The packet of a control block that is up and probing. */
  lemma SoleProbe(st: State, q: nat) returns (p: Packet)
    requires q < |st.pcbs| && Life(st, q) && st.pcbs[q].ready && st.pcbs[q].state.Probing()
    ensures p in st.tx && p.pcb == q && ProbeFor(p, st.pcbs[q]) && Progress(p, st.pcbs[q], Since(st.out, q))
    ensures forall r :: r in st.tx && r.pcb == q ==> r.id == p.id
  {
    hide Since, AsksEnough, Progress, ProbeFor, Sound;
    p :| p in st.tx && p.pcb == q && ProbeFor(p, st.pcbs[q]);
  }

  lemma InitProbeInv(st: State, q: nat, services: seq<Service>, probeIp: bool, random: nat, allowed: seq<Service>)
    requires Base(st, allowed) && q < |st.pcbs| && NoDuplicates(st.pcbs[q].probeServices)
    requires NoDuplicates(services) && Subset(services, allowed) && (services != [] || probeIp)
    ensures var st' := InitProbe(st, q, services, probeIp, random);
            && Base(st', allowed) && Confined(st, st', q) && Life(st', q) && st'.pcbs[q].ready == st.pcbs[q].ready
  {
    hide Live, QueuedIds, Ids, Ordered, ThreeProbesFirst, Since, Recorded, PacketMentionsOnly, Without, Fresh, StartProbe;
    var cleared := st.(tx := Without(st.tx, q));
    ClearBase(st, q, allowed);
    var pcb := st.pcbs[q];
    var st' := InitProbe(st, q, services, probeIp, random);
    ConfinedIntro(st, cleared, q);
    if !st.hostSet {
      assert Idle(pcb);
      ConfinedIntro(st, st', q);
    } else {
      var new_ := if pcb.state.CountsAsProbing() then Fresh(services, pcb.probeServices) else services;
      FreshMembers(services, pcb.probeServices);
      assert Subset(new_, allowed);
      if new_ == [] && pcb.state.CountsAsProbing() && services != [] {
        assert services[0] in services;
        assert services[0] in pcb.probeServices;
      }
      if pcb.state.CountsAsProbing() {
        NoDuplicatesJoin(new_, pcb.probeServices);
      }
      StartProbeInv(cleared, q, new_, probeIp, random, allowed);
    }
  }

  // ---- Announcing ----

  lemma UpdateMembers(tx: seq<Packet>, i: nat, p: Packet, q: nat)
    requires i < |tx| && tx[i].pcb == q && p.pcb == q
    ensures forall x: Packet :: x.pcb != q ==> (x in tx <==> x in tx[i := p])
    ensures p in tx[i := p]
    ensures forall x :: x in tx[i := p] ==> x == p || x in tx
    ensures forall x :: x in tx ==> x == tx[i] || x in tx[i := p]
  {
    var tx' := tx[i := p];
    assert tx'[i] == p;
    forall x | x in tx && x != tx[i] ensures x in tx' {
      var k :| 0 <= k < |tx| && tx[k] == x;
      assert tx'[k] == x;
    }
  }

  /** One packet of an announcing control block is edited and announcing starts over. */
  lemma EditAnnouncing(st: State, q: nat, i: nat, p: Packet, allowed: seq<Service>)
    requires Base(st, allowed) && q < |st.pcbs| && Life(st, q)
    requires st.pcbs[q].ready && st.pcbs[q].state.Announcing()
    requires i < |st.tx| && SameSlot(st.tx[i], p) && p.pcb == q
    requires PacketMentionsOnly(p, allowed) && (Anchor(st.tx[i]) ==> Anchor(p))
    ensures var st' := st.(tx := st.tx[i := p], pcbs := st.pcbs[q := st.pcbs[q].(state := Announce1)]);
            Base(st', allowed) && Confined(st, st', q) && Life(st', q)
  {
    hide Agreement, ThreeProbesFirst, Recorded, Claimed, PacketMentionsOnly, Since, Shrunk, Anchor;
    var tx' := st.tx[i := p];
    assert st.hostSet by { assert !Idle(st.pcbs[q]); }
    var anchor :| anchor in st.tx && anchor.pcb == q && Anchor(anchor);
    UpdateMembers(st.tx, i, p, q);
    ShrunkPointwise(st.tx, tx');
    ShrinkBase(st, tx', allowed);
    var st' := st.(tx := tx', pcbs := st.pcbs[q := st.pcbs[q].(state := Announce1)]);
    AnnouncingLife(st', q, if anchor == st.tx[i] then p else anchor);
    ConfinedIntro(st, st', q);
  }

  lemma AnnounceMore(st: State, q: nat, services: seq<Service>, withIp: bool, random: nat, allowed: seq<Service>)
    requires Base(st, allowed) && q < |st.pcbs| && Life(st, q)
    requires Subset(services, allowed)
    requires st.pcbs[q].ready && st.pcbs[q].state.Announcing()
    ensures var st' := Announce(st, q, services, withIp, random);
            Base(st', allowed) && Confined(st, st', q) && Life(st', q) && st'.pcbs[q].ready
  {
    hide Agreement, ThreeProbesFirst, Recorded, PacketMentionsOnly, Since, Confined, InitProbe, Anchor;
    var i := FirstOf(st.tx, q);
    var anchor :| anchor in st.tx && anchor.pcb == q && Anchor(anchor);
    assert i < |st.tx|;
    MergeMentions(st.tx[i], services, withIp, allowed);
    EditAnnouncing(st, q, i, Merge(st.tx[i], services, withIp), allowed);
  }

  lemma AnnounceFromRunning(st: State, q: nat, services: seq<Service>, withIp: bool, random: nat, allowed: seq<Service>)
    requires Base(st, allowed) && q < |st.pcbs| && Life(st, q)
    requires Subset(services, allowed) && (services != [] || withIp)
    requires st.pcbs[q].ready && st.pcbs[q].state.Running? && st.hostSet
    ensures var st' := Announce(st, q, services, withIp, random);
            Base(st', allowed) && Confined(st, st', q) && Life(st', q) && st'.pcbs[q].ready
  {
    hide ThreeProbesFirst, Recorded, PacketMentionsOnly, Since, InitProbe, Anchor, AnnouncePacket, Ordered, QueuedIds, Live, Ids;
    FreshId(st, allowed);
    var mid := st.(nextId := st.nextId + 1, pcbs := st.pcbs[q := st.pcbs[q].(state := Announce1)]);
    var p := AnnouncePacket(st.nextId, q, services, withIp);
    AnnouncePacketFits(st.nextId, q, services, withIp, allowed);
    assert Base(mid, allowed);
    ScheduleBase(mid, p, 0, allowed);
    var st' := Schedule(mid, p, 0);
    assert st' == Announce(st, q, services, withIp, random);
    var p' := p.(sendAt := mid.now + 0);
    AnnouncingLife(st', q, p');
    ConfinedIntro(st, st', q);
  }

  lemma AnnounceInv(st: State, q: nat, services: seq<Service>, withIp: bool, random: nat, allowed: seq<Service>)
    requires Base(st, allowed) && q < |st.pcbs| && Life(st, q)
    requires NoDuplicates(services) && Subset(services, allowed) && (services != [] || withIp)
    ensures var st' := Announce(st, q, services, withIp, random);
            && Base(st', allowed) && Confined(st, st', q) && Life(st', q) && st'.pcbs[q].ready == st.pcbs[q].ready
  {
    var pcb := st.pcbs[q];
    if !pcb.ready {
    } else if pcb.state.CountsAsProbing() {
      InitProbeInv(st, q, services, withIp, random, allowed);
    } else if pcb.state.Announcing() {
      AnnounceMore(st, q, services, withIp, random, allowed);
    } else if st.hostSet {
      AnnounceFromRunning(st, q, services, withIp, random, allowed);
    }
  }
}
