/**
 What is announced when a probe has gone through: on every run, an interface that is up announces the four
 records of each service it has probed and the addresses of their hosts, and no other service.
 */
module MdnsAnnounce {
  import opened Common
  import opened MdnsState
  import opened MdnsSpec
  import opened MdnsQueue
  import opened MdnsContents
  import opened MdnsLifecycle
  import opened MdnsSteps
  import opened MdnsRuns

  /** The packet announces these services, each with all four records and the addresses of its host, and no other. */
  ghost predicate AnnouncesAll(p: Packet, services: seq<Service>) {
    && (forall x: Answer :: x.svc.Some? ==> (x in p.answers <==> PublishesSome(x, services)))
    && (forall s, x :: s in services && Locates(x, s.host) ==> x in p.answers)
    && Once(p.answers)
  }

  /** The packet announces what the claims of a probe call for. */
  ghost predicate AnnouncesClaims(p: Packet, probe: Packet) {
    forall x :: x in p.answers <==> exists c :: c in probe.servers && AnnouncedFor(x, c)
  }

  /** The announcement made from the probe of a control block announces all it has probed. */
  lemma ProbeAnnouncesAll(probe: Packet, pcb: Pcb, p: Packet)
    requires ProbeFor(probe, pcb) && p.answers == FromProbe([], probe.servers)
    ensures AnnouncesAll(p, pcb.probeServices) && AnnouncesClaims(p, probe)
  {
    hide FromProbe, Publishes, Locates, Once, AsksEnough;
    AnnouncementOf(probe);
    forall x: Answer | x.svc.Some? ensures x in p.answers <==> PublishesSome(x, pcb.probeServices) {
      FromProbeHolds([], probe.servers, x);
      if x in p.answers {
        var c :| c in probe.servers && AnnouncedFor(x, c);
        ClaimOfService(probe, pcb, x, c);
      }
      if PublishesSome(x, pcb.probeServices) {
        var s :| s in pcb.probeServices && Publishes(x, s);
        assert AnnouncedFor(x, Answer(SRV, Some(s), None));
      }
    }
    forall s, x | s in pcb.probeServices && Locates(x, s.host) ensures x in p.answers {
      FromProbeHolds([], probe.servers, x);
      assert AnnouncedFor(x, Answer(SRV, Some(s), None));
    }
  }

  lemma ClaimOfService(probe: Packet, pcb: Pcb, x: Answer, c: Answer)
    requires ProbeFor(probe, pcb) && c in probe.servers && AnnouncedFor(x, c) && x.svc.Some?
    ensures PublishesSome(x, pcb.probeServices)
  {
    hide AsksEnough;
    assert Publishes(x, c.svc.value);
  }

  lemma InsertAlone(tx: seq<Packet>, p: Packet, q: nat)
    requires p.pcb == q && forall x :: x in tx ==> x.pcb != q
    ensures p in Insert(tx, p) && forall x :: x in Insert(tx, p) && x.pcb == q ==> x == p
  {
    InsertMembers(tx, p, p);
    forall x | x in Insert(tx, p) && x.pcb == q ensures x == p {
      InsertMembers(tx, p, x);
    }
  }

  /** The probe of a control block that is up, when it is at the head of the queue, and the queue behind it. */
  lemma HeadIsProbe(st: State, known: seq<Service>, q: nat)
    requires Inv(st, known) && q < |st.pcbs| && st.pcbs[q].ready && st.pcbs[q].state.Probing()
    requires st.tx != [] && st.tx[0].pcb == q
    ensures ProbeFor(st.tx[0], st.pcbs[q])
    ensures forall x :: x in st.tx[1..] ==> x.pcb != q
  {
    hide ThreeProbesFirst, PacketMentionsOnly, Since, Live, QueuedIds, ProbeFor, Progress;
    assert Life(st, q);
    var p := SoleProbe(st, q);
    assert st.tx[0] in st.tx;
    SameId(st.tx, st.tx[0], p);
    forall x | x in st.tx[1..] ensures x.pcb != q {
      assert Before(st.tx[0], x);
      assert st.tx == [st.tx[0]] + st.tx[1..];
    }
  }

  /**
   On every run, when an interface that is up passes from probing to announcing, exactly one packet is scheduled for
   it, to go out 250 ms later. It announces all four records of each service that was being probed, with the addresses
   of its host, and no other service; and it holds what the claims of the probe call for, and nothing else.
   */
  lemma AnnouncesWhatWasProbed(states: seq<State>, actions: seq<Action>, i: nat, q: nat) returns (p: Packet)
    requires IsRun(states, actions) && i < |actions| && q < |states[i].pcbs| == |states[i + 1].pcbs|
    requires states[i].pcbs[q].ready && states[i].pcbs[q].state.Probing() && states[i + 1].pcbs[q].state.Announcing()
    ensures p in states[i + 1].tx && p.pcb == q && p.sendAt == states[i].now + 250 && !p.distributed
    ensures forall x :: x in states[i + 1].tx && x.pcb == q ==> x == p
    ensures AnnouncesAll(p, states[i].pcbs[q].probeServices)
    ensures states[i].tx != [] && states[i].tx[0].pcb == q && AnnouncesClaims(p, states[i].tx[0])
  {
    hide Inv, ExecuteNext, Enabled, AnnouncesAll, AnnouncesClaims, FromProbe, ProbeFor, Insert;
    StepOf(states, actions, i);
    OnlyHandlingAnnounces(states[i], actions[i], q);
    RunInv(states, actions, i);
    HandledShape(states[i]);
    var known := Registered(actions[..i]);
    p := AnnouncedPacket(states[i], known, q);
  }

  lemma AnnouncedPacket(st: State, known: seq<Service>, q: nat) returns (p: Packet)
    requires Inv(st, known) && q < |st.pcbs| == |ExecuteNext(st).pcbs|
    requires st.pcbs[q].ready && st.pcbs[q].state.Probing() && ExecuteNext(st).pcbs[q].state.Announcing()
    ensures var st' := ExecuteNext(st);
            && p in st'.tx && p.pcb == q && p.sendAt == st.now + 250 && !p.distributed
            && (forall x :: x in st'.tx && x.pcb == q ==> x == p)
            && AnnouncesAll(p, st.pcbs[q].probeServices)
            && st.tx != [] && st.tx[0].pcb == q && AnnouncesClaims(p, st.tx[0])
  {
    hide Inv, AnnouncesAll, AnnouncesClaims, FromProbe, ProbeFor, Insert, HandlePacket, UnicastFlags;
    HandlingAnnounces(st, q);
    var popped, head := st.(tx := st.tx[1..], pending := st.pending[1..]), st.tx[0].(queued := false);
    if head.pcb != q {
      HandlingMoves(popped, head, q);
    }
    HandleLastProbeIs(popped, head);
    HeadIsProbe(st, known, q);
    p := BlankPacket(st.nextId, q).(answers := FromProbe([], head.servers), sendAt := st.now + 250);
    InsertAlone(st.tx[1..], p, q);
    ProbeAnnouncesAll(st.tx[0], st.pcbs[q], p);
  }

  // ---- Announcing again ----

  ghost predicate SameContents(a: Packet, b: Packet) {
    && a.questions == b.questions && a.answers == b.answers && a.servers == b.servers && a.additional == b.additional
    && a.id == b.id && a.pcb == b.pcb && a.distributed == b.distributed
  }

  /**
   On every run, when the executor handles a packet of a control block in ANNOUNCE_1 or ANNOUNCE_2, the packet is sent and
   scheduled again with the same contents, exactly one second later, and the control block moves on by one state; in
   ANNOUNCE_3 the packet is sent for the last time and the control block runs.
   */
  lemma AnnouncedAgain(states: seq<State>, actions: seq<Action>, i: nat)
    requires IsRun(states, actions) && i < |actions| && actions[i].TxHandle?
    requires states[i].pending != [] && states[i].pending[0] in Ids(states[i].tx)
    ensures var st, st' := states[i], states[i + 1];
            && st.tx != [] && st.tx[0].pcb < |st.pcbs| == |st'.pcbs|
            && var head, q := st.tx[0], st.tx[0].pcb;
               var state := st.pcbs[q].state;
               (state.Announcing() ==>
                 && st'.out == st.out + [Sent(q, st.now, state, UnicastFlags(head.questions))]
                 && (if state.Announce3? then st'.pcbs[q].state.Running? && head.id !in Ids(st'.tx)
                     else st'.pcbs[q].state.Rank() == state.Rank() + 1
                          && exists p :: p in st'.tx && SameContents(p, head) && p.sendAt == st.now + 1000))
  {
    hide Inv, Enabled, UnicastFlags, Ids, HandlePacket;
    StepOf(states, actions, i);
    RunInv(states, actions, i);
    HandledShape(states[i]);
    ExecutorSendsWhatWasPosted(states, actions, i);
    var st := states[i];
    var popped, p := st.(tx := st.tx[1..], pending := st.pending[1..]), st.tx[0].(queued := false);
    HeadGone(st, Registered(actions[..i]));
    if st.pcbs[p.pcb].state.Announcing() {
      HandledAgain(popped, p);
    }
  }

  lemma HeadGone(st: State, known: seq<Service>)
    requires Inv(st, known) && st.tx != []
    ensures st.tx[0].id !in Ids(st.tx[1..])
  {
    hide ThreeProbesFirst, PacketMentionsOnly, AllLife, Live, QueuedIds;
  }

  lemma HandledAgain(st: State, p: Packet)
    requires p.pcb < |st.pcbs| && st.pcbs[p.pcb].state.Announcing()
    ensures var st', state := HandlePacket(st, p), st.pcbs[p.pcb].state;
            && st'.out == st.out + [Sent(p.pcb, st.now, state, UnicastFlags(p.questions))] && |st'.pcbs| == |st.pcbs|
            && (if state.Announce3? then st'.pcbs[p.pcb].state.Running? && st'.tx == st.tx
                else st'.pcbs[p.pcb].state.Rank() == state.Rank() + 1 && p.(sendAt := st.now + 1000) in st'.tx)
  {
    hide Insert, UnicastFlags, FromProbe, Quiet;
    InsertMembers(st.tx, p.(sendAt := st.now + 1000), p.(sendAt := st.now + 1000));
  }

  // ---- Announcing changed records ----

  /** Of the packets of one control block the first is the one an announcement is merged into. */
  lemma FirstReplaced(tx: seq<Packet>, q: nat, p: Packet)
    requires FirstOf(tx, q) < |tx|
    ensures p in tx[FirstOf(tx, q) := p]
  {
    assert tx[FirstOf(tx, q) := p][FirstOf(tx, q)] == p;
  }

  /**
   Announcing on an interface that is up and past probing: one of its packets holds all four records of every
   service given and, if asked to, the addresses of their hosts, and ANNOUNCE_1 starts over.
   */
  lemma AnnounceHolds(st: State, q: nat, services: seq<Service>, withIp: bool, random: nat) returns (p: Packet)
    requires q < |st.pcbs| && st.pcbs[q].ready && st.hostSet
    requires st.pcbs[q].state.Running? || (st.pcbs[q].state.Announcing() && FirstOf(st.tx, q) < |st.tx|)
    ensures var st' := Announce(st, q, services, withIp, random);
            p in st'.tx && p.pcb == q && st'.pcbs[q].state.Announce1?
    ensures forall x :: PublishesSome(x, services) ==> x in p.answers
    ensures forall x :: withIp && LocatesSome(x, services) ==> x in p.answers || x in p.servers
  {
    hide Merge, AnnouncePacket, Insert, PublishesSome, LocatesSome, InitProbe;
    if st.pcbs[q].state.Running? {
      var a := AnnouncePacket(st.nextId, q, services, withIp);
      AnnouncePacketHolds(st.nextId, q, services, withIp);
      p := a.(sendAt := st.now + 0);
      BlankFields(st.nextId, q, services, withIp);
      InsertMembers(st.tx, p, p);
    } else {
      var i := FirstOf(st.tx, q);
      MergeHolds(st.tx[i], services, withIp);
      p := Merge(st.tx[i], services, withIp);
      MergeFields(st.tx[i], services, withIp);
      FirstReplaced(st.tx, q, p);
    }
  }

  lemma BlankFields(id: nat, q: nat, services: seq<Service>, withIp: bool)
    ensures AnnouncePacket(id, q, services, withIp).pcb == q
  {
  }

  lemma MergeFields(p: Packet, services: seq<Service>, withIp: bool)
    ensures Merge(p, services, withIp).pcb == p.pcb
  {
  }

  // ---- Restarting a probe ----

  /**
   A probe restarted on a control block, with a host name: the block has exactly one packet, which asks for each service
   given and each one it was probing, claims their records, and is due in 120 to 247 ms, or in 1000 to 1127 ms after more
   than five failures.
   */
  lemma InitProbeHolds(st: State, q: nat, services: seq<Service>, probeIp: bool, random: nat) returns (p: Packet)
    requires q < |st.pcbs| && st.hostSet
    ensures var st' := InitProbe(st, q, services, probeIp, random);
            var all := st'.pcbs[q].probeServices;
            var withIp := probeIp || st.pcbs[q].probeIp;
            && p in st'.tx && p.pcb == q && (forall x :: x in st'.tx && x.pcb == q ==> x == p)
            && (forall s :: s in all <==> s in services || (st.pcbs[q].state.CountsAsProbing() && s in st.pcbs[q].probeServices))
            && (forall x :: Asked(p.questions, x) <==> ProbeAsksFor(x, all, withIp))
            && (forall x :: x in p.servers <==> ProbeClaims(x, all, withIp))
            && var wait := p.sendAt - st.now;
               if st.pcbs[q].failedProbes > 5 then 1000 <= wait < 1128 else 120 <= wait < 248
  {
    hide ProbePacket, ProbeAsksFor, ProbeClaims, Insert, Without, Asked, Fresh, Spills;
    var pcb, tx := st.pcbs[q], Without(st.tx, q);
    WithoutShrinks(st.tx, q);
    FreshMembers(services, pcb.probeServices);
    var all := Probed(pcb, if pcb.state.CountsAsProbing() then Fresh(services, pcb.probeServices) else services);
    ProbePacketHolds(st.nextId, q, all, probeIp || pcb.probeIp);
    ProbePacketFields(st.nextId, q, all, probeIp || pcb.probeIp);
    p := ProbePacket(st.nextId, q, all, pcb.probeIp || probeIp).(sendAt := st.now + ProbeDelay(pcb.failedProbes, random));
    InsertAlone(tx, p, q);
  }

  lemma ProbePacketFields(id: nat, q: nat, services: seq<Service>, withIp: bool)
    ensures ProbePacket(id, q, services, withIp).pcb == q
  {
  }
}
