/**
 Runs of the engine: the actions it executes, the invariant on every run, and what follows for
 scheduling, for the life cycle of interfaces that are up, and for probing before announcing.
 */
module MdnsRuns {
  import opened Common
  import opened MdnsState
  import opened MdnsSpec
  import opened MdnsQueue
  import opened MdnsContents
  import opened MdnsLifecycle
  import opened MdnsSteps

  // ---- Interfaces and received packets keep the invariant ----

  lemma FailuresInv(st: State, q: nat, n: nat, known: seq<Service>)
    requires Inv(st, known) && q < |st.pcbs|
    ensures Inv(st.(pcbs := st.pcbs[q := st.pcbs[q].(failedProbes := n)]), known)
  {
    hide Agreement, ThreeProbesFirst, PacketMentionsOnly, Since, ProperProbes, Anchor;
    var st' := st.(pcbs := st.pcbs[q := st.pcbs[q].(failedProbes := n)]);
    assert Idle(st.pcbs[q]) ==> Idle(st'.pcbs[q]);
    forall r | 0 <= r < |st.pcbs| ensures Life(st', r) {
      assert Life(st, r);
      if r != q {
        LifeFrame(st, st', r);
      }
    }
  }

  lemma EnableInv(st: State, q: nat, initOk: bool, random: nat, known: seq<Service>)
    requires Inv(st, known) && q < |st.pcbs|
    ensures Inv(Enable(st, q, initOk, random), known) && |Enable(st, q, initOk, random).pcbs| == |st.pcbs|
  {
    hide Agreement, ThreeProbesFirst, PacketMentionsOnly, Since, AsksEnough, InitProbe, Recorded, Claimed, Anchored;
    var pcb := st.pcbs[q];
    assert Life(st, q);
    if !pcb.ready && !initOk {
      FailuresInv(st, q, 0, known);
    } else {
      var st1 := st.(pcbs := st.pcbs[q := pcb.(ready := true)]);
      assert Idle(pcb) ==> Idle(st1.pcbs[q]);
      assert Base(st1, known);
      InitProbeInv(st1, q, st.services, true, random, known);
      OthersLife(st, st1, InitProbe(st1, q, st.services, true, random), q, known);
    }
  }

  /** A control block is changed on its own, then a confined step gives it a sound life again. */
  lemma OthersLife(st: State, st1: State, st': State, q: nat, known: seq<Service>)
    requires Inv(st, known) && q < |st.pcbs| && |st1.pcbs| == |st.pcbs|
    requires forall r :: 0 <= r < |st.pcbs| && r != q ==> st1.pcbs[r] == st.pcbs[r]
    requires forall p: Packet :: p.pcb != q ==> (p in st.tx <==> p in st1.tx)
    requires st1.out == st.out && st1.services == st.services
    requires Confined(st1, st', q) && Base(st', known) && Life(st', q)
    ensures Inv(st', known)
  {
    hide Life, Base;
    forall r | 0 <= r < |st.pcbs| ensures Life(st', r) {
      if r != q {
        assert Life(st, r);
        LifeFrame(st, st1, r);
      }
    }
  }

  /** A control block taken down loses its packets. */
  lemma TakeDownInv(st: State, q: nat, state: PcbState, known: seq<Service>)
    requires Inv(st, known) && q < |st.pcbs| && (state.Off? || state.Dup?)
    ensures Inv(st.(tx := Without(st.tx, q), pcbs := st.pcbs[q := OFFLINE.(state := state)]), known)
  {
    hide Agreement, ThreeProbesFirst, PacketMentionsOnly, Since, Without;
    ClearBase(st, q, known);
    var st' := st.(tx := Without(st.tx, q), pcbs := st.pcbs[q := OFFLINE.(state := state)]);
    ConfinedIntro(st, st', q);
    assert Base(st', known);
    QuietLife(st', q);
    ConfinedInv(st, st', q, known);
  }

  /** A control block that is down is declared off or duplicate. */
  lemma RelabelInv(st: State, q: nat, state: PcbState, known: seq<Service>)
    requires Inv(st, known) && q < |st.pcbs| && !st.pcbs[q].ready && (state.Off? || state.Dup?)
    ensures Inv(st.(pcbs := st.pcbs[q := st.pcbs[q].(state := state)]), known)
  {
    hide Agreement, ThreeProbesFirst, PacketMentionsOnly, Since, Recorded, Claimed, Anchored;
    var st' := st.(pcbs := st.pcbs[q := st.pcbs[q].(state := state)]);
    assert Life(st, q);
    assert Idle(st.pcbs[q]) ==> Idle(st'.pcbs[q]);
    ConfinedIntro(st, st', q);
    assert Base(st', known);
    QuietLife(st', q);
    ConfinedInv(st, st', q, known);
  }

  lemma DisableInv(st: State, q: nat, initOk: bool, random: nat, known: seq<Service>)
    requires Inv(st, known) && q < |st.pcbs| && OtherPcb(st, q) != Some(q)
    ensures Inv(Disable(st, q, initOk, random), known)
  {
    hide Inv, Enable, Without, Sound;
    InvShape(st, known);
    if !st.pcbs[q].ready {
      RelabelInv(st, q, Off, known);
    } else {
      var off := st.(tx := Without(st.tx, q), pcbs := st.pcbs[q := OFFLINE]);
      TakeDownInv(st, q, Off, known);
      InvShape(off, known);
      assert OFFLINE.(state := Off) == OFFLINE;
      match OtherPcb(st, q) {
        case None =>
          RelabelInv(off, q, Off, known);
        case Some(o) =>
          if off.pcbs[o].state.Dup? {
            DupIsDown(off, o, known);
            RelabelInv(off, o, Off, known);
            var mid := off.(pcbs := off.pcbs[o := off.pcbs[o].(state := Off)]);
            EnableInv(mid, o, initOk, random, known);
            EnableOthers(mid, o, initOk, random, q);
            RelabelInv(Enable(mid, o, initOk, random), q, Off, known);
          } else {
            RelabelInv(off, q, Off, known);
          }
      }
    }
  }

  lemma InvShape(st: State, known: seq<Service>)
    requires Inv(st, known)
    ensures Shaped(st)
  {
  }

  lemma DupIsDown(st: State, q: nat, known: seq<Service>)
    requires Inv(st, known) && q < |st.pcbs| && (st.pcbs[q].state.Dup? || st.pcbs[q].state.Off?)
    ensures !st.pcbs[q].ready
  {
    assert Life(st, q);
  }

  lemma EnableOthers(st: State, q: nat, initOk: bool, random: nat, r: nat)
    requires q < |st.pcbs| && r < |st.pcbs| && r != q
    ensures var st' := Enable(st, q, initOk, random);
            |st'.pcbs| == |st.pcbs| && st'.pcbs[r] == st.pcbs[r]
  {
  }

  lemma DupOneInv(st: State, q: nat, random: nat, known: seq<Service>)
    requires Inv(st, known) && q < |st.pcbs| && OtherPcb(st, q) != Some(q)
    ensures Inv(DupOne(st, q, random), known) && |DupOne(st, q, random).pcbs| == |st.pcbs|
            && DupOne(st, q, random).partner == st.partner
  {
    hide Sound, Without, Announce, Agreement, ThreeProbesFirst, Since, PacketMentionsOnly, Recorded, Claimed, Anchored;
    match OtherPcb(st, q)
    case None =>
    case Some(o) =>
      if st.pcbs[o].ready {
        var st1 := if st.pcbs[q].ready then st.(tx := Without(st.tx, q), pcbs := st.pcbs[q := OFFLINE]) else st;
        if st.pcbs[q].ready {
          TakeDownInv(st, q, Off, known);
          assert OFFLINE.(state := Off) == OFFLINE;
        }
        RelabelInv(st1, q, Dup, known);
        var st2 := st1.(pcbs := st1.pcbs[q := st1.pcbs[q].(state := Dup)]);
        assert Life(st2, o);
        AnnounceInv(st2, o, [], true, random, known);
        ConfinedInv(st2, Announce(st2, o, [], true, random), o, known);
      }
  }

  lemma ReprobeInv(st: State, q: nat, services: seq<Service>, probeIp: bool, random: nat, known: seq<Service>)
    requires Inv(st, known) && q < |st.pcbs|
    requires NoDuplicates(services) && Subset(services, known) && (services != [] || probeIp)
    ensures Inv(Reprobe(st, q, services, probeIp, random), known)
  {
    hide Agreement, ThreeProbesFirst, PacketMentionsOnly, Since, AsksEnough, InitProbe, Recorded, Claimed;
    assert Life(st, q);
    InitProbeInv(st, q, services, probeIp, random, known);
    ConfinedInv(st, InitProbe(st, q, services, probeIp, random), q, known);
  }

  lemma DropAnswerInv(st: State, q: nat, typ: RecordType, svc: Option<Service>, known: seq<Service>)
    requires Inv(st, known)
    ensures Inv(st.(tx := DropScheduledAnswer(st.tx, q, typ, svc)), known)
  {
    hide Agreement, ThreeProbesFirst, Since, AsksEnough, Sound, Ordered, DropScheduledAnswer;
    var tx' := DropScheduledAnswer(st.tx, q, typ, svc);
    var st' := st.(tx := tx');
    DropAnswerPointwise(st.tx, q, typ, svc);
    ShrunkPointwise(st.tx, tx');
    forall x | x in tx' ensures PacketMentionsOnly(x, known) {
      var i :| 0 <= i < |tx'| && tx'[i] == x;
      assert st.tx[i] in st.tx;
      DropFirstMembers(st.tx[i].answers, typ, svc);
    }
    ShrinkBase(st, tx', known);
    forall r | 0 <= r < |st.pcbs| ensures Life(st', r) {
      assert Life(st, r);
      DropAnswerLife(st, q, typ, svc, r);
    }
  }

  lemma DropAnswerPointwise(tx: seq<Packet>, q: nat, typ: RecordType, svc: Option<Service>)
    ensures var tx' := DropScheduledAnswer(tx, q, typ, svc);
            && |tx'| == |tx|
            && (forall i :: 0 <= i < |tx| ==> SameSlot(tx[i], tx'[i]))
            && (forall i :: 0 <= i < |tx| ==> tx'[i] == tx[i].(answers := tx'[i].answers))
            && (forall i :: 0 <= i < |tx| && !tx[i].distributed ==> tx'[i] == tx[i])
            && (forall i :: 0 <= i < |tx| ==> tx'[i].answers == tx[i].answers || tx'[i].answers == DropFirst(tx[i].answers, typ, svc))
  {
  }

  lemma DropAnswerLife(st: State, q: nat, typ: RecordType, svc: Option<Service>, r: nat)
    requires r < |st.pcbs| && Life(st, r)
    ensures Life(st.(tx := DropScheduledAnswer(st.tx, q, typ, svc)), r)
  {
    hide Since, AsksEnough, Sound, DropScheduledAnswer, DropFirst, ProperProbes;
    var tx' := DropScheduledAnswer(st.tx, q, typ, svc);
    DropAnswerPointwise(st.tx, q, typ, svc);
    var pcb, h := st.pcbs[r], Since(st.out, r);
    if pcb.state.Probing() {
      DropAnswerRecorded(st.tx, tx', r, pcb, h);
    }
    if pcb.ready && pcb.state.Probing() {
      var p :| p in st.tx && p.pcb == r && ProbeFor(p, pcb);
      var i :| 0 <= i < |st.tx| && st.tx[i] == p;
      assert tx'[i] == p;
    } else if pcb.ready && pcb.state.Announcing() {
      var p :| p in st.tx && p.pcb == r && Anchor(p);
      var i :| 0 <= i < |st.tx| && st.tx[i] == p;
      assert tx'[i] == p;
    }
  }

  /** Edited answers do not matter to what is on record for a probe. */
  lemma DropAnswerRecorded(tx: seq<Packet>, tx': seq<Packet>, q: nat, pcb: Pcb, h: seq<Output>)
    requires Recorded(tx, q, pcb, h) && |tx| == |tx'|
    requires forall i :: 0 <= i < |tx| ==> tx'[i] == tx[i].(answers := tx'[i].answers)
    ensures Recorded(tx', q, pcb, h)
  {
    hide AsksEnough, Progress;
    forall x | x in tx' && x.pcb == q ensures AsksEnough(x.questions, pcb) && Progress(x, pcb, h) {
      var i :| 0 <= i < |tx'| && tx'[i] == x;
      assert tx[i] in tx;
      SameProgress(tx[i], x, pcb, h);
    }
    forall x, y | x in tx' && y in tx' && x.pcb == q && y.pcb == q ensures x.id == y.id {
      var i :| 0 <= i < |tx'| && tx'[i] == x;
      var j :| 0 <= j < |tx'| && tx'[j] == y;
      assert tx[i] in tx && tx[j] in tx;
    }
  }

  lemma SameProgress(p: Packet, p': Packet, pcb: Pcb, h: seq<Output>)
    requires Progress(p, pcb, h) && p'.questions == p.questions && p'.sendAt == p.sendAt
    ensures Progress(p', pcb, h)
  {
    hide ProperProbes;
  }

  lemma RespondInv(st: State, q: nat, response: Packet, delay: nat, known: seq<Service>)
    requires Inv(st, known) && q < |st.pcbs| && PacketMentionsOnly(response, known)
    ensures Inv(Respond(st, q, response, delay), known)
  {
    hide Agreement, ThreeProbesFirst, Since, AsksEnough, PacketMentionsOnly, Insert, Recorded, Claimed, Anchor;
    assert Life(st, q);
    if st.pcbs[q].state.Rank() > Probe3.Rank() {
      var p := response.(id := st.nextId, pcb := q, queued := false);
      SameMentions(response, p, known);
      FreshId(st, known);
      var mid := st.(nextId := st.nextId + 1);
      ScheduleBase(mid, p, delay, known);
      var st' := Schedule(mid, p, delay);
      assert st' == Respond(st, q, response, delay);
      ConfinedIntro(st, st', q);
      if st.pcbs[q].ready && st.pcbs[q].state.Announcing() {
        var a :| a in st.tx && a.pcb == q && Anchor(a);
        AnnouncingLife(st', q, a);
      }
      ConfinedInv(st, st', q, known);
    }
  }

  lemma ClockInv(st: State, ms: nat, known: seq<Service>)
    requires Inv(st, known)
    ensures Inv(st.(now := st.now + ms), known)
  {
    hide Ordered, Live, QueuedIds, Ids, ThreeProbesFirst, PacketMentionsOnly, Since;
    var st' := st.(now := st.now + ms);
    forall r | 0 <= r < |st.pcbs| ensures Life(st', r) {
      assert Life(st, r);
      LifeFrame(st, st', r);
    }
  }

  /** The invariant allows for further services. */
  lemma KnowsMore(st: State, s: Service, known: seq<Service>)
    requires Inv(st, known)
    ensures Inv(st, [s] + known)
  {
    hide Agreement, ThreeProbesFirst, PacketMentionsOnly, Life;
    forall p | p in st.tx ensures PacketMentionsOnly(p, [s] + known) {
      MentionsMore(p, known, [s] + known);
    }
  }

  lemma AddServiceInv(st: State, s: Service, random: nat -> nat, known: seq<Service>)
    requires Inv(st, known) && s !in st.services
    ensures Inv(ProbeAll(st.(services := [s] + st.services), [s], false, false, random), [s] + known)
  {
    hide Agreement, ThreeProbesFirst, Since, ProbeAll, Life, PacketMentionsOnly;
    KnowsMore(st, s, known);
    var st1 := st.(services := [s] + st.services);
    assert Base(st1, [s] + known);
    ServicesLife(st, st1);
    InvRestartable(st1);
    ProbeAllInv(st1, [s], false, false, random, [s] + known);
  }

  lemma MentionsMore(p: Packet, few: seq<Service>, more: seq<Service>)
    requires PacketMentionsOnly(p, few) && Subset(few, more)
    ensures PacketMentionsOnly(p, more)
  {
  }

  lemma ProbeSomeInv(st: State, services: seq<Service>, clearOld: bool, random: nat -> nat, known: seq<Service>)
    requires Inv(st, known) && NoDuplicates(services) && Subset(services, known)
    ensures Inv(if services == [] then st else ProbeAll(st, services, false, clearOld, random), known)
  {
    hide Base, Life, ProbeAll;
    if services != [] {
      InvRestartable(st);
      ProbeAllInv(st, services, false, clearOld, random, known);
    }
  }

  // ---- Actions ----

  datatype Rename = RenameService | RenameInstance(noInstance: seq<Service>) | RenameHost

  /** What the timer, the clock and the service task do. Random delays and I/O outcomes are parameters. */
  datatype Action =
    | Clock(ms: nat)
    | Tick(room: nat)
    | TxHandle
    | EnableIf(q: nat, initOk: bool, random: nat)
    | DisableIf(q: nat, initOk: bool, random: nat)
    | AnnounceIf(q: nat, random: nat)
    | HostnameSet(randoms: nat -> nat)
    | InstanceSet(noInstance: seq<Service>, randoms: nat -> nat)
    | ServiceAdd(s: Service, randoms: nat -> nat)
    | ServiceInstanceSet(s: Service, randoms: nat -> nat)
    | ServicePortSet(s: Service, randoms: nat -> nat)
    | ServiceTxtSet(s: Service, randoms: nat -> nat)
    | ServiceDelete(s: Service)
    | ServicesClearAll
    | SrvConflict(q: nat, s: Service, rename: Rename, randoms: nat -> nat)
    | TxtConflict(q: nat, s: Service, random: nat)
    | AddressConflict(q: nat, randoms: nat -> nat)
    | OwnAddressSeen(iface: nat, randoms: nat -> nat)
    | AnswerSeen(q: nat, typ: RecordType, svc: Option<Service>)
    | QuerySeen(q: nat, response: Packet, delay: nat)

  /** Services named by an action are registered, control blocks exist, interfaces are not their own duplicate. */
  ghost predicate Enabled(st: State, a: Action) {
    match a
    case Clock(_) => true
    case Tick(_) => true
    case TxHandle => true
    case EnableIf(q, _, _) => q < |st.pcbs|
    case DisableIf(q, _, _) => q < |st.pcbs| && OtherPcb(st, q) != Some(q)
    case AnnounceIf(q, _) => q < |st.pcbs|
    case HostnameSet(_) => true
    case InstanceSet(noInstance, _) => NoDuplicates(noInstance) && Subset(noInstance, st.services)
    case ServiceAdd(s, _) => s !in st.services
    case ServiceInstanceSet(s, _) => s in st.services
    case ServicePortSet(s, _) => s in st.services
    case ServiceTxtSet(s, _) => s in st.services
    case ServiceDelete(s) => true
    case ServicesClearAll => true
    case SrvConflict(q, s, rename, _) =>
      && q < |st.pcbs| && s in st.services
      && (rename.RenameInstance? ==> NoDuplicates(rename.noInstance) && Subset(rename.noInstance, st.services))
    case TxtConflict(q, s, _) => q < |st.pcbs| && s in st.services
    case AddressConflict(q, _) => q < |st.pcbs|
    case OwnAddressSeen(i, _) => 2 * i + 1 < |st.pcbs| && i < |st.partner| && st.partner[i] != i
    case AnswerSeen(_, _, _) => true
    case QuerySeen(q, response, _) => q < |st.pcbs| && PacketMentionsOnly(response, st.services)
  }

  ghost predicate Shaped(st: State) {
    |st.pcbs| == 2 * |st.partner|
  }

  ghost function Step(st: State, a: Action): State
    requires Shaped(st) && Enabled(st, a)
  {
    match a
    case Clock(ms) => st.(now := st.now + ms)
    case Tick(room) => Timer(st, room)
    case TxHandle => ExecuteNext(st)
    case EnableIf(q, initOk, random) => Enable(st, q, initOk, random)
    case DisableIf(q, initOk, random) => Disable(st, q, initOk, random)
    case AnnounceIf(q, random) => Announce(st, q, [], true, random)
    case HostnameSet(randoms) => RestartAll(st.(hostSet := true), randoms)
    case InstanceSet(noInstance, randoms) =>
      if noInstance == [] then st else ProbeAll(st, noInstance, false, true, randoms)
    case ServiceAdd(s, randoms) => ProbeAll(st.(services := [s] + st.services), [s], false, false, randoms)
    case ServiceInstanceSet(s, randoms) => ProbeAll(st, [s], false, false, randoms)
    case ServicePortSet(s, randoms) => AnnounceAll(st, [s], true, randoms)
    case ServiceTxtSet(s, randoms) => AnnounceAll(st, [s], false, randoms)
    case ServiceDelete(s) => ServiceDel(st, s)
    case ServicesClearAll => ServicesClear(st)
    case SrvConflict(q, s, rename, randoms) =>
      if !st.pcbs[q].probeRunning then Reprobe(st, q, [s], false, randoms(q))
      else
        var counted := CountFailure(st, q);
        (match rename
         case RenameService => ProbeAll(counted, [s], false, false, randoms)
         case RenameInstance(none) => if none == [] then counted else ProbeAll(counted, none, false, true, randoms)
         case RenameHost => RestartAll(counted, randoms))
    case TxtConflict(q, s, random) =>
      if st.pcbs[q].probeRunning then st else Reprobe(st, q, [s], true, random)
    case AddressConflict(q, randoms) =>
      if st.pcbs[q].probeRunning then RestartAll(CountFailure(st, q), randoms) else Reprobe(st, q, [], true, randoms(q))
    case OwnAddressSeen(i, randoms) => DupInterface(st, i, randoms)
    case AnswerSeen(q, typ, svc) => st.(tx := DropScheduledAnswer(st.tx, q, typ, svc))
    case QuerySeen(q, response, delay) => Respond(st, q, response, delay)
  }

  lemma RenameHostInv(st: State, randoms: nat -> nat, known: seq<Service>)
    requires Inv(st, known) && st.hostSet
    ensures Inv(RestartAll(st, randoms), known)
  {
    assert st.(hostSet := true) == st;
    RestartAllInv(st, randoms, known);
  }

  lemma ConflictInv(st: State, a: Action, known: seq<Service>)
    requires Inv(st, known) && Shaped(st) && Enabled(st, a) && (a.SrvConflict? || a.TxtConflict? || a.AddressConflict?)
    ensures Inv(Step(st, a), known)
  {
    hide Sound, Base, ProbeAll, RestartAll, Recorded, Claimed, Anchored, InitProbe;
    var q := a.q;
    if !st.pcbs[q].probeRunning {
      match a {
        case SrvConflict(_, s, _, randoms) => ReprobeInv(st, q, [s], false, randoms(q), known);
        case TxtConflict(_, s, random) => ReprobeInv(st, q, [s], true, random, known);
        case AddressConflict(_, randoms) => ReprobeInv(st, q, [], true, randoms(q), known);
      }
    } else if !a.TxtConflict? {
      ProbingNeedsHost(st, q, known);
      var counted := CountFailure(st, q);
      FailuresInv(st, q, st.pcbs[q].failedProbes + 1, known);
      match a {
        case SrvConflict(_, s, RenameService, randoms) => ProbeSomeInv(counted, [s], false, randoms, known);
        case SrvConflict(_, s, RenameInstance(none), randoms) => ProbeSomeInv(counted, none, true, randoms, known);
        case SrvConflict(_, s, RenameHost, randoms) => RenameHostInv(counted, randoms, known);
        case AddressConflict(_, randoms) => RenameHostInv(counted, randoms, known);
      }
    }
  }

  lemma ProbingNeedsHost(st: State, q: nat, known: seq<Service>)
    requires Inv(st, known) && q < |st.pcbs| && st.pcbs[q].probeRunning
    ensures st.hostSet
  {
  }

  lemma InterfaceInv(st: State, a: Action, known: seq<Service>)
    requires Inv(st, known) && Shaped(st) && Enabled(st, a) && (a.AnnounceIf? || a.OwnAddressSeen?)
    ensures Inv(Step(st, a), known)
  {
    hide Announce, DupOne, Recorded, Claimed, Anchored, Sound, Agreement, ThreeProbesFirst, PacketMentionsOnly;
    match a
    case AnnounceIf(q, random) =>
      assert Life(st, q);
      AnnounceInv(st, q, [], true, random, known);
      ConfinedInv(st, Announce(st, q, [], true, random), q, known);
    case OwnAddressSeen(i, randoms) =>
      DupOneInv(st, 2 * i, randoms(0), known);
      DupOneInv(DupOne(st, 2 * i, randoms(0)), 2 * i + 1, randoms(1), known);
  }

  /** The services registered so far, after one more action. */
  function KnownAfter(known: seq<Service>, a: Action): seq<Service> {
    if a.ServiceAdd? then [a.s] + known else known
  }

  /** Every action keeps the invariant. */
  lemma StepInv(st: State, a: Action, known: seq<Service>)
    requires Inv(st, known) && Enabled(st, a)
    ensures Shaped(st) && Inv(Step(st, a), KnownAfter(known, a))
  {
    hide Inv, Timer, ExecuteNext, Enable, Disable, Announce, RestartAll, ProbeAll, AnnounceAll, ServiceDel, ServicesClear,
         Reprobe, DupInterface, DropScheduledAnswer, Respond, PacketMentionsOnly;
    InvShape(st, known);
    ServicesKnown(st, known);
    match a
    case Clock(ms) => ClockInv(st, ms, known);
    case Tick(room) => TimerInv(st, room, known);
    case TxHandle => ExecuteNextInv(st, known);
    case EnableIf(q, initOk, random) => EnableInv(st, q, initOk, random, known);
    case DisableIf(q, initOk, random) => DisableInv(st, q, initOk, random, known);
    case AnnounceIf(q, random) => InterfaceInv(st, a, known);
    case HostnameSet(randoms) => RestartAllInv(st, randoms, known);
    case InstanceSet(noInstance, randoms) => ProbeSomeInv(st, noInstance, true, randoms, known);
    case ServiceAdd(s, randoms) => AddServiceInv(st, s, randoms, known);
    case ServiceInstanceSet(s, randoms) => ProbeSomeInv(st, [s], false, randoms, known);
    case ServicePortSet(s, randoms) => AnnounceAllInv(st, [s], true, randoms, known);
    case ServiceTxtSet(s, randoms) => AnnounceAllInv(st, [s], false, randoms, known);
    case ServiceDelete(s) => ServiceDelInv(st, s, known);
    case ServicesClearAll => ServicesClearInv(st, known);
    case SrvConflict(_, _, _, _) => ConflictInv(st, a, known);
    case TxtConflict(_, _, _) => ConflictInv(st, a, known);
    case AddressConflict(_, _) => ConflictInv(st, a, known);
    case OwnAddressSeen(_, _) => InterfaceInv(st, a, known);
    case AnswerSeen(q, typ, svc) => DropAnswerInv(st, q, typ, svc, known);
    case QuerySeen(q, response, delay) =>
      MentionsMore(response, st.services, known);
      RespondInv(st, q, response, delay, known);
  }

  lemma ServicesKnown(st: State, known: seq<Service>)
    requires Inv(st, known)
    ensures Subset(st.services, known) && NoDuplicates(st.services)
  {
  }

  // ---- Runs ----

  /** The responder as started: every control block down, nothing registered, nothing scheduled. */
  function Start(partner: seq<nat>): State {
    State(seq(2 * |partner|, _ => OFFLINE), partner, [], false, [], [], 0, 0, [], [])
  }

  /** `states` is a run of the engine performing `actions`. */
  ghost predicate IsRun(states: seq<State>, actions: seq<Action>) {
    && |states| == |actions| + 1
    && (exists partner :: states[0] == Start(partner))
    && forall i :: 0 <= i < |actions| ==>
         Shaped(states[i]) && Enabled(states[i], actions[i]) && states[i + 1] == Step(states[i], actions[i])
  }

  /** The services registered by some actions, the latest first. */
  function Registered(actions: seq<Action>): seq<Service> {
    if actions == [] then []
    else KnownAfter(Registered(actions[..|actions| - 1]), actions[|actions| - 1])
  }

  lemma StartInv(partner: seq<nat>)
    ensures Inv(Start(partner), [])
  {
    var st := Start(partner);
    forall q | 0 <= q < |st.pcbs| ensures Life(st, q) {
    }
  }

  /** On every run the invariant holds, and only services that have been registered are mentioned anywhere. */
  lemma {:induction false} RunInv(states: seq<State>, actions: seq<Action>, i: nat)
    requires IsRun(states, actions) && i < |states|
    ensures Inv(states[i], Registered(actions[..i]))
  {
    hide Inv, Step, Enabled, Shaped;
    if i == 0 {
      var partner :| states[0] == Start(partner);
      StartInv(partner);
    } else {
      RunInv(states, actions, i - 1);
      StepInv(states[i - 1], actions[i - 1], Registered(actions[..i - 1]));
      assert actions[..i][..i - 1] == actions[..i - 1];
    }
  }

  // ---- What holds in every reachable state ----

  /** The packets scheduled for control block `q`. */
  function Own(tx: seq<Packet>, q: nat): seq<Packet> {
    if tx == [] then [] else (if tx[0].pcb == q then [tx[0]] else []) + Own(tx[1..], q)
  }

  lemma {:induction false} OwnMembers(tx: seq<Packet>, q: nat, p: Packet)
    ensures p in Own(tx, q) <==> p in tx && p.pcb == q
  {
    if tx != [] {
      assert tx == [tx[0]] + tx[1..];
      OwnMembers(tx[1..], q, p);
    }
  }

  lemma {:induction false} OwnSingle(tx: seq<Packet>, q: nat, p: Packet)
    requires Ordered(tx) && p in tx && p.pcb == q
    requires forall r :: r in tx && r.pcb == q ==> r.id == p.id
    ensures |Own(tx, q)| == 1
  {
    assert tx == [tx[0]] + tx[1..];
    if tx[0].pcb == q {
      forall r | r in tx[1..] ensures r.pcb != q {
        assert r in tx && tx[0] in tx;
      }
      if Own(tx[1..], q) != [] {
        OwnMembers(tx[1..], q, Own(tx[1..], q)[0]);
      }
    } else {
      OwnSingle(tx[1..], q, p);
    }
  }

  /**
   An interface that is up owns exactly one packet while probing and at least one while announcing, and
   probes services only while probing, each of them once.
   */
  lemma LifeCycle(states: seq<State>, actions: seq<Action>, i: nat, q: nat)
    requires IsRun(states, actions) && i < |states| && q < |states[i].pcbs| && states[i].pcbs[q].ready
    ensures Cycle(states[i], q)
  {
    hide Inv, Step, Enabled, Shaped, Cycle;
    RunInv(states, actions, i);
    UpCycle(states[i], q, Registered(actions[..i]));
  }

  /** The life cycle of one control block. */
  ghost predicate Cycle(st: State, q: nat)
    requires q < |st.pcbs|
  {
    var pcb := st.pcbs[q];
    && (pcb.state.Probing() ==> |Own(st.tx, q)| == 1)
    && (pcb.state.Announcing() ==> |Own(st.tx, q)| >= 1)
    && (pcb.probeServices != [] ==> pcb.state.Probing())
    && (forall j, k :: 0 <= j < k < |pcb.probeServices| ==> pcb.probeServices[j] != pcb.probeServices[k])
    && (pcb.probeRunning <==> pcb.state.Probing())
  }

  lemma UpCycle(st: State, q: nat, known: seq<Service>)
    requires Inv(st, known) && q < |st.pcbs| && st.pcbs[q].ready
    ensures Cycle(st, q)
  {
    hide Live, QueuedIds, ThreeProbesFirst, Since, Ordered;
    assert Life(st, q);
    if st.pcbs[q].state.Probing() {
      var p := SoleProbe(st, q);
      OwnSingle(st.tx, q, p);
    } else if st.pcbs[q].state.Announcing() {
      var p :| p in st.tx && p.pcb == q && Anchor(p);
      OwnMembers(st.tx, q, p);
    }
  }

  /**
   The queue is sorted by due time, its queued packets come first, and the pending actions that name a
   packet still scheduled are exactly the queued packets in order.
   */
  lemma SchedulerAgreesWithExecutor(states: seq<State>, actions: seq<Action>, i: nat)
    requires IsRun(states, actions) && i < |states|
    ensures var st := states[i];
            && (forall j, k :: 0 <= j < k < |st.tx| ==> st.tx[j].sendAt <= st.tx[k].sendAt)
            && (forall j, k :: 0 <= j < k < |st.tx| && st.tx[k].queued ==> st.tx[j].queued)
            && (forall j, k :: 0 <= j < k < |st.tx| ==> st.tx[j].id != st.tx[k].id)
            && Live(st.pending, Ids(st.tx)) == QueuedIds(st.tx)
  {
    hide Step, Enabled, Shaped, AllLife, Live, QueuedIds, Ids;
    RunInv(states, actions, i);
    var st := states[i];
    forall j, k | 0 <= j < k < |st.tx| ensures Before(st.tx[j], st.tx[k]) {
      OrderedByIndex(st.tx, j, k);
    }
  }

  /** Executing a pending action for a scheduled packet sends that very packet; only actions for gone packets are skipped. */
  lemma ExecutorSendsWhatWasPosted(states: seq<State>, actions: seq<Action>, i: nat)
    requires IsRun(states, actions) && i < |states| && states[i].pending != []
    ensures var st := states[i];
            if st.pending[0] in Ids(st.tx) then
              && st.tx != [] && st.tx[0].id == st.pending[0] && st.tx[0].queued && st.tx[0].pcb < |st.pcbs|
              && ExecuteNext(st) == HandlePacket(st.(tx := st.tx[1..], pending := st.pending[1..]), st.tx[0].(queued := false))
            else
              ExecuteNext(st) == st.(pending := st.pending[1..])
  {
    hide Step, Enabled, Shaped, AllLife, HandlePacket, Live, QueuedIds;
    RunInv(states, actions, i);
    var st := states[i];
    if st.pending[0] in Ids(st.tx) {
      NeverSkipped(st);
      assert st.tx[0] in st.tx;
    } else if st.tx != [] {
      assert st.tx[0] in st.tx;
    }
  }

  /** No packet is stranded: every queued packet has an action pending, every due unqueued one is posted by a pass with room. */
  lemma NothingStranded(states: seq<State>, actions: seq<Action>, i: nat, p: Packet)
    requires IsRun(states, actions) && i < |states| && p in states[i].tx
    ensures p.queued ==> p.id in states[i].pending
    ensures p.sendAt < states[i].now && !p.queued ==> forall room :: room >= |states[i].tx| ==> p.id in Timer(states[i], room).pending
  {
    hide Step, Enabled, Shaped, AllLife, Live, QueuedIds, Ordered;
    RunInv(states, actions, i);
    var st := states[i];
    if p.queued {
      NeverStranded(st, p);
    } else if p.sendAt < st.now {
      forall room | room >= |st.tx| ensures p.id in Timer(st, room).pending {
        var k := FirstUnqueued(st.tx);
        OrderedDrop(st.tx, k);
        assert st.tx == st.tx[..k] + st.tx[k..];
        PostsDue(st.tx[k..], st.now, room, p);
      }
    }
  }

  lemma {:induction false} PostsDue(rest: seq<Packet>, now: nat, room: nat, p: Packet)
    requires Ordered(rest) && p in rest && p.sendAt < now && room >= |rest|
    ensures p.id in Post(rest, now, room).1
    decreases |rest|
  {
    assert rest == [rest[0]] + rest[1..];
    if p != rest[0] {
      assert Before(rest[0], p);
      PostsDue(rest[1..], now, room - 1, p);
    }
  }

  // ---- Probing comes before announcing ----

  /** Three probes, at least 250 ms apart, of which only the first asks for unicast replies. */
  ghost predicate ThreeProbes(h: seq<Output>) {
    && |h| == 3
    && (forall j :: 0 <= j < 3 ==> h[j].Sent? && h[j].phase.Rank() == Probe1.Rank() + j && h[j].unicast != [])
    && h[1].time >= h[0].time + 250 && h[2].time >= h[1].time + 250
    && (forall b :: b in h[0].unicast ==> b)
    && (forall b :: b in h[1].unicast + h[2].unicast ==> !b)
  }

  /** Every announcement on record followed three probes since the latest restart. */
  lemma AnnouncedAfterThree(st: State, k: nat, known: seq<Service>)
    requires Inv(st, known) && k < |st.out| && st.out[k].Announced?
    ensures ThreeProbes(Since(st.out[..k], st.out[k].pcb))
  {
    hide AllLife, Agreement, Since;
  }

  // Which steps let a control block announce: it keeps its state, or does not come out announcing.

  predicate Stays(a: Pcb, b: Pcb) {
    b.state == a.state || !b.state.Announcing()
  }

  ghost predicate AllStay(st: State, st': State) {
    |st'.pcbs| == |st.pcbs| && forall q :: 0 <= q < |st.pcbs| ==> Stays(st.pcbs[q], st'.pcbs[q])
  }

  lemma InitProbeStays(st: State, q: nat, services: seq<Service>, probeIp: bool, random: nat)
    requires q < |st.pcbs|
    ensures AllStay(st, InitProbe(st, q, services, probeIp, random))
  {
  }

  lemma {:induction false} ProbeFirstStays(st: State, n: nat, services: seq<Service>, probeIp: bool, clearOld: bool, random: nat -> nat)
    requires n <= |st.pcbs|
    ensures AllStay(st, ProbeFirst(st, n, services, probeIp, clearOld, random))
  {
    hide InitProbe;
    if n > 0 {
      ProbeFirstStays(st, n - 1, services, probeIp, clearOld, random);
      var mid := ProbeFirst(st, n - 1, services, probeIp, clearOld, random);
      var pcb := mid.pcbs[n - 1];
      var st1 := if clearOld then mid.(pcbs := mid.pcbs[n - 1 := pcb.(probeServices := [], probeRunning := false)]) else mid;
      InitProbeStays(st1, n - 1, services, probeIp, random(n - 1));
    }
  }

  lemma {:induction false} PurgeQueueStays(pcbs: seq<Pcb>, tx: seq<Packet>, s: Service, q: nat)
    requires q < |pcbs|
    ensures Stays(pcbs[q], PurgeQueue(pcbs, tx, s).0[q])
    decreases |tx|
  {
    if tx == [] {
    } else if tx[0].pcb >= |pcbs| {
      PurgeQueueStays(pcbs, tx[1..], s, q);
    } else {
      PurgeQueueStays(pcbs[tx[0].pcb := Purge(pcbs[tx[0].pcb], tx[0], s).0], tx[1..], s, q);
    }
  }

  lemma RemoveScheduledStays(st: State, s: Service)
    ensures AllStay(st, RemoveScheduled(st, s))
  {
    forall q | 0 <= q < |st.pcbs| ensures Stays(st.pcbs[q], RemoveScheduled(st, s).pcbs[q]) {
      PurgeQueueStays(st.pcbs, st.tx, s, q);
    }
  }

  lemma {:induction false} RemoveEachStays(st: State, services: seq<Service>)
    ensures AllStay(st, RemoveEach(st, services))
    decreases |services|
  {
    hide RemoveScheduled;
    if services != [] {
      RemoveScheduledStays(st, services[0]);
      RemoveEachStays(RemoveScheduled(st, services[0]), services[1..]);
    }
  }

  lemma EnableStays(st: State, q: nat, initOk: bool, random: nat)
    requires q < |st.pcbs|
    ensures AllStay(st, Enable(st, q, initOk, random))
  {
    hide InitProbe;
    InitProbeStays(st.(pcbs := st.pcbs[q := st.pcbs[q].(ready := true)]), q, st.services, true, random);
  }

  lemma DisableStays(st: State, q: nat, initOk: bool, random: nat)
    requires Shaped(st) && q < |st.pcbs|
    ensures AllStay(st, Disable(st, q, initOk, random))
  {
    hide Enable, Without;
    if st.pcbs[q].ready {
      var off := st.(tx := Without(st.tx, q), pcbs := st.pcbs[q := OFFLINE]);
      var o := OtherPcb(st, q);
      if o.Some? && off.pcbs[o.value].state.Dup? {
        EnableStays(off.(pcbs := off.pcbs[o.value := off.pcbs[o.value].(state := Off)]), o.value, initOk, random);
      }
    }
  }

  /** Announcing leaves the other control blocks as they are and does not cut a probe short. */
  lemma AnnounceStays(st: State, q: nat, services: seq<Service>, withIp: bool, random: nat)
    requires q < |st.pcbs|
    ensures var st' := Announce(st, q, services, withIp, random);
            && |st'.pcbs| == |st.pcbs| && (forall r :: 0 <= r < |st.pcbs| && r != q ==> st'.pcbs[r] == st.pcbs[r])
            && (st.pcbs[q].state.Probing() ==> Stays(st.pcbs[q], st'.pcbs[q]))
  {
  }

  lemma {:induction false} AnnounceFirstStays(st: State, n: nat, services: seq<Service>, withIp: bool, random: nat -> nat, q: nat)
    requires n <= |st.pcbs| && q < |st.pcbs| && st.pcbs[q].state.Probing()
    ensures var st' := AnnounceFirst(st, n, services, withIp, random);
            Stays(st.pcbs[q], st'.pcbs[q]) && (q >= n ==> st'.pcbs[q] == st.pcbs[q])
  {
    hide Announce;
    if n > 0 {
      AnnounceFirstStays(st, n - 1, services, withIp, random, q);
      AnnounceStays(AnnounceFirst(st, n - 1, services, withIp, random), n - 1, services, withIp, random(n - 1));
    }
  }

  lemma DupOneStays(st: State, q: nat, random: nat, r: nat)
    requires Shaped(st) && q < |st.pcbs| && r < |st.pcbs| && OtherPcb(st, q) != Some(q)
    ensures var st' := DupOne(st, q, random);
            && |st'.pcbs| == |st.pcbs| && st'.partner == st.partner
            && (st.pcbs[r].state.Probing() ==> Stays(st.pcbs[r], st'.pcbs[r]))
            && (r % 2 != q % 2 ==> st'.pcbs[r] == st.pcbs[r])
  {
    hide Announce, Without;
    var o := OtherPcb(st, q);
    if o.Some? && st.pcbs[o.value].ready {
      var st1 := if st.pcbs[q].ready then st.(tx := Without(st.tx, q), pcbs := st.pcbs[q := OFFLINE]) else st;
      var st2 := st1.(pcbs := st1.pcbs[q := st1.pcbs[q].(state := Dup)]);
      AnnounceStays(st2, o.value, [], true, random);
      AnnouncePartner(st2, o.value, [], true, random);
    }
  }

  lemma AnnouncePartner(st: State, q: nat, services: seq<Service>, withIp: bool, random: nat)
    requires q < |st.pcbs|
    ensures Announce(st, q, services, withIp, random).partner == st.partner
  {
  }

  /** Only the executor lets a probing control block announce. */
  lemma OnlyHandlingAnnounces(st: State, a: Action, q: nat)
    requires Shaped(st) && Enabled(st, a) && q < |st.pcbs| && q < |Step(st, a).pcbs|
    requires st.pcbs[q].state.Probing() && Step(st, a).pcbs[q].state.Announcing()
    ensures a.TxHandle?
  {
    hide Step, Enabled, Shaped;
    if a.SrvConflict? || a.TxtConflict? || a.AddressConflict? {
      ConflictStays(st, a);
    } else if a.ServiceDelete? || a.ServicesClearAll? {
      RemovalStays(st, a);
    } else if a.AnnounceIf? || a.OwnAddressSeen? || a.ServicePortSet? || a.ServiceTxtSet? {
      AnnouncingStays(st, a, q);
    } else if a.HostnameSet? || a.InstanceSet? || a.ServiceAdd? || a.ServiceInstanceSet? {
      ProbingStays(st, a);
    } else if !a.TxHandle? {
      OtherStays(st, a);
    }
  }

  lemma OtherStays(st: State, a: Action)
    requires Shaped(st) && Enabled(st, a)
    requires a.Clock? || a.Tick? || a.EnableIf? || a.DisableIf? || a.AnswerSeen? || a.QuerySeen?
    ensures AllStay(st, Step(st, a))
  {
    hide Timer, Enable, Disable, DropScheduledAnswer, PacketMentionsOnly, Insert;
    match a
    case Clock(ms) =>
    case Tick(room) => TimerKeeps(st, room);
    case EnableIf(r, initOk, random) => EnableStays(st, r, initOk, random);
    case DisableIf(r, initOk, random) => DisableStays(st, r, initOk, random);
    case AnswerSeen(_, _, _) =>
    case QuerySeen(_, _, _) =>
  }

  lemma ProbingStays(st: State, a: Action)
    requires Shaped(st) && Enabled(st, a) && (a.HostnameSet? || a.InstanceSet? || a.ServiceAdd? || a.ServiceInstanceSet?)
    ensures AllStay(st, Step(st, a))
  {
    hide ProbeFirst;
    match a
    case HostnameSet(randoms) => ProbeFirstStays(st.(hostSet := true, tx := []), |st.pcbs|, st.services, true, true, randoms);
    case InstanceSet(none, randoms) => ProbeFirstStays(st, |st.pcbs|, none, false, true, randoms);
    case ServiceAdd(s, randoms) => ProbeFirstStays(st.(services := [s] + st.services), |st.pcbs|, [s], false, false, randoms);
    case ServiceInstanceSet(s, randoms) => ProbeFirstStays(st, |st.pcbs|, [s], false, false, randoms);
  }

  lemma RemovalStays(st: State, a: Action)
    requires Shaped(st) && Enabled(st, a) && (a.ServiceDelete? || a.ServicesClearAll?)
    ensures AllStay(st, Step(st, a))
  {
    hide RemoveScheduled, RemoveEach;
    match a
    case ServiceDelete(s) =>
      var i := IndexOf(st.services, s);
      if i < |st.services| {
        RemoveScheduledStays(st.(services := st.services[..i] + st.services[i + 1..]), s);
      }
    case ServicesClearAll => RemoveEachStays(st.(services := []), st.services);
  }

  lemma AnnouncingStays(st: State, a: Action, q: nat)
    requires Shaped(st) && Enabled(st, a) && (a.AnnounceIf? || a.OwnAddressSeen? || a.ServicePortSet? || a.ServiceTxtSet?)
    requires q < |st.pcbs| && q < |Step(st, a).pcbs| && st.pcbs[q].state.Probing()
    ensures Stays(st.pcbs[q], Step(st, a).pcbs[q])
  {
    hide Announce, AnnounceFirst, DupOne;
    match a
    case AnnounceIf(r, random) => AnnounceStays(st, r, [], true, random);
    case ServicePortSet(s, randoms) => AnnounceFirstStays(st, |st.pcbs|, [s], true, randoms, q);
    case ServiceTxtSet(s, randoms) => AnnounceFirstStays(st, |st.pcbs|, [s], false, randoms, q);
    case OwnAddressSeen(i, randoms) =>
      DupOneStays(st, 2 * i, randoms(0), q);
      DupOneStays(DupOne(st, 2 * i, randoms(0)), 2 * i + 1, randoms(1), q);
  }

  lemma ConflictStays(st: State, a: Action)
    requires Shaped(st) && Enabled(st, a) && (a.SrvConflict? || a.TxtConflict? || a.AddressConflict?)
    ensures AllStay(st, Step(st, a))
  {
    hide ProbeFirst, InitProbe;
    var q := a.q;
    var counted := CountFailure(st, q);
    match a
    case SrvConflict(_, s, rename, randoms) =>
      InitProbeStays(st, q, [s], false, randoms(q));
      ProbeFirstStays(counted, |st.pcbs|, [s], false, false, randoms);
      ProbeFirstStays(counted.(tx := []), |st.pcbs|, st.services, true, true, randoms);
      if rename.RenameInstance? {
        ProbeFirstStays(counted, |st.pcbs|, rename.noInstance, false, true, randoms);
      }
    case TxtConflict(_, s, random) => InitProbeStays(st, q, [s], true, random);
    case AddressConflict(_, randoms) =>
      InitProbeStays(st, q, [], true, randoms(q));
      ProbeFirstStays(counted.(tx := []), |st.pcbs|, st.services, true, true, randoms);
  }

  /** There are as many control blocks after an action as before. */
  lemma StepSize(st: State, a: Action)
    requires Shaped(st) && Enabled(st, a)
    ensures |Step(st, a).pcbs| == |st.pcbs|
  {
    hide Step, Enabled, Shaped;
    if a.SrvConflict? || a.TxtConflict? || a.AddressConflict? {
      ConflictStays(st, a);
    } else if a.ServiceDelete? || a.ServicesClearAll? {
      RemovalStays(st, a);
    } else if a.AnnounceIf? || a.OwnAddressSeen? || a.ServicePortSet? || a.ServiceTxtSet? {
      AnnouncingSize(st, a);
    } else if a.HostnameSet? || a.InstanceSet? || a.ServiceAdd? || a.ServiceInstanceSet? {
      ProbingStays(st, a);
    } else if a.TxHandle? {
      HandledSize(st, a);
    } else {
      OtherStays(st, a);
    }
  }

  lemma AnnouncingSize(st: State, a: Action)
    requires Shaped(st) && Enabled(st, a) && (a.AnnounceIf? || a.OwnAddressSeen? || a.ServicePortSet? || a.ServiceTxtSet?)
    ensures |Step(st, a).pcbs| == |st.pcbs|
  {
    hide Announce, AnnounceFirst, DupOne;
    match a
    case AnnounceIf(r, random) => AnnounceStays(st, r, [], true, random);
    case ServicePortSet(_, _) =>
    case ServiceTxtSet(_, _) =>
    case OwnAddressSeen(i, randoms) =>
      DupOneStays(st, 2 * i, randoms(0), 0);
      DupOneStays(DupOne(st, 2 * i, randoms(0)), 2 * i + 1, randoms(1), 0);
  }

  lemma HandledSize(st: State, a: Action)
    requires Shaped(st) && Enabled(st, a) && a.TxHandle?
    ensures |Step(st, a).pcbs| == |st.pcbs|
  {
    hide ExecuteNext;
    HandledShape(st);
  }

  /** Executing an action lets a control block announce only after its third probe, which it records. */
  lemma HandlingAnnounces(st: State, q: nat)
    requires q < |st.pcbs| && |ExecuteNext(st).pcbs| == |st.pcbs|
    requires st.pcbs[q].state.Probing() && ExecuteNext(st).pcbs[q].state.Announcing()
    ensures st.pcbs[q].state.Probe3? && ExecuteNext(st).pcbs[q].state.Announce1?
    ensures exists unicast :: ExecuteNext(st).out == st.out + [Sent(q, st.now, Probe3, unicast)] + [Announced(q, st.now)]
  {
    hide HandlePacket;
    var popped, p := st.(tx := st.tx[1..], pending := st.pending[1..]), st.tx[0].(queued := false);
    if p.pcb != q || !st.pcbs[q].state.Probe3? {
      HandlingMoves(popped, p, q);
    } else {
      HandleLastProbeIs(popped, p);
      assert ExecuteNext(st).out == st.out + [Sent(q, st.now, Probe3, UnicastFlags(p.questions))] + [Announced(q, st.now)];
    }
  }

  lemma HandlingMoves(st: State, p: Packet, q: nat)
    requires p.pcb < |st.pcbs| && q < |st.pcbs| && (p.pcb != q || st.pcbs[q].state.Probe1? || st.pcbs[q].state.Probe2?)
    ensures var st' := HandlePacket(st, p); |st'.pcbs| == |st.pcbs| && (st.pcbs[q].state.Probing() ==> !st'.pcbs[q].state.Announcing())
  {
    hide Insert, FromProbe, UnicastFlags, Quiet;
  }

  /**
   A control block that passes from probing to announcing has sent exactly three proper probes since its
   probe was last restarted, the last one just now.
   */
  lemma ProbesBeforeAnnouncing(states: seq<State>, actions: seq<Action>, i: nat, q: nat)
    requires IsRun(states, actions) && i < |actions| && q < |states[i].pcbs| == |states[i + 1].pcbs|
    requires states[i].pcbs[q].state.Probing() && states[i + 1].pcbs[q].state.Announcing()
    ensures states[i].pcbs[q].state.Probe3? && states[i + 1].pcbs[q].state.Announce1? && actions[i].TxHandle?
    ensures var h := Since(states[i + 1].out, q); ThreeProbes(h) && h[2].time == states[i].now
  {
    hide Inv, Since, ThreeProbes, ExecuteNext, Enabled;
    StepOf(states, actions, i);
    OnlyHandlingAnnounces(states[i], actions[i], q);
    RunInv(states, actions, i + 1);
    InvShape(states[i + 1], Registered(actions[..i + 1]));
    HandledShape(states[i]);
    HandlingAnnounces(states[i], q);
    var out, now := states[i].out, states[i].now;
    var unicast :| states[i + 1].out == out + [Sent(q, now, Probe3, unicast)] + [Announced(q, now)];
    var sent := out + [Sent(q, now, Probe3, unicast)];
    AnnouncedAfterThree(states[i + 1], |sent|, Registered(actions[..i + 1]));
    assert states[i + 1].out[..|sent|] == sent;
    SinceAppend(sent, Announced(q, now), q);
    SinceAppend(out, Sent(q, now, Probe3, unicast), q);
    ThreeIs(Since(out, q), Sent(q, now, Probe3, unicast));
  }

  lemma ThreeIs(h: seq<Output>, o: Output)
    requires ThreeProbes(h + [o])
    ensures (h + [o])[2] == o
  {
  }

  lemma HandledShape(st: State)
    ensures |ExecuteNext(st).pcbs| == |st.pcbs|
  {
    hide Insert, FromProbe, UnicastFlags;
  }

  lemma StepOf(states: seq<State>, actions: seq<Action>, i: nat)
    requires IsRun(states, actions) && i < |actions|
    ensures Shaped(states[i]) && Enabled(states[i], actions[i]) && states[i + 1] == Step(states[i], actions[i])
  {
    hide Step, Enabled, Shaped;
  }
}
