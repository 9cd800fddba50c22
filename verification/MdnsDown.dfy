/**
 Interfaces that are down: they rest until a conflict is processed on them, and from then on their
 life cycle breaks in exactly a handful of ways.
 */
module MdnsDown {
  import opened Common
  import opened MdnsState
  import opened MdnsSpec
  import opened MdnsQueue
  import opened MdnsContents
  import opened MdnsLifecycle
  import opened MdnsSteps
  import opened MdnsRuns
  import opened MdnsRemoval

  // ---- What a step does to one control block and its packets ----

  ghost predicate Present(tx: seq<Packet>, q: nat) {
    exists p :: p in tx && p.pcb == q
  }

  /** The step does not touch control block `q`, except perhaps the contents of its packets. */
  ghost predicate Apart(st: State, st': State, q: nat) {
    q < |st.pcbs| == |st'.pcbs| && st'.partner == st.partner && st'.pcbs[q] == st.pcbs[q] && (Present(st'.tx, q) <==> Present(st.tx, q))
  }

  lemma InsertPresent(tx: seq<Packet>, p: Packet, q: nat)
    ensures Present(Insert(tx, p), q) <==> Present(tx, q) || p.pcb == q
  {
    InsertMembers(tx, p, p);
    if Present(Insert(tx, p), q) {
      var x :| x in Insert(tx, p) && x.pcb == q;
      InsertMembers(tx, p, x);
    }
    if Present(tx, q) {
      var x :| x in tx && x.pcb == q;
      InsertMembers(tx, p, x);
    }
  }

  lemma WithoutPresent(tx: seq<Packet>, r: nat, q: nat)
    ensures Present(Without(tx, r), q) <==> Present(tx, q) && q != r
  {
    WithoutShrinks(tx, r);
  }

  lemma InitProbeApart(st: State, r: nat, services: seq<Service>, probeIp: bool, random: nat, q: nat)
    requires r < |st.pcbs| && q < |st.pcbs| && r != q
    ensures Apart(st, InitProbe(st, r, services, probeIp, random), q)
  {
    hide Insert, Without, ProbePacket, Fresh, Present;
    WithoutPresent(st.tx, r, q);
    var pcb := st.pcbs[r];
    var some := if pcb.state.CountsAsProbing() then Fresh(services, pcb.probeServices) else services;
    var p := ProbePacket(st.nextId, r, Probed(pcb, some), pcb.probeIp || probeIp);
    ProbePacketOf(st.nextId, r, Probed(pcb, some), pcb.probeIp || probeIp);
    InsertPresent(Without(st.tx, r), p.(sendAt := st.now + ProbeDelay(pcb.failedProbes, random)), q);
  }

  lemma ProbePacketOf(id: nat, q: nat, services: seq<Service>, withIp: bool)
    ensures ProbePacket(id, q, services, withIp).pcb == q
  {
    hide ProbeServices, HostQuestions, AddHostList;
  }

  lemma {:induction false} ProbeFirstApart(st: State, n: nat, services: seq<Service>, probeIp: bool, clearOld: bool, random: nat -> nat, q: nat)
    requires n <= |st.pcbs| && q < |st.pcbs| && !st.pcbs[q].ready
    ensures Apart(st, ProbeFirst(st, n, services, probeIp, clearOld, random), q)
  {
    hide InitProbe, Present;
    if n > 0 {
      ProbeFirstApart(st, n - 1, services, probeIp, clearOld, random, q);
      var mid := ProbeFirst(st, n - 1, services, probeIp, clearOld, random);
      if n - 1 != q {
        var pcb := mid.pcbs[n - 1];
        var st1 := if clearOld then mid.(pcbs := mid.pcbs[n - 1 := pcb.(probeServices := [], probeRunning := false)]) else mid;
        InitProbeApart(st1, n - 1, services, probeIp, random(n - 1), q);
      }
    }
  }

  lemma AnnounceApart(st: State, r: nat, services: seq<Service>, withIp: bool, random: nat, q: nat)
    requires r < |st.pcbs| && q < |st.pcbs| && (r != q || !st.pcbs[q].ready)
    ensures Apart(st, Announce(st, r, services, withIp, random), q)
  {
    hide Insert, Merge, AnnouncePacket, InitProbe;
    var pcb := st.pcbs[r];
    if !pcb.ready {
    } else if pcb.state.CountsAsProbing() {
      InitProbeApart(st, r, services, withIp, random, q);
    } else if pcb.state.Announcing() {
      var i := FirstOf(st.tx, r);
      if i < |st.tx| {
        var p := Merge(st.tx[i], services, withIp);
        MergePcb(st.tx[i], services, withIp);
        UpdateMembers(st.tx, i, p, r);
      }
    } else if pcb.state.Running? && st.hostSet {
      AnnouncePcbOf(st.nextId, r, services, withIp);
      InsertPresent(st.tx, AnnouncePacket(st.nextId, r, services, withIp).(sendAt := st.now + 0), q);
    }
  }

  lemma MergePcb(p: Packet, services: seq<Service>, withIp: bool)
    ensures Merge(p, services, withIp).pcb == p.pcb
  {
    hide AddAllServiceAnswers, AddHostList, DropFirst;
  }

  lemma AnnouncePcbOf(id: nat, q: nat, services: seq<Service>, withIp: bool)
    ensures AnnouncePacket(id, q, services, withIp).pcb == q
  {
    hide AddAllServiceAnswers, AddHostList;
  }

  lemma {:induction false} AnnounceFirstApart(st: State, n: nat, services: seq<Service>, withIp: bool, random: nat -> nat, q: nat)
    requires n <= |st.pcbs| && q < |st.pcbs| && !st.pcbs[q].ready
    ensures Apart(st, AnnounceFirst(st, n, services, withIp, random), q)
  {
    hide Announce, Present;
    if n > 0 {
      AnnounceFirstApart(st, n - 1, services, withIp, random, q);
      AnnounceApart(AnnounceFirst(st, n - 1, services, withIp, random), n - 1, services, withIp, random(n - 1), q);
    }
  }

  lemma EnableApart(st: State, r: nat, initOk: bool, random: nat, q: nat)
    requires r < |st.pcbs| && q < |st.pcbs| && r != q
    ensures Apart(st, Enable(st, r, initOk, random), q)
  {
    hide InitProbe, Present;
    InitProbeApart(st.(pcbs := st.pcbs[r := st.pcbs[r].(ready := true)]), r, st.services, true, random, q);
  }

  lemma TimerApart(st: State, room: nat, q: nat)
    requires Ordered(st.tx) && q < |st.pcbs|
    ensures Apart(st, Timer(st, room), q)
  {
    hide Timer, Ordered;
    TimerKeeps(st, room);
    var st' := Timer(st, room);
    if Present(st.tx, q) {
      var p :| p in st.tx && p.pcb == q;
      var x := TimerSurvives(st, room, p);
    }
    if Present(st'.tx, q) {
      var x :| x in st'.tx && x.pcb == q;
      var p := TimerDescends(st, room, x);
    }
  }

  lemma DropAnswerApart(st: State, r: nat, typ: RecordType, svc: Option<Service>, q: nat)
    requires q < |st.pcbs|
    ensures Apart(st, st.(tx := DropScheduledAnswer(st.tx, r, typ, svc)), q)
  {
    hide DropScheduledAnswer;
    var tx' := DropScheduledAnswer(st.tx, r, typ, svc);
    DropAnswerPointwise(st.tx, r, typ, svc);
    if Present(st.tx, q) {
      var p :| p in st.tx && p.pcb == q;
      var i :| 0 <= i < |st.tx| && st.tx[i] == p;
      assert tx'[i] in tx' && SameSlot(p, tx'[i]);
    }
    if Present(tx', q) {
      var x :| x in tx' && x.pcb == q;
      var i :| 0 <= i < |tx'| && tx'[i] == x;
      assert st.tx[i] in st.tx && SameSlot(st.tx[i], x);
    }
  }

  // ---- Resting ----

  /** Off or yielding to a duplicate, with nothing probed and nothing scheduled. */
  ghost predicate Resting(st: State, q: nat)
    requires q < |st.pcbs|
  {
    var pcb := st.pcbs[q];
    !pcb.ready && (pcb.state.Off? || pcb.state.Dup?) && pcb.probeServices == [] && !pcb.probeRunning && !Present(st.tx, q)
  }

  ghost predicate UpOrResting(st: State, q: nat) {
    q < |st.pcbs| && (st.pcbs[q].ready || Resting(st, q))
  }

  /** The action is a conflict found in a packet received on interface `q`. */
  predicate ConflictOn(a: Action, q: nat) {
    (a.SrvConflict? || a.TxtConflict? || a.AddressConflict?) && a.q == q
  }

  // ---- Breaking the life cycle ----

  ghost predicate Active(pcb: Pcb) {
    pcb.state.Probing() || pcb.state.Announcing()
  }

  /** The packet consists of answers about the services in `gone`. */
  ghost predicate About(p: Packet, gone: seq<Service>) {
    p.questions == [] && forall b :: b in p.answers + p.servers + p.additional ==> b.svc.Some? && b.svc.value in gone
  }

  /** So does all that is scheduled for `q`. */
  ghost predicate OnlyAbout(tx: seq<Packet>, q: nat, gone: seq<Service>) {
    forall p :: p in tx && p.pcb == q ==> About(p, gone)
  }

  /** What takes the packet away from an interface that probes or announces although it is down, or stops it half way. */
  ghost predicate Breaks(st: State, a: Action, q: nat)
    requires q < |st.pcbs|
  {
    var pcb := st.pcbs[q];
    match a
    case HostnameSet(_) => Active(pcb)
    case SrvConflict(r, _, RenameHost, _) => r < |st.pcbs| && st.pcbs[r].probeRunning && Active(pcb)
    case AddressConflict(r, _) => r < |st.pcbs| && st.pcbs[r].probeRunning && Active(pcb)
    case DisableIf(r, _, _) => r == q && pcb.state.Probing()
    case OwnAddressSeen(i, _) =>
      q / 2 == i && pcb.state.Probing()
      && OtherPcb(st, q).Some? && OtherPcb(st, q).value < |st.pcbs| && st.pcbs[OtherPcb(st, q).value].ready
    case ServiceDelete(s) => s in st.services && pcb.state.Announcing() && OnlyAbout(st.tx, q, [s])
    case ServicesClearAll => st.services != [] && pcb.state.Announcing() && OnlyAbout(st.tx, q, st.services)
    case _ => false
  }

  /** The life cycle of a control block in a state of a run. */
  ghost predicate Whole(st: State, q: nat)
    requires q < |st.pcbs|
  {
    var pcb := st.pcbs[q];
    && (Active(pcb) ==> Present(st.tx, q))
    && (pcb.probeServices != [] ==> pcb.state.Probing())
    && (pcb.probeRunning ==> pcb.state.Probing())
  }

  lemma CycleIsWhole(st: State, q: nat, known: seq<Service>)
    requires Inv(st, known) && q < |st.pcbs|
    ensures Cycle(st, q) <==> Whole(st, q)
  {
    hide Live, QueuedIds, ThreeProbesFirst, Since, AsksEnough, Progress, PacketMentionsOnly;
    assert Life(st, q);
    if Present(st.tx, q) {
      var p :| p in st.tx && p.pcb == q;
      OwnMembers(st.tx, q, p);
      if st.pcbs[q].state.Probing() {
        OwnSingle(st.tx, q, p);
      }
    } else if Own(st.tx, q) != [] {
      OwnMembers(st.tx, q, Own(st.tx, q)[0]);
    }
  }

  lemma ApartWhole(st: State, st': State, q: nat)
    requires Apart(st, st', q)
    ensures Whole(st', q) <==> Whole(st, q)
  {
    hide Present;
  }

  // ---- Steps that leave an interface that is down alone ----

  /** Actions that touch interfaces that are up only. */
  predicate Ambient(a: Action) {
    a.Clock? || a.Tick? || a.AnnounceIf? || a.InstanceSet? || a.ServiceAdd? || a.ServiceInstanceSet? || a.ServicePortSet?
    || a.ServiceTxtSet? || a.AnswerSeen?
  }

  lemma AmbientApart(st: State, a: Action, q: nat)
    requires Shaped(st) && Enabled(st, a) && Ambient(a) && Ordered(st.tx) && q < |st.pcbs| && !st.pcbs[q].ready
    ensures Apart(st, Step(st, a), q)
  {
    hide Timer, Announce, ProbeFirst, AnnounceFirst, DropScheduledAnswer, Present, Ordered, PacketMentionsOnly, Subset, NoDuplicates;
    var all := |st.pcbs|;
    match a
    case Clock(_) =>
    case Tick(room) => TimerApart(st, room, q);
    case AnnounceIf(r, random) => AnnounceApart(st, r, [], true, random, q);
    case InstanceSet(none, r) => ProbeFirstApart(st, all, none, false, true, r, q);
    case ServiceAdd(s, r) => ProbeFirstApart(st.(services := [s] + st.services), all, [s], false, false, r, q);
    case ServiceInstanceSet(s, r) => ProbeFirstApart(st, all, [s], false, false, r, q);
    case ServicePortSet(s, r) => AnnounceFirstApart(st, all, [s], true, r, q);
    case ServiceTxtSet(s, r) => AnnounceFirstApart(st, all, [s], false, r, q);
    case AnswerSeen(r, typ, svc) => DropAnswerApart(st, r, typ, svc, q);
  }

  /** A restart takes all packets away and leaves the control blocks that are down as they are. */
  lemma RestartDown(st: State, randoms: nat -> nat, q: nat)
    requires q < |st.pcbs| && !st.pcbs[q].ready
    ensures var st' := RestartAll(st, randoms);
            |st'.pcbs| == |st.pcbs| && st'.pcbs[q] == st.pcbs[q] && !Present(st'.tx, q)
  {
    hide ProbeFirst;
    assert !Present([], q);
    ProbeFirstApart(st.(tx := []), |st.pcbs|, st.services, true, true, randoms, q);
  }

  lemma HandleApart(st: State, p: Packet, q: nat)
    requires p.pcb < |st.pcbs| && q < |st.pcbs| && p.pcb != q
    ensures Apart(st, HandlePacket(st, p), q)
  {
    hide Insert, FromProbe, Quiet, UnicastFlags, Present;
    var a := BlankPacket(st.nextId, p.pcb).(answers := FromProbe([], p.servers));
    InsertPresent(st.tx, p.(questions := Quiet(p.questions)).(sendAt := st.now + 250), q);
    InsertPresent(st.tx, p.(sendAt := st.now + 250), q);
    InsertPresent(st.tx, a.(sendAt := st.now + 250), q);
    InsertPresent(st.tx, p.(sendAt := st.now + 1000), q);
  }

  /** Handling a packet keeps its control block going. */
  lemma HandleSelf(st: State, p: Packet)
    requires p.pcb < |st.pcbs|
    requires var pcb := st.pcbs[p.pcb]; (pcb.probeServices != [] || pcb.probeRunning) ==> pcb.state.Probing()
    ensures |HandlePacket(st, p).pcbs| == |st.pcbs| && Whole(HandlePacket(st, p), p.pcb)
  {
    hide HandlePacket, Insert, FromProbe, Quiet, UnicastFlags, Present;
    var q, state := p.pcb, st.pcbs[p.pcb].state;
    if state.Probe1? || state.Probe2? {
      HandleProbeIs(st, p);
      var p1 := if state.Probe1? then p.(questions := Quiet(p.questions)) else p;
      InsertPresent(st.tx, p1.(sendAt := st.now + 250), q);
    } else if state.Probe3? {
      HandleLastProbeIs(st, p);
      InsertPresent(st.tx, BlankPacket(st.nextId, q).(answers := FromProbe([], p.servers)).(sendAt := st.now + 250), q);
    } else {
      HandleRest(st, p);
      InsertPresent(st.tx, p.(sendAt := st.now + 1000), q);
    }
  }

  /** `HandlePacket` once probing is over. */
  lemma HandleRest(st: State, p: Packet)
    requires p.pcb < |st.pcbs| && !st.pcbs[p.pcb].state.Probing()
    ensures var st' := HandlePacket(st, p); var pcb, pcb' := st.pcbs[p.pcb], st'.pcbs[p.pcb];
            && |st'.pcbs| == |st.pcbs| && pcb' == pcb.(state := pcb'.state) && !pcb'.state.Probing()
            && (pcb'.state.Announcing() ==> st'.tx == Insert(st.tx, p.(sendAt := st.now + 1000)))
  {
    hide Insert, UnicastFlags;
  }

  lemma PoppedPresent(tx: seq<Packet>, q: nat)
    requires tx != [] && tx[0].pcb != q
    ensures Present(tx[1..], q) <==> Present(tx, q)
  {
    assert tx == [tx[0]] + tx[1..];
  }

  lemma ExecuteApart(st: State, q: nat)
    requires q < |st.pcbs| && (st.tx != [] ==> st.tx[0].pcb != q)
    ensures Apart(st, ExecuteNext(st), q)
  {
    hide HandlePacket, Present;
    if st.tx != [] && st.tx[0].pcb < |st.pcbs| && st.pending != [] {
      PoppedPresent(st.tx, q);
      HandleApart(st.(tx := st.tx[1..], pending := st.pending[1..]), st.tx[0].(queued := false), q);
    }
  }

  lemma RespondApart(st: State, r: nat, response: Packet, delay: nat, q: nat)
    requires r < |st.pcbs| && q < |st.pcbs|
    ensures var st' := Respond(st, r, response, delay);
            && |st'.pcbs| == |st.pcbs| && st'.partner == st.partner && st'.pcbs[q] == st.pcbs[q]
            && (Present(st.tx, q) ==> Present(st'.tx, q))
            && (Present(st'.tx, q) ==> Present(st.tx, q) || (r == q && st.pcbs[q].state.Rank() > Probe3.Rank()))
  {
    hide Insert, Present;
    InsertPresent(st.tx, response.(id := st.nextId, pcb := r, queued := false).(sendAt := st.now + delay), q);
  }

  // ---- Being up and being down ----

  ghost predicate KeepsReady(st: State, st': State) {
    |st'.pcbs| == |st.pcbs| && forall q :: 0 <= q < |st.pcbs| && st.pcbs[q].ready ==> st'.pcbs[q].ready
  }

  lemma {:induction false} ProbeFirstReady(st: State, n: nat, services: seq<Service>, probeIp: bool, clearOld: bool, random: nat -> nat)
    requires n <= |st.pcbs|
    ensures KeepsReady(st, ProbeFirst(st, n, services, probeIp, clearOld, random))
  {
    hide InitProbe;
    if n > 0 {
      ProbeFirstReady(st, n - 1, services, probeIp, clearOld, random);
      var mid := ProbeFirst(st, n - 1, services, probeIp, clearOld, random);
      var pcb := mid.pcbs[n - 1];
      var st1 := if clearOld then mid.(pcbs := mid.pcbs[n - 1 := pcb.(probeServices := [], probeRunning := false)]) else mid;
      InitProbeReady(st1, n - 1, services, probeIp, random(n - 1));
    }
  }

  lemma InitProbeReady(st: State, q: nat, services: seq<Service>, probeIp: bool, random: nat)
    requires q < |st.pcbs|
    ensures KeepsReady(st, InitProbe(st, q, services, probeIp, random))
  {
    hide Insert, Without, ProbePacket, Fresh;
  }

  lemma AnnounceReady(st: State, q: nat, services: seq<Service>, withIp: bool, random: nat)
    requires q < |st.pcbs|
    ensures KeepsReady(st, Announce(st, q, services, withIp, random))
  {
    hide Insert, Without, ProbePacket, Fresh, Merge, AnnouncePacket, FirstOf;
  }

  lemma {:induction false} AnnounceFirstReady(st: State, n: nat, services: seq<Service>, withIp: bool, random: nat -> nat)
    requires n <= |st.pcbs|
    ensures KeepsReady(st, AnnounceFirst(st, n, services, withIp, random))
  {
    hide Announce;
    if n > 0 {
      AnnounceFirstReady(st, n - 1, services, withIp, random);
      AnnounceReady(AnnounceFirst(st, n - 1, services, withIp, random), n - 1, services, withIp, random(n - 1));
    }
  }

  lemma AmbientReady(st: State, a: Action)
    requires Shaped(st) && Enabled(st, a) && (Ambient(a) || a.HostnameSet? || a.QuerySeen?)
    ensures KeepsReady(st, Step(st, a))
  {
    hide Timer, Announce, ProbeFirst, AnnounceFirst, DropScheduledAnswer, PacketMentionsOnly, Subset, NoDuplicates, Insert;
    var all := |st.pcbs|;
    match a
    case Clock(_) =>
    case Tick(room) => TimerKeeps(st, room);
    case AnnounceIf(r, random) => AnnounceReady(st, r, [], true, random);
    case HostnameSet(r) => ProbeFirstReady(st.(hostSet := true, tx := []), all, st.services, true, true, r);
    case InstanceSet(none, r) => ProbeFirstReady(st, all, none, false, true, r);
    case ServiceAdd(s, r) => ProbeFirstReady(st.(services := [s] + st.services), all, [s], false, false, r);
    case ServiceInstanceSet(s, r) => ProbeFirstReady(st, all, [s], false, false, r);
    case ServicePortSet(s, r) => AnnounceFirstReady(st, all, [s], true, r);
    case ServiceTxtSet(s, r) => AnnounceFirstReady(st, all, [s], false, r);
    case AnswerSeen(_, _, _) =>
    case QuerySeen(_, _, _) =>
  }

  lemma ExecuteReady(st: State)
    ensures KeepsReady(st, ExecuteNext(st))
  {
    hide Insert, FromProbe, Quiet, UnicastFlags;
  }

  lemma EnableSelf(st: State, q: nat, initOk: bool, random: nat)
    requires q < |st.pcbs|
    ensures var st' := Enable(st, q, initOk, random);
            && KeepsReady(st, st') && st'.partner == st.partner
            && (st.pcbs[q].ready || initOk ==> st'.pcbs[q].ready)
            && (!st.pcbs[q].ready && !initOk ==> st' == st.(pcbs := st.pcbs[q := st.pcbs[q].(failedProbes := 0)]))
  {
    hide Insert, Without, ProbePacket, Fresh;
  }

  // ---- An interface rests until a conflict is processed on it while it is down ----

  lemma ConflictReady(st: State, a: Action)
    requires Shaped(st) && Enabled(st, a) && (a.SrvConflict? || a.TxtConflict? || a.AddressConflict?)
    ensures KeepsReady(st, Step(st, a))
  {
    hide Insert, Without, ProbePacket, Fresh, ProbeFirst, PacketMentionsOnly, Subset, NoDuplicates;
    var all := |st.pcbs|;
    var counted := CountFailure(st, a.q);
    match a
    case SrvConflict(q, s, rename, r) =>
      ProbeFirstReady(counted, all, [s], false, false, r);
      ProbeFirstReady(counted.(tx := []), all, st.services, true, true, r);
      if rename.RenameInstance? {
        ProbeFirstReady(counted, all, rename.noInstance, false, true, r);
      }
    case TxtConflict(_, _, _) =>
    case AddressConflict(q, r) => ProbeFirstReady(counted.(tx := []), all, st.services, true, true, r);
  }

  /** A conflict on another interface, or while probing: everything is restarted, or this interface is left alone. */
  lemma ConflictElsewhere(st: State, a: Action, q: nat)
    requires Shaped(st) && Enabled(st, a) && (a.SrvConflict? || a.TxtConflict? || a.AddressConflict?)
    requires q < |st.pcbs| && !st.pcbs[q].ready && (a.q != q || st.pcbs[q].probeRunning)
    ensures var st' := Step(st, a);
            var restarts := st.pcbs[a.q].probeRunning && (a.AddressConflict? || (a.SrvConflict? && a.rename.RenameHost?));
            && |st'.pcbs| == |st.pcbs| && st'.pcbs[q] == st.pcbs[q].(failedProbes := st'.pcbs[q].failedProbes)
            && (if restarts then !Present(st'.tx, q) else Present(st'.tx, q) <==> Present(st.tx, q))
  {
    hide InitProbe, ProbeFirst, RestartAll, Present, PacketMentionsOnly, Subset, NoDuplicates;
    var all := |st.pcbs|;
    var counted := CountFailure(st, a.q);
    if !st.pcbs[a.q].probeRunning {
      match a {
        case SrvConflict(r, s, _, randoms) => InitProbeApart(st, r, [s], false, randoms(r), q);
        case TxtConflict(r, s, random) => InitProbeApart(st, r, [s], true, random, q);
        case AddressConflict(r, randoms) => InitProbeApart(st, r, [], true, randoms(r), q);
      }
    } else {
      match a {
        case SrvConflict(r, s, RenameService, randoms) => ProbeFirstApart(counted, all, [s], false, false, randoms, q);
        case SrvConflict(r, s, RenameInstance(none), randoms) => ProbeFirstApart(counted, all, none, false, true, randoms, q);
        case SrvConflict(r, s, RenameHost, randoms) => RestartDown(counted, randoms, q);
        case AddressConflict(r, randoms) => RestartDown(counted, randoms, q);
        case TxtConflict(_, _, _) =>
      }
    }
  }

  /** A conflict on an interface that is down and not probing starts a probe there, or marks it running. */
  lemma ConflictHere(st: State, a: Action)
    requires Shaped(st) && Enabled(st, a) && (a.SrvConflict? || a.TxtConflict? || a.AddressConflict?)
    requires !st.pcbs[a.q].probeRunning
    ensures var st' := Step(st, a);
            |st'.pcbs| == |st.pcbs| && st'.pcbs[a.q].ready == st.pcbs[a.q].ready
            && (st'.pcbs[a.q].state.Running? || st'.pcbs[a.q].state.Probe1?)
            && (st'.pcbs[a.q].state.Running? ==>
                  st'.pcbs[a.q].probeServices == st.pcbs[a.q].probeServices && !st'.pcbs[a.q].probeRunning)
            && (st'.pcbs[a.q].state.Probe1? ==> Present(st'.tx, a.q))
  {
    hide Insert, Without, ProbePacket, Fresh, Present, PacketMentionsOnly, Subset, NoDuplicates;
    var q, pcb := a.q, st.pcbs[a.q];
    var (services, probeIp, random) :=
      match a
      case SrvConflict(_, s, _, r) => ([s], false, r(q))
      case TxtConflict(_, s, r) => ([s], true, r)
      case AddressConflict(_, r) => ([], true, r(q));
    var all := Probed(pcb, if pcb.state.CountsAsProbing() then Fresh(services, pcb.probeServices) else services);
    var p := ProbePacket(st.nextId, q, all, pcb.probeIp || probeIp);
    ProbePacketOf(st.nextId, q, all, pcb.probeIp || probeIp);
    InsertPresent(Without(st.tx, q), p.(sendAt := st.now + ProbeDelay(pcb.failedProbes, random)), q);
  }

  lemma DisableRests(st: State, r: nat, initOk: bool, random: nat, q: nat)
    requires Shaped(st) && r < |st.pcbs| && OtherPcb(st, r) != Some(r) && UpOrResting(st, q)
    ensures UpOrResting(Disable(st, r, initOk, random), q)
  {
    hide Enable, Without, Present;
    if st.pcbs[r].ready {
      var off := st.(tx := Without(st.tx, r), pcbs := st.pcbs[r := OFFLINE]);
      WithoutPresent(st.tx, r, q);
      assert UpOrResting(off, q);
      var other := OtherPcb(st, r);
      if other.Some? && off.pcbs[other.value].state.Dup? {
        var o := other.value;
        var mid := off.(pcbs := off.pcbs[o := off.pcbs[o].(state := Off)]);
        EnableSelf(mid, o, initOk, random);
        if q != o {
          EnableApart(mid, o, initOk, random, q);
        }
        EnableApart(mid, o, initOk, random, r);
      }
    }
  }

  lemma DupOneRests(st: State, r: nat, random: nat, q: nat)
    requires Shaped(st) && r < |st.pcbs| && OtherPcb(st, r) != Some(r) && UpOrResting(st, q)
    ensures UpOrResting(DupOne(st, r, random), q)
  {
    hide Announce, Without, Present;
    var other := OtherPcb(st, r);
    if other.Some? && st.pcbs[other.value].ready {
      var o := other.value;
      var st1 := if st.pcbs[r].ready then st.(tx := Without(st.tx, r), pcbs := st.pcbs[r := OFFLINE]) else st;
      WithoutPresent(st.tx, r, q);
      var st2 := st1.(pcbs := st1.pcbs[r := st1.pcbs[r].(state := Dup)]);
      assert UpOrResting(st2, q);
      AnnounceReady(st2, o, [], true, random);
      if q != o {
        AnnounceApart(st2, o, [], true, random, q);
      }
    }
  }

  lemma RemovalPresent(st: State, a: Action, known: seq<Service>, q: nat)
    requires Inv(st, known) && Shaped(st) && (a.ServiceDelete? || a.ServicesClearAll?)
    ensures Present(Step(st, a).tx, q) ==> Present(st.tx, q)
  {
    hide Inv, RemoveScheduled, RemoveEach;
    if a.ServicesClearAll? {
      RemoveEachPresent(st.(services := []), st.services, q);
    } else {
      var i := IndexOf(st.services, a.s);
      if i < |st.services| {
        RemoveScheduledPresent(st.(services := st.services[..i] + st.services[i + 1..]), a.s, q);
      }
    }
  }

  lemma RemoveScheduledPresent(st: State, s: Service, q: nat)
    ensures Present(RemoveScheduled(st, s).tx, q) ==> Present(st.tx, q)
  {
    hide PurgeQueue, Shrunk;
    PurgeShrinks(st.pcbs, st.tx, s);
    if Present(RemoveScheduled(st, s).tx, q) {
      var x :| x in RemoveScheduled(st, s).tx && x.pcb == q;
      ShrunkMember(st.tx, RemoveScheduled(st, s).tx, x);
    }
  }

  lemma {:induction false} RemoveEachPresent(st: State, services: seq<Service>, q: nat)
    ensures Present(RemoveEach(st, services).tx, q) ==> Present(st.tx, q)
    decreases |services|
  {
    hide Present, RemoveScheduled;
    if services != [] {
      RemoveScheduledPresent(st, services[0], q);
      RemoveEachPresent(RemoveScheduled(st, services[0]), services[1..], q);
    }
  }

  lemma RemovalRests(st: State, a: Action, known: seq<Service>, q: nat)
    requires Inv(st, known) && Shaped(st) && (a.ServiceDelete? || a.ServicesClearAll?) && UpOrResting(st, q)
    ensures UpOrResting(Step(st, a), q)
  {
    hide Inv, Step, Present;
    RemovalRids(st, a, known);
    RemovalPresent(st, a, known, q);
  }

  /**
   A control block that is up or at rest is so after an action too, exactly if the action is not a conflict
   found on it while it is down.
   */
  lemma RestsExactly(st: State, a: Action, q: nat, known: seq<Service>)
    requires Inv(st, known) && Shaped(st) && Enabled(st, a) && UpOrResting(st, q)
    ensures UpOrResting(Step(st, a), q) <==> !(ConflictOn(a, q) && !st.pcbs[q].ready)
  {
    hide Step, Enabled, Shaped, Present, ThreeProbesFirst, PacketMentionsOnly, AllLife, Subset;
    if a.SrvConflict? || a.TxtConflict? || a.AddressConflict? {
      ConflictRestsExactly(st, a, q);
    } else if a.ServiceDelete? || a.ServicesClearAll? {
      RemovalRests(st, a, known, q);
    } else if a.EnableIf? || a.DisableIf? || a.OwnAddressSeen? {
      InterfaceRests(st, a, q);
    } else if a.TxHandle? {
      ExecuteRests(st, a, q);
    } else if st.pcbs[q].ready {
      AmbientReady(st, a);
    } else if Ambient(a) {
      AmbientApart(st, a, q);
    } else {
      QuietRests(st, a, q);
    }
  }

  lemma ConflictRestsExactly(st: State, a: Action, q: nat)
    requires Shaped(st) && Enabled(st, a) && (a.SrvConflict? || a.TxtConflict? || a.AddressConflict?) && UpOrResting(st, q)
    ensures UpOrResting(Step(st, a), q) <==> !(ConflictOn(a, q) && !st.pcbs[q].ready)
  {
    hide Step, Enabled, Shaped, Present;
    if st.pcbs[q].ready {
      ConflictReady(st, a);
    } else if a.q == q {
      ConflictHere(st, a);
    } else {
      ConflictElsewhere(st, a, q);
    }
  }

  lemma InterfaceRests(st: State, a: Action, q: nat)
    requires Shaped(st) && Enabled(st, a) && (a.EnableIf? || a.DisableIf? || a.OwnAddressSeen?) && UpOrResting(st, q)
    ensures UpOrResting(Step(st, a), q)
  {
    hide Enable, Disable, DupOne, Present;
    match a
    case EnableIf(r, initOk, random) =>
      EnableSelf(st, r, initOk, random);
      if r != q {
        EnableApart(st, r, initOk, random, q);
      }
    case DisableIf(r, initOk, random) => DisableRests(st, r, initOk, random, q);
    case OwnAddressSeen(i, randoms) =>
      DupOneRests(st, 2 * i, randoms(0), q);
      DupOneStays(st, 2 * i, randoms(0), q);
      DupOneRests(DupOne(st, 2 * i, randoms(0)), 2 * i + 1, randoms(1), q);
  }

  lemma ExecuteRests(st: State, a: Action, q: nat)
    requires Shaped(st) && Enabled(st, a) && a.TxHandle? && UpOrResting(st, q)
    ensures UpOrResting(Step(st, a), q)
  {
    hide ExecuteNext;
    ExecuteReady(st);
    if !st.pcbs[q].ready {
      assert st.tx != [] ==> st.tx[0] in st.tx;
      ExecuteApart(st, q);
    }
  }

  lemma QuietRests(st: State, a: Action, q: nat)
    requires Shaped(st) && Enabled(st, a) && (a.HostnameSet? || a.QuerySeen?) && UpOrResting(st, q) && !st.pcbs[q].ready
    ensures UpOrResting(Step(st, a), q)
  {
    hide RestartAll, Respond, Present, PacketMentionsOnly;
    match a
    case HostnameSet(randoms) => RestartDown(st.(hostSet := true), randoms, q);
    case QuerySeen(r, response, delay) => RespondApart(st, r, response, delay, q);
  }

  /** No conflict has been processed on control block `q` while it was down. */
  ghost predicate Undisturbed(states: seq<State>, actions: seq<Action>, i: nat, q: nat)
    requires |states| == |actions| + 1 && i <= |actions|
  {
    forall j :: 0 <= j < i && q < |states[j].pcbs| ==> !(ConflictOn(actions[j], q) && !states[j].pcbs[q].ready)
  }

  /** On every run an undisturbed interface follows the whole life cycle; while it is down nothing is probed or scheduled for it. */
  lemma {:induction false} UndisturbedRests(states: seq<State>, actions: seq<Action>, i: nat, q: nat)
    requires IsRun(states, actions) && i < |states| && q < |states[i].pcbs| && Undisturbed(states, actions, i, q)
    ensures UpOrResting(states[i], q) && Cycle(states[i], q)
  {
    hide Inv, Step, Enabled, Shaped, UpOrResting, Cycle;
    if i == 0 {
      StartRests(states[0], q);
    } else {
      StepOf(states, actions, i - 1);
      RunInv(states, actions, i - 1);
      StepSize(states[i - 1], actions[i - 1]);
      UndisturbedRests(states, actions, i - 1, q);
      RestsExactly(states[i - 1], actions[i - 1], q, Registered(actions[..i - 1]));
    }
    RunInv(states, actions, i);
    RestCycle(states[i], q, Registered(actions[..i]));
  }

  /** As long as no conflict is processed on an interface that is down, removed services are gone. */
  lemma UndisturbedTidy(states: seq<State>, actions: seq<Action>, n: nat)
    requires IsRun(states, actions) && n < |states| && forall q: nat :: Undisturbed(states, actions, n, q)
    ensures forall j :: 0 <= j <= n ==> Tidy(states[j])
  {
    hide Step, Enabled, Shaped, Tidy, LeavesDangling, Present;
    forall j | 0 <= j < n ensures !LeavesDangling(states[j], actions[j]) {
      forall q: nat | q < |states[j].pcbs| ensures UpOrResting(states[j], q) {
        assert Undisturbed(states, actions, n, q);
        UndisturbedRests(states, actions, j, q);
      }
      NoneDangling(states[j], actions[j]);
    }
    RemovalIsComplete(states, actions, n);
  }

  lemma NoneDangling(st: State, a: Action)
    requires forall q: nat :: q < |st.pcbs| ==> UpOrResting(st, q)
    ensures !LeavesDangling(st, a)
  {
    hide Present;
    forall q | 0 <= q < |st.pcbs| && !st.pcbs[q].ready ensures st.pcbs[q].probeServices == [] {
      assert UpOrResting(st, q);
    }
  }

  lemma StartRests(st: State, q: nat)
    requires (exists partner :: st == Start(partner)) && q < |st.pcbs|
    ensures UpOrResting(st, q)
  {
  }

  lemma RestCycle(st: State, q: nat, known: seq<Service>)
    requires Inv(st, known) && UpOrResting(st, q)
    ensures Cycle(st, q)
  {
    hide Inv, Present, Cycle;
    if st.pcbs[q].ready {
      UpCycle(st, q, known);
    } else {
      CycleIsWhole(st, q, known);
    }
  }

  // ---- When the life cycle breaks ----

  /** A packet of an interface that is down, without the answers about a service. */
  function Purged(p: Packet, s: Service): Packet {
    p.(answers := DropService(p.answers, s), additional := DropService(p.additional, s), servers := DropService(p.servers, s))
  }

  lemma {:induction false} PurgeKeepsDown(pcbs: seq<Pcb>, tx: seq<Packet>, s: Service, p: Packet)
    requires p in tx && p.pcb < |pcbs| && !pcbs[p.pcb].ready && !Purged(p, s).IsEmpty()
    ensures Purged(p, s) in PurgeQueue(pcbs, tx, s).1
    decreases |tx|
  {
    assert tx == [tx[0]] + tx[1..];
    if p != tx[0] {
      if tx[0].pcb >= |pcbs| {
        PurgeKeepsDown(pcbs, tx[1..], s, p);
      } else {
        PurgeKeepsDown(pcbs[tx[0].pcb := Purge(pcbs[tx[0].pcb], tx[0], s).0], tx[1..], s, p);
      }
    }
  }

  lemma {:induction false} PurgeComesFrom(pcbs: seq<Pcb>, tx: seq<Packet>, s: Service, x: Packet) returns (p: Packet)
    requires x in PurgeQueue(pcbs, tx, s).1 && x.pcb < |pcbs| && !pcbs[x.pcb].ready
    ensures p in tx && p.pcb == x.pcb && x == Purged(p, s) && !x.IsEmpty()
    decreases |tx|
  {
    assert tx == [tx[0]] + tx[1..];
    if tx[0].pcb >= |pcbs| {
      p := PurgeComesFrom(pcbs, tx[1..], s, x);
    } else {
      var (pcb, h) := Purge(pcbs[tx[0].pcb], tx[0], s);
      if x == h && !h.IsEmpty() {
        p := tx[0];
      } else {
        p := PurgeComesFrom(pcbs[tx[0].pcb := pcb], tx[1..], s, x);
      }
    }
  }

  lemma PurgedLists(p: Packet, s: Service)
    ensures forall b :: b in Purged(p, s).answers + Purged(p, s).servers + Purged(p, s).additional <==>
                        b in p.answers + p.servers + p.additional && b.svc != Some(s)
  {
    DropServiceMembers(p.answers, s);
    DropServiceMembers(p.servers, s);
    DropServiceMembers(p.additional, s);
  }

  lemma PurgedEmpty(p: Packet, s: Service)
    ensures Purged(p, s).IsEmpty() <==> About(p, [s])
  {
    var x := Purged(p, s);
    PurgedLists(p, s);
    var left := x.answers + x.servers + x.additional;
    FirstMember(left);
    if About(p, [s]) {
      assert forall b :: b !in left;
    }
  }

  lemma PurgedAbout(p: Packet, s: Service, rest: seq<Service>)
    ensures About(Purged(p, s), rest) ==> About(p, [s] + rest)
    ensures About(p, [s] + rest) ==> About(Purged(p, s), rest)
    ensures About(p, [s]) ==> About(p, [s] + rest)
  {
    PurgedLists(p, s);
  }

  /** What is scheduled for an interface that is down vanishes with a service if it is about nothing else. */
  lemma RemoveScheduledPresentExactly(st: State, s: Service, q: nat)
    requires q < |st.pcbs| && !st.pcbs[q].ready
    ensures Present(RemoveScheduled(st, s).tx, q) <==> !OnlyAbout(st.tx, q, [s])
  {
    hide PurgeQueue, Purged, About;
    var tx' := RemoveScheduled(st, s).tx;
    if Present(tx', q) {
      var x :| x in tx' && x.pcb == q;
      var p := PurgeComesFrom(st.pcbs, st.tx, s, x);
      PurgedEmpty(p, s);
    }
    if !OnlyAbout(st.tx, q, [s]) {
      var p :| p in st.tx && p.pcb == q && !About(p, [s]);
      PurgedEmpty(p, s);
      PurgeKeepsDown(st.pcbs, st.tx, s, p);
      PurgedSlot(p, s);
    }
  }

  lemma PurgedSlot(p: Packet, s: Service)
    ensures Purged(p, s).pcb == p.pcb
  {
  }

  lemma RemoveScheduledAbout(st: State, s: Service, rest: seq<Service>, q: nat)
    requires q < |st.pcbs| && !st.pcbs[q].ready
    ensures OnlyAbout(RemoveScheduled(st, s).tx, q, rest) <==> OnlyAbout(st.tx, q, [s] + rest)
  {
    hide PurgeQueue, Purged, About;
    var tx' := RemoveScheduled(st, s).tx;
    if OnlyAbout(tx', q, rest) {
      forall p | p in st.tx && p.pcb == q ensures About(p, [s] + rest) {
        PurgedEmpty(p, s);
        PurgedAbout(p, s, rest);
        PurgedSlot(p, s);
        if !About(p, [s]) {
          PurgeKeepsDown(st.pcbs, st.tx, s, p);
        }
      }
    }
    if OnlyAbout(st.tx, q, [s] + rest) {
      forall x | x in tx' && x.pcb == q ensures About(x, rest) {
        var p := PurgeComesFrom(st.pcbs, st.tx, s, x);
        PurgedAbout(p, s, rest);
      }
    }
  }

  lemma {:induction false} RemoveEachPresentExactly(st: State, services: seq<Service>, q: nat)
    requires q < |st.pcbs| && !st.pcbs[q].ready && services != []
    ensures Present(RemoveEach(st, services).tx, q) <==> !OnlyAbout(st.tx, q, services)
    decreases |services|
  {
    hide Present, OnlyAbout, RemoveScheduled;
    var s, rest := services[0], services[1..];
    assert services == [s] + rest;
    var mid := RemoveScheduled(st, s);
    if rest == [] {
      assert services == [s] && RemoveEach(mid, rest) == mid;
      RemoveScheduledPresentExactly(st, s, q);
    } else {
      RemoveScheduledStays(st, s);
      RemoveScheduledDown(st, s, q);
      RemoveScheduledAbout(st, s, rest, q);
      RemoveEachPresentExactly(mid, rest, q);
    }
  }

  lemma RemoveScheduledDown(st: State, s: Service, q: nat)
    requires q < |st.pcbs| && !st.pcbs[q].ready
    ensures RemoveScheduled(st, s).pcbs[q] == st.pcbs[q]
  {
    PurgeDown(st.pcbs, st.tx, s, q);
  }

  /** The removal of services, seen from an interface that is down. */
  lemma RemovalBreaks(st: State, a: Action, q: nat, known: seq<Service>)
    requires Inv(st, known) && Shaped(st) && (a.ServiceDelete? || a.ServicesClearAll?)
    requires q < |st.pcbs| && !st.pcbs[q].ready && Whole(st, q)
    ensures |Step(st, a).pcbs| == |st.pcbs| && (Whole(Step(st, a), q) <==> !Breaks(st, a, q))
  {
    hide ServiceDel, RemoveEach, Present, ThreeProbesFirst, Agreement, PacketMentionsOnly, OnlyAbout;
    RemovalRids(st, a, known);
    var gone := if a.ServicesClearAll? then st.services else [a.s];
    if gone == [] || (a.ServiceDelete? && a.s !in st.services) {
      if a.ServicesClearAll? {
        ClearNothing(st);
      }
    } else {
      RemovalPresentIs(st, a, q);
      if st.pcbs[q].state.Probing() && Present(st.tx, q) {
        StillAsked(st, q, gone);
      }
    }
  }

  lemma ClearNothing(st: State)
    requires st.services == []
    ensures ServicesClear(st) == st
  {
  }

  lemma RemovalPresentIs(st: State, a: Action, q: nat)
    requires Shaped(st) && (a.ServiceDelete? || a.ServicesClearAll?) && q < |st.pcbs| && !st.pcbs[q].ready
    requires if a.ServicesClearAll? then st.services != [] else a.s in st.services
    ensures var gone := if a.ServicesClearAll? then st.services else [a.s];
            Present(Step(st, a).tx, q) <==> !OnlyAbout(st.tx, q, gone)
  {
    hide Present, OnlyAbout, RemoveScheduled, RemoveEach;
    if a.ServicesClearAll? {
      RemoveEachPresentExactly(st.(services := []), st.services, q);
    } else {
      IndexOfFound(st.services, a.s);
      var i := IndexOf(st.services, a.s);
      RemoveScheduledPresentExactly(st.(services := st.services[..i] + st.services[i + 1..]), a.s, q);
    }
  }

  /** The packet of a probe asks something, whatever its answers are about. */
  lemma StillAsked(st: State, q: nat, gone: seq<Service>)
    requires q < |st.pcbs| && Life(st, q) && st.pcbs[q].state.Probing() && Present(st.tx, q)
    ensures !OnlyAbout(st.tx, q, gone)
  {
    hide AsksEnough, Progress, Since, Sound;
    var p :| p in st.tx && p.pcb == q;
    ProbeAsks(p, st.pcbs[q]);
  }

  lemma ConflictBreaks(st: State, a: Action, q: nat)
    requires Shaped(st) && Enabled(st, a) && (a.SrvConflict? || a.TxtConflict? || a.AddressConflict?)
    requires q < |st.pcbs| && !st.pcbs[q].ready && Whole(st, q) && Sound(st.pcbs[q])
    ensures |Step(st, a).pcbs| == |st.pcbs| && (Whole(Step(st, a), q) <==> !Breaks(st, a, q))
  {
    hide Step, Enabled, Present;
    if a.q == q && !st.pcbs[q].probeRunning {
      ConflictHere(st, a);
    } else {
      assert a.q < |st.pcbs| by { ConflictNames(st, a); }
      ConflictElsewhere(st, a, q);
    }
  }

  lemma ConflictNames(st: State, a: Action)
    requires Enabled(st, a) && (a.SrvConflict? || a.TxtConflict? || a.AddressConflict?)
    ensures a.q < |st.pcbs|
  {
  }

  lemma ExecuteBreaks(st: State, a: Action, q: nat)
    requires Shaped(st) && Enabled(st, a) && a.TxHandle? && q < |st.pcbs| && Whole(st, q)
    ensures |Step(st, a).pcbs| == |st.pcbs| && Whole(Step(st, a), q)
  {
    hide HandlePacket, Present;
    if st.tx == [] || st.tx[0].pcb != q {
      ExecuteApart(st, q);
    } else if st.pending != [] && st.tx[0].id == st.pending[0] && st.tx[0].queued {
      HandleSelf(st.(tx := st.tx[1..], pending := st.pending[1..]), st.tx[0].(queued := false));
    }
  }

  lemma DisableElsewhere(st: State, r: nat, initOk: bool, random: nat, q: nat)
    requires Shaped(st) && r < |st.pcbs| && q < |st.pcbs| && r != q && !st.pcbs[q].ready && OtherPcb(st, r) != Some(r)
    ensures var st' := Disable(st, r, initOk, random); var pcb, pcb' := st.pcbs[q], st'.pcbs[q];
            |st'.pcbs| == |st.pcbs| && (pcb'.ready || (Present(st'.tx, q) <==> Present(st.tx, q)))
            && (pcb'.ready || pcb' == pcb || (pcb.state.Dup? && pcb' == pcb.(state := Off, failedProbes := 0)))
  {
    hide Enable, Without, Present;
    if st.pcbs[r].ready {
      var off := st.(tx := Without(st.tx, r), pcbs := st.pcbs[r := OFFLINE]);
      WithoutPresent(st.tx, r, q);
      var other := OtherPcb(st, r);
      if other.Some? && off.pcbs[other.value].state.Dup? {
        var o := other.value;
        var mid := off.(pcbs := off.pcbs[o := off.pcbs[o].(state := Off)]);
        EnableSelf(mid, o, initOk, random);
        if q != o {
          EnableApart(mid, o, initOk, random, q);
        }
      }
    }
  }

  lemma DisableBreaks(st: State, a: Action, q: nat)
    requires Shaped(st) && Enabled(st, a) && a.DisableIf? && q < |st.pcbs| && !st.pcbs[q].ready && Whole(st, q) && Sound(st.pcbs[q])
    ensures var st' := Step(st, a);
            |st'.pcbs| == |st.pcbs| && if st'.pcbs[q].ready then !Breaks(st, a, q) else Whole(st', q) <==> !Breaks(st, a, q)
  {
    hide Enable, Without, Present;
    var DisableIf(r, initOk, random) := a;
    if r != q {
      hide Disable;
      DisableElsewhere(st, r, initOk, random, q);
    }
  }

  lemma DupOneBreaks(st: State, r: nat, random: nat, q: nat)
    requires Shaped(st) && r < |st.pcbs| && OtherPcb(st, r) != Some(r)
    requires q < |st.pcbs| && !st.pcbs[q].ready && Whole(st, q) && Sound(st.pcbs[q])
    ensures var st' := DupOne(st, r, random); var o := OtherPcb(st, r);
            && |st'.pcbs| == |st.pcbs| && !st'.pcbs[q].ready
            && (r != q ==> Apart(st, st', q))
            && (r == q ==> (Whole(st', q) <==> !(o.Some? && st.pcbs[o.value].ready && st.pcbs[q].state.Probing())))
  {
    hide Announce, Without, Present;
    var other := OtherPcb(st, r);
    if other.Some? && st.pcbs[other.value].ready {
      var o := other.value;
      var st1 := if st.pcbs[r].ready then st.(tx := Without(st.tx, r), pcbs := st.pcbs[r := OFFLINE]) else st;
      WithoutPresent(st.tx, r, q);
      AnnounceApart(st1.(pcbs := st1.pcbs[r := st1.pcbs[r].(state := Dup)]), o, [], true, random, q);
    }
  }

  lemma DupBreaks(st: State, a: Action, q: nat)
    requires Shaped(st) && Enabled(st, a) && a.OwnAddressSeen?
    requires q < |st.pcbs| && !st.pcbs[q].ready && Whole(st, q) && Sound(st.pcbs[q])
    ensures |Step(st, a).pcbs| == |st.pcbs| && (Whole(Step(st, a), q) <==> !Breaks(st, a, q))
  {
    hide DupOne, Present, Whole, Sound;
    var OwnAddressSeen(i, randoms) := a;
    var st1 := DupOne(st, 2 * i, randoms(0));
    DupOneBreaks(st, 2 * i, randoms(0), q);
    DupOneStays(st, 2 * i, randoms(0), q);
    DupReady(st, 2 * i, randoms(0), q);
    if q == 2 * i {
      DupOneApart(st1, 2 * i + 1, randoms(1), q);
      ApartWhole(st1, DupOne(st1, 2 * i + 1, randoms(1)), q);
    } else {
      ApartWhole(st, st1, q);
      DupOneBreaks(st1, 2 * i + 1, randoms(1), q);
      if q != 2 * i + 1 {
        ApartWhole(st1, DupOne(st1, 2 * i + 1, randoms(1)), q);
      }
    }
  }

  lemma DupOneApart(st: State, r: nat, random: nat, q: nat)
    requires Shaped(st) && r < |st.pcbs| && q < |st.pcbs| && !st.pcbs[q].ready && r != q && OtherPcb(st, r) != Some(r)
    ensures Apart(st, DupOne(st, r, random), q)
  {
    hide Announce, Without, Present;
    var other := OtherPcb(st, r);
    if other.Some? && st.pcbs[other.value].ready {
      var o := other.value;
      var st1 := if st.pcbs[r].ready then st.(tx := Without(st.tx, r), pcbs := st.pcbs[r := OFFLINE]) else st;
      WithoutPresent(st.tx, r, q);
      AnnounceApart(st1.(pcbs := st1.pcbs[r := st1.pcbs[r].(state := Dup)]), o, [], true, random, q);
    }
  }

  /** Yielding on one protocol does not change the interfaces of the other protocol. */
  lemma DupReady(st: State, r: nat, random: nat, q: nat)
    requires Shaped(st) && r < |st.pcbs| && OtherPcb(st, r) != Some(r)
    ensures var st' := DupOne(st, r, random);
            st'.partner == st.partner && |st'.pcbs| == |st.pcbs|
            && forall o :: 0 <= o < |st.pcbs| && o % 2 != r % 2 ==> st'.pcbs[o] == st.pcbs[o]
  {
    forall o | 0 <= o < |st.pcbs| && o % 2 != r % 2 ensures DupOne(st, r, random).pcbs[o] == st.pcbs[o] {
      DupOneStays(st, r, random, o);
    }
    DupOneStays(st, r, random, r);
  }

  /**
   On an interface that is down the life cycle breaks with exactly these actions: a restart of everything
   while it probes or announces, being disabled or yielding to a duplicate while it probes, and the
   removal of all that it announces.
   */
  lemma BreaksExactly(st: State, a: Action, q: nat, known: seq<Service>)
    requires Inv(st, known) && Shaped(st) && Enabled(st, a) && q < |st.pcbs| && !st.pcbs[q].ready && Cycle(st, q)
    ensures |Step(st, a).pcbs| == |st.pcbs| && (Cycle(Step(st, a), q) <==> !Breaks(st, a, q))
  {
    hide Inv, Step, Enabled, Shaped, Cycle, Whole, Breaks, Sound;
    StepSize(st, a);
    StepInv(st, a, known);
    var st', known' := Step(st, a), KnownAfter(known, a);
    CycleIsWhole(st, q, known);
    CycleIsWhole(st', q, known');
    InvSound(st, q, known);
    if st'.pcbs[q].ready {
      UpCycle(st', q, known');
    }
    if a.SrvConflict? || a.TxtConflict? || a.AddressConflict? {
      ConflictBreaks(st, a, q);
    } else if a.ServiceDelete? || a.ServicesClearAll? {
      RemovalBreaks(st, a, q, known);
    } else if a.TxHandle? {
      ExecuteBreaks(st, a, q);
      NeverBreaks(st, a, q);
    } else if a.OwnAddressSeen? {
      DupBreaks(st, a, q);
    } else if a.DisableIf? {
      DisableBreaks(st, a, q);
    } else if a.EnableIf? {
      EnableBreaks(st, a, q);
      NeverBreaks(st, a, q);
    } else if Ambient(a) {
      InvOrdered(st, known);
      AmbientApart(st, a, q);
      ApartWhole(st, st', q);
      NeverBreaks(st, a, q);
    } else {
      QuietBreaks(st, a, q);
    }
  }

  lemma InvSound(st: State, q: nat, known: seq<Service>)
    requires Inv(st, known) && q < |st.pcbs|
    ensures Sound(st.pcbs[q])
  {
    assert Life(st, q);
  }

  lemma InvOrdered(st: State, known: seq<Service>)
    requires Inv(st, known)
    ensures Ordered(st.tx)
  {
  }

  lemma NeverBreaks(st: State, a: Action, q: nat)
    requires q < |st.pcbs| && (Ambient(a) || a.TxHandle? || a.EnableIf? || a.QuerySeen?)
    ensures !Breaks(st, a, q)
  {
  }

  lemma EnableBreaks(st: State, a: Action, q: nat)
    requires Shaped(st) && Enabled(st, a) && a.EnableIf? && q < |st.pcbs| && !st.pcbs[q].ready && Whole(st, q)
    ensures var st' := Step(st, a); |st'.pcbs| == |st.pcbs| && (st'.pcbs[q].ready || Whole(st', q))
  {
    hide Enable, Present;
    var EnableIf(r, initOk, random) := a;
    EnableSelf(st, r, initOk, random);
    if r != q {
      EnableApart(st, r, initOk, random, q);
    }
  }

  lemma QuietBreaks(st: State, a: Action, q: nat)
    requires Shaped(st) && Enabled(st, a) && (a.HostnameSet? || a.QuerySeen?) && q < |st.pcbs| && !st.pcbs[q].ready && Whole(st, q)
    ensures |Step(st, a).pcbs| == |st.pcbs| && (Whole(Step(st, a), q) <==> !Breaks(st, a, q))
  {
    hide RestartAll, Respond, Present, PacketMentionsOnly;
    match a
    case HostnameSet(randoms) => RestartDown(st.(hostSet := true), randoms, q);
    case QuerySeen(r, response, delay) => RespondApart(st, r, response, delay, q);
  }

  // ---- A run on which it breaks ----

  /**
   An interface comes up and goes down again, a conflict about the host address is still processed on it,
   and a new host name leaves it probing with nothing scheduled.
   */
  lemma StuckProbe() returns (states: seq<State>, actions: seq<Action>)
    ensures IsRun(states, actions) && |actions| == 5
    ensures actions[2] == DisableIf(0, true, 0) && actions[3].AddressConflict? && ConflictOn(actions[3], 0)
    ensures |states[5].pcbs| == 2 && states[5].pcbs[0].state.Probing() && Own(states[5].tx, 0) == [] && !Cycle(states[5], 0)
    ensures |states[4].pcbs| == 2 && !states[4].pcbs[0].ready && Breaks(states[4], actions[4], 0)
  {
    hide Step, Enabled, Shaped, Inv, Reprobe, Enable, Disable, Breaks, Cycle;
    var st0 := Start([1]);
    var st1 := st0.(hostSet := true);
    var st2 := Enable(st1, 0, true, 0);
    UpAndDown();
    var st3 := Disable(st2, 0, true, 0);
    var st4 := Reprobe(st3, 0, [], true, 0);
    Stuck(st3);
    states := [st0, st1, st2, st3, st4, st4.(tx := [])];
    actions := [HostnameSet(NONE), EnableIf(0, true, 0), DisableIf(0, true, 0), AddressConflict(0, NONE), HostnameSet(NONE)];
    assert st0 == Start([1]);
  }

  lemma UpAndDown()
    ensures var st0 := Start([1]);
            var st1 := st0.(hostSet := true);
            var st2 := Enable(st1, 0, true, 0);
            && Shaped(st0) && Enabled(st0, HostnameSet(NONE)) && Step(st0, HostnameSet(NONE)) == st1
            && Shaped(st1) && Enabled(st1, EnableIf(0, true, 0)) && Step(st1, EnableIf(0, true, 0)) == st2
            && Shaped(st2) && Enabled(st2, DisableIf(0, true, 0)) && |st2.pcbs| == 2
            && var st3 := Disable(st2, 0, true, 0);
               Step(st2, DisableIf(0, true, 0)) == st3 && st3.hostSet && st3.services == [] && Shaped(st3)
               && |st3.pcbs| == 2 && st3.pcbs[0] == OFFLINE && !st3.pcbs[1].ready
  {
    hide ProbeFirst, ProbePacket, ProbeDelay, Insert, Without, Fresh, ThreeProbesFirst;
    var st1 := Start([1]).(hostSet := true);
    DownUntouched(st1, 2, [], true, true, NONE);
  }

  lemma Stuck(st: State)
    requires Shaped(st) && st.hostSet && st.services == [] && |st.pcbs| == 2 && st.pcbs[0] == OFFLINE && !st.pcbs[1].ready
    ensures Enabled(st, AddressConflict(0, NONE)) && Step(st, AddressConflict(0, NONE)) == Reprobe(st, 0, [], true, 0)
    ensures var st' := Reprobe(st, 0, [], true, 0);
            && Shaped(st') && |st'.pcbs| == 2 && !st'.pcbs[0].ready && st'.pcbs[0].state.Probing()
            && Enabled(st', HostnameSet(NONE)) && Step(st', HostnameSet(NONE)) == st'.(tx := [])
            && Breaks(st', HostnameSet(NONE), 0) && !Cycle(st'.(tx := []), 0)
  {
    hide ProbeFirst, ProbePacket, ProbeDelay, Insert, Without, Fresh;
    var st' := Reprobe(st, 0, [], true, 0);
    DownUntouched(st'.(tx := []), 2, [], true, true, NONE);
  }
}
