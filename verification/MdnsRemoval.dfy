/**
 Service removal on every run: what it leaves behind, when exactly a removed service stays in use, and
 a run on which it does.
 */
module MdnsRemoval {
  import opened Common
  import opened MdnsState
  import opened MdnsSpec
  import opened MdnsQueue
  import opened MdnsContents
  import opened MdnsLifecycle
  import opened MdnsSteps
  import opened MdnsRuns

  // ---- One removal ----

  /** `st'` is `st` without mention of `gone`: in the packets at all, in the probes of the interfaces that are up. */
  ghost predicate Rid(st: State, st': State, gone: seq<Service>) {
    && |st'.pcbs| == |st.pcbs|
    && (forall s, p :: s in gone && p in st'.tx ==> !p.Mentions(s))
    && (forall q :: 0 <= q < |st.pcbs| && !st.pcbs[q].ready ==> st'.pcbs[q] == st.pcbs[q])
    && (forall q :: 0 <= q < |st.pcbs| && st.pcbs[q].ready ==>
          st'.pcbs[q].ready && Subset(st'.pcbs[q].probeServices, st.pcbs[q].probeServices)
          && forall s :: s in gone ==> s !in st'.pcbs[q].probeServices)
  }

  lemma RemoveScheduledRid(st: State, s: Service, known: seq<Service>)
    requires Base(st, known) && AllLife(st)
    ensures Rid(st, RemoveScheduled(st, s), [s])
  {
    hide Base, AllLife, PurgeQueue;
    RemoveScheduledInv(st, s, known);
    forall q | 0 <= q < |st.pcbs| && !st.pcbs[q].ready ensures RemoveScheduled(st, s).pcbs[q] == st.pcbs[q] {
      PurgeDown(st.pcbs, st.tx, s, q);
    }
  }

  /** What is not mentioned before a removal is not mentioned after it. */
  lemma RemoveScheduledMentions(st: State, s: Service, u: Service)
    requires forall p :: p in st.tx ==> p.pcb < |st.pcbs| && !p.Mentions(u)
    ensures forall p :: p in RemoveScheduled(st, s).tx ==> p.pcb < |st.pcbs| && !p.Mentions(u)
  {
    hide PurgeQueue;
    forall x | x in RemoveScheduled(st, s).tx ensures x.pcb < |st.pcbs| && !x.Mentions(u) {
      PurgedMentions(st.pcbs, st.tx, s, u, x);
    }
  }

  lemma {:induction false} PurgedMentions(pcbs: seq<Pcb>, tx: seq<Packet>, s: Service, u: Service, x: Packet)
    requires forall p :: p in tx ==> p.pcb < |pcbs| && !p.Mentions(u)
    requires x in PurgeQueue(pcbs, tx, s).1
    ensures x.pcb < |pcbs| && !x.Mentions(u)
    decreases |tx|
  {
    assert tx == [tx[0]] + tx[1..];
    var (pcb, h) := Purge(pcbs[tx[0].pcb], tx[0], s);
    PurgedPacket(pcbs[tx[0].pcb], tx[0], s);
    if x != h {
      PurgedMentions(pcbs[tx[0].pcb := pcb], tx[1..], s, u, x);
    }
  }

  lemma {:induction false} RemoveEachMentions(st: State, services: seq<Service>, u: Service)
    requires forall p :: p in st.tx ==> p.pcb < |st.pcbs| && !p.Mentions(u)
    ensures forall p :: p in RemoveEach(st, services).tx ==> !p.Mentions(u)
    decreases |services|
  {
    hide RemoveScheduled;
    if services != [] {
      RemoveScheduledMentions(st, services[0], u);
      assert |RemoveScheduled(st, services[0]).pcbs| == |st.pcbs| by { RemoveScheduledStays(st, services[0]); }
      RemoveEachMentions(RemoveScheduled(st, services[0]), services[1..], u);
    }
  }

  lemma {:induction false} RemoveEachRid(st: State, services: seq<Service>, known: seq<Service>)
    requires Base(st, known) && AllLife(st)
    ensures Rid(st, RemoveEach(st, services), services)
    decreases |services|
  {
    hide AllLife, RemoveScheduled, Agreement, ThreeProbesFirst, PacketMentionsOnly;
    if services != [] {
      var mid := RemoveScheduled(st, services[0]);
      RemoveScheduledInv(st, services[0], known);
      RemoveScheduledRid(st, services[0], known);
      RemoveEachRid(mid, services[1..], known);
      assert services == [services[0]] + services[1..];
      assert services[0] in [services[0]];
      RemoveEachMentions(mid, services[1..], services[0]);
    }
  }

  /** The effect of an action that removes services. */
  lemma RemovalRids(st: State, a: Action, known: seq<Service>)
    requires Inv(st, known) && Shaped(st) && (a.ServiceDelete? || a.ServicesClearAll?)
    ensures var gone := if a.ServicesClearAll? then st.services else [a.s];
            && (a.ServiceDelete? && a.s !in st.services ==> Step(st, a) == st)
            && (a.ServiceDelete? ==> a.s in st.services || Step(st, a) == st)
            && (a.ServicesClearAll? || a.s in st.services ==> Rid(st, Step(st, a), gone))
            && (forall s :: s in Step(st, a).services <==> s in st.services && s !in gone)
  {
    hide Life, RemoveScheduled, Agreement, ThreeProbesFirst, PacketMentionsOnly, OfType, Rid, RemoveEach;
    if a.ServicesClearAll? {
      var st1 := st.(services := []);
      ServicesLife(st, st1);
      RemoveEachRid(st1, st.services, known);
      RemoveEachKeeps(st1, st.services);
      RidServices(st, st1, ServicesClear(st), st.services);
    } else {
      IndexOfFound(st.services, a.s);
      if a.s in st.services {
        RemoveAt(st.services, a.s);
        var i := IndexOf(st.services, a.s);
        var st1 := st.(services := st.services[..i] + st.services[i + 1..]);
        ServicesLife(st, st1);
        RemoveScheduledRid(st1, a.s, known);
        RemoveScheduledServices(st1, a.s);
        RidServices(st, st1, ServiceDel(st, a.s), [a.s]);
      }
    }
  }

  lemma RidServices(st: State, st1: State, st': State, gone: seq<Service>)
    requires st1 == st.(services := st1.services) && Rid(st1, st', gone)
    ensures Rid(st, st', gone)
  {
  }

  lemma RemoveScheduledServices(st: State, s: Service)
    ensures RemoveScheduled(st, s).services == st.services
  {
  }

  /**
   After a registered service is removed no packet mentions it, and it is still being probed by exactly
   those control blocks that were probing it while down.
   */
  lemma RemovalExactly(states: seq<State>, actions: seq<Action>, i: nat, s: Service)
    requires IsRun(states, actions) && i < |actions| && s in states[i].services
    requires actions[i] == ServiceDelete(s) || actions[i] == ServicesClearAll
    ensures var st, st' := states[i], states[i + 1];
            && s !in st'.services && |st'.pcbs| == |st.pcbs|
            && (forall p :: p in st'.tx ==> !p.Mentions(s))
            && (forall q :: 0 <= q < |st.pcbs| ==>
                  (s in st'.pcbs[q].probeServices <==> !st.pcbs[q].ready && s in st.pcbs[q].probeServices))
  {
    hide Inv, Step, Enabled;
    RunInv(states, actions, i);
    StepOf(states, actions, i);
    RemovalRids(states[i], actions[i], Registered(actions[..i]));
  }

  // ---- Whole runs ----

  /** Nothing mentions a service that is not registered. */
  ghost predicate Tidy(st: State) {
    && (forall p :: p in st.tx ==> PacketMentionsOnly(p, st.services))
    && (forall q :: 0 <= q < |st.pcbs| ==> Subset(st.pcbs[q].probeServices, st.services))
  }

  /** The action removes a service that an interface probes although it is down. */
  ghost predicate LeavesDangling(st: State, a: Action) {
    match a
    case ServiceDelete(s) => exists q :: 0 <= q < |st.pcbs| && !st.pcbs[q].ready && s in st.pcbs[q].probeServices
    case ServicesClearAll => exists q :: 0 <= q < |st.pcbs| && !st.pcbs[q].ready && st.pcbs[q].probeServices != []
    case _ => false
  }

  /** Being tidy is the invariant with just the registered services. */
  lemma TidyInv(st: State, known: seq<Service>)
    requires Inv(st, known)
    ensures Tidy(st) <==> Inv(st, st.services)
  {
    hide AllLife, Agreement, ThreeProbesFirst, PacketMentionsOnly;
  }

  /** An action keeps the state tidy exactly if it removes no service that an interface probes while down. */
  lemma StepTidyExactly(st: State, a: Action, known: seq<Service>)
    requires Inv(st, known) && Tidy(st) && Enabled(st, a)
    ensures Shaped(st) && (Tidy(Step(st, a)) <==> !LeavesDangling(st, a))
  {
    hide Inv, Step, Enabled, Tidy, LeavesDangling;
    InvShape(st, known);
    TidyInv(st, known);
    StepInv(st, a, st.services);
    if a.ServiceDelete? || a.ServicesClearAll? {
      RemovalTidyExactly(st, a, known);
    } else {
      StepServices(st, a);
      TidyInv(Step(st, a), Step(st, a).services);
      assert !LeavesDangling(st, a) by { NoRemoval(st, a); }
    }
  }

  lemma NoRemoval(st: State, a: Action)
    requires !a.ServiceDelete? && !a.ServicesClearAll?
    ensures !LeavesDangling(st, a)
  {
  }

  lemma RemovalTidyExactly(st: State, a: Action, known: seq<Service>)
    requires Inv(st, known) && Tidy(st) && Shaped(st) && (a.ServiceDelete? || a.ServicesClearAll?)
    requires Inv(Step(st, a), st.services)
    ensures Tidy(Step(st, a)) <==> !LeavesDangling(st, a)
  {
    hide AllLife, Agreement, ThreeProbesFirst, ServiceDel, ServicesClear, NoDuplicates;
    RemovalRids(st, a, known);
    var st' := Step(st, a);
    if st' != st || a.ServicesClearAll? {
      assert forall p :: p in st'.tx ==> PacketMentionsOnly(p, st.services);
      if LeavesDangling(st, a) {
        var q :| 0 <= q < |st.pcbs| && !st.pcbs[q].ready && (a.ServiceDelete? ==> a.s in st.pcbs[q].probeServices)
                 && st.pcbs[q].probeServices != [];
        var s := if a.ServiceDelete? then a.s else st.pcbs[q].probeServices[0];
        assert s in st'.pcbs[q].probeServices && s in st.services && s !in st'.services;
      } else {
        RidTidy(st, st', a);
      }
    }
  }

  lemma RidTidy(st: State, st': State, a: Action)
    requires Tidy(st) && (a.ServiceDelete? || a.ServicesClearAll?) && !LeavesDangling(st, a)
    requires var gone := if a.ServicesClearAll? then st.services else [a.s];
             Rid(st, st', gone) && (forall s :: s in st'.services <==> s in st.services && s !in gone)
    requires forall p :: p in st'.tx ==> PacketMentionsOnly(p, st.services)
    ensures Tidy(st')
  {
    forall p | p in st'.tx ensures PacketMentionsOnly(p, st'.services) {
      forall b | b in p.answers + p.servers + p.additional && b.svc.Some? ensures b.svc.value in st'.services {
        assert p.Mentions(b.svc.value);
      }
    }
  }

  lemma {:induction false} ProbeFirstServices(st: State, n: nat, services: seq<Service>, probeIp: bool, clearOld: bool, random: nat -> nat)
    requires n <= |st.pcbs|
    ensures ProbeFirst(st, n, services, probeIp, clearOld, random).services == st.services
  {
    if n > 0 {
      ProbeFirstServices(st, n - 1, services, probeIp, clearOld, random);
    }
  }

  lemma {:induction false} AnnounceFirstServices(st: State, n: nat, services: seq<Service>, withIp: bool, random: nat -> nat)
    requires n <= |st.pcbs|
    ensures AnnounceFirst(st, n, services, withIp, random).services == st.services
  {
    if n > 0 {
      AnnounceFirstServices(st, n - 1, services, withIp, random);
    }
  }

  lemma InterfaceServices(st: State, q: nat, initOk: bool, random: nat)
    requires q < |st.pcbs|
    ensures Enable(st, q, initOk, random).services == st.services
    ensures Announce(st, q, [], true, random).services == st.services
  {
    hide Insert, Without, ProbePacket, AnnouncePacket, Merge, Fresh, FirstOf;
  }

  lemma DisableServices(st: State, q: nat, initOk: bool, random: nat)
    requires Shaped(st) && q < |st.pcbs|
    ensures Disable(st, q, initOk, random).services == st.services
  {
    hide Enable, Without;
    var off := st.(tx := Without(st.tx, q), pcbs := st.pcbs[q := OFFLINE]);
    var o := OtherPcb(st, q);
    if o.Some? {
      InterfaceServices(off.(pcbs := off.pcbs[o.value := off.pcbs[o.value].(state := Off)]), o.value, initOk, random);
    }
  }

  lemma DupOneServices(st: State, q: nat, random: nat)
    requires Shaped(st) && q < |st.pcbs|
    ensures DupOne(st, q, random).services == st.services
  {
    hide Announce, Without;
    var o := OtherPcb(st, q);
    if o.Some? && st.pcbs[o.value].ready {
      var st1 := if st.pcbs[q].ready then st.(tx := Without(st.tx, q), pcbs := st.pcbs[q := OFFLINE]) else st;
      InterfaceServices(st1.(pcbs := st1.pcbs[q := st1.pcbs[q].(state := Dup)]), o.value, true, random);
    }
  }

  lemma HandlingServices(st: State)
    ensures ExecuteNext(st).services == st.services
  {
    hide Insert, FromProbe, UnicastFlags;
  }

  lemma ConflictServices(st: State, a: Action)
    requires Shaped(st) && Enabled(st, a) && (a.SrvConflict? || a.TxtConflict? || a.AddressConflict?)
    ensures Step(st, a).services == st.services
  {
    hide Insert, ProbeFirst, Without, ProbePacket, Fresh, PacketMentionsOnly, Subset, NoDuplicates;
    var all := |st.pcbs|;
    var counted := CountFailure(st, a.q);
    match a
    case SrvConflict(q, s, rename, r) =>
      ProbeFirstServices(counted, all, [s], false, false, r);
      ProbeFirstServices(counted.(tx := []), all, st.services, true, true, r);
      if rename.RenameInstance? {
        ProbeFirstServices(counted, all, rename.noInstance, false, true, r);
      }
    case AddressConflict(q, r) => ProbeFirstServices(counted.(tx := []), all, st.services, true, true, r);
    case TxtConflict(_, _, _) =>
  }

  /** Only registering and removing services changes the list of services. */
  lemma StepServices(st: State, a: Action)
    requires Shaped(st) && Enabled(st, a) && !a.ServiceDelete? && !a.ServicesClearAll?
    ensures Step(st, a).services == KnownAfter(st.services, a)
  {
    hide Insert, ProbeFirst, AnnounceFirst, DropScheduledAnswer, Timer, ExecuteNext, Enable, Disable, Announce, DupOne,
         PacketMentionsOnly, Subset, NoDuplicates;
    var all := |st.pcbs|;
    if a.SrvConflict? || a.TxtConflict? || a.AddressConflict? {
      ConflictServices(st, a);
    } else {
      match a {
        case Tick(room) => TimerKeeps(st, room);
        case TxHandle => HandlingServices(st);
        case EnableIf(q, initOk, r) => InterfaceServices(st, q, initOk, r);
        case DisableIf(q, initOk, r) => DisableServices(st, q, initOk, r);
        case AnnounceIf(q, r) => InterfaceServices(st, q, true, r);
        case OwnAddressSeen(i, r) =>
          DupOneStays(st, 2 * i, r(0), 0);
          DupOneServices(st, 2 * i, r(0));
          DupOneServices(DupOne(st, 2 * i, r(0)), 2 * i + 1, r(1));
        case HostnameSet(r) => ProbeFirstServices(st.(hostSet := true, tx := []), all, st.services, true, true, r);
        case InstanceSet(none, r) => ProbeFirstServices(st, all, none, false, true, r);
        case ServiceAdd(s, r) => ProbeFirstServices(st.(services := [s] + st.services), all, [s], false, false, r);
        case ServiceInstanceSet(s, r) => ProbeFirstServices(st, all, [s], false, false, r);
        case ServicePortSet(s, r) => AnnounceFirstServices(st, all, [s], true, r);
        case ServiceTxtSet(s, r) => AnnounceFirstServices(st, all, [s], false, r);
        case _ =>
      }
    }
  }

  lemma StartTidy(states: seq<State>, actions: seq<Action>)
    requires IsRun(states, actions)
    ensures Tidy(states[0])
  {
    hide Step, Enabled, Shaped;
  }

  /**
   Removal is complete on a run exactly if it never removes a service that an interface probes while
   down: until then no packet and no probe mentions a service that is not registered.
   */
  lemma {:induction false} RemovalIsComplete(states: seq<State>, actions: seq<Action>, n: nat)
    requires IsRun(states, actions) && n < |states|
    ensures (forall j :: 0 <= j <= n ==> Tidy(states[j])) <==> (forall j :: 0 <= j < n ==> !LeavesDangling(states[j], actions[j]))
  {
    hide Inv, Step, Enabled, Shaped, Tidy, LeavesDangling;
    if n == 0 {
      StartTidy(states, actions);
    } else {
      RemovalIsComplete(states, actions, n - 1);
      if forall j :: 0 <= j <= n - 1 ==> Tidy(states[j]) {
        RunInv(states, actions, n - 1);
        StepOf(states, actions, n - 1);
        StepTidyExactly(states[n - 1], actions[n - 1], Registered(actions[..n - 1]));
      }
    }
  }

  // ---- A run on which a removed service stays in use ----

  lemma {:induction false} DownUntouched(st: State, n: nat, services: seq<Service>, probeIp: bool, clearOld: bool, random: nat -> nat)
    requires n <= |st.pcbs| && forall q :: 0 <= q < |st.pcbs| ==> !st.pcbs[q].ready
    ensures ProbeFirst(st, n, services, probeIp, clearOld, random) == st
  {
    if n > 0 {
      DownUntouched(st, n - 1, services, probeIp, clearOld, random);
    }
  }

  /**
   A service conflict arrives on an interface that is down, the service is removed, the interface comes up:
   it probes a service that no longer exists.
   */
  lemma ProbesRemovedService(s: Service) returns (states: seq<State>, actions: seq<Action>)
    ensures IsRun(states, actions) && |actions| == 5
    ensures actions[2].SrvConflict? && actions[2].q == 0 && !states[2].pcbs[0].ready
    ensures actions[3] == ServiceDelete(s) && LeavesDangling(states[3], actions[3])
    ensures var st := states[5];
            |st.pcbs| == 2 && s !in st.services && st.pcbs[0].ready && st.pcbs[0].state.Probing() && s in st.pcbs[0].probeServices
            && exists p :: p in st.tx && p.Mentions(s)
  {
    hide Step, Enabled, Shaped, Inv, Reprobe, ServiceDel, Enable, LeavesDangling;
    var st0 := Start([1]);
    var st1 := st0.(hostSet := true);
    var st2 := st1.(services := [s]);
    var st3 := Reprobe(st2, 0, [s], false, 0);
    var st4 := ServiceDel(st3, s);
    ConflictWhileDown(s);
    RemovedWhileDown(st3, s);
    EnabledAgain(st4, s);
    states := [st0, st1, st2, st3, st4, Enable(st4, 0, true, 0)];
    actions := [HostnameSet(NONE), ServiceAdd(s, NONE), SrvConflict(0, s, RenameService, NONE), ServiceDelete(s), EnableIf(0, true, 0)];
    assert st0 == Start([1]);
  }

  const NONE: nat -> nat := _ => 0

  /** Probed on an interface that is down, and nothing else is known. */
  ghost predicate ProbedWhileDown(st: State, s: Service) {
    Inv(st, [s]) && st.hostSet && |st.pcbs| == 2 && !st.pcbs[0].ready && st.pcbs[0].state.Probe1? && st.pcbs[0].probeServices == [s]
  }

  lemma ConflictWhileDown(s: Service)
    ensures var st0 := Start([1]);
            var st1 := st0.(hostSet := true);
            var st2 := st1.(services := [s]);
            var st3 := Reprobe(st2, 0, [s], false, 0);
            var conflict := SrvConflict(0, s, RenameService, NONE);
            && Shaped(st0) && Enabled(st0, HostnameSet(NONE)) && Step(st0, HostnameSet(NONE)) == st1
            && Shaped(st1) && Enabled(st1, ServiceAdd(s, NONE)) && Step(st1, ServiceAdd(s, NONE)) == st2
            && Shaped(st2) && Enabled(st2, conflict) && Step(st2, conflict) == st3
            && |st2.pcbs| == 2 && !st2.pcbs[0].ready
            && ProbedWhileDown(st3, s) && st3.services == [s]
  {
    hide ProbeFirst, ProbePacket, Inv, ProbeDelay, Insert, Without, Fresh;
    var st0 := Start([1]);
    var st1 := st0.(hostSet := true);
    var st2 := st1.(services := [s]);
    DownUntouched(st1, 2, [], true, true, NONE);
    DownUntouched(st2, 2, [s], false, false, NONE);
    assert [s] + st1.services == [s] && [s] + [] == [s];
    StartInv([1]);
    StepInv(st0, HostnameSet(NONE), []);
    StepInv(st1, ServiceAdd(s, NONE), []);
    StepInv(st2, SrvConflict(0, s, RenameService, NONE), [s]);
  }

  lemma RemovedWhileDown(st: State, s: Service)
    requires ProbedWhileDown(st, s) && st.services == [s]
    ensures Shaped(st) && Enabled(st, ServiceDelete(s)) && Step(st, ServiceDelete(s)) == ServiceDel(st, s)
    ensures LeavesDangling(st, ServiceDelete(s)) && ProbedWhileDown(ServiceDel(st, s), s) && ServiceDel(st, s).services == []
  {
    hide Inv, ServiceDel;
    InvShape(st, [s]);
    RemovalRids(st, ServiceDelete(s), [s]);
    StepInv(st, ServiceDelete(s), [s]);
    LeftBehind(st, ServiceDel(st, s), s);
    DeleteKeeps(st, s);
  }

  lemma EnabledAgain(st: State, s: Service)
    requires ProbedWhileDown(st, s) && st.services == []
    ensures Shaped(st) && Enabled(st, EnableIf(0, true, 0)) && Step(st, EnableIf(0, true, 0)) == Enable(st, 0, true, 0)
    ensures var st' := Enable(st, 0, true, 0);
            && |st'.pcbs| == 2 && s !in st'.services && st'.pcbs[0].ready && st'.pcbs[0].state.Probing() && s in st'.pcbs[0].probeServices
            && exists p :: p in st'.tx && p.Mentions(s)
  {
    hide Inv, Enable;
    InvShape(st, [s]);
    Reenabled(st, s, [s]);
  }

  lemma DeleteKeeps(st: State, s: Service)
    ensures var st' := ServiceDel(st, s); st'.hostSet == st.hostSet && st'.partner == st.partner
  {
    hide PurgeQueue;
  }

  lemma LeftBehind(st: State, st': State, s: Service)
    requires Rid(st, st', [s]) && st.services == [s] && |st.pcbs| == 2
    requires !st.pcbs[0].ready && s in st.pcbs[0].probeServices
    requires forall u :: u in st'.services <==> u in st.services && u !in [s]
    ensures st'.services == [] && st'.pcbs[0] == st.pcbs[0] && |st'.pcbs| == 2
    ensures LeavesDangling(st, ServiceDelete(s))
  {
    assert s in [s];
    FirstMember(st'.services);
  }

  lemma FirstMember<T>(list: seq<T>)
    ensures list == [] || list[0] in list
  {
  }

  lemma Reenabled(st: State, s: Service, known: seq<Service>)
    requires Inv(st, known) && st.hostSet && |st.pcbs| == 2 && st.services == []
    requires !st.pcbs[0].ready && st.pcbs[0].state.Probe1? && st.pcbs[0].probeServices == [s]
    ensures var st' := Enable(st, 0, true, 0);
            && |st'.pcbs| == 2 && st'.services == []
            && st'.pcbs[0].ready && st'.pcbs[0].state.Probing() && s in st'.pcbs[0].probeServices
            && exists p :: p in st'.tx && p.Mentions(s)
  {
    hide InitProbe, Agreement, ThreeProbesFirst, PacketMentionsOnly, AsksEnough, Progress;
    EnableInv(st, 0, true, 0, known);
    ReenabledPcb(st);
    var st' := Enable(st, 0, true, 0);
    assert Life(st', 0);
    var p := SoleProbe(st', 0);
    assert Answer(SRV, Some(s), None) in p.servers;
    assert p.Mentions(s);
  }

  lemma ReenabledPcb(st: State)
    requires st.hostSet && |st.pcbs| == 2 && st.services == [] && st.pcbs[0].state.Probe1?
    ensures var st' := Enable(st, 0, true, 0);
            |st'.pcbs| == 2 && st'.services == [] && st'.pcbs[0].ready && st'.pcbs[0].state.Probe1?
            && st'.pcbs[0].probeServices == st.pcbs[0].probeServices
  {
    hide Insert, Without, ProbePacket;
  }
}
