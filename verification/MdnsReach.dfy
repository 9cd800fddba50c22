/**
 What changes of names, services and interfaces make the interfaces that are up do: probe or announce just what has
 changed, on every one of them.
 */
module MdnsReach {
  import opened Common
  import opened MdnsState
  import opened MdnsSpec
  import opened MdnsQueue
  import opened MdnsContents
  import opened MdnsLifecycle
  import opened MdnsSteps
  import opened MdnsRuns
  import opened MdnsAnnounce

  // ---- Probing ----

  /** The control block has started to probe the services and, with `probeIp`, its addresses, besides what it was probing. */
  ghost predicate Probes(old_: Pcb, new_: Pcb, services: seq<Service>, probeIp: bool) {
    && new_.state.Probe1? && new_.ready == old_.ready && new_.probeRunning && new_.failedProbes == old_.failedProbes
    && (new_.probeIp <==> probeIp || old_.probeIp)
    && forall s :: s in new_.probeServices <==> s in services || (old_.state.CountsAsProbing() && s in old_.probeServices)
  }

  function Cleared(pcb: Pcb): Pcb {
    pcb.(probeServices := [], probeRunning := false)
  }

  lemma InitProbeReaches(st: State, q: nat, services: seq<Service>, probeIp: bool, random: nat)
    requires q < |st.pcbs| && st.hostSet
    ensures var st' := InitProbe(st, q, services, probeIp, random);
            && Probes(st.pcbs[q], st'.pcbs[q], services, probeIp) && st'.hostSet
            && |st'.pcbs| == |st.pcbs| && forall r :: 0 <= r < |st.pcbs| && r != q ==> st'.pcbs[r] == st.pcbs[r]
  {
    hide ProbePacket, Insert, Without, Fresh, Spills;
    FreshMembers(services, st.pcbs[q].probeServices);
  }

  /** Probing on all control blocks reaches every one that is up, and no other. */
  lemma {:induction false} ProbeFirstReaches(st: State, n: nat, services: seq<Service>, probeIp: bool, clearOld: bool,
                                             random: nat -> nat, q: nat)
    requires n <= |st.pcbs| && q < |st.pcbs| && st.hostSet
    ensures var st' := ProbeFirst(st, n, services, probeIp, clearOld, random);
            && st'.hostSet && (q >= n || !st.pcbs[q].ready ==> st'.pcbs[q] == st.pcbs[q])
            && (q < n && st.pcbs[q].ready ==>
                  Probes(if clearOld then Cleared(st.pcbs[q]) else st.pcbs[q], st'.pcbs[q], services, probeIp))
  {
    hide InitProbe, Probes;
    if n > 0 {
      ProbeFirstReaches(st, n - 1, services, probeIp, clearOld, random, q);
      var mid := ProbeFirst(st, n - 1, services, probeIp, clearOld, random);
      var last := if clearOld then mid.(pcbs := mid.pcbs[n - 1 := Cleared(mid.pcbs[n - 1])]) else mid;
      InitProbeReaches(last, n - 1, services, probeIp, random(n - 1));
    }
  }

  /**
   A host name set or changed makes every interface that is up probe all registered services and its addresses; a service
   added or renamed makes it probe that one besides what it was probing; a new instance name makes it probe the services
   without one of their own; an interface enabled probes all services and its addresses.
   */
  lemma ChangesAreProbed(st: State, a: Action, q: nat)
    requires Shaped(st) && Enabled(st, a) && q < |st.pcbs| && (st.hostSet || a.HostnameSet?)
    ensures var st' := Step(st, a);
            q < |st'.pcbs| &&
            match a
            case HostnameSet(_) => st.pcbs[q].ready ==> Probes(Cleared(st.pcbs[q]), st'.pcbs[q], st.services, true)
            case ServiceAdd(s, _) => st.pcbs[q].ready ==> Probes(st.pcbs[q], st'.pcbs[q], [s], false)
            case ServiceInstanceSet(s, _) => st.pcbs[q].ready ==> Probes(st.pcbs[q], st'.pcbs[q], [s], false)
            case InstanceSet(some, _) => st.pcbs[q].ready && some != [] ==> Probes(Cleared(st.pcbs[q]), st'.pcbs[q], some, false)
            case EnableIf(r, initOk, _) =>
              q == r && (st.pcbs[q].ready || initOk) ==> Probes(st.pcbs[q].(ready := true), st'.pcbs[q], st.services, true)
            case _ => true
  {
    hide ProbeFirst, Probes, InitProbe, Shaped, PacketMentionsOnly;
    StepSize(st, a);
    match a
    case HostnameSet(randoms) =>
      ProbeFirstReaches(st.(hostSet := true, tx := []), |st.pcbs|, st.services, true, true, randoms, q);
    case ServiceAdd(s, randoms) => ProbeFirstReaches(st.(services := [s] + st.services), |st.pcbs|, [s], false, false, randoms, q);
    case ServiceInstanceSet(s, randoms) => ProbeFirstReaches(st, |st.pcbs|, [s], false, false, randoms, q);
    case InstanceSet(some, randoms) => ProbeFirstReaches(st, |st.pcbs|, some, false, true, randoms, q);
    case EnableIf(r, initOk, random) =>
      if st.pcbs[r].ready || initOk {
        InitProbeReaches(st.(pcbs := st.pcbs[r := st.pcbs[r].(ready := true)]), r, st.services, true, random);
      }
    case _ =>
  }

  function Counted(pcb: Pcb): Pcb {
    pcb.(failedProbes := pcb.failedProbes + 1)
  }

  /**
   A conflict lost while probing is counted, and the renamed service, the services without an instance name, or everything
   is probed again on every interface that is up; one lost while not probing starts a probe on its interface alone.
   */
  lemma ConflictsAreProbed(st: State, a: Action, q: nat)
    requires Shaped(st) && Enabled(st, a) && (a.SrvConflict? || a.AddressConflict?) && st.hostSet && q < |st.pcbs|
    ensures var st' := Step(st, a);
            var pcb := if q == a.q then Counted(st.pcbs[q]) else st.pcbs[q];
            q < |st'.pcbs| &&
            if !st.pcbs[a.q].probeRunning then
              if q == a.q then Probes(st.pcbs[q], st'.pcbs[q], if a.SrvConflict? then [a.s] else [], a.AddressConflict?)
              else st'.pcbs[q] == st.pcbs[q]
            else if !pcb.ready || (a.SrvConflict? && a.rename == RenameInstance([])) then st'.pcbs[q] == pcb
            else if a.AddressConflict? || a.rename.RenameHost? then Probes(Cleared(pcb), st'.pcbs[q], st.services, true)
            else if a.rename.RenameService? then Probes(pcb, st'.pcbs[q], [a.s], false)
            else Probes(Cleared(pcb), st'.pcbs[q], a.rename.noInstance, false)
  {
    hide ProbeFirst, Probes, InitProbe, Shaped, PacketMentionsOnly;
    StepSize(st, a);
    var counted := CountFailure(st, a.q);
    if !st.pcbs[a.q].probeRunning {
      match a {
        case SrvConflict(r, s, _, randoms) => InitProbeReaches(st, r, [s], false, randoms(r));
        case AddressConflict(r, randoms) => InitProbeReaches(st, r, [], true, randoms(r));
      }
    } else if a.AddressConflict? || a.rename.RenameHost? {
      ProbeFirstReaches(counted.(tx := []), |st.pcbs|, st.services, true, true, a.randoms, q);
    } else if a.rename.RenameService? {
      ProbeFirstReaches(counted, |st.pcbs|, [a.s], false, false, a.randoms, q);
    } else {
      ProbeFirstReaches(counted, |st.pcbs|, a.rename.noInstance, false, true, a.randoms, q);
    }
  }

  // ---- Announcing ----

  /** A packet of the control block announces the services and, with `withIp`, the addresses of their hosts. */
  ghost predicate Announces(st: State, q: nat, services: seq<Service>, withIp: bool) {
    exists p :: p in st.tx && p.pcb == q
                && (forall x :: PublishesSome(x, services) ==> x in p.answers)
                && (forall x :: withIp && LocatesSome(x, services) ==> x in p.answers || x in p.servers)
  }

  /** What happens to a control block that is up when records are announced. */
  ghost predicate Told(st: State, st': State, q: nat, services: seq<Service>, withIp: bool)
    requires q < |st.pcbs| == |st'.pcbs|
  {
    var pcb := st.pcbs[q];
    if pcb.state.CountsAsProbing() then Probes(pcb, st'.pcbs[q], services, withIp)
    else if pcb.state.Running? || Present(st.tx, q) then
      st'.pcbs[q] == pcb.(state := Announce1) && Announces(st', q, services, withIp)
    else st'.pcbs[q] == pcb
  }

  ghost predicate Present(tx: seq<Packet>, q: nat) {
    exists p :: p in tx && p.pcb == q
  }

  lemma FirstPresent(tx: seq<Packet>, q: nat)
    ensures FirstOf(tx, q) < |tx| <==> Present(tx, q)
  {
    if Present(tx, q) {
      var p :| p in tx && p.pcb == q;
      var i :| 0 <= i < |tx| && tx[i] == p;
    }
  }

  lemma AnnounceReaches(st: State, q: nat, services: seq<Service>, withIp: bool, random: nat)
    requires q < |st.pcbs| && st.pcbs[q].ready && st.hostSet && !st.pcbs[q].state.Off?
    ensures Told(st, Announce(st, q, services, withIp, random), q, services, withIp)
  {
    hide InitProbe, Merge, AnnouncePacket, Insert, Probes, PublishesSome, LocatesSome;
    var pcb := st.pcbs[q];
    FirstPresent(st.tx, q);
    if pcb.state.CountsAsProbing() {
      InitProbeReaches(st, q, services, withIp, random);
    } else if pcb.state.Running? || Present(st.tx, q) {
      var p := AnnounceHolds(st, q, services, withIp, random);
    }
  }

  /** Announcing on one control block touches no other. */
  lemma AnnounceAside(st: State, q: nat, services: seq<Service>, withIp: bool, random: nat)
    requires q < |st.pcbs|
    ensures var st' := Announce(st, q, services, withIp, random);
            && |st'.pcbs| == |st.pcbs| && st'.hostSet == st.hostSet
            && (forall r :: 0 <= r < |st.pcbs| && r != q ==> st'.pcbs[r] == st.pcbs[r])
            && (forall p: Packet :: p.pcb != q ==> (p in st'.tx <==> p in st.tx))
  {
    hide ProbePacket, Insert, Without, Fresh, Spills, Merge, AnnouncePacket;
    var pcb := st.pcbs[q];
    if pcb.ready {
      if pcb.state.CountsAsProbing() {
        InitProbeAside(st, q, services, withIp, random);
      } else if pcb.state.Announcing() {
        var i := FirstOf(st.tx, q);
        if i < |st.tx| {
          MergeFields(st.tx[i], services, withIp);
          UpdateMembers(st.tx, i, Merge(st.tx[i], services, withIp), q);
        }
      } else {
        var p := AnnouncePacket(st.nextId, q, services, withIp).(sendAt := st.now + 0);
        BlankFields(st.nextId, q, services, withIp);
        InsertAside(st.tx, p);
      }
    }
  }

  lemma InsertAside(tx: seq<Packet>, p: Packet)
    ensures forall x :: x != p ==> (x in Insert(tx, p) <==> x in tx)
  {
    forall x | x != p ensures x in Insert(tx, p) <==> x in tx {
      InsertMembers(tx, p, x);
    }
  }

  lemma InitProbeAside(st: State, q: nat, services: seq<Service>, probeIp: bool, random: nat)
    requires q < |st.pcbs|
    ensures var st' := InitProbe(st, q, services, probeIp, random);
            && |st'.pcbs| == |st.pcbs| && st'.hostSet == st.hostSet
            && (forall r :: 0 <= r < |st.pcbs| && r != q ==> st'.pcbs[r] == st.pcbs[r])
            && (forall p: Packet :: p.pcb != q ==> (p in st'.tx <==> p in st.tx))
  {
    hide ProbePacket, Insert, Without, Fresh, Spills, Probed;
    var pcb, tx := st.pcbs[q], Without(st.tx, q);
    WithoutShrinks(st.tx, q);
    if st.hostSet {
      var fresh_ := if pcb.state.CountsAsProbing() then Fresh(services, pcb.probeServices) else services;
      var all, withIp := Probed(pcb, fresh_), pcb.probeIp || probeIp;
      ProbePacketFields(st.nextId, q, all, withIp);
      InsertAside(tx, ProbePacket(st.nextId, q, all, withIp).(sendAt := st.now + ProbeDelay(pcb.failedProbes, random)));
    }
  }

  /** What one control block has been told stays so when another announces. */
  lemma ToldAside(st: State, mid: State, st': State, q: nat, services: seq<Service>, withIp: bool)
    requires q < |st.pcbs| == |mid.pcbs| == |st'.pcbs| && Told(st, mid, q, services, withIp)
    requires st'.pcbs[q] == mid.pcbs[q] && forall p: Packet :: p.pcb == q ==> (p in st'.tx <==> p in mid.tx)
    ensures Told(st, st', q, services, withIp)
  {
    hide PublishesSome, LocatesSome, Probes;
    if Announces(mid, q, services, withIp) {
      var p :| p in mid.tx && p.pcb == q
               && (forall x :: PublishesSome(x, services) ==> x in p.answers)
               && (forall x :: withIp && LocatesSome(x, services) ==> x in p.answers || x in p.servers);
      assert p in st'.tx;
    }
  }

  /** And from a state that differs in other control blocks only. */
  lemma ToldFrom(st: State, mid: State, st': State, q: nat, services: seq<Service>, withIp: bool)
    requires q < |st.pcbs| == |mid.pcbs| == |st'.pcbs| && Told(mid, st', q, services, withIp)
    requires st.pcbs[q] == mid.pcbs[q] && forall p: Packet :: p.pcb == q ==> (p in st.tx <==> p in mid.tx)
    ensures Told(st, st', q, services, withIp)
  {
    hide PublishesSome, LocatesSome, Probes, Announces;
    assert Present(st.tx, q) <==> Present(mid.tx, q);
  }

  lemma {:induction false} AnnounceFirstReaches(st: State, n: nat, services: seq<Service>, withIp: bool, random: nat -> nat, q: nat)
    requires n <= |st.pcbs| && q < |st.pcbs| && st.hostSet && st.pcbs[q].ready && !st.pcbs[q].state.Off?
    ensures var st' := AnnounceFirst(st, n, services, withIp, random);
            && st'.hostSet
            && (q >= n ==> st'.pcbs[q] == st.pcbs[q] && forall p: Packet :: p.pcb == q ==> (p in st'.tx <==> p in st.tx))
            && (q < n ==> Told(st, st', q, services, withIp))
  {
    hide Announce, Told;
    if n > 0 {
      AnnounceFirstReaches(st, n - 1, services, withIp, random, q);
      var mid := AnnounceFirst(st, n - 1, services, withIp, random);
      var st' := Announce(mid, n - 1, services, withIp, random(n - 1));
      AnnounceAside(mid, n - 1, services, withIp, random(n - 1));
      if q == n - 1 {
        AnnounceReaches(mid, q, services, withIp, random(n - 1));
        ToldFrom(st, mid, st', q, services, withIp);
      } else if q < n - 1 {
        ToldAside(st, mid, st', q, services, withIp);
      }
    }
  }

  lemma UpIsOn(st: State, q: nat, known: seq<Service>)
    requires Inv(st, known) && q < |st.pcbs| && st.pcbs[q].ready
    ensures !st.pcbs[q].state.Off?
  {
    assert Life(st, q);
  }

  /**
   On every run with a host name set, a changed port, with the addresses, or changed TXT entries of a service are
   announced, with all its records, by every interface that is up and past probing, and probed by every one that is still
   probing.
   */
  lemma ChangesAreAnnounced(states: seq<State>, actions: seq<Action>, i: nat, q: nat)
    requires IsRun(states, actions) && i < |actions| && (actions[i].ServicePortSet? || actions[i].ServiceTxtSet?)
    requires q < |states[i].pcbs| && states[i].hostSet && states[i].pcbs[q].ready
    ensures |states[i + 1].pcbs| == |states[i].pcbs|
    ensures Told(states[i], states[i + 1], q, [actions[i].s], actions[i].ServicePortSet?)
  {
    hide AnnounceFirst, Told, Enabled, Shaped, Inv;
    StepOf(states, actions, i);
    RunInv(states, actions, i);
    UpIsOn(states[i], q, Registered(actions[..i]));
    StepSize(states[i], actions[i]);
    var st := states[i];
    match actions[i]
    case ServicePortSet(s, randoms) => AnnounceFirstReaches(st, |st.pcbs|, [s], true, randoms, q);
    case ServiceTxtSet(s, randoms) => AnnounceFirstReaches(st, |st.pcbs|, [s], false, randoms, q);
  }

  // ---- Duplicate interfaces ----

  /** A control block without its interface: it keeps what it had only if it was down already. */
  function Yielded(pcb: Pcb): Pcb {
    (if pcb.ready then OFFLINE else pcb).(state := Dup)
  }

  lemma DupOneReaches(st: State, q: nat, random: nat)
    requires q < |st.pcbs| && st.hostSet
    requires OtherPcb(st, q).Some? && OtherPcb(st, q).value < |st.pcbs| && OtherPcb(st, q).value != q
    requires st.pcbs[OtherPcb(st, q).value].ready && !st.pcbs[OtherPcb(st, q).value].state.Off?
    ensures var st', o := DupOne(st, q, random), OtherPcb(st, q).value;
            && |st'.pcbs| == |st.pcbs| && st'.hostSet && st'.pcbs[q] == Yielded(st.pcbs[q])
            && Told(st, st', o, [], true)
            && (forall r :: 0 <= r < |st.pcbs| && r != q && r != o ==> st'.pcbs[r] == st.pcbs[r])
            && (forall p: Packet :: p.pcb != q && p.pcb != o ==> (p in st'.tx <==> p in st.tx))
  {
    hide Announce, Told, Without;
    var o := OtherPcb(st, q).value;
    WithoutShrinks(st.tx, q);
    var st1 := if st.pcbs[q].ready then st.(tx := Without(st.tx, q), pcbs := st.pcbs[q := OFFLINE]) else st;
    var st2 := st1.(pcbs := st1.pcbs[q := st1.pcbs[q].(state := Dup)]);
    AnnounceReaches(st2, o, [], true, random);
    AnnounceAside(st2, o, [], true, random);
    ToldFrom(st, st2, Announce(st2, o, [], true, random), o, [], true);
  }

  /**
   On every run with a host name set, when an interface is found to be on the subnet of its partner, each of its control
   blocks whose counterpart is up yields to it, going down if it was up, and the counterpart announces its addresses.
   */
  lemma DuplicatesAreAnnounced(states: seq<State>, actions: seq<Action>, i: nat, k: nat)
    requires IsRun(states, actions) && i < |actions| && actions[i].OwnAddressSeen? && k < 2 && states[i].hostSet
    requires var q := 2 * actions[i].iface + k;
             && OtherPcb(states[i], q).Some? && OtherPcb(states[i], q).value < |states[i].pcbs|
             && states[i].pcbs[OtherPcb(states[i], q).value].ready
    ensures var st, st', q := states[i], states[i + 1], 2 * actions[i].iface + k;
            && q < |st.pcbs| == |st'.pcbs| && st'.pcbs[q] == Yielded(st.pcbs[q])
            && Told(st, st', OtherPcb(st, q).value, [], true)
  {
    hide Told, DupOne, Yielded, Inv, OtherPcb, Enabled, Step, Shaped, CanYield;
    StepOf(states, actions, i);
    RunInv(states, actions, i);
    var st, a := states[i], actions[i];
    YieldNeeds(st, a, k, Registered(actions[..i]));
    DupSteps(st, a);
    if k == 0 {
      FirstYields(st, a.iface, a.randoms(0), a.randoms(1));
    } else {
      SecondNeeds(st, 2 * a.iface);
      YieldsBehind(st, 2 * a.iface, 2 * a.iface + 1, OtherPcb(st, 2 * a.iface + 1).value, a.randoms(0), a.randoms(1));
    }
  }

  lemma YieldNeeds(st: State, a: Action, k: nat, known: seq<Service>)
    requires Inv(st, known) && Shaped(st) && a.OwnAddressSeen? && Enabled(st, a) && k < 2 && st.hostSet
    requires var q := 2 * a.iface + k;
             && OtherPcb(st, q).Some? && OtherPcb(st, q).value < |st.pcbs| && st.pcbs[OtherPcb(st, q).value].ready
    ensures 2 * a.iface + 1 < |st.pcbs| && CanYield(st, 2 * a.iface + k)
  {
    hide Inv;
    UpIsOn(st, OtherPcb(st, 2 * a.iface + k).value, known);
  }

  lemma DupSteps(st: State, a: Action)
    requires Shaped(st) && a.OwnAddressSeen? && Enabled(st, a)
    ensures 2 * a.iface + 1 < |st.pcbs| && |DupOne(st, 2 * a.iface, a.randoms(0)).pcbs| == |st.pcbs|
    ensures Step(st, a) == DupOne(DupOne(st, 2 * a.iface, a.randoms(0)), 2 * a.iface + 1, a.randoms(1))
  {
    hide DupOne;
    DupOneStays(st, 2 * a.iface, a.randoms(0), 0);
  }

  /** What is asked of a control block that yields. */
  ghost predicate CanYield(st: State, q: nat) {
    && Shaped(st) && st.hostSet && q < |st.pcbs|
    && OtherPcb(st, q).Some? && OtherPcb(st, q).value < |st.pcbs| && OtherPcb(st, q).value / 2 != q / 2
    && st.pcbs[OtherPcb(st, q).value].ready && !st.pcbs[OtherPcb(st, q).value].state.Off?
  }

  lemma FirstYields(st: State, iface: nat, r0: nat, r1: nat)
    requires 2 * iface + 1 < |st.pcbs| == |DupOne(st, 2 * iface, r0).pcbs| && CanYield(st, 2 * iface)
    ensures var st', q := DupOne(DupOne(st, 2 * iface, r0), 2 * iface + 1, r1), 2 * iface;
            |st'.pcbs| == |st.pcbs| && st'.pcbs[q] == Yielded(st.pcbs[q]) && Told(st, st', OtherPcb(st, q).value, [], true)
  {
    hide Told, DupOne, Yielded;
    var q, o := 2 * iface, OtherPcb(st, 2 * iface).value;
    var mid := DupOne(st, q, r0);
    DupOneReaches(st, q, r0);
    DupOneShape(st, q, r0);
    DupOneAside(mid, q + 1, r1, q);
    DupOneAside(mid, q + 1, r1, o);
    ToldAside(st, mid, DupOne(mid, q + 1, r1), o, [], true);
  }

  lemma SecondNeeds(st: State, q: nat)
    requires q % 2 == 0 && CanYield(st, q + 1)
    ensures OtherPcb(st, q) != Some(q) && (q + 1) % 2 != q % 2
    ensures var o := OtherPcb(st, q + 1); o.Some? && o.value % 2 != q % 2 && o.value != q + 1
  {
    NotOwn(st, q, q + 1);
  }

  lemma YieldsBehind(st: State, other: nat, q: nat, o: nat, r0: nat, r1: nat)
    requires other < |st.pcbs| && q < |st.pcbs| && CanYield(st, q) && OtherPcb(st, q) == Some(o) && o != q
    requires OtherPcb(st, other) != Some(other) && q % 2 != other % 2 && o % 2 != other % 2
    ensures var st' := DupOne(DupOne(st, other, r0), q, r1);
            |st'.pcbs| == |st.pcbs| && st'.pcbs[q] == Yielded(st.pcbs[q]) && Told(st, st', o, [], true)
  {
    hide Told, DupOne, Yielded, OtherPcb;
    var mid := DupOne(st, other, r0);
    DupOneAside(st, other, r0, q);
    DupOneAside(st, other, r0, o);
    SamePartner(st, mid, q);
    DupOneReaches(mid, q, r1);
    ToldFrom(st, mid, DupOne(mid, q, r1), o, [], true);
  }

  /** Neither control block of an interface is the counterpart of itself, if one is not. */
  lemma NotOwn(st: State, q: nat, r: nat)
    requires q % 2 == 0 && r == q + 1 && OtherPcb(st, r).Some? && OtherPcb(st, r).value / 2 != r / 2
    ensures OtherPcb(st, q) != Some(q)
    ensures r % 2 != q % 2 && OtherPcb(st, r).value % 2 != q % 2
  {
  }

  lemma SamePartner(st: State, mid: State, q: nat)
    requires st.partner == mid.partner
    ensures OtherPcb(st, q) == OtherPcb(mid, q)
  {
  }

  lemma DupOneShape(st: State, q: nat, random: nat)
    requires Shaped(st) && q < |st.pcbs| && OtherPcb(st, q) != Some(q)
    ensures Shaped(DupOne(st, q, random)) && DupOne(st, q, random).partner == st.partner
  {
    DupOneStays(st, q, random, q);
  }

  /** A control block of the other protocol is not touched. */
  lemma DupOneAside(st: State, q: nat, random: nat, r: nat)
    requires Shaped(st) && q < |st.pcbs| && r < |st.pcbs| && r % 2 != q % 2 && OtherPcb(st, q) != Some(q)
    ensures var st' := DupOne(st, q, random);
            && |st'.pcbs| == |st.pcbs| && st'.hostSet == st.hostSet && st'.partner == st.partner && st'.pcbs[r] == st.pcbs[r]
            && forall p: Packet :: p.pcb == r ==> (p in st'.tx <==> p in st.tx)
  {
    hide Announce, Without;
    DupOneStays(st, q, random, r);
    WithoutShrinks(st.tx, q);
    var o := OtherPcb(st, q);
    if o.Some? && st.pcbs[o.value].ready {
      var st1 := if st.pcbs[q].ready then st.(tx := Without(st.tx, q), pcbs := st.pcbs[q := OFFLINE]) else st;
      AnnounceAside(st1.(pcbs := st1.pcbs[q := st1.pcbs[q].(state := Dup)]), o.value, [], true, random);
    }
  }

  // ---- Removed services ----

  /** What becomes of a probe when a service is removed: it goes on without it, and ends only when nothing is left to probe. */
  ghost predicate ProbesOn(old_: Pcb, new_: Pcb, s: Service) {
    && (forall x :: x in new_.probeServices <==> x in old_.probeServices && x != s)
    && new_.probeIp == old_.probeIp && new_.failedProbes == old_.failedProbes && new_.ready == old_.ready
    && if s in old_.probeServices && (forall x :: x in old_.probeServices ==> x == s) && !old_.probeIp
       then new_.state.Running? && !new_.probeRunning
       else new_.state == old_.state && new_.probeRunning
  }

  lemma PurgeProbesOn(pcb: Pcb, p: Packet, s: Service)
    requires pcb.ready && Sound(pcb) && pcb.state.Probing()
    ensures ProbesOn(pcb, Purge(pcb, p, s).0, s)
  {
    hide DropService, DropQuestion, NoDuplicates, IndexOf, AsksEnough;
    PurgeProbingPcb(pcb, p, s);
    IndexOfFound(pcb.probeServices, s);
    if s in pcb.probeServices {
      var i := IndexOf(pcb.probeServices, s);
      var left := pcb.probeServices[..i] + pcb.probeServices[i + 1..];
      if left != [] {
        assert left[0] in Purge(pcb, p, s).0.probeServices;
      }
    }
  }

  /**
   On every run, when a registered service is deleted, an interface that is up and probes goes on to probe everything
   else, addresses included, in the same state; it is done with probing if and only if nothing else was being probed.
   */
  lemma DeletedServiceProbe(states: seq<State>, actions: seq<Action>, i: nat, q: nat)
    requires IsRun(states, actions) && i < |actions| && actions[i].ServiceDelete? && actions[i].s in states[i].services
    requires q < |states[i].pcbs| && states[i].pcbs[q].ready && states[i].pcbs[q].state.Probing()
    ensures |states[i + 1].pcbs| == |states[i].pcbs| && ProbesOn(states[i].pcbs[q], states[i + 1].pcbs[q], actions[i].s)
  {
    hide Inv, Enabled, ProbesOn, PurgeQueue, Purge;
    StepOf(states, actions, i);
    RunInv(states, actions, i);
    DeletedProbesOn(states[i], Registered(actions[..i]), q, actions[i].s);
  }

  lemma DeletedProbesOn(st: State, known: seq<Service>, q: nat, s: Service)
    requires Inv(st, known) && q < |st.pcbs| && st.pcbs[q].ready && st.pcbs[q].state.Probing() && s in st.services
    ensures |ServiceDel(st, s).pcbs| == |st.pcbs| && ProbesOn(st.pcbs[q], ServiceDel(st, s).pcbs[q], s)
  {
    hide ProbesOn, PurgeQueue, Purge, Live, QueuedIds, Ids, ThreeProbesFirst, PacketMentionsOnly, Since, ProperProbes, AsksEnough;
    assert Life(st, q);
    var p := SoleProbe(st, q);
    PurgeProbing(st.pcbs, st.tx, s, q, p);
    PurgeProbesOn(st.pcbs[q], p, s);
  }
}
