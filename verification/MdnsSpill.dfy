/**
 The list of services a probe starts with: when it does not fit the memory allocated for it, which control
 blocks are in danger of that, and which never are.
 */
module MdnsSpill {
  import opened Common
  import opened MdnsState
  import opened MdnsSpec
  import opened MdnsQueue
  import opened MdnsContents
  import opened MdnsLifecycle
  import opened MdnsSteps
  import opened MdnsRuns
  import opened MdnsRemoval
  import opened MdnsDown

  /** A list of probed services kept by a control block that does not count as probing. */
  predicate Leftover(pcb: Pcb) {
    pcb.probeServices != [] && !pcb.state.CountsAsProbing()
  }

  // ---- What starts a probe that does not spill ----

  /** Every control block that is up may be probed without a spill. */
  ghost predicate Fitting(st: State) {
    forall q :: 0 <= q < |st.pcbs| && st.pcbs[q].ready ==> !Leftover(st.pcbs[q])
  }

  lemma SoundFits(pcb: Pcb)
    requires Sound(pcb) && pcb.ready
    ensures !Leftover(pcb)
  {
  }

  lemma InvFits(st: State, known: seq<Service>)
    requires Inv(st, known)
    ensures Fitting(st)
  {
    hide Base, Recorded, Claimed, Anchored, Sound, Leftover;
    forall q | 0 <= q < |st.pcbs| && st.pcbs[q].ready ensures !Leftover(st.pcbs[q]) {
      assert Life(st, q);
      SoundFits(st.pcbs[q]);
    }
  }

  lemma InitProbeSpills(st: State, q: nat, services: seq<Service>, probeIp: bool, random: nat)
    requires q < |st.pcbs|
    ensures InitProbe(st, q, services, probeIp, random).spilt
         == if st.hostSet && services != [] && Leftover(st.pcbs[q]) then st.spilt + [q] else st.spilt
    ensures |InitProbe(st, q, services, probeIp, random).pcbs| == |st.pcbs|
    ensures forall r :: 0 <= r < |st.pcbs| && r != q ==> InitProbe(st, q, services, probeIp, random).pcbs[r] == st.pcbs[r]
  {
    hide Insert, Without, ProbePacket, Fresh;
  }

  lemma {:induction false} ProbeFirstSpills(st: State, n: nat, services: seq<Service>, probeIp: bool, clearOld: bool, random: nat -> nat)
    requires n <= |st.pcbs| && Fitting(st)
    ensures var st' := ProbeFirst(st, n, services, probeIp, clearOld, random);
            st'.spilt == st.spilt && forall r :: n <= r < |st.pcbs| ==> st'.pcbs[r] == st.pcbs[r]
  {
    hide InitProbe;
    if n > 0 {
      ProbeFirstSpills(st, n - 1, services, probeIp, clearOld, random);
      var mid := ProbeFirst(st, n - 1, services, probeIp, clearOld, random);
      var pcb := mid.pcbs[n - 1];
      var st1 := if clearOld then mid.(pcbs := mid.pcbs[n - 1 := pcb.(probeServices := [], probeRunning := false)]) else mid;
      InitProbeSpills(st1, n - 1, services, probeIp, random(n - 1));
    }
  }

  /** Announcing probes only what counts as probing already. */
  lemma AnnounceSpills(st: State, q: nat, services: seq<Service>, withIp: bool, random: nat)
    requires q < |st.pcbs|
    ensures Announce(st, q, services, withIp, random).spilt == st.spilt
  {
    hide InitProbe, Insert, Merge, AnnouncePacket, FirstOf;
    InitProbeSpills(st, q, services, withIp, random);
  }

  lemma {:induction false} AnnounceFirstSpills(st: State, n: nat, services: seq<Service>, withIp: bool, random: nat -> nat)
    requires n <= |st.pcbs|
    ensures AnnounceFirst(st, n, services, withIp, random).spilt == st.spilt
  {
    hide Announce;
    if n > 0 {
      AnnounceFirstSpills(st, n - 1, services, withIp, random);
      AnnounceSpills(AnnounceFirst(st, n - 1, services, withIp, random), n - 1, services, withIp, random(n - 1));
    }
  }

  lemma EnableSpills(st: State, q: nat, initOk: bool, random: nat)
    requires q < |st.pcbs|
    ensures Enable(st, q, initOk, random).spilt
         == if (st.pcbs[q].ready || initOk) && st.hostSet && st.services != [] && Leftover(st.pcbs[q]) then st.spilt + [q] else st.spilt
    ensures |Enable(st, q, initOk, random).pcbs| == |st.pcbs|
  {
    hide InitProbe;
    InitProbeSpills(st.(pcbs := st.pcbs[q := st.pcbs[q].(ready := true)]), q, st.services, true, random);
  }

  lemma DupOneSpills(st: State, q: nat, random: nat)
    requires Shaped(st) && q < |st.pcbs|
    ensures DupOne(st, q, random).spilt == st.spilt
  {
    hide Announce, Without;
    var o := OtherPcb(st, q);
    if o.Some? && st.pcbs[o.value].ready {
      var st1 := if st.pcbs[q].ready then st.(tx := Without(st.tx, q), pcbs := st.pcbs[q := OFFLINE]) else st;
      AnnounceSpills(st1.(pcbs := st1.pcbs[q := st1.pcbs[q].(state := Dup)]), o.value, [], true, random);
    }
  }

  // ---- When an action spills ----

  /** The action starts a probe of control block `q` with a list that does not fit. */
  ghost predicate Overruns(st: State, a: Action, q: nat)
    requires q < |st.pcbs|
  {
    var pcb := st.pcbs[q];
    match a
    case EnableIf(r, initOk, _) => r == q && initOk && st.services != [] && Leftover(pcb)
    case DisableIf(r, initOk, _) =>
      && r < |st.pcbs| && st.pcbs[r].ready && OtherPcb(st, r) == Some(q)
      && initOk && st.services != [] && pcb.state.Dup? && pcb.probeServices != []
    case _ => false
  }

  lemma ConflictSpills(st: State, a: Action)
    requires Shaped(st) && Enabled(st, a) && (a.SrvConflict? || a.TxtConflict? || a.AddressConflict?)
    requires Fitting(st) && (Leftover(st.pcbs[a.q]) ==> st.pcbs[a.q].probeRunning)
    ensures Step(st, a).spilt == st.spilt
  {
    hide InitProbe, ProbeFirst, PacketMentionsOnly, Subset, NoDuplicates;
    var counted := CountFailure(st, a.q);
    assert Fitting(counted) && Fitting(counted.(tx := []));
    match a
    case SrvConflict(q, s, rename, r) =>
      InitProbeSpills(st, q, [s], false, r(q));
      ProbeFirstSpills(counted, |st.pcbs|, [s], false, false, r);
      ProbeFirstSpills(counted.(tx := []), |st.pcbs|, st.services, true, true, r);
      if rename.RenameInstance? {
        ProbeFirstSpills(counted, |st.pcbs|, rename.noInstance, false, true, r);
      }
    case TxtConflict(q, s, random) => InitProbeSpills(st, q, [s], true, random);
    case AddressConflict(q, r) =>
      InitProbeSpills(st, q, [], true, r(q));
      ProbeFirstSpills(counted.(tx := []), |st.pcbs|, st.services, true, true, r);
  }

  lemma CommandSpills(st: State, a: Action)
    requires Shaped(st) && Enabled(st, a) && Fitting(st)
    requires a.HostnameSet? || a.InstanceSet? || a.ServiceAdd? || a.ServiceInstanceSet? || a.ServicePortSet? || a.ServiceTxtSet?
    ensures Step(st, a).spilt == st.spilt
  {
    hide ProbeFirst, AnnounceFirst, PacketMentionsOnly, Subset, NoDuplicates;
    var all := |st.pcbs|;
    match a
    case HostnameSet(r) => ProbeFirstSpills(st.(hostSet := true, tx := []), all, st.services, true, true, r);
    case InstanceSet(none, r) => ProbeFirstSpills(st, all, none, false, true, r);
    case ServiceAdd(s, r) => ProbeFirstSpills(st.(services := [s] + st.services), all, [s], false, false, r);
    case ServiceInstanceSet(s, r) => ProbeFirstSpills(st, all, [s], false, false, r);
    case ServicePortSet(s, r) => AnnounceFirstSpills(st, all, [s], true, r);
    case ServiceTxtSet(s, r) => AnnounceFirstSpills(st, all, [s], false, r);
  }

  lemma {:induction false} RemoveEachSpills(st: State, services: seq<Service>)
    ensures RemoveEach(st, services).spilt == st.spilt
    decreases |services|
  {
    if services != [] {
      RemoveEachSpills(RemoveScheduled(st, services[0]), services[1..]);
    }
  }

  lemma QuietSpills(st: State, a: Action)
    requires Shaped(st) && Enabled(st, a)
    requires a.Clock? || a.Tick? || a.TxHandle? || a.AnnounceIf? || a.OwnAddressSeen? || a.AnswerSeen? || a.QuerySeen?
             || a.ServiceDelete? || a.ServicesClearAll?
    ensures Step(st, a).spilt == st.spilt
  {
    hide Timer, ExecuteNext, Announce, DupOne, DropScheduledAnswer, RemoveEach, PurgeQueue, Insert, PacketMentionsOnly;
    match a
    case Clock(_) =>
    case Tick(room) => TimerKeeps(st, room);
    case TxHandle => HandlingSpills(st);
    case AnnounceIf(q, random) => AnnounceSpills(st, q, [], true, random);
    case OwnAddressSeen(i, r) =>
      DupOneStays(st, 2 * i, r(0), 0);
      DupOneSpills(st, 2 * i, r(0));
      DupOneSpills(DupOne(st, 2 * i, r(0)), 2 * i + 1, r(1));
    case AnswerSeen(_, _, _) =>
    case QuerySeen(_, _, _) =>
    case ServiceDelete(_) =>
    case ServicesClearAll => RemoveEachSpills(st.(services := []), st.services);
  }

  lemma HandlingSpills(st: State)
    ensures ExecuteNext(st).spilt == st.spilt
  {
    hide Insert, FromProbe, UnicastFlags;
  }

  /** Disabling an interface spills on the one that takes its place, if that one kept a list. */
  lemma DisableSpills(st: State, q: nat, initOk: bool, random: nat)
    requires Shaped(st) && q < |st.pcbs| && OtherPcb(st, q) != Some(q)
    requires forall o :: 0 <= o < |st.pcbs| && st.pcbs[o].state.Dup? ==> !st.pcbs[o].ready && (st.pcbs[o].probeServices != [] ==> st.hostSet)
    ensures var o := OtherPcb(st, q);
            Disable(st, q, initOk, random).spilt ==
            if o.Some? && st.pcbs[q].ready && initOk && st.services != [] && st.pcbs[o.value].state.Dup? && st.pcbs[o.value].probeServices != []
            then st.spilt + [o.value] else st.spilt
  {
    hide Enable, Without;
    var o := OtherPcb(st, q);
    if o.Some? && st.pcbs[q].ready && st.pcbs[o.value].state.Dup? {
      var off := st.(tx := Without(st.tx, q), pcbs := st.pcbs[q := OFFLINE]);
      EnableSpills(off.(pcbs := off.pcbs[o.value := off.pcbs[o.value].(state := Off)]), o.value, initOk, random);
    }
  }

  /** Only a control block that has probed since the responder got its name has kept services, and it counts as running a probe. */
  lemma KeptServices(st: State, q: nat, known: seq<Service>)
    requires Inv(st, known) && q < |st.pcbs|
    ensures st.pcbs[q].probeServices != [] ==> st.hostSet && st.pcbs[q].probeRunning
    ensures st.pcbs[q].state.Dup? || st.pcbs[q].state.Off? ==> !st.pcbs[q].ready
  {
    assert Life(st, q);
    assert !st.hostSet ==> Idle(st.pcbs[q]);
  }

  /** A step spills on exactly the control blocks on which its action overruns, and on at most one. */
  lemma SpillsExactly(st: State, a: Action, known: seq<Service>)
    requires Inv(st, known) && Shaped(st) && Enabled(st, a)
    ensures forall q :: 0 <= q < |st.pcbs| ==> (Overruns(st, a, q) <==> Step(st, a).spilt == st.spilt + [q])
    ensures (forall q :: 0 <= q < |st.pcbs| ==> !Overruns(st, a, q)) ==> Step(st, a).spilt == st.spilt
  {
    hide Inv, Step, Enabled, Fitting, Leftover, Overruns;
    InvFits(st, known);
    forall q | 0 <= q < |st.pcbs|
      ensures st.pcbs[q].probeServices != [] ==> st.hostSet && st.pcbs[q].probeRunning
      ensures st.pcbs[q].state.Dup? || st.pcbs[q].state.Off? ==> !st.pcbs[q].ready
    {
      KeptServices(st, q, known);
    }
    if a.EnableIf? || a.DisableIf? {
      InterfaceSpillsExactly(st, a);
    } else {
      NeverOverruns(st, a);
      if a.SrvConflict? || a.TxtConflict? || a.AddressConflict? {
        LeftoverRunning(st, a);
        ConflictSpills(st, a);
      } else if a.HostnameSet? || a.InstanceSet? || a.ServiceAdd? || a.ServiceInstanceSet? || a.ServicePortSet? || a.ServiceTxtSet? {
        CommandSpills(st, a);
      } else {
        QuietSpills(st, a);
      }
      LongerBy(st.spilt);
    }
  }

  lemma LongerBy(list: seq<nat>)
    ensures forall q :: list != list + [q]
  {
    forall q ensures list != list + [q] {
      assert |list + [q]| == |list| + 1;
    }
  }

  lemma NeverOverruns(st: State, a: Action)
    requires !a.EnableIf? && !a.DisableIf?
    ensures forall q :: 0 <= q < |st.pcbs| ==> !Overruns(st, a, q)
  {
  }

  lemma LeftoverRunning(st: State, a: Action)
    requires Enabled(st, a) && (a.SrvConflict? || a.TxtConflict? || a.AddressConflict?)
    requires forall q :: 0 <= q < |st.pcbs| ==> (st.pcbs[q].probeServices != [] ==> st.hostSet && st.pcbs[q].probeRunning)
    ensures a.q < |st.pcbs| && (Leftover(st.pcbs[a.q]) ==> st.pcbs[a.q].probeRunning)
  {
  }

  lemma InterfaceSpillsExactly(st: State, a: Action)
    requires Shaped(st) && Enabled(st, a) && (a.EnableIf? || a.DisableIf?) && Fitting(st)
    requires forall q :: 0 <= q < |st.pcbs| ==>
               (st.pcbs[q].probeServices != [] ==> st.hostSet && st.pcbs[q].probeRunning)
               && (st.pcbs[q].state.Dup? || st.pcbs[q].state.Off? ==> !st.pcbs[q].ready)
    ensures forall q :: 0 <= q < |st.pcbs| ==> (Overruns(st, a, q) <==> Step(st, a).spilt == st.spilt + [q])
    ensures (forall q :: 0 <= q < |st.pcbs| ==> !Overruns(st, a, q)) ==> Step(st, a).spilt == st.spilt
  {
    hide Enable, Disable;
    LongerBy(st.spilt);
    forall q, o | st.spilt + [q] == st.spilt + [o] ensures q == o {
      assert (st.spilt + [q])[|st.spilt|] == (st.spilt + [o])[|st.spilt|];
    }
    match a
    case EnableIf(r, initOk, random) => EnableSpills(st, r, initOk, random);
    case DisableIf(r, initOk, random) => DisableSpills(st, r, initOk, random);
  }

  // ---- Which control blocks keep a list ----

  /** The action leaves a list of services with a control block that does not count as probing. */
  ghost predicate Leaves(st: State, a: Action, q: nat)
    requires q < |st.pcbs|
  {
    var pcb := st.pcbs[q];
    match a
    case DisableIf(r, initOk, _) =>
      pcb.probeServices != [] &&
      if r == q then !pcb.ready
      else r < |st.pcbs| && st.pcbs[r].ready && OtherPcb(st, r) == Some(q) && pcb.state.Dup? && !initOk
    case _ => false
  }

  /** The action gives a control block that kept a list a state that counts as probing. */
  ghost predicate Takes(st: State, a: Action, q: nat)
    requires q < |st.pcbs|
  {
    match a
    case EnableIf(r, initOk, _) => r == q && initOk
    case OwnAddressSeen(i, _) => q / 2 == i && Yields(st, q)
    case _ => false
  }

  /** The duplicate of the interface is up, so the control block yields to it. */
  ghost predicate Yields(st: State, q: nat) {
    OtherPcb(st, q).Some? && OtherPcb(st, q).value < |st.pcbs| && st.pcbs[OtherPcb(st, q).value].ready
  }

  lemma DisableLeaves(st: State, r: nat, initOk: bool, random: nat, q: nat)
    requires Shaped(st) && r < |st.pcbs| && q < |st.pcbs| && !st.pcbs[q].ready && OtherPcb(st, r) != Some(r)
    ensures var pcb, pcb' := st.pcbs[q], Disable(st, r, initOk, random).pcbs[q];
            if r == q then pcb' == pcb.(state := Off)
            else if st.pcbs[r].ready && OtherPcb(st, r) == Some(q) && pcb.state.Dup? then
              if initOk then pcb'.ready else pcb' == pcb.(state := Off, failedProbes := 0)
            else pcb' == pcb
  {
    hide Enable, Without;
    var o := OtherPcb(st, r);
    if o.Some? && st.pcbs[r].ready {
      var off := st.(tx := Without(st.tx, r), pcbs := st.pcbs[r := OFFLINE]);
      var mid := off.(pcbs := off.pcbs[o.value := off.pcbs[o.value].(state := Off)]);
      EnableSelf(mid, o.value, initOk, random);
      if q != o.value {
        EnableApart(mid, o.value, initOk, random, q);
      }
    }
  }

  lemma DupLeaves(st: State, r: nat, random: nat, q: nat)
    requires Shaped(st) && r < |st.pcbs| && q < |st.pcbs| && !st.pcbs[q].ready && OtherPcb(st, r) != Some(r)
    ensures var st' := DupOne(st, r, random);
            |st'.pcbs| == |st.pcbs| && st'.pcbs[q] == if r == q && Yields(st, q) then st.pcbs[q].(state := Dup) else st.pcbs[q]
  {
    hide Announce, Without, Present;
    var o := OtherPcb(st, r);
    if o.Some? && st.pcbs[o.value].ready {
      var st1 := if st.pcbs[r].ready then st.(tx := Without(st.tx, r), pcbs := st.pcbs[r := OFFLINE]) else st;
      AnnounceApart(st1.(pcbs := st1.pcbs[r := st1.pcbs[r].(state := Dup)]), o.value, [], true, random, q);
    }
  }

  lemma DupInterfaceLeaves(st: State, a: Action, q: nat)
    requires Shaped(st) && Enabled(st, a) && a.OwnAddressSeen? && q < |st.pcbs| && !st.pcbs[q].ready
    ensures var st' := Step(st, a);
            |st'.pcbs| == |st.pcbs| && st'.pcbs[q] == if q / 2 == a.iface && Yields(st, q) then st.pcbs[q].(state := Dup) else st.pcbs[q]
  {
    hide DupOne;
    var OwnAddressSeen(i, r) := a;
    var st1 := DupOne(st, 2 * i, r(0));
    DupLeaves(st, 2 * i, r(0), q);
    DupReady(st, 2 * i, r(0), q);
    DupLeaves(st1, 2 * i + 1, r(1), q);
  }

  lemma HandleLeaves(st: State, a: Action, q: nat)
    requires Shaped(st) && Enabled(st, a) && a.TxHandle? && q < |st.pcbs| && Sound(st.pcbs[q])
    ensures var st' := Step(st, a);
            |st'.pcbs| == |st.pcbs| && (Leftover(st'.pcbs[q]) <==> Leftover(st.pcbs[q]))
  {
    hide HandlePacket, Present, Sound, Leftover;
    if st.tx == [] || st.tx[0].pcb != q {
      ExecuteApart(st, q);
    } else if st.pending != [] && st.tx[0].id == st.pending[0] && st.tx[0].queued {
      HandledLeaves(st.(tx := st.tx[1..], pending := st.pending[1..]), st.tx[0].(queued := false));
    }
  }

  lemma HandledLeaves(st: State, p: Packet)
    requires p.pcb < |st.pcbs| && Sound(st.pcbs[p.pcb])
    ensures var st' := HandlePacket(st, p);
            |st'.pcbs| == |st.pcbs| && (Leftover(st'.pcbs[p.pcb]) <==> Leftover(st.pcbs[p.pcb]))
  {
    hide HandlePacket, Insert, FromProbe, Quiet, UnicastFlags;
    var state := st.pcbs[p.pcb].state;
    if state.Probe1? || state.Probe2? {
      HandleProbeIs(st, p);
    } else if state.Probe3? {
      HandleLastProbeIs(st, p);
    } else {
      HandleRest(st, p);
      HandledState(st, p);
    }
  }

  lemma HandledState(st: State, p: Packet)
    requires p.pcb < |st.pcbs| && !st.pcbs[p.pcb].state.Probing()
    ensures var state, state' := st.pcbs[p.pcb].state, HandlePacket(st, p).pcbs[p.pcb].state;
            state' == state || (!state.Off? && !state.CountsAsProbing() && !state'.Off? && !state'.CountsAsProbing())
  {
    hide Insert, UnicastFlags;
  }

  /** What an action other than the switching of interfaces does to one that is down and stays so. */
  lemma OthersLeave(st: State, a: Action, q: nat, known: seq<Service>)
    requires Inv(st, known) && Shaped(st) && Enabled(st, a) && q < |st.pcbs| && !st.pcbs[q].ready
    requires !a.EnableIf? && !a.DisableIf? && !a.OwnAddressSeen?
    ensures |Step(st, a).pcbs| == |st.pcbs| && (Leftover(Step(st, a).pcbs[q]) <==> Leftover(st.pcbs[q]))
  {
    hide Inv, Step, Enabled, Shaped, Sound, Present, Rid;
    InvSound(st, q, known);
    KeptServices(st, q, known);
    if a.TxHandle? {
      HandleLeaves(st, a, q);
    } else if a.SrvConflict? || a.TxtConflict? || a.AddressConflict? {
      ConflictLeaves(st, a, q);
    } else if a.ServiceDelete? || a.ServicesClearAll? {
      RemovalLeaves(st, a, q, known);
    } else if Ambient(a) {
      InvOrdered(st, known);
      AmbientApart(st, a, q);
    } else {
      QuietLeaves(st, a, q);
    }
  }

  lemma ConflictLeaves(st: State, a: Action, q: nat)
    requires Shaped(st) && Enabled(st, a) && (a.SrvConflict? || a.TxtConflict? || a.AddressConflict?)
    requires q < |st.pcbs| && !st.pcbs[q].ready && (st.pcbs[q].probeServices != [] ==> st.pcbs[q].probeRunning)
    ensures |Step(st, a).pcbs| == |st.pcbs| && (Leftover(Step(st, a).pcbs[q]) <==> Leftover(st.pcbs[q]))
  {
    hide Step, Enabled, Shaped, Present;
    if a.q == q && !st.pcbs[q].probeRunning {
      ConflictHere(st, a);
    } else {
      ConflictNames(st, a);
      ConflictElsewhere(st, a, q);
    }
  }

  lemma RemovalLeaves(st: State, a: Action, q: nat, known: seq<Service>)
    requires Inv(st, known) && Shaped(st) && (a.ServiceDelete? || a.ServicesClearAll?) && q < |st.pcbs| && !st.pcbs[q].ready
    ensures |Step(st, a).pcbs| == |st.pcbs| && Step(st, a).pcbs[q] == st.pcbs[q]
  {
    hide Inv, Step;
    RemovalRids(st, a, known);
  }

  lemma QuietLeaves(st: State, a: Action, q: nat)
    requires Shaped(st) && Enabled(st, a) && (a.HostnameSet? || a.QuerySeen?) && q < |st.pcbs| && !st.pcbs[q].ready
    ensures |Step(st, a).pcbs| == |st.pcbs| && Step(st, a).pcbs[q] == st.pcbs[q]
  {
    hide RestartAll, Respond, Present, PacketMentionsOnly;
    match a
    case HostnameSet(randoms) => RestartDown(st.(hostSet := true), randoms, q);
    case QuerySeen(r, response, delay) => RespondApart(st, r, response, delay, q);
  }

  lemma UpLeavesNothing(st: State, a: Action, q: nat, known: seq<Service>)
    requires Inv(st, known) && Shaped(st) && Enabled(st, a) && q < |st.pcbs| && st.pcbs[q].ready
    ensures |Step(st, a).pcbs| == |st.pcbs| && !Leftover(Step(st, a).pcbs[q])
  {
    hide Inv, Step, Enabled, Shaped, Present, Sound, Leftover;
    StepSize(st, a);
    RestsExactly(st, a, q, known);
    StepInv(st, a, known);
    var st' := Step(st, a);
    if st'.pcbs[q].ready {
      InvFits(st', KnownAfter(known, a));
    } else {
      NothingKept(st'.pcbs[q]);
    }
  }

  lemma NothingKept(pcb: Pcb)
    requires pcb.probeServices == []
    ensures !Leftover(pcb)
  {
  }

  /**
   A control block keeps a list without counting as probing exactly if the action leaves one with it, by
   disabling it while it is down or failing to revive it as a duplicate, or if it kept one before and is
   neither enabled nor made a duplicate again.
   */
  lemma LeftoverExactly(st: State, a: Action, q: nat, known: seq<Service>)
    requires Inv(st, known) && Shaped(st) && Enabled(st, a) && q < |st.pcbs|
    ensures |Step(st, a).pcbs| == |st.pcbs|
    ensures Leftover(Step(st, a).pcbs[q]) <==> Leaves(st, a, q) || (Leftover(st.pcbs[q]) && !Takes(st, a, q))
  {
    hide Inv, Step, Enabled, Shaped, Sound, Leftover, Leaves, Takes, Yields;
    KeptServices(st, q, known);
    if st.pcbs[q].ready {
      UpLeavesNothing(st, a, q, known);
      InvFits(st, known);
      UpNotLeft(st, a, q);
    } else if a.EnableIf? || a.DisableIf? || a.OwnAddressSeen? {
      InvSound(st, q, known);
      SwitchLeaves(st, a, q, known);
    } else {
      OthersLeave(st, a, q, known);
      NoSwitch(st, a, q);
    }
  }

  lemma UpNotLeft(st: State, a: Action, q: nat)
    requires q < |st.pcbs| && st.pcbs[q].ready && !st.pcbs[q].state.Dup?
    ensures !Leaves(st, a, q)
  {
  }

  lemma NoSwitch(st: State, a: Action, q: nat)
    requires q < |st.pcbs| && !a.EnableIf? && !a.DisableIf? && !a.OwnAddressSeen?
    ensures !Leaves(st, a, q) && !Takes(st, a, q)
  {
  }

  lemma SwitchLeaves(st: State, a: Action, q: nat, known: seq<Service>)
    requires Inv(st, known) && Shaped(st) && Enabled(st, a) && (a.EnableIf? || a.DisableIf? || a.OwnAddressSeen?)
    requires q < |st.pcbs| && !st.pcbs[q].ready && Sound(st.pcbs[q])
    ensures |Step(st, a).pcbs| == |st.pcbs|
    ensures Leftover(Step(st, a).pcbs[q]) <==> Leaves(st, a, q) || (Leftover(st.pcbs[q]) && !Takes(st, a, q))
  {
    hide Inv, Enable, Disable, DupInterface, Present;
    StepSize(st, a);
    StepInv(st, a, known);
    InvFits(Step(st, a), KnownAfter(known, a));
    match a
    case EnableIf(r, initOk, random) =>
      EnableSelf(st, r, initOk, random);
      if r != q {
        EnableApart(st, r, initOk, random, q);
      }
    case DisableIf(r, initOk, random) => DisableLeaves(st, r, initOk, random, q);
    case OwnAddressSeen(_, _) => DupInterfaceLeaves(st, a, q);
  }

  // ---- Whole runs ----

  /** On every run, a control block that is up, or on which no conflict was processed while it was down, starts no probe that spills. */
  lemma UndisturbedFits(states: seq<State>, actions: seq<Action>, i: nat, q: nat)
    requires IsRun(states, actions) && i < |actions| && q < |states[i].pcbs|
    requires states[i].pcbs[q].ready || Undisturbed(states, actions, i, q)
    ensures !Leftover(states[i].pcbs[q]) && !Overruns(states[i], actions[i], q)
  {
    hide Inv, Step, Enabled, Shaped, Present;
    RunInv(states, actions, i);
    InvFits(states[i], Registered(actions[..i]));
    KeptServices(states[i], q, Registered(actions[..i]));
    if !states[i].pcbs[q].ready {
      UndisturbedRests(states, actions, i, q);
    }
  }

  /** A control block has spilt on a run exactly if one of the actions overran on it. */
  lemma {:induction false} RunSpillsExactly(states: seq<State>, actions: seq<Action>, n: nat, q: nat)
    requires IsRun(states, actions) && n < |states| && q < |states[0].pcbs|
    ensures forall j :: 0 <= j <= n ==> |states[j].pcbs| == |states[0].pcbs|
    ensures q in states[n].spilt <==> exists j :: 0 <= j < n && Overruns(states[j], actions[j], q)
  {
    hide Inv, Step, Enabled, Shaped, Overruns;
    if n == 0 {
      assert states[0].spilt == [];
    } else {
      RunSpillsExactly(states, actions, n - 1, q);
      StepOf(states, actions, n - 1);
      StepSize(states[n - 1], actions[n - 1]);
      RunInv(states, actions, n - 1);
      StepSpillsOn(states[n - 1], actions[n - 1], q, Registered(actions[..n - 1]));
    }
  }

  lemma StepSpillsOn(st: State, a: Action, q: nat, known: seq<Service>)
    requires Inv(st, known) && Shaped(st) && Enabled(st, a) && q < |st.pcbs|
    ensures q in Step(st, a).spilt <==> q in st.spilt || Overruns(st, a, q)
  {
    hide Inv, Step, Enabled, Shaped, Overruns;
    SpillsExactly(st, a, known);
    if !Overruns(st, a, q) && Step(st, a).spilt != st.spilt {
      var o :| 0 <= o < |st.pcbs| && Overruns(st, a, o);
      assert o != q && Step(st, a).spilt == st.spilt + [o];
    }
  }

  /**
   A service conflict arrives on an interface that is down, the interface is disabled and enabled again:
   the list of its next probe does not fit.
   */
  lemma ListTooLong(s: Service) returns (states: seq<State>, actions: seq<Action>)
    ensures IsRun(states, actions) && |actions| == 5 && forall i :: 0 <= i <= 5 ==> |states[i].pcbs| == 2
    ensures actions[3] == DisableIf(0, true, 0) && Leaves(states[3], actions[3], 0) && Leftover(states[4].pcbs[0])
    ensures actions[4] == EnableIf(0, true, 0) && Overruns(states[4], actions[4], 0) && states[5].spilt == [0]
  {
    hide Step, Enabled, Shaped, Inv, Reprobe, Enable, Disable, Leaves, Overruns;
    var st0 := Start([1]);
    var st1 := st0.(hostSet := true);
    var st2 := st1.(services := [s]);
    var st3 := Reprobe(st2, 0, [s], false, 0);
    ConflictWhileDown(s);
    ReprobeKeeps(st2, s);
    DisabledWhileProbed(st3, s);
    var st4 := Disable(st3, 0, true, 0);
    EnabledWithLeftover(st4, s);
    states := [st0, st1, st2, st3, st4, Enable(st4, 0, true, 0)];
    actions := [HostnameSet(NONE), ServiceAdd(s, NONE), SrvConflict(0, s, RenameService, NONE), DisableIf(0, true, 0), EnableIf(0, true, 0)];
    assert st0 == Start([1]);
  }

  lemma ReprobeKeeps(st: State, s: Service)
    requires |st.pcbs| == 2 && st.pcbs[0] == OFFLINE
    ensures var st' := Reprobe(st, 0, [s], false, 0); st'.partner == st.partner && st'.spilt == st.spilt
  {
    hide Insert, Without, ProbePacket, Fresh;
  }

  lemma DisabledWhileProbed(st: State, s: Service)
    requires ProbedWhileDown(st, s) && st.services == [s] && st.partner == [1] && st.spilt == []
    ensures Shaped(st) && Enabled(st, DisableIf(0, true, 0)) && Step(st, DisableIf(0, true, 0)) == Disable(st, 0, true, 0)
    ensures Leaves(st, DisableIf(0, true, 0), 0)
    ensures var st' := Disable(st, 0, true, 0);
            Inv(st', [s]) && st' == st.(pcbs := st.pcbs[0 := st.pcbs[0].(state := Off)])
  {
    hide Inv;
    InvShape(st, [s]);
    StepInv(st, DisableIf(0, true, 0), [s]);
  }

  lemma EnabledWithLeftover(st: State, s: Service)
    requires Inv(st, [s]) && st.hostSet && st.services == [s] && st.spilt == [] && |st.pcbs| == 2
    requires st.pcbs[0].state.Off? && st.pcbs[0].probeServices == [s]
    ensures Shaped(st) && Enabled(st, EnableIf(0, true, 0)) && Step(st, EnableIf(0, true, 0)) == Enable(st, 0, true, 0)
    ensures Overruns(st, EnableIf(0, true, 0), 0) && Enable(st, 0, true, 0).spilt == [0] && |Enable(st, 0, true, 0).pcbs| == 2
  {
    hide Inv, InitProbe;
    InvShape(st, [s]);
    EnableSpills(st, 0, true, 0);
  }
}
