/**
 What each engine operation does to the state, as functions. `MdnsServer` proves its loops and
 field updates equal to these; the invariants are proved about them.
 */
module MdnsSpec {
  import opened Common
  import opened MdnsState

  // ---- Transmit queue ----

  /** A packet goes behind every packet due no later than itself. */
  function Insert(tx: seq<Packet>, p: Packet): seq<Packet> {
    if tx == [] || tx[0].sendAt > p.sendAt then [p] + tx else [tx[0]] + Insert(tx[1..], p)
  }

  function Schedule(st: State, p: Packet, after: nat): State {
    st.(tx := Insert(st.tx, p.(sendAt := st.now + after)))
  }

  /** The packets of a queue that do not belong to control block `q`. */
  function Without(tx: seq<Packet>, q: nat): seq<Packet> {
    if tx == [] then [] else (if tx[0].pcb == q then [] else [tx[0]]) + Without(tx[1..], q)
  }

  function FirstOf(tx: seq<Packet>, q: nat): (i: nat)
    ensures i <= |tx| && (i < |tx| ==> tx[i].pcb == q)
    ensures forall k :: 0 <= k < i ==> tx[k].pcb != q
  {
    if tx == [] || tx[0].pcb == q then 0 else 1 + FirstOf(tx[1..], q)
  }

  // ---- Packet contents ----

  function AddAnswer(list: seq<Answer>, a: Answer): seq<Answer>
  {
    if a in list then list else list + [a]
  }

  /** Removes the first answer of a type and service, if any. */
  function DropFirst(list: seq<Answer>, typ: RecordType, svc: Option<Service>): seq<Answer>
  {
    if list == [] then []
    else if list[0].typ == typ && list[0].svc == svc then
      list[1..]
    else
      [list[0]] + DropFirst(list[1..], typ, svc)
  }

  /** Removes every answer of a service. */
  function DropService(list: seq<Answer>, s: Service): seq<Answer>
  {
    if list == [] then []
    else
      (if list[0].svc == Some(s) then [] else [list[0]]) + DropService(list[1..], s)
  }

  /** The four records that publish a service. */
  function AddServiceAnswers(list: seq<Answer>, s: Service): seq<Answer>
  {
    AddAnswer(AddAnswer(AddAnswer(AddAnswer(list,
      Answer(SDPTR, Some(s), None)), Answer(PTR, Some(s), None)), Answer(SRV, Some(s), None)), Answer(TXT, Some(s), None))
  }

  function AddAllServiceAnswers(list: seq<Answer>, services: seq<Service>): seq<Answer>
    decreases |services|
  {
    if services == [] then list else AddAllServiceAnswers(AddServiceAnswers(list, services[0]), services[1..])
  }

  /** Address records of a host. */
  function AddHost(list: seq<Answer>, h: Option<Host>): seq<Answer>
  {
    AddAnswer(AddAnswer(list, Answer(RecordType.A, None, h)), Answer(AAAA, None, h))
  }

  function AddHostsOf(list: seq<Answer>, services: seq<Service>): seq<Answer>
    decreases |services|
  {
    if services == [] then list else AddHostsOf(AddHost(list, services[0].host), services[1..])
  }

  /** Without services the responder's own host is listed. */
  function AddHostList(list: seq<Answer>, services: seq<Service>): seq<Answer>
  {
    if services == [] then AddHost(list, Some(SelfHost)) else AddHostsOf(list, services)
  }

  predicate Asked(questions: seq<Question>, subject: Subject) {
    exists i :: 0 <= i < |questions| && questions[i].subject == subject
  }

  function AddQuestion(questions: seq<Question>, subject: Subject): seq<Question> {
    if Asked(questions, subject) then questions else questions + [Question(subject, true)]
  }

  /** Questions and tentative SRV records of a probe, service by service. */
  function ProbeServices(questions: seq<Question>, servers: seq<Answer>, services: seq<Service>)
    : (r: (seq<Question>, seq<Answer>))
    decreases |services|
  {
    if services == [] then (questions, servers)
    else
      var s := services[0];
      if Asked(questions, OfService(s)) then ProbeServices(questions, servers, services[1..])
      else
        ProbeServices(questions + [Question(OfService(s), true)],
                      AddAnswer(servers, Answer(SRV, Some(s), None)), services[1..])
  }

  function HostQuestions(questions: seq<Question>, services: seq<Service>): seq<Question>
    decreases |services|
  {
    if services == [] then questions
    else HostQuestions(AddQuestion(questions, OfHost(Some(services[0]))), services[1..])
  }

  function BlankPacket(id: nat, q: nat): Packet {
    Packet(id, 0, q, [], [], [], [], false, false)
  }

  function ProbePacket(id: nat, q: nat, services: seq<Service>, withIp: bool): Packet {
    var (qs, srv) := ProbeServices([], [], services);
    if withIp then
      BlankPacket(id, q).(
        questions := HostQuestions(AddQuestion(qs, OfHost(None)), services),
        servers := AddHostList(srv, services))
    else
      BlankPacket(id, q).(questions := qs, servers := srv)
  }

  function AnnouncePacket(id: nat, q: nat, services: seq<Service>, withIp: bool): Packet {
    BlankPacket(id, q).(
      answers := AddAllServiceAnswers([], services),
      servers := if withIp then AddHostList([], services) else [])
  }

  /** The answers announced for the records tentatively claimed by a probe. */
  function FromProbe(answers: seq<Answer>, servers: seq<Answer>): seq<Answer>
    decreases |servers|
  {
    if servers == [] then answers
    else
      var s := servers[0];
      var next :=
        if s.typ == SRV && s.svc.Some? then AddHost(AddServiceAnswers(answers, s.svc.value), s.svc.value.host)
        else if s.typ == RecordType.A || s.typ == AAAA then AddAnswer(answers, Answer(s.typ, None, s.host))
        else answers;
      FromProbe(next, servers[1..])
  }

  // ---- Probing and announcing one control block ----

  /** The services to probe that are not being probed yet. */
  function Fresh(services: seq<Service>, probing: seq<Service>): seq<Service>
  {
    if services == [] then []
    else (if services[0] in probing then [] else [services[0]]) + Fresh(services[1..], probing)
  }

  predicate NoDuplicates(services: seq<Service>) {
    forall i, j :: 0 <= i < j < |services| ==> services[i] != services[j]
  }

  function ProbeDelay(failedProbes: nat, random: nat): nat {
    (if failedProbes > 5 then 1000 else 120) + random % 128
  }

  /**
   The list of services is allocated for the new ones, and for those of the old list only while probing;
   the old list is copied behind the new ones in any case, unless there is nothing to allocate.
   */
  predicate Spills(pcb: Pcb, services: seq<Service>) {
    services != [] && !pcb.state.CountsAsProbing() && pcb.probeServices != []
  }

  /** The services probed after a restart: the given ones and those already being probed. */
  function Probed(pcb: Pcb, services: seq<Service>): seq<Service> {
    services + if pcb.state.CountsAsProbing() then pcb.probeServices else []
  }

  function StartProbe(st: State, q: nat, services: seq<Service>, probeIp: bool, random: nat): State
    requires q < |st.pcbs|
  {
    var pcb := st.pcbs[q];
    var all := Probed(pcb, services);
    var withIp := pcb.probeIp || probeIp;
    var p := ProbePacket(st.nextId, q, all, withIp);
    Schedule(st.(nextId := st.nextId + 1,
                 out := st.out + [ProbeRestart(q, st.now)],
                 spilt := if Spills(pcb, services) then st.spilt + [q] else st.spilt,
                 pcbs := st.pcbs[q := pcb.(state := Probe1, probeServices := all, probeIp := withIp, probeRunning := true)]),
             p, ProbeDelay(pcb.failedProbes, random))
  }

  /** A probe restarted for one control block; its scheduled packets are dropped first. */
  function InitProbe(st: State, q: nat, services: seq<Service>, probeIp: bool, random: nat): State
    requires q < |st.pcbs|
  {
    var cleared := st.(tx := Without(st.tx, q));
    var pcb := st.pcbs[q];
    if !st.hostSet then cleared.(pcbs := st.pcbs[q := pcb.(state := Running)])
    else if pcb.state.CountsAsProbing() then
      StartProbe(cleared, q, Fresh(services, pcb.probeServices), probeIp, random)
    else
      StartProbe(cleared, q, services, probeIp, random)
  }

  /** More records announced with the packet that is next to go out. */
  function Merge(p: Packet, services: seq<Service>, withIp: bool): Packet {
    var answers := AddAllServiceAnswers(p.answers, services);
    if withIp then
      p.(answers := AddHostList(answers, services),
         additional := DropFirst(DropFirst(p.additional, RecordType.A, None), AAAA, None))
    else
      p.(answers := answers)
  }

  function Announce(st: State, q: nat, services: seq<Service>, withIp: bool, random: nat): State
    requires q < |st.pcbs|
  {
    var pcb := st.pcbs[q];
    if !pcb.ready then st
    else if pcb.state.CountsAsProbing() then InitProbe(st, q, services, withIp, random)
    else if pcb.state.Announcing() then
      var i := FirstOf(st.tx, q);
      if i == |st.tx| then st
      else st.(tx := st.tx[i := Merge(st.tx[i], services, withIp)], pcbs := st.pcbs[q := pcb.(state := Announce1)])
    else if pcb.state.Running? && st.hostSet then
      Schedule(st.(nextId := st.nextId + 1, pcbs := st.pcbs[q := pcb.(state := Announce1)]),
               AnnouncePacket(st.nextId, q, services, withIp), 0)
    else st
  }

  // ---- All control blocks, in the order of the source's nested loops ----

  function ProbeOne(st: State, q: nat, services: seq<Service>, probeIp: bool, clearOld: bool, random: nat): State
    requires q < |st.pcbs|
  {
    var pcb := st.pcbs[q];
    if !pcb.ready then st
    else
      var st' := if clearOld then st.(pcbs := st.pcbs[q := pcb.(probeServices := [], probeRunning := false)]) else st;
      InitProbe(st', q, services, probeIp, random)
  }

  function ProbeFirst(st: State, n: nat, services: seq<Service>, probeIp: bool, clearOld: bool, random: nat -> nat): (r: State)
    requires n <= |st.pcbs|
    ensures |r.pcbs| == |st.pcbs|
  {
    if n == 0 then st
    else ProbeOne(ProbeFirst(st, n - 1, services, probeIp, clearOld, random), n - 1, services, probeIp, clearOld, random(n - 1))
  }

  function ProbeAll(st: State, services: seq<Service>, probeIp: bool, clearOld: bool, random: nat -> nat): State {
    ProbeFirst(st, |st.pcbs|, services, probeIp, clearOld, random)
  }

  function AnnounceFirst(st: State, n: nat, services: seq<Service>, withIp: bool, random: nat -> nat): (r: State)
    requires n <= |st.pcbs|
    ensures |r.pcbs| == |st.pcbs|
  {
    if n == 0 then st
    else Announce(AnnounceFirst(st, n - 1, services, withIp, random), n - 1, services, withIp, random(n - 1))
  }

  function AnnounceAll(st: State, services: seq<Service>, withIp: bool, random: nat -> nat): State {
    AnnounceFirst(st, |st.pcbs|, services, withIp, random)
  }

  function RestartAll(st: State, random: nat -> nat): State {
    ProbeAll(st.(tx := []), st.services, true, true, random)
  }

  // ---- Service removal ----

  /** Removes the first probe question whose service type and proto read like those of `s`. */
  function DropQuestion(questions: seq<Question>, s: Service): seq<Question> {
    if questions == [] then []
    else if questions[0].subject.OfService? && questions[0].subject.svc.typ == s.typ then questions[1..]
    else [questions[0]] + DropQuestion(questions[1..], s)
  }

  function IndexOf(services: seq<Service>, s: Service): (i: nat)
    ensures i <= |services| && (i < |services| ==> services[i] == s)
    ensures i == |services| <==> s !in services
  {
    if services == [] then 0
    else
      assert services == [services[0]] + services[1..];
      if services[0] == s then 0 else 1 + IndexOf(services[1..], s)
  }

  /** Effect of removing service `s` on one packet and on the control block that owns it. */
  function Purge(pcb: Pcb, p: Packet, s: Service): (Pcb, Packet) {
    var p' := p.(answers := DropService(p.answers, s),
                 additional := DropService(p.additional, s),
                 servers := DropService(p.servers, s));
    if !pcb.ready then (pcb, p')
    else if pcb.state.CountsAsProbing() then
      var i := IndexOf(pcb.probeServices, s);
      if i == |pcb.probeServices| then (pcb, p')
      else
        var pcb' := pcb.(probeServices := pcb.probeServices[..i] + pcb.probeServices[i + 1..]);
        (if pcb'.probeServices == [] && !pcb.probeIp then pcb'.(probeRunning := false, state := Running) else pcb',
         p'.(questions := DropQuestion(p.questions, s)))
    else if pcb.state.Announcing() && p.answers != [] && p'.answers == [] then
      (pcb.(state := Running), p')
    else (pcb, p')
  }

  /** `Purge` along the transmit queue; packets left without contents are dropped. */
  function PurgeQueue(pcbs: seq<Pcb>, tx: seq<Packet>, s: Service): (r: (seq<Pcb>, seq<Packet>))
    ensures |r.0| == |pcbs|
    decreases |tx|
  {
    if tx == [] then (pcbs, [])
    else if tx[0].pcb >= |pcbs| then
      var (pcbs', rest) := PurgeQueue(pcbs, tx[1..], s);
      (pcbs', [tx[0]] + rest)
    else
      var (pcb, p) := Purge(pcbs[tx[0].pcb], tx[0], s);
      var (pcbs', rest) := PurgeQueue(pcbs[tx[0].pcb := pcb], tx[1..], s);
      (pcbs', (if p.IsEmpty() then [] else [p]) + rest)
  }

  function RemoveScheduled(st: State, s: Service): State {
    var (pcbs, tx) := PurgeQueue(st.pcbs, st.tx, s);
    st.(pcbs := pcbs, tx := tx)
  }

  function ServiceDel(st: State, s: Service): State {
    var i := IndexOf(st.services, s);
    if i == |st.services| then st
    else RemoveScheduled(st.(services := st.services[..i] + st.services[i + 1..]), s)
  }

  function RemoveEach(st: State, services: seq<Service>): State
    decreases |services|
  {
    if services == [] then st else RemoveEach(RemoveScheduled(st, services[0]), services[1..])
  }

  function ServicesClear(st: State): State {
    RemoveEach(st.(services := []), st.services)
  }

  // ---- Executor and timer ----

  function Quiet(questions: seq<Question>): (r: seq<Question>)
    ensures |r| == |questions|
    ensures forall i :: 0 <= i < |r| ==> r[i] == questions[i].(unicast := false)
  {
    if questions == [] then [] else [questions[0].(unicast := false)] + Quiet(questions[1..])
  }

  function UnicastFlags(questions: seq<Question>): (r: seq<bool>)
    ensures |r| == |questions|
    ensures forall i :: 0 <= i < |r| ==> r[i] == questions[i].unicast
  {
    seq(|questions|, i requires 0 <= i < |questions| => questions[i].unicast)
  }

  /** A packet taken from the head of the queue is sent and its control block moves on. */
  function HandlePacket(st: State, p: Packet): State
    requires p.pcb < |st.pcbs|
  {
    var pcb := st.pcbs[p.pcb];
    if pcb.state.Off? then st
    else
      var sent := st.(out := st.out + [Sent(p.pcb, st.now, pcb.state, UnicastFlags(p.questions))]);
      match pcb.state
      case Probe1 =>
        Schedule(sent, p.(questions := Quiet(p.questions)), 250).(pcbs := st.pcbs[p.pcb := pcb.(state := Probe2)])
      case Probe2 =>
        Schedule(sent, p, 250).(pcbs := st.pcbs[p.pcb := pcb.(state := Probe3)])
      case Probe3 =>
        var a := BlankPacket(st.nextId, p.pcb).(answers := FromProbe([], p.servers));
        Schedule(sent.(nextId := st.nextId + 1, out := sent.out + [Announced(p.pcb, st.now)]), a, 250).(
          pcbs := st.pcbs[p.pcb := pcb.(state := Announce1, probeRunning := false, probeIp := false,
                                        probeServices := [], failedProbes := 0)])
      case Announce1 =>
        Schedule(sent, p, 1000).(pcbs := st.pcbs[p.pcb := pcb.(state := Announce2)])
      case Announce2 =>
        Schedule(sent, p, 1000).(pcbs := st.pcbs[p.pcb := pcb.(state := Announce3)])
      case Announce3 =>
        sent.(pcbs := st.pcbs[p.pcb := pcb.(state := Running)])
      case _ => sent
  }

  /** Execution of a TX_HANDLE action naming packet `id`. */
  function ExecuteTx(st: State, id: nat): State {
    if st.tx != [] && st.tx[0].id == id && st.tx[0].queued && st.tx[0].pcb < |st.pcbs| then
      HandlePacket(st.(tx := st.tx[1..]), st.tx[0].(queued := false))
    else st
  }

  /** The executor takes the oldest TX_HANDLE action. */
  function ExecuteNext(st: State): State {
    if st.pending == [] then st else ExecuteTx(st.(pending := st.pending[1..]), st.pending[0])
  }

  function FirstUnqueued(tx: seq<Packet>): (i: nat)
    ensures i <= |tx| && (forall k :: 0 <= k < i ==> tx[k].queued)
    ensures i < |tx| ==> !tx[i].queued
  {
    if tx == [] || !tx[0].queued then 0 else 1 + FirstUnqueued(tx[1..])
  }

  /** Due packets are queued for sending, in order, while the action queue takes them. */
  function Post(rest: seq<Packet>, now: nat, room: nat): (r: (seq<Packet>, seq<nat>))
    decreases |rest|
  {
    if rest == [] || rest[0].sendAt >= now then (rest, [])
    else if room == 0 then
      var (rest', ids) := Post(rest[1..], now, 0);
      ([rest[0].(queued := false)] + rest', ids)
    else
      var (rest', ids) := Post(rest[1..], now, room - 1);
      ([rest[0].(queued := true)] + rest', [rest[0].id] + ids)
  }

  /** A timer pass; the action queue has room for `room` more actions. */
  function Timer(st: State, room: nat): State {
    var k := FirstUnqueued(st.tx);
    var (rest, ids) := Post(st.tx[k..], st.now, room);
    st.(tx := st.tx[..k] + rest, pending := st.pending + ids)
  }

  // ---- Interfaces ----

  function Enable(st: State, q: nat, initOk: bool, random: nat): State
    requires q < |st.pcbs|
  {
    var pcb := st.pcbs[q];
    if !pcb.ready && !initOk then st.(pcbs := st.pcbs[q := pcb.(failedProbes := 0)])
    else InitProbe(st.(pcbs := st.pcbs[q := pcb.(ready := true)]), q, st.services, true, random)
  }

  const OFFLINE := Pcb(Off, [], false, false, 0, false)

  function Disable(st: State, q: nat, initOk: bool, random: nat): State
    requires q < |st.pcbs|
  {
    var st1 :=
      if !st.pcbs[q].ready then st
      else
        var off := st.(tx := Without(st.tx, q), pcbs := st.pcbs[q := OFFLINE]);
        match OtherPcb(st, q)
        case Some(o) =>
          if o < |st.pcbs| && off.pcbs[o].state.Dup? then
            Enable(off.(pcbs := off.pcbs[o := off.pcbs[o].(state := Off)]), o, initOk, random)
          else off
        case None => off;
    if q < |st1.pcbs| then st1.(pcbs := st1.pcbs[q := st1.pcbs[q].(state := Off)]) else st1
  }

  /** Control block `q` yields to the one of the duplicate interface. */
  function DupOne(st: State, q: nat, random: nat): State
    requires q < |st.pcbs|
  {
    match OtherPcb(st, q)
    case None => st
    case Some(o) =>
      if o >= |st.pcbs| || !st.pcbs[o].ready then st
      else
        var st1 := if st.pcbs[q].ready then st.(tx := Without(st.tx, q), pcbs := st.pcbs[q := OFFLINE]) else st;
        Announce(st1.(pcbs := st1.pcbs[q := st1.pcbs[q].(state := Dup)]), o, [], true, random)
  }

  function DupInterface(st: State, i: nat, random: nat -> nat): State
    requires 2 * i + 1 < |st.pcbs|
  {
    var st1 := DupOne(st, 2 * i, random(0));
    if 2 * i + 1 < |st1.pcbs| then DupOne(st1, 2 * i + 1, random(1)) else st1
  }

  // ---- Actions that reach the engine from received packets ----

  /** One control block loses a conflict while not probing, or a peer claims its TXT record. */
  function Reprobe(st: State, q: nat, services: seq<Service>, probeIp: bool, random: nat): State
    requires q < |st.pcbs|
  {
    InitProbe(st, q, services, probeIp, random)
  }

  function CountFailure(st: State, q: nat): State
    requires q < |st.pcbs|
  {
    st.(pcbs := st.pcbs[q := st.pcbs[q].(failedProbes := st.pcbs[q].failedProbes + 1)])
  }

  /** Another responder already gave this answer: it is dropped from distributed responses. */
  function DropScheduledAnswer(tx: seq<Packet>, q: nat, typ: RecordType, svc: Option<Service>): (r: seq<Packet>)
    ensures |r| == |tx|
    ensures forall i :: 0 <= i < |tx| ==>
      r[i] == (if tx[i].pcb == q && tx[i].distributed then tx[i].(answers := DropFirst(tx[i].answers, typ, svc)) else tx[i])
  {
    if tx == [] then []
    else
      [if tx[0].pcb == q && tx[0].distributed then tx[0].(answers := DropFirst(tx[0].answers, typ, svc)) else tx[0]]
      + DropScheduledAnswer(tx[1..], q, typ, svc)
  }

  /** A shared response to a query is scheduled once probing is over. */
  function Respond(st: State, q: nat, response: Packet, delay: nat): State
    requires q < |st.pcbs|
  {
    if st.pcbs[q].state.Rank() > Probe3.Rank() then
      Schedule(st.(nextId := st.nextId + 1), response.(id := st.nextId, pcb := q, queued := false), delay)
    else st
  }
}
