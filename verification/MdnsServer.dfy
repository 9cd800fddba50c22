/**
 The responder engine: one object whose methods edit the control blocks, the service list, the
 transmit queue and the packets in place, each proved to do what its specification function says.
 */
module MdnsServer {
  import opened Common
  import opened MdnsState
  import opened MdnsSpec
  import opened MdnsQueue
  import opened MdnsContents
  import opened MdnsLifecycle
  import opened MdnsSteps
  import opened MdnsRuns

  class Server {
    const partner: seq<nat>
    var pcbs: seq<Pcb>
    var services: seq<Service>
    var hostSet: bool
    var tx: seq<Packet>
    var pending: seq<nat>
    var now: nat
    var nextId: nat
    ghost var out: seq<Output>
    /** The control blocks whose services did not fit the list allocated for them. */
    ghost var spilt: seq<nat>
    /** The services registered so far. */
    ghost var known: seq<Service>

    ghost predicate Valid()
      reads this
    {
      Inv(Abs(), known)
    }

    ghost function Abs(): State
      reads this
    {
      State(pcbs, partner, services, hostSet, tx, pending, now, nextId, out, spilt)
    }

    constructor (partner: seq<nat>)
      ensures Valid() && Abs() == Start(partner) && known == []
    {
      StartInv(partner);
      this.partner := partner;
      pcbs := seq(2 * |partner|, _ => OFFLINE);
      services, hostSet, tx, pending, now, nextId, out, spilt, known := [], false, [], [], 0, 0, [], [], [];
    }

    // ---- Transmit queue ----

    method ScheduleTxPacket(p: Packet, msAfter: nat)
      modifies `tx
      ensures Abs() == Schedule(old(Abs()), p, msAfter)
    {
      hide Insert, Walked;
      var packet := p.(sendAt := now + msAfter);
      InsertStart(tx, packet);
      if tx == [] || tx[0].sendAt > packet.sendAt {
        InsertStop(tx, 0, packet);
        tx := [packet] + tx;
        return;
      }
      var i := 0;
      InsertStep(tx, 0, packet);
      while i + 1 < |tx| && tx[i + 1].sendAt <= packet.sendAt
        invariant i < |tx| && tx == old(tx)
        invariant Walked(tx, i + 1, packet) == Insert(tx, packet)
      {
        InsertStep(tx, i + 1, packet);
        i := i + 1;
      }
      InsertStop(tx, i + 1, packet);
      tx := tx[..i + 1] + [packet] + tx[i + 1..];
    }

    method ClearTxQueue()
      modifies `tx
      ensures tx == []
    {
      while tx != []
        decreases |tx|
      {
        tx := tx[1..];
      }
    }

    method ClearPcbTxQueue(q: nat)
      modifies `tx
      ensures tx == Without(old(tx), q)
    {
      hide Without;
      while tx != [] && tx[0].pcb == q
        invariant Without(tx, q) == Without(old(tx), q)
        decreases |tx|
      {
        WithoutDrop(tx, 0, q);
        tx := tx[1..];
      }
      if tx == [] {
        WithoutStop(tx, 0, q);
        return;
      }
      var i := 0;
      WithoutKeep(tx, 0, q);
      while i + 1 < |tx|
        invariant i < |tx|
        invariant Without(old(tx), q) == tx[..i + 1] + Without(tx[i + 1..], q)
        decreases |tx| - i
      {
        if tx[i + 1].pcb == q {
          WithoutDrop(tx, i + 1, q);
          tx := tx[..i + 1] + tx[i + 2..];
        } else {
          WithoutKeep(tx, i + 1, q);
          i := i + 1;
        }
      }
      WithoutStop(tx, i + 1, q);
    }

    method NextPcbPacket(q: nat) returns (i: nat)
      ensures i == FirstOf(tx, q)
    {
      i := 0;
      while i < |tx|
        invariant i <= |tx|
        invariant FirstOf(tx, q) == i + FirstOf(tx[i..], q)
      {
        if tx[i].pcb == q {
          return;
        }
        assert tx[i..][1..] == tx[i + 1..];
        i := i + 1;
      }
    }

    // ---- Packet contents ----

    static method AllocAnswer(destination: seq<Answer>, a: Answer) returns (r: seq<Answer>)
      ensures r == AddAnswer(destination, a)
    {
      var i := 0;
      while i < |destination|
        invariant i <= |destination| && a !in destination[..i]
      {
        if destination[i] == a {
          return destination;
        }
        i := i + 1;
      }
      r := destination + [a];
    }

    static method AllocServiceAnswers(destination: seq<Answer>, s: Service) returns (r: seq<Answer>)
      ensures r == AddServiceAnswers(destination, s)
    {
      r := AllocAnswer(destination, Answer(SDPTR, Some(s), None));
      r := AllocAnswer(r, Answer(PTR, Some(s), None));
      r := AllocAnswer(r, Answer(SRV, Some(s), None));
      r := AllocAnswer(r, Answer(TXT, Some(s), None));
    }

    static method AllocAllServiceAnswers(destination: seq<Answer>, list: seq<Service>) returns (r: seq<Answer>)
      ensures r == AddAllServiceAnswers(destination, list)
    {
      r := destination;
      for i := 0 to |list|
        invariant AddAllServiceAnswers(destination, list) == AddAllServiceAnswers(r, list[i..])
      {
        r := AllocServiceAnswers(r, list[i]);
        assert list[i..][1..] == list[i + 1..];
      }
    }

    static method AppendHost(destination: seq<Answer>, h: Option<Host>) returns (r: seq<Answer>)
      ensures r == AddHost(destination, h)
    {
      r := AllocAnswer(destination, Answer(RecordType.A, None, h));
      r := AllocAnswer(r, Answer(AAAA, None, h));
    }

    static method AppendHostListInServices(destination: seq<Answer>, list: seq<Service>) returns (r: seq<Answer>)
      ensures r == AddHostList(destination, list)
    {
      if list == [] {
        r := AppendHost(destination, Some(SelfHost));
        return;
      }
      r := destination;
      for i := 0 to |list|
        invariant AddHostsOf(destination, list) == AddHostsOf(r, list[i..])
      {
        r := AppendHost(r, list[i].host);
        assert list[i..][1..] == list[i + 1..];
      }
    }

    static method QuestionExists(subject: Subject, questions: seq<Question>) returns (b: bool)
      ensures b == Asked(questions, subject)
    {
      var i := 0;
      while i < |questions|
        invariant i <= |questions| && forall k :: 0 <= k < i ==> questions[k].subject != subject
      {
        if questions[i].subject == subject {
          return true;
        }
        i := i + 1;
      }
      return false;
    }

    static method AppendHostQuestion(questions: seq<Question>, subject: Subject) returns (r: seq<Question>)
      ensures r == AddQuestion(questions, subject)
    {
      var b := QuestionExists(subject, questions);
      r := if b then questions else questions + [Question(subject, true)];
    }

    method CreateProbePacket(q: nat, list: seq<Service>, includeIp: bool) returns (p: Packet)
      modifies `nextId
      ensures p == ProbePacket(old(nextId), q, list, includeIp) && nextId == old(nextId) + 1
    {
      p := BlankPacket(nextId, q);
      nextId := nextId + 1;
      var questions, servers := [], [];
      for i := 0 to |list|
        invariant nextId == old(nextId) + 1
        invariant ProbeServices([], [], list) == ProbeServices(questions, servers, list[i..])
      {
        var exists_ := QuestionExists(OfService(list[i]), questions);
        assert list[i..][1..] == list[i + 1..];
        if !exists_ {
          questions := questions + [Question(OfService(list[i]), true)];
          servers := AllocAnswer(servers, Answer(SRV, Some(list[i]), None));
        }
      }
      assert list[|list|..] == [];
      if includeIp {
        ghost var asked := AddQuestion(questions, OfHost(None));
        questions := AppendHostQuestion(questions, OfHost(None));
        for i := 0 to |list|
          invariant nextId == old(nextId) + 1
          invariant HostQuestions(asked, list) == HostQuestions(questions, list[i..])
        {
          questions := AppendHostQuestion(questions, OfHost(Some(list[i])));
          assert list[i..][1..] == list[i + 1..];
        }
        assert list[|list|..] == [];
        servers := AppendHostListInServices(servers, list);
      }
      p := p.(questions := questions, servers := servers);
    }

    method CreateAnnouncePacket(q: nat, list: seq<Service>, includeIp: bool) returns (p: Packet)
      modifies `nextId
      ensures p == AnnouncePacket(old(nextId), q, list, includeIp) && nextId == old(nextId) + 1
    {
      p := BlankPacket(nextId, q);
      nextId := nextId + 1;
      var answers := AllocAllServiceAnswers([], list);
      p := p.(answers := answers);
      if includeIp {
        var servers := AppendHostListInServices([], list);
        p := p.(servers := servers);
      }
    }

    method CreateAnnounceFromProbe(probe: Packet) returns (p: Packet)
      modifies `nextId
      ensures p == BlankPacket(old(nextId), probe.pcb).(answers := FromProbe([], probe.servers)) && nextId == old(nextId) + 1
    {
      p := BlankPacket(nextId, probe.pcb);
      nextId := nextId + 1;
      var answers := [];
      for i := 0 to |probe.servers|
        invariant nextId == old(nextId) + 1
        invariant FromProbe([], probe.servers) == FromProbe(answers, probe.servers[i..])
      {
        var s := probe.servers[i];
        if s.typ == SRV && s.svc.Some? {
          answers := AllocServiceAnswers(answers, s.svc.value);
          answers := AppendHost(answers, s.svc.value.host);
        } else if s.typ == RecordType.A || s.typ == AAAA {
          answers := AllocAnswer(answers, Answer(s.typ, None, s.host));
        }
        assert probe.servers[i..][1..] == probe.servers[i + 1..];
      }
      assert probe.servers[|probe.servers|..] == [];
      p := p.(answers := answers);
    }

    // ---- Probing and announcing ----

    /** A list with room for `finalLen` services: the new ones, then the old ones as far as they fit. */
    static method CopyServices(list: seq<Service>, old_: seq<Service>, finalLen: nat) returns (all: seq<Service>, fits: bool)
      requires |list| <= finalLen <= |list| + |old_|
      ensures all == (list + old_)[..finalLen] && (fits <==> finalLen == 0 || |list| + |old_| == finalLen)
    {
      all, fits := [], true;
      if finalLen == 0 {
        return;
      }
      for i := 0 to |list|
        invariant all == list[..i] && fits
      {
        all := all + [list[i]];
      }
      for i := 0 to |old_|
        invariant all == (list + old_)[..if |list| + i < finalLen then |list| + i else finalLen]
        invariant fits <==> |list| + i <= finalLen
      {
        if |list| + i < finalLen {
          all := all + [old_[i]];
        } else {
          fits := false;
        }
      }
      assert list + old_ == (list + old_)[..|list| + |old_|];
    }

    /** The list of a new probe, with a note when it does not fit what is allocated for it. */
    method PrepareServices(q: nat, list: seq<Service>) returns (all: seq<Service>)
      requires q < |pcbs|
      modifies `spilt
      ensures all == Probed(pcbs[q], list)
      ensures spilt == if Spills(pcbs[q], list) then old(spilt) + [q] else old(spilt)
    {
      var pcb := pcbs[q];
      var finalLen := |list|;
      if pcb.state.CountsAsProbing() {
        finalLen := finalLen + |pcb.probeServices|;
      }
      var fits;
      all, fits := CopyServices(list, pcb.probeServices, finalLen);
      CopiedServices(pcb, list, all, fits, finalLen);
      if !fits {
        spilt := spilt + [q];
      }
    }

    method InitPcbProbeNewService(q: nat, list: seq<Service>, probeIp: bool, random: nat)
      requires q < |pcbs|
      modifies this
      ensures Abs() == StartProbe(old(Abs()), q, list, probeIp, random) && |pcbs| == |old(pcbs)|
    {
      hide Insert, ProbePacket, StartProbe, Schedule, Spills, Probed;
      ghost var st := Abs();
      var pcb := pcbs[q];
      var all := PrepareServices(q, list);
      var withIp := pcb.probeIp || probeIp;
      var p := CreateProbePacket(q, all, withIp);
      pcbs := pcbs[q := pcb.(probeIp := withIp, probeServices := all, probeRunning := true)];
      out := out + [ProbeRestart(q, now)];
      ghost var mid := Abs();
      ScheduleTxPacket(p, (if pcb.failedProbes > 5 then 1000 else 120) + random % 128);
      pcbs := pcbs[q := pcbs[q].(state := Probe1)];
      ProbeStarted(st, q, list, probeIp, random, mid);
    }

    static method NotYetProbing(list: seq<Service>, probing: seq<Service>) returns (newServices: seq<Service>)
      ensures newServices == Fresh(list, probing)
    {
      newServices := [];
      for j := 0 to |list|
        invariant Fresh(list, probing) == newServices + Fresh(list[j..], probing)
      {
        var found := false;
        for i := 0 to |probing|
          invariant found == (list[j] in probing[..i])
        {
          if probing[i] == list[j] {
            found := true;
          }
          assert probing[..i + 1] == probing[..i] + [probing[i]];
        }
        assert probing[..|probing|] == probing;
        if !found {
          newServices := newServices + [list[j]];
        }
        assert list[j..][1..] == list[j + 1..];
      }
      assert list[|list|..] == [];
    }

    method InitPcbProbe(q: nat, list: seq<Service>, probeIp: bool, random: nat)
      requires q < |pcbs|
      modifies this
      ensures Abs() == InitProbe(old(Abs()), q, list, probeIp, random) && |pcbs| == |old(pcbs)|
    {
      hide StartProbe, Without, Fresh;
      ClearPcbTxQueue(q);
      if !hostSet {
        pcbs := pcbs[q := pcbs[q].(state := Running)];
        return;
      }
      if pcbs[q].state.CountsAsProbing() {
        var probing := pcbs[q].probeServices;
        var newServices := NotYetProbing(list, probing);
        InitPcbProbeNewService(q, newServices, probeIp, random);
      } else {
        InitPcbProbeNewService(q, list, probeIp, random);
      }
    }

    method AnnouncePcb(q: nat, list: seq<Service>, includeIp: bool, random: nat)
      requires q < |pcbs|
      modifies this
      ensures Abs() == Announce(old(Abs()), q, list, includeIp, random) && |pcbs| == |old(pcbs)|
    {
      if !pcbs[q].ready {
        return;
      }
      if pcbs[q].state.CountsAsProbing() {
        InitPcbProbe(q, list, includeIp, random);
      } else if pcbs[q].state.Announcing() {
        var i := NextPcbPacket(q);
        if i < |tx| {
          var p := tx[i];
          var answers := AllocAllServiceAnswers(p.answers, list);
          p := p.(answers := answers);
          if includeIp {
            p := p.(additional := DropFirst(DropFirst(p.additional, RecordType.A, None), AAAA, None));
            answers := AppendHostListInServices(p.answers, list);
            p := p.(answers := answers);
          }
          tx := tx[i := p];
          pcbs := pcbs[q := pcbs[q].(state := Announce1)];
        }
      } else if pcbs[q].state.Running? {
        if !hostSet {
          return;
        }
        pcbs := pcbs[q := pcbs[q].(state := Announce1)];
        var p := CreateAnnouncePacket(q, list, includeIp);
        ScheduleTxPacket(p, 0);
      }
    }

    method ProbeAllPcbs(list: seq<Service>, probeIp: bool, clearOldProbe: bool, random: nat -> nat)
      modifies this
      ensures Abs() == ProbeAll(old(Abs()), list, probeIp, clearOldProbe, random)
    {
      hide InitProbe;
      var n := |pcbs|;
      for q := 0 to n
        invariant |pcbs| == n && n == |old(pcbs)|
        invariant Abs() == ProbeFirst(old(Abs()), q, list, probeIp, clearOldProbe, random)
      {
        if pcbs[q].ready {
          if clearOldProbe {
            pcbs := pcbs[q := pcbs[q].(probeServices := [], probeRunning := false)];
          }
          InitPcbProbe(q, list, probeIp, random(q));
        }
        ghost var before := ProbeFirst(old(Abs()), q, list, probeIp, clearOldProbe, random);
        assert Abs() == ProbeOne(before, q, list, probeIp, clearOldProbe, random(q));
      }
    }

    method AnnounceAllPcbs(list: seq<Service>, includeIp: bool, random: nat -> nat)
      modifies this
      ensures Abs() == AnnounceAll(old(Abs()), list, includeIp, random)
    {
      hide Announce;
      var n := |pcbs|;
      for q := 0 to n
        invariant |pcbs| == n && n == |old(pcbs)|
        invariant Abs() == AnnounceFirst(old(Abs()), q, list, includeIp, random)
      {
        AnnouncePcb(q, list, includeIp, random(q));
      }
    }

    method RestartAllPcbs(random: nat -> nat)
      modifies this
      ensures Abs() == RestartAll(old(Abs()), random)
    {
      ClearTxQueue();
      ProbeAllPcbs(services, true, true, random);
    }

    // ---- Service removal ----

    static method DeallocScheduledServiceAnswers(destination: seq<Answer>, s: Service) returns (r: seq<Answer>)
      ensures r == DropService(destination, s)
    {
      hide DropService;
      r := destination;
      while r != [] && r[0].svc == Some(s)
        invariant DropService(r, s) == DropService(destination, s)
        decreases |r|
      {
        DropServiceStep(r, 0, s);
        r := r[1..];
      }
      DropServiceStop(s);
      if r == [] {
        return;
      }
      var i := 0;
      DropServiceStep(r, 0, s);
      while i + 1 < |r|
        invariant i < |r|
        invariant DropService(destination, s) == r[..i + 1] + DropService(r[i + 1..], s)
        decreases |r| - i
      {
        DropServiceStep(r, i + 1, s);
        if r[i + 1].svc == Some(s) {
          r := r[..i + 1] + r[i + 2..];
        } else {
          i := i + 1;
        }
      }
      assert r[..i + 1] == r && r[i + 1..] == [];
    }

    static method DeallocProbeQuestion(questions: seq<Question>, s: Service) returns (r: seq<Question>)
      ensures r == DropQuestion(questions, s)
    {
      var i := 0;
      while i < |questions|
        invariant i <= |questions|
        invariant DropQuestion(questions, s) == questions[..i] + DropQuestion(questions[i..], s)
      {
        assert questions[i..][1..] == questions[i + 1..];
        if questions[i].subject.OfService? && questions[i].subject.svc.typ == s.typ {
          return questions[..i] + questions[i + 1..];
        }
        assert questions[..i + 1] == questions[..i] + [questions[i]];
        i := i + 1;
      }
      return questions;
    }

    static method FindService(list: seq<Service>, s: Service) returns (i: nat)
      ensures i == IndexOf(list, s)
    {
      i := 0;
      while i < |list| && list[i] != s
        invariant i <= |list|
        invariant IndexOf(list, s) == i + IndexOf(list[i..], s)
      {
        assert list[i..][1..] == list[i + 1..];
        i := i + 1;
      }
    }

    /** Purges one packet and the control block that owns it. */
    method PurgePacket(p: Packet, s: Service) returns (r: Packet)
      requires p.pcb < |pcbs|
      modifies `pcbs
      ensures pcbs == old(pcbs)[p.pcb := Purge(old(pcbs)[p.pcb], p, s).0]
      ensures r == Purge(old(pcbs)[p.pcb], p, s).1
    {
      var hadAnswers := p.answers != [];
      var answers := DeallocScheduledServiceAnswers(p.answers, s);
      var additional := DeallocScheduledServiceAnswers(p.additional, s);
      var servers := DeallocScheduledServiceAnswers(p.servers, s);
      r := p.(answers := answers, additional := additional, servers := servers);
      var pcb := pcbs[p.pcb];
      if pcb.ready {
        if pcb.state.CountsAsProbing() {
          var i := FindService(pcb.probeServices, s);
          if i < |pcb.probeServices| {
            if |pcb.probeServices| > 1 {
              pcb := pcb.(probeServices := pcb.probeServices[..i] + pcb.probeServices[i + 1..]);
            } else {
              pcb := pcb.(probeServices := []);
              if !pcb.probeIp {
                pcb := pcb.(probeRunning := false, state := Running);
              }
            }
            var questions := DeallocProbeQuestion(r.questions, s);
            r := r.(questions := questions);
          }
        } else if pcb.state.Announcing() {
          if hadAnswers && r.answers == [] {
            pcb := pcb.(state := Running);
          }
        }
      }
      pcbs := pcbs[p.pcb := pcb];
    }

    method RemoveScheduledServicePackets(s: Service)
      requires forall k :: 0 <= k < |tx| ==> tx[k].pcb < |pcbs|
      modifies `pcbs, `tx
      ensures Abs() == RemoveScheduled(old(Abs()), s)
    {
      hide Purge, PurgeQueue;
      var i := 0;
      while i < |tx|
        invariant i <= |tx| && |pcbs| == |old(pcbs)|
        invariant forall k :: i <= k < |tx| ==> tx[k].pcb < |pcbs|
        invariant PurgeQueue(pcbs, tx[i..], s).0 == PurgeQueue(old(pcbs), old(tx), s).0
        invariant tx[..i] + PurgeQueue(pcbs, tx[i..], s).1 == PurgeQueue(old(pcbs), old(tx), s).1
        decreases |tx| - i
      {
        PurgeStep(pcbs, tx, i, s);
        var p := PurgePacket(tx[i], s);
        if p.IsEmpty() {
          tx := tx[..i] + tx[i + 1..];
        } else {
          tx := tx[i := p];
          i := i + 1;
        }
      }
      PurgeNothing(pcbs, tx, i, s);
    }

    /** Removes a service that is found in the list. */
    method DeleteService(s: Service)
      requires forall k :: 0 <= k < |tx| ==> tx[k].pcb < |pcbs|
      modifies this
      ensures Abs() == ServiceDel(old(Abs()), s)
    {
      var i := FindService(services, s);
      if i < |services| {
        services := services[..i] + services[i + 1..];
        RemoveScheduledServicePackets(s);
      }
    }

    method ClearServices()
      requires forall k :: 0 <= k < |tx| ==> tx[k].pcb < |pcbs|
      modifies this
      ensures Abs() == ServicesClear(old(Abs()))
    {
      var a := services;
      services := [];
      ghost var final := RemoveEach(Abs(), a);
      while a != []
        invariant final == RemoveEach(Abs(), a)
        invariant forall k :: 0 <= k < |tx| ==> tx[k].pcb < |pcbs|
        decreases |a|
      {
        hide RemoveScheduled;
        StaysInRange(Abs(), a[0]);
        RemoveScheduledServicePackets(a[0]);
        a := a[1..];
      }
    }

    // ---- Executor and timer ----

    static method ClearUnicast(asked: seq<Question>) returns (questions: seq<Question>)
      ensures questions == Quiet(asked)
    {
      questions := asked;
      for i := 0 to |questions|
        invariant |questions| == |asked|
        invariant forall k :: 0 <= k < i ==> questions[k] == asked[k].(unicast := false)
        invariant forall k :: i <= k < |questions| ==> questions[k] == asked[k]
      {
        questions := questions[i := questions[i].(unicast := false)];
      }
      assert questions == Quiet(asked);
    }

    method TxHandlePacket(packet: Packet)
      requires packet.pcb < |pcbs|
      modifies this
      ensures Abs() == HandlePacket(old(Abs()), packet)
    {
      hide Insert, FromProbe, Quiet;
      var p, q := packet, packet.pcb;
      var pcb := pcbs[q];
      if pcb.state.Off? {
        return;
      }
      out := out + [Sent(q, now, pcb.state, UnicastFlags(p.questions))];
      var sendAfter := 1000;
      match pcb.state {
        case Probe1 =>
          var questions := ClearUnicast(p.questions);
          ScheduleTxPacket(p.(questions := questions), 250);
          pcbs := pcbs[q := pcbs[q].(state := Probe2)];
        case Probe2 =>
          ScheduleTxPacket(p, 250);
          pcbs := pcbs[q := pcbs[q].(state := Probe3)];
        case Probe3 =>
          var a := CreateAnnounceFromProbe(p);
          pcbs := pcbs[q := pcbs[q].(probeRunning := false, probeIp := false, probeServices := [], failedProbes := 0)];
          out := out + [Announced(q, now)];
          ScheduleTxPacket(a, 250);
          pcbs := pcbs[q := pcbs[q].(state := Announce1)];
        case Announce1 =>
          ScheduleTxPacket(p, sendAfter);
          pcbs := pcbs[q := pcbs[q].(state := Announce2)];
        case Announce2 =>
          ScheduleTxPacket(p, sendAfter);
          pcbs := pcbs[q := pcbs[q].(state := Announce3)];
        case Announce3 =>
          pcbs := pcbs[q := pcbs[q].(state := Running)];
        case _ =>
      }
    }

    /** The service task takes the oldest TX_HANDLE action and executes it. */
    method ExecuteTxHandle()
      requires forall k :: 0 <= k < |tx| ==> tx[k].pcb < |pcbs|
      modifies this
      ensures Abs() == ExecuteNext(old(Abs()))
    {
      if pending == [] {
        return;
      }
      var id := pending[0];
      pending := pending[1..];
      if tx != [] && tx[0].id == id && tx[0].queued {
        var p := tx[0].(queued := false);
        tx := tx[1..];
        TxHandlePacket(p);
      }
    }

    method NextUnqueued() returns (i: nat)
      ensures i == FirstUnqueued(tx)
    {
      i := 0;
      while i < |tx| && tx[i].queued
        invariant i <= |tx|
        invariant FirstUnqueued(tx) == i + FirstUnqueued(tx[i..])
      {
        assert tx[i..][1..] == tx[i + 1..];
        i := i + 1;
      }
    }

    /** From position `k` on, an action is posted for every due packet; the action queue has room for `room` of them. */
    method PostDue(k: nat, room: nat)
      requires k <= |tx|
      modifies `tx, `pending
      ensures tx == old(tx)[..k] + Post(old(tx)[k..], now, room).0
      ensures pending == old(pending) + Post(old(tx)[k..], now, room).1
    {
      var i, left := k, room;
      while i < |tx| && tx[i].sendAt < now
        invariant k <= i <= |tx|
        invariant old(tx)[..k] + Post(old(tx)[k..], now, room).0 == tx[..i] + Post(tx[i..], now, left).0
        invariant old(pending) + Post(old(tx)[k..], now, room).1 == pending + Post(tx[i..], now, left).1
        decreases |tx| - i
      {
        ghost var rest, done, before := tx[i..], tx[..i], pending;
        assert rest[1..] == tx[i + 1..];
        var p := tx[i];
        if left > 0 {
          pending := pending + [p.id];
          left := left - 1;
          p := p.(queued := true);
        } else {
          p := p.(queued := false);
        }
        tx := tx[i := p];
        PostStep(done, rest, before, tx, pending, now, if pending == before then 0 else left + 1);
        i := i + 1;
      }
      assert tx == tx[..i] + tx[i..];
    }

    method SchedulerRun(room: nat)
      modifies `tx, `pending
      ensures Abs() == Timer(old(Abs()), room)
    {
      hide FirstUnqueued, Post;
      var k := NextUnqueued();
      PostDue(k, room);
    }

    // ---- Interfaces ----

    method EnablePcb(q: nat, initOk: bool, random: nat)
      requires q < |pcbs|
      modifies this
      ensures Abs() == Enable(old(Abs()), q, initOk, random) && |pcbs| == |old(pcbs)|
    {
      if !pcbs[q].ready {
        if !initOk {
          pcbs := pcbs[q := pcbs[q].(failedProbes := 0)];
          return;
        }
        pcbs := pcbs[q := pcbs[q].(ready := true)];
      }
      assert pcbs == old(pcbs)[q := old(pcbs)[q].(ready := true)];
      InitPcbProbe(q, services, true, random);
    }

    method DisablePcb(q: nat, initOk: bool, random: nat)
      requires q < |pcbs| && |pcbs| == 2 * |partner|
      modifies this
      ensures Abs() == Disable(old(Abs()), q, initOk, random)
    {
      hide Enable, Without;
      if pcbs[q].ready {
        ClearPcbTxQueue(q);
        pcbs := pcbs[q := OFFLINE];
        var other := if partner[q / 2] < |partner| then 2 * partner[q / 2] + q % 2 else |pcbs|;
        if other < |pcbs| && pcbs[other].state.Dup? {
          pcbs := pcbs[other := pcbs[other].(state := Off)];
          EnablePcb(other, initOk, random);
        }
      }
      pcbs := pcbs[q := pcbs[q].(state := Off)];
    }

    method DupInterface(i: nat, random: nat -> nat)
      requires 2 * i + 1 < |pcbs| && |pcbs| == 2 * |partner|
      modifies this
      ensures Abs() == MdnsSpec.DupInterface(old(Abs()), i, random)
    {
      DupPcb(2 * i, random(0));
      DupPcb(2 * i + 1, random(1));
    }

    method DupPcb(q: nat, random: nat)
      requires q < |pcbs| && |pcbs| == 2 * |partner|
      modifies this
      ensures Abs() == DupOne(old(Abs()), q, random) && |pcbs| == |old(pcbs)|
    {
      var other := if partner[q / 2] < |partner| then 2 * partner[q / 2] + q % 2 else |pcbs|;
      if other == |pcbs| || !pcbs[other].ready {
        return;
      }
      if pcbs[q].ready {
        ClearPcbTxQueue(q);
        pcbs := pcbs[q := OFFLINE];
      }
      pcbs := pcbs[q := pcbs[q].(state := Dup)];
      AnnouncePcb(other, [], true, random);
    }

    // ---- Received packets ----

    method RemoveScheduledAnswer(q: nat, typ: RecordType, svc: Option<Service>)
      modifies `tx
      ensures tx == DropScheduledAnswer(old(tx), q, typ, svc)
    {
      hide DropScheduledAnswer, DropFirst;
      var i := 0;
      assert tx[0..] == tx;
      while i < |tx|
        invariant i <= |tx|
        invariant tx[..i] + DropScheduledAnswer(tx[i..], q, typ, svc) == DropScheduledAnswer(old(tx), q, typ, svc)
      {
        DropAnswerStep(tx, i, q, typ, svc);
        var p := tx[i];
        if p.pcb == q && p.distributed {
          p := p.(answers := DropFirst(p.answers, typ, svc));
        }
        tx := tx[i := p];
        i := i + 1;
      }
      assert tx[..i] == tx;
    }

    method CountFailedProbe(q: nat)
      requires q < |pcbs|
      modifies `pcbs
      ensures Abs() == CountFailure(old(Abs()), q) && |pcbs| == |old(pcbs)|
    {
      pcbs := pcbs[q := pcbs[q].(failedProbes := pcbs[q].failedProbes + 1)];
    }

    /** The SRV record of a service lost against another responder. */
    method LoseService(q: nat, s: Service, rename: Rename, randoms: nat -> nat)
      requires Shaped(Abs()) && Enabled(Abs(), SrvConflict(q, s, rename, randoms))
      modifies this
      ensures Abs() == Step(old(Abs()), SrvConflict(q, s, rename, randoms))
    {
      hide CountFailure, ProbeAll, RestartAll, InitProbe;
      if !pcbs[q].probeRunning {
        InitPcbProbe(q, [s], false, randoms(q));
        return;
      }
      CountFailedProbe(q);
      match rename {
        case RenameService => ProbeAllPcbs([s], false, false, randoms);
        case RenameInstance(noInstance) =>
          if noInstance != [] {
            ProbeAllPcbs(noInstance, false, true, randoms);
          }
        case RenameHost => RestartAllPcbs(randoms);
      }
    }

    /** The TXT record of a service lost against another responder. */
    method LoseTxt(q: nat, s: Service, random: nat)
      requires Shaped(Abs()) && Enabled(Abs(), TxtConflict(q, s, random))
      modifies this
      ensures Abs() == Step(old(Abs()), TxtConflict(q, s, random))
    {
      hide InitProbe;
      if !pcbs[q].probeRunning {
        InitPcbProbe(q, [s], true, random);
      }
    }

    /** An address of the host lost against another responder. */
    method LoseAddress(q: nat, randoms: nat -> nat)
      requires Shaped(Abs()) && Enabled(Abs(), AddressConflict(q, randoms))
      modifies this
      ensures Abs() == Step(old(Abs()), AddressConflict(q, randoms))
    {
      hide CountFailure, RestartAll, InitProbe;
      if pcbs[q].probeRunning {
        CountFailedProbe(q);
        RestartAllPcbs(randoms);
      } else {
        InitPcbProbe(q, [], true, randoms(q));
      }
    }

    /** A response to be shared is scheduled, unless the interface still probes. */
    method ScheduleResponse(q: nat, response: Packet, delay: nat)
      requires q < |pcbs|
      modifies `tx, `nextId
      ensures Abs() == Respond(old(Abs()), q, response, delay)
    {
      hide Insert;
      if pcbs[q].state.Rank() > Probe3.Rank() {
        var p := response.(id := nextId, pcb := q, queued := false);
        nextId := nextId + 1;
        ScheduleTxPacket(p, delay);
      }
    }

    // ---- Commands of the application ----

    method SetHostname(randoms: nat -> nat)
      modifies this
      ensures Abs() == RestartAll(old(Abs()).(hostSet := true), randoms)
    {
      hide RestartAll;
      hostSet := true;
      RestartAllPcbs(randoms);
    }

    /** `noInstance` lists the services without an instance name of their own. */
    method SetInstance(noInstance: seq<Service>, randoms: nat -> nat)
      modifies this
      ensures Abs() == if noInstance == [] then old(Abs()) else ProbeAll(old(Abs()), noInstance, false, true, randoms)
    {
      hide ProbeAll;
      if noInstance != [] {
        ProbeAllPcbs(noInstance, false, true, randoms);
      }
    }

    method AddService(s: Service, randoms: nat -> nat)
      modifies this
      ensures Abs() == ProbeAll(old(Abs()).(services := [s] + old(services)), [s], false, false, randoms)
    {
      hide ProbeAll;
      services := [s] + services;
      ProbeAllPcbs([s], false, false, randoms);
    }

    /** A command of the application. */
    method PerformCommand(a: Action)
      requires Shaped(Abs()) && Enabled(Abs(), a) && forall k :: 0 <= k < |tx| ==> tx[k].pcb < |pcbs|
      requires a.HostnameSet? || a.InstanceSet? || a.ServiceAdd? || a.ServiceInstanceSet? || a.ServicePortSet? || a.ServiceTxtSet?
               || a.ServiceDelete? || a.ServicesClearAll?
      modifies this
      ensures Abs() == Step(old(Abs()), a)
    {
      hide RestartAll, ProbeAll, AnnounceAll, ServiceDel, ServicesClear, Subset, NoDuplicates;
      match a
      case HostnameSet(randoms) => SetHostname(randoms);
      case InstanceSet(noInstance, randoms) => SetInstance(noInstance, randoms);
      case ServiceAdd(s, randoms) => AddService(s, randoms);
      case ServiceInstanceSet(s, randoms) => ProbeAllPcbs([s], false, false, randoms);
      case ServicePortSet(s, randoms) => AnnounceAllPcbs([s], true, randoms);
      case ServiceTxtSet(s, randoms) => AnnounceAllPcbs([s], false, randoms);
      case ServiceDelete(s) => DeleteService(s);
      case ServicesClearAll => ClearServices();
    }

    /** What a received packet sets off. */
    method PerformReceived(a: Action)
      requires Shaped(Abs()) && Enabled(Abs(), a)
      requires a.SrvConflict? || a.TxtConflict? || a.AddressConflict? || a.OwnAddressSeen? || a.AnswerSeen? || a.QuerySeen?
      modifies this
      ensures Abs() == Step(old(Abs()), a)
    {
      hide CountFailure, RestartAll, ProbeAll, Reprobe, MdnsSpec.DupInterface, DropScheduledAnswer, Respond,
           PacketMentionsOnly, Subset, NoDuplicates;
      match a
      case SrvConflict(q, s, rename, randoms) => LoseService(q, s, rename, randoms);
      case TxtConflict(q, s, random) => LoseTxt(q, s, random);
      case AddressConflict(q, randoms) => LoseAddress(q, randoms);
      case OwnAddressSeen(i, randoms) => DupInterface(i, randoms);
      case AnswerSeen(q, typ, svc) => RemoveScheduledAnswer(q, typ, svc);
      case QuerySeen(q, response, delay) => ScheduleResponse(q, response, delay);
    }

    /** The clock, the timer, the executor and the interfaces. */
    method PerformOther(a: Action)
      requires Shaped(Abs()) && Enabled(Abs(), a) && forall k :: 0 <= k < |tx| ==> tx[k].pcb < |pcbs|
      requires a.Clock? || a.Tick? || a.TxHandle? || a.EnableIf? || a.DisableIf? || a.AnnounceIf?
      modifies this
      ensures Abs() == Step(old(Abs()), a)
    {
      hide Timer, ExecuteNext, Enable, Disable, Announce;
      match a
      case Clock(ms) => now := now + ms;
      case Tick(room) => SchedulerRun(room);
      case TxHandle => ExecuteTxHandle();
      case EnableIf(q, initOk, random) => EnablePcb(q, initOk, random);
      case DisableIf(q, initOk, random) => DisablePcb(q, initOk, random);
      case AnnounceIf(q, random) => AnnouncePcb(q, [], true, random);
    }

    /** Every action does what the engine's step says and keeps the invariant. */
    method Perform(a: Action)
      requires Valid() && Enabled(Abs(), a)
      modifies this
      ensures Shaped(old(Abs())) && Abs() == Step(old(Abs()), a) && Valid() && known == KnownAfter(old(known), a)
    {
      hide Inv, Step, Enabled;
      InvShape(Abs(), known);
      InRange(Abs(), known);
      StepInv(Abs(), a, known);
      if a.Clock? || a.Tick? || a.TxHandle? || a.EnableIf? || a.DisableIf? || a.AnnounceIf? {
        PerformOther(a);
      } else if a.SrvConflict? || a.TxtConflict? || a.AddressConflict? || a.OwnAddressSeen? || a.AnswerSeen? || a.QuerySeen? {
        PerformReceived(a);
      } else {
        PerformCommand(a);
      }
      known := KnownAfter(old(known), a);
    }
  }

  // ---- What the loops rely on ----

  /** The insertion after `i` packets have been passed. */
  ghost function Walked(tx: seq<Packet>, i: nat, p: Packet): seq<Packet>
    requires i <= |tx|
  {
    tx[..i] + Insert(tx[i..], p)
  }

  lemma InsertStart(tx: seq<Packet>, p: Packet)
    ensures Walked(tx, 0, p) == Insert(tx, p)
  {
    assert tx[0..] == tx;
  }

  lemma InsertStep(tx: seq<Packet>, i: nat, p: Packet)
    requires i < |tx| && tx[i].sendAt <= p.sendAt
    ensures Walked(tx, i, p) == Walked(tx, i + 1, p)
  {
    Around(tx, i);
    Associative(tx[..i], [tx[i]], Insert(tx[i + 1..], p));
  }

  lemma InsertStop(tx: seq<Packet>, i: nat, p: Packet)
    requires i <= |tx| && (i < |tx| ==> tx[i].sendAt > p.sendAt)
    ensures Walked(tx, i, p) == tx[..i] + [p] + tx[i..]
    ensures i == 0 ==> Walked(tx, i, p) == [p] + tx
  {
    assert i == 0 ==> tx[i..] == tx;
  }

  lemma WithoutDrop(tx: seq<Packet>, i: nat, q: nat)
    requires i < |tx| && tx[i].pcb == q
    ensures var tx' := tx[..i] + tx[i + 1..];
            tx'[..i] + Without(tx'[i..], q) == tx[..i] + Without(tx[i..], q)
    ensures i == 0 ==> Without(tx, q) == Without(tx[1..], q)
  {
    Around(tx, i);
    assert i == 0 ==> tx[i..] == tx;
  }

  lemma WithoutKeep(tx: seq<Packet>, i: nat, q: nat)
    requires i < |tx| && tx[i].pcb != q
    ensures tx[..i + 1] + Without(tx[i + 1..], q) == tx[..i] + Without(tx[i..], q)
    ensures i == 0 ==> Without(tx, q) == tx[..1] + Without(tx[1..], q)
  {
    Around(tx, i);
    Associative(tx[..i], [tx[i]], Without(tx[i + 1..], q));
    assert i == 0 ==> tx[i..] == tx && tx[..1] == [tx[0]];
  }

  lemma WithoutStop(tx: seq<Packet>, i: nat, q: nat)
    requires i == |tx|
    ensures tx[..i] + Without(tx[i..], q) == tx
    ensures i == 0 ==> Without(tx, q) == tx
  {
    assert tx[i..] == [];
  }

  lemma DropServiceStep(r: seq<Answer>, i: nat, s: Service)
    requires i < |r|
    ensures r[i].svc == Some(s) ==>
      (r[..i] + r[i + 1..])[..i] + DropService((r[..i] + r[i + 1..])[i..], s) == r[..i] + DropService(r[i..], s)
    ensures r[i].svc != Some(s) ==> r[..i + 1] + DropService(r[i + 1..], s) == r[..i] + DropService(r[i..], s)
    ensures i == 0 && r[0].svc == Some(s) ==> DropService(r, s) == DropService(r[1..], s)
    ensures i == 0 && r[0].svc != Some(s) ==> DropService(r, s) == r[..1] + DropService(r[1..], s)
  {
    Around(r, i);
    Associative(r[..i], [r[i]], DropService(r[i + 1..], s));
    assert i == 0 ==> r[i..] == r && r[..1] == [r[0]];
  }

  lemma DropServiceStop(s: Service)
    ensures DropService([], s) == []
  {
  }

  lemma PurgeNothing(pcbs: seq<Pcb>, tx: seq<Packet>, i: nat, s: Service)
    requires i == |tx|
    ensures PurgeQueue(pcbs, tx[i..], s) == (pcbs, []) && tx[..i] + [] == tx
  {
    assert tx[i..] == [];
  }

  /** One turn of the purging loop. */
  lemma PurgeStep(pcbs: seq<Pcb>, tx: seq<Packet>, i: nat, s: Service)
    requires i < |tx| && tx[i].pcb < |pcbs|
    ensures var (pcb, p) := Purge(pcbs[tx[i].pcb], tx[i], s);
            var pcbs' := pcbs[tx[i].pcb := pcb];
            var (tx', i') := if p.IsEmpty() then (tx[..i] + tx[i + 1..], i) else (tx[i := p], i + 1);
            && PurgeQueue(pcbs', tx'[i'..], s).0 == PurgeQueue(pcbs, tx[i..], s).0
            && tx'[..i'] + PurgeQueue(pcbs', tx'[i'..], s).1 == tx[..i] + PurgeQueue(pcbs, tx[i..], s).1
  {
    hide Purge;
    var (pcb, p) := Purge(pcbs[tx[i].pcb], tx[i], s);
    var pcbs' := pcbs[tx[i].pcb := pcb];
    var (tx', i') := if p.IsEmpty() then (tx[..i] + tx[i + 1..], i) else (tx[i := p], i + 1);
    assert tx[i..][1..] == tx[i + 1..];
    assert tx'[i'..] == tx[i + 1..];
    var rest := PurgeQueue(pcbs', tx[i + 1..], s).1;
    assert tx'[..i'] == tx[..i] + if p.IsEmpty() then [] else [p];
    Associative(tx[..i], [p], rest);
  }

  lemma CopiedServices(pcb: Pcb, list: seq<Service>, all: seq<Service>, fits: bool, finalLen: nat)
    requires finalLen == |list| + if pcb.state.CountsAsProbing() then |pcb.probeServices| else 0
    requires all == (list + pcb.probeServices)[..finalLen]
    requires fits <==> finalLen == 0 || |list| + |pcb.probeServices| == finalLen
    ensures all == Probed(pcb, list) && (fits <==> !Spills(pcb, list))
  {
    assert (list + pcb.probeServices)[..|list|] == list;
    assert list + [] == list;
    assert (list + pcb.probeServices)[..|list| + |pcb.probeServices|] == list + pcb.probeServices;
  }

  lemma ProbeStarted(st: State, q: nat, services: seq<Service>, probeIp: bool, random: nat, mid: State)
    requires q < |st.pcbs|
    requires var pcb := st.pcbs[q];
             mid == st.(nextId := st.nextId + 1, out := st.out + [ProbeRestart(q, st.now)],
                        spilt := if Spills(pcb, services) then st.spilt + [q] else st.spilt,
                        pcbs := st.pcbs[q := pcb.(probeIp := pcb.probeIp || probeIp, probeServices := Probed(pcb, services), probeRunning := true)])
    ensures var pcb := st.pcbs[q];
            var p := ProbePacket(st.nextId, q, Probed(pcb, services), pcb.probeIp || probeIp);
            StartProbe(st, q, services, probeIp, random) ==
            Schedule(mid, p, ProbeDelay(pcb.failedProbes, random)).(pcbs := mid.pcbs[q := mid.pcbs[q].(state := Probe1)])
  {
    hide Insert, ProbePacket, Spills;
  }

  lemma StaysInRange(st: State, s: Service)
    requires forall k :: 0 <= k < |st.tx| ==> st.tx[k].pcb < |st.pcbs|
    ensures var st' := RemoveScheduled(st, s); forall k :: 0 <= k < |st'.tx| ==> st'.tx[k].pcb < |st'.pcbs|
  {
    hide PurgeQueue, Shrunk;
    var st' := RemoveScheduled(st, s);
    PurgeShrinks(st.pcbs, st.tx, s);
    forall k | 0 <= k < |st'.tx| ensures st'.tx[k].pcb < |st.pcbs| {
      ShrunkMember(st.tx, st'.tx, st'.tx[k]);
    }
  }

  lemma InRange(st: State, known: seq<Service>)
    requires Inv(st, known)
    ensures forall k :: 0 <= k < |st.tx| ==> st.tx[k].pcb < |st.pcbs|
  {
    hide Agreement, ThreeProbesFirst, PacketMentionsOnly, AllLife;
    forall k | 0 <= k < |st.tx| ensures st.tx[k].pcb < |st.pcbs| {
      assert st.tx[k] in st.tx;
    }
  }

  /** One turn of the posting loop. */
  lemma PostStep(done: seq<Packet>, rest: seq<Packet>, before: seq<nat>, tx': seq<Packet>, pending': seq<nat>, now: nat, room: nat)
    requires rest != [] && rest[0].sendAt < now
    requires tx' == done + [rest[0].(queued := room > 0)] + rest[1..]
    requires pending' == before + (if room > 0 then [rest[0].id] else [])
    ensures var room' := if room > 0 then room - 1 else 0;
            var i := |done| + 1;
            && done + Post(rest, now, room).0 == tx'[..i] + Post(tx'[i..], now, room').0
            && before + Post(rest, now, room).1 == pending' + Post(tx'[i..], now, room').1
  {
    var room' := if room > 0 then room - 1 else 0;
    var i := |done| + 1;
    var head := rest[0].(queued := room > 0);
    assert tx'[..i] == done + [head] && tx'[i..] == rest[1..];
    var (tail, ids) := Post(rest[1..], now, room');
    Associative(done, [head], tail);
    Associative(before, [rest[0].id], ids);
  }

  lemma DropAnswerStep(tx: seq<Packet>, i: nat, q: nat, typ: RecordType, svc: Option<Service>)
    requires i < |tx|
    ensures var p := if tx[i].pcb == q && tx[i].distributed then tx[i].(answers := DropFirst(tx[i].answers, typ, svc)) else tx[i];
            var tx' := tx[i := p];
            tx'[..i + 1] + DropScheduledAnswer(tx'[i + 1..], q, typ, svc) == tx[..i] + DropScheduledAnswer(tx[i..], q, typ, svc)
  {
    hide DropFirst;
    Around(tx, i);
    var p := if tx[i].pcb == q && tx[i].distributed then tx[i].(answers := DropFirst(tx[i].answers, typ, svc)) else tx[i];
    var tx' := tx[i := p];
    var rest := DropScheduledAnswer(tx[i + 1..], q, typ, svc);
    assert tx'[..i + 1] == tx[..i] + [p] && tx'[i + 1..] == tx[i + 1..];
    Associative(tx[..i], [p], rest);
  }
}
