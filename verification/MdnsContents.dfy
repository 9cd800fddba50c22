/**
 What the packets built by the engine contain: which services they mention, what a probe claims
 and asks, and what keeps an announcement alive.
 */
module MdnsContents {
  import opened Common
  import opened MdnsState
  import opened MdnsSpec

  ghost predicate MentionsOnly(list: seq<Answer>, allowed: seq<Service>) {
    forall a :: a in list && a.svc.Some? ==> a.svc.value in allowed
  }

  ghost predicate PacketMentionsOnly(p: Packet, allowed: seq<Service>) {
    MentionsOnly(p.answers, allowed) && MentionsOnly(p.servers, allowed) && MentionsOnly(p.additional, allowed)
  }

  ghost predicate Subset(some: seq<Service>, allowed: seq<Service>) {
    forall s :: s in some ==> s in allowed
  }

  // ---- Services asked for ----

  function AskedOfType(questions: seq<Question>, t: nat): nat {
    if questions == [] then 0
    else (if questions[0].subject.OfService? && questions[0].subject.svc.typ == t then 1 else 0) + AskedOfType(questions[1..], t)
  }

  function OfType(services: seq<Service>, t: nat): nat {
    if services == [] then 0 else (if services[0].typ == t then 1 else 0) + OfType(services[1..], t)
  }

  /** A probe packet asks at least one question per probed service of each type, and for the host when probing it. */
  ghost predicate AsksEnough(questions: seq<Question>, pcb: Pcb) {
    && (forall t :: AskedOfType(questions, t) >= OfType(pcb.probeServices, t))
    && (pcb.probeIp ==> Asked(questions, OfHost(None)))
  }

  /** `p` is the probe packet of a control block: it claims what the control block probes, and no other service. */
  ghost predicate ProbeFor(p: Packet, pcb: Pcb) {
    && !p.distributed
    && (forall s :: s in pcb.probeServices ==> Answer(SRV, Some(s), None) in p.servers)
    && MentionsOnly(p.servers, pcb.probeServices)
    && (pcb.probeIp ==> HasAddress(p.servers))
    && AsksEnough(p.questions, pcb)
  }

  /** A packet that keeps announcing alive until it is sent. */
  ghost predicate Anchor(p: Packet) {
    !p.distributed && (p.answers != [] || exists a :: a in p.servers && a.svc == None)
  }

  // ---- Answer lists ----

  /** `b` is `a` with further answers, none of them about a service outside `services`. */
  ghost predicate Grown(a: seq<Answer>, b: seq<Answer>, services: seq<Service>) {
    && (forall x :: x in a ==> x in b)
    && (forall x :: x in b ==> x in a || x.svc == None || x.svc.value in services)
  }

  lemma AddServiceGrows(list: seq<Answer>, s: Service)
    ensures Grown(list, AddServiceAnswers(list, s), [s]) && Answer(SRV, Some(s), None) in AddServiceAnswers(list, s)
  {
    var l1 := AddAnswer(list, Answer(SDPTR, Some(s), None));
    var l2 := AddAnswer(l1, Answer(PTR, Some(s), None));
    var l3 := AddAnswer(l2, Answer(SRV, Some(s), None));
    assert Answer(SRV, Some(s), None) in l3;
  }

  lemma {:induction false} AddAllGrows(list: seq<Answer>, services: seq<Service>)
    ensures Grown(list, AddAllServiceAnswers(list, services), services)
    ensures services != [] ==> AddAllServiceAnswers(list, services) != []
    decreases |services|
  {
    if services != [] {
      var list' := AddServiceAnswers(list, services[0]);
      AddServiceGrows(list, services[0]);
      AddAllGrows(list', services[1..]);
      assert Answer(SRV, Some(services[0]), None) in AddAllServiceAnswers(list', services[1..]);
    }
  }

  lemma AddHostGrows(list: seq<Answer>, h: Option<Host>)
    ensures Grown(list, AddHost(list, h), []) && Answer(RecordType.A, None, h) in AddHost(list, h)
  {
    var l := AddAnswer(list, Answer(RecordType.A, None, h));
    assert Answer(RecordType.A, None, h) in l;
  }

  lemma {:induction false} AddHostsGrow(list: seq<Answer>, services: seq<Service>)
    ensures Grown(list, AddHostsOf(list, services), [])
    ensures services != [] ==> Answer(RecordType.A, None, services[0].host) in AddHostsOf(list, services)
    decreases |services|
  {
    if services != [] {
      AddHostGrows(list, services[0].host);
      AddHostsGrow(AddHost(list, services[0].host), services[1..]);
    }
  }

  /** There is an address record of a host in the list. */
  ghost predicate HasAddress(list: seq<Answer>) {
    exists a :: a in list && a.typ == RecordType.A && a.svc == None
  }

  lemma AddHostListGrows(list: seq<Answer>, services: seq<Service>)
    ensures Grown(list, AddHostList(list, services), []) && HasAddress(AddHostList(list, services))
  {
    if services == [] {
      AddHostGrows(list, Some(SelfHost));
    } else {
      AddHostsGrow(list, services);
    }
  }

  lemma {:induction false} FromProbeGrows(answers: seq<Answer>, servers: seq<Answer>, services: seq<Service>)
    requires MentionsOnly(servers, services)
    ensures Grown(answers, FromProbe(answers, servers), services)
    decreases |servers|
  {
    if servers != [] {
      assert servers == [servers[0]] + servers[1..];
      var s := servers[0];
      if s.typ == SRV && s.svc.Some? {
        AddServiceGrows(answers, s.svc.value);
        AddHostGrows(AddServiceAnswers(answers, s.svc.value), s.svc.value.host);
        FromProbeGrows(AddHost(AddServiceAnswers(answers, s.svc.value), s.svc.value.host), servers[1..], services);
      } else if s.typ == RecordType.A || s.typ == AAAA {
        FromProbeGrows(AddAnswer(answers, Answer(s.typ, None, s.host)), servers[1..], services);
      } else {
        FromProbeGrows(answers, servers[1..], services);
      }
    }
  }

  /** A record claimed by the probe leads to an announced record. */
  lemma {:induction false} FromProbeAnnounces(answers: seq<Answer>, servers: seq<Answer>, b: Answer, services: seq<Service>)
    requires MentionsOnly(servers, services)
    requires b in servers && (b.typ == RecordType.A || (b.typ == SRV && b.svc.Some?))
    ensures FromProbe(answers, servers) != []
    decreases |servers|
  {
    assert servers == [servers[0]] + servers[1..];
    var s := servers[0];
    var next :=
      if s.typ == SRV && s.svc.Some? then AddHost(AddServiceAnswers(answers, s.svc.value), s.svc.value.host)
      else if s.typ == RecordType.A || s.typ == AAAA then AddAnswer(answers, Answer(s.typ, None, s.host))
      else answers;
    if s == b {
      assert next != [];
      FromProbeGrows(next, servers[1..], services);
      assert next[0] in FromProbe(next, servers[1..]);
    } else {
      FromProbeAnnounces(next, servers[1..], b, services);
    }
  }

  lemma {:induction false} DropServiceMembers(list: seq<Answer>, s: Service)
    ensures forall a :: a in DropService(list, s) <==> a in list && a.svc != Some(s)
  {
    if list != [] {
      assert list == [list[0]] + list[1..];
      DropServiceMembers(list[1..], s);
    }
  }

  lemma {:induction false} DropFirstMembers(list: seq<Answer>, typ: RecordType, svc: Option<Service>)
    ensures forall a :: a in DropFirst(list, typ, svc) ==> a in list
    ensures forall a :: a in list && !(a.typ == typ && a.svc == svc) ==> a in DropFirst(list, typ, svc)
  {
    if list != [] {
      assert list == [list[0]] + list[1..];
      DropFirstMembers(list[1..], typ, svc);
    }
  }

  /** Exactly the first answer of that type and service goes. */
  lemma {:induction false} DropFirstAt(list: seq<Answer>, typ: RecordType, svc: Option<Service>) returns (i: nat)
    ensures i <= |list| && forall k :: 0 <= k < i ==> !(list[k].typ == typ && list[k].svc == svc)
    ensures i < |list| ==> list[i].typ == typ && list[i].svc == svc && CutAt(DropFirst(list, typ, svc), list, i)
    ensures i == |list| ==> DropFirst(list, typ, svc) == list
  {
    hide CutAt;
    if list == [] {
      i := 0;
    } else if list[0].typ == typ && list[0].svc == svc {
      i := 0;
      CutHead(list);
    } else {
      var j := DropFirstAt(list[1..], typ, svc);
      i := j + 1;
      forall k | 0 < k < i ensures !(list[k].typ == typ && list[k].svc == svc) {
        assert list[k] == list[1..][k - 1];
      }
      if i < |list| {
        CutFromRest(DropFirst(list[1..], typ, svc), list, j);
      } else {
        assert list == [list[0]] + list[1..];
      }
    }
  }

  lemma {:induction false} FreshMembers(services: seq<Service>, probing: seq<Service>)
    ensures forall s :: s in Fresh(services, probing) <==> s in services && s !in probing
    ensures NoDuplicates(services) ==> NoDuplicates(Fresh(services, probing))
  {
    if services != [] {
      assert services == [services[0]] + services[1..];
      FreshMembers(services[1..], probing);
      if NoDuplicates(services) {
        assert forall i :: 0 <= i < |services[1..]| ==> services[1..][i] == services[i + 1];
        assert services[0] !in services[1..];
      }
    }
  }

  // ---- Which answers the lists hold, exactly ----

  /** `x` is one of the four records that publish a service (section 4.1.1 of RFC 6763): enumeration, PTR, SRV, TXT. */
  ghost predicate Publishes(x: Answer, s: Service) {
    x.svc == Some(s) && x.host == None && (x.typ == SDPTR || x.typ == PTR || x.typ == SRV || x.typ == TXT)
  }

  /** `x` is an address record of a host. */
  ghost predicate Locates(x: Answer, h: Option<Host>) {
    x.svc == None && x.host == h && (x.typ == RecordType.A || x.typ == AAAA)
  }

  ghost predicate PublishesSome(x: Answer, services: seq<Service>) {
    exists s :: s in services && Publishes(x, s)
  }

  /** `x` is an address record of the host of one of the services, or of the responder's own host if there are none. */
  ghost predicate LocatesSome(x: Answer, services: seq<Service>) {
    if services == [] then Locates(x, Some(SelfHost)) else exists s :: s in services && Locates(x, s.host)
  }

  /** `x` is announced because a probe has claimed `c`. */
  ghost predicate AnnouncedFor(x: Answer, c: Answer) {
    if c.typ == SRV && c.svc.Some? then Publishes(x, c.svc.value) || Locates(x, c.svc.value.host)
    else (c.typ == RecordType.A || c.typ == AAAA) && x == Answer(c.typ, None, c.host)
  }

  lemma AddServiceHolds(list: seq<Answer>, s: Service, x: Answer)
    ensures x in AddServiceAnswers(list, s) <==> x in list || Publishes(x, s)
  {
    var l1 := AddAnswer(list, Answer(SDPTR, Some(s), None));
    var l2 := AddAnswer(l1, Answer(PTR, Some(s), None));
    var l3 := AddAnswer(l2, Answer(SRV, Some(s), None));
    assert x in l1 <==> x in list || x == Answer(SDPTR, Some(s), None);
    assert x in l2 <==> x in l1 || x == Answer(PTR, Some(s), None);
    assert x in l3 <==> x in l2 || x == Answer(SRV, Some(s), None);
  }

  lemma AddHostHolds(list: seq<Answer>, h: Option<Host>, x: Answer)
    ensures x in AddHost(list, h) <==> x in list || Locates(x, h)
  {
    var l := AddAnswer(list, Answer(RecordType.A, None, h));
    assert x in l <==> x in list || x == Answer(RecordType.A, None, h);
  }

  /** After adding several services: what was there, and the four records of each. */
  lemma {:induction false} AddAllHolds(list: seq<Answer>, services: seq<Service>, x: Answer)
    ensures x in AddAllServiceAnswers(list, services) <==> x in list || PublishesSome(x, services)
    decreases |services|
  {
    hide Publishes, AddServiceAnswers;
    if services != [] {
      assert services == [services[0]] + services[1..];
      AddServiceHolds(list, services[0], x);
      AddAllHolds(AddServiceAnswers(list, services[0]), services[1..], x);
    }
  }

  lemma {:induction false} AddHostsHold(list: seq<Answer>, services: seq<Service>, x: Answer)
    ensures x in AddHostsOf(list, services) <==> x in list || exists s :: s in services && Locates(x, s.host)
    decreases |services|
  {
    hide Locates, AddHost;
    if services != [] {
      assert services == [services[0]] + services[1..];
      AddHostHolds(list, services[0].host, x);
      AddHostsHold(AddHost(list, services[0].host), services[1..], x);
    }
  }

  lemma AddHostListHolds(list: seq<Answer>, services: seq<Service>, x: Answer)
    ensures x in AddHostList(list, services) <==> x in list || LocatesSome(x, services)
  {
    hide Locates, AddHost;
    if services == [] {
      AddHostHolds(list, Some(SelfHost), x);
    } else {
      AddHostsHold(list, services, x);
    }
  }

  /** The list made from the claims of a probe holds exactly what each of them calls for. */
  lemma {:induction false} FromProbeHolds(answers: seq<Answer>, servers: seq<Answer>, x: Answer)
    ensures x in FromProbe(answers, servers) <==> x in answers || exists c :: c in servers && AnnouncedFor(x, c)
    decreases |servers|
  {
    hide AnnouncedFor;
    if servers != [] {
      assert servers == [servers[0]] + servers[1..];
      var c := servers[0];
      var next :=
        if c.typ == SRV && c.svc.Some? then AddHost(AddServiceAnswers(answers, c.svc.value), c.svc.value.host)
        else if c.typ == RecordType.A || c.typ == AAAA then AddAnswer(answers, Answer(c.typ, None, c.host))
        else answers;
      ClaimHolds(answers, c, x);
      FromProbeHolds(next, servers[1..], x);
    }
  }

  lemma ClaimHolds(answers: seq<Answer>, c: Answer, x: Answer)
    ensures var next :=
              if c.typ == SRV && c.svc.Some? then AddHost(AddServiceAnswers(answers, c.svc.value), c.svc.value.host)
              else if c.typ == RecordType.A || c.typ == AAAA then AddAnswer(answers, Answer(c.typ, None, c.host))
              else answers;
            x in next <==> x in answers || AnnouncedFor(x, c)
  {
    hide AddHost, AddServiceAnswers, Locates, Publishes;
    if c.typ == SRV && c.svc.Some? {
      AddServiceHolds(answers, c.svc.value, x);
      AddHostHolds(AddServiceAnswers(answers, c.svc.value), c.svc.value.host, x);
    }
  }

  // ---- No answer twice ----

  ghost predicate Once(list: seq<Answer>) {
    forall i, j :: 0 <= i < j < |list| ==> list[i] != list[j]
  }

  lemma AddServiceOnce(list: seq<Answer>, s: Service)
    requires Once(list)
    ensures Once(AddServiceAnswers(list, s))
  {
    var l1 := AddAnswer(list, Answer(SDPTR, Some(s), None));
    var l2 := AddAnswer(l1, Answer(PTR, Some(s), None));
    var l3 := AddAnswer(l2, Answer(SRV, Some(s), None));
    assert Once(l1) && Once(l2) && Once(l3);
  }

  lemma AddHostOnce(list: seq<Answer>, h: Option<Host>)
    requires Once(list)
    ensures Once(AddHost(list, h))
  {
    assert Once(AddAnswer(list, Answer(RecordType.A, None, h)));
  }

  lemma {:induction false} AddAllOnce(list: seq<Answer>, services: seq<Service>)
    requires Once(list)
    ensures Once(AddAllServiceAnswers(list, services))
    decreases |services|
  {
    hide Once, AddServiceAnswers;
    if services != [] {
      AddServiceOnce(list, services[0]);
      AddAllOnce(AddServiceAnswers(list, services[0]), services[1..]);
    }
  }

  lemma {:induction false} AddHostsOnce(list: seq<Answer>, services: seq<Service>)
    requires Once(list)
    ensures Once(AddHostsOf(list, services))
    decreases |services|
  {
    hide Once, AddHost;
    if services != [] {
      AddHostOnce(list, services[0].host);
      AddHostsOnce(AddHost(list, services[0].host), services[1..]);
    }
  }

  lemma AddHostListOnce(list: seq<Answer>, services: seq<Service>)
    requires Once(list)
    ensures Once(AddHostList(list, services))
  {
    hide Once, AddHost;
    AddHostOnce(list, Some(SelfHost));
    AddHostsOnce(list, services);
  }

  lemma {:induction false} FromProbeOnce(answers: seq<Answer>, servers: seq<Answer>)
    requires Once(answers)
    ensures Once(FromProbe(answers, servers))
    decreases |servers|
  {
    hide Once, AddHost, AddServiceAnswers, AddAnswer;
    if servers != [] {
      var c := servers[0];
      if c.typ == SRV && c.svc.Some? {
        AddServiceOnce(answers, c.svc.value);
        AddHostOnce(AddServiceAnswers(answers, c.svc.value), c.svc.value.host);
        FromProbeOnce(AddHost(AddServiceAnswers(answers, c.svc.value), c.svc.value.host), servers[1..]);
      } else if c.typ == RecordType.A || c.typ == AAAA {
        AddAnswerOnce(answers, Answer(c.typ, None, c.host));
        FromProbeOnce(AddAnswer(answers, Answer(c.typ, None, c.host)), servers[1..]);
      } else {
        FromProbeOnce(answers, servers[1..]);
      }
    }
  }

  lemma AddAnswerOnce(list: seq<Answer>, x: Answer)
    requires Once(list)
    ensures Once(AddAnswer(list, x))
  {
  }

  // ---- What the packets hold, exactly ----

  /** The announcement of a finished probe: for each claim, the four records of its service and the addresses of its host. */
  lemma AnnouncementOf(probe: Packet)
    ensures forall x :: x in FromProbe([], probe.servers) <==> exists c :: c in probe.servers && AnnouncedFor(x, c)
    ensures Once(FromProbe([], probe.servers))
  {
    hide FromProbe, AnnouncedFor;
    forall x ensures x in FromProbe([], probe.servers) <==> exists c :: c in probe.servers && AnnouncedFor(x, c) {
      FromProbeHolds([], probe.servers, x);
    }
    FromProbeOnce([], probe.servers);
  }

  /** A new announcement holds the four records of every service given and, if asked to, the addresses of their hosts. */
  lemma AnnouncePacketHolds(id: nat, q: nat, services: seq<Service>, withIp: bool)
    ensures var p := AnnouncePacket(id, q, services, withIp);
            && (forall x :: x in p.answers <==> PublishesSome(x, services))
            && (forall x :: x in p.servers <==> withIp && LocatesSome(x, services))
            && p.additional == [] && p.questions == [] && Once(p.answers) && Once(p.servers)
  {
    hide AddAllServiceAnswers, AddHostList, PublishesSome, LocatesSome;
    forall x ensures x in AddAllServiceAnswers([], services) <==> PublishesSome(x, services) {
      AddAllHolds([], services, x);
    }
    forall x ensures x in AddHostList([], services) <==> LocatesSome(x, services) {
      AddHostListHolds([], services, x);
    }
    AddAllOnce([], services);
    AddHostListOnce([], services);
  }

  /** Merging adds just that to what the packet holds already. */
  lemma MergeHolds(p: Packet, services: seq<Service>, withIp: bool)
    ensures var p' := Merge(p, services, withIp);
            && (forall x :: x in p'.answers <==> x in p.answers || PublishesSome(x, services) || (withIp && LocatesSome(x, services)))
            && p'.servers == p.servers && p'.questions == p.questions && (Once(p.answers) ==> Once(p'.answers))
            && (forall x :: x in p'.additional ==> x in p.additional)
            && (forall x :: x in p.additional && (withIp ==> x.svc.Some? || (x.typ != RecordType.A && x.typ != AAAA)) ==> x in p'.additional)
  {
    hide AddAllServiceAnswers, AddHostList, PublishesSome, LocatesSome, DropFirst, Once;
    var answers := AddAllServiceAnswers(p.answers, services);
    forall x ensures x in answers <==> x in p.answers || PublishesSome(x, services) {
      AddAllHolds(p.answers, services, x);
    }
    forall x ensures x in AddHostList(answers, services) <==> x in answers || LocatesSome(x, services) {
      AddHostListHolds(answers, services, x);
    }
    if Once(p.answers) {
      AddAllOnce(p.answers, services);
      AddHostListOnce(answers, services);
    }
    DropFirstMembers(p.additional, RecordType.A, None);
    DropFirstMembers(DropFirst(p.additional, RecordType.A, None), AAAA, None);
  }

  // ---- Probe packets claim and ask what they should ----

  lemma {:induction false} AskedAppend(questions: seq<Question>, x: Question, t: nat)
    ensures AskedOfType(questions + [x], t) ==
            AskedOfType(questions, t) + (if x.subject.OfService? && x.subject.svc.typ == t then 1 else 0)
  {
    if questions == [] {
      assert questions + [x] == [x];
    } else {
      assert (questions + [x])[1..] == questions[1..] + [x];
      AskedAppend(questions[1..], x, t);
    }
  }

  lemma {:induction false} ProbeServicesAsk(questions: seq<Question>, servers: seq<Answer>, services: seq<Service>)
    requires NoDuplicates(services)
    requires forall s :: s in services ==> !Asked(questions, OfService(s))
    requires forall i :: 0 <= i < |questions| ==> questions[i].unicast
    ensures var (qs, srv) := ProbeServices(questions, servers, services);
            && (forall t :: AskedOfType(qs, t) == AskedOfType(questions, t) + OfType(services, t))
            && (forall i :: 0 <= i < |qs| ==> qs[i].unicast)
            && (forall a :: a in servers ==> a in srv)
            && (forall s :: s in services ==> Answer(SRV, Some(s), None) in srv)
            && (forall a :: a in srv ==> a in servers || exists s :: s in services && a == Answer(SRV, Some(s), None))
    decreases |services|
  {
    if services != [] {
      var s := services[0];
      assert services == [s] + services[1..];
      var questions' := questions + [Question(OfService(s), true)];
      var servers' := AddAnswer(servers, Answer(SRV, Some(s), None));
      forall u | u in services[1..] ensures !Asked(questions', OfService(u)) {
        assert u in services;
        assert u != s;
      }
      ProbeServicesAsk(questions', servers', services[1..]);
      forall t ensures AskedOfType(questions', t) == AskedOfType(questions, t) + (if s.typ == t then 1 else 0) {
        AskedAppend(questions, Question(OfService(s), true), t);
      }
      assert s in services;
    }
  }

  lemma {:induction false} HostQuestionsKeep(questions: seq<Question>, services: seq<Service>)
    requires forall i :: 0 <= i < |questions| ==> questions[i].unicast
    ensures var qs := HostQuestions(questions, services);
            && (forall t :: AskedOfType(qs, t) >= AskedOfType(questions, t))
            && (forall i :: 0 <= i < |qs| ==> qs[i].unicast)
            && (forall x :: Asked(questions, x) ==> Asked(qs, x))
    decreases |services|
  {
    if services != [] {
      AddQuestionKeeps(questions, OfHost(Some(services[0])));
      HostQuestionsKeep(AddQuestion(questions, OfHost(Some(services[0]))), services[1..]);
    }
  }

  lemma AddQuestionKeeps(questions: seq<Question>, subject: Subject)
    requires !subject.OfService?
    ensures var qs := AddQuestion(questions, subject);
            && (forall t :: AskedOfType(qs, t) == AskedOfType(questions, t))
            && (forall x :: Asked(qs, x) <==> Asked(questions, x) || x == subject)
  {
    if !Asked(questions, subject) {
      var qs := questions + [Question(subject, true)];
      forall t ensures AskedOfType(qs, t) == AskedOfType(questions, t) {
        AskedAppend(questions, Question(subject, true), t);
      }
      forall x ensures Asked(qs, x) <==> Asked(questions, x) || x == subject {
        if Asked(questions, x) {
          var i :| 0 <= i < |questions| && questions[i].subject == x;
          assert qs[i].subject == x;
        }
        if x == subject {
          assert qs[|questions|].subject == x;
        }
      }
    }
  }

  lemma ProbePacketFits(id: nat, q: nat, pcb: Pcb, allowed: seq<Service>)
    requires NoDuplicates(pcb.probeServices) && Subset(pcb.probeServices, allowed)
    ensures var p := ProbePacket(id, q, pcb.probeServices, pcb.probeIp);
            && ProbeFor(p, pcb)
            && PacketMentionsOnly(p, allowed)
            && (forall i :: 0 <= i < |p.questions| ==> p.questions[i].unicast)
            && p.id == id && p.pcb == q && !p.queued
  {
    var services := pcb.probeServices;
    ProbeServicesAsk([], [], services);
    var (qs, srv) := ProbeServices([], [], services);
    if pcb.probeIp {
      AddHostListGrows(srv, services);
      AddQuestionKeeps(qs, OfHost(None));
      HostQuestionsKeep(AddQuestion(qs, OfHost(None)), services);
    }
  }

  /** The service questions of a probe, and its claims so far. */
  lemma {:induction false} ProbeServicesHold(questions: seq<Question>, servers: seq<Answer>, services: seq<Service>, s: Service)
    requires Asked(questions, OfService(s)) <==> Answer(SRV, Some(s), None) in servers
    ensures var (qs, srv) := ProbeServices(questions, servers, services);
            && (Asked(qs, OfService(s)) <==> Asked(questions, OfService(s)) || s in services)
            && (Answer(SRV, Some(s), None) in srv <==> Asked(qs, OfService(s)))
    decreases |services|
  {
    if services != [] {
      var t := services[0];
      assert services == [t] + services[1..];
      if Asked(questions, OfService(t)) {
        ProbeServicesHold(questions, servers, services[1..], s);
      } else {
        AskedOneMore(questions, OfService(t), OfService(s));
        ProbeServicesHold(questions + [Question(OfService(t), true)], AddAnswer(servers, Answer(SRV, Some(t), None)), services[1..], s);
      }
    }
  }

  /** Apart from service questions and claims nothing is added. */
  lemma {:induction false} ProbeServicesOnly(questions: seq<Question>, servers: seq<Answer>, services: seq<Service>, subject: Subject, x: Answer)
    requires !subject.OfService? && !(x.typ == SRV && x.svc.Some? && x.host == None)
    ensures var (qs, srv) := ProbeServices(questions, servers, services);
            (Asked(qs, subject) <==> Asked(questions, subject)) && (x in srv <==> x in servers)
    decreases |services|
  {
    if services != [] {
      var t := services[0];
      if Asked(questions, OfService(t)) {
        ProbeServicesOnly(questions, servers, services[1..], subject, x);
      } else {
        AskedOneMore(questions, OfService(t), subject);
        ProbeServicesOnly(questions + [Question(OfService(t), true)], AddAnswer(servers, Answer(SRV, Some(t), None)), services[1..], subject, x);
      }
    }
  }

  lemma AskedOneMore(questions: seq<Question>, subject: Subject, x: Subject)
    ensures Asked(questions + [Question(subject, true)], x) <==> Asked(questions, x) || x == subject
  {
    var more := questions + [Question(subject, true)];
    if Asked(questions, x) {
      var i :| 0 <= i < |questions| && questions[i].subject == x;
      assert more[i].subject == x;
    }
    assert more[|questions|].subject == subject;
  }

  lemma {:induction false} HostQuestionsHold(questions: seq<Question>, services: seq<Service>, x: Subject)
    ensures Asked(HostQuestions(questions, services), x) <==> Asked(questions, x) || exists s :: s in services && x == OfHost(Some(s))
    decreases |services|
  {
    hide Asked;
    if services != [] {
      assert services == [services[0]] + services[1..];
      AddQuestionHolds(questions, OfHost(Some(services[0])), x);
      HostQuestionsHold(AddQuestion(questions, OfHost(Some(services[0]))), services[1..], x);
    }
  }

  lemma AddQuestionHolds(questions: seq<Question>, subject: Subject, x: Subject)
    ensures Asked(AddQuestion(questions, subject), x) <==> Asked(questions, x) || x == subject
  {
    AskedOneMore(questions, subject, x);
  }

  /**
   A probe asks for every service given and, if asked to, for the responder's host and those of the services; it claims the
   SRV record of every service and the addresses of the hosts asked for. It asks and claims nothing else.
   */
  lemma ProbePacketHolds(id: nat, q: nat, services: seq<Service>, withIp: bool)
    ensures var p := ProbePacket(id, q, services, withIp);
            && (forall x :: Asked(p.questions, x) <==> ProbeAsksFor(x, services, withIp))
            && (forall x :: x in p.servers <==> ProbeClaims(x, services, withIp))
            && p.answers == [] && p.additional == []
  {
    hide AddHostList, LocatesSome, ProbeServices, HostQuestions, AddQuestion, Asked;
    var (qs, srv) := ProbeServices([], [], services);
    var p := ProbePacket(id, q, services, withIp);
    forall x ensures x in p.servers <==> ProbeClaims(x, services, withIp) {
      ClaimOf(services, x);
      AddHostListHolds(srv, services, x);
    }
    forall x ensures Asked(p.questions, x) <==> ProbeAsksFor(x, services, withIp) {
      QuestionOf(services, x);
      AddQuestionHolds(qs, OfHost(None), x);
      HostQuestionsHold(AddQuestion(qs, OfHost(None)), services, x);
    }
  }

  ghost predicate ProbeAsksFor(x: Subject, services: seq<Service>, withIp: bool) {
    (x.OfService? && x.svc in services) ||
    (withIp && (x == OfHost(None) || exists s :: s in services && x == OfHost(Some(s))))
  }

  ghost predicate ProbeClaims(x: Answer, services: seq<Service>, withIp: bool) {
    (x.typ == SRV && x.svc.Some? && x.svc.value in services && x.host == None) || (withIp && LocatesSome(x, services))
  }

  lemma ClaimOf(services: seq<Service>, x: Answer)
    ensures x in ProbeServices([], [], services).1 <==> x.typ == SRV && x.svc.Some? && x.svc.value in services && x.host == None
  {
    hide ProbeServices;
    if x.typ == SRV && x.svc.Some? && x.host == None {
      ProbeServicesHold([], [], services, x.svc.value);
    } else {
      ProbeServicesOnly([], [], services, OfHost(None), x);
    }
  }

  lemma QuestionOf(services: seq<Service>, x: Subject)
    ensures Asked(ProbeServices([], [], services).0, x) <==> x.OfService? && x.svc in services
  {
    hide ProbeServices;
    if x.OfService? {
      ProbeServicesHold([], [], services, x.svc);
    } else {
      ProbeServicesOnly([], [], services, x, Answer(PTR, None, None));
    }
  }

  lemma {:induction false} AskedPositive(questions: seq<Question>, services: seq<Service>)
    requires services != [] && forall t :: AskedOfType(questions, t) >= OfType(services, t)
    ensures questions != []
  {
    assert OfType(services, services[0].typ) > 0;
    assert AskedOfType(questions, services[0].typ) > 0;
  }

  // ---- Announcements ----

  lemma MergeMentions(p: Packet, services: seq<Service>, withIp: bool, allowed: seq<Service>)
    requires PacketMentionsOnly(p, allowed) && Subset(services, allowed)
    ensures PacketMentionsOnly(Merge(p, services, withIp), allowed)
    ensures Anchor(p) ==> Anchor(Merge(p, services, withIp))
  {
    var answers := AddAllServiceAnswers(p.answers, services);
    AddAllGrows(p.answers, services);
    AddHostListGrows(answers, services);
    DropFirstMembers(p.additional, RecordType.A, None);
    DropFirstMembers(DropFirst(p.additional, RecordType.A, None), AAAA, None);
    if p.answers != [] {
      assert p.answers[0] in p.answers;
    }
  }

  lemma AnnouncePacketFits(id: nat, q: nat, services: seq<Service>, withIp: bool, allowed: seq<Service>)
    requires Subset(services, allowed) && (services != [] || withIp)
    ensures PacketMentionsOnly(AnnouncePacket(id, q, services, withIp), allowed)
    ensures Anchor(AnnouncePacket(id, q, services, withIp))
    ensures var p := AnnouncePacket(id, q, services, withIp); p.id == id && p.pcb == q && !p.queued
  {
    AddAllGrows([], services);
    AddHostListGrows([], services);
  }
}
