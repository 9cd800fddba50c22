/**
 State of the mDNS responder engine: protocol control blocks (one per interface and IP protocol),
 registered services, the time-ordered transmit queue and the TX_HANDLE actions waiting in the
 action queue.
 */
module MdnsState {
  import opened Common

  // ---- Protocol control blocks ----

  datatype PcbState =
    | Off | Dup | Init
    | Probe1 | Probe2 | Probe3
    | Announce1 | Announce2 | Announce3
    | Running
  {
    /** The numeric value of the enumerator. */
    function Rank(): nat {
      match this
      case Off => 0 case Dup => 1 case Init => 2
      case Probe1 => 3 case Probe2 => 4 case Probe3 => 5
      case Announce1 => 6 case Announce2 => 7 case Announce3 => 8
      case Running => 9
    }

    /** The probing test of the source. It also holds of `Dup` and `Init`. */
    predicate CountsAsProbing() {
      Off.Rank() < Rank() < Announce1.Rank()
    }

    predicate Announcing() {
      Probe3.Rank() < Rank() < Running.Rank()
    }

    /** In one of the three real probing states. */
    predicate Probing() {
      Probe1? || Probe2? || Probe3?
    }
  }

  datatype Host = SelfHost | Delegated(index: nat)

  /** A registered service. Identity is `id`; `typ` stands for the texts of service type and proto. */
  datatype Service = Service(id: nat, typ: nat, host: Option<Host>)

  datatype Pcb = Pcb(
    state: PcbState,
    probeServices: seq<Service>,
    probeIp: bool,
    probeRunning: bool,
    failedProbes: nat,
    ready: bool)

  // ---- Packets ----

  datatype RecordType = PTR | TXT | SRV | A | AAAA | SDPTR | Other(code: nat)

  datatype Answer = Answer(typ: RecordType, svc: Option<Service>, host: Option<Host>)

  /** What an outgoing question asks for; equal subjects hold equal pointers in the source. */
  datatype Subject =
    | OfService(svc: Service)
    | OfHost(owner: Option<Service>)
    | Copied(typ: Option<nat>)

  datatype Question = Question(subject: Subject, unicast: bool)

  datatype Packet = Packet(
    id: nat,
    sendAt: nat,
    pcb: nat,
    questions: seq<Question>,
    answers: seq<Answer>,
    servers: seq<Answer>,
    additional: seq<Answer>,
    queued: bool,
    distributed: bool)
  {
    predicate IsEmpty() {
      questions == [] && answers == [] && additional == [] && servers == []
    }

    predicate Mentions(s: Service) {
      (exists a :: a in answers && a.svc == Some(s)) ||
      (exists a :: a in servers && a.svc == Some(s)) ||
      (exists a :: a in additional && a.svc == Some(s))
    }
  }

  // ---- The server ----

  /** What an observer of the engine sees of one control block's life. */
  datatype Output =
    | ProbeRestart(pcb: nat, time: nat)
    | Sent(pcb: nat, time: nat, phase: PcbState, unicast: seq<bool>)
    | Announced(pcb: nat, time: nat)

  /**
   `partner[i]` is the interface sharing interface i's subnet, or |partner| when there is none. `spilt` lists
   the control blocks that started a probe with more services than were allocated for.
   */
  datatype State = State(
    pcbs: seq<Pcb>,
    partner: seq<nat>,
    services: seq<Service>,
    hostSet: bool,
    tx: seq<Packet>,
    pending: seq<nat>,
    now: nat,
    nextId: nat,
    out: seq<Output>,
    spilt: seq<nat>)

  /** Control block of protocol `q % 2` on the interface that duplicates the one of `q`. */
  function OtherPcb(st: State, q: nat): (r: Option<nat>)
    ensures r.Some? ==> r.value < 2 * |st.partner| && r.value % 2 == q % 2
  {
    if q / 2 < |st.partner| && st.partner[q / 2] < |st.partner| then
      Some(2 * st.partner[q / 2] + q % 2)
    else
      None
  }
}
