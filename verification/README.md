# Verified models of the Titanium firmware libraries

Four components of the firmware, modelled in Dafny and proved:

- **mDNS responder** (`Mdns*.dfy`). The probe, announce and run state machine per interface and IP protocol, with its
  transmit queue, timer and executor (`MdnsState` to `MdnsRuns`, with `MdnsRemoval` on removed services, `MdnsDown` on
  interfaces that are down, `MdnsSpill` on the list of probed services, `MdnsAnnounce` and `MdnsReach` on what is announced
  and probed; the object itself is `MdnsServer`); the DNS name reader and the compressing name writer (`MdnsName`,
  `MdnsCompress`, `MdnsWalk`), the record writers (`MdnsRecord`, `MdnsTxt`; the buffer itself is `MdnsPacket`), and
  conflict resolution (`MdnsConflict`).
- **ArduinoJson** (`Json*.dfy`, `MsgPack*.dfy`). JSON text and MessagePack printers and parsers, each against the meaning
  of its format and against what it may accept, and the in-place compaction of the memory pool.
- **jsmn** (`Jsmn*.dfy`). The tokenizer against the JSON grammar, which inputs it accepts, its restart and its counting
  mode.
- **Titanium link** (`Crc.dfy`, `Titanium*.dfy`). CRC-32 by table and by division, the frame encoder and the decoder that
  finds its way back into step.

In each component the specification is a set of functions; classes and methods with the loops and in-place updates of
the source are proved to compute them (`MdnsServer`, `MdnsPacket`, `Jsmn`, `JsonPool`, `JsonText`, `MsgPack`, `Crc`,
`Titanium`), and the theorems are about the functions. Check everything with `dafny verify dfyconfig.toml`.

## What the proofs bring to light

- The receive path of the mDNS responder restarts a probe without asking whether the interface is up
  (`mdns.c:3930`, `3999`, `4054`, `4111`). All runs are covered, such conflicts included. The scheduler, the order of
  probes and announcements, and the life cycle of every interface that is up do not suffer. What does is stated exactly:
  - A service removed while an interface that is down probes it stays in that probe (`RemovalExactly`), and only then is a
    removed service mentioned anywhere (`StepTidyExactly`, `RemovalIsComplete`); `ProbesRemovedService` is such a run, which
    ends with an interface that is up and probes a service that has been freed.
  - An interface that is down is at rest until a conflict is processed on it (`RestsExactly`); `BreaksExactly` lists the
    actions that break its life cycle from then on, and `StuckProbe` is a run that leaves it probing with no packet.
  - Disabling such an interface leaves its list of probed services behind (`LeftoverExactly`). The next probe does not
    count that list when it allocates its own, but still copies it (`mdns.c:2219-2240`): `ListTooLong` is such a run,
    `SpillsExactly` and `RunSpillsExactly` say which actions do that, and `UndisturbedFits` which interfaces never do.
- `PCB_STATE_IS_PROBING` also holds of the states DUP and INIT; the life-cycle theorems speak of PROBE_1 to PROBE_3.
- Host, instance and service names of 64 bytes pass the API's checks, but a name with such a label in it, at whatever
  position, cannot be read (`LongLabelUnreadable`, `ReadableExactly`).
- The suffix search may point to an earlier name that contains the subtype label. The name then reads back with its
  subtype mark set; `RoundTrip` says exactly when.
- The reader looks one byte behind the packet when a pointer is cut off; that byte is a parameter (`past`, `after`), and
  matters in no other case (`PastMatters`).
- A name of four labels is marked as having too many if it ends in a pointer to a name in which more follows after the
  last field (`RoundTripMark`).
- In the link decoder a message too short for its uuid yields an error value that passes as a valid uuid, and the start
  byte is never subtracted from the remaining bytes. Neither matters for whole frames (`DecodeWhole`).
- In ArduinoJson text, `null` for a repeated key keeps the earlier value (`ParseOneMember`); hexadecimal digits of an
  escape may also be the six characters behind `9` in ASCII, or a backquote (`LaxDigit`); an integer on its own is rejected
  when a blank follows it (`ReadsAnyText`).
- Of a high surrogate without a low one behind it nothing is kept; a low one without a high one before it is joined to the
  latest high one earlier in the string, or to D800 (`StringBytes`).
- ArduinoJson writes control characters that have no short escape as they are, NUL excepted; RFC 8259 does not allow that
  (`StringLegalExactly`; the string of one byte 1 is the shortest one that is no JSON).
- The length of a MessagePack extension of 2^32 - 1 bytes wraps around to zero together with its type byte (`HugeExt`).

## Model

| member | source | states |
|---|---|---|
| `MdnsRuns.RunInv` | components/espressif_mdns_1.3.0/mdns.c:5067-5299 | Every state of every run (clock, timer, executor, interface, host, service and conflict actions in any order) satisfies the invariant of queue, life cycle, probe record and mentioned services: nothing but services that have been registered at some time is mentioned |
| `MdnsRuns.StepInv` | components/espressif_mdns_1.3.0/mdns.c:5067-5299 | Each of the twenty actions keeps that invariant, whatever interfaces are up |
| `MdnsRuns.LifeCycle` | components/espressif_mdns_1.3.0/mdns.c:2215-2306 | On every run, an interface that is up owns exactly one packet in PROBE_1..3 and at least one in ANNOUNCE_1..3; its `probe_services` is non-empty only while probing and holds no duplicates, and `probe_running` is set exactly while probing |
| `MdnsRuns.SchedulerAgreesWithExecutor` | components/espressif_mdns_1.3.0/mdns.c:5329-5361 | In every reachable state the transmit queue is sorted by due time, its queued packets form a prefix, ids differ, and the pending TX_HANDLE actions that name live packets are exactly that prefix in order |
| `MdnsRuns.ExecutorSendsWhatWasPosted` | components/espressif_mdns_1.3.0/mdns.c:5260-5271 | A pending action for a live packet finds it at the head of the queue and handles it; an action for a packet that is gone changes nothing but the action queue |
| `MdnsRuns.NothingStranded` | components/espressif_mdns_1.3.0/mdns.c:5329-5361 | A queued packet always has its action pending, and a due packet is posted by any pass with room for the queue |
| `MdnsRuns.ProbesBeforeAnnouncing` | components/espressif_mdns_1.3.0/mdns.c:4914-4960 | On every run a control block passes from probing to announcing only from PROBE_3 to ANNOUNCE_1, by the executor, and after exactly three probes since the latest restart, the last one just sent, consecutive ones at least 250 ms apart, only the first asking for unicast replies (section 8.1 of RFC 6762) |
| `MdnsRuns.AnnouncedAfterThree` | components/espressif_mdns_1.3.0/mdns.c:4914-4960 | Every announcement on record follows three such probes |
| `MdnsRuns.OnlyHandlingAnnounces` | components/espressif_mdns_1.3.0/mdns.c:2351-2389 | No other action, announcements of changed records included, lets a probing control block announce |
| `MdnsAnnounce.AnnouncesWhatWasProbed` | components/espressif_mdns_1.3.0/mdns.c:4939-4960 | On every run, when an interface that is up passes from probing to announcing, exactly one packet is scheduled for it, 250 ms later: it holds the enumeration, PTR, SRV and TXT record of each service in its `probe_services` before the step, the A and AAAA records of their hosts, no other service, and exactly what the claims of the probe call for, nothing twice |
| `MdnsAnnounce.ProbeAnnouncesAll` | components/espressif_mdns_1.3.0/mdns.c:2151-2186 | The announcement made from the probe of a control block announces all it has probed and nothing else |
| `MdnsAnnounce.AnnounceHolds` | components/espressif_mdns_1.3.0/mdns.c:2351-2389 | Announcing on an interface that is up and past probing leaves it a packet with all four records of every service given and, if asked to, the addresses of their hosts |
| `MdnsAnnounce.AnnouncedAgain` | components/espressif_mdns_1.3.0/mdns.c:4957-4966 | On every run, a packet handled in ANNOUNCE_1 or ANNOUNCE_2 is sent and scheduled again with the same contents exactly one second later, and the control block moves on by one state; in ANNOUNCE_3 it is sent for the last time and the control block runs |
| `MdnsAnnounce.InitProbeHolds` | components/espressif_mdns_1.3.0/mdns.c:2215-2306 | A restarted probe is one packet that asks for and claims exactly the services given and those being probed, with the hosts if addresses are probed, due in 120 to 247 ms, or in 1000 to 1127 ms after more than five failures |
| `MdnsContents.AnnouncementOf` | components/espressif_mdns_1.3.0/mdns.c:2151-2186 | An answer is in the announcement made from a probe if and only if a claim of the probe calls for it: the four records of the service of an SRV claim and the addresses of its host, or a claimed address; none is there twice |
| `MdnsContents.AnnouncePacketHolds` | components/espressif_mdns_1.3.0/mdns.c:2121-2146 | A new announcement holds exactly the four records of every service given and, if asked to, the addresses of their hosts |
| `MdnsContents.MergeHolds` | components/espressif_mdns_1.3.0/mdns.c:2359-2378 | Merging an announcement into a packet adds exactly these and takes nothing but address records out of the additional list |
| `MdnsContents.ProbePacketHolds` | components/espressif_mdns_1.3.0/mdns.c:2067-2116 | A probe asks for exactly the services given and, if asked to, for the own host and those of the services, and claims exactly their SRV records and addresses |
| `MdnsContents.DropFirstAt` | components/espressif_mdns_1.3.0/mdns.c:1698-1722 | Exactly the first answer of a type and service leaves the list |
| `MdnsSteps.DropQuestionAt` | components/espressif_mdns_1.3.0/mdns.c:2724-2744 | Exactly the first question of the type and protocol of a removed service leaves the probe |
| `MdnsReach.ChangesAreProbed` | components/espressif_mdns_1.3.0/mdns.c:5081-5109 | With a host name set, every interface that is up probes all services and its addresses after the host name is set, the service added or renamed besides what it was probing, the services without an instance name of their own after the instance name is set; an interface enabled probes all services |
| `MdnsReach.ConflictsAreProbed` | components/espressif_mdns_1.3.0/mdns.c:3899-3932 | A conflict lost while probing is counted, and the renamed service, the services without an instance name of their own, or everything is probed again on every interface that is up; one lost otherwise starts a probe on its own interface alone |
| `MdnsReach.ChangesAreAnnounced` | components/espressif_mdns_1.3.0/mdns.c:5111-5186 | On every run with a host name set, a changed port or changed TXT entries are announced with all records of the service by every interface that is up and past probing, and probed by those still probing |
| `MdnsReach.DuplicatesAreAnnounced` | components/espressif_mdns_1.3.0/mdns.c:2914-2932 | On every run with a host name set, when an interface is found to be on the subnet of its partner, each of its control blocks whose counterpart is up yields to it, going down if it was up, and the counterpart announces its addresses |
| `MdnsReach.DeletedServiceProbe` | components/espressif_mdns_1.3.0/mdns.c:2694-2722 | On every run, when a service is deleted, an interface that is up and probes goes on to probe everything else, addresses included, and is done with probing if and only if nothing else was being probed |
| `MdnsRemoval.RemovalExactly` | components/espressif_mdns_1.3.0/mdns.c:5201-5238 | On every run, after a registered service is deleted, or all are cleared, no answer, server or additional list of any scheduled packet mentions it, and a control block still probes it if and only if it was probing it while down |
| `MdnsRemoval.StepTidyExactly` | components/espressif_mdns_1.3.0/mdns.c:2694 | From a state that mentions registered services only, an action leads to such a state if and only if it removes no service that an interface probes while down |
| `MdnsRemoval.RemovalIsComplete` | components/espressif_mdns_1.3.0/mdns.c:5201-5238 | On a run, packets and probes mention registered services only, up to any state, if and only if no removal before it hit a service that an interface was probing while down |
| `MdnsRemoval.ProbesRemovedService` | components/espressif_mdns_1.3.0/mdns.c:3930 | Run from the start: a service conflict on an interface that is down, the service deleted, the interface enabled; it then probes the service that is gone |
| `MdnsDown.RestsExactly` | components/espressif_mdns_1.3.0/mdns.c:4179-4208 | A control block that is up, or down with nothing probed or scheduled, is so after an action if and only if the action is not a conflict found on it while it is down |
| `MdnsDown.UndisturbedRests` | components/espressif_mdns_1.3.0/mdns.c:4179-4208 | On every run, a control block on which no conflict was processed while it was down follows the whole life cycle, and rests while it is down |
| `MdnsDown.UndisturbedTidy` | components/espressif_mdns_1.3.0/mdns.c:2694 | On a run without any such conflict removed services are mentioned nowhere |
| `MdnsDown.BreaksExactly` | components/espressif_mdns_1.3.0/mdns.c:2271-2306 | On an interface that is down, an action breaks the life cycle if and only if it restarts everything while the interface probes or announces, disables it or makes it a duplicate while it probes, or removes all it announces |
| `MdnsDown.StuckProbe` | components/espressif_mdns_1.3.0/mdns.c:4110-4112 | Run from the start: an interface comes up and goes down, an address conflict is processed on it, a new host name leaves it probing without a packet |
| `MdnsSpill.SpillsExactly` | components/espressif_mdns_1.3.0/mdns.c:2219-2240 | A step starts a probe with a list longer than what was allocated if and only if its action is a successful enabling of an interface that kept a list while not counting as probing, or the disabling of the duplicate of an interface that kept one, with services registered; it does so for at most one interface |
| `MdnsSpill.LeftoverExactly` | components/espressif_mdns_1.3.0/mdns.c:4193-4208 | An interface keeps such a list after an action if and only if it is disabled while it is down and has one, or is not revived although it takes the place of a duplicate, or kept one before and is neither enabled nor made a duplicate |
| `MdnsSpill.RunSpillsExactly` | components/espressif_mdns_1.3.0/mdns.c:2219-2240 | On every run, an interface has started such a probe if and only if one of the actions was one of these |
| `MdnsSpill.UndisturbedFits` | components/espressif_mdns_1.3.0/mdns.c:2219-2240 | On every run, an interface that is up, or on which no conflict was processed while it was down, keeps no such list and starts no such probe |
| `MdnsSpill.ListTooLong` | components/espressif_mdns_1.3.0/mdns.c:3930 | Run from the start: a service conflict on an interface that is down, the interface disabled and enabled again; the list of its probe does not fit |
| `MdnsQueue.ScheduleAgrees` | components/espressif_mdns_1.3.0/mdns.c:1582-1600 | Inserting a packet by due time keeps queue and pending actions in agreement |
| `MdnsQueue.ShrinkAgrees` | components/espressif_mdns_1.3.0/mdns.c:1621-1641 | Removing or editing packets in place keeps the agreement |
| `MdnsQueue.TimerAgrees` | components/espressif_mdns_1.3.0/mdns.c:5329-5361 | A timer pass, whatever number of posts succeeds, keeps the agreement |
| `MdnsQueue.NeverSkipped` | components/espressif_mdns_1.3.0/mdns.c:5260-5271 | An action naming a live packet always finds it at the head, queued |
| `MdnsQueue.NeverStranded` | components/espressif_mdns_1.3.0/mdns.c:5260-5271 | A queued packet always has an action pending |
| `MdnsQueue.PopAgrees` | components/espressif_mdns_1.3.0/mdns.c:5260-5271 | Taking the head and its action keeps the agreement and leaves no further action for that packet |
| `MdnsLifecycle.ProbeAsks` | components/espressif_mdns_1.3.0/mdns.c:2752-2755 | The packet of a probing control block has a question in it, so a purge does not free it while the probe lasts |
| `MdnsLifecycle.InitProbeInv` | components/espressif_mdns_1.3.0/mdns.c:2271-2306 | (Re)starting a probe, from whatever state, gives the control block exactly one probe packet for the union of new and old services |
| `MdnsLifecycle.AnnounceInv` | components/espressif_mdns_1.3.0/mdns.c:2351-2389 | Announcing from any state keeps the life cycle, whether merged into a scheduled packet or scheduled anew |
| `MdnsSteps.RemoveScheduledInv` | components/espressif_mdns_1.3.0/mdns.c:2678-2757 | Purging a service visits only the control blocks that own a packet, and still removes every mention from the packets and from the probes of interfaces that are up |
| `MdnsSteps.ServiceDelInv` | components/espressif_mdns_1.3.0/mdns.c:5201-5225 | Deleting a service keeps the invariant |
| `MdnsSteps.ServicesClearInv` | components/espressif_mdns_1.3.0/mdns.c:5226-5238 | Clearing all services keeps the invariant |
| `MdnsSteps.ExecuteNextInv` | components/espressif_mdns_1.3.0/mdns.c:4914-4969 | Executing a TX_HANDLE action keeps the invariant in every state of the life cycle |
| `MdnsSteps.TimerInv` | components/espressif_mdns_1.3.0/mdns.c:5329-5361 | A timer pass keeps the invariant |
| `MdnsSteps.RestartAllInv` | components/espressif_mdns_1.3.0/mdns.c:2510-2528 | Restarting all control blocks from an empty queue re-establishes the life cycle of those that are up |
| `MdnsServer.Server.ScheduleTxPacket` | components/espressif_mdns_1.3.0/mdns.c:1582-1600 | New state of the server: the packet inserted behind all that are due no later |
| `MdnsServer.Server.ClearPcbTxQueue` | components/espressif_mdns_1.3.0/mdns.c:1621-1641 | New state: exactly the packets of one control block removed |
| `MdnsServer.Server.NextPcbPacket` | components/espressif_mdns_1.3.0/mdns.c:1649-1659 | The first packet of a control block, or the end of the queue |
| `MdnsServer.Server.RemoveScheduledAnswer` | components/espressif_mdns_1.3.0/mdns.c:1664-1693 | New state: the first matching answer dropped from each response of one control block |
| `MdnsServer.Server.CreateProbePacket` | components/espressif_mdns_1.3.0/mdns.c:2067-2116 | The probe packet for a list of services; what it holds is said by `ProbePacketHolds` |
| `MdnsServer.Server.CreateAnnouncePacket` | components/espressif_mdns_1.3.0/mdns.c:2121-2146 | The announcement for a list of services; what it holds is said by `AnnouncePacketHolds` |
| `MdnsServer.Server.CreateAnnounceFromProbe` | components/espressif_mdns_1.3.0/mdns.c:2151-2186 | The announcement made from the answers of a finished probe; what it holds is said by `AnnouncementOf` |
| `MdnsServer.Server.InitPcbProbeNewService` | components/espressif_mdns_1.3.0/mdns.c:2215-2262 | New state when a probe starts: services merged, a note if the list does not fit, one probe scheduled |
| `MdnsServer.Server.CopyServices` | components/espressif_mdns_1.3.0/mdns.c:2223-2240 | The list holds the new services and as many of the old ones as were counted; it fits if and only if all were counted, or nothing is copied at all |
| `MdnsServer.Server.PrepareServices` | components/espressif_mdns_1.3.0/mdns.c:2218-2240 | The old services are counted only while probing, so the list does not fit exactly if the block is not probing, has an old list, and new services are given |
| `MdnsServer.Server.InitPcbProbe` | components/espressif_mdns_1.3.0/mdns.c:2271-2306 | New state including the case without a host name |
| `MdnsServer.Server.AnnouncePcb` | components/espressif_mdns_1.3.0/mdns.c:2351-2389 | New state of an announcement, merged into the next packet (`MergeHolds`) or scheduled anew (`AnnouncePacketHolds`) |
| `MdnsServer.Server.ProbeAllPcbs` | components/espressif_mdns_1.3.0/mdns.c:2394-2411 | New state after probing on every control block that is up |
| `MdnsServer.Server.AnnounceAllPcbs` | components/espressif_mdns_1.3.0/mdns.c:2416-2424 | New state after announcing on every control block |
| `MdnsServer.Server.RestartAllPcbs` | components/espressif_mdns_1.3.0/mdns.c:2510-2528 | New state after the queue is emptied and every control block probes all services |
| `MdnsServer.Server.RemoveScheduledServicePackets` | components/espressif_mdns_1.3.0/mdns.c:2678-2757 | New state after the queue and the probing lists are purged of a service |
| `MdnsServer.Server.DeleteService` | components/espressif_mdns_1.3.0/mdns.c:5201-5225 | New state after ACTION_SERVICE_DEL |
| `MdnsServer.Server.ClearServices` | components/espressif_mdns_1.3.0/mdns.c:5226-5238 | New state after ACTION_SERVICES_CLEAR |
| `MdnsServer.Server.TxHandlePacket` | components/espressif_mdns_1.3.0/mdns.c:4914-4969 | New state after a packet is handled, by state of its control block; what PROBE_3 announces is said by `AnnouncesWhatWasProbed` |
| `MdnsServer.Server.ExecuteTxHandle` | components/espressif_mdns_1.3.0/mdns.c:5260-5271 | New state after a TX_HANDLE action |
| `MdnsServer.Server.SchedulerRun` | components/espressif_mdns_1.3.0/mdns.c:5329-5361 | New state after a timer pass in which `room` posts succeed |
| `MdnsServer.Server.EnablePcb` | components/espressif_mdns_1.3.0/mdns.c:4179-4188 | New state after an interface comes up |
| `MdnsServer.Server.DisablePcb` | components/espressif_mdns_1.3.0/mdns.c:4193-4207 | New state after an interface goes down |
| `MdnsServer.Server.DupInterface` | components/espressif_mdns_1.3.0/mdns.c:2914-2932 | New state after an interface is found to be a duplicate |
| `MdnsServer.Server.LoseService` | components/espressif_mdns_1.3.0/mdns.c:3899-3932 | New state when the SRV record of a service loses a conflict: service, instance or host renamed and probed again, or the probe of the one interface started |
| `MdnsServer.Server.LoseTxt` | components/espressif_mdns_1.3.0/mdns.c:3997-4001 | New state when the TXT record of a service is contested |
| `MdnsServer.Server.LoseAddress` | components/espressif_mdns_1.3.0/mdns.c:4039-4056 | New state when a host address loses a conflict |
| `MdnsServer.Server.Perform` | components/espressif_mdns_1.3.0/mdns.c:5067-5299 | Every action the object performs computes the step of the model and keeps the invariant |
| `MdnsName.Read` | components/espressif_mdns_1.3.0/mdns.c:446-497 | The name reader terminates on every packet, self-referential pointers included, keeps at most four fields shorter than 65 bytes, and ends behind its start |
| `MdnsName.ReadDecodes` | components/espressif_mdns_1.3.0/mdns.c:446-497 | On a complete name the reader takes in exactly the labels that section 4.1.4 of RFC 1035 gives it, and ends where the name ends |
| `MdnsName.DecodeStable` | components/espressif_mdns_1.3.0/mdns.c:744-805 | Bytes behind a complete name do not change what it decodes to |
| `MdnsWalk.PastMatters` | components/espressif_mdns_1.3.0/mdns.c:446-497 | The result of the reader does not depend on the byte behind the packet unless the walk meets a pointer whose second byte lies there |
| `MdnsWalk.CompleteNotCutOff` | components/espressif_mdns_1.3.0/mdns.c:446-497 | The walk over a complete name meets no such pointer |
| `MdnsWalk.MarkedExactly` | components/espressif_mdns_1.3.0/mdns.c:446-497 | A name is marked as having too many labels if and only if a label or a pointer is met after its four fields have been filled |
| `MdnsCompress.Search` | components/espressif_mdns_1.3.0/mdns.c:744-789 | The suffix search returns the first place that holds the first label and reads back as the whole name, or none when there is none |
| `MdnsCompress.AppendKeeps` | components/espressif_mdns_1.3.0/mdns.c:744-805 | The name writer advances the write position by exactly what it reports and changes nothing before it |
| `MdnsCompress.AppendDecodes` | components/espressif_mdns_1.3.0/mdns.c:744-805 | The bytes written decode to the strings written out followed by the labels of the name pointed to, and end at the new write position |
| `MdnsCompress.RoundTrip` | components/espressif_mdns_1.3.0/mdns.c:744-805 | A name of one of the responder's shapes whose suffix hits are complete earlier names reads back as itself up to ASCII case, and the reader stops exactly at the new write position |
| `MdnsWalk.RoundTripMark` | components/espressif_mdns_1.3.0/mdns.c:744-805 | A name just appended reads back with that mark if and only if it has four labels and ends in a pointer to a name in which more follows after its last field |
| `MdnsCompress.EarlierNamesKept` | components/espressif_mdns_1.3.0/mdns.c:744-805 | Every name complete before the append decodes as before |
| `MdnsCompress.LongLabelUnreadable` | components/espressif_mdns_1.3.0/mdns.c:636-646 | A label of 64 bytes, which the API lets through, is written out at whatever position it stands in the name, and the reader always rejects the name |
| `MdnsCompress.ReadableExactly` | components/espressif_mdns_1.3.0/mdns.c:446-497 | A name of the shapes of the responder, once placed, can be read if and only if all its labels are at most 63 bytes long, and then it reads back as itself |
| `MdnsCompress.SubtypeRoundTripIn` | components/espressif_mdns_1.3.0/mdns.c:871 | The name of a subtype reads back as the name without the mark in it, and with the subtype mark set |
| `MdnsRecord.WrittenBound` | components/espressif_mdns_1.3.0/mdns.c:744-805 | What is written for a name is never longer than the uncompressed name |
| `MdnsRecord.NamesFitEightBits` | components/espressif_mdns_1.3.0/mdns.c:817-1189 | No name of a record reaches 256 bytes, so the eight-bit part lengths lose nothing |
| `MdnsRecord.DataKeeps` | components/espressif_mdns_1.3.0/mdns.c:817-1189 | The length of record data is exactly what was written, never zero, and nothing before it changes |
| `MdnsRecord.EntriesWritten` | components/espressif_mdns_1.3.0/mdns.c:659-677 | The entries of a TXT record are written as their length-prefixed bytes, one after the other |
| `MdnsRecord.RecordFramed` | components/espressif_mdns_1.3.0/mdns.c:584-614 | A record writer that reports anything advances the write position by exactly the number reported, and the ten bytes behind the owner name read, highest byte first, as the type, class 1 with the cache-flush bit, the ttl, and the number of data bytes written |
| `MdnsRecord.WalkMeetsAll` | components/espressif_mdns_1.3.0/mdns.c:3723-3743 | The parser's walk over records written one after the other meets each and ends exactly at the packet's end |
| `MdnsRecord.RecordReadsBack` | components/espressif_mdns_1.3.0/mdns.c:817-1189 | Owner name, type, class, flush bit, ttl, length and data of a record, the numbers and names in the data included, are read back from the bytes of the packet as sent |
| `MdnsRecord.SubtypeRecordReadsBack` | components/espressif_mdns_1.3.0/mdns.c:869-905 | The record of a subtype reads back as well, its owner with the subtype mark set |
| `MdnsRecord.HeaderReads` | components/espressif_mdns_1.3.0/mdns.c:562-614 | The fixed fields read back by arithmetic on the bytes: two of type, two of class and flush bit, four of ttl and two of length, each highest byte first |
| `MdnsRecord.IpBytesOrder` | components/espressif_mdns_1.3.0/mdns.c:1129-1132 | The four bytes of an IPv4 address are those of the number kept in memory, lowest first |
| `MdnsTxt.TxtSays` | components/espressif_mdns_1.3.0/mdns.c:659-677 | Read as section 6 of RFC 6763 says, the data of a TXT record says exactly its entries: length, key, equals sign, value; for keys without an equals sign and entries below 256 bytes |
| `MdnsPacket.Packet.ReadName` | components/espressif_mdns_1.3.0/mdns.c:446-497 | The reading loop computes the reader's specification |
| `MdnsPacket.Packet.FindName` | components/espressif_mdns_1.3.0/mdns.c:744-789 | The search loop finds the first hit |
| `MdnsPacket.Packet.StoreName` | components/espressif_mdns_1.3.0/mdns.c:744-805 | The recursive writer computes the writer's specification on the buffer |
| `MdnsPacket.Packet.StoreHeader` | components/espressif_mdns_1.3.0/mdns.c:584-614 | Type, class, ttl and an empty length stored, or nothing; their bytes are said by `HeaderReads` |
| `MdnsPacket.Packet.StorePtr` | components/espressif_mdns_1.3.0/mdns.c:817-852 | The PTR record of a service |
| `MdnsPacket.Packet.StoreSubtypePtr` | components/espressif_mdns_1.3.0/mdns.c:867-900 | The PTR record of a subtype |
| `MdnsPacket.Packet.StoreSdPtr` | components/espressif_mdns_1.3.0/mdns.c:912-950 | The service-type enumeration record, whose owner name is not checked |
| `MdnsPacket.Packet.StoreEntry` | components/espressif_mdns_1.3.0/mdns.c:659-677 | One TXT entry, its length cut to eight bits |
| `MdnsPacket.Packet.StoreTxt` | components/espressif_mdns_1.3.0/mdns.c:962-1014 | The TXT record, one zero byte when it has no entries |
| `MdnsPacket.Packet.StoreSrv` | components/espressif_mdns_1.3.0/mdns.c:1026-1086 | The SRV record |
| `MdnsPacket.Packet.StoreA` | components/espressif_mdns_1.3.0/mdns.c:1099-1137 | The A record |
| `MdnsPacket.Packet.StoreAaaa` | components/espressif_mdns_1.3.0/mdns.c:1151-1189 | The AAAA record |
| `MdnsConflict.SrvElectsOne` | components/espressif_mdns_1.3.0/mdns.c:2797-2849 | Between responders in domain local the SRV check is antisymmetric and transitive, and returns 0 exactly for identical records (section 8.2 of RFC 6762) |
| `MdnsConflict.TxtElectsOne` | components/espressif_mdns_1.3.0/mdns.c:2854-2893 | The TXT check between entry lists is antisymmetric and transitive, and returns 0 exactly for byte-identical data |
| `MdnsConflict.VerdictMeans` | components/espressif_mdns_1.3.0/mdns.c:2842-2848 | The verdict is 1 if and only if their data is longer, or of the same length with the greater byte where the two first differ, -1 in the mirrored case, 0 for the same bytes (section 8.2 of RFC 6762) |
| `MdnsConflict.SrvWinner` | components/espressif_mdns_1.3.0/mdns.c:2797-2849 | The SRV check answers 1, -1 or 0 as the bytes of the two records compare so, and 0 without a host name |
| `MdnsConflict.SrvRanked` | components/espressif_mdns_1.3.0/mdns.c:2816-2848 | Between hosts of the same name the greater priority wins, then the greater weight, then the greater port |
| `MdnsConflict.SrvLayout` | components/espressif_mdns_1.3.0/mdns.c:2816-2840 | The fields of a service record stand at their places in the data compared, numbers highest byte first |
| `MdnsConflict.TxtWinner` | components/espressif_mdns_1.3.0/mdns.c:2854-2893 | The TXT check answers 1, -1 or 0 as the received data and ours compare so, but that a single byte received is not compared and never wins |
| `MdnsConflict.CheckSrvCollision` | components/espressif_mdns_1.3.0/mdns.c:2797-2849 | The check computes that verdict on the encoded records (`SrvWinner`) |
| `MdnsConflict.CheckTxtCollision` | components/espressif_mdns_1.3.0/mdns.c:2854-2893 | The check computes that verdict on the encoded entries (`TxtWinner`) |
| `MdnsConflict.MangledSuffix` | components/espressif_mdns_1.3.0/mdns.c:230-267 | Renaming increments the decimal suffix, or adds -2 when there is none |
| `MdnsConflict.MangledFits` | components/espressif_mdns_1.3.0/mdns.c:230-267 | The new name and its terminator fit the space allocated for them |
| `MdnsConflict.RenamedSuffix` | components/espressif_mdns_1.3.0/mdns.c:230-267 | Renaming again and again increases the suffix one by one |
| `MdnsConflict.RenamedDistinct` | components/espressif_mdns_1.3.0/mdns.c:230-267 | No name comes up twice while the suffix stays below INT_MAX |
| `MdnsConflict.MangleName` | components/espressif_mdns_1.3.0/mdns.c:230-267 | The new name is written within the memory allocated for it |
| `JsmnProof.ParsesAnyText` | lib/TitaniumOS/Libraries/JSON/jsmn/jsmn.c:16-201 | For every JSON text of RFC 8259, with any legal blanks and enough tokens, the tokens are the nodes in preorder with their types, spans and numbers of children, and their count is returned |
| `JsmnProof.CountsAnyText` | lib/TitaniumOS/Libraries/JSON/jsmn/jsmn.c:16-201 | Without a token array the same number is returned |
| `JsmnProof.ValueRuns` | lib/TitaniumOS/Libraries/JSON/jsmn/jsmn.c:16-201 | A value met in any state appends its nodes and counts once for the token it belongs to |
| `JsmnBrackets.AcceptsBalanced` | lib/TitaniumOS/Libraries/JSON/jsmn/jsmn.c:16-201 | For every input, unless tokens run out: success if and only if the brackets outside strings and unquoted values are balanced, each pair of one kind, and strings and unquoted values are sound, as judged by a stack over the characters alone; JSMN_ERROR_PART if and only if the text ends in a string or with a bracket open and no error before; JSMN_ERROR_INVAL otherwise. As many tokens as characters always suffice |
| `JsmnBrackets.TokensDelimited` | lib/TitaniumOS/Libraries/JSON/jsmn/jsmn.c:50-108 | For every input and every result, an array or object token starts with its opening bracket and, once closed, ends with the closing bracket of its kind, a string token lies between quotes, and an unquoted value is a longest run of characters that do not end one |
| `JsmnSpec.RestartAgrees` | lib/TitaniumOS/Libraries/JSON/jsmn/jsmn.c:35-38 | For every input: after running out of tokens, going on with a larger array gives the same result and state as one call with it; a call that does not run out is independent of spare room |
| `JsmnSpec.TallyAgrees` | lib/TitaniumOS/Libraries/JSON/jsmn/jsmn.c:191-200 | For every input: whenever the call with tokens succeeds, the counting call returns the same number |
| `JsmnSpec.CountsTokens` | lib/TitaniumOS/Libraries/JSON/jsmn/jsmn.c:20 | The count kept beside the tokens, which a successful call returns, is the number of tokens in use, all of them closed |
| `JsmnSpec.StepCounts` | lib/TitaniumOS/Libraries/JSON/jsmn/jsmn.c:30-33 | A round counts one exactly if it allocates a token |
| `Jsmn.Parser.Parse` | lib/TitaniumOS/Libraries/JSON/jsmn/jsmn.c:15-201 | The main loop computes the specification, filling the array in place and keeping its count; what it accepts is said by `AcceptsBalanced` |
| `Jsmn.Parser.CountTokens` | lib/TitaniumOS/Libraries/JSON/jsmn/jsmn.c:16-201 | The main loop without a token array |
| `Jsmn.Parser.ParseString` | lib/TitaniumOS/Libraries/JSON/jsmn/jsmn.c:206-276 | A string scanned and its token appended, or the position restored |
| `Jsmn.Parser.ParsePrimitive` | lib/TitaniumOS/Libraries/JSON/jsmn/jsmn.c:281-334 | An unquoted value scanned and its token appended, or the position restored |
| `Jsmn.Parser.CloseContainer` | lib/TitaniumOS/Libraries/JSON/jsmn/jsmn.c:56-108 | The last open container closed, if it is of the kind of the bracket, and the enclosing one found, by two backward searches |
| `Jsmn.Parser.LeaveKey` | lib/TitaniumOS/Libraries/JSON/jsmn/jsmn.c:127-144 | A comma leads from a key back to the open container |
| `JsonPool.JsonDocument.ShrinkToFit` | lib/TitaniumOS/Libraries/JSON/ArduinoJson/ArduinoJson.h:3738-3748 | Squashing, reallocating to a block of just that size and relocating leaves the tree of keys and values unchanged; strings and slots lie side by side in the bytes of the new block, with less than one alignment step of free space |
| `JsonPoolSpec.MovedMeans` | lib/TitaniumOS/Libraries/JSON/ArduinoJson/ArduinoJson.h:4075-4081 | A document each of whose slots has been relocated exactly once, strings by one distance and slots by another, means what it meant before |
| `JsonPool.MemoryPool.MoveContent` | lib/TitaniumOS/Libraries/JSON/ArduinoJson/ArduinoJson.h:2050-2055 | A variant and everything below it relocated, nothing else touched |
| `JsonPool.MemoryPool.MoveMembers` | lib/TitaniumOS/Libraries/JSON/ArduinoJson/ArduinoJson.h:4075-4081 | The slots of a collection visited along their links, each relocated exactly once |
| `JsonPool.MemoryPool.MoveSlot` | lib/TitaniumOS/Libraries/JSON/ArduinoJson/ArduinoJson.h:1235-1242 | One slot relocated: key, string, collection |
| `JsonPool.MemoryPool.Squash` | lib/TitaniumOS/Libraries/JSON/ArduinoJson/ArduinoJson.h:1328-1338 | The bytes of the slots moved down over themselves to the padded end of the strings; the block still holds the same strings and slots |
| `JsonPool.MemMove` | lib/TitaniumOS/Libraries/JSON/ArduinoJson/ArduinoJson.h:1333 | Overlapping ranges are moved down as a whole |
| `JsonPool.MemoryPool.Reallocate` | lib/TitaniumOS/Libraries/JSON/ArduinoJson/ArduinoJson.h:3743 | The smaller block holds the same strings and slots |
| `JsonPoolSpec.LaidMovedDown` | lib/TitaniumOS/Libraries/JSON/ArduinoJson/ArduinoJson.h:1328-1338 | Moving the bytes of the slots down keeps strings and slots where they belong |
| `JsonPoolSpec.LaidUpdated` | lib/TitaniumOS/Libraries/JSON/ArduinoJson/ArduinoJson.h:1235-1242 | Writing one slot keeps the strings and all other slots |
| `JsonTextProof.TextRoundTrip` | lib/TitaniumOS/Libraries/JSON/ArduinoJson/ArduinoJson.h:5953-5961 | For every tree of null, booleans, 64-bit integers, byte strings, arrays and objects with distinct NUL-free keys, deserialising the serialised text yields the tree, or TooDeep exactly when its nesting exceeds the limit |
| `JsonTextProof.ValueBack` | lib/TitaniumOS/Libraries/JSON/ArduinoJson/ArduinoJson.h:5976-6016 | The same for a value inside a longer text |
| `JsonTextProof.StringBack` | lib/TitaniumOS/Libraries/JSON/ArduinoJson/ArduinoJson.h:6206-6248 | Every string, NUL and control characters included, survives escaping and unescaping |
| `JsonTextProof.IntegerBack` | lib/TitaniumOS/Libraries/JSON/ArduinoJson/ArduinoJson.h:5087-5142 | Every 64-bit integer survives printing and parsing |
| `JsonReading.ReadsAnyText` | lib/TitaniumOS/Libraries/JSON/ArduinoJson/ArduinoJson.h:5953-6152 | Every JSON text of RFC 8259, with any blanks around and inside it, is deserialized as what it means, nesting up to the limit: escapes of either form replaced, surrogate pairs joined, code points as UTF-8, whole numbers of 64 bits exact, members set one after the other; an integer on its own is rejected if and only if blanks follow it |
| `JsonReading.ValueRead` | lib/TitaniumOS/Libraries/JSON/ArduinoJson/ArduinoJson.h:5976-6016 | The same for a value inside a longer text |
| `JsonReading.CharsRead` | lib/TitaniumOS/Libraries/JSON/ArduinoJson/ArduinoJson.h:6206-6248 | A string is read as the bytes its characters stand for |
| `JsonReading.NumericRead` | lib/TitaniumOS/Libraries/JSON/ArduinoJson/ArduinoJson.h:5087-5142 | A number of any length is an integer if and only if it has neither fraction nor exponent and fits 64 bits; all others are left to floating point |
| `JsonMeaning.Utf8Decodes` | lib/TitaniumOS/Libraries/JSON/ArduinoJson/ArduinoJson.h:5915-5941 | Decoding the bytes written for a code point, by the definition of RFC 3629, gives the code point; they are as few as can be |
| `JsonMachine.AcceptsAsMachine` | lib/TitaniumOS/Libraries/JSON/ArduinoJson/ArduinoJson.h:5953-6152 | For every input the result, error codes included, is the verdict of a machine that reads one character at a time with the open brackets on a stack: where the value ends, or EmptyInput, IncompleteInput, InvalidInput, TooDeep, or a number left to floating point |
| `JsonTree.PutSets` | lib/TitaniumOS/Libraries/JSON/ArduinoJson/ArduinoJson.h:6122-6131 | Setting a member gives its key the value and leaves every other key what it had; a new key goes behind the others |
| `JsonWriting.WritesJson` | lib/TitaniumOS/Libraries/JSON/ArduinoJson/ArduinoJson.h:1849-1875 | A document whose strings have no other control characters than NUL, BS, HT, LF, FF and CR is written as a JSON text of RFC 8259 |
| `JsonWriting.StringLegalExactly` | lib/TitaniumOS/Libraries/JSON/ArduinoJson/ArduinoJson.h:4265-4282 | What is written for a string is a JSON string if and only if it has no other control characters |
| `JsonText.Formatter.WriteString` | lib/TitaniumOS/Libraries/JSON/ArduinoJson/ArduinoJson.h:4265-4282 | A string printed with its escapes |
| `JsonText.Formatter.WriteUnsigned` | lib/TitaniumOS/Libraries/JSON/ArduinoJson/ArduinoJson.h:4323-4333 | The digits produced backwards in a buffer of 22 bytes |
| `JsonText.Formatter.WriteInteger` | lib/TitaniumOS/Libraries/JSON/ArduinoJson/ArduinoJson.h:4311-4322 | The sign and the complement plus one |
| `JsonText.Formatter.Write` | lib/TitaniumOS/Libraries/JSON/ArduinoJson/ArduinoJson.h:1849-1875 | A document printed |
| `JsonText.Formatter.WriteRecord` | lib/TitaniumOS/Libraries/JSON/ArduinoJson/ArduinoJson.h:4575-4589 | An object printed, keys as C strings |
| `JsonText.Deserializer.Parse` | lib/TitaniumOS/Libraries/JSON/ArduinoJson/ArduinoJson.h:5953-5961 | The deserializer computes its specification: value and position, or the error code; what it reads is said by `ReadsAnyText`, what it rejects by `AcceptsAsMachine` |
| `JsonText.Deserializer.ParseVariant` | lib/TitaniumOS/Libraries/JSON/ArduinoJson/ArduinoJson.h:5976-6016 | The dispatch on the first character |
| `JsonText.Deserializer.ParseArray` | lib/TitaniumOS/Libraries/JSON/ArduinoJson/ArduinoJson.h:6042-6077 | The loop over items |
| `JsonText.Deserializer.ParseObject` | lib/TitaniumOS/Libraries/JSON/ArduinoJson/ArduinoJson.h:6099-6152 | The loop over members |
| `JsonText.Deserializer.ParseOneMember` | lib/TitaniumOS/Libraries/JSON/ArduinoJson/ArduinoJson.h:6113-6140 | A key, found or added, and its value; null leaves the value of a repeated key in place |
| `JsonText.Deserializer.ParseQuotedString` | lib/TitaniumOS/Libraries/JSON/ArduinoJson/ArduinoJson.h:6206-6248 | Escapes, code units and surrogate pairs; what they stand for is said by `CharsRead` and `Utf8Decodes` |
| `JsonText.Deserializer.ParseNumber` | lib/TitaniumOS/Libraries/JSON/ArduinoJson/ArduinoJson.h:5087-5142 | Whole numbers converted exactly within 64 bits |
| `JsonText.Deserializer.CollectNumber` | lib/TitaniumOS/Libraries/JSON/ArduinoJson/ArduinoJson.h:6297-6305 | At most 63 characters of a number |
| `JsonText.Deserializer.SkipSpaces` | lib/TitaniumOS/Libraries/JSON/ArduinoJson/ArduinoJson.h:6356-6408 | Blanks skipped; which error the end of the input is |
| `MsgPackProof.PackRoundTrip` | lib/TitaniumOS/Libraries/JSON/ArduinoJson/ArduinoJson.h:6558-6563 | For every tree without floats, with NUL-free keys and lengths below 2^32, parsing the MessagePack form yields the tree, or TooDeep exactly when its nesting exceeds the limit |
| `MsgPackProof.IntegerBack` | lib/TitaniumOS/Libraries/JSON/ArduinoJson/ArduinoJson.h:7066-7120 | Every 64-bit integer keeps its value across all format boundaries |
| `MsgPackProof.StringBack` | lib/TitaniumOS/Libraries/JSON/ArduinoJson/ArduinoJson.h:7045-7061 | Strings of every length class are read back, as values and as keys |
| `MsgPackProof.ValueBack` | lib/TitaniumOS/Libraries/JSON/ArduinoJson/ArduinoJson.h:6566-6711 | The same for a value inside a longer input |
| `MsgPackReading.ReadsAnyEncoding` | lib/TitaniumOS/Libraries/JSON/ArduinoJson/ArduinoJson.h:6566-6952 | Every MessagePack encoding of a value, in every format and shortest or not, numbers highest byte first, is deserialized as what it means, nesting up to the limit; what follows it is not looked at |
| `MsgPackAccepts.AcceptsOnlyEncodings` | lib/TitaniumOS/Libraries/JSON/ArduinoJson/ArduinoJson.h:6566-6952 | Whatever is deserialized is, up to where reading stopped, the MessagePack encoding of what it yields |
| `MsgPackReading.PrefixIncomplete` | lib/TitaniumOS/Libraries/JSON/ArduinoJson/ArduinoJson.h:6558-6563 | Whatever is deserialized is reported as IncompleteInput when it is cut off anywhere before its end, as EmptyInput when nothing is left, and read the same when cut off behind it |
| `MsgPackShortest.Shortest` | lib/TitaniumOS/Libraries/JSON/ArduinoJson/ArduinoJson.h:7009-7129 | No MessagePack encoding of a document is shorter than the one written |
| `MsgPack.Serializer.Visit` | lib/TitaniumOS/Libraries/JSON/ArduinoJson/ArduinoJson.h:7009-7129 | A document written |
| `MsgPack.Serializer.VisitInteger` | lib/TitaniumOS/Libraries/JSON/ArduinoJson/ArduinoJson.h:7066-7094 | The format chosen for an integer |
| `MsgPack.Serializer.VisitString` | lib/TitaniumOS/Libraries/JSON/ArduinoJson/ArduinoJson.h:7045-7061 | The format chosen for a length |
| `MsgPack.Deserializer.Parse` | lib/TitaniumOS/Libraries/JSON/ArduinoJson/ArduinoJson.h:6558-6563 | The deserializer computes its specification |
| `MsgPack.Deserializer.ParseVariant` | lib/TitaniumOS/Libraries/JSON/ArduinoJson/ArduinoJson.h:6566-6711 | The dispatch on the code byte |
| `MsgPack.Deserializer.TakeKey` | lib/TitaniumOS/Libraries/JSON/ArduinoJson/ArduinoJson.h:6934-6952 | The four forms of a key |
| `MsgPack.Deserializer.ParseMembers` | lib/TitaniumOS/Libraries/JSON/ArduinoJson/ArduinoJson.h:6897-6933 | Members added one after the other without looking for repeated keys |
| `Crc.TableDivides` | lib/TitaniumOS/Protocols/Titanium/Utils/CRCUtils.cpp:11-66 | Each of the 256 table entries is the bitwise division of its index by 0xEDB88320 |
| `Crc.TableStep` | lib/TitaniumOS/Protocols/Titanium/Utils/CRCUtils.cpp:85-91 | One table lookup divides by eight bits of the message |
| `Crc.CalculatedCrc32` | lib/TitaniumOS/Protocols/Titanium/Utils/CRCUtils.cpp:78-95 | The loop computes bitwise reflected division of every message |
| `Crc.CheckValue` | lib/TitaniumOS/Protocols/Titanium/Utils/CRCUtils.cpp:78-95 | The checksum of the digits 1 to 9 is 0xCBF43926, the check value of CRC-32 |
| `Crc.BurstChangesRemainder` | lib/TitaniumOS/Protocols/Titanium/Utils/CRCUtils.cpp:78-95 | Messages that differ only within four consecutive bytes have different remainders |
| `Crc.ChecksumIffResidue` | lib/TitaniumOS/Protocols/Titanium/Utils/CRCUtils.cpp:78-95 | Four bytes behind a message are its checksum if and only if the whole leaves the residue |
| `TitaniumSpec.RoundTrip` | lib/TitaniumOS/Protocols/Titanium/TitaniumProtocol.cpp:397-523 | Noise free of byte 2, the frame of a package and any tail, below 32768 bytes in all, decode to the size, address, memory area and payload of the package |
| `TitaniumSpec.FrameLayout` | lib/TitaniumOS/Protocols/Titanium/TitaniumProtocol.cpp:305-385 | The layout of a frame byte by byte: 2, uuid, length, memory area, address, payload, checksum of all before it, 3, numbers lowest byte first |
| `TitaniumSpec.BurstDetected` | lib/TitaniumOS/Protocols/Titanium/TitaniumProtocol.cpp:278-282 | Changing a valid whole frame only within four consecutive bytes of the uuid, or of the span from memory area to checksum, always makes the decoder fail |
| `TitaniumSpec.DecodeWhole` | lib/TitaniumOS/Protocols/Titanium/TitaniumProtocol.cpp:397-474 | On a whole frame the sixteen-bit count of remaining bytes plays no part: the decoder is the chain of its checks |
| `TitaniumSpec.StartOffset` | lib/TitaniumOS/Protocols/Titanium/TitaniumProtocol.cpp:50-67 | The first start byte, or 0xFFFF when there is none |
| `Titanium.Encode` | lib/TitaniumOS/Protocols/Titanium/TitaniumProtocol.cpp:486-523 | The frame written at the front of the buffer and nothing behind it, or nothing when it does not fit |
| `Titanium.Decode` | lib/TitaniumOS/Protocols/Titanium/TitaniumProtocol.cpp:397-474 | The decoder computes its specification and hands out a package with its own copy of the payload |
| `Titanium.TitaniumPackage.constructor` | lib/TitaniumOS/Protocols/Titanium/TitaniumPackage.h:31-38 | A package holds a copy of the payload |
| `Titanium.TitaniumPackage.Consume` | lib/TitaniumOS/Protocols/Titanium/TitaniumPackage.h:66-84 | The payload copied to the caller's buffer, nothing else changed |

## Left out

- MdnsRuns.RunInv: a service that has been freed keeps its identity and contents, and what is copied behind a list of services is only noted; what such accesses do to the memory of the source is not modelled.
- MdnsRuns.SchedulerAgreesWithExecutor: actions other than TX_HANDLE interleave with the pending ones in any order, which allows more runs than the one action queue of the source; the clock does not wrap, packet ids are never reused, and once a post fails in a timer pass the later ones of that pass fail.
- MdnsRemoval.RemovalExactly: questions of queued probes are not covered; the source matches them by type text only, so deleting one service may drop the question of another service of the same type.
- MdnsCompress.RoundTrip: hits of the search that are not complete names before the append are excluded by the precondition, because what they lead to depends on bytes left over from earlier packets.
- MdnsTxt.TxtSays: asks that keys hold no equals sign and that an entry is below 256 bytes; the writer cuts the length byte of a longer one.
- MdnsConflict.CheckTxtCollision: asks that the own entries have keys and fit a packet; the source otherwise skips entries and compares bytes it never wrote.
- MdnsConflict.MangleName: asks that the suffix is below INT_MAX; the source otherwise overflows a signed integer.
- TitaniumSpec.Decode: asks that every byte the announced length leads to lies in memory; frames cut short by the end of the buffer are not modelled.
- JsonText.Deserializer.ParseNumber: numbers that need floating point end in `Outside`; their conversion is not modelled.
- JsonPool.JsonDocument.ShrinkToFit: the allocation of strings and slots and the search for equal strings are not modelled; any document laid out as a tree of slots is covered, shared strings included. Reallocation succeeds.
- Sockets, tasks, locks and network interfaces: readiness of an interface is a flag, random delays and the outcome of I/O are parameters, and an action is one atomic step.
- Byes, searches, browsing, reverse lookups, delegated host names being removed and responses delayed for sharing are not part of the mDNS model; a service is added before an action names it.
- Memory is always available: allocation failures and NoMemory of the deserializers are not modelled, and parsed documents are values rather than slots in the pool.
- jsmn: the strict and parent-link variants; positions are unbounded integers.
- ArduinoJson: filters, comments, raw values, floating point, shallow copies and the Arduino adapters.
- The uuid of a package comes from a random number generator and is a parameter.
- Drivers, storage, web and MQTT code, generated protobuf code and scripts.
