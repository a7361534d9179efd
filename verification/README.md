# SCION control service and border router: a verified model

This project models the parts of the SCION control service, of its border router and of
the multipath demo application whose correctness spans several functions, several programs
or whole runs, and proves that correctness. All claims are for every input, every run or every
interleaving; where the code falls short, the exact condition or a concrete input is given.

The model follows the form of the code. Steps that change fields or work on arrays and maps
are methods of classes or loops, each proved against a function or relation on values;
the laws are proved about those. Protocols and goroutines are step systems over whole
runs.

| files | subject |
|---|---|
| `Basics`, `Counting` | identifiers, link types, and lists without repetition |
| `ScionPath`, `Router`, `PacketProcessor` | the path header and what one router does with one packet |
| `RouterAdmission` | which packets a router lets through, and what it reports about the others |
| `Segments`, `Extender`, `ExtenderLaws`, `Combinator` | building segments with chained MACs, and paths from segments |
| `PathAuthorization`, `AuthorizedRuns` | why packets on such paths pass every MAC check, at one router and along whole runs |
| `RouterProgress`, `Delivery` | authorized packets are delivered, and every run ends |
| `ScmpReplies`, `ReplyDelivery`, `EarlyReplies` | reply paths of the slow path, their delivery, and what becomes of replies to early requests |
| `Network`, `ValleyFree`, `ValleyDelivery`, `SiblingRouters` | whole runs: the links crossed, which paths get through, and two routers of an AS acting as one |
| `ExampleRun` | a two-AS network that meets all assumptions about runs |
| `FabridSlots`, `MplsMaps` | FABRID hop slots along a path, and the packed label tables |
| `Pipeline`, `PipelineBuffers`, `PipelineStarvation`, `PipelineOrder`, `PipelineProgress`, `FlowHash`, `Forwarder` | the router's goroutines, their queues and the shared buffer pool |
| `BeaconPolicy`, `PolicyLaws`, `Beaconing`, `LoopFreedom`, `BeaconDirection`, `BeaconReach`, `BeaconedPaths` | beaconing as a distributed protocol: what its runs exclude, what they reach, and the paths its segments make |
| `Selection`, `Schedule` | choosing diverse beacons, and how often an interface sends |
| `StaticInfo`, `StaticInfoLaws`, `StaticInfoExtension` | symmetric metadata tables under arbitrary map order, and cross-overs |
| `Chunks`, `ChunkLaws`, `Reassembly` | splitting a message over paths and putting it together again |

The MAC chaining and the SegID updates are those of section 4 (Path Authorization) of
draft-dekater-scion-dataplane.

Some results that are not obvious from any one function:

- The accumulator an extender used for a hop is the SegID the router sees there, in both
  directions, over segment switches and peer links, from any point of any segment.
- A slow-path request raised before the ingress update, against construction direction,
  leads to a reply with the SegID of the wrong hop. The previous AS refuses it unless the
  MAC of its hop is the same over that SegID; `EarlyReplyVerdict` says exactly when.
- An authorized packet is not only never refused: with nothing in its way it is delivered.
- The buffer pool keeps its number of slices in every interleaving, but each router alert
  that is not a traceroute request exchanges one buffer for a slice without capacity. After
  as many of them as there are buffers, the router forwards nothing any more.
- Two sibling routers act as one, except for packets that switch segments twice in the AS.
- Beacons never loop although the filter at propagation never sees the local AS. The zero
  AS needs no exception; links from an AS to itself do.
- `symmetrizeHops` panics for some configurations, and then in every order of iteration.
- The metadata of a cross-over can be missing in both entries if one of the two interfaces
  is not configured.
- A message comes back whole only if the number of paths divides its length.

Where the code and its documentation disagree, the model follows the code: the comment of
`includeIntraInfo` promises each cross-over value in exactly one entry, which holds only
where the row of the smaller interface has it.

## Model

| member | source | states |
|---|---|---|
| PacketProcessor.ScionPacketProcessor.ProcessPacket | scion-sbom/router/dataplane.go:1827-1951 | Running the steps in order on the processor's fields gives, for every router, header, environment and path, the verdict and the path of `Router.Process`: every theorem about that function is about this method. |
| Router.PrecheckKeeps | scion-sbom/router/dataplane.go:1827-1848 | Whatever the first checks decide, they leave the packet as it came. |
| Router.EgressChecksStop | scion-sbom/router/dataplane.go:1895-1903 | Requests raised at the egress leave the path at its hop, with at most an alert flag cleared. |
| RouterAdmission.IngressChecksIff | scion-sbom/router/dataplane.go:1827-1868 | The ingress stage passes exactly if the hop is in the path and not expired, interface, length, source and destination fit, a packet from a sibling came from the router that owns its ingress, the MAC of the hop is the one over the SegID of this hop, and no alert is set for this router; the packet then carries that SegID. |
| RouterAdmission.AdmittedIff | scion-sbom/router/dataplane.go:1827-1951 | A packet is let through if and only if it meets a list of conditions that names no step of the router, the literal table of link type pairs among them; it is then delivered, sent over the interface its hop names, or handed to the router that owns it, with the path it must have. |
| RouterAdmission.ReportsMean | scion-sbom/router/dataplane.go:1462-1558 | Every slow-path request is about a fault, or an alert, the packet really has: each of the sixteen causes with its own condition, and with the one packet it leaves, alert flags cleared included. |
| PathAuthorization.InfIndexAt | scion-sbom/pkg/slayers/path/scion/base.go:120-129 | Inside a path made of segments, the index computed from a hop position is that of the segment the hop belongs to. |
| PathAuthorization.IncPathAt | scion-sbom/pkg/slayers/path/scion/base.go:88-102 | Moving on reaches the next hop of the segment or the first of the next one, fails only at the last hop, and a switch is seen exactly at the last hop of a segment that has a successor. |
| PathAuthorization.PeerAt | scion-sbom/router/dataplane.go:1343-1366 | On a peering path the flag marks exactly the hops built from peer entries. |
| PathAuthorization.ChainBeta | scion-sbom/pkg/slayers/path/infofield.go:122-125 | Chaining one hop's MAC prefix moves the accumulator over that hop, forwards or backwards. |
| PathAuthorization.HopAuthentic | scion-sbom/pkg/slayers/path/mac.go:40-53 | A hop taken from a built segment, main or peer, verifies against the accumulator recorded for it, in both directions. |
| PathAuthorization.VerifyOnTrack | scion-sbom/router/dataplane.go:1583-1605 | On an authorized path the check never fails. |
| PathAuthorization.IngressUpdate | scion-sbom/router/dataplane.go:1560-1571 | The update turns the SegID a packet arrives with into the accumulator of the current hop, and does nothing where it already is. |
| PathAuthorization.XoverOnTrack | scion-sbom/router/dataplane.go:1873-1893 | After a segment switch the SegID is the accumulator of the first hop of the new segment, the AS is the same, and its MAC verifies. |
| PathAuthorization.DepartOnTrack | scion-sbom/router/dataplane.go:1631-1649 | What the egress router leaves in the packet is what the next AS expects. |
| PathAuthorization.ProcessOnTrack | scion-sbom/router/dataplane.go:1827-1951 | One router, any environment: a packet on an authorized path never fails a MAC check, and every verdict leaves it on the path, at this hop, the switched hop, or the next AS. |
| AuthorizedRuns.StartOnTrack | scion-sbom/private/path/combinator/graph.go:727-751 | The path the combinator hands out satisfies the invariant at its first hop. |
| AuthorizedRuns.StepOnTrack | scion-sbom/router/dataplane.go:1827-1951 | One step of the network, over a link or to a sibling router, keeps the packet on the path and in the right AS. |
| AuthorizedRuns.RunOnPath | scion-sbom/router/dataplane.go:1827-1951 | Every state of every run that starts on the path is on the path. |
| AuthorizedRuns.AuthorizedRun | scion-sbom/router/dataplane.go:1583-1605 | For all networks, all one to three segments built by the extender, every part of them, both directions, with or without a peer link, and every run: no router reports a MAC failure. |
| RouterProgress.RouterGoes | scion-sbom/router/dataplane.go:1827-1951 | With nothing in the way, a router delivers an authorized packet in the last AS, and in every other sends it out over the interface the path names or to the sibling that owns it. |
| Delivery.StepGoes | scion-sbom/router/dataplane.go:1827-1951 | A packet that is not delivered moves on, to the interface the next hop names or to the router that owns the way out, and is ready for the next step. |
| Delivery.RunsEnd | scion-sbom/router/dataplane.go:1643-1649 | Every run of every packet, authorized or not, takes fewer than two steps per hop. |
| Delivery.NeverStuck | scion-sbom/router/dataplane.go:1827-1951 | In every run over existing links and allowed interface pairs, with nothing in the way, an authorized packet is delivered or takes another step. |
| Delivery.PacketDelivered | scion-sbom/router/dataplane.go:1827-1951 | Whatever the conditions are from step to step, as long as nothing is in the way, the packet is delivered in the last AS, within the bound. |
| Extender.PathSegment.ExtractBeta | scion-sbom/control/beaconing/extender.go:373-380 | The loop computes the accumulator over the whole chain. |
| Extender.DefaultExtender.CreatePeerEntries | scion-sbom/control/beaconing/extender.go:235-251 | One authentic entry per usable peer link, in order; links with an error are left out. |
| Extender.PeerEntries | scion-sbom/control/beaconing/extender.go:235-251 | Every peer entry is authentic for the accumulator after the main hop and leaves over the same egress; which entries there are says `ExtenderLaws.PeerEntriesAll`. |
| ExtenderLaws.PeerEntriesAll | scion-sbom/control/beaconing/extender.go:235-251 | Every peer interface that is known, with a remote interface and a remote AS that is no wildcard, has its entry, in the order of the list, with the fields of the topology, the egress and the expiry; no other has one. |
| ExtenderLaws.PeerEntriesCount | scion-sbom/control/beaconing/extender.go:235-251 | There are exactly as many peer entries as usable positions in the list. |
| Extender.HopFor | scion-sbom/control/beaconing/extender.go:347-367 | The hop field carries the MAC over the accumulator. |
| Extender.DefaultExtender.Extend | scion-sbom/control/beaconing/extender.go:102-233 | Succeeds exactly if the entry is admissible and the result validates; then the segment has one new entry; an inadmissible call leaves it alone. |
| ExtenderLaws.ExtendedIff | scion-sbom/control/beaconing/extender.go:102-233 | An extension succeeds if and only if the service is set up, an expiry can be had, exactly the first entry has no ingress, the interfaces are known and the segment was consistent and made for this AS; then everything but the MAC of the new entry is given, and the old ones stay. |
| Extender.GrownBuilt | scion-sbom/control/beaconing/extender.go:152-171 | Every segment that any number of calls of Extend by any ASes produces has the chained-MAC structure, for main and peer hops. |
| Segments.BuiltPrefix | scion-sbom/control/beaconing/extender.go:373-380 | A prefix of a built segment is built: any contiguous part of a segment can be used. |
| Segments.AppendBuilt | scion-sbom/pkg/segment/seg.go:263-315 | Appending an entry made for the current accumulator keeps the structure. |
| Combinator.CalculateBeta | scion-sbom/private/path/combinator/graph.go:551-583 | The SegID a path starts a segment with is the accumulator of the first hop traversed. |
| Combinator.CollectHops | scion-sbom/private/path/combinator/graph.go:335-425 | Walking the entries from the end, and reversing for down segments, gives the hops in order of traversal. |
| ScmpReplies.ReverseOnTrack | scion-sbom/pkg/slayers/path/scion/decoded.go:87-111 | Reversing a packet inside an AS puts it on the reversed path, at the same hop, with every SegID right for the way back. |
| ScmpReplies.ReplyOnTrack | scion-sbom/router/dataplane.go:2353-2388 | The reply path, also where a segment switch is undone or the reply leaves over an external interface, is on the way back. |
| ScmpReplies.ReplyAuthorized | scion-sbom/router/dataplane.go:2353-2388 | Every slow-path request, at whatever stage, before or after a switch, at a peering hop or not, leads to a reply whose path is authorized back to the source; only requests about packets from outside must come after the ingress update. |
| ScmpReplies.ReplyVerifies | scion-sbom/router/dataplane.go:2353-2388 | End to end: any run of an authorized packet up to such a request, and any run of the reply to it: no router on the way back reports a MAC failure. |
| ReplyDelivery.ProcessQuiet | scion-sbom/router/dataplane.go:1727-1778 | A router never adds an alert to a packet. |
| ReplyDelivery.ReplyDelivered | scion-sbom/router/dataplane.go:2353-2388 | A request about a packet from outside, after the update, in any run: if links and interface pairs of the way back are there and nothing is in the way, the reply is delivered in the AS the packet came from, in fewer than two steps per hop. |
| EarlyReplies.EarlyReplyExact | scion-sbom/router/dataplane.go:1834-1848 | For a request raised before the update, for a packet from outside: the reply is on the authorized way back if and only if the hop is traversed in construction direction, is a peering hop, or has a zero MAC prefix. |
| EarlyReplies.MacFailureMeans | scion-sbom/router/dataplane.go:1827-1857 | A router reports the first MAC failure exactly if the packet passes the first checks and the MAC over its SegID, once updated, is not the one in the hop field. |
| EarlyReplies.EarlyReplyVerdict | scion-sbom/router/dataplane.go:1834-1848 | For every router of the previous AS and all it depends on: it reports a MAC failure for such a reply if and only if the reply passes its first checks, the hop is traversed against construction and is not a peering hop, and its MAC is another one over the SegID the reply carries. |
| EarlyReplies.SeparatingMac | scion-sbom/router/dataplane.go:1583-1605 | If that MAC tells the two accumulators apart, the last condition is that the MAC prefix is not zero: the reply is then accepted exactly where it is authorized. |
| ExampleRun.EarlyReplyFails | scion-sbom/router/dataplane.go:1834-1848 | A concrete run: one router asks for the slow path because of the packet length, and the router of the previous AS, which gets the reply, reports a MAC failure. |
| Network.ProcessKeeps | scion-sbom/router/dataplane.go:1631-1667 | No verdict changes the layout of the path or moves it back; forwarding moves it to a later hop. |
| Network.ProcessAllowed | scion-sbom/router/dataplane.go:1482-1558 | Whatever leaves a router leaves over its own interface or to the sibling that owns it, and the interface pair was one of the allowed ones. |
| ValleyFree.StepKeepsHistory | scion-sbom/router/dataplane.go:1482-1558 | The links crossed so far and the link type at the next hop fit together, also across sibling routers. |
| ValleyFree.ForwardingIsValleyFree | scion-sbom/router/dataplane.go:1827-1951 | In every run of every packet, authorized or not, the links crossed form up* (core* or one peer link) down*, and there are at most NumHops - 1 of them. |
| ValleyDelivery.OrderPermits | scion-sbom/router/dataplane.go:1482-1558 | On a path of an up, a core and a down leg, in this order and each at most once, or of an up and a down leg over a peer link, every crossing of every AS is an allowed one. |
| ValleyDelivery.ValleyDelivered | scion-sbom/router/dataplane.go:1827-1951 | The converse of valley freedom: with nothing in the way, a packet on such a path is delivered, over links of the form up* (core* or one peer link) down*; nothing is assumed about what routers allow. |
| SiblingRouters.CrossedIsReady | scion-sbom/router/dataplane.go:1669-1687 | At the router a packet is handed to, the interface it is taken to have come in on is the one the first router received it on; and it is a switch again exactly if it switches twice in the AS. |
| SiblingRouters.SecondRouter | scion-sbom/router/dataplane.go:1827-1951 | The second router sends the packet on from where the first one left it, unless the hop raises an alert at the egress or is a switch; then it passes nothing on. |
| SiblingRouters.SwitchFromInside | scion-sbom/router/dataplane.go:1482-1558 | No router passes on a packet that switches segments after it came in from inside the AS. |
| SiblingRouters.TwoRoutersRefineOne | scion-sbom/router/dataplane.go:1827-1951 | Whatever two sibling routers send out, one router with all interfaces sends out, over the same interface, with the same path; what it sends out over an interface of the second, they send out if and only if the packet does not switch segments twice in the AS. Alerts and segment lengths do not matter otherwise. |
| SiblingRouters.AuthorizedEnters | scion-sbom/pkg/slayers/path/scion/base.go:115-118 | Every packet that arrives on an authorized path is one the refinement speaks of, and does not switch twice. |
| SiblingRouters.TwoRoutersDiffer | scion-sbom/router/dataplane.go:1827-1951 | A concrete packet that switches to a middle segment of one hop: one router sends it out, two do not. |
| FabridSlots.ASIndexSteps | scion-sbom/router/dataplane_fabrid.go:174-203 | Switching segments keeps the AS number on the path; any other step adds one. |
| FabridSlots.HbhAt | scion-sbom/router/dataplane_fabrid.go:145-208 | The 8-bit slot arithmetic neither wraps nor leaves the option: the slot is the number of the AS on the path, handled only where the packet enters the AS; an error means a failed check or more than 62 ASes. |
| FabridSlots.SlotOnTrack | scion-sbom/router/dataplane_fabrid.go:145-208 | However the packet leaves the router, the slot handled is that of this AS. |
| FabridSlots.RunSlots | scion-sbom/router/dataplane_fabrid.go:174-203 | At every point of a run the slots used are 0, 1, ... up to the current AS. |
| FabridSlots.FabridSlotsInOrder | scion-sbom/router/dataplane_fabrid.go:174-203 | A packet delivered over a path of n ASes used the slots 0 to n - 1, each once and in order, across crossovers and peering links. |
| Pipeline.InitPacketPool | scion-sbom/router/dataplane.go:557-567 | The pool starts full, with pairwise distinct buffers. |
| Pipeline.PoolSizeMeans | scion-sbom/router/dataplane.go:557-567 | The pool has as many buffers as all receivers, processors, forwarders and queues can hold at once. |
| Pipeline.StepShaped | scion-sbom/router/dataplane.go:570-587 | No queue, batch or processor ever holds more than its capacity, in every interleaving. |
| PipelineBuffers.StepTotal | scion-sbom/router/dataplane.go:710-802 | Every weighing of buffers is kept by every step; only a nil slow-path result exchanges one buffer for an empty one. |
| PipelineBuffers.RunConserves | scion-sbom/router/dataplane.go:1783-1801 | Along every run the slices total the pool size, and those without capacity are exactly as many as there were nil slow-path results. |
| PipelineBuffers.BufferUnique | scion-sbom/router/dataplane.go:706-802 | No buffer is ever in two places; without nil results each is always in exactly one. |
| PipelineStarvation.NilRepliesBounded | scion-sbom/router/dataplane.go:1783-1801 | No run has more nil slow-path results than there are buffers. |
| PipelineStarvation.StarvedForever | scion-sbom/router/dataplane.go:1783-1801 | After as many nil results as buffers no slice is of use, and in every continuation no interface sends a packet that came in. |
| PipelineStarvation.NilReplyHappens | scion-sbom/router/dataplane.go:1783-1801 | A concrete list of seven steps that ends with a slice without capacity. |
| PipelineBuffers.ReturnNeverBlocks | scion-sbom/router/dataplane.go:706-708 | The pool never holds more than its capacity, so giving a buffer back never blocks. |
| PipelineBuffers.CollectNeverBlocks | scion-sbom/router/dataplane.go:658-674 | A receiver that still collects buffers for a batch never finds the pool empty. |
| PipelineOrder.StepOrder | scion-sbom/router/dataplane.go:710-766 | Every step keeps the packets of a flow, between one ingress and one egress interface, in order along the whole pipeline. |
| PipelineOrder.FlowOrderKept | scion-sbom/router/dataplane.go:611-677 | What has left on an interface is, for every flow and ingress interface, a subsequence of its arrivals, for all interleavings and drops. |
| PipelineProgress.ForwardQueues | scion-sbom/router/dataplane.go:755-766 | A packet for an egress whose queue has room becomes the last one in it, and no buffer goes back. |
| PipelineProgress.StepKeeps | scion-sbom/router/dataplane.go:706-802 | A step keeps every packet in the router, sends it, or loses it for a reason that can be named: an unreadable header, a full queue, an unknown egress, a discard, a short write, or the end of its slow path. |
| PipelineProgress.NoPacketVanishes | scion-sbom/router/dataplane.go:706-802 | In every run a packet that was in the router at some point is there, was sent, or was lost by some step for one of these reasons. |
| PipelineProgress.PacketGetsThrough | scion-sbom/router/dataplane.go:706-802 | From every reachable state in which its processor and its forwarder have nothing else to do, there is a continuation that sends the next packet of an interface over its egress. |
| PipelineProgress.AnswerGetsThrough | scion-sbom/router/dataplane.go:777-802 | So there is for the answer to a packet that needs the slow path. |
| PipelineProgress.NumberGained | scion-sbom/router/dataplane.go:706-802 | What has left of its flow then ends with the number of this packet. |
| FlowHash.ComputeProcID | scion-sbom/router/dataplane.go:679-704 | Fails exactly on data too short for its address header; otherwise the processor is a function of the seed, the flow ID and the address bytes. |
| FlowHash.SameFlowSameProc | scion-sbom/router/dataplane.go:679-704 | Packets of one flow go to one processor, whatever else they hold. |
| FlowHash.KnownProc | scion-sbom/router/fnv1aCheap.go:26-29 | The published FNV-1a hash of two letters, modulo any number of processors. |
| FlowHash.KeyDetermines | scion-sbom/router/dataplane.go:679-704 | Two packets with the same key have the same flow ID, and the same address bytes. |
| Forwarder.ReadUpTo | scion-sbom/router/dataplane.go:1005-1029 | Appends the packets ready, at most n, one at least if it waits and one comes, behind those held, in order. |
| Forwarder.ShiftLeft | scion-sbom/router/dataplane.go:989-993 | The leftovers move to the head of the array unchanged, although the ranges overlap. |
| Forwarder.RunForwarder | scion-sbom/router/dataplane.go:947-1003 | For any results of WriteBatch, packets given back, held and unread are the queue in order: each is written or dropped once, at most one per short write is dropped, none is doubled. |
| BeaconPolicy.FilterAsLoop | scion-sbom/control/beacon/policy.go:317-326 | Returns the first AS that is repeated, or the zero value if none is; the zero AS repeated also gives the zero value. |
| BeaconPolicy.AsLoopFreeMeans | scion-sbom/control/beacon/policy.go:317-326 | Among non-zero ASes, exactly the lists without repetition pass. |
| BeaconPolicy.FilterIsdLoop | scion-sbom/control/beacon/policy.go:328-342 | Returns the first ISD that is entered twice. |
| BeaconPolicy.IsdLoopFreeMeans | scion-sbom/control/beacon/policy.go:328-342 | Among non-zero ISDs, exactly the lists that never leave an ISD and come back pass. |
| BeaconPolicy.FilterLoops | scion-sbom/control/beacon/policy.go:304-315 | Both checks, the second unless ISD loops are allowed. |
| BeaconPolicy.FilterLoop | scion-sbom/control/beacon/policy.go:288-294 | The beacon's ASes with the next one behind pass the loop checks. |
| BeaconPolicy.LoopFilterKeepsDistinct | scion-sbom/control/beaconing/propagator.go:197-202 | A beacon over distinct ASes passes only towards an AS that is not among them. |
| BeaconPolicy.Apply | scion-sbom/control/beacon/policy.go:262-284 | Passes exactly beacons that are short enough, loop-free and without a blocked AS or ISD. |
| BeaconPolicy.FilterBeacon | scion-sbom/control/beacon/policy.go:88-103 | An error exactly if the beacon has no use: counting errors agrees with `Usage`. |
| BeaconPolicy.Usage | scion-sbom/control/beacon/policy.go:107-119 | The uses are those whose policy lets the beacon pass. |
| PolicyLaws.PassesIff | scion-sbom/control/beacon/policy.go:262-284 | For numbered ASes, in terms of the entries: a beacon passes if and only if it has at most the allowed number, none by an AS that was there before or is blocked, and never leaves an ISD and comes back, unless that is allowed. |
| Beaconing.BeaconStore.InsertBeacon | scion-sbom/control/beacon/store.go:192-198 | A beacon without a use is not stored. |
| Beaconing.Handler.ValidateASEntry | scion-sbom/control/beaconing/handler.go:105-121 | Passes exactly if the interface the beacon came over is a Parent or Core interface to the AS of its last entry, and that entry was made for this AS. |
| Beaconing.Handler.HandleBeacon | scion-sbom/control/beaconing/handler.go:55-103 | The store gains the beacon exactly if it was verified, has a use, and came over a Parent or Core interface to the AS of its last entry, made for this AS; otherwise it stays as it is. |
| Beaconing.BeaconsPerInterface | scion-sbom/control/beaconing/propagator.go:161-193 | Per interface, the beacons that may be sent on it, in their order. |
| Beaconing.SelectedMember | scion-sbom/control/beaconing/propagator.go:161-193 | A beacon is in that list exactly if it was provided, its interface still exists, and no loop shows. |
| PolicyLaws.ToSendIff | scion-sbom/control/beaconing/propagator.go:197-202 | A beacon over distinct ASes may be sent on over an interface if and only if both interfaces exist, the neighbour is not among its ASes, and it does not lead back into an ISD, unless that is allowed. |
| LoopFreedom.StepInvariant | scion-sbom/control/beaconing/propagator.go:161-202 | Every event of the protocol keeps the network-wide invariant. |
| LoopFreedom.BeaconsNeverLoop | scion-sbom/control/beaconing/propagator.go:197-202 | In every run, a beacon stored at or on its way to an AS is a walk over distinct ASes that has not been there, joined by interfaces that lead to each other, with ingress 0 only first and no egress 0, shorter than the network is large; although the filter never sees the local AS. |
| LoopFreedom.SegmentsNeverLoop | scion-sbom/control/beaconing/extender.go:112-121 | Registered segments are such walks, with egress 0 only last. |
| LoopFreedom.SelfLinkLoops | scion-sbom/control/beaconing/originator.go:198-212 | The assumption is needed: over a link to itself any AS makes a looping beacon in one step. |
| LoopFreedom.SegmentsAuthentic | scion-sbom/control/beaconing/extender.go:102-233 | Every beacon and segment in every run has the chained MACs the routers check. |
| BeaconDirection.RunDown | scion-sbom/control/beaconing/handler.go:105-121 | In every run each beacon was stored from a parent or core link, and each later hop of every beacon and segment was entered over such a link. |
| BeaconDirection.BeaconsLeadDown | scion-sbom/control/beaconing/handler.go:105-121 | Where the two ends of every link have types that fit, stored beacons go over core links and down at every hop, also to the AS that stores them. |
| BeaconDirection.SegmentsLeadDown | scion-sbom/control/beaconing/handler.go:105-121 | So do registered segments. |
| BeaconReach.ReachesStop | scion-sbom/control/beaconing/propagator.go:161-202 | A beacon can follow a chain of distinct ASes, each entered from a parent or core neighbour and with policies that let it pass, up to any of its stops: there is a run that stores it there. |
| BeaconReach.ChainsRegistered | scion-sbom/control/beaconing/propagator.go:161-202 | Every such chain is registered as a segment in some run: what loop freedom and direction do not exclude, and policies let pass, is found. |
| BeaconedPaths.RunPeers | scion-sbom/control/beaconing/extender.go:235-251 | In every beaconing run each peer entry names the AS its interface leads to and leaves as its main hop does. |
| BeaconedPaths.BeaconedPath | scion-sbom/private/path/combinator/graph.go:335-425 | Paths over segments registered in any beaconing run have authentic MACs, and their hops follow the links, over peer links too if the two entries name each other's AS. |
| BeaconedPaths.BeaconedRun | scion-sbom/router/dataplane.go:1583-1605 | From beaconing to forwarding: on such a path no router ever reports a MAC failure, without any assumption on the segments. |
| Selection.Diversity | scion-sbom/control/beacon/beacon.go:36-56 | Counts the entries whose link is in no entry of the other beacon; 0 if one of the two has no segment. |
| Selection.NoNewLinks | scion-sbom/control/beacon/beacon.go:36-56 | The diversity is 0 exactly if every entry of the one has its AS and ingress in some entry of the other. |
| Selection.AllNewLinks | scion-sbom/control/beacon/beacon.go:36-56 | It never exceeds the number of entries, and is that number if no link is shared. |
| Selection.SelectMostDiverse | scion-sbom/control/beacon/selection_algo.go:54-71 | A most diverse beacon, the shortest among those and the first of them; none and -1 for an empty list. |
| Selection.SelectBeacons | scion-sbom/control/beacon/selection_algo.go:33-50 | min(len, k) distinct positions, the first k - 1 kept, the greatest diversity of all candidates kept, and the last one the most diverse of the rest exactly if some of the rest adds diversity. |
| Selection.LastChoiceDiverse | scion-sbom/control/beacon/selection_algo.go:33-50 | The selection is as diverse, at its best, as all candidates together. |
| Selection.LastChoiceMeans | scion-sbom/control/beacon/selection_algo.go:33-50 | The last choice has more new links than each of those kept, or it is just the next in order; it is the next if none of the rest beats all of those kept. |
| Schedule.Tick.UpdateLast | scion-sbom/control/beaconing/tick.go:54-58 | Notes the time exactly if the period has passed. |
| Schedule.Tick.Due | scion-sbom/control/beaconing/originator.go:128-139 | On a full tick all positions, otherwise exactly those of overdue timestamps, in order. |
| Schedule.Originator.NeedBeacon | scion-sbom/control/beaconing/originator.go:128-139 | On a full tick all interfaces, otherwise exactly the overdue ones, in order. |
| Schedule.Originator.Run | scion-sbom/control/beaconing/originator.go:82-86 | Every interface makes one step of the schedule the rate bound is proved for; the propagation times and the topology stay. |
| Schedule.Propagator.NeedsBeacons | scion-sbom/control/beaconing/propagator.go:144-159 | The same choice for propagation. |
| Schedule.Propagator.Propagate | scion-sbom/control/beaconing/propagator.go:248-343 | The time is noted exactly if some beacon gets through. |
| Schedule.Propagator.Run | scion-sbom/control/beaconing/propagator.go:80-86 | Every interface makes one step of the same schedule, a success being any beacon sent; the origination times and the topology stay. |
| Schedule.Interfaces.Update | scion-sbom/control/ifstate/ifstate.go:85-101 | Interfaces that stay keep their object, schedule and remote ID; new ones start from zero; the others are gone. |
| Schedule.RateBound | scion-sbom/control/beaconing/tick.go:44-64 | From any state, with a clock that does not go back, any window of one period holds at most two runs with a success on an interface, and one more per reset in it. |
| Schedule.RateBoundTight | scion-sbom/control/beaconing/tick.go:44-64 | Two are possible, starting from a new schedule. |
| Schedule.NeverBehind | scion-sbom/control/beaconing/tick.go:44-64 | A run notes its time only if the period has passed, and never falls back behind an earlier one. |
| StaticInfo.Symmetrize | scion-sbom/control/beaconing/staticinfo_config.go:194-214 | For every order of iteration the nested loops over the mutated maps end in the closed form; with the larger value for latency, the smaller for the other metrics. |
| StaticInfo.SymmetrizeHops | scion-sbom/control/beaconing/staticinfo_config.go:356-372 | The same with rows created on the way, visited or not; it panics, in every order, exactly if a value goes to a present row with a nil map. |
| StaticInfo.NilMapPanics | scion-sbom/control/beaconing/staticinfo_config.go:356-372 | A concrete configuration for which it panics. |
| StaticInfo.SymGet | scion-sbom/control/beaconing/staticinfo_config.go:193-214 | The closed form, pair by pair: no diagonal, the more conservative value between configured interfaces, other entries as they were. |
| StaticInfo.SymSymmetric | scion-sbom/control/beaconing/staticinfo_config.go:143-144 | Between configured interfaces the result is symmetric. |
| StaticInfo.PushMatches | scion-sbom/control/beaconing/staticinfo_config.go:195-213 | One inner step, at any point of any order, keeps the closed form of the progress made. |
| StaticInfo.CleanedGet | scion-sbom/control/beaconing/staticinfo_config.go:145-191 | What cleaning leaves for a pair, in terms of the configured values. |
| StaticInfoLaws.CleanedConservative | scion-sbom/control/beaconing/staticinfo_config.go:193-214 | For every pair of interfaces both directions have one value after cleaning if any was configured: one of those configured, and no smaller than either for a latency, no larger than either otherwise. |
| StaticInfoLaws.CleanedKeepsRest | scion-sbom/control/beaconing/staticinfo_config.go:145-191 | Values to interfaces without a row and values towards neighbours stay, and no row appears. |
| StaticInfo.CleanIdempotent | scion-sbom/control/beaconing/staticinfo_config.go:145-191 | Cleaning a clean table changes nothing and does not panic. |
| StaticInfoExtension.DeleteZero | scion-sbom/control/beaconing/staticinfo_config.go:147-181 | Interface 0 disappears as a row and from every row. |
| StaticInfoExtension.StaticInfoCfg.Clean | scion-sbom/control/beaconing/staticinfo_config.go:145-191 | All eight metrics take their closed forms, and for each the values that are left are the most conservative of those configured, the larger for latency and the smaller for the others; the panic depends on the hops alone. |
| StaticInfoExtension.GenerateIntra | scion-sbom/control/beaconing/staticinfo_config.go:410-414 | The values of the egress interface's row that belong into the entry. |
| StaticInfoExtension.Generate | scion-sbom/control/beaconing/staticinfo_config.go:403-422 | Intra and inter values of one metric for an AS entry. |
| StaticInfoExtension.OtherSegmentEntry | scion-sbom/control/beaconing/staticinfo_config.go:650-664 | In another entry a given value is there if and only if it is to a core or peer interface, or to a child interface with a larger number than the egress. |
| StaticInfoExtension.ChildCrossOver | scion-sbom/control/beaconing/staticinfo_config.go:650-664 | At a cross-over between two child interfaces the value between them is never in both entries, and in one exactly if the row of the smaller interface has it. |
| StaticInfoExtension.ExactlyOnce | scion-sbom/control/beaconing/staticinfo_config.go:634-649 | With both interfaces configured, a value given in either direction is in exactly one of the two entries. |
| StaticInfoExtension.MissingRow | scion-sbom/control/beaconing/staticinfo_config.go:634-649 | With one of them not configured it can be in neither: a concrete table. |
| StaticInfoExtension.CoreCrossOver | scion-sbom/control/beaconing/staticinfo_config.go:650-664 | At a cross-over between a core and a child interface only the child segment's entry has the value, if there is one. |
| MplsMaps.InterfaceKeyInjective | scion-sbom/control/fabrid/mpls_map.go:59-70 | Packed interface keys never collide, exact or wildcard, and fit 64 bits. |
| MplsMaps.RangeKeyInjective | scion-sbom/control/fabrid/mpls_map.go:49-58 | The same for the 32-bit keys of IP ranges. |
| MplsMaps.MplsMaps.AddConnectionPoint | scion-sbom/control/fabrid/mpls_map.go:45-71 | After any sequence of insertions the packed maps hold exactly the abstract table of the insertions. |
| MplsMaps.LabelForInterface | scion-sbom/router/dataplane_fabrid.go:93-108 | The router finds the label inserted last for the exact ingress, or else for any ingress, or none. |
| MplsMaps.LabelForAddress | scion-sbom/router/dataplane_fabrid.go:110-143 | Longest-prefix match among the ranges of the exact ingress if there are any, else of any ingress; of equal prefixes the one inserted first. |
| MplsMaps.LongestMatchUnique | scion-sbom/router/dataplane_fabrid.go:124-142 | There is only one such range. |
| MplsMaps.RangeBehind | scion-sbom/router/dataplane_fabrid.go:124-142 | A range inserted behind others takes an address over if and only if the address begins with its bits and it is longer than the one found before: of equal prefixes the first stays. |
| MplsMaps.PairInserted | scion-sbom/router/dataplane_fabrid.go:93-108 | A label inserted for two interfaces is found by the next lookup for them, and no other lookup changes. |
| MplsMaps.AnyIngressInserted | scion-sbom/router/dataplane_fabrid.go:93-108 | One inserted for any ingress is found exactly where there is none for the ingress itself. |
| MplsMaps.AnyEgressInserted | scion-sbom/control/fabrid/mpls_map.go:45-71 | One inserted for any egress is found under interface 0. |
| MplsMaps.RangeInserted | scion-sbom/control/fabrid/mpls_map.go:45-71 | A range for an ingress interface goes behind the ranges for it, and hides those for any ingress. |
| MplsMaps.AnyRangeInserted | scion-sbom/control/fabrid/mpls_map.go:45-71 | A range for any ingress goes behind those for any, and is searched where the ingress has none of its own. |
| Chunks.SendMessage | scion-sbom/quantum-app/main.go:375-408 | One packet per path: header and the i-th part of length len/N. |
| Chunks.ParseHeader | scion-sbom/quantum-app/main.go:122-139 | Every header that is sent is read back as the same two numbers and the same payload, whatever the payload holds. |
| ChunkLaws.ParseIff | scion-sbom/quantum-app/main.go:122-139 | A packet is read as two numbers and a payload if and only if it is their spelling, a comma between and a newline behind, and the payload. |
| ChunkLaws.AtoiSigned | scion-sbom/quantum-app/main.go:130-139 | Numbers may have a sign; a sign alone or nothing is refused. |
| Chunks.Server.Handle | scion-sbom/quantum-app/main.go:100-171 | One packet changes the state of its sender, puts a message out, or ends the server, as `Receive` says. |
| ChunkLaws.TakenIff | scion-sbom/quantum-app/main.go:100-171 | A packet is taken if and only if it can be read and its index is in range and was not seen; otherwise the server exits. |
| ChunkLaws.TakenMeans | scion-sbom/quantum-app/main.go:141-171 | A packet that is taken sets its chunk and nothing else of any sender; a message is put out and forgotten exactly when its last chunk came. |
| Chunks.Join | scion-sbom/quantum-app/main.go:167-170 | The chunks joined in order of their index. |
| Reassembly.OwnChunk | scion-sbom/quantum-app/main.go:141-171 | The next chunk of a message, whichever it is, is taken, and the last one completes it. |
| Reassembly.ServeMessage | scion-sbom/quantum-app/main.go:100-171 | At every point of every run the server holds exactly the chunks that came, and has answered the sender at most once. |
| Reassembly.EmittedOnce | scion-sbom/quantum-app/main.go:100-171 | For every message, number of paths and order of arrival between the packets of other senders, the message is put out exactly once, unless another sender makes the server exit. |
| Reassembly.RoundTrip | scion-sbom/quantum-app/main.go:383-407 | What is put out is the message if and only if the number of paths divides its length and every packet fits the read buffer; otherwise, if they fit, the remainder is cut off. |
| ExampleRun.AssumptionsMeet | scion-sbom/router/dataplane.go:1827-1951 | The assumptions of the theorems about whole runs hold together: two ASes, one link, one packet that crosses it and is delivered. |
| ExampleRun.DeliveryAssumptionsMeet | scion-sbom/router/dataplane.go:1827-1951 | So do the assumptions of the theorems about delivery. |
| ExampleRun.ReplyAssumptionsMeet | scion-sbom/router/dataplane.go:2353-2388 | And those of the theorem about the delivery of replies. |

## Left out

- Sockets, gRPC and QUIC, gopacket serialization, metrics and logging: reads and writes are arbitrary counts in range.
- Cryptography: the MAC of an AS is an arbitrary function, signatures and FABRID validation are flags.
- BFD sessions, SCMP payloads, address resolution, clocks and packet lengths: given by the environment of each processing step.
- EPIC, one-hop paths and the BFD packets of the router: not modelled.
- Segment lookup and the search for segment combinations: the model starts from the segments a path was combined from.
- Signer choice and expiry computation in `Extend`: given as an optional expiry; static info, MTU values and signatures of an entry are not part of it.
- The beacon database: a set of beacons with their uses; replacing an older copy of a beacon shows as its removal in `LoopFreedom`.
- Policy files, defaults, candidate set sizes and the time between retries.
- Geo, link type and notes of the static metadata: copied or filtered without interaction.
- Hop-by-hop option parsing: the identifier and FABRID options are flags; the slot arithmetic is modelled.
- The hash of the MPLS maps and the transfer of the maps to the router.
- What the server does with a message once it is put together (its encryption mark, decryption, and exit on a message without a newline); the ports of senders, which it ignores.
- A read error that comes with a positive packet count in a receiver; such a count is taken to be zero or less.
- Channels that are closed while the router stops.
- LoopFreedom.BeaconsNeverLoop: says nothing about ISD loops at propagation time, where the code leaves out the local AS as well.
- SiblingRouters.TwoRoutersRefineOne: for packets that enter the AS past the first hop of a segment or at a peering hop, with all peering flags alike, as packets on paths of the combinator do; seen by routers with the same clock, where the second router sees no session down that is up for the one.
- Delivery.PacketDelivered: for packets that the source hands to the router that owns the first egress; another router answers with a slow-path request, as in the source.
- Selection.SelectBeacons: with more candidates than results it needs at least two results, since the code reads the first of the kept ones.
- Schedule.RateBound: a run that is reset counts one more, since a reset forgets the last success.
- Forwarder.ReadUpTo: the queue is the list of packets it will deliver before it is closed.
- PacketProcessor.ScionPacketProcessor.ProcessPacket: errors of the original that cannot be told apart by their effect are one verdict, `Dropped`.
