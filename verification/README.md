# Reticulum node: a verified model

This project models, in Dafny 4.11, the parts of the Rust repository that carry its protocol state, and proves what
they keep. The stack is sans-I/O: a node is a deterministic state machine that is given packets, clock readings and
random bytes, and returns packets and events. That is how it appears here.

* **Node and network.** `Packets`, `Announces`, `PathTables`, `Transports`, `Links` and `Nodes` are the node: packet
  layout, announces, route preference, announce flooding, path requests, forwarding, local delivery, receipts,
  handshake, link traffic, keepalives, closing. `NodeClass.Node` is the object with its maps and queues, updated in
  place, each method proved against the functions. `Network` joins nodes by point-to-point interfaces, with packets in
  flight as a multiset; a step is one call at one node, or the loss or duplication of a packet. On it stand
  `LoopFreedom`, `Authenticity`, `Delivery` (one hop of a message), `Arrival` (whole runs), `Rerouted` (a run that
  fails), `Settlement` (delivery receipts) and `Flood`; on runs of one node stand `Receipts`, `LinkEvents` and `Dedup`;
  `Discovery`, `Handshake`, `Keepalive` and `KeepaliveNodes` take two nodes.
* **Resource transfer.** `ResourceWire` has the wire forms, `ResourceState` the two ends as functions,
  `ResourceClass` the two ends as objects. `ResourceSafety`, `ResourceMap`, `ResourceProgress`, `ResourceRetry` and
  `Collisions` prove what a transfer keeps and that it ends. `ResourceTable` has a node's tables of transfers and its
  resource handlers, `NodeResources` the object that holds them, and `ResourceTableLaws` lifts safety to a node with
  any number of transfers and any traffic. `WholeNode` joins the node and its transfers, as functions and as an object.
* **Codecs and stream readers.** `MessagePack`, `Skipper`, `Grammar`, `Lxmf`, `LxmfLaws`, `Propagation` (LXMF),
  `Kiss`, `KissStream`, `Hdlc`, `TcpReader` (framing), `Bits`, `Ifac` (interface access codes).
* **Stamps.** `Stamp` reads a byte-wise comparison as arithmetic on 256-bit numbers.

Cryptographic primitives are parameters: a `Suite` of functions with four laws (Diffie-Hellman commutes, open undoes
seal, verify accepts sign, and the lengths of digests, keys, signatures and sealed texts); `Crypto.LawsAreConsistent`
shows that the laws can be met. Hashes are never
assumed injective; where distinct hashes matter, that is a hypothesis on the run. The clock is a parameter of every
call, the entropy source a parameter holding the bytes drawn. Times are unbounded naturals, so saturation at the end of
a 64-bit clock is not modelled.

Five results differ from what the code's comments or a first reading suggest:

* A link survives being idle exactly if delays are at most 150 seconds and tick interval plus twice the delay is at
  most 360 seconds (`Keepalive.SurvivalExactly`). The staleness budget alone (360 + T + 2R below 720) is not enough:
  beyond a delay of 150 seconds two byte-identical keepalive answers can arrive within the 60-second duplicate window
  and the second one is dropped (`Keepalive.DroppedAnswer`).
* A stamp is accepted for one number more than "value at least cost" says: a digest equal to 2^(256 - cost) has value
  cost - 1 and passes (`Stamp.VerifyExactly`).
* The collision check of the sender's constructor makes map hashes pairwise distinct exactly for up to 225 parts
  (`Collisions.CheckSufficesExactly`). A later part with the map hash of an earlier one is never sent
  (`Collisions.SentExactly`), and a transfer of such a resource can complete only with a wrong part in that slot
  (`Collisions.HiddenNeverArrives`).
* A message can be dropped without any loss: if a node that had it learns a shorter route while it is under way, the
  relay it is heading to may turn its own route back, and a relay sends nothing back where it came from
  (`Rerouted.DroppedWithoutLoss`). While no such node comes closer to the host, the message arrives
  (`Arrival.MessageArrives`).
* A delivery receipt settles exactly if the message went straight to its host (`Settlement.SettlesExactly`): relays do
  not forward proofs, so through a relay it is never reported settled.

## Model

| member | source | states |
|---|---|---|
| Packets.DecodeEncode | crates/reticulum-core/src/packet.rs:178-258 | every well-formed packet survives encoding: decode undoes encode, both header forms, all flag fields |
| Packets.EncodeDecode | crates/reticulum-core/src/packet.rs:178-258 | every byte string that decodes is the encoding of the packet it decodes to, which is well formed |
| Announces.BuiltIsVerified | crates/reticulum-core/src/announce.rs:29-128 | an announce built by an identity parses back from its payload and verifies for its destination |
| Crypto.DecryptUndoesEncrypt | crates/reticulum-core/src/token.rs:148-188 | whatever ephemeral key and IV encrypted a token, the owner of the identity reads the plaintext |
| Delivery.CarriedHash | crates/reticulum-core/src/packet.rs:80-82 | the full packet hash of a message is the same at every hop: it depends on destination and content, not on hops, header form or transport id |
| PathTables.PathTable.Update | crates/reticulum-node/src/path_table.rs:41-52 | accepts exactly the preferred route (none held, held one expired, fewer hops, or equal hops and newer) and stores it, else changes nothing |
| PathTables.PathTable.Insert | crates/reticulum-node/src/path_table.rs:28-38 | the same preference without expiry |
| PathTables.PathTable.Prune | crates/reticulum-node/src/path_table.rs:54-58 | keeps exactly the unexpired entries and counts the others |
| PathTables.LazyIsEager | crates/reticulum-node/src/path_table.rs:41-62 | over any sequence of updates and prune-then-lookups with a non-decreasing clock, the lazily expired table gives the answers of a table pruned before every operation |
| PathTables.HoldsFirstBest | crates/reticulum-node/src/path_table.rs:41-52 | while nothing expires, the entry held is the first of all offers that no other offer beats on (hops, then newest timestamp) |
| LoopFreedom.RoutesBacked | crates/reticulum-node/src/node.rs:1117-1249 | in every state of every run of honest nodes, under loss, duplication, reordering and injected traffic that is not an announce, a path with h > 1 hops points at a relay whose own path has at most h - 1, and a path with one hop at a host of the destination |
| LoopFreedom.NoLoops | crates/reticulum-node/src/node.rs:1117-1249 | a chain of next hops never meets a node twice and is no longer than the hop count it starts with |
| LoopFreedom.WalkArrives | crates/reticulum-node/src/node.rs:1117-1249 | from every node with a path the chain of next hops reaches a host of the destination |
| LoopFreedom.LoopFree | crates/reticulum-node/src/node.rs:1117-1249 | the three together, for every run |
| Authenticity.KeysGenuine | crates/reticulum-node/src/node.rs:1117-1249 | in every state of every run in which announces come from nodes (other traffic may be injected, announces may not) the key stored with a path is the key of a node hosting that destination |
| Discovery.BindsExactly | crates/reticulum-node/src/node.rs:1117-1195 | an announce changes the path to its destination, and no other path, exactly if the destination is not local, it parses, its signature is good under the key it carries, its random hash is new and its route is preferred; then the path gets that key |
| Discovery.BuiltBindsExactly | crates/reticulum-core/src/announce.rs:81-128 | verification compares no destination with a key: whoever built an announce for a destination, it binds the destination to the builder's key exactly if the destination is not local, the random hash is new and the route is preferred |
| Discovery.AnnounceTaken | crates/reticulum-node/src/node.rs:1117-1195 | from the bytes on the wire, first-hand or relayed: the route learned, the event, what a relay passes on, and that nothing else of the transport state is lost or gained but the seen keys |
| Discovery.AnnounceReaches | crates/reticulum-node/src/node.rs:223-248 | from the host's announce call to a neighbour's one-hop path to the host's key; the host keeps the announce to answer path requests with |
| Discovery.AnnounceHeard | crates/reticulum-node/src/node.rs:1117-1195 | from the bytes on the wire, whoever hears a first-hand announce and has no route it prefers learns a one-hop path to the host's key on the arriving interface, reports it, and as a relay passes it on to every other interface |
| Discovery.PathDiscovered | crates/reticulum-node/src/node.rs:1197-1249 | a path request is understood by the host, answered on the interface it came from with the cached announce, and the answer gives the asking node a one-hop path to the host's key |
| Discovery.PathDiscoveredAtRelay | crates/reticulum-node/src/node.rs:1197-1249 | a relay that learned the announce answers a path request from its cache, and the answer gives the asking node a route through the relay, one hop longer and to the same key; it stays silent exactly if its own route leads through the asking node |
| Delivery.RelayForwardsExactly | crates/reticulum-node/src/node.rs:1251-1285 | exactly when a relay passes a HEADER_2 data packet on: addressed to it, hops below 128, a live route that leaves on another interface, a next hop if more than one hop is left |
| Delivery.NextStop | crates/reticulum-node/src/node.rs:1251-1285 | a message as sent on a current route is addressed to a node that takes it: a host, or a relay strictly closer, with hop count below 128 |
| Delivery.ReceivedByRelay | crates/reticulum-node/src/node.rs:607-664 | from the bytes on the wire, a relay that has not seen the message forwards it on its own route, unchanged but for hops and header, and reports nothing |
| Delivery.PassedOnExactly | crates/reticulum-node/src/node.rs:1251-1285 | in every reachable state a relay with a route passes a new copy addressed to it on exactly if its route leaves on another interface; if it does not, the neighbour the copy came from is closer to the host than the relay |
| Delivery.ReceivedByHost | crates/reticulum-node/src/node.rs:1286-1317 | from the bytes on the wire, the host reports the plaintext sent and, exactly if it proves, answers on the arriving interface with a proof over the same full packet hash the sender stored |
| Arrival.SendTracked | crates/reticulum-node/src/node.rs:284-333 | a message sent on a learned path of 1 to 128 hops is on the wire, heading to a closer node, and if asked for a receipt under the hash its host will prove, with the path's key and the time-out, is stored |
| Delivery.SentParcelReadable | crates/reticulum-node/src/node.rs:284-333 | the key a learned path carries is the sole host's, so only encryption to that host is sent |
| Arrival.InFlightOrReported | crates/reticulum-node/src/node.rs:607-664 | over any run with one host in which nobody forges or resends the message, no last copy of it is lost on its way to a node that has not had it, and no node that had it lowers its hop count: until the host has reported it, a copy from a closest node is on the wire, and advances made plus hops left never exceed the hops at the start; copies, other traffic, refreshed routes and improvements elsewhere are free |
| Arrival.LeadingAdvances | crates/reticulum-node/src/node.rs:607-664 | delivering such a copy brings the message strictly closer than every node that had it, or is the report |
| Arrival.MessageArrives | crates/reticulum-node/src/node.rs:284-333 | over those runs a fresh message sent on a learned path of h hops is reported by its host by its h-th advance, and at the latest when no copy of it is left on the wire |
| Rerouted.DroppedWithoutLoss | crates/reticulum-node/src/node.rs:1117-1285 | the condition on hop counts cannot be dropped: a run of nine steps from a fresh network in which nothing is lost, copied or forged and only the sender once comes closer to the host; the relay the message is heading to then drops it, and it is never reported |
| Rerouted.HypothesesMet | crates/reticulum-node/src/node.rs:1117-1285 | that run exists: a suite of primitives under which the announces and the message have different hashes |
| Receipts.ProofSettles | crates/reticulum-node/src/node.rs:1074-1097 | a proof made by the destination removes the pending receipt of the packet and reports it delivered |
| Receipts.ProofDelivered | crates/reticulum-node/src/node.rs:1074-1097 | the same from the bytes on the wire, on any interface |
| Receipts.DeliveredAtMostOnce | crates/reticulum-node/src/node.rs:284-333 | over every run, a packet hash is reported delivered at most as often as a receipt for it was requested |
| Settlement.ProofsEmitted | crates/reticulum-node/src/node.rs:1286-1317 | a node puts a delivery proof on the wire only of the packet it just received, on the interface it came from, and only if it hosts the destination |
| Settlement.ProofsFromNeighbours | crates/reticulum-node/src/node.rs:628-664 | over every run, a proof on its way to a node was made by a neighbour that hosts the destination, of a packet that came straight from that node: relays pass no proofs on |
| Settlement.CallSettles | crates/reticulum-node/src/node.rs:1074-1097 | a pending receipt is reported only through a proof under its hash, and forgotten otherwise only by a time-out or a new request for it |
| Settlement.SettlesExactly | crates/reticulum-node/src/node.rs:284-333 | if the message reaches its next hop and whatever proof that node answers with reaches the sender in time, the receipt is reported delivered exactly once if the next hop is the host and never if it is a relay; a path of one hop leads to the host, a longer one to a relay unless the host has a path to itself |
| Flood.BroadcastOnce | crates/reticulum-node/src/node.rs:1176-1190 | copies of a broadcast leave on pairwise different interfaces |
| Flood.ExecOnce | crates/reticulum-node/src/node.rs:1137-1190 | a call passes on an announce only if its (destination, random hash) was not heard before, and then in at most one copy per interface, none on the arriving one, with hop counts 1 to 127 |
| Flood.RelayedAtMostOnce | crates/reticulum-node/src/node.rs:1137-1190 | in any run shorter than the path expiry a node passes on one (destination, random hash) at most once |
| Flood.FloodBounded | crates/reticulum-node/src/node.rs:1137-1190 | in a run within one path expiry, from a start where nothing remembered expires sooner, the whole network relays one announce in at most degree times nodes copies, whatever is lost, duplicated or reordered, if no node ever has more than degree interfaces |
| Dedup.LazySweepIsExact | crates/reticulum-node/src/node.rs:120-137 | sweeping at most once a second answers every membership test like sweeping before it |
| Dedup.InboundRemembers | crates/reticulum-node/src/node.rs:607-627 | after an inbound packet exactly the unexpired rest and the processed packet are remembered; a duplicate does not extend its window |
| Dedup.DedupExact | crates/reticulum-node/src/node.rs:607-627 | for every non-decreasing clock, a decoded packet with hops below 128 is processed at t if and only if no packet of equal hash was processed at some s with s <= t < s + 60 |
| LinkEvents.PhaseMeaning | crates/reticulum-node/src/node.rs:515-592 | the phase automaton accepts exactly the traces Established? LinkData* Closed? |
| LinkEvents.EventsInOrder | crates/reticulum-node/src/node.rs:666-828 | over every run that never reuses a link id, the events of each link are in that order |
| LinkEvents.ExecForward | crates/reticulum-node/src/node.rs:417-592 | no call reopens a closed link, and every active entry keeps the key derived from its own ephemeral, the peer's key and the link id |
| LinkEvents.RunKeyed | crates/reticulum-core/src/link.rs:87-100 | in every reachable state every active link has that derived key |
| LinkEvents.ClosedForGood | crates/reticulum-node/src/node.rs:515-592 | a link that is closed at some point of a run is closed at every later point |
| Handshake.LinkIdStable | crates/reticulum-core/src/link.rs:79-85 | the link id of a request does not depend on hops, header type, transport id, propagation, flags or the signalling suffix |
| Handshake.RequestAnswered | crates/reticulum-node/src/node.rs:666-716 | the responder becomes active under the derived key and answers with a proof on the arriving interface |
| Handshake.ProofAccepted | crates/reticulum-node/src/node.rs:718-760 | the proof makes the initiator's link active under the key derived from the responder's ephemeral |
| Handshake.HandshakeAgrees | crates/reticulum-node/src/node.rs:666-760 | a request in any wire form that reaches the host, and its answer, leave both nodes with the link active under one key and both reporting it |
| Handshake.DirectLinkEstablishes | crates/reticulum-node/src/node.rs:417-463 | from the application's call on a live direct path: request, proof and the same derived key active at both ends, each reporting the link once |
| Handshake.TrafficAgrees | crates/reticulum-node/src/node.rs:465-486 | whatever one end of such a link sends the other end reports as the same plaintext, and they stay paired |
| Keepalive.Survives | crates/reticulum-node/src/node.rs:533-561 | with delays of at most 150 s and T + 2R at most 360 s no timed run closes an idle link |
| Keepalive.TooSlow | crates/reticulum-node/src/node.rs:533-561 | beyond T + 2R = 360 s some run closes it |
| Keepalive.DroppedAnswer | crates/reticulum-node/src/node.rs:617-627 | beyond a delay of 150 s a run exists in which the duplicate check drops a keepalive answer |
| Keepalive.SurvivalExactly | crates/reticulum-node/src/node.rs:533-561 | an idle link survives every timed run if and only if R <= 150 and T + 2R <= 360 |
| KeepaliveNodes.PingSent | crates/reticulum-node/src/node.rs:538-556 | a tick sends a link's keepalive exactly when it is due |
| KeepaliveNodes.NodesAreClocks | crates/reticulum-node/src/node.rs:782-793 | two real nodes run exactly the timed runs of the clock model, step for step |
| KeepaliveNodes.IdleLinkSurvives | crates/reticulum-node/src/node.rs:533-561 | the survival result on two nodes |
| KeepaliveNodes.IdleLinkCanDie | crates/reticulum-node/src/node.rs:533-561 | outside the bounds, a run of two nodes in which the initiator's tick closes the link |
| NodeClass.LinkRegistry.SweepOne | crates/reticulum-node/src/node.rs:538-551 | one link of the tick: closed if stale, else marked and due a keepalive if quiet, else unchanged |
| NodeClass.LinkRegistry.Sweep | crates/reticulum-node/src/node.rs:538-561 | the loop over all links in key order gives the registry, keepalives and events of the specification |
| NodeClass.Node.MaybePruneMaps | crates/reticulum-node/src/node.rs:126-137 | the three dedup maps are swept together, at most once a second |
| NodeClass.Node.SetProve | crates/reticulum-node/src/node.rs:335-348 | switches proofs of the first destination with that address if it is SINGLE, and says whether it did |
| NodeClass.Node.SendAnnounce | crates/reticulum-node/src/node.rs:223-248 | the node after an announce and the packet queued |
| NodeClass.Node.RequestPath | crates/reticulum-node/src/node.rs:250-258 | one path request queued per interface, state unchanged |
| NodeClass.Node.SendSingleMessage | crates/reticulum-node/src/node.rs:284-333 | refusal without a live path or next hop, else packet, receipt and hash as specified |
| NodeClass.Node.HandleAnnouncePacket | crates/reticulum-node/src/node.rs:1117-1195 | the whole new state, the queue and the events of an announce equal the specification's |
| NodeClass.Node.HandlePathRequestPacket | crates/reticulum-node/src/node.rs:1197-1249 | likewise for a path request |
| NodeClass.Node.HandleDataPacket | crates/reticulum-node/src/node.rs:1251-1317 | likewise for data, forwarded or delivered |
| NodeClass.Node.HandleDeliveryProof | crates/reticulum-node/src/node.rs:1074-1097 | likewise for a proof of delivery |
| NodeClass.Node.EstablishLink | crates/reticulum-node/src/node.rs:417-463 | likewise for establishing a link; an id is returned exactly on a live path with a next hop if it has more than one hop, and is registered |
| NodeClass.Node.LinkSend | crates/reticulum-node/src/node.rs:465-486 | likewise for link data; refused exactly if the link is not active with a key |
| NodeClass.Node.CloseLink | crates/reticulum-node/src/node.rs:515-523 | closes once and queues one event |
| NodeClass.Node.Tick | crates/reticulum-node/src/node.rs:533-561 | receipts expire, links are swept, queued events are drained |
| NodeClass.Node.HandleLinkRequest | crates/reticulum-node/src/node.rs:666-716 | the whole new state, queue and events of a link request |
| NodeClass.Node.HandleLinkProof | crates/reticulum-node/src/node.rs:718-760 | likewise for a link proof |
| NodeClass.Node.HandleLinkData | crates/reticulum-node/src/node.rs:762-828 | likewise for link traffic, closing included |
| NodeClass.Node.DispatchPacket | crates/reticulum-node/src/node.rs:628-664 | each packet kind goes to its handler |
| NodeClass.Node.HandleInbound | crates/reticulum-node/src/node.rs:607-664 | decoding, hop limit, sweep, dedup and dispatch together equal the function all run results are about |
| NodeClass.Node.PollOutbound | crates/reticulum-node/src/node.rs:260-262 | takes the oldest queued packet and nothing else |
| ResourceWire.ReassembleSplit | crates/reticulum-core/src/resource.rs:65-79 | reassembling the parts gives the data back, for every part size above zero |
| ResourceWire.UnpackPackUpdate | crates/reticulum-core/src/resource.rs:111-135 | a hashmap update survives the wire |
| ResourceWire.UnpackPack | crates/reticulum-core/src/resource.rs:160-249 | an advertisement survives the wire |
| ResourceSafety.StartConsistent | crates/reticulum-node/src/resource_state.rs:188-229 | the receiver starts knowing exactly the first 74 entries of the sender's map |
| ResourceSafety.UpdateStores | crates/reticulum-node/src/resource_state.rs:286-302 | the sender's segment k makes exactly its entries known, with the sender's values |
| ResourceSafety.RunKeeps | crates/reticulum-node/src/resource_state.rs:270-302 | over any arrivals, in any order and number, every known entry and every filled slot is the sender's |
| ResourceSafety.CompleteIsExact | crates/reticulum-node/src/resource_state.rs:320-346 | a complete transfer finalizes to exactly the data sent and the sender accepts the proof |
| ResourceSafety.TransferExact | crates/reticulum-node/src/resource_state.rs:42-346 | the same from the constructor on, after any loss, duplication, reordering and foreign parts |
| ResourceMap.MapAnswer | crates/reticulum-node/src/resource_state.rs:135-156 | the request that names entry 74j - 1 is answered with exactly segment j |
| ResourceMap.PartsAnswer | crates/reticulum-node/src/resource_state.rs:111-134 | a request for known hashes is answered with exactly their parts, in order |
| ResourceMap.SegmentBySegment | crates/reticulum-node/src/resource_state.rs:231-302 | over every run with loss, duplication, reordering and retries the known entries are exactly the first min(74k, n), and every request for more names entry 74j - 1 and is answered by segment j |
| ResourceProgress.RoundAdvances | crates/reticulum-node/src/node.rs:872-1045 | one loss-free round, answers in any order, strictly decreases missing parts plus unknown entries and ends complete or with exactly one new request |
| ResourceProgress.RoundsComplete | crates/reticulum-node/src/node.rs:872-1045 | as many rounds as that measure complete the transfer |
| ResourceProgress.TransferFinishes | crates/reticulum-node/src/resource_state.rs:42-346 | from the advertisement on, two rounds per part and no timer bring exactly the data to the receiver |
| ResourceRetry.AlwaysKept | crates/reticulum-node/src/resource_state.rs:231-361 | after any input, honest or not: window in [2, 75], at most 16 retries, a request only ever sent with map slot 0 known |
| ResourceRetry.AlwaysAsks | crates/reticulum-node/src/resource_state.rs:231-268 | an incomplete receiver that ever asked always has something to ask for |
| ResourceRetry.RetryBudget | crates/reticulum-node/src/resource_state.rs:348-361 | of the due moments the first 16 - retries each send one request, the next ends the transfer, no other does anything |
| ResourceRetry.FilterNeverDiscards | crates/reticulum-node/src/node.rs:1021-1045 | the part that empties the outstanding list resets the retries, so the node's filter on them holds no request back |
| ResourceRetry.EmptyMapNeverMoves | crates/reticulum-node/src/resource_state.rs:188-268 | a resource advertised with an empty map is never requested, retried or given up while only parts and ticks come |
| ResourceTable.OnePartOneTransfer | crates/reticulum-node/src/node.rs:955-1049 | a part is taken by at most one transfer, the accepting one of its link that is first in key order; every other transfer stays as it was; if none accepts it nothing happens |
| ResourceTable.GivenUpExactly | crates/reticulum-node/src/node.rs:562-590 | a tick gives up and removes exactly the transfers whose retry is due after sixteen |
| ResourceTableLaws.CompletedIsExact | crates/reticulum-node/src/node.rs:830-1072 | over every run of a node with other transfers, transfers it starts itself and other traffic, a transfer from an honest sender that is reported complete is reported with exactly the data sent |
| NodeResources.Transfers.SendResource | crates/reticulum-node/src/node.rs:488-513 | refused without an active link's key, without data or with too much; else a sender made under a random hash that passed the collision check is remembered and advertised |
| NodeResources.Transfers.HandleContext | crates/reticulum-node/src/node.rs:830-953 | tables, packets and events of every resource context equal the specification's |
| NodeResources.Transfers.HandlePart | crates/reticulum-node/src/node.rs:955-1049 | likewise for the loop that offers a part to the transfers of its link |
| NodeResources.Transfers.HandleProof | crates/reticulum-node/src/node.rs:1051-1072 | likewise for a proof of transfer |
| NodeResources.Transfers.RetryAll | crates/reticulum-node/src/node.rs:562-590 | likewise for the retry loop of a tick, which asks no link for its status |
| WholeNode.FullNode.HandleInbound | crates/reticulum-node/src/node.rs:607-664 | links and transfers together: the node's effect of a packet, and after it the effect of what the packet is to the transfers, with their packets queued on the link's interface and their events reported |
| WholeNode.FullNode.Tick | crates/reticulum-node/src/node.rs:533-592 | a tick with or without entropy: links swept, receipts expired, transfers retried or given up |
| WholeNode.FullNode.Offer | crates/reticulum-node/src/node.rs:488-513 | a new transfer on an active link, its advertisement sealed and queued |
| WholeNode.RunsAreBoth | crates/reticulum-node/src/node.rs:607-664 | a run of the whole node is a run of the node beside a run of its transfers, with the events of both |
| WholeNode.WholeCompletedIsExact | crates/reticulum-node/src/node.rs:762-1072 | on the whole node, over every run of calls and packets, a transfer from an honest sender that is reported complete is reported with exactly the data sent |
| WholeNode.SentArrives | crates/reticulum-node/src/node.rs:762-828 | what one end of a link sends for a transfer is exactly that at the other end: contexts decrypt to what was sealed, parts and proofs arrive as they are |
| Collisions.NoCollision | crates/reticulum-node/src/resource_state.rs:64-76 | the sliding-list loop finds no collision if and only if entries at most 224 places apart differ |
| Collisions.PickRandom | crates/reticulum-node/src/resource_state.rs:61-80 | the outer loop picks the first random hash that passes |
| Collisions.SmallDistinct | crates/reticulum-node/src/resource_state.rs:61-80 | up to 225 parts passing is the same as pairwise distinct map hashes |
| Collisions.CheckSufficesExactly | crates/reticulum-node/src/resource_state.rs:61-80 | for every n: the check makes the map hashes of n parts pairwise distinct if and only if n is at most 225 |
| Collisions.AnsweredWithFirst | crates/reticulum-node/src/resource_state.rs:111-134 | a request for one index is answered with the part of the first index that has its hash, so with its own index exactly if no earlier entry is equal |
| Collisions.SentExactly | crates/reticulum-node/src/resource_state.rs:111-134 | no request at all gets a part that differs from the first one with its hash; every other part some request gets |
| Collisions.HiddenNeverArrives | crates/reticulum-node/src/resource_state.rs:270-284 | what such a collision does to a transfer: over every run on the sender's answers the slot of that part never holds it, so a transfer that completes has put other parts together than were sent |
| Collisions.SmallResourceAnswers | crates/reticulum-node/src/resource_state.rs:111-134 | for such a resource a request for any parts, in any order and number, is answered with exactly those parts |
| Collisions.SmallTransferExact | crates/reticulum-node/src/resource_state.rs:42-346 | a resource of at most 225 parts made under a random hash that passed the check is received exactly, whatever is lost, duplicated, reordered or added |
| Collisions.SmallTransferFinishes | crates/reticulum-node/src/resource_state.rs:42-346 | and without loss it is received completely, in at most two rounds per part and without a timer |
| ResourceClass.ReassembleParts | crates/reticulum-core/src/resource.rs:72-79 | the loop concatenates the parts |
| ResourceClass.HashMapOf | crates/reticulum-core/src/resource.rs:103-109 | the loop writes the map hash of every part |
| ResourceClass.OutboundResource.New | crates/reticulum-node/src/resource_state.rs:42-109 | refuses empty and oversized data, else builds the specified sender under a random hash that passed the check |
| ResourceClass.OutboundResource.OnRequest | crates/reticulum-node/src/resource_state.rs:111-158 | new state and answers equal the specification's |
| ResourceClass.OutboundResource.OnProof | crates/reticulum-node/src/resource_state.rs:160-168 | completes exactly on the expected proof, and stays complete |
| ResourceClass.InboundResource.NextRequest | crates/reticulum-node/src/resource_state.rs:231-268 | new state and request equal the specification's |
| ResourceClass.InboundResource.OnPart | crates/reticulum-node/src/resource_state.rs:270-284 | new state and acceptance equal the specification's |
| ResourceClass.InboundResource.OnHashmapUpdate | crates/reticulum-node/src/resource_state.rs:286-302 | entries are stored one by one; those before an out-of-range one stay stored |
| ResourceClass.InboundResource.Finalize | crates/reticulum-node/src/resource_state.rs:320-341 | the data or the error of the specification |
| ResourceClass.InboundResource.RetryDue | crates/reticulum-node/src/resource_state.rs:348-361 | new state and request, or the error that ends the transfer with the state unchanged |
| Kiss.FrameBytes | crates/reticulum-interface/src/kiss.rs:10-23 | the loop writes the frame of the specification |
| Kiss.DeframeBytes | crates/reticulum-interface/src/kiss.rs:27-54 | the loop with its escape flag computes the specification |
| Kiss.DeframeExactly | crates/reticulum-interface/src/kiss.rs:10-54 | a byte string deframes to p if and only if it is the frame of p, up to the port nibble of the command byte |
| KissStream.KissStreamDecoder.Push | crates/reticulum-embedded/src/uart.rs:36-89 | one byte takes the state and emits as specified, within the buffer bound |
| KissStream.KissStreamDecoder.PushAll | crates/reticulum-embedded/src/uart.rs:93-107 | a row of bytes emits the packets of the specification in order |
| KissStream.BetweenDelimiters | crates/reticulum-embedded/src/uart.rs:36-89 | between two FENDs the decoder emits p if and only if the batch decoder reads p from that frame and 1 <= length <= max |
| KissStream.StreamDecodes | crates/reticulum-embedded/src/uart.rs:36-89 | on a whole line, from any prior state, after the first FEND exactly the acceptable frames come out in order |
| KissStream.FramesDecode | crates/reticulum-embedded/src/uart.rs:36-89 | packets framed one after the other come out as sent |
| Hdlc.FrameBytes | crates/reticulum-interface/src/hdlc.rs:8-21 | the loop writes the frame of the specification |
| Hdlc.DeframeBytes | crates/reticulum-interface/src/hdlc.rs:25-48 | the loop computes the specification |
| Hdlc.DeframeFrame | crates/reticulum-interface/src/hdlc.rs:8-48 | deframing undoes framing for every packet |
| TcpReader.TcpClientInterface.TakeNext | crates/reticulum-tokio/src/tcp.rs:62-85 | the loop over the buffer yields packet and remaining buffer as specified |
| TcpReader.TcpClientInterface.RecvPacket | crates/reticulum-tokio/src/tcp.rs:45-60 | one receive call over any chunks, the oversized-buffer reset included |
| TcpReader.Reassembles | crates/reticulum-tokio/src/tcp.rs:45-85 | from any buffer in the middle of a stream, exactly the packets still to come are emitted |
| TcpReader.ReaderIsExact | crates/reticulum-tokio/src/tcp.rs:45-85 | for every chunking of frames of non-empty packets with frame length + 4096 at most 524288, exactly those packets come out in order |
| TcpReader.ReceiveAllIsReceive | crates/reticulum-tokio/src/tcp.rs:45-60 | receiving call by call yields the packets of the whole stream |
| Bits.ConstantTimeEq | crates/reticulum-interface/src/ifac.rs:129-137 | folding the differences compares exactly |
| Ifac.MaskInPlace | crates/reticulum-interface/src/ifac.rs:111-127 | the loop masks every byte but the access code, in place |
| Ifac.Apply | crates/reticulum-interface/src/ifac.rs:48-65 | frame or error of the specification |
| Ifac.Strip | crates/reticulum-interface/src/ifac.rs:72-99 | frame or error of the specification |
| Ifac.StripUndoesApply | crates/reticulum-interface/src/ifac.rs:48-99 | strip undoes apply exactly on frames of at least three bytes whose flag bit is clear |
| Ifac.RoundTripExactly | crates/reticulum-interface/src/ifac.rs:48-109 | over all inputs, exactly which frames survive: code size 1 to 64, those frames, total length at most 8160 |
| Ifac.ApplyUndoesStrip | crates/reticulum-interface/src/ifac.rs:48-99 | every wire frame strip accepts is exactly apply of its result |
| Skipper.Cursor.SkipValue | crates/reticulum-lxmf/src/message.rs:204-298 | the recursive cursor walk leaves the position and the error of the specification, in exactly the counted number of calls |
| Skipper.Cursor.SkipValues | crates/reticulum-lxmf/src/message.rs:300-310 | likewise for the loop over counted values |
| Skipper.Cursor.NextBinary | crates/reticulum-lxmf/src/message.rs:193-202 | the binary at the position, or the error |
| Skipper.CallsBounded | crates/reticulum-lxmf/src/message.rs:204-310 | skipping makes at most remaining bytes + 1 calls whatever counts the input declares, and at most one per byte consumed when it succeeds |
| Grammar.SkipExactly | crates/reticulum-lxmf/src/message.rs:204-310 | skipping leaves a rest if and only if the input is one printed MessagePack value, nested less than 64 deep, followed by that rest |
| Grammar.SkipExtends | crates/reticulum-lxmf/src/message.rs:204-310 | what follows a value does not change what is skipped |
| Lxmf.PackBytes | crates/reticulum-lxmf/src/message.rs:61-137 | the buffer written is the packed message, stamped or not |
| Lxmf.Decode | crates/reticulum-lxmf/src/message.rs:148-191 | the cursor walk decodes as specified, errors included |
| Lxmf.UnpackBytes | crates/reticulum-lxmf/src/message.rs:71-104 | message or error of the specification |
| LxmfLaws.UnpackPack | crates/reticulum-lxmf/src/message.rs:61-137 | every valid message survives the wire |
| LxmfLaws.StampChangesNothing | crates/reticulum-lxmf/src/message.rs:106-137 | a stamped message is received with the hash of the unstamped one and verifies exactly if that one does |
| LxmfLaws.BuiltVerifies | crates/reticulum-lxmf/src/message.rs:32-117 | a built message is valid, survives the wire and verifies under its author's key |
| LxmfLaws.UnpackedIsValid | crates/reticulum-lxmf/src/message.rs:71-191 | whatever unpacks is a valid message, and packing and unpacking it again changes nothing |
| LxmfLaws.OnlyTheWhole | crates/reticulum-lxmf/src/message.rs:148-191 | of an accepted message every strict prefix and every extension is rejected |
| Propagation.PackContainerBytes | crates/reticulum-lxmf/src/propagation.rs:78-91 | the loop writes the container |
| Propagation.UnpackContainerBytes | crates/reticulum-lxmf/src/propagation.rs:93-117 | container or error of the specification |
| Propagation.UnpackPackContainer | crates/reticulum-lxmf/src/propagation.rs:78-117 | every container survives the wire |
| Propagation.OnlyTheWholeContainer | crates/reticulum-lxmf/src/propagation.rs:93-117 | of an accepted container every strict prefix and every extension is rejected |
| Stamp.Verify | crates/reticulum-lxmf/src/stamp.rs:59-71 | the target array with one bit set and the comparison compute the specification |
| Stamp.StampWorkblock | crates/reticulum-lxmf/src/stamp.rs:22-44 | the loop builds the workblock, one salted block a round |
| Stamp.StampValueIsZeros | crates/reticulum-lxmf/src/stamp.rs:46-57 | the value is the count of leading zero bits of the 256-bit digest |
| Stamp.AtMostIsLess | crates/reticulum-lxmf/src/stamp.rs:59-71 | byte-wise comparison of equally long arrays is comparison of the numbers they spell |
| Stamp.VerifyExactly | crates/reticulum-lxmf/src/stamp.rs:59-71 | for a 32-byte stamp and cost 1 to 256: accepted if and only if N <= 2^(256 - cost), that is, value >= cost or N = 2^(256 - cost) |
| Stamp.VerifyForAll | crates/reticulum-lxmf/src/stamp.rs:59-71 | for every stamp and every cost: accepted if and only if it has 32 bytes and the cost is 0, or at most 256 with N <= 2^(256 - cost) |
| Stamp.VerifyAntitone | crates/reticulum-lxmf/src/stamp.rs:59-71 | a stamp good for a cost is good for every smaller one |
| Stamp.AcceptedExactly | crates/reticulum-lxmf/src/stamp.rs:73-106 | exactly when a message is accepted: no cost, a matching 16-byte ticket, or a 32-byte stamp with a small enough digest |

## Left out

- Ed25519, X25519, HKDF, AES, HMAC, SHA-256, bz2 and the `rmp` library: foreign code, parameters with the laws above; the MessagePack encodings used are written out.
- LoopFreedom.RoutesBacked: assumes that no path expires at a clock reading of the run and that transport is not switched off; beyond that nothing is claimed about routes.
- Arrival.MessageArrives: assumes one host for the destination; that while the message is under way nobody injects or resends a packet with its hash, and no last copy is lost on its way to a node that has not had it; that no node that had the message lowers its hop count; and what `LoopFreedom.RoutesBacked` assumes. The condition on hop counts is sufficient, and `Rerouted.DroppedWithoutLoss` shows it cannot be left out; exact for one hop is `Delivery.PassedOnExactly`.
- Authenticity.KeysGenuine: injected announces are not part of its runs; what a single one does is `Discovery.BuiltBindsExactly`.
- Settlement.SettlesExactly: assumes one host, that nobody injects the message or a proof of it, and that the sender neither sends the message nor asks for the receipt again.
- Shortest paths: the first copy of an announce wins, since its random hash is remembered before the route is compared, so no minimality is claimed.
- NodeClass.Node.HandleLinkData: a resource packet on a link only refreshes the link here; what it does to the transfers is added in `WholeNode.FullNode`.
- NodeClass.Node.DispatchPacket: a proof of transfer goes to no handler here; `WholeNode.FullNode.HandleInbound` passes it to the transfers.
- NodeClass.Node.HandleInbound: without the transfers, which `WholeNode.FullNode.HandleInbound` adds.
- NodeClass.Node.Tick: without the retry loop, which `WholeNode.FullNode.Tick` adds.
- WholeNode.FullNode.HandleInbound: what a packet is to the transfers is read off before the links are updated, where the source reads it on the way through one handler; the state, the queue and the events are the same.
- ResourceTable.OnePartOneTransfer: progress is proved for a transfer by itself; in a table another transfer of the same link that comes first may take a part.
- ResourceProgress.TransferFinishes: termination of the sender's search for a random hash depends on the entropy source; `Collisions.PickRandom` states what holds when it ends.
- Lxmf.PackBytes: assumes title, content and stamp shorter than 4 GiB, where the library's length fields end.
- Stamp.StampWorkblock: assumes a 64-bit address space, where 256 bytes per 32-bit round count cannot overflow.
- Announces.BuiltIsVerified: a malformed public key and a wrong signature are one error in the model.
- Sending to GROUP and PLAIN destinations, and the name hashing of registration: easy variants of what is modelled; receiving them is modelled.
- The status `Handshake` of a link: never constructed by the code.
- The order of equal keys in maps: maps iterate in lexicographic key order, as the source's ordered maps do; the outbound queue of a node and the wire are one multiset in `Network`.
- Saturating arithmetic at the end of the 64-bit clock and 8-bit hop counter: times are unbounded, hop counts are shown to stay below the limit.
- Floating point: an LXMF timestamp is its eight bytes with the finiteness test on the exponent bits.
- Tokio, embassy and FFI drivers, UDP, serial and auto interfaces, CLI, TUI, configuration and identity files: plumbing around the node.
- Transfer progress is reported as two counts instead of a fraction.
- `LxmfRouter` and propagation encryption: thin compositions of modelled parts.
