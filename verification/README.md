# Verification of dvactor's messaging core

A Dafny model of the parts of dvactor that carry messages between the nodes of an actor cluster, with proofs.

- **The link**: `RingBuffer` (growable circular array), `Queue` and `QueueMachine` (the closable queue, first as an
  object, then as any number of goroutines over a mutex and a condition variable), `Packet` and `Splitter` (the frame
  format on values, then on Go slices), `Link` (all of it from SendMessage to onMessage), `LinkProgress` (that a link
  left alone stops), `LinkCalls` (from the calls of SendMessage to the deliveries).
- **The watch proxy**: `WatchProxy` (nested maps edited in place, refining a flat set of subscriptions), `ProxyName`.
- **Placement and routing**: `Hashing`, `Placement`, `Routing`.
- **The codec**: `Registry` (message types), `Codec` (nine kinds of envelope).
- **The cluster connections**: `Topology` (who dials whom), `Cluster` (handlers, clients and the shared counter, one
  atomic action at a time), `ClusterCounter` (when the counter is the number of connected systems), `ClusterClients`
  (the reconnect loop), `ClusterSessions` (what becomes of a session whose connection ends).
- `EndToEnd` puts the codec on top of the link. `Basics`, `Actors`, `Bits` and `Counting` hold shared types, actor
  references, exclusive or, and sums over sequences.

`dafny verify dfyconfig.toml` checks the project.

Objects that the code updates in place are classes; loops that update variables are methods proved against functions.
Code that several goroutines run is a step relation whose runs are arbitrary interleavings. What is known of vactor is
taken as follows: system ids, actor types, watch types, callback ids and message type ids are 32-bit, group slots
16-bit, error codes int32, with vactor.ErrorCodeCustomStart 100 and vactor.ActorTypeStart 10 where a number is needed;
numeric types print as plain decimal; CreateActorRef is CreateActorRefEx with system 0.
SystemConfigs has distinct ids and contains the local one (Topology) and fewer than 2^32 declarations of a type
(Placement). proto.Marshal and proto.Unmarshal are parameters with the law that the second undoes the first.

Where the documents and the code disagree, the model follows the code: docs/engine.md and docs/protocol.md say that a
message id is truncated to one byte, while PackMessage returns an error; docs/proxies.md says that parsing a proxy name
depends on dashes in the id, while every id comes back. Some promises do not hold of the code as one might read them:
the result of a multi-target Router call can be nil although a send failed (`Routing.FailureHidden` is such a case;
`HidesOnlyMixed` and `FailuresReported` say exactly when it cannot be), and a registered session need not be a live
connection: after an OnMessage error the queue is closed locally, OnDisconnect is suppressed, and the peer can never
register again (`ClusterSessions.StaleHappens` is such a run, `EndedSessions` says exactly when it happens,
`StaleForever` that it lasts). The register handler refuses unknown and passive systems, and the local system is
neither, so a request with the local id is counted too (`ClusterCounter.SelfRegisters`; `CountsOnlyWithoutServer` and
`OthersAskCounterLaw` say when the counter is exact).

## Model

| member | source | states |
|---|---|---|
| `RingBuffers.GrowthBounds` | engine/queue/imp/ring/ring_buffer.go:28-76 | over any run of pushes, batches, pops and clears, capacity is at most max(initial size, 2*(peak count - 1)), and all doublings together copy no more slots than the capacity has gained |
| `RingBuffers.BatchIsRepeatedPush` | engine/queue/imp/ring/ring_buffer.go:49-76 | a batch leaves the items and the capacity that pushing its elements one at a time leaves, with no more slots copied |
| `RingBuffers.RingBuffer.constructor` | engine/queue/imp/ring/ring_buffer.go:14-25 | a new buffer is empty, has the given size and holds zero values |
| `RingBuffers.RingBuffer.CopyTo` | engine/queue/imp/ring/ring_buffer.go:31-37 | both copying branches put the items, in order, at the start of the new slice; an empty buffer copies every slot |
| `RingBuffers.RingBuffer.Grow` | engine/queue/imp/ring/ring_buffer.go:29-42 | a doubling keeps the sequence at every wrap-around position |
| `RingBuffers.RingBuffer.Push` | engine/queue/imp/ring/ring_buffer.go:28-47 | appends one item, doubling first when full; free slots stay zeroed |
| `RingBuffers.RingBuffer.PushBatch` | engine/queue/imp/ring/ring_buffer.go:50-76 | appends all items in order after reserving room; the doubling loop ends |
| `RingBuffers.RingBuffer.Pop` | engine/queue/imp/ring/ring_buffer.go:80-90 | removes and returns the first item, or reports that there is none; the slot is zeroed |
| `RingBuffers.RingBuffer.PopAll` | engine/queue/imp/ring/ring_buffer.go:126-141 | returns the whole sequence in order and leaves an empty, zeroed buffer |
| `RingBuffers.RingBuffer.Peek` | engine/queue/imp/ring/ring_buffer.go:145-151 | returns the first item without removing it |
| `RingBuffers.RingBuffer.GetAll` | engine/queue/imp/ring/ring_buffer.go:181-193 | returns the whole sequence in order and changes nothing |
| `RingBuffers.RingBuffer.Clear` | engine/queue/imp/ring/ring_buffer.go:174-178 | empties the buffer; nothing is promised about the slots |
| `Queues.Section` | engine/queue/imp/ring/queue.go:30-149 | a send is refused exactly on a closed queue and otherwise accepts all it offers and notifies by Broadcast for several items, Signal for one; receives take the first item or all; a blocking receive waits exactly when open and empty and fails exactly when closed and empty, the others answer false exactly on an empty queue, the batch form only when it is closed; items are conserved in order |
| `Queues.Queue.SendSection` | engine/queue/imp/ring/queue.go:30-43 | the locked part of Send on the ring buffer does what Section says |
| `Queues.Queue.BatchSendSection` | engine/queue/imp/ring/queue.go:47-64 | the same for BatchSend, with Broadcast for several items, Signal for one, nothing for none |
| `Queues.Queue.ReceiveSection` | engine/queue/imp/ring/queue.go:68-103 | the same for one pass through the wait loop of Receive and ReceiveBatch |
| `Queues.Queue.TryReceiveSection` | engine/queue/imp/ring/queue.go:107-137 | the same for TryReceive and TryReceiveBatch, with their different answers on an empty open queue |
| `Queues.Queue.CloseSection` | engine/queue/imp/ring/queue.go:140-149 | the same for Close; the notify channel is closed exactly with the flag |
| `QueueMachine.NoLostWakeupKept` | engine/queue/imp/ring/queue.go:30-103 | every atomic action keeps: with items buffered and a receiver parked, a broadcast is pending or pending signals plus woken receivers that have not rechecked are at least as many as the items |
| `QueueMachine.CloseWakesKept` | engine/queue/imp/ring/queue.go:140-149 | every atomic action keeps: once closed, nobody is parked except while Close is about to broadcast |
| `QueueMachine.FailuresFinalKept` | engine/queue/imp/ring/queue.go:68-103 | every atomic action keeps: a blocking receive that has reported false did so on a closed and empty queue, which stays so |
| `QueueMachine.EveryRunSafe` | engine/queue/imp/ring/queue.go:30-149 | in every state of every interleaving of any number of goroutines: mutual exclusion, the wake-up invariant, the close invariant, final failures, and accepted = removed + buffered |
| `QueueMachine.QuietMeansServed` | engine/queue/imp/ring/queue.go:68-103 | when every goroutine is outside the queue or parked, a parked receiver means an open and empty queue |
| `QueueMachine.SomeoneCanMove` | engine/queue/imp/ring/queue.go:30-149 | no deadlock: unless the queue is at rest, some goroutine can take a step without a new call |
| `QueueMachine.WaitersGetServed` | engine/queue/imp/ring/queue.go:30-149 | without new calls every schedule ends within a bound, and it can only end at rest with no receiver missing an item or the close |
| `QueueMachine.RefinesFifo` | engine/queue/imp/ring/queue.go:30-149 | every step of every goroutine is an accept, a removal from the front, a close, or no change of a closable FIFO |
| `QueueMachine.ClosedFreezes` | engine/queue/imp/ring/queue.go:34-37 | from a closed state on nothing more is accepted, it stays closed, and what was buffered is what is removed later plus what is still buffered, in order |
| `QueueMachine.SendAnswers` | engine/queue/imp/ring/queue.go:30-64 | in every run a send that has its answer ran one locked section, which accepted all it offered if the answer is true, on a closed queue and nothing if it is false |
| `QueueMachine.TakeAnswers` | engine/queue/imp/ring/queue.go:68-137 | in every run a receive that has its answer removed exactly the values it returns in one locked section of its own, with true exactly for a value or for TryReceiveBatch on an open queue |
| `Packets.LengthRoundTrip` | engine/net/connect/packet.go:21-43 | a length below 2^32 survives the big-endian header |
| `Packets.PacketFormat` | engine/net/connect/packet.go:15-25 | message ids above 255 are refused and no others; a packet is the length in four bytes, most significant first, the id, and the payload |
| `Packets.WrapsExactly` | engine/net/connect/packet.go:39-44 | what counts as a wrap-around: one of the two uint32 computations differs from the exact one |
| `Packets.NextCutsOne` | engine/net/connect/packet.go:38-55 | Next on a buffer that agrees with a packed message: not yet while it is short, then exactly that message and the rest, and no wrap-around |
| `Packets.PanicsExactly` | engine/net/connect/packet.go:38-54 | Next panics if and only if the header is complete and its length field is 2^32 - 5 or more |
| `Packets.ChunkingIndependence` | engine/net/connect/packet.go:33-55 | payloads of at most 2^32 - 4101 bytes, cut into any chunks of at most 4096 bytes and drained after each: exactly the messages in order, a proper prefix of the next frame left, no uint32 wrap |
| `Packets.ExactBound` | engine/net/connect/packet.go:38-48 | payloads up to a limit are cut correctly under every such chunking if and only if the limit is at most 2^32 - 4101 |
| `Packets.OneByteMoreStalls` | engine/net/connect/packet.go:39-47 | with one payload byte more there is a chunking after which a complete first frame is in the buffer and nothing is emitted |
| `Splitters.PacketSplitter.Append` | engine/net/connect/packet.go:33-35 | appends a copy of the bytes, in place or after reallocation, and every payload handed out keeps its bytes |
| `Splitters.PacketSplitter.Next` | engine/net/connect/packet.go:38-55 | on memory, Next does what NextFrame does on values; the payload aliases the buffer, with its spare capacity over the bytes not yet cut, and every earlier payload keeps its bytes |
| `Splitters.PacketSplitter.ReceiverWrites` | engine/net/connect/packet.go:49-53 | a receiver that writes within its payload leaves the unread buffer alone; one that appends to it in place overwrites the next frames with what it appends |
| `Splitters.PacketSplitter.OnData` | engine/net/client/client.go:57-66 | the drain loop delivers exactly Drain of the old buffer and the new bytes, and ends |
| `Splitters.PacketSplitter.CallerWrites` | engine/net/connect/packet.go:32-35 | nothing the caller writes into its own read buffer changes the buffer or a payload |
| `Links.PackedIsPacket` | engine/net/connect/packet.go:15-25 | a frame that PackMessage accepts determines its message id and payload |
| `Links.QueueStepKeeps` | engine/net/connect/socket/conn.go:77-84 | any goroutine's queue step keeps the byte accounting: only the sender takes packets, and it is handed what was removed |
| `Links.WriteKeeps` | engine/net/connect/socket/conn.go:84-91 | partial writes and failing writes keep the byte accounting |
| `LinkCalls.CallsAreLogged` | engine/net/client/client.go:70-80 | in every run the queue has accepted exactly the arguments of the SendMessage calls that ran their locked section before any Disconnect did, in that order, and is closed exactly after a Disconnect; a goroutine is in the queue exactly during its call, and SendMessage succeeds exactly when its message is in the log |
| `LinkCalls.PrefixDelivery` | engine/net/connect/socket/conn.go:38-93 | over every interleaving of SendMessage, Disconnect, partial and failing writes and arbitrary reads, onMessage has been given a prefix of the messages that SendMessage was called with successfully, all of them once drained without a write error, and a link at rest, closed or not, is drained |
| `Links.ReceiverRun` | engine/net/connect/socket/conn.go:54-66 | the read loop over one reused array delivers Feed of the chunks, with every payload intact at the end |
| `Links.WritePacket` | engine/net/connect/socket/conn.go:84-91 | the inner write loop takes what the results of Write say, writes the whole packet or stops at the first failure, which may itself have taken bytes, and is a sequence of the link's Write and WriteFails actions |
| `LinkProgress.FinishedIsDrained` | engine/net/connect/socket/conn.go:54-93 | no stall: a link without failures in which no goroutine can move, no byte can be written and none read is at rest with nothing left in queue, hand or wire |
| `LinkProgress.WorkShrinks` | engine/net/connect/socket/conn.go:54-93 | every step of the queue, the sender, a non-empty write or a non-empty read decreases one measure |
| `LinkCalls.EverythingArrives` | engine/net/connect/socket/conn.go:38-93 | left alone from any moment of any run, a link stops within a bound whatever the schedule, and when it has stopped without failures no call is under way and onMessage has been given every message sent successfully, in order, with nothing left over |
| `LinkCalls.FailuresAreFinal` | engine/net/connect/socket/conn.go:57-91 | in every run nothing more is given to onMessage after a failed Read, and nothing more is written after a failed Write or a Dequeue that returned false |
| `WatchProxies.UpstreamFollowsSubscribers` | watch_proxy.go:94-169 | over any run: upstream calls alternate per type starting with Watch, their replay is exactly the set of watched types, and the stop interval is 0 while any subscriber exists and 10 seconds after the last one goes |
| `WatchProxies.NotifyUnwatches` | watch_proxy.go:48-90 | a notification issues one Unwatch if and only if it removed the last subscriber of its type, and no other upstream call |
| `WatchProxies.With` | watch_proxy.go:106-114 | subscribing adds exactly one entry and leaves no empty inner map |
| `WatchProxies.Without` | watch_proxy.go:116-124 | unsubscribing removes exactly one entry and drops an inner map that becomes empty |
| `WatchProxies.WatchProxy.constructor` | watch_proxy.go:16-21 | a new proxy has no subscriber and has made no call |
| `WatchProxies.WatchProxy.IsWatch` | watch_proxy.go:94-101 | true exactly when some queue or actor subscribes to the type |
| `WatchProxies.WatchProxy.UpdateInnerWatch` | watch_proxy.go:103-136 | the nested maps and the context calls refine adding or removing one (type, actor) pair |
| `WatchProxies.WatchProxy.UpdateOuterWatch` | watch_proxy.go:138-169 | the same for one (type, queue) pair |
| `WatchProxies.WatchProxy.ToQueues` | watch_proxy.go:49-59 | ranging over a map that is being edited offers the message once to every queue of the type and removes exactly the refusing ones |
| `WatchProxies.WatchProxy.ToActors` | watch_proxy.go:60-70 | one batch with the received message to every actor of the type, each once, or no call when there is none |
| `WatchProxies.WatchProxy.FanOut` | watch_proxy.go:48-90 | what is added to the log of deliveries: each accepting queue of the type exactly once with the content, one batch from the watchee with the received message in which each actor of the type stands exactly once, and nothing else |
| `WatchProxies.WatchProxy.OnMessage` | watch_proxy.go:40-92 | after any sequence of messages the proxy is the flat hub that sequence leads to; a subscription changes one pair, a notification or event removes exactly the refusing queues; accepting queues are handed a notification from the proxy's watchee or the event itself, actors one batch with the received message, each exactly once and nobody else; at most one upstream call, about the message's type |
| `Hashing.HashLoop` | router.go:51-57 | the byte loop over four lanes computes the hash |
| `Hashing.LanesAreXorOfWords` | router.go:51-57 | the lanes are the XOR of the right-aligned big-endian 32-bit words of the id |
| `Bits.XorUndoes` | router.go:55 | the operation is exclusive: a second XOR undoes the first |
| `Hashing.RepeatedTailCancels` | router.go:51-57 | an id whose tail of whole words is repeated hashes like the id without both |
| `Hashing.HashOfConcatenation` | router.go:51-57 | hash(a+b) is hash(a) rotated left by 8*(len(b) mod 4) bits, XOR hash(b) |
| `Hashing.RotationOfNumbers` | router.go:57 | rotating the four bytes is rotating the uint32 |
| `Hashing.XorOfNumbers` | router.go:55-57 | XOR of the four bytes is XOR of the uint32 |
| `Hashing.ShortIdHash` | router.go:51-57 | on ids of at most four bytes the hash is the big-endian number |
| `Placement.Router.constructor` | router.go:22-36 | the table lists, for every type, the systems that declare it, in list order |
| `Placement.DeclaringIsDeclared` | router.go:30-34 | a system is listed for a type if and only if it declares it |
| `Placement.DeclaringInOrder` | router.go:30-34 | declaring systems stand in list order |
| `Placement.DeclaringOne` | router.go:31-33 | a system is listed as often as it declares the type |
| `Placement.PlacedByHash` | router.go:59-74 | for every q and r with hash = q*n + r and r < n the actor is on the r-th declaring system and its slot follows q |
| `Placement.Router.CreateActorRefEx` | router.go:45-76 | with q and r the quotient and remainder of the hash by the number of declaring systems, the reference is on the given system, or the r-th declaring one, or at home when none declares the type; its slot is one more than the low 16 bits of q, with 0xFFFF on slot 1 |
| `Placement.PlacementAgreement` | router.go:52-66 | two nodes with the same SystemConfigs build the same reference if and only if the system is given, the type is declared somewhere, or they are the same node |
| `Placement.PlacedWhereDeclared` | router.go:59-66 | a declared type with no given system goes to a system that declares it |
| `Placement.GroupSlotLaw` | router.go:67-74 | the slot is never 0, independent of node and given system, one more than the quotient's low 16 bits, except that 0xFFFF shares slot 1 with 0 |
| `ProxyNames.ParsesExactly` | router.go:10-20 | a name parses to (type, id) if and only if it is leading zeros followed by the printed name |
| `ProxyNames.PrintedNames` | watch_proxy.go:13 | two printed names, byte by byte |
| `ProxyNames.NameRoundTrip` | watch_proxy.go:12-14 | every 32-bit type and every id, dashes included, come back from the printed name |
| `ProxyNames.ProxiesAreDistinct` | watch_proxy.go:12-14 | two watchees share a proxy if and only if type and id agree; the proxy is on the node itself |
| `ProxyNames.RebuiltWatchee` | router.go:10-20 | the watchee rebuilt from the name is the original if and only if the original lives where the hash places it |
| `Routing.GroupBySystem` | router.go:82-86 | groups hold, per target system, its targets in order |
| `Routing.OnKeepsOrder` | router.go:83-86 | dividing the targets by system keeps their order |
| `Routing.Route` | router.go:78-98 | what is sent: one envelope to each remote system that has a target and none to others, one locally if and only if a target is local, each with its own system's targets in order and nothing else changed, together all targets; the result is the error of the last remote send |
| `Routing.TargetsConserved` | router.go:117-139 | in whatever order the map is ranged over, every target, duplicates included, is in exactly one of the local and remote envelopes, the one for its system; Route states the same of what it has sent |
| `Routing.ErrorIsReal` | router.go:93-97 | a non-nil result comes from a remote send that failed |
| `Routing.HidesOnlyMixed` | router.go:87-98 | for given outcomes of the remote sends: "if a send fails, an error is returned in every map order" holds if and only if the remote sends all succeed or all fail |
| `Routing.FailuresReported` | router.go:81-98 | before the call: whatever the sends will do, that promise holds if and only if the targets are on at most one remote system |
| `Routing.FailureHidden` | router.go:117-139 | a concrete case at two remote systems: the first send fails, the second succeeds, and Router returns nil |
| `Registries.System.RegisterMessageType` | system.go:81-92 | the two maps follow the history of registrations |
| `Registries.Marshal` | system.go:94-117 | exactly which values can be marshalled and which error each other one gets; the type field is the id registered last, the first four bytes of the data repeat it, the rest is the coded body |
| `Registries.Unmarshal` | system.go:119-133 | refused exactly when shorter than four bytes, when the id has no creator, or when the body does not decode; otherwise a message of the created type with the decoded body |
| `Registries.MessageRoundTrip` | system.go:94-133 | a marshalled message comes back if and only if its type's id creates that type |
| `Registries.CoherentTypes` | system.go:81-92 | under any registrations that holds exactly for types whose last id was last registered for that type |
| `Registries.ReusedIdLosesType` | system.go:90-91 | a concrete history where a reused id loses the earlier type |
| `Registries.System.MarshalBatch` | cluster_net.go:169-177 | the loop keeps the messages that can be marshalled, in order |
| `Registries.System.UnmarshalBatch` | cluster_net.go:331-339 | the loop keeps the messages that can be unmarshalled, in order |
| `Registries.BatchRoundTrip` | cluster_net.go:168-339 | a batch comes back as its order-preserving filter if and only if all the types it carries are coherent |
| `Registries.FiltersKeepOrder` | cluster_net.go:169-177 | the marshallable messages of a batch keep their order |
| `Registries.UnmarshalKeepsOrder` | cluster_net.go:331-339 | the unmarshallable messages of a batch keep their order |
| `Registries.FiltersOnOne` | cluster_net.go:169-177 | a single message is kept exactly when it can be marshalled or unmarshalled |
| `Codec.Encode` | cluster_net.go:152-300 | the package has the kind of its envelope, and which error code each failure gives |
| `Codec.EncodeDescribes` | cluster_net.go:152-300 | every field of the package comes from the envelope: refs field by field, messages, error code, callback, request, watch and notify fields |
| `Codec.Decode` | cluster_net.go:308-490 | every field of the envelope comes from the package, nil for an absent answer and for code 0; refused exactly when its one message cannot be unmarshalled |
| `Codec.OnMessage` | cluster_net.go:308-490 | an unknown message id is ignored without error, and a known one fails exactly when the package or its message does not decode |
| `Codec.WireIds` | protocol/cluster.pb.go:77-86 | the message id of each kind of envelope |
| `Codec.Encodable` | cluster_net.go:152-306 | exactly which envelopes Send encodes |
| `EndToEnd.EnvelopesArriveInOrder` | cluster_net.go:301-320 | over every run of a connection the k-th envelope sent successfully is the k-th one routed on the other node, if and only if the types it carries are coherent, and it has arrived once the link is drained or at rest |
| `Codec.EnvelopeRoundTrip` | cluster_net.go:152-490 | each of the nine kinds that Send encodes is rebuilt equal by OnMessage if and only if the types it carries are coherent; errors by code |
| `Codec.VisibleIsSame` | error.go:19-24 | what the other node sees is the envelope itself, except that a batch loses what cannot be marshalled and an error with code 0 becomes nil |
| `Cluster.DeltaIsFlag` | cluster_server.go:32-76 | inside a lock, a handler changes the counter exactly when its peer starts or stops being counted |
| `Cluster.ClientDelta` | cluster_client.go:34-90 | a client changes the counter exactly when it starts or stops being counted, and info.cli is set exactly from before its +1 to before its -1 |
| `ClusterClients.CliNeedsSuccess` | cluster_client.go:61-75 | in every run info.cli of a client is set only after it has taken a `true` from its response channel in the same round |
| `ClusterClients.RefusalStartsOver` | cluster_client.go:61-71 | a client that gets any other answer starts over with info.cli and the counter unchanged |
| `ClusterClients.GoesThroughLoop` | cluster_client.go:34-90 | a run through the whole loop: ready with the counter at 2, disconnected, back at the start with the counter at 1 |
| `Cluster.ActKeeps` | cluster_server.go:23-79 | every atomic action of every handler and client, a register request for any id included, keeps the lock, session and counter invariants |
| `Cluster.CounterLaw` | cluster_net.go:83-125 | at every step the counter is the number of counted systems plus one while a connection is registered under the local id; without such a registration the exit test passes if and only if all systems are counted, and it passes with one missing if and only if there is one; a counted system is connected unless its decrement is due |
| `ClusterCounter.OthersAskCounterLaw` | cluster_client.go:52-54 | while no register request names the local system, the counter is the number of counted systems, within systemCount, and the exit test passes if and only if all are counted |
| `ClusterCounter.CountsOnlyWithoutServer` | cluster_server.go:41-57 | whatever is requested, the counter is the number of counted systems in every run if and only if the node is the last of the list, which runs no server |
| `ClusterCounter.SelfRegisters` | cluster_server.go:41-57 | on every node with a server, a run in which a connection registers under the local id and the counter is 2 with no other system counted or connected |
| `ClusterSessions.OwnersHold` | cluster_server.go:32-65 | with one register request per connection, info.session names a connection exactly when that connection's own state says so |
| `ClusterSessions.NoTakeover` | cluster_server.go:58-63 | in every run a registered session is replaced by nothing but nil |
| `ClusterSessions.RefusedIsClosed` | cluster_server.go:60-62 | a connection whose request finds its system registered is closed before it reads again, and stays closed |
| `ClusterSessions.LocalCloseSilences` | engine/net/connect/socket/conn.go:59-63 | a connection closed locally before it breaks never has OnDisconnect called |
| `ClusterSessions.RegistersAndLeaves` | cluster_server.go:23-40 | a run in which a system registers, its connection breaks and OnDisconnect takes the registration away |
| `ClusterSessions.EndedSessions` | engine/net/connect/socket/conn.go:58-72 | an ended connection is still registered, at any later time, if and only if at its break it was registered and its queue was already closed, which is the test that suppresses OnDisconnect |
| `ClusterSessions.EndedHasBroken` | engine/net/connect/socket/conn.go:54-75 | every ended connection has such a break, a step from reading to ended or to OnDisconnect |
| `ClusterSessions.StaleHappens` | cluster_server.go:104-111 | a run with one register request in which a rejected message closes the session locally and its broken connection stays registered and counted |
| `ClusterSessions.StaleForever` | cluster_server.go:58-65 | an ended connection that is still registered stays registered for good |
| `Topology.ClusterNet.Orient` | cluster_net.go:17-29 | exactly the systems before the local one are passive |
| `Topology.ClusterNet.Start` | cluster_net.go:83-105 | a server unless last, a client for exactly the systems before the local one |
| `Topology.StartNode` | cluster_net.go:16-105 | a node built and started from the list has the role its position gives it |
| `Topology.FullMesh` | cluster_net.go:16-105 | of two nodes exactly the later one dials, the other listens and accepts it and would not be accepted; doSend looks only at cli on the dialler's side and only at session on the other |
| `Topology.DoSendFollowsHandshake` | cluster_net.go:127-150 | in every reachable state of a node, the clients it started fill cli only for the systems doSend reads cli for, register handlers fill session only for those it reads session for, and doSend to a listed system returns nil if and only if that system is linked and its link takes the message |
| `Topology.DoSendNeedsKnownSystem` | cluster_net.go:127-130 | doSend returns at all if and only if the target's system is in the list; otherwise it dereferences nil |

## Left out

- Sockets, dialling, keep-alive, sleeps, logging, real time and ConnectTimeout: nondeterministic steps or nothing.
- Protobuf encoding and protocol/cluster.pb.go: a coding with the inverse law; a package that proto.Marshal rejects is an error.
- vactor itself (LocalRouter, Watch, Unwatch, SetStopInterval, Queue.Enqueue): logs of calls and oracles for answers.
- Queue.Len, IsClosed and NotifyClose, RingBuffer.Size, IsEmpty, IsFull: read one field.
- The order in which Signal picks a waiter: any waiter may be picked.
- Contents of the two values of Receive on a closed queue: the zero value is an empty list here.
- Router's single-target branches (Watch, OuterWatch, OuterRequest, default) and request_proxy.go: one call each.
- session/sessionMgr.go: a map from ids to sessions. engine/net/server/server.go drains its splitter as client.go does.
- Frames that PackMessage did not build: a length field of 2^32 - 5 or more makes Next wrap and panic (Packets.PanicsExactly); nothing is promised after it, nor about which messages other such bytes are cut into.
- In-place form of the codec: Send and OnMessage are functions on values; only their loops over batches are methods.
- Aliasing of the proxy's inner maps: they are values here, so an inner map that is detached while it is ranged over is an empty one.
- Eventual connection and reconnection: the connection results are safety properties only.
- Splitters.PacketSplitter.ReceiverWrites: says nothing about the other payloads already handed out; that payloads stay stable assumes receivers that only read, as cluster_net.go does.
- Watches after a reconnect: the code does not renew them (todo.md).
- Cluster.CounterLaw: does not say that a counted client was acknowledged by the current connection, because registerResponseChan is not drained between attempts and may hold an old answer.
- ClusterSessions.EndedSessions: assumes one register request per connection, which is what cluster_client.go sends; Cluster.CounterLaw assumes nothing about how many requests come or which ids they name.
