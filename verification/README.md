# GemSc: protocols and schedulers, proved

GemSc is an event-driven simulator of hardware. This project models the parts of it that are
protocols or state machines and proves what they keep over whole runs.

**The mesh network.** A router (`src/noc/router_sc.cc`) has two clocked processes: one takes a flit
from each input that offers one, queues it at the output its destination asks for and acknowledges
it; the other offers the head of each output queue and removes it when it is acknowledged. Signals
are registered, so one link is a three-state machine. `RouterLink` proves that it is a FIFO;
`XYRouting` that the routing function reaches every destination in as many hops as the distance and
cannot deadlock; `MeshBuilder` that the generator of `python/noc_builder.py` makes the links it
should; `Router` has the two processes as methods on arrays and signals. `Network` clocks a mesh of
any height, under any traffic and any order of the processes in an edge. Its main theorem is
end-to-end: exactly once, in order, nowhere else. `Drain` adds the time: three cycles per remaining
hop after injection stops. `Fairness` is about traffic that never stops: no flit starves.

**The virtual-channel link.** `VcLink` is the link between a `DownstreamPort` and an `UpstreamPort`
as a state machine; `Ports` has the classes, each method tied to it. What the receiving side gets on a
channel is, in every interleaving, a prefix of what the sending side accepted. `VcLaws` says, in
lengths and counts, when a send is refused, where an accepted packet goes, how fast an accepting owner
empties a channel, and what each counter counts.

**The scheduler.** `Events` is the event queue over any deterministic heap, `Ticks` the objects that
reschedule themselves: order, completeness, termination, running in pieces, one tick per object and
cycle, and that a run does what the handlers do along the events it fires, no more and no less.

**Smaller cores.** `Flits` (the two segmentation loops), `CreditPool` (the pool of
`DESIGN_creditstream.md`; `CreditQueue` for the streams that wait), `PoolBooks` and `PacketPool` (the allocator), `JsonIncluder` (include
expansion), `Crossbar` (the retry queue). `Basics` holds what they share.

## Where the code does not do what it is for

The model follows the code. Each of these is a lemma; where the code is right under a condition, the
lemma gives that condition exactly, and where it takes a history to fail, another gives such a run.

- A tick of a `DownstreamPort` never forwards a waiting packet. `OutputVC::trySend` calls the virtual
  `sendReq`, which finds the channel busy with the very packet it is given and puts it at the back.
  `DESIGN_port.md:157-161` and `DESIGN_port.md:240` describe a retry that forwards. Once a channel has
  begun to wait it never delivers again (`OnceWaitingNeverDrains`, and `WaitingPacketIsNotForwarded`
  for a run); the retry agrees with the one described exactly when nothing waits
  (`RetryIsPlainExactly`).
- `PacketPool::acquire` binds a payload and then resets the packet, which deletes that payload: the
  list of free payloads saves nothing and every packet comes without one (`TakenPayloadIsLost`).
- References between packets are never counted, so a release can leave a reference to a deleted packet
  (`DanglesExactly` says when; `DanglingHappens` gives a run for every limit).
- A router reads one digit per coordinate from its name, so routing by names of the form router_X_Y is
  right exactly in meshes of at most ten rows (`NamesRouteRightExact`). With the names the mesh
  generator gives, `r{y}_{x}`, a router never finds its position: in the first million rows the name
  ends before the characters it reads, and after that they say another position
  (`GeneratedNameNeverRight`). The network theorems give routers their true position and hold for any
  height.
- The credit pool loses credits when a stream reserves again, releases a reservation it has used
  beyond, or is woken while its own reservation has room (`LeaksExactly`; `LostByReservingAgain`,
  `LostByReleasing` and `LostByWaking` are runs). It never over-commits.
- The two segmentations, and the constructor for a single flit, disagree on the empty payload and
  only there (`SegmentationsAgree`, `SingleFlitAgrees`).

## Model

| member | source | states |
|---|---|---|
| RouterLink.EdgeIsFifoStep | src/noc/router_sc.cc:19-51 | whichever process runs first, one clock edge of a link takes the oldest flit off its content or none, adds the arrivals at the end, and never has req and ack high together |
| RouterLink.PhaseCountsDown | src/noc/router_sc.cc:19-51 | a link that holds a flit hands one over at the first, second or third edge from now, depending on (req, ack) |
| RouterLink.LinkExactlyOnceInOrder | src/noc/router_sc.cc:19-51 | from reset, in every run: what was received, then what the sender still owes, is everything pushed |
| XYRouting.DestinationOfAddress | src/noc/router_sc.cc:54-58 | the header of a router's address, four times its row plus its column, is read as that router, whatever the upper bits |
| XYRouting.HeaderOfDestination | src/noc/router_sc.cc:54-58 | every header is read as the address of one router in the four columns |
| XYRouting.PortForAddress | src/noc/router_sc.cc:53-63 | for the header of a router: port 1 from a lower column, 3 from a higher one, then 2 from a lower row, 0 from a higher one, 4 at the router |
| XYRouting.RouteProgress | src/noc/router_sc.cc:53-63 | each hop stays in the mesh and one step closer; Local is chosen at the destination and only there |
| XYRouting.WalkFollowsRoute | src/noc/router_sc.cc:53-63 | from any router to any destination the flit arrives after exactly the Manhattan distance in hops |
| XYRouting.WalkIsRowThenColumn | src/noc/router_sc.cc:60-62 | the walk in closed form: along the row to the right column, then along the column |
| XYRouting.RankDecreases | src/noc/router_sc.cc:53-63 | the rank of a channel falls along any two channels that one flit can hold and wait for |
| XYRouting.NoCyclicWait | src/noc/router_sc.cc:53-63 | no chain of waiting channels, over any mixture of destinations, comes back to itself, and none is longer than the highest rank allows |
| XYRouting.NamedPositionExact | src/noc/router_sc.cc:55-56 | the position read from a router's name is its own exactly in the first ten rows |
| XYRouting.NamesRouteRightExact | src/noc/router_sc.cc:53-63 | routing by name is routing by position in a mesh exactly when it has at most ten rows |
| XYRouting.GeneratedNameNeverRight | python/noc_builder.py:26-28 | with the name the generator gives, a router's name has the characters it reads exactly from row 1,000,000 on, and there they say another position |
| MeshBuilder.GenerateNodes | python/noc_builder.py:22-32 | exactly the positions of the grid, each once, in row-major order |
| MeshBuilder.GenerateConnections | python/noc_builder.py:34-49 | exactly the links between facing ports of adjacent routers, both directions, each once |
| MeshBuilder.WalkUsesGeneratedLinks | python/noc_builder.py:34-49 | the walk of a flit uses generated links only and asks for Local at its end and not before |
| Router.Router.TakeFrom | src/noc/router_sc.cc:21-28 | one input's turn: its accepted flit joins the queue of its output and no other, and the input is acknowledged exactly then |
| Router.RoutedInPortOrder | src/noc/router_sc.cc:20-29 | what is pushed on one output at an edge: the flits offered, not yet acknowledged and routed there, north, east, south, west, local |
| Router.Router.RoutingProcess | src/noc/router_sc.cc:19-30 | every output queue gets, in port order, the accepted flits routed to it and nothing else; each input is acknowledged exactly if its flit was taken |
| Router.Router.OfferAt | src/noc/router_sc.cc:38-49 | one output's turn: the link's switching step there, every other output untouched |
| Router.Router.SwitchingProcess | src/noc/router_sc.cc:36-51 | each output offers, holds or removes its head flit as the link's state machine says |
| Router.Router.ClockEdge | src/noc/router_sc.cc:4-51 | both processes on the old signals, in either order, are one edge of each of the five output links |
| Router.Router.constructor | src/noc/router_sc.cc:4-17 | queues empty, all signals low |
| Network.WiringIsGenerated | python/noc_builder.py:34-49 | an output drives an input in the network exactly when the generator connects the two |
| Network.ClockInMesh | src/noc/router_sc.cc:19-51 | a running router that shows its node of the network before an edge shows it after the network's step |
| Network.RoutedOfFlow | src/noc/router_sc.cc:19-30 | of one sender's flits for one destination, a router pushes on the next link of their route exactly what it takes from the previous one |
| Network.LineStep | src/noc/router_sc.cc:19-51 | when each queue of a line passes on to the next, what leaves the front plus what stays is what was there plus what came in |
| Network.StepKeepsNetOk | src/noc/router_sc.cc:19-63 | one edge keeps the invariant: handshakes, every flit on its route, every flow in order and complete |
| Network.RunKeepsNetOk | src/noc/router_sc.cc:19-63 | so does every run from reset |
| Network.EndToEndOrder | src/noc/router_sc.cc:19-63 | in a mesh of any height, under any traffic, with everything given to an injector injected: what a sink got from a sender, followed by what is under way on their route, is what that sender injected for it; a sink gets only flits addressed to it |
| Drain.MeshBalance | src/noc/router_sc.cc:19-63 | over the whole mesh, the hops that come into the routers are the hops their neighbours let go |
| Drain.HopsFallByMoves | src/noc/router_sc.cc:19-51 | without injection, an edge takes exactly one off the remaining hops for every link that hands a flit over |
| Drain.AdvanceWithinThree | src/noc/router_sc.cc:19-51 | while hops remain, three edges take at least one off |
| Drain.DrainsInTime | src/noc/router_sc.cc:19-63 | from any state that keeps the invariant, three quiet edges per remaining hop empty every link |
| Drain.EverythingIsDelivered | src/noc/router_sc.cc:19-63 | after any traffic and that many quiet edges, every sink has exactly what was injected for it, from every sender in order |
| Fairness.LinkServes | src/noc/router_sc.cc:19-51 | under any endless traffic, the first flits of a link are handed over, in order and alone, within three edges for each |
| Fairness.FlowMovesUp | src/noc/router_sc.cc:19-51 | exactly what of a flow had come to one link of its route by an edge has come to the next when the flits then in that link have left |
| Fairness.NoFlitStarves | src/noc/router_sc.cc:19-63 | under any endless traffic, what a sender has injected for a destination by any moment is, at some later one, exactly what the sink has of it |
| VcLink.RetryTurns | include/core/virtual_channel.hh:82-92 | a retry turns the buffer by one, or counts a drop when it is full; the receiver sees nothing |
| VcLink.SenderTickDeliversNothing | include/core/port_manager.hh:136-140 | a sender tick turns every buffer once, keeps its packets, and leaves the receiver alone |
| VcLink.AcceptedIsReachedThenWaiting | include/core/port_manager.hh:36-140 | for every interleaving of sends and ticks, per channel: handled then buffered packets are a prefix of the accepted ones, the rest is the sender's buffer as a multiset, nothing is missing exactly when nothing waits, buffers keep to their capacity and counters balance |
| VcLink.OnceWaitingNeverDrains | include/core/port_manager.hh:104-140 | once a packet waits on a channel, no later one overtakes it and none ever reaches the receiver |
| VcLink.WaitingPacketIsNotForwarded | include/core/port_manager.hh:136-140 | a concrete run in which the receiver has room, the sender ticks, and the packet still waits |
| VcLink.RetryIsPlainExactly | include/core/virtual_channel.hh:82-92 | the port's own retry does what a plain one does exactly when the buffer is empty |
| VcLink.PlainRetryKeepsLine | include/core/master_port.hh:52-65 | a retry over the plain sendReq only moves a packet along: input buffer then output buffer is unchanged |
| VcLink.PlainRetriesDrain | include/core/master_port.hh:52-65 | with room at the receiver, as many plain retries as packets drain a channel in order |
| VcLaws.RefusedExactly | include/core/port_manager.hh:104-134 | a send to a channel that is there is refused exactly when its buffer holds capacity packets and something waits, there is no wire, or the receiver lacks the channel or holds its capacity there |
| VcLaws.AcceptedGoesWhere | include/core/port_manager.hh:104-134 | an accepted packet joins the receiver's buffer exactly when nothing of its channel waits, there is a wire and the receiver has room there; otherwise the sender's; a refused one joins none |
| VcLaws.AcceptsCapacityManySends | include/core/virtual_channel.hh:69-76 | an empty channel of capacity c, when nothing goes over the wire, accepts exactly the first c sends and keeps them in order |
| VcLaws.HandledInChannelOrder | include/core/port_manager.hh:55-64 | one receiver tick handles at most one packet of each channel, in the order of the channels |
| VcLaws.AcceptingOwnerDrains | include/core/port_manager.hh:55-64 | an owner that accepts a channel gets one packet of it a tick, in order, until it is empty |
| VcLaws.RefusedHeadStays | include/core/port_manager.hh:55-64 | a refusing owner leaves the channel as it is |
| VcLaws.CountersCount | include/core/virtual_channel.hh:17-92 | over every run from new ports: dropped counts the refused sends and fruitless ticks, forwarded the turns of the buffer, the receiver's dropped the sends that found it full, processed what the owner handled |
| Ports.InputVC.Enqueue | include/core/virtual_channel.hh:26-33 | stores and counts the packet exactly when there is room |
| Ports.InputVC.Pop | include/core/virtual_channel.hh:39-44 | removes and counts the head, if there is one |
| Ports.OutputVC.Enqueue | include/core/virtual_channel.hh:69-76 | stores and counts the packet exactly when there is room |
| Ports.OutputVC.TrySend | include/core/virtual_channel.hh:82-92 | on the port that owns the channel, is the retry of the link's state machine, whose effect is RetryTurns |
| Ports.UpstreamPort.RecvReq | include/core/port_manager.hh:36-52 | one receive step of the link; answers true exactly when the packet was stored |
| Ports.UpstreamPort.Tick | include/core/port_manager.hh:55-64 | one receiver tick of the link; the owner handles the heads it accepts, in channel order |
| Ports.DownstreamPort.SendPlain | include/core/simple_port.hh:52-58 | over the wire to the peer, or false with no effect when there is no wire |
| Ports.DownstreamPort.SendReq | include/core/port_manager.hh:104-134 | one send step of the link; answers true exactly when the packet was sent or stored |
| Ports.DownstreamPort.Tick | include/core/port_manager.hh:136-140 | one sender tick of the link |
| Events.ListHeapIsLawful | include/core/event_queue.hh:33-39 | the laws asked of the heap can be kept: a list searched for its first least element keeps them |
| Events.RunsJoin | include/core/event_queue.hh:49-57 | two runs one after the other are one run to the later end |
| Events.RunsSplit | include/core/event_queue.hh:49-57 | a run can be cut at any cycle on the way |
| Events.RunsUnique | include/core/event_queue.hh:49-57 | a run has one outcome: same world, same number of events |
| Events.RunInPieces | include/core/event_queue.hh:49-57 | run(a + b) ends in a world exactly when run(a) and then run(b) do: same clock, queue, state and trace |
| Events.RunIsOrderedAndComplete | include/core/event_queue.hh:44-57 | events fire in non-decreasing time; of all events ever scheduled, on the way included, exactly those due before the end have fired, each once, and exactly the others wait |
| Events.RunIsItsLog | include/core/event_queue.hh:44-57 | the final state is what the handlers make of the first one along the events fired, at their times, and what was scheduled on the way is what they asked for, each at its cycle plus its delay |
| Events.RunEnds | include/core/event_queue.hh:49-57 | with delays of at least one every run ends, by (cycles left, events due now) |
| Events.ZeroDelayNeverReturns | include/core/event_queue.hh:44-57 | one event that always reschedules itself with delay zero, due before the end, keeps a run from ever returning, whatever other events do |
| Events.EventQueue.Schedule | include/core/event_queue.hh:44-47 | adds the event, due the given number of cycles from now |
| Events.EventQueue.Run | include/core/event_queue.hh:49-57 | leaves the world that the run relation leads to |
| Ticks.FireAndTicks | include/core/sim_object.hh:62-65 | firing the tick of an object logs it and leaves one tick a cycle later; firing anything else leaves its waiting tick alone |
| Ticks.InitiateAllMakesOnes | include/core/sim_object.hh:27-29 | one initiate_tick for each of a list of objects leaves exactly one waiting tick of each, for the next cycle |
| Ticks.TicksEveryCycle | include/core/sim_object.hh:62-65 | from one waiting tick on, a run ticks the object exactly once in every cycle and leaves one tick waiting |
| Ticks.EveryObjectTicksOncePerCycle | include/core/sim_object.hh:27-65 | after one initiate_tick each, every object ticks exactly once in each later cycle of a run and has one tick waiting at its end, for any objects and other events |
| Ticks.RunRunsTheObjects | include/core/sim_object.hh:62-65 | every tick event fired runs its object's tick once, at its time; nothing is scheduled on the way but what the objects ask for and one next tick for every tick fired |
| Ticks.InitiateTick | include/core/sim_object.hh:27-29 | adds one tick of the object, a cycle from now |
| Ticks.StartAllTicks | src/core/module_factory.cc:359-364 | adds one tick of each object |
| Ticks.TickingReturns | include/core/sim_object.hh:62-65 | objects that schedule for later cycles only let every run return |
| Ticks.Simulate | src/core/module_factory.cc:359-364 | started and run for any number of cycles: when the run returns, each object has ticked exactly once in every later cycle, one tick of each waits, and the state is what the objects' own code made of it |
| Flits.PacketToFlits | src/noc/packet_utils.cc:8-68 | the loop gives the segmentation that SegmentsShape and ReassembleStream are about |
| Flits.SegmentsShape | src/noc/packet_utils.cc:8-98 | the flits carry the payload in order, are as many as its length over eight rounded up, carry the packet's number, address (as destination and as source), channel and priority, and are tagged HEAD_TAIL or HEAD BODY* TAIL exactly when the payload is not empty |
| Flits.SingleFlitAgrees | src/noc/packet_utils.cc:71-87 | the one-flit constructor agrees with the first flit of the segmentation exactly on non-empty payloads |
| Flits.ReassembleStream | src/noc/packet_utils.cc:8-68 | from the flits of any packets one after another the packets can be read back |
| Flits.StreamDeterminesPackets | src/noc/packet_utils.cc:8-68 | two lists of packets with the same stream of flits are the same list |
| Flits.GenerateRequest | src/noc/nic.cc:12-62 | the interface's loop gives the indexed chunks and tags, for any length |
| Flits.SegmentationsAgree | src/noc/nic.cc:12-62 | flit by flit the two segmentations give the same chunks and tags, and as many of them exactly when the payload is not empty |
| CreditPool.CreditPool.ReserveCredits | DESIGN_creditstream.md:316-324 | succeeds exactly when the credits are available; the new state is Reserve of the old |
| CreditPool.CreditPool.TryGetCredit | DESIGN_creditstream.md:327-355 | grants from the reservation, then from the common part, else enters the stream in the queue |
| CreditPool.CreditPool.ReturnCredit | DESIGN_creditstream.md:358-378 | the new state is Return of the old |
| CreditPool.CreditPool.WakeWaiters | DESIGN_creditstream.md:381-392 | the erasing loop is one pass that grants every waiter affordable at its turn and keeps the others in order |
| CreditPool.CreditPool.ReleaseReservation | DESIGN_creditstream.md:395-402 | the new state is Release of the old |
| CreditQueue.RefusedAreWokenOrWait | DESIGN_creditstream.md:316-402 | in every run a stream's refused gets are the credits it was granted while waiting plus those it still waits for |
| CreditQueue.QueueUntouched | DESIGN_creditstream.md:316-402 | reserves, releases, granted gets and returns into a reservation leave the queue as it was, order included |
| CreditQueue.WakeTurnByTurn | DESIGN_creditstream.md:381-392 | a waiter is granted all it waits for exactly if that much is available at its turn; the others stay in order; each stream uses as much more as it stops to wait for |
| CreditQueue.NobodyLeftAffordable | DESIGN_creditstream.md:381-392 | after a wake-up no waiter is left whose count is available |
| CreditQueue.WaitForExactly | DESIGN_creditstream.md:346-354 | a refused stream keeps its place or joins at the end and waits for one credit more; no other place or count changes |
| CreditQueue.OneEntryEach | DESIGN_creditstream.md:346-354 | in every run each stream has at most one entry in the queue, for at least one credit |
| CreditQueue.GetExactly | DESIGN_creditstream.md:327-355 | a get is granted exactly if the reservation has room or a credit is available, and takes an available one only in the second case |
| CreditQueue.ReturnExactly | DESIGN_creditstream.md:358-378 | a return gives back one credit the stream uses, to its reservation and nothing else happens, or to the common part and the waiters are gone through |
| CreditPool.TryGetAccount | DESIGN_creditstream.md:327-355 | getting a credit keeps the account, and the stream uses one more exactly if it was granted |
| CreditPool.WakeAccount | DESIGN_creditstream.md:381-392 | waking keeps the pool in order and takes off the account what is granted into room of a reservation |
| CreditPool.LeaksExactly | DESIGN_creditstream.md:316-402 | an operation keeps the account exactly when it is clean: nothing held at a reserve, nothing used beyond at a release, no waiter below its own reservation granted |
| CreditPool.NeverOverCommitted | DESIGN_creditstream.md:316-402 | in every run available is not negative, available plus reservations plus use beyond them is at most the total, and equal to it exactly when every operation was clean |
| CreditPool.LostByReservingAgain | DESIGN_creditstream.md:316-324 | a run of two reservations of one stream that loses the pool's only credit |
| CreditPool.LostByReleasing | DESIGN_creditstream.md:395-402 | a run that reserves, uses one more and releases, and loses the pool's only credit |
| CreditPool.LostByWaking | DESIGN_creditstream.md:358-392 | a run that loses a credit by gets and returns alone after one reservation |
| CreditPool.UseWithinTotal | DESIGN_creditstream.md:316-402 | in every run the credits in use and the available ones together are at most the total |
| PoolBooks.OpKeepsSound | include/core/ext/packet_pool.hh:68-129 | acquire, release and a client's own use keep live, free and deleted packets and payloads disjoint, free lists duplicate-free and within the limit, owners unique and usage equal to the live count |
| PoolBooks.RunStaysSound | include/core/ext/packet_pool.hh:68-129 | so does every disciplined run of them |
| PoolBooks.PeakIsLargestUsage | include/core/ext/packet_pool.hh:89-90 | the peak is the largest number of live packets at any moment of the run |
| PoolBooks.TakenPayloadIsLost | include/core/ext/packet_pool.hh:79-88 | a payload taken by an acquire is deleted by it and never listed or given out again; the packet owns none |
| PoolBooks.FreeListsAreQueues | include/core/ext/packet_pool.hh:72-126 | in every run, what was taken from a free list followed by what is on it is what was put there, for packets and for payloads: first in, first out |
| PoolBooks.DeletesExactly | include/core/ext/packet_pool.hh:110-126 | a release deletes the packet exactly if the free list of packets is full, its payload exactly if that of payloads is |
| PoolBooks.DanglesExactly | include/core/ext/packet_pool.hh:104-126 | an operation leaves a reference to a deleted packet exactly when it releases a packet that another one refers to while the free list is full |
| PoolBooks.DanglingHappens | include/core/ext/packet_pool.hh:104-126 | for every limit, a disciplined run that leaves a live response with a deleted request |
| PoolBooks.ReleaseSoundExactly | include/core/ext/packet_pool.hh:99-129 | a release keeps the books sound exactly when the packet is live, so never when it is released twice |
| PoolBooks.FillSoundExactly | include/core/ext/packet_pool.hh:110-118 | giving a packet a payload keeps them sound exactly when the packet is live and the payload neither free nor deleted nor another packet's |
| PacketPool.Packet.Reset | include/core/packet.hh:67-86 | every field as at the start; deletes the payload unless the packet is a credit |
| PacketPool.PacketPool.Acquire | include/core/ext/packet_pool.hh:68-93 | the free list's head or a fresh packet, blank, and the books move by one acquire |
| PacketPool.PacketPool.Release | include/core/ext/packet_pool.hh:99-129 | nothing for null; otherwise the packet is blank and the books move by one release; no further release is asked for under the lock |
| PacketPool.PacketPool.ReleaseRequest | include/core/ext/packet_pool.hh:105-108 | with a request whose count is zero, dropping the reference to it asks for no release and clears it |
| PacketPool.PacketPool.RemoveRef | include/core/ext/packet_pool.hh:50-58 | takes one off a positive count; asks for a release exactly when that count was one |
| JsonIncluder.ExpandIsPlain | include/utils/json_includer.hh:27-52 | an expanded document has no include entry at any depth |
| JsonIncluder.ExpandIsIdempotent | include/utils/json_includer.hh:27-52 | expanding it again, from anywhere, changes nothing |
| JsonIncluder.OwnEntriesWin | include/utils/json_includer.hh:29-46 | the keys are the node's and the included file's without include; the node's own value, expanded, wins, the included one stands for every other key |
| JsonIncluder.IncludedKinds | include/utils/json_includer.hh:35-40 | what an included document adds, by its kind: an object its entries, an array its items under their indices, a scalar itself under the empty key, null nothing |
| JsonIncluder.DirectoryExactly | include/utils/json_includer.hh:31 | a path split into a directory and a name without separators has that directory |
| JsonIncluder.IncludesFromOwnDirectory | include/utils/json_includer.hh:29-39 | an include of text in the file dir + name fails as loading dir + text fails, and otherwise takes from there every entry it lacks |
| JsonIncluder.SiblingExample | include/utils/json_includer.hh:27-42 | cfg/a.json that includes b.json is cfg/b.json |
| JsonIncluder.ShapeIsKept | include/utils/json_includer.hh:43-51 | without an include an object keeps its keys and an array its length and order, each value expanded |
| JsonIncluder.ExpandsExactly | include/utils/json_includer.hh:13-52 | expanding succeeds exactly when every include it meets names, as text, a file that is there, parses, and is so itself |
| JsonIncluder.LessExactly | include/utils/json_includer.hh:44-46 | keys are processed in dictionary order |
| JsonIncluder.ExpandEnds | include/utils/json_includer.hh:27-52 | on an acyclic include graph expansion ends within as many nested loads as the ranks say |
| JsonIncluder.ExpandDeeper | include/utils/json_includer.hh:27-52 | the bound on nesting only decides whether expansion ends, never what it gives |
| JsonIncluder.RootCycleNeverEnds | include/utils/json_includer.hh:13-52 | files that include one another in a cycle at their roots are never finished, at any depth |
| JsonIncluder.FieldsFail | include/utils/json_includer.hh:44-46 | entries are processed in key order: an object fails as its first failing entry does |
| JsonIncluder.LoadAndInclude | include/utils/json_includer.hh:13-24 | the document, the exception or the missing depth that the expansion of the file ends in |
| JsonIncluder.Merge | include/utils/json_includer.hh:34-40 | the merged keys without include, own values first |
| JsonIncluder.ProcessIncludes | include/utils/json_includer.hh:27-52 | the document, the exception or the missing depth that the expansion of the node ends in |
| Crossbar.OfferedInTurn | include/modules/crossbar.hh:26-52 | whatever arrives or is refused meanwhile, queued requests are offered in order, one a tick, each to its output |
| Crossbar.PositionIsTurn | include/modules/crossbar.hh:15-52 | the request at position p is offered to output address modulo port count on exactly the (p+1)-th tick |
| Crossbar.RefusedIsOfferedAgain | include/modules/crossbar.hh:42-46 | a refused request is offered again after all others queued with it |
| Crossbar.NothingLost | include/modules/crossbar.hh:26-52 | accepted requests are forwarded, queued or released ones, each once |
| Crossbar.ForwardedAreTaken | include/modules/crossbar.hh:35-52 | with an output there, nothing is released and what is forwarded is exactly the offers that were taken, in order |
| Crossbar.ReleasedInOrder | include/modules/crossbar.hh:35-52 | without an output, nothing is offered and every tick releases the oldest request |
| Crossbar.Crossbar.Tick | include/modules/crossbar.hh:35-52 | one tick of the queue's state machine, asking the output for the head request only |

## Left out

- Routers in the mesh are named by coordinates, not by strings; a flit carries a label for the node
  that injected it, which no router code reads. Flits addressed outside the mesh are not injected.
- The build has no `src/noc`; the declarations of `RouterSb` and the flit headers are not part of this model.
- Ports.DownstreamPort.SendPlain: the pair of ports and the side number are one reference to the peer;
  port statistics, `dst_cycle` and the stored but unused link delay are not modelled.
- Ports.UpstreamPort.Tick: what the owner answers for each channel is a parameter; an owner that calls
  back into the ports while it handles a packet is not modelled.
- Events.EventQueue.Run: it requires that the run returns; RunReturns gives that for delays of at least one.
  The heap is any deterministic heap, so the tie-breaking order of equal times is not fixed.
- Ticks.InitiateTick: objects are identities and their code is a function on their joint state, called
  through the queue's handler; the instance table of the module factory is a list without repetition.
- Flits.PacketToFlits: a flit holds only the bytes in use; the unused end of its array is not modelled.
- Flits.SingleFlitAgrees: compares the fields that the constructor is shown to set; the source elides the others.
- Flits.GenerateRequest: how the extension is attached and what becomes of a chunk the network refuses.
- CreditPool.NeverOverCommitted: reservations are for non-negative counts.
- PoolBooks.RunStaysSound: clients use and release live packets only, own the payloads they attach, and
  do not release a packet whose request has been deleted. Deleted objects stay as identities that are never used again.
- PacketPool: the mutex; the header fields that reset only clears are represented by one.
- PacketPool.PacketPool.Release: for a packet that is live, and whose request, if it has one, is not
  deleted. ReleaseSoundExactly says why the first is needed; without the second the code reads
  memory it has freed.
- PacketPool.PacketPool.RemoveRef: the release at zero is reported and not performed. It would lock the
  pool's mutex a second time; Release shows that it is never asked for.
- JsonIncluder.ProcessIncludes: documents are values and not edited through references.
- JsonIncluder.LoadAndInclude: a file that cannot be opened and one that cannot be parsed throw alike;
  numbers are reals.
- Crossbar: the ports and the pool it calls are answers and logs.
- Integers are unbounded: 64-bit wrap-around of cycles, counters and identifiers does not occur.
- `src/noc/router.cc` (its allocation and routing helpers are not in the repository), the SystemC
  adapters, wildcard and regular-expression matching, the module factory, plugins, layout, traffic
  generators, processor, cache and memory models, and statistics printing.
