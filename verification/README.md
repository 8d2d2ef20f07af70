# Verification of the Linux FireWire stack

A Dafny model of the parts of the FireWire (IEEE 1394) stack whose correctness is least obvious, with
proofs over all inputs, all runs and all reachable states.  `dafny verify dfyconfig.toml` checks it.

**Bus topology** (`SelfIdPacket` to `Topology`).  After a bus reset every PHY reports itself; `build_tree`
turns the reports into a doubly linked tree with an explicit stack, and `update_tree` compares the card's
old tree with it, splices subtrees and emits one event per node.  The pure layer is a shift-reduce reading
of port-labelled trees (`BusTree`), their diameter (`HopCount`), their layout in memory (`NodeStore`,
`BuildTree`), trees seen from a node (`Orientation`, `BusOrientation`), the coloured breadth-first walk
(`TreeWalk`, `NodeSpeeds`) and the lockstep comparison (`TreeUpdate`, `TreeMerge`, `TreeResult`).  `BusSamples`
has buses on which the code does not do what one would expect.
`Topology.FwCard` holds the card's fields and the loops; `BusView` says what the card depicts afterwards, and
`BusEvents` what it has reported.

**OHCI descriptor queue** (`DescriptorQueue`, `OhciContext`).  Blocks of DMA descriptors in a list of pages,
chained by branch addresses and retired in order.  Every operation is a step of a state that also records
the chained blocks, and the device's own writes are steps too; runs of steps refine a FIFO and no page is reused
too early.

**Isochronous resources** (`IsoManage`, `IsoProtocol`, `IsoResources`).  Compare-and-swap loops against the
registers of the isochronous resource manager.  `IsoManage` gives every loop as itself and as a machine that
goes from lock request to lock request; `IsoProtocol` interleaves any number of such machines with bus
resets, where executing a lock and delivering its answer are separate steps.  A lock that does not complete
has no effect.

**Configuration ROM** (`RomReader`, `RomLayout`, `ConfigRom`).  The stack-driven reader against a device that
answers as it likes, and the generator of the card's own image, whose images the reader gets back.

**AMDTP** (`SytSequence`, `Syt`, `Cip`, `AmdtpStream`).  The table-free generators of presentation times and
block counts against the rational sequences they claim to produce, SYT encoding and decoding, CIP headers on
both sides, and the ring buffers between them, up to replaying a received stream packet by packet.

**Transactions** (`Transactions`, `AddressHandlers`).  Label allocation, the pending list and the ways a
transaction ends as interleaved steps; the registry and the dispatcher of address handlers.

**IP over 1394** (`Fragments`, `FragmentOrder`, `FwNet`).  Fragmentation and reassembly (sections 4.2 and 4.3 of
RFC 2734), for fragments in any order.

`Basics` and `Arith` hold shared definitions and facts about bits and quotients.

Hypotheses that the code relies on without checking them are preconditions: matched nodes of two trees have
equal port counts and equal far ends (`TreeUpdate.Compatible`); a block has at most 15 descriptors and an empty
branch address when it is appended; pointers inside a ROM descriptor stay on its blocks
(`RomLayout.AllSelfContained`), and keys of ROM descriptors keep to their upper eight bits; a replaying stream
reads what is cached before it is overwritten (`AmdtpStream.RxStream.Follows`).

Some properties one would expect do not hold of the code.  Each comes with the cases in which it fails and
with the exact condition under which it holds:

- an accepted self-ID report is one tree: `OrphansAreAccepted`; `OneTreeIff`, `WholeBusIff`
- the hop count of the root is the diameter: `LongBusHops`; `RootHopsAreDiameter`
- a client holds nothing that it does not know of: `LateHappens`, `LateUpdateForgets`; `CleanStep`, `NothingLeaks`
- an owner is called back once: `OvertakingHappens`, `OvertakingCallsTwice`; `StepOnce`, `RunOk`
- a datagram whose bytes are all there is delivered: `OrderMatters`; `CompleteIff`, `AnyOrder`
- a free address range is found: `SearchMisses`; `AddHandler`, `SlottedSearch`

Where documentation and code differ the model follows the code.  The comment in `fwnet_pd_update` speaks of
moving an entry to the beginning of the list, the code moves it to the end; `fwnet_frag_new` does not keep its
list sorted.

## Model

| member | source | states |
|---|---|---|
| `SelfIdPacket.Enumerator.Next` | drivers/firewire/phy-packet-definitions.h:223-259 | advances over exactly one self-ID sequence: success iff the next quadlets form one with consistent more-packets flags and sequence numbers, of at most four quadlets; ENODATA at the end, EPROTO otherwise without moving |
| `SelfIdPacket.EncodedPort` | drivers/firewire/phy-packet-definitions.h:268-285 | port status getter returns, for every port of every encodable report, the status that an independent encoder stored |
| `SelfIdPacket.EncodeRoundTrip` | drivers/firewire/phy-packet-definitions.h:108-211 | all field getters together invert the independent encoder |
| `SelfIdPacket.EncodeIsSequence` | drivers/firewire/phy-packet-definitions.h:223-259 | whatever follows it, an encoded report is accepted as one sequence |
| `SelfIdPacket.StreamRoundTrip` | drivers/firewire/phy-packet-definitions.h:223-285 | any list of encodable reports survives encoding, enumeration and decoding |
| `BusTree.ParseTree` | drivers/firewire/core-topology.c:98-257 | reading the post-order report of a hanging tree pushes exactly that tree on the stack, whatever follows |
| `BusTree.ParseBus` | drivers/firewire/core-topology.c:98-257 | completeness: the report of every bus is read back as that bus |
| `BusTree.ParseSound` | drivers/firewire/core-topology.c:98-257 | soundness: whatever is accepted is the report of the forest that was built, all of whose trees but the last hang by one parent port |
| `BusTree.ParseCount` | drivers/firewire/core-topology.c:98-257 | every accepted report satisfies: trees built plus child ports equals trees before plus PHYs |
| `BusTree.OneTreeIff` | drivers/firewire/core-topology.c:162-236 | an accepted report is one tree iff its child ports number one less than its PHYs |
| `BusTree.AcceptedIffBus` | drivers/firewire/core-topology.c:98-257 | a report is accepted as one tree iff it is the post-order report of a bus, and iff it is accepted and its child ports number one less than its PHYs |
| `BusSamples.OrphansAreAccepted` | drivers/firewire/core-topology.c:162-236 | a concrete self-ID buffer that is accepted although a PHY is claimed by nobody; it fails the test for whole buses |
| `BusSamples.OrphanKeepsPortIndex` | drivers/firewire/core-topology.c:197-207 | in every accepted report, every PHY that nobody claims is left with the index of an empty parent port as its colour, whatever the colour of the card |
| `HopCount.FoldBounds` | drivers/firewire/core-topology.c:62-84 | the loop over ports bounds single branches and pairs of branches |
| `HopCount.FoldAttained` | drivers/firewire/core-topology.c:62-84 | and the bounds are attained by branches of the node |
| `HopCount.LongestIsDiameter` | drivers/firewire/core-topology.c:62-84 | unbounded, the incremental hop count of a tree is its diameter: the longest path between any two nodes |
| `HopCount.StoredHopsExact` | drivers/firewire/core-topology.c:62-84 | the stored 4-bit hop count equals the diameter iff the diameter is at most 15 |
| `NodeStore.FixUpChild` | drivers/firewire/core-topology.c:197-222 | linking a child writes the port that its temporary colour names, and restores the colour |
| `NodeStore.RootDepths` | drivers/firewire/core-topology.c:62-84 | the depth and hop fields that the parent reads are those of the subtrees |
| `BuildTree.LinkChild` | drivers/firewire/core-topology.c:197-222 | linking one child turns the flat store of a row of trees with k linked children into that with k + 1 |
| `BuildTree.KidsHaveParent` | drivers/firewire/core-topology.c:197-222 | a subtree on the stack has a parent port, so the temporary colour is a valid port index when it is read |
| `Topology.FwCard.CountPorts` | drivers/firewire/core-topology.c:142-160 | number of child ports and of implemented ports of a sequence |
| `Topology.FwCard.LinkPorts` | drivers/firewire/core-topology.c:197-222 | the port loop links node and children reciprocally, consumes the stacked subtrees in port order and counts parent ports |
| `Topology.FwCard.UpdateHopCount` | drivers/firewire/core-topology.c:62-84 | depth and hop count of the node, modulo 16, as a fold over its linked ports; nothing else changes |
| `Topology.FwCard.AddNode` | drivers/firewire/core-topology.c:142-248 | one round of the loop is one shift-reduce step; it fails exactly if that step fails |
| `Topology.FwCard.BuildTree` | drivers/firewire/core-topology.c:98-257 | the store gets exactly the nodes of the parsed forest, with root, IRM, gap count, beta repeaters and local node as the records say; on failure no card field changes |
| `BusView.ReportRoundTrip` | drivers/firewire/core-topology.c:98-257 | round trip: the quadlets of any bus of at most 63 nodes whose absent ports only trail are accepted, pass the test for whole buses, and are read back as that bus |
| `BusView.WholeReportIs` | drivers/firewire/core-topology.c:460-507 | an accepted self-ID buffer that passes the test stands for exactly one fully linked bus |
| `Orientation.RerootOriented` | drivers/firewire/core-topology.c:263-297 | an oriented tree seen from a neighbour of its top is oriented again |
| `Orientation.TowardsOriented` | drivers/firewire/core-topology.c:263-297 | a linked tree is a tree seen from any of its nodes |
| `BusOrientation.BusOriented` | drivers/firewire/core-topology.c:98-257 | the nodes build_tree makes form a tree with reciprocal links |
| `BusOrientation.BusProper` | drivers/firewire/core-topology.c:142-231 | all children of a bus are linked, each by one parent port, iff no report has a child port behind the ports that are looked at |
| `BusOrientation.WholeBusIff` | drivers/firewire/core-topology.c:142-236 | an accepted report gives one tree with all children linked iff it passes a test on its records: child ports number one less than PHYs, and none lies behind the ports that are looked at |
| `TreeWalk.WalkStep` | drivers/firewire/core-topology.c:275-293 | a visit appends exactly the children of the node, none of which was found before |
| `TreeWalk.StepPorts` | drivers/firewire/core-topology.c:280-290 | the port loop meets one coloured neighbour, the true parent, and all others are children |
| `TreeWalk.WalkEnd` | drivers/firewire/core-topology.c:263-297 | when the queue is exhausted it holds exactly the nodes below the start |
| `TreeWalk.DistinctBound` | drivers/firewire/core-topology.c:275-293 | a queue without repetitions is bounded by the tree, so the walk ends |
| `Topology.FwCard.EnqueueNeighbours` | drivers/firewire/core-topology.c:280-290 | appends the uncoloured neighbours and remembers a coloured one |
| `Topology.FwCard.ForEachNode` | drivers/firewire/core-topology.c:263-297 | terminates, visits every node below the start exactly once, parents first and with their true parents, colours exactly those, and reports one event each |
| `NodeSpeeds.PacedIsSlowest` | drivers/firewire/core-topology.c:309-328 | max_speed is the minimum of the PHY speeds on the path from the local node, and b_path holds iff all of them are beta |
| `NodeSpeeds.WalkPaces` | drivers/firewire/core-topology.c:309-328 | a walk with report_found_node leaves every node with the speed of its path |
| `NodeSpeeds.SurvivorsPaced` | drivers/firewire/core-topology.c:309-328 | after an update every surviving node still has the speed of its path |
| `TreeUpdate.RepluggedIsCompatible` | drivers/firewire/core-topology.c:356-376 | the hypothesis on matched nodes holds whenever nodes were only plugged in and unplugged |
| `TreeUpdate.KeepPort` | drivers/firewire/core-topology.c:401-410 | both trees continue: the neighbours become a new pair that hangs in the same way, and was in no pair before |
| `TreeUpdate.LosePort` | drivers/firewire/core-topology.c:411-421 | only the old tree continues: everything behind the port is lost, and nothing of it was handled before |
| `TreeUpdate.BearPort` | drivers/firewire/core-topology.c:422-432 | only the new tree continues: everything behind the port is new, and nothing of it was handled before |
| `TreeMerge.MarkStore` | drivers/firewire/core-topology.c:378-398 | refreshing a matched node copies the reported properties and keeps all other nodes |
| `TreeMerge.UpPortFound` | drivers/firewire/core-topology.c:341-354 | the port that move_tree searches for is the one that leads to the parent, and it is the only one |
| `TreeMerge.LoseStore` | drivers/firewire/core-topology.c:411-421 | dropping a lost subtree clears one port of the pair and colours the lost nodes |
| `TreeMerge.BearStore` | drivers/firewire/core-topology.c:422-432 | moving a new subtree over relinks it on both sides and keeps all other nodes |
| `TreeResult.OldAllSeen` | drivers/firewire/core-topology.c:361-440 | in the end every old node is matched or lost, not both |
| `TreeResult.NewAllSeen` | drivers/firewire/core-topology.c:361-440 | in the end every new node is matched or adopted, not both |
| `TreeResult.MatchedMirrors` | drivers/firewire/core-topology.c:361-440 | a matched old node has the id, link state and ports of its partner, port for port |
| `TreeResult.BornMirrors` | drivers/firewire/core-topology.c:341-354 | an adopted node keeps its ports, translated to the survivors |
| `TreeResult.SurvivorsOriented` | drivers/firewire/core-topology.c:361-440 | the survivors form one tree with reciprocal links, seen from the old local node |
| `TreeResult.UpdateDone` | drivers/firewire/core-topology.c:361-440 | the old tree has become port-for-port isomorphic to the new one, node ids included |
| `Topology.FwCard.MoveTree` | drivers/firewire/core-topology.c:341-354 | the adopted node points back to its new parent at the port that led to the old one, and nothing else changes |
| `Topology.FwCard.MarkPair` | drivers/firewire/core-topology.c:376-398 | one event for the pair (link off, link on, reset initiated or updated), refreshed fields, and root_node and irm_node redirected; the port count warning cannot fire |
| `Topology.FwCard.ComparePort` | drivers/firewire/core-topology.c:400-433 | one port of a pair: skip, match, lose or adopt, as the two trees say |
| `Topology.FwCard.CompareNode` | drivers/firewire/core-topology.c:375-439 | one matched pair: all its ports |
| `Topology.FwCard.UpdateTree` | drivers/firewire/core-topology.c:361-440 | for matched nodes with equal port counts and equal far ends: isomorphic result, exactly one fitting event per node, root_node and irm_node on the survivors of the new ones |
| `Topology.FwCard.DestroyNodes` | drivers/firewire/core-topology.c:330-339 | every node of the tree is reported lost exactly once, and nothing else is reported |
| `Topology.FwCard.AdoptTree` | drivers/firewire/core-topology.c:487-495 | a first or a later tree becomes the card's tree; local, root and IRM node are the survivors of the reported ones, and every node got one fitting event |
| `Topology.FwCard.LeaveGeneration` | drivers/firewire/core-topology.c:471-480 | the old tree is reported lost and given up exactly if generations were skipped |
| `BusEvents.UpdateEvents` | drivers/firewire/core-topology.c:361-440 | seen from the reported bus, an update reports every old node and every node of the bus exactly once: lost, created, or what the link states of the pair tell |
| `BusEvents.LostThenFound` | drivers/firewire/core-topology.c:460-507 | losing one tree and finding another gives one fitting event per node of both |
| `BusEvents.AdoptedEvents` | drivers/firewire/core-topology.c:460-507 | the events of a whole reset are one fitting event per old and per reported node |
| `Topology.FwCard.HandleBusReset` | drivers/firewire/core-topology.c:460-507 | if the local PHY is in an accepted report that passes the test for whole buses: the card depicts the reported bus, local, root and IRM node sit at the right PHYs, and every old and every reported node got exactly one fitting event; otherwise the old tree stays, or is lost if generations were skipped; a report without the local PHY redirects root, IRM and gap count all the same, a rejected one changes none of them; the next reset can be handled |
| `BusView.RootHopsAreDiameter` | drivers/firewire/core-card.c:506-510 | max_hops of root_node, from which the gap count is picked, is the diameter of the bus iff that is at most 15 |
| `BusSamples.LineDiameter` | drivers/firewire/core-topology.c:62-84 | a line of n + 1 PHYs, for n below 63, is a reportable bus of diameter n |
| `BusSamples.LongBusHops` | drivers/firewire/core-topology.c:62-84 | for lines of 17 to 63 PHYs the stored hop count is not the diameter |
| `DescriptorQueue.LocatedIsNext` | drivers/firewire/ohci.c:955-972 | the address arithmetic of the retirement loop finds exactly the first waiting block, its buffer and its length, and sees a zero branch iff nothing waits |
| `DescriptorQueue.AppendLinks` | drivers/firewire/ohci.c:1128-1162 | append stores the address and length of the new block in the branch descriptor of the block before |
| `DescriptorQueue.AppendKeeps` | drivers/firewire/ohci.c:1128-1162 | and changes no other chained block, with or without the wake quirk |
| `DescriptorQueue.AppendedInv` | drivers/firewire/ohci.c:1128-1162 | append keeps the chain, its page order and its links |
| `DescriptorQueue.FilledInv` | drivers/firewire/ohci.c:1109-1113 | clearing or filling a reservation touches no chained block |
| `DescriptorQueue.RetiredInv` | drivers/firewire/ohci.c:977-984 | retiring keeps them, and a buffer is put back only when no waiting block lies in it |
| `DescriptorQueue.StepIsFifo` | drivers/firewire/ohci.c:935-1162 | each step of the queue is a step of a FIFO: submissions append, successful callbacks remove the first, everything else changes nothing |
| `DescriptorQueue.StepKeepsData` | drivers/firewire/ohci.c:935-1162 | no step, of the host or of the device, touches the program of a chained block except branch addresses; host steps keep its data as well |
| `DescriptorQueue.SubmitHolds` | drivers/firewire/ohci.c:1085-1162 | right after a submission the new block holds what was submitted |
| `DescriptorQueue.RunIsFifo` | drivers/firewire/ohci.c:935-1162 | over any run the blocks reported as done are the appended ones, each once and in order, and the rest still waits in order |
| `DescriptorQueue.RunKeepsData` | drivers/firewire/ohci.c:935-1162 | over any run, device writes included, a block that is not retired still holds the program its owner wrote, and all its data unless the device stored some: no page is reused too early |
| `DescriptorQueue.DeviceSeesQueue` | drivers/firewire/ohci.c:1128-1162 | following branch addresses from ctx->last, the device finds exactly the waiting blocks, in order, and then an empty branch |
| `DescriptorQueue.RetireAllIs` | drivers/firewire/ohci.c:948-986 | the loop offers the waiting blocks in order, retires those reported as done and stops at the first that is not |
| `DescriptorQueue.InitialInv` | drivers/firewire/ohci.c:1041-1071 | the dummy descriptor makes an empty queue |
| `OhciContext.Context.AddBuffer` | drivers/firewire/ohci.c:1007-1039 | adds one empty page at the end of the list; fails exactly at the 16 MB limit or without memory |
| `OhciContext.Context.GetDescriptors` | drivers/firewire/ohci.c:1085-1114 | fails exactly if no room can be had, else returns the free end of the tail buffer, cleared |
| `OhciContext.Context.Append` | drivers/firewire/ohci.c:1128-1162 | is the append step of the queue |
| `OhciContext.Context.Locate` | drivers/firewire/ohci.c:957-972 | is the lookup of the first waiting block |
| `OhciContext.Context.Retire` | drivers/firewire/ohci.c:977-984 | is the retirement step of the queue; the new head of the list is the buffer of ctx->last |
| `OhciContext.Context.RetireDescriptors` | drivers/firewire/ohci.c:948-986 | the loop with any callback answers: the blocks asked about and the resulting queue |
| `IsoManage.ManageChannel` | drivers/firewire/core-iso.c:323-373 | the loop follows the lock-by-lock transition for any answers and ends after at most 37 locks |
| `IsoManage.ManageBandwidth` | drivers/firewire/core-iso.c:285-321 | the loop follows the lock-by-lock transition for any answers and ends after at most 5 locks |
| `IsoManage.ChanAfterShrinks` | drivers/firewire/core-iso.c:332-370 | after every answer fewer locks remain; the result is the channel, -EAGAIN after a generation change, -EIO or -EBUSY |
| `IsoManage.UncontendedChannel` | drivers/firewire/core-iso.c:323-373 | if nobody else changes the register, at most two locks get the first channel that is wanted and available, and -EBUSY means that there is none |
| `IsoManage.UncontendedBandwidth` | drivers/firewire/core-iso.c:285-321 | if nobody else changes the register, at most two locks grant the bandwidth or take it back, exactly if there is room |
| `IsoManage.ResourceManage` | drivers/firewire/core-iso.c:419-458 | the sequence of loops with rollback is one machine of lock requests, and ends after at most 116 locks |
| `IsoProtocol.LockedClient` | drivers/firewire/core-iso.c:342-355 | a successful swap moves one channel between the register and the client that asked |
| `IsoProtocol.BandLockedClient` | drivers/firewire/core-iso.c:296-316 | a successful swap moves bandwidth between the register and the client that asked |
| `IsoProtocol.ReplyKeeps` | drivers/firewire/core-iso.c:344-370 | an answer never changes what a call holds; only a release loop that gives up leaks it |
| `IsoProtocol.StepInv` | drivers/firewire/core-iso.c:285-458 | any step of any client, late updates included, and any bus reset keep every channel with one holder or free, and all bandwidth accounted for |
| `IsoProtocol.Exclusive` | drivers/firewire/core-iso.c:285-373 | over any interleaving of any number of clients with bus resets: holdings are pairwise disjoint and disjoint from the register, no two clients are told they have the same channel in one generation, register plus held bandwidth is 4915, and no more is promised |
| `IsoProtocol.AllOrNothing` | drivers/firewire/core-iso.c:411-417 | channel and bandwidth, or neither, apart from what a release gave up on; a client that is not allocated holds nothing else |
| `IsoProtocol.CleanStep` | sound/firewire/iso-resources.c:105-225 | a step makes a client hold more than it believes to hold iff a release loop gives up or an update comes in a generation in which the channel is already held |
| `IsoProtocol.NothingLeaks` | sound/firewire/iso-resources.c:105-225 | over any run, nothing is ever held beyond what a client believes to hold iff no release loop exhausts its retries and no update comes late |
| `IsoProtocol.GivingUpIsExhaustion` | drivers/firewire/core-iso.c:344-370 | a release in the current generation fails only by exhausting its retries |
| `IsoProtocol.LateUpdateForgets` | sound/firewire/iso-resources.c:160-194 | from any reachable state: an update in a generation in which the client already holds its channel fails whatever the other clients do, and when it returns the client believes to hold nothing while channel and bandwidth stay taken |
| `IsoProtocol.LateHappens` | sound/firewire/iso-resources.c:105-146 | a legal run from a world in which nothing is held, after which an update is late |
| `IsoResources.PacketFits` | sound/firewire/iso-resources.c:48-62 | the computed units last as long as the packet, and one unit less would not |
| `IsoResources.FwIsoResources.Allocate` | sound/firewire/iso-resources.c:105-146 | attempts are repeated exactly while a reset intervenes; the fields are those of the last attempt |
| `IsoResources.FwIsoResources.Update` | sound/firewire/iso-resources.c:160-194 | gives up the allocation exactly on errors other than -EAGAIN |
| `IsoResources.FwIsoResources.Free` | sound/firewire/iso-resources.c:203-225 | releases with the generation of the allocation and forgets it |
| `RomReader.IncreasingBound` | drivers/firewire/core-device.c:740-762 | strictly increasing sources bound the stack |
| `RomReader.WeightBelow` | drivers/firewire/core-device.c:704-766 | references found in a block weigh less, as a binary number over source positions, than the one that led to it |
| `RomReader.ReadBusInfo` | drivers/firewire/core-device.c:672-687 | busy iff the first quadlet is answered with zero, complete iff all five are answered and it is not |
| `RomReader.ReadHeader` | drivers/firewire/core-device.c:716-732 | the end of the block; a block that leaves the image is cleared and skipped |
| `RomReader.TakeEntry` | drivers/firewire/core-device.c:745-762 | a pointer of a directory is pushed, or cleared if it points outside; sources on the stack keep increasing |
| `RomReader.ReadBlock` | drivers/firewire/core-device.c:711-765 | sources on the stack keep increasing whatever is read; a block of an honest device is copied and its pointers pushed in order |
| `RomReader.ReadConfigRom` | drivers/firewire/core-device.c:653-766 | for any device the walk ends, the stack fits its 256 slots, the WARN_ON never fires and quadlets beyond the length stay zero; for an honest device with a well-formed image every reachable block is reproduced |
| `RomReader.PushedComplete` | drivers/firewire/core-device.c:740-763 | every pointer of a directory is pushed |
| `RomReader.ClosedReaches` | drivers/firewire/core-device.c:701-766 | when the stack is empty, whatever can be reached has been read |
| `RomLayout.EntryLands` | drivers/firewire/core-card.c:117-137 | each root entry points to the first quadlet of its descriptor, which is there in full |
| `RomLayout.RawStepped` | drivers/firewire/core-card.c:129-144 | the generated lengths lead from block header to block header and exactly to the end |
| `RomLayout.SealIs` | drivers/firewire/core-card.c:44-54 | the CRC pass changes exactly the headers, each by the CRC of its own block |
| `RomLayout.RootHeader` | drivers/firewire/core-card.c:129-130 | the image starts non-empty, and its root directory has the length of its entries |
| `RomLayout.RootCrc` | drivers/firewire/core-card.c:44-54 | the root directory carries the CRC of its entries |
| `RomLayout.BlockInImage` | drivers/firewire/core-card.c:129-144 | every block of every descriptor is in the image, with its length and its contents |
| `RomLayout.GeneratedReadable` | drivers/firewire/core-card.c:89-147 | a generated image is well formed for the reader if each descriptor, on its own, has pointers that stay on its blocks |
| `RomLayout.DescriptorReachable` | drivers/firewire/core-card.c:120-127 | every descriptor with a leaf or directory key is reached from the root directory |
| `RomLayout.InnerReached` | drivers/firewire/core-card.c:117-137 | what the pointers inside a descriptor lead to is reached in the image by the same path below its root entry |
| `RomLayout.ReadBack` | drivers/firewire/core-device.c:701-766 | generator and reader together: the reader gets back length and contents of every block that the pointers of a descriptor lead to |
| `ConfigRom.Registry.AddDescriptor` | drivers/firewire/core-card.c:160-195 | -EINVAL iff the blocks do not add up, -EBUSY iff there is no room, else registered; the length stays at most 256 |
| `ConfigRom.Registry.RemoveDescriptor` | drivers/firewire/core-card.c:198-208 | count and length follow the remaining descriptors |
| `ConfigRom.Registry.GenerateConfigRom` | drivers/firewire/core-card.c:89-147 | exactly config_rom_length quadlets, as laid out and sealed; the final WARN_ON never fires |
| `SytSequence.PhaseExact` | sound/firewire/amdtp-stream.c:420-439 | the 147-phase generator produces exactly the rounded differences of n * 655360 / 147 |
| `SytSequence.SytExact` | sound/firewire/amdtp-stream.c:410-447 | for every rate and every call m: the offset of the sample due in cycle m, and no information iff none is due |
| `SytSequence.BlocksExact` | sound/firewire/amdtp-stream.c:368-408 | for every rate and every k, the first k non-blocking packets carry ceil(k * rate / 8000) data blocks |
| `Syt.OffsetInvertsSyt` | sound/firewire/amdtp-stream.c:469-488 | compute_syt_offset inverts compute_syt for every offset and delay below 16 cycles and every cycle |
| `Syt.SytInvertsOffset` | sound/firewire/amdtp-stream.c:1004-1013 | and the other way round for every valid SYT |
| `Syt.ReplayKeepsDistance` | sound/firewire/amdtp-stream.c:469-488 | a replayed packet keeps the distance of its SYT to its cycle modulo 16 cycles |
| `AmdtpStream.TxStream.CacheSeq` | sound/firewire/amdtp-stream.c:506-529 | the cache ring holds what is kept of the most recent received packets, in order |
| `AmdtpStream.CachedCyclesIs` | sound/firewire/amdtp-stream.c:494-504 | the count of cached cycles is what was written and not yet replayed |
| `AmdtpStream.ReplayedPacket` | sound/firewire/amdtp-stream.c:506-558 | through cache and replay a packet keeps its data blocks, and its SYT distance modulo 16 cycles up to the difference of the transfer delays, for every SYT, also one whose tick field is too large; no information stays no information |
| `AmdtpStream.RxStream.PoolSytOffsets` | sound/firewire/amdtp-stream.c:449-467 | the ring gets the exact offsets of the next packets, other entries stay |
| `AmdtpStream.RxStream.PoolDataBlocks` | sound/firewire/amdtp-stream.c:350-408 | the ring gets the data blocks of the next packets in blocking and non-blocking mode |
| `AmdtpStream.RxStream.PoolIdealSeqDescs` | sound/firewire/amdtp-stream.c:531-540 | packet number m is the same however the run is split into batches |
| `AmdtpStream.RxStream.PoolReplayedSeq` | sound/firewire/amdtp-stream.c:542-558 | the ring gets what was cached of the received packets whose turn it is, in order |
| `AmdtpStream.RxStream.EmitPackets` | sound/firewire/amdtp-stream.c:1015-1058 | SYT, blocks and counter of every packet are those of one unbroken stream, in both counter modes |
| `AmdtpStream.RxStream.PoolSeqDescs` | sound/firewire/amdtp-stream.c:560-586 | replays exactly if that is enabled, there is a target, and replay is not on the fly or more than the batch and more than half of the cache waits; then the next received packets, else the next ideal ones |
| `AmdtpStream.RxStream.GeneratePackets` | sound/firewire/amdtp-stream.c:1015-1058 | the i-th packet sent in a replay has the data blocks and the SYT distance of the i-th received packet not yet replayed; without replay it is the next one of the ideal sequence |
| `Cip.FieldsOf` | sound/firewire/amdtp-stream.c:677-688 | generated header fields are what the receiver extracts |
| `Cip.CheckGenerated` | sound/firewire/amdtp-stream.c:714-770 | every generated header passes the format checks and its number of blocks is recovered |
| `Cip.StreamAccepted` | sound/firewire/amdtp-stream.c:677-811 | every run of generated headers is accepted by a matching receiver, with the same blocks and SYTs, in begin- and end-event mode |
| `Cip.LossDetected` | sound/firewire/amdtp-stream.c:772-803 | a gap of lost blocks is reported at the next packet iff it is not a multiple of 256 |
| `Cip.DropNoticed` | sound/firewire/amdtp-stream.c:772-803 | the same for packets dropped in the middle of a stream |
| `Transactions.LabelExhausted` | drivers/firewire/core-transaction.c:311-329 | the search for a label fails iff all 64 are in use |
| `Transactions.Card.AllocateTlabel` | drivers/firewire/core-transaction.c:311-329 | returns an unused label and marks it, or fails iff all 64 are in use |
| `Transactions.StepInv` | drivers/firewire/core-transaction.c:39-239 | in every run pending transactions have distinct labels whose mask bits are set, and no other bits are |
| `Transactions.ResponseUnique` | drivers/firewire/core-transaction.c:1181-1184 | a response is for at most one pending transaction, the one with its source and label |
| `Transactions.StepOnce` | drivers/firewire/core-transaction.c:83-174 | a step keeps one callback per ended transaction iff it is not a completion that overtakes an expired timer |
| `Transactions.StepSurplus` | drivers/firewire/core-transaction.c:83-174 | each step calls an owner back exactly when its transaction ends, plus once for an overtaking completion |
| `Transactions.RunSurplus` | drivers/firewire/core-transaction.c:83-444 | over any run the callbacks beyond those due are exactly as many as the overtaking completions, transaction by transaction |
| `Transactions.RunOk` | drivers/firewire/core-transaction.c:83-444 | over any run labels stay consistent, and each owner is called back exactly once, when its transaction ends, iff no completion of the run overtakes an expired timer |
| `Transactions.OvertakingCallsTwice` | drivers/firewire/core-transaction.c:83-118 | such a completion always leads to a second callback when the timer handler runs |
| `Transactions.OvertakingHappens` | drivers/firewire/core-transaction.c:83-174 | a legal run from the empty state in which a response overtakes an expired timer and the owner is called back twice |
| `Transactions.Card.Send` | drivers/firewire/core-transaction.c:394-431 | takes a label, or reports the send error at once |
| `Transactions.Card.Enqueue` | drivers/firewire/core-transaction.c:433-436 | puts the transaction on the pending list |
| `Transactions.Card.CloseTransaction` | drivers/firewire/core-transaction.c:97-118 | completes the transaction iff it is pending |
| `Transactions.Card.HandleResponse` | drivers/firewire/core-transaction.c:1138-1207 | completes the transaction with that source and label, if any |
| `Transactions.Card.StartSplitTimeout` | drivers/firewire/core-transaction.c:177-185 | arms the timer of a pending transaction once |
| `Transactions.Card.SplitTimeout` | drivers/firewire/core-transaction.c:157-174 | ends a pending transaction, and does nothing to one that has ended |
| `AddressHandlers.EnclosedOnce` | drivers/firewire/core-transaction.c:572-590 | a non-empty request outside the FCP range is enclosed by at most one handler |
| `AddressHandlers.SearchMisses` | drivers/firewire/core-transaction.c:663-678 | a concrete region with a free range that the search steps over |
| `AddressHandlers.SlottedSearch` | drivers/firewire/core-transaction.c:663-678 | if every handler that meets the region is one of its slots of the requested length, the search succeeds iff a slot can be used, and whenever any free range is left |
| `AddressHandlers.Registry.AddHandler` | drivers/firewire/core-transaction.c:649-684 | -EINVAL iff the arguments are not acceptable, else success iff one of the offsets that the search tries lies in the region and can be used; what it finds is disjoint from all others unless inside the FCP range |
| `AddressHandlers.Registry.RemoveHandler` | drivers/firewire/core-transaction.c:696-705 | keeps all others |
| `AddressHandlers.Registry.LookupOverlapping` | drivers/firewire/core-transaction.c:558-570 | finds an overlapping handler iff there is one |
| `AddressHandlers.Registry.Dispatch` | drivers/firewire/core-transaction.c:986-1016 | the one handler that encloses the request |
| `AddressHandlers.Registry.DispatchFcp` | drivers/firewire/core-transaction.c:1021-1099 | refused unless a write of at most 512 bytes to the command or response register; then every enclosing handler, once and in order |
| `Fragments.FirstHeaderFields` | drivers/firewire/net.c:75-102 | header of first fragments: getters invert the setter |
| `Fragments.LaterHeaderFields` | drivers/firewire/net.c:75-111 | header of other fragments: getters invert the setter |
| `Fragments.InsertExact` | drivers/firewire/net.c:290-354 | recording a fragment that overlaps none adds exactly its bytes and keeps the intervals apart |
| `Fragments.OrderMatters` | drivers/firewire/net.c:335-342 | a concrete order of arrival after which all bytes are there but completion is missed: the witness for CompleteIff |
| `Fragments.UpdatedOk` | drivers/firewire/net.c:418-434 | buffer and intervals of a partial datagram stay exactly those of the fragments received |
| `Fragments.CompleteMeans` | drivers/firewire/net.c:436-443 | completion is reported only if fragments that do not overlap cover every byte |
| `FragmentOrder.OrderStep` | drivers/firewire/net.c:290-354 | recording a fragment keeps an ascending list iff the fragment fits in fine; a list that is not ascending never becomes so |
| `FragmentOrder.ListAfterIs` | drivers/firewire/net.c:290-354 | after any arrivals the list covers exactly the bytes received, and it is ascending iff every arrival was fine |
| `FragmentOrder.CompleteIff` | drivers/firewire/net.c:335-354 | for any order of arrival of fragments that cover a datagram without overlap, completion is noticed iff for each of them the bytes already there below it form at most one run and, if it does not continue that run, no earlier fragment starts at its end |
| `Fragments.ReceiveOk` | drivers/firewire/net.c:562-704 | pdg_size is the length of the list and at most 30 after any packet, and what is delivered was covered |
| `Fragments.StarvedOk` | drivers/firewire/net.c:640-680 | without memory the list stays consistent, and nothing is delivered or kept that would not have been otherwise |
| `FwNet.RoundTrip` | drivers/firewire/net.c:562-704 | any datagram of 1 to 4096 bytes, fragmented and received in order, is delivered once, unchanged, and leaves nothing behind |
| `FwNet.AnyOrder` | drivers/firewire/net.c:562-704 | a datagram cut into fragments in any way and received in any order is delivered once and unchanged iff all arrivals are fine in that sense, and otherwise its partial datagram stays behind |
| `FwNet.PacketTask.Transmit` | drivers/firewire/net.c:825-950 | the frames sent are those of the datagram up to the first one that fails, all of them if none does, and nothing stays outstanding |
| `FwNet.PacketTask.SendNext` | drivers/firewire/net.c:845-890 | the next fragment, with the right type, offset and payload; the BUG for an impossible header is never reached |
| `FwNet.FragOverlap` | drivers/firewire/net.c:276-287 | an overlapping interval exists |
| `FwNet.FragNew` | drivers/firewire/net.c:290-354 | the list of intervals after a new fragment |
| `FwNet.Peer.Incoming` | drivers/firewire/net.c:562-704 | any frame, with or without memory, keeps list and count consistent and delivers what the specification delivers |
| `FwNet.Peer.Store` | drivers/firewire/net.c:636-680 | the fragment starts, extends or replaces the partial datagram of its label, the oldest making room; without the memory it needs, that one is given up |

## Left out

- Node pointers, list links and descriptor pointers are indices into a sequence that is a field of the object instead of separate heap objects; intrusive lists are sequences.  In-place update and aliasing of those cells is captured, allocation and freeing of memory and reference counts are not.
- Memory allocation failure (except for DMA pages, descriptor space and partial datagrams), tracing, locking and interrupts: steps that run under a lock are atomic steps.
- Topology.FwCard.BuildTree: a failed build leaves its nodes in the store, unreachable, where the code frees them.
- Topology.FwCard.HandleBusReset: requires an accepted report with the local PHY to pass the test of WholeBusIff (the code accepts others, see OrphansAreAccepted; how a walk goes on then depends on whether a port index left as a colour, see OrphanKeepsPortIndex, is the colour of the card), and the next colour to differ from the tree's (the 8-bit colour wraps only after 255 consecutive failed builds); the topology map register is not modelled.
- Topology.FwCard.UpdateTree: its outcome is described with ghost results, the pairing of nodes and the events.
- OhciContext.Context.Append: a page of 4096 bytes and a 48-byte header (64-bit machines) are fixed; starting and stopping the DMA program and wake-up registers are not modelled.
- OhciContext.Context.RetireDescriptors: runs in one piece; interleaving with appends is in DescriptorQueue.Step, one round of the loop at a time.
- IsoManage.ResourceManage: the transaction layer is a function that answers the n-th lock request.
- IsoResources.FwIsoResources.Allocate: the delay after a bus reset is one answer per attempt; a run that is reset for ever is cut off with -EAGAIN.
- RomReader.ReadConfigRom: detection of quirks, the speed probe and retries of busy reads are not modelled.
- RomLayout.RawStepped: the CRC is any function; the polynomial and byte order are not modelled.
- AmdtpStream.RxStream.PoolIdealSeqDescs: a batch is at most as long as the ring, as the packet queue guarantees.
- AmdtpStream.RxStream.GeneratePackets: the cycle of each packet is given; computing cycles from context headers and the start-up of stream domains are not modelled.
- Cip.Check: a receiver that overrides the block size with zero is refused instead of dividing by zero.
- Transactions.RunOk: card removal (fw_cancel_pending_transactions) and the packets themselves are not modelled.
- AddressHandlers.Registry.AddHandler: addresses are unbounded integers, so 64-bit overflow of offset plus length is not modelled.
- AddressHandlers.Registry.DispatchFcp: the growing buffer of handlers and the reference counts are not modelled.
- FwNet.Peer.Incoming: memory is there for a whole frame or not at all, the ether type of a datagram that never had a first fragment is 0, and the lookup of the peer, which refuses fragments of unknown ones, would only add easy members.
- FwNet.PacketTask.Transmit: statistics, the GASP header of broadcasts and the release of the task are not modelled.
- Register access, PHY configuration, the bus manager apart from its use of the hop count, character devices, SBP-2, the device state machine, sysfs, FCP and AV/C command sets, vendor drivers: input and output, tables or easier members.
