# A model of a TCP/IP stack simulator, and what it guarantees

The repository simulates routers and switches in C: an event dispatcher, a timing
wheel, a memory manager, intrusive containers, VLAN switching, and the DDCP and
IS-IS protocols with a traffic-engineering database.  This project models the parts
with the most state and proves what they are for.

| file | component | source |
|---|---|---|
| `Avl.dfy`, `TedOrder.dfy` | the intrusive AVL tree with parent pointers, cached ends and cached height; its comparator in the database | `Tree/avl.c`, `Tree/libtree.h`, `ted/ted.c` |
| `Mm.dfy` | one page family of the memory manager: pages, block headers, free list | `LinuxMemoryManager/mm.c`, `LinuxMemoryManager/mm.h` |
| `Wheel.dfy`, `Arith.dfy` | a flat set of absolute deadlines, and the timing wheel that refines it | `libtimer/WheelTimer.c` |
| `Ddcp.dfy` | the per-router query and reply databases, and flooding as runs of a network | `Layer5/ddcp/ddcp.c` |
| `Ted.dfy` | the graph of routers, interface slots and links | `ted/ted.c` |
| `Vlan.dfy`, `IntfConfig.dfy`, `L2Switch.dfy` | frames byte by byte, interface configuration, the learning switch, runs of a network of switches | `Layer2/*` |
| `Dispatcher.dfy` | the dispatcher as interleaved lock-protected steps, and its code as one class | `EventDispatcher/event_dispatcher.c` |
| `LspQueue.dfy` | the LSP transmit queues and their counters | `Layer5/isis/isis_flood.c` |
| `Fsm.dfy` | the table-driven engine, binary-to-hex, IPv4 validation | `FSMImplementation/*` |
| `Tlv.dfy` | TLV buffers and nested neighbour records | `utils.c`, `utils.h`, `Layer5/isis/isis_adjacency.c` |
| `Glthread.dfy` | the glue list as pointers, refined to sequences | `gluethread/glthread.c` |

`Common.dfy` holds what several components share.  Code that works in place is modelled by
classes and arrays.  Protocols are step functions, and their theorems range over every run.
`Valid`, `Inv` and the like name the invariants; every operation keeps the one of its
component.

Where the code does something that its purpose does not suggest, the model follows
the code:

* `mm_union_free_blocks` does not add the bytes of the second block, so a block may be
  followed by a gap: after a free that happens exactly if a neighbour was free
  (`Mm.Family.Reach`, and `Mm.ReachGap` gets there).  The gap is given back when its owner is
  next freed (`Mm.Family.Absorb`).
* A periodic DDCP trigger takes a new sequence number without flooding it, so
  "everybody knows the latest number" holds exactly if the last trigger was not
  periodic (`Ddcp.UpToDate`, `Ddcp.PeriodicTriggerIsSilent`).
* The VLAN id is a signed 12-bit field: a tag is read back as it was written exactly for
  ids below 2048 (and for those that wrap to them), `Frames.TagReads`.
* Untagging a frame with two tags leaves one (`Frames.UntagsOnce`), so an access port lets out
  untagged frames exactly as far as hosts send none with two (`SwitchedNetwork.UntaggedExactly`,
  `SwitchedNetwork.TaggedFrameLeaves`).  The checksum is then cleared behind the frame.  In the
  copy that a flood works on, which ends where its buffer ends, that is outside
  (`L2Switch.Switch.Flood`); the model keeps what lies in the buffer and says so.
* Giving an IP address to a trunk keeps its VLANs through the change to access mode, and
  the next VLAN set then does not take effect (`InterfaceConfig.AddressOnTrunk`); the exact
  conditions are `InterfaceConfig.RunProper` and `InterfaceConfig.TakesEffect`.
* The default comparator of the database subtracts unsigned numbers; it is an order exactly
  on ranges of less than 2^31 ids (`TedOrder.OrdersRange`).
* The size of all neighbour records is summed in 16 bits; it is exact for up to 1985
  neighbours (`NbrTlv.SizeIsExact`).
* `mm_allocate_free_data_block` asks for `req / MAX(1) + 1` pages.  In the 32-bit field that
  stores the block size this is enough exactly if the payload of those pages is below 2^32
  (`Mm.EnoughPages32`).
* Line 266 of `ted/ted.c` is a statement without effect: the far interface keeps its index
  when a link is reattached by its near end.  When the link then bears what was asked for,
  and when interface indexes stay unique, is stated exactly (`Ted.Database.Resurrect`), and
  `Ted.FarIndexStays` shows both failing.
* `ted_plug_in_interface` stops the program if a router has no free slot.  A router is full
  with eleven interfaces (`Ted.FullNeighbour`).  When an update runs into that is stated for
  the database before the call: by counting (`Roomy`), and exactly, by a table of interfaces,
  in `Ted.Database.CreateOrUpdate`.  The order of the neighbours can decide
  (`Ted.OrderDecides`).
* `pkt_q_enqueue` adds at the end that `task_get_next_pkt` takes from: the newest packet comes
  first (`Dispatcher.NewestFirst`).
* A frame for a station known at the port it came in on is sent back there
  (`L2Switch.ForwardExact`).
## Model

| member | source | states |
|---|---|---|
| `Avl.AvlTree.constructor` | Tree/avl.c:566-574 | an empty tree, for any comparator that orders the keys in use |
| `Avl.AvlTree.GetFirst` | Tree/avl.c:119-124 | the leftmost node of a subtree is the first of its interval of in-order positions |
| `Avl.AvlTree.GetLast` | Tree/avl.c:126-131 | the rightmost node of a subtree is the last of its interval |
| `Avl.AvlTree.Next` | Tree/avl.c:143-153 | the node at the next in-order position, null at the end; with `Prev` each undoes the other |
| `Avl.AvlTree.Prev` | Tree/avl.c:155-165 | the node at the previous in-order position, null at the start |
| `Avl.AvlTree.RotateLeft` | Tree/avl.c:174-194 | rewrites the links around two nodes only, keeps the in-order sequence and the parent/child mirror, counts one rotation |
| `Avl.AvlTree.RotateRight` | Tree/avl.c:196-216 | the mirror image of `RotateLeft` |
| `Avl.AvlTree.SingleLeft` | Tree/avl.c:316-342 | restores balance at a right-heavy node; says when the subtree gets lower |
| `Avl.AvlTree.SingleRight` | Tree/avl.c:344-370 | restores balance at a left-heavy node; says when the subtree gets lower |
| `Avl.AvlTree.DoubleLeft` | Tree/avl.c:322-341 | the double rotation: every balance right, the subtree one level lower than before |
| `Avl.AvlTree.DoubleRight` | Tree/avl.c:350-369 | the mirror image of `DoubleLeft` |
| `Avl.AvlTree.Lookup` | Tree/avl.c:223-259 | finds the node with the key, or the gap where it belongs and the last node on the way that is not in perfect balance |
| `Avl.AvlTree.Hang` | Tree/avl.c:282-296 | the new leaf enters the gap; only its parent is one level out of date; the cached ends are right |
| `Avl.AvlTree.Retrace` | Tree/avl.c:298-308 | the balances between leaf and `unbalanced` follow, and only `unbalanced` is left to settle |
| `Avl.AvlTree.Rebalance` | Tree/avl.c:310-372 | at most two rotations settle it, and the height field grows exactly when the tree does |
| `Avl.AvlTree.Insert` | Tree/avl.c:270-374 | a present key returns its node and changes nothing; otherwise the node joins at its place in the order, the whole invariant holds, at most two rotations |
| `Avl.AvlTree.ShrunkLeft` | Tree/avl.c:460-498 | one turn of the removal loop: either all balanced and the height is as before, or the parent now sees a lower subtree |
| `Avl.AvlTree.ShrunkRight` | Tree/avl.c:499-538 | the mirror image of `ShrunkLeft` |
| `Avl.AvlTree.Splice` | Tree/avl.c:390-393 | removal of a node with at most one child: the order loses exactly it, only the parent sees a lower subtree |
| `Avl.AvlTree.Promote` | Tree/avl.c:402-412 | removal when the successor is the right child |
| `Avl.AvlTree.Lift` | Tree/avl.c:402-430 | removal when the successor sits deeper and moves up |
| `Avl.AvlTree.Recover` | Tree/avl.c:455-540 | the rebalancing loop restores the invariant and the height field by each of its ways out |
| `Avl.AvlTree.Remove` | Tree/avl.c:377-541 | the whole invariant holds for exactly the other nodes, in their order |
| `Avl.AvlTree.Sweep` | Tree/libtree.h:184-192 | the delete-safe loop visits every element once, in order, while its body removes any of the elements it is at |
| `Avl.AvlTree.ValidMeans` | Tree/avl.c:133-141 | the invariant read without ghost fields: in-order traversal sorted, first and last, stored balances equal to real height differences, height field exact |
| `Avl.AvlTree.InOrderSlice` | Tree/avl.c:119-131 | the recursive in-order traversal of a subtree is its slice of the sequence |
| `Avl.AvlTree.HeightIsReal` | Tree/avl.c:38-56 | the height that the balances speak of is the recursive height of the pointer structure |
| `Avl.AvlTree.Bushy` | Tree/avl.c:377-541 | a subtree of a height has at least the nodes of the sparsest AVL tree |
| `Avl.AvlTree.Logarithmic` | Tree/avl.c:223-259 | the height is logarithmic in the number of nodes, which is what the balances are for |
| `Avl.FewestDoubles` | Tree/avl.c:223-259 | the sparsest AVL tree doubles every two levels |
| `TedOrder.OrdersRange` | ted/ted.c:139-146 | the unsigned difference orders the ids in a range if and only if the range spans less than 2^31 |
| `Mm.Family.constructor` | LinuxMemoryManager/mm.c:274-330 | an empty family |
| `Mm.Family.Disjoint` | LinuxMemoryManager/mm.c:407-483 | two blocks of the family never overlap, headers included |
| `Mm.Family.Chain` | LinuxMemoryManager/mm.h:67-96 | the blocks of a page are linked in address order |
| `Mm.Family.Inside` | LinuxMemoryManager/mm.h:67-74 | a block with its header lies inside its page |
| `Mm.Family.PageOf` | LinuxMemoryManager/mm.h:73-74 | subtracting the stored offset leads back to the page |
| `Mm.Family.AddFree` | LinuxMemoryManager/mm.c:375-385 | the free list stays sorted by size and gains exactly the block |
| `Mm.Family.Unlist` | gluethread/glthread.c:76-97 | the free list loses exactly the block |
| `Mm.Family.Bind` | LinuxMemoryManager/mm.h:86-91 | a block enters the chain of its page behind another one; the layout holds |
| `Mm.Family.Split` | LinuxMemoryManager/mm.c:407-483 | too small: nothing changes; otherwise exactly the bytes asked for, and a free rest behind exactly if a header fits |
| `Mm.Family.Unbind` | LinuxMemoryManager/mm.h:93-96 | a block leaves the chain; what it occupied becomes a gap |
| `Mm.Family.Union` | LinuxMemoryManager/mm.c:567-576 | both free blocks leave the list, the second one the chain; the first keeps its size |
| `Mm.Family.Absorb` | LinuxMemoryManager/mm.c:620-642 | the freed block takes everything up to its successor or the end of its page |
| `Mm.Family.MergeRight` | LinuxMemoryManager/mm.c:644-649 | only free blocks other than the freed one and its left neighbour disappear |
| `Mm.Family.MergeLeft` | LinuxMemoryManager/mm.c:650-656 | the survivor is the left neighbour exactly if that was free |
| `Mm.Family.IsEmpty` | LinuxMemoryManager/mm.c:678-688 | one block, which is free |
| `Mm.Family.DeletePage` | LinuxMemoryManager/mm.c:578-604 | page and block are gone, and nothing on the free list points into the page |
| `Mm.Family.Free` | LinuxMemoryManager/mm.c:606-666 | the invariant holds, no other live block changes, and the page goes back exactly if it held no other live block; what is returned is resident and free, and reaches up to its successor if and only if neither neighbour was free |
| `Mm.Family.Reach` | LinuxMemoryManager/mm.c:567-576 | when a union of blocks leaves a gap: exactly if a neighbour of the block freed was free |
| `Mm.ReachGap` | LinuxMemoryManager/mm.c:606-666 | three allocations and two frees after which a free block ends short of the next one |
| `Mm.Family.AvailableIndex` | LinuxMemoryManager/mm.c:75-95 | the length of the run of pages numbered without a hole |
| `Mm.Family.AddPage` | LinuxMemoryManager/mm.c:235-271 | the new page takes the smallest free index and the list stays sorted by index |
| `Mm.Family.NewPage` | LinuxMemoryManager/mm.c:387-401 | one more page that is one free block of the whole payload |
| `Mm.Family.Biggest` | LinuxMemoryManager/mm.h:130-141 | the head of the free list is the biggest free block |
| `Mm.Family.Allocate` | LinuxMemoryManager/mm.c:485-525 | never fails; worst fit; a new page of the size computed only if no free block is big enough; what is left over is one new free block, or a gap if no header fits; no other block changes |
| `Mm.EnoughPages` | LinuxMemoryManager/mm.c:65-73 | the pages requested always hold the bytes requested |
| `Mm.UnitsExact` | LinuxMemoryManager/mm.c:485-503 | the pages requested hold more than the request, and one page less would not |
| `Mm.EnoughPages32` | LinuxMemoryManager/mm.c:485-503 | with the block size stored in 32 bits this holds if and only if the payload is below 2^32 |
| `Mm.LargestRequestFails` | LinuxMemoryManager/mm.c:485-503 | with pages of 8192 bytes the largest request is on the failing side; the size then stored |
| `Mm.Family.Occupied` | LinuxMemoryManager/mm.c:658-663 | a page that is not returned after a free has a live block |
| `Mm.Family.StillUsed` | LinuxMemoryManager/mm.c:606-666 | after a free, every resident page has a live block |
| `Mm.Family.Run` | LinuxMemoryManager/mm.c:485-525 | any sequence of allocations and frees, wherever the kernel puts new pages: each block held has exactly the size asked for and memory of its own, blocks in use before stay, and no page without a live block is left |
| `FlatTimer.FiresOnTime` | libtimer/WheelTimer.c:113-185 | an element absorbed at a tick with an interval of k ticks fires exactly k ticks later, and every k ticks if recurring |
| `FlatTimer.Course` | libtimer/WheelTimer.c:139-178 | the deadline after any number of ticks |
| `FlatTimer.Waits` | libtimer/WheelTimer.c:304-319 | until it is due the remaining time is positive and drops by one tick per tick |
| `FlatTimer.StaysAway` | libtimer/WheelTimer.c:97-102 | a timer asked to be dropped is gone from the next tick on, and never fires after it |
| `WheelTimer.Wheel.constructor` | libtimer/WheelTimer.c:187-215 | an empty wheel at time zero |
| `WheelTimer.Wheel.Place` | gluethread/glthread.c:139-186 | insertion keeps the slot sorted by cycle |
| `WheelTimer.Wheel.Insert` | libtimer/WheelTimer.c:77-95 | slot and cycle are those of the absolute deadline |
| `WheelTimer.Wheel.Unqueue` | libtimer/WheelTimer.c:60-76 | the element leaves its slot, the others keep their deadlines |
| `WheelTimer.Wheel.NothingDue` | libtimer/WheelTimer.c:138-182 | stopping at the first cycle mismatch is sound: no later element of the slot is due |
| `WheelTimer.Wheel.Visit` | libtimer/WheelTimer.c:139-178 | the head is due; it is queued again ahead of the clock exactly if recurring |
| `WheelTimer.Wheel.Scan` | libtimer/WheelTimer.c:131-183 | exactly the elements due fire, each once, though recurring ones may go back into the slot being scanned |
| `WheelTimer.Wheel.Ask` | libtimer/WheelTimer.c:218-244 | one pending operation per element, the latest one, at the head of the list |
| `WheelTimer.Wheel.Register` | libtimer/WheelTimer.c:247-280 | a new element that asks to be armed |
| `WheelTimer.Wheel.Deregister` | libtimer/WheelTimer.c:282-287 | in the flat model, this element asks to be dropped and no other changes |
| `WheelTimer.Wheel.Reschedule` | libtimer/WheelTimer.c:289-302 | in the flat model, this element asks for a new interval and no other changes |
| `WheelTimer.Wheel.Take` | libtimer/WheelTimer.c:54-108 | one pending operation has the effect the flat model gives it |
| `WheelTimer.Wheel.Drain` | libtimer/WheelTimer.c:50-111 | all of them, for every element at once |
| `WheelTimer.Wheel.Tick` | libtimer/WheelTimer.c:113-185 | refinement: each element moves as its flat deadline does, and exactly those due fire, each once |
| `WheelTimer.Wheel.Follow` | libtimer/WheelTimer.c:113-185 | on every run of ticks, registrations, reschedules and withdrawals of others, an element that gets no command behaves as its flat timer does |
| `WheelTimer.Wheel.Watch` | libtimer/WheelTimer.c:113-185 | hence one armed for k ticks rings exactly k ticks after it is absorbed, or at every multiple of k |
| `WheelTimer.Wheel.Retire` | libtimer/WheelTimer.c:52-111 | and one withdrawn rings at most in the tick that takes the request, if it was due then; from that tick on it is gone and never rings |
| `WheelTimer.Wheel.Lifetime` | libtimer/WheelTimer.c:226-302 | from registration to withdrawal: it rings on time up to the tick that takes the request, and never again |
| `WheelTimer.Wheel.Remaining` | libtimer/WheelTimer.c:304-319 | the time to the deadline, at least one tick; the new interval while one is asked for |
| `Ddcp.Node.Lookup` | Layer5/ddcp/ddcp.c:513-528 | the first entry of the originator, or none |
| `Ddcp.Node.NextOwn` | Layer5/ddcp/ddcp.c:530-552 | the own number rises by one, starting at zero; no other number changes |
| `Ddcp.Node.ShouldProcess` | Layer5/ddcp/ddcp.c:554-597 | abort, reject or accept by the rule of the source; an accepted number is stored and nothing else changes |
| `Ddcp.Node.Flood` | Layer5/ddcp/ddcp.c:74-91 | one copy on every usable interface but the exempted one, and none else |
| `Ddcp.Node.Receive` | Layer5/ddcp/ddcp.c:327-383 | an accepted query is stored, and flooded if a reply could be prepared; any other leaves no trace |
| `Ddcp.Node.Trigger` | Layer5/ddcp/ddcp.c:647-711 | takes the next number, and floods it exactly if there is no interval |
| `Ddcp.ReplyDb.AddOrUpdate` | Layer5/ddcp/ddcp.c:414-473 | per address the newest reply is kept; one entry per address |
| `Ddcp.ReplyDb.Collect` | Layer5/ddcp/ddcp.c:414-473 | whatever replies arrive in whatever order, for each address the highest number is what is left |
| `Ddcp.Replaced` | Layer5/ddcp/ddcp.c:580-596 | overwriting the first entry of an originator changes what is found for it only |
| `Ddcp.StepInv` | Layer5/ddcp/ddcp.c:327-383 | every delivery, in any order, and every trigger keeps the coverage invariant |
| `Ddcp.RunInv` | Layer5/ddcp/ddcp.c:327-383 | so it holds on every run |
| `Ddcp.NeverAborts` | Layer5/ddcp/ddcp.c:572-575 | the assertion on one's own future numbers never fails, on any run of any network |
| `Ddcp.Coverage` | Layer5/ddcp/ddcp.c:74-91 | with nothing in flight, everybody reachable stores the number flooded last |
| `Ddcp.UpToDate` | Layer5/ddcp/ddcp.c:668-711 | the number flooded last is the latest if and only if the last trigger had no interval |
| `Ddcp.CoverageOfLatest` | Layer5/ddcp/ddcp.c:647-711 | with nothing in flight, those reachable store the latest number if the last trigger of the originator had no interval |
| `Ddcp.OnlyOverRoutes` | Layer5/ddcp/ddcp.c:554-597 | on every run, a router stores a number only of an originator that has a route to it over interfaces where DDCP is on |
| `Ddcp.KnownExactly` | Layer5/ddcp/ddcp.c:554-597 | so with nothing in flight, the routers that know an originator that has flooded are exactly those with a route from it |
| `Ddcp.PeriodicTriggerIsSilent` | Layer5/ddcp/ddcp.c:680-711 | a run of two routers that ends quiet with different numbers |
| `Ddcp.WorkDrops` | Layer5/ddcp/ddcp.c:554-597 | every delivery lowers the sum of sequence gaps, weighted, plus messages in flight |
| `Ddcp.FloodingEnds` | Layer5/ddcp/ddcp.c:64-91 | hence no run without triggers is longer than the work at its start |
| `Ddcp.AlwaysEnds` | Layer5/ddcp/ddcp.c:64-91 | on every network, after any run, there is a bound on the deliveries that can follow without a trigger |
| `Ted.Database.EmptySlot` | ted/ted.c:4-13 | the first free slot, or -1 exactly if there is none |
| `Ted.Database.PlugIn` | ted/ted.c:29-47 | one slot and one end are joined and the flag follows; fails exactly if the router is full |
| `Ted.Database.PlugOut` | ted/ted.c:49-62 | one slot and one end are parted and the flag follows |
| `Ted.Database.IsPluggedIn` | ted/ted.c:64-70 | the three conditions together say exactly whether the end is attached |
| `Ted.Database.FreeIfDetached` | ted/ted.c:72-80 | the link is released exactly if neither end is attached |
| `Ted.Database.Pull` | ted/ted.c:82-96 | one slot is emptied; no other end changes, and the link is released exactly if that was its last one |
| `Ted.Database.UnplugAll` | ted/ted.c:82-96 | no end is left at the router, other ends stay, and exactly the links with an end elsewhere survive |
| `Ted.Database.IsBidirectional` | ted/ted.c:98-109 | the comparison of the flag says exactly whether both ends are attached |
| `Ted.Link.constructor` | ted/ted.c:111-137 | a detached link with the two indexes and flag zero |
| `Ted.XorLaws` | ted/ted.c:45-57 | XOR undoes itself and tells different ids apart |
| `Ted.Database.Obtain` | ted/ted.c:156-170 | the router with the id, made and entered if there is none |
| `Ted.Database.Delete` | ted/ted.c:172-182 | the id is gone; only ends at the router are cut |
| `Ted.Database.LookupIntf` | ted/ted.c:201-211 | an interface with the index, or none exactly if no slot has one |
| `Ted.Database.Reattach` | ted/ted.c:245-258 | the interface moves to a slot of the router under its new index; all other slots keep theirs; fails exactly if the router is full and does not hold it already |
| `Ted.Database.Join` | ted/ted.c:296-302 | a new link with both ends in formerly free slots; fails exactly if one of the routers is full |
| `Ted.Database.LinkUp` | ted/ted.c:245-258 | without a local interface: the neighbour's link is reattached, or a new one joins both; the exact failing condition, and what every other router loses or gains |
| `Ted.Database.LinkUpUnique` | ted/ted.c:245-302 | and interface indexes stay unique on every router |
| `Ted.Database.MovedUnique` | ted/ted.c:260-271 | after the far end has moved, indexes are unique if and only if its index was not in use at the router |
| `Ted.Database.RelinkFar` | ted/ted.c:260-271 | with a local interface only: the far end keeps its index, so the link bears what was asked for if and only if that is the one; fails exactly if the remote router is full and the far end is not there |
| `Ted.Database.Renew` | ted/ted.c:273-294 | with interfaces of different links on both sides: a new link bears both indexes, indexes stay unique, and it never fails |
| `Ted.Database.Relink` | ted/ted.c:260-294 | with a local interface: one link joins the two routers, and exactly when it bears both indexes and when indexes stay unique |
| `Ted.Database.Resurrect` | ted/ted.c:213-306 | one link joins the two routers; it bears both indexes if and only if the local one was free, the remote one in use, or the far end had it; exactly when indexes stay unique; in each of the four cases the exact condition, before the call, under which it finds no slot; new neighbours are fake until heard from |
| `Ted.FarIndexStays` | ted/ted.c:260-271 | a database in which the link does not bear what was asked for, and two interfaces of a router have one index |
| `Ted.Database.StillUnique` | ted/ted.c:245-302 | the step that keeps indexes unique on all routers |
| `Ted.Database.EndUnique` | ted/ted.c:245-302 | the slots of the new link bear no index that another slot bears |
| `Ted.Database.Served` | ted/ted.c:324-331 | one more entry: earlier interfaces still serve their entries |
| `Ted.Database.StillUndisturbed` | ted/ted.c:324-331 | one more entry: links it does not ask for keep their ends |
| `Ted.Database.HasSlot` | ted/ted.c:4-13 | a router that serves fewer entries than it has slots is not full, and none serves more |
| `Ted.Database.RoomAfter` | ted/ted.c:328-335 | serving an entry costs no router a slot that it does not need for that entry, whatever link is taken from it |
| `Ted.Database.TightAfter` | ted/ted.c:328-335 | a router from which no link is taken has exactly as many slots to spare as counted before the call |
| `Ted.Database.ShowsTable` | ted/ted.c:201-211 | with unique indexes the table of indexes and far ends shows the database |
| `Ted.Database.ShowsEntry` | ted/ted.c:4-13 | an index is in use, and a router full, exactly if the table says so |
| `Ted.Database.ShowsAfter` | ted/ted.c:245-302 | the database after an entry is shown by the table after it: links, slots and moves refine a step on a table |
| `Ted.Database.CreateOrUpdate` | ted/ted.c:308-344 | exactly one interface per entry, far end at the neighbour under the index given, indexes unique, unrelated links undisturbed, fake exactly those routers never updated themselves; succeeds if no router is short of slots, and only then but for routers that lose an interface to an entry; with unique indexes exactly if the table of interfaces accepts the entries in turn |
| `Ted.FullNeighbour` | ted/ted.c:29-35 | a failing input: a neighbour with eleven interfaces, named under a new index |
| `Ted.OrderDecides` | ted/ted.c:328-335 | two entries that succeed in one order and fail in the other |
| `Frames.TagReads` | Layer2/layer2.h:71-94 | the id read from a tag, and that it is the id written if and only if the signed 12-bit field can hold it; a new tag has no priority, one that is replaced keeps it |
| `Frames.RoundTrip` | Layer2/layer2.c:355-458 | untagging a tagged frame restores it, apart from the cleared checksum |
| `Frames.Retag` | Layer2/layer2.c:368-377 | tagging a tagged frame replaces the id only |
| `Frames.TagsOnce` | Layer2/layer2.c:355-415 | tagging never makes a second tag |
| `Frames.UntagsOnce` | Layer2/layer2.c:419-458 | the result still has a tag if and only if there was a second one |
| `Frames.SetFcs` | Layer2/layer2.h:134-145 | clears four bytes at the place the header in the buffer implies; tells whether they lie in the buffer |
| `Frames.Tag` | Layer2/layer2.c:355-415 | in the buffer, only the frame and the four bytes before it change, to the tagged frame |
| `Frames.Untag` | Layer2/layer2.c:419-458 | in the buffer, the result is the untagged frame four bytes on; all writes are inside if and only if there is no second tag or four bytes follow the frame |
| `InterfaceConfig.Interface.constructor` | net.h:195-220 | no mode, no VLAN, no address |
| `InterfaceConfig.Interface.SetMode` | Layer2/layer2.c:60-122 | the five cases; the VLANs go exactly from trunk to access |
| `InterfaceConfig.Interface.SetVlan` | Layer2/layer2.c:132-186 | refused without an L2 mode; last taken slot on access, first free slot on trunk, nothing if present or full |
| `InterfaceConfig.Interface.SetAddress` | net.c:90-102 | L3 mode, and no other change |
| `InterfaceConfig.History` | Layer2/layer2.c:60-122 | after any commands the mode is the one asked for last, the interface works in L3 mode exactly if it was given an address since, and remembers whether a mode ever replaced an address |
| `InterfaceConfig.VlansKept` | Layer2/layer2.c:60-186 | the VLANs survive all changes of the mode but the one from trunk to access in L2 mode, which takes them all; and addresses, and VLAN commands without an L2 mode |
| `InterfaceConfig.TakesEffect` | Layer2/layer2.c:150-163 | the VLAN set is the operating one if and only if it was, or no slot but the first is taken |
| `InterfaceConfig.Membership` | Layer2/layer2.c:165-183 | a trunk gains the VLAN if a slot is free, keeps the others, and has each once |
| `InterfaceConfig.StepProper` | Layer2/layer2.c:60-186 | a command keeps the configuration invariant if and only if it is harmless: no address on an L2 port, no VLAN stored that a tag cannot carry |
| `InterfaceConfig.PortsAreSound` | Layer2/layer2.c:60-186 | they are then as the switches need them, and a VLAN set on an access port takes effect |
| `InterfaceConfig.RunProper` | Layer2/layer2.c:60-186 | on every run of commands, all configurations are proper if and only if all commands are harmless |
| `InterfaceConfig.AddressKeeps` | net.c:90-102 | an address on an L2 port breaks the invariant; back as a trunk it holds again, back as an access port if and only if no slot but the first was taken |
| `InterfaceConfig.AddressOnTrunk` | Layer2/layer2.c:76-84 | a run of six commands from a fresh interface, after which the VLAN set last has no effect |
| `Interfaces.Ingress` | Layer2/layer2.h:172-289 | what an L2 port lets in belongs to the VLAN of the access port, or to one the trunk is enabled for |
| `Interfaces.Admission` | Layer2/layer2.h:172-289 | exactly the frames a port is there for are let in: untagged or of its VLAN on an access port, tagged with a VLAN it is enabled for on a trunk, its own and broadcasts in L3 mode |
| `Interfaces.Egress` | Layer2/l2switch.c:158-243 | a frame of a VLAN leaves exactly on the access ports of the VLAN, untagged, and on the trunks enabled for it, tagged |
| `Interfaces.Release` | Layer2/l2switch.c:158-243 | exactly the frames a port is there for are let out, without the tag on an access port |
| `Interfaces.SendOut` | Layer2/l2switch.c:158-243 | the code on the buffer sends what the port lets out; it stays inside the buffer if and only if it takes off no first of two tags, or four bytes follow |
| `L2Switch.Switch.Lookup` | Layer2/l2switch.c:46-60 | the first entry of the address, or none |
| `L2Switch.Switch.Learn` | Layer2/l2switch.c:92-156 | the source is known at its new port only, all other addresses as before |
| `L2Switch.FloodExact` | Layer2/l2switch.c:245-272 | a flood sends a copy on every port that lets the frame out, except where it came in, and no other; port by port, each once |
| `L2Switch.Switch.Flood` | Layer2/l2switch.c:245-272 | that, with every copy at the end of a packet buffer; the writes stay inside if and only if no port sending takes off the first of two tags |
| `L2Switch.ForwardExact` | Layer2/l2switch.c:274-302 | who gets a frame: the one port where the addressee is known, or every port but the one it came in on, as far as the frame is for that port |
| `L2Switch.Switch.Receive` | Layer2/layer2.c:499-536 | a frame refused has no effect; one let in is tagged in its buffer, learnt from and forwarded, the assertions hold, and it is stated when the writes stay inside |
| `L2Switch.Switch.Run` | Layer2/l2switch.c:304-317 | on any sequence of frames, each goes exactly where its addressee was heard last, or to all other ports if it was not heard, as far as the ports are there for it |
| `L2Switch.Unicast` | Layer2/l2switch.c:289-301 | once a station has been heard and has not moved, a frame for it from elsewhere in its VLAN leaves on its port, once, and on no other; untagged on an access port |
| `L2Switch.RoomBehind` | comm.c:169-185 | with the room that reception leaves behind a frame, only a flood can leave its buffer |
| `L2Switch.Without` | Layer2/l2switch.c:102-106 | removing an entry changes what is found for its address only |
| `SwitchedNetwork.OneIsolated` | Layer2/l2switch.c:158-243 | what one port lets out is isolated, untagged on access ports exactly if it entered with one tag at most, and stays confined on the wire behind it |
| `SwitchedNetwork.StepIsolates` | Layer2/l2switch.c:274-302 | every step of the network, refusals and any learning included, keeps frames in their VLAN |
| `SwitchedNetwork.Isolation` | Layer2/l2switch.c:274-317 | on every run, every frame that leaves a switch does so on an access port of the VLAN where it entered, or tagged with it on a trunk enabled for it; on access ports it is untagged if and only if it did not enter with two tags |
| `SwitchedNetwork.UntaggedExactly` | Layer2/l2switch.c:274-317 | what leaves on an access port stems from a frame that entered on a port of the same VLAN, and is untagged if and only if that frame did not have two tags |
| `SwitchedNetwork.SingleTagged` | Layer2/l2switch.c:274-317 | on every run without frames with two tags, access ports let out untagged frames only |
| `SwitchedNetwork.TaggedFrameLeaves` | Layer2/l2switch.c:191-204 | a run of one switch in which an access port lets a tagged frame out, and a flood that does not stay inside its buffer |
| `SwitchedNetwork.Tables` | Layer2/l2switch.c:131-156 | on every run of a network the tables know of each station the port where that switch heard it last |
| `SwitchedNetwork.Travels` | Layer2/l2switch.c:274-317 | a unicast frame travels from switch to switch along the ports where its addressee was heard, one copy on each and none elsewhere, and leaves untagged |
| `SwitchedNetwork.Delivery` | Layer2/l2switch.c:274-317 | after any run, a frame that a host sends to a station heard along a path of trunks gets there, is sent nowhere else, and arrives as it was sent but for the cleared checksum |
| `Dispatcher.StepInv` | EventDispatcher/event_dispatcher.c:46-199 | every interleaved step keeps the invariant |
| `Dispatcher.RunInv` | EventDispatcher/event_dispatcher.c:46-199 | so it holds on every run |
| `Dispatcher.NoWorkLost` | EventDispatcher/event_dispatcher.c:165-180 | a dispatcher that waits with no signal on its way has an empty task queue, and every packet left has its job about to be queued |
| `Dispatcher.ExactlyOnce` | EventDispatcher/event_dispatcher.c:326-376 | no packet is handed out more often than it was queued, and as often once it is not queued any more |
| `Dispatcher.AssertionsHold` | EventDispatcher/event_dispatcher.c:94-140 | a background task is not queued twice, and a synchronous caller waits before it is signalled |
| `Dispatcher.CreatorsWake` | EventDispatcher/event_dispatcher.c:78-107 | on every run the creator of a synchronous task waits exactly until the task has ended; a dispatcher that sleeps unsignalled leaves nobody waiting |
| `Dispatcher.InOrder` | EventDispatcher/event_dispatcher.c:64-64 | on every run tasks begin in the order in which they were queued, and none is left out |
| `Dispatcher.BackgroundStays` | EventDispatcher/event_dispatcher.c:117-119 | a background task, once created, is queued or under way ever after |
| `Dispatcher.OneShots` | EventDispatcher/event_dispatcher.c:99-116 | a one-shot task that does not ask to run again is queued as often as it is created |
| `Dispatcher.RunsAgain` | EventDispatcher/event_dispatcher.c:94-140 | a task that has returned is queued again exactly if it is a background task, has asked for it since it began, or is the job of a queue with more packets added than handed out |
| `Dispatcher.NewestFirst` | EventDispatcher/event_dispatcher.c:326-364 | the packet handed out next is the one added last, of those that wait |
| `Dispatcher.StepTended` | EventDispatcher/event_dispatcher.c:354-376 | a packet queue with packets always has its job queued, running or about to be queued |
| `Dispatcher.StepConserved` | EventDispatcher/event_dispatcher.c:326-376 | each packet added is waiting or handed out, in every step |
| `Dispatcher.EventDispatcher.ScheduleTask` | EventDispatcher/event_dispatcher.c:46-92 | the code under the lock makes the step of the model |
| `Dispatcher.EventDispatcher.NextTask` | EventDispatcher/event_dispatcher.c:151-197 | the dispatcher takes the next task or blocks, as in the model |
| `Dispatcher.EventDispatcher.NextPacket` | EventDispatcher/event_dispatcher.c:326-351 | the first packet of the queue whose job runs, or none |
| `Dispatcher.EventDispatcher.ProcessPostCall` | EventDispatcher/event_dispatcher.c:94-140 | requeue, wake the caller or drop the task, as in the model |
| `Dispatcher.EventDispatcher.AddToQueue` | EventDispatcher/event_dispatcher.c:354-364 | the packet joins its queue |
| `Dispatcher.EventDispatcher.JobIsQueued` | EventDispatcher/event_dispatcher.c:365-376 | the membership check that decides whether to schedule the job |
| `LspQueue.Node.Queue` | Layer5/isis/isis_flood.c:134-188 | enters the queue exactly if interface and packet allow it; count, job and one reference follow |
| `LspQueue.Node.Dequeue` | Layer5/isis/isis_flood.c:86-117 | the head leaves; its count was positive, as the assertion wants |
| `LspQueue.Node.Transmit` | Layer5/isis/isis_flood.c:60-133 | the queue is emptied; exactly what is still eligible is sent, in order, if an adjacency is up |
| `LspQueue.Node.Purge` | Layer5/isis/isis_flood.c:190-218 | the queue and the job are gone |
| `LspQueue.Node.Disable` | Layer5/isis/isis_intf.c:188-201 | the assertion that queue and job are gone when the interface information is freed holds |
| `LspQueue.Node.Flood` | Layer5/isis/isis_flood.c:220-258 | the packet is queued on every enabled interface but the exempted one |
| `LspQueue.Node.MarkIneligible` | Layer5/isis/isis_flood.c:31-36 | the flag changes, the queues do not |
| `LspQueue.Node.Create` | Layer5/isis/isis_pkt.c:328-342 | a new packet waits nowhere |
| `LspQueue.Node.Hold` | Layer5/isis/isis_pkt.c:706-714 | one more reference |
| `LspQueue.Node.Release` | Layer5/isis/isis_pkt.c:676-703 | one reference less; the packet goes with the last one, which no queue entry can be |
| `LspQueue.Node.Gone` | Layer5/isis/isis_flood.c:25-29 | a packet whose count is zero waits in no queue |
| `LspQueue.Node.NoLeak` | Layer5/isis/isis_pkt.c:676-703 | a packet is kept only as long as somebody holds it or it waits in a queue |
| `LspQueue.Node.TransmitAll` | Layer5/isis/isis_flood.c:60-133 | when all jobs have run nothing waits, and exactly the packets that somebody else holds are left |
| `LspQueue.TotalUpdate` | Layer5/isis/isis_flood.c:134-188 | the number of entries over all queues follows the change of one queue |
| `Tlv.ScanEncode` | utils.h:59-73 | scanning what was encoded gives the records back |
| `Tlv.EncodeScan` | utils.h:59-73 | encoding what was scanned gives the bytes back |
| `Tlv.Lookup` | utils.c:110-128 | the value of the first record of the type, inside the buffer, or nothing exactly if there is none |
| `Tlv.FirstExact` | utils.c:110-128 | what is looked up is the first record of the type, if there is one |
| `Tlv.Insert` | utils.c:98-108 | one record is written at the place given, and nothing else |
| `NbrTlv.ReadValue` | Layer5/isis/isis_adjacency.c:648-713 | one neighbour record is read back as it was written |
| `NbrTlv.ReachRoundTrip` | Layer5/isis/isis_adjacency.c:715-749 | all neighbours are read back, in order, from a buffer with any other records around |
| `NbrTlv.SizeAll` | Layer5/isis/isis_adjacency.c:751-788 | the sum over the adjacencies that are up, in 16 bits |
| `NbrTlv.UpExact` | Layer5/isis/isis_adjacency.c:715-749 | the neighbours written are those of all adjacencies that are up on enabled interfaces, each as often as it occurs, in order |
| `NbrTlv.SizeIsExact` | Layer5/isis/isis_adjacency.c:751-788 | it is the number of bytes written if and only if there are at most 1985 |
| `NbrTlv.EncodeNbr` | Layer5/isis/isis_adjacency.c:648-713 | 33 bytes are written, though the length byte is copied with three bytes of what lies behind it |
| `NbrTlv.EncodeAll` | Layer5/isis/isis_adjacency.c:715-749 | exactly the records of the adjacencies that are up, and nothing behind them |
| `NbrTlv.ReadRecord` | Layer5/isis/isis_ted.c:55-80 | the nested loop reads one neighbour |
| `NbrTlv.ReadBuffer` | Layer5/isis/isis_ted.c:39-86 | the outer loop reads all neighbours |
| `Fsm.Evaluate` | FSMImplementation/fsm.c:167-211 | whether an entry matches, and how much it reads |
| `Fsm.Apply` | FSMImplementation/fsm.c:213-251 | the first entry of the table that matches |
| `Fsm.Execute` | FSMImplementation/fsm.c:254-332 | the loop computes the recursive run of the table, and always stops |
| `Fsm.Copies` | FSMImplementation/fsm.c:254-332 | a machine of keys that are echoed writes a copy of what it reads, of all of it if it is through |
| `BinaryToHex.HexRun` | FSMImplementation/std_fsm.c:278-378 | the outcome on every text: no transition at the first character that is no bit, otherwise final exactly if the digits read come in groups of four |
| `BinaryToHex.PreservesValue` | FSMImplementation/std_fsm.c:278-378 | on every text the hexadecimal number written has the value of the whole groups of four digits read; the run has no result exactly if a character within the buffer is no bit |
| `IpValidator.TableStep` | FSMImplementation/std_fsm.c:428-511 | the table of eight states as a function of state and character |
| `IpValidator.OctetAccepts` | FSMImplementation/std_fsm.c:428-511 | accepts three characters exactly if they are digits of a number of at most 255 |
| `IpValidator.Normalize` | FSMImplementation/std_fsm.c:513-539 | padding to three characters keeps the value |
| `IpValidator.TokensArePieces` | FSMImplementation/std_fsm.c:541-635 | the tokens are the non-empty pieces between dots |
| `IpValidator.NextToken` | FSMImplementation/std_fsm.c:541-635 | takes the first token and leaves the others |
| `IpValidator.ValidOctet` | FSMImplementation/std_fsm.c:541-635 | a token passes exactly if it is a number of one to three digits and at most 255 |
| `IpValidator.Validate` | FSMImplementation/std_fsm.c:541-635 | accepts exactly the texts of four such tokens |
| `Gluethread.AddNext` | gluethread/glthread.c:43-57 | the element enters behind the one given |
| `Gluethread.Remove` | gluethread/glthread.c:76-97 | the element leaves and is detached |
| `Gluethread.DeleteList` | gluethread/glthread.c:99-107 | all elements are detached, the head is left |
| `Gluethread.AddLast` | gluethread/glthread.c:109-123 | the element enters at the end |
| `Gluethread.PriorityInsert` | gluethread/glthread.c:138-186 | enters behind all that do not sort after it; the list stays sorted |
| `Gluethread.DequeueFirst` | gluethread/glthread.c:188-197 | the first element leaves, nothing if there is none |

## Left out

- Avl.AvlTree.Insert: the node comes with its links unset by the model; the packed word that holds parent and balance together is two fields here.
- Avl.AvlTree.Remove: `avltree_replace` and the splay and red-black trees beside the AVL tree are not modelled.
- Mm.Family.Allocate: addresses and sizes are unbounded; what 32 bits change for the request is `Mm.EnoughPages32`, and rounding to words, zeroing and `xcalloc` names are left out.
- Mm.Family.constructor: one family; registration of families and its overflow into a second page, and the usage statistic, are left out.
- Mm.Family.NewPage: the kernel always hands out a range, anywhere outside of the pages of the family.
- Lists inside components: the page list, free list, slot lists, packet and task queues are sequences; that the pointer list does what a sequence does is proved once, in `Gluethread`.
- Gluethread.Remove: `glthread_add_before`, `glthread_get_last`, the count and the search only read or mirror what is there.
- WheelTimer.Wheel.Reschedule: as in the code, it overwrites a pending delete; nothing more is claimed for callers that do so.
- WheelTimer.Wheel.Register: intervals are multiples of the clock interval and at least one, the use the code is made for; callbacks and their arguments, the locks, and the wrap of cycle counters are left out.
- WheelTimer.Wheel.Remaining: nothing is said about an element that is neither queued nor asked to be armed.
- Ddcp.Node.Receive: whether a reply could be prepared is a parameter, which is true in the network runs, for a reply is never empty and memory is taken not to run out; the content of queries and replies, unicast replies and their routes are left out; sequence numbers do not wrap.
- Ddcp.Coverage: networks without loss in which all routers run the protocol; interfaces do not change during a run, packets may be reordered freely.
- Ted.Database.Resurrect: ids are not zero and no router is its own neighbour; a full router is a failed assertion in the code and a failure result here.
- Ted.Database.CreateOrUpdate: no two entries have the same local index or ask for the same interface; in a database whose indexes are not unique, nothing is said of the result if a router that is short of slots loses an interface to an entry, but for the condition of every single step in `Ted.Database.Resurrect`; addresses, masks, costs, names and sequence numbers of routers are left out, and so is the copy of attributes that assumes which end is first.
- Ted.Database.Obtain: the AVL tree of routers is a map; the tree itself is in `Avl`, its comparator in `TedOrder`.
- Frames.Untag: what a write behind the buffer does to other memory is not modelled, only that there is one.
- Frames.TagReads: the layout of the bit field is little-endian, least significant first, as on the compilers the code is built with.
- Interfaces.Ingress: MAC addresses are compared as bytes, not by a string function that stops at a zero; interfaces that are down, ARP and delivery to layer 3 are left out.
- L2Switch.Switch.Receive: a frame has four bytes of room in front of it and fits a packet buffer with its tag. Reception leaves those four bytes only to frames of at most 1900 bytes (`comm.c`, lines 179-180), while `send_pkt_out` passes up to 2048; longer ones are not covered.
- SwitchedNetwork.Isolation: access ports lead to hosts and trunks to trunks, as the property presumes.
- InterfaceConfig.PortsAreSound: nothing is said about ports after a command that is not harmless, but for `InterfaceConfig.AddressKeeps`.
- Dispatcher.StepInv: the membership check at lines 54-59 counts as done under the lock; spurious wake-ups, `task_cancel_job`, the pending counter and synchronous tasks that ask to run again are left out.
- LspQueue.Node.Transmit: the pending flood counter, interface groups, shutdown and reconciliation are left out, and sending is an out-parameter.
- LspQueue.Node.Flood: interfaces in groups, which get the packet through one member, are left out.
- Fsm.Execute: the output buffer has no size; the email and substring machines, and the matching functions only they use, are left out, their tables being run by the same engine.
- IpValidator.Validate: texts of at most 15 characters, since longer ones are copied without an end mark.
- NbrTlv.ReadBuffer: buffers are well formed; other record types are skipped, and printing is left out.
- Adjacency states, longest-prefix lookup, SPF, the LSP database, spanning tree, layers 3 and 4: not modelled, being either stubs or not what their documentation says.
- Sockets, threads, command line, logging and topology builders: input and output.
