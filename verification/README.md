# Clio in Dafny

Clio is a disaggregated memory system: hosts reach memory boards over a reliable
network, and a board hands out virtual memory ranges, page table entries and
physical pages. This project models the parts where most of the state lives and
proves what they keep over all inputs and all runs.

**Reliable transport (board FPGA).** `GbnTypes`, `StateTable`, `RingStore`,
`StreamUnits`, `UnackedBuffer` and `Timer` model the go-back-N units as they are
clocked: classes with registers, arrays and streams whose methods are one call
each, every one equal to a step function on values. `Transport` puts any number of
nodes on a network that may drop, duplicate and reorder, `TransportInv` holds the
joint invariant of a session and `TransportTheorems` the results over every
reachable state. `TransportLog` ties the table's registers to a record of what came
and was answered; `TransportAnswers` says what every packet and timeout brings about,
`TransportPaths` how a packet gets through a node, and `TransportExample` holds a
run. `Units` wires the clocked units of one node together and shows that their calls
carry out the node's actions.

**Red-black tree (board SoC).** `RbTree` gives trees, contexts and the linked
representation, `RbRotate`, `RbInsert` and `RbErase` the steps, and `RbOps` the
class `RbRoot` with the loops of insertion and erasure on a node pool, augmented
values included.

**Virtual memory areas.** `VmaSpec` says on plain lists of areas what each
operation means; `VmaList` is the doubly linked list and its gaps, `VmaIndex` the
augmented tree over it, `GapSearch` and `VmaSearch` the searches, `VmaSteps` the
steps between consistent states, and `VRegion` the class with all of it: list,
tree, gaps, counter and highest end stay consistent through merge, split,
adjust, allocate and free.

**Physical pages and page tables.** `Pow2` has the bit arithmetic, `BuddyBlocks`
the free blocks, `Buddy` the allocator class. `PageTypes`, `PageTable` and
`PageTableOps` are the hashed page table, its shadow, the conflict lists and the
frames the entries hold. `VaSpec`, `VaFlags`, `VaMarks`, `VaAlloc` and `VaFree` tie
areas, marks, entries and frames together: allocation with its retry loop, what its
marks do to flags, freeing, unmarking, and what freeing undoes of an allocation.
`VaExamples` holds inputs on which a property fails.

**Bitmaps (host).** `Words` is 64-bit masks over natural numbers, `Bitmap` the
word-wise loops.

Results worth reading first: `TransportTheorems.DeliveredIsPrefix`,
`TransportAnswers.DataAnswered`, `TransportAnswers.NackResends`, `RbOps.RbRoot.Erase`,
`VmaSearch.FindVaRangeTopdown`, `VRegions.VRegion.FreeVa`,
`Buddy.FpgaZone.FreePages` with `BuddyBlocks.FreeBlockIffRun`, `VaAlloc.AllocVa`
with `VaMarks.KeptIff`, and `VaFree.RoundTrip`.

Where the code does not keep a property, an input and the exact condition are
proved:

- The timer of a session is stopped on an acknowledgement of everything that was sent
  when the table was asked, although one more packet may have been sent since
  (`TransportPaths.StopLeavesNone`); that packet then has no timer
  (`TransportPaths.StopStrandsPacket`, `TransportExample.CrossingReached`).
- A closed slot still takes a packet numbered 0 (`StateTable.FirstTaken`), and only then
  others (`StateTable.ClosedTakesNothing`).
- Areas merge without comparing flags (`VmaSpec.MergeKeepsFlags`), so an allocation
  next to a conflict mark becomes part of the mark (`VaExamples.MarkedNeighbour`) and
  its entries outlive it (`VaFree.FreedNoStray`, `VaExamples.MarkedEntry`). What that
  means for every allocation is `VaFree.RoundTrip`.
- For the same reason marks take areas over (`VaExamples.MarkTakesArea`,
  `VaExamples.PairTakesArea`). When a call leaves every address its flags is
  `VaMarks.KeptIff`.
- A free of the middle of an area is refused, so a range that joined two areas cannot
  be freed (`VaFree.RoundTrip`), nor a mark that did (`VaFree.UnmarkConflict`); the
  input for both is `VaExamples.JoinedInside`.
- A request of no bytes may leave an empty area (`VmaSpec.AddedCanonicalIff`,
  `VaAlloc.AllocVaEmpty`, `VaAlloc.EmptyArea`).
- The check before a free of physical pages misses blocks inside larger free blocks
  (`BuddyBlocks.DoubleFreeSeen`, `BuddyBlocks.UnseenDoubleFree`), but none with the
  single order that is configured (`BuddyBlocks.SinglePagesSeen`).
- A search for no clear bits need not be first fit (`Bitmap.FindNextZeroArea`,
  `Bitmap.SkipsSetBit`, `Bitmap.StartsBehindEnd`).

The comment above the vRegion search speaks of an alignment that its code does not
apply; the model follows the code.

## Model

| member | source | states |
|---|---|---|
| GbnTypes.PackRoundTrip | include/uapi/gbn.h:39-65 | Packing kind, sequence number and the two slot numbers into the 64-bit header word and slicing them out again gives every header back: the fields do not overlap. |
| StateTable.StateTable64.constructor | board/fpga/net_reliable/state_table/statetable_64_top.cpp:119-141 | After power-up all 1024 slots hold zero numbers with answers disabled and both machines wait for a request. |
| StateTable.StateTable64.ReceiveQuery | board/fpga/net_reliable/state_table/statetable_64_top.cpp:170-272 | The clocked look-up step refines the value-level step `RxRecv`: broadcast and session-0 packets are answered without touching a slot, session packets latch the slot's numbers for the next stage. |
| StateTable.StateTable64.HandleDataPacket | board/fpga/net_reliable/state_table/statetable_64_top.cpp:273-335 | Refines `RxData` on the whole table; all other slots are unchanged. What every packet is answered is `TransportAnswers.DataAnswered`. |
| StateTable.StateTable64.HandleAckPacket | board/fpga/net_reliable/state_table/statetable_64_top.cpp:336-399 | Refines `RxAck` on the whole table; all other slots are unchanged. What every ACK and NACK brings about is `TransportAnswers.AckAnswered`. |
| StateTable.StateTable64.HandleRx | board/fpga/net_reliable/state_table/statetable_64_top.cpp:169-402 | One call of the receive machine, whatever its state, is `RxStep` of the old table. |
| StateTable.StateTable64.HandleTx | board/fpga/net_reliable/state_table/statetable_64_top.cpp:417-454 | One call of the transmit machine is `TxStep`: a number is granted, and the slot's last-sent number advanced, only while fewer than 128 packets are unacknowledged, and the next request is taken only after the packet is complete. |
| StateTable.StateTable64.HandleTimeout | board/fpga/net_reliable/state_table/statetable_64_top.cpp:459-469 | A timeout's request is `TimeoutReq` and nothing changes. Which numbers it names is `TransportAnswers.TimeoutAsks`. |
| StateTable.StateTable64.HandleInit | board/fpga/net_reliable/state_table/statetable_64_top.cpp:471-490 | Opening a session rewrites that slot's five registers, closing one its expected number; no other slot changes. |
| StateTable.FirstTaken | board/fpga/net_reliable/state_table/statetable_64_top.cpp:471-490 | The first data packet behind set-up is taken if and only if it is numbered 1 on an opened slot and 0 on a closed one. |
| StateTable.ClosedTakesNothing | board/fpga/net_reliable/state_table/statetable_64_top.cpp:471-490 | Over any run of receive stages a closed slot takes no packet, as long as none for it is numbered 0. |
| RingStore.SlotsDisjoint | board/fpga/net_reliable/unacked_buffer/unacked_buffer_top.cpp:121-131 | The packet-sized slots of any two (session, window index) pairs do not overlap and all lie inside the network cache area. |
| RingStore.LoadAfterStore | board/fpga/net_reliable/unacked_buffer/unacked_buffer_top.cpp:186-229 | What the retransmitter reads at a slot's address after a store there is that header and that frame, length word included. |
| RingStore.LoadFrame | board/fpga/net_reliable/unacked_buffer/unacked_buffer_top.cpp:121-131 | Storing a packet leaves what every other slot of the ring loads unchanged. |
| RingStore.HoldsAfterStore | board/fpga/net_reliable/unacked_buffer/unacked_buffer_top.cpp:93-156 | A slot holds the packet just written to it, for every frame that fits a packet. |
| RingStore.HoldsFrame | board/fpga/net_reliable/unacked_buffer/unacked_buffer_top.cpp:93-156 | A slot goes on holding its packet across a store to any other slot. |
| RingStore.HoldsLoad | board/fpga/net_reliable/unacked_buffer/unacked_buffer_top.cpp:186-229 | Reading the length word first and then length - 8 bytes recovers the packet a slot holds. |
| StreamUnits.RxPacket | board/fpga/net_reliable/hls_rx/rx_64_top.cpp:61-135 | Over the calls one packet takes, and for every length and every backlog behind it, the receive unit asks the table exactly once and passes the whole packet to the user if and only if the verdict is true; a refused packet is swallowed whole and the next one starts clean. |
| StreamUnits.Rx64.Call | board/fpga/net_reliable/hls_rx/rx_64_top.cpp:61-135 | One clocked call of the unit is the value-level call `RxCall` on all its registers and queues. |
| StreamUnits.TxSessionPacket | board/fpga/net_reliable/hls_tx/tx_64_top.cpp:76-200 | For every packet with both slots non-zero the transmit unit asks for one number, stamps it, sends header and payload in order, sends the identical beats to the unacked buffer with the right route, and signals completion once. |
| StreamUnits.TxManagementPacket | board/fpga/net_reliable/hls_tx/tx_64_top.cpp:76-200 | A packet of session 0 is sent with number 0, without asking the table and without a copy in the buffer. |
| StreamUnits.Tx64.Call | board/fpga/net_reliable/hls_tx/tx_64_top.cpp:76-200 | One clocked call, whatever its state, is the value-level call `TxCall`. |
| StreamUnits.HeaderRoundTrip | board/fpga/net_reliable/hls_rx/rx_64_top.cpp:61-103 | Putting the fixed ports and added length on the wire and reading slots and length back gives every header back. |
| StreamUnits.WireRoundTrip | board/fpga/net_reliable/hls_rx/rx_64_top.cpp:61-135 | What the sending user hands to the transmit unit is, with a positive verdict, what the receive unit hands to its user: addresses, ports, length and payload; the table is asked about the ports' slots. |
| UnackedBuffer.WritePacket | board/fpga/net_reliable/unacked_buffer/unacked_buffer_top.cpp:93-156 | The call sequence for one packet leaves DRAM as one atomic `Store` of header and frame at the ring slot of its number, remembers the destination address and consumes exactly that packet's beats. |
| UnackedBuffer.RetransPacket | board/fpga/net_reliable/unacked_buffer/unacked_buffer_top.cpp:186-256 | If the slot of the current number holds (h, f), the calls for it send exactly header and payload of (h, f) to the remembered address and move on to the next number. |
| UnackedBuffer.RetransRequest | board/fpga/net_reliable/unacked_buffer/unacked_buffer_top.cpp:165-256 | A request [first, last] with all those packets stored sends them all, in order, each once, then resets the session's timer; by induction on the request's length. |
| UnackedBuffer.RetransEmpty | board/fpga/net_reliable/unacked_buffer/unacked_buffer_top.cpp:166-175 | A request whose end lies before its start is dropped: nothing is sent and the timer is left alone. |
| UnackedBuffer.Buffer.HandleWrite | board/fpga/net_reliable/unacked_buffer/unacked_buffer_top.cpp:93-156 | The write machine of the clocked buffer, with the data mover storing each beat at the running address, is `WriteCall`; the retransmit machine is untouched. |
| UnackedBuffer.Buffer.HandleRetrans | board/fpga/net_reliable/unacked_buffer/unacked_buffer_top.cpp:165-256 | The retransmit machine, with its fall-through from asking for a length into the header state when beats are left over, is `RetransCall`; the write machine is untouched. |
| UnackedBuffer.Buffer.Call | board/fpga/net_reliable/unacked_buffer/unacked_buffer_top.cpp:93-256 | One call runs both machines, the retransmitter on the memory the writer has just left. |
| Timer.RetransTimer.Call | board/fpga/net_reliable/hls_timer/timer_top.cpp:30-88 | One call of the scanning timer over its 1024-entry array is `TimerCall`. |
| Timer.StaysSilent | board/fpga/net_reliable/hls_timer/timer_top.cpp:30-88 | Over any run with no request for a session, a stopped timer never fires for it. |
| Timer.FiresWhenDue | board/fpga/net_reliable/hls_timer/timer_top.cpp:30-88 | Over any run with no request for a session, a running timer fires exactly once if the run has at least `Due` scanning calls, and not at all otherwise; both directions. |
| Timer.ResetIsDue | include/uapi/gbn.h:76-79 | A reset timer is due only after more than the configured number of cycles and within one further sweep of all sessions. |
| Timer.LastRequestDecides | board/fpga/net_reliable/hls_timer/timer_top.cpp:30-88 | Over any run, from the last request for a session on: after a stop its timer never fires; after a reset it fires exactly once if the scans since reach the due count, and not at all otherwise, whatever came before. |
| Units.NodeUnits.constructor | board/fpga/net_reliable/state_table/statetable_64_top.cpp:119-141 | Fresh units are in the packet level's powered-up state, with all slots zero. |
| Units.NodeUnits.Submit | board/fpga/net_reliable/hls_tx/tx_64_top.cpp:76-131 | The transmit unit's call on a session packet is the packet level's submit action: the packet waits and its slot is queued at the table. |
| Units.NodeUnits.SubmitManagement | board/fpga/net_reliable/hls_tx/tx_64_top.cpp:76-200 | A session-0 packet goes out whole under number 0 and leaves table, buffer and waiting state alone. |
| Units.NodeUnits.Transmit | board/fpga/net_reliable/state_table/statetable_64_top.cpp:417-454 | In every state of the transmit machine, whatever the retransmit machine is doing, the calls of table, transmit unit and buffer together are the packet level's one transmit step: same table, same queues, same DRAM and addresses, and the beats of exactly the packet it sends. |
| Units.NodeUnits.Send | board/fpga/net_reliable/hls_tx/tx_64_top.cpp:132-200 | For a granted number the calls of transmit unit and of the buffer's write machine leave DRAM with one `Store` of the stamped packet, the wire with its beats and one completion signal, and the retransmit machine where it was. |
| Units.NodeUnits.Receive | board/fpga/net_reliable/hls_rx/rx_64_top.cpp:61-103 | The receive unit's call on an arriving packet is the packet level's receive action. |
| Units.NodeUnits.TableReceive | board/fpga/net_reliable/state_table/statetable_64_top.cpp:169-402 | The table's receive call, with the streams around it, is the packet level's receive step: verdict, retransmit request, timer request and response packet. |
| Units.NodeUnits.TableCall | board/fpga/net_reliable/state_table/statetable_64_top.cpp:119-490 | A whole call of the table, receive, transmit, timeout and set-up stages with the streams around them, is the packet level's table action: the units are in the state of its node afterwards, and the network gains exactly the response and the packet whose beats went out. |
| Units.NodeUnits.ReadVerdict | board/fpga/net_reliable/hls_rx/rx_64_top.cpp:104-135 | The receive unit's calls after a verdict are the packet level's delivery: the user gets the whole payload exactly if the verdict is true. |
| Units.NodeUnits.Setup | board/fpga/net_reliable/state_table/statetable_64_top.cpp:459-490 | A timeout and a set-up request act on table and request queue as the packet level says. |
| Units.NodeUnits.TakeRequest | board/fpga/net_reliable/unacked_buffer/unacked_buffer_top.cpp:166-185 | The buffer's call takes the next request, or drops an empty one, as the packet level says. |
| Units.NodeUnits.Resend | board/fpga/net_reliable/unacked_buffer/unacked_buffer_top.cpp:186-256 | The buffer's calls for one stored packet are the packet level's retransmit step and send exactly that packet's beats. |
| TransportTheorems.StepKeeps | board/fpga/net_reliable/state_table/statetable_64_top.cpp:169-490 | Every permitted step of every node, the user and the network keeps the joint invariant of both ends of a session and of all packets in flight. |
| TransportTheorems.RunKeeps | board/fpga/net_reliable/state_table/statetable_64_top.cpp:169-490 | The invariant holds after every run, of any length and any interleaving. |
| TransportTheorems.PowerUpIsInitial | board/fpga/net_reliable/state_table/statetable_64_top.cpp:471-490 | Powered-up nodes on which the sessions were opened, in any order, with any others, are a state from which runs begin. |
| TransportTheorems.Invariant | board/fpga/net_reliable/state_table/statetable_64_top.cpp:169-490 | The invariant holds in every state reachable from freshly opened sessions. |
| TransportTheorems.DeliveredIsPrefix | board/fpga/net_reliable/state_table/statetable_64_top.cpp:273-335 | In every reachable state what the receiver handed its user is a prefix of what the sender's user handed in: same frames, same order, none twice, none missing in between; the expected number counts them, up to one verdict still on its way. The network may drop, duplicate and reorder. |
| TransportTheorems.SequenceNumbersOrdered | board/fpga/net_reliable/state_table/statetable_64_top.cpp:336-454 | In every reachable state last-acked <= expected - 1 <= last-sent <= last-acked + 128, last-sent counts the packets accepted, and no acknowledgement in flight runs ahead of the receiver. |
| TransportTheorems.UnackedIsBuffered | board/fpga/net_reliable/unacked_buffer/unacked_buffer_top.cpp:93-156 | In every reachable state each unacknowledged number's ring slot still holds exactly the frame accepted under it, although slots are reused modulo 128. |
| TransportTheorems.UnackedAllStored | board/fpga/net_reliable/unacked_buffer/unacked_buffer_top.cpp:93-156 | The same for every consecutive run of unacknowledged numbers, in the form the retransmitter needs. |
| TransportTheorems.RetransmitsUnacked | board/fpga/net_reliable/unacked_buffer/unacked_buffer_top.cpp:165-256 | In every reachable state the beat-level retransmitter, given a request for unacknowledged numbers, sends exactly the frames the user handed in under them, addressed to the peer. |
| TransportTheorems.WireIsFaithful | board/fpga/net_reliable/hls_tx/tx_64_top.cpp:132-200 | Every data packet ever on the wire, first sent or resent, carries the frame accepted under its number and goes between the session's two ends. |
| TransportTheorems.BatchingNeverStalls | include/uapi/gbn.h:30-37 | At most 99 taken packets are unacknowledged, at most one NACK is sent per packet taken plus one, and once everything sent was taken and the last acknowledgement arrived the sender's window is open: delayed acknowledgements cannot close it. |
| TransportAnswers.DataAnswered | board/fpga/net_reliable/state_table/statetable_64_top.cpp:273-335 | In every reachable state in which a data packet of the session is handled, the packets sent back are exactly: in turn, an ACK of its number for the first packet and every hundredth from there; out of turn, nothing after a packet above the turn has come since the last one in turn, and before that one NACK to a packet above and one ACK to an old one, numbered one below the turn; all to the sender. The turn is one more than were delivered; what came since is in the history. |
| TransportAnswers.AnswersOnRecord | board/fpga/net_reliable/state_table/statetable_64_top.cpp:302-330 | In every reachable state every packet out of turn since the last one in turn came from the peer and got the answer due at its time. |
| TransportAnswers.RecordGrows | board/fpga/net_reliable/state_table/statetable_64_top.cpp:273-335 | That record grows by every packet out of turn that is handled and starts again with one in turn. |
| TransportAnswers.AckAnswered | board/fpga/net_reliable/state_table/statetable_64_top.cpp:336-399 | In every reachable state in which an ACK or NACK numbered n is handled: a NACK with n at least the last acknowledged number, not both new and the last one sent, asks once for exactly the numbers above n up to the last one sent when the table was asked, and nothing else asks; the timer is stopped exactly if n is new and the last one sent, reset exactly if it is a new ACK below; the highest number is kept; at most one packet was sent since the table was asked. |
| TransportAnswers.TimeoutAsks | board/fpga/net_reliable/state_table/statetable_64_top.cpp:459-469 | In every reachable state a table call with a timeout for the session's slot appends, behind what its receive stage asks, exactly one request, for exactly the numbers above the last acknowledged up to the last sent one; without one it appends none for that slot. |
| TransportAnswers.AskedIsSent | board/fpga/net_reliable/unacked_buffer/unacked_buffer_top.cpp:165-256 | In every reachable state the retransmitter, given a request that names unacknowledged numbers, sends exactly the frames accepted under them and resets the timer once; given one that names none, it sends nothing. |
| TransportAnswers.TimeoutResends | board/fpga/net_reliable/unacked_buffer/unacked_buffer_top.cpp:165-256 | After a timeout, what the retransmitter sends for its request are exactly the frames accepted behind the last acknowledged number. |
| TransportAnswers.NackResends | board/fpga/net_reliable/unacked_buffer/unacked_buffer_top.cpp:165-256 | After a NACK, what the retransmitter sends for its request are exactly the frames accepted behind the NACK's number, as far as they had been sent when the table was asked. |
| TransportAnswers.SentTells | board/fpga/net_reliable/state_table/statetable_64_top.cpp:438-452 | In every reachable state the table, on learning that a packet was sent, resets the timer exactly if everything before that packet was acknowledged when it was accepted. |
| TransportPaths.TransmitMoves | board/fpga/net_reliable/state_table/statetable_64_top.cpp:417-454 | In every reachable state a table call moves a waiting packet on: the one before it is finished, then it is looked up, then it is accepted under the next number and put on the network exactly if fewer than 128 are unacknowledged, and otherwise waits. |
| TransportPaths.TableJudges | board/fpga/net_reliable/state_table/statetable_64_top.cpp:170-399 | In every reachable state a table call moves the packet at the table on: management, broadcast and unknown packets are judged at once, passed on exactly if they are management data not broadcast; session packets are looked up, and judged in the next call, passed on exactly if they are the data packet whose turn it is. |
| TransportPaths.ManagementDelivered | board/fpga/net_reliable/hls_rx/rx_64_top.cpp:61-135 | A session-0 packet taken off the network reaches the user after one table call exactly if it is data and not broadcast. |
| TransportPaths.DataDelivered | board/fpga/net_reliable/hls_rx/rx_64_top.cpp:61-135 | A data packet of the session taken off the network is delivered after two table calls exactly if its number is one more than were delivered. |
| TransportPaths.StopLeavesNone | board/fpga/net_reliable/state_table/statetable_64_top.cpp:347-362 | When the timer is stopped, nothing is unacknowledged if and only if nothing was sent since the table was asked. |
| TransportPaths.StopStrandsPacket | board/fpga/net_reliable/state_table/statetable_64_top.cpp:347-454 | From every reachable state in which an acknowledgement of everything sent meets the next packet at the table, two calls leave that packet unacknowledged, the timer told to stop and nothing else, and nothing asked for. |
| TransportExample.CrossingReached | board/fpga/net_reliable/state_table/statetable_64_top.cpp:347-454 | Such a state is reached from freshly opened sessions, by a run of two nodes. |
| RbTree.HeightIsLogarithmic | board/soc/core/rbtree.c:12-30 | A red-black tree of n nodes has height at most twice its black height h, and 2^h <= n + 1. |
| RbTree.FillRedBlack | board/soc/core/rbtree.c:12-30 | A legal subtree of the right black height put in a legal context makes a red-black tree. |
| RbTree.CtxOfRedBlack | board/soc/core/rbtree.c:12-30 | The converse: every subtree of a red-black tree, and the context around it, are legal. |
| RbRotate.RotateUpOk | board/soc/core/rbtree.c:66-79 | Raising a child over its parent by writing links yields the rotated tree in the same context, same order, every link two-way, and every node's augmented value again the maximum over its subtree. |
| RbOps.RbRoot.constructor | include/uapi/rbtree.h:26 | A new root is the empty tree. |
| RbOps.RbRoot.Propagate | include/uapi/rbtree.h:198-207 | If only x may carry a wrong augmented value, walking up from x with the early exit makes every value right, and changes values only. |
| RbOps.RbRoot.InsertRotate | board/soc/core/rbtree.c:137-214 | The rotation cases of insertion end in a red-black tree with the same order. |
| RbOps.RbRoot.InsertColor | board/soc/core/rbtree.c:82-217 | From any tree with one fresh red leaf the insertion loop terminates in a red-black tree with the same in-order sequence and right augmented values. |
| RbOps.RbRoot.RotateRedSibling | board/soc/core/rbtree.c:239-257 | Case 1 of erasure keeps order and deficit, and the new sibling is black. |
| RbOps.RbRoot.RotateInnerNephew | board/soc/core/rbtree.c:289-326 | Case 3 keeps order and deficit, and makes the outer nephew red. |
| RbOps.RbRoot.RotateBlackSibling | board/soc/core/rbtree.c:327-350 | Case 4 removes the deficit: the result is a red-black tree of the same order. |
| RbOps.RbRoot.EraseColor | board/soc/core/rbtree.c:224-404 | From any tree that lacks one black node on one path the loop terminates in a red-black tree with the same order. |
| RbOps.RbRoot.Settle | include/uapi/rbtree.h:404-405 | The propagation after an erase makes all augmented values right without touching a link. |
| RbOps.RbRoot.EraseOneChild | include/uapi/rbtree.h:315-338 | Erasing a node with at most one child gives a red-black tree of the remaining nodes in order. |
| RbOps.RbRoot.FindSuccessor | include/uapi/rbtree.h:340-377 | The walk finds the leftmost node of the right subtree, with its parent and only child. |
| RbOps.RbRoot.SpliceSuccessor | include/uapi/rbtree.h:339-402 | The successor takes the erased node's place, colour and children by writing links; all values are right afterwards. |
| RbOps.RbRoot.SettleSplice | include/uapi/rbtree.h:382-404 | The copy and the two propagations of the splice repair all augmented values. |
| RbOps.RbRoot.EraseTwoChildren | include/uapi/rbtree.h:339-405 | Erasing a node with two children gives a red-black tree of the remaining nodes in order. |
| RbOps.RbRoot.Erase | include/uapi/rbtree.h:307-415 | For every red-black tree and every node of it: the result is red-black, its in-order sequence is the old one without that node, every link is two-way, every augmented value is the subtree maximum, even if the erased node's value was stale. |
| RbOps.RbRoot.Insert | include/uapi/rbtree.h:54-61 | Linking a node at any leaf position and recolouring gives a red-black tree whose order has it at exactly that position. |
| VmaList.LinkListOk | board/soc/core/vm.c:192-208 | Linking an area behind its predecessor gives the doubly linked list with it at that index; no range changes. |
| VmaList.SpliceListOk | board/soc/core/vm.c:210-222 | Bypassing a run of areas gives the doubly linked list without that run, also when list ends are involved. |
| VmaList.LinkGaps | board/soc/core/vm.c:287-309 | Linking changes the gap of no area but the new one's successor. |
| VmaList.SpliceGaps | board/soc/core/vm.c:788-813 | Bypassing changes the gap of no area but the one behind the run. |
| VmaList.RangeGaps | board/soc/core/vm.c:486-535 | Moving an area's bounds changes its own gap only if the start moved and its successor's only if the end moved. |
| VmaIndex.ValueIsMax | include/uapi/rbtree.h:242-264 | If every node's value is right relative to its children, the root's value is the largest gap of all areas below it. |
| VmaSpec.CanonicalUnique | board/soc/core/vm.c:638-641 | Two area lists with no two areas touching that cover the same addresses have the same bounds one by one: the covered set determines the layout. |
| VmaSpec.OverlappedIsCovered | board/soc/core/vm.c:337-369 | A range overlaps an area if and only if some address of it is covered. |
| VmaSpec.SplitFlags | board/soc/core/vm.c:610-633 | Splitting an area changes no address's flags. |
| VmaSpec.MergeAdjusts | board/soc/core/vm.c:686-750 | Each merge is one permitted bound adjustment, with the new range absorbed by its neighbours. |
| VmaSpec.TakeOutBetween | board/soc/core/vm.c:774-813 | Removing the areas of a range that was cut at both ends removes exactly the range's addresses, and the released areas are exactly its non-conflict addresses with their flags. |
| VmaSpec.RemovedApart | board/soc/core/vm.c:818-892 | Cutting and removing a range leaves no two areas touching. |
| VmaSpec.AddedCovers | board/soc/core/vm.c:894-925 | A new range adds its own addresses to the covered set and no others, in all four merge cases. |
| VmaSpec.AddedCanonical | board/soc/core/vm.c:894-925 | After a new range was merged or inserted no two areas touch. |
| VmaSpec.AddedCanonicalIff | board/soc/core/vm.c:894-925 | With length 0 allowed, canonical form survives if and only if the range is non-empty or touches an area; otherwise an empty area is left behind. |
| VmaSpec.AddedAdds | board/soc/core/vm.c:894-925 | Clearing a range first and then adding it covers the old addresses and the range, in canonical form. |
| VmaSpec.FreeMultiples | board/soc/core/vm.c:818-892 | Freeing with bounds that are multiples of n keeps every area bound a multiple of n, for every n. |
| VmaSpec.MergeKeepsFlags | board/soc/core/vm.c:638-641 | Adding a range with flags f keeps every other address's flags and gives the range f if and only if each touching neighbour already carries f: the merge test ignores flags. |
| VaFlags.AddedBelow | board/soc/core/vm.c:686-750 | Adding a range changes no flags below it, whatever it merges with. |
| VaFlags.AddedFlags | board/soc/core/vm.c:686-750 | An added range gets exactly the flags of the area it touches below, else of the one above, else those asked for; below it flags are as before; above it they are those of the area below as far as the range joins the two, and as before elsewhere; all flags are kept if and only if what it touches has those asked for. |
| GapSearch.Pruned | board/soc/core/vm.c:1056-1073 | A subtree whose augmented value is below the wanted length holds no suitable gap. |
| GapSearch.GapIsGreatest | board/soc/core/vm.c:1075-1119 | The clipped end of the highest suitable gap is the greatest feasible address. |
| GapSearch.GapIsLeast | board/soc/core/vm.c:976-1019 | The clipped start of the lowest suitable gap is the least feasible address. |
| VmaSearch.FindVma | board/soc/core/vm.c:372-393 | Returns the first area ending behind the address, or none if there is none; all areas before it end at or before the address. |
| VmaSearch.FindVmaLinks | board/soc/core/vm.c:337-369 | Fails if and only if an area overlaps the range; otherwise returns the one tree leaf and list predecessor where the range belongs. |
| VmaSearch.FindVaRangeTopdown | board/soc/core/vm.c:1025-1120 | The pruned descent returns the greatest feasible address of all in the window, and fails only if no address is feasible. |
| VmaSearch.SearchDown | board/soc/core/vm.c:1051-1120 | The same for the search below the highest area, from the root. |
| VmaSearch.SearchFrom | board/soc/core/vm.c:1062-1120 | The same from any node, given that nothing above it suits. |
| VmaSearch.DescendRight | board/soc/core/vm.c:1062-1073 | Going right while the gap limits allow skips no suitable gap. |
| VmaSearch.MoveLeft | board/soc/core/vm.c:1083-1106 | Going left or climbing reaches the next lower candidate without skipping a suitable gap, or proves there is none. |
| VmaSearch.ClimbFromRight | board/soc/core/vm.c:1094-1106 | Climbing until arriving from a right child reaches the in-order predecessor. |
| VmaSearch.Clip | board/soc/core/vm.c:1109-1119 | Clipping the found gap to the window gives the greatest feasible address. |
| VmaSearch.FindVaRangeBottomup | board/soc/core/vm.c:937-1020 | The mirror search returns the least feasible address of all, and fails only if no address is feasible. |
| VmaSearch.CheckHighest | board/soc/core/vm.c:1009-1019 | If no gap below suits, the space behind the highest area decides, exactly. |
| VmaSearch.DescendLeft | board/soc/core/vm.c:962-975 | Going left while the low limit allows skips no suitable gap. |
| VmaSearch.MoveRight | board/soc/core/vm.c:983-1006 | Going right or climbing reaches the next higher candidate without skipping a suitable gap, or proves there is none. |
| VmaSearch.ClimbFromLeft | board/soc/core/vm.c:994-1006 | Climbing until arriving from a left child reaches the in-order successor. |
| VmaSearch.SearchUpFrom | board/soc/core/vm.c:962-1019 | From any node, given that nothing below suits, the least feasible address or none at all. |
| VmaSteps.UnmapRegion | board/soc/core/vm.c:752-780 | The pages released are exactly the detached areas that are not conflict marks, in order. |
| VRegions.VRegion.constructor | include/uapi/sched.h:320-328 | A new vRegion is consistent, has no areas and searches top-down. |
| VRegions.VRegion.VmaLinkRb | board/soc/core/vm.c:287-309 | Tree order equals list order with the new area, all augmented gaps right, highest end updated exactly when it is the last area. |
| VRegions.VRegion.VmaLink | board/soc/core/vm.c:315-332 | List, tree, gaps, counter and highest end agree again with the area inserted at its index. |
| VRegions.VRegion.GapUpdate | board/soc/core/vm.c:233-240 | If only this area's augmented value may be stale, afterwards none is. |
| VRegions.VRegion.AllocVma | board/soc/core/vm.c:165-185 | The allocated record is one not in use; no other record changes. |
| VRegions.VRegion.InsertVmStruct | board/soc/core/vm.c:399-410 | Finds the place and links: consistent, with the area at its index. |
| VRegions.VRegion.MoveBound | board/soc/core/vm.c:486-535 | Moving one bound within the neighbouring gaps keeps list, tree, gaps and highest end consistent. |
| VRegions.VRegion.SplitVma | board/soc/core/vm.c:610-633 | An area is cut in two at any inner address, with the new record on the asked side; consistent. |
| VRegions.VRegion.EraseNode | board/soc/core/vm.c:251-285 | The node leaves the tree; the tree's order is the list without it. |
| VRegions.VRegion.RemoveNext | board/soc/core/vm.c:499-597 | An area takes over its successor and the successor's record is freed; consistent. |
| VRegions.VRegion.SettleGap | board/soc/core/vm.c:569-570 | If only one area's gap may be stale, or there is no such area, afterwards no augmented value is. |
| VRegions.VRegion.UnlinkArea | board/soc/core/vm.c:210-223 | An area leaves the list and its record is freed, with at most its successor's gap stale. |
| VRegions.VRegion.VmaAdjust | board/soc/core/vm.c:427-597 | For every adjustment allocation and freeing can ask for, the areas afterwards are the adjusted list and every index structure is consistent. |
| VRegions.VRegion.VmaMerge | board/soc/core/vm.c:686-750 | The areas afterwards are the list with the range absorbed; returns nothing if and only if neither neighbour touches, and then changes nothing. |
| VRegions.VRegion.EraseRun | board/soc/core/vm.c:788-803 | Erasing a run area by area, with stale gaps in between, leaves a red-black tree of the others with right gaps. |
| VRegions.VRegion.DetachVmas | board/soc/core/vm.c:788-813 | The run leaves list and tree in one piece; the detached areas form a chain of their own with unchanged ranges. |
| VRegions.VRegion.CloseOver | board/soc/core/vm.c:804-813 | Closing the list over the run makes links, gaps and highest end right. |
| VRegions.VRegion.FreeChain | board/soc/core/vm.c:884-888 | Exactly the records of the chain are freed. |
| VRegions.VRegion.TakeOut | board/soc/core/vm.c:867-892 | Detaching, releasing and freeing leaves a consistent region without the run, and reports its non-conflict areas. |
| VRegions.VRegion.CutFront | board/soc/core/vm.c:840-858 | Splitting at the range's start changes no address's flags and makes an area begin there. |
| VRegions.VRegion.CutBack | board/soc/core/vm.c:860-867 | Splitting at the range's end changes no address's flags and makes an area end there. |
| VRegions.VRegion.FreeVa | board/soc/core/vm.c:818-892 | For every range: -EINVAL exactly for length 0, -ENOMEM exactly when the range lies strictly inside one area; otherwise precisely the range's addresses lose their area, all others keep theirs with its flags, precisely its non-conflict addresses are released, and the region stays canonical and indexed. |
| VRegions.VRegion.FreeFrom | board/soc/core/vm.c:840-892 | The same from the first area that overlaps the range. |
| VRegions.VRegion.ClearRange | board/soc/core/vm.c:901-906 | Freeing whatever overlaps, as often as needed, ends with the range free and its place in tree and list known, or fails exactly when it lies inside one area. |
| VRegions.VRegion.VmaTreeNew | board/soc/core/vm.c:894-925 | For every range in the vRegion, empty ones included: fails exactly when the range lies strictly inside one area; otherwise the areas are those left by the freeing with the range added, the covered set grows by exactly the range, all index structures agree, and the region stays valid if and only if the range is non-empty or touches an area. |
| VRegions.VRegion.CreateVma | board/soc/core/vm.c:913-922 | A range that touches nothing becomes an area of its own at its place, with list, tree, gaps and counters in agreement. |
| VRegions.VRegion.FindVaRange | board/soc/core/vm.c:1128-1162 | Greatest (top-down) or least (bottom-up) feasible address of the vRegion, none only if there is none. |
| Pow2.BuddyFacts | board/soc/core/buddy.c:33-53 | Flipping bit o of an aligned page number is an involution between the two halves of one block of order o + 1. |
| Pow2.AndLower | board/soc/core/buddy.c:104-106 | The bitwise and of a block and its buddy is the lower of the two. |
| Pow2.FlipLow | board/soc/core/buddy.c:92-97 | Computing the buddy on the page index modulo 2^MAX_ORDER and adding the difference gives the real buddy. |
| BuddyBlocks.MergeBuddy | board/soc/core/buddy.c:94-108 | Merging with a free buddy keeps the same pages free or in hand, one order up. |
| BuddyBlocks.SplitBlock | board/soc/core/buddy.c:197-216 | Freeing the upper half of a block in hand keeps the same pages free or in hand, one order down. |
| BuddyBlocks.PutBack | board/soc/core/buddy.c:110-115 | A block without a free buddy can be put back: the free blocks stay disjoint, aligned and with no two mergeable buddies. |
| BuddyBlocks.TakeBlock | board/soc/core/buddy.c:222-245 | Taking a free block removes exactly its pages. |
| BuddyBlocks.BuddyInZone | board/soc/core/buddy.c:94-98 | The buddy looked at is always a page of the zone. |
| BuddyBlocks.FreeBlockIffRun | board/soc/core/buddy.c:218-245 | There is a free block of order o or more if and only if some aligned run of 2^o pages is entirely free: merging never leaves memory fragmented that could be whole. |
| BuddyBlocks.DoubleFreeSeen | board/soc/core/buddy.c:117-167 | The check before a free notices a block with a free page if and only if the block is not buried in a larger free block behind its head. |
| BuddyBlocks.BuriedNoBuddy | board/soc/core/buddy.c:94-98 | A block buried in a larger free block finds no buddy to merge with. |
| BuddyBlocks.SinglePagesSeen | board/soc/core/buddy.h:42-43 | With a single order, as configured, the check notices every free of a free page and no other. |
| BuddyBlocks.UnseenDoubleFree | board/soc/core/buddy.c:117-152 | With two orders it need not: page 3 while pages 2 and 3 are one free block. |
| Buddy.FpgaZone.constructor | board/soc/core/buddy.c:372-436 | After set-up, with the page flags clear at first, the free pages are exactly the zone's. |
| Buddy.FpgaZone.InitialFreePages | board/soc/core/buddy.c:294-313 | Handing in the whole range in the largest aligned blocks makes exactly it free. |
| Buddy.FpgaZone.FreeOnePage | board/soc/core/buddy.c:83-115 | A block in hand: precisely its pages become free, lists, counters and flags agree, no two free buddies remain. A block buried in a larger free block: it is listed a second time as it is, and the free blocks overlap. |
| Buddy.FpgaZone.FreePagesPrepare | board/soc/core/buddy.c:117-152 | The flag scan over the block is true if and only if some page of it is the head of a free block. |
| Buddy.FpgaZone.FreePages | board/soc/core/buddy.c:117-183 | For every block of the zone: refused without effect exactly when a page of it is the head of a free block; a wholly taken block becomes free, precisely; the allocator stays valid if and only if the block was taken or the free was refused. |
| Buddy.FpgaZone.Expand | board/soc/core/buddy.c:197-216 | Splitting down keeps the same pages free or in hand. |
| Buddy.FpgaZone.AllocPage | board/soc/core/buddy.c:218-278 | Fails, changing nothing, exactly when no free block is large enough; otherwise returns an aligned block of free pages and takes precisely those. |
| Buddy.FpgaZone.AllocPfn | board/soc/core/buddy.c:280-288 | The same with 0 for failure, which is never a page number handed out. |
| PageTypes.TagInjective | board/soc/core/pgtable.h:98-109 | A tag names one page of one process. |
| PageTypes.BucketsDistinct | board/soc/core/pgtable.h:40-65 | Pages less than a table's length apart fall in different buckets. |
| PageTable.FindFree | board/soc/core/shadow_pgtable.c:192-230 | The first unused slot of the bucket, none exactly when its counter is 0. |
| PageTable.Lookup | board/soc/core/pgtable.h:135-153 | Finds the page's slot if and only if any slot of the table carries its tag. |
| PageTable.FillOk | board/soc/core/shadow_pgtable.c:192-230 | Filling a slot keeps tags unique and in their bucket, both copies in step, the free counters exact and every listed conflict without a slot, and maps exactly one more page. |
| PageTable.ClearOk | board/soc/core/shadow_pgtable.c:163-185 | Clearing a slot keeps all that, empties the bucket's conflict list and unmaps exactly that page; pages on other conflict lists still have no slot. |
| PageTable.FillConflicts | board/soc/core/shadow_pgtable.c:192-230 | A slot is filled only in a bucket without conflicts, so no listed page ever gets one. |
| PageTable.HoldFrame | board/soc/core/pgtable.c:130-208 | An entry that takes a frame from the allocator: every frame is still free or held by exactly one entry. |
| PageTable.DropFrame | board/soc/core/pgtable.c:56-94 | An entry that gives its frame back: the same. |
| PageTable.NoFrame | board/soc/core/pgtable.c:56-94 | An entry without a frame leaves the accounting alone. |
| PageTableOps.PageTables.constructor | board/soc/core/shadow_pgtable.c:242-273 | Empty tables are consistent and map nothing. |
| PageTableOps.PageTables.AllocOnePte | board/soc/core/pgtable.c:130-208 | Fails, changing nothing, exactly when the bucket has no slot; otherwise maps exactly this page in both copies, with a frame exactly when asked for and one was free; frames are conserved. Pages that had a slot hold the frames they held. |
| PageTableOps.PageTables.AllocPteRange | board/soc/core/pgtable.c:232-254 | Maps exactly the pages of the range whose bucket had room; on request gives them frames in order until no free frame is left, otherwise none; frames are conserved. Pages that had a slot hold the frames they held. |
| PageTableOps.PageTables.FreeAllConflicts | board/soc/core/shadow_pgtable.c:122-157 | The bucket's conflicts are all returned, in order, for unmarking, and its list and counter are empty. |
| PageTableOps.PageTables.FreeOnePte | board/soc/core/pgtable.c:56-94 | Clears the slot in both copies and returns its frame; frames are conserved. Exactly the pages that keep a slot hold frames, those they held. |
| PageTableOps.PageTables.FreePteRange | board/soc/core/pgtable.c:103-127 | Unmaps exactly the process's pages in the range; frames are conserved; exactly the conflict lists of buckets that lost a page are emptied, and exactly their members are returned. Exactly the pages that keep a slot hold frames, those they held. |
| PageTableOps.UnmarkedUnmapped | board/soc/core/shadow_pgtable.c:122-157 | None of the pages returned for unmarking has an entry, so unmarking them exposes none. |
| VaSpec.GreatestIsPage | board/soc/core/vm.c:1175-1248 | If all areas are made of pages, the greatest feasible address for whole pages is itself a page address. |
| VaSpec.FoundIsGreatest | board/soc/core/vm.c:1175-1248 | A greatest address found after some full pages were marked is the greatest address of the unmarked region all of whose pages have room. |
| VaSpec.PageWiseIsMultiples | board/soc/core/vm.c:818-892 | Areas are unions of pages if and only if all their bounds are page addresses. |
| VaMarks.MarkOne | board/soc/core/shadow_pgtable.c:93-115 | Marking the next full page of a try keeps the flags at the first address of every area what the areas from before all tries say: their own; for a mark, with requests of several pages those of an area directly above the first page of the mark and else a mark's, with requests of one page those of the first area above, if any. |
| VaMarks.TriesStep | board/soc/core/vm.c:1189-1228 | A try keeps what is known of where the marks are: the range below an area is either untouched or all its full pages are marked, a mark directly below an area comes from a try of that range, and a gap whose pages are all full fills from the top by whole ranges. |
| VaMarks.ClosesIff | board/soc/core/vm.c:1189-1243 | When no further try is made, the gap below an area is covered, by marks or by marks and the range, if and only if its pages are full or the range's, it is not below the range and, unless the range is at its bottom, whole ranges fit it. |
| VaMarks.AreaFlags | board/soc/core/vm.c:638-641 | An area whose gap is not filled ends up with the flags of a mark if a request of several pages was tried below it and its two pages below were full, and with its own otherwise. |
| VaMarks.KeptIff | board/soc/core/vm.c:1175-1248 | A call keeps the flags of every address if and only if each area above a filled gap has the flags of the area below it and each other area with two full pages in a tried range below it is a mark already: a condition on the areas and free slots from before the call. |
| VaMarks.RangeTakesIff | board/soc/core/vm.c:1230-1243 | The flags the range takes when it is added are those that the areas from before the call give it. |
| VaAlloc.MarkConflict | board/soc/core/shadow_pgtable.c:93-115 | A free, unmapped page goes on its bucket's list and, as an area, into the region; nothing else is covered or listed, and the flags of every address afterwards are those of an added range. |
| VaAlloc.CheckAndInsertConflicts | board/soc/core/shadow_pgtable.c:69-120 | Exactly the range's pages whose bucket is full are marked and listed; true if and only if there is one, and without one nothing changes; flags below the first such page are kept; and marks made from any areas rs0, accounted for before, are accounted for after: the flags at the first address of every area are those `MarksFlagged` gives, by rs0 alone. |
| VaAlloc.LowStep | board/soc/core/vm.c:1189-1228 | No retry changes flags below the end of any suitable range: marks only fall above the greatest one. |
| VaAlloc.TopTouched | board/soc/core/vm.c:1075-1119 | The greatest range ends at the top of the vRegion or at an area, exactly. |
| VaAlloc.Commit | board/soc/core/vm.c:1230-1243 | The range becomes allocated and mapped; nothing else does; its flags are exactly those of the area it touches below, else of the area or mark above, else those asked for, by the areas from before the call; every address keeps its flags if and only if `AllKeep`. Of all pages of all processes exactly the first ones of the range get frames: none without the populate flag, and then the free frames are the same; with it all, unless no free frame is left; no page's frame changes. |
| VaAlloc.AllocVa | board/soc/core/vm.c:1175-1248 | The retry loop terminates and returns the greatest address where the pages are unallocated and all their buckets had room, none if and only if there is no such address; exactly those pages are then mapped, every other newly covered page had a full bucket, and frames are conserved. By the areas from before the call: the range has exactly the flags of the area it touches below, else of the area or mark above it, and there is one unless it ends at the top, else those asked for; every area of marks has the flags `MarksFlagged` gives; and, granted or not, every address keeps its flags if and only if each area does by `AllKeep`. A granted call gives frames to exactly the pages of the range up to some f and changes nobody's: without the populate flag to none, and the free frames are the same; with it to all, unless no free frame is left. A refused call moves no frame. |
| VaAlloc.AllocVaEmpty | board/soc/core/vm.c:1175-1248 | A request of no bytes is granted the end of the vRegion, maps nothing, and leaves the region valid if and only if an area ends there already. |
| VaAlloc.EmptyArea | board/soc/core/vm.c:913-922 | In an empty vRegion it leaves an area without addresses behind. |
| VaFree.FreeVaPages | board/soc/core/vm.c:1262-1272 | Fails, changing nothing, exactly as the region does; otherwise exactly the range's addresses lose their area, exactly its allocated pages lose their entry, frames are conserved, and exactly the conflict lists of buckets that got room are returned. Exactly the pages that keep an entry hold frames, those they held. |
| VaFree.FreedNoStray | board/soc/core/vm.c:752-772 | Freeing leaves no page table entry behind outside an area if and only if no mapped page of the range lay under a conflict mark: marks are skipped when entries are torn down, whatever was merged into them. |
| VaFree.InsideCovers | board/soc/core/vm.c:851-852 | A fully covered range lies strictly inside one area if and only if the addresses on both sides of it are covered. |
| VaFree.RoundTrip | board/soc/core/vm.c:1175-1272 | Allocating a range and freeing it: the free is refused if and only if the range touched an area below and does not end at the top; its entries are gone if and only if the free is not refused and the flags the range took, by the areas from before the allocation, are not those of a conflict mark; then the mapped pages are exactly those from before, and the covered addresses those from before and marks. |
| VaFree.AllocThenFree | board/soc/core/vm.c:1175-1272 | The two calls, one after the other, have that outcome, by the areas from before; and once the entries are gone every page of every process holds the frame it held before, and exactly the same frames are free. |
| VaFree.UnmarkConflict | board/soc/core/shadow_pgtable.c:122-157 | Unmarking a listed page is refused if and only if the mark has become the inside of an area, and the page then stays covered; otherwise exactly its addresses are uncovered; no entry and no conflict list changes, and no entry is stray after if and only if none was before. |
| VaFree.UnmarkAll | board/soc/core/shadow_pgtable.c:122-157 | All listed pages of this vRegion get their turn, in order, and only they: at each turn the page is taken off the areas unless it lies inside one. |
| VaFree.TurnsShrink | board/soc/core/shadow_pgtable.c:122-157 | From turn to turn no address is covered again or changes flags, and only addresses on listed pages are uncovered. |
| VaFree.TurnUncovers | board/soc/core/shadow_pgtable.c:122-157 | A page that was not inside an area at its turn is uncovered when all turns are over. |
| VaFree.FreeVaUnmark | board/soc/core/shadow_pgtable.c:122-157 | Freeing with the unmarking of this vRegion's pages: those pages and the returned ones together are exactly what was on the conflict lists of the buckets that got a slot back; turn by turn each of them is uncovered, and stays so, unless it lies inside an area at its turn; nothing else changes beyond the freed range; no entry is left stray if and only if none of the range lay under a mark. |
| VaExamples.MarkedNeighbour | board/soc/core/vm.c:638-641 | In an empty vRegion whose last page has no slot, the page allocated directly below the mark becomes part of the mark. |
| VaExamples.CrowdedBucket | board/soc/core/shadow_pgtable.c:93-115 | Valid tables exist in which any number of slots of a bucket are taken by as many other processes. |
| VaExamples.MarkedEntry | board/soc/core/vm.c:752-772 | With the last page's bucket full, the page on its conflict list and the page below mapped, tables and region are valid and no entry is stray, but freeing the mapped page leaves its entry behind. |
| VaExamples.JoinedInside | board/soc/core/vm.c:851-852 | A page between two areas, allocated or marked, makes them one, and then lies inside it, where neither a free nor an unmarking is accepted. |
| VaExamples.MarkTakesArea | board/soc/core/vm.c:638-641 | A one-page request that finds no slot turns an area of flags 2 into a mark: one page was free between it and a mark. |
| VaExamples.PairTakesArea | board/soc/core/vm.c:638-641 | A two-page request that finds no slot turns the area directly above the pages it marks into a mark. |
| Words.FirstMaskBit | include/uapi/bitops.h:29 | The shifted all-ones word has exactly the bits from start mod 64 up. |
| Words.LastMaskBit | include/uapi/bitops.h:30 | The shifted all-ones word has exactly the low bits of the last word, all 64 if the size is a multiple. |
| Bitmap.FindNext | include/uapi/bitops.h:37-76 | The word-wise scan returns the first set (or clear) bit from start on, or the size if there is none. |
| Bitmap.SetRun | host/lib/bitmap.c:32-70 | The masked word loop sets (or clears) exactly the bits [start, start + len). |
| Bitmap.RegionOp | host/lib/bitmap.c:96-146 | On an aligned region of 2^order bits: the test is true exactly when all are clear, set and release change exactly those bits. |
| Bitmap.RegionTest | host/lib/bitmap.c:125-131 | The masked test of one or many words is true exactly when the region is clear. |
| Bitmap.RegionUpdate | host/lib/bitmap.c:133-141 | The masked write of one or many words changes exactly the region. |
| Bitmap.FindFreeRegion | host/lib/bitmap.c:162-173 | Returns and sets the lowest free aligned region, -ENOMEM exactly when there is none. |
| Bitmap.EmptyFit | host/lib/bitmap.c:252-275 | Aligning up from a bit z instead of from start gives the first aligned index from start on if and only if there is none between the two. |
| Bitmap.SkipsSetBit | host/lib/bitmap.c:252-275 | For no bits at a set bit 0, which would do, there is an aligned index before the next clear bit. |
| Bitmap.StartsBehindEnd | host/lib/bitmap.c:252-275 | For no bits from 100 on in a map of 64 the result 64 comes before the start. |
| Bitmap.FindNextZeroArea | host/lib/bitmap.c:252-275 | The least start, at the wanted alignment and offset, of nr clear bits within the size; a result beyond the size exactly when there is none. For nr = 0 it goes on to the next clear bit, or back to the size from behind it, and gives the first aligned index from the start on if and only if there is none between the two. |

## Left out

- Liveness of the transport: that a lost packet is eventually delivered is not stated, only what every call, packet, timeout and timer request brings about.
- Sequence number wrap-around: the theorems speak of sessions that accept fewer than 2^32 - 1 packets.
- Reuse of a slot: one session per slot is modelled; set-up and close act on slots without one.
- The system model grants a number, sends the packet and copies it to the buffer in one action, which `Units.NodeUnits.Transmit` carries out; timeouts come at any time (the table's timer requests are recorded, and `Timer` says what a timer does with requests, but the two are not joined), the data mover answers a read before the next call, and DRAM starts unwritten.
- The transmit arbiter, broadcast filter, setup manager and monitor of the network stack, and the hosts' software transport: each would add only easy members.
- RbOps.RbRoot.InsertRotate: a double rotation is two complete rotations, where the source leaves one link for the second to write; the final links are the same. Left and right variants share one text over a side. RbOps.RbRoot.RotateInnerNephew is the same.
- RbOps.RbRoot.SpliceSuccessor: the writes are grouped as unlink and replace; the final links are the same. The order of stores seen by a lockless reader is not modelled.
- Tree walkers, replacement and the postorder functions of the red-black tree.
- Allocation failure: a record for an area is always available, at any unused address.
- VRegions.VRegion.VmaAdjust: the cases of a shifted boundary and of two areas removed belong to a protection change that the repository does not have; only the adjustments that allocation and freeing ask for are covered.
- Units.NodeUnits.Send: moves the buffer's write machine alone; whole calls of the buffer write the same (`Units.RunWriter`), but the beats that the retransmit machine sends meanwhile belong to the actions of `Units.NodeUnits.Resend`.
- VRegions.VRegion.FindVaRange: a bottom-up search for no bytes is not covered; every vRegion is created top-down.
- The overflow of start + length in 64 bits, locking, the debug validators, and the walk of `alloc_va` and `free_va` over several vRegions.
- VaAlloc.AllocVa: top-down search (the flag every vRegion is created with), a length up to the vRegion size (the source stops on more) and no entry for a page outside an area are required; length 0 is `VaAlloc.AllocVaEmpty`.
- VaFree.FreeVaPages: the pages that freed buckets release are returned as a list; `VaFree.FreeVaUnmark` unmarks those of the same vRegion afterwards, where the source unmarks all of them, in all vRegions, on the way. Ranges are whole pages.
- PageTableOps.PageTables.AllocOnePte: the page may not be mapped yet; its callers ask only for pages that are not.
- PageTableOps.PageTables.AllocPteRange: the range may not be longer than the table has buckets and its pages may not be mapped yet; both hold at its caller.
- PageTableOps.PageTables.FreeAllConflicts: the areas of the listed pages are not freed here but by `VaFree.UnmarkConflict`.
- Buddy.FpgaZone.FreeOnePage: only blocks in hand or buried in a larger free block are covered; the check before it lets no others through.
- Buddy.FpgaZone.constructor: MAX_ORDER is a parameter of at least 1, the managed range starts above page 0 and is aligned to the largest block, and the page flags are clear at first, which the source leaves to the memory it is given.
- Filling entries on a page fault, spare page numbers, TLB flushes and clearing of pages.
- Bitmap.SetRun: setting and clearing are one method with a flag.
- Bitmap.FindNextZeroArea: the alignment is given as a power of two.
- The other bitmap operations (and, or, equal, subset, intersects), which are loops over single words.
- Host API, RPC, migration, resource balancing, the hash function that the build disables, and device drivers.
