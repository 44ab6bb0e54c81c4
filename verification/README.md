# EXO_OS kernel: a Dafny model

This project models the parts of the EXO_OS kernel with the hardest invariants and proves what they
promise. Each subsystem has a specification on values and, where the kernel updates memory in place,
a class whose methods follow the code and are proved against that specification.

- **TCP** (`tcp_*.dfy`). Two endpoints exchange segments over a network that is the set of all
  segments sent so far, so that loss, duplication and reordering are all possible. `tcp_conn.dfy` has
  the connection as functions, `tcp_system.dfy` the system and its runs, `tcp_invariant.dfy` the
  invariant that ties the wrapped 32-bit numbers of both ends to unbounded stream positions,
  `tcp_steps.dfy` and `tcp_arrivals.dfy` its preservation, `tcp_theorems.dfy` the results,
  `tcp_acks.dfy` what arriving segments, reads and timers do in every run, `tcp_flow.dfy` that nothing
  in flight is missing, `tcp_gap.dfy` the runs in which transmissions fail, `tcp_lastack.dfy` a close that never ends, and
  `tcp_tcb.dfy` the control block with its ring buffers and loops.
- **Virtual memory** (`pmm.dfy`, `vm_*.dfy`, `vmm.dfy`). `vm_flat.dfy` states copy-on-write fork on a
  flat map from pages to entries and proves that it refines fully separate memories. `vm_state.dfy`
  to `vm_faults.dfy` build the four-level tables in physical memory with their reference counts, and
  `vmm.dfy` is the code over the bitmap allocator of `pmm.dfy`.
- **Buffer cache** (`bcache*.dfy`). Hash chains and the LRU list are index links in one pool; the
  ghost view is the disk that clients believe in.
- **Slab allocator** (`kmalloc*.dfy`). Free lists are threaded through a map of aligned memory words.
- **Scheduler** (`sched*.dfy`). One CPU as a state machine over its locked regions, conservation and
  bounded waiting, what a tick does to each task, and the linked run queue and sleep list that
  implement it.
- **Paths** (`path_model.dfy`, `path.dfy`), **ELF loader** (`elf.dfy`), **Internet checksum**
  (`checksum.dfy`).

Choices that shape the claims:

- A lock-protected region is one step. Segments older than 2^31 sequence numbers are not delivered,
  and the IP layer takes what it is given; what happens otherwise is `tcp_gap.dfy`.
- Allocations of retransmit entries succeed. A kernel panic is an `ok` or frame result that
  promises no more than a consistent state.
- A clone marks every present leaf copy-on-write and a copy-on-write fault always grants write, as
  the code does; isolation of private memory is claimed, preservation of read-only or shared
  mappings is not.
- Where the comments of the code and the code disagree, the code is followed: the retransmit timer
  aborts and never resends, a failed write-back clears the dirty mark on eviction, a running task
  whose slice has not ended goes back to the queue at every tick.
- Reads of files, device transfers, clocks and the choice of delivered segments are parameters or
  fields that the environment sets.

## Model

| member | source | states |
|---|---|---|
| `TcpTheorems.EndToEndPrefix` | src/kernel/net/tcp_input.c:269-345 | in every run of two endpoints over a network that loses, duplicates and reorders, the bytes one side has read (and those waiting in its receive buffer) are a prefix of the bytes the other side accepted for sending, across sequence-number wraparound; after a FIN nothing transmitted is missing |
| `TcpTheorems.EdgeNeverMovesLeft` | src/kernel/net/tcp_output.c:43-54 | RFC 793 section 3.7: no step of the system moves an advertised right window edge to the left |
| `TcpTheorems.EdgeNeverMovesLeftInRun` | src/kernel/net/socket.c:468-479 | the same between any two states of a run |
| `TcpTheorems.DataUnderAdvertisedEdge` | src/kernel/net/tcp_output.c:182-201 | every data segment ever sent lies under a right edge its receiver had advertised before |
| `TcpTheorems.ReceiveBufferNeverOverflows` | src/kernel/net/tcp_input.c:14-25 | in every run a segment that reaches delivery fits, so the "rx buffer full" branch is never taken and the queue grows by exactly the segment |
| `TcpTheorems.ChunkFitsSegmentBuffer` | src/kernel/net/tcp_output.c:186-201 | in every run of two endpoints of this code, whatever is sent next, no chunk is longer than the fixed segment buffer of the send loop |
| `TcpTheorems.PeerMssDecides` | src/kernel/net/tcp_input.c:86-89 | after a SYN with MSS option m, at the listener or at the connecting end, every later chunk fits the segment buffer for all queues and windows if and only if m is at most 1460 |
| `TcpTheorems.JumboPeerOverruns` | src/kernel/net/tcp_input.c:86-89 | a peer that announces an MSS of 9000: 2000 queued bytes go out as one chunk, longer than the segment buffer |
| `TcpTheorems.MssFixed` | src/kernel/net/tcp_input.c:183-378 | once the SYN of the peer has been taken, no event changes the MSS |
| `TcpTheorems.RetransmitQueueTiles` | src/kernel/net/tcp_output.c:212-263 | in every run the retransmit queue of a live connection is contiguous, ends at snd_nxt, its head holds snd_una, it is empty exactly when snd_una equals snd_nxt, and it spans less than 2^31 |
| `TcpTheorems.RoundConsistentIffSent` | src/kernel/net/tcp_output.c:197-203 | a round of the send loop leaves the endpoint's buffer and sequence numbers in step if and only if the IP layer takes the segment; otherwise snd_nxt has moved past bytes that stay in the ring |
| `TcpGap.FailedTransmissionStops` | src/kernel/net/tcp_output.c:197-206 | in every run in which the IP layer may refuse any segment of the send loop on either side, what the peer holds is a prefix of what the application asked to send, and after the first refusal no byte from that point on and no FIN ever reaches the peer |
| `TcpGap.FailKeeps` | src/kernel/net/tcp_output.c:71-97 | to the peers a refused round is a segment that was sent and lost: it keeps the system invariant, with the chunk counted once for the numbers it used up and once for the bytes still in the ring |
| `TcpGap.FaultyRunInv` | src/kernel/net/tcp_output.c:165-209 | the gap invariant holds in every state of every such run: no segment covers the byte behind the gap and the receiver stays before it |
| `TcpGap.NextInOrder` | src/kernel/net/tcp_input.c:291-313 | a segment that passes the sequence test ends before the gap, and the FIN never passes it |
| `TcpGap.OutputClear` | src/kernel/net/tcp_output.c:165-209 | everything the send loop sends after a refusal lies behind the gap |
| `TcpTheorems.CloseBookkeeping` | src/kernel/net/tcp_input.c:284-345 | fin_sent and fin_received are set in exactly the states that imply them; FIN_WAIT_2 and TIME_WAIT imply that the peer has our FIN and everything before it |
| `TcpTheorems.TransitionsAreRfc` | src/kernel/net/tcp_input.c:183-378 | every event moves a connection along the RFC 793 section 3.2 diagram (or a same-segment composition of its edges) or aborts it |
| `TcpTheorems.ClosingNeverCompletes` | src/kernel/net/tcp_input.c:347-368 | in every run CLOSING and LAST_ACK are left only by a reset or by the retransmit timer, because neither arm advances snd_una |
| `TcpLastAck.LastAckReached` | src/kernel/net/tcp_input.c:357-368 | a run from connect and listen in which both ends shut down and LAST_ACK is reached; the acknowledgement of its FIN is in the network, and delivering it leaves the connection in LAST_ACK |
| `TcpTheorems.NoDataAfterFin` | src/kernel/net/tcp_output.c:165-168 | after our FIN no segment with data is sent, whatever the event |
| `TcpAcks.NothingUnacknowledged` | src/kernel/net/tcp_input.c:309-345 | in every run an endpoint that is neither CLOSED, LISTEN nor SYN_SENT has sent a segment that acknowledges exactly what it has received, SYN and FIN counted, or has its delayed acknowledgement pending |
| `TcpAcks.HandleOwes` | src/kernel/net/tcp_input.c:183-378 | every event keeps that |
| `TcpAcks.DelackTells` | src/kernel/net/tcp_timer.c:41-50 | in every run, when the delayed-acknowledgement timer has fired a segment has been sent that acknowledges all that was received; it is sent by the timer if the flag was set |
| `TcpAcks.ArrivalTakes` | src/kernel/net/tcp_input.c:269-345 | in every run, what a deliverable segment does in a synchronised state: snd_una and the window move exactly if it acknowledges something new, FIN_WAIT_1 ends when our FIN is covered, data and FIN are taken exactly if they come next and otherwise answered by an acknowledgement, and a FIN moves the state by its edge |
| `TcpAcks.PayloadTakes` | src/kernel/net/tcp_input.c:291-345 | the data and FIN part of that: the queue grows by exactly the segment's bytes if it comes next and not at all otherwise |
| `TcpAcks.TimeWaitAnswers` | src/kernel/net/tcp_input.c:370-374 | in TIME_WAIT every segment but a reset is answered by the same acknowledgement and changes nothing else |
| `TcpAcks.HandshakeTakes` | src/kernel/net/tcp_input.c:48-267 | in every run, what the three segments of the handshake do: SYN_RECEIVED with a SYN+ACK at position 0, ESTABLISHED with the peer's window and an acknowledgement, and ESTABLISHED or freed by a full accept queue |
| `TcpAcks.AbortsExactly` | src/kernel/net/tcp_timer.c:14-38 | in every run the retransmit timer aborts a connection, with ETIMEDOUT, if and only if something sent is not acknowledged, and a reset does so with ECONNRESET |
| `TcpAcks.RecvMeaning` | src/kernel/net/socket.c:442-490 | in every run a read takes as much of the head of the queue as asked for and there is, and the window is then the room in the buffer; on an empty queue it says end of file if and only if the peer's FIN was received or the connection is CLOSED, and otherwise to try again |
| `TcpFlow.NextSegmentIsThere` | src/kernel/net/tcp_output.c:182-206 | in every run an endpoint that lacks something its peer has transmitted waits for a segment that was sent, starts exactly at the next expected position, and takes it on to its end: what is in flight has no gaps |
| `TcpFlow.RunFlows` | src/kernel/net/tcp_output.c:26-97 | in every state of every run each segment that takes up sequence numbers ends where the next one starts or where transmission stands, and both receivers wait at such a place |
| `TcpFlow.SenderFlow` | src/kernel/net/tcp_output.c:26-209 | whatever the event, what an endpoint sends leaves no gap |
| `TcpFlow.ReceiverAwaits` | src/kernel/net/tcp_input.c:183-378 | whatever the event, an endpoint waits where a segment starts |
| `TcpFlow.SendMeaning` | src/kernel/net/socket.c:395-440 | in every run a send call takes all the data or leaves the buffer full, and leaves bytes in the buffer only if the peer's window is used up |
| `TcpFlow.OutputStops` | src/kernel/net/tcp_output.c:165-209 | the send loop stops only when it may not send, the buffer is empty or the window is used up |
| `TcpFlow.PushStops` | src/kernel/net/socket.c:413-434 | the copy loop stops short of the data only with a full buffer that cannot be sent |
| `TcpTheorems.InitInv` | src/kernel/net/socket.c:236-295 | the system invariant holds when one side listens and the other connects |
| `TcpTheorems.NextInv` | src/kernel/net/tcp_input.c:106-382 | every step of the two-endpoint system keeps the invariant |
| `TcpTheorems.RunInv` | src/kernel/net/tcp_input.c:106-382 | the invariant holds in every state of every run |
| `TcpArrivals.ArriveKeeps` | src/kernel/net/tcp_input.c:106-378 | receiving any segment the network may deliver keeps the invariant |
| `TcpArrivals.RxKeeps` | src/kernel/net/tcp_input.c:183-378 | the per-state processing of a segment keeps the invariant |
| `TcpArrivals.AckMeaning` | src/kernel/net/tcp_input.c:274-282 | the signed comparison accepts exactly the acknowledgements of new data |
| `TcpArrivals.AckStepKeeps` | src/kernel/net/tcp_input.c:274-290 | acknowledgement processing keeps the invariant |
| `TcpArrivals.InOrder` | src/kernel/net/tcp_input.c:291-308 | a segment passes the sequence test exactly when it starts at the next expected position of the stream |
| `TcpArrivals.NothingDropped` | src/kernel/net/tcp_input.c:14-25 | an in-order segment fits into the receive buffer |
| `TcpArrivals.DataKeeps` | src/kernel/net/tcp_input.c:309-313 | delivering data keeps the invariant |
| `TcpArrivals.PeerFinKeeps` | src/kernel/net/tcp_input.c:315-345 | taking the peer's FIN keeps the invariant |
| `TcpArrivals.ShutdownKeeps` | src/kernel/net/socket.c:492-510 | sending our FIN keeps the invariant |
| `TcpArrivals.RecvKeeps` | src/kernel/net/socket.c:442-490 | reading from the socket keeps the invariant |
| `TcpArrivals.SynKeeps` | src/kernel/net/tcp_input.c:48-103 | accepting a SYN on a listening socket keeps the invariant |
| `TcpArrivals.SynAckKeeps` | src/kernel/net/tcp_input.c:201-248 | taking the SYN+ACK keeps the invariant; only the right acknowledgement can arrive |
| `TcpArrivals.AckOfSynAckKeeps` | src/kernel/net/tcp_input.c:250-267 | the ACK that completes the handshake keeps the invariant |
| `TcpArrivals.CloseKeeps` | src/kernel/net/tcp_timer.c:14-38 | aborting to CLOSED keeps the invariant |
| `TcpSteps.TransmitKeeps` | src/kernel/net/tcp_output.c:182-206 | one round of the send loop keeps the invariant |
| `TcpSteps.OutputKeeps` | src/kernel/net/tcp_output.c:165-209 | the whole send loop keeps the invariant |
| `TcpSteps.SendKeeps` | src/kernel/net/socket.c:395-440 | a send call keeps the invariant |
| `TcpSteps.CoversSend` | src/kernel/net/tcp_output.c:212-244 | enqueueing a sent segment extends the tiling of the outstanding stream |
| `TcpSteps.CoversAck` | src/kernel/net/tcp_output.c:247-263 | dropping entries by signed comparison leaves exactly the entries that tile what is still outstanding |
| `SeqSpace.SeqDiffExact` | src/kernel/net/tcp.h:210-228 | the signed 32-bit difference of two wrapped positions is their true difference if and only if that lies in [-2^31, 2^31) |
| `SeqSpace.WrapInjective` | src/kernel/net/tcp.h:210-228 | two positions less than 2^32 apart have the same wrapped number only if they are equal |
| `TcpControlBlock.AvailableIs` | src/kernel/net/tcp.h:231-236 | the ring count computed with wrapping indices is the number of bytes in the ring |
| `TcpControlBlock.PushIs` | src/kernel/net/tcp_input.c:19-25 | storing a byte at the head of a ring that is not full appends it to the queue the ring stands for |
| `TcpControlBlock.PopIs` | src/kernel/net/tcp_output.c:203-205 | advancing the tail drops exactly the first bytes of the queue |
| `TcpControlBlock.Tcb.constructor` | src/kernel/net/socket.c:236-295 | a control block starts with empty rings |
| `TcpControlBlock.Tcb.RxAvailable` | src/kernel/net/tcp.h:231-233 | the number of bytes waiting to be read |
| `TcpControlBlock.Tcb.DeliverData` | src/kernel/net/tcp_input.c:12-33 | the receive ring takes the bytes that fit, and the sequence number and window move as the model says |
| `TcpControlBlock.Tcb.Emit` | src/kernel/net/tcp_output.c:26-97 | a segment is sent with the current numbers and, if it takes sequence space, enqueued for retransmission |
| `TcpControlBlock.Tcb.EmitAck` | src/kernel/net/tcp_output.c:132-162 | a bare acknowledgement is sent |
| `TcpControlBlock.Tcb.ChunkSize` | src/kernel/net/tcp_output.c:182-196 | the next chunk is positive exactly when the model can transmit, and is the model's chunk |
| `TcpControlBlock.Tcb.EmitChunk` | src/kernel/net/tcp_output.c:188-206 | one chunk leaves the ring in a segment; the overrun of the segment buffer is reported exactly when the chunk is longer, and then nothing has changed |
| `TcpControlBlock.Tcb.Flush` | src/kernel/net/tcp_output.c:165-209 | the send loop computes the result of the model, block, segments and byte count, and reports an overrun of the segment buffer exactly when one of its chunks is longer |
| `TcpControlBlock.Tcb.DropAcked` | src/kernel/net/tcp_output.c:247-263 | acknowledged entries leave the retransmit queue |
| `TcpControlBlock.Tcb.AcceptSyn` | src/kernel/net/tcp_input.c:48-103 | the new block of a SYN on a listening socket |
| `TcpControlBlock.Tcb.ReceiveSynSent` | src/kernel/net/tcp_input.c:201-248 | SYN_SENT processing, including the reset for a bad acknowledgement |
| `TcpControlBlock.Tcb.ReceiveSynReceived` | src/kernel/net/tcp_input.c:250-267 | SYN_RECEIVED processing, including a full accept queue |
| `TcpControlBlock.Tcb.ReceiveAck` | src/kernel/net/tcp_input.c:274-290 | acknowledgement processing with the FIN_WAIT_1 edge |
| `TcpControlBlock.Tcb.ReceiveFin` | src/kernel/net/tcp_input.c:315-345 | FIN processing |
| `TcpControlBlock.Tcb.ReceivePayload` | src/kernel/net/tcp_input.c:291-345 | sequence test, data delivery and FIN in order, the delayed acknowledgement scheduled with data; PayloadTakes and NothingUnacknowledged say what that gives |
| `TcpControlBlock.Tcb.Receive` | src/kernel/net/tcp_input.c:183-378 | a received segment does to the block what the model does; ArrivalTakes, HandshakeTakes and NothingUnacknowledged say what that is |
| `TcpControlBlock.Tcb.ReceiveClosing` | src/kernel/net/tcp_input.c:347-378 | CLOSING, LAST_ACK and TIME_WAIT arms |
| `TcpControlBlock.Tcb.Open` | src/kernel/net/socket.c:236-295 | connect sends a SYN and enters SYN_SENT |
| `TcpControlBlock.Tcb.Send` | src/kernel/net/socket.c:395-440 | a non-blocking send stores what fits, flushes and reports the count or the error; an overrun of the segment buffer is reported exactly when a chunk of the call is longer than it |
| `TcpControlBlock.Tcb.Recv` | src/kernel/net/socket.c:442-490 | a non-blocking receive takes from the ring, reports end of file after FIN, or asks to try again; from a block that was freed with bytes in it nothing is read |
| `TcpControlBlock.Tcb.CloseWrite` | src/kernel/net/socket.c:492-510 | shutdown sends our FIN once, in the states that allow it |
| `TcpControlBlock.Tcb.OnRexmitTimer` | src/kernel/net/tcp_timer.c:14-38 | the retransmit timer aborts the connection or does nothing |
| `TcpControlBlock.Tcb.OnDelackTimer` | src/kernel/net/tcp_timer.c:41-50 | the delayed-ACK timer sends the pending acknowledgement |
| `FlatVm.ForkRefinesCopy` | src/kernel/mm/vmm.c:217-370 | for every sequence of stores, faults, forks, exits and file mappings in any number of address spaces, each sees exactly what it would see with a full copy of its own |
| `FlatVm.StepRefines` | src/kernel/mm/vmm.c:217-421 | one event of the copy-on-write kernel does to what processes see what it does to fully separate memories, and keeps the single-writer invariant |
| `FlatVm.ApplyKeeps` | src/kernel/mm/vmm.c:217-421 | every event keeps: a writable private page has one mapper, a copy-on-write entry is read-only, every mapping is backed |
| `FlatVm.WriteRefines` | src/kernel/mm/vmm.c:350-370 | a store through a writable entry changes the memory of no other process |
| `FlatVm.PrivateMemoryIsolated` | src/kernel/mm/vmm.c:217-370 | whatever other processes do, a private page keeps its contents and stays private |
| `FlatVm.SeparateIsolated` | src/kernel/mm/vmm.c:296-326 | in the reference semantics events of other processes do not touch a process |
| `VmSteps.SeesRefines` | src/kernel/mm/vmm.c:39-421 | a step of the page-table implementation that shows an event refines that event on separate memories |
| `VmSteps.MapStep` | src/kernel/mm/vmm.c:184-194 | storing an entry maps that page and changes no other translation, and keeps tree and counts |
| `VmSteps.UnmapStep` | src/kernel/mm/vmm.c:196-204 | clearing an entry unmaps that page and no other |
| `VmSteps.CloneSeen` | src/kernel/mm/vmm.c:296-326 | the finished clone is the flat clone event: same contents for both; every page of the source and its twin are mapped to the same frame, read-only and copy-on-write, with the other fields as before; no other entry changes |
| `VmSteps.DestroySeen` | src/kernel/mm/vmm.c:165-182 | the finished destruction is the flat exit event and restores the held references |
| `VmSubtree.NothingBelow` | src/kernel/mm/vmm.c:39-76 | below a missing table there is no table: tables form a tree |
| `VmSubtree.DetachGood` | src/kernel/mm/vmm.c:129-163 | dropping a table with its entries keeps tree and reference counts |
| `VmSubtree.SubtreeCloned` | src/kernel/mm/vmm.c:240-294 | linking a cloned subtree extends the clone by exactly the pages below one entry |
| `VmUpdates.NewTableGood` | src/kernel/mm/vmm.c:28-33 | a new table keeps tree and counts |
| `VmUpdates.LinkGood` | src/kernel/mm/vmm.c:52-73 | linking a table into its parent entry keeps tree and counts |
| `VmUpdates.SetLeafGood` | src/kernel/mm/vmm.c:184-194 | writing a leaf keeps tree, flat map and counts |
| `VmUpdates.ClearLeafGood` | src/kernel/mm/vmm.c:196-204 | clearing a leaf keeps them and hands the reference to the caller |
| `VmFaults.PathsSeparatePages` | src/kernel/mm/vmm.c:41-44 | two user addresses use the same entry slot if and only if they lie in the same page |
| `VmFaults.PathsSeparateEntries` | src/kernel/mm/vmm.c:41-44 | two addresses of any size use the same entry slot if and only if their page numbers agree in 36 bits |
| `VmFaults.UserHalf` | src/kernel/mm/vmm.c:41-44 | the top index belongs to the user half if and only if the 36-bit page number is below 2^35 |
| `VmFaults.FaultShowsFile` | src/kernel/mm/vmm.c:380-402 | after a handled demand fault the byte at the address is the one the file has there, for page-aligned offsets at offset plus distance from the start of the region |
| `VmFaults.CacheStays` | src/kernel/mm/pagecache.c:127-160 | a demand fault keeps the cache a cache of file pages |
| `VmFaults.ForkFaultStore` | src/kernel/mm/vmm.c:296-370 | a fork, the copy-on-write fault of one side and its store: that side sees the page with the new byte in it, the other side the page as it was |
| `VmSteps.ForkedLeaves` | src/kernel/mm/vmm.c:224-234 | what the clone event says of the entries, written out: same frame, read-only and copy-on-write on both sides |
| `VmFaults.CowRound` | src/kernel/mm/vmm.c:350-370 | a handled copy-on-write fault gives the page a private writable copy, moves one reference, and disturbs no other page |
| `VmFaults.DemandSeen` | src/kernel/mm/vmm.c:372-421 | a demand fault makes one page appear with the right bytes |
| `VmFaults.ShareSeen` | src/kernel/mm/vmm.c:384-389 | a shared file page is the page of the cache |
| `VmFaults.CacheMissSeen` | src/kernel/mm/pagecache.c:127-160 | filling the page cache is not visible to any process |
| `VmFaults.StoreSeen` | src/kernel/mm/vmm.c:350-370 | a permitted store is the flat store event |
| `VmFaults.NothingInUseIsFree` | src/kernel/mm/pmm.c:166-184 | no table, mapped page or cached page is free |
| `VmFaults.AllDestroyed` | src/kernel/mm/vmm.c:129-182 | with every address space gone, a page's count is what the rest of the kernel and the page cache hold |
| `VirtualMemory.FreeCountRestored` | src/kernel/mm/vmm.c:129-182 | destroying every address space restores the free count, less the pages the cache still owns |
| `VirtualMemory.Vmm.constructor` | src/kernel/mm/vmm.c:20-25 | no address space, nothing cached, all references belong to the rest of the kernel |
| `VirtualMemory.Vmm.AllocTable` | src/kernel/mm/vmm.c:28-33 | a zeroed table page |
| `VirtualMemory.Vmm.ClonePt` | src/kernel/mm/vmm.c:217-237 | the lowest table is cloned page by page: every entry and its twin have the same frame and flags but are read-only and copy-on-write, with one more reference each |
| `VirtualMemory.Vmm.CloneUpper` | src/kernel/mm/vmm.c:240-294 | the subtree below an upper table is cloned |
| `VirtualMemory.Vmm.CloneAddressSpace` | src/kernel/mm/vmm.c:296-326 | a fork: the child sees the parent's memory; every page of the parent and its twin are mapped to the same frame, read-only and copy-on-write, with the other fields as before; the upper half of the new root is the kernel's; counts, cache and other processes are as before |
| `VirtualMemory.Vmm.FreePt` | src/kernel/mm/vmm.c:129-163 | the lowest table is freed and every mapped page loses one reference |
| `VirtualMemory.Vmm.FreeUpper` | src/kernel/mm/vmm.c:129-163 | a whole subtree is freed |
| `VirtualMemory.Vmm.DestroyAddressSpace` | src/kernel/mm/vmm.c:165-182 | an address space disappears, all its references return, nothing else changes |
| `VirtualMemory.Vmm.Walk` | src/kernel/mm/vmm.c:39-76 | the table walk reaches the lowest table, creating missing ones without changing any translation |
| `VirtualMemory.Vmm.MapPage` | src/kernel/mm/vmm.c:184-194 | one page's entry changes and no other; the reference goes into the entry |
| `VirtualMemory.Vmm.UnmapPage` | src/kernel/mm/vmm.c:196-204 | one page is unmapped exactly if it was mapped; its reference goes to the caller; to the processes it is the flat unmap event, and the single-writer invariant stays |
| `VirtualMemory.Vmm.GetPte` | src/kernel/mm/vmm.c:206-211 | the walk returns what the flat map says, and changes nothing |
| `VirtualMemory.Vmm.Lookup` | src/kernel/mm/pagecache.c:63-80 | a hit hands out one more reference |
| `VirtualMemory.Vmm.GetOrRead` | src/kernel/mm/pagecache.c:127-160 | the cached frame with a reference for the caller, reading the file only on a miss; failure changes nothing and needs a miss with no free page, no readable contents or no room |
| `VirtualMemory.Vmm.HandleCow` | src/kernel/mm/vmm.c:350-370 | applies exactly to a present copy-on-write page; afterwards the entry is present, writable and not copy-on-write with the other flags as before, and maps a private copy with the same bytes; it fails only without a free page |
| `VirtualMemory.Vmm.DemandZeroPage` | src/kernel/mm/vmm.c:403-412 | the page appears zeroed and nothing else happens; it fails only without a free page |
| `VirtualMemory.Vmm.SharePage` | src/kernel/mm/vmm.c:384-389 | a shared mapping maps the page of the cache itself, and that is all the processes see after the fetch |
| `VirtualMemory.Vmm.CopyFilePage` | src/kernel/mm/vmm.c:390-402 | a private file mapping gets its own copy of the cache page's bytes and returns the reference of the cache page; it fails only without a free page, and then shows no more than the fetch |
| `VirtualMemory.Vmm.DemandFilePage` | src/kernel/mm/vmm.c:380-402 | file-backed demand paging: at most one cache fill, then the share or the copy, exactly those events; the reasons for which it fails |
| `VirtualMemory.Vmm.FindVma` | src/kernel/mm/vmm.c:332-344 | the first region that covers the address |
| `VirtualMemory.Vmm.DemandPage` | src/kernel/mm/vmm.c:372-421 | with a cache that holds pages of files and reads that give file pages, the byte a process then sees at the address is the file's byte at offset plus distance from the start of the region if the offset is page-aligned, the byte the code takes if it is not, and zero without file contents; the cache still holds pages of files; the page appears with the flags of its region and with the right bytes: zeros, the file page itself, or a private copy of it; no other page of any process and no cached file page changes; refused only without a free page or readable file page |
| `VirtualMemory.Vmm.HandlePageFault` | src/kernel/mm/vmm.c:346-424 | a demand fault on file contents shows the file's byte at offset plus distance from the start of the region (the exact byte if the offset is not page-aligned), and the cache goes on holding pages of files; a fault of a present page is handled as copy-on-write and only that, one of a missing page for the first region that covers it; the bytes of the faulting page are determined, no other page of any process and no cached file page changes, and every refusal has its cause: no such region, not copy-on-write, no free page, or no readable file page; held references and the rest of the kernel are untouched |
| `VirtualMemory.Vmm.CreateAddressSpace` | src/kernel/mm/vmm.c:112-126 | an empty address space whose upper half is the kernel's |
| `VirtualMemory.Vmm.Store` | src/kernel/mm/vmm.c:350-370 | a store to a writable page is the flat store event |
| `VirtualMemory.Vmm.ForkAndStore` | src/kernel/mm/vmm.c:296-370 | after a fork, a write fault of parent or child on any page the parent had mapped is handled unless no page is free; the side that stores then sees the page as before the fork but for the stored byte, the other side as before |
| `PhysicalMemory.Pmm.constructor` | src/kernel/mm/pmm.c:33-60 | every page starts in use |
| `PhysicalMemory.Pmm.Init` | src/kernel/mm/pmm.c:33-114 | exactly the usable pages outside the metadata and page 0 are free; a bit is set exactly when its count is positive and the free counter is the number of clear bits |
| `PhysicalMemory.Pmm.AllocPages` | src/kernel/mm/pmm.c:116-137 | the lowest free run of the requested length from page 1 on, each page with one reference; 0 only for an empty request or when no such run exists |
| `PhysicalMemory.Pmm.FreePages` | src/kernel/mm/pmm.c:139-152 | one reference less for each page, or nothing when the range leaves memory |
| `PhysicalMemory.Pmm.PageRef` | src/kernel/mm/pmm.c:154-164 | one reference more, or 0 and no change for a free or unknown page |
| `PhysicalMemory.Pmm.PageUnref` | src/kernel/mm/pmm.c:166-184 | one reference less; the page is free exactly when none is left |
| `PhysicalMemory.FreeUpdate` | src/kernel/mm/pmm.c:166-184 | changing one count changes the number of free pages by what that page contributes |
| `BufferLists.LruRemoveOk` | src/kernel/fs/bcache.c:34-40 | unlinking a buffer leaves the rest of the LRU list in order with consistent links both ways |
| `BufferLists.LruPushOk` | src/kernel/fs/bcache.c:43-49 | pushing puts the buffer in front and keeps the order of the others |
| `BufferLists.HashInsertOk` | src/kernel/fs/bcache.c:62-66 | inserting keeps every valid buffer in the chain of its own bucket, once |
| `BufferLists.HashUnlinkOk` | src/kernel/fs/bcache.c:52-59 | unlinking through the predecessor removes exactly that buffer from its chain |
| `BufferView.WriteBackOk` | src/kernel/fs/bcache.c:69-83 | writing back never changes what clients see, and saves the sector when the device takes the write |
| `BufferView.DropOk` | src/kernel/fs/bcache.c:95-102 | taking a buffer out of both lists keeps the structure and leaves every other buffer alone |
| `BufferView.LoadOk` | src/kernel/fs/bcache.c:145-158 | filling a free buffer for a sector that is not cached keeps structure and view |
| `BufferView.WriteOk` | src/kernel/fs/bcache.c:162-164 | a client's marked update changes the view at that sector only |
| `BufferView.EvictKeepsViewIff` | src/kernel/fs/bcache.c:86-104 | eviction leaves the clients' view alone if and only if the victim is empty, is dirty and can be written, or agrees with the disk |
| `BufferView.EvictHealthy` | src/kernel/fs/bcache.c:86-104 | with devices present and writes succeeding, eviction never changes the view |
| `BufferView.SweepDone` | src/kernel/fs/bcache.c:174-188 | after a sweep every picked writable sector is on the disk as clients see it |
| `BufferLoss.FailedWriteLosesData` | src/kernel/fs/bcache.c:95-102 | a run of calls from bcache_init that loses an update: read, write, release while the device refuses writes, lookups that fail to read until the buffer is the LRU tail, and the next read of the sector gives the old data |
| `BufferLoss.OnePlaceOn` | src/kernel/fs/bcache.c:136-149 | a lookup that fails to read evicts the LRU tail and moves every other buffer one place towards it |
| `BlockCache.BufferCache.constructor` | src/kernel/fs/bcache.c:107-119 | 512 empty buffers, all in the LRU list, and a view equal to the disk |
| `BlockCache.BufferCache.LruUnlink` | src/kernel/fs/bcache.c:34-40 | the linked list operation on the pool |
| `BlockCache.BufferCache.LruPush` | src/kernel/fs/bcache.c:43-49 | the linked list operation on the pool |
| `BlockCache.BufferCache.HashLink` | src/kernel/fs/bcache.c:62-66 | the chain operation on the pool |
| `BlockCache.BufferCache.HashRemove` | src/kernel/fs/bcache.c:52-59 | the chain walk ends at the buffer and unlinks it |
| `BlockCache.BufferCache.Writeback` | src/kernel/fs/bcache.c:69-83 | write-back with its three outcomes: device gone, write failed, written |
| `BlockCache.BufferCache.EvictOne` | src/kernel/fs/bcache.c:86-104 | the victim is the unpinned buffer nearest the LRU tail, nothing when all are pinned; no other buffer changes |
| `BlockCache.BufferCache.Get` | src/kernel/fs/bcache.c:121-160 | returns the last value written to the sector, pinned once more and first in the LRU order, the others in their old order; null exactly when it is not cached and all buffers are pinned or the read fails, and then a victim has moved to the front empty; other pinned buffers are untouched and no other buffer becomes pinned; with working devices the view is unchanged |
| `BlockCache.BufferCache.Update` | src/kernel/fs/bcache.c:162-164 | a holder's write becomes the buffer's data, dirty, and the view at its sector; the disk is untouched |
| `BlockCache.BufferCache.Release` | src/kernel/fs/bcache.c:166-172 | drops a pin; after the last holder's release of a dirty buffer of a writable sector the disk agrees with the view there, otherwise the disk is untouched or the write failed; the view is unchanged |
| `BlockCache.BufferCache.FlushDev` | src/kernel/fs/bcache.c:174-181 | afterwards every writable sector of the device is saved |
| `BlockCache.BufferCache.SyncAll` | src/kernel/fs/bcache.c:183-188 | with working devices the disk equals the view |
| `BlockCache.BufferCache.InvalidateDev` | src/kernel/fs/bcache.c:190-203 | no buffer of the device remains, buffers of other devices are as before, and with working devices the view is unchanged |
| `HeapBlocks.LiveDisjoint` | src/kernel/mm/kmalloc.c:83-149 | live blocks are pairwise disjoint, slab and large alike |
| `HeapBlocks.FreeApart` | src/kernel/mm/kmalloc.c:59-73 | no free block overlaps a live one |
| `HeapBlocks.LiveInsidePages` | src/kernel/mm/kmalloc.c:59-73 | every byte of a live block lies in a page obtained from the physical allocator |
| `HeapBlocks.BlocksApart` | src/kernel/mm/kmalloc.c:63-72 | blocks carved from slab pages do not overlap, whatever their classes |
| `HeapBlocks.CarvedSplit` | src/kernel/mm/kmalloc.c:59-73 | the free and the live blocks of a class are exactly the blocks carved for it, each once |
| `HeapBlocks.PerPageIs` | src/kernel/mm/kmalloc.c:63-64 | the number of blocks per page and that they fit |
| `HeapSteps.CarveOk` | src/kernel/mm/kmalloc.c:68-72 | carving the next block keeps: free and live blocks are exactly the carved ones, lists threaded correctly |
| `HeapSteps.TakeOk` | src/kernel/mm/kmalloc.c:114-122 | taking the list head keeps the invariant |
| `HeapSteps.GiveOk` | src/kernel/mm/kmalloc.c:143-147 | returning a block keeps the invariant |
| `HeapSteps.NewBigOk` | src/kernel/mm/kmalloc.c:94-100 | a large block keeps the invariant |
| `HeapSteps.DropBigOk` | src/kernel/mm/kmalloc.c:132-138 | freeing a large block keeps the invariant |
| `HeapSteps.ScribbleOk` | src/kernel/mm/kmalloc.c:28-30 | a client that changes any byte of its block behind the header cannot damage lists or headers: the aligned word around the byte lies inside the block |
| `HeapBlocks.LiveAligned` | src/kernel/mm/kmalloc.c:63-72 | live blocks begin and end at word boundaries |
| `SlabAllocator.LargeAdequateIff` | src/kernel/mm/kmalloc.c:94-95 | a large request gets enough pages or is refused if and only if size plus header does not exceed 2^64 |
| `SlabAllocator.HugeRequestGetsOnePage` | src/kernel/mm/kmalloc.c:94-95 | the largest size wraps around to a single page |
| `SlabAllocator.Allocator.constructor` | src/kernel/mm/kmalloc.c:75-81 | every class is warmed with a page when there is one; nothing is live |
| `SlabAllocator.Allocator.RefillSlab` | src/kernel/mm/kmalloc.c:59-73 | a fresh page is carved completely into the list; without a free page nothing changes |
| `SlabAllocator.Allocator.FindClass` | src/kernel/mm/kmalloc.c:87-90 | the smallest class that fits |
| `SlabAllocator.Allocator.AllocLarge` | src/kernel/mm/kmalloc.c:92-101 | whole pages for a large request, null exactly when none are needed after wrap-around or no run is free |
| `SlabAllocator.Allocator.Kmalloc` | src/kernel/mm/kmalloc.c:83-124 | a new block disjoint from the live ones with room for the request, null exactly when memory is short; the corrupted-list repairs are never taken; other blocks keep every word |
| `SlabAllocator.Allocator.Kfree` | src/kernel/mm/kmalloc.c:126-149 | the block is no longer live, large pages become free, other blocks keep every word; the header guards never fire |
| `SlabAllocator.Allocator.ClientWrite` | src/kernel/mm/kmalloc.c:28-30 | a store to any byte of a client's data changes one aligned word of its block and no word of any other block |
| `SchedConserve.RunInv` | src/kernel/sched/sched.c:207-345 | in every state of every run each task is in the one place its state says |
| `SchedConserve.NextInv` | src/kernel/sched/sched.c:229-545 | every locked region keeps conservation |
| `SchedConserve.TickKeeps` | src/kernel/sched/sched.c:240-345 | a tick keeps conservation |
| `SchedConserve.OnePlace` | src/kernel/sched/sched.c:229-345 | what conservation means for one task: current, queued once, sleeping once, waking, or in no list; the queue length is right |
| `SchedConserve.RunningNotDropped` | src/kernel/sched/sched.c:317-325 | a task running before a tick is running or queued after it |
| `SchedFair.PickIsLeast` | src/kernel/sched/sched.c:119-160 | the dequeued task has the least virtual time in the queue, fallback included |
| `SchedFair.PicksSome` | src/kernel/sched/sched.c:119-160 | a queue with a task below the largest virtual time yields a task |
| `SchedFair.ChargePositive` | src/kernel/sched/sched.c:254-261 | every charge of a running task is at least 64 and at most one tick scale |
| `SchedTick.TickWakes` | src/kernel/sched/sched.c:281-343 | a tick leaves in the sleep list exactly those whose time has not come, in their old order and unchanged; every other sleeper has its deadline cleared and, idle apart, is runnable and queued or runs; the dispatched task runs with a fresh slice, and a task that neither gave up the CPU nor got it nor woke is unchanged |
| `SchedTick.WakeAwakens` | src/kernel/sched/sched.c:281-294 | the walk over the list, from any place on, for each task |
| `SchedTick.TickPays` | src/kernel/sched/sched.c:254-325 | a running task is charged the tick scale over its weight modulo 2^64, loses its slice exactly if it has used it up or reached its deadline, keeps the CPU only then and is queued otherwise; its virtual time moves on only if it lies more than the threshold behind the system |
| `SchedTick.TickTime` | src/kernel/sched/sched.c:119-130 | after a tick that dispatches a task, the system virtual time is the least virtual time of the queued tasks and the running one |
| `SchedTick.EnqueueEnters` | src/kernel/sched/sched.c:95-116 | entering the queue: at the head, a new task at the system time, an old one at its own time or the threshold behind, default weight 1024, deadline one slice over the weight away |
| `SchedTick.ChargeByWeight` | src/kernel/sched/sched.c:254-261 | weight times charge is the tick scale, rounded down, and the charge is at least 64 |
| `SchedTick.DeadlineByWeight` | src/kernel/sched/sched.c:108-110 | weight times the distance to the deadline is slice times tick scale, rounded down |
| `SchedTick.WeightHelps` | src/kernel/sched/sched.c:254-261 | more weight never gives a larger charge or a later deadline |
| `SchedTick.SliceEndsFirst` | src/kernel/sched/sched.c:268-270 | a task that has run fewer ticks than its slice since it was queued has not reached its deadline |
| `SchedTick.PriorityHalves` | src/kernel/sched/sched.c:495-511 | each priority step halves the weight and doubles the charge |
| `SchedFair.RunPrimed` | src/kernel/sched/sched.c:95-116 | in every run weights stay within the priority table and queued tasks have a virtual time |
| `SchedConserve.SleepKeepsIff` | src/kernel/sched/sched.c:528-537 | going to sleep keeps conservation if and only if the task is not in the sleep list yet; a running task other than idle never is |
| `SchedConserve.IdleSleepsTwice` | src/kernel/sched/sched.c:519-545 | the exception is reached: from sched_init two sleeps of the idle task, with the tick between them, end with it in the sleep list twice |
| `Scheduler.PushTwice` | src/kernel/sched/sched.c:534-536 | linking a task in front of the sleep list it is in leaves no finite list |
| `SchedFair.TickWaits` | src/kernel/sched/sched.c:240-345 | a tick that passes over a queued task dispatches one that is not behind it and reduces the others' total lag, counted in ticks of the least charge 64, once such a task runs |
| `SchedFair.NoStarvation` | src/kernel/sched/sched.c:240-345 | with a fixed set of runnable tasks a queued task is dispatched within one tick more than the others' total lag below it, a 64th of their virtual-time distance per task |
| `Scheduler.Sched.constructor` | src/kernel/sched/sched.c:207-226 | idle is current and the lists are empty |
| `Scheduler.Sched.RqEnqueue` | src/kernel/sched/sched.c:95-116 | catch-up, deadline and push at the head |
| `Scheduler.Sched.UpdateSystemTime` | src/kernel/sched/sched.c:122-130 | the system virtual time is the least of queue and running task |
| `Scheduler.Sched.FindEarliest` | src/kernel/sched/sched.c:132-148 | the first eligible task with the earliest deadline and its predecessor |
| `Scheduler.Sched.FindLeast` | src/kernel/sched/sched.c:149-160 | the first task with the least virtual time |
| `Scheduler.Sched.FindBest` | src/kernel/sched/sched.c:132-161 | the place the specification picks, scans and fallback together |
| `Scheduler.Sched.Unlink` | src/kernel/sched/sched.c:162-169 | the picked task leaves the linked list through its predecessor |
| `Scheduler.Sched.RqDequeue` | src/kernel/sched/sched.c:119-170 | takes the task the specification picks out of the linked list, or none exactly when nothing can be picked |
| `Scheduler.Sched.ChargeAndExpire` | src/kernel/sched/sched.c:254-279 | charging and the end of a slice |
| `Scheduler.Sched.WakeSleepers` | src/kernel/sched/sched.c:281-294 | every sleeper that is due, and no other, moves from the sleep list to the queue, runnable and with its deadline cleared; the others stay in their order, and no other task changes |
| `Scheduler.Sched.SwitchOver` | src/kernel/sched/sched.c:317-343 | the previous task is queued again if it was running, and the next one runs |
| `Scheduler.Sched.Tick` | src/kernel/sched/sched.c:240-345 | a tick is a step of the model; dead, zombie and blocked tasks are never met in the queue; the sleep list afterwards, the fate of every sleeper, the charge of the running task and the system time are those of TickWakes, TickPays and TickTime |
| `Scheduler.Sched.Block` | src/kernel/sched/sched.c:415-424 | the state store followed by a tick, for a running task or idle |
| `Scheduler.Sched.Sleep` | src/kernel/sched/sched.c:519-545 | prepending to the sleep list followed by a tick, for a running task or idle, after which the task is asleep with its deadline in the list and another one runs; nothing for zero milliseconds |
| `Scheduler.Sched.TryMark` | src/kernel/sched/sched.c:428-436 | the compare-and-exchange marks only a blocked task |
| `Scheduler.Sched.Unblock` | src/kernel/sched/sched.c:427-443 | a blocked task becomes runnable and queued, idle only runnable; any other task is left alone |
| `Scheduler.Sched.AddTask` | src/kernel/sched/sched.c:229-237 | a new task goes to the head of the queue, runnable, at the system time, with its weight or the default |
| `Scheduler.Sched.StoreExit` | src/kernel/sched/sched.c:384-412 | a thread or orphan dies, a child process becomes a zombie |
| `Scheduler.Sched.ChangePriority` | src/kernel/sched/sched.c:495-511 | weight and deadline change, the place of the task does not |
| `Paths.Normalize` | src/rust/src/path.rs:66-147 | succeeds exactly on absolute paths with components of at most 255 bytes whose intermediate renderings stay below 512 bytes; the buffer then holds where the components lead from the root: a slash or "." nowhere, ".." to the directory, a name below |
| `Paths.StripLast` | src/rust/src/path.rs:112-126 | ".." leaves the directory of the path in the buffer: exactly its last component goes |
| `Paths.PushComponent` | src/rust/src/path.rs:128-143 | appends a component, failing exactly when the rendering would reach 512 bytes |
| `Paths.BufAppend` | src/rust/src/path.rs:45-53 | appends and terminates, or fails exactly when there is no room |
| `Paths.Join` | src/rust/src/path.rs:162-197 | succeeds exactly when the specification does, with its result |
| `Paths.Dirname` | src/rust/src/path.rs:209-243 | the directory, cut to the buffer |
| `Paths.Basename` | src/rust/src/path.rs:255-288 | the base name, cut to the buffer |
| `PathModel.NormalLaws` | src/rust/src/path.rs:104-143 | for every path s the normal form of s/.. is the directory of that of s, that of s/. and s/ is that of s, and that of s/c for a name c is that of s with c below |
| `PathModel.NormalIsWalked` | src/rust/src/path.rs:66-147 | the normal form of every path is the walk from the root over its components, a definition on strings without a stack |
| `PathModel.NormalizesStep` | src/rust/src/path.rs:84-143 | one more component is accepted if and only if the path before it is, it has at most 255 bytes and leads to a path of less than 512 bytes |
| `PathModel.NormalizeIdempotent` | src/rust/src/path.rs:66-147 | a normalised path normalises to itself |
| `PathModel.NormalNoLonger` | src/rust/src/path.rs:66-147 | normalising never makes a path longer |
| `PathModel.JoinNormalBase` | src/rust/src/path.rs:162-197 | joining onto a normalised base gives what the raw base gives, and succeeds exactly when the raw join does but for the raw base's extra length |
| `PathModel.DirBaseComponents` | src/rust/src/path.rs:209-288 | for every path, directory and base name split its components at the last one |
| `PathModel.DirBaseRebuild` | src/rust/src/path.rs:209-288 | directory and base name rebuild any normalised path but the root |
| `PathModel.JoinDirBase` | src/rust/src/path.rs:162-288 | joining directory and base name of a normalised path gives it back |
| `PathModel.CompsConcat` | src/rust/src/path.rs:84-99 | a slash between two paths joins their components |
| `ElfLoader.ImageCorrect` | src/kernel/fs/elf.c:92-185 | with disjoint segments that end in the user half and have no more file bytes than memory, every byte of every segment reads back as its file byte or zero, shared pages included |
| `ElfLoader.ImageCorrectIff` | src/kernel/fs/elf.c:127-157 | for headers that pass all checks, the whole image reads back if and only if every segment ends at or below 2^47, which elf_load does not test |
| `ElfLoader.UserPagesIff` | src/kernel/fs/elf.c:127-157 | all pages of an accepted segment have a user-half path in the tables if and only if it ends at or below 2^47 |
| `ElfLoader.SegmentLeavesUserHalf` | src/kernel/fs/elf.c:127-132 | a segment that passes every check, leaves the user half and does not read back |
| `ElfLoader.EntriesArePaths` | src/kernel/mm/vmm.c:41-44 | two addresses share an entry of the loader's address space exactly when their table paths are equal |
| `ElfLoader.HitOnce` | src/kernel/fs/elf.c:159-179 | a segment below 2^48 copies at most one file byte to each position |
| `ElfLoader.BreakAboveSegments` | src/kernel/fs/elf.c:181-188 | the break is page-aligned; it lies at or above the true end of every segment if and only if no end reaches 2^64 and rounding up does not wrap around, and then less than a page above one of them |
| `ElfLoader.BreakOfImage` | src/kernel/fs/elf.c:181-188 | for images whose segments end in the user half the break is above all of them |
| `ElfLoader.BreakBelowSegment` | src/kernel/fs/elf.c:140-188 | a segment that passes every check and whose end wraps to zero: no page is mapped for it and the break lies below its start |
| `ElfLoader.HeaderTableReads` | src/kernel/fs/elf.c:190-208 | for such images the address reported for the program headers reads back the table in the file |
| `ElfLoader.FindHeaderTable` | src/kernel/fs/elf.c:193-208 | the first segment whose file part holds the table decides its address, 0 if none does |
| `ElfLoader.AddressSpace.MapPages` | src/kernel/fs/elf.c:139-157 | the missing table entries of the segment's pages appear zeroed, present ones stay; false only when memory ran out |
| `ElfLoader.AddressSpace.CopyData` | src/kernel/fs/elf.c:159-179 | the page-wise copy leaves the last file byte that reaches each position; it succeeds exactly when every page is mapped and the file is long enough |
| `ElfLoader.AddressSpace.LoadSegment` | src/kernel/fs/elf.c:119-183 | the segment's effect on every position of the space for any header, sums wrapping at 2^64, and the condition of each error; every page taken from the allocator is in the space |
| `ElfLoader.AddressSpace.LoadImage` | src/kernel/fs/elf.c:92-188 | the whole image, segment after segment, the break of its segments, and the condition of each error |
| `Checksum.FoldKeeps` | src/kernel/net/netutil.h:61-65 | folding preserves the value modulo 65535 and only zero folds to zero |
| `Checksum.VerifiesIff` | src/kernel/net/netutil.h:61-65 | a sum verifies if and only if it is a positive multiple of 65535 |
| `Checksum.FillVerifies` | src/kernel/net/udp.c:200-204 | filling the zeroed field makes the receiver's checksum zero, with a pseudo-header summed apart and with UDP's substitute for zero |
| `Checksum.ByteOrder` | src/kernel/net/netutil.h:22-42 | the low-byte-first sum gives the byte swap of the checksum of RFC 1071 |
| `Checksum.SumConcat` | src/kernel/net/tcp_output.c:10-23 | even-length parts may be summed apart |
| `Checksum.PartialSum` | src/kernel/net/netutil.h:47-59 | the 32-bit accumulator holds the sum modulo 2^32, and exactly the sum for any packet |
| `Checksum.FoldSum` | src/kernel/net/netutil.h:61-65 | the folding loop terminates with the complement of the folded sum |
| `Checksum.InetChecksum` | src/kernel/net/netutil.h:22-42 | the checksum of a buffer |
| `Checksum.TransportChecksum` | src/kernel/net/udp.c:100-113 | summing pseudo-header and segment apart equals summing them as one |
| `Checksum.Seal` | src/kernel/net/tcp_output.c:52-69 | after the checksum is stored the receiver's computation gives zero; UDP never sends zero |
| `TcpControlBlock.Tcb.CopyIn` | src/kernel/net/tcp_input.c:19-25 | the delivery loop stores the bytes that fit, in order |
| `TcpControlBlock.Tcb.CopyOut` | src/kernel/net/tcp_output.c:188-192 | the bytes copied into the segment are the head of the send queue; it fails exactly when the chunk is longer than the segment buffer |
| `TcpControlBlock.Tcb.SendChunk` | src/kernel/net/tcp_output.c:170-206 | one round of the send loop: what is sent now and what is left to send add up to the model's output, or the chunk overruns the segment buffer |
| `TcpControlBlock.Tcb.TakeSyn` | src/kernel/net/tcp_input.c:67-91 | sequence number, window and MSS of the peer's SYN |
| `TcpControlBlock.Tcb.Release` | src/kernel/net/tcp_input.c:262-266 | a connection the accept queue has no room for is freed |
| `TcpControlBlock.Tcb.TakeAck` | src/kernel/net/tcp_input.c:274-282 | only an acknowledgement of new data moves snd_una, drops entries and takes the window |
| `TcpControlBlock.Tcb.TakeFin` | src/kernel/net/tcp_input.c:315-320 | the peer's FIN takes a sequence number and is acknowledged |
| `TcpControlBlock.Tcb.Store` | src/kernel/net/socket.c:431-432 | one byte joins the send queue |
| `TcpControlBlock.Tcb.TxFull` | src/kernel/net/socket.c:414-415 | the ring test says exactly when the send queue is full |
| `TcpControlBlock.Tcb.Fill` | src/kernel/net/socket.c:413-434 | the send loop of the non-blocking call: store, flush when full, stop when still full; overruns are reported exactly |
| `TcpControlBlock.Tcb.AdvanceTail` | src/kernel/net/tcp_output.c:203-205 | the sent bytes leave the head of the send queue |
| `TcpControlBlock.Tcb.Drain` | src/kernel/net/socket.c:473-476 | the bytes read are the head of the receive queue, which is left with the rest |
| `VirtualMemory.Vmm.TakeFrame` | src/kernel/mm/pmm.c:116-137 | a free page with one reference, or none |
| `VirtualMemory.Vmm.ClonePtEntry` | src/kernel/mm/vmm.c:224-234 | one entry is copied: the page gains a reference, and both entries keep frame and flags but are read-only and copy-on-write |
| `VirtualMemory.Vmm.CloneChild` | src/kernel/mm/vmm.c:248-262 | the child table of one entry is cloned and linked into the copy |
| `VirtualMemory.Vmm.AllocRoot` | src/kernel/mm/vmm.c:297-299 | a new root table |
| `VirtualMemory.Vmm.CopyKernelHalf` | src/kernel/mm/vmm.c:316-322 | entries 256 to 511 of the new root are the kernel's |
| `VirtualMemory.Vmm.FreeEntry` | src/kernel/mm/vmm.c:132-146 | a present entry of the lowest table gives up its reference |
| `VirtualMemory.Vmm.FreeChild` | src/kernel/mm/vmm.c:156-161 | the subtree below one entry is freed, then its table |
| `VirtualMemory.Vmm.StepDown` | src/kernel/mm/vmm.c:51-57 | one level of the walk, with a fresh table when it is missing and wanted |
| `VirtualMemory.Vmm.ReadPage` | src/kernel/mm/pagecache.c:134-158 | a page read from the file joins the cache, or its frame is given back |
| `VirtualMemory.Vmm.InsertPage` | src/kernel/mm/pagecache.c:82-110 | the page just read is owned by the cache and referenced once more for the caller |
| `VirtualMemory.Vmm.GiveBack` | src/kernel/mm/pagecache.c:144-153 | the frame of a failed read is free again |
| `VirtualMemory.Vmm.CopyPage` | src/kernel/mm/vmm.c:355-366 | the copy-on-write copy: same bytes, one reference moved, entry writable |
| `VirtualMemory.Vmm.LowestTable` | src/kernel/mm/vmm.c:352-353 | the table of a mapped page |
| `VirtualMemory.Vmm.TakeData` | src/kernel/mm/vmm.c:404-411 | a fresh data page held by the fault |
| `VirtualMemory.Vmm.Release` | src/kernel/mm/vmm.c:400-401 | the cache page's extra reference is returned |
| `PhysicalMemory.Pmm.SetUsed` | src/kernel/mm/pmm.c:19-21 | one bit is set and no other changes |
| `PhysicalMemory.Pmm.SetFree` | src/kernel/mm/pmm.c:22-24 | one bit is cleared and no other changes |
| `PhysicalMemory.Pmm.IsUsed` | src/kernel/mm/pmm.c:25-27 | the bit of the page |
| `PhysicalMemory.Pmm.FreeUsable` | src/kernel/mm/pmm.c:68-79 | exactly the usable pages become free |
| `PhysicalMemory.Pmm.FreeRange` | src/kernel/mm/pmm.c:74-78 | the pages of one range become free |
| `PhysicalMemory.Pmm.MarkUsed` | src/kernel/mm/pmm.c:85-91 | free pages of the range are taken, others left |
| `PhysicalMemory.Pmm.Claim` | src/kernel/mm/pmm.c:128-131 | one free page is taken |
| `PhysicalMemory.Pmm.ClaimRun` | src/kernel/mm/pmm.c:127-132 | the whole run is taken |
| `BlockCache.BufferCache.Discard` | src/kernel/fs/bcache.c:95-102 | a buffer leaves both lists and is emptied |
| `BlockCache.BufferCache.Touch` | src/kernel/fs/bcache.c:126-131 | a hit pins the buffer and moves it to the front, the others in their old order, nothing else |
| `BlockCache.BufferCache.Fill` | src/kernel/fs/bcache.c:145-158 | a free buffer takes the sector as the disk has it, joins its chain and comes first in the LRU order |
| `BlockCache.BufferCache.Miss` | src/kernel/fs/bcache.c:135-159 | the miss branch with its two failures |
| `BlockCache.BufferCache.Purge` | src/kernel/fs/bcache.c:193-201 | one buffer is written back, dropped and put at the front, empty |
| `ElfLoader.AddressSpace.MapOne` | src/kernel/fs/elf.c:144-156 | one page appears zeroed unless it is there; false exactly when it is missing and memory is short |
| `SlabAllocator.Allocator.CarveNext` | src/kernel/mm/kmalloc.c:68-72 | one round of the carving loop |
| `SlabAllocator.Allocator.Pop` | src/kernel/mm/kmalloc.c:114-123 | the first free block becomes live; the corrupted-link repair is never taken |
| `SlabAllocator.Allocator.FreeLarge` | src/kernel/mm/kmalloc.c:132-138 | the pages of a large block become free |
| `SlabAllocator.Allocator.FreeSmall` | src/kernel/mm/kmalloc.c:143-147 | a small block goes to the front of its list |
| `Scheduler.Sched.WakeOne` | src/kernel/sched/sched.c:283-291 | one due sleeper is unlinked and queued |
| `Scheduler.Sched.Requeue` | src/kernel/sched/sched.c:270-277 | a task that stops running is queued |
| `Scheduler.Sched.BlockSelf` | src/kernel/sched/sched.c:420-422 | the state store of a blocking task |
| `Scheduler.Sched.SleepSelf` | src/kernel/sched/sched.c:527-537 | the locked region of a sleeping task puts it first in the sleep list with its deadline and keeps conservation; if the idle task is in the list already, the list has no end afterwards |
| `Scheduler.Sched.QueueMarked` | src/kernel/sched/sched.c:438-442 | the locked region that queues a woken task |
| `Paths.SkipSlashes` | src/rust/src/path.rs:86-92 | skipping slashes passes no component |
| `Paths.TakeComponent` | src/rust/src/path.rs:94-99 | the next component is taken whole |
| `Paths.CString` | src/rust/src/path.rs:31-41 | the bytes before the first NUL |
| `Paths.FindBase` | src/rust/src/path.rs:217-227 | the trimmed length and the place after the last slash |

## Left out

- PageRef: does not model the 32-bit wrap-around of a page's reference count, because no run comes near 2^32 references to one page.
- LoadSegment: pages of intermediate tables are not counted, so running out of memory there (a panic in the code) does not appear; beyond the user half a position is an entry of one flat map, which says nothing about huge pages of the kernel.
- CopyData: where header sums wrap around so that the copy would leave the file image, the outcome is Wild and nothing is promised, because the code has no defined behaviour there.
- Init: the search for a region that holds the allocator's metadata is a parameter.
- Sleep: excludes the idle task when it is already in the sleep list: the tick that follows would walk a list without an end (`IdleSleepsTwice`, `SleepSelf`).
- Kmalloc: assumes at most 2^32 tracked pages, all present in the direct map, so that a large block's page count fits its header and the sanity test of list nodes passes.
- NoStarvation: assumes no sleepers and virtual times one tick scale below 2^64; weight-proportional shares are not claimed, because the running task is not in the queue when the next one is picked.
- ReceiveAck: does not restart or stop the retransmit timer; timers are events that may fire at any time.
- Flush: after an overrun of the segment buffer (`PeerMssDecides`) only well-formed rings are promised, because the code has no defined behaviour there.
- Fill: likewise.
- CopyOut: an overrun is a result that ends the copy, likewise in EmitChunk and SendChunk.
- Send: an overrun as for Flush; the non-blocking call only, waiting in the blocking call is repetition of it and the wait queues are not modelled.
- Recv: the non-blocking call, likewise; the read from a freed block, for which the code has no buffer, is the result Gone.
- Release: the freed buffers are not taken away from the state; the bytes left in the receive queue can no longer be read.
- ReceiveSynReceived: the listener's accept queue is a flag that says whether it is full.
- HandlePageFault: faults on user addresses only; error-code bits other than write and present play no part.
- TCP header bytes, option parsing beyond the resulting MSS, the table of control blocks, port allocation, and a second connection between the same ports.
- TCP checksums as part of segment delivery: a segment arrives intact or not at all; the checksum has its own model.
- Huge pages, kernel-half mappings, device memory, page-table flags other than present, write, user, copy-on-write, huge and no-execute, and the TLB.
- CloneUpper: the flags of the entries that link one table to the next are not claimed.
- DemandPage: what the files hold is a parameter that does not change while pages are cached; write-back of shared file pages is not modelled.
- The page cache's hash chains and borrow counts: the cache is a map, and only physical references are counted.
- CloneAddressSpace: a table allocation that finds no memory panics, so the error returns of the clone functions are never reached; frame 0 stands for that panic and promises only a consistent state.
- The direct-map offset: physical addresses stand for their direct-map addresses.
- Statistics counters, logging, and the context switch itself.
- More than one CPU run queue, the choice of CPU, and the reuse of the task link by wait queues.
- Raw ELF header bytes, entry point and interpreter path text, and page permissions of segments.
- Null-pointer arguments of the path routines.
- VFS walk, procfs, sysfs, terminals, framebuffer, network plumbing below TCP, credentials and system-call wrappers: mostly branching over code that would only add easy members.
