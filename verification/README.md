# Driver rings, claims, pools and checksums: a Dafny model

This project models the hardest parts of a collection of Linux driver code and proves what they
promise, for every input, every reachable state and every interleaving.

* **The RTL8101 Ethernet driver** (`Solutions/Rt8169Drv`). Driver and NIC share two rings of 1024
  descriptors. Ownership of a slot is the `DescOwn` bit; positions are free-running 32-bit counters
  taken modulo 1024. The handlers (transmit, reap, receive and refill, interrupt, NAPI poll, link
  timer, reset task, timeout, open, close) share the counters, the slots, the queue and carrier
  flags, the interrupt mask and the NAPI state.
* **The single-buffer DMA character driver** (`Solutions/expt_drv_with_dma.c`). Any number of writers
  contend for one buffer through an atomic counter; one reader takes a received packet in pieces.
* **The snull packet pools** (`NetworkDriver/snull.c`). Packets move between intrusive linked lists of
  any number of devices and the hands of callers.
* **The ping reply rewriter** (`NetworkDriver/dummy_ping.c`). A packet is answered in place, and the
  IP header checksum stays right although nobody recomputes it.

## Layout

| file | content |
|---|---|
| Common.dfy | small shared definitions |
| Counters.dfy | wrapping counters, and the walk they make over the slots |
| Descriptors.dfy | descriptors, decoded and as 32-bit words |
| TxRing.dfy, TxRingBuffer.dfy | the transmit ring as a value, and the arrays updated in place |
| RxRing.dfy, RxRingBuffer.dfy | the receive ring with its DMA mappings, likewise |
| DeviceControl.dfy, DeviceFlags.dfy | transmit ring and flags as a state machine over the handlers; each flag followed through runs |
| WholeDevice.dfy | both rings and the flags side by side, one call per handler |
| Driver.dfy | the handlers as methods, each equated with a call of WholeDevice |
| NicWalk.dfy, PollMachine.dfy | a NIC that follows RingEnd, interleaved with the micro-steps of poll and interrupt |
| PollRun.dfy | an uninterrupted poll or handler of that machine is the one-step call of WholeDevice |
| Restart.dfy | what restarting the NIC at slot 0 does to the receive side |
| ResetPass.dfy | the reset task restarts the receive side in step |
| LinkDown.dfy | link-down's index reset, with the NIC filling the ring in order |
| CutPass.dfy | link-down's index reset in the middle of a receive pass |
| Publication.dfy | the order of the stores that hand a slot to the NIC |
| CharTransmit.dfy, CharReceive.dfy, CharDevice.dfy | the character driver, as interleaved steps and as calls |
| PacketPool.dfy, PacketHeap.dfy | the packet lists as values, and the pointers on the heap |
| OnesComplement.dfy, PingReply.dfy | the Internet checksum, and the reply |

`dafny verify dfyconfig.toml` checks the whole project.

## Environment

What the proofs take from kernel and hardware:

* `start_xmit` is called with the queue awake and the carrier on, `nr_frags <= MAX_SKB_FRAGS` and
  `0 < len < 2^14`. MAX_SKB_FRAGS is a parameter with `0 < MAX_SKB_FRAGS < 1024`.
* The NIC touches only slots with `DescOwn` set; on write-back it keeps RingEnd and LastFrag. In
  DeviceControl and RxRing it may pick any such slot at any time; in PollMachine it goes in order.
* The interrupt handler is entered only while interrupts are unmasked. `napi_schedule` does nothing
  while poll is scheduled already.
* Allocation may fail at any point; when it succeeds, skb and bus address are not in use.
* A call is atomic in DeviceControl, RxRing, WholeDevice and Driver. PollMachine, Publication,
  CharTransmit and CharReceive cut calls into their single accesses.

## Where the code does less than it seems to

* `tx_clear` visits no slot when `dirty_tx >= 2^32 - 1024`, because its loop bound wraps
  (`TxRing.ClearEmptiesIff`, `DeviceControl.ClearingKeepsRingIff`, `DeviceControl.OverflowingClearRefuses`).
* Link-down resets the Rx indexes without the test the reset task makes
  (`RxRing.ResetKeepsValidIff`, `RxRing.LinkDownFaultsIff`, `LinkDown.InOrderFaultsIff`), and poll's
  receive pass may be in the middle of its work on them (`CutPass.ResetInDrainKeepsIff`,
  `CutPass.ResetInFillKeepsIff`).
* Link-up restarts the NIC at slot 0, clears the status, unmasks and leaves `cur_rx`, whatever poll is
  doing (`Restart.RestartAttendedIff`, `Restart.LinkUpLosesReachable`). The reset task does better
  (`ResetPass.ResetTaskStarts`), and so does the transmit side (`DeviceControl.TxRestartsInStep`).
* `start_xmit` picks its slot before it takes the lock (`TxRing.StaleSlotBreaksRingIff`,
  `DeviceControl.RacingXmitIff`).
* A write that returns -EFAULT keeps its claim for ever (`CharDevice.UsableIff`), and the
  length of a packet is or-ed onto that of earlier ones (`CharTransmit.SentExactlyIff`,
  `CharDevice.FullBufferSentLonger`).
* `snull_get_tx_buffer` returns from an empty pool with the lock held
  (`PacketHeap.System.GetTxBuffer`), and the receive queue is last in, first out
  (`PacketHeap.System.DequeueBuf`), as a remark in the source admits.
* The ping reply of an ICMP message too short to hold its checksum has a wrong one
  (`PingReply.ReplyVerifiesIff`); every ICMP message, not only echo requests, is answered.

## Model

| member | source | states |
|---|---|---|
| `Counters.WalkIsBijection` | Solutions/Rt8169Drv/net_stk.c:66-67 | From any counter value the walk over N slots and the map back are inverse to each other: each slot is visited exactly once |
| `Counters.AddMovesWindow` | Solutions/Rt8169Drv/net_stk.h:50-53 | A counter that wraps at 2^32 still selects the slot j places further on, since 1024 divides 2^32 |
| `Counters.WrapKeepsSlotIff` | Solutions/Rt8169Drv/net_stk.c:66-67 | For a ring of any size n, stepping the 32-bit counter and stepping the slot agree at every counter value if and only if n divides 2^32 |
| `Descriptors.TxWordBits` | Solutions/Rt8169Drv/net_stk.c:636-644 | Every length below 2^14 is or-ed into opts1 without touching a flag, and RingEnd is set exactly when asked for |
| `Descriptors.TxWordDecodes` | Solutions/Rt8169Drv/net_stk.c:651-653 | The two words stored decode to the same descriptor, without and with DescOwn |
| `Descriptors.MarkWordDecodes` | Solutions/Rt8169Drv/net_stk.c:92-98 | On the raw word, marking a slot for the NIC keeps RingEnd and nothing else |
| `Descriptors.UnusableWordDecodes` | Solutions/Rt8169Drv/net_stk.c:86-90 | On the raw word, making a slot unusable clears DescOwn and every status bit but keeps RingEnd and the size |
| `TxRing.AvailIsRoom` | Solutions/Rt8169Drv/net_stk.c:36-37 | TX_BUFFS_AVAIL does not underflow while fewer than N skbs are in flight, and is N - 1 minus their number |
| `TxRing.PostAppends` | Solutions/Rt8169Drv/net_stk.c:640-657 | Posting an skb appends it, with the bus address it was mapped at, to the queue the ring stands for, at any counter value |
| `TxRing.StaleSlotBreaksRingIff` | Solutions/Rt8169Drv/net_stk.c:616-657 | With a slot picked before the lock was taken, what start_xmit does leaves the ring consistent if and only if it refuses the skb (too little room, or the NIC owns the slot), or the slot is still that of cur_tx, there is room and the skb is not empty |
| `TxRing.CompleteMarksDone` | Solutions/Rt8169Drv/net_stk.c:418-421 | A slot the NIC completes is an entry of the queue, and only that entry becomes done |
| `TxRing.ReapNRemovesPrefix` | Solutions/Rt8169Drv/net_stk.c:412-434 | k turns of the reap loop take the k oldest entries off the queue and nothing else |
| `TxRing.ReapRemovesDonePrefix` | Solutions/Rt8169Drv/net_stk.c:398-447 | tx_interrupt removes exactly the completed prefix, stops at the first slot the NIC owns, and accounts for what it removed |
| `TxRing.ClearEmptiesIff` | Solutions/Rt8169Drv/net_stk.c:61-84 | tx_clear leaves no skb, length or owned descriptor if and only if dirty_tx + N < 2^32 or there was nothing to clear; otherwise it touches no slot and resets the counters all the same |
| `TxRing.ClearBalances` | Solutions/Rt8169Drv/net_stk.c:71-81 | Clearing frees every queued skb once, in order, unmaps it at its own address, and counts it as dropped |
| `TxRing.PostBalances` | Solutions/Rt8169Drv/net_stk.c:640-657 | Accepting an skb keeps the books: accepted equals freed followed by queued |
| `TxRing.RefuseBalances` | Solutions/Rt8169Drv/net_stk.c:676-679 | A refusal takes nothing over and counts one packet as dropped |
| `TxRing.ReapNBalances` | Solutions/Rt8169Drv/net_stk.c:423-431 | Reaping keeps them: each skb freed once and unmapped at its own address, tx_packets and tx_bytes count and sum the reaped ones |
| `TxRingBuffer.TxBuffer.InitRing` | Solutions/Rt8169Drv/net_stk.c:208-214 | The arrays become those of the fresh ring, statistics and history untouched |
| `TxRingBuffer.TxBuffer.UnmapTxSkb` | Solutions/Rt8169Drv/net_stk.c:48-59 | Exactly one descriptor is zeroed and one length cleared; the skb pointer stays |
| `TxRingBuffer.TxBuffer.ClearEntry` | Solutions/Rt8169Drv/net_stk.c:67-81 | The loop body is ClearSlot |
| `TxRingBuffer.TxBuffer.Clear` | Solutions/Rt8169Drv/net_stk.c:61-84 | The unsigned loop, with its wrapping bound, computes TxRing.Clear, of which ClearEmptiesIff tells when it empties the ring |
| `TxRingBuffer.TxBuffer.Reap` | Solutions/Rt8169Drv/net_stk.c:408-437 | The loop computes TxRing.Reap, of which ReapRemovesDonePrefix tells that it removes the completed prefix |
| `TxRingBuffer.TxBuffer.Post` | Solutions/Rt8169Drv/net_stk.c:640-657 | The stores compute TxRing.Post, which appends to the queue |
| `DeviceControl.RingRefinesQueue` | Solutions/Rt8169Drv/net_stk.c:398-447 | Over every step of every handler and of the NIC the ring is a plain FIFO queue of skbs with their bus addresses: slot (dirty_tx + k) mod N holds the k-th oldest, posted whole, and all other slots are empty with zeroed descriptors |
| `DeviceControl.StepKeepsSound` | Solutions/Rt8169Drv/net_stk.c:449-698 | Each handler keeps the invariant of ring, counters and flags |
| `DeviceControl.RunsStaySound` | Solutions/Rt8169Drv/net_stk.c:449-698 | So does every legal sequence of handlers and NIC steps |
| `DeviceControl.FlowControl` | Solutions/Rt8169Drv/net_stk.c:629-669 | In every reachable state an awake queue with carrier has room for MAX_SKB_FRAGS, both NETDEV_TX_BUSY branches are unreachable, TX_BUFFS_AVAIL never underflows and at most N - MAX_SKB_FRAGS skbs are in flight |
| `DeviceControl.NoStuckQueue` | Solutions/Rt8169Drv/net_stk.c:664-669 | In every reachable state a stopped queue of an open device has too little room, or no carrier, or a reset task coming |
| `DeviceControl.ReapingWakes` | Solutions/Rt8169Drv/net_stk.c:436-442 | When all in flight is completed, the next poll leaves the queue awake |
| `DeviceControl.ReenableAgent` | Solutions/Rt8169Drv/net_stk.c:463-540 | In every reachable state of an open device interrupts are unmasked, or NAPI, the reset task or the link timer has yet to unmask them |
| `DeviceControl.TxConservation` | Solutions/Rt8169Drv/net_stk.c:412-434 | Over every run the skbs offered to start_xmit are, in order, the freed ones (each once, and unmapped then at the address it was mapped at) and those in the ring; tx_packets, tx_bytes and tx_dropped count exactly the reaped and the cleared |
| `DeviceControl.OwnedCarriesOffered` | Solutions/Rt8169Drv/net_stk.c:640-653 | In every run a slot the NIC owns carries exactly the descriptor of the skb offered that its place stands for: address, length, both fragment bits, RingEnd at the last slot only |
| `DeviceControl.ClearingKeepsRingIff` | Solutions/Rt8169Drv/net_stk.c:264-268 | Link-down, reset and close leave a consistent ring if and only if tx_clear is outside its overflow window or the ring is empty |
| `DeviceControl.OverflowingClearRefuses` | Solutions/Rt8169Drv/net_stk.c:527-531 | At every counter value in the window the reset task frees nothing and resets the counters to slot 0, and the next transmission is refused as busy if and only if the NIC owns that slot |
| `DeviceControl.TxRestartsInStep` | Solutions/Rt8169Drv/mac.c:96-131 | In every run each hw_init finds the transmit counters at slot 0 and the ring empty, as the restarted NIC expects |
| `DeviceControl.RacingXmitIff` | Solutions/Rt8169Drv/net_stk.c:616-627 | When any other step of handlers or NIC falls between picking the slot and taking the lock, the ring stays consistent if and only if that step does not clear the ring, or cur_tx selected slot 0 |
| `DeviceControl.XmitIsSubmit` | Solutions/Rt8169Drv/net_stk.c:616-657 | Uncut, start_xmit is that submission at the slot of cur_tx |
| `DeviceFlags.MaskFollows` | Solutions/Rt8169Drv/mac.c:9-18 | In every run interrupts are unmasked exactly if nothing (handler, timeout, link-down, unfinished reset, close) has masked them since something (hw_init, a poll that completes) unmasked them |
| `DeviceFlags.CarrierFollows` | Solutions/Rt8169Drv/net_stk.c:256-263 | In every run the carrier flag is what the link timer saw last, and off after close |
| `DeviceFlags.TaskChanges` | Solutions/Rt8169Drv/net_stk.c:509-540 | A reset task is pending exactly after a timeout or an unfinished pass of its own, until it or an open comes |
| `DeviceFlags.NapiChanges` | Solutions/Rt8169Drv/net_stk.c:463-503 | Poll is scheduled by the handler alone, and ended by completing or by what disables it |
| `DeviceFlags.ClosedIsQuiet` | Solutions/Rt8169Drv/net_stk.c:578-609 | In every run a closed device has its queue stopped, interrupts masked, no poll scheduled, no carrier and an empty ring |
| `DeviceFlags.StoppedUntilRestart` | Solutions/Rt8169Drv/net_stk.c:264-268 | Once link-down or close has stopped the queue, no step but one with hw_init starts it again |
| `RxRing.DrainNKeeps` | Solutions/Rt8169Drv/net_stk.c:329-372 | k turns of the drain loop over slots handed back never meet a null buffer, keep window and mappings, and widen the gap by k |
| `RxRing.DrainTurnsStopsAtOwned` | Solutions/Rt8169Drv/net_stk.c:334-338 | The loop takes every slot up to the first the NIC owns, or up to its limit |
| `RxRing.PassStops` | Solutions/Rt8169Drv/net_stk.c:323-338 | A pass looks at no more frames than its budget; if it has budget left it has looked at the whole window or stopped at a slot the NIC owns |
| `RxRing.FillNFills` | Solutions/Rt8169Drv/net_stk.c:145-161 | After k turns of the fill loop the first k slots have buffers, slots that had one are unchanged, the mappings are balanced |
| `RxRing.FillAdvances` | Solutions/Rt8169Drv/net_stk.c:378-381 | Refilling and advancing dirty_rx restores the invariant, also when an allocation fails |
| `RxRing.InterruptKeepsValid` | Solutions/Rt8169Drv/net_stk.c:311-396 | rx_interrupt keeps window safety, ownership and mapping balance for every budget, every mix of bad frames and every pattern of failed allocations |
| `RxRing.ResetKeepsValidIff` | Solutions/Rt8169Drv/net_stk.c:528-529 | Resetting the indexes keeps the ring valid if and only if dirty_rx = cur_rx |
| `RxRing.UnguardedResetFaults` | Solutions/Rt8169Drv/net_stk.c:264-268 | After a link-down with dirty_rx != cur_rx there is a run of NIC writes to slots the NIC owns, in any order, and one poll, in which the drain loop uses a null buffer |
| `RxRing.LinkDownFaultsIff` | Solutions/Rt8169Drv/net_stk.c:264-268 | With a NIC that may fill any slot it owns, some run after the link-down uses a null buffer or unmaps what is not mapped if and only if dirty_rx != cur_rx |
| `RxRing.LinkDownFaultReachable` | Solutions/Rt8169Drv/net_stk.c:264-268 | Such a link-down can happen just after open: one good frame and one failed allocation are enough |
| `LinkDown.InOrderFaultsIff` | Solutions/Rt8169Drv/net_stk.c:256-268 | The same, exactly, for link-down followed by link-up with a NIC that fills the ring in order from slot 0, over every interleaving of its steps with those of handler and poll |
| `CutPass.ResetInDrainKeepsIff` | Solutions/Rt8169Drv/net_stk.c:322-381 | When the reset falls into the drain loop, the stale cur_rx is stored over it, and the ring survives if and only if the refill comes within N slots of that and no slot at or beyond it lacks a buffer; with memory for every hole the refill gets all the way |
| `CutPass.ResetInFillKeepsIff` | Solutions/Rt8169Drv/net_stk.c:378-381 | When the reset falls into the refill loop, the ring survives if and only if there was nothing to refill |
| `RxRing.FillFromBlank` | Solutions/Rt8169Drv/net_stk.c:211-217 | A successful init_buffers posts all N slots and yields a valid ring |
| `RxRing.FailedOpenBalances` | Solutions/Rt8169Drv/net_stk.c:217-227 | When init_buffers fails, whatever the allocations that succeeded, no mapping is left and nothing is unmapped twice |
| `RxRing.ClearUnmapsAll` | Solutions/Rt8169Drv/net_stk.c:163-173 | rx_clear unmaps every live mapping, each once and with its own address |
| `RxRing.StepKeepsValid` | Solutions/Rt8169Drv/net_stk.c:311-396 | NIC writes, poll, the reset task, reopening, and link-down with dirty_rx = cur_rx keep the ring valid |
| `RxRing.RunsStayValid` | Solutions/Rt8169Drv/net_stk.c:311-396 | So does every legal sequence of these |
| `RxRing.ValidMeans` | Solutions/Rt8169Drv/net_stk.c:86-173 | In a valid ring every slot from cur_rx to dirty_rx + N has a buffer, DescOwn implies a live skb, its mapping is the descriptor's address, and there are no other live mappings |
| `RxRing.OwnershipAndBalance` | Solutions/Rt8169Drv/net_stk.c:86-173 | Over every run from a successful open no null buffer is used, nothing is unmapped twice, and closing leaves no live mapping |
| `RxRingBuffer.RxBuffer.RecycleEntry` | Solutions/Rt8169Drv/net_stk.c:339-347 | The error branch computes Recycle: counters, and the same buffer back to the NIC |
| `RxRingBuffer.RxBuffer.DeliverEntry` | Solutions/Rt8169Drv/net_stk.c:348-371 | The good branch computes Deliver: unmap, take the skb out, pass up and count size - 4 bytes, which DrainDelivers shows to be the frame |
| `RxRingBuffer.RxBuffer.AllocRxSkb` | Solutions/Rt8169Drv/net_stk.c:109-130 | The stores compute Refill |
| `RxRingBuffer.RxBuffer.RxFill` | Solutions/Rt8169Drv/net_stk.c:145-161 | The loop on wrapping counters ends within N turns, computes Fill and returns the number of slots passed |
| `RxRingBuffer.RxBuffer.DrainLoop` | Solutions/Rt8169Drv/net_stk.c:329-372 | The loop computes DrainN for exactly DrainTurns turns |
| `RxRingBuffer.RxBuffer.RxInterrupt` | Solutions/Rt8169Drv/net_stk.c:311-396 | The whole handler computes RxRing.Interrupt and returns the number of frames looked at |
| `RxRingBuffer.RxBuffer.FreeRxSkb` | Solutions/Rt8169Drv/net_stk.c:132-143 | Computes FreeSlot |
| `RxRingBuffer.RxBuffer.RxClear` | Solutions/Rt8169Drv/net_stk.c:163-173 | The loop computes FreeN for all N slots, which ClearUnmapsAll is about |
| `RxRingBuffer.RxBuffer.InitBuffers` | Solutions/Rt8169Drv/net_stk.c:208-229 | Succeeds exactly when all N slots can be filled, and otherwise frees what it had allocated |
| `WholeDevice.StepKeepsInv` | Solutions/Rt8169Drv/net_stk.c:449-698 | Every handler and every NIC write keeps the invariant over flags and both rings: sound while open, nothing mapped while closed |
| `WholeDevice.DeviceStaysSound` | Solutions/Rt8169Drv/net_stk.c:449-698 | From registration on, over every sequence of handlers and NIC writes with failed opens and reopens, flags and rings stay sound, no null buffer is used, nothing is unmapped that is not mapped, a closed device has no live mapping, and rx_packets and rx_bytes count and sum the frames delivered |
| `WholeDevice.OpenStartsInStep` | Solutions/Rt8169Drv/net_stk.c:542-565 | In every run a successful open leaves driver and NIC in step on both rings, which is where the results of PollMachine begin |
| `Driver.Rtl8101.constructor` | Solutions/Rt8169Drv/net_stk.c:716-766 | A registered device is the initial device of WholeDevice: closed, without carrier, masked, rings empty, no buffer in any Rx slot, nothing mapped |
| `Driver.Rtl8101.HwInit` | Solutions/Rt8169Drv/mac.c:96-131 | Leaves interrupts unmasked and the queue started |
| `Driver.Rtl8101.TxBuffsAvail` | Solutions/Rt8169Drv/net_stk.c:36-37 | The wrapping expression is the room left |
| `Driver.Rtl8101.StartXmit` | Solutions/Rt8169Drv/net_stk.c:611-683 | Performs the call Xmit of WholeDevice and keeps its invariant; reports busy exactly when it has refused |
| `Driver.Rtl8101.TxInterrupt` | Solutions/Rt8169Drv/net_stk.c:398-447 | The handler is DeviceControl.TxInterrupt, wake-up included |
| `Driver.Rtl8101.Poll` | Solutions/Rt8169Drv/net_stk.c:449-475 | Performs the call Poll and keeps the invariant; returns the number of frames looked at |
| `Driver.Rtl8101.Interrupt` | Solutions/Rt8169Drv/net_stk.c:497-502 | Masks and schedules, changes nothing else, keeps the invariant |
| `Driver.Rtl8101.HandleInterrupt` | Solutions/Rt8169Drv/net_stk.c:485-502 | Takes the interrupt exactly if the status is not all ones, has an enabled bit, and the device is running; otherwise changes nothing |
| `Driver.Rtl8101.InitRingIndexes` | Solutions/Rt8169Drv/net_stk.c:175-181 | All four counters become zero, no slot changes |
| `Driver.Rtl8101.CheckLinkStatus` | Solutions/Rt8169Drv/net_stk.c:248-271 | Performs the call Link, resetting the Rx indexes whatever they are when the link goes down; keeps the invariant outside the two failing cases |
| `Driver.Rtl8101.ResetTask` | Solutions/Rt8169Drv/net_stk.c:509-540 | Performs the call ResetTask, with an Rx pass and the guarded index reset, rescheduling itself exactly when slots lack buffers; keeps the invariant outside the overflow window |
| `Driver.Rtl8101.TxTimeout` | Solutions/Rt8169Drv/net_stk.c:685-699 | Masks and schedules the reset task, keeps the invariant |
| `Driver.Rtl8101.Open` | Solutions/Rt8169Drv/net_stk.c:542-576 | Succeeds exactly when the Rx ring can be filled; keeps the invariant, so a failed open leaves nothing mapped |
| `Driver.Rtl8101.Close` | Solutions/Rt8169Drv/net_stk.c:578-609 | Clears both rings of an open device and does nothing to a closed one; keeps the invariant, so nothing stays mapped |
| `NicWalk.WriteAligned` | Solutions/Rt8169Drv/net_stk.c:215-216 | The NIC's write to the next slot, following RingEnd, puts the frame right behind those waiting |
| `NicWalk.DrainDelivers` | Solutions/Rt8169Drv/net_stk.c:329-372 | The slot at cur_rx carries the oldest waiting frame, and a turn of the loop does to the statistics exactly what that frame calls for: delivered and counted with its bytes, or counted as bad with its kind of error |
| `NicWalk.TallyMeans` | Solutions/Rt8169Drv/net_stk.c:341-370 | Frame by frame this adds up to the good frames in order, their number and bytes, the number of bad frames, of those with a length error and of those with a bad checksum |
| `NicWalk.DrainAligned` | Solutions/Rt8169Drv/net_stk.c:329-372 | A turn of the loop takes the oldest waiting frame and keeps driver and NIC in step |
| `Restart.RestartAttendedIff` | Solutions/Rt8169Drv/net_stk.c:258-261 | After an hw_init between polls, with poll scheduled or not, any frames waiting and any slots empty: in every run of driver and NIC each good frame is delivered in order or has someone coming for it, if and only if poll was not scheduled, no good frame was waiting, and the NIC stood at slot 0 already |
| `Restart.PostedRestartIff` | Solutions/Rt8169Drv/net_stk.c:258-261 | With no frame waiting, if and only if poll was not scheduled and cur_rx mod N = 0 |
| `Restart.LinkUpLosesReachable` | Solutions/Rt8169Drv/net_stk.c:258-261 | Such a link-up happens: from the state open leaves, one bad frame received and served is enough |
| `Restart.ScheduledLoses` | Solutions/Rt8169Drv/net_stk.c:463-472 | With poll scheduled, a frame that comes between its drain loop and napi_complete is acknowledged by the handler and forgotten, wherever the NIC is |
| `ResetPass.ResetTaskStarts` | Solutions/Rt8169Drv/net_stk.c:525-531 | The reset task delivers and counts every frame that waits, in order, and if it refills the ring, driver and NIC restart in step on both rings |
| `Restart.OutOfStepLoses` | Solutions/Rt8169Drv/net_stk.c:449-503 | With all slots posted and cur_rx elsewhere, one good frame suffices: a run through handler and poll ends quiet, status empty, the frame undelivered |
| `Restart.Serve` | Solutions/Rt8169Drv/net_stk.c:449-475 | From any sound idle state one interrupt and one poll, with budget and memory to spare, drain all that waits and post every slot |
| `NicWalk.CompleteAligned` | Solutions/Rt8169Drv/net_stk.c:644 | The NIC completes the oldest uncompleted skb and finds the next one, although reaping zeroes RingEnd |
| `PollMachine.StepKeepsSound` | Solutions/Rt8169Drv/net_stk.c:449-503 | Each micro-step of poll, handler, transmit and NIC keeps the invariant |
| `PollMachine.RunsStaySound` | Solutions/Rt8169Drv/net_stk.c:449-503 | So does every interleaving of them from hw_init on |
| `PollMachine.OpenIsStart` | Solutions/Rt8169Drv/net_stk.c:208-217 | A successful open posts every Rx slot and leaves both rings where the next three results begin |
| `PollMachine.ReceiveFifo` | Solutions/Rt8169Drv/net_stk.c:311-396 | In every state reachable from an hw_init in step: the frames delivered, followed by the good ones waiting in the slots from cur_rx on, are the good frames the NIC wrote, same bytes, same order, none lost, repeated or stale; and the statistics, with those waiting counted in, are those of all frames written |
| `PollMachine.RingEndAgreement` | Solutions/Rt8169Drv/net_stk.c:213-216 | In every reachable state a NIC that follows RingEnd alone is where the driver computes it to be modulo N; in Rx only slot N - 1 carries RingEnd, in Tx an owned slot carries it iff it is N - 1 |
| `PollMachine.NoLostInterrupt` | Solutions/Rt8169Drv/net_stk.c:449-503 | In every reachable state a waiting good frame or an unreaped completion has poll or handler under way, or the bit about to be latched, or the bit latched and the handler enterable now or after the pending unmask, unless the status is 0xFFFF, which the handler ignores |
| `PollMachine.LateBitSurvivesIff` | Solutions/Rt8169Drv/mac.c:14-18 | A status bit latched between the read and the write of the handler survives if and only if it was not set when the status was read |
| `PollRun.PollAgrees` | Solutions/Rt8169Drv/net_stk.c:449-475 | One call of Poll is an uninterrupted poll of the micro-step machine: same rings, and NAPI completed and interrupts unmasked exactly when work_done < budget |
| `PollRun.IrqAgrees` | Solutions/Rt8169Drv/net_stk.c:485-502 | One call of Interrupt is the five steps of the handler |
| `PollRun.MaskBits` | Solutions/Rt8169Drv/r8101.h:141 | Both use the same enabled interrupts |
| `Publication.ProgramsAreSafe` | Solutions/Rt8169Drv/net_stk.c:649-653 | Each store sequence the driver starts, after the tests it makes, sets DescOwn last and over the address and length of the slot's skb |
| `Publication.PublicationIsSafe` | Solutions/Rt8169Drv/net_stk.c:100-107 | From zeroed rings, with both rings written at once and NIC steps between any two stores, in every run the NIC acts only on descriptors whose address and length are those of the slot's own skb |
| `Publication.ReorderedStoresUnsafe` | Solutions/Rt8169Drv/net_stk.c:104-106 | With DescOwn stored before the address this fails |
| `Publication.SubmitShows` | Solutions/Rt8169Drv/net_stk.c:640-653 | The stores of start_xmit leave the descriptor that the transmit ring model posts |
| `Publication.RefillShows` | Solutions/Rt8169Drv/net_stk.c:100-107 | The stores of a refill leave the descriptor that the receive ring model posts |
| `Publication.DrainShows` | Solutions/Rt8169Drv/net_stk.c:347-356 | So do those of the drain loop |
| `Publication.ReapShows` | Solutions/Rt8169Drv/net_stk.c:55-58 | And those of reaping |
| `CharTransmit.StepKeepsSound` | Solutions/expt_drv_with_dma.c:464-489 | Every atomic step of any writer, the NIC or the handler keeps the claim count and the contents of the buffer right |
| `CharTransmit.MutualExclusion` | Solutions/expt_drv_with_dma.c:464-489 | For any number of writers in any interleaving, pkt_tx_busy is the tentative writers plus the holders, there is at most one holder, no writer holds the buffer while the NIC does, and each packet sent starts with what its writer copied |
| `CharTransmit.HolderIsAlone` | Solutions/expt_drv_with_dma.c:471-482 | A writer past the check is the only writer there, and neither NIC nor handler nor an abandoned claim holds the buffer |
| `CharTransmit.SentExactlyIff` | Solutions/expt_drv_with_dma.c:485 | In every run a packet is sent as written, bytes and length, if and only if none of the packets before it has a length with a bit that its own length lacks |
| `CharTransmit.OrBit` | Solutions/expt_drv_with_dma.c:485 | A bit is set in the or-ed length exactly if it is set in the old one or the new |
| `CharTransmit.TakenIsFront` | Solutions/expt_drv_with_dma.c:477-479 | A write takes its data up to 256 bytes, from the start |
| `CharTransmit.OverlayAt` | Solutions/expt_drv_with_dma.c:479 | A write leaves what was in the buffer beyond its data, byte by byte |
| `CharTransmit.FaultBlocksForever` | Solutions/expt_drv_with_dma.c:479-482 | After one -EFAULT no writer ever gets the buffer again and nothing more is published, in any run |
| `CharReceive.HandOff` | Solutions/expt_drv_with_dma.c:433-462 | In every state of every run pkt_rx_avail is 0 or 1, the NIC does not own the descriptor while it is 1, and the packets read, in pieces of any sizes, up to the return of 0 at the end of the packet are, whole and in order, the frames the NIC wrote |
| `CharReceive.ReadProgress` | Solutions/expt_drv_with_dma.c:453-461 | A read of positive size advances, never beyond the packet |
| `CharDevice.WriteIsRun` | Solutions/expt_drv_with_dma.c:464-489 | An uninterrupted call is a sequence of those steps, each enabled where it happens; refused, it changes nothing, accepted, it publishes its data, and failing, it publishes nothing and abandons its claim |
| `CharDevice.FullBufferSentLonger` | Solutions/expt_drv_with_dma.c:485 | A run in which three bytes and then a full buffer of 256 are written, and the NIC is told 259 |
| `CharDevice.UsableIff` | Solutions/expt_drv_with_dma.c:470-482 | From any state, with any number of calls under way, some run publishes another packet if and only if no write has returned -EFAULT while holding the buffer |
| `CharDevice.FaultEndsUse` | Solutions/expt_drv_with_dma.c:479-482 | One -EFAULT on a free device takes it from the one case to the other |
| `CharDevice.ExptDevice.constructor` | Solutions/expt_drv_with_dma.c:136-152 | setup_buffers gives the Rx descriptor to the NIC, keeps the Tx one, and zeroes both counters |
| `CharDevice.ExptDevice.Write` | Solutions/expt_drv_with_dma.c:464-489 | The call performs Written, which WriteIsRun is about, and returns -EBUSY, -EFAULT or the full length asked for |
| `CharDevice.ExptDevice.Read` | Solutions/expt_drv_with_dma.c:433-462 | Each of the four outcomes: -EAGAIN, end of packet and hand-back, -EFAULT, or the next bytes of the packet |
| `CharDevice.ExptDevice.Interrupt` | Solutions/expt_drv_with_dma.c:388-400 | TX_OK releases the claim, RX_OK raises the flag with the frame's length, neither touches the other |
| `PacketPool.StepKeepsConsistent` | NetworkDriver/snull.c:64-154 | Making, linking, unlinking, freeing and cutting off keep lists, pointers and places in agreement |
| `PacketPool.Conservation` | NetworkDriver/snull.c:64-154 | Over any sequence of operations on any number of devices every packet is on exactly one list, in one hand, or lost to a reset pool; the pointers spell out the lists; pools hold packets of their own device |
| `PacketPool.ListsAreDisjoint` | NetworkDriver/snull.c:64-154 | In particular lists are pairwise disjoint and without cycles, and a null head means an empty list |
| `PacketPool.HeadMeans` | NetworkDriver/snull.c:98-108 | A head pointer is null exactly for an empty list and otherwise points to its first packet |
| `PacketPool.PutUndoesTake` | NetworkDriver/snull.c:98-129 | Releasing a packet just got restores the world as it was |
| `PacketHeap.System.GetTxBuffer` | NetworkDriver/snull.c:98-117 | Takes the first packet of a non-empty pool; an empty pool gives null and leaves the lock held |
| `PacketHeap.System.ReleaseBuffer` | NetworkDriver/snull.c:119-129 | Puts the packet in front of the pool of its own device |
| `PacketHeap.System.EnqueueBuf` | NetworkDriver/snull.c:131-140 | Puts the packet in front of the device's queue |
| `PacketHeap.System.DequeueBuf` | NetworkDriver/snull.c:142-154 | Takes the packet enqueued last; an empty queue gives null; the lock is free again either way |
| `PacketHeap.System.SetupPool` | NetworkDriver/snull.c:64-81 | The pool ends up with as many new packets of this device as memory and pool_size allow, and no other list changes |
| `PacketHeap.System.TeardownPool` | NetworkDriver/snull.c:83-93 | Frees exactly the packets in the pool and leaves those on queues and in hands alone |
| `OnesComplement.VerifiesMeans` | NetworkDriver/dummy_ping.c:57-59 | A message is accepted exactly when its word sum is a positive multiple of 2^16 - 1 (sections 1 and 2 of RFC 1071) |
| `OnesComplement.TotalConcat` | NetworkDriver/dummy_ping.c:57-58 | The word sum of an even number of bytes and a rest is the sum of the two sums |
| `OnesComplement.CsumPartial` | NetworkDriver/dummy_ping.c:57-58 | The 32-bit sum with end-around carry, of any length, odd ones too, is the plain sum reduced once |
| `OnesComplement.ChecksumIsComplement` | NetworkDriver/dummy_ping.c:59 | Folding that sum gives the complement of the 16-bit one's-complement sum, whatever the carries |
| `PingReply.AddressSwapKeepsTotal` | NetworkDriver/dummy_ping.c:51-53 | Exchanging the addresses permutes the words of a header with any options, so its sum stays |
| `PingReply.HeaderChecksumKept` | NetworkDriver/dummy_ping.c:47-53 | The header checksum is valid in the reply if and only if it was in the request (section 3.1 of RFC 791) |
| `PingReply.ReplyAt` | NetworkDriver/dummy_ping.c:46-59 | Every byte but the checksum: addresses exchanged, type 0, code, identifier, sequence number and data as they were (Echo Reply message of RFC 792) |
| `PingReply.ReplyVerifiesIff` | NetworkDriver/dummy_ping.c:55-59 | For every content and every length the rebuilt checksum is valid if and only if the message has room for it, or is three bytes long with code 255 |
| `PingReply.PartsFound` | NetworkDriver/dummy_ping.c:35-58 | Parsing undoes assembling: in a frame put together from Ethernet header, IPv4 header of any length, ICMP message and padding, the header and the message are found again |
| `PingReply.ReplyToFrame` | NetworkDriver/dummy_ping.c:55-59 | The reply to such a frame has a message of the same length, in the same place, whose checksum is valid over all of it |
| `PingReply.ReplyToFrameHeader` | NetworkDriver/dummy_ping.c:50-53 | Its header has the addresses exchanged, and is valid if it was |
| `PingReply.EchoChecksumMoves` | NetworkDriver/dummy_ping.c:55-59 | For a valid echo request the new checksum is the old one plus 0x0800 in one's-complement arithmetic |
| `PingReply.ReaddressedTwice` | NetworkDriver/dummy_ping.c:46-53 | Exchanging the addresses again restores the frame |
| `PingReply.SwapFields` | NetworkDriver/dummy_ping.c:46-53 | Copying through a temporary exchanges two fields of the array in place |
| `PingReply.RebuildIcmp` | NetworkDriver/dummy_ping.c:54-59 | The stores and the kernel's checksum arithmetic yield the reference checksum |
| `PingReply.MakeReply` | NetworkDriver/dummy_ping.c:45-59 | The array ends up as Reply of what it was |
| `PingReply.EthRx` | NetworkDriver/dummy_ping.c:24-76 | Exactly when the packet is refused, freed unchanged (a non-ICMP packet whatever its lengths), or passed up as its reply |

## Left out

- WholeDevice.DeviceStaysSound, and the results of DeviceControl and RxRing over whole runs: hold for runs in which tx_clear does not meet its overflow window with skbs in the ring, and link-down finds dirty_rx = cur_rx; what happens otherwise is stated by the if-and-only-if members named above.
- PollMachine.ReceiveFifo, PollMachine.RingEndAgreement and PollMachine.NoLostInterrupt begin at an hw_init in step and end before the next hw_reset; WholeDevice.OpenStartsInStep, ResetPass.ResetTaskStarts and Restart.RestartAttendedIff say which hw_inits are in step. Restart.RestartAttendedIff leaves out an hw_init in the middle of a poll.
- CutPass.ResetInDrainKeepsIff and CutPass.ResetInFillKeepsIff: a reset between the reads of cur_rx and dirty_rx at the start of the pass, or between the store of cur_rx and the call of rx_fill, is not modelled, and neither are NIC writes during the pass. Other handlers are not interleaved with the middle of a poll.
- RxRingBuffer.RxBuffer.RxInterrupt, Driver.Rtl8101.Poll and Driver.Rtl8101.ResetTask ask for cur_rx - dirty_rx <= N, and TxRingBuffer.TxBuffer.Reap and Driver.Rtl8101.TxInterrupt for cur_tx - dirty_tx <= N; the machines show that this always holds.
- Driver.Rtl8101.Open: before the first open the model already has zeroed rings where the source has null pointers; the failure of pci_alloc_consistent and of request_irq (which frees the rings without clearing the Rx buffers) is not modelled.
- Driver.Rtl8101.HwInit: register configuration, MAC filter, PHY, delays and the bounded wait of nic_reset are not modelled.
- Driver.Rtl8101.HandleInterrupt: an entry while interrupts are masked, possible on a shared line, is excluded from the runs of PollMachine.
- Transmit mappings are followed by their addresses only (mapped when accepted, unmapped when freed), not as a set of live mappings like those of receive buffers.
- Statistics counters are unbounded integers.
- The re-check of TX_BUFFS_AVAIL after stopping the queue cannot see a change while the lock is held, so it is a plain re-evaluation.
- rtl8101_notify_for_tx: the NIC may complete an owned slot at any time, so the doorbell has no effect in the model.
- CharTransmit.MutualExclusion and CharTransmit.SentExactlyIff: the length the NIC is told is exact, but of the bytes it sends only those within the 256-byte buffer are modelled.
- CharReceive.HandOff: frames are at most 256 bytes long and there is one reader; hw_shut, the link and error interrupts are not modelled.
- CharDevice.ExptDevice.Write: a failing copy is taken to leave the buffer as it was; CharTransmit lets it write any part.
- PacketHeap.System: the functions of snull.c whose statements are TODO remarks (queue stop and wake, hw_tx, rx, interrupts) are not modelled; locks are a set of held locks, so calls are atomic.
- OnesComplement.CsumPartial: the kernel's version adds wider words; the model adds 16-bit words into a 32-bit sum, in network byte order.
- PingReply.EthRx: netif_rx, eth_type_trans and the frame's reallocation are not modelled; header pointers are offsets, and the frame is taken to hold the bytes the lengths name.
- Publication.PublicationIsSafe: rx_clear and tx_clear take back slots the NIC owns, after the NIC has been reset; they are not among its store sequences.
- Memory ordering beyond the order of stores, endianness conversion and cache effects are not modelled.
- Probe and remove, character device and netdev registration, module set-up, the exercise skeletons with gaps, and the debugging demos: plumbing with few branches, or code that does not decide its behaviour.
