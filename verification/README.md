# ENA driver queue engine: a verified model

This project models the queue engine of the ENA network driver for Unikraft and
proves properties of the model with Dafny 4.11: the TX and RX rings a driver
shares with a device whose completions it does not trust, the bounce slots for
low memory, frame reassembly, the admin queue, device recovery, the
single-producer single-consumer ring of the multi-core sample, and queue
sizing. `dafny verify dfyconfig.toml` checks the whole project.

## How the model is built

Each ring-locked section of the driver is one pure function on a value of the
ring (`TxRing`, `RxRing`, `AdminQueue`). Runs are sequences of such steps in any
order, from any core, and lemmas state what every run keeps. Beside the values
stand classes with the driver's own fields, arrays and loops (`RequestIdPool`,
`BouncePoolImpl`, `TxQueueImpl`, `TxRingImpl`, `RxRingImpl`, `ChainImpl`,
`AdminImpl`, `Recovery.Control`); their methods update the fields in place and
are proved equal to the functions, so the theorems about runs are theorems about
the methods.

- A poll loop is a function of the completion entries it reads, one per
  iteration. Any list of entries is allowed, so the device may write anything at
  any time. The methods read completion memory that the device rewrites between
  reads, any finite number of times; `Reads` is the list of entries they see.
- 16-bit counters wrap at 65536 in the model. `Phase(n, depth)` is the phase bit
  of the n-th index; `WrapHarmless` shows that the wrap changes neither slot nor
  phase for any accepted depth.
- Accounting is by multiset: what came in equals what is held plus what left.
  The logs of buffers that came in and left are part of the value and ghost
  state of the classes.
- `RingDevice` is an honest device: it fetches descriptors in order from memory,
  completes them in any order, each once, and writes completions with its own
  tail and phase. `TxJoint` and `RxJoint` run it against the driver, from a ring
  that was allocated or reset and from any completion memory.
- Recovery is a function of what the device does: a script of answers, one per
  admin command, and a plan of how each reset ends. `RecoveryPlan` gives every
  step's result as a function of the script, with the recursion between a timed
  out command and the recovery it starts; `Recovery.Control` updates the fields
  of the adapter and is proved equal to it, inside and outside a recovery.
- Memory allocation, the clock, the current core, the allocator's offers and
  every device answer are parameters or arbitrary values.

Where the code does less than one might expect, the model keeps the code and
states exactly when the stronger property holds:

- RX: the oversize path returns the request ID but leaves the in-flight flag set.
  `FlagsExactIff` says that a completion keeps flags and ownership equal exactly
  when it is not oversize; `OversizeRunStalesFlag` is a run with one, and
  `StaleHarmless` says what a stale flag can do.
- Ownership belongs to the TX ring, not to the request. `SentHomeIff` says that a
  completion sends a buffer to its home core exactly when that core was the last
  to submit; `TwoSubmittersMisroute` is a run where it goes elsewhere.
- A reset keeps the bounce map. `SendBounced` and `RefillWholeIff` say, on the
  state before the call, that a bounce pool stays whole exactly when nothing is
  posted from a slot or the next free ID has no slot mapped. `TxBounceLedger` and
  `RxBounceLedger` count the slots lost over any run; `ResetRunLosesSlot` is, for
  each direction, a run that loses one.
- Admin commands: at a command-ID wrap the driver clears the completion slot.
  `ExecSound` says that the driver reports a mismatch exactly when the ID
  wrapped, the awaited phase bit is 0 and the device had not answered at the
  first read; `FirstWrapAwaitsZero` says for which depths the first wrap is such
  a case, and `LateAnswerMismatch` is the run that shows it.
- A reset and the creation of a queue leave completion memory as it was; only
  ring allocation clears it. `TxStale.ProtocolIff` and `RxStale.ProtocolIff` say
  that the phase protocol holds in every run exactly when no completion slot
  carries the phase bit of the first pass at the start. `StaleEntryFrees` is a
  run with a reset in which an old entry frees a buffer the device never fetched,
  `StaleEntryHandsOut` one in which it hands such a buffer out.
- Recovery: `ena_init_config_aenq`, the RSS size query and the RSS readback
  ignore errors. `ReadyExactlyWhen` says that a recovery that returns 0 leaves the
  adapter ready exactly when the device answered every command of the script it
  was sent, and that only those ignored commands can have been left unanswered;
  `ResultBlames` bounds how many commands that is;
  `ZeroAndError` is a script with result 0 and the adapter in the error state.
- Reassembly: after a drop, later fragments of the frame are returned on their
  own. `StreamWithDrops` says what becomes of every frame of a stream with drops
  anywhere, `HeadlessIff` when a returned chain lacks a first fragment, and
  `DropSplitsFrame` is an example.
- Posting an RX buffer does not compare the length offered with the buffer. The
  ring accounting holds for any length; `RxSlots` shows that refilling never
  offers more than the buffer holds.
- The comment at `src/ena_admin.c:642-643` says that a failed reset leaves the
  adapter in the error state, so that later commands return -ENODEV. When the
  admin queues cannot be set up again, `ena_admin_fini` has already stopped the
  adapter. `FailedReset` says that the comment holds exactly for a reset that did
  not get that far, and what commands return otherwise; `FailedResetStops` is the
  case where it fails.

## Model

| member | source | states |
|---|---|---|
| Bits.Mask | src/ena_tx.c:75-75 | masking an index with depth - 1 is the remainder modulo the depth, for every power of two |
| Bits.PowerOfTwoTest | src/ena_datapath.c:18-21 | `v & (v - 1)` is zero exactly for the powers of two |
| Bits.ClearLowestBit | src/ena_init.c:78-80 | clearing the lowest set bit makes the value smaller and keeps its highest bit |
| Bits.WrapHarmless | src/ena_tx.c:347-349 | a 16-bit counter selects the slot and the phase bit of the unbounded count, because 65536 / depth is even for every accepted depth |
| Bits.CounterStep | src/ena_tx.c:347-349 | the flip-on-wrap rule computes the phase bit of the next index, through the 16-bit wrap |
| RequestIds.AllocKeeps | src/ena_datapath.c:248-267 | an allocation fails with EBUSY exactly when every ID is owned and changes nothing then; otherwise it takes the oldest free ID, which nobody owned, and keeps the window a list of exactly the unowned IDs |
| RequestIds.FreeKeeps | src/ena_datapath.c:269-298 | a release of an owned ID always succeeds and queues it last; any other release changes nothing, so release is idempotent and the pool-full error needs an ID out of range |
| RequestIdPool.Pool.constructor | src/ena_datapath.c:99-114 | a fresh pool lists every ID once and owns none |
| RequestIdPool.Pool.Alloc | src/ena_datapath.c:255-266 | the in-place allocation equals the pool function, the empty pool included |
| RequestIdPool.Pool.Free | src/ena_datapath.c:269-293 | the in-place release equals the pool function, in all four branches |
| RequestIdPool.Pool.Refill | src/ena_admin.c:70-85 | the reset loops leave the full pool with no ID owned |
| TxRing.EncodeRoundTrip | src/ena_tx.c:78-103 | the two descriptor words give back the request ID, the length and the phase bit |
| TxRuns.SubmitKeeps | src/ena_tx.c:50-129 | a submission succeeds exactly when an ID is free, hands out an unowned ID, marks it in flight and keeps every ID in one place |
| TxRuns.StageKeeps | src/ena_tx.c:165-191 | a completed request with a buffer always finds room in the deferred array; one without a buffer is not deferred |
| TxRuns.ReclaimKeeps | src/ena_tx.c:329-342 | reclaiming a request moves its buffer to the released list and its ID to the end of the pool |
| TxRuns.CompleteKeeps | src/ena_tx.c:305-342 | handling a matched completion takes exactly that request out of flight and takes no error branch |
| TxRuns.DrainEntryKeeps | src/ena_tx.c:213-225 | draining one entry frees its buffer on this core, returns its ID and swaps the last entry into its place |
| TxRuns.ResetKeeps | src/ena_admin.c:32-92 | after a reset every ID is free and not in flight, every slot and the deferred array are empty, and each held buffer was released once |
| TxRuns.StepKeeps | src/ena_tx.c:25-360 | every submit, poll and reset, on any entries, keeps the ID partition, the phase bits, buffer conservation and the absence of faults |
| TxTheorems.BufferConservation | src/ena_tx.c:229-360 | over every run each acceptance of a buffer is matched by exactly one slot holding it or one release |
| TxTheorems.NeitherLostNorDoubleFreed | src/ena_tx.c:229-360 | a buffer accepted once is held by exactly one slot, or released exactly once and held by none |
| TxTheorems.IdPartition | src/ena_datapath.c:269-298 | over every run the free window, the in-flight IDs and the deferred IDs list each ID below the depth exactly once, and neither the pool-full error nor the no-room branch was taken |
| TxTheorems.DrainEffect | src/ena_tx.c:197-227 | draining leaves exactly the entries of other cores, returns every other ID to the pool and empties its slot; the buffers freed, on this core, are exactly those of the requests deferred for it |
| TxTheorems.IdleFastPath | src/ena_tx.c:247-256 | with every ID free the full poll would clean nothing and change only the completion head, whatever the queue holds |
| TxTheorems.ConsumedPhases | src/ena_tx.c:271-303 | the k-th entry a poll consumes carries the phase bit of the k-th index from the head |
| TxTheorems.PollTerminates | src/ena_tx.c:271-352 | over fixed completion memory the loop consumes at most cq_depth entries, although skipped ones use no budget |
| TxTheorems.PollEnds | src/ena_tx.c:271-352 | when the device rewrites completion memory during the call the loop consumes at most one entry per rewrite and one per slot |
| TxOwnership.FreedByOwnerAtCompletion | src/ena_tx.c:318-339 | a poll frees a buffer on a core at most as often as a completion of that buffer was matched while that core owned the ring |
| TxOwnership.SingleSubmitter | src/ena_tx.c:318-339 | with one submitting core every buffer a poll frees is freed on that core |
| TxOwnership.SentHomeIff | src/ena_tx.c:122-122 | a completion sends a buffer to its home core exactly when that core submitted last on the ring |
| TxOwnership.TwoSubmittersMisroute | src/ena_tx.c:122-122 | two cores submit, and core 1 frees the buffer of core 0 |
| BounceSlots.TakeMoves | src/ena_netdev.c:1873-1876 | taking the oldest free slot removes exactly that slot from the pool |
| BounceSlots.GiveMoves | src/ena_netdev.c:1910-1914 | a slot that is nowhere can always be put back |
| BounceSlots.UnmapMoves | src/ena_netdev.c:424-434 | unmapping a request moves its slot back to the pool and keeps every slot in one place |
| BounceSlots.TakeThenName | src/ena_netdev.c:1901-1901 | taking a slot and naming it loses exactly the slot the entry named before, so the pool stays whole exactly when the request had none |
| TxNetdev.ReclaimSlotKeeps | src/ena_netdev.c:416-437 | the completion callback of a mapped request returns its slot, clears the stall count and sets the busy flag to whether a slot is out; of any other request it changes nothing |
| TxNetdev.SendMoves | src/ena_netdev.c:1862-1918 | a send posts from a slot exactly when its frame is low, fits, and the queue is live with a free slot and a free ID; then the oldest slot moves to the next free ID and the slot mapped there is lost; otherwise map and account do not change |
| TxNetdev.SendBounced | src/ena_netdev.c:1862-1918 | a bounced send keeps the pool whole exactly when, before the call, it cannot post from a slot or the next free ID has no slot mapped |
| TxNetdev.SendMap | src/ena_netdev.c:1899-1918 | a send changes at most the map entry of the ID it was given, to the slot it took, and a failed send leaves the ring alone |
| TxNetdev.TxBounceConservation | src/ena_netdev.c:1862-1918 | between resets every slot is free or named by exactly one request, that request is in flight, and the busy flag says whether a slot is out |
| TxNetdev.TxBounceNoSharing | src/ena_netdev.c:1901-1901 | over every run, resets included, no two requests name the same slot |
| TxNetdev.ResetLosesSlot | src/ena_admin.c:70-91 | from any state between resets with ID 0 mapped, a reset and a bounced send lose the slot of ID 0 |
| TxBounce.TxBounceLedger | src/ena_netdev.c:1862-1918 | over every run, resets included, free slots, mapped requests and sends that overwrote a map entry add up to the number of slots; the pool is whole exactly when no send did |
| TxBounce.FreshEntry | src/ena_netdev.c:1899-1903 | between resets a transmit that succeeds is given an ID that is neither in flight nor mapped, and a low frame maps the oldest free slot to it |
| TxBounce.ResetRunLosesSlot | src/ena_admin.c:70-91 | for every depth, a bounced send, a reset, a re-created queue and a bounced send lose one slot |
| BouncePoolImpl.BouncePool.constructor | src/ena_netdev.c:925-931 | a fresh pool holds every slot and maps none |
| BouncePoolImpl.BouncePool.Take | src/ena_netdev.c:1873-1876 | the in-place pop equals the function |
| BouncePoolImpl.BouncePool.Give | src/ena_netdev.c:1910-1914 | the in-place push equals the function |
| BouncePoolImpl.BouncePool.Unmap | src/ena_netdev.c:421-434 | the in-place unmap equals the function |
| TxQueueImpl.TxQueue.ReclaimSlotOf | src/ena_netdev.c:416-437 | the in-place callback equals the function |
| TxRingImpl.Ring.constructor | src/ena_datapath.c:62-194 | a fresh ring is the initial value, with zeroed completion memory of its own and the callback it was given |
| TxRingImpl.NewTxQueue | src/ena_netdev.c:885-931 | queue set-up leaves a ring and a queue that belong together, in the initial state of every run |
| TxRingImpl.Ring.ReqIdFree | src/ena_datapath.c:269-298 | the in-place release, with the slot it clears and the errno it returns, equals the function |
| TxRingImpl.Ring.SubmitUnderLock | src/ena_tx.c:50-128 | the in-place locked section equals the function |
| TxRingImpl.Ring.StageForeignFree | src/ena_tx.c:165-191 | the in-place staging equals the function |
| TxRingImpl.Ring.DrainForeignFrees | src/ena_tx.c:197-227 | the swap-with-last loop equals the recursive function |
| TxRingImpl.Ring.CompleteOne | src/ena_tx.c:305-342 | one matched completion updates ring and queue as the functions say |
| TxRingImpl.Ring.PollEntries | src/ena_tx.c:271-352 | the loop terminates and equals the function on the entries it reads, with the device rewriting completion memory between reads |
| TxRingImpl.Ring.Poll | src/ena_tx.c:229-360 | the whole call equals the function, fast path and budget 0 included, with the device writing meanwhile; the queue is updated by the callback of every matched completion |
| TxRingImpl.Ring.Submit | src/ena_tx.c:25-129 | the whole call equals the function, with its error returns |
| TxRingImpl.Ring.ResetSwState | src/ena_admin.c:32-92 | the reset loops equal the function |
| TxRingImpl.SendQueue | src/ena_netdev.c:1845-1920 | the transmit call after its poll equals the function on ring and queue |
| TxRingImpl.XmitQueue | src/ena_netdev.c:1838-1921 | poll, bounce handling and submit together equal the function, with the device writing meanwhile |
| RingDevice.SubmitSafe | tests/mock_pci.c:953-996 | a request that is not live leaves fewer than sq_depth descriptors unfetched, so its descriptor overwrites none of them |
| RingDevice.FetchSafe | tests/mock_pci.c:956-977 | the device reads the requests in the order they were submitted |
| RingDevice.CompleteSafe | tests/mock_pci.c:982-994 | completing a pending request never overwrites an unread completion and writes the phase bit of its index |
| RingDevice.HeadReady | src/ena_tx.c:274-280 | the entry at the head carries the expected phase bit exactly when it is an unread completion |
| TxJoint.SubmitDescribes | src/ena_tx.c:73-113 | the descriptor of a submission carries its ID, the packet length and the phase bit of its pass |
| TxJoint.HeadVerdict | src/ena_tx.c:271-303 | with an honest device the head entry is matched when unread and stops the loop otherwise; it is never skipped |
| TxJoint.PhaseProtocol | src/ena_tx.c:271-352 | in every joint run over memory without entries of the first phase, the phase bit at the head tells whether a completion is unread, and the requests matched since the queue was created are a prefix of the device's completions, in order |
| TxJoint.BufferLifetime | src/ena_tx.c:305-342 | in every joint run a request the device has not completed is in flight and holds the buffer it was submitted with; that acceptance of the buffer has not been released, so a buffer accepted once is in no release |
| TxJoint.NoDescriptorOverwritten | src/ena_tx.c:50-113 | in every joint run a submission leaves every unfetched descriptor as it was written |
| TxJoint.NoCompletionOverwritten | tests/mock_pci.c:982-994 | in every joint run a completion leaves every unread one in place |
| TxJoint.PollReapsAll | src/ena_tx.c:271-352 | a poll while the device is still matches every unread completion its budget and reads allow |
| TxStale.ProtocolIff | src/ena_admin.c:32-92 | the phase protocol holds in every joint run exactly when no completion slot carries the first phase bit at the start |
| TxStale.StaleEntryFrees | src/ena_admin.c:32-92 | for every depth: a request is matched, the ring is reset and created again, and the next request, not fetched yet, is taken for completed and its buffer freed |
| RxAccounting.SubmitGood | src/ena_rx.c:30-99 | for any length and address a posted buffer moves from hand into the slot of an unowned ID; a failed post changes nothing |
| RxAccounting.DropGood | src/ena_rx.c:251-294 | dropping an oversize packet releases its buffer once, empties the slot and its capacity, returns the ID and leaves the in-flight flag |
| RxAccounting.DeliverGood | src/ena_rx.c:297-330 | delivering moves the buffer from the slot to the caller |
| RxAccounting.PollGood | src/ena_rx.c:215-333 | a poll on any entries accounts for every buffer: held, handed out or released |
| RxAccounting.PollDraws | src/ena_rx.c:231-333 | each packet carries the buffer posted under its ID and is no longer than the capacity posted; no ID hands out two packets |
| RxAccounting.FlagsExactIff | src/ena_rx.c:251-297 | a completion keeps in-flight flags and ownership equal exactly when it is not oversize |
| RxAccounting.StaleHarmless | src/ena_rx.c:239-295 | a completion for an unowned ID takes no buffer and no ID and hands out at most an empty packet |
| RxAccounting.PollTerminates | src/ena_rx.c:215-333 | over fixed completion memory the loop consumes at most cq_depth entries, although skipped and dropped ones use no budget |
| RxAccounting.PollEnds | src/ena_rx.c:215-333 | when the device rewrites completion memory during the call the loop consumes at most one entry per rewrite and one per slot |
| RxAccounting.ResetGood | src/ena_admin.c:47-85 | after a reset every ID is free and not in flight, every slot is empty, and each posted buffer was released once |
| RxNetdev.AllocMoves | src/ena_netdev.c:517-584 | a low buffer takes one slot in hand and is offered with at most the slot and buffer size; otherwise no slot moves |
| RxNetdev.CommitMoves | src/ena_rx.c:154-157 | the slot in hand moves into the map; the pool stays whole exactly when the ID had none |
| RxNetdev.RollbackMoves | src/ena_rx.c:140-150 | a failed submit puts the slot in hand back |
| RxNetdev.RefillPool | src/ena_rx.c:118-160 | a refill iteration that posts moves the slot in hand, if any, to the next free ID and loses the slot mapped there; one that does not post leaves map and account alone |
| RxNetdev.RefillWholeIff | src/ena_rx.c:118-160 | a refill iteration keeps the bounce pool whole exactly when, before it, the offered buffer cannot be posted or the next free ID has no slot mapped |
| RxNetdev.Refill | src/ena_rx.c:101-174 | a refill keeps buffer and slot accounting, whatever the allocator offers and wherever it fails |
| RxNetdev.ReceiveTakes | src/ena_netdev.c:1696-1751 | a polled buffer is the one posted under its ID, no longer than its capacity; when passed on, its data is read from where the device was told to write it and lies inside that slot or buffer |
| RxNetdev.ReceiveSafe | src/ena_netdev.c:1664-1769 | a receive pass keeps buffer and slot accounting |
| RxNetdev.RxConservation | src/ena_rx.c:186-371 | over every run each buffer taken from the allocator is in exactly one slot or left exactly once |
| RxNetdev.RxSlots | src/ena_rx.c:58-73 | over every run an unowned ID has an empty slot; an owned one is in flight, holds a buffer at least as large as the length offered and is mapped to the bounce slot it was posted with |
| RxNetdev.RxBounceConservation | src/ena_netdev.c:552-575 | between resets every slot is waiting or mapped to exactly one request, which is posted, and none is in hand |
| RxNetdev.RxBounceNoSharing | src/ena_rx.c:154-157 | over every run, resets included, two posted buffers never share a slot |
| RxBounce.RxBounceLedger | src/ena_rx.c:118-160 | over every run, resets included, waiting slots, mapped requests and posts that overwrote a map entry add up to the number of slots; the pool is whole exactly when no post did |
| RxBounce.ResetRunLosesSlot | src/ena_rx.c:154-157 | for every depth, a low buffer posted, a reset, a re-created queue and another low buffer lose one slot |
| RxBounce.OversizeRunStalesFlag | src/ena_rx.c:251-295 | for every depth, one posted buffer and one oversize completion leave ID 0 free with its in-flight flag set |
| RxJoint.HeadVerdict | src/ena_rx.c:215-297 | with an honest device the head entry is handed out or dropped for its length when unread and stops the loop otherwise |
| RxJoint.PhaseProtocol | src/ena_rx.c:215-333 | in every joint run over memory without entries of the first phase, the phase bit at the head tells whether a completion is unread, and the handled completions are a prefix of the device's, in order |
| RxJoint.BufferLifetime | src/ena_rx.c:239-330 | in every joint run a request the device has not completed holds the buffer it was posted with, which was neither handed out nor released since; the device's copy of a fetched descriptor carries the length and address the driver tracks |
| RxJoint.DescriptorsTrue | src/ena_rx.c:75-92 | in every joint run each unfetched descriptor carries the length and address the driver tracks for its request, and no more than the buffer holds if no post offered more |
| RxJoint.NoDescriptorOverwritten | src/ena_rx.c:75-92 | in every joint run posting leaves every unfetched descriptor as it was written |
| RxJoint.NoCompletionOverwritten | src/ena_rx.c:215-237 | in every joint run a completion written by the device leaves every unread one in place |
| RxStale.ProtocolIff | src/ena_admin.c:32-92 | the phase protocol holds in every joint run exactly when no completion slot carries the first phase bit at the start |
| RxStale.StaleEntryHandsOut | src/ena_admin.c:32-92 | for every depth: a buffer is handed out, the ring is reset and created again, and the next buffer, not fetched yet, is taken for filled and handed out |
| RxRingImpl.RxQueue.AllocNetbuf | src/ena_netdev.c:517-584 | the in-place allocation helper equals the function |
| RxRingImpl.RxQueue.Commit | src/ena_rx.c:154-157 | the in-place commit equals the function |
| RxRingImpl.RxQueue.Rollback | src/ena_rx.c:140-150 | the in-place rollback equals the function |
| RxRingImpl.RxQueue.Unmap | src/ena_rx.c:260-276 | the in-place return of a mapped slot equals the function |
| RxRingImpl.Ring.constructor | src/ena_datapath.c:62-155 | a fresh ring is the initial value, with zeroed completion memory |
| RxRingImpl.Ring.Submit | src/ena_rx.c:30-99 | the in-place call equals the function, with its error returns |
| RxRingImpl.Ring.DropOne | src/ena_rx.c:277-290 | the in-place drop equals the function |
| RxRingImpl.Ring.DeliverOne | src/ena_rx.c:297-324 | the in-place delivery equals the function |
| RxRingImpl.Ring.ResetSwState | src/ena_admin.c:32-92 | the reset loops equal the function |
| RxRingImpl.HandleEntry | src/ena_rx.c:219-330 | one iteration equals the function on ring and queue |
| RxRingImpl.PollEntries | src/ena_rx.c:211-338 | the loop fills the packet array with exactly the packets of the function, terminates and counts the drops, with the device rewriting completion memory between reads |
| RxRingImpl.RefillBuffers | src/ena_rx.c:101-174 | the refill loop equals the function, a count of 0 included |
| RxRingImpl.TakePacket | src/ena_netdev.c:1696-1758 | the in-place handling of a polled packet equals the function |
| RxRingImpl.ReceiveOne | src/ena_netdev.c:1664-1758 | poll one packet and take it, as the function says, with the device writing meanwhile |
| Reassembly.CallsArePasses | src/ena_netdev.c:1664-1809 | where receive calls begin and end does not change what is reassembled |
| Reassembly.FramesReassembled | src/ena_netdev.c:1785-1808 | for any stream of well-formed frames without drops, however split across calls, the returned chains are the frames in order and the pending chain is the unfinished part |
| Reassembly.FragmentsConserved | src/ena_netdev.c:1664-1809 | with any drops every buffer is in exactly one of a returned chain, the pending chain or the released list |
| FrameDrops.StreamWithDrops | src/ena_netdev.c:1664-1809 | for any stream of well-formed frames with fragments lost or refused anywhere, however split across calls and polls: a frame with none missing is returned whole; of any other the fragments before the first missing one are released and each later one is returned alone; every refused buffer is released |
| Reassembly.HeadlessIff | src/ena_netdev.c:1787-1796 | a returned chain lacks a first fragment exactly when a non-first fragment arrives and nothing is pending |
| Reassembly.DropSplitsFrame | src/ena_netdev.c:1668-1674 | one dropped completion makes the rest of a frame of three arrive as two frames |
| RxFrames.EveryBufferAccounted | src/ena_netdev.c:1626-1810 | over every run each buffer taken from the allocator is in a ring slot, a returned frame, the pending chain or back with its allocator, exactly once |
| ChainImpl.Chain.DropChain | src/ena_netdev.c:458-474 | walking the next pointers frees exactly the chain, in order, and clears it |
| ChainImpl.Chain.Append | src/ena_netdev.c:1799-1800 | linking behind the tail appends the fragment |
| ChainImpl.Chain.Accept | src/ena_netdev.c:1787-1808 | a fragment starts, extends or completes the chain as the function says; a returned head links exactly the frame |
| ChainImpl.PassOnce | src/ena_netdev.c:1667-1808 | one pass of the loop equals the function and tells whether the call returns |
| ChainImpl.RecvCall | src/ena_netdev.c:1664-1809 | a receive call returns the first complete frame, or none, as the function says |
| AdminQueue.IdStep | src/ena_admin.c:469-477 | the 12-bit increment that skips zero numbers the commands modulo 4095 |
| AdminQueue.RecomputeChangesNothing | src/ena_admin.c:512-516 | the phase recomputed at a command-ID wrap is the phase the driver has |
| AdminQueue.MatchMeans | src/ena_admin.c:531-541 | the awaited slot matches exactly when the device has answered, or when the slot was cleared and the awaited bit is 0 |
| AdminQueue.ExecSound | src/ena_admin.c:440-609 | the n-th command has ID 1 + n mod 4095; an answer is the device's own completion of it; heads and tails meet after every non-timeout return; a mismatch happens exactly when the cleared slot itself matched |
| AdminQueue.FirstWrapAwaitsZero | src/ena_admin.c:507-522 | the first wrap awaits phase bit 0 exactly for depths up to 2048 |
| AdminQueue.LateAnswerMismatch | src/ena_admin.c:507-560 | after 4095 commands answered at once, a command not answered at its only read returns a mismatch exactly for completion depths up to 2048, and times out otherwise |
| AdminQueue.RunSound | src/ena_admin.c:721-756 | over any number of commands since the queues were set up, each answer is the device's own, with the ID of its number, and nothing runs after a timeout |
| AdminQueue.DriveSound | src/ena_admin.c:721-756 | over any number of commands and recoveries, a command is refused exactly when one timed out and the queues were not set up since; otherwise it has the ID of its number since then, an answer is the device's own, and a mismatch is a cleared slot that matched |
| AdminImpl.Adapter.constructor | src/ena_admin.c:313-330 | fresh admin queues are the initial value |
| AdminImpl.Adapter.SubmitCommand | src/ena_admin.c:465-529 | the in-place submission equals the function, ID wrap included |
| AdminImpl.Adapter.AwaitSlot | src/ena_admin.c:531-541 | the poll loop equals the function, with the device answering between reads |
| AdminImpl.Adapter.ExecLocked | src/ena_admin.c:440-609 | the whole call equals the function |
| AdminImpl.Adapter.ExecSafely | src/ena_admin.c:553-608 | on a queue between commands an answer is the device's own completion and the indexes meet again |
| IoRings.ResetTxOk | src/ena_admin.c:101-109 | a reset TX ring holds no buffer, no in-flight ID and no deferred entry, and its accounting holds |
| IoRings.ResetRxOk | src/ena_admin.c:111-119 | a reset RX ring holds no buffer and no in-flight ID, and its accounting holds |
| RecoveryPlan.FirstErrorIs | src/ena_admin.c:166-172 | the result kept by the first-error rule is the first entry that is not 0 |
| RecoveryTheorems.OneResultEach | src/ena_admin.c:145-229 | the ring recovery has one result per attached ring that is not live, in order, and, if any of them is 0, one per feature step that applies; the entry of a ring is 0 exactly when that ring was brought to life |
| RecoveryTheorems.ZeroMeansLive | src/ena_admin.c:145-229 | a ring recovery whose first error is 0 leaves every attached ring live |
| RecoveryTheorems.ExecResets | src/ena_admin.c:721-756 | for every script one admin command resets the device once when it times out outside a recovery and not at all otherwise, and restores the recovery flag |
| RecoveryTheorems.RecoverResult | src/ena_admin.c:645-719 | for every script a recovery resets the device once, resets every ring and at most brings it to life; on 0 every attached ring is live and the event handler and its argument are those of before |
| RecoveryTheorems.FailedReset | src/ena_admin.c:642-696 | a failed reset leaves the adapter in the error state unless the admin queues were up and could not be set up again, which stops it; later commands return -ENODEV exactly when the queues are still up, -EINVAL otherwise |
| RecoveryTheorems.FailedResetStops | src/ena_admin.c:642-696 | with admin queues up and no memory for new ones, the adapter ends stopped and commands return -EINVAL |
| RecoveryTheorems.ReadyExactlyWhen | src/ena_admin.c:645-719 | a recovery that returns 0 leaves the adapter ready exactly when the device answered every command it was sent, in the order of the script; only commands whose errors are ignored can have been left unanswered |
| RecoveryTheorems.ZeroAndError | src/ena_init.c:377-437 | with one attached TX ring and a device silent at the AENQ query, recovery returns 0, the ring is live, the adapter is in the error state and every later command is refused |
| RecoveryBlame.ResultBlames | src/ena_admin.c:645-719 | a recovery after a finished reset sends at most four commands per ring and nine more; a nonzero result is the error of the first failed command or one reported without a command, and is the former whenever a ring stays dead |
| RecoveryBlame.ReadyFromScript | src/ena_admin.c:645-719 | if the script answers that many commands, a result of 0 leaves the adapter ready |
| RecoveryTheorems.CreateUndoes | src/ena_datapath.c:496-655 | a queue creation that fails while the device answers asks to destroy every queue it created; one that succeeds created one of each and destroyed none |
| Recovery.Control.ExecCmd | src/ena_admin.c:721-756 | for every script the call equals the function, takes the lock only when it is free and terminates, although a timeout starts a recovery that issues commands |
| Recovery.Control.CreateQueues | src/ena_datapath.c:496-655 | queue creation equals the function, with the commands it undoes |
| Recovery.Control.RecoverTx | src/ena_admin.c:155-174 | the loop equals the function on every TX ring; its result is the first error of the list of creation results |
| Recovery.Control.RecoverRx | src/ena_admin.c:176-206 | the same for RX, with queue 0 refilled |
| Recovery.Control.ConfigAenq | src/ena_init.c:377-437 | equals the function, the enabled groups included, and reports success whatever happens |
| Recovery.Control.ConfigRss | src/ena_rss.c:474-508 | equals the function: the first error of the allocation and the required commands, the size query and the readback ignored |
| Recovery.Control.ReapplyFeatures | src/ena_init.c:494-543 | equals the function: every step that applies runs and the result is the first error of their list |
| Recovery.Control.RecoverIoRings | src/ena_admin.c:145-229 | equals the function; the result is the first error of all creation and feature results |
| Recovery.Control.InvalidateRings | src/ena_admin.c:94-120 | every attached ring becomes the reset ring |
| Recovery.Control.ResetUnderLock | src/ena_admin.c:670-690 | the reset and the new admin queues under the lock equal the function, with the event handler kept across them |
| Recovery.Control.ResetAndRecover | src/ena_admin.c:645-719 | equals the function: a nested call changes nothing and returns -EBUSY; otherwise the result is the first error of the reset, the creations and the feature steps |
| Spsc.SpscSafe | samples/httpreply-mc/spsc.h:50-77 | in every interleaving the popped values are a prefix of the pushed ones, occupancy is within 0 .. 1024 and the consumer is never at a slot the producer writes |
| Spsc.RefusedExactlyWhen | samples/httpreply-mc/spsc.h:55-71 | a push is refused exactly when the ring was full as it loaded the tail, a pop exactly when it was empty as it loaded the head |
| Spsc.SpscRing.Push | samples/httpreply-mc/spsc.h:50-62 | an uninterrupted push appends to the FIFO unless it is full |
| Spsc.SpscRing.Pop | samples/httpreply-mc/spsc.h:65-77 | an uninterrupted pop removes the oldest value unless it is empty |
| QueueSizing.ClampQueueDepth | src/ena_init.c:71-82 | the loop returns the largest power of two not above the value clamped to 4 .. 4096 |
| QueueSizing.LeadingZerosTop | src/ena_netdev.c:74-80 | a shift by the width minus one minus the leading zeros is the largest power of two not above the value |
| QueueSizing.SameRounding | src/ena_netdev.c:74-80 | the leading-zeros form and the clear-lowest-bit form agree |
| QueueSizing.AcceptedIsDepthOk | src/ena_datapath.c:18-21 | the depth test accepts exactly the powers of two from 4 up |
| QueueSizing.GetRingLimit | src/ena_init.c:135-140 | the reported ring size is the smaller of the two clamped depths |
| QueueSizing.DepthAlwaysAccepted | src/ena_netdev.c:83-104 | every device report and request gives a depth in 4 .. 4096, within the limit, that ring allocation accepts; a request that already fits is honoured |
| QueueSizing.ClampQueueNum | src/ena_init.c:84-91 | the queue count is in 1 .. 256: a count already there is kept, 0 gives 1 and a larger count gives 256 |
| QueueSizing.RequestedLog | src/ena_rss.c:63-65 | the loop finds the smallest log, at least 1, whose power covers the queues |
| QueueSizing.TableCovers | src/ena_rss.c:87-111 | the table size fits 16 bits and covers the queues when the device range reaches the requested log |
| QueueSizing.FairTable | src/ena_rss.c:360-370 | each queue gets the floor or ceiling of size / n entries, and every queue is named exactly when there are at least n |
| QueueSizing.FillTables | src/ena_rss.c:360-370 | the fill loop writes the round-robin table and the device index of each queue, or the queue number when it has no ring |

## Left out

- Memory barriers, MMIO, doorbells, DMA mapping, PCI and MSI-X: a doorbell is the tail it publishes.
- The spinlocks: a ring-locked section is one atomic step, and netdev calls on one queue are sequential.
- Low-latency queues (`src/ena_llq.c`), which bring-up disables.
- Device stop, ring free and teardown, where held buffers are not released.
- `ena_poll_step` (`src/ena_intr.c`) and AENQ event dispatch.
- Allocation failures inside ring and queue set-up.
- Statistics, the one-time warning about a foreign reaper, packet classification, hash and checksum flags: copying code.
- Packet contents and the copy through a bounce slot; the model keeps where data is read from and that it fits.
- TX tracking fields other than the buffer pointer, and the physical address in a TX descriptor.
- The payload of admin commands and their responses, except ID, opcode and status.
- The rest of the samples, the Python scripts and the lwIP glue.
- RxRingImpl.Ring.Submit: the ring is always attached to a netdev queue; a ring without one has no bounce slots to account for.
- RxJoint.DescriptorsTrue: covers descriptors until the device fetches them; `BufferLifetime` covers the copies it keeps.
- AdminQueue.RunSound: one run from `ena_admin_init` to the first timeout; `DriveSound` is the statement across recoveries.
- Recovery.Control.ExecCmd: the script gives the outcome of a command; the queue protocol behind it is `AdminQueue`.
- Recovery.Control.CreateQueues: queues in host memory only; a low-latency queue that the device refuses is not tried first.
