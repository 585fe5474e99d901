# Verified models of the Auracast source and sink firmware

These Dafny files model the five concurrent machines at the heart of the firmware and prove what they
keep. To verify them all: `dafny verify dfyconfig.toml`.

1. **Audio output ring and its regulators.** `AudioRing` cuts the filling thread and the I2S interrupt
   into the steps that can interleave and proves that the ring is a FIFO; `AudioRingLimits` says exactly
   where that stops being true, and `AudioReach` that a run from the start gets there;
   `AudioCompensation` says when the presentation controller's index moves are safe, `AudioStamps` what
   they leave in the time stamps, and `AudioDelay` what they do to the measured delay;
   `PresentationComp` and `DriftComp` are the two controllers, `SduRef` the check of incoming
   references and `SyncTimer` the timestamps. `AudioDatapath` is the imperative form, with interrupts
   admitted between any two loop turns, and `AudioLoop` closes the loop of ring, interrupt and
   presentation controller.
2. **LC3 streamer.** `Lc3File` reads a length-prefixed file; `Lc3Streamer` interleaves caller and
   work-queue worker over a two-block slab; `Lc3StreamerCode` is the code itself.
3. **PA data protocol stack.** `UartFramer`, `PaCommand`, `PaService`, `PaServiceCode`, and
   `PaEndToEnd`, which follows a payload from the host's first byte to the sink.
4. **Auracast receiver.** `AdStructures` (advertising data, both sides), `AdScan` and `ScanCache` are
   its parts, `Receiver` the machine they make up and `ReceiverCode` its handlers; `ReceiverEffects` and
   `ReceiverMessages` say field by field and message by message what each event does.
5. **ISO frame assembler.** `FrameAssembler`.

The pattern is the same throughout. A machine is a value with a step function; the theorems are about
all its runs. A class with the source's fields and methods holds the same state in place, and each
method is proved to take the step the function gives. C widths, wrap-around and truncating division are
written out with the functions of `CInt`; `Common` holds what several components share.

## What the proofs found

- `filled_blocks_get` reports a full ring as empty, so the fill check is right exactly when producer and
  consumer index differ (`FillCheckExact`); even then the last frame it admits overwrites the block
  being played (`LastBlockOverwritesPlaying`). Both happen in runs from the start (`FrameLossHappens`,
  `OverwriteHappens`).
- Presentation compensation inserts and removes blocks without looking at the fill level. Inserting `k`
  is safe exactly when there is room for `k` (`InsertsSafeExactly`), removing `k` exactly when `k` are
  queued (`RetreatsSafeExactly`); an insertion at the full ring loses it (`InsertAtFullLosesRing`,
  `InsertionLossHappens`).
- Presentation compensation never locks on an error congruent to 500 us modulo 1000
  (`LocksExactlyWhen`, `ClosedLoopLocks`). Beyond 214 s the sum of its ten samples wraps: it can then
  drive the error up (`WrappedSumDiverges`) or lock with minutes of error (`WrappedSumLocks`).
- A capture between an overflow of the counter and the interrupt for it yields a time 512 s too small
  (`PendingOverflowLags`).
- `err_us_calculate` is off by a multiple of 296 us while the two 32-bit timestamps have wrapped a
  different number of times, except for multiples of 125 wraps (`ErrUsAcrossWraps`).
- A calibration error beyond 2147483 us can wrap its product and be accepted
  (`CalibrationAcceptsWrappedProduct`).
- A payload of 252 bytes, the protocol's maximum, cannot be received: its length byte 255 is skipped
  (`RoundTripExactly`).
- The room reported by `adapter_get_status` is right exactly for BASE data of up to 251 bytes
  (`ReportExactly`).
- The frame assembler keeps locations apart exactly up to two streams (`DistinctExactly`).
- A PA sync start that drops an earlier sync, and a release that fails after stopping the BIS sync,
  change the state bits without the transition notification exactly when deleting the sync does not
  report its termination (`TransitionsAreTold`). A successful release whose deletion does report it
  tells the app twice that the sync has ended (`ReleaseTellsEnd`).
- A call to the streamer is told "not ready" exactly while a load is under way, however many calls are
  made meanwhile, or when the worker marks the last frame between the call's two looks at the stream
  (`NotReadyExactly`, `CallNotReadyExactly`).
- The second block of the streamer's slab ends two bytes past `slab_buffer`: blocks are 252 bytes apart
  in 502 bytes. A frame of 251 bytes writes one byte past it (`FillBlock`).
- A BIS sync start without a broadcast code leaves the sink the code of an earlier one
  (`OnlyWorkFeedsSink`). The first payload of a new source is not passed on when it equals the last one
  heard from the old source, exactly when deleting the old sync does not report its termination
  (`FirstPayloadIsCompared`, `RepeatIsToldExactly`).

Where code and documents differ the code is followed: the completion timer runs 250 ms, not the 100 ms
of doc/architecture.md:272; the UART is uart0, not the uart1 of doc/architecture.md:330; the largest
payload that can be delivered is 251 bytes, not `PA_MAX_DATA_SIZE`; and the change detection of payloads
is not reset when a sync is established (broadcast_sink/main.c:318-330), as doc/broadcast_sink.md:111
promises, but only when one ends.

## Model

| member | source | states |
|---|---|---|
| `AudioRing.RingIsFifo` | src/audio/audio_datapath.c:640-698 | For every interleaving of copy, publish, compensation and I2S steps in which no frame arrives and no muted block is inserted at equal indices (a full ring), and no block is removed: the ring blocks handed to I2S (alternate buffers left out), followed by the unread ones, are three silent blocks followed by everything published, cell for cell - nothing lost, repeated or half written |
| `AudioRing.RunRefines` | src/audio/audio_datapath.c:640-1003 | Every safe run - no frame and no insertion at a full ring, no removal from an empty queue - refines an ideal queue: same contents after every step, same cells handed over |
| `AudioRing.I2sRefines` | src/audio/audio_datapath.c:650-698 | One interrupt takes exactly the head of the queue, or an alternate buffer when the queue is empty |
| `AudioRing.AltBuffersNeverRunOut` | src/audio/audio_datapath.c:568-620 | In every run, safe or not, each in_use flag is set exactly when I2S plays or has queued that buffer, so a free one is always found and is never one I2S still holds |
| `AudioRing.QueueConserves` | src/audio/audio_datapath.c:665-677 | An ideal queue from which nothing is removed at the back hands out and keeps exactly what it was given |
| `AudioRing.StartInv` | src/audio/audio_datapath.c:756-780 | The start state satisfies the invariant for every ring of at least two blocks, and I2S holds the two slots before the first |
| `AudioRingLimits.FillCheckExact` | src/audio/audio_datapath.c:169-178 | The fill check decides rightly whether a frame fits if and only if producer and consumer index differ; at equal indices the full ring counts as empty |
| `AudioRingLimits.FrameAtFullLosesRing` | src/audio/audio_datapath.c:973-1002 | What the wrong answer costs: of n - 1 unread blocks and f new ones, f - 1 are left |
| `AudioRingLimits.FrameMovesProducer` | src/audio/audio_datapath.c:983-1002 | An accepted frame changes nothing but the blocks, their stamps and the producer index, which moves by its length around the ring |
| `AudioRingLimits.FrameFillsRing` | src/audio/audio_datapath.c:973-1002 | A frame makes the indices equal exactly when it finds room for itself and nothing else |
| `AudioRingLimits.CopyHitsPlaying` | src/audio/audio_datapath.c:985-999 | A copied block lands in the buffer being played exactly when the ring is full but for that slot, and never in the queued one |
| `AudioRingLimits.PlayedAsGiven` | src/audio/audio_datapath.c:640-1003 | In every run that leaves one slot spare, each block comes back from I2S as it was given: nothing is overwritten while I2S holds it |
| `AudioRingLimits.LastBlockOverwritesPlaying` | src/audio/audio_datapath.c:976-999 | Without the spare slot it fails: a frame accepted at the last moment overwrites the block being played |
| `AudioRingLimits.StartPlayInv` | src/audio/audio_datapath.c:756-780 | The start state satisfies the invariant behind PlayedAsGiven |
| `AudioReach.BrinkIsReached` | src/audio/audio_datapath.c:640-1003 | For every ring of n >= f + 2 blocks and every frame of f there is a safe run from the start state to one frame below full, with I2S holding the slot before the consumer |
| `AudioReach.FullRingIsReached` | src/audio/audio_datapath.c:640-1003 | And one to equal indices |
| `AudioReach.FrameLossHappens` | src/audio/audio_datapath.c:973-1002 | So there is a run from the start in which every rule is kept until the last frame, and that one leaves f - 1 of the n - 1 unread and f new blocks |
| `AudioReach.OverwriteHappens` | src/audio/audio_datapath.c:976-999 | There is a safe run from the start in which an accepted frame overwrites the block being played |
| `AudioReach.InsertionLossHappens` | src/audio/audio_datapath.c:474-488 | There is a run from the start, safe until then, in which an inserted block mutes the queued slot and loses the whole ring |
| `AudioCompensation.AdjustmentMovesFill` | src/audio/audio_datapath.c:448-496 | A compensation by k blocks moves the producer by k around the ring: the fill level changes by k modulo N, and by exactly k when fill >= 1 and 1 <= fill + k < N |
| `AudioCompensation.RetreatUnderflows` | src/audio/audio_datapath.c:489-493 | Removing a block from an empty ring makes the whole ring look unread |
| `AudioCompensation.InsertAtFullLosesRing` | src/audio/audio_datapath.c:474-488 | Inserting a block at equal indices mutes the slot I2S has queued and leaves none of the n - 1 unread blocks |
| `AudioCompensation.InsertsSafeExactly` | src/audio/audio_datapath.c:474-488 | Inserting k blocks is safe if and only if k = 0 or the level leaves room for k |
| `AudioCompensation.RetreatsSafeExactly` | src/audio/audio_datapath.c:489-493 | Removing k blocks is safe if and only if at least k are queued |
| `AudioCompensation.InsertsSafeUnderInterrupts` | src/audio/audio_datapath.c:474-488 | With interrupts anywhere in between, room for k at the start still suffices |
| `AudioCompensation.RetreatsSafeUnderInterrupts` | src/audio/audio_datapath.c:489-493 | With interrupts in between, k plus one for each interrupt suffices |
| `AudioStamps.StampsFormProgression` | src/audio/audio_datapath.c:474-1002 | After a compensation that inserts k blocks and a frame, together fewer than the ring has, interrupts anywhere: the stamps around the ring from the old producer index on are one block period apart modulo 2^32, k of them and those of the frame exactly when it was accepted; every other stamp is kept and the producer has moved past them |
| `AudioDelay.DelaysAreTimeMinusStamp` | src/audio/audio_datapath.c:650-652 | Along a steady run the delay measured at interrupt j is that interrupt's time minus the stamp of block j of the stream |
| `AudioDelay.TotalOfRemoval` | src/audio/audio_datapath.c:489-493 | A safe removal of k, interrupts anywhere: what I2S gets and what is left are the queued blocks without the last k |
| `AudioDelay.CompensationTotal` | src/audio/audio_datapath.c:474-495 | In a safe run whose thread part is a compensation by k, of either sign, what I2S gets and what is left for it are k blocks more than were queued |
| `AudioDelay.CompensationShiftsDelay` | src/audio/audio_datapath.c:448-652 | A compensation by k blocks, of either sign, changes the delay measured for every block of the frames that follow by exactly k * 1000 us modulo 2^32, interrupts anywhere |
| `PresentationComp.AdjBlksRounds` | src/audio/audio_datapath.c:448-472 | The number of blocks is the average rounded to whole blocks, halves away from zero, and clamped to +-60; zero exactly below half a block |
| `PresentationComp.MeasuresLastCalls` | src/audio/audio_datapath.c:397-424 | Along every run the sum is that of the last ctr errors, all from clean consecutive calls |
| `PresentationComp.AdjustmentIsMeanOfTen` | src/audio/audio_datapath.c:410-424 | Only the decision that ends a measurement adjusts; the adjustment is the truncated mean of exactly the ten errors before; blocks move only with abs(mean) >= 500 and never on entry to LOCKED |
| `PresentationComp.OnlySamplesCount` | src/audio/audio_datapath.c:397-446 | What is measured outside the ten sampling calls changes nothing |
| `PresentationComp.GapsAreNoticed` | src/audio/audio_datapath.c:376-392 | From every state a gap in the references begins a wait and the loss of the drift lock starts over, a locked controller included; neither adjusts |
| `PresentationComp.LockLeftExactly` | src/audio/audio_datapath.c:376-440 | The lock is left if and only if the drift lock is lost or a gap is flagged |
| `PresentationComp.LockedExactly` | src/audio/audio_datapath.c:376-440 | In every run the controller is locked if and only if some call decided so on ten clean errors with a mean below half a block and since then there was neither a gap nor a loss of the drift lock |
| `PresentationComp.DecisionStep` | src/audio/audio_datapath.c:407-424 | For every error: a window of ten samples of it ends in LOCKED if and only if the mean of their wrapped 32-bit sum is below 500 us in absolute value, and in WAIT otherwise |
| `PresentationComp.ShrinksExactly` | src/audio/audio_datapath.c:407-472 | For every error: a window brings it closer to zero if and only if the blocks asked for have its sign and it is not exactly half a block |
| `PresentationComp.AdjustingShrinks` | src/audio/audio_datapath.c:448-472 | For errors from half a block up to 214748364 us, whose sum does not wrap, every window shrinks the error unless it is exactly half a block, by 60 blocks or to below half a block |
| `PresentationComp.AfterSum` | src/audio/audio_datapath.c:407-496 | A window takes the wrapped sum, for every error, to itself less 10 ms per block, and never makes it wrap more often or less |
| `PresentationComp.WrappedSumDiverges` | src/audio/audio_datapath.c:407-472 | An error of 300 s wraps the sum, and the window makes it 60 ms larger |
| `PresentationComp.WrappedSumLocks` | src/audio/audio_datapath.c:407-424 | An error of 429.4965 s, which is congruent to 500 modulo 1000, is locked at once and for good |
| `PresentationComp.Converges` | src/audio/audio_datapath.c:397-496 | For every error whose wrapped sum is not congruent to 5000 modulo 10000 the controller is locked for good after finitely many windows; less than half a block of error is left if and only if the error was at most 214748364 us in absolute value |
| `PresentationComp.NeverLocks` | src/audio/audio_datapath.c:397-496 | With a wrapped sum congruent to 5000 modulo 10000 it never locks: a block is moved forth and back without end |
| `PresentationComp.LocksExactlyWhen` | src/audio/audio_datapath.c:397-496 | For every error: from the initial state the controller reaches LOCKED if and only if the wrapped sum of ten samples is not congruent to 5000 modulo 10000; where the sum does not wrap, if and only if the error is not congruent to 500 modulo 1000 |
| `AudioLoop.CompensationShiftsComing` | src/audio/audio_datapath.c:474-652 | In one steady run a compensation by k blocks, of either sign, interrupts anywhere, moves the delay of the next block published by exactly k * 1000 us |
| `AudioLoop.FollowsFrames` | src/audio/audio_datapath.c:640-1003 | Frames stamped in progression and interrupts leave that delay; once more blocks have followed one another than the ring holds, it is the delay measured |
| `AudioLoop.SampleIsError` | src/audio/audio_datapath.c:397-446 | The waiting calls after a compensation outlast the ring: in every state of the loop the controller's step is its step on the true error, all ten samples of the next window being behind the compensation |
| `AudioLoop.StreamOutIsCall` | src/audio/audio_datapath.c:896-1003 | What AudioDatapath.StreamOut does for an accepted frame, with drift locked and references consecutive, is a call of the closed loop |
| `AudioLoop.CallsAreLoop` | src/audio/audio_datapath.c:376-1003 | Every steady run of ring, interrupt and controller refines the loop of PresentationComp: one step of it per call, none for the interrupts in between, with the true error of the ring as its error |
| `AudioLoop.ClosedLoopLocks` | src/audio/audio_datapath.c:376-1003 | Whatever the ring holds when a wait begins: after finitely many calls of any steady run the controller is locked if and only if the wrapped sum of ten errors is not congruent to 5000 modulo 10000, and then the delay the interrupt measures is the wanted one up to less than half a block if and only if the error was at most 214748364 us |
| `DriftComp.ErrUsIsCentredResidue` | src/audio/audio_datapath.c:195-220 | The error is congruent to the timestamp difference modulo 1000 and at most 500 in absolute value |
| `DriftComp.ErrUsAcrossWraps` | src/audio/audio_datapath.c:195-220 | For times past 2^32 the error is off by 296 us per wrap, modulo 1000: it is still the residue of the true difference if and only if the numbers of wraps differ by a multiple of 125 |
| `DriftComp.CalibrationAcceptedExactly` | src/audio/audio_datapath.c:269-296 | CALIB is accepted exactly for abs(err_us) <= 1000 when err_us * 1000 fits 32 bits, and then sets the PLL to the adjusted centre |
| `DriftComp.CalibratedByProduct` | src/audio/audio_datapath.c:277-294 | For every error, acceptance depends on the 32-bit product alone: exactly when it lies within +-1000612 |
| `DriftComp.CalibrationAcceptsWrappedProduct` | src/audio/audio_datapath.c:277-294 | A concrete error of 4.3 s whose wrapped product is accepted |
| `DriftComp.DriftInvHolds` | src/audio/audio_datapath.c:250-344 | Over all runs: ctr < 100; INIT implies ctr = 0; OFFSET or LOCKED implies a centre frequency within the PLL range; the PLL never leaves its range |
| `DriftComp.RegulatedFreqFits` | src/audio/audio_datapath.c:305-333 | Centre frequency plus adjustment always fits 16 bits before it is clamped |
| `DriftComp.CorrectionBounds` | src/audio/audio_datapath.c:305-311 | The regulator's correction is at most 755 and turned against the error |
| `DriftComp.InitExactly` | src/audio/audio_datapath.c:258-267 | INIT is left for CALIB by the first reference and by nothing else |
| `DriftComp.CountsExactly` | src/audio/audio_datapath.c:268-344 | In the other states the first 99 calls of each 100 only count |
| `DriftComp.LockHysteresis` | src/audio/audio_datapath.c:300-344 | LOCKED is entered exactly from OFFSET on a 100th call with an error below 32 us, and left exactly for INIT on one with an error of 66 us or more |
| `DriftComp.LocksFirstExactly` | src/audio/audio_datapath.c:250-344 | No run locks before its 201st call, and the 201st locks if and only if the first brought a reference, the calibration over the next 100 is accepted and the last sees an error below 32 us |
| `DriftComp.PerfectClockLocks` | src/audio/audio_datapath.c:250-344 | A run from the start that reaches LOCKED: references 100 ms apart and blocks that start with them |
| `DriftComp.DriftCompensation.constructor` | src/audio/audio_datapath.c:123-167 | The zeroed control block |
| `DriftComp.DriftCompensation.HfclkaudioSet` | src/audio/audio_datapath.c:222-230 | Writes the argument clamped to the PLL range |
| `DriftComp.DriftCompensation.Elapsed` | src/audio/audio_datapath.c:270-275 | The waiting counter: true on the hundredth call, which resets it |
| `DriftComp.DriftCompensation.Regulate` | src/audio/audio_datapath.c:305-311 | The halved error and the PLL value derived from it |
| `DriftComp.DriftCompensation.Compensate` | src/audio/audio_datapath.c:250-344 | One call per I2S block does the controller's step and leaves the PLL in range |
| `SduRef.DroppedExactly` | src/audio/audio_datapath.c:907-915 | A frame is dropped if and only if it repeats the reference recorded last and that is not 0 |
| `SduRef.RecordedExactly` | src/audio/audio_datapath.c:916-942 | Every other frame is recorded with its own reference, unless it follows the last one by less than 9990 us or by more than 10010 but less than 15000: then with the last one plus 10 ms; flagged exactly from 15000 on |
| `SduRef.RecordsAllOthers` | src/audio/audio_datapath.c:907-942 | Over every run there is one entry for each frame that is no duplicate |
| `SduRef.InPaceIsRecorded` | src/audio/audio_datapath.c:907-942 | References one frame apart, give or take 10 us, are recorded just as they come, and never flagged |
| `SduRef.StopForgets` | src/audio/audio_datapath.c:1029-1043 | After a stop the next frame is recorded as it comes, whatever came before |
| `SduRef.RecordedStepsOk` | src/audio/audio_datapath.c:907-1043 | Over all runs of frames and stops each recorded reference follows its non-zero predecessor, modulo 2^32, by 9990 to 10010 us or by at least 15000, and only the latter is flagged; the predecessor is the reference recorded before, or none after a stop |
| `AudioDatapath.AudioDatapath.constructor` | src/audio/audio_datapath.c:1045-1067 | A zeroed data path |
| `AudioDatapath.AudioDatapath.StartStream` | src/audio/audio_datapath.c:1005-1027 | Clears ring and stamps and gives I2S two silent blocks: the start state; refuses when running |
| `AudioDatapath.AudioDatapath.ClearOut` | src/audio/audio_datapath.c:1017-1018 | Indices, counter, blocks and stamps are zero |
| `AudioDatapath.AudioDatapath.StopStream` | src/audio/audio_datapath.c:1029-1043 | I2S lets go of its buffers, the references are forgotten and the controller reset; refuses when not running |
| `AudioDatapath.AudioDatapath.FilledBlocksGet` | src/audio/audio_datapath.c:169-178 | The number of filled blocks by the three-way comparison |
| `AudioDatapath.AudioDatapath.AltBufferGet` | src/audio/audio_datapath.c:583-602 | The first alternate buffer not in use, which it marks, or none |
| `AudioDatapath.AudioDatapath.AltBufferFree` | src/audio/audio_datapath.c:604-614 | Unmarks the buffer I2S gives back, if it is an alternate one |
| `AudioDatapath.AudioDatapath.NextTxBuf` | src/audio/audio_datapath.c:665-697 | The next block, or a free alternate buffer and one underrun more while streaming |
| `AudioDatapath.AudioDatapath.ExchangeBuffers` | src/audio/audio_datapath.c:648-698 | Delay measurement and exchange of transmit buffers are the interrupt step of the ring |
| `AudioDatapath.AudioDatapath.I2sBlkComplete` | src/audio/audio_datapath.c:640-754 | The whole interrupt: ring step, underrun count, then the drift controller held by the data path does its step |
| `AudioDatapath.AudioDatapath.CopyOneBlock` | src/audio/audio_datapath.c:985-1000 | One turn of the copying loop, with interrupts before it, is a copy step |
| `AudioDatapath.AudioDatapath.CopyFrame` | src/audio/audio_datapath.c:983-1000 | The copying loop, interrupts between any two turns, is so many copy steps |
| `AudioDatapath.AudioDatapath.PublishFrame` | src/audio/audio_datapath.c:1002-1002 | Interrupts, then the index moves past the copied frame |
| `AudioDatapath.AudioDatapath.AddFrame` | src/audio/audio_datapath.c:966-1002 | With interrupts between any two turns the method runs exactly the steps of an accepted, or of a refused, frame |
| `AudioDatapath.AudioDatapath.InsertBlocks` | src/audio/audio_datapath.c:474-488 | Inserts exactly the scripted silent blocks, interrupts in between |
| `AudioDatapath.AudioDatapath.InsertBlock` | src/audio/audio_datapath.c:478-487 | One turn of that loop: mute with its stamp, then advance |
| `AudioDatapath.AudioDatapath.MuteBlock` | src/audio/audio_datapath.c:479-485 | Interrupts, then a silent block with its stamp |
| `AudioDatapath.AudioDatapath.AdvanceProducer` | src/audio/audio_datapath.c:487-487 | Interrupts, then the index moves past it |
| `AudioDatapath.AudioDatapath.RemoveBlock` | src/audio/audio_datapath.c:493-495 | Interrupts, then one step back |
| `AudioDatapath.AudioDatapath.RemoveBlocks` | src/audio/audio_datapath.c:489-495 | Steps the producer back the given number of times, interrupts in between |
| `AudioDatapath.AudioDatapath.PresentationCompensation` | src/audio/audio_datapath.c:376-497 | Does the step of the presentation controller and moves the producer by the blocks it asks for |
| `AudioDatapath.AudioDatapath.MeasureDelay` | src/audio/audio_datapath.c:376-446 | One step of the presentation controller on the delay error measured |
| `AudioDatapath.AudioDatapath.AcceptSduRef` | src/audio/audio_datapath.c:907-942 | Duplicate, reference as given or estimated, and the flag |
| `AudioDatapath.AudioDatapath.StreamOut` | src/audio/audio_datapath.c:896-1003 | Without a stream or for a duplicate nothing changes; any other frame is recorded as specified, compensated for and offered to the ring as it then is, with interrupts before, between and inside the loops; blocks inserted and copied leave one progression of stamps |
| `AudioDatapath.AudioDatapath.Interrupts` | src/audio/audio_datapath.c:640-754 | Interrupts between two thread steps are so many I2S steps and leave the thread where it is |
| `SyncTimer.TimestampExact` | src/modules/audio_sync_timer.c:61-68 | The timestamp equals floor((overflows * 2^24 + ticks) * 10^6 / 32768) + remainder modulo 2^32, for any number of overflows, with no 64-bit overflow |
| `SyncTimer.ElapsedMonotone` | src/modules/audio_sync_timer.c:61-68 | For remainders of at most 30 the unwrapped time is monotone in overflows, ticks and remainder |
| `SyncTimer.TimerBoundIsTight` | src/modules/audio_sync_timer.c:61-68 | With a remainder of 31 it is not |
| `SyncTimer.TimestampTrueExactly` | src/modules/audio_sync_timer.c:61-68 | A timestamp taken with a wrong number of overflows is still the true time modulo 2^32 if and only if the numbers differ by a multiple of 2^17 |
| `SyncTimer.PendingOverflowLags` | src/modules/audio_sync_timer.c:61-68 | While an overflow waits for its interrupt the time is read 512 s too small |
| `SyncTimer.AudioSyncTimer.CounterOverflow` | src/modules/audio_sync_timer.c:155-160 | The counter overflows and raises the event; an event already raised is missed |
| `SyncTimer.AudioSyncTimer.RtcIsrHandler` | src/modules/audio_sync_timer.c:155-160 | Counts exactly the overflow interrupts handled, modulo 2^32, and leaves no event behind |
| `SyncTimer.AudioSyncTimer.FrameStartCaptureGet` | src/modules/audio_sync_timer.c:110-147 | Ends after at most 21 reads with the first tick that differs from the last call's, and returns the time of it by the overflows counted; that is the true time, if the counter has not overflowed since the capture and no event was missed, if and only if no overflow waits for its interrupt |
| `Lc3File.ReadsFramesInOrder` | src/modules/lc3_file.c:43-89 | Reading a well-formed file from the offset of frame k gives frame k and the offset of frame k + 1, and after the last one no data |
| `Lc3File.FrameAtExactly` | src/modules/lc3_file.c:43-89 | For files of any form: exactly when reading a frame gives a frame, no data, no room or an I/O error, which bytes it gives and where it stops |
| `Lc3File.OpensExactly` | src/modules/lc3_file.c:91-123 | What the id in the header is after reading files of any size, and that a file too short for one passes only with what an earlier file has left |
| `Lc3File.Lc3FileCtx.Open` | src/modules/lc3_file.c:91-123 | For files of any size: accepts exactly when the id then in the header is that of LC3 - the first two bytes, or what an earlier file has left where there are none - and leaves the position after the header |
| `Lc3File.Lc3FileCtx.Read` | src/modules/sd_card.c:417-430 | At most the asked number of bytes from the position on |
| `Lc3File.Lc3FileCtx.FrameGet` | src/modules/lc3_file.c:43-89 | Result, new position and the buffer's whole new contents, also for short and oversized frames |
| `Lc3Streamer.StreamsFile` | src/modules/lc3_streamer.c:122-275 | For every well-formed file and interleaving of caller and worker: the k-th success returns frame k, or k modulo n when looping; the end is reported only after all n and never when looping; after it only errors |
| `Lc3Streamer.DeliversFramesInOrder` | src/modules/lc3_streamer.c:122-275 | The invariant behind it holds after every run |
| `Lc3Streamer.LapIsMod` | src/modules/lc3_streamer.c:161-191 | The position used for looping is the remainder modulo the number of frames |
| `Lc3Streamer.ReadExactly` | src/modules/lc3_streamer.c:133-158 | For files of any form: a frame is going to be locked, the end of the file is dealt with next, and anything else ends the stream and gives the block back |
| `Lc3Streamer.WorkerExactly` | src/modules/lc3_streamer.c:122-191 | The other worker steps with their error paths: no vacant block, no room in the FIFO, and a file that does not open again end the stream |
| `Lc3Streamer.AllocSucceeds` | src/modules/lc3_streamer.c:122-131 | The two-block slab always has a vacant block when the worker loads |
| `Lc3Streamer.ActiveBlockStays` | src/modules/lc3_streamer.c:245-273 | The block last returned is neither freed nor written by any step of the worker |
| `Lc3Streamer.IdleWorkerIsReady` | src/modules/lc3_streamer.c:254-264 | While playing, a call that looks for a block when no load is under way gets the next frame |
| `Lc3Streamer.NotReadyExactly` | src/modules/lc3_streamer.c:248-264 | A call that looks for a block is told -ENOMSG exactly when a load is under way, or when the worker has marked the last frame since the call looked for that mark |
| `Lc3StreamerCode.CallNotReadyExactly` | src/modules/lc3_streamer.c:221-276 | An uninterrupted call is told -ENOMSG exactly while playing with a load under way |
| `Lc3StreamerCode.LoadSettles` | src/modules/lc3_streamer.c:198-219 | A load that is run never fails: afterwards a block is ready, or all frames of a stream that does not loop have been delivered |
| `Lc3StreamerCode.FindFreeSlot` | src/modules/lc3_streamer.c:359-372 | The search finds the first idle slot if and only if there is one |
| `Lc3Streamer.RegisteredInv` | src/modules/lc3_streamer.c:336-407 | A stream as registered satisfies the invariant |
| `Lc3StreamerCode.LoadIsRun` | src/modules/lc3_streamer.c:198-219 | The uninterrupted work item is a run of worker steps |
| `Lc3StreamerCode.CallIsRun` | src/modules/lc3_streamer.c:221-276 | The uninterrupted call is a run of caller steps with the same result |
| `Lc3StreamerCode.RegisterLoadsFirst` | src/modules/lc3_streamer.c:336-407 | Registering a well-formed file with a frame succeeds and leaves the stream the runs start from |
| `Lc3StreamerCode.Lc3Stream.constructor` | src/modules/lc3_streamer.c:511-525 | An idle slot |
| `Lc3StreamerCode.Lc3Stream.FillBlock` | src/modules/lc3_streamer.c:133-142 | The next frame is read into the given block and no other; past the end of slab_buffer only for a frame of 251 bytes in the second block |
| `Lc3StreamerCode.Lc3Stream.KeepBlock` | src/modules/lc3_streamer.c:135-158 | The block is locked if it holds a frame, else given back |
| `Lc3StreamerCode.Lc3Stream.PutNextFrameToFifo` | src/modules/lc3_streamer.c:122-159 | Alloc, read and lock, or undo, by the file's answer |
| `Lc3StreamerCode.Lc3Stream.StreamLoop` | src/modules/lc3_streamer.c:161-191 | Close, reopen and load the first frame |
| `Lc3StreamerCode.Lc3Stream.ReachEnd` | src/modules/lc3_streamer.c:206-214 | Loop, last frame or end at the end of the file |
| `Lc3StreamerCode.Lc3Stream.NextFrameLoad` | src/modules/lc3_streamer.c:198-219 | The work item: load, loop, last frame or end |
| `Lc3StreamerCode.Lc3Stream.NextFrameGet` | src/modules/lc3_streamer.c:221-276 | Frees the active block, then end of stream, not ready, or the next frame with a load submitted |
| `Lc3StreamerCode.Lc3Stream.LoadFirst` | src/modules/lc3_streamer.c:396-404 | Loads the first frame and plays, or ends the stream |
| `Lc3StreamerCode.Lc3Stream.Register` | src/modules/lc3_streamer.c:336-407 | Opens the file, loads the first frame and plays, or fails |
| `UartFramer.FramesHaveTheirLength` | src/adapters/zephyr_uart_adapter.c:36-66 | Every frame emitted has the length its first byte announces, between 2 and 255 bytes, so it passes the parser's check |
| `UartFramer.FramesOfParts` | src/adapters/zephyr_uart_adapter.c:24-69 | Framing a stream in two parts with the incomplete frame carried over is framing the whole |
| `UartFramer.FramesOfConcat` | src/adapters/zephyr_uart_adapter.c:24-69 | Well-formed frames sent one after the other are received as sent |
| `UartFramer.UartAdapter.constructor` | src/adapters/zephyr_uart_adapter.c:71-93 | Nothing received |
| `UartFramer.UartAdapter.IsrCallback` | src/adapters/zephyr_uart_adapter.c:24-69 | However bytes are split over interrupts, buffer, position and frame are those of the recursive framing of all bytes so far; position and total never wrap; work is submitted exactly when a frame completes |
| `UartFramer.UartAdapter.Byte` | src/adapters/zephyr_uart_adapter.c:36-66 | The same for one turn of the loop |
| `UartFramer.UartAdapter.RxWork` | src/adapters/zephyr_uart_adapter.c:14-22 | Hands over the frame completed last |
| `PaCommand.ParseExact` | src/core/pa_cmd_parser.c:4-52 | A data send request with this SID and data is parsed if and only if the bytes are there within the announced length |
| `PaCommand.RoundTripExactly` | src/core/pa_cmd_parser.c:4-52 | Encode, frame, parse returns SID and data for every payload of at most 251 bytes; for 252, which the protocol allows, the framer never emits the frame |
| `PaCommand.StatusGetRoundTrip` | src/core/pa_cmd_parser.c:26-28 | The status request survives framing and parsing |
| `PaCommand.ResponseRoundTrip` | src/core/pa_cmd_parser.c:54-110 | Every response is a well-formed frame and decodes to itself |
| `PaCommand.OutputDecodes` | src/core/pa_cmd_parser.c:54-110 | Any sequence of responses, sent back to back and framed by the same rule, decodes to the sequence |
| `PaCommand.PaCmdParse` | src/core/pa_cmd_parser.c:4-52 | Return code, opcode, SID, length and payload buffer, for good and bad frames |
| `PaCommand.SerializeStatusRsp` | src/core/pa_cmd_parser.c:54-84 | Writes the encoded response at the start of the buffer and nothing else, or refuses a short buffer |
| `PaCommand.SerializeDataSendRsp` | src/core/pa_cmd_parser.c:86-98 | The same for a data send response |
| `PaCommand.SerializeDataSendComplete` | src/core/pa_cmd_parser.c:100-110 | The same for a completion |
| `PaService.SendsAlternateWithCompletions` | src/app/pa_service.c:60-148 | Over every run of byte, expiry and work steps: #SUCCESS = #COMPLETE + (1 if PENDING), the two alternate, in between only BUSY or NOT_READY; COMPLETE is never the state between steps; PENDING exactly while the timer is armed or its work queued; every well-formed request delivered is answered once, in order |
| `PaService.RunKeepsInv` | src/app/pa_service.c:60-148 | The invariant behind it, from any state that satisfies it |
| `PaService.HostReadsResponses` | src/app/pa_service.c:34-148 | The bytes sent in any run, framed by the same rule, decode to the responses |
| `PaService.PendingCompletes` | src/adapters/zephyr_timer_adapter.c:6-22 | A pending send completes once the timer expires and the work queue runs |
| `PaService.AcceptedExactly` | src/app/pa_service.c:60-100 | A request is accepted exactly when ready, idle, not too large and taken by the advertiser; otherwise state, timer and advertised data stay |
| `PaService.ResultExactly` | src/app/pa_service.c:60-100 | The result of every data send request, from the first check that fails: NOT_READY, BUSY, DATA_TOO_LARGE exactly when the overhead and a non-empty payload exceed 252 bytes, NOT_READY from the advertiser, SUCCESS; with what it leaves behind |
| `PaService.IntervalExactly` | src/app/pa_service.c:130-148 | An interval completes a pending send, once, and concerns no other state |
| `PaService.RunReplies` | src/app/pa_service.c:34-128 | In every run the replies answer the requests served one by one: a status reply holds the set if and only if the Bluetooth side was ready, and success is told only of data that the advertiser has taken |
| `PaService.DeliversEveryFrame` | src/adapters/zephyr_uart_adapter.c:14-22 | The service is given all frames in order if and only if the run overwrites none, that is, no frame completes while one waits for the work queue |
| `PaService.LosesExactly` | src/adapters/zephyr_uart_adapter.c:55-64 | A run loses exactly as many frames as it overwrites |
| `PaServiceCode.BytesAreSteps` | src/adapters/zephyr_uart_adapter.c:24-69 | The bytes of one interrupt are so many byte steps |
| `PaServiceCode.DataManager.constructor` | src/core/pa_data_manager.c:4-13 | An idle context |
| `PaServiceCode.DataManager.SubmitData` | src/core/pa_data_manager.c:15-38 | BUSY, DATA_TOO_LARGE or acceptance with the data copied |
| `PaServiceCode.DataManager.PaIntervalElapsed` | src/core/pa_data_manager.c:40-48 | PENDING to COMPLETE, nothing else |
| `PaServiceCode.DataManager.ResetState` | src/core/pa_data_manager.c:50-58 | Back to idle |
| `PaServiceCode.Service.constructor` | src/app/pa_service.c:7-32 | The start state of the stack |
| `PaServiceCode.Service.UartSend` | src/adapters/zephyr_uart_adapter.c:95-104 | The bytes written are always the concatenated responses |
| `PaServiceCode.Service.HandleStatusGetReq` | src/app/pa_service.c:34-58 | One status response: the set if ready, else none |
| `PaServiceCode.Service.HandleDataSendReq` | src/app/pa_service.c:60-100 | One request is tried and answered by one response |
| `PaServiceCode.Service.TrySend` | src/app/pa_service.c:65-95 | Readiness, submission and advertiser: new state and result, with the error paths |
| `PaServiceCode.Service.CommandReceived` | src/app/pa_service.c:102-128 | Dispatches well-formed commands and ignores the rest |
| `PaServiceCode.Service.PaInterval` | src/app/pa_service.c:130-148 | A pending send is completed and the context reset |
| `PaServiceCode.Service.UartIsr` | src/adapters/zephyr_uart_adapter.c:24-69 | One interrupt does the byte steps of what it read |
| `PaServiceCode.Service.TimerExpiryFn` | src/adapters/zephyr_timer_adapter.c:16-22 | Queues the work |
| `PaServiceCode.Service.RxWorkHandler` | src/adapters/zephyr_uart_adapter.c:14-22 | Delivers the frame to the service |
| `PaServiceCode.Service.TimerWorkHandler` | src/adapters/zephyr_timer_adapter.c:6-14 | Runs the callback |
| `PaEndToEnd.HostToSink` | src/app/pa_service.c:60-148 | Byte by byte through framer, parser, service and timer: a request of at most 251 bytes on an idle stack is accepted, its payload is what the sink extracts from the broadcast, and the host is told success, then completion |
| `PaEndToEnd.FrameArrives` | src/adapters/zephyr_uart_adapter.c:24-69 | A frame that arrives on an idle line is delivered as sent |
| `AdStructures.ParseEncode` | broadcast_sink/main.c:354-359 | Parsing the encoding of any advertising structures returns them |
| `AdStructures.SourceToSink` | src/adapters/zephyr_ble_pa_adapter.c:26-40 | For BASE structures of another type and any payload of at most 252 bytes, the sink's extraction from the composed data yields the payload |
| `AdStructures.ReportExactly` | src/adapters/zephyr_ble_pa_adapter.c:64-72 | The reported room is exact for every non-empty payload precisely when the BASE has at most 251 data bytes; beyond, the 8-bit sums wrap |
| `AdStructures.ComposedSizeIsEncoded` | src/adapters/zephyr_ble_pa_adapter.c:26-40 | The size used there is that of the encoded data |
| `AdStructures.BlePaAdapter.constructor` | src/adapters/zephyr_ble_pa_adapter.c:86-99 | Nothing set |
| `AdStructures.BlePaAdapter.SetBasePerAdv` | src/adapters/zephyr_ble_pa_adapter.c:109-118 | Remembers BASE and overhead |
| `AdStructures.BlePaAdapter.SetData` | src/adapters/zephyr_ble_pa_adapter.c:12-48 | The advertiser gets BASE and payload exactly when ready, of legal size and willing; with the error codes |
| `AdStructures.BlePaAdapter.GetStatus` | src/adapters/zephyr_ble_pa_adapter.c:50-77 | One set, with its SID and the reported room if there is space for an entry, or none |
| `AdStructures.BlePaAdapter.SetExtAdv` | src/adapters/zephyr_ble_pa_adapter.c:101-107 | The advertiser is ready |
| `AdStructures.SetUp` | broadcast_source/main.c:468-505 | The start-up of the broadcaster leaves a ready adapter with the BASE and its overhead |
| `AdStructures.SetUpAndSend` | src/adapters/zephyr_ble_pa_adapter.c:12-48 | A payload sent from there on is aired exactly when it is of legal size and the advertiser willing, and the sink then extracts it |
| `AdStructures.NoRepeatsEnd` | broadcast_sink/main.c:291-301 | Without repeats no two consecutive payloads are equal, and the last one is kept |
| `AdStructures.PaDataMonitor.constructor` | broadcast_sink/main.c:281-283 | Nothing received |
| `AdStructures.PaDataMonitor.PaReceived` | broadcast_sink/main.c:354-359 | Over any reports, the payloads reported as changed since the last reset are the received ones with consecutive repeats removed |
| `AdStructures.PaDataMonitor.FindVendor` | broadcast_sink/main.c:285-314 | The parse loop ends on every buffer with the first vendor-specific structure |
| `AdStructures.PaDataMonitor.Remember` | broadcast_sink/main.c:291-313 | Changed exactly when first or different from the one before, which it replaces |
| `AdStructures.PaDataMonitor.Forget` | broadcast_sink/main.c:343-346 | A reset forgets what was seen |
| `AdScan.NextStructure` | broadcast_sink/main.c:207-216 | The next structure that fits, or the end, on every byte string |
| `AdScan.TakeStructure` | broadcast_sink/main.c:218-233 | One structure is taken into name, id and encryption bit |
| `AdScan.LookFits` | broadcast_sink/main.c:218-233 | Whatever an advertisement says, the name taken has at most 128 bytes and the id three |
| `AdScan.ScanParse` | broadcast_sink/main.c:207-236 | The advertising loop ends on every byte string and takes the last name (cut to 128), the last broadcast id and the last encryption bit of the well-formed structures |
| `AdScan.LastOfIsLast` | broadcast_sink/main.c:211-236 | The item taken is that of a structure after which none carries one, or the default when none does |
| `AdScan.BroadcastIdReadsBack` | broadcast_sink/main.c:238-246 | The three bytes of the id are read as they were written |
| `AdScan.AdvertisementIsFound` | src/bluetooth/bt_stream/broadcast/broadcast_source.c:238-334 | From the bytes of the broadcaster's advertisement the sink takes its name (cut to 128 bytes), its broadcast id and its encryption bit |
| `AdScan.NotificationReadsBack` | broadcast_sink/main.c:256-269 | The notification fits its buffers and decodes to the same fields |
| `AdScan.ScanRecv` | broadcast_sink/main.c:194-273 | Reports exactly advertisements with name and id while listening, with exactly that notification |
| `ScanCache.CacheAgrees` | broadcast_sink/main.c:72-96 | After any scan results: slots 1 to 15 hold the second to sixteenth source ever reported, slot 0 the last reported of the others, all with their latest id |
| `ScanCache.LookupIsLatest` | broadcast_sink/main.c:98-109 | A lookup returns the id reported last or BRDCAST_ID_NOT_USED, never a stale one, and says exactly which sources are remembered |
| `ScanCache.JustReported` | broadcast_sink/main.c:72-109 | A source just reported is found at once with that id |
| `ScanCache.KeptForEver` | broadcast_sink/main.c:83-96 | Sources first seen second to sixteenth are never evicted |
| `ScanCache.KeysDistinct` | broadcast_sink/main.c:74-91 | The keys of the valid entries are distinct |
| `ScanCache.Table.constructor` | broadcast_sink/main.c:70-70 | An empty cache |
| `ScanCache.Table.Find` | broadcast_sink/main.c:74-81 | The first valid slot with the key |
| `ScanCache.Table.FirstInvalid` | broadcast_sink/main.c:83-91 | The first free slot; valid slots are a prefix |
| `ScanCache.Table.Store` | broadcast_sink/main.c:78-95 | The three places an entry can go |
| `ScanCache.Table.CacheScanResult` | broadcast_sink/main.c:72-96 | The table holds what the history with this result says |
| `ScanCache.Table.LookupBroadcastId` | broadcast_sink/main.c:98-109 | The latest id of a remembered source, else none |
| `Receiver.ReceiverInvariants` | broadcast_sink/main.c:194-978 | Over all sequences of commands, known or not, advertisements, callbacks and events, with the termination callback also inside the commands and the event that delete a sync: notifications enabled implies PA_SYNCED implies a sync handle; audio runs exactly while STREAMING and starts and effective stops alternate; each known request has one response under its opcode + 0x0800 (BIS starts: at most one); the broadcast id kept is the one last reported for the source when its sync was started |
| `Receiver.RunKeepsInv` | broadcast_sink/main.c:194-978 | The same from any state that satisfies the invariant |
| `Receiver.RequestsAreCommands` | broadcast_sink/main.c:720-730 | When all opcodes are single bytes the requests counted there are the commands received |
| `Receiver.OnlyStartsChangeSource` | broadcast_sink/main.c:451-500 | Address, SID and id change only by an accepted PA sync start: to the SID in the first byte of its parameters, the address type and address in the seven after it, and the id last reported for that source or none |
| `Receiver.OnlyWorkFeedsSink` | broadcast_sink/main.c:535-544 | Only the work item feeds the sink: handle and id of the last PA sync start, and the code if the last BIS start came with one - otherwise the sink keeps the code it had |
| `Receiver.SinkGetsReportedId` | broadcast_sink/main.c:498-542 | In every run the id given to the sink is the one reported last for the source when its PA sync was started, or BRDCAST_ID_NOT_USED if the cache had forgotten it |
| `Receiver.HeardExactly` | broadcast_sink/main.c:285-346 | The payloads heard are forgotten exactly when a sync is lost, released or terminated, also when its deletion within a command reports the termination; otherwise not when another sync is started |
| `Receiver.PayloadsExactly` | broadcast_sink/main.c:285-314 | A payload is sent to the app exactly when it is news and the app is connected and has asked |
| `Receiver.ToldWithoutRepeats` | broadcast_sink/main.c:285-314 | An app that listens all along is told exactly the payloads heard meanwhile, repeats removed, in order |
| `Receiver.FirstPayloadIsCompared` | broadcast_sink/main.c:451-500 | The first payload of a newly started source is sent if and only if deleting an earlier sync reported its termination, or it differs from the last payload heard before, from whatever source |
| `Receiver.RepeatIsToldExactly` | broadcast_sink/main.c:451-500 | A run from the start that shows it: the same payload from a second source is sent if and only if deleting the first sync reported its termination |
| `Receiver.BusyRejects` | broadcast_sink/main.c:723-730 | While busy a command changes nothing and gets one FAIL |
| `Receiver.BusyExactly` | broadcast_sink/main.c:318-352 | What makes the receiver busy and what ends it, exactly |
| `Receiver.OnlySetsChangeVolume` | broadcast_sink/main.c:651-687 | Volume and mute state are those last set by a command not refused; no other command, callback or event changes them |
| `Receiver.VolumeReadsBack` | broadcast_sink/main.c:651-698 | What is set is notified and read back, volume before mute state |
| `Receiver.TransitionsAreTold` | broadcast_sink/main.c:113-122 | A change of the state bits is followed by a notification of the new ones if and only if it is not made by the start of another PA sync, or by a failed release, in which deleting the sync reports no termination |
| `Receiver.ReleaseTellsEnd` | broadcast_sink/main.c:502-533 | A release in which deleting the sync reports its termination and succeeds tells the app twice that the sync has ended |
| `ReceiverEffects.FoundIsSynced` | broadcast_sink/main.c:194-500 | A PA sync started with SID and address read back from a search result keeps that source with the id of the same search result |
| `ReceiverEffects.BroadcasterIsSynced` | broadcast_sink/main.c:194-500 | From the broadcaster's advertisement on the air to the sink: the sync started from its search result keeps the broadcast id it advertises |
| `ReceiverEffects.StartsWithNothing` | broadcast_sink/main.c:42-70 | At the start nothing is on, known or remembered |
| `ReceiverEffects.ScanIsReported` | broadcast_sink/main.c:194-273 | Exactly when an advertisement is reported; the notification reads back, and source and id in the cache are those in it |
| `ReceiverEffects.BitsExactly` | broadcast_sink/main.c:318-946 | Each state bit is set by one thing and cleared by exactly those listed |
| `ReceiverEffects.SyncExactly` | broadcast_sink/main.c:318-978 | What sets and clears the handle of the sync and the wish for payloads |
| `ReceiverEffects.AudioExactly` | broadcast_sink/main.c:596-946 | The audio system is started by the streaming event when paused and stopped by exactly what ends a stream |
| `ReceiverEffects.WorkExactly` | broadcast_sink/main.c:535-594 | What submits the BIS sync start and what code it keeps: the first 16 bytes, if there are so many |
| `ReceiverMessages.SendsExactly` | broadcast_sink/main.c:113-978 | For every command, callback and event exactly the messages sent, with their results and in their order, from the state before alone; notifications only over a connection |
| `ReceiverMessages.RunSends` | broadcast_sink/main.c:113-978 | Over every run the messages sent are those, one step after the other |
| `ReceiverMessages.MessagesReadBack` | broadcast_sink/auracast_gatt.h:24-52 | Every message is read back as it was sent, by opcode and payload; state bits by their positions |
| `ReceiverMessages.FieldsReadBack` | broadcast_sink/main.c:369-401 | Any list of type-length-value fields, the device info among them, is read back as it was written |
| `ReceiverCode.AuracastReceiver.constructor` | broadcast_sink/main.c:42-70 | The initial state, which satisfies the invariant |
| `ReceiverCode.AuracastReceiver.SendNotification` | broadcast_sink/main.c:113-161 | Only over a connection |
| `ReceiverCode.AuracastReceiver.NotifyStateTransition` | broadcast_sink/main.c:113-122 | Carries the current bits |
| `ReceiverCode.AuracastReceiver.NotifyPaSyncState` | broadcast_sink/main.c:124-138 | Carries state and address |
| `ReceiverCode.AuracastReceiver.DropBisSync` | broadcast_sink/main.c:337-341 | Clears the bit and says so |
| `ReceiverCode.AuracastReceiver.TerminatePaSync` | broadcast_sink/main.c:332-352 | What the termination callback does, wherever it is called |
| `ReceiverCode.AuracastReceiver.DeletePaSync` | broadcast_sink/main.c:474-474 | The callback, if the stack reports the termination |
| `ReceiverCode.AuracastReceiver.GiveUpSync` | broadcast_sink/main.c:468-477 | An earlier sync is stopped and deleted, the callback included |
| `ReceiverCode.AuracastReceiver.PauseStream` | broadcast_sink/main.c:912-919 | Stops audio once |
| `ReceiverCode.AuracastReceiver.LookupBroadcastId` | broadcast_sink/main.c:98-109 | What the model of the cache finds, which is the id last reported or none |
| `ReceiverCode.AuracastReceiver.CacheScanResult` | broadcast_sink/main.c:72-96 | The cache remembers one report more |
| `ReceiverCode.AuracastReceiver.RejectCommand` | broadcast_sink/main.c:723-730 | Changes nothing, sends one FAIL and keeps the invariant |
| `ReceiverCode.AuracastReceiver.HandleOtherReq` | broadcast_sink/main.c:689-718 | Device info, volume and audio output are answered, others ignored; keeps the invariant |
| `ReceiverCode.AuracastReceiver.AudioSystemStop` | src/audio/audio_system.c:463-489 | Stops only when running |
| `ReceiverCode.AuracastReceiver.HandleSearchStartReq` | broadcast_sink/main.c:403-429 | The handler logs one request, does its step, messages included, and keeps the invariant of all runs |
| `ReceiverCode.AuracastReceiver.HandleSearchStopReq` | broadcast_sink/main.c:431-449 | The handler logs one request, does its step, messages included, and keeps the invariant of all runs |
| `ReceiverCode.AuracastReceiver.HandlePaSyncStartReq` | broadcast_sink/main.c:451-500 | The handler logs one request, does its step, messages included, and keeps the invariant of all runs, also when the termination callback runs inside it |
| `ReceiverCode.AuracastReceiver.HandlePaSyncReleaseReq` | broadcast_sink/main.c:502-532 | The handler logs one request, does its step, messages included, and keeps the invariant of all runs, also when the termination callback runs inside it |
| `ReceiverCode.AuracastReceiver.HandleBisSyncStartReq` | broadcast_sink/main.c:569-594 | The handler logs one request, does its step, messages included, and keeps the invariant of all runs |
| `ReceiverCode.AuracastReceiver.HandleBisSyncStopReq` | broadcast_sink/main.c:596-619 | The handler logs one request, does its step, messages included, and keeps the invariant of all runs |
| `ReceiverCode.AuracastReceiver.HandlePaDataNtfStartReq` | broadcast_sink/main.c:621-634 | The handler logs one request, does its step, messages included, and keeps the invariant of all runs |
| `ReceiverCode.AuracastReceiver.HandlePaDataNtfStopReq` | broadcast_sink/main.c:636-649 | The handler logs one request, does its step, messages included, and keeps the invariant of all runs |
| `ReceiverCode.AuracastReceiver.HandleVolumeSetReq` | broadcast_sink/main.c:651-668 | The handler logs one request, does its step, messages included, and keeps the invariant of all runs |
| `ReceiverCode.AuracastReceiver.HandleMuteSetReq` | broadcast_sink/main.c:670-687 | The handler logs one request, does its step, messages included, and keeps the invariant of all runs |
| `ReceiverCode.AuracastReceiver.GattCmdHandler` | broadcast_sink/main.c:720-776 | Every command, known or not, is one step of the run, and the invariant, the cache and the change detection stay in order |
| `ReceiverCode.AuracastReceiver.PaSyncedCb` | broadcast_sink/main.c:318-330 | One step of the run, messages included; keeps the invariant |
| `ReceiverCode.AuracastReceiver.PaSyncTermCb` | broadcast_sink/main.c:332-352 | One step of the run, messages included; keeps the invariant |
| `ReceiverCode.AuracastReceiver.PaRecvCb` | broadcast_sink/main.c:285-359 | Parsing, change detection and notification of a report are one step of the run, and keep the invariant |
| `ReceiverCode.AuracastReceiver.ScanRecvCb` | broadcast_sink/main.c:194-273 | Parsing, caching and notification of an advertisement are one step of the run, and keep the invariant |
| `ReceiverCode.AuracastReceiver.BisSyncWorkHandler` | broadcast_sink/main.c:535-567 | One step of the run, messages included; keeps the invariant |
| `ReceiverCode.AuracastReceiver.OnStreaming` | broadcast_sink/main.c:898-910 | One step of the run, messages included; keeps the invariant |
| `ReceiverCode.AuracastReceiver.OnNotStreaming` | broadcast_sink/main.c:912-919 | One step of the run, messages included; keeps the invariant |
| `ReceiverCode.AuracastReceiver.OnSyncLost` | broadcast_sink/main.c:921-946 | One step of the run, messages included; keeps the invariant |
| `ReceiverCode.AuracastReceiver.OnConnection` | broadcast_sink/main.c:966-978 | One step of the run, messages included; keeps the invariant |
| `FrameAssembler.AssemblerInvariants` | src/audio/le_audio_rx.c:50-194 | With one or two streams and one location per SDU, over every run: the queue refuses no frame; every frame is the in-order concatenation of SDUs of distinct locations within 10 us of its first, is bad exactly when one of them is and has their locations; every buffer has exactly one owner; accepted SDUs are, in order, those of the frames sent and the pending one |
| `FrameAssembler.FramesHoldPayloads` | src/audio/le_audio_rx.c:39-168 | Over every run each frame sent is made of one slice per SDU - its payload if it was received well and is not empty, unspecified bytes otherwise - and of SDUs all received, of one payload after the other |
| `FrameAssembler.SameTimeExactly` | src/audio/le_audio_rx.c:111-114 | Two reference times count as one exactly when less than 10 us apart, across the 32-bit wrap too |
| `FrameAssembler.TakesExactly` | src/audio/le_audio_rx.c:91-153 | The oldest frame is dropped exactly when the queue is full; an SDU is taken unless it repeats the locations of the pending frame or finds no buffer to begin one |
| `FrameAssembler.ConsumesExactly` | src/audio/le_audio_rx.c:180-190 | The consumer gets the oldest frame, and its buffer is free again afterwards |
| `FrameAssembler.PutExactly` | src/audio/le_audio_rx.c:138-140 | A frame put into the queue is its last one, and a full queue refuses it |
| `FrameAssembler.HandleKeeps` | src/audio/le_audio_rx.c:91-168 | Each call sends at most one frame and keeps the invariant |
| `FrameAssembler.SendsExactly` | src/audio/le_audio_rx.c:109-168 | Exactly when a call sends a frame and which: the second location completes one, another time flushes one as it is, the same location again is discarded |
| `FrameAssembler.DistinctExactly` | src/audio/le_audio_rx.c:118-123 | Comparing location masks keeps locations apart in every run if and only if there are at most two streams |
| `FrameAssembler.ThreeStreamsJoinTwice` | src/audio/le_audio_rx.c:118-123 | The run that shows it for three or more |
| `FrameAssembler.LeAudioRx.constructor` | src/audio/le_audio_rx.c:34-37 | Empty queue, full pool: the invariant holds |
| `FrameAssembler.LeAudioRx.MakeRoom` | src/audio/le_audio_rx.c:91-107 | A full queue gives up its oldest frame and its buffer |
| `FrameAssembler.LeAudioRx.BeginFrame` | src/audio/le_audio_rx.c:147-168 | A new frame in a buffer of the pool, if it has one |
| `FrameAssembler.LeAudioRx.Assemble` | src/audio/le_audio_rx.c:91-168 | Room, joining, flushing and sending while streaming, as the model of a call says |
| `FrameAssembler.LeAudioRx.QueueGet` | src/audio/le_audio_rx.c:94-94 | The oldest frame, if any |
| `FrameAssembler.LeAudioRx.SendFrame` | src/audio/le_audio_rx.c:138-140 | Put with its error check |
| `FrameAssembler.LeAudioRx.AudioFrameAdd` | src/audio/le_audio_rx.c:39-48 | Appends the payload of an SDU received well and not empty, or unspecified bytes |
| `FrameAssembler.LeAudioRx.DataHandler` | src/audio/le_audio_rx.c:51-169 | The receive callback does exactly its step and, with one or two streams and one location, keeps the invariant of all runs |
| `FrameAssembler.LeAudioRx.CheckSendNow` | src/audio/le_audio_rx.c:159-168 | Sends when all streams are in |
| `FrameAssembler.LeAudioRx.TakeFrame` | src/audio/le_audio_rx.c:180-188 | The consumer takes the head; keeps the invariant |
| `FrameAssembler.LeAudioRx.ReleaseFrame` | src/audio/le_audio_rx.c:190-190 | And returns its buffer; keeps the invariant |

## Left out

- Zephyr, Bluetooth host, nrfx and LC3 codec internals: their results are parameters; queues, work items, timers and slabs have their documented behaviour, and a pending work item absorbs further submits.
- Tone and SD-card mixing, I2S RX, USB, gateway paths, just-in-time block dropping, shell commands, LEDs, buttons, SD directory traversal, DFU, board and codec set-up: I/O or easy members.
- CIS unicast, CSIP, VCP and MCS code: stack plumbing outside the two applications.
- The button path that calls `set_data` directly (broadcast_source/main.c:145-162): it bypasses the PA state machine.
- Torn access inside one handler of the PA stack, the receiver and the assembler: their handlers are single steps. Only the audio ring and the LC3 streamer are cut finer. A later frame may replace `rx_frame` before delivery; that is modelled.
- Whether a BIS sync start succeeds, and BIS_SYNCED implying PA_SYNCED: they depend on stack event order outside this code.
- GATT writes whose declared parameter length differs from the written one.
- What `broadcast_sink_stop` and the codec start and stop return inside handlers that ignore it, and the sink's own state: only what it is given is modelled.
- Closing an LC3 stream while its load is pending, and SD errors: a load that fails ends the stream. The two bytes after `slab_buffer` that the second block reaches are memory of the model's slab.
- Register: the id an earlier stream has left in its slot's header is taken to be 0, which matters for a file of fewer than two bytes only; `Open` has every case.
- The stale-tick check of `audio_sync_timer_capture`: it waits on a hardware register.
- Frames of the assembler are values, so the tailroom of a net_buf is not modelled; the number of channels of an SDU is the number of its location bits, whose definition is not part of this model.
- Termination of the host's side of the UART and real time: a timer expires by an event, not after 250 ms.
- Build constants are those of the headset build: 120 blocks of 1 ms, 10 to a frame, 16 bit at 48 kHz. The ring theorems hold for every ring size and frame length.
- Converges: for a constant error on which a block inserted or removed has an effect of 1000 us; `CallsAreLoop` proves this of the ring.
- ClosedLoopLocks: for runs with drift locked, consecutive references, a constant lag of reception, every frame accepted, and interrupts one block period apart that always find a block.
- RingIsFifo: for runs without a frame or an inserted block at equal indices and without removals. Frames and insertions there do break the order (`FrameAtFullLosesRing`, `InsertAtFullLosesRing`); `InsertsSafeExactly` and `RetreatsSafeExactly` say which compensations are safe, and `RunRefines` covers removals.
- CalibrationAcceptedExactly: for products that fit 32 bits; outside, where C leaves the product undefined, the model wraps and `CalibratedByProduct` says what then decides.
- AssemblerInvariants: for one or two streams, a number that stays the same, and one location per SDU; `DistinctExactly` shows that it fails from three streams on.
- SetData: for at most one BASE structure, the number the adapter has room for.
- ReportExactly: for non-empty payloads; an empty one is accepted at any report.
