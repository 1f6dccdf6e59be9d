# rtw88 USB driver: a verified model

This project models the hard parts of the rtw88 USB Wi-Fi driver (`sys/dev/rtw88/if_rtw88_usb.c` and
`sys/dev/rtw88/rtw88_efuse.c`) in Dafny and proves what they promise. `dafny verify dfyconfig.toml` checks
everything.

## What is modelled

Driver routines appear as methods of classes whose fields are the soft state they update in place, or of
arrays where they work on a buffer. Each is proved against a function on values (a step, a fold, a decoder),
and the promises are lemmas about those functions, over every input or every run. A run is a list of events
of any length; an event that is not possible is skipped, so the lemmas cover every interleaving. A step is one
critical section of `sc_mtx`; the mutex is dropped at every EP0 transfer, so longer routines are several steps.

| files | part of the driver |
|---|---|
| `TxGate`, `TxClass`, `TxOrder`, `TxConserve`, `TxFlow`, `TxSeal`, `TxSplit`, `TxRelease`, `TxGuard`, `TxSoftc` | install gate, pending queue, deferred M4, BE and VO endpoints |
| `Frames`, `EapolKey` | what the driver reads in an 802.11 frame, and its EAPOL upgrade |
| `Cam`, `CamQueue`, `CamPort`, `CamLatch`, `CamCalls` | key CAM entries, the queue of key operations and its worker, any number of writers |
| `Ep0`, `Ep0Softc` | serialised control-endpoint access with sleep and wakeup |
| `PhyTable`, `PhyBus`, `PhyBlob` | conditional register tables, the table walker, the blob loader |
| `Efuse`, `EfuseCodec` | EFUSE expansion, its records and an encoder |
| `RxDemux`, `RxCodec`, `RxSignal` | bulk-IN demultiplexing, signal strength |
| `TxFrame`, `TxFraming`, `TxWire`, `TxCcmp`, `Xors` | TX descriptor, QoS promotion, sequence numbers, checksum, and what they mean for queues and CCMP |
| `Firmware` | chunked download through the FIFO and the DMA engine, blob segments |
| `H2c`, `H2cCalls` | the four-box H2C mailbox, for one caller and for several |
| `LinkWork` | coalesced link transitions and the keepalive |
| `Watchdog` | stall watchdog, signal strength average |
| `Bytes` | bytes, little-endian words, division facts |

Masks and shifts are written as division and remainder. Bytes and words are integers with their range, so
16-bit and 32-bit wrap-around is explicit where the driver relies on it.

The outside world is adversarial and explicit: whether a transfer, poll, allocation or encapsulation
succeeds is a parameter (or a function of the number of the access), the chip is a small device model (CAM
memory, mailbox boxes, FIFO and RAM, DMA checksum), and USB calls an endpoint back for a fresh start only when
no transfer of it is active. A failed EP0 transfer has no effect on the chip; `H2c.InOrderIffNoneUnseen`
shows what that assumption is for. An mbuf is its address, which the allocator may hand out again, with its bytes
and the number of its acceptance. 802.11 header sizes, which net80211 computes, follow section 9.2.4 of
IEEE 802.11-2016, the QoS Control field section 9.2.4.5, CCMP framing section 12.5.3.2, its additional data and
nonce sections 12.5.3.3.3 and 12.5.3.3.4, and the handshake messages section 12.7.6.

## Where the code differs from its comments or from what one would expect

The code is followed, and the exact condition is proved.

- Transmit takes the M4 marker in one critical section and enqueues in another. Split by a link-down, an
  unencapsulated M4 reaches the VO queue (`TxSeal.InterleavedHalvesLeak`), and closing the gate again does
  not help (`TxSeal.ReclosedGateLeaks`). `TxSplit.SplitSoundIff` says exactly which schedules of split
  transmits are sound, `TxSeal.SoundIffCallerSafe` which callers of undivided ones.
- The gate is to hold Protected unicast data while a pairwise install is awaited. Two steps open it under one:
  the end of an install with another behind it (`TxGuard.FirstInstallOpens`), and a link-down while the worker
  holds one (`TxGuard.LinkDownOpens`). It holds in exactly the runs without them (`TxGuard.GateGuardsIff`).
- An install that fails on EP0 leaves the gate closed (`TxRelease.FailedInstallStrands`): frames parked behind it
  get out exactly as `TxRelease.GetsOutIff` says.
- Framing promotes a plain data frame after software encapsulation, and CCMP covers what promotion changes: the
  receiver opens an encapsulated frame exactly when it was not promoted (`TxCcmp.OpensIffNotPromoted`).
- A mailbox call reads the next box before its first EP0 access, for which it may sleep, so a call that begins
  while another one is under way can write to a box that is no longer next. `H2cCalls.InOrderIffNeverMisses`
  and `H2cCalls.SafeIffNoOverlap` say exactly when that harms.
- The comment in the EAPOL upgrade says that QoS frames do not match; they do, and are upgraded into frames with
  two QoS Control fields (`EapolKey.UpgradeKeepsKeyIff`).
- The EAPOL detector accepts QoS frames (`EapolKey.KeyInfoIff`), and copies eight bytes of an EAPOL header of
  which it checked that seven are there (`EapolKey.CopiesInsideIff`). The copy is taken to return the bytes
  that exist; the eighth is not used.
- A promoted frame that is not EAPOL carries TID 0 but selects queue 2, and W9 takes its sequence number
  before a zero one is stamped (`TxFraming.QselIsTidIff`, `TxFraming.SeqInDescriptorIff`, and
  `TxFraming.PlainFrameDisagrees` for a frame). The stamped number itself can be zero, when the counter wraps.
- The firmware size check adds up in 32 bits: a blob whose sum wraps is accepted, and bytes behind it are sent
  (`Firmware.PartitionIff`, `Firmware.WrappedBlobAccepted`, `Firmware.DownloadBlob`).
- The power of a page 1 status wraps above 237 (`RxSignal.OfdmSignalIff`): the strongest signals average as 0
  (`RxSignal.OfdmSampleIff`). The placeholder enters the average, against its comment, when a status is announced
  and missing or of another kind (`RxSignal.PlaceholderAveragedIff`).
- The signal average stops up to seven below a constant sample (`Watchdog.BlendBetween`).
- A set-up callback with a frame in flight would overwrite it (`TxConserve.SetupConservesIff`); USB does not
  make one.

## Model

| member | source | states |
|---|---|---|
| TxClass.EnqueueIs | sys/dev/rtw88/if_rtw88_usb.c:4980-5129 | Everything the enqueue routine does, by length and bits of the frame: data of at most 16336 bytes is taken; Protected unicast data behind a closed gate is parked, sixteen at most; else EAPOL-Key frames and TIDs 4 to 7 join the VO queue and the rest the BE queue, up to its depth |
| TxClass.VerdictIs | sys/dev/rtw88/if_rtw88_usb.c:4980-5129 | Which verdict a frame gets, each if and only if: invalid, too long, not data, refused by the full queue it would join, accepted |
| TxClass.DeferIs | sys/dev/rtw88/if_rtw88_usb.c:5476-5490 | Deferring an M4 takes a free marker and closes the gate; a taken marker stays |
| TxClass.EncapIs | sys/dev/rtw88/if_rtw88_usb.c:5408-5501 | Everything the encapsulation routine does, by the bits of the frame: passed on without node or contiguous header; Protected ones encapsulated or refused; of the others a fourth handshake message encapsulated, or else deferred with Protected set if it is the first, or passed on in clear; all else passed on |
| TxClass.TransmitTakes | sys/dev/rtw88/if_rtw88_usb.c:5503-5534 | A transmitted frame that is taken keeps address and node, gets the next serial, and has the bytes and seal that encapsulation left it with; a refused one changes nothing |
| TxClass.TidQueues | sys/dev/rtw88/if_rtw88_usb.c:5062-5105 | A frame that is taken and not parked, with the QoS bit and TID t, joins the VO queue for t of 4 to 7, and the BE queue for t of 0 to 3 unless it is an EAPOL-Key frame |
| TxClass.OtherQueues | sys/dev/rtw88/if_rtw88_usb.c:5062-5105 | Every EAPOL-Key frame joins the VO queue, QoS data or not; any other without the QoS bit, or too short for a QoS Control field, the BE queue |
| TxClass.ReleaseAllIs | sys/dev/rtw88/if_rtw88_usb.c:7615-7681 | Everything the release does, by the bits of the frames as parked: the pending queue is emptied; EAPOL-Key frames and TIDs 4 to 7 join the VO queue and the rest the BE queue, in order, as many as fit; each comes out as parked, but for the marked one |
| TxClass.ReleasedWhole | sys/dev/rtw88/if_rtw88_usb.c:7645-7663 | From a sound state every parked frame for which there is room ends in the queue of its class under its serial: the marked M4 as what encapsulation made of it when it has a node and that works, else with Protected cleared and nothing more; every other one as parked |
| TxFlow.CompletionsSend | sys/dev/rtw88/if_rtw88_usb.c:2801-2804 | From every state n completions of an endpoint hand the first n frames of its queue to USB, in order, if all n can be framed; the last one is then in flight and the other endpoint untouched |
| TxFlow.CompletionChains | sys/dev/rtw88/if_rtw88_usb.c:2842-2845 | A completion with a frame queued that can be framed puts that frame in flight |
| TxFlow.CallbackIs | sys/dev/rtw88/if_rtw88_usb.c:2789-2864 | Everything the callbacks do: a completion frees the frame in flight and hands over the next (or frees it, when it cannot be framed), a set-up only hands over, a failure only frees; nothing else moves |
| TxFlow.NothingOldIsSent | sys/dev/rtw88/if_rtw88_usb.c:4383-4410 | After a link-down no frame accepted before it is ever handed to USB, whatever happens next; the gate is open, the marker null and no key operation queued |
| TxOrder.AcceptanceOrder | sys/dev/rtw88/if_rtw88_usb.c:4980-5129 | In every run of transmits, key operations, CAM worker steps, endpoint callbacks and link-downs, a frame leaves by the endpoint of the class it had when accepted, and Protected unicast data frames of a class leave in acceptance order, parked or not |
| TxOrder.PendingOnlyBehindGate | sys/dev/rtw88/if_rtw88_usb.c:7615-7621 | In every run the pending queue is empty whenever the install gate is open: whatever opens the gate empties the queue in the same step |
| TxOrder.StepOrder | sys/dev/rtw88/if_rtw88_usb.c:4980-5113 | Every step of the transmit state machine keeps the order and class invariant on both endpoints, the pending queue included |
| TxOrder.EnqueueOrder | sys/dev/rtw88/if_rtw88_usb.c:5024-5113 | Accepting a frame, parked or queued past parked ones, keeps acceptance order on both endpoints |
| TxOrder.ReleaseAllOrder | sys/dev/rtw88/if_rtw88_usb.c:7615-7681 | Releasing the pending queue after a pairwise install empties it and keeps acceptance order on both endpoints |
| TxOrder.DrainOrder | sys/dev/rtw88/if_rtw88_usb.c:2394-2402 | Handing the head of a data queue to USB, or freeing it when it cannot be framed, keeps acceptance order |
| TxOrder.RunKeys | sys/dev/rtw88/if_rtw88_usb.c:7573-7712 | Interleaved with transmission and link-downs, key operations still run in acceptance order and at most once |
| TxConserve.EveryFrameInOnePlace | sys/dev/rtw88/if_rtw88_usb.c:4980-5129 | In every run each accepted data frame is in exactly one of: pending queue, BE queue, BE in flight, VO queue, VO in flight, freed; so it is freed at most once |
| TxConserve.SetupConservesIff | sys/dev/rtw88/if_rtw88_usb.c:2380-2402 | Draining an endpoint keeps conservation if and only if it does not overwrite an in-flight frame, that is unless one is in flight and a frame that can be submitted heads the queue |
| TxConserve.ReleaseAllConserves | sys/dev/rtw88/if_rtw88_usb.c:7620-7681 | Releasing the pending queue neither loses nor duplicates a frame, a full data queue included |
| TxConserve.LinkDownPlaces | sys/dev/rtw88/if_rtw88_usb.c:4383-4410 | The link-down step frees every parked and queued frame exactly once and leaves the in-flight ones |
| TxConserve.CompletedPlaces | sys/dev/rtw88/if_rtw88_usb.c:2789-2864 | A completed transfer leaves every frame in as many places as before |
| TxSplit.SplitSoundIff | sys/dev/rtw88/if_rtw88_usb.c:5408-5534 | Over every schedule of transmits in two halves, any number of threads and anything else between them: the marker is null, in the hands of the thread that deferred, or names exactly one parked frame, and every Protected unicast data frame in or beyond a data queue is encapsulated, throughout, if and only if every second half, when it ran, either still owned the marker with the gate closed and room in the pending queue, or had an encapsulated frame, one that needs none, or one that is rejected |
| TxSplit.MoveSoundIff | sys/dev/rtw88/if_rtw88_usb.c:5408-5534 | From a sound state, first halves, key operations, releases, callbacks and link-downs keep it sound; a second half does if and only if its condition holds |
| TxSplit.ScheduleIsRun | sys/dev/rtw88/if_rtw88_usb.c:5503-5534 | Every schedule of split transmits is a run of the transmit state machine, so order, class and conservation hold of it |
| TxSplit.SafeSplitsSendSealed | sys/dev/rtw88/if_rtw88_usb.c:5408-5534 | In every schedule whose second halves all met their condition, whatever Protected unicast data was handed to USB was encapsulated |
| TxSeal.SoundIffCallerSafe | sys/dev/rtw88/if_rtw88_usb.c:5408-5534 | Over every run of undivided transmits the state is sound throughout whatever encapsulation does, if and only if every caller met, when it called, a condition on the state and its own frame alone |
| TxSeal.TransmitWhateverIff | sys/dev/rtw88/if_rtw88_usb.c:5408-5501 | One transmit keeps soundness for every outcome of its encapsulation if and only if: a frame without node or contiguous header is no Protected unicast data (or is rejected), and an M4 that finds the marker free is unicast, sendable and finds room in the pending queue |
| TxSeal.SoundIffSafe | sys/dev/rtw88/if_rtw88_usb.c:5408-5534 | Over every run of undivided transmits with given outcomes of encapsulation: soundness throughout if and only if every transmit met its condition for its outcome |
| TxSeal.TransmitIff | sys/dev/rtw88/if_rtw88_usb.c:5408-5501 | The same for one transmit and one given outcome of its encapsulation |
| TxSeal.SecondHalfIff | sys/dev/rtw88/if_rtw88_usb.c:5476-5533 | The enqueue half of a deferred M4, whatever came between, ends in a sound state if and only if: with the marker still this frame's, the gate is closed and the pending queue takes the frame; with the marker gone, the frame needs no encapsulation or is rejected |
| TxSeal.InterleavedHalvesLeak | sys/dev/rtw88/if_rtw88_usb.c:5476-5533 | A concrete run that splits the two halves with a link-down leaves an M4 marked Protected, never encapsulated, in the VO queue |
| TxSeal.ReclosedGateLeaks | sys/dev/rtw88/if_rtw88_usb.c:5476-5533 | A concrete run in which a new key closes the gate again before the second half parks that M4 without its marker; the release passes it on Protected and unencapsulated, whatever encapsulation would do |
| TxSeal.DeferredM4Sound | sys/dev/rtw88/if_rtw88_usb.c:7645-7663 | From the initial state, undivided transmits keep marker and encapsulation sound, whatever encapsulation does, if and only if every caller heeds its condition |
| TxSeal.ReleaseAllGood | sys/dev/rtw88/if_rtw88_usb.c:7645-7663 | A release clears the marker and leaves no Protected unicast data frame unencapsulated in a data queue |
| TxGuard.GateGuardsIff | sys/dev/rtw88/if_rtw88_usb.c:5012-5019 | Over every run from the start: the gate is closed whenever a pairwise install is queued or running, throughout, if and only if no pairwise install ends with another one behind it and no link-down finds the worker holding one |
| TxGuard.StepGuardedIff | sys/dev/rtw88/if_rtw88_usb.c:7520-7620 | A step keeps the gate closed under an awaited install if and only if it is neither of these two |
| TxGuard.NothingPassesAwaited | sys/dev/rtw88/if_rtw88_usb.c:5012-5019 | Over every run without these two steps, no Protected unicast data frame is accepted into a data queue while a pairwise install is awaited |
| TxGuard.PassesIff | sys/dev/rtw88/if_rtw88_usb.c:5012-5019 | An accepted Protected unicast data frame joins a data queue if and only if the gate is open by the time it is enqueued, and the pending queue else |
| TxGuard.LinkDownOpens | sys/dev/rtw88/if_rtw88_usb.c:4383-4391 | A concrete run: a key, the worker takes it over, a link-down opens the gate though the install is still to run, and a Protected frame joins the VO queue |
| TxGuard.FirstInstallOpens | sys/dev/rtw88/if_rtw88_usb.c:7615-7620 | A concrete run: two pairwise keys taken over together, the end of the first install opens the gate before the second has run, and a Protected frame joins the VO queue |
| TxRelease.GetsOutIff | sys/dev/rtw88/if_rtw88_usb.c:7615-7681 | In every reachable state with a closed gate: it can open, and every parked frame leave, without a link-down or a new pairwise key, if and only if a pairwise install is queued or running |
| TxRelease.ClosedGateHasReason | sys/dev/rtw88/if_rtw88_usb.c:7520-7530 | Over every run a closed gate has a reason (a pairwise install queued or running, or a deferred M4) throughout, if and only if no EP0 failure takes the last pairwise install away from under it |
| TxRelease.StepReasonedIff | sys/dev/rtw88/if_rtw88_usb.c:7600-7620 | A step keeps a reason for the closed gate if and only if it is not the failure of the last pairwise install with no M4 deferred |
| TxRelease.InstallReleases | sys/dev/rtw88/if_rtw88_usb.c:7589-7681 | While a pairwise install is awaited the worker, without failures, comes to open the gate and empty the pending queue |
| TxRelease.StuckStays | sys/dev/rtw88/if_rtw88_usb.c:7615-7621 | A closed gate that awaits no pairwise install stays closed and keeps every parked frame in place, until a link-down or a new pairwise key |
| TxRelease.FailedInstallStrands | sys/dev/rtw88/if_rtw88_usb.c:7600-7614 | A concrete run: a key, the worker takes it over, EP0 fails; the gate is left closed without a reason |
| TxGate.EncapIfNeeded | sys/dev/rtw88/if_rtw88_usb.c:5408-5501 | Refused exactly when a Protected frame with node and whole header fails to encapsulate; a sealed frame is the outcome of encapsulation; soft state changes only when an M4 takes the free marker, closes the gate and leaves Protected; a frame left alone is Protected unicast data only without node or whole header |
| TxSoftc.Softc.TxEnqueue | sys/dev/rtw88/if_rtw88_usb.c:4980-5129 | Data: carries out exactly one enqueue step of the state machine and returns its verdict (invalid, too long, queue full, accepted). Anything else goes to the management queue exactly when that has room |
| TxSoftc.Softc.EncapIfNeeded | sys/dev/rtw88/if_rtw88_usb.c:5408-5501 | Encapsulates, defers or passes a frame exactly as the state machine says, and changes nothing when it refuses |
| TxSoftc.Softc.SubmitKey | sys/dev/rtw88/if_rtw88_usb.c:7499-7561 | Queues a key operation if one of 16 entries is free, else counts an overflow; an accepted pairwise install closes the gate |
| TxSoftc.Softc.CamSnapshot | sys/dev/rtw88/if_rtw88_usb.c:7589-7594 | The worker takes over the whole queue and leaves it empty |
| TxSoftc.Softc.CamOpDone | sys/dev/rtw88/if_rtw88_usb.c:7615-7681 | Ends a key operation; after a pairwise install it opens the gate and releases every parked frame, in one step |
| TxSoftc.Softc.ReleasePending | sys/dev/rtw88/if_rtw88_usb.c:7621-7681 | The release loop reaches exactly the state of releasing the parked frames one after the other |
| TxSoftc.Softc.ReleaseHead | sys/dev/rtw88/if_rtw88_usb.c:7621-7681 | One release: routed by the bytes as parked, the marked M4 encapsulated or cleared, freed when the target queue is full |
| TxSoftc.Softc.LinkDown | sys/dev/rtw88/if_rtw88_usb.c:4383-4410 | Opens the gate, clears the marker, drops queued key operations and frees parked and queued frames |
| TxSoftc.Softc.DrainQ | sys/dev/rtw88/if_rtw88_usb.c:2394-2402 | Takes the head of the queue: into flight when its 16-bit length can be framed, else freed; submits exactly in the first case |
| TxSoftc.Softc.BeCallback | sys/dev/rtw88/if_rtw88_usb.c:2789-2823 | The BE callback carries out exactly one completion, set-up or failure step |
| TxSoftc.Softc.VoCallback | sys/dev/rtw88/if_rtw88_usb.c:2830-2864 | The VO callback carries out exactly one completion, set-up or failure step |
| EapolKey.HeaderParts | sys/dev/rtw88/if_rtw88_usb.c:5166-5178 | For every data header laid out from its parts (three or four addresses, with or without QoS Control): its size, TID, group bit and QoS bit are those of the parts |
| EapolKey.M4Iff | sys/dev/rtw88/if_rtw88_usb.c:5420-5437 | An EAPOL-Key frame counts as message 4 if and only if MIC and Secure are set and Key Ack is not: the message 4 of the standard does, its messages 1 to 3 do not |
| EapolKey.UpgradedBytes | sys/dev/rtw88/if_rtw88_usb.c:5345-5368 | The upgraded frame byte by byte: QoS bit, zero sequence control, TID 7 behind 24 bytes, the rest two bytes further on |
| EapolKey.KeyInfoIff | sys/dev/rtw88/if_rtw88_usb.c:5166-5203 | A key-information word is found if and only if the frame is an EAPOL-Key frame behind LLC/SNAP and any data header, QoS and four-address ones included, and it is that frame's |
| EapolKey.CopiesInsideIff | sys/dev/rtw88/if_rtw88_usb.c:5173-5203 | Every piece copied lies inside the frame if and only if it is not data with a matching LLC/SNAP that ends seven bytes behind it |
| EapolKey.ShortFrameRecognised | sys/dev/rtw88/if_rtw88_usb.c:5194-5203 | Any EAPOL-Key frame that ends there is recognised, with a copy one byte past its end |
| EapolKey.KeyFrameCopies | sys/dev/rtw88/if_rtw88_usb.c:5173-5203 | Of an EAPOL-Key frame the detector copies the frame control field, 18 bytes of header, the LLC/SNAP and eight bytes of the EAPOL header |
| EapolKey.UpgradeKeepsKeyIff | sys/dev/rtw88/if_rtw88_usb.c:5314-5375 | The frame upgraded before transmit is recognised as the same EAPOL-Key message if and only if it was not QoS data already; one that was is upgraded too, gets a second QoS Control field and is recognised no more |
| CamQueue.OpsInOrderAtMostOnce | sys/dev/rtw88/if_rtw88_usb.c:7499-7594 | In every run, with any EP0 failures and link-downs, key operations are attempted in the order they were accepted and at most once, and each accepted one is attempted, under way, waiting, or was dropped by a link-down |
| CamQueue.OverflowIsCounted | sys/dev/rtw88/if_rtw88_usb.c:7500-7506 | Operations that were submitted and not accepted are exactly the ones added to the failure counter |
| CamQueue.SubmitIs | sys/dev/rtw88/if_rtw88_usb.c:7499-7518 | An operation is queued while fewer than sixteen wait, and counted as failed from then on |
| CamQueue.QueueBounded | sys/dev/rtw88/if_rtw88_usb.c:7499-7594 | In every run at most sixteen operations wait and at most sixteen are in the hands of the worker |
| CamQueue.CamRefinesMap | sys/dev/rtw88/if_rtw88_usb.c:7573-7712 | In every run, whatever fails, overflows or is dropped and whoever else clears slots: the worker's operations take effect in the order they were attempted (all accepted ones, if none was dropped or is waiting), and whenever the worker is at rest each slot shows the last operation that touched it, foreign ones included, if that was carried out in full; a slot never touched shows what it showed before |
| CamQueue.UnfailingRefinesMap | sys/dev/rtw88/if_rtw88_usb.c:7573-7712 | Without EP0 failures each slot shows, whenever the worker is at rest, the last operation that touched it, foreign clears included |
| Cam.AppliedShows | sys/dev/rtw88/if_rtw88_usb.c:7306-7434 | Any list of operations, some cut short at any dword, leaves each slot showing the last one that touched it if that was carried out in full, independently of the other slots and of anything cut short before |
| Cam.CutShortKeepsHead | sys/dev/rtw88/if_rtw88_usb.c:7319-7392 | An install cut short leaves the valid bit, type, index and group flag of its slot as they were |
| CamCalls.CallsAreAtomic | sys/dev/rtw88/if_rtw88_usb.c:7356-7434 | Over every run of any number of CAM writers, with failed transfers, polls and other register accesses among them: whole calls take effect one after the other in the order they began, and whenever none is going on each slot shows the last operation that touched it, if carried out in full |
| CamCalls.CommitsOwn | sys/dev/rtw88/if_rtw88_usb.c:7360-7363 | In every run every commit puts in the dword its own thread has set the latch to |
| CamCalls.NobodyBetween | sys/dev/rtw88/if_rtw88_usb.c:1321-1338 | While the call of a thread is going on, nothing another thread does begins a call or reaches latch or CAM |
| CamLatch.StepOrderly | sys/dev/rtw88/if_rtw88_usb.c:1321-1338 | Every step of every thread keeps it so: of all calls at most one has begun and not ended; the CAM is what the operations so far made it, plus the dwords of the one under way; and between its two transfers the latch is its own |
| Cam.InstallRoundTrip | sys/dev/rtw88/if_rtw88_usb.c:7306-7387 | Writing the eight dwords of an entry and dumping the slot gives back keyidx, type, group, MAC and the key padded with zeros to 16 bytes; every other slot dumps as before |
| Cam.InstallShows | sys/dev/rtw88/if_rtw88_usb.c:7306-7387 | Dumping a slot after an install shows it valid, with group flag, type, index and address of the operation, and byte j of the key at place j, zeros behind it |
| Cam.KeyOp | sys/dev/rtw88/if_rtw88_usb.c:7460-7545 | The operation the key-set hook makes up: slot of the index and no address for a group key, slot 4 and the AP's address for the pairwise key; AES, the first sixteen key bytes |
| Cam.ClearInvalidates | sys/dev/rtw88/if_rtw88_usb.c:7421-7434 | Clearing a slot makes it dump as invalid and changes no other slot |
| Cam.EntryShows | sys/dev/rtw88/if_rtw88_usb.c:8699-8721 | Eight dwords packed from an entry decode to its fields |
| Cam.InstallOp | sys/dev/rtw88/if_rtw88_usb.c:7468-7518 | The operation made up for a key is valid, and uses the pairwise slot exactly for a pairwise key, so group keys never share it |
| CamPort.Port.WriteEntry | sys/dev/rtw88/if_rtw88_usb.c:7306-7387 | Dwords 7 down to 0 are committed in that order; a failed transfer stops after some of them and the memory says exactly how many |
| CamPort.Port.ClearEntry | sys/dev/rtw88/if_rtw88_usb.c:7421-7434 | Clears dword 0 of the slot on success, nothing on failure |
| CamPort.Port.ReadDword | sys/dev/rtw88/if_rtw88_usb.c:7399-7419 | A successful read returns the dword and changes no entry |
| CamPort.Port.Dump | sys/dev/rtw88/if_rtw88_usb.c:8699-8721 | A successful dump shows the decoded slot and changes no entry |
| Ep0.AccessesAreSerial | sys/dev/rtw88/if_rtw88_usb.c:1321-1497 | For any number of threads and any run the transfer log is whole groups (an access, then a seal write exactly when it succeeded in the on-section, of the first byte written if it was a write, of the first byte read else) followed by at most the beginning of one, by the one thread that holds the busy flag |
| Ep0.StepSerial | sys/dev/rtw88/if_rtw88_usb.c:1357-1393 | Every step of every thread keeps the log in that form, the seal byte of every write included |
| Ep0.RunWakeup | sys/dev/rtw88/if_rtw88_usb.c:1321-1338 | In every reachable state a sleeping thread is owed a wakeup: the flag is set, or a woken thread has yet to look at it again |
| Ep0.Progress | sys/dev/rtw88/if_rtw88_usb.c:1321-1338 | While any access is under way, some step other than a new access or a spurious wakeup is possible and brings the threads closer to done |
| Ep0.EveryRunCanDrain | sys/dev/rtw88/if_rtw88_usb.c:1321-1497 | After every run in which writes carry data, all accesses under way can be brought to an end without a spurious wakeup: no deadlock |
| Ep0Softc.Endpoint.EnterPass | sys/dev/rtw88/if_rtw88_usb.c:1321-1329 | One pass of the entry loop claims the endpoint exactly when it was free, else sleeps |
| Ep0Softc.Endpoint.IoExit | sys/dev/rtw88/if_rtw88_usb.c:1331-1338 | Leaving clears the flag and wakes one sleeper |
| Ep0Softc.Endpoint.AccessDone | sys/dev/rtw88/if_rtw88_usb.c:1357-1393 | The end of an access seals on success in the on-section, leaves otherwise, and reports the error |
| Ep0Softc.Endpoint.SealDone | sys/dev/rtw88/if_rtw88_usb.c:1340-1355 | The end of a seal leaves whatever became of it |
| PhyTable.WalkIsMeaning | sys/dev/rtw88/if_rtw88_usb.c:8113-8167 | For every program of plain entries and IF/ELIF/ELSE/ENDIF blocks with conditions by field, walking its flattened form selects exactly the entries of each first branch whose front end is the chip's and whose cut, package and interface are zero or the chip's (ELSE if none), in order, and leaves the walker ready for what follows |
| PhyTable.PackedHolds | sys/dev/rtw88/if_rtw88_usb.c:7984-8016 | The walker's test of a packed condition holds if and only if its front end is the chip's and each of cut, package and interface is zero or the chip's, whatever the bits between |
| PhyTable.SelectConcat | sys/dev/rtw88/if_rtw88_usb.c:8113-8167 | Walking is compositional: the selection of two pieces joined is the selection of the first followed by that of the second from the variables the first left |
| PhyTable.RunBranch | sys/dev/rtw88/if_rtw88_usb.c:8128-8150 | A branch issues its body exactly when no earlier branch matched and its condition holds |
| PhyTable.RunElifs | sys/dev/rtw88/if_rtw88_usb.c:8128-8150 | Any chain of ELIFs and an optional ELSE issues exactly the first body that matches |
| PhyTable.CondIgnoresMarkers | sys/dev/rtw88/if_rtw88_usb.c:7999-8016 | A condition word means the same with its marker bits as without |
| PhyBus.Bus.Apply | sys/dev/rtw88/if_rtw88_usb.c:8053-8111 | One entry has exactly its effect (write, pause) on success and none on failure; pauses cannot fail |
| PhyBus.AppliedIs | sys/dev/rtw88/if_rtw88_usb.c:8053-8111 | What each kind of table does with an entry: byte write, word write or pause by six sentinel addresses, word write always, pause by two or a packed serial-interface word; nothing for other kinds |
| PhyBus.Bus.WalkTable | sys/dev/rtw88/if_rtw88_usb.c:8113-8167 | On success every selected entry has taken effect, in order; on error exactly the entries before the failing one; an unknown kind applies nothing |
| PhyBlob.LoadRoundTrip | sys/dev/rtw88/if_rtw88_usb.c:8169-8235 | Loading a serialised list of tables walks exactly these tables in order, or stops in a table whose register write failed with the effects up to that point |
| PhyBlob.LoadTruncated | sys/dev/rtw88/if_rtw88_usb.c:8203-8216 | A blob cut short inside a table applies the whole tables before the cut and none of that table |
| PhyBlob.ReplayRoundTrip | sys/dev/rtw88/if_rtw88_usb.c:8244-8286 | Replay finds exactly the first RF_A table of a serialised blob, or that there is none |
| PhyBlob.ReplayTruncated | sys/dev/rtw88/if_rtw88_usb.c:8244-8286 | Replaying a blob cut short finds the first RF_A table if the cut left it whole; otherwise it finds none, as a missing entry when less than a table header is left over and as an invalid blob else |
| PhyBlob.ParseRoundTrip | sys/dev/rtw88/if_rtw88_usb.c:8195-8230 | Parsing serialised tables gives them back, all whole |
| PhyBlob.ParseTruncated | sys/dev/rtw88/if_rtw88_usb.c:8203-8216 | Parsing a proper prefix gives exactly the tables that are whole in it |
| PhyBlob.WalkHead | sys/dev/rtw88/if_rtw88_usb.c:8200-8228 | A table that does not fit is rejected before any of it is applied |
| PhyBlob.LoadTables | sys/dev/rtw88/if_rtw88_usb.c:8195-8230 | The table loop walks the parsed tables in order and stops at a truncated or failing one |
| PhyBlob.LoadBlob | sys/dev/rtw88/if_rtw88_usb.c:8169-8235 | The load rejects short blobs, bad magic and other versions with no effect, else walks the parsed tables |
| PhyBlob.GoodHeaderIff | sys/dev/rtw88/if_rtw88_usb.c:8176-8194 | The blobs that get past the header checks are exactly a version 1 header with anything behind it |
| PhyBlob.ReplayRfA | sys/dev/rtw88/if_rtw88_usb.c:8244-8286 | Replay walks the first RF_A table, with NoEntry when there is none and Invalid when the search meets a truncated table |
| Efuse.LogicalWalk | sys/dev/rtw88/rtw88_efuse.c:107-150 | The in-place walk fills the logical map with exactly what the walk function says, and fails exactly when it does |
| Efuse.CopyBlock | sys/dev/rtw88/rtw88_efuse.c:123-147 | One block is decoded and its words copied in place, the cursor moving forward |
| Efuse.DecodeHeader | sys/dev/rtw88/rtw88_efuse.c:123-132 | Block number, enable bits and length of a one-byte or two-byte header |
| Efuse.CopyWords | sys/dev/rtw88/rtw88_efuse.c:134-147 | The words whose enable bit is clear are copied, two bytes each, with both range checks |
| EfuseCodec.WalkIffRecords | sys/dev/rtw88/rtw88_efuse.c:107-150 | The walk succeeds if and only if the physical map holds a list of valid in-range records up to a terminator, and then yields those records written one after the other over an all-0xFF map |
| EfuseCodec.LastWriterWins | sys/dev/rtw88/rtw88_efuse.c:134-147 | Each byte of the result is what the last record that writes it wrote, 0xFF if none does |
| EfuseCodec.EncodeRoundTrip | sys/dev/rtw88/rtw88_efuse.c:95-150 | Encode any logical map of even size up to the 1024 bytes that block numbers reach (short headers below block 16, 0xFFFF words skipped) so that it fits below size - protect: walking gives that map back |
| EfuseCodec.EncodeFolds | sys/dev/rtw88/rtw88_efuse.c:107-150 | The encoder's records, written in order over an all-0xFF map, give the logical map |
| EfuseCodec.BlockDecodes | sys/dev/rtw88/rtw88_efuse.c:123-147 | A record at the cursor is decoded to its own words and the cursor moves past it |
| EfuseCodec.HeaderDecodes | sys/dev/rtw88/rtw88_efuse.c:95-132 | Both header forms decode to the block and enables they encode, and are never an end mark |
| EfuseCodec.BlockGives | sys/dev/rtw88/rtw88_efuse.c:123-147 | Whatever block the walk accepts is some valid in-range record |
| RxCodec.LayRoundTrip | sys/dev/rtw88/if_rtw88_usb.c:2302-2307 | Any list of chip packets laid out at multiples of eight is received in order, each with the outcome its own fields call for |
| RxCodec.TransferIsPackets | sys/dev/rtw88/if_rtw88_usb.c:2078-2202 | Whatever bytes a transfer holds, they are a list of packets followed by a rest that starts with none, and the loop gives every packet its outcome in order |
| RxCodec.DescRoundTrip | sys/dev/rtw88/if_rtw88_usb.c:2095-2110 | Every descriptor field is read back as it was packed, whatever the unused bits |
| RxCodec.FlagsBack | sys/dev/rtw88/if_rtw88_usb.c:2095-2110 | Every first descriptor word is the packing of its own fields |
| RxCodec.SealedIsDelivered | sys/dev/rtw88/if_rtw88_usb.c:2135-2202 | A frame the hardware decrypted is delivered as it was before sealing; any other frame of the kind is delivered whole without its FCS |
| RxCodec.StripSeal | sys/dev/rtw88/if_rtw88_usb.c:1758-1790 | Stripping the CCMP header and trailer undoes sealing |
| RxCodec.StripLaid | sys/dev/rtw88/if_rtw88_usb.c:1758-1790 | For every data header laid out from its parts: header, cipher header, body and trailer come out as header and body with Protected clear |
| RxCodec.StripLeaves | sys/dev/rtw88/if_rtw88_usb.c:1758-1790 | A data frame that is not Protected, or has fewer than sixteen bytes behind its header, is left alone |
| RxCodec.ShortLeft | sys/dev/rtw88/if_rtw88_usb.c:1764-1766 | So is any frame of fewer than forty bytes |
| RxCodec.HeaderSizes | sys/dev/rtw88/if_rtw88_usb.c:1758-1775 | The header size is that of the parts of any data header, and 10, 16 or 20 for control frames |
| RxCodec.FramesHandedOn | sys/dev/rtw88/if_rtw88_usb.c:2187-2273 | Exactly the delivered frames, each with its reorder flag, go to net80211, in order |
| RxCodec.EventsHandedOn | sys/dev/rtw88/if_rtw88_usb.c:2141-2144 | Exactly the firmware events go to their handler, in order |
| RxCodec.OutcomeIff | sys/dev/rtw88/if_rtw88_usb.c:2141-2230 | Which outcome a packet has, if and only if: firmware event, empty, bad CRC, at most an FCS, no mbuf or too long, or delivered; an ICV error is noted exactly on what passed the CRC; a delivered frame is marked for reordering exactly when A-MPDU is on and it is QoS data of at least 24 bytes |
| RxCodec.CountersAddUp | sys/dev/rtw88/if_rtw88_usb.c:2150-2202 | Each parsed packet is counted in exactly one outcome; errors, drops, frames and firmware events account for all but empty and too short ones |
| RxDemux.Demux | sys/dev/rtw88/if_rtw88_usb.c:2302-2307 | At most one packet for every 24 bytes: the loop terminates |
| RxDemux.Receiver.RxOne | sys/dev/rtw88/if_rtw88_usb.c:2078-2276 | One call consumes the aligned size of the packet and counts its outcome, or consumes nothing when no whole packet is there |
| RxDemux.Receiver.Handle | sys/dev/rtw88/if_rtw88_usb.c:2141-2202 | The outcome of a packet: firmware event, empty, CRC error, ICV counted and continued, too short, dropped or delivered |
| RxDemux.Receiver.StripHwCcmp | sys/dev/rtw88/if_rtw88_usb.c:1758-1790 | The in-place slide of the header leaves exactly the stripped frame, and the frame as it was when it is too short or not Protected |
| RxDemux.Receiver.BulkRx | sys/dev/rtw88/if_rtw88_usb.c:2291-2307 | A transfer of any reported length ends with exactly its packets counted; lengths below zero or above the buffer count nothing |
| RxSignal.OfdmSignalIff | sys/dev/rtw88/if_rtw88_usb.c:1711-1714 | The signal of a page 1 status is its power less 110 if and only if the power is at most 237; above that it wraps to -111 or less |
| RxSignal.OfdmSampleIff | sys/dev/rtw88/if_rtw88_usb.c:1711-1714 | So the sample for the average is right if and only if the power is at most 237; stronger ones count as 0 |
| RxSignal.CckNoWrap | sys/dev/rtw88/if_rtw88_usb.c:1661-1678 | A CCK power is the gain less twice the VGA index, never wrapped, or the floor for an index outside the table |
| RxSignal.GainBits | sys/dev/rtw88/if_rtw88_usb.c:1699-1702 | The gain indices as bit fields of the fourth status word |
| RxSignal.RssiIff | sys/dev/rtw88/if_rtw88_usb.c:1818-1821 | The RSSI handed to net80211 is the signal plus 95 if and only if the signal is at most 32, and negative above |
| RxSignal.PlaceholderAveragedIff | sys/dev/rtw88/if_rtw88_usb.c:1823-1833 | Where no known status stands the placeholder is used, and it enters the average if and only if a status was announced |
| TxFraming.ChecksumIsZero | sys/dev/rtw88/if_rtw88_usb.c:2690-2692 | For every framed frame the sixteen little-endian words of the first 32 descriptor bytes xor to zero |
| TxFraming.LengthIsSent | sys/dev/rtw88/if_rtw88_usb.c:2655-2668 | W0 announces exactly the bytes behind the descriptor, after any promotion, and the offset field is the descriptor size |
| TxFraming.PromotionUndone | sys/dev/rtw88/if_rtw88_usb.c:2640-2688 | Deleting bytes 24 and 25 and clearing the QoS bit of a promoted frame gives the original apart from a re-stamped zero sequence control; other frames differ there at most |
| TxFraming.QselIsTidIff | sys/dev/rtw88/if_rtw88_usb.c:2463-2489 | The queue selection equals the TID of the QoS frame sent if and only if it is EAPOL promoted here, or QoS data as it came with TID 7 (EAPOL) or below 8 (other) |
| TxFraming.SeqInDescriptorIff | sys/dev/rtw88/if_rtw88_usb.c:2451-2577 | The descriptor's sequence number equals the one on the wire if and only if the frame came with a sequence control or the new number is zero |
| TxFraming.DescriptorFields | sys/dev/rtw88/if_rtw88_usb.c:2429-2610 | Multicast, sequence-selection, aggregation, report, density, aggregate size and rate fields say what a data frame and the sessions call for; a frame that is not data gets the fixed rate, queue and sequence-selection fields instead |
| TxFraming.ReportSerial | sys/dev/rtw88/if_rtw88_usb.c:2558-2567 | The report serial in W6 is the incremented counter modulo 64 in bits 2 to 7 for EAPOL, zero for other data |
| TxFraming.DataDescriptor | sys/dev/rtw88/if_rtw88_usb.c:2429-2577 | Every word of a data descriptor but the checksum, by the bits of the frame and the session of its TID |
| TxFraming.MgmtDescriptor | sys/dev/rtw88/if_rtw88_usb.c:2590-2610 | Every word of any other descriptor but the checksum |
| TxFraming.GrowsIff | sys/dev/rtw88/if_rtw88_usb.c:2640-2662 | A frame grows by two bytes if and only if it is plain data with a whole header and the buffer has room |
| TxFraming.CountersMove | sys/dev/rtw88/if_rtw88_usb.c:2558-2688 | A zero sequence control field gets the next of 4096 numbers and moves the counter, any other stays; the report serial moves for EAPOL-Key frames only |
| TxFraming.PlainFrameDisagrees | sys/dev/rtw88/if_rtw88_usb.c:2451-2688 | A concrete header-only data frame goes out with TID 0 on queue 2, and stamped 1 under a descriptor that says 0 |
| TxFraming.HalvesAreBytes | sys/dev/rtw88/if_rtw88_usb.c:2690-2692 | The checksum words are the little-endian 16-bit words of the descriptor bytes |
| TxWire.EveryTransferFramed | sys/dev/rtw88/if_rtw88_usb.c:2380-2402 | In every run, every frame handed to USB on BE or VO was framed: its W0 announces exactly the bytes behind the descriptor, and its checksum words cancel out |
| TxWire.DrainIsFraming | sys/dev/rtw88/if_rtw88_usb.c:2394-2402 | The queue model and the framing agree: the head goes into flight if and only if a descriptor can be built for it, and is freed if not |
| TxWire.SafeRunSendsSealed | sys/dev/rtw88/if_rtw88_usb.c:5408-5534 | In every run of undivided transmits that met their conditions, whatever Protected unicast data was handed to USB was encapsulated |
| TxCcmp.OpensIffNotPromoted | sys/dev/rtw88/if_rtw88_usb.c:2640-2688 | The CCMP additional data and nonce that a receiver computes from the frame as sent are those it was encapsulated under if and only if framing did not promote it to QoS data; the stamped sequence number never matters |
| TxCcmp.NoncePriorityIff | sys/dev/rtw88/if_rtw88_usb.c:2640-2662 | For a promoted frame of three addresses the nonce, whose priority is the TID, is still the same if and only if the frame is not EAPOL |
| TxCcmp.SealedIsSpoiled | sys/dev/rtw88/if_rtw88_usb.c:2640-2688 | A concrete encapsulated plain data frame is promoted and goes out under other additional data than it was encapsulated with |
| TxFrame.Framer.Frame | sys/dev/rtw88/if_rtw88_usb.c:2380-2692 | The transfer buffer ends up with the descriptor words and the frame the framing function says, the counters advanced with it; 0 exactly when the frame is freed |
| TxFrame.Framer.FillData | sys/dev/rtw88/if_rtw88_usb.c:2429-2577 | The data arm writes all twelve words and advances the report serial only for EAPOL |
| TxFrame.Framer.FillMgmt | sys/dev/rtw88/if_rtw88_usb.c:2590-2610 | The management arm writes the fixed words around length and multicast |
| TxFrame.Framer.Promote | sys/dev/rtw88/if_rtw88_usb.c:2640-2662 | The in-place move inserts the QoS Control field behind the header and sets the QoS bit |
| TxFrame.Framer.Stamp | sys/dev/rtw88/if_rtw88_usb.c:2678-2688 | A zero sequence control gets the next number, any other stays |
| TxFrame.Framer.Checksum | sys/dev/rtw88/if_rtw88_usb.c:2689-2692 | The loop over sixteen words writes their exclusive or |
| Xors.XorReplace | sys/dev/rtw88/if_rtw88_usb.c:2689-2692 | Replacing a zero entry of a list by x changes its exclusive or by x |
| Firmware.Loader.DownloadSegment | sys/dev/rtw88/if_rtw88_usb.c:3169-3226 | On success chip RAM at [dst, dst+size) holds the segment, nothing else changed, and the engine's checksum ran over exactly the segment; on failure RAM holds some prefix; with no failure it succeeds exactly when the checksum matches |
| Firmware.Loader.SendChunk | sys/dev/rtw88/if_rtw88_usb.c:3190-3215 | One chunk of at most 4096 bytes carries RAM and checksum from off to off + chunk, the first one starting the checksum afresh |
| Firmware.KickExtends | sys/dev/rtw88/if_rtw88_usb.c:3096-3124 | Starting the engine on the staged chunk extends the copied prefix and the summed stream by that chunk, addresses wrapping at 32 bits |
| Firmware.Loader.SendFirmwarePkt | sys/dev/rtw88/if_rtw88_usb.c:3021-3088 | A size of zero or beyond the buffer is refused; on success the chunk stands staged behind its descriptor |
| Firmware.Loader.IddmaChunk | sys/dev/rtw88/if_rtw88_usb.c:3096-3124 | On success the engine ran once with this source, target, length and checksum mode; on failure once or not at all |
| Firmware.Loader.SegmentChecksumAck | sys/dev/rtw88/if_rtw88_usb.c:3133-3162 | Succeeds only if the checksum matched, and acknowledges IMEM or DMEM by address |
| Firmware.PacketFramed | sys/dev/rtw88/if_rtw88_usb.c:3050-3082 | A firmware packet announces its size, descriptor and last segment and the beacon queue, asks for nothing else, and its checksum words xor to zero |
| Firmware.PartitionIff | sys/dev/rtw88/if_rtw88_usb.c:3583-3597 | The segments of a blob that was acquired and accepted cut everything behind its header into consecutive pieces if and only if the sizes really add up to its length: below 4 GiB, if and only if their 32-bit sum did not wrap, the last piece lying outside the blob otherwise |
| Firmware.PartitionLoadsBlob | sys/dev/rtw88/if_rtw88_usb.c:3628-3657 | Segments that partition the blob load nothing from behind it |
| Firmware.WrappedBlobAccepted | sys/dev/rtw88/if_rtw88_usb.c:3585-3597 | A concrete 64-byte blob with the chip's signature, which acquisition lets through, has a size sum that wraps, is accepted, and its segments lie outside it |
| Firmware.DownloadBlob | sys/dev/rtw88/if_rtw88_usb.c:3628-3657 | For every acquired blob the segments go out in order; on success every address holds the byte, of the blob or of what lies behind it, that the last segment covering it names, else what it held before; without failures every accepted blob of nonempty segments is downloaded, and each segment is acknowledged as whole in IMEM or DMEM by its address |
| Firmware.LastOverIs | sys/dev/rtw88/if_rtw88_usb.c:3628-3657 | An address that no later segment covers holds its own segment's byte |
| Firmware.ImageSegments | sys/dev/rtw88/if_rtw88_usb.c:1520-1545 | Any image laid out behind its 64-byte header, with or without EMEM, is acquired and accepted, and its segments are exactly its memories, each for its own address without the top bit |
| Firmware.Plus8Is | sys/dev/rtw88/if_rtw88_usb.c:3579-3581 | Sizes with their checksum are added in 32 bits |
| H2c.RunMailbox | sys/dev/rtw88/if_rtw88_usb.c:6884-6915 | Over every run of calls, accesses and firmware turns the delivered commands are a prefix of the accepted ones, each with its own extension, and at most four are outstanding |
| H2c.DeliveredInOrder | sys/dev/rtw88/if_rtw88_usb.c:6884-6915 | So it is from the start, with every box free and driver and firmware at the same box |
| H2c.NoOverwrite | sys/dev/rtw88/if_rtw88_usb.c:6899-6913 | In no run is an armed box written |
| H2c.StepMailbox | sys/dev/rtw88/if_rtw88_usb.c:6884-6915 | Every step keeps the boxes from the firmware's turn on stocked with the outstanding commands and the driver's next box right behind them |
| H2c.ServesDeliver | sys/dev/rtw88/if_rtw88_usb.c:6884-6915 | Left to itself the firmware delivers everything accepted |
| H2c.InOrderIffNoneUnseen | sys/dev/rtw88/if_rtw88_usb.c:6899-6914 | Over every run that may also hold message writes which took effect but were reported failed: the mailbox invariant holds throughout if and only if there is none of these |
| H2c.UnseenBreaks | sys/dev/rtw88/if_rtw88_usb.c:6909-6914 | From every state in order, one such write breaks the invariant |
| H2c.UnseenWriteBreaks | sys/dev/rtw88/if_rtw88_usb.c:6909-6914 | What it does to a fresh mailbox: an unaccepted command is delivered and the box of the next command is passed over |
| H2cCalls.InOrderIffNeverMisses | sys/dev/rtw88/if_rtw88_usb.c:6884-6915 | Over every run of any number of callers, each with the box it read when it began: the mailbox is in order throughout if and only if every message goes to the box that is next when it is written |
| H2cCalls.SafeIffNoOverlap | sys/dev/rtw88/if_rtw88_usb.c:6896-6914 | Over every run from the start: the mailbox is safe throughout, whatever becomes of the calls under way, if and only if no call begins while another one is under way |
| H2cCalls.OverlapBreaks | sys/dev/rtw88/if_rtw88_usb.c:6896-6914 | From every state in order, two calls that read the same box have a way to go through that leaves the mailbox out of order |
| H2cCalls.StepFineIff | sys/dev/rtw88/if_rtw88_usb.c:6896-6914 | A step keeps the mailbox in order if and only if it is not a message to a box that is no longer next |
| H2c.Softc.H2cMailbox | sys/dev/rtw88/if_rtw88_usb.c:6884-6915 | Whatever the firmware does meanwhile, the command is accepted exactly when the call succeeds, and the next box advances exactly then |
| H2c.Softc.AwaitFree | sys/dev/rtw88/if_rtw88_usb.c:6899-6908 | A successful wait leaves the next box free |
| LinkWork.LastTransitionWins | sys/dev/rtw88/if_rtw88_usb.c:4326-4371 | Over every run an up and a down transition are never both pending, and whenever no link work is under way the keepalive and the last media report (unless it failed) match the last posted transition |
| LinkWork.Settles | sys/dev/rtw88/if_rtw88_usb.c:4145-4371 | From every reachable state, with nothing more posted, the worker comes to rest with everything settled |
| LinkWork.TightenOnce | sys/dev/rtw88/if_rtw88_usb.c:4842-4861 | Over every run the tighten RA_INFO is sent at most once for each start of the keepalive |
| LinkWork.StartTightens | sys/dev/rtw88/if_rtw88_usb.c:4897-4913 | A fresh start has its own tighten: from every state the first due tick after it sends one, whatever was sent before |
| LinkWork.TickComes | sys/dev/rtw88/if_rtw88_usb.c:4815-4895 | Over every run, while the keepalive is active and the worker has nothing in hand, its callout and its task lead to another tick |
| LinkWork.RunBeating | sys/dev/rtw88/if_rtw88_usb.c:4815-4921 | Over every run an active keepalive has its callout armed, fired, or a tick enqueued or under way, and the callout is armed only while it is active |
| LinkWork.StoppedIsQuiet | sys/dev/rtw88/if_rtw88_usb.c:4915-4921 | After a stop no callout is armed, and a tick still on its way does nothing |
| LinkWork.RestartIsNothing | sys/dev/rtw88/if_rtw88_usb.c:4897-4902 | Starting an active keepalive changes nothing |
| LinkWork.ReportIs | sys/dev/rtw88/if_rtw88_usb.c:4326-4371 | A media report that fails leaves what the chip was last told and is remembered as failed |
| LinkWork.FiringIs | sys/dev/rtw88/if_rtw88_usb.c:4806-4813 | An armed callout fires once, and each firing enqueues one tick |
| LinkWork.Softc.NewState | sys/dev/rtw88/if_rtw88_usb.c:4478-4504 | A transition displaces the opposite one |
| LinkWork.Softc.TakePosted | sys/dev/rtw88/if_rtw88_usb.c:4145-4171 | The task takes and clears the posted work and picks the up arm, the down arm or none |
| LinkWork.Softc.FwkaStart | sys/dev/rtw88/if_rtw88_usb.c:4897-4913 | Starting a running keepalive does nothing; otherwise it re-arms the tighten and the callout and starts the watchdog afresh |
| LinkWork.Softc.FwkaStop | sys/dev/rtw88/if_rtw88_usb.c:4915-4921 | Stopping clears the flag and the callout |
| LinkWork.Softc.FwkaTask | sys/dev/rtw88/if_rtw88_usb.c:4815-4895 | A tick sends the power mode command exactly when active and the tighten exactly when active, due and not yet fired, runs the watchdog and re-arms the callout only while active |
| Watchdog.StallsCounted | sys/dev/rtw88/if_rtw88_usb.c:4868-4888 | Over any tick history since the start, the stall counter grows by exactly the number of maximal runs of three or more ticks without a received packet, though the tick counter saturates at 255 |
| Watchdog.StallsGrow | sys/dev/rtw88/if_rtw88_usb.c:4868-4888 | A history gains a stall exactly when its closing quiet run has just become three ticks long |
| LinkWork.Softc.WatchdogTick | sys/dev/rtw88/if_rtw88_usb.c:4868-4888 | One tick updates counter, flag, last value and stall count as the tick function says |
| Watchdog.BlendBetween | sys/dev/rtw88/if_rtw88_usb.c:1839-1844 | Each update of the average lies between the old average and the sample, and leaves it unchanged if and only if it is at the sample or up to seven below |
| Watchdog.ReachesFromAbove | sys/dev/rtw88/if_rtw88_usb.c:1839-1844 | Under a constant sample the average comes down to it in no more steps than it was above it |
| Watchdog.StopsFromBelow | sys/dev/rtw88/if_rtw88_usb.c:1839-1844 | From more than seven below, the average rises to exactly seven below the sample and stops |
| Watchdog.StaysBelow | sys/dev/rtw88/if_rtw88_usb.c:1839-1844 | From up to seven below, the average does not move |
| Watchdog.Softc.AverageRssi | sys/dev/rtw88/if_rtw88_usb.c:1832-1846 | The average takes the first sample as it is, blends later ones, ignores frames without PHY status and stays within 0 to 100 |

## Left out

- Draining the management queue, and the H2C bulk endpoint: two transfers share one in-flight pointer and one synchronous slot there; a synchronous bulk send is one abstract access.
- `rtw88_maybe_upgrade_eapol_qos` as a step of transmit: it replaces the mbuf before `rtw88_transmit` looks at it; its effect on the bytes is `EapolKey.Upgraded`, the bytes that transmit sees are arbitrary.
- Statistics other than the CAM failure, receive error, drop, frame and stall counters, and the wrap-around of counters: they steer nothing.
- TxFrame.Framer.Frame: the descriptor is its twelve little-endian words, tied to bytes by `TxFraming.HalvesAreBytes`; the mbuf is contiguous.
- RxDemux.Receiver.BulkRx: the bytes copied out of the USB buffer are a sequence, not an array, because the loop only reads them; only the in-place strip works on an array.
- RxDemux.Receiver.Handle: the frame is not tied to its annotation (signal strength is in `RxSignal`; bandwidth, rate and channel are left out), nor are the rate histogram, radiotap, diagnostics, and what net80211 does with a frame.
- Efuse.LogicalWalk: the protected bytes are at least one, because the walk always looks at a second header byte, and the 16-bit cursor does not wrap for any size the chip has.
- EFUSE consumers (`rtw88_efuse_read` filling fields and programming registers): easy members.
- PhyBlob.LoadBlob: sizes are added up without wrap-around, as in a 64-bit `size_t`, and table words, which the driver reads in host order, are little-endian.
- Firmware.DownloadBlob: reading behind the blob is taken to give some bytes; power-up, WCPU reset and the final ready bits are register scripts.
- Firmware.Loader.SegmentChecksumAck: its last write may fail unnoticed, as in the driver, so success does not mean that the acknowledgement reached the chip.
- H2c.RunMailbox: one call at a time; several callers are in `H2cCalls`, where a call keeps the endpoint from its first access on, as `CamCalls.NobodyBetween` proves of calls of any accesses.
- H2C command contents, and which commands the link arms send besides the media report and the tighten: straight-line packing.
- LinkWork.LastTransitionWins: the `sc_linkup_skip` diagnostic bits are zero.
- CamQueue.CamRefinesMap: a foreign clear is one step and never inside an operation, which is what `CamCalls.CallsAreAtomic` proves.
- Register bring-up scripts, channel setting, coexistence, power saving, beamforming, LED, sysctls other than the CAM dump, attach and detach: no deep invariant.
- net80211, USB stack, taskqueue and mbuf internals: replaced by the assumptions above.
- Delays, timeouts and poll budgets as time: a poll is bounded and may fail.
