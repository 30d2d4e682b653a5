# Verification of the mesh node SDK's core logic

A Dafny model of the parts of the SDK whose correctness is hardest to see from the code, with
proofs about them. `dafny verify dfyconfig.toml` checks everything. Nothing here executes the
original programs; the model follows their source.

What is modelled, by component:

- **Provisioning and joining** (`ProvisioningState`, `Provisioning`, `ProvisioningData`,
  `ProvisioningRuns`, `ProvisioningSessions`, `ProvisioningAttempts`, `ProvisioningTrust`,
  `ProvisioningJoining`, `ProvisioningRetries`, `ProvisioningResults`, `ProvisioningIdentity`,
  `ProvisioningPackets`, `ProvisioningLimits`): the two coupled state machines with their event
  flags, scheduled tasks, receive filter and receive buffer. `ProvisioningState.Step` is one
  transition system over both; class `Provisioning.Library` has the C variables and functions and
  every one of its methods is proved to be a transition. The other modules prove properties of all
  runs: never stuck, one end callback for each session, bounded attempts, only validated data
  applied; `ProvisioningLimits` has the runs for which a promise fails. The environment (the
  stack's answers, beacons, random numbers, whether the application starts again from inside the
  end callback) is an arbitrary oracle.
- **Sparse memory and Intel HEX** (`MemoryMap`, `SparseMemory`, `MemorySizes`, `HexFormat`,
  `HexFiles`, `HexRecords`, `IntelHex`): lists of byte ranges merged, split and overwritten in
  place, against a map from addresses to bytes; the printer and the parser.
- **Flash images** (`BootloaderConfig`, `FlashPieces`, `FlashLayout`, `FlashImage`, `FlashReading`):
  the check of a configuration, and the image built from it in a sparse memory.
- **AES modes** (`Aes`, `CmacLaws`): counter mode and CMAC over an arbitrary block cipher, buffers
  in place.
- **Control node** (`ControlNodeState`, `ControlNode`, `ControlNodeRuns`, `ControlNodeSends`):
  sending with a backup route, two timers and late callbacks.
- **Structures**: the scratchpad writer and reader (`ScratchpadFormat`, `Scratchpad`,
  `ScratchpadReading`), the CRC implementations (`Crc`), the intrusive list (`SlList`), the TLV
  codec (`Tlv`), persistent data in flash (`Persistent`).

`Bytes` has bytes, machine words and exclusive or over natural numbers; machine integers are
mathematical integers with their wrap-around written out. Scheduler entries follow
`libraries/scheduler/app_scheduler.c`: one per task, adding again replaces the delay, and a task
that adds itself while it runs keeps the new entry whatever it returns. Adding an entry is taken
to succeed.

## Where the code does not do what is said about it

The model follows the code. Each of these has a lemma or a contract in the table.

- A failure to join is always reported as stopped, never as one of the documented results
  (`FailuresStopped`, `FailureReported`, `JoinErrorsNeverReported`; a run is `FailureStopped`).
- A refused ACK leaves the machine waiting for ever (`RefusedAckDeserts`, `DesertedForever`; a run
  that comes to this is `ReachDeserted`). It is the only way to get stuck (`NeverStuck`).
- `nb_retry` = 255 means unlimited retries, since an 8-bit count cannot exceed it
  (`UnlimitedRetries`, `NackEnds`).
- With the method EXTENDED_UID the data decoded for good includes the authentication code that the
  dry run leaves out (`SameWindow`).
- Two calls of start that return OK before the state machine has run have one end callback between
  them (`TwoStartsOneEnd`); and a session started from inside the end callback while the state
  machine runs is lost, since the machine clears all events before it returns (`StartInsideEnd`).
  Otherwise each accepted session has exactly one (`EndCallbackOnce`).
- The timeout doubled by each retry is never set back, so later sessions start with it, and it wraps
  at 16 bits (`TimeoutRun`; a run is `LaterTimeout`).
- Data packets shorter than their headers are not refused; the length of their data wraps and leads
  out of the buffer (`ShortPacketWraps`).
- A control node's send from inside the callback of its own reset loses its callback (`Forgotten`; a
  run is `ReachForgotten`). A late sent callback of an earlier send can make a later one hand over
  three packets (`ThreePackets`), and can have the callback of a send called that returned an
  error (`OnlyAcceptedCalled`, `RefusedCalled`), or the user told of a success that is not that of
  the send (`MistakenSuccess`).
- A control node hands packets over for address 0 when there is no router at all, and when the
  primary's sent callback reports a failure and there is no backup (`StrayStep`).
- `hextool.py` says that adding a memory does not move the cursor; it does, unless its last range
  ends at the cursor (`CursorKept`). A rejected write has already extended a range that ends where
  it starts (`Memory.Set`).
- The comment on the written size in `genhex.py` says it is rounded up; for whole numbers of erase
  blocks it is one block more (`WrittenSizeRounds`). Nothing checks that a bootloader ends inside
  its area (`GenBootloader`).
- `App_Persistent_write` counts the blocks to erase without the magic word (`NotReadBack`), and the
  room left by the magic word wraps for an area smaller than that (`UsableWraps`).
- A last TLV item with a one-byte type and no value is written but not read (`Tlv.RoundTrip`).
- `sl_list.h` says that removing returns the previous element; the code returns the element itself,
  whether it was a member or not (`Remove`), so the result does not tell whether it was.
- A comment in the HEX parser rules out spaces between digits; but a space or a plus sign is
  accepted in the place of a byte's first digit, a space in that of its second, and "-0"
  (`ByteOfTwo`, `PaddedRecord`).
- The HEX parser puts a segment and the address in it together bit by bit; that is their sum only if
  they have no bit in common (`SegmentExact`).
- HEX files are saved with records of up to 255 bytes, but those of more than 122 are not loaded
  (`FileRoundTrip`).
- A HEX line that does not start with a colon makes the parser return an error object instead of
  raising it, so that it goes unnoticed when no record follows (`StrayText`).

## Model

| member | source | states |
|---|---|---|
| ProvisioningRuns.NeverStuck | libraries/provisioning/provisioning.c:697-749 | all through a run each non-idle state has a wake-up task or an event with its run pending if and only if no ACK is refused in the run; then the scheduler entry an active session depends on is pending |
| ProvisioningRuns.LiveStep | libraries/provisioning/provisioning.c:383-749 | a step keeps both machines alive if and only if it is not one in which the ACK send is refused |
| ProvisioningRuns.DriverPending | libraries/provisioning/provisioning.c:697-749 | the scheduler entry an active session depends on is pending |
| ProvisioningRuns.ShapeStep | libraries/provisioning/provisioning.c:383-749 | events, timers, filter and buffer always belong to the states that wait for them: an invariant of both machines |
| ProvisioningRuns.ShapeRun | libraries/provisioning/joining.c:179-535 | that invariant over every run |
| ProvisioningSessions.EndCallbackOnce | libraries/provisioning/provisioning.c:810-845 | all through a run the sessions accepted are those whose end callback has been called and the active one, if and only if no step of the run accepts a session while another waits for its first run or from inside the end callback of a failing one |
| ProvisioningSessions.NoSpuriousEnd | libraries/provisioning/provisioning.c:383-392 | in every run the end callback is called only for an open session or directly from a call of stop, although every reset raises the joined event again |
| ProvisioningSessions.AccountedStep | libraries/provisioning/provisioning.c:383-468 | a step keeps the account of sessions accepted, ended and active if and only if it does not lose a session |
| ProvisioningLimits.TwoStartsOneEnd | libraries/provisioning/provisioning.c:810-833 | a run from the initial state in which two starts return OK and the end callback is called once |
| ProvisioningLimits.StartInsideEnd | libraries/provisioning/provisioning.c:474-549 | with `nb_retry` = 0 a run from the initial state in which a start from inside the end callback returns OK, and yet no session is active afterwards |
| ProvisioningAttempts.AttemptsBounded | libraries/provisioning/provisioning.c:609-633 | with `nb_retry` at most 254 no session of any run makes more than `nb_retry` + 1 beacon scans or START attempts |
| ProvisioningAttempts.CountedStep | libraries/provisioning/provisioning.c:512-530 | the 8-bit retry counts of both machines agree with the attempts made in the session |
| ProvisioningLimits.UnlimitedRetries | libraries/provisioning/provisioning.c:609-633 | with `nb_retry` = 255 there is, for every n, a run from the initial state in which one session attempts n START packets |
| ProvisioningLimits.NackEnds | libraries/provisioning/provisioning.c:570-578 | a NACK of the session ends it without another START if and only if the retry limit can be exceeded; it is then reported as NACK |
| ProvisioningAttempts.SessionsEnd | libraries/provisioning/provisioning.c:474-638 | a session of any run is over after at most 10 * `nb_retry` + 19 runs of the scheduler task it depends on |
| ProvisioningAttempts.MeasureStep | libraries/provisioning/provisioning.c:474-638 | a measure over both machines: no event but a start increases it, and every run of the driving task decreases it |
| ProvisioningAttempts.MeasureBounds | libraries/provisioning/joining.c:217-482 | the measure is never negative, is positive while a session is active, and is at most 10 * `nb_retry` + 19 |
| ProvisioningAttempts.MeasureRun | libraries/provisioning/joining.c:217-482 | over a whole run the driving task can run no more often than the measure drops |
| ProvisioningAttempts.TimeoutRun | libraries/provisioning/provisioning.c:609-633 | after any run the timeout is the first one times two to the number of times data was asked for again, modulo 2^16, over all sessions: it is never set back |
| ProvisioningLimits.LaterTimeout | libraries/provisioning/provisioning.c:609-633 | with at least one retry a run from the initial state in which the second session starts with twice the timeout |
| ProvisioningAttempts.TimeoutStep | libraries/provisioning/provisioning.c:609-633 | asking for data again doubles the timeout, nothing else changes it |
| ProvisioningJoining.FailuresStopped | libraries/provisioning/provisioning.c:439-468 | in every run a session that ends before it has sent a START packet is reported as stopped |
| ProvisioningJoining.FailureReported | libraries/provisioning/provisioning.c:439-468 | while joining, the state machine ends the session if and only if joining has failed, and reports it as stopped |
| ProvisioningJoining.FailureStopped | libraries/provisioning/joining.c:217-277 | for every `nb_retry` up to 254 a run from the initial state in which all scans are refused: the joining machine has reported that, the user is told stopped |
| ProvisioningJoining.JoinErrorsNeverReported | libraries/provisioning/provisioning.c:439-468 | no run reports any of the documented results for a failure to join |
| ProvisioningJoining.NoJoinErrorStep | libraries/provisioning/joining.c:588-598 | the step of that result |
| ProvisioningTrust.AppliedIsValidated | libraries/provisioning/provisioning.c:644-688 | for every method but EXTENDED_UID, in every run each packet that a dry run accepts is a data packet of the session announced last, authentic if the method encrypts; and the bytes decoded for good, the calls to the user and the parameters applied are exactly those of the packet the last dry run of that session accepted |
| ProvisioningTrust.TrustedStep | libraries/provisioning/provisioning.c:105-133 | while the ACK is awaited the receive filter is off, so the buffer stays the vetted packet: kept by every step |
| ProvisioningTrust.JudgedVetted | libraries/provisioning/provisioning.c:258-381 | a packet judged valid carries the current session id and, if encrypted, a matching code, and its data passed a dry run |
| ProvisioningTrust.SameWindow | libraries/provisioning/provisioning.c:655-672 | the bytes decoded for good are those of the dry run if and only if the method is not EXTENDED_UID; for that method the code of five bytes is decoded as well |
| ProvisioningLimits.RefusedAckDeserts | libraries/provisioning/provisioning.c:200-251 | a refused ACK leaves the machine in WAIT_ACK_SENT with no timer and with neither of the events that end the wait |
| ProvisioningLimits.ReachDeserted | libraries/provisioning/provisioning.c:200-251 | a run from the initial state that comes to this, for the unsecured method and any data that is accepted and fits a packet |
| ProvisioningLimits.DesertedForever | libraries/provisioning/provisioning.c:644-688 | from there, without a stop or a late sent callback, no run ever adds anything to what has been done |
| ProvisioningState.ShortPacketWraps | libraries/provisioning/provisioning.c:258-381 | the 8-bit length of the data stays inside the received packet if and only if the packet has the least length of its method; for shorter ones it wraps and reaches past the buffer (252 for a secured packet of 10 bytes) |
| ProvisioningPackets.SealedIsTaken | libraries/provisioning/provisioning.c:258-381 | a packet that a server has sealed with the keys of the node (header, then data and five bytes of the code of header and data in counter mode from IV + counter) is opened, and taken if and only if its data is acceptable; the buffer then holds what the server had |
| ProvisioningPackets.TakenIsSealed | libraries/provisioning/provisioning.c:307-357 | of encrypted packets only such ones are taken |
| ProvisioningPackets.PlainIsTaken | libraries/provisioning/provisioning.c:283-301 | without encryption header and data are taken if and only if the key index is 0 and the data is acceptable |
| ProvisioningPackets.OthersAreNot | libraries/provisioning/provisioning.c:555-607 | packets of another session, type or key index are judged as such whatever their data; a NACK uses up the retries |
| ProvisioningResults.ResultStep | libraries/provisioning/provisioning.c:398-688 | in each step exactly this result is reported: stopped, an error sending, the verdict on the data of the last try, a timeout of the last try, success, or invalid data, and by which guard |
| ProvisioningIdentity.SessionsTold | libraries/provisioning/provisioning.c:439-535 | in every run all START packets of a session have one id, however often data is asked for again, and the id is the first one counted on, modulo 256, by one for each network joined |
| ProvisioningIdentity.IdentityStep | libraries/provisioning/provisioning.c:398-688 | only joining counts the id on, only the beginning of an encrypted session draws an initialization vector, and a packet the stack takes is waited for as many milliseconds as the timeout has seconds times 1000 |
| ProvisioningIdentity.IdentifiedStep | libraries/provisioning/provisioning.c:383-688 | the step of the first result: the id of the packets sent is the current one while a session lasts |
| ProvisioningRetries.GivenUpAtLast | libraries/provisioning/provisioning.c:467-633 | in every run a session that nobody stops and that is given up has used up its attempts: exactly `nb_retry` + 1 scans if it has not joined, else exactly `nb_retry` + 1 START packets, unless the server has refused it or its data has been rejected at last |
| ProvisioningRetries.SpendingStep | libraries/provisioning/joining.c:217-482 | the step of that result |
| ProvisioningRetries.JoiningDecided | libraries/provisioning/joining.c:217-482 | joining succeeds if and only if a route is valid when waiting for one, fails if and only if an attempt fails that is the last; any other failed attempt is followed by a scan, and a beacon taken by a wait that is going to end |
| ProvisioningResults.DataNeverComes | libraries/provisioning/provisioning.c:609-638 | for every `nb_retry` up to 254 a run from the initial state in which data never comes: START is sent `nb_retry` + 1 times, then a timeout is reported |
| Provisioning.InitialCounter | libraries/provisioning/provisioning.c:307-321 | the carry chain over four words gives exactly IV + counter modulo 2^128, the block a stream from the IV reaches after counter blocks |
| Provisioning.CounterSum | libraries/provisioning/provisioning.c:307-321 | a block is that one if its value is the sum, wrapped at 2^128 |
| Provisioning.Library.Init | libraries/provisioning/provisioning.c:751-808 | the state after initialization is the initial state of the transition system |
| Provisioning.Library.EndJoiningCb | libraries/provisioning/provisioning.c:177-191 | the joined event, its result and a run of the machine, nothing else |
| Provisioning.Library.ResetJoining | libraries/provisioning/joining.c:179-190 | the joining machine is back in its initial state |
| Provisioning.Library.JoiningStart | libraries/provisioning/joining.c:563-586 | refused unless idle; else a run is scheduled with the start event |
| Provisioning.Library.JoiningStop | libraries/provisioning/joining.c:588-598 | joining is reset and reported as stopped |
| Provisioning.Library.JoinStateIdle | libraries/provisioning/joining.c:196-211 | refines the corresponding transition, the returned delay included |
| Provisioning.Library.JoinStateStart | libraries/provisioning/joining.c:217-277 | refines the corresponding transition |
| Provisioning.Library.HandleScanEnd | libraries/provisioning/joining.c:283-388 | the beacon choice, the join request and their outcomes |
| Provisioning.Library.RetryJoining | libraries/provisioning/joining.c:388-414 | another attempt, or the end of joining once the count exceeds the limit |
| Provisioning.Library.JoinStateWaitScanEnd | libraries/provisioning/joining.c:283-414 | refines the corresponding transition |
| Provisioning.Library.JoinStateWaitRouteChange | libraries/provisioning/joining.c:420-482 | refines the corresponding transition |
| Provisioning.Library.JoinRunStateMachine | libraries/provisioning/joining.c:490-535 | one run of the joining machine is its transition |
| Provisioning.Library.ResetProvisioning | libraries/provisioning/provisioning.c:383-392 | everything is stopped, and the joined event is raised again by stopping the joining machine |
| Provisioning.Library.StartSession | libraries/provisioning/provisioning.c:810-833 | accepted only when idle |
| Provisioning.Library.StateIdle | libraries/provisioning/provisioning.c:398-433 | refines the corresponding transition |
| Provisioning.Library.BeginSession | libraries/provisioning/provisioning.c:398-433 | a session begins by starting the joining machine |
| Provisioning.Library.StateWaitJoining | libraries/provisioning/provisioning.c:439-468 | refines the corresponding transition |
| Provisioning.Library.StateStart | libraries/provisioning/provisioning.c:474-549 | refines the corresponding transition |
| Provisioning.Library.Decrypt | libraries/provisioning/provisioning.c:307-335 | data and code are decrypted in place, the rest of the packet stays |
| Provisioning.Library.CheckMic | libraries/provisioning/provisioning.c:337-357 | true exactly when the last five bytes are the truncated CMAC of all bytes before them |
| Provisioning.Library.ProcessPacket | libraries/provisioning/provisioning.c:258-381 | the verdict and the buffer of the specification |
| Provisioning.Library.SendAckPacket | libraries/provisioning/provisioning.c:200-251 | if the stack takes the ACK the timer for its sent callback is set, else the delay returned asks for another run at once |
| Provisioning.Library.JudgePacket | libraries/provisioning/provisioning.c:555-607 | the verdict, retry count and buffer of the specification |
| Provisioning.Library.AcceptPacket | libraries/provisioning/provisioning.c:592-601 | valid data: filter off, ACK sent, waiting for it to be sent |
| Provisioning.Library.Refuse | libraries/provisioning/provisioning.c:609-638 | no valid data: another START with twice the timeout, or the end |
| Provisioning.Library.StateWaitData | libraries/provisioning/provisioning.c:555-638 | refines the corresponding transition |
| Provisioning.Library.DecodeAndApply | libraries/provisioning/data.c:593-679 | the calls and the parameters of the specification, for good |
| Provisioning.Library.StateWaitAckSent | libraries/provisioning/provisioning.c:644-688 | refines the corresponding transition |
| Provisioning.Library.RunStateMachine | libraries/provisioning/provisioning.c:697-749 | one run of the provisioning machine is its transition |
| Provisioning.Library.PktReceivedCb | libraries/provisioning/provisioning.c:105-133 | one step of the transition system |
| Provisioning.Library.PTimeoutTask | libraries/provisioning/provisioning.c:138-152 | one step of the transition system |
| Provisioning.Library.JTimeoutTask | libraries/provisioning/joining.c:158-172 | one step of the transition system |
| Provisioning.Library.PacketSentCb | libraries/provisioning/provisioning.c:157-170 | one step of the transition system |
| Provisioning.Library.JoiningBeaconRxCb | libraries/provisioning/joining.c:117-136 | one step of the transition system |
| Provisioning.Library.RouteChangedCb | libraries/provisioning/joining.c:141-153 | one step of the transition system |
| Provisioning.Library.Stop | libraries/provisioning/provisioning.c:835-845 | one step of the transition system |
| Provisioning.Library.PerformTask | libraries/scheduler/app_scheduler.c:196-235 | running a scheduled task is one step of the transition system: an entry added again during its own run keeps its new delay, else the returned delay counts |
| ProvisioningData.Decoder.Decode | libraries/provisioning/data.c:593-679 | accepts exactly the acceptable buffers; of several entries with one id the last counts; a dry run makes no call, a run for good makes the calls of the entries up to the first in error |
| ProvisioningData.Decoder.ParseMap | libraries/provisioning/data.c:461-535 | succeeds exactly when every entry is in order and the mandatory ones are there; the calls it makes either way |
| ProvisioningData.Decoder.ParseEntry | libraries/provisioning/data.c:461-535 | one entry: stored or handed over, in order or not |
| ProvisioningData.Decoder.ParseWirepasData | libraries/provisioning/data.c:289-336 | the value of a reserved id is checked and stored in its place only |
| ProvisioningData.Decoder.ParseUserData | libraries/provisioning/data.c:350-449 | the callback gets id, type and value of a user entry, once, and not in a dry run |
| ProvisioningData.Decoder.ParseEncKey | libraries/provisioning/data.c:115-135 | true exactly for a value of the right type, size and range; only its own field changes |
| ProvisioningData.Decoder.ParseAuthKey | libraries/provisioning/data.c:144-162 | true exactly for a value of the right type, size and range; only its own field changes |
| ProvisioningData.Decoder.ParseNetAddress | libraries/provisioning/data.c:171-191 | true exactly for a value of the right type, size and range; only its own field changes |
| ProvisioningData.Decoder.ParseNetChannel | libraries/provisioning/data.c:200-220 | true exactly for a value of the right type, size and range; only its own field changes |
| ProvisioningData.Decoder.ParseNodeAddress | libraries/provisioning/data.c:229-249 | true exactly for a value of the right type, size and range; only its own field changes |
| ProvisioningData.Decoder.ParseNodeRole | libraries/provisioning/data.c:258-278 | true exactly for a value of the right type, size and range; only its own field changes |
| ProvisioningData.AcceptedNetwork | libraries/provisioning/data.c:540-591 | what an accepted buffer configures has passed the checks of the stack, and both keys are 16 bytes |
| ProvisioningData.AcceptedCalls | libraries/provisioning/data.c:593-679 | after an accepted dry run the run for good on the same bytes hands over every user entry |
| ProvisioningData.EntryInOrder | libraries/provisioning/data.c:289-535 | an entry is in order if and only if the reader gets past it and its identifier is one of the six of the stack with such a value, or one of the user (0x80 to 0xff) with a value the user can get |
| ProvisioningData.LookedAll | libraries/provisioning/data.c:461-535 | without an entry in error all are looked at |
| ProvisioningData.LookedStep | libraries/provisioning/data.c:461-535 | the first entry in error is the last one looked at |
| ProvisioningData.LastIsLast | libraries/provisioning/data.c:461-535 | the entry that counts is the last one with its id |
| ProvisioningData.LastChecked | libraries/provisioning/data.c:171-278 | the value that counts has passed its check |
| Aes.CounterBlockValue | util/aessw.c:172-182 | counting blocks adds modulo 2^128 to the value of the counter |
| Aes.CarryChain | libraries/provisioning/provisioning.c:307-321 | adding to the first word and passing the carry along the others moves the counter on by that many blocks |
| Aes.CtrBlockwise | util/aessw.c:157-196 | the byte-wise form (input byte i exclusive-or byte i mod 16 of the cipher on the counter plus i div 16) equals the block-by-block definition of section 6.5 of NIST SP 800-38A |
| Aes.CtrInvolution | util/aessw.c:157-196 | counter mode is its own inverse |
| Aes.CtrSplit | util/aessw.c:157-196 | a text may be cut at any block boundary and continued with the counter moved on |
| Aes.AesStream.SetupStream | util/aessw.c:29-36 | key and counter as given |
| Aes.AesStream.IncrementCounter | util/aessw.c:172-182 | the increment word by word is the increment of all 128 bits |
| Aes.AesStream.CtrRound | util/aessw.c:168-195 | one round puts out at most one block of counter mode, also in place |
| Aes.AesStream.Crypto128Ctr | util/aessw.c:157-196 | the output is counter mode of the input as it was before the call, also when both are the same bytes; nothing else is written; the counter has moved on by the blocks begun |
| Aes.ShiftLeft | util/aessw.c:42-64 | the loop over bytes shifts all 128 bits by one place, and returns the bit shifted out |
| Aes.Omac1GenerateSubkey | util/aessw.c:42-64 | the byte-wise loop is doubling in GF(2^128), section 2.3 of RFC 4493 |
| Aes.GfDoubleBound | util/aessw.c:42-64 | doubling stays within 128 bits |
| Aes.SubkeysUnique | util/aessw.c:66-82 | the subkeys that section 2.3 of RFC 4493 admits are unique |
| Aes.CmacOfSubkeys | util/aessw.c:66-155 | whatever subkeys are admitted, the code computed with them is the CMAC |
| CmacLaws.OneBlock | util/aessw.c:99-146 | a text of at most 16 bytes: every byte of the cipher input is the byte of the padded text exclusive-or the byte of the first or second subkey |
| CmacLaws.TwoBlocks | util/aessw.c:99-146 | a block before the final one: every byte of the cipher input is, moreover, exclusive-or the byte of the encrypted block |
| CmacLaws.Absorbed | util/aessw.c:99-148 | two blocks before the final one count as one, the second exclusive-or the first encrypted; with the two above this determines the code of every text |
| CmacLaws.BlocksCount | util/aessw.c:84-155 | for a cipher that can be undone, texts that differ in one block before the last have different codes |
| CmacLaws.LastCounts | util/aessw.c:84-155 | and so have texts that differ in their last block |
| Aes.Omac1State.InitOmac1 | util/aessw.c:66-82 | the state holds the two subkeys of the key |
| Aes.Omac1State.Crunch | util/aessw.c:84-155 | the cipher has run over the whole text, the last block padded and masked as section 2.4 of RFC 4493 says |
| Aes.Omac1State.Omac1 | util/aessw.c:84-155 | the output is the truncated CMAC of key and text, whatever the state was used for before |
| MemoryMap.CanonicalUnique | tools/hextool.py:178-206 | sorted, non-empty, separated range lists with the same bytes are the same list |
| MemoryMap.MergeFinish | tools/hextool.py:322-377 | the list the search ends with is in order again and is the old map overwritten with the new bytes |
| MemoryMap.MergeConflict | tools/hextool.py:341-343 | what data already joined overlaps, the new data overlaps itself: joining causes no conflicts |
| MemoryMap.MeetsStored | tools/hextool.py:341-343 | a new range meets a stored range exactly when one of its addresses is stored |
| MemoryMap.CutFinish | tools/hextool.py:430-474 | the list left by a deletion is in order and is the old map without the addresses deleted |
| MemoryMap.OverlaidMeets | tools/hextool.py:476-496 | adding a memory range by range meets stored data exactly where its own ranges do |
| MemoryMap.ReadCopy | tools/hextool.py:242-258 | copying the common part of range and slice is what lookup, gaps filled, gives |
| SparseMemory.MemoryRange.Extend | tools/hextool.py:147-171 | the visible bytes grow by the new ones at the end, whatever room is reserved |
| SparseMemory.MemoryRange.Replace | tools/hextool.py:142-145 | a slice of the visible bytes is replaced, the rest stays |
| SparseMemory.MemoryRange.Trim | tools/hextool.py:173-175 | visible bytes are kept, since the end address is never below their number |
| SparseMemory.Memory.constructor | tools/hextool.py:187-204 | an empty memory |
| SparseMemory.Memory.Set | tools/hextool.py:261-387 | refines map override; rejected exactly when the slice does not fit, its size is wrong, or overlap is not allowed and stored data is met; a rejected overlap leaves only the left neighbour extended |
| SparseMemory.Memory.Place | tools/hextool.py:322-377 | the new list: in order, the old map overwritten; none exactly when overlap is not allowed and the new range meets stored data |
| SparseMemory.Memory.Search | tools/hextool.py:322-374 | the loop over the ranges in place, from the first to the spot after the new data or to a conflict |
| SparseMemory.Memory.Overwrite | tools/hextool.py:345-371 | the four ways of overlapping give one range in which the new bytes win |
| SparseMemory.Memory.Get | tools/hextool.py:206-259 | reads back every stored byte and the fill byte elsewhere; none exactly outside the address space |
| SparseMemory.Memory.Delete | tools/hextool.py:389-474 | refines map removal; refused exactly for a negative bound or a non-empty range outside the address space, and then nothing changes |
| SparseMemory.Memory.Cut | tools/hextool.py:430-474 | the loop over the ranges, splitting them in place |
| SparseMemory.Memory.MaxGap | tools/hextool.py:562-580 | the cached value is what recalculation gives |
| SparseMemory.Memory.NumBytes | tools/hextool.py:583-590 | the cached value is what recalculation gives |
| SparseMemory.Memory.Trim | tools/hextool.py:597-600 | no visible byte changes |
| SparseMemory.Memory.AddBytes | tools/hextool.py:489-491 | a write at the cursor, which moves past it |
| SparseMemory.Memory.AddMemory | tools/hextool.py:480-488 | succeeds exactly when every range fits and, unless allowed, meets nothing; the result is the old map overlaid with the other, and the cursor is behind the last range of the other |
| SparseMemory.Memory.MemoryRanges | tools/hextool.py:515-517 | the ranges in order, as values |
| MemorySizes.CountIsAddresses | tools/hextool.py:583-590 | the number of bytes that a memory gives is the number of addresses that hold one |
| MemorySizes.GapIsLargest | tools/hextool.py:562-580 | the largest gap is the longest free stretch between two neighbouring ranges, and 0 where there are no two |
| SparseMemory.CursorKept | tools/hextool.py:479-487 | contrary to the comment, adding a memory leaves the cursor where it is if and only if there is nothing to add or its last range ends at the cursor |
| HexFormat.ChecksumVerifies | tools/hextool.py:622-626 | a record with its checksum sums to zero modulo 256 |
| HexFormat.ChecksumValue | tools/hextool.py:622-626 | the complement and increment give the negated sum modulo 256 |
| HexFormat.BytesRoundTrip | tools/hextool.py:633-648 | printed bytes are read back |
| HexFormat.LineRoundTrip | tools/hextool.py:628-686 | a printed line before more text is read as that line, if it is at most 256 characters long |
| HexFormat.ByteOfTwo | tools/hextool.py:638-643 | two characters are taken for a byte if and only if both are digits, or one is a digit behind white space or a plus sign or before white space, or they are a minus sign and a zero; and for which byte |
| HexFormat.ByteOfOne | tools/hextool.py:638-643 | a single character is taken for a byte if and only if it is a digit |
| HexFormat.PaddedRecord | tools/hextool.py:628-686 | every record is read the same when the leading zeros of its bytes are replaced by spaces, other white space or plus signs |
| HexFormat.StrayText | tools/hextool.py:631-632 | a line without a colon is noticed exactly when a record follows it: the error is returned, not raised |
| HexRecords.RecordRead | tools/hextool.py:650-686 | what a sound record of any type is read as: data at base or address plus offset, the end, a segment times 16, an upper half times 65536, nothing for start addresses, else refused |
| HexRecords.SegmentsLoad | tools/hextool.py:668-672 | a range below 1 MB whose data records each stand behind an Extended Segment Address record is loaded to its addresses |
| HexRecords.SegmentExact | tools/hextool.py:656-672 | a segment and an address in it give their sum if and only if they have no bit in common |
| HexRecords.StartsIgnored | tools/hextool.py:678-681 | Start Segment Address and Start Linear Address records change nothing |
| HexRecords.EndIsEnd | tools/hextool.py:665-667 | what stands behind the End Of File record is not read |
| HexRecords.OthersFail | tools/hextool.py:668-684 | records of other types, and address records of another length, are refused |
| HexRecords.OffsetMoves | tools/hextool.py:656-660 | with a greater offset the same text loads the same map moved up, in an address space that is as much greater |
| HexRecords.AnyLineEnd | tools/hextool.py:788-827 | lines may end with a line feed, a carriage return or both |
| HexFormat.RecordLength | tools/hextool.py:709-748 | a data record has at least one byte, at most the length asked for, and ends in its block of 64 kB |
| HexFiles.FileRecordsSound | tools/hextool.py:709-748 | every record written is as long as it says, verifies, and crosses no 64 kB boundary |
| HexFormat.LoadRange | tools/hextool.py:709-748 | loading the records of a range stores exactly its bytes |
| HexFormat.LoadConcat | tools/hextool.py:788-827 | loading records one after the other composes |
| HexFiles.FileRoundTrip | tools/hextool.py:788-926 | for every record length from 1 to 255 a saved file loads as the map that was saved if and only if the length is at most 122 or no range has more than 122 bytes in one block of 64 kB; else it is refused |
| HexFiles.FileFits | tools/hextool.py:709-748 | all lines of a saved file fit the reader if and only if that is so |
| HexFiles.LongLine | tools/hextool.py:628-686 | a record too long for its line makes loading fail when another record follows: its count or its checksum does not match what is left of it, or the rest of its line is met |
| HexFormat.ToMapInjective | tools/hextool.py:178-206 | equal maps come from equal range lists |
| HexFormat.ToMapOverwritten | tools/hextool.py:261-387 | overwriting a range list is overriding its map |
| IntelHex.WriteDataRecord | tools/hextool.py:709-748 | one data record is written; the next address is behind it |
| IntelHex.WriteMemoryRangeRecords | tools/hextool.py:709-748 | the records of one range, address records where a new block begins |
| IntelHex.SaveIntelHex | tools/hextool.py:889-926 | the text is the lines of the records of all ranges and the end record |
| IntelHex.ParseIntelHexRecord | tools/hextool.py:628-686 | one line has the effect of its record on the map, or stops where the code raises |
| IntelHex.LoadIntelHex | tools/hextool.py:788-827 | loading a text gives the map that its records describe, or fails as they do |
| IntelHex.RoundTrip | tools/hextool.py:28-28 | any memory below 2^32, saved with a record length of 1 to 255 and loaded, comes back as the identical list of ranges, or is refused, exactly under that condition |
| IntelHex.SaveAndLoad | tools/hextool.py:788-926 | the same about the two methods one after the other, the file in between |
| ControlNodeRuns.CalledExactlyOnce | libraries/control_node/control_node.c:197-365 | in every run, whatever the order of callbacks and timers: the promise to each accepted callback holds all along if and only if no callback is forgotten; then busy implies the reset task is pending, and once idle every accepted callback has been called exactly once |
| ControlNodeRuns.AllOnceStep | libraries/control_node/control_node.c:197-365 | a step keeps the obligation if and only if it does not forget a callback |
| ControlNodeRuns.Forgotten | libraries/control_node/control_node.c:197-230 | a callback brought by a send from inside the reset is accepted but lost |
| ControlNodeRuns.ReachForgotten | libraries/control_node/control_node.c:197-230 | a run from the initial state that ends idle although an accepted callback has not been called |
| ControlNodeRuns.OnlyAcceptedCalled | libraries/control_node/control_node.c:236-269 | in every run each callback called belongs to a send that returned OK, if and only if the backup task never finds the library idle, a callback still kept and both routes done |
| ControlNodeRuns.RightfulStep | libraries/control_node/control_node.c:197-365 | the step of that result |
| ControlNodeRuns.UnowedIsLate | libraries/control_node/control_node.c:236-365 | which it does only after a sent callback for another address while the backup task is pending |
| ControlNodeRuns.RefusedCalled | libraries/control_node/control_node.c:617-646 | a run from the initial state in which the callback is called of a send that returned an error |
| ControlNodeRuns.ToldStep | libraries/control_node/control_node.c:197-365 | a step tells the user of a success if and only if a sent callback reports it while the library is busy and keeps the callback; of a failure if and only if the last route left has failed or the time is over |
| ControlNodeRuns.SuccessIsTrue | libraries/control_node/control_node.c:336-358 | in every run the user is told that a send has succeeded if and only if such a sent callback has come |
| ControlNodeRuns.MistakenSuccess | libraries/control_node/control_node.c:277-358 | a run from the initial state in which that sent callback is a late one of an earlier send |
| ControlNodeRuns.HandsStep | libraries/control_node/control_node.c:236-365 | in each step packets are handed over to these addresses with these data and to no others: the primary, at once the backup if refused, the backup after a failure or a timeout |
| ControlNodeRuns.GuardedStep | libraries/control_node/control_node.c:579-679 | the reset task is pending exactly while busy |
| ControlNodeRuns.AtMostTwoPackets | libraries/control_node/control_node.c:236-365 | all through a run packets and backup task are as expected if and only if no sent callback for another address comes while the backup task is pending; then each send hands over at most two packets with its data, and a pending backup task implies busy, backup unsent, primary unfinished |
| ControlNodeRuns.EconomicalStep | libraries/control_node/control_node.c:277-365 | a step keeps that if and only if the sent callback names an address of the send or no backup is pending |
| ControlNodeRuns.ThreePackets | libraries/control_node/control_node.c:277-365 | without that proviso there is a run from the initial state, with sent callbacks only for addresses that packets were handed to, in which one send hands over three packets |
| ControlNodeRuns.StrayStep | libraries/control_node/control_node.c:236-365 | a step hands over a packet for address 0 if and only if there is no router at all, or the sent callback of the primary reports a failure, or the backup task runs, and there is no backup route |
| ControlNodeState.RouterUnique | libraries/control_node/control_node.c:116-192 | the choice of a router is determined |
| ControlNodeState.BackupDiffers | libraries/control_node/control_node.c:608-612 | the backup differs from the primary or there is none; without primary there is no backup |
| ControlNode.GetDaRouterAddress | libraries/control_node/control_node.c:116-192 | the loop with running maxima finds the best-RSSI recent capable router, else the best one at all, else none |
| ControlNodeSends.RouterFound | libraries/control_node/control_node.c:106-192 | if any capable neighbour but the excluded one is heard better than -128 dBm one is chosen, and it comes before every other by having been heard within 60 seconds, then by its RSSI, then by its place in the list; otherwise the address is 0 |
| ControlNodeSends.SendAnswered | libraries/control_node/control_node.c:579-679 | each return code if and only if its cause; OK if and only if the library is busy with the send afterwards, and a refusal by the checks leaves everything as it was |
| ControlNodeSends.SendTimed | libraries/control_node/control_node.c:650-666 | the reset comes after twice the time to live in 32 bits, the backup route after half of it and only if it is there and unused |
| ControlNodeSends.SendDecided | libraries/control_node/control_node.c:277-365 | the primary decides if its packet arrives, else the packet is handed over once more and a backup route that takes it decides; the callback is called once, with that outcome, and the library is free |
| ControlNodeSends.SpareDecided | libraries/control_node/control_node.c:236-365 | with the backup sent by its timer, the callback tells success if either packet arrives, as soon as it does, and failure only when neither has; the library is free when both routes have answered |
| ControlNodeSends.SendGivenUp | libraries/control_node/control_node.c:197-230 | after the reset nothing is pending, a callback not called yet has been told a failure, and late sent callbacks change nothing |
| ControlNode.Library.TrySend | libraries/control_node/control_node.c:620-648 | who gets the packet, at once the backup where the primary is refused |
| ControlNode.Library.StartTimers | libraries/control_node/control_node.c:650-678 | the reset timer always, the backup timer only with an unused backup |
| ControlNode.Library.Transmit | libraries/control_node/control_node.c:605-679 | an accepted send is its transition |
| ControlNode.Library.SendPacket | libraries/control_node/control_node.c:579-679 | the checks in order, then the transition; the routes are the best and the best but that |
| ControlNode.Library.ResetFire | libraries/control_node/control_node.c:197-230 | one step, also when the callback sends again |
| ControlNode.Library.BackupFire | libraries/control_node/control_node.c:236-269 | one step |
| ControlNode.Library.PacketSentCb | libraries/control_node/control_node.c:277-365 | one step |
| SlList.Head.Init | util/sl_list.c:12-17 | an empty list; the chain, `last` and `size` stay right |
| SlList.Head.PushBack | util/sl_list.c:25-44 | the sequence grows at the end; the chain, `last` and `size` stay right |
| SlList.Head.PushFront | util/sl_list.c:47-56 | the sequence grows at the front; the chain, `last` and `size` stay right |
| SlList.Head.PushBefore | util/sl_list.c:59-76 | the element is inserted before the member; the chain, `last` and `size` stay right |
| SlList.Head.PopBack | util/sl_list.c:78-113 | the last element is taken, its link cleared; null when empty; the chain, `last` and `size` stay right |
| SlList.Head.PopFront | util/sl_list.c:115-137 | the first element is taken, its link cleared; null when empty; the chain, `last` and `size` stay right |
| SlList.Head.Pop | util/sl_list.c:139-145 | a member is taken out, anything else changes nothing; the link of the element is cleared either way; the chain, `last` and `size` stay right |
| SlList.Head.Remove | util/sl_list.c:147-184 | a member is taken out, anything else changes nothing; the element is returned, its own link as it was; the chain, `last` and `size` stay right |
| SlList.Head.ElementAt | util/sl_list.c:186-197 | the element at the index, null outside; the chain, `last` and `size` stay right |
| SlList.Head.Contains | util/sl_list.c:199-211 | membership; the chain, `last` and `size` stay right |
| SlList.Head.Search | util/sl_list.c:213-226 | the first match after the start, or null when none matches; the chain, `last` and `size` stay right |
| SlList.Head.Swap | util/sl_list.c:228-235 | the two sequences are exchanged; the chain, `last` and `size` stay right |
| SlList.Acyclic | util/sl_list.c:19-22 | following the links of a chain never comes back to an element |
| SlList.ChainedInsert | util/sl_list.c:59-76 | relinking two pointers inserts into the chain |
| SlList.ChainedRemove | util/sl_list.c:147-184 | relinking one pointer removes from the chain |
| Tlv.RoundTrip | util/tlv.c:25-118 | encoded items decode to the same items, then the end, if and only if the last is not a zero-length item with a one-byte type |
| Tlv.DecodeEncoded | util/tlv.c:25-79 | an item in the middle of a buffer is read back unless fewer than three bytes are left |
| Tlv.DecodeInside | util/tlv.c:25-79 | on any buffer every accepted item lies inside and success advances by at least two |
| Tlv.ReadIsWritten | util/tlv.c:25-79 | what is found is laid out in one of the two forms, with the type low byte first; it is what the writer would write unless a type of one byte takes the long form |
| Tlv.Record.Init | util/tlv.c:18-23 | the position is zero |
| Tlv.Record.GetNextItem | util/tlv.c:25-79 | what decoding at the position says, and the position after it, on any buffer |
| Tlv.Record.AddItem | util/tlv.c:81-118 | succeeds exactly when the item is encodable and fits; its bytes follow those written, the rest of the buffer is unchanged |
| Tlv.WriteAndRead | util/tlv.c:18-118 | a buffer written item by item and read to the end |
| Crc.CrcConcat | tools/genscratchpad.py:376-379 | over pieces one after the other the CRC is that of the whole |
| Crc.LutIsFolded | util/crc.c:10-46 | every table entry is eight division steps on its index |
| Crc.StepsXor | util/crc.c:48-53 | division is linear over exclusive or |
| Crc.AddBitsFolded | util/crc.c:48-53 | a byte leaves the register as one table entry folded in |
| Crc.ShiftFormsDivide | util/crc.c:94-102 | the legacy shift form and the Python form equal eight steps of bit-by-bit division by 0x1021, for every register and byte |
| Crc.AddByte | util/crc.c:48-53 | the table form equals the division |
| Crc.AddByteLegacy | util/crc.c:94-102 | the shift form equals the division |
| Crc.ResidueIsZero | util/crc.c:55-65 | a text followed by two bytes has the CRC zero if and only if they are its CRC, high byte first |
| Crc.StartsSet | util/crc.c:55-57 | the register starts with all bits set: two bytes of set bits clear it |
| Crc.FromBuffer | util/crc.c:55-65 | the CRC of a buffer |
| Crc.FromBufferLegacy | util/crc.c:104-112 | the same CRC |
| Crc.FromBuffer32 | util/crc.c:67-85 | the CRC of the words as little-endian bytes |
| Crc.FromBuffer32Legacy | util/crc.c:114-127 | the same CRC |
| Crc.Crc16Ccitt | tools/scratchpadinfo.py:39-52 | the same CRC, from any start value |
| Persistent.Storage.Write | libraries/app_persistent/app_persistent.c:139-222 | refused exactly when not initialized or too large; a completed write leaves exactly the written state, which reads back if it fits what is erased; cut at any point, for any data and any sector size, the flash is as it was, or without a valid magic word, or has all the data behind it |
| Persistent.NoMixture | libraries/app_persistent/app_persistent.c:103-222 | so a reader finds the old data, no valid content, or the new data, if data and magic word fit what is erased |
| Persistent.Storage.Read | libraries/app_persistent/app_persistent.c:103-137 | content exactly when the magic word is there and the data lies inside the area; a size above the room left, which wraps for small areas, is too big |
| Persistent.UsableWraps | libraries/app_persistent/app_persistent.c:96-96 | the room left by the magic word wraps if and only if the area is smaller than that |
| Persistent.Storage.Init | libraries/app_persistent/app_persistent.c:77-101 | initialized exactly when the area exists |
| Persistent.Flash.Erase | libraries/app_persistent/app_persistent.c:158-175 | the first sectors are erased in ascending order: all of them when done, none when refused, some when cut |
| Persistent.Flash.Write | libraries/app_persistent/app_persistent.c:177-219 | a completed write clears bits; a cut one changes nothing outside its place |
| Persistent.OnlyClears | libraries/app_persistent/app_persistent.c:177-219 | a write sets no bit, and clears those that are clear in what is written |
| Persistent.ReadBack | libraries/app_persistent/app_persistent.c:139-222 | data and magic word inside what is erased read back, whatever was there before |
| Persistent.NotReadBack | libraries/app_persistent/app_persistent.c:158-158 | otherwise some data over some old contents does not: the block count leaves the magic word out |
| Persistent.WipedMagic | libraries/app_persistent/app_persistent.c:158-175 | after the first sector no magic word is left |
| Persistent.KeepsData | libraries/app_persistent/app_persistent.c:201-219 | while the magic word is written the data stays |
| ScratchpadFormat.ImageRoundTrip | tools/scratchpadinfo.py:141-268 | the image of any non-empty list of files within the limit is accepted by length and CRC and gives back ids, versions and padded data |
| ScratchpadFormat.HeaderRoundTrip | tools/scratchpadinfo.py:141-181 | the header is accepted and its fields come back |
| ScratchpadFormat.FilesRoundTrip | tools/scratchpadinfo.py:228-268 | all files come back from behind any prefix |
| ScratchpadFormat.EmptyRefused | tools/scratchpadinfo.py:198-214 | without files the reader refuses the image as too short |
| ScratchpadReading.FilesReadExactly | tools/scratchpadinfo.py:228-268 | any bytes are read as a list of files if and only if they are the bytes those files are stored as |
| ScratchpadReading.SecureReadExactly | tools/scratchpadinfo.py:198-214 | the code and the counter block are read if and only if they are the first 32 bytes |
| ScratchpadReading.HeaderReadExactly | tools/scratchpadinfo.py:141-181 | any bytes are read as a header if and only if they are the tag, its fields packed low byte first, and data of the length and CRC named |
| ScratchpadFormat.BodySnoc | tools/genscratchpad.py:391-401 | appending a file appends its piece |
| ScratchpadFormat.CryptTwice | tools/scratchpadinfo.py:339-361 | keystream from a position undoes itself |
| ScratchpadFormat.DecryptedSnoc | tools/scratchpadinfo.py:339-361 | a file that continues the keystream is decrypted after the others |
| ScratchpadFormat.CryptIsCtr | tools/genscratchpad.py:292-316 | from a block boundary on the cipher is counter mode, the counter moved on |
| ScratchpadFormat.FilesAreCtr | tools/scratchpadinfo.py:339-361 | the data of all files is the counter mode encryption of all texts from the initial counter, and the other way round |
| Scratchpad.Writer.Encrypted | tools/genscratchpad.py:269-273 | so it is for whatever has been appended to a writer |
| ScratchpadFormat.CryptJoin | tools/genscratchpad.py:292-316 | one running keystream: two calls one after the other are one call on the texts put together |
| ScratchpadFormat.DecryptedWhole | tools/scratchpadinfo.py:339-361 | decrypting file by file with the running keystream is decrypting the data of all files in one piece |
| Scratchpad.InFile.Compress | tools/genscratchpad.py:102-131 | once only; padded to whole blocks, the header made anew |
| Scratchpad.InFile.Encrypt | tools/genscratchpad.py:133-142 | once only; the keystream goes on by the length of the data |
| Scratchpad.Padded | tools/genscratchpad.py:113-127 | the least number of whole blocks, the data first |
| Scratchpad.Writer.Append | tools/genscratchpad.py:269-273 | the file is stored and its text is what decryption will give |
| Scratchpad.Writer.CalculateCmac | tools/genscratchpad.py:318-333 | the code covers counter block and files |
| Scratchpad.Writer.MakeHeader | tools/genscratchpad.py:335-389 | length and CRC of everything behind the header; none exactly when it cannot be packed |
| Scratchpad.Writer.GetOtap | tools/genscratchpad.py:391-401 | the image of the files appended |
| Scratchpad.ReadFiles | tools/scratchpadinfo.py:228-268 | the loop over positions gives the files or the error of the format |
| Scratchpad.Decrypt | tools/scratchpadinfo.py:339-361 | one cipher runs through all files in order |
| Scratchpad.WriteAndRead | tools/scratchpadinfo.py:141-361 | written, parsed and decrypted, every file has its text back |
| BootloaderConfig.CheckConfig | tools/bootloader_config.py:340-364 | passes exactly the configurations with 1 to 8 areas, the mandatory ones, an internal application, 1 to 28 keys, and no two areas that overlap |
| BootloaderConfig.CheckAreas | tools/bootloader_config.py:275-299 | the part of that about the kinds of areas |
| BootloaderConfig.OverlapExact | tools/bootloader_config.py:311-338 | the overlap check is symmetric and, for areas that are not empty, true exactly when they share an address of the same flash |
| BootloaderConfig.NoOverlapDisjoint | tools/bootloader_config.py:311-338 | areas that pass share no address, whatever their lengths |
| BootloaderConfig.FromSection | tools/bootloader_config.py:102-124 | an area that is made has valid flags, a known type and, for the bootloader, settings and neither flag |
| BootloaderConfig.SectionRoundTrip | tools/bootloader_config.py:366-406 | the word stored for an area is the low five bits it was made from and makes the same area again; a section is refused if and only if its type is unknown, or it is a bootloader with flags or without settings |
| FlashImage.Generate | tools/genhex.py:301-334 | with a checked configuration and suitable bootloader and files nothing is raised, and every address of the image has the byte it should have |
| FlashImage.PiecesMakeImage | tools/genhex.py:170-206 | each file area reads as file bytes overlaid with its header where flagged, the bootloader area as the prepared bootloader, the rest as nothing |
| FlashImage.NothingRefused | tools/genhex.py:180-204 | with suitable files no file is refused and no write meets another |
| FlashImage.Flashable.GetHex | tools/genhex.py:170-206 | gives an image if and only if every file has an area and fits all of them, every header can be packed, and every write lands on free addresses (headers may overwrite); the image is the bootloader with all that written over it |
| FlashImage.Flashable.PlaceFile | tools/genhex.py:180-204 | one file: into every area with its id, of which there has to be one |
| FlashImage.Flashable.PlaceInArea | tools/genhex.py:184-201 | file bytes at the start of the area |
| FlashImage.Flashable.PlaceHeader | tools/genhex.py:193-199 | the header over them, overlap allowed for it only |
| FlashImage.GenBootloader | tools/genhex.py:116-168 | succeeds if and only if the bootloader is not empty and starts inside its area, the settings lie in the address space, all areas can be packed and areas and keys fit; the settings are replaced by the two tables, all else is kept |
| FlashImage.AddAreas | tools/genhex.py:146-150 | the table of areas, where there is room for it |
| FlashImage.AddKeys | tools/genhex.py:159-162 | the table of keys, where there is room for it |
| FlashReading.SettingsMade | tools/genhex.py:116-168 | in an image of a checked configuration the 1024 bytes of the settings, from the address and offset of the section on, hold the two tables and nothing else |
| FlashReading.TablesStored | tools/genhex.py:140-162 | the areas from the start, the keys from 128 bytes on |
| FlashReading.AreaIn | tools/genhex.py:146-150 | every area is read from its 16 bytes: address, length, id, flags and type |
| FlashReading.KeyIn | tools/genhex.py:159-162 | every pair of keys is read from its 32 bytes, the one for authentication first |
| FlashReading.RestKept | tools/genhex.py:133-137 | around the settings the bootloader is as it was loaded |
| FlashReading.HeaderRead | tools/genhex.py:93-114 | where flag 1 of its area is set the header of a file is read at 16 bytes: no scratchpad, id, version, recorded size |
| FlashReading.FileRead | tools/genhex.py:184-199 | everywhere else in its area a file is read byte by byte |
| FlashReading.BitsRead | tools/bootloader_config.py:86-124 | which words make an area, and what their bits say: bit 0 a header, bit 1 external flash, bits 2 to 4 the type |
| FlashPieces.TableRoundTrip | tools/genhex.py:147-150 | reading the table gives back address, length, id, flags and type of every area |
| FlashPieces.KeyInTable | tools/genhex.py:160-162 | every key pair is at its place |
| FlashPieces.WrittenSizeRounds | tools/genhex.py:107-110 | the recorded size is the data rounded up to whole erase blocks if and only if it is not a whole number of them already |
| FlashPieces.Add | tools/genhex.py:191-191 | a write goes through exactly when the piece lands on free addresses, or may overwrite |
| FlashLayout.PiecesLand | tools/genhex.py:180-204 | under a checked configuration every piece lands, and the image is that of the specification at every address |
| FlashLayout.ImageOfFile | tools/genhex.py:180-204 | every file decides all addresses of its area, whatever files come before or after it |
| FlashLayout.SuitsAccepted | tools/genhex.py:187-204 | a suitable file is refused for nothing |
| Bytes.XorCancel | util/aessw.c:192-192 | exclusive or with the same value undoes itself |
| Bytes.XorSplit | util/crc.c:48-53 | exclusive or works on high and low bits apart |
| Bytes.OrIsSum | tools/hextool.py:656-656 | inclusive or is a sum if and only if no bit is set in both |
| Bytes.LeValOfBytes | tools/genscratchpad.py:213-243 | little-endian packing is undone by unpacking |
| Bytes.BeValOfBytes | tools/hextool.py:688-707 | big-endian packing is undone by unpacking |

## Left out

- Foreign code: the AES block function, zlib, the CMAC library of the Python tools, tinycbor and
  random numbers are arbitrary functions or arguments; CBOR is an arbitrary reader from bytes to
  entries.
- Scheduler-refusal branches of the state machines: adding an entry is taken to succeed.
- `sort_provisioning_beacons`: the choice among received beacons is arbitrary, since the code does
  not compute the filter it describes.
- The numeric range check when integers are extracted from CBOR: extraction is a partial function.
- Provisioning.Library.Init: parameter checks and a second initialization.
- Provisioning.Library.ProcessPacket: not for data packets shorter than their headers, for which
  the C code reads past its buffer; `ShortPacketWraps` has the lengths.
- Provisioning.Library.JudgePacket: the same.
- Provisioning.Library.StateWaitData: the same.
- Provisioning.Library.RunStateMachine: the same.
- Other reentrant callbacks than a start from inside the end callback (provisioning) and a send from
  inside the reset callback (control node).
- The list's `size` is not cut to 32 bits.
- Acknowledgements, diagnostics and transmission delays of the control node.
- Type checks of Python arguments, default slice bounds, single-byte indexing, steps, the iterator
  of `Memory`, and `load_binary`/`save_binary`.
- SparseMemory.Memory.AddMemory: takes the ranges of the other memory as values, so adding a memory
  to itself is not covered.
- SparseMemory.MemoryRange.Extend: the size reserved for growth is arbitrary, since it does not show.
- IntelHex.SaveIntelHex: not for record lengths of 0, for which the code does not end, or above 255,
  for which it raises when a record has that many bytes.
- IntelHex.ParseIntelHexRecord: digits outside ASCII, which Python takes for digits as well.
- Aes.AesStream.Crypto128Ctr: input and output are the same position of one array or two arrays, not
  different positions of one array.
- Scratchpad.Cipher.Crypt: the little-endian platform only; the big-endian counter is not modelled.
- Scratchpad.Decrypt: up to decompression, which is zlib's.
- FlashImage.Generate: areas come from sections, so that a bootloader area has settings; one area
  for each file. `Flashable.GetHex` says when an image is built from any files and areas.
- Argument and ini parsing, file input and output, logging, board support, drivers, the bootloader
  and stack interfaces, `local_provisioning.c`, ring and double buffers: plumbing, hardware access or
  easy members.
