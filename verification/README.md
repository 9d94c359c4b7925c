# nikobus-connect, modelled and proved

`nikobus-connect` drives a Nikobus home-automation bus. This project models the parts of it whose
correctness is not visible in any one function, and proves what they promise:

- **the command handler** (`CommandState`, `CommandRuns`, `CommandChannels`, `CommandSafety`,
  `CommandReads`, `CommandAnswers`, `CommandOrder`, `CommandCorners`, `CommandHandler`): callers, the host and one queue worker share a
  buffer of twelve output bytes per module. Each stretch of code between two awaits is one event; the
  gateway, the module, wall keys and the clock are events too. Runs are arbitrary sequences of enabled
  events. The class `NikobusCommandHandler` holds the tables, and each of its methods is proved against
  the value-level function the runs are made of;
- **answer selection** (`AnswerWait`): which message of a mixed stream an exchange takes;
- **checksums and frames** (`Bits`, `Crc`, `CrcRemainder`, `ModuleImage`, `Hex`, `Framing`): a CRC-16
  kept in an unbounded integer, its algebra, both CRCs as polynomial remainders, CRC prediction over a module image, error detection on the bus hop,
  and framing of a character stream;
- **link tables** (`LinkTables`, `Blocks`, `AudioTable`, `PcLogicTable`): six- and eight-byte records
  that straddle registers, read back by scans that stop early or extend themselves;
- **addresses** (`Addresses`): several derivations of a key's frame;
- **the button store** (`LinkBlocks`, `LinkStore`, `LinkMerge`, `LinkRebuild`, `LinkContents`,
  `ButtonPlates`, `KeyResolver`, `FrameSpelling`): merging, mirroring, rebuilding and resolving link records, filed by
  the plate's address or by the key's frame;
- **key presses** (`PressState`, `PressTracker`): holds and releases inferred from frames.

`Wrappers` and `Modules` hold the shared option and result types and the module families.

Where the code and its documentation disagree the code is modelled: the CRC-16 is labelled ANSI X3.28
but uses the polynomial 0x1021 with start value 0xFFFF, the generator of ITU-T V.41, section 2
(`CrcRemainder.Crc16IsRemainder`); the CRC-8 is labelled ATM but uses 0x99, not the ATM header's 0x07
(`CrcRemainder.Crc8IsRemainder`).

Seven promises hold only under a condition the code does not check; each is stated with it:

- a group write can switch an output back: after a *failed* write of the group
  (`CommandCorners.FailedWriteIsSentAgain`), when a wall key is pressed between a frame's delivery and
  its acknowledgement (`CommandCorners.WallChangeDuringExchangeIsUndone`), when the host applies an
  answer of the group before a frame arrives (`CommandCorners.AnswerDuringExchangeIsSentAgain`), and
  within three seconds of a wall change (`CommandCorners.RecentWallChangeIsUndone`); without these it
  does not (`CommandSafety.NeverUndoesWallChange`), and exactly when it does is
  `CommandSafety.UncoveredByteExactly`;
- rebuilding one module's links leaves another's alone exactly when those were mirrored already
  (`LinkRebuild.RebuildLeavesOthers`, and `LinkRebuild.RebuildChangesUnmirrored` for a store where it
  does not);
- a corrupted bus frame passes the check exactly as the all-F trailer (`Framing.BusHopErrorCaught`, and
  `Framing.AllFTrailerPasses` for a frame that does);
- a module with more links than its layout holds reads back only those that fit
  (`LinkTables.ImageRoundTrip`);
- CRC prediction is made for the changed image exactly when every changed byte is held an odd number of
  times (`ModuleImage.PredictionIsExact`, and `ModuleImage.OverlapBreaksPrediction` where one is not);
- a link record is resolved to a key that sends the frame its module listens for exactly when the
  stored addresses allow it (`FrameSpelling.ScannedFiledExactly`): an eight-key button also claims each
  frame after its own, so one stored before the plate 0x200000 above takes that plate's records
  (`FrameSpelling.AliasMisfiles`);
- a two-button plate in the right-pair layout does not send what a record of index 1 or 3 means, which
  is so exactly when its records also use an index other than 1 and 3. A scanned record is then dropped
  or filed on another plate (`FrameSpelling.TwoButtonScannedExactly`, `HighFrameFate`,
  `MixedScannedDropped`, `MixedScannedMisfiled`), a controller's copy, filed by the plate's address, on
  the plate's wrong key (`KeyResolver.TwoButtonRecordAgreement`, `KeyResolver.MixedIndicesMiss`).

## Model

| member | source | states |
|---|---|---|
| `CommandSafety.LastWriteWins` | `nikobus_connect/command.py:170-192` | in every run (any interleaving of requests, host reads, caller time-outs and worker steps) whose writes succeed and in which no wall key is pressed, an empty queue and idle worker mean each requested channel of the module holds the last value asked for |
| `CommandSafety.QueueEmptyHoldsWanted` | `nikobus_connect/command.py:435-492` | the same with failed writes and wall keys allowed: at rest a channel holds the last value asked for, unless a failed write lost it or a wall key overtook it after delivery |
| `CommandSafety.RunOwes` | `nikobus_connect/command.py:275-310` | invariant of every run: the owed value waits in the joinable item, or is being written with the frame carrying it, or stands in module, buffer and any frame under way, also when an older in-flight write is laid over a newer pending one |
| `CommandSafety.NeverUndoesWallChange` | `nikobus_connect/command.py:312-338` | in every run each byte of a built group frame that no outstanding request covers is the module's own output at that moment: after an answered read always, on recent state if in the last 3000 ms no wall key touched the channel, no write carrying it failed, and no exchange of its group was under way in which an answer was applied before the frame arrived or its wall key pressed after |
| `CommandSafety.RunStaysInStep` | `nikobus_connect/command.py:275-310` | invariant behind it, over every run: a settled, uncovered channel has equal buffer, frame and module bytes, and unless the exchange was crossed a delivered frame is what the module holds |
| `CommandSafety.RecentOrDisturbed` | `nikobus_connect/command.py:270-310` | a group that counts as recent is settled on the channel, or trouble at or after that moment is named |
| `CommandSafety.StepRefreshes` | `nikobus_connect/command.py:227-228` | which events make a group's state recent, and that all others leave its clock alone |
| `CommandSafety.UncrossedNeverUndoes` | `nikobus_connect/command.py:312-338` | the same in runs where no answer of the group is applied before its frame arrives and no wall key pressed after: only a wall key on the channel and a failed write that carried it, in the last 3000 ms, are excepted |
| `CommandSafety.UncoveredByteExactly` | `nikobus_connect/command.py:182-192` | in every run, whatever fails or interferes, a byte of a built frame that no outstanding request covers is the last the handler was asked or shown for its channel, and is the module's own output if and only if the read before the frame answered or the module still drives that |
| `CommandSafety.ReadsBeforeWriting` | `nikobus_connect/command.py:312-338` | the worker reads a group before it writes it exactly when its state is unknown or older than 3000 ms, and else sends at once |
| `CommandAnswers.StepFinishesExactly` | `nikobus_connect/command.py:211-258` | what every event does to every caller's future: a finished one keeps its outcome; an open reader of the group gets the bytes the module drives at an answered read or feedback, a failure at a failed read; an open view and the shared future of the write in flight get its acknowledgement or its failure; a caller giving up gets its cancellation; and no other future is finished |
| `CommandAnswers.OutcomeExactly` | `nikobus_connect/command.py:211-258` | over whole runs: a future is finished exactly when some event had such an outcome for it, and with the first one |
| `CommandAnswers.FinishedOnce` | `nikobus_connect/command.py:494-520` | a finished future never changes |
| `CommandAnswers.ResolveClock` | `nikobus_connect/command.py:211-232` | handing out a state makes its group recent exactly with six bytes or more |
| `CommandAnswers.ReaderWaits` | `nikobus_connect/command.py:347-424` | from the moment it asks a caller is listed under its group until its own future is finished, and meanwhile a read of the group is queued or in flight |
| `CommandAnswers.ReaderIsNew` | `nikobus_connect/command.py:364-383` | the future a caller begins to wait with is open and nobody else's |
| `CommandAnswers.ViewFollowsRequest` | `nikobus_connect/command.py:426-492` | a request's view follows the write that now carries the requested value, and no other view moves |
| `CommandAnswers.ViewFollowsItsWrite` | `nikobus_connect/command.py:426-520` | over whole runs: it follows that write for good, and while it is open the write is queued or in flight |
| `CommandOrder.ServedInOrder` | `nikobus_connect/command.py:113-165` | in every run items leave the queue in the order they were asked for |
| `CommandOrder.PopBegins` | `nikobus_connect/command.py:134-165` | a write whose turn has come is always begun, a read exactly unless it and every caller of its group are done |
| `CommandCorners.FailedWriteIsSentAgain` | `nikobus_connect/command.py:451-457` | a concrete run without wall keys or pushed answers in which the value of a write that fails at once is sent again by the next write of another channel: the buffer keeps it and the group is still recent |
| `CommandCorners.WallChangeDuringExchangeIsUndone` | `nikobus_connect/command.py:227-228` | a concrete run with only successful exchanges in which a wall change between delivery and acknowledgement, more than three seconds old, is switched back |
| `CommandCorners.AnswerDuringExchangeIsSentAgain` | `nikobus_connect/command.py:275-345` | a concrete run without failed writes, its wall change more than three seconds old, in which an answer the host applies before a frame arrives is what the next frame carries over the module's newer output |
| `CommandCorners.RecentWallChangeIsUndone` | `nikobus_connect/command.py:312-338` | a concrete run in which nothing fails and nothing crosses an exchange, and a wall change less than three seconds old is switched back |
| `CommandRuns.StepKeepsBookkeeping` | `nikobus_connect/command.py:113-258` | every event keeps: queued items distinct and known, at most one joinable write per group and it is one that still waits, at most one write in flight whose channels are the ones being laid on top, nobody but the worker finishes a shared future |
| `CommandRuns.RunKeepsBookkeeping` | `nikobus_connect/command.py:113-258` | that bookkeeping holds in every state of every run |
| `CommandChannels.StepMovesChannel` | `nikobus_connect/command.py:261-345` | refinement: every event of the whole handler, gateway and module acts on each output channel as one move of a five-field machine, independent of all other channels |
| `CommandChannels.BuiltBytes` | `nikobus_connect/command.py:182-192` | a built frame carries its item's own writes over the buffer, and only channels of its group |
| `CommandChannels.AppliedByte` | `nikobus_connect/command.py:294-310` | after a host applies an answer a channel shows the value being written, else the one waiting, else the module's output; other groups are untouched |
| `CommandChannels.DeliverMoves` | `simulator/src/nikobus_simulator/module.py:84-86` | a delivered frame sets exactly the six outputs of its group |
| `CommandReads.NoLostWakeup` | `nikobus_connect/command.py:347-424` | in every state of every run each open reader of a group has a read of it queued or in flight, each dedup key is owned by a queued read of its own group, an open queued read owns its group's key, and two open reads of one group are never queued together |
| `CommandReads.StepForgetsNobody` | `nikobus_connect/command.py:583-610` | every event keeps that, including callers giving up their own key, feedback answering early and items skipped as stale; and each open view of a write follows a write that is queued or in flight |
| `CommandReads.NobodyWaitsAtRest` | `nikobus_connect/command.py:126-165` | with the queue empty and the worker idle no reader and no view of a write is open |
| `CommandReads.WorkerAdvances` | `nikobus_connect/command.py:113-165` | in every reachable state the worker has a next event whatever the bus answers, and each of its events lowers its remaining work |
| `CommandReads.WorkerDrains` | `nikobus_connect/command.py:113-258` | from every run the worker alone can reach an empty queue |
| `CommandHandler.NikobusCommandHandler.SetOutputState` | `nikobus_connect/command.py:426-492` | the whole new state: buffer written, the waiting request of the group joined or a new one queued, the caller's own view returned |
| `CommandHandler.NikobusCommandHandler.ApplyGroupState` | `nikobus_connect/command.py:275-310` | true exactly on six bytes or more; then buffer and clock as specified, the loops over waiting and in-flight writes proved to be two overlays |
| `CommandHandler.NikobusCommandHandler.ResolvePendingGet` | `nikobus_connect/command.py:400-417` | every open reader of the group answered, done ones left alone, the clock set on six bytes or more |
| `CommandHandler.NikobusCommandHandler.FinishShared` | `nikobus_connect/command.py:494-520` | the shared future and every view still open get the outcome; cancelled views keep theirs |
| `CommandHandler.NikobusCommandHandler.BeginGet` | `nikobus_connect/command.py:364-383` | reader listed, read queued unless one owns the group's key |
| `CommandHandler.NikobusCommandHandler.QueueRead` | `nikobus_connect/command.py:592-610` | dedup of reads by group key |
| `CommandHandler.NikobusCommandHandler.GiveUpGet` | `nikobus_connect/command.py:384-398` | future cancelled, key released only by its owner, reader removed |
| `CommandHandler.NikobusCommandHandler.TakeNext` | `nikobus_connect/command.py:134-165` | the next item skipped exactly when its future and all readers of its group are done, with its key or pending entry released, else begun |
| `CommandHandler.NikobusCommandHandler.CloseWindow` | `nikobus_connect/command.py:170-190` | joiners shut out, the writes recorded as in flight, a read first unless the group is recent |
| `CommandHandler.NikobusCommandHandler.AfterRead` | `nikobus_connect/command.py:324-338` | a good answer applied and handed to waiting readers, a failed or short one ignored, then the frame built |
| `CommandHandler.NikobusCommandHandler.BuildFrame` | `nikobus_connect/command.py:189-192` | item's writes applied again, the six group bytes taken from the buffer |
| `CommandHandler.NikobusCommandHandler.WriteDone` | `nikobus_connect/command.py:214-232` | an acknowledged write: future and views finished, clock set, in-flight entry gone |
| `CommandHandler.NikobusCommandHandler.WriteFailed` | `nikobus_connect/command.py:238-253` | a failed write: future and views failed, in-flight entry gone, buffer and clock kept |
| `CommandHandler.NikobusCommandHandler.ReadAnswered` | `nikobus_connect/command.py:211-222` | own caller first, then every other reader of the group, as specified by the function `CommandAnswers.StepFinishesExactly` is about: each open one is answered with the state read |
| `CommandHandler.NikobusCommandHandler.ReadFailed` | `nikobus_connect/command.py:238-245` | the error reaches every reader of the group |
| `AnswerWait.WaitForState` | `nikobus_connect/command.py:859-950` | for every message sequence the loop returns: for a state read the first full-length answer at or after our ack, failing that (if acked) the last earlier answer not of the module's other group, else nothing; for any other command the newest answer once both it and the ack are there |
| `AnswerWait.ChosenIsOurs` | `nikobus_connect/command.py:895-916` | whatever is returned was carried by a message of the sequence: at or after our ack with no full answer in between, or before it, not the other group's, with no full answer after the ack |
| `AnswerWait.GroupExactly` | `nikobus_connect/listener.py:300-323` | over everything the listener sees: its group of the module is another exactly when the module was last asked for another and the read's own answer has not come since |
| `AnswerWait.AnswerIsOurGroups` | `nikobus_connect/command.py:842-857` | the answer taken from what the listener sees is one at or after our ack with no full answer between, or an earlier one that did not come in another group's turn |
| `AnswerWait.LaterMessagesDoNotMatter` | `nikobus_connect/command.py:934-935` | once a full answer has followed the ack, later messages change nothing |
| `AnswerWait.StateFrameParses` | `nikobus_connect/command.py:952-965` | the twelve digits a state frame carries are the ones parsed out of it |
| `AnswerWait.StateReadExactly` | `nikobus_connect/command.py:859-950` | the result written out for a state read, by the positions of our ack and of the full answers: the first full answer at or after the ack, failing that the last earlier one not of another group, else nothing |
| `AnswerWait.OtherCommandTakes` | `nikobus_connect/command.py:918-950` | any other command: the newest answer once both it and the ack have come |
| `AnswerWait.OwnAnswerExactly` | `nikobus_connect/listener.py:300-323` | which message the listener counts as the read's own answer |
| `Crc.CalcCrc1` | `nikobus_connect/protocol.py:15-22` | the unmasked shifting loop computes the specified CRC-16; which CRC that is, `CrcRemainder.Crc16IsRemainder` says |
| `Crc.CalcCrc2` | `nikobus_connect/protocol.py:25-32` | the CRC-8 loop over a text |
| `Crc.UnboundedRegisterIsSixteenBit` | `nikobus_connect/protocol.py:15-22` | the register of unbounded width agrees with the masked sixteen-bit one at every length |
| `Crc.RegisterLinear` | `nikobus_connect/protocol.py:15-22` | the register is linear over GF(2) in start value and message together |
| `Crc.CrcAffine` | `nikobus_connect/api.py:103-134` | the CRC of a changed message follows from the old CRC and the change alone |
| `Crc.TakeByteInjective` | `nikobus_connect/protocol.py:15-22` | each byte step is injective in the register |
| `Crc.RegisterInjective` | `nikobus_connect/protocol.py:15-22` | so is a run of bytes: a difference in the register never dies out |
| `Crc.CrcDetectsAdjacentChange` | `nikobus_connect/listener.py:335-387` | changing one byte or two adjacent ones anywhere in a message changes its CRC-16 |
| `Crc.CrcDetectsLastByteChange` | `nikobus_connect/listener.py:335-387` | and so does changing the last byte |
| `CrcRemainder.Crc16IsRemainder` | `nikobus_connect/protocol.py:15-22` | the message shifted up sixteen bits, its first sixteen bits inverted, is a carry-less multiple of 0x11021 and the CRC-16, and no other sixteen-bit number is that remainder, at every length |
| `CrcRemainder.Crc8IsRemainder` | `nikobus_connect/protocol.py:25-32` | the text shifted up eight bits is a carry-less multiple of 0x199 and the CRC-8, and no other eight-bit number is |
| `CrcRemainder.CrcAnchors` | `nikobus_connect/protocol.py:15-32` | both CRCs of nothing, and the first step of the register |
| `ModuleImage.FindCoveredPosition` | `nikobus_connect/api.py:90-100` | position of an image byte in the covered bytes, over ranges with a gap |
| `ModuleImage.PredictModuleCrc` | `nikobus_connect/api.py:103-134` | the loop with its early exits against the specified prediction |
| `ModuleImage.PredictionOutcome` | `nikobus_connect/api.py:103-134` | when there is a prediction: exactly when the type has a layout, both maps hold the same offsets and all their entries agree in length and, except on a dimmer, lie within the image; else the first entry that does not tells no prediction from the index error |
| `ModuleImage.CrcCovers` | `nikobus_connect/api.py:55-67` | which bytes an image's CRC is over |
| `ModuleImage.PredictsMixedImage` | `nikobus_connect/api.py:103-134` | what is predicted in every case: the CRC of the old image with the bytes held an odd number of times taken from the new one |
| `ModuleImage.PredictionIsExact` | `nikobus_connect/api.py:103-134` | for any maps that report bytes of the old and the new image, overlapping or not: the prediction is made for the new image if and only if every changed byte the CRC covers is held an odd number of times, and then it is that image's CRC, on dimmers across the uncovered 0x7FA to 0x7FF |
| `ModuleImage.DisjointMapsPredict` | `nikobus_connect/api.py:103-134` | maps that hold each byte at most once and every changed one predict the new image's CRC |
| `ModuleImage.OverlapBreaksPrediction` | `nikobus_connect/api.py:103-134` | a byte held under two offsets cancels its own change: if it is the only one that changed, the prediction is the old CRC and the new image has another |
| `ModuleImage.ReadModuleMemory` | `nikobus_connect/api.py:594-626` | block reads joined, or the first error; what the bytes are, `ModuleImage.ImageIsReplies` says |
| `ModuleImage.ImageIsReplies` | `nikobus_connect/api.py:594-626` | an image is read exactly when the type has a layout and every block's reply has its full length; each byte is then the one of its block's reply behind the two bytes of the echo, and otherwise the first short or long reply is named |
| `ModuleImage.ReadModuleRange` | `nikobus_connect/api.py:628-650` | only the blocks that hold the range, cut to it; nothing for a range whose ends are crossed |
| `ModuleImage.RangeIsReplies` | `nikobus_connect/api.py:628-650` | the same for the bytes of a range, whatever its ends |
| `ModuleImage.RangeIsSlice` | `nikobus_connect/api.py:628-650` | a range read equals the slice of the full image |
| `ModuleImage.ReadModuleVolatile` | `nikobus_connect/api.py:652-661` | one entry per volatile range of the type |
| `ModuleImage.VolatileReadsPredictCrc` | `nikobus_connect/api.py:652-675` | two volatile reads and the old CRC predict the new CRC of a dimmer whose other bytes stood still |
| `Framing.ValidateCrc` | `nikobus_connect/listener.py:335-387` | the loop strips to the last frame marker, terminates, and accepts exactly a frame whose parts check |
| `Framing.PartsValid` | `nikobus_connect/listener.py:335-387` | exactly when head, payload and checksums pass: the length, the CRC-8, and on four kinds of frame the CRC-16 unless the payload is empty or all F |
| `Framing.ShortValid` | `nikobus_connect/listener.py:335-387` | the same for texts too short for a CRC-16; a five-character acknowledgement always passes |
| `Framing.LastFrameIs` | `nikobus_connect/listener.py:335-387` | what is checked is the text from its last marker on, or all of it when there are not two |
| `Framing.BuiltFrameValid` | `simulator/src/nikobus_simulator/gateway.py:60-68` | a gateway frame passes the listener's check if and only if its length fits the length byte |
| `Framing.CommandValid` | `nikobus_connect/protocol.py:45-53` | a command frame passes for every function, address and argument list, exactly up to 119 argument bytes; what it says, `Framing.CommandCarries` tells |
| `Framing.CommandCarries` | `nikobus_connect/protocol.py:45-53` | the bytes of a command frame are its function, the address low byte first and the arguments; an address over sixteen bits has no frame |
| `Framing.CommandsDiffer` | `nikobus_connect/protocol.py:45-53` | two different commands never share a frame |
| `Framing.ReplyRoundTrip` | `nikobus_connect/protocol.py:196-209` | the bytes that went into a frame come out of `reply_payload` |
| `Framing.BusHopErrorCaught` | `nikobus_connect/listener.py:335-387` | one or two adjacent bytes changed on the bus and the CRC-8 stamped anew: the frame is rejected, exactly except for the all-F trailer that carries no CRC-16 |
| `Framing.AllFTrailerPasses` | `nikobus_connect/listener.py:335-387` | an accepted frame, six bytes FF and one FE, whose last byte the bus turns into FF, and which still passes |
| `Framing.FrameBuffer.ExtractFrames` | `nikobus_connect/listener.py:175-189` | frames and kept residue of one read |
| `Framing.CuttingDoesNotMatter` | `nikobus_connect/listener.py:175-189` | however the character stream is cut into reads, frames and residue are those of the whole |
| `Framing.FramesRejoin` | `nikobus_connect/listener.py:175-189` | no character of a line is lost between its frames, every frame but the first begins with a `$` or `#`, and neither stands inside one |
| `Framing.CleanCharacter` | `nikobus_connect/listener.py:175-189` | two control characters are dropped, a line feed becomes a carriage return, every other character is kept |
| `Framing.LinesRejoin` | `nikobus_connect/listener.py:175-189` | the lines, each with its carriage return, and the residue are the text |
| `Framing.StripTrims` | `nikobus_connect/listener.py:175-189` | stripping a line removes its leading and trailing spaces, all of them and nothing else |
| `Framing.LineExtracted` | `nikobus_connect/listener.py:175-189` | a whole line read from the wire gives the line without the spaces around it, cut in front of each marker, and leaves nothing over |
| `Framing.FrameTravels` | `nikobus_connect/listener.py:175-189` | a frame on the wire comes out of the listener as that frame, passes its check and yields the module's bytes |
| `Bits.ReverseBits` | `nikobus_connect/protocol.py:69-75` | the reversing loop |
| `Bits.RevInvolution` | `nikobus_connect/discovery/protocol.py:488-493` | reversing twice gives the number back |
| `Bits.RevBits` | `nikobus_connect/protocol.py:69-75` | bit i of the reversal is bit width - 1 - i of the number |
| `Addresses.ConvertNikobusAddress` | `nikobus_connect/discovery/protocol.py:133-148` | the conversion loop; addresses over 24 bits raise |
| `Addresses.AddressLimits` | `simulator/src/nikobus_simulator/encoding.py:83-98` | addresses over 24 bits have no frame, over 22 bits no stored form, and all others have both |
| `Addresses.DerivationsAgree` | `nikobus_connect/protocol.py:86-153` | for 22-bit plates (even for eight keys) inventory frame, `nikobus_to_button_address`, `record_bus_address` and `get_push_button_address` agree, `nikobus_button_to_module` inverts them, and the sibling address gives the first row |
| `Addresses.KeyCodeBits` | `nikobus_connect/protocol.py:86-103` | the code of a key bit by bit: upper row, B or D, A or B |
| `Addresses.IndexIsKeyCode` | `nikobus_connect/discovery/mapping.py:693-708` | the index of a link record is the code of the key it names, and which indices there are |
| `Addresses.ConvertInvolution` | `nikobus_connect/discovery/protocol.py:133-148` | the conversion undoes itself on 22 bits |
| `Addresses.ConvertCollides` | `nikobus_connect/discovery/protocol.py:133-148` | on 24 bits it is not injective: two addresses with one frame |
| `Addresses.VirtualPlateCanonical` | `nikobus_connect/discovery/protocol.py:307-315` | idempotent, keeps the low 22 frame bits for every 24-bit input, the identity on 22 bits |
| `Addresses.GetInvertsEncode` | `nikobus_connect/discovery/protocol.py:540-559` | `get_button_address` inverts `encode_button_address` on all 22-bit addresses |
| `Addresses.EncodeInvertsGet` | `simulator/src/nikobus_simulator/encoding.py:83-98` | the other way round exactly when the two unused bits are zero |
| `Addresses.StoredAddressMeansItsFrame` | `nikobus_connect/discovery/pc_logic_decoder.py:126-152` | a stored plate-and-key address names its plate, and its record frame is its 24-bit reversal |
| `Addresses.SiblingFrame` | `nikobus_connect/discovery/protocol.py:246-264` | the sibling address sets the frame bit that a key index from four on sets |
| `Addresses.CalendarExactly` | `nikobus_connect/discovery/protocol.py:517-537` | a stored address is calendar channel n, half A or B, exactly when its reversal is the address of that half counted from E00320, for n from 1 to 100 |
| `LinkTables.EncodeModule` | `simulator/src/nikobus_simulator/encoding.py:163-194` | what every register of the encoded memory reads as |
| `LinkTables.CutRegisters` | `simulator/src/nikobus_simulator/encoding.py:154-160` | a stream cut into registers, the last one padded, none beyond |
| `LinkTables.RecordRoundTrip` | `simulator/src/nikobus_simulator/encoding.py:112-142` | one link comes back from its record if and only if its mode and channel are the family's and its stored address is no calendar channel; no record looks erased |
| `LinkTables.EncodedBytes` | `simulator/src/nikobus_simulator/encoding.py:101-142` | the bytes of every encoded link, field by field |
| `LinkTables.TableStandsAt` | `simulator/src/nikobus_simulator/encoding.py:154-194` | byte j of register 16 + i is byte 16 i + j of the table, or filler; on a dimmer byte j of register 32 + i is byte 8 i + j |
| `LinkTables.KnownRecord` | `simulator/src/nikobus_simulator/encoding.py:112-125` | the six bytes of one concrete link |
| `LinkTables.InstalledRecord` | `nikobus_connect/discovery/mapping.py:693-708` | the plate, key and channel of a record read from an installation |
| `LinkTables.RecordFieldsAre` | `nikobus_connect/discovery/switch_decoder.py:39-152` | each field of a decoded record by its place, and exactly which records are dropped |
| `LinkTables.ChunksAre` | `nikobus_connect/discovery/chunk_decoder.py:150-167` | chunk k is bytes k * length to (k + 1) * length, and the remainder what is short of one more |
| `LinkTables.ThreeEmptyEnd` | `nikobus_connect/discovery/discovery.py:4071-4113` | a register counts as empty exactly when it completes no record and ends in filler, three in a row end the scan |
| `LinkTables.ChunkDecoder.AnalyzeFramePayload` | `nikobus_connect/discovery/chunk_decoder.py:95-167` | whole records out, the rest kept, for the aligned stream |
| `LinkTables.RegisterScan.HandleResponse` | `nikobus_connect/discovery/discovery.py:4071-4113` | remainder threaded, records appended, empty registers counted, the scan ended at the third |
| `LinkTables.RegisterScan.Run` | `nikobus_connect/discovery/discovery.py:309-337` | the scan loop over the planned registers |
| `LinkTables.TableRegisterNotEmpty` | `nikobus_connect/discovery/discovery.py:4071-4113` | no register that holds part of the table can look empty |
| `LinkTables.PlanCoversTable` | `nikobus_connect/discovery/discovery.py:309-337` | the plan covers the table and reads at most one register beyond it |
| `LinkTables.PlanExactly` | `nikobus_connect/discovery/discovery.py:309-337` | how many registers are planned for a reported count, with the least and the most |
| `LinkTables.ImageRoundTrip` | `simulator/src/nikobus_simulator/encoding.py:163-207` | encoding a module, scanning what its count plans and decoding gives the links back in order; all of them if and only if they fit the layout (256 switch or roller, 216 dimmer) |
| `LinkTables.ReadBack` | `nikobus_connect/discovery/chunk_decoder.py:150-167` | the same as one executable pass |
| `Blocks.BlocksToSections` | `nikobus_connect/discovery/protocol.py:496-514` | one section per sub-byte of a block run |
| `Blocks.SectionsNameRun` | `nikobus_connect/discovery/protocol.py:496-514` | the sections name exactly the blocks of the run, each once and in order |
| `AudioTable.FindHeader` | `nikobus_connect/discovery/audio_decoder.py:156-177` | the header search loop |
| `AudioTable.HeaderIs` | `nikobus_connect/discovery/audio_decoder.py:156-177` | where the count stands, in terms of the bytes: behind six of filler, else behind all leading filler, low byte first, from 1 to 1864 |
| `AudioTable.SplitIs` | `nikobus_connect/discovery/audio_decoder.py:180-199` | record k of the one-shot split is the six bytes at 6 k behind the count, as many as counted or complete |
| `AudioTable.AudioDecoder.AnalyzeFramePayload` | `nikobus_connect/discovery/audio_decoder.py:352-433` | one frame of the stream: new decoder state, chunks and kept bytes |
| `AudioTable.AudioDecoder.ExtensionPasses` | `nikobus_connect/discovery/audio_decoder.py:324-350` | the blocks asked for, and that they are remembered |
| `AudioTable.StreamingRefinesOneShot` | `nikobus_connect/discovery/audio_decoder.py:180-199` | for every split of a stream with a valid header the concatenated chunks are the one-shot split of the whole |
| `AudioTable.ExtensionCompletesTable` | `nikobus_connect/discovery/audio_decoder.py:324-350` | the band read without gaps, one extension names blocks within capacity that complete the table, and then nothing more is asked |
| `AudioTable.NoSecondAsk` | `nikobus_connect/discovery/audio_decoder.py:324-350` | the same blocks are never asked for twice |
| `PcLogicTable.PcLogicDecoder.AbsorbInputBlock` | `nikobus_connect/discovery/pc_logic_decoder.py:306-370` | one block of the input table: order check, count, complete records decoded |
| `PcLogicTable.PcLogicDecoder.AnalyzeFramePayload` | `nikobus_connect/discovery/pc_logic_decoder.py:285-304` | which frames belong to the table |
| `PcLogicTable.PcLogicDecoder.ExtensionPasses` | `nikobus_connect/discovery/pc_logic_decoder.py:264-283` | the blocks asked for |
| `PcLogicTable.InOrderBlocksDecode` | `nikobus_connect/discovery/pc_logic_decoder.py:306-370` | fed in order, the links are always the decode of the first complete records |
| `PcLogicTable.ExtensionCompletesTable` | `nikobus_connect/discovery/pc_logic_decoder.py:264-283` | reading exactly the named blocks brings in every counted record, for any count up to 1536, and then nothing is asked |
| `PcLogicTable.GapFreezesTable` | `nikobus_connect/discovery/pc_logic_decoder.py:318-333` | an out-of-order block freezes the links for good and stops further requests |
| `PcLogicTable.LinkNamesItsFrame` | `nikobus_connect/discovery/pc_logic_decoder.py:126-165` | plate, key index and wire address of a decoded link agree |
| `PcLogicTable.RecordFields` | `nikobus_connect/discovery/pc_logic_decoder.py:126-165` | each field of a link by its place in the record, the address high byte first; only filler gives none |
| `PcLogicTable.CountIsAt998` | `nikobus_connect/discovery/pc_logic_decoder.py:335-370` | the count is bytes 998 and 999, low byte first, and more than 1536 counts as none |
| `PcLogicTable.LinksAreRecords` | `nikobus_connect/discovery/pc_logic_decoder.py:335-370` | link i is the record at byte 1000 + 6 i |
| `PcLogicTable.ErasedRecordEnds` | `nikobus_connect/discovery/pc_logic_decoder.py:335-370` | an erased record ends the table and lowers the count to the links before it |
| `PcLogicTable.DecodeContinues` | `nikobus_connect/discovery/pc_logic_decoder.py:335-370` | decoding what a longer stream completes continues where the shorter one stopped |
| `PressState.MilestonesOnceInOrder` | `nikobus_connect/press.py:136-149` | however the frames of a press arrive, the milestones reported so far are exactly 1 to its bucket, in order and once each |
| `PressState.PatienceWithinBounds` | `nikobus_connect/press.py:115-133` | the release patience stays within 300 to 5000 ms over every run |
| `PressState.PatienceDropsOnHealthyLink` | `nikobus_connect/press.py:115-133` | it drops only when the last four gaps were all ordinary, and grows only on at least three burst gaps |
| `PressState.PatienceExactly` | `nikobus_connect/press.py:115-133` | the patience after every frame, written out over the last four gaps: on three burst gaps the larger of itself and 40 ms a frame, at most 5000; on four ordinary ones 300; else unchanged |
| `PressState.MilestoneAtItsSecond` | `nikobus_connect/press.py:136-149` | over every run: milestone m is reported with the first frame that brings the press to m seconds, for m from 1 to 3, and no other is |
| `PressState.GapsAreLast` | `nikobus_connect/press.py:205-208` | the window holds exactly the last four gaps |
| `PressState.PressObject.UpdateReleaseThreshold` | `nikobus_connect/press.py:115-133` | the patience after a frame, the rest of the press unchanged |
| `PressState.PressObject.TimersCrossed` | `nikobus_connect/press.py:136-149` | exactly the milestones between the last reported one and the bucket reached, then recorded |
| `PressState.PressObject.CountFrame` | `nikobus_connect/press.py:205-208` | frame counted, gap recorded, patience adjusted |
| `PressTracker.PressTracker.FrameSeen` | `nikobus_connect/press.py:185-209` | a press started or counted, all other presses untouched, with the milestones crossed |
| `PressTracker.PressTracker.ReleaseDue` | `nikobus_connect/press.py:211-219` | the press at the address if it is the one named and its silence has lasted, and nothing else |
| `PressTracker.PressTracker.End` | `nikobus_connect/press.py:221-228` | the named press forgotten, all others kept; nothing on another name |
| `PressTracker.PressTracker.Clear` | `nikobus_connect/press.py:230-234` | every press forgotten and returned |
| `PressTracker.OldIdClaimsNothing` | `nikobus_connect/press.py:211-228` | over whole runs: once a press is over, a watcher with its id never claims or ends a later one, at any address |
| `PressTracker.WatcherFindsItsPress` | `nikobus_connect/press.py:185-228` | over whole runs: the watcher of a press finds it until the first event that ends it and never after; until then it is the press of exactly the frames seen at the key since, due once the silence after the last of them has lasted its patience |
| `PressTracker.RunKeepsIdsApart` | `nikobus_connect/press.py:185-209` | presses in flight have ids of their own |
| `LinkStore.ButtonLinks.MirrorPairedButtonLinks` | `nikobus_connect/discovery/fileio.py:2126-2224` | for every order of the keys and any store with one block per module one pass leaves each output on every existing peer, adds only mirror images of what was there, removes and alters nothing, reports exactly the outputs the store has more, and adds nothing to a store already closed: a second pass adds 0 |
| `LinkStore.ButtonLinks.MirrorKey` | `nikobus_connect/discovery/fileio.py:2155-2224` | one key's outputs spread, closed keys staying closed |
| `LinkStore.ButtonLinks.CopyTo` | `nikobus_connect/discovery/fileio.py:2180-2222` | find or create the module's block, append unless the dedupe key is there |
| `LinkStore.PeersOfPeers` | `nikobus_connect/discovery/fileio.py:2042-2109` | a peer's own peers are the key itself or its other peers, for every label and mode |
| `LinkContents.PeersAre` | `nikobus_connect/discovery/fileio.py:2042-2109` | which keys an output is copied to, by label and mode |
| `LinkStore.MirrorOne` | `nikobus_connect/discovery/fileio.py:2166-2222` | copying one output to all peers of its key spreads it and keeps closed keys closed |
| `LinkStore.MirrorKeepsTidy` | `nikobus_connect/discovery/fileio.py:2180-2222` | the pass makes no dedupe key appear twice in a block where it did not |
| `LinkBlocks.FilingKeepsTidy` | `nikobus_connect/discovery/fileio.py:1849-1925` | filing keeps one block per module and no dedupe key twice in a block |
| `LinkBlocks.MergeView` | `nikobus_connect/discovery/fileio.py:1849-1925` | filing a record touches its own module's block only |
| `LinkMerge.MergeLinkedModules` | `nikobus_connect/discovery/fileio.py:1709-1967` | every counting record filed under its resolved key, links and outputs counted, then one mirror pass; what the store then holds, `LinkContents.MergedStoreExactly` says |
| `LinkMerge.FileRecord` | `nikobus_connect/discovery/fileio.py:1849-1925` | one record: block found or made, output appended or its provenance upgraded, with exact counts |
| `LinkMerge.MergeTwiceAddsNothing` | `nikobus_connect/discovery/fileio.py:1709-1967` | merging the same mapping again adds 0 links and 0 outputs and leaves the store as it is, provenance included |
| `LinkContents.MergeFilesExactly` | `nikobus_connect/discovery/fileio.py:1769-1780` | an output is on a key after filing exactly when it was before or some entry resolved to the key has a record of it that is not a controller's copy for a module whose own table was read in full |
| `LinkContents.MergeContents` | `nikobus_connect/discovery/fileio.py:1849-1925` | and it is the first of those copies, vouched for by the module's own table if any of them is |
| `LinkContents.MergedStoreExactly` | `nikobus_connect/discovery/fileio.py:1709-1967` | the same for the whole merge: on a key exactly when held or recorded for it or for a key that copies to it |
| `LinkContents.MergedOutputIs` | `nikobus_connect/discovery/fileio.py:1709-1967` | which output that is, in all its fields |
| `LinkContents.LinksAreBlocks` | `nikobus_connect/discovery/fileio.py:1849-1925` | the links a merge reports are the blocks its records add to the store |
| `LinkMerge.MergeAllTidy` | `nikobus_connect/discovery/fileio.py:1849-1925` | merging keeps one block per module and no dedupe key twice |
| `LinkMerge.MergeCounts` | `nikobus_connect/discovery/fileio.py:1709-1967` | the outputs a merge reports are exactly the outputs the store has more afterwards, mirrored ones included |
| `LinkMerge.MergeKeepsTidy` | `nikobus_connect/discovery/fileio.py:1709-1967` | one block per module after the merge, and no dedupe key twice where none was before |
| `LinkMerge.MirrorKeepsAbsorbed` | `nikobus_connect/discovery/fileio.py:1906-1925` | what a module's own table vouched for stays vouched for through the mirror pass |
| `LinkRebuild.StripModuleLinks` | `nikobus_connect/discovery/fileio.py:1533-1573` | exactly the blocks of the given modules go, on every key, and the outputs in them are counted |
| `LinkRebuild.RebuildModuleLinks` | `nikobus_connect/discovery/discovery.py:3566-3611` | own records selected, stored ones stripped, the rest merged; outputs removed and added account for the whole change of the store |
| `LinkRebuild.RebuildLeavesOwn` | `nikobus_connect/discovery/discovery.py:3566-3611` | afterwards an output of the module is present on a key if and only if it is in the peer closure of the module's own resolved records |
| `LinkContents.RebuiltStoreExactly` | `nikobus_connect/discovery/discovery.py:3566-3611` | the same without the rebuild's own vocabulary: exactly when a record of the module's own table, not a controller's copy, names the key or one that copies to it |
| `LinkRebuild.RebuildLeavesOthers` | `nikobus_connect/discovery/discovery.py:3566-3611` | another module keeps its blocks exactly on every key if and only if its links were mirrored already |
| `LinkRebuild.RebuildChangesUnmirrored` | `nikobus_connect/discovery/fileio.py:2019` | a tidy store of two keys where rebuilding a module without any records gives a key a link of another module, by the mirror pass at the end of the merge |
| `LinkRebuild.RebuildKeepsTidy` | `nikobus_connect/discovery/discovery.py:3566-3611` | the result has one block per module and is closed under mirroring, and stays free of repeated dedupe keys |
| `ButtonPlates.ButtonPlateStore.MergeDiscoveredButtons` | `nikobus_connect/discovery/fileio.py:568-849` | every plate of the inventory stored with the frame of each key, by channel count, own type or known layout |
| `ButtonPlates.ButtonPlateStore.SettleTwoButtonLayouts` | `nikobus_connect/discovery/fileio.py:1648-1706` | each two-button plate takes the one layout its records' indices show; all other plates stay |
| `KeyResolver.SettledExactly` | `nikobus_connect/discovery/fileio.py:1648-1706` | generic layout when all of a movable plate's own records have index 1 or 3, right pair when all have 0 or 2, else left as it is, with the frames of both keys |
| `KeyResolver.LayoutKeys` | `nikobus_connect/discovery/mapping.py:592-605` | the indices each two-button layout sends, key by key |
| `KeyResolver.DetectorKeys` | `nikobus_connect/discovery/mapping.py:612-619` | the indices a motion detector sends |
| `KeyResolver.LogicInputKeys` | `nikobus_connect/discovery/fileio.py:680-694` | the frames of a logic input |
| `ButtonPlates.ButtonPlateStore.IndicesByPlate` | `nikobus_connect/discovery/fileio.py:1657-1684` | the indices of each plate, controllers' copies aside |
| `KeyResolver.BuildBusToOpIndex` | `nikobus_connect/discovery/fileio.py:859-894` | every frame leads to the key filed first of those that send it or, on an eight-key button, the one before it; every stored key's frame is in the index |
| `KeyResolver.InventoryLaysOut` | `nikobus_connect/discovery/fileio.py:690-849` | an inventory of 22-bit plates merged into any store laid out so far leaves every plate with exactly the keys of its layout, settled ones included, each at converted address plus nibble |
| `KeyResolver.HistoryLaysOut` | `nikobus_connect/discovery/fileio.py:568-849` | the same in every state of every interleaving of inventory merges and settlings |
| `KeyResolver.HistoryAgrees` | `nikobus_connect/discovery/fileio.py:1025-1134` | records filed by their plate's address (controllers' copies, and scanned ones the host knows no channel count for): in every such state each whose index its plate's layout uses, and each sibling record of an eight-key button below index four, resolves to the key whose frame is `record_bus_address` |
| `KeyResolver.FrameOnPlateAgrees` | `nikobus_connect/discovery/fileio.py:1064-1074` | whatever else is stored, a record filed by its plate's address whose frame one of the plate's keys sends resolves to such a key |
| `KeyResolver.StoredPlateAgrees` | `nikobus_connect/discovery/fileio.py:1064-1085` | filed by address: four-key plates with 0 to 3, eight-key with 0 to 7, two-button plates with their family, detectors and one-key plates alike |
| `KeyResolver.SiblingAgrees` | `nikobus_connect/discovery/fileio.py:1103-1134` | an eight-key button's sibling record resolves to the upper row, and to the key the module listens for exactly with an index below four |
| `KeyResolver.SettledPlateAgrees` | `nikobus_connect/discovery/fileio.py:1648-1706` | after settling on one family of indices each record of the plate, filed by its address, resolves to the key its module listens for |
| `KeyResolver.TwoButtonAgreement` | `nikobus_connect/discovery/fileio.py:1064-1085` | filed by address, a record of index 1 or 3 is right if and only if the plate is not in the right-pair layout: in that layout the channel-count table answers with a key that sends another frame |
| `KeyResolver.TwoButtonRecordAgreement` | `nikobus_connect/discovery/fileio.py:1648-1706` | with the settling that runs before every resolution: such a record, or a controller's copy of it, is right if and only if the plate did not start in the right-pair layout or its records use only indices 1 and 3 |
| `KeyResolver.MixedIndicesMiss` | `nikobus_connect/discovery/fileio.py:1648-1706` | a concrete history, one plate settled by a record of index 0 whose records then have indices 0 and 1: a copy of the second, filed by address, lands on a key sending another frame |
| `KeyResolver.FrameHitAgrees` | `nikobus_connect/discovery/fileio.py:1146-1163` | a record of an unknown plate is found by its frame alone, and is right unless the frame is filed as another's alias |
| `FrameSpelling.ScannedFiledExactly` | `nikobus_connect/discovery/discovery.py:468-526` | in every state of every history, for every plate and index: a scanned record is filed under the key's frame once its plate's channel count is known and its index in the count's table, else under the plate, and resolves to a key that sends the frame its module listens for if and only if the stored addresses meet the condition; for index 1 and 3 of a stored plate, that a plate sending the frame comes before every eight-key button that sends the one before |
| `FrameSpelling.FrameFiledExactly` | `nikobus_connect/discovery/fileio.py:1064-1163` | for every 24-bit frame and index, whatever is stored: resolved to a key sending the frame if and only if the plate stored at that number, the frame it would mean as a virtual button, the eight-key button one below, or else the plates filed first under it, do send it |
| `FrameSpelling.PlainFrameFiledExactly` | `nikobus_connect/discovery/fileio.py:1064-1145` | for frames that are not their own mirror image the condition is: no such plate, virtual button or eight-key button answers, and no alias is filed before a sender |
| `FrameSpelling.AddressFiledExactly` | `nikobus_connect/discovery/fileio.py:1064-1163` | the same for every record filed under an address, of a stored plate or not |
| `FrameSpelling.FirstClaimSends` | `nikobus_connect/discovery/fileio.py:859-894` | what is filed under a frame sends it exactly when a plate that does comes before every eight-key button sending the one before |
| `FrameSpelling.EightKeysAlias` | `nikobus_connect/discovery/fileio.py:883-888` | an eight-key button claims every frame scanned for the plate 0x200000 above it |
| `FrameSpelling.AliasMisfiles` | `nikobus_connect/discovery/fileio.py:1136-1144` | an inventory of an eight-key plate and a four-key one 0x200000 above: the record of index 1 of the second is filed under frame 800001 and lands on the first |
| `FrameSpelling.HighFrameFate` | `nikobus_connect/discovery/fileio.py:1136-1225` | a record under a frame from 800000 on is dropped exactly when nobody claims the frame, nobody the frame it would mean as an address, and no plate answers at the converted address; unclaimed and not dropped, it is filed on a key that sends another frame, and where |
| `FrameSpelling.TwoButtonScannedExactly` | `nikobus_connect/discovery/fileio.py:1648-1706` | after the settling a scanned record of index 1 or 3 is right exactly when a plate sending its frame comes before every alias; its own plate sends it exactly when it did not start in the right-pair layout or its records use only 1 and 3 |
| `FrameSpelling.MixedScannedDropped` | `nikobus_connect/discovery/fileio.py:1648-1706` | a concrete history whose scanned record of index 1 nobody sends the frame of: dropped |
| `FrameSpelling.MixedScannedMisfiled` | `nikobus_connect/discovery/fileio.py:1191-1199` | the same with a four-key plate at address 4: filed on that plate's key 1A |

## Left out

- CommandSafety.NeverUndoesWallChange: excepts three seconds after trouble of the four kinds the runs in `CommandCorners` show; after trouble the bytes may still agree, and exactly when they do is stated by `UncoveredByteExactly`, not by elapsed time.
- CommandSafety.LastWriteWins: `set_output_states` snapshots the buffer when it is queued and is not an event; neither are `stop`, `reset` and `drain_queue`, nor commands queued through `query`.
- CommandReads.NoLostWakeup: readers are open until their own time-out, so `stop`, `reset` and `drain_queue`, which cancel only the drained item's own future, are not events; `put` on a full queue never blocks.
- CommandHandler.NikobusCommandHandler.FinishShared: callbacks of a shared future run at once, in any order, where the event loop runs them soon after; completion and failure handlers of the host are not run.
- CommandHandler.NikobusCommandHandler.ApplyGroupState: an answer is bytes, not hex text; host buffers always have twelve bytes; queue items are held by identity in a table instead of as shared dictionaries, and items no longer queued stay in it.
- CommandChannels.StepMovesChannel: one exchange is a delivery, possibly repeated, and an end; the retries inside it, the bus lock and the delays between commands are not separate steps.
- AnswerWait.WaitForState: the two time-outs are the end of the message sequence; an exception while waiting is not modelled; the listener's group bookkeeping is modelled for the module that is read, each message taken before the next is seen.
- Framing.ValidateCrc: text of mixed case and the blanks, signs and underscores that `int` and `bytes.fromhex` tolerate are not modelled.
- Addresses.DerivationsAgree: a six-digit address is the number it spells.
- ModuleImage.PredictModuleCrc: negative offsets are not modelled.
- LinkTables.RecordRoundTrip: bytes instead of hex text; labels and timer texts of the decoders are left out, their field values kept; links with a field wider than its digits are not encoded.
- LinkTables.ChunkDecoder.AnalyzeFramePayload: without a coordinator, so `_looks_misaligned`, a score over a host lookup, never reports.
- AudioTable.StreamingRefinesOneShot: the stream must contain a valid count header; records are cut, not labelled.
- PcLogicTable.PcLogicDecoder.AnalyzeFramePayload: frames outside the input table are only passed over: the registry records and the logic output table that the same decoder reads are not modelled.
- PressState.MilestonesOnceInOrder: milliseconds as integers, 40 a frame; the deque of gaps is a sequence.
- PressTracker.PressTracker.FrameSeen: press ids are numbers given by the caller, a fresh one for each new press; ids are never reused in the run claims.
- LinkMerge.MergeLinkedModules: lists are kept in order of arrival instead of sorted, and the number of updated buttons is not counted; the keys of the mapping are resolved before.
- LinkStore.ButtonLinks.MirrorPairedButtonLinks: the store's nesting is flattened to one list of blocks per button and key; entries that are not dictionaries or lists do not occur.
- KeyResolver.HistoryAgrees: no logic inputs, and each address is reported with one type and channel count.
- FrameSpelling.ScannedFiledExactly: the host knows the channel count of exactly the stored plates; plates are 22-bit and come from inventories.
- KeyResolver.FrameHitAgrees: the infrared, Easywave 52-key, audio and calendar branches of the resolver and of the merge are not modelled; op points of one plate are searched in label order.
- ButtonPlates.ButtonPlateStore.MergeDiscoveredButtons: 52-key remotes, remote codes, descriptions and other metadata are left out.
- ButtonPlates.ButtonPlateStore.SettleTwoButtonLayouts: a per-plate type is read from the type byte, not from the model name.
- Sockets, serial port, handshake, presence probe, reconnecting, logging and JSON files are input and output.
- RF clusters, central functions, virtual buttons and the PC-Link registry heuristics are rules drawn from captures.
- `store.py`, `progress.py`, `travel.py`, `rgb.py` and the project-file readers would only add easy members.
