# Verification model

This project models, in Dafny, the parts of the application that move data across a boundary and must not lose, invent or misread it, and proves what they promise. `dafny verify dfyconfig.toml` checks everything.

| part | modules | in one sentence |
|---|---|---|
| Flash and OTA chain | `BitDivision`, `Crc16`, `Crc16Remainder`, `Crc32`, `Crc32Remainder`, `WireNumbers`, `FlashFrame`, `FlashFrameParser`, `FlashStream`, `OtaTable`, `OtaInvariant`, `OtaSession`, `OtaRuns`, `OtaTranscript`, `OtaTiling`, `OtaOutcome`, `OtaSystem`, `OtaLink`, `OtaInertLink`, `OtaCalmRuns`, `OtaPhantom`, `OtaRepeats`, `OtaSuccess`, `OtaProtocol`, `OtaAgent`, `OtaAgentLifecycle`, `OtaAgentProgress`, `OtaAgentStop`, `OtaAgentFlow` | a CRC-framed codec in one byte stream with text, an update session without I/O, the two ends over a link that loses, damages and invents bytes, and the agent that gives the session one thread |
| Lock-free ring | `RingIndex`, `SpscQueue`, `SpscInterleaving` | one producer and one consumer on wrapping indices, refined to a bounded FIFO |
| Tiered historian | `HistoryRows`, `HistoryTables`, `HistoryLineage`, `HistoryPlacement`, `HistoryMeans`, `HistoryQuery`, `HistoryStore` | raw samples averaged into minutes and minutes into hours, none lost or counted twice, each in the tier of its age |
| MQTT 3.1.1 subscriber | `MqttPacket`, `MqttReadLoop`, `MqttFormat` | the packet codec, and a byte-at-a-time read loop that agrees with it |
| CSV and JSON | `DecimalText`, `DecimalLaws`, `TextInput`, `Products`, `CsvSerializer`, `CsvFormat`, `JsonText`, `JsonRoundTrip`, `JsonSerializer`, `JsonLayout` | two hand-written printers and readers, each inverted by the other as far as it is, and the readers on texts they did not write |
| Configuration | `ConfigFlatten`, `ConfigPaths`, `ConfigLeaves` | a worklist instead of recursion, when the difference cannot be seen, and what the flat map says |
| Shared | `Wrappers`, `Sequences`, `Arithmetic` | results, and facts about concatenation and division |

Code that changes state in place is a class or a method with a loop (`FlashFrameParser.Parser`, `OtaSession.Session`, `SpscQueue.Queue`, `HistoryStore.SqliteHistoryStore`, `MqttReadLoop.MqttClient`, `CsvSerializer.Serializer`, the JSON reader, the CRC loops, `ConfigFlatten.Flatten`). Its contract equates the new state with a function of the old one, and the theorems are about those functions: what they keep over whole runs, and, in terms of their own, which bytes, texts and milliseconds they stand for. Threads are state machines in which every atomic access is one step.

## Where the code falls short of its comments and protocols

The model follows the code. Each point is proved below, with an input for which it happens and the condition under which it does not.

- The frame parser resumes at the byte after a false start, so one damaged bit can expose a frame that stands inside another frame's payload. `OtaPhantom.OneBitCommits` is a run in which a flipped bit makes the board find a COMMIT before the image is there. The update is safe in every run in which no parser finds a frame that nobody sent (`OtaLink.UpdateIsSafe`), in particular if what arrives of damaged frames is inert (`OtaInertLink.InertRunsAreSafe`), which is exactly when damage is no more than loss (`FlashStream.DamageIsLossExact`).
- `OtaSession.cpp:447-449` calls a repeated ACK normal traffic, and section 6 of `docs/protocols/uart-flash-v1.md` calls a resend harmless. A second ACK of COMMIT ends the update while the host waits for the reset, and a second answer to a repeated INFO_REQ ends it unless the first ended it with Done (`OtaRepeats.AckTwice`, `OtaRepeats.InfoTwice`, both exact; `OtaSuccess.RepeatedAckEndsUpdate`).
- `OtaAgent.h` promises that every outside `stop()` returns only once the agent thread has stopped. After a `stop()` made from inside `DoneFn` or `SendFn`, which both run on that thread, an outside one returns at once, with the thread still in its handler (`OtaAgentStop.StopGuaranteeExact`).
- `ConfigManager.cpp:74-76` says that traversal order cannot matter. It matters when two leaves have the same dotted path: then the first leaf wins, where recursion would keep the last (`OrderMatters`, `OrderExample`). It cannot matter where keys are distinct, not empty and free of dots (`ConfigPaths.PlainKeysAgree`).
- `ConfigManager.cpp:123` takes unsigned integers too, so one of 2^63 or more is written as a negative number, and the unsigned branch is never reached (`IntegerTextExact`, `IntegerTextExample`).
- `JsonSerializer.cpp:61-64` says that the domain produces no `\u` escapes. The writer emits one for every control character without a letter of its own, and the reader then rejects the text (`JsonRoundTrip`, `UncleanExample`).
- `MqttPacket.cpp:226` cuts the packet size to 32 bits before checking it, so a payload of 4 GiB or more can be built into a packet that states the wrong length (`PublishRoundTrip`, `WrappedPublish`).
- `MqttClient.cpp:325` counts packet identifiers in 16 bits, so every 65536th SUBSCRIBE carries the identifier 0, which section 2.3.1 of MQTT 3.1.1 forbids (`PacketIdExact`).
- `SqliteHistoryStore.cpp:307-308` calls `(ts / bucket) * bucket` a floor. It truncates toward zero: the floor from the epoch on and on bucket edges, and nowhere else (`EdgeIsFloor`, `EdgeBeforeEpoch`).
- `SqliteHistoryStore.cpp:360-380` commits after a DELETE step that fails, and then every demoted sample is stored twice (`FaultyDemotionConserves`).
- `SqliteHistoryStore.h:46` calls a minute row the average of its bucket. A sweep whose cutoff falls inside a minute leaves it two rows, each the mean of a part (`HistoryMeans.SplitMinute`); each sweep that folds a sample of the minute adds one (`SweepRowsAt`). An hour row is a mean of minute means, which is the mean of its samples only if weighting makes no difference (`HourMeanExact`, `TwoMinutes`).
- `SqliteHistoryStore.h:66-70` says that a query of the last 24 hours sees minute resolution for the most recent hour. The minute table holds demoted samples only, so the query does not show that hour at all (`QuerySees`, `LastDayMissesNow`).

## Model

| member | source | states |
|---|---|---|
| `Crc16.Crc16CcittFalse` | src/integration/FlashFrame.cpp:38-49 | the two nested loops compute the register update of every byte in turn, from the initial value 0xFFFF |
| `Crc16.UpdateIsAbsorb` | src/integration/FlashFrame.cpp:38-49 | the byte-wise loop is polynomial division of the message's bits, one at a time, highest bit first |
| `Crc16.SameBitsInjective` | src/integration/FlashFrame.cpp:38-49 | equal bits keep different registers different, however many bits follow |
| `Crc16.ShortBitsRecovered` | src/integration/FlashFrame.cpp:38-49 | up to 16 bits can be recovered from the registers before and after them |
| `Crc16.BurstDetected` | src/integration/FlashFrame.cpp:38-49 | two different messages of one length that differ only inside 16 consecutive bits have different checksums, at any length and any position |
| `Crc16Remainder.ChecksumIsRemainder` | src/integration/FlashFrame.cpp:38-49 | the checksum, and no other word, is the remainder of the message's bits, the first sixteen complemented, modulo x^16 + x^12 + x^5 + 1 |
| `Crc16Remainder.CheckValue` | docs/protocols/uart-flash-v1.md:72-76 | 0x29B1 for the text "123456789", which identifies the variant |
| `BitDivision.RemainderUnique` | src/integration/FlashFrame.cpp:38-67 | a bit string divided by a polynomial has one quotient and one remainder |
| `Crc32.Crc32IsoHdlc` | src/integration/FlashFrame.cpp:51-67 | the right-shifting loop with 0xEDB88320 computes the byte-by-byte register update and the final inversion |
| `Crc32.ReflectionCorrect` | src/integration/FlashFrame.cpp:51-67 | for every message the right-shifting form equals left-shifting division by 0x04C11DB7 with each input byte and the final register bit-reversed |
| `Crc32.ReverseMovesBits` | src/integration/FlashFrame.cpp:51-67 | the two reversals used to say so really exchange bit i with bit 7 - i, and bit j with bit 31 - j |
| `Crc32Remainder.ChecksumIsRemainder` | src/integration/FlashFrame.cpp:51-67 | the complement of the checksum, and of no other word, is the remainder of the bits, each byte lowest first and the first 32 complemented, modulo the polynomial of Ethernet |
| `Crc32Remainder.CheckValue` | docs/protocols/uart-flash-v1.md:125-129 | 0xCBF43926 for the text "123456789" |
| `FlashFrame.EncodeFlashFrame` | src/integration/FlashFrame.cpp:69-88 | fails exactly on a payload over 260 bytes, and otherwise lays out start byte, type, SEQ, LEN, payload and CRC, low bytes first |
| `WireNumbers.WireFields` | src/integration/FlashFrame.cpp:69-88 | every field of an encoded frame as the number it stands for, low byte first |
| `WireNumbers.AskingExample` | docs/protocols/uart-flash-v1.md:79-82 | the protocol's INFO_REQ with SEQ 1, byte by byte |
| `WireNumbers.AckExample` | docs/protocols/uart-flash-v1.md:86-88 | the protocol's ACK of it |
| `WireNumbers.InfoExample` | docs/protocols/uart-flash-v1.md:120-123 | the protocol's INFO of version 1, bank 1, confirmed |
| `WireNumbers.WrittenLittleEndian` | src/integration/OtaSession.cpp:44-49 | a 32-bit number is written digit by digit to the base 256, lowest first |
| `WireNumbers.ReadLittleEndian` | src/integration/OtaSession.cpp:51-58 | four bytes are read as the one number whose digits they are |
| `WireNumbers.NextNumber` | src/integration/OtaSession.cpp:97-103 | the message number after 65535 is 0 |
| `FlashFrameParser.HeadOf` | src/integration/FlashFrameParser.cpp:36-80 | a frame is emitted only where its own encoding is a prefix of the bytes from that point on |
| `FlashFrameParser.Held` | src/integration/FlashFrameParser.cpp:83-84 | what is held back is empty, or starts with 0xA5, is an unfinished frame and is shorter than 268 bytes |
| `FlashFrameParser.Parser.Consume` | src/integration/FlashFrameParser.cpp:26-86 | one call emits the frames and the text of a scan over held plus new bytes, adds its false starts and holds the rest |
| `FlashStream.ChunkingInvariance` | src/integration/FlashFrameParser.cpp:26-86 | however a stream is cut into calls, the joined frames, joined text, false-start count and held buffer are those of one call |
| `FlashStream.ScanConserves` | src/integration/FlashFrameParser.cpp:34-84 | for arbitrary input the bytes of everything found, in order, and the held bytes are exactly the input |
| `FlashStream.ByteConservation` | src/integration/FlashFrameParser.cpp:34-84 | bytes in = text + 8 and the payload size for each frame + false starts + held bytes |
| `FlashStream.FrameRecognised` | src/integration/FlashFrameParser.cpp:43-80 | an encoded frame, whatever follows it, is recognised as that frame |
| `FlashStream.StreamRecovered` | src/integration/FlashFrameParser.cpp:34-84 | text free of 0xA5 interleaved with encoded frames, whose payloads may hold any byte, is split back into exactly both, with no false start and nothing held |
| `FlashStream.StreamRecoveredFromChunks` | src/integration/FlashFrameParser.cpp:26-86 | the same for every way of cutting the stream into calls |
| `FlashStream.DamageDropped` | src/integration/FlashFrameParser.cpp:60-70 | a frame damaged inside 16 consecutive bits with LEN and CRC intact is not emitted at its start: the start byte is counted and the scan resumes at the next byte |
| `FlashStream.DamageIsLossExact` | src/integration/FlashFrameParser.cpp:34-84 | bytes are received as if they had not been sent, whatever follows, exactly when they scan to no frame and leave nothing held |
| `FlashStream.BurstIsLoss` | src/integration/FlashFrameParser.cpp:60-70 | damage inside 16 consecutive bits with LEN and CRC intact is loss whenever no other start byte arrives with it |
| `OtaSession.Padded` | src/integration/OtaSession.cpp:118-134 | the padding loop appends erased-flash bytes up to a whole flash word |
| `OtaSession.Session.DispatchEvent` | src/integration/OtaSession.cpp:379-392 | an event the table has no row for is a protocol error; otherwise the row's action and target state apply |
| `OtaSession.Session.HandleAck` | src/integration/OtaSession.cpp:271-298 | the ACK rows of the table, state by state, including the choice between the next chunk and COMMIT |
| `OtaSession.Session.HandleInfo` | src/integration/OtaSession.cpp:258-292 | the INFO rows: finish, confirm, begin or refuse, by version and trial state |
| `OtaSession.Session.Start` | src/integration/OtaSession.cpp:430-438 | starts once, and keeps the session invariant |
| `OtaSession.Session.Receive` | src/integration/OtaSession.cpp:440-478 | which frames are ignored, which are protocol errors, and what the others do, keeping the session invariant |
| `OtaSession.Session.Tick` | src/integration/OtaSession.cpp:480-494 | acts only on an expired deadline, as a reboot over or as a timeout, keeping the session invariant |
| `OtaInvariant.StartKeeps` | src/integration/OtaSession.cpp:430-438 | the invariant that ties state, sequence number, frame in flight, progress and resend budget together survives start() |
| `OtaInvariant.FrameKeeps` | src/integration/OtaSession.cpp:440-478 | the invariant survives every frame at any time |
| `OtaInvariant.TickKeeps` | src/integration/OtaSession.cpp:480-494 | the invariant survives every tick under any clock |
| `OtaRuns.StepDescends` | src/integration/OtaSession.cpp:258-357 | every call changes nothing and sends nothing, or strictly lowers (stage, bytes left, resends left) |
| `OtaRuns.TerminalAbsorbs` | src/integration/OtaSession.cpp:430-494 | Done and Failed are final |
| `OtaRuns.SilenceEnds` | src/integration/OtaSession.cpp:480-494 | expired ticks alone bring any started update to Done or Failed within the resend budget |
| `OtaTranscript.StepClassified` | src/integration/OtaSession.cpp:97-134 | every call says nothing, repeats the frame in flight inside its budget, or sends the next message of the schedule |
| `OtaTranscript.TranscriptIsScheduled` | src/integration/OtaSession.cpp:97-134 | everything a run sends is message 1 some times, then message 2, and so on, each between once and 1 + resends times |
| `OtaTranscript.FrameBound` | src/integration/OtaSession.cpp:258-357 | no run sends more than (ceil(n / 256) + 5) * (1 + resends) frames |
| `OtaTiling.DataTilesImage` | src/integration/OtaSession.cpp:118-134 | the DATA payloads without offset and padding concatenate to the image |
| `OtaTiling.DataFrameShape` | src/integration/OtaSession.cpp:118-134 | each names its own offset 0, 256, 512, ..., is whole flash words, at most 260 bytes, and pads only the last with erased bytes |
| `OtaTiling.ProgressOnlyByAck` | src/integration/OtaSession.cpp:208-216 | progress moves only on the ACK of the message in flight, by exactly the chunk it carried |
| `OtaTiling.CommitAfterEverything` | src/integration/OtaSession.cpp:212-216 | COMMIT follows only the acknowledgement of the last byte |
| `OtaTiling.ConfirmAfterTargetReported` | src/integration/OtaSession.cpp:271-298 | CONFIRM follows only an INFO with the target version |
| `OtaProtocol.MessagesSent` | src/integration/OtaSession.cpp:190-229 | the n-th message of an update in the protocol's numbers: codes 1, 2, 3, 4, 1, 5; BEGIN with size, checksum and version; DATA with its offset, 256 image bytes or the rest, and 0xFF up to a multiple of 8 |
| `OtaProtocol.BeginAnnounces` | src/integration/OtaSession.cpp:193-201 | the twelve bytes of BEGIN are image size, image checksum and version, each low byte first |
| `OtaProtocol.TrialMessages` | src/integration/OtaSession.cpp:225-229 | a board already on trial with the target is sent INFO_REQ and CONFIRM |
| `OtaProtocol.FramesHeard` | src/integration/OtaSession.cpp:440-478 | which frames are passed over and which are protocol errors, by code, number and length |
| `OtaProtocol.AckHeard` | src/integration/OtaSession.cpp:271-298 | where the ACK, code 0x82, leads from every state, and the progress it acknowledges |
| `OtaProtocol.InfoHeard` | src/integration/OtaSession.cpp:258-292 | what the six bytes of INFO, code 0x81, mean before and after the transfer, and the version the session then reports |
| `OtaProtocol.VersionOnlyByInfo` | src/integration/OtaSession.cpp:189-248 | nothing but an INFO changes the reported board version |
| `OtaProtocol.VersionUnknownAtFirst` | src/integration/OtaSession.h:146-148 | over every run the reported board version is 0 until an INFO arrives |
| `OtaProtocol.NakHeard` | src/integration/OtaSession.cpp:300-330 | NAK, code 0x83: damage is answered by the same bytes while the budget lasts, everything else is final with the board's code |
| `OtaProtocol.TickExact` | src/integration/OtaSession.cpp:480-494 | a tick does nothing before the deadline, and then asks again after the reset, repeats, or gives up |
| `OtaProtocol.WaitsExact` | src/integration/OtaSession.cpp:97-116 | over every run: a message, sent or repeated, is given its wait from that call on, BEGIN the longer one, and the reset its own |
| `OtaOutcome.DoneMeansTarget` | src/integration/OtaSession.cpp:234-240 | over every run, Done means that the board reported the target version |
| `OtaOutcome.UpToDateOnlyAsked` | src/integration/OtaSession.cpp:234-240 | over every run that ends with "already up to date", nothing but INFO_REQ frames has been put on the wire |
| `OtaOutcome.DoneBy` | src/integration/OtaSession.cpp:264-298 | Done is reached only by the ACK of CONFIRM, or by an INFO with the target version confirmed |
| `OtaOutcome.FailureExact` | src/integration/OtaSession.cpp:241-256 | every failure happens exactly on its own cause: silence with the budget spent, a NAK a resend cannot help, with its code, another version after the reboot, or an input that does not belong |
| `OtaSystem.MoveKeeps` | docs/protocols/uart-flash-v1.md:150-175 | session, frames in flight and board stay consistent under every call, loss, refusal, acknowledgement, repeated acknowledgement and stray board message |
| `OtaSystem.AckIsGenuine` | src/integration/OtaSession.cpp:440-452 | an ACK whose 16-bit number matches answers the message in flight, although the numbers wrap |
| `OtaSystem.BankAgrees` | docs/protocols/uart-flash-v1.md:162-171 | in a consistent state the bank agrees with the image on the acknowledged bytes, and holds all of it while a COMMIT is in flight or on the link |
| `OtaLink.LinkRefines` | src/integration/FlashFrameParser.cpp:26-86 | over bytes, with any loss, damage and noise and the real parser on both sides, every move is one of the system of frames, as long as no parser finds a frame that nobody sent |
| `OtaLink.UpdateIsSafe` | src/integration/OtaSession.cpp:97-134 | in every such run the bank agrees with the image on the acknowledged bytes, a COMMIT is in flight or on the link only with the whole image there, and the board's check then finds the checksum its BEGIN announced |
| `OtaLink.AcksAreGenuine` | src/integration/OtaSession.cpp:440-452 | in every such run an ACK the host accepts answers the message in flight |
| `OtaLink.NoPhantomExact` | src/integration/FlashFrameParser.cpp:26-86 | an arrival amounts to losing some of what was sent exactly when it is free of phantoms |
| `OtaInertLink.InertRunsAreSafe` | src/integration/FlashFrameParser.cpp:26-86 | a run whose damage and noise are inert is free of phantoms and safe throughout |
| `OtaInertLink.StartFreeRunsAreSafe` | src/integration/FlashFrameParser.cpp:36-41 | so is a run in which no damage and no noise brings a start byte beyond one that is dropped at once |
| `OtaPhantom.HiddenIsFound` | src/integration/FlashFrameParser.cpp:60-70 | a frame inside a damaged frame's payload is found |
| `OtaPhantom.OneBitCommits` | src/integration/FlashFrameParser.cpp:60-70 | a run with one flipped bit at the end of which the board has found a COMMIT and its bank does not hold the image |
| `OtaSuccess.UpdateSucceeds` | docs/protocols/uart-flash-v1.md:150-175 | for every image that fits, over an undisturbed link and with a board that answers each message once, the update ends with Done and the image in the bank |
| `OtaSuccess.RepeatedAckEndsUpdate` | src/integration/OtaSession.cpp:440-456 | in the same situation the board's second ACK of COMMIT is a protocol error |
| `OtaRepeats.AckIgnoredExact` | src/integration/OtaSession.cpp:440-456 | an ACK is ignored exactly when the session is not running or it carries another number |
| `OtaRepeats.AckTwice` | src/integration/OtaSession.cpp:440-456 | after an accepted ACK a second one is ignored exactly when the first did not answer COMMIT, and is a protocol error otherwise |
| `OtaRepeats.InfoTwice` | src/integration/OtaSession.cpp:464-473 | after an accepted INFO a second one is ignored exactly when the first ended the update, and is a protocol error otherwise |
| `OtaAgentLifecycle.MoveKeeps` | src/integration/OtaAgent.cpp:111-178 | flags, mutex, thread and every caller stay consistent under every interleaving of start(), stop(), frames and ticks |
| `OtaAgentLifecycle.SessionConfined` | src/integration/OtaAgent.cpp:187-254 | the session changes only in the agent thread's own step, and only by one of its public calls |
| `OtaAgentLifecycle.ReachableOk` | src/integration/OtaAgent.cpp:187-286 | in every reachable state the agent's session is a session run, so everything proved of runs holds of it, and the published progress is its own |
| `OtaAgentLifecycle.ToldOnceAndFinally` | src/integration/OtaAgent.cpp:273-286 | onDone is told at most once, a Done or Failed snapshot that is the published progress from then on |
| `OtaAgentProgress.MoveGoesOn` | src/integration/OtaAgent.cpp:187-254 | while the agent runs, the session has stopped, or its first handler is queued, or a begin or tick handler is at work, or the timer is armed; outside a handler a stopped session has been reported |
| `OtaAgentProgress.DrainedIsReported` | src/integration/OtaAgent.cpp:233-286 | an agent thread that ended with `running` set has a Done or Failed session and has told its listener so |
| `OtaAgentLifecycle.NoDeadlock` | src/integration/OtaAgent.cpp:148-178 | a call in progress can always be brought forward, even if a callback stops the agent: whoever it waits for can move |
| `OtaAgentLifecycle.StoppedAgentEnds` | src/integration/OtaAgent.cpp:159-168 | once the context is stopped the agent thread takes at most 14 more steps, so a join ends |
| `OtaAgentLifecycle.GoneStays` | src/integration/OtaAgent.cpp:126-146 | a stopped agent is never started again |
| `OtaAgentStop.StopGuaranteeExact` | src/integration/OtaAgent.cpp:148-178 | an outside stop() that begins after `running` is set always returns to a finished thread, if and only if neither SendFn nor DoneFn may call stop() |
| `OtaAgentFlow.HandlerCalls` | src/integration/OtaAgent.cpp:187-254 | the first handler calls start(), a tick handler onTick(), a frame handler onFrame() with its frame, and the bytes returned, if any, go to SendFn next |
| `OtaAgentFlow.HandlerEnters` | src/integration/OtaAgent.cpp:233-249 | a handler makes its call exactly if it is the first or finds `running` set |
| `OtaAgentFlow.TimerExact` | src/integration/OtaAgent.cpp:187-243 | the timer is armed by a first or tick handler that leaves the session unfinished, and by nothing else |
| `OtaAgentFlow.DoneIsCalled` | src/integration/OtaAgent.cpp:273-286 | onDone is called exactly by the handler that first finds the session Done or Failed, with the progress published then |
| `OtaAgentFlow.InnerStopEnds` | src/integration/OtaAgent.cpp:148-158 | a stop() made inside a callback waits for nobody and leaves `running` off and the context stopped |
| `OtaAgentFlow.FramesInOrder` | src/integration/OtaAgent.cpp:312-331 | over every run board frames are looked at in the order they were posted, none lost or repeated, and exactly those whose handler saw `running` set reach the session |
| `OtaAgentFlow.SentIsTranscript` | src/integration/OtaAgent.cpp:195-209 | over every run what SendFn is handed, call by call, is what the session says, and the transport counts as failed exactly if some of it was not taken |
| `OtaAgentFlow.ProgressMeans` | src/integration/OtaAgent.cpp:256-269 | what is published, field by field, is the state of the session's run and of the transport |
| `RingIndex.SlotSurvivesWrap` | src/core/SpscQueue.h:112-134 | masking a wrapped index gives the slot of the unwrapped count, because the capacity divides the modulus |
| `RingIndex.SlotsDistinct` | src/core/SpscQueue.h:120-134 | counts that share a slot are at least a capacity apart |
| `SpscQueue.Queue.Push` | src/core/SpscQueue.h:120-134 | appends to the contents, or refuses exactly when capacity - 1 items are there |
| `SpscQueue.Queue.Pop` | src/core/SpscQueue.h:83-94 | removes and returns the front, or refuses exactly when empty |
| `SpscQueue.Queue.Size` | src/core/SpscQueue.h:106-110 | the number of items, at most capacity - 1 |
| `SpscInterleaving.StepRefinesFifo` | src/core/SpscQueue.h:83-134 | each atomic step of either thread, stale reads allowed, is a push, a pop or nothing on a bounded FIFO, and keeps the invariant |
| `SpscInterleaving.PoppedIsPrefixOfPushed` | src/core/SpscQueue.h:83-134 | over every interleaving and across wrap, the popped items are a prefix of the pushed ones, and occupancy stays within capacity - 1 |
| `SpscInterleaving.SlotsExclusive` | src/core/SpscQueue.h:83-134 | the two threads are never inside one slot at once |
| `SpscInterleaving.SizesBounded` | src/core/SpscQueue.h:106-110 | size() on either thread never underflows and never exceeds capacity - 1, despite its two loads |
| `SpscInterleaving.RefusalsExact` | src/core/SpscQueue.h:83-134 | a push refuses exactly when the head it sees leaves no room, a pop exactly when the tail it sees is its head; with current reads, exactly on full and on empty |
| `SpscInterleaving.LonePushIsPush` | src/core/SpscQueue.h:120-134 | undisturbed, the steps of one push do to the ring what the class does |
| `HistoryRows.GroupedIsPartition` | src/historian/SqliteHistoryStore.cpp:322-333 | the groups have distinct keys and together hold exactly the rows grouped |
| `HistoryRows.AverageBounds` | src/historian/SqliteHistoryStore.cpp:322-333 | an average lies between any bounds of its rows |
| `HistoryTables.DemotionConserves` | src/historian/SqliteHistoryStore.cpp:294-383 | insert and delete together neither lose nor duplicate any sample of any row's lineage |
| `HistoryTables.PromotedRowOk` | src/historian/SqliteHistoryStore.cpp:322-333 | a promoted row carries the bucket edge of every sample it stands for and a value between the least and the greatest of them |
| `HistoryTables.EdgesNest` | src/historian/SqliteHistoryStore.cpp:322-333 | the hour of a minute's edge is the hour of the sample |
| `HistoryTables.EdgeIsFloor` | src/historian/SqliteHistoryStore.cpp:307-312 | the bucket edge is the floor exactly from the epoch on and on the edges themselves |
| `HistoryTables.EdgeBeforeEpoch` | src/historian/SqliteHistoryStore.cpp:307-312 | at ts = -1 the minute's edge is 0 |
| `HistoryTables.SweepKeeps` | src/historian/HistorianMaintenance.cpp:59-71 | a sweep keeps the lineage and every row's honesty, and leaves no raw or minute row older than its cutoff |
| `HistoryTables.RunConserves` | src/historian/HistorianMaintenance.cpp:59-71 | after any writes and sweeps under any clock every accepted sample is in the lineage of exactly one row, and every row stands for its lineage |
| `HistoryTables.FaultyDemotionConserves` | src/historian/SqliteHistoryStore.cpp:314-383 | with a failing statement a demotion conserves the samples exactly when it is not the DELETE step, or nothing was to be deleted; otherwise the demoted samples are stored twice |
| `HistoryTables.DemotionExact` | src/historian/SqliteHistoryStore.cpp:294-383 | a demotion that is rolled back, of no width or from a tier to itself changes nothing; otherwise exactly the rows older than the cutoff leave their tier |
| `HistoryMeans.RunMeans` | src/historian/SqliteHistoryStore.cpp:322-333 | over every run every minute row is the mean of the samples it stands for |
| `HistoryMeans.HourMeanExact` | src/historian/SqliteHistoryStore.cpp:322-333 | an hour row folded from minute means is the mean of its samples exactly when weighting the minutes by their numbers of samples makes no difference |
| `HistoryMeans.EvenMinutes` | src/historian/SqliteHistoryStore.cpp:322-333 | as it does when they have equally many |
| `HistoryMeans.TwoMinutes` | src/historian/SqliteHistoryStore.cpp:322-333 | for two minutes: equally many samples, or one value |
| `HistoryMeans.FoldAddsOne` | src/historian/SqliteHistoryStore.cpp:322-333 | a demotion adds one row to a bucket of a series exactly if it folds a row of it, and otherwise none |
| `HistoryMeans.SweepRowsAt` | src/historian/HistorianMaintenance.cpp:59-71 | how many rows a minute has after a sweep |
| `HistoryMeans.AlignedRunsOnePer` | src/historian/HistorianMaintenance.cpp:59-71 | with cutoffs on minute edges and no late writes a series has at most one row for each minute |
| `HistoryMeans.SplitMinute` | src/historian/HistorianMaintenance.cpp:59-71 | a run that leaves one minute two rows |
| `HistoryPlacement.TiersByAge` | src/historian/HistorianMaintenance.cpp:59-71 | after any run under a clock that does not run backwards, ending with a sweep, each tier stands for exactly the accepted samples of its age band |
| `HistoryPlacement.RangeRouting` | src/historian/SqliteHistoryStore.cpp:104-111 | a range of up to 3600000 ms goes to the raw rows, up to 86400000 to the minutes, a longer one to the hours |
| `HistoryPlacement.QuerySees` | src/historian/SqliteHistoryStore.cpp:104-111 | what a query stands for right after a sweep, by the length of its range in milliseconds: exactly the accepted samples of its series whose timestamp, minute or hour is in the range and which are young, older or oldest enough |
| `HistoryPlacement.LastHourComplete` | src/historian/SqliteHistoryStore.h:62-70 | a query of the last hour after a sweep shows every accepted sample of it, if raw rows are kept that long |
| `HistoryPlacement.LastDayMissesNow` | src/historian/SqliteHistoryStore.cpp:104-111 | a query of the last 24 hours does not show a sample of just now |
| `HistoryLineage.DemotionIgnoresLineage` | src/historian/SqliteHistoryStore.cpp:294-383 | the lineage of the proof influences no column of the database |
| `HistoryStore.SqliteHistoryStore.Write` | src/historian/SqliteHistoryStore.cpp:170-214 | appends one row for each record whose insert succeeds and returns how many; nothing when closed, empty, or the transaction or statement cannot be made |
| `HistoryStore.KeptExact` | src/historian/SqliteHistoryStore.cpp:191-209 | each record whose insert succeeds is kept in its place, and no other |
| `HistoryStore.SqliteHistoryStore.DemoteOlderThan` | src/historian/SqliteHistoryStore.cpp:294-383 | demotes, rolls back, or commits without the DELETE, by the statement that fails; does nothing when closed, on a bucket of no width and from a tier to itself; returns the rows deleted |
| `HistoryStore.SqliteHistoryStore.Query` | src/historian/SqliteHistoryStore.cpp:216-265 | the newest matching rows up to the limit, ascending: no matching row left out is newer than one returned; nothing when closed or when the SELECT cannot be prepared |
| `HistoryQuery.MatchingExact` | src/historian/SqliteHistoryStore.cpp:70-79 | a query considers exactly the rows of its series inside its range, both ends included |
| `HistoryQuery.LimitKeepsNewest` | src/historian/SqliteHistoryStore.cpp:70-79 | newest-first order cut at a limit keeps the newest rows |
| `HistoryStore.HistorianMaintenance.RunOnce` | src/historian/HistorianMaintenance.cpp:59-78 | raw to minute, then minute to hour, on one reading of the clock; with no statement failing, the sweep that conserves |
| `MqttPacket.EncodeRemainingLength` | src/integration/MqttPacket.cpp:139-156 | refuses exactly the values over 268435455, and otherwise writes the seven-bit groups, lowest first |
| `MqttPacket.DecodeRemainingLength` | src/integration/MqttPacket.cpp:158-176 | reads a code with no 32-bit step wrapping, and fails as the recursive reader does |
| `MqttPacket.LengthRoundTrip` | src/integration/MqttPacket.cpp:139-176 | decoding inverts encoding for every allowed value, whatever bytes follow, in 1 to 4 bytes |
| `MqttPacket.EncodingIsShortest` | src/integration/MqttPacket.cpp:139-156 | no code of the same value is shorter than the encoder's |
| `MqttPacket.ReadIsCode` | src/integration/MqttPacket.cpp:158-176 | what is decoded is a well-formed code at the front, with a value below 2^28 |
| `MqttPacket.ReadFails` | src/integration/MqttPacket.cpp:158-176 | exactly when decoding fails: every byte looked at asks for another, and which error it is |
| `MqttPacket.StringReads` | src/integration/MqttPacket.cpp:104-135 | a string is read from a buffer exactly when its own field is at the front |
| `MqttPacket.BuildPublish` | src/integration/MqttPacket.cpp:223-237 | which topics and sizes are refused, and the packet built from the size as cut to 32 bits |
| `MqttPacket.ParsePublish` | src/integration/MqttPacket.cpp:356-397 | every error of the parser in the code's order, and the topic and payload otherwise |
| `MqttPacket.EncodedParses` | src/integration/MqttPacket.cpp:356-397 | every encoding under an accepted header parses to its topic and payload |
| `MqttPacket.ParsedIsEncoded` | src/integration/MqttPacket.cpp:356-397 | nothing else parses |
| `MqttPacket.PublishRoundTrip` | src/integration/MqttPacket.cpp:223-237 | a built packet reads back as its topic and payload exactly when the body fits the length field |
| `MqttPacket.WrappedPublish` | src/integration/MqttPacket.cpp:223-237 | a payload of 2^32 bytes is built into a packet that does not read back |
| `MqttPacket.ExactFrameIsSafe` | src/integration/MqttPacket.cpp:356-397 | in an exact packet the topic cannot end past the body |
| `MqttPacket.BuildSubscribe` | src/integration/MqttPacket.cpp:249-273 | refuses exactly the overlong topics, and otherwise builds the packet |
| `MqttPacket.SubscribeReads` | src/integration/MqttPacket.cpp:249-273 | a reader of the packet finds one frame with the identifier, the topic filter and quality of service 0 |
| `MqttFormat.LengthDigits` | src/integration/MqttPacket.cpp:139-156 | the k-th byte of a length is its k-th digit to the base 128, plus 128 if another follows |
| `MqttFormat.LengthExamples` | src/integration/MqttPacket.cpp:139-156 | the smallest and largest value of each size |
| `MqttFormat.StringNumbers` | src/integration/MqttPacket.cpp:178-189 | a string is its length, high byte first, and its bytes |
| `MqttFormat.HeadersTaken` | src/integration/MqttPacket.cpp:356-375 | the headers of a PUBLISH that are accepted are 0x30, 0x31, 0x38 and 0x39 |
| `MqttFormat.PublishExample` | src/integration/MqttPacket.cpp:223-237 | a PUBLISH, byte by byte |
| `MqttFormat.PublishRefused` | src/integration/MqttPacket.cpp:356-375 | an empty buffer, another type and another quality of service, each with its error |
| `MqttFormat.BodyRefused` | src/integration/MqttPacket.cpp:376-397 | a body shorter than stated, and a topic that does not fit the buffer |
| `MqttFormat.SubscribeExample` | src/integration/MqttPacket.cpp:249-273 | a SUBSCRIBE, byte by byte |
| `MqttReadLoop.LoopMatchesDecoder` | src/integration/MqttClient.cpp:343-436 | on every byte stream the loop dispatches exactly the packets the one-shot decoder cuts it into, and then stands inside the rest |
| `MqttReadLoop.CutIsComplete` | src/integration/MqttClient.cpp:343-436 | the cut loses nothing, its packets are whole, and what is left is less than one |
| `MqttReadLoop.FramesRecovered` | src/integration/MqttClient.cpp:343-436 | concatenated packets, in any well-formed length coding, are dispatched one by one in order |
| `MqttReadLoop.StreamDelivered` | src/integration/MqttClient.cpp:438-498 | every built PUBLISH between acknowledgements reaches its exact-match callback once, in order, with its own topic and payload, and is counted unless the callback throws |
| `MqttFormat.CarriedParses` | src/integration/MqttPacket.cpp:356-397 | a packet parses to a message exactly if it carries it: an accepted header and a body of topic length, topic and payload |
| `MqttFormat.FramesSeen` | src/integration/MqttClient.cpp:438-498 | any packets at all, well-formed or not: exactly the messages among them reach the callbacks of their topics, in order and once, and count unless the callback throws; a PUBLISH that does not parse does nothing |
| `MqttReadLoop.AckBytes` | src/integration/MqttPacket.cpp:315-354 | SUBACK, UNSUBACK and PINGRESP are among the packets such a stream may hold |
| `MqttReadLoop.MqttClient.OnByte` | src/integration/MqttClient.cpp:343-436 | each completed read moves the client as the byte-driven machine says |
| `MqttReadLoop.MqttClient.DispatchFrame` | src/integration/MqttClient.cpp:438-484 | only a PUBLISH that parses is delivered, and counted unless its callback throws; malformed and other packets keep the loop alive |
| `MqttReadLoop.MqttClient.OnReadError` | src/integration/MqttClient.cpp:351-366 | a failed read ends the loop and marks the client down unless it was cancelled |
| `MqttReadLoop.MqttClient.Subscribe` | src/integration/MqttClient.cpp:282-305 | registers or replaces one callback and, while connected, posts its SUBSCRIBE; empty and overlong topics are ignored |
| `MqttReadLoop.MqttClient.SendSubscribeFrame` | src/integration/MqttClient.cpp:322-335 | the posted handler sends the packet with the next identifier, or marks the client down, or sends nothing on a client that is down |
| `MqttReadLoop.PacketIdExact` | src/integration/MqttClient.cpp:322-335 | the n-th identifier, and that it is zero exactly for every 65536th SUBSCRIBE |
| `MqttFormat.IdentifierNumbers` | src/integration/MqttClient.cpp:322-335 | identifiers count from 1 to 65535, and then 0 |
| `CsvSerializer.EscapeField` | src/integration/CsvSerializer.cpp:110-127 | quotes exactly the fields with a comma, quote, CR or LF, doubling the quotes |
| `CsvSerializer.Serializer.ParseRecord` | src/integration/CsvSerializer.cpp:133-183 | the scanning loop reads the fields, the rest and the state of the stream that the recursive scanner describes |
| `CsvSerializer.RecordScanned` | src/integration/CsvSerializer.cpp:110-183 | escaped fields joined by commas are read back field for field, up to the record's terminator exactly |
| `CsvSerializer.CsvRoundTrip` | src/integration/CsvSerializer.cpp:34-108 | for any header and any strings, reading what was written gives back every product, rates to the tenth |
| `CsvFormat.QuotedExactly` | src/integration/CsvSerializer.cpp:110-127 | a field is written as it is exactly if it has no comma, quote or line break, and otherwise between quotes with its own doubled |
| `CsvFormat.CsvExample` | src/integration/CsvSerializer.cpp:34-54 | a whole text: mark, header line, row, CRLF |
| `CsvFormat.AnyRecordRead` | src/integration/CsvSerializer.cpp:133-183 | a record in any form the format allows, ended by CRLF, LF, CR or the end of the text, is read field by field up to its end exactly |
| `CsvFormat.OpenQuoteRead` | src/integration/CsvSerializer.cpp:133-165 | a quote that is never closed takes the rest of the text |
| `CsvFormat.ColumnsExact` | src/integration/CsvSerializer.cpp:78-106 | a row is five fields, the fourth an integer and the fifth a number, each in its place; the first thing wrong is what is reported |
| `CsvFormat.FirstBadRow` | src/integration/CsvSerializer.cpp:75-107 | rows become products in their order, and the first that does not is the error |
| `CsvFormat.EmptyLineRead` | src/integration/CsvSerializer.cpp:75-84 | an empty line is a row of one field |
| `CsvFormat.MarkIsOptional` | src/integration/CsvSerializer.cpp:56-73 | without the mark a text reads the same |
| `CsvSerializer.Serializer.WriteProducts` | src/integration/CsvSerializer.cpp:34-54 | writes mark, header and rows |
| `CsvSerializer.Serializer.ReadProducts` | src/integration/CsvSerializer.cpp:56-108 | skips the mark, drops the header, and returns the rows or the first error |
| `Products.RoundedSame` | src/integration/CsvSerializer.cpp:129-131 | rates survive unchanged exactly when they are whole tenths |
| `DecimalText.IntegerReads` | src/integration/CsvSerializer.cpp:92-97 | every 32-bit integer's text reads back as it |
| `DecimalText.RateReads` | src/integration/CsvSerializer.cpp:99-105 | a rate written with one decimal reads back as the nearest tenth |
| `DecimalLaws.DigitsPlaced` | src/integration/CsvSerializer.cpp:45-51 | every digit of a written number stands at its power of ten, without a leading zero |
| `DecimalLaws.RateForm` | src/integration/CsvSerializer.cpp:129-131 | a rate is written to the nearest tenth: sign, whole part, point, one digit |
| `DecimalLaws.FromCharsReads` | src/integration/CsvSerializer.cpp:92-97 | an optional minus and digits are read as their value if it fits 32 bits, whatever follows |
| `DecimalLaws.FromCharsRefuses` | src/integration/CsvSerializer.cpp:92-97 | and nothing else is |
| `DecimalLaws.StofReads` | src/integration/CsvSerializer.cpp:99-105 | blanks, sign, digits, point and exponent are read as the number they stand for, whatever follows |
| `DecimalLaws.FixedMeans` | src/integration/CsvSerializer.cpp:99-105 | digits before and behind the point stand for their number over a power of ten |
| `DecimalLaws.StofRefuses` | src/integration/CsvSerializer.cpp:99-105 | a text without a digit in its place is refused |
| `JsonSerializer.EscapeString` | src/integration/JsonSerializer.cpp:206-228 | escapes character by character, the other controls in hexadecimal |
| `JsonSerializer.ReadString` | src/integration/JsonSerializer.cpp:41-77 | the string loop, with its four errors |
| `JsonSerializer.ReadNumber` | src/integration/JsonSerializer.cpp:80-100 | the longest run of number characters, or an error |
| `JsonSerializer.ReadProducts` | src/integration/JsonSerializer.cpp:130-204 | the reader's loops accept, reject and assign as the recursive reader does |
| `JsonSerializer.WriteProducts` | src/integration/JsonSerializer.cpp:104-128 | writes the array in the layout the reader is proved against |
| `JsonRoundTrip.TextUnescapes` | src/integration/JsonSerializer.cpp:41-77 | an escaped string reads back as itself exactly when it is clean, and is rejected otherwise |
| `JsonRoundTrip.MembersRead` | src/integration/JsonSerializer.cpp:150-190 | members read one by one into their own fields |
| `JsonRoundTrip.JsonRoundTrip` | src/integration/JsonSerializer.cpp:104-204 | a product list is read back, rates to the tenth, exactly when no string holds a control character without a letter escape; otherwise the text is rejected |
| `JsonRoundTrip.UncleanExample` | src/integration/JsonSerializer.cpp:218-222 | a product code of U+001B is written and then rejected |
| `JsonLayout.EscapesExact` | src/integration/JsonSerializer.cpp:206-228 | how each character is written inside a string |
| `JsonLayout.ObjectLines` | src/integration/JsonSerializer.cpp:104-128 | an object to the character: keys, order, indentation |
| `JsonLayout.ArrayLines` | src/integration/JsonSerializer.cpp:104-128 | an empty array, one object, and two |
| `JsonLayout.AnyLayoutRead` | src/integration/JsonSerializer.cpp:130-204 | blanks anywhere between tokens, members in any order, missing, repeated or unknown: each object is read in order, the last member of a key counts, the rest is left as it was |
| `JsonLayout.UnknownKeyIgnored` | src/integration/JsonSerializer.cpp:182-190 | a member with an unknown key leaves the product as it is |
| `JsonLayout.EscapesRead` | src/integration/JsonSerializer.cpp:50-74 | what a backslash may stand before, and the error otherwise |
| `JsonLayout.Rejected` | src/integration/JsonSerializer.cpp:130-165 | a text is rejected where it first departs from an array of objects |
| `JsonLayout.MemberRejected` | src/integration/JsonSerializer.cpp:163-190 | a key without colon, a value of the wrong kind, a nested value |
| `JsonLayout.NumberRejected` | src/integration/JsonSerializer.cpp:169-181 | a number its field cannot hold |
| `JsonLayout.AfterObject` | src/integration/JsonSerializer.cpp:193-202 | anything but a comma or the end of the array after an object |
| `ConfigFlatten.Flatten` | src/config/ConfigManager.cpp:77-141 | the worklist terminates on every tree and binds each dotted path to its first leaf in document order |
| `ConfigFlatten.RecursiveWrites` | src/config/ConfigManager.cpp:50-76 | the recursion it replaced writes the leaves in document order, so the last wins |
| `ConfigFlatten.OrderMatters` | src/config/ConfigManager.cpp:74-76 | the two agree exactly when the first and the last leaf of every path have the same text |
| `ConfigFlatten.DistinctPathsAgree` | src/config/ConfigManager.cpp:74-76 | they agree when no two leaves share a path |
| `ConfigPaths.PlainLeavesApart` | src/config/ConfigManager.cpp:92-110 | if all keys of every object are distinct, not empty and free of dots, all leaf paths are distinct |
| `ConfigPaths.PlainKeysAgree` | src/config/ConfigManager.cpp:74-76 | for such documents traversal order does not matter |
| `ConfigFlatten.OrderExample` | src/config/ConfigManager.cpp:77-141 | a document on which they differ |
| `ConfigFlatten.FirstWinsText` | src/config/ConfigManager.cpp:77-141 | each path has the text of its first leaf |
| `ConfigFlatten.PathsNotEmpty` | src/config/ConfigManager.cpp:112-118 | nothing is bound to the empty path |
| `ConfigLeaves.LeafFlattened` | src/config/ConfigManager.cpp:77-141 | where keys are plain, the dotted path of keys and indices to any leaf is bound to what the leaf says: a string itself, "true" exactly for true, an integer's digits, nothing for null |
| `ConfigLeaves.FlattenedIsLeaf` | src/config/ConfigManager.cpp:77-141 | and nothing else is bound |
| `ConfigFlatten.IntegerTextExact` | src/config/ConfigManager.cpp:123-131 | an integer leaf's text denotes the integer exactly when it is below 2^63 |
| `ConfigFlatten.IntegerTextExample` | src/config/ConfigManager.cpp:123-128 | 2^63 becomes the least signed 64-bit number |

## Left out

- OtaSession: the texts of failures and the initial value of the context's clock, which nothing reads before a call sets it.
- OtaLink.UpdateIsSafe: the board is abstract: what it does with a frame is act and acknowledge, or nothing; it never repeats an ACK of an earlier session, and whether it times out a half-received frame is not modelled. The image is shorter than 2^32 bytes. That no parser finds a frame nobody sent is sufficient and not necessary, since a phantom can be harmless.
- OtaAgentLifecycle: destruction of the agent and expired weak references, exceptions thrown by SendFn or DoneFn, reuse of an ended thread's id, and the time between ticks. The two functions are modelled by whether they call stop(). Reads of the progress snapshot take a mutex that is never held across a wait, and are left out.
- SpscInterleaving: acquire and release are modelled by what they allow a thread to see of the other's index, and slot contents as sequentially consistent, which `SlotsExclusive` justifies. Masking is taking low bits.
- HistoryTables.RunConserves: whole runs in which no statement fails; one demotion with a failing statement is `FaultyDemotionConserves`.
- HistoryStore: a COMMIT that fails, 64-bit overflow of timestamps, the maintenance thread's wait loop, logging, the lock and the schema statements. Values are real numbers, not floats.
- MqttReadLoop.StreamDelivered: the subscriptions are those at the time of the bytes.
- MqttReadLoop: sockets, connecting, heartbeat, reconnection and the replay of subscriptions.
- MqttPacket: CONNECT, UNSUBSCRIBE and the parsers of acknowledgements, which would add only straight-line members.
- MqttPacket.ParsePublish: in a buffer with more than one packet the code may form a payload of negative size; that outcome is the error TopicPastBody here.
- DecimalText.RateReads: rates are real numbers, rounded half up and without a negative zero; infinities, hexadecimal numbers and out-of-range exponents of std::stof are left out.
- CsvSerializer: product columns that the formats do not carry, such as ids and timestamps.
- JsonText: the text of error messages.
- ConfigFlatten: loading, validating and reloading the file, format strings, and the text of floating-point numbers, which is a given of each leaf.
- Views, translations, authentication, the HTTP backend, start-up and shutdown: wiring and presentation.
