# ShellPort, verified in Dafny

ShellPort carries up to 64 terminal sessions over one encrypted WebSocket. A Go server and a
JavaScript client each implement one half of a private framing and close protocol. This project
models both halves and the byte pipes between them, and proves what they promise each other.

`dafny verify dfyconfig.toml` checks all of it.

## How it is built

Code that changes things step by step is a class or a method in the form of the source. It is
proved equal to a function of the concatenated bytes, and the theorems are about that function.

| layer | in the form of the source | as functions | theorems |
|---|---|---|---|
| readers | `Rw`, `Reader` | | |
| frames, as both ends write them | | `Protocol`, `Frames` | `Protocol`, `Frames` |
| server loop | `Handler` | `HandlerSpec` | `HandlerFrames`, `HandlerLifecycle`, `HandlerGate`, `HandlerPause`, `Failures` |
| client loop | `ClientStreams` | `ClientSpec` | `ClientFrames`, `ClientLifecycle`, `EchoTrip`, `Failures` |
| both ends of a slot | | `CloseHandshake` (step system) | `CloseHandshake`, `HandshakeRest`, `LateSegments`, `HandshakeRuns`, `HandshakeFrames` |
| client sender | `Sender`, `Subscribe` | `SenderSpec` (step system) | `SenderConservation`, `SenderPromises`, `SenderLimit` |
| segmentation | `Segmenting` | `Segmenting.Cut` | `Segmenting` |
| encrypted records | `Transport`, `Nonce` | `Transport.Records`, `OpenAll` | `Transport`, `Nonce` |
| all of these together | | | `EndToEnd`, `ServerToClient` |
| client back-pressure | `BackPressure.Accounting` | `BackPressure` (step system) | `BackPressure` |
| Telnet | `Telnet` | `TelnetSpec` | `TelnetSpec`, `TelnetReplies`, `Telnet` |
| SSH opening request | `SshRequest` | `SshWire` | `SshWire` |
| presets | `PresetFile`, `PresetSecret`, `PresetConfig`, `Lookup` | `PresetFile`, `PresetText` | `PresetMeaning`, `PresetSecret`, `PresetFingerprint` |

What the code does not decide itself is a parameter. The server's `Env` says which commands are
registered, and for each call in turn whether it succeeds. The client's `Env` also says when the
user opens a stream and when the echo timer fires. `Cipher` and `Vault` are pairs of functions of
which only "what was sealed opens again" is used. A source of bytes is the list of chunks it still
gives; once the list is used up, reading fails.

## What the proofs found

Where the code does not meet what one would expect of it, the condition under which it does is
proved, for all inputs.

- `sendData` looks at `closed` only when it is called (ui/stream/stream.js:80-105), and its sender
  may be closed while it waits between two segments. If the user closed it, the next segment leads
  the server to end the whole connection. If the server did, its slot is free again by then, and it
  reads the segment as an opening frame, for the command that marker and length happen to spell.
  Otherwise neither happens. `LateSegments.SegmentFateIsKnown`; `HandshakeRuns.RefusalHappens` and
  `MisreadingHappens` are runs that get there, `HandshakeFrames.ServerMisreadsData` is what the loop
  makes of it.
- A segment that is sent when its session is over carries no mark of it. If its slot is free when it
  arrives, it is read as an opening frame; if the slot is closed, it ends the connection; and if
  another session is open, that session's machine is handed the bytes:
  `LateSegments.StaleSegmentGoesAstray`, on every run of the server.
  `HandshakeRuns.LeftoverHappens`, `StaleRefusalHappens` and `CrossingHappens` are runs to each of
  the three, and `HandshakeFrames.ServerHandsOver` is the third at the loop.
- A command that throws while it is started keeps its slot, although nothing was sent
  (ui/stream/stream.js:262-275): `HandshakeRuns.LossHappens`. No orderly run frees it,
  `CloseHandshake.UnsentSlotIsLost`. A segment that outlived an earlier session can: the server
  answers it as an opening frame, and the client takes that for the answer it waits for.
  `HandshakeRuns.LossWithLeftoverHappens` is an orderly run to there,
  `HandshakeFrames.LostSlotIsFreed` what follows.
- `Sender.close` does not ask whether the stream was answered yet (ui/stream/stream.js:130-144). A
  Close that is sent before the answer ends the connection if and only if it finds the server's slot
  free, because the machine did not boot or the request was never sent:
  `LateSegments.EarlyCloseIsFatalIff`. `HandshakeRuns.EarlyCloseIsRefused` is an instance. Orderly
  runs close after the answer.
- `SSH.run` always prints a preset ID (ui/commands/ssh.js:102-127), and `ReadFull` asks its reader
  even for no bytes (application/rw/rw.go:14-31). An empty preset ID, the last field, is therefore
  refused as a bad authentication method. `SshWire.RequestRoundTrip` says for every request what
  the server makes of it, and `SshWire.CutRequestIsRefused` that one cut short opens nothing.
- A saved preset value with `://` in it is written to the file as it is, and read back as a
  reference (application/configuration/preset_file.go:214-239,
  application/configuration/string.go:51-82). `PresetMeaning.KeyReadsBack`.
- A preset new to the file with both a plain and an encrypted password is written with both; saving
  it again drops the plain one. `PresetMeaning.SavingAgainChangesNothing`. `ApplyPresetSecrets`
  never lets such a preset through: `PresetSecret.SavingTakenPresetsSettles`.
- A metadata key the user removed stays in the file, as does any raw key nobody saved; only the
  password keys follow the saved preset. `PresetMeaning.KeysNobodySaved`.
- An unknown Telnet command ends the parsing loop for good (ui/control/telnet.js:362-378). The parser
  stops if and only if a byte it knows no command for stands where it expects one,
  `TelnetSpec.HaltedIff`; nothing behind it is shown or answered, `TelnetSpec.StoppedBy`, which
  `Telnet.Parser.Session` says of any buffers. 255 and such a byte are enough:
  `TelnetSpec.UnknownCommandStops`.
- The server's answer to an undefined command leaves the request in the stream
  (application/command/streams.go:409-416). An opening frame is consumed exactly if and only if its
  command is registered or its request is empty, `HandlerFrames.OpeningAlignsIff`; else the request
  is read as frames, `RequestReadAsFrames`, and `AlignmentIsLost` shows a header served that nobody
  sent.
- An empty buffer is never got rid of by the client's reader, so that every later read fails too
  (ui/stream/reader.js:112-128). All bytes fed can be read if and only if no buffer with bytes in it
  comes behind an empty one: `Reader.AllCanBeRead`; `Reader.EmptyBufferBlocks` is an instance.
- A fingerprint-only update may change what the server keeps secret of a preset; the validator does
  not look at it (application/controller/preset_config.go:297-350):
  `PresetFingerprint.SecretMetaIsNotCompared`.

## Model

| member | source | states |
|---|---|---|
| Rw.FetchReader.Export | application/rw/fetch.go:86-99 | takes exactly n buffered bytes, or fails and changes nothing |
| Rw.FetchReader.Fetch | application/rw/fetch.go:109-135 | the bytes still to come are what it returns followed by what is still to come afterwards; it fails only at the end |
| Rw.FetchReader.FetchOneByte | application/rw/fetch.go:40-54 | skips empty chunks, gives the next byte, and fails exactly when there is none |
| Rw.ReadFull | application/controller/socket.go:351-382 | fills the range with the next bytes exactly when enough are to come, however they are chunked, and touches nothing else |
| Rw.LimitedReader.Read | application/rw/limited.go:87-103 | reads within the limit and never moves what lies behind it; refuses when the limit is used up |
| Rw.LimitedReader.Ditch | application/rw/limited.go:107-117 | leaves the stream exactly behind the limit, whatever was read before |
| Reader.Reader.Export | ui/stream/reader.js:112-428 | takes bytes in order across buffers; refused exactly when none are left, or an empty buffer is in the way |
| Reader.AllCanBeRead | ui/stream/reader.js:112-128 | all bytes fed can be read if and only if no buffer with bytes in it comes behind an empty one |
| Reader.EmptyBufferBlocks | ui/stream/reader.js:112-128 | an empty buffer, and a byte behind it that is never read |
| Reader.Reader.ReadOne | ui/stream/reader.js:439-448 | the next byte, exactly when there is one |
| Reader.Reader.ReadN | ui/stream/reader.js:460-469 | exactly the next n bytes, exactly when there are as many |
| Reader.Limited.Export | ui/stream/reader.js:565-576 | stays within the limit; refused exactly when limit or stream is used up |
| Reader.Limited.ReadCompletely | ui/stream/reader.js:587-589 | gives all the limit leaves and puts the stream behind it, or fails because the stream is shorter |
| Protocol.HeadersRoundTrip | application/command/streams.go:53-144 | every header that can be written is read back as written, both sub-header layouts and the type byte |
| Frames.OnTheWire | application/command/header.go:9-69 | every frame in literal bytes: type bits, slot or length, the two sub-header layouts, and what follows |
| Handler.Handler.HandleControl | application/command/handler.go:191-253 | reads one control message and does what `HandlerSpec.Control` says for the bytes to come; which bytes pause and resume is `HandlerPause.OnlyControlPauses` |
| Handler.Handler.Write | application/command/handler.go:102-111 | a write is recorded with whether it had to wait for a resume; the bypass never waits |
| Handler.Handler.Signal | application/command/handler.go:82-98 | header byte and sub-header go out as one write |
| Handler.Handler.Boot | application/command/fsm.go:126-140 | a machine that boots fills the slot and is answered with success, one that fails leaves it free and is answered with its code |
| Handler.Handler.Reinit | application/command/streams.go:385-451 | opens a slot, or answers why not, and leaves the stream behind the request however little of it the machine read |
| Handler.Handler.TickOn | application/command/fsm.go:150-156 | a closed machine is never ticked; any other gets what its reader shows |
| Handler.Handler.TickMachine | application/command/streams.go:456-477 | hands the machine exactly its payload and leaves the stream behind it |
| Handler.Handler.CloseMachine | application/command/fsm.go:181-185 | closes the machine and marks it closed, whether or not the machine reports an error |
| Handler.Handler.HandleStream | application/command/handler.go:262-292 | opens or ticks by the state of the slot, lifting a pause for the answer only |
| Handler.Handler.CloseStream | application/command/streams.go:482-496 | closes a running stream once and refuses otherwise |
| Handler.Handler.ReleaseStream | application/command/fsm.go:161-177 | frees the slot and closes a machine that was not closed yet before releasing it |
| Handler.Handler.HandleClose | application/command/handler.go:297-323 | closes with the pause lifted, then answers Completed; a second Close does nothing |
| Handler.Handler.HandleCompleted | application/command/handler.go:327-340 | releases with the pause lifted |
| Handler.Handler.Shutdown | application/command/streams.go:354-366 | closes what is not closed and releases every running stream |
| Handler.Handler.Handle | application/command/handler.go:347-400 | a whole connection does what `HandlerSpec` says of the concatenated input, for any chunking |
| HandlerFrames.OneFrame | application/command/handler.go:359-399 | one loop iteration consumes exactly one frame, whatever follows it, but for the request of an undefined command |
| HandlerFrames.OpeningAlignsIff | application/command/streams.go:385-451 | an opening frame is consumed exactly if and only if its command is registered or its request is empty |
| HandlerFrames.RequestReadAsFrames | application/command/streams.go:409-416 | the request of an undefined command is what the loop reads next |
| HandlerFrames.AlignmentIsLost | application/command/streams.go:409-416 | such a request, and the server dispatching a header nobody sent |
| HandlerFrames.LoopPlaysFrames | application/command/streams.go:425-477 | the loop on the bytes of frames is the frames one after another, whatever follows them, up to the first that ends the connection or loses the alignment |
| HandlerFrames.PlayDelivers | application/command/streams.go:456-477 | accepted frames hand each slot exactly the payloads sent on it, in order |
| HandlerFrames.BytesReachMachines | application/command/handler.go:347-400 | so does the loop on their bytes |
| HandlerFrames.PrefixDelivers | application/command/streams.go:456-477 | wherever the stream is cut off, each slot's machines were handed a prefix of what was sent on it |
| HandlerLifecycle.EveryMachineEndsOnce | application/command/fsm.go:126-185 | for every input and every end, each machine that booted is closed once, then released once, and never ticked after its close; one that failed to boot gets neither |
| HandlerLifecycle.PhaseCounts | application/command/streams.go:482-506 | the phases of that theorem in plain numbers of calls |
| HandlerGate.NeverWaitsForItself | application/command/handler.go:63-111 | at every loop head the suspension of writes and the handler's note of a pause agree; nothing the handler does waits on the suspension; machines are shut down unpaused |
| HandlerPause.OnlyControlPauses | application/command/handler.go:191-253 | on any input, a control message that starts with 1 leaves the client paused and writes suspended, one that starts with 2 neither, and every other iteration leaves both as they were |
| HandlerPause.ControlIsSilent | application/command/handler.go:191-253 | a control message other than an echo sends nothing and changes nothing but the pause |
| HandlerPause.WritesWaitWhilePaused | application/command/handler.go:102-111 | behind any accepted frames, writes are suspended exactly while the pause that these frames ask for is in force, and an ordinary write waits exactly then |
| HandlerGate.EchoIsVerbatim | application/command/handler.go:191-253 | an echo is answered with its own bytes, even while paused, and changes nothing else |
| Failures.ServerFailureIsLast | application/command/handler.go:347-400 | on any input, a failed tick, release or write, or a failed close on request, is the last thing the loop does; only a failed boot, an answer that says no, and the close before a release are passed over |
| ClientStreams.Streams.Request | ui/stream/streams.js:214-231 | takes the first idle slot, or none when all run; a command that throws keeps the slot and sends nothing |
| ClientLifecycle.RequestTakesFirstIdle | ui/stream/streams.js:214-231 | a request takes the first idle slot and is sent unless its command throws or its data does not fit eleven bits |
| ClientStreams.Streams.EchoResolved | ui/stream/streams.js:247-256 | an unanswered echo fails when the send of the next one is resolved, which then is the one awaited |
| ClientStreams.Streams.EchoAnswer | ui/stream/streams.js:270-302 | an answer of the right length ends the wait, well exactly when it is the data sent |
| ClientStreams.Streams.HandleControl | ui/stream/streams.js:265-312 | takes echo answers only, compares them byte by byte, and leaves the stream behind the message |
| ClientStreams.Streams.Initialize | ui/stream/stream.js:284-308 | a good answer opens the slot, a bad one frees it, one to a slot that shuts down ends the connection |
| ClientStreams.Streams.Tick | ui/stream/streams.js:354-364 | hands the command its payload and leaves the stream behind it, however little the command read |
| ClientStreams.Streams.HandleStream | ui/stream/streams.js:323-365 | an answer or data by the state of the slot; a slot without command ends the connection |
| ClientStreams.Streams.HandleClose | ui/stream/streams.js:375-400 | closes a slot once and acknowledges with Completed |
| ClientStreams.Streams.CloseStream | ui/stream/stream.js:340-354 | marks a running slot as shutting down, once, and refuses otherwise |
| ClientStreams.Streams.EndStream | ui/stream/stream.js:362-377 | frees a slot that is shutting down and refuses otherwise |
| ClientStreams.Streams.Clear | ui/stream/streams.js:132-175 | every running slot is closed if it was not, and ended |
| ClientStreams.Streams.HandleFrame | ui/stream/streams.js:435-455 | dispatches by the type bits |
| ClientStreams.Streams.Serve | ui/stream/streams.js:89-119 | a whole connection does what `ClientSpec` says of the concatenated input, for any buffering |
| ClientFrames.OneFrame | ui/stream/streams.js:435-455 | one iteration consumes exactly one frame, whatever follows it |
| ClientFrames.LoopPlaysFrames | ui/stream/streams.js:354-364 | the loop on the bytes of frames is the frames one after another, with the user's requests in between |
| ClientFrames.BytesReachCommands | ui/stream/streams.js:323-365 | accepted frames hand each slot's command exactly the payloads sent to it |
| ClientFrames.PrefixDelivers | ui/stream/streams.js:323-365 | wherever the stream is cut off, each slot's commands were handed a prefix of them |
| ClientLifecycle.EveryCommandRunsItsCourse | ui/stream/stream.js:208-378 | on every connection, at every moment, a command is answered at most once, ticked only between a good answer and its close, closed once and then ended once; none is left open |
| Failures.ClientFailureIsLast | ui/stream/streams.js:89-119 | on any input, a command that throws is the last thing the client's loop does |
| EchoTrip.EchoComesBack | ui/stream/streams.js:237-312 | the server's answer to an echo is what the client takes for the answer, paused or not |
| EchoTrip.UnansweredEchoFails | ui/stream/streams.js:247-256 | an echo still awaited is reported failed when the send of the next one is resolved, which is then awaited |
| EchoTrip.AnswerDecides | ui/stream/streams.js:270-302 | an answer of the awaited length ends the wait, matched if its bytes are the same and failed if not; one of another length changes nothing |
| EchoTrip.OtherControlEnds | ui/stream/streams.js:265-312 | a control message that is no answer to an echo ends the client's loop |
| EchoTrip.EveryEchoHasOneOutcome | ui/stream/streams.js:237-312 | on every connection echoes and outcomes alternate |
| CloseHandshake.ActKeepsInv | ui/stream/streams.js:323-428 | every orderly step of either end, of a machine or of the queues keeps each slot in one of its legal standings |
| CloseHandshake.NothingIsRejected | application/command/handler.go:262-340 | over all orderly runs, with any number of slots, frames under way, closes by either end, requests that throw and reuses, no receiver rejects a frame, takes it for another kind or meets one of another session; an opening frame alone awaits a free server slot |
| CloseHandshake.UnsentSlotIsLost | ui/stream/stream.js:262-275 | a slot whose command threw before its opening frame was sent stays taken over every orderly run |
| CloseHandshake.NoHalfClosedSlot | ui/stream/stream.js:262-377 | when nothing is under way, every slot is free at both ends or open at both ends, unless its command threw while it was started |
| HandshakeRest.InternalRunsEnd | ui/stream/streams.js:375-428 | left alone, both ends take finitely many steps |
| HandshakeRest.AtRestNothingIsHalfClosed | application/command/handler.go:297-340 | where no frame is left to take and no Close call to return, no slot is half closed; none is open if the machines were left to end |
| HandshakeRest.ComesToRest | application/command/handler.go:262-340 | from every state of an orderly run the handshake gets there by itself |
| LateSegments.SegmentFateIsKnown | ui/stream/stream.js:80-105 | a further segment of sendData ends the connection if and only if the user closed its sender meanwhile, and is read as an opening frame if and only if the server did; on every run of the server |
| LateSegments.StaleSegmentGoesAstray | ui/stream/stream.js:80-105 | on every run of the server, a segment sent after its session is read as an opening frame, refused, or handed to another session, exactly as its slot is free, closed or open when it arrives |
| LateSegments.EarlyCloseIsFatalIff | ui/stream/stream.js:130-144 | on every run of the server, a Close sent before the answer ends the connection if and only if it finds the server's slot free |
| HandshakeRuns.RefusalHappens | ui/stream/stream.js:130-144 | a run to a sender that the user closed with a segment to come |
| HandshakeRuns.MisreadingHappens | ui/stream/streams.js:375-400 | a run to one that the server closed |
| HandshakeRuns.LeftoverHappens | ui/stream/streams.js:410-428 | a run to a segment that outlives its session and finds the slot free |
| HandshakeRuns.CrossingHappens | application/command/handler.go:262-292 | a run to one that finds the slot open again, and is handed to that session's machine |
| HandshakeRuns.StaleRefusalHappens | ui/stream/stream.js:130-144 | a run to one that finds it opened and closed again |
| HandshakeRuns.LossHappens | ui/stream/stream.js:262-275 | a run to a slot whose command threw |
| HandshakeRuns.LossWithLeftoverHappens | ui/stream/stream.js:262-275 | a run to such a slot with a segment of an earlier session to come and the server's slot free |
| HandshakeRuns.EarlyCloseIsRefused | ui/stream/stream.js:130-144 | a Close before the answer ends the connection when the machine does not boot |
| HandshakeFrames.ServerTakesFrame | application/command/handler.go:262-340 | a frame the server's slot takes in the step system, of its session or another, is accepted by the server's loop, with the same slot bits, the same answers and no other slot changed |
| HandshakeFrames.ServerRefusesFrame | application/command/handler.go:262-340 | one it refuses ends the loop |
| HandshakeFrames.ServerMisreadsData | application/command/handler.go:262-292 | a data frame at a free slot is a request for a command made of its marker and length |
| HandshakeFrames.ServerHandsOver | application/command/streams.go:456-477 | a data frame of another session is handed to the machine of the present one |
| HandshakeFrames.LostSlotIsFreed | application/command/streams.go:409-416 | the answer to a data frame read as an undefined command frees a slot of the client whose request was never sent |
| HandshakeFrames.ServerAcceptsOrderlyRun | application/command/handler.go:347-400 | all frames that an orderly run of the 64 slots brings the server are accepted by its loop, refused openings among them |
| HandshakeFrames.ClientTakesFrame | ui/stream/streams.js:323-428 | a frame the client's slot takes in the step system is accepted by the client's loop, with the same slot bits |
| HandshakeFrames.ClientRefusesFrame | ui/stream/streams.js:323-428 | one it refuses ends the loop |
| HandshakeFrames.ClientAcceptsOrderlyRun | ui/stream/streams.js:435-455 | all frames that an orderly run brings the client are accepted by its loop |
| Subscribe.Subscribe.Produce | ui/stream/subscribe.js:58-82 | appends to what the consumer will get, and a waiting consumer is woken |
| Subscribe.Subscribe.Subscribe | ui/stream/subscribe.js:90-127 | the consumer waits exactly when there is nothing to take; nothing is lost or reordered |
| Subscribe.Subscribe.Resume | ui/stream/subscribe.js:90-127 | the consumer gets the oldest value |
| Sender.Sender.Send | ui/stream/sender.js:230-266 | queues the data, and a flush or a timer as `SenderSpec.SendData` says; a closed sender takes nothing |
| Sender.Sender.AppendBuffer | ui/stream/sender.js:92-100 | copies as much as fits behind what the buffer holds |
| Sender.Sender.ExportBuffer | ui/stream/sender.js:108-115 | gives out what the buffer holds and empties it |
| Sender.Sender.Fire | ui/stream/sender.js:178-185 | the timer queues a flush |
| Sender.Sender.Fill | ui/stream/sender.js:153-170 | one round of the copying loop, up to a full segment or the end of the data |
| Sender.Sender.Take | ui/stream/sender.js:121-171 | one item of the channel, up to the loop's next await, as `SenderSpec.TakeItem` says |
| Sender.Sender.Transmitted | ui/stream/sender.js:66-171 | settles the promises that are due with the fate of the segment and goes on copying |
| Sender.Sender.Close | ui/stream/sender.js:196-217 | closing disarms the timer and flushes what was accepted |
| Sender.Sender.CloseDone | ui/stream/sender.js:196-217 | after the flush, the end is queued behind everything |
| SenderConservation.ActFlows | ui/stream/sender.js:66-266 | every step keeps: handed over, held and queued bytes together are what was accepted; segments have legal sizes; unsent bytes have a flush coming |
| SenderPromises.EveryRunKeepsItsPromises | ui/stream/sender.js:66-171 | for any interleaving: nothing lost, doubled or reordered; segments of 1 to maxSegSize bytes; a send resolves only after its last byte was handed over; one that is settled resolved if every segment with a byte of it was taken, and was rejected if one was refused; nothing is stranded |
| SenderPromises.NothingHeldNothingOwed | ui/stream/sender.js:121-171 | once the loop holds no bytes, every send it read is settled |
| SenderPromises.FlushSettlesAll | ui/stream/sender.js:121-144 | once a flush is served, nothing is held and every send read before it is settled |
| SenderPromises.InternalRunsEnd | ui/stream/sender.js:178-185 | left alone, the sender takes finitely many steps |
| SenderPromises.AtRestAllIsSent | ui/stream/sender.js:178-266 | and when none is left, all bytes were handed over and every promise is settled |
| SenderPromises.CloseGoesOn | ui/stream/sender.js:196-217 | left alone, a closed sender gets its flush answered |
| SenderPromises.CloseEndsTheLoop | ui/stream/sender.js:196-217 | then its loop ends with the next step, with every byte handed over, every promise settled and nothing left to do |
| SenderLimit.CountStaysBelow | ui/stream/sender.js:249-257 | over any run fewer requests are counted than the limit |
| SenderLimit.LimitFlushes | ui/stream/sender.js:230-266 | since the timer fired or a segment went out, every send whose number is a multiple of the limit puts a flush behind itself and leaves no timer armed; any other queues nothing but itself and leaves the timer armed |
| SenderLimit.FirstToReachTheLimit | ui/stream/sender.js:249-257 | of the first sends, as many as the limit, exactly the last is flushed by count |
| SenderLimit.SegmentsAreFullOrFlushed | ui/stream/sender.js:153-170 | over any run a segment that goes out without a flush has maxSegSize bytes |
| Segmenting.CutIsExact | ui/stream/common.js:51-68 | pieces join to the whole, none empty or too long, none but the last short |
| Segmenting.SeparateBuffer | ui/stream/common.js:51-68 | cuts exactly so |
| Segmenting.PackFrame | ui/stream/stream.js:93-103 | header byte, sub-header and payload in one array |
| Segmenting.SendData | ui/stream/stream.js:80-105 | one send per piece, each a data frame of the slot, up to the first that is rejected; a closed sender sends nothing |
| Segmenting.WriteSegment | application/command/streams.go:201-228 | one frame with as much of the data as buffer and header allow |
| Segmenting.Send | application/command/streams.go:237-260 | frames up to the first refused one; when none is refused they carry all the data, and no data is one empty frame |
| Nonce.IncreaseNonce | application/controller/socket.go:208-216 | the carry loop is `Increased` for every length |
| Nonce.IncreasedCounts | ui/crypto.js:116-128 | an increase adds one to the big-endian value, modulo 256^n |
| Nonce.AdvancedCounts | ui/crypto.js:116-128 | k increases add k, modulo 256^n |
| Nonce.NoncesAreDistinct | application/controller/socket.go:204-216 | no nonce of one direction repeats within 256^n records (section 8 of NIST SP 800-38D) |
| Transport.OpenUndoesSeal | application/controller/socket.go:339-414 | opening the records of any packets gives the packets back one for one, within the receiver's size limit |
| Transport.OpenCut | application/controller/socket.go:339-382 | a stream of records cut off anywhere opens to the first packets, each whole |
| Transport.SealInto | application/controller/socket.go:394-408 | one record in the write buffer, within its 4096 bytes |
| Transport.Package | application/controller/socket.go:383-416 | any write goes out as records of its pieces, of 4078 bytes but for a shorter last one, one nonce each, within the 4096-byte buffer |
| Transport.ConvertSegment | ui/socket.js:235-248 | one record per segment, one nonce each |
| Transport.OnlyWhatOpens | application/controller/socket.go:351-382 | for any stream and cipher, packet k is what the k-th sealed string opens to under the k-th nonce, each string behind its own size right after the one before, and what follows the last does not open |
| Transport.ForgedEndsTheStream | application/controller/socket.go:370-381 | a record that does not open ends the stream: genuine ones before it are yielded, and nothing from it on |
| Transport.FetchPacket | application/controller/socket.go:351-382 | gives a packet if and only if the stream begins with a size of 1 to 4096 and as many bytes that the cipher opens, however it is chunked, and fails on anything else; the nonce always moves on |
| Transport.UnpackOne | ui/socket.js:250-274 | gives a packet if and only if the stream begins with a size and as many bytes that the cipher opens; the nonce moves on exactly then |
| Transport.FetchAll | application/controller/socket.go:351-382 | every packet is what the cipher opened of the sealed bytes that stand behind those before it, and it stops only where nothing opens |
| Transport.UnpackAll | ui/socket.js:250-274 | the same on the client |
| EndToEnd.SendDataSendsFrames | ui/stream/stream.js:80-105 | the sends of sendData are the frames of its pieces |
| EndToEnd.PacketsArrive | ui/stream/sender.js:121-171 | at any moment of any run, and for any cutting into messages, the server has opened the first of the sender's segments, together a prefix of the frames sent; at rest, all of them |
| EndToEnd.DeliveredSoFar | application/command/streams.go:456-477 | client to server, at every moment: each slot's machines were handed a prefix of the bytes sent on that slot |
| EndToEnd.DeliveredAsSent | application/command/streams.go:456-477 | and at rest all of them, in order, for any interleaving of sendData on all slots in an orderly session |
| ServerToClient.PackageAll | application/controller/socket.go:383-416 | successive writes are records under one running nonce |
| ServerToClient.DeliveredSoFar | ui/stream/streams.js:323-365 | server to client, with any part of the records through: each slot's commands were handed a prefix of the data sent on that slot |
| ServerToClient.DeliveredAsSent | ui/stream/streams.js:323-365 | and with all of them through exactly that data, in order |
| BackPressure.Accounting.InboundUnpacked | ui/socket.js:354-375 | the counters, the pause flag and the signal sent after one message was converted |
| BackPressure.ActKeepsInv | ui/socket.js:333-375 | every step keeps the accounting and the cause of a pause |
| BackPressure.EveryRunIsAccounted | ui/socket.js:333-375 | over all runs the counters differ by the bytes that wait, signals alternate, and a pause in force means most of what was received still waits |
| BackPressure.PausesExactlyWhenDue | ui/socket.js:340-375 | over all runs, a conversion under a stream handler leaves the client paused if and only if more than 16384 bytes, and more than six times what was converted, came since a conversion last caught up; each change sends its one signal, and nothing else pauses, resumes or sends |
| BackPressure.DrainingResumes | ui/socket.js:354-375 | converting what waits always ends with a resume |
| TelnetSpec.ParseUndoesEscape | ui/control/telnet.js:362-378 | in data mode, escaped bytes show exactly the original, send nothing and end in data mode |
| TelnetSpec.EscapeLength | ui/control/telnet.js:566-578 | escaping adds one byte for each 255 |
| TelnetSpec.HaltedIff | ui/control/telnet.js:260-338 | the parser has stopped if and only if an unknown command stands where it expected a command |
| TelnetSpec.StoppedBy | ui/control/telnet.js:362-378 | nothing behind an unknown command is shown or answered, resizes apart |
| TelnetSpec.UnknownCommandStops | ui/control/telnet.js:362-378 | 255 and an unknown byte stop the parser, and no text after them is shown |
| TelnetReplies.EchoIsNegotiated | ui/control/telnet.js:221-299 | for ECHO, WILL is answered DO, DO WILL, WONT DONT and DONT WONT, each if and only if the option changes; local echo is on after WONT and DO |
| TelnetReplies.GoAheadIsNegotiated | ui/control/telnet.js:300-308 | the same for SUPPRESS-GO-AHEAD, without local echo |
| TelnetReplies.NoNegotiationLoop | ui/control/telnet.js:221-248 | a command repeated is not answered again |
| TelnetReplies.OthersAreRefused | ui/control/telnet.js:111-119 | any other option: DO is answered WONT, WILL and WONT are answered DONT, DONT is not answered |
| TelnetReplies.TerminalTypeIsOffered | ui/control/telnet.js:329-335 | DO TERMINAL-TYPE is answered WILL |
| TelnetReplies.WindowSizeIsSent | ui/control/telnet.js:309-328 | DO NAWS is answered with the window size, behind WILL unless that was sent before |
| TelnetReplies.ResizeIsAnnounced | ui/control/telnet.js:348-351 | a resize sends WILL NAWS and is remembered, wherever the parser stands |
| TelnetReplies.GoAheadIsPassedOver | ui/control/telnet.js:271-272 | 255 249 changes nothing |
| TelnetReplies.TypeIsSentWhenAsked | ui/control/telnet.js:164-207 | a subnegotiation is answered with IS XTERM at its end, if and only if its last terminal type is SEND |
| TelnetReplies.EveryBodyIsRead | ui/control/telnet.js:184-207 | every byte string is such a body, up to its end or to where it breaks off |
| Telnet.ChunksDoNotMatter | ui/stream/reader.js:264-282 | only the concatenation of what is fed counts |
| Telnet.EscapedTextSurvivesChunking | ui/control/telnet.js:545-578 | escaped text fed in any pieces is shown as it was |
| Telnet.Parser.ReadUntilIac | ui/stream/reader.js:603-635 | text without 255, or up to and with the first one, even when the buffer came between the two searches |
| Telnet.Parser.Export | ui/stream/reader.js:264-282 | waits for a buffer when there is none and takes at most n bytes of it |
| Telnet.Parser.HandleOption | ui/control/telnet.js:221-248 | answers as `TelnetSpec.Acknowledge` says; which bytes that is for which option is `TelnetReplies` |
| Telnet.Parser.SendDeny | ui/control/telnet.js:111-119 | refuses an option the parser does not know |
| Telnet.Parser.HandleNegotiation | ui/control/telnet.js:260-338 | answers and option state after WILL, WONT, DO and DONT of each option |
| Telnet.Parser.HandleSubNego | ui/control/telnet.js:184-206 | reads a subnegotiation to its end, replying once at IAC SE |
| Telnet.Parser.HandleCmd | ui/control/telnet.js:260-338 | one command after 255 brings the parser back to data, or to the halted state |
| Telnet.Parser.Run | ui/control/telnet.js:362-378 | reads everything, unless an unknown command halts it |
| Telnet.Parser.Session | ui/control/telnet.js:362-378 | for any buffers and resizes, output and state are those of the byte automaton on what was fed in all, up to an unknown command if there is one |
| Telnet.SearchNextIac | ui/control/telnet.js:545-553 | the first 255 from a position on, or none |
| Telnet.SendSeg | ui/control/telnet.js:566-578 | the pieces sent join to the escaped data |
| SshWire.FieldsOnTheWire | ui/commands/string.js:67-75 | strings and addresses in literal bytes, with the four kinds of address |
| SshWire.HostCharacters | application/commands/address.go:73-75 | Latin letters, digits, "_", "." and "-" |
| SshWire.IntegerRoundTrip | application/commands/integer.go:71-117 | every integer up to 0x3fff is read back, one byte or two |
| SshWire.ThirdShift | application/commands/integer.go:97-117 | two bytes with their high bits set are shifted a third time, in sixteen bits; one such byte alone is refused |
| SshWire.StringRoundTrip | application/commands/string.go:35-60 | a string is read back unless it is too long, or empty with nothing after it |
| SshWire.AddressRoundTrip | application/commands/address.go:92-164 | an address is read back unless its host name has a foreign character or none at all |
| SshWire.RequestRoundTrip | application/commands/ssh.go:283-343 | for every request the client prints, exactly what the server makes of it: all four fields, or which error |
| SshWire.BootupExtends | application/commands/ssh.go:283-343 | what boots from a stream cut short boots from a longer one, and leaves the rest over |
| SshWire.CutRequestIsRefused | application/commands/ssh.go:283-343 | a stream that ends anywhere within a request the client prints opens nothing |
| SshWire.RequestFits | ui/commands/ssh.js:102-127 | every accepted request fits the eleven-bit length |
| SshRequest.StringBuffer | ui/commands/string.js:67-75 | prints length and bytes |
| SshRequest.AddressBuffer | ui/commands/address.js:132-204 | prints port, type and data |
| SshRequest.Run | ui/commands/ssh.js:102-127 | prints the four fields one behind the other |
| SshRequest.ReadFullFrom | application/rw/rw.go:14-31 | the next n bytes in any chunking; a used up reader fails even for none, unless an empty chunk answers |
| SshRequest.Unmarshal | application/commands/integer.go:97-117 | the two-byte loop, with its shift after the last byte in sixteen bits |
| SshRequest.ParseStringInto | application/commands/string.go:35-60 | the string stands in the scratch buffer, or an error |
| SshRequest.VerifyHostName | application/commands/address.go:70-76 | accepts exactly the non-empty runs of host name characters |
| SshRequest.FetchOneByte | application/rw/fetch.go:40-54 | the next byte, exactly when the limit and the stream leave one |
| SshRequest.ParseAddressInto | application/commands/address.go:92-164 | port, type and the data in the scratch buffer, or an error |
| SshRequest.ParseOptionalPresetID | application/commands/preset_credential.go:13-22 | nothing left is an empty ID; else a string |
| SshRequest.Bootup | application/commands/ssh.go:283-343 | parses all fields through one scratch buffer, in any chunking, as `SshWire.Bootup` says |
| Lookup.IndexBy | application/configuration/preset_file.go:264-278 | the map finds the last entry with a key |
| PresetFile.MergePresetMeta | application/configuration/preset_file.go:214-239 | the same metadata in whatever order the keys are visited |
| PresetFile.MergePresetInputs | application/configuration/preset_file.go:156-194 | the loops over maps compute the order-free `Merged` |
| PresetMeaning.EntriesOfTheFile | application/configuration/preset_file.go:156-194 | each saved preset once and in order, then exactly the raw entries neither saved nor known to the runtime |
| PresetMeaning.FieldsReadBack | application/configuration/preset_file.go:196-212 | read again, an entry has the saved title and host, and the saved type and colour but for trimming |
| PresetMeaning.KeyReadsBack | application/configuration/preset_file.go:214-239 | a saved key reads back as saved: always when its raw value was kept, else exactly when the value has no "://" |
| PresetMeaning.KeysNobodySaved | application/configuration/preset_file.go:226-237 | raw-only keys stay, except under the two password rules |
| PresetMeaning.SavingAgainChangesNothing | application/configuration/preset_file.go:156-239 | saving the same list again leaves the file alone, exactly unless a preset new to it had both passwords |
| PresetText.UsualSchemes | application/configuration/string.go:51-82 | file://, environment:// and literal://, for instance |
| PresetText.ReadBackAsItself | application/configuration/string.go:51-82 | a value that names no outside source resolves to itself exactly when it has no "://" |
| PresetText.TrimCutsSpace | application/configuration/preset_file.go:156-194 | trimming cuts off space on both sides, all of it and nothing else |
| PresetText.SchemesResolve | application/configuration/string.go:51-82 | what stands before the first "://" decides, in any letter case: a file, an environment variable, the value itself, or a refusal |
| PresetSecret.ApplyPresetSecrets | application/configuration/preset_secret.go:31-82 | keeps the password in one form, keeps all else, refuses exactly what cannot be sealed or opened, and reports whether anything moved |
| PresetSecret.ReportsWhatMoved | application/configuration/preset_secret.go:31-82 | what it reports is whether metadata that goes to the file moved |
| PresetSecret.TakenInIsSettled | application/configuration/preset_secret.go:31-82 | taken in twice is taken in once |
| PresetSecret.SavingTakenPresetsSettles | application/controller/preset_config.go:138-156 | lists out of ApplyPresetSecrets save idempotently |
| PresetConfig.SameMeta | application/controller/preset_config.go:371-392 | equal but for the fingerprint, in any key order |
| PresetConfig.ValidateFingerprint | application/controller/preset_config.go:352-369 | accepts exactly trimmed, short, printable fingerprints with a colon |
| PresetConfig.ValidateOne | application/controller/preset_config.go:317-342 | whether one preset may pass, and whether it changes its fingerprint |
| PresetConfig.ValidateFingerprintOnlyUpdate | application/controller/preset_config.go:297-350 | accepts exactly the updates `Valid` describes |
| PresetConfig.ApplyCompactUpdate | application/controller/preset_config.go:257-279 | the target gets the fingerprint, all else is copied; found or not |
| PresetConfig.EnsurePresetIDs | application/configuration/preset.go:43-71 | succeeds exactly when IDs can be drawn, are short and distinct; keeps given ones |
| PresetFingerprint.Pigeonhole | application/controller/preset_config.go:297-350 | as many distinct IDs as there are, none foreign: all are there |
| PresetFingerprint.FingerprintOnlyIsExact | application/controller/preset_config.go:297-392 | an accepted update is the current list reordered, with nothing changed but the target's fingerprint, and the secret metadata that is not compared, and no new IDs |
| PresetFingerprint.SecretMetaIsNotCompared | application/controller/preset_config.go:297-350 | an update is accepted or not whatever its secret metadata is |
| PresetFingerprint.CompactUpdatePasses | application/controller/preset_config.go:257-279 | a compact update is accepted exactly when its fingerprint may be saved and differs |
| PresetFingerprint.FingerprintSaveKeepsRawValues | application/configuration/preset_file.go:196-239 | saving a fingerprint keeps every other raw value of the file, references included |

## Left out

- WebSocket, HTTP, TLS, SSH, mosh, DNS and SOCKS5 are foreign code, and so are AES-GCM, HMAC and iconv; of encryption only the law in `Cipher` and `Vault` is used.
- Time: delays, deadlines, heartbeats and round-trip times; a timer is a step that may happen.
- Logging, hooks, the user interface, reading and writing files, and the raw JSON fields of a preset entry.
- What a machine behind an FSM does: it reads as much as it likes of its payload and answers each call with success or failure; that its Close returns only after its remote side sent its Close header is part of `CloseHandshake`, not proved of application/commands/telnet.go or ssh.go.
- Machines write from goroutines of their own; in `Handler` only the handler goroutine's writes are logged, and in `CloseHandshake` machines send at any moment.
- The answer to an opening frame is taken to be written before anything its machine sends; the code does not fix that order.
- Handler.Handler.Write: that a write waits for a resume is recorded with the write; the goroutine that waits and the one that wakes it are not modelled.
- ClientStreams.Streams.Clear: the sender's and the reader's close and the `cleared` callback are not modelled, nor `clear` called from outside; a command's `close` and `completed` are taken not to throw.
- ClientStreams.Streams.Serve: an exception marked temporary would let the source's loop go on (ui/stream/streams.js:104-112); only `request` throws such exceptions, and the loop does not call it.
- LateSegments.SegmentFateIsKnown: overlapping `sendData` calls on one slot are not modelled; a call begins after the slot is open.
- CloseHandshake.NothingIsRejected: stated for orderly runs, in which no segment follows the Close of its sender and no Close precedes the answer to the request; the interface is taken to close a stream only after that answer. What happens otherwise is stated in `LateSegments` and `HandshakeRuns`. What follows the first frame that is misread, or taken by another session, is not part of the step system.
- EndToEnd.PacketsArrive: the nonce that the client sends first, unsealed and through the same sender (ui/socket.js:228-229), is not among the sends; the stream begins behind it.
- EndToEnd.DeliveredAsSent: the frames are those of an orderly session, in which no segment follows the close of its sender; what such a segment does is stated in `LateSegments`. Machines are taken to accept what they are handed, and the transport to take every segment.
- SenderPromises.EveryRunKeepsItsPromises: sends are not empty; an empty one is not settled by a flush of an empty buffer.
- Reader.Reader.Export: `Reader` and its `Multiple` are one class here, and `close` is the end of the list of buffers.
- Transport.FetchPacket: the plaintext is a value; that it lies in the read buffer until the next fetch is not modelled.
- Telnet.Parser.Session: window size and terminal type replies are the bytes the code sends, in which 255 is not doubled, and decoding to text is not modelled.
- SshRequest.Bootup: the text form of the address, the lookup of preset credentials and the start of the remote side are not modelled.
- PresetSecret.ApplyPresetSecrets: loading the key from the environment is a parameter.
- PresetConfig.EnsurePresetIDs: random identifiers are a parameter and may collide; then the update is refused.
- `preserveHiddenPresetPasswords`, the size limits of requests, roles, and `Reconfigure` are not modelled.
- In a preset, a nil map and an empty one are the same, and strings are sequences of characters with their UTF-8 length computed.
