# ShellAnyWhere: a Dafny model of its protocols and filters

ShellAnyWhere relays a shell between the machine it runs on, a server and browsers. This
project models the parts of it that carry state across messages, chunks and connections,
and proves what they keep. Check it with `dafny verify dfyconfig.toml`.

## What is modelled

- **KCP multiplexer** (`KcpFrame`, `KcpTransport`, `KcpSystem`): virtual streams, bounded
  channels, cursor buffers with their three compaction rules and greedy routing with
  backpressure, as classes proved against functions; and a whole connection as a state
  machine in which the wire re-chunks bytes at will. Every stream is a FIFO in every run.
- **Control messages** (`ControlChannel`): the length-prefixed layer on a virtual stream, with
  the shell's reused buffer and the server's fresh one.
- **Terminal filters** (`Ecma48`, `FinalFilter`, `UnifiedFilter`, `FilterPipeline`,
  `StdinFilter`): the lexers for sections 5.4 and 5.6 of ECMA-48, the filters as byte loops and
  as functions on tokens, the two-stage output pipeline with its held-back bytes over every
  chunking of a stream, and the filter on typed input.
- **Context streams** (`Bincode`, `StreamContext`, `ContextStream`, `ContextLink`,
  `StreamRegistry`): the handshake down to its bytes, the four modes with batching and early
  flush, runs of an established link, and the two-map registry. lz4 is a pair of functions
  that undo each other and respect an expansion bound of one tenth plus 24 bytes.
- **Session manager** (`SessionState`, `SessionManager`, `SessionEffects`, `SessionRuns`,
  `SessionMirror`, `ClientLoop`): each method as one atomic step, invariants over all runs, generations, the
  event log, and the browser's list that is folded from it.
- **Parsers and printers** (`RcText`, `RcFile`, `RcBlock`, `TerminalOutput`, `BincodeIO`, `ControlFrames`,
  `StunUsername`): the RC-file installer, the terminal header with its LEB128 lengths, the
  browser's control frames, and the STUN attribute walk.

Operations that the program performs on fields and buffers are methods of classes whose
postconditions give the whole new state as a function of the old one; the theorems are about
those functions and about runs of them. Text is modelled as its UTF-8 bytes, except in the RC
file, where it is characters.

## Where the code does not do what it says

Each of these is the code as it stands, with the exact condition proved.

- A control string that the first filter removes, cut by a chunk boundary between the ESC and
  the `\` of its terminator, leaks ESC `\` to the terminal. The queries are answered correctly
  even then, and a kept control string cut there does no harm (`ChunkingIsInvisibleIff`,
  `CutTitleLeaks`). The input filter has the same flaw for DCS strings (`TypingIsKeptIff`,
  `CutReportLeaks`).
- The first filter is documented to remove cursor-report echoes; its test sits at the final byte
  of the query, so those pass it and only the final filter removes them (`EchoOfReply`); remote
  clients, for whom that filter runs on changed chunks only, can receive one (`RemoteIsFinalIff`).
- The frame decoder's comment says that it skips a byte on a bad magic; it stops for good
  (`NoResynchronisation`). A frame deferred by a full channel is retried on traffic only, not
  when its reader makes room (`DeferredFrameWaits`).
- The length of an uncompressed frame wraps at 32 bits before it is checked: messages just
  above a multiple of 4 GiB are accepted and lost (`PlainFrameFaithfulIff`). Where the wrap
  happens in the final addition a build with overflow checks stops instead; the model wraps.
- Two ends with equal priority and different nonzero ids each keep their own (`IdsAgreeIff`).
- The early-flush threshold is documented as 4 MB; it is 1 MiB.
- A comment says that clients on byte channels learn of a replaced session through a broadcast
  close; only the registration is broadcast, and a browser that knows the id ignores it
  (`ReplacementIsNotShown`, `AnnouncedInfoConvergesIff`).
- A connection loop removes one client id when it breaks, so a kept previous id and every attach
  inside the loop leave an index record behind; a failed send or receive returns without removing
  any (`NothingLeftIff`, `FailedAttachOccupiesId`).
- A second attach on one SSH connection uses the same id without a detach, and leaves the client
  attached to the first session until that cleans up its dead clients (`SecondAttachLeavesGhost`).
- In PowerShell the executable path stands alone on its line; a path that reads as the end
  marker closes the block early (`RoundTripIff`, `MarkerPathFails`). Uninstalling takes a blank
  first line of the user's file with it (`BlankFirstLineFails`).
- The final filter is documented to strip OSC queries; it strips every OSC string.
- The browser drops control messages over 64 KiB although frames up to 16 MiB are sent
  (`DeliveredIff`, `LongNonceIsDropped`).
- Terminal output that arrives before the browser has installed its handler and seen a header is
  dropped (`NothingIsLostIff`).

## Model

| member | source | states |
|---|---|---|
| KcpSystem.EveryStreamIsFifo | crates/core/src/protocol/kcp_transport.rs:81-156 | In every run of a connection, for every stream live at the receiver: bytes accepted from writers = bytes read ++ leftover ++ its channel ++ its payloads in the buffer, on the wire, in the batch and in the write channel, in order, and everything in flight is whole non-empty frames |
| KcpSystem.NoEmptyRead | crates/core/src/protocol/kcp_transport.rs:125-156 | In every run a read with room for a byte returns at least one byte or waits; it never returns 0 |
| KcpSystem.DrainedMeansDelivered | crates/core/src/protocol/kcp_transport.rs:231-283 | Once the wire and the writer are empty and no channel is full, one more pass over the buffer empties it and every byte written is with the reader |
| KcpSystem.RunKeeps | crates/core/src/protocol/kcp_transport.rs:213-283 | The conservation of both directions survives any interleaving of writes, batches, partial KCP writes and reads, stream reads and drops |
| KcpSystem.SenderKeeps | crates/core/src/protocol/kcp_transport.rs:242-274 | Writing, batching, pushing part of a batch and finishing it keep the conservation of the outgoing direction |
| KcpSystem.ReceiverKeeps | crates/core/src/protocol/kcp_transport.rs:221-241 | Receiving, routing, reading and dropping a stream keep the conservation of the incoming direction, whatever the chunking |
| KcpSystem.OnlyTrafficRoutes | crates/core/src/protocol/kcp_transport.rs:231-275 | Unread bytes are routed only on arrival of more bytes or after an outgoing batch; no other event moves them |
| KcpSystem.QuietRunRoutesNothing | crates/core/src/protocol/kcp_transport.rs:231-275 | Over any run of both ends without such an event, what was received and not routed stays where it is |
| KcpSystem.DeferredFrameWaits | crates/core/src/protocol/kcp_transport.rs:301-309 | A frame deferred by its full channel becomes routable when its reader reads, and still waits for traffic |
| KcpSystem.EnabledIff | crates/core/src/protocol/kcp_transport.rs:213-275 | Exactly when a writer, the run loop and a reader can act, with the capacities and the read size in numbers |
| KcpSystem.WriteEffect | crates/core/src/protocol/kcp_transport.rs:81-113 | A write hands over up to 65535 bytes as one frame behind all others and touches no other stream |
| KcpSystem.LoopEffect | crates/core/src/protocol/kcp_transport.rs:225-275 | A batch is up to 64 whole frames, a push moves their bytes, then routing is retried |
| KcpSystem.ReadEffect | crates/core/src/protocol/kcp_transport.rs:125-156 | A read gives its reader the next bytes of its own stream, as many as fit of the piece at the head |
| KcpSystem.DropEffect | crates/core/src/protocol/kcp_transport.rs:306-308 | A dropped stream loses its reader, and nothing else changes |
| KcpTransport.BlockedIff | crates/core/src/protocol/kcp_transport.rs:295-309 | A complete head frame is held back exactly by a live reader whose channel holds 2048 chunks |
| KcpTransport.LostFrameIsDropped | crates/core/src/protocol/kcp_transport.rs:306-317 | The frame of an unknown stream or a lost reader is dropped, and nothing else happens |
| KcpTransport.RouteReaches | crates/core/src/protocol/kcp_transport.rs:285-322 | Routing consumes a run of complete frames and stops only where no complete frame heads the bytes or its channel is full |
| KcpTransport.RouteIsMaximal | crates/core/src/protocol/kcp_transport.rs:285-322 | Routing is greedy: it goes at least as far as any run of routable frames, and ends in the same state |
| KcpTransport.RouteConserves | crates/core/src/protocol/kcp_transport.rs:285-322 | Routing loses, duplicates and reorders nothing for a stream whose reader exists, also against bytes yet to arrive |
| KcpTransport.RouteKeepsFraming | crates/core/src/protocol/kcp_transport.rs:285-322 | What is left unread after routing, with the bytes in flight, is still whole non-empty frames |
| KcpTransport.RouteKeepsChans | crates/core/src/protocol/kcp_transport.rs:285-322 | Routing never exceeds a channel capacity, queues no empty chunk and opens or closes no stream |
| KcpTransport.NoResynchronisation | crates/core/src/protocol/kcp_transport.rs:34-37 | A buffer that does not start with the magic is never skipped, however many bytes follow: the comment "skip one byte and try again" is not what the code does |
| KcpTransport.ReadStepConserves | crates/core/src/protocol/kcp_transport.rs:125-156 | A read hands out the next bytes in order, at most as many as asked, never none while some are there, and else tells the end from waiting |
| KcpTransport.VirtualStream.PollWrite | crates/core/src/protocol/kcp_transport.rs:81-113 | One frame of at most 65535 bytes is queued, or a full or closed channel takes nothing |
| KcpTransport.VirtualStream.PollRead | crates/core/src/protocol/kcp_transport.rs:125-156 | What a read returns and leaves: the end of the stream exactly when nothing is there and the sender is gone, waiting when it is not, else as much as fits of the head piece |
| KcpTransport.VirtualStream.MaybeCompactReadBuf | crates/core/src/protocol/kcp_transport.rs:70-77 | Compacting the leftover buffer does not change the unread bytes |
| KcpTransport.Multiplex.OpenStream | crates/core/src/protocol/kcp_transport.rs:197-208 | A new empty channel of the stream id replaces the old one; nothing else changes |
| KcpTransport.Multiplex.RouteNext | crates/core/src/protocol/kcp_transport.rs:285-322 | One turn routes exactly the head frame, or stops and changes nothing |
| KcpTransport.Multiplex.ProcessReadBuffer | crates/core/src/protocol/kcp_transport.rs:285-333 | The routing loop and its compaction compute Route of the unread bytes and the channels |
| KcpTransport.Multiplex.CompactIfLarge | crates/core/src/protocol/kcp_transport.rs:324-332 | The compaction after routing does not change the unread bytes |
| KcpTransport.Multiplex.OnReceive | crates/core/src/protocol/kcp_transport.rs:225-238 | Compacting before appending loses nothing: the result is Route of the old unread bytes followed by the new ones |
| KcpTransport.Multiplex.CollectBatch | crates/core/src/protocol/kcp_transport.rs:242-263 | A batch is the concatenation of the first at most 64 queued frames, which leave the queue |
| KcpFrame.FrameLayout | crates/core/src/protocol/kcp_transport.rs:93-98 | CA FE, stream id, length in two bytes high byte first, payload |
| KcpFrame.DecodedIsEncoded | crates/core/src/protocol/kcp_transport.rs:30-48 | What is parsed as a frame is exactly the printed form of that frame |
| KcpFrame.DecodeEncode | crates/core/src/protocol/kcp_transport.rs:30-48 | Parsing a printed frame gives it back, whatever follows |
| KcpFrame.DecodeExtends | crates/core/src/protocol/kcp_transport.rs:30-48 | A complete head frame reads the same however many bytes follow |
| KcpFrame.PayloadOfConcat | crates/core/src/protocol/kcp_transport.rs:285-322 | What well-framed bytes carry for a stream is carried in order through any concatenation |
| ControlChannel.ControlIsFifoOverKcp | crates/shell/src/kcp_connector.rs:770-819 | End to end over any run of the connection: what a receiver can decode is a prefix of the control messages sent |
| ControlChannel.ControlIsCompleteOverKcp | crates/shell/src/kcp_connector.rs:770-819 | And nothing is missing: with everything sent and the wire drained, what the reader got, buffers and has queued decodes to exactly the messages |
| ControlChannel.ReceiveEncoded | crates/shell/src/kcp_connector.rs:770-819 | Receiving the encodings of any messages of at most 16 MiB gives exactly those messages, then what follows |
| ControlChannel.ReceiveIsMonotone | crates/shell/src/kcp_connector.rs:787-819 | More bytes never change the messages already received |
| ControlChannel.ArrivesIff | crates/shell/src/kcp_connector.rs:770-819 | For every length: a message arrives as itself exactly when it is at most 16 MiB |
| ControlChannel.OversizeIsRefused | crates/shell/src/kcp_connector.rs:801-804 | Whenever the 32-bit length prefix is over 16 MiB the receiver refuses, and nothing is delivered |
| ControlChannel.Fill | crates/shell/src/kcp_connector.rs:787-819 | The read loop fills exactly the wanted bytes under arbitrary short reads, or reports the end |
| ControlChannel.RecvControl | crates/shell/src/kcp_connector.rs:787-819 | Whatever the reused buffer held, the result is the next message and nothing else |
| ControlChannel.ReadExact | crates/server/src/kcp.rs:19-33 | Exactly n bytes, in order, or the end of the stream |
| ControlChannel.ServerRecvControl | crates/server/src/kcp.rs:60-72 | The server receiver agrees with the shell receiver on every byte string |
| Ecma48.SkipString | crates/core/src/util/terminal_filter.rs:38-68 | The skip loops stop just after the first BEL or ST, or at the end |
| Ecma48.ScanCsiAt | crates/core/src/util/terminal_filter.rs:76-101 | The index loop over a control sequence computes its parameters, intermediates and final byte |
| Ecma48.TokenForm | crates/core/src/util/terminal_filter.rs:137-191 | The bytes of each kind of token |
| Ecma48.LexPrint | crates/core/src/util/terminal_filter.rs:137-191 | The lexers read a printed token back, whatever follows |
| Ecma48.PrintIsInjective | crates/core/src/util/terminal_filter.rs:137-191 | A well-formed byte string has one reading as tokens only |
| FinalFilter.FinalDefenseFilter | crates/core/src/util/terminal_filter.rs:137-191 | The filter with its fast path computes Final |
| FinalFilter.FilterLoop | crates/core/src/util/terminal_filter.rs:143-190 | The single pass computes Final on every byte string, staying in bounds |
| FinalFilter.ClassifyFinalDefenseCsi | crates/core/src/util/terminal_filter.rs:76-130 | A control sequence is stripped exactly when StripsCsi says so, and the index after it is right |
| FinalFilter.FinalOnTokens | crates/core/src/util/terminal_filter.rs:137-191 | On well-formed streams the byte loop prints the kept tokens, then filters the rest |
| FinalFilter.FinalOutputIsClean | crates/core/src/util/terminal_filter.rs:76-191 | No DA, DSR, CPR, XTVERSION, OSC or DCS token survives, in the only reading the output has |
| FinalFilter.UntouchedIff | crates/core/src/util/terminal_filter.rs:137-191 | A stream passes untouched exactly when all of it is display: no control string, query, report or focus reset |
| FinalFilter.CprIff | crates/core/src/util/terminal_filter.rs:7-20 | A cursor report is two decimal numbers around a semicolon, neither empty |
| FinalFilter.UnfinishedIsRemoved | crates/core/src/util/terminal_filter.rs:76-191 | A lone ESC and an unfinished sequence or string at the end are removed |
| FinalFilter.FinalIsIdempotent | crates/core/src/util/terminal_filter.rs:137-191 | Filtering a well-formed stream twice is filtering it once |
| FinalFilter.FinalDistributes | crates/core/src/util/terminal_filter.rs:137-191 | The filter distributes over concatenation of well-formed streams |
| FinalFilter.FinalOnlyRemoves | crates/core/src/util/terminal_filter.rs:137-191 | On any bytes, malformed included, the output is a subsequence of the input |
| UnifiedFilter.UnifiedFilter | crates/shell/src/local_io.rs:749-904 | The single pass computes Unified on every byte string |
| UnifiedFilter.HandleAt | crates/shell/src/local_io.rs:772-895 | What the pass does at one escape sequence and how far it moves |
| UnifiedFilter.ClassifyCsiUnified | crates/shell/src/local_io.rs:925-1045 | The classifier and the index after the sequence |
| UnifiedFilter.UnfilteredIsIdentity | crates/shell/src/local_io.rs:1078-1080 | For any bytes: if nothing was reported as filtered, the display is the input |
| UnifiedFilter.UnifiedOnlyRemoves | crates/shell/src/local_io.rs:749-904 | For any bytes: the display is a subsequence of the input |
| UnifiedFilter.UnifiedDisplay | crates/shell/src/local_io.rs:749-904 | On well-formed streams: the shown tokens and one answer per intercepted query |
| UnifiedFilter.UnifiedOnTokens | crates/shell/src/local_io.rs:749-904 | The first filter is a homomorphism over tokens |
| UnifiedFilter.AnsweredIff | crates/shell/src/local_io.rs:1001-1044 | Exactly which tokens are answered and with what: DA1, DA2, status, cursor and both forms of the version query, spelled out; nothing else |
| UnifiedFilter.FilteredIff | crates/shell/src/local_io.rs:925-1045 | Exactly which tokens are removed without an answer, spelled out |
| UnifiedFilter.NotedIff | crates/shell/src/local_io.rs:962-999 | Exactly which shown tokens are noted as a cleared screen, a switch of screens or focus tracking turned on |
| UnifiedFilter.NotedOfStream | crates/shell/src/local_io.rs:749-904 | The flags of a chunk tell of exactly the noted tokens among those shown |
| UnifiedFilter.UnfinishedIsShown | crates/shell/src/local_io.rs:925-961 | A control sequence without its final byte is shown, byte for byte |
| UnifiedFilter.ReplyTexts | crates/shell/src/local_io.rs:1492-1537 | The replies, as text |
| UnifiedFilter.EchoOfReply | crates/shell/src/local_io.rs:1492-1537 | An echoed reply is never answered again; the first filter removes it except for status and cursor reports, the final one always |
| UnifiedFilter.FinalAbsorbsUnified | crates/shell/src/local_io.rs:749-904 | The final filter of the first one is the final filter alone |
| UnifiedFilter.RemoteIsFinalIff | crates/shell/src/kcp_connector.rs:539-543 | Remote clients get the final filter of a chunk exactly when the first filter removed something or there was nothing to remove |
| UnifiedFilter.CursorEchoGoesRemote | crates/shell/src/kcp_connector.rs:539-543 | An echoed cursor report in a chunk of its own reaches remote clients |
| FilterPipeline.IsSequenceComplete | crates/shell/src/local_io.rs:1360-1423 | Exactly when the sequence at an ESC is complete |
| FilterPipeline.CompleteByFinal | crates/shell/src/local_io.rs:1360-1423 | A control sequence is complete exactly when what ends it is a final byte of the standard |
| FilterPipeline.FindTrailingEscapeStart | crates/shell/src/local_io.rs:1333-1354 | The rightmost incomplete ESC, or the end |
| FilterPipeline.QueryInterceptor.Process | crates/shell/src/local_io.rs:1148-1168 | Held bytes and the filtered rest of one chunk |
| FilterPipeline.LocalStdout.Write | crates/shell/src/local_io.rs:1567-1617 | Held bytes and the bytes written by one call |
| FilterPipeline.FeedChunk | crates/shell/src/local_io.rs:1148-1168 | Both stages on one chunk compute Feed |
| FilterPipeline.ChunkingIsInvisibleIff | crates/shell/src/local_io.rs:1567-1617 | For every beginning of a well-formed stream and every chunking: the terminal gets the final filter of the complete tokens, if and only if no chunk starts inside the ST of a control string the first stage removes |
| FilterPipeline.ExpectedIsCleanPlusLeaks | crates/shell/src/local_io.rs:1333-1354 | Each such cut adds exactly ESC \ (two bytes) and nothing else differs |
| FilterPipeline.HeldIsCutToken | crates/shell/src/local_io.rs:1333-1423 | What the stages hold back is exactly the cut token, or the ESC of a cut ST |
| FilterPipeline.EveryQueryAnsweredOnce | crates/shell/src/local_io.rs:1148-1168 | For every chunking: each intercepted query is answered once, in stream order, and nothing else is |
| FilterPipeline.CutTitleLeaks | crates/shell/src/local_io.rs:1339-1353 | A title cut inside its ST leaks ESC \ to the terminal |
| StdinFilter.ClassifyStdinCsi | crates/shell/src/local_io.rs:2339-2419 | The classifier of typed control sequences and the index after them |
| StdinFilter.HandleAt | crates/shell/src/local_io.rs:2268-2320 | What the pass does at one index |
| StdinFilter.FilterInner | crates/shell/src/local_io.rs:2259-2327 | The single pass computes Stdin on every byte string |
| StdinFilter.StdinResponseFilter.Filter | crates/shell/src/local_io.rs:2208-2228 | Held bytes, passed bytes and focus event of one call |
| StdinFilter.OnTokens | crates/shell/src/local_io.rs:2259-2327 | On well-formed input the pass is a homomorphism over tokens and notices the last focus event |
| StdinFilter.OnStream | crates/shell/src/local_io.rs:2259-2327 | Of well-formed input: the typed tokens and the event of the last token that carries one |
| StdinFilter.FocusIs | crates/shell/src/local_io.rs:2395-2415 | ESC [ I reports the focus gained, ESC [ O the focus lost, and nothing else either |
| StdinFilter.LastFocusIff | crates/shell/src/local_io.rs:2279-2300 | The event of a stream is that of its last such token, and none if there is none |
| StdinFilter.StepAt | crates/shell/src/local_io.rs:2208-2228 | What one chunk lets through, holds back and reports of the focus |
| StdinFilter.UnfinishedPasses | crates/shell/src/local_io.rs:2339-2362 | A control sequence without its final byte passes, byte for byte |
| StdinFilter.RemovedIff | crates/shell/src/local_io.rs:2166-2177 | Exactly which tokens are removed from typed input, spelled out |
| StdinFilter.OwnAnswersAreRemoved | crates/shell/src/local_io.rs:2166-2177 | Of the answers a terminal gives to intercepted queries, all are removed but the status report |
| StdinFilter.ChunksDue | crates/shell/src/local_io.rs:2208-2228 | After any chunks: what is held is the cut token, and what came out is what is due plus ESC \\ for each chunk that starts inside the ST of a DCS |
| StdinFilter.CutReportLeaks | crates/shell/src/local_io.rs:2208-2228 | A DCS cut inside its ST leaks bytes to the shell; whole, it leaves nothing |
| StdinFilter.TypingIsKeptIff | crates/shell/src/local_io.rs:2208-2228 | For every well-formed input and chunking the shell gets exactly the typed tokens if and only if no chunk starts inside the ST of a DCS |
| StreamContext.HandshakeMirrors | crates/core/src/protocol/context_stream.rs:385-437 | Every exchange a valid opener starts succeeds and the ends hold mirror-image settings |
| StreamContext.HandshakeIff | crates/core/src/protocol/context_stream.rs:233-242 | An exchange succeeds exactly when the type name has 1 to 256 bytes |
| StreamContext.ContextLayout | crates/core/src/protocol/context_stream.rs:116-140 | Field order and codes on the wire |
| StreamContext.IdsAgreeIff | crates/core/src/protocol/context_stream.rs:628-642 | The ends agree on the stream id exactly when one left it 0, both proposed the same, or the roles differ in priority |
| StreamContext.WinningId | crates/core/src/protocol/context_stream.rs:628-642 | Which id wins: the only one given, else the agent's, else the client's |
| StreamContext.SamePriorityIdsDiverge | crates/core/src/protocol/context_stream.rs:634-641 | Two clients proposing 7 and 9 end with 7 and 9 |
| StreamContext.ContextRoundTrip | crates/core/src/protocol/context_stream.rs:660-719 | A context whose type name is within 256 bytes fits the u16 length and comes back whole |
| StreamContext.ContextComesBackIff | crates/core/src/protocol/context_stream.rs:660-719 | Any context comes back as itself exactly when its encoding is under 2^16 bytes |
| StreamContext.DecodesIff | crates/core/src/protocol/context_stream.rs:711-712 | A context with a role over 2 or a setting over 1 is refused |
| StreamContext.SizeLimits | crates/core/src/protocol/context_stream.rs:664-696 | Encodings and totals over 16 MiB are refused |
| StreamContext.LongContextIsCutShort | crates/core/src/protocol/context_stream.rs:660-664 | An encoding of 2^16 bytes or more is announced short and never comes back as itself |
| ContextStream.PlainFrameFaithfulIff | crates/core/src/protocol/context_stream.rs:760-781 | An accepted uncompressed frame comes back exactly when the message is under 16 MiB; the rest are messages whose 32-bit length wrapped |
| ContextStream.FourGiBMessageIsLost | crates/core/src/protocol/context_stream.rs:761-768 | A message of 4 GiB passes the size check and arrives as an empty message |
| ContextStream.CompressedFrameComesBack | crates/core/src/protocol/context_stream.rs:731-757 | Every accepted compressed frame comes back |
| ContextStream.ChunkFits | crates/core/src/protocol/context_stream.rs:62-65 | No frame of a flush exceeds 16 MiB under the expansion bound |
| ContextStream.FlushDelivers | crates/core/src/protocol/context_stream.rs:482-498 | A flush succeeds, empties the buffer and frames exactly its bytes, at most 8 MiB each |
| ContextStream.BufferStaysSmall | crates/core/src/protocol/context_stream.rs:458-519 | After every Raw + compressed send the buffer is under 1 MiB |
| ContextStream.FlushesExactlyWhen | crates/core/src/protocol/context_stream.rs:502-519 | Such a send empties the buffer exactly at 1 MiB or when the timer has run out; otherwise it writes nothing |
| ContextStream.ChunkedSendIff | crates/core/src/protocol/context_stream.rs:458-465 | A Chunked send succeeds exactly when the frame fits 16 MiB, and then writes exactly one frame, compressed exactly when negotiated; else it changes nothing |
| ContextStream.ChunkedFrameComesBack | crates/core/src/protocol/context_stream.rs:725-781 | That frame is read back as the message |
| ContextStream.RawSendIs | crates/core/src/protocol/context_stream.rs:466-474 | Raw and uncompressed the bytes go out as they are; an empty send does nothing |
| ContextStream.RawRecvIs | crates/core/src/protocol/context_stream.rs:530-540 | A raw receive takes what arrived, up to what was asked and 64 KiB |
| ContextStream.Stream.WriteFramed | crates/core/src/protocol/context_stream.rs:725-781 | Header and payload are written, or nothing |
| ContextStream.Stream.Flush | crates/core/src/protocol/context_stream.rs:482-498 | The drain loop computes FlushSend |
| ContextStream.Stream.Send | crates/core/src/protocol/context_stream.rs:458-519 | All four modes, batching and early flush compute SendData |
| ContextStream.Stream.Recv | crates/core/src/protocol/context_stream.rs:524-541 | Receiving takes one frame, or some raw bytes, off what arrived |
| ContextLink.EveryRunDelivers | crates/core/src/protocol/context_stream.rs:385-541 | After any handshake, in both directions and all four modes, over any run: every message that fits is sent; received bytes are a prefix of those sent; Chunked gives the very messages; once flushed and drained, everything |
| ContextLink.RunAccepts | crates/core/src/protocol/context_stream.rs:458-475 | Nothing that fits is refused: over every run exactly the non-empty messages that fit are sent, in order |
| ContextLink.EventEffect | crates/core/src/protocol/context_stream.rs:458-541 | Bytes move in order and once; a flush empties the buffer |
| ContextLink.RunKeeps | crates/core/src/protocol/context_stream.rs:458-541 | Received ++ decoded transit ++ send buffer equals what was sent, over every run |
| ContextLink.SendKeeps | crates/core/src/protocol/context_stream.rs:458-519 | A send in any mode keeps that equation, batching and flushing included |
| ContextLink.RecvKeeps | crates/core/src/protocol/context_stream.rs:524-541 | A receive keeps it and never loses its place in the frames |
| ContextLink.NeverStuck | crates/core/src/protocol/context_stream.rs:524-541 | With everything arrived, a receiver always gets something |
| ContextLink.UnderFourGiBIsSendable | crates/core/src/protocol/context_stream.rs:760-768 | Every message under 4 GiB - 1 meets the condition on uncompressed Chunked sends |
| StreamRegistry.MakeKeyIsInjective | crates/core/src/protocol/context_stream.rs:988-990 | Different roles or ids never share a registry key |
| StreamRegistry.KeyForm | crates/core/src/protocol/context_stream.rs:988-990 | Role name, dash, lower-case hexadecimal id |
| StreamRegistry.RemoveIs | crates/core/src/protocol/context_stream.rs:1019-1027 | Removing what is not there does nothing |
| StreamRegistry.InsertKeepsIff | crates/core/src/protocol/context_stream.rs:993-1006 | An insertion keeps the partition of keys by connection exactly when no other connection holds the key |
| StreamRegistry.RemoveKeeps | crates/core/src/protocol/context_stream.rs:1019-1027 | Removing a stream takes its key from its owner only |
| StreamRegistry.RemoveConnectionKeeps | crates/core/src/protocol/context_stream.rs:1030-1040 | Dropping a connection leaves the others as they were |
| StreamRegistry.RemoveConnectionCounts | crates/core/src/protocol/context_stream.rs:1030-1040 | The reported count is the number of streams removed |
| StreamRegistry.RunKeepsPartition | crates/core/src/protocol/context_stream.rs:972-1045 | The partition holds in every reachable state |
| StreamRegistry.LookupIsExact | crates/core/src/protocol/context_stream.rs:993-1011 | An insertion is seen under its own role and id and under no other |
| StreamRegistry.TakeoverIsUndone | crates/core/src/protocol/context_stream.rs:1030-1040 | When a key was taken over, cleaning up its old connection removes the new stream |
| StreamRegistry.Registry.Add | crates/core/src/protocol/context_stream.rs:993-1006 | Insertion updates both maps |
| StreamRegistry.Registry.Drop | crates/core/src/protocol/context_stream.rs:1019-1027 | Removal prunes every connection set by the live keys |
| StreamRegistry.Registry.DropConnection | crates/core/src/protocol/context_stream.rs:1030-1040 | All keys of the connection are removed and counted |
| SessionState.AttachKeepsIff | crates/server/src/session_mgr.rs:301-375 | An attach keeps the two maps in agreement exactly when the client is attached to no other session |
| SessionState.DetachKeepsIff | crates/server/src/session_mgr.rs:378-398 | So does a detach exactly when it names the client's own session |
| SessionState.RemoveByIdsKeepsIff | crates/server/src/session_mgr.rs:579-601 | And a cleanup exactly when no named client is attached to another session |
| SessionState.RegisterKeeps | crates/server/src/session_mgr.rs:141-186 | Replacing a session keeps the agreement |
| SessionState.UnregisterKeeps | crates/server/src/session_mgr.rs:202-235 | Removing a session keeps the agreement |
| SessionState.UnregisterActsIff | crates/server/src/session_mgr.rs:202-235 | A removal acts exactly when it is forced or carries the session's own generation; it logs exactly the close and leaves all else alone |
| SessionState.OneSessionPerClient | crates/server/src/session_mgr.rs:301-322 | While the maps agree a client is attached to at most one session |
| SessionState.ObserverIsAttachedMode | crates/server/src/session_mgr.rs:497-505 | The O(1) observer test agrees with the attached mode |
| SessionState.RemoveClientIsScan | crates/server/src/session_mgr.rs:705-740 | The O(1) removal does exactly what scanning every session would, and leaves the client attached nowhere |
| SessionState.RemoveLeavesNothingIff | crates/server/src/session_mgr.rs:705-740 | In any state: a removed client is attached nowhere exactly when its record named every session it was attached to |
| SessionState.ResolvedIdIsFree | crates/server/src/listener.rs:536-552 | The id an attach resolves to is attached nowhere |
| SessionState.OwnDeadAreNotElsewhere | crates/server/src/session_mgr.rs:514-575 | Clients reported dead for a session are attached to no other |
| SessionState.FailedAttachOccupiesId | crates/server/src/transport.rs:338-369 | An attach to a missing session leaves its id occupied for the next attempt |
| SessionState.AttachIs | crates/server/src/session_mgr.rs:301-375 | An attach adds the client with its mode, makes an interactive one active, and touches nothing else |
| SessionState.DetachUndoesAttach | crates/server/src/session_mgr.rs:378-398 | Detaching undoes an attach but for the active client and a record that names no session |
| SessionEffects.RegisterEffect | crates/server/src/session_mgr.rs:141-186 | A session starts empty; exactly the clients of the replaced one lose their records |
| SessionEffects.ReplacedClientsAreFree | crates/server/src/session_mgr.rs:173-176 | A client of a replaced session can have its id back at once |
| SessionEffects.UpdateEffect | crates/server/src/session_mgr.rs:245-261 | The new info, the event, and nothing else |
| SessionEffects.TitleEffect | crates/server/src/session_mgr.rs:265-276 | The new title in an otherwise unchanged info, the event, and nothing else |
| SessionEffects.AttachEffect | crates/server/src/session_mgr.rs:301-352 | The client starts with the session's size and without a relay; nobody else changes |
| SessionEffects.DetachEffect | crates/server/src/session_mgr.rs:378-398 | The client leaves, an active one leaves none active, its record is cleared; nobody else changes |
| SessionEffects.SetActiveEffect | crates/server/src/session_mgr.rs:408-436 | A size counts only if neither side is zero; the activity time always does |
| SessionEffects.ClientFieldsEffect | crates/server/src/session_mgr.rs:481-488 | A client's size and relay flag are its own |
| SessionEffects.WsHandleEffect | crates/server/src/session_mgr.rs:621-640 | The handle only; a new record names no session |
| SessionEffects.RemoveByIdsEffect | crates/server/src/session_mgr.rs:579-601 | Exactly those ids leave the session and the index |
| SessionEffects.ResolveIff | crates/server/src/listener.rs:536-552 | An id is kept exactly when it is asked for and nobody is connected under it |
| SessionEffects.TryEffect | crates/server/src/transport.rs:338-369 | A successful attach request leaves the client attached as asked, reachable and current |
| SessionManager.Manager.RegisterSession | crates/server/src/session_mgr.rs:141-186 | New state, next generation, and who is told directly |
| SessionManager.Manager.UnregisterSession | crates/server/src/session_mgr.rs:192-235 | New state and who is told; a wrong generation or id changes nothing |
| SessionManager.Manager.UpdateSession | crates/server/src/session_mgr.rs:245-261 | Replaces the info and logs it, for a known session only |
| SessionManager.Manager.SetSessionTitle | crates/server/src/session_mgr.rs:265-276 | Changes the title and logs the info, for a known session only |
| SessionManager.Manager.AttachClient | crates/server/src/session_mgr.rs:301-375 | Index record first, then the session, which may be missing; who is told ClientAttached and ClientActive |
| SessionManager.Manager.DetachClient | crates/server/src/session_mgr.rs:378-398 | Session and index record; the agent is told exactly when the client was attached |
| SessionManager.Manager.SetActiveClient | crates/server/src/session_mgr.rs:408-477 | New active client and size, and when to announce them |
| SessionManager.Manager.UpdateClientSize | crates/server/src/session_mgr.rs:481-488 | Only the attached client's own size |
| SessionManager.Manager.SetTerminalIoActive | crates/server/src/session_mgr.rs:652-658 | Only the attached client's own flag |
| SessionManager.Manager.SetClientWsHandle | crates/server/src/session_mgr.rs:621-640 | Only the client's handle; a new record names no session |
| SessionManager.Manager.ForwardToClient | crates/server/src/session_mgr.rs:514-575 | Success exactly when some channel has room; dead clients are exactly the closed ones |
| SessionManager.Manager.RemoveClientsById | crates/server/src/session_mgr.rs:579-601 | The named clients leave the session and the index |
| SessionManager.Manager.ForwardAndCleanup | crates/server/src/relay.rs:7-17 | Forwarding with cleanup of its own dead list keeps the agreement |
| SessionManager.Manager.RemoveClient | crates/server/src/session_mgr.rs:705-740 | The removal through the index, and which session's agent is told |
| SessionManager.Manager.HandleResize | crates/server/src/relay.rs:77-129 | The handler computes Resize; the agent is told exactly when the session's size changed, and of that size |
| SessionManager.Manager.ListSessions | crates/server/src/session_mgr.rs:238-242 | Every session once, most recently started first |
| SessionManager.ObserversCannotResize | crates/server/src/relay.rs:84-98 | A client attached in observe mode cannot resize its session; an interactive one can |
| SessionRuns.StepKeepsAgreementIff | crates/server/src/session_mgr.rs:95-103 | A step keeps the two maps in agreement exactly when it attaches, detaches or cleans up no client that is attached to another session |
| SessionRuns.RunKeepsAgreement | crates/server/src/session_mgr.rs:95-103 | Over every run of such steps the maps agree |
| SessionRuns.ClientAttachIsAllowed | crates/server/src/transport.rs:338-369 | Every attach through client_attach with a fresh fallback id is such a step |
| SessionRuns.OwnCleanupIsAllowed | crates/server/src/relay.rs:7-17 | So is the cleanup of a session's own dead list |
| SessionRuns.SecondAttachLeavesGhost | crates/server/src/ssh.rs:583-599 | A second attach under the one id of an SSH connection is not: detach and removal leave the client attached to the first session |
| SessionRuns.DisconnectLeavesNothing | crates/server/src/session_mgr.rs:705-740 | After any run of allowed steps a disconnected client is attached nowhere and has no record |
| SessionRuns.StepStamps | crates/server/src/session_mgr.rs:147-164 | Generations stay distinct, below the next one, and change only by registering |
| SessionRuns.StaleUnregisterNeverActs | crates/server/src/session_mgr.rs:188-217 | A superseded generation stays superseded: its unregister changes neither map nor log in any later state |
| SessionRuns.ReconnectSurvivesOldAgent | crates/server/src/session_mgr.rs:188-217 | A re-registered session is never removed by the unregister of the connection it replaced |
| SessionRuns.OwnUnregisterActs | crates/server/src/session_mgr.rs:188-235 | An agent that leaves takes its session with it: the generation its registration returned removes it in any later state, unless the id was registered again |
| SessionRuns.RunIsTold | crates/server/src/session_mgr.rs:161-185 | The log of every id matches (Registered (Registered / Updated)* Closed)*, with the id present exactly while its last group is open |
| SessionRuns.EveryStateIsTold | crates/server/src/session_mgr.rs:120-130 | From an empty server on, every state is well stamped, its log tells of every id, and after allowed steps the maps agree |
| SessionRuns.StepLogs | crates/server/src/session_mgr.rs:161-233 | The event a step logs is the whole change to the set of session ids |
| SessionMirror.SnapshotConverges | crates/server/src/transport.rs:460-473 | Folding all events since the subscription over a later snapshot shows exactly the server's ids |
| SessionMirror.FoldIsIdempotent | web/src/App.tsx:105-115 | Replaying events a snapshot already reflects changes nothing |
| SessionMirror.ReduceIds | web/src/App.tsx:105-115 | The client's reducers change its ids as the events say |
| SessionMirror.ReduceOrder | web/src/App.tsx:105-111 | What is shown keeps its place and a new session comes last |
| SessionMirror.CloseOrder | web/src/App.tsx:111-115 | A closed session is taken out and the rest closes up |
| SessionMirror.AnnouncedInfoConvergesIff | web/src/App.tsx:105-115 | For every run: the client ends up showing the announced info the server holds for an id exactly when the last event on it is not a registration that the client ignores in favour of another info |
| SessionMirror.AnnouncedInfoConverges | web/src/App.tsx:105-115 | In particular it converges as long as no registration hits an open id |
| SessionMirror.LastWordDecides | web/src/App.tsx:105-115 | Per id: two views that agree on presence agree altogether exactly when the last word is shown |
| SessionMirror.PresenceCatchesUp | web/src/App.tsx:105-115 | Per id: a replay over a later state shows an id exactly if the server holds it |
| SessionMirror.ReplayCatchesUp | web/src/App.tsx:105-115 | Per id: a client replaying events over a later state catches up with the server |
| SessionMirror.ReplacementIsNotShown | web/src/App.tsx:108-110 | A re-registration with a new title is not shown by a client that knows the id |
| ClientLoop.Connection.constructor | crates/server/src/transport.rs:446-465 | The connection starts with a record under its first id |
| ClientLoop.Connection.HandleAttach | crates/server/src/transport.rs:523-545 | One attach request, with the id it resolves to |
| ClientLoop.Connection.Leave | crates/server/src/transport.rs:605-609 | On a break only the last id is removed; on an error exit nothing is |
| ClientLoop.NothingLeftIff | crates/server/src/transport.rs:446-611 | A connection leaves no record behind exactly when it ends by a break, makes no attach request inside its loop and its opening request gets no kept id |
| ClientLoop.KeptIdLeavesRecord | crates/server/src/transport.rs:458-490 | A reconnect under a kept id leaves the record of its first id |
| RcFile.RemoveInjection | crates/shell/src/setup.rs:329-368 | The scan over lines with its skipping flag computes Removed |
| RcFile.RemovedIsClean | crates/shell/src/setup.rs:329-368 | Nothing left reads as a marker and no trailing white space is left |
| RcFile.UnmarkedIsOnlyTrimmed | crates/shell/src/setup.rs:329-368 | A file without markers is only cut at its end |
| RcFile.BlockIsRemoved | crates/shell/src/setup.rs:334-361 | A block anywhere goes together with one blank line on each side; all other lines stay |
| RcFile.RemoveTwiceIff | crates/shell/src/setup.rs:329-368 | Removal is idempotent exactly when no line left ends in a carriage return |
| RcFile.CrFreeLines | crates/shell/src/setup.rs:330-330 | Which is so for every file without carriage returns |
| RcFile.InstalledLines | crates/shell/src/setup.rs:261-274 | The lines of an installed file, for every shell |
| RcBlock.AssignmentReadsBack | crates/shell/src/setup.rs:101-186 | In every shell an assignment line reads back as its name and its value |
| RcBlock.LaunchReadsBack | crates/shell/src/setup.rs:101-205 | In every shell the launch line reads back as the path |
| RcBlock.GuardIs | crates/shell/src/setup.rs:101-205 | The guard of each shell, word for word |
| RcBlock.BlockSays | crates/shell/src/setup.rs:87-212 | The block sets SAW_SERVER and SAW_TOKEN, each to its argument exactly when given, and nothing else, and runs exactly the path, between the guard and the word that ends it |
| RcBlock.MarkerTexts | crates/shell/src/setup.rs:4-5 | The two marker lines, word for word |
| RcBlock.InstalledBlockSays | crates/shell/src/setup.rs:261-274 | The same of the lines read back from the installed file |
| RcFile.UninstallAfterInstall | crates/shell/src/setup.rs:87-212 | Uninstalling gives the cleaned lines, less one leading blank line, plus a brace where a PowerShell path reads as the end marker |
| RcFile.RoundTripIff | crates/shell/src/setup.rs:261-274 | Uninstall restores the cleaned file exactly when it does not start blank and no path closes the block early |
| RcFile.InstallTwiceIff | crates/shell/src/setup.rs:261-274 | Installing twice is installing once, under exactly the same condition |
| RcFile.BlankFirstLineFails | crates/shell/src/setup.rs:349-356 | A file with a blank first line: uninstall gives back less, a second install writes less |
| RcFile.MarkerPathFails | crates/shell/src/setup.rs:191-205 | PowerShell with a path equal to the end marker: neither property holds, whatever the file |
| RcFile.CarriageReturnsFail | crates/shell/src/setup.rs:330-330 | A line ending in two carriage returns loses one at each removal |
| RcFile.OneBlankLineIsLost | crates/shell/src/setup.rs:349-356 | When a blank line is lost it is exactly the first |
| RcText.LinesOfJoin | crates/shell/src/setup.rs:330-330 | Lines that were ended by a line feed read back, less a carriage return each |
| RcText.WhiteIff | crates/shell/src/setup.rs:336-362 | The white space that is trimmed, by code point |
| RcText.TidyIsTrimmedJoin | crates/shell/src/setup.rs:362-362 | Trimming the joined text is trimming its lines from the end |
| TerminalOutput.WriteVarint | crates/server/src/listener.rs:386-396 | The loop computes the LEB128 form |
| TerminalOutput.ReadVarint | web/src/protocol/data-stream.ts:23-38 | The loop computes ReadFrom, with JavaScript's 32-bit shifts and or |
| TerminalOutput.LebFaithfulIff | web/src/protocol/data-stream.ts:23-38 | A length is read back exactly when it is below 2^31 |
| TerminalOutput.PrintedForm | crates/server/src/listener.rs:455-490 | The bytes of a header and of a data message |
| TerminalOutput.FlaggedData | web/src/protocol/base-transport.ts:214-238 | Flag 1 is decompressed, any other but a header's is taken as it is |
| TerminalOutput.SliceFromEnd | web/src/protocol/base-transport.ts:258-272 | Negative and too large positions of a slice |
| TerminalOutput.IgnoredMessages | web/src/protocol/base-transport.ts:87-106 | A closed connection and messages of other types do nothing here |
| TerminalOutput.OrBit | web/src/protocol/data-stream.ts:29-29 | The bitwise or, bit by bit |
| TerminalOutput.ShiftWraps | web/src/protocol/data-stream.ts:29-29 | The shift distance counts modulo 32 |
| TerminalOutput.BadVarints | web/src/protocol/data-stream.ts:27-37 | No bytes are a zero, a byte that promises another needs it, ten such bytes are too many |
| TerminalOutput.ShortHeader | web/src/protocol/base-transport.ts:241-247 | A header under four bytes is dropped |
| TerminalOutput.HeaderReadsBack | web/src/protocol/base-transport.ts:241-281 | Both ids are parsed back from the printed header |
| TerminalOutput.ParseUndoesPrint | web/src/protocol/base-transport.ts:186-240 | Each printed message is recognised as what it is: no data message is taken for a header |
| TerminalOutput.Browser.HandleMessage | web/src/protocol/base-transport.ts:83-240 | One message computes Receive; a delivered header turns output on |
| TerminalOutput.Browser.OnTerminalIOStream | web/src/protocol/base-transport.ts:62-64 | The handler is installed |
| TerminalOutput.Browser.ResetTermState | web/src/protocol/base-transport.ts:108-111 | Output waits for the next header |
| TerminalOutput.Browser.Close | web/src/protocol/transport.ts:68-71 | Nothing is handled any more |
| TerminalOutput.RunReadsBack | web/src/protocol/base-transport.ts:186-240 | Over any messages the browser is given every header, and every non-empty chunk from the first header on, in order |
| TerminalOutput.ResetWaits | web/src/protocol/base-transport.ts:108-111 | After a reset output waits for the next header |
| TerminalOutput.RelayIsDelivered | crates/server/src/listener.rs:447-500 | Of one relay the browser gets both ids and all the output |
| TerminalOutput.NothingIsLostIff | web/src/protocol/base-transport.ts:186-240 | From a new connection: every byte written is delivered exactly when none was written before the handler was installed and none between that and the next header |
| TerminalOutput.NothingBeforeHandler | web/src/protocol/base-transport.ts:193-216 | Until a handler is installed no header and no chunk is given to anyone |
| Bincode.VarintRoundTrip | web/src/protocol/bincode.ts:50-87 | Every 64-bit integer reads back from its encoding, whatever follows |
| Bincode.VarintForm | web/src/protocol/bincode.ts:156-180 | Markers and widths, low byte first |
| Bincode.BadVarint | web/src/protocol/bincode.ts:50-87 | Markers 254 and 255 and integers cut short are refused |
| Bincode.VarintIsMinimal | web/src/protocol/bincode.ts:156-180 | No shorter encoding reads back as the same number |
| Bincode.StrRoundTrip | web/src/protocol/bincode.ts:90-94 | A length-prefixed string reads back |
| BincodeIO.BincodeReader.ReadVarint | web/src/protocol/bincode.ts:50-87 | The reader's moving position, with 64 bits read as two halves |
| BincodeIO.BincodeReader.ReadString | web/src/protocol/bincode.ts:90-94 | The reader's string is the one ReadStr finds |
| BincodeIO.BincodeWriter.WriteVarint | web/src/protocol/bincode.ts:156-180 | The writer appends the encoding, with 64 bits written as two halves |
| BincodeIO.BincodeWriter.WriteString | web/src/protocol/bincode.ts:182-186 | Length, then bytes |
| BincodeIO.BincodeWriter.ToBytes | web/src/protocol/bincode.ts:207-216 | The collected parts in one buffer, in order |
| ControlFrames.BuildOfTake | web/src/protocol/frame.ts:119-334 | The decoder reads each frame's fields in the order the encoder writes them, for all twenty frames |
| ControlFrames.DecodeUndoesEncode | web/src/protocol/frame.ts:119-340 | Every frame comes back from its encoding, whatever bytes follow |
| ControlFrames.EncodingIsPrefixFree | web/src/protocol/frame.ts:230-340 | No encoding is the beginning of another frame's |
| ControlFrames.ReaderIsLenient | web/src/protocol/bincode.ts:26-28 | Any number but 0 is true or present; tags from 20 on are refused |
| ControlFrames.FrameOnWire | web/src/protocol/frame.ts:230-340 | The table-driven encoding is, frame by frame, what the branches of the encoder write |
| ControlFrames.InfoOnWire | web/src/protocol/frame.ts:104-117 | The twelve fields of a session info in wire order |
| ControlFrames.LongNonceIsDropped | web/src/protocol/base-transport.ts:128-131 | A nonce of 64 KiB makes a frame that is sent and dropped |
| ControlFrames.DeliveredIff | web/src/protocol/base-transport.ts:128-152 | A control message is delivered as the frame it encodes exactly when that takes at most 64 KiB |
| StunUsername.ExtractStunUfrag | crates/server/src/udp_mux.rs:273-313 | The attribute walk computes Extract, in bounds and terminating, on any packet |
| StunUsername.RefusedWhen | crates/server/src/udp_mux.rs:273-291 | What is too short, no STUN message or shorter than it says has no username |
| StunUsername.TruncatedEndsSearch | crates/server/src/udp_mux.rs:293-301 | An attribute that claims more than the packet has ends the search |
| StunUsername.ExtractFinds | crates/server/src/udp_mux.rs:273-313 | For every well-formed message: the part before the colon of the first valid UTF-8 USERNAME, or None |

## Left out

- KCP, UDP, TCP, TLS, SSH, WebRTC and HTTP themselves: KCP is a reliable ordered byte pipe with arbitrary chunking.
- Wake-ups and shutdown of the multiplexer loop: notifications, read and write errors and the end of the connection; a run ends where they begin.
- Two streams opened under one id on the same end, and frames for streams that are not open: those frames are dropped by design, so the FIFO is stated for live streams.
- Cancellation of a control receive inside a select, and reads that fail: receives run to completion.
- Row and column in cursor reports: they come from an estimate per chunk, so any two decimal numbers stand for them.
- UnifiedFilter.UnifiedFilter: does not model what OSC strings carry (working directory, title, notifications), because each is a field-by-field parse of a string that is removed whatever it says.
- UnifiedFilter.HandleAt: does not model that extraction either; its six OSC branches all remove the string, and that is modelled.
- FilterPipeline.QueryInterceptor.Process: does not model the extracted metadata or the cursor estimate, whose only use is the row and column of a cursor report.
- StdinFilter.TypingIsKeptIff: the shell's focus mode is fixed over the run; when pending input is discarded at the end is left out.
- UnifiedFilter.RemoteIsFinalIff: the remote path is stated for one chunk of whole tokens, because it is not a function of the stream: it filters only chunks in which the first filter removed something.
- Echo tracking and the virtual terminal.
- Malformed escape sequences in the chunking theorems: for those only the subsequence, was-filtered and exact-loop results hold.
- ContextStream.FlushDelivers: assumes lz4 decompresses what it compressed and expands by at most one tenth plus 24 bytes.
- ContextLink.EveryRunDelivers: uncompressed Chunked messages must not slip through the wrapped length check; PlainFrameFaithfulIff says what happens to those that do.
- Pass-through relay of framed data (`recv_data_raw`, `send_data_raw`) and control messages over a context stream: the same framing without compression.
- SessionRuns.RunKeepsAgreement: methods are atomic; interleavings inside one method, such as the gap between inserting a session and broadcasting it, and the wrap of the 64-bit generation counter are not modelled.
- SessionMirror.SnapshotConverges: a subscriber that lags behind the broadcast buffer loses events; that is not modelled.
- SessionMirror.AnnouncedInfoConvergesIff: window size and last activity also change without an event, so they are erased from the statement.
- Contents of the channels to clients and agents: modelled is who is told of an attach, a detach, a close or a size, not whether the channel had room.
- ClientLoop.NothingLeftIff: other connections do not act between the requests of this one.
- TerminalOutput.RunReadsBack: the consumer registers its output callback inside the header callback, as the one consumer in the repository does.
- Fields of a session that no modelled operation reads (shell, directory, host, user), and the agent's own channels.
- RcFile.RoundTripIff: file access, backups and the shell detection are left out; arguments have no line feed.
- TerminalOutput: replacement of invalid UTF-8 and byte-order marks in ids, and the input direction; the relay may also skip chunks when its broadcast lags.
- ControlFrames: encoding and decoding of frames are functions driven by a table of fields per tag instead of a method with one branch per frame; the reader and writer under them are the classes of `BincodeIO`. Integers are below 2^53, and a list longer than the bytes that follow fails only when they run out.
- The rest of the UDP multiplexer, authentication, configuration, logging, the user interface and the reconnect logic.
