# Talaris, verified in Dafny

Talaris is a single-threaded WebSocket client driver on io_uring. This project models the four parts of it
that hold the hard properties and proves them for every input and every run:

- **the inbound decoder** (`Bytes`, `Frame`, `Close`, `Http`, `CursorBuf`, `Parser`, `Decoder`, `FastPath`,
  `Batching`, `Replies`, `Client`, `Streams`, `Sessions`, `Reports`). `Decoder.Run` says what a byte stream means,
  without buffers, paths or chunks. `Client.WsClient` is the client as it is written, with its receive buffer, parser,
  message buffer, the three paths over the same bytes and the switches between them. Its invariant `Valid` says that
  the events given out so far, followed by those still to come, are those of the reference decoder on all bytes fed.
  `Streams` says what the reference decoder does with what a server sends, in the words of RFC 6455 and not in the
  decoder's own: which frames are accepted, with which code the others are refused, and that messages come out as
  they were sent. `Replies` says what has to be written in answer to a list of events, or when a stream is refused;
- **the outbound path** (`Bits`, `Mask`, `Outbound`, `Vectors`, `SendPath`): masking loops, frame writing, the
  example frames of RFC 6455, `tx_buf`, `send_buf`, `tls_pending_out`, partial sends and the in-flight rule;
- **the provided-buffer ring** (`Ring`, `BufRing`, `RecvLoop`): the ring written in place with its 16-bit tail,
  and the ring, the kernel and the receive handlers as a state machine in which the kernel takes entries from the
  head whenever it likes;
- **the pool** (`Tokens`, `States`, `Connection`, `Grouping`, `Slots`, `Pool`, `Drivers`, `PoolRuns`,
  `Receive`, `Refinement`): tokens, slots, generations, buffer group ids, handles, the active count, the states of the
  driver, and the dispatch of completions, grouped or not.

Validity of UTF-8 and acceptance of the upgrade response are arbitrary predicates; the kernel's promises about
completions are stated as predicates (`Connection.WellFormed`, `Grouping.Deliverable`, `RecvLoop.CanPost`).

Four things that the code does not do, each with its exact condition:

- *When* a stream that is bound to fail is reported depends on the path that meets the bad header. The fast header
  parser rejects after two bytes; the incremental parser waits for the whole header
  (`Client.ReportTimeDependsOnPath`). `Reports.ReportsDiffer` is two runs of the client over the same bytes, of which
  one fails and the other waits, because it polled an empty buffer in between. Data events never depend on it.
  `Decoder.Run` calls such a stream `Doomed`.
- A connection whose driver state is Closed comes back when a completion arrives while its client is still open,
  and exactly then (`Grouping.ReopensExactly`, `Grouping.ReopenWitness`). The active count does not go up again, so
  it falls short, by no more than the number of such completions, and is exact in every run without one
  (`PoolRuns.PoolSession`). A run without failed submissions in which no completion follows one that made its
  connection's driver give up is such a run. `PoolRuns.CountFallsShort` is a run in which the count is 0 with a
  live connection.
- The comments of the pool say that a buffer group id is reused only once its ring is unregistered
  (src/pool.rs:16-17, 193-195). After a failed unregister that holds over every run (`PoolRuns.PoolSession`). It
  fails exactly when, on connect, the ring is registered, arming the receive fails and unregistering fails too:
  the connection then holds no ring, and `retire_slot` takes that for "never registered"
  (`Grouping.LeaksExactly`, `Grouping.LeakWitness`, `Pools.Pool.RemoveConn`).
- Message numbers and indices of marked events saturate at their integer types' limits
  (`Batching.MarksAreConsecutive`).

## Model

| member | source | states |
|---|---|---|
| `Bytes.FromBEJoin` | src/ws/frame.rs:131-144 | the value of two byte strings in a row is that of the first, shifted by the length of the second, plus that of the second: big-endian order |
| `Bytes.BEDigits` | src/ws/frame.rs:214-222 | the n-byte spelling of a number is its base-256 digits from the most significant one on |
| `Frame.OpCodeFrom` | src/ws/frame.rs:52-70 | the opcode, if any, whose four bits these are, and no other |
| `Frame.ParseEncoded` | src/ws/frame.rs:108-230 | parsing an encoded header, whatever follows it, gives back the header and its exact size |
| `Frame.EncodeParsed` | src/ws/frame.rs:108-230 | re-encoding any parsed header gives back the consumed bytes, and only encodable headers are accepted |
| `Frame.VerdictStable` | src/ws/frame.rs:108-189 | success and error of the header parser are final: more bytes never change them |
| `Frame.StrictPrefixIncomplete` | src/ws/frame.rs:108-189 | every strict prefix of an encoded header asks for more bytes |
| `Frame.EncodeHeader` | src/ws/frame.rs:194-230 | writes exactly the header's bytes into the destination and nothing behind them |
| `Frame.HeaderLayout` | src/ws/frame.rs:194-230 | an encoded header byte by byte: FIN and opcode, mask bit and 7-bit length or 126 or 127, the length in 0, 2 or 8 bytes with the most significant first, then the key |
| `Vectors.UnmaskedExamples` | src/ws/frame.rs:194-230 | single and fragmented text and a ping are the bytes of section 5.7 of RFC 6455 |
| `Vectors.LengthExamples` | src/ws/frame.rs:194-230 | so are the headers of 256 bytes and of 64 KiB |
| `Frame.ServerHeaderAgrees` | src/ws/parser.rs:76-162 | the incremental parser's verdict is the header parser's on unmasked frames; masked and bad headers are rejected at once or later |
| `Frame.ServerVerdictStable` | src/ws/parser.rs:76-162 | the verdict on a server header is final, and a header bound to fail stays so |
| `Frame.WholeHeaderDecided` | src/ws/parser.rs:164-175 | as many bytes as the second byte announces always settle the header |
| `Close.CloseRoundTrip` | src/ws/close.rs:61-104 | an encoded close payload parses back to its code and reason |
| `Close.EncodeClosePayload` | src/ws/close.rs:92-104 | writes code and reason into the destination and nothing behind them |
| `Close.CloseLayout` | src/ws/close.rs:92-104 | a close payload is code / 256, code mod 256, reason |
| `Http.FindDoubleCrlf` | src/http.rs:174-176 | the first place, and only the first, at which the blank line ends the headers |
| `Http.ResponseEnds` | src/http.rs:113-172 | a header block that contains no blank line, then a blank line within 16384 bytes, then anything: the response is that block |
| `Http.ResponseVerdict` | src/http.rs:113-172 | more is awaited exactly while at most 16384 bytes hold no blank line, refused exactly when more than that arrived without one in the first 16384, and a response is always such a block |
| `Http.ResponseStable` | src/http.rs:113-172 | the verdict on the upgrade response is the same however many frame bytes arrived with it |
| `CursorBuffer.CursorBuf.ExtendFromSlice` | src/cursor_buf.rs:70-82 | appends to the queue, with or without compaction |
| `CursorBuffer.CursorBuf.Consume` | src/cursor_buf.rs:84-93 | drops from the front of the queue |
| `CursorBuffer.CursorBuf.Compact` | src/cursor_buf.rs:100-110 | moves the head to zero without changing the queue |
| `Parser.FrameParser.FeedOne` | src/ws/parser.rs:76-162 | one call gives the verdict on everything held and fed, however the bytes were cut; payload comes out once and in order |
| `Decoder.RunAppend` | src/ws/client.rs:2035-2211 | decoding a stream in two parts, carrying only phase and leftover bytes, is decoding it whole |
| `Decoder.ChunksAreMeaningless` | src/ws/client.rs:2035-2211 | decoding any split of a stream chunk by chunk is decoding the whole |
| `Decoder.DeadStays` | src/ws/client.rs:2035-2211 | a stream that has failed, or is bound to, never yields another event, and the reason stays the same |
| `Decoder.RunLeftover` | src/ws/client.rs:2027-2108 | decoding stops exactly where the next step waits or fails, and stays there |
| `Streams.FrameFate` | src/ws/client.rs:2056-2235 | a whole server frame is refused if and only if it is over a limit, out of order, a close with a forbidden payload, or the end of a text that is not UTF-8, and with 1009, 1002, 1002 or 1007; else exactly its bytes are consumed |
| `Streams.FrameYield` | src/ws/client.rs:2162-2235 | what an accepted frame yields: a Ping, Pong or Close with its payload, the joined message at the last fragment, or nothing and a longer message before it |
| `Streams.FramePrefix` | src/ws/client.rs:2056-2160 | a frame that has not arrived whole is awaited, unless its complete header already breaks a limit or the order |
| `Streams.BrokenHeader` | src/ws/client.rs:2056-2108 | bytes that begin no encoding of an unmasked header are a protocol error, 1002 |
| `Streams.ItemsRun` | src/ws/client.rs:2035-2211 | the encoding of any list of control frames and messages, fragmented anywhere, with control frames between the fragments, decodes to exactly their events and leaves the rest |
| `Streams.StreamDecodes` | src/ws/client.rs:2027-2211 | an accepted upgrade response, its blank line and any such list decode to the completed handshake and exactly those events |
| `Streams.StreamCloses` | src/ws/client.rs:2213-2235 | an allowed close frame is reported with its code and reason, or 1005 without one, and nothing behind it is decoded |
| `Streams.StreamRefuses` | src/ws/client.rs:2110-2235 | a refused frame ends the stream with its code after everything before it has been delivered |
| `Streams.UpgradeFails` | src/ws/client.rs:2035-2054 | a response that is not accepted, or whose header block is too long, yields no event and a failure |
| `Streams.OnlyFrames` | src/ws/client.rs:2056-2211 | whatever a step consumes is the encoding of one frame that may stand there |
| `Streams.RunConserves` | src/ws/client.rs:2056-2235 | for any bytes: what is decoded is an encoding of frames; the data payloads of these frames are, joined, those delivered and what is held of an unfinished message; control frames are all reported, in order; every message is within the limit, every text UTF-8 unless assumed so, every close allowed |
| `FastPath.FastRefinesParseHeader` | src/ws/client.rs:2487-2534 | on unmasked input: same opcode, length and size with FIN, same errors, NeedMore only for incomplete headers, fallback only for FIN = 0, continuation, control or 64-bit lengths |
| `FastPath.FastRefinesStep` | src/ws/client.rs:2435-2484 | a complete frame, a wait or a rejection of the fast parser is the reference decoder's step, close code included; limits and UTF-8 included |
| `FastPath.MaskedNeverAccepted` | src/ws/client.rs:2487-2534 | a masked frame is rejected by every path, at once or when its header is complete |
| `FastPath.DrainFrames` | src/ws/client.rs:1613-1659 | the loop over borrowed bytes computes the scan: events, bytes consumed and why it stopped |
| `FastPath.ScanRefinesRun` | src/ws/client.rs:1613-1659 | the scan's events followed by decoding the unconsumed rest are decoding the whole; it stops where decoding is stuck, dead or must fall back |
| `Batching.DrainFramesBatched` | src/ws/client.rs:1795-1908 | flattened batches are the scan's events; all batches but the last hold 32; only the last is marked as chunk end, and only without fallback; numbers run on from the start |
| `Batching.MarksAreConsecutive` | src/ws/client.rs:393-405 | numbers and indices are consecutive exactly until they reach the largest value of their type |
| `Client.StartVerdictExact` | src/ws/client.rs:2110-2160 | the streaming path's checks at the start of a frame accept exactly the frames that the reference decoder allows, and refuse the others with its close code |
| `Client.BorrowedRefinesRun` | src/ws/client.rs:650-720 | waiting, rejecting (with the same close code) and emitting on the borrowed path are what the reference decoder does with the same bytes |
| `Client.ThreePathsAgree` | src/ws/client.rs:650-720 | on every complete unfragmented data frame all three paths accept or reject alike, with the same payload, the same bytes consumed and the same close code |
| `Client.ReportTimeDependsOnPath` | src/ws/client.rs:2487-2534 | two bytes that the fast parser rejects while the incremental parser still waits |
| `Client.WsClient.constructor` | src/ws/client.rs:526-571 | a new client is connecting, with nothing fed, emitted or written |
| `Client.WsClient.BeginHandshake` | src/ws/client.rs:573-599 | succeeds exactly once, while connecting, and then the upgrade request is the first thing on the wire |
| `Client.WsClient.SendData` | src/ws/client.rs:1913-1953 | writes one frame exactly when open and the payload is allowed, else nothing |
| `Client.WsClient.SendClose` | src/ws/client.rs:1955-1973 | succeeds exactly when closing or closed already, or when open with an allowed code and a short reason; then one Close with that code and reason is written and the state is Closing; later calls change nothing |
| `Client.WsClient.QueueClose` | src/ws/client.rs:2237-2250 | writes a Close only when open, so at most one is ever written |
| `Client.WsClient.AckTx` | src/ws/client.rs:1996-2006 | acknowledged bytes move from the front of the pending ones to the acknowledged ones |
| `Client.WsClient.FeedRecv` | src/ws/client.rs:602-605 | the bytes join the undecoded ones and nothing else changes |
| `Client.WsClient.AdvanceHandshake` | src/ws/client.rs:2035-2054 | the handshake step is the reference decoder's; leftover bytes become frames |
| `Client.WsClient.OnFrameStart` | src/ws/client.rs:2110-2160 | a header is accepted, which couples the buffers to the frame under way, or the stream is dead and, while open, a Close with the reference decoder's code is written |
| `Client.WsClient.OnFrameEnd` | src/ws/client.rs:2162-2211 | completing a frame emits what the reference decoder emits; a Ping gets a Pong with its payload when asked for, and nothing else is written |
| `Client.WsClient.OnReceivedClose` | src/ws/client.rs:2213-2235 | a valid Close received in Open is answered with its code, or 1000 if it was empty; an invalid one fails and, while open, is answered with 1002 |
| `Client.WsClient.AdvanceFrame` | src/ws/client.rs:2056-2108 | each streaming step keeps the coupling of parser, buffers and reference decoder, and makes progress or waits |
| `Client.WsClient.TryEmitBorrowedData` | src/ws/client.rs:650-720 | the borrowed path's emission is the next event of the reference decoder, and its failure means a dead stream |
| `Client.WsClient.ClearAfterEmit` | src/ws/client.rs:2342-2360 | releasing an emitted event loses and repeats nothing |
| `Client.WsClient.PollEvent` | src/ws/client.rs:607-646 | gives the next event of the reference decoder, or says that none can come without more bytes, or fails on a dead stream; a Ping gets its Pong, a Close its answer, a refusal while open one Close with the reference decoder's code, and nothing else is written |
| `Client.WsClient.TryDrainDataEvents` | src/ws/client.rs:1255-1307 | draining the receive buffer in one loop gives the data events of the reference decoder and leaves the rest |
| `Client.WsClient.DrainDataEvents` | src/ws/client.rs:730-771 | all data events that the undecoded bytes hold, in order, up to the first error; exactly the answers to the events met on the way are written, and the Close for the error |
| `Client.WsClient.DrainDataEventsFromIngress` | src/ws/client.rs:773-816 | the data events of the reference decoder on leftover plus chunk; success leaves exactly its phase and leftover, failure only on a dead stream; what is written is exactly the answers to the decoder's events and, on failure while open, a Close with its code |
| `Client.WsClient.DrainBatchesFromIngress` | src/ws/client.rs:1185-1253 | flattened marked batches are the unbatched events; numbered on from the given sequence, index from 0; the promised shape when the chunk never falls back; the same answers and the same Close on failure |
| `Client.WsClient.QueueFastDataFrameError` | src/ws/client.rs:1587-1611 | while open, an error of a fast path writes one Close with the code for that error; later it writes nothing |
| `Replies.SpokenAppend` | src/ws/client.rs:2162-2250 | what a conversation asks to be written is what its parts ask for, with the connection open in the second part as the first left it |
| `Replies.SpokeTwice` | src/ws/client.rs:2162-2250 | two stretches of correct answers are one stretch of correct answers, also when the second ends in a refusal |
| `Sessions.Session` | src/ws/client.rs:607-816 | over any interleaving of feeds, polls, drains, sends, closes and acknowledgements: the data events are the reference decoder's on all bytes fed; a request is accepted exactly when no error was reported, the connection is open after the log so far and the request is allowed; the frames written are the accepted requests, one Pong per Ping when asked for, the answer to a Close received in Open and a Close with the decoder's code for a refused stream, in the order in which events and requests came; only Pongs follow a Close; the acknowledged and pending bytes read back as the frames written |
| `Sessions.Apply` | src/ws/client.rs:1913-2033 | each call writes exactly what its events and its request ask for, accepts exactly the allowed requests made while open, and hears as much of the stream as it should; no call moves the state back, removes a written frame, or writes once closed |
| `Sessions.Say` | src/ws/client.rs:1913-1973 | a request is accepted exactly when the connection is open and the request allowed; then it is written as asked, else nothing is |
| `Sessions.DecodeStream` | src/ws/client.rs:773-816 | for every stream and every split into chunks, the data events are those of the whole stream |
| `Sessions.HearServer` | src/ws/client.rs:773-816 | the client, fed an accepted upgrade response and any list of messages and control frames in any chunks, does not fail and hears exactly those messages, each whole and once |
| `Sessions.DecodeMarked` | src/ws/client.rs:1185-1253 | marked batches over a whole stream: the same data, numbered consecutively across chunks |
| `Reports.ReportsDiffer` | src/ws/client.rs:607-720 | two runs over the same bytes with different reports: the poll that meets the two bytes fails, the poll after an empty one waits |
| `Bits.XorBit` | src/ws/mask.rs:62-73 | a bit of an exclusive or is set exactly when it is set in one of the two |
| `Bits.XorInvolution` | src/ws/mask.rs:45-78 | exclusive or undoes itself |
| `Mask.MaskInvolution` | src/ws/mask.rs:45-121 | masking is byte i XOR key[i mod 4] and undoes itself |
| `Mask.MaskedExactly` | src/ws/mask.rs:45-121 | masking flips exactly the bits of byte i that are set in key[i mod 4], and no other result does |
| `Mask.MaskScalar` | src/ws/mask.rs:45-78 | 8-byte blocks plus tail, in place: bit by bit, every byte is flipped where the key is set |
| `Mask.MaskAvx2` | src/ws/mask.rs:92-121 | 32-byte blocks, then the scalar loop on the tail: bit by bit the same |
| `Outbound.EncodeFrame` | src/ws/client.rs:2253-2266 | by either masking loop, byte by byte: FIN and opcode, mask bit and length, key, and the payload with the key's bits flipped |
| `Vectors.MaskedExamples` | src/ws/client.rs:2253-2266 | a masked text and a masked pong are the bytes of section 5.7 of RFC 6455 |
| `Outbound.ReadOneFrame` | src/ws/client.rs:2253-2266 | a server reading a written frame gets back its opcode and payload and is left with the rest |
| `Outbound.WireRoundTrip` | src/ws/client.rs:2253-2266 | a server reading everything written gets back exactly the list of messages |
| `Outbound.Outbox.WriteFrame` | src/ws/client.rs:2253-2290 | the frame's bytes go behind the pending ones; acknowledged plus pending bytes stay request plus frames; frame i is masked with bytes 4i to 4i + 3 of the random stream, so no random byte is used twice |
| `Outbound.Outbox.AckTx` | src/ws/client.rs:1996-2006 | acknowledging moves bytes and loses none |
| `Outbound.Outbox.CompactTxIfNeeded` | src/ws/client.rs:2008-2016 | compaction leaves the pending bytes alone |
| `Outbound.Outbox.PushRequest` | src/ws/client.rs:573-599 | the upgrade request precedes all frames |
| `SendPath.Egress.TrySubmitSend` | src/connection_state.rs:323-391 | nothing is touched while a send is in flight or nothing may be sent; otherwise it submits exactly when the TLS layer does not fail, something is staged, waiting or pending and the submission works: then as much of it as 32 bits can count, oldest first; it does nothing exactly when there is nothing, and fails in the other cases; conservation is kept, and with TLS exactly the pending bytes, if any, and then nothing are given to the TLS layer |
| `SendPath.Egress.OnSendCqe` | src/connection_state.rs:1362-1373 | the acknowledged part of the submitted bytes, and only it, leaves |
| `SendPath.Egress.CompactSendBufIfNeeded` | src/connection_state.rs:393-404 | compaction leaves the unsent bytes alone and is never done in flight |
| `SendPath.Egress.OnTlsOutput` | src/connection_state.rs:1425-1439 | ciphertext produced meanwhile goes behind everything produced before |
| `SendPath.Egress.DiscardSend` | src/connection_state.rs:527-540 | a late send completion ends the flight and drops what was staged |
| `SendPath.Egress.PlainBytesConserved` | src/connection_state.rs:323-404 | acknowledged, unsent and pending bytes are the request and all frames, in order, across partial sends |
| `SendPath.Egress.CiphertextConserved` | src/connection_state.rs:323-404 | acknowledged, unsent and pending ciphertext is everything in the log of what the TLS layer generated, in order; the plaintext that it accepted, with what the client still holds, is the request and all frames |
| `SendPath.EgressSession` | src/connection_state.rs:323-404 | over any run of client writes, TLS output, submissions and sends that succeed, fail or are partial, and state changes, up to a completion for a closed connection: what the kernel took, what is staged and what waits are everything generated, in order; with TLS that is the output of every receive, in order, and what each numbered call yielded for its plaintext; the memory lent to the kernel is the same, in the same place, when it is done; such a completion needs the driver to close in mid-flight |
| `SendPath.Happen` | src/connection_state.rs:323-404 | one event of such a run: what it writes, exactly what it makes the TLS layer generate; a submission with something to send starts a flight with its oldest bytes, or closes; a completion ends the flight with exactly the bytes taken; while a send stays in flight send_buf and its head do not move |
| `SendPath.Flush` | src/connection_state.rs:323-391 | on plain TCP, submitting and completing in turn comes to an end however little the kernel takes each time, and then the kernel has confirmed the request and all frames |
| `Ring.WrapKeepsSlot` | src/proactor/buf_ring.rs:254-287 | wrapping the tail at 16 bits does not disturb the ring position |
| `Ring.RunKeepsAligned` | src/proactor/buf_ring.rs:254-287 | in-order recycling keeps slot s on buffer s for unboundedly many turns |
| `Ring.OnlyInOrderKeepsAligned` | src/proactor/buf_ring.rs:254-287 | recycling keeps slot s on buffer s exactly when it is that buffer's turn; otherwise the ring is misaligned for every count |
| `Ring.SlicesAddUp` | src/connection_state.rs:2408-2465 | slices are full except the last and add up to the completion's length |
| `Ring.BundleBidsDistinct` | src/connection_state.rs:2445-2462 | the buffers of one completion are distinct |
| `BufRing.BufferRing.constructor` | src/proactor/buf_ring.rs:126-195 | slot i offers buffer i, and all are published |
| `BufRing.BufferRing.Recycle` | src/proactor/buf_ring.rs:254-287 | the entry at the tail, modulo entries, becomes this buffer with its offset and length, no other entry changes, and the tail moves by one modulo 65536 and is published |
| `BufRing.BufferRing.BundleBid` | src/connection_state.rs:2445-2449 | wrapping addition and mask give (start + index) mod entries |
| `BufRing.BufferRing.RecycleRecvBuffers` | src/connection_state.rs:2386-2406 | gives back the buffers of a discarded completion, in order |
| `BufRing.BufferRing.ForEachRecvSlice` | src/connection_state.rs:2408-2465 | hands out the slices until the callback fails, gives back each buffer once either way, and touches nothing when the length is impossible |
| `BufRing.DiscardMatchesDelivery` | src/connection_state.rs:2386-2465 | discarding gives back exactly the buffers that delivering does, for every length in range |
| `BufRing.SlicesTotal` | src/connection_state.rs:2408-2465 | the delivered bytes are as many as announced |
| `RecvLoop.StepKeeps` | src/connection_state.rs:406-430 | every step of kernel and driver keeps the invariant |
| `RecvLoop.RunKeeps` | src/connection_state.rs:406-430 | so does every run |
| `RecvLoop.SlotsStayPut` | src/proactor/buf_ring.rs:254-287 | in every reachable state slot s holds buffer s |
| `RecvLoop.OwnersAreDisjoint` | src/proactor/buf_ring.rs:254-287 | in every reachable state no published buffer is one that the driver still holds |
| `RecvLoop.BundleIsConsecutive` | src/connection_state.rs:2445-2462 | the buffers that the kernel fills for a bundle are the ones that the driver computes |
| `RecvLoop.AtMostOneReceive` | src/connection_state.rs:406-430 | when the driver rearms, no receive is outstanding |
| `RecvLoop.DrainedBuffersAreBack` | src/connection_state.rs:1376-1420 | after draining any number of the posted completions the buffers still out are exactly those that the rest names, in order, and a last completion has taken the armed flag down |
| `RecvLoop.AllBuffersBackBeforeRearm` | src/connection_state.rs:1376-1420 | after draining all of them every buffer is in the ring, and after ENOBUFS the flag is down |
| `RecvLoop.ReceiveGoesOn` | src/connection_state.rs:406-430 | in every run, once what was posted is drained and the receive rearmed, a receive is outstanding, every buffer is published and the kernel can post data of any length that fits |
| `Tokens.TokenRoundTrip` | src/connection_meta.rs:184-198 | slot and generation come back from their token, which fits 56 bits |
| `Tokens.TokenInjective` | src/connection_meta.rs:184-198 | different (slot, generation) pairs have different tokens |
| `Tokens.TokenLayout` | src/connection_meta.rs:184-198 | a token is the generation times 2^28 plus the slot |
| `Tokens.KindFrom` | src/proactor/op.rs:33-43 | the operation, if any, with this code, and no other |
| `Tokens.UserDataRoundTrip` | src/proactor/op.rs:55-86 | kind and token come back with the completion |
| `Tokens.UserDataLayout` | src/proactor/op.rs:55-60 | user data is the operation's code, 1 to 5, times 2^56 plus the token |
| `Grouping.IngestAllIsIngested` | src/connection_state.rs:691-791 | chunks parsed one by one up to the first error deliver what the joined bytes deliver, and leave the same client or a dead stream |
| `Grouping.HealthyStep` | src/connection_state.rs:457-490 | handling a completion keeps driver state, client state and ring consistent |
| `Drivers.DriverLaw` | src/connection_state.rs:457-490 | the driver's next state, exactly: Closed when the completion ends the connection or its bytes are refused; else Open when the client is open, Closing when it is closed, and otherwise where the completion takes it |
| `Drivers.ReadLaw` | src/connection_state.rs:1516-1662 | bytes that the reference decoder refuses close the connection, bytes it accepts move the client to its phase and leftover and the driver to Open or Closing, and the data events are those of the reference decoder |
| `Drivers.OnlyReadingMovesTheClient` | src/connection_state.rs:457-490 | every other completion leaves client and events alone |
| `Drivers.ConnectLaw` | src/connection_state.rs:1315-1360 | a connect brings ring and armed receive exactly when it succeeds, and nothing else brings a ring or, but for receives, moves the flag |
| `Grouping.StepReturns` | src/connection_state.rs:527-572 | open or closed, failing or not, a completion's buffers go back, in order |
| `Grouping.FoldReturns` | src/connection_state.rs:527-572 | over any run exactly the buffers that its completions name go back, in order |
| `Grouping.SlicesFold` | src/connection_state.rs:691-791 | the slice batch leaves exactly the connection that one-at-a-time handling leaves, also when a chunk fails part-way |
| `Grouping.BatchAlike` | src/connection_state.rs:584-791 | copied batch, slice batch and one-at-a-time handling: same events, same buffers in the same order, same client or both dead |
| `Grouping.AlikeFold` | src/pool.rs:1545-1594 | connections that cannot be told apart stay so under any further completions |
| `Grouping.GroupAlike` | src/pool.rs:1559-1592 | a group, handled together, does what its members do one at a time |
| `Grouping.ReopensExactly` | src/connection_state.rs:2348-2352 | a closed connection comes back exactly when a completion arrives while its client is open |
| `Grouping.ReopenWitness` | src/connection_state.rs:2348-2352 | a reset followed by the completion of an earlier send brings it back |
| `Grouping.StaysAfloat` | src/pool.rs:1960-1993 | only a completion that makes the driver give up leaves a connection closed with its client open |
| `Grouping.NeverRevived` | src/pool.rs:1960-1993 | if at most the last completion does so, nothing is brought back |
| `Grouping.GroupRevives` | src/pool.rs:1559-1592 | a group brings a connection back as often as its members do one at a time |
| `Grouping.LeaksExactly` | src/connection_state.rs:1315-1360 | a ring is left behind exactly when registered, not armed and not unregistered |
| `Grouping.LeakWitness` | src/connection_state.rs:1315-1360 | such a connect completion |
| `Slots.LiveUpdate` | src/pool.rs:1948-1957 | changing one slot changes the number of live connections by that slot |
| `Slots.FreshHandle` | src/pool.rs:419-467 | the next handle of a slot that is not occupied was never issued |
| `Slots.ReachesOnlyItsOwn` | src/pool.rs:1491-1500 | a completion reaches the one connection whose token it carries, or none |
| `Slots.LateCompletionIsDropped` | src/pool.rs:1491-1500 | a completion of a removed connection reaches nobody, whoever uses the slot now |
| `Pools.Pool.constructor` | src/pool.rs:228-245 | an empty pool satisfies the invariant |
| `Pools.Pool.ReserveConnId` | src/pool.rs:440-453 | a free or fresh slot id, refused exactly when 2^28 are in use and none is free |
| `Pools.Pool.ReserveBgid` | src/pool.rs:455-465 | a free or fresh group id, refused exactly when 65535 were given out and none is free |
| `Pools.Pool.ReserveIdentity` | src/pool.rs:419-438 | both or neither: without a slot the group goes back |
| `Pools.Pool.ReleaseIdentity` | src/pool.rs:467-479 | both go back and nothing stays reserved |
| `Pools.Pool.SubmitConnect` | src/pool.rs:309-344 | issues a handle never issued before for a fresh connection, with a group that was free or never given out, or leaves every handle as it was; says which error occurs when |
| `Pools.Pool.RetireSlot` | src/pool.rs:482-518 | only the slot with the expected generation is left; its group is never reissued exactly when its ring could not be unregistered, else free; reuse stays safe exactly when no ring was left behind |
| `Pools.Pool.RecycleConnSlot` | src/pool.rs:520-534 | the slot of a connection just taken out is free for a next generation, or never used again when generations have run out; the tables agree again and the old handle is spent for ever |
| `Pools.Pool.LeaveGroup` | src/pool.rs:493-517 | the group is free again, or lost when its ring stays registered; reuse stays safe exactly when no ring was left behind |
| `Pools.Pool.RemoveConn` | src/pool.rs:351-357 | the handle, and no other, stops standing for a connection; stale handles are refused; its group is lost exactly when unregistering its ring failed |
| `Pools.Pool.SubmitReconnect` | src/pool.rs:409-417 | the old handle is gone even when the new connect fails; the new one was never issued; the old group is lost exactly when unregistering failed, and then the new connection has another |
| `Pools.Pool.RetiredForEver` | src/pool.rs:1446-1457 | a removed handle resolves to nothing and its completions reach nobody |
| `Pools.Pool.HandlesAreLiveOrRetired` | src/pool.rs:1446-1457 | a handle was issued if and only if it stands for a connection or was removed, and never both |
| `Pools.Pool.IdsSplit` | src/pool.rs:440-534 | ids below the next one split exactly into occupied, free and generation-exhausted, without duplicates |
| `Pools.Pool.BgidsSplit` | src/pool.rs:455-518 | group ids below the next one split exactly into held by one slot, free and never reissued, without duplicates |
| `Pools.Pool.FinishConn` | src/pool.rs:1959-1993 | the connection ends as synced or failed; the count goes down by one exactly when an active connection closes, and never up |
| `Pools.Pool.Dispatch` | src/pool.rs:1545-1594 | for any list of completions each connection ends as if its own completions alone had been handled one by one; table, count and reopenings are exactly those of handling the groups in order, where a reopening is a completion handled for a connection that is Closed while its client is open; where countable, the reopenings are those of the connections' own completions |
| `Drivers.EndOfStreamCloses` | src/connection_state.rs:1475-1514 | after a list with an end of stream, a reset or another failure for a connection, that connection is Closed unless this or a later completion brings it back |
| `Drivers.ComebacksCounted` | src/pool.rs:1545-1594 | such a return is among the reopenings that the pool counts for the list, so there is none when that is zero |
| `Pools.Pool.GroupEnd` | src/pool.rs:1559-1576 | exactly the completions at the front of the list that can be handled together for one connection |
| `Pools.OthersDoNotMatter` | src/pool.rs:1545-1594 | events, buffers, armed flag and parser state of a connection depend only on its own completions |
| `Pools.Pool.SubmitConnOps` | src/pool.rs:1466-1484 | every connection submits for itself; a failure closes only that one, and the count goes down by the number that close |
| `Drivers.SubmitLaw` | src/connection_state.rs:406-430 | a connection neither idle nor closed has its receive armed again if it was not, and is closed exactly when its send or its receive cannot be submitted; nothing else changes |
| `Drivers.ArmedOrClosed` | src/pool.rs:1466-1484 | before a wait every established connection has an armed receive or is closed |
| `Pools.Pool.BeginClose` | src/pool.rs:651-669 | only the connection of the handle begins to close |
| `Drivers.CloseLaw` | src/pool.rs:651-669 | when a close is accepted, exactly; it takes driver and client from Open to Closing and moves nothing else |
| `PoolRuns.Apply` | src/pool.rs:309-417 | each call adds at most one new handle, removes at most the one named, records every group given out and every ring that stays registered, never gives out a lost group, counts exactly its reopenings, and strands only connections with a completion to blame |
| `PoolRuns.PoolSession` | src/pool.rs:309-534 | over every run: handles pairwise distinct, removed ones never resolve and catch no completion, all others do; a group whose ring could not be unregistered is never given out again, nor any group under which the kernel keeps a ring unless one was left behind on connect; the active count is at most the truth, short of it by at most the completions handled for connections that are Closed while their clients are open, and equal to it when there is none |
| `PoolRuns.CountFallsShort` | src/pool.rs:1948-1993 | a run after which the count is 0 and a connection is live |
| `PoolRuns.OrderlyList` | src/pool.rs:1960-1993 | when no submission fails and no completion follows one that made its connection's driver give up, no list of completions brings anybody back |
| `Receive.PlainConnection.HandleCopied` | src/connection_state.rs:627-689 | the events of the reference decoder on all payloads, each copied before the kernel may overwrite its buffer; buffers back in order |
| `Receive.PlainConnection.HandleSlices` | src/connection_state.rs:691-791 | the same, parsing buffer by buffer up to the first error |
| `Receive.PlainConnection.HandleBatch` | src/connection_state.rs:584-604 | the same for whichever of the two is chosen |
| `Receive.PlainConnection.HandleEach` | src/connection_state.rs:1475-1513 | the same one completion at a time, discarding after a failure; the connection is closed exactly when parsing failed |
| `Receive.PlainConnection.CopyLen` | src/connection_state.rs:606-625 | the total length, exactly when copying is on and the total is within the limit |
| `Refinement.IngestsAs` | src/ws/client.rs:773-816 | the client moves as the description of it that the pool's connections carry |
| `Refinement.ClosesAs` | src/ws/client.rs:1955-1973 | send_close is accepted, and leaves the client in the state, as that description says |
| `Refinement.HandlingAgrees` | src/connection_state.rs:527-572 | the receive loop with the kernel gives back the same buffers in the same order, and moves the armed flag, as handling the completion in the pool does |

## Left out

- TLS is a source of plaintext chunks and of ciphertext appended in order; rustls, certificates and cipher choice are not modelled.
- The upgrade response is accepted by an arbitrary predicate on its header bytes; SHA-1, base64, header parsing and `src/ws/handshake.rs` are not modelled.
- UTF-8 validity is an arbitrary predicate on byte strings.
- Submission to io_uring, sockets, DNS, affinity, clocks, histograms, Prometheus text and ingress counters are not modelled; outcomes of submissions are parameters.
- The error kinds reported on frames that are bad in several ways are not compared between paths; data events and the failing frame are.
- Raw pointers and lifetimes of borrowed events: events carry copies of their payloads; `Receive` models the one hazard that matters, the kernel overwriting a buffer that has been given back.
- Connections inside the pool are values (client state, phase, undecoded bytes and logs), tied to the client class by `Refinement.IngestsAs`; `Receive` covers the plain handlers on the client and ring objects themselves.
- The general `pump` that polls all events, the blocking connect and the marked dispatch variants repeat the dispatch loop with another sink and are not modelled; `Pools.Pool.Dispatch` covers the data pump and the batch pump.
- The unmarked batch loop (src/ws/client.rs:1661-1719) is the marked one without the numbers and is not modelled separately.
- Capacity hints and reallocation: buffers are sequences with a capacity number that only decides when to compact.
- FrameParser's buffering of a partial header in a fixed array is a sequence; the array bound is part of `Parser.FrameParser.Valid`.
- Parser.FrameParser.FeedOne: reports only the consumed length and the payload chunk, because the borrowed slices of the original are views of the same bytes.
- Client.WsClient.DrainBatchesFromIngress: says nothing about the shape of batches of a chunk that falls back, because the original marks every fallback batch as chunk end and a chunk ending in a control frame may have no such batch.
- Pools.Pool.Dispatch: connections with the copying batch path enabled are compared up to the moment at which a dead stream is reported, because that moment does depend on grouping; for the same reason their reopenings are foretold from a connection's own completions only for lists in which nothing but the last of them makes its driver give up; the count of reopenings as they happen is exact for all.
- Sessions.Session: after the first error nothing is promised about what is written except that only Pongs follow a Close, because the stream is then meaningless and the driver drops the connection.
- Events are logged per connection; the order in which the sink sees events of different connections, and which of several errors the pump returns first, are not modelled.
- Overflow of the total in `plain_recv_batch_copy_len` cannot be reached with lengths that fit an io_uring result and is not modelled.
