# A verified model of a libuv connection pool and its HTTP and JSON framers

The repository is a small connection pool on top of libuv. One loop thread accepts, connects, reads and writes; any
number of threads push requests to it; worker threads take the received bytes, frame them as HTTP/1.x messages or as
JSON texts, and answer. This project models the stateful cores of it and proves what they promise over every stream,
every run and every interleaving.

How the modules fit together:

- **HTTP framer.** `HttpParser` is `ChttpContext::analysis` as a pure machine: one `Step` is one byte of a scanning
  loop or one `goto _again`, and `Run` is a whole call. It works on the received bytes with the NULs that the parser
  writes over line ends. `HttpHeader` and `HttpFields` decode header lines, and `HttpReference`, `HttpDigits` and
  `HttpParameters` say in spelled-out bytes what they decode to. `HttpBoundary` proves that packet boundaries do not
  matter, `HttpHeaderScan` compares the header phase with a reference split of the original bytes, `HttpLayout`,
  `HttpSizes` and `HttpWrap` say where ranges lie and on exactly which streams, `HttpFraming` proves the round trip of
  whole messages (framing after section 3.3.3 of RFC 7230, chunked coding after section 4.1 of RFC 7230),
  with one in `HttpExample` byte by byte, `HttpGrammar` says what is made of every other stream, and `HttpPipeline` proves that pipelined messages
  come out exactly. `HttpContext` is the class that works in place on the receive buffer, proved method by method against the
  machine, `HttpContent` is what it copies out, and `HttpServer` is the loop of a task.
- **Workers.** `HttpWorkers` is one live session as a transition system: packets, tasks, the context lock and the loop
  of `ChttpTask::run`; `HttpOrder` says exactly which streams are handled in order whatever the workers do, and
  `HttpReplies` follows the responses through the request queues of the pool to the write path. `HttpEnds` says on
  which streams the connection is closed. `WorkQueue` is the condition-variable queue below it, as transitions and as
  a class.
- **Receive path.** `Buffer` and `RecvBuffer` are `Cbuffer` and `CrecvBuffer` as classes over arrays; `Doubling` is
  the loop of `merge` that looks for a size, with the exact condition under which it ends.
- **JSON framer.** `JsonParser` is the bracket-depth machine, `JsonFraming` its meaning by bracket balance,
  `JsonReference` the same in counted bytes, `JsonEnds` the streams on which the connection is closed, `JsonSession`
  whole runs with compaction at any time, `JsonContext` the class and `JsonServer` the loop of a task.
- **Allocator.** `CachedAllocator` has the free lists threaded through the header words: the steps of concurrent calls
  as transitions of a heap, and the class with `Alloc` and `Free`.
- **Pool.** `TcpLifecycle` is the life of every `Ctcp` object with its two handles and the two maps, `TcpPlaces` the
  table of its transitions, `TcpRuns` what the pool does not do for every connection, each with a run and its exact
  condition, `PoolQueues` the five request queues and their drain, `PoolDirect` the sends that pass by them,
  `PoolWakeup` the async signal and the exit handshake, `SendBuffers` the memory of one write, `NetworkNode` the
  addresses and the pairs that trust their hash, and `NetworkOrder` what order and hash are.

`size_t` is 64 bits wide. Chunk sizes, the doubling of the receive buffer, the usage counters of the allocator and the
hashes are computed modulo 2^64 as the code does. What libuv, malloc and the scheduler may answer is a parameter of a
method or a choice of the event sequence, so a statement about every run is a statement about all their answers.

## Model

| member | source | states |
|---|---|---|
| HttpHeader.FieldRoundTrip | src/http_context.h:95-122 | a name and a value survive being written as a header line with any spaces around both, so the four pointer scans find exactly them |
| HttpFields.DecimalRoundTrip | src/http_context.h:90 | a decimal number comes back from atoi whatever follows it that is not a digit |
| HttpFields.TransferEncodingSelects | src/http_context.h:85-93 | a last line Transfer-Encoding with value chunked, in any letter case and spacing, selects chunked coding and nothing else changes |
| HttpFields.ContentLengthSelects | src/http_context.h:85-93 | a last line Content-Length with a number in the range of int selects a body of that length and nothing else changes |
| HttpFields.ConnectionSelects | src/http_context.h:85-93 | a last line Connection keeps the connection alive exactly when its value is keep-alive in any letter case |
| HttpReferences.DecodeIff | src/http_context.h:95-122 | a line carries a field exactly if it is a name without colon and NUL, a colon and a value, with any of the six blanks around both, and then exactly that field |
| HttpReferences.HeaderSelects | src/http_context.h:70-122 | the flags of any header, in spelled-out names and values in any letter case: for each of the three names the last field of that name decides, wherever it stands and whatever other lines there are, and without one the connection is kept alive, there are no chunks and the length is 0 |
| HttpReferences.OtherLinesKeep | src/http_context.h:85-93 | a line whose name is none of the three, or without a name and a value, changes no flag |
| HttpReferences.DefaultFlags | src/http_context.h:70-76 | a header with none of the three keeps the connection alive and announces no body |
| HttpDigits.SignedRoundTrip | src/http_context.h:90 | atoi takes a decimal number with a minus or plus sign for what it says, and a text that begins with neither digit nor sign for 0 |
| HttpParser.StepOk | src/http_context.h:155-305 | every step keeps the state invariant (index within the buffer, only the last line open and only while lines are read, closed lines behind the index) and decreases the pair of unread bytes and state rank, so the goto loop ends |
| HttpParser.Run | src/http_context.h:146-306 | a whole call keeps the invariant, keeps the buffer length and stops only where nothing more can be decoded |
| HttpBoundary.StepAppend | src/http_context.h:155-305 | a step taken on a prefix of the stream is the step taken on the whole stream |
| HttpBoundary.RunAppend | src/http_context.h:146-306 | analysing what has arrived and then the rest ends in the same state as analysing everything once |
| HttpBoundary.FeedIsRun | src/http_context.h:146-306 | merge and analysis after each packet amount to one analysis of the concatenation |
| HttpBoundary.PacketBoundariesDoNotMatter | src/http_context.h:146-306 | two ways to cut the same stream into packets end in the same state, flags, line and chunk ranges and buffer bytes |
| HttpHeaderScan.SplitJoins | src/http_context.h:163-200 | the reference split of a stream into CRLF lines loses nothing: the pieces put together are the stream, and each piece has the form it claims |
| HttpHeaderScan.HeaderScanIsSplit | src/http_context.h:163-200 | the header phase goes bad exactly at a bare LF before the first empty line of the original bytes, and otherwise records the lines of the reference split, of a header that is complete and of one that is still being read, although it looks at bytes it has overwritten |
| HttpLayout.StepLayout | src/http_context.h:161-305 | a step, other than one over a chunk whose size plus 2 wraps, keeps lines and chunks ordered and disjoint, writes NULs over CRLF pairs behind the index only, and never into a chunk |
| HttpSizes.SizeRead | src/http_context.h:234-256 | the byte-by-byte scan of a size line yields, modulo 2^64, the number that its hex digits behind leading spaces spell, of any length and whatever follows them |
| HttpDigits.HexRoundTrip | src/http_context.h:236-250 | every number comes back from its hex digits, written with 0 to 9 and a to f or A to F, the letter case of each digit chosen freely |
| HttpDigits.SizeRoundTrip | src/http_context.h:234-256 | a size line with blanks, the hex digits of any number and anything that is no further digit is read as that number modulo 2^64 |
| HttpDigits.SizeScanned | src/http_context.h:213-257 | on any buffer the framer that begins such a line is behind it with that number |
| HttpSizes.SizesFrom | src/http_context.h:212-271 | from any size line on, a chunk that reaches outside the buffer is recorded exactly if one of the size lines of the original bytes that are reached is oversized |
| HttpSizes.LayoutIff | src/http_context.h:146-306 | on every stream the layout (ranges in the buffer, ordered, disjoint; NULs over line ends only; chunk bytes untouched) holds at the end exactly when no chunk is oversized: no size line behind a header that selects chunked coding spells a number equal to 2^64 - 2 or 2^64 - 1 modulo 2^64 with bytes behind it; any other number, however long, is taken modulo 2^64 |
| HttpWraps.HugeChunkBreaksLayout | src/http_context.h:234-271 | a concrete message of under 60 bytes with chunk size FFFFFFFFFFFFFFFE on which the size plus 2 wraps and a chunk far outside the buffer is recorded |
| HttpFraming.HeaderRun | src/http_context.h:163-200 | any non-empty lines without LF are recovered from their header block, which selects the flags and the next state they say |
| HttpFraming.ScanChunks | src/http_context.h:212-271 | any list of chunks with hex sizes in either letter case and extensions is recorded as exactly those chunks |
| HttpFraming.MessageRoundTrip | src/http_context.h:146-306 | every valid message without a body, with a body of the announced length, or in chunks with trailers parses to done with exactly its lines, flags and pieces of content, and leaves what follows untouched |
| HttpExamples.ExampleDelivered | src/http_context.h:146-306 | one chunked request byte by byte, with mixed letter cases, blanks, an unknown field behind the one that selects the coding and the chunk size 0a, is delivered with its four lines, its flags and its ten bytes, whatever follows |
| HttpGrammars.TrailerVerdict | src/http_context.h:273-296 | from the start of any trailer the parser finishes, goes bad or waits as the reference split of the original bytes into lines says, and finishes right behind the empty line |
| HttpGrammars.ChunksVerdict | src/http_context.h:212-296 | from any size line on the parser finishes, goes bad or waits as a grammar over the original bytes says: sizes modulo 2^64 followed by any text, any two bytes behind a chunk, size 0 and a trailer |
| HttpGrammars.MessageVerdict | src/http_context.h:146-306 | on every stream a call finishes, goes bad or waits exactly as the lenient message grammar says of the original bytes, and finishes right behind the message |
| HttpContents.CopiedBound | src/http_context.h:380-396 | the summed length of the pieces never exceeds the end of the last one, so adding it up as size_t does not wrap |
| HttpContents.ContentReadable | src/http_context.h:380-396 | what getContent copies lies inside the received bytes exactly on the streams without an oversized chunk |
| HttpContents.ContentRoundTrip | src/http_context.h:380-396 | of every valid message the pieces lie inside the received bytes and the content is the body that was encoded, chunk after chunk |
| HttpPipeline.RunTail | src/http_context.h:161-305 | a call of analysis changes no byte behind its final index, so clear moves down what the peer sent |
| HttpPipeline.PendingRunAppend | src/http_server.h:45-76 | whether analysis runs before or after more bytes arrive makes no difference to the messages still to come |
| HttpPipeline.MessagesPrefix | src/http_server.h:45-76 | more bytes never change the messages that a stream already has |
| HttpPipeline.PipelineRoundTrip | src/http_server.h:45-76 | pipelined keep-alive messages are delivered one by one with their own lines, flags and content, whatever follows them |
| HttpWorkers.StepInv | src/http_server.h:45-76 | every action of the network thread and of any worker keeps lock exclusion, the no-stall condition and the balance of handled and pending messages against the stream |
| HttpWorkers.WorkersPreserveStreamOrder | src/http_server.h:45-107 | in every interleaving queued bytes always have a task that will merge them, requests are handled in stream order, and when no task is left all have been handled, for keep-alive streams without overflow |
| HttpWorkers.RequestsArriveIntact | src/http_server.h:45-107 | from peer to handler: any keep-alive requests, cut into any packets, under any workers, are handled each once with their own lines and content |
| HttpWorkers.LastRequestIsHandledAgain | src/http_server.h:63-67 | a task that finds the context finished with a request that does not keep the connection alive handles that request again and leaves the context as it was but for the queued bytes, which are appended |
| HttpOrders.HandledTwice | src/http_server.h:45-76 | on every stream with a message that does not keep the connection alive, a run of one worker with two packets and two tasks handles the last message twice |
| HttpOrders.ClosingStream | src/http_server.h:63-67 | such a stream of under 40 bytes |
| HttpOrders.OrderIffKeepAlive | src/http_server.h:45-107 | requests are handled in stream order and once each in every run on a stream exactly if all its messages keep the connection alive |
| HttpOrders.OverflowIff | src/recv_buffer.h:98-105 | no run on a stream overflows exactly if the whole stream fits into the limit |
| HttpReplies.DoReplies | src/http_server.h:60-75 | every action keeps: each handled request has its response, in order, a framer that has gone bad has its close, and on a keep-alive stream nothing but closes follows a close |
| HttpReplies.ResponsesInOrder | src/http_server.h:60-67 | in every run of a session, its workers and the request queues of the pool, responses reach the write path in stream order, and each that was processed was handed to it if the socket is still running |
| HttpReplies.CloseFollowsResponses | src/http_server.h:63-75 | when the close of a session is processed all its earlier responses have been, each handed over if the socket is still running, and on a keep-alive stream no response is pushed behind a close |
| HttpReplies.ClosesLastIff | src/http_server.h:60-75 | no run on a stream pushes a response behind a close exactly if every message of the stream keeps the connection alive |
| HttpEnds.ClosedIff | src/http_server.h:45-76 | in every run on every stream, once no bytes and no tasks are left and all workers are idle, the session has pushed a close exactly if the receive buffer has overflowed or the bytes behind the keep-alive messages begin with a message that does not keep the connection alive or with what can be no message |
| HttpEnds.ClosedIffMalformed | src/http_server.h:45-76 | on a keep-alive stream it has exactly if the receive buffer has overflowed or the bytes behind the last message fail the message grammar |
| HttpEnds.BehindAll | src/http_context.h:435-449 | on a keep-alive stream the bytes behind the messages are what is left when their lengths are taken off, and no further message begins them |
| HttpEnds.CloseBehindLastResponse | src/http_server.h:60-67 | in every run on every stream each handled request has its response, and one that does not keep the connection alive has a close right behind it |
| HttpContexts.HttpContext.constructor | src/http_context.h:138-139 | a new context is uninitialised over an empty receive buffer |
| HttpContexts.HttpContext.Init | src/http_context.h:65-79 | the context is one that has looked at none of its bytes |
| HttpContexts.SkipSpacesAt | src/http_context.h:105-106 | the leading-space scan over the array stops where the scan of the line text stops |
| HttpContexts.TrimEndAt | src/http_context.h:110-112 | the trailing-space scan over the array stops where the trim of the line text stops |
| HttpContexts.FindColonAt | src/http_context.h:107-109 | strchr on the array finds the colon of the line, or nothing before the NUL behind the line |
| HttpContexts.DecodeFieldAt | src/http_context.h:104-121 | the pointer scans in the mutated buffer yield the name and value of the line text |
| HttpContexts.HttpContext.KvDecoder | src/http_context.h:85-93 | the three recognised fields change the three flags and nothing else does |
| HttpContexts.HttpContext.DecodeHeaderLines | src/http_context.h:97-122 | the loop over the recorded lines selects the flags of the machine, with its early end behind the header |
| HttpContexts.HttpContext.DecoderHeaderAndUpdateState | src/http_context.h:95-135 | decoding the header lines in place gives the flags and the state of the machine |
| HttpContexts.HttpContext.NulPair | src/http_context.h:187 | exactly the two bytes of a line end become NUL |
| HttpContexts.HttpContext.HeaderByte | src/http_context.h:178-199 | one round of the header loop, with its two NUL writes, is one step of the machine |
| HttpContexts.HttpContext.HeaderLineEnd | src/http_context.h:187-197 | at a line end the header is over exactly when the line is empty, and otherwise the next line is opened |
| HttpContexts.HttpContext.SizeByteInPlace | src/http_context.h:213-257 | one round of the chunk-size loop is one step of the machine, with wrapping shifts |
| HttpContexts.HttpContext.FooterByte | src/http_context.h:274-295 | one round of the trailer loop is one step of the machine |
| HttpContexts.HttpContext.ReadHeaderCase | src/http_context.h:177-200 | the header loop stays on the run of the machine and ends behind the header, on a bad byte or out of bytes |
| HttpContexts.HttpContext.ReadSizeCase | src/http_context.h:212-258 | the chunk-size loop stays on the run of the machine and ends behind the size line, on a bad byte or out of bytes |
| HttpContexts.HttpContext.ReadFooterCase | src/http_context.h:273-296 | the trailer loop stays on the run of the machine and ends behind the trailer, on a bad byte or out of bytes |
| HttpContexts.HttpContext.Case | src/http_context.h:161-305 | one pass through the switch stays on the run of the machine, goes again only with progress, and otherwise stops for good |
| HttpContexts.HttpContext.RunCases | src/http_context.h:155-305 | the code behind the goto label ends, and in the final state of the machine |
| HttpContexts.HttpContext.Analysis | src/http_context.h:146-306 | the call in place leaves exactly the state that the machine reaches, byte by byte and field by field, and reports done or bad |
| HttpContexts.HttpContext.GetParameter | src/http_context.h:337-366 | a finished message yields the name and value of each of its lines that has both, in order, and an unfinished one nothing |
| HttpParameters.ParametersAre | src/http_context.h:337-366 | the parameters of any lines are the pairs of name and value of the lines that have the form of a field, in order, and no others |
| HttpParameters.MessageParameters | src/http_context.h:337-366 | of every valid message, whatever follows it, they are the pairs of the lines that the peer sent, trailers included |
| HttpContexts.HttpContext.TotalLength | src/http_context.h:384-386 | the lengths of the pieces add up to the length of the content |
| HttpContexts.HttpContext.CopyPieces | src/http_context.h:388-394 | the copy loop leaves exactly the content in the buffer and nothing changed in the context |
| HttpContexts.HttpContext.GetContent | src/http_context.h:380-396 | a finished message yields the concatenation of its pieces in the caller's buffer and stays as it is |
| HttpContexts.HttpContext.Extract | src/http_context.h:407-433 | the other context becomes the finished message without the bytes behind it, with the settings and the overflow flag of this one, which stays as it is |
| HttpContexts.HttpContext.Clear | src/http_context.h:435-449 | a finished context starts afresh on exactly the unconsumed bytes; any other stays as it is |
| HttpServers.Round | src/http_server.h:50-75 | one round of the loop handles the next message, if one is complete, pushes what answers it, and goes on with exactly the messages behind it |
| HttpServers.RunTask | src/http_server.h:45-76 | a task handles exactly the messages that context and queued bytes hold, in order, ends, pushes one response for each and then a close exactly when the receive buffer overflows, the framer goes bad on what is behind them or the last one does not keep the connection alive |
| HttpServers.SessionMergeIsMerge | src/recv_buffer.h:96-125 | the merge of the HTTP session model is the merge of the receive buffer |
| Buffers.Buffer.Set | src/buffer.h:136-151 | the contents become a copy of the given bytes, in a new block only when the old one is too small |
| Buffers.Buffer.Resize | src/buffer.h:153-176 | the length changes and of a replaced block the valid bytes survive |
| RecvBuffers.MergeIsAppend | src/recv_buffer.h:69-126 | in every interleaving of pushes and merges, content and queue hold the pushed bytes in order until an overflow, every queued block is freed once and in order, and the content never grows over the limit |
| RecvBuffers.RecvBuffer.PushBuffer | src/recv_buffer.h:69-76 | a packet with bytes goes behind the queue, an empty one does not |
| RecvBuffers.RecvBuffer.Merge | src/recv_buffer.h:88-126 | everything queued is appended if it fits and otherwise dropped with the overflow flag; the queue is empty and its blocks are freed either way; called where its doubling loop ends with room |
| RecvBuffers.RecvBuffer.Take | src/recv_buffer.h:96-125 | the part under the lock appends or drops all that is queued |
| RecvBuffers.RecvBuffer.Grow | src/recv_buffer.h:107-112 | the doubling loop, in wrapping arithmetic, stops at the first doubled length with room for all bytes, or at the limit, and keeps the received bytes |
| RecvBuffers.ReadyIf | src/recv_buffer.h:90-111 | with sizes up to 2^63 and bytes to copy, merge comes back exactly if the buffer it starts from is not empty, which an initial size above 0 makes sure of |
| Doublings.ZeroNeverEnds | src/recv_buffer.h:107-109 | with an initial size of 0, which the constructor accepts, the loop runs for ever on the first packet of any size |
| Doublings.EndsIffPositive | src/recv_buffer.h:107-109 | for sizes up to 2^63 the loop ends exactly if the buffer length is above 0, and then the target has room for the received and the queued bytes |
| Doublings.LoopEndsIff | src/recv_buffer.h:107-109 | for all sizes the loop ends exactly if something has been received before or one of the first 64 targets modulo 2^64 holds the queued bytes |
| Doublings.WrapsBelow | src/recv_buffer.h:107-109 | with more than 2^63 bytes received the loop can end with a target of 4 bytes |
| RecvBuffers.RecvBuffer.CopyAll | src/recv_buffer.h:113-119 | the copy loop appends the queued packets in order |
| RecvBuffers.RecvBuffer.CopyFront | src/http_context.h:414-419 | the copy has exactly the first bytes, the settings and the overflow flag |
| RecvBuffers.RecvBuffer.DropFront | src/json_context.h:187-190 | the memmove leaves exactly the bytes from the given position on |
| JsonParser.RunAppend | src/json_context.h:68-151 | analysing what has arrived and then the rest ends in the same state as analysing everything once |
| JsonParser.RunDrop | src/json_context.h:197-207 | dropping bytes in front of the message start commutes with analysis |
| JsonParser.ClearIsTransparent | src/json_context.h:175-208 | clear changes nothing of what is delivered later, whatever arrives: in front of or inside a message it is invisible, behind a message it does what restart does |
| JsonParser.ClearFreesSpace | src/json_context.h:175-208 | clear frees everything in front of the message at hand, or up to the end of a finished one, so that the buffer begins with the first byte still needed, and nothing of a bad framer |
| JsonFraming.RunKnows | src/json_context.h:76-151 | the depth is the bracket balance since the message start and positive throughout it, only white space lies before it, and a finished text is the shortest balanced prefix |
| JsonFraming.DoneIff | src/json_context.h:68-151 | the framer finishes on a stream exactly when it begins with white space and a text balanced in the kind of its first bracket |
| JsonFraming.JsonRoundTrip | src/json_context.h:68-180 | messages joined by any white space come out one by one, exactly, whatever follows |
| JsonFraming.JsonDecomposition | src/json_context.h:68-180 | every stream is its delivered messages with white space before each, and a rest that no message begins |
| JsonReferences.MessageIsText | src/json_context.h:76-151 | a message is, in counted bytes, a text from an opening brace to the first place where as many braces are closed as opened, or the same with square brackets, and it ends with the closing one |
| JsonReferences.JsonVerdict | src/json_context.h:68-151 | on every stream the framer finishes exactly if it begins with white space and such a text, goes bad exactly if the first other byte is neither { nor [, and waits otherwise |
| JsonReferences.EmptyTexts | src/json_context.h:108-145 | {} and [] are finished after two bytes |
| JsonEnds.ClosedIff | src/json_server.h:50-80 | in every run without overflow, once everything has been merged and read, the session has closed its connection exactly if the first byte behind the last message and white space is neither { nor [ |
| JsonEnds.ClosedByRest | src/json_server.h:50-80 | messages joined by white space and a rest without a message: the connection is closed exactly if the rest begins with a wrong byte |
| JsonSessions.SessionDeliversStream | src/json_server.h:50-80 | in every run of pushes, merges, analyses and compactions without overflow the handled texts are the first messages of the stream, and all of them once everything is read |
| JsonSessions.MessagesArriveIntact | src/json_server.h:50-80 | messages joined by white space are handled exactly as sent, wherever packets are cut and the buffer is compacted |
| JsonSessions.LostIff | src/recv_buffer.h:98-105 | no run on a stream loses bytes by an overflow exactly if the whole stream fits into the limit |
| JsonContexts.JsonContext.StartCase | src/json_context.h:78-107 | the white-space loop stays on the run of the machine up to an opening bracket, a bad byte or the end of the bytes |
| JsonContexts.JsonContext.MessageCase | src/json_context.h:109-146 | the counting loop for either bracket kind stays on the run of the machine up to the end of the message or of the bytes |
| JsonContexts.JsonContext.Analysis | src/json_context.h:68-151 | the call leaves exactly the state that the machine reaches and reports done or bad |
| JsonContexts.JsonContext.ReferenceContent | src/json_context.h:166-173 | the bounds handed out delimit exactly the finished text inside the buffer |
| JsonContexts.JsonContext.Extract | src/json_context.h:158-164 | the caller's buffer holds exactly the finished text |
| JsonContexts.JsonContext.Restart | src/json_context.h:175-180 | framing goes on at the current index with depth 0 |
| JsonContexts.JsonContext.Clear | src/json_context.h:182-208 | a finished message is dropped, or else the bytes in front of the current one are, and positions follow |
| JsonServers.Round | src/json_server.h:57-77 | one round of the loop handles the next message, if one is complete, and restarts behind it |
| JsonServers.RunTask | src/json_server.h:50-80 | a task handles exactly the messages of its merged bytes in order, closes the connection exactly if the framer goes bad behind them, compacts the buffer if it handled any, and what is framed later is what would have been framed without its restarts and its compaction |
| JsonServers.SessionMergeIsMerge | src/recv_buffer.h:96-125 | the merge of the JSON session model is the merge of the receive buffer |
| CachedAllocators.ChainAcyclic | src/cached_allocator.cpp:107-112 | a list of header-word links that ends in null holds no block twice |
| CachedAllocators.PoppedOk | src/cached_allocator.cpp:106-113 | taking a block off its list keeps every list intact, and the block has the size of the class and is not live |
| CachedAllocators.PushedOk | src/cached_allocator.cpp:152-160 | putting a block on its list, which overwrites the size in its header word by a link, keeps every list and every live header intact |
| CachedAllocators.CommittedOk | src/cached_allocator.cpp:119-121 | writing the size over the link of a block that was handed out damages no list, and the used bytes grow by the block |
| CachedAllocators.ReturnedOk | src/cached_allocator.cpp:141-145 | the header word of a live block holds its size when it comes back, and the used bytes shrink by the block |
| CachedAllocators.CacheRefinesMalloc | src/cached_allocator.cpp:90-173 | in every interleaving of the steps of concurrent calls the lists are acyclic, as long as their counts, within their maxima, of their own size, and disjoint from the live blocks, and a block handed out was not live |
| CachedAllocators.UsageIsLive | src/cached_allocator.cpp:175-179 | in every interleaving of calls the usage data are the number of live blocks and the bytes they take, modulo 2^64 |
| CachedAllocators.RaisedIsLargest | src/cached_allocator.cpp:64-88 | after any wishes the number of blocks to keep of a class is not lowered, meets each wish for it, and is one of the wishes if it changed |
| CachedAllocators.AllocIsMalloc | src/cached_allocator.cpp:90-126 | a block that was not live becomes live with the size asked for, no other live block changes, and the call fails only when malloc was asked and failed |
| CachedAllocators.FreeIsFree | src/cached_allocator.cpp:136-162 | the block is no longer live, no other live block changes, and the block is first on its list or back with the system |
| CachedAllocators.FreeThenAlloc | src/cached_allocator.cpp:90-162 | a kept block is the next one handed out for its size, and the heap is then as before the free |
| CachedAllocators.CachedAllocator.TakeCached | src/cached_allocator.cpp:106-113 | the critical section takes the head of a list that is not empty, and nothing otherwise |
| CachedAllocators.CachedAllocator.TryKeep | src/cached_allocator.cpp:152-160 | the critical section keeps the block exactly while the list is shorter than its maximum |
| CachedAllocators.CachedAllocator.Alloc | src/cached_allocator.cpp:90-126 | the call does to the arrays, counters and header words what the specification says, and terminates the program exactly on a size that overflows |
| CachedAllocators.CachedAllocator.Free | src/cached_allocator.cpp:136-162 | the call does what the specification says, and nothing on null |
| CachedAllocators.CachedAllocator.InitStoreNumber | src/cached_allocator.cpp:64-88 | the built-in maxima are wished for once, all of them, and later calls change nothing |
| CachedAllocators.CachedAllocator.DynamicSetCache | src/cached_allocator.cpp:164-173 | the maximum of a class only grows, and sizes that are never cached are refused |
| CachedAllocators.CachedAllocator.TakeBack | src/cached_allocator.cpp:141-145 | the size is read off the header word, and the usage counters follow |
| CachedAllocators.CachedAllocator.HandOut | src/cached_allocator.cpp:119-125 | header, usage counters and ownership of a block that is handed out are those of the committed block |
| WorkQueues.NoLostWakeup | src/work_queue.h:54-124 | in every interleaving tasks start in push order and at most once, started tasks are running or finished, and a task waits in the queue only while a worker is about to take it or every worker is busy |
| WorkQueues.DoAwake | src/work_queue.h:54-124 | every event keeps: no worker is in the wait, or exit is not requested and the queued tasks are at most the ready workers |
| WorkQueues.WorkersLeave | src/work_queue.h:71-87 | once exit is requested no task is started, and every worker that is not gone can act and comes closer to its end |
| WorkQueues.NothingStartsAfterExit | src/work_queue.h:54-87 | in every run after exit no queued task is taken |
| WorkQueues.WorkersStay | src/work_queue.h:54-69 | in every run no worker leaves before exit is requested |
| WorkQueues.WorkQueue.GetNext | src/work_queue.h:54-69 | a worker with the lock leaves on exit, waits on an empty queue and otherwise takes the oldest task |
| WorkQueues.WorkQueue.PushTask | src/work_queue.h:119-124 | the task goes behind the queue and one waiting worker, if any, is woken |
| WorkQueues.WorkQueue.SetExit | src/work_queue.h:82-87 | exit is set and every waiting worker is woken |
| TcpLifecycles.UniqueOwner | src/network_pool.cpp:232-286 | in every reachable state each Ctcp is in exactly one of local ownership, the connecting map, the stream map, a shutdown in flight, closing or deleted; what is in a map is open and found under its own id, which no other object has |
| TcpLifecycles.DeletedByLastCallback | src/uv_wrapper.h:228-260 | an object is deleted at most once, at the close callback of the last of its initialised handles in either order, and while it is closing such a callback is still to come |
| TcpLifecycles.NoCallbackAfterDelete | src/uv_wrapper.h:228-260 | no callback ever runs on a deleted object, although libuv only promises none on a stream that is not open |
| TcpPlaces.PlacesFollowTable | src/network_pool.cpp:36-581 | in every reachable state every event takes every object exactly where a table of places says (held, connecting, running, shutting down, closing, gone), and the user is told of a startup and of a shutdown exactly at the transitions that the table makes so |
| TcpPlaces.NewPlace | src/uv_wrapper.h:340-364 | a new object is held if both handles could be initialised, closing if only the stream could, and deleted otherwise, under an id above all others |
| TcpPlaces.ConnectOutcome | src/network_pool.cpp:247-278 | in every reachable state a connect that succeeds puts its connection into the stream map and tells the user once, and one that fails closes it and tells nobody |
| TcpLifecycles.TimeoutOnlyClosesMapped | src/network_pool.cpp:36-50 | a timeout that the user answers with a kill closes a running connection; one that is connecting or whose graceful shutdown is under way stays exactly as it is, and so does every one if the user answers otherwise |
| TcpRuns.TimeoutLeavesShutdown | src/network_pool.cpp:36-50 | a run after which a timer fires in the middle of a graceful shutdown and nothing happens |
| TcpRuns.TimeoutEndsIffMapped | src/network_pool.cpp:36-50 | in every reachable state a timeout starts the end of a connection exactly if the timeout callback of the user says so and the connection is in the stream map |
| TcpRuns.SurvivesTimeout | src/network_pool.cpp:43-47 | a run after which a running connection has its timeout, the user answers with no kill and nothing changes |
| TcpRuns.DropBehindExit | src/network_pool.cpp:130-134 | a run on which a write that was pending at pool exit is cancelled behind it and the user is called for its drop |
| TcpRuns.TimeoutBehindExit | src/network_pool.cpp:36-50 | a run on which the timeout callback of a connection in its graceful shutdown comes behind pool exit |
| TcpRuns.StartedNeverStopped | src/network_pool.cpp:569-581 | a run on which a connection is started, closed by force and deleted, and the user is never told of its shutdown |
| TcpRuns.StoppedIffRunningAtExit | src/network_pool.cpp:439-446 | the user is told of the shutdown of a connection once exactly if it is in the stream map when the pool exits, and otherwise never |
| TcpRuns.NoStopBeforeExit | src/network_pool.cpp:439-446 | before exit nobody is told of a shutdown, and of a startup at most once |
| TcpRuns.ConnectRequestLeaks | src/network_pool.cpp:252-258 | a run on which a connect completes behind pool exit and its request is never freed |
| TcpRuns.ConnectRequestFreedIff | src/network_pool.cpp:252-258 | the connect callback frees its request exactly if exit has not emptied the connecting map before |
| TcpLifecycles.ConnectFinds | src/network_pool.cpp:247-261 | the connect callback finds its own object open under its own id, or nothing |
| TcpLifecycles.InsertMapped | src/network_pool.cpp:560-566 | an insertion into the stream map never meets its key, because ids are unique |
| TcpLifecycles.DoInv | src/network_pool.cpp:560-581 | every callback keeps all of the above, object by object |
| TcpLifecycles.ExitedStaysEmpty | src/network_pool.cpp:439-446 | after pool exit both maps are empty and stay so |
| TcpLifecycles.Connections.Close | src/uv_wrapper.h:228-260 | closing asks for the close callback of each initialised handle once, or deletes an object that has none |
| TcpLifecycles.Connections.OnTcpClosed | src/uv_wrapper.h:238-245 | the stream is gone, and the object too if its timer is |
| TcpLifecycles.Connections.OnTimerClosed | src/uv_wrapper.h:246-254 | the timer is gone, and the object too if its stream is |
| TcpLifecycles.Connections.ShutdownAndClose | src/uv_wrapper.h:368-393 | a shutdown request is in flight, or on any failure the object is closed at once |
| TcpLifecycles.Connections.ShutdownTcpConnection | src/network_pool.cpp:569-581 | only an object in the stream map is given up, at once or after a shutdown, and the call keeps the invariant at any time |
| TcpLifecycles.Connections.StartupTcpConnection | src/network_pool.cpp:560-566 | the object is in the stream map under its id and the user was told of its startup |
| TcpLifecycles.Connections.OnConnected | src/network_pool.cpp:247-278 | a connecting object ends up in the stream map, started up once, on success, and closing, never started up, on any error; the request is freed then, and is leaked with nothing else done when the map no longer has the id |
| TcpLifecycles.Connections.OnExit | src/network_pool.cpp:439-446 | both maps are emptied, the user is told of the shutdown of each connection in the stream map, and each object that was in one of the maps is closed once and no other |
| PoolQueues.EarlierIsDone | src/network_pool.cpp:403-546 | before a request of a batch is processed, everything pushed before it to a queue that is drained earlier has been processed, although the queues are separate |
| PoolQueues.CloseNeverOvertakesSend | src/network_pool.cpp:511-546 | when a close is processed, each TCP send pushed before it has been processed, and each to the same socket was handed to the write path if the socket is still running and had started when the send was pushed |
| PoolQueues.SendsInOrder | src/network_pool.cpp:403-519 | sends are processed in push order across all batches and each at most once; before exit none is lost, and those that exit destroyed come behind all that were processed |
| PoolQueues.ExitDropsThePending | src/network_pool.cpp:403-448 | pool exit destroys exactly the requests of every kind that were pushed and not processed, and from then on none is processed |
| PoolQueues.LostForGood | src/network_pool.cpp:511-546 | a running connection is lost by its own end, pool exit, its close or a send to it that the write path refuses, by no other event, and never comes back |
| PoolQueues.RequestQueues.PushRequest | src/network_pool.h:264-270 | the request goes behind its queue |
| PoolQueues.RequestQueues.ProcessQueue | src/network_pool.cpp:511-546 | the loop over one queue of the batch processes all of it in order and leaves the other queues; of the sends exactly those reach the write path whose connection runs and was not lost by an earlier refused one, and exactly the connections of refused sends or of closes are lost |
| PoolQueues.RequestQueues.Drain | src/network_pool.cpp:395-546 | one callback processes everything pending, queue by queue and in order, leaves nothing of it, and hands over and loses exactly what its sends and then its closes say |
| PoolQueues.RequestQueues.ExitDrain | src/network_pool.cpp:403-448 | the exit callback moves all queues out and destroys them unprocessed |
| PoolDirects.DirectOrder | src/network_pool.h:252-261 | in every run a queued send is handed over before a direct send of the loop thread exactly if it had been by then, and behind it exactly if it was not yet processed by then and is handed over later |
| PoolDirects.OvertakesIffWaiting | src/network_pool.h:252-261 | from a direct send to a running connection on, some run puts an earlier queued send to the same connection behind it exactly if the write path keeps the connection and such a send waits in the batch, or is pending while the batch has no close of that connection |
| PoolDirects.DirectSendOvertakes | src/network_pool.h:248-271 | a run on which a direct send overtakes a send that was queued before it |
| PoolWakeups.NoLostWakeup | src/network_pool.cpp:393-423 | in every interleaving, pending requests and a requested exit have a signal set or about to be set or a callback that has yet to look, also after a failed try_lock, so until the release some thread can go on with what is under way, without a new push |
| PoolWakeups.SignalsOnlyLiveHandle | src/network_pool.h:192-220 | in every reachable state neither a pushing thread nor the async callback nor the destructor signals a released handle, and a user callback on the loop thread does exactly if it runs behind the release, in the exit callback or after it |
| PoolWakeups.CallbackPushIsSafeIff | src/network_pool.h:192-199 | a push from a user callback, whatever other threads do in the middle of it, meets a live handle exactly if it did not begin behind the release: neither in a shutdown callback of pool exit nor in a later callback of the loop |
| PoolWakeups.ShutdownCallbackSignalsReleasedHandle | src/network_pool.cpp:415-448 | a run on which a shutdown callback that pushes a request is about to signal the handle that exit has released |
| PoolWakeups.LateCallbackSignalsReleasedHandle | src/network_pool.cpp:415-448 | a run on which a callback that the loop runs after the exit callback has returned is about to signal the released handle |
| PoolWakeups.DoInv | src/network_pool.cpp:393-423 | every step of pushers, loop and destructor keeps lock exclusion, the exit handshake and both signal conditions |
| SendBuffers.Connection.TcpWrite | src/network_pool.cpp:101-157 | on every failing path all buffers are reported as dropped once, blocks are freed exactly when they had been transferred, and the request is freed if there was one; on success the request owns them and nothing is reported |
| SendBuffers.Connection.DropAll | src/network_pool.cpp:107-108 | every buffer is reported as dropped once, in order, and stays with the caller |
| SendBuffers.Connection.TransferAll | src/network_pool.cpp:119-121 | all blocks move to the request in order and the caller's buffers are empty |
| SendBuffers.Connection.Release | src/network_pool.cpp:123-154 | completion reports the buffers as dropped exactly if they were not written, and frees each block and the request once |
| SendBuffers.Connection.SendLife | src/network_pool.cpp:101-157 | from the call over the completion to the end of the caller's buffers every block is freed exactly once, and reported as dropped exactly once if it was not written and never if it was; and the request is freed exactly once |
| SendBuffers.Cbuffer.Transfer | src/buffer.h:39-49 | block and length change hands and the buffer is empty, with length and capacity 0 |
| NetworkNodes.V6Less | src/network_node.h:203-217 | the comparison of two IPv6 addresses with its loop over the words is the lexicographic order of port, words, flow and scope |
| NetworkNodes.AddrLess | src/network_node.h:187-223 | the comparison of any two addresses is the lexicographic order of family and fields |
| NetworkNodes.AddrEqual | src/network_node.h:225-261 | two addresses compare equal exactly when they are the same |
| NetworkNodes.OrIsPlus | src/network_node.h:279 | the bitwise or with a number that fits into the low bits that a shift has cleared is an addition |
| NetworkNodes.ShiftInIsPlus | src/network_node.h:279 | shifting a 64-bit hash left by 16 and or-ing a port into it is a multiplication modulo 2^64 and an addition |
| NetworkNodes.HashDistance | src/network_node.h:273-298 | hashing an address multiplies the distance of two seeds, modulo 2^64, by a number that depends on the family only |
| NetworkNodes.ProtocolsHashApart | src/network_node.h:451-454 | equal addresses under different protocols never have the same hash, for every mix of IPv4, IPv6 and unset |
| NetworkNodes.EqualWithoutProtocol | src/network_node.h:494-497 | comparing hashes and addresses without the protocol is comparing everything |
| NetworkNodes.PairEqual | src/network_node.h:494-497 | two pairs compare equal exactly when they are the same, protocol included |
| NetworkNodes.PairLess | src/network_node.h:486-493 | the comparison of two pairs is the lexicographic order of hash, remote and local address |
| NetworkNodes.PairsAreOrdered | src/network_node.h:486-497 | the comparison is a strict total order, and it orders exactly the pairs that are not equal |
| NetworkOrders.AddressOrder | src/network_node.h:187-223 | field by field: unset before IPv4 before IPv6, and within a family by port, then the address words from the first on, then flow and scope |
| NetworkOrders.PairOrder | src/network_node.h:486-493 | pairs are ordered by hash, then remote, then local address |
| NetworkOrders.HashValue | src/network_node.h:273-298 | the hash of an address is one polynomial in seed, words and port modulo 2^64, without the shifts and intermediate reductions; flow and scope do not count |
| NetworkOrders.PairHashValue | src/network_node.h:451-454 | the hash of a pair takes the local address first and the remote one on top of it, from 0 for TCP and 31 for UDP |
| NetworkOrders.V4HashInjective | src/network_node.h:277-280 | on one seed two IPv4 addresses have the same hash exactly if they are the same |
| NetworkOrders.V6PortCounts | src/network_node.h:282-291 | on one seed two IPv6 addresses with different ports never have the same hash |
| NetworkOrders.V6WordCounts | src/network_node.h:282-291 | nor have two that differ in one address word |
| NetworkNodes.NetworkPair.constructor | src/network_node.h:457-458 | the hash 0 of the default pair is the one that would be computed |
| NetworkNodes.NetworkPair.SetProtocol | src/network_node.h:503-507 | the setter keeps the hash right |
| NetworkNodes.NetworkPair.SetLocal | src/network_node.h:508-517 | the setter keeps the hash right |
| NetworkNodes.NetworkPair.SetRemote | src/network_node.h:518-527 | the setter keeps the hash right |
| NetworkNodes.NetworkPair.Assign | src/network_node.h:472-485 | the assignment copies everything but the protocol, so the hash is right afterwards exactly when the protocols were equal |

## Left out

- libuv: accept, connect, write, shutdown, timers and close are choices of the event sequence under its contract (one
  completion per request, before the close callback of its handle; no timer callback once the timer is closing).
- UDP sockets: their ownership is the TCP argument with one handle; only the ids they take are kept.
- Socket options, settings, `customize`, debug output, parsing and printing of IP texts: no property of their own.
- `CmtSharedPtr`: a session holds its context throughout, so the `unique()` exits of the task loops are not modelled.
- `getInfo`: splitting the first line is undefined when a separator is missing, or when a message begins with CRLF and
  has no line at all.
- `reinitForNext`: it is `extract` followed by `clear`, which are both modelled.
- `atoi` outside the range of `int` is undefined in C; the model computes the number and takes it modulo 2^64.
- `isspace` and `strncasecmp` are those of the "C" locale, on bytes taken as unsigned.
- JSON strings: the framer counts brackets inside strings too, so nothing is claimed about section 7 of RFC 8259.
- Failing allocations of buffers, which throw; a failing malloc is modelled where the code looks at it.
- HttpContexts.HttpContext.GetContent: is stated for chunk ranges inside the received bytes, because the code reads out
  of bounds otherwise; `HttpContents.ContentReadable` says on exactly which streams they are.
- RecvBuffers.RecvBuffer.Merge: is called where its doubling loop ends with room, because the code hangs or writes out of
  bounds otherwise; `Doublings.LoopEndsIff` says where it ends and `RecvBuffers.ReadyIf` what a caller can check. The
  sum of the queued bytes is taken without a bound.
- HttpWorkers.WorkersPreserveStreamOrder: is about keep-alive streams; `HttpOrders.OrderIffKeepAlive` shows that the
  claim fails for every other.
- HttpLayout.StepLayout: is about chunk sizes that do not wrap; `HttpSizes.LayoutIff` says on which streams they do.
- JsonSessions.SessionDeliversStream: is about runs without a receive overflow, which drops bytes and which the JSON
  framer never looks at; `JsonSessions.LostIff` says for which streams no run has one.
- HttpServers.RunTask: no packet arrives during the loop; `HttpWorkers` has the arrivals at any point of it.
- HttpReplies.ResponsesInOrder: nobody but the session sends to its socket or closes it, and the text of a response is
  its number.
- CachedAllocators.CachedAllocator.Alloc: a call is one step for its caller; the interleaving of the critical sections
  of several calls is `CachedAllocators.CacheRefinesMalloc`, in which the header write of a call and its counter updates
  are one step. The unlocked look at the counts only decides whether the lock is taken.
- TcpLifecycles.UniqueOwner: socket ids are counted without a bound; the counter of the code would wrap after 2^64
  sockets. An object whose stream could not be initialised is deleted at once.
- The comment that a timeout during a graceful shutdown forces the close (src/network_pool.cpp:543) is not what the
  code does; `TcpRuns.TimeoutLeavesShutdown` shows it and `TcpRuns.TimeoutEndsIffMapped` says when a timeout does.
- PoolWakeups.SignalsOnlyLiveHandle: no other thread pushes once the destructor has started, which the lifetime of the
  pool object demands; data races on the plain exit flag are not modelled, and nothing is said about a run behind a
  signal to a released handle.
- PoolQueues.SendsInOrder: is about queued sends; `PoolDirects.OvertakesIffWaiting` says when a direct send of the loop
  thread overtakes one. Direct sends from within the failing write of the same connection are not part of this model.
- WorkQueues.NoLostWakeup: liveness under a fair scheduler is not stated; the invariants say that some thread can go on.
