# hin9: verification of the event-driven core

hin9 is an event-driven web server. Everything it does is a reaction to a completion: a read that
brought some bytes, a write that took some, a timer that is due, a connection that stands. This
project models the parts whose logic is spread over such reactions and proves what every order of
completions keeps. A read brings between none and as many bytes as were asked for, a write of
something takes at least one byte, and which comes next is open; the statements hold for all runs.

Each component that the source writes as code changing state is modelled twice: as a class whose
methods follow the source statement by statement, and as a state machine of pure functions. The
methods are proved to do what the functions say, and the theorems are about the functions.

| component | specification | imperative form | theorems |
|---|---|---|---|
| the pipe engine | `PipeSpec`, `Encoders` | `Pipe` (buffers as values), `WriteQueue` (condensing on arrays) | `PipeFlow`, `PipeBudget`, `PipeLive`, `PipeLedger`, `PipeTheorems`, `PipeRuns`, `PipeEager` |
| chunked transfer coding | `Chunked` (and a byte-at-a-time reference) | `ChunkDecoder` | `ChunkedTrip`, `ChunkedCuts`, `ChunkedExact` |
| FastCGI records | `FcgiRecords`, `NameValue` | `FcgiSocket` (line buffer), `FcgiRequest`, `HeaderChain`, `ChainSend` | in the same modules, and `OneSocket`, `PostDelivery`, `Overtaking`, `Responses` |
| FastCGI scheduling | `SchedulerSpec` | `Scheduler` | `SchedulerTheorems`, `SchedulerPlaces` |
| the pattern matcher | `Pattern` | `Matcher` | in `Pattern`, and `Formats` |
| index structures | sequences and maps | `DList`, `Timers`, `HashTable` (heap nodes) | in the same modules |
| the response cache | `CacheSpec` | `Cache` | `CacheTheorems`, `CacheAnswers` |

`Delivery` and `PostDelivery` compose: what a pipe encodes, over every schedule, is what the receiver
decodes. `OneSocket` and `Overtaking` put a chain of buffers and a pipe on one socket, as a POST request
does, and `Responses` hands the records of many requests on one socket to their pipes.

## Where the code does less than it seems to

Each of these is a proved statement with an exact condition or a concrete input.

- A pipe that condenses can stall for good: a lone buffer that is not full but already holds two
  blocks is held back for input that is not asked for (`PipeLive.ProgressStep`, `PipeLive.CanStall`).
  No pipe of hin9 that condenses queues buffers larger than two blocks, so it does not happen there.
- A POST request starts the pipe that streams its body before it submits the chain with its records,
  one buffer of which is submitted at a time, and nothing makes the pipe wait. If the headers brought
  all of the body, chain and pipe are on the wire in order in every schedule; if not, there is a
  schedule, for every chain and whatever the client sends, in which they are not
  (`Overtaking.EveryScheduleInOrder`). So every schedule delivers the request if and only if the
  headers brought all of the body and the parameters are shorter than 65536 bytes
  (`Overtaking.PostRequestExactly`). The body can come in at any point of the chain
  (`Overtaking.OvertakenAt`, `Overtaking.OvertakenRequest`), and which schedules are in order is
  `OneSocket.InOrderExactly`. The order in which bytes are accepted is taken to be that of the completions.
- A POST request whose body came completely with its headers never sends the empty STDIN record
  that ends standard input (`PostDelivery.PostRequestDelivered`).
- A chunking pipe sends nothing behind its headers, not even the last chunk, exactly if its input is
  counted, the count is not positive, and its owner hands in nothing and does not finish it
  (`Delivery.ChunkedPipeDelivers`).
- The owner of a pipe may hand in more than the byte budget, as `src/http/server/httpd_read.c:50-82`
  does when the first read brings more than the body; then all of it goes to the output, which is the
  counted part of the input if and only if no more than that was handed in
  (`PipeTheorems.RawPipeCopies`, `PipeTheorems.OvershootIsCopied`).
- The chunk decoder keeps a stream intact exactly for some cuts into buffers. A cut inside a size
  line loses the part before it; a cut next to the CR LF of a chunk is corrected at the start of
  the next buffer, but the correction is never taken back (`Chunked.GoodCutsDecode`,
  `ChunkedExact.ExactlyGoodCuts`).
- A PARAMS record is read back exactly if its content is shorter than 65536 bytes; the length is
  not checked, and of a longer one the application reads the first bytes, as many as the remainder
  by 65536 (`FcgiRequest.RequestReadsBack`, `FcgiRequest.ParamsCutOff`, `FcgiRequest.ParamsCanBeLong`).
- Expiry of a cached item that is not complete, or that somebody but the table still holds, breaks the
  account of references at once or leaves an event of the item possible that does: its timer stays
  linked and fires again, or its pipe finishes after the item is gone. Expiry of any other item is
  harmless (`CacheTheorems.ExpiryMustBeTimely`, `CacheTheorems.UntimelyExpiry`).
- The pipe that fills a cache item can fail twice, first to read and then to write, and each time the
  table entry of its key is deleted. If another item has got the key in between, that one leaves the
  table with a reference too many; any other failure is harmless (`CacheTheorems.FailKeeps`,
  `CacheTheorems.SecondFailure`).
- A new timer is put at the end of the list, so the list stays sorted exactly if no timer in it is
  due later (`Timers.NewTimer`).
- The complement classes of the matcher (`%A`, `%S`, ...) accept every character, and no other class
  does (`Matcher.ComplementsAcceptAll`); and a class without a specifier takes the longest run, as
  with `+` (`Matcher.MatchPattern`, `Pattern.PlusIsDefault`).
- Request ids on a FastCGI socket start at 0 (`SchedulerTheorems.FirstIdIsZero`), which section 3.3 of
  the FastCGI Specification 1.0 keeps for management records; the model follows the code.

## Model

| member | source | states |
|---|---|---|
| Pipe.Pipe.constructor | src/netcode/pipe.c:51-57 | A new pipe is in the initial state of the machine. |
| Pipe.Pipe.Start | src/netcode/pipe.c:59-66 | Starting sets the hash seed 6883 and marks the output done before the first advance. |
| Pipe.Pipe.AppendRaw | src/netcode/pipe.c:83-86 | A raw buffer goes to the end of the write queue and nothing else changes. |
| Pipe.Pipe.WriteProcess | src/netcode/pipe.c:93-102 | A single buffer handed in by an owner is processed like input. |
| Pipe.Pipe.ProcessBuffer | src/netcode/pipe.c:104-133 | Input offset, budget and end of input are accounted for, the encoder queues its buffer, and a buffer not kept is freed. |
| Pipe.Pipe.Build | src/http/utils/filters.c:152-185 | The buffer an encoding callback allocates holds exactly the encoding of the block. |
| Pipe.Pipe.Finish | src/netcode/pipe.c:135-147 | The end of an externally fed input: an empty flushed block, then an advance. |
| Pipe.Pipe.ReadNext | src/netcode/pipe.c:157-202 | The size asked for, by block size, condensing and budget. |
| Pipe.Pipe.CondenseHead | src/netcode/pipe.c:205-237 | The loop over the queue computes what Condense says, on values. |
| Pipe.Pipe.WriteNext | src/netcode/pipe.c:204-265 | The head of the queue is held back or becomes the write in flight, at the next output offset. |
| Pipe.Pipe.Advance | src/netcode/pipe.c:267-301 | Close, read and write decisions in the order of the source. |
| Pipe.Pipe.Close | src/netcode/pipe.c:18-49 | Closing frees the queue, and the finish callback runs if it has not run. |
| Pipe.Pipe.WriteCompleted | src/netcode/pipe.c:303-349 | A completed write: count, hash, resubmission of the rest, or the next buffer. |
| Pipe.Pipe.HashBytes | src/netcode/pipe.c:316-323 | The loop computes the fold h*9+c modulo 2^64 over the accepted bytes. |
| Pipe.Pipe.WriteFailed | src/netcode/pipe.c:306-313 | A failed write closes the pipe and frees what is queued. |
| Pipe.Pipe.ReadCompleted | src/netcode/pipe.c:351-384 | A completed read: end of input, processing, and an advance. |
| WriteQueue.Buffer.Compact | src/netcode/pipe.c:223-226 | Moving the bytes of a buffer to the start of its memory keeps them. |
| WriteQueue.Buffer.Absorb | src/netcode/pipe.c:221-231 | Bytes move from the front of one buffer to the end of another, none lost. |
| WriteQueue.Queue.CondenseRound | src/netcode/pipe.c:217-235 | One round on real memory is one round on values. |
| WriteQueue.Queue.CondenseHead | src/netcode/pipe.c:213-237 | The loop on real memory computes what Condense says, frees the emptied buffers in order, and keeps the others in place. |
| Condensing.RoundCondenses | src/netcode/pipe.c:217-235 | A round does not change what condensing the queue results in. |
| PipeFlow.CondenseData | src/netcode/pipe.c:213-237 | Condensing keeps the bytes of the queue and their order. |
| PipeFlow.OrderlyStep | src/netcode/pipe.c:267-301 | Every step keeps: at most one read and one write in flight, what a closed pipe is, and how the done flags relate. |
| PipeFlow.FlowStep | src/netcode/pipe.c:104-133 | Conservation: accepted bytes, then the unsent part of the write, then the queue, are the headers and the encoded input, after every step. |
| PipeBudget.SourcedStep | src/netcode/pipe.c:110-120 | Every step keeps: the blocks processed are a prefix of the input, budget and input offset account for exactly them, even where an owner hands in more than the budget, and only the last block is flushed. |
| PipeBudget.InBoundsStep | src/netcode/pipe.c:170-189 | Every read asks for between one byte and the block size, never more than the budget, at the right offset. |
| PipeBudget.BackpressureStep | src/netcode/pipe.c:278-294 | A raw pipe's queue stays below three blocks or what it held before. |
| PipeBudget.WriteNextShrinks | src/netcode/pipe.c:204-265 | Handing a buffer to the output never adds to the queue. |
| PipeLive.ProgressStep | src/netcode/pipe.c:204-210 | After every step a running pipe has nothing in flight if and only if condensing has stalled it, a condition on the queue alone. |
| PipeLive.CanStall | src/netcode/pipe.c:204-210 | A concrete run that stalls. |
| PipeLive.SmallStep | src/netcode/pipe.c:287 | Queues of such buffers stay so. |
| PipeLive.EnergyStep | src/netcode/pipe.c:303-384 | A measure goes down with every completion. |
| PipeLive.SoundRun | src/netcode/pipe.c:104-384 | All invariants hold in every state of every run. |
| PipeLive.RunsEnd | src/netcode/pipe.c:267-384 | With a finite input a run has a bounded number of completions. |
| PipeTheorems.CleanClose | src/netcode/pipe.c:270-276 | A close without a failed write: everything wanted, or what owners handed in if that is more, was encoded and sent, nothing is left queued or in flight, and the finish callback ran once. |
| PipeTheorems.RawPipeCopies | src/netcode/pipe.c:157-384 | From creation to a clean close, for every schedule, the output is the headers and then the counted part of the input or, if that is more, what owners handed in; so it is the counted part if and only if owners did not overshoot it. |
| PipeTheorems.OvershootIsCopied | src/http/server/httpd_read.c:50-82 | For every budget and every longer first read, a run from creation that copies all of what was read. |
| PipeTheorems.RawPipeNeverInvents | src/netcode/pipe.c:157-384 | At any moment, even after a failed write, the output is a prefix of headers and input. |
| PipeTheorems.CanComplete | src/netcode/pipe.c:303-384 | Whatever is in flight can be completed without an error. |
| PipeTheorems.MaximalRunCloses | src/netcode/pipe.c:267-301 | A run that cannot go on has closed the pipe or is stalled by condensing. |
| PipeTheorems.SmallRunNeverStuck | src/netcode/pipe.c:204-210 | No run with buffers of at most two blocks stalls. |
| PipeTheorems.QueueStaysShort | src/netcode/pipe.c:278-294 | Backpressure over whole runs of a started pipe. |
| PipeRuns.QueueIsBounded | src/netcode/pipe.c:278-294 | From creation: the queue of a plain copy stays below three blocks, or what it held when it was started. |
| PipeRuns.EveryRunCompletes | src/netcode/pipe.c:267-384 | From creation, for a pipe that reads for itself, with buffers of at most two blocks if it condenses: after a bounded number of completions the kernel has nothing more to complete, and then the pipe is closed and released, has called back once, and, if no write failed, has sent the headers and all of the input it was to send, encoded. |
| PipeRuns.DoneMeansCloses | src/netcode/pipe.c:135-147 | The same for every pipe, fed or not, from the moment its input is done. |
| PipeRuns.ClosingRun | src/netcode/pipe.c:267-384 | Every pipe that reads for itself can be brought to a clean close by the kernel, whatever it is to move. |
| PipeEager.OutputIsKeptBusy | src/netcode/pipe.c:204-301 | From creation, for every pipe, fed or not, and every schedule: while it runs, it has a write in flight whenever something is queued, but for a lone buffer that is not full and that a condensing pipe holds back while its input goes on. |
| PipeEager.BuffersAreFull | src/netcode/pipe.c:205-237 | Whenever a condensing pipe begins to write a buffer, the buffer is full or has taken everything that was queued. |
| PipeEager.InputIsKeptBusy | src/netcode/pipe.c:278-294 | A pipe that reads for itself has a read in flight after every event but a partial or failed write, if less than two blocks are queued or being written. |
| PipeEager.AsksForAll | src/netcode/pipe.c:170-189 | A new read asks for 4096 bytes or what is left of the budget; and for what a block lacks if less than that is held back. |
| PipeEager.EncodingFits | src/http/utils/filters.c:152-185 | The capacity an encoding callback allocates holds its encoding, for blocks below 2^31 bytes. |
| PipeEager.NothingOverflows | src/netcode/pipe.c:213-237 | On every run no buffer holds more than its capacity. |
| PipeLedger.CondenseOwned | src/netcode/pipe.c:232-235 | Every buffer that condensing takes is kept or freed, once. |
| PipeLedger.OwnedStep | src/netcode/pipe.c:126-132 | Every buffer is in exactly one place after every step. |
| PipeLedger.BuffersFreedOnce | src/netcode/pipe.c:18-49 | On every run each buffer is in exactly one of reading, queue, writing and freed, and when the pipe is done it has been freed once. |
| PipeLedger.HashAllAppend | src/netcode/pipe.c:316-323 | The hash of a stream does not depend on how it is split. |
| PipeLedger.HashIsBase9 | src/netcode/pipe.c:316-323 | The hash in closed form. |
| PipeLedger.TilingIsStream | src/netcode/pipe.c:245-249 | Positioned writes that tile a range make the file the stream, byte by byte, and nothing outside. |
| PipeLedger.AccountStep | src/netcode/pipe.c:315-330 | Count, hash and write offsets stay exact over every step. |
| PipeLedger.ScheduleIndependent | src/netcode/pipe.c:315-330 | On every run the count is the output's length, the hash is (6883 * 9^n + the n bytes of the output as digits to the base 9) modulo 2^64, and the file holds the output at its place. |
| Delivery.ClosedCleanly | src/netcode/pipe.c:270-276 | What is known of the blocks when a pipe has closed cleanly. |
| Delivery.ChunkedPipeDelivers | src/http/utils/filters.c:152-185 | Over every schedule and every good way of cutting, a chunking pipe that closes without a failed write delivers through the decoder exactly its counted input, or what owners handed in if that is more, and one end signal; unless its count is not positive and no owner handed in or finished anything: then it sends its headers alone. |
| PostDelivery.StdinWritesRecords | src/http/cgi/fcgi_post.c:40-77 | The STDIN encoder writes records of this request whose contents join to the input, the empty one only as the last and exactly if the input ended. |
| PostDelivery.PostBodyDelivered | src/http/cgi/fcgi_post.c:79-134 | Over every schedule the application reads back exactly the part of the body still to come, and the empty record exactly if there was some. |
| OneSocket.EachOnItsOwn | src/http/cgi/fcgi_write.c:254-262 | On a shared socket chain and pipe each do what they do alone, in every order of their events. |
| OneSocket.InOrderExactly | src/netcode/buffer.c:45-69 | For every chain, pipe and schedule that sends the chain: the wire holds the chain and then the pipe's output, each byte from its writer, if and only if nothing of the pipe was accepted before all of the chain. |
| OneSocket.NothingStreamed | src/http/cgi/fcgi_post.c:117-118 | With no body left to stream the pipe puts nothing on the wire, in any schedule. |
| Overtaking.OvertakenAt | src/http/cgi/fcgi_write.c:254-257 | For every chain, every pipe and every point of the chain, a schedule in which all of the pipe's output comes in there, and both end cleanly. |
| Overtaking.EveryScheduleInOrder | src/http/cgi/fcgi_post.c:117-118 | Every schedule has the chain on the wire before the pipe's output if and only if no body is left to stream (or the chain is empty); and so for the schedules in which both end cleanly. |
| Overtaking.PostRequestExactly | src/http/cgi/fcgi_post.c:117-132 | For every request, chain and client: every schedule that ends cleanly delivers the request if and only if the headers brought all of the body and the parameters are shorter than 65536 bytes. |
| Overtaking.OvertakenRequest | src/http/cgi/fcgi_write.c:254-257 | For every chain with body left, and every byte of PARAMS other than 1, a schedule in which the body lands there and the application does not read back the records of the request. |
| Responses.EachPipeAlone | src/http/cgi/fcgi_read.c:80-103 | However the records of several requests and the writes of their pipes are mixed, each pipe does what it does alone on the records with its id. |
| Responses.RecordsOfAll | src/http/cgi/fcgi_read.c:105-135 | What is dispatched over all reads are the records of all bytes. |
| Responses.ResponseDelivered | src/http/cgi/fcgi_read.c:30-60 | Whatever else is on the socket and however it is split into reads: the input of a request's pipe is the body that came with the headers and then the contents of its STDOUT records, in order; while the pipe runs, all of it is sent, being written, or queued behind a write in flight (or held back by condensing); it is done exactly if END_REQUEST came or the client went; a clean close has sent the headers and that input; and after END_REQUEST the pipe ends closed and released. |
| Responses.TypesByNumber | src/http/cgi/fcgi.h:12-15 | STDOUT is 6 and END_REQUEST 3. |
| PostDelivery.PostRequestDelivered | src/http/cgi/fcgi_write.c:254-262 | Chain and pipe on one socket: if the headers brought the whole body, and otherwise if the pipe does not overtake the chain, the records of the request come first, the STDIN contents are the first post_sz bytes of the body, and the empty record comes, last, if and only if the headers did not bring the whole body. |
| Chunked.HexParses | src/http/utils/filters.c:79 | Printing a size in hexadecimal and parsing it are inverse. |
| Chunked.AfterAppend | src/http/utils/filters.c:42-87 | The reference automaton reads a stream piece by piece. |
| Chunked.ScanAgrees | src/http/utils/filters.c:42-87 | The scanning loop agrees with the byte-at-a-time reference on a buffer. |
| Chunked.SimpleCutsAreGood | src/http/utils/filters.c:18-28 | Cuts inside a payload, after a size line or between chunks are good cuts. |
| Chunked.DecodeAgrees | src/http/utils/filters.c:30-89 | On a good piece the decoder delivers what the reference does and stays in step with it. |
| Chunked.GoodCutsDecode | src/http/utils/filters.c:30-89 | With good cuts the decoder delivers the payload and one end signal, whatever lies in memory in front of its buffers. |
| Chunked.WhatIsRefused | src/http/utils/filters.c:64-77 | Where a size line is due and none comes, ten bytes are an error and fewer wait; behind a payload everything but CR LF is an error. |
| Chunked.LinesBegin | src/http/utils/filters.c:70 | What a size line is, by character codes. |
| ChunkedTrip.EncoderWritesChunks | src/http/utils/filters.c:152-185 | The encoder writes a stream of chunks that carries its input, ended exactly if the last block was flushed (section 7.1 of RFC 9112). |
| ChunkedTrip.RoundTrip | src/http/utils/filters.c:30-89 | Decoding what was encoded, over good cuts, gives the concatenation of the blocks and one end signal. |
| ChunkedTrip.ChunkInPlace | src/http/utils/filters.c:152-185 | A short chunk and the last chunk, byte by byte. |
| ChunkedTrip.ReferenceReads | src/http/utils/filters.c:42-87 | The reference reads exactly those bytes as the payload and an end. |
| ChunkedCuts.BadCutsFail | src/http/utils/filters.c:60-75 | With a bad cut some payload is lost or the end is not seen. |
| ChunkedExact.ExactlyGoodCuts | src/http/utils/filters.c:30-89 | For blocks of every number and size with a zero payload, and any non-empty pieces, decoding succeeds if and only if the cuts are good. |
| ChunkDecoder.SizeLineMatches | src/http/utils/filters.c:70 | What the pattern of a size line matches and captures. |
| ChunkDecoder.ChunkDecoder.Decode | src/http/utils/filters.c:30-89 | The decoding loop, with the matcher and the two fields it keeps, computes Chunked.Decode. |
| FcgiRecords.RestIsShort | src/http/cgi/fcgi_read.c:65-71 | What is left unparsed is less than the longest record. |
| FcgiRecords.SplitAnywhere | src/http/cgi/fcgi_read.c:105-135 | Parsing a prefix and then its rest with what follows is parsing the whole. |
| FcgiRecords.FragmentationIndependent | src/http/cgi/fcgi_read.c:105-135 | Two ways of splitting a stream into reads give the same records and the same rest (section 3.3 of FastCGI 1.0). |
| FcgiRecords.WriteReadsBack | src/http/cgi/fcgi_util.c:13-23 | A written record reads back, with padding to a multiple of eight bytes. |
| FcgiRecords.WriteAllReadsBack | src/http/cgi/fcgi_read.c:62-103 | A list of records written one behind the other reads back. |
| FcgiRecords.FieldsInPlace | src/http/cgi/fcgi_read.c:62-80 | The fields of a record that is read, byte by byte, the higher byte first. |
| FcgiRecords.WrittenInPlace | src/http/cgi/fcgi_util.c:13-23 | The bytes of a record that is written: version 1, type, id, length, padding to eight bytes, and zeros. |
| FcgiRecords.WrittenVersionOne | src/http/cgi/fcgi_util.c:13-23 | Every record written is of version 1. |
| FcgiSocket.FcgiSocket.Prepare | src/netcode/buffer.c:71-82 | The line buffer grows to what is asked for and keeps its bytes. |
| FcgiSocket.FcgiSocket.Eat | src/netcode/buffer.c:84-97 | Eating moves the rest to the front. |
| FcgiSocket.FcgiSocket.Request | src/netcode/buffer.c:101-127 | A request asks for a block if less than half of the memory is free and otherwise for what is free, at least one byte, within a capacity below 65797 bytes and a block. |
| FcgiSocket.FcgiSocket.ReadRec | src/http/cgi/fcgi_read.c:62-103 | A complete record is dispatched, the two fields of its header swapped in place, and no other byte touched. |
| FcgiSocket.FcgiSocket.ReadRecords | src/http/cgi/fcgi_read.c:124-134 | The loop dispatches the complete records and says how many bytes it used. |
| FcgiSocket.FcgiSocket.ReadCompleted | src/http/cgi/fcgi_socket.c:82-99 | After every read the dispatched records are those of all bytes received, and the buffer holds exactly the rest. |
| HeaderChain.HeaderChain.NewBuffer | src/netcode/header.c:12-28 | A new buffer at the end of a chain leaves its bytes as they are. |
| HeaderChain.HeaderChain.Header | src/netcode/header.c:30-52 | A printed line of less than 4096 bytes is appended whole, a longer one dropped. |
| HeaderChain.HeaderChain.HeaderRaw | src/netcode/header.c:64-84 | Raw bytes up to 4096 are appended, in a new buffer if they do not fit, and more are dropped. |
| HeaderChain.HeaderChain.HeaderPtr | src/netcode/header.c:86-105 | Reserved bytes lie in one buffer at the end of the chain; more than 4096 are refused and change nothing. |
| HeaderChain.HeaderChain.Patch | src/http/cgi/fcgi_write.c:246-249 | Writing through a kept pointer changes exactly those bytes of the joined chain. |
| HeaderChain.PatchedJoined | src/http/cgi/fcgi_write.c:246-249 | The same as a lemma on chains. |
| HeaderChain.OffsetKept | src/http/cgi/fcgi_write.c:246-249 | A pointer stays at its offset while the chain grows. |
| ChainSend.Writer.ContinueWrite | src/netcode/buffer.c:45-69 | A completion sends the rest, moves to the next buffer, or says that all is sent. |
| ChainSend.ContinueKeeps | src/netcode/buffer.c:45-69 | Sent, unsent and the buffers behind make up the chain after every completion. |
| ChainSend.ChainIsSent | src/netcode/buffer.c:45-69 | Under any partial completions the peer gets the joined chain in order, every buffer but the last is freed once, and the run is bounded. |
| NameValue.LengthReadsBack | src/http/cgi/fcgi_write.c:33-45 | One-byte and four-byte lengths decode (section 3.4 of FastCGI 1.0). |
| NameValue.PairReadsBack | src/http/cgi/fcgi_write.c:20-61 | An encoded pair decodes to itself, whatever follows. |
| NameValue.ParamsReadBack | src/http/cgi/fcgi_write.c:20-61 | A list of pairs decodes to itself, without those whose name is too long. |
| NameValue.PairInPlace | src/http/cgi/fcgi_write.c:20-61 | A pair byte by byte: lengths below 127 in one byte, that of a longer value in four; nothing for a name of 127 bytes or more. |
| FcgiRequest.RecordHead | src/http/cgi/fcgi_util.c:13-23 | A record header is appended and can be found again. |
| FcgiRequest.Param | src/http/cgi/fcgi_write.c:20-61 | A pair is appended, over several buffers if need be, and the number returned is its length. |
| FcgiRequest.WriteParams | src/http/cgi/fcgi_write.c:77-192 | The sum of what the pairs return is the length of the content. |
| FcgiRequest.WriteParamsRecord | src/http/cgi/fcgi_write.c:246-251 | The PARAMS record with its length and padding filled in afterwards. |
| FcgiRequest.WriteStdin | src/http/cgi/fcgi_post.c:83-124 | The empty STDIN record, or the first part of the body as a record. |
| FcgiRequest.WriteRequest | src/http/cgi/fcgi_write.c:225-255 | The chain handed to the socket is the records of the request, in order. |
| FcgiRequest.RecordsAreAligned | src/http/cgi/fcgi.h:32-33 | Records are multiples of eight bytes. |
| FcgiRequest.RequestReadsBack | src/http/cgi/fcgi_write.c:236-252 | The application reads back the records and decodes the pairs if and only if the parameters are shorter than 65536 bytes. |
| FcgiRequest.RequestInPlace | src/http/cgi/fcgi_write.c:236-252 | The first bytes of a request as an application reads them: version 1, BEGIN_REQUEST (1), the id, the role of a responder (1), the flag to keep the connection exactly if it is to be kept, zeros; then the header of PARAMS (4). |
| FcgiRequest.TypesInOrder | src/http/cgi/fcgi_write.c:236-255 | The types of the records by their numbers: 1, 4, 4 and 5, all with the request's id. |
| FcgiRequest.ParamsCutOff | src/http/cgi/fcgi_write.c:247-249 | Of parameters of any length the application reads the first bytes, as many as the remainder of their length by 65536. |
| FcgiRequest.ParamsCanBeLong | src/http/cgi/fcgi_write.c:20-61 | Seventeen values of the longest kind make more than 65535 bytes of parameters. |
| SchedulerSpec.StepKeeps | src/http/cgi/fcgi_worker.c:26-79 | Every event keeps the scheduling invariant. |
| SchedulerSpec.DrainKeeps | src/http/cgi/fcgi_socket.c:14-29 | Running the queue of a socket keeps it, and changes nothing elsewhere. |
| SchedulerSpec.LaunchKeeps | src/http/cgi/fcgi_write.c:211-223 | Starting one request keeps it. |
| SchedulerSpec.SettleKeeps | src/http/cgi/fcgi_post.c:22-38 | The end of an upload keeps it. |
| SchedulerSpec.Grow | src/http/cgi/fcgi_worker.c:39-45 | The worker table grows by empty places and keeps its entries. |
| Scheduler.FirstRuns | src/http/cgi/fcgi_socket.c:18-26 | Running the first of the queue, with what it sets off, is running the queue. |
| Scheduler.DrainCommutes | src/http/cgi/fcgi_post.c:30-33 | A worker that does not wait can be settled before the queue runs or after. |
| Scheduler.Group.GetSocket | src/http/cgi/fcgi_socket.c:138-167 | Sockets are used in turn and created busy. |
| Scheduler.Group.GetWorker | src/http/cgi/fcgi_worker.c:26-54 | An idle worker is reused, or one with a fresh id enters the table. |
| Scheduler.Group.WorkerReset | src/http/cgi/fcgi_worker.c:56-79 | A worker becomes idle only when neither upload nor response is outstanding. |
| Scheduler.Group.WorkerRun | src/http/cgi/fcgi_write.c:211-266 | A worker is queued on a busy socket; otherwise it starts, and then whoever else can. |
| Scheduler.Group.StdinDone | src/http/cgi/fcgi_post.c:11-20 | The socket is given back and its queue runs. |
| Scheduler.Group.PostDone | src/http/cgi/fcgi_post.c:22-38 | The end of an upload, whose queue runs before its flag goes. |
| Scheduler.Group.SocketContinue | src/http/cgi/fcgi_socket.c:14-29 | The walk over the queue, nested as deep as it is long, ends and does what a plain queue would, although its saved link goes stale. |
| Scheduler.Group.Submit | src/http/cgi/fcgi.c:80-110 | A request gets a worker that runs or waits. |
| Scheduler.Group.Connect | src/http/cgi/fcgi_socket.c:101-136 | A connection that stands lets the queue run. |
| Scheduler.Group.PostFinished | src/http/cgi/fcgi_post.c:22-38 | The event of a finished upload. |
| Scheduler.Group.PipeFinished | src/http/cgi/cgi_parse.c:47-62 | The event of a complete response. |
| SchedulerTheorems.WorkersAreInOnePlace | src/http/cgi/fcgi_worker.c:26-79 | In every reachable state ids on a socket are distinct, the table finds each worker, and each is in exactly one of idle, queued and running. |
| SchedulerTheorems.OneUpload | src/http/cgi/fcgi_write.c:216-223 | A connected socket is busy if and only if one worker, and no other, uploads on it, and nobody waits for a free socket. |
| SchedulerTheorems.FirstComeFirstServed | src/http/cgi/fcgi_socket.c:14-29 | What has begun, that is, has found the socket free and set BUSY, and then what waits is what was submitted, in order. |
| SchedulerTheorems.FirstIdIsZero | src/http/cgi/fcgi_worker.c:39-45 | The first worker of every socket gets the id 0. |
| SchedulerPlaces.PlacesInTurn | src/http/cgi/fcgi_socket.c:138-167 | In every reachable state of a group of n places, the worker created as number w belongs to place w mod n under the id w / n; the places of the first n workers have a socket, no place has two more workers than another, and tables grow by five. |
| SchedulerPlaces.EveryRequestOnce | src/http/cgi/fcgi.c:80-110 | In every reachable state every request submitted so far was given to exactly one socket, once, and each socket got its own in order. |
| SchedulerPlaces.QueueBegins | src/http/cgi/fcgi_socket.c:14-29 | When a socket is free the requests in its queue begin, up to the first POST of whose body something is left to send, which makes it busy; the others wait on. |
| SchedulerPlaces.SubmitAnswers | src/http/cgi/fcgi_worker.c:26-54 | A request goes to the worker that has been idle for longest or else to a new one; it begins at once if its socket is free and otherwise waits as the last. |
| SchedulerPlaces.ConnectAnswers | src/http/cgi/fcgi_socket.c:101-136 | A connection that stands lets the queue begin. |
| SchedulerPlaces.UploadAnswers | src/http/cgi/fcgi_post.c:22-38 | The end of an upload lets the queue begin, and the worker is idle if its response is complete. |
| SchedulerPlaces.ResponseAnswers | src/http/cgi/cgi_parse.c:47-62 | A complete response makes its worker idle, behind the others, if it uploads nothing more. |
| SchedulerTheorems.RestMeansServed | src/http/cgi/fcgi_socket.c:14-29 | When nothing is outstanding, every request was started and every worker is idle. |
| SchedulerTheorems.StepCosts | src/http/cgi/fcgi_worker.c:56-79 | Every completion uses up something outstanding. |
| SchedulerTheorems.RunsComeToRest | src/http/cgi/fcgi_socket.c:14-29 | A run has a bounded number of completions and can go on exactly until it is at rest. |
| Pattern.RunIsLongest | external/basic/basic_pattern.c:107-131 | A run is the longest whose characters are in the union of the members. |
| Pattern.CapturesAreSlices | external/basic/basic_pattern.c:198-211 | Captures are slices of the consumed prefix, and what is consumed is a prefix. |
| Pattern.PlusIsDefault | external/basic/basic_pattern.c:21-26 | A format with `+` behind a class parses to the same items as without; that both take the longest run is Matcher.MatchPattern. |
| Pattern.PlainMatchesPrefix | external/basic/basic_pattern.c:215-223 | A format of plain characters matches exactly the sources it is a prefix of. |
| Formats.LettersMean | external/basic/basic_pattern.c:45-93 | The class of every letter, by character codes. |
| Formats.FoldMeans | external/basic/basic_pattern.c:215-223 | Folding takes a letter and its other case for the same, and nothing else. |
| Formats.SetMeans | external/basic/basic_pattern.c:95-137 | A character is in a set if a member accepts it. |
| Formats.ItemAlone | external/basic/basic_pattern.c:21-26 | For every class letter and every closed set: with `*` or `?` it always matches the longest run, possibly none; with `+` or nothing it matches if and only if it accepts the first character. |
| Formats.ItemInFormat | external/basic/basic_pattern.c:155-182 | The same with any format before and behind it. |
| Formats.ItemCaptured | external/basic/basic_pattern.c:198-211 | Between brackets, what the item takes is captured. |
| Formats.WhatNeverMatches | external/basic/basic_pattern.c:139-240 | A bracket or a set that is not closed, a bracket that was not opened, and anything but the empty format in an empty source. |
| Formats.PlainMatches | external/basic/basic_pattern.c:215-223 | A format of plain characters matches exactly the sources that begin with them, up to case if the case is folded. |
| Matcher.LetterMeansClass | external/basic/basic_pattern.c:45-93 | The bit masks of a class letter accept exactly the characters of the class. |
| Matcher.ComplementsAcceptAll | external/basic/basic_pattern.c:45-93 | The mask a letter selects accepts every character, whatever the character kept from before, if and only if it is one of the eleven letters that should name complements. |
| Matcher.MatchPattern | external/basic/basic_pattern.c:95-137 | The loops find the longest run in the union of the members, and the specifier only decides whether it may be empty. |
| Matcher.FindSetEnd | external/basic/basic_pattern.c:173-182 | The end of a set. |
| Matcher.MatchItem | external/basic/basic_pattern.c:155-169 | A class or a set with its specifier. |
| Matcher.MatchString | external/basic/basic_pattern.c:139-240 | The interpreter agrees with the recursive meaning of the parsed format: result, captures and the source left, which failure does not change. |
| DList.List.Append | external/basic/basic_lists.c:24-39 | Appending a chain is concatenation. |
| DList.List.Prepend | external/basic/basic_lists.c:8-22 | Prepending a node, or a chain to an empty list. |
| DList.List.AddAfter | external/basic/basic_lists.c:41-56 | A chain goes in behind a node. |
| DList.List.AddBefore | external/basic/basic_lists.c:58-73 | A chain goes in before a node. |
| DList.List.Remove | external/basic/basic_lists.c:75-90 | A node is taken out and unlinked; a node in no list changes nothing. |
| DList.WovenIsLinked | external/basic/basic_lists.c:41-73 | The links after an insertion are those of the list with the chain in it. |
| DList.BypassedIsLinked | external/basic/basic_lists.c:75-90 | The links after a removal are those of the list without the node. |
| DList.RemovedAt | external/basic/basic_lists.c:75-90 | Removal closes the gap and keeps the order. |
| Timers.TimerList.Update | src/system/timing.c:19-49 | The timer moves to the spot the walk finds; nothing else moves. |
| Timers.TimerList.Remove | src/system/timing.c:13-17 | A timer leaves the list and its deadline is cleared. |
| Timers.TimerList.Fire | src/system/timing.c:61-65 | One due timer: its callback, and its removal if it returned 0 and is still due. |
| Timers.TimerList.Check | src/system/timing.c:51-69 | Exactly the due timers fire, once each, in order of deadline. |
| Timers.UpdateKeepsOrder | src/system/timing.c:19-49 | Updating a linked timer keeps the list sorted and the others in order. |
| Timers.NewTimer | src/system/timing.c:24-35 | A new timer goes to the end; the list stays sorted if and only if none is due later. |
| Timers.FireAllFires | src/system/timing.c:51-69 | After firing nothing is due, those stay that were not due or set themselves a later time, and no other deadline changes. |
| HashTable.MaskIsRemainder | external/basic/basic_hashtable.c:28-36 | Masking with a power of two less one is a remainder. |
| HashTable.Table.constructor | external/basic/basic_hashtable.c:28-42 | A new table is the empty map. |
| HashTable.Table.InItsBin | external/basic/basic_hashtable.c:101-114 | A pair is in the bin of its first key modulo the number of bins. |
| HashTable.Table.Get | external/basic/basic_hashtable.c:101-114 | The pair with both keys, exactly if the map has it. |
| HashTable.Table.Set | external/basic/basic_hashtable.c:117-147 | Setting is a map update. |
| HashTable.Table.Delete | external/basic/basic_hashtable.c:149-170 | Deleting removes the key, and the result says whether it was there. |
| HashTable.Table.Iterate | external/basic/basic_hashtable.c:172-187 | The iterator returns the pairs one after the other and then stops for good. |
| HashTable.Table.EachOnce | external/basic/basic_hashtable.c:172-187 | The pairs met are those of the map, each once. |
| HashTable.Table.All | src/http/cache/cache.c:137-148 | A full iteration, as when a store is cleaned, meets every pair once. |
| HashTable.Spliced | external/basic/basic_hashtable.c:157-164 | A chain without one node is a chain of the map without its key. |
| CacheTheorems.ServeAllServes | src/http/cache/cache.c:295-302 | Finishing serves every waiting client once. |
| CacheTheorems.SaveKeeps | src/http/cache/cache.c:199-265 | Saving or joining keeps the account. |
| CacheTheorems.CheckKeeps | src/http/cache/cache.c:307-324 | Serving from the cache keeps it. |
| CacheTheorems.FinishKeeps | src/http/cache/cache.c:278-305 | The end of generation keeps it. |
| CacheTheorems.FailKeeps | src/http/cache/cache.c:163-186 | A failure keeps invariant and account if and only if it is not a second one after another item has got the key. |
| CacheTheorems.SentKeeps | src/http/server/httpd_file.c:35-43 | The end of sending keeps it. |
| CacheTheorems.ExpiryKeeps | src/http/cache/cache.c:188-197 | Expiry keeps the invariant if and only if the item is complete and only the table holds it. |
| CacheTheorems.ExpiryMustBeTimely | src/http/cache/cache.c:188-197 | For every state: the expiry of an item and every event of it that can follow keep counts, frees and size exact and free nothing that clients wait for, if and only if the item was complete and held by the table alone. |
| CacheTheorems.StepKeeps | src/http/cache/cache.c:120-135 | The events that keep the invariant are exactly timely expiries, failures that take no other item's entry, and all others; and these leave the account intact and free nothing that clients wait for. |
| CacheTheorems.ReferencesAreCounted | src/http/cache/cache.c:120-135 | On every run in which expiry is timely and no failed pipe takes another item's entry, the count is the number of holders, an item is freed once and only at zero and nothing concerns it after that, and the store's size is that of the complete items in the table. |
| CacheTheorems.FreedWhenLetGo | src/http/cache/cache.c:120-129 | Which event frees an item, and that nobody held it. |
| CacheTheorems.UntimelyExpiry | src/http/cache/cache.c:188-197 | A run in which an item is freed while it is being sent. |
| CacheTheorems.SecondFailure | src/http/cache/cache.c:259-260 | A run in which the second failure of a pipe takes a new item out of the table. |
| CacheAnswers.CheckAnswers | src/http/cache/cache.c:307-324 | A request is answered 1 and served, by the one item that lives under its key, if it may be cached and there is one; 0 if there is none, and -1 if it may not be cached, and then nothing changes. |
| CacheAnswers.SaveAnswers | src/http/cache/cache.c:199-265 | A response is refused, waits for the item under its key, first in its queue, or becomes a new item; and what changes in each case. |
| CacheAnswers.FinishAnswers | src/http/cache/cache.c:278-305 | The item gets the size written, the store grows by it, and every client that waited is sent the file, in the order of the queue, or refused. |
| CacheAnswers.FailAnswers | src/http/cache/cache.c:163-186 | A failure takes the waiting clients' references and the entry of the key. |
| CacheAnswers.SentAnswers | src/http/server/httpd_file.c:35-43 | The end of sending takes that client and a reference. |
| CacheAnswers.ExpireAnswers | src/http/cache/cache.c:131-135 | Expiry takes the entry, the size and a reference. |
| CacheAnswers.SavedIsServed | src/http/cache/cache.c:307-324 | Over runs: once saved and generated, and until it fails or expires, every request for the key is served by that item. |
| Cache.Store.SaveResponse | src/http/cache/cache.c:199-265 | The method does the step Save. |
| Cache.Store.CheckRequest | src/http/cache/cache.c:307-324 | The method does the step Check. |
| Cache.Store.FinishItem | src/http/cache/cache.c:278-305 | The loop over the waiting clients does the step Finish. |
| Cache.Store.FailItem | src/http/cache/cache.c:163-186 | The loop over the waiting clients does the step Fail. |
| Cache.Store.Unreference | src/http/cache/cache.c:120-129 | A reference is dropped, and the item freed at zero. |
| Cache.Store.SentFile | src/http/server/httpd_file.c:35-43 | The method does the step Sent. |
| Cache.Store.TimeOut | src/http/cache/cache.c:131-135 | The method does the step Expire and asks for the timer to stay. |

## Left out

- System calls: io_uring, epoll, sockets, files, signals, daemonising and restarts; their completions are the events of the models. TLS and deflate are foreign libraries.
- Lua, configuration, console, logging, the VFS, URL and header parsing, endianness and the frame timer.
- `Pipe.Pipe` holds its buffers as values in sequences, so it does not capture that a buffer's list node is shared between lists; `WriteQueue` has the one loop that works in place on memory.
- Pipe errors: a failed read is an end of input, its error callback having no effect here; a failed write closes the pipe; refused submissions of a request and the decode callback inside the pipe are not modelled.
- Pipe.Pipe.WriteProcess: takes single buffers, as every caller in hin9 gives; a chain whose first node is freed while it is walked is not modelled.
- Delivery.ChunkedPipeDelivers: an owner processes at most 2^31 - 1 bytes at a time, the range of the C type of a length.
- ChunkedCuts.BadCutsFail: for payloads of zero bytes and fixed junk in front of a buffer, for the reason that follows.
- ChunkedExact.ExactlyGoodCuts: the "only if" is for payloads of zero bytes and fixed junk in front of a buffer, because with other contents lost bytes can be replaced by equal ones by chance.
- Padding and reserved bytes of FastCGI records are written as zero; the source leaves some of them as they were in memory.
- HeaderChain.HeaderChain.Header: a printed line of exactly 4096 bytes that does not fit the last buffer makes the source recurse without end, so it is excluded; `header_date` on a chained buffer is not modelled.
- FcgiRequest.Param: values longer than 4096 bytes, for which no place is reserved, are excluded, and so are initial body bytes beyond that; and the NUL that `src/http/cgi/fcgi_write.c:53` prints one byte past the reserved place, which the next append overwrites or which lies past the end of a full buffer, is not modelled.
- FcgiSocket.FcgiSocket.ReadRec: records are dispatched to whoever they name; the bound on request ids and the lookup of the worker are not modelled.
- FastCGI: closing of sockets, connection failures, client aborts, and groups without kept sockets.
- SchedulerTheorems.FirstComeFirstServed: the order is that of setting BUSY; the chains of requests that begin in one turn are submitted last first, and how they lie on the wire is not modelled.
- PostDelivery.PostRequestDelivered: if some body is left to stream it assumes that the pipe does not overtake the chain, which the code does not ensure; `Overtaking.PostRequestExactly` has the exact condition.
- Responses.ResponseDelivered: begins when the response headers of a request are complete; collecting them is not modelled, nor is an application that sends more for a request it has ended or whose client is gone, for which the source has no pipe.
- Pipe.Pipe.ProcessBuffer: pipes with a decode callback, which `ChunkDecoder` models on its own, are not composed with one.
- Matcher: sets that start with `^`, a lone `%` at the end of a format, and the wrappers `match_string_equal` and `matchi_string_equal`.
- DList.List.Prepend: a chain of several nodes before a non-empty list, which the source links wrongly.
- Timers.TimerList.Fire: a callback that leaves its timer due and returns another value than 0.
- Timers.TimerList.Check: callbacks that touch other timers, or leave their own due and return another value than 0; the cache's is one, see `CacheTheorems.ExpiryMustBeTimely`.
- Cache.Store.SaveResponse: failure to open the file of a new item, which leaves it in the table unfinished.
- Cache: a client that joins a complete item waits for good, and one that is served while the item is being generated gets what there is; both are in the model as the code has them.
- `HeaderChain`, `ChainSend`, `Scheduler` and `Cache` keep buffers, workers, sockets and items as values in sequences, so they do not capture sharing of one object by several lists; `Timers` finds a timer's deadline from its link by a map, where the source uses the address of the structure around the link.
- `HashTable` takes keys as natural numbers of any size, with the bitwise `&` defined on them.
- The hash functions of the table, which would only add easy members.
- Real clocks, memory exhaustion and integer overflow of counters other than the pipe's hash.
