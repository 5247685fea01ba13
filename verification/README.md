# sheep: a model and its proofs

This project models the hard core of sheep, a coroutine network framework on io_uring: its lock-free bounded
queue, its three byte-driven HTTP parsers, the coroutine tasks, the worker pool that runs them, and the asynchronous
logger. `dafny verify dfyconfig.toml` checks all of it.

**The queue** (`Queue*.dfy`, `WrappedTickets.dfy`, `MpmcQueue.dfy`). `QueueMachine` is a transition system over any
number of threads and any capacity: every atomic load, `fetch_add`, compare-exchange and store and every access to a
slot's storage is one step of one thread, interleaved freely and sequentially consistently. Tickets are unbounded
there. `QueueInvariant` holds the invariant of all steps; `QueueTheorems`, `QueueCalls`, `QueueProgress`, `QueueSolo`,
`QueueClients` and `QueueEmptiness` hold what follows from it. `QueueWords` is the same machine on uint64 words, in the
code's own arithmetic, and refines the unbounded one; `MpmcQueue` is the object with its array of slots, whose methods
update that memory in place and carry the unbounded state as a ghost.

**The parsers** (`Http*.dfy`, `Request*.dfy`, `MultipartOutcomes.dfy`, `Response*.dfy`, `ChunkedBody.dfy`, `Uri*.dfy`,
`QueryList.dfy`). A buffer is a string of octets; a `string_view` into it is a pair of positions. For every parser a `...Machine` module
says what one iteration of its loop does, a `...Parser` module has the loop itself, in classes whose fields it updates,
proved equal to the machine, and the grammar modules say with a declarative grammar and its printer what is accepted
and what is recorded. Printed text and recorded views are compared as texts (`Text(buf, view)`). The `...Outcomes` modules
say it of every buffer there is: next to the complete texts they define the texts that break off and those without a
meaning, and all other buffers are errors.

**Tasks** (`Coroutines.dfy`, `TaskRunner.dfy`). A coroutine body is any deterministic code that decides its next act from
the results it has had so far, so bodies may loop and recurse. `Eval` reads every `co_await` as a plain call; `TaskRunner`
has frames with `continue_` links, symmetric transfer and the completion loop of `run_task`.

**The worker pool** (`Pool*.dfy`). A transition system of workers, their sets and rings, sessions that are chains of
coroutine frames, and the kernel as a bag of operations that complete at most once; `PoolWorker` has the erasing loop of
the sweep.

**The logger** (`Logger*.dfy`, `AsyncLogger.dfy`). A transition system on top of the queue's, with one poller, and the
logger object on top of the queue object.

Where the source is left without a meaning, the model ends with the outcome `Fault` (a number outside `int` given to
`atoi`, a scan beyond the buffer, a view that would be negative or lie outside the buffer, a multipart header without
`boundary=`); where it throws, with `Thrown`. No theorem about acceptance counts such an outcome as acceptance.

Claims one might expect and that are false of the code are stated as such, with an input or run that shows it and the
exact condition:

- `try_pop` and `try_emplace` may spin for ever on a stale cursor (`QueueClients.StalePopReached`, `StalePushReached`);
  alone, they return exactly under the conditions of `TryPopAloneReturns` and `TryPushAloneReturns`.
- A false `try_pop` means that at some instant of the call nothing was left to take exactly if there is one slot, or at
  most one producer (`QueueEmptiness.FalseMeansEmptyExactly`); `FalseIsNotEmpty` is the run for any other case.
- `size()` and `empty()` are right exactly while tail is not ahead of head (`WrappedTickets.SizeExactly`,
  `WaitingPopCounted`).
- A `POST` or `PUT` with headers that ends with its head is Completed, and with one character more it may not be
  (`RequestPrefixes.CompletedStaysExactly`, `MissingBodyOvertaken`); nothing else that is Completed is overturned.
- A beginning of a request is incomplete, with two exceptions: the head alone, and a blank Content-Length whose scan runs
  on to the end of what has come (`RequestPrefixes.PrefixExactly`, `NoFault`, `OverrunReached`).
- A beginning of a response that cuts the data of a chunk, or ends right behind it, is an error, and one that cuts counted
  content makes a view leave the buffer (`ResponsePrefixes.ChunkedPrefixExactly`, `CountedPrefixExactly`,
  `TruncationReached`).
- An error of the response parser is final, except on a buffer that ends in the data of a chunk, or right behind it: that
  one can still become Completed (`ResponseStability.ErrorOverturnedExactly`).
- Multipart data comes back exactly when nothing in it looks like the end of its delimiter
  (`RequestMultipart.RoundTripExactly`, `DashesLost`).
- A URI that breaks off anywhere before the '/' of its path is Completed, and its last piece taken for the path
  (`UriStubs.CompletedExactly`, `StubPieces`, `HostTakenForPath`).
- A session that is done on its first resume is never destroyed (`PoolTheorems.FirstResumeDecides`, `DropReached`).
- What is in the logger's buffer when its last poll finds nothing new is never written (`LoggerDrain.LastPollDrains`,
  `AsyncLogger.Logger.Shutdown`, `PolledAndLost`).

## Model

| member | source | states |
|---|---|---|
| QueueInvariant.StepInv | include/mpmc_queue.hpp:248-450 | every step of every operation, by any thread, keeps the queue's invariant: who owns which ticket and slot, which storage is live, what was issued and moved |
| QueueTheorems.FifoByTicket | include/mpmc_queue.hpp:249-450 | in every reachable state a value moved out under a ticket is the one issued under it, and no ticket is consumed twice |
| QueueTheorems.BulkTickets | include/mpmc_queue.hpp:276-288 | the elements of a bulk_push have consecutive tickets in iterator order, for ever, however many they are |
| QueueTheorems.NothingLost | include/mpmc_queue.hpp:313-450 | when no call is in progress exactly the tickets below tail have been consumed |
| QueueTheorems.StorageDiscipline | include/mpmc_queue.hpp:187-198 | threads at work on storage are at different slots; construction meets dead storage, move and destroy a live object with the issued value |
| QueueInvariant.ExclusiveAccess | include/mpmc_queue.hpp:249-258 | from the moment a claimant sees its turn until it stores the next one, no other thread is at its slot |
| QueueTheorems.Leftovers | include/mpmc_queue.hpp:179-185 | at rest a slot is live iff its turn is odd iff a ticket between tail and head is in it, so ~Slot destroys exactly the leftovers |
| QueueTheorems.StepGrowth | include/mpmc_queue.hpp:248-450 | counters, issued values, publications and releases never go back |
| QueueCalls.CallsAnswerTruly | include/mpmc_queue.hpp:248-450 | over all schedules, what a call returns is what its own steps did: try_emplace true iff they issued one ticket, with its item, try_pop true iff they moved one value out, and the count of bulk_pop or try_consume_all is the number of tickets claimed and values moved |
| QueueCalls.TryPushAlone | include/mpmc_queue.hpp:291-311 | from any reachable state, a try_emplace alone ends with its item issued and published under the ticket at head iff that slot is free for its lap, and else with nothing changed |
| QueueCalls.TryPopAlone | include/mpmc_queue.hpp:327-349 | a try_pop alone ends with the value under the ticket at tail delivered and released iff it is published, and else with nothing changed |
| QueueCalls.CursorWasTail | include/mpmc_queue.hpp:327-349 | over all schedules the cursor of a try_pop, bulk_pop or try_consume_all was tail at an instant of the same call |
| QueueCalls.CursorWasHead | include/mpmc_queue.hpp:291-311 | and that of a try_emplace was head |
| QueueProgress.SpinningIsTheOnlyWait | include/mpmc_queue.hpp:249-288 | a thread that holds a ticket is held up only by the turn of its own slot |
| QueueProgress.StuckExactly | include/mpmc_queue.hpp:249-288 | all ticket holders are stuck iff only one side waits: producers for slots nobody asked to empty, or consumers for tickets nobody fills |
| QueueProgress.DeadlockFree | include/mpmc_queue.hpp:249-325 | with a producer ticket and a consumer ticket outstanding, some ticket holder can move |
| QueueProgress.TryPushFalse | include/mpmc_queue.hpp:291-311 | a try_emplace about to return false was, at an instant inside the call, at head with the ticket one lap before unreleased |
| QueueProgress.TakeFalse | include/mpmc_queue.hpp:327-450 | a try_pop about to return false, or a bulk_pop or try_consume_all about to stop, was at an instant inside the call at tail with that ticket unpublished |
| QueueSolo.GreedyStep | include/mpmc_queue.hpp:372-378 | each own step of bulk_pop or try_consume_all lowers the measure (published tickets ahead, then phase), so alone it returns |
| QueueSolo.AloneTakesTheRun | include/mpmc_queue.hpp:353-380 | alone, from any reachable state, it takes exactly the unbroken run of published tickets and disturbs nobody |
| QueueClients.StalePopNeverReturns | include/mpmc_queue.hpp:343-346 | a try_pop whose cursor's slot has moved past it never returns, whatever all threads do |
| QueueClients.StalePushNeverReturns | include/mpmc_queue.hpp:304-308 | the same of try_emplace |
| QueueClients.StalePopReached | include/mpmc_queue.hpp:327-349 | such a state is reached with one slot and two threads |
| QueueClients.StalePushReached | include/mpmc_queue.hpp:291-311 | and one for try_emplace |
| QueueClients.TryPushAloneReturns | include/mpmc_queue.hpp:291-311 | a try_emplace about to check returns alone iff head is its cursor or its slot is free for the cursor's lap at this moment |
| QueueClients.TryPopAloneReturns | include/mpmc_queue.hpp:327-349 | a try_pop about to check returns alone iff tail is its cursor or its ticket is published and unreleased |
| QueueEmptiness.TailTellsExactly | include/mpmc_queue.hpp:327-349 | in all runs in which only the threads of a set push, an unpublished ticket at tail means that no ticket from tail on is published, iff there is one slot or at most one such thread |
| QueueEmptiness.FalseMeansEmptyExactly | include/mpmc_queue.hpp:327-349 | and under the same condition, and no other, every try_pop about to return false was at some instant of the call at a queue with nothing to take |
| QueueEmptiness.FalseIsNotEmpty | include/mpmc_queue.hpp:327-349 | for every capacity from 2 on and any two producers, a run in which a try_pop is about to return false with a later ticket published since before the call |
| QueueClients.TailBehindHead | include/mpmc_queue.hpp:327-450 | with try-style consumers only, tail never passes head |
| QueueClients.WithinCapacity | include/mpmc_queue.hpp:291-311 | with try_emplace only, no more than the capacity is claimed ahead of tail |
| QueueClients.SingleConsumerOrder | include/mpmc_queue.hpp:398-450 | a single consumer sees the values in the order of their tickets, without gaps |
| WrappedTickets.CapacityAssertion | include/mpmc_queue.hpp:213 | the constructor's assertion holds iff the capacity is a power of two |
| WrappedTickets.MaskIsRemainder | include/mpmc_queue.hpp:461-463 | masking with capacity - 1 is the remainder |
| WrappedTickets.IndexAgrees | include/mpmc_queue.hpp:461-463 | the slot of a wrapped ticket is that of the unbounded one |
| WrappedTickets.TurnsAgree | include/mpmc_queue.hpp:321-324 | the three turns the code computes from a wrapped ticket, the reset to 0 included, are the unbounded ones modulo the period of turns |
| WrappedTickets.TurnsToldApart | include/mpmc_queue.hpp:465-467 | turns less than a period apart are told apart in 64 bits |
| WrappedTickets.SizeExactly | include/mpmc_queue.hpp:452-458 | size() is the distance iff tail is not ahead of head; empty() is equality of the counters |
| WrappedTickets.WaitingPopCounted | include/mpmc_queue.hpp:452-458 | one pop waiting at an empty queue makes size() the greatest uint64 |
| QueueWords.TurnsRepeat | include/mpmc_queue.hpp:465-467 | with one slot turns repeat every 2^63 tickets, so a bound on lag is needed |
| QueueWords.StepRefines | include/mpmc_queue.hpp:248-467 | while no thread lags 2^63 tickets or more, a step in uint64 arithmetic is the step of the unbounded queue |
| QueueWords.ExecRefines | include/mpmc_queue.hpp:204-467 | and so whole runs from the constructor on agree |
| MpmcQueue.MPMCQueue.BulkPush | include/mpmc_queue.hpp:276-288 | run alone with room in the ring: all items are issued in order and published, nothing else changes |
| MpmcQueue.MPMCQueue.BulkPop | include/mpmc_queue.hpp:353-380 | run alone from any state: returns exactly the values of the unbroken run of published tickets from tail on |
| MpmcQueue.MPMCQueue.Size | include/mpmc_queue.hpp:452-454 | exact iff tail is not ahead of head |
| MpmcQueue.MPMCQueue.Empty | include/mpmc_queue.hpp:456-458 | true iff the counters are equal |
| MpmcQueue.SnapshotExact | include/mpmc_queue.hpp:452-458 | with try-style consumers only, size() and empty() are exact on a snapshot of any reachable state |
| RequestParser.Parser.Parse | include/http/request_parser.hpp:73-411 | the loop leaves result, state and request as the machine of single iterations does |
| RequestGrammar.ParsesAsDerived | include/http/request_parser.hpp:73-285 | a buffer that begins with a head of the grammar, not multipart, is parsed into the grammar's pieces, with the body its last Content-Length counts |
| RequestLanguage.AcceptedBegins | include/http/request_parser.hpp:88-255 | every accepted buffer begins with a head of the grammar |
| RequestLanguage.CompletedExactly | include/http/request_parser.hpp:73-285 | on input that is not multipart, Completed iff the grammar accepts |
| RequestLanguage.CompletedPieces | include/http/request_parser.hpp:73-285 | the recorded texts are those of every derivation, so the grammar is unambiguous |
| RequestLanguage.CompletedInOrder | include/http/request_parser.hpp:95-285 | the recorded views are in bounds, non-empty, disjoint and in increasing order |
| RequestLanguage.LastLength | include/http/request_parser.hpp:222-226 | the last Content-Length, spaces, a sign, digits and whatever follows them, is in int range and as a size_t the size of the body |
| RequestLanguage.NumberSplit | include/http/request_parser.hpp:222-226 | every value that is not blank has that form |
| RequestLanguage.BodyRoundTrip | include/http/request_parser.hpp:258-285 | a request printed with its body and the body's length is read back whole |
| RequestOutcomes.OutcomeExactly | include/http/request_parser.hpp:73-411 | every buffer, multipart or not: Completed iff a complete text of the grammar, InCompleted iff one that breaks off, Fault iff one with a header or part without a meaning, and Error iff none of these |
| RequestOutcomes.MultipartRecorded | include/http/request_parser.hpp:287-402 | a complete multipart text, of whatever delimiters, is recorded with its head and its parts in their places |
| MultipartOutcomes.PartsComplete | include/http/request_parser.hpp:287-402 | parts as the grammar has them, up to a last one and its line end, are read and recorded |
| MultipartOutcomes.FindParts | include/http/request_parser.hpp:287-402 | and whatever is not rejected is such parts, or parts of which the last breaks off, or parts of which one is too short for its delimiter |
| RequestStability.ErrorStays | include/http/request_parser.hpp:82-86 | Error on a buffer is Error on every extension |
| RequestPrefixes.CompletedStaysExactly | include/http/request_parser.hpp:249-277 | Completed stays, with identical fields, on all extensions iff the buffer is not the head, with headers, of a POST or PUT and nothing behind it |
| RequestPrefixes.MissingBodyOvertaken | include/http/request_parser.hpp:249-277 | such a request, Completed, and InCompleted with one character more |
| RequestPrefixes.PrefixExactly | include/http/request_parser.hpp:73-411 | of an accepted request, multipart or not, every strict beginning of what was read is Fault iff a Content-Length scan runs past it, Completed iff it is the head with its headers, and else InCompleted |
| RequestPrefixes.NoFault | include/http/request_parser.hpp:73-411 | with a character that is no space in every Content-Length, every strict beginning but the head is InCompleted |
| HttpPrefixes.OverrunIsBlank | include/http/request_parser.hpp:222-226 | a scan runs on only from a value of spaces |
| RequestPrefixes.OverrunReached | include/http/request_parser.hpp:222-226 | an accepted request with a beginning on which atoi runs out of the buffer |
| RequestMultipart.RoundTripExactly | include/http/request_parser.hpp:287-402 | printing parts and parsing gives the same infos and data iff the boundary is not all dashes and no data, at a '\r' or its delimiter, ends like a delimiter |
| RequestMultipart.DashesLost | include/http/request_parser.hpp:354-402 | a message with the boundary "--" whose part does not come back |
| RequestMultipart.RoundTripWhole | include/http/request_parser.hpp:287-402 | and then the parse reads to the end and records head and parts in their places |
| RequestMultipart.LastWindow | include/http/request_parser.hpp:384-400 | the last delimiter is taken for an inner one iff the boundary is all dashes |
| RequestMultipart.RunSettles | include/http/request_parser.hpp:354-402 | a part whose data has ended is never touched again |
| RequestMultipart.FormDataLearnt | include/http/request_parser.hpp:418-429 | the usual multipart Content-Type yields its boundary |
| HttpText.DecimalOfPrint | include/http/request_parser.hpp:224 | the value of a printed number is the number |
| HttpText.PlainDecimal | include/http/request_parser.hpp:224 | atoi on a plain decimal that something else follows gives its value, or is undefined outside int |
| HttpText.AnyNumber | include/http/request_parser.hpp:224 | so it does with leading spaces and a sign |
| ResponseParser.Parser.Parse | include/http/response_parser.hpp:60-340 | the loop, with its jump over chunk data, leaves result, state and response as the machine does |
| ResponseLanguage.CompletedExactly | include/http/response_parser.hpp:60-340 | Completed iff the buffer begins with a head of the grammar and the body that head asks for |
| ResponseLanguage.AcceptedBegins | include/http/response_parser.hpp:72-253 | every accepted buffer begins with a head of the grammar |
| ResponseLanguage.CompletedPieces | include/http/response_parser.hpp:60-340 | version, code, reason, headers and content or chunks of a Completed parse are those of every derivation of the buffer |
| ResponseLanguage.ChunkedParse | include/http/response_parser.hpp:271-331 | a head and chunks, sizes written in any hexadecimal way, are recorded chunk by chunk, to the end of the last one |
| ResponseLanguage.ChunkedRoundTrip | include/http/response_parser.hpp:271-331 | every split of a body into non-empty chunks is read back, however each size is spelled, and the chunks join up to the body |
| ResponseLanguage.ContentRoundTrip | include/http/response_parser.hpp:267-269 | a counted body that is present is recorded, whatever follows |
| ResponseOutcomes.OutcomeExactly | include/http/response_parser.hpp:60-340 | every buffer: Completed iff a complete text of the grammar, InCompleted iff one that breaks off, Fault iff one with a number without a meaning or content that is not all there, Thrown iff one with a chunk size that is no int, and Error iff none of these |
| ResponsePrefixes.ChunkedPrefixExactly | include/http/response_parser.hpp:271-331 | of a complete chunked response every strict beginning is Fault iff a Content-Length scan runs past it, Error iff it ends inside a chunk's data or right behind it, and else InCompleted |
| ResponsePrefixes.CountedPrefixExactly | include/http/response_parser.hpp:60-270 | of a response with counted content every beginning is Fault iff a scan runs past it or it cuts the content, InCompleted up to the end of the head, and else Completed |
| ResponsePrefixes.HeadCut | include/http/response_parser.hpp:60-253 | of any complete response a beginning that cuts the head is InCompleted, or Fault iff a scan runs past it |
| ResponsePrefixes.TruncationReached | include/http/response_parser.hpp:306-317 | a chunked response, Completed, and Error when cut in its data |
| ResponseStability.CompletedStays | include/http/response_parser.hpp:60-340 | a Completed parse is the same on every extension |
| ResponseStability.ErrorOverturnedExactly | include/http/response_parser.hpp:306-317 | some extension changes an Error iff some extension makes it Completed iff the buffer is a head and chunks that end inside the data of one more, or right behind it |
| ChunkedBody.HexOfPrint | include/http/response_parser.hpp:284 | the value of a printed hexadecimal size is the size, with any leading zeros and each letter in either case |
| ChunkedBody.EverySpelling | include/http/response_parser.hpp:284 | and every text of hexadecimal digits is such a print of its value |
| ChunkedBody.ReadChunks | include/http/response_parser.hpp:271-331 | printed chunks are read to their end, with a view of each |
| ChunkedBody.FindChunks | include/http/response_parser.hpp:271-331 | a chunked body that completes is a list of chunks and a last one of size zero |
| ChunkedBody.JoinedContent | include/http/response_parser.hpp:306-317 | the recorded views join up to the data of the chunks |
| UriParser.Parser.Parse | include/http/uri_parser.hpp:53-249 | the main loop and what follows it leave result, state and URI as the machine does |
| UriParser.Parser.ParseQueries | include/http/uri_parser.hpp:251-315 | the same of the query loop |
| UriGrammar.ParsesAsWritten | include/http/uri_parser.hpp:53-249 | a URI as written, in any of the authority forms, is recorded in its own places, host and user swapped where a port is met |
| UriLanguage.RoundTrip | include/http/uri_parser.hpp:53-249 | printing and parsing recovers every component, and the port modulo 2^16 |
| UriLanguage.FindWritten | include/http/uri_parser.hpp:53-249 | a parse that finds a path beginning with '/' comes from a URI as written |
| UriLanguage.FoundPathExactly | include/http/uri_parser.hpp:53-249 | the parser completes with such a path iff the buffer is a URI as written |
| UriStubs.CompletedExactly | include/http/uri_parser.hpp:53-249 | the parser completes iff the buffer is a URI as written, or breaks off before the '/' of its path, in the scheme, the slashes or any part of the authority |
| UriStubs.StubParsed | include/http/uri_parser.hpp:240-243 | the whole record of a parse that breaks off: the path reaches from the last piece that began to the end of the buffer |
| UriStubs.StubPieces | include/http/uri_parser.hpp:240-243 | and its texts: the last piece is the path, user and password are those of the login, the host is recorded only when a ':' is behind it |
| UriStubs.HostTakenForPath | include/http/uri_parser.hpp:240-243 | "http://example.com" is Completed without a host, "example.com" its path |
| UriOutcomes.OutcomeExactly | include/http/uri_parser.hpp:53-249 | every buffer: Completed iff a URI as written or one that breaks off before its path, InCompleted iff it ends at the '#' behind a query, Fault iff its port is no int, and Error iff none of these |
| QueryList.ParsesJoined | include/http/uri_parser.hpp:251-315 | parsing a joined list gives back the list |
| QueryList.AcceptedExactly | include/http/uri_parser.hpp:251-315 | a non-empty query text is accepted iff it is a joined list of pairs |
| QueryList.Rejoins | include/http/uri_parser.hpp:251-315 | joining the parsed queries gives back the query text |
| Coroutines.FuelGrows | include/task.hpp:90-101 | direct evaluation does not depend on how much depth it is allowed once that suffices |
| Coroutines.AfterCall | include/task.hpp:90-101 | awaiting a new task leaves the outcome of the whole chain of callers as it was |
| Coroutines.AfterEnd | include/task.hpp:141-155 | handing a value or exception to the last caller does so too |
| Coroutines.AfterIo | include/io_service.hpp:36-48 | resuming with an I/O result does so too |
| TaskRunner.IoService.RunTask | include/io_service.hpp:95-118 | for every body whose direct evaluation ends, run_task terminates with the same value or exception and the same number of I/O results used, and every frame but the root's is destroyed |
| TaskRunner.IoService.Run | include/task.hpp:25-44 | a resume runs to the next I/O or to the end of the root, keeping the chain of continuations and the meaning of what is left |
| TaskRunner.IoService.Await | include/task.hpp:98-101 | the awaiting frame becomes the continuation of a new leaf |
| TaskRunner.IoService.Leave | include/task.hpp:25-37 | a finished frame gives its outcome and control to its continuation, or ends the run if it has none |
| TaskRunner.IoService.Resume | include/task.hpp:141-155 | the awaiting frame takes the result from the promise and destroys the awaited frame |
| TaskRunner.IoService.Complete | include/io_service.hpp:22-30 | a completion hands its result to the leaf, once |
| PoolSteps.StepInv | include/thread_pool.hpp:62-106 | every step of worker, coroutine, kernel and submitter keeps the pool's invariant |
| PoolTheorems.RingInvariant | include/thread_pool.hpp:88-104 | at a worker's wait its set is not empty, each session in it is unfinished and has exactly one outstanding operation, on that ring, at the end of a chain of continuations that leads to the session |
| PoolTheorems.OneWorker | include/thread_pool.hpp:62-73 | no session is in two sets, or run by one worker and kept or run by another |
| PoolTheorems.ResumesAlive | include/io_service.hpp:120-136 | whatever a completion resumes is alive, suspended in exactly that await, and of a session of that worker only |
| PoolTheorems.ResumedWhenCompleted | include/io_service.hpp:120-136 | in every run a frame leaves its I/O await only by the step of the worker of its ring that takes the completion of its own operation, which is then gone; and the kernel had completed it earlier in the run |
| PoolTheorems.CompletedByKernel | include/io_service.hpp:120-136 | an operation is completed only by a step of the kernel |
| PoolTheorems.WaitEndsByCompletion | include/io_service.hpp:120-136 | a worker leaves its wait only with an operation of its ring that the kernel has completed |
| PoolTheorems.DestroysDone | include/thread_pool.hpp:93-100 | what a sweep destroys is done, is all of its session, and nothing waits for it |
| PoolTheorems.GoneForGood | include/thread_pool.hpp:93-100 | a destroyed frame or a taken completion never comes back in any continuation of the run |
| PoolTheorems.ContinuesAlive | include/task.hpp:25-37 | whatever a final_suspend hands control to is alive, suspended in the await of the ending coroutine, and of its session, which no other worker runs; the ended one is then destroyed |
| PoolTheorems.FirstResumeDecides | include/thread_pool.hpp:66-73 | in every continuation of a run, a session done when its first resume comes back is in no set and its frame is never destroyed; one not done enters its worker's set with the worker's next step |
| PoolTheorems.DropReached | include/thread_pool.hpp:66-73 | a run with such a session |
| PoolWorker.WorkerLoop.SweepDone | include/thread_pool.hpp:93-100 | the erasing loop keeps exactly the unfinished sessions, in order, and destroys exactly the others |
| LoggerMachine.TakenExactly | include/log/record.hpp:50-59 | a record gives back its text iff the text fits in it |
| LoggerMachine.QueueInside | include/log/logger.hpp:87-99 | the queue in a logger runs as a queue with the poller as its only consumer |
| LoggerTheorems.AcceptedExactly | include/log/logger.hpp:84-99 | in every run the accepted records are those of the calls at the logger's level or above, in order |
| LoggerTheorems.StepConserves | include/log/logger.hpp:87-127 | every step of a producer, of the poller and of attaching a file conserves the accepted characters |
| LoggerTheorems.Conservation | include/log/logger.hpp:87-127 | in every state an output attached throughout, and the buffer, hold the consumed records in ticket order; one attached later what was written since |
| LoggerTheorems.EmptyBetweenPolls | include/log/logger.hpp:112-127 | if every poll flushes, the buffer is empty between polls |
| LoggerTheorems.DrainedInFull | include/log/logger.hpp:156-160 | once the queue is drained, every accepted record is in every such output once, in order |
| LoggerDrain.LastPollDrains | include/log/logger.hpp:112-160 | from every reachable state with no producer at work, a flushing poll and enough steps of it leave every output attached throughout with all accepted records, once and in order, but for what was in the buffer if there was nothing to take |
| LoggerDrain.FlushedInFull | include/log/logger.hpp:112-160 | with no exception if every poll was to flush |
| AsyncLogger.Logger.Poll | include/log/logger.hpp:112-127 | takes the unbroken run of published records and writes buffer and records when told to or when the buffer is full, and nothing if it took nothing |
| AsyncLogger.Logger.WriteFile | include/log/logger.hpp:101-110 | every output gets the whole buffer, which is then empty |
| AsyncLogger.Logger.Shutdown | include/log/logger.hpp:156-160 | with nobody logging, the last poll takes and writes all that was accepted; if there was nothing to take, what was in the buffer stays unwritten |
| AsyncLogger.PolledAndLost | include/log/logger.hpp:112-160 | a record that is polled without being written, and never is |

## Left out

- MpmcQueue.MPMCQueue.BulkPush: asks for room in the ring and for the other threads to stand still, because its spin has no bound otherwise; the interleaved operation is in QueueMachine and its uint64 form in QueueWords.
- MpmcQueue.MPMCQueue.BulkPop: runs while the other threads stand still, wherever they are; emplace_with, pop, consume, try_emplace and try_pop as class methods are left to the state machines, which have all of their steps.
- AsyncLogger.Logger.Poll: runs while the other threads stand still, wherever they are; polls among other threads' steps are those of LoggerMachine.
- QueueMachine.Step: sequentially consistent interleaving; weaker memory orders, allocation, alignment and the value category of elements are not modelled, and size() reads both counters at once.
- WrappedTickets.CapacityAssertion: a capacity of 0, which the assertion lets through, is left out.
- TaskRunner.IoService.RunTask: a task awaited twice, or awaited once it is done, and a task object moved from, are not modelled; values are integers and a batch of completions has the one that is outstanding.
- PoolMachine.Step: an awaited frame is destroyed when its caller resumes, as a temporary is; sessions await only tasks and I/O of their own connection.
- PoolTheorems.RingInvariant: wake-ups are not modelled, so it is not said that a submitted session is ever run.
- LoggerTheorems.Conservation: setLogFile and the closing of files are left out, as are two pollers at once; records longer than 256 characters would be read beyond their end.
- RequestMultipart.RoundTripExactly: speaks of printed delimiters; for all other multipart bodies RequestOutcomes.OutcomeExactly and MultipartRecorded say what is accepted and recorded.
- ResponseMachine.Step: a header or chunk size is taken to be followed, somewhere behind the buffer, by a NUL, as stoi copies up to it; the value read ends at the '\r'.
- UriParser.Parser.Parse: a Uri that is used again may hold a query text within the parsed buffer, but not one of another buffer.
- RoundUpToNextPowerOf2, which nothing uses and which does not round up in general.
- io_uring, sockets, addresses, files, formatting, clocks, threads and condition variables as such: their results are arbitrary.
- Buffer, Connection, Server, async_file, timeout and sync_wait: thin wrappers.
