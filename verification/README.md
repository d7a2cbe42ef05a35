# A verified model of the HTTP server core

This project models the core of a small HTTP/1.1 server written in C++ and proves what its
design promises, for every input, every cut of the byte stream and every interleaving of its
threads. `dafny verify dfyconfig.toml` checks all of it.

**One connection.** `RequestParser.dfy` is the incremental parser (RequestLine, Headers, Body,
Done) that consumes a buffer in place, and `Connection.dfy` the handler that drains reads,
serves pipelined requests, queues responses and flushes them through partial sends. `recv` and
`send` are oracles: a call receives the list of what they return (chunks, EINTR, then EAGAIN,
FIN or a fatal error; accepted byte counts, EINTR, EAGAIN or a fatal error), so a theorem about
every list is a theorem about every kernel. `RequestGrammar.dfy` says what a request is without
mentioning the parser and proves that the parser accepts exactly that; `FieldReading.dfy` says
what the fields decide, letter by letter. `ParserStability.dfy`,
`ConnectionRuns.dfy`, `Fragmentation.dfy` and `Persistence.dfy` build from single parse calls to
whole connections; `RequestRoundTrip.dfy`, `ResponseStream.dfy` and `ClientFlags.dfy` relate both
directions of the wire format to independent printers and readers, and `Pipelines.dfy` follows
any printed requests to their decoded answers.

**Many connections.** `PoolLoop.dfy` and `ReactorLoop.dfy` are state machines whose steps are
the code between two lock boundaries or system calls, over the kernel of `Kernel.dfy`: open
descriptors, where accept may return any number that is not open, and epoll registrations with
one-shot disarming. A socket carries a serial number the code cannot see, so that descriptor
reuse can be spoken about. `Ledger.dfy` holds the accounting both loops share. The session
modules prove that the calls made on each connection form a legal run of the single-connection
machine, which carries the connection theorems over to the concurrent server.

**The rest.** `LruCache.dfy` and `StackDistance.dfy` (cache and file manager), `FlatJson.dfy`,
`FormCoding.dfy`, `KvStore.dfy` and `KvThreads.dfy` (codecs and bounded store), `Metrics.dfy`
(histogram) and `Router.dfy` (routing and the Allow list). `Counterexamples.dfy` holds the inputs
on which a general promise fails. `Text.dfy`, `Http.dfy` and `Sequences.dfy` hold what
they share.

Bytes are Dafny characters. No law needs codes below 256, so all of them hold of byte strings.

## Where the code does not keep the general promise

Each of these keeps the code as it is, shows an input, and proves exactly when the promise holds.

- A request line of exactly 8192 bytes is refused with 414 when the bytes are cut between its CR
  and its LF, and served otherwise. Input: `Counterexamples.LongLineCutHappens`. Exactly:
  `ParserStability.ParseExtends`, `Fragmentation.ServeClosed`, `Fragmentation.RunDecidedByStream`;
  on the stream alone, `Fragmentation.CutsDoNotMatter`.
- A FIN that arrives in the same drain as data cuts the answers off after the first, and a failed
  `recv` drops them all. Input: `Fragmentation.PipelinedRequestsAndFin`. Exactly:
  `Fragmentation.FinAnswersOne` and `Fragmentation.FailureAnswersNothing` on what is buffered,
  `Fragmentation.RunFollowsStream` on whole runs.
- A HEAD refused before its request line is split is answered with a body, which a client that
  knows it sent HEAD takes for the next response. Inputs: `Counterexamples.HeadWithoutVersion`,
  `Counterexamples.HeadTooLong`. Exactly: `ClientFlags.ClientDecodes`, `ClientFlags.RunDecodes`.
- Accepting a descriptor number that an old event still names breaks token conservation, and two
  workers can then run the handler on one connection. Input: `PoolRuns.ReuseBreaksExclusion`.
  Exactly, for token conservation: `PoolRuns.AssumptionIsExact`. Exactly, for a shared handler:
  `PoolSharing.SharingIsExact`, by which the number must be named by someone not bound to close it.
  The reactors need no such assumption.
- The idle sweep tests `busy` when it lists a connection, not when it closes it, so it can close
  one under a worker's handler although the comment at src/pool_loop.cpp:216 leaves it to the
  worker. Input: `PoolBusy.SweepTakesOwned`. Exactly: `PoolBusy.SweepLists`.
- `jsonEscape` prints other control characters as an unpadded `\u00` escape that `parseFlatJson`
  does not read. Input: `Counterexamples.ControlCharacterIsLost`. Exactly:
  `FlatJson.EscapeRoundTrip`, `KvStore.GetReturnsLastStored`.
- A response with a body and a status that allows none (204, 304, 1xx) cannot be framed by a
  client. Input: `Counterexamples.BodyOn204`. Exactly: `ResponseStream.ReadsWhatIsSerialized`.
- A percentile whose target truncates to 0 reports the first bound whatever was recorded. Input:
  `Counterexamples.MedianOfOne`. Exactly: `Metrics.TargetZeroReportsFirstBound`. (The comment at
  src/metrics.cpp:40 speaks of linear interpolation; the code reports the bucket's bound, and so
  does the model.)
- A path with HEAD registered but not GET lists a method it does not serve. Input:
  `Counterexamples.HeadWithoutGet`. Exactly: `Routing.AllowAgreesWithDispatch`.

## Model

| member | source | states |
|---|---|---|
| `RequestParsing.RequestParser.Parse` | src/http.cpp:191-270 | the parse loop returns the result, the fields and the rest of the buffer that the turn-by-turn specification gives, and terminates on buffer length, then state rank |
| `RequestParsing.RequestParser.OnRequestLine` | src/http.cpp:194-214 | the RequestLine case does one turn of the specification |
| `RequestParsing.RequestParser.OnHeaders` | src/http.cpp:216-254 | the Headers case does one turn of the specification |
| `RequestParsing.RequestParser.Reset` | src/http.cpp:113-119 | the parser is as new |
| `RequestParsing.ParseAll` | src/http.cpp:191-270 | parsing never grows the buffer, completes only in Done, and a completed head has consumed something |
| `RequestGrammar.StartLineExact` | src/http.cpp:121-158 | a start line is accepted exactly when it is the start line of some request, which is the one read; 505 exactly for a proper method and target with another version, 400 for everything else |
| `RequestGrammar.StartStep` | src/http.cpp:194-214 | a line over 8192 bytes is 414, otherwise the start line decides |
| `RequestGrammar.HeaderLineExact` | src/http.cpp:242-253 | a header line is accepted exactly when a colon follows at least one character; 400 otherwise |
| `RequestGrammar.LineStep` | src/http.cpp:216-254 | 431 exactly when the block outgrows 16384 bytes, then 400 or the stored field |
| `RequestGrammar.AllAdded` | src/http.cpp:247-252 | after any field lines a name is stored exactly when some line has it, with all its values in order joined by ", " |
| `RequestGrammar.LengthExact` | src/http.cpp:166-178 | `strtoll` and its checks accept exactly white space, sign, digits and an end or NUL that stand for a length, and saturation cannot bring a length under the limit |
| `RequestGrammar.FinishExact` | src/http.cpp:160-189 | the block is accepted exactly when there is no transfer coding and no length or one of at most 1 MiB; 501, 413 and 400 tell the refusals apart; persistence follows Connection, then the version |
| `RequestGrammar.AcceptsMeant` | src/http.cpp:121-270 | every wire form of a request, followed by anything, is parsed to that request and leaves what follows |
| `RequestGrammar.AcceptedIsMeant` | src/http.cpp:121-270 | whatever is accepted is the wire form of the request it is accepted as |
| `RequestGrammar.ParserIsExact` | src/http.cpp:121-270 | a new parser completes with a request and a remainder if and only if the buffer is a wire form of that request followed by that remainder |
| `FieldReading.LowerIsSameName` | src/http.cpp:9-13 | lower-casing makes two names equal if and only if they differ letter by letter in case alone |
| `FieldReading.HeaderReads` | src/http.cpp:63-66 | for any spelling of a name `header` returns the list of the values given under it in any case |
| `FieldReading.ContainsIsMentions` | src/http.cpp:181-187 | a word is found in a lower-cased field exactly when the field mentions it in some case |
| `FieldReading.HeadDecides` | src/http.cpp:160-268 | what becomes of every request whose start line and fields are within the limits, said of the bytes: 501 for a Transfer-Encoding in any case, 400 or 413 for a Content-Length that is none or too long, more input awaited, or the body, the rest and the persistence the fields ask for |
| `Text.ContainsExact` | src/http.cpp:182-185 | a pattern is found exactly when the text can be cut around it |
| `Text.DigitsCount` | src/http.cpp:169 | digits are ten, in order, and count by tens |
| `Text.TrimExact` | src/http.cpp:15-22 | trimming takes away blanks only, and all of them at both ends |
| `RequestRoundTrip.ParsesWhatIsPrinted` | src/http.cpp:121-270 | printing any well-formed request within the limits, then parsing it with any suffix, returns the request and leaves the suffix |
| `ParserStability.ParseExtends` | src/http.cpp:191-270 | NeedMore: parsing everything equals resuming on the leftover; Complete: same request, more left over; Error: same rejection if and only if the bytes were not cut inside the CRLF of an 8192-byte line |
| `ParserStability.LongLineParses` | src/http.cpp:194-206 | at that cut the shorter buffer is 414 and the longer one is not |
| `ParserStability.HeadersNeverTooLong` | src/http.cpp:216-268 | nothing past the request line is refused with 414 |
| `ParserStability.RestsWithinLimits` | src/http.cpp:191-270 | a call that asks for more leaves a parser that would ask again unchanged, fewer than 1 MiB unparsed, and stored fields that fit in the counted header bytes, themselves within 16 KiB |
| `ConnectionHandling.Connection.AppendResponse` | src/connection_handler.cpp:9-19 | the response is serialised behind what is queued, persistent only if both sides agree, and a closing one marks the connection |
| `ConnectionHandling.Connection.ServeOne` | src/connection_handler.cpp:47-76 | one turn of the parse loop, and that it makes progress |
| `ConnectionHandling.Connection.ServeBuffered` | src/connection_handler.cpp:47-76 | the loop serves what the specification serves and queues exactly the bytes of the answers added |
| `ConnectionHandling.Connection.Drain` | src/connection_handler.cpp:22-41 | the read buffer grows by exactly the received chunks, interrupted calls or not |
| `ConnectionHandling.Connection.Flush` | src/connection_handler.cpp:85-108 | which bytes are accepted, what stays buffered and which action is asked for under any list of send results |
| `ConnectionHandling.Connection.OnReadable` | src/connection_handler.cpp:21-79 | drain, mark on FIN before parsing, serve, flush |
| `ConnectionHandling.Connection.OnWritable` | src/connection_handler.cpp:81-83 | flush |
| `ConnectionRuns.OutputIntegrity` | src/connection_handler.cpp:85-108 | after any calls, bytes sent followed by bytes buffered are the responses in request order; WaitRead only when all is sent, WaitWrite only when not |
| `ConnectionRuns.ActionsDecided` | src/connection_handler.cpp:85-107 | every call of a legal run ends in Close if and only if its drain failed, a send failed or took nothing while bytes were pending, or all is sent on a closing connection; in WaitRead if and only if all is sent and it is open; in WaitWrite otherwise |
| `ConnectionRuns.CloseDelivers` | src/connection_handler.cpp:85-107 | a legal run that ends in Close has sent everything queued if and only if no send of its last flush failed or took nothing while bytes were pending; a failed drain leaves nothing behind |
| `ConnectionRuns.LegalRunsSettle` | src/connection_handler.cpp:47-78 | a connection left waiting holds nothing that parsing again could use, and is bounded |
| `ConnectionRuns.CloseIsLast` | src/connection_handler.cpp:52-75 | a response saying `Connection: close` is the last one queued, and no read follows the decision to close (section 9.6 of RFC 9112) |
| `Persistence.RejectionIs` | src/connection_handler.cpp:52-61 | a refusal has the parser's status, never persists and adds no field |
| `Persistence.RunAsRouted` | src/connection_handler.cpp:9-14 | in every legal run each answer is the router's to the requests so far with persistence kept only if the request and the response both ask for it, or a refusal; and the first that does not persist is the last and leaves the connection closing |
| `Persistence.ClosesBehindAnswer` | src/connection_handler.cpp:52-75 | without a FIN the server closes if and only if the last answer does not persist |
| `Persistence.ToldWhenClosed` | src/http.cpp:101 | every message a client decodes but the last says keep-alive, and the last says close if and only if the server closes behind it |
| `Fragmentation.ServeResumes` | src/connection_handler.cpp:47-76 | serving now and going on later equals serving everything later, while the connection is open |
| `Fragmentation.ServeClosed` | src/connection_handler.cpp:52-75 | once closed, later bytes change nothing, if and only if the buffer did not end at the 8192-byte cut |
| `Fragmentation.FinAnswersOne` | src/connection_handler.cpp:30-33 | a drain that ends in FIN answers the first of what it would have answered, and loses nothing if and only if the buffer is empty, holds no finished request, its first answer closes, or what follows that request is nothing or unfinished |
| `Fragmentation.FailureAnswersNothing` | src/connection_handler.cpp:34-41 | a drain that ends in an error answers nothing, and loses nothing if and only if the buffer finishes nothing |
| `Fragmentation.PipelinedRequestsAndFin` | src/connection_handler.cpp:70-75 | two pipelined requests and a FIN in one drain: only the first is answered |
| `Pipelines.ServesPrinted` | src/connection_handler.cpp:47-76 | a pipeline of any number of printed requests is answered in order as the router answers, up to the first answer that closes |
| `Pipelines.PrintedIsAnswered` | src/connection_handler.cpp:21-108 | the same of every legal run over for what the client prints, however cut, if and only if its last drain lost nothing and it was not cut at the 8192-byte boundary |
| `Pipelines.ClientGetsAnswers` | README.md:113-125 | when a run has read whatever requests a client printed, lost nothing and waits for more, the client has been sent all their answers and decodes them with the methods it sent |
| `Counterexamples.LongLineCutHappens` | src/http.cpp:194-206 | any well-formed request with an 8192-byte start line is routed when it arrives at once and 414 when the first wakeup ends inside that CRLF: two legal runs over one stream with different answers |
| `Counterexamples.LimitRequestFits` | src/http.cpp:197-206 | there is such a request |
| `Fragmentation.RunFollowsStream` | src/connection_handler.cpp:21-108 | every legal run has answered a prefix of what the stream answers when it arrives at once, all of it if and only if the end of its last drain lost nothing, with the same parser and buffer while open |
| `Fragmentation.RunDecidedByStream` | src/connection_handler.cpp:21-108 | a run over for a stream has answered what the stream asks for if and only if the end of its last drain lost nothing and it was not cut at the 8192-byte boundary |
| `Fragmentation.FragmentationInvariance` | README.md:113-117 | any two ways of cutting a stream into wakeups, under any partial sends, route the same requests in the same order and queue the same bytes |
| `Fragmentation.CutsDoNotMatter` | README.md:113-117 | on a stream with no request line of exactly 8192 bytes no two runs that keep data apart from FIN and errors differ, however cut and flushed |
| `ResponseStream.ReadsWhatIsSerialized` | src/http.cpp:97-111 | a Content-Length reader (section 6.3 of RFC 9112) recovers status, fields and body and leaves what follows, if and only if the status allows the body |
| `ResponseStream.ReaderLearns` | src/http.cpp:97-106 | a client that makes anything of a response learns its status, its Content-Type, keep-alive or close as the response persists or not, and the handler's own fields in order |
| `Http.ReasonsAreStandard` | src/http.cpp:25-44 | the reason phrase of each status, "Unknown" for the rest |
| `Http.ErrorIs` | src/http.cpp:84-95 | an error answers with its own status and names it in the body, and closes exactly for 400, 408, 413, 431 and 505 |
| `Http.JsonIs` | src/http.cpp:68-74 | status, type and body of a JSON response |
| `ResponseStream.ReadsAs` | src/http.cpp:97-111 | what a reader makes of any response with its own HEAD flag, right or wrong |
| `ResponseStream.ReadsByFlags` | src/http.cpp:97-111 | a reader with any flags recovers a whole stream of answers if and only if it takes as many bytes of each body as were sent |
| `ResponseStream.ResponsesAreDecodable` | src/connection_handler.cpp:9-11 | with the flags of the requests the server took for HEAD, the concatenated responses of a connection are taken apart into each status, field list and body, in order, if and only if no answer to another request has a body its status does not allow |
| `ClientFlags.VerbSeen` | src/http.cpp:121-139 | the server takes a request for HEAD if and only if the client sent HEAD and the line got split within the limit |
| `ClientFlags.FlagsFollow` | src/connection_handler.cpp:52-75 | the client's flags are the server's if and only if the stream does not end in a HEAD refused before its line was split |
| `ClientFlags.ClientDecodes` | src/connection_handler.cpp:9-11 | a client recovers every answer with the flags it knows if and only if the stream does not end in such a HEAD |
| `ClientFlags.RunDecodes` | src/connection_handler.cpp:21-108 | the same of every legal run that lost no answer, however cut |
| `Counterexamples.HeadWithoutVersion` | src/http.cpp:127-131 | a HEAD without a version is such a HEAD |
| `Counterexamples.HeadTooLong` | src/http.cpp:196-200 | so is any unfinished HEAD line over the limit |
| `Counterexamples.BodyOn204` | src/http.cpp:97-111 | the body of a 204 is read as the next response |
| `Kernel.FittingCallIsLegal` | src/pool_loop.cpp:159-168 | an event that reports what was asked for dispatches to the handler call that was asked for |
| `PoolAccounting.StepAccounts` | src/pool_loop.cpp:91-110 | every step of every thread keeps the descriptor books |
| `PoolAccounting.DescriptorAccounting` | src/pool_loop.cpp:197-249 | in every interleaving, reuse and `stop()` included, open descriptors are the disjoint union of accepted-not-inserted, the table, erased-not-closed and what `stop()` has still to close; `activeConnections` is off by exactly the steps still owed |
| `PoolAccounting.ClosesOnce` | src/pool_loop.cpp:197-207 | a close about to happen hits an open descriptor, the very socket that left the table, and nobody else is about to close it |
| `PoolAccounting.GaugeAtRest` | src/metrics.cpp:31-38 | with no step owed, `activeConnections` is the size of the table |
| `PoolRuns.SocketsAreConserved` | src/pool_loop.cpp:91-249 | over every run no close misses, none hits a socket twice, and the sockets accepted are exactly those closed once and those still open |
| `PoolRuns.AssumptionIsExact` | src/pool_loop.cpp:88-121 | a step keeps one token on each connection if and only if accept does not reuse a number still named by an event and EPOLL_CTL_ADD succeeds on a live connection |
| `PoolRuns.ReuseBreaksExclusion` | src/pool_loop.cpp:147-157 | a concrete run with reuse in which two workers handle one connection |
| `PoolReuse.ReuseCanShare` | src/pool_loop.cpp:88-195 | with two workers or more, accepting a number still named by an event not looked up, or by a worker that may register it again, has a continuation in which two workers handle the new connection |
| `PoolReuse.PatientCall` | src/connection_handler.cpp:21-108 | a handler call asked for by an event that is no hang-up can always ask for more |
| `PoolSharing.SharingIsExact` | src/pool_loop.cpp:88-207 | such a continuation, in which the kernel keeps to its assumptions after the accept, exists if and only if the number is named by someone not bound to close it |
| `PoolReuse.Finishes` | src/pool_loop.cpp:147-207 | whatever a worker is at, it can come back to the queue, leaving the connection under a number it has nothing to do with in the table |
| `PoolTokens.StepKeepsOneToken` | src/pool_loop.cpp:131-207 | every step moves the token of a connection and never makes or loses one |
| `PoolTokens.SoleHolder` | src/pool_loop.cpp:114-115 | a thread holding a token excludes every other thread, every queued event and every registration |
| `PoolSessions.StepKeepsSessions` | src/pool_loop.cpp:147-195 | every step keeps registrations, events and threads in agreement with the connection's last action |
| `PoolTurns.WorkerDecides` | src/pool_loop.cpp:159-195 | from the handler to the registration: the worker goes on to close if and only if the event is a hang-up or error, the handler asks to close or the registration fails, and otherwise arms for output if the handler waits to write and for input if it waits to read |
| `PoolTurns.CloserDecides` | src/pool_loop.cpp:197-203 | closing takes out of the table what is there under the number, or does nothing |
| `PoolTurns.DetachDecides` | src/pool_loop.cpp:204-206 | then out of the epoll set, the kernel's table and the gauge, in this order |
| `PoolTurns.EventsInOrder` | src/pool_loop.cpp:114-145 | events reach the workers in the order epoll reported them, none lost or made up |
| `PoolSessions.TokenConservation` | src/pool_loop.cpp:88-207 | in every interleaving each connection in the table has exactly one token (being added, armed, in the batch, queued or held) and has seen a legal run |
| `PoolSessions.HandlersAreExclusive` | src/pool_loop.cpp:114-115 | no two workers handle one connection, nor is its event anywhere else meanwhile |
| `PoolSessions.ClientsAreServed` | src/pool_loop.cpp:147-195 | each client of the concurrent server gets output integrity, fragmentation invariance, a closing response last and nothing stranded |
| `PoolBusy.BusyMeansOwned` | src/pool_loop.cpp:147-173 | `busy` is set exactly on the connections a worker owns |
| `PoolBusy.SweepLists` | src/pool_loop.cpp:209-226 | no worker owns a connection when the sweep lists it; when the sweep takes it, a worker owns it exactly when `busy` has been set since |
| `PoolBusy.SweepTakesOwned` | src/pool_loop.cpp:214-225 | a concrete run, with no descriptor reused, in which the sweep takes a connection from under a handler |
| `ReactorLoop.TablesPartition` | src/reactor_loop.cpp:80-161 | in every interleaving of N reactors the tables and what each has in hand partition the open sockets, and the shared gauge is exact |
| `ReactorLoop.TablesAreDisjoint` | src/reactor_loop.cpp:96-114 | no descriptor is in two tables |
| `ReactorTurns.TurnDecides` | src/reactor_loop.cpp:116-144 | a connection leaves the table if and only if its event is a hang-up or error, the handler asks to close or the registration fails; otherwise it is registered for output if the handler waits to write and for input if it waits to read |
| `ReactorTurns.SweepDecides` | src/reactor_loop.cpp:163-174 | the sweep takes out the connections it listed |
| `ReactorTurns.CloserDecides` | src/reactor_loop.cpp:154-161 | and they leave the epoll set, the kernel's table and the gauge in this order |
| `ReactorTurns.NoneForgotten` | src/reactor_loop.cpp:106-111 | in every interleaving in which registrations succeed each connection in a table is registered or being added |
| `ReactorRuns.SocketsAreConserved` | src/reactor_loop.cpp:96-161 | over every run of N reactors no close misses, none hits a socket twice, and the sockets accepted are exactly those closed once and those still open |
| `ReactorSessions.ReactorsKeepSessions` | src/reactor_loop.cpp:80-174 | with reuse allowed, events in a batch name the connection they were reported for, and each connection sees a legal run |
| `ReactorSessions.EventsReachTheirConnection` | src/reactor_loop.cpp:116-120 | the skip of an unknown descriptor never happens to a client, and no event reaches a connection accepted later in the batch |
| `ReactorSessions.ClientsAreServed` | src/reactor_loop.cpp:116-144 | each client gets the connection theorems, with no assumption on reuse |
| `LruCache.LRUCache.constructor` | src/lru_cache.cpp:3-4 | empty; a capacity of 0 becomes 1 |
| `LruCache.LRUCache.Get` | src/lru_cache.cpp:6-18 | list and index refine the recency order: a hit moves to the front and returns its value, a miss changes nothing but its counter |
| `LruCache.LRUCache.Put` | src/lru_cache.cpp:20-36 | an old key is overwritten and moved, a new one pushes out the least recent beyond capacity |
| `LruCache.LRUCache.PushFront` | src/lru_cache.cpp:29-30 | the new entry is in front and indexed |
| `LruCache.LRUCache.PopBack` | src/lru_cache.cpp:32-35 | the last entry leaves list and index together |
| `LruCache.FileManager.ReadFile` | src/file_manager.cpp:9-34 | cache first, then the file system, the empty string when neither has it; a file is cached exactly when it could be read; every call is one hit or one miss |
| `StackDistance.CacheIsTopOfStack` | src/file_manager.cpp:9-34 | the cache is always the top of the unbounded recency stack, holding the files' contents |
| `StackDistance.AboveIsSince` | src/lru_cache.cpp:13-14 | what lies above a path on the stack is exactly what was read since |
| `StackDistance.HitsByDistance` | src/file_manager.cpp:9-34 | a path hits if and only if it is readable, was read before, and fewer than `capacity` distinct other readable paths were read since |
| `StackDistance.LargerCacheIncludes` | src/lru_cache.cpp:20-36 | a larger cache holds everything a smaller one does |
| `StackDistance.HitsMonotone` | src/lru_cache.cpp:6-18 | hits never fall as capacity grows |
| `StackDistance.ReadAll` | src/file_manager.cpp:9-34 | a session of the file manager ends in the cache and the hit count the theorems speak of, and every read counts as one hit or one miss |
| `FlatJson.JsonEscape` | src/api.cpp:5-24 | the loop computes the character-wise escaping |
| `FlatJson.SkipSpace` | src/api.cpp:61-65 | the index stops at the first character that is not white space |
| `FlatJson.ReadString` | src/api.cpp:67-93 | the index loop reads what the grammar's scanner reads, and fails exactly when it does |
| `FlatJson.ReadPair` | src/api.cpp:112-129 | one member of an object |
| `FlatJson.ParseFlatJson` | src/api.cpp:96-141 | the object loop; on failure no field is returned |
| `FlatJson.ParserIsExact` | src/api.cpp:96-141 | `ok` if and only if some prefix of the text derives from the object grammar, and the result is the last-wins map of any such derivation |
| `FlatJson.EscapedIsItems` | src/api.cpp:5-24 | escaped text always derives from the string grammar, and means the text if and only if it is clean |
| `FlatJson.EscapesAs` | src/api.cpp:5-24 | what each character is printed as, the hexadecimal digits of a control character being those of its code |
| `FlatJson.EscapeRoundTrip` | src/api.cpp:5-93 | an escaped string is always read up to its closing quote, and back to itself if and only if its only control characters are \n, \r and \t |
| `FlatJson.PrintedObjectParses` | src/api.cpp:5-141 | clean pairs printed through the escaper with any white space, followed by anything, parse back to those pairs |
| `FormCoding.UrlDecode` | src/api.cpp:26-44 | the loop computes percent decoding, plus for space, malformed triplets kept |
| `FormCoding.ParseFormEncoded` | src/api.cpp:46-58 | the split at ampersands and at the first equals sign |
| `FormCoding.QueryParam` | src/http.cpp:46-61 | the position loop finds the first piece with that raw name |
| `FormCoding.DecodesUnits` | src/api.cpp:26-44 | decoding inverts any way of encoding each character (section 2.1 of RFC 3986) |
| `FormCoding.PercentRoundTrip` | src/api.cpp:33-38 | any bytes written as triplets, in either case of digits, are decoded to themselves |
| `FormCoding.DecodesLoosely` | src/api.cpp:26-44 | malformed triplets are kept: text in which a percent sign stands for itself unless two hexadecimal digits follow decodes to what it says |
| `FormCoding.WritesLoosely` | src/api.cpp:26-44 | every text is written so |
| `FormCoding.AnyTextParses` | src/api.cpp:46-58 | every text splits into pieces at ampersands; the form is the last-wins map of those with an equals sign, and a query parameter the first with that very name |
| `FormCoding.FormRoundTrip` | src/api.cpp:46-58 | any valid encoding of a list of pairs decodes to their last-wins map |
| `FormCoding.QueryFindsFirst` | src/http.cpp:46-61 | on any encoded list the query parameter is the first value whose name is written that way |
| `FormCoding.QueryAgreesWithForm` | src/http.cpp:46-61 | for names that need no encoding and are not repeated both agree |
| `KvStore.Store.Get` | src/api.cpp:159-169 | the response for every key, empty, absent or present |
| `KvStore.Store.Put` | src/api.cpp:171-205 | JSON or form body, all refusals, the new contents and the response |
| `KvStore.Store.Commit` | src/api.cpp:186-204 | the part of put under the lock and the checks before it |
| `KvStore.Store.Remove` | src/api.cpp:207-216 | the new contents and the response of the specification |
| `KvStore.GetDecides` | src/api.cpp:159-169 | 200 exactly for a nonempty key last put and not removed, 404 exactly for another nonempty key, 400 for the empty one |
| `KvStore.RemoveDecides` | src/api.cpp:207-216 | the same of a remove, after which a get finds nothing |
| `KvStore.PutDecides` | src/api.cpp:171-205 | 400, 413, 507, 201 and 200 told apart exactly, and a get right after an accepted put sends the same body |
| `KvStore.WantsJson` | src/api.cpp:175-187 | a JSON body asks for the last "key" and "value" of the object it begins with, and is malformed without one |
| `KvStore.WantsForm` | src/api.cpp:182-187 | any other body is a form |
| `KvStore.PutsWhatGetSends` | src/api.cpp:168-187 | the body of a get can be put again |
| `KvStore.StoreStaysBounded` | include/api.h:13-15 | after any operations at most 50 entries, keys of 1 to 64 bytes, values of at most 256 |
| `KvStore.StoreHoldsLastStored` | src/api.cpp:159-216 | the store is the last accepted put not removed since, key by key |
| `KvStore.FullOnlyForNewKey` | src/api.cpp:196-200 | 507 if and only if the key is acceptable and new and the store holds 50 entries |
| `KvStore.BodyParses` | src/api.cpp:168-204 | the body sent back always parses, and to the very pair if and only if both strings are clean |
| `KvStore.GetReturnsLastStored` | src/api.cpp:159-169 | a get succeeds exactly for a key put and not removed, and its body then parses to the last value put, if and only if key and value are clean |
| `KvThreads.StoreIsAtomic` | src/api.cpp:159-216 | in every interleaving of threads the map is what the committed operations make of it in order, every reply is that of its whole operation at one moment between its call and its return, and every commit is the moment of exactly one reply |
| `KvThreads.ThreadsSeeLastStored` | src/api.cpp:159-169 | a returned get succeeded exactly for a key put and not removed at its moment, and its body parses to the value last put by then if and only if key and value are clean; the map is bounded at all times |
| `Counterexamples.ControlCharacterIsLost` | src/api.cpp:5-24 | a put of character 1, accepted, whose get parses to something else |
| `Metrics.Metrics.RecordRequest` | src/metrics.cpp:9-29 | totals, status class and histogram are those of the records so far plus this one |
| `Metrics.Metrics.Bump` | src/metrics.cpp:23-28 | exactly the first bucket whose bound is not exceeded grows |
| `Metrics.Metrics.ConnectionOpened` | src/metrics.cpp:31-34 | gauge and total grow by one |
| `Metrics.Metrics.ConnectionClosed` | src/metrics.cpp:36-38 | the gauge falls by one |
| `Metrics.Metrics.Percentile` | src/metrics.cpp:42-56 | the scan reports the bound of the chosen bucket, 1,000,000 µs for the open-ended one, 0 without requests |
| `Metrics.ClassesSumToTotal` | src/metrics.cpp:13-21 | the status classes split the requests |
| `Metrics.ClassesAreRanges` | src/metrics.cpp:13-21 | the classes count the statuses below 400, from 400 to 499, and from 500 |
| `Metrics.SumCounts` | src/metrics.cpp:48-49 | the running sum over the buckets is the number of latencies within the bound |
| `Metrics.BucketsSumToTotal` | src/metrics.cpp:23-28 | every request is in exactly one bucket |
| `Metrics.ChosenHoldsRank` | src/metrics.cpp:42-56 | for every target from 1 to the total the bucket chosen holds the target-th smallest latency, whatever order they came in |
| `Metrics.ReportsBound` | src/metrics.cpp:42-56 | what is reported is the smallest of the finite bounds that is not below the target-th smallest latency, 1,000,000 µs when all are |
| `Metrics.PercentileMonotone` | src/metrics.cpp:42-56 | on a fixed snapshot the report does not fall as the fraction grows |
| `Metrics.TargetInRange` | src/metrics.cpp:46 | the target is the fraction of the total, truncated, and at most the total for a fraction of at most 1 |
| `Metrics.TargetZeroReportsFirstBound` | src/metrics.cpp:46-53 | a target of 0 reports the first bound, which is the bucket of a recorded latency if and only if the first bucket is not empty |
| `Counterexamples.MedianOfOne` | src/metrics.cpp:42-56 | one request of 1000 µs has a reported median of 50 µs |
| `Routing.Router.Add` | src/router.cpp:3-6 | the route is set and its path known, and known paths are exactly those with a route |
| `Routing.Router.SetFallback` | src/router.cpp:8-10 | the fallback is set |
| `Routing.Router.AllowValue` | src/router.cpp:23-34 | the list is that printed by visiting every route once, in some order |
| `Routing.Router.Route` | src/router.cpp:12-43 | handler, 405 with the Allow value, fallback or 404 |
| `Routing.PrintsNames` | src/router.cpp:23-34 | the loop prints the names of the path's routes, HEAD behind GET, joined by ", " |
| `Routing.SplitsJoined` | src/router.cpp:23-34 | splitting the printed list at commas gives back the names |
| `Routing.AllowAgreesWithDispatch` | src/router.cpp:12-43 | on a known path the listed methods are exactly those that dispatch, if and only if HEAD is not registered without GET (section 15.5.6 of RFC 9110) |
| `Counterexamples.HeadWithoutGet` | src/router.cpp:12-43 | a path with HEAD alone lists HEAD and answers it with 405 |

## Left out

- Thread loops as running code: the pool and the reactors are state machines over values, as
  their interleavings need; the fields they share are updated in place in the C++, and a handler
  call is one step, which the exclusivity theorem justifies.
- Leaving the accept loop, `epoll_wait` failures, thread joins and condition variables: `stop()`
  is modelled for safety only, and the modelled threads may go on after it, which only adds
  interleavings. For the same reason the pool's `epoll_wait` is a series of single reports, and
  the sweep may come at any time and list any connection that is not busy, whatever the clock says.
- PoolSessions.ClientsAreServed: assumes that accept does not reuse a number still named by an
  event and that EPOLL_CTL_ADD succeeds; PoolRuns.AssumptionIsExact shows that no weaker
  assumption keeps the invariant.
- Fragmentation.FragmentationInvariance: the router's answer depends on the requests of the
  connection so far, as a function; a router that answers from shared state is covered by
  ConnectionRuns and the accounting theorems only.
- ResponseStream.ResponsesAreDecodable: the reader insists on exactly one Content-Length, and the
  header text must hold no LF and no extra framing field.
- Response statuses are natural numbers, and counters are unbounded: 64-bit wrap-around is not
  modelled.
- Metrics.Metrics.Percentile: exact real arithmetic in place of double, and a snapshot in place of
  relaxed loads taken while other threads record.
- LruCache.FileManager.ReadFile: one reader at a time over a fixed file system; two threads that
  miss on one path at once, and negative capacities, are not modelled.
- Routing.Router.AllowValue: `std::map` visits the routes in key order; any order is allowed here.
- The calls to the logger and to `recordRequest` inside the connection handler, which do not
  influence what is answered.
- `KvStore::list`, `Metrics::toJson` and other text with no reader in the C++.
- Static files, MIME types, path resolution, the logger, configuration, socket set-up and `main`:
  they rest on the operating system or would add only easy members.
