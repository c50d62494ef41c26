# Liso, verified

Liso is a single-threaded HTTP/1.1 server: one `select` loop, a pool of
connections, an incremental request parser, static responses from mapped files
and dynamic responses relayed from CGI programs. This project models its state
machine and proves, for every input and every run, what it keeps and where
exactly it falls short.

Verify with `dafny verify dfyconfig.toml` (Dafny 4.11).

## How it is built

There are two layers.

*Values.* `RequestSpec` says what one line does to a request and defines the
parser as a fold over lines; `ConnSpec` says what each function of `conn.c`
makes of a connection; `ServerSpec` has the callbacks, the body of the main
loop and whole runs. Answers of the operating system are arguments: bytes or an
error from a receive or read, the number a send or write returns, the
descriptors that `accept` and `pipe` hand out, what `select` reports. All
theorems about runs are proved on this layer. The layer is parameterised by a
`Grammar`, the meaning of a line: everything above the line level is proved for
every grammar, `LISO` is the server's own, and `IsLiso(g)` says that g is it.

*Objects.* `Buf`, `Request`, `Response`, `Cgi`, `Conn`, `Kernel` and `Pool`
are classes with the fields of the C structures, and their methods are the
loops, early exits and in-place updates of the source. Each method is proved
against its function of the value layer. At the top, `Lisod.RunServer` creates
a pool, runs any number of rounds of the main loop over the objects, and is in
the state that `ServerSpec.Run` computes; so every theorem about runs is one
about the objects. `Lisod.Liso` is the same with the server's own grammar.

| file | part of the server |
|---|---|
| `Text.dfy` | string loops of `utils.c`, character classes, decimal numbers |
| `RequestSpec.dfy`, `PackSpec.dfy`, `Request.dfy`, `RoundTrip.dfy` | `request.c`: lines, parser, printer |
| `Lines.dfy`, `Headers.dfy` | what request lines, fields and blank lines mean, told from their text |
| `Buffer.dfy` | `buffer.c` |
| `ConnSpec.dfy`, `ConnInv.dfy`, `Conn.dfy` | `conn.c`, with `response.c` and the parent side of `cgi.c` |
| `ServerSpec.dfy`, `LoopInv.dfy`, `PoolInv.dfy`, `Pool.dfy`, `Lisod.dfy` | `pool.c` and the callbacks and main loop of `lisod.c` |
| `Leaks.dfy`, `SelectSets.dfy` | descriptors that nobody records, and what `select` is given |
| `Endings.dfy` | when a turn drops its connection, and with which status a request fails |
| `Chunking.dfy`, `Pipelining.dfy` | receiving in pieces, requests back to back |
| `Watch.dfy`, `WatchRuns.dfy`, `StuckRuns.dfy` | what `select` waits for, in a turn, a pass, a run |
| `Relay.dfy`, `Losses.dfy`, `Runs.dfy`, `Limits.dfy` | bytes to programs and clients, and where they are lost or repeated |
| `Files.dfy`, `ErrorPages.dfy`, `Exchange.dfy` | which file answers, error pages, whole answers turn by turn |
| `Scenario.dfy`, `EmptyFile.dfy`, `WideBound.dfy`, `Stranded.dfy`, `CutShort.dfy` | runs with one client that show a leak, a bound too wide, two stalls and a body cut short |

## Results in short

- However a stream is cut into receives, the outcome is that of parsing it in
  one go (`ChunkingIndependent`); requests sent back to back come out one by
  one, none lost or duplicated (`Pipelined`).
- Searching only the newly received bytes for a newline is sound, which answers
  the question at `conn.c:266` (`Conn.ParseReq`, with `Scanned` kept by every
  turn).
- In every state of every run the phases are coupled, buffers are in bounds,
  and the bound given to `select` is large enough (`EveryRun`). The open
  descriptors are the listeners, those recorded in exactly one connection, and
  the lost ones (`Ownership`). There are no lost ones *if and only if* no file
  was opened that could not be mapped and no `pipe` failed behind another
  (`AllAccountedFor`); what is lost is never closed (`LostForEver`). One request
  for an empty file is enough (`EmptyFileLeaks`).
- `select` is never given a descriptor that its sets cannot hold (`SelectSafe`).
  Its bound is exactly the greatest descriptor recorded (`BoundIsMax`), which
  may be too large for the sets after a program could not be started
  (`BoundFits`, an if-and-only-if, and `BoundTooWide`).
- A whole header, given as text, parses to the request that its words and
  fields describe, or fails with 400, 411 or 501 (`RequestMeans`,
  `RequestLineMeans`): the last Host and Content-Length count, any
  "Connection: close" closes, a POST needs a length.
- A turn drops its connection exactly when the client hung up, took nothing of
  what it was offered, or has its whole answer and asked to be closed
  (`TurnDrops`).
- A client that takes at least a byte in every turn has the header and the file
  after at most as many turns as there are bytes, and nothing else
  (`FileAnswered`); whatever a program writes, in whatever pieces, is what the
  client gets (`ProgramAnswered`). A client has the error page and nothing else
  if and only if the first send takes all of it, and can read it if it fits
  into the buffer (`ErrorPageGot`).
- A pass serves every connection exactly once although drops move entries under
  the loop (`ServedOnce`, `Survivors`).
- Every connection is watched at every `select` of a run *if and only if* no
  turn stalls (`NoForgottenConnection`). A turn stalls exactly when a dynamic
  response completes while early bytes hold a whole next request, or a bad one
  whose error page is then taken in part (`ServeWatched`). A whole request is
  found again by the end of the next pass (`RoundWatched`, `LateByOnePass`); a
  bad one never is, until its client is dropped (`StallKinds`, `StuckForGood`).
  `RequestForgotten` and `PageForgotten` are runs of either kind, possible for
  every such pair of inputs.
- In every run and for every request that did not fail: unless its own turns
  lost bytes, it is what its bytes say, its program gets exactly the body and
  its client exactly what the program wrote, or header and file (`EveryByte`).
  `LosslessTurn` says what can lose bytes: a short write or relayed send, a
  receive into a body that is still buffered, a header larger than the buffer.
  For files only the last counts: `EveryFile` holds under any partial sends and
  whatever befalls the other connections.
- `ShortWritesRepeat` and `ShortSendsRepeat` say exactly when bytes are
  repeated, `UndrainedCountsTwice` when body bytes are counted twice and what
  becomes of them; `BodyCutShort` is a run in which a program gets the end of
  its input although bytes of the body are missing.
- Parsing what the printer prints gives the request back with its headers
  reversed, so doing it twice is the identity (`PackedParses`, `PackTwice`);
  `ValueSurvives` gives the exact bound on header values.

Where the code and its comments differ, the model follows the code:
`request.c:127-138` is meant to split an absolute URI but compares the whole
string with the bare scheme; `conn.c:427-430` streams a body in a loop that
writes the same front bytes again after a short write; the write bit that
`lisod.c:507-510` clears "to prevent busy waiting" may belong to the next
request.

## Model

| member | source | states |
|---|---|---|
| Text.StrStrip | utils.c:12-28 | the in-place shifting loop leaves exactly the string without its surrounding white space |
| Text.TrimPadded | utils.c:12-28 | whatever white space is put around a trimmed string comes off again, and nothing else |
| Text.TrimIdempotent | utils.c:12-28 | the result is trimmed, so stripping twice changes nothing more |
| Text.StrNCpy | utils.c:38-41 | copies up to n bytes, stops at a NUL and terminates the copy |
| Text.IsNum | utils.c:30-36 | true exactly for strings of digits, the empty one included |
| Text.AtoiDec | request.c:221 | reading a printed natural number gives it back |
| Buffers.Buf.constructor | buffer.c:14-21 | a new buffer is empty with its cursor at the front |
| Buffers.Buf.Reset | buffer.c:36-39 | cursor and size go back to the front |
| Buffers.Buf.Append | conn.c:239-248 | the bytes received are put behind the end, and the size grows by their number; the bytes in front stay |
| Buffers.Buf.Scribble | conn.c:95-105 | thrown-away bytes change neither cursor nor size |
| RequestSpec.ParseBlock | request.c:82-244 | a parse takes the whole block unless the header ends before or a line is bad; it ends behind a newline; the status is one of 400, 411, 501; a header that ends leaves rsize equal to the body length |
| RequestSpec.ParseBlockConcat | request.c:82-244 | parsing L1 ++ L2 is parsing L1 and then L2: sizes add up, the first bad line decides, nothing behind the blank line is looked at |
| RequestSpec.WholeLinesConcat | conn.c:118-123 | the whole lines of old and new bytes are those of the old bytes and then those of what was left over with the new ones |
| RequestSpec.ParseFromConcat | conn.c:125-143 | more bytes continue the parse where it stopped |
| RequestSpec.OneShotStable | request.c:181-196 | once a header is complete or bad, later bytes do not matter |
| Requests.Request.Reset | request.c:22-35 | every field of the request is as new; last_buf is untouched |
| Requests.Request.ProceedInline | request.c:50-61 | the two scanning loops wrap exactly the next word of the line |
| Requests.Request.ProceedLine | request.c:63-74 | the scanning loops wrap the line without leading blanks, up to its newline |
| Requests.Request.Eol | request.c:76-80 | true exactly at a newline right behind a carriage return; in front of the buffer counts as no carriage return |
| Requests.Request.ParseRequestLine | request.c:89-172 | phase START does to the request what the request line means, with the same status |
| Requests.Request.StoreTarget | request.c:144-151 | type, uri and params follow the target word |
| Requests.Request.ParseHeaderLine | request.c:176-241 | one turn of the header loop does what the header line means |
| Requests.Request.FinishHeader | request.c:181-196 | the blank line fixes the body length, or asks for it with 411 |
| Requests.Request.ParseField | request.c:209-240 | key and value are cut, stripped in place and stored, and data_p passes the newline |
| Requests.Request.FindColon | request.c:201 | the loop stops at the first colon of the line |
| Requests.Request.SetField | request.c:216-237 | Host, Content-Length and Connection are interpreted, every other header is put in front of the list |
| Requests.Request.Parse | request.c:86-244 | the whole index-loop parser equals the fold over lines: request, return value and cursor |
| Requests.Request.Pack | request.c:252-294 | the moving output pointer leaves exactly the printed request, and its size is returned |
| RoundTrip.PaddingIrrelevant | request.c:198-237 | blanks around a key or value within the size bounds do not change what the line does |
| RoundTrip.FirstTextParses | request.c:89-172 | a printed request line is taken apart into exactly its method, uri, version and type, and the header begins |
| RoundTrip.FieldTextParses | request.c:198-240 | a printed header line stores exactly its key and value |
| RoundTrip.PackedParses | request.c:252-294 | parsing the printed request gives every field back, the header list reversed, and takes exactly the printed bytes |
| RoundTrip.PackedParsesLiso | request.c:86-294 | the same for the grammar of the server itself |
| RoundTrip.PackTwice | request.c:252-294 | printing and parsing twice is the identity, header order included |
| RoundTrip.HdrsTextParses | header.c:36-39 | a block of printed headers comes out in reverse order in front of those already there |
| RoundTrip.ValueSurvives | request.c:210 | a printed header value comes back unchanged if and only if it is shorter than HDR_VALSZ |
| Lines.CaseEqMeans | request.c:108-113 | names compare equal exactly if they are the same bytes up to the case of letters |
| Lines.SpaceMeans | request.c:44-61 | six bytes are white space, all but the newline are blanks |
| Lines.RequestLineMeans | request.c:89-172 | a line of three words with any blanks: 501 for an unknown method in any case of letters; 400 unless it ends behind the version with a carriage return and a newline; else method, path, query, version and type are those of the words, cut at their sizes |
| Headers.BlankLineMeans | request.c:176-196 | a line of blanks ends the header if a carriage return is in front of its newline, and is 400 otherwise |
| Headers.NoKeyMeans | request.c:198-207 | a line without a colon, or with nothing in front of it, is 400 |
| Headers.HeaderEnds | request.c:181-196 | the blank line behind any parsed fields: a length given is waited for, a POST without one is 411, anything else has no body |
| Headers.HeaderMeans | request.c:176-241 | for every list of fields: 400 if some length is no number; else the last Host and the last length, closed if any Connection field says so, and the other fields in reverse |
| Headers.RequestMeans | request.c:86-244 | the same for a whole header from its first word to its blank line |
| Conns.Response.Reset | response.c:98-106 | every field of the response is as new |
| Conns.Cgi.ClosePipe | cgi.c:36-41 | an open descriptor is closed and recorded as -1, -1 is left alone |
| Conns.Cgi.Reset | cgi.c:43-54 | all six descriptors are closed and forgotten, the phase is idle |
| Conns.Cgi.Init | cgi.c:148-243 | on success only the parent's three ends stay open and recorded; when nothing is forked all six are recorded; when a pipe() fails the ones made before it stay open and nobody records them |
| Conns.Conn.constructor | conn.c:14-26 | a new connection waits for its request line and has no pipes |
| Conns.Conn.LastLineEnd | conn.c:118-123 | scanning only the new bytes finds the end of the whole lines of everything unparsed |
| Conns.Conn.ParseLines | conn.c:125-143 | the lines are copied out and parsed; data_p follows the parser or stays behind the lines |
| Conns.Conn.ParseReq | conn.c:107-195 | the incremental parse equals a parse of all unparsed whole lines followed by the body accounting |
| Conns.Conn.TakeBody | conn.c:146-183 | phases are switched, the body is counted off, a static body is dropped |
| Conns.Conn.Count | conn.c:163-178 | rsize counts the window down; what is too much is stashed |
| Conns.Conn.Stash | conn.c:168-178 | last_buf holds exactly the bytes behind the body and the buffer loses exactly these |
| Conns.Conn.Recv | conn.c:197-270 | received bytes are appended and parsed; an aborted request or a full buffer ignores them; an error or end of file is fatal |
| Conns.Conn.RecvIgnore | conn.c:95-105 | ignored bytes change nothing that counts, no bytes is fatal |
| Conns.Conn.FindFile | response.c:165-217 | the paths are tried in turn until one maps; every file opened in vain stays open |
| Files.FirstMapped | response.c:185-217 | the file is that of the first path that opens and maps; what was opened before it stays open |
| Files.ThreeTries | response.c:80-84 | the path asked for and both default pages are tried, and no more |
| Conns.Conn.PrepareStaticHeader | conn.c:272-297 | the header of the mapped file is in the buffer, or the error status is reported |
| Conns.Conn.SendErrorPage | conn.c:309-349 | the page is rebuilt and its front offered on every call |
| Conns.Conn.SendHeader | conn.c:356-382 | the cursor moves by what was accepted; the body starts when all was |
| Conns.Conn.SendBody | conn.c:384-408 | at most BUFSZ bytes of the file go out and its cursor moves by what was accepted |
| Conns.Conn.ServeStatic | conn.c:351-411 | one send, chosen by the phase, and the callback that follows it |
| Conns.Conn.InitCgi | conn.c:413-423 | phases after starting a program or failing to |
| Conns.Conn.WriteAll | conn.c:427-441 | the write loop delivers the front of the window again after every short write |
| Conns.Conn.StreamToCgi | conn.c:425-448 | on success the buffer is empty, on failure status 500 |
| Conns.Conn.StreamFromCgi | conn.c:450-465 | what was read replaces the buffer; end of file ends the program's phase; a failed read leaves size -1 |
| Conns.Conn.ServeDynamic | conn.c:467-485 | one send from the front of the window; success only at the program's end with nothing left |
| ConnInv.ParseReqOk | conn.c:107-195 | the parse keeps buffers in bounds, phases coupled and the header scanned, or fails with 400, 411 or 501 |
| Pools.Pool.constructor | pool.c:11-27 | only the listeners are watched, and the bound covers them |
| Pools.Pool.Ready | pool.c:29-32 | the ready sets are the watched ones as far as select reports them |
| Pools.Pool.AddConn | pool.c:46-65 | the connection is the new last one and is read from, or the pool is full and unchanged |
| Pools.Pool.ResetConn | pool.c:94-115 | the connection is as new but for last_buf, its pipes are closed and in no set |
| Pools.Pool.DelConn | pool.c:67-92 | the last connection takes the deleted one's slot and learns its index; the descriptor is closed and in no set |
| Lisod.ConnErr | lisod.c:251-257 | both machines abort with the status and the socket is written to |
| Lisod.DropConn | lisod.c:237-246 | the connection leaves the pool and nothing of it stays open |
| Lisod.ResetOrClose | lisod.c:262-287 | a connection that stays alive starts over with the bytes that came early, parsed at once |
| Lisod.AcceptConn | lisod.c:177-231 | a usable descriptor becomes a new connection while there is room, any other is closed |
| Lisod.LisoRecv | lisod.c:295-296 | receiving with the error and fatality callbacks |
| Lisod.Transitions | lisod.c:439-496 | the transitions between receiving and serving, in the order of the loop |
| Lisod.Respond | lisod.c:498-524 | serving the client, dynamic before static, and clearing the write bit |
| Lisod.Serve | lisod.c:418-524 | one turn of the loop body equals the turn over values and leaves the array consistent |
| Lisod.ServeAlone | lisod.c:418-524 | a turn changes no other connection |
| Lisod.Iteration | lisod.c:414-541 | index and maximum follow the turn, stepping back when the slot was refilled |
| Lisod.ServePool | lisod.c:412-544 | the loop ends and is exactly the pass over values, drops and all |
| Lisod.Round | lisod.c:364-549 | one round of select, accepting and serving is the round over values |
| Lisod.RunServer | lisod.c:364-549 | after any number of rounds the objects are in the state of the run over values, whose invariant holds |
| Lisod.Liso | lisod.c:364-549 | the same for the grammar of the server itself |
| LoopInv.ParsedOk | lisod.c:262-287 | parsing with the error callback keeps the invariant of a connection and disturbs no other descriptor |
| LoopInv.ResetOk | pool.c:94-115 | a reset keeps ownership and gives up exactly the connection's pipes |
| LoopInv.ResetOrCloseOk | lisod.c:262-287 | starting over keeps the invariant, closing releases everything the connection owned |
| LoopInv.SpawnStepOk | cgi.c:148-243 | starting a program, with fresh pipes or none, keeps the invariant |
| LoopInv.StreamStepOk | lisod.c:461-474 | streaming the body and closing srv_out keep the invariant |
| LoopInv.FromCgiStepOk | lisod.c:480-497 | reading the answer and closing srv_in keep the invariant |
| LoopInv.ServeOk | lisod.c:418-524 | a turn keeps buffer discipline, coupling and ownership, touches no other descriptor, and never reads a complete request's socket |
| Endings.RecvDrops | conn.c:197-270 | a receive drops the connection if and only if it fails or finds the end of the stream, also in a failed request and with a full buffer |
| Endings.HangupDrops | lisod.c:418-428 | a client that hung up is dropped in the turn that hears of it |
| Endings.SuccessCloses | lisod.c:262-287 | the success callback closes the connection if and only if the client asked for that |
| Endings.DynDrops | conn.c:467-485 | the client of a program is dropped if and only if it takes nothing of the output, or all was sent and it asked to be closed |
| Endings.StatDrops | conn.c:351-411 | the client of a file or an error page is dropped if and only if it takes nothing, or has all and asked to be closed |
| Endings.TurnDrops | lisod.c:418-524 | a whole turn drops its connection exactly for these reasons |
| Endings.TooLargeFails | conn.c:231-237 | a receive into a full buffer is 400 |
| Endings.FailedIgnores | conn.c:224-228 | bytes for a request that failed change nothing of it |
| Endings.NotFoundFails | conn.c:272-297 | no file is 404; a file has its header ready, with its length and the wish to be closed |
| Endings.SpawnFails | lisod.c:446-450 | a program that cannot be started is 500, one that can is listened to |
| Endings.PipesRecorded | cgi.c:148-190 | a program is started if and only if the fork succeeds and select can watch its pipes; else all six pipes stay open and recorded until the reset closes them |
| Endings.StreamFails | conn.c:425-448 | a write to the program that fails is 500; the body is passed on if and only if the writes take all of it |
| Endings.ReadFails | conn.c:450-465 | output that cannot be read is 500; else it is ready for the client, and the end of it closes the pipe |
| PoolInv.BystanderKept | lisod.c:414-541 | a step of one connection leaves another's invariant and watching as they were |
| PoolInv.ServedOnce | lisod.c:414-541 | a pass serves exactly the connections present at its start, each once and as it was then |
| PoolInv.Survivors | pool.c:67-92 | survivors and dropped connections together are those of the start |
| PoolInv.CoveredIsBounded | lisod.c:526-544 | at the end of a pass every watched descriptor is at most the new maximum |
| SelectSets.BothAccepted | lisod.c:396-410 | each listener that is ready adds one connection, if its descriptor can be watched, its set-up succeeded and there is room |
| SelectSets.SelectSafe | cgi.c:169-172 | in every state of every run the sets given to select hold only descriptors below FD_SETSIZE |
| SelectSets.BoundIsMax | lisod.c:526-544 | after a pass the bound is exactly the greatest of the listeners and the descriptors recorded for reading |
| SelectSets.BoundFits | lisod.c:526-544 | the bound is below FD_SETSIZE if and only if all of these are |
| WideBound.BoundTooWide | cgi.c:169-172 | a run in which it is not, after a program whose pipes cannot be watched |
| PoolInv.EveryRun | lisod.c:364-549 | in every reachable state connections are consistent, descriptors owned, the pool within MAX_CONNS, the bound large enough |
| PoolInv.Ownership | pool.c:46-115 | open descriptors are, disjointly, the listeners, those recorded in live connections, each in one, and the lost ones; read_set and write_set hold only what they may |
| Leaks.ServeLoses | response.c:165-178 | a turn loses a descriptor if and only if it opens a file that cannot be mapped or a pipe() fails behind another |
| Leaks.AllAccountedFor | response.c:165-178 | after a run the open descriptors are exactly the listeners and the recorded ones if and only if no turn lost one |
| Leaks.LostForEver | lisod.c:364-549 | a lost descriptor stays open in every later state |
| EmptyFile.EmptyFileLeaks | response.c:173-175 | a run of two rounds: a request for a file that opens and does not map leaves a descriptor open that nobody records |
| EmptyFile.LeakStays | response.c:173-175 | and it is open whatever follows |
| WatchRuns.TurnWatched | lisod.c:418-524 | the connections served so far are all watched after a turn if and only if it does not stall |
| WatchRuns.RoundWatched | lisod.c:412-544 | one pass is enough: if no connection is stuck, all are watched after it if and only if no turn of it stalls, including those forgotten in the pass before |
| WatchRuns.NoForgottenConnection | lisod.c:364-549 | every connection is watched at every select of a run if and only if no turn of the run stalls |
| StuckRuns.RoundHalf | lisod.c:412-544 | after a pass every connection can be found again by the next one if and only if no turn of it leaves a bad request stuck |
| StuckRuns.LateByOnePass | lisod.c:364-549 | in a run in which nothing sticks, what is not watched stalled in the last pass |
| StuckRuns.StuckForGood | lisod.c:364-549 | a stuck connection is stuck in every later state until it is dropped |
| Watch.ServeWatched | lisod.c:418-524 | a kept connection is watched after its turn if and only if the write bit of a next request was not cleared; it may have been forgotten before |
| Watch.StallKinds | lisod.c:418-524 | a turn leaves a connection that the next pass cannot find if and only if a bad next request has its error page taken in part |
| Watch.ResetWatched | lisod.c:262-287 | a connection that starts over is watched, whatever its early bytes are |
| Stranded.RequestForgotten | lisod.c:499-512 | for every dynamic request with a static one behind it, a run ends with the second complete and its socket in neither set |
| Stranded.FoundAgain | lisod.c:452-459 | one more pass, with nothing ready on the connection, waits on it again |
| Stranded.PageForgotten | lisod.c:499-524 | for every dynamic request with bytes behind it that are no request, a run ends with the error page sent in part and the connection stuck |
| Stranded.NeverFoundAgain | lisod.c:499-524 | and stuck it stays, whatever follows, until it is dropped |
| Stranded.SuchABadOne | lisod.c:499-524 | GET /cgi/a followed by a line "X" is such a case |
| Stranded.SuchAPair | lisod.c:499-512 | GET /cgi/a followed by GET / is such a pair |
| Chunking.ChunkingIndependent | conn.c:197-270 | for every stream and every cutting into receives the verdict is that of one-shot parsing, and last_buf holds exactly the surplus |
| Chunking.ReceiveCanon | conn.c:107-270 | after every receive the connection is determined by the bytes fed so far |
| Chunking.CanonTooLarge | conn.c:231-237 | a header that fills the buffer is rejected with 400 by the next receive |
| Pipelining.Pipelined | lisod.c:262-287 | requests back to back are finished in order and unchanged; every byte fed belongs to a finished request, the current one or last_buf |
| Pipelining.RestartIsReset | lisod.c:262-287 | starting over in a session is what the callback does to the connection |
| Pipelining.DrainedIsStream | conn.c:425-448 | draining is streaming to the program with one full write |
| Relay.BodyAddsUp | conn.c:163-178 | bytes passed on, bytes buffered and bytes missing add up to the declared length |
| Relay.BodyDelivered | lisod.c:461-474 | when srv_out is closed the program has exactly the clen bytes behind the header, and last_buf the rest |
| Relay.StaticResponse | conn.c:356-408 | the client's bytes are always a prefix of header and file and grow with every send; for other than HEAD the success callback comes exactly at the end |
| Relay.HeadResponse | conn.c:373-378 | HEAD is over after the first send, complete if and only if that send took all |
| Relay.AnnouncedLength | response.c:224-260 | the Content-Length a client reads is the number of body bytes behind the header |
| ErrorPages.PageReads | conn.c:309-349 | a page that fits into the buffer reads as its length, its header texts and its body; a page is whole if and only if it fits |
| ErrorPages.PagesSent | conn.c:335-348 | every short send is followed by one from the front; the answer ends with the first send that takes all |
| ErrorPages.ErrorPageGot | conn.c:309-349 | the client has the page and nothing else if and only if the first send took all of it |
| Exchange.FilePrepared | lisod.c:439-459 | a complete request for a file, whatever its method, is promised header and file in the next turn |
| Exchange.FileAnswered | conn.c:356-408 | whatever the client takes in each turn, it has a prefix of the page, is done exactly when it has all, in at most as many turns as bytes, and is then closed or starts over as it asked |
| Exchange.ProgramAnswered | conn.c:450-485 | whatever pieces a program writes, the client gets exactly these bytes and is then closed or starts over as it asked |
| Relay.RelayComplete | conn.c:467-485 | the success callback of a dynamic response comes only after end of file, when the client has all the program wrote |
| Relay.TransitionsDrain | lisod.c:461-474 | after the transitions a dynamic body is never left in the buffer |
| Relay.ServeFaithful | lisod.c:418-524 | a turn keeps request, body and answer exact for a connection whose own turns lost nothing |
| Losses.LosslessTurn | lisod.c:418-524 | a turn loses bytes only by a short write or relayed send, a receive into a buffered body, or a header larger than the buffer, all of its own connection |
| Losses.StaticTurn | lisod.c:418-524 | a request for a file loses bytes only by a header larger than the buffer, whatever the other answers are |
| Runs.EveryByte | lisod.c:364-549 | in every state of every run each request that did not fail and whose own turns lost nothing is what its bytes say, its body and its answer are exact |
| Runs.EveryFile | lisod.c:364-549 | in every run whose response headers fit into the buffer each request for a file is exact, under any partial writes and sends, and the client has a prefix of header and file |
| Limits.ShortWritesRepeat | conn.c:431-442 | every window reaches the program unchanged if and only if the first write takes it all |
| Limits.ServedIsRelayed | conn.c:467-485 | serving a filled buffer until it is free sends it from the front again after every short send |
| Limits.ShortSendsRepeat | conn.c:475-482 | when the buffer is free again the client has got its bytes once if and only if the first send took all of them, and never fewer |
| Limits.UndrainedCountsTwice | conn.c:163-178 | a receive in a dynamic body counts right if and only if the buffer was empty; when the missing bytes arrive, as many bytes as were buffered are cut off the body and kept as the next request |
| CutShort.BodyIsBuffered | lisod.c:262-287 | a run that calls select in the middle of a dynamic body with body bytes in the buffer |
| CutShort.BodyCutShort | conn.c:163-178 | one more receive and the program has the end of its input, short of as many bytes as were buffered; these wait as the next request |
| CutShort.SuchASplit | conn.c:163-178 | HEAD / followed by POST /cgi/a with a body of two bytes is such a run |

## Left out

- Sockets, `select`, `fork`, `execve`, `mmap`, `stat`, signals, daemonizing and the child side of `cgi.c`: only their answers appear, as arguments; an answer the kernel cannot give (a descriptor that is open already) is read as a failure.
- Conns.Conn.Recv: the TLS handshake at `conn.c:199-222` is not modelled; `smart_recv` and `smart_send` give bytes, nothing or an error.
- Lisod.AcceptConn: the TLS set-up is one flag of the environment; the FD_SETSIZE test is modelled.
- Header texts other than Content-Length, error-page texts, default pages, dates, MIME types and CGI environment strings: opaque strings given by the environment. Whether a path opens and maps is given too.
- Requests.Request.ParseRequestLine: a uri that is exactly `http://` or `https://` makes `request.c:127-138` read stale bytes behind the string; the model takes such a uri as it is.
- Requests.Request.StoreTarget: the same uri.
- Requests.Request.Parse: the same uri; a byte is a `char` and only ASCII letters are compared without case; a NUL ends a string exactly as in the source.
- Requests.Request.SetField: a Host value longer than its field of 256 bytes is kept whole, and `atoi` is not cut to 32 bits; the linked header list is a sequence, first header first, whose freeing is not modelled.
- Requests.Request.Eol: a read in front of the buffer counts as "not a carriage return".
- Conns.Cgi.Init: the exit status and the log of the program are not modelled.
- Pools.Pool.Ready: the ready sets are arbitrary subsets of the watched sets, so a reused descriptor may look ready.
- Lisod.RunServer: runs any finite number of rounds, where the source loops forever; freeing connections and `pl_free` are not modelled.
- Bytes that arrive after an error are discarded until the error page is sent; nothing is claimed about requests behind them.
- `cgi_logerr`, `logging.c`, `client.c` and DEBUG blocks.
