# Verified models of the RethinkDB Python driver

A Dafny 4.11 model of the parts of the RethinkDB Python driver and its import and export tools that
are easiest to get wrong: protocols in which messages cross, parsers that run over partial data, the
construction of queries from host functions, the two passes of the error printer, and the loops that
schedule work. `dafny verify dfyconfig.toml` checks everything.

Objects whose methods update fields are classes here too. Each of their methods is proved equal to a
function on values, and what the driver promises is proved about that function, or about a state
machine that interleaves it with the other parties.

| files | what they model |
|---|---|
| `Wrappers`, `ByteStrings` | shared datatypes |
| `Protocol`, `Connection` | cursors and connections of `rethinkdb/net.py`, as functions and as classes |
| `Multiplexing`, `MultiplexingProofs`, `MultiplexingTheorems`, `Requests`, `CallsAreRuns` | many cursors, one socket, one server: every interleaving, what is written in it, and what each call returns |
| `JsonText`, `JsonTextProofs`, `JsonImport`, `JsonLimit`, `JsonExport`, `JsonLines`, `JsonArrays` | the sliding buffer of the JSON importer, its limit, and the exporter it undoes |
| `ImportPipeline`, `ImportPipelineProofs` | reader, writer and main processes around a bounded queue |
| `Functions`, `FunctionsProofs`, `FunctionIds`, `FuncTerms` | host functions compiled to FUNC and VAR terms, with queries that are used in several places |
| `ValueEncoding` | host data sent as terms and decoded from the answer |
| `QueryPrinter`, `QueryPrinterProofs`, `QueryPrinterWidths`, `QueryPrinterText` | the printed query and the carets under it |
| `Framing`, `TwistedProtocol`, `Fragmentation` | frames and handshake messages from arbitrary chunks |
| `KeyDerivation`, `Scram`, `ScramProofs` | the SCRAM-SHA-256 client (RFC 5802) |
| `ScramOverTwisted` | that client behind the chunks of the Twisted protocol |
| `AsyncioConnection`, `AsyncioTheorems` | the futures of the asyncio connection |
| `ExportResume` | an export that survives lost connections |
| `IndexRebuild` | the index rebuild scheduler |
| `ProtoConverter`, `ProtoRendering`, `ProtoReading`, `ProtoNames`, `ProtoReadBack` | the .proto converter and readers for its output |

## Where a promise has an exception

Each of these is a theorem below, with the exact condition and a run or an input that shows it.

- A cursor can wait for rows that nobody will send: an empty partial batch that answers a CONTINUE
  while a batch is buffered sets the threshold to zero, and no CONTINUE is ever sent again
  (`MultiplexingTheorems.StuckExactly`, `.StarvedReaderStaysStuck`; run: `.EmptyBatchesStarveAReader`).
- An exported table without rows cannot be imported from its ndjson file (`JsonExport.ExportedFileLayout`;
  the empty file is the input, `JsonExport.ExportThenImport`).
- The importer's buffer limit: an ndjson file reaches it exactly if a row is longer than the limit and
  one. An array can also reach it when all its rows are shorter, if the buffer happens to end just
  before the closing bracket: that is decided by the lengths of its rows in their order, and of the
  same rows one order fits and another does not (`JsonExport.NdjsonFits`, `JsonArrays.ArrayFitsExactly`;
  input: `JsonArrays.OrderDecides`).
- A query object that holds a function and is used twice puts the same FUNC with the same ids into the
  term twice (`FunctionIds.BoundIdsDistinctExactly`; input: `.FunctionUsedTwice`). It means what it
  should all the same (`FunctionsProofs.CompilingPreservesMeaning`), as no FUNC stands inside another
  with one of its ids (`FunctionIds.BuiltIsWellNested`).
- The caret line cannot be printed when the frames of a backtrace enter a `Var`, and drifts as text at
  infix operators of more than one character (`QueryPrinterProofs.CaretsAlign`, input:
  `.NoCaretsInsideVar`; `QueryPrinterWidths.WidthsAgreeExactly`, input: `.CaretsUnderEquals`).
- The Twisted handshake feeds its state machine every zero-terminated message of a chunk, also those
  after the last one of the handshake, and then loses the connection (`Fragmentation.HandshakeInChunks`,
  `.LostExactly`; input: `ScramOverTwisted.SurplusLosesConnection`).
- An asyncio query whose coroutine starts while the connection is closing, and that is neither answered
  nor closed over afterwards, has a future that nobody completes (`AsyncioTheorems.UncompletedExactly`;
  run: `.LateQueryWaitsForEver`).
- A user name that is not ASCII cannot start a handshake (`ScramProofs.NamesThatStart`; input:
  `.AccentCannotStart`).
- An export whose first cursor fails before its first row is refused when it resumes
  (`ExportResume.ResumedExport`; input: `.RefusedBeforeFirstRow`).
- An index for which another process creates a temporary index with another function, between the
  wipe-out of such indexes (`rethinkdb/_index_rebuild.py:121-132`) and the loop, is rebuilt with that
  function (`IndexRebuild.WhenAllAreDone`; input: `.TakesOver`).
- A dictionary marked as a pseudo-type does not come back as it was sent (`ValueEncoding.ValueRoundTrip`;
  input: `.MarkedDictionaryIsRefused`).
- A message, a name or a value that is a keyword of Ruby or Python where the language takes none, or a
  name that starts with a digit, or a Ruby module in lower case, is converted to a file that does not
  read back (`ProtoReadBack.RubyReadsBack`, `.PythonReadsBack`; input: `.ReservedNamesDoNotRead`).

## Assumptions about the other side

The server of `Multiplexing` sends one reply per request that expects one, in any order and with any
content. The server of `Functions` takes `r.row` to be the argument of the nearest enclosing
one-parameter function. `ScramProofs.Lawful` says that base64 decodes what it encodes to ASCII without
commas; HMAC and SHA-256 are arbitrary functions to 32 bytes. `ExportResume` takes a lower bound of
null to be refused by `between`, as the documentation has `r.minval` for an open bound. The servers of
`IndexRebuild` and `ImportPipeline` do what they are asked to. The type codes of `ql2_pb2` are not part
of this model, but for MAKE_ARRAY, which is 2.

## Model

| member | source | states |
|---|---|---|
| Connection.Cursor.constructor | rethinkdb/net.py:187-201 | a new cursor is cached, asks for the next batch before it looks at its first response, and leaves the cache if that response ends it: the connection afterwards is the value-level one |
| Connection.Cursor.MaybeFetchBatch | rethinkdb/net.py:303-310 | a CONTINUE is written, and counted, exactly when there is no error, fewer rows than the threshold and nothing outstanding; no other cursor changes |
| Connection.Cursor.ExtendInternal | rethinkdb/net.py:235-247 | the threshold, the rows, the error and the removal from the cache, for every response type, on one cursor and on no other |
| Connection.Cursor.Extend | rethinkdb/net.py:228-233 | a reply is counted off, the next batch is asked for with the old buffer, and only then is the reply taken in |
| Connection.Cursor.Close | rethinkdb/net.py:209-214 | closing a cursor without error gives it the error of an empty cursor and, if the connection is open, writes one STOP and counts it; a cursor that has ended is left alone, and so is every other |
| Connection.Cursor.GetNext | rethinkdb/net.py:328-335 | the loop of `_get_next` with the frames it reads for other cursors equals the recursive description that the run theorems use |
| Connection.ConnectionInstance.FailAll | rethinkdb/net.py:544-550 | closing puts an error on every cached cursor without one, on no other cursor, and empties the cache |
| Connection.ConnectionInstance.ReadFrame | rethinkdb/net.py:600-615 | one frame goes to its cached cursor, to the waiting caller, closes the connection, or is dropped when closing |
| Connection.ConnectionInstance.ReadResponse | rethinkdb/net.py:580-615 | frames are read up to the first that settles the wait, each handled as `ReadFrame` says |
| Connection.ConnectionInstance.Close | rethinkdb/net.py:544-558 | all cursors fail first; with `noreply_wait` the socket is closed only after its answer |
| Connection.ConnectionInstance.RunQuery | rethinkdb/net.py:560-578 | one request is written and, unless it wants no reply, frames are read up to its own response, whose type decides the result: `QueryIsARun` says how |
| Protocol.StrayFrameBreaksConnection | rethinkdb/net.py:600-615 | whatever the server sends: while the connection is open no frame is swallowed; every frame read is for the caller or a cached cursor, or the call ends with the connection closed and an error on every cursor |
| Protocol.FailIsDummyReply | rethinkdb/net.py:296-301 | failing a cursor is giving it an error and then an empty final reply |
| MultiplexingProofs.StepKeepsInv | rethinkdb/net.py:187-335 | every step of client, server or caller keeps, for every token: sent = received + in flight, the counter, the cache and the delivered rows |
| MultiplexingTheorems.MultiplexingSafety | rethinkdb/net.py:187-310 | in every run of an open connection `outstanding_requests` is the number of replies in flight (at most 2, at most 1 without error), a cursor is cached exactly while something may arrive for it, and no response is unexpected |
| MultiplexingTheorems.OrderedDelivery | rethinkdb/net.py:209-247 | rows returned plus rows buffered are the rows of the replies heard before any close, a prefix of the server's stream; an error is raised only when nothing is buffered, a clean end only after the whole stream |
| MultiplexingTheorems.EndedCursorIsSilent | rethinkdb/net.py:235-247 | in every run nothing that happens after a cursor ended or was closed adds a row to it or changes its error |
| MultiplexingTheorems.WaitIsAnsweredUnlessStarved | rethinkdb/net.py:328-335 | a reader at the socket has a reply in flight if and only if its cursor is not starved |
| MultiplexingTheorems.NoStuckWait | rethinkdb/net.py:303-310 | if every reply read so far, but for the first, carried a row, a reader at the socket has a reply in flight, whatever is still on the wire |
| MultiplexingTheorems.StarvedExactly | rethinkdb/net.py:228-239 | the reply that starves a cursor is exactly an empty partial batch that finds at least a threshold of rows buffered |
| MultiplexingTheorems.StuckExactly | rethinkdb/net.py:228-335 | over every run: a reader at the socket has nothing in flight if and only if the last reply read for its token was not its first, was an empty partial batch, and found at least a threshold of rows buffered |
| MultiplexingTheorems.ThresholdIsLastBatch | rethinkdb/net.py:235-239 | the threshold of a cursor without error is the size of the last batch it was given |
| MultiplexingTheorems.StarvedReaderStaysStuck | rethinkdb/net.py:303-335 | the reader of a starved cursor waits in every continuation in which it does not give up |
| MultiplexingTheorems.EmptyBatchesStarveAReader | rethinkdb/net.py:235-239 | a run from the start that ends with a reader waiting and nothing in flight |
| Requests.RequestsForToken | rethinkdb/net.py:209-310 | over every run: what is written for a token is the request that draws it, then CONTINUEs, and then one STOP if and only if the caller closed its cursor while it had no error and the connection was open |
| Requests.NothingAfterError | rethinkdb/net.py:303-310 | over every run: once a cursor has an error nothing is written for its token, no CONTINUE and no STOP |
| Requests.RequestsAreAnswered | rethinkdb/net.py:228-310 | over every run: the requests written for a token that expect a reply are as many as the replies read and the replies in flight |
| Requests.EndsForOneReason | rethinkdb/net.py:209-301 | over every run: a cursor gets its error from the caller's close, from the closing of the connection, or from a final reply with its token, the error says which, and it never changes |
| CallsAreRuns.QueryIsARun | rethinkdb/net.py:560-578 | `run_query` is a run of the state machine; it returns once exactly one reply was read for its token, and that reply fixes the result: the first datum of an atom or server info, an error if there is none, a cursor with the rows of the reply exactly for the two kinds of sequence, nothing for WAIT_COMPLETE, failure with its type for every other reply |
| CallsAreRuns.GetNextIsARun | rethinkdb/net.py:328-335 | `_get_next` is a run that delivers exactly the row it returns, raises exactly the error of the cursor, or goes on waiting, and never meets an unexpected frame |
| CallsAreRuns.CloseIsARun | rethinkdb/net.py:544-558 | `close` is a run of the state machine; it returns with the socket closed, and with `noreply_wait` not before exactly one reply to its request was read |
| JsonTextProofs.ValueRoundTrip | rethinkdb/_export.py:208-215 | decoding what `json.dumps` printed gives the value and exactly the text after it, for nested values with escapes and surrogate pairs |
| JsonTextProofs.ValueStable | rethinkdb/_import.py:563-570 | text that follows does not change what was decoded, but for a number at the very end |
| JsonTextProofs.PrefixFails | rethinkdb/_import.py:563-570 | no proper prefix of a printed object decodes, so a row cut by the buffer is never mistaken for a row |
| JsonTextProofs.ObjectDecodes | rethinkdb/_import.py:564-568 | a printed object followed by anything decodes to the object and leaves the rest |
| JsonImport.JsonSourceFile.constructor | rethinkdb/_import.py:491-501 | the buffer starts consistent with the file, nothing read |
| JsonImport.JsonSourceFile.FillBuffer | rethinkdb/_import.py:503-533 | the text pending is unchanged by doubling, shifting and reading; the size doubles up to the maximum exactly when nothing was taken from the buffer, the limit error comes exactly when it is the maximum already, and the assertion is unreachable when the maximum is at least the chunk size |
| JsonImport.JsonSourceFile.Slide | rethinkdb/_import.py:528-533 | shifting and appending keep buffer plus unread text, with the end marker one short |
| JsonImport.JsonSourceFile.GetLine | rethinkdb/_import.py:535-570 | the row and the position after it are a function of the buffered text, or more data is asked for |
| JsonImport.NextRowOnLayout | rethinkdb/_import.py:535-570 | on a buffer holding any part of a well-laid-out file `get_line` returns the next row or moves on without losing text, and at the end of the file gives up only when no row is left |
| JsonImport.JsonSourceFile.SetupFile | rethinkdb/_import.py:572-594 | white space in front is passed over any number of fills; an array is entered, an object is not; which error comes when |
| JsonImport.JsonSourceFile.Teardown | rethinkdb/_import.py:596-634 | accepts exactly a closing bracket (of an array) and white space |
| JsonImport.JsonSourceFile.TakeRow | rethinkdb/_import.py:404-409 | the rows still in the file lose exactly the row taken |
| JsonImport.JsonSourceFile.ReadRows | rethinkdb/_import.py:394-412 | full batches plus the partial one plus the rows left are the rows of the file; the loop ends for every sequence of read sizes |
| JsonImport.JsonSourceFile.Batches | rethinkdb/_import.py:375-421 | for every sequence of read sizes the rows come out in order in full batches and a last one, all text is consumed and the end accepted, or the buffer limit was reached with a prefix delivered; if reads give what was asked for, it is reached exactly if the windows on the text run into it |
| JsonLimit.StuckIsShort | rethinkdb/_import.py:508-515 | a buffer from whose front no row can be taken, with text still to come, is shorter than the next row or the end of the array: doubling is needed, and how far |
| JsonLimit.ReadToTheEnd | rethinkdb/_import.py:503-570 | a file that is read to its end, array or not, has no row longer than the limit and one |
| JsonLimit.LimitExactly | rethinkdb/_import.py:503-570 | a file of rows one after the other is read to its end if and only if no row is longer than the limit and one, nor the first longer than the limit where chunks are as large as it |
| JsonLimit.RoomSuffices | rethinkdb/_import.py:503-570 | rows and end of at most half the limit are always read to the end, arrays included |
| JsonExport.JsonWriter | rethinkdb/_export.py:193-219 | the file is the text of the rows as they are to be exported, bracketed and comma-separated or one per line; of each row it has the wanted members, as they are and in their order, and no others |
| JsonExport.SelectedIsExport | rethinkdb/_export.py:202-205 | for every row and every set of fields: the places of the row whose keys are wanted, in ascending order, are what is kept |
| JsonExport.FilteredMembers | rethinkdb/_export.py:202-205 | a member is kept if and only if it is in the row and its key is wanted, and with all keys wanted the row is kept as it is |
| JsonLines.ExportedLines | rethinkdb/_export.py:196-219 | line by line: with ndjson the rows, one a line; else a bracket, the rows with commas after all but the last, and a bracket on a line of its own |
| JsonExport.ExportedFileLayout | rethinkdb/_export.py:193-219 | an exported file has the layout the importer reads if and only if it is not an ndjson file without rows |
| JsonExport.NdjsonFits | rethinkdb/_import.py:503-570 | an exported ndjson file is imported without reaching the limit if and only if its rows fit, by their lengths alone |
| JsonExport.ArrayFits | rethinkdb/_import.py:503-570 | two bounds for an exported array: one that does not reach the limit has rows that fit, and rows of at most half the limit never reach it |
| JsonArrays.ArrayFitsExactly | rethinkdb/_import.py:503-570 | an exported array is imported without reaching the limit if and only if the lengths of its rows, in their order, get through a recursion on numbers that knows neither text nor decoder |
| JsonArrays.OrderDecides | rethinkdb/_import.py:503-570 | the lengths without their order do not decide: of the same three rows, all of which fit, one order is imported and another reaches the limit at the closing bracket |
| JsonExport.ExportThenImport | rethinkdb/_import.py:375-421 | exporting and importing gives back, in order, of each row exactly the wanted members, for every read size, batch size and buffer limit, unless the limit is reached; with full reads it is reached exactly if the file does not fit; the empty ndjson file fails |
| ImportPipelineProofs.StepConservesRows | rethinkdb/_import.py:433-484 | every step of every process keeps the multiset of rows unread, queued, in a writer's hands and inserted |
| ImportPipelineProofs.StepKeepsInv | rethinkdb/_import.py:1381-1456 | nothing follows an end marker but end markers, running readers are in the pool, and markers queued + unsent + writers stopped = writers |
| ImportPipelineProofs.PipelineConservation | rethinkdb/_import.py:1257-1456 | in every reachable state all rows of the files are accounted for, the end markers add up to the clients, at most three items per client are queued, and at most one reader per client runs |
| ImportPipelineProofs.BatchesInOrder | rethinkdb/_import.py:455-470 | in every reachable state the batches of a file taken off the queue, those on it and those unread are, in this order, the batches of the file |
| ImportPipelineProofs.StoppedWritersInsertedEverything | rethinkdb/_import.py:1440-1456 | when all writers have stopped the queue is empty and every row of every file is inserted exactly once |
| ImportPipelineProofs.NoDeadlock | rethinkdb/_import.py:1381-1456 | until the import is over some process can take a step |
| ImportPipelineProofs.EveryMaximalRunImportsEverything | rethinkdb/_import.py:1362-1456 | a run that cannot go on has inserted everything, after a number of steps fixed by the files and the clients |
| ImportPipelineProofs.RunsAreBounded | rethinkdb/_import.py:1362-1456 | no run is longer |
| FuncTerms.VarIds.Draw | rethinkdb/ast.py:1971-1977 | one id per parameter, whatever other threads draw between two acquisitions of the lock |
| FuncTerms.VarIds.Construct | rethinkdb/ast.py:1951-1980 | running a host program with the shared counter builds the term, and leaves the counter, that the pure description gives |
| FunctionIds.BoundIdsDistinctExactly | rethinkdb/ast.py:1971-1980 | the ids bound in a term are pairwise distinct if and only if no query object that holds a function is used more than once |
| FunctionIds.FunctionUsedTwice | rethinkdb/ast.py:93-94 | a list of one function twice: the term binds the same id twice |
| FunctionIds.BuiltIsWellNested | rethinkdb/ast.py:1971-1980 | what always holds: no FUNC of a term stands inside another FUNC with one of its ids |
| FunctionsProofs.ScanAgrees | rethinkdb/ast.py:1938-1955 | the scan of the built term finds an implicit variable exactly when the host program mentions `r.row` |
| FunctionsProofs.BindKeepsScope | rethinkdb/ast.py:1958-1980 | binding the parameters of an inner function leaves every outer parameter as it was |
| FunctionsProofs.BuildPreserves | rethinkdb/ast.py:1951-1980 | in matching environments the built term and the host program give matching values, functions and queries built earlier included |
| FunctionsProofs.SharedPreserves | rethinkdb/ast.py:93-94 | a query built in an outer scope and used again, as it is, further in means there what it meant where it was built |
| FunctionsProofs.CompilingPreservesMeaning | rethinkdb/ast.py:1958-1980 | the server computes a datum from the term if and only if the host program stands for it, for every nesting, every reuse of a built query, counter and interference |
| FunctionsProofs.BuiltTermIsClosed | rethinkdb/ast.py:930-934 | every VAR of a whole query is bound by an enclosing FUNC |
| ValueEncoding.ExprSucceeds | rethinkdb/ast.py:83-127 | `expr` succeeds exactly for data within the nesting depth whose keys are strings, and which error it raises otherwise |
| ValueEncoding.EvaluatesToWire | rethinkdb/ast.py:895-917 | evaluating the built term unwraps exactly the MAKE_ARRAY terms that building wrapped |
| ValueEncoding.DecodesExactly | rethinkdb/ast.py:826-873 | the decoder gives back a value exactly if no dictionary in it is marked as a converted pseudo-type |
| ValueEncoding.ValueRoundTrip | rethinkdb/ast.py:1742-1779 | sent, evaluated and decoded, every sendable value with its nested bytes comes back, exactly if it is unmarked |
| ValueEncoding.MarkedDictionaryIsRefused | rethinkdb/ast.py:826-873 | a dictionary marked with an unknown pseudo-type is sent, and refused when it comes back |
| QueryPrinter.Iterate | rethinkdb/errors.py:258-279 | the generator with its separators yields the flattened tree |
| QueryPrinterProofs.ShapeUsesOnce | rethinkdb/ast.py:635-723 | every `compose` method prints each of its printed arguments exactly once |
| QueryPrinterProofs.SpanPrintsAddressed | rethinkdb/errors.py:225-255 | the stretch of the printed query addressed by the frames is the printed addressed subterm |
| QueryPrinter.ChildOfFrame | rethinkdb/errors.py:237-250 | a number in a backtrace is for the argument in that place and a key for the optional argument of that name; without one the frame points at nothing |
| QueryPrinterText.PrintedText | rethinkdb/ast.py:635-723 | for every query, kind by kind: the joined tokens are the text a plain printer gives, with the arguments in its order, literals wrapped where it wraps them, and optional arguments last |
| QueryPrinterProofs.CaretsAlign | rethinkdb/errors.py:232-255 | a caret line exists exactly if the frames enter no `Var`; it has one character per printed token, `^` exactly under the addressed stretch and printed carets |
| QueryPrinterProofs.NoCaretsInsideVar | rethinkdb/ast.py:930-934 | `lambda x: x` and a backtrace into its `Var`: no caret line |
| QueryPrinterWidths.NarrowExactly | rethinkdb/ast.py:635-661 | only one-character tokens are printed exactly if no printed infix operator is longer |
| QueryPrinterWidths.WidthsAgreeExactly | rethinkdb/errors.py:219-223 | joined to text, caret line and query have the same length if and only if no wide operator is printed |
| QueryPrinterWidths.CaretsUnderEquals | rethinkdb/ast.py:655-661 | `r.row == 1`: the caret line is shorter than the query |
| Framing.HeaderRoundTrip | rethinkdb/twisted_net/net_twisted.py:121-125 | reading `<qL` undoes writing it, for every signed token and every length |
| Framing.HeaderBytes | rethinkdb/twisted_net/net_twisted.py:121-125 | eight bytes of token, then four of length, each with the lowest byte first |
| Framing.HeaderIsRead | rethinkdb/twisted_net/net_twisted.py:121-125 | every twelve bytes are the header of what was read from them: nothing is lost |
| Framing.TokenComesBack | rethinkdb/net.py:114-115 | the unsigned token of a query is read back from a response as the same number exactly below 2^63 |
| Framing.DecodeOfEncode | rethinkdb/twisted_net/net_twisted.py:115-141 | the frames a server sent, empty ones included, are the frames decoded, and the tail is kept |
| Framing.EncodeOfDecode | rethinkdb/twisted_net/net_twisted.py:115-141 | frames decoded and bytes held spell the stream, and what is held is not a whole frame |
| Framing.DecodeInTwo | rethinkdb/twisted_net/net_twisted.py:117-133 | decoding can be broken off anywhere and taken up with the bytes held |
| TwistedProtocol.DatabaseProtocol.HandleHandshake | rethinkdb/twisted_net/net_twisted.py:91-113 | the loop over zero bytes feeds, sends, completes, fails or loses the connection as the recursive description says |
| TwistedProtocol.DatabaseProtocol.HandleResponse | rethinkdb/twisted_net/net_twisted.py:115-141 | the callbacks are the frames of bytes held plus data, and the bytes held - a header already read included - are exactly the undecoded rest |
| TwistedProtocol.DatabaseProtocol.DataReceived | rethinkdb/twisted_net/net_twisted.py:143-152 | one chunk goes to the handler of the state the connection is in; a connection that is not open ignores it |
| Fragmentation.FragmentationIndependence | rethinkdb/twisted_net/net_twisted.py:115-141 | two ways of cutting a stream into chunks give the same callbacks and hold the same bytes |
| Fragmentation.SentFramesAreHandled | rethinkdb/twisted_net/net_twisted.py:115-141 | for every cut, the frames sent are handled in order and nothing is held |
| Fragmentation.SocketWrapper.ReadResponse | rethinkdb/net.py:415-420 | the byte by byte reader stops after the first zero byte and leaves what follows in the socket |
| Fragmentation.SocketWrapper.Handshake | rethinkdb/net.py:403-420 | the handshake loop feeds the zero-terminated responses until it completes or raises, and reads nothing beyond |
| Fragmentation.ReadInTwo | rethinkdb/net.py:403-420 | the reader may be interrupted after any number of bytes |
| Fragmentation.HandshakeInChunks | rethinkdb/twisted_net/net_twisted.py:91-113 | for every cut the splitter feeds what the byte by byte reader feeds; after completion this holds exactly if no zero byte follows in the same chunk, and then the rest is decoded as frames |
| Fragmentation.ConnectionInChunks | rethinkdb/twisted_net/net_twisted.py:143-152 | with a server that sends no frame before a query, the whole connection is that of the byte by byte reader followed by exactly the frames sent |
| Fragmentation.LostExactly | rethinkdb/twisted_net/net_twisted.py:91-113 | for every handshake that accepts nothing after its last response: the connection is lost if and only if a zero byte follows that response in the same chunk |
| Fragmentation.FiresOnce | rethinkdb/twisted_net/net_twisted.py:91-113 | for every handshake and every cut: the requests written are its answers in order, but for the empty ones, the Deferred fires at the first completion or exception, and the connection is lost exactly at the second |
| ScramOverTwisted.ExchangeInChunks | rethinkdb/twisted_net/net_twisted.py:91-113 | an authentication against a server that follows RFC 5802, and frames after it, in any chunks: lost exactly if a zero byte follows the last response in its chunk; with nothing after it there, the three responses are fed, exactly the first message and the proof are written, the server answers the one and accepts the other, and the frames are handled |
| ScramOverTwisted.SurplusLosesConnection | rethinkdb/twisted_net/net_twisted.py:91-113 | the same completed authentication and the same frame: lost when the frame comes in the chunk of the last response, handled when it comes in the next |
| KeyDerivation.CompareDigest | rethinkdb/handshake.py:40-63 | the accumulated differences are zero exactly for equal digests, of equal or different lengths |
| KeyDerivation.ToBytesOfFromBytes | rethinkdb/handshake.py:74-81 | digest to hexadecimal to number and back is the identity on 32 bytes, leading zeros included |
| KeyDerivation.XorOfNumbers | rethinkdb/handshake.py:97-101 | one exclusive or of two numbers is the bytewise exclusive or |
| KeyDerivation.Pbkdf2Hmac | rethinkdb/handshake.py:66-105 | the integer loop derives Hi() of section 2.2 of RFC 5802 for every iteration count, one that is not positive counting as one; what the cache holds is what would be derived again |
| Scram.HandshakeV1_0.NextMessage | rethinkdb/handshake.py:390-407 | the object with its four states answers as the value-level step does, error by error |
| Scram.HandshakeV1_0.Reset | rethinkdb/handshake.py:384-388 | state, nonce, first message and signature are as in a new object; name and password stay |
| Scram.HandshakeV1_0.PrepareAuthRequest | rethinkdb/handshake.py:293-359 | salted password, both signatures and the proof from the server's first message, as the value-level step has them; a nonce that does not extend the client's is refused |
| Scram.Next | rethinkdb/handshake.py:198-203 | the state advances by one with every answer and not at all with an exception |
| ScramProofs.UsernameRoundTrip | rethinkdb/handshake.py:147-149 | the escaped name is read back as the name and contains no comma (section 5.1 of RFC 5802) |
| ScramProofs.FirstMessageIsRead | rethinkdb/handshake.py:240-258 | a server that splits the first message gets the user name and the nonce back |
| ScramProofs.FinalIsRead | rethinkdb/handshake.py:311-359 | the server finds nonce and proof in the final message and cuts off exactly the part that was signed |
| ScramProofs.ProofIsAccepted | rethinkdb/handshake.py:311-359 | a server that signs, on its own account, what it received first, what it answered and the final message up to the proof, joined by commas (section 3 of RFC 5802), recovers ClientKey from the proof and shows its signature |
| ScramProofs.Completeness | rethinkdb/handshake.py:228-382 | with the right password and any random bytes the handshake completes: the client opens with version 0 and SCRAM-SHA-256, is answered, sends a proof that such a server accepts, and ends with `None` on its signature |
| ScramProofs.CallsCount | rethinkdb/handshake.py:390-407 | `None` is the answer of the fourth call and only of the fourth; a fifth call always raises |
| ScramProofs.CompletedOnlyWithSignature | rethinkdb/handshake.py:361-382 | against any server: a handshake that ended with `None` read three successful replies, the first with version 0 in its range, the last with the signature over the three messages of this exchange, made with the server key of the password |
| ScramProofs.RefusalEndsHandshake | rethinkdb/handshake.py:205-226 | over whole runs: a refusal in reply to any of the calls ends the handshake, as an authentication error for the codes 10 to 20 and as a driver error for all others, whatever follows |
| ScramProofs.AuthErrorsExactly | rethinkdb/handshake.py:205-382 | over whole runs: a handshake ends with an authentication error if and only if a reply refuses with such a code, carries a nonce that does not extend the client's, or a signature that is not the expected one, in the state where each is looked at |
| ScramProofs.DriverErrorsExactly | rethinkdb/handshake.py:205-407 | over whole runs: a handshake ends with a driver error if and only if it starts with a response, is called once too often, is refused with another code, or is greeted with versions that exclude 0 |
| ScramProofs.NamesThatStart | rethinkdb/handshake.py:244-260 | the handshake can start exactly for ASCII user names |
| ScramProofs.AccentCannotStart | rethinkdb/handshake.py:244-260 | a user name with an accent, whose first message cannot be formed |
| AsyncioConnection.ConnectionInstance.Close | rethinkdb/asyncio_net/net_asyncio.py:257-273 | every waiting future gets one exception, no other future changes, and both dictionaries are empty |
| AsyncioConnection.ConnectionInstance.HandleFrame | rethinkdb/asyncio_net/net_asyncio.py:304-338 | one frame extends its cursor, completes its query, or closes the connection, exceptions in decoding included |
| AsyncioTheorems.ExactlyOnce | rethinkdb/asyncio_net/net_asyncio.py:290-338 | in every run no future is completed twice, a waiting one not at all, and on a closing connection every query started before was completed |
| AsyncioTheorems.OnlyByReplyOrClose | rethinkdb/asyncio_net/net_asyncio.py:304-338 | a future is completed by a frame with its own token, with what that reply stands for, or by closing, and never changes afterwards |
| AsyncioTheorems.CachedExactly | rethinkdb/asyncio_net/net_asyncio.py:311-325 | over every run of an open connection: a cursor is in the cache if and only if the steps gave it rows that are not the last ones, and no final frame since |
| AsyncioTheorems.WaitingExactly | rethinkdb/asyncio_net/net_asyncio.py:290-338 | over every run of an open connection: a query waits if and only if it was started and no frame came for it |
| AsyncioTheorems.StaysOpenExactly | rethinkdb/asyncio_net/net_asyncio.py:304-338 | until the caller or the stream ends it, the connection stays open if and only if every frame is the one usable reply to a query or goes to a cursor that is to hear more: with such a server no response is unexpected |
| AsyncioTheorems.ClosedIsDeaf | rethinkdb/asyncio_net/net_asyncio.py:257-338 | after `close` no frame changes anything |
| AsyncioTheorems.BrokenReplyCompletesAll | rethinkdb/asyncio_net/net_asyncio.py:316-338 | a reply that does not decode, or has no data, completes its own and every other waiting future |
| AsyncioTheorems.UncompletedExactly | rethinkdb/asyncio_net/net_asyncio.py:257-338 | over the steps of every run to a closing connection: a query is not completed if and only if its coroutine started while the connection was closing and neither a frame that answers it nor another close came afterwards |
| AsyncioTheorems.CompletedUnlessLate | rethinkdb/asyncio_net/net_asyncio.py:290-297 | once the reader has returned and the caller has closed: every other future is completed, once, and these never are, in any continuation |
| AsyncioTheorems.LateQueryWaitsForEver | rethinkdb/asyncio_net/net_asyncio.py:290-297 | a run in which a query made before `close` and started after it is completed in no continuation |
| ExportResume.TableExport.ReadCursor | rethinkdb/_export.py:376-395 | the rows before the cursor's end are queued, the last key is theirs, and full progress is reported only at the end |
| ExportResume.TableExport.Read | rethinkdb/_export.py:366-412 | the loop with its replacement cursors queues what the recursive description gives |
| ExportResume.ResumedExport | rethinkdb/_export.py:366-412 | for any number of lost connections the rows queued are the table's from the first on, none twice, all of them on completion and not all on an interruption; it is refused exactly if the first cursor fails before its first row |
| ExportResume.RefusedBeforeFirstRow | rethinkdb/_export.py:366-412 | a table and a connection that fails at once: the export is refused |
| ExportResume.ChangingTable | rethinkdb/_export.py:397-412 | on a table that changes between cursors keys still ascend, nothing is invented, and rows present throughout are exported |
| IndexRebuild.Rebuilder.FillUp | rethinkdb/_index_rebuild.py:178-210 | as many indexes are started as allowed and never more, and every index stays in exactly one of three places |
| IndexRebuild.Rebuilder.CheckProgress | rethinkdb/_index_rebuild.py:217-244 | exactly the ready indexes are renamed over, the others stay, and the progress ratio, between 0 and 1, is the progress of those plus the share of the completed |
| IndexRebuild.Rebuilder.ReportProgress | rethinkdb/_index_rebuild.py:212-215 | reported progress never falls |
| IndexRebuild.Rebuilder.Run | rethinkdb/_index_rebuild.py:157-255 | the loop ends; it fails exactly for an index that does not exist; otherwise every index was renamed over exactly once, with the function it is to have, and reported progress rose to 1 |
| IndexRebuild.RenameStep | rethinkdb/_index_rebuild.py:227-234 | renaming one index changes the database at that name and its temporary name only |
| IndexRebuild.WhenAllAreDone | rethinkdb/_index_rebuild.py:183-234 | at the end no temporary index is left, everything else is as it was, and an index keeps its function exactly if no temporary index with another was there when the loop began |
| IndexRebuild.TakesOver | rethinkdb/_index_rebuild.py:183-234 | an index with such a temporary index beside it ends with the other function |
| ProtoConverter.ConvertFile | scripts/convert_protofile.py:84-158 | the loop with two indent levels and a flag writes what the step function writes, or stops at a value that does not convert |
| ProtoConverter.LevelsFollowContent | scripts/convert_protofile.py:93-158 | on every input, well nested or not, the levels stay equal exactly when the current block has content, and one apart otherwise |
| ProtoRendering.LoopRenders | scripts/convert_protofile.py:102-155 | over well-nested lines the loop writes the nested rendering, at every level and position |
| ProtoRendering.ConversionRenders | scripts/convert_protofile.py:84-158 | a whole file is converted exactly if all its values are, to header, rendering and footer, whatever unmatched lines stand between |
| ProtoReading.LexRender | scripts/convert_protofile.py:43-81 | the output is the token list of the tree, with commas between siblings only |
| ProtoReading.MembersReadBack | scripts/convert_protofile.py:69-81 | a reader that takes commas exactly between members reads the same tree of names and values |
| ProtoReadBack.JavaScriptReadsBack | scripts/convert_protofile.py:69-81 | the JavaScript text after the header reads back to the tree |
| ProtoReadBack.RubyReadsBack | scripts/convert_protofile.py:56-68 | the Ruby text reads back to the tree, each module closed by its own `end`, if and only if Ruby takes its names and values: modules in upper case, no name that is a keyword or starts with a digit, no value that is a keyword other than one like `true` |
| ProtoReadBack.PythonReadsBack | scripts/convert_protofile.py:44-55 | the Python text reads back by indentation alone, with no block without a body, if and only if Python takes its names and values: no name that is a keyword or starts with a digit, no value that is a keyword other than one like `true` |
| ProtoReadBack.ReservedNamesDoNotRead | scripts/convert_protofile.py:104-115 | a message named `def`, converted to no Python and no Ruby, and one named `term`, converted to no Ruby |
| ProtoReadBack.IllegalModule | scripts/convert_protofile.py:104-115 | a message with any name that Ruby does not take for a module is converted, and nothing can be read |
| ProtoReadBack.IllegalClass | scripts/convert_protofile.py:104-115 | the same for any name that Python does not take for a class |
| ProtoReadBack.PrintedKeepsNumber | scripts/convert_protofile.py:126-128 | a hexadecimal value is written as the same number, by the place of its digits, and every other value as it is; what starts like a hexadecimal number and is none is all that does not convert |

## Left out

- Sockets, TLS, hostname matching, timeouts in the middle of a frame and the reconnection after a keyboard interrupt: header and body of a frame are read together.
- `outstanding_requests` after the connection has closed, where `_error` may take it below zero.
- Responses that do not decode in `rethinkdb/net.py`; they are modelled for the asyncio connection only.
- Profiles around results, backtraces in errors, and the texts of most errors.
- Twisted's `ConnectionInstance`, whose futures go as those of the asyncio connection, and the gevent, Tornado and Trio variants.
- Handlers that raise in the Twisted protocol, and its handshake timeout.
- Cancellation of asyncio queries by their callers, and what `close` awaits after it has completed the futures.
- Floating point numbers, lone surrogates and repeated keys in JSON text; files whose rows are not objects; the CSV format.
- JsonImport.JsonSourceFile.Batches: says when the limit is reached only for files that do not start with white space and for reads that give what they are asked for, and says nothing of files that are neither arrays nor sequences of printed objects with white space and single commas between them, beyond the shape of the batches and of the errors.
- The setup of tables and indexes around an import, the `fields` filter of its readers, its exit event, failed inserts and the row-by-row fallback of its writers.
- JsonExport.JsonWriter: its error path, which drains the queue, is not modelled.
- FunctionsProofs.CompilingPreservesMeaning: host functions that inspect their arguments, raise, or have side effects are not host programs here, and evaluation is bounded by a fuel that both sides share, so that it says nothing of programs that never end.
- Times, grouped data and geometry as host values; the raw formats of the decoder; query objects inside data, which `Functions` has.
- Optional arguments of terms other than in the printer, and the roughly 180 one-line term classes.
- ScramProofs.CompletedOnlyWithSignature: that nobody without the key can make the signature is a property of HMAC and not stated.
- KeyDerivation.Pbkdf2Hmac: the library functions used instead of it when they exist are taken to do the same; for an iteration count below one they raise an exception.
- JSON text and UTF-8 around the handshake's messages, and passwords outside Latin-1.
- Failing to get a cursor again during an export, and its processes, progress bar and client scheduler.
- IndexRebuild.Rebuilder.Run: indexes listed twice, or named like a temporary index, are excluded; the expansion of the table list before the loop is not modelled.
- ProtoConverter.ConvertFile: the regular expressions that classify lines, and underscores in hexadecimal values.
- ProtoReadBack.RubyReadsBack: a value that starts with a digit is taken to be a number in every language, and JavaScript's reader takes every word as a key. Python's keywords are those of version 3.7 and later. What a name means once it is read, as a method or a constant, is not modelled.
