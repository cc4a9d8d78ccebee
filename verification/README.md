# deno-mssql-query: a Dafny model of the worker and the native result path

deno-mssql-query lets Deno programs query Microsoft SQL Server. The work is done
by a native library (Rust, `src/lib.rs`) reached through Deno's FFI. A
background worker (`ts/worker/mssqlWorker.js`) owns the library and a single
connection. It answers one JSON message at a time: connect, close or query.
A failed query is retried once after a reconnect.

The model has two halves.

- **The TypeScript side.**
  - The worker is a pure state machine. Its three globals (`dylib`,
    `connectOptions`, `connHandle`) and its own closing form `WorkerState`.
    Each message is one `Worker.Step`. It returns the new state, the one
    reply, and a trace of the native calls made (`FfiResult.Call`).
  - The outcomes of those native calls are decided by the environment. They
    are passed in as an `Engine` record: load, close, open, first execute,
    retry execute.
  - `parseResult` is `FfiResult.ParseResult`.
  - `mssqlExecuteQuery` is `QueryWrapper.ExecuteQuery`.
  - JavaScript exceptions are values (`Js.Thrown`). A caught error is
    rendered as `Error.prototype.toString` renders it, so a reply reads
    `MSSQL Worker error: Error: <message>`.
- **The Rust side.**
  - The result constructors and `check_thread` are in `NativeResults`.
  - `usize` text, as `to_string` writes it and `parse::<usize>` reads it,
    is in `RustInt`.
  - The column-type mapping of `row_to_vec` and the stream accumulation of
    `execute` are in `Rows`.
  - The three `extern "C"` entry points are in `EntryPoints`. They are
    functions over a heap that maps the addresses of boxed connections to
    the thread that opened them.
  - `ffi_json` and the C-string read on the TypeScript side are in
    `FfiJson`.
  - `Boundary` joins the two halves. A result built in Rust is encoded,
    copied into a `malloc` block, read back and decoded by `parseResult`.

Behaviour as written, where it differs from an idealised design of the same
protocol:

- `reconnect` does not suppress a failing close. The error propagates,
  `connHandle` keeps the old handle, and no open is made
  (`ts/worker/mssqlWorker.js:29-31`).
- When a query's reconnect fails, there is no retry, and the reconnect's
  error is the reply.
- `handleQuery` checks only `dylib`. It does not check `connHandle`.
- Dispatch tests truthiness, so `{query: ""}` is an invalid request.
- A message with several fields set is dispatched by priority: connect,
  then close, then query. It is not rejected.
- The reply to a connect is `{}`.
- The worker has no load-library or shutdown messages and no query
  parameters.

## Model

| member | source | states |
|---|---|---|
| Js.Show | ts/worker/mssqlWorker.js:87-90 | the text a caught error is rendered as always contains the error's message, and starts with "Error" for an `Error` |
| Js.ShowError | ts/worker/mssqlWorker.js:89 | an `Error` with a message renders as "Error: " followed by the message |
| FfiResult.ParseResult | ts/parseResult.ts:20-35 | null pointer: allocation error, no call at all; otherwise the buffer is read first; a parsed buffer is read then freed, a non-empty error field is thrown with exactly that message, an empty one returns the record unchanged; a parse exception propagates after the read and before any free |
| FfiResult.ParseResultReleasesOnce | ts/parseResult.ts:24-30 | a parsed buffer is freed exactly once, a null or unparseable one never, the decoder never executes, and nothing is read after it is freed |
| FfiResult.EngineErrorVerbatim | ts/parseResult.ts:31-33 | the engine's error text is the thrown message exactly, and its rendering contains it |
| QueryWrapper.ExecuteQuery | ts/mssqlExecuteQuery.ts:22-32 | without a library: "Native library not initialized" and no native call; with one: first a single execute call with the handle and query text, then exactly the decoder's calls and outcome |
| QueryWrapper.ExecuteQueryCallsOnce | ts/mssqlExecuteQuery.ts:26-31 | one execute call when the library is loaded and none otherwise; its buffer is freed once exactly when it exists and parses |
| Worker.Reconnect | ts/worker/mssqlWorker.js:28-36 | a held handle is closed first; a failing close propagates and changes nothing; otherwise the last call is an open with the stored options, and the new handle, or none when the open fails, is held |
| Worker.HandleConnect | ts/worker/mssqlWorker.js:38-44 | a failed load throws with only the load call and no change; otherwise the library is loaded if it was not (the first call is the load exactly then), the options are stored whatever the reconnect does, and a connect that returns holds the opened handle after a last call that opens with those options; the message-level behaviour is `WorkerProperties.ConnectStoresOptions` and `WorkerProperties.ConnectLoadFailure` |
| Worker.HandleClose | ts/worker/mssqlWorker.js:46-57 | never throws and changes no global: the held handle is closed first, the library closed last, and nothing else is called; `WorkerProperties.CloseEndsWorker` adds that the engine's close outcome makes no difference |
| Worker.HandleQuery | ts/worker/mssqlWorker.js:59-69 | without a library: "Connection not established" and no call; otherwise the first call executes the query on the held handle; only the handle can change; a returned result is one the engine delivered with an empty error, from the first attempt or the retry, and a delivered first attempt is returned with no change; the retry paths are `WorkerProperties.QueryRetriedOnceAfterReconnect` and `WorkerProperties.ReconnectFailureSkipsRetry` |
| Worker.Dispatch | ts/worker/mssqlWorker.js:72-86 | a parse error is thrown unchanged with no call; the worker closes exactly on a close request without `connect`, which answers `{}`; a connect that returns answers `{}`, a query that returns answers with a result whose error is empty; any other request is the "Invalid worker request" error with no call and no change; priority is `WorkerProperties.ConnectTakesPriority` and `WorkerProperties.CloseTakesPriorityOverQuery` |
| Worker.ErrorReplyFor | ts/worker/mssqlWorker.js:87-91 | every caught error becomes an error reply that starts with "MSSQL Worker error: " and contains the error's message |
| Worker.ErrorReplyText | ts/worker/mssqlWorker.js:88-90 | the reply text for an `Error` is the prefix, "Error: " and the message |
| Worker.Step | ts/worker/mssqlWorker.js:71-92 | a running worker posts exactly one reply per message; a closed one posts nothing, makes no call and keeps its state |
| Worker.Run | ts/worker/mssqlWorker.js:71-92 | over a message sequence, at most one reply per message, exactly one per message while the worker has not closed, and nothing at all once it has |
| WorkerProperties.ReconnectClosesBeforeOpening | ts/worker/mssqlWorker.js:29-33 | when the close does not fail, a reconnect's calls are the close of the held handle, if any, followed by one open |
| WorkerProperties.ReconnectCalls | ts/worker/mssqlWorker.js:28-36 | a reconnect closes the held handle exactly once, opens once unless that close failed, and never executes, frees or loads |
| WorkerProperties.StepKeepsConsistent | ts/worker/mssqlWorker.js:38-44 | every message preserves the invariant "library loaded iff options stored, handle only with a library" |
| WorkerProperties.StepKeepsLibrary | ts/worker/mssqlWorker.js:39-41 | once loaded, the library stays and no message loads it again |
| WorkerProperties.StepCountsOfClose | ts/worker/mssqlWorker.js:46-57 | a close message never loads the library |
| WorkerProperties.QueryCounts | ts/worker/mssqlWorker.js:59-69 | a query never loads the library, frees no more buffers than it executes, and frees one per execute when every buffer parses |
| WorkerProperties.WrapperNeverLoads | ts/mssqlExecuteQuery.ts:26-31 | the query wrapper never loads the library |
| WorkerProperties.ConnectTakesPriority | ts/worker/mssqlWorker.js:74-76 | with `connect` present, `close` and `query` make no difference to the outcome |
| WorkerProperties.CloseTakesPriorityOverQuery | ts/worker/mssqlWorker.js:77-81 | without `connect`, `close` wins over `query` |
| WorkerProperties.InvalidRequestRejected | ts/worker/mssqlWorker.js:86 | a message that is not a connect, a close or a non-empty query gets the "Invalid worker request" error quoting its data, with no call and no state change |
| WorkerProperties.MalformedMessageRejected | ts/worker/mssqlWorker.js:72-73 | data that does not parse is answered with the parser's error, with no call and no state change |
| WorkerProperties.QueryBeforeConnect | ts/worker/mssqlWorker.js:59-62 | a query with no library gets "Connection not established", with no native call and no state change |
| WorkerProperties.QueryAnsweredByFirstAttempt | ts/worker/mssqlWorker.js:63-64 | a successful first attempt is the result reply; its only calls are one execute, its read and its free |
| WorkerProperties.QueryRetriedOnceAfterReconnect | ts/worker/mssqlWorker.js:65-68 | after a failed first attempt and a successful reconnect, the same query runs once more on the new handle; the retry's outcome is the reply; there are exactly two executes and one open |
| WorkerProperties.WrapperOpensNone | ts/mssqlExecuteQuery.ts:26-31 | the query wrapper never opens a connection |
| WorkerProperties.FirstFailureDiscarded | ts/worker/mssqlWorker.js:65-68 | how the first attempt failed does not affect the reply or the new state |
| WorkerProperties.ReconnectFailureSkipsRetry | ts/worker/mssqlWorker.js:65-67 | when the reconnect fails, its error is the reply, no retry is made, and the handle is kept (failed close) or dropped (failed open) |
| WorkerProperties.EngineErrorReachesCaller | test/worker_test.ts:78-87 | the engine's message for a failing retry survives into the error reply |
| WorkerProperties.QueryAfterFailedQuery | test/worker_test.ts:78-92 | after any query, however it ended, the library stays loaded, so a following query whose first attempt the engine delivers gets its result; the lemma assumes that delivery, which the program cannot make when a failed reopen has left `connHandle` `null` (the native side then rejects the options) |
| WorkerProperties.ConnectStoresOptions | ts/worker/mssqlWorker.js:38-44 | a connect stores its options even when the reconnect fails, loads the library only if none was loaded, opens with exactly those options, and replies `{}` iff the reconnect succeeds |
| WorkerProperties.ConnectLoadFailure | ts/worker/mssqlWorker.js:39-41 | a failing library load is the reply and changes nothing |
| WorkerProperties.CloseEndsWorker | ts/worker/mssqlWorker.js:77-80 | a close replies `{}` whatever the native close does, closes the held handle and then the library, and ends the worker |
| WorkerProperties.NothingAfterClose | ts/worker/mssqlWorker.js:80 | after a close no further message is answered |
| WorkerProperties.OpenUsesStoredOptions | ts/worker/mssqlWorker.js:33 | every open the worker makes uses the stored options, which are never null at that point |
| WorkerProperties.ReconnectOpensOnlyLast | ts/worker/mssqlWorker.js:33 | the only open in a reconnect carries the state's options |
| WorkerProperties.StepReleasesPayloads | ts/parseResult.ts:27-30 | for any message, frees never outnumber executes, and they are equal when every buffer parses |
| WorkerProperties.RunLoadsLibraryOnce | ts/worker/mssqlWorker.js:39-41 | over any message sequence, a loaded library is never loaded again |
| WorkerProperties.InitialConsistent | ts/worker/mssqlWorker.js:24-26 | the worker starts running with all three globals `null`, which satisfies the consistency invariant that the run-level lemmas assume |
| WorkerProperties.RunKeepsConsistent | ts/worker/mssqlWorker.js:24-26 | over any message sequence, the globals stay consistent |
| WorkerProperties.RunReleasesPayloads | ts/parseResult.ts:27-30 | over any message sequence in which every buffer parses, frees equal executes |
| RustInt.Decimal | src/lib.rs:67-69 | `to_string` gives non-empty decimal text with no leading zero |
| RustInt.ParseUsize | src/lib.rs:288 | `parse::<usize>` accepts exactly the text made of one optional `+` and at least one digit; such text whose positional value is at most `usize::MAX` parses to that value, and larger values are `PosOverflow`; empty text is `Empty` and only empty text is |
| RustInt.ParseDecimal | src/lib.rs:315 | the text of any `usize` parses back to that number |
| RustInt.DecimalInjective | src/lib.rs:67-68 | different handles have different texts |
| NativeResults.ConnectResultCarriesHandle | src/lib.rs:66-69 | a successful connect result has an empty error, and its handle text parses back to the handle |
| NativeResults.ConnectErrorCarriesNoHandle | src/lib.rs:70-72 | a failed connect result has an empty handle, which does not parse |
| NativeResults.CloseResultsDiffer | src/lib.rs:87-94 | `CloseResult::new()` has an empty error; `new_error` keeps its message and never equals the plain result |
| NativeResults.QueryResultCarriesRows | src/lib.rs:111-114 | `QueryResult::new` keeps its columns and rows with an empty error, and never equals an error result |
| NativeResults.QueryErrorIsEmpty | src/lib.rs:115-119 | a query error result has the error and no columns or rows |
| NativeResults.CheckThread | src/lib.rs:240-250 | no message iff the connection's thread is the current one; otherwise a non-empty message containing both thread ids |
| Rows.DecodeAs | src/lib.rs:156-192 | a column is not decoded iff its type is Null, Money, Money4, Guid, binary, Xml, Udt, Image or SSVariant; it is read as text iff it is a char or text type; Intn and Bitn are read as i64, Decimaln and Numericn as f64 |
| Rows.RowToVec | src/lib.rs:152-199 | one text per column, in order; an undecoded column gives "", a decoded one gives its value, or "" when the value is NULL or does not decode |
| Rows.Accumulate | src/lib.rs:204-218 | the loop appends the column names of every metadata item and the texts of every row, in stream order |
| Rows.Execute | src/lib.rs:201-222 | success iff the query is accepted and the stream ends cleanly, then all column names and all rows with an empty error; otherwise the error and no partial result |
| Rows.SingleResultSetIsRectangular | src/lib.rs:206-216 | one metadata item followed by rows of matching width gives exactly those names and one row per row, each as wide as the metadata |
| Rows.RowsOnly | src/lib.rs:213-216 | a stream of rows alone gives no column names and the rows' texts in order |
| EntryPoints.OpenConnection | src/lib.rs:252-278 | the options, the runtime and the connection are tried in that order, each failure with its own message, an empty handle and no heap change; on success the connection is boxed for the current thread and its address returned as the handle |
| EntryPoints.QueryOutcome | src/lib.rs:324-328 | the execute outcome, or "MSSQL query error, message [" with the error and no partial result |
| EntryPoints.QueryConnection | src/lib.rs:319-333 | once the handle has parsed: from another thread, the thread message and no query sent; from the owning thread, the query sent and its outcome returned; the heap never changes; the error is empty iff the query ran and its stream ended cleanly |
| EntryPoints.ExecuteQuery | src/lib.rs:307-337 | checks run in order (options, handle text, then the connection step above); an options error and a bad handle each give their own message, the latter quoting the handle, with no query sent; the heap never changes; the error is empty iff the query ran and the stream ended cleanly |
| EntryPoints.DropConnectionAsWritten | src/lib.rs:292-301 | once the handle has parsed, the connection leaves the heap whether or not the thread check passes; on the owning thread the result is the empty close result, from another thread it is `check_thread`'s message |
| EntryPoints.CloseConnectionAsWritten | src/lib.rs:280-305 | an options error or a bad handle (quoted in the message) changes nothing; a parsed handle goes to the drop above |
| EntryPoints.DropConnection | src/lib.rs:292-299 | the corrected drop: on the owning thread the connection leaves the heap with an empty error; from another thread the thread message is returned and the heap is left as it was; the error is empty iff the connection is gone |
| EntryPoints.CloseConnection | src/lib.rs:280-305 | the corrected close: parse failures as in the original, a parsed handle goes to the corrected drop, and a close that reports an error never changes the heap |
| EntryPoints.OpenThenQuery | src/lib.rs:264-268 | the handle a successful open returns is live, and a query with it on the opening thread is sent and returns the server's result |
| EntryPoints.OpenThenQueryElsewhere | src/lib.rs:320-322 | the same handle used from another thread is refused with a message naming both threads, and no query is sent |
| EntryPoints.OpenThenClose | src/lib.rs:292-298 | a successful open followed by a close on the same thread restores the heap |
| EntryPoints.RefusedCloseDropsConnection | src/lib.rs:293-295 | connection 1 owned by thread 7, closed from thread 8: the close is refused, yet the connection is gone and handle "1" dangles |
| EntryPoints.RefusedCloseKeepsConnection | src/lib.rs:331 | with the corrected close, a refused close keeps the connection, so the owner can still query and close it |
| FfiJson.Encode | src/lib.rs:224-238 | no block iff `malloc` returned null; otherwise the JSON text, or the `{"error": "JSON error"}` fallback, followed by exactly one NUL |
| FfiJson.ReadCString | ts/parseResult.ts:27-28 | the reader returns the longest NUL-free prefix of the buffer: it stops at the first NUL, or takes the whole buffer when there is none |
| FfiJson.EncodeRoundTrip | src/lib.rs:229-236 | reading back what was written gives the JSON text, or the fallback, whole |
| Boundary.DeliverDecodes | src/lib.rs:224-238 | with a codec whose decoding undoes its encoding, a failed `malloc` reaches TypeScript as the null pointer, and otherwise as a buffer at the `malloc` address whose C string parses back to the very result encoded |
| Boundary.DeliverRoundTrip | ts/parseResult.ts:24-34 | a failed `malloc` surfaces as the allocation error with nothing read or freed; otherwise the native result arrives intact: thrown if its error is non-empty, returned if not, after one read and one free |
| Boundary.WrongThreadReachesCaller | src/lib.rs:321-322 | a query from the wrong thread sends nothing and surfaces in TypeScript as an `Error` naming both threads |
| Boundary.RowsReachCaller | src/lib.rs:219-220 | a query on the owning thread whose stream ends cleanly returns to TypeScript exactly the server's column names and rows |

## Left out

- `mssqlInitialize`, `mssqlOpenConnection` and `mssqlCloseConnection` (the
  TypeScript wrappers the worker imports) are not part of this model. Their
  outcomes are the `load`, `open` and `close` fields of `Worker.Engine`, and
  each counts as one call in the trace.
- JSON is not modelled: serde, `JSON.parse`, `JSON.stringify` and
  `encodeOptions`. Requests, replies and results are records.
  - The parse of an inbound message is given as `Inbound.parsed`.
  - The decoding of a native buffer is the `json` field of
    `FfiResult.NativeResult`.
  - End to end, `Boundary.Codec` stands for encoding and decoding. It is
    assumed faithful and NUL-free.
  - Serde's decoding of entry-point options is the `Result` the entry points
    take.
- Networking, the tokio runtime and the tiberius client are not modelled.
  Building the runtime and connecting are `Result` parameters. The server's
  answer to a query is a `Rows.ServerReply`.
- Value formatting in `get_string` is not modelled: how floats, decimals and
  dates are displayed. Each cell's decoded text is an abstract
  `Option<string>` (`Rows.Row.get`).
- Row errors in `execute` are not modelled. `row_to_vec` never returns
  `Err`, so the `?` after it cannot fire.
- Raw memory is not modelled.
  - `Box::into_raw`, `Box::from_raw` and `malloc` addresses are parameters.
  - A connection records only its thread id, not its runtime or client.
  - `Box::from_raw` on an address that holds no connection is undefined
    behaviour. `EntryPoints.Live` requires the caller not to do it.
  - `mssql_free_result` is the `FreeResult` trace event.
- Thread ids are parameters. The worker's message handling is sequential, so
  there is no concurrency to model.
- Text is characters, not bytes: UTF-8 encoding and byte lengths are not
  modelled. `usize` is taken to be 64 bits wide.
- `dylib.close()` and `self.postMessage` are taken not to throw.
- JavaScript truthiness of non-boolean `close` values is not modelled. A
  connect is present iff `connect` is set, since an options object is always
  truthy.
- A `null` `connHandle` passed to the native execute (a query after a failed
  open) stays `None` in the trace. On the native side it is an options-parse
  error (`EntryPoints.ExecuteQuery` with `Err` options).
- The load-library and shutdown messages, query parameters, and the `*Sync`
  variants do not appear in the worker or the library, so they are not
  modelled.
- `ts/mod.ts`, `ts/test.ts` and the tests are not modelled. The tests serve
  only as evidence for `WorkerProperties.EngineErrorReachesCaller` and
  `WorkerProperties.QueryAfterFailedQuery`.

## Findings

| source | as written | input that shows it | evidently intended | confidence | as-written member | corrected member |
|---|---|---|---|---|---|---|
| src/lib.rs:292-301 | `mssql_close_connection` takes the connection back with `Box::from_raw` and lets the box go out of scope on both branches of the thread check. A close refused for the wrong thread still drops the connection, on the wrong thread, and the caller's handle dangles. | heap {1: connection of thread 7}; close handle "1" from thread 8 | on a refused close, hand the box back with `Box::into_raw` as `mssql_execute_query` does at line 331, so the handle stays valid for its owner | medium, not executed | EntryPoints.CloseConnectionAsWritten, EntryPoints.RefusedCloseDropsConnection | EntryPoints.CloseConnection, EntryPoints.RefusedCloseKeepsConnection |
