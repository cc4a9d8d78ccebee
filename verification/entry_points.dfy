/** The three `extern "C"` entry points of the native library
    (src/lib.rs: `mssql_open_connection`, `mssql_close_connection`,
    `mssql_execute_query`) as functions over a heap of boxed connections.
    A handle is the address of a `Box<Connection>`; `Box::into_raw` puts a
    connection on the heap, dropping the box takes it off. The options
    arrive already decoded by serde (`Err` carries serde's message), and the
    database's answers are parameters. */
module EntryPoints {
  import opened Prelude
  import opened Types
  import opened RustInt
  import opened NativeResults
  import opened Rows

  /** A live connection; only the thread that opened it matters here. */
  datatype Connection = Connection(threadId: nat)

  /** The boxed connections that are currently owned through raw handles. */
  type Heap = map<nat, Connection>

  /** What an entry point returns, the heap after it, and the query text it
      sent to the server, if any. */
  datatype Native<+R> = Native(result: R, heap: Heap, ran: Option<string>)

  const OpenOptionsError := "MSSQL database connection error, cannot parse specified options, message: ["
  const OpenRuntimeError := "MSSQL database connection error, cannot create IO runtime, message: ["
  const OpenConnectError := "MSSQL database connection error, message: ["
  const CloseOptionsError := "MSSQL connection close error, cannot parse specified options, message: ["
  const CloseHandleError := "MSSQL connection close error, cannot parse specified handle, value: ["
  const QueryOptionsError := "MSSQL query error, cannot parse specified options, message: ["
  const QueryHandleError := "MSSQL query error, cannot parse specified handle, value: ["
  const QueryExecuteError := "MSSQL query error, message ["

  /** `format!("<head>{}]", detail)`: the detail in brackets after a head. */
  function Bracket(head: string, detail: string): (r: string)
    requires head != ""
    ensures r != "" && head <= r
    ensures Contains(r, detail)
  {
    ContainsInfix(head, detail, "]");
    head + detail + "]"
  }

  /** The handle-parse error: the offending handle text, then the parse
      error's `Display` text. */
  function HandleMessage(head: string, handle: string, kind: IntErrorKind): (r: string)
    requires head != ""
    ensures r != "" && head <= r
    ensures Contains(r, handle)
  {
    ContainsInfix(head, handle, "], message: [" + Describe(kind) + "]");
    head + handle + ("], message: [" + Describe(kind) + "]")
  }

  /** The handle text names a connection on the heap, or does not parse at
      all. `Box::from_raw` on any other number is undefined behaviour, so
      this is what the entry points demand of their callers. */
  predicate Live(handle: string, heap: Heap) {
    ParseUsize(handle).Ok? ==> ParseUsize(handle).value in heap
  }

  /** `mssql_open_connection`: parse the options, build the IO runtime,
      connect; each failure is reported with its own message and leaves the
      heap alone. On success the new connection is boxed at `addr`, tied to
      the current thread, and its handle returned. */
  function OpenConnection(options: Result<ConnectOptions, string>, runtime: Result<(), string>,
                          connect: Result<(), string>, addr: nat, current: nat,
                          heap: Heap): (r: Native<ConnectResult>)
    requires 0 < addr <= UsizeMax && addr !in heap
    ensures r.ran.None?
    ensures r.result.error == "" <==> options.Ok? && runtime.Ok? && connect.Ok?
    ensures r.result.error == "" ==>
      r.result == NewConnectResult(addr) && r.heap == heap[addr := Connection(current)]
    ensures r.result.error != "" ==> r.result.handle == "" && r.heap == heap
    ensures options.Err? ==> r.result.error == Bracket(OpenOptionsError, options.error)
    ensures options.Ok? && runtime.Err? ==> r.result.error == Bracket(OpenRuntimeError, runtime.error)
    ensures options.Ok? && runtime.Ok? && connect.Err? ==>
      r.result.error == Bracket(OpenConnectError, connect.error)
  {
    match options
    case Err(e) => Native(ConnectError(Bracket(OpenOptionsError, e)), heap, None)
    case Ok(_) =>
      match runtime
      case Err(e) => Native(ConnectError(Bracket(OpenRuntimeError, e)), heap, None)
      case Ok(_) =>
        match connect
        case Err(e) => Native(ConnectError(Bracket(OpenConnectError, e)), heap, None)
        case Ok(_) => Native(NewConnectResult(addr), heap[addr := Connection(current)], None)
  }

  /** The result of running a query on a connection: what `execute` built,
      or its error wrapped in the query-error message with no partial
      result. */
  function QueryOutcome(server: ServerReply): (r: QueryResult)
    ensures r.error == "" <==> Rows.Execute(server).Ok?
    ensures Rows.Execute(server).Ok? ==> r == Rows.Execute(server).value
    ensures Rows.Execute(server).Err? ==>
      r.metadata == [] && r.data == [] && QueryExecuteError <= r.error &&
      Contains(r.error, Rows.Execute(server).error)
  {
    match Rows.Execute(server)
    case Ok(res) => res
    case Err(e) => QueryError(Bracket(QueryExecuteError, e))
  }

  /** `mssql_execute_query` once its handle has parsed to `num`: the query
      is sent only from the connection's own thread, and the connection is
      handed back to raw ownership either way. */
  function QueryConnection(num: nat, query: string, current: nat, heap: Heap,
                           server: ServerReply): (r: Native<QueryResult>)
    requires num in heap
    ensures r.heap == heap
    ensures heap[num].threadId != current ==>
      r.result == QueryError(CheckThread(heap[num].threadId, current).value) && r.ran.None?
    ensures heap[num].threadId == current ==> r.ran == Some(query) && r.result == QueryOutcome(server)
    ensures r.result.error == "" <==> r.ran.Some? && Rows.Execute(server).Ok?
  {
    match CheckThread(heap[num].threadId, current)
    case Some(msg) => Native(QueryError(msg), heap, None)
    case None => Native(QueryOutcome(server), heap, Some(query))
  }

  /** `mssql_execute_query`: parse the options, parse the handle, check the
      thread, run the query. Only when all three checks pass is the query
      sent; the heap never changes. The error is empty exactly when the
      query ran and the server's stream ended cleanly. */
  function ExecuteQuery(options: Result<QueryOptions, string>, current: nat, heap: Heap,
                        server: ServerReply): (r: Native<QueryResult>)
    requires options.Ok? ==> Live(options.value.connHandle, heap)
    ensures r.heap == heap
    ensures r.result.error == "" <==> r.ran.Some? && Rows.Execute(server).Ok?
    ensures options.Err? ==> r == Native(QueryError(Bracket(QueryOptionsError, options.error)), heap, None)
    ensures options.Ok? && ParseUsize(options.value.connHandle).Err? ==>
      r.ran.None? && r.result.metadata == [] && r.result.data == [] &&
      QueryHandleError <= r.result.error && Contains(r.result.error, options.value.connHandle)
    ensures options.Ok? && ParseUsize(options.value.connHandle).Ok? ==>
      r == QueryConnection(ParseUsize(options.value.connHandle).value, options.value.query,
                           current, heap, server)
  {
    match options
    case Err(e) => Native(QueryError(Bracket(QueryOptionsError, e)), heap, None)
    case Ok(opts) =>
      match ParseUsize(opts.connHandle)
      case Err(k) => Native(QueryError(HandleMessage(QueryHandleError, opts.connHandle, k)), heap, None)
      case Ok(num) => QueryConnection(num, opts.query, current, heap, server)
  }

  /** `mssql_close_connection` as written, once the handle has parsed to
      `num`: the box taken back with `Box::from_raw` goes out of scope on
      both branches of the thread check, so the connection is dropped even
      when the close is refused. */
  function DropConnectionAsWritten(num: nat, current: nat, heap: Heap): (r: Native<CloseResult>)
    requires num in heap
    ensures r.ran.None? && r.heap == heap - {num}
    ensures r.result.error == "" <==> heap[num].threadId == current
    ensures heap[num].threadId == current ==> r.result == NewCloseResult()
    ensures heap[num].threadId != current ==>
      r.result == CloseError(CheckThread(heap[num].threadId, current).value)
  {
    match CheckThread(heap[num].threadId, current)
    case Some(msg) => Native(CloseError(msg), heap - {num}, None)
    case None => Native(NewCloseResult(), heap - {num}, None)
  }

  /** `mssql_close_connection` as written: options, then handle, then the
      drop above. */
  function CloseConnectionAsWritten(options: Result<CloseOptions, string>, current: nat,
                                    heap: Heap): (r: Native<CloseResult>)
    requires options.Ok? ==> Live(options.value.connHandle, heap)
    ensures r.ran.None?
    ensures options.Err? ==> r == Native(CloseError(Bracket(CloseOptionsError, options.error)), heap, None)
    ensures options.Ok? && ParseUsize(options.value.connHandle).Err? ==>
      r.heap == heap && CloseHandleError <= r.result.error &&
      Contains(r.result.error, options.value.connHandle)
    ensures options.Ok? && ParseUsize(options.value.connHandle).Ok? ==>
      r == DropConnectionAsWritten(ParseUsize(options.value.connHandle).value, current, heap)
  {
    match options
    case Err(e) => Native(CloseError(Bracket(CloseOptionsError, e)), heap, None)
    case Ok(opts) =>
      match ParseUsize(opts.connHandle)
      case Err(k) => Native(CloseError(HandleMessage(CloseHandleError, opts.connHandle, k)), heap, None)
      case Ok(num) => DropConnectionAsWritten(num, current, heap)
  }

  /** The intended close once the handle has parsed to `num`: the
      connection is dropped only when the thread check passes; a refused
      close hands it back to raw ownership, as `mssql_execute_query` does,
      so the handle stays valid. */
  function DropConnection(num: nat, current: nat, heap: Heap): (r: Native<CloseResult>)
    requires num in heap
    ensures r.ran.None?
    ensures heap[num].threadId == current ==> r.result == NewCloseResult() && r.heap == heap - {num}
    ensures heap[num].threadId != current ==>
      r.result == CloseError(CheckThread(heap[num].threadId, current).value) && r.heap == heap
    ensures r.result.error == "" <==> num !in r.heap
  {
    match CheckThread(heap[num].threadId, current)
    case Some(msg) => Native(CloseError(msg), heap, None)
    case None => Native(NewCloseResult(), heap - {num}, None)
  }

  /** `mssql_close_connection` as intended: options, then handle, then the
      drop above. Only a successful close changes the heap. */
  function CloseConnection(options: Result<CloseOptions, string>, current: nat,
                           heap: Heap): (r: Native<CloseResult>)
    requires options.Ok? ==> Live(options.value.connHandle, heap)
    ensures r.ran.None?
    ensures r.result.error != "" ==> r.heap == heap
    ensures options.Err? ==> r == Native(CloseError(Bracket(CloseOptionsError, options.error)), heap, None)
    ensures options.Ok? && ParseUsize(options.value.connHandle).Err? ==>
      r.heap == heap && CloseHandleError <= r.result.error &&
      Contains(r.result.error, options.value.connHandle)
    ensures options.Ok? && ParseUsize(options.value.connHandle).Ok? ==>
      r == DropConnection(ParseUsize(options.value.connHandle).value, current, heap)
  {
    match options
    case Err(e) => Native(CloseError(Bracket(CloseOptionsError, e)), heap, None)
    case Ok(opts) =>
      match ParseUsize(opts.connHandle)
      case Err(k) => Native(CloseError(HandleMessage(CloseHandleError, opts.connHandle, k)), heap, None)
      case Ok(num) => DropConnection(num, current, heap)
  }

  /** The handle an open returns is usable: a query with it on the thread
      that opened the connection is sent to the server, and the result is
      what the server's stream gives. */
  lemma OpenThenQuery(options: ConnectOptions, addr: nat, thread: nat, heap: Heap,
                      query: string, server: ServerReply)
    requires 0 < addr <= UsizeMax && addr !in heap
    ensures var made := OpenConnection(Ok(options), Ok(()), Ok(()), addr, thread, heap);
      Live(made.result.handle, made.heap) &&
      var q := ExecuteQuery(Ok(QueryOptions(made.result.handle, query)), thread, made.heap, server);
      q.ran == Some(query) && q.heap == made.heap &&
      (Rows.Execute(server).Ok? ==> q.result == Rows.Execute(server).value)
  {
    ParseDecimal(addr);
  }

  /** The same handle used from any other thread is refused with the thread
      message, and no query is sent. */
  lemma OpenThenQueryElsewhere(options: ConnectOptions, addr: nat, thread: nat, other: nat,
                               heap: Heap, query: string, server: ServerReply)
    requires 0 < addr <= UsizeMax && addr !in heap
    requires other != thread
    ensures var made := OpenConnection(Ok(options), Ok(()), Ok(()), addr, thread, heap);
      Live(made.result.handle, made.heap) &&
      var q := ExecuteQuery(Ok(QueryOptions(made.result.handle, query)), other, made.heap, server);
      q.ran.None? && q.result == QueryError(CheckThread(thread, other).value) &&
      Contains(q.result.error, Decimal(other)) && Contains(q.result.error, Decimal(thread))
  {
    ParseDecimal(addr);
    var made := OpenConnection(Ok(options), Ok(()), Ok(()), addr, thread, heap);
    assert made.result == NewConnectResult(addr) && made.heap == heap[addr := Connection(thread)];
    assert ParseUsize(made.result.handle) == Ok(addr);
    var q := ExecuteQuery(Ok(QueryOptions(made.result.handle, query)), other, made.heap, server);
    assert q == QueryConnection(addr, query, other, made.heap, server);
    assert made.heap[addr].threadId == thread;
    var msg := CheckThread(thread, other);
    assert q.result == QueryError(msg.value);
  }

  /** Open then close on the same thread returns the heap to what it was. */
  lemma OpenThenClose(options: ConnectOptions, addr: nat, thread: nat, heap: Heap)
    requires 0 < addr <= UsizeMax && addr !in heap
    ensures var made := OpenConnection(Ok(options), Ok(()), Ok(()), addr, thread, heap);
      Live(made.result.handle, made.heap) &&
      var closed := CloseConnection(Ok(CloseOptions(made.result.handle)), thread, made.heap);
      closed.result == NewCloseResult() && closed.heap == heap
  {
    ParseDecimal(addr);
    assert heap[addr := Connection(thread)] - {addr} == heap;
  }

  /** The ownership bug, on a concrete input: connection 1 belongs to
      thread 7; closing it from thread 8 is refused, yet the connection is
      gone, so the handle the caller still holds dangles and any later use
      of it is undefined behaviour. */
  lemma RefusedCloseDropsConnection()
    ensures var heap := map[1 := Connection(7)];
      var r := CloseConnectionAsWritten(Ok(CloseOptions("1")), 8, heap);
      r.result.error != "" && 1 !in r.heap && !Live("1", r.heap)
  {
    var heap := map[1 := Connection(7)];
    var one: string := "1";
    assert one[0] == '1' && IsDigit(one[0]);
    assert AccumulateDigits(1, one[1..]) == Ok(1);
    assert ParseUsize(one) == Ok(1);
    var r := CloseConnectionAsWritten(Ok(CloseOptions(one)), 8, heap);
    assert r == DropConnectionAsWritten(1, 8, heap);
    assert heap[1].threadId != 8;
    assert r.heap == map[];
  }

  /** With the corrected close, a refused close keeps the connection: the
      owning thread can still query and then close it. */
  lemma RefusedCloseKeepsConnection(handle: string, owner: nat, other: nat, heap: Heap,
                                    query: string, server: ServerReply)
    requires ParseUsize(handle).Ok? && ParseUsize(handle).value in heap
    requires heap[ParseUsize(handle).value].threadId == owner && other != owner
    ensures var refused := CloseConnection(Ok(CloseOptions(handle)), other, heap);
      refused.result.error != "" && refused.heap == heap &&
      ExecuteQuery(Ok(QueryOptions(handle, query)), owner, refused.heap, server).ran == Some(query) &&
      CloseConnection(Ok(CloseOptions(handle)), owner, refused.heap).result == NewCloseResult()
  {
  }
}
