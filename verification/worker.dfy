/** The worker script (ts/worker/mssqlWorker.js) as a pure state machine.
    Its three module globals form `WorkerState`; each inbound message is one
    `Step`, which returns the new state, the one message posted back (none
    once the worker has closed itself) and the native calls made on the
    way. The outcomes of those native calls are decided by the environment
    and passed in as an `Engine` value. */
module Worker {
  import opened Prelude
  import opened Js
  import opened Types
  import opened FfiResult
  import opened QueryWrapper

  /** `dylib`, `connectOptions` and `connHandle`, and whether the worker has
      called `self.close()`. */
  datatype WorkerState = WorkerState(
    dylib: Option<Library>,
    connectOptions: Option<ConnectOptions>,
    connHandle: Option<string>,
    closed: bool)

  /** The worker as it starts: all three globals `null`. */
  const Initial := WorkerState(None, None, None, false)

  /** How the native calls of one message turn out. One message loads the
      library at most once, closes and opens a connection at most once each,
      and executes at most twice (first attempt and retry). `open` yields the
      `handle` of the returned connect result. */
  datatype Engine = Engine(
    load: Try<()>,
    close: Try<()>,
    open: Try<string>,
    firstExecute: NativeResult,
    retryExecute: NativeResult)

  /** A message event: its raw `data` text and what `JSON.parse` makes of it. */
  datatype Inbound = Inbound(data: string, parsed: Try<WorkerRequest>)

  /** The state after a handler, what it returned or threw, and its calls. */
  datatype Transition<+T> = Transition(state: WorkerState, outcome: Try<T>, calls: seq<Call>)

  const ConnectionNotEstablished := "Connection not established"
  const WorkerErrorPrefix := "MSSQL Worker error: "
  const InvalidRequest := "Invalid worker request"

  /** `reconnect()`: close the held connection (its failure propagates and
      leaves `connHandle` as it was), forget it, then open a new one with
      the stored options. */
  function Reconnect(s: WorkerState, e: Engine): (r: Transition<()>)
    ensures r.state.dylib == s.dylib && r.state.connectOptions == s.connectOptions
    ensures r.state.closed == s.closed
    ensures s.connHandle.Some? ==> |r.calls| > 0 && r.calls[0] == CloseCall(s.connHandle.value)
    ensures s.connHandle.Some? && e.close.Throw? ==>
      r == Transition(s, Throw(e.close.error), [CloseCall(s.connHandle.value)])
    ensures !(s.connHandle.Some? && e.close.Throw?) ==>
      |r.calls| > 0 && r.calls[|r.calls| - 1] == OpenCall(s.connectOptions)
    ensures !(s.connHandle.Some? && e.close.Throw?) ==>
      r.outcome.Return? == e.open.Return? &&
      r.state.connHandle == (if e.open.Return? then Some(e.open.value) else None)
    ensures !(s.connHandle.Some? && e.close.Throw?) && e.open.Throw? ==>
      r.outcome == Throw(e.open.error)
  {
    var closing := if s.connHandle.Some? then [CloseCall(s.connHandle.value)] else [];
    if s.connHandle.Some? && e.close.Throw? then
      Transition(s, Throw(e.close.error), closing)
    else
      var forgotten := s.(connHandle := None);
      var calls := closing + [OpenCall(forgotten.connectOptions)];
      match e.open
      case Return(handle) => Transition(forgotten.(connHandle := Some(handle)), Return(()), calls)
      case Throw(err) => Transition(forgotten, Throw(err), calls)
  }

  /** `handleConnect(libPath, opts)`: load the library if none is loaded,
      store the options, reconnect. A failed load throws before anything is
      stored; otherwise the options are stored whatever the reconnect does,
      and a successful connect holds the handle its open returned. */
  function HandleConnect(s: WorkerState, libPath: Option<string>, opts: ConnectOptions,
                         e: Engine): (r: Transition<()>)
    ensures s.dylib.None? && e.load.Throw? ==>
      r == Transition(s, Throw(e.load.error), [LoadLibrary(libPath)])
    ensures !(s.dylib.None? && e.load.Throw?) ==>
      r.state.dylib == (if s.dylib.None? then Some(Library(libPath)) else s.dylib) &&
      r.state.connectOptions == Some(opts) && r.state.closed == s.closed &&
      |r.calls| > 0 && (r.calls[0] == LoadLibrary(libPath) <==> s.dylib.None?)
    ensures r.outcome.Return? ==>
      e.open.Return? && r.state.connHandle == Some(e.open.value) &&
      r.calls[|r.calls| - 1] == OpenCall(Some(opts))
  {
    if s.dylib.None? && e.load.Throw? then
      Transition(s, Throw(e.load.error), [LoadLibrary(libPath)])
    else
      var loading := if s.dylib.None? then [LoadLibrary(libPath)] else [];
      var loaded := if s.dylib.None? then s.(dylib := Some(Library(libPath))) else s;
      var again := Reconnect(loaded.(connectOptions := Some(opts)), e);
      Transition(again.state, again.outcome, loading + again.calls)
  }

  /** `handleClose()`: close the held connection, ignoring any error, then
      close the library if it is loaded. The globals are left as they are,
      and it never throws. */
  function HandleClose(s: WorkerState, e: Engine): (r: Transition<()>)
    ensures r.state == s && r.outcome == Return(())
    ensures |r.calls| == (if s.connHandle.Some? then 1 else 0) + (if s.dylib.Some? then 1 else 0)
    ensures s.connHandle.Some? ==> r.calls[0] == CloseCall(s.connHandle.value)
    ensures s.dylib.Some? ==> r.calls[|r.calls| - 1] == CloseLibrary
  {
    var closing := if s.connHandle.Some? then [CloseCall(s.connHandle.value)] else [];
    var unloading := if s.dylib.Some? then [CloseLibrary] else [];
    match e.close
    case Return(_) => Transition(s, Return(()), closing + unloading)
    case Throw(_) => Transition(s, Return(()), closing + unloading)
  }

  /** `handleQuery(query)`: refuse without a library; otherwise execute, and
      on failure reconnect and execute once more. Only the handle can change,
      and a result it returns is one the engine delivered with an empty
      error, from the first attempt or the retry. */
  function HandleQuery(s: WorkerState, query: string, e: Engine): (r: Transition<QueryResult>)
    ensures r.state.dylib == s.dylib && r.state.connectOptions == s.connectOptions
    ensures r.state.closed == s.closed
    ensures s.dylib.None? ==> r == Transition(s, Throw(Error(ConnectionNotEstablished)), [])
    ensures s.dylib.Some? ==> |r.calls| > 0 && r.calls[0] == ExecuteCall(s.connHandle, query)
    ensures r.outcome.Return? ==>
      r.outcome.value.error == "" &&
      ((e.firstExecute.Buffer? && e.firstExecute.json == r.outcome) ||
       (e.retryExecute.Buffer? && e.retryExecute.json == r.outcome))
    ensures (s.dylib.Some? && e.firstExecute.Buffer? && e.firstExecute.json.Return? &&
             e.firstExecute.json.value.error == "") ==>
      r.state == s && r.outcome == e.firstExecute.json
  {
    if s.dylib.None? then
      Transition(s, Throw(Error(ConnectionNotEstablished)), [])
    else
      var first := QueryWrapper.ExecuteQuery(s.dylib, s.connHandle, query, e.firstExecute);
      if first.value.Return? then
        Transition(s, first.value, first.calls)
      else
        var again := Reconnect(s, e);
        if again.outcome.Throw? then
          Transition(again.state, Throw(again.outcome.error), first.calls + again.calls)
        else
          var retry := QueryWrapper.ExecuteQuery(again.state.dylib, again.state.connHandle, query, e.retryExecute);
          Transition(again.state, retry.value, first.calls + again.calls + retry.calls)
  }

  /** The text of the invalid-request error for a message's raw data. */
  function InvalidRequestMessage(data: string): string {
    InvalidRequest + ", data: [" + data + "]"
  }

  /** A request is a query when it has a non-empty query text (JavaScript
      truthiness of a string). */
  predicate IsQueryText(q: Option<string>) {
    q.Some? && q.value != ""
  }

  /** The body of the `try` in `onmessage`: dispatch on `connect`, then
      `close`, then `query`; anything else is invalid. Only a close request
      closes the worker; a connect or close that returns answers `{}`, a
      query that returns answers with its result. */
  function Dispatch(s: WorkerState, m: Inbound, e: Engine): (r: Transition<WorkerResponse>)
    ensures m.parsed.Throw? ==> r == Transition(s, Throw(m.parsed.error), [])
    ensures r.state.closed <==>
      s.closed || (m.parsed.Return? && m.parsed.value.connect.None? && m.parsed.value.close)
    ensures m.parsed.Return? && m.parsed.value.connect.None? && m.parsed.value.close ==>
      r.outcome == Return(EmptyReply)
    ensures m.parsed.Return? && m.parsed.value.connect.Some? && r.outcome.Return? ==>
      r.outcome.value == EmptyReply
    ensures (m.parsed.Return? && m.parsed.value.connect.None? && !m.parsed.value.close &&
             IsQueryText(m.parsed.value.query) && r.outcome.Return?) ==>
      r.outcome.value.ResultReply? && r.outcome.value.result.error == ""
    ensures (m.parsed.Return? && m.parsed.value.connect.None? && !m.parsed.value.close &&
             !IsQueryText(m.parsed.value.query)) ==>
      r == Transition(s, Throw(Error(InvalidRequestMessage(m.data))), [])
  {
    match m.parsed
    case Throw(err) => Transition(s, Throw(err), [])
    case Return(req) =>
      if req.connect.Some? then
        var t := HandleConnect(s, req.libPath, req.connect.value, e);
        match t.outcome
        case Return(_) => Transition(t.state, Return(EmptyReply), t.calls)
        case Throw(err) => Transition(t.state, Throw(err), t.calls)
      else if req.close then
        var t := HandleClose(s, e);
        Transition(t.state.(closed := true), Return(EmptyReply), t.calls)
      else if IsQueryText(req.query) then
        var t := HandleQuery(s, req.query.value, e);
        match t.outcome
        case Return(res) => Transition(t.state, Return(ResultReply(res)), t.calls)
        case Throw(err) => Transition(t.state, Throw(err), t.calls)
      else
        Transition(s, Throw(Error(InvalidRequestMessage(m.data))), [])
  }

  /** The reply the `catch` of `onmessage` posts for a caught error. */
  function ErrorReplyFor(err: Thrown): (r: WorkerResponse)
    ensures r.ErrorReply? && WorkerErrorPrefix <= r.error
    ensures Contains(r.error, err.message)
  {
    ContainsInfix(WorkerErrorPrefix, Show(err), "");
    assert WorkerErrorPrefix + Show(err) == WorkerErrorPrefix + Show(err) + "";
    ContainsTransitive(WorkerErrorPrefix + Show(err), Show(err), err.message);
    ErrorReply(WorkerErrorPrefix + Show(err))
  }

  /** The reply text for an `Error` with a message. */
  lemma ErrorReplyText(message: string)
    requires message != ""
    ensures ErrorReplyFor(Error(message)) == ErrorReply(WorkerErrorPrefix + "Error: " + message)
  {
    ShowError(message);
  }

  /** Result of handling one message. */
  datatype StepResult = StepResult(state: WorkerState, reply: Option<WorkerResponse>, calls: seq<Call>)

  /** `self.onmessage`: a closed worker receives nothing; otherwise exactly
      one message is posted back, an error reply for anything thrown. */
  function Step(s: WorkerState, m: Inbound, e: Engine): (r: StepResult)
    ensures r.reply.Some? <==> !s.closed
    ensures s.closed ==> r.state == s && r.calls == []
  {
    if s.closed then StepResult(s, None, [])
    else
      var t := Dispatch(s, m, e);
      match t.outcome
      case Return(reply) => StepResult(t.state, Some(reply), t.calls)
      case Throw(err) => StepResult(t.state, Some(ErrorReplyFor(err)), t.calls)
  }

  /** One message together with how its native calls turn out. */
  datatype Delivery = Delivery(message: Inbound, engine: Engine)

  datatype RunResult = RunResult(state: WorkerState, replies: seq<WorkerResponse>, calls: seq<Call>)

  /** The worker handling a sequence of messages in arrival order. Every
      message gets exactly one reply until the worker closes itself; after
      that nothing happens. */
  function Run(s: WorkerState, inbox: seq<Delivery>): (r: RunResult)
    ensures |r.replies| <= |inbox|
    ensures !r.state.closed ==> |r.replies| == |inbox|
    ensures s.closed ==> r == RunResult(s, [], [])
    decreases |inbox|
  {
    if |inbox| == 0 then RunResult(s, [], [])
    else
      var step := Step(s, inbox[0].message, inbox[0].engine);
      var rest := Run(step.state, inbox[1..]);
      var replies := if step.reply.Some? then [step.reply.value] else [];
      RunResult(rest.state, replies + rest.replies, step.calls + rest.calls)
  }
}
