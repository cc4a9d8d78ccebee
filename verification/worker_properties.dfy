/** What the worker promises its callers, proved over `Worker.Step` and
    `Worker.Run`. */
module WorkerProperties {
  import opened Prelude
  import opened Js
  import opened Types
  import opened FfiResult
  import QueryWrapper
  import opened Worker

  /** The globals hang together: the library is loaded exactly when options
      have been stored, and a connection is only held with a library. */
  predicate Consistent(s: WorkerState) {
    && (s.dylib.Some? <==> s.connectOptions.Some?)
    && (s.connHandle.Some? ==> s.dylib.Some?)
  }

  /** The worker starts running, with all three globals `null`, which is
      consistent: the run-level invariants below apply from its start. */
  lemma InitialConsistent()
    ensures Consistent(Initial) && !Initial.closed
    ensures Initial.dylib.None? && Initial.connectOptions.None? && Initial.connHandle.None?
  {
  }

  /** `m` is a request the worker dispatches as the query `q`. */
  predicate IsQuery(m: Inbound, q: string) {
    && m.parsed.Return?
    && m.parsed.value.connect.None?
    && !m.parsed.value.close
    && m.parsed.value.query == Some(q)
    && q != ""
  }

  /** `m` is a request the worker dispatches as a close. */
  predicate IsCloseRequest(m: Inbound) {
    m.parsed.Return? && m.parsed.value.connect.None? && m.parsed.value.close
  }

  /** A native execute whose result decodes to a usable query result. */
  predicate Delivers(n: NativeResult) {
    n.Buffer? && n.json.Return? && n.json.value.error == ""
  }

  /** A native execute whose buffer the decoder is able to free. */
  predicate Releases(n: NativeResult) {
    n.Buffer? && n.json.Return?
  }

  /** The reply a query's final decoded outcome turns into. */
  function QueryReply(outcome: Try<QueryResult>): WorkerResponse {
    match outcome
    case Return(res) => ResultReply(res)
    case Throw(err) => ErrorReplyFor(err)
  }

  /** The close/open sequence of a reconnect whose close does not fail. */
  lemma ReconnectClosesBeforeOpening(s: WorkerState, e: Engine)
    requires !(s.connHandle.Some? && e.close.Throw?)
    ensures Reconnect(s, e).calls ==
      (if s.connHandle.Some? then [CloseCall(s.connHandle.value)] else []) +
      [OpenCall(s.connectOptions)]
  {
  }

  /** A reconnect closes the held connection exactly once, opens at most
      once, and never executes, frees or loads. */
  lemma ReconnectCalls(s: WorkerState, e: Engine)
    ensures Count(Reconnect(s, e).calls, IsClose) == (if s.connHandle.Some? then 1 else 0)
    ensures Count(Reconnect(s, e).calls, IsOpen) ==
      (if s.connHandle.Some? && e.close.Throw? then 0 else 1)
    ensures Count(Reconnect(s, e).calls, IsExecute) == 0
    ensures Count(Reconnect(s, e).calls, IsFree) == 0
    ensures Count(Reconnect(s, e).calls, IsLoad) == 0
  {
    var closing := if s.connHandle.Some? then [CloseCall(s.connHandle.value)] else [];
    var opening := [OpenCall(s.connectOptions)];
    if s.connHandle.Some? {
      CountSingleton(closing[0], IsClose);
      CountSingleton(closing[0], IsOpen);
      CountSingleton(closing[0], IsExecute);
      CountSingleton(closing[0], IsFree);
      CountSingleton(closing[0], IsLoad);
    }
    if !(s.connHandle.Some? && e.close.Throw?) {
      assert Reconnect(s, e).calls == closing + opening;
      CountSingleton(opening[0], IsClose);
      CountSingleton(opening[0], IsOpen);
      CountSingleton(opening[0], IsExecute);
      CountSingleton(opening[0], IsFree);
      CountSingleton(opening[0], IsLoad);
      CountConcat(closing, opening, IsClose);
      CountConcat(closing, opening, IsOpen);
      CountConcat(closing, opening, IsExecute);
      CountConcat(closing, opening, IsFree);
      CountConcat(closing, opening, IsLoad);
    }
  }

  /** Every message keeps the globals consistent. */
  lemma StepKeepsConsistent(s: WorkerState, m: Inbound, e: Engine)
    requires Consistent(s)
    ensures Consistent(Step(s, m, e).state)
  {
  }

  /** Once loaded, the library stays loaded and is never loaded again. */
  lemma StepKeepsLibrary(s: WorkerState, m: Inbound, e: Engine)
    requires s.dylib.Some?
    ensures Step(s, m, e).state.dylib == s.dylib
    ensures Count(Step(s, m, e).calls, IsLoad) == 0
  {
    if !s.closed && m.parsed.Return? {
      var req := m.parsed.value;
      if req.connect.Some? {
        ReconnectCalls(s.(connectOptions := req.connect), e);
        assert Step(s, m, e).calls == Reconnect(s.(connectOptions := req.connect), e).calls;
      } else if req.close {
        StepCountsOfClose(s, m, e);
      } else if IsQueryText(req.query) {
        QueryCounts(s, req.query.value, e);
      }
    }
  }

  /** The calls of a close message: no load. */
  lemma StepCountsOfClose(s: WorkerState, m: Inbound, e: Engine)
    requires !s.closed && IsCloseRequest(m)
    ensures Count(Step(s, m, e).calls, IsLoad) == 0
  {
    var closing := if s.connHandle.Some? then [CloseCall(s.connHandle.value)] else [];
    var unloading := if s.dylib.Some? then [CloseLibrary] else [];
    assert Step(s, m, e).calls == closing + unloading;
    CountConcat(closing, unloading, IsLoad);
    if s.connHandle.Some? { CountSingleton(closing[0], IsLoad); }
    if s.dylib.Some? { CountSingleton(unloading[0], IsLoad); }
  }

  /** Call counts of a query: never a load; every freed buffer belongs to an
      execute; when every buffer decodes, each execute's buffer is freed. */
  lemma QueryCounts(s: WorkerState, q: string, e: Engine)
    ensures Count(HandleQuery(s, q, e).calls, IsLoad) == 0
    ensures Count(HandleQuery(s, q, e).calls, IsFree) <= Count(HandleQuery(s, q, e).calls, IsExecute)
    ensures Releases(e.firstExecute) && Releases(e.retryExecute) ==>
      Count(HandleQuery(s, q, e).calls, IsFree) == Count(HandleQuery(s, q, e).calls, IsExecute)
  {
    if s.dylib.Some? {
      var first := QueryWrapper.ExecuteQuery(s.dylib, s.connHandle, q, e.firstExecute);
      QueryWrapper.ExecuteQueryCallsOnce(s.dylib, s.connHandle, q, e.firstExecute);
      WrapperNeverLoads(s.dylib, s.connHandle, q, e.firstExecute);
      if first.value.Throw? {
        var again := Reconnect(s, e);
        ReconnectCalls(s, e);
        CountConcat(first.calls, again.calls, IsLoad);
        CountConcat(first.calls, again.calls, IsFree);
        CountConcat(first.calls, again.calls, IsExecute);
        if again.outcome.Return? {
          var st := again.state;
          var retry := QueryWrapper.ExecuteQuery(st.dylib, st.connHandle, q, e.retryExecute);
          QueryWrapper.ExecuteQueryCallsOnce(st.dylib, st.connHandle, q, e.retryExecute);
          WrapperNeverLoads(st.dylib, st.connHandle, q, e.retryExecute);
          CountConcat(first.calls + again.calls, retry.calls, IsLoad);
          CountConcat(first.calls + again.calls, retry.calls, IsFree);
          CountConcat(first.calls + again.calls, retry.calls, IsExecute);
        }
      }
    }
  }

  /** The query wrapper never loads the library. */
  lemma WrapperNeverLoads(dylib: Option<Library>, h: Option<string>, q: string, n: NativeResult)
    ensures Count(QueryWrapper.ExecuteQuery(dylib, h, q, n).calls, IsLoad) == 0
  {
    var calls := QueryWrapper.ExecuteQuery(dylib, h, q, n).calls;
    if dylib.Some? {
      var rest := ParseResult(n).calls;
      assert calls == [ExecuteCall(h, q)] + rest;
      CountSingleton(ExecuteCall(h, q), IsLoad);
      CountConcat([ExecuteCall(h, q)], rest, IsLoad);
      if n.Buffer? {
        CountSingleton(ReadResult(n.addr), IsLoad);
        if n.json.Return? {
          assert rest == [ReadResult(n.addr)] + [FreeResult(n.addr)];
          CountSingleton(FreeResult(n.addr), IsLoad);
          CountConcat([ReadResult(n.addr)], [FreeResult(n.addr)], IsLoad);
        }
      }
    }
  }

  /** Dispatch looks at `connect` first: with it present, `close` and
      `query` are ignored. */
  lemma ConnectTakesPriority(s: WorkerState, data: string, req: WorkerRequest, e: Engine)
    requires req.connect.Some?
    ensures Step(s, Inbound(data, Return(req)), e) ==
      Step(s, Inbound(data, Return(req.(close := false, query := None))), e)
  {
  }

  /** Without `connect`, `close` wins over `query`. */
  lemma CloseTakesPriorityOverQuery(s: WorkerState, data: string, req: WorkerRequest, e: Engine)
    requires req.connect.None? && req.close
    ensures Step(s, Inbound(data, Return(req)), e) ==
      Step(s, Inbound(data, Return(req.(query := None))), e)
  {
  }

  /** A message that is neither a connect, a close nor a non-empty query is
      answered with an error naming it, and changes nothing. An empty query
      text counts as no query. */
  lemma InvalidRequestRejected(s: WorkerState, data: string, req: WorkerRequest, e: Engine)
    requires !s.closed
    requires req.connect.None? && !req.close && !IsQueryText(req.query)
    ensures Step(s, Inbound(data, Return(req)), e).state == s
    ensures Step(s, Inbound(data, Return(req)), e).calls == []
    ensures Step(s, Inbound(data, Return(req)), e).reply ==
      Some(ErrorReply(WorkerErrorPrefix + "Error: " + InvalidRequestMessage(data)))
    ensures Contains(Step(s, Inbound(data, Return(req)), e).reply.value.error, InvalidRequest)
  {
    var message := InvalidRequestMessage(data);
    var err := Error(message);
    assert Dispatch(s, Inbound(data, Return(req)), e) == Transition(s, Throw(err), []);
    assert InvalidRequest <= message;
    assert |message| > 0;
    ErrorReplyText(message);
    ContainsTransitive(ErrorReplyFor(err).error, message, InvalidRequest);
  }

  /** A message whose data is not JSON is answered with the parser's error
      and changes nothing. */
  lemma MalformedMessageRejected(s: WorkerState, data: string, err: Thrown, e: Engine)
    requires !s.closed
    ensures Step(s, Inbound(data, Throw(err)), e) == StepResult(s, Some(ErrorReplyFor(err)), [])
    ensures Contains(Step(s, Inbound(data, Throw(err)), e).reply.value.error, err.message)
  {
  }

  /** A query before any library is loaded fails with "Connection not
      established", makes no native call and changes nothing. */
  lemma QueryBeforeConnect(s: WorkerState, m: Inbound, q: string, e: Engine)
    requires !s.closed && s.dylib.None? && IsQuery(m, q)
    ensures Step(s, m, e) ==
      StepResult(s, Some(ErrorReply(WorkerErrorPrefix + "Error: " + ConnectionNotEstablished)), [])
  {
    var err := Error(ConnectionNotEstablished);
    assert Step(s, m, e) == StepResult(s, Some(ErrorReplyFor(err)), []);
    ErrorReplyText(ConnectionNotEstablished);
  }

  /** A first attempt that succeeds is the reply: one execute, its buffer
      read then freed, no reconnect, no state change. */
  lemma QueryAnsweredByFirstAttempt(s: WorkerState, m: Inbound, q: string, e: Engine)
    requires !s.closed && s.dylib.Some? && IsQuery(m, q) && Delivers(e.firstExecute)
    ensures Step(s, m, e) == StepResult(s,
      Some(ResultReply(e.firstExecute.json.value)),
      [ExecuteCall(s.connHandle, q), ReadResult(e.firstExecute.addr), FreeResult(e.firstExecute.addr)])
  {
  }

  /** A failed first attempt followed by a successful reconnect: the query
      is executed once more, on the new handle and with the same text, and
      the retry's outcome alone is the reply. */
  lemma QueryRetriedOnceAfterReconnect(s: WorkerState, m: Inbound, q: string, e: Engine)
    requires !s.closed && s.dylib.Some? && IsQuery(m, q) && !Delivers(e.firstExecute)
    requires !(s.connHandle.Some? && e.close.Throw?) && e.open.Return?
    ensures Step(s, m, e).state == s.(connHandle := Some(e.open.value))
    ensures Step(s, m, e).reply == Some(QueryReply(ParseResult(e.retryExecute).value))
    ensures Step(s, m, e).calls ==
      ([ExecuteCall(s.connHandle, q)] + ParseResult(e.firstExecute).calls) +
      ((if s.connHandle.Some? then [CloseCall(s.connHandle.value)] else []) +
       [OpenCall(s.connectOptions)]) +
      ([ExecuteCall(Some(e.open.value), q)] + ParseResult(e.retryExecute).calls)
    ensures Count(Step(s, m, e).calls, IsExecute) == 2
    ensures Count(Step(s, m, e).calls, IsOpen) == 1
  {
    var req := m.parsed.value;
    QueryCounts(s, q, e);
    var first := QueryWrapper.ExecuteQuery(s.dylib, s.connHandle, q, e.firstExecute);
    var again := Reconnect(s, e);
    var retry := QueryWrapper.ExecuteQuery(again.state.dylib, again.state.connHandle, q, e.retryExecute);
    ReconnectClosesBeforeOpening(s, e);
    ReconnectCalls(s, e);
    QueryWrapper.ExecuteQueryCallsOnce(s.dylib, s.connHandle, q, e.firstExecute);
    QueryWrapper.ExecuteQueryCallsOnce(again.state.dylib, again.state.connHandle, q, e.retryExecute);
    CountConcat(first.calls, again.calls, IsExecute);
    CountConcat(first.calls + again.calls, retry.calls, IsExecute);
    CountConcat(first.calls, again.calls, IsOpen);
    CountConcat(first.calls + again.calls, retry.calls, IsOpen);
    WrapperOpensNone(s.dylib, s.connHandle, q, e.firstExecute);
    WrapperOpensNone(again.state.dylib, again.state.connHandle, q, e.retryExecute);
  }

  /** The query wrapper never opens a connection. */
  lemma WrapperOpensNone(dylib: Option<Library>, h: Option<string>, q: string, n: NativeResult)
    ensures Count(QueryWrapper.ExecuteQuery(dylib, h, q, n).calls, IsOpen) == 0
  {
    var calls := QueryWrapper.ExecuteQuery(dylib, h, q, n).calls;
    if dylib.Some? {
      var rest := ParseResult(n).calls;
      assert calls == [ExecuteCall(h, q)] + rest;
      CountSingleton(ExecuteCall(h, q), IsOpen);
      CountConcat([ExecuteCall(h, q)], rest, IsOpen);
      if n.Buffer? {
        CountSingleton(ReadResult(n.addr), IsOpen);
        if n.json.Return? {
          assert rest == [ReadResult(n.addr)] + [FreeResult(n.addr)];
          CountSingleton(FreeResult(n.addr), IsOpen);
          CountConcat([ReadResult(n.addr)], [FreeResult(n.addr)], IsOpen);
        }
      }
    }
  }

  /** The first attempt's error never reaches the caller: two runs that
      differ only in how the first attempt failed end alike. */
  lemma FirstFailureDiscarded(s: WorkerState, m: Inbound, q: string, e: Engine, other: NativeResult)
    requires !s.closed && s.dylib.Some? && IsQuery(m, q)
    requires !Delivers(e.firstExecute) && !Delivers(other)
    ensures Step(s, m, e).reply == Step(s, m, e.(firstExecute := other)).reply
    ensures Step(s, m, e).state == Step(s, m, e.(firstExecute := other)).state
  {
    var e2 := e.(firstExecute := other);
    assert QueryWrapper.ExecuteQuery(s.dylib, s.connHandle, q, e.firstExecute).value.Throw?;
    assert QueryWrapper.ExecuteQuery(s.dylib, s.connHandle, q, other).value.Throw?;
    assert Reconnect(s, e) == Reconnect(s, e2);
    assert HandleQuery(s, q, e).state == HandleQuery(s, q, e2).state;
    assert HandleQuery(s, q, e).outcome == HandleQuery(s, q, e2).outcome;
    StepOfQuery(s, m, q, e);
    StepOfQuery(s, m, q, e2);
  }

  /** A query message is answered with what `handleQuery` returns or throws. */
  lemma StepOfQuery(s: WorkerState, m: Inbound, q: string, e: Engine)
    requires !s.closed && IsQuery(m, q)
    ensures Step(s, m, e) == StepResult(HandleQuery(s, q, e).state,
      Some(QueryReply(HandleQuery(s, q, e).outcome)), HandleQuery(s, q, e).calls)
  {
  }

  /** When the reconnect after a failed first attempt fails (its close or
      its open throws), that error is the reply and no retry is made. */
  lemma ReconnectFailureSkipsRetry(s: WorkerState, m: Inbound, q: string, e: Engine)
    requires !s.closed && s.dylib.Some? && IsQuery(m, q) && !Delivers(e.firstExecute)
    requires (s.connHandle.Some? && e.close.Throw?) || e.open.Throw?
    ensures Step(s, m, e).reply == Some(ErrorReplyFor(
      if s.connHandle.Some? && e.close.Throw? then e.close.error else e.open.error))
    ensures Step(s, m, e).state ==
      (if s.connHandle.Some? && e.close.Throw? then s else s.(connHandle := None))
    ensures Count(Step(s, m, e).calls, IsExecute) == 1
  {
    var first := QueryWrapper.ExecuteQuery(s.dylib, s.connHandle, q, e.firstExecute);
    var again := Reconnect(s, e);
    QueryWrapper.ExecuteQueryCallsOnce(s.dylib, s.connHandle, q, e.firstExecute);
    ReconnectCalls(s, e);
    CountConcat(first.calls, again.calls, IsExecute);
  }

  /** The engine's message for a failing query survives into the reply, so
      a caller can find the offending identifier in it. */
  lemma EngineErrorReachesCaller(s: WorkerState, m: Inbound, q: string, e: Engine, addr: Address, res: QueryResult)
    requires !s.closed && s.dylib.Some? && IsQuery(m, q) && !Delivers(e.firstExecute)
    requires !(s.connHandle.Some? && e.close.Throw?) && e.open.Return?
    requires e.retryExecute == Buffer(addr, Return(res)) && res.error != ""
    ensures Step(s, m, e).reply.Some? && Step(s, m, e).reply.value.ErrorReply?
    ensures Contains(Step(s, m, e).reply.value.error, res.error)
  {
    QueryRetriedOnceAfterReconnect(s, m, q, e);
  }

  /** After any query, whatever its fate, the next query whose first
      attempt succeeds is answered with its result. */
  lemma QueryAfterFailedQuery(s: WorkerState, m1: Inbound, q1: string, e1: Engine,
                              m2: Inbound, q2: string, e2: Engine)
    requires !s.closed && s.dylib.Some? && IsQuery(m1, q1) && IsQuery(m2, q2)
    requires Delivers(e2.firstExecute)
    ensures Step(Step(s, m1, e1).state, m2, e2).reply == Some(ResultReply(e2.firstExecute.json.value))
  {
    var s1 := Step(s, m1, e1).state;
    assert s1.dylib.Some? && !s1.closed;
    QueryAnsweredByFirstAttempt(s1, m2, q2, e2);
  }

  /** A connect stores its options before reconnecting (even if the
      reconnect then fails) and opens with exactly those options; the reply
      is `{}` precisely when the reconnect succeeds. */
  lemma ConnectStoresOptions(s: WorkerState, data: string, req: WorkerRequest, e: Engine)
    requires !s.closed && req.connect.Some? && (s.dylib.Some? || e.load.Return?)
    ensures Step(s, Inbound(data, Return(req)), e).state.connectOptions == req.connect
    ensures Step(s, Inbound(data, Return(req)), e).state.dylib ==
      (if s.dylib.Some? then s.dylib else Some(Library(req.libPath)))
    ensures !(s.connHandle.Some? && e.close.Throw?) ==>
      OpenCall(req.connect) in Step(s, Inbound(data, Return(req)), e).calls
    ensures Step(s, Inbound(data, Return(req)), e).reply == Some(EmptyReply) <==>
      !(s.connHandle.Some? && e.close.Throw?) && e.open.Return?
  {
    var loaded := if s.dylib.None? then s.(dylib := Some(Library(req.libPath))) else s;
    var again := Reconnect(loaded.(connectOptions := req.connect), e);
    if !again.outcome.Return? {
      assert Step(s, Inbound(data, Return(req)), e).reply == Some(ErrorReplyFor(again.outcome.error));
    }
  }

  /** A connect whose library load fails replies with that error and
      changes nothing. */
  lemma ConnectLoadFailure(s: WorkerState, data: string, req: WorkerRequest, e: Engine)
    requires !s.closed && req.connect.Some? && s.dylib.None? && e.load.Throw?
    ensures Step(s, Inbound(data, Return(req)), e) ==
      StepResult(s, Some(ErrorReplyFor(e.load.error)), [LoadLibrary(req.libPath)])
  {
  }

  /** A close replies `{}` whatever the native close does, closes the held
      connection and then the loaded library, and ends the worker. */
  lemma CloseEndsWorker(s: WorkerState, m: Inbound, e: Engine, other: Engine)
    requires !s.closed && IsCloseRequest(m)
    ensures Step(s, m, e) == StepResult(s.(closed := true), Some(EmptyReply),
      (if s.connHandle.Some? then [CloseCall(s.connHandle.value)] else []) +
      (if s.dylib.Some? then [CloseLibrary] else []))
    ensures Step(s, m, other) == Step(s, m, e)
  {
  }

  /** After a close, the worker answers nothing more. */
  lemma NothingAfterClose(s: WorkerState, m: Inbound, e: Engine, later: seq<Delivery>)
    requires !s.closed && IsCloseRequest(m)
    ensures Run(s, [Delivery(m, e)] + later).replies == [EmptyReply]
  {
    var inbox := [Delivery(m, e)] + later;
    assert inbox[1..] == later;
    CloseEndsWorker(s, m, e, e);
  }

  /** Every open the worker makes uses the stored options, and they are
      never `null`. */
  lemma OpenUsesStoredOptions(s: WorkerState, m: Inbound, e: Engine, i: nat)
    requires Consistent(s)
    requires i < |Step(s, m, e).calls| && Step(s, m, e).calls[i].OpenCall?
    ensures Step(s, m, e).calls[i].options.Some?
    ensures Step(s, m, e).calls[i].options == Step(s, m, e).state.connectOptions
  {
    var r := Step(s, m, e);
    if m.parsed.Return? && !s.closed {
      var req := m.parsed.value;
      if req.connect.Some? {
        var loaded := if s.dylib.None? then s.(dylib := Some(Library(req.libPath))) else s;
        var st := loaded.(connectOptions := req.connect);
        ReconnectOpensOnlyLast(st, e);
        if !(s.dylib.None? && e.load.Throw?) {
          var loading := if s.dylib.None? then [LoadLibrary(req.libPath)] else [];
          assert r.calls == loading + Reconnect(st, e).calls;
        }
      } else if !req.close && IsQueryText(req.query) && s.dylib.Some? {
        var q := req.query.value;
        var first := QueryWrapper.ExecuteQuery(s.dylib, s.connHandle, q, e.firstExecute);
        WrapperNeverOpens(s.dylib, s.connHandle, q, e.firstExecute);
        if first.value.Throw? {
          var again := Reconnect(s, e);
          ReconnectOpensOnlyLast(s, e);
          if again.outcome.Return? {
            var retry := QueryWrapper.ExecuteQuery(again.state.dylib, again.state.connHandle, q, e.retryExecute);
            WrapperNeverOpens(again.state.dylib, again.state.connHandle, q, e.retryExecute);
            assert r.calls == first.calls + again.calls + retry.calls;
          }
        }
      }
    }
  }

  /** The only open in a reconnect carries the state's options. */
  lemma ReconnectOpensOnlyLast(s: WorkerState, e: Engine)
    ensures forall c :: c in Reconnect(s, e).calls && c.OpenCall? ==>
      c == OpenCall(s.connectOptions)
  {
  }

  /** The query wrapper's calls contain no open: `WrapperOpensNone` read
      as membership rather than as a count. */
  lemma WrapperNeverOpens(dylib: Option<Library>, h: Option<string>, q: string, n: NativeResult)
    ensures forall c :: c in QueryWrapper.ExecuteQuery(dylib, h, q, n).calls ==> !c.OpenCall?
  {
    WrapperOpensNone(dylib, h, q, n);
    CountZero(QueryWrapper.ExecuteQuery(dylib, h, q, n).calls, IsOpen);
  }

  /** Release accounting for one message: frees never outnumber executes,
      and when every native buffer decodes, each execute's buffer is freed
      exactly once. */
  lemma StepReleasesPayloads(s: WorkerState, m: Inbound, e: Engine)
    ensures Count(Step(s, m, e).calls, IsFree) <= Count(Step(s, m, e).calls, IsExecute)
    ensures Releases(e.firstExecute) && Releases(e.retryExecute) ==>
      Count(Step(s, m, e).calls, IsFree) == Count(Step(s, m, e).calls, IsExecute)
  {
    if !s.closed && m.parsed.Return? {
      var req := m.parsed.value;
      if req.connect.Some? {
        var loaded := if s.dylib.None? then s.(dylib := Some(Library(req.libPath))) else s;
        var st := loaded.(connectOptions := req.connect);
        ReconnectCalls(st, e);
        if !(s.dylib.None? && e.load.Throw?) {
          var loading := if s.dylib.None? then [LoadLibrary(req.libPath)] else [];
          assert Step(s, m, e).calls == loading + Reconnect(st, e).calls;
          CountConcat(loading, Reconnect(st, e).calls, IsFree);
          CountConcat(loading, Reconnect(st, e).calls, IsExecute);
          if s.dylib.None? {
            CountSingleton(loading[0], IsFree);
            CountSingleton(loading[0], IsExecute);
          }
        } else {
          CountSingleton(LoadLibrary(req.libPath), IsFree);
          CountSingleton(LoadLibrary(req.libPath), IsExecute);
        }
      } else if req.close {
        var closing := if s.connHandle.Some? then [CloseCall(s.connHandle.value)] else [];
        var unloading := if s.dylib.Some? then [CloseLibrary] else [];
        assert Step(s, m, e).calls == closing + unloading;
        CountConcat(closing, unloading, IsFree);
        CountConcat(closing, unloading, IsExecute);
        if s.connHandle.Some? {
          CountSingleton(closing[0], IsFree);
          CountSingleton(closing[0], IsExecute);
        }
        if s.dylib.Some? {
          CountSingleton(unloading[0], IsFree);
          CountSingleton(unloading[0], IsExecute);
        }
      } else if IsQueryText(req.query) {
        QueryCounts(s, req.query.value, e);
      }
    }
  }

  /** Over any sequence of messages the library is loaded at most once:
      once it is loaded, no further load happens. */
  lemma {:induction false} RunLoadsLibraryOnce(s: WorkerState, inbox: seq<Delivery>)
    requires s.dylib.Some?
    ensures Count(Run(s, inbox).calls, IsLoad) == 0
    ensures Run(s, inbox).state.dylib == s.dylib
    decreases |inbox|
  {
    if |inbox| > 0 {
      var step := Step(s, inbox[0].message, inbox[0].engine);
      StepKeepsLibrary(s, inbox[0].message, inbox[0].engine);
      RunLoadsLibraryOnce(step.state, inbox[1..]);
      CountConcat(step.calls, Run(step.state, inbox[1..]).calls, IsLoad);
    }
  }

  /** Over any sequence of messages the globals stay consistent. */
  lemma {:induction false} RunKeepsConsistent(s: WorkerState, inbox: seq<Delivery>)
    requires Consistent(s)
    ensures Consistent(Run(s, inbox).state)
    decreases |inbox|
  {
    if |inbox| > 0 {
      StepKeepsConsistent(s, inbox[0].message, inbox[0].engine);
      RunKeepsConsistent(Step(s, inbox[0].message, inbox[0].engine).state, inbox[1..]);
    }
  }

  /** Release accounting over a whole run: when every native buffer
      decodes, frees equal executes. */
  lemma {:induction false} RunReleasesPayloads(s: WorkerState, inbox: seq<Delivery>)
    requires forall i :: 0 <= i < |inbox| ==>
      Releases(inbox[i].engine.firstExecute) && Releases(inbox[i].engine.retryExecute)
    ensures Count(Run(s, inbox).calls, IsFree) == Count(Run(s, inbox).calls, IsExecute)
    decreases |inbox|
  {
    if |inbox| > 0 {
      var step := Step(s, inbox[0].message, inbox[0].engine);
      StepReleasesPayloads(s, inbox[0].message, inbox[0].engine);
      RunReleasesPayloads(step.state, inbox[1..]);
      CountConcat(step.calls, Run(step.state, inbox[1..]).calls, IsFree);
      CountConcat(step.calls, Run(step.state, inbox[1..]).calls, IsExecute);
    }
  }
}
