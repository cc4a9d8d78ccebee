/** The query wrapper (ts/mssqlExecuteQuery.ts): refuse without a loaded
    library, otherwise make one native `mssql_execute_query` call and decode
    its result pointer. */
module QueryWrapper {
  import opened Prelude
  import opened Js
  import opened Types
  import opened FfiResult

  const NotInitializedMessage := "Native library not initialized"

  /** `mssqlExecuteQuery(dylib, {connHandle, query})`, where `native` is what
      the native call hands back. The handle may be JavaScript `null`; it is
      passed through untouched. */
  function ExecuteQuery(dylib: Option<Library>, connHandle: Option<string>, query: string,
                        native: NativeResult): (r: Traced<Try<QueryResult>>)
    ensures dylib.None? ==>
      r.value == Throw(Error(NotInitializedMessage)) && r.calls == []
    ensures dylib.Some? ==>
      |r.calls| > 0 && r.calls[0] == ExecuteCall(connHandle, query)
    ensures dylib.Some? ==>
      r.value == ParseResult(native).value && r.calls[1..] == ParseResult(native).calls
  {
    if dylib.None? then
      Traced(Throw(Error(NotInitializedMessage)), [])
    else
      var decoded := ParseResult(native);
      Traced(decoded.value, [ExecuteCall(connHandle, query)] + decoded.calls)
  }

  /** The wrapper makes exactly one native execute call when the library is
      loaded and none otherwise, and the buffer it gets back is freed
      exactly as the decoder promises. */
  lemma ExecuteQueryCallsOnce(dylib: Option<Library>, connHandle: Option<string>,
                              query: string, native: NativeResult)
    ensures Count(ExecuteQuery(dylib, connHandle, query, native).calls, IsExecute) ==
      (if dylib.Some? then 1 else 0)
    ensures Count(ExecuteQuery(dylib, connHandle, query, native).calls, IsFree) ==
      (if dylib.Some? && native.Buffer? && native.json.Return? then 1 else 0)
  {
    if dylib.Some? {
      var head := [ExecuteCall(connHandle, query)];
      var rest := ParseResult(native).calls;
      assert ExecuteQuery(dylib, connHandle, query, native).calls == head + rest;
      ParseResultReleasesOnce(native);
      CountConcat(head, rest, IsExecute);
      CountConcat(head, rest, IsFree);
      CountSingleton(head[0], IsExecute);
      CountSingleton(head[0], IsFree);
    }
  }
}
