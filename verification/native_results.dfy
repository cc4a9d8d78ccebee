/** The result records the native library builds (src/lib.rs), and its
    thread check: a connection may only be used on the thread that opened
    it. */
module NativeResults {
  import opened Prelude
  import opened Types
  import opened RustInt

  /** `ConnectResult::new(handle)`: the handle as decimal text, no error. */
  function NewConnectResult(handle: nat): ConnectResult {
    ConnectResult(Decimal(handle), "")
  }

  /** `ConnectResult::new_error(error)`: no handle. */
  function ConnectError(error: string): ConnectResult {
    ConnectResult("", error)
  }

  /** `CloseResult::new()`. */
  function NewCloseResult(): CloseResult {
    CloseResult("")
  }

  /** `CloseResult::new_error(error)`. */
  function CloseError(error: string): CloseResult {
    CloseResult(error)
  }

  /** `QueryResult::new(metadata, data)`. */
  function NewQueryResult(metadata: seq<string>, data: seq<seq<string>>): QueryResult {
    QueryResult("", metadata, data)
  }

  /** `QueryResult::new_error(error)`: no columns, no rows. */
  function QueryError(error: string): QueryResult {
    QueryResult(error, [], [])
  }

  /** A successful connect result names its connection: the handle text
      parses back to the handle, and the error is empty. */
  lemma ConnectResultCarriesHandle(handle: nat)
    requires handle <= UsizeMax
    ensures NewConnectResult(handle).error == ""
    ensures ParseUsize(NewConnectResult(handle).handle) == Ok(handle)
  {
    ParseDecimal(handle);
  }

  /** A failed connect result carries no usable handle: its handle text is
      empty and parses to nothing. */
  lemma ConnectErrorCarriesNoHandle(error: string)
    ensures ConnectError(error).error == error
    ensures ParseUsize(ConnectError(error).handle) == Err(Empty)
  {
  }

  /** A close result reports failure by its error alone: the plain result
      has an empty error and an error result built from a message is never
      mistaken for it. */
  lemma CloseResultsDiffer(error: string)
    requires error != ""
    ensures NewCloseResult().error == ""
    ensures CloseError(error).error == error && CloseError(error) != NewCloseResult()
  {
  }

  /** A successful query result carries the columns and rows it was built
      from, an empty error, and differs from every error result. */
  lemma QueryResultCarriesRows(metadata: seq<string>, data: seq<seq<string>>, error: string)
    requires error != ""
    ensures NewQueryResult(metadata, data).error == ""
    ensures NewQueryResult(metadata, data).metadata == metadata
    ensures NewQueryResult(metadata, data).data == data
    ensures NewQueryResult(metadata, data) != QueryError(error)
  {
  }

  /** A query error result carries no partial result. */
  lemma QueryErrorIsEmpty(error: string)
    ensures QueryError(error).metadata == [] && QueryError(error).data == []
    ensures QueryError(error).error == error
  {
  }

  /** The fixed parts of the thread-mismatch message. */
  const ThreadHead := "Invalid thread, id: ["
  const ThreadMiddle := "], database operations on this connection can only be performed on thread, id: ["

  /** `check_thread(tid)` run on thread `current`: nothing when the
      connection's thread `tid` is the current one; otherwise a message
      naming both, the current thread first. */
  function CheckThread(tid: nat, current: nat): (r: Option<string>)
    ensures r.None? <==> tid == current
    ensures r.Some? ==> Contains(r.value, Decimal(current)) && Contains(r.value, Decimal(tid))
    ensures r.Some? ==> r.value != ""
  {
    if tid != current then
      var head := ThreadHead;
      var middle := ThreadMiddle;
      var msg := head + Decimal(current) + (middle + Decimal(tid) + "]");
      ContainsInfix(head, Decimal(current), middle + Decimal(tid) + "]");
      ContainsInfix(head + Decimal(current) + middle, Decimal(tid), "]");
      assert msg == head + Decimal(current) + middle + Decimal(tid) + "]";
      Some(msg)
    else
      None
  }
}
