/** The two sides of the FFI boundary put together: a `QueryResult` built
    by the native library travels through `ffi_json` and comes out of
    `parseResult` on the TypeScript side. JSON itself is not modelled: a
    `Codec` pairs serde's encoding with `JSON.parse`, and the lemmas assume
    only that decoding undoes encoding. */
module Boundary {
  import opened Prelude
  import opened Js
  import opened Types
  import opened RustInt
  import opened NativeResults
  import opened Rows
  import opened FfiResult
  import opened FfiJson
  import opened EntryPoints

  /** `serde_json::to_string` for query results and `JSON.parse` back. */
  datatype Codec = Codec(encode: QueryResult -> string, decode: string -> Try<QueryResult>)

  /** Encoding never emits a NUL and decoding undoes it. */
  ghost predicate Faithful(c: Codec) {
    forall q :: Nul !in c.encode(q) && c.decode(c.encode(q)) == Return(q)
  }

  /** The pointer the TypeScript side receives for a native result: null,
      or a buffer whose C string it parses. */
  function Transfer(out: Option<Allocation>, decode: string -> Try<QueryResult>): NativeResult {
    match out
    case None => NullPointer
    case Some(a) => Buffer(a.addr, decode(ReadCString(a.bytes)))
  }

  /** A query result sent by the library from a `malloc` block at `malloc`. */
  function Deliver(result: QueryResult, c: Codec, malloc: nat): NativeResult {
    Transfer(FfiJson.Encode(Ok(c.encode(result)), malloc), c.decode)
  }

  /** What the TypeScript caller sees for a result: an `Error` carrying a
      non-empty error field, or the record itself. */
  function Seen(result: QueryResult): Try<QueryResult> {
    if result.error != "" then Throw(Error(result.error)) else Return(result)
  }

  /** What the library sends is what the TypeScript side decodes: a failed
      `malloc` becomes the null pointer, and otherwise the buffer sits at
      the address `malloc` returned and its C string parses back to the
      very result that was encoded. */
  lemma DeliverDecodes(result: QueryResult, c: Codec, malloc: nat)
    requires Faithful(c)
    ensures malloc == 0 ==> Deliver(result, c, malloc) == NullPointer
    ensures malloc != 0 ==> Deliver(result, c, malloc) == Buffer(malloc, Return(result))
  {
    if malloc != 0 {
      var text := c.encode(result);
      assert Nul !in text && c.decode(text) == Return(result);
      EncodeRoundTrip(Ok(text), malloc);
    }
  }

  /** A failed `malloc` reaches the caller as the allocation error, with
      nothing read or freed; otherwise the result arrives intact, its
      buffer read once and then freed once. */
  lemma DeliverRoundTrip(result: QueryResult, c: Codec, malloc: nat)
    requires Faithful(c)
    ensures malloc == 0 ==>
      ParseResult(Deliver(result, c, malloc)) == Traced(Throw(Error(AllocationErrorMessage)), [])
    ensures malloc != 0 ==>
      ParseResult(Deliver(result, c, malloc)) ==
        Traced(Seen(result), [ReadResult(malloc), FreeResult(malloc)])
  {
    DeliverDecodes(result, c, malloc);
  }

  /** A query sent from the wrong thread surfaces in TypeScript as an
      `Error` whose message names both threads. */
  lemma WrongThreadReachesCaller(handle: string, query: string, owner: nat, current: nat,
                                 heap: Heap, server: ServerReply, c: Codec, malloc: nat)
    requires Faithful(c) && malloc != 0
    requires ParseUsize(handle).Ok? && ParseUsize(handle).value in heap
    requires heap[ParseUsize(handle).value].threadId == owner && owner != current
    ensures var native := EntryPoints.ExecuteQuery(Ok(QueryOptions(handle, query)), current, heap, server);
      var seen := ParseResult(Deliver(native.result, c, malloc)).value;
      native.ran.None? && seen.Throw? && seen.error.name == "Error" &&
      Contains(seen.error.message, Decimal(owner)) && Contains(seen.error.message, Decimal(current))
  {
    var native := EntryPoints.ExecuteQuery(Ok(QueryOptions(handle, query)), current, heap, server);
    DeliverRoundTrip(native.result, c, malloc);
  }

  /** A query that runs on the owning thread and whose stream ends cleanly
      returns to TypeScript exactly the columns and rows the server sent. */
  lemma RowsReachCaller(handle: string, query: string, current: nat, heap: Heap,
                        items: seq<QueryItem>, c: Codec, malloc: nat)
    requires Faithful(c) && malloc != 0
    requires ParseUsize(handle).Ok? && ParseUsize(handle).value in heap
    requires heap[ParseUsize(handle).value].threadId == current
    ensures var native := EntryPoints.ExecuteQuery(Ok(QueryOptions(handle, query)), current, heap,
                                                   Stream(items, None));
      native.ran == Some(query) &&
      ParseResult(Deliver(native.result, c, malloc)).value ==
        Return(QueryResult("", ColumnNames(items), RowTexts(items)))
  {
    var native := EntryPoints.ExecuteQuery(Ok(QueryOptions(handle, query)), current, heap,
                                           Stream(items, None));
    DeliverRoundTrip(native.result, c, malloc);
  }
}
