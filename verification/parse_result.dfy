/** The decoder of native result pointers (ts/parseResult.ts) and the trace
    of native calls the TypeScript side makes. Pointers are addresses; the
    memory behind a non-null pointer is represented by the outcome of
    `JSON.parse` on the C string stored there. */
module FfiResult {
  import opened Prelude
  import opened Js
  import opened Types

  /** A loaded native library (`Deno.dlopen`), remembered with the path it
      was loaded from. */
  datatype Library = Library(path: Option<string>)

  /** One call across the FFI boundary, or one library-level action. */
  datatype Call =
    | LoadLibrary(path: Option<string>)
    | OpenCall(options: Option<ConnectOptions>)
    | CloseCall(handle: string)
    | ExecuteCall(connHandle: Option<string>, query: string)
    | ReadResult(addr: Address)
    | FreeResult(addr: Address)
    | CloseLibrary

  /** What a native entry point handed back: the null pointer, or a buffer
      at the non-zero address `addr` whose C string `JSON.parse` turns into
      `json`. Pointer value 0 is always `NullPointer`. */
  datatype NativeResult =
    | NullPointer
    | Buffer(addr: Address, json: Try<QueryResult>)

  /** A value together with the native calls made while computing it. */
  datatype Traced<+T> = Traced(value: T, calls: seq<Call>)

  const AllocationErrorMessage := "FFI result allocation error"

  /** `parseResult(dylib, ptr)`: a null pointer is an allocation error and
      nothing is freed; otherwise the C string is read, parsed, the buffer
      freed, and a non-empty `error` field rethrown verbatim. A `JSON.parse`
      exception propagates before the free. */
  function ParseResult(p: NativeResult): (r: Traced<Try<QueryResult>>)
    ensures p.NullPointer? ==>
      r.value == Throw(Error(AllocationErrorMessage)) && r.calls == []
    ensures p.Buffer? ==> |r.calls| > 0 && r.calls[0] == ReadResult(p.addr)
    ensures p.Buffer? && p.json.Return? ==>
      r.calls == [ReadResult(p.addr), FreeResult(p.addr)]
    ensures p.Buffer? && p.json.Return? && p.json.value.error != "" ==>
      r.value == Throw(Error(p.json.value.error))
    ensures p.Buffer? && p.json.Return? && p.json.value.error == "" ==>
      r.value == Return(p.json.value)
    ensures p.Buffer? && p.json.Throw? ==>
      r.value == p.json && r.calls == [ReadResult(p.addr)]
  {
    match p
    case NullPointer =>
      Traced(Throw(Error(AllocationErrorMessage)), [])
    case Buffer(addr, json) =>
      match json
      case Throw(e) => Traced(Throw(e), [ReadResult(addr)])
      case Return(res) =>
        var calls := [ReadResult(addr), FreeResult(addr)];
        if res.error != "" then Traced(Throw(Error(res.error)), calls)
        else Traced(Return(res), calls)
  }

  /** Number of calls in a trace that satisfy `p`. */
  function Count(calls: seq<Call>, p: Call -> bool): nat
    decreases |calls|
  {
    if |calls| == 0 then 0
    else (if p(calls[0]) then 1 else 0) + Count(calls[1..], p)
  }

  lemma {:induction false} CountConcat(a: seq<Call>, b: seq<Call>, p: Call -> bool)
    ensures Count(a + b, p) == Count(a, p) + Count(b, p)
    decreases |a|
  {
    if |a| == 0 {
      assert a + b == b;
    } else {
      assert (a + b)[1..] == a[1..] + b;
      CountConcat(a[1..], b, p);
    }
  }

  lemma CountSingleton(c: Call, p: Call -> bool)
    ensures Count([c], p) == if p(c) then 1 else 0
  {
    assert [c][1..] == [];
  }

  /** A trace counts no call satisfying `p` exactly when it holds none. */
  lemma {:induction false} CountZero(calls: seq<Call>, p: Call -> bool)
    ensures Count(calls, p) == 0 <==> forall c :: c in calls ==> !p(c)
    decreases |calls|
  {
    if |calls| > 0 {
      CountZero(calls[1..], p);
      assert calls == [calls[0]] + calls[1..];
    }
  }

  predicate IsExecute(c: Call) { c.ExecuteCall? }
  predicate IsFree(c: Call) { c.FreeResult? }
  predicate IsOpen(c: Call) { c.OpenCall? }
  predicate IsClose(c: Call) { c.CloseCall? }
  predicate IsLoad(c: Call) { c.LoadLibrary? }

  /** No `ReadResult(a)` comes after a `FreeResult(a)`. */
  predicate NoReadAfterFree(calls: seq<Call>)
  {
    forall i, j :: 0 <= i < j < |calls| && calls[i].FreeResult? ==>
      calls[j] != ReadResult(calls[i].addr)
  }

  /** The release contract of the decoder: a parsed buffer is freed exactly
      once, a null pointer or an unparseable buffer not at all, and nothing
      is read once freed. */
  lemma ParseResultReleasesOnce(p: NativeResult)
    ensures Count(ParseResult(p).calls, IsFree) == (if p.Buffer? && p.json.Return? then 1 else 0)
    ensures Count(ParseResult(p).calls, IsExecute) == 0
    ensures NoReadAfterFree(ParseResult(p).calls)
  {
    var calls := ParseResult(p).calls;
    if p.Buffer? {
      CountSingleton(ReadResult(p.addr), IsFree);
      CountSingleton(ReadResult(p.addr), IsExecute);
      if p.json.Return? {
        CountSingleton(FreeResult(p.addr), IsFree);
        CountSingleton(FreeResult(p.addr), IsExecute);
        CountConcat([ReadResult(p.addr)], [FreeResult(p.addr)], IsFree);
        CountConcat([ReadResult(p.addr)], [FreeResult(p.addr)], IsExecute);
      }
    }
  }

  /** The engine's message reaches the caller unchanged: whatever the
      decoder throws for an engine error has exactly that message, and its
      rendering contains it. */
  lemma EngineErrorVerbatim(addr: Address, res: QueryResult)
    requires res.error != ""
    ensures ParseResult(Buffer(addr, Return(res))).value.Throw?
    ensures ParseResult(Buffer(addr, Return(res))).value.error.message == res.error
    ensures Contains(Show(ParseResult(Buffer(addr, Return(res))).value.error), res.error)
  {
  }
}
