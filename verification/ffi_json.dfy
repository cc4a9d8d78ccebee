/** How the native library hands a result across the C boundary
    (src/lib.rs `ffi_json`) and how the TypeScript side reads it back
    (`UnsafePointerView.getCString`): JSON text, one NUL, in a fresh
    `malloc` block, or the null pointer when `malloc` fails. Bytes are
    modelled as characters; UTF-8 encoding is not modelled. */
module FfiJson {
  import opened Prelude

  const Nul: char := '\0'

  /** What `ffi_json` sends when serde cannot serialise the value. */
  const JsonErrorText := "{\"error\": \"JSON error\"}"

  /** A `malloc` block at a non-null address holding `bytes`. */
  datatype Allocation = Allocation(addr: Address, bytes: string)

  /** `ffi_json(value)`, where `serialized` is what `serde_json::to_string`
      returned and `malloc` the address `malloc` returned (0 when it
      failed). The text is the JSON, or the fallback on a serialisation
      error, followed by exactly one NUL. */
  function Encode(serialized: Result<string, string>, malloc: nat): (r: Option<Allocation>)
    ensures r.None? <==> malloc == 0
    ensures r.Some? ==> r.value.addr == malloc
    ensures r.Some? ==>
      |r.value.bytes| > 0 && r.value.bytes[|r.value.bytes| - 1] == Nul &&
      r.value.bytes[..|r.value.bytes| - 1] == (if serialized.Ok? then serialized.value else JsonErrorText)
  {
    var text := match serialized
      case Ok(json) => json
      case Err(_) => JsonErrorText;
    var bytes := text + [Nul];
    assert bytes[..|bytes| - 1] == text;
    if malloc == 0 then None else Some(Allocation(malloc, bytes))
  }

  /** `getCString`: the characters before the first NUL. */
  function ReadCString(bytes: string): (r: string)
    ensures r <= bytes
    ensures Nul !in r
    ensures |r| < |bytes| ==> bytes[|r|] == Nul
    decreases |bytes|
  {
    if |bytes| == 0 || bytes[0] == Nul then []
    else [bytes[0]] + ReadCString(bytes[1..])
  }

  /** Reading a terminated string back gives exactly the text before the
      terminator, provided the text holds no NUL of its own. */
  lemma {:induction false} ReadTerminated(text: string)
    requires Nul !in text
    ensures ReadCString(text + [Nul]) == text
    decreases |text|
  {
    if |text| == 0 {
      assert (text + [Nul])[0] == Nul;
    } else {
      assert (text + [Nul])[1..] == text[1..] + [Nul];
      assert text[0] in text;
      assert forall c :: c in text[1..] ==> c in text;
      ReadTerminated(text[1..]);
      assert [text[0]] + text[1..] == text;
    }
  }

  /** The reader recovers what the writer sent: JSON text without NUL
      characters (serde escapes every control character) comes back whole,
      and so does the fallback text. */
  lemma EncodeRoundTrip(serialized: Result<string, string>, malloc: nat)
    requires malloc != 0
    requires serialized.Ok? ==> Nul !in serialized.value
    ensures ReadCString(Encode(serialized, malloc).value.bytes) ==
      (if serialized.Ok? then serialized.value else JsonErrorText)
  {
    var text := if serialized.Ok? then serialized.value else JsonErrorText;
    assert Nul !in JsonErrorText;
    ReadTerminated(text);
  }
}
