/** The JavaScript exception vocabulary the worker and its helpers use. */
module Js {
  import opened Prelude

  /** A thrown error object: its constructor `name` and its `message`. */
  datatype Thrown = Thrown(name: string, message: string)

  /** `new Error(message)`. */
  function Error(message: string): Thrown {
    Thrown("Error", message)
  }

  /** `Error.prototype.toString`, which a template literal `${e}` applies to
      a caught error: the name and the message joined by ": ", or whichever
      of the two is non-empty. */
  function Show(e: Thrown): (r: string)
    ensures Contains(r, e.message)
    ensures e.name == "Error" ==> "Error" <= r
  {
    if e.name == "" then
      ContainsInfix("", e.message, "");
      e.message
    else if e.message == "" then
      assert "" <= e.name;
      e.name
    else
      ContainsInfix(e.name + ": ", e.message, "");
      assert e.name + ": " + e.message == e.name + ": " + e.message + "";
      e.name + ": " + e.message
  }

  /** How an `Error` with a message renders. */
  lemma ShowError(message: string)
    requires message != ""
    ensures Show(Error(message)) == "Error: " + message
  {
    assert "Error" + ": " == "Error: ";
  }

  /** Completion of a JavaScript call: a normal value or an exception in
      flight. */
  datatype Try<+T> = Return(value: T) | Throw(error: Thrown)
}
