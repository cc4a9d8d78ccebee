/** Shared vocabulary: optional values, Rust-style results, and substring
    containment on strings (the property callers of the library rely on when
    they look for an identifier inside an error message). */
module Prelude {

  /** An optional value; `None` stands for JavaScript `null` or Rust `None`. */
  datatype Option<+T> = None | Some(value: T) {
    function GetOr(default: T): T {
      match this
      case Some(v) => v
      case None => default
    }
  }

  /** Rust's `Result`. */
  datatype Result<+T, +E> = Ok(value: T) | Err(error: E)

  /** A non-null pointer: the address of a live allocation. */
  type Address = a: nat | a > 0 witness 1

  /** Concatenation is associative. */
  lemma AppendAssoc<T>(a: seq<T>, b: seq<T>, c: seq<T>)
    ensures a + b + c == a + (b + c)
  {
  }

  /** `t` occurs somewhere inside `s` (JavaScript `s.includes(t)`). */
  predicate Contains(s: string, t: string)
    decreases |s|
  {
    t <= s || (|s| > 0 && Contains(s[1..], t))
  }

  /** Whatever surrounds `t`, the result contains it. */
  lemma {:induction false} ContainsInfix(a: string, t: string, b: string)
    ensures Contains(a + t + b, t)
  {
    if |a| == 0 {
      assert a + t + b == t + b;
      assert t <= t + b;
    } else {
      ContainsInfix(a[1..], t, b);
      assert (a + t + b)[1..] == a[1..] + t + b;
    }
  }

  /** A string that starts with `m` contains everything `m` contains. */
  lemma {:induction false} ContainsFromPrefix(s: string, m: string, t: string)
    requires m <= s
    requires Contains(m, t)
    ensures Contains(s, t)
    decreases |m|
  {
    if t <= m {
      assert t <= s;
    } else {
      assert |m| > 0 && Contains(m[1..], t);
      assert m[1..] <= s[1..];
      ContainsFromPrefix(s[1..], m[1..], t);
    }
  }

  /** Containment is transitive. */
  lemma {:induction false} ContainsTransitive(s: string, m: string, t: string)
    requires Contains(s, m)
    requires Contains(m, t)
    ensures Contains(s, t)
    decreases |s|
  {
    if m <= s {
      ContainsFromPrefix(s, m, t);
    } else {
      ContainsTransitive(s[1..], m, t);
    }
  }
}
