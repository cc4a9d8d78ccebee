/** Rust's decimal text for `usize`: `to_string` and `str::parse::<usize>`,
    for a 64-bit target. Connection handles travel as this text. */
module RustInt {
  import opened Prelude

  /** `usize::MAX` on a 64-bit target. */
  const UsizeMax: nat := 0xFFFF_FFFF_FFFF_FFFF

  /** The kinds of `ParseIntError` an unsigned parse can report. */
  datatype IntErrorKind = Empty | InvalidDigit | PosOverflow

  /** The `Display` text of a `ParseIntError`. */
  function Describe(k: IntErrorKind): string {
    match k
    case Empty => "cannot parse integer from empty string"
    case InvalidDigit => "invalid digit found in string"
    case PosOverflow => "number too large to fit in target type"
  }

  predicate IsDigit(c: char) {
    '0' <= c <= '9'
  }

  predicate AllDigits(s: string) {
    forall i :: 0 <= i < |s| ==> IsDigit(s[i])
  }

  function DigitValue(c: char): (d: nat)
    requires IsDigit(c)
    ensures d < 10
  {
    (c as int) - ('0' as int)
  }

  function DigitChar(d: nat): (c: char)
    requires d < 10
    ensures IsDigit(c) && DigitValue(c) == d
  {
    (('0' as int) + d) as char
  }

  function Pow10(n: nat): (p: nat)
    ensures p >= 1
  {
    if n == 0 then 1 else 10 * Pow10(n - 1)
  }

  /** The number a digit string denotes, most significant digit first,
      however large. */
  function DigitsValue(s: string): nat
    requires AllDigits(s)
    decreases |s|
  {
    if |s| == 0 then 0 else DigitValue(s[0]) * Pow10(|s| - 1) + DigitsValue(s[1..])
  }

  /** The digits after one optional leading `+`: what `parse::<usize>`
      reads as the number. */
  function Unsigned(s: string): string {
    if |s| > 0 && s[0] == '+' then s[1..] else s
  }

  /** Taking the leading digit into the accumulator keeps the value. */
  lemma ShiftValue(acc: nat, s: string)
    requires |s| > 0 && AllDigits(s)
    ensures AllDigits(s[1..])
    ensures acc * Pow10(|s|) + DigitsValue(s) ==
      (acc * 10 + DigitValue(s[0])) * Pow10(|s| - 1) + DigitsValue(s[1..])
  {
    assert forall i :: 0 <= i < |s[1..]| ==> s[1..][i] == s[i + 1];
    Distribute(acc, DigitValue(s[0]), Pow10(|s| - 1));
  }

  lemma Distribute(a: nat, d: nat, p: nat)
    ensures a * (10 * p) + d * p == (a * 10 + d) * p
  {
  }

  lemma MulAtLeast(a: nat, p: nat)
    requires p >= 1
    ensures a * p >= a
  {
  }

  /** `n.to_string()`: most significant digit first, no leading zeros. */
  function Decimal(n: nat): (s: string)
    ensures |s| > 0
    ensures forall i :: 0 <= i < |s| ==> IsDigit(s[i])
    ensures s[0] == '0' ==> n == 0
  {
    if n < 10 then [DigitChar(n)]
    else Decimal(n / 10) + [DigitChar(n % 10)]
  }

  /** The digit loop of `from_str_radix`: each character must be a digit,
      and multiplying by ten or adding the digit must not exceed
      `usize::MAX`. A bad digit is reported before an overflow caused by the
      same character. */
  function AccumulateDigits(acc: nat, s: string): (r: Result<nat, IntErrorKind>)
    requires acc <= UsizeMax
    ensures r.Ok? ==> r.value <= UsizeMax
    ensures r.Ok? ==> AllDigits(s)
    ensures r.Err? ==> r.error != Empty
    decreases |s|
  {
    if |s| == 0 then Ok(acc)
    else if !IsDigit(s[0]) then Err(InvalidDigit)
    else if acc * 10 > UsizeMax then Err(PosOverflow)
    else if acc * 10 + DigitValue(s[0]) > UsizeMax then Err(PosOverflow)
    else
      var r := AccumulateDigits(acc * 10 + DigitValue(s[0]), s[1..]);
      DigitsCons(s);
      r
  }

  /** `s.parse::<usize>()`: empty text is `Empty`; a lone sign is
      `InvalidDigit`; one leading `+` is allowed; then only digits, with the
      value at most `usize::MAX`. */
  function ParseUsize(s: string): (r: Result<nat, IntErrorKind>)
    ensures r.Ok? ==> r.value <= UsizeMax
    ensures r == Err(Empty) <==> s == ""
    ensures r.Ok? ==> |Unsigned(s)| > 0 && AllDigits(Unsigned(s))
    ensures |Unsigned(s)| > 0 && AllDigits(Unsigned(s)) ==>
      r == if DigitsValue(Unsigned(s)) <= UsizeMax then Ok(DigitsValue(Unsigned(s))) else Err(PosOverflow)
  {
    AccumulateValue(0, Unsigned(s));
    if |s| == 0 then Err(Empty)
    else if (s[0] == '+' || s[0] == '-') && |s| == 1 then Err(InvalidDigit)
    else if s[0] == '+' then AccumulateDigits(0, s[1..])
    else AccumulateDigits(0, s)
  }

  /** On digit text the loop computes the positional value, continuing from
      `acc`, and overflows exactly when that value exceeds `usize::MAX`. */
  lemma {:induction false} AccumulateValue(acc: nat, s: string)
    requires acc <= UsizeMax
    ensures AllDigits(s) ==>
      var v := acc * Pow10(|s|) + DigitsValue(s);
      AccumulateDigits(acc, s) == if v <= UsizeMax then Ok(v) else Err(PosOverflow)
    decreases |s|
  {
    if |s| > 0 && AllDigits(s) {
      var next := acc * 10 + DigitValue(s[0]);
      ShiftValue(acc, s);
      if next > UsizeMax {
        MulAtLeast(next, Pow10(|s| - 1));
      } else {
        AccumulateValue(next, s[1..]);
      }
    }
  }

  /** A digit followed by digits is all digits. */
  lemma DigitsCons(s: string)
    requires |s| > 0 && IsDigit(s[0])
    ensures AllDigits(s[1..]) ==> AllDigits(s)
  {
    if AllDigits(s[1..]) {
      forall i | 0 < i < |s|
        ensures IsDigit(s[i])
      {
        assert s[i] == s[1..][i - 1];
      }
    }
  }

  /** Appending one digit to text that accumulated to `v` continues the
      accumulation from `v`. */
  lemma {:induction false} AccumulateAppend(acc: nat, s: string, c: char, v: nat)
    requires acc <= UsizeMax
    requires AccumulateDigits(acc, s) == Ok(v)
    requires IsDigit(c) && v * 10 + DigitValue(c) <= UsizeMax
    ensures AccumulateDigits(acc, s + [c]) == Ok(v * 10 + DigitValue(c))
    decreases |s|
  {
    if |s| == 0 {
      assert acc == v;
      assert s + [c] == [c];
      assert [c][1..] == [];
    } else {
      var next := acc * 10 + DigitValue(s[0]);
      assert (s + [c])[0] == s[0];
      assert (s + [c])[1..] == s[1..] + [c];
      AccumulateAppend(next, s[1..], c, v);
    }
  }

  /** A handle's text parses back to the handle: parsing what `to_string`
      produces gives the number back, for every value a `usize` holds. */
  lemma {:induction false} ParseDecimal(n: nat)
    requires n <= UsizeMax
    ensures ParseUsize(Decimal(n)) == Ok(n)
    ensures AccumulateDigits(0, Decimal(n)) == Ok(n)
    decreases n
  {
    if n < 10 {
      assert Decimal(n) == [DigitChar(n)];
      assert [DigitChar(n)][1..] == [];
    } else {
      ParseDecimal(n / 10);
      AccumulateAppend(0, Decimal(n / 10), DigitChar(n % 10), n / 10);
    }
    var text := Decimal(n);
    assert IsDigit(text[0]);
    assert text[0] != '+' && text[0] != '-';
    assert ParseUsize(text) == AccumulateDigits(0, text);
  }

  /** Decimal text is injective: different handles have different text. */
  lemma DecimalInjective(m: nat, n: nat)
    requires m <= UsizeMax && n <= UsizeMax
    requires Decimal(m) == Decimal(n)
    ensures m == n
  {
    ParseDecimal(m);
    ParseDecimal(n);
  }
}
