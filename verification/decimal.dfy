/** Decimal rendering and parsing of integers: the way `format!("{}")` prints a number and the way
    `str::parse::<i64>` reads one back (used for subscriber ids stored in Redis sets and for the
    seen-marker tag). */
module Decimal {
  import opened Wrappers

  const MIN_I64: int := -0x8000_0000_0000_0000
  const MAX_I64: int := 0x7FFF_FFFF_FFFF_FFFF

  /** A 64-bit signed integer, the width of chat ids. */
  type I64 = i: int | MIN_I64 <= i <= MAX_I64

  predicate IsDigit(c: char) {
    '0' <= c <= '9'
  }

  predicate AllDigits(s: string) {
    forall i | 0 <= i < |s| :: IsDigit(s[i])
  }

  function DigitValue(c: char): nat
    requires IsDigit(c)
  {
    c as int - '0' as int
  }

  function DigitChar(d: nat): (c: char)
    requires d < 10
    ensures IsDigit(c) && DigitValue(c) == d
  {
    ('0' as int + d) as char
  }

  /** Digits of `n` without leading zeros. */
  function NatToString(n: nat): (s: string)
    ensures |s| >= 1 && AllDigits(s)
    ensures s[0] == '0' ==> n == 0
    decreases n
  {
    if n < 10 then [DigitChar(n)] else NatToString(n / 10) + [DigitChar(n % 10)]
  }

  /** The value of a run of decimal digits, most significant first. */
  function DigitsValue(s: string): nat
    requires AllDigits(s)
    decreases |s|
  {
    if s == [] then 0 else 10 * DigitsValue(s[..|s| - 1]) + DigitValue(s[|s| - 1])
  }

  /** An integer as Rust's `Display` prints it: an optional minus sign, then digits. */
  function IntToString(i: int): (s: string)
    ensures |s| >= 1
    ensures (i < 0) == (s[0] == '-')
    ensures forall k | 0 <= k < |s| :: IsDigit(s[k]) || (k == 0 && s[k] == '-')
  {
    if i < 0 then "-" + NatToString(-i) else NatToString(i)
  }

  /** An optionally signed decimal of unbounded size: `+` or `-`, then one or more digits. */
  function ParseInt(s: string): (r: Option<int>)
    ensures s == [] ==> r.None?
  {
    var negative := |s| > 0 && s[0] == '-';
    var digits := if |s| > 0 && (s[0] == '-' || s[0] == '+') then s[1..] else s;
    if digits == [] || !AllDigits(digits) then None
    else
      var magnitude: int := DigitsValue(digits);
      Some(if negative then -magnitude else magnitude)
  }

  /** `str::parse::<i64>`: the same syntax, and a value outside the 64-bit range is an error. */
  function ParseI64(s: string): (r: Option<I64>)
    ensures r.Some? ==> ParseInt(s) == Some(r.value as int)
    ensures ParseInt(s).Some? && MIN_I64 <= ParseInt(s).value <= MAX_I64 ==> r.Some?
  {
    match ParseInt(s)
    case Some(v) => if MIN_I64 <= v <= MAX_I64 then Some(v) else None
    case None => None
  }

  lemma {:induction false} DigitsRoundTrip(n: nat)
    ensures DigitsValue(NatToString(n)) == n
    decreases n
  {
    if n >= 10 {
      DigitsRoundTrip(n / 10);
      var s := NatToString(n);
      assert s[..|s| - 1] == NatToString(n / 10);
    }
  }

  /** Reading back what was printed gives the printed integer. */
  lemma ParseRoundTrip(i: int)
    ensures ParseInt(IntToString(i)) == Some(i)
  {
    var s := IntToString(i);
    if i < 0 {
      assert s[1..] == NatToString(-i);
      DigitsRoundTrip(-i);
    } else {
      DigitsRoundTrip(i);
    }
  }

  /** Printing is injective: two integers with the same rendering are equal. */
  lemma PrintInjective(i: int, j: int)
    requires IntToString(i) == IntToString(j)
    ensures i == j
  {
    ParseRoundTrip(i);
    ParseRoundTrip(j);
  }

  /** A 64-bit value survives being stored as text and read back as `i64`. */
  lemma ParseI64RoundTrip(i: I64)
    ensures ParseI64(IntToString(i)) == Some(i)
  {
    ParseRoundTrip(i);
  }
}
