/** Decimal text and integers: `Number.prototype.toString`, JavaScript's
    `parseInt` in base 10, and Postgres's conversion of a text parameter to
    an `integer` column value. */
module Decimal {
  import opened Wrappers

  predicate IsDigit(c: char)
  {
    '0' <= c <= '9'
  }

  predicate AllDigits(s: string)
  {
    forall i :: 0 <= i < |s| ==> IsDigit(s[i])
  }

  function DigitValue(c: char): nat
    requires IsDigit(c)
  {
    c as int - '0' as int
  }

  function DigitChar(d: nat): (c: char)
    requires d < 10
    ensures IsDigit(c) && DigitValue(c) == d
  {
    ('0' as int + d) as char
  }

  /** The value of a string of decimal digits, most significant first. */
  function DigitsValue(s: string): nat
    requires AllDigits(s)
  {
    if s == [] then 0 else DigitsValue(s[..|s| - 1]) * 10 + DigitValue(s[|s| - 1])
  }

  /** `n.toString()` for a non-negative integer: digits only, no leading zero. */
  function NatToString(n: nat): (s: string)
    ensures |s| >= 1 && AllDigits(s)
    ensures s[0] == '0' ==> s == "0"
  {
    if n < 10 then [DigitChar(n)] else NatToString(n / 10) + [DigitChar(n % 10)]
  }

  /** `i.toString()`: a minus sign for negative values, then the digits of the magnitude. */
  function IntToString(i: int): (s: string)
    ensures |s| >= 1 && (i < 0 <==> s[0] == '-')
    ensures i >= 0 ==> AllDigits(s)
  {
    if i < 0 then "-" + NatToString(-i) else NatToString(i)
  }

  lemma {:induction false} NatToStringValue(n: nat)
    ensures DigitsValue(NatToString(n)) == n
  {
    if n >= 10 {
      NatToStringValue(n / 10);
      var s := NatToString(n);
      assert s[..|s| - 1] == NatToString(n / 10);
    }
  }

  /** Distinct numbers have distinct decimal strings. */
  lemma NatToStringInjective(m: nat, n: nat)
    requires NatToString(m) == NatToString(n)
    ensures m == n
  {
    NatToStringValue(m);
    NatToStringValue(n);
  }

  /** The length of the run of digits at the start of `s`. */
  function DigitRun(s: string): (n: nat)
    ensures n <= |s|
    ensures AllDigits(s[..n])
    ensures n < |s| ==> !IsDigit(s[n])
  {
    if s == [] || !IsDigit(s[0]) then 0
    else
      var n := 1 + DigitRun(s[1..]);
      assert s[..n] == [s[0]] + s[1..][..n - 1];
      n
  }

  lemma {:induction false} DigitRunOf(a: string, rest: string)
    requires AllDigits(a)
    requires rest == [] || !IsDigit(rest[0])
    ensures DigitRun(a + rest) == |a|
  {
    if a != [] {
      assert (a + rest)[1..] == a[1..] + rest;
      DigitRunOf(a[1..], rest);
    } else {
      assert a + rest == rest;
    }
  }

  /** Length of an optional leading `+` or `-`. */
  function SignLength(s: string): nat
  {
    if |s| > 0 && (s[0] == '-' || s[0] == '+') then 1 else 0
  }

  /** Applies the sign written at the start of `s` to the magnitude `v`. */
  function Signed(s: string, v: nat): int
  {
    if |s| > 0 && s[0] == '-' then -(v as int) else v
  }

  /** JavaScript `parseInt(s)` (base 10): an optional sign and the longest run of
      digits after it; anything after the digits is ignored. `None` is `NaN`. */
  function ParseInt(s: string): (r: Option<int>)
    ensures r.None? <==> DigitRun(s[SignLength(s)..]) == 0
  {
    var k := SignLength(s);
    var n := DigitRun(s[k..]);
    if n == 0 then None else Some(Signed(s, DigitsValue(s[k..][..n])))
  }

  /** Postgres reading a text parameter as an integer: the whole text must be an
      optionally signed run of digits, otherwise the query fails (`None`). */
  function ParseInteger(s: string): (r: Option<int>)
    ensures r.Some? <==> |s| > SignLength(s) && DigitRun(s[SignLength(s)..]) == |s| - SignLength(s)
    ensures r.Some? ==> ParseInt(s) == r
  {
    var k := SignLength(s);
    if |s| > k && DigitRun(s[k..]) == |s| - k then
      assert s[k..][..|s| - k] == s[k..];
      Some(Signed(s, DigitsValue(s[k..])))
    else None
  }

  /** `parseInt` reads back what `toString` wrote, even when other text follows
      that does not start with a digit (`"2.5"` reads as 2). */
  lemma ParseIntRoundTrip(i: int, rest: string)
    requires rest == [] || !IsDigit(rest[0])
    ensures ParseInt(IntToString(i) + rest) == Some(i)
  {
    var m: nat := if i < 0 then -i else i;
    var digits := NatToString(m);
    NatToStringValue(m);
    if i < 0 {
      assert IntToString(i) + rest == "-" + (digits + rest);
      ParseIntAfterSign(digits, rest);
    } else {
      ParseIntOfDigits(digits, rest);
    }
  }

  lemma ParseIntOfDigits(digits: string, rest: string)
    requires |digits| >= 1 && AllDigits(digits)
    requires rest == [] || !IsDigit(rest[0])
    ensures ParseInt(digits + rest) == Some(DigitsValue(digits))
  {
    var s := digits + rest;
    assert IsDigit(s[0]);
    assert SignLength(s) == 0;
    assert s[0..] == s;
    DigitRunOf(digits, rest);
    assert s[..|digits|] == digits;
  }

  lemma ParseIntAfterSign(digits: string, rest: string)
    requires |digits| >= 1 && AllDigits(digits)
    requires rest == [] || !IsDigit(rest[0])
    ensures ParseInt("-" + (digits + rest)) == Some(-(DigitsValue(digits) as int))
  {
    var s := "-" + (digits + rest);
    var tail := digits + rest;
    assert s[0] == '-' && s[1..] == tail;
    DigitRunOf(digits, rest);
    assert tail[..|digits|] == digits;
    ParseIntUnfold(s, 1, |digits|);
  }

  /** `parseInt` of a text with a sign of length `k` followed by a run of `n > 0` digits. */
  lemma ParseIntUnfold(s: string, k: nat, n: nat)
    requires k == SignLength(s) && n == DigitRun(s[k..]) && n > 0
    ensures ParseInt(s) == Some(Signed(s, DigitsValue(s[k..][..n])))
  {
  }

  /** Postgres reads back the decimal string of any integer. */
  lemma ParseIntegerRoundTrip(i: int)
    ensures ParseInteger(IntToString(i)) == Some(i)
  {
    var s := IntToString(i);
    var m: nat := if i < 0 then -i else i;
    var digits := NatToString(m);
    NatToStringValue(m);
    DigitRunOf(digits, []);
    assert digits + [] == digits;
    if i < 0 {
      assert s[1..] == digits;
    }
  }
}
