/**
 * Decimal text for integers: the parts of Go's `strconv` and `fmt` the
 * system relies on. `ParseInt` is `strconv.ParseInt(s, 10, 64)`,
 * `FormatInt` is `fmt.Sprintf("%v", n)` on an integer and
 * `strconv.FormatUint(n, 10)` on a non-negative one.
 */
module Strconv {
  import opened Wrappers
  import opened Int64

  predicate IsDigit(c: char) {
    '0' <= c <= '9'
  }

  predicate AllDigits(s: string) {
    forall i :: 0 <= i < |s| ==> IsDigit(s[i])
  }

  function DigitChar(d: nat): (c: char)
    requires d < 10
    ensures IsDigit(c) && c as int - '0' as int == d
  {
    ('0' as int + d) as char
  }

  /** The numeric value of a string of decimal digits, most significant first. */
  function DigitsValue(s: string): nat
    requires AllDigits(s)
  {
    if |s| == 0 then 0 else DigitsValue(s[..|s| - 1]) * 10 + (s[|s| - 1] as int - '0' as int)
  }

  /** The shortest decimal rendering of `n`: no sign, no leading zeros. */
  function NatToDecimal(n: nat): (s: string)
    ensures |s| > 0 && AllDigits(s)
    ensures |s| > 1 ==> s[0] != '0'
  {
    if n < 10 then [DigitChar(n)] else NatToDecimal(n / 10) + [DigitChar(n % 10)]
  }

  /** `fmt.Sprintf("%v", n)` for an integer `n`. */
  function FormatInt(n: int): (s: string)
    ensures |s| > 0
    ensures s[0] == '-' <==> n < 0
  {
    if n < 0 then "-" + NatToDecimal(-n) else NatToDecimal(n)
  }

  /**
   * `strconv.ParseInt(s, 10, 64)`: an optional `+` or `-`, then one or more
   * decimal digits (base 10 admits no underscores and no prefix), whose value
   * must fit in 64 bits. `None` stands for both the syntax and the range error.
   */
  function ParseInt(s: string): (r: Option<I64>)
    ensures r.Some? ==> |s| > 0
    ensures r.Some? && s[0] == '-' ==> r.value <= 0
    ensures r.Some? && s[0] != '-' ==> r.value >= 0
  {
    var negative := |s| > 0 && s[0] == '-';
    var digits := if |s| > 0 && (s[0] == '+' || s[0] == '-') then s[1..] else s;
    if |digits| == 0 || !AllDigits(digits) then None
    else
      var u: int := DigitsValue(digits);
      if negative then (if u <= -MIN then Some(-u) else None)
      else (if u <= MAX then Some(u) else None)
  }

  lemma {:induction false} DigitsValueOfDecimal(n: nat)
    ensures DigitsValue(NatToDecimal(n)) == n
  {
    var s := NatToDecimal(n);
    if n >= 10 {
      DigitsValueOfDecimal(n / 10);
      assert s[..|s| - 1] == NatToDecimal(n / 10);
    }
  }

  /** Parsing the decimal rendering of any 64-bit integer gives it back. */
  lemma ParseFormatRoundTrip(n: I64)
    ensures ParseInt(FormatInt(n)) == Some(n)
  {
    var m: int := n;
    if m < 0 {
      DigitsValueOfDecimal(-m);
      assert FormatInt(m)[1..] == NatToDecimal(-m);
    } else {
      DigitsValueOfDecimal(m);
    }
  }

  /** The inputs on which `strconv.ParseInt` reports a syntax error. */
  lemma ParseIntRejects(s: string)
    ensures ParseInt("") == None
    ensures ParseInt("+") == None && ParseInt("-") == None
    ensures (exists i :: 1 <= i < |s| && !IsDigit(s[i])) ==> ParseInt(s) == None
    ensures |s| > 0 && !IsDigit(s[0]) && s[0] != '+' && s[0] != '-' ==> ParseInt(s) == None
  {
    if exists i :: 1 <= i < |s| && !IsDigit(s[i]) {
      var i :| 1 <= i < |s| && !IsDigit(s[i]);
      if |s| > 0 && (s[0] == '+' || s[0] == '-') {
        assert s[1..][i - 1] == s[i];
      }
    }
  }

  /** Leading zeros do not change the value of a digit string. */
  lemma {:induction false} LeadingZeroValue(d: string)
    requires AllDigits(d)
    ensures AllDigits("0" + d) && DigitsValue("0" + d) == DigitsValue(d)
    decreases |d|
  {
    if |d| > 0 {
      var n := |d| - 1;
      assert ("0" + d)[..|"0" + d| - 1] == "0" + d[..n];
      LeadingZeroValue(d[..n]);
    }
  }

  /**
   * Text that `FormatInt` never produces is accepted too: any digit string
   * whose value fits parses to its value, with or without a `+`, and with
   * a `-` to the value's negation.
   */
  lemma ParseIntAcceptsDigits(d: string)
    requires 0 < |d| && AllDigits(d) && DigitsValue(d) <= MAX
    ensures ParseInt(d) == Some(DigitsValue(d))
    ensures ParseInt(['+'] + d) == Some(DigitsValue(d))
    ensures ParseInt(['-'] + d) == Some(-(DigitsValue(d) as int))
  {
    assert d[0] != '+' && d[0] != '-' by {
      assert IsDigit(d[0]);
    }
    ParseIntSigned('+', d);
    ParseIntSigned('-', d);
  }

  /** A sign in front of a digit string leaves the digits to be read after it. */
  lemma ParseIntSigned(sign: char, d: string)
    requires sign == '+' || sign == '-'
    requires 0 < |d| && AllDigits(d) && DigitsValue(d) <= MAX
    ensures ParseInt([sign] + d) == Some(if sign == '-' then -(DigitsValue(d) as int) else DigitsValue(d))
  {
    var s := [sign] + d;
    assert s[1..] == d;
    var u: int := DigitsValue(d);
    assert u <= MAX < -MIN;
    if sign == '-' {
      assert ParseInt(s) == Some(-u);
    } else {
      assert ParseInt(s) == Some(u);
    }
  }

  /** Leading zeros are accepted and do not change the value. */
  lemma ParseIntLeadingZero(d: string)
    requires 0 < |d| && AllDigits(d) && DigitsValue(d) <= MAX
    ensures ParseInt("0" + d) == Some(DigitsValue(d))
  {
    LeadingZeroValue(d);
    ParseIntAcceptsDigits("0" + d);
  }

  /** The rendering of an integer outside the 64-bit range is a range error. */
  lemma ParseIntOutOfRange(n: int)
    requires n < MIN || n > MAX
    ensures ParseInt(FormatInt(n)) == None
  {
    if n < 0 {
      DigitsValueOfDecimal(-n);
      assert FormatInt(n)[1..] == NatToDecimal(-n);
    } else {
      DigitsValueOfDecimal(n);
    }
  }
}
