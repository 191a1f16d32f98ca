/** PHP's conversions between integers and decimal strings, as the plugins
    use them: `intval` on request values, and the interpolation of an
    integer into a string such as an SQL clause. */
module Php {

  import opened Wrappers

  /** The bounds of a 64-bit PHP integer; `intval` saturates at them. */
  const IntMax: int := 0x7FFF_FFFF_FFFF_FFFF
  const IntMin: int := -0x8000_0000_0000_0000

  predicate IsDigit(c: char) { '0' <= c <= '9' }

  predicate AllDigits(s: string) { forall i :: 0 <= i < |s| ==> IsDigit(s[i]) }

  /** The characters `intval` skips in front of a number. */
  predicate IsLeadingSpace(c: char)
  {
    c == ' ' || c == '\t' || c == '\n' || c == '\r' || c == '\U{0B}' || c == '\U{0C}'
  }

  function DigitValue(c: char): (d: nat)
    requires IsDigit(c)
    ensures d < 10
  {
    c as int - '0' as int
  }

  function DigitChar(d: nat): (c: char)
    requires d < 10
    ensures IsDigit(c) && DigitValue(c) == d
  {
    ('0' as int + d) as char
  }

  /** The decimal digits of `n`, most significant first. */
  function NatToString(n: nat): (s: string)
    ensures |s| >= 1 && IsDigit(s[0])
  {
    if n < 10 then [DigitChar(n)] else NatToString(n / 10) + [DigitChar(n % 10)]
  }

  /** The text PHP produces when an integer is interpolated into a string. */
  function IntToString(i: int): (s: string)
    ensures |s| >= 1 && (s[0] == '-' || IsDigit(s[0]))
  {
    if i < 0 then "-" + NatToString(-i) else NatToString(i)
  }

  /** The value of a string of decimal digits (it is only applied to runs
      of digits; any other character would count as 0). */
  function DigitsValue(s: string): nat
  {
    if s == [] then 0
    else
      var last := s[|s| - 1];
      DigitsValue(s[..|s| - 1]) * 10 + (if IsDigit(last) then DigitValue(last) else 0)
  }

  lemma {:induction false} NatToStringDigits(n: nat)
    ensures AllDigits(NatToString(n))
  {
    if n >= 10 {
      NatToStringDigits(n / 10);
    }
  }

  /** The length of the run of digits `s` starts with. */
  function DigitRun(s: string): (k: nat)
    ensures k <= |s|
  {
    if s != [] && IsDigit(s[0]) then 1 + DigitRun(s[1..]) else 0
  }

  /** `s` without the whitespace it starts with. */
  function SkipLeadingSpace(s: string): string
  {
    if s != [] && IsLeadingSpace(s[0]) then SkipLeadingSpace(s[1..]) else s
  }

  function Saturate(x: int): (r: int)
    ensures IntMin <= r <= IntMax
    ensures IntMin <= x <= IntMax ==> r == x
    ensures x > IntMax ==> r == IntMax
    ensures x < IntMin ==> r == IntMin
  {
    if x > IntMax then IntMax else if x < IntMin then IntMin else x
  }

  /** PHP's `intval` of a string: leading whitespace is skipped, an optional
      sign and the run of digits after it are read, anything from the first
      other character on is ignored, and a value outside the 64-bit range
      saturates. A string with no digits there gives 0. */
  function IntVal(s: string): (r: int)
    ensures IntMin <= r <= IntMax
  {
    var t := SkipLeadingSpace(s);
    var signed := t != [] && (t[0] == '-' || t[0] == '+');
    var u := if signed then t[1..] else t;
    var n: int := DigitsValue(u[..DigitRun(u)]);
    Saturate(if signed && t[0] == '-' then -n else n)
  }

  /** Reads the run of digits at the start of `u`: its value and the text
      after it, or None when `u` does not start with a digit. */
  function ParseDigits(u: string): (r: Option<(nat, string)>)
    ensures r.Some? ==> |r.value.1| < |u|
  {
    var k := DigitRun(u);
    if k == 0 then None else Some((DigitsValue(u[..k]), u[k..]))
  }

  /** Reads an integer, optionally negative, at the start of `s`: its value
      and the text after it, or None when no digit is there. */
  function ParseInt(s: string): (r: Option<(int, string)>)
    ensures r.Some? ==> |r.value.1| < |s|
  {
    if s != [] && s[0] == '-' then
      match ParseDigits(s[1..])
      case None => None
      case Some((n, after)) => Some((-(n as int), after))
    else
      match ParseDigits(s)
      case None => None
      case Some((n, after)) => Some((n as int, after))
  }

  lemma {:induction false} DigitsValueOfNatToString(n: nat)
    ensures DigitsValue(NatToString(n)) == n
  {
    var s := NatToString(n);
    if n >= 10 {
      DigitsValueOfNatToString(n / 10);
      assert s[..|s| - 1] == NatToString(n / 10);
    }
  }

  lemma {:induction false} DigitRunOfDigits(ds: string, rest: string)
    requires AllDigits(ds)
    requires rest == [] || !IsDigit(rest[0])
    ensures DigitRun(ds + rest) == |ds|
  {
    if ds != [] {
      assert (ds + rest)[1..] == ds[1..] + rest;
      DigitRunOfDigits(ds[1..], rest);
    }
  }

  /** Reading back what interpolation wrote gives the integer again. */
  lemma ParseIntOfIntToString(i: int, rest: string)
    requires rest == [] || !IsDigit(rest[0])
    ensures ParseInt(IntToString(i) + rest) == Some((i, rest))
  {
    if i < 0 {
      ParseIntOfNegative(i, rest);
    } else {
      DigitsValueOfNatToString(i);
      NatToStringDigits(i);
      ParseUnsigned(NatToString(i), rest);
    }
  }

  lemma ParseIntOfNegative(i: int, rest: string)
    requires i < 0
    requires rest == [] || !IsDigit(rest[0])
    ensures ParseInt(IntToString(i) + rest) == Some((i, rest))
  {
    var t := IntToString(i) + rest;
    assert |t| >= 1 && t[0] == '-' && t[1..] == NatToString(-i) + rest by {
      NegativeText(i, rest);
    }
    assert ParseDigits(t[1..]) == Some((-i, rest)) by {
      NatToStringDigits(-i);
      DigitsValueOfNatToString(-i);
      ParseDigitsOf(NatToString(-i), rest);
    }
  }

  lemma NegativeText(i: int, rest: string)
    requires i < 0
    ensures var t := IntToString(i) + rest;
            |t| >= 1 && t[0] == '-' && t[1..] == NatToString(-i) + rest
  {
    var t := IntToString(i) + rest;
    assert t == "-" + (NatToString(-i) + rest);
  }

  lemma ParseUnsigned(ds: string, rest: string)
    requires |ds| >= 1 && AllDigits(ds)
    requires rest == [] || !IsDigit(rest[0])
    ensures ParseInt(ds + rest) == Some((DigitsValue(ds) as int, rest))
  {
    assert (ds + rest)[0] == ds[0];
    ParseDigitsOf(ds, rest);
  }

  /** A run of digits followed by a non-digit is read whole. */
  lemma ParseDigitsOf(ds: string, rest: string)
    requires |ds| >= 1 && AllDigits(ds)
    requires rest == [] || !IsDigit(rest[0])
    ensures ParseDigits(ds + rest) == Some((DigitsValue(ds), rest))
  {
    var u := ds + rest;
    DigitRunOfDigits(ds, rest);
    assert u[..|ds|] == ds;
    assert u[|ds|..] == rest;
  }

  /** `intval` skips leading whitespace and stops at the first character
      after the digit run. */
  lemma IntValSkipsSpaceAndTrailer()
    ensures IntVal(" 12abc") == 12
  {
    assert SkipLeadingSpace(" 12abc") == "12abc";
    assert DigitRun("12abc") == 2;
    assert "12abc"[..2] == "12";
    assert DigitsValue("12") == 12 by {
      assert "12"[..1] == "1" && "1"[..0] == "";
    }
  }

  /** A sign with no digit after it, and text without digits, read as 0. */
  lemma IntValWithoutDigits()
    ensures IntVal("-") == 0
    ensures IntVal("abc") == 0
  {
    assert "-"[1..] == "";
    assert DigitRun("abc") == 0;
  }

  /** A leading `-` or `+` gives the sign. */
  lemma IntValSigned()
    ensures IntVal("-7") == -7
    ensures IntVal("+7") == 7
  {
    assert "-7"[1..] == "7" && "+7"[1..] == "7";
    assert DigitRun("7") == 1 && "7"[..1] == "7";
    assert DigitsValue("7") == 7 by { assert "7"[..0] == ""; }
  }

  /** A digit run worth more than the largest 64-bit integer saturates:
      it reads as the largest integer, and after `-` as the smallest. */
  lemma IntValSaturates(ds: string)
    requires ds != [] && AllDigits(ds) && DigitsValue(ds) > IntMax
    ensures IntVal(ds) == IntMax
    ensures IntVal("-" + ds) == IntMin
  {
    IntValOfRun(ds);
    IntValOfNegatedRun(ds);
  }

  /** `intval` of a digit run with nothing after it. */
  lemma IntValOfRun(ds: string)
    requires ds != [] && AllDigits(ds)
    ensures IntVal(ds) == Saturate(DigitsValue(ds))
  {
    assert SkipLeadingSpace(ds) == ds by {
      assert !IsLeadingSpace(ds[0]);
    }
    assert ds[..DigitRun(ds)] == ds by {
      RunIsWhole(ds);
    }
    assert IsDigit(ds[0]);
  }

  /** `intval` of `-` followed by a digit run with nothing after it. */
  lemma IntValOfNegatedRun(ds: string)
    requires ds != [] && AllDigits(ds)
    ensures IntVal("-" + ds) == Saturate(-(DigitsValue(ds) as int))
  {
    var s := "-" + ds;
    assert SkipLeadingSpace(s) == s by {
      assert !IsLeadingSpace(s[0]);
    }
    assert s[1..] == ds;
    assert ds[..DigitRun(ds)] == ds by {
      RunIsWhole(ds);
    }
  }

  lemma RunIsWhole(ds: string)
    requires AllDigits(ds)
    ensures ds[..DigitRun(ds)] == ds
  {
    DigitRunOfDigits(ds, []);
    assert ds + [] == ds;
  }

  /** Twenty nines are beyond the 64-bit range, so `intval` saturates on
      them. */
  lemma NinesAboveRange(s: string)
    requires s == "99999999999999999999"
    ensures s != [] && AllDigits(s) && DigitsValue(s) > IntMax
  {
    NinesValue(s, 20);
    assert Pow10(20) > IntMax + 1 by {
      Pow10Add(10, 10);
      Pow10Add(5, 5);
      assert Pow10(5) == 100_000;
    }
  }

  function Pow10(n: nat): nat
  {
    if n == 0 then 1 else 10 * Pow10(n - 1)
  }

  lemma {:induction false} Pow10Add(a: nat, b: nat)
    ensures Pow10(a + b) == Pow10(a) * Pow10(b)
  {
    if a > 0 {
      Pow10Add(a - 1, b);
    }
  }

  /** A run of `n` nines is worth 10^n - 1. */
  lemma {:induction false} NinesValue(s: string, n: nat)
    requires |s| == n && forall i :: 0 <= i < |s| ==> s[i] == '9'
    ensures DigitsValue(s) + 1 == Pow10(n)
  {
    if n > 0 {
      NinesValue(s[..|s| - 1], n - 1);
    }
  }

  /** `intval` reads back every 64-bit integer from its decimal text. */
  lemma IntValOfIntToString(i: int)
    requires IntMin <= i <= IntMax
    ensures IntVal(IntToString(i)) == i
  {
    var s := IntToString(i);
    assert SkipLeadingSpace(s) == s;
    var n: nat := if i < 0 then -i else i;
    var ds := NatToString(n);
    NatToStringDigits(n);
    DigitRunOfDigits(ds, []);
    DigitsValueOfNatToString(n);
    assert ds + [] == ds;
    assert ds[..DigitRun(ds)] == ds;
    if i < 0 {
      assert s[1..] == ds;
    } else {
      assert s == ds && s[0] != '-' && s[0] != '+';
    }
  }
}
