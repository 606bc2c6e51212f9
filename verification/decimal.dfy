/**
 Go's `%d` formatting of an integer, and the parsing that undoes it.
 */
module Decimal {

  import opened Base

  predicate IsDigit(c: char) { '0' <= c <= '9' }

  function DigitChar(d: nat): (c: char)
    requires d < 10
    ensures IsDigit(c) && (c as int) - ('0' as int) == d
  {
    (('0' as int) + d) as char
  }

  /** A digit string without redundant leading zeros: "0" itself, or a first digit other than '0'. */
  predicate Unpadded(t: string)
  {
    && |t| > 0
    && (forall i :: 0 <= i < |t| ==> IsDigit(t[i]))
    && (t[0] == '0' ==> |t| == 1)
  }

  /** The spellings `%d` can produce: an unpadded magnitude, with a '-' only before a non-zero one. */
  predicate Canonical(s: string)
  {
    Unpadded(s) || (|s| > 1 && s[0] == '-' && Unpadded(s[1..]) && s[1] != '0')
  }

  /** The shortest decimal spelling of `n`, most significant digit first. */
  function NatToDecimal(n: nat): (s: string)
    ensures Unpadded(s)
    ensures s[0] == '0' <==> n == 0
    decreases n
  {
    if n < 10 then [DigitChar(n)] else NatToDecimal(n / 10) + [DigitChar(n % 10)]
  }

  /** `%d`: a leading '-' for negative values, then the digits of the magnitude. */
  function Format(n: int): (s: string)
    ensures Canonical(s)
    ensures s[0] == '-' <==> n < 0
    ensures n < 0 ==> s[1] != '0'
  {
    if n < 0 then "-" + NatToDecimal(-n) else NatToDecimal(n)
  }

  /** The value of a string of digits. */
  function DigitsValue(s: string): nat
    requires forall i :: 0 <= i < |s| ==> IsDigit(s[i])
  {
    if s == [] then 0
    else
      assert IsDigit(s[|s| - 1]);
      DigitsValue(s[..|s| - 1]) * 10 + ((s[|s| - 1] as int) - ('0' as int))
  }

  /** Reads back a `%d` spelling: an optional '-' then at least one digit. */
  function Parse(s: string): Option<int>
  {
    if |s| > 0 && s[0] == '-' then
      var t := s[1..];
      if |t| > 0 && forall i :: 0 <= i < |t| ==> IsDigit(t[i]) then Some(-(DigitsValue(t) as int)) else None
    else if |s| > 0 && forall i :: 0 <= i < |s| ==> IsDigit(s[i]) then Some(DigitsValue(s) as int)
    else None
  }

  lemma {:induction false} NatRoundTrip(n: nat)
    ensures DigitsValue(NatToDecimal(n)) == n
    decreases n
  {
    if n >= 10 {
      var s := NatToDecimal(n);
      var prefix := NatToDecimal(n / 10);
      assert s[..|s| - 1] == prefix;
      NatRoundTrip(n / 10);
    }
  }

  /** Parsing the formatted value gives the value back, so distinct ids give distinct spellings. */
  lemma FormatRoundTrip(n: int)
    ensures Parse(Format(n)) == Some(n)
  {
    var s := Format(n);
    if n < 0 {
      var digits := NatToDecimal(-n);
      NatRoundTrip(-n);
      assert s[0] == '-';
      assert s[1..] == digits;
      assert Parse(s) == Some(-(DigitsValue(digits) as int));
    } else {
      NatRoundTrip(n);
      assert IsDigit(s[0]);
      assert Parse(s) == Some(DigitsValue(s) as int);
    }
  }

  /** A digit string that does not start with '0' has a positive value. */
  lemma {:induction false} UnpaddedPositive(t: string)
    requires Unpadded(t) && t[0] != '0'
    ensures DigitsValue(t) >= 1
    decreases |t|
  {
    if |t| > 1 {
      var prefix := t[..|t| - 1];
      assert prefix[0] == t[0];
      UnpaddedPositive(prefix);
    }
  }

  /** An unpadded digit string is the spelling of its own value. */
  lemma {:induction false} UnpaddedRoundTrip(t: string)
    requires Unpadded(t)
    ensures NatToDecimal(DigitsValue(t)) == t
    decreases |t|
  {
    if |t| > 1 {
      var prefix := t[..|t| - 1];
      var d := (t[|t| - 1] as int) - ('0' as int);
      assert IsDigit(t[|t| - 1]);
      assert prefix[0] == t[0];
      UnpaddedPositive(prefix);
      UnpaddedRoundTrip(prefix);
      var v := DigitsValue(t);
      assert v == DigitsValue(prefix) * 10 + d;
      assert v / 10 == DigitsValue(prefix) && v % 10 == d;
      assert t == prefix + [t[|t| - 1]];
    }
  }

  /**
   Format is the only canonical spelling: every canonical string parses, and
   formatting what it parses to gives the string back.
   */
  lemma CanonicalIsFormat(s: string)
    requires Canonical(s)
    ensures Parse(s).Some? && Format(Parse(s).value) == s
  {
    if Unpadded(s) {
      UnpaddedRoundTrip(s);
    } else {
      var t := s[1..];
      UnpaddedRoundTrip(t);
      UnpaddedPositive(t);
      assert Parse(s) == Some(-(DigitsValue(t) as int));
      assert s == "-" + t;
    }
  }
}
