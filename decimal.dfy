/**
  Decimal text of integers, in both directions: Python's str(n) and
  '{:d}'.format(n) (the same text for an int), and Python's int(b) applied
  to the bytes the store returns.
 */
module Decimal {
  import opened Wrappers

  predicate IsDigit(c: char) { '0' <= c <= '9' }

  /** Python's whitespace for bytes: space, \t, \n, \v, \f and \r. */
  predicate IsSpace(c: char) { c == ' ' || 9 <= c as int <= 13 }

  predicate AllDigits(s: string) { forall i :: 0 <= i < |s| ==> IsDigit(s[i]) }

  function DigitChar(d: nat): (c: char)
    requires d < 10
    ensures IsDigit(c)
  {
    ('0' as int + d) as char
  }

  function DigitValue(c: char): (d: nat)
    requires IsDigit(c)
    ensures d < 10
  {
    c as int - '0' as int
  }

  /** The digits of n, most significant first, with no leading zero. */
  function NatDigits(n: nat): (s: string)
    ensures |s| > 0 && AllDigits(s)
    ensures n >= 10 ==> s[0] != '0'
    decreases n
  {
    if n < 10 then [DigitChar(n)] else NatDigits(n / 10) + [DigitChar(n % 10)]
  }

  /** str(n) for a Python int: a minus sign for negatives, then the digits. */
  function IntToString(n: int): (s: string)
    ensures |s| > 0 && IsDigit(s[|s| - 1])
    ensures s[0] == '-' || IsDigit(s[0])
  {
    if n < 0 then "-" + NatDigits(-n) else NatDigits(n)
  }

  /** The value of a string of digits. */
  function DigitsValue(s: string): nat
    requires AllDigits(s)
    decreases |s|
  {
    if |s| == 0 then 0 else DigitsValue(s[..|s| - 1]) * 10 + DigitValue(s[|s| - 1])
  }

  function StripLeading(s: string): (r: string)
    ensures |r| <= |s| && r == s[|s| - |r|..]
    ensures |r| > 0 ==> !IsSpace(r[0])
    decreases |s|
  {
    if |s| > 0 && IsSpace(s[0]) then StripLeading(s[1..]) else s
  }

  function StripTrailing(s: string): (r: string)
    ensures |r| <= |s| && r == s[..|r|]
    ensures |r| > 0 ==> !IsSpace(r[|r| - 1])
    decreases |s|
  {
    if |s| > 0 && IsSpace(s[|s| - 1]) then StripTrailing(s[..|s| - 1]) else s
  }

  /**
    The magnitude part int() accepts: digits, with single underscores
    allowed between two digits.
   */
  predicate WellFormedMagnitude(b: string)
  {
    && |b| > 0
    && IsDigit(b[0])
    && IsDigit(b[|b| - 1])
    && (forall i :: 0 <= i < |b| ==> IsDigit(b[i]) || b[i] == '_')
    && (forall i :: 0 <= i < |b| - 1 && b[i] == '_' ==> IsDigit(b[i + 1]))
  }

  function RemoveUnderscores(b: string): (r: string)
    requires forall i :: 0 <= i < |b| ==> IsDigit(b[i]) || b[i] == '_'
    ensures AllDigits(r)
    decreases |b|
  {
    if |b| == 0 then []
    else if b[0] == '_' then RemoveUnderscores(b[1..])
    else [b[0]] + RemoveUnderscores(b[1..])
  }

  function ParseMagnitude(b: string): Option<nat>
  {
    if WellFormedMagnitude(b) then Some(DigitsValue(RemoveUnderscores(b))) else None
  }

  /**
    Python's int(b) in base 10: surrounding whitespace is ignored, then an
    optional sign and a magnitude; anything else raises ValueError (None).
   */
  function ParseInt(b: string): (r: Option<int>)
    ensures (forall i :: 0 <= i < |b| ==> IsSpace(b[i])) ==> r.None?
    ensures r.Some? ==> exists i :: 0 <= i < |b| && IsDigit(b[i])
  {
    var lead := StripLeading(b);
    var t := StripTrailing(lead);
    assert forall j :: 0 <= j < |t| ==> t[j] == b[|b| - |lead| + j];
    ParseSigned(t)
  }

  /** An optional sign followed by a magnitude, with nothing around them. */
  function ParseSigned(t: string): Option<int>
  {
    if |t| > 0 && (t[0] == '+' || t[0] == '-') then
      match ParseMagnitude(t[1..])
      case None => None
      case Some(m) => Some(if t[0] == '-' then -(m as int) else m as int)
    else
      ParseMagnitude(t)
  }

  lemma {:induction false} DigitsRoundTrip(n: nat)
    ensures DigitsValue(NatDigits(n)) == n
    decreases n
  {
    if n >= 10 {
      var s := NatDigits(n);
      assert s[..|s| - 1] == NatDigits(n / 10);
      DigitsRoundTrip(n / 10);
    }
  }

  lemma {:induction false} RemoveUnderscoresOfDigits(s: string)
    requires AllDigits(s)
    ensures RemoveUnderscores(s) == s
    decreases |s|
  {
    if |s| > 0 {
      RemoveUnderscoresOfDigits(s[1..]);
      assert s == [s[0]] + s[1..];
    }
  }

  lemma MagnitudeOfDigits(n: nat)
    ensures ParseMagnitude(NatDigits(n)) == Some(n)
  {
    var s := NatDigits(n);
    RemoveUnderscoresOfDigits(s);
    DigitsRoundTrip(n);
  }

  /** Text that neither starts nor ends with whitespace is unchanged by stripping. */
  lemma StripUnchanged(s: string)
    requires |s| > 0 && !IsSpace(s[0]) && !IsSpace(s[|s| - 1])
    ensures StripTrailing(StripLeading(s)) == s
  {
  }

  /** Text with no whitespace at either end is parsed as it stands. */
  lemma ParseUnpadded(s: string)
    requires |s| > 0 && !IsSpace(s[0]) && !IsSpace(s[|s| - 1])
    ensures ParseInt(s) == ParseSigned(s)
  {
    StripUnchanged(s);
  }

  /** int() of a well-formed magnitude with nothing around it. */
  lemma ParseUnsigned(s: string, m: nat)
    requires |s| > 0 && IsDigit(s[0]) && IsDigit(s[|s| - 1])
    requires ParseMagnitude(s) == Some(m)
    ensures ParseInt(s) == Some(m)
  {
    ParseUnpadded(s);
    assert ParseSigned(s) == ParseMagnitude(s);
  }

  /** int() of a minus sign followed by a well-formed magnitude. */
  lemma ParseNegative(s: string, m: nat)
    requires |s| > 1 && s[0] == '-' && IsDigit(s[|s| - 1])
    requires ParseMagnitude(s[1..]) == Some(m)
    ensures ParseInt(s) == Some(-(m as int))
  {
    ParseUnpadded(s);
    assert ParseSigned(s) == Some(-(m as int));
  }

  /** int(str(n)) == n: the decimal text the program writes parses back. */
  lemma ParseIntRoundTrip(n: int)
    ensures ParseInt(IntToString(n)) == Some(n)
  {
    if n < 0 {
      var d := NatDigits(-n);
      var s := "-" + d;
      assert s[1..] == d;
      MagnitudeOfDigits(-n);
      ParseNegative(s, -n);
    } else {
      MagnitudeOfDigits(n);
      ParseUnsigned(NatDigits(n), n);
    }
  }

  /** Distinct integers have distinct decimal texts. */
  lemma IntToStringInjective(a: int, b: int)
    requires IntToString(a) == IntToString(b)
    ensures a == b
  {
    ParseIntRoundTrip(a);
    ParseIntRoundTrip(b);
  }

  /** Empty bytes are not a number: int(b'') raises. */
  lemma ParseIntEmpty()
    ensures ParseInt("") == None
  {
  }
}
