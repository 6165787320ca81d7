/**
 * The conversion of query-string text to an integer that the list endpoint
 * relies on: Python's `int()` applied to a `str` in base 10, as done for
 * the `qty` parameter and, inside the ORM, for the `by_serverid` lookup.
 * Surrounding ASCII whitespace is ignored, one optional sign is accepted,
 * and what remains must be one or more ASCII digits, at most
 * `MaxStrDigits` of them.
 */
module IntParsing {
  import opened Options

  /**
   * CPython's default limit on the number of digits `int()` converts from
   * text (`sys.get_int_max_str_digits()`); a longer digit run raises
   * ValueError. Leading zeros count, the sign and whitespace do not.
   */
  const MaxStrDigits: nat := 4300

  predicate IsDigit(c: char) { '0' <= c <= '9' }

  /** The ASCII characters Python treats as whitespace around a number. */
  predicate IsSpace(c: char) {
    c == ' ' || c == '\t' || c == '\n' || c == '\r' || c == 11 as char || c == 12 as char
  }

  /** A non-empty run of ASCII digits. */
  predicate IsDigits(s: string) {
    |s| > 0 && forall i :: 0 <= i < |s| ==> IsDigit(s[i])
  }

  function DigitValue(c: char): (d: nat)
    requires IsDigit(c)
    ensures d < 10
  {
    c as int - '0' as int
  }

  function DigitChar(d: nat): (c: char)
    requires d < 10
    ensures IsDigit(c) && DigitValue(c) == d
  {
    ('0' as int + d) as char
  }

  /** The number a run of decimal digits denotes, most significant digit first. */
  function DigitsValue(s: string): nat
    requires forall i :: 0 <= i < |s| ==> IsDigit(s[i])
    decreases |s|
  {
    if s == [] then 0 else DigitsValue(s[..|s| - 1]) * 10 + DigitValue(s[|s| - 1])
  }

  /** The shortest decimal spelling of `n`, without leading zeros; reading it back gives `n`. */
  function DecimalString(n: nat): (s: string)
    ensures IsDigits(s)
    ensures DigitsValue(s) == n
    ensures s[0] == '0' ==> n == 0
    decreases n
  {
    if n < 10 then [DigitChar(n)]
    else
      var s := DecimalString(n / 10) + [DigitChar(n % 10)];
      assert s[..|s| - 1] == DecimalString(n / 10);
      assert s[0] == DecimalString(n / 10)[0];
      s
  }

  /** `s` without its leading whitespace. */
  function TrimStart(s: string): (r: string)
    ensures |r| <= |s| && r == s[|s| - |r|..]
    ensures forall i :: 0 <= i < |s| - |r| ==> IsSpace(s[i])
    ensures r == [] || !IsSpace(r[0])
    decreases |s|
  {
    if |s| > 0 && IsSpace(s[0]) then TrimStart(s[1..]) else s
  }

  /** `s` without its trailing whitespace. */
  function TrimEnd(s: string): (r: string)
    ensures |r| <= |s| && r == s[..|r|]
    ensures forall i :: |r| <= i < |s| ==> IsSpace(s[i])
    ensures r == [] || !IsSpace(r[|r| - 1])
    decreases |s|
  {
    if |s| > 0 && IsSpace(s[|s| - 1]) then TrimEnd(s[..|s| - 1]) else s
  }

  function Strip(s: string): string {
    TrimEnd(TrimStart(s))
  }

  /** A digit run `int()` accepts: non-empty, all digits, and within the digit limit. */
  predicate IsConvertibleDigits(s: string) {
    IsDigits(s) && |s| <= MaxStrDigits
  }

  /** The integer `int(s)` returns, or None where it raises ValueError. */
  function ParseInt(s: string): Option<int> {
    var t := Strip(s);
    if |t| > 0 && (t[0] == '+' || t[0] == '-') then
      if IsConvertibleDigits(t[1..]) then
        var magnitude: int := DigitsValue(t[1..]);
        Some(if t[0] == '-' then -magnitude else magnitude)
      else None
    else if IsConvertibleDigits(t) then Some(DigitsValue(t))
    else None
  }

  lemma StripOfDigits(s: string)
    requires IsDigits(s)
    ensures Strip(s) == s
  {
    assert !IsSpace(s[0]) && !IsSpace(s[|s| - 1]);
  }

  /** A digit run after one sign has no whitespace to strip. */
  lemma StripOfSigned(d: string, sign: char)
    requires IsDigits(d) && (sign == '+' || sign == '-')
    ensures Strip([sign] + d) == [sign] + d
    ensures ([sign] + d)[1..] == d
  {
    var t := [sign] + d;
    assert t[1..] == d;
    assert TrimStart(t) == t;
    assert t[|t| - 1] == d[|d| - 1];
  }

  /**
   * Reading back the decimal spelling of a number within the digit limit,
   * with or without a sign, gives that number.
   */
  lemma ParseDecimal(n: nat)
    requires |DecimalString(n)| <= MaxStrDigits
    ensures ParseInt(DecimalString(n)) == Some(n)
    ensures ParseInt(['+'] + DecimalString(n)) == Some(n)
    ensures ParseInt(['-'] + DecimalString(n)) == Some(-(n as int))
  {
    var d := DecimalString(n);
    StripOfDigits(d);
    StripOfSigned(d, '+');
    StripOfSigned(d, '-');
  }

  /** A digit run longer than the limit does not convert, bare or after a sign. */
  lemma OverlongDigitsRejected(d: string)
    requires IsDigits(d) && |d| > MaxStrDigits
    ensures ParseInt(d) == None
    ensures ParseInt(['+'] + d) == None
    ensures ParseInt(['-'] + d) == None
  {
    StripOfDigits(d);
    StripOfSigned(d, '+');
    StripOfSigned(d, '-');
  }

  /**
   * Text holding a character that is neither a digit, a sign nor whitespace
   * never converts.
   */
  lemma ParseRejectsForeignCharacter(s: string, k: nat)
    requires k < |s|
    requires !IsDigit(s[k]) && !IsSpace(s[k]) && s[k] != '+' && s[k] != '-'
    ensures ParseInt(s) == None
  {
    var a := TrimStart(s);
    var t := TrimEnd(a);
    var start := |s| - |a|;
    assert start <= k;
    assert a[k - start] == s[k];
    assert k - start < |t|;
    assert t[k - start] == s[k];
  }
}
