/** The two JavaScript number conversions the interval table depends on:
    formatting an integer in a template literal (`${n}`), which is how user
    ids and timestamps are written into Redis keys and values, and
    `parseInt(text, 10)`, which is how they are read back.
    JavaScript numbers are modelled as unbounded integers, with `NaN` as a
    separate value of the parse result. */
module JsNumbers {

  /** The result of `parseInt`: an integer, or `NaN` when no digit is found. */
  datatype ParsedInt = NaN | Int(value: int)

  predicate IsDigit(c: char) {
    '0' <= c <= '9'
  }

  predicate AllDigits(s: string) {
    forall i :: 0 <= i < |s| ==> IsDigit(s[i])
  }

  function DigitValue(c: char): (d: nat)
    requires IsDigit(c)
    ensures d < 10
  {
    (c as int) - ('0' as int)
  }

  function DigitChar(d: nat): (c: char)
    requires d < 10
    ensures IsDigit(c) && DigitValue(c) == d
  {
    (('0' as int) + d) as char
  }

  /** Decimal text of a natural number, most significant digit first, with
      no leading zero. */
  function NatToString(n: nat): (s: string)
    ensures 0 < |s| && AllDigits(s)
    ensures s[0] == '0' ==> s == "0" && n == 0
    decreases n
  {
    if n < 10 then [DigitChar(n)] else NatToString(n / 10) + [DigitChar(n % 10)]
  }

  /** `${n}` for an integer `n` (magnitudes below 10^21, where JavaScript
      switches to exponent notation). */
  function IntToString(n: int): (s: string)
    ensures 0 < |s|
  {
    if n < 0 then "-" + NatToString(-n) else NatToString(n)
  }

  /** The characters `parseInt` skips before the number: the white space and
      line terminators of ECMAScript's StrWhiteSpaceChar. */
  predicate IsJsWhiteSpace(c: char) {
    || c == '\t' || c == '\n' || c == '\U{B}' || c == '\U{C}' || c == '\r'
    || c == ' ' || c == '\U{A0}' || c == '\U{1680}'
    || ('\U{2000}' <= c <= '\U{200A}')
    || c == '\U{2028}' || c == '\U{2029}' || c == '\U{202F}' || c == '\U{205F}'
    || c == '\U{3000}' || c == '\U{FEFF}'
  }

  function TrimStart(s: string): (t: string)
    ensures |t| <= |s| && t == s[|s| - |t|..]
    ensures t == [] || !IsJsWhiteSpace(t[0])
    ensures forall i :: 0 <= i < |s| - |t| ==> IsJsWhiteSpace(s[i])
  {
    if s != [] && IsJsWhiteSpace(s[0]) then TrimStart(s[1..]) else s
  }

  /** Length of the longest prefix of `s` made of decimal digits. */
  function LeadingDigits(s: string): (n: nat)
    ensures n <= |s| && AllDigits(s[..n])
    ensures n < |s| ==> !IsDigit(s[n])
  {
    if s == [] || !IsDigit(s[0]) then 0
    else
      var m := LeadingDigits(s[1..]);
      assert s[..1 + m] == [s[0]] + s[1..][..m];
      1 + m
  }

  /** The value of a string of decimal digits. */
  function DigitsValue(s: string): nat
    requires AllDigits(s)
  {
    if s == [] then 0 else DigitsValue(s[..|s| - 1]) * 10 + DigitValue(s[|s| - 1])
  }

  /** `parseInt(s, 10)`: skip leading white space, read an optional sign,
      then the longest run of decimal digits; `NaN` when that run is empty.
      Whatever follows the digits is ignored. */
  function ParseInt(s: string): ParsedInt {
    ParseSigned(TrimStart(s))
  }

  /** `parseInt` after the white space has been skipped. */
  function ParseSigned(t: string): ParsedInt {
    var negative := t != [] && t[0] == '-';
    var body := if t != [] && (t[0] == '-' || t[0] == '+') then t[1..] else t;
    var n := LeadingDigits(body);
    if n == 0 then NaN
    else
      var magnitude: int := DigitsValue(body[..n]);
      Int(if negative then -magnitude else magnitude)
  }

  /** Text that `parseInt` reads back as an integer whose `${}` is that same
      text: the form every value written by the program has. */
  predicate IsCanonicalInt(s: string) {
    ParseInt(s).Int? && IntToString(ParseInt(s).value) == s
  }

  lemma {:induction false} DigitsValueOfNatToString(n: nat)
    ensures DigitsValue(NatToString(n)) == n
    decreases n
  {
    var s := NatToString(n);
    if n >= 10 {
      DigitsValueOfNatToString(n / 10);
      assert s[..|s| - 1] == NatToString(n / 10);
    }
  }

  lemma {:induction false} LeadingDigitsOfAllDigits(s: string)
    requires AllDigits(s)
    ensures LeadingDigits(s) == |s|
  {
    if s != [] {
      LeadingDigitsOfAllDigits(s[1..]);
    }
  }

  lemma TrimStartNoWhiteSpace(s: string)
    requires s != [] && (s[0] == '-' || IsDigit(s[0]))
    ensures TrimStart(s) == s
  {
    assert !IsJsWhiteSpace(s[0]);
  }

  lemma ParseSignedOfIntToString(n: int)
    ensures ParseSigned(IntToString(n)) == Int(n)
  {
    var m: nat := if n < 0 then -n else n;
    var digits := NatToString(m);
    LeadingDigitsOfAllDigits(digits);
    assert digits[..|digits|] == digits;
    DigitsValueOfNatToString(m);
    if n < 0 {
      assert IntToString(n)[1..] == digits;
    }
  }

  /** Reading back what was written: `parseInt(`${n}`, 10) == n`. */
  lemma ParseIntOfIntToString(n: int)
    ensures ParseInt(IntToString(n)) == Int(n)
  {
    TrimStartNoWhiteSpace(IntToString(n));
    ParseSignedOfIntToString(n);
  }

  /** Distinct integers are written as distinct texts. */
  lemma IntToStringInjective(a: int, b: int)
    requires IntToString(a) == IntToString(b)
    ensures a == b
  {
    ParseIntOfIntToString(a);
    ParseIntOfIntToString(b);
  }

  lemma IntToStringIsCanonical(n: int)
    ensures IsCanonicalInt(IntToString(n))
  {
    ParseIntOfIntToString(n);
  }

  /** Several texts read as the same number, so the round trip holds only in
      the direction integer, text, integer. */
  lemma ParseIntAcceptsLeadingZeros()
    ensures ParseInt("007") == Int(7) && !IsCanonicalInt("007")
  {
    TrimStartNoWhiteSpace("007");
    assert LeadingDigits("007") == 3 by {
      assert "007"[1..] == "07";
      assert "07"[1..] == "7";
      assert "7"[1..] == "";
    }
    assert DigitsValue("007") == 7 by {
      assert "007"[..3] == "007";
      assert "007"[..2] == "00";
      assert "00"[..1] == "0";
      assert "0"[..0] == "";
    }
    assert NatToString(7) == "7";
  }

  /** Without a digit after the optional sign the result is `NaN`. */
  lemma ParseIntWithoutDigits()
    ensures ParseInt("") == NaN && ParseInt("abc") == NaN && ParseInt("-") == NaN
  {
    assert !IsJsWhiteSpace('a') && !IsJsWhiteSpace('-');
    assert "-"[1..] == "";
  }
}
