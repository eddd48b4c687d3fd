/**
 * Integer text in the two directions the expense store needs it:
 * ParseInt is Python's int(text) in base ten, as the register button uses it
 * to validate the amount (without the interpreter's limit on the number of
 * digits), and IntToText is str(n), the form in which an integer amount is
 * written into the CSV table.
 */
module IntText {
  import opened Wrappers

  /**
   * The white space int() ignores at both ends: the ASCII space and tab to
   * carriage return, and the non-ASCII characters for which str.isspace()
   * holds. The ASCII separators U+001C to U+001F satisfy str.isspace() but
   * are not stripped by int(), which reads them as invalid characters.
   */
  predicate IsSpace(c: char) {
    c == ' ' || '\t' <= c <= '\r' || c == '\U{85}' || c == '\U{a0}'
    || c == '\U{1680}' || '\U{2000}' <= c <= '\U{200a}' || c == '\U{2028}' || c == '\U{2029}'
    || c == '\U{202f}' || c == '\U{205f}' || c == '\U{3000}'
  }

  /** Decimal digits int() accepts: ASCII and the full-width forms typed by a Japanese input method. */
  predicate IsDigit(c: char) {
    '0' <= c <= '9' || '\U{ff10}' <= c <= '\U{ff19}'
  }

  function DigitValue(c: char): (d: nat)
    requires IsDigit(c)
    ensures d <= 9
  {
    if '0' <= c <= '9' then c as int - '0' as int else c as int - 0xff10
  }

  function DigitChar(d: nat): (c: char)
    requires d <= 9
    ensures '0' <= c <= '9' && IsDigit(c) && DigitValue(c) == d
  {
    ('0' as int + d) as char
  }

  function TrimStart(s: string): (t: string)
    ensures t != [] ==> !IsSpace(t[0])
  {
    if s != [] && IsSpace(s[0]) then TrimStart(s[1..]) else s
  }

  function TrimEnd(s: string): (t: string)
    ensures t != [] ==> !IsSpace(t[|t| - 1])
  {
    if s != [] && IsSpace(s[|s| - 1]) then TrimEnd(s[..|s| - 1]) else s
  }

  /** The text int() looks at once surrounding white space is removed. */
  function Strip(s: string): string {
    TrimEnd(TrimStart(s))
  }

  /**
   * Digits, possibly grouped by single underscores (int("1_000") is 1000):
   * the text starts with a digit and every underscore is followed by a digit.
   */
  predicate IsDigitGroups(t: string) {
    t != [] && IsDigit(t[0]) && DigitsOrUnderscores(t) &&
    forall i :: 0 <= i < |t| && t[i] == '_' ==> i + 1 < |t| && IsDigit(t[i + 1])
  }

  predicate DigitsOrUnderscores(t: string) {
    forall i :: 0 <= i < |t| ==> IsDigit(t[i]) || t[i] == '_'
  }

  /** The base-ten value of the digits of t, underscores skipped. */
  function DigitsValue(t: string): nat
    requires DigitsOrUnderscores(t)
  {
    if t == [] then 0
    else if t[|t| - 1] == '_' then DigitsValue(t[..|t| - 1])
    else 10 * DigitsValue(t[..|t| - 1]) + DigitValue(t[|t| - 1])
  }

  /**
   * int(text) for base ten: optional surrounding white space, an optional
   * sign, then digit groups. None stands for the ValueError int() raises.
   */
  function ParseInt(text: string): Option<int> {
    ParseStripped(Strip(text))
  }

  /** int() on text that has no surrounding white space. */
  function ParseStripped(t: string): Option<int> {
    if t != [] && (t[0] == '+' || t[0] == '-') then
      if IsDigitGroups(t[1..]) then
        var v: int := DigitsValue(t[1..]);
        Some(if t[0] == '-' then -v else v)
      else None
    else if IsDigitGroups(t) then Some(DigitsValue(t))
    else None
  }

  /** str(n) for n >= 0: the shortest decimal form, no leading zeros. */
  function NatToText(n: nat): (s: string)
    ensures s != [] && forall i :: 0 <= i < |s| ==> '0' <= s[i] <= '9'
  {
    if n < 10 then [DigitChar(n)] else NatToText(n / 10) + [DigitChar(n % 10)]
  }

  /** str(n): a minus sign for negative numbers, then the digits. */
  function IntToText(n: int): string {
    if n < 0 then "-" + NatToText(-n) else NatToText(n)
  }

  lemma {:induction false} NatToTextValue(n: nat)
    ensures DigitsOrUnderscores(NatToText(n)) && DigitsValue(NatToText(n)) == n
  {
    var s := NatToText(n);
    if n >= 10 {
      NatToTextValue(n / 10);
      assert s[..|s| - 1] == NatToText(n / 10);
    }
  }

  /** Text that neither starts nor ends with white space is what int() looks at. */
  lemma StripUnspaced(s: string)
    requires s != [] && !IsSpace(s[0]) && !IsSpace(s[|s| - 1])
    ensures Strip(s) == s
  {
    assert TrimStart(s) == s;
  }

  lemma NatToTextGroups(n: nat)
    ensures IsDigitGroups(NatToText(n)) && DigitsValue(NatToText(n)) == n
  {
    NatToTextValue(n);
  }

  lemma DigitsUnspaced(digits: string, negative: bool)
    requires digits != [] && forall i :: 0 <= i < |digits| ==> '0' <= digits[i] <= '9'
    ensures var s := if negative then "-" + digits else digits;
      Strip(s) == s
  {
    var s := if negative then "-" + digits else digits;
    var first, last := s[0], s[|s| - 1];
    assert first == '-' || '0' <= first <= '9';
    assert '0' <= last <= '9';
    assert !IsSpace(first) && !IsSpace(last);
    StripUnspaced(s);
  }

  lemma UnsignedValue(t: string)
    requires IsDigitGroups(t)
    ensures ParseStripped(t) == Some(DigitsValue(t) as int)
  {
    assert t[0] != '+' && t[0] != '-';
  }

  lemma NegatedValue(t: string)
    requires IsDigitGroups(t)
    ensures ParseStripped("-" + t) == Some(-(DigitsValue(t) as int))
  {
    assert ("-" + t)[1..] == t;
  }

  /** An optional minus sign followed by ASCII digits is read as the signed value of the digits. */
  lemma SignedDigits(digits: string, negative: bool)
    requires IsDigitGroups(digits) && forall i :: 0 <= i < |digits| ==> '0' <= digits[i] <= '9'
    ensures ParseInt(if negative then "-" + digits else digits) ==
      Some(if negative then -(DigitsValue(digits) as int) else DigitsValue(digits) as int)
  {
    DigitsUnspaced(digits, negative);
    if negative {
      NegatedValue(digits);
    } else {
      UnsignedValue(digits);
    }
  }

  /** Writing an amount with str and reading it back with int gives the same amount. */
  lemma ParseIntRoundTrip(n: int)
    ensures ParseInt(IntToText(n)) == Some(n)
  {
    var m: nat := if n < 0 then -n else n;
    NatToTextGroups(m);
    SignedDigits(NatToText(m), n < 0);
  }

  predicate AllSpaces(p: string) {
    forall i :: 0 <= i < |p| ==> IsSpace(p[i])
  }

  lemma {:induction false} TrimStartPadding(p: string, s: string)
    requires AllSpaces(p)
    ensures TrimStart(p + s) == TrimStart(s)
  {
    if p != [] {
      assert (p + s)[1..] == p[1..] + s;
      TrimStartPadding(p[1..], s);
    } else {
      assert p + s == s;
    }
  }

  lemma {:induction false} TrimEndPadding(s: string, q: string)
    requires AllSpaces(q)
    ensures TrimEnd(s + q) == TrimEnd(s)
  {
    if q != [] {
      var q' := q[..|q| - 1];
      assert (s + q)[..|s + q| - 1] == s + q';
      TrimEndPadding(s, q');
    } else {
      assert s + q == s;
    }
  }

  lemma {:induction false} TrimStartAppend(s: string, q: string)
    requires AllSpaces(q)
    ensures TrimStart(s) != [] ==> TrimStart(s + q) == TrimStart(s) + q
    ensures TrimStart(s) == [] ==> TrimStart(s + q) == []
  {
    if s == [] {
      TrimStartPadding(q, []);
      assert q + [] == q && s + q == q;
    } else if IsSpace(s[0]) {
      assert (s + q)[1..] == s[1..] + q;
      TrimStartAppend(s[1..], q);
    } else {
      assert (s + q)[0] == s[0];
    }
  }

  /** int() ignores white space around the number: padding never changes what is accepted or its value. */
  lemma ParseIntIgnoresPadding(p: string, s: string, q: string)
    requires AllSpaces(p) && AllSpaces(q)
    ensures ParseInt(p + s + q) == ParseInt(s)
  {
    assert p + s + q == p + (s + q);
    TrimStartPadding(p, s + q);
    TrimStartAppend(s, q);
    if TrimStart(s) != [] {
      TrimEndPadding(TrimStart(s), q);
    }
    assert Strip(p + s + q) == Strip(s);
  }

  /**
   * What int() accepts is digits and underscores after at most one leading
   * sign, so a fractional amount ("12.5"), an exponent or a word is rejected.
   */
  lemma ParseIntCharacters(text: string)
    requires ParseInt(text).Some?
    ensures var t := Strip(text);
      t != [] && forall i :: 0 <= i < |t| ==> IsDigit(t[i]) || t[i] == '_' || (i == 0 && (t[i] == '+' || t[i] == '-'))
  {
    var t := Strip(text);
    if t[0] == '+' || t[0] == '-' {
      assert forall i :: 1 <= i < |t| ==> t[i] == t[1..][i - 1];
    }
  }

  /** The amounts "abc", "12.5" and "" are refused, as int() refuses them. */
  lemma RejectsExamples(t: string)
    requires t == "abc" || t == "12.5" || t == ""
    ensures ParseInt(t) == None
  {
    if t != "" {
      StripUnspaced(t);
      assert !IsDigit(t[if t == "abc" then 0 else 2]);
    }
  }

  /** A leading information separator (U+001C, str.isspace() true) makes int("\x1c5") fail rather than give 5. */
  lemma RejectsSeparatorPadding(t: string)
    requires t == "\U{1c}5"
    ensures ParseInt(t) == None
  {
    StripUnspaced(t);
    assert !IsDigit(t[0]) && t[0] != '+' && t[0] != '-';
  }
}
