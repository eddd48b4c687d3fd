/**
 * Calendar dates in the YYYY-MM-DD text form the used-date column holds:
 * the form the date entry is pre-filled with (today, formatted "%Y-%m-%d"),
 * and the form the month export requires every cell to parse as.
 */
module Dates {
  import opened Wrappers
  import opened IntText

  datatype Date = Date(year: int, month: int, day: int)

  /** Gregorian leap years: every fourth year, except centuries not divisible by 400. */
  predicate IsLeapYear(y: int) {
    y % 4 == 0 && (y % 100 != 0 || y % 400 == 0)
  }

  function DaysInMonth(y: int, m: int): (n: int)
    requires 1 <= m <= 12
    ensures 28 <= n <= 31
    ensures n == 29 <==> m == 2 && IsLeapYear(y)
  {
    if m == 2 then (if IsLeapYear(y) then 29 else 28)
    else if m == 4 || m == 6 || m == 9 || m == 11 then 30
    else 31
  }

  /** A day that exists in the Gregorian calendar, with a four-digit year. */
  predicate ValidDate(d: Date) {
    1 <= d.year <= 9999 && 1 <= d.month <= 12 && 1 <= d.day <= DaysInMonth(d.year, d.month)
  }

  predicate AsciiDigits(t: string) {
    forall i :: 0 <= i < |t| ==> '0' <= t[i] <= '9'
  }

  /**
   * Reads "YYYY-MM-DD": exactly four, two and two ASCII digits separated by
   * hyphens, naming a day that exists. None stands for the parse error that
   * aborts the month export.
   */
  function ParseDate(s: string): (r: Option<Date>)
    ensures r.Some? ==> ValidDate(r.value)
  {
    if |s| == 10 && s[4] == '-' && s[7] == '-'
       && AsciiDigits(s[..4]) && AsciiDigits(s[5..7]) && AsciiDigits(s[8..])
    then
      var d := Date(DigitsValue(s[..4]), DigitsValue(s[5..7]), DigitsValue(s[8..]));
      if ValidDate(d) then Some(d) else None
    else None
  }

  function Pow10(w: nat): (p: nat)
    ensures p >= 1
  {
    if w == 0 then 1 else 10 * Pow10(w - 1)
  }

  /** The last w decimal digits of n, zero-padded on the left. */
  function Padded(n: nat, w: nat): (t: string)
    ensures |t| == w && AsciiDigits(t)
  {
    if w == 0 then [] else Padded(n / 10, w - 1) + [DigitChar(n % 10)]
  }

  /** The "%Y-%m-%d" rendering of a date. */
  function FormatDate(d: Date): string
    requires ValidDate(d)
  {
    Padded(d.year, 4) + "-" + Padded(d.month, 2) + "-" + Padded(d.day, 2)
  }

  lemma {:induction false} PaddedValue(n: nat, w: nat)
    requires n < Pow10(w)
    ensures DigitsValue(Padded(n, w)) == n
  {
    if w > 0 {
      var t := Padded(n, w);
      PaddedValue(n / 10, w - 1);
      assert t[..|t| - 1] == Padded(n / 10, w - 1);
    }
  }

  lemma {:induction false} ValuePadded(t: string)
    requires AsciiDigits(t)
    ensures DigitsValue(t) < Pow10(|t|) && Padded(DigitsValue(t), |t|) == t
  {
    if t != [] {
      var init, last := t[..|t| - 1], t[|t| - 1];
      assert AsciiDigits(init);
      ValuePadded(init);
      var v, d := DigitsValue(init), DigitValue(last);
      var n := 10 * v + d;
      assert DigitsValue(t) == n;
      assert n / 10 == v && n % 10 == d;
      assert DigitChar(d) == last;
      calc {
        Padded(n, |t|);
        Padded(v, |init|) + [DigitChar(d)];
        init + [last];
        t;
      }
    }
  }

  /** Every existing date, written "%Y-%m-%d", reads back as itself. */
  lemma FormatThenParse(d: Date)
    requires ValidDate(d)
    ensures ParseDate(FormatDate(d)) == Some(d)
  {
    var s := FormatDate(d);
    PaddedValue(d.year, 4);
    PaddedValue(d.month, 2);
    PaddedValue(d.day, 2);
    assert s[..4] == Padded(d.year, 4);
    assert s[5..7] == Padded(d.month, 2);
    assert s[8..] == Padded(d.day, 2);
  }

  /** ParseDate accepts only the canonical "%Y-%m-%d" text of the date it returns. */
  lemma ParseThenFormat(s: string)
    requires ParseDate(s).Some?
    ensures FormatDate(ParseDate(s).value) == s
  {
    ValuePadded(s[..4]);
    ValuePadded(s[5..7]);
    ValuePadded(s[8..]);
    assert s == s[..4] + "-" + s[5..7] + "-" + s[8..];
  }
}
