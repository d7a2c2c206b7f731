/**
 * Expiry dates: `parse_date_or_none`, which runs
 * `datetime.strptime(s.strip(), "%Y-%m-%d").date()` and turns every failure
 * into `None`, and `date.isoformat()`, which the replies use to print a date.
 */
module Dates {

  import opened Wrappers
  import opened Text

  /** A calendar date, as `datetime.date` holds it. */
  datatype Date = Date(year: int, month: int, day: int)

  predicate IsLeapYear(y: int)
  {
    y % 4 == 0 && (y % 100 != 0 || y % 400 == 0)
  }

  function DaysInMonth(y: int, m: int): int
    requires 1 <= m <= 12
  {
    if m == 2 then (if IsLeapYear(y) then 29 else 28)
    else if m == 4 || m == 6 || m == 9 || m == 11 then 30
    else 31
  }

  /** The dates `datetime.date` can represent: years 1 to 9999, real days. */
  predicate IsValid(d: Date)
  {
    1 <= d.year <= 9999 && 1 <= d.month <= 12 && 1 <= d.day <= DaysInMonth(d.year, d.month)
  }

  /** `a < b` on dates: year, then month, then day. */
  predicate Before(a: Date, b: Date)
  {
    a.year < b.year
    || (a.year == b.year && (a.month < b.month || (a.month == b.month && a.day < b.day)))
  }

  /** The `%m` directive of strptime, `1[0-2]|0[1-9]|[1-9]`, matched against the whole of `s`. */
  function MonthField(s: string): Option<int>
  {
    if |s| == 1 && '1' <= s[0] <= '9' then Some(DigitValue(s[0]))
    else if |s| == 2 && AllDigits(s) && 1 <= DigitsValue(s) <= 12 then Some(DigitsValue(s))
    else None
  }

  /**
   * The `%d` directive of strptime, `3[01]|[12]\d|0[1-9]|[1-9]| [1-9]`,
   * matched against the whole of `s` (nothing may follow the day).
   */
  function DayField(s: string): Option<int>
  {
    if |s| == 1 && '1' <= s[0] <= '9' then Some(DigitValue(s[0]))
    else if |s| == 2 && s[0] == ' ' && '1' <= s[1] <= '9' then Some(DigitValue(s[1]))
    else if |s| == 2 && AllDigits(s) && 1 <= DigitsValue(s) <= 31 then Some(DigitsValue(s))
    else None
  }

  /**
   * `datetime.strptime(t, "%Y-%m-%d").date()`, with `None` for the
   * `ValueError` it raises. `%Y` is exactly four digits; `%m` is one digit
   * when the character after it is already the second '-', two otherwise;
   * `%d` must take up the rest; and the fields must form a real date.
   */
  function StrptimeIsoDate(t: string): Option<Date>
  {
    if |t| < 8 || !AllDigits(t[..4]) || t[4] != '-' then None
    else
      var dash := if t[6] == '-' then 6 else 7;
      if t[dash] != '-' then None
      else
        match (MonthField(t[5..dash]), DayField(t[dash + 1..]))
        case (Some(m), Some(d)) =>
          var date := Date(DigitsValue(t[..4]), m, d);
          if IsValid(date) then Some(date) else None
        case _ => None
  }

  /** `parse_date_or_none(s)`. */
  function ParseDate(s: string): (r: Option<Date>)
    ensures r.Some? ==> IsValid(r.value)
    ensures s == "" ==> r == None
  {
    if s == "" then None else StrptimeIsoDate(Strip(s))
  }

  function Pad2(n: int): string
    requires 0 <= n < 100
  {
    [DigitChar(n / 10), DigitChar(n % 10)]
  }

  function Pad4(n: int): string
    requires 0 <= n < 10000
  {
    Pad2(n / 100) + Pad2(n % 100)
  }

  /** `"%04d-%02d-%02d" % (y, m, d)`: the text of a date in the layout `date.isoformat()` writes. */
  function IsoText(y: int, m: int, d: int): string
    requires 0 <= y < 10000 && 0 <= m < 100 && 0 <= d < 100
  {
    Pad4(y) + "-" + Pad2(m) + "-" + Pad2(d)
  }

  /** `date.isoformat()`. */
  function IsoFormat(d: Date): string
    requires IsValid(d)
  {
    IsoText(d.year, d.month, d.day)
  }

  lemma Pad2Value(n: int)
    requires 0 <= n < 100
    ensures AllDigits(Pad2(n)) && DigitsValue(Pad2(n)) == n
  {
    var s := Pad2(n);
    assert s[..1] == [DigitChar(n / 10)];
    assert s[..1][..0] == [];
    assert DigitsValue(s[..1]) == n / 10;
    assert DigitValue(s[1]) == n % 10;
  }

  lemma Pad4Value(n: int)
    requires 0 <= n < 10000
    ensures AllDigits(Pad4(n)) && DigitsValue(Pad4(n)) == n
  {
    var high, low := Pad2(n / 100), Pad2(n % 100);
    Pad2Value(n / 100);
    assert Pad4(n) == (high + [low[0]]) + [low[1]];
    DigitsValueSnoc(high, low[0]);
    DigitsValueSnoc(high + [low[0]], low[1]);
  }

  /**
   * Parsing a `YYYY-MM-DD` text, however much whitespace surrounds it,
   * gives the date it names when that date exists and `None` when it does
   * not (a day 30 of February, a month 13, a year 0000).
   */
  lemma {:induction false} ParseIsoText(y: int, m: int, d: int, lead: string, trail: string)
    requires 0 <= y < 10000 && 0 <= m < 100 && 0 <= d < 100
    requires AllSpace(lead) && AllSpace(trail)
    ensures ParseDate(lead + IsoText(y, m, d) + trail)
            == if IsValid(Date(y, m, d)) then Some(Date(y, m, d)) else None
  {
    var t := IsoText(y, m, d);
    assert |t| == 10 && t[..4] == Pad4(y) && t[4] == '-' && t[5..7] == Pad2(m) && t[7] == '-' && t[8..] == Pad2(d);
    assert Trimmed(t) by {
      assert IsDigit(t[0]) && IsDigit(t[9]);
    }
    StripPadded(lead, t, trail);
    Pad4Value(y);
    Pad2Value(m);
    Pad2Value(d);
    assert t[6] != '-' by { assert t[6] == Pad2(m)[1]; }
    assert MonthField(t[5..7]) == if 1 <= m <= 12 then Some(m) else None;
    assert DayField(t[8..]) == if 1 <= d <= 31 then Some(d) else None;
  }

  /** For every valid date `d`, parsing `d.isoformat()` returns `d`, even with whitespace around it. */
  lemma ParseIsoFormat(d: Date, lead: string, trail: string)
    requires IsValid(d)
    requires AllSpace(lead) && AllSpace(trail)
    ensures ParseDate(lead + IsoFormat(d) + trail) == Some(d)
  {
    ParseIsoText(d.year, d.month, d.day, lead, trail);
  }

  /**
   * Only texts laid out as four digits of year, '-', one or two characters
   * of month, '-' and one or two of day, once stripped, parse at all.
   */
  lemma ParsedShape(s: string)
    requires ParseDate(s).Some?
    ensures var t := Strip(s);
      8 <= |t| <= 10 && AllDigits(t[..4]) && DigitsValue(t[..4]) == ParseDate(s).value.year
      && t[4] == '-' && (t[6] == '-' || t[7] == '-')
  {
  }

  lemma YearText()
    ensures AllDigits("2024") && DigitsValue("2024") == 2024
  {
    assert "2024"[..3] == "202" && "202"[..2] == "20" && "20"[..1] == "2" && "2"[..0] == [];
  }

  /** strptime's `%m` and `%d` also take one digit: "2024-1-5" is the 5th of January. */
  lemma ParseOneDigitFields()
    ensures ParseDate("2024-1-5") == Some(Date(2024, 1, 5))
  {
    var t := "2024-1-5";
    StripTrimmed(t);
    YearText();
    assert t[..4] == "2024";
    assert t[5..6] == "1";
    assert t[7..] == "5";
  }

  /** `%d` also takes a space before a single digit: "2024-01- 5" is the 5th of January. */
  lemma ParseSpacedDay()
    ensures ParseDate("2024-01- 5") == Some(Date(2024, 1, 5))
  {
    var t := "2024-01- 5";
    StripTrimmed(t);
    YearText();
    assert t[..4] == "2024";
    assert t[5..7] == "01";
    assert t[8..] == " 5";
    assert DigitsValue("01") == 1 by { assert "01"[..1] == "0" && "0"[..0] == []; }
  }

  /** A day the calendar does not have gives no date. */
  lemma ParseNoFebruary30()
    ensures ParseDate("2023-02-30") == None
  {
    assert "" + IsoText(2023, 2, 30) + "" == "2023-02-30";
    ParseIsoText(2023, 2, 30, "", "");
  }

  /** Any other layout gives no date. */
  lemma ParseDottedRejected()
    ensures ParseDate("01.02.2024") == None
  {
    var t := "01.02.2024";
    StripTrimmed(t);
    assert t[..4][2] == '.';
  }

}
