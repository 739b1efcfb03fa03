/** The two date conversions of the order lookup:
    `datetime.strptime(text, '%Y-%m-%d')` and `date.strftime('%B %d, %Y')`.

  CPython's `_strptime` matches the directives with the patterns
  `%Y = \d\d\d\d`, `%m = 1[0-2]|0[1-9]|[1-9]` and
  `%d = 3[01]|[12]\d|0[1-9]|[1-9]| [1-9]` (alternatives tried in that order),
  rejects text left over after the match, and then `datetime` rejects a year
  below 1 and a day past the end of the month.  So single-digit months and
  days are accepted (`2024-3-1`), and so is a day written as a space and a digit.
  Only the ASCII digits `0`-`9` are modelled; `\d` in CPython's patterns also
  matches the other Unicode decimal digits.
 */
module Dates {
  import opened Outcomes

  datatype Date = Date(year: int, month: int, day: int)

  predicate IsDigit(c: char) { '0' <= c <= '9' }
  predicate IsNonZeroDigit(c: char) { '1' <= c <= '9' }

  function DigitValue(c: char): (v: int)
    requires IsDigit(c)
    ensures 0 <= v <= 9
  {
    c as int - '0' as int
  }

  function DigitChar(v: int): (c: char)
    requires 0 <= v <= 9
    ensures IsDigit(c) && DigitValue(c) == v
  {
    (v + '0' as int) as char
  }

  predicate IsLeapYear(y: int) {
    y % 4 == 0 && (y % 100 != 0 || y % 400 == 0)
  }

  function DaysInMonth(y: int, m: int): (n: int)
    requires 1 <= m <= 12
    ensures 28 <= n <= 31
  {
    if m == 2 then (if IsLeapYear(y) then 29 else 28)
    else if m == 4 || m == 6 || m == 9 || m == 11 then 30
    else 31
  }

  /** A date `datetime` can represent: years 1 to 9999 of the proleptic Gregorian calendar. */
  predicate Valid(d: Date) {
    1 <= d.year <= 9999 && 1 <= d.month <= 12 && 1 <= d.day <= DaysInMonth(d.year, d.month)
  }

  /** The `%m` directive followed by the literal `-`: the month and the
      number of characters its digits take. */
  function MonthField(t: string): (r: Option<(int, nat)>)
    ensures r.Some? ==>
      1 <= r.value.0 <= 12 && 1 <= r.value.1 <= 2 && r.value.1 < |t| && t[r.value.1] == '-'
  {
    if |t| >= 3 && t[0] == '1' && '0' <= t[1] <= '2' && t[2] == '-' then
      Some((10 + DigitValue(t[1]), 2))
    else if |t| >= 3 && t[0] == '0' && IsNonZeroDigit(t[1]) && t[2] == '-' then
      Some((DigitValue(t[1]), 2))
    else if |t| >= 2 && IsNonZeroDigit(t[0]) && t[1] == '-' then
      Some((DigitValue(t[0]), 1))
    else None
  }

  /** The `%d` directive at the start of `t`: the first alternative that
      matches, with the day and the number of characters it consumed. */
  function DayField(t: string): (r: Option<(int, nat)>)
    ensures r.Some? ==> 1 <= r.value.0 <= 31 && 1 <= r.value.1 <= 2 && r.value.1 <= |t|
  {
    if |t| >= 2 && t[0] == '3' && (t[1] == '0' || t[1] == '1') then
      Some((30 + DigitValue(t[1]), 2))
    else if |t| >= 2 && (t[0] == '1' || t[0] == '2') && IsDigit(t[1]) then
      Some((10 * DigitValue(t[0]) + DigitValue(t[1]), 2))
    else if |t| >= 2 && t[0] == '0' && IsNonZeroDigit(t[1]) then
      Some((DigitValue(t[1]), 2))
    else if |t| >= 1 && IsNonZeroDigit(t[0]) then
      Some((DigitValue(t[0]), 1))
    else if |t| >= 2 && t[0] == ' ' && IsNonZeroDigit(t[1]) then
      Some((DigitValue(t[1]), 2))
    else None
  }

  /** The ways `%m` spells a month: two digits, or one digit below 10. */
  function MonthSpellings(m: int): set<string>
    requires 1 <= m <= 12
  {
    {Pad2(m)} + (if m <= 9 then {[DigitChar(m)]} else {})
  }

  /** The ways `%d` spells a day: two digits, or below 10 one digit, bare or
      after a space. */
  function DaySpellings(d: int): set<string>
    requires 1 <= d <= 31
  {
    {Pad2(d)} + (if d <= 9 then {[DigitChar(d)], [' ', DigitChar(d)]} else {})
  }

  /** `s` is one of the `%Y-%m-%d` spellings of `d`. */
  predicate Spells(s: string, d: Date)
    requires Valid(d)
  {
    exists m, dd :: m in MonthSpellings(d.month) && dd in DaySpellings(d.day)
      && s == Pad4(d.year) + "-" + m + "-" + dd
  }

  /** `datetime.strptime(s, '%Y-%m-%d')`: `None` where Python raises `ValueError`. */
  function ParseIso(s: string): (r: Option<Date>)
    ensures r.Some? ==> Valid(r.value)
  {
    if |s| < 5 || !IsDigit(s[0]) || !IsDigit(s[1]) || !IsDigit(s[2]) || !IsDigit(s[3]) || s[4] != '-' then
      None
    else
      var year := 1000 * DigitValue(s[0]) + 100 * DigitValue(s[1]) + 10 * DigitValue(s[2]) + DigitValue(s[3]);
      var rest := s[5..];
      match MonthField(rest)
      case None => None
      case Some(mf) =>
        var dayText := rest[mf.1 + 1..];
        match DayField(dayText)
        case None => None
        case Some(df) =>
          var d := Date(year, mf.0, df.0);
          if df.1 != |dayText| || !Valid(d) then None else Some(d)
  }

  /** `ParseIso` accepts only the `%Y-%m-%d` spellings of the date it returns:
      four year digits, `-`, a month spelling, `-`, a day spelling, and
      nothing more. */
  lemma ParseIsoSpelled(s: string)
    ensures ParseIso(s).Some? ==> Spells(s, ParseIso(s).value)
  {
    if ParseIso(s).Some? {
      var rest := s[5..];
      var mf := MonthField(rest).value;
      var dayText := rest[mf.1 + 1..];
      var df := DayField(dayText).value;
      Pad4Of(s[..4]);
      MonthFieldSpelled(rest);
      DayFieldSpelled(dayText);
      assert dayText[..df.1] == dayText;
      assert s == s[..4] + "-" + rest[..mf.1] + "-" + dayText;
    }
  }

  /** Two digit characters are the zero-padded spelling of their value. */
  lemma Pad2Of(x: char, y: char)
    requires IsDigit(x) && IsDigit(y)
    ensures Pad2(10 * DigitValue(x) + DigitValue(y)) == [x, y]
  {
  }

  /** Four digit characters are the `%Y` spelling of their value. */
  lemma Pad4Of(t: string)
    requires |t| == 4 && IsDigit(t[0]) && IsDigit(t[1]) && IsDigit(t[2]) && IsDigit(t[3])
    ensures Pad4(1000 * DigitValue(t[0]) + 100 * DigitValue(t[1]) + 10 * DigitValue(t[2]) + DigitValue(t[3])) == t
  {
    var hi := 10 * DigitValue(t[0]) + DigitValue(t[1]);
    var lo := 10 * DigitValue(t[2]) + DigitValue(t[3]);
    var n := 100 * hi + lo;
    assert n / 100 == hi && n % 100 == lo;
    Pad2Of(t[0], t[1]);
    Pad2Of(t[2], t[3]);
  }

  /** The month text `%m` consumed is one of the month's spellings. */
  lemma MonthFieldSpelled(t: string)
    ensures MonthField(t).Some? ==> t[..MonthField(t).value.1] in MonthSpellings(MonthField(t).value.0)
  {
    if MonthField(t).Some? {
      if MonthField(t).value.1 == 2 {
        Pad2Of(t[0], t[1]);
        assert t[..2] == [t[0], t[1]];
      } else {
        assert t[..1] == [DigitChar(DigitValue(t[0]))];
      }
    }
  }

  /** The day text `%d` consumed is one of the day's spellings. */
  lemma DayFieldSpelled(t: string)
    ensures DayField(t).Some? ==> t[..DayField(t).value.1] in DaySpellings(DayField(t).value.0)
  {
    if DayField(t).Some? {
      if DayField(t).value.1 == 1 {
        assert t[..1] == [DigitChar(DigitValue(t[0]))];
      } else if t[0] == ' ' {
        assert t[..2] == [' ', DigitChar(DigitValue(t[1]))];
      } else {
        Pad2Of(t[0], t[1]);
        assert t[..2] == [t[0], t[1]];
      }
    }
  }

  /** `%m` reads each spelling of a month, up to the `-` after it. */
  lemma MonthFieldReads(m: string, month: int, more: string)
    requires 1 <= month <= 12 && m in MonthSpellings(month)
    ensures MonthField(m + "-" + more) == Some((month, |m|))
  {
    var t := m + "-" + more;
    if m == Pad2(month) {
      assert t[0] == m[0] && t[1] == m[1] && t[2] == '-';
    } else {
      assert t[0] == m[0] && t[1] == '-';
    }
  }

  /** `%d` reads each spelling of a day in full. */
  lemma DayFieldReads(dd: string, day: int)
    requires 1 <= day <= 31 && dd in DaySpellings(day)
    ensures DayField(dd) == Some((day, |dd|))
  {
  }

  /** Every `%Y-%m-%d` spelling of a valid date parses to that date: with
      `ParseIso`'s own contract, `ParseIso(s) == Some(d)` exactly when `s`
      spells the valid date `d`. */
  lemma SpellingsParse(d: Date, m: string, dd: string)
    requires Valid(d) && m in MonthSpellings(d.month) && dd in DaySpellings(d.day)
    ensures ParseIso(Pad4(d.year) + "-" + m + "-" + dd) == Some(d)
  {
    var s := Pad4(d.year) + "-" + m + "-" + dd;
    assert s[..4] == Pad4(d.year) && s[4] == '-';
    var rest := s[5..];
    assert rest == m + "-" + dd;
    MonthFieldReads(m, d.month, dd);
    assert rest[|m| + 1..] == dd;
    DayFieldReads(dd, d.day);
  }

  /** Two decimal digits, zero padded (`%d`, `%m`). */
  function Pad2(n: int): (r: string)
    requires 0 <= n <= 99
    ensures |r| == 2 && IsDigit(r[0]) && IsDigit(r[1])
    ensures 10 * DigitValue(r[0]) + DigitValue(r[1]) == n
  {
    [DigitChar(n / 10), DigitChar(n % 10)]
  }

  /** Four decimal digits, zero padded (`%Y`). */
  function Pad4(n: int): (r: string)
    requires 0 <= n <= 9999
    ensures |r| == 4 && IsDigit(r[0]) && IsDigit(r[1]) && IsDigit(r[2]) && IsDigit(r[3])
    ensures 1000 * DigitValue(r[0]) + 100 * DigitValue(r[1]) + 10 * DigitValue(r[2]) + DigitValue(r[3]) == n
  {
    Pad2(n / 100) + Pad2(n % 100)
  }

  /** `%B` in the C locale. */
  function MonthName(m: int): (r: string)
    requires 1 <= m <= 12
    ensures |r| >= 3 && ' ' !in r
  {
    ["January", "February", "March", "April", "May", "June", "July",
     "August", "September", "October", "November", "December"][m - 1]
  }

  /** `date.strftime('%B %d, %Y')`. */
  function LongForm(d: Date): string
    requires Valid(d)
  {
    MonthName(d.month) + " " + Pad2(d.day) + ", " + Pad4(d.year)
  }

  lemma MonthNamesDistinct(m1: int, m2: int)
    requires 1 <= m1 <= 12 && 1 <= m2 <= 12
    requires MonthName(m1) == MonthName(m2)
    ensures m1 == m2
  {
    var n1, n2 := MonthName(m1), MonthName(m2);
    assert n1[..3] == n2[..3];
  }

  /** The long form shows the whole date: different dates never display alike. */
  lemma LongFormInjective(d1: Date, d2: Date)
    requires Valid(d1) && Valid(d2)
    requires LongForm(d1) == LongForm(d2)
    ensures d1 == d2
  {
    var s := LongForm(d1);
    var n1, n2 := |MonthName(d1.month)|, |MonthName(d2.month)|;
    assert |s| == n1 + 9 == n2 + 9;
    assert s[n1 + 5..] == Pad4(d1.year) == Pad4(d2.year);
    assert s[n1 + 1..n1 + 3] == Pad2(d1.day) == Pad2(d2.day);
    assert s[..n1] == MonthName(d1.month) == MonthName(d2.month);
    MonthNamesDistinct(d1.month, d2.month);
  }

  /** The canonical `YYYY-MM-DD` text of a date. */
  function IsoForm(d: Date): (r: string)
    requires 0 <= d.year <= 9999 && 0 <= d.month <= 99 && 0 <= d.day <= 99
    ensures |r| == 10
  {
    Pad4(d.year) + "-" + Pad2(d.month) + "-" + Pad2(d.day)
  }

  /** Canonical text parses back to its date exactly when the date is valid;
      every other two-digit month, two-digit day or year zero is rejected. */
  lemma ParseIsoForm(d: Date)
    requires 0 <= d.year <= 9999 && 0 <= d.month <= 99 && 0 <= d.day <= 99
    ensures ParseIso(IsoForm(d)) == (if Valid(d) then Some(d) else None)
  {
    var s := IsoForm(d);
    var rest := s[5..];
    assert rest == Pad2(d.month) + "-" + Pad2(d.day);
    var m := MonthField(rest);
    if 1 <= d.month <= 12 {
      assert m == Some((d.month, 2));
      assert rest[3..] == Pad2(d.day);
      var df := DayField(Pad2(d.day));
      if 1 <= d.day <= 31 {
        assert df == Some((d.day, 2));
      } else {
        assert df.None? || df.value.1 == 1;
      }
    } else {
      assert m.None?;
    }
  }

  /** The unpadded spellings of a valid date parse too: a one-digit month,
      and a one-digit day written bare or after a space. */
  lemma ParseIsoUnpadded(d: Date)
    requires Valid(d) && d.month <= 9 && d.day <= 9
    ensures ParseIso(Pad4(d.year) + "-" + [DigitChar(d.month)] + "-" + [DigitChar(d.day)]) == Some(d)
    ensures ParseIso(Pad4(d.year) + "-" + [DigitChar(d.month)] + "- " + [DigitChar(d.day)]) == Some(d)
    ensures ParseIso(Pad4(d.year) + "-" + Pad2(d.month) + "-" + [DigitChar(d.day)]) == Some(d)
  {
    var y := Pad4(d.year);
    var m, dd := DigitChar(d.month), DigitChar(d.day);
    var s1 := y + "-" + [m] + "-" + [dd];
    assert s1[..4] == y && s1[5..] == [m, '-', dd];
    assert [m, '-', dd][2..] == [dd];
    var s2 := y + "-" + [m] + "- " + [dd];
    assert s2[..4] == y && s2[5..] == [m, '-', ' ', dd];
    assert [m, '-', ' ', dd][2..] == [' ', dd];
    var s3 := y + "-" + Pad2(d.month) + "-" + [dd];
    assert s3[..4] == y && s3[5..] == Pad2(d.month) + "-" + [dd];
    assert (Pad2(d.month) + "-" + [dd])[3..] == [dd];
  }

  /** The worked example of the order lookup: `2024-03-01` is shown as `March 01, 2024`. */
  lemma ExampleDate()
    ensures ParseIso("2024-03-01") == Some(Date(2024, 3, 1))
    ensures LongForm(Date(2024, 3, 1)) == "March 01, 2024"
  {
    ParseIsoForm(Date(2024, 3, 1));
    assert IsoForm(Date(2024, 3, 1)) == "2024-03-01";
  }

  /** `strptime` also takes unpadded fields, and rejects a day the month does not have. */
  lemma LenientAndStrictExamples()
    ensures ParseIso("2024-3-1") == Some(Date(2024, 3, 1))
    ensures ParseIso("2023-02-29") == None
    ensures ParseIso("2024-02-29") == Some(Date(2024, 2, 29))
    ensures ParseIso("0000-01-01") == None
    ensures ParseIso("2024-03-01 ") == None
  {
    assert "2024-3-1"[5..] == "3-1";
    assert "2024-03-01 "[5..] == "03-01 ";
    assert "03-01 "[3..] == "01 ";
  }
}
