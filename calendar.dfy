/**
  The proleptic Gregorian calendar as Python's `datetime` module implements it:
  dates of years 1 to 9999, leap years, day numbers (`date.toordinal()`, whose
  difference is `(a - b).days`), `strftime("%Y-%m-%d")` and
  `strptime(s, "%Y-%m-%d")`.
*/
module Calendar {
  import opened Wrappers
  import opened Text

  datatype Date = Date(year: int, month: int, day: int)

  predicate IsLeap(y: int) {
    y % 4 == 0 && (y % 100 != 0 || y % 400 == 0)
  }

  function DaysInMonth(y: int, m: int): (n: int)
    requires 1 <= m <= 12
    ensures 28 <= n <= 31
    ensures n == 29 <==> m == 2 && IsLeap(y)
  {
    if m == 2 then (if IsLeap(y) then 29 else 28)
    else if m == 4 || m == 6 || m == 9 || m == 11 then 30
    else 31
  }

  /** A date `datetime.date` accepts (MINYEAR is 1, MAXYEAR is 9999). */
  predicate ValidDate(d: Date) {
    1 <= d.year <= 9999 && 1 <= d.month <= 12 && 1 <= d.day <= DaysInMonth(d.year, d.month)
  }

  /** Days in the years before `y`, counted from 1 January of year 1. */
  function DaysBeforeYear(y: int): int {
    var n := y - 1;
    n * 365 + n / 4 - n / 100 + n / 400
  }

  /** Days in the months of year `y` before month `m`. */
  function DaysBeforeMonth(y: int, m: int): (r: int)
    requires 1 <= m <= 13
    ensures 0 <= r
  {
    if m == 1 then 0 else DaysBeforeMonth(y, m - 1) + DaysInMonth(y, m - 1)
  }

  /** `date.toordinal()`: 1 January of year 1 is day 1. */
  function DayNumber(d: Date): int
    requires ValidDate(d)
  {
    DaysBeforeYear(d.year) + DaysBeforeMonth(d.year, d.month) + d.day
  }

  /** The calendar day after `d`. */
  function NextDay(d: Date): (r: Date)
    requires ValidDate(d)
    ensures d.year < 9999 || d.month < 12 || d.day < 31 ==> ValidDate(r)
  {
    if d.day < DaysInMonth(d.year, d.month) then Date(d.year, d.month, d.day + 1)
    else if d.month < 12 then Date(d.year, d.month + 1, 1)
    else Date(d.year + 1, 1, 1)
  }

  lemma YearLength(y: int)
    requires 1 <= y
    ensures DaysBeforeMonth(y, 13) == if IsLeap(y) then 366 else 365
  {
    var feb := DaysInMonth(y, 2);
    assert DaysBeforeMonth(y, 2) == 31;
    assert DaysBeforeMonth(y, 3) == 31 + feb;
    assert DaysBeforeMonth(y, 4) == 62 + feb;
    assert DaysBeforeMonth(y, 5) == 92 + feb;
    assert DaysBeforeMonth(y, 6) == 123 + feb;
    assert DaysBeforeMonth(y, 7) == 153 + feb;
    assert DaysBeforeMonth(y, 8) == 184 + feb;
    assert DaysBeforeMonth(y, 9) == 215 + feb;
    assert DaysBeforeMonth(y, 10) == 245 + feb;
    assert DaysBeforeMonth(y, 11) == 276 + feb;
    assert DaysBeforeMonth(y, 12) == 306 + feb;
  }

  lemma YearStep(y: int)
    requires 1 <= y
    ensures DaysBeforeYear(y + 1) - DaysBeforeYear(y) == if IsLeap(y) then 366 else 365
  {
    var n := y - 1;
    assert (n + 1) / 4 - n / 4 == if y % 4 == 0 then 1 else 0;
    assert (n + 1) / 100 - n / 100 == if y % 100 == 0 then 1 else 0;
    assert (n + 1) / 400 - n / 400 == if y % 400 == 0 then 1 else 0;
  }

  /** Day numbers count days: the next calendar day has the next day number. */
  lemma NextDayNumber(d: Date)
    requires ValidDate(d) && ValidDate(NextDay(d))
    ensures DayNumber(NextDay(d)) == DayNumber(d) + 1
  {
    if d.day == DaysInMonth(d.year, d.month) && d.month == 12 {
      YearStep(d.year);
      YearLength(d.year);
    }
  }

  /** Two digits of `n`, zero-padded, as `%m` and `%d` print them. */
  function Pad2(n: int): (s: string)
    requires 0 <= n < 100
    ensures |s| == 2 && IsDigit(s[0]) && IsDigit(s[1])
    ensures DigitValue(s[0]) * 10 + DigitValue(s[1]) == n
  {
    [DigitChar(n / 10), DigitChar(n % 10)]
  }

  /** Four digits of `n`, zero-padded, as `%Y` prints a year from 1000 on. */
  function Pad4(n: int): (s: string)
    requires 0 <= n < 10000
    ensures |s| == 4 && AllDigits(s) && DigitsValue(s) == n
  {
    var a, b, c, e := n / 1000, n / 100 % 10, n / 10 % 10, n % 10;
    var s := [DigitChar(a), DigitChar(b), DigitChar(c), DigitChar(e)];
    FourDigits(s);
    assert n / 10 == (n / 100) * 10 + c;
    assert n / 100 == a * 10 + b;
    s
  }

  /** The value of four digits, written out. */
  lemma FourDigits(s: string)
    requires |s| == 4 && AllDigits(s)
    ensures DigitsValue(s) == ((DigitValue(s[0]) * 10 + DigitValue(s[1])) * 10 + DigitValue(s[2])) * 10 + DigitValue(s[3])
  {
    assert s[..3][..2][..1] == [s[0]] && s[..3][..2] == s[..2];
    assert DigitsValue(s[..1]) == DigitValue(s[0]);
    assert DigitsValue(s[..2]) == DigitValue(s[0]) * 10 + DigitValue(s[1]);
  }

  /** `date.strftime("%Y-%m-%d")`. */
  function Format(d: Date): (s: string)
    requires ValidDate(d)
    ensures |s| == 10 && s[4] == '-' && s[7] == '-'
  {
    Pad4(d.year) + "-" + Pad2(d.month) + "-" + Pad2(d.day)
  }

  /** The value of one or two digits, written out. */
  lemma ShortDigits(f: string)
    ensures |f| == 1 && AllDigits(f) ==> DigitsValue(f) == DigitValue(f[0])
    ensures |f| == 2 && AllDigits(f) ==> DigitsValue(f) == DigitValue(f[0]) * 10 + DigitValue(f[1])
  {
    if |f| == 2 && AllDigits(f) {
      assert f[..1][..0] == [];
    }
  }

  /**
    The `%m` directive of `strptime`: `1[0-2]|0[1-9]|[1-9]`, that is one or two
    digits, possibly zero-padded, whose value is a month.
  */
  function MonthField(f: string): (r: Option<int>)
    ensures r.Some? <==> 1 <= |f| <= 2 && AllDigits(f) && 1 <= DigitsValue(f) <= 12
    ensures r.Some? ==> r.value == DigitsValue(f)
  {
    ShortDigits(f);
    if |f| == 2 && f[0] == '1' && '0' <= f[1] <= '2' then Some(10 + DigitValue(f[1]))
    else if |f| == 2 && f[0] == '0' && '1' <= f[1] <= '9' then Some(DigitValue(f[1]))
    else if |f| == 1 && '1' <= f[0] <= '9' then Some(DigitValue(f[0]))
    else None
  }

  /**
    The `%d` directive of `strptime`: `3[01]|[12]\d|0[1-9]|[1-9]| [1-9]`, that
    is one or two digits, possibly zero-padded, whose value is a day of a month,
    or a blank followed by one non-zero digit.
  */
  function DayField(f: string): (r: Option<int>)
    ensures r.Some? <==> (1 <= |f| <= 2 && AllDigits(f) && 1 <= DigitsValue(f) <= 31)
                         || (|f| == 2 && f[0] == ' ' && '1' <= f[1] <= '9')
    ensures r.Some? ==> r.value == if f[0] == ' ' then DigitValue(f[1]) else DigitsValue(f)
  {
    ShortDigits(f);
    if |f| == 2 && f[0] == '3' && '0' <= f[1] <= '1' then Some(30 + DigitValue(f[1]))
    else if |f| == 2 && '1' <= f[0] <= '2' && IsDigit(f[1]) then Some(DigitValue(f[0]) * 10 + DigitValue(f[1]))
    else if |f| == 2 && (f[0] == '0' || f[0] == ' ') && '1' <= f[1] <= '9' then Some(DigitValue(f[1]))
    else if |f| == 1 && '1' <= f[0] <= '9' then Some(DigitValue(f[0]))
    else None
  }

  /**
    `datetime.strptime(s, "%Y-%m-%d")`: `None` where Python raises `ValueError`.
    The year is exactly four digits, the month field ends at the first `-` after
    it, the day field runs to the end of the string, and the three must form a
    valid date.
  */
  function ParseIso(s: string): (r: Option<Date>)
    ensures r.Some? ==> ValidDate(r.value)
  {
    if |s| < 8 || !AllDigits(s[..4]) || s[4] != '-' then None
    else
      var rest := s[5..];
      var k := if rest[1] == '-' then 1 else 2;
      if rest[k] != '-' then None
      else
        match (MonthField(rest[..k]), DayField(rest[k + 1..]))
        case (Some(m), Some(dd)) =>
          var d := Date(DigitsValue(s[..4]), m, dd);
          if ValidDate(d) then Some(d) else None
        case _ => None
  }

  /**
    The three fields, however each is written, read back as the date they
    denote: `strptime` takes the year's four digits, then any month field and
    any day field its directives accept.
  */
  lemma ParseFields(d: Date, month: string, day: string)
    requires ValidDate(d)
    requires MonthField(month) == Some(d.month) && DayField(day) == Some(d.day)
    ensures ParseIso(Pad4(d.year) + "-" + month + "-" + day) == Some(d)
  {
    var s := Pad4(d.year) + "-" + month + "-" + day;
    assert s[..4] == Pad4(d.year);
    var rest := s[5..];
    assert rest == month + "-" + day;
    assert rest[..|month|] == month;
    assert rest[|month| + 1..] == day;
  }

  /**
    Conversely, `strptime` accepts only such spellings: four digits for the
    year, "-", an accepted month field, "-", an accepted day field, and it
    returns the date they denote.
  */
  lemma ParseIsoFields(s: string)
    ensures ParseIso(s).Some? ==>
              var d := ParseIso(s).value;
              |s| >= 4 && AllDigits(s[..4]) && DigitsValue(s[..4]) == d.year
              && exists month, day :: s == s[..4] + "-" + month + "-" + day
                                      && MonthField(month) == Some(d.month) && DayField(day) == Some(d.day)
  {
    if ParseIso(s).Some? {
      var rest := s[5..];
      var k := if rest[1] == '-' then 1 else 2;
      assert s == s[..4] + "-" + rest[..k] + "-" + rest[k + 1..];
    }
  }

  /** `str` of a month or a day is a field `strptime` accepts, with that value. */
  lemma UnpaddedFields(d: Date)
    requires ValidDate(d)
    ensures MonthField(NatString(d.month)) == Some(d.month)
    ensures DayField(NatString(d.day)) == Some(d.day)
  {
    NatStringValue(d.month);
    NatStringValue(d.day);
  }

  /** A blank and the digit of a day below 10 form a field `strptime` accepts, with that value. */
  lemma BlankPaddedDay(d: Date)
    requires ValidDate(d) && d.day < 10
    ensures DayField(" " + NatString(d.day)) == Some(d.day)
    ensures MonthField(Pad2(d.month)) == Some(d.month)
  {
    ShortDigits(Pad2(d.month));
  }

  /**
    `strptime` also accepts unpadded fields, as `str` prints them ("2024-1-5"),
    and a day below 10 written after a blank ("2024-01- 5").
  */
  lemma ParseUnpadded(d: Date)
    requires ValidDate(d)
    ensures ParseIso(Pad4(d.year) + "-" + NatString(d.month) + "-" + NatString(d.day)) == Some(d)
    ensures d.day < 10 ==> ParseIso(Pad4(d.year) + "-" + Pad2(d.month) + "- " + NatString(d.day)) == Some(d)
  {
    UnpaddedFields(d);
    ParseFields(d, NatString(d.month), NatString(d.day));
    if d.day < 10 {
      BlankPaddedDay(d);
      ParseFields(d, Pad2(d.month), " " + NatString(d.day));
      assert Pad4(d.year) + "-" + Pad2(d.month) + "- " + NatString(d.day)
          == Pad4(d.year) + "-" + Pad2(d.month) + "-" + (" " + NatString(d.day));
    }
  }

  /** Every printed date is read back as itself. */
  lemma ParseFormat(d: Date)
    requires ValidDate(d)
    ensures ParseIso(Format(d)) == Some(d)
  {
    ShortDigits(Pad2(d.month));
    ShortDigits(Pad2(d.day));
    ParseFields(d, Pad2(d.month), Pad2(d.day));
  }
}
