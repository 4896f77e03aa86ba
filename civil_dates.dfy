/** Proleptic Gregorian calendar dates, the ISO `YYYY-MM-DD` text form that
    `new Date(...)` reads and `toISOString()` writes, and the day after a date. */
module CivilDates {
  import opened Wrappers
  import opened TextOps

  datatype CivilDate = CivilDate(year: int, month: int, day: int)

  predicate IsLeapYear(y: int) {
    y % 4 == 0 && (y % 100 != 0 || y % 400 == 0)
  }

  function DaysInMonth(y: int, m: int): (n: int)
    requires 1 <= m <= 12
    ensures 28 <= n <= 31
  {
    if m == 2 then (if IsLeapYear(y) then 29 else 28)
    else if m == 4 || m == 6 || m == 9 || m == 11 then 30
    else 31
  }

  function DaysInYear(y: int): int {
    if IsLeapYear(y) then 366 else 365
  }

  predicate Valid(d: CivilDate) {
    1 <= d.month <= 12 && 1 <= d.day <= DaysInMonth(d.year, d.month)
  }

  /** The calendar day after `d`: the day number grows by one (NextDayIsSuccessor). */
  function NextDay(d: CivilDate): (r: CivilDate)
    requires Valid(d)
    ensures Valid(r)
    ensures r.year == d.year || (r.year == d.year + 1 && r.month == 1 && r.day == 1)
  {
    if d.day < DaysInMonth(d.year, d.month) then CivilDate(d.year, d.month, d.day + 1)
    else if d.month < 12 then CivilDate(d.year, d.month + 1, 1)
    else CivilDate(d.year + 1, 1, 1)
  }

  // ---------------------------------------------------------------------
  // Day numbers: an independent count of days since 0000-01-01.

  /** Days in the years 0 .. y-1. */
  function DaysBeforeYear(y: nat): nat {
    if y == 0 then 0 else DaysBeforeYear(y - 1) + DaysInYear(y - 1)
  }

  /** Days in the months 1 .. m-1 of year y. */
  function DaysBeforeMonth(y: int, m: int): nat
    requires 1 <= m <= 13
  {
    if m == 1 then 0 else DaysBeforeMonth(y, m - 1) + DaysInMonth(y, m - 1)
  }

  lemma WholeYear(y: int)
    ensures DaysBeforeMonth(y, 13) == DaysInYear(y)
  {
    var feb := DaysInMonth(y, 2);
    assert DaysBeforeMonth(y, 2) == 31;
    assert DaysBeforeMonth(y, 3) == 31 + feb;
    assert DaysBeforeMonth(y, 4) == 62 + feb;
    assert DaysBeforeMonth(y, 5) == 92 + feb;
    assert DaysBeforeMonth(y, 6) == 123 + feb;
    assert DaysBeforeMonth(y, 7) == 153 + feb;
    assert DaysBeforeMonth(y, 8) == 184 + feb;
    assert DaysBeforeMonth(y, 9) == 215 + feb;
    assert DaysBeforeMonth(y, 10) == 245 + feb;
    assert DaysBeforeMonth(y, 11) == 276 + feb;
    assert DaysBeforeMonth(y, 12) == 306 + feb;
    assert DaysBeforeMonth(y, 13) == 337 + feb;
  }

  function DayNumber(d: CivilDate): nat
    requires Valid(d) && d.year >= 0
  {
    DaysBeforeYear(d.year) + DaysBeforeMonth(d.year, d.month) + d.day - 1
  }

  /** NextDay really is the successor: it is one day later, crossing month
      and year ends (leap years included). */
  lemma NextDayIsSuccessor(d: CivilDate)
    requires Valid(d) && d.year >= 0
    ensures DayNumber(NextDay(d)) == DayNumber(d) + 1
  {
    if d.day == DaysInMonth(d.year, d.month) && d.month == 12 {
      WholeYear(d.year);
      assert DaysBeforeYear(d.year + 1) == DaysBeforeYear(d.year) + DaysInYear(d.year);
    }
  }

  /** Distinct valid dates have distinct day numbers, so DayNumber is a faithful reference. */
  lemma {:induction false} DayNumberInjective(a: CivilDate, b: CivilDate)
    requires Valid(a) && Valid(b) && a.year >= 0 && b.year >= 0
    requires DayNumber(a) == DayNumber(b)
    ensures a == b
  {
    if a.year < b.year {
      YearStartsAfter(a.year, b.year);
      MonthsBeforeFit(a.year, a.month);
      assert false;
    } else if b.year < a.year {
      YearStartsAfter(b.year, a.year);
      MonthsBeforeFit(b.year, b.month);
      assert false;
    } else if a.month < b.month {
      MonthStartsAfter(a.year, a.month, b.month);
      assert false;
    } else if b.month < a.month {
      MonthStartsAfter(a.year, b.month, a.month);
      assert false;
    }
  }

  lemma {:induction false} MonthsBeforeFit(y: int, m: int)
    requires 1 <= m <= 12
    ensures DaysBeforeMonth(y, m) + DaysInMonth(y, m) <= DaysInYear(y)
  {
    MonthStartsAfter(y, m + 1, 13);
    WholeYear(y);
  }

  lemma {:induction false} MonthStartsAfter(y: int, m: int, n: int)
    requires 1 <= m <= n <= 13
    ensures m < n ==> DaysBeforeMonth(y, m) + DaysInMonth(y, m) <= DaysBeforeMonth(y, n)
  {
    if m < n {
      MonthStartsAfter(y, m, n - 1);
    }
  }

  lemma {:induction false} YearStartsAfter(y: nat, z: nat)
    requires y < z
    ensures DaysBeforeYear(y) + DaysInYear(y) <= DaysBeforeYear(z)
  {
    if y + 1 < z {
      YearStartsAfter(y, z - 1);
    }
  }

  // ---------------------------------------------------------------------
  // ISO text

  /** `YYYY-MM-DD` shape: digits with hyphens at positions 4 and 7. */
  predicate IsIsoDateText(s: string) {
    |s| == 10 && s[4] == '-' && s[7] == '-'
    && AllDigits(s[..4]) && AllDigits(s[5..7]) && AllDigits(s[8..])
  }

  /** `new Date(s)` for the date-only ISO form: the date it denotes, or None
      for an Invalid Date. */
  function ParseIsoDate(s: string): (r: Option<CivilDate>)
    ensures r.Some? ==> Valid(r.value) && 0 <= r.value.year <= 9999
  {
    if IsIsoDateText(s) then
      var d := CivilDate(DigitsValue(s[..4]), DigitsValue(s[5..7]), DigitsValue(s[8..]));
      ValueBelow(s[..4]);
      assert Pow10(4) == 10000;
      if 1 <= d.month <= 12 && 1 <= d.day <= DaysInMonth(d.year, d.month) then Some(d) else None
    else None
  }

  function Pad(n: nat, width: nat): string {
    PadStart(DecimalString(n), width, '0')
  }

  /** The date part of `toISOString()`: four-digit years, and the six-digit
      signed form `+YYYYYY` beyond 9999. */
  function FormatIsoDate(d: CivilDate): string
    requires Valid(d) && d.year >= 0
  {
    (if d.year <= 9999 then Pad(d.year, 4) else "+" + Pad(d.year, 6))
      + "-" + Pad(d.month as nat, 2) + "-" + Pad(d.day as nat, 2)
  }

  lemma {:induction false} DigitsOfPadded(n: nat, width: nat)
    requires 1 <= width <= 4 && n < Pow10(width)
    ensures |Pad(n, width)| == width && AllDigits(Pad(n, width))
    ensures DigitsValue(Pad(n, width)) == n
  {
    DecimalStringBounds(n, width);
    var s := DecimalString(n);
    var p := Pad(n, width);
    DecimalRoundTrip(n);
    LeadingZeros(width - |s|, s);
  }

  lemma {:induction false} DecimalStringBounds(n: nat, width: nat)
    requires n < Pow10(width)
    ensures |DecimalString(n)| <= width || (n < 10 && width == 0)
  {
    if n >= 10 {
      assert width >= 1;
      DecimalStringBounds(n / 10, width - 1);
    }
  }

  lemma {:induction false} DecimalRoundTrip(n: nat)
    ensures DigitsValue(DecimalString(n)) == n
  {
    if n >= 10 {
      DecimalRoundTrip(n / 10);
      var s := DecimalString(n);
      assert s[..|s| - 1] == DecimalString(n / 10);
    }
  }

  lemma {:induction false} LeadingZeros(k: nat, s: string)
    requires AllDigits(s)
    ensures AllDigits(seq(k, _ => '0') + s)
    ensures DigitsValue(seq(k, _ => '0') + s) == DigitsValue(s)
  {
    if k > 0 {
      LeadingZeros(k - 1, s);
      assert seq(k, _ => '0') == ['0'] + seq(k - 1, _ => '0');
      assert seq(k, _ => '0') + s == ['0'] + (seq(k - 1, _ => '0') + s);
      LeadingZero(seq(k - 1, _ => '0') + s);
    } else {
      assert seq(k, _ => '0') + s == s;
    }
  }

  lemma {:induction false} LeadingZero(s: string)
    requires AllDigits(s)
    ensures DigitsValue(['0'] + s) == DigitsValue(s)
  {
    if s != [] {
      assert (['0'] + s)[..|s|] == ['0'] + s[..|s| - 1];
      LeadingZero(s[..|s| - 1]);
    }
  }

  /** Reading back what toISOString writes gives the same date. */
  lemma FormatParseRoundTrip(d: CivilDate)
    requires Valid(d) && 0 <= d.year <= 9999
    ensures ParseIsoDate(FormatIsoDate(d)) == Some(d)
  {
    var s := FormatIsoDate(d);
    FormattedPieces(d);
    assert DigitsValue(s[..4]) == d.year && DigitsValue(s[5..7]) == d.month && DigitsValue(s[8..]) == d.day;
  }

  /** The text toISOString writes for a four-digit year has the `YYYY-MM-DD`
      shape, and its three numerals are the padded year, month and day. */
  lemma FormattedPieces(d: CivilDate)
    requires Valid(d) && 0 <= d.year <= 9999
    ensures IsIsoDateText(FormatIsoDate(d))
    ensures DigitsValue(FormatIsoDate(d)[..4]) == d.year
    ensures DigitsValue(FormatIsoDate(d)[5..7]) == d.month
    ensures DigitsValue(FormatIsoDate(d)[8..]) == d.day
  {
    var y, m, dd := Pad(d.year, 4), Pad(d.month as nat, 2), Pad(d.day as nat, 2);
    FourDigitYearText(d);
    assert |y| == 4 && AllDigits(y) && DigitsValue(y) == d.year by {
      DigitsOfPadded(d.year, 4);
    }
    assert |m| == 2 && AllDigits(m) && DigitsValue(m) == d.month by {
      DigitsOfPadded(d.month, 2);
    }
    assert |dd| == 2 && AllDigits(dd) && DigitsValue(dd) == d.day by {
      DigitsOfPadded(d.day, 2);
    }
    IsoFields(y, m, dd);
  }

  lemma FourDigitYearText(d: CivilDate)
    requires Valid(d) && 0 <= d.year <= 9999
    ensures FormatIsoDate(d) == Pad(d.year, 4) + "-" + Pad(d.month as nat, 2) + "-" + Pad(d.day as nat, 2)
  {
  }

  lemma IsoFields(y: string, m: string, d: string)
    requires |y| == 4 && |m| == 2 && |d| == 2
    requires AllDigits(y) && AllDigits(m) && AllDigits(d)
    ensures var s := y + "-" + m + "-" + d;
      IsIsoDateText(s) && s[..4] == y && s[5..7] == m && s[8..] == d
  {
    var s := y + "-" + m + "-" + d;
    assert s[..4] == y;
    assert s[5..7] == m;
    assert s[8..] == d;
  }

  /** Conversely, a text that parses is already in the canonical form. */
  lemma ParseFormatRoundTrip(s: string)
    requires ParseIsoDate(s).Some?
    ensures FormatIsoDate(ParseIsoDate(s).value) == s
  {
    var d := ParseIsoDate(s).value;
    var ys, ms, ds := s[..4], s[5..7], s[8..];
    assert d == CivilDate(DigitsValue(ys), DigitsValue(ms), DigitsValue(ds));
    CanonicalDigits(ys);
    CanonicalDigits(ms);
    CanonicalDigits(ds);
    assert Pad(d.year, 4) == ys;
    assert Pad(d.month, 2) == ms;
    assert Pad(d.day, 2) == ds;
    assert FormatIsoDate(d) == ys + "-" + ms + "-" + ds;
    IsoTextPieces(s);
  }

  lemma IsoTextPieces(s: string)
    requires IsIsoDateText(s)
    ensures s == s[..4] + "-" + s[5..7] + "-" + s[8..]
  {
    assert s[..4] + "-" + s[5..7] + "-" + s[8..] == s[..4] + s[4..5] + s[5..7] + s[7..8] + s[8..];
  }

  /** A fixed-width digit string is the zero-padded form of its value. */
  lemma {:induction false} CanonicalDigits(s: string)
    requires 1 <= |s| <= 4 && AllDigits(s)
    ensures DigitsValue(s) < Pow10(|s|)
    ensures Pad(DigitsValue(s), |s|) == s
  {
    ValueBelow(s);
    DigitsOfPadded(DigitsValue(s), |s|);
    DigitsInjective(Pad(DigitsValue(s), |s|), s);
  }

  lemma {:induction false} ValueBelow(s: string)
    requires AllDigits(s)
    ensures DigitsValue(s) < Pow10(|s|)
  {
    if s != [] {
      ValueBelow(s[..|s| - 1]);
    }
  }

  lemma TensAndUnits(p: nat, x: nat, q: nat, y: nat)
    requires x < 10 && y < 10 && p * 10 + x == q * 10 + y
    ensures p == q && x == y
  {
    assert p == (p * 10 + x) / 10;
    assert q == (q * 10 + y) / 10;
  }

  lemma {:induction false} DigitsInjective(a: string, b: string)
    requires AllDigits(a) && AllDigits(b) && |a| == |b|
    requires DigitsValue(a) == DigitsValue(b)
    ensures a == b
  {
    if a != [] {
      var n := |a| - 1;
      var a', b' := a[..n], b[..n];
      var x, y := DigitValue(a[n]), DigitValue(b[n]);
      assert DigitsValue(a) == DigitsValue(a') * 10 + x;
      assert DigitsValue(b) == DigitsValue(b') * 10 + y;
      TensAndUnits(DigitsValue(a'), x, DigitsValue(b'), y);
      DigitsInjective(a', b');
      assert a[n] == b[n];
      assert a == a' + [a[n]] && b == b' + [b[n]];
    }
  }
}
