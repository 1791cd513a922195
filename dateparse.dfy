/** `_datetime_parser` (single.py:24-39) over a strict digit grammar, and the integer
    second timestamps that the rest of the model uses for Python datetimes. */
module DateParse {
  import opened Wrappers
  import opened Text

  /** A naive Python datetime: the fields of `datetime(year, month, day, hour, minute, second)`. */
  datatype DateTime = DateTime(year: int, month: int, day: int, hour: int, minute: int, second: int)

  predicate IsLeapYear(y: int) {
    y % 4 == 0 && (y % 100 != 0 || y % 400 == 0)
  }

  function DaysInMonth(y: int, m: int): int
    requires 1 <= m <= 12
  {
    if m == 2 then (if IsLeapYear(y) then 29 else 28)
    else if m == 4 || m == 6 || m == 9 || m == 11 then 30
    else 31
  }

  /** What the datetime constructor accepts; anything else raises ValueError. */
  predicate Valid(d: DateTime) {
    1 <= d.year <= 9999 && 1 <= d.month <= 12 && 1 <= d.day <= DaysInMonth(d.year, d.month) &&
    0 <= d.hour < 24 && 0 <= d.minute < 60 && 0 <= d.second < 60
  }

  /** The value of the digit field s[i..j], or None when it holds a non-digit. */
  function Field(s: string, i: nat, j: nat): Option<int>
    requires i <= j <= |s|
  {
    if AllDigits(s[i..j]) then Some(DigitsValue(s[i..j])) else None
  }

  function Checked(d: DateTime): (r: Option<DateTime>)
    ensures r.Some? <==> Valid(d)
    ensures r.Some? ==> r.value == d
  {
    if Valid(d) then Some(d) else None
  }

  /** `strptime(s, "%d-%m-%Y %H:%M:%S")` with two-digit fields and a four-digit year. */
  function ParseDmyHms(s: string): Option<DateTime> {
    if |s| != 19 || s[2] != '-' || s[5] != '-' || s[10] != ' ' || s[13] != ':' || s[16] != ':' then None
    else match (Field(s, 0, 2), Field(s, 3, 5), Field(s, 6, 10), Field(s, 11, 13), Field(s, 14, 16), Field(s, 17, 19))
      case (Some(d), Some(m), Some(y), Some(h), Some(mi), Some(se)) => Checked(DateTime(y, m, d, h, mi, se))
      case _ => None
  }

  /** Text of the shape `dd-mm-YYYY HH:MM:SS` with digit fields parses in the first
      format exactly when the fields name a valid date and time, and then to that date;
      otherwise the ValueError falls through the other two formats and the result is
      None. */
  lemma ParseDmyHmsFields(s: string)
    requires |s| == 19 && s[2] == '-' && s[5] == '-' && s[10] == ' ' && s[13] == ':' && s[16] == ':'
    requires AllDigits(s[0..2]) && AllDigits(s[3..5]) && AllDigits(s[6..10])
    requires AllDigits(s[11..13]) && AllDigits(s[14..16]) && AllDigits(s[17..19])
    ensures var d := DateTime(DigitsValue(s[6..10]), DigitsValue(s[3..5]), DigitsValue(s[0..2]),
                              DigitsValue(s[11..13]), DigitsValue(s[14..16]), DigitsValue(s[17..19]));
      (ParseDateTime(s).Some? <==> Valid(d)) && (ParseDateTime(s).Some? ==> ParseDateTime(s).value == d)
  {
  }

  /** `strptime(s, "%d-%m-%Y %H:%M")`: seconds are zero. */
  function ParseDmyHm(s: string): Option<DateTime> {
    if |s| != 16 || s[2] != '-' || s[5] != '-' || s[10] != ' ' || s[13] != ':' then None
    else match (Field(s, 0, 2), Field(s, 3, 5), Field(s, 6, 10), Field(s, 11, 13), Field(s, 14, 16))
      case (Some(d), Some(m), Some(y), Some(h), Some(mi)) => Checked(DateTime(y, m, d, h, mi, 0))
      case _ => None
  }

  /** `strptime(s, "%Y-%m-%d")`: midnight of that day. */
  function ParseYmd(s: string): Option<DateTime> {
    if |s| != 10 || s[4] != '-' || s[7] != '-' then None
    else match (Field(s, 0, 4), Field(s, 5, 7), Field(s, 8, 10))
      case (Some(y), Some(m), Some(d)) => Checked(DateTime(y, m, d, 0, 0, 0))
      case _ => None
  }

  /** `_datetime_parser`: None for the empty string, otherwise the first of the three
      formats that matches, otherwise None. */
  function ParseDateTime(s: string): (r: Option<DateTime>)
    ensures s == "" ==> r == None
    ensures r.Some? ==> Valid(r.value)
    ensures ParseDmyHms(s).Some? ==> r == ParseDmyHms(s)
    ensures ParseDmyHms(s).None? && ParseDmyHm(s).Some? ==> r == ParseDmyHm(s)
    ensures r.Some? <==> ParseDmyHms(s).Some? || ParseDmyHm(s).Some? || ParseYmd(s).Some?
  {
    if s == "" then None
    else if ParseDmyHms(s).Some? then ParseDmyHms(s)
    else if ParseDmyHm(s).Some? then ParseDmyHm(s)
    else ParseYmd(s)
  }

  // ---------------------------------------------------------------------------
  // Rendering, the inverse of the three formats

  function Pad2(n: nat): (r: string)
    requires n < 100
    ensures |r| == 2 && AllDigits(r) && DigitsValue(r) == n
  {
    var r := [DigitChar(n / 10), DigitChar(n % 10)];
    assert r[..1] == [DigitChar(n / 10)] && r[..1][..0] == [];
    assert DigitsValue(r[..1]) == n / 10;
    r
  }

  function Pad4(n: nat): (r: string)
    requires n < 10000
    ensures |r| == 4 && AllDigits(r) && DigitsValue(r) == n
  {
    var hi := Pad2(n / 100);
    var lo := Pad2(n % 100);
    var r := hi + lo;
    assert r[..3] == hi + [lo[0]];
    assert r[..3][..2] == hi;
    assert lo[..1] == [lo[0]];
    r
  }

  function FormatDmyHms(d: DateTime): string
    requires Valid(d)
  {
    Pad2(d.day) + "-" + Pad2(d.month) + "-" + Pad4(d.year) + " " +
    Pad2(d.hour) + ":" + Pad2(d.minute) + ":" + Pad2(d.second)
  }

  function FormatDmyHm(d: DateTime): string
    requires Valid(d)
  {
    Pad2(d.day) + "-" + Pad2(d.month) + "-" + Pad4(d.year) + " " + Pad2(d.hour) + ":" + Pad2(d.minute)
  }

  function FormatYmd(d: DateTime): string
    requires Valid(d)
  {
    Pad4(d.year) + "-" + Pad2(d.month) + "-" + Pad2(d.day)
  }

  /** A full "dd-mm-YYYY HH:MM:SS" rendering parses back to the same datetime. */
  lemma ParseFormatDmyHms(d: DateTime)
    requires Valid(d)
    ensures ParseDateTime(FormatDmyHms(d)) == Some(d)
  {
    var s := FormatDmyHms(d);
    assert s[0..2] == Pad2(d.day);
    assert s[3..5] == Pad2(d.month);
    assert s[6..10] == Pad4(d.year);
    assert s[11..13] == Pad2(d.hour);
    assert s[14..16] == Pad2(d.minute);
    assert s[17..19] == Pad2(d.second);
  }

  /** A "dd-mm-YYYY HH:MM" rendering fails the first format and parses with the second,
      to the same datetime with zero seconds. */
  lemma ParseFormatDmyHm(d: DateTime)
    requires Valid(d)
    ensures ParseDateTime(FormatDmyHm(d)) == Some(d.(second := 0))
  {
    var s := FormatDmyHm(d);
    assert s[0..2] == Pad2(d.day);
    assert s[3..5] == Pad2(d.month);
    assert s[6..10] == Pad4(d.year);
    assert s[11..13] == Pad2(d.hour);
    assert s[14..16] == Pad2(d.minute);
  }

  /** A "YYYY-mm-dd" rendering parses to midnight of that day. */
  lemma ParseFormatYmd(d: DateTime)
    requires Valid(d)
    ensures ParseDateTime(FormatYmd(d)) == Some(DateTime(d.year, d.month, d.day, 0, 0, 0))
  {
    var s := FormatYmd(d);
    assert s[0..4] == Pad4(d.year);
    assert s[5..7] == Pad2(d.month);
    assert s[8..10] == Pad2(d.day);
  }

  // ---------------------------------------------------------------------------
  // Timestamps: integer seconds, the epoch is 0, `.date()` is the day number

  function DaysInYear(y: int): int { if IsLeapYear(y) then 366 else 365 }

  /** Days from 0001-01-01 to January 1st of year y. */
  function DaysBeforeYear(y: int): int
    requires y >= 1
    decreases y
  {
    if y == 1 then 0 else DaysBeforeYear(y - 1) + DaysInYear(y - 1)
  }

  /** Days from January 1st to the first day of month m. */
  function DaysBeforeMonth(y: int, m: int): (r: int)
    requires 1 <= m <= 12
    ensures r >= 0
    decreases m
  {
    if m == 1 then 0 else DaysBeforeMonth(y, m - 1) + DaysInMonth(y, m - 1)
  }

  /** The proleptic Gregorian day number of the date part (0001-01-01 is day 0). */
  function DayNumber(d: DateTime): int
    requires Valid(d)
  {
    DaysBeforeYear(d.year) + DaysBeforeMonth(d.year, d.month) + d.day - 1
  }

  const EpochDay: int := DaysBeforeYear(1970)
  const SecondsPerDay: int := 86400

  /** A datetime as seconds since 1970-01-01 00:00:00, timezone-naive. */
  function ToSeconds(d: DateTime): int
    requires Valid(d)
  {
    (DayNumber(d) - EpochDay) * SecondsPerDay + d.hour * 3600 + d.minute * 60 + d.second
  }

  /** `.date()` of a timestamp, as its day number relative to the epoch. */
  function DateOf(t: int): int { t / SecondsPerDay }

  /** The day of a datetime's timestamp is its calendar date: time of day is dropped. */
  lemma DateOfToSeconds(d: DateTime)
    requires Valid(d)
    ensures DateOf(ToSeconds(d)) == DayNumber(d) - EpochDay
  {
    var tod := d.hour * 3600 + d.minute * 60 + d.second;
    assert 0 <= tod < SecondsPerDay;
    var q := DayNumber(d) - EpochDay;
    assert ToSeconds(d) == q * SecondsPerDay + tod;
  }

  lemma {:induction false} DaysBeforeMonthBound(y: int, m: int)
    requires 1 <= m <= 12
    ensures DaysBeforeMonth(y, m) + DaysInMonth(y, m) <= DaysInYear(y)
    ensures m < 12 ==> DaysBeforeMonth(y, m + 1) == DaysBeforeMonth(y, m) + DaysInMonth(y, m)
    decreases 12 - m
  {
    if m < 12 {
      DaysBeforeMonthBound(y, m + 1);
    } else {
      var k := 1;
      while k < 12
        invariant 1 <= k <= 12
        invariant DaysBeforeMonth(y, k) == [0, 31, 59, 90, 120, 151, 181, 212, 243, 273, 304, 334][k - 1] +
                                          (if k > 2 && IsLeapYear(y) then 1 else 0)
      {
        k := k + 1;
      }
    }
  }

  lemma {:induction false} DaysBeforeMonthMonotone(y: int, m1: int, m2: int)
    requires 1 <= m1 < m2 <= 12
    ensures DaysBeforeMonth(y, m1) + DaysInMonth(y, m1) <= DaysBeforeMonth(y, m2)
    decreases m2 - m1
  {
    DaysBeforeMonthBound(y, m1);
    if m1 + 1 < m2 {
      DaysBeforeMonthMonotone(y, m1 + 1, m2);
    }
  }

  lemma {:induction false} DaysBeforeYearMonotone(y1: int, y2: int)
    requires 1 <= y1 < y2
    ensures DaysBeforeYear(y1) + DaysInYear(y1) <= DaysBeforeYear(y2)
    decreases y2 - y1
  {
    if y1 + 1 < y2 {
      DaysBeforeYearMonotone(y1 + 1, y2);
    }
  }

  /** Calendar dates compared field by field (`date < date` in Python). */
  predicate DateBefore(a: DateTime, b: DateTime) {
    a.year < b.year || (a.year == b.year && (a.month < b.month || (a.month == b.month && a.day < b.day)))
  }

  /** Day numbers order dates as Python compares `.date()` values, which justifies
      comparing `DateOf` of timestamps in place of comparing dates. */
  lemma DayNumberOrdersDates(a: DateTime, b: DateTime)
    requires Valid(a) && Valid(b)
    ensures DateBefore(a, b) <==> DayNumber(a) < DayNumber(b)
  {
    if DateBefore(a, b) {
      DayNumberStrict(a, b);
    } else if DateBefore(b, a) {
      DayNumberStrict(b, a);
    }
  }

  lemma DayNumberStrict(a: DateTime, b: DateTime)
    requires Valid(a) && Valid(b) && DateBefore(a, b)
    ensures DayNumber(a) < DayNumber(b)
  {
    DaysBeforeMonthBound(a.year, a.month);
    if a.year < b.year {
      DaysBeforeYearMonotone(a.year, b.year);
    } else if a.month < b.month {
      DaysBeforeMonthMonotone(a.year, a.month, b.month);
    }
  }
}
