/** `utils/dates.py`: parsing a Letterboxd export date, and the Sunday-anchored,
    half-open week windows the weekly statistics use. Time is modelled at whole
    seconds of local wall-clock time; the time zone itself is not modelled. */
module Dates {
  import opened Wrappers
  import opened Builtins

  datatype Date = Date(year: int, month: int, day: int)

  /** The error `datetime.strptime` raises. */
  datatype DateError = ValueError

  predicate IsLeap(y: int) {
    y % 4 == 0 && (y % 100 != 0 || y % 400 == 0)
  }

  function DaysInMonth(y: int, m: int): int
    requires 1 <= m <= 12
  {
    if m == 2 then (if IsLeap(y) then 29 else 28)
    else if m == 4 || m == 6 || m == 9 || m == 11 then 30
    else 31
  }

  /** A date `datetime.date` accepts: year 1..9999, month 1..12, day within the month. */
  predicate ValidDate(d: Date) {
    1 <= d.year <= 9999 && 1 <= d.month <= 12 && 1 <= d.day <= DaysInMonth(d.year, d.month)
  }

  /** `date.toordinal()`: 1 January of year 1 is day 1. */
  function Ordinal(d: Date): int
    requires 1 <= d.month <= 12
  {
    var y := d.year - 1;
    y * 365 + y / 4 - y / 100 + y / 400 + DaysBeforeMonth(d.year, d.month) + d.day
  }

  function DaysBeforeMonth(y: int, m: int): int
    requires 1 <= m <= 12
    decreases m
  {
    if m == 1 then 0 else DaysBeforeMonth(y, m - 1) + DaysInMonth(y, m - 1)
  }

  // ---------------------------------------------------------------------------
  // strptime(s, "%Y-%m-%d")

  function Digit(s: string, i: int): int
    requires 0 <= i < |s| && IsDigit(s[i])
  {
    DigitValue(s[i])
  }

  /** `\d` at index `i`: a decimal digit of any script. */
  predicate DigitAt(s: string, i: int) {
    0 <= i < |s| && IsDigit(s[i])
  }

  /** `[1-9]` at index `i`: an ASCII digit other than zero. */
  predicate NonZeroDigitAt(s: string, i: int) {
    0 <= i < |s| && '1' <= s[i] <= '9'
  }

  /** The directive `%m` at index `i`: the alternatives `1[0-2]`, `0[1-9]`, `[1-9]` (ASCII
      digits only), in the order the regular expression tries them; each is a value and the
      index after it. */
  function MonthAlternatives(s: string, i: nat): (alts: seq<(int, nat)>)
    ensures forall k :: 0 <= k < |alts| ==> 1 <= alts[k].0 <= 12 && alts[k].1 <= |s|
  {
    (if i + 1 < |s| && s[i] == '1' && '0' <= s[i + 1] <= '2' then [(10 + Digit(s, i + 1), i + 2)] else [])
    + (if i + 1 < |s| && s[i] == '0' && NonZeroDigitAt(s, i + 1) then [(Digit(s, i + 1), i + 2)] else [])
    + (if NonZeroDigitAt(s, i) then [(Digit(s, i), i + 1)] else [])
  }

  /** The directive `%d` at index `i`: the first of `3[01]`, `[12]\d`, `0[1-9]`, `[1-9]`,
      ` [1-9]` that matches (nothing follows it in the pattern, so there is no backtracking).
      Only the `\d` of the second alternative admits digits of other scripts. */
  function DayAt(s: string, i: nat): (r: Option<(int, nat)>)
    ensures r.Some? ==> 1 <= r.value.0 <= 31 && r.value.1 <= |s|
  {
    if i + 1 < |s| && s[i] == '3' && (s[i + 1] == '0' || s[i + 1] == '1') then Some((30 + Digit(s, i + 1), i + 2))
    else if i + 1 < |s| && (s[i] == '1' || s[i] == '2') && DigitAt(s, i + 1) then Some((10 * Digit(s, i) + Digit(s, i + 1), i + 2))
    else if i + 1 < |s| && s[i] == '0' && NonZeroDigitAt(s, i + 1) then Some((Digit(s, i + 1), i + 2))
    else if NonZeroDigitAt(s, i) then Some((Digit(s, i), i + 1))
    else if i + 1 < |s| && s[i] == ' ' && NonZeroDigitAt(s, i + 1) then Some((Digit(s, i + 1), i + 2))
    else None
  }

  /** The rest of the pattern after `%m`: a '-' and `%d`. */
  function AfterMonth(s: string, i: nat): Option<(int, nat)> {
    if i < |s| && s[i] == '-' then DayAt(s, i + 1) else None
  }

  /** The first month alternative for which the rest of the pattern matches
      (the regular expression backtracks into `%m`). */
  function MonthThenDay(s: string, alts: seq<(int, nat)>): (r: Option<(int, int, nat)>)
    requires forall k :: 0 <= k < |alts| ==> 1 <= alts[k].0 <= 12
    ensures r.Some? ==> 1 <= r.value.0 <= 12 && 1 <= r.value.1 <= 31 && r.value.2 <= |s|
  {
    if |alts| == 0 then None
    else
      match AfterMonth(s, alts[0].1)
      case Some((d, e)) => Some((alts[0].0, d, e))
      case None => MonthThenDay(s, alts[1..])
  }

  /** `datetime.strptime(s, "%Y-%m-%d").date()`: four digits (`%Y` is `\d\d\d\d`, so of
      any script), '-', the month, '-', the day; the match must use up the whole string, and
      the date must exist. */
  function StrptimeYmd(s: string): (r: Result<Date, DateError>)
    ensures r.Success? ==> ValidDate(r.value)
  {
    if !(|s| >= 5 && DigitAt(s, 0) && DigitAt(s, 1) && DigitAt(s, 2) && DigitAt(s, 3) && s[4] == '-') then Failure(ValueError)
    else
      var year := 1000 * Digit(s, 0) + 100 * Digit(s, 1) + 10 * Digit(s, 2) + Digit(s, 3);
      match MonthThenDay(s, MonthAlternatives(s, 5))
      case None => Failure(ValueError)
      case Some((month, day, end)) =>
        if end != |s| then Failure(ValueError)
        else if !ValidDate(Date(year, month, day)) then Failure(ValueError)
        else Success(Date(year, month, day))
  }

  /** `parse_iso_date(s)`: a blank value (None, empty or whitespace) is no date; anything
      else is parsed and a malformed value raises. */
  function ParseIsoDate(s: Option<string>): (r: Result<Option<Date>, DateError>)
    ensures Strip(OrEmpty(s)) == "" <==> r == Success(None)
    ensures r.Success? && r.value.Some? ==> ValidDate(r.value.value)
  {
    var t := Strip(OrEmpty(s));
    if t == "" then Success(None)
    else
      match StrptimeYmd(t)
      case Failure(e) => Failure(e)
      case Success(d) => Success(Some(d))
  }

  // ---------------------------------------------------------------------------
  // Round trip

  function DigitChar(n: int): char
    requires 0 <= n <= 9
  {
    ('0' as int + n) as char
  }

  /** A date written as "YYYY-MM-DD", zero-padded, as Letterboxd exports it. */
  function FormatIso(d: Date): (s: string)
    requires ValidDate(d)
    ensures |s| == 10
  {
    [DigitChar(d.year / 1000), DigitChar(d.year / 100 % 10), DigitChar(d.year / 10 % 10), DigitChar(d.year % 10), '-',
     DigitChar(d.month / 10), DigitChar(d.month % 10), '-',
     DigitChar(d.day / 10), DigitChar(d.day % 10)]
  }

  lemma DigitCharValue(n: int)
    requires 0 <= n <= 9
    ensures IsDigit(DigitChar(n)) && DigitValue(DigitChar(n)) == n
  {
  }

  lemma MonthOfFormat(d: Date)
    requires ValidDate(d)
    ensures var s := FormatIso(d); |MonthAlternatives(s, 5)| > 0 && MonthAlternatives(s, 5)[0] == (d.month, 7)
  {
    var s := FormatIso(d);
    DigitCharValue(d.month / 10);
    DigitCharValue(d.month % 10);
  }

  lemma DayOfFormat(d: Date)
    requires ValidDate(d)
    ensures DayAt(FormatIso(d), 8) == Some((d.day, 10))
  {
    DigitCharValue(d.day / 10);
    DigitCharValue(d.day % 10);
  }

  lemma YearOfFormat(d: Date)
    requires ValidDate(d)
    ensures var s := FormatIso(d);
      DigitAt(s, 0) && DigitAt(s, 1) && DigitAt(s, 2) && DigitAt(s, 3) && s[4] == '-'
      && 1000 * Digit(s, 0) + 100 * Digit(s, 1) + 10 * Digit(s, 2) + Digit(s, 3) == d.year
  {
    DigitCharValue(d.year / 1000);
    DigitCharValue(d.year / 100 % 10);
    DigitCharValue(d.year / 10 % 10);
    DigitCharValue(d.year % 10);
    FourDigits(d.year);
  }

  lemma FourDigits(y: int)
    requires 0 <= y <= 9999
    ensures 1000 * (y / 1000) + 100 * (y / 100 % 10) + 10 * (y / 10 % 10) + y % 10 == y
  {
    var a, b, c := y / 10, y / 100, y / 1000;
    assert y == 10 * a + y % 10;
    assert y == 100 * b + y % 100;
    assert y == 1000 * c + y % 1000;
    assert a == 10 * b + a % 10;
    assert b == 10 * c + b % 10;
  }

  lemma MonthDayOfFormat(d: Date)
    requires ValidDate(d)
    ensures MonthThenDay(FormatIso(d), MonthAlternatives(FormatIso(d), 5)) == Some((d.month, d.day, 10))
  {
    var s := FormatIso(d);
    MonthOfFormat(d);
    DayOfFormat(d);
    assert AfterMonth(s, 7) == Some((d.day, 10));
  }

  lemma StripFormatted(d: Date)
    requires ValidDate(d)
    ensures Strip(FormatIso(d)) == FormatIso(d) && FormatIso(d) != ""
  {
    StripUnchanged(FormatIso(d));
  }

  /** Every real date, written "YYYY-MM-DD" with the year zero-padded, parses back to itself. */
  lemma ParseFormatted(d: Date)
    requires ValidDate(d)
    ensures ParseIsoDate(Some(FormatIso(d))) == Success(Some(d))
  {
    YearOfFormat(d);
    MonthDayOfFormat(d);
    var s := FormatIso(d);
    assert StrptimeYmd(FormatIso(d)) == Success(d);
    StripFormatted(d);
  }

  /** A well-formed string naming a day that does not exist raises. */
  lemma NonexistentDateRaises()
    ensures ParseIsoDate(Some("2023-02-30")).Failure?
  {
    var s := "2023-02-30";
    StripUnchanged(s);
    assert MonthAlternatives(s, 5) == [(2, 7)];
    assert DayAt(s, 8) == Some((30, 10));
    assert !ValidDate(Date(2023, 2, 30));
  }

  /** A string that is not a date at all raises; it is not read as "no date". */
  lemma GarbageRaises()
    ensures ParseIsoDate(Some("abc")).Failure?
  {
    StripUnchanged("abc");
  }

  /** The year may be written in another script's digits (`%Y` is `\d\d\d\d`). */
  lemma OtherScriptYear(s: string)
    requires s == "\U{0662}\U{0660}\U{0662}\U{0663}-01-15"
    ensures ParseIsoDate(Some(s)) == Success(Some(Date(2023, 1, 15)))
  {
    assert DecimalZero(s[0]) == 0x660 && DecimalZero(s[1]) == 0x660;
    assert DecimalZero(s[2]) == 0x660 && DecimalZero(s[3]) == 0x660;
    assert Digit(s, 0) == 2 && Digit(s, 1) == 0 && Digit(s, 2) == 2 && Digit(s, 3) == 3;
    assert MonthAlternatives(s, 5) == [(1, 7)];
    assert DayAt(s, 8) == Some((15, 10));
    assert StrptimeYmd(s) == Success(Date(2023, 1, 15));
    StripUnchanged(s);
  }

  /** The month may not: `%m` admits ASCII digits only. */
  lemma OtherScriptMonthRaises(s: string)
    requires s == "\U{0662}\U{0660}\U{0662}\U{0663}-\U{0660}\U{0661}-\U{0661}\U{0665}"
    ensures ParseIsoDate(Some(s)).Failure?
  {
    assert DecimalZero(s[0]) == 0x660 && DecimalZero(s[1]) == 0x660;
    assert DecimalZero(s[2]) == 0x660 && DecimalZero(s[3]) == 0x660;
    assert MonthAlternatives(s, 5) == [];
    assert StrptimeYmd(s).Failure?;
    DigitNotSpace(s[0]);
    DigitNotSpace(s[|s| - 1]);
    StripUnchanged(s);
  }

  // ---------------------------------------------------------------------------
  // week_window_sunday_anchor

  const SECONDS_PER_DAY: int := 86400
  const WEEK: int := 7 * SECONDS_PER_DAY

  /** The ordinal of the local date of an instant; instants count seconds of local time
      from midnight at the start of 1 January of year 1. */
  function LocalOrdinal(instant: int): int {
    instant / SECONDS_PER_DAY + 1
  }

  /** `date.weekday()`: Monday is 0 and Sunday is 6. */
  function Weekday(ordinal: int): (w: int)
    ensures 0 <= w < 7
  {
    (ordinal + 6) % 7
  }

  /** `(weekday() + 1) % 7` */
  function DaysSinceSunday(ordinal: int): (n: int)
    ensures 0 <= n <= 6
    ensures n == 0 <==> Weekday(ordinal) == 6
  {
    (Weekday(ordinal) + 1) % 7
  }

  datatype WeekWindow = WeekWindow(prevStart: int, prevEnd: int, currStart: int, currEnd: int)

  /** `week_window_sunday_anchor(now)`: the week that holds `now` starts at midnight of the
      most recent Sunday; the previous week is the seven days before it. */
  function WeekWindowSundayAnchor(now: int): (w: WeekWindow)
    ensures w.currStart % SECONDS_PER_DAY == 0 && Weekday(LocalOrdinal(w.currStart)) == 6
    ensures w.currStart <= now < w.currEnd
    ensures w.currEnd - w.currStart == WEEK
    ensures w.prevEnd == w.currStart && w.prevEnd - w.prevStart == WEEK
  {
    var day := LocalOrdinal(now);
    var recentSunday := day - DaysSinceSunday(day);
    var currStart := (recentSunday - 1) * SECONDS_PER_DAY;
    WeekWindow(currStart - WEEK, currStart, currStart, currStart + WEEK)
  }

  /** The window starts on the most recent Sunday: no later Sunday midnight is at or
      before `now`. */
  lemma WindowStartsOnMostRecentSunday(now: int, sunday: int)
    requires sunday % SECONDS_PER_DAY == 0 && Weekday(LocalOrdinal(sunday)) == 6 && sunday <= now
    ensures sunday <= WeekWindowSundayAnchor(now).currStart
  {
    var w := WeekWindowSundayAnchor(now);
    var a := LocalOrdinal(sunday);
    var b := LocalOrdinal(w.currStart);
    assert sunday == (a - 1) * SECONDS_PER_DAY;
    assert w.currStart == (b - 1) * SECONDS_PER_DAY;
    assert (a + 6) % 7 == 6 && (b + 6) % 7 == 6;
    assert (b - a) % 7 == 0;
    assert now < w.currStart + WEEK;
  }
}
