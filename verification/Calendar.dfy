/** Dates, and an instant as RFC 3339 text in UTC (section 5.6: full-date "T" full-time, whole seconds). */
module Calendar {

  import opened Decimals

  datatype Date = Date(year: int, month: int, day: int)

  const EPOCH := Date(1970, 1, 1)
  const SECONDS_PER_DAY := 86400

  predicate IsLeap(year: int) {
    year % 4 == 0 && (year % 100 != 0 || year % 400 == 0)
  }

  function DaysInMonth(year: int, month: int): int {
    if month == 2 then (if IsLeap(year) then 29 else 28)
    else if month in {4, 6, 9, 11} then 30
    else 31
  }

  predicate IsDate(d: Date) {
    1 <= d.month <= 12 && 1 <= d.day <= DaysInMonth(d.year, d.month)
  }

  function NextDay(d: Date): Date {
    if d.day < DaysInMonth(d.year, d.month) then d.(day := d.day + 1)
    else if d.month < 12 then Date(d.year, d.month + 1, 1)
    else Date(d.year + 1, 1, 1)
  }

  function DayBefore(d: Date): Date {
    if d.day > 1 then d.(day := d.day - 1)
    else if d.month > 1 then Date(d.year, d.month - 1, DaysInMonth(d.year, d.month - 1))
    else Date(d.year - 1, 12, 31)
  }

  /** The date `days` days after the epoch. */
  function DateOf(days: int): Date
    decreases if days < 0 then -days else days
  {
    if days == 0 then EPOCH
    else if days > 0 then NextDay(DateOf(days - 1))
    else DayBefore(DateOf(days + 1))
  }

  /** Days from 1 January of the year 1 to 1 January of `year`. */
  function DaysBeforeYear(year: int): int {
    365 * (year - 1) + (year - 1) / 4 - (year - 1) / 100 + (year - 1) / 400
  }

  function DaysBeforeMonth(year: int, month: int): int
    decreases month
  {
    if month <= 1 then 0 else DaysBeforeMonth(year, month - 1) + DaysInMonth(year, month - 1)
  }

  /** Counts the days of whole years and months, without walking from day to day. */
  function DayNumber(d: Date): int {
    DaysBeforeYear(d.year) + DaysBeforeMonth(d.year, d.month) + d.day - 1 - 719162
  }

  lemma Quarters(y: int)
    ensures (y + 1) / 4 == y / 4 + if (y + 1) % 4 == 0 then 1 else 0
  {
  }

  lemma Centuries(y: int)
    ensures (y + 1) / 100 == y / 100 + if (y + 1) % 100 == 0 then 1 else 0
  {
  }

  lemma Cycles(y: int)
    ensures (y + 1) / 400 == y / 400 + if (y + 1) % 400 == 0 then 1 else 0
  {
  }

  lemma Multiples(y: int)
    ensures y % 400 == 0 ==> y % 100 == 0
    ensures y % 100 == 0 ==> y % 4 == 0
  {
  }

  lemma YearLength(year: int)
    ensures DaysBeforeYear(year + 1) == DaysBeforeYear(year) + if IsLeap(year) then 366 else 365
  {
    Quarters(year - 1);
    Centuries(year - 1);
    Cycles(year - 1);
    Multiples(year);
  }

  lemma MonthsOfYear(year: int)
    ensures DaysBeforeMonth(year, 13) == if IsLeap(year) then 366 else 365
  {
    assert DaysBeforeMonth(year, 4) == 31 + DaysInMonth(year, 2) + 31;
    assert DaysBeforeMonth(year, 7) == DaysBeforeMonth(year, 4) + 91;
    assert DaysBeforeMonth(year, 10) == DaysBeforeMonth(year, 7) + 92;
  }

  lemma NextDayCounts(d: Date)
    requires IsDate(d)
    ensures IsDate(NextDay(d)) && DayNumber(NextDay(d)) == DayNumber(d) + 1
  {
    if d.day == DaysInMonth(d.year, d.month) && d.month == 12 {
      YearLength(d.year);
      MonthsOfYear(d.year);
      hide DaysBeforeYear, IsLeap;
      assert DaysBeforeMonth(d.year, 13) == DaysBeforeMonth(d.year, 12) + 31;
    } else {
      hide DaysBeforeYear, IsLeap;
    }
  }

  lemma DayBeforeCounts(d: Date)
    requires IsDate(d)
    ensures IsDate(DayBefore(d)) && DayNumber(DayBefore(d)) == DayNumber(d) - 1
  {
    var before := DayBefore(d);
    assert IsDate(before) && NextDay(before) == d;
    NextDayCounts(before);
  }

  /** Walking the calendar and counting agree, so different days have different dates. */
  lemma {:induction false} DateOfCounts(days: int)
    ensures IsDate(DateOf(days)) && DayNumber(DateOf(days)) == days
    decreases if days < 0 then -days else days
  {
    if days == 0 {
      assert DaysBeforeYear(1970) == 719162;
    } else if days > 0 {
      DateOfCounts(days - 1);
      NextDayCounts(DateOf(days - 1));
    } else {
      DateOfCounts(days + 1);
      DayBeforeCounts(DateOf(days + 1));
    }
  }

  // ---------------------------------------------------------------------------
  // RFC 3339
  // ---------------------------------------------------------------------------

  function Two(n: int): string
    requires 0 <= n
  {
    Padded(n, 2)
  }

  function DateText(d: Date): string
    requires IsDate(d)
  {
    "-" + Two(d.month) + "-" + Two(d.day)
  }

  function HourMinuteSecond(h: nat, m: nat, s: nat): string {
    "T" + Two(h) + ":" + Two(m) + ":" + Two(s) + "Z"
  }

  function ClockText(second: int): string
    requires 0 <= second < SECONDS_PER_DAY
  {
    HourMinuteSecond(second / 3600, second / 60 % 60, second % 60)
  }

  /** The text of the instant `second` seconds after the epoch. */
  function Rfc3339(second: int): string {
    DateOfCounts(second / SECONDS_PER_DAY);
    var d := DateOf(second / SECONDS_PER_DAY);
    Signed(d.year, 4) + DateText(d) + ClockText(second % SECONDS_PER_DAY)
  }

  lemma DateTextInjective(d: Date, e: Date)
    requires IsDate(d) && IsDate(e) && DateText(d) == DateText(e)
    ensures d.month == e.month && d.day == e.day
  {
    TwoDigits(d.month);
    TwoDigits(e.month);
    hide Padded;
    assert Two(d.month) == DateText(d)[1..3] && Two(e.month) == DateText(e)[1..3];
    assert Two(d.day) == DateText(d)[4..] && Two(e.day) == DateText(e)[4..];
    PaddedInjective(d.month, e.month, 2);
    PaddedInjective(d.day, e.day, 2);
  }

  lemma TwoLength(n: int)
    requires 0 <= n < 100
    ensures |Two(n)| == 2
  {
    TwoDigits(n);
  }

  lemma HourMinuteSecondInjective(h: nat, m: nat, s: nat, h': nat, m': nat, s': nat)
    requires h < 100 && m < 100 && s < 100 && h' < 100 && m' < 100 && s' < 100
    requires HourMinuteSecond(h, m, s) == HourMinuteSecond(h', m', s')
    ensures h == h' && m == m' && s == s'
  {
    TwoLength(h);
    TwoLength(m);
    TwoLength(s);
    TwoLength(h');
    TwoLength(m');
    TwoLength(s');
    assert Two(h) == Two(h') && Two(m) == Two(m') && Two(s) == Two(s') by {
      hide Two;
      assert Two(h) == HourMinuteSecond(h, m, s)[1..3] && Two(h') == HourMinuteSecond(h', m', s')[1..3];
      assert Two(m) == HourMinuteSecond(h, m, s)[4..6] && Two(m') == HourMinuteSecond(h', m', s')[4..6];
      assert Two(s) == HourMinuteSecond(h, m, s)[7..9] && Two(s') == HourMinuteSecond(h', m', s')[7..9];
    }
    hide Padded;
    PaddedInjective(h, h', 2);
    PaddedInjective(m, m', 2);
    PaddedInjective(s, s', 2);
  }

  lemma ClockReads(s: int)
    requires 0 <= s < SECONDS_PER_DAY
    ensures s / 3600 < 24 && s / 60 % 60 < 60 && s % 60 < 60
    ensures s == 3600 * (s / 3600) + 60 * (s / 60 % 60) + s % 60
  {
    assert s / 60 / 60 == s / 3600;
  }

  lemma ClockLength(s: int)
    requires 0 <= s < SECONDS_PER_DAY
    ensures |ClockText(s)| == 10
  {
    ClockReads(s);
    TwoLength(s / 3600);
    TwoLength(s / 60 % 60);
    TwoLength(s % 60);
  }

  lemma ClockTextInjective(s: int, t: int)
    requires 0 <= s < SECONDS_PER_DAY && 0 <= t < SECONDS_PER_DAY
    requires ClockText(s) == ClockText(t)
    ensures s == t
  {
    hide HourMinuteSecond;
    ClockReads(s);
    ClockReads(t);
    HourMinuteSecondInjective(s / 3600, s / 60 % 60, s % 60, t / 3600, t / 60 % 60, t % 60);
  }

  /** Different seconds have different texts, and none holds a separator. */
  lemma Rfc3339Injective(s: int, t: int)
    requires Rfc3339(s) == Rfc3339(t)
    ensures s == t
  {
    var day, day' := s / SECONDS_PER_DAY, t / SECONDS_PER_DAY;
    DateOfCounts(day);
    DateOfCounts(day');
    var d, e := DateOf(day), DateOf(day');
    ClockLength(s % SECONDS_PER_DAY);
    ClockLength(t % SECONDS_PER_DAY);
    DateLength(d);
    DateLength(e);
    hide DateOf, DateText, ClockText, DayNumber, Signed;
    var text := Rfc3339(s);
    assert text[|text| - 10..] == ClockText(s % SECONDS_PER_DAY) && text[|text| - 10..] == ClockText(t % SECONDS_PER_DAY);
    assert text[|text| - 16..|text| - 10] == DateText(d) && text[|text| - 16..|text| - 10] == DateText(e);
    assert text[..|text| - 16] == Signed(d.year, 4) && text[..|text| - 16] == Signed(e.year, 4);
    SignedInjective(d.year, e.year, 4);
    DateTextInjective(d, e);
    ClockTextInjective(s % SECONDS_PER_DAY, t % SECONDS_PER_DAY);
  }

  lemma DateLength(d: Date)
    requires IsDate(d)
    ensures |DateText(d)| == 6
  {
    TwoDigits(d.month);
    TwoDigits(d.day);
  }

  lemma Rfc3339Characters(second: int)
    ensures forall c :: c in Rfc3339(second) ==> IsDigit(c) || c in {'-', 'T', ':', 'Z'}
  {
    hide DateOf, Padded;
  }
}
