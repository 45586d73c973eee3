// The proleptic Gregorian calendar, as far as kit/calendar/schedule.go uses package time:
// days are counted from 1 January 1970.
module Gregorian {
  datatype Date = Date(year: int, month: int, day: int)

  // Days, weeks and years of one 400-year period, and of 28 years without a skipped leap day.
  const PERIOD := 146097
  const SPAN := 10227

  // Sunday is 0; day 0 was a Thursday.
  function Weekday(day: int): (w: int)
    ensures 0 <= w < 7
  {
    (day + 4) % 7
  }

  predicate Leap(year: int) {
    year % 4 == 0 && (year % 100 != 0 || year % 400 == 0)
  }

  function DaysIn(year: int, month: int): int {
    if month == 2 then (if Leap(year) then 29 else 28)
    else if month in {4, 6, 9, 11} then 30
    else 31
  }

  predicate IsDate(d: Date) {
    1 <= d.month <= 12 && 1 <= d.day <= DaysIn(d.year, d.month)
  }

  // Day number of a date: years begin in March, so that the leap day comes last.
  function DayNumber(d: Date): int {
    var year := if d.month <= 2 then d.year - 1 else d.year;
    var month := if d.month <= 2 then d.month + 9 else d.month - 3;
    (year / 400) * PERIOD + YearStart(year % 400) + MonthStart(month) + d.day - 1 - 719468
  }

  function YearStart(year: int): int {
    year * 365 + year / 4 - year / 100
  }

  function MonthStart(month: int): int {
    (153 * month + 2) / 5
  }

  function Least(a: int, b: int): int {
    if a < b then a else b
  }

  // A day as centuries of the period, groups of four years, years and days.
  datatype Split = Split(era: int, century: int, group: int, year: int, day: int)

  predicate IsSplit(s: Split) {
    && 0 <= s.century < 4 && 0 <= s.group < 25 && 0 <= s.year < 4 && 0 <= s.day < 366
    && (s.day == 365 ==> s.year == 3 && (s.group < 24 || s.century == 3))
  }

  function Join(s: Split): int {
    s.era * PERIOD + s.century * 36524 + s.group * 1461 + s.year * 365 + s.day - 719468
  }

  function SplitOf(day: int): (s: Split)
    ensures IsSplit(s) && Join(s) == day
  {
    var n := day + 719468;
    var inEra := n % PERIOD;
    var century := Least(inEra / 36524, 3);
    var inCentury := inEra - century * 36524;
    var group := inCentury / 1461;
    var inGroup := inCentury - group * 1461;
    var year := Least(inGroup / 365, 3);
    Split(n / PERIOD, century, group, year, inGroup - year * 365)
  }

  lemma SplitUnique(s: Split)
    requires IsSplit(s)
    ensures SplitOf(Join(s)) == s
  {
    var inEra := s.century * 36524 + s.group * 1461 + s.year * 365 + s.day;
    assert 0 <= inEra < PERIOD;
    assert Join(s) + 719468 == s.era * PERIOD + inEra;
    assert (Join(s) + 719468) / PERIOD == s.era && (Join(s) + 719468) % PERIOD == inEra;
    var inCentury := s.group * 1461 + s.year * 365 + s.day;
    assert 0 <= inCentury <= 36524 && (inCentury == 36524 ==> s.century == 3);
    assert Least(inEra / 36524, 3) == s.century;
    assert inCentury / 1461 == s.group;
  }

  function YearOf(s: Split): int {
    400 * s.era + 100 * s.century + 4 * s.group + s.year
  }

  function DateOfSplit(s: Split): Date {
    var month := (5 * s.day + 2) / 153;
    Date(YearOf(s) + (if month >= 10 then 1 else 0),
         if month >= 10 then month - 9 else month + 3, s.day - MonthStart(month) + 1)
  }

  function DateOf(day: int): Date {
    DateOfSplit(SplitOf(day))
  }

  lemma Div7(q: int, r: int)
    requires 0 <= r < 7
    ensures (7 * q + r) % 7 == r
  {
  }

  lemma Div4(q: int, r: int)
    requires 0 <= r < 4
    ensures (4 * q + r) / 4 == q && (4 * q + r) % 4 == r
  {
  }

  lemma Div100(q: int, r: int)
    requires 0 <= r < 100
    ensures (100 * q + r) / 100 == q && (100 * q + r) % 100 == r
  {
  }

  lemma Div400(q: int, r: int)
    requires 0 <= r < 400
    ensures (400 * q + r) / 400 == q && (400 * q + r) % 400 == r
  {
  }

  // The year that begins in March, its place among the years and its leap day.
  lemma YearOfSplit(s: Split)
    requires IsSplit(s)
    ensures var year := YearOf(s);
            && year / 400 == s.era && year % 400 == 100 * s.century + 4 * s.group + s.year
            && YearStart(year % 400) == s.century * 36524 + s.group * 1461 + s.year * 365
            && (Leap(year + 1) <==> s.year == 3 && (s.group < 24 || s.century == 3))
  {
    Div400(s.era, 100 * s.century + 4 * s.group + s.year);
    Div100(s.century, 4 * s.group + s.year);
    Div4(25 * s.century + s.group, s.year);
    LeapDay(s);
  }

  lemma LeapDay(s: Split)
    requires IsSplit(s)
    ensures Leap(YearOf(s) + 1)
            <==> s.year == 3 && (s.group < 24 || s.century == 3)
  {
    var quads, next := 100 * s.era + 25 * s.century + s.group, 4 * s.group + s.year + 1;
    if s.year == 3 { Div4(quads + 1, 0); } else { Div4(quads, s.year + 1); }
    if next == 100 { Div100(4 * s.era + s.century + 1, 0); } else { Div100(4 * s.era + s.century, next); }
    if next == 100 && s.century == 3 { Div400(s.era + 1, 0); } else { Div400(s.era, 100 * s.century + next); }
  }

  // Where a year stands in its period.
  lemma Place(year: int) returns (s: Split)
    ensures IsSplit(s) && s.day == 0 && year == YearOf(s)
  {
    var e := year % 400;
    s := Split(year / 400, e / 100, e % 100 / 4, e % 4, 0);
    assert e == 100 * s.century + e % 100;
    assert e % 100 == 4 * s.group + s.year;
  }

  function MarchYear(d: Date): int {
    if d.month <= 2 then d.year - 1 else d.year
  }

  function MonthIndex(d: Date): int {
    if d.month <= 2 then d.month + 9 else d.month - 3
  }

  lemma DayNumberIn(s: Split, d: Date)
    requires IsSplit(s) && s.day == 0 && MarchYear(d) == YearOf(s)
    ensures DayNumber(d) == Join(s) + MonthStart(MonthIndex(d)) + d.day - 1
  {
    YearOfSplit(s);
  }

  lemma LastDayIn(s: Split)
    requires IsSplit(s) && s.day == 0
    ensures DaysIn(YearOf(s) + 1, 2) == if s.year == 3 && (s.group < 24 || s.century == 3) then 29 else 28
  {
    LeapDay(s);
  }

  lemma InMonth(month: int, day: int)
    requires 0 <= month < 12 && 1 <= day <= 31 && (month in {1, 3, 6, 8} ==> day <= 30) && (month == 11 ==> day <= 29)
    ensures (5 * (MonthStart(month) + day - 1) + 2) / 153 == month
  {
  }

  lemma SplitOfDate(s: Split, d: Date) returns (t: Split)
    requires IsSplit(s) && s.day == 0 && IsDate(d) && MarchYear(d) == YearOf(s)
    ensures IsSplit(t) && t == s.(day := MonthStart(MonthIndex(d)) + d.day - 1) && DateOfSplit(t) == d
  {
    LastDayIn(s);
    InMonth(MonthIndex(d), d.day);
    t := s.(day := MonthStart(MonthIndex(d)) + d.day - 1);
  }

  // Every date is the date of its day.
  lemma DateUnique(d: Date)
    requires IsDate(d)
    ensures DateOf(DayNumber(d)) == d
  {
    var s := Place(MarchYear(d));
    DayNumberIn(s, d);
    var t := SplitOfDate(s, d);
    SplitUnique(t);
  }

  lemma DateOfSplitIsDate(s: Split)
    requires IsSplit(s)
    ensures IsDate(DateOfSplit(s)) && MarchYear(DateOfSplit(s)) == YearOf(s)
    ensures MonthStart(MonthIndex(DateOfSplit(s))) + DateOfSplit(s).day - 1 == s.day
  {
    LastDayIn(s.(day := 0));
    var month := (5 * s.day + 2) / 153;
    assert 0 <= month < 12 && MonthStart(month) <= s.day;
  }

  // Every day has a date, and the date gives the day back.
  lemma DateIsDate(day: int)
    ensures IsDate(DateOf(day)) && DayNumber(DateOf(day)) == day
  {
    var s := SplitOf(day);
    DateOfSplitIsDate(s);
    DayNumberIn(s.(day := 0), DateOfSplit(s));
  }

  lemma WeekdayRecurs(day: int, weeks: int)
    ensures Weekday(day + 7 * weeks) == Weekday(day)
  {
    Div7((day + 4) / 7 + weeks, (day + 4) % 7);
  }

  function NextEra(s: Split): (t: Split)
    requires IsSplit(s)
    ensures IsSplit(t) && Join(t) == Join(s) + PERIOD
    ensures DateOfSplit(t) == DateOfSplit(s).(year := DateOfSplit(s).year + 400)
  {
    s.(era := s.era + 1)
  }

  // The calendar repeats every 400 years, weekdays included.
  lemma Periodic(day: int)
    ensures DateOf(day + PERIOD) == DateOf(day).(year := DateOf(day).year + 400)
    ensures Weekday(day + PERIOD) == Weekday(day)
  {
    var t := NextEra(SplitOf(day));
    SplitUnique(t);
    WeekdayRecurs(day, 20871);
  }

  // The same day of the year on the same day of the week.
  predicate Alike(a: int, b: int) {
    DateOf(a).month == DateOf(b).month && DateOf(a).day == DateOf(b).day && Weekday(a) == Weekday(b)
  }

  lemma {:induction false} Repeats<T>(f: int -> T, day: int, k: nat)
    requires forall x :: f(x) == f(x + PERIOD)
    ensures f(day) == f(day + k * PERIOD)
  {
    if k > 0 {
      Repeats(f, day, k - 1);
      assert f(day + (k - 1) * PERIOD) == f(day + (k - 1) * PERIOD + PERIOD);
    }
  }

  lemma PeriodsAlike(day: int, k: nat)
    ensures Alike(day, day + k * PERIOD)
  {
    var f := x => (DateOf(x).month, DateOf(x).day, Weekday(x));
    forall x ensures f(x) == f(x + PERIOD) { PeriodAlike(x, x + PERIOD); }
    Repeats(f, day, k);
  }

  lemma PeriodAlike(day: int, next: int)
    requires next == day + PERIOD
    ensures Alike(day, next)
  {
    Periodic(day);
  }

  lemma AlikeChain(a: int, b: int, c: int)
    requires Alike(a, b) && Alike(b, c)
    ensures Alike(a, c)
  {
  }

  // The group of four years 28 years later or earlier in the same century.
  function SevenGroupsOff(s: Split): (t: Split)
    requires IsSplit(s)
    ensures IsSplit(t) && (Join(t) == Join(s) + SPAN || Join(t) == Join(s) - SPAN)
    ensures DateOfSplit(t).month == DateOfSplit(s).month && DateOfSplit(t).day == DateOfSplit(s).day
  {
    s.(group := if s.group >= 7 then s.group - 7 else s.group + 7)
  }

  // The same date of the year falls on the same weekday 28 years before or after, even where
  // a century without a leap day is near.
  lemma Recurs(day: int) returns (other: int)
    ensures other == day + SPAN || other == day - SPAN
    ensures Alike(day, other)
  {
    var t := SevenGroupsOff(SplitOf(day));
    other := Join(t);
    SplitUnique(t);
    WeekdayRecurs(day, if other < day then -1461 else 1461);
  }

  // Adding 400 years to a date adds one period of days.
  lemma Add400Years(d: Date)
    requires IsDate(d)
    ensures IsDate(d.(year := d.year + 400)) && DayNumber(d.(year := d.year + 400)) == DayNumber(d) + PERIOD
  {
    LeapRepeats(d.year);
    var year := if d.month <= 2 then d.year - 1 else d.year;
    Div400(year / 400 + 1, year % 400);
  }

  lemma LeapRepeats(year: int)
    ensures Leap(year + 400) <==> Leap(year)
  {
    Div4(year / 4 + 100, year % 4);
    Div100(year / 100 + 4, year % 100);
    Div400(year / 400 + 1, year % 400);
  }

  lemma YearFollows(s: Split) returns (t: Split)
    requires IsSplit(s) && s.day == 0
    ensures IsSplit(t) && t.day == 0
    ensures YearOf(t) == YearOf(s) + 1
    ensures Join(t) == Join(s) + if s.year == 3 && (s.group < 24 || s.century == 3) then 366 else 365
  {
    t := if s.year < 3 then s.(year := s.year + 1)
         else if s.group < 24 then s.(group := s.group + 1, year := 0)
         else if s.century < 3 then s.(century := s.century + 1, group := 0, year := 0)
         else Split(s.era + 1, 0, 0, 0, 0);
  }

  function NextMonth(year: int, month: int): Date {
    if month == 12 then Date(year + 1, 1, 1) else Date(year, month + 1, 1)
  }

  lemma MonthFollows(s: Split, year: int, month: int)
    requires IsSplit(s) && s.day == 0 && 1 <= month <= 12 && month != 2
    requires MarchYear(Date(year, month, 1)) == YearOf(s)
    ensures DayNumber(NextMonth(year, month)) == DayNumber(Date(year, month, DaysIn(year, month))) + 1
  {
    hide DayNumber, Join, YearOf, Leap;
    DayNumberIn(s, Date(year, month, DaysIn(year, month)));
    DayNumberIn(s, NextMonth(year, month));
  }

  lemma MarchFollows(s: Split, year: int)
    requires IsSplit(s) && s.day == 0 && year - 1 == YearOf(s)
    ensures DayNumber(NextMonth(year, 2)) == DayNumber(Date(year, 2, DaysIn(year, 2))) + 1
  {
    var t := YearFollows(s);
    DayNumberIn(s, Date(year, 2, DaysIn(year, 2)));
    DayNumberIn(t, NextMonth(year, 2));
    LastDayIn(s);
  }

  // Day 0 of the next month is the last day of a month.
  lemma LastOfMonth(year: int, month: int)
    requires 1 <= month <= 12
    ensures DateOf(DayNumber(NextMonth(year, month)) - 1) == Date(year, month, DaysIn(year, month))
  {
    var s := Place(MarchYear(Date(year, month, 1)));
    if month == 2 { MarchFollows(s, year); } else { MonthFollows(s, year, month); }
    DateUnique(Date(year, month, DaysIn(year, month)));
  }
}
