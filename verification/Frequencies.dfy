// Rules without a list of dates always have their next instant inside the 400-year horizon of
// Schedule.Next (kit/calendar/schedule.go).
module Frequencies {
  import opened Wrappers
  import opened Gregorian
  import Z = Zone
  import opened Schedule
  import opened NextInstant

  // ---- Dates inside the window.

  lemma StartNear(r: Rule, after: int)
    requires r.Valid() && r.start.Some?
    ensures FromStart(r, after) || FirstDay(r, after) >= r.StartDay() - 2
    ensures r.start.value < (r.StartDay() + 2) * DAY * MINUTE
  {
  }

  // From the third day on, instants are later than `after` and than the start.
  lemma LaterThan(r: Rule, after: int, c: int)
    requires r.Valid() && r.count == 0 && c >= (FirstDay(r, after) + 3) * DAY
    ensures At(r, c) > after
    ensures r.start.Some? ==> At(r, c) >= r.start.value && c / DAY >= r.StartDay()
  {
    AtNear(r, c);
    if r.start.Some? { StartNear(r, after); }
  }

  // A civil minute of the rule that lies inside the window is found.
  lemma InsideWindow(r: Rule, after: int, c: int)
    requires r.Valid() && r.count == 0 && DateMatches(r, c / DAY) && TimeListed(r, c)
    requires (FirstDay(r, after) + 3) * DAY <= c < (FirstDay(r, after) + PERIOD) * DAY
    ensures !NoneBefore(r, FirstDay(r, after), FirstDay(r, after) + PERIOD, after)
  {
    LaterThan(r, after, c);
    assert Hits(r, c, At(r, c));
    assert OccursBefore(r, FirstDay(r, after), FirstDay(r, after) + PERIOD, At(r, c));
  }

  // Any date three days into the window, or later, is enough.
  lemma DateInside(r: Rule, after: int, day: int)
    requires r.Valid() && r.count == 0 && DateMatches(r, day) && !(r.freq.Hourly? || r.freq.Minutely?)
    requires FirstDay(r, after) + 3 <= day < FirstDay(r, after) + PERIOD
    ensures !NoneBefore(r, FirstDay(r, after), FirstDay(r, after) + PERIOD, after)
  {
    var c := Civil(day, r.hours[0], r.minutes[0]);
    CivilParts(day, r.hours[0], r.minutes[0]);
    InsideWindow(r, after, c);
  }

  // ---- Multiples.

  // The next multiple of n.
  lemma NextMultiple(n: int, from: int) returns (t: int)
    requires n >= 1
    ensures from <= t < from + n && t % n == 0
  {
    t := from + (n - from % n) % n;
    if from % n != 0 {
      assert t == n * (from / n + 1);
      Multiple(n, from / n + 1);
    }
  }

  lemma AtLeastOnce(n: int, k: int)
    requires n >= 1 && k >= 1
    ensures n * k >= n
  {
  }

  lemma Multiple(n: int, q: int)
    requires n >= 1
    ensures n * q % n == 0
  {
    var a, b := n * q / n, n * q % n;
    assert n * q == n * a + b;
    assert n * (q - a) == b;
    if q - a >= 1 { AtLeastOnce(n, q - a); } else if q - a <= -1 { AtLeastOnce(n, a - q); }
  }

  predicate All(xs: seq<int>, lo: int, hi: int) {
    forall v :: lo <= v <= hi ==> v in xs
  }

  // A rule that goes on for ever.
  predicate Endless(r: Rule) {
    !r.cron && r.until.None? && r.count == 0
  }

  // ---- Weeks.

  // Limited to INTERVAL, BYDAY, BYHOUR and BYMINUTE.
  predicate WeeklyOnly(r: Rule) {
    && Endless(r) && r.freq == Weekly && r.interval < PERIOD / 7
    && All(r.months, 1, 12) && All(r.days, 1, 31)
    && r.weekdays != [] && 0 <= r.weekdays[0] < 7
  }

  lemma WeeklyInside(r: Rule, after: int)
    requires r.Valid() && WeeklyOnly(r)
    ensures !NoneBefore(r, FirstDay(r, after), FirstDay(r, after) + PERIOD, after)
  {
    StartNear(r, after);
    var day := WeeklyDate(r, FirstDay(r, after));
    DateInside(r, after, day);
  }

  lemma WeeklyDate(r: Rule, d: int) returns (day: int)
    requires r.Valid() && WeeklyOnly(r) && d >= r.StartDay() - 2
    ensures DateMatches(r, day) && d + 3 <= day < d + PERIOD
  {
    var monday, offset := Monday(r.StartDay()), (r.weekdays[0] + 6) % 7;
    var weeks := NextWeeks(r.interval, d + 3 - monday - offset);
    day := monday + offset + 7 * weeks;
    WeeklyMatches(r, offset, weeks);
  }

  lemma WeeklyMatches(r: Rule, offset: int, weeks: int)
    requires r.Valid() && WeeklyOnly(r) && Nth(weeks, r.interval) && offset == (r.weekdays[0] + 6) % 7
    ensures DateMatches(r, Monday(r.StartDay()) + offset + 7 * weeks)
  {
    hide DateOf, Monday, Weekday, TruncDiv;
    var day := Monday(r.StartDay()) + offset + 7 * weeks;
    WeekOf(r.StartDay(), offset, weeks);
    assert Weekday(day) == r.weekdays[0];
    AnyDate(r, day);
  }

  lemma AnyDate(r: Rule, day: int)
    requires All(r.months, 1, 12) && All(r.days, 1, 31)
    ensures DateOf(day).month in r.months && DateOf(day).day in r.days
  {
    DateIsDate(day);
  }

  lemma MondayIs(start: int)
    ensures Weekday(Monday(start)) == 1 && start - 6 <= Monday(start) <= start
  {
    Div7((start + 4) / 7, (start + 4) % 7);
  }

  // Days of the weeks from the start's Monday on.
  lemma WeekOf(start: int, offset: int, weeks: int)
    requires 0 <= offset < 7 && weeks >= 0
    ensures var day := Monday(start) + offset + 7 * weeks;
            Weekday(day) == (1 + offset) % 7 && TruncDiv(day - Monday(start), 7) == weeks
  {
    var monday := Monday(start);
    MondayIs(start);
    WeekdayPlus(monday, offset);
    WeekdayRecurs(monday + offset, weeks);
  }

  lemma WeekdayPlus(day: int, offset: int)
    requires 0 <= offset < 7
    ensures Weekday(day + offset) == (Weekday(day) + offset) % 7
  {
  }

  // The next number of weeks, of the given interval, that makes up that many days.
  lemma NextWeeks(interval: int, days: int) returns (weeks: int)
    requires interval >= 1
    ensures weeks % interval == 0 && days <= 7 * weeks < days + 7 * interval
  {
    weeks := NextMultiple(interval, (days + 6) / 7);
  }

  // The ceiling on INTERVAL is exact: at PERIOD / 7 weeks, a rule without BYDAY has no date
  // besides the start's own inside the window.
  lemma WeeklyCeiling(r: Rule, day: int)
    requires r.Valid() && !r.cron && r.freq == Weekly && r.interval >= PERIOD / 7
    requires r.weekdays == [Weekday(r.StartDay())] && r.StartDay() < day < r.StartDay() + PERIOD
    ensures !DateMatches(r, day)
  {
    if DateMatches(r, day) {
      var weeks := WeeklyNeeds(r, day);
      NoWeekInside(r.StartDay(), day, weeks, r.interval);
    }
  }

  lemma WeeklyNeeds(r: Rule, day: int) returns (weeks: int)
    requires r.Valid() && !r.cron && r.freq == Weekly && DateMatches(r, day)
    ensures weeks == TruncDiv(day - Monday(r.StartDay()), 7) && Nth(weeks, r.interval) && Weekday(day) in r.weekdays
  {
    weeks := TruncDiv(day - Monday(r.StartDay()), 7);
  }

  lemma NoWeekInside(start: int, day: int, weeks: int, interval: int)
    requires interval >= PERIOD / 7 && start < day < start + PERIOD && Weekday(day) == Weekday(start)
    requires weeks == TruncDiv(day - Monday(start), 7)
    ensures !Nth(weeks, interval)
  {
    var apart := (day - start) / 7;
    assert day == start + 7 * apart && 1 <= apart < PERIOD / 7;
    assert weeks == apart;
    if Nth(weeks, interval) { SmallRemainder(weeks, interval); }
  }

  lemma SmallRemainder(n: int, interval: int)
    requires interval >= 1 && Nth(n, interval) && n <= interval
    ensures n == 0 || n == interval
  {
  }

  // ---- Days, hours and minutes.

  predicate EveryDate(r: Rule) {
    All(r.months, 1, 12) && All(r.days, 1, 31) && All(r.weekdays, 0, 6)
  }

  lemma EveryDateMatches(r: Rule, day: int)
    requires r.Valid() && EveryDate(r) && !r.cron && IntervalMatches(r, day)
    ensures DateMatches(r, day)
  {
    DateIsDate(day);
    assert 0 <= Weekday(day) <= 6;
  }

  predicate DailyOnly(r: Rule) {
    Endless(r) && r.freq == Daily && EveryDate(r) && r.interval <= 100000
  }

  lemma DailyInside(r: Rule, after: int)
    requires r.Valid() && DailyOnly(r)
    ensures !NoneBefore(r, FirstDay(r, after), FirstDay(r, after) + PERIOD, after)
  {
    StartNear(r, after);
    var days := NextMultiple(r.interval, FirstDay(r, after) + 3 - r.StartDay());
    EveryDateMatches(r, r.StartDay() + days);
    DateInside(r, after, r.StartDay() + days);
  }

  predicate HourlyOnly(r: Rule) {
    Endless(r) && r.freq == Hourly && EveryDate(r) && All(r.hours, 0, 23) && r.interval <= 100000
  }

  lemma HourlyInside(r: Rule, after: int)
    requires r.Valid() && HourlyOnly(r)
    ensures !NoneBefore(r, FirstDay(r, after), FirstDay(r, after) + PERIOD, after)
  {
    hide DateOf, NoneBefore;
    StartNear(r, after);
    var first := r.StartCivil() / 60;
    var hours := NextMultiple(r.interval, (FirstDay(r, after) + 3) * 24 - first);
    var hour := first + hours;
    var c := hour * 60 + r.minutes[0];
    assert c / 60 == hour && c % 60 == r.minutes[0] && c / DAY == hour / 24 && c % DAY / 60 == hour % 24;
    EveryDateMatches(r, c / DAY);
    InsideWindow(r, after, c);
  }

  predicate MinutelyOnly(r: Rule) {
    Endless(r) && r.freq == Minutely && EveryDate(r) && All(r.hours, 0, 23) && All(r.minutes, 0, 59) && r.interval <= 100000
  }

  lemma MinutelyInside(r: Rule, after: int)
    requires r.Valid() && MinutelyOnly(r)
    ensures !NoneBefore(r, FirstDay(r, after), FirstDay(r, after) + PERIOD, after)
  {
    StartNear(r, after);
    var minutes := NextMultiple(r.interval, (FirstDay(r, after) + 3) * DAY - r.StartCivil());
    var c := r.StartCivil() + minutes;
    EveryDateMatches(r, c / DAY);
    InsideWindow(r, after, c);
  }

  // ---- Months and years.

  // Day k of the m-th month of the calendar.
  function MonthDate(m: int, k: int): Date {
    Date(m / 12, m % 12 + 1, k)
  }

  function MonthDay(m: int, k: int): int {
    DayNumber(MonthDate(m, k))
  }

  lemma DaysOfMonth(year: int, month: int, k: int)
    ensures DayNumber(Date(year, month, k)) == DayNumber(Date(year, month, 1)) + k - 1
  {
  }

  lemma MonthStep(m: int, k: int)
    ensures MonthDay(m, k) + 28 <= MonthDay(m + 1, k)
  {
    hide DayNumber, DateOf, Leap;
    var year, month := m / 12, m % 12 + 1;
    var last := DaysIn(year, month);
    LastOfMonth(year, month);
    DateIsDate(DayNumber(NextMonth(year, month)) - 1);
    NextIs(m);
    DaysOfMonth(year, month, k);
    DaysOfMonth(year, month, last);
    DaysOfMonth((m + 1) / 12, (m + 1) % 12 + 1, k);
  }

  lemma NextIs(m: int)
    ensures NextMonth(m / 12, m % 12 + 1) == MonthDate(m + 1, 1)
  {
  }

  lemma {:induction false} MonthsStep(m: int, n: nat, k: int)
    ensures MonthDay(m, k) + 28 * n <= MonthDay(m + n, k)
    decreases n
  {
    hide MonthDay;
    if n > 0 {
      MonthsStep(m, n - 1, k);
      MonthStep(m + n - 1, k);
    }
  }

  // Less than 4800 months are less than a period of days.
  lemma MonthsInside(m: int, n: nat, k: int)
    requires n < 4800 && 1 <= k <= 28
    ensures MonthDay(m, k) + 28 * n <= MonthDay(m + n, k) <= MonthDay(m, k) + PERIOD - 28
  {
    hide DayNumber;
    MonthsStep(m, n, k);
    MonthsStep(m + n, 4800 - n, k);
    Add400Years(MonthDate(m, k));
    assert MonthDate(m + 4800, k) == MonthDate(m, k).(year := m / 12 + 400);
  }

  // Steps of n months from a day before d + 3 meet the period from there on.
  lemma {:induction false} StepInto(m: int, n: nat, k: int, d: int) returns (j: nat)
    requires 1 <= n < 4800 && 1 <= k <= 28 && MonthDay(m, k) < d + 3
    ensures d + 3 <= MonthDay(m + j * n, k) < d + PERIOD
    decreases d + 3 - MonthDay(m, k)
  {
    hide MonthDay;
    MonthsInside(m, n, k);
    if d + 3 <= MonthDay(m + n, k) {
      j := 1;
    } else {
      var i := StepInto(m + n, n, k, d);
      j := i + 1;
      assert m + n + i * n == m + j * n;
    }
  }

  // The month of the start, and its day there.
  function StartMonth(r: Rule): int
    requires r.start.Some?
  {
    DateOf(r.StartDay()).year * 12 + DateOf(r.StartDay()).month - 1
  }

  function StartDate(r: Rule): int
    requires r.start.Some?
  {
    DateOf(r.StartDay()).day
  }

  predicate MonthlyOnly(r: Rule) {
    && Endless(r) && r.start.Some? && r.freq == Monthly && r.interval < 4800
    && All(r.months, 1, 12) && All(r.weekdays, 0, 6) && r.days == [StartDate(r)]
  }

  predicate YearlyOnly(r: Rule) {
    && Endless(r) && r.start.Some? && r.freq == Yearly && r.interval < 400
    && r.months == [DateOf(r.StartDay()).month] && All(r.weekdays, 0, 6) && r.days == [StartDate(r)]
  }

  lemma StartIs(r: Rule)
    requires r.start.Some?
    ensures MonthDate(StartMonth(r), StartDate(r)) == DateOf(r.StartDay())
    ensures MonthDay(StartMonth(r), StartDate(r)) == r.StartDay()
  {
    DateIsDate(r.StartDay());
  }

  // n months after the start's own month, in steps of the rule.
  lemma MonthlyMatches(r: Rule, n: nat)
    requires r.Valid() && MonthlyOnly(r) && StartDate(r) <= 28 && n % r.interval == 0
    ensures DateMatches(r, MonthDay(StartMonth(r) + n, StartDate(r)))
  {
    hide DateOf, DayNumber, Weekday;
    DateIsDate(r.StartDay());
    var d := MonthDate(StartMonth(r) + n, StartDate(r));
    DateUnique(d);
    assert d.year * 12 + d.month - 1 == StartMonth(r) + n;
    assert 0 <= Weekday(DayNumber(d)) < 7;
  }

  lemma YearlyMatches(r: Rule, n: nat)
    requires r.Valid() && YearlyOnly(r) && StartDate(r) <= 28 && n % r.interval == 0
    ensures DateMatches(r, MonthDay(StartMonth(r) + 12 * n, StartDate(r)))
  {
    hide DateOf, DayNumber, Weekday;
    DateIsDate(r.StartDay());
    var s := DateOf(r.StartDay());
    var d := MonthDate(StartMonth(r) + 12 * n, StartDate(r));
    assert d == s.(year := s.year + n);
    DateUnique(d);
    assert 0 <= Weekday(DayNumber(d)) < 7;
  }

  lemma MonthlyInside(r: Rule, after: int)
    requires r.Valid() && MonthlyOnly(r) && StartDate(r) <= 28
    ensures !NoneBefore(r, FirstDay(r, after), FirstDay(r, after) + PERIOD, after)
  {
    hide DateOf, DayNumber, MonthDay, NoneBefore, FirstDay, DateMatches;
    StartIs(r);
    DateIsDate(r.StartDay());
    StartNotLate(r, after);
    var j := StepInto(StartMonth(r), r.interval, StartDate(r), FirstDay(r, after));
    Multiple(r.interval, j);
    MonthlyMatches(r, j * r.interval);
    DateInside(r, after, MonthDay(StartMonth(r) + j * r.interval, StartDate(r)));
  }

  lemma StartNotLate(r: Rule, after: int)
    requires r.Valid() && r.start.Some?
    ensures FirstDay(r, after) >= r.StartDay() - 2
  {
    StartNear(r, after);
  }

  lemma YearlyInside(r: Rule, after: int)
    requires r.Valid() && YearlyOnly(r) && StartDate(r) <= 28
    ensures !NoneBefore(r, FirstDay(r, after), FirstDay(r, after) + PERIOD, after)
  {
    hide DateOf, DayNumber, MonthDay, NoneBefore, FirstDay, DateMatches;
    StartIs(r);
    DateIsDate(r.StartDay());
    StartNotLate(r, after);
    var j := StepInto(StartMonth(r), 12 * r.interval, StartDate(r), FirstDay(r, after));
    Multiple(r.interval, j);
    YearlyMatches(r, j * r.interval);
    assert j * (12 * r.interval) == 12 * (j * r.interval);
    DateInside(r, after, MonthDay(StartMonth(r) + 12 * (j * r.interval), StartDate(r)));
  }

  // Limited to INTERVAL and times of day, or weekly; months and years from a day that every
  // month has.
  predicate Unlimited(r: Rule) {
    || WeeklyOnly(r) || DailyOnly(r) || HourlyOnly(r) || MinutelyOnly(r)
    || ((MonthlyOnly(r) || YearlyOnly(r)) && StartDate(r) <= 28)
  }

  // Such a rule always has its next date inside the window.
  lemma UnlimitedInside(r: Rule, after: int)
    requires r.Valid() && Unlimited(r)
    ensures !NoneBefore(r, FirstDay(r, after), FirstDay(r, after) + PERIOD, after)
  {
    match r.freq
    case Weekly => WeeklyInside(r, after);
    case Daily => DailyInside(r, after);
    case Hourly => HourlyInside(r, after);
    case Minutely => MinutelyInside(r, after);
    case Monthly => MonthlyInside(r, after);
    case Yearly => YearlyInside(r, after);
  }
}
