// When schedules recur, in terms of the calendar: the dates and times that a rule selects, and
// what Next returns for them (kit/calendar/schedule.go).
module Recurrences {
  import opened Wrappers
  import opened Sequences
  import opened Gregorian
  import Z = Zone
  import opened Schedule
  import opened NextInstant
  import Frequencies
  import Horizon
  import R = Rules

  // Day 0 is a Thursday, 1 January 1970.
  lemma Epoch()
    ensures DayNumber(Date(1970, 1, 1)) == 0 && Weekday(0) == 4
  {
  }

  // ---- Multiples of an interval.

  lemma MultipleExactly(n: int, interval: int)
    requires interval >= 1
    ensures Nth(n, interval) <==> exists k: nat :: n == k * interval
  {
    if Nth(n, interval) {
      var k: nat := n / interval;
      assert n == k * interval;
    }
    if k: nat :| n == k * interval {
      Frequencies.Multiple(interval, k);
      assert n == interval * k;
    }
  }

  // ---- The days that an interval selects.

  // The interval counts days, weeks from the Monday of the start's week, months and years.
  lemma DaysExactly(r: Rule, day: int)
    requires r.Valid() && r.freq == Daily && !r.cron
    ensures IntervalMatches(r, day) <==> exists k: nat :: day == r.StartDay() + k * r.interval
  {
    MultipleExactly(day - r.StartDay(), r.interval);
    if k: nat :| day == r.StartDay() + k * r.interval { assert day - r.StartDay() == k * r.interval; }
    if k: nat :| day - r.StartDay() == k * r.interval { assert day == r.StartDay() + k * r.interval; }
  }

  lemma WeeksExactly(r: Rule, day: int, monday: int)
    requires r.Valid() && r.freq == Weekly && !r.cron && day >= r.StartDay()
    requires Weekday(monday) == 1 && monday <= r.StartDay() < monday + 7
    ensures IntervalMatches(r, day) <==> exists k: nat :: 0 <= day - monday - 7 * (k * r.interval) < 7
  {
    assert monday == Monday(r.StartDay());
    var weeks := (day - monday) / 7;
    MultipleExactly(weeks, r.interval);
    if k: nat :| weeks == k * r.interval { assert 0 <= day - monday - 7 * (k * r.interval) < 7; }
    if k: nat :| 0 <= day - monday - 7 * (k * r.interval) < 7 { assert weeks == k * r.interval; }
  }

  lemma MonthsExactly(r: Rule, day: int)
    requires r.Valid() && r.freq == Monthly && !r.cron
    ensures IntervalMatches(r, day)
            <==> exists k: nat :: MonthOf(DateOf(day)) == MonthOf(DateOf(r.StartDay())) + k * r.interval
  {
    hide DateOf;
    var a, b := MonthOf(DateOf(day)), MonthOf(DateOf(r.StartDay()));
    MultipleExactly(a - b, r.interval);
    if k: nat :| a == b + k * r.interval { assert a - b == k * r.interval; }
    if k: nat :| a - b == k * r.interval { assert a == b + k * r.interval; }
  }

  function MonthOf(d: Date): int {
    12 * d.year + d.month
  }

  lemma YearsExactly(r: Rule, day: int)
    requires r.Valid() && r.freq == Yearly && !r.cron
    ensures IntervalMatches(r, day)
            <==> exists k: nat :: DateOf(day).year == DateOf(r.StartDay()).year + k * r.interval
  {
    hide DateOf;
    var a, b := DateOf(day).year, DateOf(r.StartDay()).year;
    MultipleExactly(a - b, r.interval);
    if k: nat :| a == b + k * r.interval { assert a - b == k * r.interval; }
    if k: nat :| a - b == k * r.interval { assert a == b + k * r.interval; }
  }

  // Hours and minutes are counted on the clock, from the start's own.
  lemma TimesExactly(r: Rule, c: int)
    requires r.Valid() && !r.cron
    ensures TimeMatches(r, c)
            <==> match r.freq
                 case Minutely => exists k: nat :: c == r.StartCivil() + k * r.interval
                 case Hourly => exists k: nat :: c / 60 == r.StartCivil() / 60 + k * r.interval
                 case _ => true
  {
    var s := r.StartCivil();
    MultipleExactly(c - s, r.interval);
    MultipleExactly(c / 60 - s / 60, r.interval);
    if k: nat :| c == s + k * r.interval { assert c - s == k * r.interval; }
    if k: nat :| c - s == k * r.interval { assert c == s + k * r.interval; }
    if k: nat :| c / 60 == s / 60 + k * r.interval { assert c / 60 - s / 60 == k * r.interval; }
    if k: nat :| c / 60 - s / 60 == k * r.interval { assert c / 60 == s / 60 + k * r.interval; }
  }

  // ---- Dates.

  // BYMONTHDAY: n from the front, and -n from the end, counting back from the first day of the
  // next month.
  lemma MonthDayExactly(r: Rule, day: int)
    ensures var d := DateOf(day);
            DayMatches(r, day)
            <==> d.day in r.days
                 || (exists n :: n in r.days && n < 0 && day - n == DayNumber(NextMonth(d.year, d.month)))
  {
    hide DayNumber, DateOf, Leap;
    var d := DateOf(day);
    DateIsDate(day);
    LastOfMonth(d.year, d.month);
    DateIsDate(DayNumber(NextMonth(d.year, d.month)) - 1);
    Frequencies.DaysOfMonth(d.year, d.month, d.day);
    Frequencies.DaysOfMonth(d.year, d.month, DaysIn(d.year, d.month));
  }

  // A cron date matches in both of its fields, but in either one when both are restricted.
  lemma CronDateExactly(r: Rule, day: int)
    requires r.Valid() && r.cron
    ensures var d := DateOf(day);
            DateMatches(r, day)
            <==> && d.month in r.months
                 && if !r.anyDay && !r.anyWeek then d.day in r.days || Weekday(day) in r.weekdays
                    else d.day in r.days && Weekday(day) in r.weekdays
  {
    hide DateOf;
    DateIsDate(day);
  }

  // The dates of a rule that is not cron.
  lemma DateExactly(r: Rule, day: int)
    requires r.Valid() && !r.cron
    ensures var d := DateOf(day);
            DateMatches(r, day)
            <==> && d.month in r.months && Weekday(day) in r.weekdays && IntervalMatches(r, day)
                 && (d.day in r.days
                     || exists n :: n in r.days && n < 0 && day - n == DayNumber(NextMonth(d.year, d.month)))
  {
    hide DateOf, DayNumber, IntervalMatches, DayMatches;
    MonthDayExactly(r, day);
  }

  // ---- A rule with nothing but FREQ and INTERVAL.

  // c is a civil minute that lies a multiple of the interval after s.
  ghost predicate Recurs(freq: Freq, interval: int, s: int, c: int) {
    match freq
    case Minutely => exists k: nat :: c == s + k * interval
    case Hourly => exists k: nat :: c == s + 60 * (k * interval)
    case Daily => exists k: nat :: c == s + DAY * (k * interval)
    case Weekly => exists k: nat :: c == s + 7 * DAY * (k * interval)
    case Monthly =>
      var d, e := DateOf(c / DAY), DateOf(s / DAY);
      c % DAY == s % DAY && d.day == e.day && exists k: nat :: MonthOf(d) == MonthOf(e) + k * interval
    case Yearly =>
      var d, e := DateOf(c / DAY), DateOf(s / DAY);
      c % DAY == s % DAY && d == e.(year := d.year) && exists k: nat :: d.year == e.year + k * interval
  }

  // The rule that such a text is read as.
  ghost predicate Plain(zone: Z.Zone, start: int, freq: Freq, interval: int, r: Rule) {
    exists values: map<R.Key, string>, subminute: bool ::
      values.Keys <= {R.FREQ, R.INTERVAL} && r == R.Base(zone, start, freq, values, subminute).(interval := interval)
  }

  lemma PlainFields(zone: Z.Zone, start: int, freq: Freq, interval: int, r: Rule)
    requires zone.Valid() && interval >= 1 && Plain(zone, start, freq, interval, r)
    ensures r.Valid() && !r.cron && r.freq == freq && r.interval == interval && r.zone == zone && r.start == Some(start)
    ensures r.count == 0 && r.until.None?
    ensures var s := r.StartCivil();
            var d := DateOf(s / DAY);
            && (forall v :: v in r.months <==> if freq.Yearly? then v == d.month else 1 <= v <= 12)
            && (forall v :: v in r.days <==> if freq.Monthly? || freq.Yearly? then v == d.day else 1 <= v <= 31)
            && (forall v :: v in r.weekdays <==> if freq.Weekly? then v == Weekday(s / DAY) else 0 <= v <= 6)
            && (forall v :: v in r.hours <==> if freq.Minutely? || freq.Hourly? then 0 <= v <= 23 else v == s % DAY / 60)
            && (forall v :: v in r.minutes <==> if freq.Minutely? then 0 <= v <= 59 else v == s % 60)
  {
    hide DateOf, Z.Zone.Local, Weekday;
    var values: map<R.Key, string>, subminute: bool :|
      values.Keys <= {R.FREQ, R.INTERVAL} && r == R.Base(zone, start, freq, values, subminute).(interval := interval);
    assert R.BYMONTHDAY !in values.Keys && R.BYDAY !in values.Keys;
  }

  lemma PlainDate(zone: Z.Zone, start: int, freq: Freq, interval: int, r: Rule, day: int)
    requires zone.Valid() && interval >= 1 && Plain(zone, start, freq, interval, r)
    ensures r.Valid() && !r.cron && r.start == Some(start)
    ensures var d, e := DateOf(day), DateOf(r.StartDay());
            DateMatches(r, day)
            <==> && IntervalMatches(r, day) && (freq.Yearly? ==> d.month == e.month)
                 && (freq.Monthly? || freq.Yearly? ==> d.day == e.day)
                 && (freq.Weekly? ==> Weekday(day) == Weekday(r.StartDay()))
  {
    hide DateOf, DayNumber, IntervalMatches, Z.Zone.Local, Plain;
    PlainFields(zone, start, freq, interval, r);
    DateExactly(r, day);
    DateIsDate(day);
    DateIsDate(r.StartDay());
  }

  lemma PlainTime(zone: Z.Zone, start: int, freq: Freq, interval: int, r: Rule, c: int)
    requires zone.Valid() && interval >= 1 && Plain(zone, start, freq, interval, r)
    ensures r.Valid() && !r.cron && r.start == Some(start)
    ensures var s := r.StartCivil();
            TimeListed(r, c)
            <==> && TimeMatches(r, c) && (!freq.Minutely? ==> c % 60 == s % 60)
                 && (!freq.Minutely? && !freq.Hourly? ==> c % DAY == s % DAY)
  {
    hide DateOf, DayNumber, TimeMatches, Z.Zone.Local, Plain;
    PlainFields(zone, start, freq, interval, r);
    var s := r.StartCivil();
    ClockTime(c, s);
  }

  lemma ClockTime(c: int, s: int)
    ensures 0 <= c % DAY / 60 <= 23 && 0 <= c % 60 <= 59
    ensures c % DAY / 60 == s % DAY / 60 && c % 60 == s % 60 <==> c % DAY == s % DAY
  {
    ClockParts(c);
    ClockParts(s);
  }

  lemma Rest(c: int, n: int, x: int)
    requires c == 60 * n + x && 0 <= x < 60
    ensures c % 60 == x
  {
  }

  lemma ClockParts(c: int)
    ensures c % DAY == c % DAY / 60 * 60 + c % 60
  {
    var hours := 24 * (c / DAY) + c % DAY / 60;
    assert c == 60 * hours + c % DAY % 60;
    Rest(c, hours, c % DAY % 60);
  }

  lemma ClockHours(c: int, s: int, n: int)
    ensures c % 60 == s % 60 && c / 60 == s / 60 + n <==> c == s + 60 * n
  {
  }

  lemma ClockDays(c: int, s: int, n: int)
    ensures c % DAY == s % DAY && c / DAY == s / DAY + n <==> c == s + DAY * n
  {
  }

  lemma PlainHours(interval: int, s: int, c: int)
    ensures (c % 60 == s % 60 && exists k: nat :: c / 60 == s / 60 + k * interval) <==> Recurs(Hourly, interval, s, c)
  {
    if k: nat :| c / 60 == s / 60 + k * interval { ClockHours(c, s, k * interval); }
    if k: nat :| c == s + 60 * (k * interval) { ClockHours(c, s, k * interval); }
  }

  lemma PlainDays(interval: int, s: int, c: int)
    ensures (c % DAY == s % DAY && exists k: nat :: c / DAY == s / DAY + k * interval) <==> Recurs(Daily, interval, s, c)
  {
    if k: nat :| c / DAY == s / DAY + k * interval { ClockDays(c, s, k * interval); }
    if k: nat :| c == s + DAY * (k * interval) { ClockDays(c, s, k * interval); }
  }

  lemma SameWeekday(a: int, b: int, monday: int, weeks: int)
    requires Weekday(monday) == 1 && monday <= a < monday + 7
    ensures Weekday(b) == Weekday(a) && 0 <= b - monday - 7 * weeks < 7 <==> b == a + 7 * weeks
  {
  }

  lemma PlainWeeks(interval: int, s: int, c: int, monday: int)
    requires Weekday(monday) == 1 && monday <= s / DAY < monday + 7
    ensures (&& c % DAY == s % DAY && Weekday(c / DAY) == Weekday(s / DAY)
             && exists k: nat :: 0 <= c / DAY - monday - 7 * (k * interval) < 7)
            <==> Recurs(Weekly, interval, s, c)
  {
    hide Weekday;
    if k: nat :| 0 <= c / DAY - monday - 7 * (k * interval) < 7 {
      SameWeekday(s / DAY, c / DAY, monday, k * interval);
      ClockDays(c, s, 7 * (k * interval));
      if c % DAY == s % DAY && Weekday(c / DAY) == Weekday(s / DAY) { assert c == s + 7 * DAY * (k * interval); }
    }
    if k: nat :| c == s + 7 * DAY * (k * interval) {
      ClockDays(c, s, 7 * (k * interval));
      SameWeekday(s / DAY, c / DAY, monday, k * interval);
      assert 0 <= c / DAY - monday - 7 * (k * interval) < 7;
    }
  }

  lemma EveryDay(r: Rule, day: int)
    requires r.Valid() && !r.cron && (r.freq == Minutely || r.freq == Hourly)
    ensures IntervalMatches(r, day)
  {
  }

  // Such a rule selects the civil minutes at multiples of its interval after the start's, and no
  // other: minutes, hours and days on the clock, weeks on the start's weekday, months and years
  // on its date.
  lemma PlainExactly(zone: Z.Zone, start: int, freq: Freq, interval: int, r: Rule, c: int)
    requires zone.Valid() && interval >= 1 && Plain(zone, start, freq, interval, r)
    requires c / DAY >= zone.Local(start / MINUTE) / DAY
    ensures r.Valid() && (DateMatches(r, c / DAY) && TimeListed(r, c)
                          <==> Recurs(freq, interval, zone.Local(start / MINUTE), c))
  {
    hide DateOf, DayNumber, IntervalMatches, TimeMatches, TimeListed, DateMatches, Weekday, Z.Zone.Local, Plain, Monday;
    hide Recurs, MonthOf, Rule.StartCivil, Rule.StartDay;
    PlainFields(zone, start, freq, interval, r);
    PlainStart(r);
    ClockTime(c, r.StartCivil());
    PlainDate(zone, start, freq, interval, r, c / DAY);
    PlainTime(zone, start, freq, interval, r, c);
    match freq
    case Minutely => PlainClock(r, c);
    case Hourly => PlainClock(r, c);
    case Daily => PlainDaily(r, c);
    case Weekly => PlainWeekly(r, c);
    case Monthly => PlainMonthly(r, c);
    case Yearly => PlainYearly(r, c);
  }

  lemma PlainStart(r: Rule)
    requires r.start.Some?
    ensures r.StartCivil() == r.zone.Local(r.start.value / MINUTE) && r.StartDay() == r.StartCivil() / DAY
  {
  }

  lemma PlainClock(r: Rule, c: int)
    requires r.Valid() && !r.cron && r.freq in {Minutely, Hourly}
    ensures var s := r.StartCivil();
            IntervalMatches(r, c / DAY) && TimeMatches(r, c) && (r.freq.Hourly? ==> c % 60 == s % 60)
            <==> Recurs(r.freq, r.interval, s, c)
  {
    hide TimeMatches, Z.Zone.Local;
    EveryDay(r, c / DAY);
    TimesExactly(r, c);
    if r.freq.Hourly? { PlainHours(r.interval, r.StartCivil(), c); }
  }

  lemma PlainDaily(r: Rule, c: int)
    requires r.Valid() && !r.cron && r.freq == Daily
    ensures var s := r.StartCivil();
            IntervalMatches(r, c / DAY) && TimeMatches(r, c) && c % DAY == s % DAY <==> Recurs(Daily, r.interval, s, c)
  {
    hide IntervalMatches, TimeMatches, Recurs, Z.Zone.Local;
    TimesExactly(r, c);
    DaysExactly(r, c / DAY);
    PlainDays(r.interval, r.StartCivil(), c);
  }

  lemma PlainWeekly(r: Rule, c: int)
    requires r.Valid() && !r.cron && r.freq == Weekly && c / DAY >= r.StartDay()
    ensures var s := r.StartCivil();
            (&& IntervalMatches(r, c / DAY) && TimeMatches(r, c) && c % DAY == s % DAY
             && Weekday(c / DAY) == Weekday(s / DAY)) <==> Recurs(Weekly, r.interval, s, c)
  {
    hide IntervalMatches, TimeMatches, Recurs, Weekday, Monday, Z.Zone.Local;
    var s := r.StartCivil();
    TimesExactly(r, c);
    Frequencies.MondayIs(s / DAY);
    WeeksExactly(r, c / DAY, Monday(s / DAY));
    PlainWeeks(r.interval, s, c, Monday(s / DAY));
  }

  lemma PlainMonthly(r: Rule, c: int)
    requires r.Valid() && !r.cron && r.freq == Monthly
    ensures var s := r.StartCivil();
            (&& IntervalMatches(r, c / DAY) && TimeMatches(r, c) && c % DAY == s % DAY
             && DateOf(c / DAY).day == DateOf(s / DAY).day) <==> Recurs(Monthly, r.interval, s, c)
  {
    hide IntervalMatches, TimeMatches, Recurs, DateOf, MonthOf, Z.Zone.Local;
    TimesExactly(r, c);
    MonthsExactly(r, c / DAY);
    PlainRecurs(Monthly, r.interval, r.StartCivil(), c);
  }

  lemma PlainYearly(r: Rule, c: int)
    requires r.Valid() && !r.cron && r.freq == Yearly
    ensures var s := r.StartCivil();
            var d, e := DateOf(c / DAY), DateOf(s / DAY);
            IntervalMatches(r, c / DAY) && TimeMatches(r, c) && c % DAY == s % DAY && d == e.(year := d.year)
            <==> Recurs(Yearly, r.interval, s, c)
  {
    hide IntervalMatches, TimeMatches, Recurs, DateOf, Z.Zone.Local;
    TimesExactly(r, c);
    YearsExactly(r, c / DAY);
    PlainRecurs(Yearly, r.interval, r.StartCivil(), c);
  }

  lemma PlainRecurs(freq: Freq, interval: int, s: int, c: int)
    ensures var d, e := DateOf(c / DAY), DateOf(s / DAY);
            match freq
            case Minutely => Recurs(freq, interval, s, c) <==> exists k: nat :: c == s + k * interval
            case Monthly =>
              Recurs(freq, interval, s, c)
              <==> c % DAY == s % DAY && d.day == e.day && exists k: nat :: MonthOf(d) == MonthOf(e) + k * interval
            case Yearly =>
              Recurs(freq, interval, s, c)
              <==> c % DAY == s % DAY && d == e.(year := d.year) && exists k: nat :: d.year == e.year + k * interval
            case _ => true
  {
    hide DateOf;
  }

  // The text of such a rule is read as one.
  lemma PlainRead(zone: Z.Zone, start: int, freq: Freq, values: map<R.Key, string>, subminute: bool,
                  clock: string -> Option<int>, r: Rule)
    requires R.Read(values, values.Keys, clock, R.Base(zone, start, freq, values, subminute), r)
    requires values.Keys <= {R.FREQ, R.INTERVAL}
    ensures Plain(zone, start, freq, r.interval, r)
  {
    hide R.ListOf, R.DayIndexes, DateOf, Weekday, Z.Zone.Local;
    var base := R.Base(zone, start, freq, values, subminute);
    assert R.BYMINUTE !in values.Keys && R.BYHOUR !in values.Keys && R.BYMONTH !in values.Keys;
    assert R.BYMONTHDAY !in values.Keys && R.BYDAY !in values.Keys && R.COUNT !in values.Keys && R.UNTIL !in values.Keys;
    assert r == base.(interval := r.interval);
  }

  // The instant of a civil minute: the first one whose clock shows the minute or a later one,
  // with the seconds of the start where the clock shows that very minute.
  lemma InstantExactly(r: Rule, c: int, t: int)
    requires r.Valid() && r.zone.Local(t) >= c && forall s :: s < t ==> r.zone.Local(s) < c
    ensures At(r, c) == t * 60_000_000_000
                        + if r.subminute && r.start.Some? && r.zone.Local(t) == c then r.start.value % 60_000_000_000 else 0
  {
    Z.FirstIs(r.zone, c, t);
  }

  // The series of such a rule.
  lemma PlainSeries(zone: Z.Zone, start: int, freq: Freq, interval: int, r: Rule, x: int)
    requires zone.Valid() && interval >= 1 && Plain(zone, start, freq, interval, r)
    ensures r.Valid()
    ensures InSeries(r, x)
            <==> x >= start && exists c :: && c / DAY >= zone.Local(start / MINUTE) / DAY
                                           && Recurs(freq, interval, zone.Local(start / MINUTE), c) && x == At(r, c)
  {
    hide DateOf, TimeListed, DateMatches, Z.Zone.Local, Plain, Recurs, At;
    PlainFields(zone, start, freq, interval, r);
    if InSeries(r, x) {
      var c :| c / DAY >= r.StartDay() && Hits(r, c, x);
      PlainExactly(zone, start, freq, interval, r, c);
    }
    if c :| x >= start && c / DAY >= r.StartDay() && Recurs(freq, interval, zone.Local(start / MINUTE), c) && x == At(r, c) {
      PlainExactly(zone, start, freq, interval, r, c);
      assert Hits(r, c, x);
    }
  }

  // The start itself is a member, unless the clock showed its minute before.
  lemma StartOccurs(zone: Z.Zone, start: int, freq: Freq, interval: int, r: Rule)
    requires zone.Valid() && interval >= 1 && Plain(zone, start, freq, interval, r) && (r.subminute || start % MINUTE == 0)
    requires forall s :: s < start / MINUTE ==> zone.Local(s) < zone.Local(start / MINUTE)
    ensures r.Valid() && InSeries(r, start)
  {
    hide DateOf, Z.Zone.Local, Plain;
    PlainFields(zone, start, freq, interval, r);
    var s := zone.Local(start / MINUTE);
    InstantExactly(r, s, start / MINUTE);
    assert s + 0 * interval == s && Recurs(freq, interval, s, s) by { StartRecurs(freq, interval, s); }
    PlainSeries(zone, start, freq, interval, r, start);
  }

  lemma StartRecurs(freq: Freq, interval: int, s: int)
    ensures Recurs(freq, interval, s, s)
  {
    hide DateOf;
    var k: nat := 0;
    assert k * interval == 0;
  }

  // ---- A clock that never changes.

  lemma Steady(off: int, c: int)
    requires -DAY < off < DAY
    ensures var z := Z.Zone(off, []); z.Valid() && z.Local(c - off) == c && Z.First(z, c) == c - off
  {
    Z.FirstIs(Z.Zone(off, []), c, c - off);
  }

  // The k-th instant of a daily rule there.
  function DayAt(start: int, interval: int, k: nat): int {
    start + k * interval * (DAY * MINUTE)
  }

  lemma DailyGrows(start: int, interval: int, k: nat, n: nat)
    requires interval >= 1
    ensures DayAt(start, interval, k) > DayAt(start, interval, n) <==> k > n
    ensures DayAt(start, interval, 0) == start
    ensures DayAt(start, interval, n + 1) == DayAt(start, interval, n) + interval * (DAY * MINUTE)
  {
    assert (n + 1) * interval == n * interval + interval;
    if k > n {
      assert (k - n) * interval >= 1 && k * interval == n * interval + (k - n) * interval;
    } else {
      assert (n - k) * interval >= 0 && n * interval == k * interval + (n - k) * interval;
    }
  }

  lemma WhichDay(interval: int, s: int, c: int) returns (k: nat)
    requires Recurs(Daily, interval, s, c)
    ensures c == s + DAY * (k * interval)
  {
    k :| c == s + DAY * (k * interval);
  }

  lemma DailySeries(off: int, start: int, interval: int, r: Rule, x: int)
    requires -DAY < off < DAY && 1 <= interval <= 100000 && start % MINUTE == 0
    requires Plain(Z.Zone(off, []), start, Daily, interval, r)
    ensures r.Valid() && Frequencies.Unlimited(r)
    ensures InSeries(r, x) <==> exists k: nat :: x == DayAt(start, interval, k)
  {
    hide DateOf, Z.Zone.Local, Plain, InSeries, Z.Zone.Valid, At, DayAt;
    var zone, first := Z.Zone(off, []), start / MINUTE;
    Steady(off, 0);
    PlainFields(zone, start, Daily, interval, r);
    PlainSeries(zone, start, Daily, interval, r, x);
    Steady(off, first + off);
    var s := zone.Local(first);
    assert s == first + off;
    if InSeries(r, x) {
      var c :| Recurs(Daily, interval, s, c) && x == At(r, c);
      var k := WhichDay(interval, s, c);
      DailyInstant(off, start, interval, r, k);
    }
    if k: nat :| x == DayAt(start, interval, k) {
      DailyInstant(off, start, interval, r, k);
      var c := s + DAY * (k * interval);
      if k > 0 { DailyGrows(start, interval, k, 0); } else { DailyGrows(start, interval, 0, 0); }
      assert Recurs(Daily, interval, s, c);
      assert k * interval >= 0 && c / DAY >= s / DAY;
    }
  }

  lemma DailyInstant(off: int, start: int, interval: int, r: Rule, k: nat)
    requires -DAY < off < DAY && start % MINUTE == 0 && r.Valid() && r.zone == Z.Zone(off, []) && r.start == Some(start)
    ensures At(r, start / MINUTE + off + DAY * (k * interval)) == DayAt(start, interval, k)
  {
    hide Z.Zone.Local;
    var c := start / MINUTE + off + DAY * (k * interval);
    Steady(off, c);
    assert start == start / MINUTE * MINUTE;
  }

  // There, consecutive instants of a daily rule are INTERVAL days apart, from the start on.
  method NextDaily(off: int, start: int, interval: int, r: Rule, k: nat) returns (res: Outcome)
    requires -DAY < off < DAY && 1 <= interval <= 100000 && start % MINUTE == 0
    requires Plain(Z.Zone(off, []), start, Daily, interval, r)
    ensures res == Found(DayAt(start, interval, k + 1))
    ensures DayAt(start, interval, k + 1) == DayAt(start, interval, k) + interval * 86_400_000_000_000
  {
    hide DateOf, Z.Zone.Local, Plain, InSeries, Z.Zone.Valid, NoneBefore, DateMatches, DayAt, Frequencies.Unlimited;
    ghost var after := DayAt(start, interval, k);
    DailySeries(off, start, interval, r, after);
    forall x { DailySeries(off, start, interval, r, x); }
    assert InSeries(r, DayAt(start, interval, k + 1));
    DailyGrows(start, interval, k + 1, k);
    DailyGrows(start, interval, k, k);
    res := Horizon.Next(r, DayAt(start, interval, k));
    ghost var n: nat :| res.at == DayAt(start, interval, n);
    DailyGrows(start, interval, n, k);
    DailyGrows(start, interval, n, k + 1);
    DailyGrows(start, interval, k + 1, n);
  }
}
