// Recurrence rules and the search for their next instant (kit/calendar/schedule.go).
// Instants are nanoseconds since 1970, civil times are minutes.
module Schedule {
  import opened Wrappers
  import opened Gregorian
  import Z = Zone

  const DAY := 1440
  const MINUTE := 60_000_000_000

  datatype Freq = Minutely | Hourly | Daily | Weekly | Monthly | Yearly

  // A parsed rule; only a cron rule has no start.
  datatype Rule = Rule(
    zone: Z.Zone, hours: seq<int>, minutes: seq<int>, months: seq<int>, days: seq<int>, weekdays: seq<int>,
    cron: bool, anyDay: bool, anyWeek: bool, freq: Freq, interval: int, start: Option<int>, until: Option<int>,
    count: int, subminute: bool)
  {
    // What parse leaves behind.
    ghost predicate Valid() {
      && zone.Valid() && interval >= 1 && count >= 0
      && (cron <==> start.None?) && (cron ==> until.None? && count == 0)
      && hours != [] && (forall i :: 0 <= i < |hours| ==> 0 <= hours[i] < 24)
      && minutes != [] && (forall i :: 0 <= i < |minutes| ==> 0 <= minutes[i] < 60)
      && (cron ==> forall i :: 0 <= i < |days| ==> 1 <= days[i])
    }

    // What clocks show at the start, and its seconds.
    function StartCivil(): int
      requires start.Some?
    {
      zone.Local(start.value / MINUTE)
    }

    function StartDay(): int
      requires start.Some?
    {
      StartCivil() / DAY
    }
  }

  // Go divides toward zero.
  function TruncDiv(a: int, b: int): int
    requires b > 0
  {
    if a >= 0 then a / b else -(-a / b)
  }

  predicate Nth(n: int, interval: int)
    requires interval >= 1
  {
    n >= 0 && n % interval == 0
  }

  function Monday(day: int): int {
    day - (Weekday(day) + 6) % 7
  }

  predicate DayMatches(r: Rule, day: int) {
    var d := DateOf(day);
    d.day in r.days || d.day - DaysIn(d.year, d.month) - 1 in r.days
  }

  predicate WeekMatches(r: Rule, day: int) {
    Weekday(day) in r.weekdays
  }

  // The days, weeks, months or years of a rule's interval.
  predicate IntervalMatches(r: Rule, day: int)
    requires r.Valid() && !r.cron
  {
    match r.freq
    case Daily => Nth(day - r.StartDay(), r.interval)
    case Weekly => Nth(TruncDiv(day - Monday(r.StartDay()), 7), r.interval)
    case Monthly =>
      var d, s := DateOf(day), DateOf(r.StartDay());
      Nth((d.year - s.year) * 12 + d.month - s.month, r.interval)
    case Yearly => Nth(DateOf(day).year - DateOf(r.StartDay()).year, r.interval)
    case _ => true
  }

  // A cron date with neither field open matches on either of them.
  predicate DateMatches(r: Rule, day: int)
    requires r.Valid()
  {
    && DateOf(day).month in r.months
    && if r.cron && !r.anyDay && !r.anyWeek then DayMatches(r, day) || WeekMatches(r, day)
       else DayMatches(r, day) && WeekMatches(r, day) && (r.cron || IntervalMatches(r, day))
  }

  predicate TimeMatches(r: Rule, c: int)
    requires r.Valid()
  {
    r.cron ||
    match r.freq
    case Minutely => Nth(c - r.StartCivil(), r.interval)
    case Hourly => Nth(c / 60 - r.StartCivil() / 60, r.interval)
    case _ => true
  }

  predicate TimeListed(r: Rule, c: int)
    requires r.Valid()
  {
    c % DAY / 60 in r.hours && c % 60 in r.minutes && TimeMatches(r, c)
  }

  // The instant of a civil minute; rules with seconds keep those of the start, except in a gap.
  function At(r: Rule, c: int): int
    requires r.Valid()
  {
    var at := Z.First(r.zone, c);
    at * MINUTE + if r.subminute && r.start.Some? && r.zone.Local(at) == c then r.start.value % MINUTE else 0
  }

  ghost predicate Hits(r: Rule, c: int, x: int)
    requires r.Valid()
  {
    DateMatches(r, c / DAY) && HitsTime(r, c, x)
  }

  ghost predicate HitsTime(r: Rule, c: int, x: int)
    requires r.Valid()
  {
    TimeListed(r, c) && x == At(r, c) && (r.start.Some? ==> x >= r.start.value)
  }

  // x is an instant of the rule from some civil minute of day d or later.
  ghost predicate OccursFrom(r: Rule, d: int, x: int)
    requires r.Valid()
  {
    exists c :: c >= d * DAY && Hits(r, c, x)
  }

  ghost predicate OccursBefore(r: Rule, d: int, e: int, x: int)
    requires r.Valid()
  {
    exists c :: d * DAY <= c < e * DAY && Hits(r, c, x)
  }

  // The instants of a rule: those of civil minutes not before the start's own date.
  ghost predicate Occurs(r: Rule, x: int)
    requires r.Valid()
  {
    exists c :: (r.start.Some? ==> c / DAY >= r.StartDay()) && Hits(r, c, x)
  }

  ghost predicate Increasing(s: seq<int>) {
    forall i, j :: 0 <= i < j < |s| ==> s[i] < s[j]
  }

  // s lists the instants before x.
  ghost predicate Earlier(r: Rule, x: int, s: seq<int>)
    requires r.Valid()
  {
    Increasing(s) && forall y :: y in s <==> Occurs(r, y) && y < x
  }

  // The series: the instants up to UNTIL, and with COUNT only that many.
  ghost predicate InSeries(r: Rule, x: int)
    requires r.Valid()
  {
    && Occurs(r, x)
    && (r.until.Some? ==> x <= r.until.value)
    && (r.count > 0 ==> exists s :: Earlier(r, x, s) && |s| < r.count)
  }

  // ---- Order.

  // Later civil minutes never have earlier instants, seconds included.
  lemma AtGrows(r: Rule, c: int, d: int)
    requires r.Valid() && c <= d
    ensures At(r, c) <= At(r, d)
  {
    Z.FirstGrows(r.zone, c, d);
    assert r.start.Some? ==> 0 <= r.start.value % MINUTE < MINUTE;
  }

  lemma AtNear(r: Rule, c: int)
    requires r.Valid()
    ensures (c - DAY) * MINUTE < At(r, c) < (c + DAY + 1) * MINUTE
  {
    assert r.start.Some? ==> 0 <= r.start.value % MINUTE < MINUTE;
  }

  // A civil minute that clocks have passed at an instant has its own instant no later.
  lemma AtPassed(r: Rule, c: int, x: int)
    requires r.Valid() && c < r.zone.Local(x / MINUTE)
    ensures At(r, c) <= x
  {
    var f := Z.First(r.zone, c);
    assert f <= x / MINUTE;
    assert r.start.Some? ==> 0 <= r.start.value % MINUTE < MINUTE;
    assert r.zone.Local(f) == c ==> f < x / MINUTE;
  }

  // A matching civil minute of a date before the start's own date can only give the start
  // itself, where the clocks jump to it over that minute.
  lemma BeforeStart(r: Rule, c: int, x: int)
    requires r.Valid() && r.start.Some? && Hits(r, c, x) && c / DAY < r.StartDay()
    ensures x == r.start.value && r.zone.Local(Z.First(r.zone, c)) > c
  {
    assert c < r.StartCivil();
    AtPassed(r, c, r.start.value);
    var f := Z.First(r.zone, c);
    assert f <= r.start.value / MINUTE;
  }

  // ---- The instants of one day.

  function Civil(day: int, h: int, m: int): int {
    day * DAY + h * 60 + m
  }

  // x is an instant of the rule's times of day on that day.
  ghost predicate OccursOn(r: Rule, day: int, x: int)
    requires r.Valid()
  {
    exists c :: Z.OnDay(day, c) && HitsTime(r, c, x)
  }

  // Instants from the given minutes of one hour.
  ghost predicate InHour(r: Rule, day: int, h: int, minutes: seq<int>, x: int)
    requires r.Valid()
  {
    exists j :: 0 <= j < |minutes| && InMinute(r, Civil(day, h, minutes[j]), x)
  }

  ghost predicate InMinute(r: Rule, c: int, x: int)
    requires r.Valid()
  {
    TimeMatches(r, c) && x == At(r, c) && (r.start.Some? ==> x >= r.start.value)
  }

  ghost predicate InHours(r: Rule, day: int, hours: seq<int>, x: int)
    requires r.Valid()
  {
    exists i :: 0 <= i < |hours| && InHour(r, day, hours[i], r.minutes, x)
  }

  lemma InHoursOccurs(r: Rule, day: int, x: int)
    requires r.Valid() && InHours(r, day, r.hours, x)
    ensures OccursOn(r, day, x)
  {
    var i :| 0 <= i < |r.hours| && InHour(r, day, r.hours[i], r.minutes, x);
    var j :| 0 <= j < |r.minutes| && InMinute(r, Civil(day, r.hours[i], r.minutes[j]), x);
    CivilParts(day, r.hours[i], r.minutes[j]);
    assert HitsTime(r, Civil(day, r.hours[i], r.minutes[j]), x);
  }

  lemma OccursInHours(r: Rule, day: int, x: int)
    requires r.Valid() && OccursOn(r, day, x)
    ensures InHours(r, day, r.hours, x)
  {
    var c :| Z.OnDay(day, c) && HitsTime(r, c, x);
    var i :| 0 <= i < |r.hours| && r.hours[i] == c % DAY / 60;
    var j :| 0 <= j < |r.minutes| && r.minutes[j] == c % 60;
    PartsCivil(day, c);
    assert InMinute(r, Civil(day, r.hours[i], r.minutes[j]), x);
    assert InHour(r, day, r.hours[i], r.minutes, x);
  }

  lemma CivilParts(day: int, h: int, m: int)
    requires 0 <= h < 24 && 0 <= m < 60
    ensures var c := Civil(day, h, m); c / DAY == day && c % DAY / 60 == h && c % 60 == m && Z.OnDay(day, c)
  {
    assert Civil(day, h, m) == 60 * (24 * day + h) + m;
  }

  lemma PartsCivil(day: int, c: int)
    requires Z.OnDay(day, c)
    ensures Civil(day, c % DAY / 60, c % 60) == c
  {
    assert c % DAY == c - day * DAY;
    assert c % DAY % 60 == c % 60;
  }

  // The instant of one civil minute, None for one that the rule does not name or that is
  // before the start.
  method MinuteInstant(r: Rule, day: int, c: int, offsets: seq<int>, gaps: seq<Z.Gap>) returns (x: Option<int>)
    requires r.Valid() && Z.OnDay(day, c)
    requires offsets == Z.OffsetsIn(r.zone, Z.Low(r.zone, day), Z.High(r.zone, day) + 1)
    requires gaps == Z.GapsIn(r.zone, Z.Low(r.zone, day), Z.High(r.zone, day))
    ensures forall y :: InMinute(r, c, y) <==> x == Some(y)
  {
    if !TimeMatches(r, c) { return None; }
    Z.WindowCovers(r.zone, day, c);
    Z.WindowBridges(r.zone, day, c);
    var at := Z.ResolveCivil(r.zone, c, offsets, gaps);
    var y := at.value * MINUTE;
    if r.subminute && r.start.Some? && r.zone.Local(at.value) == c { y := y + r.start.value % MINUTE; }
    x := if r.start.Some? && y < r.start.value then None else Some(y);
  }

  method HourInstants(r: Rule, day: int, h: int, offsets: seq<int>, gaps: seq<Z.Gap>) returns (xs: seq<int>)
    requires r.Valid() && 0 <= h < 24
    requires offsets == Z.OffsetsIn(r.zone, Z.Low(r.zone, day), Z.High(r.zone, day) + 1)
    requires gaps == Z.GapsIn(r.zone, Z.Low(r.zone, day), Z.High(r.zone, day))
    ensures forall x :: x in xs <==> InHour(r, day, h, r.minutes, x)
  {
    xs := [];
    for j := 0 to |r.minutes|
      invariant forall x :: x in xs <==> InHour(r, day, h, r.minutes[..j], x)
    {
      CivilParts(day, h, r.minutes[j]);
      var at := MinuteInstant(r, day, Civil(day, h, r.minutes[j]), offsets, gaps);
      forall x { OneMoreMinute(r, day, h, j, x); }
      if at.Some? { xs := xs + [at.value]; }
    }
    assert r.minutes[..|r.minutes|] == r.minutes;
  }

  lemma OneMoreMinute(r: Rule, day: int, h: int, j: nat, x: int)
    requires r.Valid() && j < |r.minutes|
    ensures InHour(r, day, h, r.minutes[..j + 1], x) <==>
              InHour(r, day, h, r.minutes[..j], x) || InMinute(r, Civil(day, h, r.minutes[j]), x)
  {
    var less, more := r.minutes[..j], r.minutes[..j + 1];
    assert more == less + [r.minutes[j]];
    if InHour(r, day, h, more, x) {
      var k :| 0 <= k < |more| && InMinute(r, Civil(day, h, more[k]), x);
      if k < j { assert InMinute(r, Civil(day, h, less[k]), x); }
    }
    if InHour(r, day, h, less, x) {
      var k :| 0 <= k < |less| && InMinute(r, Civil(day, h, less[k]), x);
      assert InMinute(r, Civil(day, h, more[k]), x);
    }
    assert more[j] == r.minutes[j];
  }

  method DayInstants(r: Rule, day: int) returns (xs: seq<int>)
    requires r.Valid()
    ensures forall x :: x in xs <==> OccursOn(r, day, x)
  {
    var offsets, gaps := Z.ZoneDay(r.zone, day);
    xs := [];
    for i := 0 to |r.hours|
      invariant forall x :: x in xs <==> InHours(r, day, r.hours[..i], x)
    {
      var hour := HourInstants(r, day, r.hours[i], offsets, gaps);
      forall x { OneMoreHour(r, day, i, x); }
      xs := xs + hour;
    }
    assert r.hours[..|r.hours|] == r.hours;
    forall x ensures x in xs <==> OccursOn(r, day, x) {
      if x in xs { InHoursOccurs(r, day, x); }
      if OccursOn(r, day, x) { OccursInHours(r, day, x); }
    }
  }

  lemma OneMoreHour(r: Rule, day: int, i: nat, x: int)
    requires r.Valid() && i < |r.hours|
    ensures InHours(r, day, r.hours[..i + 1], x) <==>
              InHours(r, day, r.hours[..i], x) || InHour(r, day, r.hours[i], r.minutes, x)
  {
    var less, more := r.hours[..i], r.hours[..i + 1];
    assert more == less + [r.hours[i]];
    if InHours(r, day, more, x) {
      var k :| 0 <= k < |more| && InHour(r, day, more[k], r.minutes, x);
      if k < i { assert InHour(r, day, less[k], r.minutes, x); }
    }
    if InHours(r, day, less, x) {
      var k :| 0 <= k < |less| && InHour(r, day, less[k], r.minutes, x);
      assert InHour(r, day, more[k], r.minutes, x);
    }
    assert more[i] == r.hours[i];
  }
}
