// The 400-year horizon of Schedule.Next, and the whole of Next (kit/calendar/schedule.go).
module Horizon {
  import opened Wrappers
  import opened Gregorian
  import Z = Zone
  import opened Schedule
  import opened NextInstant
  import opened Frequencies

  // ---- Cron: dates repeat with the calendar.

  lemma CronRepeats(r: Rule, day: int, other: int)
    requires r.Valid() && r.cron && Alike(day, other)
    ensures DateMatches(r, other) <==> DateMatches(r, day)
  {
    DateIsDate(day);
    DateIsDate(other);
    var d, e := DateOf(day), DateOf(other);
    assert d.day - DaysIn(d.year, d.month) - 1 !in r.days && e.day - DaysIn(e.year, e.month) - 1 !in r.days;
  }

  lemma AlikeBack(a: int, b: int)
    requires Alike(a, b)
    ensures Alike(b, a)
  {
  }

  // Every day has one like it in every period, three days into it or later.
  lemma AlikeInside(day: int, d: int) returns (other: int)
    ensures Alike(day, other) && d + 3 <= other < d + PERIOD
  {
    var k := (day - d) / PERIOD;
    other := day - k * PERIOD;
    if k >= 0 { PeriodsAlike(other, k); AlikeBack(other, day); } else { PeriodsAlike(day, -k); }
    if other < d + 3 {
      var twin := Recurs(other);
      PeriodAlike(twin, twin + PERIOD);
      AlikeChain(day, other, twin);
      AlikeChain(day, twin, twin + PERIOD);
      other := if twin < other then twin + PERIOD else twin;
    }
  }

  // A cron date that occurs at all occurs in every period, three days into it or later.
  lemma CronRecurs(r: Rule, day: int, d: int) returns (other: int)
    requires r.Valid() && r.cron && DateMatches(r, day)
    ensures DateMatches(r, other) && d + 3 <= other < d + PERIOD
  {
    other := AlikeInside(day, d);
    CronRepeats(r, day, other);
  }

  // When the search of a cron rule runs out, no date ever matches.
  lemma CronBeyond(r: Rule, after: int)
    requires r.Valid() && r.cron && NoneBefore(r, FirstDay(r, after), FirstDay(r, after) + PERIOD, after)
    ensures forall day :: !DateMatches(r, day)
  {
    forall day ensures !DateMatches(r, day) {
      if DateMatches(r, day) {
        var other := CronRecurs(r, day, FirstDay(r, after));
        var c := Civil(other, r.hours[0], r.minutes[0]);
        CivilParts(other, r.hours[0], r.minutes[0]);
        InsideWindow(r, after, c);
      }
    }
  }

  // ---- Next.

  // x comes from a civil minute of the 400 years that Next searches.
  ghost predicate InWindow(r: Rule, after: int, x: int)
    requires r.Valid()
  {
    OccursBefore(r, FirstDay(r, after), FirstDay(r, after) + PERIOD, x)
  }

  method Next(r: Rule, after: int) returns (res: Outcome)
    requires r.Valid()
    // The least member of the series after `after`; Exhausted when there is none.
    ensures res.Found? ==> InSeries(r, res.at) && res.at > after && forall x :: InSeries(r, x) && x > after ==> x >= res.at
    ensures res.Exhausted? ==> forall x :: InSeries(r, x) ==> x <= after
    // It is found exactly when some later member comes from a civil day of the 400 years that
    // are searched: for a rule with COUNT those after its start, for others those after `after`.
    ensures res.Found? <==> exists x :: InSeries(r, x) && x > after && InWindow(r, after, x)
    // Otherwise none comes from a civil day of these 400 years,
    ensures res.Beyond? ==> NoneBefore(r, FirstDay(r, after), FirstDay(r, after) + PERIOD, after)
    // which for a cron rule means that none ever comes, and that no date matches at all;
    ensures r.cron ==> !res.Exhausted? && (res.Beyond? <==> forall day :: !DateMatches(r, day))
    // rules that are limited to an interval, weekdays or times of day do not get there.
    ensures Unlimited(r) ==> res.Found?
  {
    res := Search(r, after);
    match res
    case Found(at) => NextInSeries(r, after, at);
    case Exhausted => NoneInSeries(r, after);
    case Beyond =>
      if r.cron { CronBeyond(r, after); }
      if Unlimited(r) { UnlimitedInside(r, after); }
  }

  // Repeated calls enumerate the series in order: n members after `after`, none left out.
  method Enumerate(r: Rule, after: int, n: nat) returns (xs: seq<int>, res: Outcome)
    requires r.Valid()
    ensures Increasing(xs) && |xs| <= n && (forall x :: x in xs ==> InSeries(r, x) && x > after)
    ensures forall x :: InSeries(r, x) && after < x && (xs != [] && x <= xs[|xs| - 1]) ==> x in xs
    ensures |xs| < n ==> !res.Found?
    ensures |xs| < n && res.Exhausted? ==> forall x :: InSeries(r, x) && x > after ==> x in xs
    ensures r.count > 0 ==> |xs| <= r.count
  {
    xs, res := [], Found(after);
    var at := after;
    while |xs| < n
      invariant Listed(r, after, at, xs) && |xs| <= n
    {
      res := Next(r, at);
      if !res.Found? { break; }
      ListedMore(r, after, at, xs, res.at);
      xs, at := xs + [res.at], res.at;
    }
    if r.count > 0 { SeriesWithinCount(r, xs); }
  }

  // xs lists the members of the series after `after` and up to `at`.
  ghost predicate Listed(r: Rule, after: int, at: int, xs: seq<int>)
    requires r.Valid()
  {
    && Increasing(xs) && at == (if xs == [] then after else xs[|xs| - 1])
    && (forall x :: x in xs <==> InSeries(r, x) && after < x <= at)
  }

  lemma ListedMore(r: Rule, after: int, at: int, xs: seq<int>, next: int)
    requires r.Valid() && Listed(r, after, at, xs)
    requires InSeries(r, next) && next > at && forall x :: InSeries(r, x) && x > at ==> x >= next
    ensures Listed(r, after, next, xs + [next])
  {
    var ys := xs + [next];
    forall k | 0 <= k < |xs| ensures xs[k] < next { assert xs[k] in xs; }
    assert after <= at by { if xs != [] { assert at in xs; } }
    forall x | x in ys ensures InSeries(r, x) && after < x <= next {
      if x != next { assert x in xs; }
    }
    forall x | InSeries(r, x) && after < x <= next ensures x in ys {
      if x <= at { assert x in xs; }
    }
  }
}
