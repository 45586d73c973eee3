// Accepted rules that Schedule.Next gives up although a later instant exists
// (kit/calendar/schedule.go): with COUNT the 400 years are counted from the start.
module HorizonLimits {
  import opened Wrappers
  import opened Gregorian
  import Z = Zone
  import opened Schedule
  import opened NextInstant
  import opened Frequencies
  import opened Horizon
  import opened Decimal
  import R = Rules
  import Text

  // A rule for one date every so many years, at midnight in a zone without changes.
  function Years(interval: int, count: int, start: Date): Rule {
    Rule(Z.Zone(0, []), [0], [0], [start.month], [start.day], [0, 1, 2, 3, 4, 5, 6], false, true, true, Yearly, interval,
         Some(Midnight(start)), None, count, false)
  }

  // Its text.
  function YearsText(interval: int, count: int): string {
    Text.Join(YearsParts(interval, count), ';')
  }

  function YearsParts(interval: int, count: int): seq<string> {
    var parts := [Pair("FREQ", "YEARLY"), Pair("INTERVAL", Itoa(interval))];
    if count == 0 then parts else parts + [Pair("COUNT", Itoa(count))]
  }

  function Pair(name: string, value: string): string {
    name + "=" + value
  }

  function YearsValues(interval: int, count: int): map<R.Key, string> {
    var values := map[R.FREQ := "YEARLY", R.INTERVAL := Itoa(interval)];
    if count == 0 then values else values[R.COUNT := Itoa(count)]
  }

  lemma {:induction false} CutAt(key: string, value: string)
    requires '=' !in key
    ensures R.Cut(Pair(key, value), '=') == (key, value, true)
  {
    var s := Pair(key, value);
    if key == "" {
      assert s == "=" + value;
    } else {
      CutAt(key[1..], value);
      assert s[1..] == Pair(key[1..], value) && [key[0]] + key[1..] == key;
    }
  }

  lemma OnePair(parts: seq<string>, values: map<R.Key, string>, name: string, key: R.Key, value: string)
    requires R.Pairs(parts) == Some(values) && R.KeyOf(name) == Some(key) && '=' !in name && value != "" && key !in values
    ensures R.Pairs(parts + [Pair(name, value)]) == Some(values[key := value])
  {
    hide R.KeyOf, R.Cut, Pair;
    CutAt(name, value);
    var more := parts + [Pair(name, value)];
    assert more[..|more| - 1] == parts;
  }

  lemma Names()
    ensures R.KeyOf("FREQ") == Some(R.FREQ) && R.KeyOf("INTERVAL") == Some(R.INTERVAL) && R.KeyOf("COUNT") == Some(R.COUNT)
  {
    assert "FREQ"[0] != "INTERVAL"[0] && "COUNT"[0] != "FREQ"[0] && "COUNT"[0] != "INTERVAL"[0];
    assert |"COUNT"| != |"UNTIL"| || "COUNT"[0] != "UNTIL"[0];
  }

  lemma YearsPairs(interval: int, count: int)
    requires 1 <= interval && 0 <= count
    ensures R.Pairs(YearsParts(interval, count)) == Some(YearsValues(interval, count))
  {
    Names();
    assert R.Pairs([]) == Some(map[]) && Itoa(interval) != "" && Itoa(count) != "";
    hide R.Pairs, R.KeyOf, Itoa, Pair;
    var first := map[R.FREQ := "YEARLY"];
    var second := first[R.INTERVAL := Itoa(interval)];
    OnePair([], map[], "FREQ", R.FREQ, "YEARLY");
    OnePair([Pair("FREQ", "YEARLY")], first, "INTERVAL", R.INTERVAL, Itoa(interval));
    OnePair([Pair("FREQ", "YEARLY"), Pair("INTERVAL", Itoa(interval))], second, "COUNT", R.COUNT, Itoa(count));
    assert [] + [Pair("FREQ", "YEARLY")] == [Pair("FREQ", "YEARLY")];
    assert [Pair("FREQ", "YEARLY")] + [Pair("INTERVAL", Itoa(interval))]
        == [Pair("FREQ", "YEARLY"), Pair("INTERVAL", Itoa(interval))];
  }

  lemma YearsSplit(interval: int, count: int)
    requires 1 <= interval && 0 <= count
    ensures R.Body(YearsText(interval, count)) == YearsText(interval, count)
    ensures Text.Split(YearsText(interval, count), ';') == YearsParts(interval, count)
  {
    var parts := YearsParts(interval, count);
    assert AllDigits(Itoa(interval)) && AllDigits(Itoa(count));
    assert ';' !in Itoa(interval) && ';' !in Itoa(count);
    hide Itoa, AllDigits;
    forall k | 0 <= k < |parts| ensures ';' !in parts[k] { }
    Text.SplitJoin(parts, ';');
    assert YearsText(interval, count)[0] == 'F';
  }

  lemma YearsKept(interval: int, count: int, clock: string -> Option<int>)
    requires 1 <= interval < 400 && 0 <= count <= 100000
    ensures !R.Refused(YearsValues(interval, count), clock)
  {
    hide Atoi, Itoa, R.FreqOf, R.Refused;
    YearlyIsFreq();
    AtoiItoa(interval);
    AtoiItoa(count);
    LimitsKept(YearsValues(interval, count), clock);
  }

  // A rule with INTERVAL and COUNT alone.
  lemma LimitsKept(values: map<R.Key, string>, clock: string -> Option<int>)
    requires R.FREQ in values && R.FreqOf(values[R.FREQ]) == Some(Yearly) && values.Keys <= {R.FREQ, R.INTERVAL, R.COUNT}
    requires R.INTERVAL in values && Atoi(values[R.INTERVAL]).Some? && 1 <= Atoi(values[R.INTERVAL]).value < 400
    requires R.COUNT in values ==> Atoi(values[R.COUNT]).Some? && 1 <= Atoi(values[R.COUNT]).value <= 100000
    ensures !R.Refused(values, clock)
  {
    hide Atoi, R.FreqOf, R.PartRefused;
    forall key | key in values ensures !R.PartRefused(values, key, clock) { PartKept(values, key, clock); }
  }

  lemma PartKept(values: map<R.Key, string>, key: R.Key, clock: string -> Option<int>)
    requires key in values && (key == R.FREQ || key == R.INTERVAL || key == R.COUNT)
    requires key != R.FREQ ==> Atoi(values[key]).Some? && 1 <= Atoi(values[key]).value <= 100000
    ensures !R.PartRefused(values, key, clock)
  {
    hide Atoi, R.Unreadable, R.ListOf, R.DayIndexes;
  }

  lemma YearsBase(start: Date, values: map<R.Key, string>)
    requires IsDate(start) && R.BYMONTHDAY !in values && R.BYDAY !in values
    ensures R.Base(Z.Zone(0, []), Midnight(start), Yearly, values, false) == Years(1, 0, start)
  {
    hide DayNumber, DateOf, IsDate, Z.Zone.Local, R.Sequence;
    var day := DayNumber(start);
    assert Midnight(start) / MINUTE == day * DAY && day * DAY / DAY == day && day * DAY % DAY == 0;
    Clock(day * DAY);
    DateUnique(start);
    assert R.Sequence(0, 6) == [0, 1, 2, 3, 4, 5, 6];
  }

  lemma YearsRead(interval: int, count: int, base: Rule, clock: string -> Option<int>, r: Rule)
    requires 1 <= interval < 400 && 0 <= count <= 100000 && base.count == 0 && !base.cron
    ensures var values := YearsValues(interval, count);
            R.Read(values, values.Keys, clock, base, r) <==> r == base.(interval := interval, count := count)
  {
    hide Atoi, Itoa, R.Read;
    AtoiItoa(interval);
    AtoiItoa(count);
    var values := YearsValues(interval, count);
    assert Atoi(values[R.INTERVAL]) == Some(interval) && (R.COUNT in values ==> Atoi(values[R.COUNT]) == Some(count));
    ReadsLimits(values, interval, count, base, clock, r);
  }

  // A rule that is read from INTERVAL and COUNT alone.
  lemma ReadsLimits(values: map<R.Key, string>, interval: int, count: int, base: Rule, clock: string -> Option<int>, r: Rule)
    requires values.Keys <= {R.FREQ, R.INTERVAL, R.COUNT} && R.INTERVAL in values && !base.cron
    requires 1 <= interval <= 100000 && Atoi(values[R.INTERVAL]) == Some(interval)
    requires if R.COUNT in values then 1 <= count <= 100000 && Atoi(values[R.COUNT]) == Some(count) else count == base.count
    ensures R.Read(values, values.Keys, clock, base, r) <==> r == base.(interval := interval, count := count)
  {
    hide Atoi, R.ListOf, R.DayIndexes, R.Sequence;
    var keys := values.Keys;
    assert R.BYMINUTE !in keys && R.BYHOUR !in keys && R.BYMONTH !in keys && R.BYMONTHDAY !in keys;
    assert R.BYDAY !in keys && R.UNTIL !in keys;
  }

  lemma YearlyIsFreq()
    ensures R.FreqOf("YEARLY") == Some(Yearly)
  {
    assert "YEARLY"[0] != "HOURLY"[0] && "YEARLY"[0] != "WEEKLY"[0];
  }

  lemma YearsFacts(interval: int, count: int, start: Date)
    ensures var values := YearsValues(interval, count);
            R.FREQ in values && R.FreqOf(values[R.FREQ]) == Some(Yearly) && R.BYMONTHDAY !in values && R.BYDAY !in values
    ensures Midnight(start) % MINUTE == 0
    ensures Years(1, 0, start).(interval := interval, count := count) == Years(interval, count, start)
    ensures Years(1, 0, start).count == 0 && !Years(1, 0, start).cron
  {
    hide DayNumber, Itoa, R.FreqOf;
    YearlyIsFreq();
  }

  // The parser accepts the text and reads it as this rule.
  lemma YearsAccepted(interval: int, count: int, start: Date, clock: string -> Option<int>)
    requires 1 <= interval < 400 && 0 <= count <= 100000 && IsDate(start)
    ensures var values, zone := YearsValues(interval, count), Z.Zone(0, []);
            && R.Pairs(Text.Split(R.Body(YearsText(interval, count)), ';')) == Some(values)
            && !R.Refused(values, clock) && Midnight(start) % MINUTE == 0 && R.FreqOf(values[R.FREQ]) == Some(Yearly)
            && forall r :: R.Read(values, values.Keys, clock, R.Base(zone, Midnight(start), Yearly, values, false), r)
                           <==> r == Years(interval, count, start)
  {
    hide *;
    YearsFacts(interval, count, start);
    YearsSplit(interval, count);
    YearsPairs(interval, count);
    YearsKept(interval, count, clock);
    YearsBase(start, YearsValues(interval, count));
    forall r { YearsRead(interval, count, Years(1, 0, start), clock, r); }
  }

  method ParseYears(interval: int, count: int, start: Date, clock: string -> Option<int>) returns (r: Option<Rule>)
    requires 1 <= interval < 400 && 0 <= count <= 100000 && IsDate(start)
    ensures r == Some(Years(interval, count, start))
  {
    hide *;
    YearsAccepted(interval, count, start, clock);
    Clock(0);
    r := R.ParseRRule(Z.Zone(0, []), Midnight(start), YearsText(interval, count), clock, false);
  }

  function Midnight(d: Date): int {
    DayNumber(d) * DAY * MINUTE
  }

  lemma Clock(c: int)
    ensures Z.Zone(0, []).Valid() && Z.Zone(0, []).Local(c) == c && Z.First(Z.Zone(0, []), c) == c
  {
    Z.FirstIs(Z.Zone(0, []), c, c);
  }

  lemma RuleIs(interval: int, count: int, start: Date)
    requires interval >= 1 && count >= 0 && IsDate(start)
    ensures var r := Years(interval, count, start); r.Valid() && r.StartDay() == DayNumber(start)
  {
    Clock(DayNumber(start) * DAY);
  }

  lemma DatesAre(interval: int, count: int, start: Date, day: int)
    requires interval >= 1 && count >= 0 && IsDate(start)
    ensures var r, d := Years(interval, count, start), DateOf(day);
            && r.Valid()
            && (DateMatches(r, day)
                <==> d == start.(year := d.year) && d.year >= start.year && (d.year - start.year) % interval == 0)
  {
    hide DayNumber, DateOf, Leap, Weekday, Z.Zone.Local, Z.Zone.Valid, Midnight;
    RuleIs(interval, count, start);
    DateIsDate(day);
    DateUnique(start);
    Clock(0);
    R.WeekdayIs(day);
    var r := Years(interval, count, start);
    assert DateOf(r.StartDay()) == start;
  }

  lemma TimesAre(interval: int, count: int, start: Date, c: int, x: int)
    requires interval >= 1 && count >= 0 && IsDate(start)
    ensures var r := Years(interval, count, start);
            && r.Valid()
            && (HitsTime(r, c, x) <==> c % DAY == 0 && x == c * MINUTE && x >= Midnight(start))
  {
    hide DayNumber, Z.First, Z.Zone.Local, Z.Zone.Valid, Midnight;
    RuleIs(interval, count, start);
    Clock(c);
    assert c % DAY / 60 == 0 && c % 60 == 0 <==> c % DAY == 0;
  }

  // The rule has its dates at midnight of that day in every interval's year, and nothing else.
  lemma HitsAre(interval: int, count: int, start: Date, c: int, x: int)
    requires interval >= 1 && count >= 0 && IsDate(start)
    ensures var r, d := Years(interval, count, start), DateOf(c / DAY);
            && r.Valid()
            && (Hits(r, c, x)
                <==> && d == start.(year := d.year) && d.year >= start.year && (d.year - start.year) % interval == 0
                     && c == DayNumber(d) * DAY && x == Midnight(d) && x >= Midnight(start))
  {
    hide DayNumber, DateOf, IsDate, DateMatches, HitsTime, Years;
    DatesAre(interval, count, start, c / DAY);
    TimesAre(interval, count, start, c, x);
    DateIsDate(c / DAY);
  }

  // Later years have later days.
  lemma YearsGrow(d: Date, a: int, b: int)
    requires a < b && 1 <= d.month <= 12
    ensures DayNumber(d.(year := a)) < DayNumber(d.(year := b))
  {
    hide DayNumber;
    MonthsStep(a * 12 + d.month - 1, 12 * (b - a), d.day);
    assert MonthDate(a * 12 + d.month - 1, d.day) == d.(year := a);
    assert MonthDate(b * 12 + d.month - 1, d.day) == d.(year := b);
  }

  lemma HitsYear(interval: int, count: int, start: Date, y: int)
    requires interval >= 1 && count >= 0 && IsDate(start) && IsDate(start.(year := y))
    requires y >= start.year && (y - start.year) % interval == 0
    ensures var r := Years(interval, count, start);
            && r.Valid() && Hits(r, DayNumber(start.(year := y)) * DAY, Midnight(start.(year := y)))
            && Occurs(r, Midnight(start.(year := y)))
  {
    hide DayNumber, DateOf, Hits;
    var d := start.(year := y);
    DateUnique(d);
    HitsAre(interval, count, start, DayNumber(d) * DAY, Midnight(d));
    if y > start.year { YearsGrow(start, start.year, y); }
    RuleIs(interval, count, start);
    assert DayNumber(d) * DAY / DAY == DayNumber(d);
  }

  function NewYear(y: int): Date {
    Date(y, 1, 1)
  }

  // Three dates 399 years apart: the third one exists, and is not found after the second.
  lemma CountCutsOff()
    ensures var r, second, third := Years(399, 3, NewYear(2000)), Midnight(NewYear(2399)), Midnight(NewYear(2798));
            && r.Valid() && InSeries(r, second) && InSeries(r, third) && third > second
            && !exists x :: InSeries(r, x) && x > second && InWindow(r, second, x)
  {
    hide DayNumber, DateOf, Hits;
    var r := Years(399, 3, NewYear(2000));
    RuleIs(399, 3, NewYear(2000));
    YearsGrow(NewYear(0), 2000, 2399);
    YearsGrow(NewYear(0), 2399, 2798);
    HitsYear(399, 3, NewYear(2000), 2000);
    HitsYear(399, 3, NewYear(2000), 2399);
    HitsYear(399, 3, NewYear(2000), 2798);
    EarlierYears(2399, [Midnight(NewYear(2000))]);
    EarlierYears(2798, [Midnight(NewYear(2000)), Midnight(NewYear(2399))]);
    Add400Years(NewYear(2000));
    forall x | InWindow(r, Midnight(NewYear(2399)), x) ensures x <= Midnight(NewYear(2399)) {
      var c :| r.StartDay() * DAY <= c < (r.StartDay() + PERIOD) * DAY && Hits(r, c, x);
      HitsAre(399, 3, NewYear(2000), c, x);
      var y := DateOf(c / DAY).year;
      if y > 2400 { YearsGrow(NewYear(0), 2400, y); }
      assert y == 2000 || y == 2399;
    }
  }

  // The instants before that of a given year.
  lemma EarlierYears(y: int, s: seq<int>)
    requires || (y == 2399 && s == [Midnight(NewYear(2000))])
             || (y == 2798 && s == [Midnight(NewYear(2000)), Midnight(NewYear(2399))])
    ensures var r := Years(399, 3, NewYear(2000)); r.Valid() && Earlier(r, Midnight(NewYear(y)), s)
  {
    hide DayNumber, DateOf, Hits;
    var r := Years(399, 3, NewYear(2000));
    RuleIs(399, 3, NewYear(2000));
    YearsGrow(NewYear(0), 2000, 2399);
    YearsGrow(NewYear(0), 2399, 2798);
    HitsYear(399, 3, NewYear(2000), 2000);
    HitsYear(399, 3, NewYear(2000), 2399);
    forall x | Occurs(r, x) && x < Midnight(NewYear(y)) ensures x in s {
      var c :| c / DAY >= r.StartDay() && Hits(r, c, x);
      HitsAre(399, 3, NewYear(2000), c, x);
      var z := DateOf(c / DAY).year;
      if z > y { YearsGrow(NewYear(0), y, z); }
      assert z == 2000 || z == 2399;
    }
  }

  // From 29 February, 399 years apart: the next one is in the year 3596, beyond the horizon.
  lemma LeapDayCutsOff()
    ensures var start := Date(2000, 2, 29);
            var r, later := Years(399, 0, start), Midnight(Date(3596, 2, 29));
            && r.Valid() && YearlyOnly(r) && InSeries(r, later) && later > Midnight(start)
            && !exists x :: InSeries(r, x) && x > Midnight(start) && InWindow(r, Midnight(start), x)
  {
    hide DayNumber, DateOf, Hits;
    var start := Date(2000, 2, 29);
    var r := Years(399, 0, start);
    RuleIs(399, 0, start);
    Clock(DayNumber(start) * DAY);
    DateUnique(start);
    YearsGrow(start, 2000, 3596);
    HitsYear(399, 0, start, 3596);
    Add400Years(start);
    forall x | InWindow(r, Midnight(start), x) ensures x <= Midnight(start) {
      var c :| r.StartDay() * DAY <= c < (r.StartDay() + PERIOD) * DAY && Hits(r, c, x);
      HitsAre(399, 0, start, c, x);
      var y := DateOf(c / DAY).year;
      DateIsDate(c / DAY);
      if y > 2400 { YearsGrow(start, 2400, y); }
      assert y == 2000 || y == 2399;
    }
  }
}
