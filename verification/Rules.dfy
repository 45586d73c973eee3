// Schedule.parse and numbers: from the text of a cron or RRULE schedule to a rule
// (kit/calendar/schedule.go).
module Rules {
  import opened Sequences
  import opened Wrappers
  import opened Decimal
  import opened Gregorian
  import Z = Zone
  import opened Schedule
  import opened NextInstant
  import Frequencies
  import Text

  // strings.Cut at a character.
  function Cut(s: string, sep: char): (r: (string, string, bool))
    ensures r.2 ==> s == r.0 + [sep] + r.1
    ensures !r.2 ==> sep !in s && r.0 == s && r.1 == ""
    ensures sep !in r.0
  {
    if s == "" then ("", "", false)
    else if s[0] == sep then ("", s[1..], true)
    else
      var rest := Cut(s[1..], sep);
      ([s[0]] + rest.0, rest.1, rest.2)
  }

  // ---- numbers.

  datatype Range = Range(first: int, last: int, step: int)

  predicate Member(r: Range, v: int)
    requires r.step >= 1
  {
    r.first <= v <= r.last && (v - r.first) % r.step == 0
  }

  // One part of a list: "*", a number, a range, each with a step where cron allows it.
  function RangeOf(part: string, lo: int, hi: int, cron: bool): (r: Option<Range>)
    ensures r.Some? ==> lo <= r.value.first <= r.value.last <= hi && r.value.step >= 1
  {
    var (base, stepText, stepped) := Cut(part, '/');
    var step := if stepped then Atoi(stepText) else Some(1);
    if stepped && (!cron || step.None? || step.value < 1 || step.value > hi - lo + 1) then None
    else if base == "*" then
      if cron && lo <= hi then Some(Range(lo, hi, step.value)) else None
    else
      var (left, right, ranged) := if base != "" && base[0] == '-' && !cron then (base, "", false) else Cut(base, '-');
      var a := Atoi(left);
      var b := if !ranged then (if stepped then Some(hi) else a) else if cron then Atoi(right) else None;
      if a.None? || b.None? || a.value < lo || b.value > hi || a.value > b.value then None
      else Some(Range(a.value, b.value, step.value))
  }

  // v is in one of the first n parts.
  ghost predicate Listed(parts: seq<string>, n: nat, lo: int, hi: int, cron: bool, v: int)
    requires n <= |parts|
  {
    exists i :: 0 <= i < n && InPart(parts[i], lo, hi, cron, v)
  }

  ghost predicate InPart(part: string, lo: int, hi: int, cron: bool, v: int) {
    RangeOf(part, lo, hi, cron).Some? && Member(RangeOf(part, lo, hi, cron).value, v)
  }

  ghost predicate Unreadable(s: string, lo: int, hi: int, cron: bool) {
    exists i :: 0 <= i < |Text.Split(s, ',')| && RangeOf(Text.Split(s, ',')[i], lo, hi, cron).None?
  }

  // The values of a list, in increasing order and without repetition.
  ghost predicate ListOf(s: string, lo: int, hi: int, cron: bool, xs: seq<int>) {
    && !Unreadable(s, lo, hi, cron)
    && Increasing(xs) && xs != [] && (forall i :: 0 <= i < |xs| ==> lo <= xs[i] <= hi)
    && (forall v :: v in xs <==> Listed(Text.Split(s, ','), |Text.Split(s, ',')|, lo, hi, cron, v))
  }

  lemma FirstMember(r: Range)
    requires r.step >= 1 && r.first <= r.last
    ensures Member(r, r.first)
  {
  }

  method Numbers(s: string, lo: int, hi: int, cron: bool) returns (out: Option<seq<int>>)
    ensures out.None? <==> Unreadable(s, lo, hi, cron)
    ensures out.Some? ==> ListOf(s, lo, hi, cron, out.value)
  {
    hide RangeOf;
    var parts := Text.Split(s, ',');
    var xs: seq<int> := [];
    for i := 0 to |parts|
      invariant forall k :: 0 <= k < i ==> RangeOf(parts[k], lo, hi, cron).Some?
      invariant (i > 0 ==> xs != []) && Distinct(xs)
      invariant forall v :: v in xs <==> Listed(parts, i, lo, hi, cron, v)
      invariant forall v :: v in xs ==> lo <= v <= hi
    {
      var range := RangeOf(parts[i], lo, hi, cron);
      if range.None? {
        assert RangeOf(parts[i], lo, hi, cron).None?;
        return None;
      }
      ghost var before := xs;
      xs := AddRange(xs, range.value);
      FirstMember(range.value);
      forall v ensures v in xs <==> Listed(parts, i + 1, lo, hi, cron, v) {
        assert v in xs <==> v in before || InPart(parts[i], lo, hi, cron, v);
      }
    }
    assert parts[..|parts|] == parts;
    ghost var least := xs[0];
    xs := Sort(xs);
    assert least in xs && forall i :: 0 <= i < |xs| ==> xs[i] in xs;
    out := Some(xs);
  }

  // `for v := a; v <= b; v += step`, leaving out what is there.
  method AddRange(xs: seq<int>, r: Range) returns (ys: seq<int>)
    requires r.step >= 1 && Distinct(xs)
    ensures Distinct(ys) && forall v :: v in ys <==> v in xs || Member(r, v)
  {
    ys := xs;
    var v, k := r.first, 0;
    while v <= r.last
      invariant v == r.first + k * r.step && k >= 0 && Distinct(ys)
      invariant forall w :: w in ys <==> w in xs || (Member(r, w) && w < v)
      decreases r.last - v
    {
      StepMember(r, k);
      if v !in ys { ys := ys + [v]; }
      NextMember(r, v);
      v, k := v + r.step, k + 1;
      assert v == r.first + k * r.step;
    }
  }

  lemma StepMember(r: Range, k: int)
    requires r.step >= 1 && k >= 0 && r.first + k * r.step <= r.last
    ensures Member(r, r.first + k * r.step)
  {
    Frequencies.Multiple(r.step, k);
    assert r.first + k * r.step - r.first == r.step * k;
  }

  // Between two members lies no other.
  lemma NextMember(r: Range, v: int)
    requires r.step >= 1 && Member(r, v)
    ensures forall w :: Member(r, w) && w < v + r.step ==> w <= v
  {
    forall w | Member(r, w) && w < v + r.step ensures w <= v {
      if w > v { NoMultipleBetween(r.step, v - r.first, w - r.first); }
    }
  }

  lemma NoMultipleBetween(n: int, a: int, b: int)
    requires n >= 1 && a % n == 0 && a < b < a + n
    ensures b % n != 0
  {
    var k := b / n - a / n;
    if b % n == 0 {
      assert b == n * (b / n) && a == n * (a / n);
      assert n * k == b - a;
      if k >= 1 { Frequencies.AtLeastOnce(n, k); } else if k < 0 { Frequencies.AtLeastOnce(n, -k); }
    }
  }

  // ---- parse.

  function Sequence(lo: int, hi: int): (xs: seq<int>)
    requires lo <= hi
    ensures forall v :: v in xs <==> lo <= v <= hi
    ensures |xs| == hi - lo + 1 && forall i :: 0 <= i < |xs| ==> xs[i] == lo + i
    decreases hi - lo
  {
    if lo == hi then [lo] else Sequence(lo, hi - 1) + [hi]
  }

  // Sunday may be 7.
  function Sundays(xs: seq<int>): (ys: seq<int>)
    ensures |ys| == |xs| && forall i :: 0 <= i < |xs| ==> ys[i] == if xs[i] == 7 then 0 else xs[i]
  {
    seq(|xs|, i requires 0 <= i < |xs| => if xs[i] == 7 then 0 else xs[i])
  }

  function Cron(zone: Z.Zone, minutes: seq<int>, hours: seq<int>, days: seq<int>, months: seq<int>, weekdays: seq<int>,
                anyDay: bool, anyWeek: bool, subminute: bool): Rule
  {
    Rule(zone, hours, minutes, months, days, weekdays, true, anyDay, anyWeek, Daily, 1, None, None, 0, subminute)
  }

  // The five fields of a cron schedule.
  method ParseCron(zone: Z.Zone, fields: seq<string>, subminute: bool) returns (r: Option<Rule>)
    requires zone.Valid()
    // It is refused exactly when it has not five fields or one of them cannot be read.
    ensures r.None? <==> || |fields| != 5 || Unreadable(fields[0], 0, 59, true) || Unreadable(fields[1], 0, 23, true)
                         || Unreadable(fields[2], 1, 31, true) || Unreadable(fields[3], 1, 12, true)
                         || Unreadable(fields[4], 0, 7, true)
    ensures r.Some? ==> |fields| == 5 && r.value.Valid() && r.value.cron && r.value.zone == zone
    ensures r.Some? ==> ListOf(fields[0], 0, 59, true, r.value.minutes) && ListOf(fields[1], 0, 23, true, r.value.hours)
    ensures r.Some? ==> ListOf(fields[2], 1, 31, true, r.value.days) && ListOf(fields[3], 1, 12, true, r.value.months)
    ensures r.Some? ==> exists xs :: ListOf(fields[4], 0, 7, true, xs) && r.value.weekdays == Sundays(xs)
    ensures r.Some? ==> (r.value.anyDay <==> "*" <= fields[2]) && (r.value.anyWeek <==> "*" <= fields[4])
  {
    if |fields| != 5 { return None; }
    var minutes := Numbers(fields[0], 0, 59, true);
    if minutes.None? { return None; }
    var hours := Numbers(fields[1], 0, 23, true);
    if hours.None? { return None; }
    var days := Numbers(fields[2], 1, 31, true);
    if days.None? { return None; }
    var months := Numbers(fields[3], 1, 12, true);
    if months.None? { return None; }
    var weekdays := Numbers(fields[4], 0, 7, true);
    if weekdays.None? { return None; }
    r := Some(Cron(zone, minutes.value, hours.value, days.value, months.value, Sundays(weekdays.value),
                   "*" <= fields[2], "*" <= fields[4], subminute));
  }

  datatype Key = FREQ | INTERVAL | COUNT | UNTIL | BYMINUTE | BYHOUR | BYMONTH | BYMONTHDAY | BYDAY

  function KeyOf(s: string): Option<Key> {
    if s == "FREQ" then Some(FREQ)
    else if s == "INTERVAL" then Some(INTERVAL)
    else if s == "COUNT" then Some(COUNT)
    else if s == "UNTIL" then Some(UNTIL)
    else if s == "BYMINUTE" then Some(BYMINUTE)
    else if s == "BYHOUR" then Some(BYHOUR)
    else if s == "BYMONTH" then Some(BYMONTH)
    else if s == "BYMONTHDAY" then Some(BYMONTHDAY)
    else if s == "BYDAY" then Some(BYDAY)
    else None
  }

  // The KEY=value parts of an RRULE; an unknown or repeated key and a part without a value
  // are refused.
  function Pairs(parts: seq<string>): Option<map<Key, string>> {
    if parts == [] then Some(map[])
    else
      var before := Pairs(parts[..|parts| - 1]);
      if before.None? then None else AddPair(before.value, parts[|parts| - 1])
  }

  function AddPair(values: map<Key, string>, part: string): Option<map<Key, string>> {
    var (k, v, ok) := Cut(part, '=');
    var key := KeyOf(k);
    if !ok || v == "" || key.None? || key.value in values then None else Some(values[key.value := v])
  }

  method ReadPairs(parts: seq<string>) returns (values: Option<map<Key, string>>)
    ensures values == Pairs(parts)
  {
    values := Some(map[]);
    for i := 0 to |parts|
      invariant values.Some? && Pairs(parts[..i]) == values
    {
      assert parts[..i + 1][..i] == parts[..i];
      values := AddPair(values.value, parts[i]);
      if values.None? {
        PairsRefused(parts, i + 1);
        return;
      }
    }
    assert parts[..|parts|] == parts;
  }

  lemma {:induction false} PairsRefused(parts: seq<string>, i: nat)
    requires i <= |parts| && Pairs(parts[..i]).None?
    ensures Pairs(parts).None?
    decreases |parts| - i
  {
    if i < |parts| {
      assert parts[..i + 1][..i] == parts[..i];
      PairsRefused(parts, i + 1);
    } else {
      assert parts[..i] == parts;
    }
  }

  function FreqOf(s: string): Option<Freq> {
    if s == "MINUTELY" then Some(Minutely)
    else if s == "HOURLY" then Some(Hourly)
    else if s == "DAILY" then Some(Daily)
    else if s == "WEEKLY" then Some(Weekly)
    else if s == "MONTHLY" then Some(Monthly)
    else if s == "YEARLY" then Some(Yearly)
    else None
  }

  function DayIndex(s: string): Option<int> {
    if s == "SU" then Some(0)
    else if s == "MO" then Some(1)
    else if s == "TU" then Some(2)
    else if s == "WE" then Some(3)
    else if s == "TH" then Some(4)
    else if s == "FR" then Some(5)
    else if s == "SA" then Some(6)
    else None
  }

  function DayIndexes(parts: seq<string>): (r: Option<seq<int>>)
    ensures r.Some? ==> |r.value| == |parts| && forall i :: 0 <= i < |parts| ==> DayIndex(parts[i]) == Some(r.value[i])
  {
    if parts == [] then Some([])
    else
      var first, rest := DayIndex(parts[0]), DayIndexes(parts[1..]);
      if first.None? || rest.None? then None else Some([first.value] + rest.value)
  }

  // What a rule is before its BY parts, COUNT and UNTIL are read.
  function Base(zone: Z.Zone, start: int, freq: Freq, values: map<Key, string>, subminute: bool): Rule {
    var civil := zone.Local(start / MINUTE);
    var date := DateOf(civil / DAY);
    Rule(zone,
         if freq.Minutely? || freq.Hourly? then Sequence(0, 23) else [civil % DAY / 60],
         if freq.Minutely? then Sequence(0, 59) else [civil % 60],
         if freq.Yearly? && BYMONTHDAY !in values && BYDAY !in values then [date.month] else Sequence(1, 12),
         if freq.Monthly? || freq.Yearly? then [date.day] else Sequence(1, 31),
         if freq.Weekly? then [Weekday(civil / DAY)] else Sequence(0, 6),
         false, true, true, freq, 1, Some(start), None, 0, subminute)
  }

  ghost predicate ListField(values: map<Key, string>, done: set<Key>, key: Key, lo: int, hi: int, base: seq<int>,
                            xs: seq<int>)
    requires done <= values.Keys
  {
    if key in done then ListOf(values[key], lo, hi, false, xs) else xs == base
  }

  predicate NumberField(values: map<Key, string>, done: set<Key>, key: Key, base: int, n: int)
    requires done <= values.Keys
  {
    if key in done then Atoi(values[key]) == Some(n) && 1 <= n <= 100000 else n == base
  }

  ghost predicate DaysField(values: map<Key, string>, done: set<Key>, base: Rule, xs: seq<int>)
    requires done <= values.Keys
  {
    if BYMONTHDAY in done then ListOf(values[BYMONTHDAY], -31, 31, false, xs) && 0 !in xs
    else if BYDAY in done && BYMONTHDAY !in values && (base.freq.Monthly? || base.freq.Yearly?) then xs == Sequence(1, 31)
    else xs == base.days
  }

  // The rule after the parts in `done` were read: each field comes from its own part, so the
  // order in which they are read does not matter.
  ghost predicate Read(values: map<Key, string>, done: set<Key>, clock: string -> Option<int>, base: Rule, r: Rule)
    requires done <= values.Keys
  {
    && ReadLists(values, done, base, r)
    && DaysField(values, done, base, r.days) && WeekdaysField(values, done, base, r.weekdays)
    && ReadLimits(values, done, clock, base, r)
    && !r.cron && r.anyDay == base.anyDay && r.anyWeek == base.anyWeek && r.zone == base.zone
    && r.freq == base.freq && r.start == base.start && r.subminute == base.subminute
  }

  ghost predicate ReadLists(values: map<Key, string>, done: set<Key>, base: Rule, r: Rule)
    requires done <= values.Keys
  {
    && ListField(values, done, BYMINUTE, 0, 59, base.minutes, r.minutes)
    && ListField(values, done, BYHOUR, 0, 23, base.hours, r.hours)
    && ListField(values, done, BYMONTH, 1, 12, base.months, r.months)
  }

  predicate WeekdaysField(values: map<Key, string>, done: set<Key>, base: Rule, xs: seq<int>)
    requires done <= values.Keys
  {
    if BYDAY in done then DayIndexes(Text.Split(values[BYDAY], ',')) == Some(xs) else xs == base.weekdays
  }

  predicate ReadLimits(values: map<Key, string>, done: set<Key>, clock: string -> Option<int>, base: Rule, r: Rule)
    requires done <= values.Keys
  {
    && NumberField(values, done, INTERVAL, base.interval, r.interval)
    && NumberField(values, done, COUNT, base.count, r.count)
    && (if UNTIL in done then r.until.Some? && r.until == clock(values[UNTIL]) else r.until == base.until)
  }

  // What makes a part unacceptable.
  ghost predicate PartRefused(values: map<Key, string>, key: Key, clock: string -> Option<int>)
    requires key in values
  {
    var v := values[key];
    match key
    case FREQ => false
    case INTERVAL => Atoi(v).None? || !(1 <= Atoi(v).value <= 100000)
    case COUNT => Atoi(v).None? || !(1 <= Atoi(v).value <= 100000)
    case UNTIL => clock(v).None?
    case BYMINUTE => Unreadable(v, 0, 59, false)
    case BYHOUR => Unreadable(v, 0, 23, false)
    case BYMONTH => Unreadable(v, 1, 12, false)
    case BYMONTHDAY => Unreadable(v, -31, 31, false) || exists xs :: ListOf(v, -31, 31, false, xs) && 0 in xs
    case BYDAY => DayIndexes(Text.Split(v, ',')).None?
  }

  method ReadList(values: map<Key, string>, key: Key, clock: string -> Option<int>, r: Rule) returns (res: Option<Rule>)
    requires key in values && key in {BYMINUTE, BYHOUR, BYMONTH, BYMONTHDAY}
    ensures res.Some? ==> Changed(values, key, clock, r, res.value)
    ensures res.None? ==> PartRefused(values, key, clock)
  {
    var v := values[key];
    var xs: Option<seq<int>>;
    if key == BYMINUTE {
      xs := Numbers(v, 0, 59, false);
      res := if xs.None? then None else Some(r.(minutes := xs.value));
    } else if key == BYHOUR {
      xs := Numbers(v, 0, 23, false);
      res := if xs.None? then None else Some(r.(hours := xs.value));
    } else if key == BYMONTH {
      xs := Numbers(v, 1, 12, false);
      res := if xs.None? then None else Some(r.(months := xs.value));
    } else {
      xs := Numbers(v, -31, 31, false);
      res := if xs.None? || 0 in xs.value then None else Some(r.(days := xs.value));
    }
  }

  // One part of an RRULE, whatever was read before.
  method ReadPart(values: map<Key, string>, key: Key, clock: string -> Option<int>, r: Rule) returns (res: Option<Rule>)
    requires key in values
    ensures res.Some? ==> Changed(values, key, clock, r, res.value)
    ensures res.None? ==> PartRefused(values, key, clock)
  {
    hide Atoi, DayIndexes, ListOf, Sequence, Unreadable;
    var v := values[key];
    match key
    case FREQ =>
      res := Some(r);
    case INTERVAL =>
      var n := Atoi(v);
      res := if n.None? || n.value < 1 || n.value > 100000 then None else Some(r.(interval := n.value));
    case COUNT =>
      var n := Atoi(v);
      res := if n.None? || n.value < 1 || n.value > 100000 then None else Some(r.(count := n.value));
    case UNTIL =>
      var until := clock(v);
      res := if until.None? then None else Some(r.(until := until));
    case BYMINUTE => res := ReadList(values, key, clock, r);
    case BYHOUR => res := ReadList(values, key, clock, r);
    case BYMONTH => res := ReadList(values, key, clock, r);
    case BYMONTHDAY => res := ReadList(values, key, clock, r);
    case BYDAY =>
      var weekdays := DayIndexes(Text.Split(v, ','));
      var all := BYMONTHDAY !in values && (r.freq.Monthly? || r.freq.Yearly?);
      res := if weekdays.None? then None
             else Some(r.(weekdays := weekdays.value, days := if all then Sequence(1, 31) else r.days));
  }

  // What reading one part does to a rule.
  ghost predicate Changed(values: map<Key, string>, key: Key, clock: string -> Option<int>, r: Rule, s: Rule)
    requires key in values
  {
    && ListsChanged(values[key], key, r, s) && DatesChanged(values, key, r, s) && LimitsChanged(values[key], key, clock, r, s)
    && s.cron == r.cron && s.anyDay == r.anyDay && s.anyWeek == r.anyWeek && s.zone == r.zone
    && s.freq == r.freq && s.start == r.start && s.subminute == r.subminute
  }

  ghost predicate ListsChanged(v: string, key: Key, r: Rule, s: Rule) {
    && (if key == BYMINUTE then ListOf(v, 0, 59, false, s.minutes) else s.minutes == r.minutes)
    && (if key == BYHOUR then ListOf(v, 0, 23, false, s.hours) else s.hours == r.hours)
    && (if key == BYMONTH then ListOf(v, 1, 12, false, s.months) else s.months == r.months)
  }

  ghost predicate DatesChanged(values: map<Key, string>, key: Key, r: Rule, s: Rule)
    requires key in values
  {
    && (if key == BYMONTHDAY then ListOf(values[key], -31, 31, false, s.days) && 0 !in s.days
        else if key == BYDAY && BYMONTHDAY !in values && (r.freq.Monthly? || r.freq.Yearly?) then s.days == Sequence(1, 31)
        else s.days == r.days)
    && (if key == BYDAY then DayIndexes(Text.Split(values[key], ',')) == Some(s.weekdays) else s.weekdays == r.weekdays)
  }

  predicate LimitsChanged(v: string, key: Key, clock: string -> Option<int>, r: Rule, s: Rule) {
    && (if key == INTERVAL then Atoi(v) == Some(s.interval) && 1 <= s.interval <= 100000 else s.interval == r.interval)
    && (if key == COUNT then Atoi(v) == Some(s.count) && 1 <= s.count <= 100000 else s.count == r.count)
    && (if key == UNTIL then s.until.Some? && s.until == clock(v) else s.until == r.until)
  }

  // INTERVAL must be able to advance inside the search of Next.
  predicate Fits(freq: Freq, interval: int) {
    match freq
    case Yearly => interval < 400
    case Monthly => interval < 400 * 12
    case Weekly => interval < PERIOD / 7
    case _ => true
  }

  // What makes an RRULE unacceptable.
  ghost predicate Refused(values: map<Key, string>, clock: string -> Option<int>) {
    || FREQ !in values || FreqOf(values[FREQ]).None?
    || (exists key :: key in values && PartRefused(values, key, clock))
    || (COUNT in values && UNTIL in values)
    || (INTERVAL in values && Atoi(values[INTERVAL]).Some? && !Fits(FreqOf(values[FREQ]).value, Atoi(values[INTERVAL]).value))
  }

  // The property name may stand before the rule.
  function Body(text: string): string {
    if "RRULE:" <= text then text[6..] else text
  }

  method ParseRRule(zone: Z.Zone, start: int, text: string, clock: string -> Option<int>, subminute: bool)
    returns (r: Option<Rule>)
    requires zone.Valid()
    ensures r.None? <==> || (!subminute && start % MINUTE != 0) || Pairs(Text.Split(Body(text), ';')).None?
                         || Refused(Pairs(Text.Split(Body(text), ';')).value, clock)
    ensures r.Some? ==> r.value.Valid() && Fits(r.value.freq, r.value.interval)
    ensures r.Some? ==> !(r.value.count > 0 && r.value.until.Some?) && (subminute || start % MINUTE == 0)
    ensures r.Some? ==>
              var values := Pairs(Text.Split(Body(text), ';'));
              && values.Some? && FREQ in values.value && FreqOf(values.value[FREQ]) == Some(r.value.freq)
              && Read(values.value, values.value.Keys, clock, Base(zone, start, r.value.freq, values.value, subminute), r.value)
  {
    if !subminute && start % MINUTE != 0 { return None; }
    var pairs := ReadPairs(Text.Split(Body(text), ';'));
    if pairs.None? || FREQ !in pairs.value { return None; }
    var values := pairs.value;
    var freq := FreqOf(values[FREQ]);
    if freq.None? { return None; }
    var base := Base(zone, start, freq.value, values, subminute);
    r := ReadParts(values, clock, base);
    if r.None? { return; }
    if r.value.count > 0 && r.value.until.Some? { return None; }
    if !Fits(r.value.freq, r.value.interval) { return None; }
    ReadValid(zone, start, freq.value, values, subminute, clock, r.value);
    ReadAccepted(zone, start, freq.value, values, subminute, clock, r.value);
  }

  lemma ReadsNothing(values: map<Key, string>, clock: string -> Option<int>, base: Rule)
    requires !base.cron
    ensures Read(values, values.Keys - values.Keys, clock, base, base)
  {
  }

  lemma ReadsOneMore(values: map<Key, string>, done: set<Key>, key: Key, clock: string -> Option<int>, base: Rule,
                     r: Rule, s: Rule)
    requires done <= values.Keys && key in values && key !in done
    requires Read(values, done, clock, base, r) && Changed(values, key, clock, r, s)
    ensures Read(values, done + {key}, clock, base, s)
  {
    hide Atoi, DayIndexes, ListOf, Sequence;
  }

  method ReadParts(values: map<Key, string>, clock: string -> Option<int>, base: Rule) returns (r: Option<Rule>)
    requires !base.cron
    ensures r.Some? ==> Read(values, values.Keys, clock, base, r.value)
    ensures r.None? ==> exists key :: key in values && PartRefused(values, key, clock)
  {
    hide Read, Changed, PartRefused;
    ReadsNothing(values, clock, base);
    var rule, rest := base, values.Keys;
    while rest != {}
      invariant rest <= values.Keys && Read(values, values.Keys - rest, clock, base, rule)
      decreases rest
    {
      var key :| key in rest;
      var next := ReadPart(values, key, clock, rule);
      if next.None? { return None; }
      ReadsOneMore(values, values.Keys - rest, key, clock, base, rule, next.value);
      assert values.Keys - (rest - {key}) == values.Keys - rest + {key};
      rule, rest := next.value, rest - {key};
    }
    assert values.Keys - {} == values.Keys;
    r := Some(rule);
  }

  // A list has one reading.
  lemma ListUnique(s: string, lo: int, hi: int, cron: bool, xs: seq<int>, ys: seq<int>)
    requires ListOf(s, lo, hi, cron, xs) && ListOf(s, lo, hi, cron, ys)
    ensures xs == ys
  {
    assert forall v :: v in xs <==> v in ys;
    SameIncreasing(xs, ys);
  }

  lemma {:induction false} SameIncreasing(xs: seq<int>, ys: seq<int>)
    requires Increasing(xs) && Increasing(ys) && forall v :: v in xs <==> v in ys
    ensures xs == ys
  {
    assert (xs != [] ==> xs[0] in xs) && (ys != [] ==> ys[0] in ys);
    if xs != [] && ys != [] {
      assert xs[0] == ys[0];
      forall v ensures v in xs[1..] <==> v in ys[1..] {
        assert v in xs <==> v == xs[0] || v in xs[1..];
        assert v in ys <==> v == ys[0] || v in ys[1..];
      }
      SameIncreasing(xs[1..], ys[1..]);
    }
  }

  // What was read had no part to refuse.
  lemma ReadAccepted(zone: Z.Zone, start: int, freq: Freq, values: map<Key, string>, subminute: bool,
                     clock: string -> Option<int>, r: Rule)
    requires Read(values, values.Keys, clock, Base(zone, start, freq, values, subminute), r)
    requires FREQ in values && FreqOf(values[FREQ]) == Some(freq)
    requires Fits(freq, r.interval) && !(r.count > 0 && r.until.Some?)
    ensures !Refused(values, clock)
  {
    hide Base, Unreadable, Listed;
    forall key | key in values ensures !PartRefused(values, key, clock) {
      if key == BYMONTHDAY {
        forall xs | ListOf(values[key], -31, 31, false, xs) ensures 0 !in xs {
          ListUnique(values[key], -31, 31, false, xs, r.days);
        }
      }
    }
  }

  // Accepted rules are what the search of Next expects.
  lemma ReadValid(zone: Z.Zone, start: int, freq: Freq, values: map<Key, string>, subminute: bool,
                  clock: string -> Option<int>, r: Rule)
    requires zone.Valid() && Read(values, values.Keys, clock, Base(zone, start, freq, values, subminute), r)
    ensures r.Valid() && r.start == Some(start)
  {
    hide DateOf, Weekday, Z.Zone.Local, DayIndexes, Atoi, Listed;
    var base := Base(zone, start, freq, values, subminute);
    SequencesCover();
  }

  // A weekly rule limited to INTERVAL, BYDAY and times of day is one that Next always advances.
  lemma WeeklyAccepted(zone: Z.Zone, start: int, values: map<Key, string>, subminute: bool,
                       clock: string -> Option<int>, r: Rule)
    requires zone.Valid() && Read(values, values.Keys, clock, Base(zone, start, Weekly, values, subminute), r)
    requires Fits(Weekly, r.interval) && values.Keys <= {FREQ, INTERVAL, BYDAY, BYHOUR, BYMINUTE}
    ensures Frequencies.WeeklyOnly(r)
  {
    hide DateOf, Weekday, Z.Zone.Local, Sequence, ListOf, Atoi;
    var base := Base(zone, start, Weekly, values, subminute);
    SequencesCover();
    WeekdayIs(r.StartDay());
    assert r.months == base.months == Sequence(1, 12) && r.days == base.days == Sequence(1, 31);
  }

  // So is every rule with an interval and nothing else, but for months and years from a day that
  // not every month has.
  lemma PlainAccepted(zone: Z.Zone, start: int, freq: Freq, values: map<Key, string>, subminute: bool,
                      clock: string -> Option<int>, r: Rule)
    requires zone.Valid() && Read(values, values.Keys, clock, Base(zone, start, freq, values, subminute), r)
    requires Fits(freq, r.interval) && values.Keys <= {FREQ, INTERVAL}
    requires freq.Monthly? || freq.Yearly? ==> Frequencies.StartDate(r) <= 28
    ensures Frequencies.Unlimited(r)
  {
    hide DateOf, Weekday, Z.Zone.Local, Sequence, ListOf, DayIndexes, Atoi;
    var base := Base(zone, start, freq, values, subminute);
    assert r.months == base.months && r.days == base.days && r.weekdays == base.weekdays;
    assert r.hours == base.hours && r.minutes == base.minutes;
    SequencesCover();
    WeekdayIs(r.StartDay());
  }

  lemma WeekdayIs(day: int)
    ensures 0 <= Weekday(day) < 7
  {
  }

  lemma SequencesCover()
    ensures Frequencies.All(Sequence(1, 12), 1, 12) && Frequencies.All(Sequence(1, 31), 1, 31)
    ensures Frequencies.All(Sequence(0, 6), 0, 6) && Frequencies.All(Sequence(0, 23), 0, 23)
            && Frequencies.All(Sequence(0, 59), 0, 59)
  {
  }
}
