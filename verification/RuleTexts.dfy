// The texts of schedules: what each part of a cron field or of an RRULE means, with a printer
// beside the parser of kit/calendar/schedule.go.
module RuleTexts {
  import opened Sequences
  import opened Wrappers
  import opened Decimal
  import opened Schedule
  import opened Rules
  import Text
  import Z = Zone
  import G = Gregorian

  // ---- One part of a list.

  // "*", a number, or two numbers with a hyphen, and perhaps a step behind it.
  datatype Form = Star | One(a: int) | Span(a: int, b: int)

  function BaseText(f: Form): string {
    match f
    case Star => "*"
    case One(a) => Itoa(a)
    case Span(a, b) => Itoa(a) + "-" + Itoa(b)
  }

  function PartText(f: Form, step: Option<int>): string {
    if step.None? then BaseText(f) else BaseText(f) + "/" + Itoa(step.value)
  }

  // The values that a part of a cron field names, if it is accepted.
  predicate Names(f: Form, step: Option<int>, lo: int, hi: int, v: int) {
    && lo <= v <= hi
    && (step.Some? ==> 1 <= step.value <= hi - lo + 1)
    && match f
       case Star => step.Some? ==> (v - lo) % step.value == 0
       case One(a) => if step.None? then v == a else lo <= a <= v && (v - a) % step.value == 0
       case Span(a, b) => lo <= a <= v <= b <= hi && (step.Some? ==> (v - a) % step.value == 0)
  }

  // It is refused when it names nothing: out of range, the wrong way round, or with a step that
  // is no step of the range.
  predicate Proper(f: Form, step: Option<int>, lo: int, hi: int) {
    && lo <= hi && (step.Some? ==> 1 <= step.value <= hi - lo + 1)
    && match f
       case Star => true
       case One(a) => lo <= a <= hi
       case Span(a, b) => lo <= a <= b <= hi
  }

  predicate Signless(f: Form) {
    match f case Star => true case One(a) => a >= 0 case Span(a, b) => a >= 0 && b >= 0
  }

  predicate Small(n: int) { -LIMIT <= n < LIMIT }

  predicate Writable(f: Form, step: Option<int>) {
    && (step.Some? ==> Small(step.value) && step.value >= 0)
    && match f case Star => true case One(a) => Small(a) case Span(a, b) => Small(a) && Small(b)
  }

  lemma {:induction false} CutNone(s: string, sep: char)
    requires sep !in s
    ensures Cut(s, sep) == (s, "", false)
  {
    if s != "" {
      CutNone(s[1..], sep);
      assert [s[0]] + s[1..] == s;
    }
  }

  lemma {:induction false} CutHere(left: string, right: string, sep: char)
    requires sep !in left
    ensures Cut(left + [sep] + right, sep) == (left, right, true)
  {
    var s := left + [sep] + right;
    if left == "" {
      assert s[1..] == right;
    } else {
      assert s[1..] == left[1..] + [sep] + right;
      CutHere(left[1..], right, sep);
      assert [left[0]] + left[1..] == left;
    }
  }

  lemma ItoaPlain(n: int)
    ensures Itoa(n) != "" && Itoa(n) != "*" && '/' !in Itoa(n) && (n >= 0 ==> '-' !in Itoa(n) && Itoa(n)[0] != '-')
    ensures n < 0 ==> Itoa(n)[0] == '-'
  {
    if n < 0 {
      var digits := Digits(-n);
      assert Itoa(n) == "-" + digits && AllDigits(digits);
    } else {
      assert forall i :: 0 <= i < |Itoa(n)| ==> IsDigit(Itoa(n)[i]);
    }
  }

  lemma BasePlain(f: Form)
    ensures '/' !in BaseText(f)
  {
    match f
    case Star =>
    case One(a) => ItoaPlain(a);
    case Span(a, b) => ItoaPlain(a); ItoaPlain(b);
  }

  // How a part falls apart.
  lemma PartCut(f: Form, step: Option<int>)
    ensures Cut(PartText(f, step), '/')
            == if step.None? then (BaseText(f), "", false) else (BaseText(f), Itoa(step.value), true)
  {
    BasePlain(f);
    if step.None? {
      CutNone(BaseText(f), '/');
    } else {
      CutHere(BaseText(f), Itoa(step.value), '/');
      assert PartText(f, step) == BaseText(f) + ['/'] + Itoa(step.value);
    }
  }

  // A part of a cron field is read as the range of what it names.
  lemma RangeRead(f: Form, step: Option<int>, lo: int, hi: int)
    requires Writable(f, step) && Signless(f) && lo <= hi
    ensures var r := RangeOf(PartText(f, step), lo, hi, true);
            && (r.Some? <==> Proper(f, step, lo, hi))
            && (r.Some? ==>
                  && r.value.step == (if step.None? then 1 else step.value)
                  && match f
                     case Star => r.value.first == lo && r.value.last == hi
                     case One(a) => r.value.first == a && r.value.last == if step.None? then a else hi
                     case Span(a, b) => r.value.first == a && r.value.last == b)
  {
    hide Cut, Atoi, Itoa;
    PartCut(f, step);
    if step.Some? { AtoiItoa(step.value); }
    match f
    case Star =>
    case One(a) =>
      ItoaPlain(a);
      AtoiItoa(a);
      CutNone(Itoa(a), '-');
    case Span(a, b) =>
      SpanCut(a, b);
      AtoiItoa(a);
      AtoiItoa(b);
  }

  lemma SpanCut(a: int, b: int)
    requires a >= 0
    ensures BaseText(Span(a, b)) != "*" && Cut(BaseText(Span(a, b)), '-') == (Itoa(a), Itoa(b), true)
  {
    ItoaPlain(a);
    CutHere(Itoa(a), Itoa(b), '-');
    var s := BaseText(Span(a, b));
    assert s == Itoa(a) + ['-'] + Itoa(b);
    assert |s| >= 2;
  }

  lemma PartMeans(f: Form, step: Option<int>, lo: int, hi: int, v: int)
    requires Writable(f, step) && Signless(f) && lo <= hi
    ensures RangeOf(PartText(f, step), lo, hi, true).Some? <==> Proper(f, step, lo, hi)
    ensures Proper(f, step, lo, hi) ==> (InPart(PartText(f, step), lo, hi, true, v) <==> Names(f, step, lo, hi, v))
  {
    hide RangeOf;
    RangeRead(f, step, lo, hi);
  }

  // A list of an RRULE has numbers only, which may be negative.
  lemma NumberMeans(f: Form, step: Option<int>, lo: int, hi: int, v: int)
    requires Writable(f, step) && lo <= hi && (f.Span? ==> f.a >= 0)
    ensures RangeOf(PartText(f, step), lo, hi, false).Some? <==> f.One? && step.None? && lo <= f.a <= hi
    ensures InPart(PartText(f, step), lo, hi, false, v) <==> f.One? && step.None? && lo <= f.a <= hi && v == f.a
  {
    hide Cut, Atoi, Itoa;
    PartCut(f, step);
    match f
    case Star =>
    case One(a) =>
      ItoaPlain(a);
      AtoiItoa(a);
      if a >= 0 { CutNone(Itoa(a), '-'); }
    case Span(a, b) =>
      SpanCut(a, b);
      ItoaPlain(a);
      assert BaseText(f)[0] == Itoa(a)[0];
  }

  // ---- Names.

  function KeyName(key: Key): string {
    match key
    case FREQ => "FREQ" case INTERVAL => "INTERVAL" case COUNT => "COUNT" case UNTIL => "UNTIL"
    case BYMINUTE => "BYMINUTE" case BYHOUR => "BYHOUR" case BYMONTH => "BYMONTH"
    case BYMONTHDAY => "BYMONTHDAY" case BYDAY => "BYDAY"
  }

  lemma KeysExactly(s: string, key: Key)
    ensures KeyOf(s) == Some(key) <==> s == KeyName(key)
    ensures '=' !in KeyName(key) && KeyName(key) != ""
  {
  }

  function FreqName(freq: Freq): string {
    match freq
    case Minutely => "MINUTELY" case Hourly => "HOURLY" case Daily => "DAILY"
    case Weekly => "WEEKLY" case Monthly => "MONTHLY" case Yearly => "YEARLY"
  }

  lemma FreqsExactly(s: string, freq: Freq)
    ensures FreqOf(s) == Some(freq) <==> s == FreqName(freq)
  {
  }

  // From Sunday on.
  function DayName(day: int): string
    requires 0 <= day < 7
  {
    match day
    case 0 => "SU" case 1 => "MO" case 2 => "TU" case 3 => "WE" case 4 => "TH" case 5 => "FR" case _ => "SA"
  }

  lemma DaysExactly(s: string, day: int)
    ensures DayIndex(s) == Some(day) <==> 0 <= day < 7 && s == DayName(day)
  {
  }

  // ---- The parts of an RRULE.

  // Every part is the name of a key, "=" and a value, no key is named twice, and the map has
  // these keys with these values.
  ghost predicate Lists(parts: seq<string>, keys: seq<Key>, values: map<Key, string>) {
    && |keys| == |parts| && Distinct(keys) && (forall k :: k in values <==> k in keys)
    && forall i :: 0 <= i < |parts| ==>
         keys[i] in values && values[keys[i]] != "" && parts[i] == KeyName(keys[i]) + "=" + values[keys[i]]
  }

  lemma OneMorePart(parts: seq<string>, keys: seq<Key>, values: map<Key, string>, key: Key, value: string)
    requires Lists(parts, keys, values) && key !in values && value != ""
    ensures Lists(parts + [KeyName(key) + "=" + value], keys + [key], values[key := value])
  {
    hide KeyName;
    forall i | 0 <= i < |keys| ensures keys[i] != key { assert keys[i] in keys; }
  }

  lemma OneFewerPart(parts: seq<string>, keys: seq<Key>, values: map<Key, string>) returns (fewer: map<Key, string>)
    requires Lists(parts, keys, values) && parts != []
    ensures var last := |parts| - 1;
            && Lists(parts[..last], keys[..last], fewer) && keys[last] !in fewer && keys[last] in values
            && values == fewer[keys[last] := values[keys[last]]] && values[keys[last]] != ""
            && parts[last] == KeyName(keys[last]) + "=" + values[keys[last]]
  {
    hide KeyName;
    var last := |parts| - 1;
    var key := keys[last];
    fewer := map k | k in values && k != key :: values[k];
    forall k ensures k in fewer <==> k in keys[..last] {
      if k in keys && k != key {
        var i :| 0 <= i < |keys| && keys[i] == k;
        assert keys[..last][i] == k;
      }
      if k in keys[..last] {
        var i :| 0 <= i < last && keys[..last][i] == k;
        assert keys[i] != keys[last];
      }
    }
    assert values == fewer[key := values[key]];
  }

  lemma {:induction false} PairsListed(parts: seq<string>, keys: seq<Key>, values: map<Key, string>)
    requires Lists(parts, keys, values)
    ensures Pairs(parts) == Some(values)
    decreases |parts|
  {
    hide Lists, KeyName, AddPair;
    NoParts(parts, keys, values);
    if parts != [] {
      var fewer := OneFewerPart(parts, keys, values);
      var last := |parts| - 1;
      PairsListed(parts[..last], keys[..last], fewer);
      AddsPair(fewer, keys[last], values[keys[last]]);
    }
  }

  lemma NoParts(parts: seq<string>, keys: seq<Key>, values: map<Key, string>)
    requires Lists(parts, keys, values)
    ensures |keys| == |parts| && (parts == [] ==> values == map[])
  {
  }

  lemma AddsPair(values: map<Key, string>, key: Key, value: string)
    requires key !in values && value != ""
    ensures AddPair(values, KeyName(key) + "=" + value) == Some(values[key := value])
  {
    hide KeyOf, KeyName, Cut;
    KeysExactly(KeyName(key), key);
    CutHere(KeyName(key), value, '=');
    assert KeyName(key) + "=" + value == KeyName(key) + ['='] + value;
  }

  lemma AddedPair(values: map<Key, string>, part: string) returns (key: Key, value: string)
    requires AddPair(values, part).Some?
    ensures key !in values && value != "" && part == KeyName(key) + "=" + value
    ensures AddPair(values, part) == Some(values[key := value])
  {
    hide KeyOf, KeyName;
    var (k, v, ok) := Cut(part, '=');
    key, value := KeyOf(k).value, v;
    KeysExactly(k, key);
    assert k + ['='] + v == k + "=" + v;
  }

  lemma {:induction false} ListedPairs(parts: seq<string>) returns (keys: seq<Key>)
    requires Pairs(parts).Some?
    ensures Lists(parts, keys, Pairs(parts).value)
  {
    hide KeyName, AddPair;
    if parts == [] {
      keys := [];
    } else {
      var last := |parts| - 1;
      var before := ListedPairs(parts[..last]);
      var values := Pairs(parts[..last]).value;
      var key, value := AddedPair(values, parts[last]);
      OneMorePart(parts[..last], before, values, key, value);
      keys := before + [key];
      assert parts[..last] + [parts[last]] == parts;
    }
  }

  // The parts are read exactly when they are such a list.
  lemma PairsExactly(parts: seq<string>, values: map<Key, string>)
    ensures Pairs(parts) == Some(values) <==> exists keys :: Lists(parts, keys, values)
  {
    if Pairs(parts) == Some(values) {
      var keys := ListedPairs(parts);
    }
    if keys :| Lists(parts, keys, values) { PairsListed(parts, keys, values); }
  }

  // INTERVAL is accepted while it is shorter than 400 years: of years, months, or weeks of the
  // 146097 days.
  lemma FitsExactly(freq: Freq, interval: int)
    requires 1 <= interval <= 100000
    ensures Fits(freq, interval)
            <==> match freq
                 case Yearly => 12 * interval < 12 * 400
                 case Monthly => interval < 12 * 400
                 case Weekly => 7 * interval < 146097
                 case _ => true
  {
  }

  // The name of the property may stand before the rule, once.
  // What a rule names before its parts are read: the day and time of its start where the frequency
  // does not run through them, and everything else.
  lemma DefaultsExactly(zone: Z.Zone, start: int, freq: Freq, values: map<Key, string>, subminute: bool, v: int)
    ensures var b := Base(zone, start, freq, values, subminute);
            var c := zone.Local(start / 60_000_000_000);
            var date := G.DateOf(c / 1440);
            && (v in b.hours <==> if freq == Minutely || freq == Hourly then 0 <= v <= 23 else v == c % 1440 / 60)
            && (v in b.minutes <==> if freq == Minutely then 0 <= v <= 59 else v == c % 60)
            && (v in b.months <==> if freq == Yearly && BYMONTHDAY !in values && BYDAY !in values then v == date.month
                                   else 1 <= v <= 12)
            && (v in b.days <==> if freq == Monthly || freq == Yearly then v == date.day else 1 <= v <= 31)
            && (v in b.weekdays <==> if freq == Weekly then v == G.Weekday(c / 1440) else 0 <= v <= 6)
            && b.interval == 1 && b.until == None && b.count == 0 && b.start == Some(start) && !b.cron
  {
    hide G.DateOf;
  }

  lemma BodyExactly(rule: string)
    ensures Body("RRULE:" + rule) == rule
    ensures !("RRULE:" <= rule) ==> Body(rule) == rule
  {
  }
}
