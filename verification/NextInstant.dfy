// Schedule.Next: the next instant of a rule after a given one, and what repeated calls
// enumerate (kit/calendar/schedule.go).
module NextInstant {
  import opened Sequences
  import opened Wrappers
  import opened Gregorian
  import Z = Zone
  import opened Schedule

  // ---- sort.Slice.

  ghost predicate Ordered(xs: seq<int>) {
    forall i, j :: 0 <= i < j < |xs| ==> xs[i] <= xs[j]
  }

  method Insert(xs: seq<int>, x: int) returns (ys: seq<int>)
    requires Ordered(xs)
    ensures Ordered(ys) && forall y :: y in ys <==> y == x || y in xs
    ensures Increasing(xs) && x !in xs ==> Increasing(ys)
  {
    var i := 0;
    while i < |xs| && xs[i] < x
      invariant 0 <= i <= |xs| && forall k :: 0 <= k < i ==> xs[k] < x
    {
      i := i + 1;
    }
    ys := xs[..i] + [x] + xs[i..];
  }

  method Sort(xs: seq<int>) returns (ys: seq<int>)
    ensures Ordered(ys) && forall y :: y in ys <==> y in xs
    ensures Distinct(xs) ==> Increasing(ys)
  {
    ys := [];
    for i := 0 to |xs|
      invariant Ordered(ys) && forall y :: y in ys <==> y in xs[..i]
      invariant Distinct(xs) ==> Increasing(ys)
    {
      ys := Insert(ys, xs[i]);
    }
  }

  // ---- One step of the sweep over the instants.

  datatype Outcome = Found(at: int) | Exhausted | Beyond

  // s lists the instants before x that come from civil days d and later.
  ghost predicate EarlierFrom(r: Rule, d: int, x: int, s: seq<int>)
    requires r.Valid()
  {
    Increasing(s) && forall y :: y in s <==> OccursFrom(r, d, y) && y < x
  }

  // The instants passed so far: none ends the series, and none is after `after`.
  ghost predicate Behind(r: Rule, after: int, passed: seq<int>)
    requires r.Valid()
  {
    && (forall x :: x in passed ==> x <= after && (r.until.Some? ==> x <= r.until.value))
    && (r.count > 0 ==> |passed| < r.count)
  }

  function Last(s: seq<int>): Option<int> {
    if s == [] then None else Some(s[|s| - 1])
  }

  // What Found(at) says about the instants from day d on.
  ghost predicate NextFrom(r: Rule, d: int, after: int, at: int)
    requires r.Valid()
  {
    && OccursFrom(r, d, at) && at > after && (r.until.Some? ==> at <= r.until.value)
    && (forall x :: OccursFrom(r, d, x) && x < at ==> x <= after)
    && (r.count > 0 ==> exists s :: EarlierFrom(r, d, at, s) && |s| < r.count)
  }

  // COUNT instants come before x.
  ghost predicate Full(r: Rule, d: int, x: int)
    requires r.Valid()
  {
    exists s :: Increasing(s) && |s| >= r.count > 0 && forall y :: y in s ==> OccursFrom(r, d, y) && y < x
  }

  // What Exhausted says: whatever comes after `after` is after UNTIL or beyond COUNT.
  ghost predicate NoneFrom(r: Rule, d: int, after: int)
    requires r.Valid()
  {
    forall x :: OccursFrom(r, d, x) && x > after ==> (r.until.Some? && x > r.until.value) || Full(r, d, x)
  }

  lemma PastUntil(r: Rule, d: int, after: int, passed: seq<int>, at: int)
    requires r.Valid() && EarlierFrom(r, d, at, passed) && Behind(r, after, passed)
    requires r.until.Some? && at > r.until.value
    ensures NoneFrom(r, d, after)
  {
    forall x | OccursFrom(r, d, x) && x > after ensures x > r.until.value {
      assert x !in passed;
    }
  }

  lemma CountReached(r: Rule, d: int, after: int, passed: seq<int>, at: int)
    requires r.Valid() && EarlierFrom(r, d, at, passed) && OccursFrom(r, d, at) && at <= after
    requires |passed| + 1 == r.count
    ensures NoneFrom(r, d, after)
  {
    var s := passed + [at];
    forall i | 0 <= i < |passed| ensures passed[i] < at { assert passed[i] in passed; }
    forall y | y in s ensures OccursFrom(r, d, y) && y <= at { assert y in passed || y == at; }
    forall x | OccursFrom(r, d, x) && x > after ensures Full(r, d, x) {
      assert Increasing(s) && |s| >= r.count > 0;
    }
  }

  lemma FoundNext(r: Rule, d: int, after: int, passed: seq<int>, at: int)
    requires r.Valid() && EarlierFrom(r, d, at, passed) && Behind(r, after, passed)
    requires OccursFrom(r, d, at) && at > after && (r.until.Some? ==> at <= r.until.value)
    ensures NextFrom(r, d, after, at)
  {
    forall x | OccursFrom(r, d, x) && x < at ensures x <= after {
      assert x in passed;
    }
  }

  // ---- One day.

  // passed lists the instants from days d up to and not including e.
  ghost predicate Swept(r: Rule, d: int, e: int, passed: seq<int>)
    requires r.Valid()
  {
    Increasing(passed) && forall x :: x in passed <==> OccursBefore(r, d, e, x)
  }

  // passed lists those before day e and the first i of the instants xs of day e.
  ghost predicate Within(r: Rule, d: int, e: int, xs: seq<int>, i: nat, passed: seq<int>)
    requires r.Valid() && i <= |xs|
  {
    Increasing(passed) && forall x :: x in passed <==> OccursBefore(r, d, e, x) || x in xs[..i]
  }

  lemma DayOf(e: int, c: int)
    ensures Z.OnDay(e, c) <==> c / DAY == e
  {
  }

  // Whatever is not listed yet is not before the instant at hand.
  lemma Frontier(r: Rule, d: int, e: int, xs: seq<int>, i: nat, passed: seq<int>)
    requires r.Valid() && d <= e && DateMatches(r, e) && i < |xs| && Within(r, d, e, xs, i, passed)
    requires Ordered(xs) && forall x :: x in xs <==> OccursOn(r, e, x)
    ensures OccursFrom(r, d, xs[i])
    ensures forall x :: x in passed ==> x <= xs[i] && OccursFrom(r, d, x)
    ensures forall x :: OccursFrom(r, d, x) && x < xs[i] ==> x in passed
  {
    assert xs[i] in xs;
    var b :| Z.OnDay(e, b) && HitsTime(r, b, xs[i]);
    DayOf(e, b);
    assert Hits(r, b, xs[i]);
    forall x | x in passed ensures x <= xs[i] && OccursFrom(r, d, x) {
      if x in xs[..i] {
        ListedOccurs(r, d, e, xs, x);
      } else {
        var c :| d * DAY <= c < e * DAY && Hits(r, c, x);
        AtGrows(r, c, b);
      }
    }
    forall x | OccursFrom(r, d, x) && x < xs[i] ensures x in passed {
      var c :| c >= d * DAY && Hits(r, c, x);
      if c >= b { AtGrows(r, b, c); }
      if c >= e * DAY { OnlyListed(r, e, xs, i, c, x); }
    }
  }

  lemma ListedOccurs(r: Rule, d: int, e: int, xs: seq<int>, x: int)
    requires r.Valid() && d <= e && DateMatches(r, e) && x in xs && forall x :: x in xs <==> OccursOn(r, e, x)
    ensures OccursFrom(r, d, x)
  {
    var c :| Z.OnDay(e, c) && HitsTime(r, c, x);
    DayOf(e, c);
    assert Hits(r, c, x);
  }

  lemma ListedBefore(r: Rule, d: int, e: int, xs: seq<int>, x: int, end: int)
    requires r.Valid() && d <= e < end && DateMatches(r, e) && x in xs && forall x :: x in xs <==> OccursOn(r, e, x)
    ensures OccursBefore(r, d, end, x)
  {
    var c :| Z.OnDay(e, c) && HitsTime(r, c, x);
    DayOf(e, c);
    assert Hits(r, c, x);
  }

  lemma OnlyListed(r: Rule, e: int, xs: seq<int>, i: nat, c: int, x: int)
    requires r.Valid() && i < |xs| && Ordered(xs) && (forall x :: x in xs <==> OccursOn(r, e, x))
    requires Z.OnDay(e, c) && HitsTime(r, c, x) && x < xs[i]
    ensures x in xs[..i]
  {
    assert x in xs;
    var k :| 0 <= k < |xs| && xs[k] == x;
    assert k < i;
    assert xs[..i][k] == x;
  }

  // The instants of a day in their order, up to one that ends the search.
  method Visit(r: Rule, d: int, day: int, after: int, xs: seq<int>, previous: Option<int>, seen: int,
               ghost passed: seq<int>)
    returns (res: Option<Outcome>, last: Option<int>, total: int, ghost now: seq<int>)
    requires r.Valid() && d <= day && DateMatches(r, day)
    requires Ordered(xs) && forall x :: x in xs <==> OccursOn(r, day, x)
    requires Swept(r, d, day, passed) && Behind(r, after, passed)
    requires previous == Last(passed) && seen == |passed|
    ensures match res
            case None => && Within(r, d, day, xs, |xs|, now) && Behind(r, after, now)
                         && last == Last(now) && total == |now|
            case Some(Found(at)) => NextFrom(r, d, after, at) && at in xs
            case Some(Exhausted) => NoneFrom(r, d, after) && (r.until.Some? || r.count > 0)
            case Some(Beyond) => false
  {
    last, total, now := previous, seen, passed;
    for i := 0 to |xs|
      invariant Within(r, d, day, xs, i, now) && Behind(r, after, now)
      invariant last == Last(now) && total == |now|
    {
      var at := xs[i];
      Frontier(r, d, day, xs, i, now);
      if Some(at) == last {
        continue;
      }
      NewInstant(r, d, day, xs, i, now);
      last := Some(at);
      if r.until.Some? && at > r.until.value {
        PastUntil(r, d, after, now, at);
        return Some(Exhausted), last, total, now;
      }
      total := total + 1;
      // The code returns here when `total` exceeds COUNT, which the exit below precludes.
      if r.count > 0 && total > r.count { assert false; }
      if at > after {
        FoundNext(r, d, after, now, at);
        return Some(Found(at)), last, total, now;
      }
      if r.count > 0 && total == r.count {
        CountReached(r, d, after, now, at);
        return Some(Exhausted), last, total, now;
      }
      now := now + [at];
    }
    res := None;
  }

  lemma NewInstant(r: Rule, d: int, day: int, xs: seq<int>, i: nat, passed: seq<int>)
    requires r.Valid() && i < |xs| && Within(r, d, day, xs, i, passed) && Some(xs[i]) != Last(passed)
    requires forall x :: x in passed ==> x <= xs[i] && OccursFrom(r, d, x)
    requires forall x :: OccursFrom(r, d, x) && x < xs[i] ==> x in passed
    ensures EarlierFrom(r, d, xs[i], passed) && Within(r, d, day, xs, i + 1, passed + [xs[i]])
  {
    assert xs[..i + 1] == xs[..i] + [xs[i]];
    forall k | 0 <= k < |passed| ensures passed[k] < xs[i] {
      assert passed[|passed| - 1] in passed && passed[k] in passed;
    }
  }

  // ---- The search.

  lemma EmptyDay(r: Rule, d: int, e: int, passed: seq<int>)
    requires r.Valid() && d <= e && Swept(r, d, e, passed) && !DateMatches(r, e)
    ensures Swept(r, d, e + 1, passed)
  {
    forall x ensures OccursBefore(r, d, e + 1, x) <==> OccursBefore(r, d, e, x) {
      if OccursBefore(r, d, e + 1, x) {
        var c :| d * DAY <= c < (e + 1) * DAY && Hits(r, c, x);
        DayOf(e, c);
      }
    }
  }

  lemma WholeDay(r: Rule, d: int, e: int, xs: seq<int>, passed: seq<int>)
    requires r.Valid() && d <= e && DateMatches(r, e) && Within(r, d, e, xs, |xs|, passed)
    requires forall x :: x in xs <==> OccursOn(r, e, x)
    ensures Swept(r, d, e + 1, passed)
  {
    assert xs[..|xs|] == xs;
    forall x ensures OccursBefore(r, d, e + 1, x) <==> x in passed {
      if OccursBefore(r, d, e + 1, x) {
        var c :| d * DAY <= c < (e + 1) * DAY && Hits(r, c, x);
        if c >= e * DAY { assert Z.OnDay(e, c) && x in xs; }
      }
      if x in xs {
        var c :| Z.OnDay(e, c) && HitsTime(r, c, x);
        DayOf(e, c);
        assert Hits(r, c, x);
      }
    }
  }

  // Two days after UNTIL nothing of the series is left.
  lemma UntilLongPast(r: Rule, d: int, e: int, after: int, passed: seq<int>)
    requires r.Valid() && d <= e && Swept(r, d, e + 1, passed) && Behind(r, after, passed)
    requires r.until.Some? && e * DAY * MINUTE > r.until.value + 2 * DAY * MINUTE
    ensures NoneFrom(r, d, after)
  {
    forall x | OccursFrom(r, d, x) && x > after ensures x > r.until.value {
      var c :| c >= d * DAY && Hits(r, c, x);
      assert x !in passed && c >= (e + 1) * DAY;
      AtNear(r, c);
    }
  }

  function FromStart(r: Rule, after: int): bool
    requires r.Valid()
  {
    r.count > 0 || (r.start.Some? && after < r.start.value)
  }

  function FirstDay(r: Rule, after: int): int
    requires r.Valid()
  {
    if FromStart(r, after) then r.StartDay() else r.zone.Local(after / MINUTE) / DAY
  }

  ghost predicate NoneBefore(r: Rule, d: int, e: int, after: int)
    requires r.Valid()
  {
    forall x :: OccursBefore(r, d, e, x) ==> x <= after
  }

  method Search(r: Rule, after: int) returns (res: Outcome)
    requires r.Valid()
    ensures var d := FirstDay(r, after);
            match res
            case Found(at) => NextFrom(r, d, after, at) && OccursBefore(r, d, d + PERIOD, at)
            case Exhausted => NoneFrom(r, d, after)
            case Beyond => NoneBefore(r, d, d + PERIOD, after)
    ensures res.Exhausted? ==> r.until.Some? || r.count > 0
  {
    hide DayNumber, DateOf, IsDate, DateMatches, HitsTime, NextFrom, NoneFrom;
    var first := FirstDay(r, after);
    var date := DateOf(first);
    DateIsDate(first);
    Add400Years(date);
    var end := DayNumber(date.(year := date.year + 400));
    var previous: Option<int>, seen := None, 0;
    ghost var passed: seq<int> := [];
    for day := first to end
      invariant Swept(r, first, day, passed) && Behind(r, after, passed)
      invariant previous == Last(passed) && seen == |passed|
    {
      if !DateMatches(r, day) {
        EmptyDay(r, first, day, passed);
        continue;
      }
      var xs := DayInstants(r, day);
      xs := Sort(xs);
      ghost var before := passed;
      var out;
      out, previous, seen, passed := Visit(r, first, day, after, xs, previous, seen, before);
      if out.Some? {
        if out.value.Found? { ListedBefore(r, first, day, xs, out.value.at, end); }
        return out.value;
      }
      WholeDay(r, first, day, xs, passed);
      if r.until.Some? && day * DAY * MINUTE > r.until.value + 2 * DAY * MINUTE {
        UntilLongPast(r, first, day, after, passed);
        return Exhausted;
      }
    }
    res := Beyond;
  }

  // ---- What this says about the series.

  // Starting on the civil day of `after` skips nothing that comes after it.
  lemma OccursFromAfter(r: Rule, after: int, x: int)
    requires r.Valid() && !FromStart(r, after) && x > after
    ensures Occurs(r, x) <==> OccursFrom(r, FirstDay(r, after), x)
  {
    var d := FirstDay(r, after);
    if Occurs(r, x) {
      var c :| (r.start.Some? ==> c / DAY >= r.StartDay()) && Hits(r, c, x);
      if c < d * DAY { AtPassed(r, c, after); }
    }
    if OccursFrom(r, d, x) {
      var c :| c >= d * DAY && Hits(r, c, x);
      if r.start.Some? && c / DAY < r.StartDay() { BeforeStart(r, c, x); }
    }
  }

  lemma OccursFromFirst(r: Rule, after: int, x: int)
    requires r.Valid() && (FromStart(r, after) || x > after)
    ensures Occurs(r, x) <==> OccursFrom(r, FirstDay(r, after), x)
  {
    if FromStart(r, after) { } else { OccursFromAfter(r, after, x); }
  }

  lemma NextInSeries(r: Rule, after: int, at: int)
    requires r.Valid() && NextFrom(r, FirstDay(r, after), after, at)
    ensures InSeries(r, at) && at > after && forall x :: InSeries(r, x) && x > after ==> x >= at
  {
    var d := FirstDay(r, after);
    OccursFromFirst(r, after, at);
    if r.count > 0 {
      var s :| EarlierFrom(r, d, at, s) && |s| < r.count;
      forall y ensures Occurs(r, y) <==> OccursFrom(r, d, y) { OccursFromFirst(r, after, y); }
      assert Earlier(r, at, s);
    }
    forall x | InSeries(r, x) && x > after ensures x >= at { OccursFromFirst(r, after, x); }
  }

  function Elements(s: seq<int>): set<int> {
    set x | x in s
  }

  lemma {:induction false} IncreasingSize(s: seq<int>)
    requires Increasing(s)
    ensures |Elements(s)| == |s|
  {
    if s != [] {
      var t := s[..|s| - 1];
      IncreasingSize(t);
      assert s == t + [s[|s| - 1]];
      assert Elements(s) == Elements(t) + {s[|s| - 1]};
      assert s[|s| - 1] !in Elements(t);
    }
  }

  lemma SubsetSize(a: set<int>, b: set<int>)
    requires a <= b
    ensures |a| <= |b|
  {
    assert b == a + (b - a);
  }

  lemma IncreasingFits(s: seq<int>, t: seq<int>)
    requires Increasing(s) && Increasing(t) && forall x :: x in s ==> x in t
    ensures |s| <= |t|
  {
    IncreasingSize(s);
    IncreasingSize(t);
    SubsetSize(Elements(s), Elements(t));
  }

  lemma NoneInSeries(r: Rule, after: int)
    requires r.Valid() && NoneFrom(r, FirstDay(r, after), after)
    ensures forall x :: InSeries(r, x) ==> x <= after
  {
    var d := FirstDay(r, after);
    forall x | InSeries(r, x) ensures x <= after {
      if x > after {
        OccursFromFirst(r, after, x);
        if Full(r, d, x) {
          var s :| Increasing(s) && |s| >= r.count > 0 && forall y :: y in s ==> OccursFrom(r, d, y) && y < x;
          var t :| Earlier(r, x, t) && |t| < r.count;
          forall y | y in s ensures y in t { OccursFromFirst(r, after, y); }
          IncreasingFits(s, t);
        }
      }
    }
  }

  // With COUNT the series has at most that many members.
  lemma SeriesWithinCount(r: Rule, s: seq<int>)
    requires r.Valid() && r.count > 0 && Increasing(s) && forall x :: x in s ==> InSeries(r, x)
    ensures |s| <= r.count
  {
    if s != [] {
      var last := s[|s| - 1];
      assert last in s;
      var t :| Earlier(r, last, t) && |t| < r.count;
      forall x | x in s[..|s| - 1] ensures x in t { assert x in s; }
      IncreasingFits(s[..|s| - 1], t);
    }
  }
}
