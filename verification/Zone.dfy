// A time zone as a table of offset changes, and the resolution of civil minutes to instants
// (zoneDay and resolveCivil of kit/calendar/schedule.go). Instants and civil times are
// counted in minutes; a day has 1440.
module Zone {
  import opened Wrappers

  const DAY := 1440

  datatype Change = Change(at: int, off: int)

  // The offset is `first` before the first change.
  datatype Zone = Zone(first: int, changes: seq<Change>) {
    function Off(k: nat): int
      requires k <= |changes|
    {
      if k == 0 then first else changes[k - 1].off
    }

    // Offsets stay below a day, and a clock that is set back does not reach the minute at
    // which the offset it leaves began.
    ghost predicate Valid() {
      && (forall k :: 0 <= k <= |changes| ==> -DAY < Off(k) < DAY)
      && (forall j, k :: 0 <= j < k < |changes| ==> changes[j].at < changes[k].at)
      && (forall k {:trigger Advances(k)} :: 1 <= k < |changes| ==> Advances(k))
    }

    ghost predicate Advances(k: nat)
      requires 1 <= k < |changes|
    {
      changes[k - 1].at + Off(k) < changes[k].at + Off(k + 1)
    }

    // Number of changes up to and including minute t.
    function Index(t: int): (k: nat)
      ensures k <= |changes|
    {
      IndexIn(t, |changes|)
    }

    function IndexIn(t: int, n: nat): (k: nat)
      requires n <= |changes|
      ensures k <= n
    {
      if n == 0 || changes[n - 1].at <= t then n else IndexIn(t, n - 1)
    }

    function Offset(t: int): int {
      Off(Index(t))
    }

    // Where the period of minute t ends.
    function Bound(t: int): Option<int> {
      if Index(t) == |changes| then None else Some(changes[Index(t)].at)
    }

    // What clocks show at minute t.
    function Local(t: int): int {
      t + Offset(t)
    }
  }

  lemma {:induction false} IndexIs(z: Zone, t: int, n: nat)
    requires n <= |z.changes|
    ensures var k := z.IndexIn(t, n);
            && (k > 0 ==> z.changes[k - 1].at <= t)
            && forall j :: k <= j < n ==> t < z.changes[j].at
  {
    if n > 0 && z.changes[n - 1].at > t { IndexIs(z, t, n - 1); }
  }

  // The period of minute t is the one between the changes around t.
  lemma IndexUnique(z: Zone, t: int, k: nat)
    requires z.Valid() && k <= |z.changes| && (k > 0 ==> z.changes[k - 1].at <= t)
    requires k < |z.changes| ==> t < z.changes[k].at
    ensures z.Index(t) == k
  {
    IndexIs(z, t, |z.changes|);
  }

  lemma IndexGrows(z: Zone, s: int, t: int)
    requires z.Valid() && s <= t
    ensures z.Index(s) <= z.Index(t)
  {
    IndexIs(z, s, |z.changes|);
    IndexIs(z, t, |z.changes|);
  }

  // The first minute at which clocks show c or later.
  function First(z: Zone, c: int): (t: int)
    requires z.Valid()
    ensures z.Local(t) >= c && c - DAY < t < c + DAY
    ensures forall s :: s < t ==> z.Local(s) < c
  {
    FirstFrom(z, c, c - DAY)
  }

  function FirstFrom(z: Zone, c: int, from: int): (t: int)
    requires z.Valid() && from < c + DAY && forall s :: s < from ==> z.Local(s) < c
    ensures z.Local(t) >= c && from <= t < c + DAY
    ensures forall s :: s < t ==> z.Local(s) < c
    decreases c + DAY - from
  {
    if z.Local(from) >= c then from else FirstFrom(z, c, from + 1)
  }

  lemma FirstIs(z: Zone, c: int, t: int)
    requires z.Valid() && z.Local(t) >= c && forall s :: s < t ==> z.Local(s) < c
    ensures First(z, c) == t
  {
  }

  // Later civil minutes never resolve to earlier instants.
  lemma FirstGrows(z: Zone, c: int, d: int)
    requires z.Valid() && c <= d
    ensures First(z, c) <= First(z, d)
  {
  }

  // The clock reading at the beginning of a period is below every later reading.
  lemma {:induction false} ReadingsGrow(z: Zone, j: nat, k: nat)
    requires z.Valid() && 1 <= j <= k <= |z.changes|
    ensures z.changes[j - 1].at + z.Off(j) <= z.changes[k - 1].at + z.Off(k)
    decreases k - j
  {
    if j < k {
      assert z.Advances(k - 1);
      ReadingsGrow(z, j, k - 1);
    }
  }

  // A civil minute that clocks show at all resolves to the first time they show it: they
  // do not run past it before.
  lemma ShownFirst(z: Zone, c: int, t: int)
    requires z.Valid() && z.Local(t) == c
    ensures z.Local(First(z, c)) == c
  {
    var f := First(z, c);
    if z.Local(f) > c {
      JumpedOver(z, c);
      IndexIs(z, t, |z.changes|);
      IndexGrows(z, f, t);
      ReadingsGrow(z, z.Index(f), z.Index(t));
    }
  }

  // A civil minute that clocks never show lies in the gap that begins where it resolves to.
  lemma JumpedOver(z: Zone, c: int)
    requires z.Valid() && z.Local(First(z, c)) > c
    ensures var f, k := First(z, c), z.Index(First(z, c));
            k > 0 && z.changes[k - 1].at == f && f + z.Off(k - 1) <= c < f + z.Off(k)
  {
    var f, k := First(z, c), z.Index(First(z, c));
    IndexIs(z, f, |z.changes|);
    assert z.Local(f - 1) < c;
    if k == 0 || z.changes[k - 1].at < f {
      IndexUnique(z, f - 1, k);
    } else {
      IndexUnique(z, f - 1, k - 1);
    }
  }

  // ---- The offsets and gaps around one day.

  datatype Gap = Gap(from: int, to: int, at: int)

  function GapAt(z: Zone, k: nat): Gap
    requires k < |z.changes|
  {
    Gap(z.changes[k].at + z.Off(k), z.changes[k].at + z.Off(k + 1), z.changes[k].at)
  }

  // A change that sets clocks forward leaves a gap.
  function Widen(gaps: seq<Gap>, off: int, newOff: int, at: int): seq<Gap> {
    if newOff > off then gaps + [Gap(at + off, at + newOff, at)] else gaps
  }

  // The gaps among the changes j up to and not including k, in their order.
  function GapsIn(z: Zone, j: nat, k: nat): (gaps: seq<Gap>)
    requires j <= k <= |z.changes|
    decreases k
  {
    if j == k then [] else Widen(GapsIn(z, j, k - 1), z.Off(k - 1), z.Off(k), z.changes[k - 1].at)
  }

  function Start(day: int): int { (day - 2) * DAY }

  function End(day: int): int { (day + 3) * DAY }

  function Include(offsets: seq<int>, off: int): (r: seq<int>)
    ensures off in r && forall x :: x in offsets ==> x in r
  {
    if off in offsets then offsets else offsets + [off]
  }

  // The distinct offsets of the periods j up to and not including k, in their order.
  function OffsetsIn(z: Zone, j: nat, k: nat): seq<int>
    requires j <= k <= |z.changes| + 1
    decreases k
  {
    if j == k then [] else Include(OffsetsIn(z, j, k - 1), z.Off(k - 1))
  }

  lemma {:induction false} OffsetIn(z: Zone, j: nat, k: nat, i: nat)
    requires j <= i < k <= |z.changes| + 1
    ensures z.Off(i) in OffsetsIn(z, j, k)
    decreases k
  {
    if i < k - 1 { OffsetIn(z, j, k - 1, i); }
  }

  // Numbers of the first and the last period that the days around `day` meet.
  function Low(z: Zone, day: int): nat { z.Index(Start(day)) }

  function High(z: Zone, day: int): (k: nat)
    requires z.Valid()
    ensures Low(z, day) <= k <= |z.changes|
  {
    IndexGrows(z, Start(day), End(day) - 1);
    z.Index(End(day) - 1)
  }

  // The boundary walk of zoneDay over the five days around `day`.
  method ZoneDay(z: Zone, day: int) returns (offsets: seq<int>, gaps: seq<Gap>)
    requires z.Valid()
    ensures offsets == OffsetsIn(z, Low(z, day), High(z, day) + 1)
    ensures gaps == GapsIn(z, Low(z, day), High(z, day))
  {
    var at, end := Start(day), End(day);
    offsets, gaps := [], [];
    ghost var low, high, k := Low(z, day), High(z, day), Low(z, day);
    while at < end
      invariant at < end && low <= k == z.Index(at) <= high == z.Index(end - 1)
      invariant offsets == OffsetsIn(z, low, k) && gaps == GapsIn(z, low, k)
      decreases high - k
    {
      var off, next := z.Offset(at), z.Bound(at);
      offsets := Include(offsets, off);
      if next.None? || next.value >= end {
        LastPeriod(z, end, k);
        break;
      }
      NextPeriod(z, end, k);
      gaps := Widen(gaps, off, z.Offset(next.value), next.value);
      at, k := next.value, k + 1;
    }
  }

  lemma LastPeriod(z: Zone, end: int, k: nat)
    requires z.Valid() && k <= z.Index(end - 1) && (k < |z.changes| ==> z.changes[k].at >= end)
    ensures k == z.Index(end - 1)
  {
    IndexIs(z, end - 1, |z.changes|);
  }

  lemma NextPeriod(z: Zone, end: int, k: nat)
    requires z.Valid() && k < |z.changes| && z.changes[k].at < end
    ensures z.Index(z.changes[k].at) == k + 1 <= z.Index(end - 1)
  {
    IndexUnique(z, z.changes[k].at, k + 1);
    IndexGrows(z, z.changes[k].at, end - 1);
  }

  // ---- Resolution of a civil minute.

  lemma {:induction false} GapIn(z: Zone, j: nat, k: nat, i: nat)
    requires z.Valid() && j <= i < k <= |z.changes| && z.Off(i + 1) > z.Off(i)
    ensures GapAt(z, i) in GapsIn(z, j, k)
    decreases k
  {
    if i < k - 1 { GapIn(z, j, k - 1, i); }
  }

  // What a gap in the list is, and that the list is in order of time.
  lemma {:induction false} GapsAre(z: Zone, j: nat, k: nat)
    requires z.Valid() && j <= k <= |z.changes|
    ensures var gaps := GapsIn(z, j, k);
            && (forall g :: g in gaps ==> exists i: nat :: j <= i < k && g == GapAt(z, i))
            && (forall a, b :: 0 <= a < b < |gaps| ==> gaps[a].at < gaps[b].at)
            && (k > 0 ==> forall g :: g in gaps ==> g.at <= z.changes[k - 1].at)
    decreases k
  {
    if j < k {
      GapsAre(z, j, k - 1);
      assert GapAt(z, k - 1) == Gap(z.changes[k - 1].at + z.Off(k - 1), z.changes[k - 1].at + z.Off(k), z.changes[k - 1].at);
      forall g | g in GapsIn(z, j, k) ensures exists i: nat :: j <= i < k && g == GapAt(z, i) {
        if g in GapsIn(z, j, k - 1) {
          var i: nat :| j <= i < k - 1 && g == GapAt(z, i);
        }
      }
    }
  }

  // What the first loop of resolveCivil looks for among the first n offsets.
  ghost predicate EarliestShown(z: Zone, c: int, offsets: seq<int>, n: nat, best: Option<int>)
    requires n <= |offsets|
  {
    && (best.Some? ==> z.Local(best.value) == c)
    && (forall i :: 0 <= i < n && z.Local(c - offsets[i]) == c ==> best.Some? && best.value <= c - offsets[i])
  }

  // The offsets include every one at which clocks show c.
  ghost predicate Covers(z: Zone, c: int, offsets: seq<int>) {
    forall t :: z.Local(t) == c ==> exists i :: 0 <= i < |offsets| && offsets[i] == c - t
  }

  // The gaps are in order and include the one in which clocks jump over c, if they do.
  ghost predicate Bridges(z: Zone, c: int, gaps: seq<Gap>)
    requires z.Valid()
  {
    && (forall a, b :: 0 <= a < b < |gaps| ==> gaps[a].at < gaps[b].at)
    && (forall a :: 0 <= a < |gaps| && gaps[a].from <= c < gaps[a].to ==> First(z, c) <= gaps[a].at)
    && (z.Local(First(z, c)) > c ==>
          exists a :: 0 <= a < |gaps| && gaps[a].from <= c < gaps[a].to && gaps[a].at == First(z, c))
  }

  predicate OnDay(day: int, c: int) {
    day * DAY <= c < (day + 1) * DAY
  }

  // The days around a civil minute have all the offsets and gaps its resolution needs.
  lemma WindowCovers(z: Zone, day: int, c: int)
    requires z.Valid() && OnDay(day, c)
    ensures Covers(z, c, OffsetsIn(z, Low(z, day), High(z, day) + 1))
  {
    forall t | z.Local(t) == c ensures c - t in OffsetsIn(z, Low(z, day), High(z, day) + 1) {
      IndexGrows(z, Start(day), t);
      IndexGrows(z, t, End(day) - 1);
      OffsetIn(z, Low(z, day), High(z, day) + 1, z.Index(t));
    }
  }

  lemma WindowBridges(z: Zone, day: int, c: int)
    requires z.Valid() && OnDay(day, c)
    ensures Bridges(z, c, GapsIn(z, Low(z, day), High(z, day)))
  {
    var gaps := GapsIn(z, Low(z, day), High(z, day));
    GapsAre(z, Low(z, day), High(z, day));
    forall a | 0 <= a < |gaps| && gaps[a].from <= c < gaps[a].to ensures First(z, c) <= gaps[a].at {
      assert gaps[a] in gaps;
      var i: nat :| i < |z.changes| && gaps[a] == GapAt(z, i);
      GapNotEarlier(z, c, i);
    }
    if z.Local(First(z, c)) > c { GapListed(z, day, c); }
  }

  lemma GapNotEarlier(z: Zone, c: int, k: nat)
    requires z.Valid() && k < |z.changes| && GapAt(z, k).from <= c < GapAt(z, k).to
    ensures First(z, c) <= GapAt(z, k).at
  {
    IndexUnique(z, z.changes[k].at, k + 1);
    assert z.Local(z.changes[k].at) > c;
  }

  // The gap in which the clocks jump over c is in the list.
  lemma GapListed(z: Zone, day: int, c: int)
    requires z.Valid() && OnDay(day, c) && z.Local(First(z, c)) > c
    ensures var k := z.Index(First(z, c));
            && k > 0 && GapAt(z, k - 1) in GapsIn(z, Low(z, day), High(z, day))
            && GapAt(z, k - 1).from <= c < GapAt(z, k - 1).to && GapAt(z, k - 1).at == First(z, c)
  {
    var f := First(z, c);
    var k := z.Index(f);
    JumpedOver(z, c);
    IndexGrows(z, f, End(day) - 1);
    IndexUnique(z, f - 1, k - 1);
    IndexGrows(z, Start(day), f - 1);
    GapIn(z, Low(z, day), High(z, day), k - 1);
  }

  lemma EarliestIsFirst(z: Zone, c: int, offsets: seq<int>, best: Option<int>)
    requires z.Valid() && Covers(z, c, offsets) && EarliestShown(z, c, offsets, |offsets|, best)
    ensures best.Some? ==> best.value == First(z, c)
    ensures best.None? ==> z.Local(First(z, c)) > c
  {
    if best.Some? { ShownFirst(z, c, best.value); }
    if z.Local(First(z, c)) == c {
      var i :| 0 <= i < |offsets| && offsets[i] == c - First(z, c);
      assert c - offsets[i] == First(z, c);
    }
  }

  // A civil minute resolves to the first instant at which clocks show it or a later one: its
  // earlier occurrence in a fold, and the transition in a gap.
  method ResolveCivil(z: Zone, c: int, offsets: seq<int>, gaps: seq<Gap>) returns (at: Option<int>)
    requires z.Valid() && Covers(z, c, offsets) && Bridges(z, c, gaps)
    ensures at == Some(First(z, c))
  {
    at := EarliestAt(z, c, offsets);
    EarliestIsFirst(z, c, offsets, at);
    if at.Some? { return; }
    for i := 0 to |gaps|
      invariant at.None? && forall j :: 0 <= j < i ==> !(gaps[j].from <= c < gaps[j].to)
    {
      if gaps[i].from <= c && c < gaps[i].to {
        at := Some(gaps[i].at);
        return;
      }
    }
    assert false;
  }

  method EarliestAt(z: Zone, c: int, offsets: seq<int>) returns (best: Option<int>)
    ensures EarliestShown(z, c, offsets, |offsets|, best)
  {
    best := None;
    for i := 0 to |offsets|
      invariant EarliestShown(z, c, offsets, i, best)
    {
      var t := c - offsets[i];
      if z.Local(t) == c && (best.None? || t < best.value) { best := Some(t); }
    }
  }
}
