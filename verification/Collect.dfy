// collect: one response of the provider becomes the items and calls of a round
// (kit/loop/stream.go).
module Collect {
  import opened Sequences
  import opened Wrappers

  datatype Call = Call(id: string, name: string, arguments: nat, custom: bool)

  // An item of a response; `body` stands for the rest of its JSON.
  datatype Item = Plain(body: nat) | Asking(call: Call, body: nat)

  datatype Event =
    | Delta(index: int, text: string)
    | ItemDone(index: int, item: Option<Item>)      // None: not JSON of an item
    | CallReady(index: int, call: Option<Call>)
    | Terminal(index: int)
    | Unknown(index: int)

  predicate Named(c: Call) {
    c.id != "" && c.name != ""
  }

  // The values of a map with indexes below n, in their order.
  function Values<T>(m: map<int, T>, n: nat): seq<T> {
    if n == 0 then [] else Values(m, n - 1) + if n - 1 in m then [m[n - 1]] else []
  }

  function CallsOf(items: seq<Item>): seq<Call> {
    if items == [] then []
    else CallsOf(items[..|items| - 1]) + if items[|items| - 1].Asking? then [items[|items| - 1].call] else []
  }

  function Ids(calls: seq<Call>): (ids: seq<string>)
    ensures |ids| == |calls| && forall i :: 0 <= i < |calls| ==> ids[i] == calls[i].id
  {
    seq(|calls|, i requires 0 <= i < |calls| => calls[i].id)
  }

  // What the tables of a response agree on: an index has a call when it has a function-call
  // item, or a ready call that still waits for its item.
  ghost predicate Agree(items: map<int, Item>, calls: map<int, Call>, itemCalls: map<int, Call>) {
    && (forall i :: i in itemCalls <==> i in items && items[i].Asking?)
    && (forall i :: i in itemCalls ==> i in calls && items[i].call == itemCalls[i] == calls[i])
    && (forall i :: i in calls ==> Named(calls[i]))
  }

  // The check at the Terminal: every call has its item.
  predicate Covered(calls: map<int, Call>, itemCalls: map<int, Call>) {
    forall i :: i in calls ==> i in itemCalls && itemCalls[i] == calls[i]
  }

  lemma {:induction false} CallsOfValues(items: map<int, Item>, calls: map<int, Call>, itemCalls: map<int, Call>,
                                         n: nat)
    requires Agree(items, calls, itemCalls) && Covered(calls, itemCalls)
    ensures CallsOf(Values(items, n)) == Values(calls, n)
  {
    if n > 0 {
      CallsOfValues(items, calls, itemCalls, n - 1);
      if n - 1 in items {
        if items[n - 1].Asking? { assert n - 1 in itemCalls; } else { assert n - 1 !in itemCalls; }
      } else {
        assert n - 1 !in itemCalls && n - 1 !in calls;
        assert Values(items, n) == Values(items, n - 1) && Values(calls, n) == Values(calls, n - 1);
      }
    }
  }

  lemma {:induction false} ValuesFrom<T>(m: map<int, T>, n: nat)
    ensures forall v :: v in Values(m, n) ==> exists i :: i in m && m[i] == v
  {
    if n > 0 { ValuesFrom(m, n - 1); }
  }

  // The calls that repeat no id of an earlier one.
  function Firsts(calls: seq<Call>): (out: seq<Call>) {
    if calls == [] then []
    else
      var before, last := calls[..|calls| - 1], calls[|calls| - 1];
      Firsts(before) + if last.id in Ids(before) then [] else [last]
  }

  // The calls of a response, without the ones that repeat an id: these are an error.
  method List(calls: map<int, Call>, n: nat) returns (out: seq<Call>, ok: bool)
    ensures Distinct(Ids(out)) && (ok ==> out == Values(calls, n))
    ensures forall c :: c in out ==> c in Values(calls, n)
    ensures ok <==> Distinct(Ids(Values(calls, n)))
    ensures out == Firsts(Values(calls, n))
  {
    hide Values, Firsts, Distinct, Ids;
    NoCalls(calls);
    out, ok := [], true;
    for i := 0 to n
      invariant Distinct(Ids(out)) && (ok ==> out == Values(calls, i))
      invariant out == Firsts(Values(calls, i))
      invariant forall c :: c in out ==> c in Values(calls, i)
      invariant forall id :: id in Ids(Values(calls, i)) <==> id in Ids(out)
      invariant ok <==> Distinct(Ids(Values(calls, i)))
    {
      NextValue(calls, i);
      if i in calls {
        var c := calls[i];
        OneMoreId(Values(calls, i), c);
        OneMoreFirst(Values(calls, i), c);
        OneMoreId(out, c);
        if c.id in Ids(out) {
          ok := false;
        } else {
          out := out + [c];
        }
      }
    }
  }

  lemma NoCalls(calls: map<int, Call>)
    ensures Values(calls, 0) == [] && Firsts([]) == [] && Ids([]) == [] && Distinct(Ids([]))
  {
  }

  lemma NextValue(calls: map<int, Call>, i: nat)
    ensures Values(calls, i + 1) == if i in calls then Values(calls, i) + [calls[i]] else Values(calls, i)
  {
  }

  lemma OneMoreFirst(calls: seq<Call>, c: Call)
    ensures Firsts(calls + [c]) == if c.id in Ids(calls) then Firsts(calls) else Firsts(calls) + [c]
  {
    assert (calls + [c])[..|calls + [c]| - 1] == calls;
  }

  lemma OneMoreId(calls: seq<Call>, c: Call)
    ensures Ids(calls + [c]) == Ids(calls) + [c.id]
    ensures Distinct(Ids(calls + [c])) <==> Distinct(Ids(calls)) && c.id !in Ids(calls)
  {
    var ids, more := Ids(calls), Ids(calls + [c]);
    assert more == ids + [c.id];
    if Distinct(more) { assert forall k :: 0 <= k < |ids| ==> more[k] == ids[k]; }
    if c.id in ids {
      var k :| 0 <= k < |ids| && ids[k] == c.id;
      assert more[k] == more[|ids|];
    }
  }

  // The table holds exactly the items of the first k events, all below the width.
  ghost predicate Listed(events: seq<Event>, k: nat, items: map<int, Item>, width: nat)
    requires k <= |events|
  {
    && (forall i :: i in items ==> 0 <= i < width && ItemDone(i, Some(items[i])) in events[..k])
    && (forall j :: 0 <= j < k && events[j].ItemDone? ==>
          events[j].index in items && Some(items[events[j].index]) == events[j].item)
  }

  // ---- When a response is good.

  // What may go wrong around one event, or behind the last one.
  datatype Fault = Cancelled | JournalFails | ObserverFails

  // An event that may stand in a response by itself.
  predicate Proper(e: Event) {
    && e.index >= 0
    && match e
       case Delta(_, _) => true
       case ItemDone(_, None) => false
       case ItemDone(_, Some(Plain(_))) => true
       case ItemDone(_, Some(Asking(c, _))) => c.id != "" && c.name != ""
       case CallReady(_, None) => false
       case CallReady(_, Some(c)) => c.id != "" && c.name != ""
       case Terminal(_) => true
       case Unknown(_) => false
  }

  // Two events that may both stand in it: an index has one item and is announced as ready once,
  // and both name the same call; nothing follows Terminal.
  predicate Fit(e: Event, later: Event) {
    && !e.Terminal?
    && !(e.ItemDone? && later.ItemDone? && e.index == later.index)
    && !(e.CallReady? && later.CallReady? && e.index == later.index)
    && Names(e, later) && Names(later, e)
  }

  predicate Names(item: Event, ready: Event) {
    item.ItemDone? && ready.CallReady? && item.index == ready.index && item.item.Some? && item.item.value.Asking? ==>
      ready.call == Some(item.item.value.call)
  }

  // A function-call item at this index.
  predicate Asks(e: Event, index: int) {
    e.ItemDone? && e.index == index && e.item.Some? && e.item.value.Asking?
  }

  ghost predicate Good(events: seq<Event>) {
    && GoodFirst(events, |events|)
    && events != [] && events[|events| - 1].Terminal?
  }

  // The first k events are proper and fit each other, and at Terminal every call has its item.
  ghost predicate GoodFirst(events: seq<Event>, k: nat)
    requires k <= |events|
  {
    && (forall i :: 0 <= i < k ==> Proper(events[i]))
    && (forall i, j :: 0 <= i < j < k ==> Fit(events[i], events[j]))
    && (forall i, j :: 0 <= i < j < k && events[i].CallReady? && events[j].Terminal? ==>
          exists a :: 0 <= a < j && Asks(events[a], events[i].index))
  }

  // Nobody interferes with the reading of k events.
  predicate Undisturbed(events: seq<Event>, faults: map<nat, Fault>, k: nat)
    requires k <= |events|
  {
    forall i :: 0 <= i < k && i in faults ==> faults[i].JournalFails? && !events[i].ItemDone?
  }

  // The indexes of items, of function-call items and of ready calls among the first k events.
  function DoneAt(events: seq<Event>, k: nat): set<int>
    requires k <= |events|
  {
    if k == 0 then {} else DoneAt(events, k - 1) + if events[k - 1].ItemDone? then {events[k - 1].index} else {}
  }

  function AskedAt(events: seq<Event>, k: nat): set<int>
    requires k <= |events|
  {
    if k == 0 then {}
    else AskedAt(events, k - 1) + if Asks(events[k - 1], events[k - 1].index) then {events[k - 1].index} else {}
  }

  function ReadyAt(events: seq<Event>, k: nat): set<int>
    requires k <= |events|
  {
    if k == 0 then {} else ReadyAt(events, k - 1) + if events[k - 1].CallReady? then {events[k - 1].index} else {}
  }

  lemma {:induction false} WhereReady(events: seq<Event>, k: nat, index: int) returns (j: nat)
    requires k <= |events| && index in ReadyAt(events, k)
    ensures j < k && events[j].CallReady? && events[j].index == index
  {
    j := k - 1;
    if !(events[j].CallReady? && events[j].index == index) { j := WhereReady(events, k - 1, index); }
  }

  lemma {:induction false} WhereAsked(events: seq<Event>, k: nat, index: int) returns (j: nat)
    requires k <= |events| && index in AskedAt(events, k)
    ensures j < k && Asks(events[j], index)
  {
    if Asks(events[k - 1], index) { j := k - 1; } else { j := WhereAsked(events, k - 1, index); }
  }

  lemma {:induction false} WhereDone(events: seq<Event>, k: nat, index: int) returns (j: nat)
    requires k <= |events| && index in DoneAt(events, k)
    ensures j < k && events[j].ItemDone? && events[j].index == index
  {
    j := k - 1;
    if !(events[j].ItemDone? && events[j].index == index) { j := WhereDone(events, k - 1, index); }
  }

  lemma {:induction false} Stands(events: seq<Event>, k: nat, j: nat)
    requires j < k <= |events|
    ensures events[j].ItemDone? ==> events[j].index in DoneAt(events, k)
    ensures events[j].CallReady? ==> events[j].index in ReadyAt(events, k)
    ensures Asks(events[j], events[j].index) ==> events[j].index in AskedAt(events, k)
  {
    if j < k - 1 { Stands(events, k - 1, j); }
  }

  // What good events say of two of them.
  lemma GoodPair(events: seq<Event>, n: nat, i: nat, j: nat)
    requires i < j < n <= |events| && GoodFirst(events, n)
    ensures Proper(events[i]) && Proper(events[j]) && Fit(events[i], events[j])
  {
    hide Proper, Fit;
  }

  lemma AskedBefore(events: seq<Event>, n: nat, j: nat, k: nat) returns (a: nat)
    requires j < k < n <= |events| && GoodFirst(events, n) && events[j].CallReady? && events[k].Terminal?
    ensures a < k && Asks(events[a], events[j].index)
  {
    hide Proper, Fit, Asks;
    a :| 0 <= a < k && Asks(events[a], events[j].index);
  }

  // The tables hold what the first k events say.
  ghost predicate Tabled(events: seq<Event>, k: nat, items: map<int, Item>, calls: map<int, Call>, itemCalls: map<int, Call>,
                         ready: set<int>)
    requires k <= |events|
  {
    && items.Keys == DoneAt(events, k) && ready == ReadyAt(events, k) && itemCalls.Keys == AskedAt(events, k)
    && calls.Keys == itemCalls.Keys + ready
    && (forall j :: 0 <= j < k && Asks(events[j], events[j].index) ==>
          events[j].index in itemCalls && itemCalls[events[j].index] == events[j].item.value.call)
    && (forall j :: 0 <= j < k && events[j].CallReady? ==>
          events[j].index in calls && Some(calls[events[j].index]) == events[j].call)
  }

  // What the reader checks of an event, by its tables.
  predicate Accepts(e: Event, items: map<int, Item>, calls: map<int, Call>, itemCalls: map<int, Call>, ready: set<int>) {
    && e.index >= 0
    && match e
       case Delta(_, _) => true
       case ItemDone(index, item) =>
         && index !in items && item.Some?
         && (item.value.Asking? ==> Named(item.value.call) && (index in calls ==> calls[index] == item.value.call))
       case CallReady(index, call) =>
         && index !in ready && call.Some? && Named(call.value) && (index in calls ==> calls[index] == call.value)
       case Terminal(_) => Covered(calls, itemCalls)
       case Unknown(_) => false
  }

  lemma GoodPrefix(events: seq<Event>, k: nat, n: nat)
    requires k <= n <= |events| && GoodFirst(events, n)
    ensures GoodFirst(events, k)
  {
  }

  // These checks are what the next event needs to be good.
  lemma GoodNext(events: seq<Event>, k: nat, items: map<int, Item>, calls: map<int, Call>, itemCalls: map<int, Call>,
                 ready: set<int>)
    requires k < |events| && GoodFirst(events, k) && Tabled(events, k, items, calls, itemCalls, ready)
    requires Agree(items, calls, itemCalls)
    ensures GoodFirst(events, k + 1)
            <==> (k > 0 ==> !events[k - 1].Terminal?) && Accepts(events[k], items, calls, itemCalls, ready)
  {
    hide GoodFirst, Tabled, Accepts, Agree, Fit;
    if (k > 0 ==> !events[k - 1].Terminal?) && Accepts(events[k], items, calls, itemCalls, ready) {
      forall i: nat | i < k ensures Fit(events[i], events[k]) { FitsNext(events, k, items, calls, itemCalls, ready, i); }
      GoodLonger(events, k, items, calls, itemCalls, ready);
    }
    if GoodFirst(events, k + 1) {
      if k > 0 {
        GoodPair(events, k + 1, k - 1, k);
        Unended(events[k - 1], events[k]);
      }
      AcceptsNext(events, k, items, calls, itemCalls, ready);
    }
  }

  lemma Unended(e: Event, later: Event)
    requires Fit(e, later)
    ensures !e.Terminal?
  {
  }

  lemma GoodLonger(events: seq<Event>, k: nat, items: map<int, Item>, calls: map<int, Call>, itemCalls: map<int, Call>,
                   ready: set<int>)
    requires k < |events| && GoodFirst(events, k) && Tabled(events, k, items, calls, itemCalls, ready)
    requires Accepts(events[k], items, calls, itemCalls, ready) && forall i: nat :: i < k ==> Fit(events[i], events[k])
    ensures GoodFirst(events, k + 1)
  {
    hide Fit, Asks, DoneAt, AskedAt, ReadyAt, Names;
    if events[k].Terminal? {
      forall i: nat | i < k && events[i].CallReady? ensures exists a :: 0 <= a < k && Asks(events[a], events[i].index) {
        Stands(events, k, i);
        var a := WhereAsked(events, k, events[i].index);
      }
    }
  }

  lemma FitsNext(events: seq<Event>, k: nat, items: map<int, Item>, calls: map<int, Call>, itemCalls: map<int, Call>,
                 ready: set<int>, i: nat)
    requires i < k < |events| && GoodFirst(events, k) && Tabled(events, k, items, calls, itemCalls, ready)
    requires !events[k - 1].Terminal? && Accepts(events[k], items, calls, itemCalls, ready)
    requires Agree(items, calls, itemCalls)
    ensures Fit(events[i], events[k])
  {
    hide GoodFirst, DoneAt, AskedAt, ReadyAt;
    Stands(events, k, i);
    if i < k - 1 { GoodPair(events, k, i, k - 1); }
    var d, e := events[i], events[k];
    if d.CallReady? { assert Some(calls[d.index]) == d.call; }
    if Asks(d, d.index) { assert itemCalls[d.index] == d.item.value.call; }
  }

  lemma AcceptsNext(events: seq<Event>, k: nat, items: map<int, Item>, calls: map<int, Call>, itemCalls: map<int, Call>,
                    ready: set<int>)
    requires k < |events| && GoodFirst(events, k + 1) && Tabled(events, k, items, calls, itemCalls, ready)
    requires Agree(items, calls, itemCalls)
    ensures Accepts(events[k], items, calls, itemCalls, ready)
  {
    hide GoodFirst, DoneAt, AskedAt, ReadyAt;
    var e := events[k];
    ProperAt(events, k + 1, k);
    match e
    case ItemDone(index, item) =>
      if index in items {
        var j := WhereDone(events, k, index);
        GoodPair(events, k + 1, j, k);
      }
      if item.value.Asking? && index in calls && index in ready {
        var j := WhereReady(events, k, index);
        GoodPair(events, k + 1, j, k);
      }
    case CallReady(index, call) =>
      if index in ready {
        var j := WhereReady(events, k, index);
        GoodPair(events, k + 1, j, k);
      }
      if index in calls && index in itemCalls {
        var j := WhereAsked(events, k, index);
        GoodPair(events, k + 1, j, k);
      }
    case Terminal(_) =>
      AllCovered(events, k + 1, items, calls, itemCalls, ready);
    case _ =>
  }

  lemma ProperAt(events: seq<Event>, n: nat, i: nat)
    requires i < n <= |events| && GoodFirst(events, n)
    ensures Proper(events[i])
  {
    hide Proper, Fit;
  }

  // At Terminal every call has its item.
  lemma AllCovered(events: seq<Event>, n: nat, items: map<int, Item>, calls: map<int, Call>, itemCalls: map<int, Call>,
                   ready: set<int>)
    requires 0 < n <= |events| && GoodFirst(events, n) && events[n - 1].Terminal? && Agree(items, calls, itemCalls)
    requires Tabled(events, n - 1, items, calls, itemCalls, ready)
    ensures Covered(calls, itemCalls)
  {
    hide GoodFirst, DoneAt, AskedAt, ReadyAt, Asks, Proper;
    forall i | i in calls ensures i in itemCalls && itemCalls[i] == calls[i] {
      if i in ready {
        var j := WhereReady(events, n - 1, i);
        var a := AskedBefore(events, n, j, n - 1);
        AsksAt(events[a], i);
        Stands(events, n - 1, a);
      }
    }
  }

  lemma AsksAt(e: Event, index: int)
    requires Asks(e, index)
    ensures e.index == index
  {
  }

  // The tables after one more event.
  lemma TabledNext(events: seq<Event>, k: nat, items: map<int, Item>, calls: map<int, Call>, itemCalls: map<int, Call>,
                   ready: set<int>)
    requires k < |events| && Tabled(events, k, items, calls, itemCalls, ready)
    requires Accepts(events[k], items, calls, itemCalls, ready) && Agree(items, calls, itemCalls)
    ensures match events[k]
            case ItemDone(index, item) =>
              if item.value.Asking? then
                var c := item.value.call;
                Tabled(events, k + 1, items[index := item.value], calls[index := c], itemCalls[index := c], ready)
              else Tabled(events, k + 1, items[index := item.value], calls, itemCalls, ready)
            case CallReady(index, call) =>
              Tabled(events, k + 1, items, calls[index := call.value], itemCalls, ready + {index})
            case _ => Tabled(events, k + 1, items, calls, itemCalls, ready)
  {
    hide Proper, Fit, Named;
    var e := events[k];
    if e.CallReady? { assert calls[e.index := e.call.value].Keys == calls.Keys + {e.index}; }
  }

  // Reads a response to its end.
  method Collect(events: seq<Event>, breaks: bool, faults: map<nat, Fault>)
    returns (items: seq<Item>, calls: seq<Call>, ok: bool, ghost table: map<int, Item>, ghost width: nat)
    // Call ids are distinct even in a response that failed;
    ensures Distinct(Ids(calls)) && forall c :: c in calls ==> Named(c)
    // in one that did not, all items are there, by index, and the calls are those of its
    // function-call items, in their order.
    ensures ok ==> Listed(events, |events|, table, width) && items == Values(table, width) && CallsOf(items) == calls
    // It fails exactly where the response or something around it does, or where an id repeats.
    ensures ok <==> && Fine(events, breaks, faults)
                    && exists answer :: Answers(events, answer) && Distinct(Ids(CallsOf(answer)))
    ensures ok ==> Answers(events, items)
    // Of one that failed there are the calls that were read.
    ensures Partial(events, faults, calls)
  {
    hide Reached, Heard, Firsts;
    var itemMap: map<int, Item>, callMap: map<int, Call>, n: nat;
    ghost var upto;
    itemMap, callMap, n, ok, upto := Read(events, breaks, faults);
    items := Values(itemMap, n);
    var fine;
    calls, fine := List(callMap, n);
    ValuesFrom(callMap, n);
    if ok {
      ListedAnswers(events, itemMap, n);
      forall answer | Answers(events, answer) ensures answer == items { AnswersOnce(events, answer, items); }
    }
    ok, table, width := ok && fine, itemMap, n;
  }

  // ---- What was read of a response that failed.

  // The event names this call at this index.
  predicate Mentions(e: Event, index: int, c: Call) {
    (Asks(e, index) && e.item.value.call == c) || (e.CallReady? && e.index == index && e.call == Some(c))
  }

  // Reading gets as far as k: an observer may fail behind the last event that is taken.
  ghost predicate Reached(events: seq<Event>, faults: map<nat, Fault>, k: nat)
    requires k <= |events|
  {
    var observed := k > 0 && k - 1 in faults && faults[k - 1].ObserverFails?;
    && GoodFirst(events, k)
    && Undisturbed(events, faults, if observed then k - 1 else k)
    && (k < |events| && !observed ==> !GoodFirst(events, k + 1) || Prevented(events[k], k, faults))
  }

  predicate Prevented(e: Event, k: nat, faults: map<nat, Fault>) {
    k in faults && (faults[k].Cancelled? || (faults[k].JournalFails? && e.ItemDone?))
  }

  // The table has the calls that the first k events name.
  ghost predicate Heard(events: seq<Event>, k: nat, calls: map<int, Call>, width: nat)
    requires k <= |events|
  {
    && (forall i :: i in calls ==> 0 <= i < width && exists j :: 0 <= j < k && Mentions(events[j], i, calls[i]))
    && forall j, c :: 0 <= j < k && Mentions(events[j], events[j].index, c) ==>
         events[j].index in calls && calls[events[j].index] == c
  }

  // The calls of a response as far as it was read, by index, without repeated ids.
  ghost predicate Partial(events: seq<Event>, faults: map<nat, Fault>, calls: seq<Call>) {
    exists k: nat, table: map<int, Call>, width: nat ::
      k <= |events| && Reached(events, faults, k) && Heard(events, k, table, width) && calls == Firsts(Values(table, width))
  }

  lemma HeardTabled(events: seq<Event>, k: nat, items: map<int, Item>, calls: map<int, Call>, itemCalls: map<int, Call>,
                    ready: set<int>, width: nat)
    requires k <= |events| && GoodFirst(events, k) && Tabled(events, k, items, calls, itemCalls, ready)
    requires Agree(items, calls, itemCalls) && forall i :: i in calls ==> 0 <= i < width
    ensures Heard(events, k, calls, width)
  {
    hide GoodFirst, DoneAt, AskedAt, ReadyAt;
    forall i | i in calls ensures exists j :: 0 <= j < k && Mentions(events[j], i, calls[i]) {
      if i in ready {
        var j := WhereReady(events, k, i);
      } else {
        var j := WhereAsked(events, k, i);
      }
    }
    forall j: nat, c | j < k && Mentions(events[j], events[j].index, c)
      ensures events[j].index in calls && calls[events[j].index] == c
    {
      Stands(events, k, j);
    }
  }

  // There is one such list.
  lemma PartialOnce(events: seq<Event>, faults: map<nat, Fault>, a: seq<Call>, b: seq<Call>)
    requires Partial(events, faults, a) && Partial(events, faults, b)
    ensures a == b
  {
    hide Reached, Heard, Firsts, Values;
    var k: nat, t: map<int, Call>, m: nat :|
      k <= |events| && Reached(events, faults, k) && Heard(events, k, t, m) && a == Firsts(Values(t, m));
    var l: nat, u: map<int, Call>, n: nat :|
      l <= |events| && Reached(events, faults, l) && Heard(events, l, u, n) && b == Firsts(Values(u, n));
    if k < l { ReachedOnce(events, faults, k, l); }
    if l < k { ReachedOnce(events, faults, l, k); }
    HeardOnce(events, k, t, m, u, n);
    if m <= n { SameValues(t, m, n); } else { SameValues(t, n, m); }
  }

  lemma ReachedOnce(events: seq<Event>, faults: map<nat, Fault>, k: nat, l: nat)
    requires k < l <= |events| && Reached(events, faults, k)
    ensures !Reached(events, faults, l)
  {
    if Reached(events, faults, l) { GoodPrefix(events, k + 1, l); }
  }

  lemma HeardOnce(events: seq<Event>, k: nat, t: map<int, Call>, m: nat, u: map<int, Call>, n: nat)
    requires k <= |events| && Heard(events, k, t, m) && Heard(events, k, u, n)
    ensures t == u && forall i :: i in t ==> 0 <= i < m && i < n
  {
    forall i | i in t ensures i in u && u[i] == t[i] {
      var j :| 0 <= j < k && Mentions(events[j], i, t[i]);
    }
    forall i | i in u ensures i in t && u[i] == t[i] {
      var j :| 0 <= j < k && Mentions(events[j], i, u[i]);
    }
  }

  lemma {:induction false} SameValues<T>(t: map<int, T>, m: nat, n: nat)
    requires m <= n && forall i :: i in t ==> i < m
    ensures Values(t, m) == Values(t, n)
  {
    if m < n { SameValues(t, m, n - 1); }
  }

  // The response is good and nobody interferes with reading it.
  ghost predicate Fine(events: seq<Event>, breaks: bool, faults: map<nat, Fault>) {
    && Good(events) && Undisturbed(events, faults, |events|)
    && !breaks && (|events| in faults ==> faults[|events|] != Cancelled)
  }

  // The items of a response in the order of their indexes.
  ghost predicate Answers(events: seq<Event>, answer: seq<Item>) {
    exists at: seq<nat> :: StandAt(events, answer, at)
  }

  // Item i stands at the event at[i].
  ghost predicate StandAt(events: seq<Event>, answer: seq<Item>, at: seq<nat>) {
    && |at| == |answer|
    && (forall i :: 0 <= i < |at| ==> at[i] < |events| && events[at[i]] == ItemDone(events[at[i]].index, Some(answer[i])))
    && (forall i, j :: 0 <= i < j < |at| ==> events[at[i]].index < events[at[j]].index)
    && forall k: nat :: k < |events| && events[k].ItemDone? ==> k in at
  }

  method Read(events: seq<Event>, breaks: bool, faults: map<nat, Fault>)
    returns (items: map<int, Item>, calls: map<int, Call>, width: nat, ok: bool, ghost upto: nat)
    ensures forall i :: i in calls ==> Named(calls[i])
    ensures upto <= |events| && Reached(events, faults, upto) && Heard(events, upto, calls, width)
    ensures ok ==> Listed(events, |events|, items, width)
    ensures ok <==> Fine(events, breaks, faults)
    ensures ok ==> forall n: nat :: CallsOf(Values(items, n)) == Values(calls, n)
  {
    hide Accepts, Tabled, GoodFirst, Fit, Proper, Covered, Heard, Undisturbed, Reached, Fine, Agree;
    items, calls, width, ok, upto := map[], map[], 0, false, 0;
    var itemCalls: map<int, Call>, ready: set<int>, terminal := map[], {}, false;
    NothingRead(events, faults);
    HeardTabled(events, 0, items, calls, itemCalls, ready, width);
    for k := 0 to |events|
      invariant Agree(items, calls, itemCalls) && !ok && Listed(events, k, items, width)
      invariant GoodFirst(events, k) && Tabled(events, k, items, calls, itemCalls, ready) && Undisturbed(events, faults, k)
      invariant Heard(events, k, calls, width) && upto == k && forall i :: i in calls ==> 0 <= i < width && Named(calls[i])
      invariant terminal == (k > 0 && events[k - 1].Terminal?) && (terminal ==> Covered(calls, itemCalls))
    {
      var e := events[k];
      var fault := if k in faults then Some(faults[k]) else None;
      GoodNext(events, k, items, calls, itemCalls, ready);
      Stops(events, breaks, faults, k);
      if fault == Some(Cancelled) || terminal || e.index < 0 {
        IndexNeeded(e, items, calls, itemCalls, ready);
        return;
      }
      if e.index + 1 > width { width := e.index + 1; }
      HeardTabled(events, k, items, calls, itemCalls, ready, width);
      if Accepts(e, items, calls, itemCalls, ready) { TabledNext(events, k, items, calls, itemCalls, ready); }
      var fine;
      ghost var listed := items;
      items, calls, itemCalls, ready, fine := TakeEvent(e, items, calls, itemCalls, ready, fault == Some(JournalFails));
      if !fine { return; }
      HeardTabled(events, k + 1, items, calls, itemCalls, ready, width);
      upto := k + 1;
      if fault == Some(ObserverFails) { return; }
      ListedNext(events, k, listed, items, width);
      terminal := e.Terminal?;
    }
    AtEnd(events, breaks, faults);
    ok := terminal && !breaks && !(|events| in faults && faults[|events|].Cancelled?);
    if ok {
      forall n: nat ensures CallsOf(Values(items, n)) == Values(calls, n) { CallsOfValues(items, calls, itemCalls, n); }
    }
  }

  // Where reading stops, and where it goes on.
  lemma Stops(events: seq<Event>, breaks: bool, faults: map<nat, Fault>, k: nat)
    requires k < |events| && GoodFirst(events, k) && Undisturbed(events, faults, k)
    ensures !GoodFirst(events, k + 1) || Prevented(events[k], k, faults) ==>
              Reached(events, faults, k) && !Fine(events, breaks, faults)
    ensures GoodFirst(events, k + 1) && !Prevented(events[k], k, faults) ==>
              if k in faults && faults[k].ObserverFails? then Reached(events, faults, k + 1) && !Fine(events, breaks, faults)
              else Undisturbed(events, faults, k + 1)
  {
    if GoodFirst(events, |events|) { GoodPrefix(events, k + 1, |events|); }
    hide GoodFirst;
  }

  lemma AtEnd(events: seq<Event>, breaks: bool, faults: map<nat, Fault>)
    requires GoodFirst(events, |events|) && Undisturbed(events, faults, |events|)
    ensures Reached(events, faults, |events|)
    ensures Fine(events, breaks, faults)
            <==> |events| > 0 && events[|events| - 1].Terminal? && !breaks
                 && !(|events| in faults && faults[|events|].Cancelled?)
  {
    hide GoodFirst;
  }

  lemma ListedNext(events: seq<Event>, k: nat, items: map<int, Item>, more: map<int, Item>, width: nat)
    requires k < |events| && Listed(events, k, items, width)
    requires var e := events[k];
             if e.ItemDone? then
               && e.item.Some? && e.index !in items && 0 <= e.index < width && more == items[e.index := e.item.value]
             else more == items
    ensures Listed(events, k + 1, more, width)
  {
    assert events[..k + 1] == events[..k] + [events[k]];
  }

  lemma NothingRead(events: seq<Event>, faults: map<nat, Fault>)
    ensures GoodFirst(events, 0) && Tabled(events, 0, map[], map[], map[], {}) && Undisturbed(events, faults, 0)
    ensures Agree(map[], map[], map[])
  {
  }

  lemma IndexNeeded(e: Event, items: map<int, Item>, calls: map<int, Call>, itemCalls: map<int, Call>, ready: set<int>)
    ensures e.index < 0 ==> !Accepts(e, items, calls, itemCalls, ready)
  {
  }

  // One event.
  method TakeEvent(e: Event, items: map<int, Item>, calls: map<int, Call>, itemCalls: map<int, Call>, ready: set<int>,
                   journalFails: bool)
    returns (items': map<int, Item>, calls': map<int, Call>, itemCalls': map<int, Call>, ready': set<int>, fine: bool)
    requires e.index >= 0 && Agree(items, calls, itemCalls)
    ensures fine <==> Accepts(e, items, calls, itemCalls, ready) && !(journalFails && e.ItemDone?)
    ensures !fine ==> calls' == calls
    ensures fine ==> Agree(items', calls', itemCalls') && forall i :: i in calls' ==> Named(calls'[i])
    ensures fine && e.Terminal? ==> Covered(calls', itemCalls')
    ensures fine ==> match e
                     case ItemDone(index, item) =>
                       && item.Some? && index !in items && items' == items[index := item.value] && ready' == ready
                       && (if item.value.Asking? then
                             calls' == calls[index := item.value.call] && itemCalls' == itemCalls[index := item.value.call]
                           else calls' == calls && itemCalls' == itemCalls)
                     case CallReady(index, call) =>
                       && items' == items && ready' == ready + {index}
                       && calls' == calls[index := call.value] && itemCalls' == itemCalls
                     case _ => items' == items && calls' == calls && itemCalls' == itemCalls && ready' == ready
  {
    items', calls', itemCalls', ready', fine := items, calls, itemCalls, ready, false;
    match e {
      case Delta(_, _) =>
      case ItemDone(index, item) =>
        if index in items || item.None? || journalFails { return; }
        if item.value.Asking? {
          var c := item.value.call;
          if !Named(c) || (index in calls && calls[index] != c) { return; }
          calls', itemCalls' := calls[index := c], itemCalls[index := c];
        }
        items' := items[index := item.value];
      case CallReady(index, call) =>
        if index in ready || call.None? || !Named(call.value) || (index in calls && calls[index] != call.value) { return; }
        calls', ready' := calls[index := call.value], ready + {index};
      case Terminal(_) =>
        if !Covered(calls, itemCalls) { return; }
      case Unknown(_) => return;
    }
    fine := true;
  }

  // What is listed by index is such an answer,
  lemma ListedAnswers(events: seq<Event>, items: map<int, Item>, width: nat)
    requires Listed(events, |events|, items, width) && Good(events)
    ensures Answers(events, Values(items, width))
  {
    hide Values, GoodFirst;
    var at := Positions(events, items, width);
    forall k: nat | k < |events| && events[k].ItemDone? ensures k in at {
      Placed(events, items, width, at, k);
    }
    assert StandAt(events, Values(items, width), at);
  }

  lemma Placed(events: seq<Event>, items: map<int, Item>, width: nat, at: seq<nat>, k: nat)
    requires Listed(events, |events|, items, width) && Good(events) && k < |events| && events[k].ItemDone?
    requires forall i :: 0 <= i < |at| ==> at[i] < |events| && events[at[i]].ItemDone?
    requires forall m :: 0 <= m < width && m in items ==> exists i :: 0 <= i < |at| && events[at[i]].index == m
    ensures k in at
  {
    hide GoodFirst;
    var i :| 0 <= i < |at| && events[at[i]].index == events[k].index;
    OneItem(events, at[i], k);
  }

  // An index has one item.
  lemma OneItem(events: seq<Event>, i: nat, j: nat)
    requires i < |events| && j < |events| && GoodFirst(events, |events|)
    requires events[i].ItemDone? && events[j].ItemDone? && events[i].index == events[j].index
    ensures i == j
  {
    hide GoodFirst;
    if i < j { GoodPair(events, |events|, i, j); }
    if j < i { GoodPair(events, |events|, j, i); }
  }

  // Item i of the values of a table stands at at[i].
  ghost predicate Positioned(events: seq<Event>, items: map<int, Item>, n: nat, at: seq<nat>) {
    && |at| == |Values(items, n)|
    && (forall i :: 0 <= i < |at| ==>
          && at[i] < |events| && events[at[i]] == ItemDone(events[at[i]].index, Some(Values(items, n)[i]))
          && events[at[i]].index < n)
    && (forall i, j :: 0 <= i < j < |at| ==> events[at[i]].index < events[at[j]].index)
  }

  // Where the items with indexes below n stand.
  lemma {:induction false} Positions(events: seq<Event>, items: map<int, Item>, n: nat) returns (at: seq<nat>)
    requires forall i :: i in items ==> ItemDone(i, Some(items[i])) in events
    ensures Positioned(events, items, n, at) && forall i :: 0 <= i < |at| ==> at[i] < |events|
    ensures forall m :: 0 <= m < n && m in items ==> exists i :: 0 <= i < |at| && events[at[i]].index == m
  {
    hide Positioned;
    if n == 0 {
      at := [];
      NonePositioned(events, items);
    } else {
      var before := Positions(events, items, n - 1);
      at := before;
      if n - 1 in items {
        var k: nat :| k < |events| && events[k] == ItemDone(n - 1, Some(items[n - 1]));
        at := before + [k];
        OnePositioned(events, items, n, before, k);
        forall m | 0 <= m < n && m in items ensures exists i :: 0 <= i < |at| && events[at[i]].index == m {
          if m == n - 1 {
            assert at[|before|] == k;
          } else {
            var i :| 0 <= i < |before| && events[before[i]].index == m;
            assert at[i] == before[i];
          }
        }
      } else {
        SamePositioned(events, items, n, before);
      }
    }
  }

  lemma NonePositioned(events: seq<Event>, items: map<int, Item>)
    ensures Positioned(events, items, 0, [])
  {
  }

  lemma SamePositioned(events: seq<Event>, items: map<int, Item>, n: nat, at: seq<nat>)
    requires n > 0 && n - 1 !in items && Positioned(events, items, n - 1, at)
    ensures Positioned(events, items, n, at)
  {
    assert Values(items, n) == Values(items, n - 1);
  }

  lemma OnePositioned(events: seq<Event>, items: map<int, Item>, n: nat, at: seq<nat>, k: nat)
    requires n > 0 && n - 1 in items && Positioned(events, items, n - 1, at)
    requires k < |events| && events[k] == ItemDone(n - 1, Some(items[n - 1]))
    ensures Positioned(events, items, n, at + [k])
  {
    assert Values(items, n) == Values(items, n - 1) + [items[n - 1]];
  }

  // and there is only one.
  lemma AnswersOnce(events: seq<Event>, a: seq<Item>, b: seq<Item>)
    requires Answers(events, a) && Answers(events, b)
    ensures a == b
  {
    var p := AnswerAt(events, a);
    var q := AnswerAt(events, b);
    SortedOnce(events, p, q);
  }

  lemma AnswerAt(events: seq<Event>, a: seq<Item>) returns (at: seq<nat>)
    requires Answers(events, a)
    ensures |at| == |a| && forall i :: 0 <= i < |at| ==> at[i] < |events| && events[at[i]].ItemDone?
    ensures forall i :: 0 <= i < |at| ==> events[at[i]].item == Some(a[i])
    ensures forall i, j :: 0 <= i < j < |at| ==> events[at[i]].index < events[at[j]].index
    ensures forall k: nat :: k in at <==> k < |events| && events[k].ItemDone?
  {
    at :| StandAt(events, a, at);
  }

  lemma {:induction false} SortedOnce(events: seq<Event>, p: seq<nat>, q: seq<nat>)
    requires forall i :: 0 <= i < |p| ==> p[i] < |events|
    requires forall i :: 0 <= i < |q| ==> q[i] < |events|
    requires forall i, j :: 0 <= i < j < |p| ==> events[p[i]].index < events[p[j]].index
    requires forall i, j :: 0 <= i < j < |q| ==> events[q[i]].index < events[q[j]].index
    requires forall k: nat :: k in p <==> k in q
    ensures p == q
  {
    assert (p != [] ==> p[0] in p) && (q != [] ==> q[0] in q);
    if p != [] && q != [] {
      FirstSame(events, p, q);
      FirstOnce(events, p);
      FirstOnce(events, q);
      forall k: nat ensures k in p[1..] <==> k in q[1..] {
        assert k in p <==> k == p[0] || k in p[1..];
        assert k in q <==> k == q[0] || k in q[1..];
      }
      SortedOnce(events, p[1..], q[1..]);
    }
  }

  lemma FirstOnce(events: seq<Event>, p: seq<nat>)
    requires p != [] && forall i :: 0 <= i < |p| ==> p[i] < |events|
    requires forall i, j :: 0 <= i < j < |p| ==> events[p[i]].index < events[p[j]].index
    ensures p[0] !in p[1..]
  {
    forall i | 0 <= i < |p[1..]| ensures p[1..][i] != p[0] { assert p[1..][i] == p[i + 1]; }
  }

  lemma FirstSame(events: seq<Event>, p: seq<nat>, q: seq<nat>)
    requires p != [] && q != [] && p[0] in q && q[0] in p
    requires forall i :: 0 <= i < |p| ==> p[i] < |events|
    requires forall i :: 0 <= i < |q| ==> q[i] < |events|
    requires forall i, j :: 0 <= i < j < |p| ==> events[p[i]].index < events[p[j]].index
    requires forall i, j :: 0 <= i < j < |q| ==> events[q[i]].index < events[q[j]].index
    ensures p[0] == q[0]
  {
    var i :| 0 <= i < |q| && q[i] == p[0];
    var j :| 0 <= j < |p| && p[j] == q[0];
  }
}
