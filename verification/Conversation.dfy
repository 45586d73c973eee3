// Run: the rounds of a conversation, what each request to the provider contains, and what
// becomes of steering input (kit/loop/loop.go).
module Conversation {
  import opened Sequences
  import opened Wrappers
  import C = Collect
  import I = Inputs
  import Dispatch
  import DispatchRuns
  import DispatchOverlap
  import O = DispatchOutcomes

  // An item of the transcript by where it comes from.
  datatype Entry =
    | Given(item: string)                      // Config.Request
    | Steered(item: string)                    // the input queue
    | Said(answer: C.Item)                     // a response
    | Output(id: string, code: Dispatch.Code)  // the result of a call

  // ---- Calls and their outputs in a transcript.

  function Calls(es: seq<Entry>): seq<string> {
    if es == [] then []
    else Calls(es[..|es| - 1]) + match es[|es| - 1] case Said(Asking(c, _)) => [c.id] case _ => []
  }

  // The calls that have no output yet, in order; None when an output is not that of the first
  // of them.
  function Waiting(es: seq<Entry>): Option<seq<string>> {
    if es == [] then Some([])
    else
      var q := Waiting(es[..|es| - 1]);
      match es[|es| - 1]
      case Said(Asking(c, _)) => if q.None? then None else Some(q.value + [c.id])
      case Output(id, _) => if q.None? || q.value == [] || q.value[0] != id then None else Some(q.value[1..])
      case _ => q
  }

  function Steering(es: seq<Entry>): seq<string> {
    if es == [] then []
    else Steering(es[..|es| - 1]) + if es[|es| - 1].Steered? then [es[|es| - 1].item] else []
  }

  // The results that the outputs of a transcript report.
  function Answered(es: seq<Entry>): seq<Dispatch.Result> {
    if es == [] then []
    else Answered(es[..|es| - 1]) + match es[|es| - 1] case Output(id, code) => [Dispatch.Result(id, code)] case _ => []
  }

  // What a request may contain: every call has its output, in call order, and no id repeats.
  ghost predicate Settled(es: seq<Entry>) {
    Waiting(es) == Some([]) && Distinct(Calls(es))
  }

  lemma Append(es: seq<Entry>, e: Entry)
    ensures Calls(es + [e]) == Calls(es) + match e case Said(Asking(c, _)) => [c.id] case _ => []
    ensures Steering(es + [e]) == Steering(es) + if e.Steered? then [e.item] else []
    ensures Answered(es + [e]) == Answered(es) + match e case Output(id, code) => [Dispatch.Result(id, code)] case _ => []
    ensures Waiting(es).Some? ==> Waiting(es + [e]) == match e
              case Said(Asking(c, _)) => Some(Waiting(es).value + [c.id])
              case Output(id, _) =>
                if Waiting(es).value == [] || Waiting(es).value[0] != id then None else Some(Waiting(es).value[1..])
              case _ => Waiting(es)
  {
    assert (es + [e])[..|es + [e]| - 1] == es;
  }

  // ---- What Settled means item by item.

  function Outputs(es: seq<Entry>, id: string): nat {
    if es == [] then 0
    else Outputs(es[..|es| - 1], id) + if es[|es| - 1].Output? && es[|es| - 1].id == id then 1 else 0
  }

  predicate IsCall(e: Entry, id: string) {
    e.Said? && e.answer.Asking? && e.answer.call.id == id
  }

  // Outputs and waiting calls together are the calls.
  lemma {:induction false} OutputsAreCalls(es: seq<Entry>, id: string)
    requires Waiting(es).Some? && Distinct(Calls(es))
    ensures Outputs(es, id) == if id in Calls(es) && id !in Waiting(es).value then 1 else 0
    ensures forall x :: x in Waiting(es).value ==> x in Calls(es)
    ensures Distinct(Waiting(es).value)
  {
    if es != [] {
      var before, e := es[..|es| - 1], es[|es| - 1];
      Append(before, e);
      assert es == before + [e];
      DistinctParts(Calls(before), Calls(es));
      OutputsAreCalls(before, id);
      if e.Said? && e.answer.Asking? { LastNew(Calls(before), e.answer.call.id); }
    }
  }

  lemma DistinctParts(a: seq<string>, b: seq<string>)
    requires a <= b && Distinct(b)
    ensures Distinct(a)
  {
  }

  lemma LastNew(a: seq<string>, x: string)
    requires Distinct(a + [x])
    ensures x !in a
  {
    forall k | 0 <= k < |a| ensures a[k] != x { assert (a + [x])[k] != (a + [x])[|a|]; }
  }

  lemma {:induction false} CallsPrefix(es: seq<Entry>, n: nat)
    requires n <= |es|
    ensures Calls(es[..n]) <= Calls(es)
    ensures Waiting(es).Some? ==> Waiting(es[..n]).Some?
  {
    if n < |es| {
      CallsPrefix(es[..|es| - 1], n);
      assert es[..|es| - 1][..n] == es[..n];
    } else {
      assert es[..n] == es;
    }
  }

  // In a settled transcript a function-call item has exactly one output, and it comes later.
  lemma CallHasItsOutput(es: seq<Entry>, i: nat, id: string)
    requires Settled(es) && i < |es| && IsCall(es[i], id)
    ensures Outputs(es, id) == 1 && Outputs(es[..i + 1], id) == 0
  {
    CallsPrefix(es, i);
    CallsPrefix(es, i + 1);
    assert es[..i + 1] == es[..i] + [es[i]];
    Append(es[..i], es[i]);
    DistinctParts(Calls(es[..i + 1]), Calls(es));
    OutputsAreCalls(es, id);
    OutputsAreCalls(es[..i + 1], id);
    assert Calls(es[..i + 1])[|Calls(es[..i])|] == id && id in Calls(es);
    assert Waiting(es[..i + 1]).value[|Waiting(es[..i]).value|] == id;
  }

  // ---- Lists of entries.

  function AllSteered(items: seq<string>): (es: seq<Entry>)
    ensures |es| == |items| && forall i :: 0 <= i < |items| ==> es[i] == Steered(items[i])
  {
    seq(|items|, i requires 0 <= i < |items| => Steered(items[i]))
  }

  function AllSaid(items: seq<C.Item>): (es: seq<Entry>)
    ensures |es| == |items| && forall i :: 0 <= i < |items| ==> es[i] == Said(items[i])
  {
    seq(|items|, i requires 0 <= i < |items| => Said(items[i]))
  }

  function AllGiven(items: seq<string>): (es: seq<Entry>)
    ensures |es| == |items| && forall i :: 0 <= i < |items| ==> es[i] == Given(items[i])
  {
    seq(|items|, i requires 0 <= i < |items| => Given(items[i]))
  }

  lemma {:induction false} AppendSteered(es: seq<Entry>, items: seq<string>)
    requires Waiting(es).Some?
    ensures Calls(es + AllSteered(items)) == Calls(es) && Waiting(es + AllSteered(items)) == Waiting(es)
    ensures Steering(es + AllSteered(items)) == Steering(es) + items
    ensures Answered(es + AllSteered(items)) == Answered(es)
  {
    hide Calls, Waiting, Steering, Answered;
    if items == [] {
      assert es + AllSteered(items) == es && Steering(es) + items == Steering(es);
    } else {
      var last := |items| - 1;
      AppendSteered(es, items[..last]);
      assert es + AllSteered(items) == (es + AllSteered(items[..last])) + [Steered(items[last])];
      Append(es + AllSteered(items[..last]), Steered(items[last]));
      assert (Steering(es) + items[..last]) + [items[last]] == Steering(es) + items;
      assert Calls(es) + [] == Calls(es) && Answered(es) + [] == Answered(es);
    }
  }

  lemma {:induction false} AppendSaid(es: seq<Entry>, items: seq<C.Item>)
    requires Waiting(es).Some?
    ensures Calls(es + AllSaid(items)) == Calls(es) + C.Ids(C.CallsOf(items))
    ensures Waiting(es + AllSaid(items)) == Some(Waiting(es).value + C.Ids(C.CallsOf(items)))
    ensures Steering(es + AllSaid(items)) == Steering(es) && Answered(es + AllSaid(items)) == Answered(es)
  {
    hide Waiting, Calls, Steering, Answered, C.Ids, C.CallsOf;
    LastCall(items);
    if items == [] {
      assert es + AllSaid(items) == es;
      assert Waiting(es).value + [] == Waiting(es).value && Calls(es) + [] == Calls(es);
    } else {
      var last := |items| - 1;
      AppendSaid(es, items[..last]);
      assert es + AllSaid(items) == (es + AllSaid(items[..last])) + [Said(items[last])];
      Append(es + AllSaid(items[..last]), Said(items[last]));
      if items[last].Asking? {
        C.OneMoreId(C.CallsOf(items[..last]), items[last].call);
        var ids := C.Ids(C.CallsOf(items[..last]));
        var id := items[last].call.id;
        assert (Calls(es) + ids) + [id] == Calls(es) + (ids + [id]);
        assert (Waiting(es).value + ids) + [id] == Waiting(es).value + (ids + [id]);
      }
    }
  }

  lemma LastCall(items: seq<C.Item>)
    ensures if items == [] then C.Ids(C.CallsOf(items)) == [] else
              var last := |items| - 1;
              var before := C.CallsOf(items[..last]);
              C.CallsOf(items) == if items[last].Asking? then before + [items[last].call] else before
  {
  }

  lemma {:induction false} GivenOnly(items: seq<string>)
    ensures Calls(AllGiven(items)) == [] && Waiting(AllGiven(items)) == Some([])
    ensures Steering(AllGiven(items)) == [] && Answered(AllGiven(items)) == []
  {
    if items != [] {
      GivenOnly(items[..|items| - 1]);
      assert AllGiven(items)[..|items| - 1] == AllGiven(items[..|items| - 1]);
    }
  }

  // ---- Run.

  datatype Outcome = Outcome(items: seq<Entry>, followUps: seq<string>, results: seq<Dispatch.Result>)

  function AllOutputs(results: seq<Dispatch.Result>): (es: seq<Entry>)
    ensures |es| == |results| && forall i :: 0 <= i < |results| ==> es[i] == Output(results[i].id, results[i].code)
  {
    seq(|results|, i requires 0 <= i < |results| => Output(results[i].id, results[i].code))
  }

  // The outputs of a round's calls follow them.
  method AddOutputs(es: seq<Entry>, results: seq<Dispatch.Result>, ghost ids: seq<string>) returns (out: seq<Entry>)
    requires Waiting(es) == Some(ids) && |results| == |ids| && forall i :: 0 <= i < |ids| ==> results[i].id == ids[i]
    ensures out == es + AllOutputs(results)
    ensures Waiting(out) == Some([]) && Calls(out) == Calls(es) && Steering(out) == Steering(es)
    ensures Answered(out) == Answered(es) + results
  {
    out := es;
    for i := 0 to |results|
      invariant out == es + AllOutputs(results[..i])
      invariant Waiting(out) == Some(ids[i..]) && Calls(out) == Calls(es) && Steering(out) == Steering(es)
      invariant Answered(out) == Answered(es) + results[..i]
    {
      hide Waiting, Calls, Steering, Answered;
      var e := Output(results[i].id, results[i].code);
      Append(out, e);
      OneMoreOutput(es, results, i);
      out := out + [e];
    }
    assert results[..|results|] == results && ids[|results|..] == [];
  }

  lemma OneMoreOutput(es: seq<Entry>, results: seq<Dispatch.Result>, i: nat)
    requires i < |results|
    ensures es + AllOutputs(results[..i]) + [Output(results[i].id, results[i].code)] == es + AllOutputs(results[..i + 1])
    ensures Answered(es) + results[..i] + [results[i]] == Answered(es) + results[..i + 1]
    ensures Dispatch.Result(results[i].id, results[i].code) == results[i]
  {
    assert AllOutputs(results[..i + 1]) == AllOutputs(results[..i]) + [Output(results[i].id, results[i].code)];
    assert results[..i + 1] == results[..i] + [results[i]];
  }

  function Rank(order: map<string, nat>, target: string): nat {
    if target in order then order[target] else 0
  }

  predicate RankedBy(checks: seq<Dispatch.Check>, order: map<string, nat>) {
    forall i :: 0 <= i < |checks| && Dispatch.Gate(checks, i).Some? && Dispatch.Target(checks[i]) != "" ==>
      Rank(order, Dispatch.GateName(checks[i])) < Rank(order, Dispatch.Target(checks[i]))
  }

  // Gates form no circle: the targets they name can be ordered.
  ghost predicate Ordered(checks: seq<Dispatch.Check>) {
    exists order: map<string, nat> :: RankedBy(checks, order)
  }

  // What is found about each of n calls.
  function Found(checks: seq<Dispatch.Check>, n: nat): (found: seq<Dispatch.Check>)
    ensures |found| == n
    ensures forall i :: 0 <= i < n ==> found[i] == if i < |checks| then checks[i] else Dispatch.NotOffered
  {
    seq(n, i requires 0 <= i < n => if i < |checks| then checks[i] else Dispatch.NotOffered)
  }

  lemma FoundRanked(checks: seq<Dispatch.Check>, n: nat, order: map<string, nat>)
    requires RankedBy(checks, order)
    ensures RankedBy(Found(checks, n), order)
  {
    var found := Found(checks, n);
    forall i | 0 <= i < |found| && Dispatch.Gate(found, i).Some? && Dispatch.Target(found[i]) != ""
      ensures Rank(order, Dispatch.GateName(found[i])) < Rank(order, Dispatch.Target(found[i]))
    {
      var name := Dispatch.GateName(found[i]);
      var last := Dispatch.LastBefore(found, name, n).value;
      assert Dispatch.Target(found[last]) == name != "";
      assert Dispatch.Gate(checks, i).Some?;
    }
  }

  // The calls of a response were dispatched in a run that ended like this, with these results.
  ghost predicate Ran(calls: seq<C.Call>, checks: seq<Dispatch.Check>, s: Dispatch.State, outputs: seq<Dispatch.Result>) {
    && outputs == s.results && |outputs| == |calls| && (s.cancelled <==> O.Cause(s))
    && forall i :: 0 <= i < |calls| ==> O.Told(calls[i].id, Found(checks, |calls|)[i], s, i)
  }

  // Dispatch of a round: the checks find whatever they find, but gates form no circle.
  method Execute(calls: seq<C.Call>, checks: seq<Dispatch.Check>, configured: nat)
    returns (results: seq<Dispatch.Result>, failed: bool, s: Dispatch.State)
    requires Ordered(checks)
    ensures Ran(calls, checks, s, results) && (failed <==> O.Cause(s))
  {
    var found := Found(checks, |calls|);
    ghost var order: map<string, nat> :| RankedBy(checks, order);
    FoundRanked(checks, |calls|, order);
    assert DispatchRuns.Ranked(found, t => Rank(order, t));
    s := DispatchOverlap.Dispatched(C.Ids(calls), found, configured);
    results, failed := s.results, s.cancelled;
  }

  lemma RanIds(calls: seq<C.Call>, checks: seq<Dispatch.Check>, s: Dispatch.State, outputs: seq<Dispatch.Result>)
    requires Ran(calls, checks, s, outputs)
    ensures ResultIds(outputs) == C.Ids(calls)
  {
    forall i | 0 <= i < |calls| ensures outputs[i].id == calls[i].id {
      assert O.Told(calls[i].id, Found(checks, |calls|)[i], s, i);
    }
  }

  // The first call whose id was used before stops the run.
  method Repeats(calls: seq<C.Call>, seen: set<string>) returns (repeated: bool)
    ensures repeated <==>
            exists i :: 0 <= i < |calls| && (calls[i].id in seen || exists j :: 0 <= j < i && calls[j].id == calls[i].id)
  {
    repeated := false;
    var now := seen;
    for i := 0 to |calls|
      invariant !repeated && forall id :: id in now <==> id in seen || exists j :: 0 <= j < i && calls[j].id == id
      invariant forall k :: 0 <= k < i ==> calls[k].id !in seen && forall j :: 0 <= j < k ==> calls[j].id != calls[k].id
    {
      if calls[i].id in now { return true; }
      now := now + {calls[i].id};
    }
  }

  // What the transcript keeps between rounds: `seen` has the ids of its calls.
  ghost predicate Keeps(es: seq<Entry>, seen: set<string>, taken: seq<string>, results: seq<Dispatch.Result>) {
    && Settled(es) && (forall id :: id in Calls(es) <==> id in seen)
    && Steering(es) == taken && Answered(es) == results
  }

  lemma KeepsSteered(es: seq<Entry>, seen: set<string>, taken: seq<string>, results: seq<Dispatch.Result>,
                     more: seq<string>)
    requires Keeps(es, seen, taken, results)
    ensures Keeps(es + AllSteered(more), seen, taken + more, results)
  {
    AppendSteered(es, more);
  }

  lemma DistinctJoins(a: seq<string>, b: seq<string>, seen: set<string>)
    requires Distinct(a) && Distinct(b) && (forall x :: x in a ==> x in seen) && forall x :: x in b ==> x !in seen
    ensures Distinct(a + b)
  {
    forall i, j | 0 <= i < |a| && 0 <= j < |b| ensures a[i] != b[j] { assert a[i] in a && b[j] in b; }
  }

  // A response without calls, and one whose calls get their outputs.
  lemma KeepsSaid(es: seq<Entry>, seen: set<string>, taken: seq<string>, results: seq<Dispatch.Result>,
                  items: seq<C.Item>)
    requires Keeps(es, seen, taken, results) && Distinct(C.Ids(C.CallsOf(items)))
    requires forall id :: id in C.Ids(C.CallsOf(items)) ==> id !in seen
    ensures var now, ids := es + AllSaid(items), C.Ids(C.CallsOf(items));
            && Waiting(now) == Some(ids) && Distinct(Calls(now)) && Steering(now) == taken
            && Answered(now) == Answered(es)
            && (forall id :: id in Calls(now) <==> id in seen || id in ids)
            && (C.CallsOf(items) == [] ==> Keeps(now, seen, taken, results))
  {
    AppendSaid(es, items);
    DistinctJoins(Calls(es), C.Ids(C.CallsOf(items)), seen);
    assert [] + C.Ids(C.CallsOf(items)) == C.Ids(C.CallsOf(items));
  }

  function IdSet(calls: seq<C.Call>): set<string> {
    set c | c in calls :: c.id
  }

  // The results of calls whose response failed.
  function Unfinished(calls: seq<C.Call>, code: Dispatch.Code): seq<Dispatch.Result> {
    seq(|calls|, i requires 0 <= i < |calls| => Dispatch.Result(calls[i].id, code))
  }

  // What happens around a round: the input that arrives before its request, how the provider
  // answers and what fails meanwhile, whether the journal takes the calls, whether the caller's
  // context had ended when an answer failed, what the checks find, and the input that arrives
  // before the round is over.
  datatype Around = Around(arrives: seq<string>, opens: bool, events: seq<C.Event>, breaks: bool,
                           faults: map<nat, C.Fault>, unsaved: bool, ended: bool, checks: seq<Dispatch.Check>,
                           during: seq<string>)

  // A run starts with what it was given and the input that waits already; when all rounds of
  // `world` are over, the caller's context has ended.
  datatype Setting = Setting(given: seq<string>, first: seq<string>, open: bool, world: seq<Around>)

  function Admitted(open: bool, arriving: seq<string>): seq<string> {
    if open then arriving else []
  }

  // What one round adds to the transcript: the input that had arrived, the response, the outputs
  // of its calls, and the input that arrived before the next request. `run` is how the calls ran.
  datatype Turn = Turn(drained: seq<string>, said: seq<C.Item>, outputs: seq<Dispatch.Result>, steering: seq<string>,
                       run: Option<Dispatch.State>)

  function Told(t: Turn): seq<Entry> {
    AllSaid(t.said) + AllOutputs(t.outputs) + AllSteered(t.steering)
  }

  function Transcript(given: seq<string>, turns: seq<Turn>): seq<Entry> {
    if turns == [] then AllGiven(given)
    else
      var last := turns[|turns| - 1];
      Transcript(given, turns[..|turns| - 1]) + AllSteered(last.drained) + Told(last)
  }

  function Outcomes(turns: seq<Turn>): seq<Dispatch.Result> {
    if turns == [] then [] else Outcomes(turns[..|turns| - 1]) + turns[|turns| - 1].outputs
  }

  // ---- Which response joins the transcript, and what becomes of one that does not.

  ghost predicate Fresh(asked: seq<Entry>, said: seq<C.Item>, unsaved: bool) {
    var ids := C.Ids(C.CallsOf(said));
    Distinct(ids) && (forall id :: id in ids ==> id !in Calls(asked)) && (ids == [] || !unsaved)
  }

  // The response is good, its call ids are new, and the journal takes its calls.
  ghost predicate Joins(asked: seq<Entry>, a: Around) {
    && a.opens && C.Fine(a.events, a.breaks, a.faults)
    && exists said :: C.Answers(a.events, said) && Fresh(asked, said, a.unsaved)
  }

  // What the round of a response that joins is: its items by index, and either its calls ran, or it
  // had none and the input that came meanwhile follows it.
  ghost predicate Played(open: bool, a: Around, t: Turn) {
    && C.Answers(a.events, t.said)
    && if C.CallsOf(t.said) == [] then t.outputs == [] && t.run.None? && t.steering == Admitted(open, a.during)
       else t.steering == [] && t.run.Some? && Ran(C.CallsOf(t.said), a.checks, t.run.value, t.outputs)
  }

  // Another round follows after calls, unless their dispatch failed, and after input.
  predicate GoesOn(t: Turn) {
    if t.run.None? then t.steering != [] else !O.Cause(t.run.value)
  }

  predicate EndsWell(t: Turn) {
    t.run.None? && t.steering == []
  }

  // The calls that were read of a response that does not join get results that say so, if their
  // ids are new and the journal took them.
  ghost predicate Leaves(asked: seq<Entry>, a: Around, calls: seq<C.Call>, loose: seq<Dispatch.Result>) {
    if (exists c :: c in calls && c.id in Calls(asked)) || (a.unsaved && calls != []) then loose == []
    else
      && |loose| == |calls|
      && forall i :: 0 <= i < |calls| ==>
           loose[i] == Dispatch.Result(calls[i].id, if a.ended then Dispatch.Aborted else Dispatch.Incomplete)
  }

  ghost predicate Loose(asked: seq<Entry>, a: Around, loose: seq<Dispatch.Result>) {
    if !a.opens then loose == []
    else exists calls :: C.Partial(a.events, a.faults, calls) && Leaves(asked, a, calls, loose)
  }

  // ---- A run round by round.

  // The input that waits when the round after these begins: what came while calls ran.
  function Carried(w: Setting, turns: seq<Turn>): seq<string>
    requires |turns| <= |w.world|
  {
    if turns == [] then w.first
    else if turns[|turns| - 1].run.Some? then Admitted(w.open, w.world[|turns| - 1].during) else []
  }

  function Drained(w: Setting, turns: seq<Turn>): seq<string>
    requires |turns| < |w.world|
  {
    Carried(w, turns) + Admitted(w.open, w.world[|turns|].arrives)
  }

  // The request contains everything of the rounds before it and all input that arrived since.
  ghost predicate Asked(w: Setting, before: seq<Turn>, request: seq<Entry>)
    requires |before| < |w.world|
  {
    request == Transcript(w.given, before) + AllSteered(Drained(w, before))
  }

  // The response to it joined the transcript.
  ghost predicate Closed(w: Setting, before: seq<Turn>, request: seq<Entry>, t: Turn)
    requires |before| < |w.world|
  {
    t.drained == Drained(w, before) && Joins(request, w.world[|before|]) && Played(w.open, w.world[|before|], t)
  }

  // Every round was asked and, but for the last one perhaps, answered; and the next one came only
  // if it had to.
  ghost predicate Story(w: Setting, turns: seq<Turn>, requests: seq<seq<Entry>>) {
    && |turns| <= |requests| <= |turns| + 1 && |requests| <= |w.world|
    && (forall k :: 0 <= k < |requests| ==> Asked(w, turns[..k], requests[k]))
    && (forall k :: 0 <= k < |turns| ==> Closed(w, turns[..k], requests[k], turns[k]))
    && (forall k :: 0 <= k < |turns| && k + 1 < |requests| ==> GoesOn(turns[k]))
  }

  // Why there are no more rounds, and what the run returns.
  ghost predicate Over(w: Setting, usable: bool, turns: seq<Turn>, requests: seq<seq<Entry>>, err: bool,
                       loose: seq<Dispatch.Result>)
    requires Story(w, turns, requests)
  {
    if |requests| > |turns| then
      err && !Joins(requests[|turns|], w.world[|turns|]) && Loose(requests[|turns|], w.world[|turns|], loose)
    else
      && loose == [] && (err <==> turns == [] || !EndsWell(turns[|turns| - 1]))
      && ((turns == [] && !usable) || |turns| == |w.world| || (turns != [] && !GoesOn(turns[|turns| - 1])))
  }

  // The input of the first n rounds.
  function Arrivals(world: seq<Around>, n: nat): seq<string>
    requires n <= |world|
  {
    if n == 0 then [] else Arrivals(world, n - 1) + world[n - 1].arrives + world[n - 1].during
  }

  lemma NothingAsked(w: Setting)
    ensures Story(w, [], []) && Transcript(w.given, []) == AllGiven(w.given) && Outcomes([]) == []
  {
  }

  lemma StoryAsks(w: Setting, turns: seq<Turn>, requests: seq<seq<Entry>>, request: seq<Entry>)
    requires Story(w, turns, requests) && |requests| == |turns| < |w.world|
    requires turns != [] ==> GoesOn(turns[|turns| - 1])
    requires Asked(w, turns, request)
    ensures Story(w, turns, requests + [request])
  {
    hide Asked, Closed, GoesOn;
    var more := requests + [request];
    assert turns[..|turns|] == turns;
    forall k | 0 <= k < |more| ensures Asked(w, turns[..k], more[k]) {
      if k < |requests| { assert Asked(w, turns[..k], requests[k]); }
    }
    forall k | 0 <= k < |turns| ensures Closed(w, turns[..k], more[k], turns[k]) {
      assert Closed(w, turns[..k], requests[k], turns[k]);
    }
  }

  lemma StoryJoins(w: Setting, turns: seq<Turn>, requests: seq<seq<Entry>>, t: Turn)
    requires Story(w, turns, requests) && |requests| == |turns| + 1 && Closed(w, turns, requests[|turns|], t)
    ensures Story(w, turns + [t], requests) && Asked(w, turns, requests[|turns|])
  {
    hide Asked, Closed, GoesOn;
    var more := turns + [t];
    assert turns[..|turns|] == turns;
    forall k | 0 <= k <= |turns| ensures more[..k] == turns[..k] && Asked(w, more[..k], requests[k]) {
      assert Asked(w, turns[..k], requests[k]);
    }
    forall k | 0 <= k <= |turns| ensures Closed(w, more[..k], requests[k], more[k]) {
      assert more[..k] == turns[..k];
      if k < |turns| { assert Closed(w, turns[..k], requests[k], turns[k]); }
    }
  }

  lemma TurnAdded(w: Setting, turns: seq<Turn>, t: Turn)
    requires |turns| < |w.world| && t.drained == Drained(w, turns)
    ensures Transcript(w.given, turns + [t]) == Transcript(w.given, turns) + AllSteered(t.drained) + Told(t)
    ensures Outcomes(turns + [t]) == Outcomes(turns) + t.outputs
    ensures Carried(w, turns + [t]) == if t.run.Some? then Admitted(w.open, w.world[|turns|].during) else []
    ensures EndsWell(t) ==> !GoesOn(t)
  {
    hide Drained, Told;
    assert (turns + [t])[..|turns|] == turns;
  }

  // The run stands before another round: `waiting` is the input that nobody took yet.
  ghost predicate Stands(w: Setting, items: seq<Entry>, seen: set<string>, taken: seq<string>, waiting: seq<string>,
                         results: seq<Dispatch.Result>, requests: seq<seq<Entry>>, turns: seq<Turn>) {
    && Keeps(items, seen, taken, results) && Extends(w.given, requests, items)
    && Story(w, turns, requests) && |requests| == |turns| && items == Transcript(w.given, turns)
    && results == Outcomes(turns) && waiting == Carried(w, turns) && (turns != [] ==> GoesOn(turns[|turns| - 1]))
  }

  // The transcript begins with what was given and with every request so far, and all were settled.
  ghost predicate Extends(given: seq<string>, requests: seq<seq<Entry>>, items: seq<Entry>) {
    AllGiven(given) <= items && forall k :: 0 <= k < |requests| ==> Settled(requests[k]) && requests[k] <= items
  }

  // The run is over: `items` and `results` are what it returns.
  ghost predicate Returns(w: Setting, usable: bool, items: seq<Entry>, taken: seq<string>, results: seq<Dispatch.Result>,
                          err: bool, requests: seq<seq<Entry>>, turns: seq<Turn>, loose: seq<Dispatch.Result>) {
    && Settled(items) && Steering(items) == taken && Extends(w.given, requests, items)
    && Story(w, turns, requests) && (usable || requests == []) && Over(w, usable, turns, requests, err, loose)
    && items == (if |requests| == |turns| then Transcript(w.given, turns) else requests[|turns|])
    && results == Outcomes(turns) + loose && Answered(items) == Outcomes(turns)
  }

  lemma Begins(w: Setting)
    ensures Stands(w, AllGiven(w.given), {}, [], w.first, [], [], [])
    ensures Admitted(w.open, Arrivals(w.world, 0)) == []
  {
    NothingAsked(w);
    KeepsGiven(w.given);
  }

  lemma Unasked(w: Setting, usable: bool, items: seq<Entry>, seen: set<string>, taken: seq<string>, waiting: seq<string>,
                results: seq<Dispatch.Result>, requests: seq<seq<Entry>>, turns: seq<Turn>)
    requires Stands(w, items, seen, taken, waiting, results, requests, turns) && (usable || requests == [])
    requires (turns == [] && !usable) || |turns| == |w.world|
    ensures Returns(w, usable, items, taken, results, true, requests, turns, [])
  {
    hide Settled, Story, Steering, Answered;
    KeepsMeans(items, seen, taken, results);
    if turns != [] { Ending(turns[|turns| - 1]); }
    assert Outcomes(turns) + [] == Outcomes(turns);
  }

  lemma Ending(t: Turn)
    ensures EndsWell(t) ==> !GoesOn(t)
  {
  }

  // A request that was asked, before its response.
  ghost predicate Asks(w: Setting, items: seq<Entry>, requests: seq<seq<Entry>>, turns: seq<Turn>, drained: seq<string>) {
    && Extends(w.given, requests, items) && Story(w, turns, requests)
    && |requests| == |turns| + 1 && items == requests[|turns|] && drained == Drained(w, turns)
  }

  lemma Asking(w: Setting, items: seq<Entry>, seen: set<string>, taken: seq<string>, waiting: seq<string>,
               results: seq<Dispatch.Result>, requests: seq<seq<Entry>>, turns: seq<Turn>, drained: seq<string>)
    requires Stands(w, items, seen, taken, waiting, results, requests, turns) && |turns| < |w.world|
    requires drained == waiting + Admitted(w.open, w.world[|turns|].arrives) && Settled(items + AllSteered(drained))
    ensures Asks(w, items + AllSteered(drained), requests + [items + AllSteered(drained)], turns, drained)
  {
    hide Settled, Story, Keeps, Transcript, GoesOn, Carried;
    DrainedIs(w, turns, drained);
    StoryAsks(w, turns, requests, items + AllSteered(drained));
  }

  lemma NotJoined(w: Setting, usable: bool, items: seq<Entry>, seen: set<string>, taken: seq<string>,
                  requests: seq<seq<Entry>>, turns: seq<Turn>, drained: seq<string>, loose: seq<Dispatch.Result>)
    requires Asks(w, items, requests, turns, drained) && Keeps(items, seen, taken, Outcomes(turns)) && usable
    requires |turns| < |w.world| && !Joins(items, w.world[|turns|]) && Loose(items, w.world[|turns|], loose)
    ensures Returns(w, usable, items, taken, Outcomes(turns) + loose, true, requests, turns, loose)
  {
    hide Settled, Story, Keeps, Loose, Joins;
    KeepsMeans(items, seen, taken, Outcomes(turns));
  }

  lemma StillExtends(given: seq<string>, requests: seq<seq<Entry>>, items: seq<Entry>, more: seq<Entry>)
    requires Extends(given, requests, items) && items <= more
    ensures Extends(given, requests, more)
  {
    hide Settled;
  }

  lemma Joined(w: Setting, usable: bool, asked: seq<Entry>, items: seq<Entry>, seen: set<string>, taken: seq<string>,
               waiting: seq<string>, requests: seq<seq<Entry>>, turns: seq<Turn>, t: Turn)
    requires Asks(w, asked, requests, turns, t.drained) && usable
    requires Keeps(items, seen, taken, Outcomes(turns) + t.outputs)
    requires |turns| < |w.world| && Joins(asked, w.world[|turns|]) && Played(w.open, w.world[|turns|], t)
    requires items == asked + Told(t)
    requires waiting == if t.run.Some? then Admitted(w.open, w.world[|turns|].during) else []
    ensures var results := Outcomes(turns) + t.outputs;
            if GoesOn(t) then Stands(w, items, seen, taken, waiting, results, requests, turns + [t])
            else Returns(w, usable, items, taken, results, !EndsWell(t), requests, turns + [t], [])
  {
    hide Settled, Story, Keeps, Loose, Joins, Played, Transcript, Outcomes, Carried, GoesOn, EndsWell, Told, Extends;
    StillExtends(w.given, requests, asked, items);
    StoryJoins(w, turns, requests, t);
    TurnAdded(w, turns, t);
    KeepsMeans(items, seen, taken, Outcomes(turns) + t.outputs);
    assert Outcomes(turns + [t]) + [] == Outcomes(turns + [t]);
  }

  // The rounds up to any return.
  method Rounds(given: seq<string>, usable: bool, inputs: I.Inputs, configured: nat, world: seq<Around>)
    returns (items: seq<Entry>, results: seq<Dispatch.Result>, err: bool, ghost requests: seq<seq<Entry>>,
             ghost turns: seq<Turn>, ghost loose: seq<Dispatch.Result>)
    requires inputs.Valid() && inputs.taken == [] && forall k :: 0 <= k < |world| ==> Ordered(world[k].checks)
    modifies inputs
    ensures inputs.Valid() && inputs.closed == old(inputs.closed) && |requests| <= |world|
    ensures var w := Setting(given, old(inputs.items), !old(inputs.closed), world);
            Returns(w, usable, items, inputs.taken, results, err, requests, turns, loose)
    ensures inputs.accepted == old(inputs.accepted) + Admitted(!inputs.closed, Arrivals(world, |requests|))
  {
    hide *;
    ghost var w := Setting(given, inputs.items, !inputs.closed, world);
    items, results, err, requests, turns, loose := AllGiven(given), [], true, [], [], [];
    var seen: set<string> := {};
    Begins(w);
    if !usable {
      Unasked(w, usable, items, seen, [], w.first, [], [], []);
      return;
    }
    for k := 0 to |world|
      invariant inputs.Valid() && inputs.closed == old(inputs.closed) && err && loose == []
      invariant k == |turns| == |requests|
      invariant inputs.accepted == old(inputs.accepted) + Admitted(w.open, Arrivals(world, k))
      invariant Stands(w, items, seen, inputs.taken, inputs.items, results, requests, turns)
    {
      ghost var before, waiting, had, taken := items, inputs.items, results, inputs.taken;
      StandsMeans(w, before, seen, taken, waiting, had, requests, turns);
      var more;
      ghost var joined, t, drained;
      items, drained := Ask(items, inputs, seen, had, world[k].arrives);
      KeepsMeans(items, seen, inputs.taken, had);
      Asking(w, before, seen, taken, waiting, had, requests, turns, drained);
      requests := requests + [items];
      ghost var asked, ids := items, seen;
      taken := inputs.taken;
      items, results, seen, err, more, joined, t, loose :=
        Answer(items, results, seen, inputs, world[k], configured, drained);
      ArrivalsNext(w, k);
      if joined {
        Joined(w, usable, asked, items, seen, inputs.taken, inputs.items, requests, turns, t);
        Ending(t);
        turns := turns + [t];
      } else {
        NotJoined(w, usable, items, ids, taken, requests, turns, drained, loose);
      }
      if !more { return; }
    }
    Unasked(w, usable, items, seen, inputs.taken, inputs.items, results, requests, turns);
  }

  lemma StandsMeans(w: Setting, items: seq<Entry>, seen: set<string>, taken: seq<string>, waiting: seq<string>,
                    results: seq<Dispatch.Result>, requests: seq<seq<Entry>>, turns: seq<Turn>)
    requires Stands(w, items, seen, taken, waiting, results, requests, turns)
    ensures Keeps(items, seen, taken, results) && results == Outcomes(turns)
  {
    hide Keeps, Story, Settled, Outcomes, Transcript, Carried;
  }

  lemma DrainedIs(w: Setting, turns: seq<Turn>, drained: seq<string>)
    requires |turns| < |w.world| && drained == Carried(w, turns) + Admitted(w.open, w.world[|turns|].arrives)
    ensures drained == Drained(w, turns)
  {
  }

  lemma ArrivalsNext(w: Setting, k: nat)
    requires k < |w.world|
    ensures Admitted(w.open, Arrivals(w.world, k + 1))
            == Admitted(w.open, Arrivals(w.world, k)) + Admitted(w.open, w.world[k].arrives)
               + Admitted(w.open, w.world[k].during)
  {
  }

  lemma KeepsGiven(given: seq<string>)
    ensures Keeps(AllGiven(given), {}, [], [])
  {
    GivenOnly(given);
  }

  lemma KeepsMeans(es: seq<Entry>, seen: set<string>, taken: seq<string>, results: seq<Dispatch.Result>)
    requires Keeps(es, seen, taken, results)
    ensures Settled(es) && Steering(es) == taken && Answered(es) == results
  {
  }

  // The input that arrived so far joins the transcript, which becomes the request.
  method Ask(before: seq<Entry>, inputs: I.Inputs, ghost seen: set<string>, ghost results: seq<Dispatch.Result>,
             arriving: seq<string>)
    returns (items: seq<Entry>, ghost drained: seq<string>)
    requires inputs.Valid() && Keeps(before, seen, inputs.taken, results)
    modifies inputs
    ensures inputs.Valid() && inputs.closed == old(inputs.closed) && inputs.items == []
    ensures inputs.accepted == old(inputs.accepted) + Admitted(!inputs.closed, arriving)
    ensures drained == old(inputs.items) + Admitted(!inputs.closed, arriving)
    ensures Keeps(items, seen, inputs.taken, results) && items == before + AllSteered(drained)
  {
    inputs.Producers(arriving);
    ghost var taken := inputs.taken;
    var steering := inputs.Drain();
    KeepsSteered(before, seen, taken, results, steering);
    items, drained := before + AllSteered(steering), steering;
  }

  // What was read of the provider's answer.
  ghost predicate Collected(a: Around, answer: seq<C.Item>, calls: seq<C.Call>, ok: bool) {
    && Distinct(C.Ids(calls)) && (ok ==> C.Answers(a.events, answer) && C.CallsOf(answer) == calls)
    && (if a.opens then C.Partial(a.events, a.faults, calls) else calls == [])
    && (ok <==> && a.opens && C.Fine(a.events, a.breaks, a.faults)
                && exists said :: C.Answers(a.events, said) && Distinct(C.Ids(C.CallsOf(said))))
  }

  // A response joins exactly if none of the three refusals applies.
  lemma Decides(before: seq<Entry>, used: set<string>, a: Around, answer: seq<C.Item>, calls: seq<C.Call>, ok: bool)
    requires Collected(a, answer, calls, ok) && forall id :: id in Calls(before) <==> id in used
    ensures Joins(before, a) <==> ok && (forall c :: c in calls ==> c.id !in used) && (calls == [] || !a.unsaved)
  {
    hide C.Fine, C.Partial, C.Answers, C.CallsOf, Distinct;
    if ok {
      forall said | C.Answers(a.events, said) ensures said == answer { C.AnswersOnce(a.events, said, answer); }
      IdsOf(calls);
    }
  }

  lemma IdsOf(calls: seq<C.Call>)
    ensures forall id :: id in C.Ids(calls) <==> exists c :: c in calls && c.id == id
    ensures C.Ids(calls) == [] <==> calls == []
  {
    forall c | c in calls ensures c.id in C.Ids(calls) {
      var i :| 0 <= i < |calls| && calls[i] == c;
      assert C.Ids(calls)[i] == c.id;
    }
  }

  method Listen(a: Around) returns (answer: seq<C.Item>, calls: seq<C.Call>, ok: bool)
    ensures Collected(a, answer, calls, ok)
  {
    answer, calls, ok := [], [], false;
    if a.opens {
      ghost var table, width;
      answer, calls, ok, table, width := C.Collect(a.events, a.breaks, a.faults);
    }
  }

  // One response: it joins the transcript with the outputs of all its calls, or not at all.
  method Answer(before: seq<Entry>, had: seq<Dispatch.Result>, used: set<string>, inputs: I.Inputs, a: Around,
                configured: nat, ghost drained: seq<string>)
    returns (items: seq<Entry>, results: seq<Dispatch.Result>, seen: set<string>, err: bool, more: bool,
             ghost joined: bool, ghost t: Turn, ghost loose: seq<Dispatch.Result>)
    requires inputs.Valid() && inputs.items == [] && Keeps(before, used, inputs.taken, had) && Ordered(a.checks)
    modifies inputs
    ensures inputs.Valid() && inputs.closed == old(inputs.closed)
    ensures inputs.accepted == old(inputs.accepted) + Admitted(!inputs.closed, a.during)
    ensures joined <==> Joins(before, a)
    ensures joined ==> Played(!inputs.closed, a, t) && t.drained == drained && items == before + Told(t)
    ensures joined ==> Keeps(items, seen, inputs.taken, results) && results == had + t.outputs && loose == []
    ensures joined ==> more == GoesOn(t) && err == !EndsWell(t)
    ensures joined ==> inputs.items == if t.run.Some? then Admitted(!inputs.closed, a.during) else []
    ensures !joined ==> err && !more && items == before && results == had + loose && inputs.taken == old(inputs.taken)
    ensures !joined ==> Loose(before, a, loose)
  {
    hide Collected, Joins, Ordered, Played, Told, Settled, Steering, Answered, Loose;
    hide C.Fine, C.Answers, C.Partial, C.CallsOf, C.Ids;
    items, results, seen, err, more, joined, loose := before, had, used, true, false, false, [];
    t := Turn(drained, [], [], [], None);
    var answer, calls, ok := Listen(a);
    inputs.Producers(a.during);
    Decides(before, used, a, answer, calls, ok);
    var repeated := Repeats(calls, seen);
    Repetition(a, answer, calls, ok, seen);
    if repeated || (a.unsaved && |calls| > 0) {
      LeavesNothing(before, used, a, answer, calls, ok);
      return;
    }
    seen := seen + IdSet(calls);
    if !ok {
      var unfinished := Unfinished(calls, if a.ended then Dispatch.Aborted else Dispatch.Incomplete);
      results, loose := results + unfinished, unfinished;
      LeavesUnfinished(before, used, a, answer, calls, ok);
      return;
    }
    joined := true;
    CollectedMeans(before, used, inputs.taken, had, a, answer, calls);
    if |calls| == 0 {
      items, err, more, t := EndOrSteer(before, answer, used, inputs, had, a, drained);
      assert seen == used && had + [] == had;
      return;
    }
    items, results, err, more, t := Dispatched(before, had, used, answer, calls, inputs, a, configured, drained);
  }

  lemma Repetition(a: Around, answer: seq<C.Item>, calls: seq<C.Call>, ok: bool, seen: set<string>)
    requires Collected(a, answer, calls, ok)
    ensures (exists i :: 0 <= i < |calls| && (calls[i].id in seen || exists j :: 0 <= j < i && calls[j].id == calls[i].id))
            <==> exists c :: c in calls && c.id in seen
  {
    hide C.Fine, C.Partial, C.Answers, C.CallsOf;
    forall i, j | 0 <= j < i < |calls| ensures calls[j].id != calls[i].id {
      assert C.Ids(calls)[j] != C.Ids(calls)[i];
    }
  }

  lemma LeavesNothing(before: seq<Entry>, used: set<string>, a: Around, answer: seq<C.Item>, calls: seq<C.Call>, ok: bool)
    requires Collected(a, answer, calls, ok) && forall id :: id in Calls(before) <==> id in used
    requires (exists c :: c in calls && c.id in used) || (a.unsaved && calls != [])
    ensures Loose(before, a, [])
  {
    hide C.Fine, C.Partial, C.Answers, C.CallsOf;
    assert Leaves(before, a, calls, []);
  }

  lemma LeavesUnfinished(before: seq<Entry>, used: set<string>, a: Around, answer: seq<C.Item>, calls: seq<C.Call>, ok: bool)
    requires Collected(a, answer, calls, ok) && forall id :: id in Calls(before) <==> id in used
    requires (forall c :: c in calls ==> c.id !in used) && !(a.unsaved && calls != [])
    ensures Loose(before, a, Unfinished(calls, if a.ended then Dispatch.Aborted else Dispatch.Incomplete))
  {
    hide C.Fine, C.Partial, C.Answers, C.CallsOf;
    assert Leaves(before, a, calls, Unfinished(calls, if a.ended then Dispatch.Aborted else Dispatch.Incomplete));
  }

  lemma CollectedMeans(before: seq<Entry>, used: set<string>, taken: seq<string>, had: seq<Dispatch.Result>,
                       a: Around, answer: seq<C.Item>, calls: seq<C.Call>)
    requires Collected(a, answer, calls, true) && Keeps(before, used, taken, had)
    requires forall c :: c in calls ==> c.id !in used
    ensures C.Answers(a.events, answer) && C.CallsOf(answer) == calls
    ensures var now := before + AllSaid(answer);
            && Waiting(now) == Some(C.Ids(calls)) && Distinct(Calls(now)) && Steering(now) == taken
            && Answered(now) == Answered(before) == had
            && (forall id :: id in Calls(now) <==> id in used || id in C.Ids(calls))
            && (calls == [] ==> Keeps(now, used, taken, had))
  {
    hide C.Fine, C.Partial, C.Answers, C.CallsOf;
    IdsOf(calls);
    KeepsSaid(before, used, taken, had, answer);
  }

  function ResultIds(results: seq<Dispatch.Result>): (ids: seq<string>)
    ensures |ids| == |results| && forall i :: 0 <= i < |results| ==> ids[i] == results[i].id
  {
    seq(|results|, i requires 0 <= i < |results| => results[i].id)
  }

  // A response without calls ends the run unless input is waiting.
  method EndOrSteer(before: seq<Entry>, said: seq<C.Item>, seen: set<string>, inputs: I.Inputs,
                    ghost results: seq<Dispatch.Result>, ghost a: Around, ghost drained: seq<string>)
    returns (items: seq<Entry>, err: bool, more: bool, ghost t: Turn)
    requires inputs.Valid() && inputs.items == Admitted(!inputs.closed, a.during)
    requires Keeps(before + AllSaid(said), seen, inputs.taken, results)
    requires C.Answers(a.events, said) && C.CallsOf(said) == []
    modifies inputs
    ensures inputs.Valid() && inputs.closed == old(inputs.closed) && inputs.accepted == old(inputs.accepted)
    ensures inputs.items == []
    ensures Keeps(items, seen, inputs.taken, results) && items == before + Told(t) && t.outputs == [] && t.run.None?
    ensures t.drained == drained && Played(!inputs.closed, a, t) && more == GoesOn(t) && err == !EndsWell(t)
  {
    hide C.Answers, C.CallsOf, Keeps;
    ghost var taken := inputs.taken;
    var steering := inputs.Drain();
    KeepsSteered(before + AllSaid(said), seen, taken, results, steering);
    assert before + AllSaid(said) + AllOutputs([]) == before + AllSaid(said);
    items := before + AllSaid(said) + AllSteered(steering);
    err, more := steering != [], steering != [];
    t := Turn(drained, said, [], steering, None);
  }

  // The calls of a response run, and their outputs follow it.
  method Dispatched(before: seq<Entry>, had: seq<Dispatch.Result>, ghost used: set<string>, said: seq<C.Item>,
                    calls: seq<C.Call>, inputs: I.Inputs, a: Around, configured: nat, ghost drained: seq<string>)
    returns (items: seq<Entry>, results: seq<Dispatch.Result>, err: bool, more: bool, ghost t: Turn)
    requires C.Answers(a.events, said) && calls == C.CallsOf(said) && calls != [] && Ordered(a.checks)
    requires inputs.Valid() && Answered(before) == had
    requires var now := before + AllSaid(said);
             && Waiting(now) == Some(C.Ids(calls)) && Distinct(Calls(now)) && Steering(now) == inputs.taken
             && (forall id :: id in Calls(now) <==> id in used || id in C.Ids(calls))
             && Answered(now) == Answered(before)
    ensures items == before + Told(t) && results == had + t.outputs && t.run.Some?
    ensures t.drained == drained && Played(!inputs.closed, a, t) && err && more == GoesOn(t)
    ensures Keeps(items, used + IdSet(calls), inputs.taken, results)
  {
    hide C.Answers, C.CallsOf, C.Ids, Ordered, Ran, Waiting, Calls, Steering, Answered, Settled, Told, Distinct;
    var outputs, failed, s := Execute(calls, a.checks, configured);
    RanIds(calls, a.checks, s, outputs);
    results, err, more := had + outputs, true, !failed;
    items := AddOutputs(before + AllSaid(said), outputs, C.Ids(calls));
    t := Turn(drained, said, outputs, [], Some(s));
    ToldOutputs(before, t);
    SettledNow(items, used, calls);
  }

  lemma ToldOutputs(before: seq<Entry>, t: Turn)
    requires t.steering == []
    ensures before + AllSaid(t.said) + AllOutputs(t.outputs) == before + Told(t)
  {
    assert AllSteered([]) == [];
  }

  lemma SettledNow(items: seq<Entry>, used: set<string>, calls: seq<C.Call>)
    requires Waiting(items) == Some([]) && Distinct(Calls(items))
    requires forall id :: id in Calls(items) <==> id in used || id in C.Ids(calls)
    ensures Settled(items) && forall id :: id in Calls(items) <==> id in used + IdSet(calls)
  {
    IdsOf(calls);
  }

  // On every return path, the input that was accepted is in the transcript or handed back, each
  // item once and in the order in which it was accepted, and no more input is accepted.
  method Run(given: seq<string>, usable: bool, inputs: I.Inputs, configured: nat, world: seq<Around>, late: seq<string>)
    returns (out: Outcome, err: bool, ghost requests: seq<seq<Entry>>, ghost turns: seq<Turn>,
             ghost loose: seq<Dispatch.Result>)
    requires inputs.Valid() && inputs.taken == [] && forall k :: 0 <= k < |world| ==> Ordered(world[k].checks)
    modifies inputs
    ensures inputs.Valid() && inputs.closed
    ensures Steering(out.items) + out.followUps == inputs.accepted
    // Every request had all calls of earlier rounds answered, and so has the final transcript.
    ensures Settled(out.items) && forall k :: 0 <= k < |requests| ==> Settled(requests[k]) && requests[k] <= out.items
    // Which rounds there were, what each was asked and answered, and why they ended.
    ensures var w := Setting(given, old(inputs.items), !old(inputs.closed), world);
            && Story(w, turns, requests) && (usable || requests == []) && Over(w, usable, turns, requests, err, loose)
    ensures inputs.accepted
            == old(inputs.accepted) + Admitted(!old(inputs.closed), Arrivals(world, |requests|) + late)
    // The transcript is that of the rounds, up to a request that was not answered; every output
    // that it reports is among the results, and so is what became of calls that did not run.
    ensures out.items == if |requests| == |turns| then Transcript(given, turns) else requests[|turns|]
    ensures out.results == Outcomes(turns) + loose && Answered(out.items) == Outcomes(turns)
  {
    hide Story, Over, Settled, Transcript, Outcomes, Steering, Answered;
    var items, results;
    items, results, err, requests, turns, loose := Rounds(given, usable, inputs, configured, world);
    inputs.Producers(late);
    var followUps := inputs.Close();
    out := Outcome(items, followUps, results);
  }
}
