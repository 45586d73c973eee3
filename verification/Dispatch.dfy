// Parallel tool dispatch of one round (kit/loop/execute.go): every call is a goroutine with
// a program counter; calls with one write target form a chain, a gate names the target of
// another call, and at most `parallel` calls hold a slot.
module Dispatch {
  import opened Wrappers

  // Result codes; `Foreign` stands for a code the loop does not know.
  datatype Code =
    | Okay | Invalid | Denied | Unavailable | Aborted | Incomplete | AwaitingPerson
    | Failed | Unknown | BudgetReached | Foreign

  datatype Result = Result(id: string, code: Code)

  // What the checks before dispatch say about a call.
  datatype Check =
    | Refused(code: Option<Code>)                                    // Admit
    | NotOffered                                                    // no usable tool
    | Malformed                                                     // Validate failed
    | Valid(target: string, gate: string, denied: Option<Option<Code>>)  // Before may still deny

  function DeniedCode(code: Option<Code>): Code {
    if code.None? then Denied else code.value
  }

  // The result of a call that is not dispatched, None for one that is.
  function Blocked(id: string, c: Check): Option<Result> {
    match c
    case Refused(code) => Some(Result(id, DeniedCode(code)))
    case NotOffered => Some(Result(id, Unavailable))
    case Malformed => Some(Result(id, Invalid))
    case Valid(_, _, None) => None
    case Valid(_, _, Some(code)) => Some(Result(id, DeniedCode(code)))
  }

  // A call that Before denies keeps its target; the other blocked calls have none.
  function Target(c: Check): string {
    if c.Valid? then c.target else ""
  }

  function GateName(c: Check): string {
    if c.Valid? then c.gate else ""
  }

  // The last call before `end` with write target t.
  function LastBefore(checks: seq<Check>, t: string, end: nat): (r: Option<nat>)
    requires end <= |checks|
    ensures r.Some? ==> r.value < end && Target(checks[r.value]) == t
                        && forall k :: r.value < k < end ==> Target(checks[k]) != t
    ensures r.None? ==> forall k :: 0 <= k < end ==> Target(checks[k]) != t
  {
    if end == 0 then None
    else if Target(checks[end - 1]) == t then Some(end - 1)
    else LastBefore(checks, t, end - 1)
  }

  function Previous(checks: seq<Check>, i: nat): Option<nat>
    requires i < |checks|
  {
    if Target(checks[i]) == "" then None else LastBefore(checks, Target(checks[i]), i)
  }

  function Gate(checks: seq<Check>, i: nat): Option<nat>
    requires i < |checks|
  {
    var name := GateName(checks[i]);
    if name == "" || name == Target(checks[i]) then None else LastBefore(checks, name, |checks|)
  }

  function Lookup(last: map<string, nat>, t: string): Option<nat> {
    if t in last then Some(last[t]) else None
  }

  // `last` holds the last of the first `end` calls for every write target.
  ghost predicate Latest(last: map<string, nat>, checks: seq<Check>, end: nat)
    requires end <= |checks|
  {
    forall t :: t != "" ==> Lookup(last, t) == LastBefore(checks, t, end)
  }

  // Chain the calls of each target.
  method Chain(checks: seq<Check>) returns (previous: seq<Option<nat>>, last: map<string, nat>)
    ensures |previous| == |checks| && forall i :: 0 <= i < |checks| ==> previous[i] == Previous(checks, i)
    ensures Latest(last, checks, |checks|)
  {
    last, previous := map[], [];
    var i := 0;
    while i < |checks|
      invariant 0 <= i == |previous| <= |checks|
      invariant forall k :: 0 <= k < i ==> previous[k] == Previous(checks, k)
      invariant Latest(last, checks, i)
    {
      var t := Target(checks[i]);
      if t == "" {
        previous := previous + [None];
      } else {
        previous := previous + [Lookup(last, t)];
        last := last[t := i];
      }
      i := i + 1;
    }
  }

  // A gate waits for the last call of the named target.
  method Gates(checks: seq<Check>, last: map<string, nat>) returns (gate: seq<Option<nat>>)
    requires Latest(last, checks, |checks|)
    ensures |gate| == |checks| && forall i :: 0 <= i < |checks| ==> gate[i] == Gate(checks, i)
  {
    gate := [];
    var i := 0;
    while i < |checks|
      invariant 0 <= i == |gate| <= |checks|
      invariant forall k :: 0 <= k < i ==> gate[k] == Gate(checks, k)
    {
      var name := GateName(checks[i]);
      if name == "" || name == Target(checks[i]) {
        gate := gate + [None];
      } else {
        gate := gate + [Lookup(last, name)];
      }
      i := i + 1;
    }
  }

  // ---- The goroutines.

  // What dispatch works with: the results of blocked calls, and for every call the calls
  // whose `done` channels it waits for.
  datatype Round = Round(ids: seq<string>, blocked: seq<Option<Result>>, previous: seq<Option<nat>>,
                         gate: seq<Option<nat>>, parallel: nat)
  {
    predicate Valid() {
      && |blocked| == |previous| == |gate| == |ids| && 0 < parallel <= 8
      && (forall i :: 0 <= i < |ids| && blocked[i].Some? ==> blocked[i].value.id == ids[i])
      && (forall i :: 0 <= i < |ids| && previous[i].Some? ==> previous[i].value < i)
      && (forall i :: 0 <= i < |ids| && gate[i].Some? ==> gate[i].value < |ids|)
    }

    // Call j waits for the `done` channel of call i.
    predicate Waits(j: nat, i: nat)
      requires |previous| == |gate|
    {
      j < |previous| && (previous[j] == Some(i) || gate[j] == Some(i))
    }
  }

  function RoundOf(ids: seq<string>, checks: seq<Check>, configured: nat): (g: Round)
    requires |ids| == |checks|
    ensures g.Valid()
  {
    var n := |ids|;
    Round(ids, seq(n, i requires 0 <= i < n => Blocked(ids[i], checks[i])),
          seq(n, i requires 0 <= i < n => Previous(checks, i)), seq(n, i requires 0 <= i < n => Gate(checks, i)),
          Parallel(configured))
  }

  // Zero selects eight; larger values are capped.
  function Parallel(configured: nat): (p: nat)
    ensures 0 < p <= 8 && (0 < configured <= 8 ==> p == configured)
    ensures configured == 0 || configured > 8 ==> p == 8
  {
    if configured == 0 || configured > 8 then 8 else configured
  }

  datatype Pc = AtPrevious | AtGate | AtTest | AtSlot | Holding | Running | Leaving | Saving | Closing | Done

  function Order(pc: Pc): nat {
    match pc
    case AtPrevious => 0 case AtGate => 1 case AtTest => 2 case AtSlot => 3 case Holding => 4
    case Running => 5 case Leaving => 6 case Saving => 7 case Closing => 8 case Done => 9
  }

  predicate Holds(pc: Pc) { pc in {Holding, Running, Leaving} }

  datatype Event = Started(call: nat) | Ended(call: nat) | Saved(call: nat, result: Result)

  // `out` is each goroutine's local result. `log` is what an observer of the tools and of
  // the journal sees. For that observer also: how invocations ended, which results the journal
  // did not take, and whether the caller's context has ended.
  datatype State = State(pc: seq<Pc>, out: seq<Result>, results: seq<Result>, slots: nat, cancelled: bool, log: seq<Event>,
                         endings: map<nat, Ending>, unsaved: set<nat>, stopped: bool)

  // How an invocation ends: a panic, a journal error before the tool starts, a refusal by Admit
  // that came late, or a result.
  datatype Ending =
    | Panicked
    | NotJournaled
    | NotAdmitted(denied: Option<Code>, validOutput: bool)
    | Returned(code: Code, validOutput: bool)

  function Known(id: string, code: Code, validOutput: bool): Result {
    Result(id, if !validOutput || code == Foreign then Unknown else code)
  }

  // invoke: the result always carries the call's own id and a known code.
  function Invoked(id: string, e: Ending): Result {
    match e
    case Panicked => Result(id, Unknown)
    case NotJournaled => Result(id, Aborted)
    case NotAdmitted(denied, validOutput) => Known(id, DeniedCode(denied), validOutput)
    case Returned(code, validOutput) => Known(id, code, validOutput)
  }

  // What the surroundings decide in one step: which ready arm of a select is taken, how an
  // invocation ends, and whether the journal fails.
  datatype Choice = Choice(takeSlot: bool, ending: Ending, journalFails: bool)

  function Init(g: Round): State
    requires g.Valid()
  {
    var n := |g.ids|;
    State(seq(n, i requires 0 <= i < n => if g.blocked[i].Some? then Saving else AtPrevious),
          seq(n, i requires 0 <= i < n =>
            if g.blocked[i].Some? then g.blocked[i].value else Result(g.ids[i], Aborted)),
          seq(n, i requires 0 <= i < n => Result("", Foreign)), 0, false, [], map[], {}, false)
  }

  predicate Passed(s: State, on: Option<nat>) {
    s.cancelled || on.None? || (on.value < |s.pc| && s.pc[on.value] == Done)
  }

  predicate Shaped(g: Round, s: State) {
    g.Valid() && |s.pc| == |s.out| == |s.results| == |g.ids|
  }

  predicate Enabled(g: Round, s: State, i: nat)
    requires Shaped(g, s) && i < |g.ids|
  {
    match s.pc[i]
    case AtPrevious => Passed(s, g.previous[i])
    case AtGate => Passed(s, g.gate[i])
    case AtSlot => s.slots < g.parallel || s.cancelled
    case Done => false
    case _ => true
  }

  function Goto(s: State, i: nat, pc: Pc): State
    requires i < |s.pc|
  {
    s.(pc := s.pc[i := pc])
  }

  function Step(g: Round, s: State, i: nat, c: Choice): State
    requires Shaped(g, s) && i < |g.ids| && Enabled(g, s, i)
  {
    match s.pc[i]
    case AtPrevious => Goto(s, i, AtGate)
    case AtGate => Goto(s, i, AtTest)
    case AtTest => Goto(s, i, if s.cancelled then Saving else AtSlot)
    case AtSlot =>
      if s.slots < g.parallel && (c.takeSlot || !s.cancelled)
      then Goto(s, i, Holding).(slots := s.slots + 1)
      else Goto(s, i, Saving)
    case Holding =>
      if s.cancelled then Goto(s, i, Leaving) else Goto(s, i, Running).(log := s.log + [Started(i)])
    case Running =>
      Goto(s, i, Leaving).(out := s.out[i := Invoked(g.ids[i], c.ending)],
                           cancelled := s.cancelled || c.ending.NotJournaled?,
                           log := s.log + [Ended(i)], endings := s.endings[i := c.ending])
    case Leaving => Goto(s, i, Saving).(slots := if s.slots > 0 then s.slots - 1 else 0)
    case Saving =>
      Goto(s, i, Closing).(results := s.results[i := s.out[i]],
                           cancelled := s.cancelled || c.journalFails,
                           log := s.log + [Saved(i, s.out[i])],
                           unsaved := s.unsaved + if c.journalFails then {i} else {})
    case Closing => Goto(s, i, Done)
  }

  // The caller's context may end at any time.
  function Cancel(s: State): State {
    s.(cancelled := true, stopped := true)
  }
}
