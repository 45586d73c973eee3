// Dispatch of tool calls: concurrency slots, leases and outcomes (kit/tools/registry.go).
module Registry {
  import opened Wrappers
  import L = Lease

  datatype Status = Nothing | Refused | Applied | Failed | Cancelled | Unknown | Foreign

  datatype Result = Result(status: Status, revision: string)

  datatype Fault = FromHandler | FromContext | FromGate | UnknownEffect

  datatype Outcome = Outcome(result: Result, faults: set<Fault>)

  // acceptOutcome: `cause` says that the call's context has ended.
  function AcceptOutcome(cause: bool, write: bool, o: Outcome): Outcome {
    if cause then Outcome(Result(Unknown, ""), o.faults + {FromContext, UnknownEffect})
    else
      match o.result.status
      case Applied =>
        if o.faults != {}
            || (write && o.result.revision == "") then Outcome(Result(Unknown, ""), o.faults + {UnknownEffect}) else o
      case Failed => o
      case Cancelled => o
      case Foreign => Outcome(Result(Unknown, ""), o.faults + {UnknownEffect})
      case _ => Outcome(o.result.(status := Unknown), o.faults + {UnknownEffect})
  }

  // An effect is reported as applied exactly when the handler said so in time, without an
  // error and, for a write, with a revision; everything uncertain is reported as unknown.
  lemma AppliedExactly(cause: bool, write: bool, o: Outcome)
    ensures var r := AcceptOutcome(cause, write, o);
            && (r.result.status.Applied? <==>
                  !cause && o.result.status.Applied? && o.faults == {} && (write ==> o.result.revision != ""))
            && (r.result.status.Applied? ==> r == o)
            && r.result.status in {Applied, Failed, Cancelled, Unknown}
            && (r.result.status.Unknown? ==> UnknownEffect in r.faults)
            && (cause ==> r.result.status.Unknown?)
  {
  }

  // ---- One dispatch: the caller and the goroutine of the handler.

  datatype Caller = Queued | Slotted | Leased | Waiting | Deciding(outcome: Outcome)
      | Returned(outcome: Outcome, replayed: bool)

  datatype Worker = Absent | Starting | Inside | Releasing | Freeing | Gone

  // `outcome` is what the handler left; `others` counts further calls inside Do on the lease,
  // which the handler may have started and left behind.
  datatype Dispatch = Dispatch(caller: Caller, worker: Worker, lease: L.State, others: nat, write: bool, expired: bool,
      outcome: Option<Outcome>)

  function Begun(write: bool): Dispatch {
    Dispatch(Queued, Absent, L.Fresh(), 0, write, false, None)
  }

  // Whether it holds one of the tool's slots.
  predicate Holds(d: Dispatch) {
    d.caller.Slotted? || d.caller.Leased? || !(d.worker.Absent? || d.worker.Gone?)
  }

  datatype Verdict = Proceed | Replay(outcome: Outcome) | Reject(outcome: Outcome)

  datatype Move =
    | Expire                        // the caller's context ends
    | TakeSlot | GiveUp
    | Acquire(ok: bool)
    | Begin(verdict: Verdict)
    | Enter                         // Do, up to the handler
    | EnterOther | LeaveOther | ReleaseEarly
    | Return(outcome: Outcome)      // the handler returns or panics
    | Release | Free | RunFinish
    | Receive | TimeOut
    | Finish(ok: bool)

  function Refusal(fault: Fault): Outcome {
    Outcome(Result(Refused, ""), {fault})
  }

  // One step; None where it cannot be taken. `room` says whether a slot is free.
  function Next(d: Dispatch, m: Move, room: bool): Option<Dispatch> {
    match m
    case Expire => Some(d.(expired := true))
    case TakeSlot => if d.caller.Queued? && room then Some(d.(caller := Slotted)) else None
    case GiveUp =>
      if d.caller.Queued? && d.expired then Some(d.(caller := Returned(Refusal(FromContext), false))) else None
    case Acquire(ok) =>
      if !d.caller.Slotted? then None
      else if ok then Some(d.(caller := Leased))
      else Some(d.(caller := Returned(Refusal(FromGate), false)))
    case Begin(verdict) =>
      if !d.caller.Leased? then None
      else (
        match verdict
        case Proceed => Some(d.(caller := Waiting, worker := Starting))
        case Replay(o) => Some(d.(caller := Returned(o, true), lease := L.Released(d.lease)))
        case Reject(o) =>
          var status := if UnknownEffect in o.faults then Unknown else Refused;
          var refusal := Outcome(Result(status, ""), o.faults + {FromGate});
          Some(d.(caller := Returned(refusal, false), lease := L.Released(d.lease))))
    case Enter =>
      if !d.worker.Starting? then None
      else if d.expired || d.lease.released then
        Some(d.(worker := Releasing, outcome := Some(Outcome(Result(Unknown, ""), {FromContext}))))
      else Some(d.(worker := Inside, lease := L.Entered(d.lease)))
    case EnterOther =>
      if d.worker.Absent? || d.lease.released then None else Some(d.(lease := L.Entered(d.lease), others := d.others + 1))
    case LeaveOther => if d.others == 0
        || d.lease.running == 0 then None else Some(d.(lease := L.Left(d.lease), others := d.others - 1))
    case ReleaseEarly => if d.worker.Inside? then Some(d.(lease := L.Released(d.lease))) else None
    case Return(o) =>
      if !d.worker.Inside? || d.lease.running == 0 then None
      else Some(d.(worker := Releasing, lease := L.Left(d.lease), outcome := Some(o)))
    case Release => if d.worker.Releasing? then Some(d.(worker := Freeing, lease := L.Released(d.lease))) else None
    case Free => if d.worker.Freeing? then Some(d.(worker := Gone)) else None
    case RunFinish => if d.lease.finishing == 0 then None else Some(d.(lease := L.Finished(d.lease)))
    case Receive =>
      if d.caller.Waiting? && d.outcome.Some? then
        Some(d.(caller := Deciding(AcceptOutcome(d.expired, d.write, d.outcome.value))))
      else None
    case TimeOut =>
      if d.caller.Waiting? && d.expired then
        Some(d.(caller := Deciding(AcceptOutcome(true, d.write, Outcome(Result(Unknown, ""), {FromContext})))))
      else None
    case Finish(ok) =>
      if !d.caller.Deciding? then None
      else if ok then Some(d.(caller := Returned(d.caller.outcome, false)))
      else Some(d.(caller := Returned(Outcome(Result(Unknown, ""), d.caller.outcome.faults + {FromGate}), false)))
  }

  // An outcome that claims an effect is what the handler left, in full.
  ghost predicate Earned(d: Dispatch, o: Outcome) {
    o.result.status.Applied? ==> d.outcome == Some(o) && o.faults == {} && (d.write ==> o.result.revision != "")
  }

  predicate Early(d: Dispatch) {
    d.caller.Queued? || d.caller.Slotted? || d.caller.Leased?
  }

  ghost predicate LeaseOk(d: Dispatch) {
    && L.Ok(d.lease) && d.lease.running == d.others + (if d.worker.Inside? then 1 else 0)
    && (Early(d) ==> d.others == 0 && !d.lease.released)
  }

  // How far the caller, the handler and the lease can be apart.
  predicate PhasesOk(d: Dispatch) {
    && (Early(d) ==> d.worker.Absent?)
    && (d.worker.Freeing? || d.worker.Gone? ==> d.lease.released)
    && (d.caller.Waiting? || d.caller.Deciding? ==> !d.worker.Absent?)
    && (d.outcome.Some? ==> d.worker.Releasing? || d.worker.Freeing? || d.worker.Gone?)
  }

  ghost predicate OutcomeOk(d: Dispatch) {
    && (d.caller.Deciding? ==> Earned(d, d.caller.outcome))
    && (d.caller.Returned? && !d.caller.replayed ==> Earned(d, d.caller.outcome))
  }

  ghost predicate One(d: Dispatch) {
    LeaseOk(d) && PhasesOk(d) && OutcomeOk(d)
  }

  lemma NextKeepsLease(d: Dispatch, m: Move, room: bool)
    requires LeaseOk(d) && (Early(d) ==> d.worker.Absent?) && Next(d, m, room).Some?
    ensures LeaseOk(Next(d, m, room).value)
  {
    hide L.Ok, L.Entered, L.Left, L.Released, L.Finished, L.Fresh, AcceptOutcome, Refusal;
    L.StepsKeepOk(d.lease);
    L.StepsCount(d.lease);
  }

  lemma NextKeepsPhases(d: Dispatch, m: Move, room: bool)
    requires PhasesOk(d) && Next(d, m, room).Some?
    ensures PhasesOk(Next(d, m, room).value)
    ensures Holds(Next(d, m, room).value) && !Holds(d) ==> room
  {
    hide AcceptOutcome, Refusal, L.Entered, L.Left, L.Released, L.Finished, L.Fresh;
    L.StepsCount(d.lease);
  }

  lemma NextKeepsOutcome(d: Dispatch, m: Move, room: bool)
    requires PhasesOk(d) && OutcomeOk(d) && Next(d, m, room).Some?
    ensures OutcomeOk(Next(d, m, room).value)
  {
    hide AcceptOutcome, L.Entered, L.Left, L.Released, L.Finished, L.Fresh;
    if m.Receive? && d.outcome.Some? { AppliedExactly(d.expired, d.write, d.outcome.value); }
    if m.TimeOut? { AppliedExactly(true, d.write, Outcome(Result(Unknown, ""), {FromContext})); }
  }

  lemma NextKeeps(d: Dispatch, m: Move, room: bool)
    requires One(d) && Next(d, m, room).Some?
    ensures One(Next(d, m, room).value)
    ensures Holds(Next(d, m, room).value) && !Holds(d) ==> room
  {
    hide Next, LeaseOk, OutcomeOk;
    NextKeepsLease(d, m, room);
    NextKeepsPhases(d, m, room);
    NextKeepsOutcome(d, m, room);
  }

  // The handler's lease ends only after the handler has returned.
  lemma LeaseOutlivesHandler(d: Dispatch)
    requires One(d) && d.lease.finishing + d.lease.finished > 0
    ensures !d.worker.Inside? && d.others == 0 && d.lease.finishing + d.lease.finished == 1
  {
    L.FinishIsLast(d.lease);
  }

  // ---- What a caller is told.

  // A receipt is trusted when the caller still waits and it names an effect, a failure or a
  // cancellation without contradicting itself; everything else is an unknown effect.
  lemma OutcomeExactly(cause: bool, write: bool, o: Outcome)
    ensures var told, status := AcceptOutcome(cause, write, o), o.result.status;
            if !cause && status == Applied && o.faults == {} && (write ==> o.result.revision != "") then told == o
            else if !cause && (status == Failed || status == Cancelled) then told == o
            else
              && told.result.status == Unknown
              && told.faults == o.faults + {UnknownEffect} + (if cause then {FromContext} else {})
              && told.result.revision
                 == if !cause && status in {Nothing, Refused, Unknown} then o.result.revision else ""
  {
    assert o.faults + {FromContext, UnknownEffect} == o.faults + {UnknownEffect} + {FromContext};
    assert o.faults + {UnknownEffect} + {} == o.faults + {UnknownEffect};
  }

  // Moves one after another, each with a free slot; None where one cannot be made.
  function After(d: Dispatch, moves: seq<Move>): Option<Dispatch>
    decreases |moves|
  {
    if moves == [] then Some(d)
    else
      var next := Next(d, moves[0], true);
      if next.None? then None else After(next.value, moves[1..])
  }

  lemma AfterOne(d: Dispatch, m: Move, moves: seq<Move>)
    ensures After(d, [m] + moves) == if Next(d, m, true).None? then None else After(Next(d, m, true).value, moves)
    ensures After(d, []) == Some(d) && [m] + [] == [m]
  {
    assert ([m] + moves)[1..] == moves;
  }

  // A dispatch whose handler is about to start.
  function Started(write: bool): Dispatch {
    Begun(write).(caller := Waiting, worker := Starting)
  }

  lemma Starts(write: bool, moves: seq<Move>)
    ensures After(Begun(write), [TakeSlot, Acquire(true), Begin(Proceed)] + moves) == After(Started(write), moves)
  {
    assert [TakeSlot, Acquire(true), Begin(Proceed)] + moves == [TakeSlot] + ([Acquire(true)] + ([Begin(Proceed)] + moves));
    AfterOne(Begun(write), TakeSlot, [Acquire(true)] + ([Begin(Proceed)] + moves));
    AfterOne(Begun(write).(caller := Slotted), Acquire(true), [Begin(Proceed)] + moves);
    AfterOne(Begun(write).(caller := Leased), Begin(Proceed), moves);
  }

  // What a handler that returned in time leaves behind.
  function Finished(write: bool, o: Outcome): Dispatch {
    Started(write).(caller := Returned(AcceptOutcome(false, write, o), false), worker := Releasing, outcome := Some(o))
  }

  // A handler that returns in time: its caller is told what it left,
  lemma HandlerReturns(write: bool, o: Outcome)
    ensures After(Started(write), [Enter, Return(o), Receive, Finish(true)]) == Some(Finished(write, o))
  {
    hide AcceptOutcome;
    var d0 := Started(write);
    var d1 := d0.(worker := Inside, lease := L.Entered(d0.lease));
    var d2 := d1.(worker := Releasing, lease := L.Left(d1.lease), outcome := Some(o));
    var d3 := d2.(caller := Deciding(AcceptOutcome(false, write, o)));
    AfterOne(d0, Enter, [Return(o), Receive, Finish(true)]);
    AfterOne(d1, Return(o), [Receive, Finish(true)]);
    AfterOne(d2, Receive, [Finish(true)]);
    AfterOne(d3, Finish(true), []);
    assert [Enter] + [Return(o), Receive, Finish(true)] == [Enter, Return(o), Receive, Finish(true)];
  }

  // and then slot and lease are free, and the lease's callback has run.
  lemma HandlerLeaves(write: bool, o: Outcome)
    ensures var d := After(Finished(write, o), [Release, Free, RunFinish]);
            && d.Some? && d.value.caller == Finished(write, o).caller && d.value.worker == Gone && !Holds(d.value)
            && d.value.lease.released && d.value.lease.running == 0 && d.value.lease.finished == 1
  {
    hide AcceptOutcome;
    var d4 := Finished(write, o);
    var d5 := d4.(worker := Freeing, lease := L.Released(d4.lease));
    var d6 := d5.(worker := Gone);
    AfterOne(d4, Release, [Free, RunFinish]);
    AfterOne(d5, Free, [RunFinish]);
    AfterOne(d6, RunFinish, []);
  }

  // A handler that does not: its caller is told that the effect is unknown, and the handler keeps
  // its slot and its lease.
  lemma CallerTimesOut(write: bool)
    ensures var d := After(Started(write), [Enter, Expire, TimeOut, Finish(true)]);
            && d.Some? && d.value.caller == Returned(Outcome(Result(Unknown, ""), {FromContext, UnknownEffect}), false)
            && d.value.worker == Inside && Holds(d.value) && !d.value.lease.released && d.value.lease.running == 1
  {
    var d0 := Started(write);
    var d1 := d0.(worker := Inside, lease := L.Entered(d0.lease));
    var d2 := d1.(expired := true);
    var late := Outcome(Result(Unknown, ""), {FromContext, UnknownEffect});
    assert {FromContext} + {FromContext, UnknownEffect} == {FromContext, UnknownEffect};
    var d3 := d2.(caller := Deciding(late));
    AfterOne(d0, Enter, [Expire, TimeOut, Finish(true)]);
    AfterOne(d1, Expire, [TimeOut, Finish(true)]);
    AfterOne(d2, TimeOut, [Finish(true)]);
    AfterOne(d3, Finish(true), []);
    assert [Enter] + [Expire, TimeOut, Finish(true)] == [Enter, Expire, TimeOut, Finish(true)];
  }

  // The ways in which no handler runs, and what the caller is told then.
  lemma NotStarted(write: bool, o: Outcome)
    ensures var d := Begun(write);
            && After(d, [Expire, GiveUp])
               == Some(d.(expired := true, caller := Returned(Outcome(Result(Refused, ""), {FromContext}), false)))
            && After(d, [TakeSlot, Acquire(false)])
               == Some(d.(caller := Returned(Outcome(Result(Refused, ""), {FromGate}), false)))
            && After(d, [TakeSlot, Acquire(true), Begin(Replay(o))])
               == Some(d.(caller := Returned(o, true), lease := L.Released(L.Fresh())))
            && After(d, [TakeSlot, Acquire(true), Begin(Reject(o))])
               == Some(d.(lease := L.Released(L.Fresh()),
                          caller := Returned(Outcome(Result(if UnknownEffect in o.faults then Unknown else Refused, ""),
                                                     o.faults + {FromGate}), false)))
  {
    var d := Begun(write);
    AfterOne(d, Expire, [GiveUp]);
    AfterOne(d.(expired := true), GiveUp, []);
    AfterOne(d, TakeSlot, [Acquire(false)]);
    AfterOne(d.(caller := Slotted), Acquire(false), []);
    AfterOne(d, TakeSlot, [Acquire(true), Begin(Replay(o))]);
    AfterOne(d.(caller := Slotted), Acquire(true), [Begin(Replay(o))]);
    AfterOne(d.(caller := Leased), Begin(Replay(o)), []);
    AfterOne(d, TakeSlot, [Acquire(true), Begin(Reject(o))]);
    AfterOne(d.(caller := Slotted), Acquire(true), [Begin(Reject(o))]);
    AfterOne(d.(caller := Leased), Begin(Reject(o)), []);
  }

  // A result that cannot be recorded is unknown, and a handler whose caller or lease is gone
  // before it starts does not run.
  lemma NotTrusted(write: bool, o: Outcome)
    ensures var told := AcceptOutcome(false, write, o);
            var d := After(Started(write), [Enter, Return(o), Receive, Finish(false)]);
            d.Some? && d.value.caller == Returned(Outcome(Result(Unknown, ""), told.faults + {FromGate}), false)
    ensures var d := After(Started(write), [Expire, Enter]);
            d.Some? && d.value.worker == Releasing && d.value.outcome == Some(Outcome(Result(Unknown, ""), {FromContext}))
  {
    var d0 := Started(write);
    var d1 := d0.(worker := Inside, lease := L.Entered(d0.lease));
    var d2 := d1.(worker := Releasing, lease := L.Left(d1.lease), outcome := Some(o));
    var d3 := d2.(caller := Deciding(AcceptOutcome(false, write, o)));
    AfterOne(d0, Enter, [Return(o), Receive, Finish(false)]);
    AfterOne(d1, Return(o), [Receive, Finish(false)]);
    AfterOne(d2, Receive, [Finish(false)]);
    AfterOne(d3, Finish(false), []);
    assert [Enter] + [Return(o), Receive, Finish(false)] == [Enter, Return(o), Receive, Finish(false)];
    AfterOne(d0, Expire, [Enter]);
    AfterOne(d0.(expired := true), Enter, []);
  }

  // ---- All dispatches of one tool.

  function Held(calls: seq<Dispatch>): nat {
    if calls == [] then 0 else Held(calls[..|calls| - 1]) + if Holds(calls[|calls| - 1]) then 1 else 0
  }

  // Handlers that run.
  function Running(calls: seq<Dispatch>): nat {
    if calls == [] then 0 else Running(calls[..|calls| - 1]) + if calls[|calls| - 1].worker.Inside? then 1 else 0
  }

  lemma {:induction false} HeldUpdate(calls: seq<Dispatch>, i: nat, d: Dispatch)
    requires i < |calls|
    ensures Held(calls[i := d]) + (if Holds(calls[i]) then 1 else 0) == Held(calls) + (if Holds(d) then 1 else 0)
  {
    var e, last := calls[i := d], |calls| - 1;
    if i == last {
      assert e[..last] == calls[..last];
    } else {
      assert e[..last] == calls[..last][i := d];
      HeldUpdate(calls[..last], i, d);
    }
  }

  lemma {:induction false} RunningHolds(calls: seq<Dispatch>)
    ensures Running(calls) <= Held(calls)
  {
    if calls != [] { RunningHolds(calls[..|calls| - 1]); }
  }

  lemma BegunOk(write: bool)
    ensures One(Begun(write)) && !Holds(Begun(write))
  {
    hide L.Ok, L.Fresh;
    L.StepsCount(L.Fresh());
  }

  class Tool {
    const conc: nat
    var slots: nat
    var calls: seq<Dispatch>

    ghost predicate Valid()
      reads this
    {
      slots == Held(calls) <= conc && forall i :: 0 <= i < |calls| ==> One(calls[i])
    }

    // Register refuses a tool without a slot.
    constructor (conc: nat)
      requires conc >= 1
      ensures Valid() && this.conc == conc && calls == []
    {
      this.conc, slots, calls := conc, 0, [];
    }

    method Dispatch(write: bool) returns (i: nat)
      modifies this
      requires Valid()
      ensures Valid() && i == |old(calls)| && calls == old(calls) + [Begun(write)] && slots == old(slots)
    {
      hide One, Holds, Begun;
      BegunOk(write);
      i := |calls|;
      calls := calls + [Begun(write)];
    }

    // One step of the caller, the handler or the surroundings of a dispatch.
    method Step(i: nat, m: Move) returns (ok: bool)
      requires Valid() && i < |calls|
      modifies this
      ensures Valid()
      ensures var next := Next(old(calls)[i], m, old(slots) < conc);
              if next.None? then !ok && calls == old(calls) else ok && calls == old(calls)[i := next.value]
      // Whoever has not left its slot keeps it, and the number of running handlers is bounded,
      // even when callers no longer wait.
      ensures Running(calls) <= conc
    {
      hide Next, One, Holds;
      var next := Next(calls[i], m, slots < conc);
      if next.None? {
        RunningHolds(calls);
        return false;
      }
      NextKeeps(calls[i], m, slots < conc);
      HeldUpdate(calls, i, next.value);
      if Holds(next.value) && !Holds(calls[i]) {
        slots := slots + 1;
      } else if Holds(calls[i]) && !Holds(next.value) {
        slots := slots - 1;
      }
      calls := calls[i := next.value];
      RunningHolds(calls);
      ok := true;
    }
  }

  // A new call, or the next step of one.
  datatype Action = Opens(write: bool) | Moves(call: nat, move: Move)

  // The dispatches after these actions; a step that cannot be taken changes nothing.
  ghost function Calls(conc: nat, actions: seq<Action>): seq<Dispatch> {
    if actions == [] then []
    else
      var calls := Calls(conc, actions[..|actions| - 1]);
      match actions[|actions| - 1]
      case Opens(write) => calls + [Begun(write)]
      case Moves(i, m) =>
        if i >= |calls| then calls
        else
          var next := Next(calls[i], m, Held(calls) < conc);
          if next.None? then calls else calls[i := next.value]
  }

  lemma CallsMore(conc: nat, actions: seq<Action>, k: nat)
    requires k < |actions|
    ensures var calls := Calls(conc, actions[..k]);
            Calls(conc, actions[..k + 1])
            == match actions[k]
               case Opens(write) => calls + [Begun(write)]
               case Moves(i, m) =>
                 if i >= |calls| then calls
                 else
                   var next := Next(calls[i], m, Held(calls) < conc);
                   if next.None? then calls else calls[i := next.value]
  {
    hide Next;
    assert actions[..k + 1][..k] == actions[..k];
  }

  // Any number of callers and handlers of one tool.
  method Run(conc: nat, actions: seq<Action>) returns (t: Tool)
    requires conc >= 1
    ensures t.Valid() && t.conc == conc && t.calls == Calls(conc, actions) && Running(t.calls) <= conc
    ensures forall i :: 0 <= i < |t.calls| && t.calls[i].lease.finished > 0 ==> !t.calls[i].worker.Inside?
  {
    hide Next, One, Holds, Begun, Held, Running;
    t := new Tool(conc);
    for k := 0 to |actions|
      invariant t.Valid() && t.conc == conc && fresh(t) && t.calls == Calls(conc, actions[..k])
    {
      CallsMore(conc, actions, k);
      match actions[k]
      case Opens(write) => var _ := t.Dispatch(write);
      case Moves(i, m) => if i < |t.calls| { var _ := t.Step(i, m); }
    }
    assert actions[..|actions|] == actions;
    RunningHolds(t.calls);
    forall i | 0 <= i < |t.calls| && t.calls[i].lease.finished > 0 ensures !t.calls[i].worker.Inside? {
      LeaseOutlivesHandler(t.calls[i]);
    }
  }
}
