// What a round of dispatch reports, in terms of what was checked before it and how its
// invocations ended (kit/loop/execute.go).
module DispatchOutcomes {
  import opened Wrappers
  import opened Dispatch

  // ---- What preflight makes of the checks.

  // A call that was checked as valid, with this write target.
  predicate Aims(c: Check, target: string) {
    c.Valid? && c.target == target
  }

  // The result of a call that is not dispatched.
  predicate Stopped(c: Check, code: Code) {
    match c
    case Refused(None) => code == Denied
    case Refused(Some(given)) => code == given
    case NotOffered => code == Unavailable
    case Malformed => code == Invalid
    case Valid(_, _, None) => false
    case Valid(_, _, Some(None)) => code == Denied
    case Valid(_, _, Some(Some(given))) => code == given
  }

  // A call waits for the last call before it with its own target, and for the last call of all
  // with the target that its gate names.
  lemma RoundExactly(ids: seq<string>, checks: seq<Check>, configured: nat, i: nat)
    requires |ids| == |checks| && i < |checks|
    ensures var g := RoundOf(ids, checks, configured);
            && (g.blocked[i].None? <==> checks[i].Valid? && checks[i].denied.None?)
            && (g.blocked[i].Some? ==> g.blocked[i].value.id == ids[i] && Stopped(checks[i], g.blocked[i].value.code))
            && (forall j: nat :: g.previous[i] == Some(j) <==>
                  && j < i && checks[i].Valid? && checks[i].target != "" && Aims(checks[j], checks[i].target)
                  && forall k :: j < k < i ==> !Aims(checks[k], checks[i].target))
            && (forall j: nat :: g.gate[i] == Some(j) <==>
                  && j < |checks| && checks[i].Valid? && checks[i].gate != "" && checks[i].gate != checks[i].target
                  && Aims(checks[j], checks[i].gate) && forall k :: j < k < |checks| ==> !Aims(checks[k], checks[i].gate))
  {
    var g := RoundOf(ids, checks, configured);
    forall t: string, k: nat | k < |checks| && t != "" ensures Target(checks[k]) == t <==> Aims(checks[k], t) { }
    LastExactly(checks, Target(checks[i]), i);
    LastExactly(checks, GateName(checks[i]), |checks|);
  }

  lemma LastExactly(checks: seq<Check>, t: string, end: nat)
    requires end <= |checks|
    ensures t != "" ==> forall j: nat :: LastBefore(checks, t, end) == Some(j) <==>
                          j < end && Aims(checks[j], t) && forall k :: j < k < end ==> !Aims(checks[k], t)
  {
    forall k: nat | k < |checks| && t != "" ensures Target(checks[k]) == t <==> Aims(checks[k], t) { }
  }

  // ---- What a run records.

  // The result that an ended invocation has.
  predicate Reported(e: Ending, code: Code) {
    match e
    case Panicked => code == Unknown
    case NotJournaled => code == Aborted
    case NotAdmitted(None, true) => code == Denied
    case NotAdmitted(Some(given), true) => if given == Foreign then code == Unknown else code == given
    case NotAdmitted(_, false) => code == Unknown
    case Returned(given, true) => if given == Foreign then code == Unknown else code == given
    case Returned(_, false) => code == Unknown
  }

  // Why a round was cancelled: its caller ended it, a call could not be journaled before it
  // started, or a result could not be saved.
  predicate Cause(s: State) {
    s.stopped || s.unsaved != {} || exists i :: i in s.endings && s.endings[i].NotJournaled?
  }

  ghost predicate Recorded(s: State) {
    && (forall i :: i in s.endings <==> Ended(i) in s.log)
    && (forall i :: i in s.endings ==> i < |s.pc| == |s.out| && Order(s.pc[i]) > Order(Running) && Started(i) in s.log)
    && (forall i :: i in s.endings ==> Reported(s.endings[i], s.out[i].code))
    && (s.cancelled <==> Cause(s))
    && (forall i :: i in s.unsaved ==> exists r :: Saved(i, r) in s.log)
  }

  lemma InitRecorded(g: Round)
    requires g.Valid()
    ensures Recorded(Init(g))
  {
  }

  lemma CancelRecorded(s: State)
    requires Recorded(s)
    ensures Recorded(Cancel(s))
  {
  }

  // What one step does to the record.
  ghost predicate Moves(s: State, t: State, i: nat) {
    && i < |s.pc| == |t.pc| == |s.out| == |t.out| && t.stopped == s.stopped && Order(t.pc[i]) > Order(s.pc[i])
    && (forall j :: 0 <= j < |s.pc| && j != i ==> t.pc[j] == s.pc[j] && t.out[j] == s.out[j])
  }

  lemma Ends(g: Round, s: State, i: nat, c: Choice)
    requires Shaped(g, s) && i < |g.ids| && s.pc[i] == Running
    ensures var t := Step(g, s, i, c);
            && Moves(s, t, i) && t.endings == s.endings[i := c.ending] && t.log == s.log + [Ended(i)]
            && t.unsaved == s.unsaved && t.cancelled == (s.cancelled || c.ending.NotJournaled?)
            && Reported(c.ending, t.out[i].code)
  {
  }

  lemma Saves(g: Round, s: State, i: nat, c: Choice)
    requires Shaped(g, s) && i < |g.ids| && s.pc[i] == Saving
    ensures var t := Step(g, s, i, c);
            && Moves(s, t, i) && t.endings == s.endings && t.out == s.out && t.log == s.log + [Saved(i, s.out[i])]
            && t.unsaved == s.unsaved + (if c.journalFails then {i} else {})
            && t.cancelled == (s.cancelled || c.journalFails)
  {
  }

  lemma Goes(g: Round, s: State, i: nat, c: Choice)
    requires Shaped(g, s) && i < |g.ids| && Enabled(g, s, i) && s.pc[i] != Running && s.pc[i] != Saving
    ensures var t := Step(g, s, i, c);
            && Moves(s, t, i) && t.endings == s.endings && t.out == s.out && t.unsaved == s.unsaved
            && t.cancelled == s.cancelled && (t.log == s.log || t.log == s.log + [Started(i)])
  {
  }

  lemma EndRecorded(s: State, t: State, i: nat, e: Ending)
    requires Recorded(s) && Moves(s, t, i) && t.endings == s.endings[i := e] && t.log == s.log + [Ended(i)]
    requires t.unsaved == s.unsaved && t.cancelled == (s.cancelled || e.NotJournaled?) && Reported(e, t.out[i].code)
    requires s.pc[i] == Running && Started(i) in s.log
    ensures Recorded(t)
  {
    hide Reported, Cause;
    assert i !in s.endings && t.endings[i] == e;
    assert forall x :: x in s.log ==> x in t.log;
    EndCause(s, t, i, e);
    UnsavedStay(s, t);
  }

  lemma EndCause(s: State, t: State, i: nat, e: Ending)
    requires i !in s.endings && t.endings == s.endings[i := e] && t.unsaved == s.unsaved && t.stopped == s.stopped
    ensures Cause(t) <==> Cause(s) || e.NotJournaled?
  {
    if j :| j in s.endings && s.endings[j].NotJournaled? { assert j in t.endings && t.endings[j].NotJournaled?; }
    if j :| j in t.endings && t.endings[j].NotJournaled? && j != i { assert j in s.endings && s.endings[j].NotJournaled?; }
    assert t.endings[i] == e;
  }

  lemma UnsavedStay(s: State, t: State)
    requires (forall i :: i in s.unsaved ==> exists r :: Saved(i, r) in s.log) && forall x :: x in s.log ==> x in t.log
    ensures forall i :: i in s.unsaved ==> exists r :: Saved(i, r) in t.log
  {
    forall i | i in s.unsaved ensures exists r :: Saved(i, r) in t.log {
      var r :| Saved(i, r) in s.log;
      assert Saved(i, r) in t.log;
    }
  }

  lemma OtherRecorded(s: State, t: State, i: nat, fails: bool)
    requires Recorded(s) && Moves(s, t, i) && t.endings == s.endings && t.out == s.out
    requires t.log == s.log || t.log == s.log + [Started(i)] || t.log == s.log + [Saved(i, s.out[i])]
    requires fails ==> t.log == s.log + [Saved(i, s.out[i])]
    requires t.unsaved == s.unsaved + (if fails then {i} else {}) && t.cancelled == (s.cancelled || fails)
    ensures Recorded(t)
  {
    hide Reported;
    assert forall x :: x in s.log ==> x in t.log;
    assert forall j :: Ended(j) in t.log <==> Ended(j) in s.log;
    UnsavedStay(s, t);
    if fails { assert i in t.unsaved && Saved(i, s.out[i]) in t.log; }
  }

  lemma StepRecorded(g: Round, s: State, i: nat, c: Choice)
    requires Shaped(g, s) && i < |g.ids| && Enabled(g, s, i) && Recorded(s)
    requires s.pc[i] == Running ==> Started(i) in s.log
    ensures Recorded(Step(g, s, i, c))
  {
    hide Step, Enabled, Reported, Recorded, Moves;
    if s.pc[i] == Running {
      Ends(g, s, i, c);
      EndRecorded(s, Step(g, s, i, c), i, c.ending);
    } else if s.pc[i] == Saving {
      Saves(g, s, i, c);
      OtherRecorded(s, Step(g, s, i, c), i, c.journalFails);
    } else {
      Goes(g, s, i, c);
      assert s.unsaved + {} == s.unsaved;
      OtherRecorded(s, Step(g, s, i, c), i, false);
    }
  }

  // In a cancelled round nothing starts any more.
  lemma CancelledStartsNothing(g: Round, s: State, i: nat, c: Choice)
    requires Shaped(g, s) && i < |g.ids| && Enabled(g, s, i) && s.cancelled
    ensures forall j :: Started(j) in Step(g, s, i, c).log <==> Started(j) in s.log
  {
  }

  // ---- What is reported.

  // A call has the result that its check or its invocation gave it; a valid call that was not
  // invoked says so, and then the round was cancelled.
  ghost predicate Told(id: string, check: Check, s: State, i: nat)
    requires i < |s.results|
  {
    && s.results[i].id == id
    && if check.Valid? && check.denied.None? then
         if i in s.endings then Started(i) in s.log && Ended(i) in s.log && Reported(s.endings[i], s.results[i].code)
         else Started(i) !in s.log && s.results[i].code == Aborted && s.cancelled
       else Started(i) !in s.log && Stopped(check, s.results[i].code)
  }
}
