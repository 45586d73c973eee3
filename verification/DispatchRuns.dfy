// What every interleaving of the dispatch in Dispatch keeps, and when it comes to an end.
module DispatchRuns {
  import opened Wrappers
  import opened Dispatch
  import opened DispatchOutcomes

  function Holders(pc: seq<Pc>): nat {
    if pc == [] then 0 else Holders(pc[..|pc| - 1]) + if Holds(pc[|pc| - 1]) then 1 else 0
  }

  lemma {:induction false} HoldersUpdate(pc: seq<Pc>, i: nat, to: Pc)
    requires i < |pc|
    ensures Holders(pc[i := to]) + (if Holds(pc[i]) then 1 else 0) == Holders(pc) + (if Holds(to) then 1 else 0)
  {
    var e, last := pc[i := to], |pc| - 1;
    if i == last {
      assert e[..last] == pc[..last];
    } else {
      assert e[..last] == pc[..last][i := to];
      HoldersUpdate(pc[..last], i, to);
    }
  }

  lemma {:induction false} HolderExists(pc: seq<Pc>) returns (i: nat)
    requires Holders(pc) > 0
    ensures i < |pc| && Holds(pc[i])
  {
    var last := |pc| - 1;
    if Holds(pc[last]) { i := last; } else { i := HolderExists(pc[..last]); }
  }

  lemma {:induction false} NoHolders(pc: seq<Pc>)
    requires forall i :: 0 <= i < |pc| ==> !Holds(pc[i])
    ensures Holders(pc) == 0
  {
    if pc != [] { NoHolders(pc[..|pc| - 1]); }
  }

  // ---- Waiting, directly and through other calls that are dispatched.

  // Call j waits for call i, directly or through k calls in between that wait themselves.
  ghost predicate Behind(g: Round, j: nat, i: nat, k: nat)
    requires g.Valid()
    decreases k
  {
    if k == 0 then g.Waits(j, i)
    else exists m: nat :: m < |g.ids| && g.Waits(j, m) && g.blocked[m].None? && Behind(g, m, i, k - 1)
  }

  ghost predicate Reaches(g: Round, j: nat, i: nat)
    requires g.Valid()
  {
    exists k: nat :: Behind(g, j, i, k)
  }

  // Call i is done with the waiting that pc < AtTest stands for.
  ghost predicate Cleared(g: Round, s: State, i: nat)
    requires Shaped(g, s) && i < |g.ids|
  {
    && (Order(s.pc[i]) > Order(AtPrevious) ==> Passed(s, g.previous[i]))
    && (Order(s.pc[i]) > Order(AtGate) ==> Passed(s, g.gate[i]))
  }

  // Which events of call i the log has, judging by its program counter.
  ghost predicate Logged(s: State, i: nat)
    requires i < |s.pc|
  {
    && (Started(i) in s.log ==> Order(s.pc[i]) >= Order(Running))
    && (s.pc[i] == Running ==> Started(i) in s.log)
    && (Ended(i) in s.log ==> Order(s.pc[i]) > Order(Running))
    && (Started(i) in s.log && s.pc[i] != Running ==> Ended(i) in s.log)
    && (forall r :: Saved(i, r) in s.log ==> Order(s.pc[i]) > Order(Saving))
  }

  ghost predicate LocalInv(g: Round, s: State, i: nat)
    requires Shaped(g, s) && i < |g.ids|
  {
    && s.out[i].id == g.ids[i]
    && (g.blocked[i].Some? ==> Order(s.pc[i]) >= Order(Saving) && s.out[i] == g.blocked[i].value && Started(i) !in s.log)
    && (g.blocked[i].None? ==> Cleared(g, s, i))
    && (g.blocked[i].None? && Started(i) !in s.log ==> s.out[i] == Result(g.ids[i], Aborted))
    && (g.blocked[i].None? && !s.cancelled && Order(s.pc[i]) > Order(Running) ==> Started(i) in s.log)
    && (Order(s.pc[i]) > Order(Saving) ==> s.results[i] == s.out[i] && Saved(i, s.out[i]) in s.log)
    && Logged(s, i)
  }

  // No event is repeated.
  ghost predicate Once(log: seq<Event>) {
    forall p, q :: 0 <= p < q < |log| ==> log[p] != log[q] && !(log[p].Saved? && log[q].Saved? && log[p].call == log[q].call)
  }

  // Every call that a started call was behind had finished: whatever it ever did is earlier.
  ghost predicate Sequenced(g: Round, log: seq<Event>)
    requires g.Valid()
  {
    forall p, q :: 0 <= p < |log| && 0 <= q < |log| && log[p].Started? && !log[q].Saved? && Reaches(g, log[p].call, log[q].call)
      ==> q < p
  }

  ghost predicate Inv(g: Round, s: State) {
    && Shaped(g, s)
    && s.slots == Holders(s.pc) <= g.parallel
    && (forall i: nat :: i < |g.ids| ==> LocalInv(g, s, i))
    && LogInv(g, s)
  }

  lemma InitInv(g: Round)
    requires g.Valid()
    ensures Inv(g, Init(g))
  {
    NoHolders(Init(g).pc);
  }

  // While nothing is cancelled, everything that a cleared call is behind has finished.
  lemma {:induction false} ClearedBehind(g: Round, s: State, j: nat, i: nat, k: nat)
    requires Shaped(g, s) && !s.cancelled && j < |g.ids| && Order(s.pc[j]) > Order(AtGate)
    requires Cleared(g, s, j) && AllCleared(g, s) && Behind(g, j, i, k)
    ensures i < |g.ids| && s.pc[i] == Done
    decreases k
  {
    if k > 0 {
      var m: nat :| m < |g.ids| && g.Waits(j, m) && g.blocked[m].None? && Behind(g, m, i, k - 1);
      assert s.pc[m] == Done;
      ClearedBehind(g, s, m, i, k - 1);
    }
  }

  ghost predicate AllCleared(g: Round, s: State)
    requires Shaped(g, s)
  {
    forall m: nat :: m < |g.ids| && g.blocked[m].None? ==> Cleared(g, s, m)
  }

  lemma StepKeepsShape(g: Round, s: State, i: nat, c: Choice)
    requires Shaped(g, s) && s.slots == Holders(s.pc) <= g.parallel && i < |g.ids| && Enabled(g, s, i)
    ensures Shaped(g, Step(g, s, i, c))
    ensures Step(g, s, i, c).slots == Holders(Step(g, s, i, c).pc) <= g.parallel
  {
    var t := Step(g, s, i, c);
    HoldersUpdate(s.pc, i, t.pc[i]);
    assert t.pc == s.pc[i := t.pc[i]];
  }

  lemma StepKeepsOwn(g: Round, s: State, i: nat, c: Choice)
    requires Shaped(g, s) && i < |g.ids| && Enabled(g, s, i) && LocalInv(g, s, i)
    ensures Shaped(g, Step(g, s, i, c)) && LocalInv(g, Step(g, s, i, c), i)
  {
    var t := Step(g, s, i, c);
    assert Started(i) in s.log ==> Started(i) in t.log;
    if Order(s.pc[i]) >= Order(Running) {
      assert Started(i) in t.log <==> Started(i) in s.log;
    }
  }

  lemma StepKeepsOther(g: Round, s: State, i: nat, c: Choice, m: nat)
    requires Shaped(g, s) && i < |g.ids| && Enabled(g, s, i) && m < |g.ids| && m != i && LocalInv(g, s, m)
    ensures Shaped(g, Step(g, s, i, c)) && LocalInv(g, Step(g, s, i, c), m)
  {
    hide Step;
    StepFrame(g, s, i, c, m);
  }

  // A step of one call leaves the state of another one and its events alone.
  lemma StepFrame(g: Round, s: State, i: nat, c: Choice, m: nat)
    requires Shaped(g, s) && i < |g.ids| && Enabled(g, s, i) && m < |g.ids| && m != i
    ensures var t := Step(g, s, i, c);
            && Shaped(g, t) && t.pc[m] == s.pc[m] && t.out[m] == s.out[m] && t.results[m] == s.results[m]
            && (s.cancelled ==> t.cancelled) && (forall on :: Passed(s, on) ==> Passed(t, on))
            && (Started(m) in t.log <==> Started(m) in s.log) && (Ended(m) in t.log <==> Ended(m) in s.log)
            && forall r :: Saved(m, r) in t.log <==> Saved(m, r) in s.log
  {
  }

  // What the log needs to know about the calls' states.
  ghost predicate Behindhand(g: Round, s: State)
    requires Shaped(g, s)
  {
    forall j: nat, i: nat :: Started(j) in s.log && Reaches(g, j, i) ==> i < |g.ids| && s.pc[i] == Done
  }

  ghost predicate LogInv(g: Round, s: State)
    requires Shaped(g, s)
  {
    Once(s.log) && Sequenced(g, s.log) && Behindhand(g, s)
  }

  // An event of a call that is not finished may follow the log, unless it repeats one.
  lemma AppendEvent(g: Round, s: State, e: Event)
    requires Shaped(g, s) && LogInv(g, s) && e.call < |g.ids| && s.pc[e.call] != Done
    requires e !in s.log && (e.Saved? ==> forall r :: Saved(e.call, r) !in s.log)
    requires e.Started? ==> !Reaches(g, e.call, e.call)
    ensures Once(s.log + [e]) && Sequenced(g, s.log + [e])
  {
    var log := s.log + [e];
    forall p, q | 0 <= p < q < |log|
      ensures log[p] != log[q] && !(log[p].Saved? && log[q].Saved? && log[p].call == log[q].call)
    {
      assert log[p] == s.log[p] && log[p] in s.log;
    }
    forall p, q | 0 <= p < |log| && 0 <= q < |log| && log[p].Started? && !log[q].Saved?
                  && Reaches(g, log[p].call, log[q].call)
      ensures q < p
    {
      if p < |s.log| { assert log[p] == s.log[p] && Started(log[p].call) in s.log; }
    }
  }

  lemma StepKeepsLog(g: Round, s: State, i: nat, c: Choice)
    requires Shaped(g, s) && LogInv(g, s) && i < |g.ids| && Enabled(g, s, i) && LocalInv(g, s, i)
    requires s.pc[i] == Holding && !s.cancelled ==>
               forall m: nat :: Reaches(g, i, m) ==> m < |g.ids| && s.pc[m] == Done
    ensures Shaped(g, Step(g, s, i, c)) && LogInv(g, Step(g, s, i, c))
  {
    if s.pc[i] == Holding && !s.cancelled {
      AppendEvent(g, s, Started(i));
    } else if s.pc[i] == Running {
      AppendEvent(g, s, Ended(i));
    } else if s.pc[i] == Saving {
      AppendEvent(g, s, Saved(i, s.out[i]));
    }
  }

  lemma StepKeepsInv(g: Round, s: State, i: nat, c: Choice)
    requires Inv(g, s) && i < |g.ids| && Enabled(g, s, i)
    ensures Inv(g, Step(g, s, i, c))
  {
    StepKeepsShape(g, s, i, c);
    forall m: nat | m < |g.ids| ensures LocalInv(g, Step(g, s, i, c), m) {
      assert LocalInv(g, s, m);
      if m == i { StepKeepsOwn(g, s, i, c); } else { StepKeepsOther(g, s, i, c, m); }
    }
    if s.pc[i] == Holding && !s.cancelled { HeldMayStart(g, s, i); }
    assert LocalInv(g, s, i);
    StepKeepsLog(g, s, i, c);
  }

  lemma HeldMayStart(g: Round, s: State, i: nat)
    requires Inv(g, s) && i < |g.ids| && s.pc[i] == Holding && !s.cancelled
    ensures forall m: nat :: Reaches(g, i, m) ==> m < |g.ids| && s.pc[m] == Done
  {
    assert LocalInv(g, s, i);
    forall m: nat | m < |g.ids| && g.blocked[m].None? ensures Cleared(g, s, m) { assert LocalInv(g, s, m); }
    forall m: nat | Reaches(g, i, m) ensures m < |g.ids| && s.pc[m] == Done {
      var k: nat :| Behind(g, i, m, k);
      ClearedBehind(g, s, i, m, k);
    }
  }

  lemma CancelKeepsInv(g: Round, s: State)
    requires Inv(g, s)
    ensures Inv(g, Cancel(s))
  {
    forall m: nat | m < |g.ids| ensures LocalInv(g, Cancel(s), m) {
      assert LocalInv(g, s, m);
    }
  }

  // ---- When a round comes to an end.

  // Calls that are dispatched and of which each waits for another one of them: such a set
  // exists exactly when the wait graph of the dispatched calls has a cycle.
  ghost predicate WaitingSet(g: Round, S: set<nat>)
    requires g.Valid()
  {
    && S != {}
    && (forall i :: i in S ==> i < |g.ids| && g.blocked[i].None?)
    && (forall i {:trigger WaitsIn(g, i, S)} :: i in S ==> WaitsIn(g, i, S))
  }

  ghost predicate WaitsIn(g: Round, i: nat, S: set<nat>)
    requires g.Valid()
  {
    exists j :: j in S && g.Waits(i, j)
  }

  ghost predicate Finished(s: State) {
    forall i :: 0 <= i < |s.pc| ==> s.pc[i] == Done
  }

  ghost predicate Stalled(g: Round, s: State)
    requires Shaped(g, s)
  {
    forall i: nat :: i < |g.ids| ==> !Enabled(g, s, i)
  }

  lemma HolderEnabled(g: Round, s: State, h: nat)
    requires Shaped(g, s) && h < |g.ids| && Holds(s.pc[h])
    ensures Enabled(g, s, h)
  {
  }

  // A stalled round that is not finished has a waiting set: the calls that are not done.
  lemma StalledWaits(g: Round, s: State)
    requires Inv(g, s) && Stalled(g, s) && !Finished(s)
    ensures !s.cancelled
    ensures WaitingSet(g, set i: nat | i < |g.ids| && s.pc[i] != Done)
  {
    hide LocalInv, LogInv, WaitsIn, Enabled;
    var S := set i: nat | i < |g.ids| && s.pc[i] != Done;
    var k :| 0 <= k < |s.pc| && s.pc[k] != Done;
    assert k in S;
    StalledRoom(g, s, k);
    forall i | i in S ensures g.blocked[i].None? && WaitsIn(g, i, S) {
      assert LocalInv(g, s, i) && !Enabled(g, s, i);
      StalledOne(g, s, i, S);
    }
  }

  // A stalled round was not cancelled and has a free slot.
  lemma StalledRoom(g: Round, s: State, k: nat)
    requires Inv(g, s) && Stalled(g, s) && k < |g.ids| && s.pc[k] != Done
    ensures !s.cancelled && s.slots < g.parallel
  {
    hide LocalInv, LogInv;
    if s.slots >= g.parallel {
      var h := HolderExists(s.pc);
      HolderEnabled(g, s, h);
    }
    assert !Enabled(g, s, k);
  }

  lemma StalledOne(g: Round, s: State, i: nat, S: set<nat>)
    requires Shaped(g, s) && i < |g.ids| && LocalInv(g, s, i) && s.pc[i] != Done
    requires !Enabled(g, s, i) && !s.cancelled && s.slots < g.parallel
    requires S == set k: nat | k < |g.ids| && s.pc[k] != Done
    ensures g.blocked[i].None? && WaitsIn(g, i, S)
  {
    hide Cleared, Logged;
    var on := if s.pc[i] == AtPrevious then g.previous[i] else g.gate[i];
    assert !Passed(s, on);
    assert g.Waits(i, on.value) && on.value in S;
  }

  // Calls that are still in front of a channel that is not closed.
  ghost predicate Held(g: Round, s: State, S: set<nat>)
    requires Shaped(g, s)
  {
    forall i :: i in S ==> i < |g.ids| && (s.pc[i] == AtPrevious || s.pc[i] == AtGate)
  }

  // Unless something is cancelled, a waiting set never moves on.
  lemma WaitingSetHeld(g: Round, s: State, S: set<nat>, i: nat, c: Choice)
    requires Shaped(g, s) && WaitingSet(g, S) && Held(g, s, S) && !s.cancelled
    requires i < |g.ids| && Enabled(g, s, i) && (g.blocked[i].None? ==> Cleared(g, s, i))
    ensures Shaped(g, Step(g, s, i, c)) && Held(g, Step(g, s, i, c), S)
  {
    if i in S {
      assert WaitsIn(g, i, S);
      var j :| j in S && g.Waits(i, j);
      assert s.pc[j] != Done;
      assert s.pc[i] == AtPrevious;
    }
  }

  // Where waiting is always for something earlier in a well-founded order, nothing waits in
  // a circle. Only the calls in `named` are ever waited for.
  ghost predicate Falls(g: Round, named: set<nat>, high: nat -> nat)
    requires g.Valid()
  {
    && (forall i: nat, j: nat :: g.Waits(i, j) ==> j in named)
    && (forall i: nat, j: nat :: i in named && g.Waits(i, j) ==> high(j) < high(i) || (high(j) == high(i) && j < i))
  }

  lemma {:induction false} FallsNotWaiting(g: Round, named: set<nat>, high: nat -> nat, S: set<nat>, i: nat)
    requires g.Valid() && Falls(g, named, high) && WaitingSet(g, S)
    ensures !(i in S && i in named)
    decreases high(i), i
  {
    if i in S && i in named {
      assert WaitsIn(g, i, S);
      var j :| j in S && g.Waits(i, j);
      FallsNotWaiting(g, named, high, S, j);
    }
  }

  // With a rank on write targets that drops along every gate, no waiting set exists: this
  // is what forbidding gate cycles between targets is for.
  ghost predicate Ranked(checks: seq<Check>, rank: string -> nat) {
    forall i :: 0 <= i < |checks| && Gate(checks, i).Some? && Target(checks[i]) != "" ==>
                  rank(GateName(checks[i])) < rank(Target(checks[i]))
  }

  lemma RankedHasNoWaitingSet(ids: seq<string>, checks: seq<Check>, configured: nat, rank: string -> nat, S: set<nat>)
    requires |ids| == |checks| && Ranked(checks, rank)
    ensures !WaitingSet(RoundOf(ids, checks, configured), S)
  {
    var g := RoundOf(ids, checks, configured);
    var named := set i: nat | i < |checks| && Target(checks[i]) != "";
    var high := (i: nat) => if i < |checks| then rank(Target(checks[i])) else 0;
    forall i: nat, j: nat | g.Waits(i, j)
      ensures j in named && (i in named ==> high(j) < high(i) || (high(j) == high(i) && j < i))
    {
      RankedWaits(checks, rank, i, j);
    }
    assert Falls(g, named, high);
    if WaitingSet(g, S) {
      var i :| i in S;
      assert WaitsIn(g, i, S);
      var j :| j in S && g.Waits(i, j);
      FallsNotWaiting(g, named, high, S, j);
    }
  }

  lemma RankedWaits(checks: seq<Check>, rank: string -> nat, i: nat, j: nat)
    requires Ranked(checks, rank) && i < |checks| && (Previous(checks, i) == Some(j) || Gate(checks, i) == Some(j))
    ensures j < |checks| && Target(checks[j]) != ""
    ensures Target(checks[i]) != "" ==>
              rank(Target(checks[j])) < rank(Target(checks[i])) || (Target(checks[j]) == Target(checks[i]) && j < i)
  {
  }

  // ---- How many tools run at once.

  function Runners(pc: seq<Pc>): nat {
    if pc == [] then 0 else Runners(pc[..|pc| - 1]) + if pc[|pc| - 1] == Running then 1 else 0
  }

  lemma {:induction false} RunnersUpdate(pc: seq<Pc>, i: nat, to: Pc)
    requires i < |pc|
    ensures Runners(pc[i := to]) + (if pc[i] == Running then 1 else 0) == Runners(pc) + (if to == Running then 1 else 0)
    ensures Runners(pc) <= Holders(pc)
  {
    var e, last := pc[i := to], |pc| - 1;
    if i == last {
      assert e[..last] == pc[..last];
      RunnersHold(pc);
    } else {
      assert e[..last] == pc[..last][i := to];
      RunnersUpdate(pc[..last], i, to);
    }
  }

  lemma {:induction false} RunnersHold(pc: seq<Pc>)
    ensures Runners(pc) <= Holders(pc)
  {
    if pc != [] { RunnersHold(pc[..|pc| - 1]); }
  }

  // Tools started and not ended, as the log shows them.
  function Open(log: seq<Event>): int {
    if log == [] then 0
    else Open(log[..|log| - 1]) + (match log[|log| - 1] case Started(_) => 1 case Ended(_) => -1 case Saved(_, _) => 0)
  }

  ghost predicate Bounded(g: Round, s: State) {
    && Open(s.log) == Runners(s.pc)
    && forall p :: 0 <= p <= |s.log| ==> Open(s.log[..p]) <= g.parallel
  }

  lemma StepKeepsBounded(g: Round, s: State, i: nat, c: Choice)
    requires Shaped(g, s) && s.slots == Holders(s.pc) <= g.parallel
    requires Bounded(g, s) && i < |g.ids| && Enabled(g, s, i)
    ensures Bounded(g, Step(g, s, i, c))
  {
    hide Runners, Holders, Open;
    var t := Step(g, s, i, c);
    StepKeepsShape(g, s, i, c);
    RunnersUpdate(s.pc, i, t.pc[i]);
    assert t.pc == s.pc[i := t.pc[i]];
    RunnersHold(t.pc);
    if t.log != s.log {
      assert t.log == s.log + [t.log[|s.log|]];
      OpenAppend(g, s.log, t.log[|s.log|]);
    }
  }

  lemma OpenAppend(g: Round, log: seq<Event>, e: Event)
    requires forall p :: 0 <= p <= |log| ==> Open(log[..p]) <= g.parallel
    ensures Open(log + [e]) == Open(log) + (match e case Started(_) => 1 case Ended(_) => -1 case Saved(_, _) => 0)
    ensures Open(log + [e]) <= g.parallel ==> forall p :: 0 <= p <= |log| + 1 ==> Open((log + [e])[..p]) <= g.parallel
  {
    var t := log + [e];
    assert t[..|log|] == log;
    if Open(t) <= g.parallel {
      forall p | 0 <= p <= |t| ensures Open(t[..p]) <= g.parallel {
        if p <= |log| { assert t[..p] == log[..p]; } else { assert t[..p] == t; }
      }
    }
  }

  // ---- A whole round under an arbitrary scheduler.

  function Remaining(pc: seq<Pc>): nat {
    if pc == [] then 0 else Remaining(pc[..|pc| - 1]) + (9 - Order(pc[|pc| - 1]))
  }

  lemma {:induction false} RemainingDrops(pc: seq<Pc>, i: nat, to: Pc)
    requires i < |pc| && Order(pc[i]) < Order(to)
    ensures Remaining(pc[i := to]) < Remaining(pc)
  {
    var e, last := pc[i := to], |pc| - 1;
    if i == last {
      assert e[..last] == pc[..last];
    } else {
      assert e[..last] == pc[..last][i := to];
      RemainingDrops(pc[..last], i, to);
    }
  }

  lemma StepDrops(g: Round, s: State, i: nat, c: Choice)
    requires Shaped(g, s) && i < |g.ids| && Enabled(g, s, i)
    ensures Remaining(Step(g, s, i, c).pc) < Remaining(s.pc)
  {
    var t := Step(g, s, i, c);
    assert t.pc == s.pc[i := t.pc[i]];
    RemainingDrops(s.pc, i, t.pc[i]);
  }

  ghost predicate AllHeld(g: Round, s: State)
    requires Shaped(g, s)
  {
    forall S :: WaitingSet(g, S) ==> Held(g, s, S)
  }

  lemma InitHeld(g: Round)
    requires g.Valid()
    ensures AllHeld(g, Init(g)) && Bounded(g, Init(g))
  {
    NoRunners(Init(g).pc);
  }

  lemma {:induction false} NoRunners(pc: seq<Pc>)
    requires forall i :: 0 <= i < |pc| ==> pc[i] != Running
    ensures Runners(pc) == 0
  {
    if pc != [] { NoRunners(pc[..|pc| - 1]); }
  }

  lemma StepKeepsHeld(g: Round, s: State, i: nat, c: Choice)
    requires Inv(g, s) && AllHeld(g, s) && i < |g.ids| && Enabled(g, s, i) && !s.cancelled
    ensures Shaped(g, Step(g, s, i, c)) && AllHeld(g, Step(g, s, i, c))
  {
    assert LocalInv(g, s, i);
    forall S | WaitingSet(g, S) ensures Held(g, Step(g, s, i, c), S) {
      WaitingSetHeld(g, s, S, i, c);
    }
  }

  // Any interleaving of the goroutines, the end of the caller's context included, runs until
  // no goroutine can move. It always ends, and what it ends with is said below.
  method Execute(g: Round) returns (s: State)
    requires g.Valid()
    ensures Inv(g, s) && Bounded(g, s) && Recorded(s)
    // Every call finishes exactly when the round was cancelled or no calls wait in a circle.
    ensures Finished(s) <==> s.cancelled || forall S :: !WaitingSet(g, S)
  {
    s := Init(g);
    InitInv(g);
    InitHeld(g);
    InitRecorded(g);
    var moving := true;
    while moving
      invariant Inv(g, s) && Bounded(g, s) && Recorded(s)
      invariant !s.cancelled ==> AllHeld(g, s)
      invariant !moving ==> Stalled(g, s)
      decreases moving, Remaining(s.pc), !s.cancelled
    {
      var cancel: bool := *;
      if cancel && !s.cancelled {
        CancelKeepsInv(g, s);
        CancelRecorded(s);
        s := Cancel(s);
      } else if i: nat :| i < |g.ids| && Enabled(g, s, i) {
        var c: Choice := *;
        assert LocalInv(g, s, i) && Logged(s, i);
        StepRecorded(g, s, i, c);
        StepKeepsInv(g, s, i, c);
        StepKeepsBounded(g, s, i, c);
        StepDrops(g, s, i, c);
        if !s.cancelled { StepKeepsHeld(g, s, i, c); }
        s := Step(g, s, i, c);
      } else {
        moving := false;
      }
    }
    if !Finished(s) { StalledWaits(g, s); }
    if Finished(s) && !s.cancelled {
      forall S ensures !WaitingSet(g, S) {
      }
    }
  }
}
