// Which calls of a round can run at the same time, exactly.
module DispatchOverlap {
  import opened Wrappers
  import opened Dispatch
  import opened DispatchOutcomes
  import opened DispatchRuns

  // ---- Waiting through a target's chain.

  // Two calls of one target with only dispatched calls of that target between them.
  lemma {:induction false} ChainReaches(ids: seq<string>, checks: seq<Check>, configured: nat, i: nat, j: nat)
    requires |ids| == |checks| && i < j < |checks| && Target(checks[i]) == Target(checks[j]) != ""
    requires forall m: nat :: i < m < j && Target(checks[m]) == Target(checks[j]) ==> Blocked(ids[m], checks[m]).None?
    ensures Reaches(RoundOf(ids, checks, configured), j, i)
    decreases j
  {
    var g := RoundOf(ids, checks, configured);
    var m := Previous(checks, j).value;
    assert g.Waits(j, m) && i <= m;
    if m == i {
      assert Behind(g, j, i, 0);
    } else {
      ChainReaches(ids, checks, configured, i, m);
      var k: nat :| Behind(g, m, i, k);
      assert Behind(g, j, i, k + 1);
    }
  }

  // A gated call and any call of the named target, with only dispatched calls of that
  // target behind the latter.
  lemma GateReaches(ids: seq<string>, checks: seq<Check>, configured: nat, i: nat, j: nat)
    requires |ids| == |checks| && i < |checks| && j < |checks|
    requires GateName(checks[j]) == Target(checks[i]) != "" && GateName(checks[j]) != Target(checks[j])
    requires forall m: nat :: i < m < |checks| && Target(checks[m]) == Target(checks[i]) ==> Blocked(ids[m], checks[m]).None?
    ensures Reaches(RoundOf(ids, checks, configured), j, i)
  {
    var g := RoundOf(ids, checks, configured);
    var m := Gate(checks, j).value;
    assert g.Waits(j, m) && i <= m;
    if m == i {
      assert Behind(g, j, i, 0);
    } else {
      ChainReaches(ids, checks, configured, i, m);
      var k: nat :| Behind(g, m, i, k);
      assert Behind(g, j, i, k + 1);
    }
  }

  // In every reachable state: when a call was started, every call it was behind had ended
  // before, or never starts.
  lemma StartsAfter(g: Round, s: State, j: nat, i: nat, p: nat)
    requires Inv(g, s) && p < |s.log| && s.log[p] == Started(j) && Reaches(g, j, i)
    ensures Started(i) in s.log ==> Started(i) in s.log[..p] && Ended(i) in s.log[..p]
  {
    if Started(i) in s.log {
      assert s.log[p] in s.log;
      assert i < |g.ids| && s.pc[i] == Done;
      assert LocalInv(g, s, i) && Logged(s, i);
      var a :| 0 <= a < |s.log| && s.log[a] == Started(i);
      var b :| 0 <= b < |s.log| && s.log[b] == Ended(i);
      assert s.log[..p][a] == Started(i) && s.log[..p][b] == Ended(i);
    }
  }

  // ---- Runs.

  datatype Move = Move(call: nat, choice: Choice)

  // The states a list of moves leads through are all legal; `t` is the last one.
  ghost predicate Run(g: Round, s: State, moves: seq<Move>, t: State)
    requires Shaped(g, s)
    decreases |moves|
  {
    if moves == [] then s == t
    else
      var m := moves[0];
      m.call < |g.ids| && Enabled(g, s, m.call) && Shaped(g, Step(g, s, m.call, m.choice))
      && Run(g, Step(g, s, m.call, m.choice), moves[1..], t)
  }

  ghost predicate Leads(g: Round, s: State, t: State) {
    Shaped(g, s) && exists moves :: Run(g, s, moves, t)
  }

  lemma {:induction false} RunKeepsInv(g: Round, s: State, moves: seq<Move>, t: State)
    requires Inv(g, s) && Run(g, s, moves, t)
    ensures Inv(g, t)
    decreases |moves|
  {
    if moves != [] {
      StepKeepsInv(g, s, moves[0].call, moves[0].choice);
      RunKeepsInv(g, Step(g, s, moves[0].call, moves[0].choice), moves[1..], t);
    }
  }

  // Two calls run at the same time in some run without cancellation by the caller.
  ghost predicate MayOverlap(g: Round, i: nat, j: nat)
    requires g.Valid()
  {
    exists t :: Leads(g, Init(g), t) && i < |t.pc| && j < |t.pc| && t.pc[i] == Running && t.pc[j] == Running
  }

  lemma OverlapNotBehind(g: Round, i: nat, j: nat)
    requires g.Valid() && MayOverlap(g, i, j)
    ensures !Reaches(g, i, j) && !Reaches(g, j, i)
  {
    var t :| Leads(g, Init(g), t) && i < |t.pc| && j < |t.pc| && t.pc[i] == Running && t.pc[j] == Running;
    var moves :| Run(g, Init(g), moves, t);
    InitInv(g);
    RunKeepsInv(g, Init(g), moves, t);
    assert LocalInv(g, t, i) && LocalInv(g, t, j);
    assert Started(i) in t.log && Started(j) in t.log;
  }

  // ---- The other direction: finish everything the two calls are behind, then start both.

  // A set of calls that wait only for each other.
  ghost predicate Closed(g: Round, D: set<nat>)
    requires g.Valid()
  {
    && (forall d :: d in D ==> d < |g.ids|)
    && (forall d: nat, m: nat :: d in D && g.blocked[d].None? && g.Waits(d, m) ==> m in D)
  }

  // Calls outside D have not moved since the beginning.
  ghost predicate OnlyMoved(g: Round, s: State, D: set<nat>)
    requires Shaped(g, s)
  {
    forall m: nat :: m < |g.ids| && m !in D ==> s.pc[m] == Init(g).pc[m]
  }

  function Go(): Choice {
    Choice(true, Returned(Okay, true), false)
  }

  lemma GoKeeps(g: Round, s: State, i: nat)
    requires Shaped(g, s) && i < |g.ids| && Enabled(g, s, i) && !s.cancelled
    ensures Shaped(g, Step(g, s, i, Go())) && !Step(g, s, i, Go()).cancelled
    ensures forall m: nat :: m < |g.ids| && m != i ==> Step(g, s, i, Go()).pc[m] == s.pc[m]
  {
  }

  lemma SomeEnabled(g: Round, s: State, D: set<nat>) returns (d: nat)
    requires Inv(g, s) && !s.cancelled && Closed(g, D) && OnlyMoved(g, s, D)
    requires forall S :: !WaitingSet(g, S)
    requires exists d :: d in D && s.pc[d] != Done
    ensures d in D && Enabled(g, s, d)
  {
    if s.slots >= g.parallel {
      d := HolderExists(s.pc);
      HolderEnabled(g, s, d);
    } else if e :| e in D && Enabled(g, s, e) {
      d := e;
    } else {
      var U := set m | m in D && s.pc[m] != Done;
      var u :| u in D && s.pc[u] != Done;
      assert u in U;
      d := u;
      forall m | m in U ensures g.blocked[m].None? && WaitsIn(g, m, U) {
        assert LocalInv(g, s, m) && !Enabled(g, s, m);
        var on := if s.pc[m] == AtPrevious then g.previous[m] else g.gate[m];
        assert !Passed(s, on) && g.Waits(m, on.value) && on.value in U;
      }
      assert WaitingSet(g, U);
    }
  }

  lemma {:induction false} RunDown(g: Round, s: State, D: set<nat>) returns (t: State, moves: seq<Move>)
    requires Inv(g, s) && !s.cancelled && Closed(g, D) && OnlyMoved(g, s, D)
    requires forall S :: !WaitingSet(g, S)
    ensures Inv(g, t) && !t.cancelled && OnlyMoved(g, t, D) && Run(g, s, moves, t)
    ensures forall d :: d in D ==> t.pc[d] == Done
    decreases Remaining(s.pc)
  {
    if exists d :: d in D && s.pc[d] != Done {
      var d := SomeEnabled(g, s, D);
      GoKeeps(g, s, d);
      StepKeepsInv(g, s, d, Go());
      StepDrops(g, s, d, Go());
      var rest;
      t, rest := RunDown(g, Step(g, s, d, Go()), D);
      moves := [Move(d, Go())] + rest;
      assert moves[1..] == rest;
    } else {
      t, moves := s, [];
    }
  }

  lemma {:induction false} RunJoins(g: Round, s: State, a: seq<Move>, t: State, b: seq<Move>, u: State)
    requires Shaped(g, s) && Run(g, s, a, t) && Shaped(g, t) && Run(g, t, b, u)
    ensures Run(g, s, a + b, u)
    decreases |a|
  {
    if a == [] {
      assert a + b == b;
    } else {
      assert (a + b)[1..] == a[1..] + b;
      RunJoins(g, Step(g, s, a[0].call, a[0].choice), a[1..], t, b, u);
    }
  }

  // A dispatched call whose channels are closed can be brought to run.
  lemma StartOne(g: Round, s: State, i: nat) returns (t: State, moves: seq<Move>)
    requires Shaped(g, s) && !s.cancelled && i < |g.ids| && s.pc[i] == AtPrevious && s.slots < g.parallel
    requires Passed(s, g.previous[i]) && Passed(s, g.gate[i])
    ensures Shaped(g, t) && Run(g, s, moves, t) && !t.cancelled && t.pc == s.pc[i := Running] && t.slots == s.slots + 1
  {
    var m := Move(i, Go());
    var s1 := Step(g, s, i, Go());
    var s2 := Step(g, s1, i, Go());
    var s3 := Step(g, s2, i, Go());
    var s4 := Step(g, s3, i, Go());
    t := Step(g, s4, i, Go());
    assert Run(g, s4, [m], t);
    RunJoins(g, s3, [m], s4, [m], t);
    RunJoins(g, s2, [m], s3, [m] + [m], t);
    RunJoins(g, s1, [m], s2, [m] + ([m] + [m]), t);
    RunJoins(g, s, [m], s1, [m] + ([m] + ([m] + [m])), t);
    moves := [m] + ([m] + ([m] + ([m] + [m])));
  }

  lemma {:induction false} BehindExtends(g: Round, j: nat, d: nat, m: nat, k: nat)
    requires g.Valid() && Behind(g, j, d, k) && d < |g.ids| && g.blocked[d].None? && g.Waits(d, m)
    ensures Behind(g, j, m, k + 1)
    decreases k
  {
    if k > 0 {
      var n: nat :| n < |g.ids| && g.Waits(j, n) && g.blocked[n].None? && Behind(g, n, d, k - 1);
      BehindExtends(g, n, d, m, k - 1);
    } else {
      assert Behind(g, d, m, 0);
    }
  }

  lemma {:induction false} BehindInRange(g: Round, j: nat, i: nat, k: nat)
    requires g.Valid() && Behind(g, j, i, k)
    ensures i < |g.ids|
    decreases k
  {
    if k > 0 {
      var n: nat :| n < |g.ids| && g.Waits(j, n) && g.blocked[n].None? && Behind(g, n, i, k - 1);
      BehindInRange(g, n, i, k - 1);
    }
  }

  lemma FrontIsClosed(g: Round, i: nat, j: nat, D: set<nat>)
    requires g.Valid() && forall d: nat :: d in D <==> d < |g.ids| && (Reaches(g, i, d) || Reaches(g, j, d))
    ensures Closed(g, D)
    ensures forall m: nat :: g.Waits(i, m) || g.Waits(j, m) ==> m in D
  {
    forall d: nat, m: nat | d in D && g.blocked[d].None? && g.Waits(d, m) ensures m in D {
      var e := if Reaches(g, i, d) then i else j;
      var k: nat :| Behind(g, e, d, k);
      BehindExtends(g, e, d, m, k);
      BehindInRange(g, e, m, k + 1);
    }
    forall m: nat | g.Waits(i, m) || g.Waits(j, m) ensures m in D {
      assert Behind(g, i, m, 0) || Behind(g, j, m, 0);
    }
  }

  lemma NotBehindOverlap(g: Round, i: nat, j: nat)
    requires g.Valid() && g.parallel >= 2 && i < |g.ids| && j < |g.ids| && i != j
    requires g.blocked[i].None? && g.blocked[j].None? && (forall S :: !WaitingSet(g, S))
    requires !Reaches(g, i, j) && !Reaches(g, j, i) && !Reaches(g, i, i) && !Reaches(g, j, j)
    ensures MayOverlap(g, i, j)
  {
    hide Run, Step, WaitingSet, Reaches, Closed, LocalInv, LogInv, Holders;
    var D := set d: nat | d < |g.ids| && (Reaches(g, i, d) || Reaches(g, j, d));
    FrontIsClosed(g, i, j, D);
    InitInv(g);
    var t, first := RunDown(g, Init(g), D);
    NoHolders(t.pc);
    var u, second := StartOne(g, t, i);
    var v, third := StartOne(g, u, j);
    RunJoins(g, Init(g), first, t, second, u);
    RunJoins(g, Init(g), first + second, u, third, v);
    assert Leads(g, Init(g), v);
  }

  // A call that waits for itself through others makes a waiting set.
  lemma CircleWaits(g: Round, i: nat)
    requires g.Valid() && i < |g.ids| && g.blocked[i].None? && Reaches(g, i, i)
    ensures exists S :: WaitingSet(g, S)
  {
    var S := set d: nat | d < |g.ids| && g.blocked[d].None? && Reaches(g, i, d) && Reaches(g, d, i);
    assert i in S;
    forall d | d in S ensures WaitsIn(g, d, S) {
      var k: nat :| Behind(g, d, i, k);
      if k > 0 {
        var m: nat :| m < |g.ids| && g.Waits(d, m) && g.blocked[m].None? && Behind(g, m, i, k - 1);
        var a: nat :| Behind(g, i, d, a);
        BehindExtends(g, i, d, m, a);
        assert m in S;
      }
    }
    assert WaitingSet(g, S);
  }

  // Two dispatched calls can run at the same time exactly when neither waits for the other,
  // directly or through dispatched calls.
  lemma OverlapExactly(g: Round, i: nat, j: nat)
    requires g.Valid() && g.parallel >= 2 && i < |g.ids| && j < |g.ids| && i != j
    requires g.blocked[i].None? && g.blocked[j].None? && (forall S :: !WaitingSet(g, S))
    ensures MayOverlap(g, i, j) <==> !Reaches(g, i, j) && !Reaches(g, j, i)
  {
    if MayOverlap(g, i, j) { OverlapNotBehind(g, i, j); }
    if Reaches(g, i, i) { CircleWaits(g, i); }
    if Reaches(g, j, j) { CircleWaits(g, j); }
    if !Reaches(g, i, j) && !Reaches(g, j, i) { NotBehindOverlap(g, i, j); }
  }

  // The proviso is needed: a call of the same target that Before denies, between two
  // others, lets these run at the same time.
  lemma DeniedCallSplitsChain()
    ensures var checks := [Valid("x", "", None), Valid("x", "", Some(None)), Valid("x", "", None)];
            MayOverlap(RoundOf(["a", "b", "c"], checks, 0), 0, 2)
  {
    var ids, checks := ["a", "b", "c"], [Valid("x", "", None), Valid("x", "", Some(None)), Valid("x", "", None)];
    var g := RoundOf(ids, checks, 0);
    forall S ensures !WaitingSet(g, S) {
      RankedHasNoWaitingSet(ids, checks, 0, t => 0, S);
    }
    assert g.previous[0] == None && g.previous[2] == Some(1);
    forall k: nat ensures !Behind(g, 0, 2, k) && !Behind(g, 2, 0, k) {
    }
    OverlapExactly(g, 0, 2);
  }

  // ---- The whole of execute, after the calls were checked.

  // Every call has exactly one result, in its own position and with its own id.
  ghost predicate AllAnswered(ids: seq<string>, s: State) {
    && |s.results| == |ids|
    && (forall i :: 0 <= i < |ids| ==> s.results[i].id == ids[i] && Saved(i, s.results[i]) in s.log)
    && (forall i, r :: 0 <= i < |ids| && Saved(i, r) in s.log ==> r == s.results[i])
  }

  // A call that was not blocked ran to its end, or the round was cancelled and its result
  // says that it did not run; a blocked call never ran.
  ghost predicate Accounted(ids: seq<string>, s: State, i: nat, blocked: Option<Result>)
    requires |s.results| == |ids| && i < |ids|
  {
    match blocked
    case Some(r) => s.results[i] == r && Started(i) !in s.log
    case None => if Started(i) in s.log then Ended(i) in s.log
                 else s.cancelled && s.results[i] == Result(ids[i], Aborted)
  }

  lemma FinishedRound(g: Round, s: State)
    requires Inv(g, s) && Finished(s)
    ensures AllAnswered(g.ids, s)
    ensures forall i :: 0 <= i < |g.ids| ==> Accounted(g.ids, s, i, g.blocked[i])
  {
    forall i | 0 <= i < |g.ids|
      ensures s.results[i].id == g.ids[i] && Saved(i, s.results[i]) in s.log
      ensures Accounted(g.ids, s, i, g.blocked[i])
    {
      assert LocalInv(g, s, i);
    }
    forall i, r | 0 <= i < |g.ids| && Saved(i, r) in s.log ensures r == s.results[i] {
    }
  }

  lemma FinishedTells(ids: seq<string>, checks: seq<Check>, configured: nat, s: State)
    requires |ids| == |checks| && Inv(RoundOf(ids, checks, configured), s) && Recorded(s) && Finished(s)
    ensures |s.results| == |ids| && forall i :: 0 <= i < |ids| ==> Told(ids[i], checks[i], s, i)
  {
    var g := RoundOf(ids, checks, configured);
    forall i | 0 <= i < |ids| ensures Told(ids[i], checks[i], s, i) {
      assert LocalInv(g, s, i);
      RoundExactly(ids, checks, configured, i);
    }
  }

  lemma RankedRound(ids: seq<string>, checks: seq<Check>, configured: nat)
    requires |ids| == |checks| && exists rank :: Ranked(checks, rank)
    ensures forall S :: !WaitingSet(RoundOf(ids, checks, configured), S)
  {
    var rank :| Ranked(checks, rank);
    forall S ensures !WaitingSet(RoundOf(ids, checks, configured), S) {
      RankedHasNoWaitingSet(ids, checks, configured, rank, S);
    }
  }

  method Dispatched(ids: seq<string>, checks: seq<Check>, configured: nat) returns (s: State)
    requires |ids| == |checks|
    ensures Inv(RoundOf(ids, checks, configured), s)
    // Without a circle of gates between targets, every call finishes.
    ensures (exists rank :: Ranked(checks, rank)) ==> Finished(s)
    ensures Finished(s) ==> AllAnswered(ids, s)
    ensures Finished(s) ==> forall i :: 0 <= i < |ids| ==> Accounted(ids, s, i, Blocked(ids[i], checks[i]))
    // Every result is what its check or its invocation says.
    ensures Finished(s) ==> |s.results| == |ids| && forall i :: 0 <= i < |ids| ==> Told(ids[i], checks[i], s, i)
    ensures s.cancelled <==> Cause(s)
    // At no time were more tools running than allowed.
    ensures forall p :: 0 <= p <= |s.log| ==> Open(s.log[..p]) <= Parallel(configured)
  {
    var previous, last := Chain(checks);
    var gate := Gates(checks, last);
    var blocked := seq(|ids|, i requires 0 <= i < |ids| => Blocked(ids[i], checks[i]));
    var g := Round(ids, blocked, previous, gate, Parallel(configured));
    assert g == RoundOf(ids, checks, configured);
    s := Execute(g);
    if exists rank :: Ranked(checks, rank) { RankedRound(ids, checks, configured); }
    if Finished(s) {
      FinishedRound(g, s);
      FinishedTells(ids, checks, configured, s);
    }
  }
}
