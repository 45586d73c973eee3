// The lifetime of a lease: calls run inside Do, Release ends admission, and the finish
// callback runs when the last call is out (kit/lease/lease.go).
module Lease {
  // Besides the fields of the code: how many goroutines have decided to run the callback and
  // are about to, and how often it ran.
  datatype State = State(released: bool, running: nat, finishing: nat, finished: nat)

  function Fresh(): State {
    State(false, 0, 0, 0)
  }

  // What every interleaving keeps.
  ghost predicate Ok(s: State) {
    s.finishing + s.finished == if s.released && s.running == 0 then 1 else 0
  }

  function Finishing(s: State): State {
    if s.released && s.running == 0 then s.(finishing := s.finishing + 1) else s
  }

  function Entered(s: State): State {
    if s.released then s else s.(running := s.running + 1)
  }

  function Left(s: State): State
    requires s.running > 0
  {
    Finishing(s.(running := s.running - 1))
  }

  function Released(s: State): State {
    if s.released then s else Finishing(s.(released := true))
  }

  function Finished(s: State): State
    requires s.finishing > 0
  {
    s.(finishing := s.finishing - 1, finished := s.finished + 1)
  }

  lemma StepsKeepOk(s: State)
    requires Ok(s)
    ensures Ok(Entered(s)) && Ok(Released(s))
    ensures s.running > 0 ==> Ok(Left(s))
    ensures s.finishing > 0 ==> Ok(Finished(s))
  {
  }

  lemma StepsCount(s: State)
    ensures Entered(s).running == (if s.released then s.running else s.running + 1) && Entered(s).released == s.released
    ensures Released(s).running == s.running && Released(s).released
    ensures s.running > 0 ==> Left(s).running == s.running - 1 && Left(s).released == s.released
    ensures s.finishing > 0 ==> Finished(s).running == s.running && Finished(s).released == s.released
    ensures Ok(Fresh()) && Fresh().running == 0 && !Fresh().released
  {
  }

  // The callback is due or has run only when the lease is released and no call is inside Do;
  // then none can enter any more.
  lemma FinishIsLast(s: State)
    requires Ok(s) && s.finishing + s.finished > 0
    ensures s.running == 0 && s.released && Entered(s) == s && s.finishing + s.finished == 1
  {
  }

  class Lease {
    var released: bool
    var running: nat
    var finishing: nat
    var finished: nat

    ghost function Now(): State
      reads this
    {
      State(released, running, finishing, finished)
    }

    constructor ()
      ensures Now() == Fresh()
    {
      released, running, finishing, finished := false, 0, 0, 0;
    }

    // Do, up to the call: a released lease admits no call.
    method Enter() returns (ok: bool)
      modifies this
      ensures Now() == Entered(old(Now())) && ok == !old(released)
    {
      if released { return false; }
      running := running + 1;
      ok := true;
    }

    // Do, after the call. True means that the caller runs the callback next.
    method Leave() returns (done: bool)
      requires running > 0
      modifies this
      ensures Now() == Left(old(Now())) && done == (released && running == 0)
    {
      running := running - 1;
      done := released && running == 0;
      if done { finishing := finishing + 1; }
    }

    method Release() returns (done: bool)
      modifies this
      ensures Now() == Released(old(Now())) && done == (!old(released) && running == 0)
    {
      if released { return false; }
      released := true;
      done := running == 0;
      if done { finishing := finishing + 1; }
    }

    method Finish()
      requires finishing > 0
      modifies this
      ensures Now() == Finished(old(Now()))
    {
      finishing, finished := finishing - 1, finished + 1;
    }
  }

  // No call is inside Do and nobody is about to run the callback: it ran exactly once if the
  // lease was released, and not at all otherwise.
  ghost predicate Done(s: State) {
    s.running == 0 && s.finishing == 0 && s.finished == if s.released then 1 else 0
  }

  datatype Action = Enters | Leaves | Releases | Finishes

  // Any goroutine on any copy of a lease takes its next step, if it can.
  method Step(l: Lease, a: Action)
    requires Ok(l.Now())
    modifies l
    ensures Ok(l.Now())
    ensures var s, t := old(l.Now()), l.Now();
            match a
            case Enters => t == if s.released then s else s.(running := s.running + 1)
            case Leaves =>
              if s.running == 0 then t == s
              else t.running == s.running - 1 && t.released == s.released && t.finished == s.finished
            case Releases => t.released && t.running == s.running && t.finished == s.finished
            case Finishes => if s.finishing == 0 then t == s else t.finished == s.finished + 1 && t.released == s.released
  {
    StepsKeepOk(l.Now());
    match a
    case Enters => var _ := l.Enter();
    case Leaves => if l.running > 0 { var _ := l.Leave(); }
    case Releases => var _ := l.Release();
    case Finishes => if l.finishing > 0 { l.Finish(); }
  }

  // All calls return, and who has to run the callback runs it.
  method Settle(l: Lease)
    requires Ok(l.Now())
    modifies l
    ensures Done(l.Now()) && l.released == old(l.released)
  {
    while l.running > 0
      invariant Ok(l.Now()) && l.released == old(l.released)
      decreases l.running
    {
      StepsKeepOk(l.Now());
      var _ := l.Leave();
    }
    StepsKeepOk(l.Now());
    if l.finishing > 0 { l.Finish(); }
  }

  // Any run of any goroutines that ends with all of them done: the callback ran once if somebody
  // released the lease, and never otherwise.
  method Run(actions: seq<Action>) returns (l: Lease)
    ensures Done(l.Now()) && (l.released <==> Releases in actions)
    ensures l.finished == if Releases in actions then 1 else 0
  {
    hide Ok, Finishing, Entered, Left, Released, Finished, Fresh;
    l := new Lease();
    StepsCount(Fresh());
    for i := 0 to |actions|
      invariant Ok(l.Now()) && (l.released <==> Releases in actions[..i])
    {
      ghost var was := l.released;
      Step(l, actions[i]);
      assert actions[..i + 1] == actions[..i] + [actions[i]];
    }
    assert actions[..|actions|] == actions;
    Settle(l);
  }
}
