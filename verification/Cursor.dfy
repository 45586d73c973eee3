// The receive state of one topic and a client that applies only what it accepts
// (kit/rpc/cursor.go).
module Cursor {
  import opened Sequences
  import opened Wrappers
  import opened Decimal

  const MAX := 0x1_0000_0000_0000_0000

  datatype Cursor = Cursor(epoch: string, seqNo: nat)

  // strconv.ParseUint in base 10.
  function ParseUint(s: string): Option<nat> {
    if s == "" || !AllDigits(s) || Value(s) >= MAX then None else Some(Value(s))
  }

  // Validate: the epoch must be written as FormatUint writes it.
  predicate IsCursor(c: Cursor) {
    c.seqNo < MAX && ParseUint(c.epoch).Some? && Digits(ParseUint(c.epoch).value) == c.epoch
  }

  function EpochNumber(epoch: string): nat {
    if ParseUint(epoch).Some? then ParseUint(epoch).value else 0
  }

  // Valid epochs are exactly the canonical decimals, so equal numbers are equal texts.
  lemma EpochsAreCanonical(c: Cursor)
    ensures IsCursor(c) <==> c.seqNo < 18446744073709551616
                             && exists n: nat :: n < 18446744073709551616 && c.epoch == Digits(n)
    ensures forall n: nat :: n < 18446744073709551616 ==> EpochNumber(Digits(n)) == n
  {
    if IsCursor(c) { assert c.epoch == Digits(ParseUint(c.epoch).value); }
  }

  lemma EpochsAreNumbers(a: Cursor, b: Cursor)
    requires IsCursor(a) && IsCursor(b)
    ensures a.epoch == b.epoch <==> EpochNumber(a.epoch) == EpochNumber(b.epoch)
  {
  }

  datatype Failure = Invalid | Stale | Resync

  class Sequence {
    var cursor: Cursor
    var epochFloor: nat
    var initialized: bool
    var waiting: bool

    ghost predicate Valid()
      reads this
    {
      initialized ==> IsCursor(cursor) && EpochNumber(cursor.epoch) <= epochFloor
                      && (EpochNumber(cursor.epoch) < epochFloor ==> waiting)
    }

    constructor ()
      ensures Valid() && !initialized && epochFloor == 0 && !waiting
    {
      cursor, epochFloor, initialized, waiting := Cursor("0", 0), 0, false, false;
    }

    // Installs a snapshot unless it is older than what is there.
    method Snapshot(c: Cursor) returns (failure: Option<Failure>)
      requires Valid()
      modifies this
      ensures Valid()
      ensures failure.None? <==>
                && IsCursor(c) && EpochNumber(c.epoch) >= old(epochFloor)
                && !(old(initialized) && c.epoch == old(cursor).epoch && c.seqNo < old(cursor).seqNo)
      ensures failure == Some(Invalid) <==> !IsCursor(c)
      ensures failure != Some(Resync)
      ensures failure.None? ==> cursor == c && initialized && !waiting && epochFloor == EpochNumber(c.epoch)
      ensures failure.Some?
              ==> cursor == old(cursor) && epochFloor == old(epochFloor) && initialized == old(initialized)
                  && waiting == old(waiting)
    {
      if !IsCursor(c) { return Some(Invalid); }
      var epoch := EpochNumber(c.epoch);
      if epoch < epochFloor || (initialized && c.epoch == cursor.epoch && c.seqNo < cursor.seqNo) { return Some(Stale); }
      cursor, epochFloor, initialized, waiting := c, epoch, true, false;
      failure := None;
    }

    // Whether a frame may be applied: exactly the next one of the epoch that was installed.
    method Accept(c: Cursor) returns (apply: bool, failure: Option<Failure>)
      requires Valid()
      modifies this
      ensures Valid() && initialized == old(initialized)
      ensures epochFloor == if IsCursor(c) && EpochNumber(c.epoch) > old(epochFloor) then EpochNumber(c.epoch)
                            else old(epochFloor)
      ensures apply <==> && IsCursor(c) && old(initialized) && !old(waiting) && c.epoch == old(cursor).epoch
                         && c.seqNo == old(cursor).seqNo + 1
      ensures cursor == if apply then c else old(cursor)
      // Whatever is newer than the next frame blocks until a snapshot; duplicates do not.
      ensures waiting <==> old(waiting) || (IsCursor(c) && Newer(c, old(cursor), old(initialized), old(epochFloor)))
      // It says so for every frame that is not older than what is known.
      ensures failure == Some(Invalid) <==> !IsCursor(c)
      ensures failure == Some(Resync) <==>
                waiting && IsCursor(c) && EpochNumber(c.epoch) >= old(epochFloor)
      ensures failure != Some(Stale)
    {
      if !IsCursor(c) { return false, Some(Invalid); }
      var epoch := EpochNumber(c.epoch);
      if initialized { EpochsAreNumbers(c, cursor); }
      if epoch < epochFloor { return false, None; }
      if epoch > epochFloor { epochFloor, waiting := epoch, true; }
      if !initialized || waiting || c.epoch != cursor.epoch {
        waiting := true;
        return false, Some(Resync);
      }
      if c.seqNo <= cursor.seqNo { return false, None; }
      if c.seqNo - cursor.seqNo != 1 {
        waiting := true;
        return false, Some(Resync);
      }
      cursor := c;
      return true, None;
    }
  }

  // A frame that shows that frames are missing.
  ghost predicate Newer(c: Cursor, at: Cursor, initialized: bool, floor: nat) {
    && EpochNumber(c.epoch) >= floor
    && (initialized && c.epoch == at.epoch && EpochNumber(c.epoch) == floor ==> c.seqNo > at.seqNo + 1)
  }

  // ---- A server's frames and a client under loss, repetition and reordering.

  // Frames are appended to the log of an epoch; sequence numbers count from 1.
  type Log<T> = map<nat, seq<T>>

  datatype Message<T> = Frame(at: Cursor, payload: T) | Whole(at: Cursor, content: seq<T>)

  // What the server may have sent, or a message with a malformed cursor.
  predicate Sent<T(==)>(log: Log<T>, m: Message<T>) {
    IsCursor(m.at) ==>
      var e := EpochNumber(m.at.epoch);
      e in log && m.at.seqNo <= |log[e]| &&
      match m
      case Frame(at, payload) => at.seqNo > 0 && payload == log[e][at.seqNo - 1]
      case Whole(at, content) => content == log[e][..at.seqNo]
  }

  // What any fold of the log up to a cursor depends on.
  function UpTo<T>(log: Log<T>, c: Cursor): seq<T> {
    var e := EpochNumber(c.epoch);
    if e in log && c.seqNo <= |log[e]| then log[e][..c.seqNo] else []
  }

  // Cursors in the order of epochs and, within one, of sequence numbers.
  ghost predicate NotBefore(a: Cursor, b: Cursor) {
    EpochNumber(a.epoch) > EpochNumber(b.epoch) || (a.epoch == b.epoch && a.seqNo >= b.seqNo)
  }

  // The client with what it has built.
  datatype Client<T> = Client(at: Cursor, floor: nat, initialized: bool, waiting: bool, content: seq<T>)

  ghost function Of<T>(s: Sequence, content: seq<T>): Client<T>
    reads s
  {
    Client(s.cursor, s.epochFloor, s.initialized, s.waiting, content)
  }

  // What one message does: a snapshot that is not older replaces everything, the next frame is
  // added, a duplicate changes nothing, and any other frame shows that some are missing.
  ghost predicate Takes<T>(a: Client<T>, m: Message<T>, b: Client<T>) {
    var e := EpochNumber(m.at.epoch);
    if !IsCursor(m.at) then b == a
    else
      match m
      case Whole(at, content) =>
        if e < a.floor || (a.initialized && at.epoch == a.at.epoch && at.seqNo < a.at.seqNo) then b == a
        else b == Client(at, e, true, false, content)
      case Frame(at, payload) =>
        if a.waiting || e != a.floor then
          b == a.(waiting := a.waiting || e > a.floor, floor := if e > a.floor then e else a.floor)
        else if !a.initialized || at.epoch != a.at.epoch then b == a.(waiting := true)
        else if at.seqNo <= a.at.seqNo then b == a
        else if at.seqNo == a.at.seqNo + 1 then b == a.(at := at, content := a.content + [payload])
        else b == a.(waiting := true)
  }

  // The client applies content only when Accept returns true.
  method Receive<T(==)>(log: Log<T>, s: Sequence, content: seq<T>, m: Message<T>) returns (now: seq<T>)
    requires s.Valid() && Sent(log, m)
    requires s.initialized
            ==> content == UpTo(log, s.cursor) && EpochNumber(s.cursor.epoch) in log
                && s.cursor.seqNo <= |log[EpochNumber(s.cursor.epoch)]|
    modifies s
    ensures s.Valid() && (old(s.initialized) ==> s.initialized && NotBefore(s.cursor, old(s.cursor)))
    ensures s.initialized
            ==> now == UpTo(log, s.cursor) && EpochNumber(s.cursor.epoch) in log
                && s.cursor.seqNo <= |log[EpochNumber(s.cursor.epoch)]|
    ensures Takes(old(Of(s, content)), m, Of(s, now))
    // A gap blocks everything but a snapshot.
    ensures old(s.waiting) && m.Frame? ==> now == content && s.cursor == old(s.cursor) && s.waiting
  {
    if old(s.initialized) && IsCursor(m.at) { EpochsAreNumbers(m.at, old(s.cursor)); }
    match m
    case Frame(at, payload) =>
      var apply, failure := s.Accept(at);
      now := if apply then content + [payload] else content;
      if apply { TakeOne(log[EpochNumber(at.epoch)], at.seqNo - 1); }
    case Whole(at, whole) =>
      var failure := s.Snapshot(at);
      now := if failure.None? then whole else content;
  }

  // Over a whole run the client has the server's log up to its cursor, and the cursor never
  // moves back. `trace` is the client before every message and at the end.
  method Follow<T(==)>(log: Log<T>, messages: seq<Message<T>>)
      returns (s: Sequence, content: seq<T>, ghost trace: seq<Client<T>>)
    requires forall k :: 0 <= k < |messages| ==> Sent(log, messages[k])
    ensures s.Valid() && (s.initialized ==> content == UpTo(log, s.cursor))
    ensures |trace| == |messages| + 1 && trace[|messages|] == Of(s, content)
    ensures trace[0] == Client(trace[0].at, 0, false, false, [])
    ensures forall k :: 0 <= k < |messages| ==> Takes(trace[k], messages[k], trace[k + 1])
    ensures forall i, j :: 0 <= i < j < |trace| && trace[i].initialized ==>
                             trace[j].initialized && NotBefore(trace[j].at, trace[i].at)
  {
    s := new Sequence();
    content := [];
    trace := [Of(s, content)];
    for k := 0 to |messages|
      invariant s.Valid() && |trace| == k + 1 && trace[k] == Of(s, content)
      invariant trace[0] == Client(trace[0].at, 0, false, false, [])
      invariant s.initialized
              ==> content == UpTo(log, s.cursor) && EpochNumber(s.cursor.epoch) in log
                  && s.cursor.seqNo <= |log[EpochNumber(s.cursor.epoch)]|
      invariant forall i :: 0 <= i < k ==> Takes(trace[i], messages[i], trace[i + 1])
      invariant forall i, j :: 0 <= i < j < |trace| && trace[i].initialized ==>
                                 trace[j].initialized && NotBefore(trace[j].at, trace[i].at)
    {
      hide Takes, IsCursor, EpochNumber;
      content := Receive(log, s, content, messages[k]);
      trace := trace + [Of(s, content)];
    }
  }

  // The client has everything up to the last of the first messages.
  ghost predicate Has<T>(log: Log<T>, messages: seq<Message<T>>, epoch: string, k: nat, c: Client<T>)
    requires k < |messages|
  {
    && c.initialized && !c.waiting && c.at.epoch == epoch && c.floor == EpochNumber(epoch)
    && (forall i :: 0 <= i <= k ==> messages[i].at.seqNo <= c.at.seqNo)
    && (exists i :: 0 <= i <= k && messages[i].at == c.at) && c.content == UpTo(log, c.at)
  }

  // No message comes before the one that it follows.
  ghost predicate Follows<T>(messages: seq<Message<T>>, k: nat)
    requires k < |messages|
  {
    messages[k].Frame? && exists j :: 0 <= j < k && messages[j].at.seqNo + 1 >= messages[k].at.seqNo
  }

  // Without loss nothing is missing: after a snapshot and the frames that follow it in order, with
  // duplicates of older ones anywhere between, the client has the log up to the last frame.
  lemma {:induction false} InOrder<T>(log: Log<T>, trace: seq<Client<T>>, messages: seq<Message<T>>, epoch: string, k: nat)
    requires |trace| == |messages| + 1 && k < |messages|
    requires forall i :: 0 <= i < |messages| ==> Sent(log, messages[i]) && Takes(trace[i], messages[i], trace[i + 1])
    requires forall i :: 0 <= i < |messages| ==> IsCursor(messages[i].at) && messages[i].at.epoch == epoch
    requires !trace[0].initialized && trace[0].floor <= EpochNumber(epoch)
    requires messages[0].Whole? && forall i :: 0 < i < |messages| ==> Follows(messages, i)
    ensures Has(log, messages, epoch, k, trace[k + 1])
  {
    hide IsCursor, EpochNumber, Has, Sent, Takes, Follows;
    assert Takes(trace[k], messages[k], trace[k + 1]);
    if k == 0 {
      Begins(log, messages, epoch, trace[0], trace[1]);
    } else {
      InOrder(log, trace, messages, epoch, k - 1);
      Continues(log, messages, epoch, k, trace[k], trace[k + 1]);
    }
  }

  lemma Begins<T>(log: Log<T>, messages: seq<Message<T>>, epoch: string, a: Client<T>, b: Client<T>)
    requires messages != [] && messages[0].Whole? && messages[0].at.epoch == epoch && Sent(log, messages[0])
    requires IsCursor(messages[0].at) && Takes(a, messages[0], b) && !a.initialized && a.floor <= EpochNumber(epoch)
    ensures Has(log, messages, epoch, 0, b)
  {
    hide IsCursor, EpochNumber;
    assert messages[0].at == b.at;
  }

  lemma Continues<T>(log: Log<T>, messages: seq<Message<T>>, epoch: string, k: nat, a: Client<T>, b: Client<T>)
    requires 0 < k < |messages| && Has(log, messages, epoch, k - 1, a) && Follows(messages, k)
    requires Sent(log, messages[k]) && Takes(a, messages[k], b)
    requires IsCursor(messages[k].at) && messages[k].at.epoch == epoch
    ensures Has(log, messages, epoch, k, b)
  {
    hide IsCursor, EpochNumber;
    var m := messages[k];
    if m.at.seqNo == a.at.seqNo + 1 {
      TakeOne(log[EpochNumber(epoch)], a.at.seqNo);
      assert m.at == b.at;
    } else {
      assert m.at.seqNo <= a.at.seqNo && b == a;
    }
  }
}
