// The client of one connection: each method is one stretch of code that the client's locks
// make atomic, or one write (kit/acp/client.go, kit/acp/requests.go).
module AcpClient {
  import opened Wrappers
  import opened Acp

  // The goroutine that holds the control lock: between registering a call and writing it, or
  // between taking the requests of a cancelled session and writing the cancellation.
  datatype Control = Free | Overflowing | Calling(id: nat, call: Call)
      | Cancelling(session: Session, rest: map<nat, Request>, drained: set<nat>, begun: nat)

  // The read loop: between frames, with a request it registered, or about to write an answer.
  datatype Reader = Idle | Registered(request: Request, cancelled: bool) | Replying(serial: nat, answer: Answer) | Stopped

  function RestOf(control: Control): map<nat, Request> {
    if control.Cancelling? then control.rest else map[]
  }

  function ReplyOf(reader: Reader): Option<nat> {
    if reader.Replying? then Some(reader.serial) else None
  }

  ghost predicate SessionsOk(failed: bool, pending: map<nat, Call>, sessions: map<Session, Status>,
                             holder: map<Session, nat>, spill: Option<Call>, log: seq<Event>, next: nat,
                             control: Control) {
    && Table(failed, pending, sessions, holder, spill, log, next)
    && (spill.Some? ==> control == Overflowing || failed) && (control == Overflowing ==> spill.Some?)
    && (failed ==> pending == map[])
  }

  ghost predicate RequestsOk(requests: map<string, Request>, places: map<nat, Place>, answering: map<nat, Answer>,
                             control: Control, reader: Reader, wire: seq<Frame>, serials: nat) {
    && Duties(requests, places, answering, RestOf(control), ReplyOf(reader), wire, serials)
    && (reader.Registered? ==> reader.request.serial < serials)
    && (control.Cancelling? ==> Settling(control.drained, control.rest, places))
  }

  ghost predicate QueuesOk(reader: Reader, permissions: seq<Request>, incoming: seq<Request>, updates: seq<Item>,
                           refused: set<nat>, given: set<nat>, serials: nat) {
    && Sorted(refused, given, serials)
    && |permissions| <= QUEUE && |incoming| <= QUEUE && |updates| <= QUEUE
    && (reader.Registered? ==> (reader.request.serial in refused <==> reader.cancelled) && reader.request.serial !in given)
  }

  ghost predicate OrderOk(wire: seq<Frame>, stamps: seq<nat>, next: nat, control: Control) {
    && InOrder(wire, stamps, next)
    && (control.Calling? ==> control.id == next && Earlier(wire, stamps, next))
    && (control.Cancelling? ==> control.begun == next)
  }

  // A request in the table is not one that a cancellation settles.
  lemma Leaves(requests: map<string, Request>, places: map<nat, Place>, answering: map<nat, Answer>, control: Control,
               reader: Reader, wire: seq<Frame>, serials: nat, k: string, place: Place)
    requires RequestsOk(requests, places, answering, control, reader, wire, serials) && k in requests
    ensures control.Cancelling? ==> Settling(control.drained, control.rest, Move(places, requests[k].serial, place))
  {
    hide Settling;
    if control.Cancelling? {
      SettlingMove(control.drained, control.rest, places, requests[k].serial, place);
    }
  }

  // Nor is one whose answer someone else writes,
  lemma Delivers(requests: map<string, Request>, places: map<nat, Place>, answering: map<nat, Answer>, control: Control,
                 reader: Reader, wire: seq<Frame>, serials: nat, n: nat, place: Place)
    requires RequestsOk(requests, places, answering, control, reader, wire, serials)
            && (n in answering || ReplyOf(reader) == Some(n))
    ensures control.Cancelling? ==> Settling(control.drained, control.rest, Move(places, n, place))
  {
    hide Settling;
    if control.Cancelling? {
      SettlingMove(control.drained, control.rest, places, n, place);
    }
  }

  // nor a new one.
  lemma NewOnly(requests: map<string, Request>, places: map<nat, Place>, answering: map<nat, Answer>, control: Control,
                reader: Reader, wire: seq<Frame>, serials: nat, place: Place)
    requires RequestsOk(requests, places, answering, control, reader, wire, serials)
    ensures control.Cancelling? ==> Settling(control.drained, control.rest, Move(places, serials, place))
  {
    hide Settling;
    if control.Cancelling? {
      SettlingMove(control.drained, control.rest, places, serials, place);
    }
  }

  lemma NotCancelling(requests: map<string, Request>, places: map<nat, Place>, answering: map<nat, Answer>,
                      before: Control, after: Control, reader: Reader, wire: seq<Frame>, serials: nat)
    requires RequestsOk(requests, places, answering, before, reader, wire, serials) && !before.Cancelling? && !after.Cancelling?
    ensures RequestsOk(requests, places, answering, after, reader, wire, serials)
  {
  }

  lemma OrderBegins(wire: seq<Frame>, stamps: seq<nat>, next: nat, c: Call)
    requires OrderOk(wire, stamps, next, Free)
    ensures OrderOk(wire, stamps, next + 1, Calling(next + 1, c))
  {
    OrderNext(wire, stamps, next);
  }

  lemma SessionsBegin(pending: map<nat, Call>, sessions: map<Session, Status>, holder: map<Session, nat>,
                      spill: Option<Call>, log: seq<Event>, next: nat, c: Call, status: Status)
    requires SessionsOk(false, pending, sessions, holder, spill, log, next, Free) && |pending| < MAX_PENDING
    requires IsCall(c) && !StatusOf(sessions, c.session).busy && status.busy && (status.replay <==> c.kind.Load?)
    ensures SessionsOk(false, pending[next + 1 := c], Mark(sessions, c.session, status),
            Hold(holder, c.session, next + 1), spill,
                       log + [Began(next + 1, c)], next + 1, Calling(next + 1, c))
  {
    hide Table;
    TableBegin(pending, sessions, holder, log, next, c, status);
  }

  lemma SessionsEnd(failed: bool, pending: map<nat, Call>, sessions: map<Session, Status>, holder: map<Session, nat>,
                    spill: Option<Call>, log: seq<Event>, next: nat, control: Control, id: nat, status: Status)
    requires SessionsOk(failed, pending, sessions, holder, spill, log, next, control)
    requires id in pending && !status.busy && !status.replay
    ensures SessionsOk(failed, pending - {id}, Mark(sessions, pending[id].session, status),
            holder - {pending[id].session}, spill,
                       log + [Ended(id, pending[id])], next, control)
  {
    hide Table;
    TableEnd(failed, pending, sessions, holder, spill, log, next, id, status);
  }

  lemma SessionsCancel(failed: bool, pending: map<nat, Call>, sessions: map<Session, Status>, holder: map<Session, nat>,
                       spill: Option<Call>, log: seq<Event>, next: nat, s: Session)
    requires SessionsOk(failed, pending, sessions, holder, spill, log, next, Free)
    ensures forall rest, drained, begun ::
              SessionsOk(failed, pending, sessions[s := StatusOf(sessions, s).(cancelled := true)], holder, spill, log, next,
                         Cancelling(s, rest, drained, begun))
  {
    hide Table;
    TableCancelled(failed, pending, sessions, holder, spill, log, next, s);
  }

  // A call outside a session finds no operation in its way.
  lemma IdleNotBusy(pending: map<nat, Call>, sessions: map<Session, Status>, holder: map<Session, nat>,
                    spill: Option<Call>, log: seq<Event>, next: nat)
    requires SessionsOk(false, pending, sessions, holder, spill, log, next, Free)
    ensures !StatusOf(sessions, "").busy
  {
    EmptyNotBusy(pending, sessions, holder, log, next);
  }

  lemma TakesNothing(requests: map<string, Request>, places: map<nat, Place>, answering: map<nat, Answer>,
                     reader: Reader, wire: seq<Frame>, serials: nat)
    requires RequestsOk(requests, places, answering, Free, reader, wire, serials)
    ensures Duties(requests, places, answering, map[], ReplyOf(reader), wire, serials)
    ensures reader.Registered? ==> reader.request.serial < serials
  {
  }

  lemma RequestsDrained(requests: map<string, Request>, places: map<nat, Place>, answering: map<nat, Answer>,
                        reader: Reader, wire: seq<Frame>, serials: nat, s: Session, rest: map<nat, Request>, begun: nat)
    requires Duties(requests, places, answering, rest, ReplyOf(reader), wire, serials)
    requires reader.Registered? ==> reader.request.serial < serials
    ensures RequestsOk(requests, places, answering, Cancelling(s, rest, rest.Keys, begun), reader, wire, serials)
  {
  }

  lemma OrderCancels(wire: seq<Frame>, stamps: seq<nat>, next: nat)
    requires OrderOk(wire, stamps, next, Free)
    ensures forall s, rest, drained :: OrderOk(wire, stamps, next, Cancelling(s, rest, drained, next))
  {
  }

  lemma RequestsFile(requests: map<string, Request>, places: map<nat, Place>, answering: map<nat, Answer>,
                     control: Control, wire: seq<Frame>, serials: nat, r: Request, cancelled: bool)
    requires RequestsOk(requests, places, answering, control, Idle, wire, serials) && r.serial == serials && r.key !in requests
    ensures RequestsOk(requests[r.key := r], Move(places, serials, InTable(r.key)), answering, control,
            Registered(r, cancelled), wire, serials + 1)
  {
    hide Duties, Settling;
    DutyFile(requests, places, answering, RestOf(control), None, wire, serials, r);
    NewOnly(requests, places, answering, control, Idle, wire, serials, InTable(r.key));
  }

  lemma ReaderOnly(requests: map<string, Request>, places: map<nat, Place>, answering: map<nat, Answer>,
                   control: Control, before: Reader, after: Reader, wire: seq<Frame>, serials: nat)
    requires RequestsOk(requests, places, answering, control, before, wire, serials) && !before.Replying?
    requires after.Idle? || after.Stopped?
    ensures RequestsOk(requests, places, answering, control, after, wire, serials)
  {
  }

  lemma RequestsTaken(requests: map<string, Request>, places: map<nat, Place>, answering: map<nat, Answer>,
                      control: Control, reader: Reader, wire: seq<Frame>, serials: nat, k: string)
    requires RequestsOk(requests, places, answering, control, reader, wire, serials) && k in requests && !reader.Replying?
    ensures RequestsOk(requests - {k}, Move(places, requests[k].serial, InReader), answering, control,
                       Replying(requests[k].serial, Declined), wire, serials)
  {
    hide Duties, Settling;
    DutyTakeBack(requests, places, answering, RestOf(control), wire, serials, k);
    Leaves(requests, places, answering, control, reader, wire, serials, k, InReader);
  }

  lemma RequestsReplied(requests: map<string, Request>, places: map<nat, Place>, answering: map<nat, Answer>,
                        control: Control, wire: seq<Frame>, serials: nat, n: nat, answer: Answer)
    requires RequestsOk(requests, places, answering, control, Replying(n, answer), wire, serials)
    ensures RequestsOk(requests, Move(places, n, Answered), answering, control, Idle, wire + [Answers(n, answer)], serials)
    ensures RequestsOk(requests, Move(places, n, Dropped), answering, control, Stopped, wire, serials)
  {
    hide Duties, Settling;
    DutyReply(requests, places, answering, RestOf(control), wire, serials, n, answer);
    Delivers(requests, places, answering, control, Replying(n, answer), wire, serials, n, Answered);
    Delivers(requests, places, answering, control, Replying(n, answer), wire, serials, n, Dropped);
  }

  lemma QueuesFile(permissions: seq<Request>, incoming: seq<Request>, updates: seq<Item>, refused: set<nat>,
                   given: set<nat>, serials: nat, r: Request, cancelled: bool)
    requires QueuesOk(Idle, permissions, incoming, updates, refused, given, serials) && r.serial == serials
    ensures QueuesOk(Registered(r, cancelled), permissions, incoming, updates,
                     if cancelled then refused + {serials} else refused, given, serials + 1)
  {
    SortedNew(refused, given, serials);
  }

  lemma QueuesReader(reader: Reader, permissions: seq<Request>, incoming: seq<Request>, updates: seq<Item>,
                     refused: set<nat>, given: set<nat>, serials: nat)
    requires QueuesOk(reader, permissions, incoming, updates, refused, given, serials)
    ensures QueuesOk(Idle, permissions, incoming, updates, refused, given, serials)
    ensures QueuesOk(Stopped, permissions, incoming, updates, refused, given, serials)
  {
  }

  lemma OrderAnswered(wire: seq<Frame>, stamps: seq<nat>, next: nat, control: Control, f: Frame)
    requires OrderOk(wire, stamps, next, control) && f.Answers?
    ensures OrderOk(wire + [f], stamps + [next], next, control)
  {
    OrderAnswer(wire, stamps, next, f);
  }

  lemma SortedGiven(requests: map<string, Request>, places: map<nat, Place>, answering: map<nat, Answer>,
                    control: Control, reader: Reader, wire: seq<Frame>, refused: set<nat>, given: set<nat>,
                    serials: nat)
    requires RequestsOk(requests, places, answering, control, reader, wire, serials) && Sorted(refused, given, serials)
    requires reader.Registered? && reader.request.serial !in refused
    ensures Sorted(refused, given + {reader.request.serial}, serials)
  {
    forall n | n in refused + (given + {reader.request.serial}) ensures n < serials {
      assert n in refused + given || n == reader.request.serial;
    }
  }

  datatype Refusal = Failed | AlreadyInitialized | NotInitialized | Busy | Overflow | NoSession

  // A call makes its session busy; a load marks it for replay, and a prompt ends its cancellation.
  function StatusFor(c: Call, discard: bool, s: Status): Status {
    Status(true, c.kind.Load?, c.kind.Load? && discard, s.cancelled && !c.kind.Prompt?)
  }

  // One step: of a caller of the client's operations, of a holder of the control lock, of one who
  // answers a request, of the read loop, or of the user of the queues.
  // A session that was cancelled and has had no prompt since.
  predicate Cancelled(sessions: map<Session, Status>, s: Session) {
    s in sessions && sessions[s].cancelled
  }

  lemma StatusIs(sessions: map<Session, Status>, s: Session)
    ensures StatusOf(sessions, s) == if s in sessions then sessions[s] else Status(false, false, false, false)
  {
  }

  lemma CancelledStatus(sessions: map<Session, Status>, s: Session)
    ensures StatusOf(sessions, s).cancelled <==> Cancelled(sessions, s)
  {
  }

  datatype Action =
    | Begins(call: Call, discard: bool) | Sends(ok: bool)
    | Drains(session: Session) | Declines(serial: nat, ok: bool) | Notifies(ok: bool)
    | Claims(request: Request, answer: Answer) | Writes(serial: nat, ok: bool)
    | Reads(frame: Incoming) | Decides(ended: bool) | Replies(ok: bool)
    | TakesUpdate | TakesRequest(permission: bool)
    | Initializes(accepted: bool) | Fails

  // A frame that does not end the connection by itself.
  predicate Accepted(f: Incoming, requests: map<string, Request>) {
    match f
    case Garbage => false
    case Response(_) => true
    case OtherNotification => true
    case Update(session) => session.Some? && session.value != ""
    case Asked(key, ask) =>
      && key.Some? && !ask.BadParams?
      && (ask.Asks? ==> key.value !in requests && |requests| < 256)
  }

  // What can be seen of a client between two actions.
  datatype View = View(failed: bool, ready: bool, initializing: bool, control: Control, reader: Reader,
                       pending: map<nat, Call>, sessions: map<Session, Status>, next: nat, requests: map<string, Request>,
                       answering: map<nat, Answer>, wire: seq<Frame>, updates: seq<Item>, permissions: seq<Request>,
                       incoming: seq<Request>, given: set<nat>)

  // What an action does where it can be taken.
  ghost predicate Does(a: Action, s: View, t: View) {
    match a
    case Begins(c, discard) =>
      s.control == Free && IsCall(c) && !s.failed && (if c.kind == Initialize then !s.initializing && !s.ready else s.ready)
      && !(c.session != "" && c.session in s.sessions && s.sessions[c.session].busy) && |s.pending| < 256 ==>
        t.control == Calling(s.next + 1, c) && t.pending == s.pending[s.next + 1 := c]
    case Sends(ok) =>
      s.control.Calling? ==>
        t.control == Free && t.wire == s.wire + if ok then [Calls(s.control.id, s.control.call)] else []
    case Drains(session) =>
      s.control == Free && !s.failed && s.ready && session != "" ==>
        t.control.Cancelling? && t.control.session == session && t.control.rest.Keys == Serials(s.requests, session)
    case Declines(n, ok) =>
      s.control.Cancelling? && n in s.control.rest ==> t.wire == s.wire + if ok then [Answers(n, Declined)] else []
    case Notifies(ok) =>
      s.control.Cancelling? && s.control.rest == map[] ==>
        t.control == Free && t.wire == s.wire + if ok then [Cancels(s.control.session)] else []
    case Claims(r, answer) =>
      r.key in s.requests && s.requests[r.key] == r ==> t.answering == s.answering[r.serial := answer]
    case Writes(n, ok) =>
      n in s.answering ==> t.wire == s.wire + if ok then [Answers(n, s.answering[n])] else []
    case Reads(f) =>
      s.reader == Idle ==>
        && (t.reader != Idle || (Accepted(f, s.requests) && !f.Asked?))
        && (f.Response? && f.id.Some? && f.id.value in s.pending ==> t.pending == s.pending - {f.id.value})
    case Decides(ended) =>
      s.reader.Registered? ==> t.reader.Replying? || t.reader == Stopped || s.reader.request.serial in t.given
    case Replies(ok) =>
      s.reader.Replying? ==> t.wire == s.wire + if ok then [Answers(s.reader.serial, s.reader.answer)] else []
    case TakesUpdate => |s.updates| > 0 ==> t.updates == s.updates[1..]
    case TakesRequest(permission) =>
      var queue := if permission then s.permissions else s.incoming;
      queue != [] ==> queue[1..] == if permission then t.permissions else t.incoming
    case Initializes(accepted) => s.initializing ==> if accepted then t.ready else t.failed
    case Fails => t.failed
  }

  class Client {
    var control: Control
    var reader: Reader
    // Answers taken from the table and not written yet.
    var answering: map<nat, Answer>
    var next: nat
    var initializing: bool
    var ready: bool
    var failed: bool
    var pending: map<nat, Call>
    var sessions: map<Session, Status>
    var requests: map<string, Request>
    var updates: seq<Item>
    var permissions: seq<Request>
    var incoming: seq<Request>
    var wire: seq<Frame>
    // Requests read so far: the identity of the next one.
    var serials: nat
    ghost var places: map<nat, Place>
    ghost var holder: map<Session, nat>
    ghost var spill: Option<Call>
    ghost var stamps: seq<nat>
    ghost var log: seq<Event>
    // Requests registered while their session was cancelled, and requests given to the user.
    ghost var refused: set<nat>
    ghost var given: set<nat>

    ghost predicate Valid()
      reads this
    {
      && SessionsOk(failed, pending, sessions, holder, spill, log, next, control)
      && RequestsOk(requests, places, answering, control, reader, wire, serials)
      && QueuesOk(reader, permissions, incoming, updates, refused, given, serials)
      && OrderOk(wire, stamps, next, control)
    }

    constructor ()
      ensures Valid() && wire == [] && log == [] && !failed && !initializing && !ready && control == Free && reader == Idle
      ensures next == 0 && serials == 0 && pending == map[] && sessions == map[] && requests == map[]
    {
      control, reader, answering, next, initializing, ready, failed := Free, Idle, map[], 0, false, false, false;
      pending, sessions, requests, updates, permissions, incoming, wire := map[], map[], map[], [], [], [], [];
      serials, places, holder, spill, stamps, log, refused, given := 0, map[], map[], None, [], [], {}, {};
    }

    // fail: the first failure clears the tables; sessions keep their marks.
    method Fail()
      requires Valid()
      modifies this`failed, this`pending, this`requests, this`places
      ensures Valid() && failed
      ensures old(failed) ==> pending == old(pending) && requests == old(requests) && places == old(places)
      ensures !old(failed)
              ==> pending == map[] && requests == map[] && places == Drop(old(places), Tabled(old(places)), Dropped)
    {
      hide Table, Duties, Settling, QueuesOk, OrderOk;
      if failed { return; }
      TableFail(pending, sessions, holder, spill, log, next);
      DutyFail(requests, places, answering, RestOf(control), ReplyOf(reader), wire, serials);
      if control.Cancelling? {
        NotTabled(requests, places, answering, control.rest, ReplyOf(reader), wire, serials);
        SettlingDrop(control.drained, control.rest, places, Tabled(places));
      }
      failed, pending, requests, places := true, map[], map[], Drop(places, Tabled(places), Dropped);
    }

    // The connection lives and has got to where the call belongs, and the session of the call
    // has no other operation.
    predicate Takes(c: Call)
      reads this
    {
      && !failed && (if c.kind.Initialize? then !initializing && !ready else ready)
      && (c.session != "" ==> !StatusOf(sessions, c.session).busy)
    }

    // beginCall up to the release of mu: the caller holds the control lock.
    method BeginCall(c: Call, discard: bool) returns (refusal: Option<Refusal>)
      requires Valid() && control == Free && IsCall(c)
      modifies this`control, this`initializing, this`sessions, this`pending, this`next, this`holder, this`spill, this`log
      ensures Valid()
      // A call that the state takes is accepted exactly when the table has room.
      ensures refusal.None? <==> old(Takes(c)) && |old(pending)| < MAX_PENDING
      ensures refusal == Some(Overflow) <==> old(Takes(c)) && |old(pending)| >= MAX_PENDING
      ensures initializing <==> old(initializing) || (!failed && !ready && c.kind.Initialize?)
      ensures refusal.Some? && refusal.value != Overflow ==>
                control == Free && pending == old(pending) && next == old(next) && log == old(log) && sessions == old(sessions)
      ensures refusal == Some(Overflow) ==> control == Overflowing && pending == old(pending) && |pending| == MAX_PENDING
      ensures refusal.None? ==>
                && !failed && control == Calling(next, c) && next == old(next) + 1
                && pending == old(pending)[next := c] && log == old(log) + [Began(next, c)]
                && var was := Cancelled(old(sessions), c.session);
                   sessions == if c.session == "" then old(sessions)
                               else old(sessions)[c.session := Status(true, c.kind.Load?, c.kind.Load? && discard,
                                                                      was && !c.kind.Prompt?)]
      // At most one operation of a session is outstanding.
      ensures !failed && (ready || c.kind.Initialize?) && c.session != "" && StatusOf(old(sessions), c.session).busy
              ==> refusal == Some(Busy) || refusal == Some(AlreadyInitialized)
    {
      hide SessionsOk, RequestsOk, QueuesOk, OrderOk, StatusOf;
      refusal := Admit(c);
      if refusal.Some? { return; }
      CancelledStatus(sessions, c.session);
      IdleNotBusy(pending, sessions, holder, spill, log, next);
      var status := StatusFor(c, discard, StatusOf(sessions, c.session));
      if |pending| >= MAX_PENDING {
        SpillOver(c, status);
        return Some(Overflow);
      }
      Register(c, status);
      refusal := None;
    }

    method Admit(c: Call) returns (refusal: Option<Refusal>)
      requires Valid()
      modifies this`initializing
      ensures Valid() && refusal != Some(Overflow) && (refusal.None? <==> old(Takes(c)))
      ensures initializing <==> old(initializing) || (!failed && !ready && c.kind.Initialize?)
      ensures !failed && (ready || c.kind.Initialize?) && c.session != "" && StatusOf(sessions, c.session).busy
              ==> refusal == Some(Busy) || refusal == Some(AlreadyInitialized)
    {
      hide SessionsOk, RequestsOk, QueuesOk, OrderOk, StatusOf;
      if failed { return Some(Failed); }
      if c.kind.Initialize? {
        if initializing || ready { return Some(AlreadyInitialized); }
        initializing := true;
      } else if !ready {
        return Some(NotInitialized);
      }
      if c.session != "" && StatusOf(sessions, c.session).busy { return Some(Busy); }
      refusal := None;
    }

    method Register(c: Call, status: Status)
      requires Valid() && control == Free && IsCall(c) && !failed && !StatusOf(sessions, c.session).busy
      requires |pending| < MAX_PENDING && status.busy && (status.replay <==> c.kind.Load?)
      modifies this`control, this`sessions, this`pending, this`next, this`holder, this`log
      ensures Valid() && control == Calling(next, c) && next == old(next) + 1
      ensures pending == old(pending)[next := c] && log == old(log) + [Began(next, c)]
      ensures sessions == Mark(old(sessions), c.session, status)
    {
      hide SessionsOk, RequestsOk, QueuesOk, OrderOk, Mark, Hold, StatusOf;
      SessionsBegin(pending, sessions, holder, spill, log, next, c, status);
      NotCancelling(requests, places, answering, control, Calling(next + 1, c), reader, wire, serials);
      OrderBegins(wire, stamps, next, c);
      sessions, holder, next := Mark(sessions, c.session, status), Hold(holder, c.session, next + 1), next + 1;
      pending, log, control := pending[next := c], log + [Began(next, c)], Calling(next, c);
    }

    // The session is marked before the full table is noticed.
    method SpillOver(c: Call, status: Status)
      requires Valid() && control == Free && IsCall(c) && !failed && !StatusOf(sessions, c.session).busy
      requires |pending| >= MAX_PENDING && status.busy && (status.replay <==> c.kind.Load?)
      modifies this`control, this`sessions, this`spill, this`log
      ensures Valid() && control == Overflowing && |pending| == MAX_PENDING
    {
      hide Table, Duties, Settling, QueuesOk, InOrder, Earlier, Mark;
      TableSpill(pending, sessions, holder, log, next, c, status);
      sessions := Mark(sessions, c.session, status);
      spill, log, control := Some(c), log + [Overflowed(c)], Overflowing;
    }

    // The rest of beginCall: the call is written before the control lock is released.
    method FinishCall(ok: bool)
      requires Valid() && (control == Overflowing || control.Calling?)
      modifies this`control, this`failed, this`pending, this`requests, this`places, this`wire, this`stamps
      ensures Valid() && control == Free
      ensures old(control).Calling? && ok ==>
                && wire == old(wire) + [Calls(old(control).id, old(control).call)]
                && failed == old(failed) && pending == old(pending) && requests == old(requests)
      ensures old(control) == Overflowing || !ok ==> wire == old(wire) && failed
    {
      hide Table, Duties, Settling, QueuesOk, InOrder, Earlier;
      if control == Overflowing || !ok {
        Fail();
        control := Free;
        return;
      }
      OrderCall(wire, stamps, next, control.call);
      DutyFrame(requests, places, answering, RestOf(control), ReplyOf(reader), wire, serials, Calls(next, control.call));
      wire, stamps, control := wire + [Calls(control.id, control.call)], stamps + [next], Free;
    }

    // ---- Cancel.

    method BeginCancel(session: Session) returns (refusal: Option<Refusal>)
      requires Valid() && control == Free
      modifies this`control, this`sessions, this`requests, this`places
      ensures Valid()
      ensures refusal.None? <==> !failed && ready && session != ""
      ensures refusal.Some? ==> control == Free && sessions == old(sessions) && requests == old(requests)
      ensures refusal.None? ==>
                && sessions == old(sessions)[session := StatusOf(old(sessions), session).(cancelled := true)]
                && control.Cancelling? && control == Cancelling(session, control.rest, control.rest.Keys, next)
                // Every request of the session is taken out of the table, and no other.
                && requests == Others(old(requests), session) && control.rest.Keys == Serials(old(requests), session)
    {
      hide SessionsOk, RequestsOk, QueuesOk, OrderOk, Duties, StatusOf, Others, Serials;
      if session == "" { return Some(NoSession); }
      if failed { return Some(Failed); }
      if !ready { return Some(NotInitialized); }
      SessionsCancel(failed, pending, sessions, holder, spill, log, next, session);
      TakesNothing(requests, places, answering, reader, wire, serials);
      OrderCancels(wire, stamps, next);
      sessions := sessions[session := StatusOf(sessions, session).(cancelled := true)];
      var rest := Drain(session);
      RequestsDrained(requests, places, answering, reader, wire, serials, session, rest, next);
      control := Cancelling(session, rest, rest.Keys, next);
      refusal := None;
    }

    method Drain(session: Session) returns (rest: map<nat, Request>)
      requires Duties(requests, places, answering, map[], ReplyOf(reader), wire, serials)
      modifies this`requests, this`places
      ensures Duties(requests, places, answering, rest, ReplyOf(reader), wire, serials)
      ensures requests == Others(old(requests), session) && rest.Keys == Serials(old(requests), session)
    {
      hide Duties;
      rest := map[];
      var keys := requests.Keys;
      while keys != {}
        invariant keys <= requests.Keys && Duties(requests, places, answering, rest, ReplyOf(reader), wire, serials)
        invariant forall k :: k in requests ==> k in old(requests) && requests[k] == old(requests)[k]
        invariant forall k :: k in requests && k !in keys ==> requests[k].session != session
        invariant forall k :: k in old(requests) && k !in requests ==>
                                old(requests)[k].session == session && old(requests)[k].serial in rest
        invariant forall n :: n in rest ==> n in Serials(old(requests), session)
        decreases keys
      {
        var k :| k in keys;
        keys := keys - {k};
        if requests[k].session == session {
          DutyTakeAway(requests, places, answering, rest, ReplyOf(reader), wire, serials, k);
          rest := rest[requests[k].serial := requests[k]];
          places := Move(places, requests[k].serial, InCancel);
          requests := requests - {k};
        }
      }
    }

    // One answer of a cancellation.
    method CancelOne(n: nat, ok: bool)
      requires Valid() && control.Cancelling? && n in control.rest
      modifies this`control, this`failed, this`pending, this`requests, this`places, this`wire, this`stamps
      ensures Valid()
      ensures ok ==> && wire == old(wire) + [Answers(n, Declined)]
                     && control == old(control).(rest := old(control).rest - {n})
                     && failed == old(failed) && pending == old(pending) && requests == old(requests)
      ensures !ok ==> failed && control == Free && wire == old(wire)
    {
      hide Table, Duties, Settling, QueuesOk, InOrder, Earlier;
      if !ok {
        GiveUp();
        return;
      }
      DutyCancel(requests, places, answering, control.rest, ReplyOf(reader), wire, serials, n);
      SettlingAnswer(control.drained, control.rest, places, n);
      OrderAnswer(wire, stamps, next, Answers(n, Declined));
      wire, stamps := wire + [Answers(n, Declined)], stamps + [next];
      places := Move(places, n, Answered);
      control := control.(rest := control.rest - {n});
    }

    // A cancellation that cannot be written ends the connection.
    method GiveUp()
      requires Valid() && control.Cancelling?
      modifies this`control, this`failed, this`pending, this`requests, this`places
      ensures Valid() && failed && control == Free
    {
      hide Table, Duties, Settling, QueuesOk, InOrder, Earlier;
      DutyAbandon(requests, places, answering, control.rest, ReplyOf(reader), wire, serials);
      places := Drop(places, control.rest.Keys, Dropped);
      control := Free;
      Fail();
    }

    // The cancellation itself follows the answers to all requests it took.
    method FinishCancel(ok: bool)
      requires Valid() && control.Cancelling? && control.rest == map[]
      modifies this`control, this`failed, this`pending, this`requests, this`places, this`wire, this`stamps
      ensures Valid() && control == Free
      ensures ok ==> wire == old(wire) + [Cancels(old(control).session)] && stamps == old(stamps) + [old(control).begun]
      ensures ok ==> failed == old(failed) && pending == old(pending) && requests == old(requests)
      ensures ok ==> forall n :: n in old(control).drained ==> Written(old(wire), n) == 1
      ensures !ok ==> failed && wire == old(wire)
    {
      hide Table, Duties, Settling, QueuesOk, InOrder, Earlier;
      if !ok {
        GiveUp();
        return;
      }
      hide Table, Duties, Settling, InOrder, Earlier, Sorted;
      DrainedWritten(control.drained, requests, places, answering, ReplyOf(reader), wire, serials);
      DutyFrame(requests, places, answering, map[], ReplyOf(reader), wire, serials, Cancels(control.session));
      OrderAnswer(wire, stamps, next, Cancels(control.session));
      wire, stamps, control := wire + [Cancels(control.session)], stamps + [next], Free;
    }

    // ---- Answer, by the user.

    // Up to the release of mu: the request must still be this one's entry in the table.
    method Claim(r: Request, answer: Answer) returns (ok: bool)
      requires Valid()
      modifies this`requests, this`places, this`answering
      ensures Valid()
      ensures ok <==> r.key in old(requests) && old(requests)[r.key] == r
      ensures ok ==> requests == old(requests) - {r.key} && answering == old(answering)[r.serial := answer]
      ensures !ok ==> requests == old(requests) && answering == old(answering)
    {
      hide SessionsOk, Duties, Settling, QueuesOk, OrderOk;
      ok := r.key in requests && requests[r.key] == r;
      if !ok { return; }
      DutyTake(requests, places, answering, RestOf(control), ReplyOf(reader), wire, serials, r.key, answer);
      Leaves(requests, places, answering, control, reader, wire, serials, r.key, Taken);
      requests, answering, places := requests - {r.key}, answering[r.serial := answer], Move(places, r.serial, Taken);
    }

    method FinishAnswer(n: nat, ok: bool)
      requires Valid() && n in answering
      modifies this`answering, this`failed, this`pending, this`requests, this`places, this`wire, this`stamps
      ensures Valid() && answering == old(answering) - {n}
      ensures ok ==> wire == old(wire) + [Answers(n, old(answering)[n])]
      ensures !ok ==> wire == old(wire) && failed
    {
      hide SessionsOk, Duties, Settling, QueuesOk, InOrder, Earlier;
      var answer := answering[n];
      DutyWrite(requests, places, answering, RestOf(control), ReplyOf(reader), wire, serials, n, answer);
      Delivers(requests, places, answering, control, reader, wire, serials, n, if ok then Answered else Dropped);
      OrderAnswer(wire, stamps, next, Answers(n, answer));
      answering := answering - {n};
      if ok {
        wire, stamps, places := wire + [Answers(n, answer)], stamps + [next], Move(places, n, Answered);
      } else {
        places := Move(places, n, Dropped);
        Fail();
      }
    }

    // ---- The read loop.

    // A frame that ends the connection.
    method Stop()
      requires Valid()
      modifies this`reader, this`failed, this`pending, this`requests, this`places
      requires reader.Idle? || reader.Registered?
      ensures Valid() && failed && reader == Stopped
    {
      hide SessionsOk, Duties, Settling, Sorted, OrderOk;
      reader := Stopped;
      Fail();
    }

    // session/update: the mark is read before the next frame is.
    method Notified(session: Session)
      requires Valid() && reader == Idle
      modifies this`reader, this`failed, this`pending, this`requests, this`places, this`updates, this`log
      ensures Valid() && log == old(log) + [Handled(session, StatusOf(sessions, session).replay)]
      ensures var s := StatusOf(sessions, session);
              if s.replay && s.discard then updates == old(updates) && reader == Idle
              else if |old(updates)| < QUEUE then updates == old(updates) + [Item(session, s.replay)] && reader == Idle
              else updates == old(updates) && failed && reader == Stopped
      ensures reader == Idle ==> failed == old(failed) && pending == old(pending) && requests == old(requests)
    {
      hide Table, RequestsOk, Sorted, OrderOk;
      TableHandle(failed, pending, sessions, holder, spill, log, next, session);
      var s := StatusOf(sessions, session);
      log := log + [Handled(session, s.replay)];
      if s.replay && s.discard { return; }
      if |updates| >= QUEUE {
        Stop();
        return;
      }
      updates := updates + [Item(session, s.replay)];
    }

    // A response ends its call, and the requests of a prompt that ends are no longer answered.
    method Responded(id: nat)
      requires Valid() && id in pending
      modifies this`pending, this`sessions, this`holder, this`log, this`requests, this`places
      ensures Valid() && failed == old(failed) && pending == old(pending) - {id}
              && log == old(log) + [Ended(id, old(pending)[id])]
      ensures var c := old(pending)[id];
              && sessions == Mark(old(sessions), c.session,
                                  Status(false, false, false, StatusOf(old(sessions), c.session).cancelled))
              && requests == if c.kind.Prompt? then Others(old(requests), c.session) else old(requests)
      ensures Ends(id, old(pending)[id])
    {
      hide SessionsOk, RequestsOk, QueuesOk, OrderOk;
      var c := pending[id];
      CancelledStatus(sessions, c.session);
      var status := Status(false, false, false, StatusOf(sessions, c.session).cancelled);
      Marks(sessions, c.session, status);
      EndCall(id, status);
      if c.kind.Prompt? { Forget(c.session); }
    }

    method EndCall(id: nat, status: Status)
      requires Valid() && id in pending && !status.busy && !status.replay
      modifies this`pending, this`sessions, this`holder, this`log
      ensures Valid() && pending == old(pending) - {id} && log == old(log) + [Ended(id, old(pending)[id])]
      ensures sessions == Mark(old(sessions), old(pending)[id].session, status)
    {
      hide SessionsOk, RequestsOk, QueuesOk, OrderOk, Mark;
      SessionsEnd(failed, pending, sessions, holder, spill, log, next, control, id, status);
      sessions, holder := Mark(sessions, pending[id].session, status), holder - {pending[id].session};
      log, pending := log + [Ended(id, pending[id])], pending - {id};
    }

    method Forget(session: Session)
      requires RequestsOk(requests, places, answering, control, reader, wire, serials)
      modifies this`requests, this`places
      ensures RequestsOk(requests, places, answering, control, reader, wire, serials)
      ensures requests == Others(old(requests), session)
    {
      hide Duties, Settling, Sorted;
      var keys := requests.Keys;
      while keys != {}
        invariant keys <= requests.Keys && RequestsOk(requests, places, answering, control, reader, wire, serials)
        invariant forall k :: k in requests ==> k in old(requests) && requests[k] == old(requests)[k]
        invariant forall k :: k in requests && k !in keys ==> requests[k].session != session
        invariant forall k :: k in old(requests) && k !in requests ==> old(requests)[k].session == session
        decreases keys
      {
        var k :| k in keys;
        keys := keys - {k};
        if requests[k].session == session {
          DutyTakeAway(requests, places, answering, RestOf(control), ReplyOf(reader), wire, serials, k);
          Leaves(requests, places, answering, control, reader, wire, serials, k, Dropped);
          places := Move(places, requests[k].serial, Dropped);
          requests := requests - {k};
        }
      }
    }

    // A request that the read loop answers itself.
    method Direct(answer: Answer)
      requires Valid() && reader == Idle
      modifies this`reader, this`serials, this`places
      ensures Valid() && reader == Replying(old(serials), answer)
    {
      hide SessionsOk, Duties, Settling, OrderOk, Sorted;
      DutyDirect(requests, places, answering, RestOf(control), wire, serials);
      SortedNew(refused, given, serials);
      NewOnly(requests, places, answering, control, reader, wire, serials, InReader);
      places := Move(places, serials, InReader);
      reader := Replying(serials, answer);
      serials := serials + 1;
    }

    // session/request_permission and elicitation/create, up to the release of mu.
    method Ask(key: string, session: Session, permission: bool)
      requires Valid() && reader == Idle
      modifies this`reader, this`serials, this`places, this`requests, this`refused, this`failed, this`pending
      ensures Valid()
      ensures key in old(requests) || |old(requests)| >= MAX_PENDING ==> failed && reader == Stopped && refused == old(refused)
      ensures key !in old(requests) && |old(requests)| < MAX_PENDING ==>
                var r := Request(old(serials), key, session, permission);
                && reader == Registered(r, StatusOf(sessions, session).cancelled) && requests == old(requests)[key := r]
                && refused == old(refused) + (if StatusOf(sessions, session).cancelled then {r.serial} else {})
                && failed == old(failed) && pending == old(pending)
    {
      hide SessionsOk, RequestsOk, QueuesOk, OrderOk;
      if key in requests || |requests| >= MAX_PENDING {
        Stop();
        return;
      }
      File(Request(serials, key, session, permission), StatusOf(sessions, session).cancelled);
    }

    method File(r: Request, cancelled: bool)
      requires Valid() && reader == Idle && r.serial == serials && r.key !in requests
      modifies this`reader, this`serials, this`places, this`requests, this`refused
      ensures Valid() && reader == Registered(r, cancelled) && requests == old(requests)[r.key := r]
      ensures refused == old(refused) + if cancelled then {r.serial} else {}
    {
      hide SessionsOk, RequestsOk, QueuesOk, OrderOk, Move;
      RequestsFile(requests, places, answering, control, wire, serials, r, cancelled);
      QueuesFile(permissions, incoming, updates, refused, given, serials, r, cancelled);
      requests, places := requests[r.key := r], Move(places, serials, InTable(r.key));
      reader, serials := Registered(r, cancelled), serials + 1;
      if cancelled { refused := refused + {r.serial}; }
    }

    // After registration: a request of a cancelled session is declined, and any other goes to
    // the user. `ended` is the end of the client's own context.
    method Decide(ended: bool)
      requires Valid() && reader.Registered?
      modifies this`reader, this`failed, this`pending, this`requests, this`places, this`permissions, this`incoming, this`given
      ensures Valid()
      ensures var r := old(reader).request;
              if old(reader).cancelled then
                && permissions == old(permissions) && incoming == old(incoming) && given == old(given)
                && (reader == Replying(r.serial, Declined) || (reader == Stopped && failed))
                // A second cancellation that took the request first ends the connection.
                && (reader == Stopped <==> ended || !(r.key in old(requests) && old(requests)[r.key] == r))
              else if (if r.permission then |old(permissions)| else |old(incoming)|) < QUEUE then
                && reader == Idle && given == old(given) + {r.serial}
                && permissions == (if r.permission then old(permissions) + [r] else old(permissions))
                && incoming == (if r.permission then old(incoming) else old(incoming) + [r])
              else
                && reader == Stopped && failed && permissions == old(permissions) && incoming == old(incoming)
                && given == old(given)
    {
      hide SessionsOk, RequestsOk, OrderOk, Sorted;
      var r := reader.request;
      if reader.cancelled {
        if ended || !(r.key in requests && requests[r.key] == r) {
          ReaderOnly(requests, places, answering, control, reader, Stopped, wire, serials);
          Stop();
          return;
        }
        RequestsTaken(requests, places, answering, control, reader, wire, serials, r.key);
        requests, places, reader := requests - {r.key}, Move(places, r.serial, InReader), Replying(r.serial, Declined);
        return;
      }
      if (if r.permission then |permissions| else |incoming|) >= QUEUE {
        Stop();
        return;
      }
      Give(r);
    }

    method Give(r: Request)
      requires Valid() && reader == Registered(r, false)
      requires (if r.permission then |permissions| else |incoming|) < QUEUE
      modifies this`reader, this`permissions, this`incoming, this`given
      ensures Valid() && reader == Idle && given == old(given) + {r.serial}
      ensures permissions == (if r.permission then old(permissions) + [r] else old(permissions))
      ensures incoming == (if r.permission then old(incoming) else old(incoming) + [r])
    {
      hide SessionsOk, RequestsOk, OrderOk, Sorted;
      ReaderOnly(requests, places, answering, control, reader, Idle, wire, serials);
      SortedGiven(requests, places, answering, control, reader, wire, refused, given, serials);
      if r.permission { permissions := permissions + [r]; } else { incoming := incoming + [r]; }
      reader, given := Idle, given + {r.serial};
    }

    // The answer that the read loop writes itself.
    method FinishReply(ok: bool)
      requires Valid() && reader.Replying?
      modifies this`reader, this`failed, this`pending, this`requests, this`places, this`wire, this`stamps
      ensures Valid()
      ensures ok ==> reader == Idle && wire == old(wire) + [Answers(old(reader).serial, old(reader).answer)]
      ensures !ok ==> reader == Stopped && failed && wire == old(wire)
    {
      hide SessionsOk, RequestsOk, QueuesOk, OrderOk;
      var n, answer := reader.serial, reader.answer;
      RequestsReplied(requests, places, answering, control, wire, serials, n, answer);
      QueuesReader(reader, permissions, incoming, updates, refused, given, serials);
      if !ok {
        reader, places := Stopped, Move(places, n, Dropped);
        Fail();
        return;
      }
      OrderAnswered(wire, stamps, next, control, Answers(n, answer));
      wire, stamps := wire + [Answers(n, answer)], stamps + [next];
      reader, places := Idle, Move(places, n, Answered);
    }

    // ---- The user's side of the queues.

    method TakeUpdate() returns (u: Option<Item>)
      requires Valid()
      modifies this`updates
      ensures Valid()
      ensures if old(updates) == [] then u.None? && updates == []
              else u == Some(old(updates)[0]) && updates == old(updates)[1..]
    {
      hide SessionsOk, RequestsOk, OrderOk, Sorted;
      if updates == [] { return None; }
      u, updates := Some(updates[0]), updates[1..];
    }

    method TakeRequest(permission: bool) returns (r: Option<Request>)
      requires Valid()
      modifies this`permissions, this`incoming
      ensures Valid()
      ensures var queue := if permission then old(permissions) else old(incoming);
              && r == (if queue == [] then None else Some(queue[0]))
              && permissions == (if permission && queue != [] then queue[1..] else old(permissions))
              && incoming == (if !permission && queue != [] then queue[1..] else old(incoming))
    {
      hide SessionsOk, RequestsOk, OrderOk, Sorted;
      if permission {
        if permissions == [] { return None; }
        r, permissions := Some(permissions[0]), permissions[1..];
      } else {
        if incoming == [] { return None; }
        r, incoming := Some(incoming[0]), incoming[1..];
      }
    }

    // The response to initialize was accepted.
    method FinishInitialize(accepted: bool)
      requires Valid() && initializing
      modifies this`ready, this`failed, this`pending, this`requests, this`places
      ensures Valid() && (!accepted ==> failed && ready == old(ready))
      ensures accepted ==>
                ready && failed == old(failed) && pending == old(pending) && requests == old(requests) && places == old(places)
    {
      hide SessionsOk, RequestsOk, QueuesOk, OrderOk;
      if accepted { ready := true; } else { Fail(); }
    }

    // No call, session or request changed, unless the connection ended.
    twostate predicate Untouched()
      reads this
    {
      && sessions == old(sessions)
      && ((failed == old(failed) && pending == old(pending) && requests == old(requests)) || (failed && reader == Stopped))
    }

    twostate predicate Waits()
      reads this
    {
      failed == old(failed) && updates == old(updates) && reader == Idle
    }

    // A call is over: it is no longer pending, its session is free and unmarked, and when it was
    // a prompt the requests of the session are forgotten.
    twostate predicate Ends(id: nat, c: Call)
      reads this
    {
      && failed == old(failed) && pending == old(pending) - {id}
      && sessions.Keys == old(sessions.Keys) + (if c.session == "" then {} else {c.session})
      && (forall s :: s in sessions ==>
            sessions[s] == if s == c.session != "" then Status(false, false, false, Cancelled(old(sessions), s))
                           else old(sessions)[s])
      && (forall k :: k in requests <==>
            k in old(requests) && !(c.kind == Prompt && old(requests)[k].session == c.session))
      && (forall k :: k in requests ==> requests[k] == old(requests)[k])
    }

    // One frame, read while the loop is between frames.
    method Receive(f: Incoming)
      requires Valid() && reader == Idle
      modifies this`reader, this`failed, this`pending, this`sessions, this`requests, this`updates, this`serials
      modifies this`places, this`holder, this`log, this`refused
      ensures Valid()
      ensures !Accepted(f, old(requests)) ==> failed && reader == Stopped && updates == old(updates)
      ensures Accepted(f, old(requests)) ==>
                match f
                case OtherNotification => Untouched() && Waits()
                // An update joins the queue with the mark of its session, or is dropped.
                case Update(Some(s)) =>
                  var status := StatusOf(old(sessions), s);
                  && Untouched()
                  && if status.replay && status.discard then updates == old(updates) && reader == Idle
                     else if |old(updates)| < 256 then updates == old(updates) + [Item(s, status.replay)] && reader == Idle
                     else updates == old(updates) && failed && reader == Stopped
                // A response ends its call, and nothing else, whatever its id was before.
                case Response(Some(id)) =>
                  if id in old(pending) then Ends(id, old(pending)[id]) && updates == old(updates) && reader == Idle
                  else Untouched() && Waits()
                case Response(None) => Untouched() && Waits()
                // A request is registered, or answered by the read loop itself.
                case Asked(Some(key), Asks(s, permission)) =>
                  var r := Request(old(serials), key, s, permission);
                  && reader == Registered(r, Cancelled(old(sessions), s)) && requests == old(requests)[key := r]
                  && sessions == old(sessions) && pending == old(pending) && failed == old(failed) && updates == old(updates)
                case Asked(_, OtherMethod) => Untouched() && reader == Replying(old(serials), NotFound)
                case Asked(_, NotForm) => Untouched() && reader == Replying(old(serials), OnlyForms)
                case _ => false
    {
      hide SessionsOk, RequestsOk, QueuesOk, OrderOk, StatusOf, Ends, Mark, Others;
      match f
      case Garbage => Stop();
      case OtherNotification =>
      case Update(None) => Stop();
      case Update(Some(session)) =>
        if session == "" { Stop(); } else { Notified(session); }
      case Response(id) =>
        if id.Some? && id.value in pending { Responded(id.value); }
      case Asked(None, _) => Stop();
      case Asked(Some(key), ask) =>
        match ask
        case OtherMethod => Direct(NotFound);
        case NotForm => Direct(OnlyForms);
        case BadParams => Stop();
        case Asks(session, permission) =>
          CancelledStatus(sessions, session);
          Ask(key, session, permission);
    }

    // ---- Runs.

    ghost function Seen(): View
      reads this
    {
      View(failed, ready, initializing, control, reader, pending, sessions, next, requests, answering, wire, updates,
           permissions, incoming, given)
    }

    // A call or a cancellation goes on.
    method StepOut(a: Action)
      requires Valid() && (a.Begins? || a.Sends? || a.Drains? || a.Declines? || a.Notifies?)
      modifies this
      ensures Valid() && Does(a, old(Seen()), Seen())
    {
      hide SessionsOk, RequestsOk, QueuesOk, OrderOk, StatusOf, Mark, Others, Serials, Ends;
      match a
      case Begins(c, discard) =>
        StatusIs(sessions, c.session);
        if control == Free && IsCall(c) { var _ := BeginCall(c, discard); }
      case Sends(ok) => if control == Overflowing || control.Calling? { FinishCall(ok); }
      case Drains(s) => if control == Free { var _ := BeginCancel(s); }
      case Declines(n, ok) => if control.Cancelling? && n in control.rest { CancelOne(n, ok); }
      case Notifies(ok) => if control.Cancelling? && control.rest == map[] { FinishCancel(ok); }
    }

    // The read loop goes on, or the user answers a request.
    method StepIn(a: Action)
      requires Valid() && (a.Claims? || a.Writes? || a.Reads? || a.Decides? || a.Replies?)
      modifies this
      ensures Valid() && Does(a, old(Seen()), Seen())
    {
      hide SessionsOk, RequestsOk, QueuesOk, OrderOk, StatusOf, Mark, Others, Serials;
      match a
      case Claims(r, answer) => var _ := Claim(r, answer);
      case Writes(n, ok) => if n in answering { FinishAnswer(n, ok); }
      case Reads(f) => if reader == Idle { Receive(f); }
      case Decides(ended) => if reader.Registered? { Decide(ended); }
      case Replies(ok) => if reader.Replying? { FinishReply(ok); }
    }

    // The next step of some goroutine, the agent or the transport, where it can be taken.
    method Step(a: Action)
      requires Valid()
      modifies this
      ensures Valid() && Does(a, old(Seen()), Seen())
    {
      hide SessionsOk, RequestsOk, QueuesOk, OrderOk, StatusOf, Mark, Others, Serials, Ends;
      match a
      case TakesUpdate => var _ := TakeUpdate();
      case TakesRequest(permission) => var _ := TakeRequest(permission);
      case Initializes(accepted) => if initializing { FinishInitialize(accepted); }
      case Fails => Fail();
      case Claims(_, _) => StepIn(a);
      case Writes(_, _) => StepIn(a);
      case Reads(_) => StepIn(a);
      case Decides(_) => StepIn(a);
      case Replies(_) => StepIn(a);
      case _ => StepOut(a);
    }
  }

  // What holds in every reachable state.
  ghost predicate Safe(c: Client)
    reads c
  {
    // Each incoming request is answered on the wire at most once,
    && (forall n :: Written(c.wire, n) <= 1)
    // and one that was registered while its session was cancelled never reached the user.
    && c.refused !! c.given
    // A session of a living connection has at most one pending call; then it is busy, and it
    // is marked for replay exactly for a load.
    && (!c.failed ==> forall a, b :: a in c.pending && b in c.pending && c.pending[a].session == c.pending[b].session != "" ==>
          a == b && StatusOf(c.sessions, c.pending[a].session).busy)
    && (!c.failed && c.spill.None? ==> forall a :: a in c.pending && c.pending[a].session != "" ==>
          (StatusOf(c.sessions, c.pending[a].session).replay <==> c.pending[a].kind.Load?))
    // Updates carry the mark exactly between the registration of a load and its response,
    && Marked(c.log)
    // and on the wire no cancellation is followed by a call that began before it.
    && |c.stamps| == |c.wire|
    && (forall p, q :: 0 <= p < q < |c.wire| && c.wire[p].Cancels? && c.wire[q].Calls? ==> c.stamps[p] < c.wire[q].id)
  }

  lemma ValidIsSafe(c: Client)
    requires c.Valid()
    ensures Safe(c)
  {
    forall n ensures Written(c.wire, n) <= 1 { assert n >= 0 ==> WrittenOnce(c.wire, c.places); }
    if !c.failed {
      forall a, b | a in c.pending && b in c.pending && c.pending[a].session == c.pending[b].session != ""
        ensures a == b && StatusOf(c.sessions, c.pending[a].session).busy
      {
        OnePending(c.pending, c.sessions, c.holder, c.spill, c.log, c.next, a, b);
      }
      forall a | a in c.pending && c.pending[a].session != "" && c.spill.None?
        ensures StatusOf(c.sessions, c.pending[a].session).replay <==> c.pending[a].kind.Load?
      {
        OnePending(c.pending, c.sessions, c.holder, c.spill, c.log, c.next, a, a);
      }
    }
  }

  // A connection between frames whose agent is initialized.
  ghost predicate Quiet(c: Client)
    reads c
  {
    c.Valid() && c.control == Free && c.reader == Idle && !c.failed && c.ready && c.requests == map[] && c.serials == 0
  }

  method Introduce(c: Client)
    requires c.Valid() && c.control == Free && !c.failed && !c.initializing && !c.ready && c.pending == map[]
    modifies c
    ensures c.Valid() && c.control == Free && c.reader == old(c.reader) && !c.failed && c.initializing
    ensures c.pending == map[old(c.next) + 1 := Call("", Initialize)] && c.next == old(c.next) + 1
    ensures c.wire == old(c.wire) + [Calls(c.next, Call("", Initialize))]
    ensures c.sessions == old(c.sessions) && c.requests == old(c.requests) && c.serials == old(c.serials)
  {
    hide SessionsOk, RequestsOk, QueuesOk, OrderOk, StatusOf;
    var _ := c.BeginCall(Call("", Initialize), false);
    c.FinishCall(true);
  }

  method Initialized() returns (c: Client)
    ensures fresh(c) && Quiet(c) && c.sessions == map[] && c.pending == map[] && c.next == 1
    ensures c.wire == [Calls(1, Call("", Initialize))]
  {
    hide SessionsOk, RequestsOk, QueuesOk, OrderOk, StatusOf;
    c := new Client();
    Introduce(c);
    c.Responded(1);
    assert map[1 := Call("", Initialize)] - {1} == map[];
    c.FinishInitialize(true);
  }

  method StartPrompt(c: Client, session: Session)
    requires Quiet(c) && c.sessions == map[] && c.pending == map[] && session != ""
    modifies c
    ensures Quiet(c) && c.wire == old(c.wire) + [Calls(old(c.next) + 1, Call(session, Prompt))]
  {
    hide SessionsOk, RequestsOk, QueuesOk, OrderOk;
    var _ := c.BeginCall(Call(session, Prompt), false);
    c.FinishCall(true);
  }

  lemma OneRequest(requests: map<string, Request>, key: string, r: Request)
    requires requests == map[key := r]
    ensures Serials(requests, r.session) == {r.serial} && Others(requests, r.session) == map[]
  {
    assert key in requests && requests[key] == r;
  }

  method AskAndTake(c: Client, session: Session, key: string, permission: bool)
    requires Quiet(c) && StatusOf(c.sessions, session).cancelled && session != ""
    modifies c
    ensures c.Valid() && !c.failed && c.reader == Registered(Request(0, key, session, permission), true)
    ensures c.control.Cancelling? && c.control.session == session && c.control.rest.Keys == {0} && c.requests == map[]
    ensures c.wire == old(c.wire)
  {
    hide SessionsOk, RequestsOk, QueuesOk, OrderOk, StatusOf, Serials, Others;
    c.Ask(key, session, permission);
    OneRequest(c.requests, key, c.reader.request);
    var _ := c.BeginCancel(session);
  }

  // A request of a cancelled session arrives, and a second cancellation begins before the read
  // loop takes the request from the table.
  method AskThenCancel(c: Client, session: Session, key: string, permission: bool)
    requires Quiet(c) && StatusOf(c.sessions, session).cancelled && session != ""
    modifies c
    ensures c.Valid() && c.failed && c.reader == Stopped
    ensures c.wire == old(c.wire) + [Answers(0, Declined), Cancels(session)]
  {
    hide SessionsOk, RequestsOk, QueuesOk, OrderOk, StatusOf;
    AskAndTake(c, session, key, permission);
    c.CancelOne(0, true);
    c.FinishCancel(true);
    c.Decide(false);
  }

  // That ends the connection, although every write succeeded and the request was answered.
  method CancelledTwice(session: Session, key: string, permission: bool) returns (c: Client)
    requires session != ""
    ensures c.Valid() && c.failed && c.reader == Stopped
    ensures c.wire == [Calls(1, Call("", Initialize)), Calls(2, Call(session, Prompt)), Cancels(session),
                       Answers(0, Declined), Cancels(session)]
  {
    hide SessionsOk, RequestsOk, QueuesOk, OrderOk;
    c := Initialized();
    StartPrompt(c, session);
    CancelFirst(c, session);
    AskThenCancel(c, session, key, permission);
  }

  method CancelFirst(c: Client, session: Session)
    requires Quiet(c) && session != ""
    modifies c
    ensures Quiet(c) && StatusOf(c.sessions, session).cancelled && c.wire == old(c.wire) + [Cancels(session)]
  {
    hide SessionsOk, RequestsOk, QueuesOk, OrderOk;
    var _ := c.BeginCancel(session);
    c.FinishCancel(true);
  }

  // ---- Whole exchanges.

  lemma FreshId(pending: map<nat, Call>, sessions: map<Session, Status>, holder: map<Session, nat>,
                spill: Option<Call>, log: seq<Event>, next: nat, control: Control, failed: bool)
    requires SessionsOk(failed, pending, sessions, holder, spill, log, next, control)
    ensures next + 1 !in pending
  {
  }

  // A call and its response leave the connection as it was, with the session free for the next
  // operation: whatever else is pending stays.
  method Exchange(c: Client, call: Call, discard: bool)
    requires c.Valid() && c.control == Free && c.reader == Idle && IsCall(call)
    requires c.Takes(call) && |c.pending| < 256
    modifies c
    ensures c.Valid() && c.control == Free && c.reader == Idle && !c.failed && c.ready == old(c.ready)
    ensures c.wire == old(c.wire) + [Calls(old(c.next) + 1, call)]
    ensures c.pending == old(c.pending) && c.updates == old(c.updates)
    ensures call.session != "" ==>
              && StatusOf(c.sessions, call.session)
                 == Status(false, false, false, call.kind != Prompt && Cancelled(old(c.sessions), call.session))
              && forall next: Call :: next.session == call.session && next.kind != Initialize ==> c.Takes(next)
    ensures forall s :: s != call.session ==> StatusOf(c.sessions, s) == StatusOf(old(c.sessions), s)
  {
    hide SessionsOk, RequestsOk, QueuesOk, OrderOk, StatusOf;
    FreshId(c.pending, c.sessions, c.holder, c.spill, c.log, c.next, c.control, c.failed);
    ghost var pending, id := c.pending, c.next + 1;
    CancelledStatus(c.sessions, call.session);
    Send(c, call, discard);
    assert pending[id := call] - {id} == pending;
    TakeResponse(c, c.next);
  }

  // The response to a pending call.
  method TakeResponse(c: Client, id: nat)
    requires c.Valid() && c.reader == Idle && id in c.pending
    modifies c`reader, c`failed, c`pending, c`sessions, c`requests, c`updates, c`serials
    modifies c`places, c`holder, c`log, c`refused
    ensures c.Valid() && c.reader == Idle && c.failed == old(c.failed) && c.pending == old(c.pending) - {id}
    ensures c.updates == old(c.updates)
    ensures var session := old(c.pending)[id].session;
            forall s :: StatusOf(c.sessions, s)
                        == if s == session != "" then Status(false, false, false, StatusOf(old(c.sessions), s).cancelled)
                           else StatusOf(old(c.sessions), s)
  {
    hide SessionsOk, RequestsOk, QueuesOk, OrderOk, StatusOf;
    ghost var sessions, session := c.sessions, c.pending[id].session;
    c.Receive(Response(Some(id)));
    Freed(sessions, c.sessions, session);
  }

  method Send(c: Client, call: Call, discard: bool)
    requires c.Valid() && c.control == Free && c.reader == Idle && IsCall(call)
    requires c.Takes(call) && |c.pending| < 256
    modifies c`control, c`initializing, c`sessions, c`pending, c`next, c`holder, c`spill, c`log
    modifies c`failed, c`requests, c`places, c`wire, c`stamps
    ensures c.Valid() && c.control == Free && !c.failed && c.next == old(c.next) + 1
    ensures c.wire == old(c.wire) + [Calls(c.next, call)] && c.pending == old(c.pending)[c.next := call]
    ensures forall s :: StatusOf(c.sessions, s)
                        == if s != call.session || s == "" then StatusOf(old(c.sessions), s)
                           else Status(true, call.kind == Load, call.kind == Load && discard,
                                       StatusOf(old(c.sessions), s).cancelled && call.kind != Prompt)
  {
    hide SessionsOk, RequestsOk, QueuesOk, OrderOk, StatusOf;
    ghost var sessions := c.sessions;
    CancelledStatus(sessions, call.session);
    var _ := c.BeginCall(call, discard);
    Statuses(sessions, c.sessions, call.session, Status(true, call.kind == Load, call.kind == Load && discard,
                                                        StatusOf(sessions, call.session).cancelled && call.kind != Prompt));
    c.FinishCall(true);
  }

  lemma Statuses(before: map<Session, Status>, after: map<Session, Status>, session: Session, status: Status)
    requires after == if session == "" then before else before[session := status]
    ensures forall s :: StatusOf(after, s) == if s == session != "" then status else StatusOf(before, s)
  {
  }

  lemma Freed(before: map<Session, Status>, after: map<Session, Status>, session: Session)
    requires after.Keys == before.Keys + (if session == "" then {} else {session})
    requires forall s :: s in after ==>
               after[s] == if s == session != "" then Status(false, false, false, Cancelled(before, s)) else before[s]
    ensures forall s :: StatusOf(after, s)
                        == if s == session != "" then Status(false, false, false, StatusOf(before, s).cancelled)
                           else StatusOf(before, s)
  {
  }

  // Any run: every action does what it can, and what is safe stays safe.
  method Run(actions: seq<Action>) returns (c: Client, ghost trace: seq<View>)
    ensures Safe(c)
    ensures |trace| == |actions| + 1 && trace[|actions|] == c.Seen()
    ensures forall k :: 0 <= k < |actions| ==> Does(actions[k], trace[k], trace[k + 1])
  {
    hide Does;
    c := new Client();
    trace := [c.Seen()];
    for i := 0 to |actions|
      invariant c.Valid() && |trace| == i + 1 && trace[i] == c.Seen()
      invariant forall k :: 0 <= k < i ==> Does(actions[k], trace[k], trace[k + 1])
    {
      hide SessionsOk, RequestsOk, QueuesOk, OrderOk;
      c.Step(actions[i]);
      trace := trace + [c.Seen()];
    }
    ValidIsSafe(c);
  }
}
