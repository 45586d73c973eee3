// The Agent Client Protocol connection: the vocabulary of frames, sessions and requests, and
// what every interleaving keeps (kit/acp/client.go, kit/acp/requests.go).
module Acp {
  import opened Wrappers

  const MAX_PENDING := 256
  const QUEUE := 256

  type Session = string

  datatype Method = Initialize | NewSession | Load | Prompt | Resume | Config

  // Calls outside a session have the empty session.
  datatype Call = Call(session: Session, kind: Method)

  datatype Status = Status(busy: bool, replay: bool, discard: bool, cancelled: bool)

  // One incoming request; `serial` is its identity, which a reused key does not repeat.
  datatype Request = Request(serial: nat, key: string, session: Session, permission: bool)

  datatype Answer = Chosen(value: nat) | Declined | NotFound | OnlyForms

  // What the client writes.
  datatype Frame = Calls(id: nat, call: Call) | Answers(serial: nat, answer: Answer) | Cancels(session: Session)

  // What the agent sends, as far as the client looks into it. A response id that is not the
  // canonical decimal text of a number belongs to no call.
  datatype Incoming =
    | Garbage
    | Response(id: Option<nat>)
    | Update(session: Option<Session>)
    | OtherNotification
    | Asked(key: Option<string>, ask: Ask)

  datatype Ask = OtherMethod | BadParams | NotForm | Asks(session: Session, permission: bool)

  // An update in the user's queue.
  datatype Item = Item(session: Session, replay: bool)

  // ---- What an observer of the connection notes.

  datatype Event = Began(id: nat, call: Call) | Ended(id: nat, call: Call) | Overflowed(call: Call)
      | Handled(session: Session, replay: bool)

  // A session/load of s was registered and not answered yet.
  predicate Loading(log: seq<Event>, s: Session) {
    if log == [] then false
    else
      match log[|log| - 1]
      case Began(_, c) => if c.session == s then c.kind.Load? else Loading(log[..|log| - 1], s)
      case Ended(_, c) => c.session != s && Loading(log[..|log| - 1], s)
      case _ => Loading(log[..|log| - 1], s)
  }

  // A session/load of s met a full table of pending calls.
  predicate Spilled(log: seq<Event>, s: Session) {
    if log == [] then false
    else log[|log| - 1] == Overflowed(Call(s, Load)) || Spilled(log[..|log| - 1], s)
  }

  // Updates are marked exactly while a load is open, but for a load that met a full table.
  ghost predicate Marked(log: seq<Event>) {
    forall p :: 0 <= p < |log| && log[p].Handled? ==>
      (log[p].replay <==> Loading(log[..p], log[p].session) || Spilled(log[..p], log[p].session))
  }

  lemma LogAppend(log: seq<Event>, e: Event)
    ensures forall s :: Loading(log + [e], s) == match e
              case Began(_, c) => if c.session == s then c.kind.Load? else Loading(log, s)
              case Ended(_, c) => c.session != s && Loading(log, s)
              case _ => Loading(log, s)
    ensures forall s :: Spilled(log + [e], s) == (e == Overflowed(Call(s, Load)) || Spilled(log, s))
    ensures Marked(log) && (e.Handled? ==> (e.replay <==> Loading(log, e.session) || Spilled(log, e.session)))
            ==> Marked(log + [e])
  {
    var now := log + [e];
    assert now[..|now| - 1] == log;
    forall p | 0 <= p < |log| ensures now[..p] == log[..p] && now[p] == log[p] { }
  }

  // ---- Sessions and calls.

  function StatusOf(sessions: map<Session, Status>, s: Session): Status {
    if s in sessions then sessions[s] else Status(false, false, false, false)
  }

  function Mark(sessions: map<Session, Status>, s: Session, status: Status): map<Session, Status> {
    if s == "" then sessions else sessions[s := status]
  }

  function Hold(holder: map<Session, nat>, s: Session, id: nat): map<Session, nat> {
    if s == "" then holder else holder[s := id]
  }

  lemma Marks(sessions: map<Session, Status>, s: Session, status: Status)
    ensures s != "" ==> StatusOf(Mark(sessions, s, status), s) == status
  {
  }

  // While the connection lives: a session is busy exactly for its one pending call, which
  // `holder` names. `spill` is the call that met a full table, if one did.
  ghost predicate Held(pending: map<nat, Call>, sessions: map<Session, Status>, holder: map<Session, nat>,
                       spill: Option<Call>) {
    && (forall s :: s in holder ==> s != "" && holder[s] in pending && pending[holder[s]].session == s)
    && (forall id :: id in pending && pending[id].session != "" ==>
          pending[id].session in holder && holder[pending[id].session] == id)
    && (forall s :: StatusOf(sessions, s).busy <==> s in holder || (spill.Some? && spill.value.session == s != ""))
  }

  // At any time: the mark of a session says whether a load of it is open.
  ghost predicate Replays(sessions: map<Session, Status>, log: seq<Event>, spill: Option<Call>) {
    && (forall s :: StatusOf(sessions, s).replay <==> Loading(log, s) || Spilled(log, s))
    && (forall s :: Spilled(log, s) <==> spill == Some(Call(s, Load)))
  }

  ghost predicate Loads(pending: map<nat, Call>, sessions: map<Session, Status>, holder: map<Session, nat>,
                        spill: Option<Call>)
    requires Held(pending, sessions, holder, spill)
  {
    forall s :: StatusOf(sessions, s).replay <==>
      (s in holder && pending[holder[s]].kind.Load?) || (spill.Some? && spill.value == Call(s, Load) && s != "")
  }

  // What the callers of beginCall pass.
  predicate IsCall(c: Call) {
    (c.kind.Initialize? || c.kind.NewSession?) <==> c.session == ""
  }

  lemma ReplaysBegin(sessions: map<Session, Status>, log: seq<Event>, id: nat, c: Call, status: Status)
    requires Replays(sessions, log, None) && IsCall(c) && (status.replay <==> c.kind.Load?)
    requires !StatusOf(sessions, "").replay
    ensures Replays(Mark(sessions, c.session, status), log + [Began(id, c)], None)
  {
    LogAppend(log, Began(id, c));
  }

  lemma HeldBegin(pending: map<nat, Call>, sessions: map<Session, Status>, holder: map<Session, nat>, id: nat, c: Call,
                  status: Status)
    requires Held(pending, sessions, holder, None) && id !in pending && !StatusOf(sessions, c.session).busy && status.busy
    ensures Held(pending[id := c], Mark(sessions, c.session, status), Hold(holder, c.session, id), None)
  {
    assert c.session !in holder;
  }

  lemma LoadsBegin(pending: map<nat, Call>, sessions: map<Session, Status>, holder: map<Session, nat>, id: nat, c: Call,
                   status: Status)
    requires Held(pending, sessions, holder, None) && Loads(pending, sessions, holder, None)
    requires id !in pending && (status.replay <==> c.kind.Load?)
    requires Held(pending[id := c], Mark(sessions, c.session, status), Hold(holder, c.session, id), None)
    ensures Loads(pending[id := c], Mark(sessions, c.session, status), Hold(holder, c.session, id), None)
    ensures !StatusOf(sessions, "").replay
  {
    assert "" !in holder;
  }

  lemma BeginKeeps(pending: map<nat, Call>, sessions: map<Session, Status>, holder: map<Session, nat>, log: seq<Event>,
                   id: nat, c: Call, status: Status)
    requires Held(pending, sessions, holder, None) && Loads(pending, sessions, holder, None) && Replays(sessions, log, None)
    requires id !in pending && IsCall(c) && !StatusOf(sessions, c.session).busy
    requires status.busy && (status.replay <==> c.kind.Load?)
    ensures var p := pending[id := c];
            var ss := Mark(sessions, c.session, status);
            var h := Hold(holder, c.session, id);
            && Held(p, ss, h, None) && Loads(p, ss, h, None) && Replays(ss, log + [Began(id, c)], None)
  {
    hide Replays, Held;
    HeldBegin(pending, sessions, holder, id, c, status);
    LoadsBegin(pending, sessions, holder, id, c, status);
    ReplaysBegin(sessions, log, id, c, status);
  }

  lemma HeldSpill(pending: map<nat, Call>, sessions: map<Session, Status>, holder: map<Session, nat>, c: Call,
                  status: Status)
    requires Held(pending, sessions, holder, None) && Loads(pending, sessions, holder, None)
    requires !StatusOf(sessions, c.session).busy && status.busy && (status.replay <==> c.kind.Load?)
    ensures var ss := Mark(sessions, c.session, status);
            && Held(pending, ss, holder, Some(c)) && Loads(pending, ss, holder, Some(c)) && c.session !in holder
    ensures !StatusOf(sessions, "").replay && !StatusOf(sessions, c.session).replay
  {
    assert c.session !in holder && "" !in holder;
  }

  lemma ReplaysSpill(sessions: map<Session, Status>, log: seq<Event>, c: Call, status: Status)
    requires Replays(sessions, log, None) && IsCall(c) && (status.replay <==> c.kind.Load?)
    requires !StatusOf(sessions, "").replay && !StatusOf(sessions, c.session).replay
    ensures Replays(Mark(sessions, c.session, status), log + [Overflowed(c)], Some(c))
  {
    LogAppend(log, Overflowed(c));
  }

  // A call that meets a full table leaves its session busy and marked, with nothing pending.
  lemma SpillKeeps(pending: map<nat, Call>, sessions: map<Session, Status>, holder: map<Session, nat>, log: seq<Event>,
                   c: Call, status: Status)
    requires Held(pending, sessions, holder, None) && Loads(pending, sessions, holder, None) && Replays(sessions, log, None)
    requires IsCall(c) && !StatusOf(sessions, c.session).busy
    requires status.busy && (status.replay <==> c.kind.Load?)
    ensures var ss := Mark(sessions, c.session, status);
            && Held(pending, ss, holder, Some(c)) && Loads(pending, ss, holder, Some(c))
                && Replays(ss, log + [Overflowed(c)], Some(c))
            && c.session !in holder
  {
    hide Replays, Held, Mark;
    HeldSpill(pending, sessions, holder, c, status);
    ReplaysSpill(sessions, log, c, status);
  }

  lemma EndKeeps(pending: map<nat, Call>, sessions: map<Session, Status>, holder: map<Session, nat>, log: seq<Event>,
                 spill: Option<Call>, id: nat, status: Status)
    requires Held(pending, sessions, holder, spill) && Loads(pending, sessions, holder, spill) && Replays(sessions, log, spill)
    requires id in pending && !status.busy && !status.replay
    requires spill.Some? ==> spill.value.session !in holder
    ensures var c := pending[id];
            var ss := Mark(sessions, c.session, status);
            var h := holder - {c.session};
            var p := pending - {id};
            && Held(p, ss, h, spill) && Loads(p, ss, h, spill) && Replays(ss, log + [Ended(id, c)], spill)
  {
    LogAppend(log, Ended(id, pending[id]));
  }

  // ---- Requests and their answers.

  // The requests of other sessions, and the identities of those of one session.
  function Others(requests: map<string, Request>, s: Session): map<string, Request> {
    map k | k in requests && requests[k].session != s :: requests[k]
  }

  ghost function Serials(requests: map<string, Request>, s: Session): set<nat> {
    set k | k in requests && requests[k].session == s :: requests[k].serial
  }

  // Where the duty to answer a request lies.
  datatype Place =
    | Unknown                 // no such request yet
    | InTable(key: string)    // it can be answered
    | Taken                   // an Answer took it out of the table and writes it
    | InCancel                // a Cancel took it out and writes it
    | InReader                // the read loop writes it
    | Answered                // it is on the wire
    | Dropped                 // its prompt or the connection ended

  function PlaceOf(places: map<nat, Place>, n: nat): Place {
    if n in places then places[n] else Unknown
  }

  // The table of requests.
  ghost predicate Filed(requests: map<string, Request>, places: map<nat, Place>) {
    && (forall k :: k in requests ==> requests[k].key == k && PlaceOf(places, requests[k].serial) == InTable(k))
    && (forall n: nat :: PlaceOf(places, n).InTable? ==>
          PlaceOf(places, n).key in requests && requests[PlaceOf(places, n).key].serial == n)
  }

  ghost predicate Numbered(places: map<nat, Place>, serials: nat) {
    forall n: nat :: PlaceOf(places, n).Unknown? <==> n >= serials
  }

  ghost predicate TakenBy(answering: map<nat, Answer>, places: map<nat, Place>) {
    forall n: nat :: n in answering <==> PlaceOf(places, n).Taken?
  }

  ghost predicate CancelledBy(rest: map<nat, Request>, places: map<nat, Place>) {
    && (forall n: nat :: n in rest <==> PlaceOf(places, n).InCancel?)
    && (forall n :: n in rest ==> rest[n].serial == n)
  }

  ghost predicate ReadBy(reply: Option<nat>, places: map<nat, Place>) {
    forall n: nat :: reply == Some(n) <==> PlaceOf(places, n).InReader?
  }

  // Each request is on the wire once or not at all.
  ghost predicate WrittenOnce(wire: seq<Frame>, places: map<nat, Place>) {
    forall n: nat :: Written(wire, n) == if PlaceOf(places, n).Answered? then 1 else 0
  }

  // Requests that leave the table without an answer.
  function Drop(places: map<nat, Place>, gone: set<nat>, place: Place): map<nat, Place> {
    map n | n in places :: if n in gone then place else places[n]
  }

  // How many answers to a request were written.
  function Written(wire: seq<Frame>, serial: nat): nat {
    if wire == [] then 0
    else
      Written(wire[..|wire| - 1], serial)
      + if wire[|wire| - 1].Answers? && wire[|wire| - 1].serial == serial then 1 else 0
  }

  // `stamps` holds, for every frame, how many calls had begun when the operation that wrote it
  // began. A cancellation is never followed by a call that began before it.
  ghost predicate InOrder(wire: seq<Frame>, stamps: seq<nat>, next: nat) {
    && |stamps| == |wire|
    && (forall p :: 0 <= p < |wire| ==> stamps[p] <= next && (wire[p].Calls? ==> wire[p].id == stamps[p]))
    && (forall p, q :: 0 <= p < q < |wire| && wire[p].Cancels? && wire[q].Calls? ==> stamps[p] < wire[q].id)
    && (forall p, q :: 0 <= p < q < |wire| && wire[p].Calls? && wire[q].Calls? ==> wire[p].id < wire[q].id)
  }

  // Nothing that was written so far began with call `id` or later.
  ghost predicate Earlier(wire: seq<Frame>, stamps: seq<nat>, id: nat)
    requires |stamps| == |wire|
  {
    forall p :: 0 <= p < |wire| && !wire[p].Answers? ==> stamps[p] < id
  }

  // ---- The parts of the invariant, each with the steps that touch it.

  ghost predicate Table(failed: bool, pending: map<nat, Call>, sessions: map<Session, Status>,
                        holder: map<Session, nat>, spill: Option<Call>, log: seq<Event>, next: nat) {
    && (!failed ==> Held(pending, sessions, holder, spill) && Loads(pending, sessions, holder, spill))
    && Replays(sessions, log, spill) && Marked(log)
    && (forall id :: id in pending ==> 0 < id <= next) && |pending| <= MAX_PENDING
    && (spill.Some? ==> spill.value.session !in holder)
  }

  lemma TableBegin(pending: map<nat, Call>, sessions: map<Session, Status>, holder: map<Session, nat>, log: seq<Event>,
                   next: nat, c: Call, status: Status)
    requires Table(false, pending, sessions, holder, None, log, next) && |pending| < MAX_PENDING
    requires IsCall(c) && !StatusOf(sessions, c.session).busy && status.busy && (status.replay <==> c.kind.Load?)
    ensures Table(false, pending[next + 1 := c], Mark(sessions, c.session, status),
                  Hold(holder, c.session, next + 1), None, log + [Began(next + 1, c)], next + 1)
  {
    BeginKeeps(pending, sessions, holder, log, next + 1, c, status);
    LogAppend(log, Began(next + 1, c));
    assert pending[next + 1 := c].Keys == pending.Keys + {next + 1};
  }

  lemma TableSpill(pending: map<nat, Call>, sessions: map<Session, Status>, holder: map<Session, nat>, log: seq<Event>,
                   next: nat, c: Call, status: Status)
    requires Table(false, pending, sessions, holder, None, log, next)
    requires IsCall(c) && !StatusOf(sessions, c.session).busy && status.busy && (status.replay <==> c.kind.Load?)
    ensures Table(false, pending, Mark(sessions, c.session, status), holder, Some(c),
                  log + [Overflowed(c)], next)
  {
    SpillKeeps(pending, sessions, holder, log, c, status);
    LogAppend(log, Overflowed(c));
  }

  lemma TableEnd(failed: bool, pending: map<nat, Call>, sessions: map<Session, Status>, holder: map<Session, nat>,
                 spill: Option<Call>, log: seq<Event>, next: nat, id: nat, status: Status)
    requires Table(failed, pending, sessions, holder, spill, log, next) && !failed
    requires id in pending && !status.busy && !status.replay
    ensures var c := pending[id];
            Table(failed, pending - {id}, Mark(sessions, c.session, status),
                  holder - {c.session}, spill, log + [Ended(id, c)], next)
  {
    EndKeeps(pending, sessions, holder, log, spill, id, status);
    LogAppend(log, Ended(id, pending[id]));
    assert (pending - {id}).Keys == pending.Keys - {id};
  }

  lemma TableHandle(failed: bool, pending: map<nat, Call>, sessions: map<Session, Status>, holder: map<Session, nat>,
                    spill: Option<Call>, log: seq<Event>, next: nat, s: Session)
    requires Table(failed, pending, sessions, holder, spill, log, next)
    ensures Table(failed, pending, sessions, holder, spill, log + [Handled(s, StatusOf(sessions, s).replay)], next)
  {
    LogAppend(log, Handled(s, StatusOf(sessions, s).replay));
  }

  // Only the marks of a session matter to the table.
  lemma TableCancelled(failed: bool, pending: map<nat, Call>, sessions: map<Session, Status>, holder: map<Session, nat>,
                       spill: Option<Call>, log: seq<Event>, next: nat, s: Session)
    requires Table(failed, pending, sessions, holder, spill, log, next)
    ensures Table(failed, pending, sessions[s := StatusOf(sessions, s).(cancelled := true)], holder, spill, log, next)
  {
    var ss := sessions[s := StatusOf(sessions, s).(cancelled := true)];
    forall t ensures StatusOf(ss, t).busy == StatusOf(sessions, t).busy
        && StatusOf(ss, t).replay == StatusOf(sessions, t).replay {
    }
  }

  lemma TableFail(pending: map<nat, Call>, sessions: map<Session, Status>, holder: map<Session, nat>,
                  spill: Option<Call>, log: seq<Event>, next: nat)
    requires Table(false, pending, sessions, holder, spill, log, next)
    ensures Table(true, map[], sessions, holder, spill, log, next)
  {
  }

  // Who owes which answer.
  ghost predicate Duties(requests: map<string, Request>, places: map<nat, Place>, answering: map<nat, Answer>,
                         rest: map<nat, Request>, reply: Option<nat>, wire: seq<Frame>, serials: nat) {
    && Filed(requests, places) && Numbered(places, serials) && TakenBy(answering, places)
    && CancelledBy(rest, places) && ReadBy(reply, places) && WrittenOnce(wire, places)
  }

  function Move(places: map<nat, Place>, n: nat, place: Place): map<nat, Place> {
    places[n := place]
  }

  lemma Moved(places: map<nat, Place>, n: nat, place: Place)
    ensures forall m: nat :: PlaceOf(Move(places, n, place), m) == if m == n then place else PlaceOf(places, m)
  {
    forall m: nat ensures PlaceOf(Move(places, n, place), m) == if m == n then place else PlaceOf(places, m) {
    }
  }

  lemma Gone(places: map<nat, Place>, gone: set<nat>, place: Place)
    requires gone <= places.Keys
    ensures forall m: nat :: PlaceOf(Drop(places, gone, place), m) == if m in gone then place else PlaceOf(places, m)
  {
  }

  // A new request enters the table.
  lemma DutyFile(requests: map<string, Request>, places: map<nat, Place>, answering: map<nat, Answer>,
                 rest: map<nat, Request>, reply: Option<nat>, wire: seq<Frame>, serials: nat, r: Request)
    requires Duties(requests, places, answering, rest, reply, wire, serials)
    requires r.serial == serials && r.key !in requests
    ensures Duties(requests[r.key := r], Move(places, serials, InTable(r.key)), answering, rest, reply, wire, serials + 1)
  {
    Moved(places, serials, InTable(r.key));
  }

  // The read loop answers a new request itself.
  lemma DutyDirect(requests: map<string, Request>, places: map<nat, Place>, answering: map<nat, Answer>,
                   rest: map<nat, Request>, wire: seq<Frame>, serials: nat)
    requires Duties(requests, places, answering, rest, None, wire, serials)
    ensures Duties(requests, Move(places, serials, InReader), answering, rest, Some(serials), wire, serials + 1)
  {
    Moved(places, serials, InReader);
  }

  lemma FiledWithout(requests: map<string, Request>, places: map<nat, Place>, k: string, place: Place)
    requires Filed(requests, places) && k in requests && !place.InTable?
    ensures Filed(requests - {k}, Move(places, requests[k].serial, place))
  {
    Moved(places, requests[k].serial, place);
    forall j | j in requests && j != k ensures requests[j].serial != requests[k].serial {
      assert PlaceOf(places, requests[j].serial) == InTable(j);
      assert PlaceOf(places, requests[k].serial) == InTable(k);
    }
  }

  // The request leaves the table: an Answer, the read loop, a Cancel or nobody takes it.
  lemma DutyTake(requests: map<string, Request>, places: map<nat, Place>, answering: map<nat, Answer>,
                 rest: map<nat, Request>, reply: Option<nat>, wire: seq<Frame>, serials: nat, k: string, answer: Answer)
    requires Duties(requests, places, answering, rest, reply, wire, serials) && k in requests
    ensures Duties(requests - {k}, Move(places, requests[k].serial, Taken), answering[requests[k].serial := answer],
            rest, reply, wire, serials)
  {
    assert PlaceOf(places, requests[k].serial) == InTable(k);
    FiledWithout(requests, places, k, Taken);
    Moved(places, requests[k].serial, Taken);
  }

  lemma DutyTakeBack(requests: map<string, Request>, places: map<nat, Place>, answering: map<nat, Answer>,
                     rest: map<nat, Request>, wire: seq<Frame>, serials: nat, k: string)
    requires Duties(requests, places, answering, rest, None, wire, serials) && k in requests
    ensures Duties(requests - {k}, Move(places, requests[k].serial, InReader), answering, rest,
            Some(requests[k].serial), wire, serials)
  {
    assert PlaceOf(places, requests[k].serial) == InTable(k);
    FiledWithout(requests, places, k, InReader);
    Moved(places, requests[k].serial, InReader);
  }

  lemma DutyTakeAway(requests: map<string, Request>, places: map<nat, Place>, answering: map<nat, Answer>,
                     rest: map<nat, Request>, reply: Option<nat>, wire: seq<Frame>, serials: nat, k: string)
    requires Duties(requests, places, answering, rest, reply, wire, serials) && k in requests
    ensures Duties(requests - {k}, Move(places, requests[k].serial, InCancel), answering,
            rest[requests[k].serial := requests[k]], reply, wire, serials)
    ensures Duties(requests - {k}, Move(places, requests[k].serial, Dropped), answering, rest, reply, wire, serials)
  {
    assert PlaceOf(places, requests[k].serial) == InTable(k);
    FiledWithout(requests, places, k, InCancel);
    FiledWithout(requests, places, k, Dropped);
    Moved(places, requests[k].serial, InCancel);
    Moved(places, requests[k].serial, Dropped);
  }

  // A taken answer reaches the wire, or is lost with the connection.
  lemma DutyWrite(requests: map<string, Request>, places: map<nat, Place>, answering: map<nat, Answer>,
                  rest: map<nat, Request>, reply: Option<nat>, wire: seq<Frame>, serials: nat, n: nat, answer: Answer)
    requires Duties(requests, places, answering, rest, reply, wire, serials) && n in answering
    ensures Duties(requests, Move(places, n, Answered), answering - {n}, rest, reply, wire + [Answers(n, answer)], serials)
    ensures Duties(requests, Move(places, n, Dropped), answering - {n}, rest, reply, wire, serials)
  {
    Moved(places, n, Answered);
    Moved(places, n, Dropped);
    assert PlaceOf(places, n).Taken? || PlaceOf(places, n).InReader?;
  }

  lemma DutyReply(requests: map<string, Request>, places: map<nat, Place>, answering: map<nat, Answer>,
                  rest: map<nat, Request>, wire: seq<Frame>, serials: nat, n: nat, answer: Answer)
    requires Duties(requests, places, answering, rest, Some(n), wire, serials)
    ensures Duties(requests, Move(places, n, Answered), answering, rest, None, wire + [Answers(n, answer)], serials)
    ensures Duties(requests, Move(places, n, Dropped), answering, rest, None, wire, serials)
  {
    Moved(places, n, Answered);
    Moved(places, n, Dropped);
    assert PlaceOf(places, n).Taken? || PlaceOf(places, n).InReader?;
  }

  lemma DutyCancel(requests: map<string, Request>, places: map<nat, Place>, answering: map<nat, Answer>,
                   rest: map<nat, Request>, reply: Option<nat>, wire: seq<Frame>, serials: nat, n: nat)
    requires Duties(requests, places, answering, rest, reply, wire, serials) && n in rest
    ensures Duties(requests, Move(places, n, Answered), answering, rest - {n}, reply, wire + [Answers(n, Declined)], serials)
  {
    Moved(places, n, Answered);
    assert PlaceOf(places, n).InCancel?;
  }

  // A cancellation that cannot be written gives up what it took.
  lemma DutyAbandon(requests: map<string, Request>, places: map<nat, Place>, answering: map<nat, Answer>,
                    rest: map<nat, Request>, reply: Option<nat>, wire: seq<Frame>, serials: nat)
    requires Duties(requests, places, answering, rest, reply, wire, serials)
    ensures Duties(requests, Drop(places, rest.Keys, Dropped), answering, map[], reply, wire, serials)
  {
    forall n | n in rest ensures n in places { assert PlaceOf(places, n).InCancel?; }
    Gone(places, rest.Keys, Dropped);
  }

  lemma DutyFrame(requests: map<string, Request>, places: map<nat, Place>, answering: map<nat, Answer>,
                  rest: map<nat, Request>, reply: Option<nat>, wire: seq<Frame>, serials: nat, f: Frame)
    requires Duties(requests, places, answering, rest, reply, wire, serials) && !f.Answers?
    ensures Duties(requests, places, answering, rest, reply, wire + [f], serials)
  {
  }

  ghost function Tabled(places: map<nat, Place>): set<nat> {
    set n | n in places && places[n].InTable?
  }

  lemma DutyFail(requests: map<string, Request>, places: map<nat, Place>, answering: map<nat, Answer>,
                 rest: map<nat, Request>, reply: Option<nat>, wire: seq<Frame>, serials: nat)
    requires Duties(requests, places, answering, rest, reply, wire, serials)
    ensures Duties(map[], Drop(places, Tabled(places), Dropped), answering, rest, reply, wire, serials)
  {
    forall n: nat ensures n in Tabled(places) <==> PlaceOf(places, n).InTable? { }
    Gone(places, Tabled(places), Dropped);
  }

  // ---- The order of frames.

  lemma OrderAnswer(wire: seq<Frame>, stamps: seq<nat>, next: nat, f: Frame)
    requires InOrder(wire, stamps, next) && !f.Calls?
    ensures InOrder(wire + [f], stamps + [next], next)
    ensures f.Answers? && Earlier(wire, stamps, next) ==> Earlier(wire + [f], stamps + [next], next)
  {
  }

  lemma OrderCall(wire: seq<Frame>, stamps: seq<nat>, next: nat, c: Call)
    requires InOrder(wire, stamps, next) && Earlier(wire, stamps, next)
    ensures InOrder(wire + [Calls(next, c)], stamps + [next], next)
  {
  }

  lemma OrderNext(wire: seq<Frame>, stamps: seq<nat>, next: nat)
    requires InOrder(wire, stamps, next)
    ensures InOrder(wire, stamps, next + 1) && Earlier(wire, stamps, next + 1)
  {
  }

  // ---- What a cancellation has taken out of the table.

  ghost predicate Settling(drained: set<nat>, rest: map<nat, Request>, places: map<nat, Place>) {
    forall n :: n in drained ==> n in rest || PlaceOf(places, n).Answered?
  }

  lemma SettlingMove(drained: set<nat>, rest: map<nat, Request>, places: map<nat, Place>, n: nat, place: Place)
    requires Settling(drained, rest, places) && n !in rest && !PlaceOf(places, n).Answered?
    ensures Settling(drained, rest, Move(places, n, place))
  {
    Moved(places, n, place);
  }

  lemma SettlingDrop(drained: set<nat>, rest: map<nat, Request>, places: map<nat, Place>, gone: set<nat>)
    requires Settling(drained, rest, places) && gone <= places.Keys
    requires forall n :: n in gone ==> n !in rest && !PlaceOf(places, n).Answered?
    ensures Settling(drained, rest, Drop(places, gone, Dropped))
  {
    Gone(places, gone, Dropped);
  }

  lemma SettlingAnswer(drained: set<nat>, rest: map<nat, Request>, places: map<nat, Place>, n: nat)
    requires Settling(drained, rest, places) && n in rest
    ensures Settling(drained, rest - {n}, Move(places, n, Answered))
  {
    Moved(places, n, Answered);
  }

  lemma NotTabled(requests: map<string, Request>, places: map<nat, Place>, answering: map<nat, Answer>,
                  rest: map<nat, Request>, reply: Option<nat>, wire: seq<Frame>, serials: nat)
    requires Duties(requests, places, answering, rest, reply, wire, serials)
    ensures forall n :: n in Tabled(places) ==> n in places && n !in rest && !PlaceOf(places, n).Answered?
  {
    forall n | n in Tabled(places) ensures n !in rest { assert PlaceOf(places, n).InTable?; }
  }

  // Requests of cancelled sessions are kept apart from those given to the user.
  ghost predicate Sorted(refused: set<nat>, given: set<nat>, serials: nat) {
    refused !! given && forall n :: n in refused + given ==> n < serials
  }

  lemma SortedNew(refused: set<nat>, given: set<nat>, serials: nat)
    requires Sorted(refused, given, serials)
    ensures Sorted(refused, given, serials + 1) && Sorted(refused + {serials}, given, serials + 1)
    ensures serials !in refused && serials !in given
  {
    assert serials !in refused + given;
  }

  lemma DrainedWritten(drained: set<nat>, requests: map<string, Request>, places: map<nat, Place>,
                       answering: map<nat, Answer>, reply: Option<nat>, wire: seq<Frame>, serials: nat)
    requires Settling(drained, map[], places) && Duties(requests, places, answering, map[], reply, wire, serials)
    ensures forall n :: n in drained ==> Written(wire, n) == 1
  {
    forall n | n in drained ensures Written(wire, n) == 1 { assert PlaceOf(places, n).Answered?; }
  }

  // ---- What the invariant says of sessions.

  lemma EmptyNotBusy(pending: map<nat, Call>, sessions: map<Session, Status>, holder: map<Session, nat>,
                     log: seq<Event>, next: nat)
    requires Table(false, pending, sessions, holder, None, log, next)
    ensures !StatusOf(sessions, "").busy
  {
  }

  // A living connection has at most one pending call per session, and that session is busy.
  lemma OnePending(pending: map<nat, Call>, sessions: map<Session, Status>, holder: map<Session, nat>,
                   spill: Option<Call>, log: seq<Event>, next: nat, a: nat, b: nat)
    requires Table(false, pending, sessions, holder, spill, log, next) && a in pending && b in pending
    requires pending[a].session == pending[b].session != ""
    ensures a == b && StatusOf(sessions, pending[a].session).busy
    ensures StatusOf(sessions, pending[a].session).replay <==>
              pending[a].kind.Load? || spill == Some(Call(pending[a].session, Load))
  {
  }
}
