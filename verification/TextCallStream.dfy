// textCallStream: the guarded stream as its reader sees it (kit/loop/text_calls.go).
module TextCallStream {
  import opened Sequences
  import opened Wrappers
  import opened TextGuard

  function Entry<T>(m: map<int, T>, i: int): Option<T> {
    if i in m then Some(m[i]) else None
  }

  lemma DeltaAppend(es: seq<Event>, e: Event, i: int)
    ensures DeltaText(es + [e], i) == if e.Delta? && e.index == i then DeltaText(es, i) + e.text else DeltaText(es, i)
  {
    assert (es + [e])[..|es + [e]| - 1] == es;
    assert DeltaText(es, i) + "" == DeltaText(es, i);
  }

  lemma ItemAppend(es: seq<Event>, e: Event, i: int)
    ensures ItemText(es + [e], i)
            == if e.ItemDone? && e.index == i && e.item.Item? && e.item.speech then Some(e.item.text) else ItemText(es, i)
  {
    assert (es + [e])[..|es + [e]| - 1] == es;
  }

  function AddDelta(deltas: map<int, string>, index: int, text: string): map<int, string> {
    deltas[index := (if index in deltas then deltas[index] else "") + text]
  }

  function AddText(texts: map<int, string>, index: int, item: Item): map<int, string>
    requires item.Item?
  {
    if item.speech then texts[index := item.text] else texts
  }

  lemma TablesDelta(es: seq<Event>, deltas: map<int, string>, texts: map<int, string>, e: Event)
    requires Tables(es, deltas, texts) && e.Delta?
    ensures Tables(es + [e], AddDelta(deltas, e.index, e.text), texts)
  {
    hide DeltaText, ItemText;
    forall i { DeltaAppend(es, e, i); }
    forall i { ItemAppend(es, e, i); }
  }

  lemma TablesItem(es: seq<Event>, deltas: map<int, string>, texts: map<int, string>, e: Event)
    requires Tables(es, deltas, texts) && e.ItemDone? && e.item.Item?
    ensures Tables(es + [e], deltas, AddText(texts, e.index, e.item))
  {
    hide DeltaText, ItemText;
    forall i { DeltaAppend(es, e, i); }
    forall i { ItemAppend(es, e, i); }
  }

  lemma TablesOther(es: seq<Event>, deltas: map<int, string>, texts: map<int, string>, e: Event)
    requires Tables(es, deltas, texts) && !e.Delta? && !e.ItemDone?
    ensures Tables(es + [e], deltas, texts)
  {
    hide DeltaText, ItemText;
    forall i { DeltaAppend(es, e, i); }
    forall i { ItemAppend(es, e, i); }
  }

  lemma TopAppend(es: seq<Event>, e: Event)
    ensures Top(es + [e]) == Max(Top(es), e.index)
  {
    assert (es + [e])[..|es + [e]| - 1] == es;
  }

  // Which indexes had their item, and whether the response was closed.
  ghost predicate Marks(es: seq<Event>, done: set<int>, terminal: bool) {
    && (forall i :: Items(es, i) == if i in done then 1 else 0)
    && (terminal <==> es != [] && es[|es| - 1].Terminal?)
  }

  // The guard's record of the response it is reading.
  datatype Record = Record(
    sent: seq<Event>, pending: seq<Event>, held: bool, acted: bool, deltas: map<int, string>, texts: map<int, string>,
    maxIndex: int, done: set<int>, terminal: bool)

  function Fresh(): Record {
    Record([], [], false, false, map[], map[], -1, {}, false)
  }

  ghost predicate Records(r: Record, read: seq<Event>) {
    Sorted(r.sent, r.pending, read, r.held, r.acted) && Knows(read, r.deltas, r.texts, r.maxIndex, r.done, r.terminal)
  }

  ghost predicate Knows(read: seq<Event>, deltas: map<int, string>, texts: map<int, string>, maxIndex: int,
                        done: set<int>, terminal: bool) {
    Tables(read, deltas, texts) && maxIndex == Top(read) && Marks(read, done, terminal)
  }

  lemma KnowsDelta(read: seq<Event>, deltas: map<int, string>, texts: map<int, string>, maxIndex: int, done: set<int>,
                   e: Event)
    requires Knows(read, deltas, texts, maxIndex, done, false) && e.Delta?
    ensures Knows(read + [e], AddDelta(deltas, e.index, e.text), texts, Max(maxIndex, e.index), done, false)
  {
    hide Tables, Items, Top;
    TablesDelta(read, deltas, texts, e);
    ItemsAppend(read, e);
    TopAppend(read, e);
  }

  lemma KnowsItem(read: seq<Event>, deltas: map<int, string>, texts: map<int, string>, maxIndex: int, done: set<int>,
                  e: Event)
    requires Knows(read, deltas, texts, maxIndex, done, false) && e.ItemDone? && e.item.Item? && e.index !in done
    ensures Knows(read + [e], deltas, AddText(texts, e.index, e.item), Max(maxIndex, e.index), done + {e.index}, false)
  {
    hide Tables, Items, Top;
    TablesItem(read, deltas, texts, e);
    ItemsAppend(read, e);
    TopAppend(read, e);
  }

  lemma KnowsOther(read: seq<Event>, deltas: map<int, string>, texts: map<int, string>, maxIndex: int, done: set<int>,
                   e: Event)
    requires Knows(read, deltas, texts, maxIndex, done, false) && !e.Delta? && !e.ItemDone?
    ensures Knows(read + [e], deltas, texts, Max(maxIndex, e.index), done, e.Terminal?)
  {
    hide Tables, Items, Top;
    TablesOther(read, deltas, texts, e);
    ItemsAppend(read, e);
    TopAppend(read, e);
  }

  function WithDelta(r: Record, index: int, text: string): Record {
    r.(deltas := AddDelta(r.deltas, index, text), maxIndex := Max(r.maxIndex, index))
  }

  lemma RecordsHeldDelta(r: Record, read: seq<Event>, index: int, text: string)
    requires Records(r, read) && !r.terminal && r.held
    ensures Records(WithDelta(r, index, text).(pending := r.pending + [Delta(index, text)]), read + [Delta(index, text)])
  {
    hide Sorted, Knows;
    KnowsDelta(read, r.deltas, r.texts, r.maxIndex, r.done, Delta(index, text));
    Hold(r.sent, r.pending, read, r.held, r.acted, Delta(index, text));
  }

  lemma RecordsClearDelta(r: Record, read: seq<Event>, index: int, text: string)
    requires Records(r, read) && !r.terminal && !r.held && !Marked(text)
    ensures Records(WithDelta(r, index, text).(sent := r.sent + [Delta(index, text)]), read + [Delta(index, text)])
  {
    KnowsDelta(read, r.deltas, r.texts, r.maxIndex, r.done, Delta(index, text));
    Deliver(r.sent, r.pending, read, r.acted, Delta(index, text));
  }

  function WithCut(r: Record, index: int, text: string, at: nat): Record
    requires at <= |text|
  {
    WithDelta(r, index, text).(sent := if at > 0 then r.sent + [Delta(index, text[..at])] else r.sent,
                               pending := r.pending + [Delta(index, text[at..])], held := true)
  }

  lemma RecordsCutDelta(r: Record, read: seq<Event>, index: int, text: string, at: nat)
    requires Records(r, read) && !r.terminal && !r.held && at <= |text| && !Marked(text[..at])
    ensures Records(WithCut(r, index, text, at), read + [Delta(index, text)])
  {
    KnowsDelta(read, r.deltas, r.texts, r.maxIndex, r.done, Delta(index, text));
    Cut(r.sent, r.pending, read, r.acted, index, text, at);
  }

  // A tool call goes out at once unless text is held; anything else waits.
  function Place(r: Record, e: Event): Record {
    if r.held || !IsNative(e) then r.(pending := r.pending + [e]) else r.(sent := r.sent + [e])
  }

  lemma PlaceSorted(r: Record, read: seq<Event>, e: Event)
    requires Sorted(r.sent, r.pending, read, r.held, r.acted) && (e.ItemDone? || e.CallReady?) && (IsNative(e) ==> r.acted)
    ensures Sorted(Place(r, e).sent, Place(r, e).pending, read + [e], r.held, r.acted)
  {
    if r.held || !IsNative(e) {
      Hold(r.sent, r.pending, read, r.held, r.acted, e);
    } else {
      Deliver(r.sent, r.pending, read, r.acted, e);
    }
  }

  function WithItem(r: Record, index: int, item: Item): Record
    requires item.Item?
  {
    r.(done := r.done + {index}, acted := r.acted || item.native, maxIndex := Max(r.maxIndex, index),
       texts := AddText(r.texts, index, item))
  }

  lemma RecordsItem(r: Record, read: seq<Event>, index: int, item: Item)
    requires Records(r, read) && !r.terminal && index !in r.done && item.Item?
    ensures Records(Place(WithItem(r, index, item), ItemDone(index, item)), read + [ItemDone(index, item)])
  {
    KnowsItem(read, r.deltas, r.texts, r.maxIndex, r.done, ItemDone(index, item));
    PlaceSorted(WithItem(r, index, item), read, ItemDone(index, item));
  }

  function WithCall(r: Record, index: int): Record {
    r.(acted := true, maxIndex := Max(r.maxIndex, index))
  }

  lemma RecordsCall(r: Record, read: seq<Event>, e: Event)
    requires Records(r, read) && !r.terminal && e.CallReady?
    ensures Records(Place(WithCall(r, e.index), e), read + [e])
  {
    KnowsOther(read, r.deltas, r.texts, r.maxIndex, r.done, e);
    PlaceSorted(WithCall(r, e.index), read, e);
  }

  lemma RecordsTerminal(r: Record, read: seq<Event>, e: Event)
    requires Records(r, read) && !r.terminal && e.Terminal?
    ensures Records(r.(terminal := true, maxIndex := Max(r.maxIndex, e.index)), read + [e])
  {
    KnowsOther(read, r.deltas, r.texts, r.maxIndex, r.done, e);
    TerminalRead(r.sent, r.pending, read, r.held, r.acted, e);
  }

  // ---- A response at its end, and one that is abandoned.

  // The whole response was read, and what was and what will be delivered of it completes it.
  ghost predicate Settled(source: Source, detect: string -> Detection, whole: seq<Event>, acted: bool) {
    && !source.breaks && source.events != [] && source.events[|source.events| - 1].Terminal?
    && Judged(detect, whole, source.events, acted) && NoTwice(whole)
  }

  // The response could not be used, called no tool, and only text from before any marker was
  // delivered of it.
  ghost predicate Abandoned(source: Source, detect: string -> Detection, first: seq<Event>) {
    && Verdict(detect, Spoken(source.events, Top(source.events))).Defective? && Only(source.events, Native) == []
    && Harmless(first) && Chars(first) <= Chars(source.events)
  }

  lemma SettledByRelease(source: Source, detect: string -> Detection, r: Record)
    requires Records(r, source.events) && r.terminal && !source.breaks
    requires r.acted || Verdict(detect, Spoken(source.events, Top(source.events))).Clean?
    ensures Settled(source, detect, r.sent + (r.pending + [Terminal(0)]), r.acted)
  {
    Released(r.sent, r.pending, source.events, r.held, r.acted);
  }

  lemma SettledByCall(source: Source, detect: string -> Detection, r: Record, call: Call)
    requires Records(r, source.events) && r.terminal && !source.breaks && !r.acted
    requires Verdict(detect, Spoken(source.events, Top(source.events))) == Usable(call.name, call.arguments)
    ensures Settled(source, detect, r.sent + Rewritten(r.maxIndex + 1, call), r.acted)
  {
    Synthesized(r.sent, r.pending, source.events, r.held, call);
    OneItem(r.sent, r.maxIndex + 1, call);
  }

  lemma OneItem(es: seq<Event>, index: int, call: Call)
    requires Harmless(es)
    ensures NoTwice(es + Rewritten(index, call))
  {
    HarmlessItems(es);
    forall i ensures Items(es + Rewritten(index, call), i) <= 1 {
      ItemsJoin(es, Rewritten(index, call), i);
      RewrittenItems(index, call, i);
    }
  }

  lemma RewrittenItems(index: int, call: Call, i: int)
    ensures Items(Rewritten(index, call), i) == if i == index then 1 else 0
  {
    var item, ready, last := ItemDone(index, Item(true, false, "", call.id)), CallReady(index, call), Terminal(0);
    ItemsAppend([], item);
    ItemsAppend([item], ready);
    ItemsAppend([item, ready], last);
    assert [] + [item] == [item] && [item] + [ready] == [item, ready] && [item, ready] + [last] == [item, ready, last];
  }

  lemma {:induction false} HarmlessItems(es: seq<Event>)
    requires Harmless(es)
    ensures forall i :: Items(es, i) == 0
  {
    if es != [] { HarmlessItems(es[..|es| - 1]); }
  }

  lemma AbandonedOf(source: Source, detect: string -> Detection, r: Record)
    requires Records(r, source.events) && !r.acted && Verdict(detect, Spoken(source.events, Top(source.events))).Defective?
    ensures Abandoned(source, detect, r.sent)
  {
    NativeListed(r.sent);
  }

  lemma RecordsText(r: Record, read: seq<Event>)
    requires Records(r, read)
    ensures TextUpTo(r.deltas, r.texts, r.maxIndex) == Spoken(read, Top(read))
  {
    TablesText(read, r.deltas, r.texts, r.maxIndex);
  }

  // What one event does to the guard's record; None for an event that the response must not
  // have.
  function AfterDelta(r: Record, index: int, text: string): Record {
    if r.held then WithDelta(r, index, text).(pending := r.pending + [Delta(index, text)])
    else
      match MarkerAt(text)
      case None => WithDelta(r, index, text).(sent := r.sent + [Delta(index, text)])
      case Some(at) => WithCut(r, index, text, at)
  }

  function Absorb(r: Record, e: Event): Option<Record> {
    if r.terminal || e.index < 0 then None
    else
      match e
      case Delta(index, text) => Some(AfterDelta(r, index, text))
      case ItemDone(index, item) =>
        if index in r.done || item.Malformed? then None else Some(Place(WithItem(r, index, item), e))
      case CallReady(index, _) => Some(Place(WithCall(r, index), e))
      case Terminal(index) => Some(r.(terminal := true, maxIndex := Max(r.maxIndex, index)))
      case Unknown(_) => None
  }

  // The reply that tells the reader what was added to `sent`.
  function Gives(before: seq<Event>, sent: seq<Event>): Option<Reply> {
    if |sent| == |before| + 1 then Some(Got(sent[|before|])) else None
  }

  lemma AbsorbKeeps(r: Record, read: seq<Event>, e: Event)
    requires Records(r, read) && Absorb(r, e).Some?
    ensures Records(Absorb(r, e).value, read + [e])
  {
    match e
    case Delta(index, text) =>
      if r.held {
        RecordsHeldDelta(r, read, index, text);
      } else {
        match MarkerAt(text)
        case None => RecordsClearDelta(r, read, index, text);
        case Some(at) => RecordsCutDelta(r, read, index, text, at);
      }
    case ItemDone(index, item) => RecordsItem(r, read, index, item);
    case CallReady(_, _) => RecordsCall(r, read, e);
    case Terminal(_) => RecordsTerminal(r, read, e);
  }

  // An event that a response must not have: an index below zero, an unknown kind, an item that
  // cannot be read or whose index had one, or anything after Terminal.
  predicate Misplaced(es: seq<Event>, k: nat)
    requires k < |es|
  {
    || es[k].index < 0 || es[k].Unknown? || (es[k].ItemDone? && es[k].item.Malformed?)
    || (es[k].ItemDone? && exists j :: 0 <= j < k && es[j].ItemDone? && es[j].index == es[k].index)
    || exists j :: 0 <= j < k && es[j].Terminal?
  }

  // An event adds at most one event to what was delivered.
  lemma AbsorbGives(r: Record, e: Event)
    requires Absorb(r, e).Some?
    ensures var sent := Absorb(r, e).value.sent;
            match Gives(r.sent, sent)
            case None => sent == r.sent
            case Some(reply) => reply.Got? && sent == r.sent + [reply.event]
  {
  }

  // ---- The whole guard.

  // `first` is what was delivered of an abandoned response.
  datatype Guard = Guard(opens: nat, source: Source, pos: nat, record: Record, ready: seq<Event>, ended: bool,
                         retried: bool, first: seq<Event>)

  ghost predicate Good(script: nat -> Opened, detect: string -> Detection, g: Guard) {
    Attempted(script, detect, g.opens, g.source, g.retried, g.first) && Answering(detect, g)
  }

  // At most two streams were opened, the second one after a response that was abandoned.
  ghost predicate Attempted(script: nat -> Opened, detect: string -> Detection, opens: nat, source: Source,
                            retried: bool, first: seq<Event>) {
    && 1 <= opens <= 2 && (retried <==> opens == 2) && Opening(script, opens - 1) == Opened(source)
    && if retried then Opening(script, 0).Opened? && Abandoned(Opening(script, 0).source, detect, first) else first == []
  }

  ghost predicate Answering(detect: string -> Detection, g: Guard) {
    if g.ended then Settled(g.source, detect, g.record.sent + g.ready, g.record.acted)
    else g.pos <= |g.source.events| && g.ready == [] && Records(g.record, g.source.events[..g.pos])
  }

  datatype Sentence = Release | Rewrite(name: string, arguments: string) | Retry | GiveUp

  function Decide(detect: string -> Detection, g: Guard): Sentence {
    var r := g.record;
    var verdict := Verdict(detect, TextUpTo(r.deltas, r.texts, r.maxIndex));
    if r.acted || verdict.Clean? then Release
    else if verdict.Usable? then Rewrite(verdict.name, verdict.arguments)
    else if g.retried then GiveUp
    else Retry
  }

  // A defective response leaves nothing that waits.
  function Dropped(g: Guard): Guard {
    g.(record := g.record.(pending := []))
  }

  function Concluded(g: Guard, ready: seq<Event>): Guard {
    g.(ready := ready, ended := true)
  }

  function Again(g: Guard, next: Source): Guard {
    Guard(2, next, 0, Fresh(), [], g.ended, true, g.first + g.record.sent)
  }

  lemma GoodTake(detect: string -> Detection, g: Guard, next: Record)
    requires Answering(detect, g) && !g.ended && g.pos < |g.source.events|
    requires Absorb(g.record, g.source.events[g.pos]) == Some(next)
    ensures Answering(detect, g.(pos := g.pos + 1, record := next))
  {
    hide Records, Absorb;
    AbsorbKeeps(g.record, g.source.events[..g.pos], g.source.events[g.pos]);
    TakeOne(g.source.events, g.pos);
  }

  // The whole response has been read.
  ghost predicate AtEnd(g: Guard) {
    !g.ended && g.pos == |g.source.events| && g.record.terminal && !g.source.breaks
  }

  lemma AllRead(detect: string -> Detection, g: Guard)
    requires Answering(detect, g) && AtEnd(g)
    ensures Records(g.record, g.source.events)
    ensures TextUpTo(g.record.deltas, g.record.texts, g.record.maxIndex) == Spoken(g.source.events, Top(g.source.events))
  {
    assert g.source.events[..g.pos] == g.source.events;
    RecordsText(g.record, g.source.events);
  }

  lemma GoodRelease(detect: string -> Detection, g: Guard)
    requires Answering(detect, g) && AtEnd(g) && Decide(detect, g).Release?
    ensures Answering(detect, Concluded(g, g.record.pending + [Terminal(0)]))
  {
    AllRead(detect, g);
    SettledByRelease(g.source, detect, g.record);
  }

  lemma GoodRewrite(detect: string -> Detection, g: Guard, call: Call)
    requires Answering(detect, g) && AtEnd(g) && Decide(detect, g) == Rewrite(call.name, call.arguments)
    ensures Answering(detect, Concluded(Dropped(g), Rewritten(g.record.maxIndex + 1, call)))
  {
    AllRead(detect, g);
    SettledByCall(g.source, detect, g.record, call);
  }

  lemma GoodRetry(script: nat -> Opened, detect: string -> Detection, g: Guard)
    requires Good(script, detect, g) && AtEnd(g) && Decide(detect, g).Retry? && Opening(script, 1).Opened?
    ensures Good(script, detect, Again(g, Opening(script, 1).source))
  {
    hide Abandoned, Records;
    var next := Again(g, Opening(script, 1).source);
    assert next.first == g.record.sent;
    AnswersFresh(detect, next);
    AbandonedHere(detect, g);
    hide Answering;
    assert Attempted(script, detect, 2, next.source, true, next.first);
  }

  lemma AbandonedHere(detect: string -> Detection, g: Guard)
    requires Answering(detect, g) && AtEnd(g) && (Decide(detect, g).Retry? || Decide(detect, g).GiveUp?)
    ensures Abandoned(g.source, detect, g.record.sent)
  {
    AllRead(detect, g);
    AbandonedOf(g.source, detect, g.record);
  }

  lemma AnswersFresh(detect: string -> Detection, g: Guard)
    requires g.record == Fresh() && g.pos == 0 && g.ready == [] && !g.ended
    ensures Answering(detect, g)
  {
    assert g.source.events[..0] == [];
  }

  function Handed(g: Guard): Guard
    requires g.ready != []
  {
    g.(ready := g.ready[1..], record := g.record.(sent := g.record.sent + [g.ready[0]]))
  }

  lemma GoodHanded(detect: string -> Detection, g: Guard)
    requires Answering(detect, g) && g.ready != []
    ensures Answering(detect, Handed(g))
  {
    Associate(g.record.sent, [g.ready[0]], g.ready[1..]);
    assert [g.ready[0]] + g.ready[1..] == g.ready;
  }

  // What the n-th request for a stream gives.
  function Opening(script: nat -> Opened, n: nat): Opened { script(n) }

  class TextCallStream {
    const script: nat -> Opened
    const detect: string -> Detection
    // The current response and how far it was read.
    var opens: nat
    var source: Source
    var pos: nat
    var pending: seq<Event>
    var ready: seq<Event>
    var texts: map<int, string>
    var deltas: map<int, string>
    var acted: bool
    var held: bool
    var terminal: bool
    var ended: bool
    var retried: bool
    var maxIndex: int
    var done: set<int>
    // What was delivered of an abandoned response, and of the current one.
    ghost var first: seq<Event>
    ghost var sent: seq<Event>
    // Whether the current response is the second one.
    ghost var restarted: bool

    ghost function Now(): Record
      reads this
    {
      Record(sent, pending, held, acted, deltas, texts, maxIndex, done, terminal)
    }

    ghost predicate Valid()
      reads this
    {
      Good(script, detect, Guarding()) && (restarted <==> retried)
    }

    // Of a response that had to be abandoned the reader has text without a marker and nothing
    // else, whether another response followed or could not be had.
    ghost predicate Withheld()
      reads this
    {
      && (restarted ==> Opening(script, 0).Opened? && Abandoned(Opening(script, 0).source, detect, first))
      && (retried && !restarted
          ==> first == [] && Opening(script, 0).Opened? && Abandoned(Opening(script, 0).source, detect, sent))
    }

    // The second response had to be abandoned, too.
    ghost predicate GivenUp()
      reads this
    {
      restarted && Opening(script, 1).Opened? && Abandoned(Opening(script, 1).source, detect, sent)
    }

    // Everything its reader has got.
    ghost function Out(): seq<Event>
      reads this
    {
      first + sent
    }

    constructor (script: nat -> Opened, detect: string -> Detection)
      requires Opening(script, 0).Opened?
      ensures Valid() && Out() == [] && this.script == script && this.detect == detect
    {
      this.script, this.detect, opens, source, pos := script, detect, 1, Opening(script, 0).source, 0;
      pending, ready, texts, deltas := [], [], map[], map[];
      acted, held, terminal, ended, retried, maxIndex, done := false, false, false, false, false, -1, {};
      first, sent, restarted := [], [], false;
      new;
    }

    // ---- One event of the response; None when it gives the reader nothing yet.

    method TakeDelta(index: int, text: string) returns (reply: Option<Reply>)
      modifies this`deltas, this`maxIndex, this`held, this`pending, this`sent
      ensures Now() == AfterDelta(old(Now()), index, text) && reply == Gives(old(sent), sent)
    {
      maxIndex := Max(maxIndex, index);
      deltas := AddDelta(deltas, index, text);
      if held {
        pending := pending + [Delta(index, text)];
        return None;
      }
      var at := MarkerAt(text);
      if at.None? {
        reply := Send(Delta(index, text));
        return;
      }
      held := true;
      pending := pending + [Delta(index, text[at.value..])];
      if at.value > 0 { reply := Send(Delta(index, text[..at.value])); } else { reply := None; }
    }

    method Send(e: Event) returns (reply: Option<Reply>)
      modifies this`sent
      ensures sent == old(sent) + [e] && reply == Some(Got(e))
    {
      sent := sent + [e];
      reply := Some(Got(e));
    }

    method TakeItem(index: int, item: Item) returns (reply: Option<Reply>)
      modifies this`done, this`maxIndex, this`texts, this`acted, this`pending, this`sent
      ensures if index in old(done) || item.Malformed? then Now() == old(Now()) && reply == Some(Failed(BadResponse))
              else && Now() == Place(WithItem(old(Now()), index, item), ItemDone(index, item))
                   && reply == Gives(old(sent), sent)
    {
      if index in done || item.Malformed? { return Some(Failed(BadResponse)); }
      maxIndex := Max(maxIndex, index);
      done := done + {index};
      if item.native { acted := true; }
      texts := AddText(texts, index, item);
      if !item.native || held {
        pending := pending + [ItemDone(index, item)];
        return None;
      }
      reply := Send(ItemDone(index, item));
    }

    method TakeCall(e: Event) returns (reply: Option<Reply>)
      requires e.CallReady?
      modifies this`maxIndex, this`acted, this`pending, this`sent
      ensures Now() == Place(WithCall(old(Now()), e.index), e) && reply == Gives(old(sent), sent)
    {
      maxIndex := Max(maxIndex, e.index);
      acted := true;
      if held {
        pending := pending + [e];
        return None;
      }
      reply := Send(e);
    }

    method Take(e: Event) returns (reply: Option<Reply>)
      modifies this`done, this`maxIndex, this`terminal, this`deltas, this`texts, this`acted, this`held, this`pending, this`sent
      ensures match Absorb(old(Now()), e)
              case None => Now() == old(Now()) && reply == Some(Failed(BadResponse))
              case Some(r) => Now() == r && reply == Gives(old(sent), sent)
    {
      if terminal || e.index < 0 { return Some(Failed(BadResponse)); }
      match e
      case Delta(index, text) => reply := TakeDelta(index, text);
      case ItemDone(index, item) => reply := TakeItem(index, item);
      case CallReady(_, _) => reply := TakeCall(e);
      case Terminal(_) =>
        maxIndex := Max(maxIndex, e.index);
        terminal := true;
        reply := None;
      case Unknown(_) => reply := Some(Failed(BadResponse));
    }

    // ---- The end of the response.

    // start: everything about the response is forgotten.
    method Start(next: Source)
      modifies this
      ensures Now() == Fresh() && ready == [] && source == next && pos == 0
      ensures opens == old(opens) && ended == old(ended) && retried == old(retried) && first == old(first + sent) && restarted
    {
      restarted := true;
      Forget();
      first, sent, source, pos := first + sent, [], next, 0;
      acted, held, terminal, maxIndex := false, false, false, -1;
    }

    method Forget()
      modifies this`pending, this`ready, this`texts, this`deltas, this`done
      ensures pending == [] && ready == [] && texts == map[] && deltas == map[] && done == {}
    {
      pending, ready, texts, deltas, done := [], [], map[], map[], {};
    }

    method Restart(closes: bool) returns (failure: Option<Failure>)
      requires opens == 1
      modifies this
      ensures opens <= 2
      ensures failure.None? ==> Opening(script, 1).Opened? && Guarding() == Again(old(Guarding()), Opening(script, 1).source)
      ensures failure.Some?
              ==> first == old(first) && sent == old(sent) && failure.value in {CloseFailed, OpenFailed, BadResponse}
      ensures retried && restarted == (if failure.None? then true else old(restarted))
      ensures failure == Some(OpenFailed) <==> closes && Opening(script, 1).Refused?
      ensures failure == Some(BadResponse) <==> closes && Opening(script, 1).Absent?
      ensures failure == Some(CloseFailed) <==> !closes
    {
      retried := true;
      if !closes { return Some(CloseFailed); }
      opens := opens + 1;
      match Opening(script, 1)
      case Refused => return Some(OpenFailed);
      case Absent => return Some(BadResponse);
      case Opened(next) =>
        Start(next);
        failure := None;
    }

    // `id` is the fresh name of a call in structured form.
    method Classify(id: nat, closes: bool) returns (failure: Option<Failure>)
      requires 1 <= opens <= 2 && (retried <==> opens == 2)
      modifies this
      ensures match Decide(detect, old(Guarding()))
              case Release => failure.None? && Guarding() == Concluded(old(Guarding()), old(pending) + [Terminal(0)])
              case Rewrite(name, arguments) =>
                failure.None?
                && Guarding() == Concluded(Dropped(old(Guarding())), Rewritten(old(maxIndex) + 1, Call(id, name, arguments)))
              case GiveUp => failure == Some(TextCallFailed) && Guarding() == old(Guarding()) && restarted == old(restarted)
              case Retry =>
                if failure.None? then
                  Opening(script, 1).Opened? && Guarding() == Again(old(Guarding()), Opening(script, 1).source)
                else
                  && opens <= 2 && first == old(first) && sent == old(sent)
                  && failure == Some(if !closes then CloseFailed
                                     else if Opening(script, 1).Refused? then OpenFailed else BadResponse)
                  && (failure == Some(BadResponse) ==> Opening(script, 1).Absent?)
      ensures match Decide(detect, old(Guarding()))
              case Retry => retried && restarted == (if failure.None? then true else old(restarted))
              case _ => restarted == old(restarted)
    {
      var verdict := Verdict(detect, TextUpTo(deltas, texts, maxIndex));
      if acted || verdict.Clean? {
        ready, ended := pending + [Terminal(0)], true;
        return None;
      }
      if verdict.Usable? {
        pending, ready, ended := [], Rewritten(maxIndex + 1, Call(id, verdict.name, verdict.arguments)), true;
        return None;
      }
      if retried { return Some(TextCallFailed); }
      failure := Restart(closes);
    }

    ghost function Guarding(): Guard
      reads this
    {
      Guard(opens, source, pos, Now(), ready, ended, retried, first)
    }

    // ---- Next.

    // The most turns that may pass before the next reply.
    ghost function Turns(): nat
      reads this
    {
      (if ended then 0 else 1)
      + (if pos <= |source.events| then |source.events| - pos else 0)
      + if opens < 2 && Opening(script, 1).Opened? then |Opening(script, 1).source.events| + 1 else 0
    }

    // Why a reply is a failure.
    ghost predicate Caused(reply: Reply)
      reads this
    {
      reply.Failed? ==>
        match reply.failure
        case Cancelled => true
        case BrokenOff => source.breaks && pos == |source.events|
        case BadResponse =>
          || (exists k :: 0 <= k < |source.events| && Misplaced(source.events, k))
          || (retried && !restarted && Opening(script, 1).Absent?)
        case TextCallFailed => GivenUp()
        case OpenFailed => retried && !restarted && Opening(script, 1).Refused?
        case CloseFailed => retried && !restarted
    }

    // The next event for the reader, whose context ends after `patience` turns of the loop. The
    // surroundings decide whether a call through the bridge is seen while the response is read, whether closing
    // an abandoned response succeeds, and what name a rewritten call gets.
    method Next(patience: nat) returns (reply: Reply)
      requires Valid()
      modifies this
      ensures opens <= 2
      // It fails only where the response does, or where its caller did not wait long enough.
      ensures Caused(reply)
      ensures reply == Failed(Cancelled) ==> patience <= old(Turns())
      ensures reply.Got? ==> Turns() <= old(Turns())
      ensures reply.Got? ==> Valid() && Out() == old(Out()) + [reply.event]
      ensures !reply.Got? ==> Out() == old(Out())
      // The stream ends when everything was delivered, or where the response itself ends
      // without a Terminal.
      ensures reply.Eof? ==> Valid() && if ended then ready == [] else !terminal && pos == |source.events|
      // An attempt that was detected leaves nothing of its response but text before it.
      ensures Withheld()
      ensures reply == Failed(TextCallFailed) ==> GivenUp()
      ensures reply == Failed(CloseFailed) || reply == Failed(OpenFailed) ==> retried && !restarted
    {
      hide Abandoned, Misplaced, Good, Absorb;
      var left := patience;
      while true
        invariant Valid() && Out() == old(Out())
        invariant Turns() <= old(Turns()) && left + old(Turns()) >= patience + Turns()
        decreases !ended, 2 - opens, |source.events| - pos
      {
        if left == 0 {
          ValidWithholds();
          return Failed(Cancelled);
        }
        left := left - 1;
        var bridged: bool, closes: bool, id: nat := *, *, *;
        var out := Turn(bridged, closes, id);
        if out.Some? { return out.value; }
      }
    }

    // One round of the loop; None means another one.
    method Turn(bridged: bool, closes: bool, id: nat) returns (reply: Option<Reply>)
      requires Valid()
      modifies this
      ensures opens <= 2
      ensures reply.Some? ==> Caused(reply.value) && reply != Some(Failed(Cancelled))
      ensures reply.Some? && reply.value.Got? ==> Turns() <= old(Turns())
      ensures reply.None? ==> Valid() && Out() == old(Out()) && Turns() < old(Turns())
      ensures reply.None?
              ==> !old(ended)
                  && (ended || opens > old(opens) || (source == old(source) && opens == old(opens) && pos > old(pos)))
      ensures reply.Some? && reply.value.Got? ==> Valid() && Out() == old(Out()) + [reply.value.event]
      ensures reply.Some? && !reply.value.Got? ==> Out() == old(Out())
      ensures reply == Some(Eof) ==> Valid() && if ended then ready == [] else !terminal && pos == |source.events|
      ensures Withheld()
      ensures reply == Some(Failed(TextCallFailed)) ==> GivenUp()
      ensures reply == Some(Failed(CloseFailed)) || reply == Some(Failed(OpenFailed)) ==> retried && !restarted
    {
      hide Abandoned, Misplaced, Absorb, Good, Guarding, Now;
      ValidWithholds();
      if ready != [] {
        var event := Hand();
        return Some(event);
      }
      if ended { return Some(Eof); }
      if bridged { Bridge(); }
      if pos < |source.events| { reply := Advance(); } else { reply := Conclude(closes, id); }
    }

    // A call through the bridge was seen.
    method Bridge()
      requires Valid() && !ended
      modifies this`acted
      ensures Valid() && acted
    {
      hide Good;
      ghost var g := Guarding();
      GoodActed(script, detect, g);
      acted := true;
      assert Guarding() == g.(record := g.record.(acted := true));
    }

    // The response has ended.
    method Conclude(closes: bool, id: nat) returns (reply: Option<Reply>)
      requires Valid() && !ended && ready == [] && pos == |source.events|
      modifies this
      ensures opens <= 2 && Out() == old(Out())
      ensures reply.Some? ==> Caused(reply.value) && reply != Some(Failed(Cancelled)) && !reply.value.Got?
      ensures reply.None? ==> Valid() && Turns() < old(Turns()) && (ended || opens > old(opens))
      ensures reply == Some(Eof) ==> Valid() && !ended && !terminal && pos == |source.events|
      ensures Withheld()
      ensures reply == Some(Failed(TextCallFailed)) ==> GivenUp()
      ensures reply == Some(Failed(CloseFailed)) || reply == Some(Failed(OpenFailed)) ==> retried && !restarted
    {
      hide Abandoned, Misplaced, Absorb, Good;
      ValidWithholds();
      if source.breaks {
        reply := Some(Failed(BrokenOff));
      } else if !terminal {
        reply := Some(Eof);
      } else {
        var failure := Finish(id, closes);
        reply := if failure.Some? then Some(Failed(failure.value)) else None;
      }
    }

    lemma ValidWithholds()
      requires Valid()
      ensures Withheld() && 1 <= opens <= 2
      ensures !ended ==> pos <= |source.events|
    {
      hide Abandoned, Settled, Records;
    }

    method Hand() returns (reply: Reply)
      requires Valid() && ready != []
      modifies this`ready, this`sent
      ensures Valid() && reply.Got? && Out() == old(Out()) + [reply.event] && restarted == old(restarted)
    {
      GoodHanded(detect, Guarding());
      Associate(first, sent, [ready[0]]);
      reply := Got(ready[0]);
      sent, ready := sent + [ready[0]], ready[1..];
    }

    method Advance() returns (reply: Option<Reply>)
      requires Valid() && !ended && pos < |source.events|
      modifies this
      ensures opens == old(opens) <= 2 && source == old(source) && pos == old(pos) + 1 && ended == old(ended)
      ensures reply.None? ==> Valid() && Out() == old(Out())
      ensures reply.Some? && reply.value.Got? ==> Valid() && Out() == old(Out()) + [reply.value.event]
      ensures reply.Some? && !reply.value.Got? ==>
                && reply == Some(Failed(BadResponse)) && Out() == old(Out())
                && exists k :: 0 <= k < |source.events| && Misplaced(source.events, k)
      ensures Withheld()
    {
      hide Answering, Absorb;
      ghost var g := Guarding();
      var e := source.events[pos];
      pos := pos + 1;
      reply := Take(e);
      ghost var next := Absorb(g.record, e);
      if next.None? { AbsorbRefuses(detect, g); }
      if next.Some? {
        GoodTake(detect, g, next.value);
        AbsorbGives(g.record, e);
        assert Guarding() == g.(pos := g.pos + 1, record := next.value);
        if reply.Some? { Associate(first, g.record.sent, [reply.value.event]); }
      }
    }

    method Finish(id: nat, closes: bool) returns (failure: Option<Failure>)
      requires Valid() && !ended && pos == |source.events| && terminal && !source.breaks
      modifies this
      ensures opens <= 2 && Out() == old(Out())
      ensures failure.None? ==> Valid() && (ended || opens > old(opens))
      ensures Withheld()
      ensures failure.Some? ==> failure.value in {TextCallFailed, CloseFailed, OpenFailed, BadResponse}
      ensures failure == Some(TextCallFailed) ==> GivenUp()
      ensures failure.Some? && failure != Some(TextCallFailed) ==> retried && !restarted
      ensures failure == Some(OpenFailed) ==> Opening(script, 1).Refused?
      ensures failure == Some(BadResponse) ==> Opening(script, 1).Absent?
      ensures failure.None? ==> Turns() < old(Turns())
    {
      hide Answering;
      ghost var g := Guarding();
      failure := Classify(id, closes);
      match Decide(detect, g)
      case Release => GoodRelease(detect, g);
      case Rewrite(name, arguments) => GoodRewrite(detect, g, Call(id, name, arguments));
      case GiveUp => AbandonedHere(detect, g);
      case Retry =>
        AbandonedHere(detect, g);
        if failure.None? {
          GoodRetry(script, detect, g);
          assert Out() == g.first + g.record.sent + [];
        }
    }

    // A reader that takes at most `limit` events.
    method Drain(limit: nat, patience: nat) returns (events: seq<Event>, end: Option<Reply>)
      requires Valid() && Out() == []
      modifies this
      ensures opens <= 2 && events == Out() && NoTwice(events)
      ensures end == Some(Eof) && ended ==> Delivered(script, detect, opens, first, events, acted)
      // Whatever the end, a response that had to be abandoned left text without a marker and
      // nothing else: the first one, when another one was opened or asked for in vain, ...
      ensures first <= events && Withheld()
      ensures end == Some(Failed(CloseFailed)) || end == Some(Failed(OpenFailed)) ==> retried && !restarted
      // ... and the second one.
      ensures end == Some(Failed(TextCallFailed)) ==>
                restarted && Opening(script, 1).Opened? && Abandoned(Opening(script, 1).source, detect, events[|first|..])
      ensures end.None? ==> |events| == limit
      // It ends early only where the response fails, or where the reader gave it too few turns.
      ensures end.Some? ==> Caused(end.value) && !end.value.Got?
      ensures end == Some(Eof) && !ended ==> !terminal && pos == |source.events|
      ensures end == Some(Failed(Cancelled)) ==> patience <= old(Turns())
    {
      hide Abandoned, Misplaced, Good, Delivered, Attempted, Answering;
      ValidWithholds();
      events, end := [], None;
      while |events| < limit
        invariant Valid() && events == Out() && NoTwice(events) && opens <= 2 && |events| <= limit
        invariant Turns() <= old(Turns())
        decreases limit - |events|
      {
        var reply := Next(patience);
        if !reply.Got? {
          end := Some(reply);
          if reply.Eof? && ended { AllDelivered(script, detect, Guarding()); }
          return;
        }
        events := events + [reply.event];
        NothingTwice(script, detect, Guarding());
        ValidWithholds();
      }
      ValidWithholds();
    }
  }

  // A call through the bridge while the response is read.
  lemma GoodActed(script: nat -> Opened, detect: string -> Detection, g: Guard)
    requires Good(script, detect, g) && !g.ended
    ensures Good(script, detect, g.(record := g.record.(acted := true)))
  {
    hide Attempted, Knows, Carry;
  }

  // Only such an event is refused.
  lemma AbsorbRefuses(detect: string -> Detection, g: Guard)
    requires !g.ended && g.pos < |g.source.events| && Answering(detect, g)
    requires Absorb(g.record, g.source.events[g.pos]).None?
    ensures Misplaced(g.source.events, g.pos)
  {
    var read, e := g.source.events[..g.pos], g.source.events[g.pos];
    if g.record.terminal { assert read[|read| - 1] == g.source.events[g.pos - 1]; }
    if e.ItemDone? && e.index in g.record.done {
      var j := ItemOf(read, e.index);
      assert g.source.events[j] == read[j];
    }
  }

  lemma {:induction false} ItemOf(es: seq<Event>, index: int) returns (j: nat)
    requires Items(es, index) > 0
    ensures j < |es| && es[j].ItemDone? && es[j].index == index
  {
    var last := |es| - 1;
    if es[last].ItemDone? && es[last].index == index { j := last; } else { j := ItemOf(es[..last], index); }
  }

  // What the reader has when the stream ends: harmless text of a response that had to be
  // abandoned, if one was, and then all of the response or the repaired call.
  ghost predicate Delivered(script: nat -> Opened, detect: string -> Detection, opens: nat, first: seq<Event>,
                            out: seq<Event>, acted: bool) {
    && 1 <= opens <= 2 && Opening(script, opens - 1).Opened? && |first| <= |out| && out[..|first|] == first
    && Settled(Opening(script, opens - 1).source, detect, out[|first|..], acted)
    && if opens == 2 then Opening(script, 0).Opened? && Abandoned(Opening(script, 0).source, detect, first) else first == []
  }

  lemma AllDelivered(script: nat -> Opened, detect: string -> Detection, g: Guard)
    requires Good(script, detect, g) && g.ended && g.ready == []
    ensures Delivered(script, detect, g.opens, g.first, g.first + g.record.sent, g.record.acted)
  {
    hide Settled, Abandoned;
    assert g.record.sent + g.ready == g.record.sent;
    assert (g.first + g.record.sent)[|g.first|..] == g.record.sent;
  }

  lemma NothingTwice(script: nat -> Opened, detect: string -> Detection, g: Guard)
    requires Good(script, detect, g)
    ensures NoTwice(g.first + g.record.sent)
  {
    assert Harmless(g.first);
    HarmlessItems(g.first);
    SentOnce(detect, g);
    forall i ensures Items(g.first + g.record.sent, i) <= 1 { ItemsJoin(g.first, g.record.sent, i); }
  }

  lemma SentOnce(detect: string -> Detection, g: Guard)
    requires Answering(detect, g)
    ensures NoTwice(g.record.sent)
  {
    forall i ensures Items(g.record.sent, i) <= 1 {
      if g.ended {
        ItemsJoin(g.record.sent, g.ready, i);
      } else {
        var read := g.source.events[..g.pos];
        assert Items(g.record.sent, i) + Items(g.record.pending, i) == Items(read, i);
      }
    }
  }
}
