// The guard that keeps text-form tool calls from observers (kit/loop/text_calls.go): suspect
// text and all items wait until the whole response is known, and one fresh response replaces
// a response that cannot be used.
module TextGuard {
  import opened Sequences
  import opened Wrappers

  // An item as far as the guard looks into it; `id` stands for the rest of its JSON.
  datatype Item = Malformed | Item(native: bool, speech: bool, text: string, id: nat)

  datatype Call = Call(id: nat, name: string, arguments: string)

  datatype Event =
    | Delta(index: int, text: string)
    | ItemDone(index: int, item: Item)
    | CallReady(index: int, call: Call)
    | Terminal(index: int)
    | Unknown(index: int)

  // A provider response: its events, and whether it then ends or breaks off.
  datatype Source = Source(events: seq<Event>, breaks: bool)

  // What opening a stream gives.
  datatype Opened = Refused | Absent | Opened(source: Source)

  // A detector is pure.
  function Verdict(detect: string -> Detection, text: string): Detection { detect(text) }

  datatype Detection = Clean | Usable(name: string, arguments: string) | Defective

  datatype Failure = Cancelled | BrokenOff | BadResponse | OpenFailed | TextCallFailed | CloseFailed

  datatype Reply = Got(event: Event) | Eof | Failed(failure: Failure)

  // ---- What a list of events carries.

  predicate Marker(c: char) { c == '[' || c == '<' }

  predicate Marked(s: string) { exists k :: 0 <= k < |s| && Marker(s[k]) }

  // strings.IndexAny(s, "[<").
  function MarkerAt(s: string): (at: Option<nat>)
    ensures at.None? <==> !Marked(s)
    ensures at.Some? ==> at.value < |s| && Marker(s[at.value]) && !Marked(s[..at.value])
  {
    if s == "" then None
    else if Marker(s[0]) then Some(0)
    else
      var rest := MarkerAt(s[1..]);
      assert forall k :: 1 <= k < |s| ==> s[k] == s[1..][k - 1];
      if rest.None? then None
      else
        assert s[..rest.value + 1][1..] == s[1..][..rest.value];
        Some(rest.value + 1)
  }

  function Tag(index: int, text: string): (r: seq<(int, char)>)
    ensures |r| == |text| && forall k :: 0 <= k < |text| ==> r[k] == (index, text[k])
  {
    seq(|text|, k requires 0 <= k < |text| => (index, text[k]))
  }

  // The characters of the deltas, each with its index, in their order.
  function Chars(es: seq<Event>): seq<(int, char)> {
    if es == [] then []
    else Chars(es[..|es| - 1]) + if es[|es| - 1].Delta? then Tag(es[|es| - 1].index, es[|es| - 1].text) else []
  }

  // Tool calls, announced and ready.
  predicate IsNative(e: Event) {
    e.CallReady? || (e.ItemDone? && e.item.Item? && e.item.native)
  }

  predicate IsPlain(e: Event) {
    e.ItemDone? && !IsNative(e)
  }

  datatype Kind = Native | Plain

  predicate OfKind(e: Event, k: Kind) {
    if k.Native? then IsNative(e) else IsPlain(e)
  }

  function Only(es: seq<Event>, k: Kind): seq<Event> {
    if es == [] then []
    else Only(es[..|es| - 1], k) + if OfKind(es[|es| - 1], k) then [es[|es| - 1]] else []
  }

  lemma {:induction false} CharsJoin(a: seq<Event>, b: seq<Event>)
    ensures Chars(a + b) == Chars(a) + Chars(b)
  {
    if b == [] {
      assert a + b == a;
    } else {
      assert (a + b)[..|a + b| - 1] == a + b[..|b| - 1];
      CharsJoin(a, b[..|b| - 1]);
    }
  }

  lemma OneMoreKept(es: seq<Event>, e: Event, k: Kind)
    ensures Only(es + [e], k) == Only(es, k) + if OfKind(e, k) then [e] else []
    ensures Chars(es + [e]) == Chars(es) + if e.Delta? then Tag(e.index, e.text) else []
  {
    assert (es + [e])[..|es + [e]| - 1] == es;
  }

  lemma {:induction false} OnlyJoin(a: seq<Event>, b: seq<Event>, k: Kind)
    ensures Only(a + b, k) == Only(a, k) + Only(b, k)
  {
    if b == [] {
      assert a + b == a;
    } else {
      assert (a + b)[..|a + b| - 1] == a + b[..|b| - 1];
      OnlyJoin(a, b[..|b| - 1], k);
    }
  }

  // ---- The text of a response, as the detector gets it.

  function DeltaText(es: seq<Event>, index: int): string {
    if es == [] then ""
    else
      var e := es[|es| - 1];
      DeltaText(es[..|es| - 1], index) + if e.Delta? && e.index == index then e.text else ""
  }

  // The text of the assistant's message item of an index.
  function ItemText(es: seq<Event>, index: int): Option<string> {
    if es == [] then None
    else
      var e := es[|es| - 1];
      if e.ItemDone? && e.index == index && e.item.Item? && e.item.speech then Some(e.item.text)
      else ItemText(es[..|es| - 1], index)
  }

  // For each index the message item's text, or else its deltas, by ascending index up to n.
  function Spoken(es: seq<Event>, n: int): string
    decreases n + 1
  {
    if n < 0 then ""
    else
      var item := ItemText(es, n);
      Spoken(es, n - 1) + if item.Some? then item.value else DeltaText(es, n)
  }

  // The same from the guard's own tables.
  function TextUpTo(deltas: map<int, string>, texts: map<int, string>, n: int): string
    decreases n + 1
  {
    if n < 0 then ""
    else TextUpTo(deltas, texts, n - 1) + if n in texts then texts[n] else if n in deltas then deltas[n] else ""
  }

  ghost predicate Tables(es: seq<Event>, deltas: map<int, string>, texts: map<int, string>) {
    && (forall i :: (if i in deltas then deltas[i] else "") == DeltaText(es, i))
    && (forall i :: (if i in texts then Some(texts[i]) else None) == ItemText(es, i))
  }

  lemma {:induction false} TablesText(es: seq<Event>, deltas: map<int, string>, texts: map<int, string>, n: int)
    requires Tables(es, deltas, texts)
    ensures TextUpTo(deltas, texts, n) == Spoken(es, n)
    decreases n + 1
  {
    if n >= 0 {
      TablesText(es, deltas, texts, n - 1);
      assert DeltaText(es, n) == if n in deltas then deltas[n] else "";
      assert ItemText(es, n) == if n in texts then Some(texts[n]) else None;
    }
  }

  // An item of the assistant's own text.
  predicate Speech(e: Event, index: int) {
    e.ItemDone? && e.index == index && e.item.Item? && e.item.speech
  }

  // The characters that deltas of one index carry.
  function Picked(chars: seq<(int, char)>, index: int): string {
    if chars == [] then ""
    else
      var (i, c) := chars[|chars| - 1];
      Picked(chars[..|chars| - 1], index) + if i == index then [c] else ""
  }

  // What a response says at an index: its last item of the assistant's text there, or, without
  // one, what the deltas carry.
  ghost predicate Says(es: seq<Event>, index: int, text: string) {
    || (exists k :: && 0 <= k < |es| && Speech(es[k], index) && es[k].item.text == text
                    && forall j :: k < j < |es| ==> !Speech(es[j], index))
    || ((forall k :: 0 <= k < |es| ==> !Speech(es[k], index)) && text == Picked(Chars(es), index))
  }

  lemma {:induction false} PickedJoins(a: seq<(int, char)>, b: seq<(int, char)>, index: int)
    ensures Picked(a + b, index) == Picked(a, index) + Picked(b, index)
  {
    if b == [] {
      assert a + b == a;
    } else {
      assert (a + b)[..|a + b| - 1] == a + b[..|b| - 1];
      PickedJoins(a, b[..|b| - 1], index);
    }
  }

  lemma {:induction false} PickedTag(i: int, text: string, index: int)
    ensures Picked(Tag(i, text), index) == if i == index then text else ""
  {
    if text != "" {
      var last := |text| - 1;
      PickedTag(i, text[..last], index);
      assert Tag(i, text)[..last] == Tag(i, text[..last]) && text == text[..last] + [text[last]];
    }
  }

  lemma {:induction false} DeltasSay(es: seq<Event>, index: int)
    ensures DeltaText(es, index) == Picked(Chars(es), index)
  {
    if es != [] {
      var before, e := es[..|es| - 1], es[|es| - 1];
      DeltasSay(before, index);
      PickedJoins(Chars(before), if e.Delta? then Tag(e.index, e.text) else [], index);
      if e.Delta? { PickedTag(e.index, e.text, index); }
    }
  }

  lemma {:induction false} ItemsSay(es: seq<Event>, index: int)
    ensures match ItemText(es, index)
            case None => forall k :: 0 <= k < |es| ==> !Speech(es[k], index)
            case Some(text) => exists k :: && 0 <= k < |es| && Speech(es[k], index) && es[k].item.text == text
                                           && forall j :: k < j < |es| ==> !Speech(es[j], index)
  {
    if es != [] {
      var last := |es| - 1;
      if !Speech(es[last], index) {
        ItemsSay(es[..last], index);
        if ItemText(es, index).Some? {
          var k :| && 0 <= k < last && Speech(es[..last][k], index) && es[..last][k].item.text == ItemText(es, index).value
                   && forall j :: k < j < last ==> !Speech(es[..last][j], index);
          assert Speech(es[k], index);
          forall j | k < j < |es| ensures !Speech(es[j], index) { if j < last { assert !Speech(es[..last][j], index); } }
        } else {
          forall k | 0 <= k < |es| ensures !Speech(es[k], index) { if k < last { assert !Speech(es[..last][k], index); } }
        }
      }
    }
  }

  // The text that is examined is what the response says at each index, in the order of the
  // indexes.
  lemma SpokenExactly(es: seq<Event>, n: int, text: string)
    requires n >= 0 && Says(es, n, text)
    ensures Spoken(es, n) == Spoken(es, n - 1) + text && Spoken(es, -1) == ""
  {
    ItemsSay(es, n);
    DeltasSay(es, n);
  }

  // A call could begin at these two characters.
  lemma MarkedExactly(s: string)
    ensures Marked(s) <==> '[' in s || '<' in s
  {
  }

  function Max(a: int, b: int): int { if a > b then a else b }

  // The largest index, at least -1.
  function Top(es: seq<Event>): (n: int)
    ensures n >= -1
  {
    if es == [] then -1 else Max(Top(es[..|es| - 1]), es[|es| - 1].index)
  }

  // ---- What the guard keeps.

  function Items(es: seq<Event>, index: int): nat {
    if es == [] then 0
    else
      var e := es[|es| - 1];
      Items(es[..|es| - 1], index) + if e.ItemDone? && e.index == index then 1 else 0
  }

  // No index has two ItemDone events.
  ghost predicate NoTwice(es: seq<Event>) { forall i :: Items(es, i) <= 1 }

  lemma {:induction false} ItemsJoin(a: seq<Event>, b: seq<Event>, index: int)
    ensures Items(a + b, index) == Items(a, index) + Items(b, index)
  {
    if b == [] {
      assert a + b == a;
    } else {
      assert (a + b)[..|a + b| - 1] == a + b[..|b| - 1];
      ItemsJoin(a, b[..|b| - 1], index);
    }
  }

  lemma ItemsAppend(es: seq<Event>, e: Event)
    ensures forall i :: Items(es + [e], i) == Items(es, i) + if e.ItemDone? && e.index == i then 1 else 0
  {
    assert (es + [e])[..|es + [e]| - 1] == es;
  }

  // Text without a marker, and nothing else.
  predicate Harmless(es: seq<Event>) {
    forall k :: 0 <= k < |es| ==> es[k].Delta? && !Marked(es[k].text)
  }

  // What may be delivered while a response is read: text without a marker, and tool calls.
  predicate Clear(es: seq<Event>) {
    forall k :: 0 <= k < |es| ==> (es[k].Delta? && !Marked(es[k].text)) || IsNative(es[k])
  }

  // Two lists of events carry together what `read` carries: every character, in order and with
  // its index, every tool call in order, every other item in order.
  ghost predicate Carry(a: seq<Event>, b: seq<Event>, read: seq<Event>) {
    && Chars(a) + Chars(b) == Chars(read)
    && Parts(a, b, read, Native) && Parts(a, b, read, Plain)
    && Counts(a, b, read)
  }

  ghost predicate Parts(a: seq<Event>, b: seq<Event>, read: seq<Event>, k: Kind) {
    Only(a, k) + Only(b, k) == Only(read, k)
  }

  ghost predicate Counts(a: seq<Event>, b: seq<Event>, read: seq<Event>) {
    forall i :: Items(a, i) + Items(b, i) == Items(read, i)
  }

  lemma PartsRight(a: seq<Event>, b: seq<Event>, read: seq<Event>, k: Kind, e: Event)
    requires Parts(a, b, read, k)
    ensures Parts(a, b + [e], read + [e], k)
  {
    Associate(Only(a, k), Only(b, k), if OfKind(e, k) then [e] else []);
  }

  lemma PartsLeft(a: seq<Event>, b: seq<Event>, read: seq<Event>, k: Kind, e: Event)
    requires Parts(a, b, read, k) && (OfKind(e, k) ==> Only(b, k) == [])
    ensures Parts(a + [e], b, read + [e], k)
  {
  }

  lemma CountsRight(a: seq<Event>, b: seq<Event>, read: seq<Event>, e: Event)
    requires Counts(a, b, read)
    ensures Counts(a, b + [e], read + [e])
  {
    ItemsAppend(b, e);
    ItemsAppend(read, e);
  }

  lemma CountsLeft(a: seq<Event>, b: seq<Event>, read: seq<Event>, e: Event)
    requires Counts(a, b, read)
    ensures Counts(a + [e], b, read + [e])
  {
    ItemsAppend(a, e);
    ItemsAppend(read, e);
  }

  lemma CarryRight(a: seq<Event>, b: seq<Event>, read: seq<Event>, e: Event)
    requires Carry(a, b, read)
    ensures Carry(a, b + [e], read + [e])
  {
    Associate(Chars(a), Chars(b), if e.Delta? then Tag(e.index, e.text) else []);
    PartsRight(a, b, read, Native, e);
    PartsRight(a, b, read, Plain, e);
    CountsRight(a, b, read, e);
  }

  lemma CarryLeft(a: seq<Event>, b: seq<Event>, read: seq<Event>, e: Event)
    requires Carry(a, b, read) && Chars(b) == [] && Only(b, Native) == [] && !IsPlain(e)
    ensures Carry(a + [e], b, read + [e])
  {
    assert Chars(a) + [] == Chars(a) && Chars(a + [e]) + [] == Chars(a + [e]);
    PartsLeft(a, b, read, Native, e);
    PartsLeft(a, b, read, Plain, e);
    CountsLeft(a, b, read, e);
  }

  predicate NoTerminal(es: seq<Event>) {
    forall k :: 0 <= k < |es| ==> !es[k].Terminal?
  }

  // What has been delivered, what waits, and what was read of a response, before its end.
  ghost predicate Sorted(sent: seq<Event>, pending: seq<Event>, read: seq<Event>, held: bool, acted: bool) {
    && Carry(sent, pending, read) && Clear(sent)
    && (!held ==> Chars(pending) == [] && Only(pending, Native) == [])
    && NoTerminal(pending)
    && (Only(read, Native) != [] ==> acted)
  }

  lemma {:induction false} NoNative(es: seq<Event>)
    requires Only(es, Native) == []
    ensures forall k :: 0 <= k < |es| ==> !IsNative(es[k])
  {
    if es != [] { NoNative(es[..|es| - 1]); }
  }

  lemma NativeListed(es: seq<Event>)
    requires Clear(es) && Only(es, Native) == []
    ensures Harmless(es)
  {
    NoNative(es);
  }

  // An event that is delivered at once.
  lemma Deliver(sent: seq<Event>, pending: seq<Event>, read: seq<Event>, acted: bool, e: Event)
    requires Sorted(sent, pending, read, false, acted)
    requires (e.Delta? && !Marked(e.text)) || (IsNative(e) && acted)
    ensures Sorted(sent + [e], pending, read + [e], false, acted)
  {
    CarryLeft(sent, pending, read, e);
  }

  // An event that waits.
  lemma Hold(sent: seq<Event>, pending: seq<Event>, read: seq<Event>, held: bool, acted: bool, e: Event)
    requires Sorted(sent, pending, read, held, acted)
    requires !e.Terminal? && (held || IsPlain(e)) && (IsNative(e) ==> acted)
    ensures Sorted(sent, pending + [e], read + [e], held, acted)
  {
    hide Carry, Clear, Chars, Only;
    CarryRight(sent, pending, read, e);
    OneMoreKept(pending, e, Native);
    OneMoreKept(read, e, Native);
  }

  // Text with a marker is delivered up to it, and the rest waits: as if it had been read in
  // two pieces.
  lemma Cut(sent: seq<Event>, pending: seq<Event>, read: seq<Event>, acted: bool, index: int, text: string, at: nat)
    requires Sorted(sent, pending, read, false, acted) && at <= |text| && !Marked(text[..at])
    ensures Sorted(if at > 0 then sent + [Delta(index, text[..at])] else sent,
                   pending + [Delta(index, text[at..])], read + [Delta(index, text)], true, acted)
  {
    var head, tail := Delta(index, text[..at]), Delta(index, text[at..]);
    if at > 0 {
      Deliver(sent, pending, read, acted, head);
      Hold(sent + [head], pending, read + [head], true, acted, tail);
      CutRead(read, index, text, at);
    } else {
      assert text[at..] == text;
      Hold(sent, pending, read, true, acted, tail);
    }
  }

  // Two pieces of text carry what the whole text carries.
  lemma CutRead(read: seq<Event>, index: int, text: string, at: nat)
    requires at <= |text|
    ensures var two, one := read + [Delta(index, text[..at])] + [Delta(index, text[at..])], read + [Delta(index, text)];
            && Chars(two) == Chars(one) && (forall i :: Items(two, i) == Items(one, i))
            && Only(two, Native) == Only(one, Native) && Only(two, Plain) == Only(one, Plain)
  {
    hide Chars, Items, Only;
    DeltaOnly(read, index, text);
    DeltaOnly(read, index, text[..at]);
    DeltaOnly(read + [Delta(index, text[..at])], index, text[at..]);
    assert Tag(index, text[..at]) + Tag(index, text[at..]) == Tag(index, text);
    Associate(Chars(read), Tag(index, text[..at]), Tag(index, text[at..]));
  }

  lemma DeltaOnly(read: seq<Event>, index: int, text: string)
    ensures Only(read + [Delta(index, text)], Native) == Only(read, Native)
    ensures Only(read + [Delta(index, text)], Plain) == Only(read, Plain)
    ensures forall i :: Items(read + [Delta(index, text)], i) == Items(read, i)
    ensures Chars(read + [Delta(index, text)]) == Chars(read) + Tag(index, text)
  {
    ItemsAppend(read, Delta(index, text));
    OneMoreKept(read, Delta(index, text), Native);
  }

  lemma TerminalRead(sent: seq<Event>, pending: seq<Event>, read: seq<Event>, held: bool, acted: bool, e: Event)
    requires Sorted(sent, pending, read, held, acted) && e.Terminal?
    ensures Sorted(sent, pending, read + [e], held, acted)
  {
    ItemsAppend(read, e);
  }

  // ---- What a finished response looks like to the observer.

  // Everything of the response, and one Terminal, last.
  ghost predicate Transparent(whole: seq<Event>, read: seq<Event>) {
    && whole != [] && whole[|whole| - 1].Terminal?
    && NoTerminal(whole[..|whole| - 1])
    && Carry(whole, [], read) && NoTwice(whole)
  }

  // Text without a marker from before the attempted call, then the call in structured form.
  ghost predicate Repaired(whole: seq<Event>, read: seq<Event>, name: string, arguments: string) {
    exists before: seq<Event>, id: nat ::
      var index := Top(read) + 1;
      && Harmless(before) && Chars(before) <= Chars(read)
      && whole == before + [ItemDone(index, Item(true, false, "", id)), CallReady(index, Call(id, name, arguments)),
                            Terminal(0)]
  }

  function Rewritten(index: int, call: Call): seq<Event> {
    [ItemDone(index, Item(true, false, "", call.id)), CallReady(index, call), Terminal(0)]
  }

  // How the detector classifies a response.
  ghost predicate Judged(detect: string -> Detection, whole: seq<Event>, read: seq<Event>, acted: bool) {
    match Verdict(detect, Spoken(read, Top(read)))
    case Usable(name, arguments) => if acted then Transparent(whole, read) else Repaired(whole, read, name, arguments)
    case Clean => Transparent(whole, read)
    case Defective => acted && Transparent(whole, read)
  }

  lemma Released(sent: seq<Event>, pending: seq<Event>, read: seq<Event>, held: bool, acted: bool)
    requires Sorted(sent, pending, read, held, acted) && NoTwice(read)
    ensures Transparent(sent + (pending + [Terminal(0)]), read)
  {
    var last, both := Terminal(0), sent + pending;
    var whole := sent + (pending + [last]);
    Associate(sent, pending, [last]);
    JoinedCarry(sent, pending, read);
    assert whole[..|whole| - 1] == both;
  }

  lemma JoinedCarry(a: seq<Event>, b: seq<Event>, read: seq<Event>)
    requires Carry(a, b, read)
    ensures Carry(a + b, [], read)
  {
    CharsJoin(a, b);
    OnlyJoin(a, b, Native);
    OnlyJoin(a, b, Plain);
    forall i ensures Items(a + b, i) + Items([], i) == Items(read, i) { ItemsJoin(a, b, i); }
    assert Chars(a + b) + [] == Chars(a + b);
    assert Only(a + b, Native) + [] == Only(a + b, Native) && Only(a + b, Plain) + [] == Only(a + b, Plain);
  }

  lemma Synthesized(sent: seq<Event>, pending: seq<Event>, read: seq<Event>, held: bool, call: Call)
    requires Sorted(sent, pending, read, held, false)
    ensures Harmless(sent) && Repaired(sent + Rewritten(Top(read) + 1, call), read, call.name, call.arguments)
  {
    assert Only(sent, Native) == [];
    NativeListed(sent);
    assert Chars(sent) <= Chars(read);
    assert sent + Rewritten(Top(read) + 1, call) == sent + Rewritten(Top(read) + 1, Call(call.id, call.name, call.arguments));
  }
}
