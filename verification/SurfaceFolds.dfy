// What a batch of messages does to a surface, message by message, and what every surface that a
// fold returns has (kit/result/surface_fold.go, kit/result/surface.go).
module SurfaceFolds {
  import opened Sequences
  import opened Wrappers
  import opened JsonTree
  import opened SurfaceTree
  import opened Surface
  import Pointer

  // ---- Messages.

  // The surface lives, and the message is for it.
  predicate Lives(s: Option<Surface>, id: string) {
    s.Some? && !s.value.deleted && s.value.id == id
  }

  // A surface is created where none lives, and only under the identity it had.
  lemma CreateExactly(s: Option<Surface>, size: nat, id: string, known: bool)
    ensures ApplyAll(s, [Message(size, Some(Create(id, known)))])
            == if id != "" && known && (s.None? || (s.value.deleted && s.value.id == id))
               then Some(Some(Surface(id, false, [], map[]))) else None
  {
    OneMessage(s, Message(size, Some(Create(id, known))));
  }

  lemma DeleteExactly(s: Option<Surface>, size: nat, id: string)
    ensures ApplyAll(s, [Message(size, Some(Delete(id)))])
            == if Lives(s, id) then Some(Some(Surface(id, true, [], map[]))) else None
  {
    OneMessage(s, Message(size, Some(Delete(id))));
  }

  // The components of an update, each with its shape and all of different identities.
  predicate Updates(items: seq<Option<Component>>) {
    && 1 <= |items| <= 256 && (forall i :: 0 <= i < |items| ==> items[i].Some?)
    && forall i, j :: 0 <= i < j < |items| ==> items[i].Some? && items[j].Some? ==> items[i].value.id != items[j].value.id
  }

  // An update leaves its own components, and of the others those whose identity it has not.
  lemma UpdateExactly(s: Option<Surface>, size: nat, id: string, items: seq<Option<Component>>)
    requires s.Some? ==> Unique(s.value.components)
    ensures var after := ApplyAll(s, [Message(size, Some(Update(id, items)))]);
            && (after.Some? <==> Lives(s, id) && Updates(items))
            && (after.Some? ==>
                  && after.value.Some? && Unique(after.value.value.components)
                  && after.value.value == s.value.(components := after.value.value.components)
                  && forall c :: c in after.value.value.components <==>
                       || Some(c) in items
                       || (c in s.value.components
                           && forall i :: 0 <= i < |items| ==> items[i].Some? ==> items[i].value.id != c.id))
  {
    OneMessage(s, Message(size, Some(Update(id, items))));
    if Lives(s, id) {
      PutsExactly(s.value.components, items, |items|);
      assert items[..|items|] == items;
    }
  }

  // No two of the first n components have one identity, and each has its shape.
  ghost predicate Shaped(items: seq<Option<Component>>, n: nat)
    requires n <= |items|
  {
    && (forall i :: 0 <= i < n ==> items[i].Some?)
    && forall i, j :: 0 <= i < j < n ==> items[i].Some? && items[j].Some? ==> items[i].value.id != items[j].value.id
  }

  // What the first n components leave.
  ghost predicate Puts(cs: seq<Component>, items: seq<Option<Component>>, n: nat, after: seq<Component>)
    requires n <= |items|
  {
    && Unique(after)
    && forall c :: c in after <==>
         || Some(c) in items[..n]
         || (c in cs && forall i :: 0 <= i < n ==> items[i].Some? ==> items[i].value.id != c.id)
  }

  lemma {:induction false} PutsExactly(cs: seq<Component>, items: seq<Option<Component>>, n: nat)
    requires n <= |items| && Unique(cs)
    ensures PutAll(cs, items, n).Some? <==> Shaped(items, n)
    ensures PutAll(cs, items, n).Some? ==> Puts(cs, items, n, PutAll(cs, items, n).value)
  {
    hide Puts, Put;
    if n == 0 {
      NoPuts(cs, items);
    } else {
      PutsExactly(cs, items, n - 1);
      if PutAll(cs, items, n).Some? { OnePut(cs, items, n, PutAll(cs, items, n - 1).value); }
    }
  }

  lemma NoPuts(cs: seq<Component>, items: seq<Option<Component>>)
    requires Unique(cs)
    ensures Puts(cs, items, 0, cs)
  {
  }

  lemma OnePut(cs: seq<Component>, items: seq<Option<Component>>, n: nat, before: seq<Component>)
    requires 0 < n <= |items| && Shaped(items, n) && Puts(cs, items, n - 1, before)
    ensures Puts(cs, items, n, Put(before, items[n - 1].value))
  {
    hide Put;
    var c := items[n - 1].value;
    PutHolds(before, c);
    assert items[..n] == items[..n - 1] + [items[n - 1]];
    forall x | Some(x) in items[..n - 1] ensures x.id != c.id {
      var i :| 0 <= i < n - 1 && items[..n - 1][i] == Some(x);
      assert items[i].value.id != items[n - 1].value.id;
    }
  }

  // A write is read as a pointer, and its result joins the data model.
  lemma DataExactly(s: Option<Surface>, size: nat, id: string, path: string, value: Option<Json>)
    ensures var after := ApplyAll(s, [Message(size, Some(SetData(id, path, value)))]);
            var parts := Pointer.PartsOf(path);
            && (after.Some? <==> && Lives(s, id) && parts.Some?
                                 && Set(Some(Object(s.value.data)), parts.value, value).Some?
                                 && Set(Some(Object(s.value.data)), parts.value, value).value.Object?)
            && (after.Some? ==>
                  after.value
                  == Some(s.value.(data := s.value.data + Set(Some(Object(s.value.data)), parts.value, value).value.fields)))
  {
    OneMessage(s, Message(size, Some(SetData(id, path, value))));
  }

  // A message without exactly one operation is refused, and messages apply one after another.
  lemma MessagesExactly(s: Option<Surface>, batch: seq<Message>, m: Message)
    ensures m.op.None? ==> ApplyAll(s, batch + [m]).None?
    ensures ApplyAll(s, []) == Some(s)
    ensures ApplyAll(s, batch + [m]) == if ApplyAll(s, batch).None? then None else ApplyAll(ApplyAll(s, batch).value, [m])
  {
    ApplyJoins(s, batch, [m]);
    assert (batch + [m])[..|batch + [m]| - 1] == batch;
    assert [m][..0] == [];
  }

  // ---- Values.

  // The value is bound to a path of the data model.
  predicate Binds(raw: Json, path: string) {
    path != "" && raw.Object? && "path" in raw.fields && raw.fields["path"] == Str(path)
  }

  // What a value is: itself, or what its path leads to.
  ghost predicate Shows(s: Surface, raw: Json, v: Json) {
    if exists path :: Binds(raw, path) then
      exists path ::
        Binds(raw, path) && Pointer.PartsOf(path).Some? && Get(Object(s.data), Pointer.PartsOf(path).value) == Some(v)
    else v == raw
  }

  lemma BindsExactly(raw: Json, path: string)
    ensures Binds(raw, path) <==> path != "" && PathOf(raw) == path
  {
  }

  lemma ShowsExactly(s: Surface, raw: Json, v: Json)
    ensures Shows(s, raw, v) <==> ValueOf(s, raw) == Some(v)
  {
    BindsExactly(raw, PathOf(raw));
    forall path { BindsExactly(raw, path); }
  }

  // ---- The check of a surface.

  // Every text of a component is a string, and its value and what its action sends exist and are
  // of the right kind.
  ghost predicate Complete(s: Surface, c: Component, rules: Rules) {
    && (forall i :: 0 <= i < |c.texts| ==> ShowsText(s, c.texts[i]))
    && (c.value.Some? ==> ShowsGood(s, c.value.value, v => rules.widget(c, v)))
    && (c.action.Some? ==> forall i :: 0 <= i < |c.action.value.context| ==>
          ShowsGood(s, c.action.value.context[i], rules.context))
  }

  ghost predicate ShowsText(s: Surface, raw: Json) {
    exists text :: Shows(s, raw, Str(text))
  }

  ghost predicate ShowsGood(s: Surface, raw: Json, good: Json -> bool) {
    exists v :: Shows(s, raw, v) && good(v)
  }

  // No path is bound by two values that can be edited, and no two actions have one name.
  ghost predicate Apart(c: Component, d: Component) {
    && (c.value.Some? && d.value.Some? ==> forall path :: !(Binds(c.value.value, path) && Binds(d.value.value, path)))
    && (c.action.Some? && d.action.Some? ==> c.action.value.name != d.action.value.name)
  }

  function Acts(cs: seq<Component>): nat {
    if cs == [] then 0 else Acts(cs[..|cs| - 1]) + if cs[|cs| - 1].action.Some? then 1 else 0
  }

  ghost predicate Sound(s: Surface, rules: Rules) {
    && rules.body(s)
    && if s.deleted then s.components == [] && s.data == map[]
       else
         && Ordered(s.components) == Some(s.components)
         && (forall c :: c in s.components ==> Complete(s, c, rules))
         && (forall i, j :: 0 <= i < j < |s.components| ==> Apart(s.components[i], s.components[j]))
         && Acts(s.components) <= 26
  }

  lemma CompleteExactly(s: Surface, c: Component, rules: Rules)
    ensures WidgetOk(s, c, rules) <==> Complete(s, c, rules)
  {
    hide ValueOf, Shows, IsText, ShowsText, ShowsGood;
    forall raw { TextExactly(s, raw); }
    forall raw, good { FitsWhen(s, raw, good); }
  }

  lemma TextExactly(s: Surface, raw: Json)
    ensures IsText(s, raw) <==> ShowsText(s, raw)
  {
    hide Shows;
    forall v { ShowsExactly(s, raw, v); }
    if IsText(s, raw) { assert Shows(s, raw, Str(ValueOf(s, raw).value.s)); }
  }

  lemma FitsWhen(s: Surface, raw: Json, good: Json -> bool)
    ensures (ValueOf(s, raw).Some? && good(ValueOf(s, raw).value)) <==> ShowsGood(s, raw, good)
  {
    hide Shows;
    forall v { ShowsExactly(s, raw, v); }
    if ValueOf(s, raw).Some? { assert Shows(s, raw, ValueOf(s, raw).value); }
  }

  // What may stand last in a list without repetition.
  lemma DistinctLast<T>(before: seq<T>, last: T)
    ensures Distinct(before + [last]) <==> Distinct(before) && last !in before
  {
    var all := before + [last];
    if i, j :| 0 <= i < j < |before| && before[i] == before[j] { assert all[i] == all[j]; }
    if last in before {
      var i :| 0 <= i < |before| && before[i] == last;
      assert all[i] == all[|before|];
    }
  }

  function Kept(names: seq<Option<string>>): seq<string> {
    if names == [] then []
    else Kept(names[..|names| - 1]) + if names[|names| - 1].Some? then [names[|names| - 1].value] else []
  }

  lemma {:induction false} KeptExactly(names: seq<Option<string>>)
    ensures forall name :: name in Kept(names) <==> Some(name) in names
    ensures Distinct(Kept(names)) <==> forall i, j :: 0 <= i < j < |names| ==> names[i].None? || names[i] != names[j]
  {
    if names != [] {
      var before, last := names[..|names| - 1], names[|names| - 1];
      KeptExactly(before);
      assert names == before + [last];
      if last.Some? {
        DistinctLast(Kept(before), last.value);
        if last in before {
          var i :| 0 <= i < |before| && before[i] == last;
          assert names[i] == names[|before|];
        }
      } else {
        assert Kept(before) + [] == Kept(before);
      }
      if i, j :| 0 <= i < j < |before| && before[i].Some? && before[i] == before[j] { assert names[i] == names[j]; }
    }
  }

  function Editables(cs: seq<Component>): seq<Option<string>> {
    seq(|cs|, i requires 0 <= i < |cs| => Editable(cs[i]))
  }

  function Actings(cs: seq<Component>): seq<Option<string>> {
    seq(|cs|, i requires 0 <= i < |cs| => Acting(cs[i]))
  }

  lemma {:induction false} BoundKept(cs: seq<Component>)
    ensures Bound(cs) == Kept(Editables(cs)) && Actions(cs) == Kept(Actings(cs)) && |Actions(cs)| == Acts(cs)
  {
    if cs != [] {
      var last := |cs| - 1;
      BoundKept(cs[..last]);
      assert Editables(cs)[..last] == Editables(cs[..last]) && Actings(cs)[..last] == Actings(cs[..last]);
    }
  }

  lemma ApartExactly(c: Component, d: Component)
    ensures Apart(c, d)
            <==> (Editable(c).Some? ==> Editable(c) != Editable(d)) && (Acting(c).Some? ==> Acting(c) != Acting(d))
  {
    hide PathOf;
    forall raw, path { BindsExactly(raw, path); }
    if Editable(c).Some? && Editable(c) == Editable(d) {
      var path := Editable(c).value;
      assert Binds(c.value.value, path) && Binds(d.value.value, path);
    }
  }

  lemma AllApart(cs: seq<Component>)
    ensures (forall i, j :: 0 <= i < j < |cs| ==> Apart(cs[i], cs[j])) <==> Distinct(Bound(cs)) && Distinct(Actions(cs))
  {
    hide Editable, Acting, Apart, Bound, Actions;
    BoundKept(cs);
    KeptExactly(Editables(cs));
    KeptExactly(Actings(cs));
    forall c, d { ApartExactly(c, d); }
    assert forall i :: 0 <= i < |cs| ==> Editables(cs)[i] == Editable(cs[i]) && Actings(cs)[i] == Acting(cs[i]);
  }

  lemma SoundExactly(s: Surface, rules: Rules)
    requires !s.deleted ==> Ordered(s.components) == Some(s.components)
    ensures Checked(s, rules) <==> Sound(s, rules)
  {
    hide WidgetOk, Complete, Apart, Bound, Actions, Ordered;
    AllApart(s.components);
    BoundKept(s.components);
    forall c { CompleteExactly(s, c, rules); }
    assert forall c :: c in s.components ==> exists i :: 0 <= i < |s.components| && s.components[i] == c;
  }

  // ---- Folds.

  // A fold returns what its messages leave, ordered, exactly when there are as many messages of
  // as much size as allowed, all of them apply, the components make a tree, and the result is
  // sound.
  lemma FoldExactly(previous: Option<Surface>, batch: seq<Message>, rules: Rules, t: Surface)
    ensures Fold(previous, batch, rules) == Some(t)
            <==> && 1 <= |batch| <= 256 && Size(batch) <= 64 * 1024
                 && Sound(t, rules)
                 && exists s: Surface :: && ApplyAll(previous, batch) == Some(Some(s))
                                && if s.deleted then t == s
                                   else Ordered(s.components) == Some(t.components) && t == s.(components := t.components)
  {
    hide Sound, Checked, Ordered, Size;
    if t.deleted { SoundExactly(t, rules); }
    var after := ApplyAll(previous, batch);
    if after.Some? && after.value.Some? && !after.value.value.deleted && Ordered(after.value.value.components).Some? {
      var s := after.value.value;
      var cs := Ordered(s.components).value;
      OrderedTwice(s.components, cs);
      SoundExactly(s.(components := cs), rules);
    }
  }

  // So a live surface can be deleted, whatever it holds, and the body rule alone decides.
  lemma DeleteFolds(s: Surface, size: nat, rules: Rules)
    requires !s.deleted && size <= 64 * 1024
    ensures var gone := Surface(s.id, true, [], map[]);
            Fold(Some(s), [Message(size, Some(Delete(s.id)))], rules) == if rules.body(gone) then Some(gone) else None
  {
    var batch, gone := [Message(size, Some(Delete(s.id)))], Surface(s.id, true, [], map[]);
    DeleteExactly(Some(s), size, s.id);
    assert batch[..0] == [] && Size(batch[..0]) == 0 && Size(batch) == size;
    FoldExactly(Some(s), batch, rules, gone);
    if t :| Fold(Some(s), batch, rules) == Some(t) { FoldExactly(Some(s), batch, rules, t); }
  }

  // A message for another surface, a missing or a deleted one is refused wherever it stands.
  lemma StrangersRefused(previous: Option<Surface>, before: seq<Message>, m: Message, rest: seq<Message>, id: string,
                         rules: Rules)
    requires m.op.Some? && !m.op.value.Create? && m.op.value.id == id
    requires ApplyAll(previous, before).Some? ==> !Lives(ApplyAll(previous, before).value, id)
    ensures Fold(previous, before + [m] + rest, rules).None?
  {
    MessagesExactly(previous, before, m);
    if ApplyAll(previous, before).Some? {
      var s := ApplyAll(previous, before).value;
      match m.op.value
      case Update(_, items) => OneMessage(s, m);
      case SetData(_, path, value) => DataExactly(s, m.size, id, path, value);
      case Delete(_) => DeleteExactly(s, m.size, id);
    }
    ApplyJoins(previous, before + [m], rest);
  }

  // The size of a batch is that of its messages.
  lemma SizeExactly(batch: seq<Message>, m: Message)
    ensures Size([]) == 0 && Size(batch + [m]) == Size(batch) + m.size
  {
    assert (batch + [m])[..|batch + [m]| - 1] == batch;
  }
}
