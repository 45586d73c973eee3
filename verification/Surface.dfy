// Folding batches of messages into a surface, and the check of a whole surface
// (kit/result/surface_fold.go, kit/result/surface.go).
module Surface {
  import opened Sequences
  import opened Wrappers
  import opened JsonTree
  import opened SurfaceTree
  import Pointer

  const MAX_MESSAGES := 256
  const MAX_COMPONENTS := 256
  const MAX_SIZE := 65536
  const MAX_ACTIONS := 26

  datatype Surface = Surface(id: string, deleted: bool, components: seq<Component>, data: map<string, Json>)

  // A component that fails its schema or shape is None.
  datatype Operation =
    | Create(id: string, known: bool)
    | Update(id: string, items: seq<Option<Component>>)
    | SetData(id: string, path: string, value: Option<Json>)
    | Delete(id: string)

  // A message that is not exactly one operation has None.
  datatype Message = Message(size: nat, op: Option<Operation>)

  // Checks that rest on the catalog schema and on the formats of single values.
  datatype Rules = Rules(body: Surface -> bool, widget: (Component, Json) -> bool, context: Json -> bool)

  // ---- One operation.

  // Replace the component of the same identity, or append.
  function Put(cs: seq<Component>, c: Component): (r: seq<Component>)
    ensures |r| == |cs| || |r| == |cs| + 1
  {
    if cs == [] then [c]
    else if cs[0].id == c.id then [c] + cs[1..]
    else [cs[0]] + Put(cs[1..], c)
  }

  // The first n items are put in order; a repeated identity is an error.
  function PutAll(cs: seq<Component>, items: seq<Option<Component>>, n: nat): Option<seq<Component>>
    requires n <= |items|
  {
    if n == 0 then Some(cs)
    else
      var before := PutAll(cs, items, n - 1);
      var item := items[n - 1];
      if before.None? || item.None?
          || (exists k :: 0 <= k < n - 1 && items[k].Some? && items[k].value.id == item.value.id) then None
      else Some(Put(before.value, item.value))
  }

  // The updated document is decoded into the map that is already there, so its members are
  // added to those of the surface, and none is ever dropped.
  function WithData(s: Surface, path: string, value: Option<Json>): Option<Surface> {
    var parts := Pointer.PartsOf(path);
    if parts.None? then None
    else
      match Set(Some(Object(s.data)), parts.value, value)
      case Some(Object(fields)) => Some(s.(data := s.data + fields))
      case _ => None
  }

  function Apply(s: Option<Surface>, op: Operation): Option<Surface> {
    match op
    case Create(id, known) =>
      if id == "" || !known || (s.Some? && (!s.value.deleted || s.value.id != id)) then None
      else Some(Surface(id, false, [], map[]))
    case Update(id, items) =>
      if s.None? || s.value.deleted || s.value.id != id || |items| == 0 || |items| > MAX_COMPONENTS then None
      else
        var cs := PutAll(s.value.components, items, |items|);
        if cs.None? then None else Some(s.value.(components := cs.value))
    case SetData(id, path, value) =>
      if s.None? || s.value.deleted || s.value.id != id then None else WithData(s.value, path, value)
    case Delete(id) =>
      if s.None? || s.value.deleted
          || s.value.id != id then None else Some(s.value.(deleted := true, components := [], data := map[]))
  }

  // ---- A batch.

  // None is an error, Some(None) no surface yet.
  function ApplyAll(s: Option<Surface>, batch: seq<Message>): Option<Option<Surface>> {
    if batch == [] then Some(s)
    else
      var before := ApplyAll(s, batch[..|batch| - 1]);
      var op := batch[|batch| - 1].op;
      if before.None? || op.None? then None
      else
        var next := Apply(before.value, op.value);
        if next.None? then None else Some(next)
  }

  function Size(batch: seq<Message>): nat {
    if batch == [] then 0 else Size(batch[..|batch| - 1]) + batch[|batch| - 1].size
  }

  predicate Fits(batch: seq<Message>) {
    0 < |batch| <= MAX_MESSAGES && Size(batch) <= MAX_SIZE
  }

  // Detached components are dropped; then the whole surface is checked.
  function Finished(s: Surface, rules: Rules): Option<Surface> {
    if s.deleted then (if Checked(s, rules) then Some(s) else None)
    else
      var cs := Ordered(s.components);
      if cs.None? || !Checked(s.(components := cs.value), rules) then None else Some(s.(components := cs.value))
  }

  function Fold(previous: Option<Surface>, batch: seq<Message>, rules: Rules): Option<Surface> {
    if !Fits(batch) then None
    else
      var s := ApplyAll(previous, batch);
      if s.None? || s.value.None? then None else Finished(s.value.value, rules)
  }

  // ---- The check of a whole surface.

  // The path of a bound value, empty for a constant.
  function PathOf(raw: Json): string {
    if raw.Object? && "path" in raw.fields && raw.fields["path"].Str? then raw.fields["path"].s else ""
  }

  function ValueOf(s: Surface, raw: Json): Option<Json> {
    if PathOf(raw) == "" then Some(raw)
    else
      var parts := Pointer.PartsOf(PathOf(raw));
      if parts.None? then None else Get(Object(s.data), parts.value)
  }

  predicate IsText(s: Surface, raw: Json) {
    var v := ValueOf(s, raw);
    v.Some? && v.value.Str?
  }

  predicate WidgetOk(s: Surface, c: Component, rules: Rules) {
    && (forall i :: 0 <= i < |c.texts| ==> IsText(s, c.texts[i]))
    && (c.value.Some? ==> var v := ValueOf(s, c.value.value); v.Some? && rules.widget(c, v.value))
    && (c.action.Some? ==> forall i :: 0 <= i < |c.action.value.context| ==>
          var v := ValueOf(s, c.action.value.context[i]); v.Some? && rules.context(v.value))
  }

  function Editable(c: Component): Option<string> {
    if c.value.Some? && PathOf(c.value.value) != "" then Some(PathOf(c.value.value)) else None
  }

  function Acting(c: Component): Option<string> {
    if c.action.Some? then Some(c.action.value.name) else None
  }

  // The paths of editable bindings and the names of actions, by component.
  function Bound(cs: seq<Component>): seq<string> {
    if cs == [] then []
    else
      var c := cs[|cs| - 1];
      Bound(cs[..|cs| - 1]) + if Editable(c).Some? then [Editable(c).value] else []
  }

  function Actions(cs: seq<Component>): seq<string> {
    if cs == [] then []
    else Actions(cs[..|cs| - 1]) + if Acting(cs[|cs| - 1]).Some? then [Acting(cs[|cs| - 1]).value] else []
  }

  predicate Checked(s: Surface, rules: Rules) {
    && rules.body(s)
    && if s.deleted then s.components == [] && s.data == map[]
       else
         var cs := Ordered(s.components);
         && cs.Some? && |cs.value| == |s.components|
         && (forall i :: 0 <= i < |cs.value| ==> WidgetOk(s, cs.value[i], rules))
         && Distinct(Bound(cs.value)) && Distinct(Actions(cs.value)) && |Actions(cs.value)| <= MAX_ACTIONS
  }

  method Check(s: Surface, rules: Rules) returns (ok: bool)
    ensures ok == Checked(s, rules)
  {
    if !rules.body(s) { return false; }
    if s.deleted { return s.components == [] && s.data == map[]; }
    var cs := Order(s.components);
    if cs.None? || |cs.value| != |s.components| { return false; }
    ok := CheckEach(s, cs.value, rules);
  }

  // The loop over the components in their order.
  method CheckEach(s: Surface, cs: seq<Component>, rules: Rules) returns (ok: bool)
    ensures ok <==> && (forall i :: 0 <= i < |cs| ==> WidgetOk(s, cs[i], rules))
                    && Distinct(Bound(cs)) && Distinct(Actions(cs)) && |Actions(cs)| <= MAX_ACTIONS
  {
    hide Distinct, WidgetOk, Bound, Actions, PathOf, Editable, Acting;
    var names: set<string>, paths: set<string> := {}, {};
    NoNamesYet(cs);
    for i := 0 to |cs|
      invariant forall k :: 0 <= k < i ==> WidgetOk(s, cs[k], rules)
      invariant Listed(paths, Bound(cs[..i])) && Listed(names, Actions(cs[..i])) && |names| <= MAX_ACTIONS
    {
      hide Listed;
      if !WidgetOk(s, cs[i], rules) { return false; }
      OneMoreName(cs, i, paths, names);
      var path, name := Editable(cs[i]), Acting(cs[i]);
      if path.Some? {
        if path.value in paths {
          BoundGrows(cs, i + 1);
          return false;
        }
        paths := paths + {path.value};
      }
      if name.Some? {
        if name.value in names || |names| >= MAX_ACTIONS {
          ActionsGrow(cs, i + 1);
          return false;
        }
        names := names + {name.value};
      }
    }
    assert cs[..|cs|] == cs;
    ok := true;
  }

  lemma NoNamesYet(cs: seq<Component>)
    ensures Listed({}, Bound(cs[..0])) && Listed({}, Actions(cs[..0]))
  {
  }

  // What one more component does to the paths and names.
  lemma OneMoreName(cs: seq<Component>, i: nat, paths: set<string>, names: set<string>)
    requires i < |cs| && Listed(paths, Bound(cs[..i])) && Listed(names, Actions(cs[..i])) && |names| <= MAX_ACTIONS
    ensures match Editable(cs[i])
            case None => Listed(paths, Bound(cs[..i + 1]))
            case Some(p) => if p in paths then !Distinct(Bound(cs[..i + 1])) else Listed(paths + {p}, Bound(cs[..i + 1]))
    ensures match Acting(cs[i])
            case None => Listed(names, Actions(cs[..i + 1]))
            case Some(n) =>
              && (n in names || |names| >= MAX_ACTIONS
                  ==> !Distinct(Actions(cs[..i + 1])) || |Actions(cs[..i + 1])| > MAX_ACTIONS)
              && (n !in names ==> Listed(names + {n}, Actions(cs[..i + 1])) && |names + {n}| == |names| + 1)
  {
    assert cs[..i + 1][..i] == cs[..i];
    if Editable(cs[i]).Some? { AddListed(paths, Bound(cs[..i]), Editable(cs[i]).value); }
    if Acting(cs[i]).Some? { AddListed(names, Actions(cs[..i]), Acting(cs[i]).value); }
  }

  // The set holds the names of the list, which has no repetition.
  ghost predicate Listed(names: set<string>, list: seq<string>) {
    Distinct(list) && |names| == |list| && forall n :: n in names <==> n in list
  }

  lemma AddListed(names: set<string>, list: seq<string>, name: string)
    requires Listed(names, list)
    ensures if name in names then !Distinct(list + [name]) else Listed(names + {name}, list + [name])
  {
    var more := list + [name];
    if name in names {
      var k :| 0 <= k < |list| && list[k] == name;
      assert more[k] == more[|list|];
    } else {
      forall n ensures n in names + {name} <==> n in more { assert n in more <==> n in list || n == name; }
    }
  }

  lemma {:induction false} BoundGrows(cs: seq<Component>, i: nat)
    requires i <= |cs| && !Distinct(Bound(cs[..i]))
    ensures !Distinct(Bound(cs))
    decreases |cs| - i
  {
    if i == |cs| {
      assert cs[..i] == cs;
    } else {
      assert cs[..i + 1][..i] == cs[..i];
      LongerRepeats(Bound(cs[..i]), Bound(cs[..i + 1]));
      BoundGrows(cs, i + 1);
    }
  }

  lemma LongerRepeats(a: seq<string>, b: seq<string>)
    requires a <= b
    ensures !Distinct(a) ==> !Distinct(b)
    ensures |a| <= |b|
  {
  }

  lemma {:induction false} ActionsGrow(cs: seq<Component>, i: nat)
    requires i <= |cs| && (!Distinct(Actions(cs[..i])) || |Actions(cs[..i])| > MAX_ACTIONS)
    ensures !Distinct(Actions(cs)) || |Actions(cs)| > MAX_ACTIONS
    decreases |cs| - i
  {
    if i == |cs| {
      assert cs[..i] == cs;
    } else {
      assert cs[..i + 1][..i] == cs[..i];
      LongerRepeats(Actions(cs[..i]), Actions(cs[..i + 1]));
      ActionsGrow(cs, i + 1);
    }
  }

  // ---- FoldSurface as the code runs it, on a private copy.

  method FoldSurface(previous: Option<Surface>, batch: seq<Message>, rules: Rules) returns (r: Option<Surface>)
    ensures r == Fold(previous, batch, rules)
  {
    if |batch| == 0 || |batch| > MAX_MESSAGES { return None; }
    var s, total := previous, 0;
    for i := 0 to |batch|
      invariant ApplyAll(previous, batch[..i]) == Some(s) && total == Size(batch[..i]) <= MAX_SIZE
      invariant i > 0 ==> s.Some?
    {
      assert batch[..i + 1][..i] == batch[..i];
      total := total + batch[i].size;
      if total > MAX_SIZE {
        SizeGrows(batch, i + 1);
        return None;
      }
      if batch[i].op.None? {
        ErrorStays(previous, batch, i + 1);
        return None;
      }
      var next := Apply(s, batch[i].op.value);
      if next.None? {
        ErrorStays(previous, batch, i + 1);
        return None;
      }
      s := next;
    }
    assert batch[..|batch|] == batch;
    var out := s.value;
    if !out.deleted {
      var cs := Order(out.components);
      if cs.None? { return None; }
      out := out.(components := cs.value);
    }
    var ok := Check(out, rules);
    r := if ok then Some(out) else None;
  }

  lemma {:induction false} SizeGrows(batch: seq<Message>, i: nat)
    requires i <= |batch|
    ensures Size(batch[..i]) <= Size(batch)
    decreases |batch| - i
  {
    if i == |batch| {
      assert batch[..i] == batch;
    } else {
      assert batch[..i + 1][..i] == batch[..i];
      SizeGrows(batch, i + 1);
    }
  }

  lemma {:induction false} ErrorStays(s: Option<Surface>, batch: seq<Message>, i: nat)
    requires i <= |batch| && ApplyAll(s, batch[..i]).None?
    ensures ApplyAll(s, batch).None?
    decreases |batch| - i
  {
    if i == |batch| {
      assert batch[..i] == batch;
    } else {
      assert batch[..i + 1][..i] == batch[..i];
      ErrorStays(s, batch, i + 1);
    }
  }

  // ---- What a data message leaves in the data model.

  // The write keeps every top-level member that there was: it is no write of the whole
  // document without one of them, and no removal of one.
  predicate KeepsMembers(data: map<string, Json>, parts: seq<string>, value: Option<Json>) {
    if parts == [] then data.Keys <= (if value.Some? && value.value.Object? then value.value.fields.Keys else {})
    else |parts| > 1 || value.Some? || parts[0] !in data
  }

  // The data model becomes what the write says exactly when the write keeps every member.
  lemma DataAsWritten(s: Surface, path: string, value: Option<Json>)
    requires WithData(s, path, value).Some?
    ensures var parts, data := Pointer.PartsOf(path).value, WithData(s, path, value).value.data;
            Set(Some(Object(s.data)), parts, value) == Some(Object(data)) <==> KeepsMembers(s.data, parts, value)
  {
    var parts := Pointer.PartsOf(path).value;
    var fields := Set(Some(Object(s.data)), parts, value).value.fields;
    assert s.data + fields == fields <==> s.data.Keys <= fields.Keys by {
      if s.data.Keys <= fields.Keys {
        assert (s.data + fields).Keys == fields.Keys;
      } else {
        assert (s.data + fields).Keys != fields.Keys;
      }
    }
  }

  // Otherwise the removal of a member, or of the whole document, changes nothing, and a write
  // of the whole document adds to what there is.
  lemma DataMerged(s: Surface, path: string, value: Option<Json>)
    requires WithData(s, path, value).Some?
    ensures var parts, t := Pointer.PartsOf(path).value, WithData(s, path, value).value;
            && (|parts| <= 1 && value.None? ==> t == s)
            && (parts == [] && value.Some? ==> value.value.Object? && t == s.(data := s.data + value.value.fields))
  {
    var parts := Pointer.PartsOf(path).value;
    if |parts| == 1 && value.None? { assert s.data + (s.data - {parts[0]}) == s.data; }
    if parts == [] && value.None? { assert s.data + map[] == s.data; }
  }

  // Below the whole document, a value that was written is read back.
  lemma DataReadBack(s: Surface, path: string, value: Json)
    requires WithData(s, path, Some(value)).Some? && Pointer.PartsOf(path).value != []
    ensures Get(Object(WithData(s, path, Some(value)).value.data), Pointer.PartsOf(path).value) == Some(value)
  {
    DataAsWritten(s, path, Some(value));
    SetGet(Some(Object(s.data)), Pointer.PartsOf(path).value, value);
  }

  // And what lies on a path that parts from it is as before.
  lemma DataKeepsOthers(s: Surface, path: string, value: Json, other: seq<string>)
    requires WithData(s, path, Some(value)).Some? && Pointer.PartsOf(path).value != []
    requires Parts(Some(Object(s.data)), Pointer.PartsOf(path).value, other)
    ensures Get(Object(WithData(s, path, Some(value)).value.data), other) == Get(Object(s.data), other)
  {
    DataAsWritten(s, path, Some(value));
    SetKeepsOthers(Some(Object(s.data)), Pointer.PartsOf(path).value, other, value);
  }

  // A member stays after its removal, and beside the members of a new document.
  lemma RemovedMemberStays()
    ensures var s := Surface("s", false, [], map["a" := Number(1)]);
            && WithData(Surface("s", false, [], map[]), "/a", Some(Number(1))) == Some(s)
            && WithData(s, "/a", None) == Some(s)
            && WithData(s, "/", Some(Object(map["b" := Number(1)])))
               == Some(s.(data := map["a" := Number(1), "b" := Number(1)]))
  {
    Pointer.PartsOfPointer(["a"]);
    assert Pointer.PointerOf(["a"]) == "/a" && Pointer.PartsOf("/a") == Some(["a"]);
    var s := Surface("s", false, [], map["a" := Number(1)]);
    assert s.data - {"a"} == map[] && s.data + map[] == s.data;
    var none: map<string, Json> := map[];
    assert Set(None, [], Some(Number(1))) == Some(Number(1));
    assert Set(Some(Object(none)), ["a"], Some(Number(1))) == Some(Object(none["a" := Number(1)]));
    assert none + none["a" := Number(1)] == s.data;
    assert s.data + map["b" := Number(1)] == map["a" := Number(1), "b" := Number(1)];
  }

  // ---- Two batches and one.

  lemma {:induction false} ApplyJoins(s: Option<Surface>, a: seq<Message>, b: seq<Message>)
    ensures ApplyAll(s, a + b) == if ApplyAll(s, a).None? then None else ApplyAll(ApplyAll(s, a).value, b)
    decreases |b|
  {
    if b == [] {
      assert a + b == a;
    } else {
      assert (a + b)[..|a + b| - 1] == a + b[..|b| - 1];
      ApplyJoins(s, a, b[..|b| - 1]);
    }
  }

  // b has what a has, and perhaps components that a does not have.
  ghost predicate Covers(b: Surface, a: Surface) {
    && b.id == a.id && b.deleted == a.deleted && b.data == a.data
    && Unique(a.components) && Unique(b.components) && (b.deleted ==> b.components == [])
    && forall c :: c in a.components ==> c in b.components
  }

  lemma {:induction false} PutHolds(cs: seq<Component>, c: Component)
    requires Unique(cs)
    ensures Unique(Put(cs, c))
    ensures forall x :: x in Put(cs, c) <==> x == c || (x in cs && x.id != c.id)
  {
    if cs != [] {
      if cs[0].id == c.id {
        assert forall x :: x in cs <==> x == cs[0] || x in cs[1..];
        forall x | x in cs[1..] ensures x.id != c.id { }
      } else {
        PutHolds(cs[1..], c);
        assert forall x :: x in cs <==> x == cs[0] || x in cs[1..];
        forall k | 0 <= k < |Put(cs[1..], c)| ensures Put(cs[1..], c)[k].id != cs[0].id {
          assert Put(cs[1..], c)[k] in Put(cs[1..], c);
        }
      }
    }
  }

  // Putting the same items into both succeeds alike, and what the one then lacks, it lacked
  // before and was not put.
  lemma {:induction false} PutAllCovers(a: seq<Component>, b: seq<Component>, items: seq<Option<Component>>, n: nat)
    requires n <= |items| && Unique(a) && Unique(b) && forall c :: c in a ==> c in b
    ensures PutAll(a, items, n).Some? <==> PutAll(b, items, n).Some?
    ensures PutAll(a, items, n).Some? ==>
              var x, y := PutAll(a, items, n).value, PutAll(b, items, n).value;
              && Unique(x) && Unique(y) && (forall c :: c in x ==> c in y)
              && forall c :: c in y ==>
                   && (c in b || Some(c) in items[..n])
                   && (c in x <==> c in a || Some(c) in items[..n])
  {
    if n > 0 {
      PutAllCovers(a, b, items, n - 1);
      assert items[..n] == items[..n - 1] + [items[n - 1]];
      if PutAll(a, items, n).Some? {
        PutHolds(PutAll(a, items, n - 1).value, items[n - 1].value);
        PutHolds(PutAll(b, items, n - 1).value, items[n - 1].value);
      }
    }
  }

  // An update of the batch puts this component.
  predicate Puts(batch: seq<Message>, c: Component) {
    exists k :: 0 <= k < |batch| && PutBy(batch[k].op, c)
  }

  predicate PutBy(op: Option<Operation>, c: Component) {
    op.Some? && op.value.Update? && Some(c) in op.value.items
  }

  lemma PutsMore(batch: seq<Message>, c: Component)
    requires batch != []
    ensures Puts(batch, c) <==> Puts(batch[..|batch| - 1], c) || PutBy(batch[|batch| - 1].op, c)
  {
    var last := |batch| - 1;
    if k :| 0 <= k < |batch| && PutBy(batch[k].op, c) {
      if k < last { assert PutBy(batch[..last][k].op, c); }
    }
  }

  lemma ApplyCovers(a: Surface, b: Surface, op: Operation)
    requires Covers(b, a)
    ensures Apply(Some(a), op).Some? <==> Apply(Some(b), op).Some?
    ensures Apply(Some(a), op).Some? ==>
              var x, y := Apply(Some(a), op).value, Apply(Some(b), op).value;
              && Covers(y, x)
              && forall c :: c in y.components ==>
                   && (c in b.components || PutBy(Some(op), c))
                   && (c in x.components <==> c in a.components || PutBy(Some(op), c))
  {
    if op.Update? {
      PutAllCovers(a.components, b.components, op.items, |op.items|);
      assert op.items[..|op.items|] == op.items;
    }
  }

  lemma {:induction false} ApplyAllCovers(a: Surface, b: Surface, batch: seq<Message>)
    requires Covers(b, a)
    ensures ApplyAll(Some(a), batch).Some? <==> ApplyAll(Some(b), batch).Some?
    ensures ApplyAll(Some(a), batch).Some? ==>
              var x, y := ApplyAll(Some(a), batch).value, ApplyAll(Some(b), batch).value;
              && x.Some? && y.Some? && Covers(y.value, x.value)
              && forall c :: c in y.value.components ==>
                   (c in x.value.components <==> c in a.components || Puts(batch, c))
  {
    if batch != [] {
      var before, op := batch[..|batch| - 1], batch[|batch| - 1].op;
      ApplyAllCovers(a, b, before);
      if ApplyAll(Some(a), before).Some? && op.Some? {
        ApplyCovers(ApplyAll(Some(a), before).value.value, ApplyAll(Some(b), before).value.value, op.value);
      }
      forall c ensures Puts(batch, c) <==> Puts(before, c) || PutBy(op, c) { PutsMore(batch, c); }
    }
  }

  // What covers a surface that can be finished finishes as the same surface.
  lemma FinishedCovers(a: Surface, b: Surface, rules: Rules)
    requires Covers(b, a) && Finished(a, rules).Some?
    ensures Finished(b, rules) == Finished(a, rules)
  {
    if a.deleted {
      assert a.components == [] && b == a;
    } else {
      var out := Ordered(a.components).value;
      OrderedTwice(a.components, out);
      forall c | c in out ensures c.id in ById(b.components) && ById(b.components)[c.id] == c {
        InTable(a.components, c.id);
        var k :| 0 <= k < |a.components| && a.components[k].id == c.id;
        assert a.components[k] == c && c in b.components;
        InTable(b.components, c.id);
      }
      OrderedElsewhere(a.components, b.components, out);
    }
  }

  lemma FinishedIsCovered(s: Surface, rules: Rules)
    requires Finished(s, rules).Some?
    ensures Covers(s, Finished(s, rules).value)
  {
    if !s.deleted {
      var out := Ordered(s.components).value;
      OrderedTwice(s.components, out);
      forall c | c in out ensures c in s.components { InTable(s.components, c.id); }
    }
  }

  // When folding one batch and then another succeeds, folding both as one batch within the
  // limits gives the same surface: components dropped in between cannot matter.
  lemma FoldTwice(previous: Option<Surface>, b1: seq<Message>, b2: seq<Message>, rules: Rules)
    requires Fold(previous, b1, rules).Some? && Fold(Fold(previous, b1, rules), b2, rules).Some? && Fits(b1 + b2)
    ensures Fold(previous, b1 + b2, rules) == Fold(Fold(previous, b1, rules), b2, rules)
  {
    var whole := ApplyAll(previous, b1).value.value;
    var between := Finished(whole, rules).value;
    FinishedIsCovered(whole, rules);
    ApplyJoins(previous, b1, b2);
    ApplyAllCovers(between, whole, b2);
    FinishedCovers(ApplyAll(Some(between), b2).value.value, ApplyAll(Some(whole), b2).value.value, rules);
  }

  // Two folds succeed exactly when one does and every component of its result either was kept
  // by the first fold or is put by the second batch. The messages of the second batch can be
  // applied either way.
  lemma FoldSplits(previous: Option<Surface>, b1: seq<Message>, b2: seq<Message>, rules: Rules)
    requires Fold(previous, b1, rules).Some? && Fits(b2) && Fits(b1 + b2)
    ensures var first, joint := Fold(previous, b1, rules), Fold(previous, b1 + b2, rules);
            && (ApplyAll(first, b2).Some? <==> ApplyAll(previous, b1 + b2).Some?)
            && (Fold(first, b2, rules).Some? <==>
                && joint.Some?
                && forall c :: c in joint.value.components ==> c in first.value.components || Puts(b2, c))
  {
    hide Fits, Covers, Puts, Finished;
    var whole := ApplyAll(previous, b1).value.value;
    var first, joint := Fold(previous, b1, rules), Fold(previous, b1 + b2, rules);
    FinishedIsCovered(whole, rules);
    ApplyJoins(previous, b1, b2);
    ApplyAllCovers(first.value, whole, b2);
    if ApplyAll(first, b2).Some? {
      var x, y := ApplyAll(first, b2).value.value, ApplyAll(Some(whole), b2).value.value;
      if Fold(first, b2, rules).Some? {
        FoldTwice(previous, b1, b2, rules);
        FinishedIsCovered(x, rules);
        CoversAll(x, joint.value);
        CoversAll(y, x);
      } else if joint.Some? && forall c :: c in joint.value.components ==> c in first.value.components || Puts(b2, c) {
        FinishedIsCovered(y, rules);
        CoversAll(y, joint.value);
        FinishedWithout(x, y, rules);
      }
    }
  }

  lemma CoversAll(b: Surface, a: Surface)
    requires Covers(b, a)
    ensures forall c :: c in a.components ==> c in b.components
    ensures b.components == [] ==> a.components == []
  {
    if a.components != [] { assert a.components[0] in b.components; }
  }

  // A surface that has all components of what another one finishes as finishes too.
  lemma FinishedWithout(a: Surface, b: Surface, rules: Rules)
    requires Covers(b, a) && Finished(b, rules).Some?
    requires forall c :: c in Finished(b, rules).value.components ==> c in a.components
    ensures Finished(a, rules).Some?
  {
    if b.deleted {
      CoversAll(b, a);
      assert a == b;
    } else {
      var out := Ordered(b.components).value;
      forall c | c in out ensures c.id in ById(a.components) && ById(a.components)[c.id] == c {
        var k :| 0 <= k < |a.components| && a.components[k] == c;
        InTable(a.components, c.id);
      }
      OrderedElsewhere(b.components, a.components, out);
      assert a.(components := out) == b.(components := out);
    }
  }

  function Leaf(id: string, child: string): Component {
    Component(id, child, [], [], None, None)
  }

  lemma LeafOrder(cs: seq<Component>, root: Component)
    requires Unique(cs) && root in cs && root.id == "root" && Kids(root) == []
    ensures Ordered(cs) == Some([root])
  {
    var k :| 0 <= k < |cs| && cs[k] == root;
    InTable(cs, "root");
    assert ById(cs)["root"] == root;
    assert VisitAll(ById(cs), [], 0, 1, {"root"}) == Some([]);
    assert [root] + [] == [root];
  }

  lemma ChildOrder(cs: seq<Component>, root: Component, child: string)
    requires Unique(cs) && root in cs && root.id == "root" && Kids(root) == [child]
    ensures (forall k :: 0 <= k < |cs| ==> cs[k].id != child) ==> Ordered(cs).None?
    ensures forall c :: c in cs && c.id == child != "root" && Kids(c) == [] ==> Ordered(cs) == Some([root, c])
  {
    var k :| 0 <= k < |cs| && cs[k] == root;
    InTable(cs, "root");
    InTable(cs, child);
    var table := ById(cs);
    assert VisitAll(table, [child], 0, 1, {"root"}) == Some([]);
    assert {"root"} + Entered([]) == {"root"};
    OneChild(table, [child], 0, 1, {"root"}, []);
    forall c | c in cs && c.id == child != "root" && Kids(c) == [] ensures Ordered(cs) == Some([root, c]) {
      var j :| 0 <= j < |cs| && cs[j] == c;
      assert VisitAll(table, [], 0, 2, {"root"} + {child}) == Some([]);
      assert Visit(table, child, 1, {"root"}) == Some([c] + []);
      assert [] + ([c] + []) == [c] && [root] + [c] == [root, c];
    }
  }

  const LENIENT := Rules(_ => true, (_, _) => true, _ => true)

  function Makes(cs: seq<Component>): Message {
    Message(1, Some(Update("s", seq(|cs|, i requires 0 <= i < |cs| => Some(cs[i])))))
  }

  const MADE := Message(1, Some(Create("s", true)))
  const ROOT := Leaf("root", "")
  const OVER := Leaf("root", "x")
  const X := Leaf("x", "")

  // One fold can succeed where two fail: a single batch may use a component that is dropped between two.
  lemma DroppedComponentMatters()
    ensures var b1, b2 := [MADE, Makes([ROOT, X])], [Makes([OVER])];
            && Fold(None, b1, LENIENT).Some? && Fold(Fold(None, b1, LENIENT), b2, LENIENT).None?
            && Fold(None, b1 + b2, LENIENT).Some?
  {
    var b1, b2 := [MADE, Makes([ROOT, X])], [Makes([OVER])];
    Sizes(b1, b2);
    FirstFold();
    SecondFold();
    ApplyJoins(None, b1, b2);
    var full := Surface("s", false, [ROOT, X], map[]);
    OverTwo(ROOT, X, OVER);
    assert Makes([OVER]).op.value.items == [Some(OVER)];
    OneMessage(Some(full), b2[0]);
    ChildOrder([OVER, X], OVER, "x");
    PlainChecked(full.(components := [OVER, X]), [OVER, X], LENIENT);
  }

  lemma FirstFold()
    ensures var b1 := [MADE, Makes([ROOT, X])];
            && ApplyAll(None, b1) == Some(Some(Surface("s", false, [ROOT, X], map[])))
            && Fold(None, b1, LENIENT) == Some(Surface("s", false, [ROOT], map[]))
  {
    var b1 := [MADE, Makes([ROOT, X])];
    Sizes(b1, [MADE]);
    FillTwo(ROOT, X);
    assert Makes([ROOT, X]).op.value.items == [Some(ROOT), Some(X)];
    OneMessage(None, MADE);
    OneMessage(Some(Surface("s", false, [], map[])), Makes([ROOT, X]));
    assert [MADE] + [Makes([ROOT, X])] == b1;
    ApplyJoins(None, [MADE], [Makes([ROOT, X])]);
    LeafOrder([ROOT, X], ROOT);
    LeafOrder([ROOT], ROOT);
    PlainChecked(Surface("s", false, [ROOT], map[]), [ROOT], LENIENT);
  }

  lemma SecondFold()
    ensures Fold(Some(Surface("s", false, [ROOT], map[])), [Makes([OVER])], LENIENT).None?
  {
    var first := Surface("s", false, [ROOT], map[]);
    OverOne(ROOT, OVER);
    assert Makes([OVER]).op.value.items == [Some(OVER)];
    OneMessage(Some(first), Makes([OVER]));
    ChildOrder([OVER], OVER, "x");
  }

  lemma Sizes(b1: seq<Message>, b2: seq<Message>)
    requires |b1| == 2 && |b2| == 1 && b1[0].size == b1[1].size == b2[0].size == 1
    ensures Fits(b1) && Fits(b2) && Fits(b1 + b2)
  {
    assert b1[..1][..0] == [] && b2[..0] == [] && (b1 + b2)[..2] == b1;
    assert Size(b1[..1]) == Size(b1[..1][..0]) + 1 == 1;
    assert Size(b1) == 2 && Size(b2) == 1 && Size(b1 + b2) == 3;
  }

  lemma OneMessage(s: Option<Surface>, m: Message)
    requires m.op.Some?
    ensures ApplyAll(s, [m]) == if Apply(s, m.op.value).None? then None else Some(Apply(s, m.op.value))
  {
    assert [m][..0] == [];
    assert ApplyAll(s, []) == Some(s);
  }

  lemma FillTwo(a: Component, b: Component)
    requires a.id != b.id
    ensures PutAll([], [Some(a), Some(b)], 2) == Some([a, b])
  {
    var items := [Some(a), Some(b)];
    assert PutAll([], items, 0) == Some([]);
    assert PutAll([], items, 1) == Some([a]);
    assert [a][1..] == [] && Put([a], b) == [a] + Put([], b) == [a] + [b] == [a, b];
    assert PutAll([], items, 2) == Some(Put([a], b));
  }

  lemma OverOne(a: Component, b: Component)
    requires a.id == b.id
    ensures PutAll([a], [Some(b)], 1) == Some([b])
  {
    assert PutAll([a], [Some(b)], 0) == Some([a]);
    assert [b] + [a][1..] == [b];
  }

  lemma OverTwo(a: Component, x: Component, b: Component)
    requires a.id == b.id
    ensures PutAll([a, x], [Some(b)], 1) == Some([b, x])
  {
    assert PutAll([a, x], [Some(b)], 0) == Some([a, x]);
    assert [b] + [a, x][1..] == [b, x];
  }

  // Components without values or actions pass the check.
  lemma PlainChecked(s: Surface, cs: seq<Component>, rules: Rules)
    requires !s.deleted && rules.body(s) && Ordered(s.components) == Some(cs) && |cs| == |s.components|
    requires forall i :: 0 <= i < |cs| ==> cs[i].texts == [] && cs[i].value.None? && cs[i].action.None?
    ensures Checked(s, rules)
  {
    NoNames(cs);
  }

  lemma {:induction false} NoNames(cs: seq<Component>)
    requires forall i :: 0 <= i < |cs| ==> cs[i].value.None? && cs[i].action.None?
    ensures Bound(cs) == [] && Actions(cs) == []
  {
    if cs != [] { NoNames(cs[..|cs| - 1]); }
  }

  // After a fold, every component of the surface is in its order: the check for unreachable
  // components cannot fail.
  lemma FoldedIsOrdered(previous: Option<Surface>, batch: seq<Message>, rules: Rules)
    requires Fold(previous, batch, rules).Some?
    ensures var s := Fold(previous, batch, rules).value; !s.deleted ==> Ordered(s.components) == Some(s.components)
  {
    var s := ApplyAll(previous, batch).value.value;
    if !s.deleted { OrderedTwice(s.components, Ordered(s.components).value); }
  }
}
