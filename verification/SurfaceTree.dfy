// The component tree of a surface and its reading order (Surface.ordered of
// kit/result/surface.go).
module SurfaceTree {
  import opened Wrappers
  import opened JsonTree

  const MAX_DEPTH := 32

  datatype Action = Action(name: string, context: seq<Json>)

  // A component: its place in the tree and the values it shows, edits and sends.
  datatype Component = Component(id: string, child: string, children: seq<string>, texts: seq<Json>,
      value: Option<Json>, action: Option<Action>)

  // A single child hides the list of children.
  function Kids(c: Component): seq<string> {
    if c.child != "" then [c.child] else c.children
  }

  function Ids(cs: seq<Component>): (ids: seq<string>)
    ensures |ids| == |cs| && forall i :: 0 <= i < |cs| ==> ids[i] == cs[i].id
  {
    seq(|cs|, i requires 0 <= i < |cs| => cs[i].id)
  }

  predicate Unique(cs: seq<Component>) {
    forall i, j :: 0 <= i < j < |cs| ==> cs[i].id != cs[j].id
  }

  // The components by their identity.
  function ById(cs: seq<Component>): (m: map<string, Component>)
    ensures forall id :: id in m ==> m[id].id == id
  {
    if cs == [] then map[] else ById(cs[..|cs| - 1])[cs[|cs| - 1].id := cs[|cs| - 1]]
  }

  ghost predicate Proper(table: map<string, Component>) {
    forall id :: id in table ==> table[id].id == id
  }

  // ---- The search, as a function.

  // The components from `id` on in the order in which they are entered; None when a component
  // is missing, met twice or too deep. `seen` holds what was entered before.
  function Visit(table: map<string, Component>, id: string, depth: nat, seen: set<string>): Option<seq<Component>>
    decreases MAX_DEPTH + 1 - depth, 0
  {
    if id !in table || id in seen || depth > MAX_DEPTH then None
    else
      var rest := VisitAll(table, Kids(table[id]), |Kids(table[id])|, depth + 1, seen + {id});
      if rest.None? then None else Some([table[id]] + rest.value)
  }

  function Entered(cs: seq<Component>): set<string> {
    set c | c in cs :: c.id
  }

  // The same for the first n of some children.
  function VisitAll(table: map<string, Component>, ids: seq<string>, n: nat, depth: nat,
      seen: set<string>): Option<seq<Component>>
    requires n <= |ids| && depth <= MAX_DEPTH + 1
    decreases MAX_DEPTH + 1 - depth, n + 1
  {
    if n == 0 then Some([])
    else
      var before := VisitAll(table, ids, n - 1, depth, seen);
      if before.None? then None
      else
        var last := Visit(table, ids[n - 1], depth, seen + Entered(before.value));
        if last.None? then None else Some(before.value + last.value)
  }

  function Ordered(cs: seq<Component>): Option<seq<Component>> {
    if !Unique(cs) then None else Visit(ById(cs), "root", 0, {})
  }

  // ---- The search as the code runs it, on a shared list and a shared set.

  class Search {
    const table: map<string, Component>
    var seen: set<string>
    var out: seq<Component>

    constructor (table: map<string, Component>)
      ensures this.table == table && seen == {} && out == []
    {
      this.table, seen, out := table, {}, [];
    }

    method Enter(id: string, depth: nat) returns (ok: bool)
      requires Proper(table)
      modifies this
      ensures ok <==> Visit(table, id, depth, old(seen)).Some?
      ensures ok ==> var visited := Visit(table, id, depth, old(seen)).value;
                     out == old(out) + visited && seen == old(seen) + Entered(visited)
      decreases MAX_DEPTH + 1 - depth
    {
      hide Visit, VisitAll, Entered, Kids;
      OneVisit(table, id, depth, seen);
      if id !in table || id in seen || depth > MAX_DEPTH { return false; }
      seen, out := seen + {id}, out + [table[id]];
      var children := Kids(table[id]);
      ghost var below, before := seen, out;
      ghost var visited: seq<Component> := [];
      NoChild(table, children, depth + 1, below);
      for i := 0 to |children|
        invariant VisitAll(table, children, i, depth + 1, below) == Some(visited)
        invariant out == before + visited && seen == below + Entered(visited)
      {
        ok := Enter(children[i], depth + 1);
        OneChild(table, children, i, depth + 1, below, visited);
        if !ok {
          NoneLater(table, children, i + 1, depth + 1, below);
          return;
        }
        ghost var more := Visit(table, children[i], depth + 1, below + Entered(visited)).value;
        Joins(before, visited, more, below);
        visited := visited + more;
      }
      Joins(old(out), [table[id]], visited, old(seen));
      ok := true;
    }
  }

  // A component is visited before its children.
  lemma OneVisit(table: map<string, Component>, id: string, depth: nat, seen: set<string>)
    requires Proper(table)
    ensures id !in table || id in seen || depth > MAX_DEPTH ==> Visit(table, id, depth, seen).None?
    ensures id in table && id !in seen && depth <= MAX_DEPTH ==>
              var kids := Kids(table[id]);
              var rest := VisitAll(table, kids, |kids|, depth + 1, seen + {id});
              && Visit(table, id, depth, seen) == (if rest.None? then None else Some([table[id]] + rest.value))
              && Entered([table[id]]) == {id}
  {
  }

  lemma NoChild(table: map<string, Component>, ids: seq<string>, depth: nat, seen: set<string>)
    requires depth <= MAX_DEPTH + 1
    ensures VisitAll(table, ids, 0, depth, seen) == Some([]) && Entered([]) == {}
  {
  }

  lemma OneChild(table: map<string, Component>, ids: seq<string>, i: nat, depth: nat, seen: set<string>,
                 visited: seq<Component>)
    requires i < |ids| && depth <= MAX_DEPTH + 1 && VisitAll(table, ids, i, depth, seen) == Some(visited)
    ensures var last := Visit(table, ids[i], depth, seen + Entered(visited));
            VisitAll(table, ids, i + 1, depth, seen) == if last.None? then None else Some(visited + last.value)
  {
  }

  lemma EnteredJoins(a: seq<Component>, b: seq<Component>)
    ensures Entered(a + b) == Entered(a) + Entered(b)
  {
    forall id | id in Entered(a) + Entered(b) ensures id in Entered(a + b) {
      var c :| (c in a || c in b) && c.id == id;
      assert c in a + b;
    }
  }

  lemma Joins(before: seq<Component>, a: seq<Component>, b: seq<Component>, seen: set<string>)
    ensures (before + a) + b == before + (a + b)
    ensures (seen + Entered(a)) + Entered(b) == seen + Entered(a + b)
  {
    EnteredJoins(a, b);
  }

  lemma {:induction false} NoneLater(table: map<string, Component>, ids: seq<string>, n: nat, depth: nat,
                                     seen: set<string>)
    requires n <= |ids| && depth <= MAX_DEPTH + 1 && VisitAll(table, ids, n, depth, seen).None?
    ensures VisitAll(table, ids, |ids|, depth, seen).None?
    decreases |ids| - n
  {
    if n < |ids| { NoneLater(table, ids, n + 1, depth, seen); }
  }

  lemma {:induction false} InTable(cs: seq<Component>, id: string)
    ensures id in ById(cs) <==> exists k :: 0 <= k < |cs| && cs[k].id == id
    ensures Unique(cs) ==> forall k :: 0 <= k < |cs| && cs[k].id == id ==> id in ById(cs) && ById(cs)[id] == cs[k]
  {
    if cs != [] {
      var last := |cs| - 1;
      InTable(cs[..last], id);
      if cs[last].id != id && id in ById(cs) {
        var k :| 0 <= k < last && cs[..last][k].id == id;
        assert cs[k].id == id;
      }
      forall k | 0 <= k < |cs| && cs[k].id == id && Unique(cs) ensures id in ById(cs) && ById(cs)[id] == cs[k] {
        if k < last { assert cs[..last][k].id == id; }
      }
      if k :| 0 <= k < last && cs[k].id == id { assert cs[..last][k].id == id; }
    }
  }

  lemma OneMore(cs: seq<Component>, i: nat)
    requires i < |cs| && Unique(cs[..i])
    ensures Unique(cs[..i + 1]) <==> cs[i].id !in ById(cs[..i])
    ensures !Unique(cs[..i + 1]) ==> !Unique(cs)
    ensures ById(cs[..i + 1]) == ById(cs[..i])[cs[i].id := cs[i]]
  {
    InTable(cs[..i], cs[i].id);
    assert cs[..i + 1][..i] == cs[..i];
    if cs[i].id in ById(cs[..i]) {
      var k :| 0 <= k < i && cs[..i][k].id == cs[i].id;
      assert cs[..i + 1][k].id == cs[..i + 1][i].id;
    }
  }

  method Order(cs: seq<Component>) returns (out: Option<seq<Component>>)
    ensures out == Ordered(cs)
  {
    var table: map<string, Component> := map[];
    for i := 0 to |cs|
      invariant table == ById(cs[..i]) && Unique(cs[..i])
    {
      OneMore(cs, i);
      if cs[i].id in table { return None; }
      table := table[cs[i].id := cs[i]];
    }
    assert cs[..|cs|] == cs;
    var search := new Search(table);
    var ok := search.Enter("root", 0);
    ghost var visited := Visit(table, "root", 0, {});
    if ok { assert [] + visited.value == visited.value; }
    out := if ok then Some(search.out) else None;
  }

  // ---- What the search is for: the preorder of a tree.

  datatype Tree = Node(id: string, kids: seq<Tree>)

  // The components below t.id are those of the tree t, in its order.
  ghost predicate Fits(table: map<string, Component>, t: Tree) {
    && t.id in table && |t.kids| == |Kids(table[t.id])|
    && forall i :: 0 <= i < |t.kids| ==> t.kids[i].id == Kids(table[t.id])[i] && Fits(table, t.kids[i])
  }

  // No node is deeper than allowed.
  ghost predicate Within(t: Tree, depth: nat) {
    depth <= 32 && forall i :: 0 <= i < |t.kids| ==> Within(t.kids[i], depth + 1)
  }

  ghost function Preorder(table: map<string, Component>, t: Tree): seq<Component>
    requires Fits(table, t)
    decreases t, 0
  {
    [table[t.id]] + PreorderAll(table, t.kids, |t.kids|)
  }

  ghost function PreorderAll(table: map<string, Component>, ts: seq<Tree>, n: nat): seq<Component>
    requires n <= |ts| && forall i :: 0 <= i < n ==> Fits(table, ts[i])
    decreases ts, n
  {
    if n == 0 then [] else PreorderAll(table, ts, n - 1) + Preorder(table, ts[n - 1])
  }

  // ---- Both directions.

  // What is found is the preorder of a tree.
  lemma {:induction false} VisitTree(table: map<string, Component>, id: string, depth: nat, seen: set<string>)
    returns (t: Tree)
    requires Proper(table) && Visit(table, id, depth, seen).Some?
    ensures t.id == id && Fits(table, t) && Within(t, depth) && Visit(table, id, depth, seen).value == Preorder(table, t)
    ensures var out := Visit(table, id, depth, seen).value; Unique(out) && Entered(out) !! seen && id in Entered(out)
    decreases MAX_DEPTH + 1 - depth, 0
  {
    var kids := Kids(table[id]);
    var rest := VisitAll(table, kids, |kids|, depth + 1, seen + {id}).value;
    var ts := VisitForest(table, kids, |kids|, depth + 1, seen + {id});
    t := Node(id, ts);
    EnteredJoins([table[id]], rest);
    assert Entered([table[id]]) == {id};
  }

  lemma JoinUnique(a: seq<Component>, b: seq<Component>)
    requires Unique(a) && Unique(b) && Entered(a) !! Entered(b)
    ensures Unique(a + b)
  {
    forall i, j | 0 <= i < |a| && 0 <= j < |b| ensures a[i].id != b[j].id {
      assert a[i].id in Entered(a) && b[j].id in Entered(b);
    }
  }

  lemma {:induction false} VisitForest(table: map<string, Component>, ids: seq<string>, n: nat, depth: nat,
                                       seen: set<string>)
    returns (ts: seq<Tree>)
    requires Proper(table) && n <= |ids| && depth <= MAX_DEPTH + 1 && VisitAll(table, ids, n, depth, seen).Some?
    ensures |ts| == n && forall i :: 0 <= i < n ==> ts[i].id == ids[i] && Fits(table, ts[i]) && Within(ts[i], depth)
    ensures var out := VisitAll(table, ids, n, depth, seen).value;
            out == PreorderAll(table, ts, n) && Unique(out) && Entered(out) !! seen
    decreases MAX_DEPTH + 1 - depth, n + 1
  {
    hide Fits, Within, Visit, Preorder, Unique, Entered;
    if n == 0 {
      EmptyForest();
      ts := [];
    } else {
      var before := VisitAll(table, ids, n - 1, depth, seen).value;
      var us := VisitForest(table, ids, n - 1, depth, seen);
      var t := VisitTree(table, ids[n - 1], depth, seen + Entered(before));
      ts := us + [t];
      PreorderPrefix(table, us, t, n - 1);
      var last := Visit(table, ids[n - 1], depth, seen + Entered(before)).value;
      EnteredJoins(before, last);
      JoinUnique(before, last);
    }
  }

  lemma EmptyForest()
    ensures Unique([]) && Entered([]) == {}
  {
  }

  lemma {:induction false} PreorderPrefix(table: map<string, Component>, ts: seq<Tree>, t: Tree, n: nat)
    requires n <= |ts| && forall i :: 0 <= i < n ==> Fits(table, ts[i])
    ensures forall i :: 0 <= i < n ==> Fits(table, (ts + [t])[i])
    ensures PreorderAll(table, ts + [t], n) == PreorderAll(table, ts, n)
  {
    if n > 0 {
      PreorderPrefix(table, ts, t, n - 1);
      assert (ts + [t])[n - 1] == ts[n - 1];
    }
  }

  // Every tree that fits, is not too deep and repeats nothing is found.
  lemma {:induction false} TreeVisit(table: map<string, Component>, t: Tree, depth: nat, seen: set<string>)
    requires Proper(table) && Fits(table, t) && Within(t, depth)
    requires Unique(Preorder(table, t)) && Entered(Preorder(table, t)) !! seen
    ensures Visit(table, t.id, depth, seen) == Some(Preorder(table, t))
    decreases t, 0
  {
    var kids := Kids(table[t.id]);
    var rest := PreorderAll(table, t.kids, |t.kids|);
    assert Preorder(table, t) == [table[t.id]] + rest;
    EnteredJoins([table[t.id]], rest);
    assert Entered([table[t.id]]) == {t.id};
    UniqueParts([table[t.id]], rest);
    ForestVisit(table, kids, t.kids, |kids|, depth + 1, seen + {t.id});
  }

  lemma UniqueParts(a: seq<Component>, b: seq<Component>)
    requires Unique(a + b)
    ensures Unique(a) && Unique(b) && Entered(a) !! Entered(b)
  {
    assert forall i :: 0 <= i < |a| ==> (a + b)[i] == a[i];
    assert forall j :: 0 <= j < |b| ==> (a + b)[|a| + j] == b[j];
    forall id | id in Entered(a) ensures id !in Entered(b) {
      var i :| 0 <= i < |a| && a[i].id == id;
      forall j | 0 <= j < |b| ensures b[j].id != id { assert (a + b)[i].id != (a + b)[|a| + j].id; }
    }
  }

  lemma NoTree(table: map<string, Component>, ts: seq<Tree>)
    ensures PreorderAll(table, ts, 0) == []
  {
  }

  lemma LastTree(table: map<string, Component>, ts: seq<Tree>, n: nat)
    requires 0 < n <= |ts| && forall i :: 0 <= i < n ==> Fits(table, ts[i])
    ensures PreorderAll(table, ts, n) == PreorderAll(table, ts, n - 1) + Preorder(table, ts[n - 1])
  {
  }

  lemma {:induction false} ForestVisit(table: map<string, Component>, ids: seq<string>, ts: seq<Tree>, n: nat,
                                       depth: nat, seen: set<string>)
    requires Proper(table) && n <= |ids| == |ts| && depth <= MAX_DEPTH + 1
    requires forall i :: 0 <= i < |ts| ==> ts[i].id == ids[i] && Fits(table, ts[i]) && Within(ts[i], depth)
    requires Unique(PreorderAll(table, ts, n)) && Entered(PreorderAll(table, ts, n)) !! seen
    ensures VisitAll(table, ids, n, depth, seen) == Some(PreorderAll(table, ts, n))
    decreases ts, n
  {
    hide Unique, Within, Visit, VisitAll, Fits, Preorder, Entered, PreorderAll;
    NoChild(table, ids, depth, seen);
    NoTree(table, ts);
    if n > 0 {
      LastTree(table, ts, n);
      var before, last := PreorderAll(table, ts, n - 1), Preorder(table, ts[n - 1]);
      EnteredJoins(before, last);
      UniqueParts(before, last);
      ForestVisit(table, ids, ts, n - 1, depth, seen);
      TreeVisit(table, ts[n - 1], depth, seen + Entered(before));
      OneChild(table, ids, n - 1, depth, seen, before);
    }
  }

  // A tree of components that starts at "root", is at most 32 deep and enters each component
  // once.
  ghost predicate IsTree(cs: seq<Component>, t: Tree) {
    && Fits(ById(cs), t) && t.id == "root" && Within(t, 0) && Unique(Preorder(ById(cs), t))
  }

  // `ordered` returns the preorder of the tree that starts at "root", if there is one.
  lemma OrderedExactly(cs: seq<Component>, out: seq<Component>)
    ensures Ordered(cs) == Some(out) <==> Unique(cs) && exists t :: IsTree(cs, t) && out == Preorder(ById(cs), t)
  {
    if Ordered(cs) == Some(out) {
      var t := VisitTree(ById(cs), "root", 0, {});
      assert IsTree(cs, t);
    }
    if Unique(cs) && exists t :: IsTree(cs, t) && out == Preorder(ById(cs), t) {
      var t :| IsTree(cs, t) && out == Preorder(ById(cs), t);
      TreeVisit(ById(cs), t, 0, {});
    }
  }

  // ---- Other components do not matter.

  ghost predicate Agree(other: map<string, Component>, cs: seq<Component>) {
    forall c :: c in cs ==> c.id in other && other[c.id] == c
  }

  lemma AgreeParts(other: map<string, Component>, a: seq<Component>, b: seq<Component>)
    requires Agree(other, a + b)
    ensures Agree(other, a) && Agree(other, b)
  {
    forall c | c in a || c in b ensures c.id in other && other[c.id] == c { assert c in a + b; }
  }

  lemma {:induction false} FitsElsewhere(table: map<string, Component>, other: map<string, Component>, t: Tree)
    requires Fits(table, t) && Proper(table) && Agree(other, Preorder(table, t))
    ensures Fits(other, t) && Preorder(other, t) == Preorder(table, t)
    decreases t, 0
  {
    assert table[t.id] in Preorder(table, t);
    AgreeParts(other, [table[t.id]], PreorderAll(table, t.kids, |t.kids|));
    ForestElsewhere(table, other, t.kids, |t.kids|);
  }

  lemma {:induction false} ForestElsewhere(table: map<string, Component>, other: map<string, Component>, ts: seq<Tree>,
                                           n: nat)
    requires Proper(table) && n <= |ts| && forall i :: 0 <= i < |ts| ==> Fits(table, ts[i])
    requires Agree(other, PreorderAll(table, ts, n))
    ensures forall i :: 0 <= i < n ==> Fits(other, ts[i])
    ensures PreorderAll(other, ts, n) == PreorderAll(table, ts, n)
    decreases ts, n
  {
    hide Fits, Agree, Preorder;
    if n > 0 {
      AgreeParts(other, PreorderAll(table, ts, n - 1), Preorder(table, ts[n - 1]));
      ForestElsewhere(table, other, ts, n - 1);
      FitsElsewhere(table, other, ts[n - 1]);
    }
  }

  // Components that the tree does not reach cannot affect its order.
  lemma OrderedElsewhere(cs: seq<Component>, ds: seq<Component>, out: seq<Component>)
    requires Ordered(cs) == Some(out) && Unique(ds)
    requires forall c :: c in out ==> c.id in ById(ds) && ById(ds)[c.id] == c
    ensures Ordered(ds) == Some(out)
  {
    OrderedExactly(cs, out);
    var t :| IsTree(cs, t) && out == Preorder(ById(cs), t);
    FitsElsewhere(ById(cs), ById(ds), t);
    assert IsTree(ds, t);
    OrderedExactly(ds, out);
  }

  // Ordering what is ordered changes nothing.
  lemma OrderedTwice(cs: seq<Component>, out: seq<Component>)
    requires Ordered(cs) == Some(out)
    ensures Ordered(out) == Some(out) && Unique(out) && forall c :: c in out ==> c.id in ById(cs) && ById(cs)[c.id] == c
  {
    OrderedExactly(cs, out);
    var t :| IsTree(cs, t) && out == Preorder(ById(cs), t);
    forall c | c in out ensures c.id in ById(out) && ById(out)[c.id] == c { InTable(out, c.id); }
    OrderedElsewhere(cs, out, out);
    FromTable(ById(cs), t);
  }

  lemma {:induction false} FromTable(table: map<string, Component>, t: Tree)
    requires Proper(table) && Fits(table, t)
    ensures forall c :: c in Preorder(table, t) ==> c.id in table && table[c.id] == c
    decreases t, 0
  {
    ForestFromTable(table, t.kids, |t.kids|);
  }

  lemma {:induction false} ForestFromTable(table: map<string, Component>, ts: seq<Tree>, n: nat)
    requires Proper(table) && n <= |ts| && forall i :: 0 <= i < |ts| ==> Fits(table, ts[i])
    ensures forall c :: c in PreorderAll(table, ts, n) ==> c.id in table && table[c.id] == c
    decreases ts, n
  {
    if n > 0 {
      ForestFromTable(table, ts, n - 1);
      FromTable(table, ts[n - 1]);
    }
  }
}
