// JSON trees, and the reads and writes of the surface data model at a path of keys
// (resolve of kit/result/surface.go, setSurfaceData of kit/result/surface_fold.go).
module JsonTree {
  import opened Wrappers
  import opened Decimal

  datatype Json = Null | Bool(b: bool) | Number(n: int) | Str(s: string) | Array(items: seq<Json>)
      | Object(fields: map<string, Json>)

  // ---- Reading.

  // One step of resolve: a key of an object, or whatever Atoi reads as an index of an array.
  function Member(t: Json, part: string): Option<Json> {
    match t
    case Object(fields) => if part in fields then Some(fields[part]) else None
    case Array(items) =>
      var n := Atoi(part);
      if n.Some? && 0 <= n.value < |items| then Some(items[n.value]) else None
    case _ => None
  }

  function Get(t: Json, parts: seq<string>): Option<Json>
    decreases |parts|
  {
    if parts == [] then Some(t)
    else
      var next := Member(t, parts[0]);
      if next.None? then None else Get(next.value, parts[1..])
  }

  // What is not there has no members.
  function GetIn(t: Option<Json>, parts: seq<string>): Option<Json> {
    if t.None? then None else Get(t.value, parts)
  }

  method Resolve(t: Json, parts: seq<string>) returns (found: Option<Json>)
    ensures found == Get(t, parts)
  {
    var current := t;
    for i := 0 to |parts|
      invariant Get(t, parts) == Get(current, parts[i..])
    {
      var next := Member(current, parts[i]);
      if next.None? { return None; }
      current := next.value;
    }
    found := Some(current);
  }

  lemma {:induction false} GetJoins(t: Json, p: seq<string>, q: seq<string>)
    ensures Get(t, p + q) == GetIn(Get(t, p), q)
    decreases |p|
  {
    if p == [] {
      assert p + q == q;
    } else {
      assert (p + q)[1..] == p[1..] + q;
      var next := Member(t, p[0]);
      if next.Some? { GetJoins(next.value, p[1..], q); }
    }
  }

  // ---- Writing.

  // setSurfaceData: `value` is set, or without one the member is removed; missing parents
  // become objects. None is an error. Array indices must be canonical.
  function Set(t: Option<Json>, parts: seq<string>, value: Option<Json>): Option<Json>
    decreases |parts|
  {
    if parts == [] then Some(if value.None? then Object(map[]) else value.value)
    else if t.Some? && t.value.Array? then
      var items, n := t.value.items, Atoi(parts[0]);
      if n.None? || n.value < 0 || n.value > |items| || Itoa(n.value) != parts[0] then None
      else if |parts| == 1 && value.None? then
        if n.value >= |items| then None else Some(Array(items[..n.value] + items[n.value + 1..]))
      else
        var next := Set(if n.value < |items| then Some(items[n.value]) else None, parts[1..], value);
        if next.None? then None
        else Some(Array(if n.value == |items| then items + [next.value] else items[n.value := next.value]))
    else if t.Some? && !t.value.Object? then None
    else
      var fields := if t.Some? then t.value.fields else map[];
      if |parts| == 1 && value.None? then Some(Object(fields - {parts[0]}))
      else
        var next := Set(if parts[0] in fields then Some(fields[parts[0]]) else None, parts[1..], value);
        if next.None? then None else Some(Object(fields[parts[0] := next.value]))
  }

  function MemberIn(t: Option<Json>, part: string): Option<Json> {
    if t.None? then None else Member(t.value, part)
  }

  // A write below the first key goes to the member of that key and leaves it readable there.
  lemma SetMember(t: Option<Json>, parts: seq<string>, value: Option<Json>)
    requires parts != [] && (|parts| > 1 || value.Some?) && Set(t, parts, value).Some?
    ensures Set(MemberIn(t, parts[0]), parts[1..], value).Some?
    ensures Member(Set(t, parts, value).value, parts[0]) == Set(MemberIn(t, parts[0]), parts[1..], value)
  {
  }

  // It leaves every other member as it was: another key, or another index.
  lemma SetOther(t: Option<Json>, parts: seq<string>, value: Option<Json>, other: string)
    requires parts != [] && (|parts| > 1 || value.Some?) && Set(t, parts, value).Some?
    requires if t.Some? && t.value.Array? then Atoi(other) != Atoi(parts[0]) else other != parts[0]
    ensures Member(Set(t, parts, value).value, other) == MemberIn(t, other)
  {
  }

  // What stands on the way of a write lets it pass: nothing, an object, or an array that has the
  // index, a number of 64 bits in its canonical spelling, or ends there.
  ghost predicate Passes(at: Option<Json>, part: string, removes: bool) {
    match at
    case None => true
    case Some(Object(_)) => true
    case Some(Array(items)) =>
      exists n: nat :: n < 0x8000_0000_0000_0000 && part == Itoa(n) && n <= |items| && (removes ==> n < |items|)
    case Some(_) => false
  }

  ghost predicate PassesAt(t: Option<Json>, parts: seq<string>, k: nat, removes: bool)
    requires k < |parts|
  {
    Passes(GetIn(t, parts[..k]), parts[k], removes && k == |parts| - 1)
  }

  // A write succeeds exactly when it can pass everywhere on its way. At the whole document it
  // always does.
  lemma {:induction false} SetsExactly(t: Option<Json>, parts: seq<string>, value: Option<Json>)
    ensures Set(t, parts, value).Some? <==> forall k: nat :: k < |parts| ==> PassesAt(t, parts, k, value.None?)
    ensures parts == [] ==> Set(t, parts, value) == Some(if value.Some? then value.value else Object(map[]))
    decreases |parts|
  {
    if parts != [] {
      var m, rest := MemberIn(t, parts[0]), parts[1..];
      SetPasses(t, parts, value);
      SetsExactly(m, rest, value);
      forall k: nat | k < |rest| ensures PassesAt(t, parts, k + 1, value.None?) <==> PassesAt(m, rest, k, value.None?) {
        PassesBelow(t, parts, k, value.None?);
      }
      assert parts[..0] == [];
      if forall k: nat :: k < |parts| ==> PassesAt(t, parts, k, value.None?) {
        assert PassesAt(t, parts, 0, value.None?);
        forall k: nat | k < |rest| ensures PassesAt(m, rest, k, value.None?) {
          assert PassesAt(t, parts, k + 1, value.None?);
        }
      }
      if Set(t, parts, value).Some? {
        forall k: nat | k < |parts| ensures PassesAt(t, parts, k, value.None?) {
          if k > 0 { assert PassesAt(m, rest, k - 1, value.None?); }
        }
      }
    }
  }

  lemma PassesBelow(t: Option<Json>, parts: seq<string>, k: nat, removes: bool)
    requires k + 1 < |parts|
    ensures PassesAt(t, parts, k + 1, removes) <==> PassesAt(MemberIn(t, parts[0]), parts[1..], k, removes)
  {
    hide Passes, Member;
    assert parts[..k + 1] == [parts[0]] + parts[1..][..k];
    assert parts[..k + 1][1..] == parts[1..][..k];
  }

  lemma SetPasses(t: Option<Json>, parts: seq<string>, value: Option<Json>)
    requires parts != []
    ensures Set(t, parts, value).Some?
            <==> && Passes(t, parts[0], value.None? && |parts| == 1)
                 && Set(MemberIn(t, parts[0]), parts[1..], value).Some?
  {
    if t.Some? && t.value.Array? {
      var n := Atoi(parts[0]);
      if m: nat :| m < 0x8000_0000_0000_0000 && parts[0] == Itoa(m) { AtoiItoa(m); }
      if n.Some? && 0 <= n.value <= |t.value.items| && Itoa(n.value) == parts[0] {
        var m: nat := n.value;
        assert parts[0] == Itoa(m);
      }
    }
  }

  // A set value is read back at its path.
  lemma {:induction false} SetGet(t: Option<Json>, p: seq<string>, v: Json)
    requires Set(t, p, Some(v)).Some?
    ensures Get(Set(t, p, Some(v)).value, p) == Some(v)
    decreases |p|
  {
    if p != [] {
      SetMember(t, p, Some(v));
      SetGet(MemberIn(t, p[0]), p[1..], v);
    }
  }

  // Whether a write succeeds does not depend on the value.
  lemma {:induction false} SetSucceeds(t: Option<Json>, p: seq<string>, v: Json, w: Json)
    ensures Set(t, p, Some(v)).Some? <==> Set(t, p, Some(w)).Some?
    decreases |p|
  {
    if p != [] { SetSucceeds(MemberIn(t, p[0]), p[1..], v, w); }
  }

  // A second write at the same path overrides the first.
  lemma {:induction false} SetSet(t: Option<Json>, p: seq<string>, v: Json, w: Json)
    requires Set(t, p, Some(v)).Some?
    ensures Set(Set(t, p, Some(v)), p, Some(w)) == Set(t, p, Some(w))
    decreases |p|
  {
    SetSucceeds(t, p, v, w);
    if p != [] {
      var m := MemberIn(t, p[0]);
      SetSet(m, p[1..], v, w);
      var a, b := Set(m, p[1..], Some(v)).value, Set(m, p[1..], Some(w)).value;
      if t.Some? && t.value.Array? {
        var items, n := t.value.items, Atoi(p[0]).value;
        if n == |items| {
          assert (items + [a])[n := b] == items + [b];
        } else {
          assert items[n := a][n := b] == items[n := b];
        }
      } else {
        var fields: map<string, Json> := if t.Some? then t.value.fields else map[];
        assert fields[p[0] := a][p[0] := b] == fields[p[0] := b];
      }
    }
  }

  // ---- Paths that part from the written one.

  // q leaves the path p at a key, or at an index of an array that is another one. Where
  // nothing is yet, p makes objects.
  predicate Parts(t: Option<Json>, p: seq<string>, q: seq<string>)
    decreases |p|
  {
    && p != [] && q != []
    && if p[0] == q[0] then Parts(MemberIn(t, p[0]), p[1..], q[1..])
       else !(t.Some? && t.value.Array? && Atoi(p[0]) == Atoi(q[0]))
  }

  lemma {:induction false} SetKeepsOthers(t: Option<Json>, p: seq<string>, q: seq<string>, v: Json)
    requires Set(t, p, Some(v)).Some? && Parts(t, p, q)
    ensures GetIn(Set(t, p, Some(v)), q) == GetIn(t, q)
    decreases |p|
  {
    SetMember(t, p, Some(v));
    if p[0] == q[0] {
      SetKeepsOthers(MemberIn(t, p[0]), p[1..], q[1..], v);
    } else {
      SetOther(t, p, Some(v), q[0]);
    }
  }

  // q leaves the path p only in the spelling of an array index: it reads what p's spelling
  // reads, before and after the write.
  predicate Aliases(t: Option<Json>, p: seq<string>, q: seq<string>)
    decreases |p|
  {
    && p != [] && q != []
    && if p[0] == q[0] then Aliases(MemberIn(t, p[0]), p[1..], q[1..])
       else t.Some? && t.value.Array? && Atoi(p[0]) == Atoi(q[0])
  }

  // The path q with the spelling of p.
  function Respelled(p: seq<string>, q: seq<string>): seq<string>
    requires |p| > 0 && |q| > 0
    decreases |p|
  {
    [p[0]] + if p[0] == q[0] && |p| > 1 && |q| > 1 then Respelled(p[1..], q[1..]) else q[1..]
  }

  lemma {:induction false} AliasReads(t: Option<Json>, p: seq<string>, q: seq<string>, v: Json)
    requires Set(t, p, Some(v)).Some? && Aliases(t, p, q)
    ensures GetIn(t, q) == GetIn(t, Respelled(p, q))
    ensures GetIn(Set(t, p, Some(v)), q) == GetIn(Set(t, p, Some(v)), Respelled(p, q))
    decreases |p|
  {
    var r := Respelled(p, q);
    SetMember(t, p, Some(v));
    if p[0] == q[0] {
      AliasReads(MemberIn(t, p[0]), p[1..], q[1..], v);
      assert r[1..] == Respelled(p[1..], q[1..]);
    } else {
      assert r[1..] == q[1..];
      assert Member(t.value, q[0]) == Member(t.value, p[0]);
    }
  }

  // Two paths that differ at some key either part or are aliases: there is no third case.
  ghost predicate Diverge(p: seq<string>, q: seq<string>) {
    exists k :: 0 <= k < |p| && k < |q| && p[..k] == q[..k] && p[k] != q[k]
  }

  lemma {:induction false} DivergeCases(t: Option<Json>, p: seq<string>, q: seq<string>)
    requires Diverge(p, q)
    ensures Parts(t, p, q) <==> !Aliases(t, p, q)
    decreases |p|
  {
    var k :| 0 <= k < |p| && k < |q| && p[..k] == q[..k] && p[k] != q[k];
    if k > 0 {
      assert p[..k][0] == p[0] && q[..k][0] == q[0];
      assert p[1..][..k - 1] == p[..k][1..] && q[1..][..k - 1] == q[..k][1..];
      assert Diverge(p[1..], q[1..]);
      DivergeCases(MemberIn(t, p[0]), p[1..], q[1..]);
    }
  }

  // The proviso on array indices is needed: "01" reads what a write at "1" sets.
  lemma LeadingZeroAliases()
    ensures var t := Some(Array([Null, Bool(false)]));
            && Set(t, ["1"], Some(Bool(true))).Some? && Get(t.value, ["01"]) == Some(Bool(false))
            && Get(Set(t, ["1"], Some(Bool(true))).value, ["01"]) == Some(Bool(true))
  {
    assert AllDigits("01") && AllDigits("1");
    assert "01"[..1] == "0" && "0"[..0] == "" && "1"[..0] == "";
    assert Value("0") == 0 && Value("01") == 1 && Value("1") == 1;
    assert Digits(1) == "1";
  }

  // ---- Removal.

  // A removed key is gone, a removed element gives its place to the next one.
  lemma {:induction false} RemoveGet(t: Option<Json>, p: seq<string>, key: string)
    requires Set(t, p + [key], None).Some?
    ensures var parent := GetIn(t, p);
            if parent.Some? && parent.value.Array? then
              Atoi(key).Some? &&
              var n, items := Atoi(key).value, parent.value.items;
              && 0 <= n < |items| && GetIn(Set(t, p + [key], None), p) == Some(Array(items[..n] + items[n + 1..]))
            else
              && GetIn(Set(t, p + [key], None), p + [key]) == None
              && (parent.Some?
                  ==> parent.value.Object? && GetIn(Set(t, p + [key], None), p) == Some(Object(parent.value.fields - {key})))
    decreases |p|
  {
    var q := p + [key];
    if p == [] {
      assert q == [key];
    } else {
      assert q[1..] == p[1..] + [key];
      SetMember(t, q, None);
      RemoveGet(MemberIn(t, p[0]), p[1..], key);
    }
  }
}
