// The edits of a patch and their plan against a snapshot of the files
// (kit/tools/patch.go).
module Patch {
  import opened Sequences
  import opened Wrappers
  import opened Text
  import opened Splice

  datatype Edit =
    | Add(path: string, content: string)
    | Update(path: string, move: string, hunks: seq<Hunk>)  // an empty move is none
    | Delete(path: string)

  datatype Change = Write(path: string, content: string) | Erase(path: string)

  type Files = map<string, string>

  function Claims(e: Edit): seq<string> {
    if e.Update? && e.move != "" then [e.path, e.move] else [e.path]
  }

  // PatchPaths: everything that must be read before planning.
  function AllClaims(edits: seq<Edit>): seq<string> {
    if edits == [] then [] else Claims(edits[0]) + AllClaims(edits[1..])
  }

  function Paths(changes: seq<Change>): seq<string> {
    seq(|changes|, i requires 0 <= i < |changes| => changes[i].path)
  }

  // The content an update gives its file.
  ghost function Updated(data: string, hunks: seq<Hunk>): Option<string> {
    if exists at :: Placed(Lines(data), hunks, at)
    then var at :| Placed(Lines(data), hunks, at); Some(Unlines(Spliced(Lines(data), hunks, at)))
    else None
  }

  // The changes of one edit, read against `files`; None where its context does not fit.
  ghost function ChangesOf(e: Edit, files: Files): Option<seq<Change>> {
    match e
    case Add(p, content) => if p in files then None else Some([Write(p, content)])
    case Delete(p) => if p in files then Some([Erase(p)]) else None
    case Update(p, move, hunks) =>
      if p !in files || '\0' in files[p] || (move != "" && move in files) then None
      else
        match Updated(files[p], hunks)
        case None => None
        case Some(content) =>
          if move == "" then Some([Write(p, content)]) else Some([Write(move, content), Erase(p)])
  }

  ghost function PlanOf(edits: seq<Edit>, files: Files): Option<seq<Change>> {
    if edits == [] then Some([])
    else
      match ChangesOf(edits[0], files)
      case None => None
      case Some(first) =>
        match PlanOf(edits[1..], files)
        case None => None
        case Some(rest) => Some(first + rest)
  }

  function ApplyChange(files: Files, c: Change): Files {
    match c
    case Write(p, content) => files[p := content]
    case Erase(p) => files - {p}
  }

  function ApplyChanges(files: Files, changes: seq<Change>): Files
    decreases |changes|
  {
    if changes == [] then files else ApplyChanges(ApplyChange(files, changes[0]), changes[1..])
  }

  // The other way to read a patch: every edit against what the edits before it left.
  ghost function Sequential(edits: seq<Edit>, files: Files): Option<Files> {
    if edits == [] then Some(files)
    else
      match ChangesOf(edits[0], files)
      case None => None
      case Some(first) => Sequential(edits[1..], ApplyChanges(files, first))
  }

  // PlanPatch after parsing: every edit is read against the same snapshot.
  method PlanPatch(edits: seq<Edit>, files: Files) returns (changes: Option<seq<Change>>)
    ensures changes == PlanOf(edits, files)
  {
    var out: seq<Change> := [];
    var k := 0;
    PrependNothing(PlanOf(edits, files));
    assert edits[0..] == edits;
    while k < |edits|
      invariant 0 <= k <= |edits|
      invariant PlanOf(edits, files) == Prepend(out, PlanOf(edits[k..], files))
    {
      var e := edits[k];
      var step: Option<seq<Change>> := None;
      match e {
        case Add(p, content) => if p !in files { step := Some([Write(p, content)]); }
        case Delete(p) => if p in files { step := Some([Erase(p)]); }
        case Update(p, move, hunks) =>
          if p in files && '\0' !in files[p] {
            var output, at := Apply(Lines(files[p]), hunks);
            UpdatedIs(files[p], hunks, output, at);
            if output.Some? && !(move != "" && move in files) {
              var content := Unlines(output.value);
              step := Some(if move == "" then [Write(p, content)] else [Write(move, content), Erase(p)]);
            }
          }
      }
      assert step == ChangesOf(e, files);
      assert edits[k..][1..] == edits[k + 1..];
      if step.None? { return None; }
      PrependTwice(out, step.value, PlanOf(edits[k + 1..], files));
      out := out + step.value;
      k := k + 1;
    }
    assert out + [] == out;
    changes := Some(out);
  }

  ghost function Prepend(a: seq<Change>, b: Option<seq<Change>>): Option<seq<Change>> {
    if b.None? then None else Some(a + b.value)
  }

  lemma PrependNothing(c: Option<seq<Change>>)
    ensures Prepend([], c) == c
  {
    if c.Some? { assert [] + c.value == c.value; }
  }

  lemma PrependTwice(a: seq<Change>, b: seq<Change>, c: Option<seq<Change>>)
    ensures Prepend(a, Prepend(b, c)) == Prepend(a + b, c)
  {
    if c.Some? { assert a + (b + c.value) == a + b + c.value; }
  }

  lemma UpdatedIs(data: string, hunks: seq<Hunk>, output: Option<seq<string>>, at: seq<nat>)
    requires output.Some? ==> Placed(Lines(data), hunks, at) && output.value == Spliced(Lines(data), hunks, at)
    requires output.None? ==> forall a :: !Placed(Lines(data), hunks, a)
    ensures Updated(data, hunks) == if output.Some? then Some(Unlines(output.value)) else None
  {
    if output.Some? {
      forall a | Placed(Lines(data), hunks, a) ensures a == at {
        PlacedUnique(Lines(data), hunks, a, at, |at|);
        assert a[..|at|] == a && at[..|at|] == at;
      }
    }
  }

  // An update is undone by putting every old block back where its new block went.
  lemma UpdateUndone(data: string, hunks: seq<Hunk>)
    requires Updated(data, hunks).Some? && Terminated(data)
    requires forall j, k :: 0 <= j < |hunks| && 0 <= k < |hunks[j].inserted| ==> '\n' !in hunks[j].inserted[k]
    ensures exists at :: && Placed(Lines(data), hunks, at)
                         && Restored(Lines(Updated(data, hunks).value), hunks, at) == Some(Lines(data))
    ensures Unlines(Lines(data)) == data
  {
    var lines := Lines(data);
    var at :| Placed(lines, hunks, at);
    UpdatedIs(data, hunks, Some(Spliced(lines, hunks, at)), at);
    forall i | 0 <= i < |lines| ensures '\n' !in lines[i] { }
    SplicedPlain(lines, hunks, at, |at|);
    CursorBounds(lines, hunks, at, |at|);
    var first, rest := SplicedFirst(lines, hunks, at, |at|), lines[Cursor(hunks, at, |at|)..];
    forall i | 0 <= i < |first + rest| ensures '\n' !in (first + rest)[i] {
      if i >= |first| { assert (first + rest)[i] == lines[Cursor(hunks, at, |at|) + i - |first|]; }
    }
    LinesUnlines(Spliced(lines, hunks, at));
    RestoreSpliced(lines, hunks, at);
    UnlinesLines(data);
  }

  lemma {:induction false} SplicedPlain(lines: seq<string>, hunks: seq<Hunk>, at: seq<nat>, k: nat)
    requires PlacedFirst(lines, hunks, at) && k <= |at|
    requires forall i :: 0 <= i < |lines| ==> '\n' !in lines[i]
    requires forall j, i :: 0 <= j < |hunks| && 0 <= i < |hunks[j].inserted| ==> '\n' !in hunks[j].inserted[i]
    ensures forall i :: 0 <= i < |SplicedFirst(lines, hunks, at, k)| ==> '\n' !in SplicedFirst(lines, hunks, at, k)[i]
  {
    if k > 0 {
      assert PlacedAt(lines, hunks, at, k - 1);
      SplicedPlain(lines, hunks, at, k - 1);
    }
  }

  // ---- Planning against one snapshot equals applying the edits one after another.

  // Only files that exist are erased.
  lemma {:induction false} ErasesExist(edits: seq<Edit>, files: Files, k: nat)
    requires PlanOf(edits, files).Some? && k < |PlanOf(edits, files).value| && PlanOf(edits, files).value[k].Erase?
    ensures PlanOf(edits, files).value[k].path in files
  {
    var first := ChangesOf(edits[0], files).value;
    if k >= |first| { ErasesExist(edits[1..], files, k - |first|); }
  }

  // A plan reads nothing but the claimed paths.
  lemma {:induction false} PlanReadsClaims(edits: seq<Edit>, a: Files, b: Files)
    requires forall p :: p in AllClaims(edits) ==> (p in a <==> p in b) && (p in a ==> a[p] == b[p])
    ensures PlanOf(edits, a) == PlanOf(edits, b)
  {
    if edits != [] {
      assert forall p :: p in Claims(edits[0]) ==> p in AllClaims(edits);
      assert edits[0].path in Claims(edits[0]);
      if edits[0].Update? && edits[0].move != "" { assert edits[0].move == Claims(edits[0])[1]; }
      assert ChangesOf(edits[0], a) == ChangesOf(edits[0], b);
      PlanReadsClaims(edits[1..], a, b);
    }
  }

  lemma {:induction false} ChangesElsewhere(files: Files, changes: seq<Change>, p: string)
    requires p !in Paths(changes)
    ensures p in ApplyChanges(files, changes) <==> p in files
    ensures p in files ==> ApplyChanges(files, changes)[p] == files[p]
    decreases |changes|
  {
    if changes != [] {
      assert changes[0].path == Paths(changes)[0];
      forall q | q in Paths(changes[1..]) ensures q in Paths(changes) {
        var i :| 0 <= i < |changes| - 1 && Paths(changes[1..])[i] == q;
        assert Paths(changes)[i + 1] == q;
      }
      ChangesElsewhere(ApplyChange(files, changes[0]), changes[1..], p);
    }
  }

  lemma {:induction false} ApplyBoth(files: Files, a: seq<Change>, b: seq<Change>)
    ensures ApplyChanges(files, a + b) == ApplyChanges(ApplyChanges(files, a), b)
    decreases |a|
  {
    if a == [] {
      assert a + b == b;
    } else {
      assert (a + b)[1..] == a[1..] + b;
      ApplyBoth(ApplyChange(files, a[0]), a[1..], b);
    }
  }

  // With distinct paths, every change has the last word on its path.
  lemma {:induction false} ChangesAt(files: Files, changes: seq<Change>, k: nat)
    requires Distinct(Paths(changes)) && k < |changes|
    ensures var after := ApplyChanges(files, changes);
            match changes[k]
            case Write(p, content) => p in after && after[p] == content
            case Erase(p) => p !in after
    decreases |changes|
  {
    var rest := changes[1..];
    assert forall i :: 0 <= i < |rest| ==> Paths(rest)[i] == Paths(changes)[i + 1];
    if k == 0 {
      forall i | 0 <= i < |rest| ensures Paths(rest)[i] != changes[0].path {
        assert Paths(changes)[0] != Paths(changes)[i + 1];
      }
      ChangesElsewhere(ApplyChange(files, changes[0]), rest, changes[0].path);
    } else {
      ChangesAt(ApplyChange(files, changes[0]), rest, k - 1);
    }
  }

  lemma ChangesClaimed(e: Edit, files: Files)
    requires ChangesOf(e, files).Some?
    ensures forall p :: p in Paths(ChangesOf(e, files).value) <==> p in Claims(e)
  {
    var cs := ChangesOf(e, files).value;
    forall p ensures p in Paths(cs) <==> p in Claims(e) {
      if |cs| == 2 {
        assert Paths(cs) == [e.move, e.path];
      } else {
        assert Paths(cs) == [e.path];
      }
    }
  }

  // Because the parser claims every path once, no edit sees what another one did.
  lemma {:induction false} PlanIsSequential(edits: seq<Edit>, files: Files)
    requires Distinct(AllClaims(edits))
    ensures Sequential(edits, files)
            == match PlanOf(edits, files)
               case None => None
               case Some(changes) => Some(ApplyChanges(files, changes))
  {
    if edits != [] && ChangesOf(edits[0], files).Some? {
      var first, rest := ChangesOf(edits[0], files).value, edits[1..];
      var after := ApplyChanges(files, first);
      var own, others := Claims(edits[0]), AllClaims(rest);
      SplitDistinct(own, others);
      ChangesClaimed(edits[0], files);
      forall p | p in others ensures (p in files <==> p in after) && (p in files ==> files[p] == after[p]) {
        assert p !in own;
        ChangesElsewhere(files, first, p);
      }
      PlanReadsClaims(rest, files, after);
      PlanIsSequential(rest, after);
      if PlanOf(rest, files).Some? { ApplyBoth(files, first, PlanOf(rest, files).value); }
    }
  }

  lemma ChangesCount(e: Edit, files: Files)
    requires ChangesOf(e, files).Some?
    ensures multiset(Paths(ChangesOf(e, files).value)) == multiset(Claims(e))
  {
    var cs := ChangesOf(e, files).value;
    if |cs| == 2 {
      assert Paths(cs) == [e.move, e.path];
    } else {
      assert Paths(cs) == [e.path];
    }
  }

  lemma SplitDistinct(a: seq<string>, b: seq<string>)
    requires Distinct(a + b)
    ensures Distinct(a) && Distinct(b) && forall p :: p in a ==> p !in b
  {
    forall i, j | 0 <= i < |a| && 0 <= j < |b| ensures a[i] != b[j] {
      assert (a + b)[i] == a[i] && (a + b)[|a| + j] == b[j];
    }
    forall i, j | 0 <= i < j < |a| ensures a[i] != a[j] {
      assert (a + b)[i] == a[i] && (a + b)[j] == a[j];
    }
    forall i, j | 0 <= i < j < |b| ensures b[i] != b[j] {
      assert (a + b)[|a| + i] == b[i] && (a + b)[|a| + j] == b[j];
    }
  }

  lemma DistinctSum(a: seq<string>, b: seq<string>)
    requires Distinct(a) && Distinct(b) && forall p :: p in a ==> p !in b
    ensures Distinct(a + b)
  {
    forall i, j | 0 <= i < j < |a + b| ensures (a + b)[i] != (a + b)[j] {
      if i < |a| <= j { assert a[i] in a && b[j - |a|] in b; }
    }
  }

  // The plan names every claimed path exactly once, and nothing else.
  lemma {:induction false} PlanCoversClaims(edits: seq<Edit>, files: Files)
    requires PlanOf(edits, files).Some?
    ensures multiset(Paths(PlanOf(edits, files).value)) == multiset(AllClaims(edits))
  {
    if edits != [] {
      var first, rest := ChangesOf(edits[0], files).value, PlanOf(edits[1..], files).value;
      ChangesCount(edits[0], files);
      PlanCoversClaims(edits[1..], files);
      PathsCount(first, rest);
    }
  }

  lemma PathsCount(a: seq<Change>, b: seq<Change>)
    ensures multiset(Paths(a + b)) == multiset(Paths(a)) + multiset(Paths(b))
  {
    assert Paths(a + b) == Paths(a) + Paths(b);
  }

  lemma ChangeIsClaimed(edits: seq<Edit>, files: Files, k: nat)
    requires PlanOf(edits, files).Some? && k < |PlanOf(edits, files).value|
    ensures PlanOf(edits, files).value[k].path in AllClaims(edits)
  {
    PlanCoversClaims(edits, files);
    var paths := Paths(PlanOf(edits, files).value);
    assert paths[k] in multiset(paths);
    assert paths[k] in multiset(AllClaims(edits));
  }

  lemma PlanPathsDistinct(edits: seq<Edit>, files: Files)
    requires Distinct(AllClaims(edits)) && PlanOf(edits, files).Some?
    ensures Distinct(Paths(PlanOf(edits, files).value))
  {
    PlanCoversClaims(edits, files);
    DistinctByCount(AllClaims(edits), Paths(PlanOf(edits, files).value));
  }

  lemma CountOnce(a: seq<string>, k: nat)
    requires Distinct(a) && k < |a|
    ensures multiset(a)[a[k]] == 1
  {
    assert a == a[..k] + [a[k]] + a[k + 1..];
    assert a[k] !in a[..k] && a[k] !in a[k + 1..];
  }

  lemma CountTwice(b: seq<string>, i: nat, j: nat)
    requires i < j < |b| && b[i] == b[j]
    ensures multiset(b)[b[i]] >= 2
  {
    assert b == b[..i] + [b[i]] + b[i + 1..j] + [b[j]] + b[j + 1..];
  }

  lemma DistinctByCount(a: seq<string>, b: seq<string>)
    requires multiset(a) == multiset(b) && Distinct(a)
    ensures Distinct(b)
  {
    forall i, j | 0 <= i < j < |b| && b[i] == b[j] ensures false {
      assert b[i] in multiset(b);
      var k :| 0 <= k < |a| && a[k] == b[i];
      CountOnce(a, k);
      CountTwice(b, i, j);
    }
  }
}
