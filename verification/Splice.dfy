// How PlanPatch of kit/tools/patch.go applies the hunks of one update to the lines of a
// file: every hunk goes to the first exact match after its anchor.
module Splice {
  import opened Wrappers
  import opened Text

  // `anchor` is the anchor line, empty when there is none; `eof` asks for a match at the end.
  datatype Hunk = Hunk(anchor: string, before: seq<string>, inserted: seq<string>, eof: bool)

  // Hunk h matches at line i.
  predicate MatchesAt(lines: seq<string>, h: Hunk, i: nat) {
    && i + |h.before| <= |lines|
    && (h.eof ==> i + |h.before| == |lines|)
    && lines[i..i + |h.before|] == h.before
  }

  // The search of a hunk starts at `start`: at the cursor, or behind the anchor's first
  // occurrence at or after it.
  ghost predicate Anchored(lines: seq<string>, cursor: nat, anchor: string, start: nat) {
    if anchor == "" then start == cursor
    else
      && cursor < start <= |lines|
      && lines[start - 1] == anchor
      && forall i :: cursor <= i < start - 1 ==> lines[i] != anchor
  }

  // The hunk belongs at line pos.
  ghost predicate Located(lines: seq<string>, cursor: nat, h: Hunk, pos: nat) {
    exists start: nat ::
      && Anchored(lines, cursor, h.anchor, start)
      && start <= pos && MatchesAt(lines, h, pos)
      && forall i: nat :: start <= i < pos ==> !MatchesAt(lines, h, i)
  }

  // Where hunk j's search begins: behind the block of the hunk before it.
  function Cursor(hunks: seq<Hunk>, at: seq<nat>, j: nat): nat
    requires j <= |at| && |at| <= |hunks|
  {
    if j == 0 then 0 else at[j - 1] + |hunks[j - 1].before|
  }

  ghost predicate PlacedAt(lines: seq<string>, hunks: seq<Hunk>, at: seq<nat>, j: nat)
    requires j < |at| && |at| <= |hunks|
  {
    Located(lines, Cursor(hunks, at, j), hunks[j], at[j])
  }

  // The first |at| hunks belong at the lines `at`.
  ghost predicate PlacedFirst(lines: seq<string>, hunks: seq<Hunk>, at: seq<nat>) {
    |at| <= |hunks| && forall j: nat :: j < |at| ==> PlacedAt(lines, hunks, at, j)
  }

  ghost predicate Placed(lines: seq<string>, hunks: seq<Hunk>, at: seq<nat>) {
    |at| == |hunks| && PlacedFirst(lines, hunks, at)
  }

  // The output up to the end of the first k hunks: untouched lines, and the new blocks.
  ghost function SplicedFirst(lines: seq<string>, hunks: seq<Hunk>, at: seq<nat>, k: nat): seq<string>
    requires PlacedFirst(lines, hunks, at) && k <= |at|
  {
    if k == 0 then []
    else
      assert PlacedAt(lines, hunks, at, k - 1);
      SplicedFirst(lines, hunks, at, k - 1) + lines[Cursor(hunks, at, k - 1)..at[k - 1]] + hunks[k - 1].inserted
  }

  ghost function Spliced(lines: seq<string>, hunks: seq<Hunk>, at: seq<nat>): seq<string>
    requires Placed(lines, hunks, at)
  {
    CursorBounds(lines, hunks, at, |at|);
    SplicedFirst(lines, hunks, at, |at|) + lines[Cursor(hunks, at, |at|)..]
  }

  lemma CursorBounds(lines: seq<string>, hunks: seq<Hunk>, at: seq<nat>, k: nat)
    requires PlacedFirst(lines, hunks, at) && k <= |at|
    ensures Cursor(hunks, at, k) <= |lines|
  {
    if k > 0 { assert PlacedAt(lines, hunks, at, k - 1); }
  }

  lemma LocatedUnique(lines: seq<string>, cursor: nat, h: Hunk, a: nat, b: nat)
    requires Located(lines, cursor, h, a) && Located(lines, cursor, h, b)
    ensures a == b
  {
    var s: nat :| Anchored(lines, cursor, h.anchor, s) && s <= a && MatchesAt(lines, h, a)
                  && forall i: nat :: s <= i < a ==> !MatchesAt(lines, h, i);
    var t: nat :| Anchored(lines, cursor, h.anchor, t) && t <= b && MatchesAt(lines, h, b)
                  && forall i: nat :: t <= i < b ==> !MatchesAt(lines, h, i);
    AnchorUnique(lines, cursor, h.anchor, s, t);
  }

  lemma AnchorUnique(lines: seq<string>, cursor: nat, anchor: string, s: nat, t: nat)
    requires Anchored(lines, cursor, anchor, s) && Anchored(lines, cursor, anchor, t)
    ensures s == t
  {
    if anchor != "" { assert lines[s - 1] == anchor && lines[t - 1] == anchor; }
  }

  // There is at most one way to place the hunks.
  lemma {:induction false} PlacedUnique(lines: seq<string>, hunks: seq<Hunk>, a: seq<nat>, b: seq<nat>, k: nat)
    requires PlacedFirst(lines, hunks, a) && PlacedFirst(lines, hunks, b) && k <= |a| && k <= |b|
    ensures a[..k] == b[..k]
  {
    if k > 0 {
      PlacedUnique(lines, hunks, a, b, k - 1);
      assert PlacedAt(lines, hunks, a, k - 1) && PlacedAt(lines, hunks, b, k - 1);
      if k > 1 { assert a[k - 2] == a[..k - 1][k - 2] == b[k - 2]; }
      LocatedUnique(lines, Cursor(hunks, a, k - 1), hunks[k - 1], a[k - 1], b[k - 1]);
      assert a[..k] == a[..k - 1] + [a[k - 1]] && b[..k] == b[..k - 1] + [b[k - 1]];
    }
  }

  // Matched blocks lie in order and do not overlap, each reads exactly its old lines, and
  // an end-of-file hunk ends at the last line.
  lemma {:induction false} PlacedInOrder(lines: seq<string>, hunks: seq<Hunk>, at: seq<nat>, j: nat, k: nat)
    requires PlacedFirst(lines, hunks, at) && j < k < |at|
    ensures MatchesAt(lines, hunks[j], at[j]) && MatchesAt(lines, hunks[k], at[k])
    ensures at[j] + |hunks[j].before| <= at[k]
    decreases k - j
  {
    assert PlacedAt(lines, hunks, at, j) && PlacedAt(lines, hunks, at, k);
    if j + 1 < k { PlacedInOrder(lines, hunks, at, j, k - 1); }
  }

  // How far the first k hunks move what follows them.
  function Shift(hunks: seq<Hunk>, k: nat): int
    requires k <= |hunks|
  {
    if k == 0 then 0 else Shift(hunks, k - 1) + |hunks[k - 1].inserted| - |hunks[k - 1].before|
  }

  // Adds the block that ends at pos + |h.inserted| in `out`, in its old form; None where
  // `out` does not read the new block there.
  ghost function RestoreBlock(first: seq<string>, out: seq<string>, h: Hunk, from: int, pos: int): Option<seq<string>> {
    if !(0 <= from <= pos && pos + |h.inserted| <= |out|) || out[pos..pos + |h.inserted|] != h.inserted then None
    else Some(first + out[from..pos] + h.before)
  }

  // The lines of `out` up to the end of the first k new blocks, every new block replaced
  // by its old block.
  ghost function RestoredFirst(out: seq<string>, hunks: seq<Hunk>, at: seq<nat>, k: nat): Option<seq<string>>
    requires |at| <= |hunks| && k <= |at|
  {
    if k == 0 then Some([])
    else if RestoredFirst(out, hunks, at, k - 1).None? then None
    else
      RestoreBlock(RestoredFirst(out, hunks, at, k - 1).value, out, hunks[k - 1],
                   Cursor(hunks, at, k - 1) + Shift(hunks, k - 1), at[k - 1] + Shift(hunks, k - 1))
  }

  ghost function Restored(out: seq<string>, hunks: seq<Hunk>, at: seq<nat>): Option<seq<string>>
    requires |at| == |hunks|
  {
    var end := Cursor(hunks, at, |at|) + Shift(hunks, |at|);
    match RestoredFirst(out, hunks, at, |at|)
    case None => None
    case Some(first) => if 0 <= end <= |out| then Some(first + out[end..]) else None
  }

  lemma {:induction false} SplicedLength(lines: seq<string>, hunks: seq<Hunk>, at: seq<nat>, k: nat)
    requires PlacedFirst(lines, hunks, at) && k <= |at|
    ensures |SplicedFirst(lines, hunks, at, k)| == Cursor(hunks, at, k) + Shift(hunks, k)
  {
    if k > 0 {
      assert PlacedAt(lines, hunks, at, k - 1);
      SplicedLength(lines, hunks, at, k - 1);
    }
  }

  lemma NoneRestored(out: seq<string>, hunks: seq<Hunk>, at: seq<nat>)
    requires |at| <= |hunks|
    ensures RestoredFirst(out, hunks, at, 0) == Some([])
  {
  }

  // What the next hunk adds to the output, and where it lies.
  lemma SplicedStep(lines: seq<string>, hunks: seq<Hunk>, at: seq<nat>, k: nat)
    requires PlacedFirst(lines, hunks, at) && 0 < k <= |at|
    ensures var h, from, pos := hunks[k - 1], Cursor(hunks, at, k - 1), at[k - 1];
            && from <= pos && MatchesAt(lines, h, pos)
            && SplicedFirst(lines, hunks, at, k) == SplicedFirst(lines, hunks, at, k - 1) + lines[from..pos] + h.inserted
  {
    assert PlacedAt(lines, hunks, at, k - 1);
  }

  lemma {:induction false} RestoreFirst(lines: seq<string>, hunks: seq<Hunk>, at: seq<nat>, out: seq<string>, k: nat)
    requires PlacedFirst(lines, hunks, at) && k <= |at|
    requires SplicedFirst(lines, hunks, at, k) <= out
    ensures Cursor(hunks, at, k) <= |lines|
    ensures RestoredFirst(out, hunks, at, k) == Some(lines[..Cursor(hunks, at, k)])
  {
    hide PlacedAt, RestoredFirst, SplicedFirst;
    NoneRestored(out, hunks, at);
    if k > 0 {
      var h, from, pos := hunks[k - 1], Cursor(hunks, at, k - 1), at[k - 1];
      SplicedStep(lines, hunks, at, k);
      var first := SplicedFirst(lines, hunks, at, k - 1);
      assert first <= SplicedFirst(lines, hunks, at, k) <= out;
      RestoreFirst(lines, hunks, at, out, k - 1);
      SplicedLength(lines, hunks, at, k - 1);
      var shift := Shift(hunks, k - 1);
      ReadBack(out, first, lines[from..pos], h.inserted, from + shift, pos + shift);
      Extend(lines, from, pos, h.before);
      RestoreNext(lines, hunks, at, out, k);
    }
  }

  lemma RestoreNext(lines: seq<string>, hunks: seq<Hunk>, at: seq<nat>, out: seq<string>, k: nat)
    requires 0 < k <= |at| <= |hunks| && Cursor(hunks, at, k - 1) <= at[k - 1] && Cursor(hunks, at, k) <= |lines|
    requires RestoredFirst(out, hunks, at, k - 1) == Some(lines[..Cursor(hunks, at, k - 1)])
    requires var h, from, pos, shift := hunks[k - 1], Cursor(hunks, at, k - 1), at[k - 1], Shift(hunks, k - 1);
             && 0 <= from + shift && pos + shift + |h.inserted| <= |out|
             && out[from + shift..pos + shift] == lines[from..pos]
             && out[pos + shift..pos + shift + |h.inserted|] == h.inserted
             && lines[..from] + lines[from..pos] + h.before == lines[..pos + |h.before|]
    ensures RestoredFirst(out, hunks, at, k) == Some(lines[..Cursor(hunks, at, k)])
  {
  }

  lemma Extend(lines: seq<string>, from: nat, pos: nat, block: seq<string>)
    requires from <= pos && pos + |block| <= |lines| && lines[pos..pos + |block|] == block
    ensures lines[..from] + lines[from..pos] + block == lines[..pos + |block|]
  {
  }

  lemma ReadBack(out: seq<string>, first: seq<string>, gap: seq<string>, block: seq<string>, i: int, j: int)
    requires first + gap + block <= out && i == |first| && j == i + |gap|
    ensures j + |block| <= |out| && out[i..j] == gap && out[j..j + |block|] == block
  {
  }

  // A splice is undone by replacing every new block by its old block where it was put.
  lemma RestoreSpliced(lines: seq<string>, hunks: seq<Hunk>, at: seq<nat>)
    requires Placed(lines, hunks, at)
    ensures Restored(Spliced(lines, hunks, at), hunks, at) == Some(lines)
  {
    var out := Spliced(lines, hunks, at);
    RestoreFirst(lines, hunks, at, out, |at|);
    SplicedLength(lines, hunks, at, |at|);
    var cursor := Cursor(hunks, at, |at|);
    assert out[cursor + Shift(hunks, |at|)..] == lines[cursor..];
    assert lines[..cursor] + lines[cursor..] == lines;
  }

  // slices.Index from a start on, plus one: the line behind the anchor.
  method FindAnchor(lines: seq<string>, cursor: nat, anchor: string) returns (start: Option<nat>)
    requires cursor <= |lines|
    ensures start.Some? ==> Anchored(lines, cursor, anchor, start.value) && start.value <= |lines|
    ensures start.None? ==> forall s: nat :: !Anchored(lines, cursor, anchor, s)
  {
    if anchor == "" { return Some(cursor); }
    var i: nat := cursor;
    while i < |lines|
      invariant cursor <= i <= |lines|
      invariant forall j :: cursor <= j < i ==> lines[j] != anchor
    {
      if lines[i] == anchor { return Some(i + 1); }
      i := i + 1;
    }
    start := None;
  }

  method FindBlock(lines: seq<string>, start: nat, h: Hunk) returns (found: Option<nat>)
    requires start <= |lines|
    ensures found.Some? ==> start <= found.value && MatchesAt(lines, h, found.value)
                            && forall i: nat :: start <= i < found.value ==> !MatchesAt(lines, h, i)
    ensures found.None? ==> forall i: nat :: start <= i ==> !MatchesAt(lines, h, i)
  {
    var i := start;
    while i + |h.before| <= |lines|
      invariant start <= i
      invariant forall j: nat :: start <= j < i ==> !MatchesAt(lines, h, j)
      decreases |lines| - i
    {
      if !(h.eof && i + |h.before| != |lines|) && lines[i..i + |h.before|] == h.before { return Some(i); }
      i := i + 1;
    }
    found := None;
  }

  // The loop over the hunks of an update. It succeeds exactly when the hunks have places.
  method Apply(lines: seq<string>, hunks: seq<Hunk>) returns (output: Option<seq<string>>, at: seq<nat>)
    ensures output.Some? ==> Placed(lines, hunks, at) && output.value == Spliced(lines, hunks, at)
    ensures output.None? ==> forall a :: !Placed(lines, hunks, a)
  {
    var out: seq<string>, cursor: nat, k: nat := [], 0, 0;
    at := [];
    while k < |hunks|
      invariant 0 <= k <= |hunks| && |at| == k
      invariant PlacedFirst(lines, hunks, at) && cursor == Cursor(hunks, at, k) <= |lines|
      invariant out == SplicedFirst(lines, hunks, at, k)
    {
      var h := hunks[k];
      var start := FindAnchor(lines, cursor, h.anchor);
      var found := None;
      if start.Some? { found := FindBlock(lines, start.value, h); }
      if found.None? {
        forall a | Placed(lines, hunks, a) ensures false {
          NextPlace(lines, hunks, at, a);
        }
        return None, [];
      }
      var pos := found.value;
      assert Located(lines, cursor, h, pos);
      ghost var longer := at + [pos];
      forall j: nat | j < |longer| ensures PlacedAt(lines, hunks, longer, j) {
        if j < k { assert PlacedAt(lines, hunks, at, j); }
      }
      SameFirst(lines, hunks, at, longer, k);
      out := out + lines[cursor..pos] + h.inserted;
      cursor := pos + |h.before|;
      at := at + [pos];
      k := k + 1;
    }
    out := out + lines[cursor..];
    output := Some(out);
  }

  lemma {:induction false} SameFirst(lines: seq<string>, hunks: seq<Hunk>, a: seq<nat>, b: seq<nat>, k: nat)
    requires PlacedFirst(lines, hunks, a) && PlacedFirst(lines, hunks, b)
    requires k <= |a| && k <= |b| && a[..k] == b[..k]
    ensures SplicedFirst(lines, hunks, a, k) == SplicedFirst(lines, hunks, b, k)
  {
    if k > 0 {
      assert a[..k - 1] == a[..k][..k - 1] == b[..k - 1];
      assert a[k - 1] == a[..k][k - 1] == b[k - 1];
      if k > 1 { assert a[k - 2] == a[..k][k - 2] == b[k - 2]; }
      SameFirst(lines, hunks, a, b, k - 1);
    }
  }

  // The places of all hunks continue the places of the first ones.
  lemma NextPlace(lines: seq<string>, hunks: seq<Hunk>, at: seq<nat>, all: seq<nat>)
    requires PlacedFirst(lines, hunks, at) && |at| < |hunks| && Placed(lines, hunks, all)
    ensures Located(lines, Cursor(hunks, at, |at|), hunks[|at|], all[|at|])
  {
    var k := |at|;
    PlacedUnique(lines, hunks, at, all, k);
    if k > 0 { assert all[k - 1] == all[..k][k - 1] == at[k - 1]; }
    assert PlacedAt(lines, hunks, all, k);
  }
}
