// The patch grammar of kit/tools/patch.go: FilePath and parsePatch, with a printer as the
// parser's inverse.
module PatchGrammar {
  import opened Sequences
  import opened Wrappers
  import opened Text
  import opened Splice
  import opened Patch

  const MAX_PATCH: nat := 0x80_0000
  const BEGIN := "*** Begin Patch"
  const END := "*** End Patch"
  const ADD := "*** Add File: "
  const UPDATE := "*** Update File: "
  const DELETE := "*** Delete File: "
  const MOVE := "*** Move to: "
  const ANCHOR := "@@ "
  const END_OF_FILE := "*** End of File"

  predicate StartsWith(s: string, prefix: string) {
    |prefix| <= |s| && s[..|prefix|] == prefix
  }

  function Lower(c: char): char {
    if 'A' <= c <= 'Z' then (c as int + 32) as char else c
  }

  // strings.EqualFold(part, ".git"); no other character folds to one of these letters.
  predicate IsGit(part: string) {
    |part| == 4 && part[0] == '.' && Lower(part[1]) == 'g' && Lower(part[2]) == 'i' && Lower(part[3]) == 't'
  }

  // A relative path that path.Clean leaves alone and that avoids Git's control files.
  predicate FilePath(name: string) {
    && name != ""
    && (forall k :: 0 <= k < |name| ==> name[k] !in "\\\0\r\n")
    && var parts := Split(name, '/');
    forall k :: 0 <= k < |parts| ==> parts[k] != "" && parts[k] != "." && parts[k] != ".." && !IsGit(parts[k])
  }

  predicate IsHunk(line: string) {
    line == "@@" || StartsWith(line, ANCHOR)
  }

  predicate IsBody(line: string) {
    line != "" && line[0] in " +-"
  }

  function BodyLength(lines: seq<string>): (n: nat)
    ensures n <= |lines|
  {
    if lines != [] && IsBody(lines[0]) then 1 + BodyLength(lines[1..]) else 0
  }

  function Olds(body: seq<string>): seq<string>
    requires forall k :: 0 <= k < |body| ==> IsBody(body[k])
  {
    if body == [] then []
    else assert IsBody(body[0]); (if body[0][0] != '+' then [body[0][1..]] else []) + Olds(body[1..])
  }

  function News(body: seq<string>): seq<string>
    requires forall k :: 0 <= k < |body| ==> IsBody(body[k])
  {
    if body == [] then []
    else assert IsBody(body[0]); (if body[0][0] != '-' then [body[0][1..]] else []) + News(body[1..])
  }

  lemma {:induction false} BodyIsBody(lines: seq<string>)
    ensures forall k :: 0 <= k < BodyLength(lines) ==> IsBody(lines[k])
    ensures BodyLength(lines) < |lines| ==> !IsBody(lines[BodyLength(lines)])
  {
    if lines != [] && IsBody(lines[0]) {
      BodyIsBody(lines[1..]);
      forall k | 0 <= k < BodyLength(lines) ensures IsBody(lines[k]) {
        if k > 0 { assert lines[k] == lines[1..][k - 1]; }
      }
    }
  }

  function Anchor(line: string): string
    requires IsHunk(line)
  {
    if line == "@@" then "" else line[|ANCHOR|..]
  }

  // The hunks at the start of the lines, and the lines after them.
  function Hunks(lines: seq<string>): (r: Option<(seq<Hunk>, seq<string>)>)
    ensures r.Some? ==> |r.value.1| <= |lines|
  {
    if lines == [] || !IsHunk(lines[0]) then Some(([], lines))
    else
      var n := BodyLength(lines[1..]);
      if n == 0 then None
      else
        BodyIsBody(lines[1..]);
        var body, rest := lines[1..][..n], lines[1..][n..];
        var eof := rest != [] && rest[0] == END_OF_FILE;
        var h := Hunk(Anchor(lines[0]), Olds(body), News(body), eof);
        if eof then Some(([h], rest[1..]))
        else
          AfterHunks([h], Hunks(rest))
  }

  function AfterHunks(first: seq<Hunk>, r: Option<(seq<Hunk>, seq<string>)>): Option<(seq<Hunk>, seq<string>)> {
    if r.None? then None else Some((first + r.value.0, r.value.1))
  }

  lemma AfterBoth(a: seq<Hunk>, b: seq<Hunk>, r: Option<(seq<Hunk>, seq<string>)>)
    ensures AfterHunks(a, AfterHunks(b, r)) == AfterHunks(a + b, r)
    ensures AfterHunks([], r) == r
  {
    if r.Some? {
      assert a + (b + r.value.0) == a + b + r.value.0;
      assert [] + r.value.0 == r.value.0;
    }
  }

  function AddedLength(lines: seq<string>): (n: nat)
    ensures n <= |lines|
  {
    if lines != [] && StartsWith(lines[0], "+") then 1 + AddedLength(lines[1..]) else 0
  }

  function Added(lines: seq<string>): string
  {
    if lines != [] && StartsWith(lines[0], "+") then lines[0][1..] + "\n" + Added(lines[1..]) else ""
  }

  // A path may be claimed once.
  predicate Claimable(name: string, seen: set<string>) {
    FilePath(name) && name !in seen
  }

  function HunksOf(path: string, move: string, r: Option<(seq<Hunk>, seq<string>)>): Option<(Edit, seq<string>)> {
    if r.None? || r.value.0 == [] then None else Some((Update(path, move, r.value.0), r.value.1))
  }

  // The first edit and the lines after it.
  function FirstEdit(lines: seq<string>, seen: set<string>): (r: Option<(Edit, seq<string>)>)
    requires lines != []
    ensures r.Some? ==> |r.value.1| < |lines|
  {
    var line, rest := lines[0], lines[1..];
    if StartsWith(line, ADD) then
      var p := line[|ADD|..];
      if !Claimable(p, seen) then None else Some((Add(p, Added(rest)), rest[AddedLength(rest)..]))
    else if StartsWith(line, UPDATE) then
      var p := line[|UPDATE|..];
      if !Claimable(p, seen) then None
      else
        if !(rest != [] && StartsWith(rest[0], MOVE)) then HunksOf(p, "", Hunks(rest))
        else
          var move := rest[0][|MOVE|..];
          if !Claimable(move, seen + {p}) then None else HunksOf(p, move, Hunks(rest[1..]))
    else if StartsWith(line, DELETE) then
      var p := line[|DELETE|..];
      if !Claimable(p, seen) then None else Some((Delete(p), rest))
    else None
  }

  function Taken(e: Edit): set<string> {
    if e.Update? && e.move != "" then {e.path, e.move} else {e.path}
  }

  function Edits(lines: seq<string>, seen: set<string>): Option<seq<Edit>>
    decreases |lines|
  {
    if lines == [] then Some([])
    else
      match FirstEdit(lines, seen)
      case None => None
      case Some((e, rest)) =>
        AfterEdits([e], Edits(rest, seen + Taken(e)))
  }

  function AfterEdits(first: seq<Edit>, r: Option<seq<Edit>>): Option<seq<Edit>> {
    if r.None? then None else Some(first + r.value)
  }

  lemma AfterBothEdits(a: seq<Edit>, b: seq<Edit>, r: Option<seq<Edit>>)
    ensures AfterEdits(a, AfterEdits(b, r)) == AfterEdits(a + b, r)
    ensures AfterEdits([], r) == r
  {
    if r.Some? {
      assert a + (b + r.value) == a + b + r.value;
      assert [] + r.value == r.value;
    }
  }

  function Parsed(text: string): Option<seq<Edit>> {
    if |text| > MAX_PATCH then None
    else
      var lines := Split(if text != "" && text[|text| - 1] == '\n' then text[..|text| - 1] else text, '\n');
      if |lines| < 3 || lines[0] != BEGIN || lines[|lines| - 1] != END then None
      else Edits(lines[1..|lines| - 1], {})
  }

  // ---- The parser, as the source writes it.

  method ParseHunks(input: seq<string>) returns (r: Option<(seq<Hunk>, seq<string>)>)
    ensures r == Hunks(input)
  {
    var lines, hunks: seq<Hunk> := input, [];
    var ended := false;
    AfterBoth([], [], Hunks(input));
    while !ended && lines != [] && IsHunk(lines[0])
      invariant Hunks(input) == if ended then Some((hunks, lines)) else AfterHunks(hunks, Hunks(lines))
      decreases !ended, |lines|
    {
      ghost var some := hunks;
      var anchor := Anchor(lines[0]);
      lines := lines[1..];
      var old_, new_, count := TakeBody(lines);
      if count == 0 { return None; }
      lines := lines[count..];
      if lines != [] && lines[0] == END_OF_FILE {
        hunks := hunks + [Hunk(anchor, old_, new_, true)];
        lines := lines[1..];
        ended := true;
      } else {
        hunks := hunks + [Hunk(anchor, old_, new_, false)];
        AfterBoth(some, [hunks[|some|]], Hunks(lines));
      }
    }
    assert hunks + [] == hunks;
    r := Some((hunks, lines));
  }

  method TakeBody(lines: seq<string>) returns (old_: seq<string>, new_: seq<string>, count: nat)
    ensures count == BodyLength(lines) && (forall k :: 0 <= k < count ==> IsBody(lines[k]))
    ensures old_ == Olds(lines[..count]) && new_ == News(lines[..count])
  {
    old_, new_, count := [], [], 0;
    BodyIsBody(lines);
    while count < |lines| && IsBody(lines[count])
      invariant count <= BodyLength(lines) <= |lines|
      invariant old_ == Olds(lines[..count]) && new_ == News(lines[..count])
    {
      var line := lines[count];
      if line[0] != '+' { old_ := old_ + [line[1..]]; }
      if line[0] != '-' { new_ := new_ + [line[1..]]; }
      assert lines[..count + 1] == lines[..count] + [line];
      OldsAppend(lines[..count], line);
      count := count + 1;
    }
  }

  lemma {:induction false} OldsAppend(body: seq<string>, line: string)
    requires IsBody(line) && forall k :: 0 <= k < |body| ==> IsBody(body[k])
    ensures Olds(body + [line]) == Olds(body) + if line[0] != '+' then [line[1..]] else []
    ensures News(body + [line]) == News(body) + if line[0] != '-' then [line[1..]] else []
  {
    if body == [] {
      assert body + [line] == [line];
    } else {
      assert (body + [line])[1..] == body[1..] + [line];
      OldsAppend(body[1..], line);
    }
  }

  method ParsePatch(text: string) returns (r: Option<seq<Edit>>)
    ensures r == Parsed(text)
  {
    if |text| > MAX_PATCH { return None; }
    var lines := Split(if text != "" && text[|text| - 1] == '\n' then text[..|text| - 1] else text, '\n');
    if |lines| < 3 || lines[0] != BEGIN || lines[|lines| - 1] != END { return None; }
    lines := lines[1..|lines| - 1];
    var seen, edits: seq<Edit> := {}, [];
    ghost var all := lines;
    AfterBothEdits([], [], Edits(all, {}));
    while lines != []
      invariant Edits(all, {}) == AfterEdits(edits, Edits(lines, seen))
      decreases |lines|
    {
      var first := ParseEdit(lines, seen);
      if first.None? { return None; }
      var e := first.value.0;
      AfterBothEdits(edits, [e], Edits(first.value.1, seen + Taken(e)));
      edits := edits + [e];
      seen := seen + Taken(e);
      lines := first.value.1;
    }
    assert edits + [] == edits;
    r := Some(edits);
  }

  method ParseEdit(input: seq<string>, seen: set<string>) returns (r: Option<(Edit, seq<string>)>)
    requires input != []
    ensures r == FirstEdit(input, seen)
  {
    var line, lines := input[0], input[1..];
    if StartsWith(line, ADD) {
      var name := line[|ADD|..];
      if !Claimable(name, seen) { return None; }
      ghost var rest := lines;
      var content := "";
      while lines != [] && StartsWith(lines[0], "+")
        invariant Added(rest) == content + Added(lines)
        invariant |lines| <= |rest| && AddedLength(rest) == |rest| - |lines| + AddedLength(lines)
        invariant lines == rest[|rest| - |lines|..]
        decreases |lines|
      {
        content := content + lines[0][1..] + "\n";
        lines := lines[1..];
      }
      assert lines == [] || !StartsWith(lines[0], "+");
      assert AddedLength(lines) == 0 && Added(lines) == "" && content + "" == content;
      return Some((Add(name, content), lines));
    }
    if StartsWith(line, UPDATE) {
      var name, move := line[|UPDATE|..], "";
      if !Claimable(name, seen) { return None; }
      if lines != [] && StartsWith(lines[0], MOVE) {
        move := lines[0][|MOVE|..];
        if !Claimable(move, seen + {name}) { return None; }
        lines := lines[1..];
      }
      var hunks := ParseHunks(lines);
      if hunks.None? || hunks.value.0 == [] { return None; }
      return Some((Update(name, move, hunks.value.0), hunks.value.1));
    }
    if StartsWith(line, DELETE) {
      var name := line[|DELETE|..];
      if !Claimable(name, seen) { return None; }
      return Some((Delete(name), lines));
    }
    r := None;
  }

  // ---- What the parser accepts.

  // No path is claimed twice, and every claimed path is an acceptable file path.
  lemma {:induction false} ClaimsOnce(lines: seq<string>, seen: set<string>)
    requires Edits(lines, seen).Some?
    ensures Distinct(AllClaims(Edits(lines, seen).value))
    ensures forall p :: p in AllClaims(Edits(lines, seen).value) ==> Claimable(p, seen)
    decreases |lines|
  {
    if lines != [] {
      var (e, rest) := FirstEdit(lines, seen).value;
      FirstClaims(lines, seen);
      ClaimsOnce(rest, seen + Taken(e));
      var more := Edits(rest, seen + Taken(e)).value;
      assert ([e] + more)[1..] == more;
      DistinctSum(Claims(e), AllClaims(more));
    }
  }

  lemma FirstClaims(lines: seq<string>, seen: set<string>)
    requires lines != [] && FirstEdit(lines, seen).Some?
    ensures var e := FirstEdit(lines, seen).value.0;
            && Distinct(Claims(e))
            && (forall p :: p in Claims(e) ==> Claimable(p, seen) && p in Taken(e))
  {
  }

  lemma ParsedClaims(text: string)
    requires Parsed(text).Some?
    ensures Distinct(AllClaims(Parsed(text).value))
    ensures forall p :: p in AllClaims(Parsed(text).value) ==> FilePath(p)
  {
    hide FilePath, Edits, AllClaims, Distinct;
    var lines := Split(if text != "" && text[|text| - 1] == '\n' then text[..|text| - 1] else text, '\n');
    ClaimsOnce(lines[1..|lines| - 1], {});
  }

  // ---- A printer, and the parser as its inverse.

  function Marked(mark: char, lines: seq<string>): seq<string> {
    seq(|lines|, i requires 0 <= i < |lines| => [mark] + lines[i])
  }

  function PrintHunk(h: Hunk): seq<string> {
    [if h.anchor == "" then "@@" else ANCHOR + h.anchor]
    + (Marked('-', h.before) + Marked('+', h.inserted))
    + (if h.eof then [END_OF_FILE] else [])
  }

  function PrintHunks(hunks: seq<Hunk>): seq<string> {
    if hunks == [] then [] else PrintHunk(hunks[0]) + PrintHunks(hunks[1..])
  }

  function PrintEdit(e: Edit): seq<string> {
    match e
    case Add(p, content) => [ADD + p] + Marked('+', Lines(content))
    case Delete(p) => [DELETE + p]
    case Update(p, move, hunks) =>
      [UPDATE + p] + (if move == "" then [] else [MOVE + move]) + PrintHunks(hunks)
  }

  function PrintEdits(edits: seq<Edit>): seq<string> {
    if edits == [] then [] else PrintEdit(edits[0]) + PrintEdits(edits[1..])
  }

  // What can be written as an edit: a hunk has a line, only the last hunk of an update may
  // ask for the end of the file, and added content ends with a newline.
  predicate Printable(e: Edit) {
    match e
    case Add(_, content) => Terminated(content)
    case Delete(_) => true
    case Update(_, _, hunks) =>
      hunks != [] && Shaped(hunks)
  }

  predicate Shaped(hunks: seq<Hunk>) {
    hunks != [] ==>
      && |hunks[0].before| + |hunks[0].inserted| > 0
      && (|hunks| > 1 ==> !hunks[0].eof)
      && Shaped(hunks[1..])
  }

  // The rest of a patch begins with a new edit.
  predicate Starts(lines: seq<string>) {
    lines == [] || StartsWith(lines[0], "*** ")
  }

  lemma {:induction false} MarkedBody(mark: char, lines: seq<string>, rest: seq<string>)
    requires mark in "+-"
    ensures BodyLength(Marked(mark, lines) + rest) == |lines| + BodyLength(rest)
  {
    if lines == [] {
      assert Marked(mark, lines) + rest == rest;
    } else {
      var all := Marked(mark, lines) + rest;
      assert all[0] == [mark] + lines[0];
      assert all[1..] == Marked(mark, lines[1..]) + rest;
      MarkedBody(mark, lines[1..], rest);
    }
  }

  lemma {:induction false} MarkedLines(mark: char, lines: seq<string>)
    requires mark in "+-"
    ensures forall k :: 0 <= k < |lines| ==> IsBody(Marked(mark, lines)[k])
    ensures Olds(Marked(mark, lines)) == if mark == '-' then lines else []
    ensures News(Marked(mark, lines)) == if mark == '+' then lines else []
  {
    var body := Marked(mark, lines);
    if lines != [] {
      assert body[0] == [mark] + lines[0] && body[0][1..] == lines[0];
      assert body[1..] == Marked(mark, lines[1..]);
      MarkedLines(mark, lines[1..]);
      assert [lines[0]] + lines[1..] == lines;
    }
  }

  lemma {:induction false} OldsConcat(a: seq<string>, b: seq<string>)
    requires forall k :: 0 <= k < |a| ==> IsBody(a[k])
    requires forall k :: 0 <= k < |b| ==> IsBody(b[k])
    ensures Olds(a + b) == Olds(a) + Olds(b) && News(a + b) == News(a) + News(b)
  {
    if a == [] {
      assert a + b == b;
    } else {
      OldsConcat(a[1..], b);
      BodyConcat(a[0], a[1..], b);
      assert [a[0]] + a[1..] == a && [a[0]] + (a[1..] + b) == a + b;
    }
  }

  lemma BodyFirst(line: string, a: seq<string>)
    requires IsBody(line) && forall k :: 0 <= k < |a| ==> IsBody(a[k])
    ensures Olds([line] + a) == (if line[0] != '+' then [line[1..]] else []) + Olds(a)
    ensures News([line] + a) == (if line[0] != '-' then [line[1..]] else []) + News(a)
  {
    assert ([line] + a)[1..] == a;
  }

  lemma BodyConcat(line: string, a: seq<string>, b: seq<string>)
    requires IsBody(line) && (forall k :: 0 <= k < |a| ==> IsBody(a[k])) && forall k :: 0 <= k < |b| ==> IsBody(b[k])
    requires Olds(a + b) == Olds(a) + Olds(b) && News(a + b) == News(a) + News(b)
    ensures Olds([line] + (a + b)) == Olds([line] + a) + Olds(b) && News([line] + (a + b)) == News([line] + a) + News(b)
  {
    hide Olds, News;
    BodyFirst(line, a);
    BodyFirst(line, a + b);
    Associate(if line[0] != '+' then [line[1..]] else [], Olds(a), Olds(b));
    Associate(if line[0] != '-' then [line[1..]] else [], News(a), News(b));
  }

  lemma MarkedOlds(olds: seq<string>, news: seq<string>)
    ensures forall k :: 0 <= k < |olds| + |news| ==> IsBody((Marked('-', olds) + Marked('+', news))[k])
    ensures Olds(Marked('-', olds) + Marked('+', news)) == olds
    ensures News(Marked('-', olds) + Marked('+', news)) == news
  {
    MarkedLines('-', olds);
    MarkedLines('+', news);
    OldsConcat(Marked('-', olds), Marked('+', news));
  }

  lemma {:induction false} HunksPrinted(hunks: seq<Hunk>, rest: seq<string>)
    requires Starts(rest) && (rest == [] || rest[0] != END_OF_FILE)
    requires Shaped(hunks)
    ensures Hunks(PrintHunks(hunks) + rest) == Some((hunks, rest))
  {
    hide PrintHunk, StartsWith, IsBody, Hunks, AfterHunks;
    var lines := PrintHunks(hunks) + rest;
    HunksStop(rest);
    if hunks == [] {
      assert lines == rest;
    } else {
      var h, tail := hunks[0], PrintHunks(hunks[1..]) + rest;
      if hunks[1..] != [] {
        HunkHead(hunks[1]);
        assert tail[0] == PrintHunk(hunks[1])[0];
      } else {
        assert tail == rest;
      }
      HunkPrinted(h, tail);
      Associate(PrintHunk(h), PrintHunks(hunks[1..]), rest);
      if h.eof {
        assert hunks == [h] && tail == rest;
      } else {
        HunksPrinted(hunks[1..], rest);
        MoreHunks([h], hunks[1..], rest);
        assert [h] + hunks[1..] == hunks;
      }
    }
  }

  lemma MoreHunks(first: seq<Hunk>, hunks: seq<Hunk>, rest: seq<string>)
    ensures AfterHunks(first, Some((hunks, rest))) == Some((first + hunks, rest))
  {
  }

  // Another header ends the hunks.
  lemma HunksStop(rest: seq<string>)
    requires Starts(rest)
    ensures Hunks(rest) == Some(([], rest)) && (rest != [] ==> !IsBody(rest[0]))
  {
    if rest != [] {
      assert rest[0][0] == rest[0][..4][0] == '*';
      OtherPrefix(rest[0], ANCHOR, 0);
    }
  }

  lemma HunkHead(h: Hunk)
    ensures PrintHunk(h) != [] && !IsBody(PrintHunk(h)[0]) && PrintHunk(h)[0] != END_OF_FILE
  {
    assert PrintHunk(h)[0][0] == '@';
  }

  lemma HunkPrinted(h: Hunk, tail: seq<string>)
    requires |h.before| + |h.inserted| > 0
    requires h.eof || tail == [] || (tail[0] != END_OF_FILE && !IsBody(tail[0]))
    ensures Hunks(PrintHunk(h) + tail) == if h.eof then Some(([h], tail)) else AfterHunks([h], Hunks(tail))
  {
    var body := Marked('-', h.before) + Marked('+', h.inserted);
    var end := (if h.eof then [END_OF_FILE] else []) + tail;
    BodyPrinted(h.before, h.inserted, end);
    MarkedOlds(h.before, h.inserted);
    var header := if h.anchor == "" then "@@" else ANCHOR + h.anchor;
    HeaderPrinted(h.anchor);
    Associate([header] + body, if h.eof then [END_OF_FILE] else [], tail);
    Associate([header], body, end);
    HeadHunk(header, body, end);
    if h.eof { assert end[1..] == tail; } else { assert end == tail; }
  }

  lemma HeaderPrinted(anchor: string)
    ensures var header := if anchor == "" then "@@" else ANCHOR + anchor; IsHunk(header) && Anchor(header) == anchor
  {
    if anchor != "" { assert (ANCHOR + anchor)[|ANCHOR|..] == anchor; }
  }

  lemma BodyPrinted(olds: seq<string>, news: seq<string>, end: seq<string>)
    requires end == [] || !IsBody(end[0])
    ensures BodyLength(Marked('-', olds) + Marked('+', news) + end) == |olds| + |news|
  {
    assert Marked('-', olds) + (Marked('+', news) + end) == Marked('-', olds) + Marked('+', news) + end;
    MarkedBody('-', olds, Marked('+', news) + end);
    MarkedBody('+', news, end);
  }

  lemma HeadHunk(header: string, body: seq<string>, end: seq<string>)
    requires IsHunk(header) && body != [] && BodyLength(body + end) == |body|
    requires forall k :: 0 <= k < |body| ==> IsBody(body[k])
    ensures Hunks([header] + (body + end)) ==
              var eof := end != [] && end[0] == END_OF_FILE;
              var h := Hunk(Anchor(header), Olds(body), News(body), eof);
              if eof then Some(([h], end[1..])) else AfterHunks([h], Hunks(end))
  {
    var lines := [header] + (body + end);
    assert lines[1..] == body + end;
    assert (body + end)[..|body|] == body && (body + end)[|body|..] == end;
  }

  lemma {:induction false} AddedPrinted(lines: seq<string>, rest: seq<string>)
    requires rest == [] || !StartsWith(rest[0], "+")
    ensures AddedLength(Marked('+', lines) + rest) == |lines|
    ensures Added(Marked('+', lines) + rest) == Unlines(lines)
  {
    var all := Marked('+', lines) + rest;
    if lines == [] {
      assert all == rest;
    } else {
      assert all[0] == "+" + lines[0] && all[0][1..] == lines[0];
      assert all[1..] == Marked('+', lines[1..]) + rest;
      AddedPrinted(lines[1..], rest);
      assert [lines[0]] + lines[1..] == lines;
    }
  }

  lemma AddPrinted(e: Edit, rest: seq<string>, seen: set<string>)
    requires e.Add? && Printable(e) && (rest == [] || !StartsWith(rest[0], "+"))
    requires Claimable(e.path, seen)
    ensures FirstEdit(PrintEdit(e) + rest, seen) == Some((e, rest))
  {
    var lines := PrintEdit(e) + rest;
    assert lines[0] == ADD + e.path && lines[0][|ADD|..] == e.path;
    assert lines[1..] == Marked('+', Lines(e.content)) + rest;
    AddedPrinted(Lines(e.content), rest);
    UnlinesLines(e.content);
    assert lines[1..][|Lines(e.content)|..] == rest;
  }

  lemma DeletePrinted(e: Edit, rest: seq<string>, seen: set<string>)
    requires e.Delete? && Claimable(e.path, seen)
    ensures FirstEdit(PrintEdit(e) + rest, seen) == Some((e, rest))
  {
    var lines := PrintEdit(e) + rest;
    assert lines[0] == DELETE + e.path && lines[0][|DELETE|..] == e.path && lines[0][4] == 'D';
    OtherPrefix(lines[0], ADD, 4);
    OtherPrefix(lines[0], UPDATE, 4);
    assert lines[1..] == rest;
  }

  lemma UpdatePrinted(e: Edit, rest: seq<string>, seen: set<string>)
    requires e.Update? && Printable(e) && Starts(rest) && (rest == [] || rest[0] != END_OF_FILE)
    requires Claimable(e.path, seen) && (e.move != "" ==> Claimable(e.move, seen + {e.path}))
    ensures FirstEdit(PrintEdit(e) + rest, seen) == Some((e, rest))
  {
    var line, hunks := UPDATE + e.path, PrintHunks(e.hunks) + rest;
    HunksPrinted(e.hunks, rest);
    if e.move == "" {
      assert PrintEdit(e) == [line] + PrintHunks(e.hunks);
      Associate([line], PrintHunks(e.hunks), rest);
      assert hunks[0] == PrintHunk(e.hunks[0])[0] && hunks[0][0] == '@';
      HeadPlain(e.path, hunks, e.hunks, rest, seen);
    } else {
      assert PrintEdit(e) == [line] + [MOVE + e.move] + PrintHunks(e.hunks);
      Associate([line] + [MOVE + e.move], PrintHunks(e.hunks), rest);
      Associate([line], [MOVE + e.move], hunks);
      HeadMoved(e.path, e.move, hunks, e.hunks, rest, seen);
    }
  }

  lemma OtherPrefix(s: string, prefix: string, k: nat)
    requires k < |s| && k < |prefix| && s[k] != prefix[k]
    ensures !StartsWith(s, prefix)
  {
    if |prefix| <= |s| { assert s[..|prefix|][k] == s[k]; }
  }

  lemma UpdateLine(path: string)
    ensures StartsWith(UPDATE + path, UPDATE) && !StartsWith(UPDATE + path, ADD)
    ensures (UPDATE + path)[|UPDATE|..] == path
  {
    assert UPDATE[4] == 'U';
    OtherPrefix(UPDATE + path, ADD, 4);
  }

  lemma HeadPlain(path: string, tail: seq<string>, hunks: seq<Hunk>, rest: seq<string>, seen: set<string>)
    requires Hunks(tail) == Some((hunks, rest)) && hunks != [] && Claimable(path, seen)
    requires tail != [] && tail[0] != "" && tail[0][0] == '@'
    ensures FirstEdit([UPDATE + path] + tail, seen) == Some((Update(path, "", hunks), rest))
  {
    UpdateLine(path);
    OtherPrefix(tail[0], MOVE, 0);
  }

  lemma HeadMoved(path: string, move: string, tail: seq<string>, hunks: seq<Hunk>, rest: seq<string>, seen: set<string>)
    requires Hunks(tail) == Some((hunks, rest)) && hunks != []
    requires Claimable(path, seen) && Claimable(move, seen + {path})
    ensures FirstEdit([UPDATE + path] + ([MOVE + move] + tail), seen) == Some((Update(path, move, hunks), rest))
  {
    var line, line' := UPDATE + path, MOVE + move;
    UpdateLine(path);
    assert line'[|MOVE|..] == move;
  }

  lemma FirstPrinted(e: Edit, rest: seq<string>, seen: set<string>)
    requires Printable(e) && Starts(rest) && (rest == [] || rest[0] != END_OF_FILE)
    requires Claimable(e.path, seen) && (e.Update? && e.move != "" ==> Claimable(e.move, seen + {e.path}))
    ensures FirstEdit(PrintEdit(e) + rest, seen) == Some((e, rest))
    ensures StartsWith(PrintEdit(e)[0], "*** ") && PrintEdit(e)[0] != END_OF_FILE
  {
    if rest != [] { assert rest[0][0] == rest[0][..4][0] == '*'; }
    match e {
      case Add(p, content) => AddPrinted(e, rest, seen); assert PrintEdit(e)[0][4] == 'A';
      case Delete(p) => DeletePrinted(e, rest, seen); assert PrintEdit(e)[0][4] == 'D';
      case Update(p, move, hunks) => UpdatePrinted(e, rest, seen); assert PrintEdit(e)[0][4] == 'U';
    }
  }

  // Printing and parsing edits is the identity, whatever was claimed before.
  lemma {:induction false} EditsPrinted(edits: seq<Edit>, seen: set<string>)
    requires forall k :: 0 <= k < |edits| ==> Printable(edits[k])
    requires Distinct(AllClaims(edits))
    requires forall p :: p in AllClaims(edits) ==> Claimable(p, seen)
    ensures Edits(PrintEdits(edits), seen) == Some(edits)
    ensures Starts(PrintEdits(edits)) && (edits != [] ==> PrintEdits(edits)[0] != END_OF_FILE)
  {
    hide PrintEdit, Printable, FilePath, IsGit;
    if edits != [] {
      var e, rest := edits[0], edits[1..];
      var own, others := Claims(e), AllClaims(rest);
      assert AllClaims(edits) == own + others;
      SplitDistinct(own, others);
      assert forall p :: p in own || p in others ==> p in AllClaims(edits);
      assert e.path == own[0] && (e.Update? && e.move != "" ==> e.move == own[1] && own[0] != own[1]);
      forall p | p in others ensures Claimable(p, seen + Taken(e)) {
        assert p !in own;
      }
      EditsPrinted(rest, seen + Taken(e));
      assert Claimable(e.path, seen);
      if e.Update? && e.move != "" { assert Claimable(own[1], seen) && own[1] != e.path; }
      FirstPrinted(e, PrintEdits(rest), seen);
      assert [e] + rest == edits;
      assert PrintEdits(edits)[0] == PrintEdit(e)[0];
    }
  }

  // Every patch the parser accepts can be printed again, and means the same.
  lemma {:induction false} ParsedPrintable(lines: seq<string>, seen: set<string>)
    requires Edits(lines, seen).Some?
    ensures forall k :: 0 <= k < |Edits(lines, seen).value| ==> Printable(Edits(lines, seen).value[k])
    decreases |lines|
  {
    if lines != [] {
      var (e, rest) := FirstEdit(lines, seen).value;
      ParsedPrintable(rest, seen + Taken(e));
      if e.Add? { AddedTerminated(lines[1..]); }
      if e.Update? {
        if Hunks(lines[1..]).Some? { HunksShape(lines[1..]); }
        if |lines| > 1 && Hunks(lines[1..][1..]).Some? { HunksShape(lines[1..][1..]); }
      }
    }
  }

  lemma {:induction false} AddedTerminated(lines: seq<string>)
    ensures Terminated(Added(lines))
  {
    if lines != [] && StartsWith(lines[0], "+") {
      AddedTerminated(lines[1..]);
      var rest := Added(lines[1..]);
      if rest != "" { assert Added(lines)[|Added(lines)| - 1] == rest[|rest| - 1]; }
    }
  }

  lemma {:induction false} HunksShape(lines: seq<string>)
    requires Hunks(lines).Some?
    ensures Shaped(Hunks(lines).value.0)
  {
    if lines != [] && IsHunk(lines[0]) {
      var n := BodyLength(lines[1..]);
      BodyIsBody(lines[1..]);
      var body, rest := lines[1..][..n], lines[1..][n..];
      assert IsBody(body[0]);
      if !(rest != [] && rest[0] == END_OF_FILE) {
        HunksShape(rest);
        assert Hunks(lines).value.0[1..] == Hunks(rest).value.0;
      }
    }
  }

  // The parser's round trip on a whole patch.
  lemma Reprinted(text: string)
    requires Parsed(text).Some?
    ensures Edits(PrintEdits(Parsed(text).value), {}) == Parsed(text)
  {
    var lines := Split(if text != "" && text[|text| - 1] == '\n' then text[..|text| - 1] else text, '\n');
    ClaimsOnce(lines[1..|lines| - 1], {});
    ParsedPrintable(lines[1..|lines| - 1], {});
    EditsPrinted(Parsed(text).value, {});
  }

  // A whole patch as a text.
  function PrintPatch(edits: seq<Edit>): string {
    Join([BEGIN] + PrintEdits(edits) + [END], '\n')
  }

  lemma {:induction false} JoinEnd(parts: seq<string>, last: string, sep: char)
    requires last != ""
    ensures Join(parts + [last], sep) != "" && Join(parts + [last], sep)[|Join(parts + [last], sep)| - 1] == last[|last| - 1]
  {
    if parts != [] {
      assert (parts + [last])[1..] == parts[1..] + [last];
      JoinEnd(parts[1..], last, sep);
    }
  }

  // A printed patch is parsed to its edits, if there are any and the text is not too long.
  lemma PatchPrinted(edits: seq<Edit>)
    requires edits != [] && forall k :: 0 <= k < |edits| ==> Printable(edits[k])
    requires Distinct(AllClaims(edits)) && forall p :: p in AllClaims(edits) ==> FilePath(p)
    requires PlainLines(PrintEdits(edits)) && |PrintPatch(edits)| <= MAX_PATCH
    ensures Parsed(PrintPatch(edits)) == Some(edits)
  {
    hide FilePath, Printable, PrintEdits, PrintEdit, Edits, Join;
    EditsPrinted(edits, {});
    var lines := [BEGIN] + PrintEdits(edits) + [END];
    assert PrintEdits(edits) != [] by {
      if PrintEdits(edits) == [] { NoEdits(); }
    }
    forall k | 0 <= k < |lines| ensures '\n' !in lines[k] { }
    SplitJoin(lines, '\n');
    JoinEnd([BEGIN] + PrintEdits(edits), END, '\n');
    assert lines[1..|lines| - 1] == PrintEdits(edits);
  }

  lemma NoEdits()
    ensures Edits([], {}) == Some([])
  {
  }

  // ---- No line of a parsed patch holds a newline.

  predicate PlainLines(lines: seq<string>) {
    forall k :: 0 <= k < |lines| ==> '\n' !in lines[k]
  }

  predicate PlainHunks(hunks: seq<Hunk>) {
    forall j :: 0 <= j < |hunks| ==> PlainLines(hunks[j].inserted)
  }

  predicate PlainEdits(edits: seq<Edit>) {
    forall k :: 0 <= k < |edits| && edits[k].Update? ==> PlainHunks(edits[k].hunks)
  }

  lemma {:induction false} NewsPlain(body: seq<string>)
    requires PlainLines(body) && forall k :: 0 <= k < |body| ==> IsBody(body[k])
    ensures PlainLines(News(body))
  {
    if body != [] {
      assert IsBody(body[0]);
      NewsPlain(body[1..]);
    }
  }

  lemma {:induction false} HunksPlain(lines: seq<string>)
    requires PlainLines(lines) && Hunks(lines).Some?
    ensures PlainHunks(Hunks(lines).value.0) && PlainLines(Hunks(lines).value.1)
    decreases |lines|
  {
    if lines != [] && IsHunk(lines[0]) {
      var n := BodyLength(lines[1..]);
      BodyIsBody(lines[1..]);
      NewsPlain(lines[1..][..n]);
      var rest := lines[1..][n..];
      if !(rest != [] && rest[0] == END_OF_FILE) { HunksPlain(rest); }
    }
  }

  lemma {:induction false} EditsPlain(lines: seq<string>, seen: set<string>)
    requires PlainLines(lines) && Edits(lines, seen).Some?
    ensures PlainEdits(Edits(lines, seen).value)
    decreases |lines|
  {
    if lines != [] {
      var (e, rest) := FirstEdit(lines, seen).value;
      FirstPlain(lines, seen);
      EditsPlain(rest, seen + Taken(e));
    }
  }

  lemma FirstPlain(lines: seq<string>, seen: set<string>)
    requires lines != [] && PlainLines(lines) && FirstEdit(lines, seen).Some?
    ensures var (e, rest) := FirstEdit(lines, seen).value; (e.Update? ==> PlainHunks(e.hunks)) && PlainLines(rest)
  {
    var line, rest := lines[0], lines[1..];
    if !StartsWith(line, ADD) && StartsWith(line, UPDATE) {
      HunksPlain(if rest != [] && StartsWith(rest[0], MOVE) then rest[1..] else rest);
    }
  }

  lemma ParsedPlain(text: string)
    requires Parsed(text).Some?
    ensures PlainEdits(Parsed(text).value)
  {
    var lines := Split(if text != "" && text[|text| - 1] == '\n' then text[..|text| - 1] else text, '\n');
    EditsPlain(lines[1..|lines| - 1], {});
  }

  // Every update of a patch is undone by putting its old blocks back where its new ones went.
  lemma ParsedUpdateUndone(text: string, k: nat, data: string)
    requires Parsed(text).Some? && k < |Parsed(text).value| && Parsed(text).value[k].Update?
    requires Updated(data, Parsed(text).value[k].hunks).Some? && Terminated(data)
    ensures var hunks := Parsed(text).value[k].hunks;
            && (exists at :: && Placed(Lines(data), hunks, at)
                             && Restored(Lines(Updated(data, hunks).value), hunks, at) == Some(Lines(data)))
            && Unlines(Lines(data)) == data
  {
    ParsedPlain(text);
    var hunks := Parsed(text).value[k].hunks;
    forall j, i | 0 <= j < |hunks| && 0 <= i < |hunks[j].inserted| ensures '\n' !in hunks[j].inserted[i] {
      assert PlainLines(hunks[j].inserted);
    }
    UpdateUndone(data, hunks);
  }
}
