// The patch grammar as a relation between lines and edits, and the parser as exactly this
// relation (kit/tools/patch.go).
module PatchTexts {
  import opened Sequences
  import opened Wrappers
  import opened Text
  import opened Splice
  import opened Patch
  import opened PatchGrammar

  // ---- The grammar.

  // A line of a hunk: one that stays, one that goes, or a new one.
  datatype Line = Same(text: string) | Old(text: string) | New(text: string)

  function Spell(l: Line): string {
    match l
    case Same(text) => " " + text
    case Old(text) => "-" + text
    case New(text) => "+" + text
  }

  function SpellAll(ls: seq<Line>): seq<string> {
    if ls == [] then [] else [Spell(ls[0])] + SpellAll(ls[1..])
  }

  // The lines that a hunk matches, and those that it leaves.
  function OldTexts(ls: seq<Line>): seq<string> {
    if ls == [] then [] else (if ls[0].New? then [] else [ls[0].text]) + OldTexts(ls[1..])
  }

  function NewTexts(ls: seq<Line>): seq<string> {
    if ls == [] then [] else (if ls[0].Old? then [] else [ls[0].text]) + NewTexts(ls[1..])
  }

  // A header, at least one line, and perhaps the mark for the end of the file.
  ghost predicate HunkText(h: Hunk, lines: seq<string>) {
    exists ls: seq<Line>, header: string ::
      && ls != [] && OldTexts(ls) == h.before && NewTexts(ls) == h.inserted
      && (header == "@@ " + h.anchor || (header == "@@" && h.anchor == ""))
      && lines == [header] + SpellAll(ls) + if h.eof then ["*** End of File"] else []
  }

  // Only the last hunk may ask for the end of the file.
  ghost predicate HunksText(hunks: seq<Hunk>, lines: seq<string>)
    decreases |hunks|
  {
    if hunks == [] then lines == []
    else
      exists a: seq<string>, b: seq<string> ::
        lines == a + b && HunkText(hunks[0], a) && HunksText(hunks[1..], b) && (|hunks| > 1 ==> !hunks[0].eof)
  }

  // Lines that are added, each with a plus, and each ended by a newline in the file.
  ghost predicate AddedText(content: string, lines: seq<string>)
    decreases |lines|
  {
    if lines == [] then content == ""
    else
      exists line: string, rest: string ::
        lines[0] == "+" + line && content == line + "\n" + rest && AddedText(rest, lines[1..])
  }

  ghost predicate EditText(e: Edit, lines: seq<string>) {
    match e
    case Add(path, content) =>
      lines != [] && lines[0] == "*** Add File: " + path && AddedText(content, lines[1..])
    case Delete(path) => lines == ["*** Delete File: " + path]
    case Update(path, move, hunks) =>
      && hunks != []
      && exists rest: seq<string> ::
           && HunksText(hunks, rest)
           && lines == ["*** Update File: " + path] + (if move == "" then [] else ["*** Move to: " + move]) + rest
  }

  ghost predicate EditsText(edits: seq<Edit>, lines: seq<string>)
    decreases |edits|
  {
    if edits == [] then lines == []
    else
      exists a: seq<string>, b: seq<string> :: lines == a + b && EditText(edits[0], a) && EditsText(edits[1..], b)
  }

  // ---- Hunks.

  lemma {:induction false} BodySpelled(ls: seq<Line>, end: seq<string>)
    requires end == [] || !IsBody(end[0])
    ensures var body := SpellAll(ls);
            && |body| == |ls| && (forall k :: 0 <= k < |body| ==> IsBody(body[k])) && BodyLength(body + end) == |body|
            && Olds(body) == OldTexts(ls) && News(body) == NewTexts(ls)
  {
    var body := SpellAll(ls);
    if ls == [] {
      assert body + end == end;
    } else {
      BodySpelled(ls[1..], end);
      assert body[1..] == SpellAll(ls[1..]) && (body + end)[1..] == body[1..] + end;
      SpellOne(ls[0]);
    }
  }

  lemma SpellOne(l: Line)
    ensures IsBody(Spell(l)) && Spell(l)[1..] == l.text
    ensures (Spell(l)[0] == '+' <==> l.New?) && (Spell(l)[0] == '-' <==> l.Old?)
  {
  }

  lemma {:induction false} BodyRead(body: seq<string>) returns (ls: seq<Line>)
    requires forall k :: 0 <= k < |body| ==> IsBody(body[k])
    ensures SpellAll(ls) == body && |ls| == |body|
  {
    if body == [] {
      ls := [];
    } else {
      var rest := BodyRead(body[1..]);
      var first := LineRead(body[0]);
      ls := [first] + rest;
      assert ls[1..] == rest && [body[0]] + body[1..] == body;
    }
  }

  lemma LineRead(line: string) returns (l: Line)
    requires IsBody(line)
    ensures Spell(l) == line
  {
    assert line == [line[0]] + line[1..];
    l := if line[0] == '+' then New(line[1..]) else if line[0] == '-' then Old(line[1..]) else Same(line[1..]);
  }

  lemma HeaderText(header: string, anchor: string)
    ensures IsHunk(header) && Anchor(header) == anchor
            <==> header == "@@ " + anchor || (header == "@@" && anchor == "")
  {
    if header == "@@ " + anchor { assert header[|ANCHOR|..] == anchor; }
    if IsHunk(header) && header != "@@" { assert header == header[..|ANCHOR|] + header[|ANCHOR|..]; }
  }

  // What may follow a hunk: another one, another edit, or nothing.
  predicate Follows(rest: seq<string>) {
    rest == [] || (rest[0] != END_OF_FILE && !IsBody(rest[0]))
  }

  // A hunk is read from its text.
  lemma HunkTextRead(h: Hunk, lines: seq<string>, rest: seq<string>)
    requires HunkText(h, lines) && (h.eof || Follows(rest))
    ensures Hunks(lines + rest) == if h.eof then Some(([h], rest)) else AfterHunks([h], Hunks(rest))
    ensures lines != [] && lines[0] != "" && lines[0][0] == '@'
  {
    var ls, header :| && ls != [] && OldTexts(ls) == h.before && NewTexts(ls) == h.inserted
                      && (header == "@@ " + h.anchor || (header == "@@" && h.anchor == ""))
                      && lines == [header] + SpellAll(ls) + if h.eof then [END_OF_FILE] else [];
    var body, end := SpellAll(ls), (if h.eof then [END_OF_FILE] else []) + rest;
    HeaderText(header, h.anchor);
    BodySpelled(ls, end);
    Associate([header] + body, if h.eof then [END_OF_FILE] else [], rest);
    Associate([header], body, end);
    HeadHunk(header, body, end);
    if h.eof { assert end[1..] == rest; } else { assert end == rest; }
  }

  lemma {:induction false} HunksTextRead(hunks: seq<Hunk>, lines: seq<string>, rest: seq<string>)
    requires HunksText(hunks, lines) && Starts(rest) && (rest == [] || rest[0] != END_OF_FILE)
    ensures Hunks(lines + rest) == Some((hunks, rest))
    ensures hunks != [] ==> lines != [] && lines[0] != "" && lines[0][0] == '@'
    decreases |hunks|
  {
    hide HunkText, Hunks, IsBody, StartsWith;
    HunksStop(rest);
    if hunks == [] {
      assert lines + rest == rest;
    } else {
      var a, b :| lines == a + b && HunkText(hunks[0], a) && HunksText(hunks[1..], b) && (|hunks| > 1 ==> !hunks[0].eof);
      HunksTextRead(hunks[1..], b, rest);
      Associate(a, b, rest);
      if hunks[1..] == [] { assert b + rest == rest; } else { AtIsNoBody(b[0]); }
      HunkTextRead(hunks[0], a, b + rest);
      if hunks[0].eof {
        assert hunks == [hunks[0]] && b + rest == rest;
      } else {
        MoreHunks([hunks[0]], hunks[1..], rest);
        assert [hunks[0]] + hunks[1..] == hunks;
      }
    }
  }

  lemma AtIsNoBody(line: string)
    requires line != "" && line[0] == '@'
    ensures !IsBody(line) && line != END_OF_FILE
  {
  }

  // And what is read as hunks is their text.
  lemma {:induction false} HunksReadText(lines: seq<string>) returns (text: seq<string>)
    requires Hunks(lines).Some?
    ensures lines == text + Hunks(lines).value.1 && HunksText(Hunks(lines).value.0, text)
    decreases |lines|
  {
    hide Hunks, IsHunk, HunkText, HunksText, BodyLength, Olds, News, Anchor;
    HunksEnd(lines);
    if lines == [] || !IsHunk(lines[0]) {
      text := [];
    } else {
      var body, rest := HunkLines(lines);
      var eof := rest != [] && rest[0] == END_OF_FILE;
      var h := Hunk(Anchor(lines[0]), Olds(body), News(body), eof);
      var own := [lines[0]] + body + if eof then [END_OF_FILE] else [];
      HunkReadText(h, lines[0], body, own);
      if eof {
        text := own;
        assert lines == own + rest[1..];
        OneHunk(h, own);
      } else {
        AfterSome([h], Hunks(rest));
        var more := HunksReadText(rest);
        text := own + more;
        assert lines == own + rest;
        MoreText(h, own, Hunks(rest).value.0, more);
      }
    }
  }

  lemma HunksEnd(lines: seq<string>)
    ensures lines == [] || !IsHunk(lines[0]) ==> Hunks(lines) == Some(([], lines))
    ensures HunksText([], [])
  {
  }

  lemma AfterSome(first: seq<Hunk>, r: Option<(seq<Hunk>, seq<string>)>)
    requires AfterHunks(first, r).Some?
    ensures r.Some? && AfterHunks(first, r) == Some((first + r.value.0, r.value.1))
  {
  }

  // The lines of the first hunk, and those after it.
  lemma HunkLines(lines: seq<string>) returns (body: seq<string>, rest: seq<string>)
    requires lines != [] && IsHunk(lines[0]) && Hunks(lines).Some?
    ensures lines == [lines[0]] + (body + rest) && body != [] && forall k :: 0 <= k < |body| ==> IsBody(body[k])
    ensures var eof := rest != [] && rest[0] == END_OF_FILE;
            var h := Hunk(Anchor(lines[0]), Olds(body), News(body), eof);
            Hunks(lines) == if eof then Some(([h], rest[1..])) else AfterHunks([h], Hunks(rest))
  {
    var n := BodyLength(lines[1..]);
    BodyIsBody(lines[1..]);
    body, rest := lines[1..][..n], lines[1..][n..];
  }

  lemma MoreText(h: Hunk, own: seq<string>, hunks: seq<Hunk>, more: seq<string>)
    requires HunkText(h, own) && HunksText(hunks, more) && !h.eof
    ensures HunksText([h] + hunks, own + more)
  {
    assert ([h] + hunks)[1..] == hunks;
  }

  lemma OneHunk(h: Hunk, own: seq<string>)
    requires HunkText(h, own)
    ensures HunksText([h], own)
  {
    assert own == own + [] && [h][1..] == [] && HunksText([], []);
  }

  lemma HunkReadText(h: Hunk, header: string, body: seq<string>, own: seq<string>)
    requires IsHunk(header) && body != [] && forall k :: 0 <= k < |body| ==> IsBody(body[k])
    requires h.anchor == Anchor(header) && h.before == Olds(body) && h.inserted == News(body)
    requires own == [header] + body + if h.eof then [END_OF_FILE] else []
    ensures HunkText(h, own)
  {
    var ls := BodyRead(body);
    BodySpelled(ls, []);
    HeaderText(header, h.anchor);
  }

  // ---- Added lines.

  lemma {:induction false} AddedTextRead(content: string, lines: seq<string>, rest: seq<string>)
    requires AddedText(content, lines) && (rest == [] || !StartsWith(rest[0], "+"))
    ensures AddedLength(lines + rest) == |lines| && Added(lines + rest) == content
    decreases |lines|
  {
    if lines == [] {
      assert lines + rest == rest;
    } else {
      var line, more :| lines[0] == "+" + line && content == line + "\n" + more && AddedText(more, lines[1..]);
      AddedTextRead(more, lines[1..], rest);
      assert (lines + rest)[1..] == lines[1..] + rest && lines[0][1..] == line;
    }
  }

  lemma {:induction false} AddedReadText(lines: seq<string>)
    ensures AddedText(Added(lines), lines[..AddedLength(lines)])
  {
    if lines != [] && StartsWith(lines[0], "+") {
      var own := lines[..AddedLength(lines)];
      AddedReadText(lines[1..]);
      assert own[1..] == lines[1..][..AddedLength(lines[1..])];
      assert lines[0] == "+" + lines[0][1..];
    }
  }

  // ---- Edits.

  lemma PrefixText(line: string, prefix: string)
    ensures StartsWith(line, prefix) ==> line == prefix + line[|prefix|..]
  {
  }

  lemma NamedLine(prefix: string, path: string)
    ensures StartsWith(prefix + path, prefix) && (prefix + path)[|prefix|..] == path
  {
  }

  lemma EditTextStarts(e: Edit, lines: seq<string>)
    requires EditText(e, lines)
    ensures lines != [] && StartsWith(lines[0], "*** ") && lines[0] != END_OF_FILE
  {
    assert lines[0] == (match e case Add(p, _) => ADD + p case Delete(p) => DELETE + p case Update(p, _, _) => UPDATE + p);
    assert lines[0][4] in "ADU" && END_OF_FILE[4] == 'E';
  }

  lemma AddRead(path: string, content: string, lines: seq<string>, rest: seq<string>, seen: set<string>)
    requires EditText(Add(path, content), lines) && (rest == [] || !StartsWith(rest[0], "+")) && Claimable(path, seen)
    ensures FirstEdit(lines + rest, seen) == Some((Add(path, content), rest))
  {
    hide Claimable;
    NamedLine(ADD, path);
    AddedTextRead(content, lines[1..], rest);
    assert (lines + rest)[1..] == lines[1..] + rest;
  }

  lemma DeleteRead(path: string, rest: seq<string>, seen: set<string>)
    requires Claimable(path, seen)
    ensures FirstEdit([DELETE + path] + rest, seen) == Some((Delete(path), rest))
  {
    DeletePrinted(Delete(path), rest, seen);
    assert PrintEdit(Delete(path)) == [DELETE + path];
  }

  lemma UpdateRead(path: string, move: string, hunks: seq<Hunk>, text: seq<string>, rest: seq<string>, seen: set<string>)
    requires hunks != [] && HunksText(hunks, text) && Starts(rest) && (rest == [] || rest[0] != END_OF_FILE)
    requires Claimable(path, seen) && (move != "" ==> Claimable(move, seen + {path}))
    ensures var lines := [UPDATE + path] + (if move == "" then [] else [MOVE + move]) + text;
            FirstEdit(lines + rest, seen) == Some((Update(path, move, hunks), rest))
  {
    hide Claimable, HunksText;
    HunksTextRead(hunks, text, rest);
    var head := [UPDATE + path];
    if move == "" {
      assert head + [] + text + rest == head + (text + rest);
      HeadPlain(path, text + rest, hunks, rest, seen);
    } else {
      assert head + [MOVE + move] + text + rest == head + ([MOVE + move] + (text + rest));
      HeadMoved(path, move, text + rest, hunks, rest, seen);
    }
  }

  lemma EditTextRead(e: Edit, lines: seq<string>, rest: seq<string>, seen: set<string>)
    requires EditText(e, lines) && Starts(rest) && (rest == [] || rest[0] != END_OF_FILE)
    requires Claimable(e.path, seen) && (e.Update? && e.move != "" ==> Claimable(e.move, seen + {e.path}))
    ensures FirstEdit(lines + rest, seen) == Some((e, rest))
  {
    hide Claimable, HunksText, FirstEdit;
    match e
    case Add(path, content) =>
      if rest != [] { StarIsNoPlus(rest[0]); }
      AddRead(path, content, lines, rest, seen);
    case Delete(path) => DeleteRead(path, rest, seen);
    case Update(path, move, hunks) =>
      var text :| && HunksText(hunks, text)
                  && lines == [UPDATE + path] + (if move == "" then [] else [MOVE + move]) + text;
      UpdateRead(path, move, hunks, text, rest, seen);
  }

  lemma StarIsNoPlus(line: string)
    requires StartsWith(line, "*** ")
    ensures !StartsWith(line, "+")
  {
    assert line[0] == line[..4][0] == '*';
    OtherPrefix(line, "+", 0);
  }

  lemma {:induction false} EditsTextRead(edits: seq<Edit>, lines: seq<string>, seen: set<string>)
    requires EditsText(edits, lines) && Distinct(AllClaims(edits))
    requires forall p :: p in AllClaims(edits) ==> Claimable(p, seen)
    ensures Edits(lines, seen) == Some(edits)
    ensures Starts(lines) && (lines != [] ==> lines[0] != END_OF_FILE)
    decreases |edits|
  {
    hide EditText, FilePath, FirstEdit, StartsWith;
    if edits != [] {
      var a, b :| lines == a + b && EditText(edits[0], a) && EditsText(edits[1..], b);
      var e, rest := edits[0], edits[1..];
      var own, others := Claims(e), AllClaims(rest);
      SplitDistinct(own, others);
      assert forall p :: p in own || p in others ==> p in AllClaims(edits);
      assert e.path == own[0] && (e.Update? && e.move != "" ==> e.move == own[1] && own[0] != own[1]);
      forall p | p in others ensures Claimable(p, seen + Taken(e)) { assert p !in own; }
      EditsTextRead(rest, b, seen + Taken(e));
      assert Claimable(e.path, seen);
      if e.Update? && e.move != "" { assert Claimable(own[1], seen) && own[1] != e.path; }
      EditTextStarts(e, a);
      EditTextRead(e, a, b, seen);
      assert [e] + rest == edits;
    }
  }

  // What is read as the first edit is its text.
  lemma EditReadText(lines: seq<string>, seen: set<string>) returns (text: seq<string>)
    requires lines != [] && FirstEdit(lines, seen).Some?
    ensures lines == text + FirstEdit(lines, seen).value.1 && EditText(FirstEdit(lines, seen).value.0, text)
  {
    hide Claimable, HunksText, AddedText, Hunks;
    var line, rest := lines[0], lines[1..];
    PrefixText(line, ADD);
    PrefixText(line, UPDATE);
    PrefixText(line, DELETE);
    if StartsWith(line, ADD) {
      AddedReadText(rest);
      text := [line] + rest[..AddedLength(rest)];
      assert text[1..] == rest[..AddedLength(rest)];
    } else if StartsWith(line, UPDATE) {
      if rest != [] && StartsWith(rest[0], MOVE) {
        PrefixText(rest[0], MOVE);
        var move := rest[0][|MOVE|..];
        var hunks := HunksReadText(rest[1..]);
        NoEmptyMove(move, seen + {line[|UPDATE|..]});
        text := [line] + [rest[0]] + hunks;
        assert lines == text + Hunks(rest[1..]).value.1;
      } else {
        var hunks := HunksReadText(rest);
        text := [line] + [] + hunks;
        assert lines == text + Hunks(rest).value.1;
      }
    } else {
      text := [line];
      assert lines == text + rest;
    }
  }

  lemma NoEmptyMove(move: string, seen: set<string>)
    requires Claimable(move, seen)
    ensures move != ""
  {
  }

  lemma {:induction false} EditsReadText(lines: seq<string>, seen: set<string>)
    requires Edits(lines, seen).Some?
    ensures EditsText(Edits(lines, seen).value, lines)
    decreases |lines|
  {
    hide EditText, FirstEdit;
    if lines != [] {
      var (e, rest) := FirstEdit(lines, seen).value;
      var text := EditReadText(lines, seen);
      EditsReadText(rest, seen + Taken(e));
      var edits := Edits(lines, seen).value;
      assert edits[0] == e && edits[1..] == Edits(rest, seen + Taken(e)).value;
    }
  }

  // ---- The whole text.

  // A patch is parsed to these edits exactly when its lines are theirs between the two marks, no
  // path is claimed twice, and every claimed path is a file path.
  lemma ParsedExactly(text: string, edits: seq<Edit>)
    ensures var lines := Split(if text != "" && text[|text| - 1] == '\n' then text[..|text| - 1] else text, '\n');
            Parsed(text) == Some(edits)
            <==> && |text| <= 8 * 1024 * 1024 && |lines| >= 3
                 && lines[0] == "*** Begin Patch" && lines[|lines| - 1] == "*** End Patch"
                 && EditsText(edits, lines[1..|lines| - 1])
                 && Distinct(AllClaims(edits)) && forall p :: p in AllClaims(edits) ==> FilePath(p)
  {
    hide EditsText, FilePath, Edits;
    var lines := Split(if text != "" && text[|text| - 1] == '\n' then text[..|text| - 1] else text, '\n');
    if Parsed(text) == Some(edits) {
      ParsedClaims(text);
      EditsReadText(lines[1..|lines| - 1], {});
    }
    if && |text| <= 8 * 1024 * 1024 && |lines| >= 3
       && lines[0] == BEGIN && lines[|lines| - 1] == END && EditsText(edits, lines[1..|lines| - 1])
       && Distinct(AllClaims(edits)) && forall p :: p in AllClaims(edits) ==> FilePath(p) {
      EditsTextRead(edits, lines[1..|lines| - 1], {});
    }
  }

  // ---- File paths.

  // What path.Clean makes of the parts of a relative path: empty parts and "." disappear, and
  // ".." takes the part before it away.
  function CleanParts(parts: seq<string>): seq<string> {
    if parts == [] then []
    else
      var before, last := CleanParts(parts[..|parts| - 1]), parts[|parts| - 1];
      if last == "" || last == "." then before
      else if last == ".." && before != [] && before[|before| - 1] != ".." then before[..|before| - 1]
      else before + [last]
  }

  function Clean(path: string): string {
    var parts := CleanParts(Split(path, '/'));
    if parts == [] then "." else Join(parts, '/')
  }

  lemma {:induction false} CleanedParts(parts: seq<string>)
    ensures forall k :: 0 <= k < |CleanParts(parts)| ==> CleanParts(parts)[k] != "" && CleanParts(parts)[k] != "."
    ensures forall p :: p in CleanParts(parts) ==> p in parts
    ensures (forall k :: 0 <= k < |parts| ==> parts[k] != "" && parts[k] != "." && parts[k] != "..")
            ==> CleanParts(parts) == parts
  {
    if parts != [] {
      var last := |parts| - 1;
      CleanedParts(parts[..last]);
      assert parts == parts[..last] + [parts[last]];
    }
  }

  // A file path is a relative path that Clean leaves alone, without "..", without Git's folder
  // and without characters that a patch could not carry.
  lemma FilePathExactly(name: string)
    ensures FilePath(name)
            <==> && name != "" && name != "." && name[0] != '/' && Clean(name) == name
                 && '\\' !in name && '\0' !in name && '\r' !in name && '\n' !in name
                 && forall k :: 0 <= k < |Split(name, '/')| ==> Split(name, '/')[k] != ".." && !IsGit(Split(name, '/')[k])
  {
    var parts := Split(name, '/');
    CleanedParts(parts);
    JoinSplit(name, '/');
    if name != "" && name[0] == '/' { assert parts[0] == ""; }
    if name == "." { assert Split("", '/') == [""] && name[1..] == "" && parts == ["."]; }
    if name != "" && name != "." && Clean(name) == name {
      var cleaned := CleanParts(parts);
      forall k | 0 <= k < |cleaned| ensures '/' !in cleaned[k] { assert cleaned[k] in parts; }
      SplitJoin(cleaned, '/');
      assert parts == cleaned;
    }
  }

  // Git's folder is excluded in any spelling.
  lemma GitExactly(part: string)
    ensures IsGit(part) <==> |part| == 4 && part[0] == '.' && part[1] in "gG" && part[2] in "iI" && part[3] in "tT"
  {
    assert forall c: char :: Lower(c) == 'g' <==> c in "gG";
    assert forall c: char :: Lower(c) == 'i' <==> c in "iI";
    assert forall c: char :: Lower(c) == 't' <==> c in "tT";
  }
}
