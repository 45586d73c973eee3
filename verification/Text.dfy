// Lines and text: strings.Split, strings.Join and the treatment of a final newline that
// kit/tools/patch.go relies on.
module Text {
  // strings.Split(s, string(sep)): always at least one part.
  function Split(s: string, sep: char): (parts: seq<string>)
    ensures |parts| > 0
    ensures forall k :: 0 <= k < |parts| ==> sep !in parts[k]
  {
    if s == "" then [""]
    else if s[0] == sep then [""] + Split(s[1..], sep)
    else var rest := Split(s[1..], sep); [[s[0]] + rest[0]] + rest[1..]
  }

  function Join(parts: seq<string>, sep: char): string {
    if |parts| == 0 then ""
    else if |parts| == 1 then parts[0]
    else parts[0] + [sep] + Join(parts[1..], sep)
  }

  lemma {:induction false} JoinSplit(s: string, sep: char)
    ensures Join(Split(s, sep), sep) == s
  {
    if s != "" {
      JoinSplit(s[1..], sep);
      var rest := Split(s[1..], sep);
      if s[0] == sep {
        assert Split(s, sep)[1..] == rest;
      } else {
        assert Split(s, sep)[1..] == rest[1..];
      }
    }
  }

  lemma {:induction false} SplitJoin(parts: seq<string>, sep: char)
    requires |parts| > 0
    requires forall k :: 0 <= k < |parts| ==> sep !in parts[k]
    ensures Split(Join(parts, sep), sep) == parts
    decreases |parts|, |parts[0]|
  {
    var s := Join(parts, sep);
    if |parts[0]| > 0 {
      var shorter := [parts[0][1..]] + parts[1..];
      assert s[1..] == Join(shorter, sep);
      SplitJoin(shorter, sep);
      assert [s[0]] + parts[0][1..] == parts[0];
    } else if |parts| > 1 {
      assert s[1..] == Join(parts[1..], sep);
      SplitJoin(parts[1..], sep);
    }
  }

  predicate Terminated(data: string) {
    data == "" || data[|data| - 1] == '\n'
  }

  // PlanPatch's lines of a file: an empty file has none, and one final newline is dropped.
  function Lines(data: string): seq<string> {
    if data == "" then []
    else if Terminated(data) then Split(data[..|data| - 1], '\n')
    else Split(data, '\n')
  }

  // PlanPatch's content for a list of lines.
  function Unlines(lines: seq<string>): string {
    if lines == [] then "" else Join(lines, '\n') + "\n"
  }

  // Exactly the newline-terminated texts survive the round trip through lines.
  lemma UnlinesLines(data: string)
    ensures Unlines(Lines(data)) == data <==> Terminated(data)
  {
    if data != "" {
      JoinSplit(if Terminated(data) then data[..|data| - 1] else data, '\n');
    }
  }

  lemma LinesUnlines(lines: seq<string>)
    requires forall k :: 0 <= k < |lines| ==> '\n' !in lines[k]
    ensures Terminated(Unlines(lines))
    ensures Lines(Unlines(lines)) == lines
  {
    if lines != [] {
      SplitJoin(lines, '\n');
      assert Unlines(lines)[..|Unlines(lines)| - 1] == Join(lines, '\n');
    }
  }

}
