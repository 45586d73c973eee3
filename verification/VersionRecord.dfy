// The length of the JSON record of a version (save and load of kit/tools/files.go): load reads
// no more of a record than three times the legal size of a file.
module VersionRecord {
  import opened FileSystem
  import opened Publication
  import PatchGrammar
  import Text

  const RECORD_LIMIT := 3 * MAX_FILE_BYTES

  // ---- Strings. Characters stand for bytes of valid UTF-8.

  // The three bytes of U+2028 and U+2029.
  predicate IsSeparator(s: string) {
    |s| >= 3 && s[0] == 226 as char && s[1] == 128 as char && s[2] in {168 as char, 169 as char}
  }

  // Quotes, backslashes and five control characters have a short escape; other control
  // characters, and what HTML could misread, take a numeric one.
  function CharLength(c: char): nat {
    if c in "\"\\\n\r\t" || c == 8 as char || c == 12 as char then 2
    else if c < ' ' || c in "<>&" then 6
    else 1
  }

  function EscapedLength(s: string): nat {
    if s == "" then 0
    else if IsSeparator(s) then 6 + EscapedLength(s[3..])
    else CharLength(s[0]) + EscapedLength(s[1..])
  }

  // What path.Dir leaves of a path, and nothing where it gives a dot.
  function Folder(path: string): string {
    var parts := Text.Split(path, '/');
    Text.Join(parts[..|parts| - 1], '/')
  }

  // The recovery file is called "file" and lies in a slot beside the path. The name of a slot
  // has 41 characters.
  function RecoveryLength(path: string, before: Snapshot): nat {
    2 + if before.Absent? then 0 else EscapedLength(Folder(path)) + (if Folder(path) == "" then 46 else 47)
  }

  // ---- Snapshots.

  // Content as padded base64 in quotes.
  function ContentLength(n: nat): nat {
    2 + (n + 2) / 3 * 4
  }

  function ModeLength(mode: Mode): nat {
    if mode < 10 then 1 else if mode < 100 then 2 else 3
  }

  // Content, mode and whether the snapshot is absent, with their names.
  function SnapshotLength(content: nat, mode: Mode, absent: bool): nat {
    30 + content + ModeLength(mode) + if absent then 4 else 5
  }

  // A snapshot that was read, from a path or from a record. Nil content is written as null.
  function ReadLength(s: Snapshot): nat {
    match s
    case Absent => SnapshotLength(4, 0, true)
    case Present(mode, content) => SnapshotLength(ContentLength(|content|), mode, false)
  }

  // A new file, whose content may be nil when it is empty.
  function NewLength(mode: Mode, content: Bytes, isNil: bool): nat {
    SnapshotLength(if content == "" && isNil then 4 else ContentLength(|content|), mode, false)
  }

  // A file that a patch removes keeps the mode of what it had there.
  function ErasedLength(mode: Mode): nat {
    SnapshotLength(4, mode, true)
  }

  // The lengths with which a request can write the snapshot it asks for.
  ghost predicate Written(after: Snapshot, size: nat) {
    match after
    case Absent => exists mode: Mode :: size == ErasedLength(mode)
    case Present(mode, content) => exists isNil :: size == NewLength(mode, content, isNil)
  }

  lemma ReadIsWritten(s: Snapshot)
    ensures Written(s, ReadLength(s))
  {
    match s
    case Absent => assert ReadLength(s) == ErasedLength(0);
    case Present(mode, content) => assert ReadLength(s) == NewLength(mode, content, false);
  }

  // ---- Records.

  function RevisionLength(s: Snapshot): nat {
    if s.Absent? then 8 else 66
  }

  // Path, recovery file, both versions, of which the later takes `size` characters, and their
  // revisions.
  function RecordLength(path: string, before: Snapshot, after: Snapshot, size: nat): nat {
    75 + 2 + EscapedLength(path) + RecoveryLength(path, before) + ReadLength(before) + size
    + RevisionLength(before) + RevisionLength(after)
  }

  // What the path adds to a record with a recovery file.
  function PathLength(path: string): nat {
    EscapedLength(path) + EscapedLength(Folder(path)) + if Folder(path) == "" then 0 else 1
  }

  const PATH_LIMIT := 2795863

  // Whatever two versions of legal size a record holds, it can be loaded if and only if its
  // path, escaped, and the folder of the path are not too long.
  lemma RecordFits(path: string)
    ensures (forall before, after, size :: Fits(before) && Fits(after) && Written(after, size) ==>
               RecordLength(path, before, after, size) <= RECORD_LIMIT)
            <==> PathLength(path) <= PATH_LIMIT
  {
    if PathLength(path) > PATH_LIMIT {
      var bytes := seq(MAX_FILE_BYTES, _ => 'x');
      var largest := Present(0x180, bytes);
      ReadIsWritten(largest);
      assert Fits(largest) && RecordLength(path, largest, largest, ReadLength(largest)) > RECORD_LIMIT;
    } else {
      forall before, after, size | Fits(before) && Fits(after) && Written(after, size)
        ensures RecordLength(path, before, after, size) <= RECORD_LIMIT
      {
      }
    }
  }

  // ---- A path that is too long.

  // n folders called "x", and a file "x" in the last.
  function Deep(n: nat): string {
    if n == 0 then "x" else "x/" + Deep(n - 1)
  }

  function Names(n: nat): seq<string> {
    if n == 0 then [] else ["x"] + Names(n - 1)
  }

  lemma {:induction false} NamesAre(n: nat)
    ensures |Names(n)| == n && forall k :: 0 <= k < n ==> Names(n)[k] == "x"
    ensures n > 0 ==> Names(n)[..n - 1] == Names(n - 1)
  {
    if n > 0 { NamesAre(n - 1); }
    if n > 1 { assert Names(n)[..n - 1] == ["x"] + Names(n - 1)[..n - 2]; }
  }

  lemma {:induction false} DeepJoins(n: nat)
    ensures Text.Join(Names(n + 1), '/') == Deep(n)
  {
    NamesAre(n + 1);
    if n > 0 {
      DeepJoins(n - 1);
      assert Names(n + 1)[1..] == Names(n);
      NamesAre(n);
      assert "x" + ['/'] == "x/";
    }
  }

  lemma PlainLengths()
    ensures CharLength('x') == 1 && CharLength('/') == 1
  {
  }

  lemma {:induction false} DeepLength(n: nat)
    ensures EscapedLength(Deep(n)) == 2 * n + 1
    ensures Deep(n) != "" && forall k :: 0 <= k < |Deep(n)| ==> Deep(n)[k] == 'x' || Deep(n)[k] == '/'
  {
    PlainLengths();
    hide CharLength;
    if n == 0 {
      assert Deep(0)[1..] == "" && EscapedLength("") == 0;
    } else {
      DeepLength(n - 1);
      var s, below := Deep(n), Deep(n - 1);
      assert s[1..] == "/" + below && s[1..][1..] == below;
      assert EscapedLength(s) == CharLength('x') + EscapedLength(s[1..]);
    }
  }

  // A file can be so deep that its versions are retained and cannot all be loaded.
  lemma DeepPathFails(n: nat)
    ensures PatchGrammar.FilePath(Deep(n)) && (PathLength(Deep(n)) <= PATH_LIMIT <==> n <= 698965)
  {
    hide Deep, EscapedLength, Text.Join, Text.Split, Names;
    NamesAre(n + 1);
    DeepJoins(n);
    Text.SplitJoin(Names(n + 1), '/');
    DeepLength(n);
    assert !PatchGrammar.IsGit("x") && 'x' !in "\\\0\r\n" && '/' !in "\\\0\r\n";
    if n > 0 {
      DeepJoins(n - 1);
      DeepLength(n - 1);
    } else {
      Nothing();
    }
  }

  lemma Nothing()
    ensures Names(0) == [] && Text.Join([], '/') == "" && EscapedLength("") == 0
  {
  }
}
