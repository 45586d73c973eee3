// The JSON text of a version record, and that it has the length with which the record is
// saved (save of kit/tools/files.go, by encoding/json and encoding/base64).
module RecordTexts {
  import opened FileSystem
  import opened Publication
  import opened Wrappers
  import opened VersionRecord
  import opened FileWorker
  import Decimal
  import Text
  import Patch
  import PatchGrammar

  // ---- Strings and bytes.

  function Hex(d: nat): char
    requires d < 16
  {
    "0123456789abcdef"[d]
  }

  // One character of a JSON string.
  function EscapeOne(c: char): string {
    match c
    case '"' => "\\\""
    case '\\' => "\\\\"
    case '\n' => "\\n"
    case '\r' => "\\r"
    case '\t' => "\\t"
    case '<' => "\\u003c"
    case '>' => "\\u003e"
    case '&' => "\\u0026"
    case _ =>
      if c == 8 as char then "\\b"
      else if c == 12 as char then "\\f"
      else if c < ' ' then "\\u00" + [Hex(c as int / 16), Hex(c as int % 16)]
      else [c]
  }

  // The line and paragraph separators, three bytes each, are escaped as a whole.
  function Escape(s: string): string {
    if s == "" then ""
    else if |s| >= 3 && s[..3] == [226 as char, 128 as char, 168 as char] then "\\u2028" + Escape(s[3..])
    else if |s| >= 3 && s[..3] == [226 as char, 128 as char, 169 as char] then "\\u2029" + Escape(s[3..])
    else EscapeOne(s[0]) + Escape(s[1..])
  }

  function Quoted(s: string): string {
    "\"" + Escape(s) + "\""
  }

  const BASE64 := "ABCDEFGHIJKLMNOPQRSTUVWXYZabcdefghijklmnopqrstuvwxyz0123456789+/"

  function Six(n: int): (c: char) {
    assert |BASE64| == 64;
    BASE64[n % 64]
  }

  function Quad(a: char, b: char, c: char): (four: string)
    ensures |four| == 4
  {
    var n := a as int * 65536 + b as int * 256 + c as int;
    [Six(n / 262144), Six(n / 4096), Six(n / 64), Six(n)]
  }

  // Three bytes give four characters; what is missing in the last group is padded.
  function Base64(s: Bytes): string {
    if s == "" then ""
    else if |s| == 1 then Quad(s[0], '\0', '\0')[..2] + "=="
    else if |s| == 2 then Quad(s[0], s[1], '\0')[..3] + "="
    else Quad(s[0], s[1], s[2]) + Base64(s[3..])
  }

  // ---- The record.

  // A snapshot as the worker holds it: content may be nil, and an absent one can have a mode.
  datatype Entry = Entry(content: Option<Bytes>, mode: Mode, absent: bool)

  function EntryText(e: Entry): string {
    "{\"Content\":" + (if e.content.None? then "null" else "\"" + Base64(e.content.value) + "\"")
    + ",\"Mode\":" + Decimal.Digits(e.mode) + ",\"Absent\":" + (if e.absent then "true" else "false") + "}"
  }

  function RecordText(path: string, recovery: string, before: Entry, after: Entry, was: string, now: string): string {
    "{\"Path\":" + Quoted(path) + ",\"Recovery\":" + Quoted(recovery)
    + ",\"Before\":" + EntryText(before) + ",\"After\":" + EntryText(after)
    + ",\"BeforeRevision\":" + Quoted(was) + ",\"AfterRevision\":" + Quoted(now) + "}"
  }

  // What was read of a path, or of a record.
  function ReadEntry(s: Snapshot): Entry {
    match s
    case Absent => Entry(None, 0, true)
    case Present(mode, content) => Entry(Some(content), mode, false)
  }

  // Letters, digits, dots and dashes stand for themselves.
  predicate Simple(s: string) {
    forall i :: 0 <= i < |s| ==>
                  'a' <= s[i] <= 'z' || 'A' <= s[i] <= 'Z' || '0' <= s[i] <= '9' || s[i] == '.' || s[i] == '-'
  }

  // The revision of what is absent is a word, any other one the 32 bytes of a hash in hex.
  predicate IsRevision(s: Snapshot, text: string) {
    if s.Absent? then text == "absent" else |text| == 64 && Simple(text)
  }

  // The recovery file of a path, in a slot with a random name of 26 characters; none where
  // nothing is captured.
  function RecoveryOf(path: string, before: Snapshot, random: string): string {
    if before.Absent? then ""
    else
      var parts := Text.Split(path, '/');
      (if |parts| == 1 then "" else Text.Join(parts[..|parts| - 1], '/') + "/") + ".lina-recovery-" + random + "/file"
  }

  // ---- Their lengths.

  lemma OneLength(c: char)
    ensures |EscapeOne(c)| == CharLength(c)
  {
  }

  lemma {:induction false} EscapedHas(s: string)
    ensures |Escape(s)| == EscapedLength(s)
  {
    hide EscapeOne, CharLength;
    if s != "" {
      if |s| >= 3 && s[0] == 226 as char && s[1] == 128 as char && s[2] in {168 as char, 169 as char} {
        assert s[..3] == [226 as char, 128 as char, s[2]];
        EscapedHas(s[3..]);
      } else {
        OneLength(s[0]);
        EscapedHas(s[1..]);
      }
    }
  }

  lemma {:induction false} PlainHas(s: string)
    requires Simple(s)
    ensures EscapedLength(s) == |s|
  {
    if s != "" { PlainHas(s[1..]); }
  }

  // A part without special characters adds its own length.
  lemma {:induction false} JoinedLength(a: string, b: string)
    requires Simple(b) && (forall i :: 0 <= i < |b| ==> b[i] as int < 128)
    ensures EscapedLength(a + "/" + b) == EscapedLength(a) + 1 + |b|
  {
    var s := a + "/" + b;
    if a == "" {
      assert s == "/" + b && s[1..] == b;
      PlainHas(b);
    } else {
      SeparatorStays(a, "/" + b);
      assert a + ("/" + b) == s;
      if IsSeparator(a) {
        assert s[3..] == a[3..] + "/" + b;
        JoinedLength(a[3..], b);
      } else {
        assert s[1..] == a[1..] + "/" + b;
        JoinedLength(a[1..], b);
      }
    }
  }

  lemma SeparatorStays(a: string, b: string)
    requires a != "" && forall i :: 0 <= i < |b| ==> b[i] as int < 128
    ensures IsSeparator(a + b) <==> IsSeparator(a)
  {
    var s := a + b;
    if |a| < 3 && |s| >= 3 {
      assert s[2] == b[2 - |a|];
    }
  }

  lemma {:induction false} Base64Length(s: Bytes)
    ensures |Base64(s)| == (|s| + 2) / 3 * 4
  {
    hide Quad;
    if |s| > 2 {
      Base64Length(s[3..]);
      assert (|s| + 2) / 3 == (|s[3..]| + 2) / 3 + 1;
    }
  }

  lemma ModeHas(mode: Mode)
    ensures |Decimal.Digits(mode)| == ModeLength(mode)
  {
    if mode >= 100 { assert |Decimal.Digits(mode / 10 / 10)| == 1; }
  }

  lemma EntryLength(e: Entry)
    ensures |EntryText(e)|
            == SnapshotLength(if e.content.None? then 4 else ContentLength(|e.content.value|), e.mode, e.absent)
  {
    ModeHas(e.mode);
    if e.content.Some? { Base64Length(e.content.value); }
  }

  lemma RecoveryHas(path: string, before: Snapshot, random: string)
    requires |random| == 26 && Simple(random) && PatchGrammar.FilePath(path)
    ensures |Quoted(RecoveryOf(path, before, random))| == RecoveryLength(path, before)
  {
    hide EscapedLength, Escape, Simple;
    EscapedHas(RecoveryOf(path, before, random));
    var slot := ".lina-recovery-" + random;
    PrefixIsSimple(random);
    var folder := Folder(path);
    SlotLengths(slot, folder);
    if before.Absent? {
      PlainHas("");
    } else {
      var parts := Text.Split(path, '/');
      FolderOf(path);
      PlainHas("");
      if |parts| == 1 {
        assert RecoveryOf(path, before, random) == slot + "/file";
      } else {
        assert RecoveryOf(path, before, random) == (folder + "/" + slot) + "/file";
      }
    }
  }

  lemma SlotLengths(slot: string, folder: string)
    requires |slot| == 41 && Simple(slot)
    ensures EscapedLength(slot + "/file") == 46
    ensures EscapedLength((folder + "/" + slot) + "/file") == EscapedLength(folder) + 47
  {
    hide EscapedLength, Simple;
    SimpleAscii(slot);
    assert Simple("file") by { FileIsSimple(); }
    SimpleAscii("file");
    PlainHas(slot);
    JoinedLength(slot, "file");
    JoinedLength(folder, slot);
    JoinedLength(folder + "/" + slot, "file");
    assert slot + "/" + "file" == slot + "/file";
    assert (folder + "/" + slot) + "/" + "file" == (folder + "/" + slot) + "/file";
  }

  lemma PrefixIsSimple(random: string)
    requires Simple(random)
    ensures Simple(".lina-recovery-" + random)
  {
  }

  lemma FileIsSimple()
    ensures Simple("file")
  {
  }

  lemma SimpleAscii(s: string)
    requires Simple(s)
    ensures forall i :: 0 <= i < |s| ==> s[i] as int < 128
  {
  }

  // A path in no folder has one part.
  lemma FolderOf(path: string)
    requires PatchGrammar.FilePath(path)
    ensures Folder(path) == "" <==> |Text.Split(path, '/')| == 1
  {
  }

  lemma RevisionHas(s: Snapshot, text: string)
    requires IsRevision(s, text)
    ensures |Quoted(text)| == RevisionLength(s)
  {
    EscapedHas(text);
    if s.Absent? { AbsentIsSimple(); }
    PlainHas(text);
  }

  lemma AbsentIsSimple()
    ensures Simple("absent")
  {
  }

  // The length with which a record is saved is that of its text.
  lemma RecordHas(path: string, before: Snapshot, after: Snapshot, entry: Entry, random: string, was: string,
                  now: string)
    requires PatchGrammar.FilePath(path) && |random| == 26 && Simple(random)
    requires IsRevision(before, was) && IsRevision(after, now)
    ensures |RecordText(path, RecoveryOf(path, before, random), ReadEntry(before), entry, was, now)|
            == RecordLength(path, before, after, |EntryText(entry)|)
  {
    hide Simple, RecoveryOf, IsRevision, EntryText, Escape;
    EscapedHas(path);
    RecoveryHas(path, before, random);
    EntryLength(ReadEntry(before));
    RevisionHas(before, was);
    RevisionHas(after, now);
  }

  // The snapshot that a request writes at a path. Content that a request leaves out is nil, and
  // so is that of a file which a patch adds without a line; a file that a patch removes keeps
  // its mode in the record.
  ghost predicate Writes(req: Request, before: Snapshot, after: Snapshot, path: string, entry: Entry) {
    match req
    case Read(_) => false
    case Write(_, _, content, isNil) =>
      after.Present? && entry == Entry(if isNil && content == "" then None else Some(content), after.mode, false)
    case Delete(_, _) => entry == Entry(None, 0, true)
    case Restore(_, _, _) => entry == ReadEntry(after)
    case ApplyPatch(text) =>
      match after
      case Absent => entry == Entry(None, if before.Present? && before.mode != 0 then before.mode else 0x180, true)
      case Present(mode, content) =>
        var edits := PatchGrammar.Parsed(text);
        var isNil := content == "" && edits.Some? && Patch.Add(path, "") in edits.value;
        entry == Entry(if isNil then None else Some(content), mode, false)
  }

  lemma SingleHas(req: Request, d: Dir, versions: map<nat, Saved>, entry: Entry)
    requires !req.ApplyPatch? && Planned(req, d, versions).Some?
    requires var p := Planned(req, d, versions).value[0]; Writes(req, p.before, p.after, p.path, entry)
    ensures Planned(req, d, versions).value[0].size == |EntryText(entry)|
  {
    hide EntryText;
    EntryLength(entry);
  }

  lemma BlankIs(edits: seq<Patch.Edit>, path: string)
    ensures path in Blanks(edits) <==> Patch.Add(path, "") in edits
  {
    if Patch.Add(path, "") in edits {
      var k :| 0 <= k < |edits| && edits[k] == Patch.Add(path, "");
      assert edits[k].Add? && edits[k].content == "";
    }
  }

  lemma ChangeHas(c: Patch.Change, edits: seq<Patch.Edit>, before: Snapshot, entry: Entry)
    requires var p := PlanFor(c, before, c.path in Blanks(edits));
             match p.after
             case Absent => entry == Entry(None, if before.Present? && before.mode != 0 then before.mode else 0x180, true)
             case Present(mode, content) =>
               entry == Entry(if content == "" && Patch.Add(c.path, "") in edits then None else Some(content), mode, false)
    ensures PlanFor(c, before, c.path in Blanks(edits)).size == |EntryText(entry)|
  {
    hide EntryText, Blanks;
    EntryLength(entry);
    BlankIs(edits, c.path);
  }

  lemma PatchHas(req: Request, d: Dir, versions: map<nat, Saved>, k: nat, entry: Entry)
    requires req.ApplyPatch? && Planned(req, d, versions).Some? && k < |Planned(req, d, versions).value|
    requires var p := Planned(req, d, versions).value[k]; Writes(req, p.before, p.after, p.path, entry)
    ensures Planned(req, d, versions).value[k].size == |EntryText(entry)|
  {
    hide EntryText, PlanFor, Blanks;
    var edits := PatchGrammar.Parsed(req.text).value;
    var seen := Seen(Patch.AllClaims(edits), d);
    var c := Patch.PlanOf(edits, Contents(seen)).value[k];
    var before := SeenAt(seen, c.path);
    PlanIs(c, before, c.path in Blanks(edits));
    ChangeHas(c, edits, before, entry);
  }

  lemma PlanIs(c: Patch.Change, before: Snapshot, isNil: bool)
    ensures PlanFor(c, before, isNil).path == c.path && PlanFor(c, before, isNil).before == before
  {
  }

  // So every version that a request retains has the length of its text.
  lemma PlannedHas(req: Request, d: Dir, versions: map<nat, Saved>, k: nat, entry: Entry, random: string, was: string,
                   now: string)
    requires Planned(req, d, versions).Some? && k < |Planned(req, d, versions).value|
    requires |random| == 26 && Simple(random)
    requires var p := Planned(req, d, versions).value[k];
             IsRevision(p.before, was) && IsRevision(p.after, now) && Writes(req, p.before, p.after, p.path, entry)
    ensures var p := Planned(req, d, versions).value[k];
            SavedFor(p).length
            == |RecordText(p.path, RecoveryOf(p.path, p.before, random), ReadEntry(p.before), entry, was, now)|
  {
    hide Simple, IsRevision, Writes, Planned, RecoveryOf, RecordText, RecordLength, EntryText;
    var p := Planned(req, d, versions).value[k];
    if req.ApplyPatch? {
      PatchHas(req, d, versions, k, entry);
    } else {
      SingleOnly(req, d, versions);
      SingleHas(req, d, versions, entry);
    }
    PlannedPaths(req, d, versions);
    RecordHas(p.path, p.before, p.after, entry, random, was, now);
  }

  lemma SingleOnly(req: Request, d: Dir, versions: map<nat, Saved>)
    requires !req.ApplyPatch? && Planned(req, d, versions).Some?
    ensures |Planned(req, d, versions).value| == 1
  {
  }
}
