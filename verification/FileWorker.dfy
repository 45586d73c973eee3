// Files.Execute of kit/tools/files.go: plan against snapshots, retain every version, then
// replace one path after another.
module FileWorker {
  import opened FileSystem
  import opened Publication
  import opened Sequences
  import opened Wrappers
  import opened VersionRecord
  import Patch
  import PatchGrammar
  import Text

  // SHA-256 is taken as injective: a revision is what it was computed from.
  datatype Revision = Blank | AbsentRevision | Digest(mode: Mode, content: Bytes)

  function RevisionOf(s: Snapshot): Revision {
    if s.Absent? then AbsentRevision else Digest(s.mode, s.content)
  }

  datatype Request =
    | Read(path: string)
    | Write(path: string, revision: Revision, content: Bytes, isNil: bool)  // empty content may be nil
    | Delete(path: string, revision: Revision)
    | Restore(path: string, revision: Revision, version: nat)
    | ApplyPatch(text: string)

  // A planned replacement; `size` is the length of `after` in the record of the version.
  datatype Plan = Plan(path: string, before: Snapshot, after: Snapshot, size: nat)

  datatype Receipt = Receipt(path: string, before: Revision, after: Revision, version: nat, recovery: Recovery)

  // A version, with the length of its record.
  datatype Saved = Saved(path: string, before: Snapshot, after: Snapshot, length: nat)

  const DEFAULT_MODE: Mode := 0x180  // 0600

  ghost predicate DistinctPaths(plans: seq<Plan>) {
    forall j, k :: 0 <= j < k < |plans| ==> plans[j].path != plans[k].path
  }

  // ValidateFileRequest, for the operations modelled here.
  predicate Acceptable(req: Request) {
    match req
    case ApplyPatch(text) => PatchGrammar.Parsed(text).Some?
    case Write(p, _, content, _) => PatchGrammar.FilePath(p) && |content| <= MAX_FILE_BYTES
    case _ => PatchGrammar.FilePath(req.path)
  }

  // The mode a patch gives a path: the file's own, or the default where there is none.
  function PatchMode(s: Snapshot): Mode {
    if s.Present? && s.mode != 0 then s.mode else DEFAULT_MODE
  }

  function AfterChange(c: Patch.Change, before: Snapshot): Snapshot {
    match c
    case Write(_, content) => Present(PatchMode(before), content)
    case Erase(_) => Absent
  }

  function ChangeLength(c: Patch.Change, before: Snapshot, isNil: bool): nat {
    match c
    case Write(_, content) => NewLength(PatchMode(before), content, isNil)
    case Erase(_) => ErasedLength(PatchMode(before))
  }

  // A path can be read: it is no directory, no file is on the way to it, and what it shows is
  // not too large.
  ghost predicate Readable(d: Dir, path: string) {
    d.Clear(path) && Fits(d.Look(path))
  }

  // A new file gets the default mode.
  function WritePlan(p: string, s: Snapshot, content: Bytes, isNil: bool): Plan {
    var mode := if s.Absent? then DEFAULT_MODE else s.mode;
    Plan(p, s, Present(mode, content), NewLength(mode, content, isNil))
  }

  function DeletePlan(p: string, s: Snapshot): Plan {
    Plan(p, s, Absent, ReadLength(Absent))
  }

  function RestorePlan(p: string, s: Snapshot, restored: Snapshot): Plan {
    Plan(p, s, restored, ReadLength(restored))
  }

  // What a request means for the files as they are: the replacements it asks for, or None
  // where it must fail before it touches anything.
  ghost function Planned(req: Request, d: Dir, versions: map<nat, Saved>): Option<seq<Plan>> {
    if !Acceptable(req) then None
    else
      match req
      case Read(_) => None
      case Write(p, revision, content, isNil) =>
        var s := d.Look(p);
        if !Readable(d, p) || RevisionOf(s) != revision then None
        else Some([WritePlan(p, s, content, isNil)])
      case Delete(p, revision) =>
        var s := d.Look(p);
        if !Readable(d, p) || RevisionOf(s) != revision || s.Absent? then None else Some([DeletePlan(p, s)])
      case Restore(p, revision, version) =>
        var s := d.Look(p);
        if !Readable(d, p) || RevisionOf(s) != revision || !Loadable(versions, version, p) then None
        else Some([RestorePlan(p, s, versions[version].before)])
      case ApplyPatch(text) =>
        PlannedEdits(PatchGrammar.Parsed(text).value, d)
  }

  ghost function PlannedEdits(edits: seq<Patch.Edit>, d: Dir): Option<seq<Plan>> {
    var seen := Seen(Patch.AllClaims(edits), d);
    if exists p :: p in Patch.AllClaims(edits) && !Readable(d, p) then None
    else
      match Patch.PlanOf(edits, Contents(seen))
      case None => None
      case Some(changes) => Some(PlansFor(changes, seen, Blanks(edits)))
  }

  // Why a path cannot be read.
  function Unreadable(d: Dir, path: string): Sentinel {
    if d.Clear(path) then TooLarge else Scope
  }

  // The first of these paths that cannot be read.
  ghost predicate FirstUnreadable(claims: seq<string>, d: Dir, k: nat) {
    k < |claims| && !Readable(d, claims[k]) && forall j :: 0 <= j < k ==> Readable(d, claims[j])
  }

  // Why a request has no plan.
  ghost predicate Refuses(req: Request, d: Dir, versions: map<nat, Saved>, kind: Sentinel) {
    match req
    case Read(_) => false
    case ApplyPatch(text) =>
      var edits := PatchGrammar.Parsed(text);
      if edits.None? then kind == Invalid
      else
        var claims := Patch.AllClaims(edits.value);
        if exists p :: p in claims && !Readable(d, p) then
          exists k: nat :: FirstUnreadable(claims, d, k) && kind == Unreadable(d, claims[k])
        else kind == NoMatch
    case _ =>
      if req.Write? && |req.content| > MAX_FILE_BYTES then kind == TooLarge
      else if !PatchGrammar.FilePath(req.path) || req.revision == Blank then kind == Invalid
      else if !Readable(d, req.path) then kind == Unreadable(d, req.path)
      else if RevisionOf(d.Look(req.path)) != req.revision then kind == Stale
      else if req.Delete? then kind == Missing
      else req.Restore? && kind == RecordFault(versions, req.version)
  }

  // A record that is missing or too long cannot be read at all.
  function RecordFault(versions: map<nat, Saved>, version: nat): Sentinel {
    if version in versions && versions[version].length <= RECORD_LIMIT then Invalid else System
  }

  function Seen(claims: seq<string>, d: Dir): map<string, Snapshot> {
    map p | p in claims :: d.Look(p)
  }

  function Contents(seen: map<string, Snapshot>): Patch.Files {
    map p | p in seen && seen[p].Present? :: seen[p].content
  }

  // A missing entry reads like an absent file.
  function SeenAt(seen: map<string, Snapshot>, path: string): Snapshot {
    if path in seen then seen[path] else Absent
  }

  // A file that is added without a line has nil content.
  function Blanks(edits: seq<Patch.Edit>): set<string> {
    set k | 0 <= k < |edits| && edits[k].Add? && edits[k].content == "" :: edits[k].path
  }

  function PlanFor(c: Patch.Change, before: Snapshot, isNil: bool): Plan {
    Plan(c.path, before, AfterChange(c, before), ChangeLength(c, before, isNil))
  }

  function PlansFor(changes: seq<Patch.Change>, seen: map<string, Snapshot>, blanks: set<string>): seq<Plan> {
    seq(|changes|, k requires 0 <= k < |changes| =>
      PlanFor(changes[k], SeenAt(seen, changes[k].path), changes[k].path in blanks))
  }

  lemma PlansDistinct(changes: seq<Patch.Change>, seen: map<string, Snapshot>, blanks: set<string>)
    requires Distinct(Patch.Paths(changes))
    ensures DistinctPaths(PlansFor(changes, seen, blanks))
  {
    var plans := PlansFor(changes, seen, blanks);
    forall j, k | 0 <= j < k < |plans| ensures plans[j].path != plans[k].path {
      assert Patch.Paths(changes)[j] != Patch.Paths(changes)[k];
    }
  }

  // ---- Version records.

  function SavedFor(p: Plan): Saved {
    Saved(p.path, p.before, p.after, RecordLength(p.path, p.before, p.after, p.size))
  }

  predicate Loads(p: Plan) {
    SavedFor(p).length <= RECORD_LIMIT
  }

  // Files.load: the record exists, can be read in full, is about this path, and holds a
  // snapshot of legal size.
  predicate Loadable(versions: map<nat, Saved>, version: nat, path: string) {
    && version in versions && versions[version].path == path && Fits(versions[version].before)
    && versions[version].length <= RECORD_LIMIT
  }

  // The record of a planned replacement can be loaded unless its path is very long.
  lemma PlannedLoads(req: Request, d: Dir, versions: map<nat, Saved>, k: nat)
    requires Planned(req, d, versions).Some? && k < |Planned(req, d, versions).value|
    requires var p := Planned(req, d, versions).value[k]; Fits(p.after) && PathLength(p.path) <= PATH_LIMIT
    ensures Loads(Planned(req, d, versions).value[k])
  {
    hide RecordLength;
    var p := Planned(req, d, versions).value[k];
    PlannedFrom(req, d, versions);
    RecordFits(p.path);
    assert Written(p.after, p.size) by {
      match req
      case Write(_, _, content, isNil) =>
      case Delete(_, _) => ReadIsWritten(Absent);
      case Restore(_, _, version) => ReadIsWritten(versions[version].before);
      case ApplyPatch(text) =>
    }
  }

  // Every planned path can be read, and shows what the plan started from; what the plan asks
  // for has legal size.
  ghost predicate Ready(plans: seq<Plan>, d: Dir) {
    forall k :: 0 <= k < |plans| ==>
                  && d.Look(plans[k].path) == plans[k].before && Readable(d, plans[k].path)
                  && Fits(plans[k].before) && Fits(plans[k].after)
  }

  // No two of the first n plans write a file on the way to another one, and a removal of what
  // is absent finds its directory.
  ghost predicate Apart(plans: seq<Plan>, n: nat, d: Dir)
    requires n <= |plans|
  {
    && (forall j, k :: 0 <= j < n && 0 <= k < n && plans[j].after.Present? && plans[k].after.Present?
                       ==> !Above(plans[j].path, plans[k].path))
    && (forall k :: 0 <= k < n && plans[k].before.Absent? && plans[k].after.Absent? ==> Ancestors(plans[k].path) <= d.dirs)
  }

  // What makes the difference between a plan that can be carried out and one that cannot.
  ghost predicate Compatible(plans: seq<Plan>, d: Dir) {
    Apart(plans, |plans|, d)
  }

  // Only a request for one path asks for the removal of what is absent.
  ghost predicate Simple(plans: seq<Plan>) {
    |plans| == 1 || forall k :: 0 <= k < |plans| ==> plans[k].before.Present? || plans[k].after.Present?
  }

  // A plan starts from what its paths show.
  lemma PlannedFrom(req: Request, d: Dir, versions: map<nat, Saved>)
    requires Planned(req, d, versions).Some?
    ensures var plans := Planned(req, d, versions).value;
            && Simple(plans)
            && forall k :: 0 <= k < |plans| ==>
                             && d.Look(plans[k].path) == plans[k].before && Readable(d, plans[k].path)
                             && Fits(plans[k].before)
  {
    if req.ApplyPatch? { PlannedEditsFrom(PatchGrammar.Parsed(req.text).value, d); }
  }

  lemma PlannedEditsFrom(edits: seq<Patch.Edit>, d: Dir)
    requires PlannedEdits(edits, d).Some?
    ensures var plans := PlannedEdits(edits, d).value;
            && Simple(plans)
            && forall k :: 0 <= k < |plans| ==>
                             && d.Look(plans[k].path) == plans[k].before && Readable(d, plans[k].path)
                             && Fits(plans[k].before) && plans[k].path in Patch.AllClaims(edits)
  {
    var seen := Seen(Patch.AllClaims(edits), d);
    var changes := Patch.PlanOf(edits, Contents(seen)).value;
    forall k | 0 <= k < |changes| ensures changes[k].path in Patch.AllClaims(edits) && changes[k].path in seen {
      Patch.ChangeIsClaimed(edits, Contents(seen), k);
    }
    forall k | 0 <= k < |changes| && changes[k].Erase? ensures changes[k].path in Contents(seen) {
      Patch.ErasesExist(edits, Contents(seen), k);
    }
  }

  // The directories on the way to the first n paths.
  function Ways(plans: seq<Plan>, n: nat): set<string>
    requires n <= |plans|
  {
    if n == 0 then {} else Ways(plans, n - 1) + Ancestors(plans[n - 1].path)
  }

  lemma {:induction false} WaysAre(plans: seq<Plan>, n: nat)
    requires n <= |plans|
    ensures forall a :: a in Ways(plans, n) <==> exists k :: 0 <= k < n && Above(a, plans[k].path)
  {
    if n > 0 { WaysAre(plans, n - 1); }
  }

  // The first `done` paths show what was asked for, their directories exist, and everything
  // else is as it was.
  ghost predicate Realised(plans: seq<Plan>, done: nat, before: Dir, after: Dir)
    requires done <= |plans|
  {
    && (forall k :: 0 <= k < done ==> after.Look(plans[k].path) == plans[k].after)
    && (forall p :: (forall k :: 0 <= k < done ==> plans[k].path != p) ==> after.Look(p) == before.Look(p))
    && after.dirs == before.dirs + Ways(plans, done)
  }

  lemma RealisedNext(plans: seq<Plan>, done: nat, first: Dir, before: Dir, after: Dir)
    requires done < |plans| && DistinctPaths(plans) && Realised(plans, done, first, before)
    requires forall p :: after.Look(p) == if p == plans[done].path then plans[done].after else before.Look(p)
    requires after.dirs == before.dirs + Ancestors(plans[done].path)
    ensures Realised(plans, done + 1, first, after)
  {
  }

  // Nothing exists that did not exist before or was not asked for.
  ghost predicate Between(plans: seq<Plan>, first: Dir, now: Dir) {
    && (forall p :: now.Look(p).Present? ==>
                      first.Look(p).Present? || exists k :: 0 <= k < |plans| && plans[k].path == p && plans[k].after.Present?)
    && (forall a :: a in now.dirs ==>
                      a in first.dirs || exists k :: 0 <= k < |plans| && plans[k].after.Present? && Above(a, plans[k].path))
  }

  ghost predicate Sound(d: Dir) {
    d.Valid() && Tree(d.files, d.dirs)
  }

  lemma Shown(d: Dir, p: string)
    requires d.Valid()
    ensures d.Look(p).Present? <==> p in d.files
  {
    if p in d.files { assert d.files[p] in d.files.Values; }
  }

  // Where the plan removes something, its directories were there from the beginning.
  lemma RemovalHasWay(plans: seq<Plan>, first: Dir, k: nat)
    requires Sound(first) && Ready(plans, first) && k < |plans| && plans[k].after.Absent?
    requires plans[k].before.Absent? ==> Ancestors(plans[k].path) <= first.dirs
    ensures Ancestors(plans[k].path) <= first.dirs
  {
    Shown(first, plans[k].path);
  }

  lemma RealisedBetween(plans: seq<Plan>, done: nat, first: Dir, now: Dir)
    requires Sound(first) && Ready(plans, first) && Compatible(plans, first)
    requires done <= |plans| && Realised(plans, done, first, now)
    ensures Between(plans, first, now)
  {
    WaysAre(plans, done);
    forall k | 0 <= k < |plans| && plans[k].after.Absent? ensures Ancestors(plans[k].path) <= first.dirs {
      RemovalHasWay(plans, first, k);
    }
    forall p | now.Look(p).Present? && first.Look(p).Absent?
      ensures exists k :: 0 <= k < |plans| && plans[k].path == p && plans[k].after.Present?
    {
      var k :| 0 <= k < done && plans[k].path == p;
    }
  }

  // Every planned path can still be reached while compatible plans are carried out or undone.
  lemma StaysClear(plans: seq<Plan>, first: Dir, now: Dir, k: nat)
    requires Sound(first) && Sound(now) && Ready(plans, first) && Simple(plans) && Compatible(plans, first)
    requires Between(plans, first, now) && k < |plans|
    ensures now.Clear(plans[k].path)
  {
    var path := plans[k].path;
    Shown(first, path);
    forall j | 0 <= j < |plans| && plans[j].after.Present?
      ensures !Above(path, plans[j].path) && !Above(plans[j].path, path)
    {
      assert Readable(first, plans[j].path) && Readable(first, path);
      if plans[k].after.Absent? { assert path in Ancestors(plans[j].path) <==> Above(path, plans[j].path); }
    }
    forall a | a in Ancestors(path) ensures a !in now.files {
      Shown(now, a);
      Shown(first, a);
    }
  }

  // Plans that were carried out one by one did not stand in each other's way.
  lemma ApartNext(plans: seq<Plan>, done: nat, first: Dir, now: Dir)
    requires Sound(first) && Sound(now) && Simple(plans) && done < |plans| && Apart(plans, done, first)
    requires DistinctPaths(plans) && Realised(plans, done, first, now) && now.Clear(plans[done].path)
    requires plans[done].after.Absent? ==> Ancestors(plans[done].path) <= now.dirs
    ensures Apart(plans, done + 1, first)
  {
    hide Above, Tree;
    WaysAre(plans, done);
    forall j | 0 <= j < done && plans[j].after.Present?
      ensures !Above(plans[j].path, plans[done].path) && !Above(plans[done].path, plans[j].path)
    {
      Shown(now, plans[j].path);
      assert now.Look(plans[j].path) == plans[j].after;
    }
    NotAboveItself(plans[done].path);
  }

  lemma NotAboveItself(p: string)
    ensures !Above(p, p)
  {
  }

  ghost predicate Slotted(plans: seq<Plan>, receipts: seq<Receipt>)
    requires |receipts| == |plans|
  {
    forall k :: 0 <= k < |plans| ==> (receipts[k].recovery.Slot? <==> plans[k].before.Present?)
  }

  // The slots of the receipts from `from` on are reserved, unused, and different.
  ghost predicate SlotsReady(receipts: seq<Receipt>, from: nat, tokens: nat, slots: set<nat>) {
    && (forall k :: from <= k < |receipts| ==> SlotReady(receipts[k].recovery, tokens, slots))
    && (forall j, k :: from <= j < k < |receipts| ==> SlotsDiffer(receipts[j].recovery, receipts[k].recovery))
  }

  predicate AllFit(plans: seq<Plan>) {
    forall k :: 0 <= k < |plans| ==> Fits(plans[k].after)
  }

  ghost predicate SlotReady(r: Recovery, tokens: nat, slots: set<nat>) {
    r.Slot? ==> r.token < tokens && r.token !in slots
  }

  ghost predicate SlotsDiffer(a: Recovery, b: Recovery) {
    a.Slot? ==> a != b
  }

  // While plans are carried out, the next one finds its path as planned; if the plans are
  // compatible, nothing stands in its way.
  lemma NextGranted(plans: seq<Plan>, receipts: seq<Receipt>, done: nat, first: Dir, now: Dir)
    requires Sound(first) && Sound(now) && Ready(plans, first) && Simple(plans) && DistinctPaths(plans)
    requires |receipts| == |plans| && Slotted(plans, receipts) && done < |plans| && Realised(plans, done, first, now)
    ensures Granted(now, plans[done].path, plans[done].before, plans[done].after, receipts[done].recovery)
    ensures Compatible(plans, first) ==>
              && now.Clear(plans[done].path)
              && (plans[done].after.Absent? ==> Ancestors(plans[done].path) <= now.dirs)
  {
    if Compatible(plans, first) {
      RealisedBetween(plans, done, first, now);
      StaysClear(plans, first, now, done);
      if plans[done].after.Absent? { RemovalHasWay(plans, first, done); }
    }
  }

  // How far plans were carried out when nothing else happens.
  ghost predicate Progress(plans: seq<Plan>, receipts: seq<Receipt>, done: nat, first: Dir, now: Dir)
    requires |receipts| == |plans| && done <= |plans|
  {
    && Sound(first) && Ready(plans, first) && Simple(plans) && DistinctPaths(plans) && Slotted(plans, receipts)
    && Realised(plans, done, first, now) && Apart(plans, done, first)
  }

  lemma ProgressBegins(plans: seq<Plan>, receipts: seq<Receipt>, first: Dir)
    requires |receipts| == |plans| && Sound(first) && Ready(plans, first) && Simple(plans) && DistinctPaths(plans)
    requires Slotted(plans, receipts)
    ensures Progress(plans, receipts, 0, first, first)
  {
  }

  lemma ProgressMeans(plans: seq<Plan>, receipts: seq<Receipt>, done: nat, first: Dir, now: Dir)
    requires |receipts| == |plans| && done <= |plans| && Progress(plans, receipts, done, first, now)
    ensures Realised(plans, done, first, now) && Apart(plans, done, first)
    ensures done == |plans| ==> Compatible(plans, first)
  {
  }

  lemma ProgressGranted(plans: seq<Plan>, receipts: seq<Receipt>, done: nat, first: Dir, now: Dir)
    requires |receipts| == |plans| && done < |plans| && Progress(plans, receipts, done, first, now) && Sound(now)
    ensures Granted(now, plans[done].path, plans[done].before, plans[done].after, receipts[done].recovery)
  {
    NextGranted(plans, receipts, done, first, now);
  }

  // What is said of the first plan that cannot be carried out: a removal lacks its directory, and
  // a write finds a file on its way or a directory in its place. If others were carried out, the
  // whole is called unknown.
  function Blocked(plans: seq<Plan>, done: nat): set<Sentinel>
    requires done < |plans|
  {
    {if plans[done].after.Present? then Scope else Missing} + if done > 0 then {Unknown} else {}
  }

  lemma BlockedWrite(plans: seq<Plan>, receipts: seq<Receipt>, done: nat, first: Dir, now: Dir)
    requires |receipts| == |plans| && done < |plans| && Progress(plans, receipts, done, first, now) && Sound(now)
    ensures plans[done].after.Absent? ==> now.Clear(plans[done].path)
  {
    ProgressGranted(plans, receipts, done, first, now);
    var p := plans[done];
    if p.after.Absent? && p.before.Absent? {
      assert |plans| == 1 && done == 0;
      assert now.Look(p.path) == first.Look(p.path) && now.dirs == first.dirs && Readable(first, p.path);
      Shown(first, p.path);
      forall a | a in Ancestors(p.path) ensures a !in now.files {
        assert now.Look(a) == first.Look(a);
        Shown(now, a);
        Shown(first, a);
      }
    }
  }

  lemma ProgressNext(plans: seq<Plan>, receipts: seq<Receipt>, done: nat, first: Dir, before: Dir, after: Dir)
    requires |receipts| == |plans| && done < |plans| && Progress(plans, receipts, done, first, before) && Sound(before)
    requires before.Clear(plans[done].path) && (plans[done].after.Absent? ==> Ancestors(plans[done].path) <= before.dirs)
    requires forall p :: after.Look(p) == if p == plans[done].path then plans[done].after else before.Look(p)
    requires after.dirs == before.dirs + Ancestors(plans[done].path)
    ensures Progress(plans, receipts, done + 1, first, after)
  {
    ApartNext(plans, done, first, before);
    RealisedNext(plans, done, first, before, after);
  }

  lemma CalledUnknown(kinds: set<Sentinel>, mutated: bool)
    ensures Err(kinds).Is(Unknown) <==> Unknown in kinds
    ensures kinds + {Unknown} == if Unknown in kinds then kinds else kinds + {Unknown}
    ensures kinds + (if mutated then {Unknown} else {}) == if mutated then kinds + {Unknown} else kinds
    ensures Err(kinds + {Unknown}).Is(Unknown)
  {
  }

  lemma ProgressEnds(plans: seq<Plan>, receipts: seq<Receipt>, done: nat, first: Dir, before: Dir, after: Dir)
    requires |receipts| == |plans| && done < |plans| && Progress(plans, receipts, done, first, before) && Sound(before)
    requires !(before.Clear(plans[done].path) && (plans[done].after.Absent? ==> Ancestors(plans[done].path) <= before.dirs))
    requires after.dirs == before.dirs && forall p :: after.Look(p) == before.Look(p)
    ensures Realised(plans, done, first, after) && Apart(plans, done, first) && !Compatible(plans, first)
    ensures Blocked(plans, done)
            == {if before.Clear(plans[done].path) then Missing else Scope} + (if done > 0 then {Unknown} else {})
  {
    NextGranted(plans, receipts, done, first, before);
    BlockedWrite(plans, receipts, done, first, before);
  }

  lemma SlotsHead(receipts: seq<Receipt>, from: nat, tokens: nat, slots: set<nat>)
    requires SlotsReady(receipts, from, tokens, slots) && from < |receipts|
    ensures SlotReady(receipts[from].recovery, tokens, slots)
  {
  }

  // A replacement fills its own slot at most.
  lemma SlotsNext(receipts: seq<Receipt>, from: nat, tokens: nat, later: nat, slots: set<nat>, filled: set<nat>)
    requires SlotsReady(receipts, from, tokens, slots) && from < |receipts| && tokens <= later
    requires forall t :: t in filled ==> t in slots || receipts[from].recovery == Slot(t)
    ensures SlotsReady(receipts, from + 1, later, filled)
  {
  }

  lemma SlotsMore(receipts: seq<Receipt>, receipt: Receipt, tokens: nat, later: nat, slots: set<nat>)
    requires SlotsReady(receipts, 0, tokens, slots) && tokens <= later && forall t :: t in slots ==> t < tokens
    requires receipt.recovery.Slot? ==> tokens <= receipt.recovery.token < later
    ensures SlotsReady(receipts + [receipt], 0, later, slots)
  {
  }

  ghost predicate Described(r: Receipt, p: Plan, versions: map<nat, Saved>) {
    && r.path == p.path && r.before == RevisionOf(p.before) && r.after == RevisionOf(p.after)
    && r.version in versions && versions[r.version] == SavedFor(p)
    && (r.recovery.Slot? <==> p.before.Present?)
  }

  class Files {
    const world: World
    var versions: map<nat, Saved>

    ghost predicate Valid()
      reads this, world
    {
      world.Valid() && forall v :: v in versions ==> v < world.tokens
    }

    // No path was touched and no slot filled, whatever the other writer did.
    twostate predicate Waited()
      reads this, world
    {
      && world.touched == old(world.touched) && world.orphaned == old(world.orphaned)
      && old(world.dir.inodes.Keys) <= world.dir.inodes.Keys
      && world.dir.slots == old(world.dir.slots) && world.tokens >= old(world.tokens)
      && (world.quiet ==> world.dir == old(world.dir))
    }

    constructor (world: World)
      requires world.Valid()
      ensures Valid() && this.world == world && versions == map[]
    {
      this.world, versions := world, map[];
    }

    // Reserve a recovery slot where there is something to capture, and
    // save both versions of one path.
    method RetainOne(plan: Plan) returns (receipt: Receipt, err: Outcome)
      requires Valid()
      modifies this`versions, world
      ensures Valid() && Waited()
      ensures forall v :: v in old(versions) ==> v in versions && versions[v] == old(versions)[v]
      ensures !err.Is(Unknown)
      ensures err.Ok? ==> Described(receipt, plan, versions)
      ensures err.Ok? && receipt.recovery.Slot? ==> old(world.tokens) <= receipt.recovery.token < world.tokens
      ensures world.quiet ==> (err.Ok? <==> Fits(plan.after)) && (err.Err? ==> err == Err({TooLarge}))
    {
      hide Tree, Accounted, Touches, SlotsStay;
      err := Ok;
      receipt := Receipt(plan.path, RevisionOf(plan.before), RevisionOf(plan.after), 0, NoSlot);
      world.Interfere();
      var failed := world.Faulty();
      if !Fits(plan.after) { return receipt, Err({TooLarge}); }
      if failed { return receipt, Err({System}); }
      if plan.before.Present? {
        var token := world.ReserveToken();
        receipt := receipt.(recovery := Slot(token));
      }
      var version := world.ReserveToken();
      versions := versions[version := SavedFor(plan)];
      receipt := receipt.(version := version);
    }

    // Both versions of every path are retained before any of them changes.
    method Retain(plans: seq<Plan>) returns (receipts: seq<Receipt>, err: Outcome)
      requires Valid()
      modifies this`versions, world
      ensures Valid() && Waited()
      ensures forall v :: v in old(versions) ==> v in versions && versions[v] == old(versions)[v]
      ensures !err.Is(Unknown)
      ensures err.Ok? ==> |receipts| == |plans| && SlotsReady(receipts, 0, world.tokens, world.dir.slots.Keys)
      ensures err.Ok? ==> forall k :: 0 <= k < |plans| ==> Described(receipts[k], plans[k], versions)
      ensures world.quiet ==> (err.Ok? <==> AllFit(plans)) && (err.Err? ==> err == Err({TooLarge}))
    {
      hide Tree, Accounted, Touches, SlotsStay;
      receipts, err := [], Ok;
      var k := 0;
      while k < |plans|
        invariant 0 <= k == |receipts| <= |plans| && err.Ok?
        invariant Valid() && Waited()
        invariant forall v :: v in old(versions) ==> v in versions && versions[v] == old(versions)[v]
        invariant SlotsReady(receipts, 0, world.tokens, world.dir.slots.Keys)
        invariant forall j :: 0 <= j < k ==> Described(receipts[j], plans[j], versions)
        invariant world.quiet ==> forall j :: 0 <= j < k ==> Fits(plans[j].after)
      {
        var receipt;
        ghost var tokens := world.tokens;
        receipt, err := RetainOne(plans[k]);
        if err.Err? { return; }
        SlotsMore(receipts, receipt, tokens, world.tokens, world.dir.slots.Keys);
        receipts := receipts + [receipt];
        k := k + 1;
      }
    }

    // A cancelled request replaces nothing more.
    method ReplaceOne(plan: Plan, recovery: Recovery) returns (err: Outcome)
      requires Valid() && SlotReady(recovery, world.tokens, world.dir.slots.Keys)
      modifies world
      ensures Valid() && world.tokens >= old(world.tokens)
      ensures old(world.dir.inodes.Keys) <= world.dir.inodes.Keys
      ensures old(world.orphaned) <= world.orphaned && (world.orphaned - old(world.orphaned)) !! old(world.dir.inodes.Keys)
      ensures world.touched <= old(world.touched) + {plan.path}
      ensures err.Err? && !err.Is(Unknown) ==> world.touched == old(world.touched)
      ensures forall t :: t in world.dir.slots ==> t in old(world.dir.slots) || recovery == Slot(t)
      ensures world.quiet && Granted(old(world.dir), plan.path, plan.before, plan.after, recovery) ==>
                && (err.Ok? <==> && old(world.dir).Clear(plan.path)
                                 && (plan.after.Absent? ==> Ancestors(plan.path) <= old(world.dir).dirs))
                && (err.Ok? ==>
                      && (forall p :: world.dir.Look(p) == if p == plan.path then plan.after else old(world.dir).Look(p))
                      && world.dir.dirs == old(world.dir).dirs + Ancestors(plan.path))
                && (err.Err? ==>
                      && world.dir.dirs == old(world.dir).dirs
                      && (forall p :: world.dir.Look(p) == old(world.dir).Look(p))
                      && err == Err({if old(world.dir).Clear(plan.path) then Missing else Scope}))
    {
      hide Tree, Accounted;
      world.Interfere();
      var cancelled := world.Faulty();
      if cancelled { return Err({System}); }
      err := Replace(world, plan.path, plan.before, plan.after, recovery);
    }

    lemma ValidIsSound()
      requires Valid()
      ensures Sound(world.dir)
    {
      hide Accounted, Tree;
    }

    // One path after another; nothing is undone, and the error says so.
    method ReplaceAll(plans: seq<Plan>, receipts: seq<Receipt>) returns (done: nat, err: Outcome)
      requires Valid() && |receipts| == |plans| && DistinctPaths(plans)
      requires SlotsReady(receipts, 0, world.tokens, world.dir.slots.Keys)
      modifies world
      ensures Valid() && done <= |plans| && (err.Ok? <==> done == |plans|)
      ensures old(world.orphaned) <= world.orphaned && (world.orphaned - old(world.orphaned)) !! old(world.dir.inodes.Keys)
      // Only a prefix of the paths is touched: the finished ones and perhaps the next one.
      ensures world.touched <= old(world.touched) + set k | 0 <= k <= done && k < |plans| :: plans[k].path
      // A failure that is not "unknown" happened before anything was touched.
      ensures err.Err? && !err.Is(Unknown) ==> done == 0 && world.touched == old(world.touched)
      // Left alone, it finishes exactly when the plans do not stand in each other's way; what
      // was done stays done.
      ensures world.quiet && Ready(plans, old(world.dir)) && Simple(plans) && Slotted(plans, receipts) ==>
                && Realised(plans, done, old(world.dir), world.dir) && Apart(plans, done, old(world.dir))
                && (err.Ok? <==> Compatible(plans, old(world.dir)))
                && (err.Err? ==> err == Err(Blocked(plans, done)))
    {
      hide *;
      var mutated := false;
      done, err := 0, Ok;
      ghost var first := world.dir;
      ghost var alone := world.quiet && Ready(plans, first) && Simple(plans) && Slotted(plans, receipts);
      ValidIsSound();
      if alone { ProgressBegins(plans, receipts, first); }
      while done < |plans|
        invariant Valid() && done <= |plans| && mutated == (done > 0) && err.Ok?
        invariant world.tokens >= old(world.tokens)
        invariant old(world.dir.inodes.Keys) <= world.dir.inodes.Keys
        invariant old(world.orphaned) <= world.orphaned && (world.orphaned - old(world.orphaned)) !! old(world.dir.inodes.Keys)
        invariant world.touched <= old(world.touched) + set k | 0 <= k < done :: plans[k].path
        invariant done == 0 ==> world.touched == old(world.touched)
        invariant SlotsReady(receipts, done, world.tokens, world.dir.slots.Keys)
        invariant alone ==> Progress(plans, receipts, done, first, world.dir)
      {
        ghost var before, tokens := world.dir, world.tokens;
        ValidIsSound();
        SlotsHead(receipts, done, tokens, before.slots.Keys);
        if alone { ProgressGranted(plans, receipts, done, first, before); }
        err := ReplaceOne(plans[done], receipts[done].recovery);
        if err.Err? {
          if alone { ProgressEnds(plans, receipts, done, first, before, world.dir); }
          ghost var kinds := err.kinds;
          if mutated || err.Is(Unknown) { err := Err(err.kinds + {Unknown}); }
          CalledUnknown(kinds, done > 0);
          return;
        }
        if alone { ProgressNext(plans, receipts, done, first, before, world.dir); }
        SlotsNext(receipts, done, tokens, world.tokens, before.slots.Keys, world.dir.slots.Keys);
        mutated := true;
        done := done + 1;
      }
      if alone { ProgressMeans(plans, receipts, done, first, world.dir); }
    }

    // Every path the patch claims is read before anything is planned.
    method Gather(claims: seq<string>) returns (seen: map<string, Snapshot>, err: Outcome)
      requires Valid()
      modifies world
      ensures Valid() && Waited() && !err.Is(Unknown)
      ensures err.Ok? ==> seen.Keys == (set p | p in claims) && forall p :: p in seen ==> Fits(seen[p])
      ensures world.quiet ==> (err.Ok? <==> forall p :: p in claims ==> Readable(world.dir, p))
      ensures world.quiet && err.Ok? ==> seen == Seen(claims, world.dir)
      ensures world.quiet && err.Err? ==>
                exists k: nat :: FirstUnreadable(claims, world.dir, k) && err == Err({Unreadable(world.dir, claims[k])})
    {
      hide Tree, Accounted, Touches, SlotsStay;
      seen, err := map[], Ok;
      var k := 0;
      while k < |claims|
        invariant 0 <= k <= |claims| && err.Ok?
        invariant Valid() && Waited()
        invariant seen.Keys == (set p | p in claims[..k]) && forall p :: p in seen ==> Fits(seen[p])
        invariant world.quiet ==> world.dir == old(world.dir)
        invariant world.quiet ==> forall p :: p in seen ==> seen[p] == world.dir.Look(p) && Readable(world.dir, p)
      {
        world.Interfere();
        var s;
        s, err := ReadPath(world, claims[k]);
        if err.Err? {
          assert claims[k] in claims;
          if world.quiet { assert FirstUnreadable(claims, world.dir, k); }
          return;
        }
        seen := seen[claims[k] := s];
        k := k + 1;
      }
      assert claims[..k] == claims;
    }

    // A patch: read what it claims, then plan all its edits against that.
    method PlanEdits(edits: seq<Patch.Edit>) returns (plans: seq<Plan>, err: Outcome)
      requires Valid() && Distinct(Patch.AllClaims(edits))
      modifies world
      ensures Valid() && Waited() && !err.Is(Unknown)
      ensures err.Ok? ==> DistinctPaths(plans) && forall k :: 0 <= k < |plans| ==> Fits(plans[k].before)
      ensures world.quiet ==> PlannedEdits(edits, old(world.dir)) == if err.Ok? then Some(plans) else None
      ensures world.quiet && err.Err? ==>
                var claims := Patch.AllClaims(edits);
                if exists p :: p in claims && !Readable(world.dir, p)
                then exists k: nat :: FirstUnreadable(claims, world.dir, k) && err == Err({Unreadable(world.dir, claims[k])})
                else err == Err({NoMatch})
    {
      hide Tree, Accounted, Touches, SlotsStay;
      plans := [];
      var seen;
      seen, err := Gather(Patch.AllClaims(edits));
      if err.Err? { return; }
      var changes := Patch.PlanPatch(edits, Contents(seen));
      if changes.None? { return [], Err({NoMatch}); }
      plans := PlansFor(changes.value, seen, Blanks(edits));
      Patch.PlanPathsDistinct(edits, Contents(seen));
      PlansDistinct(changes.value, seen, Blanks(edits));
    }

    // The other requests: read the path and compare its revision.
    method PlanSingle(req: Request) returns (plans: seq<Plan>, err: Outcome)
      requires Valid() && Acceptable(req) && !req.ApplyPatch? && !req.Read? && req.revision != Blank
      modifies world
      ensures Valid() && Waited() && !err.Is(Unknown)
      ensures err.Ok? ==> |plans| == 1 && plans[0].path == req.path && Fits(plans[0].before)
      ensures world.quiet ==> Planned(req, old(world.dir), versions)
                              == if err.Ok? then Some(plans) else None
      ensures world.quiet && err.Err? ==> exists kind :: err == Err({kind}) && Refuses(req, old(world.dir), versions, kind)
    {
      hide Tree, Accounted, Touches, SlotsStay;
      plans := [];
      world.Interfere();
      var s;
      s, err := ReadPath(world, req.path);
      if err.Err? { return; }
      if RevisionOf(s) != req.revision { return [], Err({Stale}); }
      match req {
        case Write(p, _, content, isNil) =>
          plans := [WritePlan(p, s, content, isNil)];
        case Delete(p, _) =>
          if s.Absent? { return [], Err({Missing}); }
          plans := [DeletePlan(p, s)];
        case Restore(p, _, version) =>
          var failed := world.Faulty();
          if failed { return [], Err({System}); }
          if version !in versions || versions[version].length > RECORD_LIMIT { return [], Err({System}); }
          if !Loadable(versions, version, p) { return [], Err({Invalid}); }
          plans := [RestorePlan(p, s, versions[version].before)];
      }
    }

    // Everything that is decided before a version is retained.
    method Prepare(req: Request) returns (plans: seq<Plan>, err: Outcome)
      requires Valid() && !req.Read?
      modifies world
      ensures Valid() && Waited() && !err.Is(Unknown)
      ensures err.Ok? ==> DistinctPaths(plans) && forall k :: 0 <= k < |plans| ==> Fits(plans[k].before)
      ensures world.quiet ==> Planned(req, old(world.dir), versions) == if err.Ok? then Some(plans) else None
      ensures world.quiet && err.Err? ==> exists kind :: err == Err({kind}) && Refuses(req, old(world.dir), versions, kind)
    {
      hide Tree, Accounted, Touches, SlotsStay;
      plans := [];
      if req.ApplyPatch? {
        var edits := PatchGrammar.ParsePatch(req.text);
        if edits.None? { return [], Err({Invalid}); }
        PatchGrammar.ParsedClaims(req.text);
        plans, err := PlanEdits(edits.value);
      } else {
        if req.Write? && |req.content| > MAX_FILE_BYTES { return [], Err({TooLarge}); }
        if !Acceptable(req) || req.revision == Blank { return [], Err({Invalid}); }
        plans, err := PlanSingle(req);
      }
    }

    // Retain both versions of every path, then replace them.
    method Carry(plans: seq<Plan>) returns (receipts: seq<Receipt>, err: Outcome, ghost done: nat)
      requires Valid() && DistinctPaths(plans)
      modifies this`versions, world
      ensures Valid() && done <= |receipts|
      ensures forall v :: v in old(versions) ==> v in versions && versions[v] == old(versions)[v]
      ensures old(world.orphaned) <= world.orphaned && (world.orphaned - old(world.orphaned)) !! old(world.dir.inodes.Keys)
      ensures world.touched <= old(world.touched) + set k | 0 <= k <= done && k < |receipts| :: receipts[k].path
      ensures err.Ok? ==> done == |receipts|
      ensures err.Err? && !err.Is(Unknown) ==> done == 0 && world.touched == old(world.touched)
      ensures err.Ok? ==> |receipts| == |plans| && forall k :: 0 <= k < |plans| ==> Described(receipts[k], plans[k], versions)
      ensures world.quiet && !AllFit(plans) ==> err == Err({TooLarge}) && world.dir == old(world.dir) && receipts == []
      ensures world.quiet && Ready(plans, old(world.dir)) && Simple(plans) ==>
                && Carried(plans, receipts, done, old(world.dir), world.dir, versions)
                && (err.Ok? <==> done == |plans|) && (err.Ok? <==> Compatible(plans, old(world.dir)))
                && (err.Err? ==> done < |plans| && err == Err(Blocked(plans, done)))
    {
      hide Tree, Accounted, Touches, SlotsStay;
      done := 0;
      receipts, err := Retain(plans);
      if err.Err? { return [], err, 0; }
      assert Slotted(plans, receipts);
      var n;
      n, err := ReplaceAll(plans, receipts);
      done := n;
      SamePaths(plans, receipts, versions, n);
    }

    // Execute, for the operations that change files. `done` paths were replaced.
    method Execute(req: Request) returns (receipts: seq<Receipt>, err: Outcome, ghost done: nat)
      requires Valid() && !req.Read?
      modifies this`versions, world
      ensures Valid() && done <= |receipts|
      ensures forall v :: v in old(versions) ==> v in versions && versions[v] == old(versions)[v]
      // No inode that existed before loses its last link to the worker.
      ensures old(world.orphaned) <= world.orphaned && (world.orphaned - old(world.orphaned)) !! old(world.dir.inodes.Keys)
      // Whatever happens, only a prefix of the planned paths is touched, ...
      ensures world.touched <= old(world.touched) + set k | 0 <= k <= done && k < |receipts| :: receipts[k].path
      ensures err.Ok? ==> done == |receipts|
      // ... and unless the error says so, none at all.
      ensures err.Err? && !err.Is(Unknown) ==> done == 0 && world.touched == old(world.touched)
      // Left alone, a request succeeds exactly when it has a plan that fits and whose paths do
      // not stand in each other's way.
      ensures world.quiet ==>
                var plan := Planned(req, old(world.dir), old(versions));
                && (err.Ok? <==> plan.Some? && AllFit(plan.value) && Compatible(plan.value, old(world.dir)))
                // Without such a plan nothing happens; with one, the paths that were finished, all
                // of them or a prefix, are what the plan says, and every receipt describes its path.
                && (plan.None? || !AllFit(plan.value) ==> world.dir == old(world.dir) && done == 0 && receipts == [])
                && (plan.Some? && AllFit(plan.value) ==>
                      && Carried(plan.value, receipts, done, old(world.dir), world.dir, versions)
                      && (err.Ok? <==> done == |plan.value|))
                // Every failure says why.
                && (plan.None? ==> exists kind :: err == Err({kind}) && Refuses(req, old(world.dir), old(versions), kind))
                && (plan.Some? && !AllFit(plan.value) ==> err == Err({TooLarge}))
                && (plan.Some? && AllFit(plan.value) && err.Err? ==>
                      done < |plan.value| && err == Err(Blocked(plan.value, done)))
    {
      hide Tree, Accounted, Touches, SlotsStay;
      receipts, done := [], 0;
      var cancelled := world.Faulty();
      if cancelled { return [], Err({System}), 0; }
      var plans;
      plans, err := Prepare(req);
      if err.Err? { return; }
      if world.quiet { PlannedFrom(req, world.dir, versions); }
      receipts, err, done := Carry(plans);
    }
  }

  // A plan whose paths showed what it started from was carried out for the first `done` paths.
  ghost predicate Carried(plans: seq<Plan>, receipts: seq<Receipt>, done: nat, before: Dir, after: Dir,
                          versions: map<nat, Saved>) {
    && Ready(plans, before) && Simple(plans) && DistinctPaths(plans)
    && done <= |plans| && Apart(plans, done, before) && Realised(plans, done, before, after)
    && |receipts| == |plans|
    && forall k :: 0 <= k < |plans| ==> Described(receipts[k], plans[k], versions)
  }

  lemma SamePaths(plans: seq<Plan>, receipts: seq<Receipt>, versions: map<nat, Saved>, done: nat)
    requires |receipts| == |plans| && forall k :: 0 <= k < |plans| ==> Described(receipts[k], plans[k], versions)
    ensures (set k | 0 <= k <= done && k < |plans| :: plans[k].path)
            == (set k | 0 <= k <= done && k < |receipts| :: receipts[k].path)
  {
  }

  // ---- A patch is a map update.

  function AllContents(d: Dir): Patch.Files {
    map p | p in d.files && d.Look(p).Present? :: d.Look(p).content
  }

  lemma PathRealised(changes: seq<Patch.Change>, seen: map<string, Snapshot>, blanks: set<string>, files: Patch.Files,
                     before: Dir, after: Dir, p: string)
    requires Distinct(Patch.Paths(changes))
    requires Realised(PlansFor(changes, seen, blanks), |changes|, before, after)
    requires p in files <==> before.Look(p).Present?
    requires p in files ==> files[p] == before.Look(p).content
    ensures var m := Patch.ApplyChanges(files, changes);
            && (p in m <==> after.Look(p).Present?)
            && (p in m ==> m[p] == after.Look(p).content)
  {
    var plans := PlansFor(changes, seen, blanks);
    if p in Patch.Paths(changes) {
      var k :| 0 <= k < |changes| && Patch.Paths(changes)[k] == p;
      Patch.ChangesAt(files, changes, k);
      assert plans[k].path == p && plans[k].after == AfterChange(changes[k], SeenAt(seen, p));
    } else {
      Patch.ChangesElsewhere(files, changes, p);
      forall k | 0 <= k < |plans| ensures plans[k].path != p {
        assert Patch.Paths(changes)[k] != p;
      }
    }
  }

  // A patch that was carried out left exactly what applying its edits one after another
  // to the file contents gives.
  lemma PatchIsSequential(edits: seq<Patch.Edit>, before: Dir, after: Dir)
    requires Distinct(Patch.AllClaims(edits)) && PlannedEdits(edits, before).Some?
    requires var plans := PlannedEdits(edits, before).value; Realised(plans, |plans|, before, after)
    ensures Patch.Sequential(edits, AllContents(before)) == Some(AllContents(after))
  {
    var seen := Seen(Patch.AllClaims(edits), before);
    var files := AllContents(before);
    Patch.PlanReadsClaims(edits, Contents(seen), files);
    Patch.PlanIsSequential(edits, files);
    Patch.PlanPathsDistinct(edits, files);
    ContentsRealised(Patch.PlanOf(edits, files).value, seen, Blanks(edits), before, after);
  }

  lemma ContentsRealised(changes: seq<Patch.Change>, seen: map<string, Snapshot>, blanks: set<string>, before: Dir,
                         after: Dir)
    requires Distinct(Patch.Paths(changes))
    requires Realised(PlansFor(changes, seen, blanks), |changes|, before, after)
    ensures Patch.ApplyChanges(AllContents(before), changes) == AllContents(after)
  {
    hide Realised, AllContents, PlansFor, Patch.ApplyChanges;
    var m, a := Patch.ApplyChanges(AllContents(before), changes), AllContents(after);
    forall p ensures SameAt(m, a, p) { ContentRealised(changes, seen, blanks, before, after, p); }
    SameMaps(m, a);
  }

  ghost predicate SameAt(a: Patch.Files, b: Patch.Files, p: string) {
    (p in a <==> p in b) && (p in a ==> a[p] == b[p])
  }

  lemma SameMaps(a: Patch.Files, b: Patch.Files)
    requires forall p :: SameAt(a, b, p)
    ensures a == b
  {
    forall p ensures p in a <==> p in b { assert SameAt(a, b, p); }
    forall p | p in a ensures a[p] == b[p] { assert SameAt(a, b, p); }
  }

  lemma ContentRealised(changes: seq<Patch.Change>, seen: map<string, Snapshot>, blanks: set<string>, before: Dir,
                        after: Dir, p: string)
    requires Distinct(Patch.Paths(changes))
    requires Realised(PlansFor(changes, seen, blanks), |changes|, before, after)
    ensures SameAt(Patch.ApplyChanges(AllContents(before), changes), AllContents(after), p)
  {
    ContentsAt(before, p);
    ContentsAt(after, p);
    PathRealised(changes, seen, blanks, AllContents(before), before, after, p);
  }

  lemma ContentsAt(d: Dir, p: string)
    ensures p in AllContents(d) <==> d.Look(p).Present?
    ensures p in AllContents(d) ==> AllContents(d)[p] == d.Look(p).content
  {
  }

  // So when an undisturbed patch succeeds, the contents of all files are what its edits give one
  // after another. An error that is not "unknown" leaves all contents as they were.
  method ExecutePatch(files: Files, text: string) returns (err: Outcome)
    requires files.Valid() && files.world.quiet
    modifies files`versions, files.world
    ensures files.Valid()
    ensures var plan := Planned(ApplyPatch(text), old(files.world.dir), old(files.versions));
            err.Ok? <==> plan.Some? && AllFit(plan.value) && Compatible(plan.value, old(files.world.dir))
    ensures err.Ok? ==>
              && PatchGrammar.Parsed(text).Some?
              && Patch.Sequential(PatchGrammar.Parsed(text).value, AllContents(old(files.world.dir)))
                 == Some(AllContents(files.world.dir))
    ensures err.Err? && !err.Is(Unknown) ==> AllContents(files.world.dir) == AllContents(old(files.world.dir))
  {
    hide Tree, Accounted, AllContents, PlannedEdits, Apart, Ready, Simple;
    ghost var before := files.world.dir;
    ghost var plan := Planned(ApplyPatch(text), before, files.versions);
    ghost var done;
    var receipts;
    receipts, err, done := files.Execute(ApplyPatch(text));
    if err.Ok? {
      PatchGrammar.ParsedClaims(text);
      PatchIsSequential(PatchGrammar.Parsed(text).value, before, files.world.dir);
    } else if !err.Is(Unknown) {
      SameContents(before, files.world.dir);
    }
  }

  lemma SameContents(a: Dir, b: Dir)
    requires forall p :: a.Look(p) == b.Look(p)
    ensures AllContents(a) == AllContents(b)
  {
    var m, n := AllContents(a), AllContents(b);
    forall p ensures SameAt(m, n, p) {
      ContentsAt(a, p);
      ContentsAt(b, p);
    }
    SameMaps(m, n);
  }

  // ---- Restore undoes.

  lemma PlannedPaths(req: Request, d: Dir, versions: map<nat, Saved>)
    requires Planned(req, d, versions).Some?
    ensures forall k :: 0 <= k < |Planned(req, d, versions).value| ==>
                          PatchGrammar.FilePath(Planned(req, d, versions).value[k].path)
  {
    if req.ApplyPatch? {
      PatchGrammar.ParsedClaims(req.text);
      PlannedEditsFrom(PatchGrammar.Parsed(req.text).value, d);
    }
  }

  // The path shows what the plan asked for, and can be written, or it was not reached.
  ghost predicate Undoable(p: Plan, d: Dir) {
    && Loads(p)
    && (|| (d.Look(p.path) == p.after && d.Clear(p.path) && Ancestors(p.path) <= d.dirs)
        || d.Look(p.path) == p.before)
  }

  // Restoring one receipt's version, with its After as the revision: it succeeds where the
  // path shows what the receipt says, and changes nothing where the path was not reached.
  method UndoOne(files: Files, ghost plan: Plan, receipt: Receipt) returns (err: Outcome)
    requires files.Valid() && files.world.quiet && PatchGrammar.FilePath(plan.path)
    requires Described(receipt, plan, files.versions) && Fits(plan.before) && Fits(plan.after)
    modifies files`versions, files.world
    ensures files.Valid() && old(files.world.dir).dirs <= files.world.dir.dirs
    ensures forall v :: v in old(files.versions) ==> v in files.versions && files.versions[v] == old(files.versions)[v]
    ensures var d := old(files.world.dir);
            Loads(plan) && d.Look(plan.path) == plan.after && d.Clear(plan.path) && Ancestors(plan.path) <= d.dirs ==> err.Ok?
    ensures Undoable(plan, old(files.world.dir)) ==>
              && files.world.dir.dirs == old(files.world.dir).dirs
              && forall p :: files.world.dir.Look(p) == if p == plan.path then plan.before else old(files.world.dir).Look(p)
  {
    hide Tree, Accounted, Planned, Carried, Loads, Loadable, RecordLength;
    var req := Restore(receipt.path, receipt.after, receipt.version);
    ghost var d, versions := files.world.dir, files.versions;
    ghost var back := RestorePlan(plan.path, plan.after, plan.before);
    Housed(d, plan.path);
    RestoreAsks(req, plan, d, versions);
    ghost var done;
    var receipts;
    receipts, err, done := files.Execute(req);
    if Planned(req, d, versions) == Some([back]) {
      CarriedBack(back, receipts, done, d, files.world.dir, files.versions);
    }
  }

  // What a plan for one path did.
  lemma CarriedBack(p: Plan, receipts: seq<Receipt>, done: nat, before: Dir, after: Dir, versions: map<nat, Saved>)
    requires Carried([p], receipts, done, before, after, versions)
    ensures done <= 1 && after.dirs == before.dirs + (if done == 1 then Ancestors(p.path) else {})
    ensures done == 1 && p.before.Absent? && p.after.Absent? ==> Ancestors(p.path) <= before.dirs
    ensures forall q :: after.Look(q) == if q == p.path && done == 1 then p.after else before.Look(q)
  {
    assert [p][0] == p && Ways([p], 0) == {} && Ways([p], 1) == Ways([p], 0) + Ancestors(p.path);
  }

  lemma Housed(d: Dir, p: string)
    requires Sound(d)
    ensures d.Look(p).Present? ==> Ancestors(p) <= d.dirs
    ensures Ancestors(p) <= d.dirs ==> d.dirs + Ancestors(p) == d.dirs
  {
  }

  // What restoring a version asks for.
  lemma RestoreAsks(req: Request, plan: Plan, d: Dir, versions: map<nat, Saved>)
    requires req.Restore? && req.path == plan.path && PatchGrammar.FilePath(plan.path) && req.revision == RevisionOf(plan.after)
    requires req.version in versions && versions[req.version] == SavedFor(plan)
    requires Fits(plan.before)
    ensures Planned(req, d, versions)
            == if Readable(d, plan.path) && d.Look(plan.path) == plan.after && Loads(plan)
               then Some([RestorePlan(plan.path, plan.after, plan.before)])
               else None
  {
  }

  // Every record of the plans can be read again, as PlannedLoads says of all but very long paths.
  ghost predicate AllLoad(plans: seq<Plan>) {
    forall k :: 0 <= k < |plans| ==> Loads(plans[k])
  }

  // Whatever became of a request, restoring every receipt gives every path its former content,
  // mode or absence. Directories that were made on the way stay.
  method ExecuteAndUndo(files: Files, req: Request) returns (err: Outcome)
    requires files.Valid() && files.world.quiet && !req.Read?
    modifies files`versions, files.world
    ensures files.Valid()
    ensures var plan := Planned(req, old(files.world.dir), old(files.versions));
            (plan.Some? ==> AllLoad(plan.value)) ==> forall p :: files.world.dir.Look(p) == old(files.world.dir).Look(p)
    ensures old(files.world.dir).dirs <= files.world.dir.dirs
    ensures err.Ok? <==> var plan := Planned(req, old(files.world.dir), old(files.versions));
                         plan.Some? && AllFit(plan.value) && Compatible(plan.value, old(files.world.dir))
  {
    ghost var first := files.world.dir;
    ghost var plan := Planned(req, first, files.versions);
    if plan.Some? { PlannedPaths(req, first, files.versions); }
    ghost var done;
    var receipts;
    receipts, err, done := files.Execute(req);
    if |receipts| == 0 { return; }
    UndoAll(files, plan.value, receipts, done, first);
  }

  method UndoAll(files: Files, ghost plans: seq<Plan>, receipts: seq<Receipt>, ghost done: nat, ghost first: Dir)
    requires files.Valid() && files.world.quiet && Sound(first)
    requires Carried(plans, receipts, done, first, files.world.dir, files.versions) && AllFit(plans)
    requires forall k :: 0 <= k < |plans| ==> PatchGrammar.FilePath(plans[k].path)
    modifies files`versions, files.world
    ensures files.Valid()
    ensures AllLoad(plans) ==> forall p :: files.world.dir.Look(p) == first.Look(p)
    ensures old(files.world.dir).dirs <= files.world.dir.dirs
    ensures AllLoad(plans) ==> files.world.dir.dirs == old(files.world.dir).dirs
  {
    hide Tree, Accounted, Loads, Apart, Simple;
    var k := 0;
    while k < |receipts|
      invariant 0 <= k <= |receipts| == |plans|
      invariant files.Valid()
      invariant forall j :: 0 <= j < |receipts| ==> Described(receipts[j], plans[j], files.versions)
      invariant AllLoad(plans) ==> Pending(plans, k, done, first, files.world.dir)
      invariant old(files.world.dir).dirs <= files.world.dir.dirs
      invariant AllLoad(plans) ==> files.world.dir.dirs == first.dirs + Ways(plans, done)
    {
      ghost var before := files.world.dir;
      if AllLoad(plans) && k < done { PendingClear(plans, k, done, first, before); }
      var restored := UndoOne(files, plans[k], receipts[k]);
      if AllLoad(plans) { PendingNext(plans, k, done, first, before, files.world.dir); }
      k := k + 1;
    }
  }

  // From plan k up to `done` the paths still show what was asked for; every other path is as
  // it was.
  ghost predicate Pending(plans: seq<Plan>, k: nat, done: nat, first: Dir, now: Dir)
    requires done <= |plans|
  {
    && (forall j :: k <= j < done ==> now.Look(plans[j].path) == plans[j].after)
    && (forall p :: (forall j :: k <= j < done ==> plans[j].path != p) ==> now.Look(p) == first.Look(p))
  }

  lemma PendingBetween(plans: seq<Plan>, k: nat, first: Dir, now: Dir)
    requires Sound(first) && Ready(plans, first) && Compatible(plans, first)
    requires Pending(plans, k, |plans|, first, now) && now.dirs == first.dirs + Ways(plans, |plans|)
    ensures Between(plans, first, now)
  {
    WaysAre(plans, |plans|);
    forall j | 0 <= j < |plans| && plans[j].after.Absent? ensures Ancestors(plans[j].path) <= first.dirs {
      RemovalHasWay(plans, first, j);
    }
    forall p | now.Look(p).Present? && first.Look(p).Absent?
      ensures exists j :: 0 <= j < |plans| && plans[j].path == p && plans[j].after.Present?
    {
      var j :| k <= j < |plans| && plans[j].path == p;
    }
  }

  lemma {:induction false} WaysPrefix(plans: seq<Plan>, n: nat, m: nat)
    requires m <= n <= |plans|
    ensures Ways(plans[..n], m) == Ways(plans, m)
  {
    if m > 0 { WaysPrefix(plans, n, m - 1); }
  }

  // What was carried out can be undone.
  lemma PendingClear(plans: seq<Plan>, k: nat, done: nat, first: Dir, now: Dir)
    requires Sound(first) && Sound(now) && Ready(plans, first) && Simple(plans)
    requires k < done <= |plans| && Apart(plans, done, first) && Pending(plans, k, done, first, now)
    requires now.dirs == first.dirs + Ways(plans, done)
    ensures now.Clear(plans[k].path) && Ancestors(plans[k].path) <= now.dirs
  {
    var some := plans[..done];
    assert some[k] == plans[k];
    WaysAre(plans, done);
    WaysPrefix(plans, done, done);
    PendingPrefix(plans, k, done, first, now);
    PendingBetween(some, k, first, now);
    StaysClear(some, first, now, k);
  }

  lemma PendingPrefix(plans: seq<Plan>, k: nat, done: nat, first: Dir, now: Dir)
    requires Ready(plans, first) && Simple(plans) && done <= |plans|
    requires Apart(plans, done, first) && Pending(plans, k, done, first, now)
    ensures var some := plans[..done];
            && Ready(some, first) && Simple(some) && Compatible(some, first)
            && Pending(some, k, |some|, first, now)
  {
    var some := plans[..done];
    assert forall j :: 0 <= j < done ==> some[j] == plans[j];
  }

  lemma PendingNext(plans: seq<Plan>, k: nat, done: nat, first: Dir, before: Dir, after: Dir)
    requires k < |plans| && done <= |plans| && DistinctPaths(plans) && Pending(plans, k, done, first, before)
    requires first.Look(plans[k].path) == plans[k].before
    requires forall p :: after.Look(p) == if p == plans[k].path then plans[k].before else before.Look(p)
    ensures Pending(plans, k + 1, done, first, after)
  {
    forall p | (forall j :: k + 1 <= j < done ==> plans[j].path != p) && p != plans[k].path
      ensures after.Look(p) == first.Look(p)
    {
      assert forall j :: k <= j < done ==> plans[j].path != p;
    }
  }

  // Two new files of which one would have to be a directory for the other: the patch is
  // planned, and fails half way.
  lemma NestedAdds(edits: seq<Patch.Edit>, d: Dir)
    requires edits == [Patch.Add("a", "x\n"), Patch.Add("a/b", "y\n")]
    requires d.Clear("a") && d.Clear("a/b") && d.Look("a").Absent? && d.Look("a/b").Absent?
    ensures PlannedEdits(edits, d).Some? && AllFit(PlannedEdits(edits, d).value)
    ensures !Compatible(PlannedEdits(edits, d).value, d)
    ensures Above("a", "a/b")
  {
    var seen := Seen(Patch.AllClaims(edits), d);
    assert Patch.AllClaims(edits[1..][1..]) == [];
    assert Patch.AllClaims(edits) == ["a", "a/b"];
    assert edits[1..] == [edits[1]] && edits[1..][1..] == [];
    assert Patch.PlanOf([], Contents(seen)) == Some([]);
    assert Patch.ChangesOf(edits[1], Contents(seen)) == Some([Patch.Change.Write("a/b", "y\n")]);
    assert Patch.ChangesOf(edits[0], Contents(seen)) == Some([Patch.Change.Write("a", "x\n")]);
    assert Patch.PlanOf(edits[1..], Contents(seen)) == Some([Patch.Change.Write("a/b", "y\n")] + []);
    var changes := [Patch.Change.Write("a", "x\n"), Patch.Change.Write("a/b", "y\n")];
    assert [changes[0]] + [changes[1]] == changes;
    assert [changes[0]] + ([changes[1]] + []) == changes;
    assert Patch.PlanOf(edits, Contents(seen)) == Some(changes);
    var plans := PlansFor(changes, seen, Blanks(edits));
    assert plans[0].path == "a" && plans[1].path == "a/b" && plans[0].after.Present? && plans[1].after.Present?;
    assert "a/b"[..1] == "a";
    assert PlannedEdits(edits, d) == Some(plans);
  }

  lemma OneLinePrinted(path: string, line: string, content: string)
    requires '\n' !in line && content == line + "\n"
    ensures PatchGrammar.Printable(Patch.Add(path, content))
    ensures PatchGrammar.PrintEdit(Patch.Add(path, content)) == [PatchGrammar.ADD + path, "+" + line]
  {
    Text.SplitJoin([line], '\n');
    assert content[..|line|] == line && Text.Lines(content) == [line];
    assert PatchGrammar.Marked('+', [line]) == ["+" + line];
  }

  lemma {:induction false} JoinShort(parts: seq<string>, sep: char, n: nat)
    requires forall k :: 0 <= k < |parts| ==> |parts[k]| <= n
    ensures |Text.Join(parts, sep)| <= |parts| * (n + 1)
  {
    if parts != [] { JoinShort(parts[1..], sep, n); }
  }

  lemma ShortPaths()
    ensures PatchGrammar.FilePath("a") && PatchGrammar.FilePath("a/b")
  {
    Text.SplitJoin(["a"], '/');
    Text.SplitJoin(["a", "b"], '/');
    assert Text.Join(["a", "b"][1..], '/') == "b";
    assert Text.Join(["a", "b"], '/') == "a" + ['/'] + "b" == "a/b";
    assert !PatchGrammar.IsGit("a") && !PatchGrammar.IsGit("b");
  }

  const NESTED := ["*** Add File: a", "+x", "*** Add File: a/b", "+y"]

  lemma NestedPrinted(edits: seq<Patch.Edit>)
    requires edits == [Patch.Add("a", "x\n"), Patch.Add("a/b", "y\n")]
    ensures PatchGrammar.PrintEdits(edits) == NESTED && Patch.AllClaims(edits) == ["a", "a/b"]
    ensures PatchGrammar.Printable(edits[0]) && PatchGrammar.Printable(edits[1])
  {
    OneLinePrinted("a", "x", "x\n");
    OneLinePrinted("a/b", "y", "y\n");
    assert PatchGrammar.ADD + "a" == NESTED[0] && PatchGrammar.ADD + "a/b" == NESTED[2];
    assert "+" + "x" == NESTED[1] && "+" + "y" == NESTED[3];
    assert edits[1..] == [edits[1]] && edits[1..][1..] == [];
    assert PatchGrammar.PrintEdits([]) == [] && Patch.AllClaims([]) == [];
    assert Patch.AllClaims(edits[1..]) == ["a/b"] + [];
    assert Patch.AllClaims(edits) == ["a"] + ["a/b"];
    assert PatchGrammar.PrintEdits(edits[1..]) == PatchGrammar.PrintEdit(edits[1]) + [];
    assert PatchGrammar.PrintEdits(edits) == PatchGrammar.PrintEdit(edits[0]) + PatchGrammar.PrintEdit(edits[1]);
  }

  // The text of such a patch.
  const NESTED_PATCH := Text.Join([PatchGrammar.BEGIN] + NESTED + [PatchGrammar.END], '\n')

  lemma NestedParsed()
    ensures PatchGrammar.Parsed(NESTED_PATCH) == Some([Patch.Add("a", "x\n"), Patch.Add("a/b", "y\n")])
  {
    hide PatchGrammar.FilePath, Text.Join, PatchGrammar.PrintEdits, PatchGrammar.Printable, PatchGrammar.Parsed;
    var edits := [Patch.Add("a", "x\n"), Patch.Add("a/b", "y\n")];
    NestedPrinted(edits);
    ShortPaths();
    JoinShort([PatchGrammar.BEGIN] + NESTED + [PatchGrammar.END], '\n', 20);
    PatchGrammar.PatchPrinted(edits);
  }

  lemma NestedPatch(d: Dir, versions: map<nat, Saved>)
    requires d.Clear("a") && d.Clear("a/b") && d.Look("a").Absent? && d.Look("a/b").Absent?
    ensures var plan := Planned(ApplyPatch(NESTED_PATCH), d, versions);
            plan.Some? && AllFit(plan.value) && !Compatible(plan.value, d)
  {
    hide PlannedEdits, PatchGrammar.Parsed, AllFit, Compatible;
    NestedParsed();
    NestedAdds([Patch.Add("a", "x\n"), Patch.Add("a/b", "y\n")], d);
  }
}
