// What a file request does to a directory that nobody else touches: when it succeeds, and what
// every path shows then (Files.Execute of kit/tools/files.go).
module FileRequests {
  import opened FileSystem
  import opened Publication
  import opened Sequences
  import opened Wrappers
  import opened FileWorker
  import VersionRecord
  import Patch
  import PatchGrammar

  // ---- What is left.

  // One path shows this, and every other one what it showed.
  ghost predicate OnlyAt(before: Dir, after: Dir, path: string, now: Snapshot) {
    forall p :: after.Look(p) == if p == path then now else before.Look(p)
  }

  // The mode of a file that is not new, but 0600 for a new one.
  function KeptMode(s: Snapshot): Mode {
    if s.Present? then s.mode else 0x180
  }

  // The contents are what the edits give one after another. A file keeps its mode; new files,
  // and files of a claimed path that had no mode at all, get 0600.
  ghost predicate Patched(edits: seq<Patch.Edit>, before: Dir, after: Dir) {
    && Patch.Sequential(edits, AllContents(before)) == Some(AllContents(after))
    && forall p :: after.Look(p).Present? ==>
         after.Look(p).mode == if p in Patch.AllClaims(edits) && KeptMode(before.Look(p)) == 0 then 0x180
                               else KeptMode(before.Look(p))
  }

  // What a request leaves.
  ghost predicate Left(req: Request, before: Dir, after: Dir, versions: map<nat, Saved>) {
    match req
    case Read(_) => false
    case Write(p, _, content, _) => OnlyAt(before, after, p, Present(KeptMode(before.Look(p)), content))
    case Delete(p, _) => OnlyAt(before, after, p, Absent)
    case Restore(p, _, version) => version in versions && OnlyAt(before, after, p, versions[version].before)
    case ApplyPatch(text) => PatchGrammar.Parsed(text).Some? && Patched(PatchGrammar.Parsed(text).value, before, after)
  }

  // ---- When it succeeds.

  // A path that is read without error: it is no directory, no file is on the way to it, and it
  // shows nothing or at most 8 MiB.
  ghost predicate Opens(d: Dir, path: string) {
    && path !in d.dirs && (forall a :: Above(a, path) ==> a !in d.files)
    && (d.Look(path).Present? ==> |d.Look(path).content| <= 8 * 1024 * 1024)
  }

  // The request names what the path shows.
  ghost predicate Current(d: Dir, path: string, revision: Revision) {
    && PatchGrammar.FilePath(path) && Opens(d, path)
    && match d.Look(path)
       case Absent => revision == AbsentRevision
       case Present(mode, content) => revision == Digest(mode, content)
  }

  // Every claimed path can be read, the edits apply one after another, no file that they leave
  // is too large, and none is on the way to another.
  ghost predicate Applicable(edits: seq<Patch.Edit>, d: Dir) {
    var claims, files := Patch.AllClaims(edits), Patch.Sequential(edits, AllContents(d));
    && (forall p :: p in claims ==> Opens(d, p))
    && files.Some?
    && (forall p :: p in claims && p in files.value ==> |files.value[p]| <= 8 * 1024 * 1024)
    && (forall p, q :: p in claims && q in claims && p in files.value && q in files.value ==> !Above(p, q))
  }

  // The version is one of this path, its record can be read in full, and a version without a
  // file asks for no directory that is not there.
  ghost predicate Restorable(d: Dir, path: string, versions: map<nat, Saved>, version: nat) {
    && version in versions && versions[version].path == path
    && versions[version].length <= 3 * 8 * 1024 * 1024
    && match versions[version].before
       case Absent => d.Look(path).Absent? ==> Ancestors(path) <= d.dirs
       case Present(_, content) => |content| <= 8 * 1024 * 1024
  }

  ghost predicate Succeeds(req: Request, d: Dir, versions: map<nat, Saved>) {
    match req
    case Read(_) => false
    case Write(p, revision, content, _) => Current(d, p, revision) && |content| <= 8 * 1024 * 1024
    case Delete(p, revision) => Current(d, p, revision) && d.Look(p).Present?
    case Restore(p, revision, version) => Current(d, p, revision) && Restorable(d, p, versions, version)
    case ApplyPatch(text) => PatchGrammar.Parsed(text).Some? && Applicable(PatchGrammar.Parsed(text).value, d)
  }

  // ---- Both directions.

  // Revisions tell snapshots apart, and no snapshot has the empty one.
  lemma RevisionsTell(a: Snapshot, b: Snapshot)
    ensures (RevisionOf(a) == RevisionOf(b) <==> a == b) && RevisionOf(a) != Blank
  {
  }

  lemma OpensIsReadable(d: Dir, path: string)
    ensures Opens(d, path) <==> Readable(d, path)
  {
  }

  lemma OnePlan(p: Plan, d: Dir)
    ensures Compatible([p], d) <==> (p.before.Absent? && p.after.Absent? ==> Ancestors(p.path) <= d.dirs)
    ensures AllFit([p]) <==> Fits(p.after)
  {
    assert !Above(p.path, p.path);
    assert [p][0] == p;
  }

  lemma OnePlanRealised(p: Plan, before: Dir, after: Dir)
    requires Realised([p], 1, before, after)
    ensures OnlyAt(before, after, p.path, p.after)
  {
    assert [p][0] == p;
  }

  // A request for one path.
  lemma SingleSucceeds(req: Request, d: Dir, versions: map<nat, Saved>)
    requires !req.Read? && !req.ApplyPatch?
    ensures var plan := Planned(req, d, versions);
            Succeeds(req, d, versions) <==> plan.Some? && AllFit(plan.value) && Compatible(plan.value, d)
  {
    var plan := Planned(req, d, versions);
    OpensIsReadable(d, req.path);
    if plan.Some? { OnePlan(plan.value[0], d); }
  }

  lemma SingleLeaves(req: Request, before: Dir, after: Dir, versions: map<nat, Saved>)
    requires !req.Read? && !req.ApplyPatch? && Planned(req, before, versions).Some?
    requires var plans := Planned(req, before, versions).value; Realised(plans, |plans|, before, after)
    ensures Left(req, before, after, versions)
  {
    hide Realised;
    OnePlanRealised(Planned(req, before, versions).value[0], before, after);
  }

  // What the plan of a patch asks for at its paths.
  ghost predicate PlanShows(p: Plan, files: Patch.Files) {
    && (p.after.Present? <==> p.path in files)
    && (p.after.Present? ==>
          && p.after.content == files[p.path]
          && p.after.mode == if KeptMode(p.before) == 0 then 0x180 else KeptMode(p.before))
    && (p.before.Present? || p.after.Present?)
  }

  lemma PatchPlans(edits: seq<Patch.Edit>, d: Dir)
    requires Distinct(Patch.AllClaims(edits)) && PlannedEdits(edits, d).Some?
    ensures var plans, files := PlannedEdits(edits, d).value, Patch.Sequential(edits, AllContents(d));
            && files.Some?
            && (forall k :: 0 <= k < |plans| ==>
                  && plans[k].path in Patch.AllClaims(edits) && d.Look(plans[k].path) == plans[k].before
                  && PlanShows(plans[k], files.value))
            && (forall p :: p in Patch.AllClaims(edits) ==> exists k :: 0 <= k < |plans| && plans[k].path == p)
  {
    var seen, files := Seen(Patch.AllClaims(edits), d), AllContents(d);
    SeenContents(edits, d);
    Patch.PlanIsSequential(edits, files);
    Patch.PlanPathsDistinct(edits, files);
    var changes, plans := Patch.PlanOf(edits, files).value, PlannedEdits(edits, d).value;
    forall k | 0 <= k < |plans|
      ensures plans[k].path in Patch.AllClaims(edits) && d.Look(plans[k].path) == plans[k].before
      ensures PlanShows(plans[k], Patch.ApplyChanges(files, changes))
    {
      Patch.ChangeIsClaimed(edits, files, k);
      Patch.ChangesAt(files, changes, k);
      if changes[k].Erase? {
        Patch.ErasesExist(edits, files, k);
        ContentsAt(d, changes[k].path);
      }
    }
    forall p | p in Patch.AllClaims(edits) ensures exists k :: 0 <= k < |plans| && plans[k].path == p {
      ClaimPlanned(edits, files, p);
      var k :| 0 <= k < |changes| && changes[k].path == p;
      assert plans[k].path == p;
    }
  }

  lemma ClaimPlanned(edits: seq<Patch.Edit>, files: Patch.Files, p: string)
    requires Patch.PlanOf(edits, files).Some? && p in Patch.AllClaims(edits)
    ensures var changes := Patch.PlanOf(edits, files).value; exists k :: 0 <= k < |changes| && changes[k].path == p
  {
    var changes := Patch.PlanOf(edits, files).value;
    Patch.PlanCoversClaims(edits, files);
    assert p in multiset(Patch.AllClaims(edits));
    assert p in Patch.Paths(changes);
    var k :| 0 <= k < |changes| && Patch.Paths(changes)[k] == p;
    assert changes[k].path == p;
  }

  // Planning against what was read of the claimed paths is planning against all contents.
  lemma SeenContents(edits: seq<Patch.Edit>, d: Dir)
    ensures Patch.PlanOf(edits, Contents(Seen(Patch.AllClaims(edits), d))) == Patch.PlanOf(edits, AllContents(d))
  {
    var seen := Seen(Patch.AllClaims(edits), d);
    forall p | p in Patch.AllClaims(edits)
      ensures p in Contents(seen) <==> p in AllContents(d)
      ensures p in Contents(seen) ==> Contents(seen)[p] == AllContents(d)[p]
    {
      ContentsAt(d, p);
    }
    Patch.PlanReadsClaims(edits, Contents(seen), AllContents(d));
  }

  lemma PatchPlanned(edits: seq<Patch.Edit>, d: Dir)
    requires Distinct(Patch.AllClaims(edits))
    ensures PlannedEdits(edits, d).Some?
            <==> (forall p :: p in Patch.AllClaims(edits) ==> Opens(d, p))
                 && Patch.Sequential(edits, AllContents(d)).Some?
  {
    hide Patch.Sequential, Patch.PlanOf, Opens, Readable;
    SeenContents(edits, d);
    Patch.PlanIsSequential(edits, AllContents(d));
    forall p { OpensIsReadable(d, p); }
  }

  lemma PatchSucceeds(edits: seq<Patch.Edit>, d: Dir)
    requires Distinct(Patch.AllClaims(edits))
    ensures var plan := PlannedEdits(edits, d);
            Applicable(edits, d) <==> plan.Some? && AllFit(plan.value) && Compatible(plan.value, d)
  {
    hide Patch.Sequential, PlannedEdits, Opens;
    PatchPlanned(edits, d);
    if PlannedEdits(edits, d).Some? {
      PatchPlans(edits, d);
      var plans, files := PlannedEdits(edits, d).value, Patch.Sequential(edits, AllContents(d)).value;
      var claims := Patch.AllClaims(edits);
      if AllFit(plans) && Compatible(plans, d) {
        forall p | p in claims && p in files ensures |files[p]| <= 8 * 1024 * 1024 {
          var k :| 0 <= k < |plans| && plans[k].path == p;
          assert PlanShows(plans[k], files) && Fits(plans[k].after);
        }
        forall p, q | p in claims && q in claims && p in files && q in files ensures !Above(p, q) {
          var j :| 0 <= j < |plans| && plans[j].path == p;
          var k :| 0 <= k < |plans| && plans[k].path == q;
          assert PlanShows(plans[j], files) && PlanShows(plans[k], files);
        }
      }
      if Applicable(edits, d) {
        assert forall k :: 0 <= k < |plans| ==> PlanShows(plans[k], files);
      }
    }
  }

  lemma PatchLeaves(edits: seq<Patch.Edit>, before: Dir, after: Dir)
    requires Distinct(Patch.AllClaims(edits)) && PlannedEdits(edits, before).Some?
    requires var plans := PlannedEdits(edits, before).value; Realised(plans, |plans|, before, after)
    ensures Patched(edits, before, after)
  {
    hide Patch.Sequential, PlannedEdits;
    PatchIsSequential(edits, before, after);
    PatchPlans(edits, before);
    var plans, claims := PlannedEdits(edits, before).value, Patch.AllClaims(edits);
    forall p | after.Look(p).Present?
      ensures after.Look(p).mode == if p in claims && KeptMode(before.Look(p)) == 0 then 0x180 else KeptMode(before.Look(p))
    {
      if p in claims {
        var k :| 0 <= k < |plans| && plans[k].path == p;
        assert PlanShows(plans[k], AllContents(after));
      } else {
        assert forall k :: 0 <= k < |plans| ==> plans[k].path != p;
        SameFile(edits, before, after, p);
      }
    }
  }

  lemma SameFile(edits: seq<Patch.Edit>, before: Dir, after: Dir, p: string)
    requires PlannedEdits(edits, before).Some?
    requires var plans := PlannedEdits(edits, before).value;
             Realised(plans, |plans|, before, after) && forall k :: 0 <= k < |plans| ==> plans[k].path != p
    ensures after.Look(p) == before.Look(p)
  {
  }

  // ---- The whole request.

  lemma SucceedsExactly(req: Request, d: Dir, versions: map<nat, Saved>)
    ensures var plan := Planned(req, d, versions);
            Succeeds(req, d, versions) <==> plan.Some? && AllFit(plan.value) && Compatible(plan.value, d)
  {
    match req
    case Read(_) =>
    case ApplyPatch(text) =>
      if PatchGrammar.Parsed(text).Some? {
        PatchGrammar.ParsedClaims(text);
        PatchSucceeds(PatchGrammar.Parsed(text).value, d);
      }
    case _ => SingleSucceeds(req, d, versions);
  }

  lemma LeavesExactly(req: Request, before: Dir, after: Dir, versions: map<nat, Saved>)
    requires Planned(req, before, versions).Some?
    requires var plans := Planned(req, before, versions).value; Realised(plans, |plans|, before, after)
    ensures Left(req, before, after, versions)
  {
    match req
    case ApplyPatch(text) =>
      PatchGrammar.ParsedClaims(text);
      PatchLeaves(PatchGrammar.Parsed(text).value, before, after);
    case _ => SingleLeaves(req, before, after, versions);
  }

  // A receipt tells what its path showed and shows, and its version holds both.
  ghost predicate Tells(r: Receipt, before: Dir, after: Dir, versions: map<nat, Saved>) {
    && r.before == RevisionOf(before.Look(r.path)) && r.after == RevisionOf(after.Look(r.path))
    && r.version in versions && versions[r.version].path == r.path
    && versions[r.version].before == before.Look(r.path) && versions[r.version].after == after.Look(r.path)
    && (r.recovery.Slot? <==> before.Look(r.path).Present?)
  }

  lemma ReceiptsTell(plans: seq<Plan>, receipts: seq<Receipt>, before: Dir, after: Dir, versions: map<nat, Saved>)
    requires Carried(plans, receipts, |plans|, before, after, versions)
    ensures forall k :: 0 <= k < |receipts| ==> Tells(receipts[k], before, after, versions)
  {
    hide Apart, Simple, VersionRecord.RecordLength;
  }

  // A request, left alone: exactly when it succeeds, and what it leaves then. One that fails
  // without "unknown" leaves every path as it was.
  method Perform(files: Files, req: Request) returns (receipts: seq<Receipt>, err: Outcome)
    requires files.Valid() && files.world.quiet && !req.Read?
    modifies files`versions, files.world
    ensures files.Valid()
    ensures err.Ok? <==> Succeeds(req, old(files.world.dir), old(files.versions))
    ensures err.Ok? ==> Left(req, old(files.world.dir), files.world.dir, old(files.versions))
    ensures err.Ok? ==> forall k :: 0 <= k < |receipts| ==>
                          Tells(receipts[k], old(files.world.dir), files.world.dir, files.versions)
    ensures err.Err? && !err.Is(Unknown) ==> forall p :: files.world.dir.Look(p) == old(files.world.dir).Look(p)
  {
    hide Tree, Accounted, Planned, Succeeds, Left, Apart, Ready, Simple, AllFit, Described, Tells;
    ghost var before, versions := files.world.dir, files.versions;
    SucceedsExactly(req, before, versions);
    ghost var done;
    receipts, err, done := files.Execute(req);
    if err.Ok? {
      LeavesExactly(req, before, files.world.dir, versions);
      ReceiptsTell(Planned(req, before, versions).value, receipts, before, files.world.dir, files.versions);
    }
  }
}
