// The publication protocol of kit/tools/files.go: stage the new content, check the
// destination, capture its inode by rename, link the staged file without clobbering,
// and look again at both ends before reporting success.
module Publication {
  import opened FileSystem

  const MAX_FILE_BYTES: nat := 0x80_0000

  // The sentinels an error chain can match with errors.Is.
  datatype Sentinel = Unknown | Stale | Invalid | Missing | Scope | TooLarge | NoMatch | System
  datatype Outcome = Ok | Err(kinds: set<Sentinel>)
  {
    predicate Is(s: Sentinel) { Err? && s in kinds }
  }

  datatype Recovery = NoSlot | Slot(token: nat)

  predicate Fits(s: Snapshot) {
    s.Absent? || |s.content| <= MAX_FILE_BYTES
  }

  // The destination can be read but does not show the planned snapshot.
  predicate Outdated(d: Dir, path: string, before: Snapshot) {
    before != d.Look(path) && path !in d.dirs && Fits(d.Look(path))
  }

  // The destination is as planned, both versions have legal size, and there is a slot for an
  // inode to capture.
  predicate Granted(d: Dir, path: string, before: Snapshot, next: Snapshot, recovery: Recovery) {
    before == d.Look(path) && Fits(before) && Fits(next) && (before.Present? ==> recovery.Slot?)
  }

  // What the worker does, and sees, in a run that reports success: in particular the
  // captured inode reads `before` and the destination reads `next` after the publication.
  function Protocol(path: string, before: Snapshot, next: Snapshot, slot: nat, token: nat): seq<Step> {
    if next.Absent? then Exchanged(path, before, next, slot, token)
    else [Staged(token, next)] + Exchanged(path, before, next, slot, token) + [Discarded(token)]
  }

  function Exchanged(path: string, before: Snapshot, next: Snapshot, slot: nat, token: nat): seq<Step> {
    Opening(path, before, slot) + Closing(path, before, next, slot, token)
  }

  function Opening(path: string, before: Snapshot, slot: nat): seq<Step> {
    if before.Absent? then [SawFile(path, before)]
    else [SawFile(path, before), Captured(path, slot), SawSlot(slot, before)]
  }

  function Closing(path: string, before: Snapshot, next: Snapshot, slot: nat, token: nat): seq<Step> {
    if next.Absent? then Looks(path, before, next, slot)
    else [Published(token, path)] + Looks(path, before, next, slot)
  }

  function Looks(path: string, before: Snapshot, next: Snapshot, slot: nat): seq<Step> {
    if before.Absent? then [SawFile(path, next)] else [SawSlot(slot, before), SawFile(path, next)]
  }

  // What every part of a replacement keeps: its counters, the inodes, the staged names,
  // and the slots other than its own.
  twostate predicate Kept(w: World, slot: Recovery)
    reads w
  {
    && w.tokens == old(w.tokens) && w.orphaned == old(w.orphaned)
    && old(w.dir.inodes.Keys) <= w.dir.inodes.Keys
    && w.dir.temps == old(w.dir.temps) && old(w.failures) <= w.failures
    && SlotsKept(w, slot)
  }

  // No slot is emptied or refilled, and what was captured now sits in this call's slot.
  ghost predicate SlotsStay(before: map<nat, nat>, held: set<nat>, after: map<nat, nat>, captured: set<nat>,
                            slot: Recovery) {
    && (forall t :: t in after ==> t in before || slot == Slot(t))
    && (forall t :: t in before ==> t in after && after[t] == before[t])
    && (forall i :: i in captured ==> i in held || (slot.Slot? && slot.token in after && after[slot.token] == i))
  }

  twostate predicate SlotsKept(w: World, slot: Recovery)
    reads w
  {
    SlotsStay(old(w.dir).slots, old(w.captured), w.dir.slots, w.captured, slot)
  }

  ghost predicate Touches(before: set<string>, after: set<string>, path: string) {
    forall p :: p != path ==> (p in after <==> p in before)
  }

  twostate predicate TouchedAtMost(w: World, path: string)
    reads w
  {
    Touches(old(w.touched), w.touched, path)
  }

  lemma SlotsStayOn(a: map<nat, nat>, i: set<nat>, b: map<nat, nat>, j: set<nat>, c: map<nat, nat>, k: set<nat>,
                    slot: Recovery)
    requires SlotsStay(a, i, b, j, slot) && (SlotsStay(b, j, c, k, NoSlot) || SlotsStay(b, j, c, k, slot))
    ensures SlotsStay(a, i, c, k, slot)
  {
  }

  lemma TouchesOn(a: set<string>, b: set<string>, c: set<string>, path: string)
    requires Touches(a, b, path) && Touches(b, c, path)
    ensures Touches(a, c, path)
  {
  }

  lemma Untouched(a: set<string>, d: map<nat, nat>, i: set<nat>, path: string)
    ensures Touches(a, a, path) && SlotsStay(d, i, d, i, NoSlot)
  {
  }

  method ReadFile(w: World, path: string) returns (s: Snapshot, err: Outcome)
    requires w.Valid()
    modifies w`log, w`failures
    ensures w.Valid()
    ensures !err.Is(Unknown)
    ensures err.Ok? ==> s == w.dir.Look(path) && Fits(s) && w.log == old(w.log) + [SawFile(path, s)]
    ensures err.Err? ==> s == Absent && w.log == old(w.log)
    ensures w.failures >= old(w.failures)
    ensures w.quiet ==> (err.Ok? <==> path !in w.dir.dirs && Fits(w.dir.Look(path)))
    ensures w.quiet && err.Err? ==> err == Err({if path in w.dir.dirs then Scope else TooLarge})
  {
    hide Tree, Accounted;
    var failed := w.Faulty();
    if failed { return Absent, Err({System}); }
    if path in w.dir.dirs { return Absent, Err({Scope}); }
    s := w.dir.Look(path);
    if !Fits(s) { return Absent, Err({TooLarge}); }
    w.log := w.log + [SawFile(path, s)];
    err := Ok;
  }

  // Files.read: where a directory on the way is missing, so is the file.
  method ReadPath(w: World, path: string) returns (s: Snapshot, err: Outcome)
    requires w.Valid()
    modifies w
    ensures w.Valid() && Kept(w, NoSlot) && w.touched == old(w.touched) && w.dir.slots == old(w.dir.slots)
    ensures !err.Is(Unknown) && (err.Ok? ==> Fits(s))
    ensures w.quiet ==> w.dir == old(w.dir)
    ensures w.quiet ==> (err.Ok? <==> w.dir.Clear(path) && Fits(w.dir.Look(path))) && (err.Ok? ==> s == w.dir.Look(path))
    ensures w.quiet && err.Err? ==> err == Err({if w.dir.Clear(path) then TooLarge else Scope})
  {
    hide Tree, Accounted;
    Unreached(w.dir, path);
    var way := w.Descend(path, false);
    match way {
      case Nowhere => s, err := Absent, Ok;
      case Arrived =>
        w.Interfere();
        s, err := ReadFile(w, path);
      case NotDirectory => s, err := Absent, Err({Scope});
      case Failed => s, err := Absent, Err({System});
    }
  }

  // What is not in a directory does not exist.
  lemma Unreached(d: Dir, path: string)
    requires Tree(d.files, d.dirs)
    ensures !(Ancestors(path) <= d.dirs) ==> path !in d.files && path !in d.dirs
  {
  }

  method ReadSlot(w: World, token: nat) returns (s: Snapshot, err: Outcome)
    requires w.Valid()
    modifies w`log, w`failures
    ensures w.Valid()
    ensures err.Ok? ==> s == w.dir.LookSlot(token) && Fits(s) && w.log == old(w.log) + [SawSlot(token, s)]
    ensures err.Err? ==> s == Absent && w.log == old(w.log)
    ensures w.failures >= old(w.failures)
    ensures w.quiet ==> (err.Ok? <==> Fits(w.dir.LookSlot(token)))
  {
    hide Tree, Accounted;
    var failed := w.Faulty();
    if failed { return Absent, Err({System}); }
    s := w.dir.LookSlot(token);
    if !Fits(s) { return Absent, Err({TooLarge}); }
    w.log := w.log + [SawSlot(token, s)];
    err := Ok;
  }

  // Rename the destination into the slot.
  method Seize(w: World, path: string, slot: nat) returns (ok: bool)
    requires w.Valid() && slot < w.tokens && slot !in w.dir.slots
    modifies w
    ensures w.Valid() && Kept(w, Slot(slot)) && TouchedAtMost(w, path)
    ensures ok ==> slot in w.dir.slots && w.dir.slots[slot] in w.published
    ensures ok ==> w.log == old(w.log) + [Captured(path, slot)]
    ensures path in old(w.dir).files && !ok ==> w.failures > old(w.failures)
    ensures w.quiet ==> (ok <==> path in old(w.dir).files) && (ok ==> w.dir == Capture(old(w.dir), path, slot))
  {
    hide Tree, Accounted;
    var moved := w.CaptureFile(path, slot);
    var failed := w.Faulty();
    ok := moved && !failed;
    if ok { w.Interfere(); }
  }

  // Capture the inode at the destination and look at it.
  method CaptureOld(w: World, path: string, before: Snapshot, slot: nat) returns (err: Outcome)
    requires w.Valid() && slot < w.tokens && slot !in w.dir.slots
    modifies w
    ensures w.Valid() && Kept(w, Slot(slot)) && TouchedAtMost(w, path)
    ensures err.Ok? ==> w.log == old(w.log) + [Captured(path, slot), SawSlot(slot, before)]
    ensures err.Err? ==> err.Is(Unknown)
    // What was captured but is not as planned gets its path back, unless another file has taken it,
    // its directory is gone, or a call failed.
    ensures err.Err? && path in old(w.dir).files && w.failures == old(w.failures) ==>
              path in w.dir.files || !Free(w.dir, path)
    ensures w.quiet ==>
              && (err.Ok? <==> path in old(w.dir).files && before == old(w.dir).Look(path) && Fits(before))
              && (err.Ok? ==> w.dir == Capture(old(w.dir), path, slot))
  {
    hide Tree, Accounted;
    var moved := Seize(w, path, slot);
    if !moved { return Err({Unknown, System}); }
    var current;
    current, err := ReadSlot(w, slot);
    if err.Err? || current != before {
      PutBackCapture(w, path, slot);
      err := Err({Unknown, Stale});
    }
  }

  // Restore only into an absent destination; the capture stays where it is.
  method PutBackCapture(w: World, path: string, slot: nat)
    requires w.Valid() && slot in w.dir.slots && w.dir.slots[slot] in w.published
    modifies w
    ensures w.Valid() && Kept(w, NoSlot) && TouchedAtMost(w, path)
    ensures w.published == old(w.published) && w.captured == old(w.captured)
    ensures old(w.log) <= w.log
    ensures w.dir == old(w.dir) || w.dir == Publish(old(w.dir), old(w.dir).slots[slot], path)
    ensures path !in w.dir.files && Free(w.dir, path) ==> w.failures > old(w.failures)
  {
    hide Tree, Accounted;
    var restored := w.LinkInode(w.dir.slots[slot], path, PutBack(slot, path));
  }

  // Look at the captured inode and at the destination once more.
  method Confirm(w: World, path: string, before: Snapshot, next: Snapshot, recovery: Recovery) returns (err: Outcome)
    requires w.Valid() && (before.Present? ==> recovery.Slot?)
    modifies w
    ensures w.Valid() && Kept(w, NoSlot) && w.captured == old(w.captured)
    ensures err.Ok? ==>
              w.log == old(w.log) + Looks(path, before, next, if before.Present? then recovery.token else 0)
    ensures err.Err? ==> err.Is(Unknown)
    ensures w.touched == old(w.touched)
    ensures w.quiet ==> w.dir == old(w.dir)
    ensures w.quiet ==>
              (err.Ok? <==> && (before.Present? ==> w.dir.LookSlot(recovery.token) == before && Fits(before))
                            && path !in w.dir.dirs && w.dir.Look(path) == next && Fits(next))
  {
    hide Tree, Accounted;
    var current;
    if before.Present? {
      current, err := ReadSlot(w, recovery.token);
      if err.Err? || current != before { return Err({Unknown, Stale}); }
      w.Interfere();
    }
    current, err := ReadFile(w, path);
    if err.Err? || current != next { return Err({Unknown, Stale}); }
  }

  // Compare the destination with the planned snapshot, and capture it.
  method Open(w: World, path: string, before: Snapshot, recovery: Recovery) returns (err: Outcome)
    requires w.Valid()
    requires recovery.Slot? ==> recovery.token < w.tokens && recovery.token !in w.dir.slots
    modifies w
    ensures w.Valid() && Kept(w, recovery) && TouchedAtMost(w, path)
    ensures err.Err? && !err.Is(Unknown) ==> w.touched == old(w.touched)
    ensures err.Ok? && before.Absent? ==> w.touched == old(w.touched)
    ensures err.Ok? ==>
              && (before.Present? ==> recovery.Slot?)
              && w.log == old(w.log) + Opening(path, before, if before.Present? then recovery.token else 0)
    ensures w.quiet ==>
              && (err.Ok? <==> && before == old(w.dir).Look(path) && Fits(before) && (before.Present? ==> recovery.Slot?)
                               && path !in old(w.dir).dirs)
              && (err.Err? && (before.Present? ==> recovery.Slot?) && before == old(w.dir).Look(path) ==> w.dir == old(w.dir))
              && (err.Err? && Granted(old(w.dir), path, before, before, recovery) ==> err == Err({Scope}))
              && (Outdated(old(w.dir), path, before) ==> err == Err({Stale}))
              && (err.Ok? ==> w.dir == if before.Present? then Capture(old(w.dir), path, recovery.token) else old(w.dir))
  {
    hide Tree, Accounted;
    var current;
    current, err := ReadFile(w, path);
    if err.Err? { return; }
    if current != before { return Err({Stale}); }
    w.Interfere();
    if before.Present? {
      if recovery.NoSlot? { return Err({Invalid}); }
      err := CaptureOld(w, path, before, recovery.token);
    }
  }

  // Publish the staged file, if there is one, and look again.
  method Settle(w: World, path: string, before: Snapshot, next: Snapshot, recovery: Recovery, token: nat)
      returns (err: Outcome)
    requires w.Valid() && (before.Present? ==> recovery.Slot?)
    requires next.Present? ==> token in w.dir.temps
    requires w.quiet ==> Free(w.dir, path)
    modifies w
    ensures w.Valid() && Kept(w, NoSlot) && TouchedAtMost(w, path)
    ensures w.captured == old(w.captured)
    ensures err.Err? && !err.Is(Unknown) ==> before.Absent? && w.touched == old(w.touched)
    ensures err.Ok? ==>
              w.log == old(w.log) + Closing(path, before, next, if before.Present? then recovery.token else 0, token)
    ensures w.quiet && err.Err? ==>
              || (before.Present? && !(w.dir.LookSlot(recovery.token) == before && Fits(before)))
              || (next.Present? && path in old(w.dir).files)
              || !(w.dir.Look(path) == next && Fits(next))
    ensures w.quiet && err.Ok? ==> w.dir.Look(path) == next && Fits(next)
    ensures w.quiet && path !in old(w.dir).files ==>
              w.dir == if next.Present? then Publish(old(w.dir), old(w.dir).temps[token], path) else old(w.dir)
  {
    hide Tree, Accounted, SlotsStay;
    Untouched(w.touched, w.dir.slots, w.captured, path);
    ghost var start := w.log;
    if next.Present? {
      var linked := w.LinkInode(w.dir.temps[token], path, Published(token, path));
      if !linked { return if before.Present? then Err({Unknown, System}) else Err({Stale, System}); }
    }
    var failed := w.Faulty();
    if failed { return Err({Unknown, System}); }
    w.Interfere();
    err := Confirm(w, path, before, next, recovery);
    Chain(start, [Published(token, path)], Looks(path, before, next, if before.Present? then recovery.token else 0));
  }

  // All between the staging and the removal of the staged name. No inode loses its last link
  // here.
  method Exchange(w: World, path: string, before: Snapshot, next: Snapshot, recovery: Recovery, token: nat)
      returns (err: Outcome)
    requires w.Valid()
    requires recovery.Slot? ==> recovery.token < w.tokens && recovery.token !in w.dir.slots
    requires next.Present? ==> token in w.dir.temps
    requires next.Present? && w.quiet ==> w.dir.At(w.dir.temps[token]) == next
    requires w.quiet ==> Ancestors(path) <= w.dir.dirs
    modifies w
    ensures w.Valid() && Kept(w, recovery) && TouchedAtMost(w, path)
    ensures err.Err? && !err.Is(Unknown) ==> w.touched == old(w.touched)
    ensures err.Ok? ==>
              && (before.Present? ==> recovery.Slot?)
              && w.log == old(w.log) + Exchanged(path, before, next, if before.Present? then recovery.token else 0, token)
    ensures w.quiet ==>
              && (err.Ok? <==> Granted(old(w.dir), path, before, next, recovery) && path !in old(w.dir).dirs)
              && (err.Ok? ==> && (forall p :: w.dir.Look(p) == if p == path then next else old(w.dir).Look(p))
                              && w.dir.dirs == old(w.dir).dirs)
              && (err.Err? && Granted(old(w.dir), path, before, next, recovery) ==> w.dir == old(w.dir) && err == Err({Scope}))
              && (Outdated(old(w.dir), path, before) ==> err == Err({Stale}))
  {
    hide Tree, Accounted, Touches, SlotsStay;
    ghost var slot := if before.Present? && recovery.Slot? then recovery.token else 0;
    ghost var start := w.log;
    ghost var first := w.dir;
    err := Open(w, path, before, recovery);
    if err.Err? { return; }
    w.Interfere();
    ghost var slots, captured, touched := w.dir.slots, w.captured, w.touched;
    err := Settle(w, path, before, next, recovery, token);
    SlotsStayOn(old(w.dir).slots, old(w.captured), slots, captured, w.dir.slots, w.captured, recovery);
    TouchesOn(old(w.touched), touched, w.touched, path);
    Chain(start, Opening(path, before, slot), Closing(path, before, next, slot, token));
    if w.quiet && before == first.Look(path) { QuietLooks(first, path, before, next, slot, token); }
  }

  // In a quiet world the capture and the publication change what the path shows, and no other.
  lemma QuietLooks(d: Dir, path: string, before: Snapshot, next: Snapshot, slot: nat, token: nat)
    requires d.Valid() && before == d.Look(path)
    requires next.Present? ==> token in d.temps && d.At(d.temps[token]) == next
    ensures before.Absent? ==> path !in d.files
    ensures before.Present? ==> Capture(d, path, slot).LookSlot(slot) == before
    ensures var c := if before.Present? then Capture(d, path, slot) else d;
            var e := if next.Present? then Publish(c, d.temps[token], path) else c;
            forall p :: e.Look(p) == if p == path then next else d.Look(p)
  {
    if path in d.files { assert d.files[path] in d.files.Values; }
  }

  lemma Chain<T>(a: seq<T>, b: seq<T>, c: seq<T>)
    ensures a + b + c == a + (b + c)
  {
  }

  // The exchange and the deferred removal of the staged name.
  method Publicize(w: World, path: string, before: Snapshot, next: Snapshot, recovery: Recovery, token: nat)
      returns (err: Outcome)
    requires w.Valid() && next.Present?
    requires recovery.Slot? ==> recovery.token < w.tokens && recovery.token !in w.dir.slots
    requires token in w.dir.temps
    requires w.quiet ==> w.dir.At(w.dir.temps[token]) == next && Ancestors(path) <= w.dir.dirs
    modifies w
    ensures w.Valid() && w.tokens == old(w.tokens) && TouchedAtMost(w, path)
    ensures old(w.failures) <= w.failures
    ensures w.failures == old(w.failures) ==> w.dir.temps == old(w.dir.temps) - {token}
    ensures old(w.orphaned) <= w.orphaned <= old(w.orphaned) + {old(w.dir.temps[token])}
    ensures old(w.dir.inodes.Keys) <= w.dir.inodes.Keys
    ensures err.Err? && !err.Is(Unknown) ==> w.touched == old(w.touched)
    ensures err.Ok? ==>
              && (before.Present? ==> recovery.Slot?)
              && w.log == old(w.log) + (Exchanged(path, before, next, if before.Present? then recovery.token else 0, token)
                                        + [Discarded(token)])
    ensures SlotsKept(w, recovery)
    ensures w.quiet ==>
              && (err.Ok? <==> Granted(old(w.dir), path, before, next, recovery) && path !in old(w.dir).dirs)
              && (err.Ok? ==> && (forall p :: w.dir.Look(p) == if p == path then next else old(w.dir).Look(p))
                              && w.dir.dirs == old(w.dir).dirs)
              && (err.Err? && Granted(old(w.dir), path, before, next, recovery)
                  ==> && w.dir.dirs == old(w.dir).dirs && (forall p :: w.dir.Look(p) == old(w.dir).Look(p))
                      && err == Err({Scope}))
              && (Outdated(old(w.dir), path, before) ==> err == Err({Stale}))
  {
    hide Tree, Accounted;
    ghost var start := w.log;
    ghost var slot := if before.Present? && recovery.Slot? then recovery.token else 0;
    err := Exchange(w, path, before, next, recovery, token);
    w.Interfere();
    DiscardLoses(w.dir, token);
    w.DiscardFile(token);
    Chain(start, Exchanged(path, before, next, slot, token), [Discarded(token)]);
  }

  // Stage the new content beside the destination, exchange, and remove the staged name.
  method Restage(w: World, path: string, before: Snapshot, next: Snapshot, recovery: Recovery) returns (err: Outcome)
    requires w.Valid() && next.Present?
    requires recovery.Slot? ==> recovery.token < w.tokens && recovery.token !in w.dir.slots
    requires w.quiet ==> Ancestors(path) <= w.dir.dirs
    modifies w
    ensures w.Valid() && w.tokens >= old(w.tokens) && TouchedAtMost(w, path) && SlotsKept(w, recovery)
    ensures old(w.failures) <= w.failures
    ensures w.failures == old(w.failures) ==> w.dir.temps == old(w.dir.temps)
    ensures old(w.orphaned) <= w.orphaned && (w.orphaned - old(w.orphaned)) !! old(w.dir.inodes.Keys)
    ensures old(w.dir.inodes.Keys) <= w.dir.inodes.Keys
    ensures err.Err? && !err.Is(Unknown) ==> w.touched == old(w.touched)
    ensures err.Ok? ==>
              && (before.Present? ==> recovery.Slot?)
              && w.log == old(w.log) + Protocol(path, before, next, if before.Present? then recovery.token else 0,
                  old(w.tokens))
    ensures w.quiet ==>
              && (err.Ok? <==> Granted(old(w.dir), path, before, next, recovery) && path !in old(w.dir).dirs)
              && (err.Ok? ==> && (forall p :: w.dir.Look(p) == if p == path then next else old(w.dir).Look(p))
                              && w.dir.dirs == old(w.dir).dirs)
              && (err.Err? && Granted(old(w.dir), path, before, next, recovery)
                  ==> && w.dir.dirs == old(w.dir).dirs && (forall p :: w.dir.Look(p) == old(w.dir).Look(p))
                      && err == Err({Scope}))
              && (Outdated(old(w.dir), path, before) ==> err == Err({Stale}))
  {
    hide Tree, Accounted, Exchanged;
    var failed := w.Faulty();
    if failed { return Err({System}); }
    ghost var start, first := w.log, w.dir;
    ghost var slot := if before.Present? && recovery.Slot? then recovery.token else 0;
    var token := w.StageFile(next);
    StageKeepsLooks(first, token, next);
    w.Interfere();
    err := Publicize(w, path, before, next, recovery, token);
    Chain(start, [Staged(token, next)], Exchanged(path, before, next, slot, token) + [Discarded(token)]);
    Chain([Staged(token, next)], Exchanged(path, before, next, slot, token), [Discarded(token)]);
  }

  method Replace(w: World, path: string, before: Snapshot, next: Snapshot, recovery: Recovery)
      returns (err: Outcome)
    requires w.Valid()
    requires recovery.Slot? ==> recovery.token < w.tokens && recovery.token !in w.dir.slots
    modifies w
    ensures w.Valid() && w.tokens >= old(w.tokens)
    // Of all inodes only one that this call created can lose its last link to it; and by the
    // world's invariant, one that was ever bound to a path then had lost its paths to another writer.
    ensures old(w.orphaned) <= w.orphaned && (w.orphaned - old(w.orphaned)) !! old(w.dir.inodes.Keys)
    ensures old(w.dir.inodes.Keys) <= w.dir.inodes.Keys
    ensures TouchedAtMost(w, path)
    ensures err.Err? && !err.Is(Unknown) ==> w.touched == old(w.touched)
    ensures old(w.failures) <= w.failures
    // The staged name is gone, whatever happened, unless a call failed.
    ensures w.failures == old(w.failures) ==> w.dir.temps == old(w.dir.temps)
    ensures err.Ok? ==>
              && (before.Present? ==> recovery.Slot?)
              && w.log == old(w.log) + Protocol(path, before, next, if before.Present? then recovery.token else 0,
                  old(w.tokens))
    ensures SlotsKept(w, recovery)
    // Left alone, it succeeds exactly when the destination is as planned, no file is on the way
    // to it, and it is no directory. A removal makes no directories.
    ensures w.quiet ==>
              && (err.Ok? <==> && Granted(old(w.dir), path, before, next, recovery) && old(w.dir).Clear(path)
                               && (next.Absent? ==> Ancestors(path) <= old(w.dir).dirs))
              && (err.Ok? ==> && (forall p :: w.dir.Look(p) == if p == path then next else old(w.dir).Look(p))
                              && w.dir.dirs == old(w.dir).dirs + Ancestors(path))
              && (err.Err? && Granted(old(w.dir), path, before, next, recovery)
                  ==> && w.dir.dirs == old(w.dir).dirs && (forall p :: w.dir.Look(p) == old(w.dir).Look(p))
                      && err == Err({if old(w.dir).Clear(path) then Missing else Scope}))
              && (old(w.dir).Clear(path) && Ancestors(path) <= old(w.dir).dirs && Outdated(old(w.dir), path, before)
                  ==> err == Err({Stale}))
  {
    hide Tree, Accounted;
    DirectoryReached(w.dir, path);
    ghost var first := w.dir;
    var way := w.Descend(path, next.Present?);
    match way {
      case Arrived =>
      case Nowhere => return Err({Missing});
      case NotDirectory => return Err({Scope});
      case Failed => return Err({System});
    }
    if next.Absent? {
      err := Exchange(w, path, before, next, recovery, 0);
    } else {
      err := Restage(w, path, before, next, recovery);
    }
  }

  // The way to a directory exists, and holds no file.
  lemma DirectoryReached(d: Dir, path: string)
    requires Tree(d.files, d.dirs)
    ensures path in d.dirs ==> Ancestors(path) <= d.dirs && d.dirs + Ancestors(path) == d.dirs
    ensures path in d.dirs ==> forall a :: a in Ancestors(path) ==> a !in d.files
    ensures Ancestors(path) <= d.dirs ==> d.dirs + Ancestors(path) == d.dirs
  {
  }

  lemma StageKeepsLooks(d: Dir, token: nat, s: Snapshot)
    requires d.Valid() && s.Present?
    ensures var e := Stage(d, token, s.mode, s.content);
            && e.At(e.temps[token]) == s
            && forall p :: e.Look(p) == d.Look(p)
  {
    forall p | p in d.files ensures d.files[p] in d.inodes {
      assert d.files[p] in d.files.Values;
    }
  }

  // The exception is real: when another writer removes the destination after it was
  // published, the deferred removal of the staged name takes the last link of that file.
  lemma WithdrawnFileIsOrphaned(path: string, s: Snapshot)
    requires s.Present?
    ensures var staged := Stage(Dir(map[], {}, map[], map[], map[], 0), 0, s.mode, s.content);
            var published := Publish(staged, staged.temps[0], path);
            var withdrawn := Apply(published, Remove(path));
            && published.Look(path) == s
            && 0 in withdrawn.Links()
            && 0 !in Discard(withdrawn, 0).Links()
  {
    var staged := Stage(Dir(map[], {}, map[], map[], map[], 0), 0, s.mode, s.content);
    var published := Publish(staged, staged.temps[0], path);
    var withdrawn := Apply(published, Remove(path));
    assert withdrawn.temps[0] == 0;
    assert Discard(withdrawn, 0).Links() == {};
  }

  // Removing the staged name takes the last link of the staged inode exactly when nothing
  // else links to it any more: no path, no slot and no other staged name.
  lemma DiscardLoses(d: Dir, token: nat)
    requires d.Valid() && token in d.temps
    ensures d.Links() - Discard(d, token).Links() <= {d.temps[token]} - d.files.Values
    ensures d.temps[token] !in Discard(d, token).Links()
            <==> d.temps[token] !in d.files.Values + d.slots.Values
                 && forall t :: t in d.temps && t != token ==> d.temps[t] != d.temps[token]
  {
    DropsValue(d.temps, token);
    var rest := Discard(d, token).temps;
    if d.temps[token] in rest.Values {
      var t :| t in rest && rest[t] == d.temps[token];
      assert t in d.temps && t != token;
    }
    forall t | t in d.temps && t != token ensures d.temps[t] in rest.Values {
      assert rest[t] == d.temps[t];
    }
  }
}
