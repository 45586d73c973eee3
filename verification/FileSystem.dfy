// A directory tree as the file worker sees it: paths bound to inodes, directories, and
// another writer who may edit, rename, remove, link or recreate files, and make and remove
// directories, between any two system calls. Modelled on the calls made by kit/tools/files.go.
module FileSystem {
  // One character stands for one byte.
  type Bytes = string
  type Mode = m: nat | m < 512 witness 0

  // What a path shows when it is read: nothing, or a regular file.
  datatype Snapshot = Absent | Present(mode: Mode, content: Bytes)

  datatype Inode = Inode(mode: Mode, content: Bytes)

  // Whether a path is a directory on the way to another.
  predicate Above(a: string, p: string) {
    0 < |a| < |p| && p[|a|] == '/' && p[..|a|] == a
  }

  function Ancestors(p: string): (s: set<string>)
    ensures forall a :: a in s <==> Above(a, p)
  {
    set i | 0 < i < |p| && p[i] == '/' :: p[..i]
  }

  // Nothing is a file and a directory, and everything is in a directory.
  ghost predicate Tree(files: map<string, nat>, dirs: set<string>) {
    && (forall p :: p in files ==> p !in dirs && Ancestors(p) <= dirs)
    && (forall p :: p in dirs ==> Ancestors(p) <= dirs)
  }

  // `files` and `dirs` hold every path a request can name, but the root. `temps` and `slots`
  // hold staged files and recovery slots, whose random names only the worker knows. `next` is
  // above every inode number in use, so that a created file is a new inode.
  datatype Dir = Dir(files: map<string, nat>, dirs: set<string>, temps: map<nat, nat>, slots: map<nat, nat>,
                     inodes: map<nat, Inode>, next: nat)
  {
    ghost predicate Valid() {
      && Links() <= inodes.Keys
      && (forall i :: i in inodes ==> i < next)
    }

    // The inodes that have at least one link.
    ghost function Links(): set<nat> {
      files.Values + temps.Values + slots.Values
    }

    function At(i: nat): Snapshot {
      if i in inodes then Present(inodes[i].mode, inodes[i].content) else Absent
    }

    function Look(path: string): Snapshot {
      if path in files then At(files[path]) else Absent
    }

    function LookSlot(token: nat): Snapshot {
      if token in slots then At(slots[token]) else Absent
    }

    // No directory is at the path and no file is on the way to it.
    predicate Clear(path: string) {
      path !in dirs && forall a :: a in Ancestors(path) ==> a !in files
    }
  }

  // rename(2) of a path into a recovery slot.
  function Capture(d: Dir, path: string, token: nat): Dir
    requires path in d.files
  {
    d.(files := d.files - {path}, slots := d.slots[token := d.files[path]])
  }

  // link(2) of an inode to a path; the worker calls it only where the path is free.
  function Publish(d: Dir, i: nat, path: string): Dir {
    d.(files := d.files[path := i])
  }

  function Stage(d: Dir, token: nat, mode: Mode, content: Bytes): Dir {
    d.(temps := d.temps[token := d.next], inodes := d.inodes[d.next := Inode(mode, content)], next := d.next + 1)
  }

  function Discard(d: Dir, token: nat): Dir {
    d.(temps := d.temps - {token})
  }

  // What the other writer may do in one step. `Edit` writes through a descriptor, so it
  // reaches any inode at all, also a captured or an unlinked one.
  datatype Act =
    | Edit(inode: nat, mode: Mode, content: Bytes)
    | Remove(path: string)
    | Rename(source: string, target: string)
    | Link(source: string, target: string)
    | Make(path: string, mode: Mode, content: Bytes)
    | MakeDir(path: string)
    | RemoveDir(path: string)

  // Whether a name can be made at a path.
  predicate Free(d: Dir, p: string) {
    p !in d.dirs && Ancestors(p) <= d.dirs
  }

  function Apply(d: Dir, a: Act): Dir {
    match a
    case Edit(i, mode, content) =>
      if i in d.inodes then d.(inodes := d.inodes[i := Inode(mode, content)]) else d
    case Remove(p) => d.(files := d.files - {p})
    case Rename(p, q) =>
      if p in d.files && p != q && Free(d, q) then d.(files := (d.files - {p})[q := d.files[p]]) else d
    case Link(p, q) =>
      if p in d.files && q !in d.files && Free(d, q) then d.(files := d.files[q := d.files[p]]) else d
    case Make(p, mode, content) =>
      if p !in d.files && Free(d, p)
      then d.(files := d.files[p := d.next], inodes := d.inodes[d.next := Inode(mode, content)], next := d.next + 1)
      else d
    case MakeDir(p) =>
      if p !in d.files && Free(d, p) then d.(dirs := d.dirs + {p}) else d
    case RemoveDir(p) =>
      if (exists q :: q in d.files && Above(p, q)) || (exists q :: q in d.dirs && Above(p, q)) then d
      else d.(dirs := d.dirs - {p})
  }

  // Calls of the worker that a reader of the directory could notice, in order.
  // A name can be made where nothing is a directory and the way to it exists.
  ghost predicate Vacant(d: Dir, p: string) {
    p !in d.dirs && forall w: string :: Above(w, p) ==> w in d.dirs
  }

  // What the other writer's act shows afterwards: content and mode change at every name of the
  // file, a name is removed, moved or added, or a file or directory appears or is gone.
  ghost predicate Shows(d: Dir, a: Act, e: Dir) {
    match a
    case Edit(i, mode, content) =>
      && e.dirs == d.dirs
      && forall p :: e.Look(p) == if p in d.files && d.files[p] == i then Present(mode, content) else d.Look(p)
    case Remove(q) => e.dirs == d.dirs && forall p :: e.Look(p) == if p == q then Absent else d.Look(p)
    case Rename(from, to) =>
      var moves := from in d.files && from != to && Vacant(d, to);
      && e.dirs == d.dirs
      && forall p :: e.Look(p) == if moves && p == from then Absent else if moves && p == to then d.Look(from)
                                  else d.Look(p)
    case Link(from, to) =>
      var links := from in d.files && to !in d.files && Vacant(d, to);
      && e.dirs == d.dirs && (links ==> to in e.files && e.files[to] == d.files[from])
      && forall p :: e.Look(p) == if links && p == to then d.Look(from) else d.Look(p)
    case Make(q, mode, content) =>
      var makes := q !in d.files && Vacant(d, q);
      && e.dirs == d.dirs
      && forall p :: e.Look(p) == if makes && p == q then Present(mode, content) else d.Look(p)
    case MakeDir(q) =>
      e.files == d.files && e.inodes == d.inodes && e.dirs == d.dirs + if q !in d.files && Vacant(d, q) then {q} else {}
    case RemoveDir(q) =>
      var empty := (forall p :: p in d.files ==> !Above(q, p)) && forall p :: p in d.dirs ==> !Above(q, p);
      e.files == d.files && e.inodes == d.inodes && e.dirs == d.dirs - if empty then {q} else {}
  }

  lemma VacantIsFree(d: Dir, p: string)
    ensures Vacant(d, p) <==> Free(d, p)
  {
    hide Above;
  }

  lemma ActShows(d: Dir, a: Act)
    requires d.Valid()
    ensures Shows(d, a, Apply(d, a))
  {
    hide Above, Vacant, Free;
    forall p | p in d.files ensures d.files[p] in d.inodes && d.files[p] != d.next {
      assert d.files[p] in d.files.Values;
    }
    match a
    case Rename(_, to) => VacantIsFree(d, to);
    case Link(_, to) => VacantIsFree(d, to);
    case Make(q, _, _) => VacantIsFree(d, q);
    case MakeDir(q) => VacantIsFree(d, q);
    case _ =>
  }

  datatype Step =
    | Staged(token: nat, snapshot: Snapshot)
    | SawFile(path: string, snapshot: Snapshot)
    | SawSlot(token: nat, snapshot: Snapshot)
    | Captured(path: string, token: nat)
    | Published(token: nat, path: string)
    | PutBack(token: nat, path: string)
    | Discarded(token: nat)

  // How far the way to a path leads.
  datatype Arrival = Arrived | Nowhere | NotDirectory | Failed

  function Arriving(d: Dir, path: string, create: bool): Arrival {
    if exists a :: a in Ancestors(path) && a in d.files then NotDirectory
    else if create || Ancestors(path) <= d.dirs then Arrived
    else Nowhere
  }

  lemma AncestorsMore(path: string, i: nat)
    requires i < |path|
    ensures Ancestors(path[..i + 1]) == Ancestors(path[..i]) + if i > 0 && path[i] == '/' then {path[..i]} else {}
  {
    forall a ensures a in Ancestors(path[..i + 1])
        <==> a in Ancestors(path[..i]) || (0 < |a| == i && path[i] == '/' && a == path[..i]) {
      if 0 < |a| < i { assert path[..i + 1][..|a|] == path[..i][..|a|]; }
      if |a| == i { assert path[..i + 1][..i] == path[..i]; }
    }
  }

  // The first i characters of a path lead through directories.
  ghost predicate Passed(d: Dir, path: string, i: nat, create: bool)
    requires i <= |path|
  {
    forall a :: a in Ancestors(path[..i]) ==> a !in d.files && (create || a in d.dirs)
  }

  lemma NonePassed(d: Dir, path: string, create: bool)
    ensures Ancestors(path[..0]) == {} && Passed(d, path, 0, create)
  {
  }

  lemma PassedMore(d: Dir, path: string, i: nat, create: bool)
    requires i < |path| && Passed(d, path, i, create)
    requires i > 0 && path[i] == '/' ==> path[..i] !in d.files && (create || path[..i] in d.dirs)
    ensures Passed(d, path, i + 1, create)
  {
    AncestorsMore(path, i);
  }

  lemma AllPassed(d: Dir, path: string, create: bool)
    requires Passed(d, path, |path|, create)
    ensures Arriving(d, path, create) == Arrived
  {
    assert path[..|path|] == path;
  }

  // Where the next part of a path is a file, the parts before it exist; where it does not
  // exist, no later part does.
  lemma NextPart(d: Dir, path: string, i: nat, create: bool)
    requires Tree(d.files, d.dirs) && 0 < i < |path| && path[i] == '/' && Passed(d, path, i, create)
    ensures path[..i] in Ancestors(path) && (!create ==> Ancestors(path[..i]) <= d.dirs)
    ensures path[..i] in d.files ==> Ancestors(path[..i]) <= d.dirs && Arriving(d, path, create) == NotDirectory
    ensures path[..i] !in d.files && path[..i] !in d.dirs ==>
              && (forall a :: a in Ancestors(path) ==> a !in d.files)
              && (!create ==> Arriving(d, path, create) == Nowhere)
  {
    if path[..i] !in d.files && path[..i] !in d.dirs {
      forall a | a in Ancestors(path) ensures a !in d.files {
        if |a| < i { assert Above(a, path[..i]); }
        if |a| > i { assert path[..i] in Ancestors(a); }
      }
    }
  }

  // What became of every inode that was ever bound to a path.
  ghost predicate Accounted(d: Dir, published: set<nat>, withdrawn: set<nat>, captured: set<nat>, surrendered: set<nat>,
                            orphaned: set<nat>) {
    && d.files.Values <= published <= d.inodes.Keys
    && captured <= d.slots.Values
    && published <= d.files.Values + withdrawn + captured
    && published <= d.Links() + surrendered + orphaned
    && orphaned <= d.inodes.Keys - d.Links()
    && orphaned * published <= withdrawn
  }

  // The worker's system calls. `quiet` means that no call fails and no other writer acts.
  class World {
    var dir: Dir
    const quiet: bool
    var tokens: nat

    // The observable calls of the worker, and the paths at which it removed or created a file.
    ghost var log: seq<Step>
    ghost var touched: set<string>
    // Inodes that were ever bound to a path.
    ghost var published: set<nat>
    // Of those, the ones whose last path another writer removed, and the ones the worker
    // renamed into a recovery slot.
    ghost var withdrawn: set<nat>
    ghost var captured: set<nat>
    // Inodes whose very last link was removed, by another writer and by the worker.
    ghost var surrendered: set<nat>
    ghost var orphaned: set<nat>
    // How many calls failed for reasons of their own.
    ghost var failures: nat

    ghost predicate Valid()
      reads this
    {
      && dir.Valid() && Tree(dir.files, dir.dirs)
      && Accounted(dir, published, withdrawn, captured, surrendered, orphaned)
      && (forall t :: t in dir.temps || t in dir.slots ==> t < tokens)
    }

    // What the other writer cannot change: the worker's names, its accounts, and which
    // inodes exist.
    twostate predicate Elsewhere()
      reads this
    {
      && dir.temps == old(dir.temps) && dir.slots == old(dir.slots)
      && old(dir.inodes.Keys) <= dir.inodes.Keys
      && tokens == old(tokens) && log == old(log) && touched == old(touched)
      && orphaned == old(orphaned) && captured == old(captured)
      && old(withdrawn) <= withdrawn && old(published) <= published && old(failures) <= failures
    }

    twostate predicate Undisturbed()
      reads this
    {
      Elsewhere() && failures == old(failures) && (quiet ==> dir == old(dir))
    }

    constructor (quiet: bool, dir: Dir)
      requires dir.Valid() && Tree(dir.files, dir.dirs) && dir.temps == map[] && dir.slots == map[]
      ensures Valid() && this.quiet == quiet && this.dir == dir
      ensures log == [] && touched == {} && orphaned == {} && withdrawn == {} && published == dir.files.Values
    {
      this.quiet, this.dir, tokens := quiet, dir, 0;
      log, touched, published := [], {}, dir.files.Values;
      withdrawn, captured, surrendered, orphaned, failures := {}, {}, {}, {}, 0;
    }

    // Any number of steps of the other writer.
    method Interfere()
      requires Valid()
      modifies this
      ensures Valid() && Undisturbed()
    {
      if quiet { return; }
      var rounds: nat := *;
      while rounds > 0
        invariant Valid() && Undisturbed()
      {
        var act: Act := *;
        Disturb(act);
        rounds := rounds - 1;
      }
    }

    method Disturb(act: Act)
      requires Valid() && !quiet
      modifies this
      ensures Valid() && Undisturbed()
      ensures dir == Apply(old(dir), act)
    {
      hide Tree, Accounted;
      ghost var before := dir;
      dir := Apply(dir, act);
      ApplyKeeps(before, act);
      ApplyKeepsTree(before, act);
      ApplyAccounts(before, act, published, withdrawn, captured, surrendered, orphaned);
      published := published + dir.files.Values;
      withdrawn := withdrawn + (before.files.Values - dir.files.Values);
      surrendered := surrendered + (before.Links() - dir.Links());
    }

    // A system call may fail for reasons of its own.
    method Faulty() returns (failed: bool)
      requires Valid()
      modifies this`failures
      ensures Valid() && failures == old(failures) + (if failed then 1 else 0)
      ensures quiet ==> !failed
    {
      hide Tree, Accounted;
      failed := *;
      if quiet { failed := false; }
      if failed { failures := failures + 1; }
    }

    // mkdir(2), where nothing has that name.
    method MakeDirectory(path: string) returns (ok: bool)
      requires Valid() && path !in dir.files && path !in dir.dirs
      modifies this`dir
      ensures Valid() && Elsewhere()
      ensures ok <==> Ancestors(path) <= old(dir).dirs
      ensures dir == if ok then old(dir).(dirs := old(dir).dirs + {path}) else old(dir)
    {
      hide Tree, Accounted;
      ok := Ancestors(path) <= dir.dirs;
      if ok {
        MakeDirKeeps(dir, path, published, withdrawn, captured, surrendered, orphaned);
        dir := dir.(dirs := dir.dirs + {path});
      }
    }

    // Files.parent: the directories on the way to a path, one after another. `create` makes
    // those that are missing.
    method Descend(path: string, create: bool) returns (r: Arrival)
      requires Valid()
      modifies this
      ensures Valid() && Elsewhere()
      ensures r.Nowhere? ==> !create
      ensures quiet ==> r == Arriving(old(dir), path, create)
      ensures quiet ==> dir == if r.Arrived? then old(dir).(dirs := old(dir).dirs + Ancestors(path)) else old(dir)
    {
      hide Tree, Accounted, Passed, Arriving, Ancestors;
      ghost var first := dir;
      var i := 0;
      NonePassed(first, path, create);
      while i < |path|
        invariant i <= |path| && Valid() && Elsewhere()
        invariant quiet ==> dir == first.(dirs := first.dirs + Ancestors(path[..i]))
        invariant quiet ==> Passed(first, path, i, create)
      {
        AncestorsMore(path, i);
        if i > 0 && path[i] == '/' {
          Interfere();
          var failed := Faulty();
          if failed { return Failed; }
          var part := path[..i];
          if quiet { NextPart(first, path, i, create); }
          if part in dir.files { return NotDirectory; }
          if part !in dir.dirs {
            if !create { return Nowhere; }
            var made := MakeDirectory(part);
            if !made { return Failed; }
          }
        }
        if quiet { PassedMore(first, path, i, create); }
        i := i + 1;
      }
      if quiet { AllPassed(first, path, create); }
      assert path[..i] == path;
      r := Arrived;
    }

    method StageFile(s: Snapshot) returns (token: nat)
      requires Valid() && s.Present?
      modifies this
      ensures Valid()
      ensures token == old(tokens) && tokens == old(tokens) + 1
      ensures dir == Stage(old(dir), token, s.mode, s.content)
      ensures log == old(log) + [Staged(token, s)] && touched == old(touched)
      ensures published == old(published) && withdrawn == old(withdrawn) && captured == old(captured)
      ensures orphaned == old(orphaned) && failures == old(failures)
    {
      hide Tree, Accounted;
      ghost var before := dir;
      token := tokens;
      tokens := tokens + 1;
      dir := Stage(dir, token, s.mode, s.content);
      log := log + [Staged(token, s)];
      StageAccounts(before, token, s, published, withdrawn, captured, surrendered, orphaned);
    }

    method ReserveToken() returns (token: nat)
      requires Valid()
      modifies this`tokens
      ensures Valid()
      ensures token == old(tokens) && tokens == old(tokens) + 1
    {
      token := tokens;
      tokens := tokens + 1;
    }

    method CaptureFile(path: string, token: nat) returns (ok: bool)
      requires Valid() && token < tokens && token !in dir.slots
      modifies this
      ensures Valid()
      ensures ok ==> path in old(dir).files && old(dir).files[path] in published
      ensures failures >= old(failures) && (path in old(dir).files && !ok ==> failures > old(failures))
      ensures quiet && path in old(dir).files ==> ok
      ensures dir == if ok then Capture(old(dir), path, token) else old(dir)
      ensures log == if ok then old(log) + [Captured(path, token)] else old(log)
      ensures touched == if ok then old(touched) + {path} else old(touched)
      ensures captured == if ok then old(captured) + {old(dir).files[path]} else old(captured)
      ensures published == old(published) && withdrawn == old(withdrawn) && orphaned == old(orphaned)
      ensures tokens == old(tokens)
    {
      hide Tree, Accounted, Above, Ancestors, Free;
      var failed := Faulty();
      ok := !failed && path in dir.files;
      if ok {
        ghost var before := dir;
        dir := Capture(dir, path, token);
        log, touched := log + [Captured(path, token)], touched + {path};
        captured := captured + {before.files[path]};
        orphaned := orphaned + (before.Links() - dir.Links());
        CaptureAccounts(before, path, token, published, withdrawn, old(captured), surrendered, old(orphaned));
        CaptureKeepsTree(before, path, token);
      }
    }

    // link(2) refuses to replace an existing name.
    method LinkInode(i: nat, path: string, step: Step) returns (ok: bool)
      requires Valid() && i in dir.Links()
      modifies this
      ensures Valid()
      ensures ok ==> path !in old(dir).files
      ensures failures >= old(failures)
      ensures path !in old(dir).files && Free(old(dir), path) && !ok ==> failures > old(failures)
      ensures quiet && path !in old(dir).files && Free(old(dir), path) ==> ok
      ensures dir == if ok then Publish(old(dir), i, path) else old(dir)
      ensures log == if ok then old(log) + [step] else old(log)
      ensures touched == if ok then old(touched) + {path} else old(touched)
      ensures published == if ok then old(published) + {i} else old(published)
      ensures captured == old(captured) && withdrawn == old(withdrawn) && orphaned == old(orphaned)
      ensures tokens == old(tokens)
    {
      hide Tree, Accounted;
      var failed := Faulty();
      ok := !failed && path !in dir.files && Free(dir, path);
      if ok {
        ghost var before := dir;
        dir := Publish(dir, i, path);
        log, touched := log + [step], touched + {path};
        PublishAccounts(before, i, path, published, withdrawn, captured, surrendered, orphaned);
        published := published + {i};
        assert before.Links() - dir.Links() == {};
        orphaned := orphaned + (before.Links() - dir.Links());
        assert orphaned == old(orphaned);
        PublishKeepsTree(before, i, path);
      }
    }

    // Removing the staged name; the worker ignores an error.
    method DiscardFile(token: nat)
      requires Valid() && token in dir.temps
      modifies this
      ensures Valid()
      ensures log == old(log) + [Discarded(token)] && touched == old(touched)
      ensures dir == old(dir) || dir == Discard(old(dir), token)
      ensures quiet ==> dir == Discard(old(dir), token)
      ensures failures >= old(failures) && (dir == old(dir) ==> failures > old(failures))
      ensures orphaned == old(orphaned) + (old(dir).Links() - dir.Links())
      ensures published == old(published) && withdrawn == old(withdrawn) && captured == old(captured)
      ensures tokens == old(tokens)
    {
      hide Tree, Accounted;
      var failed := Faulty();
      log := log + [Discarded(token)];
      if !failed {
        ghost var before := dir;
        dir := Discard(dir, token);
        orphaned := orphaned + (before.Links() - dir.Links());
        DiscardAccounts(before, token, published, withdrawn, captured, surrendered, old(orphaned));
      }
    }
  }

  lemma AddsValue<K>(m: map<K, nat>, k: K, v: nat)
    requires k !in m
    ensures m[k := v].Values == m.Values + {v}
  {
    var e := m[k := v];
    forall x | x in m.Values ensures x in e.Values {
      var y :| y in m && m[y] == x;
      assert e[y] == x;
    }
    assert e[k] == v;
  }

  lemma DropsValue<K>(m: map<K, nat>, k: K)
    requires k in m
    ensures (m - {k}).Values <= m.Values <= (m - {k}).Values + {m[k]}
  {
    var e := m - {k};
    forall x | x in m.Values && x != m[k] ensures x in e.Values {
      var y :| y in m && m[y] == x;
      assert y in e && e[y] == x;
    }
    forall x | x in e.Values ensures x in m.Values {
      var y :| y in e && e[y] == x;
      assert m[y] == x;
    }
  }

  lemma ApplyKeeps(d: Dir, a: Act)
    requires d.Valid()
    ensures Apply(d, a).Valid()
    ensures d.inodes.Keys <= Apply(d, a).inodes.Keys
    ensures Apply(d, a).temps == d.temps && Apply(d, a).slots == d.slots
    // Another writer gives a path only to an inode that had one, or to a new inode.
    ensures Apply(d, a).files.Values * d.inodes.Keys <= d.files.Values
  {
    match a
    case Edit(_, _, _) =>
    case Remove(p) =>
      if p in d.files { DropsValue(d.files, p); } else { assert d.files - {p} == d.files; }
    case Rename(p, q) =>
      if p in d.files && p != q && Free(d, q) {
        DropsValue(d.files, p);
        forall x | x in Apply(d, a).files.Values ensures x in d.files.Values {
          var y :| y in Apply(d, a).files && Apply(d, a).files[y] == x;
          assert if y == q then d.files[p] == x else d.files[y] == x;
        }
      }
    case Link(p, q) =>
      if p in d.files && q !in d.files && Free(d, q) { AddsValue(d.files, q, d.files[p]); }
    case Make(p, mode, content) =>
      if p !in d.files && Free(d, p) { AddsValue(d.files, p, d.next); }
    case MakeDir(_) =>
    case RemoveDir(_) =>
  }

  lemma ApplyKeepsTree(d: Dir, a: Act)
    requires Tree(d.files, d.dirs)
    ensures Tree(Apply(d, a).files, Apply(d, a).dirs)
  {
  }

  lemma ApplyAccounts(d: Dir, a: Act, published: set<nat>, withdrawn: set<nat>, captured: set<nat>,
                      surrendered: set<nat>, orphaned: set<nat>)
    requires d.Valid() && Accounted(d, published, withdrawn, captured, surrendered, orphaned)
    ensures var e := Apply(d, a);
            Accounted(e, published + e.files.Values, withdrawn + (d.files.Values - e.files.Values), captured,
                      surrendered + (d.Links() - e.Links()), orphaned)
  {
    ApplyKeeps(d, a);
  }

  lemma MakeDirKeeps(d: Dir, p: string, published: set<nat>, withdrawn: set<nat>, captured: set<nat>,
                     surrendered: set<nat>, orphaned: set<nat>)
    requires d.Valid() && Accounted(d, published, withdrawn, captured, surrendered, orphaned) && Tree(d.files, d.dirs)
    requires p !in d.files && Ancestors(p) <= d.dirs
    ensures var e := d.(dirs := d.dirs + {p});
            e.Valid() && Tree(e.files, e.dirs) && Accounted(e, published, withdrawn, captured, surrendered, orphaned)
  {
    assert d.(dirs := d.dirs + {p}).Links() == d.Links();
  }

  lemma StageAccounts(d: Dir, token: nat, s: Snapshot, published: set<nat>, withdrawn: set<nat>, captured: set<nat>,
                      surrendered: set<nat>, orphaned: set<nat>)
    requires d.Valid() && Accounted(d, published, withdrawn, captured, surrendered, orphaned) && s.Present? && token !in d.temps
    ensures var e := Stage(d, token, s.mode, s.content);
            e.Valid() && Accounted(e, published, withdrawn, captured, surrendered, orphaned)
  {
    AddsValue(d.temps, token, d.next);
  }

  // A capture moves a link: it never removes the last one.
  lemma CaptureMovesLink(d: Dir, path: string, token: nat)
    requires d.Valid() && path in d.files && token !in d.slots
    ensures Capture(d, path, token).Links() == d.Links()
    ensures Capture(d, path, token).slots.Values == d.slots.Values + {d.files[path]}
    ensures Capture(d, path, token).files.Values <= d.files.Values
    ensures d.files.Values <= Capture(d, path, token).files.Values + {d.files[path]}
  {
    DropsValue(d.files, path);
    AddsValue(d.slots, token, d.files[path]);
    assert d.files[path] in d.files.Values;
  }

  lemma CaptureAccounts(d: Dir, path: string, token: nat, published: set<nat>, withdrawn: set<nat>, captured: set<nat>,
                        surrendered: set<nat>, orphaned: set<nat>)
    requires d.Valid() && Accounted(d, published, withdrawn, captured, surrendered, orphaned) && path in d.files
            && token !in d.slots
    ensures var e := Capture(d, path, token);
            && d.files[path] in published && e.Valid() && orphaned + (d.Links() - e.Links()) == orphaned
            && Accounted(e, published, withdrawn, captured + {d.files[path]}, surrendered, orphaned)
  {
    CaptureMovesLink(d, path, token);
  }

  lemma CaptureKeepsTree(d: Dir, path: string, token: nat)
    requires Tree(d.files, d.dirs) && path in d.files
    ensures Tree(Capture(d, path, token).files, d.dirs)
  {
  }

  lemma PublishAccounts(d: Dir, i: nat, path: string, published: set<nat>, withdrawn: set<nat>, captured: set<nat>,
                        surrendered: set<nat>, orphaned: set<nat>)
    requires d.Valid() && Accounted(d, published, withdrawn, captured, surrendered, orphaned) && i in d.Links()
            && path !in d.files
    ensures var e := Publish(d, i, path);
            && d.Links() <= e.Links()
            && e.Valid() && Accounted(e, published + {i}, withdrawn, captured, surrendered, orphaned)
  {
    AddsValue(d.files, path, i);
  }

  lemma PublishKeepsTree(d: Dir, i: nat, path: string)
    requires Tree(d.files, d.dirs) && Free(d, path)
    ensures Tree(Publish(d, i, path).files, d.dirs)
  {
  }

  lemma DiscardAccounts(d: Dir, token: nat, published: set<nat>, withdrawn: set<nat>, captured: set<nat>,
                        surrendered: set<nat>, orphaned: set<nat>)
    requires d.Valid() && Accounted(d, published, withdrawn, captured, surrendered, orphaned) && token in d.temps
    ensures var e := Discard(d, token);
            e.Valid() && Accounted(e, published, withdrawn, captured, surrendered, orphaned + (d.Links() - e.Links()))
  {
    DropsValue(d.temps, token);
  }
}
