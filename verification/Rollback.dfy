/** Undoing an apply (`_RollbackState` in `host_apply.py`): what is recorded before each
    change, and what replaying the record brings back. */
module Rollback {
  import opened Text
  import opened Host

  const RUNTIME_STATE_FILES :=
    {"mcp.log", "tunnel.log", "tunnel-supervisor.log", "admission-guard.log", "admission-recovery.json"}
  const OWNER_FILE := ".owner"

  predicate FileLike(n: Node) { n.File? || n.Blob? }

  datatype Backup = Backup(path: Path, node: Node)
  datatype Removed = Removed(path: Path, mode: nat)

  datatype Undo = Undo(backups: seq<Backup>, created: seq<Path>, stateDirs: seq<Path>, removed: seq<Removed>)

  const NOTHING := Undo([], [], [], [])

  /** `_RollbackState.backup`: directories and missing paths leave no record. */
  function RecordBackup(fs: Tree, u: Undo, p: Path): Undo {
    if p in fs && FileLike(fs[p]) then u.(backups := u.backups + [Backup(p, fs[p])]) else u
  }

  function RecordCreated(u: Undo, p: Path): Undo { u.(created := u.created + [p]) }

  function RecordState(u: Undo, p: Path, state: bool): Undo {
    if state then u.(stateDirs := u.stateDirs + [p]) else u
  }

  function RecordRemoved(u: Undo, p: Path, mode: nat): Undo { u.(removed := u.removed + [Removed(p, mode)]) }

  // ---- replaying the record ----

  /** One backup written back: read as strict UTF-8 text, so bytes that are not text abort. */
  function PutBack(fs: Tree, b: Backup): Option<Tree> {
    if !b.node.File? || !ParentsAreDirs(fs, b.path) || (b.path in fs && fs[b.path].Dir?) then None
    else Some(WithParents(fs, b.path)[b.path := File(Universal(b.node.text), b.node.mode)])
  }

  /** Backups newest first, so that the oldest one of a path is what stays. */
  function PutBackAll(fs: Tree, backups: seq<Backup>): Option<Tree>
    decreases |backups|
  {
    if backups == [] then Some(fs)
    else match PutBack(fs, backups[|backups| - 1])
      case None => None
      case Some(next) => PutBackAll(next, backups[..|backups| - 1])
  }

  function MakeAgain(fs: Tree, r: Removed): Option<Tree> {
    if r.path in fs then Some(fs)
    else if !ParentsAreDirs(fs, r.path) then None
    else Some(WithParents(fs, r.path)[r.path := Dir(r.mode)])
  }

  function MakeAllAgain(fs: Tree, removed: seq<Removed>): Option<Tree>
    decreases |removed|
  {
    if removed == [] then Some(fs)
    else match MakeAgain(fs, removed[|removed| - 1])
      case None => None
      case Some(next) => MakeAllAgain(next, removed[..|removed| - 1])
  }

  predicate ChildOf(dir: Path, p: Path) { |p| == |dir| + 1 && p[..|dir|] == dir }

  function Name(p: Path): string { if p == [] then "" else p[|p| - 1] }

  function Parent(p: Path): Path { if p == [] then [] else p[..|p| - 1] }

  predicate RuntimeLog(fs: Tree, dir: Path, p: Path) {
    p in fs && ChildOf(dir, p) && Name(p) in RUNTIME_STATE_FILES && FileLike(fs[p])
  }

  function Logs(fs: Tree, dir: Path): set<Path> {
    set p | p in fs && RuntimeLog(fs, dir, p)
  }

  /** Anything but the marker and the runtime logs makes a state directory worth keeping. */
  predicate Occupied(fs: Tree, dir: Path) {
    exists p | p in fs :: ChildOf(dir, p) && Name(p) != OWNER_FILE && !RuntimeLog(fs, dir, p)
  }

  function PurgeLogs(fs: Tree, stateDirs: seq<Path>): Tree {
    if stateDirs == [] then fs
    else
      var before := PurgeLogs(fs, stateDirs[..|stateDirs| - 1]);
      var dir := stateDirs[|stateDirs| - 1];
      if dir in before && before[dir].Dir? then before - Logs(before, dir) else before
  }

  predicate Preserved(fs: Tree, stateDirs: seq<Path>, dir: Path) {
    dir in stateDirs && dir in fs && fs[dir].Dir? && Occupied(fs, dir)
  }

  /** The marker of a state directory that stays is not taken away. */
  predicate Spared(fs: Tree, stateDirs: seq<Path>, p: Path) {
    p != [] && Name(p) == OWNER_FILE && Preserved(fs, stateDirs, Parent(p))
  }

  predicate Removable(fs: Tree, p: Path) { p in fs && (fs[p].Dir? ==> Empty(fs, p)) }

  /** Created paths, newest first; a directory goes only once it is empty. */
  function Uncreate(fs: Tree, created: seq<Path>, spared: set<Path>): Tree {
    if created == [] then fs
    else
      var p := created[|created| - 1];
      Uncreate(if p !in spared && Removable(fs, p) then fs - {p} else fs, created[..|created| - 1], spared)
  }

  function SparedOf(fs: Tree, u: Undo): set<Path> {
    set p | p in u.created && Spared(fs, u.stateDirs, p)
  }

  /** The first two stages of `_RollbackState.restore`; `None` when they stop with an exception. */
  function Rebuilding(fs: Tree, u: Undo): Option<Tree> {
    match PutBackAll(fs, u.backups)
    case None => None
    case Some(files) => MakeAllAgain(files, u.removed)
  }

  /** `_RollbackState.restore` while nobody else writes and no call fails. */
  function Restored(fs: Tree, u: Undo): Option<Tree> {
    match Rebuilding(fs, u)
    case None => None
    case Some(dirs) => Some(Uncreate(PurgeLogs(dirs, u.stateDirs), u.created, SparedOf(dirs, u)))
  }

  // ---- what the record promises ----

  /** The node the oldest backup of a path holds. */
  function Oldest(backups: seq<Backup>, p: Path): Option<Node> {
    if backups == [] then None
    else if backups[0].path == p then Some(backups[0].node)
    else Oldest(backups[1..], p)
  }

  lemma {:induction false} OldestAppend(backups: seq<Backup>, b: Backup, p: Path)
    ensures Oldest(backups + [b], p)
            == if Oldest(backups, p).Some? then Oldest(backups, p) else if b.path == p then Some(b.node) else None
  {
    if backups == [] {
      assert [] + [b] == [b] && [b][1..] == [];
    } else {
      assert (backups + [b])[1..] == backups[1..] + [b];
      OldestAppend(backups[1..], b, p);
    }
  }

  lemma {:induction false} OldestFound(backups: seq<Backup>, p: Path)
    ensures Oldest(backups, p).Some? <==> exists b | b in backups :: b.path == p
    ensures Oldest(backups, p).Some? ==> Backup(p, Oldest(backups, p).value) in backups
  {
    if backups != [] {
      OldestFound(backups[1..], p);
      assert forall b :: b in backups <==> b == backups[0] || b in backups[1..];
    }
  }

  ghost predicate Recorded(removed: seq<Removed>, p: Path) { exists r | r in removed :: r.path == p }

  /** Nothing but a directory stands where, or on the way to where, the record will write. */
  predicate Clear(fs: Tree, p: Path) { ParentsAreDirs(fs, p) }

  ghost predicate ClearBackups(fs: Tree, backups: seq<Backup>) {
    && (forall b | b in backups ::
       b.path != [] && Clear(fs, b.path) && (b.path in fs ==> !fs[b.path].Dir?) && FileLike(b.node))
    && (forall b, c | b in backups && c in backups :: !Below(b.path, c.path))
  }

  ghost predicate ClearRemoved(fs: Tree, removed: seq<Removed>) {
    forall r | r in removed :: r.path != [] && Clear(fs, r.path) && (r.path in fs ==> fs[r.path].Dir?)
  }

  ghost predicate ClearRecord(fs: Tree, u: Undo) {
    && ClearBackups(fs, u.backups) && ClearRemoved(fs, u.removed)
    && (forall b, r | b in u.backups && r in u.removed :: b.path != r.path && !Below(b.path, r.path))
  }

  /** Newest first never meets a directory before what it contains. */
  ghost predicate TopDown(created: seq<Path>) {
    && (forall i, j | 0 <= i < j < |created| :: created[i] != created[j] && !Below(created[j], created[i]))
  }

  ghost predicate Known(fs0: Tree, u: Undo, noisy: set<Path>, scaffold: set<Path>, p: Path) {
    p in fs0 || p in u.created || p in scaffold || p in noisy
  }

  ghost predicate KnownWay(fs0: Tree, u: Undo, noisy: set<Path>, scaffold: set<Path>, p: Path) {
    forall a | a != [] && (a == p || Below(a, p)) :: Known(fs0, u, noisy, scaffold, a)
  }

  /** The record taken since `fs0` accounts for every difference to `fs`, apart from what
      running units wrote (`noisy`) and from parents made on the way (`scaffold`). */
  ghost predicate Tracks(fs0: Tree, fs: Tree, u: Undo, noisy: set<Path>, scaffold: set<Path>) {
    && Rooted(fs0) && Rooted(fs)
    && (forall p | p in fs0 && !fs0[p].Dir? && p !in noisy ::
          match Oldest(u.backups, p) case None => p in fs && fs[p] == fs0[p] case Some(n) => n == fs0[p])
    && (forall p | p in fs0 && fs0[p].Dir? :: (p in fs && fs[p].Dir?) || (p !in fs && Recorded(u.removed, p)))
    && (forall p | p in fs && p !in fs0 :: Known(fs0, u, noisy, scaffold, p))
    && (forall b | b in u.backups :: KnownWay(fs0, u, noisy, scaffold, b.path))
    && (forall r | r in u.removed :: KnownWay(fs0, u, noisy, scaffold, r.path))
    && (forall p | p in u.created :: p !in fs0 && p != [])
    && (forall p | p in u.stateDirs :: p in u.created && Name(p) != OWNER_FILE)
    && TopDown(u.created)
    && ClearRecord(fs, u)
  }

  function AsRead(n: Node): Node {
    match n
    case File(text, mode) => File(Universal(text), mode)
    case _ => n
  }

  lemma ClearAfterPutBack(fs: Tree, backups: seq<Backup>, b: Backup)
    requires ClearBackups(fs, backups + [b]) && b.node.File?
    ensures PutBack(fs, b).Some? && ClearBackups(PutBack(fs, b).value, backups)
  {
    assert b in backups + [b];
    var next := PutBack(fs, b).value;
    forall c | c in backups
      ensures c.path != [] && Clear(next, c.path) && (c.path in next ==> !next[c.path].Dir?) && FileLike(c.node)
    {
      assert c in backups + [b];
      assert !Below(b.path, c.path) && !Below(c.path, b.path);
    }
    forall c, e | c in backups && e in backups ensures !Below(c.path, e.path) {
      assert c in backups + [b] && e in backups + [b];
    }
  }

  /** Backups come back, oldest content last, and nothing else moves. */
  lemma {:induction false} PutBackAllIs(fs: Tree, backups: seq<Backup>)
    requires ClearBackups(fs, backups) && Rooted(fs)
    ensures PutBackAll(fs, backups).Some? <==> forall b | b in backups :: b.node.File?
    ensures PutBackAll(fs, backups).Some? ==>
              var r := PutBackAll(fs, backups).value;
              && Rooted(r)
              && (forall p | p in fs && Oldest(backups, p).None? :: p in r && r[p] == fs[p])
              && (forall p | Oldest(backups, p).Some? :: p in r && r[p] == AsRead(Oldest(backups, p).value))
              && (forall p | p in r && p !in fs && Oldest(backups, p).None? ::
                    r[p].Dir? && p != [] && exists b | b in backups :: Below(p, b.path))
    decreases |backups|
  {
    if backups != [] {
      var b, before := backups[|backups| - 1], backups[..|backups| - 1];
      assert backups == before + [b];
      assert b in backups;
      if b.node.File? {
        ClearAfterPutBack(fs, before, b);
        var next := PutBack(fs, b).value;
        PutRooted(fs, b.path, File(Universal(b.node.text), b.node.mode));
        PutBackAllIs(next, before);
        assert forall c :: c in backups <==> c == b || c in before;
        forall p { OldestAppend(before, b, p); }
        if PutBackAll(next, before).Some? {
          var r := PutBackAll(next, before).value;
          forall p | p in r && p !in fs && Oldest(backups, p).None?
            ensures r[p].Dir? && p != [] && exists b | b in backups :: Below(p, b.path)
          {
            if p in next { assert Below(p, b.path); }
          }
        }
      }
    }
  }

  /** Removed directories are there again, and nothing else moves. */
  lemma {:induction false} MakeAllAgainIs(fs: Tree, removed: seq<Removed>)
    requires ClearRemoved(fs, removed) && Rooted(fs)
    ensures MakeAllAgain(fs, removed).Some?
    ensures var r := MakeAllAgain(fs, removed).value;
            && Rooted(r)
            && (forall p | p in fs :: p in r && r[p] == fs[p])
            && (forall p | Recorded(removed, p) :: p in r)
            && (forall p | p in r && p !in fs :: r[p].Dir? && p != [] && exists m | m in removed ::
               p == m.path || Below(p, m.path))
    decreases |removed|
  {
    if removed != [] {
      var m, before := removed[|removed| - 1], removed[..|removed| - 1];
      assert removed == before + [m];
      assert m in removed && Clear(fs, m.path);
      assert forall n :: n in removed <==> n == m || n in before;
      var next := MakeAgain(fs, m).value;
      if m.path !in fs { PutRooted(fs, m.path, Dir(m.mode)); }
      assert forall n | n in before :: n in removed && Clear(next, n.path);
      MakeAllAgainIs(next, before);
      var r := MakeAllAgain(next, before).value;
      forall p | p in r && p !in fs
        ensures r[p].Dir? && p != [] && exists n | n in removed :: p == n.path || Below(p, n.path)
      {
        if p in next { assert p == m.path || Below(p, m.path); }
      }
      assert m.path in next;
    }
  }

  lemma {:induction false} PurgeLogsIs(fs: Tree, stateDirs: seq<Path>)
    ensures var r := PurgeLogs(fs, stateDirs);
            forall p ::
              p in r
              <==> p in fs && !(exists dir | dir in stateDirs :: dir in fs && fs[dir].Dir? && RuntimeLog(fs, dir, p))
    ensures var r := PurgeLogs(fs, stateDirs); forall p | p in r :: r[p] == fs[p]
  {
    if stateDirs != [] {
      var dir, before := stateDirs[|stateDirs| - 1], stateDirs[..|stateDirs| - 1];
      PurgeLogsIs(fs, before);
      assert stateDirs == before + [dir];
      var mid := PurgeLogs(fs, before);
      assert forall x :: x in stateDirs <==> x == dir || x in before;
      forall p | RuntimeLog(fs, dir, p) && dir in fs && fs[dir].Dir?
        ensures p !in PurgeLogs(fs, stateDirs)
      {
        if p in mid && dir in mid { assert p in Logs(mid, dir); }
      }
    }
  }

  /** A created path goes when everything below it was created too and nothing there is spared. */
  ghost predicate Gone(fs: Tree, created: seq<Path>, spared: set<Path>, p: Path) {
    p !in spared && forall q | q in fs && Below(p, q) :: q in created && q !in spared
  }

  lemma {:induction false} UncreateIs(fs: Tree, created: seq<Path>, spared: set<Path>)
    requires Rooted(fs) && TopDown(created) && [] !in created
    ensures var r := Uncreate(fs, created, spared);
            && (forall p :: p in r <==> p in fs && !(p in created && Gone(fs, created, spared, p)))
            && (forall p | p in r :: r[p] == fs[p])
    decreases |created|
  {
    if created != [] {
      var c, before := created[|created| - 1], created[..|created| - 1];
      assert created == before + [c];
      assert forall x :: x in created <==> x == c || x in before;
      NothingCreatedBelowLast(created);
      if c in fs && fs[c].Dir? {
      } else if c in fs {
        forall q | q in fs ensures !Below(c, q) { if Below(c, q) { RootedAbove(fs, c, q); } }
      }
      assert Removable(fs, c) <==> c in fs && Empty(fs, c);
      var next := if c !in spared && Removable(fs, c) then fs - {c} else fs;
      if c !in spared && Removable(fs, c) { DropRooted(fs, c); }
      UncreateIs(next, before, spared);
      forall p
        ensures p in next && !(p in before && Gone(next, before, spared, p))
                <==> p in fs && !(p in created && Gone(fs, created, spared, p))
      {
        UncreateStep(fs, next, before, created, c, spared, p);
      }
    }
  }

  lemma NothingCreatedBelowLast(created: seq<Path>)
    requires TopDown(created) && created != []
    ensures forall x | x in created :: !Below(created[|created| - 1], x)
    ensures created[|created| - 1] !in created[..|created| - 1]
  {
    forall x | x in created ensures !Below(created[|created| - 1], x) {
      var i :| 0 <= i < |created| && created[i] == x;
    }
  }

  lemma UncreateStep(fs: Tree, next: Tree, before: seq<Path>, created: seq<Path>, c: Path, spared: set<Path>, p: Path)
    requires created == before + [c] && c !in before
    requires forall x | x in created :: !Below(c, x)
    requires next == if c !in spared && c in fs && Empty(fs, c) then fs - {c} else fs
    ensures p in next && !(p in before && Gone(next, before, spared, p))
            <==> p in fs && !(p in created && Gone(fs, created, spared, p))
  {
    assert forall x :: x in created <==> x == c || x in before;
    if p == c {
      assert Gone(fs, created, spared, c) <==> c !in spared && Empty(fs, c);
    } else if p in before {
      if c in next && Below(p, c) && c !in spared {
        var q :| q in fs && Below(c, q);
        assert Below(p, q) by { assert q[..|p|] == c[..|p|]; }
      }
      assert Gone(next, before, spared, p) <==> Gone(fs, created, spared, p);
    }
  }

  ghost predicate AllText(u: Undo) { forall b | b in u.backups :: b.node.File? }

  ghost predicate OnRecord(u: Undo, p: Path) {
    (exists b | b in u.backups :: p == b.path || Below(p, b.path))
      || (exists r | r in u.removed :: p == r.path || Below(p, r.path))
  }

  /** The tree after the first two stages: backups and removed directories are back. */
  ghost predicate Rebuilt(fs: Tree, u: Undo, dirs: Tree) {
    && Rooted(dirs)
    && (forall p | p in fs && Oldest(u.backups, p).None? :: p in dirs && dirs[p] == fs[p])
    && (forall p | Oldest(u.backups, p).Some? :: p in dirs && dirs[p] == AsRead(Oldest(u.backups, p).value))
    && (forall p | Recorded(u.removed, p) :: p in dirs)
    && (forall p | p in dirs && p !in fs && Oldest(u.backups, p).None? :: dirs[p].Dir? && p != [] && OnRecord(u, p))
  }

  lemma RemovedStayClear(fs: Tree, u: Undo, files: Tree)
    requires Rooted(fs) && ClearRecord(fs, u) && PutBackAll(fs, u.backups) == Some(files)
    ensures ClearRemoved(files, u.removed)
  {
    PutBackAllIs(fs, u.backups);
    hide PutBackAll;
    forall r | r in u.removed ensures Clear(files, r.path) && (r.path in files ==> files[r.path].Dir?) {
      assert Clear(fs, r.path);
      OldestFound(u.backups, r.path);
      forall a | a in Ancestors(r.path) && a in files ensures files[a].Dir? {
        OldestFound(u.backups, a);
        assert Below(a, r.path);
      }
    }
  }

  lemma Rebuilds(fs: Tree, u: Undo) returns (dirs: Tree)
    requires Rooted(fs) && ClearRecord(fs, u) && AllText(u)
    ensures Rebuilt(fs, u, dirs) && Rebuilding(fs, u) == Some(dirs)
    ensures Restored(fs, u) == Some(Uncreate(PurgeLogs(dirs, u.stateDirs), u.created, SparedOf(dirs, u)))
  {
    PutBackAllIs(fs, u.backups);
    var files := PutBackAll(fs, u.backups).value;
    RemovedStayClear(fs, u, files);
    MakeAllAgainIs(files, u.removed);
    dirs := MakeAllAgain(files, u.removed).value;
    forall p | p in dirs && p !in fs && Oldest(u.backups, p).None?
      ensures dirs[p].Dir? && p != [] && OnRecord(u, p)
    {
    }
  }

  /** What the purge of a freshly made state directory and of created paths takes is new. */
  lemma PurgeSparesOld(fs0: Tree, fs: Tree, u: Undo, noisy: set<Path>, scaffold: set<Path>, dirs: Tree, p: Path)
    requires Tracks(fs0, fs, u, noisy, scaffold) && Rebuilt(fs, u, dirs)
    requires p in fs0 && p in dirs
    ensures p in PurgeLogs(dirs, u.stateDirs) && PurgeLogs(dirs, u.stateDirs)[p] == dirs[p]
  {
    PurgeLogsIs(dirs, u.stateDirs);
    forall dir | dir in u.stateDirs && ChildOf(dir, p) ensures false {
      RootedAbove(fs0, dir, p);
    }
  }

  lemma UncreatedIs(fs0: Tree, fs: Tree, u: Undo, noisy: set<Path>, scaffold: set<Path>, dirs: Tree)
    returns (purged: Tree, out: Tree)
    requires Tracks(fs0, fs, u, noisy, scaffold) && Rebuilt(fs, u, dirs)
    ensures purged == PurgeLogs(dirs, u.stateDirs) && Rooted(purged)
    ensures out == Uncreate(purged, u.created, SparedOf(dirs, u))
    ensures forall p :: p in out <==> p in purged && !(p in u.created && Gone(purged, u.created, SparedOf(dirs, u), p))
    ensures forall p | p in out :: out[p] == purged[p] && p in dirs && dirs[p] == purged[p]
  {
    purged := PurgeLogs(dirs, u.stateDirs);
    PurgeLogsIs(dirs, u.stateDirs);
    forall p, i | p in purged && 0 < i < |p| ensures p[..i] in purged && purged[p[..i]].Dir? {
      assert p[..i] in dirs && dirs[p[..i]].Dir?;
    }
    UncreateIs(purged, u.created, SparedOf(dirs, u));
    out := Uncreate(purged, u.created, SparedOf(dirs, u));
  }

  /** Undoing stops short exactly when a backup is not text. */
  lemma RestoreAborts(fs0: Tree, fs: Tree, u: Undo, noisy: set<Path>, scaffold: set<Path>)
    requires Tracks(fs0, fs, u, noisy, scaffold)
    ensures Restored(fs, u).Some? <==> AllText(u)
  {
    PutBackAllIs(fs, u.backups);
    if AllText(u) {
      var _ := Rebuilds(fs, u);
    }
  }

  /** Whatever prefix of an apply ran, undoing gives every earlier file its text (as a text
      read sees it) and mode, every earlier directory, and nothing the record does not know. */
  lemma RestoreInverts(fs0: Tree, fs: Tree, u: Undo, noisy: set<Path>, scaffold: set<Path>)
    requires Tracks(fs0, fs, u, noisy, scaffold) && AllText(u)
    ensures Restored(fs, u).Some?
    ensures forall p | p in fs0 && !fs0[p].Dir? && p !in noisy ::
              && p in Restored(fs, u).value
              && Restored(fs, u).value[p] == if Oldest(u.backups, p).Some? then AsRead(fs0[p]) else fs0[p]
    ensures forall p | p in fs0 && fs0[p].Dir? :: p in Restored(fs, u).value && Restored(fs, u).value[p].Dir?
    ensures forall p | p in Restored(fs, u).value && p !in fs0 :: Known(fs0, u, noisy, scaffold, p)
    ensures forall p | p in fs0 && p in fs && Oldest(u.backups, p).None? ::
              p in Restored(fs, u).value && Restored(fs, u).value[p] == fs[p]
  {
    var dirs := Rebuilds(fs, u);
    var purged, out := UncreatedIs(fs0, fs, u, noisy, scaffold, dirs);
    forall p | p in fs0
      ensures p in dirs ==> p in out && out[p] == dirs[p]
    {
      if p in dirs { PurgeSparesOld(fs0, fs, u, noisy, scaffold, dirs, p); }
    }
    forall p | p in fs0 && fs0[p].Dir? ensures p in dirs && dirs[p].Dir? {
      OldestFound(u.backups, p);
    }
    forall p | p in out && p !in fs0 ensures Known(fs0, u, noisy, scaffold, p) {
      OldestFound(u.backups, p);
    }
  }

  ghost predicate AboveRecord(u: Undo, p: Path) {
    (exists b | b in u.backups :: Below(p, b.path)) || (exists r | r in u.removed :: p == r.path || Below(p, r.path))
  }

  /** No path the record would write is at or below a log. */
  ghost predicate LogsFree(u: Undo, logs: set<Path>) {
    forall l | l in logs :: !AboveRecord(u, l)
  }

  /** Where something is at these paths, it is a file. */
  predicate FilesAt(fs: Tree, paths: set<Path>) {
    forall p | p in paths && p in fs :: FileLike(fs[p])
  }

  /** A log not there before, in a state directory made by this apply. */
  ghost predicate NewLog(fs: Tree, u: Undo, p: Path) {
    && p != [] && Parent(p) in u.stateDirs && Name(p) in RUNTIME_STATE_FILES
    && (p in fs ==> FileLike(fs[p])) && !AboveRecord(u, p)
  }

  /** Nobody but the apply and the units it runs wrote where the apply created: what is new and
      noisy there is a runtime log of a state directory made here, and below created directories
      nothing else was made on the way. */
  ghost predicate Undisturbed(fs0: Tree, fs: Tree, u: Undo, noisy: set<Path>, scaffold: set<Path>) {
    && (forall p, c | p in noisy && p !in fs0 && c in u.created && Below(c, p) :: NewLog(fs, u, p))
    && (forall s, c | s in scaffold && c in u.created :: !Below(c, s))
    && (forall c | c in u.created && c != [] && Parent(c) in u.stateDirs :: Name(c) == OWNER_FILE)
  }

  lemma NoisyIsLog(fs: Tree, u: Undo, dirs: Tree, q: Path)
    requires Rebuilt(fs, u, dirs) && NewLog(fs, u, q) && q in dirs && ClearBackups(fs, u.backups)
    ensures RuntimeLog(dirs, Parent(q), q)
  {
    OldestFound(u.backups, q);
    if Oldest(u.backups, q).Some? {
      assert FileLike(AsRead(Oldest(u.backups, q).value));
    }
    assert q in fs || Oldest(u.backups, q).Some?;
  }

  lemma RebuiltIsKnown(fs0: Tree, fs: Tree, u: Undo, noisy: set<Path>, scaffold: set<Path>, dirs: Tree, q: Path)
    requires Tracks(fs0, fs, u, noisy, scaffold) && Rebuilt(fs, u, dirs) && q in dirs && q != []
    ensures Known(fs0, u, noisy, scaffold, q)
  {
    OldestFound(u.backups, q);
  }

  lemma BelowCreatedIsNew(fs0: Tree, fs: Tree, u: Undo, noisy: set<Path>, scaffold: set<Path>, c: Path, q: Path)
    requires Tracks(fs0, fs, u, noisy, scaffold) && c in u.created && Below(c, q)
    ensures q !in fs0 && q != []
  {
    if q in fs0 { RootedAbove(fs0, c, q); }
  }

  lemma NewIsCreatedOrLog(fs0: Tree, fs: Tree, u: Undo, noisy: set<Path>, scaffold: set<Path>, c: Path, q: Path)
    requires Undisturbed(fs0, fs, u, noisy, scaffold) && Known(fs0, u, noisy, scaffold, q)
    requires c in u.created && q !in fs0 && Below(c, q)
    ensures q in u.created || NewLog(fs, u, q)
  {
  }

  /** What is below a created directory is created too, or a log that its unit wrote. */
  lemma NewBelowCreated(fs0: Tree, fs: Tree, u: Undo, noisy: set<Path>, scaffold: set<Path>, dirs: Tree, c: Path,
      q: Path)
    requires Tracks(fs0, fs, u, noisy, scaffold) && Undisturbed(fs0, fs, u, noisy, scaffold) && Rebuilt(fs, u, dirs)
    requires c in u.created && q in dirs && Below(c, q)
    ensures q in u.created || (RuntimeLog(dirs, Parent(q), q) && Parent(q) in u.stateDirs)
    ensures q !in fs0
  {
    BelowCreatedIsNew(fs0, fs, u, noisy, scaffold, c, q);
    RebuiltIsKnown(fs0, fs, u, noisy, scaffold, dirs, q);
    NewIsCreatedOrLog(fs0, fs, u, noisy, scaffold, c, q);
    if q !in u.created {
      NewLogState(fs, u, q);
      assert ClearBackups(fs, u.backups);
      hide Tracks, Undisturbed, Rebuilt, NewLog, RuntimeLog, ClearBackups, Below, Parent;
      NoisyIsLog(fs, u, dirs, q);
    }
  }

  lemma NewLogState(fs: Tree, u: Undo, q: Path)
    requires NewLog(fs, u, q)
    ensures Parent(q) in u.stateDirs
  {
  }

  lemma NothingSpared(fs0: Tree, fs: Tree, u: Undo, noisy: set<Path>, scaffold: set<Path>, dirs: Tree)
    requires Tracks(fs0, fs, u, noisy, scaffold) && Undisturbed(fs0, fs, u, noisy, scaffold) && Rebuilt(fs, u, dirs)
    ensures SparedOf(dirs, u) == {}
  {
    forall dir | dir in u.stateDirs ensures !Occupied(dirs, dir) {
      forall p | p in dirs && ChildOf(dir, p) && Name(p) != OWNER_FILE ensures RuntimeLog(dirs, dir, p) {
        assert Parent(p) == dir;
        NewBelowCreated(fs0, fs, u, noisy, scaffold, dirs, dir, p);
      }
    }
  }

  /** Undisturbed, undoing removes every path the apply created. */
  lemma CreatedGoes(fs0: Tree, fs: Tree, u: Undo, noisy: set<Path>, scaffold: set<Path>)
    requires Tracks(fs0, fs, u, noisy, scaffold) && AllText(u) && Undisturbed(fs0, fs, u, noisy, scaffold)
    ensures Restored(fs, u).Some?
    ensures forall p | p in u.created :: p !in Restored(fs, u).value
  {
    var dirs := Rebuilds(fs, u);
    var purged, out := UncreatedIs(fs0, fs, u, noisy, scaffold, dirs);
    NothingSpared(fs0, fs, u, noisy, scaffold, dirs);
    forall p | p in u.created && p in purged ensures Gone(purged, u.created, {}, p) {
      forall q | q in purged && Below(p, q) ensures q in u.created {
        PurgedIsNoLog(dirs, u, q);
        NewBelowCreated(fs0, fs, u, noisy, scaffold, dirs, p, q);
      }
    }
  }

  lemma PurgedIsNoLog(dirs: Tree, u: Undo, q: Path)
    requires Rooted(dirs) && q in PurgeLogs(dirs, u.stateDirs) && |q| > 1
    ensures q in dirs && !(Parent(q) in u.stateDirs && RuntimeLog(dirs, Parent(q), q))
  {
    PurgeLogsIs(dirs, u.stateDirs);
    assert q in dirs;
    assert Parent(q) in dirs && dirs[Parent(q)].Dir?;
  }

  lemma ChildOnTheWay(fs: Tree, dir: Path, q: Path) returns (child: Path)
    requires Rooted(fs) && q in fs && Below(dir, q)
    ensures ChildOf(dir, child) && child in fs && (child == q || (Below(child, q) && fs[child].Dir?))
  {
    child := q[..|dir| + 1];
    assert child[..|dir|] == dir;
    if child != q {
      assert 0 < |dir| + 1 < |q|;
      assert q[..|dir| + 1] in fs;
    }
  }

  lemma OnlyOwnerBelow(dirs: Tree, u: Undo, dir: Path, q: Path)
    requires Rooted(dirs) && dir in u.stateDirs && dir != [] && !Preserved(dirs, u.stateDirs, dir)
    requires q in PurgeLogs(dirs, u.stateDirs) && Below(dir, q)
    ensures q == dir + [OWNER_FILE] || Below(dir + [OWNER_FILE], q)
  {
    hide Rooted, PurgeLogs, Preserved, RuntimeLog, Occupied;
    PurgeLogsIs(dirs, u.stateDirs);
    RootedAbove(dirs, dir, q);
    var child := ChildOnTheWay(dirs, dir, q);
    if child != q { DirectoryIsNoLog(dirs, dir, child); }
    OwnerOrMore(dirs, u.stateDirs, dir, child);
  }

  lemma DirectoryIsNoLog(fs: Tree, dir: Path, p: Path)
    requires p in fs && fs[p].Dir?
    ensures !RuntimeLog(fs, dir, p)
  {
  }

  lemma OwnerOrMore(fs: Tree, stateDirs: seq<Path>, dir: Path, child: Path)
    requires dir in stateDirs && dir in fs && fs[dir].Dir? && !Preserved(fs, stateDirs, dir)
    requires child in fs && ChildOf(dir, child) && !RuntimeLog(fs, dir, child)
    ensures child == dir + [OWNER_FILE]
  {
    assert Name(child) == OWNER_FILE;
  }
}
