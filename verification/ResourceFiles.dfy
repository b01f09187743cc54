/** Writing and removing resources under a rollback record (`host_apply.py`). */
module ResourceFiles {
  import opened Text
  import opened Host
  import opened Generation
  import opened Planning
  import opened Rollback
  import opened Restoration
  import opened Sorting
  import opened Tracking
  import opened Placement

  /** What planning established about a resource to be written; where a file is due, a
      directory made meanwhile for something else will stop the write. */
  predicate Ready(fs: Tree, op: Operation, r: Resource) {
    && (r.kind.Directory? || (r.content.Some? && '\r' !in r.content.value))
    && (r.id.StateDir? ==> Name(r.path) != OWNER_FILE)
    && (r.path in fs ==> fs[r.path].Dir? || (!r.kind.Directory? && fs[r.path].File? && op.Update?))
  }

  predicate WritesOnly(items: seq<PlanItem>, logs: set<Path>) {
    && (forall i | 0 <= i < |items| :: items[i].subject.OnResource? && (items[i].op.Create? || items[i].op.Update?)
          && Apart(items[i].subject.r.path, logs))
    && (forall i, j | 0 <= i < j < |items| :: items[i].subject.r.path != items[j].subject.r.path)
  }

  function PathsOf(items: seq<PlanItem>): set<Path>
    requires forall i | 0 <= i < |items| :: items[i].subject.OnResource?
  {
    set i | 0 <= i < |items| :: items[i].subject.r.path
  }

  /** Up to `i` everything is in place, the rest is still ready to be written. */
  ghost predicate Progress(fs: Tree, items: seq<PlanItem>, logs: set<Path>, i: nat)
    requires WritesOnly(items, logs) && i <= |items|
  {
    && (forall j | 0 <= j < i :: Fits(fs, items[j].subject.r))
    && (forall j | i <= j < |items| :: Ready(fs, items[j].op, items[j].subject.r))
  }

  lemma LogsKeepProgress(fs: Tree, next: Tree, items: seq<PlanItem>, logs: set<Path>, i: nat)
    requires WritesOnly(items, logs) && i <= |items| && Progress(fs, items, logs, i)
    requires forall p | p !in logs :: SameAt(fs, next, p)
    ensures Progress(next, items, logs, i)
  {
    hide Observe;
    forall j | 0 <= j < |items| ensures SameAt(fs, next, items[j].subject.r.path) {}
  }

  lemma WriteKeepsProgress(fs: Tree, next: Tree, items: seq<PlanItem>, logs: set<Path>, i: nat)
    requires WritesOnly(items, logs) && i < |items| && Progress(fs, items, logs, i)
    requires Touched(fs, next, {items[i].subject.r.path}, logs) && Fits(next, items[i].subject.r)
    ensures Progress(next, items, logs, i + 1)
  {
    forall j | 0 <= j < |items| && j != i
      ensures items[j].subject.r.path !in logs && items[j].subject.r.path != items[i].subject.r.path
    {
    }
  }

  lemma ApartAncestors(p: Path, logs: set<Path>, noisy: set<Path>)
    requires Apart(p, logs) && noisy <= logs
    ensures forall a | a in Ancestors(p) :: a !in noisy
  {
  }

  lemma SavedLogsFree(fs: Tree, u: Undo, logs: set<Path>, p: Path)
    requires LogsFree(u, logs) && forall l | l in logs :: !Below(l, p)
    ensures LogsFree(RecordBackup(fs, u, p), logs)
  {
    var v := RecordBackup(fs, u, p);
    forall l | l in logs ensures !AboveRecord(v, l) {
      assert !AboveRecord(u, l);
      assert forall b | b in v.backups :: b in u.backups || b.path == p;
    }
  }

  lemma RemovedLogsFree(u: Undo, logs: set<Path>, p: Path, mode: nat)
    requires LogsFree(u, logs) && Apart(p, logs)
    ensures LogsFree(RecordRemoved(u, p, mode), logs)
  {
    var v := RecordRemoved(u, p, mode);
    forall l | l in logs ensures !AboveRecord(v, l) {
      assert !AboveRecord(u, l);
      assert forall r | r in v.removed :: r in u.removed || r.path == p;
    }
  }

  lemma SameLogsFree(u: Undo, v: Undo, logs: set<Path>)
    requires u.backups == v.backups && u.removed == v.removed
    ensures LogsFree(u, logs) <==> LogsFree(v, logs)
  {
    forall l ensures AboveRecord(u, l) <==> AboveRecord(v, l) {}
  }

  // ---- removal ----

  /** Files first, then the deepest directories. */
  predicate RemovalLe(a: Resource, b: Resource) {
    if a.kind.Directory? == b.kind.Directory? then |a.path| >= |b.path| else b.kind.Directory?
  }

  lemma RemovalOrder()
    ensures TotalOrder(RemovalLe)
  {
  }

  /** Where logs may be: apart from each other, and under the state directory only. */
  predicate LogsFlat(logs: set<Path>) {
    forall l, m | l in logs && m in logs :: !Below(l, m)
  }

  predicate MayRemove(fs: Tree, r: Resource, logs: set<Path>) {
    && Apart(r.path, logs)
    && (r.id.StateDir? ==> forall name | name in RUNTIME_STATE_FILES :: r.path + [name] in logs)
    && (r.path in fs ==> r.kind.Directory? || FileLike(fs[r.path]))
  }

  /** Something in the way of removing a directory: not a directory, or not empty but for logs. */
  ghost predicate Blocked(fs: Tree, r: Resource) {
    && r.kind.Directory? && r.path in fs
    && (!fs[r.path].Dir? || exists q | q in fs :: Below(r.path, q) && !(r.id.StateDir? && RuntimeLog(fs, r.path, q)))
  }

  /** Directories to be removed hold only what is to be removed too, and logs. */
  ghost predicate OwnContent(fs: Tree, rs: seq<Resource>, logs: set<Path>) {
    forall r | r in rs && r.kind.Directory? && r.path in fs ::
      && fs[r.path].Dir?
      && (forall q | q in fs && Below(r.path, q) && q !in logs :: exists x | x in rs :: x.path == q)
      && (forall l | l in logs && Below(r.path, l) ::
         r.id.StateDir? && ChildOf(r.path, l) && Name(l) in RUNTIME_STATE_FILES)
  }

  function Targets(rs: seq<Resource>): set<Path> { set r | r in rs :: r.path }

  lemma StillThere(fs: Tree, next: Tree, r: Resource)
    requires r.kind.Directory? && r.path in fs && !Empty(next, r.path) && forall p | p in next :: p in fs
    requires r.id.StateDir? ==> forall name | name in RUNTIME_STATE_FILES :: r.path + [name] !in next
    ensures Blocked(fs, r)
  {
    var q :| q in next && Below(r.path, q);
    if RuntimeLog(fs, r.path, q) {
      assert q == r.path + [Name(q)];
    }
  }

  lemma OwnContentUnblocked(fs0: Tree, fs: Tree, rs: seq<Resource>, sorted: seq<Resource>, i: nat, logs: set<Path>)
    requires sorted == Sort(rs, RemovalLe) && i < |sorted| && OwnContent(fs0, rs, logs)
    requires forall p | p in fs && p !in logs :: p in fs0 && fs0[p] == fs[p]
    requires forall l | l in logs && l in fs :: FileLike(fs[l])
    requires forall j | 0 <= j < i :: sorted[j].path !in fs
    requires sorted[i].path !in logs
    ensures !Blocked(fs, sorted[i])
  {
    var r := sorted[i];
    InSort(rs, RemovalLe, r);
    forall x | x in rs && Below(r.path, x.path) && r.kind.Directory? ensures x.path !in fs {
      DeeperWentFirst(rs, sorted, i, x);
    }
  }

  /** The first `i` targets are gone, everything else but logs is as it was. */
  ghost predicate Removing(fs0: Tree, fs: Tree, rs: seq<Resource>, sorted: seq<Resource>, i: nat, logs: set<Path>)
    requires i <= |sorted|
  {
    && Dropped(fs0, fs, Targets(rs), logs)
    && (forall j | 0 <= j < i :: sorted[j].path !in fs)
    && (forall l | l in logs && l in fs :: FileLike(fs[l]))
  }

  lemma RemovingWhileRunning(fs0: Tree, fs: Tree, next: Tree, rs: seq<Resource>, sorted: seq<Resource>, i: nat,
      logs: set<Path>)
    requires i < |sorted| && Removing(fs0, fs, rs, sorted, i, logs) && sorted == Sort(rs, RemovalLe)
    requires forall r | r in rs :: MayRemove(fs0, r, logs)
    requires forall p | p !in logs :: SameAt(fs, next, p)
    requires forall p | p in next && !SameAt(fs, next, p) :: FileLike(next[p])
    ensures Removing(fs0, next, rs, sorted, i, logs) && MayRemove(next, sorted[i], logs)
  {
    forall j | 0 <= j <= i ensures sorted[j] in rs && sorted[j].path !in logs { InSort(rs, RemovalLe, sorted[j]); }
  }

  lemma RemovingStep(fs0: Tree, fs: Tree, next: Tree, rs: seq<Resource>, sorted: seq<Resource>, i: nat, logs: set<Path>)
    requires i < |sorted| && Removing(fs0, fs, rs, sorted, i, logs) && sorted == Sort(rs, RemovalLe)
    requires Dropped(fs, next, {sorted[i].path}, logs)
    requires forall p | p in next :: p in fs && next[p] == fs[p]
    ensures Dropped(fs0, next, Targets(rs), logs)
    ensures sorted[i].path !in next ==> Removing(fs0, next, rs, sorted, i + 1, logs)
  {
    hide Sort;
    InSort(rs, RemovalLe, sorted[i]);
    assert sorted[i].path in Targets(rs);
    assert forall p | p !in Targets(rs) && p !in logs :: SameAt(fs0, fs, p) && SameAt(fs, next, p);
  }

  lemma DeeperWentFirst(rs: seq<Resource>, sorted: seq<Resource>, i: nat, x: Resource)
    requires sorted == Sort(rs, RemovalLe) && i < |sorted| && x in rs
    requires sorted[i].kind.Directory? && |sorted[i].path| < |x.path|
    ensures exists k | 0 <= k < i :: sorted[k] == x
  {
    hide Sort, TotalOrder;
    InSort(rs, RemovalLe, x);
    var k :| 0 <= k < |sorted| && sorted[k] == x;
    RemovalOrder();
    SortSorts(rs, RemovalLe);
    assert !RemovalLe(sorted[i], sorted[k]);
  }

  lemma StartRemoving(fs: Tree, rs: seq<Resource>, sorted: seq<Resource>, logs: set<Path>)
    requires forall l | l in logs && l in fs :: FileLike(fs[l])
    ensures Removing(fs, fs, rs, sorted, 0, logs)
  {
  }

  lemma EndRemoving(fs0: Tree, fs: Tree, rs: seq<Resource>, sorted: seq<Resource>, logs: set<Path>)
    requires sorted == Sort(rs, RemovalLe) && Removing(fs0, fs, rs, sorted, |sorted|, logs)
    ensures Dropped(fs0, fs, Targets(rs), logs) && forall r | r in rs :: r.path !in fs
  {
    forall r | r in rs ensures r.path !in fs {
      InSort(rs, RemovalLe, r);
    }
  }

  lemma RefusedMeansForeign(fs0: Tree, fs: Tree, rs: seq<Resource>, sorted: seq<Resource>, i: nat, logs: set<Path>)
    requires sorted == Sort(rs, RemovalLe) && i < |sorted| && Removing(fs0, fs, rs, sorted, i, logs)
    requires MayRemove(fs, sorted[i], logs) && Blocked(fs, sorted[i])
    ensures !OwnContent(fs0, rs, logs)
  {
    if OwnContent(fs0, rs, logs) {
      OwnContentUnblocked(fs0, fs, rs, sorted, i, logs);
    }
  }

  // ---- the footprint of the record ----

  /** The record keeps to `scope` and the logs, creates within `bundle` only, and no parent made
      on the way is a bundle path. */
  ghost predicate Scoped(u: Undo, scaffold: set<Path>, scope: set<Path>, bundle: set<Path>, logs: set<Path>) {
    && (forall b | b in u.backups :: b.path in scope || b.path in logs)
    && (forall r | r in u.removed :: r.path in scope)
    && (forall c | c in u.created :: c in scope && c in bundle)
    && (forall c, l | c in u.created && l in logs && ChildOf(c, l) :: c in u.stateDirs)
    && (forall dir, name | dir in u.stateDirs && name in RUNTIME_STATE_FILES :: dir + [name] in logs)
    && (forall s | s in scaffold :: s !in bundle && exists q | q in bundle :: Below(s, q))
  }

  /** A bundle resource within the plan's reach; a state directory is what holds the logs. */
  ghost predicate Placed(r: Resource, scope: set<Path>, bundle: set<Path>, logs: set<Path>) {
    && r.path in scope && r.path in bundle
    && (r.id.StateDir? ==> r.kind.Directory? && forall name | name in RUNTIME_STATE_FILES :: r.path + [name] in logs)
    && (forall l | l in logs && ChildOf(r.path, l) :: r.id.StateDir?)
  }

  ghost predicate NothingLost(a: Tree, b: Tree) { forall p | p in a :: p in b }

  /** The bundle's own directories above a path are there. */
  ghost predicate WayThere(fs: Tree, p: Path, bundle: set<Path>) { forall a | a in bundle && Below(a, p) :: a in fs }

  /** Every bundle directory above an item is there already or comes earlier. */
  ghost predicate Stepped(fs: Tree, items: seq<PlanItem>, bundle: set<Path>, logs: set<Path>)
    requires forall i | 0 <= i < |items| :: items[i].subject.OnResource?
  {
    && (forall p | p in bundle :: p !in logs)
    && (forall i, a | 0 <= i < |items| && a in bundle && Below(a, items[i].subject.r.path) ::
          (exists j | 0 <= j < i :: items[j].subject.r.path == a) || a in fs)
  }

  lemma SteppedWay(fs0: Tree, fs: Tree, items: seq<PlanItem>, bundle: set<Path>, logs: set<Path>, i: nat)
    requires WritesOnly(items, logs) && i < |items| && Stepped(fs0, items, bundle, logs)
    requires NothingLost(fs0, fs) && Progress(fs, items, logs, i)
    ensures WayThere(fs, items[i].subject.r.path, bundle)
  {
  }

  lemma PlacedIn(r: Resource, scope: set<Path>, bundle: set<Path>, logs: set<Path>)
    requires Placed(r, scope, bundle, logs)
    ensures r.path in scope && r.path in bundle
  {
  }

  lemma WayStays(fs: Tree, next: Tree, p: Path, bundle: set<Path>, logs: set<Path>)
    requires WayThere(fs, p, bundle) && (forall q | q !in logs :: SameAt(fs, next, q)) && forall a | a in bundle ::
               a !in logs
    ensures WayThere(next, p, bundle)
  {
  }

  lemma ScopedScaffold(u: Undo, scaffold: set<Path>, scope: set<Path>, bundle: set<Path>, logs: set<Path>, fs: Tree,
      p: Path, made: set<Path>)
    requires Scoped(u, scaffold, scope, bundle, logs) && p in bundle && WayThere(fs, p, bundle)
    requires made == WithParents(fs, p).Keys - fs.Keys
    ensures Scoped(u, scaffold + made, scope, bundle, logs)
  {
    forall s | s in made ensures s !in bundle && exists q | q in bundle :: Below(s, q) {
      assert Below(s, p);
    }
  }

  lemma ScopedMade(u: Undo, scaffold: set<Path>, scope: set<Path>, bundle: set<Path>, logs: set<Path>, r: Resource)
    requires Scoped(u, scaffold, scope, bundle, logs) && Placed(r, scope, bundle, logs)
    ensures Scoped(RecordState(RecordCreated(u, r.path), r.path, r.id.StateDir?), scaffold, scope, bundle, logs)
    ensures !r.kind.Directory? ==> Scoped(RecordCreated(u, r.path), scaffold, scope, bundle, logs)
  {
    var v := RecordState(RecordCreated(u, r.path), r.path, r.id.StateDir?);
    assert forall c :: c in v.created <==> c in u.created || c == r.path;
    assert forall c :: c in v.stateDirs <==> c in u.stateDirs || (r.id.StateDir? && c == r.path);
  }

  lemma ScopedSaved(fs: Tree, u: Undo, scaffold: set<Path>, scope: set<Path>, bundle: set<Path>, logs: set<Path>,
      p: Path)
    requires Scoped(u, scaffold, scope, bundle, logs) && (p in scope || p in logs)
    ensures Scoped(RecordBackup(fs, u, p), scaffold, scope, bundle, logs)
  {
    var v := RecordBackup(fs, u, p);
    assert forall b | b in v.backups :: b in u.backups || b.path == p;
  }

  lemma ScopedRemoved(u: Undo, scaffold: set<Path>, scope: set<Path>, bundle: set<Path>, logs: set<Path>, p: Path,
      mode: nat)
    requires Scoped(u, scaffold, scope, bundle, logs) && p in scope
    ensures Scoped(RecordRemoved(u, p, mode), scaffold, scope, bundle, logs)
  {
    var v := RecordRemoved(u, p, mode);
    assert forall r | r in v.removed :: r in u.removed || r.path == p;
  }

  class ResourceWriter {
    const disk: Disk
    const rollback: RollbackState
    ghost var start: Tree
    ghost var noisy: set<Path>
    ghost var scaffold: set<Path>
    ghost var scope: set<Path>
    ghost var bundle: set<Path>

    constructor (disk: Disk, logs: set<Path>)
      requires Rooted(disk.fs) && FilesAt(disk.fs, logs)
      ensures this.disk == disk && fresh(rollback) && start == disk.fs && rollback.State() == NOTHING && noisy == {}
      ensures scaffold == {}
      ensures Tracked(logs)
      ensures Growing(disk.fs, rollback.State())
    {
      this.disk := disk;
      rollback := new RollbackState();
      start, noisy, scaffold, scope, bundle := disk.fs, {}, {}, {}, {};
      StartTracks(disk.fs);
    }

    /** The record accounts for every change since the start, apart from the logs of units. */
    ghost predicate Tracked(logs: set<Path>)
      reads this, disk, rollback
    {
      && Tracks(start, disk.fs, rollback.State(), noisy, scaffold)
      && noisy <= logs && LogsFree(rollback.State(), logs) && FilesAt(disk.fs, logs)
      && Scoped(rollback.State(), scaffold, scope, bundle, logs)
    }

    /** At any moment a running unit may write one of its logs. */
    method UnitsRun(logs: set<Path>)
      requires Tracked(logs)
      modifies disk, `noisy
      ensures Tracked(logs) && (Growing(old(disk.fs), rollback.State()) ==> Growing(disk.fs, rollback.State()))
      ensures NothingLost(old(disk.fs), disk.fs) && forall p | p !in logs :: SameAt(old(disk.fs), disk.fs, p)
      ensures forall p | p in disk.fs && !SameAt(old(disk.fs), disk.fs, p) :: FileLike(disk.fs[p])
    {
      if * {
        var p, text, mode := *, *, *;
        if p in logs && p != [] && (forall a | a in Ancestors(p) :: a in disk.fs && disk.fs[a].Dir?)
           && (p in disk.fs ==> FileLike(disk.fs[p])) {
          assert !AboveRecord(rollback.State(), p);
          TrackLogged(start, disk.fs, rollback.State(), noisy, scaffold, p, File(text, mode));
          disk.fs := disk.fs[p := File(text, mode)];
          noisy := noisy + {p};
        }
      }
    }

    /** One CREATE or UPDATE of a directory by `_apply_resource_operations`. */
    method ApplyDirectory(op: Operation, r: Resource, logs: set<Path>) returns (o: Outcome)
      requires Tracked(logs) && Growing(disk.fs, rollback.State()) && Apart(r.path, logs)
      requires r.kind.Directory? && Ready(disk.fs, op, r)
      requires Placed(r, scope, bundle, logs) && WayThere(disk.fs, r.path, bundle)
      modifies disk, rollback, `scaffold
      ensures Tracked(logs) && Touched(old(disk.fs), disk.fs, {r.path}, logs) && NothingLost(old(disk.fs), disk.fs)
      ensures o.Pass? ==> Growing(disk.fs, rollback.State()) && Fits(disk.fs, r)
    {
      hide Tracks, Touched, AboveRecord, Scoped, Placed, WayThere;
      ghost var fs, u := disk.fs, rollback.State();
      PlacedIn(r, scope, bundle, logs);
      WrittenTouches(fs, r.path, Dir(r.mode), logs);
      if r.path !in disk.fs {
        ApartAncestors(r.path, logs, noisy);
        if ParentsAreDirs(disk.fs, r.path) {
          ghost var made := TrackMade(start, fs, u, noisy, scaffold, r.path, Dir(r.mode));
          ScopedScaffold(u, scaffold, scope, bundle, logs, fs, r.path, made);
          scaffold := scaffold + made;
        }
        o := disk.MakeDirectory(r.path, r.mode);
        if o.Raise? { return; }
        rollback.created := rollback.created + [r.path];
        ghost var v := rollback.State();
        ScopedMade(u, scaffold, scope, bundle, logs, r);
        SameLogsFree(u, v, logs);
        if r.id.StateDir? { rollback.stateDirs := rollback.stateDirs + [r.path]; }
        SameLogsFree(u, rollback.State(), logs);
        assert disk.fs[r.path := Dir(r.mode)] == disk.fs;
        TrackState(start, disk.fs, v, noisy, scaffold, r.path, r.id.StateDir?);
      }
      TrackMode(start, disk.fs, rollback.State(), noisy, scaffold, r.path, r.mode);
      o := disk.ChangeMode(r.path, r.mode);
    }

    /** One CREATE or UPDATE of a file. */
    method ApplyFile(op: Operation, r: Resource, logs: set<Path>) returns (o: Outcome)
      requires Tracked(logs) && Growing(disk.fs, rollback.State()) && Apart(r.path, logs)
      requires !r.kind.Directory? && Ready(disk.fs, op, r)
      requires Placed(r, scope, bundle, logs) && WayThere(disk.fs, r.path, bundle)
      modifies disk, rollback, `scaffold
      ensures Tracked(logs) && Touched(old(disk.fs), disk.fs, {r.path}, logs) && NothingLost(old(disk.fs), disk.fs)
      ensures o.Pass? ==> Growing(disk.fs, rollback.State()) && Fits(disk.fs, r)
    {
      hide Tracks, Touched, AboveRecord, Scoped, Placed, WayThere;
      PlacedIn(r, scope, bundle, logs);
      ghost var fs, u, node := disk.fs, rollback.State(), File(r.content.value, r.mode);
      WrittenTouches(fs, r.path, node, logs);
      if r.path in disk.fs {
        ParentsThere(start, fs, u, noisy, scaffold, r.path);
        if op.Update? {
          SavedLogsFree(fs, u, logs, r.path);
          ScopedSaved(fs, u, scaffold, scope, bundle, logs, r.path);
          rollback.Save(disk, r.path);
          if fs[r.path].File? {
            TrackSaved(start, fs, u, noisy, scaffold, r.path);
            TrackRewritten(start, fs, rollback.State(), noisy, scaffold, r.path, node);
          }
        }
      } else {
        ApartAncestors(r.path, logs, noisy);
        if ParentsAreDirs(fs, r.path) {
          ghost var made := TrackMade(start, fs, u, noisy, scaffold, r.path, node);
          ScopedScaffold(u, scaffold, scope, bundle, logs, fs, r.path, made);
          scaffold := scaffold + made;
        } else {
          TrackDeclared(start, fs, u, noisy, scaffold, r.path);
        }
        rollback.created := rollback.created + [r.path];
        ScopedMade(u, scaffold, scope, bundle, logs, r);
        SameLogsFree(u, rollback.State(), logs);
      }
      o := disk.AtomicWrite(r.path, r.content.value, r.mode);
      UniversalExact(r.content.value);
    }

    /** `_apply_resource_operations`. */
    method ApplyResources(items: seq<PlanItem>, logs: set<Path>) returns (o: Outcome)
      requires Tracked(logs) && Growing(disk.fs, rollback.State())
      requires WritesOnly(items, logs) && Progress(disk.fs, items, logs, 0) && Stepped(disk.fs, items, bundle, logs)
      requires forall i | 0 <= i < |items| :: Placed(items[i].subject.r, scope, bundle, logs)
      modifies disk, rollback, `noisy, `scaffold
      ensures Tracked(logs) && Touched(old(disk.fs), disk.fs, PathsOf(items), logs)
      ensures NothingLost(old(disk.fs), disk.fs)
      ensures o.Pass? ==>
                Growing(disk.fs, rollback.State()) && forall i | 0 <= i < |items| :: Fits(disk.fs, items[i].subject.r)
    {
      hide Tracks, Growing, LogsFree, Touched, Fits, Ready, Scoped, Placed, WayThere;
      TouchedNothing(disk.fs, PathsOf(items), logs);
      for i := 0 to |items|
        invariant Tracked(logs) && Growing(disk.fs, rollback.State())
        invariant Touched(old(disk.fs), disk.fs, PathsOf(items), logs) && NothingLost(old(disk.fs), disk.fs)
        invariant Progress(disk.fs, items, logs, i)
      {
        ghost var before := disk.fs;
        SteppedWay(old(disk.fs), before, items, bundle, logs, i);
        UnitsRun(logs);
        WayStays(before, disk.fs, items[i].subject.r.path, bundle, logs);
        LogsKeepProgress(before, disk.fs, items, logs, i);
        LogsTouchNothing(before, disk.fs, PathsOf(items), logs);
        ghost var fs := disk.fs;
        var op, r := items[i].op, items[i].subject.r;
        if r.kind.Directory? {
          o := ApplyDirectory(op, r, logs);
        } else {
          o := ApplyFile(op, r, logs);
        }
        assert r.path in PathsOf(items);
        TouchedMore(old(disk.fs), before, fs, PathsOf(items), PathsOf(items), logs);
        TouchedMore(old(disk.fs), fs, disk.fs, PathsOf(items), {r.path}, logs);
        if o.Raise? { return; }
        WriteKeepsProgress(fs, disk.fs, items, logs, i);
      }
      return Pass;
    }

    /** A file is backed up, then unlinked. */
    method DeleteFile(p: Path, logs: set<Path>) returns (o: Outcome)
      requires Tracked(logs) && p in disk.fs && FileLike(disk.fs[p]) && p != [] && forall l | l in logs :: !Below(l, p)
      requires p in scope || p in logs
      modifies disk, rollback
      ensures rollback.created == old(rollback.created)
      ensures Tracked(logs) && disk.fs == if o.Pass? then old(disk.fs) - {p} else old(disk.fs)
    {
      hide AboveRecord, Scoped;
      SavedLogsFree(disk.fs, rollback.State(), logs, p);
      ScopedSaved(disk.fs, rollback.State(), scaffold, scope, bundle, logs, p);
      TrackSaved(start, disk.fs, rollback.State(), noisy, scaffold, p);
      rollback.Save(disk, p);
      TrackDeleted(start, disk.fs, rollback.State(), noisy, scaffold, p);
      hide *;
      o := disk.Unlink(p);
    }

    /** `_remove_known_runtime_state`: the logs a unit left in its state directory. */
    method RemoveKnownRuntimeState(dir: Path, logs: set<Path>) returns (o: Outcome)
      requires Tracked(logs) && dir != [] && forall name | name in RUNTIME_STATE_FILES :: dir + [name] in logs
      requires forall l, m | l in logs && m in logs :: !Below(l, m)
      modifies disk, rollback
      ensures rollback.created == old(rollback.created)
      ensures Tracked(logs) && (forall p | p in old(disk.fs) && p !in disk.fs :: p in logs)
      ensures forall p | p in disk.fs :: p in old(disk.fs) && disk.fs[p] == old(disk.fs)[p]
      ensures o.Pass? ==> forall name | name in RUNTIME_STATE_FILES :: dir + [name] !in disk.fs
    {
      hide Tracks, LogsFree, Below, Scoped;
      var names := RUNTIME_STATE_FILES;
      while names != {}
        invariant names <= RUNTIME_STATE_FILES && rollback.created == old(rollback.created)
        invariant Tracked(logs) && (forall p | p in old(disk.fs) && p !in disk.fs :: p in logs)
        invariant forall p | p in disk.fs :: p in old(disk.fs) && disk.fs[p] == old(disk.fs)[p]
        invariant forall name | name in RUNTIME_STATE_FILES - names :: dir + [name] !in disk.fs
      {
        var name :| name in names;
        var p := dir + [name];
        if p in disk.fs {
          if !FileLike(disk.fs[p]) { return Raise; }
          :- DeleteFile(p, logs);
        }
        names := names - {name};
      }
      return Pass;
    }

    /** One REMOVE of a directory; `refused` when it holds something unknown. */
    method RemoveDirectoryResource(r: Resource, logs: set<Path>) returns (o: Outcome, refused: bool)
      requires Tracked(logs) && LogsFlat(logs) && MayRemove(disk.fs, r, logs) && r.kind.Directory? && r.path in disk.fs
      requires r.path in scope
      modifies disk, rollback
      ensures rollback.created == old(rollback.created)
      ensures Tracked(logs) && (forall p | p in old(disk.fs) && p !in disk.fs :: p == r.path || p in logs)
      ensures forall p | p in disk.fs :: p in old(disk.fs) && disk.fs[p] == old(disk.fs)[p]
      ensures o.Pass? ==> r.path !in disk.fs
      ensures refused ==> o.Raise? && Blocked(old(disk.fs), r)
    {
      hide Tracks, LogsFree, Scoped;
      refused := false;
      if !disk.fs[r.path].Dir? { return Raise, true; }
      ghost var before := disk.fs;
      if r.id.StateDir? {
        o := RemoveKnownRuntimeState(r.path, logs);
        if o.Raise? { return; }
      }
      ghost var mid := disk.fs;
      if !Empty(disk.fs, r.path) {
        StillThere(before, mid, r);
        return Raise, true;
      }
      o := disk.RemoveDirectory(r.path);
      if o.Raise? { return; }
      RemovedLogsFree(rollback.State(), logs, r.path, r.mode);
      ScopedRemoved(rollback.State(), scaffold, scope, bundle, logs, r.path, r.mode);
      TrackDirRemoved(start, mid, rollback.State(), noisy, scaffold, r.path, r.mode);
      rollback.removed := rollback.removed + [Removed(r.path, r.mode)];
    }

    method RemoveResource(r: Resource, logs: set<Path>) returns (o: Outcome, refused: bool)
      requires Tracked(logs) && LogsFlat(logs) && MayRemove(disk.fs, r, logs) && r.path in scope
      modifies disk, rollback
      ensures rollback.created == old(rollback.created)
      ensures Tracked(logs) && Dropped(old(disk.fs), disk.fs, {r.path}, logs)
      ensures forall p | p in disk.fs :: p in old(disk.fs) && disk.fs[p] == old(disk.fs)[p]
      ensures o.Pass? ==> r.path !in disk.fs
      ensures refused ==> o.Raise? && Blocked(old(disk.fs), r)
    {
      hide Tracks, LogsFree, Blocked, Scoped;
      if r.path !in disk.fs { return Pass, false; }
      if r.kind.Directory? {
        o, refused := RemoveDirectoryResource(r, logs);
      } else {
        o := DeleteFile(r.path, logs);
        refused := false;
      }
    }

    /** `_remove_resource_operations`; `refused` when unknown content stops it. */
    method RemoveResources(rs: seq<Resource>, logs: set<Path>) returns (o: Outcome, refused: bool)
      requires Tracked(logs) && LogsFlat(logs)
      requires Targets(rs) <= scope && forall r | r in rs :: MayRemove(disk.fs, r, logs)
      modifies disk, rollback, `noisy
      ensures Tracked(logs) && Dropped(old(disk.fs), disk.fs, Targets(rs), logs)
      ensures o.Pass? ==> forall r | r in rs :: r.path !in disk.fs
      ensures refused ==> !OwnContent(old(disk.fs), rs, logs)
      ensures rollback.created == old(rollback.created)
    {
      hide Tracks, LogsFree, Blocked, OwnContent, Removing, Dropped, MayRemove, Scoped;
      var sorted := Sort(rs, RemovalLe);
      StartRemoving(disk.fs, rs, sorted, logs);
      for i := 0 to |sorted|
        invariant Tracked(logs) && Removing(old(disk.fs), disk.fs, rs, sorted, i, logs)
        invariant rollback.created == old(rollback.created)
      {
        ghost var fs := disk.fs;
        UnitsRun(logs);
        RemovingWhileRunning(old(disk.fs), fs, disk.fs, rs, sorted, i, logs);
        InSort(rs, RemovalLe, sorted[i]);
        assert sorted[i].path in Targets(rs);
        ghost var before := disk.fs;
        o, refused := RemoveResource(sorted[i], logs);
        RemovingStep(old(disk.fs), before, disk.fs, rs, sorted, i, logs);
        if o.Raise? {
          if refused { RefusedMeansForeign(old(disk.fs), before, rs, sorted, i, logs); }
          return;
        }
      }
      EndRemoving(old(disk.fs), disk.fs, rs, sorted, logs);
      return Pass, false;
    }
  }
}
