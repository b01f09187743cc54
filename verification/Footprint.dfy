/** Where an apply leaves traces: the directories of a bundle come before what they hold, so
    undoing takes away all that was created, and touches nothing the plan does not name. */
module Footprint {
  import opened Text
  import opened Host
  import opened Generation
  import opened Planning
  import opened Selection
  import opened Placement
  import opened Rollback
  import opened Restoration
  import opened PlanContents
  import opened ResourceFiles
  import opened WritePlan
  import opened StalePlan
  import opened Namespace

  function BundlePaths(d: Desired): set<Path> { set r | r in Generate(d) :: r.path }

  /** The paths a plan creates, rewrites or removes. */
  function PlannedPaths(s: Scene): set<Path> {
    set x | x in PlanFor(s) && x.subject.OnResource? && Mutates(x.op) :: x.subject.r.path
  }

  /** Everything a plan does not name is as it was, apart from parents made on the way and logs. */
  ghost predicate Confined(s: Scene, fs: Tree) { Touched(s.fs, fs, PlannedPaths(s), LogPaths(s.d)) }

  lemma InBundle(d: Desired, p: Path) returns (rid: Rid)
    requires ValidDesired(d) && p in BundlePaths(d)
    ensures Wanted(d, rid) && Sound(rid) && Plausible(rid) && p == PathOf(d, rid)
  {
    var r :| r in Generate(d) && r.path == p;
    BundleMember(d, r);
    GeneratedIsPlausible(d, r.id);
    rid := r.id;
    if rid.Mount? { assert Folder(rid.mode, rid.alias) in d.folders; }
  }

  lemma WantedPath(d: Desired, rid: Rid)
    requires Wanted(d, rid)
    ensures PathOf(d, rid) in BundlePaths(d)
  {
    ResourceInBundle(d, rid);
    ResourceShape(d, rid);
    hide Generate, PathOf, ResourceOf;
  }

  // ---- what holds what ----

  /** The bundle's own directories and what they hold. */
  predicate Holds(a: Rid, b: Rid) {
    match a
    case StateDir => b.StateOwner?
    case ProfileDir => b.Profile?
    case GithubRoot => b.GithubDir? || b.GithubOwner?
    case GithubDir => b.GithubOwner?
    case AccessRoot => b.IsAccess() && !b.AccessRoot?
    case _ => false
  }

  /** A home path below the home directory. */
  function Tail(d: Desired, rid: Rid): Path
    requires !rid.IsAccess()
  {
    PathOf(d, rid)[|d.home|..]
  }

  lemma TailOf(d: Desired, rid: Rid)
    requires !rid.IsAccess()
    ensures PathOf(d, rid) == d.home + Tail(d, rid) && |Tail(d, rid)| >= 3
  {
  }

  /** The area under home a resource lives in. */
  datatype Area = State | Bin | Config | Systemd

  function AreaOf(rid: Rid): Area {
    if rid.StateDir? || rid.StateOwner? then State
    else if rid.Launcher? || rid.CliHelper? then Bin
    else if IsUnit(rid) then Systemd
    else Config
  }

  function Spelling(area: Area): (string, string) {
    match area
    case State => (".local", "state")
    case Bin => (".local", "bin")
    case Config => (".config", "workspace-mcp-manager")
    case Systemd => (".config", "systemd")
  }

  lemma SpellingsApart(a: Area, b: Area)
    requires Spelling(a) == Spelling(b)
    ensures a == b
  {
    assert ".local"[1] == 'l' && ".config"[1] == 'c' && |"state"| == 5 && |"bin"| == 3;
    assert |"systemd"| == 7 && |"workspace-mcp-manager"| == 21;
  }

  lemma TailShape(d: Desired, rid: Rid)
    requires !rid.IsAccess()
    ensures var t := Tail(d, rid);
            && (t[0], t[1]) == Spelling(AreaOf(rid))
            && (rid.ProfileDir? || rid.Profile? ==> t[2] == "tunnel-profiles") && (IsGithub(rid) ==> t[2] == "github")
            && |t| == (if rid.StateOwner? then 6 else if rid.StateDir? || rid.GithubOwner? then 5
                       else if rid.Profile? || rid.GithubDir? || IsUnit(rid) then 4 else 3)
  {
  }

  lemma BelowTail(home: Path, x: Path, y: Path)
    requires Below(home + x, home + y)
    ensures Below(x, y)
  {
    assert x == (home + x)[|home|..] && y == (home + y)[|home|..];
    assert (home + y)[..|home + x|][|home|..] == y[..|x|];
  }

  lemma HomeHolds(d: Desired, a: Rid, b: Rid)
    requires !a.IsAccess() && !b.IsAccess() && Below(PathOf(d, a), PathOf(d, b))
    ensures Holds(a, b)
  {
    TailOf(d, a);
    TailOf(d, b);
    TailShape(d, a);
    TailShape(d, b);
    hide PathOf, Tail;
    var x, y := Tail(d, a), Tail(d, b);
    BelowTail(d.home, x, y);
    hide Below;
    assert y[..|x|] == x && |x| < |y| by { BelowMeans(x, y); }
    assert x[0] == y[0] && x[1] == y[1] && x[2] == y[2];
    SpellingsApart(AreaOf(a), AreaOf(b));
    assert |"github"| == 6 && |"tunnel-profiles"| == 15;
  }

  lemma BelowMeans(x: Path, y: Path)
    requires Below(x, y)
    ensures |x| < |y| && y[..|x|] == x
  {
  }

  lemma AccessHolds(d: Desired, fs: Tree, a: Rid, b: Rid)
    requires ValidDesired(d) && HostReady(d, fs) && Plausible(a) && b.IsAccess() && Sound(b)
    requires Below(PathOf(d, a), PathOf(d, b)) && PathOf(d, a) !in fs
    ensures Holds(a, b)
  {
    var x, q := PathOf(d, a), PathOf(d, b);
    PathEnds(d, a);
    AccessShape(d, b);
    BelowEither(x, d.workspace, q);
    if |d.workspace| < |x| {
      AccessWay(d, b, x);
      PathsApart(d, a, d, AccessRoot);
    } else {
      hide PathOf, Leaf, DirectoryName, ValidDesired;
      PrefixPresent(fs, d.workspace, x);
    }
  }

  /** A bundle path above another one is on the way to home or workspace, or its directory. */
  lemma HolderOf(d: Desired, fs: Tree, a: Rid, b: Rid)
    requires ValidDesired(d) && HostReady(d, fs) && Sound(a) && Plausible(a) && Sound(b)
    requires Below(PathOf(d, a), PathOf(d, b))
    ensures PathOf(d, a) in fs || Holds(a, b)
  {
    PathEnds(d, a);
    if PathOf(d, a) !in fs {
      if b.IsAccess() {
        AccessHolds(d, fs, a, b);
      } else if !a.IsAccess() {
        HomeHolds(d, a, b);
      } else {
        HomePrefix(d, b);
        if |d.home| < |PathOf(d, a)| { AccessOffTheWay(d, a, b); }
        hide PathOf, Leaf, DirectoryName, ValidDesired;
        BelowEither(PathOf(d, a), d.home, PathOf(d, b));
        PrefixPresent(fs, d.home, PathOf(d, a));
      }
    }
  }

  // ---- directories come first ----

  predicate Precedes<T(==)>(s: seq<T>, x: T, y: T) { exists i, j | 0 <= i < j < |s| :: s[i] == x && s[j] == y }

  lemma PrecedesLeft<T>(a: seq<T>, b: seq<T>, x: T, y: T)
    requires Precedes(a, x, y)
    ensures Precedes(a + b, x, y)
  {
    var i, j :| 0 <= i < j < |a| && a[i] == x && a[j] == y;
    assert (a + b)[i] == x && (a + b)[j] == y;
  }

  lemma PrecedesRight<T>(a: seq<T>, b: seq<T>, x: T, y: T)
    requires Precedes(b, x, y)
    ensures Precedes(a + b, x, y)
  {
    var i, j :| 0 <= i < j < |b| && b[i] == x && b[j] == y;
    assert (a + b)[|a| + i] == x && (a + b)[|a| + j] == y;
  }

  lemma PrecedesHead<T>(s: seq<T>, y: T)
    requires y in s && s[0] != y
    ensures Precedes(s, s[0], y)
  {
    var j :| 0 <= j < |s| && s[j] == y;
  }

  /** A directory of the bundle precedes what it holds. */
  lemma HolderFirst(d: Desired, a: Rid, b: Rid)
    requires Holds(a, b) && Wanted(d, b)
    ensures Wanted(d, a) && Precedes(Ids(d), a, b)
  {
    var base, dev, acc, guard := BaseIds(), DevelopmentIds(d), AccessIds(d), When(d.guard, [GuardUnit, GuardTimer]);
    if a.StateDir? || a.ProfileDir? {
      assert base[0] == StateDir && base[1] == StateOwner && base[2] == ProfileDir && base[3] == Profile;
      assert Precedes(base, a, b);
      PrecedesLeft(base, dev, a, b);
      PrecedesLeft(base + dev, acc, a, b);
      PrecedesLeft(base + dev + acc, guard, a, b);
    } else if a.AccessRoot? {
      AccessIdsMembership(d, b);
      assert acc[0] == AccessRoot;
      PrecedesHead(acc, b);
      PrecedesRight(base + dev, acc, a, b);
      PrecedesLeft(base + dev + acc, guard, a, b);
    } else {
      assert dev[0] == GithubRoot && dev[1] == GithubDir && dev[2] == GithubOwner;
      assert Precedes(dev, a, b);
      PrecedesRight(base, dev, a, b);
      PrecedesLeft(base + dev, acc, a, b);
      PrecedesLeft(base + dev + acc, guard, a, b);
    }
  }

  lemma NotEarlier(s: seq<PlanItem>, j: nat)
    requires DistinctPaths(s) && j < |s|
    ensures s[j] !in s[..j]
  {
  }

  lemma FilterKeepsOrder(s: seq<PlanItem>, f: PlanItem -> bool, i: nat, j: nat, m: nat)
    requires DistinctPaths(s) && i < j < |s| && f(s[i]) && m < |Filter(s, f)| && Filter(s, f)[m] == s[j]
    ensures exists k | 0 <= k < m :: Filter(s, f)[k] == s[i]
  {
    var first, second := s[..j], s[j..];
    assert s == first + second;
    FilterConcat(first, second, f);
    InFilter(first, f, s[i]);
    assert s[i] in first by { assert first[i] == s[i]; }
    var k :| 0 <= k < |Filter(first, f)| && Filter(first, f)[k] == s[i];
    NotEarlier(s, j);
    InFilter(first, f, s[j]);
    assert m >= |Filter(first, f)|;
    assert Filter(s, f)[k] == s[i];
  }

  /** One of the two rounds of writes. */
  ghost predicate WriteRound(f: PlanItem -> bool) {
    (forall x :: f(x) <==> AccessWrite(x)) || (forall x :: f(x) <==> OtherWrite(x))
  }

  /** The writes of a plan find the bundle's directories in place. */
  lemma WritesAreStepped(s: Scene, f: PlanItem -> bool, fs: Tree)
    requires Acceptable(s) && s.d.present && HostReady(s.d, s.fs) && NothingLost(s.fs, fs)
    requires WriteRound(f) && forall i | 0 <= i < |Filter(PlanFor(s), f)| ::
               Filter(PlanFor(s), f)[i].subject.OnResource?
    ensures Stepped(fs, Filter(PlanFor(s), f), BundlePaths(s.d), LogPaths(s.d))
  {
    var items := Filter(PlanFor(s), f);
    forall p | p in BundlePaths(s.d) ensures p !in LogPaths(s.d) { BundleIsNoLog(s.d, s.fs, p); }
    hide Acceptable, HostReady, PlanFor, Filter, BundlePaths, LogPaths, NothingLost;
    forall i, a | 0 <= i < |items| && a in BundlePaths(s.d) && Below(a, items[i].subject.r.path)
      ensures (exists j | 0 <= j < i :: items[j].subject.r.path == a) || a in fs
    {
      WriteIsStepped(s, f, i, a);
      assert a in s.fs ==> a in fs by { Kept(s.fs, fs, a); }
    }
  }

  /** What a plan writes lies within its reach. */
  lemma WritesArePlaced(s: Scene, f: PlanItem -> bool)
    requires Acceptable(s) && s.d.present && Sited(s.d) && forall x | f(x) :: Write(x)
    ensures forall i | 0 <= i < |Filter(PlanFor(s), f)| :: Filter(PlanFor(s), f)[i].subject.OnResource?
              && Placed(Filter(PlanFor(s), f)[i].subject.r, PlannedPaths(s), BundlePaths(s.d), LogPaths(s.d))
  {
    var items := Filter(PlanFor(s), f);
    hide Acceptable, PlanFor, Filter, Generate, Sited, LogPaths, Placed, Ready, Apart;
    forall i | 0 <= i < |items|
      ensures items[i].subject.OnResource?
              && Placed(items[i].subject.r, PlannedPaths(s), BundlePaths(s.d), LogPaths(s.d))
    {
      InFilter(PlanFor(s), f, items[i]);
      WriteIsReady(s, items[i]);
      WriteIsPlaced(s, items[i]);
    }
  }

  lemma StateIsDirectory(d: Desired)
    ensures ResourceOf(d, StateDir) in Generate(d) && ResourceOf(d, StateDir).id == StateDir
    ensures ResourceOf(d, StateDir).kind.Directory?
    ensures ResourceOf(d, StateDir).path == PathOf(d, StateDir) == StatePath(d)
  {
    ResourceInBundle(d, StateDir);
    ResourceShape(d, StateDir);
  }

  lemma WriteIsPlaced(s: Scene, x: PlanItem)
    requires Acceptable(s) && x in PlanFor(s) && Write(x) && x.subject.r in Generate(s.d)
    ensures Placed(x.subject.r, PlannedPaths(s), BundlePaths(s.d), LogPaths(s.d))
  {
    hide Acceptable, PlanFor, Generate, ResourceOf, PathOf, ValidDesired, Wanted, StatePath;
    var r := x.subject.r;
    BundleMember(s.d, r);
    AcceptableIsValid(s);
    StateIsDirectory(s.d);
    assert r.path in PlannedPaths(s);
    forall l | l in LogPaths(s.d) && ChildOf(r.path, l) ensures r.id.StateDir? {
      LogParts(s.d, l);
      assert r.path == Parent(l);
      PathOfOne(s.d, r, ResourceOf(s.d, StateDir));
    }
  }

  lemma Kept(a: Tree, b: Tree, p: Path)
    requires NothingLost(a, b)
    ensures p in a ==> p in b
  {
  }

  lemma BundleIsNoLog(d: Desired, fs: Tree, p: Path)
    requires ValidDesired(d) && HostReady(d, fs) && p in BundlePaths(d)
    ensures p !in LogPaths(d)
  {
    var rid := InBundle(d, p);
    ResourceApart(d, rid);
  }

  lemma WriteIsStepped(s: Scene, f: PlanItem -> bool, m: nat, a: Path)
    requires Acceptable(s) && s.d.present && HostReady(s.d, s.fs) && WriteRound(f)
    requires m < |Filter(PlanFor(s), f)| && a in BundlePaths(s.d)
    requires Filter(PlanFor(s), f)[m].subject.OnResource? && Below(a, Filter(PlanFor(s), f)[m].subject.r.path)
    ensures a in s.fs || exists k | 0 <= k < m ::
              Filter(PlanFor(s), f)[k].subject.OnResource? && Filter(PlanFor(s), f)[k].subject.r.path == a
  {
    var x := Filter(PlanFor(s), f)[m];
    InFilter(PlanFor(s), f, x);
    SitedReady(s.d, s.fs);
    WriteIsReady(s, x);
    MentionedIsSound(s, x.subject.r);
    BundleMember(s.d, x.subject.r);
    AcceptableIsValid(s);
    var ra := InBundle(s.d, a);
    HolderOf(s.d, s.fs, ra, x.subject.r.id);
    if a !in s.fs {
      HolderFirst(s.d, ra, x.subject.r.id);
      HolderIsWritten(s, f, m, ra, x);
    }
  }

  lemma SitedReady(d: Desired, fs: Tree)
    requires HostReady(d, fs)
    ensures Sited(d) && Rooted(fs)
  {
  }

  lemma AbsentIsCreated(fs: Tree, r: Resource)
    requires r.path !in fs
    ensures FileOperation(true, r, fs).Create?
  {
  }

  lemma HolderIsWritten(s: Scene, f: PlanItem -> bool, m: nat, ra: Rid, x: PlanItem)
    requires Acceptable(s) && s.d.present && WriteRound(f) && m < |Filter(PlanFor(s), f)|
    requires Filter(PlanFor(s), f)[m] == x && f(x)
    requires x.subject.OnResource? && x.subject.r in Generate(s.d) && x == FileItem(true, x.subject.r, s.fs)
    requires Holds(ra, x.subject.r.id) && x.subject.r == ResourceOf(s.d, x.subject.r.id)
    requires Wanted(s.d, ra) && Precedes(Ids(s.d), ra, x.subject.r.id) && PathOf(s.d, ra) !in s.fs
    ensures exists k | 0 <= k < m ::
              Filter(PlanFor(s), f)[k].subject.OnResource? && Filter(PlanFor(s), f)[k].subject.r.path == PathOf(s.d, ra)
  {
    hide PlanFor, Filter, Acceptable, Generate, Ids, ResourceOf, PathOf, Wanted, Observe, ValidDesired, Files;
    hide DistinctPaths, FileOperation;
    var i, j :| 0 <= i < j < |Ids(s.d)| && Ids(s.d)[i] == ra && Ids(s.d)[j] == x.subject.r.id;
    WritesAreFiles(s, f);
    AcceptableIsValid(s);
    FilesDistinct(s);
    ResourceShape(s.d, ra);
    AbsentIsCreated(s.fs, ResourceOf(s.d, ra));
    FileAt(s, i);
    FileAt(s, j);
    assert f(Files(s)[i]);
    FilterKeepsOrder(Files(s), f, i, j, m);
  }

  lemma FileAt(s: Scene, i: nat)
    requires i < |Ids(s.d)|
    ensures |Files(s)| == |Ids(s.d)| && Files(s)[i] == FileItem(s.d.present, ResourceOf(s.d, Ids(s.d)[i]), s.fs)
  {
  }

  // ---- undoing ----

  /** A path between two of the bundle, the upper one new, is of the bundle. */
  lemma Between(d: Desired, fs0: Tree, c: Path, p: Path, q: Path)
    requires ValidDesired(d) && HostReady(d, fs0) && c in BundlePaths(d) && q in BundlePaths(d) && c !in fs0
    requires Below(c, p) && Below(p, q)
    ensures p in BundlePaths(d)
  {
    hide PathOf, Wanted, ValidDesired, HostReady, BundlePaths, Sound, Plausible;
    var rc := InBundle(d, c);
    var rq := InBundle(d, q);
    BelowChain(c, p, q);
    HolderOf(d, fs0, rc, rq);
    HoldsClosely(d, rc, rq);
    if Wanted(d, GithubDir) { WantedPath(d, GithubDir); }
    assert p == q[..|p|];
  }

  lemma BelowChain(c: Path, p: Path, q: Path)
    requires Below(c, p) && Below(p, q)
    ensures Below(c, q) && |c| + 2 <= |q|
  {
    assert q[..|c|] == p[..|c|];
  }

  lemma HoldsClosely(d: Desired, a: Rid, b: Rid)
    requires Holds(a, b) && Wanted(d, b)
    ensures |PathOf(d, b)| == |PathOf(d, a)| + 1
            || (|PathOf(d, b)| == |PathOf(d, a)| + 2 && PathOf(d, b)[..|PathOf(d, a)| + 1] == PathOf(d, GithubDir)
               && Wanted(d, GithubDir))
  {
  }

  lemma LogParts(d: Desired, l: Path)
    requires l in LogPaths(d)
    ensures l != [] && Parent(l) == StatePath(d) && Name(l) in RUNTIME_STATE_FILES && ChildOf(StatePath(d), l)
    ensures StatePath(d) == PathOf(d, StateDir)
  {
    var name :| name in RUNTIME_STATE_FILES && l == StatePath(d) + [name];
    assert l[..|l| - 1] == StatePath(d);
  }

  /** The only new bundle directory above a log is the state directory. */
  lemma AboveLog(d: Desired, fs0: Tree, c: Path, l: Path)
    requires ValidDesired(d) && HostReady(d, fs0) && c in BundlePaths(d) && c !in fs0 && l in LogPaths(d) && Below(c, l)
    ensures c == StatePath(d)
  {
    var rc := InBundle(d, c);
    LogParts(d, l);
    if c != StatePath(d) {
      assert Below(c, StatePath(d)) by {
        assert StatePath(d) == l[..|l| - 1];
        assert |c| < |l| && c == l[..|c|] && (|c| == |l| - 1 ==> c == StatePath(d));
        assert StatePath(d)[..|c|] == l[..|c|];
      }
      HolderOf(d, fs0, rc, StateDir);
    }
  }

  lemma StateDirsAre(d: Desired, u: Undo, scaffold: set<Path>, scope: set<Path>, dir: Path)
    requires Scoped(u, scaffold, scope, BundlePaths(d), LogPaths(d)) && dir in u.stateDirs
    ensures dir == StatePath(d)
  {
    assert "mcp.log" in RUNTIME_STATE_FILES;
    var l := dir + ["mcp.log"];
    assert l in LogPaths(d);
    LogParts(d, l);
    assert dir == l[..|l| - 1];
  }

  lemma OwnerInState(d: Desired, fs0: Tree, c: Path)
    requires ValidDesired(d) && HostReady(d, fs0) && c in BundlePaths(d) && c != [] && Parent(c) == StatePath(d)
    requires StatePath(d) !in fs0
    ensures Name(c) == OWNER_FILE
  {
    var rc := InBundle(d, c);
    assert Below(StatePath(d), c) && StatePath(d) == PathOf(d, StateDir);
    HolderOf(d, fs0, StateDir, rc);
    PathEnds(d, rc);
  }

  /** What keeps to the footprint leaves nothing in the way of undoing. */
  lemma ScopedIsUndisturbed(d: Desired, fs0: Tree, fs: Tree, u: Undo, noisy: set<Path>, scaffold: set<Path>,
      scope: set<Path>)
    requires ValidDesired(d) && (u.created == [] || HostReady(d, fs0)) && Tracks(fs0, fs, u, noisy, scaffold)
    requires Scoped(u, scaffold, scope, BundlePaths(d), LogPaths(d)) && noisy <= LogPaths(d)
    requires LogsFree(u, LogPaths(d)) && FilesAt(fs, LogPaths(d))
    ensures Undisturbed(fs0, fs, u, noisy, scaffold)
  {
    assert forall c | c in u.created :: c !in fs0 && c in BundlePaths(d);
    assert forall dir | dir in u.stateDirs :: dir in u.created;
    hide Tracks, HostReady, ValidDesired, BundlePaths, LogPaths, Below, AboveRecord;
    forall p, c | p in noisy && p !in fs0 && c in u.created && Below(c, p) ensures NewLog(fs, u, p) {
      AboveLog(d, fs0, c, p);
      LogParts(d, p);
    }
    forall s, c | s in scaffold && c in u.created ensures !Below(c, s) {
      var q :| q in BundlePaths(d) && Below(s, q);
      if Below(c, s) { Between(d, fs0, c, s, q); }
    }
    forall c | c in u.created && c != [] && Parent(c) in u.stateDirs ensures Name(c) == OWNER_FILE {
      StateDirsAre(d, u, scaffold, scope, Parent(c));
      OwnerInState(d, fs0, c);
    }
  }

  /** After undoing: what the plan does not name is as it was, and nothing new is left but logs,
      these leftovers, and parents made on the way, none of them a path of the bundle. */
  ghost predicate RolledBack(s: Scene, fs: Tree, left: set<Path>) {
    && (forall p | p in s.fs && p !in PlannedPaths(s) && p !in LogPaths(s.d) :: p in fs && fs[p] == s.fs[p])
    && (forall p | p in fs && p !in s.fs && p !in LogPaths(s.d) && p !in left ::
          s.d.present && p !in BundlePaths(s.d) && exists q | q in BundlePaths(s.d) :: Below(p, q))
  }

  /** Which new paths a restoration may leave: any of the bundle if a removal failed; the state
      directory, the only one that holds logs, if a unit still ran; otherwise none. */
  function Leftovers(d: Desired, running: bool, stuck: bool): set<Path> {
    if stuck then BundlePaths(d) else if running then {StatePath(d)} else {}
  }

  /** The logs of the instance are what its record takes them to be. */
  lemma ScopedLogs(d: Desired, fs0: Tree, u: Undo, scaffold: set<Path>, scope: set<Path>)
    requires ValidDesired(d) && (u.created == [] || HostReady(d, fs0)) && [] !in u.created
    requires Scoped(u, scaffold, scope, BundlePaths(d), LogPaths(d)) && forall p | p in u.stateDirs :: p in u.created
    ensures LogsKnown(u, LogPaths(d))
  {
    hide ValidDesired, HostReady, BundlePaths, LogPaths;
    forall p | p in u.created ensures p !in LogPaths(d) { BundleIsNoLog(d, fs0, p); }
    forall l | l in LogPaths(d) ensures l != [] && Name(l) in RUNTIME_STATE_FILES { LogParts(d, l); }
  }

  lemma AsideOfLogs(d: Desired, fs0: Tree, c: Path)
    requires ValidDesired(d) && HostReady(d, fs0) && c in BundlePaths(d) && c !in fs0 && c != StatePath(d)
    ensures Aside(LogPaths(d), c)
  {
    hide ValidDesired, HostReady, BundlePaths, LogPaths;
    BundleIsNoLog(d, fs0, c);
    forall l | l in LogPaths(d) ensures c != l && !Below(c, l) {
      if Below(c, l) { AboveLog(d, fs0, c, l); }
    }
  }

  lemma CreatedLeaves(s: Scene, fs: Tree, u: Undo, noisy: set<Path>, scaffold: set<Path>, run: Replay, end: Tree)
    requires ValidDesired(s.d) && (u.created == [] || HostReady(s.d, s.fs)) && Tracks(s.fs, fs, u, noisy, scaffold)
    requires Scoped(u, scaffold, PlannedPaths(s), BundlePaths(s.d), LogPaths(s.d)) && noisy <= LogPaths(s.d)
    requires LogsFree(u, LogPaths(s.d)) && FilesAt(fs, LogPaths(s.d)) && Replayed(fs, u, LogPaths(s.d), run, end)
    ensures LogsKnown(u, LogPaths(s.d))
    ensures forall c | c in u.created && c in end :: c in Leftovers(s.d, run.running, run.stuck)
  {
    ScopedIsUndisturbed(s.d, s.fs, fs, u, noisy, scaffold, PlannedPaths(s));
    assert forall p | p in u.created :: p != [] && p !in s.fs && p in BundlePaths(s.d);
    assert forall p | p in u.stateDirs :: p in u.created;
    hide Tracks, HostReady, ValidDesired, BundlePaths, LogPaths, PlannedPaths, Replayed, Undisturbed, FilesAt, LogsFree;
    hide LogsKnown, Aside, Scoped;
    ScopedLogs(s.d, s.fs, u, scaffold, PlannedPaths(s));
    ReplayClears(s.fs, fs, u, noisy, scaffold, LogPaths(s.d), run, end);
    forall c | c in u.created && c in end ensures c in Leftovers(s.d, run.running, run.stuck) {
      if c != StatePath(s.d) { AsideOfLogs(s.d, s.fs, c); }
    }
  }

  lemma ReplayRollsBack(s: Scene, fs: Tree, u: Undo, noisy: set<Path>, scaffold: set<Path>, run: Replay, end: Tree)
    requires ValidDesired(s.d) && (u.created == [] || HostReady(s.d, s.fs)) && Tracks(s.fs, fs, u, noisy, scaffold)
    requires s.d.present || scaffold == {}
    requires Scoped(u, scaffold, PlannedPaths(s), BundlePaths(s.d), LogPaths(s.d)) && noisy <= LogPaths(s.d)
    requires LogsFree(u, LogPaths(s.d)) && FilesAt(fs, LogPaths(s.d))
    requires Confined(s, fs) && Replayed(fs, u, LogPaths(s.d), run, end)
    ensures RolledBack(s, end, Leftovers(s.d, run.running, run.stuck))
  {
    CreatedLeaves(s, fs, u, noisy, scaffold, run, end);
    ReplayInverts(s.fs, fs, u, noisy, scaffold, LogPaths(s.d), run, end);
    hide Tracks, HostReady, ValidDesired, BundlePaths, LogPaths, PlannedPaths, Below, Replayed, FilesAt, LogsKnown;
    hide Leftovers;
    forall p | p in s.fs && p !in PlannedPaths(s) && p !in LogPaths(s.d) ensures p in end && end[p] == s.fs[p] {
      OldestFound(u.backups, p);
    }
  }
}
