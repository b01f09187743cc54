/** One apply (`host_apply.py`, `lifecycle.py`): execute a valid plan, plan again, record what
    is owned; on any failure undo. */
module HostApply {
  import opened Text
  import opened Host
  import opened Generation
  import opened Planning
  import opened Convergence
  import opened Selection
  import opened Evidence
  import opened Placement
  import opened Rollback
  import opened Restoration
  import opened Tracking
  import opened ResourceFiles
  import opened PlanContents
  import opened WritePlan
  import opened StalePlan
  import opened UnitPlan
  import opened Footprint
  import opened Systemd
  import opened UnitRuns
  import opened UnitActs
  import opened Namespace
  import Git = GitOwnership
  import GitReversal
  import GitPlan

  // ---- files ----

  function AccessWrites(s: Scene): seq<PlanItem> { Filter(PlanFor(s), AccessWrite) }
  function OtherWrites(s: Scene): seq<PlanItem> { Filter(PlanFor(s), OtherWrite) }

  ghost predicate OnlyBundleWritten(s: Scene, fs: Tree) { Touched(s.fs, fs, BundlePaths(s.d), LogPaths(s.d)) }

  lemma TouchedWiden(a: Tree, b: Tree, paths: set<Path>, all: set<Path>, logs: set<Path>)
    requires Touched(a, b, paths, logs) && paths <= all
    ensures Touched(a, b, all, logs)
  {
    forall p | p in b && p !in a && p !in all && p !in logs ensures exists q | q in all :: Below(p, q) {
      var q :| q in paths && Below(p, q);
      assert q in all;
    }
  }

  lemma DroppedTouches(a: Tree, b: Tree, paths: set<Path>, logs: set<Path>)
    requires Dropped(a, b, paths, logs)
    ensures Touched(a, b, paths, logs)
  {
  }

  lemma WritesArePlanned(s: Scene, f: PlanItem -> bool)
    requires Acceptable(s) && s.d.present && Sited(s.d) && forall x | f(x) :: Write(x)
    requires forall i | 0 <= i < |Filter(PlanFor(s), f)| :: Filter(PlanFor(s), f)[i].subject.OnResource?
    ensures PathsOf(Filter(PlanFor(s), f)) <= PlannedPaths(s) && PathsOf(Filter(PlanFor(s), f)) <= BundlePaths(s.d)
  {
    var items := Filter(PlanFor(s), f);
    hide PlanFor, Filter, Acceptable, Generate, Sited, Apart, Ready;
    forall p | p in PathsOf(items) ensures p in PlannedPaths(s) && p in BundlePaths(s.d) {
      PathInItems(items, p);
      var x :| x in items && x.subject.OnResource? && x.subject.r.path == p;
      InFilter(PlanFor(s), f, x);
      WriteIsReady(s, x);
    }
  }

  lemma RemovalsArePlanned(s: Scene)
    ensures Targets(RemovalsOf(PlanFor(s))) <= PlannedPaths(s)
  {
    hide PlanFor, RemovalsOf;
    forall p | p in Targets(RemovalsOf(PlanFor(s))) ensures p in PlannedPaths(s) {
      var r :| r in RemovalsOf(PlanFor(s)) && r.path == p;
      InRemovalsOf(PlanFor(s), r);
    }
  }

  /** A round of writes stays within any set that holds its paths. */
  lemma RoundStaysWithin(a: Tree, b: Tree, c: Tree, some: set<Path>, all: set<Path>, logs: set<Path>)
    requires Touched(a, b, all, logs) && Touched(b, c, some, logs) && some <= all
    ensures Touched(a, c, all, logs)
  {
    TouchedMore(a, b, c, all, some, logs);
  }

  lemma AreRounds()
    ensures WriteRound(AccessWrite) && WriteRound(OtherWrite)
    ensures (forall x | AccessWrite(x) :: Write(x)) && (forall x | OtherWrite(x) :: Write(x))
  {
  }

  /** A round of writes, and the tree it meets. */
  lemma RoundReady(s: Scene, f: PlanItem -> bool, fs: Tree)
    requires Acceptable(s) && s.d.present && HostReady(s.d, s.fs) && WriteRound(f) && forall x | f(x) :: Write(x)
    requires fs == s.fs || NothingLost(s.fs, fs)
    ensures var items := Filter(PlanFor(s), f);
            && (forall i | 0 <= i < |items| :: items[i].subject.OnResource?)
            && WritesOnly(items, LogPaths(s.d)) && Progress(s.fs, items, LogPaths(s.d), 0)
            && (forall i | 0 <= i < |items| ::
               Placed(items[i].subject.r, PlannedPaths(s), BundlePaths(s.d), LogPaths(s.d)))
            && Stepped(fs, items, BundlePaths(s.d), LogPaths(s.d))
            && PathsOf(items) <= PlannedPaths(s) && PathsOf(items) <= BundlePaths(s.d)
  {
    SitedHost(s.d, s.fs);
    WritesAreOnly(s, f);
    WritesArePlaced(s, f);
    hide Acceptable, HostReady, Sited, PlanFor, Filter, Placed, Progress, PlannedPaths, BundlePaths, LogPaths, Stepped;
    hide WriteRound;
    WritesArePlanned(s, f);
    WritesAreStepped(s, f, fs);
  }

  lemma RoundsApart(s: Scene)
    requires Acceptable(s) && s.d.present && HostReady(s.d, s.fs)
    requires forall i | 0 <= i < |AccessWrites(s)| :: AccessWrites(s)[i].subject.OnResource?
    requires forall i | 0 <= i < |OtherWrites(s)| :: OtherWrites(s)[i].subject.OnResource?
    ensures forall i | 0 <= i < |OtherWrites(s)| :: OtherWrites(s)[i].subject.r.path !in PathsOf(AccessWrites(s))
  {
    SitedHost(s.d, s.fs);
    hide Acceptable, HostReady, Sited, PlanFor, Filter;
    forall i, j | 0 <= i < |OtherWrites(s)| && 0 <= j < |AccessWrites(s)|
      ensures OtherWrites(s)[i].subject.r.path != AccessWrites(s)[j].subject.r.path
    {
      WritesApart(s, j, i);
    }
  }

  lemma FirstRoundStays(s: Scene, mid: Tree, items: seq<PlanItem>)
    requires forall i | 0 <= i < |items| :: items[i].subject.OnResource?
    requires Touched(s.fs, mid, PathsOf(items), LogPaths(s.d)) && PathsOf(items) <= PlannedPaths(s)
    requires PathsOf(items) <= BundlePaths(s.d)
    ensures Confined(s, mid) && OnlyBundleWritten(s, mid)
  {
    hide PlannedPaths, BundlePaths, LogPaths, Touched;
    TouchedWiden(s.fs, mid, PathsOf(items), PlannedPaths(s), LogPaths(s.d));
    TouchedWiden(s.fs, mid, PathsOf(items), BundlePaths(s.d), LogPaths(s.d));
  }

  lemma SecondRoundStays(s: Scene, mid: Tree, end: Tree, items: seq<PlanItem>)
    requires Confined(s, mid) && OnlyBundleWritten(s, mid) && forall i | 0 <= i < |items| ::
               items[i].subject.OnResource?
    requires Touched(mid, end, PathsOf(items), LogPaths(s.d)) && PathsOf(items) <= PlannedPaths(s)
    requires PathsOf(items) <= BundlePaths(s.d)
    ensures Confined(s, end) && OnlyBundleWritten(s, end)
  {
    hide PlannedPaths, BundlePaths, LogPaths, Touched;
    RoundStaysWithin(s.fs, mid, end, PathsOf(items), PlannedPaths(s), LogPaths(s.d));
    RoundStaysWithin(s.fs, mid, end, PathsOf(items), BundlePaths(s.d), LogPaths(s.d));
  }

  /** What `_validate_destructive_operations` asks of a resource about to be removed. */
  predicate Verified(fs: Tree, r: Resource) { Observe(fs, r) == Exact || Observe(fs, r) == Different }

  /** Its state directory holds the marker and runtime logs only. */
  predicate StateContentKnown(fs: Tree, dir: Path) {
    forall p | p in fs && ChildOf(dir, p) :: if Name(p) == OWNER_FILE then FileLike(fs[p]) else RuntimeLog(fs, dir, p)
  }

  lemma VerifiedMayGo(s: Scene, fs: Tree, r: Resource)
    requires Acceptable(s) && Sited(s.d) && Mentioned(s, r) && Verified(fs, r)
    ensures MayRemove(fs, r, LogPaths(s.d))
  {
    hide Acceptable, Mentioned;
    MentionedApart(s, r);
    MentionedIsSound(s, r);
    if r.id.StateDir? {
      forall name | name in RUNTIME_STATE_FILES ensures r.path + [name] in LogPaths(s.d) {}
    }
  }

  /** An optional resource outside the bundle that is not there does not come about. */
  lemma OptionalStaysAway(s: Scene, fs: Tree, rid: Rid)
    requires Acceptable(s) && HostReady(s.d, s.fs) && OnlyBundleWritten(s, fs)
    requires rid.IsOptional() && Sound(rid) && PathOf(s.d, rid) !in s.fs && PathOf(s.d, rid) !in BundlePaths(s.d)
    ensures PathOf(s.d, rid) !in fs
  {
    ResourceApart(s.d, rid);
    hide Acceptable, HostReady, PathOf, Generate, Apart;
    forall q | q in BundlePaths(s.d) ensures !Below(PathOf(s.d, rid), q) { BundleWayIsFree(s, rid, q); }
  }

  lemma BundleWayIsFree(s: Scene, rid: Rid, q: Path)
    requires Acceptable(s) && HostReady(s.d, s.fs) && q in BundlePaths(s.d)
    requires rid.IsOptional() && Sound(rid) && PathOf(s.d, rid) !in s.fs && PathOf(s.d, rid) !in BundlePaths(s.d)
    ensures !Below(PathOf(s.d, rid), q)
  {
    var b :| b in Generate(s.d) && b.path == q;
    MentionedIsSound(s, b);
    BundleMember(s.d, b);
    if b.id.IsAccess() {
      AccessHasRoot(s.d, b.id);
    }
    hide HostReady, PathOf, Generate, Below, PlanFor;
    WayIsFree(s.d, s.fs, rid, b.id);
  }

  lemma AccessHasRoot(d: Desired, rid: Rid)
    requires rid.IsAccess() && Wanted(d, rid)
    ensures PathOf(d, AccessRoot) in BundlePaths(d)
  {
    assert Wanted(d, AccessRoot);
    ResourceInBundle(d, AccessRoot);
    ResourceShape(d, AccessRoot);
    hide Generate, ResourceOf, PathOf;
  }

  lemma StaleIsOptional(s: Scene, r: Resource)
    requires Acceptable(s) && r in AllStale(s.d, s.fs, s.owned)
    ensures r.id.IsOptional() && Sound(r.id) && r.path == PathOf(s.d, r.id) && r.path !in BundlePaths(s.d)
  {
    StaleShape(s, r);
    hide Generate, AllStale, Acceptable, Obsoletes;
  }

  lemma UnwantedPath(s: Scene, rid: Rid)
    requires Acceptable(s) && (rid.IsGuard() || rid.IsDevelopment()) && !Wanted(s.d, rid)
    ensures PathOf(s.d, rid) !in BundlePaths(s.d)
  {
    forall b | b in Generate(s.d) ensures b.id != rid { BundleMember(s.d, b); }
    InstalledApart(s.d, rid);
  }

  /** The removals done, what earlier declarations left is gone and the bundle still fits. */
  lemma RemovedIsGone(s: Scene, fs: Tree, end: Tree)
    requires Acceptable(s) && s.d.present && HostReady(s.d, s.fs) && OnlyBundleWritten(s, fs) && BundleFits(s.d, fs)
    requires Dropped(fs, end, Targets(RemovalsOf(PlanFor(s))), LogPaths(s.d))
             && forall r | r in RemovalsOf(PlanFor(s)) ::
               r.path !in end
    ensures BundleFits(s.d, end) && StaleGone(s, end)
  {
    hide PlanFor, Acceptable, HostReady, Generate, AllStale, RemovalsOf, OnlyBundleWritten, LogPaths, PathOf, Wanted;
    forall r | r in Generate(s.d) ensures Fits(end, r) {
      MentionedApart(s, r) by { SitedHost(s.d, s.fs); }
      forall x | x in RemovalsOf(PlanFor(s)) ensures x.path != r.path { RemovalIsStale(s, x); }
      assert Fits(fs, r);
    }
    forall r | r in AllStale(s.d, s.fs, s.owned) ensures r.path !in end {
      StaleIsRemoved(s, r);
      AbsentPath(s.fs, r);
      StaleIsOptional(s, r);
      if r !in RemovalsOf(PlanFor(s)) { StaysGone(s, fs, end, r.id); }
    }
    forall rid: Rid | (rid.IsGuard() || rid.IsDevelopment()) && !Wanted(s.d, rid) && PathOf(s.d, rid) !in s.fs
      ensures PathOf(s.d, rid) !in end
    {
      UnwantedPath(s, rid);
      StaysGone(s, fs, end, rid);
    }
  }

  lemma SitedHost(d: Desired, fs: Tree)
    requires HostReady(d, fs)
    ensures Sited(d) && Rooted(fs)
  {
  }

  lemma StaysGone(s: Scene, fs: Tree, end: Tree, rid: Rid)
    requires Acceptable(s) && HostReady(s.d, s.fs) && OnlyBundleWritten(s, fs)
    requires rid.IsOptional() && Sound(rid) && PathOf(s.d, rid) !in s.fs && PathOf(s.d, rid) !in BundlePaths(s.d)
    requires Dropped(fs, end, Targets(RemovalsOf(PlanFor(s))), LogPaths(s.d))
    ensures PathOf(s.d, rid) !in end
  {
    OptionalStaysAway(s, fs, rid);
    ResourceApart(s.d, rid);
  }

  // ---- units ----

  /** A unit some resource of the plan installs. */
  ghost predicate PlannedUnit(s: Scene, u: string) { exists r :: Mentioned(s, r) && r.unitName == Some(u) }

  ghost predicate OnlyPlannedUnits(s: Scene, names: seq<string>) { forall u | u in names :: PlannedUnit(s, u) }

  lemma NamesArePlanned(s: Scene, ops: set<Operation>)
    requires Acceptable(s)
    ensures OnlyPlannedUnits(s, UnitsOf(PlanFor(s), ops))
  {
    hide PlanFor, Acceptable, UnitsOf, Mentioned;
    forall u | u in UnitsOf(PlanFor(s), ops) ensures PlannedUnit(s, u) {
      InUnitsOf(PlanFor(s), ops, u);
      var x :| x in PlanFor(s) && x.op in ops && x.subject.OnUnit? && x.subject.r.unitName == Some(u);
      UnitItemShape(s, x);
    }
  }

  lemma Activated(a: Units, b: Units, names: seq<string>)
    requires ActivityOf(a, b, names)
    ensures OthersKept(a, b, names)
  {
  }

  lemma SomeArePlanned(s: Scene, names: seq<string>, some: seq<string>)
    requires OnlyPlannedUnits(s, names) && forall u | u in some :: u in names
    ensures OnlyPlannedUnits(s, some)
  {
    hide PlannedUnit;
  }

  lemma BothArePlanned(s: Scene, a: seq<string>, b: seq<string>)
    requires OnlyPlannedUnits(s, a) && OnlyPlannedUnits(s, b)
    ensures OnlyPlannedUnits(s, a + b)
  {
    hide PlannedUnit;
  }

  lemma EnablesArePlanned(s: Scene, some: seq<string>)
    requires Acceptable(s) && forall u | u in some :: u in EnableNames(s)
    ensures OnlyPlannedUnits(s, some)
  {
    hide PlannedUnit, UnitsOf, PlanFor, Acceptable;
    NamesArePlanned(s, {Enable});
    SomeArePlanned(s, EnableNames(s), some);
  }

  lemma CoreIsPlanned(s: Scene)
    ensures OnlyPlannedUnits(s, [McpName(s.d.iid), TunnelName(s.d.iid)])
  {
    CoreUnits(s.d);
    hide Generate, ResourceOf, AllStale;
    assert Mentioned(s, ResourceOf(s.d, McpUnit)) && Mentioned(s, ResourceOf(s.d, TunnelUnit));
  }

  /** Units the plan does not know are as they were. */
  ghost predicate UnitsConfined(s: Scene, units: Units) { forall u | !PlannedUnit(s, u) :: SameUnit(s.units, units, u) }

  lemma UnitsConfinedMore(s: Scene, units: Units, next: Units, names: seq<string>)
    requires UnitsConfined(s, units) && OnlyPlannedUnits(s, names) && OthersKept(units, next, names)
    ensures UnitsConfined(s, next)
  {
    hide PlannedUnit;
    forall u | !PlannedUnit(s, u) ensures SameUnit(s.units, next, u) {
      assert u !in names;
      assert SameUnit(s.units, units, u) && SameUnit(units, next, u);
    }
  }

  /** Each unit is where the stop, enable and start passes of the plan put it. */
  ghost predicate Passed(s: Scene, units: Units) {
    forall u ::
      && UnitOf(units, u).active == ((UnitOf(s.units, u).active && u !in StopNames(s)) || u in StartNames(s))
      && UnitOf(units, u).enabled == (UnitOf(s.units, u).enabled || u in EnableNames(s))
  }

  lemma ThreePasses(s: Scene, stopped: Units, enabled: Units, end: Units)
    requires StoppedAsPlanned(s, stopped)
    requires EnablementOf(stopped, enabled, EnableNames(s))
    requires (forall u | u in EnableNames(s) :: UnitOf(enabled, u).enabled)
    requires ActivityOf(enabled, end, StartNames(s))
    requires forall u | UnitOf(enabled, u).active || u in StartNames(s) :: UnitOf(end, u).active
    ensures Passed(s, end)
  {
    hide StopNames, EnableNames, StartNames, UnitOf;
    forall u
      ensures UnitOf(end, u).active == ((UnitOf(s.units, u).active && u !in StopNames(s)) || u in StartNames(s))
    {
      assert u !in StopNames(s) ==> SameUnit(s.units, stopped, u);
      assert u !in StartNames(s) ==> SameUnit(enabled, end, u);
    }
    forall u ensures UnitOf(end, u).enabled == (UnitOf(s.units, u).enabled || u in EnableNames(s)) {
      assert u !in EnableNames(s) ==> SameUnit(stopped, enabled, u);
    }
  }

  ghost predicate StoppedAsPlanned(s: Scene, units: Units) {
    ActivityOf(s.units, units, StopNames(s)) && forall u | u in StopNames(s) :: !UnitOf(units, u).active
  }

  lemma EnableStep(s: Scene, stopped: Units, enabled: Units)
    requires Acceptable(s) && UnitsConfined(s, stopped) && EnablementOf(stopped, enabled, EnableNames(s))
    ensures UnitsConfined(s, enabled) && Running(enabled) == Running(stopped)
  {
    NamesArePlanned(s, {Enable});
    EnablementRuns(stopped, enabled, EnableNames(s));
    hide Acceptable, PlannedUnit, UnitsOf, PlanFor, Running;
    UnitsConfinedMore(s, stopped, enabled, EnableNames(s));
  }

  lemma CoreRuns(s: Scene, units: Units)
    requires Acceptable(s) && s.d.present && s.d.running && Passed(s, units)
    ensures UnitOf(units, McpName(s.d.iid)).active && UnitOf(units, TunnelName(s.d.iid)).active
  {
    CoreUnits(s.d);
    var m, t := ResourceOf(s.d, McpUnit), ResourceOf(s.d, TunnelUnit);
    hide Acceptable, StopNames, EnableNames, StartNames, ResourceOf, Generate, McpName, TunnelName, UnitOf;
    SettlesActivity(s, m, units);
    SettlesActivity(s, t, units);
  }

  lemma RestartedPasses(s: Scene, units: Units, next: Units)
    requires Passed(s, units) && ActivityOf(units, next, [McpName(s.d.iid), TunnelName(s.d.iid)])
    requires UnitOf(units, McpName(s.d.iid)).active && UnitOf(units, TunnelName(s.d.iid)).active
    requires forall u | UnitOf(units, u).active :: UnitOf(next, u).active
    ensures Passed(s, next)
  {
    hide StopNames, EnableNames, StartNames, McpName, TunnelName, UnitOf;
    forall u ensures UnitOf(next, u) == UnitOf(units, u) {
      if u != McpName(s.d.iid) && u != TunnelName(s.d.iid) { assert SameUnit(units, next, u); }
    }
  }

  // ---- obsolete units ----

  lemma StaleNamesArePlanned(s: Scene, family: Family, op: Operation)
    ensures OnlyPlannedUnits(s, StaleNames(s, family, op))
  {
    hide StaleNames, Obsoletes, AllStale, Generate;
    forall u | u in StaleNames(s, family, op) ensures PlannedUnit(s, u) {
      InStaleNames(s, family, op, u);
      var r :| r in AllStale(s.d, s.fs, s.owned) && r.unitName == Some(u);
      assert Mentioned(s, r);
    }
  }

  /** Wanted units are where the passes put them. */
  ghost predicate WantedPassed(s: Scene, units: Units) {
    forall r | r in Generate(s.d) && r.unitName.Some? :: UnitSettled(s.d, r, units)
  }

  lemma PassedSettles(s: Scene, units: Units)
    requires Acceptable(s) && s.d.present && Passed(s, units)
    ensures WantedPassed(s, units)
  {
    hide Acceptable, Generate, StopNames, StartNames, EnableNames, UnitOf, TargetActive;
    forall r | r in Generate(s.d) && r.unitName.Some? ensures UnitSettled(s.d, r, units) {
      SettlesActivity(s, r, units);
      SettlesEnablement(s, r, units);
    }
  }

  /** A change of obsolete units leaves the wanted ones alone. */
  lemma StaleStep(s: Scene, family: Family, op: Operation, a: Units, b: Units)
    requires Acceptable(s) && WantedPassed(s, a) && OthersKept(a, b, StaleNames(s, family, op)) && UnitsConfined(s, a)
    ensures WantedPassed(s, b) && UnitsConfined(s, b)
  {
    StaleNamesArePlanned(s, family, op);
    hide Acceptable, StaleNames, Generate, UnitOf, PlannedUnit;
    UnitsConfinedMore(s, a, b, StaleNames(s, family, op));
    forall r | r in Generate(s.d) && r.unitName.Some? ensures UnitSettled(s.d, r, b) {
      WantedIsNotStale(s, family, op, r);
      assert SameUnit(a, b, r.unitName.value);
      assert UnitSettled(s.d, r, a);
    }
  }

  // ---- whole executions ----

  lemma ConfinedStart(s: Scene)
    ensures Confined(s, s.fs) && UnitsConfined(s, s.units)
  {
  }

  lemma StopsConfined(s: Scene, units: Units)
    requires Acceptable(s) && OthersKept(s.units, units, StopNames(s))
    ensures UnitsConfined(s, units)
  {
    NamesArePlanned(s, {Stop});
    hide Acceptable, PlannedUnit, UnitsOf, PlanFor, UnitOf;
    assert UnitsConfined(s, s.units);
    UnitsConfinedMore(s, s.units, units, StopNames(s));
  }

  /** The state a successful execution leaves. */
  ghost predicate Executed(s: Scene, fs: Tree, units: Units, config: Git.Config) {
    && GitPlan.GitResult(s) == Git.Done(config)
    && (forall r | r in Generate(s.d) :: FileSettled(s.d.present, r, fs))
    && (forall r | r in Generate(s.d) :: UnitSettled(s.d, r, units))
    && StaleGone(s, fs)
  }

  lemma BundleExact(s: Scene, fs: Tree)
    requires Acceptable(s) && s.d.present && BundleFits(s.d, fs)
    ensures forall r | r in Generate(s.d) :: FileSettled(true, r, fs)
  {
    forall r | r in Generate(s.d) ensures Observe(fs, r) == Exact {
      BundleMember(s.d, r);
      MarkerIsWanted(s.d, r.id);
      ResourceInBundle(s.d, MarkerOf(r.id));
      hide Generate, Acceptable, Observe, Fits, ResourceOf, Wanted;
      FittingIsExact(s.d, fs, r.id);
    }
  }

  lemma WantedSettled(s: Scene, units: Units)
    requires WantedPassed(s, units)
    ensures forall r | r in Generate(s.d) :: UnitSettled(s.d, r, units)
  {
  }

  lemma ExecutedPresent(s: Scene, fs: Tree, units: Units, config: Git.Config)
    requires Acceptable(s) && s.d.present && BundleFits(s.d, fs) && StaleGone(s, fs) && WantedPassed(s, units)
    requires GitPlan.GitResult(s) == Git.Done(config)
    ensures Executed(s, fs, units, config)
  {
    BundleExact(s, fs);
    WantedSettled(s, units);
  }

  /** Only units whose own files go may be stopped and disabled. */
  predicate UnitsCovered(plan: seq<PlanItem>) {
    forall x | x in plan && (x.op.Stop? || x.op.Disable?) && x.subject.OnUnit? ::
      exists y | y in plan :: y.op.Remove? && y.subject.OnResource? && y.subject.r.id == x.subject.r.id
  }

  lemma RemovalsMayGo(s: Scene, fs: Tree)
    requires Acceptable(s) && Sited(s.d) && forall r | r in RemovalsOf(PlanFor(s)) :: Verified(fs, r)
    ensures forall r | r in RemovalsOf(PlanFor(s)) :: MayRemove(fs, r, LogPaths(s.d))
  {
    hide Acceptable, Verified, MayRemove, PlanFor, RemovalsOf, Sited;
    forall r | r in RemovalsOf(PlanFor(s)) ensures MayRemove(fs, r, LogPaths(s.d)) {
      RemovalIsMentioned(s, r);
      VerifiedMayGo(s, fs, r);
    }
  }

  lemma AbsentUnits(s: Scene, stopped: Units, end: Units)
    requires Acceptable(s) && !s.d.present && StoppedAsPlanned(s, stopped)
    requires (forall u :: UnitOf(stopped, u).active ==> UnitOf(s.units, u).active)
    requires EnablementOf(stopped, end, DisableNames(s)) && forall u | u in DisableNames(s) :: !UnitOf(end, u).enabled
    ensures forall r | r in Generate(s.d) :: UnitSettled(s.d, r, end)
  {
    hide Acceptable, Generate, StopNames, DisableNames, UnitOf;
    forall r | r in Generate(s.d) && r.unitName.Some? ensures UnitSettled(s.d, r, end) {
      var u := r.unitName.value;
      assert u !in StopNames(s) ==> SameUnit(s.units, stopped, u);
      assert u !in DisableNames(s) ==> SameUnit(stopped, end, u);
      AbsentUnitSettles(s, r, end);
    }
    assert forall r | r in Generate(s.d) :: r.unitName.None? ==> UnitSettled(s.d, r, end);
  }

  lemma DisableStep(s: Scene, stopped: Units, end: Units)
    requires Acceptable(s) && UnitsConfined(s, stopped) && EnablementOf(stopped, end, DisableNames(s))
    ensures UnitsConfined(s, end) && Running(end) == Running(stopped)
  {
    NamesArePlanned(s, {Disable});
    EnablementRuns(stopped, end, DisableNames(s));
    hide Acceptable, PlannedUnit, UnitsOf, PlanFor, Running;
    UnitsConfinedMore(s, stopped, end, DisableNames(s));
  }

  lemma ConfinedRemoval(s: Scene, fs: Tree)
    requires Touched(s.fs, fs, Targets(RemovalsOf(PlanFor(s))), LogPaths(s.d))
    requires Targets(RemovalsOf(PlanFor(s))) <= PlannedPaths(s)
    ensures Confined(s, fs)
  {
    hide PlanFor, RemovalsOf, LogPaths, Touched;
    TouchedWiden(s.fs, fs, Targets(RemovalsOf(PlanFor(s))), PlannedPaths(s), LogPaths(s.d));
  }

  lemma ExecutedAbsent(s: Scene, end: Tree, units: Units, config: Git.Config)
    requires Acceptable(s) && !s.d.present && Sited(s.d) && GitPlan.GitResult(s) == Git.Done(config)
    requires Dropped(s.fs, end, Targets(RemovalsOf(PlanFor(s))), LogPaths(s.d))
             && forall r | r in RemovalsOf(PlanFor(s)) ::
               r.path !in end
    requires forall r | r in Generate(s.d) :: UnitSettled(s.d, r, units)
    ensures Executed(s, end, units, config)
  {
    hide Acceptable, Generate, PlanFor, RemovalsOf, GitPlan.GitResult, Sited, LogPaths, UnitSettled, FileSettled;
    hide StaleGone, Dropped;
    RemovedBundleIsGone(s, end);
  }

  /** What the declared git settings must have come from, for a plan to be able to undo them. */
  ghost predicate Traceable(c0: Git.Config, s: Scene) {
    Git.ValidGit(s.d) && GitReversal.Pristine(c0) && GitReversal.NoBlank(c0) && GitReversal.Kept(c0, s.config)
      && GitReversal.KeepsRepo(s.repo.rewrite)
  }

  lemma GitSettlesTraceably(s: Scene, c0: Git.Config, config: Git.Config)
    requires Acceptable(s) && Traceable(c0, s) && GitPlan.GitResult(s) == Git.Done(config)
    ensures GitSettled(s.repo, config, s.d) <==> GitPlan.Spelled(s)
    ensures GitReversal.Kept(c0, config)
  {
    hide PlanFor, GitPlan.GitResult, Git.ObserveIdentity, Git.ObserveTransport, GitReversal.Kept, Generate, ResourceOf;
    GitPlan.GitSettles(s, c0);
  }

  lemma OwnEvidenceSettles(family: Family, d: Desired, fs: Tree)
    requires ValidDesired(d)
    ensures StaleSettled(family, d, Generate(d), fs, RecordOf(d))
  {
    hide Generate, ValidDesired, StaleResources;
    OwnEvidenceIsCurrent(family, d, fs);
  }

  /** Executing converges: planning again, with the old evidence or with the new, finds
      nothing to do, exactly when the transport's URL can spell the repository. */
  lemma ExecutedSettles(s: Scene, c0: Git.Config, fs: Tree, units: Units, config: Git.Config)
    requires Acceptable(s) && Executed(s, fs, units, config) && Traceable(c0, s)
    ensures GitReversal.Kept(c0, config)
    ensures Settled(s.repo, s.d, fs, units, config, s.owned) <==> GitPlan.Spelled(s)
    ensures Settled(s.repo, s.d, fs, units, config, RecordOf(s.d)) <==> GitPlan.Spelled(s)
  {
    hide Acceptable, PlanFor, Generate, GitPlan.GitResult, GitPlan.Spelled, Traceable, GitReversal.Kept, GitSettled;
    hide StaleSettled, StaleGone, FileSettled, UnitSettled, RecordOf;
    GitSettlesTraceably(s, c0, config);
    StaleSettles(s, fs);
    AcceptableIsValid(s);
    OwnEvidenceSettles(GuardFamily, s.d, fs);
    OwnEvidenceSettles(DevelopmentFamily, s.d, fs);
    OwnEvidenceSettles(AccessFamily, s.d, fs);
  }

  datatype Reason = Execution | Readiness | NotConverged | BeforeRecord | AfterRecord

  /** A restoration that ran through, perhaps with removals that failed; or one that was interrupted,
      by a failing write or else by a backup that is not text. */
  datatype Undoing = Undone(stuck: bool) | Interrupted(broken: bool)

  datatype Ending = Refused | Succeeded | Failed(reason: Reason, undoing: Undoing)

  /** A unit of the instance is active, and may write its log. */
  predicate Live(s: Scene, units: Units) {
    exists r | r in Generate(s.d) + AllStale(s.d, s.fs, s.owned) ::
      r.unitName.Some? && UnitOf(units, r.unitName.value).active
  }

  /** What one apply makes of the state it was planned for. */
  ghost predicate Transition(s: Scene, end: Ending, t: Scene) {
    && t.d == s.d && t.repo == s.repo
    && match end
       case Refused => t == s
       case Succeeded =>
         && Acceptable(s) && t.owned == RecordOf(s.d) && AllNoop(PlanFor(t))
         && Confined(s, t.fs) && UnitsConfined(s, t.units) && StaleGone(s, t.fs)
       case Failed(reason, undoing) =>
         && Acceptable(s) && UnitsConfined(s, t.units)
            && t.owned == (if reason.AfterRecord? then RecordOf(s.d) else s.owned)
         && (undoing.Undone? ==>
               && Back(s.fs, t.fs, LogPaths(s.d)) && t.config == s.config
               && RolledBack(s, t.fs, Leftovers(s.d, Live(s, t.units), undoing.stuck)))
  }

  /** Files as a text read gives them, and directories, are all back. */
  ghost predicate Back(fs0: Tree, fs: Tree, noisy: set<Path>) {
    && (forall p | p in fs0 && !fs0[p].Dir? && p !in noisy :: p in fs && (fs[p] == fs0[p] || fs[p] == AsRead(fs0[p])))
    && (forall p | p in fs0 && fs0[p].Dir? :: p in fs && fs[p].Dir?)
  }

  lemma ReplayIsBack(fs0: Tree, fs: Tree, u: Undo, noisy: set<Path>, scaffold: set<Path>, logs: set<Path>, run: Replay,
      end: Tree)
    requires Tracks(fs0, fs, u, noisy, scaffold) && noisy <= logs && LogsFree(u, logs) && FilesAt(fs, logs)
    requires LogsKnown(u, logs)
    requires Replayed(fs, u, logs, run, end)
    ensures Back(fs0, end, logs)
  {
    ReplayInverts(fs0, fs, u, noisy, scaffold, logs, run, end);
  }

  lemma NotTextBackup(fs: Tree, u: Undo)
    requires ClearRecord(fs, u) && !AllText(u)
    ensures exists b | b in u.backups :: b.node.Blob?
  {
    var b :| b in u.backups && !b.node.File?;
    assert FileLike(b.node);
  }

  lemma TracksClear(fs0: Tree, fs: Tree, u: Undo, noisy: set<Path>, scaffold: set<Path>)
    requires Tracks(fs0, fs, u, noisy, scaffold)
    ensures Rooted(fs) && ClearRecord(fs, u)
  {
  }

  /** What was settled before the record was written is settled with the record. */
  lemma RecordSettles(s: Scene, fs: Tree, units: Units, config: Git.Config)
    requires Acceptable(s) && Settled(s.repo, s.d, fs, units, config, s.owned)
    ensures AllNoop(PlanOf(s.repo, s.d, fs, units, config, RecordOf(s.d)))
  {
    hide Acceptable, PlanFor, PlanOf, Generate, GitSettled, StaleSettled, FileSettled, UnitSettled, RecordOf;
    AcceptableIsValid(s);
    OwnEvidenceSettles(GuardFamily, s.d, fs);
    OwnEvidenceSettles(DevelopmentFamily, s.d, fs);
    OwnEvidenceSettles(AccessFamily, s.d, fs);
    NothingToDo(s.repo, s.d, fs, units, config, RecordOf(s.d));
  }

  lemma NoopIsSettled(s: Scene, c0: Git.Config, fs: Tree, units: Units, config: Git.Config)
    requires Acceptable(s) && Executed(s, fs, units, config)
    ensures AllNoop(PlanOf(s.repo, s.d, fs, units, config, s.owned)) ==>
              Settled(s.repo, s.d, fs, units, config, s.owned)
    ensures Traceable(c0, s) && !AllNoop(PlanOf(s.repo, s.d, fs, units, config, s.owned)) ==> !GitPlan.Spelled(s)
  {
    hide Acceptable, PlanFor, PlanOf, Settled, Executed, Traceable, GitPlan.Spelled;
    NothingToDo(s.repo, s.d, fs, units, config, s.owned);
    if Traceable(c0, s) { ExecutedSettles(s, c0, fs, units, config); }
  }

  lemma ExecutedClears(s: Scene, fs: Tree, units: Units, config: Git.Config)
    requires Executed(s, fs, units, config)
    ensures StaleGone(s, fs)
  {
  }

  /** An executed plan leaves no tunnel without its server, whatever it found. */
  lemma ExecutedTethers(s: Scene, fs: Tree, units: Units, config: Git.Config)
    requires Executed(s, fs, units, config)
    ensures Tethered(Running(units), McpName(s.d.iid), TunnelName(s.d.iid))
  {
    CoreUnits(s.d);
    hide Generate, ResourceOf, McpName, TunnelName, UnitOf, GitPlan.GitResult, FileSettled, StaleGone;
    assert UnitSettled(s.d, ResourceOf(s.d, McpUnit), units) && UnitSettled(s.d, ResourceOf(s.d, TunnelUnit), units);
  }

  lemma NothingScoped(scaffold: set<Path>, scope: set<Path>, bundle: set<Path>, logs: set<Path>)
    requires scaffold == {}
    ensures Scoped(NOTHING, scaffold, scope, bundle, logs)
  {
  }

  /** Calls that follow a list, and the units and the record of starts they lead to. */
  ghost predicate Ran(s: Scene, acts: seq<Act>, calls: seq<Call>, units: Units, started: seq<string>) {
    Performs(acts, calls) && Running(units) == Through(Running(s.units), calls)
      && started == Started(Running(s.units), calls)
  }

  lemma RanMore(s: Scene, acts: seq<Act>, more: seq<Act>, calls: seq<Call>, log: seq<Call>, a: Units, b: Units,
                started: seq<string>, further: seq<string>)
    requires Ran(s, acts, calls, a, started) && Completes(acts, calls) && Performs(more, log)
    requires Running(b) == Through(Running(a), log) && further == Started(Running(a), log)
    ensures Ran(s, acts + more, calls + log, b, started + further)
    ensures Completes(more, log) ==> Completes(acts + more, calls + log)
  {
    hide Performs, Completes, Through, Started, Running;
    RunParts(Running(s.units), acts, more, calls, log);
  }

  lemma RanStill(s: Scene, acts: seq<Act>, calls: seq<Call>, a: Units, b: Units, started: seq<string>)
    requires Ran(s, acts, calls, a, started) && Running(a) == Running(b)
    ensures Ran(s, acts, calls, b, started)
  {
  }

  lemma RanNothing(s: Scene)
    ensures Ran(s, [], [], s.units, []) && Completes([], [])
  {
  }

  lemma StartsPlanned(s: Scene, before: Units, end: Units, started: seq<string>)
    requires Acceptable(s) && UnitsConfined(s, before) && ActivityOf(before, end, StartNames(s))
             && forall u | u in started ::
               u in StartNames(s)
    ensures UnitsConfined(s, end) && OnlyPlannedUnits(s, started)
  {
    NamesArePlanned(s, {Start, Restart});
    hide Acceptable, UnitsConfined, OnlyPlannedUnits, UnitsOf, PlanFor;
    SomeArePlanned(s, StartNames(s), started);
    UnitsConfinedMore(s, before, end, StartNames(s));
  }

  lemma StopPassStarts(names: seq<string>, running: set<string>, log: seq<Call>)
    requires Performs(StopActs(names), log)
    ensures Started(running, log) == []
  {
    StopsStartNothing(running, log);
  }

  class HostApplyService {
    const files: ResourceWriter
    const systemd: ServiceManager
    const tree: Git.WorkingTree
    var applied: seq<Entry>
    var settings: Option<Git.Config>
    var started: seq<string>
    var enabled: seq<string>

    constructor (files: ResourceWriter, systemd: ServiceManager, tree: Git.WorkingTree, applied: seq<Entry>)
      ensures this.files == files && this.systemd == systemd && this.tree == tree && this.applied == applied
      ensures settings == None && started == [] && enabled == []
    {
      this.files, this.systemd, this.tree, this.applied := files, systemd, tree, applied;
      settings, started, enabled := None, [], [];
    }

    /** The plan was made for the state this transaction starts from. */
    ghost predicate Fresh(s: Scene)
      reads this, files.disk, systemd, tree
    {
      && s.fs == files.disk.fs && s.units == systemd.units && s.repo == tree.repo && s.config == tree.config
         && s.owned == applied
      && settings == None && started == [] && enabled == [] && systemd.calls == [] && systemd.back == []
    }

    /** The record keeps to what the plan names. */
    ghost predicate KeepsTo(s: Scene)
      reads files`scope, files`bundle
    {
      files.scope == PlannedPaths(s) && files.bundle == BundlePaths(s.d)
    }

    /** The unit calls so far are the first part of a list. */
    ghost predicate Performed(s: Scene, acts: seq<Act>)
      reads `started, systemd
    {
      Ran(s, acts, systemd.calls, systemd.units, started) && systemd.back == []
    }

    ghost predicate Completed(s: Scene, acts: seq<Act>)
      reads `started, systemd
    {
      Performed(s, acts) && Completes(acts, systemd.calls)
    }

    lemma Longer(s: Scene, acts: seq<Act>, more: seq<Act>)
      requires Performed(s, acts)
      ensures Performed(s, acts + more)
    {
      PerformsFirst(acts, more, systemd.calls);
    }

    /** The stop pass for runtime-only stops (`lifecycle.py`). */
    method StopPass(s: Scene) returns (o: Outcome)
      requires Acceptable(s) && systemd.units == s.units && started == [] && enabled == []
      requires systemd.calls == [] && systemd.back == []
      modifies systemd`units, systemd`calls
      ensures UnitsConfined(s, systemd.units) && Performed(s, StopActs(StopNames(s))) && ListsPlanned(s)
      ensures o.Pass? ==> StoppedAsPlanned(s, systemd.units) && Completed(s, StopActs(StopNames(s)))
      ensures forall u :: UnitOf(systemd.units, u).active ==> UnitOf(s.units, u).active
    {
      hide Acceptable, StopNames, StopLe, UnitOf, Running, StopActs, Ran, Performs, Completes, Through, Started;
      ghost var log;
      o, log := systemd.StopAll(StopNames(s));
      StopPassStarts(StopNames(s), Running(s.units), log);
      RanNothing(s);
      RanMore(s, [], StopActs(StopNames(s)), [], log, s.units, systemd.units, started, started);
      assert started + started == started && [] + log == log && [] + StopActs(StopNames(s)) == StopActs(StopNames(s));
      StopsConfined(s, systemd.units);
    }

    /** The access resources first, checked as a namespace, then everything else. */
    method WriteAll(s: Scene) returns (o: Outcome)
      requires Acceptable(s) && s.d.present && HostReady(s.d, s.fs) && s.fs == files.disk.fs && KeepsTo(s)
      requires files.Tracked(LogPaths(s.d)) && Growing(files.disk.fs, files.rollback.State())
      modifies files.disk, files.rollback, files`noisy, files`scaffold
      ensures files.Tracked(LogPaths(s.d)) && Confined(s, files.disk.fs)
      ensures o.Pass? ==> Growing(files.disk.fs, files.rollback.State()) && BundleFits(s.d, files.disk.fs)
      ensures o.Pass? ==> OnlyBundleWritten(s, files.disk.fs)
    {
      hide Acceptable, Sited, HostReady, Tracks, Growing, Touched, Fits, PlanFor, LogPaths, Generate, WritesOnly;
      hide Progress, Filter, Stepped;
      hide Placed, PlannedPaths, BundlePaths, Scoped, NothingLost, AccessWrite, OtherWrite, BundleFits, LogsFree;
      hide FilesAt;
      var logs := LogPaths(s.d);
      var first, second := AccessWrites(s), OtherWrites(s);
      SitedHost(s.d, s.fs);
      AreRounds();
      RoundReady(s, AccessWrite, s.fs);
      RoundReady(s, OtherWrite, s.fs);
      RoundsApart(s);
      o := files.ApplyResources(first, logs);
      ghost var mid := files.disk.fs;
      FirstRoundStays(s, mid, first);
      if o.Raise? { return; }
      if s.d.folders != [] {
        if * { return Raise; }
      }
      OthersStayReady(s.fs, mid, second, PathsOf(first), logs);
      RoundReady(s, OtherWrite, mid);
      o := files.ApplyResources(second, logs);
      SecondRoundStays(s, mid, files.disk.fs, second);
      if o.Raise? { return; }
      WrittenFits(s, mid, files.disk.fs);
      return Pass;
    }

    /** `_apply_development_operations`: the configuration is backed up before the first change. */
    method ApplyDevelopment(s: Scene) returns (o: Outcome)
      requires tree.repo == s.repo && tree.config == s.config && settings == None
      modifies tree, `settings
      ensures settings == None ==> tree.config == s.config
      ensures settings.Some? ==> settings.value == s.config
      ensures o.Pass? ==> GitPlan.GitResult(s) == Git.Done(tree.config)
    {
      hide GitPlan.IdentityOp, GitPlan.TransportOp, Git.ConvergedIdentity, Git.ConvergedTransport;
      if s.d.configVersion < 2 { return Pass; }
      var identity, transport := !GitPlan.IdentityOp(s).NoOp?, !GitPlan.TransportOp(s).NoOp?;
      if !identity && !transport { return Pass; }
      settings := Some(tree.config);
      if identity { :- tree.ConvergeIdentity(s.d); }
      if transport { :- tree.ConvergeTransport(s.d); }
      return Pass;
    }

    /** What a rollback would stop and disable is of this plan. */
    ghost predicate ListsPlanned(s: Scene)
      reads `started, `enabled
    {
      OnlyPlannedUnits(s, started) && OnlyPlannedUnits(s, enabled)
    }

    /** ENABLE, then START and RESTART. */
    method StartPhase(s: Scene) returns (o: Outcome)
      requires Acceptable(s) && s.d.present && started == [] && enabled == []
      requires StoppedAsPlanned(s, systemd.units) && Completed(s, StopActs(StopNames(s)))
      requires UnitsConfined(s, systemd.units)
      modifies systemd`units, systemd`calls, `started, `enabled
      ensures Performed(s, PassActs(s)) && UnitsConfined(s, systemd.units) && ListsPlanned(s)
      ensures o.Pass? ==> Completed(s, PassActs(s)) && Passed(s, systemd.units)
    {
      hide Acceptable, StopNames, EnableNames, StartNames, StartLe, StopLe, UnitsConfined, Passed, UnitOf;
      hide OnlyPlannedUnits, Performs, Completes, Through, Started, Running, StopActs, StartActs;
      hide StoppedAsPlanned, ActivityOf, EnablementOf, OthersKept;
      hide Ran;
      ghost var stopped, calls := systemd.units, systemd.calls;
      o, enabled := systemd.SetEnabledAll(EnableNames(s), true, true);
      EnablesArePlanned(s, enabled);
      ghost var before := systemd.units;
      EnableStep(s, stopped, before);
      if o.Raise? {
        SomeArePlanned(s, enabled, []);
        RanStill(s, StopActs(StopNames(s)), calls, stopped, before, started);
        Longer(s, StopActs(StopNames(s)), StartActs(StartNames(s)));
        return;
      }
      ghost var log;
      o, started, log := systemd.StartAll(StartNames(s));
      StartsPlanned(s, before, systemd.units, started);
      RanStill(s, StopActs(StopNames(s)), calls, stopped, before, []);
      RanMore(s, StopActs(StopNames(s)), StartActs(StartNames(s)), calls, log, stopped, systemd.units, [], started);
      assert [] + started == started;
      if o.Raise? { return; }
      ThreePasses(s, stopped, before, systemd.units);
    }

    /** A forced restart of the two core units. */
    method ForceRestart(s: Scene) returns (o: Outcome)
      requires Acceptable(s) && s.d.present && s.d.running && Passed(s, systemd.units)
      requires Completed(s, PassActs(s)) && UnitsConfined(s, systemd.units) && ListsPlanned(s)
      modifies systemd`units, systemd`calls, `started
      ensures Performed(s, PassActs(s) + ForceActs(s, true)) && UnitsConfined(s, systemd.units) && ListsPlanned(s)
      ensures o.Pass? ==> Completed(s, PassActs(s) + ForceActs(s, true)) && Passed(s, systemd.units)
    {
      hide Acceptable, Passed, UnitsConfined, McpName, TunnelName, OnlyPlannedUnits, PlannedUnit, UnitOf, ActivityOf;
      hide Performs, Completes, Through, Started, Running, PassActs, Ran;
      ghost var passed, calls := systemd.units, systemd.calls;
      ghost var core := [McpName(s.d.iid), TunnelName(s.d.iid)];
      CoreIsPlanned(s);
      CoreRuns(s, passed);
      var more;
      ghost var log;
      o, more, log := systemd.StartEach([McpName(s.d.iid), TunnelName(s.d.iid)]);
      SomeArePlanned(s, core, more);
      BothArePlanned(s, started, more);
      RanMore(s, PassActs(s), ForceActs(s, true), calls, log, passed, systemd.units, started, more);
      started := started + more;
      Activated(passed, systemd.units, core);
      UnitsConfinedMore(s, passed, systemd.units, core);
      if o.Raise? { return; }
      RestartedPasses(s, passed, systemd.units);
    }

    /** Obsolete units of one family are stopped, then disabled. */
    method StopStale(s: Scene, family: Family, ghost acts: seq<Act>) returns (o: Outcome)
      requires Acceptable(s) && WantedPassed(s, systemd.units)
      requires Completed(s, acts) && UnitsConfined(s, systemd.units) && ListsPlanned(s)
      modifies systemd`units, systemd`calls
      ensures Performed(s, acts + StaleActs(s, family)) && (o.Pass? ==> Completed(s, acts + StaleActs(s, family)))
      ensures UnitsConfined(s, systemd.units) && ListsPlanned(s) && WantedPassed(s, systemd.units)
    {
      hide Acceptable, StaleNames, WantedPassed, UnitsConfined, Performs, Completes, Through, Started, Running;
      hide StopActs, Ran;
      ghost var before, calls := systemd.units, systemd.calls;
      ghost var log;
      o, log := systemd.StopAll(StaleNames(s, family, Stop));
      StaleStep(s, family, Stop, before, systemd.units);
      StopPassStarts(StaleNames(s, family, Stop), Running(before), log);
      RanMore(s, acts, StaleActs(s, family), calls, log, before, systemd.units, started, []);
      assert started + [] == started;
      if o.Raise? { return; }
      ghost var stopped := systemd.units;
      var done;
      o, done := systemd.SetEnabledAll(StaleNames(s, family, Disable), false, false);
      StaleStep(s, family, Disable, stopped, systemd.units);
      EnablementRuns(stopped, systemd.units, StaleNames(s, family, Disable));
      RanStill(s, acts + StaleActs(s, family), systemd.calls, stopped, systemd.units, started);
    }

    /** `_validate_destructive_operations`, the part about resources. */
    method ValidateRemovals(rs: seq<Resource>) returns (o: Outcome)
      ensures o.Pass? ==> forall r | r in rs :: Verified(files.disk.fs, r)
      ensures o.Pass? ==> forall r | r in rs && r.id.StateDir? :: StateContentKnown(files.disk.fs, r.path)
    {
      for i := 0 to |rs|
        invariant forall j | 0 <= j < i :: Verified(files.disk.fs, rs[j])
        invariant forall j | 0 <= j < i && rs[j].id.StateDir? :: StateContentKnown(files.disk.fs, rs[j].path)
      {
        if !Verified(files.disk.fs, rs[i]) { return Raise; }
        if rs[i].id.StateDir? && !StateContentKnown(files.disk.fs, rs[i].path) { return Raise; }
      }
      return Pass;
    }

    /** REMOVE operations for what earlier declarations left. */
    method RemoveStale(s: Scene) returns (o: Outcome)
      requires Acceptable(s) && s.d.present && HostReady(s.d, s.fs)
      requires files.Tracked(LogPaths(s.d)) && Confined(s, files.disk.fs) && BundleFits(s.d, files.disk.fs)
      requires OnlyBundleWritten(s, files.disk.fs)
      requires KeepsTo(s)
      modifies files.disk, files.rollback, files`noisy
      ensures files.Tracked(LogPaths(s.d)) && Confined(s, files.disk.fs)
      ensures o.Pass? ==> BundleFits(s.d, files.disk.fs) && StaleGone(s, files.disk.fs)
    {
      hide Acceptable, HostReady, Tracks, Touched, Dropped, BundleFits, Generate, PlanFor, LogPaths, LogsFlat;
      hide RemovalsOf, Verified, StateContentKnown, OwnContent, MayRemove, PlannedPaths, Scoped;
      ghost var fs := files.disk.fs;
      var logs, rs := LogPaths(s.d), RemovalsOf(PlanFor(s));
      LogsAreFlat(s.d);
      SitedHost(s.d, s.fs);
      RemovalsArePlanned(s);
      :- ValidateRemovals(rs);
      RemovalsMayGo(s, fs);
      var refused;
      o, refused := files.RemoveResources(rs, logs);
      DroppedTouches(fs, files.disk.fs, Targets(rs), logs);
      RoundStaysWithin(s.fs, fs, files.disk.fs, Targets(rs), PlannedPaths(s), logs);
      if o.Raise? { return; }
      RemovedIsGone(s, fs, files.disk.fs);
      return Pass;
    }

    /** Everything an execution does to units once files and settings are in place. */
    method UnitPhases(s: Scene, force: bool) returns (o: Outcome)
      requires Acceptable(s) && s.d.present && started == [] && enabled == []
      requires StoppedAsPlanned(s, systemd.units) && Completed(s, StopActs(StopNames(s)))
      requires UnitsConfined(s, systemd.units)
      modifies systemd`units, systemd`calls, `started, `enabled
      ensures Performed(s, Acts(s, force)) && UnitsConfined(s, systemd.units) && ListsPlanned(s)
      ensures o.Pass? ==> WantedPassed(s, systemd.units) && Completed(s, Acts(s, force))
    {
      hide Acceptable, StoppedAsPlanned, StopActs, StopNames, Performed, Completed, UnitsConfined, ListsPlanned;
      hide WantedPassed, PassActs, StaleActs, Passed, McpName, TunnelName;
      ghost var pass, core, guard, development := PassActs(s), ForceActs(s, force), StaleActs(s, GuardFamily),
        StaleActs(s, DevelopmentFamily);
      assert pass + core + guard + development == Acts(s, force);
      o := StartPhase(s);
      if o.Raise? {
        LongerStill(s, pass, core, guard, development);
        return;
      }
      if force && s.d.running {
        o := ForceRestart(s);
        if o.Raise? {
          LongerStill(s, pass + core, [], guard, development);
          return;
        }
      }
      assert !(force && s.d.running) ==> pass + core == pass;
      PassedSettles(s, systemd.units);
      o := StopStale(s, GuardFamily, pass + core);
      if o.Raise? {
        Longer(s, pass + core + guard, development);
        return;
      }
      o := StopStale(s, DevelopmentFamily, pass + core + guard);
    }

    lemma LongerStill(s: Scene, acts: seq<Act>, a: seq<Act>, b: seq<Act>, c: seq<Act>)
      requires Performed(s, acts)
      ensures Performed(s, acts + a + b + c) && Performed(s, acts + b + c)
    {
      hide Performed;
      Longer(s, acts, a);
      Longer(s, acts + a, b);
      Longer(s, acts + a + b, c);
      Longer(s, acts, b);
      Longer(s, acts + b, c);
    }

    /** Everything an execution does before it starts units. */
    method Prepare(s: Scene) returns (o: Outcome)
      requires Acceptable(s) && s.d.present && HostReady(s.d, s.fs) && Fresh(s) && KeepsTo(s)
      requires files.Tracked(LogPaths(s.d)) && Growing(files.disk.fs, files.rollback.State())
      modifies files.disk, files.rollback, files`noisy, files`scaffold, systemd`units, systemd`calls, tree, `settings
      ensures files.Tracked(LogPaths(s.d)) && Confined(s, files.disk.fs)
      ensures Performed(s, StopActs(StopNames(s))) && UnitsConfined(s, systemd.units) && ListsPlanned(s)
      ensures if settings.Some? then settings.value == s.config else tree.config == s.config
      ensures o.Pass? ==> BundleFits(s.d, files.disk.fs) && OnlyBundleWritten(s, files.disk.fs)
      ensures o.Pass? ==> StoppedAsPlanned(s, systemd.units) && Completed(s, StopActs(StopNames(s)))
      ensures o.Pass? ==> GitPlan.GitResult(s) == Git.Done(tree.config) && started == [] && enabled == []
    {
      hide Acceptable, HostReady, Tracks, Growing, LogsFree, FilesAt, Generate, PlanFor, LogPaths, Performs, Completes;
      hide Through, Started, Running, StopActs;
      hide BundleFits, OnlyBundleWritten, StoppedAsPlanned, UnitsConfined, Confined, GitPlan.GitResult;
      ConfinedStart(s);
      o := StopPass(s);
      if o.Raise? { return; }
      o := WriteAll(s);
      if o.Raise? { return; }
      o := ApplyDevelopment(s);
      if o.Raise? { return; }
      if * { return Raise; }
    }

    lemma LongerList(s: Scene, force: bool)
      requires s.d.present && Performed(s, StopActs(StopNames(s)))
      ensures Performed(s, Acts(s, force))
    {
      hide Performed, StopActs, StopNames, StartActs, StartNames, ForceActs, StaleActs;
      Longer(s, StopActs(StopNames(s)), StartActs(StartNames(s)));
      LongerStill(s, PassActs(s), ForceActs(s, force), StaleActs(s, GuardFamily), StaleActs(s, DevelopmentFamily));
    }

    /** `_execute` for a present instance. */
    method ExecutePresent(s: Scene, force: bool) returns (o: Outcome)
      requires Acceptable(s) && s.d.present && HostReady(s.d, s.fs) && Fresh(s) && KeepsTo(s)
      requires files.Tracked(LogPaths(s.d)) && Growing(files.disk.fs, files.rollback.State())
      modifies files.disk, files.rollback, files`noisy, files`scaffold, systemd`units, systemd`calls, tree, `settings,
               `started, `enabled
      ensures files.Tracked(LogPaths(s.d)) && Confined(s, files.disk.fs)
      ensures Performed(s, Acts(s, force)) && UnitsConfined(s, systemd.units) && ListsPlanned(s)
      ensures if settings.Some? then settings.value == s.config else tree.config == s.config
      ensures o.Pass? ==> Executed(s, files.disk.fs, systemd.units, tree.config) && Completed(s, Acts(s, force))
    {
      hide *;
      SitedHost(s.d, s.fs);
      o := Prepare(s);
      if o.Raise? {
        LongerList(s, force);
        return;
      }
      ghost var fs, config := files.disk.fs, tree.config;
      o := UnitPhases(s, force);
      assert files.disk.fs == fs && tree.config == config;
      if o.Raise? { return; }
      ghost var units, calls := systemd.units, systemd.calls;
      o := RemoveStale(s);
      assert systemd.units == units && systemd.calls == calls && tree.config == config;
      if o.Raise? { return; }
      if * { return Raise; }
      ExecutedPresent(s, files.disk.fs, systemd.units, tree.config);
    }

    /** Stop and disable every unit of an absent instance. */
    method StopEverything(s: Scene) returns (o: Outcome)
      requires Acceptable(s) && !s.d.present && systemd.units == s.units && started == [] && enabled == []
      requires systemd.calls == [] && systemd.back == []
      modifies systemd`units, systemd`calls
      ensures Performed(s, StopActs(StopNames(s))) && UnitsConfined(s, systemd.units) && ListsPlanned(s)
      ensures o.Pass? ==>
                Completed(s, StopActs(StopNames(s))) && forall r | r in Generate(s.d) ::
                  UnitSettled(s.d, r, systemd.units)
    {
      hide Acceptable, StopNames, DisableNames, UnitOf, UnitSettled, Generate, UnitsConfined, Performs, Completes;
      hide Through, Started, Running, StopActs;
      o := StopPass(s);
      if o.Raise? { return; }
      ghost var stopped := systemd.units;
      var done;
      o, done := systemd.SetEnabledAll(DisableNames(s), false, false);
      DisableStep(s, stopped, systemd.units);
      RanStill(s, StopActs(StopNames(s)), systemd.calls, stopped, systemd.units, started);
      if o.Raise? { return; }
      AbsentUnits(s, stopped, systemd.units);
    }

    /** `_execute` for an absent instance: nothing happens before everything is verified. */
    method ExecuteAbsent(s: Scene) returns (o: Outcome)
      requires Acceptable(s) && !s.d.present && Sited(s.d) && Fresh(s) && files.Tracked(LogPaths(s.d)) && KeepsTo(s)
      modifies files.disk, files.rollback, files`noisy, systemd`units, systemd`calls, tree, `settings
      ensures files.Tracked(LogPaths(s.d)) && Confined(s, files.disk.fs)
      ensures Performed(s, StopActs(StopNames(s))) && UnitsConfined(s, systemd.units) && ListsPlanned(s)
      ensures if settings.Some? then settings.value == s.config else tree.config == s.config
      ensures files.rollback.created == old(files.rollback.created)
      ensures o.Pass? ==> Executed(s, files.disk.fs, systemd.units, tree.config) && Completed(s, StopActs(StopNames(s)))
    {
      hide Acceptable, Tracks, Scoped, PlannedPaths, BundlePaths, LogsFree, FilesAt, Generate, PlanFor, LogPaths, Sited;
      hide RemovalsOf, Verified, StateContentKnown, StopActs, StopNames, Running;
      hide UnitsConfined, Confined, Executed, GitPlan.GitResult, MayRemove, UnitSettled, OwnContent, LogsFlat;
      hide UnitsCovered, Dropped, Touched;
      ConfinedStart(s);
      var rs := RemovalsOf(PlanFor(s));
      if !UnitsCovered(PlanFor(s)) { return Raise; }
      o := ValidateRemovals(rs);
      if o.Raise? { return; }
      o := StopEverything(s);
      if o.Raise? { return; }
      o := ApplyDevelopment(s);
      if o.Raise? { return; }
      RemovalsMayGo(s, s.fs);
      LogsAreFlat(s.d);
      RemovalsArePlanned(s);
      var refused;
      o, refused := files.RemoveResources(rs, LogPaths(s.d));
      DroppedTouches(s.fs, files.disk.fs, Targets(rs), LogPaths(s.d));
      ConfinedRemoval(s, files.disk.fs);
      if o.Raise? { return; }
      if * { return Raise; }
      ExecutedAbsent(s, files.disk.fs, systemd.units, tree.config);
    }

    /** The unit part of `_rollback`: started units stop, enabled units are disabled. */
    method StopAndDisable(s: Scene, ghost acts: seq<Act>)
      requires Performed(s, acts) && UnitsConfined(s, systemd.units) && ListsPlanned(s)
      modifies systemd`units, systemd`back
      ensures UnitsConfined(s, systemd.units)
      ensures UnitRun(Running(s.units), acts, systemd.calls, systemd.back)
      ensures Running(systemd.units) == Through(Running(s.units), systemd.calls + systemd.back)
    {
      hide Performs, Through, Started, UnitOf, Running, UnitsConfined, OnlyPlannedUnits, PlannedUnit;
      ghost var before := systemd.units;
      systemd.StopStarted(started);
      ghost var units := systemd.units;
      UnitsConfinedMore(s, before, units, started);
      systemd.DisableEnabled(enabled);
      UnitsConfinedMore(s, units, systemd.units, enabled);
      EnablementRuns(units, systemd.units, enabled);
      ThroughParts(Running(s.units), systemd.calls, systemd.back);
    }

    /** `_rollback`: units first, then files and settings return. */
    method Undo(s: Scene, ghost acts: seq<Act>) returns (undoing: Undoing)
      requires files.Tracked(LogPaths(s.d)) && Performed(s, acts) && UnitsConfined(s, systemd.units) && ListsPlanned(s)
      requires KeepsTo(s)
      requires Confined(s, files.disk.fs) && files.start == s.fs
      requires ValidDesired(s.d) && (files.rollback.created == [] || HostReady(s.d, s.fs))
      requires (s.d.present || files.scaffold == {})
      requires if settings.Some? then settings.value == s.config else tree.config == s.config
      modifies files.disk, systemd`units, systemd`back, tree
      ensures UnitsConfined(s, systemd.units)
      ensures UnitRun(Running(s.units), acts, systemd.calls, systemd.back)
      ensures Running(systemd.units) == Through(Running(s.units), systemd.calls + systemd.back)
      ensures undoing.Undone? ==>
                && Back(s.fs, files.disk.fs, LogPaths(s.d)) && tree.config == s.config
                && RolledBack(s, files.disk.fs, Leftovers(s.d, Live(s, systemd.units), undoing.stuck))
      ensures undoing == Interrupted(false) ==> exists b | b in files.rollback.backups :: b.node.Blob?
    {
      hide Tracks, LogPaths, LogsFree, FilesAt, Back, UnitOf, Performs, UnitRun, Through, Started, Running, Restored;
      hide Scoped, PlannedPaths;
      hide BundlePaths, HostReady, ValidDesired, Confined, RolledBack, UnitsConfined, OnlyPlannedUnits, PlannedUnit;
      hide Live, Leftovers;
      hide Replayed, Rooted, ClearRecord, AllText, LogsKnown;
      StopAndDisable(s, acts);
      ghost var fs, u := files.disk.fs, files.rollback.State();
      TracksClear(s.fs, fs, u, files.noisy, files.scaffold);
      var o, broken, stuck;
      ghost var run;
      o, broken, stuck, run := files.rollback.Restore(files.disk, LogPaths(s.d), Live(s, systemd.units));
      if o.Pass? {
        CreatedLeaves(s, fs, u, files.noisy, files.scaffold, run, files.disk.fs);
        ReplayIsBack(s.fs, fs, u, files.noisy, files.scaffold, LogPaths(s.d), run, files.disk.fs);
        ReplayRollsBack(s, fs, u, files.noisy, files.scaffold, run, files.disk.fs);
        if settings.Some? { tree.config := settings.value; }
        return Undone(stuck);
      }
      if !broken { NotTextBackup(fs, u); }
      if * {
        if settings.Some? { tree.config := settings.value; }
      }
      return Interrupted(broken);
    }

    /** The state a transaction is made for. */
    ghost predicate Unstarted(d: Desired)
      reads this, files, files.disk, files.rollback, systemd, tree
    {
      && ValidDesired(d) && (if d.present then HostReady(d, files.disk.fs) else Sited(d))
      && files.Tracked(LogPaths(d)) && Growing(files.disk.fs, files.rollback.State()) && files.start == files.disk.fs
      && files.rollback.State() == NOTHING && files.scaffold == {}
    }

    function Now(d: Desired): Scene
      reads this, files.disk, systemd, tree
    {
      Scene(tree.repo, d, files.disk.fs, systemd.units, tree.config, applied)
    }

    method Execute(s: Scene, force: bool) returns (o: Outcome)
      requires Acceptable(s) && Unstarted(s.d) && s == Now(s.d) && Fresh(s) && KeepsTo(s)
      modifies files.disk, files.rollback, files`noisy, files`scaffold, systemd`units, systemd`calls, tree, `settings,
               `started, `enabled
      ensures files.Tracked(LogPaths(s.d)) && Confined(s, files.disk.fs)
      ensures Performed(s, Acts(s, force)) && UnitsConfined(s, systemd.units) && ListsPlanned(s)
      ensures if settings.Some? then settings.value == s.config else tree.config == s.config
      ensures s.d.present || (files.rollback.created == [] && files.scaffold == {})
      ensures o.Pass? ==> Executed(s, files.disk.fs, systemd.units, tree.config) && Completed(s, Acts(s, force))
    {
      hide Acceptable, HostReady, Sited, Scoped, PlannedPaths, BundlePaths, Tracks, Growing, LogsFree, FilesAt;
      hide LogPaths, ValidDesired, Confined, UnitsConfined, Executed;
      hide PassActs, ForceActs, StaleActs, StopActs, StopNames, Performed, Completed, ListsPlanned;
      if s.d.present {
        o := ExecutePresent(s, force);
      } else {
        o := ExecuteAbsent(s);
      }
    }

    /** What follows an execution: readiness, a second plan, the record. */
    method Qualify(s: Scene, ghost c0: Git.Config) returns (reason: Reason, done: bool)
      requires Acceptable(s) && Executed(s, files.disk.fs, systemd.units, tree.config) && tree.repo == s.repo
      requires applied == s.owned
      modifies `applied
      ensures done ==> applied == RecordOf(s.d) && AllNoop(PlanFor(Now(s.d)))
      ensures !done ==> applied == if reason.AfterRecord? then RecordOf(s.d) else s.owned
      ensures reason.NotConverged? && Traceable(c0, s) ==> !GitPlan.Spelled(s)
    {
      hide Acceptable, Executed, Traceable, GitPlan.Spelled, RecordOf, PlanOf, AllNoop, Settled;
      NoopIsSettled(s, c0, files.disk.fs, systemd.units, tree.config);
      if * { return Readiness, false; }
      var plan := MakePlan(tree.repo, s.d, files.disk.fs, systemd.units, tree.config, applied);
      if !AllNoop(plan) { return NotConverged, false; }
      if * { return BeforeRecord, false; }
      RecordSettles(s, files.disk.fs, systemd.units, tree.config);
      applied := RecordOf(s.d);
      if * { return AfterRecord, true; }
      return AfterRecord, false;
    }

    lemma WithoutRollback(s: Scene, force: bool)
      requires Performed(s, Acts(s, force))
      ensures UnitRun(Running(s.units), Acts(s, force), systemd.calls, systemd.back)
      ensures Running(systemd.units) == Through(Running(s.units), systemd.calls + systemd.back)
    {
      assert systemd.calls + systemd.back == systemd.calls;
    }

    lemma OrderKept(s: Scene, force: bool)
      requires Acceptable(s) && UnitRun(Running(s.units), Acts(s, force), systemd.calls, systemd.back)
      ensures Tethered(Running(s.units), McpName(s.d.iid), TunnelName(s.d.iid)) && !Risky(s, force) ==>
                StaysTethered(Running(s.units), systemd.calls + systemd.back, McpName(s.d.iid), TunnelName(s.d.iid))
    {
      hide Acceptable, UnitRun, Running, Acts, Risky, Tethered, StaysTethered, McpName, TunnelName;
      if Tethered(Running(s.units), McpName(s.d.iid), TunnelName(s.d.iid)) && !Risky(s, force) {
        KeepsTether(s, force, systemd.calls, systemd.back);
      }
    }

    /** `HostApplyService.apply`: plan, execute, qualify, plan again, record; undo whatever fails. */
    method Apply(d: Desired, force: bool, ghost c0: Git.Config) returns (end: Ending)
      requires Unstarted(d)
      modifies files.disk, files.rollback, files`noisy, files`scaffold, files`scope, files`bundle, systemd, tree
      modifies this`applied, this`settings, this`started, this`enabled
      ensures Transition(old(Now(d)), end, Now(d))
      ensures end.Failed? && end.undoing == Interrupted(false) ==>
                exists b | b in files.rollback.backups :: b.node.Blob?
      ensures end.Failed? && end.reason.NotConverged? && Traceable(c0, old(Now(d))) ==> !GitPlan.Spelled(old(Now(d)))
      ensures !end.Refused? ==>
                UnitRun(Running(old(systemd.units)), Acts(old(Now(d)), force), systemd.calls, systemd.back)
      ensures Running(systemd.units) == Through(Running(old(systemd.units)), systemd.calls + systemd.back)
      ensures end.Succeeded? ==> Tethered(Running(systemd.units), McpName(d.iid), TunnelName(d.iid))
      ensures !end.Refused? && Tethered(Running(old(systemd.units)), McpName(d.iid), TunnelName(d.iid))
              && !Risky(old(Now(d)), force) ==>
                StaysTethered(Running(old(systemd.units)), systemd.calls + systemd.back, McpName(d.iid),
                  TunnelName(d.iid))
    {
      hide Valid, HostReady, Sited, Tracks, Growing, LogsFree, FilesAt, LogPaths, McpName, TunnelName, ValidDesired;
      hide Confined, UnitsConfined, Executed, Performs, Completes;
      hide UnitRun, Started, Running, Tethered, StaysTethered, Risky, Acts;
      hide ListsPlanned, Back, RolledBack, Live, Leftovers, Traceable, GitPlan.Spelled, RecordOf, PlanOf, AllNoop;
      hide Settled, PlannedPaths, BundlePaths, Scoped, StaleGone;
      systemd.calls, systemd.back := [], [];
      settings, started, enabled := None, [], [];
      var s := Now(d);
      var plan := MakePlan(s.repo, d, s.fs, s.units, s.config, s.owned);
      if !Valid(plan) { return Refused; }
      NothingScoped(files.scaffold, PlannedPaths(s), BundlePaths(d), LogPaths(d));
      files.scope, files.bundle := PlannedPaths(s), BundlePaths(d);
      var reason, done := Execution, false;
      var o := Execute(s, force);
      if o.Pass? {
        ExecutedClears(s, files.disk.fs, systemd.units, tree.config);
        reason, done := Qualify(s, c0);
        if done {
          ExecutedTethers(s, files.disk.fs, systemd.units, tree.config);
          WithoutRollback(s, force);
          OrderKept(s, force);
          return Succeeded;
        }
      }
      var undoing := Undo(s, Acts(s, force));
      OrderKept(s, force);
      return Failed(reason, undoing);
    }
  }
}
