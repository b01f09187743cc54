/** The file part of a valid plan: what it writes is ready to be written, and once written
    the whole bundle fits. */
module WritePlan {
  import opened Text
  import opened Host
  import opened Generation
  import opened Planning
  import opened Convergence
  import opened Selection
  import opened Evidence
  import opened Placement
  import opened Rollback
  import opened PlanContents
  import opened ResourceFiles
  import opened Namespace

  /** The workspace lies neither at nor below one of the instance's log files. */
  predicate Sited(d: Desired) {
    forall l | l in LogPaths(d) :: l != d.workspace && !Below(l, d.workspace)
  }

  predicate Sound(rid: Rid) { rid.Mount? ==> AliasOk(rid.alias) }

  lemma LogName(name: string)
    requires name in RUNTIME_STATE_FILES
    ensures name != "" && name[0] != '.' && '.' in name
  {
    assert name[|name| - 4] == '.' || name[|name| - 5] == '.';
  }

  lemma LogShape(d: Desired, l: Path)
    requires l in LogPaths(d)
    ensures |l| == |d.home| + 6 && Last(l) in RUNTIME_STATE_FILES && ParentName(l) == d.iid
  {
    var name :| name in RUNTIME_STATE_FILES && l == StatePath(d) + [name];
  }

  lemma HomePathLength(d: Desired, rid: Rid)
    requires !rid.IsAccess()
    ensures |PathOf(d, rid)| <= |d.home| + 6 && (|PathOf(d, rid)| == |d.home| + 6 <==> rid.StateOwner?)
  {
  }

  lemma HomeApart(d: Desired, rid: Rid)
    requires !rid.IsAccess()
    ensures Apart(PathOf(d, rid), LogPaths(d))
  {
    HomePathLength(d, rid);
    PathEnds(d, rid);
    forall l | l in LogPaths(d) ensures l != PathOf(d, rid) && !Below(l, PathOf(d, rid)) {
      LogShape(d, l);
      LogName(Last(l));
    }
  }

  lemma AccessApart(d: Desired, rid: Rid)
    requires ValidDesired(d) && Sited(d) && rid.IsAccess() && Sound(rid)
    ensures Apart(PathOf(d, rid), LogPaths(d))
  {
    var p := PathOf(d, rid);
    PathEnds(d, rid);
    forall l | l in LogPaths(d) ensures l != p && !Below(l, p) {
      LogShape(d, l);
      LogName(Last(l));
      BelowAccess(d, rid, l);
    }
  }

  lemma BelowMarked(w: Path, mark: string, p: Path, l: Path)
    requires |w| < |p| <= |w| + 2 && p[..|w|] == w && p[|w|] == mark
    requires l != [] && Last(l) != mark && l != w && !Below(l, w)
    ensures !Below(l, p)
  {
    if |l| <= |w| {
      assert p[..|l|] == w[..|l|];
    } else if |l| < |p| {
      assert p[..|l|][|w|] == mark;
    }
  }

  const ACCESS_MARK := ".workspace-mcp-access"

  lemma AccessShape(d: Desired, rid: Rid)
    requires rid.IsAccess()
    ensures var p, w := PathOf(d, rid), d.workspace; |w| < |p| <= |w| + 2 && p[..|w|] == w && p[|w|] == ACCESS_MARK
    ensures Last(PathOf(d, rid)) == ACCESS_MARK || ParentName(PathOf(d, rid)) == ACCESS_MARK
  {
  }

  lemma BelowAccess(d: Desired, rid: Rid, l: Path)
    requires ValidDesired(d) && rid.IsAccess()
    requires l != [] && Last(l) != "" && Last(l)[0] != '.' && ParentName(l) == d.iid
    requires l != d.workspace && !Below(l, d.workspace)
    ensures l != PathOf(d, rid) && !Below(l, PathOf(d, rid))
  {
    assert ACCESS_MARK[0] == '.' && '.' in ACCESS_MARK && '.' !in d.iid;
    AccessShape(d, rid);
    hide PathOf;
    BelowMarked(d.workspace, ACCESS_MARK, PathOf(d, rid), l);
  }

  lemma ResourceApart(d: Desired, rid: Rid)
    requires ValidDesired(d) && Sited(d) && Sound(rid)
    ensures Apart(PathOf(d, rid), LogPaths(d))
  {
    if rid.IsAccess() { AccessApart(d, rid); } else { HomeApart(d, rid); }
  }

  lemma LogsAreFlat(d: Desired)
    ensures LogsFlat(LogPaths(d))
  {
    forall l, m | l in LogPaths(d) && m in LogPaths(d) ensures !Below(l, m) {
      LogShape(d, l);
      LogShape(d, m);
    }
  }

  lemma MentionedIsSound(s: Scene, r: Resource)
    requires Acceptable(s) && Mentioned(s, r)
    ensures Sound(r.id) && r.path == PathOf(s.d, r.id)
  {
    if r in Generate(s.d) {
      BundleMember(s.d, r);
      hide Generate, PathOf, ResourceOf, Ids, PlanFor;
      if r.id.Mount? {
        assert Folder(r.id.mode, r.id.alias) in s.d.folders;
      }
    } else {
      StaleShape(s, r);
    }
  }

  lemma MentionedApart(s: Scene, r: Resource)
    requires Acceptable(s) && Sited(s.d) && Mentioned(s, r)
    ensures Apart(r.path, LogPaths(s.d))
  {
    MentionedIsSound(s, r);
    ResourceApart(s.d, r.id);
  }

  lemma NoReturns(d: Desired, rid: Rid)
    requires ValidDesired(d)
    ensures !ResourceOf(d, rid).kind.Directory? ==>
              ResourceOf(d, rid).content.Some? && '\r' !in ResourceOf(d, rid).content.value
    ensures rid.StateDir? ==> Name(PathOf(d, rid)) != OWNER_FILE
  {
    assert '\r' !in OWNER_PREFIX;
    assert '\r' !in d.iid;
    assert '.' !in d.iid && OWNER_FILE[0] == '.';
  }

  // ---- the writes of a plan ----

  function Files(s: Scene): seq<PlanItem> { FileItems(s.d.present, Generate(s.d), s.fs) }

  lemma FilesDistinct(s: Scene)
    requires ValidDesired(s.d)
    ensures DistinctPaths(Files(s))
  {
    var bundle, items := Generate(s.d), Files(s);
    BundleDistinct(s.d);
    forall i, j | 0 <= i < j < |items| ensures items[i].subject.r.path != items[j].subject.r.path {
      var ids := Ids(s.d);
      assert ids[i] != ids[j] && ids[i] in ids && ids[j] in ids;
      ResourceShape(s.d, ids[i]);
      ResourceShape(s.d, ids[j]);
      assert items[i] == FileItem(s.d.present, bundle[i], s.fs) && items[j] == FileItem(s.d.present, bundle[j], s.fs);
    }
  }

  lemma StaleNeverWrites(family: Family, s: Scene, x: PlanItem)
    requires StaleResources(family, s.d, Generate(s.d), s.fs, s.owned).Listed?
    ensures x in StaleItems(family, s.d, Generate(s.d), s.fs, s.units, s.owned) ==> !Write(x)
  {
    InStaleItems(family, s, x);
    hide Generate, StaleResources, StaleItems, StaleOperations, Obsoletes;
    if x.subject.OnResource? || x.subject.OnUnit? { StaleOpKinds(family, x.subject.r, s.fs, s.units, x.op); }
  }

  lemma StaleOpKinds(family: Family, r: Resource, fs: Tree, units: Units, op: Operation)
    ensures op in StaleOperations(family, r, fs, units) ==> !op.Create? && !op.Update?
  {
    hide Observe;
  }

  lemma UnitItemsNeverWrite(s: Scene, x: PlanItem)
    ensures x in UnitItems(s.d, Generate(s.d), s.units, Changed(s)) ==> !Write(x)
    ensures x in TunnelItems(s.d, Generate(s.d), s.units, Changed(s)) || x in GitItems(s.repo, s.config, s.d) ==>
              !Write(x)
  {
    InUnitItems(s.d, Generate(s.d), s.units, Changed(s), x);
    hide Generate, ResourceOf, UnitItems;
  }

  /** A plan for a present instance, without its file part. */
  function Rest(s: Scene): seq<PlanItem> {
    var bundle, changed := Generate(s.d), Changed(s);
    GitItems(s.repo, s.config, s.d)
      + (UnitItems(s.d, bundle, s.units, changed) + TunnelItems(s.d, bundle, s.units, changed))
    + (StaleItems(GuardFamily, s.d, bundle, s.fs, s.units, s.owned)
      + StaleItems(DevelopmentFamily, s.d, bundle, s.fs, s.units, s.owned)
       + StaleItems(AccessFamily, s.d, bundle, s.fs, s.units, s.owned))
  }

  lemma PresentPlan(s: Scene)
    requires s.d.present
    ensures PlanFor(s) == Files(s) + Rest(s)
  {
    hide Generate, FileItems, UnitItems, GitItems, TunnelItems, StaleItems, ChangedIds;
  }

  lemma RestNeverWrites(s: Scene, x: PlanItem)
    requires AllListed(s) && x in Rest(s)
    ensures !Write(x)
  {
    UnitItemsNeverWrite(s, x);
    StaleNeverWrites(GuardFamily, s, x);
    StaleNeverWrites(DevelopmentFamily, s, x);
    StaleNeverWrites(AccessFamily, s, x);
    hide Generate, FileItems, UnitItems, GitItems, TunnelItems, StaleItems, ChangedIds, StaleResources, Write;
  }

  /** Only the file part of a plan writes, so picking writes from either is the same. */
  lemma WritesAreFiles(s: Scene, f: PlanItem -> bool)
    requires Acceptable(s) && s.d.present && forall x | f(x) :: Write(x)
    ensures Filter(PlanFor(s), f) == Filter(Files(s), f)
  {
    InPlan(s, PlanItem(NoOp, OnEvidence));
    PresentPlan(s);
    hide AllListed, Rest, Files, PlanFor, Acceptable;
    forall x | x in Rest(s) ensures !f(x) { RestNeverWrites(s, x); }
    FilterConcat(Files(s), Rest(s), f);
    FilterNone(Rest(s), f);
  }

  lemma WritesDistinct(s: Scene, f: PlanItem -> bool)
    requires Acceptable(s) && s.d.present && forall x | f(x) :: Write(x)
    ensures DistinctPaths(Filter(PlanFor(s), f))
  {
    WritesAreFiles(s, f);
    FilesDistinct(s);
    FilterDistinct(Files(s), f);
  }

  lemma WriteIsReady(s: Scene, x: PlanItem)
    requires Acceptable(s) && s.d.present && Sited(s.d) && x in PlanFor(s) && Write(x)
    ensures x.subject.r in Generate(s.d) && Apart(x.subject.r.path, LogPaths(s.d)) && Ready(s.fs, x.op, x.subject.r)
    ensures x == FileItem(s.d.present, x.subject.r, s.fs)
  {
    InPlan(s, x);
    assert FileItemIn(s, x) by {
      UnitItemsNeverWrite(s, x);
      StaleNeverWrites(GuardFamily, s, x);
      StaleNeverWrites(DevelopmentFamily, s, x);
      StaleNeverWrites(AccessFamily, s, x);
      InStaleItems(GuardFamily, s, x);
      InStaleItems(DevelopmentFamily, s, x);
      InStaleItems(AccessFamily, s, x);
      InUnitItems(s.d, Generate(s.d), s.units, Changed(s), x);
    }
    MentionedApart(s, x.subject.r);
    BundleMember(s.d, x.subject.r);
    NoReturns(s.d, x.subject.r.id);
    ReadyByPlan(s.d.present, x.subject.r, s.fs);
  }

  lemma ReadyByPlan(present: bool, r: Resource, fs: Tree)
    requires present && (r.kind.Directory? || (r.content.Some? && '\r' !in r.content.value))
    requires (r.id.StateDir? ==> Name(r.path) != OWNER_FILE)
    ensures var op := FileOperation(present, r, fs); op.Create? || op.Update? ==> Ready(fs, op, r)
    ensures FileOperation(present, r, fs).NoOp? ==> Fits(fs, r)
    ensures FileOperation(present, r, fs).Create? || FileOperation(present, r, fs).Update?
            || FileOperation(present, r, fs).NoOp? || FileOperation(present, r, fs).Conflict?
  {
  }

  /** The host a plan for a present instance needs: home and workspace are directories. */
  ghost predicate HostReady(d: Desired, fs: Tree) {
    && Rooted(fs) && Sited(d)
    && d.home in fs && fs[d.home].Dir? && d.workspace in fs && fs[d.workspace].Dir?
  }

  lemma PathOfOne(d: Desired, r: Resource, x: Resource)
    requires ValidDesired(d) && r in Generate(d) && x in Generate(d) && r.path == x.path
    ensures r == x
  {
    BundleMember(d, r);
    BundleMember(d, x);
    BundleDistinct(d);
  }

  /** Nothing planned to be written, a bundle resource fits already. */
  lemma UnwrittenFits(s: Scene, r: Resource)
    requires Acceptable(s) && s.d.present && r in Generate(s.d)
    ensures Fits(s.fs, r) || (exists x | x in PlanFor(s) :: Write(x) && x.subject.r == r)
  {
    var x := FileItem(true, r, s.fs);
    InPlan(s, x);
    NoConflictIn(PlanFor(s), OnResource(r));
    BundleMember(s.d, r);
    NoReturns(s.d, r.id);
    ReadyByPlan(true, r, s.fs);
  }

  ghost predicate BundleFits(d: Desired, fs: Tree) { forall r | r in Generate(d) :: Fits(fs, r) }

  ghost predicate AllFit(fs: Tree, items: seq<PlanItem>) {
    forall i | 0 <= i < |items| :: items[i].subject.OnResource? && Fits(fs, items[i].subject.r)
  }

  lemma InPaths(items: seq<PlanItem>, x: PlanItem)
    requires (forall i | 0 <= i < |items| :: items[i].subject.OnResource?) && x in items
    ensures x.subject.OnResource? && x.subject.r.path in PathsOf(items)
  {
  }

  lemma PathInItems(items: seq<PlanItem>, p: Path)
    requires (forall i | 0 <= i < |items| :: items[i].subject.OnResource?) && p in PathsOf(items)
    ensures exists x | x in items :: x.subject.OnResource? && x.subject.r.path == p
  {
  }

  lemma WritesAreOnly(s: Scene, f: PlanItem -> bool)
    requires Acceptable(s) && s.d.present && Sited(s.d) && forall x | f(x) :: Write(x)
    ensures var items := Filter(PlanFor(s), f);
            WritesOnly(items, LogPaths(s.d)) && Progress(s.fs, items, LogPaths(s.d), 0)
  {
    var items := Filter(PlanFor(s), f);
    WritesDistinct(s, f);
    hide Acceptable, PlanFor, Generate, Apart, Ready, LogPaths;
    forall i | 0 <= i < |items|
      ensures Write(items[i]) && Apart(items[i].subject.r.path, LogPaths(s.d))
      ensures Ready(s.fs, items[i].op, items[i].subject.r)
    {
      InFilter(PlanFor(s), f, items[i]);
      WriteIsReady(s, items[i]);
    }
  }

  /** Writing something else does not disturb what is ready to be written. */
  lemma OthersStayReady(fs: Tree, next: Tree, items: seq<PlanItem>, paths: set<Path>, logs: set<Path>)
    requires WritesOnly(items, logs) && Progress(fs, items, logs, 0) && Touched(fs, next, paths, logs)
    requires forall i | 0 <= i < |items| :: items[i].subject.r.path !in paths
    ensures Progress(next, items, logs, 0)
  {
    forall j | 0 <= j < |items| ensures Ready(next, items[j].op, items[j].subject.r) {
      assert Ready(fs, items[j].op, items[j].subject.r);
    }
  }

  lemma WritesApart(s: Scene, i: nat, j: nat)
    requires Acceptable(s) && s.d.present && Sited(s.d)
    requires i < |Filter(PlanFor(s), AccessWrite)| && j < |Filter(PlanFor(s), OtherWrite)|
    ensures var a, o := Filter(PlanFor(s), AccessWrite)[i], Filter(PlanFor(s), OtherWrite)[j];
            a.subject.OnResource? && o.subject.OnResource? && a.subject.r.path != o.subject.r.path
  {
    var a, o := Filter(PlanFor(s), AccessWrite)[i], Filter(PlanFor(s), OtherWrite)[j];
    InFilter(PlanFor(s), AccessWrite, a);
    InFilter(PlanFor(s), OtherWrite, o);
    WriteIsReady(s, a);
    WriteIsReady(s, o);
    hide Acceptable, PlanFor, Generate, Filter;
    if a.subject.r.path == o.subject.r.path {
      PathOfOne(s.d, a.subject.r, o.subject.r);
    }
  }

  /** Both rounds of writes done, the whole bundle is in place. */
  lemma WrittenFits(s: Scene, mid: Tree, end: Tree)
    requires Acceptable(s) && s.d.present && Sited(s.d)
    requires var a := Filter(PlanFor(s), AccessWrite); var o := Filter(PlanFor(s), OtherWrite);
    var logs := LogPaths(s.d);
             && WritesOnly(a, logs) && WritesOnly(o, logs)
             && Touched(s.fs, mid, PathsOf(a), logs) && AllFit(mid, a) && Touched(mid, end, PathsOf(o), logs)
                && AllFit(end, o)
    ensures BundleFits(s.d, end)
  {
    forall r | r in Generate(s.d) ensures Fits(end, r) {
      RoundFits(s, mid, end, r);
    }
  }

  lemma RoundFits(s: Scene, mid: Tree, end: Tree, r: Resource)
    requires Acceptable(s) && s.d.present && Sited(s.d) && r in Generate(s.d)
    requires var a := Filter(PlanFor(s), AccessWrite); var o := Filter(PlanFor(s), OtherWrite);
    var logs := LogPaths(s.d);
             && WritesOnly(a, logs) && WritesOnly(o, logs)
             && Touched(s.fs, mid, PathsOf(a), logs) && AllFit(mid, a) && Touched(mid, end, PathsOf(o), logs)
                && AllFit(end, o)
    ensures Fits(end, r)
  {
    var a, o, logs := Filter(PlanFor(s), AccessWrite), Filter(PlanFor(s), OtherWrite), LogPaths(s.d);
    MentionedApart(s, r);
    UnwrittenFits(s, r);
    WriterOfPath(s, AccessWrite, r);
    WriterOfPath(s, OtherWrite, r);
    hide Acceptable, PlanFor, Generate, Filter, LogPaths, Fits, WritesOnly;
    if x :| x in PlanFor(s) && Write(x) && x.subject.r == r {
      InFilter(PlanFor(s), AccessWrite, x);
      InFilter(PlanFor(s), OtherWrite, x);
    }
    if r.path !in PathsOf(a) && Fits(s.fs, r) { FitsKept(s.fs, mid, r, PathsOf(a), logs); }
    if r.path !in PathsOf(o) && Fits(mid, r) { FitsKept(mid, end, r, PathsOf(o), logs); }
  }

  lemma FitsKept(fs: Tree, next: Tree, r: Resource, paths: set<Path>, logs: set<Path>)
    requires Touched(fs, next, paths, logs) && Fits(fs, r) && r.path !in paths && r.path !in logs
    ensures Fits(next, r)
  {
  }

  /** The item that writes a bundle resource's path is that resource's own. */
  lemma WriterOfPath(s: Scene, f: PlanItem -> bool, r: Resource)
    requires Acceptable(s) && s.d.present && Sited(s.d) && r in Generate(s.d) && forall x | f(x) :: Write(x)
    requires forall i | 0 <= i < |Filter(PlanFor(s), f)| :: Filter(PlanFor(s), f)[i].subject.OnResource?
    ensures r.path in PathsOf(Filter(PlanFor(s), f))
            <==> exists x | x in Filter(PlanFor(s), f) :: x.subject == OnResource(r)
  {
    var items := Filter(PlanFor(s), f);
    assert ValidDesired(s.d);
    hide Acceptable, PlanFor, Generate, Filter, ValidDesired, Sited;
    if r.path in PathsOf(items) {
      PathInItems(items, r.path);
      var x :| x in items && x.subject.OnResource? && x.subject.r.path == r.path;
      InFilter(PlanFor(s), f, x);
      WriteIsReady(s, x);
      PathOfOne(s.d, x.subject.r, r);
    }
    if x :| x in items && x.subject == OnResource(r) {
      InPaths(items, x);
    }
  }
}
