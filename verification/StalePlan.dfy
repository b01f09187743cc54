/** What a valid plan removes: exactly what earlier declarations left, and for an absent
    instance the whole bundle. */
module StalePlan {
  import opened Text
  import opened Host
  import opened Generation
  import opened Planning
  import opened Convergence
  import opened Selection
  import opened Evidence
  import opened Placement
  import opened Rollback
  import opened PlanContents
  import opened ResourceFiles
  import opened WritePlan
  import opened Namespace

  // ---- parents made on the way are nobody's resource ----

  lemma HomePrefix(d: Desired, rid: Rid)
    requires !rid.IsAccess()
    ensures var q := PathOf(d, rid); |d.home| < |q| && q[..|d.home|] == d.home
    ensures var q := PathOf(d, rid); q[|d.home|] == ".local" || q[|d.home|] == ".config"
  {
  }

  lemma DotNames(d: Desired, rid: Rid, k: nat)
    requires ValidDesired(d) && !rid.IsAccess() && |d.home| <= k < |PathOf(d, rid)|
    ensures PathOf(d, rid)[k] != ACCESS_MARK
  {
    PathEnds(d, rid);
    PlainLeaf(d, rid);
    assert d.iid[0] in d.iid;
    assert ACCESS_MARK[0] == '.' && ACCESS_MARK[1] == 'w' && |ACCESS_MARK| == 21;
    var c := PathOf(d, rid)[k];
    assert k == |PathOf(d, rid)| - 1 ==> c == Leaf(d, rid);
  }

  lemma SharedComponent(x: Path, q: Path, k: nat)
    requires k < |x|
    ensures Below(x, q) ==> k < |q| && q[k] == x[k]
  {
  }

  lemma InstalledOffTheWay(d: Desired, rid: Rid, s: Rid)
    requires ValidDesired(d) && (rid.IsGuard() || rid.IsDevelopment()) && !s.IsAccess()
    ensures !Below(PathOf(d, rid), PathOf(d, s))
  {
    SharedComponent(PathOf(d, rid), PathOf(d, s), |d.home|);
    SharedComponent(PathOf(d, rid), PathOf(d, s), |d.home| + 1);
  }

  lemma AccessLeaf(d: Desired, rid: Rid)
    requires rid.IsAccess() && Sound(rid)
    ensures Last(PathOf(d, rid)) != ".local" && Last(PathOf(d, rid)) != ".config"
  {
    PathEnds(d, rid);
    assert rid.Mount? ==> '.' !in rid.alias;
    assert '.' in ".local" && '.' in ".config";
  }

  lemma AccessOffTheWay(d: Desired, rid: Rid, s: Rid)
    requires ValidDesired(d) && rid.IsAccess() && Sound(rid) && !s.IsAccess() && |d.home| < |PathOf(d, rid)|
    ensures !Below(PathOf(d, rid), PathOf(d, s))
  {
    var x, q, w := PathOf(d, rid), PathOf(d, s), |d.workspace|;
    AccessShape(d, rid);
    AccessLeaf(d, rid);
    HomePrefix(d, s);
    if |d.home| <= w < |q| {
      DotNames(d, s, w);
    }
    hide PathOf, ValidDesired;
    SharedComponent(x, q, w);
    SharedComponent(x, q, |d.home|);
  }

  lemma PrefixPresent(fs: Tree, top: Path, x: Path)
    requires Rooted(fs) && top in fs && x != [] && (x == top || Below(x, top))
    ensures x in fs
  {
    if x != top { RootedAbove(fs, x, top); }
  }

  lemma BelowEither(x: Path, w: Path, q: Path)
    requires Below(x, q) && |w| < |q| && q[..|w|] == w
    ensures |x| > |w| || x == w || Below(x, w)
  {
    if |x| <= |w| {
      assert x == q[..|x|] == w[..|x|];
    }
  }

  /** No parent directory made for a bundle resource lands on an optional resource's path. */
  lemma WayIsFree(d: Desired, fs: Tree, rid: Rid, s: Rid)
    requires ValidDesired(d) && HostReady(d, fs) && rid.IsOptional() && Sound(rid) && Wanted(d, s) && Sound(s)
    requires PathOf(d, rid) !in fs && (s.IsAccess() ==> PathOf(d, rid) != PathOf(d, AccessRoot))
    ensures !Below(PathOf(d, rid), PathOf(d, s))
  {
    var x, q := PathOf(d, rid), PathOf(d, s);
    PathEnds(d, rid);
    if Below(x, q) {
      if s.IsAccess() {
        AccessShape(d, s);
        if |d.workspace| < |x| { AccessWay(d, s, x); }
        hide PathOf, Leaf, DirectoryName, ValidDesired;
        BelowEither(x, d.workspace, q);
        if |x| <= |d.workspace| { PrefixPresent(fs, d.workspace, x); }
      } else {
        HomePrefix(d, s);
        BelowEither(x, d.home, q);
        if |x| <= |d.home| { PrefixPresent(fs, d.home, x); }
        if rid.IsAccess() {
          if |d.home| < |x| { AccessOffTheWay(d, rid, s); }
        } else {
          InstalledOffTheWay(d, rid, s);
        }
      }
    }
  }

  lemma AccessWay(d: Desired, rid: Rid, x: Path)
    requires rid.IsAccess() && Below(x, PathOf(d, rid)) && |d.workspace| < |x|
    ensures x == PathOf(d, AccessRoot)
  {
    assert x == PathOf(d, rid)[..|x|];
  }

  // ---- after the removals of a plan for a present instance ----

  lemma RemovalIsStale(s: Scene, r: Resource)
    requires Acceptable(s) && s.d.present && r in RemovalsOf(PlanFor(s))
    ensures r in AllStale(s.d, s.fs, s.owned) && forall b | b in Generate(s.d) :: b.path != r.path
  {
    var x := PlanItem(Remove, OnResource(r));
    InRemovalsOf(PlanFor(s), r);
    InPlan(s, x);
    InUnitItems(s.d, Generate(s.d), s.units, Changed(s), x);
    PresentNeverRemoves(r, s.fs);
    StaleOfItem(s, x);
    hide Generate, PlanFor, AllListed, Obsoletes, UnitItems, StaleItemIn, GitItems;
    StaleShape(s, r);
  }

  lemma PresentNeverRemoves(r: Resource, fs: Tree)
    ensures !FileOperation(true, r, fs).Remove?
  {
  }

  lemma StaleOfItem(s: Scene, x: PlanItem)
    requires x.subject.OnResource?
    ensures StaleItemIn(s, x) ==> x.subject.r in AllStale(s.d, s.fs, s.owned)
    ensures x in TunnelItems(s.d, Generate(s.d), s.units, Changed(s)) ==> !x.subject.OnResource?
    ensures x in GitItems(s.repo, s.config, s.d) ==> !x.subject.OnResource?
  {
    hide Obsoletes, StaleOperations, Generate;
  }

  lemma StaleIsRemoved(s: Scene, r: Resource)
    requires Acceptable(s) && r in AllStale(s.d, s.fs, s.owned)
    ensures Observe(s.fs, r) == Absent || r in RemovalsOf(PlanFor(s))
  {
    hide RemovalsOf, PlanFor, Acceptable, Observe;
    if r in Obsoletes(GuardFamily, s.d, s.fs, s.owned) { ListedIsRemoved(s, GuardFamily, r); }
    else if r in Obsoletes(DevelopmentFamily, s.d, s.fs, s.owned) { ListedIsRemoved(s, DevelopmentFamily, r); }
    else { ListedIsRemoved(s, AccessFamily, r); }
  }

  lemma ListedIsRemoved(s: Scene, family: Family, r: Resource)
    requires Acceptable(s) && r in Obsoletes(family, s.d, s.fs, s.owned)
    ensures Observe(s.fs, r) == Absent || r in RemovalsOf(PlanFor(s))
  {
    StaleConflict(s, family, r);
    RemoveUnlessConflict(family, r, s.fs, s.units);
    InPlan(s, PlanItem(Remove, OnResource(r)));
    InRemovalsOf(PlanFor(s), r);
    hide Generate, PlanFor, AllListed, Obsoletes, Observe, StaleOperations, RemovalsOf, Acceptable;
  }

  lemma RemoveUnlessConflict(family: Family, r: Resource, fs: Tree, units: Units)
    requires Conflict !in StaleOperations(family, r, fs, units)
    ensures Observe(fs, r) == Absent || Remove in StaleOperations(family, r, fs, units)
  {
    hide Observe;
  }

  lemma StaleConflict(s: Scene, family: Family, r: Resource)
    requires Acceptable(s) && r in Obsoletes(family, s.d, s.fs, s.owned)
    ensures Conflict !in StaleOperations(family, r, s.fs, s.units)
  {
    var x := PlanItem(Conflict, OnResource(r));
    InPlan(s, x);
    NoConflictIn(PlanFor(s), OnResource(r));
    hide Generate, PlanFor, AllListed, Obsoletes, StaleOperations;
  }

  ghost predicate StaleGone(s: Scene, end: Tree) {
    && (forall r | r in AllStale(s.d, s.fs, s.owned) :: r.path !in end)
    && (forall rid: Rid | (rid.IsGuard() || rid.IsDevelopment()) && !Wanted(s.d, rid) && PathOf(s.d, rid) !in s.fs ::
       PathOf(s.d, rid) !in end)
  }

  lemma AbsentPath(fs: Tree, r: Resource)
    ensures Observe(fs, r) == Absent <==> r.path !in fs
  {
  }

  /** Guard and development resources that are gone are passed over from now on. */
  lemma InstalledScanSettles(family: Family, s: Scene, end: Tree, owned: seq<Entry>)
    requires !family.AccessFamily? && Acceptable(s) && StaleGone(s, end)
    requires owned == s.owned
    ensures StaleResources(family, s.d, Generate(s.d), end, owned) == Listed([])
  {
    InPlan(s, PlanItem(NoOp, OnEvidence));
    forall e | e in owned ensures ScanEntry(family, s.d, Generate(s.d), end, e).Skip? {
      InstalledEntrySettles(family, s, end, e);
    }
    hide ScanEntry, Generate;
    AllSkipped(family, s.d, Generate(s.d), end, owned);
  }

  lemma AcceptableIsValid(s: Scene)
    requires Acceptable(s)
    ensures ValidDesired(s.d)
  {
  }

  lemma InstalledEntrySettles(family: Family, s: Scene, end: Tree, e: Entry)
    requires !family.AccessFamily? && Acceptable(s) && StaleGone(s, end) && e in s.owned && AllListed(s)
    ensures ScanEntry(family, s.d, Generate(s.d), end, e).Skip?
  {
    hide Obsolete, StaleResources, Acceptable, Ids, ResourceOf, PathOf, Wanted, ValidDesired, ScanAccess, PlanFor;
    var bundle := Generate(s.d);
    assert ValidDesired(s.d) by { AcceptableIsValid(s); }
    ListedExactly(family, s.d, bundle, s.fs, s.owned);
    var before := ScanEntry(family, s.d, bundle, s.fs, e);
    if InFamily(family, e.id) && (forall r | r in bundle :: r.id != e.id) {
      NotInBundle(s.d, e.id);
      if before.Found? {
        FoundInstalled(s.d, bundle, s.fs, e);
        assert before.r in Obsoletes(family, s.d, s.fs, s.owned);
      }
    }
  }

  lemma AccessScanSettles(s: Scene, end: Tree)
    requires Acceptable(s) && StaleGone(s, end)
    ensures StaleSettled(AccessFamily, s.d, Generate(s.d), end, s.owned)
  {
    InPlan(s, PlanItem(NoOp, OnEvidence));
    AccessScanIgnoresTree(s.d, Generate(s.d), s.fs, end, s.owned);
  }

  lemma {:induction false} AccessScanIgnoresTree(d: Desired, bundle: seq<Resource>, a: Tree, b: Tree, owned: seq<Entry>)
    ensures StaleResources(AccessFamily, d, bundle, a, owned) == StaleResources(AccessFamily, d, bundle, b, owned)
  {
    if owned != [] {
      AccessScanIgnoresTree(d, bundle, a, b, owned[..|owned| - 1]);
      hide ScanAccess;
    }
  }

  lemma StaleSettles(s: Scene, end: Tree)
    requires Acceptable(s) && StaleGone(s, end)
    ensures StaleSettled(GuardFamily, s.d, Generate(s.d), end, s.owned)
    ensures StaleSettled(DevelopmentFamily, s.d, Generate(s.d), end, s.owned)
    ensures StaleSettled(AccessFamily, s.d, Generate(s.d), end, s.owned)
  {
    InstalledScanSettles(GuardFamily, s, end, s.owned);
    InstalledScanSettles(DevelopmentFamily, s, end, s.owned);
    AccessScanSettles(s, end);
  }

  // ---- after the removals of a plan for an absent instance ----

  lemma RemovalIsMentioned(s: Scene, r: Resource)
    requires Acceptable(s) && r in RemovalsOf(PlanFor(s))
    ensures Mentioned(s, r)
  {
    hide Generate, PlanFor, AllListed, Obsoletes, UnitItems, GitItems, RemovalsOf, FileOperation;
    var x := PlanItem(Remove, OnResource(r));
    InRemovalsOf(PlanFor(s), r);
    InPlan(s, x);
    StaleOfItem(s, x);
  }

  lemma BundleIsRemoved(s: Scene, r: Resource)
    requires Acceptable(s) && !s.d.present && r in Generate(s.d) && r.removeWhenAbsent
    ensures r.path !in s.fs || r in RemovalsOf(PlanFor(s))
  {
    hide Generate, PlanFor, AllListed, RemovalsOf, MarkerStatus;
    var x := FileItem(false, r, s.fs);
    InPlan(s, x);
    NoConflictIn(PlanFor(s), OnResource(r));
    InRemovalsOf(PlanFor(s), r);
    AbsentPath(s.fs, r);
  }

  lemma RemovedBundleIsGone(s: Scene, end: Tree)
    requires Acceptable(s) && !s.d.present && Sited(s.d)
    requires Dropped(s.fs, end, Targets(RemovalsOf(PlanFor(s))), LogPaths(s.d))
             && forall r | r in RemovalsOf(PlanFor(s)) ::
               r.path !in end
    ensures forall r | r in Generate(s.d) :: FileSettled(false, r, end)
    ensures StaleGone(s, end)
  {
    hide Generate, PlanFor, Acceptable, RemovalsOf, AllStale, LogPaths, Sited, Observe, PathOf, Wanted;
    forall r | r in Generate(s.d) ensures FileSettled(false, r, end) {
      MentionedApart(s, r);
      AbsentPath(end, r);
      if r.removeWhenAbsent { BundleIsRemoved(s, r); }
    }
    forall r | r in AllStale(s.d, s.fs, s.owned) ensures r.path !in end {
      StaleIsRemoved(s, r);
      AbsentPath(s.fs, r);
      MentionedApart(s, r);
    }
    forall rid: Rid | (rid.IsGuard() || rid.IsDevelopment()) && !Wanted(s.d, rid) && PathOf(s.d, rid) !in s.fs
      ensures PathOf(s.d, rid) !in end
    {
      HomeApart(s.d, rid);
    }
  }
}
