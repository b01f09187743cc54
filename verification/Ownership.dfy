/** Whose files an apply may touch: what it changes was absent or carried this instance's mark
    when planned, and other instances' files and units stay as they are. */
module Ownership {
  import opened Text
  import opened Host
  import opened Generation
  import opened Planning
  import opened Convergence
  import opened Selection
  import opened Evidence
  import opened Placement
  import opened Rollback
  import opened PlanContents
  import opened ResourceFiles
  import opened WritePlan
  import opened StalePlan
  import opened Namespace
  import opened Footprint
  import opened HostApply
  import opened Systemd
  import opened UnitActs

  /** The evidence of ownership: the token occurs in the marker, or in the file itself. */
  predicate Bears(fs: Tree, r: Resource, token: string) {
    var evidence := if r.marker.Some? then r.marker.value else r.path;
    evidence in fs && fs[evidence].File? && Contains(Universal(fs[evidence].text), token)
  }

  lemma ObservedBears(fs: Tree, r: Resource, token: string)
    requires r.token == Some(token) && (r.kind.Directory? ==> r.marker.Some?)
    requires Observe(fs, r) == Exact || Observe(fs, r) == Different
    ensures Bears(fs, r, token)
  {
    hide Contains, Universal;
  }

  lemma MentionedToken(s: Scene, r: Resource)
    requires Acceptable(s) && Mentioned(s, r) && (r in Generate(s.d) ==> !r.id.IsShared())
    ensures r.token == Some(OwnerToken(s.d.iid)) && (r.kind.Directory? ==> r.marker.Some?)
  {
    hide Generate, PlanFor, Acceptable, AllStale, Ids, Wanted, PathOf;
    if r in Generate(s.d) {
      BundleMember(s.d, r);
      BundleToken(s.d, r.id);
    } else {
      StaleToken(s, r);
    }
  }

  lemma BundleToken(d: Desired, rid: Rid)
    requires !rid.IsShared()
    ensures ResourceOf(d, rid).token == Some(OwnerToken(d.iid))
    ensures (ResourceOf(d, rid).kind.Directory? ==> ResourceOf(d, rid).marker.Some?)
  {
  }

  lemma StaleToken(s: Scene, r: Resource)
    requires Acceptable(s) && r in AllStale(s.d, s.fs, s.owned)
    ensures r.token == Some(OwnerToken(s.d.iid)) && (r.kind.Directory? ==> r.marker.Some?)
  {
    hide Generate, PlanFor, ScanAccess, ScanInstalled, PlanOf, ValidDesired;
    var bundle := Generate(s.d);
    InPlan(s, PlanItem(NoOp, OnEvidence));
    var family := if r in Obsoletes(GuardFamily, s.d, s.fs, s.owned) then GuardFamily
                  else if r in Obsoletes(DevelopmentFamily, s.d, s.fs, s.owned) then DevelopmentFamily
                    else AccessFamily;
    ListedExactly(family, s.d, bundle, s.fs, s.owned);
    var e :| e in s.owned && ScanEntry(family, s.d, bundle, s.fs, e) == Found(r);
    FoundToken(s.d, bundle, s.fs, e);
  }

  lemma FoundToken(d: Desired, bundle: seq<Resource>, fs: Tree, e: Entry)
    ensures var scan := ScanAccess(d, bundle, e);
            scan.Found? ==> scan.r.token == Some(OwnerToken(d.iid)) && (scan.r.kind.Directory? ==> scan.r.marker.Some?)
    ensures var scan := ScanInstalled(d, bundle, fs, e);
            scan.Found? ==> scan.r.token == Some(OwnerToken(d.iid)) && !scan.r.kind.Directory?
  {
  }

  /** Every path a valid plan creates, rewrites or removes was free when planned, or bore this
      instance's token; the two shared directories are only ever made or given their mode. */
  lemma PlannedAreOurs(s: Scene, x: PlanItem)
    requires Acceptable(s) && x in PlanFor(s) && x.subject.OnResource? && Mutates(x.op)
    ensures var r := x.subject.r;
            || r.path !in s.fs
            || Bears(s.fs, r, OwnerToken(s.d.iid))
            || (r.id.IsShared() && x.op.Update? && s.fs[r.path].Dir?)
  {
    hide Acceptable, PlanFor, Generate, Bears, Observe, ResourceOf, PathOf, FileOperation, Wanted, Ids, AllStale;
    var r := x.subject.r;
    MutatingItem(s, x);
    if r in Generate(s.d) && r.id.IsShared() {
      BundleMember(s.d, r);
      if r.path in s.fs { SharedOnly(s.d, s.fs, r.id); }
    } else {
      MentionedToken(s, r);
      if r.path in s.fs { ObservedBears(s.fs, r, OwnerToken(s.d.iid)); }
    }
  }

  lemma SharedOnly(d: Desired, fs: Tree, rid: Rid)
    requires rid.IsShared() && PathOf(d, rid) in fs
    ensures var op := FileOperation(d.present, ResourceOf(d, rid), fs); Mutates(op) ==>
              op.Update? && fs[PathOf(d, rid)].Dir?
  {
  }

  /** A change to a resource is planned for what was observed in place, as declared or not. */
  lemma MutatingItem(s: Scene, x: PlanItem)
    requires Acceptable(s) && x in PlanFor(s) && x.subject.OnResource? && Mutates(x.op)
    ensures Mentioned(s, x.subject.r)
    ensures x.subject.r in Generate(s.d) ==> x.op == FileOperation(s.d.present, x.subject.r, s.fs)
    ensures x.subject.r.path in s.fs ==> Observe(s.fs, x.subject.r) == Exact || Observe(s.fs, x.subject.r) == Different
  {
    InPlan(s, x);
    InUnitItems(s.d, Generate(s.d), s.units, Changed(s), x);
    StaleOfItem(s, x);
    AbsentPath(s.fs, x.subject.r);
    if FileItemIn(s, x) {
      hide Generate, PlanFor, Acceptable, Observe, AllStale;
    } else {
      assert StaleItemIn(s, x);
      StaleMutates(s, x);
    }
  }

  lemma StaleMutates(s: Scene, x: PlanItem)
    requires Acceptable(s) && StaleItemIn(s, x) && x.subject.OnResource? && Mutates(x.op)
    ensures x.subject.r !in Generate(s.d)
    ensures x.subject.r.path in s.fs ==> Observe(s.fs, x.subject.r) == Exact || Observe(s.fs, x.subject.r) == Different
  {
    hide Generate, PlanFor, Acceptable, Observe, Obsolete, Obsoletes, StaleItemIn, StaleOperations;
    StaleOfItem(s, x);
    StaleObserved(s, x);
    StaleShape(s, x.subject.r);
    var f :| Obsolete(f, s.d, Generate(s.d), s.owned, x.subject.r);
    StaleNotInBundle(f, s.d, Generate(s.d), s.owned, x.subject.r);
  }

  lemma StaleObserved(s: Scene, x: PlanItem)
    requires StaleItemIn(s, x) && x.subject.OnResource? && Mutates(x.op)
    ensures x.subject.r.path in s.fs ==> Observe(s.fs, x.subject.r) == Exact || Observe(s.fs, x.subject.r) == Different
  {
    hide Obsoletes, Observe, StaleOperations;
    AbsentPath(s.fs, x.subject.r);
    StaleOperationMutates(GuardFamily, x.subject.r, s.fs, s.units, x.op);
    StaleOperationMutates(DevelopmentFamily, x.subject.r, s.fs, s.units, x.op);
    StaleOperationMutates(AccessFamily, x.subject.r, s.fs, s.units, x.op);
  }

  lemma StaleOperationMutates(family: Family, r: Resource, fs: Tree, units: Units, op: Operation)
    requires Mutates(op)
    ensures op in StaleOperations(family, r, fs, units) ==> Observe(fs, r) == Exact || Observe(fs, r) == Different
  {
    hide Observe;
  }

  // ---- other instances ----

  /** Another instance: different in id, profile and workspace. */
  predicate Stranger(a: Desired, b: Desired) {
    ValidDesired(a) && ValidDesired(b) && a.iid != b.iid && a.profile != b.profile && a.workspace != b.workspace
  }

  lemma SoundIsPlausible(rid: Rid)
    requires Sound(rid)
    ensures Plausible(rid)
  {
  }

  lemma PlannedIsNotTheirs(s: Scene, other: Desired, rid: Rid)
    requires Acceptable(s) && Stranger(s.d, other) && Wanted(other, rid) && !rid.IsShared()
    ensures PathOf(other, rid) !in PlannedPaths(s)
  {
    WantedIsGenerated(other, rid);
    GeneratedIsPlausible(other, rid);
    hide Acceptable, PlanFor, Generate, PathOf, ValidDesired, Plausible, Sound, Wanted, Ids;
    forall x | x in PlanFor(s) && x.subject.OnResource? && Mutates(x.op)
      ensures x.subject.r.path != PathOf(other, rid)
    {
      MutatingItem(s, x);
      MentionedIsSound(s, x.subject.r);
      SoundIsPlausible(x.subject.r.id);
      AcceptableIsValid(s);
      if x.subject.r.path == PathOf(other, rid) { PathsApart(s.d, x.subject.r.id, other, rid); }
    }
  }

  /** No resource of any instance is spelled like one of our logs. */
  lemma LogIsNoResource(d: Desired, other: Desired, rid: Rid, l: Path)
    requires ValidDesired(other) && Plausible(rid) && l in LogPaths(d)
    ensures l != PathOf(other, rid)
  {
    LogShape(d, l);
    LogName(Last(l));
    LogEnd(Last(l));
    PathEnds(other, rid);
    LeafEnd(other, rid);
    hide PathOf, Leaf;
  }

  lemma LogEnd(name: string)
    requires name in RUNTIME_STATE_FILES
    ensures name[|name| - 1] == 'g' || name[|name| - 1] == 'n'
  {
  }

  /** A resource's last component has no dot, begins with one, or ends unlike a log. */
  lemma LeafEnd(d: Desired, rid: Rid)
    requires ValidDesired(d) && Plausible(rid)
    ensures var leaf := Leaf(d, rid);
            leaf != "" && ('.' !in leaf || leaf[0] == '.' || leaf[|leaf| - 1] in {'l', 'e', 'r'})
  {
    PlainLeaf(d, rid);
    if IsUnit(rid) {
      MarkOfUnit(d.iid, rid);
    } else if rid.Profile? {
      assert Leaf(d, rid)[|Leaf(d, rid)| - 1] == ".yaml"[4];
    } else {
      assert '.' !in d.iid && '.' !in "-mcp" && '.' !in "-git-credential-github" && '.' !in "tunnel-profiles"
        && '.' !in "github";
    }
  }

  /** Whatever point an execution reached, the files of another instance are as they were. */
  lemma OthersUntouched(s: Scene, fs: Tree, other: Desired, rid: Rid)
    requires Acceptable(s) && Confined(s, fs) && Stranger(s.d, other) && Wanted(other, rid) && !rid.IsShared()
    requires PathOf(other, rid) in s.fs
    ensures PathOf(other, rid) in fs && fs[PathOf(other, rid)] == s.fs[PathOf(other, rid)]
  {
    TheirsApart(s, other, rid);
  }

  /** And after a failed apply was undone they still are. */
  lemma OthersUntouchedByUndo(s: Scene, fs: Tree, left: set<Path>, other: Desired, rid: Rid)
    requires Acceptable(s) && RolledBack(s, fs, left) && Stranger(s.d, other) && Wanted(other, rid) && !rid.IsShared()
    requires PathOf(other, rid) in s.fs
    ensures PathOf(other, rid) in fs && fs[PathOf(other, rid)] == s.fs[PathOf(other, rid)]
  {
    TheirsApart(s, other, rid);
  }

  lemma TheirsApart(s: Scene, other: Desired, rid: Rid)
    requires Acceptable(s) && Stranger(s.d, other) && Wanted(other, rid) && !rid.IsShared()
    ensures PathOf(other, rid) !in PlannedPaths(s) && PathOf(other, rid) !in LogPaths(s.d)
  {
    PlannedIsNotTheirs(s, other, rid);
    WantedIsGenerated(other, rid);
    GeneratedIsPlausible(other, rid);
    hide Acceptable, PlannedPaths, PathOf, LogPaths, ValidDesired;
    if PathOf(other, rid) in LogPaths(s.d) { LogIsNoResource(s.d, other, rid, PathOf(other, rid)); }
  }

  /** Nor is a unit of another instance stopped, started, enabled or disabled. */
  lemma OtherUnitsUntouched(s: Scene, units: Units, other: Desired, rid: Rid)
    requires Acceptable(s) && UnitsConfined(s, units) && s.d.iid != other.iid && IsUnit(rid)
    ensures SameUnit(s.units, units, UnitName(other.iid, rid))
  {
    var u := UnitName(other.iid, rid);
    hide Acceptable, UnitName, Mentioned;
    if PlannedUnit(s, u) {
      var r :| Mentioned(s, r) && r.unitName == Some(u);
      NameShape(s, r);
      UnitNamesApart(s.d.iid, r.id, other.iid, rid);
    }
  }
}
