/** Over whole runs of applies: the access, guard and development resources on disk are exactly
    those of the last declaration that was applied with success. */
module Orphans {
  import opened Text
  import opened Host
  import opened Generation
  import opened Planning
  import opened Convergence
  import opened Selection
  import opened Evidence
  import opened Placement
  import opened Rollback
  import opened PlanContents
  import opened ResourceFiles
  import opened WritePlan
  import opened StalePlan
  import opened Namespace
  import opened Footprint
  import opened HostApply
  import opened Ownership

  /** One instance, in one place. */
  predicate SameInstance(a: Desired, b: Desired) { a.iid == b.iid && a.home == b.home && a.workspace == b.workspace }

  predicate Optional(rid: Rid) { rid.IsOptional() && Sound(rid) }

  lemma OptionalPathSame(a: Desired, b: Desired, rid: Rid)
    requires SameInstance(a, b) && rid.IsOptional()
    ensures PathOf(a, rid) == PathOf(b, rid)
  {
  }

  /** Whether the declaration keeps an optional resource at this path. */
  ghost predicate Keeps(last: Option<Desired>, p: Path) {
    last.Some? && last.value.present && p in BundlePaths(last.value)
  }

  /** The optional resources on disk are those of the last declaration, and it is on record. */
  ghost predicate Exactly(last: Option<Desired>, d: Desired, fs: Tree, owned: seq<Entry>) {
    && (last.Some? ==> ValidDesired(last.value) && SameInstance(last.value, d))
    && owned == (if last.Some? then RecordOf(last.value) else [])
    && forall rid | Optional(rid) :: PathOf(d, rid) in fs <==> Keeps(last, PathOf(d, rid))
  }

  // ---- what appears ----

  /** A resource that is planned to be removed is there. */
  lemma RemovedWasThere(s: Scene, x: PlanItem)
    requires Acceptable(s) && x in PlanFor(s) && x.subject.OnResource? && Mutates(x.op) && x.subject.r.path !in s.fs
    ensures s.d.present && x.subject.r in Generate(s.d)
  {
    hide Generate, PlanFor, Acceptable, Observe, AllStale;
    MutatingItem(s, x);
    AbsentPath(s.fs, x.subject.r);
    if x.subject.r in Generate(s.d) {
      AbsentFile(s.d.present, x.subject.r, s.fs);
    } else {
      AbsentStale(s, x);
    }
  }

  lemma AbsentFile(present: bool, r: Resource, fs: Tree)
    requires Observe(fs, r) == Absent
    ensures Mutates(FileOperation(present, r, fs)) ==> present
  {
  }

  lemma AbsentStale(s: Scene, x: PlanItem)
    requires Acceptable(s) && x in PlanFor(s) && x.subject.OnResource? && Mutates(x.op)
    requires Observe(s.fs, x.subject.r) == Absent
    ensures x.subject.r in Generate(s.d)
  {
    InPlan(s, x);
    InUnitItems(s.d, Generate(s.d), s.units, Changed(s), x);
    StaleOfItem(s, x);
    hide Generate, PlanFor, Acceptable, Observe, Obsoletes, StaleOperations, StaleItemIn;
    if StaleItemIn(s, x) { AbsentMeansNothing(s, x); }
  }

  lemma AbsentMeansNothing(s: Scene, x: PlanItem)
    requires StaleItemIn(s, x) && x.subject.OnResource? && Observe(s.fs, x.subject.r) == Absent
    ensures !Mutates(x.op)
  {
    hide Obsoletes, Observe;
  }

  /** A planned path is there, or of the bundle. */
  lemma PlannedPath(s: Scene, q: Path)
    requires Acceptable(s) && q in PlannedPaths(s)
    ensures q in s.fs || (s.d.present && q in BundlePaths(s.d))
  {
    hide Generate, PlanFor, Acceptable;
    var x :| x in PlanFor(s) && x.subject.OnResource? && Mutates(x.op) && x.subject.r.path == q;
    if q !in s.fs { RemovedWasThere(s, x); }
  }

  ghost predicate Placeable(d: Desired, fs: Tree) { if d.present then HostReady(d, fs) else Sited(d) && Rooted(fs) }

  lemma PlaceableFacts(d: Desired, fs: Tree)
    requires Placeable(d, fs)
    ensures Sited(d) && Rooted(fs) && (d.present ==> HostReady(d, fs))
  {
  }

  /** Whatever an execution did, no optional resource appeared that it did not declare. */
  lemma OptionalAppears(s: Scene, fs: Tree, rid: Rid)
    requires Acceptable(s) && Placeable(s.d, s.fs) && Confined(s, fs) && Optional(rid)
    requires PathOf(s.d, rid) in fs && PathOf(s.d, rid) !in s.fs
    ensures s.d.present && PathOf(s.d, rid) in BundlePaths(s.d)
  {
    var p := PathOf(s.d, rid);
    PlaceableFacts(s.d, s.fs);
    AcceptableIsValid(s);
    ResourceApart(s.d, rid);
    hide Acceptable, Placeable, PlannedPaths, BundlePaths, LogPaths, PathOf, HostReady, Sited, ValidDesired;
    if p in PlannedPaths(s) {
      PlannedPath(s, p);
    } else {
      var q :| q in PlannedPaths(s) && Below(p, q);
      PlannedPath(s, q);
      if q in s.fs {
        PathEnds(s.d, rid);
        RootedAbove(s.fs, p, q);
      } else {
        BundleAbove(s, rid, q);
      }
    }
  }

  lemma BundleAbove(s: Scene, rid: Rid, q: Path)
    requires Acceptable(s) && HostReady(s.d, s.fs) && q in BundlePaths(s.d) && Optional(rid)
    requires PathOf(s.d, rid) !in s.fs && Below(PathOf(s.d, rid), q)
    ensures PathOf(s.d, rid) in BundlePaths(s.d)
  {
    if PathOf(s.d, rid) !in BundlePaths(s.d) { BundleWayIsFree(s, rid, q); }
  }

  // ---- what goes ----

  lemma KeptIdentity(last: Desired, rid: Rid) returns (kept: Rid)
    requires ValidDesired(last) && Optional(rid) && PathOf(last, rid) in BundlePaths(last)
    ensures Wanted(last, kept) && kept.IsOptional() && PathOf(last, kept) == PathOf(last, rid) && Optional(kept)
  {
    kept := InBundle(last, PathOf(last, rid));
    SoundIsPlausible(rid);
    PathsApart(last, kept, last, rid);
  }

  /** What the last declaration left and this one does not keep is found by the stale scans. */
  lemma LeftIsStale(s: Scene, last: Desired, rid: Rid)
    requires Acceptable(s) && ValidDesired(last) && last.present && SameInstance(last, s.d) && s.owned == RecordOf(last)
    requires rid.IsOptional() && Wanted(last, rid) && PathOf(s.d, rid) in s.fs && PathOf(s.d, rid) !in BundlePaths(s.d)
    ensures ResourceOf(last, rid) in AllStale(s.d, s.fs, s.owned)
  {
    hide PlanFor, ScanAccess, ScanInstalled, StaleResources, Ids, ResourceOf, ValidDesired;
    var bundle, e := Generate(s.d), EntryOf(ResourceOf(last, rid));
    InPlan(s, PlanItem(NoOp, OnEvidence));
    AcceptableIsValid(s);
    RecordHas(last, rid);
    NotKept(s.d, rid);
    var family := if rid.IsAccess() then AccessFamily else if rid.IsGuard() then GuardFamily else DevelopmentFamily;
    ListedExactly(family, s.d, bundle, s.fs, s.owned);
    if rid.IsAccess() {
      OptionalPathSame(last, s.d, rid);
      AccessIsFound(s.d, last, bundle, rid);
    } else {
      OptionalPathSame(last, s.d, rid);
      InstalledRebuilt(last, s.d, bundle, s.fs, rid);
    }
    ResourceShape(last, rid);
    assert ScanEntry(family, s.d, bundle, s.fs, e) == Found(ResourceOf(last, rid));
  }

  lemma RecordHas(last: Desired, rid: Rid)
    requires last.present && Wanted(last, rid)
    ensures EntryOf(ResourceOf(last, rid)) in RecordOf(last)
  {
    hide ResourceOf;
    WantedIsGenerated(last, rid);
    var i :| 0 <= i < |Ids(last)| && Ids(last)[i] == rid;
    assert RecordOf(last)[i] == EntryOf(Generate(last)[i]);
  }

  lemma NotKept(d: Desired, rid: Rid)
    requires PathOf(d, rid) !in BundlePaths(d)
    ensures forall b | b in Generate(d) :: b.id != rid && b.path != PathOf(d, rid)
  {
    forall b | b in Generate(d) ensures b.id != rid && b.path != PathOf(d, rid) { BundleMember(d, b); }
  }

  lemma AccessIsFound(d: Desired, last: Desired, bundle: seq<Resource>, rid: Rid)
    requires rid.IsAccess() && Wanted(last, rid) && ValidDesired(last) && SameInstance(last, d)
    requires forall b | b in bundle :: b.id != rid && b.path != PathOf(d, rid)
    ensures ScanAccess(d, bundle, EntryOf(ResourceOf(last, rid))) == Found(ResourceOf(last, rid))
  {
    AccessRebuilt(last, d, rid);
    ResourceShape(last, rid);
    OptionalPathSame(last, d, rid);
    hide ResourceOf, ReconstructAccess, Wanted, ValidDesired;
  }

  // ---- one apply ----

  /** After a success nothing optional is left but what was declared. */
  lemma SuccessLeavesDeclared(s: Scene, last: Option<Desired>, t: Scene, rid: Rid)
    requires Exactly(last, s.d, s.fs, s.owned) && Placeable(s.d, s.fs) && Transition(s, Succeeded, t) && Optional(rid)
    requires PathOf(s.d, rid) in t.fs
    ensures s.d.present && PathOf(s.d, rid) in BundlePaths(s.d)
  {
    hide Acceptable, Placeable, PlanFor, BundlePaths, PathOf, Confined, UnitsConfined, AllStale, Wanted, ResourceOf;
    hide RecordOf, AllNoop, ValidDesired;
    var p := PathOf(s.d, rid);
    if p !in s.fs {
      OptionalAppears(s, t.fs, rid);
    } else if p !in BundlePaths(s.d) {
      OptionalPathSame(last.value, s.d, rid);
      var kept := KeptIdentity(last.value, rid);
      OptionalPathSame(last.value, s.d, kept);
      LeftIsStale(s, last.value, kept);
      ResourceShape(last.value, kept);
    } else {
      SuccessSettlesDeclared(s, t, rid);
    }
  }

  lemma ConvergedFile(t: Scene, r: Resource)
    requires AllNoop(PlanFor(t)) && r in Generate(t.d)
    ensures FileSettled(t.d.present, r, t.fs)
  {
    hide AllNoop, PlanOf, Settled, FileSettled, Generate;
    NothingToDo(t.repo, t.d, t.fs, t.units, t.config, t.owned);
    SettledFile(t, r);
  }

  lemma SettledFile(t: Scene, r: Resource)
    requires Settled(t.repo, t.d, t.fs, t.units, t.config, t.owned) && r in Generate(t.d)
    ensures FileSettled(t.d.present, r, t.fs)
  {
    hide FileSettled, Generate, UnitSettled, StaleSettled, GitSettled;
  }

  lemma SuccessMeans(s: Scene, t: Scene)
    requires Transition(s, Succeeded, t)
    ensures t.d == s.d && AllNoop(PlanFor(t)) && ValidDesired(s.d) && t.owned == RecordOf(s.d)
  {
    hide AllNoop, PlanOf, Confined, UnitsConfined, StaleGone, RecordOf;
    AcceptableIsValid(s);
  }

  lemma OptionalFile(d: Desired, rid: Rid)
    requires rid.IsOptional() && Wanted(d, rid)
    ensures ResourceOf(d, rid) in Generate(d) && ResourceOf(d, rid).removeWhenAbsent
    ensures ResourceOf(d, rid).path == PathOf(d, rid)
  {
    ResourceInBundle(d, rid);
  }

  /** After a success an optional resource of the bundle is there exactly when wanted present. */
  lemma SuccessSettlesDeclared(s: Scene, t: Scene, rid: Rid)
    requires Transition(s, Succeeded, t) && Optional(rid) && PathOf(s.d, rid) in BundlePaths(s.d)
    ensures PathOf(s.d, rid) in t.fs <==> s.d.present
  {
    hide Transition, PlanFor, Generate, BundlePaths, Observe, RecordOf, ResourceOf, PathOf, Wanted, Optional;
    SuccessMeans(s, t);
    var kept := KeptIdentity(s.d, rid);
    OptionalFile(s.d, kept);
    ConvergedFile(t, ResourceOf(s.d, kept));
    AbsentPath(t.fs, ResourceOf(s.d, kept));
  }

  lemma SuccessIsExact(s: Scene, last: Option<Desired>, t: Scene)
    requires Exactly(last, s.d, s.fs, s.owned) && Placeable(s.d, s.fs) && Transition(s, Succeeded, t)
    ensures Exactly(Some(s.d), s.d, t.fs, t.owned)
  {
    SuccessMeans(s, t);
    hide Transition, Placeable, BundlePaths, PathOf, RecordOf, ValidDesired, Optional, PlanFor;
    forall rid | Optional(rid) ensures PathOf(s.d, rid) in t.fs <==> Keeps(Some(s.d), PathOf(s.d, rid)) {
      if PathOf(s.d, rid) in t.fs { SuccessLeavesDeclared(s, last, t, rid); }
      if PathOf(s.d, rid) in BundlePaths(s.d) { SuccessSettlesDeclared(s, t, rid); }
    }
  }

  lemma StateIsNotOptional(d: Desired, rid: Rid)
    requires ValidDesired(d) && Optional(rid)
    ensures PathOf(d, rid) != StatePath(d)
  {
    SoundIsPlausible(rid);
    if PathOf(d, rid) == StatePath(d) { PathsApart(d, StateDir, d, rid); }
  }

  lemma UndoneMeans(s: Scene, t: Scene, reason: Reason)
    requires Transition(s, Failed(reason, Undone(false)), t)
    ensures Acceptable(s) && ValidDesired(s.d) && t.d == s.d && (!reason.AfterRecord? ==> t.owned == s.owned)
    ensures Back(s.fs, t.fs, LogPaths(s.d)) && RolledBack(s, t.fs, {StatePath(s.d)})
  {
    AcceptableIsValid(s);
    hide Acceptable, PlannedPaths, BundlePaths, LogPaths, ValidDesired, UnitsConfined, RecordOf, Live, Back;
  }

  /** After a failed apply was undone, and no removal failed, the optional resources are those
      there were before. */
  lemma UndoneSame(s: Scene, t: Scene, reason: Reason, rid: Rid)
    requires Transition(s, Failed(reason, Undone(false)), t) && Placeable(s.d, s.fs) && Optional(rid)
    ensures PathOf(s.d, rid) in t.fs <==> PathOf(s.d, rid) in s.fs
  {
    hide Transition, Acceptable, Placeable, PlannedPaths, BundlePaths, LogPaths, PathOf, HostReady, Sited, ValidDesired;
    hide StatePath;
    var p := PathOf(s.d, rid);
    UndoneMeans(s, t, reason);
    PlaceableFacts(s.d, s.fs);
    ResourceApart(s.d, rid);
    StateIsNotOptional(s.d, rid);
    if p in t.fs && p !in s.fs {
      var q :| q in BundlePaths(s.d) && Below(p, q);
      BundleAbove(s, rid, q);
    }
  }

  /** An apply that succeeds, is refused, or fails and is undone with no removal failing; not one
      that fails after its record was written. */
  predicate Tame(end: Ending) { end.Failed? ==> end.undoing == Undone(false) && !end.reason.AfterRecord? }

  function LastAfter(last: Option<Desired>, s: Scene,
      end: Ending): Option<Desired> { if end.Succeeded? then Some(s.d) else last }

  lemma ApplyKeepsExact(s: Scene, last: Option<Desired>, end: Ending, t: Scene)
    requires Exactly(last, s.d, s.fs, s.owned) && Placeable(s.d, s.fs) && Transition(s, end, t) && Tame(end)
    ensures Exactly(LastAfter(last, s, end), s.d, t.fs, t.owned)
  {
    hide Placeable, PathOf, RecordOf, ValidDesired, Optional, Keeps, Acceptable, Confined, UnitsConfined, StaleGone;
    hide AllNoop, Back, RolledBack;
    match end {
      case Refused =>
      case Succeeded => SuccessIsExact(s, last, t);
      case Failed(reason, undoing) =>
        UndoneMeans(s, t, reason);
        forall rid | Optional(rid)
          ensures PathOf(s.d, rid) in t.fs <==> PathOf(s.d, rid) in s.fs
        { UndoneSame(s, t, reason, rid); }
    }
  }

  // ---- runs ----

  datatype Round = Round(before: Scene, end: Ending, after: Scene)

  /** Between applies nothing else touches the optional paths or the record. */
  ghost predicate LeftAlone(d: Desired, fs: Tree, owned: seq<Entry>, next: Scene) {
    next.owned == owned && forall rid | Optional(rid) :: PathOf(d, rid) in next.fs <==> PathOf(d, rid) in fs
  }

  /** A run of applies of one instance, from a place where it never was. */
  ghost predicate IsRun(d: Desired, rounds: seq<Round>) {
    && (forall r | r in rounds ::
          && SameInstance(r.before.d, d) && Placeable(r.before.d, r.before.fs)
          && Transition(r.before, r.end, r.after) && Tame(r.end))
    && (rounds != [] ==> Exactly(None, d, rounds[0].before.fs, rounds[0].before.owned))
    && (forall i | 0 < i < |rounds| ::
       LeftAlone(d, rounds[i - 1].after.fs, rounds[i - 1].after.owned, rounds[i].before))
  }

  function LastDeclared(rounds: seq<Round>): Option<Desired> {
    if rounds == [] then None
    else LastAfter(LastDeclared(rounds[..|rounds| - 1]), rounds[|rounds| - 1].before, rounds[|rounds| - 1].end)
  }

  lemma ExactlySame(last: Option<Desired>, a: Desired, b: Desired, fs: Tree, owned: seq<Entry>)
    requires SameInstance(a, b) && Exactly(last, a, fs, owned)
    ensures Exactly(last, b, fs, owned)
  {
    hide BundlePaths, RecordOf, ValidDesired;
    forall rid | Optional(rid)
      ensures PathOf(b, rid) in fs <==> Keeps(last, PathOf(b, rid))
    { OptionalPathSame(a, b, rid); }
  }

  lemma LeftAloneExactly(last: Option<Desired>, d: Desired, fs: Tree, owned: seq<Entry>, next: Scene)
    requires Exactly(last, d, fs, owned) && LeftAlone(d, fs, owned, next)
    ensures Exactly(last, d, next.fs, next.owned)
  {
    hide PathOf, Optional, Keeps, RecordOf, ValidDesired;
  }

  /** Over every run of applies that succeed, are refused, or are undone, the optional resources
      on disk are exactly those of the last successful declaration. */
  lemma {:induction false} NoOrphans(d: Desired, rounds: seq<Round>)
    requires IsRun(d, rounds) && rounds != []
    ensures Exactly(LastDeclared(rounds), d, rounds[|rounds| - 1].after.fs, rounds[|rounds| - 1].after.owned)
    decreases |rounds|
  {
    hide Exactly, Transition, Placeable, LeftAlone, Tame, SameInstance;
    var r, earlier := rounds[|rounds| - 1], rounds[..|rounds| - 1];
    assert r in rounds;
    if earlier != [] {
      assert forall x | x in earlier :: x in rounds;
      NoOrphans(d, earlier);
      LeftAloneExactly(LastDeclared(earlier), d, rounds[|rounds| - 2].after.fs, rounds[|rounds| - 2].after.owned,
        r.before);
    }
    SameBothWays(d, r.before.d);
    ExactlySame(LastDeclared(earlier), d, r.before.d, r.before.fs, r.before.owned);
    ApplyKeepsExact(r.before, LastDeclared(earlier), r.end, r.after);
    ExactlySame(LastDeclared(rounds), r.before.d, d, r.after.fs, r.after.owned);
  }

  lemma SameBothWays(a: Desired, b: Desired)
    requires SameInstance(b, a)
    ensures SameInstance(a, b)
  {
  }

  /** Where the guarantee ends: a failure after the record was written undoes the files but not the
      record. The optional resources on disk are those of the new record exactly when the
      declaration kept and added the same ones as the last. */
  lemma LateFailureExactly(s: Scene, last: Option<Desired>, t: Scene)
    requires Exactly(last, s.d, s.fs, s.owned) && Placeable(s.d, s.fs)
    requires Transition(s, Failed(AfterRecord, Undone(false)), t)
    ensures Exactly(Some(s.d), s.d, t.fs, t.owned)
            <==> forall rid | Optional(rid) :: Keeps(last, PathOf(s.d, rid)) <==> Keeps(Some(s.d), PathOf(s.d, rid))
  {
    FailureMeans(s, t);
    hide Transition, Placeable, PathOf, RecordOf, ValidDesired, Optional, Keeps;
    forall rid | Optional(rid)
      ensures PathOf(s.d, rid) in t.fs <==> PathOf(s.d, rid) in s.fs
    { UndoneSame(s, t, AfterRecord, rid); }
  }

  lemma FailureMeans(s: Scene, t: Scene)
    requires Transition(s, Failed(AfterRecord, Undone(false)), t)
    ensures ValidDesired(s.d) && t.d == s.d && t.owned == RecordOf(s.d)
  {
    AcceptableIsValid(s);
    hide RecordOf;
  }

  /** And what it dropped is no longer looked for. */
  lemma LateFailureOrphans(s: Scene, t: Scene, rid: Rid)
    requires Transition(s, Failed(AfterRecord, Undone(false)), t) && Placeable(s.d, s.fs) && Optional(rid)
    requires PathOf(s.d, rid) in s.fs && PathOf(s.d, rid) !in BundlePaths(s.d)
    ensures PathOf(s.d, rid) in t.fs
    ensures AllStale(t.d, t.fs, t.owned) == [] && forall b | b in Generate(t.d) :: b.path != PathOf(s.d, rid)
  {
    AcceptableIsValid(s);
    UndoneSame(s, t, AfterRecord, rid);
    NotKept(s.d, rid);
    hide Acceptable, Placeable, BundlePaths, PathOf, Generate, ValidDesired, StaleResources, UnitsConfined, RecordOf;
    hide Back, RolledBack, Live;
    OwnEvidenceIsCurrent(GuardFamily, t.d, t.fs);
    OwnEvidenceIsCurrent(DevelopmentFamily, t.d, t.fs);
    OwnEvidenceIsCurrent(AccessFamily, t.d, t.fs);
  }
}
