/** What a valid plan asks for, resource by resource and unit by unit. */
module PlanContents {
  import opened Text
  import opened Host
  import opened Generation
  import opened Planning
  import opened Convergence
  import opened Selection
  import opened Evidence
  import opened Namespace
  import Git = GitOwnership

  /** A moment at which a plan is made. */
  datatype Scene = Scene(repo: Git.Repository, d: Desired, fs: Tree, units: Units, config: Git.Config,
    owned: seq<Entry>)

  function PlanFor(s: Scene): seq<PlanItem> { PlanOf(s.repo, s.d, s.fs, s.units, s.config, s.owned) }

  function Changed(s: Scene): set<Rid> { ChangedIds(s.d.present, Generate(s.d), s.fs) }

  ghost predicate Acceptable(s: Scene) { ValidDesired(s.d) && Valid(PlanFor(s)) }

  ghost predicate FileItemIn(s: Scene, x: PlanItem) {
    x.subject.OnResource? && x.subject.r in Generate(s.d) && x == FileItem(s.d.present, x.subject.r, s.fs)
  }

  ghost predicate StaleItemIn(s: Scene, x: PlanItem) {
    || IsStaleItem(GuardFamily, Obsoletes(GuardFamily, s.d, s.fs, s.owned), s.fs, s.units, x)
    || IsStaleItem(DevelopmentFamily, Obsoletes(DevelopmentFamily, s.d, s.fs, s.owned), s.fs, s.units, x)
    || IsStaleItem(AccessFamily, Obsoletes(AccessFamily, s.d, s.fs, s.owned), s.fs, s.units, x)
  }

  ghost predicate AllListed(s: Scene) {
    && StaleResources(GuardFamily, s.d, Generate(s.d), s.fs, s.owned).Listed?
    && StaleResources(DevelopmentFamily, s.d, Generate(s.d), s.fs, s.owned).Listed?
    && StaleResources(AccessFamily, s.d, Generate(s.d), s.fs, s.owned).Listed?
  }

  lemma InStaleItems(family: Family, s: Scene, x: PlanItem)
    ensures var stale := StaleResources(family, s.d, Generate(s.d), s.fs, s.owned);
            var items := StaleItems(family, s.d, Generate(s.d), s.fs, s.units, s.owned);
            && (stale.Rejected? ==> PlanItem(Conflict, OnEvidence) in items)
            && (stale.Listed? ==> (x in items
               <==> IsStaleItem(family, Obsoletes(family, s.d, s.fs, s.owned), s.fs, s.units, x)))
  {
    hide IsStaleItem, StaleResources, Generate;
    var stale := StaleResources(family, s.d, Generate(s.d), s.fs, s.owned);
    if stale.Listed? {
      InListedItems(family, stale.resources, s.fs, s.units, x);
    }
  }

  /** Everything in a plan, and nothing else. */
  lemma InPlan(s: Scene, x: PlanItem)
    requires Valid(PlanFor(s))
    ensures AllListed(s)
    ensures x in PlanFor(s) <==>
              || FileItemIn(s, x) || x in GitItems(s.repo, s.config, s.d)
              || IsUnitItem(s.d, Generate(s.d), s.units, Changed(s), x)
                 || x in TunnelItems(s.d, Generate(s.d), s.units, Changed(s))
              || StaleItemIn(s, x)
  {
    var bundle, changed := Generate(s.d), Changed(s);
    InFileItems(s.d.present, bundle, s.fs, x);
    InUnitItems(s.d, bundle, s.units, changed, x);
    InPlanParts(s, x);
    InPlanParts(s, PlanItem(Conflict, OnEvidence));
    InStaleItems(GuardFamily, s, x);
    InStaleItems(DevelopmentFamily, s, x);
    InStaleItems(AccessFamily, s, x);
    hide Generate, FileItems, UnitItems, GitItems, TunnelItems, StaleItems, IsStaleItem, IsUnitItem, ChangedIds, PlanOf;
    hide StaleResources;
    NoConflictIn(PlanFor(s), OnEvidence);
  }

  lemma InPlanParts(s: Scene, x: PlanItem)
    ensures var bundle, changed := Generate(s.d), Changed(s);
            x in PlanFor(s) <==>
              || x in FileItems(s.d.present, bundle, s.fs) || x in GitItems(s.repo, s.config, s.d)
              || x in UnitItems(s.d, bundle, s.units, changed) || x in TunnelItems(s.d, bundle, s.units, changed)
              || x in StaleItems(GuardFamily, s.d, bundle, s.fs, s.units, s.owned)
              || x in StaleItems(DevelopmentFamily, s.d, bundle, s.fs, s.units, s.owned)
              || x in StaleItems(AccessFamily, s.d, bundle, s.fs, s.units, s.owned)
  {
    hide Generate, FileItems, UnitItems, GitItems, TunnelItems, StaleItems, ChangedIds;
    var bundle, changed := Generate(s.d), Changed(s);
    var f, g, u := FileItems(s.d.present, bundle, s.fs), GitItems(s.repo, s.config, s.d),
      UnitItems(s.d, bundle, s.units, changed);
    var t, a := TunnelItems(s.d, bundle, s.units, changed),
      StaleItems(GuardFamily, s.d, bundle, s.fs, s.units, s.owned);
    var b, c := StaleItems(DevelopmentFamily, s.d, bundle, s.fs, s.units, s.owned),
      StaleItems(AccessFamily, s.d, bundle, s.fs, s.units, s.owned);
    if s.d.present {
      assert PlanFor(s) == f + g + (u + t) + (a + b + c);
    } else {
      assert PlanFor(s) == (u + t) + g + f + (a + b + c);
    }
  }

  lemma NoConflictIn(plan: seq<PlanItem>, subject: Subject)
    requires Valid(plan)
    ensures PlanItem(Conflict, subject) !in plan
  {
    assert forall x | x in plan :: !x.op.Conflict?;
  }

  // ---- unit names ----

  /** A resource the plan may speak of: generated, or obsolete. */
  ghost predicate Mentioned(s: Scene, r: Resource) {
    r in Generate(s.d) || r in AllStale(s.d, s.fs, s.owned)
  }

  lemma StaleShape(s: Scene, r: Resource)
    requires Acceptable(s) && r in AllStale(s.d, s.fs, s.owned)
    ensures exists family ::
              Obsolete(family, s.d, Generate(s.d), s.owned, r) && r in Obsoletes(family, s.d, s.fs, s.owned)
              && (!family.AccessFamily? ==> r.path in s.fs && s.fs[r.path].File?)
  {
    InPlan(s, PlanItem(NoOp, OnEvidence));
    hide Generate, StaleResources, Obsolete;
    var family := if r in Obsoletes(GuardFamily, s.d, s.fs, s.owned) then GuardFamily
                  else if r in Obsoletes(DevelopmentFamily, s.d, s.fs, s.owned) then DevelopmentFamily
                    else AccessFamily;
    ListedAreObsolete(family, s.d, s.fs, s.owned);
    assert Obsolete(family, s.d, Generate(s.d), s.owned, r) && r in Obsoletes(family, s.d, s.fs, s.owned);
  }

  lemma NameShape(s: Scene, r: Resource)
    requires Acceptable(s) && Mentioned(s, r)
    ensures r.unitName.Some? ==> IsUnit(r.id) && r.unitName.value == UnitName(s.d.iid, r.id)
  {
    if r in Generate(s.d) {
      BundleMember(s.d, r);
    } else {
      StaleShape(s, r);
      var family :| Obsolete(family, s.d, Generate(s.d), s.owned, r);
    }
  }

  /** No two resources of a plan share a unit, and an obsolete unit is never a wanted one. */
  lemma UnitOfOne(s: Scene, r: Resource, x: Resource)
    requires Acceptable(s) && r in Generate(s.d) && Mentioned(s, x) && r.unitName.Some? && x.unitName == r.unitName
    ensures x == r
  {
    NameShape(s, r);
    NameShape(s, x);
    UnitNamesApart(s.d.iid, r.id, s.d.iid, x.id);
    BundleMember(s.d, r);
    if x in Generate(s.d) {
      BundleMember(s.d, x);
    } else {
      StaleShape(s, x);
    }
  }

  ghost predicate TunnelFollows(s: Scene, r: Resource) {
    r.id.TunnelUnit? && TunnelItems(s.d, Generate(s.d), s.units, Changed(s)) != []
  }

  /** A plan's operations on a wanted unit are those its own state calls for. */
  ghost predicate CalledFor(s: Scene, r: Resource, op: Operation) {
    && r.unitName.Some?
    && (op in UnitOperations(s.d, r, UnitOf(s.units, r.unitName.value), Changed(s))
       || (op.Restart? && TunnelFollows(s, r)))
  }

  lemma UnitItemShape(s: Scene, x: PlanItem)
    requires Acceptable(s) && x in PlanFor(s) && x.subject.OnUnit?
    ensures Mentioned(s, x.subject.r)
  {
    InPlan(s, x);
    ResourceInBundle(s.d, TunnelUnit);
    hide PlanOf, Generate, ResourceOf, UnitOperations, ChangedIds, StaleOperations, Obsoletes;
  }

  lemma UnitItemCalled(s: Scene, x: PlanItem)
    requires Acceptable(s) && x in PlanFor(s) && x.subject.OnUnit? && x.subject.r in Generate(s.d)
    ensures CalledFor(s, x.subject.r, x.op)
  {
    InPlan(s, x);
    ResourceShape(s.d, TunnelUnit);
    hide PlanOf, PlanFor, Generate, ResourceOf, UnitOperations, ChangedIds, StaleOperations, Obsoletes, Changed;
    if StaleItemIn(s, x) {
      StaleShape(s, x.subject.r);
    }
  }

  lemma PlannedIsCalledFor(s: Scene, r: Resource, x: PlanItem)
    requires Acceptable(s) && r in Generate(s.d) && r.unitName.Some?
    requires x in PlanFor(s) && x.subject.OnUnit? && x.subject.r.unitName == r.unitName
    ensures CalledFor(s, r, x.op)
  {
    hide PlanOf, PlanFor, Generate, UnitOperations, Acceptable, ChangedIds, StaleOperations, Changed, Obsoletes, Valid;
    UnitItemShape(s, x);
    UnitOfOne(s, r, x.subject.r);
    UnitItemCalled(s, x);
  }

  lemma CalledForIsPlanned(s: Scene, r: Resource, op: Operation)
    requires Acceptable(s) && r in Generate(s.d) && CalledFor(s, r, op)
    ensures PlanItem(op, OnUnit(r)) in PlanFor(s)
  {
    InPlan(s, PlanItem(op, OnUnit(r)));
    BundleMember(s.d, r);
  }

  lemma UnitOps(s: Scene, r: Resource, ops: set<Operation>)
    requires Acceptable(s) && r in Generate(s.d) && r.unitName.Some?
    ensures UnitOpIn(PlanFor(s), ops, r.unitName.value) <==> exists op | op in ops :: CalledFor(s, r, op)
  {
    if UnitOpIn(PlanFor(s), ops, r.unitName.value) {
      var x :| x in PlanFor(s) && x.op in ops && x.subject.OnUnit? && x.subject.r.unitName == r.unitName;
      PlannedIsCalledFor(s, r, x);
    }
    if op :| op in ops && CalledFor(s, r, op) {
      CalledForIsPlanned(s, r, op);
      assert PlanItem(op, OnUnit(r)).subject.OnUnit?;
    }
  }
}
