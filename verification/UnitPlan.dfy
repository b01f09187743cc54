/** What the unit operations of a valid plan leave behind. */
module UnitPlan {
  import opened Text
  import opened Host
  import opened Generation
  import opened Planning
  import opened Convergence
  import opened Selection
  import opened PlanContents
  import opened Systemd
  import opened Namespace

  function StopNames(s: Scene): seq<string> { UnitsOf(PlanFor(s), {Stop}) }
  function DisableNames(s: Scene): seq<string> { UnitsOf(PlanFor(s), {Disable}) }
  function EnableNames(s: Scene): seq<string> { UnitsOf(PlanFor(s), {Enable}) }
  function StartNames(s: Scene): seq<string> { UnitsOf(PlanFor(s), {Start, Restart}) }

  /** Whether a plan has one of these operations for a wanted unit, by its own state. */
  lemma NamesOf(s: Scene, r: Resource)
    requires Acceptable(s) && r in Generate(s.d) && r.unitName.Some?
    ensures var n := r.unitName.value;
            && (n in StopNames(s) <==> CalledFor(s, r, Stop)) && (n in DisableNames(s) <==> CalledFor(s, r, Disable))
            && (n in EnableNames(s) <==> CalledFor(s, r, Enable))
            && (n in StartNames(s) <==> CalledFor(s, r, Start) || CalledFor(s, r, Restart))
  {
    var n := r.unitName.value;
    InUnitsOf(PlanFor(s), {Stop}, n);
    InUnitsOf(PlanFor(s), {Disable}, n);
    InUnitsOf(PlanFor(s), {Enable}, n);
    InUnitsOf(PlanFor(s), {Start, Restart}, n);
    UnitOps(s, r, {Stop});
    UnitOps(s, r, {Disable});
    UnitOps(s, r, {Enable});
    UnitOps(s, r, {Start, Restart});
    hide PlanFor, Acceptable, CalledFor, UnitOpIn, UnitsOf;
  }

  lemma CoreUnits(d: Desired)
    ensures ResourceOf(d, McpUnit) in Generate(d) && ResourceOf(d, TunnelUnit) in Generate(d)
    ensures ResourceOf(d, McpUnit).unitName == Some(McpName(d.iid))
    ensures ResourceOf(d, TunnelUnit).unitName == Some(TunnelName(d.iid))
    ensures ResourceOf(d, McpUnit).activeWhenRunning && ResourceOf(d, TunnelUnit).activeWhenRunning
    ensures ResourceOf(d, McpUnit).id.McpUnit? && ResourceOf(d, TunnelUnit).id.TunnelUnit?
  {
    ResourceInBundle(d, McpUnit);
    ResourceInBundle(d, TunnelUnit);
  }

  /** What a valid plan asks of the two core units. */
  lemma CorePlan(s: Scene)
    requires Acceptable(s)
    ensures McpName(s.d.iid) in StopNames(s) && UnitOf(s.units, TunnelName(s.d.iid)).active ==>
              TunnelName(s.d.iid) in StopNames(s)
    ensures s.d.present && s.d.running ==>
              && McpName(s.d.iid) !in StopNames(s)
                 && (UnitOf(s.units, McpName(s.d.iid)).active || McpName(s.d.iid) in StartNames(s))
              && TunnelName(s.d.iid) !in StopNames(s)
                 && (UnitOf(s.units, TunnelName(s.d.iid)).active || TunnelName(s.d.iid) in StartNames(s))
    ensures s.d.present && !s.d.running ==> McpName(s.d.iid) !in StartNames(s) && TunnelName(s.d.iid) !in StartNames(s)
  {
    hide ResourceOf, Generate, StopNames, StartNames, PlanFor, ChangedIds, Acceptable, UnitName, CalledFor;
    hide TunnelFollows, McpName, TunnelName, UnitOf;
    var m, t := ResourceOf(s.d, McpUnit), ResourceOf(s.d, TunnelUnit);
    CoreUnits(s.d);
    NamesOf(s, m);
    NamesOf(s, t);
    StopCalled(s, m);
    StopCalled(s, t);
    if s.d.present {
      StartCalled(s, m);
      StartCalled(s, t);
      FollowedRuns(s, t);
      TunnelAlone(s, m);
    }
  }

  lemma StopCalled(s: Scene, r: Resource)
    requires r.unitName.Some?
    ensures CalledFor(s, r, Stop)
            <==> UnitOf(s.units, r.unitName.value).active && !(s.d.present && TargetActive(s.d, r))
  {
    hide TargetActive, UnitOf, ChangedIds, Changed, TunnelFollows;
  }

  lemma StartCalled(s: Scene, r: Resource)
    requires r.unitName.Some? && s.d.present
    ensures CalledFor(s, r, Start) <==> TargetActive(s.d, r) && !UnitOf(s.units, r.unitName.value).active
    ensures CalledFor(s, r, Restart) ==>
              TunnelFollows(s, r) || (TargetActive(s.d, r) && UnitOf(s.units, r.unitName.value).active)
  {
    hide TargetActive, UnitOf, ChangedIds, Changed, TunnelFollows;
  }

  lemma TunnelAlone(s: Scene, r: Resource)
    ensures !r.id.TunnelUnit? ==> !TunnelFollows(s, r)
  {
  }

  lemma SettlesEnablement(s: Scene, r: Resource, end: Units)
    requires Acceptable(s) && s.d.present && r in Generate(s.d) && r.unitName.Some?
    requires UnitOf(end, r.unitName.value).enabled
             == (UnitOf(s.units, r.unitName.value).enabled || r.unitName.value in EnableNames(s))
    ensures r.enableWhenPresent ==> UnitOf(end, r.unitName.value).enabled
  {
    NamesOf(s, r);
    hide Generate, PlanFor, ChangedIds, Acceptable, EnableNames;
  }

  /** Which wanted units are down after the stop pass and the start pass: none that should run. */
  lemma SettlesActivity(s: Scene, r: Resource, end: Units)
    requires Acceptable(s) && s.d.present && r in Generate(s.d) && r.unitName.Some?
    requires UnitOf(end, r.unitName.value).active
             == ((UnitOf(s.units, r.unitName.value).active && r.unitName.value !in StopNames(s))
               || r.unitName.value in StartNames(s))
    ensures UnitOf(end, r.unitName.value).active <==> TargetActive(s.d, r)
  {
    NamesOf(s, r);
    FollowedRuns(s, r);
    OperationsFit(s.d, r, UnitOf(s.units, r.unitName.value), Changed(s));
    hide Generate, PlanFor, ChangedIds, Acceptable, StartNames, StopNames, ResourceOf, UnitOperations, TunnelFollows;
    hide TargetActive, UnitOf;
  }

  lemma FollowedRuns(s: Scene, r: Resource)
    requires r in Generate(s.d)
    ensures TunnelFollows(s, r) ==> TargetActive(s.d, r)
  {
    BundleMember(s.d, r);
    CoreUnits(s.d);
    hide Generate, ChangedIds;
  }

  lemma OperationsFit(d: Desired, r: Resource, u: UnitState, changed: set<Rid>)
    requires d.present
    ensures var ops := UnitOperations(d, r, u, changed);
            ((u.active && Stop !in ops) || Start in ops || Restart in ops <==> TargetActive(d, r))
            && (Stop in ops ==> !TargetActive(d, r))
  {
  }

  lemma AbsentUnitSettles(s: Scene, r: Resource, end: Units)
    requires Acceptable(s) && !s.d.present && r in Generate(s.d) && r.unitName.Some?
    requires UnitOf(end, r.unitName.value).active
             == (UnitOf(s.units, r.unitName.value).active && r.unitName.value !in StopNames(s))
    requires UnitOf(end, r.unitName.value).enabled
             == (UnitOf(s.units, r.unitName.value).enabled && r.unitName.value !in DisableNames(s))
    ensures UnitSettled(s.d, r, end)
  {
    NamesOf(s, r);
    hide Generate, PlanFor, ChangedIds, Acceptable, StopNames, DisableNames;
  }
}
