/** The unit operations of a whole apply (`host_apply.py`, `lifecycle.py`), and exactly when no
    outcome of theirs, or of the rollback's, leaves an active tunnel without its MCP server. */
module UnitActs {
  import opened Text
  import opened Host
  import opened Generation
  import opened Planning
  import opened Convergence
  import opened Selection
  import opened Evidence
  import opened PlanContents
  import opened UnitPlan
  import opened Sorting
  import opened Systemd
  import opened UnitRuns
  import opened Namespace

  // ---- obsolete units ----

  predicate OfStale(s: Scene, family: Family, x: PlanItem) {
    x.subject.OnUnit? && x.subject.r in Obsoletes(family, s.d, s.fs, s.owned)
  }

  /** The units of obsolete resources that a plan stops or disables. */
  function StaleNames(s: Scene, family: Family, op: Operation): seq<string> {
    UnitsOf(Filter(PlanFor(s), x => OfStale(s, family, x)), {op})
  }

  lemma InStaleNames(s: Scene, family: Family, op: Operation, u: string)
    requires u in StaleNames(s, family, op)
    ensures exists r ::
              r in Obsoletes(family, s.d, s.fs, s.owned) && r in AllStale(s.d, s.fs, s.owned) && r.unitName == Some(u)
  {
    var items := Filter(PlanFor(s), x => OfStale(s, family, x));
    InUnitsOf(items, {op}, u);
    hide PlanFor, UnitsOf, Filter, Obsoletes;
    var x :| x in items && x.op in {op} && x.subject.OnUnit? && x.subject.r.unitName == Some(u);
    InFilter(PlanFor(s), y => OfStale(s, family, y), x);
    assert x.subject.r in AllStale(s.d, s.fs, s.owned);
  }

  /** No wanted unit is among them. */
  lemma WantedIsNotStale(s: Scene, family: Family, op: Operation, r: Resource)
    requires Acceptable(s) && r in Generate(s.d) && r.unitName.Some?
    ensures r.unitName.value !in StaleNames(s, family, op)
  {
    var u := r.unitName.value;
    hide Acceptable, StaleNames, Obsoletes, AllStale, Generate, Obsolete;
    if u in StaleNames(s, family, op) {
      InStaleNames(s, family, op, u);
      var x :| x in AllStale(s.d, s.fs, s.owned) && x.unitName == Some(u);
      UnitOfOne(s, r, x);
      StaleShape(s, r);
      var f :| Obsolete(f, s.d, Generate(s.d), s.owned, r);
      StaleNotInBundle(f, s.d, Generate(s.d), s.owned, r);
    }
  }

  lemma StaleNotInBundle(family: Family, d: Desired, bundle: seq<Resource>, owned: seq<Entry>, r: Resource)
    requires Obsolete(family, d, bundle, owned, r)
    ensures r !in bundle
  {
  }

  lemma CoreIsNotStale(s: Scene, family: Family, op: Operation)
    requires Acceptable(s)
    ensures McpName(s.d.iid) !in StaleNames(s, family, op) && TunnelName(s.d.iid) !in StaleNames(s, family, op)
  {
    CoreUnits(s.d);
    hide Acceptable, StaleNames, Generate, McpName, TunnelName;
    WantedIsNotStale(s, family, op, ResourceOf(s.d, McpUnit));
    WantedIsNotStale(s, family, op, ResourceOf(s.d, TunnelUnit));
  }

  // ---- the whole list ----

  function StaleActs(s: Scene, family: Family): seq<Act> { StopActs(StaleNames(s, family, Stop)) }

  /** `_core_runtime_units`. */
  function ForceActs(s: Scene, force: bool): seq<Act> {
    if force && s.d.running then Ups([McpName(s.d.iid), TunnelName(s.d.iid)]) else []
  }

  /** The pass of stops and the pass of starts and restarts. */
  function PassActs(s: Scene): seq<Act> { StopActs(StopNames(s)) + StartActs(StartNames(s)) }

  /** Every stop, start and restart an apply asks for when nothing fails. */
  function Acts(s: Scene, force: bool): seq<Act> {
    if s.d.present then PassActs(s) + ForceActs(s, force) + StaleActs(s, GuardFamily) + StaleActs(s, DevelopmentFamily)
    else StopActs(StopNames(s))
  }

  /** What a caller can read from the units and the plan beforehand: the apply forces a restart,
      or starts both core units, or restarts the server under an active tunnel. */
  predicate Risky(s: Scene, force: bool) {
    var mcp, tunnel := UnitOf(s.units, McpName(s.d.iid)), UnitOf(s.units, TunnelName(s.d.iid));
    && s.d.present && s.d.running
    && (force || !mcp.active || (tunnel.active && McpName(s.d.iid) in StartNames(s)))
  }

  lemma InDowns(units: seq<string>, u: string)
    ensures Up(u) !in StopActs(units) && (Down(u) in StopActs(units) <==> u in units)
  {
    InSort(units, StopLe, u);
    var sorted := Sort(units, StopLe);
    hide Sort;
    if u in units {
      var i :| 0 <= i < |sorted| && sorted[i] == u;
      assert Downs(sorted)[i] == Down(u);
    }
  }

  lemma InUps(units: seq<string>, u: string)
    ensures Down(u) !in StartActs(units) && (Up(u) in StartActs(units) <==> u in units)
  {
    InSort(units, StartLe, u);
    var sorted := Sort(units, StartLe);
    hide Sort;
    if u in units {
      var i :| 0 <= i < |sorted| && sorted[i] == u;
      assert Ups(sorted)[i] == Up(u);
    }
  }

  /** The core acts of the whole list after its stop pass. */
  lemma LaterCore(s: Scene, force: bool, u: string)
    requires Acceptable(s) && (u == McpName(s.d.iid) || u == TunnelName(s.d.iid))
    ensures Down(u) !in StartActs(StartNames(s)) && (Up(u) in StartActs(StartNames(s)) <==> u in StartNames(s))
    ensures Down(u) !in ForceActs(s, force)
    ensures forall f :: Down(u) !in StaleActs(s, f) && Up(u) !in StaleActs(s, f)
  {
    hide Acceptable, StartNames, StaleNames, StartActs, StopActs, McpName, TunnelName;
    InUps(StartNames(s), u);
    forall f ensures Down(u) !in StaleActs(s, f) && Up(u) !in StaleActs(s, f) {
      CoreIsNotStale(s, f, Stop);
      InDowns(StaleNames(s, f, Stop), u);
    }
  }

  /** In a stop pass the tunnel precedes the server; in a start pass it follows. */
  lemma DownFirst(units: seq<string>, mcp: string, tunnel: string, i: nat)
    requires !StopLe(mcp, tunnel) && tunnel in units && i < |StopActs(units)| && StopActs(units)[i] == Down(mcp)
    ensures exists j | 0 <= j < i :: StopActs(units)[j] == Down(tunnel)
  {
    OrdersAreTotal();
    var sorted := Sort(units, StopLe);
    hide StopLe, StartLe;
    Earlier(units, sorted, StopLe, i, tunnel);
    var j :| 0 <= j < i && sorted[j] == tunnel;
    assert StopActs(units)[j] == Down(tunnel);
  }

  lemma UpFirst(units: seq<string>, mcp: string, tunnel: string, i: nat, j: nat)
    requires !StartLe(tunnel, mcp) && i < |StartActs(units)| && j < |StartActs(units)|
    requires StartActs(units)[i] == Up(mcp) && StartActs(units)[j] == Up(tunnel)
    ensures i < j
  {
    OrdersAreTotal();
    SortSorts(units, StartLe);
    var sorted := Sort(units, StartLe);
    hide StopLe, StartLe, Sort;
    assert sorted[i] == mcp && sorted[j] == tunnel;
    forall y | j <= y < |sorted| ensures StartLe(tunnel, sorted[y]) { assert y == j || StartLe(sorted[j], sorted[y]); }
  }

  /** An instance that is to be down or gone: only stops touch the core units. */
  lemma QuietList(s: Scene, force: bool)
    requires Acceptable(s) && !(s.d.present && s.d.running)
    ensures TunnelFirst(Running(s.units), Acts(s, force), McpName(s.d.iid), TunnelName(s.d.iid))
  {
    var m, t := McpName(s.d.iid), TunnelName(s.d.iid);
    var stops, acts := StopActs(StopNames(s)), Acts(s, force);
    hide Acceptable, StopNames, StartNames, StopActs, StartActs, StaleActs, StopLe, StartLe, McpName, TunnelName;
    hide UnitOf, Running;
    CorePlan(s);
    TunnelIsOutermost(s.d.iid);
    LaterCore(s, force, m);
    LaterCore(s, force, t);
    InDowns(StopNames(s), m);
    InDowns(StopNames(s), t);
    forall i | 0 <= i < |acts| && acts[i] == Down(m) && t in Running(s.units)
      ensures exists j | 0 <= j < i :: acts[j] == Down(t)
    {
      assert i < |stops| && stops[i] == Down(m);
      assert Down(m) in stops;
      DownFirst(StopNames(s), m, t, i);
      var j :| 0 <= j < i && stops[j] == Down(t);
      assert acts[j] == Down(t);
    }
  }

  /** An instance that is to run, its server up: no core unit stops, and the server starts only
      before a tunnel that is down. */
  lemma RunningList(s: Scene, force: bool)
    requires Acceptable(s) && s.d.present && s.d.running && !Risky(s, force)
    ensures ServerFirst(Running(s.units), Acts(s, force), McpName(s.d.iid), TunnelName(s.d.iid))
  {
    var m, t := McpName(s.d.iid), TunnelName(s.d.iid);
    var stops, starts, acts := StopActs(StopNames(s)), StartActs(StartNames(s)), Acts(s, force);
    hide Acceptable, StopNames, StartNames, StopActs, StartActs, StaleActs, StopLe, StartLe, McpName, TunnelName;
    hide UnitOf, Running;
    CorePlan(s);
    TunnelIsOutermost(s.d.iid);
    LaterCore(s, force, m);
    LaterCore(s, force, t);
    InDowns(StopNames(s), m);
    InDowns(StopNames(s), t);
    assert ForceActs(s, force) == [];
    forall i, j | 0 <= i < |acts| && 0 <= j < |acts| && acts[i] == Up(m) && acts[j] == Up(t) ensures i < j {
      StartOf(s, force, m, i);
      StartOf(s, force, t, j);
      UpFirst(StartNames(s), m, t, i - |stops|, j - |stops|);
    }
  }

  /** Without a forced restart, the starts of core units are those of the start pass. */
  lemma StartOf(s: Scene, force: bool, u: string, i: nat)
    requires Acceptable(s) && s.d.present && ForceActs(s, force) == []
    requires (u == McpName(s.d.iid) || u == TunnelName(s.d.iid))
    requires i < |Acts(s, force)| && Acts(s, force)[i] == Up(u)
    ensures var k := i - |StopActs(StopNames(s))|;
            0 <= k < |StartActs(StartNames(s))| && StartActs(StartNames(s))[k] == Up(u)
  {
    var stops, starts, guard, dev := StopActs(StopNames(s)), StartActs(StartNames(s)), StaleActs(s, GuardFamily),
      StaleActs(s, DevelopmentFamily);
    hide Acceptable, StopNames, StartNames, StopActs, StartActs, StaleActs, McpName, TunnelName;
    LaterCore(s, force, u);
    InDowns(StopNames(s), u);
    assert Acts(s, force) == stops + starts + guard + dev;
    forall x | 0 <= x < |stops| ensures stops[x] != Up(u) { assert stops[x] in stops; }
    forall x | 0 <= x < |guard| ensures guard[x] != Up(u) { assert guard[x] in guard; }
    forall x | 0 <= x < |dev| ensures dev[x] != Up(u) { assert dev[x] in dev; }
  }

  lemma KeepsTether(s: Scene, force: bool, calls: seq<Call>, back: seq<Call>)
    requires Acceptable(s) && Tethered(Running(s.units), McpName(s.d.iid), TunnelName(s.d.iid)) && !Risky(s, force)
    requires UnitRun(Running(s.units), Acts(s, force), calls, back)
    ensures StaysTethered(Running(s.units), calls + back, McpName(s.d.iid), TunnelName(s.d.iid))
  {
    hide Acceptable, Acts, McpName, TunnelName, UnitRun, TunnelFirst, ServerFirst, StaysTethered, UnitOf, Running;
    hide StartNames, StopLe, StartLe;
    TunnelIsOutermost(s.d.iid);
    if s.d.present && s.d.running {
      RunningList(s, force);
      RunningKeeps(Running(s.units), Acts(s, force), calls, back, McpName(s.d.iid), TunnelName(s.d.iid));
    } else {
      QuietList(s, force);
      QuietKeeps(Running(s.units), Acts(s, force), calls, back, McpName(s.d.iid), TunnelName(s.d.iid));
    }
  }

  /** A core unit of an instance that is to run is up once the passes went well. */
  lemma PassesRun(s: Scene, u: string)
    requires Acceptable(s) && s.d.present && s.d.running && (u == McpName(s.d.iid) || u == TunnelName(s.d.iid))
    ensures u in Through(Running(s.units), AllWell(PassActs(s)))
  {
    hide Acceptable, StopNames, StartNames, StopActs, StartActs, McpName, TunnelName, UnitOf, Running, Through, AllWell;
    hide ForceActs, StaleActs;
    CorePlan(s);
    LaterCore(s, false, u);
    InDowns(StopNames(s), u);
    assert u in StartNames(s) ==> Up(u) in PassActs(s);
    WellRuns(Running(s.units), PassActs(s), u);
  }

  /** Where a core unit is first brought up. */
  lemma FirstUp(s: Scene, force: bool, u: string) returns (k: nat)
    requires Acceptable(s) && s.d.present && u in StartNames(s) && (u == McpName(s.d.iid) || u == TunnelName(s.d.iid))
    ensures |StopActs(StopNames(s))| <= k < |PassActs(s)| <= |Acts(s, force)| && Acts(s, force)[k] == Up(u)
    ensures Acts(s, force)[..k] == PassActs(s)[..k] && Up(u) !in Acts(s, force)[..k]
  {
    var stops, starts, acts := StopActs(StopNames(s)), StartActs(StartNames(s)), Acts(s, force);
    hide Acceptable, StopNames, StartNames, StopActs, StartActs, StaleActs, ForceActs, McpName, TunnelName;
    LaterCore(s, force, u);
    InDowns(StopNames(s), u);
    k := 0;
    var j :| 0 <= j < |starts| && starts[j] == Up(u);
    assert acts[|stops| + j] == Up(u);
    while acts[k] != Up(u)
      invariant k <= |stops| + j && Up(u) !in acts[..k]
      decreases |stops| + j - k
    {
      k := k + 1;
    }
    forall x | 0 <= x < |stops| ensures acts[x] != Up(u) { assert acts[x] == stops[x] && stops[x] in stops; }
  }

  /** A run that strands the tunnel, for every apply of the risky kind. */
  lemma RiskyBreaks(s: Scene, force: bool) returns (calls: seq<Call>, back: seq<Call>)
    requires Acceptable(s) && Tethered(Running(s.units), McpName(s.d.iid), TunnelName(s.d.iid)) && Risky(s, force)
    ensures UnitRun(Running(s.units), Acts(s, force), calls, back)
    ensures !StaysTethered(Running(s.units), calls + back, McpName(s.d.iid), TunnelName(s.d.iid))
  {
    var m, t, running, acts := McpName(s.d.iid), TunnelName(s.d.iid), Running(s.units), Acts(s, force);
    hide Acceptable, StopNames, StartNames, StopActs, StartActs, StaleActs, StopLe, StartLe, McpName, TunnelName;
    hide Running, UnitRun, StaysTethered, Through, AllWell, PassActs;
    TunnelIsOutermost(s.d.iid);
    CorePlan(s);
    LaterCore(s, force, m);
    LaterCore(s, force, t);
    InDowns(StopNames(s), t);
    if m !in running {
      var k := FirstUp(s, force, t);
      ServerBefore(s, force, k);
      calls, back := StartBreaks(running, acts, m, t, k);
    } else if t in running && m in StartNames(s) {
      var k := FirstUp(s, force, m);
      TunnelStill(s, force, k);
      calls := RestartBreaks(running, acts, m, t, k);
      back := [];
    } else {
      var k := |PassActs(s)|;
      assert acts[k] == Up(m) && acts[..k] == PassActs(s);
      PassesRun(s, t);
      calls := RestartBreaks(running, acts, m, t, k);
      back := [];
    }
  }

  lemma ServerBefore(s: Scene, force: bool, k: nat)
    requires Acceptable(s) && s.d.present && s.d.running && !UnitOf(s.units, McpName(s.d.iid)).active
    requires |StopActs(StopNames(s))| <= k < |PassActs(s)| <= |Acts(s, force)|
    requires Acts(s, force)[..k] == PassActs(s)[..k]
    requires Acts(s, force)[k] == Up(TunnelName(s.d.iid))
    ensures Up(McpName(s.d.iid)) in Acts(s, force)[..k]
  {
    var m, t := McpName(s.d.iid), TunnelName(s.d.iid);
    var stops, starts, acts := StopActs(StopNames(s)), StartActs(StartNames(s)), Acts(s, force);
    hide Acceptable, StopNames, StartNames, StopActs, StartActs, StaleActs, StopLe, StartLe, McpName, TunnelName;
    hide UnitOf, ForceActs;
    TunnelIsOutermost(s.d.iid);
    CorePlan(s);
    LaterCore(s, force, m);
    var i :| 0 <= i < |starts| && starts[i] == Up(m);
    assert starts[k - |stops|] == Up(t) by { assert acts[k] == PassActs(s)[k]; }
    UpFirst(StartNames(s), m, t, i, k - |stops|);
    assert acts[..k][|stops| + i] == Up(m);
  }

  lemma TunnelStill(s: Scene, force: bool, k: nat)
    requires Acceptable(s) && s.d.present && s.d.running && TunnelName(s.d.iid) in Running(s.units)
    requires k <= |PassActs(s)| <= |Acts(s, force)| && Acts(s, force)[..k] == PassActs(s)[..k]
    ensures TunnelName(s.d.iid) in Through(Running(s.units), AllWell(Acts(s, force)[..k]))
  {
    var t := TunnelName(s.d.iid);
    hide Acceptable, StopNames, StartNames, StopActs, StartActs, StaleActs, McpName, TunnelName, UnitOf, Running;
    hide Through, AllWell, Acts, ForceActs;
    CorePlan(s);
    LaterCore(s, force, t);
    InDowns(StopNames(s), t);
    forall x | x in PassActs(s)[..k] ensures x in PassActs(s) {}
    WellRuns(Running(s.units), PassActs(s)[..k], t);
  }

  /** Starting from a tunnel that has its server, the tunnel keeps it after every stop, start,
      restart and rollback step, whatever fails, exactly when the apply is not of the risky kind. */
  lemma KeepsTetherExactly(s: Scene, force: bool)
    requires Acceptable(s) && Tethered(Running(s.units), McpName(s.d.iid), TunnelName(s.d.iid))
    ensures (forall calls, back | UnitRun(Running(s.units), Acts(s, force), calls, back) ::
               StaysTethered(Running(s.units), calls + back, McpName(s.d.iid), TunnelName(s.d.iid)))
            <==> !Risky(s, force)
  {
    hide Acceptable, McpName, TunnelName, Running, UnitRun, StaysTethered, Risky, Acts, Tethered;
    if Risky(s, force) {
      var calls, back := RiskyBreaks(s, force);
    } else {
      forall calls, back | UnitRun(Running(s.units), Acts(s, force), calls, back)
        ensures StaysTethered(Running(s.units), calls + back, McpName(s.d.iid), TunnelName(s.d.iid))
      {
        KeepsTether(s, force, calls, back);
      }
    }
  }
}
