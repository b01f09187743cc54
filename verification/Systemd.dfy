/** Starting and stopping units (`host_apply.py`, `lifecycle.py`): the order of unit
    operations and the calls they make of the service manager. */
module Systemd {
  import opened Text
  import opened Host
  import opened Generation
  import opened Sorting
  import opened UnitRuns

  const AGENT := "workspace-mcp-ssh-agent-"
  const MCP := "coding-tools-mcp-"
  const TUNNEL := "tunnel-client-"
  const GUARD := "admission-guard"

  /** `_unit_priority`. */
  function Priority(unit: string, startOrder: bool): nat {
    if startOrder then
      if StartsWith(unit, AGENT) then 5
      else if StartsWith(unit, MCP) then 10
      else if Contains(unit, GUARD) then 20
      else if StartsWith(unit, TUNNEL) then 30
      else 50
    else
      if StartsWith(unit, TUNNEL) then 10
      else if Contains(unit, GUARD) then 20
      else if StartsWith(unit, MCP) then 30
      else if StartsWith(unit, AGENT) then 40
      else 50
  }

  predicate StartLe(a: string, b: string) {
    Priority(a, true) < Priority(b, true) || (Priority(a, true) == Priority(b, true) && NameLe(a, b))
  }

  predicate StopLe(a: string, b: string) {
    Priority(a, false) < Priority(b, false) || (Priority(a, false) == Priority(b, false) && NameLe(a, b))
  }

  lemma OrdersAreTotal()
    ensures TotalOrder(StartLe) && TotalOrder(StopLe)
  {
    forall a, b ensures NameLe(a, b) || NameLe(b, a) { NameTotal(a, b); }
    forall a, b, c | NameLe(a, b) && NameLe(b, c) ensures NameLe(a, c) { NameTransitive(a, b, c); }
    hide Priority, NameLe;
  }

  function McpName(iid: string): string { UnitName(iid, McpUnit) }
  function TunnelName(iid: string): string { UnitName(iid, TunnelUnit) }

  lemma StartsWithPrefix(prefix: string, rest: string)
    ensures StartsWith(prefix + rest, prefix)
  {
    assert (prefix + rest)[..|prefix|] == prefix;
  }

  lemma McpPriorities(iid: string)
    ensures Priority(McpName(iid), true) == 10
    ensures Priority(McpName(iid), false) == if Contains(McpName(iid), GUARD) then 20 else 30
  {
    var name := McpName(iid);
    assert name == MCP + (iid + ".service");
    StartsWithPrefix(MCP, iid + ".service");
    assert name[0] == 'c';
    assert !StartsWith(name, AGENT) by { assert AGENT[0] == 'w'; }
    assert !StartsWith(name, TUNNEL) by { assert TUNNEL[0] == 't'; }
  }

  lemma TunnelPriorities(iid: string)
    ensures Priority(TunnelName(iid), false) == 10
    ensures Priority(TunnelName(iid), true) == if Contains(TunnelName(iid), GUARD) then 20 else 30
  {
    var name := TunnelName(iid);
    assert name == TUNNEL + (iid + ".service");
    StartsWithPrefix(TUNNEL, iid + ".service");
    assert name[0] == 't';
    assert !StartsWith(name, AGENT) by { assert AGENT[0] == 'w'; }
    assert !StartsWith(name, MCP) by { assert MCP[0] == 'c'; }
  }

  /** For every instance id, even one that mentions the admission guard, the tunnel stops
      before the MCP server and starts after it. */
  lemma TunnelIsOutermost(iid: string)
    ensures !StopLe(McpName(iid), TunnelName(iid))
    ensures !StartLe(TunnelName(iid), McpName(iid))
    ensures McpName(iid) != TunnelName(iid)
  {
    McpPriorities(iid);
    TunnelPriorities(iid);
  }

  /** The units that are active. */
  function Running(units: Units): (r: set<string>)
    ensures forall u :: u in r <==> UnitOf(units, u).active
  {
    set u | u in units && units[u].active
  }

  lemma Earlier(names: seq<string>, sorted: seq<string>, le: (string, string) -> bool, i: nat, first: string)
    requires sorted == Sort(names, le) && TotalOrder(le) && i < |sorted| && !le(sorted[i], first) && first in names
    ensures exists j | 0 <= j < i :: sorted[j] == first
  {
    InSort(names, le, first);
    SortSorts(names, le);
    hide Sort;
    var j :| 0 <= j < |sorted| && sorted[j] == first;
    assert le(first, first);
  }

  /** At most the enablement of these units changed. */
  ghost predicate EnablementOf(a: Units, b: Units, names: seq<string>) {
    OthersKept(a, b, names) && forall u :: UnitOf(a, u).active == UnitOf(b, u).active
  }

  lemma EnablementMore(a: Units, b: Units, c: Units, names: seq<string>, unit: string)
    requires EnablementOf(a, b, names) && EnablementOf(b, c, [unit]) && unit in names
    ensures EnablementOf(a, c, names)
    ensures forall u | u != unit :: SameUnit(b, c, u)
  {
    forall u | u !in names ensures SameUnit(a, c, u) { assert SameUnit(a, b, u) && SameUnit(b, c, u); }
  }

  lemma EnablementRuns(a: Units, b: Units, names: seq<string>)
    requires EnablementOf(a, b, names)
    ensures Running(a) == Running(b)
  {
    hide UnitOf;
    forall u ensures u in Running(a) <==> u in Running(b) { assert UnitOf(a, u).active == UnitOf(b, u).active; }
  }

  predicate SameUnit(a: Units, b: Units, unit: string) { UnitOf(a, unit) == UnitOf(b, unit) }

  ghost predicate OthersKept(a: Units, b: Units, names: seq<string>) {
    forall u | u !in names :: SameUnit(a, b, u)
  }

  /** At most the activity of these units changed. */
  ghost predicate ActivityOf(a: Units, b: Units, names: seq<string>) {
    OthersKept(a, b, names) && forall u :: UnitOf(a, u).enabled == UnitOf(b, u).enabled
  }

  lemma ActivityMore(a: Units, b: Units, c: Units, names: seq<string>, unit: string)
    requires ActivityOf(a, b, names) && ActivityOf(b, c, [unit]) && unit in names
    ensures ActivityOf(a, c, names)
    ensures forall u | u != unit :: SameUnit(b, c, u)
  {
    forall u | u !in names ensures SameUnit(a, c, u) { assert SameUnit(a, b, u) && SameUnit(b, c, u); }
  }

  lemma OneStopped(before: Units, units: Units, unit: string)
    requires ActivityOf(before, units, [unit]) && (UnitOf(units, unit).active ==> UnitOf(before, unit).active)
    ensures forall u :: UnitOf(units, u).active ==> UnitOf(before, u).active
  {
    forall u | UnitOf(units, u).active ensures UnitOf(before, u).active {
      assert u == unit || (u !in [unit] && SameUnit(before, units, u));
    }
  }

  lemma Next(running: set<string>, log: seq<Call>, call: Call)
    ensures Through(running, log + [call]) == After(Through(running, log), call)
    ensures Started(running, log + [call])
            == Started(running, log) + if call.act.Up? && call.ok && call.act.unit !in Through(running, log)
              then [call.act.unit] else []
  {
    assert (log + [call])[..|log|] == log;
  }

  /** The stops of a pass, in stop order, and its starts and restarts, in start order. */
  function StopActs(names: seq<string>): seq<Act> { Downs(Sort(names, StopLe)) }
  function StartActs(names: seq<string>): seq<Act> { Ups(Sort(names, StartLe)) }

  /** The user's service manager; every call may fail, with or without effect. */
  class ServiceManager {
    var units: Units
    /** The stops, starts and restarts of an apply, and the stops of its rollback. */
    ghost var calls: seq<Call>
    ghost var back: seq<Call>

    constructor (units: Units)
      ensures this.units == units && calls == [] && back == []
    {
      this.units := units;
      calls, back := [], [];
    }

    method SetActive(unit: string, active: bool)
      modifies `units
      ensures units == old(units)[unit := UnitOf(old(units), unit).(active := active)]
      ensures Running(units) == if active then Running(old(units)) + {unit} else Running(old(units)) - {unit}
    {
      units := units[unit := UnitOf(units, unit).(active := active)];
    }

    method Stop(unit: string) returns (o: Outcome, ghost call: Call)
      modifies `units
      ensures ActivityOf(old(units), units, [unit])
      ensures UnitOf(units, unit).active ==> o.Raise? && UnitOf(old(units), unit).active
      ensures call.act == Down(unit) && call.ok == o.Pass? && Running(units) == After(Running(old(units)), call)
    {
      if * {
        SetActive(unit, false);
        return Pass, Call(Down(unit), true, false);
      }
      if * {
        SetActive(unit, false);
        return Raise, Call(Down(unit), false, false);
      }
      return Raise, Call(Down(unit), false, true);
    }

    /** `start` and `restart` alike: on success the unit runs; a failure may leave it either way. */
    method Start(unit: string) returns (o: Outcome, ghost call: Call)
      modifies `units
      ensures ActivityOf(old(units), units, [unit])
      ensures o.Pass? ==> UnitOf(units, unit).active
      ensures call.act == Up(unit) && call.ok == o.Pass? && Running(units) == After(Running(old(units)), call)
    {
      if * {
        SetActive(unit, true);
        return Pass, Call(Up(unit), true, true);
      }
      var active := *;
      SetActive(unit, active);
      return Raise, Call(Up(unit), false, active);
    }

    method SetEnabled(unit: string, enabled: bool) returns (o: Outcome)
      modifies `units
      ensures EnablementOf(old(units), units, [unit])
      ensures UnitOf(units, unit).enabled == enabled
              || (o.Raise? && UnitOf(units, unit).enabled == UnitOf(old(units), unit).enabled)
    {
      if * {
        units := units[unit := UnitOf(units, unit).(enabled := enabled)];
        return Pass;
      }
      if * { units := units[unit := UnitOf(units, unit).(enabled := enabled)]; }
      return Raise;
    }

    /** STOP operations in stop order. */
    method StopAll(names: seq<string>) returns (o: Outcome, ghost log: seq<Call>)
      modifies `units, `calls
      ensures ActivityOf(old(units), units, names)
      ensures forall u :: UnitOf(units, u).active ==> UnitOf(old(units), u).active
      ensures o.Pass? ==> forall u | u in names :: !UnitOf(units, u).active
      ensures calls == old(calls) + log && Running(units) == Through(Running(old(units)), log)
      ensures Performs(StopActs(names), log) && (o.Pass? ==> Completes(StopActs(names), log))
    {
      hide StopLe, UnitOf, After;
      var sorted := Sort(names, StopLe);
      ghost var acts := Downs(sorted);
      forall u ensures u in sorted <==> u in names { InSort(names, StopLe, u); }
      log := [];
      for i := 0 to |sorted|
        invariant ActivityOf(old(units), units, names)
        invariant forall u :: UnitOf(units, u).active ==> UnitOf(old(units), u).active
        invariant forall j | 0 <= j < i :: !UnitOf(units, sorted[j]).active
        invariant calls == old(calls) + log && Running(units) == Through(Running(old(units)), log)
        invariant Completes(acts[..i], log)
      {
        assert sorted[i] in names;
        ghost var before, call := units, Call(Down(sorted[i]), true, false);
        o, call := Stop(sorted[i]);
        ActivityMore(old(units), before, units, names, sorted[i]);
        OneStopped(before, units, sorted[i]);
        PerformsOne(acts, log, i, call);
        Next(Running(old(units)), log, call);
        calls, log := calls + [call], log + [call];
        if o.Raise? { return; }
      }
      assert acts[..|sorted|] == acts;
      return Pass, log;
    }

    /** Starts and restarts in the given order; `started` collects the units that were down. */
    method StartEach(order: seq<string>) returns (o: Outcome, started: seq<string>, ghost log: seq<Call>)
      modifies `units, `calls
      ensures ActivityOf(old(units), units, order)
      ensures forall u | u in started :: u in order
      ensures o.Pass? ==> forall u | UnitOf(old(units), u).active || u in order :: UnitOf(units, u).active
      ensures calls == old(calls) + log && Running(units) == Through(Running(old(units)), log)
      ensures Performs(Ups(order), log) && (o.Pass? ==> Completes(Ups(order), log))
      ensures started == Started(Running(old(units)), log)
    {
      hide UnitOf, After;
      ghost var acts := Ups(order);
      started, log := [], [];
      for i := 0 to |order|
        invariant ActivityOf(old(units), units, order)
        invariant forall u | u in started :: u in order
        invariant forall u | UnitOf(old(units), u).active || u in order[..i] :: UnitOf(units, u).active
        invariant calls == old(calls) + log && Running(units) == Through(Running(old(units)), log)
        invariant Completes(acts[..i], log) && started == Started(Running(old(units)), log)
      {
        var unit := order[i];
        ghost var before, call := units, Call(Up(unit), true, false);
        var down := !UnitOf(units, unit).active;
        o, call := Start(unit);
        ActivityMore(old(units), before, units, order, unit);
        PerformsOne(acts, log, i, call);
        Next(Running(old(units)), log, call);
        calls, log := calls + [call], log + [call];
        if o.Raise? { return; }
        if down { started := started + [unit]; }
        forall u | UnitOf(old(units), u).active || u in order[..i + 1] ensures UnitOf(units, u).active {
          if u != unit { assert SameUnit(before, units, u); }
        }
      }
      assert acts[..|order|] == acts;
      return Pass, started, log;
    }

    /** START and RESTART operations in start order. */
    method StartAll(names: seq<string>) returns (o: Outcome, started: seq<string>, ghost log: seq<Call>)
      modifies `units, `calls
      ensures ActivityOf(old(units), units, names)
      ensures forall u | u in started :: u in names
      ensures o.Pass? ==> forall u | UnitOf(old(units), u).active || u in names :: UnitOf(units, u).active
      ensures calls == old(calls) + log && Running(units) == Through(Running(old(units)), log)
      ensures Performs(StartActs(names), log) && (o.Pass? ==> Completes(StartActs(names), log))
      ensures started == Started(Running(old(units)), log)
    {
      hide StartLe, UnitOf, Performs, Completes;
      var sorted := Sort(names, StartLe);
      forall u ensures u in sorted <==> u in names { InSort(names, StartLe, u); }
      o, started, log := StartEach(sorted);
    }

    /** The first part of `_rollback`: newest first, started units are stopped, as far as that works. */
    method StopStarted(started: seq<string>)
      requires back == []
      modifies `units, `back
      ensures ActivityOf(old(units), units, started)
      ensures Undoes(started, back) && Running(units) == Through(Running(old(units)), back)
      ensures forall u | u in started ::
                !UnitOf(units, u).active || exists i | 0 <= i < |back| :: back[i].act == Down(u) && !back[i].ok
    {
      hide UnitOf, After;
      assert started[..|started|] == started;
      for i := |started| downto 0
        invariant ActivityOf(old(units), units, started) && Running(units) == Through(Running(old(units)), back)
        invariant |back| == |started| - i && forall j | 0 <= j < |back| ::
                    back[j].act == Down(started[|started| - 1 - j])
        invariant forall j | i <= j < |started| :: UnitOf(units, started[j]).active ==> !back[|started| - 1 - j].ok
      {
        var unit := started[i];
        ghost var before, call := units, Call(Down(unit), true, false);
        var o;
        o, call := Stop(unit);
        ActivityMore(old(units), before, units, started, unit);
        OneStopped(before, units, unit);
        Next(Running(old(units)), back, call);
        back := back + [call];
        forall j | i < j < |started| && UnitOf(units, started[j]).active ensures !back[|started| - 1 - j].ok {
          assert UnitOf(before, started[j]).active;
        }
      }
    }

    /** ENABLE or DISABLE operations; `done` lists the units enabled so far. */
    method SetEnabledAll(names: seq<string>, startOrder: bool, enabled: bool) returns (o: Outcome, done: seq<string>)
      modifies `units
      ensures EnablementOf(old(units), units, names)
      ensures o.Pass? ==> forall u | u in names :: UnitOf(units, u).enabled == enabled
      ensures forall u | u in done :: u in names
    {
      hide StartLe, StopLe, UnitOf;
      var sorted := Sort(names, if startOrder then StartLe else StopLe);
      forall u ensures u in sorted <==> u in names { InSort(names, if startOrder then StartLe else StopLe, u); }
      done := [];
      for i := 0 to |sorted|
        invariant EnablementOf(old(units), units, names)
        invariant forall j | 0 <= j < i :: UnitOf(units, sorted[j]).enabled == enabled
        invariant forall u | u in done :: u in names
      {
        ghost var before := units;
        assert sorted[i] in names;
        o := SetEnabled(sorted[i], enabled);
        EnablementMore(old(units), before, units, names, sorted[i]);
        forall j | 0 <= j < i
          ensures UnitOf(units, sorted[j]).enabled == enabled
        { assert sorted[j] != sorted[i] ==> SameUnit(before, units, sorted[j]); }
        if o.Raise? { return; }
        done := done + [sorted[i]];
      }
      return Pass, done;
    }

    /** The second part of `_rollback`: enabled units are disabled, as far as that works. */
    method DisableEnabled(enabled: seq<string>)
      modifies `units
      ensures EnablementOf(old(units), units, enabled)
    {
      hide UnitOf;
      for i := |enabled| downto 0
        invariant EnablementOf(old(units), units, enabled)
      {
        ghost var before := units;
        var _ := SetEnabled(enabled[i], false);
        EnablementMore(old(units), before, units, enabled, enabled[i]);
      }
    }
  }
}
