/** Runs of unit operations (`host_apply.py`): the stops, starts and restarts an apply and its
    rollback ask for, with whatever outcome, and when the tunnel keeps its MCP server through
    all of them. */
module UnitRuns {

  /** `Up` stands for a start and for a restart. */
  datatype Act = Down(unit: string) | Up(unit: string)

  /** One call of the service manager: whether it succeeded and, if not, whether the unit runs after it. */
  datatype Call = Call(act: Act, ok: bool, active: bool)

  /** The units that run after a call: a failed one may have had its effect all the same, and a
      failed restart may leave a running unit down. */
  function After(running: set<string>, c: Call): set<string> {
    var u := c.act.unit;
    match c.act
    case Down(_) => if c.ok || !c.active then running - {u} else running
    case Up(_) => if c.ok || c.active then running + {u} else running - {u}
  }

  function Through(running: set<string>, calls: seq<Call>): set<string> {
    if calls == [] then running else After(Through(running, calls[..|calls| - 1]), calls[|calls| - 1])
  }

  /** `started_units`: successful starts of units that were down, oldest first. */
  function Started(running: set<string>, calls: seq<Call>): seq<string> {
    if calls == [] then []
    else
      var before, c := calls[..|calls| - 1], calls[|calls| - 1];
      Started(running, before)
      + if c.act.Up? && c.ok && c.act.unit !in Through(running, before) then [c.act.unit] else []
  }

  /** The calls follow the list; the first failure is the last call. */
  ghost predicate Performs(acts: seq<Act>, calls: seq<Call>) {
    && |calls| <= |acts|
    && (forall i | 0 <= i < |calls| :: calls[i].act == acts[i])
    && (forall i | 0 <= i < |calls| - 1 :: calls[i].ok)
  }

  ghost predicate Completes(acts: seq<Act>, calls: seq<Call>) {
    Performs(acts, calls) && |calls| == |acts| && forall i | 0 <= i < |calls| :: calls[i].ok
  }

  /** The stops of a rollback: newest start first, whatever comes of each. */
  ghost predicate Undoes(started: seq<string>, back: seq<Call>) {
    |back| == |started| && forall i | 0 <= i < |back| :: back[i].act == Down(started[|started| - 1 - i])
  }

  /** The unit calls of one apply: some of its list, then perhaps those of its rollback. */
  ghost predicate UnitRun(running: set<string>, acts: seq<Act>, calls: seq<Call>, back: seq<Call>) {
    Performs(acts, calls) && (back == [] || Undoes(Started(running, calls), back))
  }

  /** An active tunnel has an active MCP server behind it. */
  predicate Tethered(running: set<string>, mcp: string, tunnel: string) { tunnel in running ==> mcp in running }

  /** After each call of the run. */
  ghost predicate StaysTethered(running: set<string>, calls: seq<Call>, mcp: string, tunnel: string) {
    forall k | 0 <= k <= |calls| :: Tethered(Through(running, calls[..k]), mcp, tunnel)
  }

  function Downs(units: seq<string>): (r: seq<Act>)
    ensures |r| == |units| && forall i | 0 <= i < |r| :: r[i] == Down(units[i])
  {
    seq(|units|, i requires 0 <= i < |units| => Down(units[i]))
  }

  function Ups(units: seq<string>): (r: seq<Act>)
    ensures |r| == |units| && forall i | 0 <= i < |r| :: r[i] == Up(units[i])
  {
    seq(|units|, i requires 0 <= i < |units| => Up(units[i]))
  }

  // ---- runs in parts ----

  lemma {:induction false} ThroughParts(running: set<string>, a: seq<Call>, b: seq<Call>)
    ensures Through(running, a + b) == Through(Through(running, a), b)
    decreases |b|
  {
    if b == [] {
      assert a + b == a;
    } else {
      assert (a + b)[..|a + b| - 1] == a + b[..|b| - 1];
      ThroughParts(running, a, b[..|b| - 1]);
    }
  }

  lemma {:induction false} StartedParts(running: set<string>, a: seq<Call>, b: seq<Call>)
    ensures Started(running, a + b) == Started(running, a) + Started(Through(running, a), b)
    decreases |b|
  {
    if b == [] {
      assert a + b == a;
    } else {
      assert (a + b)[..|a + b| - 1] == a + b[..|b| - 1];
      StartedParts(running, a, b[..|b| - 1]);
      ThroughParts(running, a, b[..|b| - 1]);
    }
  }

  lemma RunParts(running: set<string>, a: seq<Act>, b: seq<Act>, x: seq<Call>, y: seq<Call>)
    requires Completes(a, x) && Performs(b, y)
    ensures Performs(a + b, x + y) && (Completes(b, y) ==> Completes(a + b, x + y))
    ensures Through(running, x + y) == Through(Through(running, x), y)
    ensures Started(running, x + y) == Started(running, x) + Started(Through(running, x), y)
  {
    ThroughParts(running, x, y);
    StartedParts(running, x, y);
  }

  lemma {:induction false} StopsStartNothing(running: set<string>, calls: seq<Call>)
    requires forall i | 0 <= i < |calls| :: calls[i].act.Down?
    ensures Started(running, calls) == []
  {
    if calls != [] { StopsStartNothing(running, calls[..|calls| - 1]); }
  }

  lemma PerformsFirst(a: seq<Act>, b: seq<Act>, x: seq<Call>)
    requires Performs(a, x)
    ensures Performs(a + b, x)
  {
  }

  lemma PerformsOne(acts: seq<Act>, calls: seq<Call>, i: nat, c: Call)
    requires i < |acts| && Completes(acts[..i], calls) && c.act == acts[i]
    ensures Performs(acts, calls + [c])
    ensures c.ok ==> Completes(acts[..i + 1], calls + [c])
  {
  }

  /** A unit that ran before each of its starts is not on the list of started ones. */
  lemma {:induction false} NeverStarted(running: set<string>, calls: seq<Call>, u: string)
    requires forall i | 0 <= i < |calls| && calls[i].act == Up(u) :: u in Through(running, calls[..i])
    ensures u !in Started(running, calls)
  {
    if calls != [] {
      var last := |calls| - 1;
      var before := calls[..last];
      forall i | 0 <= i < |before| && before[i].act == Up(u) ensures u in Through(running, before[..i]) {
        assert calls[i] == before[i] && calls[..i] == before[..i];
      }
      NeverStarted(running, before, u);
    }
  }

  // ---- runs that keep the order ----

  /** A rollback that does not stop the MCP server cannot strand the tunnel. */
  lemma {:induction false} StopsKeepTether(running: set<string>, back: seq<Call>, mcp: string, tunnel: string)
    requires Tethered(running, mcp, tunnel) && forall i | 0 <= i < |back| ::
               back[i].act.Down? && back[i].act.unit != mcp
    ensures Tethered(Through(running, back), mcp, tunnel) && StaysTethered(running, back, mcp, tunnel)
  {
    if back == [] {
    } else {
      var before := back[..|back| - 1];
      StopsKeepTether(running, before, mcp, tunnel);
      forall k | 0 <= k <= |back| ensures Tethered(Through(running, back[..k]), mcp, tunnel) {
        if k == |back| {
          assert back[..k] == back;
          assert Through(running, before[..|before|])
            == Through(running, before) by { assert before[..|before|] == before; }
        } else {
          assert back[..k] == before[..k];
        }
      }
    }
  }

  lemma StaysTogether(running: set<string>, calls: seq<Call>, back: seq<Call>, mcp: string, tunnel: string)
    requires StaysTethered(running, calls, mcp, tunnel) && StaysTethered(Through(running, calls), back, mcp, tunnel)
    ensures StaysTethered(running, calls + back, mcp, tunnel)
  {
    var all := calls + back;
    forall k | 0 <= k <= |all| ensures Tethered(Through(running, all[..k]), mcp, tunnel) {
      if k <= |calls| {
        assert all[..k] == calls[..k];
      } else {
        assert all[..k] == calls + back[..k - |calls|];
        ThroughParts(running, calls, back[..k - |calls|]);
      }
    }
  }

  /** Calls that keep the tether, none of them a start of the MCP server from below, and any rollback. */
  lemma WithRollback(running: set<string>, acts: seq<Act>, calls: seq<Call>, back: seq<Call>, mcp: string,
      tunnel: string)
    requires UnitRun(running, acts, calls, back) && StaysTethered(running, calls, mcp, tunnel)
    requires mcp !in Started(running, calls)
    ensures StaysTethered(running, calls + back, mcp, tunnel)
  {
    assert calls[..|calls|] == calls;
    assert Tethered(Through(running, calls), mcp, tunnel);
    forall i | 0 <= i < |back| ensures back[i].act.Down? && back[i].act.unit != mcp {
      var started := Started(running, calls);
      assert back[i].act == Down(started[|started| - 1 - i]);
    }
    StopsKeepTether(Through(running, calls), back, mcp, tunnel);
    StaysTogether(running, calls, back, mcp, tunnel);
  }

  /** A list that starts neither core unit and stops the tunnel before the MCP server. */
  ghost predicate TunnelFirst(running: set<string>, acts: seq<Act>, mcp: string, tunnel: string) {
    && Up(mcp) !in acts && Up(tunnel) !in acts
    && forall i | 0 <= i < |acts| && acts[i] == Down(mcp) && tunnel in running :: exists j | 0 <= j < i ::
       acts[j] == Down(tunnel)
  }

  lemma {:induction false} QuietPrefix(running: set<string>, acts: seq<Act>, calls: seq<Call>, mcp: string,
      tunnel: string, k: nat)
    requires Performs(acts, calls) && TunnelFirst(running, acts, mcp, tunnel) && Tethered(running, mcp, tunnel)
    requires mcp != tunnel
    requires k <= |calls|
    ensures Tethered(Through(running, calls[..k]), mcp, tunnel)
    ensures (tunnel in Through(running, calls[..k]) ==> tunnel in running)
    ensures forall j | 0 <= j < k && acts[j] == Down(tunnel) && calls[j].ok :: tunnel !in Through(running, calls[..k])
    decreases k
  {
    if k > 0 {
      QuietPrefix(running, acts, calls, mcp, tunnel, k - 1);
      var now := calls[..k];
      assert now[..k - 1] == calls[..k - 1] && now[k - 1] == calls[k - 1];
      assert acts[k - 1] in acts;
    }
  }

  lemma QuietKeeps(running: set<string>, acts: seq<Act>, calls: seq<Call>, back: seq<Call>, mcp: string, tunnel: string)
    requires UnitRun(running, acts, calls, back) && TunnelFirst(running, acts, mcp, tunnel)
    requires Tethered(running, mcp, tunnel) && mcp != tunnel
    ensures StaysTethered(running, calls + back, mcp, tunnel)
  {
    forall k | 0 <= k <= |calls| ensures Tethered(Through(running, calls[..k]), mcp, tunnel) {
      QuietPrefix(running, acts, calls, mcp, tunnel, k);
    }
    forall i | 0 <= i < |calls| ensures calls[i].act != Up(mcp) { assert acts[i] in acts; }
    NeverStarted(running, calls, mcp);
    WithRollback(running, acts, calls, back, mcp, tunnel);
  }

  /** A list that stops no core unit and brings the MCP server up only before a tunnel that is down. */
  ghost predicate ServerFirst(running: set<string>, acts: seq<Act>, mcp: string, tunnel: string) {
    && Down(mcp) !in acts && Down(tunnel) !in acts
    && (Up(mcp) in acts ==> tunnel !in running)
    && forall i, j | 0 <= i < |acts| && 0 <= j < |acts| && acts[i] == Up(mcp) && acts[j] == Up(tunnel) :: i < j
  }

  lemma {:induction false} RunningPrefix(running: set<string>, acts: seq<Act>, calls: seq<Call>, mcp: string,
      tunnel: string, k: nat)
    requires Performs(acts, calls) && ServerFirst(running, acts, mcp, tunnel) && mcp in running && mcp != tunnel
    requires k <= |calls|
    ensures mcp in Through(running, calls[..k])
            || (k > 0 && !calls[k - 1].ok && tunnel !in Through(running, calls[..k]))
    ensures tunnel in Through(running, calls[..k]) ==>
              tunnel in running || exists j | 0 <= j < k :: acts[j] == Up(tunnel)
    decreases k
  {
    if k > 0 {
      RunningPrefix(running, acts, calls, mcp, tunnel, k - 1);
      var now := calls[..k];
      assert now[..k - 1] == calls[..k - 1] && now[k - 1] == calls[k - 1];
      assert acts[k - 1] in acts && calls[k - 1].act == acts[k - 1];
      assert k > 1 ==> calls[k - 2].ok;
      if acts[k - 1] == Up(tunnel) { assert exists j | 0 <= j < k :: acts[j] == Up(tunnel); }
    }
  }

  lemma RunningKeeps(running: set<string>, acts: seq<Act>, calls: seq<Call>, back: seq<Call>, mcp: string,
      tunnel: string)
    requires UnitRun(running, acts, calls, back) && ServerFirst(running, acts, mcp, tunnel) && mcp in running
    requires mcp != tunnel
    ensures StaysTethered(running, calls + back, mcp, tunnel)
  {
    forall k | 0 <= k <= |calls| ensures Tethered(Through(running, calls[..k]), mcp, tunnel) {
      RunningPrefix(running, acts, calls, mcp, tunnel, k);
    }
    forall i | 0 <= i < |calls| && calls[i].act == Up(mcp) ensures mcp in Through(running, calls[..i]) {
      RunningPrefix(running, acts, calls, mcp, tunnel, i);
    }
    NeverStarted(running, calls, mcp);
    WithRollback(running, acts, calls, back, mcp, tunnel);
  }

  // ---- runs that break it ----

  function AllWell(acts: seq<Act>): (r: seq<Call>)
    ensures |r| == |acts| && forall i | 0 <= i < |r| :: r[i] == Call(acts[i], true, false)
  {
    seq(|acts|, i requires 0 <= i < |acts| => Call(acts[i], true, false))
  }

  lemma WellCompletes(acts: seq<Act>)
    ensures Completes(acts, AllWell(acts))
  {
  }

  /** A unit that is up, or is brought up, and is not stopped, runs in the end. */
  lemma {:induction false} WellRuns(running: set<string>, acts: seq<Act>, u: string)
    requires Down(u) !in acts && (u in running || Up(u) in acts)
    ensures u in Through(running, AllWell(acts))
  {
    if acts != [] {
      var last := |acts| - 1;
      assert AllWell(acts)[..last] == AllWell(acts[..last]);
      assert acts[last] in acts;
      if acts[last] != Up(u) {
        forall x | x in acts[..last] ensures x in acts {}
        if Up(u) in acts {
          var i :| 0 <= i < |acts| && acts[i] == Up(u);
          assert acts[..last][i] == Up(u);
        }
        WellRuns(running, acts[..last], u);
      }
    }
  }

  /** A unit that is down and brought up on the way is on the list of started ones; one never brought up is not. */
  lemma {:induction false} WellStarts(running: set<string>, acts: seq<Act>, u: string)
    requires u !in running
    ensures Up(u) in acts ==> u in Started(running, AllWell(acts))
    ensures Up(u) !in acts ==> u !in Started(running, AllWell(acts)) && u !in Through(running, AllWell(acts))
  {
    if acts != [] {
      var last := |acts| - 1;
      var before := acts[..last];
      assert AllWell(acts)[..last] == AllWell(before);
      assert acts == before + [acts[last]];
      WellStarts(running, before, u);
    }
  }

  /** The server fails to come back under an active tunnel. */
  lemma RestartBreaks(running: set<string>, acts: seq<Act>, mcp: string, tunnel: string, k: nat)
    returns (calls: seq<Call>)
    requires k < |acts| && acts[k] == Up(mcp) && mcp != tunnel && tunnel in Through(running, AllWell(acts[..k]))
    ensures UnitRun(running, acts, calls, []) && !StaysTethered(running, calls + [], mcp, tunnel)
  {
    WellCompletes(acts[..k]);
    var well, c := AllWell(acts[..k]), Call(Up(mcp), false, false);
    PerformsOne(acts, well, k, c);
    calls := well + [c];
    assert calls[..|calls| - 1] == well;
    assert (calls + [])[..|calls|] == calls;
    assert !Tethered(Through(running, calls), mcp, tunnel);
  }

  function Unwinding(started: seq<string>): (back: seq<Call>)
    ensures Undoes(started, back) && forall i | 0 <= i < |back| :: back[i].ok
  {
    seq(|started|, i requires 0 <= i < |started| => Call(Down(started[|started| - 1 - i]), true, false))
  }

  lemma {:induction false} StopsTake(running: set<string>, back: seq<Call>, u: string)
    requires forall i | 0 <= i < |back| :: back[i].act.Down? && back[i].ok
    ensures u in Through(running, back) <==> u in running && forall i | 0 <= i < |back| :: back[i].act.unit != u
  {
    if back != [] { StopsTake(running, back[..|back| - 1], u); }
  }

  /** The server came up, the start of the tunnel fails and yet leaves it active, and the
      rollback stops the server only. */
  lemma StartBreaks(running: set<string>, acts: seq<Act>, mcp: string, tunnel: string, k: nat)
    returns (calls: seq<Call>, back: seq<Call>)
    requires k < |acts| && acts[k] == Up(tunnel) && Up(tunnel) !in acts[..k] && Up(mcp) in acts[..k]
    requires mcp !in running && tunnel !in running && mcp != tunnel
    ensures UnitRun(running, acts, calls, back) && !StaysTethered(running, calls + back, mcp, tunnel)
  {
    WellCompletes(acts[..k]);
    WellStarts(running, acts[..k], mcp);
    WellStarts(running, acts[..k], tunnel);
    var well, c := AllWell(acts[..k]), Call(Up(tunnel), false, true);
    PerformsOne(acts, well, k, c);
    calls := well + [c];
    assert calls[..|calls| - 1] == well;
    var started := Started(running, calls);
    assert started == Started(running, well) + [];
    back := Unwinding(started);
    StopsTake(Through(running, calls), back, mcp);
    StopsTake(Through(running, calls), back, tunnel);
    assert mcp in started;
    var i :| 0 <= i < |started| && started[i] == mcp;
    assert back[|started| - 1 - i].act.unit == mcp;
    ThroughParts(running, calls, back);
    assert (calls + back)[..|calls + back|] == calls + back;
    assert !Tethered(Through(running, calls + back), mcp, tunnel);
  }
}
