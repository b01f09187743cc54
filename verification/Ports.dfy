/** Port recommendation, the collision projection of a candidate, and the gate before a registry
    write (`PortProjectionService`, `registry-write`). */
module Ports {
  import opened Text
  import opened Endpoint

  // ---- collisions with a pool of endpoints ----

  ghost predicate Hits(lib: Library, e: Endpoint, pool: seq<Endpoint>) {
    exists x | x in pool :: Overlap(lib, e, x) == Some(true)
  }

  ghost predicate Doubts(lib: Library, e: Endpoint, pool: seq<Endpoint>) {
    exists x | x in pool :: Overlap(lib, e, x).None?
  }

  ghost predicate Free(lib: Library, e: Endpoint, pool: seq<Endpoint>) {
    forall x | x in pool :: Overlap(lib, e, x) == Some(false)
  }

  lemma Answers(o: Option<bool>)
    ensures o in {Some(true), Some(false), None}
  {
    if o.Some? { assert o.value || !o.value; }
  }

  /** `endpoint_conflicts`. */
  method Conflicts(lib: Library, e: Endpoint, pool: seq<Endpoint>) returns (conflicts: seq<Endpoint>, unknown: bool)
    ensures forall x :: x in conflicts <==> x in pool && Overlap(lib, e, x) == Some(true)
    ensures conflicts != [] <==> Hits(lib, e, pool)
    ensures unknown <==> Doubts(lib, e, pool)
    ensures conflicts == [] && !unknown <==> Free(lib, e, pool)
  {
    hide Overlap;
    conflicts, unknown := [], false;
    for i := 0 to |pool|
      invariant forall x :: x in conflicts <==> x in pool[..i] && Overlap(lib, e, x) == Some(true)
      invariant unknown <==> Doubts(lib, e, pool[..i])
    {
      var overlap := Overlap(lib, e, pool[i]);
      assert pool[..i + 1] == pool[..i] + [pool[i]];
      if overlap == Some(true) {
        conflicts := conflicts + [pool[i]];
      } else if overlap.None? {
        assert pool[i] in pool[..i + 1];
        unknown := true;
      }
    }
    assert pool[..|pool|] == pool;
    if conflicts != [] { assert conflicts[0] in conflicts; }
    forall x | x in pool ensures Overlap(lib, e, x) in {Some(true), Some(false), None} { Answers(Overlap(lib, e, x)); }
  }

  // ---- the registry and the listeners ----

  /** A declaration; `rest` stands for everything that is not an endpoint. */
  datatype Declaration = Declaration(id: string, mcpHost: string, mcpPort: nat, healthHost: string, healthPort: nat,
    rest: nat)

  function McpOf(d: Declaration): Endpoint { Endpoint(d.mcpHost, d.mcpPort, Mcp, Some(d.id), false) }
  function HealthOf(d: Declaration): Endpoint { Endpoint(d.healthHost, d.healthPort, Health, Some(d.id), false) }

  /** `declared`. */
  function Declared(registry: seq<Declaration>): (es: seq<Endpoint>)
    ensures |es| == 2 * |registry|
    ensures forall i | 0 <= i < |registry| :: es[2 * i] == McpOf(registry[i]) && es[2 * i + 1] == HealthOf(registry[i])
  {
    if registry == [] then [] else [McpOf(registry[0]), HealthOf(registry[0])] + Declared(registry[1..])
  }

  lemma DeclaredHas(registry: seq<Declaration>, d: Declaration)
    requires d in registry
    ensures McpOf(d) in Declared(registry) && HealthOf(d) in Declared(registry)
  {
    var i :| 0 <= i < |registry| && registry[i] == d;
    var es := Declared(registry);
    assert es[2 * i] == McpOf(d) && es[2 * i + 1] == HealthOf(d);
  }

  datatype Listening = Available | Partial | Unavailable

  datatype Observation = Observation(state: Listening, listeners: seq<Endpoint>)

  const MCP_RANGE: (nat, nat) := (7654, 8000)
  const HEALTH_RANGE: (nat, nat) := (7070, 7500)

  function RangeOf(purpose: Purpose): (nat, nat) { if purpose == Mcp then MCP_RANGE else HEALTH_RANGE }

  function Candidate(host: string, port: nat, purpose: Purpose): Endpoint { Endpoint(host, port, purpose, None, false) }

  /** `recommend`: the first port of the range that is provably free, if there is one. */
  method Recommend(lib: Library, purpose: Purpose, host: string, pool: seq<Endpoint>) returns (selected: Option<nat>)
    ensures selected.Some? ==> RangeOf(purpose).0 <= selected.value < RangeOf(purpose).1
    ensures selected.Some? ==> Free(lib, Candidate(host, selected.value, purpose), pool)
    ensures forall port | RangeOf(purpose).0 <= port < RangeOf(purpose).1
            && (selected.Some? ==> port < selected.value) ::
              !Free(lib, Candidate(host, port, purpose), pool)
  {
    hide Free, Hits, Doubts;
    selected := None;
    var (from, to) := RangeOf(purpose);
    for port := from to to
      invariant forall p | from <= p < port :: !Free(lib, Candidate(host, p, purpose), pool)
    {
      var conflicts, unknown := Conflicts(lib, Candidate(host, port, purpose), pool);
      if conflicts == [] && !unknown { return Some(port); }
    }
  }

  // ---- the projection of a candidate ----

  /** The endpoints of a candidate declaration; a port that is still open gives none. */
  datatype Draft = Draft(id: string, mcp: Option<Endpoint>, health: Option<Endpoint>)

  function EndpointsOf(c: Draft): seq<Endpoint> {
    (if c.mcp.Some? then [c.mcp.value] else []) + (if c.health.Some? then [c.health.value] else [])
  }

  function DraftOf(d: Declaration): Draft {
    Draft(d.id, Some(Candidate(d.mcpHost, d.mcpPort, Mcp)), Some(Candidate(d.healthHost, d.healthPort, Health)))
  }

  predicate SameSpot(lib: Library, a: Endpoint, b: Endpoint) {
    a.port == b.port && NormalHost(lib, a.host) == NormalHost(lib, b.host)
  }

  function Current(registry: seq<Declaration>, id: string): Option<Declaration> {
    if id == "" || registry == [] then None
    else if registry[0].id == id then Some(registry[0]) else Current(registry[1..], id)
  }

  /** The candidate's endpoint is the one its own declaration already has. */
  predicate Unchanged(lib: Library, registry: seq<Declaration>, id: string, e: Endpoint) {
    var current := Current(registry, id);
    current.Some? && SameSpot(lib, if e.purpose == Mcp then McpOf(current.value) else HealthOf(current.value), e)
  }

  function Others(lib: Library, e: Endpoint, pool: seq<Endpoint>): seq<Endpoint> {
    if pool == [] then []
    else (if SameSpot(lib, pool[0], e) then [pool[0]] else []) + Others(lib, e, pool[1..])
  }

  /** `_attribute_observed`: a listener at exactly one declared endpoint belongs to its instance. */
  function Attributed(lib: Library, declared: seq<Endpoint>, listener: Endpoint): Endpoint {
    var exact := Others(lib, listener, declared);
    if |exact| == 1 then listener.(purpose := exact[0].purpose, owner := exact[0].owner) else listener
  }

  function WithoutOwner(es: seq<Endpoint>, id: string): seq<Endpoint> {
    if es == [] then []
    else (if id != "" && es[0].owner == Some(id) then [] else [es[0]]) + WithoutOwner(es[1..], id)
  }

  lemma {:induction false} InWithoutOwner(es: seq<Endpoint>, id: string, e: Endpoint)
    ensures e in WithoutOwner(es, id) <==> e in es && (id == "" || e.owner != Some(id))
  {
    if es != [] { InWithoutOwner(es[1..], id, e); }
  }

  /** A listener that need not be looked at: the candidate's own, where nothing changes. */
  predicate Excused(lib: Library, registry: seq<Declaration>, id: string, e: Endpoint, listener: Endpoint) {
    Unchanged(lib, registry, id, e) && Attributed(lib, Declared(registry), listener).owner == Some(id)
  }

  datatype Collision = Conflicting | Undecided | Clear

  /** What an endpoint of the candidate is compared with. */
  ghost predicate Compared(lib: Library, registry: seq<Declaration>, seen: Observation, c: Draft, i: int, x: Endpoint) {
    && 0 <= i < |EndpointsOf(c)|
    && (x in WithoutOwner(Declared(registry), c.id)
        || (exists j | 0 <= j < |EndpointsOf(c)| && j != i :: EndpointsOf(c)[j] == x)
        || (x in seen.listeners && !Excused(lib, registry, c.id, EndpointsOf(c)[i], x)))
  }

  function Internal(es: seq<Endpoint>, i: nat): seq<Endpoint>
    requires i < |es|
  {
    es[..i] + es[i + 1..]
  }

  lemma InInternal(es: seq<Endpoint>, i: nat, x: Endpoint)
    requires i < |es|
    ensures x in Internal(es, i) <==> exists j | 0 <= j < |es| && j != i :: es[j] == x
  {
    var r := Internal(es, i);
    if x in r {
      var k :| 0 <= k < |r| && r[k] == x;
      assert es[if k < i then k else k + 1] == x;
    }
    if j :| 0 <= j < |es| && j != i && es[j] == x {
      assert r[if j < i then j else j - 1] == x;
    }
  }

  ghost predicate HitAt(lib: Library, registry: seq<Declaration>, seen: Observation, c: Draft, i: int) {
    exists x | Compared(lib, registry, seen, c, i, x) :: Overlap(lib, EndpointsOf(c)[i], x) == Some(true)
  }

  ghost predicate DoubtAt(lib: Library, registry: seq<Declaration>, seen: Observation, c: Draft, i: int) {
    && 0 <= i < |EndpointsOf(c)|
    && ((exists x | Compared(lib, registry, seen, c, i, x) :: Overlap(lib, EndpointsOf(c)[i], x).None?)
        || (seen.state != Available && !Unchanged(lib, registry, c.id, EndpointsOf(c)[i])))
  }

  /** One endpoint of the candidate against the other declarations, its twin and the listeners. */
  method Compare(lib: Library, registry: seq<Declaration>, seen: Observation, c: Draft, i: nat)
    returns (hit: bool, doubt: bool)
    requires i < |EndpointsOf(c)|
    ensures hit <==> HitAt(lib, registry, seen, c, i)
    ensures doubt <==> DoubtAt(lib, registry, seen, c, i)
  {
    hide Overlap, Excused, Unchanged, WithoutOwner, Declared, Internal, EndpointsOf;
    var es := EndpointsOf(c);
    var e := es[i];
    var pool := WithoutOwner(Declared(registry), c.id) + Internal(es, i);
    var conflicts, unknown := Conflicts(lib, e, pool);
    hit, doubt := conflicts != [], unknown;
    forall x
      ensures x in Internal(es, i) <==> exists j | 0 <= j < |es| && j != i :: es[j] == x
    { InInternal(es, i, x); }
    for k := 0 to |seen.listeners|
      invariant hit
                <==> Hits(lib, e, pool) || exists x | x in seen.listeners[..k] && !Excused(lib, registry, c.id, e, x) ::
                  Overlap(lib, e, x) == Some(true)
      invariant doubt
                <==> Doubts(lib, e, pool) || exists x | x in seen.listeners[..k]
                  && !Excused(lib, registry, c.id, e, x) :: Overlap(lib, e, x).None?
    {
      var x := seen.listeners[k];
      assert seen.listeners[..k + 1] == seen.listeners[..k] + [x];
      if !Excused(lib, registry, c.id, e, x) {
        var overlap := Overlap(lib, e, x);
        if overlap == Some(true) { hit := true; } else if overlap.None? { doubt := true; }
      }
    }
    assert seen.listeners[..|seen.listeners|] == seen.listeners;
    if seen.state != Available && !Unchanged(lib, registry, c.id, e) { doubt := true; }
  }

  /** `candidate_projection`. */
  method Project(lib: Library, registry: seq<Declaration>, seen: Observation, c: Draft) returns (state: Collision)
    ensures state == Projected(lib, registry, seen, c)
  {
    hide HitAt, DoubtAt;
    var conflict, unknown := false, false;
    for i := 0 to |EndpointsOf(c)|
      invariant conflict <==> exists j | 0 <= j < i :: HitAt(lib, registry, seen, c, j)
      invariant unknown <==> exists j | 0 <= j < i :: DoubtAt(lib, registry, seen, c, j)
    {
      var hit, doubt := Compare(lib, registry, seen, c, i);
      conflict := conflict || hit;
      unknown := unknown || doubt;
    }
    return if conflict then Conflicting else if unknown then Undecided else Clear;
  }

  /** A conflict when some endpoint provably collides; otherwise undecided while anything is. */
  ghost function Projected(lib: Library, registry: seq<Declaration>, seen: Observation, c: Draft): Collision {
    if exists i | 0 <= i < |EndpointsOf(c)| :: HitAt(lib, registry, seen, c, i) then Conflicting
    else if exists i | 0 <= i < |EndpointsOf(c)| :: DoubtAt(lib, registry, seen, c, i) then Undecided
    else Clear
  }

  /** The endpoint is provably apart from everything it is compared with, and where it changes
      the listeners are known. */
  ghost predicate ClearAt(lib: Library, registry: seq<Declaration>, seen: Observation, c: Draft, i: int)
    requires 0 <= i < |EndpointsOf(c)|
  {
    && (forall x | Compared(lib, registry, seen, c, i, x) :: Overlap(lib, EndpointsOf(c)[i], x) == Some(false))
    && (seen.state == Available || Unchanged(lib, registry, c.id, EndpointsOf(c)[i]))
  }

  lemma ClearAtExactly(lib: Library, registry: seq<Declaration>, seen: Observation, c: Draft, i: int)
    requires 0 <= i < |EndpointsOf(c)|
    ensures ClearAt(lib, registry, seen, c, i)
            <==> !HitAt(lib, registry, seen, c, i) && !DoubtAt(lib, registry, seen, c, i)
  {
    hide Overlap, Unchanged, Compared, EndpointsOf;
    var e := EndpointsOf(c)[i];
    forall x ensures Overlap(lib, e, x) in {Some(true), Some(false), None} { Answers(Overlap(lib, e, x)); }
    if !ClearAt(lib, registry, seen, c, i) && (seen.state == Available || Unchanged(lib, registry, c.id, e)) {
      var x :| Compared(lib, registry, seen, c, i, x) && Overlap(lib, e, x) != Some(false);
      assert Overlap(lib, e, x) == Some(true) || Overlap(lib, e, x).None?;
    }
  }

  /** A candidate is clear exactly when each of its endpoints is. */
  lemma ClearExactly(lib: Library, registry: seq<Declaration>, seen: Observation, c: Draft)
    ensures Projected(lib, registry, seen, c) == Clear
            <==> forall i | 0 <= i < |EndpointsOf(c)| :: ClearAt(lib, registry, seen, c, i)
  {
    hide HitAt, DoubtAt, ClearAt, EndpointsOf;
    forall i | 0 <= i < |EndpointsOf(c)|
      ensures ClearAt(lib, registry, seen, c, i)
              <==> !HitAt(lib, registry, seen, c, i) && !DoubtAt(lib, registry, seen, c, i)
    {
      ClearAtExactly(lib, registry, seen, c, i);
    }
  }

  // ---- recommended pairs ----

  /** What `recommend` compares with. */
  function Pool(registry: seq<Declaration>, seen: Observation, exclude: seq<Endpoint>): seq<Endpoint> {
    Declared(registry) + seen.listeners + exclude
  }

  ghost predicate Recommended(lib: Library, registry: seq<Declaration>, seen: Observation, c: Draft) {
    && (c.mcp.Some? ==> Free(lib, c.mcp.value, Pool(registry, seen, [])))
    && (c.health.Some? ==> Free(lib, c.health.value, Pool(registry, seen, if c.mcp.Some? then [c.mcp.value] else [])))
  }

  /** An unedited pair of recommendations is clear, whatever id the candidate takes, when the
      listeners are known. */
  lemma RecommendedIsClear(lib: Library, registry: seq<Declaration>, seen: Observation, c: Draft)
    requires Recommended(lib, registry, seen, c) && seen.state == Available
    ensures Projected(lib, registry, seen, c) == Clear
  {
    hide Overlap, Declared, WithoutOwner, Excused;
    ClearExactly(lib, registry, seen, c);
    var es := EndpointsOf(c);
    forall i, x | 0 <= i < |es| && Compared(lib, registry, seen, c, i, x)
      ensures Overlap(lib, es[i], x) == Some(false)
    {
      InWithoutOwner(Declared(registry), c.id, x);
      if x !in Declared(registry) && x !in seen.listeners {
        assert |es| == 2 && es == [c.mcp.value, c.health.value];
        OverlapSymmetric(lib, c.mcp.value, c.health.value);
        assert c.mcp.value in Pool(registry, seen, [c.mcp.value]);
      }
    }
  }

  // ---- the registry ----

  ghost predicate DistinctIds(registry: seq<Declaration>) {
    forall i, j | 0 <= i < j < |registry| :: registry[i].id != registry[j].id
  }

  function EndsOf(d: Declaration): seq<Endpoint> { [McpOf(d), HealthOf(d)] }

  /** All declared endpoints are pairwise provably disjoint. */
  ghost predicate Disjoint(lib: Library, registry: seq<Declaration>) {
    forall d, e, x, y | d in registry && e in registry && x in EndsOf(d) && y in EndsOf(e) && x != y ::
      Overlap(lib, x, y) == Some(false)
  }

  datatype Step =
    /** `registry-write`, `accepted` by the checks of the registry. */
    | Write(d: Declaration, seen: Observation, accepted: bool)
    | Edit(id: string, rest: nat)                               // access edit, lifecycle change or upgrade

  function Replace(registry: seq<Declaration>, d: Declaration): (r: seq<Declaration>)
    ensures |r| == |registry|
    ensures forall i | 0 <= i < |r| :: r[i] == if registry[i].id == d.id then d else registry[i]
  {
    if registry == [] then []
    else [if registry[0].id == d.id then d else registry[0]] + Replace(registry[1..], d)
  }

  predicate Known(registry: seq<Declaration>, id: string) { exists i | 0 <= i < |registry| :: registry[i].id == id }

  /** A write passes the collision gate and then creates or updates; an edit keeps the endpoints. */
  ghost function After(lib: Library, registry: seq<Declaration>, step: Step): seq<Declaration> {
    match step
    case Write(d, seen, accepted) =>
      if Projected(lib, registry, seen, DraftOf(d)) != Clear || !accepted then registry
      else if Known(registry, d.id) then Replace(registry, d) else registry + [d]
    case Edit(id, rest) =>
      var current := Current(registry, id);
      if current.None? then registry else Replace(registry, current.value.(rest := rest))
  }

  ghost function Run(lib: Library, registry: seq<Declaration>, steps: seq<Step>): seq<Declaration> {
    if steps == [] then registry else After(lib, Run(lib, registry, steps[..|steps| - 1]), steps[|steps| - 1])
  }

  /** A declaration that passes the gate is disjoint from the others and in itself. */
  lemma GateDisjoint(lib: Library, registry: seq<Declaration>, seen: Observation, d: Declaration)
    requires Projected(lib, registry, seen, DraftOf(d)) == Clear && d.id != ""
    ensures forall x, y | x in EndsOf(d) && y in EndsOf(d) && x != y :: Overlap(lib, x, y) == Some(false)
    ensures forall e, x, y | e in registry && e.id != d.id && x in EndsOf(d) && y in EndsOf(e) ::
              Overlap(lib, x, y) == Some(false) && Overlap(lib, y, x) == Some(false)
  {
    hide NormalHost, NormalIp, Declared, WithoutOwner, Excused, Unchanged, Projected;
    var c := DraftOf(d);
    var es := EndpointsOf(c);
    ClearExactly(lib, registry, seen, c);
    assert es == [c.mcp.value, c.health.value];
    assert ClearAt(lib, registry, seen, c, 0) && ClearAt(lib, registry, seen, c, 1);
    assert Compared(lib, registry, seen, c, 0, es[1]) && Compared(lib, registry, seen, c, 1, es[0]);
    forall e, y | e in registry && e.id != d.id && y in EndsOf(e)
      ensures Compared(lib, registry, seen, c, 0, y) && Compared(lib, registry, seen, c, 1, y)
    {
      DeclaredHas(registry, e);
      InWithoutOwner(Declared(registry), d.id, y);
    }
    SameOverlaps(lib, d);
    forall x, y | x in EndsOf(d) ensures Overlap(lib, x, y) == Overlap(lib, y, x) { OverlapSymmetric(lib, x, y); }
  }

  /** Whose endpoint it is does not matter to a collision. */
  lemma SameOverlaps(lib: Library, d: Declaration)
    ensures forall y :: Overlap(lib, McpOf(d), y) == Overlap(lib, Candidate(d.mcpHost, d.mcpPort, Mcp), y)
    ensures forall y :: Overlap(lib, HealthOf(d), y) == Overlap(lib, Candidate(d.healthHost, d.healthPort, Health), y)
    ensures forall y :: Overlap(lib, y, HealthOf(d)) == Overlap(lib, y, Candidate(d.healthHost, d.healthPort, Health))
    ensures forall y :: Overlap(lib, y, McpOf(d)) == Overlap(lib, y, Candidate(d.mcpHost, d.mcpPort, Mcp))
  {
    hide NormalHost, NormalIp;
  }

  ghost predicate Sound(lib: Library, registry: seq<Declaration>) {
    DistinctIds(registry) && Disjoint(lib, registry) && forall d | d in registry :: d.id != ""
  }

  lemma {:induction false} CurrentIs(registry: seq<Declaration>, id: string)
    ensures Current(registry, id).Some? ==>
              Current(registry, id).value in registry && Current(registry, id).value.id == id
  {
    if registry != [] { CurrentIs(registry[1..], id); }
  }

  lemma ReplacedMember(registry: seq<Declaration>, d: Declaration, e: Declaration)
    requires e in Replace(registry, d)
    ensures e == d || (e in registry && e.id != d.id)
  {
    var i :| 0 <= i < |registry| && Replace(registry, d)[i] == e;
    assert registry[i] in registry;
  }

  /** A newcomer that is disjoint in itself and from all others, alone under its id. */
  lemma JoinsSound(lib: Library, before: seq<Declaration>, d: Declaration, after: seq<Declaration>)
    requires Sound(lib, before) && DistinctIds(after) && d.id != ""
    requires forall e | e in after :: e == d || (e in before && e.id != d.id)
    requires forall x, y | x in EndsOf(d) && y in EndsOf(d) && x != y :: Overlap(lib, x, y) == Some(false)
    requires forall e, x, y | e in before && e.id != d.id && x in EndsOf(d) && y in EndsOf(e) ::
               Overlap(lib, x, y) == Some(false) && Overlap(lib, y, x) == Some(false)
    ensures Sound(lib, after)
  {
    hide Overlap, EndsOf;
  }

  lemma WriteKeepsSound(lib: Library, registry: seq<Declaration>, d: Declaration, seen: Observation,
      after: seq<Declaration>)
    requires Sound(lib, registry) && d.id != "" && Projected(lib, registry, seen, DraftOf(d)) == Clear
    requires after == Replace(registry, d) || (after == registry + [d] && !Known(registry, d.id))
    ensures Sound(lib, after)
  {
    hide Overlap, Projected, EndsOf, Disjoint, Known, Replace, DraftOf, DistinctIds;
    GateDisjoint(lib, registry, seen, d);
    Joined(registry, d, after);
    JoinsSound(lib, registry, d, after);
  }

  lemma EditKeepsSound(lib: Library, registry: seq<Declaration>, id: string, rest: nat)
    requires Sound(lib, registry)
    ensures Sound(lib, After(lib, registry, Edit(id, rest)))
  {
    hide Overlap, Projected, EndsOf, Disjoint, Replace, Current, DistinctIds;
    CurrentIs(registry, id);
    var current := Current(registry, id);
    if current.Some? {
      var d := current.value.(rest := rest);
      Joined(registry, d, Replace(registry, d));
      EditedEnds(lib, registry, current.value, d);
      JoinsSound(lib, registry, d, Replace(registry, d));
    }
  }

  lemma StepKeepsSound(lib: Library, registry: seq<Declaration>, step: Step)
    requires Sound(lib, registry) && (step.Write? ==> step.d.id != "")
    ensures Sound(lib, After(lib, registry, step))
  {
    hide Projected, DraftOf, Known, Replace, Current, Sound;
    match step {
      case Write(d, seen, accepted) =>
        if Projected(lib, registry, seen, DraftOf(d)) == Clear && accepted {
          WriteKeepsSound(lib, registry, d, seen, After(lib, registry, step));
        }
      case Edit(id, rest) => EditKeepsSound(lib, registry, id, rest);
    }
  }

  lemma Joined(registry: seq<Declaration>, d: Declaration, after: seq<Declaration>)
    requires DistinctIds(registry)
    requires after == Replace(registry, d) || (after == registry + [d] && !Known(registry, d.id))
    ensures DistinctIds(after) && forall e | e in after :: e == d || (e in registry && e.id != d.id)
  {
    if after == Replace(registry, d) {
      forall e | e in after ensures e == d || (e in registry && e.id != d.id) { ReplacedMember(registry, d, e); }
    }
  }

  lemma EditedEnds(lib: Library, registry: seq<Declaration>, old_: Declaration, d: Declaration)
    requires Disjoint(lib, registry) && old_ in registry && d == old_.(rest := d.rest)
    ensures forall x, y | x in EndsOf(d) && y in EndsOf(d) && x != y :: Overlap(lib, x, y) == Some(false)
    ensures forall e, x, y | e in registry && e.id != d.id && x in EndsOf(d) && y in EndsOf(e) ::
              Overlap(lib, x, y) == Some(false) && Overlap(lib, y, x) == Some(false)
  {
    hide Overlap;
    assert EndsOf(d) == EndsOf(old_);
    forall e, x, y | e in registry && e.id != d.id && x in EndsOf(old_) && y in EndsOf(e) ensures x != y {}
  }

  /** Over every serial run of writes, edits and upgrades, all declared endpoints stay pairwise
      provably disjoint. */
  lemma {:induction false} RunKeepsSound(lib: Library, registry: seq<Declaration>, steps: seq<Step>)
    requires Sound(lib, registry) && forall s | s in steps && s.Write? :: s.d.id != ""
    ensures Sound(lib, Run(lib, registry, steps))
  {
    if steps != [] {
      var before := steps[..|steps| - 1];
      assert forall s | s in before :: s in steps;
      RunKeepsSound(lib, registry, before);
      StepKeepsSound(lib, Run(lib, registry, before), steps[|steps| - 1]);
    }
  }

  // ---- several writers ----

  /** The gate and the write are two steps; in between other writers may look and write. */
  datatype WriterEvent = Look(writer: nat, d: Declaration, seen: Observation) | Commit(writer: nat)

  /** The registry, and what each writer has been let through with. */
  datatype Writers = Writers(registry: seq<Declaration>, passed: map<nat, Declaration>)

  function Stored(registry: seq<Declaration>, d: Declaration): seq<Declaration> {
    if Known(registry, d.id) then Replace(registry, d) else registry + [d]
  }

  ghost function WriterStep(lib: Library, s: Writers, e: WriterEvent): Writers {
    match e
    case Look(w, d, seen) =>
      if Projected(lib, s.registry, seen, DraftOf(d)) == Clear then s.(passed := s.passed[w := d])
        else s.(passed := s.passed - {w})
    case Commit(w) =>
      if w in s.passed then Writers(Stored(s.registry, s.passed[w]), s.passed - {w}) else s
  }

  ghost function WriterRun(lib: Library, s: Writers, events: seq<WriterEvent>): Writers
    decreases |events|
  {
    if events == [] then s else WriterRun(lib, WriterStep(lib, s, events[0]), events[1..])
  }

  ghost predicate MutuallyApart(lib: Library, d: Declaration, e: Declaration) {
    forall x, y | x in EndsOf(d) && y in EndsOf(e) :: Overlap(lib, x, y) == Some(false)
  }

  lemma StoredMembers(registry: seq<Declaration>, d: Declaration)
    requires DistinctIds(registry)
    ensures DistinctIds(Stored(registry, d)) && d in Stored(registry, d)
    ensures forall e | e in Stored(registry, d) :: e == d || (e in registry && e.id != d.id)
    ensures forall e | e in registry && e.id != d.id :: e in Stored(registry, d)
  {
    hide DistinctIds, Known, Replace;
    var after := Stored(registry, d);
    Joined(registry, d, after);
    if Known(registry, d.id) { ReplaceHas(registry, d); }
  }

  lemma ReplaceHas(registry: seq<Declaration>, d: Declaration)
    requires Known(registry, d.id)
    ensures d in Replace(registry, d) && forall e | e in registry && e.id != d.id :: e in Replace(registry, d)
  {
    var i :| 0 <= i < |registry| && registry[i].id == d.id;
    assert Replace(registry, d)[i] == d;
    forall e | e in registry && e.id != d.id ensures e in Replace(registry, d) {
      var j :| 0 <= j < |registry| && registry[j] == e;
      assert Replace(registry, d)[j] == e;
    }
  }

  /** Two declarations of different instances that both passed the gate against one sound registry
      leave it sound exactly when their endpoints are provably apart. */
  lemma BothPassedExactly(lib: Library, registry: seq<Declaration>, seen: Observation, d: Declaration,
      later: Observation, e: Declaration)
    requires Sound(lib, registry) && d.id != "" && e.id != "" && d.id != e.id
    requires Projected(lib, registry, seen, DraftOf(d)) == Clear && Projected(lib, registry, later, DraftOf(e)) == Clear
    ensures Sound(lib, Stored(Stored(registry, d), e)) <==> MutuallyApart(lib, d, e)
  {
    hide Overlap, Projected, EndsOf, Known, Replace, DraftOf, DistinctIds, Stored, Disjoint;
    var one := Stored(registry, d);
    var both := Stored(one, e);
    StoredMembers(registry, d);
    StoredMembers(one, e);
    WriteKeepsSound(lib, registry, d, seen, one) by { StoredIs(registry, d); }
    if MutuallyApart(lib, d, e) {
      GateDisjoint(lib, registry, later, e);
      ApartBothWays(lib, d, e);
      forall x, y, f | f in one && f.id != e.id && x in EndsOf(e) && y in EndsOf(f)
        ensures Overlap(lib, x, y) == Some(false) && Overlap(lib, y, x) == Some(false)
      {
        assert f == d || f in registry;
      }
      JoinsSound(lib, one, e, both);
    } else {
      CollidingUnsound(lib, both, d, e);
    }
  }

  lemma StoredIs(registry: seq<Declaration>, d: Declaration)
    ensures Stored(registry, d) == Replace(registry, d)
            || (Stored(registry, d) == registry + [d] && !Known(registry, d.id))
  {
  }

  lemma ApartBothWays(lib: Library, d: Declaration, e: Declaration)
    requires MutuallyApart(lib, d, e)
    ensures forall x, y | x in EndsOf(d) && y in EndsOf(e) ::
              Overlap(lib, x, y) == Some(false) && Overlap(lib, y, x) == Some(false)
  {
    hide Overlap;
    forall x, y | x in EndsOf(d) && y in EndsOf(e)
      ensures Overlap(lib, y, x) == Some(false)
    { OverlapSymmetric(lib, x, y); }
  }

  lemma CollidingUnsound(lib: Library, registry: seq<Declaration>, d: Declaration, e: Declaration)
    requires d in registry && e in registry && d.id != e.id && !MutuallyApart(lib, d, e)
    ensures !Disjoint(lib, registry)
  {
    hide Overlap;
    var x, y :| x in EndsOf(d) && y in EndsOf(e) && Overlap(lib, x, y) != Some(false);
    assert x.owner == Some(d.id) && y.owner == Some(e.id);
    assert x != y;
  }

  /** The race: two writers look, then both write. Whatever sound registry they start from, it ends
      unsound when their declarations collide with each other alone. */
  lemma RacingWritersCollide(lib: Library, registry: seq<Declaration>, seen: Observation, d: Declaration,
      e: Declaration)
    requires Sound(lib, registry) && d.id != "" && e.id != "" && d.id != e.id
    requires Projected(lib, registry, seen, DraftOf(d)) == Clear && Projected(lib, registry, seen, DraftOf(e)) == Clear
    ensures var end := WriterRun(lib, Writers(registry, map[]),
            [Look(1, d, seen), Look(2, e, seen), Commit(1), Commit(2)]).registry;
            Sound(lib, end) <==> MutuallyApart(lib, d, e)
    ensures var end := WriterRun(lib, Writers(registry, map[]),
            [Look(1, d, seen), Commit(1), Look(2, e, seen), Commit(2)]).registry;
            Sound(lib, end)
  {
    hide Projected, Sound, MutuallyApart, Stored, DraftOf;
    BothPassedExactly(lib, registry, seen, d, seen, e);
    var start := Writers(registry, map[]);
    FourSteps(lib, start, Look(1, d, seen), Look(2, e, seen), Commit(1), Commit(2));
    FourSteps(lib, start, Look(1, d, seen), Commit(1), Look(2, e, seen), Commit(2));
    StoredSound(lib, registry, seen, d);
    if Projected(lib, Stored(registry, d), seen, DraftOf(e))
      == Clear { StoredSound(lib, Stored(registry, d), seen, e); }
  }

  lemma StoredSound(lib: Library, registry: seq<Declaration>, seen: Observation, d: Declaration)
    requires Sound(lib, registry) && d.id != "" && Projected(lib, registry, seen, DraftOf(d)) == Clear
    ensures Sound(lib, Stored(registry, d))
  {
    hide Projected, Sound, Known, Replace, DraftOf;
    StoredIs(registry, d);
    WriteKeepsSound(lib, registry, d, seen, Stored(registry, d));
  }

  lemma FourSteps(lib: Library, s: Writers, a: WriterEvent, b: WriterEvent, c: WriterEvent, d: WriterEvent)
    ensures WriterRun(lib, s, [a, b, c, d])
            == WriterStep(lib, WriterStep(lib, WriterStep(lib, WriterStep(lib, s, a), b), c), d)
  {
    hide WriterStep;
    var s1 := WriterStep(lib, s, a);
    var s2 := WriterStep(lib, s1, b);
    OneStep(lib, s, a, [b, c, d]);
    OneStep(lib, s1, b, [c, d]);
    OneStep(lib, s2, c, [d]);
    OneStep(lib, WriterStep(lib, s2, c), d, []);
    assert [a] + [b, c, d] == [a, b, c, d] && [b] + [c, d] == [b, c, d] && [c] + [d] == [c, d] && [d] + [] == [d];
  }

  lemma OneStep(lib: Library, s: Writers, e: WriterEvent, rest: seq<WriterEvent>)
    ensures WriterRun(lib, s, [e] + rest) == WriterRun(lib, WriterStep(lib, s, e), rest)
  {
    assert ([e] + rest)[1..] == rest;
  }

  /** And there are such writers: one endpoint declared twice, from nothing. */
  lemma SameEndpointTwice(lib: Library, d: Declaration, e: Declaration)
    requires d.id != "" && e.id != "" && d.id != e.id && EndsApart(lib, d) && e == d.(id := e.id)
    ensures var seen := Observation(Available, []);
            var end := WriterRun(lib, Writers([], map[]),
              [Look(1, d, seen), Look(2, e, seen), Commit(1), Commit(2)]).registry;
            McpOf(d) in Declared(end) && McpOf(e) in Declared(end) && Overlap(lib, McpOf(d), McpOf(e)) == Some(true)
  {
    var seen := Observation(Available, []);
    AloneIsClear(lib, d);
    AloneIsClear(lib, e);
    hide Projected, DraftOf, Declared, NormalHost, NormalIp, EndsApart;
    FourSteps(lib, Writers([], map[]), Look(1, d, seen), Look(2, e, seen), Commit(1), Commit(2));
    assert Stored([], d) == [d] && Stored([d], e) == [d, e];
    DeclaredHas([d, e], d);
    DeclaredHas([d, e], e);
  }

  ghost predicate EndsApart(lib: Library, d: Declaration) { Overlap(lib, McpOf(d), HealthOf(d)) == Some(false) }

  lemma AloneIsClear(lib: Library, d: Declaration)
    requires EndsApart(lib, d)
    ensures Projected(lib, [], Observation(Available, []), DraftOf(d)) == Clear
  {
    hide NormalHost, NormalIp;
    var c, seen := DraftOf(d), Observation(Available, []);
    ClearExactly(lib, [], seen, c);
    assert EndpointsOf(c) == [c.mcp.value, c.health.value];
    OverlapSymmetric(lib, c.mcp.value, c.health.value);
  }
}
