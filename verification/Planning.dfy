/** Observation and planning (`planning.py`, `access.py`, `admission_recovery.py`): what the
    host shows of each resource, and the operations that would bring it to the declaration. */
module Planning {
  import opened Text
  import opened Host
  import opened Generation
  import Git = GitOwnership

  datatype Status = Absent | Exact | Different | Foreign | Unverified

  /** Whether the evidence names this instance; the token is searched for, not compared. */
  function MarkerStatus(fs: Tree, r: Resource): Status {
    if r.marker.None? then Exact
    else if r.marker.value !in fs then Foreign
    else match fs[r.marker.value]
      case File(text, _) => if r.token.Some? && !Contains(Universal(text), r.token.value) then Foreign else Exact
      case Blob(_, _) => Foreign
      case _ => Unverified
  }

  /** `HostResourceObserver.observe_resource`. */
  function Observe(fs: Tree, r: Resource): Status {
    if r.path !in fs then Absent
    else if fs[r.path].Sealed? then Unverified
    else if MarkerStatus(fs, r) != Exact then MarkerStatus(fs, r)
    else if r.kind.Directory? then
      match fs[r.path]
      case Dir(mode) => if mode == r.mode then Exact else Different
      case _ => Foreign
    else
      match fs[r.path]
      case File(text, mode) =>
        if r.token.Some? && r.marker.None? && !Contains(Universal(text), r.token.value) then Foreign
        else if r.content.Some? && Universal(text) == r.content.value && mode == r.mode then Exact
        else Different
      case _ => Foreign
  }

  datatype Operation = NoOp | Create | Update | Remove | Enable | Start | Restart | Stop | Disable | Conflict

  /** What an operation is about; a resource is named by its whole description. */
  datatype Subject = OnResource(r: Resource) | OnUnit(r: Resource) | OnIdentity | OnTransport | OnEvidence

  datatype PlanItem = PlanItem(op: Operation, subject: Subject)

  predicate AllNoop(items: seq<PlanItem>) {
    forall i | 0 <= i < |items| :: items[i].op.NoOp?
  }

  predicate Valid(items: seq<PlanItem>) {
    forall i | 0 <= i < |items| :: !items[i].op.Conflict?
  }

  // ---- bundle resources ----

  function FileOperation(present: bool, r: Resource, fs: Tree): Operation {
    if !present && !r.removeWhenAbsent then NoOp
    else match Observe(fs, r)
      case Unverified => Conflict
      case Absent => if present then Create else NoOp
      case Exact => if present then NoOp else Remove
      case Different => if present then Update else Remove
      case Foreign => Conflict
  }

  function FileItem(present: bool, r: Resource, fs: Tree): PlanItem {
    PlanItem(FileOperation(present, r, fs), OnResource(r))
  }

  function FileItems(present: bool, rs: seq<Resource>, fs: Tree): (items: seq<PlanItem>)
    ensures |items| == |rs|
    ensures forall i | 0 <= i < |rs| :: items[i] == FileItem(present, rs[i], fs)
  {
    seq(|rs|, i requires 0 <= i < |rs| => FileItem(present, rs[i], fs))
  }

  predicate Mutates(op: Operation) { op.Create? || op.Update? || op.Remove? }

  function ChangedIds(present: bool, rs: seq<Resource>, fs: Tree): set<Rid> {
    set i | 0 <= i < |rs| && Mutates(FileOperation(present, rs[i], fs)) :: rs[i].id
  }

  // ---- units ----

  predicate TargetActive(d: Desired, r: Resource) { r.activeWhenRunning && d.running }

  function UnitOperations(d: Desired, r: Resource, u: UnitState, changed: set<Rid>): seq<Operation> {
    if d.present then
      (if r.enableWhenPresent && !u.enabled then [Enable] else [])
      + (if TargetActive(d, r) then
           if u.active && r.id in changed then [Restart] else if !u.active then [Start] else []
         else if u.active then [Stop] else [])
    else
      (if u.active then [Stop] else []) + (if u.enabled then [Disable] else [])
  }

  function Items(ops: seq<Operation>, subject: Subject): (items: seq<PlanItem>)
    ensures |items| == |ops|
    ensures forall i | 0 <= i < |ops| :: items[i] == PlanItem(ops[i], subject)
  {
    seq(|ops|, i requires 0 <= i < |ops| => PlanItem(ops[i], subject))
  }

  function UnitItemsOf(d: Desired, r: Resource, units: Units, changed: set<Rid>): seq<PlanItem> {
    if r.unitName.None? then [] else Items(UnitOperations(d, r, UnitOf(units, r.unitName.value), changed), OnUnit(r))
  }

  function UnitItems(d: Desired, rs: seq<Resource>, units: Units, changed: set<Rid>): seq<PlanItem> {
    if rs == [] then []
    else UnitItems(d, rs[..|rs| - 1], units, changed) + UnitItemsOf(d, rs[|rs| - 1], units, changed)
  }

  /** A changed MCP unit restarts an active tunnel that nothing else restarts. */
  function TunnelItems(d: Desired, rs: seq<Resource>, units: Units, changed: set<Rid>): seq<PlanItem> {
    var tunnel := ResourceOf(d, TunnelUnit);
    var u := UnitOf(units, tunnel.unitName.value);
    if d.present && d.running && McpUnit in changed && tunnel in rs && u.active && TunnelUnit !in changed
    then [PlanItem(Restart, OnUnit(tunnel))] else []
  }

  // ---- stale resources ----

  /** One line of applied evidence; the fingerprint stands for all it was computed from. */
  datatype Entry = Entry(id: Rid, kind: Kind, path: Path, fingerprint: Resource)

  function EntryOf(r: Resource): Entry { Entry(r.id, r.kind, r.path, r) }

  datatype Stale = Rejected | Listed(resources: seq<Resource>)

  datatype Scan = Skip | Bad | Found(r: Resource)

  /** `_reconstruct_access_resource`: access resources are rebuilt from their identity. */
  function ReconstructAccess(d: Desired, e: Entry): Option<Resource> {
    var token, root := OwnerToken(d.iid), AccessHome(d.workspace);
    var owner := root + [".owner"];
    var r := match e.id
      case AccessOwner =>
        Resource(e.id, PlainFile, owner, FILE_MODE, Some(OwnerToken(d.iid) + "\n"), Some(token), None, None, false,
          false, true)
      case AccessIgnore =>
        Resource(e.id, PlainFile, root + [".gitignore"], FILE_MODE, Some("*\n"), Some(token), Some(owner), None, false,
          false, true)
      case Mount(_, alias) =>
        Resource(e.id, Directory, root + [alias], PRIVATE, None, Some(token), Some(owner), None, false, false, true)
      case _ =>
        Resource(e.id, Directory, root, PRIVATE, None, Some(token), Some(owner), None, false, false, true);
    if (e.id.Mount? ==> AliasOk(e.id.alias)) && r.path == e.path && r == e.fingerprint then Some(r) else None
  }

  function ScanAccess(d: Desired, bundle: seq<Resource>, e: Entry): Scan {
    if !e.id.IsAccess() || (exists r | r in bundle :: r.id == e.id) then Skip
    else match ReconstructAccess(d, e)
      case None => Bad
      case Some(r) => if exists b | b in bundle :: b.path == r.path then Skip else Found(r)
  }

  function InstalledMode(id: Rid): nat { if id.CliHelper? then PROGRAM_MODE else FILE_MODE }

  /** Guard and development resources are rebuilt from the installed text, accepted only when
      it reproduces the applied fingerprint and carries the owner marker. */
  function ScanInstalled(d: Desired, bundle: seq<Resource>, fs: Tree, e: Entry): Scan {
    var path := PathOf(d, e.id);
    var kind := if e.id.CliHelper? then PlainFile else SystemdUnit;
    if (exists r | r in bundle :: r.id == e.id) then Skip
    else if e.kind != kind || e.path != path then Bad
    else if path !in fs then Skip
    else match fs[path]
      case File(text, mode) =>
        var r := Resource(e.id, kind, path, mode, Some(Universal(text)), Some(OwnerToken(d.iid)), None,
                          if e.id.CliHelper? then None else Some(UnitName(d.iid, e.id)),
                          !e.id.GuardUnit? && !e.id.CliHelper?, !e.id.GuardUnit? && !e.id.CliHelper?, true);
        if !Contains(Universal(text), OwnerToken(d.iid)) || mode != InstalledMode(e.id) || r != e.fingerprint then Bad
        else Found(r)
      case _ => Bad
  }

  datatype Family = AccessFamily | GuardFamily | DevelopmentFamily

  function ScanEntry(family: Family, d: Desired, bundle: seq<Resource>, fs: Tree, e: Entry): Scan {
    match family
    case AccessFamily => ScanAccess(d, bundle, e)
    case GuardFamily => if e.id.IsGuard() then ScanInstalled(d, bundle, fs, e) else Skip
    case DevelopmentFamily => if e.id.IsDevelopment() then ScanInstalled(d, bundle, fs, e) else Skip
  }

  /** `stale_applied_*_resources`: applied resources the declaration no longer generates. */
  function StaleResources(family: Family, d: Desired, bundle: seq<Resource>, fs: Tree, owned: seq<Entry>): Stale {
    if owned == [] then Listed([])
    else
      var before := StaleResources(family, d, bundle, fs, owned[..|owned| - 1]);
      var last := ScanEntry(family, d, bundle, fs, owned[|owned| - 1]);
      if before.Rejected? || last.Bad? then Rejected
      else if last.Skip? then before
      else Listed(before.resources + [last.r])
  }

  function StaleOperations(family: Family, r: Resource, fs: Tree, units: Units): seq<Operation> {
    var status := Observe(fs, r);
    if status == Absent then [NoOp]
    else if status == Foreign || status == Unverified then [Conflict]
    else if family.AccessFamily? then [Remove]
    else if status != Exact || (family.GuardFamily? && r.unitName.None?) then [Conflict]
    else
      var u := if r.unitName.None? then IDLE else UnitOf(units, r.unitName.value);
      (if u.active then [Stop] else []) + (if u.enabled then [Disable] else []) + [Remove]
  }

  function StaleSubject(r: Resource, op: Operation): Subject {
    if op.Stop? || op.Disable? then OnUnit(r) else OnResource(r)
  }

  function StaleItemsOf(family: Family, r: Resource, fs: Tree, units: Units): (items: seq<PlanItem>)
    ensures |items| == |StaleOperations(family, r, fs, units)|
    ensures forall i | 0 <= i < |items| ::
              var op := StaleOperations(family, r, fs, units)[i]; items[i] == PlanItem(op, StaleSubject(r, op))
  {
    var ops := StaleOperations(family, r, fs, units);
    seq(|ops|, i requires 0 <= i < |ops| => PlanItem(ops[i], StaleSubject(r, ops[i])))
  }

  function ListedItems(family: Family, rs: seq<Resource>, fs: Tree, units: Units): seq<PlanItem> {
    if rs == [] then []
    else ListedItems(family, rs[..|rs| - 1], fs, units) + StaleItemsOf(family, rs[|rs| - 1], fs, units)
  }

  function StaleItems(family: Family, d: Desired, bundle: seq<Resource>, fs: Tree, units: Units,
      owned: seq<Entry>): seq<PlanItem> {
    match StaleResources(family, d, bundle, fs, owned)
    case Rejected => [PlanItem(Conflict, OnEvidence)]
    case Listed(rs) => ListedItems(family, rs, fs, units)
  }

  // ---- git settings ----

  function GitOperation(o: Git.Observation, requested: bool): Operation {
    match o
    case Exact => NoOp
    case Absent => Create
    case Different => if requested then Update else Remove
    case _ => Conflict
  }

  function GitItems(repo: Git.Repository, c: Git.Config, d: Desired): seq<PlanItem> {
    if d.configVersion < 2 then []
    else [PlanItem(GitOperation(Git.ObserveIdentity(repo, c, d), Git.WantedIdentity(d).Some?), OnIdentity),
          PlanItem(GitOperation(Git.ObserveTransport(repo, c, d), Git.WantedRemote(d).Some?), OnTransport)]
  }

  // ---- the plan ----

  /** The resource, unit, git and stale operations of one reconciliation, in plan order. */
  function PlanOf(repo: Git.Repository, d: Desired, fs: Tree, units: Units, c: Git.Config,
      owned: seq<Entry>): seq<PlanItem> {
    var bundle := Generate(d);
    var changed := ChangedIds(d.present, bundle, fs);
    var files := FileItems(d.present, bundle, fs);
    var unitItems := UnitItems(d, bundle, units, changed) + TunnelItems(d, bundle, units, changed);
    var git := GitItems(repo, c, d);
    var stale := StaleItems(GuardFamily, d, bundle, fs, units, owned)
                 + StaleItems(DevelopmentFamily, d, bundle, fs, units, owned)
                 + StaleItems(AccessFamily, d, bundle, fs, units, owned);
    if d.present then files + git + unitItems + stale else unitItems + git + files + stale
  }

  // ---- the planner's loops ----

  lemma ChangedGrows(present: bool, rs: seq<Resource>, fs: Tree, i: nat)
    requires i < |rs|
    ensures ChangedIds(present, rs[..i + 1], fs)
            == ChangedIds(present, rs[..i], fs)
              + (if Mutates(FileOperation(present, rs[i], fs)) then {rs[i].id} else {})
  {
    var more, less := rs[..i + 1], rs[..i];
    assert forall j | 0 <= j < i :: more[j] == less[j];
    assert more[i] == rs[i];
  }

  /** What an observation calls for: nothing when the resource is as wanted, a conflict when it is
      not ours, otherwise a change that fits the target. */
  ghost predicate Answers(present: bool, r: Resource, fs: Tree, op: Operation) {
    var status, concerned := Observe(fs, r), present || r.removeWhenAbsent;
    && (op.NoOp? <==> !concerned || status == (if present then Exact else Absent))
    && (op.Conflict? <==> concerned && (status == Foreign || status == Unverified))
    && (op.Create? <==> present && status == Absent) && (op.Update? <==> present && status == Different)
    && (op.Remove? <==> !present && concerned && (status == Exact || status == Different))
  }

  lemma FileOperationAnswers(present: bool, r: Resource, fs: Tree)
    ensures Answers(present, r, fs, FileOperation(present, r, fs))
  {
    hide Observe;
  }

  /** `_file_operations`: in resource order the one operation each observation calls for, and the ids
      whose file changes. */
  method FileOperations(present: bool, resources: seq<Resource>, fs: Tree)
    returns (operations: seq<PlanItem>, changed: set<Rid>)
    ensures operations == FileItems(present, resources, fs)
    ensures changed == ChangedIds(present, resources, fs)
    ensures |operations| == |resources|
    ensures forall i | 0 <= i < |resources| ::
              operations[i].subject == OnResource(resources[i]) && Answers(present, resources[i], fs, operations[i].op)
  {
    operations, changed := [], {};
    forall r ensures Answers(present, r, fs, FileOperation(present, r, fs)) { FileOperationAnswers(present, r, fs); }
    hide Answers, FileOperation;
    for i := 0 to |resources|
      invariant operations == FileItems(present, resources[..i], fs)
      invariant changed == ChangedIds(present, resources[..i], fs)
    {
      ChangedGrows(present, resources, fs, i);
      var op := FileOperation(present, resources[i], fs);
      operations := operations + [PlanItem(op, OnResource(resources[i]))];
      if Mutates(op) {
        changed := changed + {resources[i].id};
      }
    }
    assert resources[..|resources|] == resources;
  }

  /** What a unit's state calls for, operation by operation. */
  predicate Due(d: Desired, r: Resource, u: UnitState, changed: set<Rid>, op: Operation) {
    match op
    case Enable => d.present && r.enableWhenPresent && !u.enabled
    case Start => d.present && TargetActive(d, r) && !u.active
    case Restart => d.present && TargetActive(d, r) && u.active && r.id in changed
    case Stop => u.active && !(d.present && TargetActive(d, r))
    case Disable => !d.present && u.enabled
    case _ => false
  }

  lemma DueExactly(d: Desired, r: Resource, u: UnitState, changed: set<Rid>, op: Operation)
    ensures op in UnitOperations(d, r, u, changed) <==> Due(d, r, u, changed, op)
  {
  }

  ghost predicate DueItem(d: Desired, r: Resource, units: Units, changed: set<Rid>, op: Operation) {
    r.unitName.Some? && Due(d, r, UnitOf(units, r.unitName.value), changed, op)
  }

  lemma ItemsAreDue(d: Desired, r: Resource, units: Units, changed: set<Rid>)
    ensures var items := UnitItemsOf(d, r, units, changed);
            && (forall k | 0 <= k < |items| :: items[k].subject == OnUnit(r))
            && forall op :: PlanItem(op, OnUnit(r)) in items <==> DueItem(d, r, units, changed, op)
  {
    if r.unitName.Some? {
      var u := UnitOf(units, r.unitName.value);
      var ops, items := UnitOperations(d, r, u, changed), UnitItemsOf(d, r, units, changed);
      forall op ensures PlanItem(op, OnUnit(r)) in items <==> DueItem(d, r, units, changed, op) {
        DueExactly(d, r, u, changed, op);
        if op in ops {
          var k :| 0 <= k < |ops| && ops[k] == op;
          assert items[k] == PlanItem(op, OnUnit(r));
        }
      }
    }
  }

  /** `_unit_operations`, before the tunnel's dependency restart: exactly the operations due, in
      resource order; `owner` tells which resource each item is about. */
  method UnitOperationsLoop(d: Desired, resources: seq<Resource>, units: Units, changed: set<Rid>)
    returns (operations: seq<PlanItem>, ghost owner: seq<nat>)
    ensures operations == UnitItems(d, resources, units, changed)
    ensures forall op, r ::
              PlanItem(op, OnUnit(r)) in operations <==> r in resources && DueItem(d, r, units, changed, op)
    ensures |owner| == |operations|
    ensures forall k | 0 <= k < |owner| ::
              owner[k] < |resources| && operations[k].subject == OnUnit(resources[owner[k]])
    ensures forall j, k | 0 <= j < k < |owner| :: owner[j] <= owner[k]
  {
    hide UnitItemsOf, DueItem;
    operations, owner := [], [];
    for i := 0 to |resources|
      invariant operations == UnitItems(d, resources[..i], units, changed)
      invariant forall op, r ::
                  PlanItem(op, OnUnit(r)) in operations <==> r in resources[..i] && DueItem(d, r, units, changed, op)
      invariant |owner| == |operations|
      invariant forall k | 0 <= k < |owner| :: owner[k] < i && operations[k].subject == OnUnit(resources[owner[k]])
      invariant forall j, k | 0 <= j < k < |owner| :: owner[j] <= owner[k]
    {
      assert resources[..i + 1][..i] == resources[..i];
      assert resources[..i + 1] == resources[..i] + [resources[i]];
      ItemsAreDue(d, resources[i], units, changed);
      var items := UnitItemsOf(d, resources[i], units, changed);
      operations := operations + items;
      owner := owner + seq(|items|, k => i);
    }
    assert resources[..|resources|] == resources;
  }

  /** The three stale scans: rejected at the first bad entry, else what the entries lead to. */
  method StaleScan(family: Family, d: Desired, bundle: seq<Resource>, fs: Tree, owned: seq<Entry>)
    returns (stale: Stale)
    ensures stale == StaleResources(family, d, bundle, fs, owned)
    ensures stale.Rejected? <==> exists e | e in owned :: ScanEntry(family, d, bundle, fs, e).Bad?
    ensures stale.Listed? ==>
              forall r :: r in stale.resources
                <==> exists e | e in owned :: ScanEntry(family, d, bundle, fs, e) == Found(r)
  {
    hide ScanEntry;
    var result: seq<Resource> := [];
    for i := 0 to |owned|
      invariant StaleResources(family, d, bundle, fs, owned[..i]) == Listed(result)
      invariant forall e | e in owned[..i] :: !ScanEntry(family, d, bundle, fs, e).Bad?
      invariant forall r ::
                  r in result <==> exists e | e in owned[..i] :: ScanEntry(family, d, bundle, fs, e) == Found(r)
    {
      assert owned[..i + 1][..i] == owned[..i];
      assert owned[..i + 1] == owned[..i] + [owned[i]];
      match ScanEntry(family, d, bundle, fs, owned[i])
      case Bad =>
        RejectionStays(family, d, bundle, fs, owned, i + 1);
        return Rejected;
      case Skip =>
      case Found(r) => result := result + [r];
    }
    assert owned[..|owned|] == owned;
    return Listed(result);
  }

  method StaleOperationsLoop(family: Family, d: Desired, bundle: seq<Resource>, fs: Tree, units: Units,
      owned: seq<Entry>)
    returns (operations: seq<PlanItem>)
    ensures operations == StaleItems(family, d, bundle, fs, units, owned)
  {
    hide StaleItemsOf;
    var stale := StaleScan(family, d, bundle, fs, owned);
    if stale.Rejected? { return [PlanItem(Conflict, OnEvidence)]; }
    operations := [];
    for i := 0 to |stale.resources|
      invariant operations == ListedItems(family, stale.resources[..i], fs, units)
    {
      assert stale.resources[..i + 1][..i] == stale.resources[..i];
      operations := operations + StaleItemsOf(family, stale.resources[i], fs, units);
    }
    assert stale.resources[..|stale.resources|] == stale.resources;
  }

  /** `plan`. */
  method MakePlan(repo: Git.Repository, d: Desired, fs: Tree, units: Units, c: Git.Config, owned: seq<Entry>)
    returns (plan: seq<PlanItem>)
    ensures plan == PlanOf(repo, d, fs, units, c, owned)
  {
    hide Generate, FileItems, UnitItems, TunnelItems, GitItems, StaleItems, ChangedIds;
    var bundle := Generate(d);
    var files, changed := FileOperations(d.present, bundle, fs);
    var unitItems, _ := UnitOperationsLoop(d, bundle, units, changed);
    unitItems := unitItems + TunnelItems(d, bundle, units, changed);
    var git := GitItems(repo, c, d);
    var guard := StaleOperationsLoop(GuardFamily, d, bundle, fs, units, owned);
    var development := StaleOperationsLoop(DevelopmentFamily, d, bundle, fs, units, owned);
    var access := StaleOperationsLoop(AccessFamily, d, bundle, fs, units, owned);
    var stale := guard + development + access;
    plan := if d.present then files + git + unitItems + stale else unitItems + git + files + stale;
  }

  lemma {:induction false} RejectionStays(family: Family, d: Desired, bundle: seq<Resource>, fs: Tree,
      owned: seq<Entry>, n: nat)
    requires n <= |owned| && StaleResources(family, d, bundle, fs, owned[..n]).Rejected?
    ensures StaleResources(family, d, bundle, fs, owned).Rejected?
  {
    if n == |owned| {
      assert owned[..n] == owned;
    } else {
      var shorter := owned[..|owned| - 1];
      assert shorter[..n] == owned[..n];
      RejectionStays(family, d, bundle, fs, shorter, n);
    }
  }
}
