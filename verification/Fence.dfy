/** The fence around an instance upgrade (`registry.py`, `maintenance.py`, `host_apply.py`,
    `instance_upgrade.py`, `legacy_import.py`): locks and journals against any number of
    concurrent processes. */
module Fence {

  /** How a process holds the import lock of its instance; an import holds it exclusively. */
  datatype Hold = Shared | Exclusive

  /** Where a process is: writing declares an instance, applying changes the host. `Cleared`
      stages are past the maintenance guard. */
  datatype Stage = Idle | Gated | WriteLocked | WriteCleared | ApplyLocked | ApplyCleared {
    predicate Writing() { Gated? || WriteLocked? || WriteCleared? }
    predicate Locked() { WriteLocked? || WriteCleared? || ApplyLocked? || ApplyCleared? }
    predicate Cleared() { WriteCleared? || ApplyCleared? }
  }

  datatype Proc = Proc(iid: string, hold: Hold, stage: Stage)

  /** The upgrader: under the distribution lock it lists the names, takes the registry gate, then
      the locks of every name; `expected` is what the review it was given had listed. */
  datatype Upgrader =
    | Off
    | Named(names: set<string>, expected: set<string>)
    | Gating(names: set<string>, expected: set<string>)
    | Quiet
    | Continuing(authority: string)

  const UPGRADER := 0

  datatype Review = Unreviewed | Reviewed(names: set<string>)

  /** `imports` are the instances whose import journal is there, `receipts` those whose import is
      committed; `checked` says that a preview is under way and found no journal. */
  datatype State = State(
    declared: set<string>,
    imports: set<string>,
    receipts: set<string>,
    checked: bool,
    reviewed: Review,
    journal: bool,
    gate: bool,
    locked: set<string>,
    up: Upgrader,
    procs: map<nat, Proc>)

  datatype Event =
    | Enter(pid: nat, iid: string, hold: Hold)
    | Move(pid: nat, stage: Stage)
    | Write(pid: nat)
    | Apply(pid: nat)
    | StartImport(pid: nat)
    | Delete(pid: nat)
    | Commit(pid: nat)
    | ClearImport(pid: nat)
    | Leave(pid: nat)
    | PreviewCheck | PreviewList
    | ListNames | TakeGate | TakeLocks(name: string) | WriteJournal | Release
    | Authorize(iid: string) | RemoveJournal | CrashUpgrader | Resume

  predicate Authorized(s: State, pid: nat) {
    pid == UPGRADER && pid in s.procs && s.up == Continuing(s.procs[pid].iid)
  }

  predicate Free(s: State, pid: nat, iid: string, writing: bool) {
    && iid !in s.locked
    && forall q | q in s.procs && q != pid && s.procs[q].iid == iid ::
         if writing then !s.procs[q].stage.WriteLocked? && !s.procs[q].stage.WriteCleared?
         else !s.procs[q].stage.ApplyLocked? && !s.procs[q].stage.ApplyCleared?
  }

  /** Which moves the locks and the guard let a process make; an import works under its journal. */
  predicate MayMove(s: State, pid: nat, stage: Stage)
    requires pid in s.procs
  {
    var p := s.procs[pid];
    && (stage.Idle? || p.hold.Shared? || p.iid in s.imports)
    && match stage
       case Idle => true
       case Gated => p.stage.Idle? && !s.gate
       case WriteLocked => p.stage.Gated? && Free(s, pid, p.iid, true)
       case WriteCleared => p.stage.WriteLocked? && (!s.journal || Authorized(s, pid))
       case ApplyLocked => p.stage.Idle? && Free(s, pid, p.iid, false)
       case ApplyCleared => p.stage.ApplyLocked? && p.iid in s.declared && (!s.journal || Authorized(s, pid))
  }

  /** No import process, which would hold the distribution lock. */
  predicate NoImport(s: State) { forall q | q in s.procs :: s.procs[q].hold.Shared? }

  /** An import needs the distribution lock and starts, unless it recovers its own, with no import
      pending and without an upgrade journal; anybody else stays out of a pending import. */
  predicate MayEnter(s: State, pid: nat, iid: string, hold: Hold) {
    && pid !in s.procs && (pid == UPGRADER ==> hold.Shared? && s.up == Continuing(iid))
    && (hold.Exclusive? ==> s.up.Off? && !s.journal && NoImport(s) && (s.imports == {} || iid in s.imports))
    && (hold.Shared? ==> iid !in s.imports)
    && forall q | q in s.procs && s.procs[q].iid == iid :: hold.Shared? && s.procs[q].hold.Shared?
  }

  /** An import process between two of its steps. */
  predicate AtImport(s: State, pid: nat) { pid in s.procs && s.procs[pid].hold.Exclusive? && s.procs[pid].stage.Idle? }

  predicate Enabled(s: State, e: Event) {
    match e
    case Enter(pid, iid, hold) => MayEnter(s, pid, iid, hold)
    case Move(pid, stage) => pid in s.procs && MayMove(s, pid, stage)
    case Write(pid) => pid in s.procs && s.procs[pid].stage.WriteCleared?
    case Apply(pid) => pid in s.procs && s.procs[pid].stage.ApplyCleared?
    case StartImport(pid) => AtImport(s, pid) && s.procs[pid].iid !in s.imports && s.procs[pid].iid !in s.declared
    case Delete(pid) => AtImport(s, pid) && s.procs[pid].iid in s.imports && s.procs[pid].iid !in s.receipts
    case Commit(pid) => AtImport(s, pid) && s.procs[pid].iid in s.imports && s.procs[pid].iid in s.declared
    case ClearImport(pid) =>
      AtImport(s, pid) && s.procs[pid].iid in s.imports
        && (s.procs[pid].iid in s.receipts <==> s.procs[pid].iid in s.declared)
    case Leave(pid) => pid in s.procs
    case PreviewCheck => s.imports == {} && !s.journal
    case PreviewList => s.checked
    case ListNames => s.up.Off? && !s.journal && NoImport(s) && s.reviewed.Reviewed?
    case TakeGate => s.up.Named? && forall q | q in s.procs :: !s.procs[q].stage.Writing()
    case TakeLocks(name) => s.up.Gating? && name in s.up.names && forall q | q in s.procs && s.procs[q].iid == name ::
      !s.procs[q].stage.Locked()
    case WriteJournal => s.up.Gating? && s.up.names <= s.locked && s.declared == s.up.expected && s.imports == {}
    case Release => s.up.Quiet?
    case Authorize(iid) => s.up.Continuing? && UPGRADER !in s.procs
    case RemoveJournal => s.up.Continuing? && UPGRADER !in s.procs
    case CrashUpgrader => !s.up.Off?
    case Resume => s.up.Off? && s.journal && NoImport(s)
  }

  function Step(s: State, e: Event): State
    requires Enabled(s, e)
  {
    match e
    case Enter(pid, iid, hold) => s.(procs := s.procs[pid := Proc(iid, hold, Idle)])
    case Move(pid, stage) => s.(procs := s.procs[pid := s.procs[pid].(stage := stage)])
    case Write(pid) => s.(declared := s.declared + {s.procs[pid].iid})
    case Apply(pid) => s
    case StartImport(pid) => s.(imports := s.imports + {s.procs[pid].iid})
    case Delete(pid) => s.(declared := s.declared - {s.procs[pid].iid})
    case Commit(pid) => s.(receipts := s.receipts + {s.procs[pid].iid})
    case ClearImport(pid) => s.(imports := s.imports - {s.procs[pid].iid})
    case Leave(pid) => s.(procs := s.procs - {pid})
    case PreviewCheck => s.(checked := true)
    case PreviewList => s.(checked := false, reviewed := Reviewed(s.declared))
    case ListNames => s.(up := Named(s.declared, s.reviewed.names))
    case TakeGate => s.(up := Gating(s.up.names, s.up.expected), gate := true)
    case TakeLocks(name) => s.(locked := s.locked + {name})
    case WriteJournal => s.(up := Quiet, journal := true)
    case Release => s.(up := Continuing(""), gate := false, locked := {})
    case Authorize(iid) => s.(up := Continuing(iid))
    case RemoveJournal => s.(up := Off, journal := false)
    case CrashUpgrader => s.(up := Off, gate := false, locked := {}, procs := s.procs - {UPGRADER})
    case Resume => s.(up := Continuing(""))
  }

  /** Where the upgrader is says which of its locks it holds. */
  ghost predicate Phases(s: State) {
    && (s.gate <==> s.up.Gating? || s.up.Quiet?)
    && (!s.gate ==> s.locked == {})
    && (!s.up.Off? ==> NoImport(s))
    && (UPGRADER in s.procs ==> s.procs[UPGRADER].hold.Shared? && s.up == Continuing(s.procs[UPGRADER].iid))
    && (s.up.Quiet? || s.up.Continuing? ==> s.journal) && (s.up.Named? || s.up.Gating? ==> !s.journal)
  }

  /** What the locks alone guarantee, at every moment. */
  ghost predicate Locks(s: State) {
    && Phases(s) && s.receipts <= s.declared
    && (forall p, q | p in s.procs && q in s.procs && p != q && s.procs[p].iid == s.procs[q].iid ::
       s.procs[p].hold.Shared?)
    && (forall p | p in s.procs && s.procs[p].stage.ApplyCleared? :: s.procs[p].iid in s.declared)
    && (forall p | p in s.procs && s.procs[p].iid in s.imports :: s.procs[p].hold.Exclusive?)
    && (s.gate ==> forall p | p in s.procs :: !s.procs[p].stage.Writing())
    && (forall p | p in s.procs && s.procs[p].iid in s.locked :: !s.procs[p].stage.Locked())
  }

  /** While the journal is there, only the upgrader is past the guard, and only for the instance
      it is authorized for. */
  ghost predicate Fenced(s: State) {
    s.journal ==> forall p | p in s.procs && s.procs[p].stage.Cleared() :: Authorized(s, p)
  }

  /** The instances whose import is pending without a receipt: undoing it takes their declaration. */
  function Revocable(s: State): set<string> { s.imports - s.receipts }

  /** What was reviewed is still declared, by no import that could take it back, and the names an
      upgrade lists cover it. */
  ghost predicate Covered(s: State) {
    && (s.reviewed.Reviewed? ==> forall b | b in s.reviewed.names :: b in s.declared && b !in Revocable(s))
    && (s.up.Named? || s.up.Gating? ==> s.up.expected <= s.up.names)
  }

  lemma PhasesHold(s: State, e: Event)
    requires Phases(s) && Enabled(s, e)
    ensures Phases(Step(s, e))
  {
  }

  lemma LocksHold(s: State, e: Event)
    requires Locks(s) && Enabled(s, e)
    ensures Locks(Step(s, e))
  {
    PhasesHold(s, e);
  }

  /** A declaration goes only under the journal of the import that made it, so what a listing
      without one saw stays. */
  lemma CoverHolds(s: State, e: Event)
    requires Locks(s) && Covered(s) && Enabled(s, e) && (e.PreviewList? ==> s.declared !! Revocable(s))
    ensures Covered(Step(s, e))
  {
  }

  /** A journal written over a listing that covers the reviewed instances raises the fence. */
  lemma JournalFences(s: State)
    requires Locks(s) && Enabled(s, WriteJournal) && s.up.expected <= s.up.names
    ensures Fenced(Step(s, WriteJournal))
  {
    forall p | p in s.procs ensures !s.procs[p].stage.Cleared() {
      assert s.procs[p].iid in s.declared ==> s.procs[p].iid in s.locked;
    }
  }

  lemma FenceHolds(s: State, e: Event)
    requires Locks(s) && Fenced(s) && Covered(s) && Enabled(s, e)
    ensures Fenced(Step(s, e))
  {
    if e.WriteJournal? { JournalFences(s); }
  }

  /** No process runs, no upgrade is under way. */
  ghost predicate AtRest(s: State) {
    s.procs == map[] && s.up.Off? && !s.journal && !s.gate && s.locked == {} && s.receipts <= s.declared
  }

  ghost predicate Starts(s: State) { AtRest(s) && s.reviewed.Unreviewed? && !s.checked }

  /** A run: every event enabled where it happens. */
  ghost predicate Runs(s: State, events: seq<Event>)
    decreases |events|
  {
    events == [] || (Enabled(s, events[0]) && Runs(Step(s, events[0]), events[1..]))
  }

  function After(s: State, events: seq<Event>): State
    requires Runs(s, events)
    decreases |events|
  {
    if events == [] then s else After(Step(s, events[0]), events[1..])
  }

  /** Whenever a review lists the declarations, none of them is of an import that may still be undone. */
  ghost predicate CleanReviews(s: State, events: seq<Event>)
    requires Runs(s, events)
    decreases |events|
  {
    events == [] || ((events[0].PreviewList? ==> s.declared !! Revocable(s))
      && CleanReviews(Step(s, events[0]), events[1..]))
  }

  lemma {:induction false} RunsFenced(s: State, events: seq<Event>)
    requires Locks(s) && Fenced(s) && Covered(s) && Runs(s, events) && CleanReviews(s, events)
    ensures Locks(After(s, events)) && Fenced(After(s, events))
    decreases |events|
  {
    hide Locks, Fenced, Covered, Enabled, Step;
    if events != [] {
      LocksHold(s, events[0]);
      CoverHolds(s, events[0]);
      FenceHolds(s, events[0]);
      RunsFenced(Step(s, events[0]), events[1..]);
    }
  }

  /** Over every run of any number of processes whose reviews meet no such import, while the
      upgrade journal is there no write and no apply takes effect but the upgrader's, for the
      instance it is authorized for. */
  lemma OnlyTheUpgrader(start: State, events: seq<Event>, e: Event)
    requires Starts(start) && Runs(start, events) && CleanReviews(start, events)
    requires var s := After(start, events); s.journal && Enabled(s, e) && (e.Write? || e.Apply?)
    ensures e.pid == UPGRADER && After(start, events).up == Continuing(After(start, events).procs[UPGRADER].iid)
  {
    RunsFenced(start, events);
  }

  /** Exactly when the fence goes up with the journal: no process outside the listing is in the
      middle of an apply. */
  lemma FenceExactly(s: State)
    requires Locks(s) && Enabled(s, WriteJournal)
    ensures Fenced(Step(s, WriteJournal))
            <==> forall p | p in s.procs && s.procs[p].stage.ApplyCleared? :: s.procs[p].iid in s.locked
  {
    var t := Step(s, WriteJournal);
    assert forall p | p in s.procs :: t.procs[p].stage.Cleared() ==>
      t.procs[p].stage.ApplyCleared? && !Authorized(t, p);
  }

  // ---- a review that meets an import that may be undone ----

  /** Some run, with no further review, leads from one state to another. */
  ghost predicate Reaches(s: State, t: State) {
    exists events :: Runs(s, events) && NoReview(events) && After(s, events) == t
  }

  ghost predicate NoReview(events: seq<Event>) { forall e | e in events :: !e.PreviewList? }

  lemma {:induction false} RunsConcat(s: State, a: seq<Event>, b: seq<Event>)
    requires Runs(s, a) && Runs(After(s, a), b)
    ensures Runs(s, a + b) && After(s, a + b) == After(After(s, a), b)
    decreases |a|
  {
    hide Enabled, Step;
    if a == [] {
      assert a + b == b;
    } else {
      assert (a + b)[1..] == a[1..] + b;
      RunsConcat(Step(s, a[0]), a[1..], b);
    }
  }

  lemma ReachesOn(s: State, t: State, e: Event)
    requires Reaches(s, t) && Enabled(t, e) && !e.PreviewList?
    ensures Reaches(s, Step(t, e))
  {
    hide Enabled, Step;
    var events :| Runs(s, events) && NoReview(events) && After(s, events) == t;
    assert [e][1..] == [];
    assert Runs(t, [e]) && After(t, [e]) == Step(t, e);
    RunsConcat(s, events, [e]);
    assert NoReview(events + [e]);
  }

  lemma ReachesItself(s: State)
    ensures Reaches(s, s)
  {
    assert Runs(s, []) && NoReview([]) && After(s, []) == s;
  }

  lemma ReachesFurther(s: State, t: State, u: State)
    requires Reaches(s, t) && Reaches(t, u)
    ensures Reaches(s, u)
  {
    hide Enabled, Step;
    var a :| Runs(s, a) && NoReview(a) && After(s, a) == t;
    var b :| Runs(t, b) && NoReview(b) && After(t, b) == u;
    RunsConcat(s, a, b);
    assert NoReview(a + b);
  }

  /** One pending import is recovered: finished with a receipt, undone without. */
  lemma Recovered(s: State, x: string)
    requires AtRest(s) && x in s.imports
    ensures Reaches(s, s.(declared := if x in s.receipts then s.declared
            else s.declared - {x}, imports := s.imports - {x}))
  {
    hide Reaches;
    ReachesItself(s);
    var s1 := s.(procs := map[1 := Proc(x, Exclusive, Idle)]);
    var s2 := s1.(declared := if x in s.receipts then s.declared else s.declared - {x});
    var s3 := s2.(imports := s.imports - {x});
    assert s3.procs - {1} == map[];
    ReachesOn(s, s, Enter(1, x, Exclusive));
    if x !in s.receipts { ReachesOn(s, s1, Delete(1)); }
    ReachesOn(s, s2, ClearImport(1));
    ReachesOn(s, s3, Leave(1));
  }

  lemma {:induction false} AllRecovered(s: State)
    requires AtRest(s)
    ensures Reaches(s, s.(declared := s.declared - Revocable(s), imports := {}))
    decreases s.imports
  {
    hide Reaches;
    ReachesItself(s);
    if x :| x in s.imports {
      var t := s.(declared := if x in s.receipts then s.declared else s.declared - {x}, imports := s.imports - {x});
      Recovered(s, x);
      AllRecovered(t);
      assert t.declared - Revocable(t) == s.declared - Revocable(s);
      ReachesFurther(s, t, t.(declared := t.declared - Revocable(t), imports := {}));
    } else {
      assert s.imports == {} && s.declared - Revocable(s) == s.declared;
    }
  }

  lemma Replaced()
    ensures forall v: Proc, w: Proc {:trigger map[1 := v][1 := w]} :: map[1 := v][1 := w] == map[1 := w]
  {
    forall v: Proc, w: Proc ensures map[1 := v][1 := w] == map[1 := w] {}
  }

  function Working(s: State, b: string, stage: Stage): State { s.(procs := map[1 := Proc(b, Shared, stage)]) }

  lemma Rewritten(s: State, b: string)
    requires s.procs == map[] && s.imports == {} && s.up.Named? && !s.journal && !s.gate && s.locked == {}
    ensures Reaches(s, Working(s.(declared := s.declared + {b}), b, WriteCleared))
  {
    hide Reaches;
    Replaced();
    ReachesItself(s);
    ReachesOn(s, s, Enter(1, b, Shared));
    ReachesOn(s, Working(s, b, Idle), Move(1, Gated));
    ReachesOn(s, Working(s, b, Gated), Move(1, WriteLocked));
    ReachesOn(s, Working(s, b, WriteLocked), Move(1, WriteCleared));
    ReachesOn(s, Working(s, b, WriteCleared), Write(1));
  }

  /** Instances are declared again, one after the other. */
  lemma {:induction false} AllDeclaredAgain(s: State, names: set<string>)
    requires s.procs == map[] && s.imports == {} && s.up.Named? && !s.journal && !s.gate && s.locked == {}
    ensures Reaches(s, s.(declared := s.declared + names))
    decreases names
  {
    hide Reaches;
    ReachesItself(s);
    if x :| x in names {
      var t := s.(declared := s.declared + {x});
      Rewritten(s, x);
      assert Working(t, x, WriteCleared).procs - {1} == map[];
      ReachesOn(s, Working(t, x, WriteCleared), Leave(1));
      AllDeclaredAgain(t, names - {x});
      assert t.declared + (names - {x}) == s.declared + names;
      ReachesFurther(s, t, s.(declared := s.declared + names));
    } else {
      assert s.declared + names == s.declared;
    }
  }

  /** Somebody declares it again and starts to apply it. */
  lemma DeclaredAgain(s: State, b: string)
    requires s.procs == map[] && s.imports == {} && s.up.Named? && !s.journal && !s.gate && s.locked == {}
    ensures Reaches(s, Working(s.(declared := s.declared + {b}), b, ApplyCleared))
  {
    hide Reaches;
    var t := s.(declared := s.declared + {b});
    Rewritten(s, b);
    Replaced();
    ReachesOn(s, Working(t, b, WriteCleared), Move(1, Idle));
    ReachesOn(s, Working(t, b, Idle), Move(1, ApplyLocked));
    ReachesOn(s, Working(t, b, ApplyLocked), Move(1, ApplyCleared));
  }

  /** The upgrader takes the locks of the names it listed. */
  lemma {:induction false} LocksTaken(s: State, b: string)
    requires s.up.Gating? && s.procs == map[1 := Proc(b, Shared, ApplyCleared)] && b !in s.up.names
    requires s.locked <= s.up.names
    ensures Reaches(s, s.(locked := s.up.names))
    decreases s.up.names - s.locked
  {
    hide Reaches;
    ReachesItself(s);
    if x :| x in s.up.names && x !in s.locked {
      var s1 := s.(locked := s.locked + {x});
      ReachesOn(s, s, TakeLocks(x));
      LocksTaken(s1, b);
      ReachesFurther(s, s1, s1.(locked := s.up.names));
    } else {
      assert s.locked == s.up.names;
    }
  }

  /** A review that listed a declaration of an import that may be undone: it is undone before the
      upgrade lists the names, the instance is declared again after, and its apply is under way
      when the journal comes. */
  lemma LeaksFrom(s: State, b: string) returns (end: State)
    requires AtRest(s) && b in s.declared && b in Revocable(s) && s.reviewed == Reviewed(s.declared)
    ensures Reaches(s, end) && end.journal && Enabled(end, Apply(1)) && !Fenced(end)
  {
    hide Reaches;
    var names := s.declared - Revocable(s);
    var s1 := s.(declared := names, imports := {});
    var s2 := s1.(up := Named(names, s.declared));
    var s3 := s2.(declared := names + (s.declared - {b}));
    var s4 := Working(s3.(declared := s3.declared + {b}), b, ApplyCleared);
    var s5 := s4.(up := Gating(names, s.declared), gate := true);
    var s6 := s5.(locked := names);
    assert s4.declared == s.declared;
    AllRecovered(s);
    ReachesOn(s, s1, ListNames);
    AllDeclaredAgain(s2, s.declared - {b});
    ReachesFurther(s, s2, s3);
    DeclaredAgain(s3, b);
    ReachesFurther(s, s3, s4);
    ReachesOn(s, s4, TakeGate);
    LocksTaken(s5, b);
    ReachesFurther(s, s5, s6);
    ReachesOn(s, s6, WriteJournal);
    end := Step(s6, WriteJournal);
  }

  lemma {:induction false} NoReviewIsClean(s: State, events: seq<Event>)
    requires Runs(s, events) && NoReview(events)
    ensures CleanReviews(s, events)
    decreases |events|
  {
    hide Enabled, Step;
    if events != [] {
      assert events[0] in events && forall e | e in events[1..] :: e in events;
      NoReviewIsClean(Step(s, events[0]), events[1..]);
    }
  }

  /** Exactly when a review made at rest cannot lead to a leak: none of the declarations it lists
      is of an import that may still be undone. */
  lemma ReviewDecides(s: State)
    requires AtRest(s) && s.checked
    ensures (forall t | Reaches(Step(s, PreviewList), t) :: Fenced(t)) <==> s.declared !! Revocable(s)
  {
    var r := Step(s, PreviewList);
    if s.declared !! Revocable(s) {
      forall t | Reaches(r, t) ensures Fenced(t) {
        var events :| Runs(r, events) && NoReview(events) && After(r, events) == t;
        NoReviewIsClean(r, events);
        RunsFenced(r, events);
      }
    } else {
      hide Reaches;
      var b :| b in s.declared && b in Revocable(s);
      var end := LeaksFrom(r, b);
    }
  }

  /** And the code lets it happen: `target` looks for pending imports first and `preview` lists the
      declarations later, so an import that declares `b` in between is listed and may be undone. */
  lemma StaleListingLeaks()
    ensures exists start, events, e ::
              Starts(start) && Runs(start, events) && After(start, events).journal
              && Enabled(After(start, events), e) && e.Apply? && e.pid != UPGRADER
  {
    var start := State({}, {}, {}, false, Unreviewed, false, false, {}, Off, map[]);
    var listed, a := ImportBetween(start);
    var end := LeaksFrom(listed, "b");
    var b := Path(listed, end);
    RunsConcat(start, a, b);
    assert Enabled(After(start, a + b), Apply(1));
  }

  lemma Path(s: State, t: State) returns (events: seq<Event>)
    requires Reaches(s, t)
    ensures Runs(s, events) && After(s, events) == t
  {
    events :| Runs(s, events) && NoReview(events) && After(s, events) == t;
  }

  function Importing(s: State, stage: Stage): State { s.(procs := map[1 := Proc("b", Exclusive, stage)]) }

  /** A preview checks, an import declares `b` and crashes, the preview lists. */
  lemma ImportBetween(start: State) returns (listed: State, events: seq<Event>)
    requires start == State({}, {}, {}, false, Unreviewed, false, false, {}, Off, map[])
    ensures Runs(start, events) && After(start, events) == listed
    ensures AtRest(listed) && listed.declared == listed.imports == {"b"} && listed.receipts == {}
    ensures listed.reviewed == Reviewed({"b"})
  {
    hide Reaches;
    var s := start.(checked := true);
    var t := s.(imports := {"b"});
    var u := t.(declared := {"b"});
    assert s.imports + {"b"} == {"b"} && t.declared + {"b"} == {"b"} && Importing(u, WriteCleared).procs - {1} == map[];
    Replaced();
    ReachesItself(start);
    ReachesOn(start, start, PreviewCheck);
    ReachesOn(start, s, Enter(1, "b", Exclusive));
    ReachesOn(start, Importing(s, Idle), StartImport(1));
    ReachesOn(start, Importing(t, Idle), Move(1, Gated));
    ReachesOn(start, Importing(t, Gated), Move(1, WriteLocked));
    ReachesOn(start, Importing(t, WriteLocked), Move(1, WriteCleared));
    ReachesOn(start, Importing(t, WriteCleared), Write(1));
    ReachesOn(start, Importing(u, WriteCleared), Leave(1));
    var before := Path(start, u);
    listed := Step(u, PreviewList);
    assert [PreviewList][1..] == [];
    RunsConcat(start, before, [PreviewList]);
    events := before + [PreviewList];
  }
}
