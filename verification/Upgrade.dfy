/** Upgrading every instance to a new release (`instance_upgrade.py`): a resumable journal over
    the instances, under crashes and failures at any step. */
module Upgrade {
  import opened Text

  datatype Phase = Pending | Updating | Applying | Completed

  /** One journal row; declarations stand for their fingerprints. */
  datatype Row = Row(iid: string, original: nat, candidate: nat, present: bool, phase: Phase)

  datatype Status = Running | Failed | Finished

  datatype Journal = Journal(token: nat, rows: seq<Row>, status: Status)

  /** The applied record of one instance: what was applied, by which transaction's token. */
  datatype Applied = Applied(declaration: nat, token: Option<nat>)

  datatype Fate = Done | Blocked | Crashed

  ghost predicate DistinctRows(rows: seq<Row>) { forall i, j | 0 <= i < j < |rows| :: rows[i].iid != rows[j].iid }

  /** Completed rows, then at most one in progress, then pending ones. */
  ghost predicate Ordered(rows: seq<Row>) {
    forall i, j | 0 <= i < j < |rows| && !rows[j].phase.Pending? :: rows[i].phase.Completed?
  }

  /** What the phase of a row permits of its declaration. */
  predicate Permits(row: Row, declaration: nat) {
    match row.phase
    case Pending => declaration == row.original
    case Updating => declaration == row.original || declaration == row.candidate
    case _ => declaration == row.candidate
  }

  predicate CommittedBy(applied: map<string, Applied>, row: Row, token: nat) {
    row.iid in applied && applied[row.iid] == Applied(row.candidate, Some(token))
  }

  function Commits(commits: map<string, nat>, iid: string): nat { if iid in commits then commits[iid] else 0 }

  /** An apply committed for a row at most once, never before its declaration was replaced, and
      once for every completed present instance. */
  ghost predicate Counted(row: Row, applied: map<string, Applied>, commits: map<string, nat>, token: nat) {
    && Commits(commits, row.iid) == (if CommittedBy(applied, row, token) then 1 else 0)
    && (row.phase.Pending? || row.phase.Updating? || !row.present ==> Commits(commits, row.iid) == 0)
    && (row.phase.Completed? && row.present ==> Commits(commits, row.iid) == 1)
  }

  ghost predicate RowSound(row: Row, registry: map<string, nat>, applied: map<string, Applied>, commits: map<string,
      nat>, token: nat) {
    row.iid in registry && Permits(row, registry[row.iid]) && Counted(row, applied, commits, token)
  }

  ghost predicate Covers(rows: seq<Row>, registry: map<string, nat>) {
    forall iid | iid in registry :: exists i :: 0 <= i < |rows| && rows[i].iid == iid
  }

  ghost predicate Sound(j: Journal, registry: map<string, nat>, applied: map<string, Applied>, commits: map<string,
      nat>) {
    && DistinctRows(j.rows) && Ordered(j.rows)
    && (forall i | 0 <= i < |j.rows| :: RowSound(j.rows[i], registry, applied, commits, j.token))
    && Covers(j.rows, registry)
  }

  /** The same rows, further along. */
  ghost predicate Advanced(a: seq<Row>, b: seq<Row>) {
    && |a| == |b|
    && (forall i | 0 <= i < |a| ::
       b[i] == a[i].(phase := b[i].phase) && (a[i].phase.Completed? ==> b[i].phase.Completed?))
  }

  lemma AdvancedChains(a: seq<Row>, b: seq<Row>, c: seq<Row>)
    requires Advanced(a, b) && Advanced(b, c)
    ensures Advanced(a, c)
  {
    forall i | 0 <= i < |a|
      ensures c[i] == a[i].(phase := c[i].phase) && (a[i].phase.Completed? ==> c[i].phase.Completed?)
    {
      assert b[i] == a[i].(phase := b[i].phase);
    }
  }

  function At(j: Journal, i: nat, phase: Phase): Journal
    requires i < |j.rows|
  {
    j.(rows := j.rows[i := j.rows[i].(phase := phase)])
  }

  /** A row whose predecessors are completed and whose successors are pending may change phase,
      as far as its declaration and its count of commits allow. */
  lemma Moves(j: Journal, i: nat, phase: Phase, registry: map<string, nat>, applied: map<string, Applied>,
      commits: map<string, nat>)
    requires Sound(j, registry, applied, commits) && i < |j.rows| && !phase.Pending?
    requires forall k | 0 <= k < i :: j.rows[k].phase.Completed?
    requires forall k | i < k < |j.rows| :: j.rows[k].phase.Pending?
    requires RowSound(j.rows[i].(phase := phase), registry, applied, commits, j.token)
    ensures Sound(At(j, i, phase), registry, applied, commits)
    ensures !j.rows[i].phase.Completed? || phase.Completed? ==> Advanced(j.rows, At(j, i, phase).rows)
  {
    hide RowSound;
    var t := At(j, i, phase);
    assert forall k | 0 <= k < |j.rows| && k != i :: t.rows[k] == j.rows[k];
    forall iid | iid in registry ensures exists k :: 0 <= k < |t.rows| && t.rows[k].iid == iid {
      var k :| 0 <= k < |j.rows| && j.rows[k].iid == iid;
      assert t.rows[k].iid == iid;
    }
  }

  class InstanceUpgrade {
    var registry: map<string, nat>
    var applied: map<string, Applied>
    var journal: Option<Journal>
    /** How many applies committed under the current token. */
    ghost var commits: map<string, nat>

    constructor (registry: map<string, nat>, applied: map<string, Applied>)
      ensures this.registry == registry && this.applied == applied && journal == None
    {
      this.registry, this.applied, this.journal := registry, applied, None;
    }

    ghost predicate Valid()
      reads this
    {
      journal.Some? ==> Sound(journal.value, registry, applied, commits)
    }

    /** Writes the journal: it is there afterwards, or the write failed, or the process died. */
    method Write(j: Journal) returns (f: Fate)
      requires Sound(j, registry, applied, commits) && Valid()
      modifies `journal
      ensures Valid() && journal == (if f.Done? then Some(j) else old(journal))
    {
      if * { return Crashed; }
      if * { return Blocked; }
      journal := Some(j);
      return Done;
    }

    /** `apply` of the base service for one present instance: it may fail, it may commit, and
        it may commit and fail afterwards. */
    method ApplyInstance(j: Journal, i: nat) returns (f: Fate)
      requires Sound(j, registry, applied, commits) && i < |j.rows| && j.rows[i].phase.Applying? && j.rows[i].present
      requires !CommittedBy(applied, j.rows[i], j.token) && journal == Some(j)
      modifies `applied, `commits
      ensures Sound(j, registry, applied, commits)
      ensures f.Done? ==> CommittedBy(applied, j.rows[i], j.token)
    {
      if * { return Crashed; }
      if * { return Blocked; }
      var row := j.rows[i];
      applied := applied[row.iid := Applied(row.candidate, Some(j.token))];
      commits := commits[row.iid := Commits(commits, row.iid) + 1];
      assert forall k | 0 <= k < |j.rows| && k != i :: j.rows[k].iid != row.iid;
      assert RowSound(row, registry, applied, commits, j.token);
      if * { return Crashed; }
      if * { return Blocked; }
      return Done;
    }

    /** A row without a commit on record: its declaration is replaced, then it is applied. */
    method Reapply(j: Journal, i: nat) returns (f: Fate, last: Journal)
      requires Valid() && journal == Some(j) && Sound(j, registry, applied, commits) && InTurn(j, i)
      requires !(j.rows[i].phase.Applying? && CommittedBy(applied, j.rows[i], j.token))
      modifies this
      ensures Valid() && Sound(last, registry, applied, commits) && Advanced(j.rows, last.rows) && last.token == j.token
      ensures journal.Some? && Advanced(j.rows, journal.value.rows) && journal.value.token == j.token
      ensures f.Done? ==>
                && journal == Some(last) && last == At(j, i, Applying) && InTurn(last, i)
                && (j.rows[i].present ==> CommittedBy(applied, last.rows[i], last.token))
    {
      hide Sound, RowSound;
      last := j;
      RowIs(j, i, registry, applied, commits);
      var row := j.rows[i];
      if row.present {
        if * { return Blocked, last; }
      }
      if registry[row.iid] != row.original && registry[row.iid] != row.candidate { return Blocked, last; }
      MayUpdate(j, i, registry, applied, commits);
      last := At(j, i, Updating);
      f := Write(last);
      if !f.Done? { return; }
      if * { return Crashed, last; }
      if * { return Blocked, last; }
      Replaced(last, i, registry, applied, commits);
      registry := registry[row.iid := row.candidate];
      last := At(last, i, Applying);
      f := Write(last);
      if !f.Done? { return; }
      if row.present { f := ApplyInstance(last, i); }
    }

    /** One row of `_continue`; `last` is the journal in memory when it ends. A row whose commit is
        on record is verified and nothing else: it is never applied again, not even when the
        apply that committed it failed afterwards and was undone. */
    method Refresh(j: Journal, i: nat) returns (f: Fate, last: Journal)
      requires Valid() && journal == Some(j) && Sound(j, registry, applied, commits) && InTurn(j, i)
      modifies this
      ensures Valid() && Sound(last, registry, applied, commits) && Advanced(j.rows, last.rows) && last.token == j.token
      ensures journal.Some? && Advanced(j.rows, journal.value.rows) && journal.value.token == j.token
      ensures f.Done? ==> journal == Some(last) && last.rows == j.rows[i := j.rows[i].(phase := Completed)]
      ensures j.rows[i].phase.Applying? && old(CommittedBy(applied, j.rows[i], j.token)) ==>
                applied == old(applied) && registry == old(registry) && commits == old(commits)
    {
      hide Sound, RowSound;
      if j.rows[i].phase.Applying? && CommittedBy(applied, j.rows[i], j.token) {
        last := j;
        if * { return Blocked, last; }
      } else {
        f, last := Reapply(j, i);
        if !f.Done? { return; }
      }
      MayComplete(last, i, registry, applied, commits);
      last := At(last, i, Completed);
      f := Write(last);
    }

    /** `_continue`. The journal's own rows are never refused; on success every declaration is
        its candidate, and every present instance was applied exactly once. */
    method Continue(j: Journal) returns (f: Fate)
      requires Valid() && journal == Some(j)
      modifies this
      ensures Valid()
      ensures journal.Some? ==> Advanced(j.rows, journal.value.rows) && journal.value.token == j.token
      ensures journal == None ==> Upgraded(j, registry, commits)
      ensures f.Done? ==> journal == None
    {
      hide Sound, RowSound, Upgraded;
      var last := j;
      AdvancedSelf(j.rows);
      var refused;
      f, refused := Verify(j);
      if f.Done? {
        var i := 0;
        while i < |last.rows|
          invariant 0 <= i <= |last.rows| && Valid() && journal == Some(last) && Advanced(j.rows, last.rows)
          invariant last.token == j.token
          invariant forall k | 0 <= k < i :: last.rows[k].phase.Completed?
          invariant f.Done?
          decreases |last.rows| - i
        {
          if !last.rows[i].phase.Completed? {
            TurnOf(last, i, registry, applied, commits);
            ghost var before := last;
            f, last := Refresh(last, i);
            AdvancedChains(j.rows, before.rows, last.rows);
            if journal.Some? { AdvancedChains(j.rows, before.rows, journal.value.rows); }
            if !f.Done? { break; }
          }
          i := i + 1;
        }
        if f.Done? {
          AllCompleted(j, last, registry, applied, commits);
          var finished := last.(status := Finished);
          StatusFrame(last, Finished, registry, applied, commits);
          f := Write(finished);
          if f.Done? {
            last := finished;
            if * { return Crashed; }
            if * { journal := None; return Done; }
            f := Blocked;
          }
        }
      }
      if f.Blocked? {
        StatusFrame(last, Failed, registry, applied, commits);
        var written := Write(last.(status := Failed));
        if written.Crashed? { f := Crashed; }
      }
    }

    /** `apply`: under the locks, the journal starts with every row pending. */
    method Begin(rows: seq<Row>, token: nat) returns (f: Fate)
      requires journal == None && DistinctRows(rows) && Covers(rows, registry)
      requires forall i | 0 <= i < |rows| ::
                 rows[i].phase.Pending? && rows[i].iid in registry && rows[i].original == registry[rows[i].iid]
      requires forall iid | iid in applied :: applied[iid].token != Some(token)
      modifies this
      ensures Valid() && registry == old(registry) && applied == old(applied)
      ensures journal == if f.Done? then Some(Journal(token, rows, Running)) else None
    {
      commits := map[];
      var j := Journal(token, rows, Running);
      forall i | 0 <= i < |rows| ensures RowSound(rows[i], registry, applied, commits, token) {}
      f := Write(j);
    }

    /** An upgrade under any sequence of crashes, failures and recoveries. */
    method Campaign(rows: seq<Row>, token: nat, recoveries: nat) returns (f: Fate)
      requires journal == None && DistinctRows(rows) && Covers(rows, registry)
      requires forall i | 0 <= i < |rows| ::
                 rows[i].phase.Pending? && rows[i].iid in registry && rows[i].original == registry[rows[i].iid]
      requires forall iid | iid in applied :: applied[iid].token != Some(token)
      modifies this
      ensures Valid() && (journal.Some? ==> Advanced(rows, journal.value.rows))
      ensures f.Done? ==> journal == None && Upgraded(Journal(token, rows, Running), registry, commits)
    {
      hide Sound, RowSound, Upgraded;
      f := Begin(rows, token);
      if !f.Done? { return; }
      AdvancedSelf(rows);
      ghost var begun := Journal(token, rows, Running);
      for k := 0 to recoveries + 1
        invariant Valid() && (journal.Some? ==> Advanced(rows, journal.value.rows) && journal.value.token == token)
        invariant journal == None ==> Upgraded(begun, registry, commits)
        invariant f.Done? ==> journal == None || k == 0
      {
        if journal == None { return Done; }
        var j := journal.value;
        f := Continue(j);
        if journal.Some? { AdvancedChains(rows, j.rows, journal.value.rows); }
        if journal == None { UpgradedFrame(begun, j, registry, commits); }
      }
    }

    /** The checks before any resumed work: the journal's own progress is never `refused`, only
        re-verifying completed instances can fail. */
    method Verify(j: Journal) returns (f: Fate, refused: bool)
      requires Sound(j, registry, applied, commits)
      ensures !refused
    {
      hide RowSound;
      for i := 0 to |j.rows| {
        RowIs(j, i, registry, applied, commits);
        if j.rows[i].iid !in registry || !Permits(j.rows[i], registry[j.rows[i].iid]) { return Blocked, true; }
        if j.rows[i].phase.Completed? && j.rows[i].present {
          if * { return Blocked, false; }
        }
      }
      if * { return Crashed, false; }
      return Done, false;
    }
  }

  ghost predicate InTurn(j: Journal, i: nat) {
    && i < |j.rows| && !j.rows[i].phase.Completed?
    && (forall k | 0 <= k < i :: j.rows[k].phase.Completed?)
    && (forall k | i < k < |j.rows| :: j.rows[k].phase.Pending?)
  }

  /** Every declaration is its candidate and no other is there; each present instance was
      applied exactly once, an absent one not at all. */
  ghost predicate Upgraded(j: Journal, registry: map<string, nat>, commits: map<string, nat>) {
    && Covers(j.rows, registry)
    && (forall i | 0 <= i < |j.rows| :: j.rows[i].iid in registry && registry[j.rows[i].iid] == j.rows[i].candidate
          && Commits(commits, j.rows[i].iid) == if j.rows[i].present then 1 else 0)
  }

  lemma UpgradedFrame(a: Journal, b: Journal, registry: map<string, nat>, commits: map<string, nat>)
    requires Advanced(a.rows, b.rows) && Upgraded(b, registry, commits)
    ensures Upgraded(a, registry, commits)
  {
    assert forall i | 0 <= i < |a.rows| :: b.rows[i] == a.rows[i].(phase := b.rows[i].phase);
    forall iid | iid in registry ensures exists i :: 0 <= i < |a.rows| && a.rows[i].iid == iid {
      var i :| 0 <= i < |b.rows| && b.rows[i].iid == iid;
      assert a.rows[i].iid == iid;
    }
  }

  lemma AdvancedSelf(rows: seq<Row>)
    ensures Advanced(rows, rows)
  {
  }

  lemma RowIs(j: Journal, i: nat, registry: map<string, nat>, applied: map<string, Applied>, commits: map<string, nat>)
    requires Sound(j, registry, applied, commits) && i < |j.rows|
    ensures j.rows[i].iid in registry && Permits(j.rows[i], registry[j.rows[i].iid])
  {
    assert RowSound(j.rows[i], registry, applied, commits, j.token);
  }

  lemma TurnOf(j: Journal, i: nat, registry: map<string, nat>, applied: map<string, Applied>, commits: map<string, nat>)
    requires Sound(j, registry, applied, commits) && i < |j.rows| && !j.rows[i].phase.Completed?
    requires forall k | 0 <= k < i :: j.rows[k].phase.Completed?
    ensures InTurn(j, i)
  {
  }

  lemma MayUpdate(j: Journal, i: nat, registry: map<string, nat>, applied: map<string, Applied>, commits: map<string,
      nat>)
    requires Sound(j, registry, applied, commits) && InTurn(j, i)
    requires !(j.rows[i].phase.Applying? && CommittedBy(applied, j.rows[i], j.token))
    ensures Sound(At(j, i, Updating), registry, applied, commits) && Advanced(j.rows, At(j, i, Updating).rows)
    ensures InTurn(At(j, i, Updating), i)
  {
    assert RowSound(j.rows[i], registry, applied, commits, j.token);
    assert RowSound(j.rows[i].(phase := Updating), registry, applied, commits, j.token);
    Moves(j, i, Updating, registry, applied, commits);
  }

  /** The declaration is replaced while its row says `updating`; then the row may say `applying`. */
  lemma Replaced(j: Journal, i: nat, registry: map<string, nat>, applied: map<string, Applied>, commits: map<string,
      nat>)
    requires Sound(j, registry, applied, commits) && InTurn(j, i) && j.rows[i].phase.Updating?
    ensures var row := j.rows[i]; var next := registry[row.iid := row.candidate];
            && Sound(j, next, applied, commits) && Sound(At(j, i, Applying), next, applied, commits)
            && InTurn(At(j, i, Applying), i) && Advanced(j.rows, At(j, i, Applying).rows)
            && !CommittedBy(applied, At(j, i, Applying).rows[i], j.token)
  {
    assert RowSound(j.rows[i], registry, applied, commits, j.token);
    var row := j.rows[i];
    var next := registry[row.iid := row.candidate];
    forall k | 0 <= k < |j.rows| ensures RowSound(j.rows[k], next, applied, commits, j.token) {
      assert RowSound(j.rows[k], registry, applied, commits, j.token);
      assert k != i ==> j.rows[k].iid != row.iid;
    }
    assert Covers(j.rows, next);
    assert RowSound(row.(phase := Applying), next, applied, commits, j.token);
    Moves(j, i, Applying, next, applied, commits);
  }

  lemma MayComplete(j: Journal, i: nat, registry: map<string, nat>, applied: map<string, Applied>, commits: map<string,
      nat>)
    requires Sound(j, registry, applied, commits) && InTurn(j, i) && j.rows[i].phase.Applying?
    requires j.rows[i].present ==> CommittedBy(applied, j.rows[i], j.token)
    ensures Sound(At(j, i, Completed), registry, applied, commits) && Advanced(j.rows, At(j, i, Completed).rows)
  {
    assert RowSound(j.rows[i], registry, applied, commits, j.token);
    assert RowSound(j.rows[i].(phase := Completed), registry, applied, commits, j.token);
    Moves(j, i, Completed, registry, applied, commits);
  }

  lemma StatusFrame(j: Journal, status: Status, registry: map<string, nat>, applied: map<string, Applied>,
      commits: map<string, nat>)
    requires Sound(j, registry, applied, commits)
    ensures Sound(j.(status := status), registry, applied, commits)
  {
    var t := j.(status := status);
    assert forall i | 0 <= i < |t.rows| :: RowSound(j.rows[i], registry, applied, commits, j.token);
  }

  lemma AllCompleted(j: Journal, last: Journal, registry: map<string, nat>, applied: map<string, Applied>,
      commits: map<string, nat>)
    requires Sound(last, registry, applied, commits) && Advanced(j.rows, last.rows)
             && forall k | 0 <= k < |last.rows| ::
               last.rows[k].phase.Completed?
    ensures Upgraded(j, registry, commits)
  {
    forall i | 0 <= i < |j.rows|
      ensures last.rows[i].iid == j.rows[i].iid && last.rows[i].candidate == j.rows[i].candidate
              && last.rows[i].present == j.rows[i].present
        && RowSound(last.rows[i], registry, applied, commits, last.token) {
      assert last.rows[i] == j.rows[i].(phase := last.rows[i].phase);
    }
    forall iid | iid in registry ensures exists i :: 0 <= i < |j.rows| && j.rows[i].iid == iid {
      var i :| 0 <= i < |last.rows| && last.rows[i].iid == iid;
      assert j.rows[i].iid == iid;
    }
  }
}
