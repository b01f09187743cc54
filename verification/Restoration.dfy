/** Undoing an apply while units still write their logs and system calls still fail
    (`_RollbackState.restore` in `host_apply.py`). */
module Restoration {
  import opened Text
  import opened Host
  import opened Rollback
  import opened Placement

  /** What happens around one step of the clean-up: the logs that running units write before it,
      whether its call fails, and the logs whose removal fails. */
  datatype Gust = Gust(writes: map<Path, Node>, fails: bool, kept: set<Path>)

  const STILL := Gust(map[], false, {})

  /** A running unit may write a log of its, where it has a directory. */
  predicate Writable(fs: Tree, logs: set<Path>, writes: map<Path, Node>, p: Path) {
    && p in writes && p in logs && p != [] && FileLike(writes[p])
    && Parent(p) in fs && fs[Parent(p)].Dir? && (p in fs ==> FileLike(fs[p]))
  }

  function Blown(fs: Tree, logs: set<Path>, writes: map<Path, Node>): Tree {
    map p | p in fs.Keys + writes.Keys && (p in fs || Writable(fs, logs, writes, p))
      :: if Writable(fs, logs, writes, p) then writes[p] else fs[p]
  }

  /** Only running units write, and only then do calls fail. */
  ghost predicate Allowed(gusts: seq<Gust>, running: bool, failing: bool) {
    forall g | g in gusts :: (g.writes != map[] ==> running) && (g.fails || g.kept != {} ==> failing)
  }

  datatype Sweep = Sweep(fs: Tree, preserved: set<Path>)

  /** The logs of new state directories go; a directory that cannot be listed, or holds anything
      but its marker and logs that went, is to keep its marker. */
  function Swept(fs: Tree, stateDirs: seq<Path>, logs: set<Path>, gusts: seq<Gust>): Sweep
    requires |gusts| == |stateDirs|
  {
    if stateDirs == [] then Sweep(fs, {})
    else
      var last := |stateDirs| - 1;
      var before := Swept(fs, stateDirs[..last], logs, gusts[..last]);
      var dir, g := stateDirs[last], gusts[last];
      var now := Blown(before.fs, logs, g.writes);
      if !(dir in now && now[dir].Dir?) then Sweep(now, before.preserved)
      else if g.fails then Sweep(now, before.preserved + {dir})
      else
        Sweep(now - (Logs(now, dir) - g.kept),
              if Occupied(now, dir) || Logs(now, dir) * g.kept != {} then before.preserved + {dir}
                else before.preserved)
  }

  /** Created paths, newest first; what is spared, fails to go, or is not empty stays. */
  function Cleared(fs: Tree, created: seq<Path>, spared: set<Path>, logs: set<Path>, gusts: seq<Gust>): Tree
    requires |gusts| == |created|
    decreases |created|
  {
    if created == [] then fs
    else
      var last := |created| - 1;
      var p, g := created[last], gusts[last];
      var now := Blown(fs, logs, g.writes);
      Cleared(if p !in spared && !g.fails && Removable(now, p) then now - {p}
        else now, created[..last], spared, logs, gusts[..last])
  }

  function SparedBy(u: Undo, preserved: set<Path>): set<Path> {
    set p | p in u.created && p != [] && Name(p) == OWNER_FILE && Parent(p) in preserved
  }

  /** The last two stages of a restoration. */
  function Cleaned(fs: Tree, u: Undo, logs: set<Path>, sweeps: seq<Gust>, gusts: seq<Gust>): Tree
    requires |sweeps| == |u.stateDirs| && |gusts| == |u.created|
  {
    var swept := Swept(fs, u.stateDirs, logs, sweeps);
    Cleared(swept.fs, u.created, SparedBy(u, swept.preserved), logs, gusts)
  }

  /** The same tree, the logs aside. */
  ghost predicate Alike(a: Tree, b: Tree, logs: set<Path>) { forall p | p !in logs :: SameAt(a, b, p) }

  /** The logs the record knows of: those of new state directories, none of them created, recorded
      or a directory. */
  ghost predicate LogsKnown(u: Undo, logs: set<Path>) {
    && (forall dir, name | dir in u.stateDirs && name in RUNTIME_STATE_FILES :: dir + [name] in logs)
    && (forall p | p in u.created || p in u.stateDirs :: p !in logs && p != [])
    && (forall l | l in logs :: l != [] && Name(l) in RUNTIME_STATE_FILES)
  }

  lemma BlownIs(fs: Tree, logs: set<Path>, writes: map<Path, Node>)
    ensures var r := Blown(fs, logs, writes); Alike(fs, r, logs) && forall p | p in fs ::
              p in r && (fs[p].Dir? <==> r[p].Dir?)
    ensures FilesAt(fs, logs) ==> FilesAt(Blown(fs, logs, writes), logs)
    ensures Rooted(fs) ==> Rooted(Blown(fs, logs, writes))
    ensures writes == map[] ==> Blown(fs, logs, writes) == fs
  {
    var r := Blown(fs, logs, writes);
    if Rooted(fs) {
      forall p, i | p in r && 0 < i < |p| ensures p[..i] in r && r[p[..i]].Dir? {
        if p !in fs && i < |p| - 1 { assert Parent(p)[..i] == p[..i]; }
      }
    }
  }

  lemma AlikeChain(a: Tree, b: Tree, c: Tree, logs: set<Path>)
    requires Alike(a, b, logs) && Alike(b, c, logs)
    ensures Alike(a, c, logs)
  {
    forall p | p !in logs ensures SameAt(a, c, p) { assert SameAt(a, b, p) && SameAt(b, c, p); }
  }

  lemma AlikeSame(a: Tree, logs: set<Path>)
    ensures Alike(a, a, logs)
  {
  }

  lemma WayFree(u: Undo, logs: set<Path>, b: Backup)
    requires LogsFree(u, logs) && b in u.backups
    ensures forall l | l in logs :: !Below(l, b.path)
  {
    forall l | l in logs ensures !Below(l, b.path) { assert !AboveRecord(u, l); }
  }

  lemma DirWayFree(u: Undo, logs: set<Path>, r: Removed)
    requires LogsFree(u, logs) && r in u.removed
    ensures forall l | l in logs :: l != r.path && !Below(l, r.path)
  {
    forall l | l in logs ensures l != r.path && !Below(l, r.path) { assert !AboveRecord(u, l); }
  }

  // ---- the first two stages ----

  lemma PutBackAlike(a: Tree, b: Tree, logs: set<Path>, k: Backup)
    requires Alike(a, b, logs) && FilesAt(a, logs) && FilesAt(b, logs) && Rooted(b) && k.path != []
    requires forall l | l in logs :: !Below(l, k.path)
    ensures PutBack(a, k).None? <==> PutBack(b, k).None?
    ensures PutBack(a, k).Some? ==>
              var x, y := PutBack(a, k).value, PutBack(b, k).value;
              Alike(x, y, logs) && FilesAt(x, logs) && FilesAt(y, logs) && Rooted(y)
  {
    forall q | q in Ancestors(k.path) ensures SameAt(a, b, q) {}
    if k.path !in logs { assert SameAt(a, b, k.path); }
    if PutBack(a, k).Some? {
      var x, y := PutBack(a, k).value, PutBack(b, k).value;
      PutRooted(b, k.path, File(Universal(k.node.text), k.node.mode));
      forall p | p !in logs ensures SameAt(x, y, p) { assert SameAt(a, b, p); }
    }
  }

  lemma MakeAgainAlike(a: Tree, b: Tree, logs: set<Path>, m: Removed)
    requires Alike(a, b, logs) && FilesAt(a, logs) && FilesAt(b, logs) && Rooted(b) && m.path != []
    requires forall l | l in logs :: l != m.path && !Below(l, m.path)
    ensures MakeAgain(a, m).None? <==> MakeAgain(b, m).None?
    ensures MakeAgain(a, m).Some? ==>
              var x, y := MakeAgain(a, m).value, MakeAgain(b, m).value;
              Alike(x, y, logs) && FilesAt(x, logs) && FilesAt(y, logs) && Rooted(y)
  {
    forall q | q in Ancestors(m.path) ensures SameAt(a, b, q) {}
    assert SameAt(a, b, m.path);
    if MakeAgain(a, m).Some? {
      var x, y := MakeAgain(a, m).value, MakeAgain(b, m).value;
      if m.path !in b { PutRooted(b, m.path, Dir(m.mode)); }
      forall p | p !in logs ensures SameAt(x, y, p) { assert SameAt(a, b, p); }
    }
  }

  // ---- the last two stages ----

  lemma LogsOfState(fs: Tree, u: Undo, logs: set<Path>, dir: Path)
    requires LogsKnown(u, logs) && dir in u.stateDirs
    ensures Logs(fs, dir) <= logs
  {
    forall p | p in Logs(fs, dir) ensures p in logs { assert p == dir + [Name(p)]; }
  }

  /** What makes a state directory worth keeping is no log. */
  lemma OccupiedAlike(a: Tree, b: Tree, logs: set<Path>, u: Undo, dir: Path)
    requires Alike(a, b, logs) && FilesAt(a, logs) && FilesAt(b, logs) && LogsKnown(u, logs)
    ensures Occupied(a, dir) ==> Occupied(b, dir)
  {
    if Occupied(a, dir) {
      var p :| p in a && ChildOf(dir, p) && Name(p) != OWNER_FILE && !RuntimeLog(a, dir, p);
      assert p in logs ==> RuntimeLog(a, dir, p);
      assert SameAt(a, b, p);
      assert p in b && !RuntimeLog(b, dir, p);
    }
  }

  lemma RootedWithout(fs: Tree, gone: set<Path>)
    requires Rooted(fs) && forall p | p in gone && p in fs :: !fs[p].Dir?
    ensures Rooted(fs - gone)
  {
    forall p, i | p in fs - gone && 0 < i < |p| ensures p[..i] in fs - gone && (fs - gone)[p[..i]].Dir? {
      assert p[..i] in fs && fs[p[..i]].Dir?;
    }
  }

  /** The purge touches logs only, and whatever happens a directory that holds more is noticed. */
  lemma {:induction false} SweptIs(a: Tree, fs: Tree, u: Undo, stateDirs: seq<Path>, logs: set<Path>, gusts: seq<Gust>)
    requires |gusts| == |stateDirs| && (forall dir | dir in stateDirs :: dir in u.stateDirs) && LogsKnown(u, logs)
    requires Alike(a, fs, logs) && FilesAt(a, logs) && FilesAt(fs, logs) && Rooted(fs)
    ensures var r := Swept(fs, stateDirs, logs, gusts);
            && Alike(a, r.fs, logs) && FilesAt(r.fs, logs) && Rooted(r.fs)
            && (forall dir | Preserved(a, stateDirs, dir) :: dir in r.preserved)
            && (forall dir | dir in r.preserved :: dir in stateDirs)
            && (Allowed(gusts, true, false) ==> forall dir | dir in r.preserved :: Preserved(a, stateDirs, dir))
    decreases |stateDirs|
  {
    hide Blown, Occupied, FilesAt, Rooted;
    if stateDirs != [] {
      var last := |stateDirs| - 1;
      var earlier, dir, g := stateDirs[..last], stateDirs[last], gusts[last];
      assert stateDirs == earlier + [dir] && gusts == gusts[..last] + [g];
      assert forall x :: x in stateDirs <==> x in earlier || x == dir;
      SweptIs(a, fs, u, earlier, logs, gusts[..last]);
      var before := Swept(fs, earlier, logs, gusts[..last]);
      BlownIs(before.fs, logs, g.writes);
      var now := Blown(before.fs, logs, g.writes);
      AlikeChain(a, before.fs, now, logs);
      OccupiedAlike(a, now, logs, u, dir);
      OccupiedAlike(now, a, logs, u, dir);
      LogsOfState(now, u, logs, dir);
      assert SameAt(a, now, dir);
      SweepStep(a, now, logs, Logs(now, dir) - g.kept);
      forall d | Preserved(a, stateDirs, d) && d != dir ensures Preserved(a, earlier, d) {}
      if Allowed(gusts, true, false) { assert g in gusts; }
    }
  }

  lemma SweepStep(a: Tree, now: Tree, logs: set<Path>, gone: set<Path>)
    requires Alike(a, now, logs) && FilesAt(now, logs) && Rooted(now) && gone <= logs
    ensures Alike(a, now - gone, logs) && FilesAt(now - gone, logs) && Rooted(now - gone)
  {
    RootedWithout(now, gone);
    forall p | p !in logs ensures SameAt(a, now - gone, p) { assert SameAt(a, now, p); }
  }

  /** Nothing but logs and created paths is touched, and what is spared stays. */
  lemma {:induction false} ClearedKeeps(a: Tree, fs: Tree, created: seq<Path>, spared: set<Path>, logs: set<Path>,
      gusts: seq<Gust>, p: Path)
    requires |gusts| == |created| && p !in logs && SameAt(a, fs, p) && (p in spared || p !in created)
    ensures SameAt(a, Cleared(fs, created, spared, logs, gusts), p)
    decreases |created|
  {
    if created != [] {
      var last := |created| - 1;
      var c, g := created[last], gusts[last];
      BlownIs(fs, logs, g.writes);
      var now := Blown(fs, logs, g.writes);
      assert SameAt(fs, now, p);
      ClearedKeeps(a, if c !in spared && !g.fails && Removable(now, c) then now - {c}
        else now, created[..last], spared, logs, gusts[..last], p);
    }
  }

  lemma CleanedKeeps(a: Tree, fs: Tree, u: Undo, logs: set<Path>, sweeps: seq<Gust>, gusts: seq<Gust>, p: Path)
    requires |sweeps| == |u.stateDirs| && |gusts| == |u.created| && LogsKnown(u, logs)
    requires Alike(a, fs, logs) && FilesAt(a, logs) && FilesAt(fs, logs) && Rooted(fs) && p !in logs
    requires p in u.created ==> p != [] && Name(p) == OWNER_FILE && Preserved(a, u.stateDirs, Parent(p))
    ensures SameAt(a, Cleaned(fs, u, logs, sweeps, gusts), p)
  {
    SweptIs(a, fs, u, u.stateDirs, logs, sweeps);
    var swept := Swept(fs, u.stateDirs, logs, sweeps);
    hide Swept, Cleared, SameAt, Preserved;
    ClearedKeeps(a, swept.fs, u.created, SparedBy(u, swept.preserved), logs, gusts, p);
  }

  /** Neither a log nor on the way to one. */
  ghost predicate Aside(logs: set<Path>, p: Path) { forall l | l in logs :: p != l && !Below(p, l) }

  ghost predicate AlikeAside(a: Tree, b: Tree, logs: set<Path>) { forall p | Aside(logs, p) :: SameAt(a, b, p) }

  lemma BelowChain(a: Path, b: Path, c: Path)
    ensures Below(a, b) && Below(b, c) ==> Below(a, c)
  {
    if Below(a, b) && Below(b, c) { assert c[..|a|] == b[..|a|]; }
  }

  lemma RemovableAside(a: Tree, b: Tree, logs: set<Path>, p: Path)
    requires AlikeAside(a, b, logs) && Aside(logs, p)
    ensures Removable(a, p) <==> Removable(b, p)
  {
    assert SameAt(a, b, p);
    forall q | Below(p, q) ensures SameAt(a, b, q) {
      forall l | l in logs ensures q != l && !Below(q, l) { BelowChain(p, q, l); }
      assert Aside(logs, q);
    }
  }

  /** Logs apart and what holds them, removal with noise agrees with removal without. */
  lemma {:induction false} ClearedAside(a: Tree, b: Tree, created: seq<Path>, spared: set<Path>, logs: set<Path>,
      gusts: seq<Gust>)
    requires |gusts| == |created| && AlikeAside(a, b, logs) && forall g | g in gusts :: !g.fails
    ensures AlikeAside(Uncreate(a, created, spared), Cleared(b, created, spared, logs, gusts), logs)
    decreases |created|
  {
    if created != [] {
      var last := |created| - 1;
      var c, g := created[last], gusts[last];
      assert g in gusts && forall x | x in gusts[..last] :: x in gusts;
      BlownIs(b, logs, g.writes);
      var now := Blown(b, logs, g.writes);
      forall p | Aside(logs, p)
        ensures SameAt(a, now, p)
      { assert p !in logs; assert SameAt(a, b, p) && SameAt(b, now, p); }
      if Aside(logs, c) { RemovableAside(a, now, logs, c); }
      var x := if c !in spared && Removable(a, c) then a - {c} else a;
      var y := if c !in spared && !g.fails && Removable(now, c) then now - {c} else now;
      forall p | Aside(logs, p) ensures SameAt(x, y, p) { assert SameAt(a, now, p); }
      ClearedAside(x, y, created[..last], spared, logs, gusts[..last]);
    }
  }

  lemma PurgeAlike(a: Tree, u: Undo, logs: set<Path>)
    requires LogsKnown(u, logs)
    ensures Alike(a, PurgeLogs(a, u.stateDirs), logs)
  {
    hide PurgeLogs, FileLike;
    PurgeLogsIs(a, u.stateDirs);
    forall p, dir | dir in u.stateDirs && RuntimeLog(a, dir, p) ensures p in logs { assert p == dir + [Name(p)]; }
  }

  lemma SparedTheSame(a: Tree, fs: Tree, u: Undo, logs: set<Path>, sweeps: seq<Gust>)
    requires |sweeps| == |u.stateDirs| && LogsKnown(u, logs) && Allowed(sweeps, true, false)
    requires Alike(a, fs, logs) && FilesAt(a, logs) && FilesAt(fs, logs) && Rooted(fs)
    ensures SparedBy(u, Swept(fs, u.stateDirs, logs, sweeps).preserved) == SparedOf(a, u)
  {
    SweptIs(a, fs, u, u.stateDirs, logs, sweeps);
    hide Swept, Preserved;
  }

  lemma CleanedAside(a: Tree, fs: Tree, u: Undo, logs: set<Path>, sweeps: seq<Gust>, gusts: seq<Gust>)
    requires |sweeps| == |u.stateDirs| && |gusts| == |u.created| && LogsKnown(u, logs)
    requires Alike(a, fs, logs) && FilesAt(a, logs) && FilesAt(fs, logs) && Rooted(fs)
    requires Allowed(sweeps, true, false) && Allowed(gusts, true, false)
    ensures AlikeAside(Uncreate(PurgeLogs(a, u.stateDirs), u.created, SparedOf(a, u)),
            Cleaned(fs, u, logs, sweeps, gusts), logs)
  {
    SweptIs(a, fs, u, u.stateDirs, logs, sweeps);
    SparedTheSame(a, fs, u, logs, sweeps);
    PurgeAlike(a, u, logs);
    var purged, swept := PurgeLogs(a, u.stateDirs), Swept(fs, u.stateDirs, logs, sweeps);
    hide Swept, Cleared, Uncreate, PurgeLogs, Preserved;
    forall p | Aside(logs, p) ensures SameAt(purged, swept.fs, p) {
      assert p !in logs;
      assert SameAt(a, purged, p) && SameAt(a, swept.fs, p);
    }
    ClearedAside(purged, swept.fs, u.created, SparedOf(a, u), logs, gusts);
  }

  // ---- calm, and one late disturbance ----

  lemma {:induction false} SweptStill(fs: Tree, stateDirs: seq<Path>, logs: set<Path>, gusts: seq<Gust>)
    requires |gusts| == |stateDirs| && Allowed(gusts, false, false)
    ensures Swept(fs, stateDirs, logs, gusts).fs == PurgeLogs(fs, stateDirs)
    decreases |stateDirs|
  {
    hide Blown, Occupied, Logs;
    if stateDirs != [] {
      var last := |stateDirs| - 1;
      var before := PurgeLogs(fs, stateDirs[..last]);
      assert gusts[last] in gusts && forall x | x in gusts[..last] :: x in gusts;
      SweptStill(fs, stateDirs[..last], logs, gusts[..last]);
      BlownIs(before, logs, gusts[last].writes);
      var dir := stateDirs[last];
      assert Logs(before, dir) - gusts[last].kept == Logs(before, dir);
    }
  }

  lemma {:induction false} UncreateOthers(fs: Tree, created: seq<Path>, spared: set<Path>, more: set<Path>)
    requires forall p | p in more :: p !in created
    ensures Uncreate(fs, created, spared + more) == Uncreate(fs, created, spared)
    decreases |created|
  {
    if created != [] {
      var last := |created| - 1;
      var c := created[last];
      assert c in created && forall p | p in created[..last] :: p in created;
      UncreateOthers(if c !in spared && Removable(fs, c) then fs - {c} else fs, created[..last], spared, more);
    }
  }

  function Stuck(created: seq<Path>, gusts: seq<Gust>): set<Path>
    requires |gusts| == |created|
  {
    set i | 0 <= i < |created| && gusts[i].fails :: created[i]
  }

  /** Writes before the first removal only: failures are as good as spared paths. */
  lemma {:induction false} LateClears(fs: Tree, created: seq<Path>, spared: set<Path>, logs: set<Path>,
      gusts: seq<Gust>)
    requires |gusts| == |created| && TopDown(created) && forall i | 0 <= i < |gusts| - 1 :: gusts[i].writes == map[]
    ensures Cleared(fs, created, spared, logs, gusts)
            == Uncreate(if gusts == [] then fs
              else Blown(fs, logs, gusts[|gusts| - 1].writes), created, spared + Stuck(created, gusts))
    decreases |created|
  {
    if created != [] {
      var last := |created| - 1;
      var c, g, before, calm := created[last], gusts[last], created[..last], gusts[..last];
      var now := Blown(fs, logs, g.writes);
      var next := if c !in spared && !g.fails && Removable(now, c) then now - {c} else now;
      LateClears(next, before, spared, logs, calm);
      if calm != [] { BlownIs(next, logs, calm[|calm| - 1].writes); }
      forall i | 0 <= i < last ensures created[i] != c {}
      var one := if g.fails then {c} else {};
      assert Stuck(created, gusts) == Stuck(before, calm) + one;
      assert c in spared + Stuck(created, gusts) <==> c in spared || g.fails;
      UncreateOthers(next, before, spared + Stuck(before, calm), one);
      assert spared + Stuck(created, gusts) == spared + Stuck(before, calm) + one;
    }
  }

  /** With nobody writing and nothing failing, the clean-up is the plain one. */
  lemma CleanedStill(fs: Tree, u: Undo, logs: set<Path>, sweeps: seq<Gust>, gusts: seq<Gust>)
    requires |sweeps| == |u.stateDirs| && |gusts| == |u.created| && LogsKnown(u, logs) && TopDown(u.created)
    requires FilesAt(fs, logs) && Rooted(fs) && Allowed(sweeps, false, false) && Allowed(gusts, false, false)
    ensures Cleaned(fs, u, logs, sweeps, gusts) == Uncreate(PurgeLogs(fs, u.stateDirs), u.created, SparedOf(fs, u))
  {
    SweptStill(fs, u.stateDirs, logs, sweeps);
    SparedTheSame(fs, fs, u, logs, sweeps);
    var swept := Swept(fs, u.stateDirs, logs, sweeps);
    forall i | 0 <= i < |gusts| ensures gusts[i].writes == map[] && !gusts[i].fails { assert gusts[i] in gusts; }
    LateClears(swept.fs, u.created, SparedOf(fs, u), logs, gusts);
    assert Stuck(u.created, gusts) == {};
    assert SparedOf(fs, u) + {} == SparedOf(fs, u);
    if gusts != [] { BlownIs(swept.fs, logs, gusts[|gusts| - 1].writes); }
  }

  // ---- the owner marker ----

  function Calm(n: nat): (r: seq<Gust>)
    ensures |r| == n && forall i | 0 <= i < n :: r[i] == STILL
  {
    seq(n, i => STILL)
  }

  /** A clean-up that is disturbed once: a log is written before the first removal, or one removal fails. */
  function Disturbed(n: nat, writes: map<Path, Node>, k: nat, fails: bool): (r: seq<Gust>)
    requires k < n
    ensures |r| == n && Allowed(r, writes != map[], fails)
    ensures forall i | 0 <= i < n :: r[i] == Gust(if i == n - 1 then writes else map[], fails && i == k, {})
  {
    seq(n, i => Gust(if i == n - 1 then writes else map[], fails && i == k, {}))
  }

  /** The marker of a new state directory, on record and not worth keeping where it was looked at. */
  ghost predicate MarkerToGo(fs: Tree, u: Undo, dir: Path) {
    dir + [OWNER_FILE] in u.created && !Preserved(fs, u.stateDirs, dir)
  }

  ghost predicate StateRecorded(fs: Tree, u: Undo, logs: set<Path>, dir: Path) {
    && Rooted(fs) && FilesAt(fs, logs) && LogsKnown(u, logs) && TopDown(u.created) && [] !in u.created
    && dir in u.stateDirs && dir in u.created && Name(dir) != OWNER_FILE && dir in fs && fs[dir].Dir?
    && dir + [OWNER_FILE] in fs && FileLike(fs[dir + [OWNER_FILE]])
  }

  lemma MarkerGoes(fs: Tree, u: Undo, logs: set<Path>, dir: Path, now: Tree, spared: set<Path>)
    requires StateRecorded(fs, u, logs, dir) && MarkerToGo(fs, u, dir) && Rooted(now)
    requires SameAt(fs, now, dir + [OWNER_FILE])
    requires spared <= SparedOf(fs, u) + {dir}
    ensures Gone(now, u.created, spared, dir + [OWNER_FILE])
  {
    var owner := dir + [OWNER_FILE];
    assert Parent(owner) == dir && owner != dir;
    forall q | q in now ensures !Below(owner, q) { if Below(owner, q) { RootedAbove(now, owner, q); } }
  }

  lemma LogStays(fs: Tree, u: Undo, logs: set<Path>, dir: Path, purged: Tree, now: Tree, log: Path)
    requires StateRecorded(fs, u, logs, dir) && Alike(fs, purged, logs) && FilesAt(purged, logs)
    requires log == dir + ["mcp.log"] && now == Blown(purged, logs, map[log := File("", 0)])
    ensures log in now && Below(dir, log) && log !in u.created
  {
    assert "mcp.log" in RUNTIME_STATE_FILES && log in logs;
    assert Parent(log) == dir && SameAt(fs, purged, dir);
    assert Writable(purged, logs, map[log := File("", 0)], log);
  }

  /** A log written after the purge keeps the directory and not its marker; so does a directory
      that cannot be removed. */
  lemma MarkerLost(fs: Tree, u: Undo, logs: set<Path>, dir: Path, running: bool, failing: bool)
    returns (gusts: seq<Gust>)
    requires StateRecorded(fs, u, logs, dir) && MarkerToGo(fs, u, dir) && (running || failing)
    ensures |gusts| == |u.created| && Allowed(gusts, running, failing)
    ensures var end := Cleaned(fs, u, logs, Calm(|u.stateDirs|), gusts); dir in end && dir + [OWNER_FILE] !in end
  {
    var owner, log, sweeps := dir + [OWNER_FILE], dir + ["mcp.log"], Calm(|u.stateDirs|);
    var k :| 0 <= k < |u.created| && u.created[k] == dir;
    var writes := if running then map[log := File("", 0)] else map[];
    gusts := Disturbed(|u.created|, writes, k, failing);
    SweptStill(fs, u.stateDirs, logs, sweeps);
    SparedTheSame(fs, fs, u, logs, sweeps);
    PurgeAlike(fs, u, logs);
    var purged, swept := PurgeLogs(fs, u.stateDirs), Swept(fs, u.stateDirs, logs, sweeps).fs;
    var last := gusts[|gusts| - 1].writes;
    LateClears(purged, u.created, SparedOf(fs, u), logs, gusts);
    BlownIs(purged, logs, last);
    var now, spared := Blown(purged, logs, last), SparedOf(fs, u) + Stuck(u.created, gusts);
    SweptIs(fs, fs, u, u.stateDirs, logs, sweeps);
    UncreateIs(now, u.created, spared);
    forall i | 0 <= i < |gusts| && gusts[i].fails ensures u.created[i] == dir {}
    assert SameAt(fs, swept, dir + [OWNER_FILE]) && SameAt(swept, now, dir + [OWNER_FILE]);
    MarkerGoes(fs, u, logs, dir, now, spared);
    assert SameAt(fs, swept, dir) && SameAt(swept, now, dir);
    if failing {
      assert gusts[k].fails;
      assert dir in spared;
    } else {
      LogStays(fs, u, logs, dir, purged, now, log);
    }
  }

  lemma RootedPurge(fs: Tree, stateDirs: seq<Path>)
    requires Rooted(fs)
    ensures Rooted(PurgeLogs(fs, stateDirs))
  {
    PurgeLogsIs(fs, stateDirs);
    hide PurgeLogs;
    var purged := PurgeLogs(fs, stateDirs);
    forall p, i | p in purged && 0 < i < |p| ensures p[..i] in purged && purged[p[..i]].Dir? {
      assert p[..i] in fs && fs[p[..i]].Dir?;
    }
  }

  lemma OnlyMarkerBelow(fs: Tree, u: Undo, logs: set<Path>, dir: Path, q: Path)
    requires StateRecorded(fs, u, logs, dir) && !Preserved(fs, u.stateDirs, dir)
    requires q in PurgeLogs(fs, u.stateDirs) && Below(dir, q)
    ensures q == dir + [OWNER_FILE]
  {
    PurgeLogsIs(fs, u.stateDirs);
    hide PurgeLogs, Occupied, TopDown, LogsKnown, FilesAt;
    OnlyOwnerBelow(fs, u, dir, q);
    if q != dir + [OWNER_FILE] { RootedAbove(fs, dir + [OWNER_FILE], q); }
  }

  /** Undisturbed, a directory that stays has its marker. */
  lemma MarkerStays(fs: Tree, u: Undo, logs: set<Path>, dir: Path)
    requires StateRecorded(fs, u, logs, dir) && MarkerToGo(fs, u, dir)
    ensures dir !in Uncreate(PurgeLogs(fs, u.stateDirs), u.created, SparedOf(fs, u))
  {
    var owner, purged, spared := dir + [OWNER_FILE], PurgeLogs(fs, u.stateDirs), SparedOf(fs, u);
    hide Uncreate, PurgeLogs, Preserved, FilesAt, LogsKnown;
    RootedPurge(fs, u.stateDirs);
    UncreateIs(purged, u.created, spared);
    assert Parent(owner) == dir && owner !in spared;
    assert dir !in spared;
    forall q | q in purged && Below(dir, q) ensures q == owner { OnlyMarkerBelow(fs, u, logs, dir, q); }
  }

  /** Exactly when undoing cannot leave a new state directory without its marker, whatever running
      units write and whichever removal fails: the marker is not to be removed at all, or from the
      purge on no unit runs and no call fails. */
  lemma MarkerStaysExactly(fs: Tree, u: Undo, logs: set<Path>, dir: Path, running: bool, failing: bool)
    requires StateRecorded(fs, u, logs, dir)
    ensures (forall sweeps, gusts | |sweeps| == |u.stateDirs| && |gusts| == |u.created|
                                    && Allowed(sweeps, running, failing) && Allowed(gusts, running, failing) ::
               dir in Cleaned(fs, u, logs, sweeps, gusts) ==> dir + [OWNER_FILE] in Cleaned(fs, u, logs, sweeps, gusts))
            <==> !MarkerToGo(fs, u, dir) || (!running && !failing)
  {
    hide Cleaned;
    if MarkerToGo(fs, u, dir) && (running || failing) {
      var gusts := MarkerLost(fs, u, logs, dir, running, failing);
      assert Allowed(Calm(|u.stateDirs|), running, failing);
    } else {
      forall sweeps, gusts | |sweeps| == |u.stateDirs| && |gusts| == |u.created|
                             && Allowed(sweeps, running, failing) && Allowed(gusts, running, failing)
        ensures dir in Cleaned(fs, u, logs, sweeps, gusts) ==> dir + [OWNER_FILE] in Cleaned(fs, u, logs, sweeps, gusts)
      {
        MarkerSafe(fs, u, logs, dir, running, failing, sweeps, gusts);
      }
    }
  }

  lemma MarkerSafe(fs: Tree, u: Undo, logs: set<Path>, dir: Path, running: bool, failing: bool, sweeps: seq<Gust>,
      gusts: seq<Gust>)
    requires StateRecorded(fs, u, logs, dir) && (!MarkerToGo(fs, u, dir) || (!running && !failing))
    requires |sweeps| == |u.stateDirs| && |gusts| == |u.created|
    requires Allowed(sweeps, running, failing) && Allowed(gusts, running, failing)
    ensures dir in Cleaned(fs, u, logs, sweeps, gusts) ==> dir + [OWNER_FILE] in Cleaned(fs, u, logs, sweeps, gusts)
  {
    var owner := dir + [OWNER_FILE];
    hide Cleaned;
    if MarkerToGo(fs, u, dir) {
      CleanedStill(fs, u, logs, sweeps, gusts);
      MarkerStays(fs, u, logs, dir);
    } else {
      assert Parent(owner) == dir && Name(owner) == OWNER_FILE;
      assert OWNER_FILE !in RUNTIME_STATE_FILES;
      CleanedKeeps(fs, fs, u, logs, sweeps, gusts, owner);
    }
  }

  // ---- whole restorations ----

  /** How a restoration went: whether units of the instance ran, whether a removal failed, the tree
      between its second and third stage, and what happened around the last two. */
  datatype Replay = Replay(running: bool, stuck: bool, rebuilt: Tree, sweeps: seq<Gust>, gusts: seq<Gust>)

  ghost predicate Replayed(fs: Tree, u: Undo, logs: set<Path>, run: Replay, end: Tree) {
    && |run.sweeps| == |u.stateDirs| && |run.gusts| == |u.created|
    && Allowed(run.sweeps, run.running, run.stuck) && Allowed(run.gusts, run.running, run.stuck)
    && Rebuilding(fs, u).Some? && Alike(Rebuilding(fs, u).value, run.rebuilt, logs)
    && Rooted(run.rebuilt) && FilesAt(run.rebuilt, logs) && (!run.running ==> run.rebuilt == Rebuilding(fs, u).value)
    && end == Cleaned(run.rebuilt, u, logs, run.sweeps, run.gusts)
  }

  lemma RebuiltFiles(fs: Tree, u: Undo, dirs: Tree, logs: set<Path>)
    requires Rebuilt(fs, u, dirs) && AllText(u) && LogsFree(u, logs) && FilesAt(fs, logs)
    ensures FilesAt(dirs, logs)
  {
    forall l | l in logs && l in dirs ensures FileLike(dirs[l]) {
      OldestFound(u.backups, l);
      assert !AboveRecord(u, l);
    }
  }

  /** A restoration that is not interrupted met text only, and however disturbed gives every earlier
      file its text and mode, every earlier directory, and nothing the record does not know; the
      logs of units aside. */
  lemma ReplayInverts(fs0: Tree, fs: Tree, u: Undo, noisy: set<Path>, scaffold: set<Path>, logs: set<Path>, run: Replay,
      end: Tree)
    requires Tracks(fs0, fs, u, noisy, scaffold) && noisy <= logs && LogsFree(u, logs) && FilesAt(fs, logs)
    requires LogsKnown(u, logs)
    requires Replayed(fs, u, logs, run, end)
    ensures AllText(u)
    ensures forall p | p in fs0 && !fs0[p].Dir? && p !in logs ::
              p in end && end[p] == if Oldest(u.backups, p).Some? then AsRead(fs0[p]) else fs0[p]
    ensures forall p | p in fs0 && fs0[p].Dir? :: p in end && end[p].Dir?
    ensures forall p | p in end && p !in fs0 && p !in logs :: Known(fs0, u, noisy, scaffold, p)
    ensures forall p | p in fs0 && p in fs && p !in logs && Oldest(u.backups, p).None? :: p in end && end[p] == fs[p]
  {
    PutBackAllIs(fs, u.backups);
    var dirs := Rebuilds(fs, u);
    RebuiltFiles(fs, u, dirs, logs);
    hide Cleaned, Rebuilding, Restored, PutBackAll;
    forall p | p !in logs && p !in u.created ensures SameAt(dirs, end, p) {
      CleanedKeeps(dirs, run.rebuilt, u, logs, run.sweeps, run.gusts, p);
    }
    forall p | p in fs0 ensures p !in u.created {}
    forall p | p in fs0 && fs0[p].Dir? ensures p in dirs && dirs[p].Dir? && p !in logs {
      OldestFound(u.backups, p);
      assert p in logs ==> !AboveRecord(u, p);
    }
    forall p | p in end && p !in fs0 && p !in logs ensures Known(fs0, u, noisy, scaffold, p) {
      OldestFound(u.backups, p);
      assert p !in u.created ==> SameAt(dirs, end, p);
    }
    forall p | p in fs0 && p !in logs ensures SameAt(dirs, end, p) {}
  }

  /** What the apply created goes: all that is not on the way to a log unless a removal fails, and
      the rest as well while no unit runs. */
  lemma ReplayClears(fs0: Tree, fs: Tree, u: Undo, noisy: set<Path>, scaffold: set<Path>, logs: set<Path>, run: Replay,
      end: Tree)
    requires Tracks(fs0, fs, u, noisy, scaffold) && Undisturbed(fs0, fs, u, noisy, scaffold)
    requires LogsFree(u, logs) && FilesAt(fs, logs) && LogsKnown(u, logs) && Replayed(fs, u, logs, run, end)
    ensures !run.stuck ==> forall p | p in u.created && Aside(logs, p) :: p !in end
    ensures !run.stuck && !run.running ==> forall p | p in u.created :: p !in end
  {
    PutBackAllIs(fs, u.backups);
    var dirs := Rebuilds(fs, u);
    RebuiltFiles(fs, u, dirs, logs);
    CreatedGoes(fs0, fs, u, noisy, scaffold);
    hide Cleaned, Uncreate, PurgeLogs, Undisturbed, Rebuilding, PutBackAll, FilesAt, LogsKnown, LogsFree;
    if !run.stuck {
      CleanedAside(dirs, run.rebuilt, u, logs, run.sweeps, run.gusts);
      var still := Restored(fs, u).value;
      forall p | p in u.created && Aside(logs, p) ensures p !in end { assert SameAt(still, end, p); }
      if !run.running { CleanedStill(dirs, u, logs, run.sweeps, run.gusts); }
    }
  }

  lemma AllowedMore(gusts: seq<Gust>, running: bool, failing: bool, more: bool)
    requires Allowed(gusts, running, failing) && (failing ==> more)
    ensures Allowed(gusts, running, more)
  {
  }

  /** The record can be replayed exactly when every backup is text. */
  lemma ReplaysText(fs: Tree, u: Undo)
    requires Rooted(fs) && ClearRecord(fs, u)
    ensures Rebuilding(fs, u).Some? <==> AllText(u)
    ensures forall b | b in u.backups :: b.path != []
    ensures forall r | r in u.removed :: r.path != []
  {
    PutBackAllIs(fs, u.backups);
    if AllText(u) { var _ := Rebuilds(fs, u); }
  }

  lemma AllowedNothing(running: bool)
    ensures Allowed([], running, false)
  {
  }

  lemma AllowedFirst(g: Gust, gusts: seq<Gust>, running: bool, failing: bool)
    requires Allowed(gusts, running, failing) && (g.writes != map[] ==> running) && g.kept == {}
    ensures Allowed([g] + gusts, running, failing || g.fails)
  {
  }

  lemma ClearedNothing(fs: Tree, spared: set<Path>, logs: set<Path>)
    ensures Cleared(fs, [], spared, logs, []) == fs
  {
  }

  /** The oldest created path comes last. */
  lemma {:induction false} ClearedFirst(fs: Tree, p: Path, created: seq<Path>, spared: set<Path>, logs: set<Path>,
      g: Gust, gusts: seq<Gust>)
    requires |gusts| == |created|
    ensures var now := Blown(Cleared(fs, created, spared, logs, gusts), logs, g.writes);
            Cleared(fs, [p] + created, spared, logs, [g] + gusts)
            == if p !in spared && !g.fails && Removable(now, p) then now - {p} else now
    decreases |created|
  {
    hide Blown, Removable;
    if created == [] {
      assert [p] + created == [p] && [g] + gusts == [g];
      var now := Blown(fs, logs, g.writes);
      ClearedNothing(if p !in spared && !g.fails && Removable(now, p) then now - {p} else now, spared, logs);
      assert [p][..0] == [] && [g][..0] == [];
    } else {
      var last := |created| - 1;
      var c, k := created[last], gusts[last];
      var now := Blown(fs, logs, k.writes);
      var next := if c !in spared && !k.fails && Removable(now, c) then now - {c} else now;
      assert ([p] + created)[..last + 1] == [p] + created[..last] && ([g] + gusts)[..last + 1] == [g] + gusts[..last];
      ClearedFirst(next, p, created[..last], spared, logs, g, gusts[..last]);
    }
  }

  // ---- the class ----

  /** `_RollbackState`. */
  class RollbackState {
    var backups: seq<Backup>
    var created: seq<Path>
    var stateDirs: seq<Path>
    var removed: seq<Removed>

    constructor ()
      ensures State() == NOTHING
    {
      backups, created, stateDirs, removed := [], [], [], [];
    }

    function State(): Undo
      reads this
    {
      Undo(backups, created, stateDirs, removed)
    }

    method Save(disk: Disk, path: Path)
      modifies this
      ensures State() == RecordBackup(disk.fs, old(State()), path)
    {
      if path in disk.fs && FileLike(disk.fs[path]) {
        backups := backups + [Backup(path, disk.fs[path])];
      }
    }

    /** Units that still run write their logs. */
    method UnitsWrite(disk: Disk, logs: set<Path>, running: bool) returns (writes: map<Path, Node>)
      modifies disk
      ensures disk.fs == Blown(old(disk.fs), logs, writes) && (writes != map[] ==> running)
    {
      writes := map[];
      if running { writes := *; }
      disk.fs := Blown(disk.fs, logs, writes);
    }

    method WriteBack(disk: Disk, b: Backup) returns (o: Outcome, broken: bool)
      modifies disk
      ensures if o.Pass? then PutBack(old(disk.fs), b) == Some(disk.fs) && !broken
              else broken || PutBack(old(disk.fs), b).None?
    {
      if PutBack(disk.fs, b).None? { return Raise, false; }
      o := disk.AtomicWrite(b.path, Universal(b.node.text), b.node.mode);
      broken := o.Raise?;
    }

    method MakeOne(disk: Disk, r: Removed) returns (o: Outcome, broken: bool)
      modifies disk
      ensures if o.Pass? then MakeAgain(old(disk.fs), r) == Some(disk.fs) && !broken
              else broken || MakeAgain(old(disk.fs), r).None?
    {
      if r.path in disk.fs { return Pass, false; }
      if MakeAgain(disk.fs, r).None? { return Raise, false; }
      o := disk.MakeDirectory(r.path, r.mode);
      broken := o.Raise?;
    }

    /** Backups newest first; `broken` when the call that stopped it was a failing write. */
    method RestoreFiles(disk: Disk, logs: set<Path>, running: bool) returns (o: Outcome, broken: bool)
      requires Rooted(disk.fs) && FilesAt(disk.fs, logs) && LogsFree(State(), logs) && forall b | b in backups ::
                 b.path != []
      modifies disk
      ensures o.Raise? && !broken ==> PutBackAll(old(disk.fs), backups).None?
      ensures o.Pass? ==>
                && PutBackAll(old(disk.fs), backups).Some?
                   && Alike(PutBackAll(old(disk.fs), backups).value, disk.fs, logs)
                && Rooted(disk.fs) && FilesAt(disk.fs, logs) && FilesAt(PutBackAll(old(disk.fs), backups).value, logs)
                && (!running ==> disk.fs == PutBackAll(old(disk.fs), backups).value)
    {
      hide Blown, Rooted, FilesAt, Alike, PutBack, LogsFree;
      ghost var still := disk.fs;
      AlikeSame(still, logs);
      assert backups[..|backups|] == backups;
      broken := false;
      for i := |backups| downto 0
        invariant PutBackAll(still, backups[..i]) == PutBackAll(old(disk.fs), backups)
        invariant Alike(still, disk.fs, logs) && FilesAt(still, logs) && FilesAt(disk.fs, logs) && Rooted(disk.fs)
        invariant (!running ==> still == disk.fs) && !broken
      {
        assert backups[..i + 1][..i] == backups[..i];
        ghost var before := disk.fs;
        var writes := UnitsWrite(disk, logs, running);
        BlownIs(before, logs, writes);
        AlikeChain(still, before, disk.fs, logs);
        assert backups[i] in backups;
        WayFree(State(), logs, backups[i]);
        PutBackAlike(still, disk.fs, logs, backups[i]);
        o, broken := WriteBack(disk, backups[i]);
        if o.Raise? { return; }
        still := PutBack(still, backups[i]).value;
      }
      return Pass, false;
    }

    /** Removed directories, newest first; `twin` is the tree as it would be had no unit run. */
    method RestoreDirectories(disk: Disk, logs: set<Path>, running: bool, ghost twin: Tree)
      returns (o: Outcome, broken: bool)
      requires Rooted(disk.fs) && FilesAt(disk.fs, logs) && LogsFree(State(), logs) && forall r | r in removed ::
                 r.path != []
      requires Alike(twin, disk.fs, logs) && FilesAt(twin, logs) && (!running ==> twin == disk.fs)
      modifies disk
      ensures o.Raise? && !broken ==> MakeAllAgain(twin, removed).None?
      ensures o.Pass? ==>
                && MakeAllAgain(twin, removed).Some? && Alike(MakeAllAgain(twin, removed).value, disk.fs, logs)
                && Rooted(disk.fs) && FilesAt(disk.fs, logs)
                && (!running ==> disk.fs == MakeAllAgain(twin, removed).value)
    {
      hide Blown, Rooted, FilesAt, Alike, MakeAgain, LogsFree;
      ghost var still := twin;
      assert removed[..|removed|] == removed;
      broken := false;
      for i := |removed| downto 0
        invariant MakeAllAgain(still, removed[..i]) == MakeAllAgain(twin, removed)
        invariant Alike(still, disk.fs, logs) && FilesAt(still, logs) && FilesAt(disk.fs, logs) && Rooted(disk.fs)
        invariant (!running ==> still == disk.fs) && !broken
      {
        assert removed[..i + 1][..i] == removed[..i];
        ghost var before := disk.fs;
        var writes := UnitsWrite(disk, logs, running);
        BlownIs(before, logs, writes);
        AlikeChain(still, before, disk.fs, logs);
        assert removed[i] in removed;
        DirWayFree(State(), logs, removed[i]);
        MakeAgainAlike(still, disk.fs, logs, removed[i]);
        o, broken := MakeOne(disk, removed[i]);
        if o.Raise? { return; }
        still := MakeAgain(still, removed[i]).value;
      }
      return Pass, false;
    }

    /** Clears the runtime logs of new state directories; tells which ones must keep their marker. */
    method Purge(disk: Disk, logs: set<Path>, running: bool)
      returns (preserved: set<Path>, ghost sweeps: seq<Gust>, stuck: bool)
      modifies disk
      ensures |sweeps| == |stateDirs| && Allowed(sweeps, running, stuck)
      ensures Swept(old(disk.fs), stateDirs, logs, sweeps) == Sweep(disk.fs, preserved)
    {
      hide Blown, Occupied, Logs;
      preserved, sweeps, stuck := {}, [], false;
      for i := 0 to |stateDirs|
        invariant |sweeps| == i && Allowed(sweeps, running, stuck)
        invariant Swept(old(disk.fs), stateDirs[..i], logs, sweeps) == Sweep(disk.fs, preserved)
      {
        var dir := stateDirs[i];
        assert stateDirs[..i + 1][..i] == stateDirs[..i];
        var writes := UnitsWrite(disk, logs, running);
        ghost var g := Gust(writes, false, {});
        if dir in disk.fs && disk.fs[dir].Dir? {
          if * {
            g, stuck := Gust(writes, true, {}), true;
            preserved := preserved + {dir};
          } else {
            var kept: set<Path> := *;
            kept := Logs(disk.fs, dir) * kept;
            g, stuck := Gust(writes, false, kept), stuck || kept != {};
            if Occupied(disk.fs, dir) || kept != {} { preserved := preserved + {dir}; }
            assert Logs(disk.fs, dir) * kept == kept;
            disk.fs := disk.fs - (Logs(disk.fs, dir) - kept);
          }
        }
        assert (sweeps + [g])[..i] == sweeps;
        sweeps := sweeps + [g];
      }
      assert stateDirs[..|stateDirs|] == stateDirs;
    }

    /** One created path, if it may and can go. */
    method RemoveOne(disk: Disk, p: Path, spared: set<Path>) returns (fails: bool)
      modifies disk
      ensures disk.fs ==
                if p !in spared && !fails && Removable(old(disk.fs), p) then old(disk.fs) - {p} else old(disk.fs)
    {
      if p in spared || p !in disk.fs { return false; }
      if * { return true; }
      var o := Pass;
      if !disk.fs[p].Dir? {
        o := disk.Unlink(p);
      } else if Empty(disk.fs, p) {
        o := disk.RemoveDirectory(p);
      }
      return o.Raise?;
    }

    method RemoveCreated(disk: Disk, spared: set<Path>, logs: set<Path>, running: bool)
      returns (ghost gusts: seq<Gust>, stuck: bool)
      modifies disk
      ensures |gusts| == |created| && Allowed(gusts, running, stuck)
      ensures disk.fs == Cleared(old(disk.fs), created, spared, logs, gusts)
    {
      hide Blown, Removable, Cleared, Allowed;
      ghost var fs := disk.fs;
      gusts, stuck := [], false;
      ClearedNothing(fs, spared, logs);
      AllowedNothing(running);
      assert created[|created|..] == [];
      for i := |created| downto 0
        invariant |gusts| == |created| - i && Allowed(gusts, running, stuck)
        invariant disk.fs == Cleared(fs, created[i..], spared, logs, gusts)
      {
        ghost var before := disk.fs;
        var writes := UnitsWrite(disk, logs, running);
        var fails := RemoveOne(disk, created[i], spared);
        ghost var g := Gust(writes, fails, {});
        assert created[i..] == [created[i]] + created[i + 1..];
        ClearedFirst(fs, created[i], created[i + 1..], spared, logs, g, gusts);
        AllowedFirst(g, gusts, running, stuck);
        gusts, stuck := [g] + gusts, stuck || fails;
      }
    }

    /** `restore`, and how it went. */
    method Restore(disk: Disk, logs: set<Path>, running: bool)
      returns (o: Outcome, broken: bool, stuck: bool, ghost run: Replay)
      requires Rooted(disk.fs) && FilesAt(disk.fs, logs) && LogsFree(State(), logs) && ClearRecord(disk.fs, State())
      modifies disk
      ensures o.Pass? ==>
                Replayed(old(disk.fs), State(), logs, run, disk.fs) && run.running == running && run.stuck == stuck
      ensures o.Raise? && !broken ==> !AllText(State())
    {
      hide Rooted, FilesAt, LogsFree, Alike, Swept, Cleared, PutBackAll, MakeAllAgain, Allowed, AllText, ClearBackups;
      hide ClearRemoved;
      ghost var fs, u := disk.fs, State();
      stuck, run := false, Replay(running, false, fs, [], []);
      ReplaysText(fs, u);
      o, broken := RestoreFiles(disk, logs, running);
      if o.Raise? { return; }
      o, broken := RestoreDirectories(disk, logs, running, PutBackAll(fs, backups).value);
      if o.Raise? { return; }
      ghost var rebuilt := disk.fs;
      var preserved, unpurged;
      ghost var sweeps, gusts;
      preserved, sweeps, unpurged := Purge(disk, logs, running);
      var spared := set p | p in created && p != [] && Name(p) == OWNER_FILE && Parent(p) in preserved;
      gusts, stuck := RemoveCreated(disk, spared, logs, running);
      AllowedMore(sweeps, running, unpurged, unpurged || stuck);
      AllowedMore(gusts, running, stuck, unpurged || stuck);
      stuck := unpurged || stuck;
      run := Replay(running, stuck, rebuilt, sweeps, gusts);
      assert spared == SparedBy(u, preserved);
      return Pass, false, stuck, run;
    }
  }
}
