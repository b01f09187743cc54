/** Importing a legacy instance (`legacy_import.py`): a journaled handover whose receipt is the
    commit point, under crashes at any step. Originals move as whole objects. */
module Import {
  import opened Text
  import opened Host
  import opened Sorting

  /** What stands at a path: a legacy object with everything in it, or something generated. */
  datatype Thing = Legacy(id: nat, mode: nat, appended: nat) | Content(text: string, mode: nat) | Folder(mode: nat)

  datatype Original = Original(path: Path, thing: Thing)

  datatype Item = Item(path: Path, text: Option<string>, mode: nat, unit: Option<string>, isState: bool)

  datatype Phase = Prepared | Applying | Committed | Restoring

  datatype Journal = Journal(phase: Phase, originals: seq<Original>)

  /** The reviewed row: what to move, what the declaration generates, and recorded unit states. */
  datatype Row = Row(
    originals: seq<Original>,
    statePath: Path,
    preserveState: bool,
    generated: seq<Item>,
    stopOrder: seq<string>,
    units: Units,
    declaration: nat)

  /** Everything durable about one import; `logs` are runtime logs in the new state directory. */
  datatype Store = Store(
    fs: map<Path, Thing>,
    backups: map<nat, Thing>,
    backupDirectory: bool,
    units: Units,
    journal: Option<Journal>,
    receipt: Option<nat>,
    declaration: Option<nat>,
    applied: Option<nat>,
    logs: bool)

  predicate AtOrBelow(root: Path, p: Path) { p == root || Below(root, p) }

  predicate Matches(g: Item, t: Thing) {
    match g.text
    case Some(text) => t == Content(text, g.mode)
    case None => t == Folder(g.mode)
  }

  /** How the row was reviewed: originals in place and apart, nothing where the manager will
      write except inside originals that move away. */
  ghost predicate Reviewed(row: Row, fs0: map<Path, Thing>) {
    && (forall i | 0 <= i < |row.originals| ::
          && row.originals[i].path in fs0 && fs0[row.originals[i].path] == row.originals[i].thing
          && row.originals[i].thing.Legacy?)
    && (forall i, j | 0 <= i < |row.originals| && 0 <= j < |row.originals| && i != j ::
       !AtOrBelow(row.originals[i].path, row.originals[j].path))
    && (forall i | 0 <= i < |row.originals| ::
       !AtOrBelow(row.originals[i].path, row.statePath) && !AtOrBelow(row.statePath, row.originals[i].path))
    && (row.statePath in fs0 ==> fs0[row.statePath].Legacy?)
    && (forall p, q | p in fs0 && q in fs0 && fs0[p].Legacy? :: !Below(p, q))
    && (forall g | g in row.generated :: !AtOrBelow(row.statePath, g.path) && !Below(g.path, row.statePath))
    && (forall g, i | g in row.generated && 0 <= i < |row.originals| :: !Below(g.path, row.originals[i].path))
    && (forall g | g in row.generated && g.path in fs0 :: exists i ::
       0 <= i < |row.originals| && AtOrBelow(row.originals[i].path, g.path))
    && (forall g, p | g in row.generated && p in fs0 :: !Below(g.path, p))
    && (forall g, h | g in row.generated && h in row.generated && g.path == h.path :: g == h)
    && (forall g, h | g in row.generated && h in row.generated && g.text.Some? :: !Below(g.path, h.path))
  }

  predicate IsOriginal(originals: seq<Original>, p: Path) { exists i :: 0 <= i < |originals| && originals[i].path == p }

  /** The path lies in an original that has not moved away. */
  predicate Covered(originals: seq<Original>, backups: map<nat, Thing>, p: Path) {
    exists i :: 0 <= i < |originals| && i !in backups && AtOrBelow(originals[i].path, p)
  }

  /** The state directory may hold more than recorded once legacy units run again. */
  predicate SameButGrown(a: Thing, b: Thing) { a.Legacy? && b.Legacy? && a.id == b.id && a.mode == b.mode }

  /** The list of originals is the reviewed one, perhaps with the legacy state directory. */
  ghost predicate Listed(row: Row, fs0: map<Path, Thing>, originals: seq<Original>) {
    || originals == row.originals
    || (&& !row.preserveState && row.statePath in fs0 && |originals| == |row.originals| + 1
        && originals[..|row.originals|] == row.originals
        && originals[|row.originals|].path == row.statePath
           && SameButGrown(fs0[row.statePath], originals[|row.originals|].thing))
  }

  predicate InPlace(row: Row, phase: Phase, o: Original, t: Thing) {
    t == o.thing || (phase.Restoring? && o.path == row.statePath && SameButGrown(o.thing, t))
  }

  /** Each original is in exactly one place, whole. */
  ghost predicate Whole(row: Row, s: Store, phase: Phase, originals: seq<Original>) {
    && (forall i | 0 <= i < |originals| && i in s.backups :: s.backups[i] == originals[i].thing)
    && (forall i | 0 <= i < |originals| && i !in s.backups ::
       originals[i].path in s.fs && InPlace(row, phase, originals[i], s.fs[originals[i].path]))
    && (forall i | i in s.backups :: i < |originals|)
  }

  /** Nothing but originals, generated items as generated, and what was there before. */
  ghost predicate Accounted(row: Row, fs0: map<Path, Thing>, s: Store, originals: seq<Original>) {
    && (forall p | p in fs0 && !IsOriginal(originals, p) && p != row.statePath :: p in s.fs && s.fs[p] == fs0[p])
    && (row.statePath in fs0 && !IsOriginal(originals, row.statePath) ==>
       row.statePath in s.fs && SameButGrown(fs0[row.statePath], s.fs[row.statePath]))
    && (row.statePath in s.fs ==> row.statePath in fs0)
    && (forall p | p in s.fs && (p !in fs0 || IsOriginal(originals, p)) && !Covered(originals, s.backups, p) ::
          exists g | g in row.generated :: g.path == p && Matches(g, s.fs[p]))
    && (forall p | p in s.fs && p !in fs0 :: !Covered(originals, s.backups, p))
  }

  ghost predicate AllMoved(s: Store, originals: seq<Original>) { forall i | 0 <= i < |originals| :: i in s.backups }

  /** A handover in progress: everything needed to undo it is on disk. */
  ghost predicate Undoable(row: Row, fs0: map<Path, Thing>, s: Store, phase: Phase, originals: seq<Original>) {
    && Listed(row, fs0, originals) && Whole(row, s, phase, originals) && Accounted(row, fs0, s, originals)
    && (s.declaration == None || s.declaration == Some(row.declaration))
    && (s.applied == None || s.applied == Some(row.declaration))
    && s.receipt == None
  }

  /** The two final states. */
  ghost predicate Restored(row: Row, fs0: map<Path, Thing>, s: Store) {
    && s.receipt == None && s.declaration == None && s.applied == None && s.backups == map[]
    && (forall p | p in fs0 && p != row.statePath :: p in s.fs && s.fs[p] == fs0[p])
    && (row.statePath in fs0 ==> row.statePath in s.fs && SameButGrown(fs0[row.statePath], s.fs[row.statePath]))
    && (forall p | p in s.fs :: p in fs0)
    && (forall u | u in row.units :: UnitOf(s.units, u) == row.units[u])
  }

  /** Receipt and declaration are there, every original is in its backup, whatever else was
      there is untouched. */
  ghost predicate CommittedState(row: Row, fs0: map<Path, Thing>, s: Store) {
    && s.receipt == Some(row.declaration) && s.declaration == Some(row.declaration)
    && exists originals :: Undoable(row, fs0, s.(receipt := None), Committed, originals) && AllMoved(s, originals)
  }

  /** What holds on disk at every moment of an import, whoever crashed where. */
  ghost predicate Safe(row: Row, fs0: map<Path, Thing>, s: Store) {
    if s.receipt.Some? then CommittedState(row, fs0, s)
    else match s.journal
      case None => Restored(row, fs0, s)
      case Some(j) => Undoable(row, fs0, s, j.phase, j.originals)
  }

  // ---- steps ----

  lemma ListedApart(row: Row, fs0: map<Path, Thing>, originals: seq<Original>, i: nat, j: nat)
    requires Reviewed(row, fs0) && Listed(row, fs0, originals) && i < |originals| && j < |originals|
    ensures i != j ==> !AtOrBelow(originals[i].path, originals[j].path)
    ensures originals[i].path in fs0 && fs0[originals[i].path].Legacy?
    ensures SameButGrown(fs0[originals[i].path], originals[i].thing)
    ensures originals[i].path != row.statePath ==> i < |row.originals| && originals[i] == row.originals[i]
  {
    assert i < |row.originals| ==> originals[i] == row.originals[i];
    assert j < |row.originals| ==> originals[j] == row.originals[j];
  }

  lemma NothingUnderLegacy(row: Row, fs0: map<Path, Thing>, s: Store, phase: Phase, originals: seq<Original>, i: nat,
      p: Path)
    requires Reviewed(row, fs0) && Undoable(row, fs0, s, phase, originals) && i < |originals| && i !in s.backups
    requires p in s.fs && AtOrBelow(originals[i].path, p)
    ensures p == originals[i].path
  {
    assert Covered(originals, s.backups, p);
    ListedApart(row, fs0, originals, i, i);
  }

  function MovedAway(s: Store, i: nat, o: Original): Store
  {
    s.(fs := s.fs - {o.path}, backups := s.backups[i := o.thing])
  }

  /** `os.replace` of an original into its backup. */
  lemma MoveAway(row: Row, fs0: map<Path, Thing>, s: Store, phase: Phase, originals: seq<Original>, i: nat)
    requires Reviewed(row, fs0) && Undoable(row, fs0, s, phase, originals) && i < |originals| && i !in s.backups
    requires s.fs[originals[i].path] == originals[i].thing
    ensures Undoable(row, fs0, MovedAway(s, i, originals[i]), phase, originals)
  {
    var o, t := originals[i], MovedAway(s, i, originals[i]);
    forall j | 0 <= j < |originals| && j != i
      ensures originals[j].path != o.path
    { ListedApart(row, fs0, originals, i, j); }
    forall p | p in t.fs ensures Covered(originals, t.backups, p) == Covered(originals, s.backups, p) {
      if AtOrBelow(o.path, p) { NothingUnderLegacy(row, fs0, s, phase, originals, i, p); }
    }
    assert IsOriginal(originals, o.path);
  }

  function MovedBack(s: Store, i: nat, o: Original): Store {
    s.(fs := s.fs[o.path := o.thing], backups := s.backups - {i})
  }

  /** `os.replace` of a backup to where it was, with nothing generated left at or below. */
  lemma MoveBack(row: Row, fs0: map<Path, Thing>, s: Store, phase: Phase, originals: seq<Original>, i: nat)
    requires Reviewed(row, fs0) && Undoable(row, fs0, s, phase, originals) && i < |originals| && i in s.backups
    requires originals[i].path !in s.fs && forall g | g in row.generated && AtOrBelow(originals[i].path, g.path) ::
               g.path !in s.fs
    ensures Undoable(row, fs0, MovedBack(s, i, originals[i]), phase, originals)
  {
    var o, t := originals[i], MovedBack(s, i, originals[i]);
    ListedApart(row, fs0, originals, i, i);
    forall j | 0 <= j < |originals| && j != i
      ensures originals[j].path != o.path
    { ListedApart(row, fs0, originals, i, j); }
    assert IsOriginal(originals, o.path);
    forall p | p in t.fs && p != o.path ensures Covered(originals, t.backups, p) == Covered(originals, s.backups, p) {
      FreeBelow(row, fs0, s, phase, originals, i, p);
    }
    assert Whole(row, t, phase, originals);
    BackAccounted(row, fs0, s, t, originals, i);
  }

  lemma FreeBelow(row: Row, fs0: map<Path, Thing>, s: Store, phase: Phase, originals: seq<Original>, i: nat, p: Path)
    requires Reviewed(row, fs0) && Undoable(row, fs0, s, phase, originals) && i < |originals| && i in s.backups
    requires p in s.fs
    requires forall g | g in row.generated && AtOrBelow(originals[i].path, g.path) :: g.path !in s.fs
    ensures !AtOrBelow(originals[i].path, p)
    ensures Covered(originals, s.backups - {i}, p) == Covered(originals, s.backups, p)
  {
    if AtOrBelow(originals[i].path, p) {
      BelowMovedIsGenerated(row, fs0, s, phase, originals, i, p);
    }
  }

  lemma BackAccounted(row: Row, fs0: map<Path, Thing>, s: Store, t: Store, originals: seq<Original>, i: nat)
    requires Accounted(row, fs0, s, originals) && i < |originals| && t == MovedBack(s, i, originals[i])
    requires originals[i].path in fs0 && IsOriginal(originals, originals[i].path)
    requires forall p | p in t.fs && p != originals[i].path ::
               Covered(originals, t.backups, p) == Covered(originals, s.backups, p)
    ensures Accounted(row, fs0, t, originals)
  {
    assert Covered(originals, t.backups, originals[i].path);
  }

  lemma Nested(a: Path, b: Path, p: Path)
    requires AtOrBelow(a, p) && AtOrBelow(b, p)
    ensures AtOrBelow(a, b) || AtOrBelow(b, a)
  {
    if |a| <= |b| {
      assert b[..|a|] == p[..|a|] == a;
    } else {
      assert a[..|b|] == p[..|b|] == b;
    }
  }

  /** Where an original has moved away, no other original covers. */
  lemma MovedUncovers(row: Row, fs0: map<Path, Thing>, originals: seq<Original>, backups: map<nat, Thing>, i: nat,
      p: Path)
    requires Reviewed(row, fs0) && Listed(row, fs0, originals) && i < |originals| && i in backups
    requires AtOrBelow(originals[i].path, p)
    ensures !Covered(originals, backups, p)
  {
    forall j | 0 <= j < |originals| && j !in backups ensures !AtOrBelow(originals[j].path, p) {
      ListedApart(row, fs0, originals, i, j);
      ListedApart(row, fs0, originals, j, i);
      if AtOrBelow(originals[j].path, p) { Nested(originals[i].path, originals[j].path, p); }
    }
  }

  lemma BelowMovedIsGenerated(row: Row, fs0: map<Path, Thing>, s: Store, phase: Phase, originals: seq<Original>, i: nat,
      p: Path)
    requires Reviewed(row, fs0) && Undoable(row, fs0, s, phase, originals) && i < |originals| && i in s.backups
    requires p in s.fs && AtOrBelow(originals[i].path, p)
    ensures exists g | g in row.generated :: g.path == p
  {
    ListedApart(row, fs0, originals, i, i);
    MovedUncovers(row, fs0, originals, s.backups, i, p);
    assert p in fs0 ==> p == originals[i].path;
  }

  /** The manager writes one of its items while every original is away. */
  lemma WriteGenerated(row: Row, fs0: map<Path, Thing>, s: Store, phase: Phase, originals: seq<Original>, g: Item,
      t: Thing)
    requires Reviewed(row, fs0) && Undoable(row, fs0, s, phase, originals) && AllMoved(s, originals)
    requires g in row.generated && Matches(g, t)
    ensures Undoable(row, fs0, s.(fs := s.fs[g.path := t]), phase, originals)
  {
    hide Reviewed, Listed, AtOrBelow, Matches;
    GeneratedAtOriginal(row, fs0, originals, g);
    assert forall p :: !Covered(originals, s.backups, p);
  }

  lemma GeneratedAtOriginal(row: Row, fs0: map<Path, Thing>, originals: seq<Original>, g: Item)
    requires Reviewed(row, fs0) && Listed(row, fs0, originals) && g in row.generated
    ensures g.path in fs0 ==> IsOriginal(originals, g.path)
    ensures g.path != row.statePath
  {
    if g.path in fs0 {
      var i :| 0 <= i < |row.originals| && AtOrBelow(row.originals[i].path, g.path);
      assert originals[i] == row.originals[i];
    }
  }

  /** A generated item goes; what is inside an original that has not moved is not touched. */
  lemma DropGenerated(row: Row, fs0: map<Path, Thing>, s: Store, phase: Phase, originals: seq<Original>, g: Item)
    requires Reviewed(row, fs0) && Undoable(row, fs0, s, phase, originals)
    requires g in row.generated && !Covered(originals, s.backups, g.path)
    ensures Undoable(row, fs0, s.(fs := s.fs - {g.path}), phase, originals)
  {
    GeneratedAtOriginal(row, fs0, originals, g);
    forall i | 0 <= i < |originals| && i !in s.backups ensures originals[i].path != g.path {}
  }

  /** The parts of the store the record is about. */
  predicate SameRecord(s: Store, t: Store) {
    s.fs == t.fs && s.backups == t.backups && s.declaration == t.declaration && s.applied == t.applied
      && s.receipt == t.receipt
  }

  lemma RecordFrame(row: Row, fs0: map<Path, Thing>, s: Store, t: Store, phase: Phase, originals: seq<Original>)
    requires SameRecord(s, t) && Undoable(row, fs0, s, phase, originals)
    ensures Undoable(row, fs0, t, phase, originals)
  {
  }

  lemma DeclareStep(row: Row, fs0: map<Path, Thing>, s: Store, phase: Phase, originals: seq<Original>,
      declaration: Option<nat>, applied: Option<nat>)
    requires Undoable(row, fs0, s, phase, originals)
    requires (declaration == None || declaration == Some(row.declaration))
    requires (applied == None || applied == Some(row.declaration))
    ensures Undoable(row, fs0, s.(declaration := declaration, applied := applied), phase, originals)
  {
  }

  lemma PhaseStep(row: Row, fs0: map<Path, Thing>, s: Store, phase: Phase, next: Phase, originals: seq<Original>)
    requires Undoable(row, fs0, s, phase, originals) && (phase.Restoring? ==> next.Restoring?)
    ensures Undoable(row, fs0, s, next, originals)
  {
  }

  /** An idle store is ready to be handed over. */
  lemma IdleIsUndoable(row: Row, fs0: map<Path, Thing>, s: Store)
    requires Reviewed(row, fs0) && Restored(row, fs0, s)
    ensures Undoable(row, fs0, s, Prepared, row.originals)
  {
    forall p | p in s.fs && IsOriginal(row.originals, p) ensures Covered(row.originals, s.backups, p) {
      var i :| 0 <= i < |row.originals| && row.originals[i].path == p;
      assert AtOrBelow(row.originals[i].path, p);
    }
  }

  /** The legacy state joins the list once its writers have stopped. */
  lemma StateJoins(row: Row, fs0: map<Path, Thing>, s: Store)
    requires Reviewed(row, fs0) && Undoable(row, fs0, s, Prepared, row.originals) && s.backups == map[]
    requires !row.preserveState && row.statePath in s.fs
    ensures Undoable(row, fs0, s, Prepared, row.originals + [Original(row.statePath, s.fs[row.statePath])])
  {
    hide Reviewed, Covered, IsOriginal, Below;
    var few, more := row.originals, row.originals + [Original(row.statePath, s.fs[row.statePath])];
    assert more[..|few|] == few;
    ExtendedLists(few, more, s.backups);
    assert forall g | g in row.generated :: !AtOrBelow(row.statePath, g.path) by { GeneratedOffState(row, fs0); }
    StateNotOriginal(row, fs0);
  }

  lemma GeneratedOffState(row: Row, fs0: map<Path, Thing>)
    requires Reviewed(row, fs0)
    ensures forall g | g in row.generated :: !AtOrBelow(row.statePath, g.path)
  {
  }

  lemma ExtendedLists(few: seq<Original>, more: seq<Original>, backups: map<nat, Thing>)
    requires |more| == |few| + 1 && more[..|few|] == few && backups == map[]
    ensures forall p :: Covered(more, backups, p) <==> Covered(few, backups, p) || AtOrBelow(more[|few|].path, p)
    ensures forall p :: IsOriginal(more, p) <==> IsOriginal(few, p) || p == more[|few|].path
  {
    assert forall i | 0 <= i < |few| :: more[i] == few[i];
    forall p ensures Covered(more, backups, p) <==> Covered(few, backups, p) || AtOrBelow(more[|few|].path, p) {
      if i :| 0 <= i < |few| && AtOrBelow(few[i].path, p) { assert AtOrBelow(more[i].path, p); }
    }
    forall p ensures IsOriginal(more, p) <==> IsOriginal(few, p) || p == more[|few|].path {
      if i :| 0 <= i < |few| && few[i].path == p { assert more[i].path == p; }
    }
  }

  lemma StateNotOriginal(row: Row, fs0: map<Path, Thing>)
    requires Reviewed(row, fs0)
    ensures !IsOriginal(row.originals, row.statePath)
  {
  }

  /** Writing the receipt once everything is moved commits. */
  lemma ReceiptCommits(row: Row, fs0: map<Path, Thing>, s: Store, phase: Phase, originals: seq<Original>)
    requires Undoable(row, fs0, s, phase, originals) && !phase.Restoring? && AllMoved(s, originals)
    requires s.declaration == Some(row.declaration)
    ensures CommittedState(row, fs0, s.(receipt := Some(row.declaration)))
  {
    PhaseStep(row, fs0, s, phase, Committed, originals);
    var t := s.(receipt := Some(row.declaration));
    assert t.(receipt := None) == s;
    assert AllMoved(t, originals);
  }

  lemma NoneCovered(s: Store, originals: seq<Original>, p: Path)
    requires AllMoved(s, originals)
    ensures !Covered(originals, s.backups, p)
  {
  }

  /** With every original back and nothing generated left, the import never happened. */
  lemma BackIsRestored(row: Row, fs0: map<Path, Thing>, s: Store, originals: seq<Original>)
    requires Reviewed(row, fs0) && Undoable(row, fs0, s, Restoring, originals) && s.backups == map[]
    requires s.declaration == None && s.applied == None
    requires forall g | g in row.generated && !Covered(originals, s.backups, g.path) :: g.path !in s.fs
    requires forall u | u in row.units :: UnitOf(s.units, u) == row.units[u]
    ensures Restored(row, fs0, s)
  {
    forall p | p in fs0 && IsOriginal(originals, p)
      ensures p in s.fs && SameButGrown(fs0[p], s.fs[p]) && (p != row.statePath ==> s.fs[p] == fs0[p])
    {
      var i :| 0 <= i < |originals| && originals[i].path == p;
      ListedApart(row, fs0, originals, i, i);
    }
  }

  lemma CommittedFrame(row: Row, fs0: map<Path, Thing>, s: Store, journal: Option<Journal>)
    requires CommittedState(row, fs0, s)
    ensures CommittedState(row, fs0, s.(journal := journal))
  {
    var originals :| Undoable(row, fs0, s.(receipt := None), Committed, originals) && AllMoved(s, originals);
    var t := s.(journal := journal);
    RecordFrame(row, fs0, s.(receipt := None), t.(receipt := None), Committed, originals);
    assert AllMoved(t, originals);
  }

  /** How a stretch of an import ends: it runs through, raises, or the process dies. */
  datatype Fate = Done | Raised | Crashed

  predicate DeeperFirst(a: Item, b: Item) { |a.path| >= |b.path| }

  lemma DeeperFirstIsTotal()
    ensures TotalOrder(DeeperFirst)
  {
  }

  /** No original that is still in place lies in a generated directory outside all of them. */
  lemma NotCoveredBelow(row: Row, fs0: map<Path, Thing>, originals: seq<Original>, backups: map<nat, Thing>, g: Item,
      p: Path)
    requires Reviewed(row, fs0) && Listed(row, fs0, originals) && g in row.generated && Below(g.path, p)
    requires !Covered(originals, backups, g.path)
    ensures !Covered(originals, backups, p)
  {
    forall i | 0 <= i < |originals| && i !in backups ensures !AtOrBelow(originals[i].path, p) {
      assert i < |row.originals| ==> originals[i] == row.originals[i];
      if AtOrBelow(originals[i].path, p) {
        Nested(originals[i].path, g.path, p);
      }
    }
  }

  /** Deepest first, a generated directory is empty when its turn comes. */
  lemma EmptyByThen(row: Row, fs0: map<Path, Thing>, s: Store, phase: Phase, originals: seq<Original>, g: Item)
    requires Reviewed(row, fs0) && Undoable(row, fs0, s, phase, originals) && g in row.generated
    requires !Covered(originals, s.backups, g.path)
    requires forall h | h in row.generated && |h.path| > |g.path| && !Covered(originals, s.backups, h.path) ::
               h.path !in s.fs
    ensures forall p | p in s.fs :: !Below(g.path, p)
  {
    forall p | p in s.fs && Below(g.path, p) ensures p in fs0 {
      NotCoveredBelow(row, fs0, originals, s.backups, g, p);
    }
  }

  class LegacyImport {
    const row: Row
    ghost const fs0: map<Path, Thing>
    var s: Store

    constructor (row: Row, s: Store)
      requires Reviewed(row, s.fs) && Restored(row, s.fs, s) && s.journal == None
      ensures this.row == row && this.s == s && Ok()
    {
      this.row, this.s, this.fs0 := row, s, s.fs;
    }

    /** What every crash leaves. */
    ghost predicate Ok()
      reads this
    {
      Reviewed(row, fs0) && Safe(row, fs0, s)
    }

    ghost predicate Holding(j: Journal)
      reads this
    {
      && Reviewed(row, fs0) && Undoable(row, fs0, s, j.phase, j.originals) && s.journal.Some? && Safe(row, fs0, s)
      && (s.journal.value.originals == j.originals || s.backups == map[])
    }

    /** `_record`. */
    method Record(j: Journal) returns (f: Fate)
      requires Reviewed(row, fs0) && Undoable(row, fs0, s, j.phase, j.originals) && Safe(row, fs0, s)
      modifies this
      ensures Undoable(row, fs0, s, j.phase, j.originals) && Safe(row, fs0, s)
      ensures s == old(s).(journal := s.journal)
      ensures f.Done? ==> s.journal == Some(j)
      ensures !f.Done? ==> s.journal == old(s).journal
    {
      hide Undoable, Reviewed, Restored, CommittedState;
      if * { return Crashed; }
      if * { return Raised; }
      RecordFrame(row, fs0, s, s.(journal := Some(j)), j.phase, j.originals);
      assert s.receipt == None by { NoReceipt(row, fs0, s, j.phase, j.originals); }
      s := s.(journal := Some(j));
      return Done;
    }

    /** A call to the service manager. */
    method Action(unit: string, state: UnitState) returns (f: Fate)
      modifies this
      ensures s == old(s).(units := s.units)
      ensures f.Done? ==> UnitOf(s.units, unit) == state
      ensures forall u | u != unit :: UnitOf(s.units, u) == UnitOf(old(s).units, u)
    {
      if * { s := s.(units := s.units[unit := state]); return Done; }
      if * { return Crashed; }
      return Raised;
    }

    /** All originals are away and the declaration is registered. */
    ghost predicate Handed(phase: Phase, originals: seq<Original>)
      reads this
    {
      && Reviewed(row, fs0) && Undoable(row, fs0, s.(receipt := None), phase, originals) && AllMoved(s, originals)
      && s.declaration == Some(row.declaration) && !phase.Restoring?
    }

    /** `apply_candidate`: an apply that may write and undo items, start and stop units, and end
        anyhow, but only ever puts what the declaration generates where it belongs. */
    method ApplyCandidate(ghost phase: Phase, ghost originals: seq<Original>) returns (f: Fate)
      requires Handed(phase, originals)
      modifies this
      ensures Handed(phase, originals)
      ensures s == old(s).(fs := s.fs, units := s.units, applied := s.applied, logs := s.logs)
    {
      hide Undoable, Reviewed;
      var steps: nat :| true;
      for k := 0 to steps
        invariant Handed(phase, originals)
        invariant s == old(s).(fs := s.fs, units := s.units, applied := s.applied, logs := s.logs)
      {
        if * { return Crashed; }
        if * { return Raised; }
        ghost var t := s.(receipt := None);
        if * {
          if row.generated != [] {
            var i: nat :| i < |row.generated|;
            var g := row.generated[i];
            NoneCovered(t, originals, g.path);
            WriteGenerated(row, fs0, t, phase, originals, g, Produced(g));
            DropGenerated(row, fs0, t, phase, originals, g);
            var keep: bool := *;
            s := s.(fs := if keep then s.fs[g.path := Produced(g)] else s.fs - {g.path});
            assert s.(receipt := None) == if keep then t.(fs := t.fs[g.path := Produced(g)])
              else t.(fs := t.fs - {g.path});
          }
        } else {
          var units, logs, done: bool := *, *, *;
          ghost var u := t.(units := units, logs := logs);
          RecordFrame(row, fs0, t, u, phase, originals);
          DeclareStep(row, fs0, u, phase, originals, s.declaration, if done then Some(row.declaration) else None);
          s := s.(units := units, logs := logs, applied := if done then Some(row.declaration) else None);
          assert s.(receipt := None) == u.(declaration := s.declaration, applied := s.applied);
        }
      }
      if * { return Crashed; }
      if * { return Raised; }
      return Done;
    }

    /** The four writers are stopped and disabled before anything moves. */
    method StopWriters(units: seq<string>) returns (f: Fate)
      modifies this
      ensures s == old(s).(units := s.units)
    {
      for i := 0 to |units|
        invariant s == old(s).(units := s.units)
      {
        if units[i] in row.units {
          f := Action(units[i], UnitState(UnitOf(s.units, units[i]).enabled, false));
          if !f.Done? { return; }
          if row.units[units[i]].enabled {
            f := Action(units[i], UnitState(false, false));
            if !f.Done? { return; }
          }
        }
      }
      return Done;
    }

    /** The originals move into the backup one by one. */
    method MoveOriginals(j: Journal) returns (f: Fate)
      requires Holding(j) && s.journal == Some(j) && !j.phase.Restoring? && s.backups == map[]
      modifies this
      ensures Holding(j) && s.journal == Some(j) && s == old(s).(fs := s.fs, backups := s.backups)
      ensures f.Done? ==> AllMoved(s, j.originals)
    {
      hide Reviewed, Undoable;
      for i := 0 to |j.originals|
        invariant Holding(j) && s.journal == Some(j) && s == old(s).(fs := s.fs, backups := s.backups)
        invariant forall k | 0 <= k < |j.originals| :: k in s.backups <==> k < i
      {
        if * { return Crashed; }
        if * { return Raised; }
        var o := j.originals[i];
        NoReceipt(row, fs0, s, j.phase, j.originals);
        InPlaceOrMoved(row, fs0, s, j.phase, j.originals, i);
        if o.path !in s.fs || s.fs[o.path] != o.thing { return Raised; }
        MoveAway(row, fs0, s, j.phase, j.originals, i);
        s := MovedAway(s, i, o);
        NoReceipt(row, fs0, s, j.phase, j.originals);
      }
      return Done;
    }

    /** The part of `_transfer` that undoes itself when it raises; `last` is the journal in memory. */
    method Handover(first: Journal) returns (f: Fate, last: Journal)
      requires Holding(first) && s.journal == Some(first) && first == Journal(Prepared, row.originals)
      requires s.backups == map[]
      modifies this
      ensures Ok()
      ensures f.Done? ==> s.journal == None && s.receipt.Some?
      ensures f.Raised? && s.receipt == None ==> Holding(last)
    {
      hide Reviewed, Undoable, CommittedState;
      last := first;
      ghost var t := s;
      f := StopWriters(row.stopOrder);
      RecordFrame(row, fs0, t, s, first.phase, first.originals);
      if !f.Done? { return; }
      if row.statePath in s.fs && !row.preserveState {
        if * { return Raised, last; }
        StateJoins(row, fs0, s);
        last := Journal(Prepared, row.originals + [Original(row.statePath, s.fs[row.statePath])]);
        f := Record(last);
        if !f.Done? { return; }
      }
      f := MoveOriginals(last);
      if !f.Done? { return; }
      PhaseStep(row, fs0, s, Prepared, Applying, last.originals);
      last := Journal(Applying, last.originals);
      f := Record(last);
      if !f.Done? { return; }
      if * { return Crashed, last; }
      if * { return Raised, last; }
      DeclareStep(row, fs0, s, Applying, last.originals, Some(row.declaration), s.applied);
      s := s.(declaration := Some(row.declaration));
      NoReceipt(row, fs0, s, Applying, last.originals);
      assert s.(receipt := None) == s;
      f := ApplyCandidate(Applying, last.originals);
      assert s.(receipt := None) == s;
      if !f.Done? { return; }
      if * { return Crashed, last; }
      if * { return Raised, last; }
      ReceiptCommits(row, fs0, s, Applying, last.originals);
      s := s.(receipt := Some(row.declaration));
      if * { return Crashed, last; }
      if * { return Raised, last; }
      CommittedFrame(row, fs0, s, Some(Journal(Committed, last.originals)));
      s := s.(journal := Some(Journal(Committed, last.originals)));
      f := FinishCommit(false);
    }

    /** `_finish_commit`. */
    method FinishCommit(converge: bool) returns (f: Fate)
      requires Ok() && s.receipt.Some?
      modifies this
      ensures Ok() && s.receipt == old(s).receipt
      ensures f.Done? ==> s.journal == None
    {
      hide Undoable, Reviewed, AllMoved;
      if converge {
        ghost var originals :| Undoable(row, fs0, s.(receipt := None), Committed, originals) && AllMoved(s, originals);
        f := ApplyCandidate(Committed, originals);
        if !f.Done? { return; }
      }
      if * { return Crashed; }
      if * { return Raised; }
      CommittedFrame(row, fs0, s, None);
      s := s.(journal := None);
      return Done;
    }

    /** Units the import knows are stopped and disabled. */
    method StopAll(j: Journal, units: set<string>) returns (f: Fate)
      requires Holding(j)
      modifies this
      ensures Holding(j) && s == old(s).(units := s.units)
      ensures f.Done? ==> forall u | u in units :: !UnitOf(s.units, u).active
    {
      hide Undoable, Reviewed;
      ghost var t := s;
      NoReceipt(row, fs0, s, j.phase, j.originals);
      var rest := units;
      while rest != {}
        invariant Holding(j) && s == t.(units := s.units) && rest <= units
        invariant forall u | u in units - rest :: !UnitOf(s.units, u).active
      {
        var u :| u in rest;
        f := Action(u, UnitState(false, false));
        RecordFrame(row, fs0, t, s, j.phase, j.originals);
        RecordFrame(row, fs0, t, s, t.journal.value.phase, t.journal.value.originals);
        if !f.Done? { return; }
        rest := rest - {u};
      }
      return Done;
    }

    /** The applied record goes, then the declaration. */
    method Undeclare(j: Journal) returns (f: Fate)
      requires Holding(j)
      modifies this
      ensures Holding(j) && s == old(s).(applied := s.applied, declaration := s.declaration)
      ensures f.Done? ==> s.applied == None && s.declaration == None
    {
      hide Undoable, Reviewed;
      NoReceipt(row, fs0, s, j.phase, j.originals);
      var d := s.journal.value;
      if * { return Crashed; }
      if * { return Raised; }
      DeclareBoth(row, fs0, s, j, s.declaration, None);
      s := s.(applied := None);
      if * { return Crashed; }
      if * { return Raised; }
      DeclareBoth(row, fs0, s, j, None, None);
      s := s.(declaration := None);
      return Done;
    }

    /** Recorded enablement, then recorded activity, for units that are down. */
    method RestoreUnits(j: Journal) returns (f: Fate)
      requires Holding(j) && forall u | u in row.units :: !UnitOf(s.units, u).active
      modifies this
      ensures Holding(j) && s == old(s).(units := s.units)
      ensures f.Done? ==> forall u | u in row.units :: UnitOf(s.units, u) == row.units[u]
    {
      hide Undoable, Reviewed, UnitOf;
      ghost var t := s;
      NoReceipt(row, fs0, s, j.phase, j.originals);
      var rest := row.units.Keys;
      while rest != {}
        invariant Holding(j) && s == t.(units := s.units) && rest <= row.units.Keys
        invariant forall u | u in row.units ::
                    !UnitOf(s.units, u).active && (u !in rest ==> UnitOf(s.units, u).enabled == row.units[u].enabled)
      {
        var u :| u in rest;
        f := Action(u, UnitState(row.units[u].enabled, false));
        RecordFrame(row, fs0, t, s, j.phase, j.originals);
        RecordFrame(row, fs0, t, s, t.journal.value.phase, t.journal.value.originals);
        if !f.Done? { return; }
        rest := rest - {u};
      }
      rest := row.units.Keys;
      while rest != {}
        invariant Holding(j) && s == t.(units := s.units) && rest <= row.units.Keys
        invariant forall u | u in rest :: UnitOf(s.units, u) == row.units[u].(active := false)
        invariant forall u | u in row.units.Keys - rest :: UnitOf(s.units, u) == row.units[u]
      {
        var u :| u in rest;
        if row.units[u].active {
          f := Action(u, row.units[u]);
          RecordFrame(row, fs0, t, s, j.phase, j.originals);
          RecordFrame(row, fs0, t, s, t.journal.value.phase, t.journal.value.originals);
          if !f.Done? { return; }
        }
        rest := rest - {u};
      }
      return Done;
    }

    /** Legacy units that run again append to their state directory. */
    method LegacyRuns(j: Journal)
      requires Holding(j) && s.journal == Some(j)
      requires (j.phase.Restoring? || row.statePath !in s.fs || !IsOriginal(j.originals, row.statePath))
      modifies this
      ensures Holding(j) && s == old(s).(fs := s.fs)
      ensures forall p | p != row.statePath ::
                (p in s.fs <==> p in old(s).fs) && (p in s.fs ==> s.fs[p] == old(s).fs[p])
      ensures row.statePath in s.fs <==> row.statePath in old(s).fs
    {
      hide Undoable, Reviewed;
      var appended: nat :| true;
      NoReceipt(row, fs0, s, j.phase, j.originals);
      if * {
        if row.statePath in s.fs && s.fs[row.statePath].Legacy? {
          var grown := s.fs[row.statePath].(appended := appended);
          Grows(row, fs0, s, j.phase, j.originals, grown);
          s := s.(fs := s.fs[row.statePath := grown]);
          NoReceipt(row, fs0, s, j.phase, j.originals);
        }
      }
    }

    /** Runtime logs lie in a generated state directory that recovery has to remove. */
    ghost predicate Littered(s: Store, originals: seq<Original>) {
      s.logs && exists g | g in row.generated ::
        g.isState && g.text.None? && g.path in s.fs && !Covered(originals, s.backups, g.path)
    }

    /** Every generated item outside the originals that never moved goes, deepest first. Only
        runtime logs in the new state directory are in the way. */
    method RemoveGenerated(j: Journal) returns (f: Fate, refused: bool)
      requires Holding(j)
      modifies this
      ensures Holding(j) && s == old(s).(fs := s.fs)
      ensures f.Done? ==> forall g | g in row.generated && !Covered(j.originals, s.backups, g.path) :: g.path !in s.fs
      ensures refused ==> Littered(old(s), j.originals)
      ensures Littered(old(s), j.originals) ==> !f.Done?
    {
      hide Undoable, Reviewed, Covered, Sort, DeeperFirst, Below, Safe;
      var sorted := Sort(row.generated, DeeperFirst);
      refused := false;
      for k := 0 to |sorted|
        invariant Holding(j) && s == old(s).(fs := s.fs)
        invariant s.logs ==>
                    forall g | g in row.generated && g.isState && g.text.None? && g.path in old(s).fs :: g.path in s.fs
        invariant forall p | p in s.fs :: p in old(s).fs
        invariant forall m | 0 <= m < k && !Covered(j.originals, s.backups, sorted[m].path) :: sorted[m].path !in s.fs
      {
        var g := sorted[k];
        InSort(row.generated, DeeperFirst, g);
        if !Covered(j.originals, s.backups, g.path) && g.path in s.fs {
          if * { return Crashed, false; }
          if * { return Raised, false; }
          if g.text.None? {
            if g.isState && s.logs { return Raised, true; }
            DeeperAreGone(row, s, j.originals, sorted, k);
            EmptyByThen(row, fs0, s, j.phase, j.originals, g);
            assert !exists p | p in s.fs :: Below(g.path, p);
          }
          DropBoth(row, fs0, s, j, g);
          forall h | h in row.generated && h.isState && h.text.None? && s.logs
            ensures h.path != g.path
          { OnePathOneItem(row, fs0, g, h); }
          s := s.(fs := s.fs - {g.path});
        }
      }
      forall g | g in row.generated && !Covered(j.originals, s.backups, g.path) ensures g.path !in s.fs {
        InSort(row.generated, DeeperFirst, g);
      }
      return Done, false;
    }

    /** Each original that moved comes back; one that never moved must be as recorded. */
    method MoveOriginalsBack(j: Journal) returns (f: Fate, refused: bool)
      requires Holding(j) && forall g | g in row.generated && !Covered(j.originals, s.backups, g.path) ::
                 g.path !in s.fs
      modifies this
      ensures Holding(j) && s == old(s).(fs := s.fs, backups := s.backups) && !refused
      ensures f.Done? ==>
                s.backups == map[] && forall g | g in row.generated && !Covered(j.originals, s.backups, g.path) ::
                  g.path !in s.fs
    {
      hide Undoable, Reviewed, Covered, Vacant;
      refused := false;
      NoReceipt(row, fs0, s, j.phase, j.originals);
      VacantAtFirst(row, fs0, s, j);
      for i := 0 to |j.originals|
        invariant Holding(j) && s == old(s).(fs := s.fs, backups := s.backups) && Vacant(row, s, j.originals)
        invariant forall k | k in s.backups :: i <= k < |j.originals|
      {
        if * { return Crashed, false; }
        if * { return Raised, false; }
        var o := j.originals[i];
        InPlaceOrMoved(row, fs0, s, j.phase, j.originals, i);
        if i in s.backups {
          OriginalIsVacant(row, fs0, s, j, i);
          if o.path in s.fs || s.backups[i] != o.thing { return Raised, true; }
          BackBoth(row, fs0, s, j, i);
          s := MovedBack(s, i, o);
        } else if s.fs[o.path] != o.thing {
          if !(j.phase.Restoring? && o.path == row.statePath
            && SameButGrown(o.thing, s.fs[o.path])) { return Raised, true; }
        }
      }
      NoneLeft(s.backups, |j.originals|);
      VacantAtLast(row, s, j.originals);
      return Done, false;
    }

    /** The part of `_restore` up to its last journal record: units down, what the import made
        gone, originals back. */
    method Withdraw(j: Journal) returns (f: Fate, refused: bool)
      requires Holding(j)
      modifies this
      ensures Holding(j)
      ensures f.Done? ==> s.backups == map[] && s.declaration == None && s.applied == None
      ensures f.Done? ==> forall g | g in row.generated && !Covered(j.originals, s.backups, g.path) :: g.path !in s.fs
      ensures f.Done? ==> forall u | u in row.units :: !UnitOf(s.units, u).active
      ensures refused ==> Littered(old(s), j.originals)
      ensures Littered(old(s), j.originals) ==> !f.Done?
    {
      hide Undoable, Reviewed, Covered, Safe, UnitOf;
      refused := false;
      f := StopAll(j, row.units.Keys + (set g | g in row.generated && g.unit.Some? :: g.unit.value));
      if !f.Done? { return; }
      f, refused := RemoveGenerated(j);
      if !f.Done? { return; }
      f := Undeclare(j);
      if !f.Done? { return; }
      f, refused := MoveOriginalsBack(j);
    }

    /** `_restore`: undo the handover, whatever of it happened. */
    method Restore(first: Journal) returns (f: Fate, refused: bool)
      requires Holding(first)
      modifies this
      ensures Ok() && s.receipt == None
      ensures f.Done? ==> s.journal == None
      ensures refused ==> Littered(old(s), first.originals)
      ensures Littered(old(s), first.originals) ==> !f.Done?
    {
      hide Undoable, Reviewed, Covered, Restored, CommittedState, UnitOf, Littered;
      f, refused := Withdraw(first);
      NoReceipt(row, fs0, s, first.phase, first.originals);
      if !f.Done? { return; }
      refused := false;
      var last := Journal(Restoring, first.originals);
      PhaseStep(row, fs0, s, first.phase, Restoring, first.originals);
      f := Record(last);
      NoReceipt(row, fs0, s, Restoring, first.originals);
      if !f.Done? { return; }
      f, refused := Settle(last);
    }

    /** The last part of `_restore`: units as recorded, then the journal goes. */
    method Settle(j: Journal) returns (f: Fate, refused: bool)
      requires Holding(j) && s.journal == Some(j) && j.phase.Restoring? && s.backups == map[] && s.declaration == None
      requires s.applied == None
      requires forall g | g in row.generated && !Covered(j.originals, s.backups, g.path) :: g.path !in s.fs
      requires forall u | u in row.units :: !UnitOf(s.units, u).active
      modifies this
      ensures Ok() && s.receipt == None && !refused
      ensures f.Done? ==> s.journal == None
    {
      hide Undoable, Reviewed, Covered, UnitOf;
      refused := false;
      NoReceipt(row, fs0, s, j.phase, j.originals);
      f := RestoreUnits(j);
      if !f.Done? { return; }
      ghost var before := s;
      LegacyRuns(j);
      StillGone(row, before, s, j.originals);
      if exists u | u in row.units :: UnitOf(s.units, u) != row.units[u] { return Raised, true; }
      if * { return Crashed, false; }
      if * { return Raised, false; }
      BackIsRestored(row, fs0, s, j.originals);
      s := s.(backupDirectory := false, journal := None);
    }

    /** `_transfer`: hand over; when that raises before the commit point, undo it. */
    method Transfer() returns (f: Fate)
      requires Ok() && s.journal == None && s.receipt == None && !s.backupDirectory
      modifies this
      ensures Ok()
      ensures f.Done? ==> s.journal == None && s.receipt.Some?
    {
      hide Undoable, Reviewed, CommittedState;
      if * { return Crashed; }
      if * { return Raised; }
      s := s.(backupDirectory := true);
      IdleIsUndoable(row, fs0, s);
      var j := Journal(Prepared, row.originals);
      f := Record(j);
      if !f.Done? { return; }
      f, j := Handover(j);
      if f.Raised? && s.receipt == None {
        var refused;
        f, refused := Restore(j);
        if f.Done? { f := Raised; }
      }
    }

    /** `recover`: finish what is committed, undo what is not. */
    method Recover() returns (f: Fate, refused: bool)
      requires Ok() && s.journal.Some?
      modifies this
      ensures Ok()
      ensures f.Done? ==> s.journal == None && s.receipt == old(s).receipt
      ensures refused ==> old(s).receipt == None && Littered(old(s), old(s).journal.value.originals)
      ensures old(s).receipt == None && Littered(old(s), old(s).journal.value.originals) ==> !f.Done?
    {
      hide Undoable, Reviewed, CommittedState;
      refused := false;
      var j := s.journal.value;
      if s.receipt.Some? {
        f := FinishCommit(true);
      } else {
        if j.phase.Restoring? { LegacyRuns(j); }
        f, refused := Restore(j);
      }
    }

    /** One import under any sequence of crashes and recoveries. Whenever no journal is left
        it either took place or never happened. */
    method Campaign(recoveries: nat) returns (f: Fate)
      requires Ok() && s.journal == None && s.receipt == None && !s.backupDirectory
      modifies this
      ensures Ok()
      ensures s.journal == None ==> Restored(row, fs0, s) || CommittedState(row, fs0, s)
      ensures f.Done? ==> s.journal == None
    {
      hide Undoable, Reviewed, Restored, CommittedState;
      f := Transfer();
      for i := 0 to recoveries
        invariant Ok() && (f.Done? ==> s.journal == None)
      {
        if s.journal == None { return; }
        var refused;
        f, refused := Recover();
      }
    }
  }

  lemma StillGone(row: Row, s: Store, t: Store, originals: seq<Original>)
    requires s.backups == t.backups && forall p | p in t.fs :: p in s.fs
    requires forall g | g in row.generated && !Covered(originals, s.backups, g.path) :: g.path !in s.fs
    ensures forall g | g in row.generated && !Covered(originals, t.backups, g.path) :: g.path !in t.fs
  {
  }

  lemma DeclareBoth(row: Row, fs0: map<Path, Thing>, s: Store, j: Journal, declaration: Option<nat>,
      applied: Option<nat>)
    requires Undoable(row, fs0, s, j.phase, j.originals) && s.journal.Some? && Safe(row, fs0, s)
    requires (declaration == None || declaration == Some(row.declaration))
    requires (applied == None || applied == Some(row.declaration))
    ensures var t := s.(declaration := declaration, applied := applied);
    Undoable(row, fs0, t, j.phase, j.originals) && Safe(row, fs0, t)
  {
    hide Undoable;
    NoReceipt(row, fs0, s, j.phase, j.originals);
    DeclareStep(row, fs0, s, j.phase, j.originals, declaration, applied);
    DeclareStep(row, fs0, s, s.journal.value.phase, s.journal.value.originals, declaration, applied);
  }

  lemma Grows(row: Row, fs0: map<Path, Thing>, s: Store, phase: Phase, originals: seq<Original>, t: Thing)
    requires Reviewed(row, fs0) && Undoable(row, fs0, s, phase, originals) && row.statePath in s.fs
    requires SameButGrown(s.fs[row.statePath], t)
    requires phase.Restoring? || !IsOriginal(originals, row.statePath)
    ensures Undoable(row, fs0, s.(fs := s.fs[row.statePath := t]), phase, originals)
  {
    hide Reviewed, Covered, Listed, AtOrBelow;
    if IsOriginal(originals, row.statePath) { StateCovered(row, fs0, s, phase, originals); }
  }

  lemma StateCovered(row: Row, fs0: map<Path, Thing>, s: Store, phase: Phase, originals: seq<Original>)
    requires Reviewed(row, fs0) && Undoable(row, fs0, s, phase, originals) && row.statePath in s.fs
    requires IsOriginal(originals, row.statePath)
    ensures Covered(originals, s.backups, row.statePath)
  {
    forall g | g in row.generated ensures g.path != row.statePath { GeneratedAtOriginal(row, fs0, originals, g); }
  }

  lemma NoneLeft(backups: map<nat, Thing>, n: nat)
    requires forall k | k in backups :: n <= k < n
    ensures backups == map[]
  {
  }

  /** Nothing generated stands where an original is to come back. */
  ghost predicate Vacant(row: Row, s: Store, originals: seq<Original>) {
    && (forall k, g | 0 <= k < |originals| && k in s.backups && g in row.generated
       && AtOrBelow(originals[k].path, g.path) :: g.path !in s.fs)
    && (forall g | g in row.generated && !Covered(originals, s.backups, g.path) :: g.path !in s.fs)
  }

  lemma VacantAtFirst(row: Row, fs0: map<Path, Thing>, s: Store, j: Journal)
    requires Reviewed(row, fs0) && Undoable(row, fs0, s, j.phase, j.originals)
    requires forall g | g in row.generated && !Covered(j.originals, s.backups, g.path) :: g.path !in s.fs
    ensures Vacant(row, s, j.originals)
  {
    hide Reviewed, Covered, AtOrBelow;
    forall k, g | 0 <= k < |j.originals| && k in s.backups && g in row.generated
      && AtOrBelow(j.originals[k].path, g.path)
      ensures g.path !in s.fs
    {
      MovedUncovers(row, fs0, j.originals, s.backups, k, g.path);
    }
  }

  lemma VacantAtLast(row: Row, s: Store, originals: seq<Original>)
    requires Vacant(row, s, originals)
    ensures forall g | g in row.generated && !Covered(originals, s.backups, g.path) :: g.path !in s.fs
  {
  }

  lemma OriginalIsVacant(row: Row, fs0: map<Path, Thing>, s: Store, j: Journal, i: nat)
    requires Reviewed(row, fs0) && Undoable(row, fs0, s, j.phase, j.originals) && i < |j.originals| && i in s.backups
    requires Vacant(row, s, j.originals)
    ensures j.originals[i].path !in s.fs
  {
    if j.originals[i].path in s.fs {
      BelowMovedIsGenerated(row, fs0, s, j.phase, j.originals, i, j.originals[i].path);
    }
  }

  lemma BackBoth(row: Row, fs0: map<Path, Thing>, s: Store, j: Journal, i: nat)
    requires Reviewed(row, fs0) && Undoable(row, fs0, s, j.phase, j.originals) && s.journal.Some? && Safe(row, fs0, s)
    requires i < |j.originals| && i in s.backups && s.journal.value.originals == j.originals
    requires j.originals[i].path !in s.fs
    requires Vacant(row, s, j.originals)
    ensures var t := MovedBack(s, i, j.originals[i]);
            Undoable(row, fs0, t, j.phase, j.originals) && Safe(row, fs0, t) && Vacant(row, t, j.originals)
  {
    hide Reviewed, Undoable, Covered, AtOrBelow;
    NoReceipt(row, fs0, s, j.phase, j.originals);
    MoveBack(row, fs0, s, j.phase, j.originals, i);
    MoveBack(row, fs0, s, s.journal.value.phase, j.originals, i);
    NoReceipt(row, fs0, MovedBack(s, i, j.originals[i]), j.phase, j.originals);
    StaysVacant(row, fs0, s, j.phase, j.originals, i);
  }

  lemma StaysVacant(row: Row, fs0: map<Path, Thing>, s: Store, phase: Phase, originals: seq<Original>, i: nat)
    requires Reviewed(row, fs0) && Undoable(row, fs0, s, phase, originals) && i < |originals| && i in s.backups
    requires Vacant(row, s, originals)
    ensures Vacant(row, MovedBack(s, i, originals[i]), originals)
  {
    var t := MovedBack(s, i, originals[i]);
    forall k, g | 0 <= k < |originals| && k in t.backups && g in row.generated && AtOrBelow(originals[k].path, g.path)
      ensures g.path !in t.fs
    {
      ListedApart(row, fs0, originals, k, i);
    }
    forall g | g in row.generated && !Covered(originals, t.backups, g.path) ensures g.path !in t.fs {
      assert !AtOrBelow(originals[i].path, g.path);
      assert !Covered(originals, s.backups, g.path);
    }
  }

  lemma OnePathOneItem(row: Row, fs0: map<Path, Thing>, g: Item, h: Item)
    requires Reviewed(row, fs0) && g in row.generated && h in row.generated
    ensures g.path == h.path ==> g == h
  {
  }

  lemma DeeperAreGone(row: Row, s: Store, originals: seq<Original>, sorted: seq<Item>, k: nat)
    requires sorted == Sort(row.generated, DeeperFirst) && k < |sorted|
    requires forall m | 0 <= m < k && !Covered(originals, s.backups, sorted[m].path) :: sorted[m].path !in s.fs
    ensures forall h | h in row.generated && |h.path| > |sorted[k].path| && !Covered(originals, s.backups, h.path) ::
              h.path !in s.fs
  {
    hide Covered, Sort;
    DeeperFirstIsTotal();
    SortSorts(row.generated, DeeperFirst);
    forall h | h in row.generated && |h.path| > |sorted[k].path| && !Covered(originals, s.backups, h.path)
      ensures h.path !in s.fs
    {
      InSort(row.generated, DeeperFirst, h);
      var m :| 0 <= m < |sorted| && sorted[m] == h;
      assert !DeeperFirst(sorted[k], sorted[m]);
    }
  }

  /** What the durable journal and the one in memory both say: an uncovered item may go. */
  lemma DropBoth(row: Row, fs0: map<Path, Thing>, s: Store, j: Journal, g: Item)
    requires Reviewed(row, fs0) && Undoable(row, fs0, s, j.phase, j.originals) && s.journal.Some? && Safe(row, fs0, s)
    requires g in row.generated && !Covered(j.originals, s.backups, g.path)
    ensures Undoable(row, fs0, s.(fs := s.fs - {g.path}), j.phase, j.originals)
    ensures Safe(row, fs0, s.(fs := s.fs - {g.path}))
  {
    hide Reviewed, Undoable, Covered;
    NoReceipt(row, fs0, s, j.phase, j.originals);
    var d := s.journal.value;
    CoverGrows(row, fs0, s, d, j, g);
    DropGenerated(row, fs0, s, j.phase, j.originals, g);
    DropGenerated(row, fs0, s, d.phase, d.originals, g);
    NoReceipt(row, fs0, s.(fs := s.fs - {g.path}), j.phase, j.originals);
  }

  lemma CoverGrows(row: Row, fs0: map<Path, Thing>, s: Store, d: Journal, j: Journal, g: Item)
    requires Reviewed(row, fs0) && g in row.generated
    requires Undoable(row, fs0, s, j.phase, j.originals) && Undoable(row, fs0, s, d.phase, d.originals)
    ensures Covered(d.originals, s.backups, g.path) == Covered(j.originals, s.backups, g.path)
  {
    CoverIsReviewed(row, fs0, j.originals, s.backups, g);
    CoverIsReviewed(row, fs0, d.originals, s.backups, g);
  }

  lemma CoverIsReviewed(row: Row, fs0: map<Path, Thing>, originals: seq<Original>, backups: map<nat, Thing>, g: Item)
    requires Reviewed(row, fs0) && g in row.generated && Listed(row, fs0, originals)
    ensures Covered(originals, backups, g.path) == Covered(row.originals, backups, g.path)
  {
    forall i | 0 <= i < |originals| && i !in backups && AtOrBelow(originals[i].path, g.path)
      ensures Covered(row.originals, backups, g.path)
    {
      ListedApart(row, fs0, originals, i, i);
      assert AtOrBelow(row.originals[i].path, g.path);
    }
    forall i | 0 <= i < |row.originals| && i !in backups && AtOrBelow(row.originals[i].path, g.path)
      ensures Covered(originals, backups, g.path)
    {
      assert originals[i] == row.originals[i];
      assert AtOrBelow(originals[i].path, g.path);
    }
  }

  function Produced(g: Item): Thing { if g.text.Some? then Content(g.text.value, g.mode) else Folder(g.mode) }

  lemma InPlaceOrMoved(row: Row, fs0: map<Path, Thing>, s: Store, phase: Phase, originals: seq<Original>, i: nat)
    requires Undoable(row, fs0, s, phase, originals) && i < |originals|
    ensures i !in s.backups ==> originals[i].path in s.fs && InPlace(row, phase, originals[i], s.fs[originals[i].path])
    ensures i in s.backups ==> s.backups[i] == originals[i].thing
    ensures forall k | k in s.backups :: k < |originals|
  {
  }

  lemma NoReceipt(row: Row, fs0: map<Path, Thing>, s: Store, phase: Phase, originals: seq<Original>)
    requires Undoable(row, fs0, s, phase, originals)
    ensures s.receipt == None
    ensures (s.declaration == None || s.declaration == Some(row.declaration))
    ensures (s.applied == None || s.applied == Some(row.declaration))
    ensures forall k | k in s.backups :: k < |originals|
  {
  }
}
