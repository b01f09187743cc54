/** When a plan has nothing left to do: the host shows exactly what was declared. */
module Convergence {
  import opened Text
  import opened Host
  import opened Generation
  import opened Planning
  import Git = GitOwnership

  predicate FileSettled(present: bool, r: Resource, fs: Tree) {
    if present then Observe(fs, r) == Exact else r.removeWhenAbsent ==> Observe(fs, r) == Absent
  }

  predicate UnitSettled(d: Desired, r: Resource, units: Units) {
    r.unitName.Some? ==>
      var u := UnitOf(units, r.unitName.value);
      if d.present then (r.enableWhenPresent ==> u.enabled) && (u.active <==> TargetActive(d, r)) else u == IDLE
  }

  predicate StaleSettled(family: Family, d: Desired, bundle: seq<Resource>, fs: Tree, owned: seq<Entry>) {
    var stale := StaleResources(family, d, bundle, fs, owned);
    stale.Listed? && forall r | r in stale.resources :: Observe(fs, r) == Absent
  }

  predicate GitSettled(repo: Git.Repository, c: Git.Config, d: Desired) {
    d.configVersion >= 2 ==>
      Git.ObserveIdentity(repo, c, d) == Git.Exact && Git.ObserveTransport(repo, c, d) == Git.Exact
  }

  predicate Settled(repo: Git.Repository, d: Desired, fs: Tree, units: Units, c: Git.Config, owned: seq<Entry>) {
    var bundle := Generate(d);
    && (forall r | r in bundle :: FileSettled(d.present, r, fs))
    && (forall r | r in bundle :: UnitSettled(d, r, units))
    && GitSettled(repo, c, d)
    && StaleSettled(GuardFamily, d, bundle, fs, owned)
    && StaleSettled(DevelopmentFamily, d, bundle, fs, owned)
    && StaleSettled(AccessFamily, d, bundle, fs, owned)
  }

  lemma AllNoopConcat(a: seq<PlanItem>, b: seq<PlanItem>)
    ensures AllNoop(a + b) <==> AllNoop(a) && AllNoop(b)
  {
    assert forall i | 0 <= i < |a| :: (a + b)[i] == a[i];
    assert forall i | 0 <= i < |b| :: (a + b)[|a| + i] == b[i];
  }

  lemma FilesNoop(present: bool, rs: seq<Resource>, fs: Tree)
    ensures AllNoop(FileItems(present, rs, fs)) <==> forall r | r in rs :: FileSettled(present, r, fs)
    ensures AllNoop(FileItems(present, rs, fs)) ==> ChangedIds(present, rs, fs) == {}
  {
    var items := FileItems(present, rs, fs);
    forall i | 0 <= i < |rs| ensures items[i].op.NoOp? <==> FileSettled(present, rs[i], fs) {
      assert items[i] == FileItem(present, rs[i], fs);
    }
    if AllNoop(items) {
      forall r | r in rs ensures FileSettled(present, r, fs) {
        var i :| 0 <= i < |rs| && rs[i] == r;
        assert items[i].op.NoOp?;
      }
    }
  }

  lemma UnitNoop(d: Desired, r: Resource, units: Units)
    ensures AllNoop(UnitItemsOf(d, r, units, {})) <==> UnitSettled(d, r, units)
  {
    if r.unitName.Some? {
      var ops := UnitOperations(d, r, UnitOf(units, r.unitName.value), {});
      var items := UnitItemsOf(d, r, units, {});
      assert forall i | 0 <= i < |ops| :: items[i].op == ops[i] && !ops[i].NoOp?;
      if ops != [] { assert !items[0].op.NoOp?; }
    }
  }

  lemma {:induction false} UnitsNoop(d: Desired, rs: seq<Resource>, units: Units)
    ensures AllNoop(UnitItems(d, rs, units, {})) <==> forall r | r in rs :: UnitSettled(d, r, units)
  {
    if rs != [] {
      var before, last := rs[..|rs| - 1], rs[|rs| - 1];
      UnitsNoop(d, before, units);
      UnitNoop(d, last, units);
      AllNoopConcat(UnitItems(d, before, units, {}), UnitItemsOf(d, last, units, {}));
      assert forall r :: r in rs <==> r in before || r == last;
    }
  }

  lemma StaleOfNoop(family: Family, r: Resource, fs: Tree, units: Units)
    ensures AllNoop(StaleItemsOf(family, r, fs, units)) <==> Observe(fs, r) == Absent
  {
    var ops := StaleOperations(family, r, fs, units);
    var items := StaleItemsOf(family, r, fs, units);
    if Observe(fs, r) == Absent {
    } else {
      assert !ops[|ops| - 1].NoOp?;
      assert !items[|ops| - 1].op.NoOp?;
    }
  }

  lemma {:induction false} ListedNoop(family: Family, rs: seq<Resource>, fs: Tree, units: Units)
    ensures AllNoop(ListedItems(family, rs, fs, units)) <==> forall r | r in rs :: Observe(fs, r) == Absent
  {
    if rs != [] {
      var before, last := rs[..|rs| - 1], rs[|rs| - 1];
      ListedNoop(family, before, fs, units);
      StaleOfNoop(family, last, fs, units);
      AllNoopConcat(ListedItems(family, before, fs, units), StaleItemsOf(family, last, fs, units));
      assert forall r :: r in rs <==> r in before || r == last;
    }
  }

  lemma StaleNoop(family: Family, d: Desired, bundle: seq<Resource>, fs: Tree, units: Units, owned: seq<Entry>)
    ensures AllNoop(StaleItems(family, d, bundle, fs, units, owned)) <==> StaleSettled(family, d, bundle, fs, owned)
  {
    var stale := StaleResources(family, d, bundle, fs, owned);
    if stale.Listed? {
      ListedNoop(family, stale.resources, fs, units);
    } else {
      assert StaleItems(family, d, bundle, fs, units, owned)[0].op.Conflict?;
    }
  }

  lemma GitNoop(repo: Git.Repository, c: Git.Config, d: Desired)
    ensures AllNoop(GitItems(repo, c, d)) <==> GitSettled(repo, c, d)
  {
    if d.configVersion >= 2 {
      var items := GitItems(repo, c, d);
      assert AllNoop(items) <==> items[0].op.NoOp? && items[1].op.NoOp?;
    }
  }

  /** A plan says to change nothing exactly when files, units, git settings and what is left
      of earlier declarations are all as declared. */
  lemma NothingToDo(repo: Git.Repository, d: Desired, fs: Tree, units: Units, c: Git.Config, owned: seq<Entry>)
    ensures AllNoop(PlanOf(repo, d, fs, units, c, owned)) <==> Settled(repo, d, fs, units, c, owned)
  {
    hide Generate, Ids, ResourceOf, FileItems, UnitItems, StaleItems, GitItems, ChangedIds, FileSettled, UnitSettled;
    hide StaleSettled, GitSettled;
    var bundle := Generate(d);
    var changed := ChangedIds(d.present, bundle, fs);
    var files, git := FileItems(d.present, bundle, fs), GitItems(repo, c, d);
    var units1, tunnel := UnitItems(d, bundle, units, changed), TunnelItems(d, bundle, units, changed);
    var g, v, a := StaleItems(GuardFamily, d, bundle, fs, units, owned),
      StaleItems(DevelopmentFamily, d, bundle, fs, units, owned),
                   StaleItems(AccessFamily, d, bundle, fs, units, owned);
    AllNoopConcat(units1, tunnel);
    AllNoopConcat(g, v);
    AllNoopConcat(g + v, a);
    AllNoopConcat(files, git);
    AllNoopConcat(files + git, units1 + tunnel);
    AllNoopConcat(files + git + (units1 + tunnel), g + v + a);
    AllNoopConcat(units1 + tunnel, git);
    AllNoopConcat(units1 + tunnel + git, files);
    AllNoopConcat(units1 + tunnel + git + files, g + v + a);
    FilesNoop(d.present, bundle, fs);
    UnitsNoop(d, bundle, units);
    GitNoop(repo, c, d);
    StaleNoop(GuardFamily, d, bundle, fs, units, owned);
    StaleNoop(DevelopmentFamily, d, bundle, fs, units, owned);
    StaleNoop(AccessFamily, d, bundle, fs, units, owned);
  }
}
