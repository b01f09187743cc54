/** Picking operations out of a plan, the way the executor does. */
module Selection {
  import opened Text
  import opened Host
  import opened Generation
  import opened Planning
  import opened Convergence
  import Git = GitOwnership
  import Namespace

  function Filter(s: seq<PlanItem>, f: PlanItem -> bool): seq<PlanItem> {
    if s == [] then []
    else Filter(s[..|s| - 1], f) + (if f(s[|s| - 1]) then [s[|s| - 1]] else [])
  }

  lemma {:induction false} InFilter(s: seq<PlanItem>, f: PlanItem -> bool, x: PlanItem)
    ensures x in Filter(s, f) <==> x in s && f(x)
  {
    if s != [] {
      var last, before := s[|s| - 1], s[..|s| - 1];
      InFilter(before, f, x);
      assert x in s <==> x in before || x == last;
    }
  }

  lemma {:induction false} FilterConcat(a: seq<PlanItem>, b: seq<PlanItem>, f: PlanItem -> bool)
    ensures Filter(a + b, f) == Filter(a, f) + Filter(b, f)
  {
    if b == [] {
      assert a + b == a;
    } else {
      assert (a + b)[..|a + b| - 1] == a + b[..|b| - 1];
      FilterConcat(a, b[..|b| - 1], f);
    }
  }

  lemma {:induction false} FilterNone(s: seq<PlanItem>, f: PlanItem -> bool)
    requires forall x | x in s :: !f(x)
    ensures Filter(s, f) == []
  {
    if s != [] {
      assert s[|s| - 1] in s;
      FilterNone(s[..|s| - 1], f);
    }
  }

  ghost predicate DistinctPaths(s: seq<PlanItem>) {
    && (forall i | 0 <= i < |s| :: s[i].subject.OnResource?)
    && (forall i, j | 0 <= i < j < |s| :: s[i].subject.r.path != s[j].subject.r.path)
  }

  lemma {:induction false} FilterDistinct(s: seq<PlanItem>, f: PlanItem -> bool)
    requires DistinctPaths(s)
    ensures DistinctPaths(Filter(s, f))
  {
    if s != [] {
      var last, before := s[|s| - 1], s[..|s| - 1];
      FilterDistinct(before, f);
      var r := Filter(before, f);
      forall i | 0 <= i < |r| ensures r[i].subject.OnResource? && r[i].subject.r.path != last.subject.r.path {
        InFilter(before, f, r[i]);
        var k :| 0 <= k < |before| && before[k] == r[i];
        assert s[k] == r[i];
      }
    }
  }

  predicate Write(x: PlanItem) { x.subject.OnResource? && (x.op.Create? || x.op.Update?) }
  predicate AccessWrite(x: PlanItem) { Write(x) && x.subject.r.id.IsAccess() }
  predicate OtherWrite(x: PlanItem) { Write(x) && !x.subject.r.id.IsAccess() }

  /** The units that operations of these kinds are about. */
  function UnitsOf(plan: seq<PlanItem>, ops: set<Operation>): seq<string> {
    if plan == [] then []
    else
      var x := plan[|plan| - 1];
      UnitsOf(plan[..|plan| - 1], ops)
      + (if x.op in ops && x.subject.OnUnit? && x.subject.r.unitName.Some? then [x.subject.r.unitName.value] else [])
  }

  ghost predicate UnitOpIn(plan: seq<PlanItem>, ops: set<Operation>, u: string) {
    exists x | x in plan :: x.op in ops && x.subject.OnUnit? && x.subject.r.unitName == Some(u)
  }

  lemma {:induction false} InUnitsOf(plan: seq<PlanItem>, ops: set<Operation>, u: string)
    ensures u in UnitsOf(plan, ops) <==> UnitOpIn(plan, ops, u)
  {
    if plan != [] {
      var last, before := plan[|plan| - 1], plan[..|plan| - 1];
      InUnitsOf(before, ops, u);
      assert forall x :: x in plan <==> x in before || x == last;
    }
  }

  function RemovalsOf(plan: seq<PlanItem>): seq<Resource> {
    if plan == [] then []
    else
      var x := plan[|plan| - 1];
      RemovalsOf(plan[..|plan| - 1]) + (if x.op.Remove? && x.subject.OnResource? then [x.subject.r] else [])
  }

  lemma {:induction false} InRemovalsOf(plan: seq<PlanItem>, r: Resource)
    ensures r in RemovalsOf(plan) <==> PlanItem(Remove, OnResource(r)) in plan
  {
    if plan != [] {
      var last, before := plan[|plan| - 1], plan[..|plan| - 1];
      InRemovalsOf(before, r);
      assert forall x :: x in plan <==> x in before || x == last;
    }
  }

  // ---- what a plan contains ----

  /** The three lists of obsolete resources, together. */
  function AllStale(d: Desired, fs: Tree, owned: seq<Entry>): seq<Resource> {
    Obsoletes(GuardFamily, d, fs, owned) + Obsoletes(DevelopmentFamily, d, fs, owned)
      + Obsoletes(AccessFamily, d, fs, owned)
  }

  function Obsoletes(family: Family, d: Desired, fs: Tree, owned: seq<Entry>): seq<Resource> {
    var stale := StaleResources(family, d, Generate(d), fs, owned);
    if stale.Listed? then stale.resources else []
  }

  lemma InFileItems(present: bool, rs: seq<Resource>, fs: Tree, x: PlanItem)
    ensures x in FileItems(present, rs, fs)
            <==> x.subject.OnResource? && x.subject.r in rs && x == FileItem(present, x.subject.r, fs)
  {
    var items := FileItems(present, rs, fs);
    if x in items {
      var i :| 0 <= i < |items| && items[i] == x;
      assert rs[i] in rs;
    }
    if x.subject.OnResource? && x.subject.r in rs && x == FileItem(present, x.subject.r, fs) {
      var i :| 0 <= i < |rs| && rs[i] == x.subject.r;
      assert items[i] == x;
    }
  }

  ghost predicate IsUnitItem(d: Desired, rs: seq<Resource>, units: Units, changed: set<Rid>, x: PlanItem) {
    && x.subject.OnUnit? && x.subject.r in rs && x.subject.r.unitName.Some?
    && x.op in UnitOperations(d, x.subject.r, UnitOf(units, x.subject.r.unitName.value), changed)
  }

  lemma InUnitItemsOf(d: Desired, r: Resource, units: Units, changed: set<Rid>, x: PlanItem)
    ensures x in UnitItemsOf(d, r, units, changed) <==> IsUnitItem(d, [r], units, changed, x)
  {
    if r.unitName.Some? {
      var ops := UnitOperations(d, r, UnitOf(units, r.unitName.value), changed);
      var items := UnitItemsOf(d, r, units, changed);
      if x in items {
        var i :| 0 <= i < |items| && items[i] == x;
        assert ops[i] in ops;
      }
      if x.subject == OnUnit(r) && x.op in ops {
        var i :| 0 <= i < |ops| && ops[i] == x.op;
        assert items[i] == x;
      }
    }
  }

  lemma {:induction false} InUnitItems(d: Desired, rs: seq<Resource>, units: Units, changed: set<Rid>, x: PlanItem)
    ensures x in UnitItems(d, rs, units, changed) <==> IsUnitItem(d, rs, units, changed, x)
  {
    if rs != [] {
      var last, before := rs[|rs| - 1], rs[..|rs| - 1];
      InUnitItems(d, before, units, changed, x);
      InUnitItemsOf(d, last, units, changed, x);
      assert forall r :: r in rs <==> r in before || r == last;
    }
  }

  ghost predicate IsStaleItem(family: Family, rs: seq<Resource>, fs: Tree, units: Units, x: PlanItem) {
    && (x.subject.OnResource? || x.subject.OnUnit?) && x.subject.r in rs
    && x.op in StaleOperations(family, x.subject.r, fs, units) && x.subject == StaleSubject(x.subject.r, x.op)
  }

  lemma InStaleItemsOf(family: Family, r: Resource, fs: Tree, units: Units, x: PlanItem)
    ensures x in StaleItemsOf(family, r, fs, units) <==> IsStaleItem(family, [r], fs, units, x)
  {
    var ops, items := StaleOperations(family, r, fs, units), StaleItemsOf(family, r, fs, units);
    if x in items {
      var i :| 0 <= i < |items| && items[i] == x;
      assert ops[i] in ops;
    }
    if IsStaleItem(family, [r], fs, units, x) {
      var i :| 0 <= i < |ops| && ops[i] == x.op;
      assert items[i] == x;
    }
  }

  lemma {:induction false} InListedItems(family: Family, rs: seq<Resource>, fs: Tree, units: Units, x: PlanItem)
    ensures x in ListedItems(family, rs, fs, units) <==> IsStaleItem(family, rs, fs, units, x)
  {
    if rs != [] {
      var last, before := rs[|rs| - 1], rs[..|rs| - 1];
      InListedItems(family, before, fs, units, x);
      InStaleItemsOf(family, last, fs, units, x);
      hide StaleOperations;
      assert forall r :: r in rs <==> r in before || r == last;
    }
  }
}
