/** Composing a candidate declaration (`setup_projection.py`): derivations and operator edits,
    each recorded in the provenance index. */
module Candidate {
  import opened Text
  import opened Pointer
  import opened Json
  import opened Provenance
  import opened Sorting

  /** `_EDITABLE_POINTERS`, as paths. */
  const EDITABLE: set<Keys> := {
    ["instance_id"], ["lifecycle", "runtime"],
    ["mcp", "binary"], ["mcp", "host"], ["mcp", "port"], ["mcp", "permission_mode"], ["mcp", "shell_env_inherit"],
    ["mcp", "exec_path"], ["mcp", "external_roots"],
    ["tunnel", "binary"], ["tunnel", "id"], ["tunnel", "health_host"], ["tunnel", "health_port"],
      ["tunnel", "env_file"],
    ["github", "mode"], ["github", "config_dir"], ["github", "binary"],
    ["git", "identity"], ["git", "remote"], ["agent", "mode"], ["agent", "ssh_auth_sock"],
    ["recovery", "admission_guard_enabled"], ["recovery", "guard_interval_seconds"],
      ["recovery", "recovery_cooldown_seconds"] }

  /** `_CLEARABLE_POINTERS`. */
  const CLEARABLE: set<Keys> := {
    ["github", "config_dir"], ["github", "binary"], ["git", "identity"], ["git", "remote"], ["agent", "ssh_auth_sock"] }

  /** `_COPY_POINTERS`, in order. */
  const COPIED: seq<Keys> := [
    ["mcp", "binary"], ["mcp", "host"], ["mcp", "permission_mode"], ["mcp", "shell_env_inherit"], ["mcp", "exec_path"],
    ["mcp", "external_roots"], ["tunnel", "binary"], ["tunnel", "health_host"], ["tunnel", "env_file"],
    ["recovery", "admission_guard_enabled"], ["recovery", "guard_interval_seconds"],
      ["recovery", "recovery_cooldown_seconds"]]

  datatype FieldEdit = Set(path: Keys, value: Value) | Clear(path: Keys)

  function EditOf(f: FieldEdit): Edit { Edit(f.path, if f.Set? then f.value else Null) }

  function EditsOf(fs: seq<FieldEdit>): (es: seq<Edit>)
    ensures |es| == |fs| && forall i | 0 <= i < |es| :: es[i] == EditOf(fs[i])
  {
    seq(|fs|, i requires 0 <= i < |fs| => EditOf(fs[i]))
  }

  /** What `candidate` accepts of a list of edits. */
  ghost predicate Accepted(fs: seq<FieldEdit>) {
    && (forall f | f in fs :: f.path in EDITABLE && (f.Clear? ==> f.path in CLEARABLE))
    && (forall i, j | 0 <= i < j < |fs| :: fs[i].path != fs[j].path)
  }

  predicate EditableShape(p: Keys) { p == ["instance_id"] || (|p| == 2 && p[0] != "instance_id") }

  lemma EditableIsShaped(p: Keys)
    requires p in EDITABLE
    ensures EditableShape(p)
  {
    assert "instance_id"[0] == 'i';
    if p != ["instance_id"] {
      assert |p| == 2;
      assert p[0][0] in {'l', 'm', 't', 'g', 'a', 'r'};
    }
  }

  /** No editable path lies at or below another. */
  lemma EditableIndependent(p: Keys, q: Keys)
    requires p in EDITABLE && q in EDITABLE && p != q
    ensures Independent(p, q)
  {
    EditableIsShaped(p);
    EditableIsShaped(q);
    hide EDITABLE;
    if |p| == |q| {
      assert q[..|p|] == q && p[..|q|] == p;
    }
  }

  lemma AcceptedIndependent(fs: seq<FieldEdit>)
    requires Accepted(fs)
    ensures AllIndependent(EditsOf(fs))
  {
    var es := EditsOf(fs);
    forall i | 0 <= i < |es| ensures es[i].path != [] { assert fs[i] in fs; EditableIsShaped(fs[i].path); }
    forall i, j | 0 <= i < j < |es| ensures Independent(es[i].path, es[j].path) {
      assert fs[i] in fs && fs[j] in fs;
      EditableIndependent(fs[i].path, fs[j].path);
    }
  }

  lemma EditsOfWithout(b: seq<FieldEdit>, k: nat)
    requires k < |b|
    ensures multiset(EditsOf(b)) == multiset(EditsOf(b[..k] + b[k + 1..])) + multiset{EditOf(b[k])}
  {
    var es := EditsOf(b);
    WithoutOne(es, k);
    assert EditsOf(b[..k] + b[k + 1..]) == es[..k] + es[k + 1..];
    assert es[k] in multiset(es);
  }

  lemma EditsOfLast(a: seq<FieldEdit>)
    requires a != []
    ensures multiset(EditsOf(a)) == multiset(EditsOf(a[..|a| - 1])) + multiset{EditOf(a[|a| - 1])}
  {
    EditsOfWithout(a, |a| - 1);
    assert a[..|a| - 1] + a[|a|..] == a[..|a| - 1];
  }

  lemma {:induction false} EditsOfMultiset(a: seq<FieldEdit>, b: seq<FieldEdit>)
    requires multiset(a) == multiset(b)
    ensures multiset(EditsOf(a)) == multiset(EditsOf(b))
    decreases |a|
  {
    hide EditOf;
    if a == [] {
      assert |multiset(b)| == |b|;
    } else {
      var e, rest := a[|a| - 1], a[..|a| - 1];
      SameElements(a, b);
      var k := IndexIn(b, e);
      var left := b[..k] + b[k + 1..];
      WithoutOne(b, k);
      WithoutOne(a, |a| - 1);
      assert a[..|a| - 1] + a[|a|..] == rest;
      EditsOfMultiset(rest, left);
      EditsOfLast(a);
      EditsOfWithout(b, k);
    }
  }

  lemma IndexIn<T>(b: seq<T>, e: T) returns (k: nat)
    requires e in b
    ensures k < |b| && b[k] == e
  {
    k :| 0 <= k < |b| && b[k] == e;
  }

  /** Any order of an accepted list of edits gives the same declaration. */
  lemma EditsCommute(v: Value, a: seq<FieldEdit>, b: seq<FieldEdit>)
    requires Accepted(a) && Accepted(b) && multiset(a) == multiset(b)
    ensures AllIndependent(EditsOf(a)) && AllIndependent(EditsOf(b))
    ensures ApplyEdits(Some(v), EditsOf(a)) == ApplyEdits(Some(v), EditsOf(b))
  {
    AcceptedIndependent(a);
    AcceptedIndependent(b);
    EditsOfMultiset(a, b);
    OrderOfEdits(Some(v), EditsOf(a), EditsOf(b));
  }

  // ---- the input fingerprint ----

  predicate PathLe(a: FieldEdit, b: FieldEdit) { NameLe(PointerOf(a.path), PointerOf(b.path)) }

  lemma PathOrder()
    ensures TotalOrder(PathLe)
  {
    forall a, b ensures PathLe(a, b) || PathLe(b, a) { NameTotal(PointerOf(a.path), PointerOf(b.path)); }
    forall a, b, c | PathLe(a, b) && PathLe(b, c) ensures PathLe(a, c) {
      NameTransitive(PointerOf(a.path), PointerOf(b.path), PointerOf(c.path));
    }
  }

  lemma {:induction false} NameAntisymmetric(a: string, b: string)
    requires NameLe(a, b) && NameLe(b, a)
    ensures a == b
  {
    if a != "" {
      NameAntisymmetric(a[1..], b[1..]);
      assert a == [a[0]] + a[1..] && b == [b[0]] + b[1..];
    }
  }

  /** Two sorted lists of the same edits, no path twice, are the same list. */
  lemma {:induction false} SortedOnce(a: seq<FieldEdit>, b: seq<FieldEdit>)
    requires Sorted(a, PathLe) && Sorted(b, PathLe) && multiset(a) == multiset(b)
    requires forall x, y | x in a && y in a && x != y :: x.path != y.path
    ensures a == b
    decreases |a|
  {
    hide PathLe, Sorted;
    assert |multiset(a)| == |a| && |multiset(b)| == |b|;
    if a != [] {
      SameFirst(a, b);
      SortedRest(a, PathLe);
      WithoutFirst(a);
      SortedRest(b, PathLe);
      WithoutFirst(b);
      SortedOnce(a[1..], b[1..]);
    }
  }

  lemma WithoutFirst<T>(a: seq<T>)
    requires a != []
    ensures a == [a[0]] + a[1..] && forall x | x in a[1..] :: x in a
    ensures multiset(a[1..]) == multiset(a) - multiset{a[0]}
  {
    assert a == [a[0]] + a[1..];
  }

  lemma SameFirst(a: seq<FieldEdit>, b: seq<FieldEdit>)
    requires Sorted(a, PathLe) && Sorted(b, PathLe) && multiset(a) == multiset(b) && a != [] && b != []
    requires forall x, y | x in a && y in a && x != y :: x.path != y.path
    ensures a[0] == b[0]
  {
    hide PointerOf, NameLe, Sorted;
    SameElements(a, b);
    var x, y := a[0], b[0];
    assert x in b && y in a;
    FirstIsLeast(a, y);
    FirstIsLeast(b, x);
    NameAntisymmetric(PointerOf(x.path), PointerOf(y.path));
    PointerInjective(x.path, y.path);
  }

  lemma FirstIsLeast(a: seq<FieldEdit>, y: FieldEdit)
    requires Sorted(a, PathLe) && y in a
    ensures PathLe(a[0], y)
  {
    hide PathLe;
    PathOrder();
    var i :| 0 <= i < |a| && a[i] == y;
    assert i > 0 ==> PathLe(a[0], a[i]);
  }

  /** The edits enter the input fingerprint in one order, whichever they came in. */
  lemma FingerprintIgnoresOrder(a: seq<FieldEdit>, b: seq<FieldEdit>)
    requires Accepted(a) && multiset(a) == multiset(b)
    ensures Sort(a, PathLe) == Sort(b, PathLe)
  {
    PathOrder();
    SortSorts(a, PathLe);
    SortSorts(b, PathLe);
    forall x, y | x in Sort(a, PathLe) && y in Sort(a, PathLe) && x != y ensures x.path != y.path {
      InSort(a, PathLe, x);
      InSort(a, PathLe, y);
    }
    SortedOnce(Sort(a, PathLe), Sort(b, PathLe));
  }

  // ---- composition ----

  lemma {:induction false} GetProper(v: Value, path: Keys)
    requires Proper(v)
    ensures Get(v, path).Some? ==> Proper(Get(v, path).value)
    decreases |path|
  {
    if path != [] && v.Obj? && Has(v.fields, path[0]) {
      ProperValue(v.fields, path[0]);
      GetProper(ValueOf(v.fields, path[0]), path[1..]);
    }
  }

  lemma ScalarProper(v: Value)
    requires !v.Obj? && !v.Arr?
    ensures Proper(v)
  {
  }

  lemma PairProper(k: string, v: Value, l: string, w: Value)
    requires k != l && Proper(v) && Proper(w)
    ensures Proper(Obj([Field(k, v), Field(l, w)]))
  {
    var fields := [Field(k, v), Field(l, w)];
    assert fields[1..] == [Field(l, w)] && fields[1..][1..] == [];
    assert ProperFields(fields[1..]);
    assert ProperFields(fields);
  }

  lemma OneMoreEdit(edits: seq<FieldEdit>, i: nat)
    requires i < |edits| && Accepted(edits[..i]) && edits[i].path in EDITABLE
    requires (edits[i].Clear? ==> edits[i].path in CLEARABLE)
    requires forall j | 0 <= j < i :: edits[j].path != edits[i].path
    ensures Accepted(edits[..i + 1])
    ensures EditsOf(edits[..i + 1]) == EditsOf(edits[..i]) + [EditOf(edits[i])]
    ensures EditsOf(edits[..i + 1])[..i] == EditsOf(edits[..i])
  {
    hide EDITABLE, CLEARABLE;
    assert edits[..i + 1] == edits[..i] + [edits[i]];
  }

  /** A number that tells the copied paths apart. */
  function Measure(p: Keys): nat
    requires |p| == 2
  {
    100 * |p[0]| + |p[1]|
  }

  const MEASURES: seq<nat> := [306, 304, 315, 317, 309, 314, 606, 611, 608, 823, 822, 825]

  lemma CopiedMeasure(i: nat)
    requires i < |COPIED|
    ensures |COPIED[i]| == 2 && |MEASURES| == |COPIED| && Measure(COPIED[i]) == MEASURES[i]
  {
  }

  lemma CopiedEditable(i: nat)
    requires i < |COPIED|
    ensures COPIED[i] in EDITABLE && COPIED[i] != []
  {
  }

  lemma CopiedIndependent(i: nat, j: nat)
    requires i < |COPIED| && j < |COPIED| && i != j
    ensures COPIED[i] != [] && Independent(COPIED[i], COPIED[j])
  {
    hide COPIED, EDITABLE, Independent;
    CopiedMeasure(i);
    CopiedMeasure(j);
    CopiedEditable(i);
    CopiedEditable(j);
    EditableIndependent(COPIED[i], COPIED[j]);
  }

  lemma AccessApart(p: Keys)
    requires p in EDITABLE
    ensures Independent(["access"], p)
  {
    assert "access"[0] == 'a' && "access"[1] == 'c' && "agent"[1] == 'g';
    assert p[0][0] in {'i', 'l', 'm', 't', 'g', 'r'} || p[0] == "agent";
    hide EDITABLE;
    assert p[0] != "access";
  }

}
