/** Declarations as JSON values, and edits by path (`_get_pointer`, `_set_pointer`). */
module Json {
  import opened Text
  import opened Pointer

  datatype Value =
    | Null | Flag(b: bool) | Number(n: int) | Str(s: string) | Arr(items: seq<Value>) | Obj(fields: seq<Field>)

  datatype Field = Field(key: string, value: Value)

  // ---- objects ----

  predicate Has(fields: seq<Field>, key: string) { exists i | 0 <= i < |fields| :: fields[i].key == key }

  function ValueOf(fields: seq<Field>, key: string): Value
    requires Has(fields, key)
  {
    if fields[0].key == key then fields[0].value else ValueOf(fields[1..], key)
  }

  function SetField(fields: seq<Field>, key: string, value: Value): (r: seq<Field>)
    ensures |r| == |fields| && forall i | 0 <= i < |r| :: r[i].key == fields[i].key
  {
    if fields == [] then []
    else if fields[0].key == key then [Field(key, value)] + fields[1..]
    else [fields[0]] + SetField(fields[1..], key, value)
  }

  lemma {:induction false} SetFieldReads(fields: seq<Field>, key: string, value: Value, k: string)
    ensures Has(SetField(fields, key, value), k) <==> Has(fields, k)
    ensures Has(fields, k) ==>
              ValueOf(SetField(fields, key, value), k) == if k == key then value else ValueOf(fields, k)
  {
    if fields != [] {
      var rest := SetField(fields[1..], key, value);
      SetFieldReads(fields[1..], key, value, k);
      HasRest(fields, k);
      HasRest(SetField(fields, key, value), k);
      if fields[0].key == key {
        assert ([Field(key, value)] + fields[1..])[1..] == fields[1..];
      } else {
        assert ([fields[0]] + rest)[1..] == rest;
      }
    }
  }

  lemma HasRest(fields: seq<Field>, k: string)
    requires fields != []
    ensures Has(fields, k) <==> fields[0].key == k || Has(fields[1..], k)
  {
    if i :| 0 <= i < |fields[1..]| && fields[1..][i].key == k { assert fields[i + 1].key == k; }
    if i :| 0 <= i < |fields| && fields[i].key == k && i > 0 { assert fields[1..][i - 1].key == k; }
  }

  lemma {:induction false} SetFieldCommutes(fields: seq<Field>, k1: string, v1: Value, k2: string, v2: Value)
    requires k1 != k2
    ensures SetField(SetField(fields, k1, v1), k2, v2) == SetField(SetField(fields, k2, v2), k1, v1)
  {
    if fields != [] {
      SetFieldCommutes(fields[1..], k1, v1, k2, v2);
      var f := fields[0];
      assert ([Field(k1, v1)] + fields[1..])[1..] == fields[1..] && ([Field(k2, v2)] + fields[1..])[1..] == fields[1..];
      assert ([f] + SetField(fields[1..], k1, v1))[1..] == SetField(fields[1..], k1, v1);
      assert ([f] + SetField(fields[1..], k2, v2))[1..] == SetField(fields[1..], k2, v2);
    }
  }

  lemma {:induction false} SetFieldTwice(fields: seq<Field>, k: string, v1: Value, v2: Value)
    ensures SetField(SetField(fields, k, v1), k, v2) == SetField(fields, k, v2)
  {
    if fields != [] {
      SetFieldTwice(fields[1..], k, v1, v2);
      assert ([Field(k, v1)] + fields[1..])[1..] == fields[1..];
      assert ([fields[0]] + SetField(fields[1..], k, v1))[1..] == SetField(fields[1..], k, v1);
    }
  }

  lemma {:induction false} AddFieldReads(fields: seq<Field>, f: Field, k: string)
    requires !Has(fields, f.key)
    ensures Has(fields + [f], k) <==> Has(fields, k) || k == f.key
    ensures Has(fields, k) ==> ValueOf(fields + [f], k) == ValueOf(fields, k)
    ensures k == f.key ==> ValueOf(fields + [f], k) == f.value
  {
    var more := fields + [f];
    if fields == [] {
      assert more == [f];
      assert more[0].key == f.key;
    } else {
      assert more[1..] == fields[1..] + [f];
      HasRest(fields, f.key);
      HasRest(fields, k);
      HasRest(more, k);
      AddFieldReads(fields[1..], f, k);
    }
  }

  // ---- paths ----

  /** `_get_pointer`. */
  function Get(v: Value, path: Keys): Option<Value>
    decreases |path|
  {
    if path == [] then Some(v)
    else if !v.Obj? || !Has(v.fields, path[0]) then None
    else Get(ValueOf(v.fields, path[0]), path[1..])
  }

  /** Assignment at a path; `_set_pointer` when the last key must be there already. */
  function Put(v: Value, path: Keys, new_: Value, create: bool): Option<Value>
    requires path != []
    decreases |path|
  {
    if !v.Obj? then None
    else if |path| == 1 then
      if Has(v.fields, path[0]) then Some(Obj(SetField(v.fields, path[0], new_)))
      else if create then Some(Obj(v.fields + [Field(path[0], new_)])) else None
    else if !Has(v.fields, path[0]) then None
    else
      var child := Put(ValueOf(v.fields, path[0]), path[1..], new_, create);
      if child.None? then None else Some(Obj(SetField(v.fields, path[0], child.value)))
  }

  /** What was set is what is read. */
  lemma {:induction false} GetPut(v: Value, path: Keys, a: Value, create: bool)
    requires path != [] && Put(v, path, a, create).Some?
    ensures Get(Put(v, path, a, create).value, path) == Some(a)
    decreases |path|
  {
    var fields := v.fields;
    if !Has(fields, path[0]) {
      AddFieldReads(fields, Field(path[0], a), path[0]);
      assert path[1..] == [];
    } else if |path| == 1 {
      SetFieldReads(fields, path[0], a, path[0]);
      assert path[1..] == [];
    } else {
      var child := Put(ValueOf(fields, path[0]), path[1..], a, create).value;
      GetPut(ValueOf(fields, path[0]), path[1..], a, create);
      SetFieldReads(fields, path[0], child, path[0]);
    }
  }

  predicate Independent(p: Keys, q: Keys) { !Prefix(p, q) && !Prefix(q, p) }

  lemma PrefixCons(p: Keys, q: Keys)
    requires p != [] && q != [] && p[0] == q[0]
    ensures Prefix(p, q) <==> Prefix(p[1..], q[1..])
  {
    if |p| <= |q| {
      assert q[..|p|] == [q[0]] + q[1..][..|p| - 1];
      assert p == [p[0]] + p[1..];
    }
  }

  lemma IndependentRest(p: Keys, q: Keys)
    requires Independent(p, q) && p != [] && q != [] && p[0] == q[0]
    ensures |p| > 1 && |q| > 1 && Independent(p[1..], q[1..])
  {
    PrefixCons(p, q);
    PrefixCons(q, p);
  }

  /** Setting at one path does not change what is read at an independent one. */
  lemma {:induction false} GetOther(v: Value, path: Keys, a: Value, create: bool, other: Keys)
    requires path != [] && other != [] && Independent(path, other) && Put(v, path, a, create).Some?
    ensures Get(Put(v, path, a, create).value, other) == Get(v, other)
    decreases |path|
  {
    var fields := v.fields;
    if path[0] == other[0] {
      IndependentRest(path, other);
      var child := Put(ValueOf(fields, path[0]), path[1..], a, create).value;
      GetOther(ValueOf(fields, path[0]), path[1..], a, create, other[1..]);
      SetFieldReads(fields, path[0], child, path[0]);
    } else if !Has(fields, path[0]) {
      AddFieldReads(fields, Field(path[0], a), other[0]);
    } else if |path| == 1 {
      SetFieldReads(fields, path[0], a, other[0]);
    } else {
      SetFieldReads(fields, path[0], Put(ValueOf(fields, path[0]), path[1..], a, create).value, other[0]);
    }
  }

  function Then(v: Option<Value>, path: Keys, a: Value): Option<Value>
    requires path != []
  {
    if v.None? then None else Put(v.value, path, a, false)
  }

  /** Settings at independent paths commute, also in failing. */
  lemma {:induction false} PutsCommute(v: Value, p: Keys, a: Value, q: Keys, b: Value)
    requires p != [] && q != [] && Independent(p, q)
    ensures Then(Put(v, p, a, false), q, b) == Then(Put(v, q, b, false), p, a)
    decreases |p|
  {
    if v.Obj? {
      var fields := v.fields;
      if p[0] == q[0] {
        IndependentRest(p, q);
        if Has(fields, p[0]) {
          var child := ValueOf(fields, p[0]);
          PutsCommute(child, p[1..], a, q[1..], b);
          var x, y := Put(child, p[1..], a, false), Put(child, q[1..], b, false);
          if x.Some? { SetFieldReads(fields, p[0], x.value, p[0]); SetOnSame(fields, p[0], x.value, q[1..], b); }
          if y.Some? { SetFieldReads(fields, p[0], y.value, p[0]); SetOnSame(fields, p[0], y.value, p[1..], a); }
        }
      } else {
        PutsApart(v, p, a, q, b);
      }
    }
  }

  lemma SetOnSame(fields: seq<Field>, k: string, x: Value, rest: Keys, b: Value)
    requires Has(fields, k) && rest != []
    ensures Put(Obj(SetField(fields, k, x)), [k] + rest, b, false)
            == if Put(x, rest, b, false).None? then None
              else Some(Obj(SetField(fields, k, Put(x, rest, b, false).value)))
  {
    SetFieldReads(fields, k, x, k);
    assert ([k] + rest)[1..] == rest;
    if Put(x, rest, b, false).Some? { SetFieldTwice(fields, k, x, Put(x, rest, b, false).value); }
  }

  /** What a setting does to its first key: the new value there, or failure. */
  function Child(fields: seq<Field>, p: Keys, a: Value): Option<Value>
    requires p != []
  {
    if !Has(fields, p[0]) then None
    else if |p| == 1 then Some(a)
    else Put(ValueOf(fields, p[0]), p[1..], a, false)
  }

  lemma PutIsChild(fields: seq<Field>, p: Keys, a: Value)
    requires p != []
    ensures Put(Obj(fields), p, a, false)
            == if Child(fields, p, a).None? then None else Some(Obj(SetField(fields, p[0], Child(fields, p, a).value)))
  {
  }

  lemma PutsApart(v: Value, p: Keys, a: Value, q: Keys, b: Value)
    requires v.Obj? && p != [] && q != [] && p[0] != q[0]
    ensures Then(Put(v, p, a, false), q, b) == Then(Put(v, q, b, false), p, a)
  {
    var fields := v.fields;
    var x, y := Child(fields, p, a), Child(fields, q, b);
    PutIsChild(fields, p, a);
    PutIsChild(fields, q, b);
    if x.Some? {
      SetFieldReads(fields, p[0], x.value, q[0]);
      PutIsChild(SetField(fields, p[0], x.value), q, b);
    }
    if y.Some? {
      SetFieldReads(fields, q[0], y.value, p[0]);
      PutIsChild(SetField(fields, q[0], y.value), p, a);
    }
    if x.Some? && y.Some? { SetFieldCommutes(fields, p[0], x.value, q[0], y.value); }
  }

  // ---- runs of edits ----

  datatype Edit = Edit(path: Keys, value: Value)

  function ApplyEdits(v: Option<Value>, edits: seq<Edit>): Option<Value>
    requires forall e | e in edits :: e.path != []
  {
    if edits == [] then v
    else Then(ApplyEdits(v, edits[..|edits| - 1]), edits[|edits| - 1].path, edits[|edits| - 1].value)
  }

  ghost predicate AllIndependent(edits: seq<Edit>) {
    && (forall e | e in edits :: e.path != [])
    && (forall i, j | 0 <= i < j < |edits| :: Independent(edits[i].path, edits[j].path))
  }

  lemma {:induction false} ApplyConcat(v: Option<Value>, a: seq<Edit>, b: seq<Edit>)
    requires forall e | e in a + b :: e.path != []
    ensures ApplyEdits(v, a + b) == ApplyEdits(ApplyEdits(v, a), b)
  {
    if b == [] {
      assert a + b == a;
    } else {
      assert (a + b)[..|a + b| - 1] == a + b[..|b| - 1];
      ApplyConcat(v, a, b[..|b| - 1]);
    }
  }

  /** An edit may wait until after edits at independent paths. */
  lemma {:induction false} EditWaits(v: Option<Value>, e: Edit, rest: seq<Edit>)
    requires e.path != [] && forall f | f in rest :: f.path != [] && Independent(e.path, f.path)
    ensures ApplyEdits(Then(v, e.path, e.value), rest) == Then(ApplyEdits(v, rest), e.path, e.value)
  {
    if rest != [] {
      var last, before := rest[|rest| - 1], rest[..|rest| - 1];
      EditWaits(v, e, before);
      var w := ApplyEdits(v, before);
      if w.Some? { PutsCommute(w.value, e.path, e.value, last.path, last.value); }
    }
  }

  lemma SameElements<T>(a: seq<T>, b: seq<T>)
    requires multiset(a) == multiset(b)
    ensures forall x :: x in a <==> x in b
  {
    assert forall x :: (x in a <==> x in multiset(a)) && (x in b <==> x in multiset(b));
  }

  lemma WithoutOne<T>(b: seq<T>, k: nat)
    requires k < |b|
    ensures multiset(b[..k] + b[k + 1..]) == multiset(b) - multiset{b[k]}
  {
    assert b == b[..k] + [b[k]] + b[k + 1..];
  }

  /** Any one of the edits may as well come last. */
  lemma MoveToEnd(v: Option<Value>, b: seq<Edit>, k: nat)
    requires k < |b| && AllIndependent(b)
    ensures AllIndependent(b[..k] + b[k + 1..])
    ensures ApplyEdits(v, b) == Then(ApplyEdits(v, b[..k] + b[k + 1..]), b[k].path, b[k].value)
  {
    var e, x, y := b[k], b[..k], b[k + 1..];
    WithoutIndependent(b, k);
    assert b == x + ([e] + y);
    ApplyConcat(v, x, [e] + y);
    ApplyConcat(ApplyEdits(v, x), [e], y);
    SingleEdit(ApplyEdits(v, x), e);
    EditWaits(ApplyEdits(v, x), e, y);
    ApplyConcat(v, x, y);
  }

  /** Every order of edits at pairwise independent paths gives the same declaration, or fails. */
  lemma {:induction false} OrderOfEdits(v: Option<Value>, a: seq<Edit>, b: seq<Edit>)
    requires multiset(a) == multiset(b) && AllIndependent(a) && AllIndependent(b)
    ensures ApplyEdits(v, a) == ApplyEdits(v, b)
    decreases |a|
  {
    SameElements(a, b);
    if a == [] {
      EmptyMultiset(b);
    } else {
      hide Then, AllIndependent;
      var e, rest := a[|a| - 1], a[..|a| - 1];
      assert a == rest + [e];
      assert e in b;
      var k :| 0 <= k < |b| && b[k] == e;
      var left := b[..k] + b[k + 1..];
      WithoutOne(b, k);
      MoveToEnd(v, b, k);
      MoveToEnd(v, a, |a| - 1);
      assert a[..|a| - 1] + a[|a|..] == rest;
      assert multiset(rest) == multiset(left);
      OrderOfEdits(v, rest, left);
    }
  }

  lemma EmptyMultiset(b: seq<Edit>)
    requires multiset(b) == multiset{}
    ensures b == []
  {
    assert |multiset(b)| == |b|;
  }

  lemma SingleEdit(v: Option<Value>, e: Edit)
    requires e.path != []
    ensures ApplyEdits(v, [e]) == Then(v, e.path, e.value)
  {
    assert [e][..0] == [];
  }

  lemma WithoutIndependent(b: seq<Edit>, k: nat)
    requires k < |b| && AllIndependent(b)
    ensures AllIndependent(b[..k] + b[k + 1..])
    ensures forall f | f in b[k + 1..] :: f.path != [] && Independent(b[k].path, f.path)
  {
    var r := b[..k] + b[k + 1..];
    assert forall i | 0 <= i < |r| :: r[i] == if i < k then b[i] else b[i + 1];
    forall f | f in b[k + 1..] ensures f.path != [] && Independent(b[k].path, f.path) {
      var i :| 0 <= i < |b[k + 1..]| && b[k + 1..][i] == f;
      assert b[k + 1 + i] == f;
    }
  }

  /** After a run of edits at independent paths every one of them is in force. */
  lemma EditsHold(v: Option<Value>, edits: seq<Edit>, e: Edit)
    requires AllIndependent(edits) && e in edits && ApplyEdits(v, edits).Some?
    ensures Get(ApplyEdits(v, edits).value, e.path) == Some(e.value)
  {
    var k :| 0 <= k < |edits| && edits[k] == e;
    MoveToEnd(v, edits, k);
    GetPut(ApplyEdits(v, edits[..k] + edits[k + 1..]).value, e.path, e.value, false);
  }

  /** What is read at a path that no edit reaches stays. */
  lemma {:induction false} EditsElsewhere(v: Option<Value>, edits: seq<Edit>, q: Keys)
    requires (forall e | e in edits :: e.path != [] && Independent(e.path, q)) && q != [] && ApplyEdits(v, edits).Some?
    ensures v.Some? && Get(ApplyEdits(v, edits).value, q) == Get(v.value, q)
  {
    if edits != [] {
      var last, before := edits[|edits| - 1], edits[..|edits| - 1];
      EditsElsewhere(v, before, q);
      GetOther(ApplyEdits(v, before).value, last.path, last.value, false, q);
    }
  }
}
