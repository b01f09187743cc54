/** The provenance index of a candidate (`setup_projection.py`): one record for every leaf of
    the effective declaration, kept in step with every assignment. */
module Provenance {
  import opened Text
  import opened Pointer
  import opened Json

  // ---- leaves ----

  function Digits(n: nat): string {
    if n < 10 then [('0' as int + n) as char] else Digits(n / 10) + [('0' as int + n % 10) as char]
  }

  lemma {:induction false} DigitsPlain(n: nat)
    ensures Escape(Digits(n)) == Digits(n)
    ensures Digits(n) != "" && forall c | c in Digits(n) :: '0' <= c <= '9'
  {
    if n >= 10 { DigitsPlain(n / 10); }
    PlainEscape(Digits(n));
  }

  lemma {:induction false} PlainEscape(s: string)
    requires forall c | c in s :: '0' <= c <= '9'
    ensures Escape(s) == s
  {
    if s != "" {
      assert s[0] in s;
      assert forall c | c in s[1..] :: c in s;
      PlainEscape(s[1..]);
    }
  }

  function Under(key: string, paths: set<Keys>): set<Keys> { set p | p in paths :: [key] + p }

  /** The paths of the leaves: scalars and empty lists, but not empty objects. */
  function LeafPaths(v: Value): set<Keys>
    decreases v, 0
  {
    match v
    case Obj(fields) => FieldLeaves(fields)
    case Arr(items) => if items == [] then {[]} else ItemLeaves(items, 0)
    case _ => {[]}
  }

  function FieldLeaves(fields: seq<Field>): set<Keys> {
    if fields == [] then {} else Under(fields[0].key, LeafPaths(fields[0].value)) + FieldLeaves(fields[1..])
  }

  function ItemLeaves(items: seq<Value>, from: nat): set<Keys> {
    if items == [] then {} else Under(Digits(from), LeafPaths(items[0])) + ItemLeaves(items[1..], from + 1)
  }

  /** `_leaf_provenance`, as the set of its paths: keys escaped, list indices not. */
  function LeafPointers(v: Value, prefix: string): set<string>
    decreases v, 0
  {
    match v
    case Obj(fields) => FieldPointers(fields, prefix)
    case Arr(items) => if items == [] then {prefix} else ItemPointers(items, prefix, 0)
    case _ => {prefix}
  }

  function FieldPointers(fields: seq<Field>, prefix: string): set<string> {
    if fields == [] then {}
    else LeafPointers(fields[0].value, prefix + "/" + Escape(fields[0].key)) + FieldPointers(fields[1..], prefix)
  }

  function ItemPointers(items: seq<Value>, prefix: string, from: nat): set<string> {
    if items == [] then {}
    else LeafPointers(items[0], prefix + "/" + Digits(from)) + ItemPointers(items[1..], prefix, from + 1)
  }

  function Spelled(prefix: string, paths: set<Keys>): set<string> { set p | p in paths :: prefix + PointerOf(p) }

  lemma SpelledUnder(prefix: string, key: string, paths: set<Keys>)
    ensures Spelled(prefix, Under(key, paths)) == Spelled(prefix + "/" + Escape(key), paths)
  {
    forall p ensures prefix + PointerOf([key] + p) == prefix + "/" + Escape(key) + PointerOf(p) {
      assert ([key] + p)[1..] == p;
      assert prefix + ("/" + Escape(key) + PointerOf(p)) == prefix + "/" + Escape(key) + PointerOf(p);
    }
    forall s | s in Spelled(prefix + "/" + Escape(key), paths) ensures s in Spelled(prefix, Under(key, paths)) {
      var p :| p in paths && s == prefix + "/" + Escape(key) + PointerOf(p);
      assert [key] + p in Under(key, paths);
    }
  }

  lemma SpelledUnion(prefix: string, a: set<Keys>, b: set<Keys>)
    ensures Spelled(prefix, a + b) == Spelled(prefix, a) + Spelled(prefix, b)
  {
  }

  /** The recorded pointers spell exactly the leaf paths. */
  lemma {:induction false} LeafPointersSpell(v: Value, prefix: string)
    ensures LeafPointers(v, prefix) == Spelled(prefix, LeafPaths(v))
    decreases v, 0
  {
    match v {
      case Obj(fields) => FieldPointersSpell(fields, prefix);
      case Arr(items) =>
        if items == [] { assert prefix + PointerOf([]) == prefix; } else { ItemPointersSpell(items, prefix, 0); }
      case _ => assert prefix + PointerOf([]) == prefix;
    }
  }

  lemma {:induction false} FieldPointersSpell(fields: seq<Field>, prefix: string)
    ensures FieldPointers(fields, prefix) == Spelled(prefix, FieldLeaves(fields))
  {
    if fields != [] {
      LeafPointersSpell(fields[0].value, prefix + "/" + Escape(fields[0].key));
      FieldPointersSpell(fields[1..], prefix);
      SpelledUnder(prefix, fields[0].key, LeafPaths(fields[0].value));
      SpelledUnion(prefix, Under(fields[0].key, LeafPaths(fields[0].value)), FieldLeaves(fields[1..]));
    }
  }

  lemma {:induction false} ItemPointersSpell(items: seq<Value>, prefix: string, from: nat)
    ensures ItemPointers(items, prefix, from) == Spelled(prefix, ItemLeaves(items, from))
  {
    if items != [] {
      DigitsPlain(from);
      LeafPointersSpell(items[0], prefix + "/" + Digits(from));
      ItemPointersSpell(items[1..], prefix, from + 1);
      SpelledUnder(prefix, Digits(from), LeafPaths(items[0]));
      SpelledUnion(prefix, Under(Digits(from), LeafPaths(items[0])), ItemLeaves(items[1..], from + 1));
    }
  }

  // ---- assignment and leaves ----

  ghost predicate DistinctKeys(fields: seq<Field>) {
    forall i, j | 0 <= i < j < |fields| :: fields[i].key != fields[j].key
  }

  /** No object holds a key twice. */
  ghost predicate Proper(v: Value)
    decreases v, 0
  {
    match v
    case Obj(fields) => DistinctKeys(fields) && ProperFields(fields)
    case Arr(items) => ProperItems(items)
    case _ => true
  }

  ghost predicate ProperFields(fields: seq<Field>) {
    fields == [] || (Proper(fields[0].value) && ProperFields(fields[1..]))
  }

  ghost predicate ProperItems(items: seq<Value>) { items == [] || (Proper(items[0]) && ProperItems(items[1..])) }

  lemma {:induction false} ProperValue(fields: seq<Field>, key: string)
    requires ProperFields(fields) && Has(fields, key)
    ensures Proper(ValueOf(fields, key))
  {
    if fields[0].key != key {
      HasRest(fields, key);
      ProperValue(fields[1..], key);
    }
  }

  lemma {:induction false} SetFieldProper(fields: seq<Field>, key: string, value: Value)
    requires ProperFields(fields) && Proper(value)
    ensures ProperFields(SetField(fields, key, value))
    ensures DistinctKeys(fields) ==> DistinctKeys(SetField(fields, key, value))
  {
    if fields != [] {
      if fields[0].key == key {
        assert ([Field(key, value)] + fields[1..])[1..] == fields[1..];
      } else {
        SetFieldProper(fields[1..], key, value);
        assert ([fields[0]] + SetField(fields[1..], key, value))[1..] == SetField(fields[1..], key, value);
      }
    }
  }

  lemma {:induction false} AddFieldProper(fields: seq<Field>, f: Field)
    requires ProperFields(fields) && Proper(f.value)
    ensures ProperFields(fields + [f])
  {
    if fields == [] {
      assert fields + [f] == [f] && [f][1..] == [];
    } else {
      assert (fields + [f])[1..] == fields[1..] + [f];
      AddFieldProper(fields[1..], f);
    }
  }

  lemma {:induction false} PutProper(v: Value, path: Keys, a: Value, create: bool)
    requires path != [] && Proper(v) && Proper(a) && Put(v, path, a, create).Some?
    ensures Proper(Put(v, path, a, create).value)
    decreases |path|
  {
    var fields, k := v.fields, path[0];
    if !Has(fields, k) {
      AddFieldProper(fields, Field(k, a));
      var more := fields + [Field(k, a)];
      forall i, j | 0 <= i < j < |more| ensures more[i].key != more[j].key {
        assert fields[i].key == more[i].key;
      }
    } else if |path| == 1 {
      SetFieldProper(fields, k, a);
    } else {
      ProperValue(fields, k);
      PutProper(ValueOf(fields, k), path[1..], a, create);
      SetFieldProper(fields, k, Put(ValueOf(fields, k), path[1..], a, create).value);
    }
  }

  lemma InUnder(key: string, paths: set<Keys>, q: Keys)
    ensures q in Under(key, paths) <==> q != [] && q[0] == key && q[1..] in paths
  {
    if q != [] && q[0] == key && q[1..] in paths { assert q == [key] + q[1..]; }
    if q in Under(key, paths) {
      var p :| p in paths && q == [key] + p;
      assert q[1..] == p;
    }
  }

  lemma {:induction false} InFields(fields: seq<Field>, q: Keys)
    requires DistinctKeys(fields)
    ensures q in FieldLeaves(fields) <==> q != [] && Has(fields, q[0]) && q[1..] in LeafPaths(ValueOf(fields, q[0]))
  {
    if fields != [] {
      InUnder(fields[0].key, LeafPaths(fields[0].value), q);
      InFields(fields[1..], q);
      if q != [] {
        HasRest(fields, q[0]);
        if q[0] == fields[0].key { assert !Has(fields[1..], q[0]); }
      }
    }
  }

  /** The leaves after an assignment: below the path those of the new value, elsewhere the old. */
  lemma {:induction false} PutLeaves(v: Value, path: Keys, a: Value, create: bool, q: Keys)
    requires path != [] && Proper(v) && Proper(a) && Put(v, path, a, create).Some?
    ensures q in LeafPaths(Put(v, path, a, create).value)
            <==> if Prefix(path, q) then q[|path|..] in LeafPaths(a) else q in LeafPaths(v)
    decreases |path|
  {
    var fields, k, w := v.fields, path[0], Put(v, path, a, create).value;
    PutProper(v, path, a, create);
    InFields(fields, q);
    InFields(w.fields, q);
    if q != [] {
      if |path| == 1 { assert Prefix(path, q) <==> q[0] == k; }
      if !Has(fields, k) {
        AddFieldReads(fields, Field(k, a), q[0]);
      } else if |path| == 1 {
        SetFieldReads(fields, k, a, q[0]);
      } else {
        ProperValue(fields, k);
        PutLeaves(ValueOf(fields, k), path[1..], a, create, q[1..]);
        SetFieldReads(fields, k, Put(ValueOf(fields, k), path[1..], a, create).value, q[0]);
        if q[0] == k {
          PrefixCons(path, q);
          assert Prefix(path, q) ==> q[1..][|path| - 1..] == q[|path|..];
        }
      }
    }
  }

  // ---- the index ----

  datatype Record = Record(source: string, status: string)

  type Index = map<string, Record>

  /** The index names every leaf of the declaration and nothing else. */
  ghost predicate Indexed(v: Value, index: Index) {
    Proper(v) && index.Keys == LeafPointers(v, "")
  }

  /** `_mark_provenance`: drop what is at or below the pointer, add the leaves of the value. */
  function Mark(index: Index, value: Value, pointer: string, record: Record): Index {
    (map k | k in index && !StringPrefix(pointer, k) :: index[k]) + map k | k in LeafPointers(value, pointer) :: record
  }

  lemma InSpelled(paths: set<Keys>, q: Keys)
    ensures PointerOf(q) in Spelled("", paths) <==> q in paths
  {
    hide PointerOf;
    if PointerOf(q) in Spelled("", paths) {
      var p :| p in paths && PointerOf(q) == "" + PointerOf(p);
      PointerInjective(p, q);
    }
    if q in paths { assert "" + PointerOf(q) == PointerOf(q); }
  }

  lemma InSpelledUnder(path: Keys, paths: set<Keys>, q: Keys)
    ensures PointerOf(q) in Spelled(PointerOf(path), paths) <==> Prefix(path, q) && q[|path|..] in paths
  {
    if PointerOf(q) in Spelled(PointerOf(path), paths) {
      var r :| r in paths && PointerOf(q) == PointerOf(path) + PointerOf(r);
      PointerConcat(path, r);
      PointerInjective(path + r, q);
      assert (path + r)[|path|..] == r;
    }
    if Prefix(path, q) && q[|path|..] in paths {
      assert q == path + q[|path|..];
      PointerConcat(path, q[|path|..]);
    }
  }

  /** Assigning a value and marking it under the same path keeps the index exact: no leaf is
      missing, none is left over from the replaced subtree. */
  lemma MarkedIsIndexed(v: Value, index: Index, path: Keys, a: Value, create: bool, record: Record)
    requires Indexed(v, index) && path != [] && Proper(a) && Put(v, path, a, create).Some?
    ensures Indexed(Put(v, path, a, create).value, Mark(index, a, PointerOf(path), record))
  {
    hide Put, Proper, LeafPaths, LeafPointers, PointerOf, StringPrefix, Prefix;
    var w, marked := Put(v, path, a, create).value, Mark(index, a, PointerOf(path), record);
    PutProper(v, path, a, create);
    LeafPointersSpell(v, "");
    LeafPointersSpell(w, "");
    LeafPointersSpell(a, PointerOf(path));
    forall k | k in marked ensures k in Spelled("", LeafPaths(w)) {
      var q := SpelledBy(v, a, path, index, k);
      MarkedLeaf(v, path, a, create, q);
    }
    forall k | k in Spelled("", LeafPaths(w)) ensures k in marked {
      var q :| q in LeafPaths(w) && k == "" + PointerOf(q);
      assert k == PointerOf(q);
      MarkedLeaf(v, path, a, create, q);
    }
  }

  lemma SpelledBy(v: Value, a: Value, path: Keys, index: Index, k: string) returns (q: Keys)
    requires index.Keys == Spelled("", LeafPaths(v)) && (k in index || k in Spelled(PointerOf(path), LeafPaths(a)))
    ensures PointerOf(q) == k
  {
    if k in index {
      q :| q in LeafPaths(v) && k == "" + PointerOf(q);
      assert "" + PointerOf(q) == PointerOf(q);
    } else {
      var r :| r in LeafPaths(a) && k == PointerOf(path) + PointerOf(r);
      q := path + r;
      PointerConcat(path, r);
    }
  }

  lemma MarkedLeaf(v: Value, path: Keys, a: Value, create: bool, q: Keys)
    requires path != [] && Proper(v) && Proper(a) && Put(v, path, a, create).Some?
    ensures PointerOf(q) in Spelled("", LeafPaths(Put(v, path, a, create).value))
            <==> (PointerOf(q) in Spelled("", LeafPaths(v)) && !StringPrefix(PointerOf(path), PointerOf(q)))
                 || PointerOf(q) in Spelled(PointerOf(path), LeafPaths(a))
  {
    hide Put, Proper, LeafPaths, PointerOf, Prefix, StringPrefix;
    PutLeaves(v, path, a, create, q);
    InSpelled(LeafPaths(Put(v, path, a, create).value), q);
    InSpelled(LeafPaths(v), q);
    InSpelledUnder(path, LeafPaths(a), q);
    StringPrefixIsPathPrefix(path, q);
  }
}
