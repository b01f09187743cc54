/** The durable host state the manager observes and mutates. */
module Host {
  import opened Text

  /** An absolute path as its components; the root directory is `[]`. */
  type Path = seq<string>

  /** `Blob` is a regular file that is not valid UTF-8, `Special` any other file type
      (a symbolic link, say), `Sealed` something this context may not inspect. */
  datatype Node = Dir(mode: nat) | File(text: string, mode: nat) | Blob(bytes: nat, mode: nat) | Special | Sealed

  type Tree = map<Path, Node>

  const PRIVATE: nat := 0x1C0 // octal 700

  predicate Below(top: Path, p: Path) {
    |top| < |p| && p[..|top|] == top
  }

  /** Every directory on the way to an existing node exists. */
  ghost predicate Rooted(fs: Tree) {
    forall p, i | p in fs && 0 < i < |p| :: p[..i] in fs && fs[p[..i]].Dir?
  }

  lemma RootedAbove(fs: Tree, top: Path, p: Path)
    requires Rooted(fs) && p in fs && Below(top, p) && top != []
    ensures top in fs && fs[top].Dir?
  {
    assert top == p[..|top|];
  }

  function Ancestors(p: Path): (s: set<Path>)
    ensures forall q :: q in s <==> q != [] && Below(q, p)
  {
    var s := set i | 0 < i < |p| :: p[..i];
    assert forall q | q != [] && Below(q, p) :: q == p[..|q|];
    s
  }

  /** The tree after `mkdir(parents=True)` for the parents of `p`. */
  function WithParents(fs: Tree, p: Path): (r: Tree)
    ensures forall q | q in fs :: q in r && r[q] == fs[q]
    ensures forall q | q in r && q !in fs :: r[q] == Dir(PRIVATE) && q != [] && Below(q, p)
    ensures forall q | q != [] && Below(q, p) :: q in r
  {
    fs + map q | q in Ancestors(p) && q !in fs :: Dir(PRIVATE)
  }

  predicate ParentsAreDirs(fs: Tree, p: Path) {
    forall q | q in Ancestors(p) && q in fs :: fs[q].Dir?
  }

  predicate Empty(fs: Tree, p: Path) {
    forall q | q in fs :: !Below(p, q)
  }

  /** Replacing or adding a node below existing directories keeps the tree rooted. */
  lemma PutRooted(fs: Tree, p: Path, node: Node)
    requires Rooted(fs) && ParentsAreDirs(fs, p) && p != []
    requires node.Dir? || p !in fs || !fs[p].Dir?
    ensures Rooted(WithParents(fs, p)[p := node])
  {
    var mid := WithParents(fs, p);
    var r := mid[p := node];
    forall q, i | q in r && 0 < i < |q|
      ensures q[..i] in r && r[q[..i]].Dir?
    {
      var a := q[..i];
      if q == p {
        assert Below(a, p);
      } else if q in fs {
        assert a in fs && fs[a].Dir?;
      } else {
        assert Below(q, p);
        assert a == p[..i];
        assert Below(a, p);
      }
    }
  }

  lemma DropRooted(fs: Tree, p: Path)
    requires Rooted(fs) && p in fs && (fs[p].Dir? ==> Empty(fs, p))
    ensures Rooted(fs - {p})
  {
    forall q, i | q in fs - {p} && 0 < i < |q|
      ensures q[..i] in fs - {p} && (fs - {p})[q[..i]].Dir?
    {
      assert q[..i] in fs && fs[q[..i]].Dir?;
      assert q[..i] == p ==> Below(p, q);
    }
  }

  datatype UnitState = UnitState(enabled: bool, active: bool)

  const IDLE := UnitState(false, false)

  type Units = map<string, UnitState>

  function UnitOf(units: Units, name: string): UnitState {
    if name in units then units[name] else IDLE
  }

  /** The tree as a process changes it; any system call may fail. */
  class Disk {
    var fs: Tree

    constructor (fs: Tree)
      ensures this.fs == fs
    {
      this.fs := fs;
    }

    /** `_atomic_write`: parents first, then a rename over the target. */
    method AtomicWrite(path: Path, text: string, mode: nat) returns (o: Outcome)
      modifies this
      ensures o.Pass? ==> ParentsAreDirs(old(fs), path) && !(path in old(fs) && old(fs)[path].Dir?)
      ensures o.Pass? ==> fs == WithParents(old(fs), path)[path := File(text, mode)]
      ensures o.Raise? ==> fs == old(fs) || (ParentsAreDirs(old(fs), path) && fs == WithParents(old(fs), path))
    {
      if !ParentsAreDirs(fs, path) { return Raise; }
      if * { return Raise; }
      fs := WithParents(fs, path);
      if path in fs && fs[path].Dir? { return Raise; }
      if * { return Raise; }
      fs := fs[path := File(text, mode)];
      return Pass;
    }

    /** `mkdir(parents=True, exist_ok=False)`. */
    method MakeDirectory(path: Path, mode: nat) returns (o: Outcome)
      modifies this
      ensures o.Pass? ==>
                path !in old(fs) && ParentsAreDirs(old(fs), path) && fs == WithParents(old(fs), path)[path := Dir(mode)]
      ensures o.Raise? ==> fs == old(fs) || (ParentsAreDirs(old(fs), path) && fs == WithParents(old(fs), path))
    {
      if !ParentsAreDirs(fs, path) || path in fs { return Raise; }
      if * { return Raise; }
      fs := WithParents(fs, path);
      if * { return Raise; }
      fs := fs[path := Dir(mode)];
      return Pass;
    }

    method ChangeMode(path: Path, mode: nat) returns (o: Outcome)
      requires path in fs && fs[path].Dir?
      modifies this
      ensures fs == if o.Pass? then old(fs)[path := Dir(mode)] else old(fs)
    {
      if * { return Raise; }
      fs := fs[path := Dir(mode)];
      return Pass;
    }

    method Unlink(path: Path) returns (o: Outcome)
      modifies this
      ensures o.Pass? ==> path in old(fs) && !old(fs)[path].Dir?
      ensures fs == if o.Pass? then old(fs) - {path} else old(fs)
    {
      if path !in fs || fs[path].Dir? { return Raise; }
      if * { return Raise; }
      fs := fs - {path};
      return Pass;
    }

    /** `rmdir`, which a non-empty directory refuses. */
    method RemoveDirectory(path: Path) returns (o: Outcome)
      modifies this
      ensures o.Pass? ==> path in old(fs) && old(fs)[path].Dir? && Empty(old(fs), path)
      ensures fs == if o.Pass? then old(fs) - {path} else old(fs)
    {
      if path !in fs || !fs[path].Dir? || !Empty(fs, path) { return Raise; }
      if * { return Raise; }
      fs := fs - {path};
      return Pass;
    }
  }
}
