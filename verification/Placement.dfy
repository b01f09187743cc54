/** What it takes for a resource to be observed as declared, and what a change leaves alone. */
module Placement {
  import opened Text
  import opened Host
  import opened Generation
  import opened Planning
  import opened Rollback
  import Namespace

  /** The node a resource asks for is at its path. */
  predicate Fits(fs: Tree, r: Resource) {
    && r.path in fs
    && if r.kind.Directory? then fs[r.path] == Dir(r.mode)
       else fs[r.path].File? && r.content == Some(Universal(fs[r.path].text)) && fs[r.path].mode == r.mode
  }

  predicate SameAt(a: Tree, b: Tree, p: Path) {
    (p in a <==> p in b) && (p in a ==> a[p] == b[p])
  }

  function MarkerOf(rid: Rid): Rid {
    match rid
    case StateDir => StateOwner
    case GithubDir => GithubOwner
    case AccessRoot => AccessOwner
    case AccessIgnore => AccessOwner
    case Mount(_, _) => AccessOwner
    case _ => rid
  }

  lemma TokenInOwner(d: Desired, rid: Rid)
    requires ResourceOf(d, rid).content.Some? && !rid.AccessIgnore?
    ensures Contains(ResourceOf(d, rid).content.value, OwnerToken(d.iid))
  {
    var token := OwnerToken(d.iid);
    if rid.StateOwner? || rid.GithubOwner? || rid.AccessOwner? {
      assert "" + token + "\n" == token + "\n";
      ContainsPart("", token, "\n");
    } else {
      var key := if rid.Profile? then "profile" else if rid.Launcher? then "launcher" else if rid.McpUnit? then "mcp"
                 else if rid.TunnelUnit? then "tunnel" else if rid.CliHelper? then "helper"
                   else if rid.AgentUnit? then "agent"
                 else if rid.GuardUnit? then "guard" else "timer";
      var rest := if key in d.bodies then d.bodies[key] else "";
      assert ResourceOf(d, rid).content.value == Body(d, key);
      assert Body(d, key) == "# " + token + ("\n" + rest);
      ContainsPart("# ", token, "\n" + rest);
    }
  }

  lemma MarkerIsWanted(d: Desired, rid: Rid)
    requires Wanted(d, rid)
    ensures Wanted(d, MarkerOf(rid))
    ensures ResourceOf(d, rid).marker == if MarkerOf(rid) == rid then None else Some(PathOf(d, MarkerOf(rid)))
    ensures MarkerOf(rid) != rid ==> ResourceOf(d, MarkerOf(rid)).content.Some? && !MarkerOf(rid).AccessIgnore?
  {
  }

  /** In place with its marker in place, a resource is observed exact. */
  lemma FittingIsExact(d: Desired, fs: Tree, rid: Rid)
    requires Wanted(d, rid) && Fits(fs, ResourceOf(d, rid)) && Fits(fs, ResourceOf(d, MarkerOf(rid)))
    ensures Observe(fs, ResourceOf(d, rid)) == Exact
  {
    MarkerIsWanted(d, rid);
    var r, m := ResourceOf(d, rid), ResourceOf(d, MarkerOf(rid));
    assert r.path == PathOf(d, rid) && m.path == PathOf(d, MarkerOf(rid));
    if MarkerOf(rid) != rid {
      TokenInOwner(d, MarkerOf(rid));
      assert MarkerStatus(fs, r) == Exact;
    } else if r.content.Some? {
      TokenInOwner(d, rid);
    }
  }

  function LogPaths(d: Desired): set<Path> {
    set name | name in RUNTIME_STATE_FILES :: StatePath(d) + [name]
  }

  /** Between two trees only these paths, parents made for them, and logs differ. */
  ghost predicate Touched(a: Tree, b: Tree, paths: set<Path>, logs: set<Path>) {
    && (forall p | p in a && p !in paths && p !in logs :: p in b && b[p] == a[p])
    && (forall p | p in b && p !in a && p !in paths && p !in logs :: b[p] == Dir(PRIVATE) && exists q | q in paths ::
       Below(p, q))
  }

  lemma WrittenTouches(fs: Tree, p: Path, node: Node, logs: set<Path>)
    ensures Touched(fs, fs, {p}, logs) && Touched(fs, WithParents(fs, p), {p}, logs)
    ensures Touched(fs, WithParents(fs, p)[p := node], {p}, logs)
    ensures Touched(fs, fs[p := node], {p}, logs)
  {
    assert p in {p};
  }

  /** As `Touched`, and nothing new apart from logs. */
  ghost predicate Dropped(a: Tree, b: Tree, paths: set<Path>, logs: set<Path>) {
    && (forall p | p !in paths && p !in logs :: SameAt(a, b, p))
    && (forall p | p in paths && p !in logs && p in b :: p in a && a[p] == b[p])
  }

  lemma TouchedNothing(a: Tree, paths: set<Path>, logs: set<Path>)
    ensures Touched(a, a, paths, logs)
  {
  }

  lemma LogsTouchNothing(a: Tree, b: Tree, paths: set<Path>, logs: set<Path>)
    requires forall p | p !in logs :: SameAt(a, b, p)
    ensures Touched(a, b, paths, logs)
  {
  }

  lemma TouchedMore(a: Tree, b: Tree, c: Tree, paths: set<Path>, some: set<Path>, logs: set<Path>)
    requires Touched(a, b, paths, logs) && Touched(b, c, some, logs) && some <= paths
    ensures Touched(a, c, paths, logs)
  {
    forall p | p in c && p !in a && p !in paths && p !in logs
      ensures c[p] == Dir(PRIVATE) && exists q | q in paths :: Below(p, q)
    {
      if p !in b {
        var q :| q in some && Below(p, q);
        assert q in paths;
      }
    }
  }

  /** A path that neither is a log nor lies below one. */
  predicate Apart(p: Path, logs: set<Path>) {
    p != [] && p !in logs && forall l | l in logs :: !Below(l, p)
  }
}
