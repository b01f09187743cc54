/** Paths of generated resources do not collide: within one bundle, and between the bundles
    of different instances. */
module Namespace {
  import opened Text
  import opened Host
  import opened Generation

  predicate IsUnit(rid: Rid) {
    rid.McpUnit? || rid.TunnelUnit? || rid.AgentUnit? || rid.GuardUnit? || rid.GuardTimer?
  }

  lemma Affixes(prefix: string, x: string, y: string, suffix: string)
    requires prefix + x + suffix == prefix + y + suffix
    ensures x == y
  {
    var left, right := prefix + x + suffix, prefix + y + suffix;
    assert |x| == |y|;
    assert x == left[|prefix|..|prefix| + |x|];
    assert y == right[|prefix|..|prefix| + |y|];
  }

  lemma Suffixed(x: string, y: string, suffix: string)
    requires x + suffix == y + suffix
    ensures x == y
  {
    assert "" + x == x && "" + y == y;
    Affixes("", x, y, suffix);
  }

  /** A character that tells the four unit prefixes apart, and the one that tells a timer. */
  function PrefixMark(name: string): char { if |name| <= 14 then ' ' else if name[0] == 'w' then name[14] else name[0] }

  lemma MarkOfUnit(i: string, r: Rid)
    requires IsUnit(r)
    ensures PrefixMark(UnitName(i, r))
            == if r.McpUnit? then 'c' else if r.TunnelUnit? then 't' else if r.AgentUnit? then 's' else 'a'
    ensures UnitName(i, r)[|UnitName(i, r)| - 1] == if r.GuardTimer? then 'r' else 'e'
  {
    var prefix := UnitPrefix(r);
    assert UnitName(i, r)[0] == prefix[0];
    if |prefix| > 14 {
      assert UnitName(i, r)[14] == prefix[14];
    }
  }

  /** A unit name determines both the instance and the kind of unit. */
  lemma UnitNamesApart(i: string, r: Rid, j: string, s: Rid)
    requires IsUnit(r) && IsUnit(s)
    requires UnitName(i, r) == UnitName(j, s)
    ensures r == s && i == j
  {
    MarkOfUnit(i, r);
    MarkOfUnit(j, s);
    assert r == s;
    Affixes(UnitPrefix(r), i, j, if r.GuardTimer? then ".timer" else ".service");
  }

  function Last(p: Path): string { if p == [] then "" else p[|p| - 1] }
  function ParentName(p: Path): string { if |p| < 2 then "" else p[|p| - 2] }

  /** The directory a resource lives in, as its last component. */
  function DirectoryName(d: Desired, rid: Rid): string {
    match rid
    case StateDir => "instances"
    case StateOwner => d.iid
    case ProfileDir => "workspace-mcp-manager"
    case Profile => "tunnel-profiles"
    case Launcher => "bin"
    case CliHelper => "bin"
    case GithubRoot => "workspace-mcp-manager"
    case GithubDir => "github"
    case GithubOwner => d.iid
    case AccessRoot => Last(d.workspace)
    case AccessOwner => ".workspace-mcp-access"
    case AccessIgnore => ".workspace-mcp-access"
    case Mount(_, _) => ".workspace-mcp-access"
    case _ => "user"
  }

  function Leaf(d: Desired, rid: Rid): string {
    match rid
    case StateDir => d.iid
    case StateOwner => ".owner"
    case ProfileDir => "tunnel-profiles"
    case Profile => d.profile + ".yaml"
    case Launcher => d.iid + "-mcp"
    case CliHelper => d.iid + "-git-credential-github"
    case GithubRoot => "github"
    case GithubDir => d.iid
    case GithubOwner => ".owner"
    case AccessRoot => ".workspace-mcp-access"
    case AccessOwner => ".owner"
    case AccessIgnore => ".gitignore"
    case Mount(_, alias) => alias
    case _ => UnitName(d.iid, rid)
  }

  lemma PathEnds(d: Desired, rid: Rid)
    ensures PathOf(d, rid) != [] && Last(PathOf(d, rid)) == Leaf(d, rid)
    ensures ParentName(PathOf(d, rid)) == DirectoryName(d, rid)
  {
  }

  /** An identity a valid declaration may carry. */
  predicate Plausible(rid: Rid) {
    rid.Mount? ==> rid.alias != "" && '.' !in rid.alias
  }

  predicate Plain(s: string) { '.' !in s }

  lemma PlainLeaf(d: Desired, rid: Rid)
    requires ValidDesired(d) && Plausible(rid)
    ensures Leaf(d, rid) != ""
    ensures Leaf(d, rid)[0] == '.'
            <==> rid.StateOwner? || rid.GithubOwner? || rid.AccessOwner? || rid.AccessRoot? || rid.AccessIgnore?
  {
    if rid.StateDir? || rid.GithubDir? || rid.Launcher? || rid.CliHelper? {
      assert d.iid[0] in d.iid;
    }
    if rid.Mount? {
      assert rid.alias[0] in rid.alias;
    }
  }

  lemma LeavesApartInBin(i: string, j: string)
    ensures i + "-mcp" != j + "-git-credential-github"
  {
    var left, right := i + "-mcp", j + "-git-credential-github";
    assert left[|left| - 1] == 'p' && right[|right| - 1] == 'b';
  }

  /** The same path in two bundles: the identities are the same up to a mount's mode, and
      unless the directory is shared, the instance, the profile or the workspace is too. */
  lemma PathsApart(a: Desired, r: Rid, b: Desired, s: Rid)
    requires ValidDesired(a) && ValidDesired(b) && Plausible(r) && Plausible(s)
    requires PathOf(a, r) == PathOf(b, s)
    ensures r == s || (r.Mount? && s.Mount? && r.alias == s.alias)
    ensures r.IsShared() || a.iid == b.iid || a.profile == b.profile || a.workspace == b.workspace
  {
    PathEnds(a, r); PathEnds(b, s);
    PlainLeaf(a, r); PlainLeaf(b, s);
    LeavesApartInBin(a.iid, b.iid); LeavesApartInBin(b.iid, a.iid);
    if IsUnit(r) && IsUnit(s) {
      UnitNamesApart(a.iid, r, b.iid, s);
    } else {
      SameKind(a, r, b, s);
      SameOwner(a, r, b, s);
    }
  }

  /** The third component from the end tells the two owner markers under an instance id apart. */
  function GrandparentName(p: Path): string { if |p| < 3 then "" else p[|p| - 3] }

  lemma OwnersLevel(d: Desired, rid: Rid)
    ensures rid.StateOwner? ==> GrandparentName(PathOf(d, rid)) == "instances"
    ensures rid.GithubOwner? ==> GrandparentName(PathOf(d, rid)) == "github"
  {
  }

  lemma SameKind(a: Desired, r: Rid, b: Desired, s: Rid)
    requires ValidDesired(a) && ValidDesired(b) && Plausible(r) && Plausible(s)
    requires PathOf(a, r) == PathOf(b, s) && !(IsUnit(r) && IsUnit(s))
    ensures r == s || (r.Mount? && s.Mount? && r.alias == s.alias)
  {
    hide PathOf, UnitName;
    PathEnds(a, r); PathEnds(b, s);
    PlainLeaf(a, r); PlainLeaf(b, s);
    LeavesApartInBin(a.iid, b.iid); LeavesApartInBin(b.iid, a.iid);
    OwnersLevel(a, r); OwnersLevel(b, s);
    assert '.' in ".workspace-mcp-access";
  }

  lemma SameOwner(a: Desired, r: Rid, b: Desired, s: Rid)
    requires ValidDesired(a) && ValidDesired(b)
    requires PathOf(a, r) == PathOf(b, s) && !IsUnit(r)
    requires r == s || (r.Mount? && s.Mount? && r.alias == s.alias)
    ensures r.IsShared() || a.iid == b.iid || a.profile == b.profile || a.workspace == b.workspace
  {
    PathEnds(a, r); PathEnds(b, s);
    if r.Profile? {
      Suffixed(a.profile, b.profile, ".yaml");
    } else if r.Launcher? {
      Suffixed(a.iid, b.iid, "-mcp");
    } else if r.CliHelper? {
      Suffixed(a.iid, b.iid, "-git-credential-github");
    } else if r.IsAccess() {
      var p, q := PathOf(a, r), PathOf(b, s);
      assert a.workspace == p[..|a.workspace|] && b.workspace == q[..|b.workspace|];
    }
  }

  lemma GeneratedIsPlausible(d: Desired, rid: Rid)
    requires ValidDesired(d) && rid in Ids(d)
    ensures Plausible(rid)
  {
    WantedIsGenerated(d, rid);
  }

  ghost predicate NoRepeats<T>(s: seq<T>) {
    forall i, j | 0 <= i < j < |s| :: s[i] != s[j]
  }

  lemma NoRepeatsConcat<T>(a: seq<T>, b: seq<T>)
    requires NoRepeats(a) && NoRepeats(b)
    requires forall x | x in a :: x !in b
    ensures NoRepeats(a + b)
  {
    var c := a + b;
    forall i, j | 0 <= i < j < |c|
      ensures c[i] != c[j]
    {
      if i < |a| <= j {
        assert c[i] in a && c[j] in b;
      }
    }
  }

  lemma AccessIdsDistinct(d: Desired)
    requires ValidDesired(d)
    ensures NoRepeats(AccessIds(d))
  {
    if d.folders != [] {
      forall x | x in [AccessRoot, AccessOwner, AccessIgnore] ensures x !in Mounts(d.folders) {
        MountsMembership(d.folders, x);
      }
      NoRepeatsConcat([AccessRoot, AccessOwner, AccessIgnore], Mounts(d.folders));
    }
  }

  lemma DevelopmentIdsDistinct(d: Desired)
    ensures NoRepeats(DevelopmentIds(d))
  {
  }

  lemma BaseIdsDistinct()
    ensures NoRepeats(BaseIds())
  {
  }

  lemma IdsDistinct(d: Desired)
    requires ValidDesired(d)
    ensures NoRepeats(Ids(d))
  {
    var base, dev, acc, guard := BaseIds(), DevelopmentIds(d), AccessIds(d), When(d.guard, [GuardUnit, GuardTimer]);
    BaseIdsDistinct();
    DevelopmentIdsDistinct(d);
    AccessIdsDistinct(d);
    forall x | x in base
      ensures x !in dev && x !in acc
    { BaseIdsMembership(x); DevelopmentIdsMembership(d, x); AccessIdsMembership(d, x); }
    forall x | x in dev ensures x !in acc { DevelopmentIdsMembership(d, x); AccessIdsMembership(d, x); }
    forall x | x in base + dev + acc
      ensures x !in guard
    { BaseIdsMembership(x); DevelopmentIdsMembership(d, x); AccessIdsMembership(d, x); }
    NoRepeatsConcat(base, dev);
    NoRepeatsConcat(base + dev, acc);
    NoRepeatsConcat(base + dev + acc, guard);
  }

  lemma PathsDistinct(d: Desired, r: Rid, s: Rid)
    requires ValidDesired(d) && Wanted(d, r) && Wanted(d, s) && r != s
    ensures PathOf(d, r) != PathOf(d, s)
  {
    if PathOf(d, r) == PathOf(d, s) {
      PathsApart(d, r, d, s);
    }
  }

  /** Within one bundle no two resources share an identity or a path. */
  lemma BundleDistinct(d: Desired)
    requires ValidDesired(d)
    ensures NoRepeats(Ids(d))
    ensures forall r, s | r in Ids(d) && s in Ids(d) && r != s :: PathOf(d, r) != PathOf(d, s)
  {
    IdsDistinct(d);
    forall r, s | r in Ids(d) && s in Ids(d) && r != s
      ensures PathOf(d, r) != PathOf(d, s)
    {
      WantedIsGenerated(d, r);
      WantedIsGenerated(d, s);
      PathsDistinct(d, r, s);
    }
  }

  /** Instances that differ in id, profile and workspace share only the two retained
      directories. */
  lemma BundlesApart(a: Desired, b: Desired, r: Rid, s: Rid)
    requires ValidDesired(a) && ValidDesired(b)
    requires a.iid != b.iid && a.profile != b.profile && a.workspace != b.workspace
    requires r in Ids(a) && s in Ids(b) && PathOf(a, r) == PathOf(b, s)
    ensures r == s && r.IsShared() && !ResourceOf(a, r).removeWhenAbsent
  {
    GeneratedIsPlausible(a, r);
    GeneratedIsPlausible(b, s);
    PathsApart(a, r, b, s);
  }
}
