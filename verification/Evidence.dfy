/** Applied evidence (`access.py`, `admission_recovery.py`): what is rebuilt from it is what
    was generated, and only what the declaration no longer covers. */
module Evidence {
  import opened Text
  import opened Host
  import opened Generation
  import opened Planning
  import opened Placement
  import opened Namespace

  predicate InFamily(family: Family, rid: Rid) {
    match family
    case AccessFamily => rid.IsAccess()
    case GuardFamily => rid.IsGuard()
    case DevelopmentFamily => rid.IsDevelopment()
  }

  lemma FoundAccess(d: Desired, bundle: seq<Resource>, e: Entry)
    requires ScanAccess(d, bundle, e).Found?
    ensures var r := ScanAccess(d, bundle, e).r;
            && r == e.fingerprint && r.id == e.id && e.id.IsAccess() && r.path == PathOf(d, e.id)
            && (e.id.Mount? ==> AliasOk(e.id.alias)) && r.unitName.None?
            && (forall b | b in bundle :: b.id != r.id && b.path != r.path)
  {
  }

  lemma FoundInstalled(d: Desired, bundle: seq<Resource>, fs: Tree, e: Entry)
    requires (e.id.IsGuard() || e.id.IsDevelopment()) && ScanInstalled(d, bundle, fs, e).Found?
    ensures var r := ScanInstalled(d, bundle, fs, e).r;
            && r == e.fingerprint && r.id == e.id && r.path == PathOf(d, e.id) && r.path in fs && fs[r.path].File?
            && r.unitName == (if e.id.CliHelper? then None else Some(UnitName(d.iid, e.id)))
            && (forall b | b in bundle :: b.id != r.id)
  {
  }

  /** What a stale scan lists: a resource of its family at that family's path, not covered by
      the bundle, and exactly what the evidence recorded. */
  ghost predicate Obsolete(family: Family, d: Desired, bundle: seq<Resource>, owned: seq<Entry>, r: Resource) {
    && InFamily(family, r.id) && r.path == PathOf(d, r.id) && (r.id.Mount? ==> AliasOk(r.id.alias))
    && r.unitName == (if r.id.IsGuard() || r.id.AgentUnit? then Some(UnitName(d.iid, r.id)) else None)
    && (forall b | b in bundle :: b.id != r.id && b.path != r.path)
    && (exists e | e in owned :: e.id == r.id && e.fingerprint == r)
  }

  lemma NotInBundle(d: Desired, rid: Rid)
    requires ValidDesired(d) && forall b | b in Generate(d) :: b.id != rid
    ensures !Wanted(d, rid)
  {
    ResourceShape(d, rid);
    if Wanted(d, rid) {
      ResourceInBundle(d, rid);
    }
  }

  lemma InstalledApart(d: Desired, rid: Rid)
    requires ValidDesired(d) && (rid.IsGuard() || rid.IsDevelopment()) && forall b | b in Generate(d) :: b.id != rid
    ensures forall b | b in Generate(d) :: b.path != PathOf(d, rid)
  {
    NotInBundle(d, rid);
    hide Generate, PathOf, ResourceOf, Wanted, Ids, ValidDesired;
    forall b | b in Generate(d) ensures b.path != PathOf(d, rid) {
      BundleMember(d, b);
      GeneratedIsPlausible(d, b.id);
      if PathOf(d, b.id) == PathOf(d, rid) {
        PathsApart(d, b.id, d, rid);
      }
    }
  }

  lemma {:induction false} ListedAreObsolete(family: Family, d: Desired, fs: Tree, owned: seq<Entry>)
    requires ValidDesired(d) && StaleResources(family, d, Generate(d), fs, owned).Listed?
    ensures forall r | r in StaleResources(family, d, Generate(d), fs, owned).resources ::
              Obsolete(family, d, Generate(d), owned, r) && (!family.AccessFamily? ==> r.path in fs && fs[r.path].File?)
  {
    if owned != [] {
      var before, e := owned[..|owned| - 1], owned[|owned| - 1];
      ListedAreObsolete(family, d, fs, before);
      hide Ids, ResourceOf, ReconstructAccess;
      var bundle := Generate(d);
      var scan := ScanEntry(family, d, bundle, fs, e);
      if scan.Found? {
        if family.AccessFamily? {
          FoundAccess(d, bundle, e);
        } else {
          FoundInstalled(d, bundle, fs, e);
          InstalledApart(d, e.id);
        }
        assert e in owned;
      }
      forall r | r in StaleResources(family, d, bundle, fs, before).resources
        ensures Obsolete(family, d, bundle, owned, r)
      {
        var x :| x in before && x.id == r.id && x.fingerprint == r;
        assert x in owned;
      }
    }
  }

  /** Which entries the scan found, entry by entry. */
  lemma {:induction false} ListedExactly(family: Family, d: Desired, bundle: seq<Resource>, fs: Tree, owned: seq<Entry>)
    ensures StaleResources(family, d, bundle, fs, owned).Listed?
            <==> forall e | e in owned :: !ScanEntry(family, d, bundle, fs, e).Bad?
    ensures StaleResources(family, d, bundle, fs, owned).Listed? ==>
              forall r :: r in StaleResources(family, d, bundle, fs, owned).resources <==>
                exists e | e in owned :: ScanEntry(family, d, bundle, fs, e) == Found(r)
  {
    if owned != [] {
      var before, e := owned[..|owned| - 1], owned[|owned| - 1];
      ListedExactly(family, d, bundle, fs, before);
      hide ScanEntry;
      assert forall x :: x in owned <==> x in before || x == e;
    }
  }

  lemma {:induction false} AllSkipped(family: Family, d: Desired, bundle: seq<Resource>, fs: Tree, owned: seq<Entry>)
    requires forall e | e in owned :: ScanEntry(family, d, bundle, fs, e).Skip?
    ensures StaleResources(family, d, bundle, fs, owned) == Listed([])
  {
    if owned != [] {
      AllSkipped(family, d, bundle, fs, owned[..|owned| - 1]);
    }
  }

  // ---- round trips ----

  /** An applied access resource is rebuilt exactly, whichever declaration of the instance in
      the same workspace comes later. */
  lemma AccessRebuilt(d: Desired, later: Desired, rid: Rid)
    requires rid.IsAccess() && Wanted(d, rid) && ValidDesired(d) && later.iid == d.iid && later.workspace == d.workspace
    ensures ReconstructAccess(later, EntryOf(ResourceOf(d, rid))) == Some(ResourceOf(d, rid))
  {
    if rid.Mount? {
      var f :| f in d.folders && f == Folder(rid.mode, rid.alias);
    }
  }

  /** An applied guard or development resource is rebuilt exactly while it is in place as
      written; gone, it is passed over; anything else there stops the plan. */
  lemma InstalledRebuilt(d: Desired, later: Desired, bundle: seq<Resource>, fs: Tree, rid: Rid)
    requires (rid.IsGuard() || rid.IsDevelopment()) && ValidDesired(d)
    requires later.iid == d.iid && later.home == d.home && forall r | r in bundle :: r.id != rid
    ensures var scan := ScanInstalled(later, bundle, fs, EntryOf(ResourceOf(d, rid)));
            && (scan.Skip? <==> PathOf(d, rid) !in fs)
            && (scan.Found? <==> Fits(fs, ResourceOf(d, rid)))
            && (scan.Found? ==> scan.r == ResourceOf(d, rid))
  {
    hide ValidDesired, UnitName;
    TokenInOwner(d, rid);
    hide Contains, Body;
  }

  /** Changing only the mode of an alias leaves its directory alone. */
  lemma ModeChangeKeepsMount(d: Desired, later: Desired, rid: Rid, mode: string)
    requires rid.Mount? && Wanted(d, rid) && ValidDesired(d) && ValidDesired(later)
    requires later.iid == d.iid && later.workspace == d.workspace && Wanted(later, Mount(mode, rid.alias))
    ensures ScanAccess(later, Generate(later), EntryOf(ResourceOf(d, rid))).Skip?
  {
    AccessRebuilt(d, later, rid);
    ResourceInBundle(later, Mount(mode, rid.alias));
    assert ResourceOf(later, Mount(mode, rid.alias)).path == ResourceOf(d, rid).path;
  }

  /** What `_write_applied` records as owned. */
  function RecordOf(d: Desired): (es: seq<Entry>)
    ensures |es| == (if d.present then |Generate(d)| else 0)
    ensures forall i | 0 <= i < |es| :: es[i] == EntryOf(Generate(d)[i])
  {
    if d.present then seq(|Generate(d)|, i requires 0 <= i < |Generate(d)| => EntryOf(Generate(d)[i])) else []
  }

  /** With the evidence of the very same declaration nothing is stale. */
  lemma OwnEvidenceIsCurrent(family: Family, d: Desired, fs: Tree)
    requires ValidDesired(d)
    ensures StaleResources(family, d, Generate(d), fs, RecordOf(d)) == Listed([])
  {
    var bundle, owned := Generate(d), RecordOf(d);
    forall e | e in owned ensures ScanEntry(family, d, bundle, fs, e).Skip? {
      var i :| 0 <= i < |bundle| && e == EntryOf(bundle[i]);
      assert bundle[i].id == e.id;
    }
    AllSkipped(family, d, bundle, fs, owned);
  }
}
