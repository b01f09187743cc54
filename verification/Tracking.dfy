/** Every change an apply makes keeps the rollback record complete. */
module Tracking {
  import opened Text
  import opened Host
  import opened Rollback

  /** While an apply still creates and rewrites: nothing on record has been taken away. */
  ghost predicate Growing(fs: Tree, u: Undo) {
    && u.removed == []
    && (forall p | p in u.created :: p in fs)
    && (forall b | b in u.backups :: b.path in fs && FileLike(fs[b.path]))
  }

  lemma FreshIsNew(fs0: Tree, fs: Tree, u: Undo, noisy: set<Path>, scaffold: set<Path>, p: Path)
    requires Tracks(fs0, fs, u, noisy, scaffold) && Growing(fs, u) && p !in fs && p !in noisy
    ensures p !in fs0
  {
    OldestFound(u.backups, p);
  }

  lemma InTreeIsKnown(fs0: Tree, fs: Tree, u: Undo, noisy: set<Path>, scaffold: set<Path>, p: Path)
    requires Tracks(fs0, fs, u, noisy, scaffold) && p in fs
    ensures KnownWay(fs0, u, noisy, scaffold, p)
  {
    forall a | a != [] && (a == p || Below(a, p)) ensures Known(fs0, u, noisy, scaffold, a) {
      if a != p { RootedAbove(fs, a, p); }
    }
  }

  lemma WaysStayKnown(fs0: Tree, u: Undo, v: Undo, noisy: set<Path>, n2: set<Path>, scaffold: set<Path>, s2: set<Path>)
    requires noisy <= n2 && scaffold <= s2 && forall p | p in u.created :: p in v.created
    ensures forall p | KnownWay(fs0, u, noisy, scaffold, p) :: KnownWay(fs0, v, n2, s2, p)
  {
    forall p | KnownWay(fs0, u, noisy, scaffold, p) ensures KnownWay(fs0, v, n2, s2, p) {
      forall a | a != [] && (a == p || Below(a, p)) ensures Known(fs0, v, n2, s2, a) {
        assert Known(fs0, u, noisy, scaffold, a);
      }
    }
  }

  /** A file put where it has its directory, and nothing on record below it. */
  lemma PutKeepsShape(fs: Tree, u: Undo, p: Path, node: Node)
    requires Rooted(fs) && ClearRecord(fs, u) && p != [] && FileLike(node) && !AboveRecord(u, p)
    requires (forall a | a in Ancestors(p) :: a in fs && fs[a].Dir?) && (p in fs ==> !fs[p].Dir?)
    ensures Rooted(fs[p := node]) && ClearRecord(fs[p := node], u)
  {
    assert WithParents(fs, p) == fs;
    PutRooted(fs, p, node);
    forall b | b in u.backups ensures Clear(fs[p := node], b.path) { assert Clear(fs, b.path); }
    forall r | r in u.removed ensures Clear(fs[p := node], r.path) { assert Clear(fs, r.path); }
  }

  lemma FileHasNothingBelow(fs: Tree, u: Undo, p: Path)
    requires Rooted(fs) && ClearRecord(fs, u) && p in fs && !fs[p].Dir? && p != []
    ensures (forall a | a in Ancestors(p) :: a in fs && fs[a].Dir?)
    ensures (forall b | b in u.backups :: !Below(p, b.path)) && (forall r | r in u.removed :: !Below(p, r.path))
  {
    forall a | a in Ancestors(p) ensures a in fs && fs[a].Dir? { RootedAbove(fs, a, p); }
    forall b | b in u.backups ensures !Below(p, b.path) { assert Clear(fs, b.path); }
    forall r | r in u.removed ensures !Below(p, r.path) { assert Clear(fs, r.path); }
  }

  lemma StartTracks(fs0: Tree)
    requires Rooted(fs0)
    ensures Tracks(fs0, fs0, NOTHING, {}, {}) && Growing(fs0, NOTHING)
  {
  }

  /** Parents made on the way are remembered as scaffold. */
  lemma TrackParents(fs0: Tree, fs: Tree, u: Undo, noisy: set<Path>, scaffold: set<Path>, p: Path)
    returns (made: set<Path>)
    requires Tracks(fs0, fs, u, noisy, scaffold) && Growing(fs, u) && ParentsAreDirs(fs, p)
    requires forall a | a in Ancestors(p) :: a !in noisy
    ensures made == WithParents(fs, p).Keys - fs.Keys
    ensures Tracks(fs0, WithParents(fs, p), u, noisy, scaffold + made) && Growing(WithParents(fs, p), u)
  {
    var next := WithParents(fs, p);
    made := next.Keys - fs.Keys;
    assert Rooted(next) by {
      forall q, i | q in next && 0 < i < |q| ensures q[..i] in next && next[q[..i]].Dir? {
        if q !in fs {
          assert Below(q, p);
          assert q[..i] == p[..i];
          assert Below(q[..i], p);
        }
      }
    }
    WaysStayKnown(fs0, u, u, noisy, noisy, scaffold, scaffold + made);
    forall a | a in made ensures a !in fs0 { FreshIsNew(fs0, fs, u, noisy, scaffold, a); }
    forall b | b in u.backups ensures Clear(next, b.path) && (b.path in next ==> !next[b.path].Dir?) {}
    assert forall q | q in next && q !in fs0 :: Known(fs0, u, noisy, scaffold + made, q);
  }

  /** A new path goes on record before it is written, or as it is. */
  lemma TrackDeclared(fs0: Tree, fs: Tree, u: Undo, noisy: set<Path>, scaffold: set<Path>, p: Path)
    requires Tracks(fs0, fs, u, noisy, scaffold) && Growing(fs, u) && p !in fs && p !in noisy && p != []
    ensures Tracks(fs0, fs, RecordCreated(u, p), noisy, scaffold)
  {
    FreshIsNew(fs0, fs, u, noisy, scaffold, p);
    var v := RecordCreated(u, p);
    WaysStayKnown(fs0, u, v, noisy, noisy, scaffold, scaffold);
    forall i, j | 0 <= i < j < |v.created| ensures v.created[i] != v.created[j] && !Below(v.created[j], v.created[i]) {
      if j == |u.created| {
        var c := u.created[i];
        assert c in u.created;
        if Below(p, c) { RootedAbove(fs, p, c); }
      }
    }
  }

  /** A declared path is filled in. */
  lemma TrackFilled(fs0: Tree, fs: Tree, u: Undo, noisy: set<Path>, scaffold: set<Path>, p: Path, node: Node)
    requires Tracks(fs0, fs, u, noisy, scaffold) && p !in fs && p in u.created
    requires forall a | a in Ancestors(p) :: a in fs && fs[a].Dir?
    requires u.removed == [] && (forall b | b in u.backups :: b.path in fs)
    ensures Tracks(fs0, fs[p := node], u, noisy, scaffold)
  {
    assert WithParents(fs, p) == fs;
    PutRooted(fs, p, node);
    var next := fs[p := node];
    forall b | b in u.backups ensures Clear(next, b.path) {
      if Below(p, b.path) { RootedAbove(fs, p, b.path); }
      assert Clear(fs, b.path);
    }
  }

  /** A file is backed up. */
  lemma TrackSaved(fs0: Tree, fs: Tree, u: Undo, noisy: set<Path>, scaffold: set<Path>, p: Path)
    requires Tracks(fs0, fs, u, noisy, scaffold) && p in fs && FileLike(fs[p]) && p != []
    ensures var v := RecordBackup(fs, u, p);
            Tracks(fs0, fs, v, noisy, scaffold) && Oldest(v.backups, p).Some? && (Growing(fs, u) ==> Growing(fs, v))
  {
    var v := RecordBackup(fs, u, p);
    InTreeIsKnown(fs0, fs, u, noisy, scaffold, p);
    WaysStayKnown(fs0, u, v, noisy, noisy, scaffold, scaffold);
    assert forall b :: b in v.backups <==> b in u.backups || b == Backup(p, fs[p]);
    forall q { OldestAppend(u.backups, Backup(p, fs[p]), q); }
    FileHasNothingBelow(fs, u, p);
    forall b | b in u.backups ensures !Below(b.path, p) {
      if Below(b.path, p) { RootedAbove(fs, b.path, p); }
    }
    assert Clear(fs, p);
  }

  /** A backed-up file is rewritten. */
  lemma TrackRewritten(fs0: Tree, fs: Tree, u: Undo, noisy: set<Path>, scaffold: set<Path>, p: Path, node: Node)
    requires Tracks(fs0, fs, u, noisy, scaffold) && p in fs && FileLike(fs[p]) && FileLike(node) && p != []
    requires Oldest(u.backups, p).Some?
    ensures Tracks(fs0, fs[p := node], u, noisy, scaffold) && (Growing(fs, u) ==> Growing(fs[p := node], u))
  {
    FileHasNothingBelow(fs, u, p);
    assert !AboveRecord(u, p) by {
      assert Backup(p, Oldest(u.backups, p).value) in u.backups by { OldestFound(u.backups, p); }
    }
    PutKeepsShape(fs, u, p, node);
  }

  /** A backed-up file is removed. */
  lemma TrackDeleted(fs0: Tree, fs: Tree, u: Undo, noisy: set<Path>, scaffold: set<Path>, p: Path)
    requires Tracks(fs0, fs, u, noisy, scaffold) && p in fs && FileLike(fs[p]) && Oldest(u.backups, p).Some?
    ensures Tracks(fs0, fs - {p}, u, noisy, scaffold)
  {
    DropRooted(fs, p);
    forall b | b in u.backups ensures Clear(fs - {p}, b.path) { assert Clear(fs, b.path); }
    forall r | r in u.removed ensures Clear(fs - {p}, r.path) { assert Clear(fs, r.path); }
  }

  /** Changing a directory's mode is not recorded, and not undone. */
  lemma TrackMode(fs0: Tree, fs: Tree, u: Undo, noisy: set<Path>, scaffold: set<Path>, p: Path, mode: nat)
    requires Tracks(fs0, fs, u, noisy, scaffold) && p in fs && fs[p].Dir?
    ensures Tracks(fs0, fs[p := Dir(mode)], u, noisy, scaffold)
    ensures Growing(fs, u) ==> Growing(fs[p := Dir(mode)], u)
  {
    var next := fs[p := Dir(mode)];
    forall q, i | q in next && 0 < i < |q| ensures q[..i] in next && next[q[..i]].Dir? {}
  }

  /** An empty directory is removed and recorded. */
  lemma TrackDirRemoved(fs0: Tree, fs: Tree, u: Undo, noisy: set<Path>, scaffold: set<Path>, p: Path, mode: nat)
    requires Tracks(fs0, fs, u, noisy, scaffold) && p in fs && fs[p].Dir? && Empty(fs, p) && p != []
    ensures Tracks(fs0, fs - {p}, RecordRemoved(u, p, mode), noisy, scaffold)
  {
    var v, next := RecordRemoved(u, p, mode), fs - {p};
    InTreeIsKnown(fs0, fs, u, noisy, scaffold, p);
    WaysStayKnown(fs0, u, v, noisy, noisy, scaffold, scaffold);
    assert forall r :: r in v.removed <==> r in u.removed || r == Removed(p, mode);
    assert Recorded(v.removed, p) by { assert Removed(p, mode) in v.removed; }
    forall b | b in u.backups ensures b.path != p && !Below(b.path, p) {
      if Below(b.path, p) { RootedAbove(fs, b.path, p); }
    }
    assert Clear(fs, p);
    DropRooted(fs, p);
  }

  /** A running unit writes one of its logs. */
  lemma TrackLogged(fs0: Tree, fs: Tree, u: Undo, noisy: set<Path>, scaffold: set<Path>, p: Path, node: Node)
    requires Tracks(fs0, fs, u, noisy, scaffold) && FileLike(node) && p != []
    requires forall a | a in Ancestors(p) :: a in fs && fs[a].Dir?
    requires !AboveRecord(u, p) && (if p in fs then FileLike(fs[p]) else p in fs0 ==> !fs0[p].Dir?)
    ensures Tracks(fs0, fs[p := node], u, noisy + {p}, scaffold)
    ensures Growing(fs, u) ==> Growing(fs[p := node], u)
  {
    if p in fs { FileHasNothingBelow(fs, u, p); }
    PutKeepsShape(fs, u, p, node);
    WaysStayKnown(fs0, u, u, noisy, noisy + {p}, scaffold, scaffold);
  }

  lemma ScaffoldGrows(fs0: Tree, fs: Tree, u: Undo, noisy: set<Path>, scaffold: set<Path>, more: set<Path>)
    requires Tracks(fs0, fs, u, noisy, scaffold)
    ensures Tracks(fs0, fs, u, noisy, scaffold + more)
  {
    WaysStayKnown(fs0, u, u, noisy, noisy, scaffold, scaffold + more);
  }

  lemma TrackState(fs0: Tree, fs: Tree, u: Undo, noisy: set<Path>, scaffold: set<Path>, p: Path, state: bool)
    requires Tracks(fs0, fs, u, noisy, scaffold) && p in u.created && (state ==> Name(p) != OWNER_FILE)
    ensures Tracks(fs0, fs, RecordState(u, p, state), noisy, scaffold)
  {
    var v := RecordState(u, p, state);
    assert v.stateDirs == if state then u.stateDirs + [p] else u.stateDirs;
    WaysStayKnown(fs0, u, v, noisy, noisy, scaffold, scaffold);
  }

  /** The stages of making a new node: parents, declared, in place. */
  lemma TrackMade(fs0: Tree, fs: Tree, u: Undo, noisy: set<Path>, scaffold: set<Path>, p: Path, node: Node)
    returns (made: set<Path>)
    requires Tracks(fs0, fs, u, noisy, scaffold) && Growing(fs, u) && p !in fs && p !in noisy && p != []
    requires ParentsAreDirs(fs, p) && forall a | a in Ancestors(p) :: a !in noisy
    ensures made == WithParents(fs, p).Keys - fs.Keys
    ensures var v, way := RecordCreated(u, p), WithParents(fs, p);
            && Tracks(fs0, fs, u, noisy, scaffold + made) && Tracks(fs0, way, u, noisy, scaffold + made)
            && Tracks(fs0, fs, v, noisy, scaffold + made) && Tracks(fs0, way, v, noisy, scaffold + made)
            && Tracks(fs0, way[p := node], v, noisy, scaffold + made) && Growing(way[p := node], v)
  {
    made := TrackParents(fs0, fs, u, noisy, scaffold, p);
    ScaffoldGrows(fs0, fs, u, noisy, scaffold, made);
    TrackDeclared(fs0, fs, u, noisy, scaffold + made, p);
    var way := WithParents(fs, p);
    assert p !in way;
    TrackDeclared(fs0, way, u, noisy, scaffold + made, p);
    forall a | a in Ancestors(p) ensures a in way && way[a].Dir? {}
    TrackFilled(fs0, way, RecordCreated(u, p), noisy, scaffold + made, p, node);
  }

  lemma ParentsThere(fs0: Tree, fs: Tree, u: Undo, noisy: set<Path>, scaffold: set<Path>, p: Path)
    requires Tracks(fs0, fs, u, noisy, scaffold) && p in fs
    ensures ParentsAreDirs(fs, p) && WithParents(fs, p) == fs
  {
    forall a | a in Ancestors(p) ensures a in fs && fs[a].Dir? { RootedAbove(fs, a, p); }
  }
}
