/** Whatever run of adoptions, changes and releases the plan admits, a released repository
    has the configuration it started with. */
module GitReversal {
  import opened Text
  import opened Generation
  import opened GitHubUrl
  import opened GitOwnership

  predicate IdentityKey(k: Key) {
    k.UserName? || k.UserEmail? || k.IdOwner? || k.IdVersion? || k.IdOrigin? || k.IdName? || k.IdEmail?
  }

  predicate TransportKey(k: Key) {
    k.RemoteUrl? || k.HttpsHelper? || k.SshCommand? || k.RmOwner? || k.RmVersion? || k.RmName? || k.RmUrl?
  }

  predicate ManagerKey(k: Key) {
    k.IdOwner? || k.IdVersion? || k.IdOrigin? || k.IdName? || k.IdEmail? || k.RmOwner? || k.RmVersion? || k.RmName?
      || k.RmUrl?
  }

  /** The two configurations agree on a key. */
  ghost predicate Same(a: Config, b: Config, k: Key) {
    (k in a <==> k in b) && (k in a ==> a[k] == b[k])
  }

  /** One value, as `git config --get` reads it. */
  ghost predicate Single(c: Config, k: Key) {
    k in c ==> |c[k]| == 1 && (c[k][0] == "" || Line(c[k][0]))
  }

  /** A configuration the manager has not touched: none of its keys, one value a setting. */
  ghost predicate Pristine(c: Config) {
    && (forall k | ManagerKey(k) :: k !in c)
    && (forall k | k == UserName || k == UserEmail || k.RemoteUrl? :: Single(c, k))
  }

  /** The transport settings are not present with an empty value only. */
  ghost predicate NoBlank(c: Config) {
    (HttpsHelper in c ==> GetAll(c, HttpsHelper) != "") && (SshCommand in c ==> GetAll(c, SshCommand) != "")
  }

  /** The manager wrote this key. */
  ghost predicate Holds(c: Config, k: Key, v: string) {
    k in c && c[k] == [v] && Line(v)
  }

  lemma HoldsReads(c: Config, k: Key, v: string)
    requires Holds(c, k, v)
    ensures Get(c, k) == Some(v) && GetAll(c, k) == v && Unset(c, k) == c - {k}
  {
    ChompLine(v);
  }

  lemma SingleReads(c: Config, k: Key)
    requires Single(c, k)
    ensures k in c ==> Get(c, k) == Some(c[k][0])
    ensures k !in c ==> Get(c, k) == None
  {
    if k in c && c[k][0] != "" { ChompLine(c[k][0]); }
    if k in c && c[k][0] == "" { assert Chomp("" + "\n") == ""; }
  }

  function Original(c: Config, k: Key): string {
    if k in c && c[k] != [] then c[k][0] else ""
  }

  ghost predicate IdentityFree(c0: Config, c: Config) {
    && (forall k | IdentityKey(k) && ManagerKey(k) :: k !in c)
    && Same(c0, c, UserName) && Same(c0, c, UserEmail)
  }

  ghost predicate IdentityOwned(c0: Config, c: Config, owner: string, name: string, email: string) {
    && Holds(c, IdOwner, owner) && Holds(c, IdVersion, VERSION)
    && Holds(c, UserName, name) && Holds(c, UserEmail, email)
    && (if IdName in c then
          && UserName in c0 && UserEmail in c0 && Holds(c, IdOrigin, "adopted")
          && Holds(c, IdName, Original(c0, UserName)) && c0[UserName] == c[IdName]
          && IdEmail in c && Holds(c, IdEmail, Original(c0, UserEmail)) && c0[UserEmail] == c[IdEmail]
        else
          UserName !in c0 && UserEmail !in c0 && IdEmail !in c && Holds(c, IdOrigin, "created"))
  }

  ghost predicate IdentityKept(c0: Config, c: Config) {
    if IdOwner in c then exists o, n, e :: IdentityOwned(c0, c, o, n, e) else IdentityFree(c0, c)
  }

  lemma OriginReads(c: Config)
    ensures Holds(c, IdOrigin, "adopted") ==> Get(c, IdOrigin) == Some("adopted")
    ensures Holds(c, IdOrigin, "created") ==> Get(c, IdOrigin) == Some("created")
  {
    if Holds(c, IdOrigin, "adopted") { HoldsReads(c, IdOrigin, "adopted"); }
    if Holds(c, IdOrigin, "created") { HoldsReads(c, IdOrigin, "created"); }
  }

  lemma OwnedReads(c0: Config, c: Config, o: string, n: string, e: string)
    requires IdentityOwned(c0, c, o, n, e)
    ensures Get(c, IdOwner) == Some(o) && Get(c, IdVersion) == Some(VERSION)
    ensures Get(c, UserName) == Some(n) && Get(c, UserEmail) == Some(e) && OriginKnown(c)
    ensures Get(c, IdOrigin) == Some("adopted") <==> IdName in c
    ensures IdName in c ==>
              Get(c, IdName) == Some(Original(c0, UserName)) && Get(c, IdEmail) == Some(Original(c0, UserEmail))
  {
    HoldsReads(c, IdOwner, o);
    HoldsReads(c, IdVersion, VERSION);
    HoldsReads(c, UserName, n);
    HoldsReads(c, UserEmail, e);
    OriginReads(c);
    if IdName in c {
      HoldsReads(c, IdName, Original(c0, UserName));
      HoldsReads(c, IdEmail, Original(c0, UserEmail));
    }
  }

  lemma FreeReads(c0: Config, c: Config)
    requires Pristine(c0) && IdentityFree(c0, c)
    ensures Get(c, IdOwner).None? && Get(c, IdVersion).None?
    ensures Get(c, UserName).Some? ==> UserName in c0 && c0[UserName] == [Get(c, UserName).value]
    ensures Get(c, UserEmail).Some? ==> UserEmail in c0 && c0[UserEmail] == [Get(c, UserEmail).value]
    ensures Get(c, UserName).None? ==> UserName !in c0
    ensures Get(c, UserEmail).None? ==> UserEmail !in c0
  {
    assert Single(c0, UserName) && Single(c0, UserEmail);
    SingleReads(c, UserName);
    SingleReads(c, UserEmail);
  }

  /** Nothing under this key, or something `_unset` can see. */
  ghost predicate Removable(c: Config, k: Key) {
    k !in c || GetAll(c, k) != ""
  }

  lemma UnsetRemovable(c: Config, k: Key)
    requires Removable(c, k)
    ensures Unset(c, k) == c - {k}
  {
    if k !in c { assert c - {k} == c; }
  }

  lemma ReleaseIdentityRemoves(c: Config)
    requires forall k | IdentityKey(k) && ManagerKey(k) :: Removable(c, k)
    ensures ReleaseIdentity(c) == c - {IdOwner, IdVersion, IdOrigin, IdName, IdEmail}
  {
    assert Removable(c, IdOwner) && Removable(c, IdVersion) && Removable(c, IdOrigin) && Removable(c, IdName)
      && Removable(c, IdEmail);
    var c1 := Unset(c, IdOwner); UnsetRemovable(c, IdOwner);
    var c2 := Unset(c1, IdVersion); UnsetRemovable(c1, IdVersion);
    var c3 := Unset(c2, IdOrigin); UnsetRemovable(c2, IdOrigin);
    var c4 := Unset(c3, IdName); UnsetRemovable(c3, IdName);
    UnsetRemovable(c4, IdEmail);
    assert c4 - {IdEmail} == c - {IdOwner, IdVersion, IdOrigin, IdName, IdEmail};
  }

  /** Only identity settings differ. */
  ghost predicate OnlyIdentity(a: Config, b: Config) {
    forall k | !IdentityKey(k) :: Same(a, b, k)
  }

  lemma OwnedRemovable(c0: Config, c: Config, o: string, n: string, e: string)
    requires IdentityOwned(c0, c, o, n, e)
    ensures forall k | IdentityKey(k) && ManagerKey(k) :: Removable(c, k)
  {
    OwnedReads(c0, c, o, n, e);
    HoldsReads(c, IdOwner, o);
    HoldsReads(c, IdVersion, VERSION);
    if IdName in c {
      HoldsReads(c, IdOrigin, "adopted");
      HoldsReads(c, IdName, Original(c0, UserName));
      HoldsReads(c, IdEmail, Original(c0, UserEmail));
    } else {
      HoldsReads(c, IdOrigin, "created");
    }
  }

  lemma ReleaseFrees(c0: Config, c: Config, back: Config)
    requires forall k | IdentityKey(k) && ManagerKey(k) :: Removable(c, k)
    requires forall k | k != UserName && k != UserEmail :: Same(c, back, k)
    requires Same(c0, back, UserName) && Same(c0, back, UserEmail)
    ensures IdentityFree(c0, ReleaseIdentity(back)) && OnlyIdentity(c, ReleaseIdentity(back))
  {
    forall k | IdentityKey(k) && ManagerKey(k) ensures Removable(back, k) {
      assert Removable(c, k) && Same(c, back, k);
    }
    ReleaseIdentityRemoves(back);
    var r := ReleaseIdentity(back);
    forall k | !IdentityKey(k) ensures Same(c, r, k) {
      assert Same(c, back, k);
    }
  }

  lemma ReleasesIdentity(repo: Repository, c0: Config, c: Config, d: Desired)
    requires Pristine(c0) && IdentityKept(c0, c) && WantedIdentity(d).None?
    requires Get(c, IdOwner) == Some(d.iid)
    ensures var r := ConvergedIdentity(c, d);
            r.Done? && IdentityFree(c0, r.config) && OnlyIdentity(c, r.config)
  {
    hide IdentityFree, OnlyIdentity, ReleaseIdentity, Removable;
    assert IdOwner in c;
    var o, n, e :| IdentityOwned(c0, c, o, n, e);
    OwnedReads(c0, c, o, n, e);
    OwnedRemovable(c0, c, o, n, e);
    if IdName in c {
      ReleaseFrees(c0, c, Set(Set(c, UserName, Original(c0, UserName)), UserEmail, Original(c0, UserEmail)));
    } else {
      HoldsReads(c, UserName, n);
      var c1 := c - {UserName};
      HoldsReads(c1, UserEmail, e);
      OriginReads(c);
      ReleaseFrees(c0, c, c1 - {UserEmail});
    }
  }

  lemma AbsentIsFree(repo: Repository, c0: Config, c: Config, d: Desired)
    requires IdentityKept(c0, c) && repo.present && d.configVersion >= 2
    requires WantedIdentity(d).Some? && ObserveIdentity(repo, c, d) == Absent
    ensures IdentityFree(c0, c)
    ensures var w := WantedIdentity(d).value;
            || (Get(c, UserName).None? && Get(c, UserEmail).None?)
            || (Get(c, UserName) == Some(w.name) && Get(c, UserEmail) == Some(w.email))
  {
    hide IdentityOwned, IdentityFree, Get, OriginKnown;
    if IdOwner in c {
      var o, n, e :| IdentityOwned(c0, c, o, n, e);
      OwnedReads(c0, c, o, n, e);
    }
  }

  lemma OwnsCreated(c0: Config, c: Config, d: Desired, w: Identity)
    requires IdentityFree(c0, c) && UserName !in c0 && UserEmail !in c0 && ValidGit(d) && WantedIdentity(d) == Some(w)
    ensures var r := Set(Set(AdoptIdentity(c, d, "created"), UserName, w.name), UserEmail, w.email);
            IdentityOwned(c0, r, d.iid, w.name, w.email) && OnlyIdentity(c, r)
  {
    assert Line(VERSION);
  }

  lemma OwnsAdopted(c0: Config, c: Config, d: Desired, w: Identity)
    requires IdentityFree(c0, c) && ValidGit(d) && WantedIdentity(d) == Some(w)
    requires UserName in c0 && c0[UserName] == [w.name] && UserEmail in c0 && c0[UserEmail] == [w.email]
    ensures var r := Set(Set(AdoptIdentity(Set(Set(c, IdName, w.name), IdEmail, w.email), d, "adopted"),
                             UserName, w.name), UserEmail, w.email);
            IdentityOwned(c0, r, d.iid, w.name, w.email) && OnlyIdentity(c, r)
  {
    assert Line(VERSION);
  }

  lemma AdoptsIdentity(repo: Repository, c0: Config, c: Config, d: Desired)
    requires Pristine(c0) && IdentityKept(c0, c) && ValidGit(d) && repo.present && d.configVersion >= 2
    requires WantedIdentity(d).Some? && ObserveIdentity(repo, c, d) == Absent
    ensures var r := ConvergedIdentity(c, d); var w := WantedIdentity(d).value;
            r.Done? && IdentityOwned(c0, r.config, d.iid, w.name, w.email) && OnlyIdentity(c, r.config)
  {
    hide IdentityKept, IdentityFree, IdentityOwned, OnlyIdentity, ObserveIdentity, Pristine, Get, Set, AdoptIdentity;
    AbsentIsFree(repo, c0, c, d);
    FreeReads(c0, c);
    var w := WantedIdentity(d).value;
    if Get(c, UserName).None? && Get(c, UserEmail).None? {
      OwnsCreated(c0, c, d, w);
    } else {
      OwnsAdopted(c0, c, d, w);
    }
  }

  lemma ChangesIdentity(repo: Repository, c0: Config, c: Config, d: Desired)
    requires Pristine(c0) && IdentityKept(c0, c) && ValidGit(d)
    requires WantedIdentity(d).Some? && Get(c, IdOwner) == Some(d.iid)
    ensures var r := ConvergedIdentity(c, d); var w := WantedIdentity(d).value;
            r.Done? && IdentityOwned(c0, r.config, d.iid, w.name, w.email) && OnlyIdentity(c, r.config)
  {
    assert IdOwner in c;
    var o, n, e :| IdentityOwned(c0, c, o, n, e);
    OwnedReads(c0, c, o, n, e);
  }

  /** A planned identity change never raises, keeps what a release needs, touches nothing
      else, and leaves the identity as declared. */
  lemma IdentityStep(repo: Repository, c0: Config, c: Config, d: Desired)
    requires repo.present && Pristine(c0) && IdentityKept(c0, c) && ValidGit(d)
    requires Gated(ObserveIdentity(repo, c, d)) && ObserveIdentity(repo, c, d) != Exact
    ensures var r := ConvergedIdentity(c, d);
            r.Done? && IdentityKept(c0, r.config) && OnlyIdentity(c, r.config)
            && ObserveIdentity(repo, r.config, d) == Exact
  {
    var r := ConvergedIdentity(c, d);
    if WantedIdentity(d).None? {
      ReleasesIdentity(repo, c0, c, d);
      FreeReads(c0, r.config);
    } else {
      var w := WantedIdentity(d).value;
      if ObserveIdentity(repo, c, d) == Absent {
        AdoptsIdentity(repo, c0, c, d);
      } else {
        ChangesIdentity(repo, c0, c, d);
      }
      OwnedReads(c0, r.config, d.iid, w.name, w.email);
    }
  }

  // ---- transport ----

  ghost predicate TransportFree(c0: Config, c: Config) {
    && RmOwner !in c && RmVersion !in c && RmName !in c && RmUrl !in c
    && (forall m :: Same(c0, c, RemoteUrl(m)))
    && Same(c0, c, HttpsHelper) && Same(c0, c, SshCommand)
  }

  ghost predicate TransportOwned(c0: Config, c: Config, owner: string, remote: string) {
    && Holds(c, RmOwner, owner) && Holds(c, RmVersion, VERSION) && Holds(c, RmName, remote)
    && RemoteUrl(remote) in c0 && Holds(c, RmUrl, Original(c0, RemoteUrl(remote))) && c[RmUrl] == c0[RemoteUrl(remote)]
    && RemoteUrl(remote) in c
    && (forall m | m != remote :: Same(c0, c, RemoteUrl(m)))
    && HttpsHelper !in c0 && SshCommand !in c0
    && Removable(c, HttpsHelper) && Removable(c, SshCommand)
  }

  ghost predicate TransportKept(c0: Config, c: Config) {
    if RmOwner in c then exists o, n :: TransportOwned(c0, c, o, n) else TransportFree(c0, c)
  }

  ghost predicate OnlyTransport(a: Config, b: Config) {
    forall k | !TransportKey(k) :: Same(a, b, k)
  }

  lemma TransportReads(c0: Config, c: Config, o: string, n: string)
    requires TransportOwned(c0, c, o, n)
    ensures Get(c, RmOwner) == Some(o) && Get(c, RmVersion) == Some(VERSION)
    ensures Get(c, RmName) == Some(n) && Get(c, RmUrl) == Some(Original(c0, RemoteUrl(n)))
    ensures Removable(c, RmOwner) && Removable(c, RmVersion) && Removable(c, RmName) && Removable(c, RmUrl)
  {
    HoldsReads(c, RmOwner, o);
    HoldsReads(c, RmVersion, VERSION);
    HoldsReads(c, RmName, n);
    HoldsReads(c, RmUrl, Original(c0, RemoteUrl(n)));
  }

  lemma WrittenAreLines(d: Desired, repo: string, protocol: Protocol)
    ensures Line(HelperText(d)) && Line(SshText(d)) && Line(Canonical(repo, protocol))
  {
    var h, c := HelperText(d), Canonical(repo, protocol);
    assert h[|h| - 1] == 'b' && c[|c| - 1] == 't';
  }

  lemma ReleaseTransportRemoves(c: Config)
    requires Removable(c, RmOwner) && Removable(c, RmVersion) && Removable(c, RmName) && Removable(c, RmUrl)
    ensures ReleaseTransport(c) == c - {RmOwner, RmVersion, RmName, RmUrl}
  {
    var c1 := Unset(c, RmOwner); UnsetRemovable(c, RmOwner);
    var c2 := Unset(c1, RmVersion); UnsetRemovable(c1, RmVersion);
    var c3 := Unset(c2, RmName); UnsetRemovable(c2, RmName);
    UnsetRemovable(c3, RmUrl);
    assert c3 - {RmUrl} == c - {RmOwner, RmVersion, RmName, RmUrl};
  }

  lemma RestoredFrees(c0: Config, c: Config, o: string, n: string, back: Config)
    requires TransportOwned(c0, c, o, n)
    requires back == Set(c, RemoteUrl(n), Original(c0, RemoteUrl(n))) - {HttpsHelper} - {SshCommand}
    ensures var r := ReleaseTransport(back); TransportFree(c0, r) && OnlyTransport(c, r)
  {
    hide Chomp, Printed;
    TransportReads(c0, c, o, n);
    assert GetAll(back, RmOwner) == GetAll(c, RmOwner) && GetAll(back, RmVersion) == GetAll(c, RmVersion);
    assert GetAll(back, RmName) == GetAll(c, RmName) && GetAll(back, RmUrl) == GetAll(c, RmUrl);
    ReleaseTransportRemoves(back);
    var r := back - {RmOwner, RmVersion, RmName, RmUrl};
    forall m ensures Same(c0, r, RemoteUrl(m)) {
      if m != n { assert Same(c0, c, RemoteUrl(m)); }
    }
  }

  lemma ReleasesTransport(repo: Repository, c0: Config, c: Config, d: Desired)
    requires TransportKept(c0, c) && WantedRemote(d).None?
    requires Get(c, RmOwner) == Some(d.iid)
    ensures var r := ConvergedTransport(repo, c, d);
            r.Done? && TransportFree(c0, r.config) && OnlyTransport(c, r.config)
  {
    assert RmOwner in c;
    var o, n :| TransportOwned(c0, c, o, n);
    TransportReads(c0, c, o, n);
    var restored := Set(c, RemoteUrl(n), Original(c0, RemoteUrl(n)));
    assert Removable(restored, HttpsHelper) && Removable(restored, SshCommand);
    UnsetRemovable(restored, HttpsHelper);
    assert GetAll(restored - {HttpsHelper}, SshCommand) == GetAll(restored, SshCommand);
    UnsetRemovable(restored - {HttpsHelper}, SshCommand);
    RestoredFrees(c0, c, o, n, restored - {HttpsHelper} - {SshCommand});
  }

  lemma AppliesProtocol(c: Config, d: Desired, protocol: Protocol)
    requires Removable(c, HttpsHelper) && Removable(c, SshCommand)
    ensures var r := ApplyProtocol(c, d, protocol);
            && TransportExact(r, d, protocol) && Removable(r, HttpsHelper) && Removable(r, SshCommand)
            && forall k | k != HttpsHelper && k != SshCommand :: Same(c, r, k)
  {
    WrittenAreLines(d, "", protocol);
    if protocol.HttpsGh? {
      var s := Set(c, HttpsHelper, HelperText(d));
      SetGet(c, HttpsHelper, HelperText(d));
      assert Removable(s, SshCommand);
      UnsetRemovable(s, SshCommand);
      assert GetAll(s - {SshCommand}, HttpsHelper) == GetAll(s, HttpsHelper);
    } else {
      UnsetRemovable(c, HttpsHelper);
      SetGet(c - {HttpsHelper}, SshCommand, SshText(d));
    }
  }

  lemma FreeTransportReads(c0: Config, c: Config, name: string)
    requires Pristine(c0) && TransportFree(c0, c)
    ensures Get(c, RmOwner).None? && Get(c, RmVersion).None?
    ensures Get(c, RemoteUrl(name)).Some? ==>
              RemoteUrl(name) in c0 && c0[RemoteUrl(name)] == [Get(c, RemoteUrl(name)).value]
              && (Get(c, RemoteUrl(name)).value != "" ==> Line(Get(c, RemoteUrl(name)).value))
  {
    assert Single(c0, RemoteUrl(name)) && Same(c0, c, RemoteUrl(name));
    SingleReads(c, RemoteUrl(name));
  }

  /** What taking the transport over establishes. */
  ghost predicate Taken(c0: Config, c: Config, d: Desired, w: Remote, r: Converged) {
    && r.Done? && TransportOwned(c0, r.config, d.iid, w.name) && OnlyTransport(c, r.config)
    && TransportExact(r.config, d, w.protocol)
    && Get(c, RemoteUrl(w.name)).Some? && RepoPath(Get(c, RemoteUrl(w.name)).value).Some?
    && Get(r.config, RemoteUrl(w.name)) == Some(Canonical(RepoPath(Get(c, RemoteUrl(w.name)).value).value, w.protocol))
  }

  lemma ChangesTransport(repo: Repository, c0: Config, c: Config, d: Desired)
    requires TransportKept(c0, c) && RmOwner in c && repo.present && d.configVersion >= 2
    requires WantedRemote(d).Some? && ObserveTransport(repo, c, d) == Different
    ensures Taken(c0, c, d, WantedRemote(d).value, ConvergedTransport(repo, c, d))
  {
    var w := WantedRemote(d).value;
    var canonical := Canonical(RepoPath(Get(c, RemoteUrl(w.name)).value).value, w.protocol);
    WrittenAreLines(d, RepoPath(Get(c, RemoteUrl(w.name)).value).value, w.protocol);
    var o, n :| TransportOwned(c0, c, o, n);
    TransportReads(c0, c, o, n);
    var set1 := Set(c, RemoteUrl(n), canonical);
    assert Removable(set1, HttpsHelper) && Removable(set1, SshCommand);
    AppliesProtocol(set1, d, w.protocol);
    TakenOwned(c0, c, set1, ApplyProtocol(set1, d, w.protocol), d.iid, n, canonical);
  }

  lemma EmptyNamesNothing()
    ensures RepoPath("").None?
  {
  }

  lemma AdoptsTransport(repo: Repository, c0: Config, c: Config, d: Desired)
    requires Pristine(c0) && NoBlank(c0) && TransportFree(c0, c) && ValidGit(d) && repo.present && d.configVersion >= 2
    requires WantedRemote(d).Some? && ObserveTransport(repo, c, d) == Absent
    ensures Taken(c0, c, d, WantedRemote(d).value, ConvergedTransport(repo, c, d))
  {
    hide RepoPath, RemoteProtocol, Canonical, HelperText, SshText, TransportExact;
    var w := WantedRemote(d).value;
    var url := Get(c, RemoteUrl(w.name)).value;
    var canonical := Canonical(RepoPath(url).value, w.protocol);
    WrittenAreLines(d, RepoPath(url).value, w.protocol);
    FreeTransportReads(c0, c, w.name);
    EmptyNamesNothing();
    var adopted := AdoptTransport(c, d, url, w.name);
    var set1 := Set(adopted, RemoteUrl(w.name), canonical);
    assert Same(c0, c, HttpsHelper) && Same(c0, c, SshCommand);
    assert Removable(set1, HttpsHelper) && Removable(set1, SshCommand);
    AppliesProtocol(set1, d, w.protocol);
    AdoptedOwned(c0, c, d, url, w.name);
    TakenOwned(c0, adopted, set1, ApplyProtocol(set1, d, w.protocol), d.iid, w.name, canonical);
    OnlyTransportChains(c, adopted, ApplyProtocol(set1, d, w.protocol));
  }

  lemma OnlyTransportChains(a: Config, b: Config, c: Config)
    requires OnlyTransport(a, b) && OnlyTransport(b, c)
    ensures OnlyTransport(a, c)
  {
    forall k | !TransportKey(k) ensures Same(a, c, k) { assert Same(a, b, k) && Same(b, c, k); }
  }

  lemma AdoptedOwned(c0: Config, c: Config, d: Desired, url: string, name: string)
    requires TransportFree(c0, c) && Line(d.iid) && Line(name) && Line(url)
    requires RemoteUrl(name) in c0 && c0[RemoteUrl(name)] == [url]
    requires HttpsHelper !in c0 && SshCommand !in c0
    ensures TransportOwned(c0, AdoptTransport(c, d, url, name), d.iid, name)
    ensures OnlyTransport(c, AdoptTransport(c, d, url, name))
  {
    var r := AdoptTransport(c, d, url, name);
    assert Same(c0, c, RemoteUrl(name)) && Same(c0, c, HttpsHelper) && Same(c0, c, SshCommand);
    assert Line(VERSION);
    forall m ensures Same(c0, r, RemoteUrl(m)) { assert Same(c0, c, RemoteUrl(m)); }
  }

  lemma TakenOwned(c0: Config, c: Config, set1: Config, r: Config, owner: string, name: string, canonical: string)
    requires TransportOwned(c0, c, owner, name) && set1 == Set(c, RemoteUrl(name), canonical) && Line(canonical)
    requires Removable(r, HttpsHelper) && Removable(r, SshCommand)
    requires forall k | k != HttpsHelper && k != SshCommand :: Same(set1, r, k)
    ensures TransportOwned(c0, r, owner, name) && Get(r, RemoteUrl(name)) == Some(canonical) && OnlyTransport(c, r)
  {
    assert forall k | k == RmOwner || k == RmVersion || k == RmName || k == RmUrl || k == RemoteUrl(name) ::
      Same(set1, r, k);
    assert Same(set1, r, RmOwner) && Same(set1, r, RmVersion) && Same(set1, r, RmName) && Same(set1, r, RmUrl);
    assert Same(set1, r, RemoteUrl(name));
    HoldsReads(r, RemoteUrl(name), canonical);
    forall m | m != name ensures Same(c0, r, RemoteUrl(m)) {
      assert Same(c0, c, RemoteUrl(m)) && Same(set1, r, RemoteUrl(m));
    }
    forall k | !TransportKey(k) ensures Same(c, r, k) { assert Same(set1, r, k); }
  }

  /** Rewriting keeps the repository a canonical URL names. */
  ghost predicate KeepsRepo(rewrite: string -> string) {
    forall name, protocol :: RepoPath(rewrite(Canonical(name, protocol))) == RepoPath(Canonical(name, protocol))
  }

  lemma CanonicalInjective(a: string, b: string, protocol: Protocol)
    requires Canonical(a, protocol) == Canonical(b, protocol)
    ensures a == b
  {
    var prefix := if protocol.Ssh? then SCP else HTTPS;
    var left, right := prefix + a + ".git", prefix + b + ".git";
    assert a == left[|prefix|..|prefix| + |a|];
    assert b == right[|prefix|..|prefix| + |b|];
  }

  lemma ReadsExact(repo: Repository, r: Config, d: Desired, w: Remote, name: string, url: string)
    requires repo.present && d.configVersion >= 2 && WantedRemote(d) == Some(w)
    requires Get(r, RmOwner) == Some(d.iid) && Get(r, RmVersion) == Some(VERSION)
    requires Get(r, RmName) == Some(w.name) && Get(r, RmUrl).Some? && TransportExact(r, d, w.protocol)
    requires Get(r, RemoteUrl(w.name)) == Some(url)
    requires RepoPath(repo.rewrite(url)) == RepoPath(url)
    ensures ObserveTransport(repo, r, d) == Exact
            <==> RepoPath(url).Some? && url == Canonical(RepoPath(url).value, w.protocol)
  {
    hide RepoPath;
  }

  /** After taking over, the observation is exact just when the canonical URL still names
      the repository. */
  lemma TakenExact(repo: Repository, c0: Config, d: Desired, w: Remote, name: string, r: Config)
    requires repo.present && d.configVersion >= 2 && KeepsRepo(repo.rewrite) && WantedRemote(d) == Some(w)
    requires TransportOwned(c0, r, d.iid, w.name) && TransportExact(r, d, w.protocol) && TwoPieces(name)
    requires Get(r, RemoteUrl(w.name)) == Some(Canonical(name, w.protocol))
    ensures ObserveTransport(repo, r, d) == Exact <==> Spellable(name, w.protocol)
  {
    var url := Canonical(name, w.protocol);
    TransportReads(c0, r, d.iid, w.name);
    CanonicalNames(name, w.protocol);
    ReadsExact(repo, r, d, w, name, url);
    if RepoPath(url).Some? && url == Canonical(RepoPath(url).value, w.protocol) {
      CanonicalInjective(name, RepoPath(url).value, w.protocol);
    }
  }

  /** A planned transport change never raises, keeps what a release needs and touches
      nothing else; a released transport is as declared, and a requested one exactly when
      the protocol's URL can spell the repository. */
  lemma TransportStep(repo: Repository, c0: Config, c: Config, d: Desired)
    requires repo.present && Pristine(c0) && NoBlank(c0) && TransportKept(c0, c) && ValidGit(d)
    requires Gated(ObserveTransport(repo, c, d)) && ObserveTransport(repo, c, d) != Exact
    ensures var r := ConvergedTransport(repo, c, d);
            && r.Done? && TransportKept(c0, r.config) && OnlyTransport(c, r.config)
            && (WantedRemote(d).None? ==> ObserveTransport(repo, r.config, d) == Exact)
            && (WantedRemote(d).Some? && KeepsRepo(repo.rewrite) ==>
                  (ObserveTransport(repo, r.config, d) == Exact
                   <==> Spellable(RepoPath(Get(c, RemoteUrl(WantedRemote(d).value.name)).value).value,
                                  WantedRemote(d).value.protocol)))
  {
    var r := ConvergedTransport(repo, c, d);
    if WantedRemote(d).None? {
      ReleasesTransport(repo, c0, c, d);
    } else {
      if RmOwner in c {
        var o, n :| TransportOwned(c0, c, o, n);
        TransportReads(c0, c, o, n);
        ChangesTransport(repo, c0, c, d);
      } else {
        FreeTransportReads(c0, c, "");
        AdoptsTransport(repo, c0, c, d);
      }
      assert Taken(c0, c, d, WantedRemote(d).value, r);
      if KeepsRepo(repo.rewrite) {
        var w := WantedRemote(d).value;
        TakenExact(repo, c0, d, w, RepoPath(Get(c, RemoteUrl(w.name)).value).value, r.config);
      }
    }
  }

  // ---- runs ----

  datatype GitStep = IdentityChange(d: Desired) | TransportChange(d: Desired)

  /** One planned step: an exact setting needs nothing, a foreign or unverified one is a
      conflict and stays as it is, anything else converges. */
  function Attempt(repo: Repository, c: Config, s: GitStep): Converged {
    match s
    case IdentityChange(d) =>
      var o := ObserveIdentity(repo, c, d);
      if o == Exact || !Gated(o) then Done(c) else ConvergedIdentity(c, d)
    case TransportChange(d) =>
      var o := ObserveTransport(repo, c, d);
      if o == Exact || !Gated(o) then Done(c) else ConvergedTransport(repo, c, d)
  }

  /** The configuration after a run of steps, unless one of them raised. */
  function Run(repo: Repository, c: Config, steps: seq<GitStep>): Converged
    decreases |steps|
  {
    if steps == [] then Done(c)
    else
      var r := Attempt(repo, c, steps[0]);
      if r.Refused? then Refused else Run(repo, r.config, steps[1..])
  }

  ghost predicate Kept(c0: Config, c: Config) {
    && IdentityKept(c0, c) && TransportKept(c0, c)
    && forall k | !IdentityKey(k) && !TransportKey(k) :: Same(c0, c, k)
  }

  lemma KeptByIdentity(c0: Config, c: Config, r: Config)
    requires Kept(c0, c) && IdentityKept(c0, r) && OnlyIdentity(c, r)
    ensures Kept(c0, r)
  {
    assert Same(c, r, RmOwner) && Same(c, r, RmVersion) && Same(c, r, RmName) && Same(c, r, RmUrl);
    assert Same(c, r, HttpsHelper) && Same(c, r, SshCommand);
    assert forall m :: Same(c, r, RemoteUrl(m));
    if RmOwner in c {
      var o, n :| TransportOwned(c0, c, o, n);
      forall m | m != n ensures Same(c0, r, RemoteUrl(m)) { assert Same(c0, c, RemoteUrl(m)); }
      assert TransportOwned(c0, r, o, n);
    } else {
      forall m ensures Same(c0, r, RemoteUrl(m)) { assert Same(c0, c, RemoteUrl(m)); }
    }
    forall k | !IdentityKey(k) && !TransportKey(k) ensures Same(c0, r, k) {
      assert Same(c0, c, k) && Same(c, r, k);
    }
  }

  lemma KeptByTransport(c0: Config, c: Config, r: Config)
    requires Kept(c0, c) && TransportKept(c0, r) && OnlyTransport(c, r)
    ensures Kept(c0, r)
  {
    assert Same(c, r, IdOwner) && Same(c, r, IdVersion) && Same(c, r, IdOrigin) && Same(c, r, IdName)
      && Same(c, r, IdEmail);
    assert Same(c, r, UserName) && Same(c, r, UserEmail);
    if IdOwner in c {
      var o, n, e :| IdentityOwned(c0, c, o, n, e);
      assert IdentityOwned(c0, r, o, n, e);
    }
    forall k | !IdentityKey(k) && !TransportKey(k) ensures Same(c0, r, k) {
      assert Same(c0, c, k) && Same(c, r, k);
    }
  }

  lemma AttemptKeeps(repo: Repository, c0: Config, c: Config, s: GitStep)
    requires repo.present && Pristine(c0) && NoBlank(c0) && Kept(c0, c) && ValidGit(s.d)
    ensures var r := Attempt(repo, c, s); r.Done? && Kept(c0, r.config)
  {
    var r := Attempt(repo, c, s);
    match s {
      case IdentityChange(d) =>
        if Gated(ObserveIdentity(repo, c, d)) && ObserveIdentity(repo, c, d) != Exact {
          IdentityStep(repo, c0, c, d);
          KeptByIdentity(c0, c, r.config);
        }
      case TransportChange(d) =>
        if Gated(ObserveTransport(repo, c, d)) && ObserveTransport(repo, c, d) != Exact {
          TransportStep(repo, c0, c, d);
          KeptByTransport(c0, c, r.config);
        }
    }
  }

  lemma {:induction false} RunKeeps(repo: Repository, c0: Config, c: Config, steps: seq<GitStep>)
    requires repo.present && Pristine(c0) && NoBlank(c0) && Kept(c0, c)
    requires forall s | s in steps :: ValidGit(s.d)
    ensures var r := Run(repo, c, steps); r.Done? && Kept(c0, r.config)
    decreases |steps|
  {
    if steps != [] {
      AttemptKeeps(repo, c0, c, steps[0]);
      RunKeeps(repo, c0, Attempt(repo, c, steps[0]).config, steps[1..]);
    }
  }

  lemma SameEverywhere(a: Config, b: Config)
    requires forall k :: Same(a, b, k)
    ensures a == b
  {
    assert forall k :: (k in a <==> k in b) && (k in a ==> a[k] == b[k]) by {
      forall k ensures (k in a <==> k in b) && (k in a ==> a[k] == b[k]) { assert Same(a, b, k); }
    }
  }

  /** Any run, by any instances, interleaving identity and transport: nothing raises, and
      once neither is owned the configuration is the one the run began with. */
  lemma Reversible(repo: Repository, c0: Config, steps: seq<GitStep>)
    requires repo.present && Pristine(c0) && NoBlank(c0)
    requires forall s | s in steps :: ValidGit(s.d)
    ensures var r := Run(repo, c0, steps);
            r.Done? && (IdOwner !in r.config && RmOwner !in r.config ==> r.config == c0)
  {
    assert Kept(c0, c0);
    RunKeeps(repo, c0, c0, steps);
    var r := Run(repo, c0, steps).config;
    if IdOwner !in r && RmOwner !in r {
      forall k ensures Same(c0, r, k) {
        if IdentityKey(k) || TransportKey(k) {
          assert ManagerKey(k) ==> k !in c0;
        }
      }
      SameEverywhere(c0, r);
    }
  }

  /** The setting a protocol writes. */
  function WrittenKey(protocol: Protocol): Key { if protocol.HttpsGh? then HttpsHelper else SshCommand }

  lemma ProtocolRoundTrip(c: Config, d: Desired, protocol: Protocol)
    requires GetAll(c, HttpsHelper) == "" && GetAll(c, SshCommand) == ""
    ensures var r := ApplyProtocol(c, d, protocol);
            && (forall k | k != WrittenKey(protocol) :: Same(c, r, k))
            && Unset(Unset(r, HttpsHelper), SshCommand) == c - {WrittenKey(protocol)}
  {
    WrittenAreLines(d, "", protocol);
    SetGet(c, WrittenKey(protocol), if protocol.HttpsGh? then HelperText(d) else SshText(d));
  }

  lemma AdoptTransportReads(c: Config, d: Desired, url: string, name: string, canonical: string)
    requires Line(url) && Line(name) && Line(d.iid)
    ensures var r := Set(AdoptTransport(c, d, url, name), RemoteUrl(name), canonical);
            && Get(r, RmOwner) == Some(d.iid) && Get(r, RmUrl) == Some(url) && Get(r, RmName) == Some(name)
            && Removable(r, RmOwner) && Removable(r, RmVersion) && Removable(r, RmName) && Removable(r, RmUrl)
  {
    var r := Set(AdoptTransport(c, d, url, name), RemoteUrl(name), canonical);
    HoldsReads(r, RmOwner, d.iid);
    HoldsReads(r, RmUrl, url);
    HoldsReads(r, RmName, name);
    assert Line(VERSION);
    HoldsReads(r, RmVersion, VERSION);
  }

  /** Adopting a transport for one protocol and releasing it again. */
  function AdoptThenRelease(repo: Repository, c: Config, d: Desired): Converged {
    var taken := ConvergedTransport(repo, c, d);
    if taken.Refused? then Refused else ConvergedTransport(repo, taken.config, d.(present := false))
  }

  lemma UnsetFrame(c: Config, key: Key, k: Key)
    requires k != key && Removable(c, k)
    ensures Removable(Unset(c, key), k) && Same(c, Unset(c, key), k)
  {
  }

  lemma ReleasedIs(repo: Repository, d: Desired, t: Config, url: string, name: string)
    requires WantedRemote(d).None? && Get(t, RmOwner) == Some(d.iid) && Get(t, RmUrl) == Some(url)
    requires Get(t, RmName) == Some(name)
    requires Removable(t, RmOwner) && Removable(t, RmVersion) && Removable(t, RmName) && Removable(t, RmUrl)
    ensures ConvergedTransport(repo, t, d)
         == Done(Unset(Unset(Set(t, RemoteUrl(name), url), HttpsHelper), SshCommand) - {RmOwner, RmVersion, RmName,
           RmUrl})
  {
    var t1 := Set(t, RemoteUrl(name), url);
    var t3 := Unset(Unset(t1, HttpsHelper), SshCommand);
    ReleaseUnfolds(repo, d, t, url, name);
    OwnershipRemovable(t, RemoteUrl(name), url);
    ReleaseTransportRemoves(t3);
  }

  lemma ReleaseUnfolds(repo: Repository, d: Desired, t: Config, url: string, name: string)
    requires WantedRemote(d).None? && Get(t, RmOwner) == Some(d.iid) && Get(t, RmUrl) == Some(url)
    requires Get(t, RmName) == Some(name)
    ensures ConvergedTransport(repo, t, d)
         == Done(ReleaseTransport(Unset(Unset(Set(t, RemoteUrl(name), url), HttpsHelper), SshCommand)))
  {
  }

  lemma OwnershipRemovable(t: Config, key: Key, value: string)
    requires Removable(t, RmOwner) && Removable(t, RmVersion) && Removable(t, RmName) && Removable(t, RmUrl)
    requires key.RemoteUrl?
    ensures var t3 := Unset(Unset(Set(t, key, value), HttpsHelper), SshCommand);
            Removable(t3, RmOwner) && Removable(t3, RmVersion) && Removable(t3, RmName) && Removable(t3, RmUrl)
  {
    var t1 := Set(t, key, value);
    var t2 := Unset(t1, HttpsHelper);
    UnsetFrame(t1, HttpsHelper, RmOwner); UnsetFrame(t2, SshCommand, RmOwner);
    UnsetFrame(t1, HttpsHelper, RmVersion); UnsetFrame(t2, SshCommand, RmVersion);
    UnsetFrame(t1, HttpsHelper, RmName); UnsetFrame(t2, SshCommand, RmName);
    UnsetFrame(t1, HttpsHelper, RmUrl); UnsetFrame(t2, SshCommand, RmUrl);
  }

  lemma UnsetCommutesWithUrl(t: Config, name: string, url: string)
    ensures Unset(Unset(Set(t, RemoteUrl(name), url), HttpsHelper), SshCommand)
         == Set(Unset(Unset(t, HttpsHelper), SshCommand), RemoteUrl(name), url)
  {
    var key := RemoteUrl(name);
    assert GetAll(Set(t, key, url), HttpsHelper) == GetAll(t, HttpsHelper);
    var a, b := Unset(Set(t, key, url), HttpsHelper), Unset(t, HttpsHelper);
    assert a == Set(b, key, url);
    assert GetAll(a, SshCommand) == GetAll(b, SshCommand);
    assert Unset(a, SshCommand) == Set(Unset(b, SshCommand), key, url);
  }

  lemma UndoesAll(c: Config, d: Desired, url: string, name: string, canonical: string, written: Key)
    requires RmOwner !in c && RmVersion !in c && RmName !in c && RmUrl !in c
    requires RemoteUrl(name) in c && c[RemoteUrl(name)] == [url]
    requires written == HttpsHelper || written == SshCommand
    ensures Set(Set(AdoptTransport(c, d, url, name), RemoteUrl(name), canonical) - {written}, RemoteUrl(name), url)
              - {RmOwner, RmVersion, RmName, RmUrl} == c - {written}
  {
  }

  /** The configuration once a transport has been adopted. */
  function Adopted(c: Config, d: Desired, w: Remote, url: string): Config
    requires RepoPath(url).Some?
  {
    var canonical := Canonical(RepoPath(url).value, w.protocol);
    ApplyProtocol(Set(AdoptTransport(c, d, url, w.name), RemoteUrl(w.name), canonical), d, w.protocol)
  }

  lemma AdoptionIs(repo: Repository, c: Config, d: Desired, w: Remote)
    requires repo.present && d.configVersion >= 2 && ValidGit(d) && Pristine(c)
    requires WantedRemote(d) == Some(w) && ObserveTransport(repo, c, d) == Absent
    ensures Get(c, RemoteUrl(w.name)).Some? && RemoteUrl(w.name) in c
    ensures var url := Get(c, RemoteUrl(w.name)).value;
            && c[RemoteUrl(w.name)] == [url] && Line(url) && RepoPath(url).Some?
            && GetAll(c, HttpsHelper) == "" && GetAll(c, SshCommand) == ""
            && ConvergedTransport(repo, c, d) == Done(Adopted(c, d, w, url))
  {
    assert TransportFree(c, c);
    FreeTransportReads(c, c, w.name);
    assert RepoPath("").None?;
  }

  lemma AdoptedReleases(repo: Repository, c: Config, d: Desired, w: Remote, url: string)
    requires ValidGit(d) && Pristine(c) && d.remote == Some(w) && RepoPath(url).Some? && Line(url)
    requires RemoteUrl(w.name) in c && c[RemoteUrl(w.name)] == [url]
    requires GetAll(c, HttpsHelper) == "" && GetAll(c, SshCommand) == ""
    ensures ConvergedTransport(repo, Adopted(c, d, w, url), d.(present := false)) == Done(c - {WrittenKey(w.protocol)})
  {
    hide RepoPath;
    var canonical := Canonical(RepoPath(url).value, w.protocol);
    var mid := Set(AdoptTransport(c, d, url, w.name), RemoteUrl(w.name), canonical);
    assert GetAll(mid, HttpsHelper) == GetAll(c, HttpsHelper) && GetAll(mid, SshCommand) == GetAll(c, SshCommand);
    ProtocolRoundTrip(mid, d, w.protocol);
    AdoptTransportReads(c, d, url, w.name, canonical);
    var taken := ApplyProtocol(mid, d, w.protocol);
    assert Same(mid, taken, RmOwner) && Same(mid, taken, RmVersion) && Same(mid, taken, RmName)
      && Same(mid, taken, RmUrl);
    ReleasedIs(repo, d.(present := false), taken, url, w.name);
    UnsetCommutesWithUrl(taken, w.name, url);
    UndoesAll(c, d, url, w.name, canonical, WrittenKey(w.protocol));
  }

  /** What the round trip loses: the setting its protocol writes, when it was present with an
      empty value, which git reports as no value at all. */
  lemma AdoptRelease(repo: Repository, c: Config, d: Desired)
    requires repo.present && d.configVersion >= 2 && ValidGit(d) && Pristine(c)
    requires WantedRemote(d).Some? && ObserveTransport(repo, c, d) == Absent
    ensures var r := AdoptThenRelease(repo, c, d);
            r.Done? && (r.config == c <==> WrittenKey(WantedRemote(d).value.protocol) !in c)
  {
    hide RepoPath, Pristine, ObserveTransport, ConvergedTransport, Adopted, Get, ValidGit;
    var w := WantedRemote(d).value;
    AdoptionIs(repo, c, d, w);
    AdoptedReleases(repo, c, d, w, Get(c, RemoteUrl(w.name)).value);
  }

  const EXAMPLE := Canonical("o/r", HttpsGh)

  lemma ExampleUrl()
    ensures RepoPath(EXAMPLE) == Some("o/r") && RemoteProtocol(EXAMPLE) == Some(HttpsGh) && Line(EXAMPLE)
  {
    hide RepoPath, RemoteProtocol;
    assert TwoPieces("o/r") by { FindIs("o/r", "/", 0, 1); }
    assert FindLast("o/r", '/') == 1;
    CanonicalNames("o/r", HttpsGh);
    CanonicalProtocol("o/r", HttpsGh);
    assert EXAMPLE[|EXAMPLE| - 1] == 't';
  }

  /** A remote and a helper present with an empty value. */
  function BlankHelper(name: string, url: string): Config {
    map[RemoteUrl(name) := [url]][HttpsHelper := [""]]
  }

  lemma BlankHelperPristine(name: string, url: string)
    requires Line(url)
    ensures Pristine(BlankHelper(name, url)) && Get(BlankHelper(name, url), RemoteUrl(name)) == Some(url)
  {
    ChompLine(url);
  }

  lemma BlankReads(c: Config)
    requires HttpsHelper in c && c[HttpsHelper] == [""] && SshCommand !in c
    ensures GetAll(c, HttpsHelper) == "" && GetAll(c, SshCommand) == ""
  {
    assert Printed([""]) == "" + "\n" + "";
    assert Printed([""])[..0] == "";
  }

  lemma AdoptableIsAbsent(repo: Repository, c: Config, d: Desired, w: Remote, url: string)
    requires repo.present && repo.rewrite(url) == url && d.configVersion >= 2 && WantedRemote(d) == Some(w)
    requires RepoPath(url).Some? && RemoteProtocol(url) == Some(w.protocol)
    requires Get(c, RemoteUrl(w.name)) == Some(url) && RmOwner !in c && RmVersion !in c
    requires GetAll(c, HttpsHelper) == "" && GetAll(c, SshCommand) == ""
    ensures ObserveTransport(repo, c, d) == Absent
  {
  }

  /** The blank helper that resets inherited credential helpers is such a setting. */
  lemma BlankHelperLost(repo: Repository, d: Desired, name: string)
    requires repo.present && repo.rewrite(EXAMPLE) == EXAMPLE && d.configVersion >= 2 && ValidGit(d)
    requires WantedRemote(d) == Some(Remote(name, HttpsGh))
    ensures Pristine(BlankHelper(name, EXAMPLE)) && ObserveTransport(repo, BlankHelper(name, EXAMPLE), d) == Absent
    ensures AdoptThenRelease(repo, BlankHelper(name, EXAMPLE), d) != Done(BlankHelper(name, EXAMPLE))
  {
    var c := BlankHelper(name, EXAMPLE);
    ExampleUrl();
    BlankHelperPristine(name, EXAMPLE);
    BlankReads(c);
    AdoptableIsAbsent(repo, c, d, Remote(name, HttpsGh), EXAMPLE);
    AdoptRelease(repo, c, d);
  }

  // ---- a repository an https URL cannot spell ----

  const QUERIED := "o/r?x"

  lemma QueriedOverSsh()
    ensures TwoPieces(QUERIED) && RepoPath(SCP + QUERIED) == Some(QUERIED) && RemoteProtocol(SCP + QUERIED) == Some(Ssh)
    ensures Line(SCP + QUERIED) && !HttpsSafe(QUERIED)
  {
    var url := SCP + QUERIED;
    FindIs(QUERIED, "/", 0, 1);
    assert QUERIED[..1] == "o" && QUERIED[2..] == "r?x";
    StripKeeps(url);
    assert url[..|SCP|] == SCP && url[|SCP|..] == QUERIED;
    assert !EndsWith(QUERIED, ".git") by { assert QUERIED[|QUERIED| - 4..][0] == '/'; }
    assert '?' in QUERIED by { assert QUERIED[3] == '?'; }
  }

  lemma QueryCut()
    ensures BeforeQuery("/o/r?x.git") == "/o/r"
  {
    var plain := "/o/r?x.git";
    FindNone(plain, "#", 0);
    assert plain[..|plain|] == plain;
    FindIs(plain, "?", 0, 4);
    assert plain[..4] == "/o/r";
  }

  lemma PlainPath()
    ensures StripSlashes(WithoutParameters("/o/r")) == "o/r" && WithoutGit("o/r") == "o/r" && TwoPieces("o/r")
  {
    FindIs("/o/r", ";", 2, 4);
    assert FindLast("/o/r", '/') == 2;
    assert "/o/r"[..4] == "/o/r" && "/o/r"[1..] == "o/r";
    FindIs("o/r", "/", 0, 1);
    assert "o/r"[..1] == "o" && "o/r"[2..] == "r";
  }

  /** What an https URL of it is read as: another repository. */
  lemma QueriedOverHttps()
    ensures RepoPath(Canonical(QUERIED, HttpsGh)) == Some("o/r")
    ensures Canonical(QUERIED, HttpsGh) != Canonical("o/r", HttpsGh)
  {
    hide RawPath, Canonical, BeforeQuery, StripSlashes, WithoutParameters, WithoutGit, TwoPieces, Unbroken, Strip;
    assert NoBreaks(QUERIED) by { forall i | 0 <= i < |QUERIED| ensures !IsBreak(QUERIED[i]) {} }
    UnbrokenShape(QUERIED);
    CanonicalRaw(QUERIED);
    assert "/" + (QUERIED + ".git") == "/o/r?x.git";
    QueryCut();
    PlainPath();
    assert |QUERIED| == 5 && |"o/r"| == 3;
    if Canonical(QUERIED, HttpsGh) == Canonical("o/r", HttpsGh) { CanonicalInjective(QUERIED, "o/r", HttpsGh); }
  }

  function Cloned(name: string): Config { map[RemoteUrl(name) := [SCP + QUERIED]] }

  lemma ClonedPristine(name: string)
    ensures Pristine(Cloned(name)) && NoBlank(Cloned(name)) && Get(Cloned(name), RemoteUrl(name)) == Some(SCP + QUERIED)
    ensures TransportFree(Cloned(name), Cloned(name)) && GetAll(Cloned(name), HttpsHelper) == ""
    ensures GetAll(Cloned(name), SshCommand) == ""
  {
    QueriedOverSsh();
    ChompLine(SCP + QUERIED);
  }

  /** A run the manager can receive: cloned over SSH and adopted, then declared https. Nothing raises;
      the change is not observed exact, and the next one points the remote at another repository. */
  lemma AnotherRepository(repo: Repository, d: Desired, name: string) returns (one: Config, two: Config, three: Config)
    requires repo.present && (forall u :: repo.rewrite(u) == u) && d.configVersion >= 2 && ValidGit(d)
    requires WantedRemote(d) == Some(Remote(name, HttpsGh))
    ensures var ssh := d.(remote := Some(Remote(name, Ssh)));
            && ObserveTransport(repo, Cloned(name), ssh) == Absent
               && ConvergedTransport(repo, Cloned(name), ssh) == Done(one)
            && ObserveTransport(repo, one, ssh) == Exact
    ensures ObserveTransport(repo, one, d) == Different && ConvergedTransport(repo, one, d) == Done(two)
    ensures Get(two, RemoteUrl(name)) == Some(Canonical(QUERIED, HttpsGh))
    ensures ObserveTransport(repo, two, d) == Different
    ensures ConvergedTransport(repo, two, d) == Done(three)
    ensures Get(three, RemoteUrl(name)) == Some(Canonical("o/r", HttpsGh))
  {
    hide RepoPath, RemoteProtocol, HttpsSafe, TransportExact, TransportOwned, TransportFree, ConvergedTransport;
    hide Pristine, NoBlank, Cloned, OnlyTransport;
    var c, w := Cloned(name), Remote(name, HttpsGh);
    var s := Remote(name, Ssh);
    var ssh := d.(remote := Some(s));
    ClonedPristine(name);
    QueriedOverSsh();
    QueriedOverHttps();
    NotOwnedYet(name);
    AdoptableIsAbsent(repo, c, ssh, s, SCP + QUERIED);
    AdoptsTransport(repo, c, c, ssh);
    one := ConvergedTransport(repo, c, ssh).config;
    TransportReads(c, one, d.iid, name);
    SshCanonicalNames(QUERIED);
    ReadsExact(repo, one, ssh, s, QUERIED, Canonical(QUERIED, Ssh));
    assert Canonical(QUERIED, Ssh)[0] == 'g' && Canonical(QUERIED, HttpsGh)[0] == 'h';
    OwnedIsKept(c, one, d.iid, name);
    ChangesTransport(repo, c, one, d);
    two := ConvergedTransport(repo, one, d).config;
    TransportReads(c, two, d.iid, name);
    OwnedIsKept(c, two, d.iid, name);
    ChangesTransport(repo, c, two, d);
    three := ConvergedTransport(repo, two, d).config;
  }

  lemma NotOwnedYet(name: string)
    ensures RmOwner !in Cloned(name) && RmVersion !in Cloned(name)
  {
  }

  lemma OwnedIsKept(c0: Config, c: Config, owner: string, name: string)
    requires TransportOwned(c0, c, owner, name)
    ensures TransportKept(c0, c) && RmOwner in c
  {
  }
}
