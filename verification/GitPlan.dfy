/** The git part of a valid plan: it never raises, and leaves both settings as declared. */
module GitPlan {
  import opened Text
  import opened Generation
  import opened GitHubUrl
  import opened GitOwnership
  import opened GitReversal
  import P = Planning
  import opened PlanContents

  function IdentityOp(s: Scene): P.Operation {
    P.GitOperation(ObserveIdentity(s.repo, s.config, s.d), WantedIdentity(s.d).Some?)
  }

  function TransportOp(s: Scene): P.Operation {
    P.GitOperation(ObserveTransport(s.repo, s.config, s.d), WantedRemote(s.d).Some?)
  }

  /** `_apply_development_operations`: the identity first, then the transport. */
  function GitResult(s: Scene): Converged {
    if s.d.configVersion < 2 then Done(s.config)
    else
      var first := if IdentityOp(s).NoOp? then Done(s.config) else ConvergedIdentity(s.config, s.d);
      if first.Refused? || TransportOp(s).NoOp? then first else ConvergedTransport(s.repo, first.config, s.d)
  }

  /** Nothing to adopt or change, or a repository name the protocol's URL can spell. */
  predicate Spelled(s: Scene) {
    s.d.configVersion >= 2 && !TransportOp(s).NoOp? && WantedRemote(s.d).Some? ==>
      var url := Get(s.config, RemoteUrl(WantedRemote(s.d).value.name));
      url.Some? && RepoPath(url.value).Some? && Spellable(RepoPath(url.value).value, WantedRemote(s.d).value.protocol)
  }

  lemma SameReads(a: Config, b: Config, k: Key)
    requires Same(a, b, k)
    ensures Get(a, k) == Get(b, k) && GetAll(a, k) == GetAll(b, k)
  {
  }

  lemma TransportFrame(repo: Repository, a: Config, b: Config, d: Desired)
    requires OnlyIdentity(a, b)
    ensures ObserveTransport(repo, a, d) == ObserveTransport(repo, b, d)
    ensures forall m :: Get(a, RemoteUrl(m)) == Get(b, RemoteUrl(m))
  {
    hide RepoPath, Get, GetAll, Canonical, RemoteProtocol, TransportExact, RepoPath;
    SameReads(a, b, RmOwner); SameReads(a, b, RmVersion); SameReads(a, b, RmName); SameReads(a, b, RmUrl);
    SameReads(a, b, HttpsHelper); SameReads(a, b, SshCommand);
    forall m ensures Get(a, RemoteUrl(m)) == Get(b, RemoteUrl(m)) { SameReads(a, b, RemoteUrl(m)); }
    assert forall protocol ::
      TransportExact(a, d, protocol) == TransportExact(b, d, protocol) by { TransportExactFrame(a, b, d); }
  }

  lemma TransportExactFrame(a: Config, b: Config, d: Desired)
    requires GetAll(a, HttpsHelper) == GetAll(b, HttpsHelper) && GetAll(a, SshCommand) == GetAll(b, SshCommand)
    ensures forall protocol :: TransportExact(a, d, protocol) == TransportExact(b, d, protocol)
  {
  }

  lemma IdentityFrame(repo: Repository, a: Config, b: Config, d: Desired)
    requires OnlyTransport(a, b)
    ensures ObserveIdentity(repo, a, d) == ObserveIdentity(repo, b, d)
  {
    SameReads(a, b, IdOwner); SameReads(a, b, IdVersion); SameReads(a, b, IdOrigin); SameReads(a, b, IdName);
    SameReads(a, b, IdEmail);
    SameReads(a, b, UserName); SameReads(a, b, UserEmail);
    hide Get;
  }

  lemma GitItemsValid(s: Scene)
    requires P.Valid(PlanFor(s)) && s.d.configVersion >= 2
    ensures !IdentityOp(s).Conflict? && !TransportOp(s).Conflict?
  {
    var items := P.GitItems(s.repo, s.config, s.d);
    assert items[0] == P.PlanItem(IdentityOp(s), P.OnIdentity) && items[1] == P.PlanItem(TransportOp(s), P.OnTransport);
    InPlan(s, items[0]);
    InPlan(s, items[1]);
    NoConflictIn(PlanFor(s), P.OnIdentity);
    NoConflictIn(PlanFor(s), P.OnTransport);
    hide PlanFor, ObserveIdentity, ObserveTransport;
  }

  lemma OpOf(o: Observation, requested: bool)
    ensures P.GitOperation(o, requested).Conflict? <==> !Gated(o)
    ensures P.GitOperation(o, requested).NoOp? <==> o == Exact
  {
  }

  lemma FirstStep(s: Scene, c0: Config) returns (c: Config)
    requires P.Valid(PlanFor(s)) && s.d.configVersion >= 2 && s.repo.present && ValidGit(s.d) && Pristine(c0)
    requires Kept(c0, s.config)
    ensures (if IdentityOp(s).NoOp? then Done(s.config) else ConvergedIdentity(s.config, s.d)) == Done(c)
    ensures Kept(c0, c) && OnlyIdentity(s.config, c) && ObserveIdentity(s.repo, c, s.d) == Exact
  {
    GitItemsValid(s);
    OpOf(ObserveIdentity(s.repo, s.config, s.d), WantedIdentity(s.d).Some?);
    hide ObserveIdentity, ConvergedIdentity, PlanFor;
    c := s.config;
    if !IdentityOp(s).NoOp? {
      IdentityStep(s.repo, c0, s.config, s.d);
      c := ConvergedIdentity(s.config, s.d).config;
      KeptByIdentity(c0, s.config, c);
    }
  }

  /** From settings that account for their origin, the git part of a plan succeeds, still
      accounts for it, and has nothing left to do exactly when the URL can be spelled. */
  lemma GitSettles(s: Scene, c0: Config)
    requires P.Valid(PlanFor(s)) && ValidGit(s.d) && Pristine(c0) && NoBlank(c0) && Kept(c0, s.config)
    requires KeepsRepo(s.repo.rewrite)
    ensures GitResult(s).Done? && Kept(c0, GitResult(s).config)
    ensures s.d.configVersion >= 2 ==> ObserveIdentity(s.repo, GitResult(s).config, s.d) == Exact
    ensures s.d.configVersion >= 2 ==> (ObserveTransport(s.repo, GitResult(s).config, s.d) == Exact <==> Spelled(s))
  {
    if s.d.configVersion >= 2 {
      if s.repo.present { PresentGitSettles(s, c0); } else { BareGitSettles(s); }
    }
  }

  lemma BareGitSettles(s: Scene)
    requires P.Valid(PlanFor(s)) && s.d.configVersion >= 2 && !s.repo.present
    ensures GitResult(s) == Done(s.config) && Spelled(s)
    ensures ObserveIdentity(s.repo, s.config, s.d) == Exact && ObserveTransport(s.repo, s.config, s.d) == Exact
  {
    GitItemsValid(s);
    hide PlanFor, ConvergedTransport, ConvergedIdentity, Spellable, RepoPath;
  }

  lemma PresentGitSettles(s: Scene, c0: Config)
    requires P.Valid(PlanFor(s)) && s.d.configVersion >= 2 && s.repo.present
    requires ValidGit(s.d) && Pristine(c0) && NoBlank(c0) && Kept(c0, s.config) && KeepsRepo(s.repo.rewrite)
    ensures GitResult(s).Done? && Kept(c0, GitResult(s).config)
    ensures ObserveIdentity(s.repo, GitResult(s).config, s.d) == Exact
    ensures ObserveTransport(s.repo, GitResult(s).config, s.d) == Exact <==> Spelled(s)
  {
    GitItemsValid(s);
    OpOf(ObserveTransport(s.repo, s.config, s.d), WantedRemote(s.d).Some?);
    hide Spellable, RepoPath, PlanFor, Kept, NoBlank, Pristine, KeepsRepo, ConvergedTransport, ConvergedIdentity;
    hide ObserveIdentity, ObserveTransport, ValidGit, Get;
    var c := FirstStep(s, c0);
    TransportFrame(s.repo, s.config, c, s.d);
    hide OnlyIdentity, P.Valid;
    if TransportOp(s).NoOp? {
      assert GitResult(s) == Done(c);
    } else {
      var r := SecondStep(s.repo, s.d, c0, c);
      if WantedRemote(s.d).Some? { GatedHasUrl(s.repo, c, s.d); }
      assert GitResult(s) == Done(r);
    }
  }

  lemma SecondStep(repo: Repository, d: Desired, c0: Config, c: Config) returns (r: Config)
    requires d.configVersion >= 2 && repo.present && ValidGit(d) && Pristine(c0) && NoBlank(c0) && Kept(c0, c)
    requires KeepsRepo(repo.rewrite)
    requires ObserveIdentity(repo, c, d) == Exact && Gated(ObserveTransport(repo, c, d))
    requires ObserveTransport(repo, c, d) != Exact
    ensures ConvergedTransport(repo, c, d) == Done(r) && Kept(c0, r) && ObserveIdentity(repo, r, d) == Exact
    ensures WantedRemote(d).None? ==> ObserveTransport(repo, r, d) == Exact
    ensures WantedRemote(d).Some? ==>
              (ObserveTransport(repo, r, d) == Exact
               <==> Spellable(RepoPath(Get(c, RemoteUrl(WantedRemote(d).value.name)).value).value,
                 WantedRemote(d).value.protocol))
  {
    hide ObserveIdentity, ObserveTransport, ConvergedTransport, RepoPath, Spellable, Pristine, NoBlank, ValidGit;
    hide KeepsRepo, OnlyTransport, TransportKept;
    if WantedRemote(d).Some? { GatedHasUrl(repo, c, d); }
    TransportStep(repo, c0, c, d);
    r := ConvergedTransport(repo, c, d).config;
    KeptByTransport(c0, c, r);
    IdentityFrame(repo, c, r, d);
  }

  lemma GatedHasUrl(repo: Repository, c: Config, d: Desired)
    requires d.configVersion >= 2 && repo.present && Gated(ObserveTransport(repo, c, d)) && WantedRemote(d).Some?
    ensures Get(c, RemoteUrl(WantedRemote(d).value.name)).Some?
    ensures RepoPath(Get(c, RemoteUrl(WantedRemote(d).value.name)).value).Some?
  {
    hide RepoPath, Canonical, Get, GetAll, RemoteProtocol;
  }
}
