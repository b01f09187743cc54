/** Reversible ownership of repository-local git settings (`development_environment.py`):
    adopt, change and release the identity and the transport of one working tree. */
module GitOwnership {
  import opened Text
  import opened Generation
  import opened GitHubUrl

  datatype Key =
    | UserName | UserEmail
    | IdOwner | IdVersion | IdOrigin | IdName | IdEmail
    | RemoteUrl(remote: string) | HttpsHelper | SshCommand
    | RmOwner | RmVersion | RmName | RmUrl
    | Unrelated(key: string)

  /** Repository-local configuration: every value of every key. */
  type Config = map<Key, seq<string>>

  const VERSION := "1"

  /** Command output without its trailing line feeds. */
  function Chomp(s: string): string {
    if s != "" && s[|s| - 1] == '\n' then Chomp(s[..|s| - 1]) else s
  }

  function Printed(values: seq<string>): string {
    if values == [] then "" else values[0] + "\n" + Printed(values[1..])
  }

  /** `git config --get`: the last value. */
  function Get(c: Config, k: Key): Option<string> {
    if k in c && c[k] != [] then Some(Chomp(c[k][|c[k]| - 1] + "\n")) else None
  }

  /** `git config --get-all`, as the text the manager splits into lines. */
  function GetAll(c: Config, k: Key): string {
    if k in c then Chomp(Printed(c[k])) else ""
  }

  function Set(c: Config, k: Key, value: string): Config { c[k := [value]] }

  /** `_unset` asks first whether there is anything to unset. */
  function Unset(c: Config, k: Key): Config {
    if GetAll(c, k) == "" then c else c - {k}
  }

  /** A value the manager writes: not empty and on one line. */
  predicate Line(s: string) { s != "" && s[|s| - 1] != '\n' }

  lemma ChompLine(s: string)
    requires Line(s)
    ensures Chomp(s + "\n") == s && Chomp(Printed([s])) == s
  {
    assert (s + "\n")[..|s|] == s;
    assert Printed([s]) == s + "\n" + "";
    assert s + "\n" + "" == s + "\n";
  }

  /** Reading back what was written. */
  lemma SetGet(c: Config, k: Key, value: string)
    requires Line(value)
    ensures Get(Set(c, k, value), k) == Some(value)
    ensures GetAll(Set(c, k, value), k) == value
    ensures Unset(Set(c, k, value), k) == c - {k}
  {
    ChompLine(value);
  }

  function Joined(p: seq<string>): string {
    if p == [] then "" else "/" + p[0] + Joined(p[1..])
  }

  function HelperText(d: Desired): string { Joined(d.home) + "/.local/bin/" + d.iid + "-git-credential-github" }

  function SshText(d: Desired): string { "/usr/bin/ssh -o BatchMode=yes -o IdentityAgent='" + d.sshSocket + "'" }

  /** What `domain.py` guarantees about the git part of a declaration. */
  predicate ValidGit(d: Desired) {
    && Line(d.iid)
    && (d.identity.Some? ==> Line(d.identity.value.name) && Line(d.identity.value.email))
    && (d.remote.Some? ==> Line(d.remote.value.name))
    && (d.configVersion < 2 ==> d.identity.None? && d.remote.None?)
  }

  function WantedIdentity(d: Desired): Option<Identity> { if d.present then d.identity else None }
  function WantedRemote(d: Desired): Option<Remote> { if d.present then d.remote else None }

  datatype Observation = Absent | Exact | Different | Foreign | Unverified

  /** The repository: its local settings, whether it is a working tree, and git's
      `insteadOf` rewriting of remote URLs. */
  datatype Repository = Repository(present: bool, rewrite: string -> string)

  predicate OriginKnown(c: Config) {
    var origin := Get(c, IdOrigin);
    && (origin == Some("created") || origin == Some("adopted"))
    && (origin == Some("adopted") ==> Get(c, IdName).Some? && Get(c, IdEmail).Some?)
  }

  function ObserveIdentity(repo: Repository, c: Config, d: Desired): Observation {
    if d.configVersion < 2 then Exact
    else if !repo.present then
      if d.identity.None? || !d.present then Exact else Unverified
    else
      var owner, version := Get(c, IdOwner), Get(c, IdVersion);
      var name, email := Get(c, UserName), Get(c, UserEmail);
      match WantedIdentity(d)
      case None =>
        if owner != Some(d.iid) then Exact
        else if version != Some(VERSION) || !OriginKnown(c) then Foreign
        else Different
      case Some(wanted) =>
        if owner.None? && version.None? then
          if (name.None? && email.None?) || (name == Some(wanted.name) && email == Some(wanted.email)) then Absent
          else Foreign
        else if owner != Some(d.iid) || version != Some(VERSION) || !OriginKnown(c) then Foreign
        else if name == Some(wanted.name) && email == Some(wanted.email) then Exact
        else Different
  }

  /** Whether the transport settings are those the protocol needs. */
  predicate TransportExact(c: Config, d: Desired, protocol: Protocol) {
    && GetAll(c, HttpsHelper) == (if protocol.HttpsGh? then HelperText(d) else "")
    && GetAll(c, SshCommand) == (if protocol.Ssh? then SshText(d) else "")
  }

  function ObserveTransport(repo: Repository, c: Config, d: Desired): Observation {
    if d.configVersion < 2 then Exact
    else if !repo.present then
      if d.remote.None? || !d.present then Exact else Unverified
    else
      var owner, version := Get(c, RmOwner), Get(c, RmVersion);
      match WantedRemote(d)
      case None =>
        if owner != Some(d.iid) then Exact
        else if version != Some(VERSION) || Get(c, RmName).None? || Get(c, RmUrl).None? then Foreign
        else Different
      case Some(wanted) =>
        var url := Get(c, RemoteUrl(wanted.name));
        if url.None? || RepoPath(url.value).None? then Foreign
        else
          var name, effective := RepoPath(url.value), repo.rewrite(url.value);
          if RepoPath(effective) != name then Foreign
          else if owner.None? && version.None? then
            if RemoteProtocol(effective) != Some(wanted.protocol) then Foreign
            else if GetAll(c, HttpsHelper) != "" || GetAll(c, SshCommand) != "" then Foreign
            else Absent
          else if owner != Some(d.iid) || version != Some(VERSION) then Foreign
          else if Get(c, RmName) != Some(wanted.name) || Get(c, RmUrl).None? then Foreign
          else if url.value == Canonical(name.value, wanted.protocol) && TransportExact(c, d, wanted.protocol)
            then Exact
          else Different
  }

  datatype Converged = Refused | Done(config: Config)

  function AdoptIdentity(c: Config, d: Desired, origin: string): Config {
    Set(Set(Set(c, IdOrigin, origin), IdOwner, d.iid), IdVersion, VERSION)
  }

  function ReleaseIdentity(c: Config): Config {
    Unset(Unset(Unset(Unset(Unset(c, IdOwner), IdVersion), IdOrigin), IdName), IdEmail)
  }

  /** `converge_identity`. */
  function ConvergedIdentity(c: Config, d: Desired): Converged {
    var owner := Get(c, IdOwner);
    match WantedIdentity(d)
    case None =>
      if owner != Some(d.iid) then Done(c)
      else if Get(c, IdOrigin) == Some("adopted") then
        if Get(c, IdName).None? || Get(c, IdEmail).None? then Refused
        else Done(ReleaseIdentity(Set(Set(c, UserName, Get(c, IdName).value), UserEmail, Get(c, IdEmail).value)))
      else if Get(c, IdOrigin) == Some("created") then Done(ReleaseIdentity(Unset(Unset(c, UserName), UserEmail)))
      else Refused
    case Some(wanted) =>
      var name, email := Get(c, UserName), Get(c, UserEmail);
      var owned :=
        if owner.Some? then Done(c)
        else if name.None? && email.None? then Done(AdoptIdentity(c, d, "created"))
        else if name == Some(wanted.name) && email == Some(wanted.email) then
          Done(AdoptIdentity(Set(Set(c, IdName, name.value), IdEmail, email.value), d, "adopted"))
        else Refused;
      if owned.Refused? then Refused
      else Done(Set(Set(owned.config, UserName, wanted.name), UserEmail, wanted.email))
  }

  function AdoptTransport(c: Config, d: Desired, url: string, name: string): Config {
    Set(Set(Set(Set(c, RmUrl, url), RmName, name), RmOwner, d.iid), RmVersion, VERSION)
  }

  function ReleaseTransport(c: Config): Config {
    Unset(Unset(Unset(Unset(c, RmOwner), RmVersion), RmName), RmUrl)
  }

  function ApplyProtocol(c: Config, d: Desired, protocol: Protocol): Config {
    if protocol.HttpsGh? then Unset(Set(c, HttpsHelper, HelperText(d)), SshCommand)
    else Set(Unset(c, HttpsHelper), SshCommand, SshText(d))
  }

  /** `converge_transport`. */
  function ConvergedTransport(repo: Repository, c: Config, d: Desired): Converged {
    var owner := Get(c, RmOwner);
    match WantedRemote(d)
    case None =>
      if owner != Some(d.iid) then Done(c)
      else if Get(c, RmUrl).None? || Get(c, RmName).None? then Refused
      else
        var restored := Set(c, RemoteUrl(Get(c, RmName).value), Get(c, RmUrl).value);
        Done(ReleaseTransport(Unset(Unset(restored, HttpsHelper), SshCommand)))
    case Some(wanted) =>
      var url := Get(c, RemoteUrl(wanted.name));
      if url.None? || RepoPath(url.value).None? then Refused
      else
        var name, effective := RepoPath(url.value), repo.rewrite(url.value);
        if RepoPath(effective) != name then Refused
        else if owner.None? && (RemoteProtocol(effective) != Some(wanted.protocol)
                                || GetAll(c, HttpsHelper) != "" || GetAll(c, SshCommand) != "") then Refused
        else
          var owned := if owner.None? then AdoptTransport(c, d, url.value, wanted.name) else c;
          Done(ApplyProtocol(Set(owned, RemoteUrl(wanted.name), Canonical(name.value, wanted.protocol)), d,
            wanted.protocol))
  }

  predicate Gated(o: Observation) { o != Foreign && o != Unverified }

  /** One working tree. Every git command may fail, leaving the earlier ones in effect. */
  class WorkingTree {
    var config: Config
    const repo: Repository

    constructor (config: Config, repo: Repository)
      ensures this.config == config && this.repo == repo
    {
      this.config := config;
      this.repo := repo;
    }

    method SetKey(k: Key, value: string) returns (o: Outcome)
      modifies this
      ensures config == if o.Pass? then Set(old(config), k, value) else old(config)
    {
      if * { return Raise; }
      config := config[k := [value]];
      return Pass;
    }

    method UnsetKey(k: Key) returns (o: Outcome)
      modifies this
      ensures config == if o.Pass? then Unset(old(config), k) else old(config)
    {
      if GetAll(config, k) == "" { return Pass; }
      if * { return Raise; }
      config := config - {k};
      return Pass;
    }

    method ConvergeIdentity(d: Desired) returns (o: Outcome)
      modifies this
      ensures o.Pass? ==> ConvergedIdentity(old(config), d) == Done(config)
      ensures ConvergedIdentity(old(config), d).Refused? ==> o.Raise? && config == old(config)
    {
      var owner := Get(config, IdOwner);
      if WantedIdentity(d).None? {
        if owner != Some(d.iid) { return Pass; }
        var origin := Get(config, IdOrigin);
        if origin == Some("adopted") {
          var name, email := Get(config, IdName), Get(config, IdEmail);
          if name.None? || email.None? { return Raise; }
          :- SetKey(UserName, name.value);
          :- SetKey(UserEmail, email.value);
        } else if origin == Some("created") {
          :- UnsetKey(UserName);
          :- UnsetKey(UserEmail);
        } else {
          return Raise;
        }
        :- UnsetKey(IdOwner);
        :- UnsetKey(IdVersion);
        :- UnsetKey(IdOrigin);
        :- UnsetKey(IdName);
        :- UnsetKey(IdEmail);
        return Pass;
      }
      var wanted := WantedIdentity(d).value;
      if owner.None? {
        var name, email := Get(config, UserName), Get(config, UserEmail);
        var origin;
        if name.None? && email.None? {
          origin := "created";
        } else if name == Some(wanted.name) && email == Some(wanted.email) {
          origin := "adopted";
          :- SetKey(IdName, name.value);
          :- SetKey(IdEmail, email.value);
        } else {
          return Raise;
        }
        :- SetKey(IdOrigin, origin);
        :- SetKey(IdOwner, d.iid);
        :- SetKey(IdVersion, VERSION);
      }
      :- SetKey(UserName, wanted.name);
      :- SetKey(UserEmail, wanted.email);
      return Pass;
    }

    method ConvergeTransport(d: Desired) returns (o: Outcome)
      modifies this
      ensures o.Pass? ==> ConvergedTransport(repo, old(config), d) == Done(config)
      ensures ConvergedTransport(repo, old(config), d).Refused? ==> o.Raise? && config == old(config)
    {
      var owner := Get(config, RmOwner);
      if WantedRemote(d).None? {
        if owner != Some(d.iid) { return Pass; }
        var original, managed := Get(config, RmUrl), Get(config, RmName);
        if original.None? || managed.None? { return Raise; }
        :- SetKey(RemoteUrl(managed.value), original.value);
        :- UnsetKey(HttpsHelper);
        :- UnsetKey(SshCommand);
        :- UnsetKey(RmOwner);
        :- UnsetKey(RmVersion);
        :- UnsetKey(RmName);
        :- UnsetKey(RmUrl);
        return Pass;
      }
      var wanted := WantedRemote(d).value;
      var key := RemoteUrl(wanted.name);
      var url := Get(config, key);
      if url.None? { return Raise; }
      var name := RepoPath(url.value);
      if name.None? { return Raise; }
      var effective := repo.rewrite(url.value);
      if RepoPath(effective) != name { return Raise; }
      if owner.None? {
        if RemoteProtocol(effective) != Some(wanted.protocol)
           || GetAll(config, HttpsHelper) != "" || GetAll(config, SshCommand) != "" {
          return Raise;
        }
        :- SetKey(RmUrl, url.value);
        :- SetKey(RmName, wanted.name);
        :- SetKey(RmOwner, d.iid);
        :- SetKey(RmVersion, VERSION);
      }
      :- SetKey(key, Canonical(name.value, wanted.protocol));
      if wanted.protocol.HttpsGh? {
        :- SetKey(HttpsHelper, HelperText(d));
        :- UnsetKey(SshCommand);
      } else {
        :- UnsetKey(HttpsHelper);
        :- SetKey(SshCommand, SshText(d));
      }
      return Pass;
    }
  }
}
