/** The resources one declaration generates (`generation.py`): identities, paths, kinds,
    modes, ownership evidence and unit flags. Rendered text is a body taken as given below
    the owner line. */
module Generation {
  import opened Text
  import opened Host

  const OWNER_PREFIX := "workspace-mcp-manager-instance="
  const FILE_MODE: nat := 0x180    // octal 600
  const PROGRAM_MODE: nat := 0x1ED // octal 755

  datatype Kind = Directory | PlainFile | SystemdUnit | TunnelProfile

  /** The resource identities of the source, one constructor each. */
  datatype Rid =
    | StateDir | StateOwner | ProfileDir | Profile | Launcher | McpUnit | TunnelUnit
    | GithubRoot | GithubDir | GithubOwner | CliHelper | AgentUnit
    | AccessRoot | AccessOwner | AccessIgnore | Mount(mode: string, alias: string)
    | GuardUnit | GuardTimer
  {
    predicate IsAccess() { AccessRoot? || AccessOwner? || AccessIgnore? || Mount? }
    predicate IsGuard() { GuardUnit? || GuardTimer? }
    predicate IsDevelopment() { CliHelper? || AgentUnit? }
    /** The identities a later declaration may drop while the instance stays. */
    predicate IsOptional() { IsAccess() || IsGuard() || IsDevelopment() }
    predicate IsShared() { ProfileDir? || GithubRoot? }
  }

  datatype Resource = Resource(
    id: Rid,
    kind: Kind,
    path: Path,
    mode: nat,
    content: Option<string>,
    token: Option<string>,
    marker: Option<Path>,
    unitName: Option<string>,
    enableWhenPresent: bool,
    activeWhenRunning: bool,
    removeWhenAbsent: bool)

  datatype Folder = Folder(mode: string, alias: string)

  datatype Protocol = Ssh | HttpsGh

  datatype Identity = Identity(name: string, email: string)

  datatype Remote = Remote(name: string, protocol: Protocol)

  datatype Desired = Desired(
    iid: string,
    configVersion: nat,
    present: bool,
    running: bool,
    home: Path,
    workspace: Path,
    profile: string,
    managedGithub: bool,
    identity: Option<Identity>,
    remote: Option<Remote>,
    sshSocket: string,
    managedAgent: bool,
    folders: seq<Folder>,
    guard: bool,
    bodies: map<string, string>)

  function OwnerToken(iid: string): string { OWNER_PREFIX + iid }

  function UnitPrefix(rid: Rid): string {
    match rid
    case McpUnit => "coding-tools-mcp-"
    case TunnelUnit => "tunnel-client-"
    case AgentUnit => "workspace-mcp-ssh-agent-"
    case _ => "workspace-mcp-admission-guard-"
  }

  function UnitName(iid: string, rid: Rid): string {
    UnitPrefix(rid) + iid + (if rid.GuardTimer? then ".timer" else ".service")
  }

  function StateHome(home: Path): Path { home + [".local", "state", "workspace-mcp-manager"] }
  function ConfigHome(home: Path): Path { home + [".config", "workspace-mcp-manager"] }
  function AccessHome(workspace: Path): Path { workspace + [".workspace-mcp-access"] }
  function StatePath(d: Desired): Path { StateHome(d.home) + ["instances", d.iid] }

  function PathOf(d: Desired, rid: Rid): Path {
    match rid
    case StateDir => StatePath(d)
    case StateOwner => StatePath(d) + [".owner"]
    case ProfileDir => ConfigHome(d.home) + ["tunnel-profiles"]
    case Profile => ConfigHome(d.home) + ["tunnel-profiles", d.profile + ".yaml"]
    case Launcher => d.home + [".local", "bin", d.iid + "-mcp"]
    case GithubRoot => ConfigHome(d.home) + ["github"]
    case GithubDir => ConfigHome(d.home) + ["github", d.iid]
    case GithubOwner => ConfigHome(d.home) + ["github", d.iid, ".owner"]
    case CliHelper => d.home + [".local", "bin", d.iid + "-git-credential-github"]
    case AccessRoot => AccessHome(d.workspace)
    case AccessOwner => AccessHome(d.workspace) + [".owner"]
    case AccessIgnore => AccessHome(d.workspace) + [".gitignore"]
    case Mount(_, alias) => AccessHome(d.workspace) + [alias]
    case _ => d.home + [".config", "systemd", "user", UnitName(d.iid, rid)]
  }

  function Body(d: Desired, key: string): string {
    "# " + OwnerToken(d.iid) + "\n" + (if key in d.bodies then d.bodies[key] else "")
  }

  function DirectoryResource(d: Desired, rid: Rid, marker: Rid): Resource {
    Resource(rid, Directory, PathOf(d, rid), PRIVATE, None, Some(OwnerToken(d.iid)), Some(PathOf(d, marker)),
             None, false, false, !rid.GithubDir?)
  }

  function OwnerResource(d: Desired, rid: Rid): Resource {
    Resource(rid, PlainFile, PathOf(d, rid), FILE_MODE, Some(OwnerToken(d.iid) + "\n"), Some(OwnerToken(d.iid)), None,
             None, false, false, !rid.GithubOwner?)
  }

  function UnitResource(d: Desired, rid: Rid, key: string): Resource {
    Resource(rid, SystemdUnit, PathOf(d, rid), FILE_MODE, Some(Body(d, key)), Some(OwnerToken(d.iid)), None,
             Some(UnitName(d.iid, rid)), !rid.GuardUnit?, !rid.GuardUnit?, true)
  }

  function FileResource(d: Desired, rid: Rid, kind: Kind, mode: nat, key: string): Resource {
    Resource(rid, kind, PathOf(d, rid), mode, Some(Body(d, key)), Some(OwnerToken(d.iid)), None, None, false, false,
      true)
  }

  function SharedDirectory(d: Desired, rid: Rid): Resource {
    Resource(rid, Directory, PathOf(d, rid), PRIVATE, None, None, None, None, false, false, false)
  }

  function ResourceOf(d: Desired, rid: Rid): Resource {
    match rid
    case StateDir => DirectoryResource(d, rid, StateOwner)
    case StateOwner => OwnerResource(d, rid)
    case ProfileDir => SharedDirectory(d, rid)
    case Profile => FileResource(d, rid, TunnelProfile, FILE_MODE, "profile")
    case Launcher => FileResource(d, rid, PlainFile, PROGRAM_MODE, "launcher")
    case McpUnit => UnitResource(d, rid, "mcp")
    case TunnelUnit => UnitResource(d, rid, "tunnel")
    case GithubRoot => SharedDirectory(d, rid)
    case GithubDir => DirectoryResource(d, rid, GithubOwner)
    case GithubOwner => OwnerResource(d, rid)
    case CliHelper => FileResource(d, rid, PlainFile, PROGRAM_MODE, "helper")
    case AgentUnit => UnitResource(d, rid, "agent")
    case AccessRoot => DirectoryResource(d, rid, AccessOwner)
    case AccessOwner => OwnerResource(d, rid)
    case AccessIgnore => Resource(rid, PlainFile, PathOf(d, rid), FILE_MODE, Some("*\n"), Some(OwnerToken(d.iid)),
                                  Some(PathOf(d, AccessOwner)), None, false, false, true)
    case Mount(_, _) => DirectoryResource(d, rid, AccessOwner)
    case GuardUnit => UnitResource(d, rid, "guard")
    case GuardTimer => UnitResource(d, rid, "timer")
  }

  function Mounts(folders: seq<Folder>): (ids: seq<Rid>)
    ensures |ids| == |folders|
    ensures forall i | 0 <= i < |ids| :: ids[i] == Mount(folders[i].mode, folders[i].alias)
  {
    if folders == [] then [] else [Mount(folders[0].mode, folders[0].alias)] + Mounts(folders[1..])
  }

  function BaseIds(): seq<Rid> { [StateDir, StateOwner, ProfileDir, Profile, Launcher, McpUnit, TunnelUnit] }

  function When(condition: bool, ids: seq<Rid>): seq<Rid> {
    if condition then ids else []
  }

  function DevelopmentIds(d: Desired): seq<Rid> {
    When(d.configVersion >= 2 && d.managedGithub, [GithubRoot, GithubDir, GithubOwner])
    + When(d.configVersion >= 2 && d.remote.Some? && d.remote.value.protocol.HttpsGh?, [CliHelper])
    + When(d.configVersion >= 2 && d.managedAgent, [AgentUnit])
  }

  function AccessIds(d: Desired): seq<Rid> {
    When(d.folders != [], [AccessRoot, AccessOwner, AccessIgnore] + Mounts(d.folders))
  }

  /** Which identities a declaration generates, in bundle order. */
  function Ids(d: Desired): seq<Rid> {
    BaseIds() + DevelopmentIds(d) + AccessIds(d) + When(d.guard, [GuardUnit, GuardTimer])
  }

  /** Membership in the bundle, read off the declaration. */
  predicate Wanted(d: Desired, rid: Rid) {
    match rid
    case GithubRoot => d.configVersion >= 2 && d.managedGithub
    case GithubDir => d.configVersion >= 2 && d.managedGithub
    case GithubOwner => d.configVersion >= 2 && d.managedGithub
    case CliHelper => d.configVersion >= 2 && d.remote.Some? && d.remote.value.protocol.HttpsGh?
    case AgentUnit => d.configVersion >= 2 && d.managedAgent
    case AccessRoot => d.folders != []
    case AccessOwner => d.folders != []
    case AccessIgnore => d.folders != []
    case Mount(mode, alias) => Folder(mode, alias) in d.folders
    case GuardUnit => d.guard
    case GuardTimer => d.guard
    case _ => true
  }

  function Generate(d: Desired): (b: seq<Resource>)
    ensures |b| == |Ids(d)|
    ensures forall i | 0 <= i < |b| :: b[i] == ResourceOf(d, Ids(d)[i])
  {
    seq(|Ids(d)|, i requires 0 <= i < |Ids(d)| => ResourceOf(d, Ids(d)[i]))
  }

  predicate AliasChar(c: char) { 'a' <= c <= 'z' || 'A' <= c <= 'Z' || '0' <= c <= '9' || c == '-' || c == '_' }
  predicate Separator(c: char) { c == '-' || c == '_' }

  /** `ACCESS_ALIAS_RE`: letters and digits, with single hyphens or underscores between them. */
  predicate AliasOk(alias: string) {
    && alias != "" && !Separator(alias[0]) && !Separator(alias[|alias| - 1])
    && (forall c | c in alias :: AliasChar(c))
    && (forall i | 0 < i < |alias| && Separator(alias[i]) :: !Separator(alias[i - 1]))
  }

  /** What `domain.py` and the host preconditions admit, as far as it matters here. */
  predicate ValidDesired(d: Desired) {
    && d.iid != "" && (forall c | c in d.iid :: 'a' <= c <= 'z' || '0' <= c <= '9' || c == '-')
    && d.profile != "" && d.profile[0] != '.' && '\r' !in d.profile
    && (forall f | f in d.folders :: f.mode in ["ro", "rx", "rw", "rwx"] && AliasOk(f.alias))
    && (forall i, j | 0 <= i < j < |d.folders| :: d.folders[i].alias != d.folders[j].alias)
    && (forall k | k in d.bodies :: '\r' !in d.bodies[k])
    && (d.running ==> d.present)
  }

  lemma MountsMembership(folders: seq<Folder>, rid: Rid)
    ensures rid in Mounts(folders) <==> rid.Mount? && Folder(rid.mode, rid.alias) in folders
  {
    if rid in Mounts(folders) {
      var i :| 0 <= i < |folders| && Mounts(folders)[i] == rid;
      assert folders[i] == Folder(rid.mode, rid.alias);
    }
    if rid.Mount? && Folder(rid.mode, rid.alias) in folders {
      var i :| 0 <= i < |folders| && folders[i] == Folder(rid.mode, rid.alias);
      assert Mounts(folders)[i] == rid;
    }
  }

  predicate IsBase(rid: Rid) {
    rid.StateDir? || rid.StateOwner? || rid.ProfileDir? || rid.Profile? || rid.Launcher? || rid.McpUnit?
      || rid.TunnelUnit?
  }

  lemma BaseIdsMembership(rid: Rid)
    ensures rid in BaseIds() <==> IsBase(rid)
  {
    var ids := BaseIds();
    assert ids[0] == StateDir && ids[1] == StateOwner && ids[2] == ProfileDir && ids[3] == Profile;
    assert ids[4] == Launcher && ids[5] == McpUnit && ids[6] == TunnelUnit;
  }

  lemma InConcat<T>(a: seq<T>, b: seq<T>, x: T)
    ensures x in a + b <==> x in a || x in b
  {
  }

  lemma AccessIdsMembership(d: Desired, rid: Rid)
    ensures rid in AccessIds(d) <==> rid.IsAccess() && Wanted(d, rid)
  {
    MountsMembership(d.folders, rid);
    InConcat([AccessRoot, AccessOwner, AccessIgnore], Mounts(d.folders), rid);
  }

  predicate IsGithub(rid: Rid) { rid.GithubRoot? || rid.GithubDir? || rid.GithubOwner? }

  lemma DevelopmentIdsMembership(d: Desired, rid: Rid)
    ensures rid in DevelopmentIds(d) <==> (IsGithub(rid) || rid.IsDevelopment()) && Wanted(d, rid)
  {
    var github := When(d.configVersion >= 2 && d.managedGithub, [GithubRoot, GithubDir, GithubOwner]);
    var helper := When(d.configVersion >= 2 && d.remote.Some? && d.remote.value.protocol.HttpsGh?, [CliHelper]);
    var agent := When(d.configVersion >= 2 && d.managedAgent, [AgentUnit]);
    InConcat(github, helper, rid);
    InConcat(github + helper, agent, rid);
  }

  lemma WantedIsGenerated(d: Desired, rid: Rid)
    ensures rid in Ids(d) <==> Wanted(d, rid)
  {
    BaseIdsMembership(rid);
    DevelopmentIdsMembership(d, rid);
    AccessIdsMembership(d, rid);
    var base, dev, acc, guard := BaseIds(), DevelopmentIds(d), AccessIds(d), When(d.guard, [GuardUnit, GuardTimer]);
    assert rid in guard <==> d.guard && rid.IsGuard();
    InConcat(base, dev, rid);
    InConcat(base + dev, acc, rid);
    InConcat(base + dev + acc, guard, rid);
  }

  lemma ResourceInBundle(d: Desired, rid: Rid)
    requires Wanted(d, rid)
    ensures ResourceOf(d, rid) in Generate(d)
  {
    WantedIsGenerated(d, rid);
    var i :| 0 <= i < |Ids(d)| && Ids(d)[i] == rid;
    assert Generate(d)[i] == ResourceOf(d, rid);
  }

  lemma ResourceShape(d: Desired, rid: Rid)
    ensures ResourceOf(d, rid).id == rid && ResourceOf(d, rid).path == PathOf(d, rid)
  {
  }

  lemma BundleMember(d: Desired, r: Resource)
    requires r in Generate(d)
    ensures r == ResourceOf(d, r.id) && Wanted(d, r.id) && r.id in Ids(d) && r.path == PathOf(d, r.id)
  {
    hide Ids, ResourceOf, PathOf, Wanted;
    var i :| 0 <= i < |Generate(d)| && Generate(d)[i] == r;
    ResourceShape(d, Ids(d)[i]);
    WantedIsGenerated(d, Ids(d)[i]);
  }
}
