/** Composing a candidate declaration (`SetupProjectionService.candidate`): copied settings,
    discovered values, operator edits and derivations, every assignment with its provenance. */
module Composition {
  import opened Text
  import opened Pointer
  import opened Json
  import opened Provenance
  import opened Candidate

  const COPY := Record("copy_source", "effective")
  const DISCOVERED := Record("workspace_discovery", "effective")
  const DERIVED := Record("manager_derived", "effective")
  const UNRESOLVED := Record("manager_derived", "unresolved")
  const OVERRIDDEN := Record("operator_override", "effective")

  function Recommended(provisional: bool): Record {
    Record("manager_recommendation", if provisional then "provisional" else "effective")
  }

  const MODE: Keys := ["github", "mode"]
  const CONFIG_DIR: Keys := ["github", "config_dir"]
  const GH: Keys := ["github", "binary"]
  const AGENT_MODE: Keys := ["agent", "mode"]
  const SOCKET: Keys := ["agent", "ssh_auth_sock"]
  const PROFILE: Keys := ["tunnel", "profile"]
  const ID: Keys := ["instance_id"]

  /** Whether an adoptable remote is there, and what the provider it needs offers. */
  datatype Remote =
    | NotAdoptable
    | OverSsh(name: string, available: bool, socket: Option<string>)
    | OverHttps(name: string, available: bool, configDir: string, gh: Option<string>)

  datatype Suggested = Suggested(port: int, provisional: bool)

  /** What workspace discovery and the port projection found. */
  datatype Discovery = Discovery(
    workspace: string,
    suggestion: string,
    matched: Option<Value>,
    identity: Option<(string, string)>,
    remote: Remote,
    toolchain: Option<(string, seq<string>)>,
    mcpPort: Option<Suggested>,
    healthPort: Option<Suggested>)

  function Pair(k: string, v: string, l: string, w: string): Value { Obj([Field(k, Str(v)), Field(l, Str(w))]) }

  function Github(configDir: string, gh: string): Value {
    Obj([Field("mode", Str("external")), Field("config_dir", Str(configDir)), Field("binary", Str(gh))])
  }

  lemma PairIsProper(k: string, v: string, l: string, w: string)
    requires k != l
    ensures Proper(Pair(k, v, l, w))
  {
    ScalarProper(Str(v));
    ScalarProper(Str(w));
    PairProper(k, Str(v), l, Str(w));
  }

  lemma GithubIsProper(configDir: string, gh: string)
    ensures Proper(Github(configDir, gh))
  {
    var fields := Github(configDir, gh).fields;
    PairIsProper("config_dir", configDir, "binary", gh);
    assert fields[1..] == Pair("config_dir", configDir, "binary", gh).fields;
    ScalarProper(Str("external"));
    assert |fields[0].key| == 4 && |fields[1].key| == 10 && |fields[2].key| == 6;
  }

  function Strings(items: seq<string>): Value { Arr(seq(|items|, i requires 0 <= i < |items| => Str(items[i]))) }

  lemma {:induction false} StringsAreProper(items: seq<string>)
    ensures Proper(Strings(items))
  {
    if items != [] {
      StringsAreProper(items[1..]);
      assert Strings(items).items[1..] == Strings(items[1..]).items;
      ScalarProper(Str(items[0]));
    }
  }

  /** Python's truth of a JSON value. */
  predicate Truthy(v: Value) {
    match v
    case Null => false
    case Flag(b) => b
    case Number(n) => n != 0
    case Str(s) => s != ""
    case Arr(items) => items != []
    case Obj(fields) => fields != []
  }

  /** The value of the first edit that sets `/github/mode`. */
  function ModeEdit(edits: seq<FieldEdit>): Option<Value> {
    if edits == [] then None
    else if edits[0].Set? && edits[0].path == MODE then Some(edits[0].value)
    else ModeEdit(edits[1..])
  }

  /** `effective_github_mode == "managed"`. */
  predicate Managed(edits: seq<FieldEdit>, current: Option<Value>) {
    var edit := ModeEdit(edits);
    if edit.Some? && Truthy(edit.value) then edit.value == Str("managed") else current == Some(Str("managed"))
  }

  lemma {:induction false} TheModeEdit(edits: seq<FieldEdit>, e: FieldEdit)
    requires e in edits && e.path == MODE && Accepted(edits)
    ensures e.Set? && ModeEdit(edits) == Some(e.value)
  {
    NotClearable();
    if edits[0].path == MODE {
      var i :| 0 <= i < |edits| && edits[i] == e;
      assert i == 0;
    } else {
      assert Accepted(edits[1..]) by { assert forall f | f in edits[1..] :: f in edits; }
      TheModeEdit(edits[1..], e);
    }
  }

  lemma NotClearable()
    ensures MODE !in CLEARABLE
  {
    assert |"mode"| == 4;
  }

  // ---- frames ----

  /** Everything that is assigned after the workspace path. */
  const TOUCHED: set<Keys> := EDITABLE + {["access"], ["github"], ["agent"], PROFILE}

  /** What no derivation and no edit reaches. */
  ghost predicate Guarded(q: Keys) { q != [] && forall p | p in TOUCHED :: Independent(p, q) }

  ghost predicate GuardedSame(a: Value, b: Value) { forall q | Guarded(q) :: Get(b, q) == Get(a, q) }

  ghost predicate OnlyAt(a: Value, b: Value, path: Keys) {
    forall q | q != [] && Independent(path, q) :: Get(b, q) == Get(a, q)
  }

  lemma SiblingsApart(a: string, b: string, c: string)
    requires b != c
    ensures Independent([a, b], [a, c])
  {
    assert [a, c][..2] == [a, c] && [a, b][..2] == [a, b];
  }

  lemma FirstApart(p: Keys, q: Keys)
    requires p != [] && q != [] && p[0] != q[0]
    ensures Independent(p, q)
  {
  }

  lemma FixedAreGuarded()
    ensures Guarded(["workspace_path"]) && Guarded(["config_version"]) && Guarded(["lifecycle", "deployment"])
  {
    forall p | p in TOUCHED
      ensures Independent(p, ["workspace_path"]) && Independent(p, ["config_version"])
      ensures Independent(p, ["lifecycle", "deployment"])
    {
      TouchedFirst(p);
      FirstApart(p, ["workspace_path"]);
      FirstApart(p, ["config_version"]);
      if p == ["lifecycle", "runtime"] {
        SiblingsApart("lifecycle", "runtime", "deployment");
      } else {
        FirstApart(p, ["lifecycle", "deployment"]);
      }
    }
  }

  lemma TouchedFirst(p: Keys)
    requires p in TOUCHED
    ensures p != [] && p[0] != "workspace_path" && p[0] != "config_version"
    ensures p == ["lifecycle", "runtime"] || p[0] != "lifecycle"
  {
    assert p != [] && p[0] != "" && p[0][0] in {'i', 'l', 'm', 't', 'g', 'a', 'r'};
    assert p == ["lifecycle", "runtime"] || p[0][0] != 'l';
    hide TOUCHED, EDITABLE;
    assert "workspace_path"[0] == 'w' && "config_version"[0] == 'c' && "lifecycle"[0] == 'l';
  }

  lemma PutOnlyAt(v: Value, path: Keys, a: Value, create: bool)
    requires path != [] && Put(v, path, a, create).Some?
    ensures OnlyAt(v, Put(v, path, a, create).value, path)
    ensures Get(Put(v, path, a, create).value, path) == Some(a)
    ensures path in TOUCHED ==> GuardedSame(v, Put(v, path, a, create).value)
  {
    hide Put, Get, Independent, TOUCHED;
    GetPut(v, path, a, create);
    forall q | q != [] && Independent(path, q) ensures Get(Put(v, path, a, create).value, q) == Get(v, q) {
      GetOther(v, path, a, create, q);
    }
  }

  lemma GuardedChain(a: Value, b: Value, c: Value)
    requires GuardedSame(a, b) && GuardedSame(b, c)
    ensures GuardedSame(a, c)
  {
    hide Guarded, Get;
  }

  lemma PathsTouched()
    ensures forall p | p in EDITABLE :: p in TOUCHED
    ensures MODE in EDITABLE && CONFIG_DIR in EDITABLE && GH in EDITABLE && AGENT_MODE in EDITABLE && SOCKET in EDITABLE
    ensures ID in EDITABLE
    ensures PROFILE in TOUCHED && ["access"] in TOUCHED && ["github"] in TOUCHED && ["agent"] in TOUCHED
  {
  }

  /** Where an operator edit gives way to a derivation: the unused settings of a disabled profile
      and of an agent that is not external, which are cleared. */
  ghost predicate GivesWay(v: Value, path: Keys) {
    && Get(v, path) == Some(Null)
    && ((path in {CONFIG_DIR, GH} && Get(v, MODE) == Some(Str("disabled")))
        || (path == SOCKET && Get(v, AGENT_MODE) != Some(Str("external"))))
  }

  ghost predicate EditsInForce(v: Value, edits: seq<FieldEdit>) {
    forall e | e in edits :: Get(v, e.path) == Some(EditOf(e).value) || GivesWay(v, e.path)
  }

  class Composer {
    var candidate: Value
    var index: Index

    /** `_provenance_map`: of the template, or of a declaration that matches the workspace. */
    constructor (base: Value, record: Record)
      requires Proper(base)
      ensures candidate == base && Exact()
    {
      candidate := base;
      index := map k | k in LeafPointers(base, "") :: record;
    }

    ghost predicate Exact()
      reads this
    {
      Indexed(candidate, index)
    }

    /** An assignment with its provenance. */
    method Assign(path: Keys, value: Value, create: bool, record: Record) returns (o: Outcome)
      requires Exact() && path != [] && Proper(value)
      modifies this
      ensures Exact()
      ensures o.Pass? <==> Put(old(candidate), path, value, create).Some?
      ensures o.Pass? ==> Put(old(candidate), path, value, create) == Some(candidate)
      ensures o.Pass? ==> Get(candidate, path) == Some(value) && OnlyAt(old(candidate), candidate, path)
      ensures o.Pass? && path in TOUCHED ==> GuardedSame(old(candidate), candidate)
    {
      hide Indexed, Proper, Put, Mark, PointerOf, Get, OnlyAt, GuardedSame, TOUCHED;
      var next := Put(candidate, path, value, create);
      if next.None? { return Raise; }
      MarkedIsIndexed(candidate, index, path, value, create, record);
      PutOnlyAt(candidate, path, value, create);
      index := Mark(index, value, PointerOf(path), record);
      candidate := next.value;
      return Pass;
    }

    /** Settings of another declaration that may be reused, then its access list. */
    method CopyFrom(source: Value) returns (o: Outcome)
      requires Exact() && Proper(source)
      modifies this
      ensures Exact()
      ensures o.Pass? ==> GuardedSame(old(candidate), candidate)
      ensures o.Pass? ==> forall i | 0 <= i < |COPIED| :: Get(candidate, COPIED[i]) == Get(source, COPIED[i])
      ensures o.Pass? ==> Get(candidate, ["access"]) == Get(source, ["access"])
    {
      hide Exact, Proper, Get, Guarded, COPIED, TOUCHED, EDITABLE, Put;
      PathsTouched();
      for i := 0 to |COPIED|
        invariant Exact()
        invariant GuardedSame(old(candidate), candidate)
        invariant forall j | 0 <= j < i :: Get(candidate, COPIED[j]) == Get(source, COPIED[j])
      {
        var value := Get(source, COPIED[i]);
        if value.None? { return Raise; }
        GetProper(source, COPIED[i]);
        CopiedEditable(i);
        forall j | 0 <= j < i ensures COPIED[j] != [] && Independent(COPIED[i], COPIED[j]) { CopiedIndependent(i, j); }
        :- Assign(COPIED[i], value.value, false, COPY);
      }
      var access := Get(source, ["access"]);
      if access.None? { return Raise; }
      GetProper(source, ["access"]);
      forall j | 0 <= j < |COPIED| ensures COPIED[j] != [] && Independent(["access"], COPIED[j]) {
        CopiedEditable(j);
        AccessApart(COPIED[j]);
      }
      :- Assign(["access"], access.value, true, COPY);
      return Pass;
    }

    /** What discovery found in a workspace that no declaration matches. */
    method TakeDiscovered(found: Discovery) returns (o: Outcome)
      requires Exact()
      modifies this
      ensures Exact()
      ensures o.Pass? ==> GuardedSame(old(candidate), candidate)
    {
      hide Exact, Proper, Get, Guarded, TOUCHED, EDITABLE, CLEARABLE, COPIED, Put, OnlyAt, Pair, Strings;
      PathsTouched();
      MorePathsTouched();
      if found.identity.Some? {
        var (name, email) := found.identity.value;
        if name != "" && email != "" {
          PairIsProper("name", name, "email", email);
          :- Assign(["git", "identity"], Pair("name", name, "email", email), true, DISCOVERED);
        }
      }
      :- AdoptRemote(found.remote);
      if found.toolchain.Some? {
        var (execPath, roots) := found.toolchain.value;
        ScalarProper(Str(execPath));
        :- Assign(["mcp", "exec_path"], Str(execPath), true, DISCOVERED);
        StringsAreProper(roots);
        :- Assign(["mcp", "external_roots"], Strings(roots), true, DISCOVERED);
      }
      if found.mcpPort.Some? {
        ScalarProper(Number(found.mcpPort.value.port));
        :- Assign(["mcp", "port"], Number(found.mcpPort.value.port), true,
          Recommended(found.mcpPort.value.provisional));
      }
      if found.healthPort.Some? {
        ScalarProper(Number(found.healthPort.value.port));
        :- Assign(["tunnel", "health_port"], Number(found.healthPort.value.port), true,
          Recommended(found.healthPort.value.provisional));
      }
      return Pass;
    }

    /** A target remote that may be adopted, with the capability its protocol needs. */
    method AdoptRemote(remote: Remote) returns (o: Outcome)
      requires Exact()
      modifies this
      ensures Exact()
      ensures o.Pass? ==> GuardedSame(old(candidate), candidate)
    {
      hide Exact, Proper, Get, Guarded, TOUCHED, EDITABLE, CLEARABLE, COPIED, Put, OnlyAt, Pair, Github;
      PathsTouched();
      MorePathsTouched();
      match remote {
        case NotAdoptable => return Pass;
        case OverSsh(name, available, socket) =>
          if available {
            PairIsProper("name", name, "protocol", "ssh");
            :- Assign(["git", "remote"], Pair("name", name, "protocol", "ssh"), true, DISCOVERED);
            if socket.Some? && socket.value != "" {
              PairIsProper("mode", "external", "ssh_auth_sock", socket.value);
              :- Assign(["agent"], Pair("mode", "external", "ssh_auth_sock", socket.value), true, DERIVED);
            } else {
              :- MarkAgain(["agent"]);
            }
          }
        case OverHttps(name, available, configDir, gh) =>
          if available && gh.Some? && gh.value != "" {
            PairIsProper("name", name, "protocol", "https-gh");
            :- Assign(["git", "remote"], Pair("name", name, "protocol", "https-gh"), true, DISCOVERED);
            GithubIsProper(configDir, gh.value);
            :- Assign(["github"], Github(configDir, gh.value), true, DERIVED);
          }
      }
      return Pass;
    }

    /** New provenance for a value that stays. */
    method MarkAgain(path: Keys) returns (o: Outcome)
      requires Exact() && path != [] && path in TOUCHED
      modifies this
      ensures Exact()
      ensures o.Pass? ==> GuardedSame(old(candidate), candidate)
    {
      hide Indexed, Proper, Get, Guarded, TOUCHED, EDITABLE, Put, OnlyAt;
      var value := Get(candidate, path);
      if value.None? { return Raise; }
      IndexedProper(candidate, index);
      GetProper(candidate, path);
      o := Assign(path, value.value, true, DERIVED);
    }

    /** The field edits of the request, checked one by one and applied in order. */
    method FieldEdits(edits: seq<FieldEdit>) returns (o: Outcome)
      requires Exact() && forall e | e in edits && e.Set? :: Proper(e.value)
      modifies this
      ensures Exact()
      ensures o.Pass? <==> Admitted(old(candidate), edits)
      ensures o.Pass? ==>
                GuardedSame(old(candidate), candidate)
                  && ApplyEdits(Some(old(candidate)), EditsOf(edits)) == Some(candidate)
    {
      hide Exact, Proper, EDITABLE, CLEARABLE, TOUCHED, GuardedSame, Get, Put, OnlyAt, COPIED, Managed, EditOf;
      hide Independent, Accepted;
      hide ApplyEdits, Admitted;
      GuardedRefl(candidate);
      NoEdits(candidate, edits);
      PathsTouched();
      var managed := Managed(edits, Get(candidate, MODE));
      ghost var start := candidate;
      for i := 0 to |edits|
        invariant Exact() && Accepted(edits[..i]) && GuardedSame(start, candidate)
        invariant AllIndependent(EditsOf(edits[..i])) && ApplyEdits(Some(start), EditsOf(edits[..i])) == Some(candidate)
        invariant managed ==> forall e | e in edits[..i] :: e.path !in {CONFIG_DIR, GH}
      {
        var e := edits[i];
        NotAdmitted(start, edits, i);
        if e.path !in EDITABLE { return Raise; }
        if managed && e.path in {CONFIG_DIR, GH} { return Raise; }
        if exists j | 0 <= j < i :: edits[j].path == e.path { return Raise; }
        if e.Clear? && e.path !in CLEARABLE { return Raise; }
        NextEdit(edits, i);
        ghost var here := candidate;
        o := Assign(e.path, EditOf(e).value, false, OVERRIDDEN);
        if o.Raise? {
          FailingEdit(start, edits, i, here);
          return;
        }
        AppliedOne(Some(start), edits, i, here, candidate);
        GuardedChain(start, here, candidate);
      }
      assert edits[..|edits|] == edits;
      AllAdmitted(start, edits, candidate);
      return Pass;
    }

    /** Clears a setting that holds something. */
    method ClearUnused(path: Keys) returns (o: Outcome)
      requires Exact() && path != [] && path in TOUCHED
      modifies this
      ensures Exact() && o.Pass? && GuardedSame(old(candidate), candidate)
      ensures Get(candidate, path) == if Get(old(candidate), path).None? then None else Some(Null)
      ensures OnlyAt(old(candidate), candidate, path)
    {
      hide Exact, Proper, Guarded, TOUCHED, Put, Independent, Get;
      var value := Get(candidate, path);
      if value.Some? && value.value != Null {
        ScalarProper(Null);
        GetThenPut(candidate, path, Null);
        o := Assign(path, Null, true, DERIVED);
      } else {
        o := Pass;
      }
    }

    /** The profile settings that go with the GitHub mode. */
    method DeriveGithub(profileOf: string -> string, gh: Option<string>) returns (o: Outcome)
      requires Exact()
      modifies this
      ensures Exact()
      ensures o.Pass? ==> GuardedSame(old(candidate), candidate)
      ensures o.Pass? ==>
                forall q | q != [] && Independent(CONFIG_DIR, q) && Independent(GH, q) ::
                  Get(candidate, q) == Get(old(candidate), q)
      ensures o.Pass? ==> forall p | p in {CONFIG_DIR, GH} ::
        match Get(candidate, MODE) {
          case Some(Str("disabled")) => Get(candidate, p) == if Get(old(candidate), p).None? then None else Some(Null)
          case Some(Str("managed")) => Get(candidate, p).Some?
          case _ => Get(candidate, p) == Get(old(candidate), p)
        }
      ensures o.Pass? && Get(candidate, MODE) == Some(Str("managed")) ==>
        && Get(candidate, ID).Some? && Get(candidate, ID).value.Str? && Get(candidate, ID).value.s != ""
        && Get(candidate, CONFIG_DIR) == Some(Str(profileOf(Get(candidate, ID).value.s)))
        && Get(candidate, GH) == Some(if gh.None? then Null else Str(gh.value))
    {
      hide Exact, Proper, Guarded, TOUCHED, EDITABLE, CLEARABLE, Put, Independent, Get;
      PathsTouched();
      SettingsApart();
      var mode := Get(candidate, MODE);
      if mode == Some(Str("disabled")) {
        :- ClearUnused(CONFIG_DIR);
        :- ClearUnused(GH);
      } else if mode == Some(Str("managed")) {
        var id := Get(candidate, ID);
        // Any other value is refused by the validation that ends the composition.
        if id.None? || !id.value.Str? || id.value.s == "" { return Raise; }
        ScalarProper(Str(profileOf(id.value.s)));
        :- Assign(CONFIG_DIR, Str(profileOf(id.value.s)), true, DERIVED);
        var binary := if gh.None? then Null else Str(gh.value);
        ScalarProper(binary);
        :- Assign(GH, binary, true, if gh.Some? then DERIVED else UNRESOLVED);
      }
      return Pass;
    }

    /** Everything after the field edits; the tunnel profile follows the id unless a declaration matched. */
    method Derive(profileOf: string -> string, gh: Option<string>, access: Option<Value>, unmatched: bool)
      returns (o: Outcome)
      requires Exact() && (access.Some? ==> Proper(access.value))
      modifies this
      ensures Exact()
      ensures o.Pass? ==> GuardedSame(old(candidate), candidate)
      ensures o.Pass? ==> Kept(old(candidate), candidate)
      ensures o.Pass? && access.Some? ==> Get(candidate, ["access"]) == access
      ensures o.Pass? && unmatched ==>
        && Get(candidate, ID).Some? && Get(candidate, ID).value.Str?
        && Get(candidate, PROFILE) == Some(Str("workspace-mcp-" + Get(candidate, ID).value.s))
    {
      hide Exact, Proper, Guarded, TOUCHED, EDITABLE, CLEARABLE, Put, Independent, Get;
      PathsTouched();
      SettingsApart();
      ghost var start := candidate;
      :- DeriveGithub(profileOf, gh);
      ghost var one := candidate;
      if Get(candidate, AGENT_MODE) != Some(Str("external")) {
        :- ClearUnused(SOCKET);
      }
      ghost var two := candidate;
      KeptSoFar(start, one, two);
      if access.Some? {
        :- Assign(["access"], access.value, true, OVERRIDDEN);
      }
      ghost var three := candidate;
      if unmatched {
        var id := Get(candidate, ID);
        // Any other value is refused by the validation that ends the composition.
        if id.None? || !id.value.Str? { return Raise; }
        ScalarProper(Str("workspace-mcp-" + id.value.s));
        :- Assign(PROFILE, Str("workspace-mcp-" + id.value.s), true, DERIVED);
      }
      KeptAfter(start, two, three, candidate);
      return Pass;
    }

    /** The declaration the edits start from: the matching one, or the template with what was
        copied and discovered. */
    method Base(found: Discovery, source: Option<Value>, edits: seq<FieldEdit>) returns (o: Outcome)
      requires Exact() && (source.Some? ==> Proper(source.value))
      requires (found.matched.Some? ==> Proper(found.matched.value))
      modifies this
      ensures Exact()
      ensures o.Pass? && found.matched.Some? ==> candidate == found.matched.value
      ensures o.Pass? && found.matched.None? ==> Fixed(old(candidate), candidate, found.workspace)
    {
      hide Indexed, Proper, GuardedSame, TOUCHED, EDITABLE, COPIED, Put, Get, Managed, Fixed, OnlyAt;
      PathsTouched();
      ghost var start := candidate;
      if source.Some? { :- CopyFrom(source.value); }
      ghost var copied := candidate;
      GuardedRefl(start);
      ScalarProper(Str(found.workspace));
      :- Assign(["workspace_path"], Str(found.workspace), true, DISCOVERED);
      ghost var placed := candidate;
      ScalarProper(Str(found.suggestion));
      :- Assign(ID, Str(found.suggestion), true, DERIVED);
      if found.matched.Some? {
        candidate := found.matched.value;
        index := map k | k in LeafPointers(candidate, "") :: DISCOVERED;
        FreshIndex(candidate, index);
        if Get(candidate, MODE) == Some(Str("external")) && Managed(edits, Get(candidate, MODE)) { return Raise; }
      } else {
        ghost var named := candidate;
        :- TakeDiscovered(found);
        GuardedChain(placed, named, candidate);
        FixedFrom(start, copied, placed, candidate, found.workspace);
      }
      return Pass;
    }

    /** `candidate`, from the template defaults: the index stays exact whatever is found, copied,
        edited and derived, and an accepted edit is in force unless a derivation clears it. */
    method Compose(found: Discovery, source: Option<Value>, edits: seq<FieldEdit>, access: Option<Value>,
                   profileOf: string -> string, gh: Option<string>) returns (o: Outcome)
      requires Exact() && (source.Some? ==> Proper(source.value))
      requires (found.matched.Some? ==> Proper(found.matched.value))
      requires (forall e | e in edits && e.Set? :: Proper(e.value)) && (access.Some? ==> Proper(access.value))
      modifies this
      ensures Exact()
      ensures o.Pass? ==> Accepted(edits) && EditsInForce(candidate, edits)
      ensures o.Pass? && found.matched.Some? ==> Admitted(found.matched.value, edits)
      ensures o.Pass? && access.Some? ==> Get(candidate, ["access"]) == access
      ensures o.Pass? && found.matched.Some? ==> GuardedSame(found.matched.value, candidate)
      ensures o.Pass? && found.matched.None? ==> Fixed(old(candidate), candidate, found.workspace)
      ensures o.Pass? && found.matched.None? ==>
        && Get(candidate, ID).Some? && Get(candidate, ID).value.Str?
        && Get(candidate, PROFILE) == Some(Str("workspace-mcp-" + Get(candidate, ID).value.s))
    {
      hide Exact, Proper, GuardedSame, TOUCHED, EDITABLE, Get, Managed, Accepted, EditsInForce, Kept, ApplyEdits;
      hide AllIndependent, Fixed, Admitted;
      ghost var start := candidate;
      :- Base(found, source, edits);
      ghost var before := candidate;
      :- FieldEdits(edits);
      AdmittedMeans(before, edits);
      ghost var edited := candidate;
      :- Derive(profileOf, gh, access, found.matched.None?);
      InForce(before, edited, candidate, edits);
      GuardedChain(before, edited, candidate);
      if found.matched.None? { FixedStay(start, before, candidate, found.workspace); }
      return Pass;
    }
  }

  /** What a new candidate takes from the template and the workspace alone. */
  ghost predicate Fixed(start: Value, v: Value, workspace: string) {
    && Get(v, ["workspace_path"]) == Some(Str(workspace))
    && Get(v, ["config_version"]) == Get(start, ["config_version"])
    && Get(v, ["lifecycle", "deployment"]) == Get(start, ["lifecycle", "deployment"])
  }

  lemma GuardedRefl(v: Value)
    ensures GuardedSame(v, v)
  {
  }

  lemma FixedFrom(start: Value, copied: Value, placed: Value, v: Value, workspace: string)
    requires GuardedSame(start, copied) && OnlyAt(copied, placed, ["workspace_path"]) && GuardedSame(placed, v)
    requires Get(placed, ["workspace_path"]) == Some(Str(workspace))
    ensures Fixed(start, v, workspace)
  {
    hide Guarded, Get, Independent, TOUCHED, EDITABLE;
    FixedAreGuarded();
    WorkspaceApart();
  }

  lemma FixedStay(start: Value, before: Value, v: Value, workspace: string)
    requires Fixed(start, before, workspace) && GuardedSame(before, v)
    ensures Fixed(start, v, workspace)
  {
    hide Guarded, Get, TOUCHED, EDITABLE;
    FixedAreGuarded();
  }

  lemma FreshIndex(v: Value, index: Index)
    requires Proper(v) && index.Keys == LeafPointers(v, "")
    ensures Indexed(v, index)
  {
  }

  lemma WorkspaceApart()
    ensures Independent(["workspace_path"], ["config_version"])
    ensures Independent(["workspace_path"], ["lifecycle", "deployment"])
  {
    assert "workspace_path"[0] == 'w' && "config_version"[0] == 'c' && "lifecycle"[0] == 'l';
    FirstApart(["workspace_path"], ["config_version"]);
    FirstApart(["workspace_path"], ["lifecycle", "deployment"]);
  }

  lemma EditInForce(before: Value, edited: Value, edits: seq<FieldEdit>, e: FieldEdit)
    requires AllIndependent(EditsOf(edits)) && ApplyEdits(Some(before), EditsOf(edits)) == Some(edited) && e in edits
    ensures Get(edited, e.path) == Some(EditOf(e).value)
  {
    var i :| 0 <= i < |edits| && edits[i] == e;
    assert EditsOf(edits)[i] == EditOf(e);
    EditsHold(Some(before), EditsOf(edits), EditOf(e));
  }

  /** The mode is managed after the edits only if they were refused the managed settings. */
  lemma ManagedAfter(before: Value, edited: Value, edits: seq<FieldEdit>)
    requires Accepted(edits) && AllIndependent(EditsOf(edits))
    requires ApplyEdits(Some(before), EditsOf(edits)) == Some(edited)
    requires Get(edited, MODE) == Some(Str("managed"))
    ensures Managed(edits, Get(before, MODE))
  {
    hide EDITABLE, CLEARABLE, AllIndependent, Get, ApplyEdits, Independent;
    if e :| e in edits && e.path == MODE {
      EditInForce(before, edited, edits, e);
      TheModeEdit(edits, e);
    } else {
      NoModeEdit(edits);
      PathsTouched();
      forall f | f in EditsOf(edits) ensures f.path != [] && Independent(f.path, MODE) {
        var i :| 0 <= i < |EditsOf(edits)| && EditsOf(edits)[i] == f;
        assert edits[i] in edits;
        EditableIsShaped(f.path);
        EditableIndependent(f.path, MODE);
      }
      EditsElsewhere(Some(before), EditsOf(edits), MODE);
    }
  }

  lemma {:induction false} NoModeEdit(edits: seq<FieldEdit>)
    requires forall e | e in edits :: e.path != MODE
    ensures ModeEdit(edits) == None
  {
    if edits != [] {
      assert forall e | e in edits[1..] :: e in edits;
      NoModeEdit(edits[1..]);
    }
  }

  lemma InForce(before: Value, edited: Value, final: Value, edits: seq<FieldEdit>)
    requires Accepted(edits) && AllIndependent(EditsOf(edits))
    requires ApplyEdits(Some(before), EditsOf(edits)) == Some(edited)
    requires Managed(edits, Get(before, MODE)) ==> forall e | e in edits :: e.path !in {CONFIG_DIR, GH}
    requires Kept(edited, final)
    ensures EditsInForce(final, edits)
  {
    hide EDITABLE, CLEARABLE, AllIndependent, Get, ApplyEdits, Managed;
    PathsTouched();
    ModeStays(edited, final);
    forall e | e in edits ensures Get(final, e.path) == Some(EditOf(e).value) || GivesWay(final, e.path) {
      EditInForce(before, edited, edits, e);
      if e.path in {CONFIG_DIR, GH} && Get(final, MODE) == Some(Str("managed")) {
        ManagedAfter(before, edited, edits);
      }
    }
  }

  lemma ModeStays(edited: Value, final: Value)
    requires Kept(edited, final)
    ensures Get(final, MODE) == Get(edited, MODE)
  {
    hide EDITABLE, Get;
    PathsTouched();
    assert |"mode"| == 4 && |"binary"| == 6 && |"config_dir"| == 10 && |"ssh_auth_sock"| == 13;
    assert MODE[1] == "mode" && CONFIG_DIR[1] == "config_dir" && GH[1] == "binary" && SOCKET[1] == "ssh_auth_sock";
  }

  /** What the derivations leave of an edited setting. */
  ghost predicate Kept(a: Value, b: Value) {
    forall p | p in EDITABLE ::
      || Get(b, p) == Get(a, p)
      || (p in {CONFIG_DIR, GH} && Get(b, MODE) == Some(Str("managed")))
      || (Get(a, p).Some? && GivesWay(b, p))
  }

  lemma KeptSoFar(a: Value, b: Value, c: Value)
    requires forall q | q != [] && Independent(CONFIG_DIR, q) && Independent(GH, q) :: Get(b, q) == Get(a, q)
    requires forall p | p in {CONFIG_DIR, GH} :: Get(b, p) == Get(a, p) || Get(b, MODE) == Some(Str("managed"))
              || (Get(b, MODE) == Some(Str("disabled")) && Get(a, p).Some? && Get(b, p) == Some(Null))
    requires if Get(b, AGENT_MODE) == Some(Str("external")) then c == b
             else OnlyAt(b, c, SOCKET) && Get(c, SOCKET) == if Get(b, SOCKET).None? then None else Some(Null)
    ensures Kept(a, c)
  {
    hide EDITABLE, Get, Independent;
    SettingsApart();
    forall p | p in EDITABLE
      ensures Get(c, p) == Get(a, p) || (p in {CONFIG_DIR, GH} && Get(c, MODE) == Some(Str("managed")))
              || (Get(a, p).Some? && GivesWay(c, p))
    {
      if p !in {CONFIG_DIR, GH, SOCKET} { EditableElsewhere(p); }
    }
  }

  lemma KeptAfter(a: Value, b: Value, c: Value, d: Value)
    requires Kept(a, b) && (c == b || OnlyAt(b, c, ["access"])) && (d == c || OnlyAt(c, d, PROFILE))
    ensures Kept(a, d)
  {
    hide EDITABLE, Get, Independent;
    PathsTouched();
    forall p | p in EDITABLE ensures Get(d, p) == Get(b, p) {
      EditableElsewhere(p);
      AccessApart(p);
      ProfileApart(p);
    }
  }

  lemma EditableElsewhere(p: Keys)
    requires p in EDITABLE
    ensures p != []
    ensures p != CONFIG_DIR ==> Independent(CONFIG_DIR, p)
    ensures p != GH ==> Independent(GH, p)
    ensures p != SOCKET ==> Independent(SOCKET, p)
  {
    PathsTouched();
    EditableIsShaped(p);
    hide EDITABLE, Independent, TOUCHED;
    if p != CONFIG_DIR { EditableIndependent(CONFIG_DIR, p); }
    if p != GH { EditableIndependent(GH, p); }
    if p != SOCKET { EditableIndependent(SOCKET, p); }
  }

  lemma ProfileApart(p: Keys)
    requires p in EDITABLE
    ensures Independent(PROFILE, p)
  {
    assert p != ["tunnel"] && p != PROFILE by { assert |"profile"| == 7; }
    EditableIsShaped(p);
    hide EDITABLE;
    if |p| == 2 {
      assert PROFILE[..2] == PROFILE && p[..2] == p;
    } else {
      assert p[0][0] == 'i' && PROFILE[0][0] == 't';
      FirstApart(PROFILE, p);
    }
  }

  lemma SettingsApart()
    ensures Independent(CONFIG_DIR, GH) && Independent(GH, CONFIG_DIR)
    ensures Independent(CONFIG_DIR, MODE) && Independent(GH, MODE) && Independent(CONFIG_DIR, ID) && Independent(GH, ID)
    ensures Independent(CONFIG_DIR, AGENT_MODE) && Independent(GH, AGENT_MODE)
    ensures Independent(SOCKET, AGENT_MODE) && Independent(SOCKET, MODE) && Independent(SOCKET, ID)
    ensures Independent(SOCKET, CONFIG_DIR) && Independent(SOCKET, GH)
    ensures Independent(CONFIG_DIR, SOCKET) && Independent(GH, SOCKET)
    ensures Independent(PROFILE, ID) && Independent(PROFILE, ["access"])
  {
    assert |"mode"| == 4 && |"binary"| == 6 && |"config_dir"| == 10 && |"ssh_auth_sock"| == 13;
    hide Independent;
    SiblingsApart("github", "config_dir", "binary");
    SiblingsApart("github", "binary", "config_dir");
    SiblingsApart("github", "config_dir", "mode");
    SiblingsApart("github", "binary", "mode");
    SiblingsApart("agent", "ssh_auth_sock", "mode");
    assert "github"[0] == 'g' && "agent"[0] == 'a' && "instance_id"[0] == 'i' && "tunnel"[0] == 't'
      && "access"[0] == 'a';
    FirstApart(CONFIG_DIR, ID);
    FirstApart(GH, ID);
    FirstApart(CONFIG_DIR, AGENT_MODE);
    FirstApart(GH, AGENT_MODE);
    FirstApart(SOCKET, MODE);
    FirstApart(SOCKET, ID);
    FirstApart(SOCKET, CONFIG_DIR);
    FirstApart(SOCKET, GH);
    FirstApart(CONFIG_DIR, SOCKET);
    FirstApart(GH, SOCKET);
    FirstApart(PROFILE, ID);
    FirstApart(PROFILE, ["access"]);
  }

  /** A setting that is read can be assigned. */
  lemma {:induction false} GetThenPut(v: Value, path: Keys, a: Value)
    requires path != [] && Get(v, path).Some?
    ensures Put(v, path, a, true).Some?
    decreases |path|
  {
    if |path| > 1 { GetThenPut(ValueOf(v.fields, path[0]), path[1..], a); }
  }

  lemma NoEdits(v: Value, edits: seq<FieldEdit>)
    ensures Accepted(edits[..0]) && AllIndependent(EditsOf(edits[..0]))
    ensures ApplyEdits(Some(v), EditsOf(edits[..0])) == Some(v)
  {
  }

  /** What is accepted of the edits of a request, and can be applied. */
  ghost predicate Admitted(v: Value, edits: seq<FieldEdit>) {
    && Accepted(edits) && AllIndependent(EditsOf(edits))
    && (Managed(edits, Get(v, MODE)) ==> forall e | e in edits :: e.path !in {CONFIG_DIR, GH})
    && ApplyEdits(Some(v), EditsOf(edits)).Some?
  }

  lemma AdmittedMeans(v: Value, edits: seq<FieldEdit>)
    requires Admitted(v, edits)
    ensures Accepted(edits) && AllIndependent(EditsOf(edits)) && ApplyEdits(Some(v), EditsOf(edits)).Some?
    ensures Managed(edits, Get(v, MODE)) ==> forall e | e in edits :: e.path !in {CONFIG_DIR, GH}
  {
  }

  lemma AllAdmitted(v: Value, edits: seq<FieldEdit>, end: Value)
    requires Accepted(edits) && AllIndependent(EditsOf(edits)) && ApplyEdits(Some(v), EditsOf(edits)) == Some(end)
    requires Managed(edits, Get(v, MODE)) ==> forall e | e in edits :: e.path !in {CONFIG_DIR, GH}
    ensures Admitted(v, edits)
  {
  }

  lemma NotAdmitted(v: Value, edits: seq<FieldEdit>, i: nat)
    requires i < |edits|
    ensures edits[i].path !in EDITABLE || (edits[i].Clear? && edits[i].path !in CLEARABLE) ==> !Admitted(v, edits)
    ensures Managed(edits, Get(v, MODE)) && edits[i].path in {CONFIG_DIR, GH} ==> !Admitted(v, edits)
    ensures (exists j | 0 <= j < i :: edits[j].path == edits[i].path) ==> !Admitted(v, edits)
  {
    hide EDITABLE, CLEARABLE, Managed, AllIndependent, ApplyEdits;
    assert edits[i] in edits;
  }

  lemma {:induction false} FailureStays(edits: seq<Edit>)
    requires forall e | e in edits :: e.path != []
    ensures ApplyEdits(None, edits).None?
  {
    if edits != [] { FailureStays(edits[..|edits| - 1]); }
  }

  /** An edit that cannot be applied where its turn comes makes the whole list fail. */
  lemma FailingEdit(v: Value, edits: seq<FieldEdit>, i: nat, here: Value)
    requires i < |edits| && AllIndependent(EditsOf(edits[..i])) && AllIndependent(EditsOf(edits[..i + 1]))
    requires edits[i].path != []
    requires ApplyEdits(Some(v), EditsOf(edits[..i])) == Some(here)
    requires Put(here, edits[i].path, EditOf(edits[i]).value, false).None?
    ensures !Admitted(v, edits)
  {
    hide Put, Independent, Accepted, Managed;
    var all, first := EditsOf(edits), EditsOf(edits[..i + 1]);
    assert first[..i] == EditsOf(edits[..i]) && first[i] == EditOf(edits[i]);
    if AllIndependent(all) {
      assert all == first + all[i + 1..];
      ApplyConcat(Some(v), first, all[i + 1..]);
      FailureStays(all[i + 1..]);
    }
  }

  // ---- permutations ----

  lemma CountTwice<T>(b: seq<T>, i: nat, j: nat)
    requires i < j < |b| && b[i] == b[j]
    ensures multiset(b)[b[i]] >= 2
  {
    assert b == b[..i] + [b[i]] + b[i + 1..j] + [b[j]] + b[j + 1..];
  }

  lemma {:induction false} CountOnce<T>(a: seq<T>, x: T)
    requires forall i, j | 0 <= i < j < |a| :: a[i] != a[j]
    ensures multiset(a)[x] <= 1
  {
    if a != [] {
      var before, last := a[..|a| - 1], a[|a| - 1];
      CountOnce(before, x);
      assert a == before + [last];
      assert last !in before;
      assert multiset(before)[last] == 0;
    }
  }

  lemma AcceptedPermutes(a: seq<FieldEdit>, b: seq<FieldEdit>)
    requires multiset(a) == multiset(b) && Accepted(a)
    ensures Accepted(b)
  {
    hide EDITABLE, CLEARABLE;
    SameElements(a, b);
    forall i, j | 0 <= i < j < |b| ensures b[i].path != b[j].path {
      assert b[i] in a && b[j] in a;
      CountOnce(a, b[i]);
      if b[i] == b[j] { CountTwice(b, i, j); }
    }
  }

  lemma ModePermutes(a: seq<FieldEdit>, b: seq<FieldEdit>)
    requires multiset(a) == multiset(b) && Accepted(a) && Accepted(b)
    ensures ModeEdit(a) == ModeEdit(b)
  {
    hide EDITABLE, CLEARABLE, Accepted, ModeEdit;
    SameElements(a, b);
    if e :| e in a && e.path == MODE {
      TheModeEdit(a, e);
      TheModeEdit(b, e);
    } else {
      NoModeEdit(a);
      NoModeEdit(b);
    }
  }

  /** Every permutation of a list of edits is admitted or refused alike, with the same result. */
  lemma PermutationsAlike(v: Value, a: seq<FieldEdit>, b: seq<FieldEdit>)
    requires multiset(a) == multiset(b)
    ensures Admitted(v, a) <==> Admitted(v, b)
    ensures Admitted(v, a) ==> ApplyEdits(Some(v), EditsOf(a)) == ApplyEdits(Some(v), EditsOf(b))
  {
    if Accepted(a) || Accepted(b) {
      if Accepted(a) { AcceptedPermutes(a, b); } else { AcceptedPermutes(b, a); }
      SameElements(a, b);
      ModePermutes(a, b);
      hide Accepted, AllIndependent, ApplyEdits, Get;
      EditsCommute(v, a, b);
    }
  }

  lemma NextEdit(edits: seq<FieldEdit>, i: nat)
    requires i < |edits| && Accepted(edits[..i]) && edits[i].path in EDITABLE
    requires (edits[i].Clear? ==> edits[i].path in CLEARABLE)
    requires (forall j | 0 <= j < i :: edits[j].path != edits[i].path) && (edits[i].Set? ==> Proper(edits[i].value))
    ensures edits[i].path != [] && Accepted(edits[..i + 1]) && AllIndependent(EditsOf(edits[..i + 1]))
    ensures EditOf(edits[i]).path == edits[i].path && Proper(EditOf(edits[i]).value)
    ensures edits[..i + 1] == edits[..i] + [edits[i]]
  {
    hide EDITABLE, CLEARABLE, AllIndependent, Proper;
    EditableIsShaped(edits[i].path);
    OneMoreEdit(edits, i);
    AcceptedIndependent(edits[..i + 1]);
    EditIsProper(edits[i]);
  }

  lemma AppliedOne(v: Option<Value>, edits: seq<FieldEdit>, i: nat, before: Value, after: Value)
    requires i < |edits| && AllIndependent(EditsOf(edits[..i])) && AllIndependent(EditsOf(edits[..i + 1]))
    requires ApplyEdits(v, EditsOf(edits[..i])) == Some(before) && edits[i].path != []
    requires Put(before, edits[i].path, EditOf(edits[i]).value, false) == Some(after)
    ensures ApplyEdits(v, EditsOf(edits[..i + 1])) == Some(after)
  {
    hide Put, Independent;
    var es := EditsOf(edits[..i + 1]);
    assert es[..i] == EditsOf(edits[..i]);
    assert es[i] == EditOf(edits[i]);
  }

  lemma IndexedProper(v: Value, index: Index)
    requires Indexed(v, index)
    ensures Proper(v)
  {
  }

  lemma EditIsProper(e: FieldEdit)
    requires e.Set? ==> Proper(e.value)
    ensures EditOf(e).path == e.path && Proper(EditOf(e).value)
  {
    ScalarProper(Null);
  }

  lemma MorePathsTouched()
    ensures ["git", "identity"] in TOUCHED && ["git", "remote"] in TOUCHED && ["mcp", "exec_path"] in TOUCHED
    ensures ["mcp", "external_roots"] in TOUCHED && ["mcp", "port"] in TOUCHED && ["tunnel", "health_port"] in TOUCHED
  {
  }
}
