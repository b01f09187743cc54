/** GitHub remote URLs (`development_environment.py`): which repository a URL names, and the
    canonical spelling of a repository for each protocol. */
module GitHubUrl {
  import opened Text
  import opened Generation

  predicate IsBreak(c: char) { c == '\t' || c == '\r' || c == '\n' }

  /** The first index of one of `stops` at or after `from`, or the length. */
  function Find(s: string, stops: string, from: nat): (i: nat)
    requires from <= |s|
    ensures from <= i <= |s|
    ensures forall k | from <= k < i :: s[k] !in stops
    ensures i < |s| ==> s[i] in stops
    decreases |s| - from
  {
    if from == |s| || s[from] in stops then from else Find(s, stops, from + 1)
  }

  function FindLast(s: string, c: char): (i: int)
    ensures -1 <= i < |s|
    ensures forall k | i < k < |s| :: s[k] != c
    ensures i >= 0 ==> s[i] == c
  {
    if s == "" then -1 else if s[|s| - 1] == c then |s| - 1 else FindLast(s[..|s| - 1], c)
  }

  /** `urlsplit` drops tabs and line breaks anywhere in a URL. */
  function Unbroken(s: string): string {
    if s == "" then ""
    else (if IsBreak(s[0]) then "" else [s[0]]) + Unbroken(s[1..])
  }

  predicate SchemeChars(s: string) {
    s != "" && ('a' <= s[0] <= 'z' || 'A' <= s[0] <= 'Z')
    && forall c | c in s :: 'a' <= c <= 'z' || 'A' <= c <= 'Z' || '0' <= c <= '9' || c in "+-."
  }

  datatype Url = Url(scheme: string, user: Option<string>, password: Option<string>, host: string, path: string)

  /** The scheme and what follows its colon. */
  function SplitScheme(url: string): (string, string) {
    var colon := Find(url, ":", 0);
    if colon < |url| && SchemeChars(url[..colon]) then (Lower(url[..colon]), url[colon + 1..]) else ("", url)
  }

  /** The network location and what follows it. */
  function SplitHost(rest: string): (string, string) {
    if StartsWith(rest, "//") then
      var stop := Find(rest, "/?#", 2);
      (rest[2..stop], rest[stop..])
    else ("", rest)
  }

  /** Where the fragment and the query are cut off. */
  function BeforeQuery(plain: string): string {
    var beforeFragment := plain[..Find(plain, "#", 0)];
    beforeFragment[..Find(beforeFragment, "?", 0)]
  }

  function User(netloc: string): Option<string> {
    var at := FindLast(netloc, '@');
    if at < 0 then None else Some(netloc[..Find(netloc[..at], ":", 0)])
  }

  function Password(netloc: string): Option<string> {
    var at := FindLast(netloc, '@');
    if at < 0 then None
    else
      var colon := Find(netloc[..at], ":", 0);
      if colon == at then None else Some(netloc[colon + 1..at])
  }

  function HostName(netloc: string): string {
    var hostPort := netloc[FindLast(netloc, '@') + 1..];
    Lower(hostPort[..Find(hostPort, ":", 0)])
  }

  /** The parts of `urlparse` the manager looks at. */
  function ParseUrl(text: string): Url {
    var (scheme, rest) := SplitScheme(Unbroken(text));
    var (netloc, plain) := SplitHost(rest);
    var path := BeforeQuery(plain);
    Url(scheme, User(netloc), Password(netloc), HostName(netloc),
        if scheme == "https" then WithoutParameters(path) else path)
  }

  /** `urlparse` cuts `;parameters` off the last segment of an https path. */
  function WithoutParameters(path: string): string {
    var slash := FindLast(path, '/');
    path[..Find(path, ";", if slash < 0 then 0 else slash)]
  }

  function StripSlashes(s: string): string {
    if s != "" && s[0] == '/' then StripSlashes(s[1..]) else s
  }

  function WithoutGit(path: string): string {
    if EndsWith(path, ".git") then path[..|path| - 4] else path
  }

  predicate Piece(s: string) { s != "" && s != "." && s != ".." && '/' !in s }

  /** `owner/name` with two proper pieces. */
  predicate TwoPieces(path: string) {
    var slash := Find(path, "/", 0);
    slash < |path| && Piece(path[..slash]) && Piece(path[slash + 1..])
  }

  const SCP := "git@github.com:"
  const HTTPS := "https://github.com/"

  function RawPath(value: string): Option<string> {
    if StartsWith(value, SCP) then Some(value[|SCP|..])
    else if Contains(value, "://") then
      var url := ParseUrl(value);
      if url.host != "github.com" || url.password.Some? then None
      else if url.scheme == "https" && url.user.Some? then None
      else if url.scheme == "ssh" && url.user.Some? && url.user.value != "git" then None
      else if url.scheme != "https" && url.scheme != "ssh" then None
      else Some(StripSlashes(url.path))
    else None
  }

  /** `_github_repo_path`: the repository a remote URL names on GitHub, if it names one. */
  function RepoPath(text: string): (r: Option<string>)
    ensures r.Some? ==> TwoPieces(r.value)
  {
    var raw := RawPath(Strip(text));
    if raw.None? then None
    else
      var path := WithoutGit(raw.value);
      if TwoPieces(path) then Some(path) else None
  }

  /** `_github_remote_protocol`. */
  function RemoteProtocol(text: string): Option<Protocol> {
    var value := Strip(text);
    if RepoPath(value).None? then None
    else if StartsWith(value, SCP) then Some(Ssh)
    else match ParseUrl(value).scheme
      case "ssh" => Some(Ssh)
      case "https" => Some(HttpsGh)
      case _ => None
  }

  /** `canonical_github_url`. */
  function Canonical(repo: string, protocol: Protocol): string {
    (if protocol.Ssh? then SCP else HTTPS) + repo + ".git"
  }

  /** The repository names an https URL can carry: nothing in them reads as a query, a
      fragment, parameters of the last segment, or a line break. */
  predicate HttpsSafe(repo: string) {
    (forall c | c in repo :: !IsBreak(c) && c != '?' && c != '#') && ';' !in repo[FindLast(repo, '/') + 1..]
  }

  predicate Spellable(repo: string, protocol: Protocol) {
    protocol.Ssh? || HttpsSafe(repo)
  }

  // ---- the canonical URL of a repository names that repository ----

  lemma StripKeeps(s: string)
    requires s != "" && !IsSpace(s[0]) && !IsSpace(s[|s| - 1])
    ensures Strip(s) == s
  {
  }

  lemma GitSuffixInverse(repo: string)
    ensures WithoutGit(repo + ".git") == repo
  {
    var s := repo + ".git";
    assert s[|s| - 4..] == ".git" && s[..|s| - 4] == repo;
  }

  lemma SshCanonicalNames(repo: string)
    requires TwoPieces(repo)
    ensures RepoPath(Canonical(repo, Ssh)) == Some(repo)
  {
    var url := Canonical(repo, Ssh);
    StripKeeps(url);
    assert url[..|SCP|] == SCP;
    assert url[|SCP|..] == repo + ".git";
    GitSuffixInverse(repo);
  }

  lemma {:induction false} UnbrokenConcat(a: string, b: string)
    ensures Unbroken(a + b) == Unbroken(a) + Unbroken(b)
  {
    if a == "" {
      assert a + b == b;
    } else {
      assert (a + b)[1..] == a[1..] + b;
      UnbrokenConcat(a[1..], b);
    }
  }

  predicate NoBreaks(s: string) { forall c | c in s :: !IsBreak(c) }

  lemma {:induction false} UnbrokenShape(s: string)
    ensures NoBreaks(Unbroken(s)) && forall c | c in Unbroken(s) :: c in s
    ensures NoBreaks(s) ==> Unbroken(s) == s
  {
    if s != "" {
      UnbrokenShape(s[1..]);
      assert s == [s[0]] + s[1..];
    }
  }

  lemma FindIs(s: string, stops: string, from: nat, i: nat)
    requires from <= i <= |s|
    requires forall k | from <= k < i :: s[k] !in stops
    requires i < |s| ==> s[i] in stops
    ensures Find(s, stops, from) == i
  {
  }

  lemma SchemeOfHttps(rest: string)
    ensures SplitScheme("https:" + rest) == ("https", rest)
  {
    var url := "https:" + rest;
    assert url[..5] == "https" && url[6..] == rest;
    FindIs(url, ":", 0, 5);
    assert Lower("https") == "https";
  }

  lemma HostOfGitHub(x: string)
    ensures SplitHost("//github.com/" + x) == ("github.com", "/" + x)
  {
    var rest := "//github.com/" + x;
    assert rest[..2] == "//" && rest[2..12] == "github.com" && rest[12..] == "/" + x;
    FindIs(rest, "/?#", 2, 12);
  }

  lemma AuthorityOfGitHub()
    ensures User("github.com").None? && Password("github.com").None? && HostName("github.com") == "github.com"
  {
    var netloc := "github.com";
    assert FindLast(netloc, '@') == -1;
    assert netloc[0..] == netloc && netloc[..10] == netloc;
    FindIs(netloc, ":", 0, 10);
  }

  lemma HttpsHasNoBreaks()
    ensures NoBreaks(HTTPS)
  {
    forall i | 0 <= i < |HTTPS| ensures !IsBreak(HTTPS[i]) {}
  }

  lemma HttpsUnbroken(x: string)
    requires NoBreaks(x)
    ensures Unbroken(HTTPS + x) == HTTPS + x
  {
    UnbrokenConcat(HTTPS, x);
    UnbrokenShape(x);
    HttpsHasNoBreaks();
    UnbrokenShape(HTTPS);
  }

  lemma HttpsParses(x: string)
    requires NoBreaks(x)
    ensures ParseUrl(HTTPS + x) == Url("https", None, None, "github.com", WithoutParameters(BeforeQuery("/" + x)))
  {
    hide Unbroken, SplitScheme, SplitHost, User, Password, HostName, WithoutParameters, BeforeQuery;
    HttpsUnbroken(x);
    assert HTTPS + x == "https:" + ("//github.com/" + x);
    SchemeOfHttps("//github.com/" + x);
    HostOfGitHub(x);
    AuthorityOfGitHub();
  }

  lemma CanonicalUnbroken(repo: string)
    ensures Unbroken(Canonical(repo, HttpsGh)) == HTTPS + (Unbroken(repo) + ".git")
    ensures NoBreaks(Unbroken(repo) + ".git")
  {
    assert Unbroken(".git") == ".git" by { UnbrokenShape(".git"); }
    UnbrokenConcat(repo, ".git");
    assert Canonical(repo, HttpsGh) == HTTPS + (repo + ".git");
    UnbrokenConcat(HTTPS, repo + ".git");
    HttpsHasNoBreaks();
    UnbrokenShape(HTTPS);
    UnbrokenShape(repo);
    assert NoBreaks(".git");
  }

  lemma ParseIgnoresBreaks(a: string, b: string)
    requires Unbroken(a) == Unbroken(b)
    ensures ParseUrl(a) == ParseUrl(b)
  {
  }

  /** Tabs and line breaks vanish before a URL is taken apart. */
  lemma CanonicalParses(repo: string)
    ensures ParseUrl(Canonical(repo, HttpsGh))
         == Url("https", None, None, "github.com", WithoutParameters(BeforeQuery("/" + (Unbroken(repo) + ".git"))))
  {
    var x := Unbroken(repo) + ".git";
    CanonicalUnbroken(repo);
    HttpsUnbroken(x);
    ParseIgnoresBreaks(Canonical(repo, HttpsGh), HTTPS + x);
    HttpsParses(x);
  }

  lemma CanonicalRaw(repo: string)
    ensures RawPath(Strip(Canonical(repo, HttpsGh)))
         == Some(StripSlashes(WithoutParameters(BeforeQuery("/" + (Unbroken(repo) + ".git")))))
  {
    var url := Canonical(repo, HttpsGh);
    assert url[0] == 'h' && url[|url| - 1] == 't';
    StripKeeps(url);
    assert !StartsWith(url, SCP) by { assert url[..|SCP|][0] == 'h'; }
    assert OccursAt(url, "://", 5);
    CanonicalParses(repo);
  }

  lemma FindNone(s: string, stops: string, from: nat)
    requires from <= |s| && forall k | from <= k < |s| :: s[k] !in stops
    ensures Find(s, stops, from) == |s|
  {
    FindIs(s, stops, from, |s|);
  }

  predicate NoQuery(s: string) { forall c | c in s :: c != '?' && c != '#' }

  lemma QueryKept(path: string)
    requires NoQuery(path)
    ensures BeforeQuery(path) == path
  {
    assert forall k | 0 <= k < |path| :: path[k] in path;
    FindNone(path, "#", 0);
    assert path[..|path|] == path;
    FindNone(path, "?", 0);
  }

  lemma ParametersKept(repo: string)
    requires TwoPieces(repo) && ';' !in repo[FindLast(repo, '/') + 1..]
    ensures WithoutParameters("/" + (repo + ".git")) == "/" + (repo + ".git")
  {
    var path := "/" + (repo + ".git");
    LastSlash(repo);
    var slash := Find(repo, "/", 0);
    assert path[slash + 1] == repo[slash] == '/';
    forall k | slash + 1 < k < |path| ensures path[k] != '/' && path[k] != ';' {
      if k <= |repo| {
        assert path[k] == repo[slash + 1..][k - slash - 2];
      } else {
        assert path[k] == ".git"[k - |repo| - 1];
      }
    }
    assert FindLast(path, '/') == slash + 1;
    FindNone(path, ";", slash + 1);
  }

  lemma SafeRepoSurvives(repo: string)
    requires TwoPieces(repo) && HttpsSafe(repo)
    ensures StripSlashes(WithoutParameters(BeforeQuery("/" + (repo + ".git")))) == repo + ".git"
  {
    var path := "/" + (repo + ".git");
    assert NoQuery("/") && NoQuery(repo) && NoQuery(".git");
    assert NoQuery(repo + ".git");
    QueryKept(path);
    ParametersKept(repo);
    assert path[1..] == repo + ".git";
    var slash := Find(repo, "/", 0);
    assert repo[0] != '/' by { assert repo[..slash] != ""; assert repo[0] == repo[..slash][0]; }
  }

  lemma LastSlash(repo: string)
    requires TwoPieces(repo)
    ensures FindLast(repo, '/') == Find(repo, "/", 0)
  {
    var slash := Find(repo, "/", 0);
    var last := FindLast(repo, '/');
    assert repo[slash] == '/';
    assert forall k | slash < k < |repo| :: repo[k] == repo[slash + 1..][k - slash - 1];
  }

  /** Whatever path survives the cuts can be spelled in an https URL. */
  predicate Cut(s: string) {
    (forall c | c in s :: c != '?' && c != '#') && forall k | FindLast(s, '/') < k < |s| :: s[k] != ';'
  }

  lemma CutsAreCut(plain: string)
    requires plain != "" && plain[0] == '/'
    ensures Cut(WithoutParameters(BeforeQuery(plain)))
    ensures forall c | c in WithoutParameters(BeforeQuery(plain)) :: c in plain
  {
    var path := BeforeQuery(plain);
    assert path != "" && path[0] == '/';
    forall c | c in path ensures c != '?' && c != '#' && c in plain {
      var k :| 0 <= k < |path| && path[k] == c;
      assert plain[k] == c;
    }
    var slash := FindLast(path, '/');
    assert slash >= 0;
    var r := WithoutParameters(path);
    assert r == path[..|r|] && slash < |r|;
    var last := FindLast(r, '/');
    assert last >= slash by { assert r[slash] == '/'; }
  }

  lemma {:induction false} StripSlashesCut(s: string)
    requires Cut(s)
    ensures Cut(StripSlashes(s)) && forall c | c in StripSlashes(s) :: c in s
  {
    if s != "" && s[0] == '/' {
      var rest := s[1..];
      assert forall c | c in rest :: c in s;
      assert FindLast(rest, '/') == FindLast(s, '/') - 1 by { LastTail(s); }
      forall k | FindLast(rest, '/') < k < |rest| ensures rest[k] != ';' {
        assert rest[k] == s[k + 1];
      }
      StripSlashesCut(rest);
    }
  }

  lemma LastTail(s: string)
    requires s != "" && s[0] == '/'
    ensures FindLast(s[1..], '/') == FindLast(s, '/') - 1
  {
    var f, g := FindLast(s, '/'), FindLast(s[1..], '/');
    assert g >= 0 ==> s[g + 1] == '/';
    assert f >= 1 ==> s[1..][f - 1] == '/';
    assert f >= 0;
  }

  /** The raw path of a canonical https URL can itself be spelled. */
  lemma CanonicalRawIsCut(repo: string)
    ensures var raw := RawPath(Strip(Canonical(repo, HttpsGh)));
            raw.Some? && Cut(raw.value) && NoBreaks(raw.value)
  {
    CanonicalRaw(repo);
    var plain := "/" + (Unbroken(repo) + ".git");
    CanonicalUnbroken(repo);
    assert NoBreaks(plain);
    CutsAreCut(plain);
    StripSlashesCut(WithoutParameters(BeforeQuery(plain)));
  }

  lemma CutWithoutGit(raw: string)
    requires Cut(raw) && NoBreaks(raw) && TwoPieces(WithoutGit(raw))
    ensures HttpsSafe(WithoutGit(raw))
  {
    var repo := WithoutGit(raw);
    assert repo == raw[..|repo|];
    forall c | c in repo ensures c in raw {}
    LastSlash(repo);
    var slash := FindLast(repo, '/');
    assert raw[slash] == '/';
    assert |repo| < |raw| ==> raw[|repo|..] == ".git";
    forall k | slash < k < |raw| ensures raw[k] != '/' {
      if k < |repo| {
        assert raw[k] == repo[k];
      } else {
        assert raw[k] == ".git"[k - |repo|];
      }
    }
    assert FindLast(raw, '/') == slash;
    var tail := repo[slash + 1..];
    assert forall k | 0 <= k < |tail| :: tail[k] == raw[slash + 1 + k];
  }

  /** The canonical https URL of a repository names that repository exactly when the name
      can be spelled in an https URL. */
  lemma CanonicalNames(repo: string, protocol: Protocol)
    requires TwoPieces(repo)
    ensures RepoPath(Canonical(repo, protocol)) == Some(repo) <==> Spellable(repo, protocol)
  {
    if protocol.Ssh? {
      SshCanonicalNames(repo);
    } else if HttpsSafe(repo) {
      CanonicalRaw(repo);
      UnbrokenShape(repo);
      SafeRepoSurvives(repo);
      GitSuffixInverse(repo);
    } else if RepoPath(Canonical(repo, protocol)) == Some(repo) {
      CanonicalRawIsCut(repo);
      CutWithoutGit(RawPath(Strip(Canonical(repo, protocol))).value);
    }
  }

  /** A canonical URL speaks the protocol it was made for. */
  lemma CanonicalProtocol(repo: string, protocol: Protocol)
    requires TwoPieces(repo) && Spellable(repo, protocol)
    ensures RemoteProtocol(Canonical(repo, protocol)) == Some(protocol)
  {
    var url := Canonical(repo, protocol);
    CanonicalNames(repo, protocol);
    assert url[0] == (if protocol.Ssh? then 'g' else 'h') && url[|url| - 1] == 't';
    StripKeeps(url);
    if protocol.Ssh? {
      assert url[..|SCP|] == SCP;
    } else {
      assert !StartsWith(url, SCP) by { assert url[..|SCP|][0] == 'h'; }
      CanonicalParses(repo);
    }
  }
}
