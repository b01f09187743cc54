/** Suggesting an instance id (`normalize_instance_id`, `suggest_instance_id`). */
module InstanceNames {
  import opened Text
  import opened Provenance

  predicate Plain(c: char) { 'a' <= c <= 'z' || '0' <= c <= '9' }

  /** Plain characters and single dashes. */
  predicate Shape(s: string) {
    && (forall c | c in s :: Plain(c) || c == '-')
    && (forall i | 0 <= i < |s| - 1 :: !(s[i] == '-' && s[i + 1] == '-'))
  }

  /** `InstanceId`, but for the length. */
  predicate WellFormed(id: string) { id != "" && Shape(id) && id[0] != '-' && id[|id| - 1] != '-' }

  function DropJunk(s: string): (r: string)
    ensures |r| <= |s| && (r != "" ==> Plain(r[0]))
    ensures s != "" && !Plain(s[0]) ==> |r| < |s|
  {
    if s != "" && !Plain(s[0]) then DropJunk(s[1..]) else s
  }

  /** Every run of other characters becomes one dash. */
  function Collapse(s: string): string
    decreases |s|
  {
    if s == "" then "" else if Plain(s[0]) then [s[0]] + Collapse(s[1..]) else "-" + Collapse(DropJunk(s))
  }

  function StripDashesRight(s: string): string {
    if s != "" && s[|s| - 1] == '-' then StripDashesRight(s[..|s| - 1]) else s
  }

  function StripDashesLeft(s: string): string {
    if s != "" && s[0] == '-' then StripDashesLeft(s[1..]) else s
  }

  function OrWorkspace(s: string): string { if s == "" then "workspace" else s }

  /** Python's `s[:k]`. */
  function Head(s: string, k: int): string {
    if k >= 0 then s[..if k < |s| then k else |s|]
    else s[..if |s| + k > 0 then |s| + k else 0]
  }

  const LIMIT := 63

  /** `normalize_instance_id`, from the decomposed text. */
  function Normalize(text: string): string {
    OrWorkspace(StripDashesRight(Head(OrWorkspace(StripDashesRight(StripDashesLeft(Collapse(Lower(text))))), LIMIT)))
  }

  lemma {:induction false} CollapseShape(s: string)
    ensures Shape(Collapse(s)) && (s != "" && Plain(s[0]) ==> Collapse(s) != "" && Collapse(s)[0] == s[0])
    decreases |s|
  {
    if s != "" {
      if Plain(s[0]) { CollapseShape(s[1..]); } else { CollapseShape(DropJunk(s)); }
    }
  }

  lemma {:induction false} StripRightShape(s: string)
    requires Shape(s)
    ensures Shape(StripDashesRight(s)) && StripDashesRight(s) <= s
    ensures var r := StripDashesRight(s); r != "" ==> r[|r| - 1] != '-'
    ensures s != "" && s[0] != '-' ==> StripDashesRight(s) != ""
  {
    if s != "" && s[|s| - 1] == '-' { StripRightShape(s[..|s| - 1]); }
  }

  lemma {:induction false} StripLeftShape(s: string)
    requires Shape(s)
    ensures Shape(StripDashesLeft(s)) && (StripDashesLeft(s) != "" ==> StripDashesLeft(s)[0] != '-')
  {
    if s != "" && s[0] == '-' { StripLeftShape(s[1..]); }
  }

  lemma HeadShape(s: string, k: int)
    requires Shape(s)
    ensures Shape(Head(s, k)) && Head(s, k) <= s
  {
  }

  lemma WorkspaceIsWellFormed()
    ensures WellFormed("workspace") && |"workspace"| <= LIMIT
  {
    var w := "workspace";
    assert forall i | 0 <= i < |w| :: Plain(w[i]);
  }

  /** Cutting a well-formed name and trimming it leaves a well-formed name. */
  lemma CutIsWellFormed(s: string, k: int)
    requires WellFormed(s)
    ensures WellFormed(OrWorkspace(StripDashesRight(Head(s, k))))
    ensures k > 0 ==> |OrWorkspace(StripDashesRight(Head(s, k)))| <= k
  {
    WorkspaceIsWellFormed();
    HeadShape(s, k);
    StripRightShape(Head(s, k));
  }

  lemma NormalizeWellFormed(text: string)
    ensures WellFormed(Normalize(text)) && |Normalize(text)| <= LIMIT
  {
    var c := Collapse(Lower(text));
    var l := StripDashesLeft(c);
    CollapseShape(Lower(text));
    StripLeftShape(c);
    StripRightShape(l);
    WorkspaceIsWellFormed();
    CutIsWellFormed(OrWorkspace(StripDashesRight(l)), LIMIT);
  }

  /** A well-formed name of fitting length is kept. */
  lemma {:induction false} CollapseKeeps(s: string)
    requires WellFormed(s)
    ensures Collapse(s) == s
  {
    CollapseKeepsShape(s);
  }

  lemma {:induction false} CollapseKeepsShape(s: string)
    requires Shape(s) && (s != "" ==> s[|s| - 1] != '-')
    ensures Collapse(s) == s
  {
    if s != "" {
      CollapseKeepsShape(s[1..]);
      assert s == [s[0]] + s[1..];
      if !Plain(s[0]) {
        assert s[0] in s && s[1] in s;
        assert s[0] == '-' && Plain(s[1]);
        assert DropJunk(s) == s[1..];
      }
    }
  }

  lemma LowerKeeps(s: string)
    requires Shape(s)
    ensures Lower(s) == s
  {
    forall i | 0 <= i < |s| ensures Lower(s)[i] == s[i] {
      assert s[i] in s;
      assert Plain(s[i]) || s[i] == '-';
    }
  }

  lemma StripKeeps(s: string)
    requires WellFormed(s)
    ensures StripDashesLeft(s) == s && StripDashesRight(s) == s && OrWorkspace(s) == s
    ensures |s| <= LIMIT ==> Head(s, LIMIT) == s
  {
    hide Shape;
  }

  lemma NormalizeKeeps(id: string)
    requires WellFormed(id) && |id| <= LIMIT
    ensures Normalize(id) == id
  {
    hide Collapse, Lower, StripDashesLeft, StripDashesRight, Head, Shape, OrWorkspace;
    LowerKeeps(id);
    CollapseKeeps(id);
    StripKeeps(id);
  }

  lemma NormalizeIdempotent(text: string)
    ensures Normalize(Normalize(text)) == Normalize(text)
  {
    hide Normalize;
    NormalizeWellFormed(text);
    NormalizeKeeps(Normalize(text));
  }

  // ---- suffixes ----

  function Suffix(n: nat): string { "-" + Digits(n) }

  /** The stem that leaves room for the suffix, and the suffix. */
  function Suffixed(name: string, n: nat): string {
    OrWorkspace(StripDashesRight(Head(name, LIMIT - |Suffix(n)|))) + Suffix(n)
  }

  function Number(digits: string): int {
    if digits == "" then 0 else 10 * Number(digits[..|digits| - 1]) + digits[|digits| - 1] as int - '0' as int
  }

  lemma {:induction false} NumberOfDigits(n: nat)
    ensures forall c | c in Digits(n) :: '0' <= c <= '9'
    ensures Number(Digits(n)) == n
  {
    DigitsPlain(n);
    if n >= 10 {
      NumberOfDigits(n / 10);
      assert Digits(n)[..|Digits(n)| - 1] == Digits(n / 10);
    } else {
      assert Digits(n)[..0] == "";
    }
  }

  lemma LastDash(a: string, x: string, b: string, y: string)
    requires a + "-" + x == b + "-" + y && '-' !in x && '-' !in y
    ensures x == y
  {
    var s := a + "-" + x;
    assert s[|a|] == '-' && s[|b|] == '-';
    assert forall i | |a| < i < |s| :: s[i] == x[i - |a| - 1] && s[i] != '-';
    assert forall i | |b| < i < |s| :: s[i] == y[i - |b| - 1] && s[i] != '-';
    assert |a| == |b|;
    assert x == s[|a| + 1..] && y == s[|b| + 1..];
  }

  /** Distinct suffixes give distinct names, whatever the truncation does to the stem. */
  lemma SuffixedInjective(name: string, m: nat, n: nat)
    requires Suffixed(name, m) == Suffixed(name, n)
    ensures m == n
  {
    var a := OrWorkspace(StripDashesRight(Head(name, LIMIT - |Suffix(m)|)));
    var b := OrWorkspace(StripDashesRight(Head(name, LIMIT - |Suffix(n)|)));
    NumberOfDigits(m);
    NumberOfDigits(n);
    assert a + "-" + Digits(m) == a + Suffix(m) && b + "-" + Digits(n) == b + Suffix(n);
    LastDash(a, Digits(m), b, Digits(n));
  }

  /** So many names in use, so many suffixes at most in vain. */
  lemma {:induction false} TriedBound(name: string, used: set<string>, n: nat)
    requires n >= 2 && forall m | 2 <= m < n :: Suffixed(name, m) in used
    ensures n - 2 <= |used|
    decreases n
  {
    if n > 2 {
      var last := Suffixed(name, n - 1);
      forall m | 2 <= m < n - 1 ensures Suffixed(name, m) in used - {last} {
        if Suffixed(name, m) == last { SuffixedInjective(name, m, n - 1); }
      }
      TriedBound(name, used - {last}, n - 1);
      assert |used - {last}| == |used| - 1;
    }
  }

  function TenTo(k: nat): nat { if k == 0 then 1 else 10 * TenTo(k - 1) }

  lemma {:induction false} DigitCount(n: nat, k: nat)
    requires k > 0 && n < TenTo(k)
    ensures |Digits(n)| <= k
  {
    if n >= 10 {
      assert TenTo(1) == 10 by { assert TenTo(0) == 1; }
      assert k > 1;
      DigitCount(n / 10, k - 1);
    }
  }

  lemma SuffixedWellFormed(name: string, n: nat)
    requires WellFormed(name)
    ensures WellFormed(Suffixed(name, n))
    ensures n < TenTo(61) ==> |Suffixed(name, n)| <= LIMIT
  {
    hide TenTo, StripDashesRight, Head;
    var k := LIMIT - |Suffix(n)|;
    var stem := OrWorkspace(StripDashesRight(Head(name, k)));
    CutIsWellFormed(name, k);
    DigitsPlain(n);
    Joined(stem, Digits(n));
    if n < TenTo(61) { DigitCount(n, 61); }
  }

  lemma Joined(stem: string, digits: string)
    requires WellFormed(stem) && digits != "" && forall c | c in digits :: '0' <= c <= '9'
    ensures WellFormed(stem + ("-" + digits))
  {
    var s := stem + ("-" + digits);
    forall i | 0 <= i < |s| ensures Plain(s[i]) || s[i] == '-' {
      if i > |stem| { assert s[i] == digits[i - |stem| - 1] && s[i] in digits; }
    }
    forall i | 0 <= i < |s| - 1 ensures !(s[i] == '-' && s[i + 1] == '-') {
      if i >= |stem| { assert s[i + 1] == digits[i - |stem|] && s[i + 1] in digits; }
    }
    assert s[|s| - 1] == digits[|digits| - 1] && digits[|digits| - 1] in digits;
  }

  /** The first so many suffixed names. */
  ghost function SuffixedNames(name: string, n: nat): set<string> { set m | 2 <= m < n :: Suffixed(name, m) }

  lemma {:induction false} SuffixedCount(name: string, n: nat)
    requires n >= 2
    ensures |SuffixedNames(name, n)| == n - 2
  {
    if n == 2 {
      assert SuffixedNames(name, 2) == {};
    } else {
      SuffixedCount(name, n - 1);
      var last := Suffixed(name, n - 1);
      forall m | 2 <= m < n - 1 ensures Suffixed(name, m) != last {
        if Suffixed(name, m) == last { SuffixedInjective(name, m, n - 1); }
      }
      assert last !in SuffixedNames(name, n - 1);
      assert SuffixedNames(name, n) == SuffixedNames(name, n - 1) + {last};
    }
  }

  lemma WholeSubset(a: set<string>, b: set<string>)
    requires a <= b && |a| == |b|
    ensures a == b
  {
    assert |b - a| == |b| - |a|;
    assert b == a + (b - a);
  }

  /** The suffixes that fail before `n` is the first free one. */
  ghost predicate FirstFree(name: string, used: set<string>, n: nat) {
    n >= 2 && Suffixed(name, n) !in used && forall m | 2 <= m < n :: Suffixed(name, m) in used
  }

  /** The last suffix that can be needed is needed exactly when the names in use are the first
      suffixed names and nothing else. */
  lemma LastSuffixExactly(name: string, used: set<string>, n: nat)
    requires FirstFree(name, used, n)
    ensures n <= |used| + 2
    ensures n == |used| + 2 <==> used == SuffixedNames(name, |used| + 2)
  {
    TriedBound(name, used, n);
    SuffixedCount(name, n);
    SuffixedCount(name, |used| + 2);
    if n == |used| + 2 { WholeSubset(SuffixedNames(name, n), used); }
    if n < |used| + 2 { assert Suffixed(name, n) in SuffixedNames(name, |used| + 2); }
  }

  /** The search takes more than `|used| + 1` tries, the base included, exactly when the names in use
      are the first suffixed names of the base and the base is one of them. */
  lemma TriesExactly(name: string, used: set<string>, n: nat)
    requires FirstFree(name, used, n) && name in used
    ensures n > |used| + 1 <==> used == SuffixedNames(name, |used| + 2)
    ensures (forall m | 2 <= m < |used| + 2 :: Suffixed(name, m) != name) ==> n <= |used| + 1
  {
    LastSuffixExactly(name, used, n);
  }

  /** `suggest_instance_id`; `tries` counts the names looked up. */
  method Suggest(base: string, used: set<string>) returns (id: string, ghost tries: nat)
    ensures id !in used && WellFormed(id)
    ensures |used| + 2 < TenTo(61) ==> |id| <= LIMIT
    ensures Normalize(base) !in used ==> id == Normalize(base) && tries == 1
    ensures Normalize(base) in used ==>
              FirstFree(Normalize(base), used, tries) && id == Suffixed(Normalize(base), tries)
    ensures tries <= |used| + 2
    ensures tries > |used| + 1 <==> Normalize(base) in used && used == SuffixedNames(Normalize(base), |used| + 2)
  {
    hide TenTo, Suffixed, Normalize, WellFormed, SuffixedNames;
    var name := Normalize(base);
    NormalizeWellFormed(base);
    if name !in used { return name, 1; }
    var suffix := 2;
    while true
      invariant 2 <= suffix <= |used| + 2
      invariant forall m | 2 <= m < suffix :: Suffixed(name, m) in used
      decreases |used| + 2 - suffix
    {
      id := Suffixed(name, suffix);
      if id !in used {
        SuffixedWellFormed(name, suffix);
        tries := suffix;
        LastSuffixExactly(name, used, suffix);
        return;
      }
      TriedBound(name, used, suffix + 1);
      suffix := suffix + 1;
    }
  }

  /** A long base may be one of its own suffixed names: with that one name in use, three tries. */
  lemma TriedTwice(used: set<string>)
    requires used == {X61() + "-2"}
    ensures var name := Normalize(X61() + "-2"); name in used && used == SuffixedNames(name, |used| + 2)
  {
    var name := X61() + "-2";
    assert |Suffix(2)| == 2 && Suffix(2) == "-2" by { assert Digits(2) == "2"; }
    assert WellFormed(name) by {
      forall i | 0 <= i < |name| ensures Plain(name[i]) || name[i] == '-' {}
    }
    NormalizeKeeps(name);
    assert Head(name, 61) == X61() && StripDashesRight(X61()) == X61();
    assert Suffixed(name, 2) == name;
    assert |used| == 1;
    assert SuffixedNames(name, 3) == {Suffixed(name, 2)};
  }

  function X61(): string { seq(61, i => 'x') }
}
