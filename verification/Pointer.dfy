/** Pointers into a declaration (`setup_projection.py`; sections 3 and 4 of RFC 6901). */
module Pointer {
  import opened Text

  type Keys = seq<string>

  /** A key as a pointer spells it. */
  function Escape(key: string): (r: string)
    ensures '/' !in r
  {
    if key == "" then ""
    else (if key[0] == '~' then "~0" else if key[0] == '/' then "~1" else [key[0]]) + Escape(key[1..])
  }

  /** `str.replace` of a `~` and a digit by one character, left to right. */
  function Replace(s: string, digit: char, sub: char): string {
    if s == "" then ""
    else if s[0] == '~' && |s| > 1 && s[1] == digit then [sub] + Replace(s[2..], digit, sub)
    else [s[0]] + Replace(s[1..], digit, sub)
  }

  function Decode(part: string): string { Replace(Replace(part, '1', '/'), '0', '~') }

  /** Every `~` opens `~0` or `~1`. */
  predicate WellEscaped(part: string) {
    if part == "" then true
    else if part[0] == '~' then |part| > 1 && (part[1] == '0' || part[1] == '1') && WellEscaped(part[2..])
    else WellEscaped(part[1..])
  }

  /** The check of `_pointer_parts` on one part, with its short cut. */
  predicate Refused(part: string) { '~' in Decode(part) && '~' in part && !WellEscaped(part) }

  /** Decoding undoes escaping, for every key. */
  lemma {:induction false} DecodeEscape(key: string)
    ensures Decode(Escape(key)) == key
    ensures WellEscaped(Escape(key))
  {
    if key != "" {
      var c := key[0];
      var rest := Escape(key[1..]);
      DecodeEscape(key[1..]);
      var first := Replace(rest, '1', '/');
      if c == '~' {
        assert ("~0" + rest)[1..] == "0" + rest && ("0" + rest)[1..] == rest;
        assert Replace("~0" + rest, '1', '/') == "~0" + first;
        assert ("~0" + first)[2..] == first;
      } else if c == '/' {
        assert ("~1" + rest)[2..] == rest;
        assert Replace("~1" + rest, '1', '/') == "/" + first;
        assert ("/" + first)[1..] == first;
      } else {
        assert ([c] + rest)[1..] == rest;
        assert ([c] + first)[1..] == first;
      }
    }
  }

  /** Escaping undoes decoding, for every well-escaped part. */
  lemma {:induction false} EscapeDecode(part: string)
    requires WellEscaped(part) && '/' !in part
    ensures Escape(Decode(part)) == part
    decreases |part|
  {
    if part != "" {
      if part[0] == '~' {
        EscapeDecode(part[2..]);
        var first := Replace(part[2..], '1', '/');
        if part[1] == '0' {
          assert part[1..][0] == '0' && part[1..][1..] == part[2..];
          assert Replace(part, '1', '/') == "~0" + first;
          assert ("~0" + first)[2..] == first;
          assert ("~" + Decode(part[2..]))[1..] == Decode(part[2..]);
        } else {
          assert ("/" + first)[1..] == first;
          assert ("/" + Decode(part[2..]))[1..] == Decode(part[2..]);
        }
        assert part == [part[0], part[1]] + part[2..];
      } else {
        EscapeDecode(part[1..]);
        var first := Replace(part[1..], '1', '/');
        assert ([part[0]] + first)[1..] == first;
        assert ([part[0]] + Decode(part[1..]))[1..] == Decode(part[1..]);
        assert part == [part[0]] + part[1..];
      }
    }
  }

  lemma {:induction false} TildeStays(s: string)
    ensures '~' in s ==> '~' in Replace(s, '0', '~')
    decreases |s|
  {
    if s != "" && s[0] != '~' { TildeStays(s[1..]); }
  }

  lemma {:induction false} BadTildeStays(part: string)
    requires !WellEscaped(part)
    ensures '~' in part && '~' in Replace(part, '1', '/')
    decreases |part|
  {
    if part[0] == '~' {
      if |part| > 1 && part[1] == '1' { BadTildeStays(part[2..]); }
    } else {
      BadTildeStays(part[1..]);
    }
  }

  /** The short-cut check refuses exactly the parts with an invalid escape. */
  lemma RefusedExactly(part: string)
    ensures Refused(part) <==> !WellEscaped(part)
  {
    if !WellEscaped(part) {
      BadTildeStays(part);
      TildeStays(Replace(part, '1', '/'));
    }
  }

  // ---- whole pointers ----

  function Split(s: string): (parts: seq<string>)
    ensures |parts| > 0
  {
    if s == "" then [""]
    else
      var rest := Split(s[1..]);
      if s[0] == '/' then [""] + rest else [[s[0]] + rest[0]] + rest[1..]
  }

  function PointerOf(path: Keys): string {
    if path == [] then "" else "/" + Escape(path[0]) + PointerOf(path[1..])
  }

  predicate DoubleSlash(s: string) { exists i | 0 <= i < |s| - 1 :: s[i] == '/' && s[i + 1] == '/' }

  function DecodeAll(parts: seq<string>): Option<Keys> {
    if parts == [] then Some([])
    else if Refused(parts[0]) then None
    else
      var rest := DecodeAll(parts[1..]);
      if rest.None? then None else Some([Decode(parts[0])] + rest.value)
  }

  /** `_pointer_parts`. */
  function Parts(pointer: string): Option<Keys> {
    if pointer == "" || pointer[0] != '/' || pointer == "/" || DoubleSlash(pointer) then None
    else DecodeAll(Split(pointer[1..]))
  }

  lemma {:induction false} SplitFirst(first: string, rest: string)
    requires '/' !in first && (rest == "" || rest[0] == '/')
    ensures Split(first + rest) == if rest == "" then [first] else [first] + Split(rest[1..])
  {
    if first == "" {
      assert first + rest == rest;
    } else {
      assert first[0] in first;
      assert (first + rest)[1..] == first[1..] + rest;
      SplitFirst(first[1..], rest);
      assert first == [first[0]] + first[1..];
    }
  }

  lemma Cancel(c: string, a: string, b: string)
    requires c + a == c + b
    ensures a == b
  {
    assert a == (c + a)[|c|..] && b == (c + b)[|c|..];
  }

  lemma PointerStart(path: Keys)
    ensures PointerOf(path) == "" || PointerOf(path)[0] == '/'
    ensures path != [] ==> PointerOf(path) == "/" + (Escape(path[0]) + PointerOf(path[1..]))
  {
    if path != [] { assert "/" + Escape(path[0]) + PointerOf(path[1..])
      == "/" + (Escape(path[0]) + PointerOf(path[1..])); }
  }

  lemma DecodeCons(part: string, rest: seq<string>)
    requires !Refused(part) && DecodeAll(rest).Some?
    ensures DecodeAll([part] + rest) == Some([Decode(part)] + DecodeAll(rest).value)
  {
    hide Refused, Decode;
    assert ([part] + rest)[1..] == rest;
  }

  lemma {:induction false} SplitPointer(path: Keys)
    requires path != []
    ensures DecodeAll(Split(PointerOf(path)[1..])) == Some(path)
  {
    hide PointerOf, Escape, Decode, Refused, WellEscaped, Split, DecodeAll;
    var e, rest := Escape(path[0]), PointerOf(path[1..]);
    PointerStart(path);
    PointerStart(path[1..]);
    SplitFirst(e, rest);
    DecodeEscape(path[0]);
    RefusedExactly(e);
    assert PointerOf(path)[1..] == e + rest;
    if path[1..] == [] {
      EmptySpelling();
      DecodeCons(e, []);
      assert [e] + [] == [e] && [path[0]] + [] == path;
    } else {
      PointerNotEmpty(path[1..]);
      SplitPointer(path[1..]);
      DecodeCons(e, Split(rest[1..]));
      assert path == [path[0]] + path[1..];
    }
  }

  lemma EmptySpelling()
    ensures PointerOf([]) == "" && DecodeAll([]) == Some([])
  {
  }

  lemma PointerNotEmpty(path: Keys)
    requires path != []
    ensures PointerOf(path) != ""
  {
  }

  lemma {:induction false} NoDoubleSlash(path: Keys)
    requires forall k | k in path :: k != ""
    ensures !DoubleSlash(PointerOf(path))
  {
    if path != [] {
      var e, rest := Escape(path[0]), PointerOf(path[1..]);
      assert forall k | k in path[1..] :: k in path;
      NoDoubleSlash(path[1..]);
      assert e != "" by { assert path[0] in path; }
      var s := PointerOf(path);
      forall i | 0 <= i < |s| - 1 ensures !(s[i] == '/' && s[i + 1] == '/') {
        if i == 0 { assert s[1] == e[0]; }
        else if i <= |e| { assert s[i] == e[i - 1]; }
        else { assert s[i] == rest[i - 1 - |e|] && s[i + 1] == rest[i - |e|]; }
      }
    }
  }

  /** A pointer made from non-empty keys addresses exactly those keys. */
  lemma PartsOfPointer(path: Keys)
    requires path != [] && forall k | k in path :: k != ""
    ensures Parts(PointerOf(path)) == Some(path)
  {
    NoDoubleSlash(path);
    SplitPointer(path);
    assert path[0] in path;
    assert PointerOf(path)[1] == Escape(path[0])[0];
  }

  /** An empty key is spelled but never addressed. */
  lemma EmptyKeyRefused(path: Keys)
    requires path != [] && path[0] == ""
    ensures Parts(PointerOf(path)) == None
  {
    if |path| > 1 {
      assert PointerOf(path) == "/" + PointerOf(path[1..]);
      assert PointerOf(path)[0] == '/' && PointerOf(path)[1] == '/';
    }
  }

  predicate Prefix(p: Keys, q: Keys) { |p| <= |q| && q[..|p|] == p }

  lemma {:induction false} PointerConcat(p: Keys, q: Keys)
    ensures PointerOf(p + q) == PointerOf(p) + PointerOf(q)
  {
    if p == [] {
      assert p + q == q;
    } else {
      assert (p + q)[1..] == p[1..] + q;
      PointerConcat(p[1..], q);
    }
  }

  lemma FirstSlash(a: string, x: string)
    requires '/' !in a && (x == "" || x[0] == '/')
    ensures forall k | 0 <= k < |a| :: (a + x)[k] != '/'
    ensures x != "" ==> (a + x)[|a|] == '/'
  {
    assert forall k | 0 <= k < |a| :: (a + x)[k] == a[k] && a[k] in a;
  }

  lemma FirstPart(a: string, x: string, b: string, y: string)
    requires '/' !in a && '/' !in b && (x == "" || x[0] == '/') && (y == "" || y[0] == '/')
    requires a + x == b + y
    ensures a == b && x == y
  {
    FirstSlash(a, x);
    FirstSlash(b, y);
    var s := a + x;
    assert |a| == |b|;
    assert a == s[..|a|] && b == s[..|b|];
    assert x == s[|a|..] && y == s[|b|..];
  }

  lemma EscapeInjective(a: string, b: string)
    requires Escape(a) == Escape(b)
    ensures a == b
  {
    DecodeEscape(a);
    DecodeEscape(b);
  }

  predicate StringPrefix(p: string, q: string) { q == p || StartsWith(q, p + "/") }

  lemma PathPrefixSpells(p: Keys, q: Keys)
    requires Prefix(p, q)
    ensures StringPrefix(PointerOf(p), PointerOf(q))
  {
    assert q == p + q[|p|..];
    PointerConcat(p, q[|p|..]);
    if |p| < |q| {
      var rest := PointerOf(q[|p|..]);
      assert rest[0] == '/';
      assert PointerOf(q)[..|PointerOf(p)| + 1] == PointerOf(p) + "/";
    } else {
      assert q == p;
    }
  }

  /** Two pointers that begin alike begin with the same key, and go on alike. */
  lemma SameFirstKey(p: Keys, q: Keys, z: string)
    requires p != [] && q != [] && PointerOf(q) == PointerOf(p) + z && (z == "" || z[0] == '/')
    ensures p[0] == q[0] && PointerOf(q[1..]) == PointerOf(p[1..]) + z
  {
    hide PointerOf, Escape;
    var a, x, b, y := Escape(p[0]), PointerOf(p[1..]), Escape(q[0]), PointerOf(q[1..]);
    PointerStart(p);
    PointerStart(q);
    PointerStart(p[1..]);
    PointerStart(q[1..]);
    assert "/" + (a + x) + z == "/" + (a + (x + z));
    Cancel("/", a + (x + z), b + y);
    FirstPart(a, x + z, b, y);
    EscapeInjective(p[0], q[0]);
  }

  lemma {:induction false} SpellingIsPathPrefix(p: Keys, q: Keys, z: string)
    requires PointerOf(q) == PointerOf(p) + z && (z == "" || z[0] == '/')
    ensures Prefix(p, q)
  {
    if p != [] && q != [] {
      SameFirstKey(p, q, z);
      SpellingIsPathPrefix(p[1..], q[1..], z);
      assert q[..|p|] == [q[0]] + q[1..][..|p| - 1];
      assert p == [p[0]] + p[1..];
    }
  }

  /** The string test of `_mark_provenance` for a replaced subtree is the prefix order of paths. */
  lemma StringPrefixIsPathPrefix(p: Keys, q: Keys)
    ensures StringPrefix(PointerOf(p), PointerOf(q)) <==> Prefix(p, q)
  {
    if Prefix(p, q) {
      PathPrefixSpells(p, q);
    } else if StringPrefix(PointerOf(p), PointerOf(q)) {
      var z := PointerOf(q)[|PointerOf(p)|..];
      assert PointerOf(q) == PointerOf(p) + z;
      assert z == "" || z[0] == (PointerOf(p) + "/")[|PointerOf(p)|];
      SpellingIsPathPrefix(p, q, z);
    }
  }

  lemma PointerInjective(p: Keys, q: Keys)
    requires PointerOf(p) == PointerOf(q)
    ensures p == q
  {
    assert PointerOf(q) == PointerOf(p) + "" && PointerOf(p) == PointerOf(q) + "";
    SpellingIsPathPrefix(p, q, "");
    SpellingIsPathPrefix(q, p, "");
  }
}
