/** Strings as the manager's file readers see them. */
module Text {

  datatype Option<+T> = None | Some(value: T)

  /** How a step that may raise ends; `:-` propagates a raise to the caller. */
  datatype Outcome = Pass | Raise {
    predicate IsFailure() { Raise? }
    function PropagateFailure(): Outcome { this }
  }

  predicate StartsWith(text: string, prefix: string) {
    |prefix| <= |text| && text[..|prefix|] == prefix
  }

  predicate EndsWith(text: string, suffix: string) {
    |suffix| <= |text| && text[|text| - |suffix|..] == suffix
  }

  predicate OccursAt(text: string, token: string, i: int) {
    0 <= i <= |text| - |token| && text[i..i + |token|] == token
  }

  /** Substring containment: Python's `token in text`. */
  predicate Contains(text: string, token: string) {
    exists i | 0 <= i <= |text| :: OccursAt(text, token, i)
  }

  lemma ContainsPart(before: string, token: string, after: string)
    ensures Contains(before + token + after, token)
  {
    assert (before + token + after)[|before|..|before| + |token|] == token;
    assert OccursAt(before + token + after, token, |before|);
  }

  /** What `str.strip` removes. */
  predicate IsSpace(c: char) {
    c == ' ' || '\t' <= c <= '\r' || '\U{1C}' <= c <= '\U{1F}'
  }

  function StripLeft(s: string): string {
    if s != "" && IsSpace(s[0]) then StripLeft(s[1..]) else s
  }

  function StripRight(s: string): string {
    if s != "" && IsSpace(s[|s| - 1]) then StripRight(s[..|s| - 1]) else s
  }

  function Strip(s: string): string { StripRight(StripLeft(s)) }

  function Lower(s: string): string {
    seq(|s|, i requires 0 <= i < |s| => if 'A' <= s[i] <= 'Z' then s[i] - 'A' + 'a' else s[i])
  }

  /** Reading a file in text mode: every `\r\n` and every lone `\r` arrives as `\n`. */
  function Universal(raw: string): string {
    if raw == "" then ""
    else if raw[0] == '\r' then
      "\n" + Universal(if |raw| > 1 && raw[1] == '\n' then raw[2..] else raw[1..])
    else [raw[0]] + Universal(raw[1..])
  }

  lemma {:induction false} UniversalHasNoReturn(raw: string)
    ensures '\r' !in Universal(raw)
    ensures '\r' !in raw ==> Universal(raw) == raw
    decreases |raw|
  {
    if raw == "" {
    } else if raw[0] == '\r' {
      UniversalHasNoReturn(if |raw| > 1 && raw[1] == '\n' then raw[2..] else raw[1..]);
    } else {
      UniversalHasNoReturn(raw[1..]);
      assert raw == [raw[0]] + raw[1..];
    }
  }

  /** Text survives a read exactly when it holds no carriage return. */
  lemma UniversalExact(raw: string)
    ensures Universal(raw) == raw <==> '\r' !in raw
  {
    UniversalHasNoReturn(raw);
  }
}
