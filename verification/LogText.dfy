/** Character classes and runs of them, as the patterns of the log sanitizer use them. */
module LogText {

  // ----- Character classes -----

  /** The pattern class `\s` on text. */
  predicate IsSpace(c: char) {
    || '\t' <= c <= '\r' || '\U{1C}' <= c <= ' ' || c == '\U{85}' || c == '\U{A0}' || c == '\U{1680}'
    || '\U{2000}' <= c <= '\U{200A}' || '\U{2028}' <= c <= '\U{2029}' || c == '\U{202F}' || c == '\U{205F}' || c == '\U{3000}'
  }

  predicate IsLetter(c: char) {
    'a' <= c <= 'z' || 'A' <= c <= 'Z'
  }

  predicate IsProtocolChar(c: char) {
    IsLetter(c) || '0' <= c <= '9' || c == '+' || c == '.' || c == '-'
  }

  predicate IsValueChar(c: char) {
    !IsSpace(c) && c != '&' && c != '"' && c != '\'' && c != ',' && c != ';'
  }

  /** Case folding of the IGNORECASE flag, on the letters that the keys use. */
  function Fold(c: char): char {
    if 'A' <= c <= 'Z' then c - 'A' + 'a'
    else if c == '\U{130}' || c == '\U{131}' then 'i'
    else if c == '\U{17F}' then 's'
    else if c == '\U{212A}' then 'k'
    else c
  }

  // ----- Runs of characters -----

  datatype Class = SPACE | WORD | PROTOCOL | VALUE

  predicate In(k: Class, c: char) {
    match k
    case SPACE => IsSpace(c)
    case WORD => !IsSpace(c)
    case PROTOCOL => IsProtocolChar(c)
    case VALUE => IsValueChar(c)
  }

  ghost predicate All(k: Class, s: string) {
    forall i | 0 <= i < |s| :: In(k, s[i])
  }

  ghost predicate Stops(k: Class, s: string) {
    s != "" ==> !In(k, s[0])
  }

  /** The length of the leading run of one class. */
  function Run(k: Class, s: string): (n: nat)
    ensures n <= |s|
  {
    if s == "" || !In(k, s[0]) then 0 else 1 + Run(k, s[1..])
  }

  lemma {:induction false} RunStops(k: Class, s: string)
    ensures All(k, s[..Run(k, s)]) && Stops(k, s[Run(k, s)..])
  {
    if s != "" && In(k, s[0]) {
      var n := Run(k, s[1..]);
      RunStops(k, s[1..]);
      assert s[1..][n..] == s[1 + n..];
      forall i | 0 <= i < 1 + n ensures In(k, s[i]) {
        if i > 0 { assert s[i] == s[1..][..n][i - 1]; }
      }
    }
  }

  lemma {:induction false} RunIs(k: Class, run: string, rest: string)
    requires All(k, run) && Stops(k, rest)
    ensures Run(k, run + rest) == |run|
  {
    if run == "" {
      assert run + rest == rest;
    } else {
      assert (run + rest)[1..] == run[1..] + rest;
      RunIs(k, run[1..], rest);
    }
  }

  /** The last index of `c`, or -1. */
  function LastIndex(s: string, c: char): (i: int)
    ensures -1 <= i < |s|
    ensures i >= 0 ==> s[i] == c
    ensures forall j | i < j < |s| :: s[j] != c
  {
    if s == "" then -1 else if s[|s| - 1] == c then |s| - 1 else LastIndex(s[..|s| - 1], c)
  }

  lemma LastIndexIs(s: string, c: char, i: int)
    requires -1 <= i < |s| && (i >= 0 ==> s[i] == c) && forall j | i < j < |s| :: s[j] != c
    ensures LastIndex(s, c) == i
  {
  }

  predicate Starts(s: string, head: string) {
    |s| >= |head| && s[..|head|] == head
  }

  lemma StartsTail(s: string, head: string)
    requires s != "" && head != "" && s[0] == head[0]
    ensures Starts(s, head) == Starts(s[1..], head[1..])
  {
    if |s| >= |head| { assert s[..|head|] == [s[0]] + s[1..][..|head| - 1]; }
    assert head == [head[0]] + head[1..];
  }
}
