/** The log sanitizer: both masking passes in turn, and what repeating them does. */
module LogSanitizer {
  import opened LogText
  import opened LogUrlPass
  import opened LogKeyValuePass

  function Sanitize(message: string): string {
    if message == "" then message else KeyValuePass(UrlPass(message))
  }

  // ----- What is left unmasked -----

  /** Scanning left to right, the secret of every URL match is "***". */
  predicate UrlsMasked(s: string) {
    s == "" ||
    if UrlAt(s) then s[SecretStart(s)..UrlEnd(s)] == "***" && UrlsMasked(s[UrlEnd(s) + 1..])
    else UrlsMasked(s[1..])
  }

  /** Scanning left to right, the tail of every key match is "=***". */
  predicate ValuesMasked(s: string)
    decreases |s|
  {
    s == "" ||
    var key := FindKey(s, KEYS);
    if key == "" then ValuesMasked(s[1..])
    else
      var rest := AfterTail(s[|key|..]);
      s == s[..|key|] + "=***" + rest && ValuesMasked(rest)
  }

  // ----- Counting '@' -----

  /** How often '@' occurs. */
  ghost function Ats(s: string): nat {
    multiset(s)['@']
  }

  lemma AtsOfParts(s: string, a: string, b: string)
    requires s == a + b
    ensures Ats(s) == Ats(a) + Ats(b)
  {
  }

  lemma UrlEndIsAt(s: string)
    requires UrlAt(s)
    ensures s[UrlEnd(s)] == '@'
  {
    var p, creds, word, rest := UrlParts(s);
    assert s[|p| + 3 + |creds|] == '@';
  }

  /** Masking a secret loses exactly its own '@'s. */
  lemma AtsOfMasked(s: string, a: nat, b: nat, rest: string, y: string)
    requires a <= b < |s| && s[b] == '@' && y == s[..a] + "***@" + rest
    ensures Ats(s) == Ats(s[..a]) + Ats(s[a..b]) + 1 + Ats(s[b + 1..])
    ensures Ats(y) == Ats(s[..a]) + 1 + Ats(rest)
  {
    assert s == s[..a] + s[a..b] + ['@'] + s[b + 1..];
  }

  lemma {:induction false} UrlPassAts(s: string)
    ensures Ats(UrlPass(s)) <= Ats(s)
  {
    hide UrlAt, UrlPass, SecretStart, UrlEnd, Ats;
    if s == "" {
      UrlOfEmpty();
    } else if UrlAt(s) {
      UrlMasked(s);
      UrlEndIsAt(s);
      UrlPassAts(s[UrlEnd(s) + 1..]);
      AtsOfMasked(s, SecretStart(s), UrlEnd(s), UrlPass(s[UrlEnd(s) + 1..]), UrlPass(s));
    } else {
      UrlKept(s);
      UrlPassAts(s[1..]);
      AtsOfParts(s, [s[0]], s[1..]);
      AtsOfParts(UrlPass(s), [s[0]], UrlPass(s[1..]));
    }
  }

  lemma BearerHasWord(w: string)
    requires BearerAt(w)
    ensures |w| >= 6
  {
  }

  lemma RunOf(k: Class, s: string) returns (run: string)
    ensures s == run + After(k, s)
  {
    run := s[..Run(k, s)];
  }

  lemma ValuePart(t: string, w: string) returns (value: string)
    requires TailAt(t) && w == After(SPACE, After(SPACE, t)[1..])
    ensures w == value + AfterTail(t)
  {
    hide In, Run, BearerAt, After, TailAt;
    if BearerAt(w) {
      BearerHasWord(w);
      var gap := RunOf(SPACE, w[6..]);
      var token := RunOf(VALUE, After(SPACE, w[6..]));
      value := w[..6] + (gap + token);
      assert w == w[..6] + (gap + (token + AfterTail(t)));
    } else {
      value := RunOf(VALUE, w);
    }
  }

  /** A tail, as the part of the text in front of what follows it. */
  lemma TailParts(t: string) returns (tail: string)
    requires TailAt(t)
    ensures tail != "" && t == tail + AfterTail(t)
  {
    hide AfterTail, TailAt, After, In, IsSpace, IsValueChar;
    var before, separator, between, w := TailShape(t);
    var value := ValuePart(t, w);
    tail := before + ([separator] + (between + value));
    assert t == before + ([separator] + (between + (value + AfterTail(t))));
  }

  lemma AtsOfTail(s: string, name: string, tail: string, rest: string, masked: string)
    requires s == name + (tail + rest)
    ensures Ats(s) == Ats(name) + Ats(tail) + Ats(rest)
    ensures Ats(name + "=***" + masked) == Ats(name) + Ats(masked)
  {
  }

  lemma {:induction false} KeyValuePassAts(s: string)
    ensures Ats(KeyValuePass(s)) <= Ats(s)
    decreases |s|
  {
    hide FindKey, KeyValuePass, TailAt, AfterTail;
    if s == "" {
      PassOfEmpty();
    } else if FindKey(s, KEYS) == "" {
      PassKeeps(s);
      KeyValuePassAts(s[1..]);
      AtsOfParts(s, [s[0]], s[1..]);
      AtsOfParts(KeyValuePass(s), [s[0]], KeyValuePass(s[1..]));
    } else {
      var key := FindKey(s, KEYS);
      PassMasks(s, key);
      var tail := TailParts(s[|key|..]);
      var rest := AfterTail(s[|key|..]);
      KeyValuePassAts(rest);
      AtsOfTail(s, s[..|key|], tail, rest, KeyValuePass(rest));
    }
  }

  // ----- The masked texts are the fixed points of the passes -----

  lemma MoreAts(s: string, k: nat, b: nat)
    ensures k <= b < |s| && s[b] == '@' ==> Ats(s[k..]) > Ats(s[b + 1..])
  {
    if k <= b < |s| && s[b] == '@' {
      assert s[k..] == s[k..b] + ['@'] + s[b + 1..];
    }
  }

  /** Putting the mask in is the identity exactly if the mask was there. */
  lemma MaskFits(s: string, a: nat, b: nat, rest: string)
    requires a <= b < |s| && s[b] == '@' && Ats(rest) <= Ats(s[b + 1..])
    ensures s[..a] + "***@" + rest == s <==> s[a..b] == "***" && rest == s[b + 1..]
  {
    var y := s[..a] + "***@" + rest;
    if y == s {
      assert y[a] == '*' && y[a + 1] == '*' && y[a + 2] == '*' && y[a + 3] == '@' && y[a + 4..] == rest;
      assert b >= a + 3;
      MoreAts(s, a + 4, b);
    } else if s[a..b] == "***" {
      assert s == s[..a] + s[a..b] + ['@'] + s[b + 1..];
    }
  }

  lemma {:induction false} UrlsMaskedIff(s: string)
    ensures UrlsMasked(s) <==> UrlPass(s) == s
  {
    hide UrlAt, UrlPass, SecretStart, UrlEnd;
    if s == "" {
      UrlOfEmpty();
    } else if UrlAt(s) {
      var a, b := SecretStart(s), UrlEnd(s);
      UrlMasked(s);
      UrlsMaskedIff(s[b + 1..]);
      UrlEndIsAt(s);
      UrlPassAts(s[b + 1..]);
      MaskFits(s, a, b, UrlPass(s[b + 1..]));
    } else {
      UrlKept(s);
      UrlsMaskedIff(s[1..]);
      assert s == [s[0]] + s[1..];
      assert UrlPass(s)[1..] == UrlPass(s[1..]);
    }
  }

  lemma {:induction false} ValuesMaskedIff(s: string)
    ensures ValuesMasked(s) <==> KeyValuePass(s) == s
    decreases |s|
  {
    hide FindKey, KeyValuePass, TailAt, AfterTail;
    if s == "" {
      PassOfEmpty();
    } else {
      var key := FindKey(s, KEYS);
      if key == "" {
        PassKeeps(s);
        ValuesMaskedIff(s[1..]);
        assert s == [s[0]] + s[1..];
        assert KeyValuePass(s)[1..] == KeyValuePass(s[1..]);
      } else {
        var rest := AfterTail(s[|key|..]);
        PassMasks(s, key);
        ValuesMaskedIff(rest);
        if KeyValuePass(s) == s { MaskedAgain(s, key, s); }
      }
    }
  }

  // ----- The key=value pass cannot undo the URL pass -----

  /** From a ':' to the next '@', without another ':' in between. */
  predicate Span(x: string) {
    |x| >= 2 && x[0] == ':' && x[|x| - 1] == '@' && forall i | 0 < i < |x| - 1 :: x[i] != ':' && x[i] != '@'
  }

  /** A masked span, without and with a user name in front. */
  predicate MaskSpan(m: string) {
    m == "://***@" || m == ":***@"
  }

  lemma MaskStep(v: string, u: string, r: string)
    requires u == UrlPass(v) && Ats(u) == Ats(v) && UrlAt(v) && r == v[UrlEnd(v) + 1..]
    ensures v[UrlEnd(v)] == '@' && Ats(v[SecretStart(v)..UrlEnd(v)]) == 0
    ensures u == v[..SecretStart(v)] + "***@" + UrlPass(r)
    ensures v == v[..SecretStart(v)] + v[SecretStart(v)..UrlEnd(v) + 1] + r
    ensures v[SecretStart(v)..UrlEnd(v)] == "***" ==> v == v[..SecretStart(v)] + "***@" + r
  {
    hide UrlAt, UrlPass, SecretStart, UrlEnd, Ats;
    var s, e := SecretStart(v), UrlEnd(v);
    UrlMasked(v);
    UrlEndIsAt(v);
    UrlPassAts(r);
    AtsOfMasked(v, s, e, UrlPass(r), u);
    assert v == v[..s] + v[s..e + 1] + r;
    assert v[s..e + 1] == v[s..e] + "@";
  }

  /** One step: either both texts start alike, or a secret is masked. */
  lemma PassStep(v: string, u: string) returns (head: string, r: string)
    requires u == UrlPass(v) && u != v && Ats(u) == Ats(v)
    ensures |r| < |v|
    ensures (u == head + UrlPass(r) && v == head + r) ||
      (UrlAt(v) && v[UrlEnd(v)] == '@'
      && v[SecretStart(v)..UrlEnd(v)] != "***" && Ats(v[SecretStart(v)..UrlEnd(v)]) == 0
      && u == v[..SecretStart(v)] + "***@" + UrlPass(r)
      && v == v[..SecretStart(v)] + v[SecretStart(v)..UrlEnd(v) + 1] + r)
  {
    hide UrlAt, UrlPass, SecretStart, UrlEnd;
    if v == "" {
      UrlOfEmpty();
      assert false;
    } else if UrlAt(v) {
      r := v[UrlEnd(v) + 1..];
      head := v[..SecretStart(v)] + "***@";
      MaskStep(v, u, r);
    } else {
      UrlKept(v);
      head, r := [v[0]], v[1..];
    }
  }

  lemma Behind(s: string, head: string, a: string, z: string, tail: string)
    requires s == head + tail && tail == a + z
    ensures s == (head + a) + z
  {
  }

  lemma Regroup(s: string, b: string, c: string, r: string, a: string, m: string)
    requires s == b + c + r && b + c == a + m
    ensures s == a + (m + r)
  {
  }

  lemma Inside(lead: string, z: string)
    ensures (lead + (z + "@"))[|lead|..|lead| + |z|] == z
  {
  }

  lemma SecretSpan(lead: string, secret: string) returns (m: string, x: string)
    requires lead == "://" || lead == ":"
    requires secret != "***" && ':' !in secret && '@' !in secret
    ensures m == lead + "***@" && x == lead + (secret + "@")
    ensures MaskSpan(m) && Span(x) && x != m
  {
    m, x := lead + "***@", lead + (secret + "@");
    assert "***@" == "***" + "@";
    Inside(lead, "***");
    Inside(lead, secret);
    assert forall i | 0 <= i < |secret| :: secret[i] in secret;
  }

  /** What stands in front of a secret; the secret follows the last ':'. */
  lemma SecretParts(v: string) returns (front: string, secret: string, userless: bool)
    requires UrlAt(v) && Ats(v[SecretStart(v)..UrlEnd(v)]) == 0
    ensures v[..SecretStart(v)] == front + (if userless then "://" else ":")
    ensures secret == v[SecretStart(v)..UrlEnd(v)] && ':' !in secret && '@' !in secret
  {
    hide UrlAt, UrlEnd, SecretStart, In;
    var p, creds, word, rest := UrlParts(v);
    var k := LastIndex(creds, ':');
    secret := v[SecretStart(v)..UrlEnd(v)];
    userless := k < 0;
    assert v == p + "://" + creds + ("@" + word + rest);
    assert v[..SecretStart(v)] == p + "://" + creds[..k + 1];
    assert secret == creds[k + 1..];
    front := if userless then p else p + "://" + creds[..k];
    if !userless { assert creds[..k + 1] == creds[..k] + ":"; }
  }

  lemma UnmaskedSpan(v: string) returns (a: string, m: string, x: string)
    requires UrlAt(v) && v[UrlEnd(v)] == '@'
    requires v[SecretStart(v)..UrlEnd(v)] != "***" && Ats(v[SecretStart(v)..UrlEnd(v)]) == 0
    ensures v[..SecretStart(v)] + "***@" == a + m
    ensures v[..SecretStart(v)] + v[SecretStart(v)..UrlEnd(v) + 1] == a + x
    ensures MaskSpan(m) && Span(x) && x != m
  {
    var front, secret, userless := SecretParts(v);
    hide UrlAt, UrlEnd, SecretStart;
    var lead := if userless then "://" else ":";
    a := front;
    m, x := SecretSpan(lead, secret);
    assert v[SecretStart(v)..UrlEnd(v) + 1] == secret + "@";
  }

  /** A URL pass that changes the text without losing an '@' replaces some other
      span by a masked one, behind a common beginning. */
  lemma {:induction false} FirstUnmasked(v: string, u: string) returns (a: string, m: string, x: string, ru: string, rv: string)
    requires u == UrlPass(v) && u != v && Ats(u) == Ats(v)
    ensures u == a + (m + ru) && v == a + (x + rv)
    ensures MaskSpan(m) && Span(x) && x != m
    decreases |v|
  {
    hide UrlAt, UrlPass, SecretStart, UrlEnd, Span, MaskSpan;
    var head, r := PassStep(v, u);
    if u == head + UrlPass(r) && v == head + r {
      UrlPassAts(r);
      AtsOfParts(v, head, r);
      AtsOfParts(u, head, UrlPass(r));
      a, m, x, ru, rv := FirstUnmasked(r, UrlPass(r));
      Behind(u, head, a, m + ru, UrlPass(r));
      Behind(v, head, a, x + rv, r);
      a := head + a;
    } else {
      a, m, x := UnmaskedSpan(v);
      var k := SecretStart(v);
      ru, rv := UrlPass(r), r;
      Regroup(u, v[..k], "***@", ru, a, m);
      Regroup(v, v[..k], v[k..UrlEnd(v) + 1], rv, a, x);
    }
  }

  /** Characters of values that belong to no key. */
  ghost predicate Marks(q: string) {
    forall i | 0 <= i < |q| :: IsValueChar(q[i]) && !KeyChar(Fold(q[i]))
  }

  lemma {:induction false} PassKeepsMarks(q: string, r: string)
    requires Marks(q)
    ensures KeyValuePass(q + r) == q + KeyValuePass(r)
  {
    hide KeyValuePass, IsValueChar, KeyChar, Fold;
    if q == "" {
      assert q + r == r;
    } else {
      assert (q + r)[1..] == q[1..] + r;
      PassSkips(q + r);
      PassKeepsMarks(q[1..], r);
    }
  }

  lemma TailSplits(u: string, name: string, tail: string, rest: string)
    requires |name| <= |u| && name == u[..|name|] && u[|name|..] == tail + rest
    ensures var n := |name| + |tail|; n <= |u| && u == u[..n] + rest && u[..n] == name + tail
  {
    assert u == name + (tail + rest);
  }

  lemma MarkGoesOn(q: string, r: string, c: string, rest: string)
    requires q + r == c + rest && |c| < |q| && Marks(q)
    ensures !Stops(VALUE, rest)
  {
    assert (q + r)[|c|] == q[|c|] == rest[0];
  }

  lemma AtIsIn(q: string, r: string, c: string, rest: string, tail: string)
    requires q + r == c + rest && |c| >= |q| && '@' in q && |c| <= |tail| && tail == tail[..|tail| - |c|] + c
    ensures Ats(tail) > 0
  {
    assert (q + r)[..|q|] == q && (c + rest)[..|q|] == c[..|q|];
    assert c == q + c[|q|..];
  }

  lemma Overlap(s: string, a: string, b: string, c: string, d: string)
    requires s == a + b && s == c + d && |a| <= |c|
    ensures c == a + c[|a|..] && b == c[|a|..] + d
  {
    assert c == s[..|c|] && a == s[..|a|] && b == s[|a|..];
  }

  lemma KeyCovers(u: string, a: string, q: string, r: string, key: string)
    requires u == a + (q + r) && Keyish(key) && KeyAt(u, key) && |a| < |key| && q != ""
    ensures !Marks(q)
  {
    assert u[|a|] == q[0];
    KeyGoesOn(u, key, |a|);
  }

  /** A match that takes no '@' ends in front of these characters. */
  lemma TailBefore(u: string, a: string, q: string, r: string, key: string, tail: string, rest: string) returns (a': string)
    requires u == a + (q + r) && Marks(q) && '@' in q
    requires key == FindKey(u, KEYS) && key != "" && Ats(tail) == 0
    requires |key| <= |u| && u[|key|..] == tail + rest && rest == AfterTail(u[|key|..])
    ensures a == u[..|key|] + (tail + a') && rest == a' + (q + r)
  {
    hide FindKey, AfterTail, TailAt, Fold, KeyAt;
    KeysAreKeyish(key);
    AfterTailStops(u[|key|..]);
    if |a| < |key| { KeyCovers(u, a, q, r, key); }
    var name := u[..|key|];
    var n := |key| + |tail|;
    TailSplits(u, name, tail, rest);
    if |a| < n {
      Overlap(u, a, q + r, u[..n], rest);
      Overlap(u[..n], name, tail, a, u[..n][|a|..]);
      var c := u[..n][|a|..];
      if |c| < |q| { MarkGoesOn(q, r, c, rest); } else { AtIsIn(q, r, c, rest, tail); }
      assert false;
    }
    Overlap(u, u[..n], rest, a, q + r);
    a' := a[n..];
    assert a == name + (tail + a');
  }

  /** If no '@' is lost, then such characters around an '@' stay, behind as many '@'s as before. */
  lemma {:induction false} PassKeepsMarked(u: string, a: string, q: string, r: string) returns (b: string, t: string)
    requires u == a + (q + r) && Marks(q) && '@' in q
    requires Ats(KeyValuePass(u)) == Ats(u)
    ensures KeyValuePass(u) == b + (q + t) && Ats(b) == Ats(a)
    decreases |u|
  {
    hide KeyValuePass, FindKey, TailAt, AfterTail, Marks;
    if a == "" {
      PassKeepsMarks(q, r);
      assert u == q + r;
      b, t := "", KeyValuePass(r);
      assert b + (q + t) == q + t;
    } else if FindKey(u, KEYS) == "" {
      PassKeeps(u);
      KeyValuePassAts(u[1..]);
      AtsOfParts(u, [u[0]], u[1..]);
      AtsOfParts(KeyValuePass(u), [u[0]], KeyValuePass(u[1..]));
      assert u[1..] == a[1..] + (q + r);
      b, t := PassKeepsMarked(u[1..], a[1..], q, r);
      AtsOfParts(a, [u[0]], a[1..]);
      AtsOfParts([u[0]] + b, [u[0]], b);
      Behind(KeyValuePass(u), [u[0]], b, q + t, KeyValuePass(u[1..]));
      b := [u[0]] + b;
    } else {
      var key := FindKey(u, KEYS);
      var name := u[..|key|];
      var tail := TailParts(u[|key|..]);
      var rest := AfterTail(u[|key|..]);
      assert u == name + (tail + rest);
      PassMasks(u, key);
      KeyValuePassAts(rest);
      AtsOfTail(u, name, tail, rest, KeyValuePass(rest));
      var a' := TailBefore(u, a, q, r, key, tail, rest);
      b, t := PassKeepsMarked(rest, a', q, r);
      AtsOfTail(name + (tail + a'), name, tail, a', b);
      Behind(KeyValuePass(u), name + "=***", b, q + t, KeyValuePass(rest));
      b := name + "=***" + b;
    }
  }

  lemma SpanEnds(x: string)
    requires Span(x)
    ensures |x| >= 2 && x[0] == ':' && x[|x| - 1] == '@'
  {
  }

  lemma NoSpanWithColon(x: string, r: string, c: string, z: string)
    requires x + r == c + z && 0 < |c| < |x| && z != "" && z[0] == ':'
    ensures !Span(x)
  {
    assert (x + r)[|c|] == x[|c|];
  }

  lemma LastIsIn(x: string, r: string, c: string, z: string)
    requires x + r == c + z && 0 < |x| <= |c|
    ensures x[|x| - 1] in c
  {
    assert (x + r)[|x| - 1] == c[|x| - 1];
  }

  lemma SpanNotBefore(s: string, a: string, x: string, r: string, b: string, y: string, t: string)
    requires s == a + (x + r) && s == b + (y + t) && Ats(a) == Ats(b) && Span(x) && Span(y)
    ensures |a| >= |b|
  {
    hide Span;
    if |a| < |b| {
      Overlap(s, a, x + r, b, y + t);
      var c := b[|a|..];
      AtsOfParts(b, a, c);
      SpanEnds(x);
      SpanEnds(y);
      if |c| < |x| {
        NoSpanWithColon(x, r, c, y + t);
      } else {
        LastIsIn(x, r, c, y + t);
      }
      assert false;
    }
  }

  /** A text has one span behind a given number of '@'s. */
  lemma SpanUnique(s: string, a: string, x: string, r: string, b: string, y: string, t: string)
    requires s == a + (x + r) && s == b + (y + t) && Ats(a) == Ats(b) && Span(x) && Span(y)
    ensures x == y
  {
    SpanNotBefore(s, a, x, r, b, y, t);
    SpanNotBefore(s, b, y, t, a, x, r);
    Overlap(s, a, x + r, b, y + t);
    assert x + r == y + t;
    var n := if |x| < |y| then |x| else |y|;
    assert (x + r)[n - 1] == x[n - 1] && (y + t)[n - 1] == y[n - 1];
    assert x == (x + r)[..|x|] && y == (y + t)[..|y|];
  }

  lemma MaskMarks(m: string)
    requires MaskSpan(m)
    ensures Marks(m) && '@' in m && Span(m)
  {
    assert m[|m| - 1] == '@';
  }

  lemma NoUndo(v: string)
    requires KeyValuePass(UrlPass(v)) == v
    ensures UrlPass(v) == v
  {
    hide UrlPass, KeyValuePass, MaskSpan, Marks, Span;
    var u := UrlPass(v);
    UrlPassAts(v);
    KeyValuePassAts(u);
    if u != v {
      var a, m, x, ru, rv := FirstUnmasked(v, u);
      MaskMarks(m);
      var b, t := PassKeepsMarked(u, a, m, ru);
      SpanUnique(v, b, m, t, a, x, rv);
      assert false;
    }
  }

  // ----- Main results -----

  /** What each pass promises, and what survives the second one. */
  lemma SanitizeMasks(message: string)
    ensures UrlsMasked(UrlPass(message))
    ensures ValuesMasked(Sanitize(message))
  {
    UrlPassIdempotent(message);
    UrlsMaskedIff(UrlPass(message));
    KeyValuePassIdempotent(UrlPass(message));
    ValuesMaskedIff(Sanitize(message));
  }

  /** A second call changes a sanitized text exactly if the first left a URL
      unmasked in it, as the key=value pass may. */
  lemma SecondCallIff(message: string)
    ensures Sanitize(Sanitize(message)) == Sanitize(message) <==> UrlsMasked(Sanitize(message))
  {
    hide UrlPass, KeyValuePass, UrlsMasked;
    var v := Sanitize(message);
    KeyValuePassIdempotent(UrlPass(message));
    UrlOfEmpty();
    PassOfEmpty();
    assert KeyValuePass(v) == v;
    UrlsMaskedIff(v);
    if KeyValuePass(UrlPass(v)) == v { NoUndo(v); }
  }

  /** Without an '@' there is nothing for the URL pass, before or after. */
  lemma {:induction false} NoAtIsMasked(s: string)
    requires Ats(s) == 0
    ensures UrlsMasked(s)
  {
    hide UrlAt;
    if s != "" {
      if UrlAt(s) { UrlEndIsAt(s); }
      AtsOfParts(s, [s[0]], s[1..]);
      NoAtIsMasked(s[1..]);
    }
  }

  lemma SanitizeIdempotentWithoutAt(message: string)
    requires '@' !in message
    ensures Sanitize(Sanitize(message)) == Sanitize(message)
  {
    UrlPassAts(message);
    KeyValuePassAts(UrlPass(message));
    NoAtIsMasked(Sanitize(message));
    SecondCallIff(message);
  }
}
