/** The URL-credentials pass of the log sanitizer, read as leftmost substitution
    with the compiled pattern. */
module LogUrlPass {
  import opened LogText

  // ----- URL credentials -----

  /** Behind a protocol: "://" and a word that holds an '@'. */
  predicate HasCredentials(t: string) {
    Starts(t, "://") && LastIndex(t[3..][..Run(WORD, t[3..])], '@') >= 0
  }

  /** The index of the last '@' of that word. */
  function CredentialsEnd(t: string): (at: nat)
    requires HasCredentials(t)
    ensures 3 <= at < |t|
  {
    3 + LastIndex(t[3..][..Run(WORD, t[3..])], '@')
  }

  /** The two functions above, from the parts of the text. */
  lemma CredentialsAre(creds: string, word: string, rest: string)
    requires All(WORD, creds) && All(WORD, word) && '@' !in word && Stops(WORD, rest)
    ensures HasCredentials("://" + creds + "@" + word + rest)
    ensures CredentialsEnd("://" + creds + "@" + word + rest) == 3 + |creds|
  {
    var t := "://" + creds + "@" + word + rest;
    var w := creds + "@" + word;
    assert t[3..] == w + rest;
    RunIs(WORD, w, rest);
    assert t[3..][..|w|] == w;
    LastIndexIs(w, '@', |creds|);
  }

  lemma NoCredentials(word: string, rest: string)
    requires All(WORD, word) && '@' !in word && Stops(WORD, rest)
    ensures !HasCredentials("://" + word + rest)
  {
    var t := "://" + word + rest;
    assert t[3..] == word + rest;
    RunIs(WORD, word, rest);
    assert t[3..][..|word|] == word;
    LastIndexIs(word, '@', -1);
  }

  /** Conversely, the parts from the text. */
  lemma CredentialParts(t: string) returns (creds: string, word: string, rest: string)
    requires HasCredentials(t)
    ensures All(WORD, creds) && All(WORD, word) && '@' !in word && Stops(WORD, rest)
    ensures t == "://" + creds + "@" + word + rest && CredentialsEnd(t) == 3 + |creds|
  {
    var n := Run(WORD, t[3..]);
    var w := t[3..][..n];
    RunStops(WORD, t[3..]);
    var i := LastIndex(w, '@');
    creds, word, rest := w[..i], w[i + 1..], t[3..][n..];
    assert w == creds + "@" + word;
    assert t == t[..3] + (w + rest);
  }

  /** The URL pattern matches at the start of `s`. */
  predicate UrlAt(s: string) {
    s != "" && IsLetter(s[0]) && HasCredentials(s[Run(PROTOCOL, s)..])
  }

  /** The index of the '@' that ends the match. */
  function UrlEnd(s: string): (at: nat)
    requires UrlAt(s)
    ensures Run(PROTOCOL, s) + 3 <= at < |s|
  {
    Run(PROTOCOL, s) + CredentialsEnd(s[Run(PROTOCOL, s)..])
  }

  /** The part of the credentials that is masked: all of them without a ':',
      else what follows the last one. */
  function SecretStart(s: string): (n: nat)
    requires UrlAt(s)
    ensures Run(PROTOCOL, s) + 3 <= n <= UrlEnd(s)
  {
    var p := Run(PROTOCOL, s) + 3;
    p + LastIndex(s[p..UrlEnd(s)], ':') + 1
  }

  /** Substituting every match of the URL pattern, left to right. */
  function UrlPass(s: string): string {
    if s == "" then ""
    else if UrlAt(s) then s[..SecretStart(s)] + "***@" + UrlPass(s[UrlEnd(s) + 1..])
    else [s[0]] + UrlPass(s[1..])
  }

  lemma UrlKept(s: string)
    requires s != "" && !UrlAt(s)
    ensures UrlPass(s) == [s[0]] + UrlPass(s[1..])
  {
  }

  lemma UrlMasked(s: string)
    requires UrlAt(s)
    ensures UrlPass(s) == s[..SecretStart(s)] + "***@" + UrlPass(s[UrlEnd(s) + 1..])
  {
  }

  lemma UrlOfEmpty()
    ensures UrlPass("") == ""
  {
  }

  lemma UrlNeedsLetter(s: string)
    requires s != "" && !IsLetter(s[0])
    ensures !UrlAt(s)
  {
  }

  lemma UrlFirst(s: string)
    requires s != ""
    ensures UrlPass(s) != "" && UrlPass(s)[0] == s[0]
  {
  }

  lemma UrlParts(s: string) returns (p: string, creds: string, word: string, rest: string)
    requires UrlAt(s)
    ensures p != "" && IsLetter(p[0]) && All(PROTOCOL, p) && All(WORD, creds) && All(WORD, word) && '@' !in word && Stops(WORD, rest)
    ensures s == p + ("://" + creds + "@" + word + rest)
    ensures Run(PROTOCOL, s) == |p| && UrlEnd(s) == |p| + 3 + |creds|
    ensures SecretStart(s) == |p| + 3 + LastIndex(creds, ':') + 1
  {
    var n := Run(PROTOCOL, s);
    RunStops(PROTOCOL, s);
    p := s[..n];
    creds, word, rest := CredentialParts(s[n..]);
    assert s == p + s[n..];
    assert s[n + 3..UrlEnd(s)] == creds;
  }

  lemma WordGoesOn(word: string, rest: string, q: string, tail: string)
    requires word + rest == q + tail && All(WORD, q) && |word| < |q|
    ensures !Stops(WORD, rest)
  {
    assert (word + rest)[|word|] == rest[0] && (q + tail)[|word|] == q[|word|];
  }

  /** An '@' that ends credentials of a text starting with a word is in that word. */
  lemma AtInWord(word: string, rest: string, p: string, creds: string, tail: string)
    requires All(PROTOCOL, p) && All(WORD, creds) && Stops(WORD, rest)
    requires word + rest == p + ("://" + creds + "@" + tail)
    ensures '@' in word
  {
    var q := p + "://" + creds + "@";
    assert All(WORD, q);
    assert word + rest == q + tail;
    assert q[|q| - 1] == '@';
    if |word| < |q| {
      WordGoesOn(word, rest, q, tail);
    } else {
      assert word[|q| - 1] == (word + rest)[|q| - 1];
    }
  }

  lemma WordHasNoUrl(word: string, rest: string)
    requires All(WORD, word) && '@' !in word && Stops(WORD, rest)
    ensures !UrlAt(word + rest)
  {
    if UrlAt(word + rest) {
      var p, creds, w, r := UrlParts(word + rest);
      AtInWord(word, rest, p, creds, w + r);
    }
  }

  /** A leading word without '@' is kept as it is. */
  lemma {:induction false} UrlKeepsWord(word: string, rest: string)
    requires All(WORD, word) && '@' !in word && Stops(WORD, rest)
    ensures UrlPass(word + rest) == word + UrlPass(rest) && Stops(WORD, UrlPass(rest))
  {
    hide UrlAt, UrlPass, In;
    if rest != "" { UrlFirst(rest); } else { UrlOfEmpty(); }
    if word == "" {
      assert word + rest == rest;
    } else {
      var s := word + rest;
      WordHasNoUrl(word, rest);
      UrlKept(s);
      UrlKeepsWord(word[1..], rest);
      assert s[1..] == word[1..] + rest;
    }
  }

  /** The pass neither makes nor breaks a leading text without letters. */
  lemma {:induction false} UrlKeepsMarks(t: string, marks: string)
    requires forall c | c in marks :: !IsLetter(c)
    ensures Starts(UrlPass(t), marks) == Starts(t, marks)
    ensures Starts(t, marks) ==> UrlPass(t) == marks + UrlPass(t[|marks|..])
  {
    hide UrlAt, UrlPass;
    if t == "" {
      UrlOfEmpty();
    } else {
      UrlFirst(t);
      if marks != "" && marks[0] == t[0] {
        UrlNeedsLetter(t);
        UrlKept(t);
        UrlKeepsMarks(t[1..], marks[1..]);
        StartsTail(t, marks);
        StartsTail(UrlPass(t), marks);
        if Starts(t, marks) { assert t[1..][|marks| - 1..] == t[|marks|..]; }
      }
    }
  }

  lemma WordOfNoCredentials(t: string, word: string, rest: string)
    requires Starts(t, "://") && !HasCredentials(t) && word == t[3..][..Run(WORD, t[3..])] && rest == t[3..][|word|..]
    ensures '@' !in word && t[3..] == word + rest
  {
  }

  /** What cannot follow the protocol of a match still cannot after the pass. */
  lemma UrlKeepsTail(t: string)
    requires Stops(PROTOCOL, t) && !HasCredentials(t)
    ensures Stops(PROTOCOL, UrlPass(t)) && !HasCredentials(UrlPass(t))
  {
    hide UrlPass, UrlAt, In;
    if t == "" { UrlOfEmpty(); } else { UrlFirst(t); }
    UrlKeepsMarks(t, "://");
    if Starts(t, "://") {
      var r := t[3..];
      var n := Run(WORD, r);
      RunStops(WORD, r);
      var word, rest := r[..n], r[n..];
      WordOfNoCredentials(t, word, rest);
      UrlKeepsWord(word, rest);
      NoCredentials(word, UrlPass(rest));
      assert UrlPass(t) == "://" + word + UrlPass(rest);
    }
  }

  lemma {:induction false} UrlKeepsProtocol(p: string, t: string)
    requires All(PROTOCOL, p) && Stops(PROTOCOL, t) && !HasCredentials(t)
    ensures UrlPass(p + t) == p + UrlPass(t)
  {
    if p == "" {
      assert p + t == t;
    } else {
      var s := p + t;
      RunIs(PROTOCOL, p, t);
      assert s[|p|..] == t && s[1..] == p[1..] + t;
      assert !UrlAt(s);
      hide UrlAt, UrlPass, In;
      UrlKept(s);
      UrlKeepsProtocol(p[1..], t);
    }
  }

  lemma TailOfProtocol(p: string)
    requires p != "" && All(PROTOCOL, p)
    ensures All(PROTOCOL, p[1..]) && p == [p[0]] + p[1..]
  {
  }

  lemma ProtocolParts(s: string) returns (p: string, t: string)
    requires s != "" && IsLetter(s[0]) && !UrlAt(s)
    ensures p != "" && p[0] == s[0] && s == p + t && s[1..] == p[1..] + t
    ensures All(PROTOCOL, p) && Stops(PROTOCOL, t) && !HasCredentials(t)
  {
    hide HasCredentials;
    var n := Run(PROTOCOL, s);
    RunStops(PROTOCOL, s);
    p, t := s[..n], s[n..];
    assert n > 0;
  }

  lemma NotUrl(p: string, t: string)
    requires All(PROTOCOL, p) && Stops(PROTOCOL, t) && !HasCredentials(t)
    ensures !UrlAt(p + t)
  {
    hide In, HasCredentials;
    RunIs(PROTOCOL, p, t);
    assert (p + t)[|p|..] == t;
  }

  /** Where the pattern does not match, it does not match after the pass. */
  lemma UrlKeepsNoMatch(s: string)
    requires s != "" && !UrlAt(s)
    ensures !UrlAt([s[0]] + UrlPass(s[1..]))
  {
    hide UrlAt, UrlPass, In, HasCredentials;
    var y := [s[0]] + UrlPass(s[1..]);
    if IsLetter(s[0]) {
      var p, t := ProtocolParts(s);
      TailOfProtocol(p);
      UrlKeepsTail(t);
      UrlKeepsProtocol(p[1..], t);
      assert y == p + UrlPass(t);
      NotUrl(p, UrlPass(t));
    } else {
      UrlNeedsLetter(y);
    }
  }

  /** A text put together from the parts of a match is a match with these parts. */
  lemma UrlIs(p: string, creds: string, word: string, rest: string, y: string)
    requires p != "" && IsLetter(p[0]) && All(PROTOCOL, p) && All(WORD, creds) && All(WORD, word) && '@' !in word && Stops(WORD, rest)
    requires y == p + ("://" + creds + "@" + word + rest)
    ensures UrlAt(y) && Run(PROTOCOL, y) == |p| && UrlEnd(y) == |p| + 3 + |creds|
    ensures SecretStart(y) == |p| + 3 + LastIndex(creds, ':') + 1
  {
    var t := "://" + creds + "@" + word + rest;
    CredentialsAre(creds, word, rest);
    RunIs(PROTOCOL, p, t);
    assert y[|p|..] == t && y[0] == p[0];
    assert y[|p| + 3..UrlEnd(y)] == creds;
  }

  lemma StarsAreWord(user: string)
    requires All(WORD, user)
    ensures All(WORD, user + "***")
  {
  }

  /** A masked match is matched again, with the same secret. */
  lemma UrlMaskedAgain(s: string, y: string)
    requires UrlAt(s) && y == UrlPass(s)
    ensures UrlAt(y) && SecretStart(y) == SecretStart(s) && UrlEnd(y) == SecretStart(s) + 3
  {
    hide UrlAt, UrlPass, UrlEnd, SecretStart, In;
    var p, creds, word, rest := UrlParts(s);
    var k := LastIndex(creds, ':') + 1;
    var user := creds[..k];
    UrlMasked(s);
    UrlKeepsWord(word, rest);
    assert s[UrlEnd(s) + 1..] == word + rest;
    assert s[..SecretStart(s)] == p + "://" + user;
    assert y == p + ("://" + (user + "***") + "@" + word + UrlPass(rest));
    LastIndexIs(user + "***", ':', k - 1);
    StarsAreWord(user);
    UrlIs(p, user + "***", word, UrlPass(rest), y);
  }

  /** The URL pass is idempotent on every text. */
  lemma {:induction false} UrlPassIdempotent(s: string)
    ensures UrlPass(UrlPass(s)) == UrlPass(s)
  {
    if s != "" {
      var y := UrlPass(s);
      if UrlAt(s) {
        var rest := UrlPass(s[UrlEnd(s) + 1..]);
        UrlMaskedAgain(s, y);
        UrlPassIdempotent(s[UrlEnd(s) + 1..]);
        assert y[UrlEnd(y) + 1..] == rest && y[..SecretStart(y)] == s[..SecretStart(s)];
      } else {
        UrlKeepsNoMatch(s);
        UrlPassIdempotent(s[1..]);
        assert y[1..] == UrlPass(s[1..]);
      }
    }
  }
}
