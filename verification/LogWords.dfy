/** The masked texts of the URL pass, word by word: a match ends in the word in
    which it starts, so each word is masked or not on its own. */
module LogWords {
  import opened LogText
  import opened LogUrlPass
  import opened LogSanitizer

  predicate Ends(s: string, tail: string) {
    |s| >= |tail| && s[|s| - |tail|..] == tail
  }

  /** Characters of a protocol and "://". */
  predicate HeadAt(s: string) {
    Starts(s, "://") || (s != "" && IsProtocolChar(s[0]) && HeadAt(s[1..]))
  }

  /** What follows them. */
  function BehindHead(s: string): (x: string)
    requires HeadAt(s)
    ensures |x| < |s|
  {
    if Starts(s, "://") then s[3..] else BehindHead(s[1..])
  }

  predicate CredentialsMasked(creds: string) {
    creds == "***" || Ends(creds, ":***")
  }

  /** Behind "://": the credentials end at the last '@' of the word, if there is one. */
  predicate MaskedBehind(x: string) {
    LastIndex(x, '@') >= 0 ==> CredentialsMasked(x[..LastIndex(x, '@')])
  }

  /** The secret of the only match that the word can hold is "***". */
  predicate WordMasked(word: string) {
    word == "" ||
    if IsLetter(word[0]) && HeadAt(word) then MaskedBehind(BehindHead(word)) else WordMasked(word[1..])
  }

  // ----- Heads -----

  lemma {:induction false} HeadParts(s: string) returns (p: string)
    requires HeadAt(s)
    ensures s == p + ("://" + BehindHead(s)) && All(PROTOCOL, p)
    ensures IsProtocolChar(s[0]) ==> |p| > 0
  {
    if Starts(s, "://") {
      p := "";
      assert s == "://" + s[3..];
      assert s[0] == "://"[0];
    } else {
      var q := HeadParts(s[1..]);
      p := [s[0]] + q;
      assert s == [s[0]] + s[1..];
    }
  }

  lemma {:induction false} HeadIs(p: string, x: string)
    requires All(PROTOCOL, p)
    ensures HeadAt(p + ("://" + x)) && BehindHead(p + ("://" + x)) == x
  {
    var s := p + ("://" + x);
    if p == "" {
      assert s == "://" + x && s[..3] == "://" && s[3..] == x;
    } else {
      assert In(PROTOCOL, p[0]) && s[0] == p[0];
      assert s[1..] == p[1..] + ("://" + x);
      HeadIs(p[1..], x);
    }
  }

  lemma ProtocolIsWord(p: string)
    requires All(PROTOCOL, p)
    ensures All(WORD, p) && '@' !in p && ':' !in p
  {
    assert forall i | 0 <= i < |p| :: In(PROTOCOL, p[i]) && In(WORD, p[i]);
  }

  // ----- One word of a text -----

  lemma ColonsOfMask(creds: string, user: string)
    requires creds == user + ":***"
    ensures LastIndex(creds, ':') == |user|
  {
    assert creds[|user|] == ':';
    LastIndexIs(creds, ':', |user|);
  }

  lemma MaskEnds(creds: string, k: nat)
    requires k < |creds| && creds[k] == ':' && creds[k + 1..] == "***"
    ensures Ends(creds, ":***")
  {
    assert creds[k..] == [':'] + creds[k + 1..];
  }

  lemma StarsAreMask(creds: string)
    requires creds == "***"
    ensures LastIndex(creds, ':') == -1
  {
    LastIndexIs(creds, ':', -1);
  }

  lemma EndIsMask(creds: string)
    requires Ends(creds, ":***")
    ensures creds[LastIndex(creds, ':') + 1..] == "***"
  {
    var user := creds[..|creds| - 4];
    assert creds == user + ":***";
    ColonsOfMask(creds, user);
  }

  lemma MaskedSecret(creds: string)
    ensures creds[LastIndex(creds, ':') + 1..] == "***" <==> CredentialsMasked(creds)
  {
    hide Ends, LastIndex;
    var k := LastIndex(creds, ':');
    assert creds[0..] == creds;
    if creds == "***" {
      StarsAreMask(creds);
    } else if Ends(creds, ":***") {
      EndIsMask(creds);
    } else if k >= 0 && creds[k + 1..] == "***" {
      MaskEnds(creds, k);
      assert false;
    }
  }

  /** A word without '@' changes nothing. */
  lemma {:induction false} WordWithoutAt(word: string, rest: string)
    requires All(WORD, word) && '@' !in word && Stops(WORD, rest)
    ensures UrlsMasked(word + rest) == UrlsMasked(rest)
  {
    hide UrlAt, In;
    if word == "" {
      assert word + rest == rest;
    } else {
      WordHasNoUrl(word, rest);
      assert (word + rest)[1..] == word[1..] + rest;
      WordWithoutAt(word[1..], rest);
    }
  }

  lemma {:induction false} NoAtNoSecret(word: string)
    requires '@' !in word
    ensures WordMasked(word)
  {
    if word != "" {
      if HeadAt(word) {
        var p := HeadParts(word);
        assert '@' !in BehindHead(word);
      }
      NoAtNoSecret(word[1..]);
    }
  }

  lemma CredentialsAreWord(p: string, creds: string, q: string)
    requires All(WORD, p) && All(WORD, creds) && q == p + "://" + creds + "@"
    ensures All(WORD, q)
  {
  }

  lemma PrefixOf(word: string, rest: string, q: string, tail: string)
    requires word + rest == q + tail && |q| <= |word|
    ensures word == q + word[|q|..]
  {
    assert (word + rest)[..|q|] == word[..|q|] && (q + tail)[..|q|] == q;
  }

  /** A match at the start of a text starts with a head in the first word. */
  lemma MatchHasHead(word: string, rest: string)
    requires All(WORD, word) && Stops(WORD, rest) && UrlAt(word + rest)
    ensures word != "" && IsLetter(word[0]) && HeadAt(word)
  {
    hide UrlAt, UrlEnd, SecretStart, HeadAt, BehindHead, In;
    var p, creds, w, r := UrlParts(word + rest);
    ProtocolIsWord(p);
    var q := p + "://" + creds + "@";
    CredentialsAreWord(p, creds, q);
    assert word + rest == q + (w + r);
    if |word| < |q| { WordGoesOn(word, rest, q, w + r); }
    PrefixOf(word, rest, q, w + r);
    var x := creds + "@" + word[|q|..];
    assert word == p + ("://" + x);
    HeadIs(p, x);
  }

  lemma MaskedMatch(s: string)
    requires UrlAt(s)
    ensures UrlsMasked(s) == (s[SecretStart(s)..UrlEnd(s)] == "***" && UrlsMasked(s[UrlEnd(s) + 1..]))
  {
  }

  lemma SecretOfParts(y: string, p: string, creds: string, w: string, rest: string, k: nat)
    requires y == p + ("://" + creds + "@" + w + rest) && k <= |creds|
    ensures y[|p| + 3 + |creds| + 1..] == w + rest
    ensures y[|p| + 3 + k..|p| + 3 + |creds|] == creds[k..]
  {
    assert y == (p + "://" + creds + "@") + (w + rest);
    assert y == (p + "://") + (creds + ("@" + w + rest));
  }

  lemma MaskedParts(p: string, creds: string, w: string, rest: string, y: string)
    requires p != "" && IsLetter(p[0]) && All(PROTOCOL, p) && All(WORD, creds) && All(WORD, w) && '@' !in w && Stops(WORD, rest)
    requires y == p + ("://" + creds + "@" + w + rest)
    ensures UrlsMasked(y) == (CredentialsMasked(creds) && UrlsMasked(rest))
  {
    hide UrlAt, UrlEnd, SecretStart, UrlsMasked, In, CredentialsMasked;
    UrlIs(p, creds, w, rest, y);
    MaskedMatch(y);
    SecretOfParts(y, p, creds, w, rest, LastIndex(creds, ':') + 1);
    WordWithoutAt(w, rest);
    MaskedSecret(creds);
  }

  lemma WordOfParts(word: string, p: string, creds: string, w: string)
    requires All(WORD, word) && word == p + ("://" + (creds + "@" + w))
    ensures All(WORD, creds) && All(WORD, w)
    ensures word != "" && IsLetter(word[0]) && All(PROTOCOL, p) ==> p != "" && p[0] == word[0]
  {
    assert forall i | 0 <= i < |creds| :: creds[i] == word[|p| + 3 + i];
    assert forall i | 0 <= i < |w| :: w[i] == word[|p| + 4 + |creds| + i];
  }

  /** A head with an '@' behind it is a match, and its secret is what was said. */
  lemma HeadMatches(word: string, rest: string)
    requires All(WORD, word) && Stops(WORD, rest) && word != "" && IsLetter(word[0]) && HeadAt(word)
    requires LastIndex(BehindHead(word), '@') >= 0
    ensures UrlsMasked(word + rest) == (MaskedBehind(BehindHead(word)) && UrlsMasked(rest))
  {
    hide UrlAt, UrlEnd, SecretStart, HeadAt, BehindHead, UrlsMasked, In, CredentialsMasked;
    var x := BehindHead(word);
    var p := HeadParts(word);
    var i := LastIndex(x, '@');
    var creds, w := x[..i], x[i + 1..];
    assert x == creds + "@" + w;
    assert word == p + ("://" + (creds + "@" + w));
    WordOfParts(word, p, creds, w);
    assert word + rest == p + ("://" + creds + "@" + w + rest);
    MaskedParts(p, creds, w, rest, word + rest);
  }

  lemma NoAtBehindHead(word: string)
    requires HeadAt(word) && LastIndex(BehindHead(word), '@') < 0
    ensures '@' !in word && MaskedBehind(BehindHead(word))
  {
    var p := HeadParts(word);
    ProtocolIsWord(p);
  }

  /** A text is masked if its first word and what follows it are. */
  lemma {:induction false} WordByWord(word: string, rest: string)
    requires All(WORD, word) && Stops(WORD, rest)
    ensures UrlsMasked(word + rest) == (WordMasked(word) && UrlsMasked(rest))
  {
    hide UrlAt, UrlEnd, SecretStart, HeadAt, BehindHead, In, MaskedBehind;
    if word == "" {
      assert word + rest == rest;
    } else if IsLetter(word[0]) && HeadAt(word) {
      if LastIndex(BehindHead(word), '@') >= 0 {
        HeadMatches(word, rest);
      } else {
        NoAtBehindHead(word);
        WordWithoutAt(word, rest);
      }
    } else {
      if UrlAt(word + rest) { MatchHasHead(word, rest); }
      assert (word + rest)[1..] == word[1..] + rest;
      WordByWord(word[1..], rest);
    }
  }

  // ----- What follows part of a masked text is masked -----

  /** Behind a second "://" in masked credentials, they are masked as well. */
  lemma MaskedBehindAgain(x: string, a: string, x': string)
    requires MaskedBehind(x) && x == a + ("://" + x')
    ensures MaskedBehind(x')
  {
    var i := LastIndex(x', '@');
    if i >= 0 {
      var n := |a| + 3;
      LastIndexIs(x, '@', n + i);
      var creds := x[..n + i];
      assert creds == a + ("://" + x'[..i]);
      assert creds[|a|] == ':' && creds[|a| + 1] == '/' && creds[|a| + 2] == '/';
      if creds == "***" {
      } else {
        var e := creds[|creds| - 4..];
        assert e == ":***";
        assert forall k | 0 <= k < 4 :: creds[|creds| - 4 + k] == e[k];
        assert i >= 4;
        assert x'[..i][i - 4..] == e;
      }
    }
  }

  predicate MarkAt(s: string, k: nat) {
    k <= |s| && Starts(s[k..], "://")
  }

  /** Behind each "://" the credentials are masked. */
  ghost predicate MarksMasked(s: string) {
    forall k: nat | MarkAt(s, k) :: MaskedBehind(s[k..][3..])
  }

  lemma TailOfMarks(s: string)
    requires MarksMasked(s) && s != ""
    ensures MarksMasked(s[1..])
  {
    hide MaskedBehind;
    forall k: nat | MarkAt(s[1..], k) ensures MaskedBehind(s[1..][k..][3..]) {
      assert s[1..][k..] == s[k + 1..];
      assert MarkAt(s, k + 1);
    }
  }

  lemma MarksMaskHead(s: string)
    requires MarksMasked(s) && HeadAt(s)
    ensures MaskedBehind(BehindHead(s))
  {
    hide MaskedBehind, HeadAt, BehindHead;
    var p := HeadParts(s);
    assert s[|p|..] == "://" + BehindHead(s);
    assert MarkAt(s, |p|);
  }

  lemma {:induction false} MarksMaskWord(s: string)
    requires MarksMasked(s)
    ensures WordMasked(s)
  {
    hide MaskedBehind, HeadAt, BehindHead, MarksMasked;
    if s != "" {
      if HeadAt(s) { MarksMaskHead(s); }
      TailOfMarks(s);
      MarksMaskWord(s[1..]);
    }
  }

  lemma HeadMasksMark(s: string, p: string, x: string, k: nat)
    requires s == p + ("://" + x) && ':' !in p && MaskedBehind(x) && MarkAt(s, k)
    ensures MaskedBehind(s[k..][3..])
  {
    hide MaskedBehind;
    assert s[k..][..3][0] == ':' && s[k..][..3][1] == '/';
    assert s[k] == ':' && s[k + 1] == '/';
    var x' := s[k..][3..];
    assert s[k..] == "://" + x';
    if k == |p| {
      assert x' == x;
    } else {
      assert k >= |p|;
      assert s[|p|] == ':' && s[|p| + 1] == '/' && s[|p| + 2] == '/';
      assert k >= |p| + 3;
      var a := x[..k - |p| - 3];
      assert s[|p| + 3..] == x;
      assert x == a + ("://" + x');
      MaskedBehindAgain(x, a, x');
    }
  }

  lemma HeadMasksMarks(s: string)
    requires HeadAt(s) && MaskedBehind(BehindHead(s))
    ensures MarksMasked(s)
  {
    hide MaskedBehind, HeadAt, BehindHead;
    var p := HeadParts(s);
    ProtocolIsWord(p);
    forall k: nat | MarkAt(s, k) ensures MaskedBehind(s[k..][3..]) {
      HeadMasksMark(s, p, BehindHead(s), k);
    }
  }

  lemma TailOfMaskedWord(word: string)
    requires WordMasked(word) && word != ""
    ensures WordMasked(word[1..])
  {
    hide MaskedBehind, HeadAt, BehindHead, MarksMasked;
    if IsLetter(word[0]) && HeadAt(word) {
      HeadMasksMarks(word);
      TailOfMarks(word);
      MarksMaskWord(word[1..]);
    }
  }

  lemma TailMasked(s: string)
    requires UrlsMasked(s) && s != ""
    ensures UrlsMasked(s[1..])
  {
    hide UrlAt, WordMasked;
    var n := Run(WORD, s);
    RunStops(WORD, s);
    if n == 0 {
      assert !In(WORD, s[0]);
      UrlNeedsLetter(s);
    } else {
      var word, rest := s[..n], s[n..];
      assert s == word + rest && s[1..] == word[1..] + rest;
      WordByWord(word, rest);
      TailOfMaskedWord(word);
      WordByWord(word[1..], rest);
    }
  }

  lemma {:induction false} TailsMasked(s: string, k: nat)
    requires UrlsMasked(s) && k <= |s|
    ensures UrlsMasked(s[k..])
  {
    hide UrlsMasked, WordMasked;
    if k == 0 {
      assert s[0..] == s;
    } else {
      TailMasked(s);
      TailsMasked(s[1..], k - 1);
      assert s[1..][k - 1..] == s[k..];
    }
  }
}
