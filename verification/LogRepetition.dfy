/** What a second call of the log sanitizer does: exactly when it changes the text,
    the two ways in which this comes about, and a text for each. */
module LogRepetition {
  import opened LogText
  import opened LogUrlPass
  import opened LogKeyValuePass
  import opened LogSanitizer
  import opened LogWords
  import opened LogExposure

  // ----- Main results -----

  lemma SanitizeIs(message: string)
    ensures Sanitize(message) == KeyValuePass(UrlPass(message))
  {
    hide UrlPass, KeyValuePass;
    UrlOfEmpty();
    PassOfEmpty();
  }

  /** A second call changes the text exactly if, in the output of the URL pass, a key
      match exposes a secret behind a kept "letter...://" of its word. */
  lemma SanitizeIdempotentIff(message: string)
    ensures Sanitize(Sanitize(message)) == Sanitize(message) <==> !exists k: nat :: ExposedAt(UrlPass(message), k)
  {
    hide UrlPass, KeyValuePass, UrlsMasked, ExposedAt;
    SecondCallIff(message);
    SanitizeMasks(message);
    SanitizeIs(message);
    PassMasked(UrlPass(message));
  }

  /** A key matches behind a kept head, in its word. */
  predicate KeyBehindHead(u: string, k: nat) {
    KeptHeadAt(u, k) && var x := BehindHead(u[k..]); FindKey(x[PlainLength(x)..], KEYS) != ""
  }

  /** No such match, nothing to expose. */
  lemma SanitizeIdempotentIfApart(message: string)
    requires !exists k: nat :: KeyBehindHead(UrlPass(message), k)
    ensures Sanitize(Sanitize(message)) == Sanitize(message)
  {
    hide UrlPass, KeptHeadAt, BehindHead, FindKey;
    SanitizeIdempotentIff(message);
    assert forall k: nat :: ExposedAt(UrlPass(message), k) ==> KeyBehindHead(UrlPass(message), k);
  }

  // ----- The two ways in which a secret is exposed -----

  /** A tail takes the space that ended the word. */
  predicate TakesSpace(x: string) {
    |AfterWord(x)| < |x| - Run(WORD, x)
  }

  /** A tail takes the '@' that ended the credentials. */
  predicate TakesAt(x: string) {
    var i := LastIndex(x[..Run(WORD, x)], '@');
    i >= 0 && !Reaches(x, i)
  }

  lemma NoValueBehind(x: string, key: string, k: nat)
    requires key == FindKey(x, KEYS) && key != "" && k < |x| && x[k..] == AfterTail(x[|key|..])
    ensures !IsValueChar(x[k])
  {
    hide FindKey, AfterTail, TailAt, IsValueChar;
    AfterTailStops(x[|key|..]);
    assert x[k..][0] == x[k];
  }

  /** A masked secret is in front of its '@' as soon as the scan comes to that '@'. */
  lemma {:induction false} ReachesBack(x: string, n: nat)
    requires 0 < n < |x| && Reaches(x, n) && IsValueChar(x[n])
    ensures Reaches(x, n - 1)
    decreases n
  {
    hide FindKey, AfterTail, TailAt, IsValueChar;
    var key := FindKey(x, KEYS);
    if key != "" {
      var k := RestIsTail(x, key);
      ReachesKey(x, key, k, n);
      NoValueBehind(x, key, k);
      if n > k {
        assert x[k..][n - k] == x[n];
        ReachesBack(x[k..], n - k);
        ReachesKey(x, key, k, n - k - 1);
      }
    } else if n > 1 {
      ReachesPlain(x, n - 1);
      ReachesBack(x[1..], n - 1);
      ReachesPlain(x, n - 2);
    }
  }

  lemma {:induction false} ReachesMask(x: string, n: nat, m: nat)
    requires m <= n < |x| && Reaches(x, n) && forall i | m <= i <= n :: IsValueChar(x[i])
    ensures Reaches(x, m)
  {
    hide Reaches, IsValueChar;
    if m < n {
      ReachesBack(x, n);
      ReachesMask(x, n - 1, m);
    }
  }

  lemma WordStart(x: string, n: nat)
    requires 0 < n <= |x| && All(WORD, x[..n])
    ensures !IsSpace(x[0])
  {
    assert In(WORD, x[..n][0]);
  }

  lemma WordSlices(x: string, k: nat, n: nat)
    requires k <= n <= |x| && All(WORD, x[..n])
    ensures x[k..][n - k..] == x[n..] && All(WORD, x[k..][..n - k])
  {
    hide In;
    assert x[k..][..n - k] == x[..n][k..];
  }

  /** Inside the first word, the output goes on as on the text from there on. */
  lemma {:induction false} LeftFrom(x: string, n: nat) returns (b: string)
    requires n <= |x| && Reaches(x, n) && All(WORD, x[..n])
    ensures WordLeft(x) == b + WordLeft(x[n..]) && AfterWord(x) == AfterWord(x[n..])
    ensures n == 0 ==> b == ""
    decreases |x|
  {
    hide WordLeft, AfterWord, FindKey, AfterTail, TailAt, IsSpace;
    if n == 0 {
      assert x[0..] == x;
      b := "";
    } else {
      var key := FindKey(x, KEYS);
      WordStart(x, n);
      hide In;
      if key != "" {
        var k := RestIsTail(x, key);
        KeyStep(x, key, x[k..]);
        WordSlices(x, k, n);
        b := LeftFrom(x[k..], n - k);
        b := x[..|key|] + "=***" + b;
      } else {
        PlainStep(x);
        WordSlices(x, 1, n);
        b := LeftFrom(x[1..], n - 1);
        b := [x[0]] + b;
      }
    }
  }

  /** An '@' in the output of a word stands in the input in front of the kept space. */
  lemma {:induction false} AtsLeft(t: string)
    requires '@' !in t[..|t| - |AfterWord(t)|]
    ensures '@' !in WordLeft(t)
    decreases |t|
  {
    hide WordLeft, AfterWord, FindKey, AfterTail, TailAt, IsSpace;
    if t == "" || IsSpace(t[0]) {
      NoKeyInSpace(t);
    } else {
      var key := FindKey(t, KEYS);
      var n := |t| - |AfterWord(t)|;
      if key != "" {
        var k := RestIsTail(t, key);
        KeyStep(t, key, t[k..]);
        NameIsWord(t, key);
        assert t[k..][..n - k] == t[..n][k..];
        AtsLeft(t[k..]);
      } else {
        PlainStep(t);
        assert t[..n] == [t[0]] + t[1..][..n - 1];
        AtsLeft(t[1..]);
      }
    }
  }

  lemma MaskIsValue(marks: string)
    requires marks == "***@" || marks == ":***@"
    ensures forall i | 0 <= i < |marks| :: IsValueChar(marks[i])
    ensures forall c | c in marks :: !KeyChar(Fold(c)) && !IsSpace(c)
  {
    forall c | c in marks ensures !KeyChar(Fold(c)) && !IsSpace(c) {
      MarksAreNotInKey(c);
    }
  }

  lemma MaskedLast(s: string, b: string, m: string, left: string)
    requires s == b + ((m + "@") + left) && '@' !in left
    requires (m == "***" && b == "") || m == ":***"
    ensures MaskedBehind(s)
  {
    var i := |b| + |m|;
    assert s[i] == '@' && forall j | i < j < |s| :: s[j] == left[j - i - 1];
    LastIndexIs(s, '@', i);
    assert s[..i] == b + m;
  }

  /** Credentials whose mask the scan comes to stay masked, if no later '@' is in the word. */
  lemma MaskStays(x: string, m: string, n: nat)
    requires m == ":***" || (m == "***" && n == 0)
    requires n + |m| < |x| && x[n..][..|m| + 1] == m + "@" && Reaches(x, n + |m|) && All(WORD, x[..n])
    requires forall j | n + |m| < j < |x| - |AfterWord(x)| :: x[j] != '@'
    ensures MaskedBehind(WordLeft(x))
  {
    hide WordLeft, AfterWord, Reaches, IsSpace, In, MaskedBehind, KeyChar, Fold;
    var marks := m + "@";
    MaskIsValue(marks);
    assert forall i | n <= i <= n + |m| :: x[i] == marks[i - n];
    ReachesMask(x, n + |m|, n);
    var b := LeftFrom(x, n);
    WordLeftMarks(x[n..], marks);
    var t := x[n + |m| + 1..];
    assert x[n..][|marks|..] == t;
    AtsLeft(t);
    MaskedLast(WordLeft(x), b, m, WordLeft(t));
  }

  lemma MaskOf(x: string, w: string, i: nat, m: string)
    requires |w| <= |x| && w == x[..|w|] && i < |w| && w[i] == '@' && All(WORD, w)
    requires m == (if w[..i] == "***" then "***" else ":***") && CredentialsMasked(w[..i])
    ensures |m| <= i && x[i - |m|..][..|m| + 1] == m + "@" && All(WORD, x[..i - |m|])
    ensures m == "***" ==> i == 3
  {
    hide In;
    assert Ends(w[..i], m);
    assert x[i - |m|..][..|m| + 1] == w[..i][i - |m|..] + [w[i]];
  }

  /** A secret that was masked is exposed only in one of these two ways. */
  lemma ExposedCauses(x: string)
    requires MaskedBehind(x[..Run(WORD, x)]) && KeyExposes(x)
    ensures TakesSpace(x) || TakesAt(x)
  {
    hide WordLeft, AfterWord, Reaches, IsSpace, In, KeyExposes, Ends;
    var r := Run(WORD, x);
    var w := x[..r];
    var i := LastIndex(w, '@');
    RunStops(WORD, x);
    KeyExposesIff(x);
    if !TakesSpace(x) && !TakesAt(x) {
      assert forall j | i < j < r :: x[j] == w[j];
      if i < 0 {
        AtsLeft(x);
      } else {
        var m := if w[..i] == "***" then "***" else ":***";
        MaskOf(x, w, i, m);
        MaskStays(x, m, i - |m|);
      }
      assert false;
    }
  }

  predicate KeyTakes(u: string, k: nat) {
    KeyBehindHead(u, k) && var x := BehindHead(u[k..]); TakesSpace(x) || TakesAt(x)
  }

  /** Whenever a second call changes the text, a key match behind a kept head takes the
      space behind the word or the '@' behind the masked secret. */
  lemma SecondCallCauses(message: string)
    requires Sanitize(Sanitize(message)) != Sanitize(message)
    ensures exists k: nat :: KeyTakes(UrlPass(message), k)
  {
    hide UrlPass, KeyValuePass, UrlsMasked, TakesSpace, TakesAt, KeptHead, BehindHead, Reaches, FindKey, Sanitize;
    var u := UrlPass(message);
    SanitizeIdempotentIff(message);
    SanitizeMasks(message);
    var k: nat :| ExposedAt(u, k);
    TailsMasked(u, k);
    HeadInWord(u[k..]);
    ExposedCauses(BehindHead(u[k..]));
    assert KeyTakes(u, k);
  }

  // ----- Texts on which a second call changes the first result -----

  lemma LoneLetterKept(s: string)
    requires |s| >= 2 && !KeyChar(Fold(s[1]))
    ensures KeyValuePass(s) == [s[0]] + KeyValuePass(s[1..])
  {
    hide KeyValuePass, TailAt, FindKey;
    var key := FindKey(s, KEYS);
    if key != "" {
      KeysAreKeyish(key);
    } else {
      PassKeeps(s);
    }
  }

  lemma TokenMasked(s: string)
    requires s == "token:***@h"
    ensures KeyValuePass(s) == "token=***"
  {
    hide KeyValuePass, TailAt, AfterTail, FindKey;
    assert s[..5] == "token" && s[5..] == "" + ([':'] + ("" + ("***@h" + "")));
    StarIsNotBearer("***@h" + "");
    PlainTail(s[5..], "", ':', "", "***@h", "");
    assert KeyAt(s, "token") && KEYS[3] == "token";
    KeyFound(s, "token");
    PassMasks(s, "token");
    PassOfEmpty();
  }

  lemma FirstUrlPass()
    ensures UrlPass("a://x@token:p@h") == "a://x@token:***@h"
  {
    hide UrlAt, UrlPass, UrlEnd, SecretStart;
    var v, creds := "a://x@token:p@h", "x@token:p";
    assert v == "a" + ("://" + creds + "@" + "h" + "");
    LastIndexIs(creds, ':', 7);
    UrlIs("a", creds, "h", "", v);
    UrlMasked(v);
    UrlKeepsWord("h", "");
    UrlOfEmpty();
    assert "h" + "" == "h" && v[14..] == "h" && UrlPass("h") == "h";
    assert v[..12] == "a://x@token:";
  }

  lemma LetterMarks(letter: string, marks: string, rest: string)
    requires |letter| == 1 && marks != "" && Marks(marks)
    ensures KeyValuePass(letter + (marks + rest)) == letter + (marks + KeyValuePass(rest))
  {
    hide KeyValuePass;
    var s := letter + (marks + rest);
    assert s[1] == marks[0] && s[1..] == marks + rest;
    LoneLetterKept(s);
    PassKeepsMarks(marks, rest);
  }

  lemma FirstKeyValuePass(u: string)
    requires u == "a://x@token:***@h"
    ensures KeyValuePass(u) == "a://x@token=***"
  {
    hide KeyValuePass;
    var v := "x@token:***@h";
    assert u == "a" + ("://" + v) && v == "x" + ("@" + "token:***@h");
    LetterMarks("a", "://", v);
    LetterMarks("x", "@", "token:***@h");
    TokenMasked("token:***@h");
  }

  /** The documented idempotence does not hold in general. Here the key=value pass
      takes the masked '@', and then an earlier '@' ends the credentials. */
  lemma NotIdempotent()
    ensures Sanitize("a://x@token:p@h") == "a://x@token=***"
    ensures Sanitize(Sanitize("a://x@token:p@h")) != Sanitize("a://x@token:p@h")
  {
    hide UrlPass, KeyValuePass, UrlsMasked;
    var v := "a://x@token=***";
    FirstUrlPass();
    FirstKeyValuePass("a://x@token:***@h");
    assert v == "a" + ("://" + "x" + "@" + "token=***" + "");
    MaskedParts("a", "x", "token=***", "", v);
    SecondCallIff("a://x@token:p@h");
  }

  lemma LoneH()
    ensures UrlPass("h") == "h"
  {
    hide UrlPass;
    UrlKeepsWord("h", "");
    UrlOfEmpty();
    assert "h" + "" == "h";
  }

  lemma WordBehindSpace(t: string)
    requires t == ",@h"
    ensures UrlPass(" x,@h") == " x,@h"
  {
    hide UrlPass;
    var s := " x,@h";
    assert s[1..] == "x" + t && t[2..] == "h";
    UrlKeepsMarks(s, " ");
    assert !HasCredentials(t) && Stops(PROTOCOL, t);
    UrlKeepsProtocol("x", t);
    UrlKeepsMarks(t, ",@");
    LoneH();
  }

  lemma SpacedUrlPass(m: string)
    requires m == "a://token: x,@h"
    ensures UrlPass(m) == m
  {
    hide UrlPass;
    var word, rest := "a://token:", " x,@h";
    assert m == word + rest;
    UrlKeepsWord(word, rest);
    WordBehindSpace(",@h");
  }

  lemma ShortKept(s: string)
    requires |s| == 1
    ensures KeyValuePass(s) == s
  {
    hide KeyValuePass, TailAt, FindKey, Fold;
    var key := FindKey(s, KEYS);
    if key != "" {
      KeysAreKeyish(key);
      assert false;
    } else {
      PassKeeps(s);
      PassOfEmpty();
    }
  }

  lemma LoneLetterAfterAt()
    ensures KeyValuePass(",@h"[1..]) == "@h"
  {
    hide KeyValuePass, TailAt, FindKey;
    assert ",@h"[1..] == "@h" && "@h"[1..] == "h";
    PassSkips("@h");
    ShortKept("h");
  }

  lemma SpacedTokenMasked(s: string)
    requires s == "token: x,@h"
    ensures KeyValuePass(s) == "token=***,@h"
  {
    hide KeyValuePass, TailAt, AfterTail, FindKey;
    assert s[..5] == "token" && s[5..] == "" + ([':'] + (" " + ("x" + ",@h")));
    PlainTail(s[5..], "", ':', " ", "x", ",@h");
    assert KeyAt(s, "token") && KEYS[3] == "token";
    KeyFound(s, "token");
    PassMasks(s, "token");
    PassSkips(",@h");
    LoneLetterAfterAt();
  }

  lemma SpacedKeyValuePass(m: string)
    requires m == "a://token: x,@h"
    ensures KeyValuePass(m) == "a://token=***,@h"
  {
    hide KeyValuePass;
    assert m == "a" + ("://" + "token: x,@h");
    LetterMarks("a", "://", "token: x,@h");
    SpacedTokenMasked("token: x,@h");
  }

  lemma UnmaskedAcrossSpace(v: string)
    requires v == "a://token=***,@h"
    ensures !UrlsMasked(v)
  {
    hide UrlsMasked;
    var creds := "token=***,";
    assert v == "a" + ("://" + creds + "@" + "h" + "");
    MaskedParts("a", creds, "h", "", v);
    assert creds[|creds| - 4..][3] == ',';
  }

  /** Here it takes the space that ended the word, and an '@' that was outside of the
      word is in it: one '@' and no credentials in the message are enough. */
  lemma NotIdempotentAcrossSpace()
    ensures UrlPass("a://token: x,@h") == "a://token: x,@h"
    ensures Sanitize("a://token: x,@h") == "a://token=***,@h"
    ensures Sanitize(Sanitize("a://token: x,@h")) != Sanitize("a://token: x,@h")
  {
    hide UrlsMasked, UrlPass, KeyValuePass;
    SpacedUrlPass("a://token: x,@h");
    SpacedKeyValuePass("a://token: x,@h");
    UnmaskedAcrossSpace("a://token=***,@h");
    SecondCallIff("a://token: x,@h");
  }
}
