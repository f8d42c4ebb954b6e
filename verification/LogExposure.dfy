/** When the key=value pass leaves a URL secret unmasked in a text without one: a
    condition on that text and on the key matches in it. */
module LogExposure {
  import opened LogText
  import opened LogUrlPass
  import opened LogKeyValuePass
  import opened LogSanitizer
  import opened LogWords

  // ----- One word of the output of the key=value pass -----

  /** What the pass leaves of the text up to the first space that it keeps. */
  function WordLeft(u: string): string
    decreases |u|
  {
    if u == "" || IsSpace(u[0]) then ""
    else
      var key := FindKey(u, KEYS);
      if key != "" then u[..|key|] + "=***" + WordLeft(AfterTail(u[|key|..])) else [u[0]] + WordLeft(u[1..])
  }

  /** The text from that space on. */
  function AfterWord(u: string): (rest: string)
    ensures |rest| <= |u| && (u != "" && !IsSpace(u[0]) ==> |rest| < |u|)
    decreases |u|
  {
    if u == "" || IsSpace(u[0]) then u
    else
      var key := FindKey(u, KEYS);
      if key != "" then AfterWord(AfterTail(u[|key|..])) else AfterWord(u[1..])
  }

  // ----- The condition -----

  /** Characters of a protocol and "://", and no key matches before the "://". */
  predicate KeptHead(u: string): (kept: bool)
    ensures kept ==> HeadAt(u)
  {
    Starts(u, "://") || (u != "" && IsProtocolChar(u[0]) && FindKey(u, KEYS) == "" && KeptHead(u[1..]))
  }

  /** How far the first word goes before a key matches in it. */
  function PlainLength(x: string): (n: nat)
    ensures n <= |x|
  {
    if x == "" || IsSpace(x[0]) || FindKey(x, KEYS) != "" then 0 else 1 + PlainLength(x[1..])
  }

  /** Credentials that go on as `plain`, a masked value and `left` have an unmasked secret. */
  predicate Unmasks(plain: string, left: string) {
    if LastIndex(left, '@') >= 0 then !Ends(left[..LastIndex(left, '@')], ":***")
    else LastIndex(plain, '@') >= 0 && !CredentialsMasked(plain[..LastIndex(plain, '@')])
  }

  /** Behind a kept "://", a key matches in the same word and an '@' without ":***"
      in front of it is the last one that stays. */
  predicate KeyExposes(x: string) {
    var plain, found := x[..PlainLength(x)], x[PlainLength(x)..];
    var key := FindKey(found, KEYS);
    key != "" && Unmasks(plain, WordLeft(AfterTail(found[|key|..])))
  }

  /** The scan of the pass comes to index `n`, not into a match across it. */
  predicate Reaches(u: string, n: nat)
    decreases |u|
  {
    n == 0 ||
    (u != "" &&
    var key := FindKey(u, KEYS);
    if key != "" then
      var rest := AfterTail(u[|key|..]);
      |u| - |rest| <= n && Reaches(rest, n - (|u| - |rest|))
    else Reaches(u[1..], n - 1))
  }

  /** The scan comes to a letter that begins a kept head. */
  predicate KeptHeadAt(u: string, k: nat) {
    k < |u| && Reaches(u, k) && IsLetter(u[k]) && KeptHead(u[k..])
  }

  /** A key match behind it exposes a secret. */
  predicate ExposedAt(u: string, k: nat) {
    KeptHeadAt(u, k) && KeyExposes(BehindHead(u[k..]))
  }

  // ----- Steps of the functions above -----

  lemma NoKeyAt(u: string)
    requires u != "" && !KeyChar(Fold(u[0]))
    ensures FindKey(u, KEYS) == ""
  {
    hide FindKey, TailAt;
    if FindKey(u, KEYS) != "" { KeysAreKeyish(FindKey(u, KEYS)); }
  }

  lemma NoKeyInSpace(u: string)
    requires u == "" || IsSpace(u[0])
    ensures FindKey(u, KEYS) == "" && WordLeft(u) == "" && AfterWord(u) == u && PlainLength(u) == 0
    ensures Stops(WORD, u)
  {
    hide IsSpace, TailAt, Fold;
    if u != "" {
      SpaceIsNotInKey(u[0]);
      NoKeyAt(u);
    }
  }

  lemma KeyStep(u: string, key: string, rest: string)
    requires key == FindKey(u, KEYS) && key != "" && rest == AfterTail(u[|key|..])
    ensures u != "" && !IsSpace(u[0]) && |rest| < |u|
    ensures WordLeft(u) == u[..|key|] + "=***" + WordLeft(rest)
    ensures AfterWord(u) == AfterWord(rest)
    ensures PlainLength(u) == 0
  {
    hide IsSpace, TailAt, Fold, FindKey, AfterTail;
    if u == "" || IsSpace(u[0]) { NoKeyInSpace(u); }
  }

  lemma PlainStep(u: string)
    requires u != "" && !IsSpace(u[0]) && FindKey(u, KEYS) == ""
    ensures WordLeft(u) == [u[0]] + WordLeft(u[1..])
    ensures AfterWord(u) == AfterWord(u[1..])
    ensures PlainLength(u) == 1 + PlainLength(u[1..])
  {
  }

  // ----- The pass goes word by word -----

  lemma NameIsWord(u: string, key: string)
    requires key == FindKey(u, KEYS) && key != ""
    ensures All(WORD, u[..|key|]) && ':' !in u[..|key|] && '@' !in u[..|key|]
  {
    hide FindKey, TailAt, Fold;
    KeysAreKeyish(key);
    forall i | 0 <= i < |key| ensures !IsSpace(u[i]) && u[i] != ':' && u[i] != '@' {
      KeyGoesOn(u, key, i);
      NotInKey(u[i]);
    }
  }

  lemma KeyWord(name: string, left: string)
    requires All(WORD, name) && All(WORD, left)
    ensures All(WORD, name + "=***" + left)
  {
  }

  lemma {:induction false} PassByWord(u: string)
    ensures KeyValuePass(u) == WordLeft(u) + KeyValuePass(AfterWord(u))
    ensures All(WORD, WordLeft(u)) && Stops(WORD, AfterWord(u))
    decreases |u|
  {
    hide KeyValuePass, FindKey, WordLeft, AfterWord, AfterTail, TailAt, IsSpace;
    if u == "" || IsSpace(u[0]) {
      NoKeyInSpace(u);
    } else {
      var key := FindKey(u, KEYS);
      if key == "" {
        PassKeeps(u);
        PlainStep(u);
        PassByWord(u[1..]);
      } else {
        var rest := AfterTail(u[|key|..]);
        PassMasks(u, key);
        KeyStep(u, key, rest);
        NameIsWord(u, key);
        PassByWord(rest);
        KeyWord(u[..|key|], WordLeft(rest));
      }
    }
  }

  lemma PassStops(u: string)
    requires Stops(WORD, u)
    ensures Stops(WORD, KeyValuePass(u))
  {
    hide KeyValuePass;
    if u == "" { PassOfEmpty(); } else { PassFirst(u); }
  }

  // ----- Heads in the output -----

  lemma NotStarts(s: string, marks: string)
    requires marks != "" && (s == "" || s[0] != marks[0])
    ensures !Starts(s, marks)
  {
    if |s| >= |marks| { assert s[..|marks|][0] == s[0]; }
  }

  /** Nothing without a ':' is part of a head, unless characters of a protocol end it. */
  lemma {:induction false} NoHeadIn(q: string, left: string)
    requires ':' !in q && q != "" && !IsProtocolChar(q[|q| - 1])
    ensures !HeadAt(q + left)
  {
    var s := q + left;
    if |q| > 1 {
      assert s[1..] == q[1..] + left;
      NoHeadIn(q[1..], left);
    }
    NotStarts(s, "://");
  }

  lemma {:induction false} NoHeadsIn(q: string, left: string)
    requires ':' !in q && (q != "" ==> !IsProtocolChar(q[|q| - 1]))
    ensures WordMasked(q + left) == WordMasked(left)
  {
    hide HeadAt, BehindHead, MaskedBehind;
    if q == "" {
      assert q + left == left;
    } else {
      NoHeadIn(q, left);
      assert (q + left)[1..] == q[1..] + left;
      NoHeadsIn(q[1..], left);
    }
  }

  lemma StartsEmpty(s: string)
    ensures Starts(s, "") && s[0..] == s && s == "" + s
  {
  }

  lemma MarkBehind(u: string, marks: string, left: string, rest: string)
    requires u != "" && marks != "" && u[0] == marks[0] && left == [u[0]] + rest
    requires Starts(rest, marks[1..]) == Starts(u[1..], marks[1..])
    ensures Starts(left, marks) == Starts(u, marks)
    ensures Starts(u, marks) ==> Starts(u[1..], marks[1..]) && u[1..][|marks| - 1..] == u[|marks|..]
    ensures forall z: string :: rest == marks[1..] + z ==> left == marks + z
  {
    StartsTail(u, marks);
    StartsTail(left, marks);
    assert left[1..] == rest;
    forall z: string | rest == marks[1..] + z ensures left == marks + z {
    }
  }

  lemma LeftFirst(u: string)
    requires u != ""
    ensures if IsSpace(u[0]) then WordLeft(u) == "" else WordLeft(u) != "" && WordLeft(u)[0] == u[0]
  {
    hide FindKey, AfterTail;
    if FindKey(u, KEYS) != "" { KeysAreKeyish(FindKey(u, KEYS)); }
  }

  /** The pass neither makes nor breaks a leading text of characters like these. */
  lemma {:induction false} WordLeftMarks(u: string, marks: string)
    requires forall c | c in marks :: !KeyChar(Fold(c)) && !IsSpace(c)
    ensures Starts(WordLeft(u), marks) == Starts(u, marks)
    ensures Starts(u, marks) ==> WordLeft(u) == marks + WordLeft(u[|marks|..]) && AfterWord(u) == AfterWord(u[|marks|..])
  {
    hide WordLeft, AfterWord, FindKey, IsSpace, KeyChar, Fold, Starts;
    if marks == "" {
      StartsEmpty(u);
      StartsEmpty(WordLeft(u));
    } else if u == "" {
      NoKeyInSpace(u);
      NotStarts(u, marks);
    } else {
      LeftFirst(u);
      if u[0] == marks[0] {
        assert u[0] in marks;
        NoKeyAt(u);
        PlainStep(u);
        WordLeftMarks(u[1..], marks[1..]);
        MarkBehind(u, marks, WordLeft(u), WordLeft(u[1..]));
      } else {
        NotStarts(u, marks);
        NotStarts(WordLeft(u), marks);
      }
    }
  }

  lemma MarksAreNotInKey(c: char)
    requires c == ':' || c == '/' || c == '*' || c == '@'
    ensures !KeyChar(Fold(c)) && !IsSpace(c) && !IsProtocolChar(c)
  {
  }

  lemma HeadMarks()
    ensures forall c | c in "://" :: !KeyChar(Fold(c)) && !IsSpace(c)
  {
    forall c | c in "://" ensures !KeyChar(Fold(c)) && !IsSpace(c) {
      MarksAreNotInKey(c);
    }
  }

  lemma HeadStep(u: string)
    requires !Starts(u, "://")
    ensures HeadAt(u) == (u != "" && IsProtocolChar(u[0]) && HeadAt(u[1..]))
    ensures HeadAt(u) ==> BehindHead(u) == BehindHead(u[1..])
    ensures KeptHead(u) == (u != "" && IsProtocolChar(u[0]) && FindKey(u, KEYS) == "" && KeptHead(u[1..]))
  {
  }

  lemma SpaceIsNotProtocol(c: char)
    requires IsSpace(c)
    ensures !IsProtocolChar(c)
  {
  }

  /** A word of the output starts with a head exactly if the input has one that is kept. */
  lemma {:induction false} KeptHeadIff(u: string)
    ensures HeadAt(WordLeft(u)) == KeptHead(u)
    ensures KeptHead(u) ==> BehindHead(WordLeft(u)) == WordLeft(BehindHead(u))
  {
    hide WordLeft, FindKey, AfterTail, IsSpace, IsProtocolChar;
    HeadMarks();
    WordLeftMarks(u, "://");
    if Starts(u, "://") {
      assert WordLeft(u)[3..] == WordLeft(u[3..]);
    } else {
      hide HeadAt, KeptHead, BehindHead;
      HeadStep(u);
      HeadStep(WordLeft(u));
      if u == "" || IsSpace(u[0]) {
        NoKeyInSpace(u);
        if u != "" { SpaceIsNotProtocol(u[0]); }
      } else {
        var key := FindKey(u, KEYS);
        if key == "" {
          PlainStep(u);
          assert WordLeft(u)[1..] == WordLeft(u[1..]);
          KeptHeadIff(u[1..]);
        } else {
          var rest := AfterTail(u[|key|..]);
          KeyStep(u, key, rest);
          NameIsWord(u, key);
          MarksAreNotInKey('*');
          NoHeadIn(u[..|key|] + "=***", WordLeft(rest));
        }
      }
    }
  }

  // ----- What the key matches expose -----

  lemma PlainSlices(x: string, n: nat, left: string, rest: string)
    requires 0 < n <= |x| && !IsSpace(x[0])
    ensures x[1..][n - 1..] == x[n..]
    ensures All(WORD, x[1..][..n - 1]) ==> All(WORD, x[..n])
    ensures left == x[1..][..n - 1] + rest ==> [x[0]] + left == x[..n] + rest
  {
    assert x[..n] == [x[0]] + x[1..][..n - 1];
  }

  lemma {:induction false} PlainParts(x: string)
    ensures var n := PlainLength(x);
      All(WORD, x[..n]) && WordLeft(x) == x[..n] + WordLeft(x[n..]) && AfterWord(x) == AfterWord(x[n..])
      && (FindKey(x[n..], KEYS) == "" ==> WordLeft(x[n..]) == "" && Stops(WORD, x[n..]))
  {
    hide WordLeft, AfterWord, FindKey, IsSpace, AfterTail, In;
    var n := PlainLength(x);
    if x == "" || IsSpace(x[0]) {
      NoKeyInSpace(x);
      assert x[0..] == x;
    } else if FindKey(x, KEYS) != "" {
      assert x[0..] == x;
    } else {
      PlainStep(x);
      PlainParts(x[1..]);
      PlainSlices(x, n, WordLeft(x[1..]), WordLeft(x[n..]));
    }
  }

  lemma MaskBehindKey(plain: string, mid: string, z: string)
    requires |mid| > 4 && ':' !in mid
    ensures CredentialsMasked(plain + mid + z) == Ends(z, ":***")
  {
    var creds := plain + mid + z;
    var e := creds[|creds| - 4..];
    if |z| >= 4 {
      assert e == z[|z| - 4..];
    } else {
      assert e[0] == mid[|mid| - 4 + |z|];
      assert e[0] != ":***"[0];
    }
  }

  /** Behind a masked value, the last '@' that stays decides. */
  lemma UnmasksIff(plain: string, name: string, left: string)
    requires ':' !in name && '@' !in name && name != ""
    ensures MaskedBehind(plain + (name + "=***" + left)) == !Unmasks(plain, left)
  {
    var s := plain + (name + "=***" + left);
    var i, j := LastIndex(left, '@'), LastIndex(plain, '@');
    var mid := name + "=***";
    assert s == plain + mid + left && '@' !in mid && ':' !in mid;
    if i >= 0 {
      var n := |plain| + |mid|;
      LastIndexIs(s, '@', n + i);
      assert s[..n + i] == plain + mid + left[..i];
      MaskBehindKey(plain, mid, left[..i]);
    } else if j >= 0 {
      LastIndexIs(s, '@', j);
      assert s[..j] == plain[..j];
    } else {
      LastIndexIs(s, '@', -1);
    }
  }

  lemma KeyExposesParts(x: string, plain: string, m: string, key: string)
    requires plain == x[..PlainLength(x)] && m == x[PlainLength(x)..] && key == FindKey(m, KEYS)
    ensures key == "" ==> !KeyExposes(x)
    ensures key != "" ==> KeyExposes(x) == Unmasks(plain, WordLeft(AfterTail(m[|key|..])))
  {
    hide FindKey, WordLeft, AfterTail, Unmasks, PlainLength, TailAt, KeyAt;
  }

  lemma LeftOfPlain(x: string, plain: string, m: string)
    requires plain == x[..PlainLength(x)] && m == x[PlainLength(x)..] && FindKey(m, KEYS) == ""
    ensures WordLeft(x) == plain == x[..Run(WORD, x)]
  {
    hide WordLeft, AfterWord, FindKey, In, AfterTail, PlainLength;
    PlainParts(x);
    assert x == plain + m;
    RunIs(WORD, plain, m);
  }

  lemma LeftOfMatch(x: string, plain: string, m: string, key: string)
    requires plain == x[..PlainLength(x)] && m == x[PlainLength(x)..] && key == FindKey(m, KEYS) && key != ""
    ensures WordLeft(x) == plain + (m[..|key|] + "=***" + WordLeft(AfterTail(m[|key|..])))
  {
    hide WordLeft, AfterWord, FindKey, In, AfterTail, PlainLength;
    PlainParts(x);
    KeyStep(m, key, AfterTail(m[|key|..]));
  }

  lemma KeyExposesIff(x: string)
    requires MaskedBehind(x[..Run(WORD, x)])
    ensures MaskedBehind(WordLeft(x)) == !KeyExposes(x)
  {
    hide WordLeft, FindKey, In, AfterTail, MaskedBehind, Unmasks, PlainLength, KeyExposes, Fold;
    var plain, m := x[..PlainLength(x)], x[PlainLength(x)..];
    var key := FindKey(m, KEYS);
    KeyExposesParts(x, plain, m, key);
    if key == "" {
      LeftOfPlain(x, plain, m);
    } else {
      LeftOfMatch(x, plain, m, key);
      NameIsWord(m, key);
      UnmasksIff(plain, m[..|key|], WordLeft(AfterTail(m[|key|..])));
    }
  }

  // ----- Word by word -----

  lemma LetterIsProtocol(c: char)
    requires IsLetter(c)
    ensures IsProtocolChar(c)
  {
  }

  lemma HeadIsWord(p: string, w: string)
    requires All(WORD, p) && All(WORD, w)
    ensures All(WORD, p + ("://" + w))
  {
  }

  lemma HeadInWord(u: string)
    requires UrlsMasked(u) && u != "" && IsLetter(u[0]) && HeadAt(u)
    ensures MaskedBehind(BehindHead(u)[..Run(WORD, BehindHead(u))])
  {
    hide UrlsMasked, HeadAt, BehindHead, MaskedBehind, In;
    var x := BehindHead(u);
    var p := HeadParts(u);
    var n := Run(WORD, x);
    RunStops(WORD, x);
    ProtocolIsWord(p);
    var word := p + ("://" + x[..n]);
    LetterIsProtocol(u[0]);
    assert word[0] == u[0] && u == word + x[n..];
    HeadIs(p, x[..n]);
    HeadIsWord(p, x[..n]);
    WordByWord(word, x[n..]);
  }

  lemma BehindTail(u: string, name: string, tail: string, rest: string)
    requires u == name + (tail + rest)
    ensures |name| + |tail| <= |u| && u[|name| + |tail|..] == rest
  {
  }

  /** What follows a match, by its position. */
  lemma RestIsTail(u: string, key: string) returns (k: nat)
    requires key == FindKey(u, KEYS) && key != ""
    ensures |key| < k <= |u| && u[k..] == AfterTail(u[|key|..])
  {
    hide AfterTail, TailAt, FindKey, Fold;
    var t := u[|key|..];
    var tail := TailParts(t);
    k := |key| + |tail|;
    BehindTail(u, u[..|key|], tail, AfterTail(t));
  }

  // ----- Where the scan comes -----

  lemma ReachesKey(u: string, key: string, k: nat, n: nat)
    requires key == FindKey(u, KEYS) && key != "" && k <= |u| && u[k..] == AfterTail(u[|key|..])
    ensures Reaches(u[k..], n) ==> Reaches(u, k + n)
    ensures 0 < n < k ==> !Reaches(u, n)
    ensures n >= k > 0 && Reaches(u, n) ==> Reaches(u[k..], n - k)
  {
    hide FindKey, AfterTail, TailAt;
  }

  lemma ReachesPlain(u: string, n: nat)
    requires u != "" && FindKey(u, KEYS) == ""
    ensures Reaches(u[1..], n) == Reaches(u, n + 1)
  {
  }

  lemma AtStep(u: string, j: nat, k: nat)
    requires j <= |u| && (Reaches(u[j..], k) ==> Reaches(u, j + k)) && ExposedAt(u[j..], k)
    ensures ExposedAt(u, j + k)
  {
    hide Reaches, KeyExposes, KeptHead, BehindHead, IsLetter;
    assert u[j..][k..] == u[j + k..];
  }

  lemma FartherOn(u: string, k: nat, n: nat, head: string, b: string, mid: string, rest: string)
    requires k <= n <= |u|
    ensures u[k..][n - k..] == u[n..]
    ensures mid == b + rest ==> head + mid == (head + b) + rest
  {
  }

  /** The output of the pass from there on is the output on the text from there on. */
  lemma {:induction false} PassFrom(u: string, n: nat) returns (b: string)
    requires Reaches(u, n)
    ensures n <= |u| && KeyValuePass(u) == b + KeyValuePass(u[n..])
    decreases |u|
  {
    hide KeyValuePass, FindKey, AfterTail, TailAt;
    if n == 0 {
      assert u[0..] == u;
      b := "";
    } else {
      var key := FindKey(u, KEYS);
      if key != "" {
        var k := RestIsTail(u, key);
        b := PassFrom(u[k..], n - k);
        PassMasks(u, key);
        FartherOn(u, k, n, u[..|key|] + "=***", b, KeyValuePass(u[k..]), KeyValuePass(u[n..]));
        b := u[..|key|] + "=***" + b;
      } else {
        b := PassFrom(u[1..], n - 1);
        PassKeeps(u);
        FartherOn(u, 1, n, [u[0]], b, KeyValuePass(u[1..]), KeyValuePass(u[n..]));
        b := [u[0]] + b;
      }
    }
  }

  // ----- Exposed and masked -----

  lemma HeadMasked(word: string)
    requires word != "" && IsLetter(word[0]) && HeadAt(word)
    ensures WordMasked(word) == MaskedBehind(BehindHead(word))
  {
  }

  lemma PassMaskedIff(u: string)
    ensures UrlsMasked(KeyValuePass(u)) == (WordMasked(WordLeft(u)) && UrlsMasked(KeyValuePass(AfterWord(u))))
  {
    hide UrlsMasked, KeyValuePass, WordMasked, WordLeft, AfterWord;
    PassByWord(u);
    PassStops(AfterWord(u));
    WordByWord(WordLeft(u), KeyValuePass(AfterWord(u)));
  }

  lemma LetterIsKept(u: string)
    requires u != "" && IsLetter(u[0])
    ensures WordLeft(u) != "" && WordLeft(u)[0] == u[0]
  {
    hide WordLeft;
    LeftFirst(u);
  }

  /** The word behind a kept head is masked exactly if no key exposes a secret in it. */
  lemma KeptHeadMasked(u: string)
    requires UrlsMasked(u) && u != "" && IsLetter(u[0]) && KeptHead(u)
    ensures WordMasked(WordLeft(u)) == !KeyExposes(BehindHead(u))
  {
    hide UrlsMasked, WordMasked, WordLeft, HeadAt, KeptHead, BehindHead, KeyExposes, MaskedBehind, IsLetter, IsSpace;
    HeadInWord(u);
    KeyExposesIff(BehindHead(u));
    KeptHeadIff(u);
    LetterIsKept(u);
    HeadMasked(WordLeft(u));
  }

  lemma ExposedMeansUnmasked(u: string, k: nat)
    requires UrlsMasked(u) && ExposedAt(u, k)
    ensures !UrlsMasked(KeyValuePass(u))
  {
    hide UrlsMasked, WordMasked, WordLeft, KeyValuePass, KeptHead, BehindHead, KeyExposes, IsLetter, Reaches;
    var b := PassFrom(u, k);
    TailsMasked(u, k);
    KeptHeadMasked(u[k..]);
    PassMaskedIff(u[k..]);
    assert KeyValuePass(u)[|b|..] == KeyValuePass(u[k..]);
    if UrlsMasked(KeyValuePass(u)) {
      TailsMasked(KeyValuePass(u), |b|);
      assert false;
    }
  }

  lemma WordMaskedStep(word: string)
    requires word != "" && !(IsLetter(word[0]) && HeadAt(word))
    ensures WordMasked(word) == WordMasked(word[1..])
  {
  }

  /** Past a match nothing changes. */
  lemma KeyMasked(u: string, key: string, rest: string)
    requires key == FindKey(u, KEYS) && key != "" && rest == AfterTail(u[|key|..])
    ensures UrlsMasked(KeyValuePass(u)) == UrlsMasked(KeyValuePass(rest))
  {
    hide UrlsMasked, WordMasked, WordLeft, AfterWord, KeyValuePass, FindKey, AfterTail, TailAt;
    PassMaskedIff(u);
    PassMaskedIff(rest);
    KeyStep(u, key, rest);
    NameIsWord(u, key);
    MarksAreNotInKey('*');
    NoHeadsIn(u[..|key|] + "=***", WordLeft(rest));
  }

  lemma SpaceStep(s: string)
    requires s != "" && IsSpace(s[0])
    ensures UrlsMasked(s) == UrlsMasked(s[1..])
  {
    UrlNeedsLetter(s);
  }

  /** Past any other character nothing changes, unless a secret is exposed there. */
  lemma PlainMasked(u: string)
    requires u != "" && FindKey(u, KEYS) == "" && UrlsMasked(u)
    requires IsLetter(u[0]) && KeptHead(u) ==> !KeyExposes(BehindHead(u))
    ensures UrlsMasked(KeyValuePass(u[1..])) ==> UrlsMasked(KeyValuePass(u))
  {
    hide UrlsMasked, WordMasked, WordLeft, AfterWord, KeyValuePass, FindKey, IsSpace, IsLetter, KeptHead, KeyExposes, HeadAt, BehindHead;
    if IsSpace(u[0]) {
      SpaceIsNotInKey(u[0]);
      PassSkips(u);
      SpaceStep(KeyValuePass(u));
      assert KeyValuePass(u)[1..] == KeyValuePass(u[1..]);
    } else {
      PassMaskedIff(u);
      PassMaskedIff(u[1..]);
      PlainStep(u);
      if IsLetter(u[0]) && KeptHead(u) {
        KeptHeadMasked(u);
      } else {
        KeptHeadIff(u);
        WordMaskedStep(WordLeft(u));
        assert WordLeft(u)[1..] == WordLeft(u[1..]);
      }
    }
  }

  lemma ReachesStart(u: string)
    ensures Reaches(u, 0)
  {
  }

  lemma {:induction false} UnmaskedIsExposed(u: string) returns (k: nat)
    requires UrlsMasked(u) && !UrlsMasked(KeyValuePass(u))
    ensures ExposedAt(u, k)
    decreases |u|
  {
    hide UrlsMasked, KeyValuePass, FindKey, AfterTail, TailAt, Reaches, KeptHead, KeyExposes, BehindHead, IsLetter;
    if u == "" {
      PassOfEmpty();
      assert false;
    } else {
      var key := FindKey(u, KEYS);
      if key != "" {
        var j := RestIsTail(u, key);
        KeyMasked(u, key, u[j..]);
        TailsMasked(u, j);
        k := UnmaskedIsExposed(u[j..]);
        ReachesKey(u, key, j, k);
        AtStep(u, j, k);
        k := j + k;
      } else if IsLetter(u[0]) && KeptHead(u) && KeyExposes(BehindHead(u)) {
        k := 0;
        ReachesStart(u);
        assert u[0..] == u;
      } else {
        PlainMasked(u);
        TailMasked(u);
        k := UnmaskedIsExposed(u[1..]);
        ReachesPlain(u, k);
        AtStep(u, 1, k);
        k := 1 + k;
      }
    }
  }

  lemma PassMasked(u: string)
    requires UrlsMasked(u)
    ensures UrlsMasked(KeyValuePass(u)) <==> !exists k: nat :: ExposedAt(u, k)
  {
    hide KeyValuePass, UrlsMasked, ExposedAt;
    if !UrlsMasked(KeyValuePass(u)) {
      var k := UnmaskedIsExposed(u);
    }
    forall k: nat | ExposedAt(u, k) ensures !UrlsMasked(KeyValuePass(u)) {
      ExposedMeansUnmasked(u, k);
    }
  }
}
