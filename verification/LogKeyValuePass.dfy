/** The key=value pass of the log sanitizer, read as leftmost substitution with
    the compiled pattern, alternatives tried in order. */
module LogKeyValuePass {
  import opened LogText

  const KEYS: seq<string> :=
    ["password", "api_key", "apikey", "token", "secret", "credential", "credentials", "authorization", "cookie"]

  /** `key` matches at the start of `s`, in any case. */
  predicate KeyAt(s: string, key: string) {
    |s| >= |key| && forall i | 0 <= i < |key| :: Fold(s[i]) == key[i]
  }

  predicate Separator(c: char) {
    c == '=' || c == ':'
  }

  /** What follows the leading run of one class. */
  function After(k: Class, s: string): (r: string)
    ensures |r| <= |s|
  {
    s[Run(k, s)..]
  }

  /** Behind a key: spaces, a separator, spaces and the start of a value. */
  predicate TailAt(t: string) {
    var z := After(SPACE, t);
    z != "" && Separator(z[0]) &&
    var w := After(SPACE, z[1..]);
    w != "" && IsValueChar(w[0])
  }

  /** "Bearer", spaces and the start of a value. */
  predicate BearerAt(w: string) {
    KeyAt(w, "bearer") && Run(SPACE, w[6..]) > 0 &&
    var v := After(SPACE, w[6..]);
    v != "" && IsValueChar(v[0])
  }

  /** What follows the separator and the value, with an optional "Bearer". */
  function AfterTail(t: string): (r: string)
    requires TailAt(t)
    ensures |r| < |t|
  {
    var w := After(SPACE, After(SPACE, t)[1..]);
    if BearerAt(w) then After(VALUE, After(SPACE, w[6..])) else After(VALUE, w)
  }

  /** The first of `keys` that matches with a tail behind it, or "". */
  function FindKey(s: string, keys: seq<string>): (key: string)
    ensures key != "" ==> key in keys && KeyAt(s, key) && TailAt(s[|key|..])
  {
    if keys == [] then ""
    else if KeyAt(s, keys[0]) && TailAt(s[|keys[0]|..]) then keys[0]
    else FindKey(s, keys[1..])
  }

  /** Substituting every match of the key=value pattern, left to right. */
  function KeyValuePass(s: string): string
    decreases |s|
  {
    if s == "" then ""
    else
      var key := FindKey(s, KEYS);
      if key != "" then s[..|key|] + "=***" + KeyValuePass(AfterTail(s[|key|..]))
      else [s[0]] + KeyValuePass(s[1..])
  }

  // ----- Keys -----

  predicate KeyChar(c: char) {
    'a' <= c <= 'z' || c == '_'
  }

  predicate Keyish(key: string) {
    forall i | 0 <= i < |key| :: KeyChar(key[i])
  }

  lemma KeysAreKeyish(key: string)
    requires key in KEYS
    ensures key != "" && Keyish(key)
  {
  }

  /** The characters around a value belong to no key. */
  lemma NotInKey(c: char)
    requires KeyChar(Fold(c))
    ensures !IsSpace(c) && !Separator(c) && c != '@' && c != '*' && c != '/'
  {
  }

  lemma KeyGoesOn(s: string, key: string, n: nat)
    requires Keyish(key) && KeyAt(s, key) && n < |key|
    ensures KeyChar(Fold(s[n]))
  {
  }

  lemma KeyHasNo(c: char, s: string, key: string, n: int)
    requires 0 <= n < |key| && KeyAt(s, key) && s[n] == c && !KeyChar(Fold(c))
    ensures !Keyish(key)
  {
  }

  /** No tail starts inside a key. */
  lemma NoTailInKey(s: string, head: string, key: string)
    requires Keyish(key) && KeyAt(s, key) && |head| < |key|
    ensures !TailAt(s[|head|..])
  {
    KeyGoesOn(s, key, |head|);
    NotInKey(s[|head|]);
  }

  /** At most one key matches with a tail, so the order of the keys is irrelevant. */
  lemma KeyUnique(s: string, a: string, b: string)
    requires Keyish(a) && KeyAt(s, a) && TailAt(s[|a|..])
    requires Keyish(b) && KeyAt(s, b) && TailAt(s[|b|..])
    ensures a == b
  {
    hide TailAt, Fold;
    if |a| < |b| { NoTailInKey(s, a, b); }
    if |b| < |a| { NoTailInKey(s, b, a); }
    assert forall i | 0 <= i < |a| :: a[i] == Fold(s[i]);
  }

  lemma {:induction false} FindKeyComplete(s: string, keys: seq<string>, key: string)
    requires key in keys && KeyAt(s, key) && TailAt(s[|key|..]) && "" !in keys
    ensures FindKey(s, keys) != ""
  {
    hide TailAt, KeyAt;
    if keys[0] != key { FindKeyComplete(s, keys[1..], key); }
  }

  /** Which key is found, by what matches alone. */
  lemma KeyFound(s: string, key: string)
    requires key in KEYS && KeyAt(s, key) && TailAt(s[|key|..])
    ensures FindKey(s, KEYS) == key
  {
    hide TailAt, KeyAt, FindKey;
    FindKeyComplete(s, KEYS, key);
    KeysAreKeyish(key);
    KeysAreKeyish(FindKey(s, KEYS));
    KeyUnique(s, key, FindKey(s, KEYS));
  }

  // ----- One step of the pass -----

  lemma PassOfEmpty()
    ensures KeyValuePass("") == ""
  {
  }

  lemma PassKeeps(s: string)
    requires s != "" && FindKey(s, KEYS) == ""
    ensures KeyValuePass(s) == [s[0]] + KeyValuePass(s[1..])
  {
  }

  lemma PassMasks(s: string, key: string)
    requires key == FindKey(s, KEYS) && key != ""
    ensures KeyValuePass(s) == s[..|key|] + "=***" + KeyValuePass(AfterTail(s[|key|..]))
  {
  }

  lemma PassFirst(s: string)
    requires s != ""
    ensures KeyValuePass(s) != "" && KeyValuePass(s)[0] == s[0]
  {
    hide FindKey;
    if FindKey(s, KEYS) != "" { KeysAreKeyish(FindKey(s, KEYS)); }
  }

  lemma PassSkips(s: string)
    requires s != "" && !KeyChar(Fold(s[0]))
    ensures KeyValuePass(s) == [s[0]] + KeyValuePass(s[1..])
  {
    hide FindKey, KeyValuePass;
    if FindKey(s, KEYS) != "" {
      KeysAreKeyish(FindKey(s, KEYS));
    } else {
      PassKeeps(s);
    }
  }

  // ----- What the pass keeps -----

  lemma AfterFirst(t: string)
    requires t != "" && IsSpace(t[0])
    ensures After(SPACE, t) == After(SPACE, t[1..])
  {
  }

  lemma SpaceIsNotInKey(c: char)
    requires IsSpace(c) || Separator(c)
    ensures !KeyChar(Fold(c))
  {
  }

  lemma {:induction false} PassAfterSpaces(t: string)
    ensures After(SPACE, KeyValuePass(t)) == KeyValuePass(After(SPACE, t))
  {
    hide KeyValuePass;
    if t == "" {
      PassOfEmpty();
    } else if IsSpace(t[0]) {
      SpaceIsNotInKey(t[0]);
      PassSkips(t);
      PassAfterSpaces(t[1..]);
      AfterFirst(t);
      AfterFirst(KeyValuePass(t));
    } else {
      PassFirst(t);
    }
  }

  /** The pass neither makes nor breaks a tail. */
  lemma PassKeepsTail(t: string)
    ensures TailAt(KeyValuePass(t)) == TailAt(t)
  {
    hide KeyValuePass, IsSpace, IsValueChar, After;
    var z := After(SPACE, t);
    PassAfterSpaces(t);
    if z == "" {
      PassOfEmpty();
    } else {
      PassFirst(z);
      if Separator(z[0]) {
        SpaceIsNotInKey(z[0]);
        PassSkips(z);
        PassAfterSpaces(z[1..]);
        var w := After(SPACE, z[1..]);
        if w == "" { PassOfEmpty(); } else { PassFirst(w); }
      }
    }
  }

  lemma MaskedKey(x: string, found: string, key: string, y: string, rest: string)
    requires Keyish(found) && KeyAt(x, found) && y == x[..|found|] + "=***" + rest
    requires Keyish(key) && KeyAt(y, key) && TailAt(y[|key|..])
    ensures |found| == |key| && KeyAt(x, key)
  {
    hide TailAt, Fold;
    SpaceIsNotInKey('=');
    assert y[|found|] == '=';
    assert forall i | 0 <= i < |found| :: y[i] == x[i];
    if |key| > |found| { KeyHasNo('=', y, key, |found|); }
    if |key| < |found| { NoTailInKey(y, key, found); }
  }

  /** A key with a tail in the output stands in the input. */
  lemma {:induction false} KeyBack(x: string, key: string)
    requires Keyish(key) && KeyAt(KeyValuePass(x), key) && TailAt(KeyValuePass(x)[|key|..])
    ensures KeyAt(x, key) && TailAt(x[|key|..])
    decreases |x|
  {
    hide KeyValuePass, TailAt, Fold, FindKey;
    var y := KeyValuePass(x);
    if key == "" {
      PassKeepsTail(x);
      assert y[0..] == y && x[0..] == x;
    } else if x == "" {
      PassOfEmpty();
    } else if FindKey(x, KEYS) == "" {
      PassKeeps(x);
      assert y[1..] == KeyValuePass(x[1..]) && y[1..][|key| - 1..] == y[|key|..];
      KeyBack(x[1..], key[1..]);
      assert x[1..][|key| - 1..] == x[|key|..];
      assert Fold(y[0]) == key[0];
      assert forall i | 0 < i < |key| :: Fold(x[i]) == Fold(x[1..][i - 1]) == key[1..][i - 1] == key[i];
    } else {
      var found := FindKey(x, KEYS);
      KeysAreKeyish(found);
      PassMasks(x, found);
      MaskedKey(x, found, key, y, KeyValuePass(AfterTail(x[|found|..])));
    }
  }

  /** Where nothing matches, nothing matches after the pass. */
  lemma PassKeepsNoMatch(s: string, y: string)
    requires s != "" && FindKey(s, KEYS) == "" && y == KeyValuePass(s)
    ensures FindKey(y, KEYS) == ""
  {
    hide KeyValuePass, TailAt, FindKey, KeyAt;
    var key := FindKey(y, KEYS);
    if key != "" {
      KeysAreKeyish(key);
      KeyBack(s, key);
      KeyFound(s, key);
    }
  }

  // ----- Masking again -----

  lemma {:induction false} AfterStops(k: Class, s: string)
    ensures Stops(k, After(k, s))
  {
    RunStops(k, s);
  }

  lemma AfterTailStops(t: string)
    requires TailAt(t)
    ensures Stops(VALUE, AfterTail(t))
  {
    var w := After(SPACE, After(SPACE, t)[1..]);
    AfterStops(VALUE, w);
    if BearerAt(w) { AfterStops(VALUE, After(SPACE, w[6..])); }
  }

  lemma StarIsNotBearer(w: string)
    requires w != "" && w[0] == '*'
    ensures !BearerAt(w)
  {
    assert "bearer"[0] == 'b';
  }

  lemma AfterRun(k: Class, run: string, rest: string)
    requires All(k, run) && Stops(k, rest)
    ensures After(k, run + rest) == rest && Run(k, run + rest) == |run|
  {
    RunIs(k, run, rest);
  }

  lemma ClassesApart(c: char)
    ensures Separator(c) || IsValueChar(c) ==> !IsSpace(c)
  {
  }

  /** A tail, from its parts. */
  lemma TailIs(t: string, before: string, separator: char, between: string, w: string)
    requires t == before + ([separator] + (between + w))
    requires All(SPACE, before) && Separator(separator) && All(SPACE, between) && w != "" && IsValueChar(w[0])
    ensures TailAt(t) && After(SPACE, After(SPACE, t)[1..]) == w
  {
    hide IsSpace, IsValueChar, Separator, After;
    ClassesApart(separator);
    ClassesApart(w[0]);
    AfterRun(SPACE, before, [separator] + (between + w));
    AfterRun(SPACE, between, w);
    assert ([separator] + (between + w))[1..] == between + w;
  }

  /** Conversely, the parts of a tail. */
  lemma TailShape(t: string) returns (before: string, separator: char, between: string, w: string)
    requires TailAt(t)
    ensures t == before + ([separator] + (between + w)) && w == After(SPACE, After(SPACE, t)[1..])
    ensures All(SPACE, before) && Separator(separator) && All(SPACE, between) && w != "" && IsValueChar(w[0])
  {
    hide In, IsSpace, IsValueChar, Run;
    var z := After(SPACE, t);
    RunStops(SPACE, t);
    RunStops(SPACE, z[1..]);
    before, separator, w := t[..|t| - |z|], z[0], After(SPACE, z[1..]);
    between := z[1..][..|z| - 1 - |w|];
    assert z == [z[0]] + z[1..];
  }

  /** A value without "Bearer" is taken up to the first character that cannot be part of it. */
  lemma PlainTail(t: string, before: string, separator: char, between: string, value: string, rest: string)
    requires t == before + ([separator] + (between + (value + rest)))
    requires All(SPACE, before) && Separator(separator) && All(SPACE, between)
    requires value != "" && All(VALUE, value) && Stops(VALUE, rest) && !BearerAt(value + rest)
    ensures TailAt(t) && AfterTail(t) == rest
  {
    assert In(VALUE, value[0]);
    TailIs(t, before, separator, between, value + rest);
    hide In, BearerAt, TailAt;
    AfterRun(VALUE, value, rest);
  }

  lemma BearerIsValue(bearer: string)
    requires |bearer| == 6 && KeyAt(bearer, "bearer")
    ensures IsValueChar(bearer[0])
  {
    assert Fold(bearer[0]) == "bearer"[0];
  }

  /** Behind "Bearer" and spaces, the value is taken as well. */
  lemma BearerTail(t: string, before: string, separator: char, between: string, bearer: string, gap: string, value: string, rest: string)
    requires t == before + ([separator] + (between + (bearer + (gap + (value + rest)))))
    requires All(SPACE, before) && Separator(separator) && All(SPACE, between)
    requires |bearer| == 6 && KeyAt(bearer, "bearer") && gap != "" && All(SPACE, gap)
    requires value != "" && All(VALUE, value) && Stops(VALUE, rest)
    ensures TailAt(t) && AfterTail(t) == rest
  {
    var w := bearer + (gap + (value + rest));
    BearerIsValue(bearer);
    TailIs(t, before, separator, between, w);
    assert In(VALUE, value[0]) && IsValueChar(value[0]);
    ClassesApart(value[0]);
    assert In(SPACE, value[0]) == IsSpace(value[0]);
    assert w[6..] == gap + (value + rest) && KeyAt(w, "bearer");
    hide In, TailAt, IsSpace, IsValueChar, Fold;
    AfterRun(SPACE, gap, value + rest);
    AfterRun(VALUE, value, rest);
  }

  lemma StarsAreValue()
    ensures All(VALUE, "***")
  {
  }

  lemma MaskedAgain(s: string, key: string, y: string)
    requires key == FindKey(s, KEYS) && key != "" && y == KeyValuePass(s)
    ensures FindKey(y, KEYS) == key && y[..|key|] == s[..|key|]
    ensures AfterTail(y[|key|..]) == KeyValuePass(AfterTail(s[|key|..]))
  {
    hide FindKey, KeyValuePass, TailAt, AfterTail, Fold, In;
    var rest := AfterTail(s[|key|..]);
    PassMasks(s, key);
    AfterTailStops(s[|key|..]);
    if rest == "" { PassOfEmpty(); } else { PassFirst(rest); }
    var t := "=***" + KeyValuePass(rest);
    assert y == s[..|key|] + t && y[|key|..] == t;
    assert t == "" + (['='] + ("" + ("***" + KeyValuePass(rest))));
    StarsAreValue();
    StarIsNotBearer("***" + KeyValuePass(rest));
    PlainTail(t, "", '=', "", "***", KeyValuePass(rest));
    assert forall i | 0 <= i < |key| :: y[i] == s[i];
    KeyFound(y, key);
  }

  /** The key=value pass is idempotent on every text. */
  lemma {:induction false} KeyValuePassIdempotent(s: string)
    ensures KeyValuePass(KeyValuePass(s)) == KeyValuePass(s)
    decreases |s|
  {
    hide FindKey, KeyValuePass, TailAt, AfterTail;
    if s == "" {
      PassOfEmpty();
    } else {
      var y := KeyValuePass(s);
      PassFirst(s);
      var key := FindKey(s, KEYS);
      if key == "" {
        PassKeepsNoMatch(s, y);
        PassKeeps(s);
        PassKeeps(y);
        KeyValuePassIdempotent(s[1..]);
        assert y[1..] == KeyValuePass(s[1..]);
      } else {
        MaskedAgain(s, key, y);
        PassMasks(s, key);
        PassMasks(y, key);
        KeyValuePassIdempotent(AfterTail(s[|key|..]));
      }
    }
  }
}
