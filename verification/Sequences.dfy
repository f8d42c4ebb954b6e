/** Lists of non-empty parts, and their concatenation. */
module Sequences {

  function Flatten<T>(parts: seq<seq<T>>): seq<T> {
    if parts == [] then [] else Flatten(parts[..|parts| - 1]) + parts[|parts| - 1]
  }

  ghost predicate NoneEmpty<T>(parts: seq<seq<T>>) {
    forall i | 0 <= i < |parts| :: parts[i] != []
  }

  lemma {:induction false} InFlatten<T>(parts: seq<seq<T>>, i: nat, a: nat) returns (p: nat)
    requires i < |parts| && a < |parts[i]|
    ensures p < |Flatten(parts)| && Flatten(parts)[p] == parts[i][a]
  {
    var n := |parts| - 1;
    if i == n {
      p := |Flatten(parts[..n])| + a;
    } else {
      p := InFlatten(parts[..n], i, a);
    }
  }

  lemma {:induction false} FromFlatten<T>(parts: seq<seq<T>>, p: nat) returns (i: nat, a: nat)
    requires p < |Flatten(parts)|
    ensures i < |parts| && a < |parts[i]| && Flatten(parts)[p] == parts[i][a]
  {
    var n := |parts| - 1;
    var front := Flatten(parts[..n]);
    if p < |front| {
      i, a := FromFlatten(parts[..n], p);
    } else {
      i, a := n, p - |front|;
    }
  }

  lemma {:induction false} FlattenSplit<T>(parts: seq<seq<T>>, k: nat)
    requires k <= |parts|
    ensures Flatten(parts) == Flatten(parts[..k]) + Flatten(parts[k..])
    decreases |parts| - k
  {
    if k == |parts| {
      assert parts[..k] == parts;
    } else {
      var n := |parts| - 1;
      FlattenSplit(parts[..n], k);
      assert parts[..n][..k] == parts[..k] && parts[..n][k..] == parts[k..][..n - k];
    }
  }

  lemma TakeOut<T>(t: seq<T>, x: T) returns (a: seq<T>, b: seq<T>)
    requires x in t
    ensures t == (a + [x]) + b && multiset(t) == multiset(a + b) + multiset{x}
  {
    var k :| 0 <= k < |t| && t[k] == x;
    a, b := t[..k], t[k + 1..];
    assert t == (a + [x]) + b;
  }
}
