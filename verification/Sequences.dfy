/** Searching inside sequences: the notions of occurrence shared by the token scanners
    and by the streaming text machines. Also small facts about sequences and sets. */
module Sequences {

  /** `m` stands in `s` starting at index `k`. */
  predicate OccursAt<T(==)>(s: seq<T>, k: int, m: seq<T>) {
    0 <= k && k + |m| <= |s| && s[k..k + |m|] == m
  }

  /** `m` stands at `r`, the first such index from `k` on. */
  predicate FirstAt<T(==)>(s: seq<T>, m: seq<T>, k: nat, r: int) {
    k <= r && OccursAt(s, r, m) && forall i | k <= i < r :: !OccursAt(s, i, m)
  }

  lemma {:induction false} FirstExists<T>(s: seq<T>, m: seq<T>, k: nat, r: nat)
    requires k <= r && OccursAt(s, r, m)
    ensures exists q :: k <= q <= |s| && FirstAt(s, m, k, q)
  {
    if q :| k <= q < r && OccursAt(s, q, m) {
      FirstExists(s, m, k, q);
    } else {
      assert FirstAt(s, m, k, r);
    }
  }

  /** The first index from `k` on at which `m` stands in `s`, or -1. */
  function FindFrom<T(==)>(s: seq<T>, m: seq<T>, k: nat): (r: int)
    requires k <= |s|
    ensures r == -1 || (k <= r && OccursAt(s, r, m))
    ensures forall i :: k <= i && (r == -1 || i < r) ==> !OccursAt(s, i, m)
  {
    if r :| k <= r <= |s| && FirstAt(s, m, k, r) then r
    else
      assert forall i | k <= i :: !OccursAt(s, i, m) by {
        forall i | k <= i ensures !OccursAt(s, i, m) {
          if OccursAt(s, i, m) {
            FirstExists(s, m, k, i);
          }
        }
      }
      -1
  }

  /** `FindFrom` is the only answer of its kind. */
  lemma FindFromIsLeast<T>(s: seq<T>, m: seq<T>, k: nat, r: nat)
    requires k <= r && OccursAt(s, r, m)
    requires forall i :: k <= i < r ==> !OccursAt(s, i, m)
    ensures FindFrom(s, m, k) == r
  {
  }

  /** An occurrence in `s` is one in every extension of `s`. */
  lemma OccursInExtension<T>(s: seq<T>, more: seq<T>, k: int, m: seq<T>)
    requires OccursAt(s, k, m)
    ensures OccursAt(s + more, k, m)
  {
  }

  /** An occurrence in an extension that ends inside `s` is one in `s`. */
  lemma OccursInPrefix<T>(s: seq<T>, more: seq<T>, k: int, m: seq<T>)
    requires OccursAt(s + more, k, m) && k + |m| <= |s|
    ensures OccursAt(s, k, m)
  {
  }

  /** Occurrences in a suffix of `s` are those of `s`, shifted. */
  lemma OccursInSuffix<T>(s: seq<T>, from: nat, k: int, m: seq<T>)
    requires from <= |s| && 0 <= k
    ensures OccursAt(s[from..], k, m) <==> OccursAt(s, from + k, m)
  {
  }

  lemma DropOfAppend<T>(s: seq<T>, more: seq<T>, n: nat)
    requires n <= |s|
    ensures (s + more)[n..] == s[n..] + more
  {
  }

  lemma TakeOfAppend<T>(s: seq<T>, more: seq<T>, n: nat)
    requires n <= |s|
    ensures (s + more)[..n] == s[..n]
  {
  }

  lemma DropPastAppend<T>(s: seq<T>, more: seq<T>, n: nat)
    requires n <= |more|
    ensures (s + more)[|s| + n..] == more[n..]
    ensures (s + more)[..|s| + n] == s + more[..n]
  {
  }

  lemma Associates<T>(a: seq<T>, b: seq<T>, c: seq<T>)
    ensures (a + b) + c == a + (b + c)
  {
  }

  predicate Distinct<T(==)>(xs: seq<T>) {
    forall i, j | 0 <= i < j < |xs| :: xs[i] != xs[j]
  }

  lemma SubsetSize<T>(a: set<T>, b: set<T>)
    requires a <= b
    ensures |a| <= |b|
    ensures |a| == |b| <==> a == b
  {
    assert b == a + (b - a);
  }
}
