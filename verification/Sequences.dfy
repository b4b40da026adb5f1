/** Small facts about sequences, and sequences that hold the same elements in different orders. */
module Sequences {

  lemma Snoc<T>(s: seq<T>, x: T)
    ensures (s + [x])[..|s|] == s && (s + [x])[|s|] == x
  {
  }

  lemma Regroup<T>(a: seq<T>, b: seq<T>, x: T)
    ensures a + (b + [x]) == a + b + [x]
  {
  }

  lemma Associate<T>(a: seq<T>, b: seq<T>, c: seq<T>)
    ensures a + (b + c) == (a + b) + c
  {
  }

  lemma TakeOne<T>(s: seq<T>, i: nat)
    requires i < |s|
    ensures s[..i + 1] == s[..i] + [s[i]] && s[..i + 1][..i] == s[..i] && s[..i + 1][i] == s[i]
  {
  }

  lemma TakeAll<T>(s: seq<T>)
    ensures s[..|s|] == s
  {
  }

  lemma SuffixSnoc<T>(s: seq<T>, x: T, k: nat)
    requires k <= |s|
    ensures (s + [x])[k..] == s[k..] + [x]
  {
  }

  lemma DropFirst<T>(a: seq<T>, x: T, t: seq<T>)
    ensures (a + ([x] + t))[|a| + 1..] == t
  {
  }

  /** A directory listing: no day twice. */
  predicate NoRepeats(listing: seq<int>) {
    listing == [] ||
    (NoRepeats(listing[..|listing| - 1]) && listing[|listing| - 1] !in listing[..|listing| - 1])
  }

  lemma {:induction false} NoRepeatsAt(listing: seq<int>, i: nat)
    requires NoRepeats(listing) && i < |listing|
    ensures listing[i] !in listing[..i]
  {
    var n := |listing| - 1;
    if i < n {
      NoRepeatsAt(listing[..n], i);
      assert listing[..n][..i] == listing[..i];
    }
  }

  // ---- subsequences ----

  /** Indices below n, in increasing order. */
  predicate Ascends(idx: seq<nat>, n: nat) {
    && (forall i :: 0 <= i < |idx| ==> idx[i] < n)
    && (forall i, j :: 0 <= i < j < |idx| ==> idx[i] < idx[j])
  }

  lemma AscendsSnoc(idx: seq<nat>, n: nat)
    requires Ascends(idx, n)
    ensures Ascends(idx + [n], n + 1) && Ascends(idx, n + 1)
    ensures n !in idx && forall k :: k in idx + [n] <==> k in idx || k == n
  {
  }

  // ---- permutations ----
  /** Takes one occurrence of x out of s. */
  lemma TakeOut<T>(s: seq<T>, x: T) returns (a: seq<T>, b: seq<T>)
    requires x in s
    ensures s == a + [x] + b
    ensures multiset(s) == multiset(a + b) + multiset{x}
  {
    var i :| 0 <= i < |s| && s[i] == x;
    a, b := s[..i], s[i + 1..];
    assert s == a + [x] + b;
  }

  lemma SplitLast<T>(s: seq<T>)
    requires s != []
    ensures var n := |s| - 1; s == s[..n] + [s[n]] && multiset(s) == multiset(s[..n]) + multiset{s[n]}
  {
    var n := |s| - 1;
    assert s == s[..n] + [s[n]];
  }

  /** Two permutations stay permutations when the same element is taken out of both. */
  lemma CancelOne<T>(m: multiset<T>, n: multiset<T>, x: T)
    requires m + multiset{x} == n + multiset{x}
    ensures m == n
  {
    assert m == m + multiset{x} - multiset{x};
    assert n == n + multiset{x} - multiset{x};
  }

  lemma PermutedHas<T>(s: seq<T>, t: seq<T>, x: T)
    requires multiset(s) == multiset(t) && x in s
    ensures x in t
  {
    assert x in multiset(s);
  }
}
