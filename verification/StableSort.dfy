/** The stable sort by timestamp, and how it commutes with merging and with dropping keys. */
module StableSort {
  import opened Clock
  import opened LogModel
  import opened Sequences

  /** Sorting by repeated insertion, in order of arrival. */
  function SortByTime(s: seq<LogEntry>): seq<LogEntry> {
    if s == [] then [] else Insert(SortByTime(s[..|s| - 1]), s[|s| - 1])
  }

  /** The entries of one instant, in order. */
  function AtTime(s: seq<LogEntry>, t: Time): seq<LogEntry> {
    if s == [] then []
    else
      var rest := AtTime(s[..|s| - 1], t);
      if s[|s| - 1].timestamp == t then rest + [s[|s| - 1]] else rest
  }

  /** The entries whose key also occurs in t. */
  function Retain(s: seq<LogEntry>, t: seq<LogEntry>): seq<LogEntry> {
    if s == [] then []
    else
      var rest := Retain(s[..|s| - 1], t);
      if HasKey(t, KeyOf(s[|s| - 1])) then rest + [s[|s| - 1]] else rest
  }

  // ---- what the sort means ----

  lemma AtTimeSnoc(s: seq<LogEntry>, x: LogEntry, t: Time)
    ensures AtTime(s + [x], t) == if x.timestamp == t then AtTime(s, t) + [x] else AtTime(s, t)
  {
    Snoc(s, x);
  }

  lemma {:induction false} InsertAtTime(s: seq<LogEntry>, x: LogEntry, t: Time)
    ensures AtTime(Insert(s, x), t) == if x.timestamp == t then AtTime(s, t) + [x] else AtTime(s, t)
  {
    if EndsBy(s, x.timestamp) {
      AtTimeSnoc(s, x, t);
    } else {
      var a, y := s[..|s| - 1], s[|s| - 1];
      InsertAtTime(a, x, t);
      AtTimeSnoc(Insert(a, x), y, t);
    }
  }

  lemma {:induction false} SortSorted(s: seq<LogEntry>)
    ensures Sorted(SortByTime(s))
  {
    if s != [] {
      SortSorted(s[..|s| - 1]);
      InsertSorted(SortByTime(s[..|s| - 1]), s[|s| - 1]);
    }
  }

  /** The result is sorted, holds the same entries, and entries of equal time keep their order:
      together these three determine it. */
  lemma SortIsStable(s: seq<LogEntry>)
    ensures Sorted(SortByTime(s))
    ensures multiset(SortByTime(s)) == multiset(s)
    ensures forall t :: AtTime(SortByTime(s), t) == AtTime(s, t)
  {
    SortSorted(s);
    SortMembers(s);
    forall t
      ensures AtTime(SortByTime(s), t) == AtTime(s, t)
    {
      SortAtTime(s, t);
    }
  }

  lemma {:induction false} SortMembers(s: seq<LogEntry>)
    ensures multiset(SortByTime(s)) == multiset(s)
  {
    hide Insert;
    if s != [] {
      var n := |s| - 1;
      SortMembers(s[..n]);
      InsertMembers(SortByTime(s[..n]), s[n]);
      assert s == s[..n] + [s[n]];
    }
  }

  lemma {:induction false} SortAtTime(s: seq<LogEntry>, t: Time)
    ensures AtTime(SortByTime(s), t) == AtTime(s, t)
  {
    if s != [] {
      var n := |s| - 1;
      SortAtTime(s[..n], t);
      InsertAtTime(SortByTime(s[..n]), s[n], t);
    }
  }

  lemma {:induction false} AtTimeOccurs(s: seq<LogEntry>, t: Time)
    ensures AtTime(s, t) != [] <==> exists i :: 0 <= i < |s| && s[i].timestamp == t
  {
    if s != [] {
      var n := |s| - 1;
      AtTimeOccurs(s[..n], t);
      if AtTime(s[..n], t) != [] {
        var i :| 0 <= i < n && s[..n][i].timestamp == t;
        assert s[i].timestamp == t;
      }
    }
  }

  /** Two sorted sequences agree when they agree at every instant. */
  lemma {:induction false} SortedUnique(a: seq<LogEntry>, b: seq<LogEntry>)
    requires Sorted(a) && Sorted(b)
    requires forall t :: AtTime(a, t) == AtTime(b, t)
    ensures a == b
  {
    if a == [] || b == [] {
      if a != [] {
        AtTimeOccurs(a, a[0].timestamp);
        AtTimeOccurs(b, a[0].timestamp);
      }
      if b != [] {
        AtTimeOccurs(a, b[0].timestamp);
        AtTimeOccurs(b, b[0].timestamp);
      }
    } else {
      var m, n := |a| - 1, |b| - 1;
      LastIsLatest(a, b);
      LastIsLatest(b, a);
      var t := a[m].timestamp;
      assert AtTime(a, t) == AtTime(a[..m], t) + [a[m]];
      assert AtTime(b, t) == AtTime(b[..n], t) + [b[n]];
      assert a[m] == AtTime(a, t)[|AtTime(a, t)| - 1] == b[n];
      forall u
        ensures AtTime(a[..m], u) == AtTime(b[..n], u)
      {
        if u == t {
          Snoc(AtTime(a[..m], t), a[m]);
          Snoc(AtTime(b[..n], t), b[n]);
        } else {
          assert AtTime(a, u) == AtTime(a[..m], u) && AtTime(b, u) == AtTime(b[..n], u);
        }
      }
      SortedUnique(a[..m], b[..n]);
      assert a == a[..m] + [a[m]] && b == b[..n] + [b[n]];
    }
  }

  lemma LastIsLatest(a: seq<LogEntry>, b: seq<LogEntry>)
    requires Sorted(a) && a != [] && b != []
    requires AtTime(a, b[|b| - 1].timestamp) == AtTime(b, b[|b| - 1].timestamp)
    ensures b[|b| - 1].timestamp <= a[|a| - 1].timestamp
  {
    var t := b[|b| - 1].timestamp;
    AtTimeOccurs(a, t);
    var i :| 0 <= i < |a| && a[i].timestamp == t;
    SortedMeans(a);
  }

  lemma {:induction false} SortHasKey(s: seq<LogEntry>, k: AggKey)
    ensures HasKey(SortByTime(s), k) <==> HasKey(s, k)
  {
    if s != [] {
      SortHasKey(s[..|s| - 1], k);
      InsertHasKey(SortByTime(s[..|s| - 1]), s[|s| - 1], k);
    }
  }

  lemma {:induction false} SortDistinct(s: seq<LogEntry>)
    requires DistinctKeys(s)
    ensures DistinctKeys(SortByTime(s))
  {
    if s != [] {
      var n := |s| - 1;
      SortDistinct(s[..n]);
      SortHasKey(s[..n], KeyOf(s[n]));
      InsertDistinct(SortByTime(s[..n]), s[n]);
    }
  }

  // ---- the sort commutes with merging ----

  lemma {:induction false} InsertMerged(s: seq<LogEntry>, x: LogEntry, op: Op)
    ensures Insert(Merged(s, op), MergeIfSame(x, op)) == Merged(Insert(s, x), op)
  {
    MergeKeeps(x, op);
    if s == [] {
    } else {
      var n := |s| - 1;
      MergeKeeps(s[n], op);
      MergedLast(s, op);
      if s[n].timestamp > x.timestamp {
        InsertMerged(s[..n], x, op);
      }
    }
  }

  lemma {:induction false} SortMerged(s: seq<LogEntry>, op: Op)
    ensures SortByTime(Merged(s, op)) == Merged(SortByTime(s), op)
  {
    if s != [] {
      var n := |s| - 1;
      MergedLast(s, op);
      SortMerged(s[..n], op);
      InsertMerged(SortByTime(s[..n]), s[n], op);
    }
  }

  // ---- the sort commutes with dropping keys ----

  predicate EndsBy(s: seq<LogEntry>, x: Time) {
    s == [] || s[|s| - 1].timestamp <= x
  }

  lemma {:induction false} RetainEndsBy(s: seq<LogEntry>, t: seq<LogEntry>, x: Time)
    requires Sorted(s) && EndsBy(s, x)
    ensures EndsBy(Retain(s, t), x)
  {
    if s != [] && !HasKey(t, KeyOf(s[|s| - 1])) {
      RetainEndsBy(s[..|s| - 1], t, x);
    }
  }

  lemma RetainSnoc(s: seq<LogEntry>, x: LogEntry, t: seq<LogEntry>)
    ensures Retain(s + [x], t) == if HasKey(t, KeyOf(x)) then Retain(s, t) + [x] else Retain(s, t)
  {
    Snoc(s, x);
  }

  lemma InsertAtEnd(s: seq<LogEntry>, x: LogEntry)
    requires EndsBy(s, x.timestamp)
    ensures Insert(s, x) == s + [x]
  {
  }

  lemma {:induction false} InsertRetain(s: seq<LogEntry>, x: LogEntry, t: seq<LogEntry>)
    requires Sorted(s)
    ensures Retain(Insert(s, x), t) == if HasKey(t, KeyOf(x)) then Insert(Retain(s, t), x) else Retain(s, t)
  {
    if EndsBy(s, x.timestamp) {
      RetainSnoc(s, x, t);
      RetainEndsBy(s, t, x.timestamp);
      InsertAtEnd(Retain(s, t), x);
    } else {
      var a, y := s[..|s| - 1], s[|s| - 1];
      assert s == a + [y];
      InsertRetain(a, x, t);
      InsertSnoc(a, y, x);
      RetainSnoc(a, y, t);
      RetainSnoc(Insert(a, x), y, t);
      InsertSnoc(Retain(a, t), y, x);
    }
  }

  lemma SortSnoc(s: seq<LogEntry>, x: LogEntry)
    ensures SortByTime(s + [x]) == Insert(SortByTime(s), x)
  {
    Snoc(s, x);
  }

  lemma {:induction false} SortRetain(s: seq<LogEntry>, t: seq<LogEntry>)
    ensures SortByTime(Retain(s, t)) == Retain(SortByTime(s), t)
  {
    if s != [] {
      var a, x := s[..|s| - 1], s[|s| - 1];
      SortRetain(a, t);
      SortSorted(a);
      InsertRetain(SortByTime(a), x, t);
      SortSnoc(Retain(a, t), x);
    }
  }

  /** With distinct keys, keeping the keys of a suffix keeps exactly that suffix. */
  lemma RetainSuffix(s: seq<LogEntry>, d: nat, t: seq<LogEntry>)
    requires DistinctKeys(s) && d <= |s| && t == s[d..]
    ensures Retain(s, t) == t
  {
    forall i | 0 <= i < |s|
      ensures HasKey(t, KeyOf(s[i])) <==> d <= i
    {
      SuffixHasKey(s, d, i);
    }
    RetainFrom(s, t, d);
  }

  lemma RetainLast(s: seq<LogEntry>, x: LogEntry, t: seq<LogEntry>)
    ensures Retain(s + [x], t) == if HasKey(t, KeyOf(x)) then Retain(s, t) + [x] else Retain(s, t)
  {
    hide HasKey, KeyOf;
    Snoc(s, x);
  }

  lemma {:induction false} RetainFrom(s: seq<LogEntry>, t: seq<LogEntry>, d: nat)
    requires d <= |s|
    requires forall i :: 0 <= i < |s| ==> (HasKey(t, KeyOf(s[i])) <==> d <= i)
    ensures Retain(s, t) == s[d..]
  {
    hide HasKey, KeyOf;
    if s != [] {
      hide Retain;
      var n := |s| - 1;
      var a, x := s[..n], s[n];
      assert s == a + [x] && forall i :: 0 <= i < n ==> a[i] == s[i];
      RetainLast(a, x, t);
      if d <= n {
        RetainFrom(a, t, d);
        SuffixSnoc(a, x, d);
      } else {
        RetainFrom(a, t, n);
      }
    }
  }
}
