/** The range queries stand for linear filters, and fit together across windows. */
module Queries {
  import opened Clock
  import opened LogModel

  /** Consecutive windows of a sorted buffer concatenate to the whole window. */
  lemma WindowsConcatenate(s: seq<LogEntry>, a: Time, b: Time, c: Time)
    requires Sorted(s) && a <= b <= c
    ensures InRange(s, a, b) + InRange(s, b, c) == InRange(s, a, c)
  {
    var i, j, k := LowerBound(s, a), LowerBound(s, b), LowerBound(s, c);
    InRangeIsSlice(s, a, b, i, j);
    InRangeIsSlice(s, b, c, j, k);
    InRangeIsSlice(s, a, c, i, k);
    SlicesJoin(s, i, j, k);
  }

  lemma SlicesJoin<T>(s: seq<T>, i: nat, j: nat, k: nat)
    requires i <= j <= k <= |s|
    ensures s[i..j] + s[j..k] == s[i..k]
  {
  }

  /** The answers for n consecutive days, one after the other. */
  function Days(s: seq<LogEntry>, from: int, n: nat): seq<LogEntry> {
    if n == 0 then [] else Days(s, from, n - 1) + InRange(s, DayStart(from + n - 1), DayStart(from + n))
  }

  /** The per-day queries over consecutive days are the filter over the whole range. */
  lemma {:induction false} DaysAreTheRange(s: seq<LogEntry>, from: int, n: nat)
    requires Sorted(s)
    ensures Days(s, from, n) == InRange(s, DayStart(from), DayStart(from + n))
  {
    if n > 0 {
      DaysAreTheRange(s, from, n - 1);
      WindowsConcatenate(s, DayStart(from), DayStart(from + n - 1), DayStart(from + n));
    } else {
      var i := LowerBound(s, DayStart(from));
      InRangeIsSlice(s, DayStart(from), DayStart(from), i, i);
    }
  }

  /** The result of a shorter look-back is a suffix of that of a longer one. */
  lemma ShorterWindowIsSuffix(s: seq<LogEntry>, now: Time, d: int, d': int)
    requires Sorted(s) && d <= d'
    ensures NotBefore(s, now - d) == Newest(NotBefore(s, now - d'), |NotBefore(s, now - d)|)
  {
    hide Newest, NotBefore, LowerBound;
    var i, j := LowerBound(s, now - d'), LowerBound(s, now - d);
    LowerBoundMonotone(s, now - d', now - d);
    NotBeforeIsSuffix(s, now - d', i);
    NotBeforeIsSuffix(s, now - d, j);
    NewestTail(s, i, j, NotBefore(s, now - d'), NotBefore(s, now - d));
  }

  lemma NewestTail<T>(s: seq<T>, i: nat, j: nat, t: seq<T>, u: seq<T>)
    requires i <= j <= |s| && t == s[i..] && u == s[j..]
    ensures u == Newest(t, |u|)
  {
    assert t[j - i..] == u;
  }

  lemma {:induction false} LowerBoundMonotone(s: seq<LogEntry>, lo: Time, hi: Time)
    requires lo <= hi
    ensures LowerBound(s, lo) <= LowerBound(s, hi)
  {
    if s != [] {
      LowerBoundMonotone(s[..|s| - 1], lo, hi);
    }
  }
}
