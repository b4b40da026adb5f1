/** Saving the buffer one UTC day at a time and loading the days back in any order. */
module Reload {
  import opened Clock
  import opened LogModel
  import opened StableSort
  import opened Ledger
  import opened Refinement
  import opened Sequences

  /** What loading a list of entries does to the buffer. */
  function LoadAll(b: Buf, es: seq<LogEntry>): Buf {
    if es == [] then b else Load(LoadAll(b, es[..|es| - 1]), es[|es| - 1])
  }

  function Normalised(s: seq<LogEntry>): (r: seq<LogEntry>)
    ensures |r| == |s|
  {
    if s == [] then [] else Normalised(s[..|s| - 1]) + [Normalise(s[|s| - 1])]
  }

  /** The lists of the given days, one after the other; a day without a list adds nothing. */
  function Flatten(days: map<int, seq<LogEntry>>, listing: seq<int>): seq<LogEntry> {
    if listing == [] then []
    else
      var rest := Flatten(days, listing[..|listing| - 1]);
      var d := listing[|listing| - 1];
      if d in days then rest + days[d] else rest
  }

  ghost predicate InDay(s: seq<LogEntry>, d: int) {
    forall i :: 0 <= i < |s| ==> DayOf(s[i].timestamp) == d
  }

  /** Each list is well formed and stays within its day. */
  ghost predicate DaysOk(days: map<int, seq<LogEntry>>) {
    forall d :: d in days ==> WellFormed(days[d]) && InDay(days[d], d)
  }

  /** No key occurs on two days. */
  ghost predicate KeysApart(days: map<int, seq<LogEntry>>) {
    forall d, d', k :: d in days && d' in days && d != d' && HasKey(days[d], k) ==> !HasKey(days[d'], k)
  }

  // ---- normalising ----

  lemma NormaliseKeeps(e: LogEntry)
    ensures KeyOf(Normalise(e)) == KeyOf(e) && Normalise(e).timestamp == e.timestamp
  {
  }

  lemma NormalisedSnoc(s: seq<LogEntry>, x: LogEntry)
    ensures Normalised(s + [x]) == Normalised(s) + [Normalise(x)]
  {
    Snoc(s, x);
  }

  lemma {:induction false} NormalisedHasKey(s: seq<LogEntry>, k: AggKey)
    ensures HasKey(Normalised(s), k) <==> HasKey(s, k)
  {
    if s != [] {
      NormalisedHasKey(s[..|s| - 1], k);
      NormaliseKeeps(s[|s| - 1]);
      HasKeySnoc(Normalised(s[..|s| - 1]), Normalise(s[|s| - 1]), k);
    }
  }

  lemma {:induction false} InsertNormalised(s: seq<LogEntry>, x: LogEntry)
    ensures Insert(Normalised(s), Normalise(x)) == Normalised(Insert(s, x))
  {
    if EndsBy(s, x.timestamp) {
      NormalisedSnoc(s, x);
    } else {
      var a, y := s[..|s| - 1], s[|s| - 1];
      InsertNormalised(a, x);
      NormalisedSnoc(Insert(a, x), y);
      InsertSnoc(Normalised(a), Normalise(y), Normalise(x));
    }
  }

  lemma {:induction false} SortNormalised(s: seq<LogEntry>)
    ensures SortByTime(Normalised(s)) == Normalised(SortByTime(s))
  {
    if s != [] {
      var a, x := s[..|s| - 1], s[|s| - 1];
      SortNormalised(a);
      InsertNormalised(SortByTime(a), x);
      SortSnoc(Normalised(a), Normalise(x));
    }
  }

  /** Loading entries with distinct keys into an empty buffer merges nothing: it sorts them. */
  lemma {:induction false} LoadDistinct(es: seq<LogEntry>)
    requires DistinctKeys(es)
    ensures LoadAll(EMPTY, es).entries == SortByTime(Normalised(es))
  {
    if es != [] {
      var a, x := es[..|es| - 1], es[|es| - 1];
      LoadDistinct(a);
      SortHasKey(Normalised(a), KeyOf(x));
      NormalisedHasKey(a, KeyOf(x));
      SortSnoc(Normalised(a), Normalise(x));
    }
  }

  // ---- lists of several days ----

  lemma {:induction false} HasKeyConcat(a: seq<LogEntry>, b: seq<LogEntry>, k: AggKey)
    ensures HasKey(a + b, k) <==> HasKey(a, k) || HasKey(b, k)
  {
    if b == [] {
      assert a + b == a;
    } else {
      var n := |b| - 1;
      HasKeyConcat(a, b[..n], k);
      HasKeySnoc(a + b[..n], b[n], k);
      assert a + b == a + b[..n] + [b[n]];
    }
  }

  lemma {:induction false} DistinctConcat(a: seq<LogEntry>, b: seq<LogEntry>)
    requires DistinctKeys(a) && DistinctKeys(b)
    requires forall k :: HasKey(b, k) ==> !HasKey(a, k)
    ensures DistinctKeys(a + b)
  {
    hide KeyOf;
    if b == [] {
      assert a + b == a;
    } else {
      var n := |b| - 1;
      forall k | HasKey(b[..n], k)
        ensures !HasKey(a, k)
      {
        assert HasKey(b, k);
      }
      DistinctConcat(a, b[..n]);
      assert HasKey(b, KeyOf(b[n]));
      HasKeyConcat(a, b[..n], KeyOf(b[n]));
      DistinctSnoc(a + b[..n], b[n]);
      assert a + b == a + b[..n] + [b[n]];
    }
  }

  lemma {:induction false} AtTimeConcat(a: seq<LogEntry>, b: seq<LogEntry>, t: Time)
    ensures AtTime(a + b, t) == AtTime(a, t) + AtTime(b, t)
  {
    if b == [] {
      assert a + b == a;
    } else {
      var n := |b| - 1;
      AtTimeConcat(a, b[..n], t);
      AtTimeSnoc(a + b[..n], b[n], t);
      assert a + b == a + b[..n] + [b[n]];
      Regroup(AtTime(a, t), AtTime(b[..n], t), b[n]);
    }
  }

  lemma {:induction false} FlattenHasKey(days: map<int, seq<LogEntry>>, listing: seq<int>, k: AggKey)
    ensures HasKey(Flatten(days, listing), k) <==> exists d :: d in listing && d in days && HasKey(days[d], k)
  {
    if listing != [] {
      var n := |listing| - 1;
      FlattenHasKey(days, listing[..n], k);
      if listing[n] in days {
        HasKeyConcat(Flatten(days, listing[..n]), days[listing[n]], k);
      }
      assert forall d :: d in listing <==> d in listing[..n] || d == listing[n];
    }
  }

  lemma {:induction false} FlattenDistinct(days: map<int, seq<LogEntry>>, listing: seq<int>)
    requires DaysOk(days) && KeysApart(days) && NoRepeats(listing)
    ensures DistinctKeys(Flatten(days, listing))
  {
    if listing != [] {
      var n := |listing| - 1;
      var rest, d := Flatten(days, listing[..n]), listing[n];
      FlattenDistinct(days, listing[..n]);
      if d in days {
        forall k | HasKey(days[d], k)
          ensures !HasKey(rest, k)
        {
          FlattenHasKey(days, listing[..n], k);
        }
        DistinctConcat(rest, days[d]);
      }
    }
  }

  lemma {:induction false} AtTimeElsewhere(s: seq<LogEntry>, d: int, t: Time)
    requires InDay(s, d) && DayOf(t) != d
    ensures AtTime(s, t) == []
  {
    AtTimeOccurs(s, t);
  }

  /** The entries of one instant come from the list of its day alone. */
  lemma {:induction false} FlattenAtTime(days: map<int, seq<LogEntry>>, listing: seq<int>, t: Time)
    requires DaysOk(days) && NoRepeats(listing)
    ensures AtTime(Flatten(days, listing), t) ==
            if DayOf(t) in listing && DayOf(t) in days then AtTime(days[DayOf(t)], t) else []
  {
    if listing != [] {
      var n := |listing| - 1;
      var rest, d := Flatten(days, listing[..n]), listing[n];
      FlattenAtTime(days, listing[..n], t);
      assert DayOf(t) in listing <==> DayOf(t) in listing[..n] || DayOf(t) == d;
      if d in days {
        AtTimeConcat(rest, days[d], t);
        if DayOf(t) == d {
          assert AtTime(rest, t) == [];
          assert AtTime(rest, t) + AtTime(days[d], t) == AtTime(days[d], t);
        } else {
          AtTimeElsewhere(days[d], d, t);
          assert AtTime(rest, t) + [] == AtTime(rest, t);
        }
      }
    }
  }

  lemma {:induction false} InRangeAtTime(s: seq<LogEntry>, lo: Time, hi: Time, t: Time)
    ensures AtTime(InRange(s, lo, hi), t) == if lo <= t < hi then AtTime(s, t) else []
  {
    if s != [] {
      var a, x := s[..|s| - 1], s[|s| - 1];
      InRangeAtTime(a, lo, hi, t);
      AtTimeSnoc(InRange(a, lo, hi), x, t);
    }
  }

  lemma InRangeWellFormed(s: seq<LogEntry>, lo: Time, hi: Time)
    requires WellFormed(s) && lo <= hi
    ensures WellFormed(InRange(s, lo, hi))
    ensures forall k :: HasKey(InRange(s, lo, hi), k) ==> HasKey(s, k)
  {
    var i, j := LowerBound(s, lo), LowerBound(s, hi);
    InRangeIsSlice(s, lo, hi, i, j);
    PrefixWellFormed(s, j);
    SuffixWellFormed(s[..j], i);
  }

  lemma {:induction false} PrefixWellFormed(s: seq<LogEntry>, j: nat)
    requires j <= |s|
    ensures Sorted(s) ==> Sorted(s[..j])
    ensures DistinctKeys(s) ==> DistinctKeys(s[..j])
    ensures forall k :: HasKey(s[..j], k) ==> HasKey(s, k)
  {
    if j < |s| {
      PrefixWellFormed(s[..|s| - 1], j);
      assert s[..|s| - 1][..j] == s[..j];
    } else {
      assert s[..j] == s;
    }
  }

  lemma {:induction false} InRangeTimes(s: seq<LogEntry>, lo: Time, hi: Time, i: nat)
    requires i < |InRange(s, lo, hi)|
    ensures lo <= InRange(s, lo, hi)[i].timestamp < hi
    ensures InRange(s, lo, hi)[i] in s
  {
    var a, x := s[..|s| - 1], s[|s| - 1];
    if i < |InRange(a, lo, hi)| {
      InRangeTimes(a, lo, hi, i);
    }
  }

  /** The entries of one day, as saved. */
  function DayList(s: seq<LogEntry>, d: int): seq<LogEntry> {
    InRange(s, DayStart(d), DayStart(d + 1))
  }

  lemma DayListOk(s: seq<LogEntry>, d: int)
    requires WellFormed(s)
    ensures WellFormed(DayList(s, d)) && InDay(DayList(s, d), d)
  {
    InRangeWellFormed(s, DayStart(d), DayStart(d + 1));
    forall i | 0 <= i < |DayList(s, d)|
      ensures DayOf(DayList(s, d)[i].timestamp) == d
    {
      InRangeTimes(s, DayStart(d), DayStart(d + 1), i);
      DayBounds(DayList(s, d)[i].timestamp, d);
    }
  }

  // ---- reloading reproduces every file ----

  /** Loading day lists whose keys are apart, in any order of days, merges nothing, and each day of
      the new buffer is the list it was loaded from, or empty when there is none. */
  lemma ReloadReproducesDays(days: map<int, seq<LogEntry>>, listing: seq<int>)
    requires DaysOk(days) && KeysApart(days) && NoRepeats(listing)
    ensures var s := LoadAll(EMPTY, Flatten(days, listing)).entries;
            WellFormed(s) && |s| == |Flatten(days, listing)| &&
            forall d :: DayList(s, d) == if d in listing && d in days then Normalised(days[d]) else []
  {
    hide Normalise, Insert, SortByTime, DayList, AtTime, LoadAll, Flatten, DaysOk, KeysApart, NoRepeats, Sorted,
      DistinctKeys;
    var es := Flatten(days, listing);
    var sorted := SortByTime(es);
    FlattenDistinct(days, listing);
    LoadDistinct(es);
    SortNormalised(es);
    SortSorted(es);
    SortDistinct(es);
    SortLength(es);
    NormalisedWellFormed(sorted);
    forall d
      ensures DayList(Normalised(sorted), d) == if d in listing && d in days then Normalised(days[d]) else []
    {
      DayListNormalised(sorted, d);
      SortedDay(days, listing, es, sorted, d);
    }
  }

  lemma SortLength(s: seq<LogEntry>)
    ensures |SortByTime(s)| == |s|
  {
    hide SortByTime;
    SortMembers(s);
    assert |s| == |multiset(s)|;
    assert |SortByTime(s)| == |multiset(SortByTime(s))|;
  }

  lemma SortedDay(days: map<int, seq<LogEntry>>, listing: seq<int>, es: seq<LogEntry>, sorted: seq<LogEntry>, d: int)
    requires DaysOk(days) && NoRepeats(listing)
    requires es == Flatten(days, listing) && sorted == SortByTime(es) && WellFormed(sorted)
    ensures DayList(sorted, d) == if d in listing && d in days then days[d] else []
  {
    var own := if d in listing && d in days then days[d] else [];
    DayListOk(sorted, d);
    forall t
      ensures AtTime(DayList(sorted, d), t) == AtTime(own, t)
    {
      InRangeAtTime(sorted, DayStart(d), DayStart(d + 1), t);
      SortAtTime(es, t);
      FlattenAtTime(days, listing, t);
      DayBounds(t, d);
      if DayOf(t) != d {
        AtTimeElsewhere(own, d, t);
      }
    }
    SortedUnique(DayList(sorted, d), own);
  }

  lemma {:induction false} DayListNormalised(s: seq<LogEntry>, d: int)
    ensures DayList(Normalised(s), d) == Normalised(DayList(s, d))
  {
    if s != [] {
      var a, x := s[..|s| - 1], s[|s| - 1];
      DayListNormalised(a, d);
      NormalisedSnoc(DayList(a, d), x);
    }
  }

  lemma {:induction false} NormalisedWellFormed(s: seq<LogEntry>)
    requires WellFormed(s)
    ensures WellFormed(Normalised(s))
  {
    if s != [] {
      var a, x := s[..|s| - 1], s[|s| - 1];
      NormalisedWellFormed(a);
      NormalisedHasKey(a, KeyOf(x));
      DistinctSnoc(Normalised(a), Normalise(x));
      Snoc(Normalised(a), Normalise(x));
      if a != [] {
        assert Normalised(a)[|a| - 1] == Normalise(a[|a| - 1]);
      }
    }
  }

  /** From the epoch on, no bucket spans two days, so the keys of different days are always apart. */
  lemma KeysApartSinceEpoch(days: map<int, seq<LogEntry>>)
    requires DaysOk(days)
    requires forall d, i :: d in days && 0 <= i < |days[d]| ==> 0 <= days[d][i].timestamp
    ensures KeysApart(days)
  {
    forall d, d', k | d in days && d' in days && d != d' && HasKey(days[d], k)
      ensures !HasKey(days[d'], k)
    {
      HasKeyMeans(days[d], k);
      HasKeyMeans(days[d'], k);
      if HasKey(days[d'], k) {
        var i :| 0 <= i < |days[d]| && KeyOf(days[d][i]) == k;
        var j :| 0 <= j < |days[d']| && KeyOf(days[d'][j]) == k;
        var t, u := days[d][i].timestamp, days[d'][j].timestamp;
        SameBucketSpansDays(Min(t, u), Max(t, u));
      }
    }
  }

  // ---- the round trip of one buffer ----

  /** The day lists of one buffer. */
  function SplitByDay(s: seq<LogEntry>, listing: seq<int>): map<int, seq<LogEntry>> {
    map d | d in listing :: DayList(s, d)
  }

  /** The listing names every day on which s has an entry, and no day twice. */
  ghost predicate Covers(listing: seq<int>, s: seq<LogEntry>) {
    NoRepeats(listing) && forall i :: 0 <= i < |s| ==> DayOf(s[i].timestamp) in listing
  }

  lemma OneEntryPerKey(s: seq<LogEntry>, i: nat, j: nat)
    requires DistinctKeys(s) && i < |s| && j < |s| && KeyOf(s[i]) == KeyOf(s[j])
    ensures i == j
  {
    DistinctMeans(s);
  }

  lemma SplitOk(s: seq<LogEntry>, listing: seq<int>)
    requires WellFormed(s)
    ensures DaysOk(SplitByDay(s, listing)) && KeysApart(SplitByDay(s, listing))
  {
    var days := SplitByDay(s, listing);
    forall d | d in days
      ensures WellFormed(days[d]) && InDay(days[d], d)
    {
      DayListOk(s, d);
    }
    forall d, d', k | d in days && d' in days && d != d' && HasKey(days[d], k)
      ensures !HasKey(days[d'], k)
    {
      if HasKey(days[d'], k) {
        var e := KeyedEntry(s, d, k);
        var e' := KeyedEntry(s, d', k);
        var i :| 0 <= i < |s| && s[i] == e;
        var j :| 0 <= j < |s| && s[j] == e';
        OneEntryPerKey(s, i, j);
      }
    }
  }

  lemma KeyedEntry(s: seq<LogEntry>, d: int, k: AggKey) returns (e: LogEntry)
    requires HasKey(DayList(s, d), k)
    ensures e in s && KeyOf(e) == k && DayOf(e.timestamp) == d
  {
    HasKeyMeans(DayList(s, d), k);
    var i :| 0 <= i < |DayList(s, d)| && KeyOf(DayList(s, d)[i]) == k;
    InRangeTimes(s, DayStart(d), DayStart(d + 1), i);
    e := DayList(s, d)[i];
    DayBounds(e.timestamp, d);
  }

  /** Were every day of a well-formed buffer saved at once, loading the days in any order would give back the
      same sequence with every entry normalised. */
  lemma ReloadNormalises(s: seq<LogEntry>, listing: seq<int>)
    requires WellFormed(s) && Covers(listing, s)
    ensures LoadAll(EMPTY, Flatten(SplitByDay(s, listing), listing)).entries == Normalised(s)
  {
    var days := SplitByDay(s, listing);
    var es := Flatten(days, listing);
    SplitOk(s, listing);
    FlattenDistinct(days, listing);
    LoadDistinct(es);
    SortNormalised(es);
    SortSorted(es);
    forall t
      ensures AtTime(SortByTime(es), t) == AtTime(s, t)
    {
      SortAtTime(es, t);
      FlattenAtTime(days, listing, t);
      InRangeAtTime(s, DayStart(DayOf(t)), DayStart(DayOf(t) + 1), t);
      DayBounds(t, DayOf(t));
      AtTimeOccurs(s, t);
    }
    SortedUnique(SortByTime(es), s);
  }

  /** Neither branch of normalisation applies to e. */
  predicate Canonical(e: LogEntry) {
    1 <= e.count && (e.lastSeen == ZERO_TIME ==> e.timestamp == ZERO_TIME)
  }

  lemma {:induction false} NormalisedSame(s: seq<LogEntry>)
    ensures Normalised(s) == s <==> forall i :: 0 <= i < |s| ==> Canonical(s[i])
  {
    if s != [] {
      var a, x := s[..|s| - 1], s[|s| - 1];
      NormalisedSame(a);
      Snoc(Normalised(a), Normalise(x));
      if Normalised(s) == s {
        assert a == Normalised(a);
        forall i | 0 <= i < |s|
          ensures Canonical(s[i])
        {
          if i < |a| {
            assert s[i] == a[i];
          }
        }
      }
      if forall i :: 0 <= i < |s| ==> Canonical(s[i]) {
        assert forall i :: 0 <= i < |a| ==> a[i] == s[i];
        assert s == a + [x];
      }
    }
  }

  /** Such a round trip would be the identity exactly when every entry is canonical. */
  lemma RoundTrip(s: seq<LogEntry>, listing: seq<int>)
    requires WellFormed(s) && Covers(listing, s)
    ensures LoadAll(EMPTY, Flatten(SplitByDay(s, listing), listing)).entries == s <==>
            forall i :: 0 <= i < |s| ==> Canonical(s[i])
  {
    ReloadNormalises(s, listing);
    NormalisedSame(s);
  }

  /** What does not survive even then: an entry read back from just before the zero time, joined by one at it. */
  lemma ZeroTimeIsLost()
    ensures var e := LogEntry(ZERO_TIME - 1, ZERO_TIME, "a", "warn", "", "b", "", 0);
            var ts := [Timed(Bulk(e), 0), Timed(Bulk(e.(timestamp := ZERO_TIME)), 0)];
            var s := Run(Config(0, 0), ts).buf.entries;
            var listing := [DayOf(ZERO_TIME - 1)];
            Covers(listing, s) && LoadAll(EMPTY, Flatten(SplitByDay(s, listing), listing)).entries != s
  {
    var e := LogEntry(ZERO_TIME - 1, ZERO_TIME, "a", "warn", "", "b", "", 0);
    var s := Run(Config(0, 0), [Timed(Bulk(e), 0), Timed(Bulk(e.(timestamp := ZERO_TIME)), 0)]).buf.entries;
    var listing := [DayOf(ZERO_TIME - 1)];
    ZeroTimeMerged(e);
    assert listing[..0] == [] && s[..0] == [];
    assert !Canonical(s[0]) && Covers(listing, s) && WellFormed(s);
    RoundTrip(s, listing);
  }

  lemma ZeroTimeMerged(e: LogEntry)
    requires e.timestamp == ZERO_TIME - 1 && e.lastSeen == ZERO_TIME && e.count == 0
    ensures Run(Config(0, 0), [Timed(Bulk(e), 0), Timed(Bulk(e.(timestamp := ZERO_TIME)), 0)]).buf.entries ==
              [e.(count := 2)]
  {
    var e' := e.(timestamp := ZERO_TIME);
    var cfg := Config(0, 0);
    var t0, t1 := Timed(Bulk(e), 0), Timed(Bulk(e'), 0);
    assert [t0, t1][..1] == [t0] && [t0][..0] == [];
    assert Run(cfg, [t0]).buf.entries == [Normalise(e)];
    assert KeyOf(e) == KeyOf(e');
    assert Run(cfg, [t0, t1]).buf.entries == Merged([Normalise(e)], Bulk(e'));
    assert [Normalise(e)][..0] == [];
  }
}
