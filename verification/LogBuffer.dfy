/** The aggregating log buffer: a slice sorted by first arrival and a map from aggregation key,
    both pointing at the same entry objects. */
module LogBuffers {
  import opened Clock
  import opened LogModel

  /** What a *LogEntry points at. */
  class EntryRef {
    var entry: LogEntry

    constructor (e: LogEntry)
      ensures entry == e
    {
      entry := e;
    }
  }

  /** The objects hold exactly these entries, in this order. */
  ghost predicate Holds(refs: seq<EntryRef>, s: seq<LogEntry>)
    reads refs
  {
    |refs| == |s| && forall i :: 0 <= i < |refs| ==> refs[i].entry == s[i]
  }

  /** The map that sends the key of each entry to the object in the same position. */
  function IndexMap(s: seq<LogEntry>, refs: seq<EntryRef>): map<AggKey, EntryRef>
    requires |s| == |refs|
  {
    if s == [] then map[]
    else
      var n := |s| - 1;
      IndexMap(s[..n], refs[..n])[KeyOf(s[n]) := refs[n]]
  }

  lemma {:induction false} IndexMapFinds(s: seq<LogEntry>, refs: seq<EntryRef>, i: nat)
    requires |s| == |refs| && DistinctKeys(s) && i < |s|
    ensures KeyOf(s[i]) in IndexMap(s, refs) && IndexMap(s, refs)[KeyOf(s[i])] == refs[i]
  {
    var n := |s| - 1;
    if i < n {
      IndexMapFinds(s[..n], refs[..n], i);
      HasKeyMeans(s[..n], KeyOf(s[n]));
      assert s[..n][i] == s[i];
    }
  }

  lemma {:induction false} IndexMapKeys(s: seq<LogEntry>, refs: seq<EntryRef>, k: AggKey)
    requires |s| == |refs|
    ensures k in IndexMap(s, refs) <==> HasKey(s, k)
  {
    if s != [] {
      IndexMapKeys(s[..|s| - 1], refs[..|s| - 1], k);
    }
  }

  lemma {:induction false} IndexMapOrigin(s: seq<LogEntry>, refs: seq<EntryRef>, k: AggKey) returns (i: nat)
    requires |s| == |refs| && k in IndexMap(s, refs)
    ensures i < |s| && KeyOf(s[i]) == k && refs[i] == IndexMap(s, refs)[k]
  {
    var n := |s| - 1;
    if KeyOf(s[n]) == k {
      i := n;
    } else {
      i := IndexMapOrigin(s[..n], refs[..n], k);
    }
  }

  lemma PlacedPrefix<T>(s: seq<T>, i: nat, x: T)
    requires i < |s|
    ensures var n := |s| - 1; var s' := s[..i] + [x] + s[i..];
            s'[..n + 1] == s[..n][..i] + [x] + s[..n][i..] && s'[n + 1] == s[n]
  {
  }

  lemma {:induction false} IndexMapInsert(s: seq<LogEntry>, refs: seq<EntryRef>, i: nat, x: LogEntry, p: EntryRef)
    requires |s| == |refs| && i <= |s| && !HasKey(s, KeyOf(x))
    ensures IndexMap(s[..i] + [x] + s[i..], refs[..i] + [p] + refs[i..]) == IndexMap(s, refs)[KeyOf(x) := p]
  {
    hide KeyOf;
    if i == |s| {
      assert (s[..i] + [x] + s[i..])[..i] == s && (refs[..i] + [p] + refs[i..])[..i] == refs;
    } else {
      var n := |s| - 1;
      PlacedPrefix(s, i, x);
      PlacedPrefix(refs, i, p);
      IndexMapInsert(s[..n], refs[..n], i, x, p);
    }
  }

  /** The part of the index that comes from positions lo to hi. */
  function IndexRange(s: seq<LogEntry>, refs: seq<EntryRef>, lo: nat, hi: nat): map<AggKey, EntryRef>
    requires |s| == |refs| && hi <= |s|
  {
    if hi <= lo then map[] else IndexRange(s, refs, lo, hi - 1)[KeyOf(s[hi - 1]) := refs[hi - 1]]
  }

  lemma {:induction false} IndexRangeIsMap(s: seq<LogEntry>, refs: seq<EntryRef>, lo: nat, hi: nat)
    requires |s| == |refs| && lo <= hi <= |s|
    ensures IndexRange(s, refs, lo, hi) == IndexMap(s[lo..hi], refs[lo..hi])
  {
    if lo < hi {
      IndexRangeIsMap(s, refs, lo, hi - 1);
      assert s[lo..hi][..hi - 1 - lo] == s[lo..hi - 1];
      assert refs[lo..hi][..hi - 1 - lo] == refs[lo..hi - 1];
    }
  }

  /** Dropping one more entry removes exactly its key. */
  lemma {:induction false} IndexRangeDrop(s: seq<LogEntry>, refs: seq<EntryRef>, lo: nat, hi: nat)
    requires |s| == |refs| && lo < hi <= |s|
    requires forall j :: lo < j < hi ==> KeyOf(s[j]) != KeyOf(s[lo])
    ensures IndexRange(s, refs, lo + 1, hi) == IndexRange(s, refs, lo, hi) - {KeyOf(s[lo])}
  {
    if lo + 1 < hi {
      IndexRangeDrop(s, refs, lo, hi - 1);
    }
  }

  lemma {:induction false} IndexMapSameKeys(s: seq<LogEntry>, s': seq<LogEntry>, refs: seq<EntryRef>)
    requires |s| == |s'| == |refs|
    requires forall i :: 0 <= i < |s| ==> KeyOf(s'[i]) == KeyOf(s[i])
    ensures IndexMap(s', refs) == IndexMap(s, refs)
  {
    if s != [] {
      var n := |s| - 1;
      assert forall i :: 0 <= i < n ==> KeyOf(s'[..n][i]) == KeyOf(s[..n][i]);
      IndexMapSameKeys(s[..n], s'[..n], refs[..n]);
    }
  }

  lemma HoldsPlaced(s: seq<LogEntry>, refs: seq<EntryRef>, i: nat, p: EntryRef)
    requires Holds(refs, s) && i <= |s|
    ensures Holds(refs[..i] + [p] + refs[i..], s[..i] + [p.entry] + s[i..])
    ensures forall q :: q in refs[..i] + [p] + refs[i..] ==> q == p || q in refs
  {
    var refs' := refs[..i] + [p] + refs[i..];
    forall j | 0 <= j < |refs'|
      ensures refs'[j].entry == (s[..i] + [p.entry] + s[i..])[j] && (refs'[j] == p || refs'[j] in refs)
    {
      if j > i {
        assert refs'[j] == refs[j - 1];
      }
    }
  }

  /** Placing a new object keeps the slice sorted, its keys distinct and the map its index. */
  lemma Placed(s: seq<LogEntry>, refs: seq<EntryRef>, i: nat, p: EntryRef, refs': seq<EntryRef>)
    requires Holds(refs, s) && i == UpperBound(s, p.entry.timestamp)
    requires WellFormed(s) && !HasKey(s, KeyOf(p.entry))
    requires refs' == refs[..i] + [p] + refs[i..]
    ensures Holds(refs', Insert(s, p.entry)) && WellFormed(Insert(s, p.entry))
    ensures IndexMap(Insert(s, p.entry), refs') == IndexMap(s, refs)[KeyOf(p.entry) := p]
    ensures forall q :: q in refs' ==> q == p || q in refs
  {
    InsertAt(s, p.entry, i);
    InsertSorted(s, p.entry);
    InsertDistinct(s, p.entry);
    IndexMapInsert(s, refs, i, p.entry, p);
    HoldsPlaced(s, refs, i, p);
  }

  /** Dropping a prefix keeps the slice sorted and its keys distinct. */
  lemma Dropped(s: seq<LogEntry>, refs: seq<EntryRef>, d: nat, s': seq<LogEntry>, refs': seq<EntryRef>)
    requires Holds(refs, s) && d <= |s| && WellFormed(s)
    requires s' == s[d..] && refs' == refs[d..]
    ensures Holds(refs', s') && WellFormed(s')
    ensures forall q :: q in refs' ==> q in refs
  {
    SuffixWellFormed(s, d);
  }

  /** Folding op into the one object that holds its key keeps the index and the order. */
  lemma MergedInPlace(s: seq<LogEntry>, refs: seq<EntryRef>, i: nat, op: Op, s': seq<LogEntry>)
    requires |s| == |refs| && WellFormed(s) && i < |s|
    requires KeyOf(s[i]) == OpKey(op) && refs[i].entry == Merge(s[i], op)
    requires forall j :: 0 <= j < |s| && j != i ==> KeyOf(s[j]) != OpKey(op) && refs[j].entry == s[j]
    requires s' == Merged(s, op)
    ensures Holds(refs, s') && WellFormed(s') && IndexMap(s', refs) == IndexMap(s, refs)
  {
    MergedWellFormed(s, op);
    forall i | 0 <= i < |s|
      ensures KeyOf(Merged(s, op)[i]) == KeyOf(s[i])
    {
      MergeKeeps(s[i], op);
    }
    IndexMapSameKeys(s, Merged(s, op), refs);
  }

  class LogBuffer {
    var entries: seq<EntryRef>
    var keyed: map<AggKey, EntryRef>
    var addN: nat
    const maxAge: int
    const maxSize: int
    ghost var Contents: seq<LogEntry>

    /** The slice holds the contents, sorted and with no key twice, and the map is its index. */
    ghost predicate Valid()
      reads this, entries
    {
      && Consistent()
      && addN < PRUNE_INTERVAL
    }

    ghost predicate Consistent()
      reads this, entries
      ensures Consistent() ==> |entries| == |Contents|
    {
      && Holds(entries, Contents)
      && WellFormed(Contents)
      && keyed == IndexMap(Contents, entries)
    }

    ghost function State(): Buf
      reads this
    {
      Buf(Contents, addN)
    }

    ghost function Cfg(): Config {
      Config(maxAge, maxSize)
    }

    constructor (maxAge: int, maxSize: int)
      ensures Valid() && State() == EMPTY && entries == []
      ensures Cfg() == Config(maxAge, maxSize)
    {
      entries, keyed, addN, Contents := [], map[], 0, [];
      this.maxAge, this.maxSize := maxAge, maxSize;
    }

    /** Slice and map hold the same objects: each slot is the object its own key maps to, no object
        sits in two slots, and every key of the map leads to a slot. */
    lemma Aliasing()
      requires Valid()
      ensures forall i :: 0 <= i < |entries| ==>
                            KeyOf(entries[i].entry) in keyed && keyed[KeyOf(entries[i].entry)] == entries[i]
      ensures forall i, j :: 0 <= i < j < |entries| ==> entries[i] != entries[j]
      ensures forall k :: k in keyed ==> keyed[k] in entries && KeyOf(keyed[k].entry) == k
    {
      forall i | 0 <= i < |entries|
        ensures KeyOf(entries[i].entry) in keyed && keyed[KeyOf(entries[i].entry)] == entries[i]
      {
        IndexMapFinds(Contents, entries, i);
      }
      DistinctMeans(Contents);
      forall i, j | 0 <= i < j < |entries|
        ensures entries[i] != entries[j]
      {
        assert KeyOf(Contents[i]) != KeyOf(Contents[j]);
      }
      forall k | k in keyed
        ensures keyed[k] in entries && KeyOf(keyed[k].entry) == k
      {
        var i := IndexMapOrigin(Contents, entries, k);
      }
    }

    /** The only slot of a key that the map knows. */
    lemma Slot(k: AggKey) returns (i: nat)
      requires Consistent() && k in keyed
      ensures i < |entries| && entries[i] == keyed[k] && KeyOf(Contents[i]) == k
      ensures forall j :: 0 <= j < |entries| && j != i ==> entries[j] != entries[i] && KeyOf(Contents[j]) != k
      ensures HasKey(Contents, k) && entries[i] in entries
    {
      i := IndexMapOrigin(Contents, entries, k);
      DistinctMeans(Contents);
      HasKeyMeans(Contents, k);
      forall j | 0 <= j < |entries| && j != i
        ensures entries[j] != entries[i] && KeyOf(Contents[j]) != k
      {
        assert KeyOf(Contents[j]) != KeyOf(Contents[i]);
      }
    }

    /** sort.Search for the first entry with lo <= timestamp. */
    method SearchNotBefore(lo: Time) returns (i: nat)
      requires Consistent()
      ensures i == LowerBound(Contents, lo)
    {
      SortedMeans(Contents);
      i := 0;
      var hi := |entries|;
      while i < hi
        invariant i <= hi <= |entries|
        invariant i == 0 || Contents[i - 1].timestamp < lo
        invariant forall j :: hi <= j < |entries| ==> lo <= Contents[j].timestamp
      {
        var h := (i + hi) / 2;
        if entries[h].entry.timestamp < lo {
          i := h + 1;
        } else {
          hi := h;
        }
      }
      LowerBoundIs(Contents, lo, i);
    }

    /** sort.Search for the first entry later than t. */
    method SearchAfter(t: Time) returns (i: nat)
      requires Consistent()
      ensures i == UpperBound(Contents, t)
    {
      SortedMeans(Contents);
      i := 0;
      var hi := |entries|;
      while i < hi
        invariant i <= hi <= |entries|
        invariant i == 0 || Contents[i - 1].timestamp <= t
        invariant forall j :: hi <= j < |entries| ==> t < Contents[j].timestamp
      {
        var h := (i + hi) / 2;
        if entries[h].entry.timestamp > t {
          hi := h;
        } else {
          i := h + 1;
        }
      }
      UpperBoundIs(Contents, t, i);
    }

    /** Replaces the slice; the map is already the index of the new one. */
    method Place(refs: seq<EntryRef>, ghost s: seq<LogEntry>)
      requires Holds(refs, s) && WellFormed(s) && keyed == IndexMap(s, refs)
      modifies this`entries, this`Contents
      ensures Consistent() && entries == refs && Contents == s
    {
      entries := refs;
      Contents := s;
    }

    /** At the end when t is not before the newest entry, else by binary search. */
    method PlaceFor(t: Time) returns (i: nat)
      requires Consistent()
      ensures i == UpperBound(Contents, t)
    {
      i := |entries|;
      if i != 0 && t < entries[i - 1].entry.timestamp {
        i := SearchAfter(t);
      }
    }

    /** Registers a new object under its key and places it by timestamp. */
    method InsertNew(p: EntryRef)
      requires Consistent() && !HasKey(Contents, KeyOf(p.entry))
      modifies this`entries, this`keyed, this`Contents
      ensures Consistent()
      ensures Contents == Insert(old(Contents), p.entry)
      ensures forall q :: q in entries ==> q == p || q in old(entries)
    {
      var idx := PlaceFor(p.entry.timestamp);
      var placed := entries[..idx] + [p] + entries[idx..];
      Placed(Contents, entries, idx, p, placed);
      keyed := keyed[KeyOf(p.entry) := p];
      Place(placed, Insert(Contents, p.entry));
    }

    method AddEvent(e: LogEntry, now: Time)
      requires Valid()
      modifies this, entries
      ensures Valid()
      ensures State() == Step(Cfg(), old(State()), Event(e), now)
      ensures forall q :: q in entries ==> q in old(entries) || fresh(q)
    {
      hide WellFormed, Merged, Insert, Kept, Holds;
      var key := KeyOf(e);
      IndexMapKeys(Contents, entries, key);
      if key in keyed {
        ghost var i := Slot(key);
        Aggregate(keyed[key], e);
        return;
      }
      var entry := new EntryRef(e.(count := 1, lastSeen := e.timestamp));
      InsertNew(entry);
      addN := addN + 1;
      if addN >= PRUNE_INTERVAL {
        addN := 0;
        PruneLocked(now);
      }
    }

    /** Counts e into the entry that already holds its key. */
    method Aggregate(existing: EntryRef, e: LogEntry)
      requires Consistent() && KeyOf(e) in keyed && keyed[KeyOf(e)] == existing
      modifies this`Contents, existing
      ensures Consistent()
      ensures Contents == Merged(old(Contents), Event(e))
    {
      ghost var i := Slot(KeyOf(e));
      ghost var merged := Merged(Contents, Event(e));
      CountEvent(existing, e);
      MergedInPlace(Contents, entries, i, Event(e), merged);
      Contents := merged;
    }

    /** The entry turns as bad as e if e is worse. */
    method CountEvent(existing: EntryRef, e: LogEntry)
      modifies existing
      ensures existing.entry == Merge(old(existing.entry), Event(e))
      ensures IsWorseSeverity(old(existing.entry.severity), e.severity, existing.entry.severity)
      ensures existing.entry.severity == old(existing.entry.severity) ==>
                existing.entry.line == old(existing.entry.line)
      ensures existing.entry.severity != old(existing.entry.severity) ==> existing.entry.line == e.line
    {
      hide IsWorseSeverity;
      MergedSeverity(existing.entry, e);
      existing.entry := existing.entry.(count := existing.entry.count + 1);
      if e.timestamp > existing.entry.lastSeen {
        existing.entry := existing.entry.(lastSeen := e.timestamp);
      }
      if SeverityRank(e.severity) > SeverityRank(existing.entry.severity) {
        existing.entry := existing.entry.(severity := e.severity);
        existing.entry := existing.entry.(line := e.line);
        if e.mitigation != "" {
          existing.entry := existing.entry.(mitigation := e.mitigation);
        }
      }
    }

    method AddAggregated(e: LogEntry)
      requires Valid()
      modifies this, entries
      ensures Valid()
      ensures State() == Load(old(State()), e)
      ensures forall q :: q in entries ==> q in old(entries) || fresh(q)
    {
      var normal := e;
      if normal.count < 1 {
        normal := normal.(count := 1);
      }
      if normal.lastSeen == ZERO_TIME {
        normal := normal.(lastSeen := e.timestamp);
      }
      var key := KeyOf(e);
      IndexMapKeys(Contents, entries, key);
      if key in keyed {
        ghost var i := Slot(key);
        AggregateLoaded(keyed[key], normal, e);
        return;
      }
      var entry := new EntryRef(normal);
      InsertNew(entry);
    }

    /** Adds up the counts; the severity stays what it was. */
    method AggregateLoaded(existing: EntryRef, normal: LogEntry, ghost e: LogEntry)
      requires Consistent() && KeyOf(e) in keyed && keyed[KeyOf(e)] == existing
      requires normal == Normalise(e)
      modifies this`Contents, existing
      ensures Consistent()
      ensures Contents == Merged(old(Contents), Bulk(e))
    {
      ghost var i := Slot(KeyOf(e));
      ghost var merged := Merged(Contents, Bulk(e));
      existing.entry := existing.entry.(count := existing.entry.count + normal.count);
      if normal.lastSeen > existing.entry.lastSeen {
        existing.entry := existing.entry.(lastSeen := normal.lastSeen);
      }
      MergedInPlace(Contents, entries, i, Bulk(e), merged);
      Contents := merged;
    }

    method PruneLocked(now: Time)
      requires Consistent()
      modifies this`entries, this`keyed, this`Contents
      ensures Consistent()
      ensures Contents == Kept(Cfg(), old(Contents), now)
      ensures forall q :: q in entries ==> q in old(entries)
    {
      var drop := 0;
      if maxAge > 0 {
        drop := SearchNotBefore(now - maxAge);
      }
      if maxSize > 0 && |entries| - drop > maxSize {
        drop := |entries| - maxSize;
      }
      KeptIsSuffix(Cfg(), Contents, now, drop);
      DropOldest(drop);
    }

    method DropOldest(drop: nat)
      requires Consistent() && drop <= |entries|
      modifies this`entries, this`keyed, this`Contents
      ensures Consistent() && Contents == old(Contents)[drop..]
      ensures forall q :: q in entries ==> q in old(entries)
    {
      var kept := entries[drop..];
      ghost var s := Contents[drop..];
      Dropped(Contents, entries, drop, s, kept);
      ForgetOldest(drop, kept, s);
      Place(kept, s);
    }

    /** Deletes the keys of the oldest entries. */
    method ForgetOldest(drop: nat, ghost kept: seq<EntryRef>, ghost s: seq<LogEntry>)
      requires Consistent() && drop <= |entries|
      requires kept == entries[drop..] && s == Contents[drop..]
      modifies this`keyed
      ensures keyed == IndexMap(s, kept)
    {
      ghost var n := |entries|;
      IndexRangeIsMap(Contents, entries, 0, n);
      assert Contents[0..n] == Contents && entries[0..n] == entries;
      DistinctMeans(Contents);
      for i := 0 to drop
        invariant keyed == IndexRange(Contents, entries, i, n)
      {
        IndexRangeDrop(Contents, entries, i, n);
        var key := KeyOf(entries[i].entry);
        keyed := keyed - {key};
      }
      IndexRangeIsMap(Contents, entries, drop, n);
      assert Contents[drop..n] == Contents[drop..] && entries[drop..n] == entries[drop..];
    }

    /** Value copies of a run of entries. */
    method CopyRange(lo: nat, hi: nat) returns (out: seq<LogEntry>)
      requires Holds(entries, Contents) && lo <= hi <= |entries|
      ensures out == Contents[lo..hi]
    {
      out := [];
      for i := lo to hi
        invariant out == Contents[lo..i]
      {
        out := out + [entries[i].entry];
      }
    }

    method Entries(limit: int) returns (out: seq<LogEntry>)
      requires Valid()
      ensures out == if limit > 0 then Newest(Contents, limit) else Contents
    {
      var n := |entries|;
      var start := if limit > 0 && n > limit then n - limit else 0;
      out := CopyRange(start, n);
    }

    method EntriesSince(d: int, now: Time) returns (out: seq<LogEntry>)
      requires Valid()
      ensures out == NotBefore(Contents, now - d)
    {
      var idx := SearchNotBefore(now - d);
      NotBeforeIsSuffix(Contents, now - d, idx);
      out := CopyRange(idx, |entries|);
    }

    method EntriesForDay(day: int) returns (out: seq<LogEntry>)
      requires Valid()
      ensures out == InRange(Contents, DayStart(day), DayStart(day + 1))
    {
      var dayStart := DayStart(day);
      var dayEnd := dayStart + DAY;
      var lo := SearchNotBefore(dayStart);
      var hi := SearchNotBefore(dayEnd);
      InRangeIsSlice(Contents, dayStart, dayEnd, lo, hi);
      out := CopyRange(lo, hi);
    }

    /** The latest LastSeen, or the zero time when nothing is later than it. */
    method MaxLastSeen() returns (max: Time)
      requires Valid()
      ensures ZERO_TIME <= max
      ensures forall i :: 0 <= i < |Contents| ==> Contents[i].lastSeen <= max
      ensures max == ZERO_TIME || exists i :: 0 <= i < |Contents| && Contents[i].lastSeen == max
    {
      max := ZERO_TIME;
      for i := 0 to |entries|
        invariant ZERO_TIME <= max
        invariant forall j :: 0 <= j < i ==> Contents[j].lastSeen <= max
        invariant max == ZERO_TIME || exists j :: 0 <= j < i && Contents[j].lastSeen == max
      {
        if entries[i].entry.lastSeen > max {
          max := entries[i].entry.lastSeen;
        }
      }
    }

    method Len() returns (n: nat)
      requires Valid()
      ensures n == |Contents|
    {
      n := |entries|;
    }
  }
}
