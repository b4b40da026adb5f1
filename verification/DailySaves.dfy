/** What a restart brings back: a save writes the entries of today alone, so each day comes back as it
    was when it was last saved. */
module DailySaves {
  import opened Clock
  import opened LogModel
  import opened StableSort
  import opened Reload
  import opened LogWatchers
  import opened Sequences

  /** The list in the own file of day d; empty when there is no such file. */
  function Own(files: map<int, LogFile>, machineId: string, d: int): seq<LogEntry> {
    if d in files && IsOwn(files[d], machineId) then files[d].entries else []
  }

  /** The buffer after a restart. */
  function Restarted(files: map<int, LogFile>, machineId: string, cutoff: int, listing: seq<int>): seq<LogEntry> {
    LoadAll(EMPTY, Flatten(OwnDays(files, machineId, cutoff), listing)).entries
  }

  /** The unexpired own files are fit for loading, and the listing names them all. */
  ghost predicate Loadable(files: map<int, LogFile>, machineId: string, cutoff: int, listing: seq<int>) {
    && DaysOk(OwnDays(files, machineId, cutoff)) && KeysApart(OwnDays(files, machineId, cutoff))
    && NoRepeats(listing) && forall d :: d in files ==> d in listing
  }

  /** A restart brings back of each unexpired day what its own file says, and nothing of any other. */
  lemma RestartDays(files: map<int, LogFile>, machineId: string, cutoff: int, listing: seq<int>)
    requires Loadable(files, machineId, cutoff, listing)
    ensures var r := Restarted(files, machineId, cutoff, listing);
            WellFormed(r) &&
            forall d :: DayList(r, d) == if cutoff <= d then Normalised(Own(files, machineId, d)) else []
  {
    hide DayList, Normalised, LoadAll, Flatten, WellFormed, DaysOk, KeysApart;
    var days := OwnDays(files, machineId, cutoff);
    ReloadReproducesDays(days, listing);
    NothingNormalised();
    var r := Restarted(files, machineId, cutoff, listing);
    forall d
      ensures DayList(r, d) == if cutoff <= d then Normalised(Own(files, machineId, d)) else []
    {
    }
  }

  lemma NothingNormalised()
    ensures Normalised([]) == []
  {
  }

  // ---- buffers and their days ----

  /** Two well-formed buffers with the same days are the same. */
  lemma SameDays(s: seq<LogEntry>, t: seq<LogEntry>)
    requires WellFormed(s) && WellFormed(t)
    requires forall d :: DayList(s, d) == DayList(t, d)
    ensures s == t
  {
    hide InRange, AtTime, DayOf, DayStart, DistinctKeys, Sorted;
    forall x
      ensures AtTime(s, x) == AtTime(t, x)
    {
      var d := DayOf(x);
      assert DayList(s, d) == DayList(t, d);
      DayBounds(x, d);
      InRangeAtTime(s, DayStart(d), DayStart(d + 1), x);
      InRangeAtTime(t, DayStart(d), DayStart(d + 1), x);
    }
    SortedUnique(s, t);
  }

  lemma {:induction false} InItsDay(s: seq<LogEntry>, i: nat) returns (j: nat)
    requires i < |s|
    ensures var l := DayList(s, DayOf(s[i].timestamp)); j < |l| && l[j] == s[i]
  {
    var n := |s| - 1;
    var d := DayOf(s[i].timestamp);
    DayBounds(s[i].timestamp, d);
    if i < n {
      j := InItsDay(s[..n], i);
    } else {
      j := |DayList(s[..n], d)|;
    }
  }

  lemma {:induction false} NormalisedAt(s: seq<LogEntry>, i: nat)
    requires i < |s|
    ensures Normalised(s)[i] == Normalise(s[i]) && Canonical(Normalised(s)[i])
  {
    if i < |s| - 1 {
      NormalisedAt(s[..|s| - 1], i);
    }
  }

  lemma DayOfCanonical(s: seq<LogEntry>, d: int)
    requires forall i :: 0 <= i < |s| ==> Canonical(s[i])
    ensures Normalised(DayList(s, d)) == DayList(s, d)
  {
    var l := DayList(s, d);
    forall i | 0 <= i < |l|
      ensures Canonical(l[i])
    {
      InRangeTimes(s, DayStart(d), DayStart(d + 1), i);
    }
    NormalisedSame(l);
  }

  // ---- one save and one restart ----

  /** Every entry is stored in full and has not expired. */
  predicate EntriesKept(s: seq<LogEntry>, cutoff: int) {
    forall i :: 0 <= i < |s| ==> Canonical(s[i]) && cutoff <= DayOf(s[i].timestamp)
  }

  /** Every other unexpired day is on disk as it is in the buffer. */
  ghost predicate OthersOnDisk(files: map<int, LogFile>, machineId: string, s: seq<LogEntry>, today: int, cutoff: int) {
    forall d :: cutoff <= d && d != today ==> Normalised(Own(files, machineId, d)) == DayList(s, d)
  }

  /** When there is nothing of today to save, no own file of today is left over. */
  predicate NoLeftover(files: map<int, LogFile>, machineId: string, s: seq<LogEntry>, today: int, cutoff: int) {
    cutoff <= today && DayList(s, today) == [] ==> Own(files, machineId, today) == []
  }

  /** A restart after a save brings the buffer back exactly when every entry is stored in full and
      unexpired, every day but today was on disk already, and no stale file of today remains. */
  lemma RestartAfterSave(files: map<int, LogFile>, machineId: string, s: seq<LogEntry>, today: int, cutoff: int,
                         listing: seq<int>)
    requires WellFormed(s) && Loadable(Saved(files, machineId, s, today), machineId, cutoff, listing)
    ensures Restarted(Saved(files, machineId, s, today), machineId, cutoff, listing) == s <==>
            EntriesKept(s, cutoff) && OthersOnDisk(files, machineId, s, today, cutoff) &&
            NoLeftover(files, machineId, s, today, cutoff)
  {
    hide Loadable, Restarted, WellFormed;
    var after := Saved(files, machineId, s, today);
    var r := Restarted(after, machineId, cutoff, listing);
    RestartDays(after, machineId, cutoff, listing);
    if r == s {
      RestoredMeans(files, machineId, s, today, cutoff);
    }
    if EntriesKept(s, cutoff) && OthersOnDisk(files, machineId, s, today, cutoff) &&
       NoLeftover(files, machineId, s, today, cutoff) {
      forall d
        ensures DayList(r, d) == DayList(s, d)
      {
        DayRestored(files, machineId, s, today, cutoff, d);
      }
      SameDays(r, s);
    }
  }

  /** The list of day d that a restart would bring back after the save. */
  function DayBack(files: map<int, LogFile>, machineId: string, s: seq<LogEntry>, today: int, cutoff: int, d: int)
    : seq<LogEntry>
  {
    if cutoff <= d then Normalised(Own(Saved(files, machineId, s, today), machineId, d)) else []
  }

  lemma RestoredMeans(files: map<int, LogFile>, machineId: string, s: seq<LogEntry>, today: int, cutoff: int)
    requires forall d :: DayList(s, d) == DayBack(files, machineId, s, today, cutoff, d)
    ensures EntriesKept(s, cutoff) && OthersOnDisk(files, machineId, s, today, cutoff) &&
            NoLeftover(files, machineId, s, today, cutoff)
  {
    hide Normalised, DayList;
    forall i | 0 <= i < |s|
      ensures Canonical(s[i]) && cutoff <= DayOf(s[i].timestamp)
    {
      var d := DayOf(s[i].timestamp);
      var j := InItsDay(s, i);
      assert DayList(s, d) == DayBack(files, machineId, s, today, cutoff, d);
      NormalisedLength(Own(Saved(files, machineId, s, today), machineId, d));
      NormalisedAt(Own(Saved(files, machineId, s, today), machineId, d), j);
    }
    forall d | cutoff <= d && d != today
      ensures Normalised(Own(files, machineId, d)) == DayList(s, d)
    {
      assert DayList(s, d) == DayBack(files, machineId, s, today, cutoff, d);
    }
    if cutoff <= today && DayList(s, today) == [] {
      assert DayList(s, today) == DayBack(files, machineId, s, today, cutoff, today);
      NormalisedLength(Own(files, machineId, today));
    }
  }

  lemma NormalisedLength(s: seq<LogEntry>)
    ensures |Normalised(s)| == |s|
  {
  }

  lemma DayRestored(files: map<int, LogFile>, machineId: string, s: seq<LogEntry>, today: int, cutoff: int, d: int)
    requires EntriesKept(s, cutoff) && OthersOnDisk(files, machineId, s, today, cutoff)
    requires NoLeftover(files, machineId, s, today, cutoff)
    ensures DayList(s, d) == DayBack(files, machineId, s, today, cutoff, d)
  {
    hide Normalised;
    NothingNormalised();
    DayOfCanonical(s, d);
    if d < cutoff && DayList(s, d) != [] {
      HasDay(s, d);
      assert false;
    }
  }

  lemma HasDay(s: seq<LogEntry>, d: int)
    requires DayList(s, d) != []
    ensures exists i :: 0 <= i < |s| && DayOf(s[i].timestamp) == d
  {
    InRangeTimes(s, DayStart(d), DayStart(d + 1), 0);
    DayBounds(DayList(s, d)[0].timestamp, d);
  }

  /** Since the epoch the own files are always fit for loading. */
  lemma LoadableSinceEpoch(files: map<int, LogFile>, machineId: string, cutoff: int, listing: seq<int>)
    requires FilesOk(files, machineId) && NoRepeats(listing) && forall d :: d in files ==> d in listing
    ensures Loadable(files, machineId, cutoff, listing)
  {
    hide WellFormed, KeysApart;
    KeysApartSinceEpoch(OwnDays(files, machineId, cutoff));
  }

  /** An entry of a day other than today that was not saved before is lost, however complete it is. */
  lemma UnsavedDayIsLost(e: LogEntry, machineId: string)
    requires Canonical(e) && DayOf(e.timestamp) == 100
    ensures var f := e.(timestamp := e.timestamp + DAY, lastSeen := e.timestamp + DAY);
            var s := [e, f];
            var files := Saved(map[], machineId, s, 101);
            && WellFormed(s) && EntriesKept(s, 101 - LOG_RETENTION_DAYS)
            && Restarted(files, machineId, 101 - LOG_RETENTION_DAYS, [101]) == [f]
  {
    hide KeyOf, LoadAll, Flatten, InRange;
    var f := e.(timestamp := e.timestamp + DAY, lastSeen := e.timestamp + DAY);
    var s := [e, f];
    var cutoff := 101 - LOG_RETENTION_DAYS;
    var files := Saved(map[], machineId, s, 101);
    TwoDays(e, f);
    assert OwnDays(files, machineId, cutoff) == map[101 := [f]];
    LoadOne(f, 101);
  }

  lemma TwoDays(e: LogEntry, f: LogEntry)
    requires e.timestamp + DAY == f.timestamp && DayOf(e.timestamp) == 100
    ensures WellFormed([e, f]) && DayOf(f.timestamp) == 101 && DayList([e, f], 101) == [f]
  {
    DistinctByDay(e, f);
    DayBounds(e.timestamp, 101);
    DayBounds(f.timestamp, 101);
    assert [e, f][..1] == [e] && [e][..0] == [];
    assert InRange([e], DayStart(101), DayStart(102)) == [];
    assert [] + [f] == [f];
  }

  lemma DistinctByDay(e: LogEntry, f: LogEntry)
    requires e.timestamp + DAY == f.timestamp && 0 <= e.timestamp
    ensures KeyOf(e) != KeyOf(f)
  {
    if BucketStart(e.timestamp) == BucketStart(f.timestamp) {
      SameBucketSpansDays(e.timestamp, f.timestamp);
    }
  }

  lemma LoadOne(f: LogEntry, d: int)
    requires Canonical(f)
    ensures LoadAll(EMPTY, Flatten(map[d := [f]], [d])) == Buf([f], 0)
  {
    hide KeyOf;
    assert [d][..0] == [] && [] + [f] == [f];
    assert Flatten(map[d := [f]], [d]) == [f];
    LoadAllSnoc(EMPTY, [], f);
    assert Fed([], Bulk(f)) == [Normalise(f)];
  }
}
