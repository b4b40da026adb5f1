/** Start-up: the buffer is read back from disk, and a new syncer, which knows of no last sync, pulls seven days of
    journal on top of it. */
module Resyncs {
  import opened Clock
  import opened LogModel
  import opened LogBuffers
  import opened Ledger
  import opened BufferRuns
  import opened ArrivalOrder
  import opened Reload
  import opened LogWatchers
  import opened DailySaves
  import opened SaveRuns
  import opened DayChanges
  import opened DayTotals
  import opened Syncs
  import opened Sequences

  // ---- what the journal yields is dated since the epoch ----

  predicate LinesDated(lines: seq<Line>) {
    forall i :: 0 <= i < |lines| && lines[i].Entry? ==> 0 <= lines[i].e.timestamp
  }

  predicate PlanDated(plan: seq<ChunkRun>) {
    forall i :: 0 <= i < |plan| ==> LinesDated(plan[i].user.lines) && LinesDated(plan[i].kernel.lines)
  }

  lemma {:induction false} ParsedDated(lines: seq<Line>)
    requires LinesDated(lines)
    ensures Dated(Parsed(lines))
  {
    if lines != [] {
      var a, x := lines[..|lines| - 1], lines[|lines| - 1];
      ParsedDated(a);
      if x.Entry? {
        Snoc(Parsed(a), Timed(Event(x.e), x.at));
      }
    }
  }

  lemma {:induction false} DatedConcat(ts: seq<Timed>, ts': seq<Timed>)
    requires Dated(ts) && Dated(ts')
    ensures Dated(ts + ts')
  {
    if ts' == [] {
      assert ts + ts' == ts;
    } else {
      var a, t := ts'[..|ts'| - 1], ts'[|ts'| - 1];
      DatedConcat(ts, a);
      Regroup(ts, a, t);
      assert ts' == a + [t];
      Snoc(ts + a, t);
    }
  }

  lemma {:induction false} EventsDated(plan: seq<ChunkRun>, k: nat)
    requires PlanDated(plan)
    ensures Dated(EventsAfter(plan, k))
  {
    hide Parsed, Dated, LinesDated;
    NoneDated();
    if k > 0 {
      var c := Met(plan, k - 1);
      EventsDated(plan, k - 1);
      ChunkDated(plan, k - 1);
      DatedConcat(EventsAfter(plan, k - 1), ChunkEvents(c));
    }
  }

  lemma ChunkDated(plan: seq<ChunkRun>, i: nat)
    requires PlanDated(plan)
    ensures Dated(ChunkEvents(Met(plan, i)))
  {
    hide Parsed, Dated;
    var c := Met(plan, i);
    ParsedDated(c.user.lines);
    ParsedDated(c.kernel.lines);
    DatedConcat(Parsed(c.user.lines), Parsed(c.kernel.lines));
  }

  lemma NoneDated()
    ensures Dated([])
  {
  }

  // ---- the start of the program ----

  /** What a sync fed, if it was not refused. */
  function SyncedEvents(out: Outcome, plan: seq<ChunkRun>): seq<Timed> {
    if out.Done? then EventsAfter(plan, out.result.chunksRun) else []
  }

  /** The buffer as read back from disk at instant now. */
  function ReadBack(files: map<int, LogFile>, machineId: string, listing: seq<int>, now: Time): Buf {
    LoadAll(EMPTY, Flatten(OwnDays(files, machineId, DayOf(now) - LOG_RETENTION_DAYS), listing))
  }

  /** After start-up each day counts for what its own file says and what the journal says, less what prunes dropped
      meanwhile. */
  lemma StartedTotals(cfg: Config, files: map<int, LogFile>, machineId: string, listing: seq<int>, now: Time,
                      ts: seq<Timed>, d: int)
    requires FilesOk(files, machineId) && NoRepeats(listing) && forall c :: c in files ==> c in listing
    requires Dated(ts)
    ensures var back := ReadBack(files, machineId, listing, now);
            Total(DayList(Continue(cfg, back, ts).entries, d)) + LossOf(cfg, back, ts, d) ==
              FileTotal(files, machineId, d, DayOf(now) - LOG_RETENTION_DAYS) + WeightOn(ts, d)
  {
    hide FilesOk, Loadable, DayList, Normalised, Own, Total, LossOf, WeightOn, Continue, Dated, WellFormed, AllSound;
    var cutoff := DayOf(now) - LOG_RETENTION_DAYS;
    LoadableSinceEpoch(files, machineId, cutoff, listing);
    RestartDays(files, machineId, cutoff, listing);
    RestartSound(files, machineId, cutoff, listing);
    DayConservation(cfg, ReadBack(files, machineId, listing, now), ts, d);
    TotalNone();
  }

  /** While prunes drop nothing of a day, it counts exactly what the journal says if and only if its own file has
      expired, or is absent or empty; otherwise what the file says is counted on top. */
  lemma CountsJournalExactly(cfg: Config, files: map<int, LogFile>, machineId: string, listing: seq<int>, now: Time,
                             ts: seq<Timed>, d: int)
    requires FilesOk(files, machineId) && NoRepeats(listing) && forall c :: c in files ==> c in listing
    requires Dated(ts) && !DroppedOf(cfg, ReadBack(files, machineId, listing, now), ts, d)
    ensures var back := ReadBack(files, machineId, listing, now);
            Total(DayList(Continue(cfg, back, ts).entries, d)) == WeightOn(ts, d) <==>
            d < DayOf(now) - LOG_RETENTION_DAYS || Own(files, machineId, d) == []
  {
    hide FilesOk, DayList, Own, Total, LossOf, WeightOn, Continue, Dated, WellFormed, DroppedOf, FileTotal;
    var cutoff := DayOf(now) - LOG_RETENTION_DAYS;
    StartedTotals(cfg, files, machineId, listing, now, ts, d);
    RestartSound(files, machineId, cutoff, listing);
    NothingLost(cfg, ReadBack(files, machineId, listing, now), ts, d);
    FileCounts(files, machineId, d, cutoff);
  }

  /** Each day of the buffer counts for its own file and the events. */
  ghost predicate Accounted(cfg: Config, files: map<int, LogFile>, machineId: string, listing: seq<int>, now: Time,
                            ts: seq<Timed>, s: seq<LogEntry>)
  {
    forall d :: Total(DayList(s, d)) + LossOf(cfg, ReadBack(files, machineId, listing, now), ts, d) ==
                FileTotal(files, machineId, d, DayOf(now) - LOG_RETENTION_DAYS) + WeightOn(ts, d)
  }

  lemma AllAccounted(cfg: Config, files: map<int, LogFile>, machineId: string, listing: seq<int>, now: Time,
                     ts: seq<Timed>)
    requires FilesOk(files, machineId) && NoRepeats(listing) && forall c :: c in files ==> c in listing
    requires Dated(ts)
    ensures Accounted(cfg, files, machineId, listing, now, ts,
                      Continue(cfg, ReadBack(files, machineId, listing, now), ts).entries)
  {
    hide FilesOk, DayList, Total, LossOf, WeightOn, Continue, Dated, FileTotal, ReadBack;
    forall d
      ensures Total(DayList(Continue(cfg, ReadBack(files, machineId, listing, now), ts).entries, d)) +
              LossOf(cfg, ReadBack(files, machineId, listing, now), ts, d) ==
                FileTotal(files, machineId, d, DayOf(now) - LOG_RETENTION_DAYS) + WeightOn(ts, d)
    {
      StartedTotals(cfg, files, machineId, listing, now, ts, d);
    }
  }

  lemma SyncedDated(out: Outcome, plan: seq<ChunkRun>)
    requires PlanDated(plan)
    ensures Dated(SyncedEvents(out, plan))
  {
    hide PlanDated, EventsAfter, Dated;
    NoneDated();
    if out.Done? {
      EventsDated(plan, out.result.chunksRun);
    }
  }

  /** A new watcher reads the saved days back into a new buffer. */
  method NewLogWatcher(store: LogDir, listing: seq<int>, maxAge: int, maxSize: int, now: Time)
    returns (watcher: LogWatcher)
    requires NoRepeats(listing) && forall d :: d in listing <==> d in store.files
    modifies store
    ensures fresh(watcher) && fresh(watcher.buffer) && forall q :: q in watcher.buffer.entries ==> fresh(q)
    ensures watcher.Valid() && watcher.store == store && watcher.buffer.Cfg() == Config(maxAge, maxSize)
    ensures watcher.State() == Watch(ReadBack(old(store.files), store.machineId, listing, now), 0,
                                     Unexpired(old(store.files), DayOf(now) - LOG_RETENTION_DAYS))
  {
    hide Unexpired, OwnDays, DayOf, LoadAll, Flatten, LogBuffer.Consistent;
    var buffer := new LogBuffer(maxAge, maxSize);
    watcher := new LogWatcher(buffer, store);
    watcher.LoadLogs(listing, now);
  }

  /** Reads the saved days back and runs the first sync. */
  method StartLogSystem(store: LogDir, listing: seq<int>, maxAge: int, maxSize: int, enabled: bool, env: Env)
    returns (watcher: LogWatcher, syncer: Syncer, out: Outcome)
    requires NoRepeats(listing) && forall d :: d in listing <==> d in store.files
    requires FilesOk(store.files, store.machineId) && PlanDated(env.plan)
    modifies store
    ensures fresh(watcher) && fresh(watcher.buffer) && fresh(syncer) && watcher.Valid()
    ensures forall q :: q in watcher.buffer.entries ==> fresh(q)
    ensures watcher.buffer == syncer.buffer && watcher.store == store
    ensures store.files == Unexpired(old(store.files), DayOf(env.now) - LOG_RETENTION_DAYS)
    ensures out.Done? <==> enabled
    ensures out.Done? ==>
              out.result.window == Window(env.now - DEFAULT_WINDOW, env.now) &&
              StopsAfter(env.plan, |Tiling(env.now - DEFAULT_WINDOW, env.now)|, out.result.chunksRun)
    ensures var cfg, ts := Config(maxAge, maxSize), SyncedEvents(out, env.plan);
            && watcher.buffer.State() ==
               Continue(cfg, ReadBack(old(store.files), store.machineId, listing, env.now), ts)
            && Accounted(cfg, old(store.files), store.machineId, listing, env.now, ts, watcher.buffer.Contents)
  {
    hide FilesOk, PlanDated, Continue, EventsAfter, StopsAfter, Tiling, ReadBack, Unexpired, Accounted, DayOf,
      QueriesAfter, FailedAfter, LinesAfter, LogBuffer.Consistent;
    ghost var files := store.files;
    watcher := NewLogWatcher(store, listing, maxAge, maxSize, env.now);
    syncer := new Syncer(watcher.buffer, enabled);
    var queries;
    assert forall j :: 0 <= j < |watcher.buffer.entries| ==> watcher.buffer.entries[j] in watcher.buffer.entries;
    out, queries := syncer.Sync(env);
    ghost var ts := SyncedEvents(out, env.plan);
    SyncedDated(out, env.plan);
    ContinueNothing(Config(maxAge, maxSize), ReadBack(files, store.machineId, listing, env.now));
    AllAccounted(Config(maxAge, maxSize), files, store.machineId, listing, env.now, ts);
  }

  // ---- sync, save, restart and sync again ----

  lemma OwnAfterSave(machineId: string, s: seq<LogEntry>, d: int)
    ensures Own(Saved(map[], machineId, s, d), machineId, d) == DayList(s, d)
  {
    hide DayList;
  }

  /** A host that synced, saved, was restarted and synced again counts of the day of the save what both syncs
      delivered, less what was dropped: everything the journal delivers both times is counted twice. */
  lemma SyncedTwice(cfg: Config, machineId: string, ts: seq<Timed>, d: int, listing: seq<int>, now: Time,
                    ts': seq<Timed>)
    requires Dated(ts) && Dated(ts') && DayOf(now) - LOG_RETENTION_DAYS <= d
    requires var files := Saved(map[], machineId, Continue(cfg, EMPTY, ts).entries, d);
             NoRepeats(listing) && forall c :: c in files ==> c in listing
    ensures var files := Saved(map[], machineId, Continue(cfg, EMPTY, ts).entries, d);
            var back := ReadBack(files, machineId, listing, now);
            Total(DayList(Continue(cfg, back, ts').entries, d)) +
            LossOf(cfg, EMPTY, ts, d) + LossOf(cfg, back, ts', d) ==
              WeightOn(ts, d) + WeightOn(ts', d)
  {
    hide DayList, Normalised, Own, Total, LossOf, WeightOn, Continue, Dated, WellFormed, AllSound, Saved, ReadBack,
      FilesOk, DayOf;
    var s := Continue(cfg, EMPTY, ts).entries;
    var files := Saved(map[], machineId, s, d);
    NothingSound();
    ContinueSound(cfg, EMPTY, ts);
    DayConservation(cfg, EMPTY, ts, d);
    SoundSince(s);
    NoFilesOk(machineId);
    SavedOk(map[], machineId, s, d);
    StartedTotals(cfg, files, machineId, listing, now, ts', d);
    OwnAfterSave(machineId, s, d);
    DayOfCanonical(s, d);
  }

  lemma NothingSound()
    ensures WellFormed([]) && AllSound([])
    ensures forall d :: Total(DayList([], d)) == 0
  {
    forall d
      ensures Total(DayList([], d)) == 0
    {
      InRangeNothing(DayStart(d), DayStart(d + 1));
    }
  }

  lemma NoFilesOk(machineId: string)
    ensures FilesOk(map[], machineId)
  {
  }

  /** The lines come from within the window, to the second. */
  predicate LinesWithin(lines: seq<Line>, w: Window) {
    forall i :: 0 <= i < |lines| && lines[i].Entry? ==>
                  Unix(w.start) <= Unix(lines[i].e.timestamp) <= Unix(w.end)
  }

  /** Each chunk of the window yields lines from within it. */
  predicate Answers(plan: seq<ChunkRun>, tiles: seq<Window>) {
    forall i :: 0 <= i < |plan| && i < |tiles| ==>
                  LinesWithin(plan[i].user.lines, tiles[i]) && LinesWithin(plan[i].kernel.lines, tiles[i])
  }

  const QUIET: ChunkRun := ChunkRun(Stream([], false), Stream([], false), false)

  /** A quiet week, with one event on its last day. */
  function QuietWeek(e: LogEntry, now: Time): seq<ChunkRun> {
    [QUIET, QUIET, QUIET, QUIET, QUIET, QUIET, ChunkRun(Stream([Entry(e, now)], false), Stream([], false), false)]
  }

  lemma {:induction false} QuietEvents(plan: seq<ChunkRun>, k: nat)
    requires k <= |plan| && forall i :: 0 <= i < k ==> plan[i] == QUIET
    ensures EventsAfter(plan, k) == []
  {
    hide ChunkEvents;
    if k > 0 {
      QuietEvents(plan, k - 1);
      assert Met(plan, k - 1) == QUIET;
      NoEvents();
    }
  }

  lemma NoEvents()
    ensures ChunkEvents(QUIET) == []
  {
  }

  /** The journal of a quiet week answers the seven chunks of the window, which run to the end and feed the event. */
  lemma QuietWeekIs(e: LogEntry, now: Time, k: nat)
    requires DayOf(e.timestamp) == DayOf(now) && e.timestamp <= now && 0 <= e.timestamp
    requires StopsAfter(QuietWeek(e, now), |Tiling(now - DEFAULT_WINDOW, now)|, k)
    ensures Answers(QuietWeek(e, now), Tiling(now - DEFAULT_WINDOW, now)) && PlanDated(QuietWeek(e, now))
    ensures EventsAfter(QuietWeek(e, now), k) == [Timed(Event(e), now)]
  {
    hide EventsAfter, Tiling;
    var plan := QuietWeek(e, now);
    TilingCount(now - DEFAULT_WINDOW, now);
    TilingAt(now - DEFAULT_WINDOW, now, 6);
    SixDays(now - DEFAULT_WINDOW);
    QuietEvents(plan, 6);
    EventsNext(plan, 6);
    LastChunk(e, now);
  }

  lemma SixDays(start: Time)
    ensures ChunkAt(start, 6) == start + 6 * DAY
  {
    assert ChunkAt(start, 0) == start;
    assert ChunkAt(start, 2) == start + 2 * DAY;
    assert ChunkAt(start, 4) == start + 4 * DAY;
  }

  lemma EventsNext(plan: seq<ChunkRun>, k: nat)
    ensures EventsAfter(plan, k + 1) == EventsAfter(plan, k) + ChunkEvents(Met(plan, k))
  {
  }

  lemma LastChunk(e: LogEntry, now: Time)
    ensures [] + ChunkEvents(ChunkRun(Stream([Entry(e, now)], false), Stream([], false), false)) ==
              [Timed(Event(e), now)]
  {
    var lines := [Entry(e, now)];
    assert lines[..0] == [] && Parsed([]) == [];
    assert Parsed(lines) == [Timed(Event(e), now)];
  }

  lemma OnceFed(cfg: Config, e: LogEntry, now: Time)
    ensures Continue(cfg, EMPTY, [Timed(Event(e), now)]) == Buf([FreshEvent(e)], 1)
  {
    hide KeyOf;
    var ts := [Timed(Event(e), now)];
    assert ts[..0] == [];
    assert Continue(cfg, EMPTY, []) == EMPTY;
  }

  lemma TwiceFed(cfg: Config, e: LogEntry, now: Time)
    ensures Continue(cfg, Buf([FreshEvent(e)], 0), [Timed(Event(e), now)]).entries == [FreshEvent(e).(count := 2)]
  {
    hide BucketStart;
    var ts, b := [Timed(Event(e), now)], Buf([FreshEvent(e)], 0);
    assert ts[..0] == [] && b.entries[..0] == [];
    assert Continue(cfg, b, []) == b;
    assert KeyOf(FreshEvent(e)) == KeyOf(e) && HasKey(b.entries, KeyOf(e));
    assert Merged([], Event(e)) == [];
    assert Merged(b.entries, Event(e)) == [MergeEvent(FreshEvent(e), e)];
  }

  lemma EmptyReadBack(machineId: string, now: Time)
    ensures ReadBack(map[], machineId, [], now) == EMPTY
    ensures Unexpired(map[], DayOf(now) - LOG_RETENTION_DAYS) == map[]
  {
  }

  lemma OneOfDay(f: LogEntry, d: int)
    requires DayOf(f.timestamp) == d
    ensures DayList([f], d) == [f]
  {
    DayBounds(f.timestamp, d);
    InRangeNothing(DayStart(d), DayStart(d + 1));
    InRangeLast([], f, DayStart(d), DayStart(d + 1));
    assert [] + [f] == [f];
  }

  lemma ReadBackOne(f: LogEntry, machineId: string, now: Time)
    requires DayOf(f.timestamp) == DayOf(now) && Canonical(f)
    ensures Saved(map[], machineId, [f], DayOf(now)) == map[DayOf(now) := LogFile(machineId, [f])]
    ensures ReadBack(map[DayOf(now) := LogFile(machineId, [f])], machineId, [DayOf(now)], now) == Buf([f], 0)
  {
    hide LoadAll, Flatten, DayList, DayOf;
    var d := DayOf(now);
    OneOfDay(f, d);
    assert OwnDays(map[d := LogFile(machineId, [f])], machineId, d - LOG_RETENTION_DAYS) == map[d := [f]];
    LoadOne(f, d);
  }

  /** The program syncs, saves, is restarted at once and syncs again, with the same journal: the one event in it is
      counted twice. */
  method CountedTwice(e: LogEntry, now: Time, machineId: string, maxAge: int, maxSize: int)
    returns (entries: seq<LogEntry>)
    requires DayOf(e.timestamp) == DayOf(now) && 0 <= e.timestamp <= now
    ensures Answers(QuietWeek(e, now), Tiling(now - DEFAULT_WINDOW, now))
    ensures entries == [FreshEvent(e).(count := 2)]
  {
    hide Continue, ReadBack, Saved, StopsAfter, Tiling, Answers, PlanDated, FilesOk, Accounted, EventsAfter, DayOf,
      QuietWeek, Unexpired, LogBuffer.Consistent;
    ghost var cfg, f := Config(maxAge, maxSize), FreshEvent(e);
    var env := Env(now, now, now, QuietWeek(e, now));
    QuietWeekRuns(e, now);
    var store := new LogDir(machineId);
    NoFilesOk(machineId);
    var watcher, syncer, out := StartLogSystem(store, [], maxAge, maxSize, true, env);
    EmptyReadBack(machineId, now);
    QuietWeekIs(e, now, out.result.chunksRun);
    OnceFed(cfg, e, now);
    assert store.files == map[];
    watcher.SaveLogs(now);
    ReadBackOne(f, machineId, now);
    FileOk(f, machineId, now);
    watcher, syncer, out := StartLogSystem(store, [DayOf(now)], maxAge, maxSize, true, env);
    QuietWeekIs(e, now, out.result.chunksRun);
    TwiceFed(cfg, e, now);
    entries := watcher.buffer.Entries(0);
  }

  lemma QuietWeekRuns(e: LogEntry, now: Time)
    requires 0 <= e.timestamp
    ensures PlanDated(QuietWeek(e, now))
  {
  }

  lemma FileOk(f: LogEntry, machineId: string, now: Time)
    requires DayOf(f.timestamp) == DayOf(now) && 0 <= f.timestamp
    ensures FilesOk(map[DayOf(now) := LogFile(machineId, [f])], machineId)
  {
    assert [f][..0] == [];
    assert WellFormed([f]);
  }
}
