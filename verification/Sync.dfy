/** The journal sync: one window, pulled in chunks of at most a day. */
module Syncs {
  import opened Clock
  import opened Checks
  import opened LogModel
  import opened LogBuffers
  import opened Ledger
  import opened ArrivalOrder
  import LogWatchers
  import opened Sequences

  const DEFAULT_WINDOW: int := 604_800_000_000_000

  datatype Window = Window(start: Time, end: Time)

  /** A line of journal output: rejected, or parsed into an event that is fed at some instant. */
  datatype Line = Rejected | Entry(e: LogEntry, at: Time)

  /** What one journal query yields: its lines, and whether it failed in the end. */
  datatype Stream = Stream(lines: seq<Line>, failed: bool)

  /** What the environment does during one chunk; the kernel query runs only if the first succeeds. */
  datatype ChunkRun = ChunkRun(user: Stream, kernel: Stream, cancelled: bool)

  datatype SyncResult = SyncResult(startedAt: Time, completedAt: Time, window: Window, chunksRun: nat,
                                   failedChunks: seq<nat>, linesParsed: nat, eventsAdded: nat,
                                   bufferAfter: nat, subprocCalls: nat)

  /** What the environment contributes to a sync: the clock readings and what each chunk meets. */
  datatype Env = Env(now: Time, started: Time, completed: Time, plan: seq<ChunkRun>)

  datatype SyncError = JournalUnavailable | SyncInProgress

  datatype Outcome = Done(result: SyncResult) | Refused(error: SyncError)

  /** A query of the journal, in whole seconds. */
  datatype Query = Query(kernel: bool, since: int, until: int)

  // ---- the tiling of a window ----

  /** The chunks of [start, end): a day each, the last one cut off at the end. */
  function Tiling(start: Time, end: Time): seq<Window>
    decreases if start < end then end - start else 0
  {
    if start >= end then [] else [Window(start, Min(start + DAY, end))] + Tiling(start + DAY, end)
  }

  /** The start of chunk i: i days into the window. */
  function ChunkAt(start: Time, i: nat): Time {
    if i == 0 then start else ChunkAt(start, i - 1) + DAY
  }

  lemma {:induction false} ChunkAtNext(start: Time, i: nat)
    ensures ChunkAt(start + DAY, i) == ChunkAt(start, i) + DAY
    ensures ChunkAt(start, i) >= start
  {
    if i > 0 {
      ChunkAtNext(start, i - 1);
    }
  }

  /** There is a chunk i exactly when its start lies in the window, and it ends a day later or at the
      end of the window. */
  lemma {:induction false} TilingAt(start: Time, end: Time, i: nat)
    ensures i < |Tiling(start, end)| <==> ChunkAt(start, i) < end
    ensures i < |Tiling(start, end)| ==>
              Tiling(start, end)[i] == Window(ChunkAt(start, i), Min(ChunkAt(start, i) + DAY, end))
    decreases i
  {
    ChunkAtNext(start, i);
    if i > 0 && start < end {
      ChunkAtNext(start, i - 1);
      TilingAt(start + DAY, end, i - 1);
      if i < |Tiling(start, end)| {
        assert Tiling(start, end)[i] == Tiling(start + DAY, end)[i - 1];
      }
    }
  }

  lemma {:induction false} TilingCount(start: Time, end: Time)
    ensures |Tiling(start, end)| == if start >= end then 0 else CeilDiv(end - start, DAY)
    decreases if start < end then end - start else 0
  {
    if start < end {
      TilingCount(start + DAY, end);
      CeilStep(end - start);
    }
  }

  lemma CeilStep(n: int)
    requires 0 < n
    ensures CeilDiv(n, DAY) == 1 + if n <= DAY then 0 else CeilDiv(n - DAY, DAY)
  {
    assert CeilDiv(n, DAY) == -((-n) / 86_400_000_000_000);
    assert CeilDiv(n - DAY, DAY) == -((-(n - DAY)) / 86_400_000_000_000);
  }

  /** Consecutive chunks meet, the first starts at start and the last ends at end. */
  lemma TilingCovers(start: Time, end: Time, i: nat)
    requires i < |Tiling(start, end)|
    ensures var t := Tiling(start, end);
            && t[0].start == start && t[|t| - 1].end == end
            && t[i].start < t[i].end <= t[i].start + DAY
            && (i + 1 < |t| ==> t[i + 1].start == t[i].end)
  {
    var t := Tiling(start, end);
    var n := |t| - 1;
    TilingAt(start, end, 0);
    TilingAt(start, end, i);
    TilingAt(start, end, n);
    if i + 1 < |t| {
      TilingAt(start, end, i + 1);
    }
    TilingEnds(start, end);
  }

  lemma {:induction false} TilingEnds(start: Time, end: Time)
    requires start < end
    ensures var t := Tiling(start, end); t != [] && t[|t| - 1].end == end
    decreases end - start
  {
    if start + DAY < end {
      TilingEnds(start + DAY, end);
    } else {
      assert Tiling(start + DAY, end) == [];
    }
  }

  /** A window of at most seven days has at most seven chunks. */
  lemma SevenChunks(start: Time, end: Time)
    requires end - start <= DEFAULT_WINDOW
    ensures |Tiling(start, end)| <= 7
  {
    TilingCount(start, end);
  }

  /** Where a sync starts. */
  function WindowStart(lastSync: Time, now: Time): Time {
    if lastSync == ZERO_TIME || now - lastSync > DEFAULT_WINDOW then now - DEFAULT_WINDOW else lastSync
  }

  // ---- what the chunks add up to ----

  /** The events among the lines, in order. */
  function Parsed(lines: seq<Line>): seq<Timed> {
    if lines == [] then []
    else
      var n := |lines| - 1;
      match lines[n]
      case Rejected => Parsed(lines[..n])
      case Entry(e, at) => Parsed(lines[..n]) + [Timed(Event(e), at)]
  }

  /** They are those of exactly the lines that were parsed. */
  lemma {:induction false} ParsedAt(lines: seq<Line>) returns (idx: seq<nat>)
    ensures Ascends(idx, |lines|) && |Parsed(lines)| == |idx|
    ensures forall k :: 0 <= k < |lines| ==> (k in idx <==> lines[k].Entry?)
    ensures forall i :: 0 <= i < |idx| ==>
                          lines[idx[i]].Entry? && Parsed(lines)[i] == Timed(Event(lines[idx[i]].e), lines[idx[i]].at)
  {
    if lines == [] {
      idx := [];
    } else {
      var n := |lines| - 1;
      idx := ParsedAt(lines[..n]);
      AscendsSnoc(idx, n);
      if lines[n].Entry? {
        idx := idx + [n];
      }
    }
  }

  predicate Failed(c: ChunkRun) {
    c.user.failed || c.kernel.failed
  }

  /** The events a chunk feeds: the kernel query runs only after the first one succeeded. */
  function ChunkEvents(c: ChunkRun): seq<Timed> {
    if c.user.failed then Parsed(c.user.lines) else Parsed(c.user.lines) + Parsed(c.kernel.lines)
  }

  /** How many lines a chunk reads. */
  function LineCount(c: ChunkRun): nat {
    if c.user.failed then |c.user.lines| else |c.user.lines| + |c.kernel.lines|
  }

  /** The queries a chunk makes. */
  function ChunkQueries(c: ChunkRun, w: Window): seq<Query> {
    var since, until := Unix(w.start), Unix(w.end);
    if c.user.failed then [Query(false, since, until)]
    else [Query(false, since, until), Query(true, since, until)]
  }

  /** What chunk i meets; beyond the plan the journal is empty. */
  function Met(plan: seq<ChunkRun>, i: nat): ChunkRun {
    if i < |plan| then plan[i] else ChunkRun(Stream([], false), Stream([], false), false)
  }

  /** The events fed by the first k chunks, in order. */
  function EventsAfter(plan: seq<ChunkRun>, k: nat): seq<Timed> {
    if k == 0 then [] else EventsAfter(plan, k - 1) + ChunkEvents(Met(plan, k - 1))
  }

  /** The lines read by the first k chunks. */
  function LinesAfter(plan: seq<ChunkRun>, k: nat): nat {
    if k == 0 then 0 else LinesAfter(plan, k - 1) + LineCount(Met(plan, k - 1))
  }

  /** The queries made by the first k chunks. */
  function QueriesAfter(plan: seq<ChunkRun>, tiles: seq<Window>, k: nat): seq<Query>
    requires k <= |tiles|
  {
    if k == 0 then [] else QueriesAfter(plan, tiles, k - 1) + ChunkQueries(Met(plan, k - 1), tiles[k - 1])
  }

  /** The numbers, from one, of those of the first k chunks that failed. */
  function FailedAfter(plan: seq<ChunkRun>, k: nat): seq<nat> {
    if k == 0 then []
    else if Failed(Met(plan, k - 1)) then FailedAfter(plan, k - 1) + [k]
    else FailedAfter(plan, k - 1)
  }

  /** The counters of a sync in progress. */
  datatype Totals = Totals(failed: seq<nat>, lines: nat, added: nat, queries: seq<Query>)

  /** What the first k chunks add up to. */
  function TotalsAfter(plan: seq<ChunkRun>, tiles: seq<Window>, k: nat): Totals
    requires k <= |tiles|
  {
    Totals(FailedAfter(plan, k), LinesAfter(plan, k), |EventsAfter(plan, k)|, QueriesAfter(plan, tiles, k))
  }

  /** The buffer and the counters of a sync in progress. */
  datatype Tally = Tally(buf: Buf, totals: Totals)

  /** Chunk k counted in. */
  function Counted(cfg: Config, plan: seq<ChunkRun>, tiles: seq<Window>, k: nat, t: Tally): Tally
    requires k < |tiles|
  {
    var c := Met(plan, k);
    Tally(Continue(cfg, t.buf, ChunkEvents(c)),
          Totals(if Failed(c) then t.totals.failed + [k + 1] else t.totals.failed,
                 t.totals.lines + LineCount(c), t.totals.added + |ChunkEvents(c)|,
                 t.totals.queries + ChunkQueries(c, tiles[k])))
  }

  function TallyAfter(cfg: Config, b: Buf, plan: seq<ChunkRun>, tiles: seq<Window>, k: nat): Tally
    requires k <= |tiles|
  {
    if k == 0 then Tally(b, Totals([], 0, 0, []))
    else Counted(cfg, plan, tiles, k - 1, TallyAfter(cfg, b, plan, tiles, k - 1))
  }

  lemma ContinueNothing(cfg: Config, b: Buf)
    ensures Continue(cfg, b, []) == b
  {
  }

  /** The running counters are those of the first k chunks, and the buffer was fed their events in order. */
  lemma {:induction false} TallyIsRight(cfg: Config, b: Buf, plan: seq<ChunkRun>, tiles: seq<Window>, k: nat)
    requires k <= |tiles|
    ensures TallyAfter(cfg, b, plan, tiles, k) ==
              Tally(Continue(cfg, b, EventsAfter(plan, k)), TotalsAfter(plan, tiles, k))
  {
    hide Continue, Parsed;
    ContinueNothing(cfg, b);
    if k > 0 {
      TallyIsRight(cfg, b, plan, tiles, k - 1);
      LogWatchers.ContinueConcat(cfg, b, EventsAfter(plan, k - 1), ChunkEvents(Met(plan, k - 1)));
    }
  }

  /** The caller's context stays alive through the first k chunks. */
  predicate Alive(plan: seq<ChunkRun>, k: nat) {
    k == 0 || (Alive(plan, k - 1) && !Met(plan, k - 1).cancelled)
  }

  /** k of the planned chunks run: all of them, or up to the first one after which the caller's
      context is cancelled. */
  predicate StopsAfter(plan: seq<ChunkRun>, planned: nat, k: nat) {
    && k <= planned
    && (k > 0 ==> Alive(plan, k - 1))
    && (k < planned ==> k > 0 && Met(plan, k - 1).cancelled)
  }

  lemma {:induction false} AliveMeans(plan: seq<ChunkRun>, k: nat)
    ensures Alive(plan, k) <==> forall i :: 0 <= i < k ==> !Met(plan, i).cancelled
  {
    if k > 0 {
      AliveMeans(plan, k - 1);
    }
  }

  /** How many chunks run is determined by the plan. */
  lemma StopsOnce(plan: seq<ChunkRun>, planned: nat, k: nat, l: nat)
    requires StopsAfter(plan, planned, k) && StopsAfter(plan, planned, l)
    ensures k == l
  {
    if k > 0 && l > 0 {
      AliveMeans(plan, k - 1);
      AliveMeans(plan, l - 1);
    }
  }

  lemma {:induction false} ParsedFewer(lines: seq<Line>)
    ensures |Parsed(lines)| <= |lines|
  {
    if lines != [] {
      ParsedFewer(lines[..|lines| - 1]);
    }
  }

  /** The failed chunks are listed by number, in order, and are exactly those that failed. */
  lemma {:induction false} FailedAreListed(plan: seq<ChunkRun>, k: nat)
    ensures forall n :: n in FailedAfter(plan, k) <==> 1 <= n <= k && Failed(Met(plan, n - 1))
    ensures forall i, j :: 0 <= i < j < |FailedAfter(plan, k)| ==> FailedAfter(plan, k)[i] < FailedAfter(plan, k)[j]
  {
    if k > 0 {
      FailedAreListed(plan, k - 1);
      var before := FailedAfter(plan, k - 1);
      assert forall i :: 0 <= i < |before| ==> before[i] in before;
    }
  }

  /** The counters fit together: no more failures than chunks, one query or two for each chunk, and
      no more events than lines. */
  lemma CountersAddUp(plan: seq<ChunkRun>, tiles: seq<Window>, k: nat)
    requires k <= |tiles|
    ensures |FailedAfter(plan, k)| <= k <= |QueriesAfter(plan, tiles, k)| <= 2 * k
    ensures |EventsAfter(plan, k)| <= LinesAfter(plan, k)
  {
    QueriesAddUp(plan, tiles, k);
    EventsAddUp(plan, k);
  }

  lemma {:induction false} QueriesAddUp(plan: seq<ChunkRun>, tiles: seq<Window>, k: nat)
    requires k <= |tiles|
    ensures |FailedAfter(plan, k)| <= k <= |QueriesAfter(plan, tiles, k)| <= 2 * k
  {
    if k > 0 {
      QueriesAddUp(plan, tiles, k - 1);
    }
  }

  lemma {:induction false} EventsAddUp(plan: seq<ChunkRun>, k: nat)
    ensures |EventsAfter(plan, k)| <= LinesAfter(plan, k)
  {
    hide Parsed;
    if k > 0 {
      EventsAddUp(plan, k - 1);
      ParsedFewer(Met(plan, k - 1).user.lines);
      ParsedFewer(Met(plan, k - 1).kernel.lines);
    }
  }

  // ---- what the journal is asked ----

  /** s is the second that t falls into. */
  predicate IsSecond(s: int, t: Time) {
    s * 1_000_000_000 <= t < (s + 1) * 1_000_000_000
  }

  lemma UnixIsSecond(t: Time)
    ensures IsSecond(Unix(t), t)
  {
  }

  lemma SecondsInOrder(t: Time, u: Time)
    requires t <= u
    ensures Unix(t) <= Unix(u)
  {
  }

  /** Where the userspace query of chunk i comes among the queries: one a chunk, and one more after each that
      succeeded. */
  function UserAt(plan: seq<ChunkRun>, i: nat): nat {
    if i == 0 then 0 else UserAt(plan, i - 1) + if Met(plan, i - 1).user.failed then 1 else 2
  }

  /** The query at p asks the userspace journal for a span of whole seconds, and the next one asks the kernel for the
      same span exactly when the first did not fail. */
  predicate AsksAt(queries: seq<Query>, p: nat, failed: bool) {
    p < |queries| && !queries[p].kernel && queries[p].since <= queries[p].until &&
    (!failed ==> p + 1 < |queries| && queries[p + 1] == Query(true, queries[p].since, queries[p].until))
  }

  /** The first k chunks ask for spans that start with the second of start, each where the one before ended; once
      all chunks ran, the last one ends with the second of end. */
  predicate AsksInOrder(queries: seq<Query>, plan: seq<ChunkRun>, k: nat, start: Time, end: Time, all: bool) {
    && |queries| == UserAt(plan, k)
    && (forall i :: 0 <= i < k ==> AsksAt(queries, UserAt(plan, i), Met(plan, i).user.failed))
    && (k > 0 ==> IsSecond(queries[UserAt(plan, 0)].since, start))
    && (forall i :: 0 <= i < k - 1 ==> queries[UserAt(plan, i)].until == queries[UserAt(plan, i + 1)].since)
    && (all && k > 0 ==> IsSecond(queries[UserAt(plan, k - 1)].until, end))
  }

  lemma {:induction false} QueriesAt(plan: seq<ChunkRun>, tiles: seq<Window>, k: nat, i: nat)
    requires i < k <= |tiles|
    ensures var qs, p := QueriesAfter(plan, tiles, k), UserAt(plan, i);
            && |qs| == UserAt(plan, k) && p < |qs|
            && qs[p] == Query(false, Unix(tiles[i].start), Unix(tiles[i].end))
            && (!Met(plan, i).user.failed ==>
                  p + 1 < |qs| && qs[p + 1] == Query(true, Unix(tiles[i].start), Unix(tiles[i].end)))
    decreases k
  {
    hide Unix, Met, QueriesAfter, ChunkQueries;
    QueriesLength(plan, tiles, k - 1);
    QueriesLength(plan, tiles, k);
    QueriesNext(plan, tiles, k - 1);
    ChunkAsks(Met(plan, k - 1), tiles[k - 1]);
    if i < k - 1 {
      QueriesAt(plan, tiles, k - 1, i);
    }
  }

  lemma QueriesNext(plan: seq<ChunkRun>, tiles: seq<Window>, k: nat)
    requires k < |tiles|
    ensures QueriesAfter(plan, tiles, k + 1) == QueriesAfter(plan, tiles, k) + ChunkQueries(Met(plan, k), tiles[k])
  {
  }

  lemma ChunkAsks(c: ChunkRun, w: Window)
    ensures var qs := ChunkQueries(c, w);
            && |qs| == (if c.user.failed then 1 else 2) && qs[0] == Query(false, Unix(w.start), Unix(w.end))
            && (!c.user.failed ==> qs[1] == Query(true, Unix(w.start), Unix(w.end)))
  {
  }

  lemma {:induction false} QueriesLength(plan: seq<ChunkRun>, tiles: seq<Window>, k: nat)
    requires k <= |tiles|
    ensures |QueriesAfter(plan, tiles, k)| == UserAt(plan, k)
  {
    hide Unix, Met;
    if k > 0 {
      QueriesLength(plan, tiles, k - 1);
    }
  }

  /** What is asked of the journal tiles the window. */
  lemma QueriesTile(plan: seq<ChunkRun>, start: Time, end: Time, k: nat)
    requires k <= |Tiling(start, end)|
    ensures var tiles := Tiling(start, end);
            AsksInOrder(QueriesAfter(plan, tiles, k), plan, k, start, end, k == |tiles|)
  {
    hide Tiling, QueriesAfter, Unix, UserAt, Met, IsSecond;
    var tiles := Tiling(start, end);
    var qs := QueriesAfter(plan, tiles, k);
    QueriesLength(plan, tiles, k);
    forall i | 0 <= i < k
      ensures AsksAt(qs, UserAt(plan, i), Met(plan, i).user.failed)
      ensures i + 1 < k ==>
                UserAt(plan, i) < |qs| && UserAt(plan, i + 1) < |qs| &&
                qs[UserAt(plan, i)].until == qs[UserAt(plan, i + 1)].since
    {
      QueriesAt(plan, tiles, k, i);
      TilingCovers(start, end, i);
      SecondsInOrder(tiles[i].start, tiles[i].end);
      if i + 1 < k {
        QueriesAt(plan, tiles, k, i + 1);
      }
    }
    if k > 0 {
      QueriesAt(plan, tiles, k, 0);
      QueriesAt(plan, tiles, k, k - 1);
      TilingCovers(start, end, k - 1);
      UnixIsSecond(start);
      UnixIsSecond(end);
    }
  }

  lemma StopsMeans(plan: seq<ChunkRun>, planned: nat, k: nat)
    requires StopsAfter(plan, planned, k)
    ensures k <= planned && forall i :: 0 <= i < k - 1 ==> !Met(plan, i).cancelled
    ensures k < planned ==> k > 0 && Met(plan, k - 1).cancelled
  {
    if k > 0 {
      AliveMeans(plan, k - 1);
    }
  }

  // ---- the syncer ----

  class Syncer {
    const buffer: LogBuffer
    const enabled: bool
    var locked: bool
    var inFlight: bool
    var lastSync: Time
    var lastRes: Option<SyncResult>

    constructor (buffer: LogBuffer, enabled: bool)
      ensures this.buffer == buffer && this.enabled == enabled
      ensures !locked && !inFlight && lastSync == ZERO_TIME && lastRes == None
    {
      this.buffer, this.enabled := buffer, enabled;
      locked, inFlight, lastSync, lastRes := false, false, ZERO_TIME, None;
    }

    /** Feeds the lines of one query to the buffer as they come. */
    method StreamJournal(lines: seq<Line>) returns (count: nat, added: nat)
      requires buffer.Valid()
      modifies buffer, buffer.entries
      ensures buffer.Valid()
      ensures buffer.State() == Continue(buffer.Cfg(), old(buffer.State()), Parsed(lines))
      ensures count == |lines| && added == |Parsed(lines)|
      ensures forall q :: q in buffer.entries ==> q in old(buffer.entries) || fresh(q)
    {
      ghost var start, events := buffer.State(), [];
      count, added := 0, 0;
      for i := 0 to |lines|
        invariant buffer.Valid()
        invariant count == i && events == Parsed(lines[..i]) && added == |events|
        invariant buffer.State() == Continue(buffer.Cfg(), start, events)
        invariant forall q :: q in buffer.entries ==> q in old(buffer.entries) || fresh(q)
      {
        TakeOne(lines, i);
        count := count + 1;
        if lines[i].Entry? {
          LogWatchers.ContinueSnoc(buffer.Cfg(), start, events, Timed(Event(lines[i].e), lines[i].at));
          assert forall j :: 0 <= j < |buffer.entries| ==> buffer.entries[j] in buffer.entries;
          buffer.AddEvent(lines[i].e, lines[i].at);
          added := added + 1;
          events := events + [Timed(Event(lines[i].e), lines[i].at)];
        }
      }
      TakeAll(lines);
    }

    /** One chunk: the userspace query, then the kernel query unless the first one failed. */
    method SyncChunk(c: ChunkRun, w: Window) returns (failed: bool, lines: nat, added: nat, queries: seq<Query>)
      requires buffer.Valid()
      modifies buffer, buffer.entries
      ensures buffer.Valid()
      ensures buffer.State() == Continue(buffer.Cfg(), old(buffer.State()), ChunkEvents(c))
      ensures failed == Failed(c) && lines == LineCount(c) && added == |ChunkEvents(c)|
      ensures queries == ChunkQueries(c, w)
      ensures ChunkEvents(c) == Parsed(c.user.lines) + if c.user.failed then [] else Parsed(c.kernel.lines)
      ensures failed == (c.user.failed || c.kernel.failed)
      ensures lines == |c.user.lines| + if c.user.failed then 0 else |c.kernel.lines|
      ensures |queries| == if c.user.failed then 1 else 2
      ensures !queries[0].kernel && IsSecond(queries[0].since, w.start) && IsSecond(queries[0].until, w.end)
      ensures !c.user.failed ==> queries[1] == Query(true, queries[0].since, queries[0].until)
      ensures forall q :: q in buffer.entries ==> q in old(buffer.entries) || fresh(q)
    {
      UnixIsSecond(w.start);
      UnixIsSecond(w.end);
      assert Parsed(c.user.lines) + [] == Parsed(c.user.lines);
      var since, until := Unix(w.start), Unix(w.end);
      queries := [Query(false, since, until)];
      lines, added := StreamJournal(c.user.lines);
      if c.user.failed {
        return true, lines, added, queries;
      }
      queries := queries + [Query(true, since, until)];
      LogWatchers.ContinueConcat(buffer.Cfg(), old(buffer.State()), Parsed(c.user.lines), Parsed(c.kernel.lines));
      assert forall j :: 0 <= j < |buffer.entries| ==> buffer.entries[j] in buffer.entries;
      var moreLines, moreAdded := StreamJournal(c.kernel.lines);
      return c.kernel.failed, lines + moreLines, added + moreAdded, queries;
    }

    /** Runs chunk k, which starts at chunkStart, and counts it in. */
    method CountChunk(plan: seq<ChunkRun>, k: nat, chunkStart: Time, end: Time, ghost tiles: seq<Window>,
                      totals: Totals)
      returns (out: Totals)
      requires buffer.Valid()
      requires k < |tiles| && tiles[k] == Window(chunkStart, Min(chunkStart + DAY, end))
      modifies buffer, buffer.entries
      ensures buffer.Valid()
      ensures Tally(buffer.State(), out) == Counted(buffer.Cfg(), plan, tiles, k, Tally(old(buffer.State()), totals))
      ensures forall q :: q in buffer.entries ==> q in old(buffer.entries) || fresh(q)
    {
      hide Parsed, Unix, ChunkEvents, ChunkQueries, LineCount, Failed, IsSecond, Continue, Met, LogBuffer.Consistent;
      var chunkEnd := chunkStart + DAY;
      if chunkEnd > end {
        chunkEnd := end;
      }
      var bad, lines, added, queries := SyncChunk(Met(plan, k), Window(chunkStart, chunkEnd));
      var failed := totals.failed;
      if bad {
        failed := failed + [k + 1];
      }
      out := Totals(failed, totals.lines + lines, totals.added + added, totals.queries + queries);
    }

    /** The chunk loop: runs the chunks of the window in order and adds up what they report. */
    method RunChunks(plan: seq<ChunkRun>, start: Time, end: Time, ghost tiles: seq<Window>)
      returns (k: nat, totals: Totals)
      requires buffer.Valid() && tiles == Tiling(start, end)
      modifies buffer, buffer.entries
      ensures buffer.Valid() && StopsAfter(plan, |tiles|, k)
      ensures totals == TotalsAfter(plan, tiles, k)
      ensures buffer.State() == Continue(buffer.Cfg(), old(buffer.State()), EventsAfter(plan, k))
      ensures forall q :: q in buffer.entries ==> q in old(buffer.entries) || fresh(q)
    {
      hide Continue, Parsed, LogBuffer.Consistent;
      ghost var before := buffer.State();
      k, totals := 0, Totals([], 0, 0, []);
      var chunkStart := start;
      while chunkStart < end
        invariant k <= |tiles| && chunkStart == ChunkAt(start, k) && Alive(plan, k)
        invariant buffer.Valid()
        invariant Tally(buffer.State(), totals) == TallyAfter(buffer.Cfg(), before, plan, tiles, k)
        invariant forall q :: q in buffer.entries ==> q in old(buffer.entries) || fresh(q)
        decreases end - chunkStart
      {
        TilingAt(start, end, k);
        assert forall j :: 0 <= j < |buffer.entries| ==> buffer.entries[j] in buffer.entries;
        totals := CountChunk(plan, k, chunkStart, end, tiles, totals);
        k := k + 1;
        if Met(plan, k - 1).cancelled {
          TallyIsRight(buffer.Cfg(), before, plan, tiles, k);
          return;
        }
        chunkStart := chunkStart + DAY;
      }
      TilingAt(start, end, k);
      TallyIsRight(buffer.Cfg(), before, plan, tiles, k);
    }

    /** A caller that finds the lock taken, or no journal, is refused and changes nothing. Otherwise
        the window from the last sync, at most seven days back, is pulled chunk by chunk, and the
        result is published together with the time of completion. */
    method Sync(env: Env) returns (out: Outcome, queries: seq<Query>)
      requires buffer.Valid()
      modifies this, buffer, buffer.entries
      ensures buffer.Valid() && locked == old(locked)
      ensures !enabled ==> out == Refused(JournalUnavailable)
      ensures enabled && old(locked) ==> out == Refused(SyncInProgress)
      ensures out.Done? <==> enabled && !old(locked)
      ensures out.Refused? ==>
                buffer.State() == old(buffer.State()) && queries == [] &&
                lastSync == old(lastSync) && lastRes == old(lastRes) && inFlight == old(inFlight)
      ensures out.Done? ==>
                var res := out.result;
                var tiles := Tiling(res.window.start, res.window.end);
                && !inFlight && res.startedAt == env.started && res.chunksRun <= 7
                && lastRes == Some(res) && lastSync == res.completedAt == env.completed
                && res.window == Window(WindowStart(old(lastSync), env.now), env.now)
                && StopsAfter(env.plan, |tiles|, res.chunksRun)
                && res.failedChunks == FailedAfter(env.plan, res.chunksRun)
                && res.linesParsed == LinesAfter(env.plan, res.chunksRun)
                && res.eventsAdded == |EventsAfter(env.plan, res.chunksRun)|
                && queries == QueriesAfter(env.plan, tiles, res.chunksRun) && res.subprocCalls == |queries|
                && buffer.State() == Continue(buffer.Cfg(), old(buffer.State()), EventsAfter(env.plan, res.chunksRun))
                && res.bufferAfter == |buffer.Contents|
      ensures out.Done? ==>
                var res := out.result;
                var planned := |Tiling(res.window.start, res.window.end)|;
                && AsksInOrder(queries, env.plan, res.chunksRun, res.window.start, res.window.end,
                               res.chunksRun == planned)
                && (forall i :: 0 <= i < res.chunksRun - 1 ==> !Met(env.plan, i).cancelled)
                && (res.chunksRun < planned ==> res.chunksRun > 0 && Met(env.plan, res.chunksRun - 1).cancelled)
      ensures forall q :: q in buffer.entries ==> q in old(buffer.entries) || fresh(q)
    {
      hide Continue, Parsed, LogBuffer.Consistent, AsksInOrder;
      queries := [];
      if !enabled {
        return Refused(JournalUnavailable), [];
      }
      if locked {
        return Refused(SyncInProgress), [];
      }
      locked := true;
      inFlight := true;
      var start := lastSync;
      if start == ZERO_TIME || env.now - start > DEFAULT_WINDOW {
        start := env.now - DEFAULT_WINDOW;
      }
      SevenChunks(start, env.now);
      var k, totals := RunChunks(env.plan, start, env.now, Tiling(start, env.now));
      queries := totals.queries;
      QueriesTile(env.plan, start, env.now, k);
      StopsMeans(env.plan, |Tiling(start, env.now)|, k);
      var n := buffer.Len();
      var res := SyncResult(env.started, env.completed, Window(start, env.now), k, totals.failed, totals.lines,
                            totals.added, n, |queries|);
      lastSync := res.completedAt;
      lastRes := Some(res);
      inFlight := false;
      locked := false;
      out := Done(res);
    }
  }
}
