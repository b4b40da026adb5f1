/** The log watcher: feeds the buffer, saves its current day and reloads the saved days. */
module LogWatchers {
  import opened Clock
  import opened Checks
  import opened LogModel
  import opened LogBuffers
  import opened Ledger
  import opened Refinement
  import opened ArrivalOrder
  import opened Reload
  import opened Lines
  import opened Sequences

  datatype LogFile = Unreadable | LogFile(machineId: string, entries: seq<LogEntry>)

  const LOG_RETENTION_DAYS: int := 7

  /** The directory of saved days, one file a day. */
  class LogDir {
    var files: map<int, LogFile>
    const machineId: string

    constructor (machineId: string)
      ensures files == map[] && this.machineId == machineId
    {
      files := map[];
      this.machineId := machineId;
    }
  }

  /** The directory after saving the entries of today, if there are any. */
  function Saved(files: map<int, LogFile>, machineId: string, s: seq<LogEntry>, today: int): map<int, LogFile> {
    if DayList(s, today) == [] then files else files[today := LogFile(machineId, DayList(s, today))]
  }

  /** The files that a load removes nothing from: those of day cutoff and later. */
  function Unexpired(files: map<int, LogFile>, cutoff: int): map<int, LogFile> {
    map d | d in files && cutoff <= d :: files[d]
  }

  lemma UnexpiredDays(files: map<int, LogFile>, cutoff: int)
    ensures forall d :: d in Unexpired(files, cutoff) <==> d in files && cutoff <= d
  {
  }

  predicate IsOwn(f: LogFile, machineId: string) {
    f.LogFile? && f.machineId == machineId
  }

  /** The lists a load reads: readable files of this machine that have not expired. */
  function OwnDays(files: map<int, LogFile>, machineId: string, cutoff: int): map<int, seq<LogEntry>> {
    map d | d in files && cutoff <= d && IsOwn(files[d], machineId) :: files[d].entries
  }

  /** A file of another machine counts as one that cannot be read. */
  lemma ForeignIgnored(files: map<int, LogFile>, machineId: string, cutoff: int, d: int)
    requires d in files && files[d].LogFile? && files[d].machineId != machineId
    ensures OwnDays(files, machineId, cutoff) == OwnDays(files[d := Unreadable], machineId, cutoff)
    ensures d !in OwnDays(files, machineId, cutoff)
  {
  }

  /** An own file is read exactly when it is not older than the cutoff. */
  lemma OwnIsRead(files: map<int, LogFile>, machineId: string, cutoff: int, d: int, entries: seq<LogEntry>)
    requires d in files && files[d] == LogFile(machineId, entries)
    ensures d in OwnDays(files, machineId, cutoff) <==> cutoff <= d
    ensures cutoff <= d ==> OwnDays(files, machineId, cutoff)[d] == entries
  {
  }

  /** The entry that records a check result, if it is bad. */
  function RecordOf(r: CheckResult, now: Time): Option<LogEntry> {
    if !IsBad(r.status) then None
    else
      var ts := if r.checkedAt == ZERO_TIME then now else r.checkedAt;
      Some(LogEntry(ts, ZERO_TIME, "check", if r.status == Critical then "error" else "warn",
                    r.message, r.component, "", 0))
  }

  lemma LoadAllSnoc(b: Buf, es: seq<LogEntry>, x: LogEntry)
    ensures LoadAll(b, es + [x]) == Load(LoadAll(b, es), x)
  {
    Snoc(es, x);
  }

  lemma {:induction false} LoadAllConcat(b: Buf, es: seq<LogEntry>, es': seq<LogEntry>)
    ensures LoadAll(b, es + es') == LoadAll(LoadAll(b, es), es')
  {
    if es' == [] {
      assert es + es' == es;
    } else {
      var a, e := es'[..|es'| - 1], es'[|es'| - 1];
      LoadAllConcat(b, es, a);
      LoadAllSnoc(b, es + a, e);
      LoadAllSnoc(LoadAll(b, es), a, e);
      Regroup(es, a, e);
      assert es' == a + [e];
    }
  }

  /** How a source turns a line into an entry: trimming, reading its time (the zero time when it has
      none) and matching it against the known patterns. */
  datatype Scanner = Scanner(trim: Bytes -> Bytes, parse: Bytes -> Time, match_: Bytes -> Option<LogEntry>)

  function LineEvent(sc: Scanner, line: Bytes, cutoff: Time): Option<LogEntry> {
    var l := sc.trim(line);
    var ts := sc.parse(l);
    if l == [] || ts == ZERO_TIME || ts < cutoff then None
    else
      match sc.match_(l)
      case None => None
      case Some(e) => Some(e.(timestamp := ts))
  }

  /** The events that a scan of these lines feeds to the buffer. */
  function LineEvents(sc: Scanner, lines: seq<Bytes>, cutoff: Time, now: Time): seq<Timed> {
    if lines == [] then []
    else
      var rest := LineEvents(sc, lines[..|lines| - 1], cutoff, now);
      match LineEvent(sc, lines[|lines| - 1], cutoff)
      case None => rest
      case Some(e) => rest + [Timed(Event(e), now)]
  }

  /** A line counts when it is not empty once trimmed, has a time not before the cutoff, and matches a pattern. */
  predicate Counts(sc: Scanner, line: Bytes, cutoff: Time) {
    var l := sc.trim(line);
    l != [] && sc.parse(l) != ZERO_TIME && cutoff <= sc.parse(l) && sc.match_(l).Some?
  }

  /** The events are those of exactly the lines that count, in order, each dated by its line. */
  lemma {:induction false} LineEventsAt(sc: Scanner, lines: seq<Bytes>, cutoff: Time, now: Time)
    returns (idx: seq<nat>)
    ensures var es := LineEvents(sc, lines, cutoff, now);
            && Ascends(idx, |lines|) && |es| == |idx|
            && (forall k :: 0 <= k < |lines| ==> (k in idx <==> Counts(sc, lines[k], cutoff)))
            && (forall i :: 0 <= i < |idx| ==> Counts(sc, lines[idx[i]], cutoff))
            && forall i :: 0 <= i < |idx| ==>
                 var l := sc.trim(lines[idx[i]]);
                 es[i] == Timed(Event(sc.match_(l).value.(timestamp := sc.parse(l))), now)
  {
    if lines == [] {
      idx := [];
    } else {
      var n := |lines| - 1;
      idx := LineEventsAt(sc, lines[..n], cutoff, now);
      AscendsSnoc(idx, n);
      if LineEvent(sc, lines[n], cutoff).Some? {
        idx := idx + [n];
      }
    }
  }

  /** A watched file: how its lines are read and matched, and what it holds. */
  datatype Source = Source(sc: Scanner, content: Bytes)

  function FileEvents(files: seq<Source>, cutoff: Time, now: Time): seq<Timed> {
    if files == [] then []
    else
      var f := files[|files| - 1];
      FileEvents(files[..|files| - 1], cutoff, now) + LineEvents(f.sc, ScanLines(f.content), cutoff, now)
  }

  /** The files are scanned one after the other, each with its own scanner. */
  lemma {:induction false} FileEventsAre(files: seq<Source>, cutoff: Time, now: Time, i: nat)
    requires i < |files|
    ensures FileEvents(files, cutoff, now) ==
              FileEvents(files[..i], cutoff, now) +
              LineEvents(files[i].sc, ScanLines(files[i].content), cutoff, now) +
              FileEvents(files[i + 1..], cutoff, now)
    ensures FileEvents([], cutoff, now) == []
    decreases |files|
  {
    hide LineEvents, ScanLines;
    var n := |files| - 1;
    var own := LineEvents(files[i].sc, ScanLines(files[i].content), cutoff, now);
    if i < n {
      var last := LineEvents(files[n].sc, ScanLines(files[n].content), cutoff, now);
      FileEventsAre(files[..n], cutoff, now, i);
      assert files[..n][..i] == files[..i] && files[..n][i + 1..] == files[i + 1..][..n - i - 1];
      Associate(FileEvents(files[..i], cutoff, now) + own, FileEvents(files[..n][i + 1..], cutoff, now), last);
    } else {
      assert FileEvents(files[..i], cutoff, now) + own + [] == FileEvents(files[..i], cutoff, now) + own;
    }
  }

  lemma ContinueSnoc(cfg: Config, b: Buf, ts: seq<Timed>, t: Timed)
    ensures Continue(cfg, b, ts + [t]) == Step(cfg, Continue(cfg, b, ts), t.op, t.now)
  {
    Snoc(ts, t);
  }

  lemma {:induction false} ContinueConcat(cfg: Config, b: Buf, ts: seq<Timed>, ts': seq<Timed>)
    ensures Continue(cfg, b, ts + ts') == Continue(cfg, Continue(cfg, b, ts), ts')
  {
    if ts' == [] {
      assert ts + ts' == ts;
    } else {
      var a, t := ts'[..|ts'| - 1], ts'[|ts'| - 1];
      ContinueConcat(cfg, b, ts, a);
      ContinueSnoc(cfg, b, ts + a, t);
      ContinueSnoc(cfg, Continue(cfg, b, ts), a, t);
      Regroup(ts, a, t);
      assert ts' == a + [t];
    }
  }

  lemma {:induction false} LineEventsAfter(sc: Scanner, lines: seq<Bytes>, cutoff: Time, now: Time)
    ensures forall t :: t in LineEvents(sc, lines, cutoff, now) ==> t.op.Event? && cutoff <= t.op.e.timestamp
  {
    if lines != [] {
      LineEventsAfter(sc, lines[..|lines| - 1], cutoff, now);
    }
  }

  /** A start-up scan feeds nothing from before its cutoff. */
  lemma {:induction false} FileEventsAfter(files: seq<Source>, cutoff: Time, now: Time)
    ensures forall t :: t in FileEvents(files, cutoff, now) ==> t.op.Event? && cutoff <= t.op.e.timestamp
  {
    if files != [] {
      var f := files[|files| - 1];
      FileEventsAfter(files[..|files| - 1], cutoff, now);
      LineEventsAfter(f.sc, ScanLines(f.content), cutoff, now);
    }
  }

  // ---- where a start-up scan begins ----

  /** The latest last sighting, or the zero time when none is later than it. */
  function LatestSeen(s: seq<LogEntry>): Time {
    if s == [] then ZERO_TIME else Max(LatestSeen(s[..|s| - 1]), s[|s| - 1].lastSeen)
  }

  /** A second past everything seen, but at most a day back. */
  function CutoffFor(s: seq<LogEntry>, now: Time): Time {
    if LatestSeen(s) == ZERO_TIME then now - DAY else Max(now - DAY, LatestSeen(s) + SECOND)
  }

  lemma {:induction false} LatestSeenIs(s: seq<LogEntry>)
    ensures ZERO_TIME <= LatestSeen(s)
    ensures forall i :: 0 <= i < |s| ==> s[i].lastSeen <= LatestSeen(s)
    ensures LatestSeen(s) == ZERO_TIME || exists i :: 0 <= i < |s| && s[i].lastSeen == LatestSeen(s)
  {
    if s != [] {
      var a := s[..|s| - 1];
      LatestSeenIs(a);
      if LatestSeen(s) != ZERO_TIME && LatestSeen(s) != s[|s| - 1].lastSeen {
        var i :| 0 <= i < |a| && a[i].lastSeen == LatestSeen(a);
        assert s[i].lastSeen == LatestSeen(s);
      }
    }
  }

  /** Nothing is counted twice: an event that a start-up scan feeds is later than every sighting that
      any operation behind the buffer's entries reports. */
  lemma ScanCountsNothingTwice(cfg: Config, ts: seq<Timed>, files: seq<Source>, now: Time, t: Timed, k: AggKey, op: Op)
    requires ZERO_TIME + DAY < now
    requires t in FileEvents(files, CutoffFor(Run(cfg, ts).buf.entries, now), now)
    requires op in LiveOps(cfg, ts, k)
    ensures SeenAt(op) < t.op.e.timestamp
  {
    hide LineEvents, FileEvents, Run, Accounts;
    var s := Run(cfg, ts).buf.entries;
    var cutoff := CutoffFor(s, now);
    FileEventsAfter(files, cutoff, now);
    NothingElseIsLive(cfg, ts, k);
    HasKeyMeans(s, k);
    var i :| 0 <= i < |s| && KeyOf(s[i]) == k;
    EntryAccountsForItsEvents(cfg, ts, i);
    AccountsLatest(LiveOps(cfg, ts, k), s[i], op);
    LatestSeenIs(s);
  }

  lemma AccountsLatest(h: History, e: LogEntry, op: Op)
    requires Accounts(h, e) && op in h
    ensures SeenAt(op) <= e.lastSeen
  {
  }

  // ---- feeding and saving ----

  /** The buffer, the events fed since the last save, and the directory. */
  datatype Watch = Watch(buf: Buf, saveN: nat, files: map<int, LogFile>)

  /** One event fed: every tenth saves the entries of today, if there is a directory. */
  function FeedOne(cfg: Config, machineId: Option<string>, w: Watch, e: LogEntry, now: Time): Watch {
    var buf := Step(cfg, w.buf, Event(e), now);
    if w.saveN + 1 < 10 then Watch(buf, w.saveN + 1, w.files)
    else if machineId.None? then Watch(buf, 0, w.files)
    else Watch(buf, 0, Saved(w.files, machineId.value, buf.entries, DayOf(now)))
  }

  class LogWatcher {
    const buffer: LogBuffer
    const store: LogDir?
    var saveN: nat

    constructor (buffer: LogBuffer, store: LogDir?)
      ensures this.buffer == buffer && this.store == store && saveN == 0
    {
      this.buffer := buffer;
      this.store := store;
      saveN := 0;
    }

    ghost predicate Valid()
      reads this, buffer, buffer.entries
    {
      buffer.Valid() && saveN < 10
    }

    ghost function State(): Watch
      reads this, buffer, store
    {
      Watch(buffer.State(), saveN, if store == null then map[] else store.files)
    }

    ghost function MachineId(): Option<string> {
      if store == null then None else Some(store.machineId)
    }

    method SaveLogs(now: Time)
      requires buffer.Valid()
      modifies if store == null then {} else {store}
      ensures buffer.Valid() && buffer.State() == old(buffer.State())
      ensures store != null ==>
                store.files == Saved(old(store.files), store.machineId, buffer.Contents, DayOf(now))
    {
      if store == null {
        return;
      }
      var today := DayOf(now);
      var todayEntries := buffer.EntriesForDay(today);
      if |todayEntries| == 0 {
        return;
      }
      store.files := store.files[today := LogFile(store.machineId, todayEntries)];
    }

    /** Feeds a list of saved entries to the buffer. */
    method LoadEntries(es: seq<LogEntry>)
      requires buffer.Valid()
      modifies buffer, buffer.entries
      ensures buffer.Valid()
      ensures buffer.State() == LoadAll(old(buffer.State()), es)
      ensures forall q :: q in buffer.entries ==> q in old(buffer.entries) || fresh(q)
    {
      for i := 0 to |es|
        invariant buffer.Valid()
        invariant buffer.State() == LoadAll(old(buffer.State()), es[..i])
        invariant forall q :: q in buffer.entries ==> q in old(buffer.entries) || fresh(q)
      {
        TakeOne(es, i);
        assert forall j :: 0 <= j < |buffer.entries| ==> buffer.entries[j] in buffer.entries;
        buffer.AddAggregated(es[i]);
      }
      TakeAll(es);
    }

    /** Reads one file of the listing; removes it when it has expired. */
    method ReadDay(date: int, cutoff: int) returns (es: Option<seq<LogEntry>>)
      requires store != null && date in store.files
      modifies store
      ensures store.files == if date < cutoff then old(store.files) - {date} else old(store.files)
      ensures var days := OwnDays(old(store.files), store.machineId, cutoff);
              es == if date in days then Some(days[date]) else None
    {
      if date < cutoff {
        store.files := store.files - {date};
        return None;
      }
      var file := store.files[date];
      if file.Unreadable? || file.machineId != store.machineId {
        return None;
      }
      return Some(file.entries);
    }

    /** Reads one file of the listing and feeds what it holds to the buffer. */
    method LoadDay(date: int, cutoff: int)
      requires buffer.Valid() && store != null && date in store.files
      modifies buffer, buffer.entries, store
      ensures buffer.Valid()
      ensures store.files == if date < cutoff then old(store.files) - {date} else old(store.files)
      ensures var days := OwnDays(old(store.files), store.machineId, cutoff);
              buffer.State() == if date in days then LoadAll(old(buffer.State()), days[date]) else old(buffer.State())
      ensures forall q :: q in buffer.entries ==> q in old(buffer.entries) || fresh(q)
    {
      var es := ReadDay(date, cutoff);
      if es.Some? {
        LoadEntries(es.value);
      }
    }

    /** Reads the saved days in the order of the directory listing. */
    method LoadLogs(listing: seq<int>, now: Time)
      requires buffer.Valid()
      requires store != null ==> forall d :: d in listing <==> d in store.files
      requires NoRepeats(listing)
      modifies buffer, buffer.entries, if store == null then {} else {store}
      ensures buffer.Valid()
      ensures store == null ==> buffer.State() == old(buffer.State())
      ensures store != null ==>
                forall d :: d in store.files <==> d in old(store.files) && DayOf(now) - 7 <= d
      ensures forall q :: q in buffer.entries ==> q in old(buffer.entries) || fresh(q)
      ensures store != null ==>
                var cutoff := DayOf(now) - LOG_RETENTION_DAYS;
                store.files == Unexpired(old(store.files), cutoff) &&
                buffer.State() ==
                LoadAll(old(buffer.State()), Flatten(OwnDays(old(store.files), store.machineId, cutoff), listing))
    {
      hide OwnDays, Unexpired, LogBuffer.Consistent;
      if store == null {
        return;
      }
      var cutoff := DayOf(now) - LOG_RETENTION_DAYS;
      ghost var was, start := store.files, buffer.State();
      ghost var days := OwnDays(was, store.machineId, cutoff);
      for i := 0 to |listing|
        invariant buffer.Valid()
        invariant forall q :: q in buffer.entries ==> q in old(buffer.entries) || fresh(q)
        invariant store.files == Swept(was, listing[..i], cutoff)
        invariant buffer.State() == LoadAll(start, Flatten(days, listing[..i]))
      {
        var date := listing[i];
        TakeOne(listing, i);
        NoRepeatsAt(listing, i);
        OwnDaysOfSwept(was, store.machineId, listing[..i], cutoff, date);
        assert forall j :: 0 <= j < |buffer.entries| ==> buffer.entries[j] in buffer.entries;
        LoadDay(date, cutoff);
        if date in days {
          LoadAllConcat(start, Flatten(days, listing[..i]), days[date]);
        }
      }
      TakeAll(listing);
      SweptAll(was, listing, cutoff);
      UnexpiredDays(was, cutoff);
    }

    /** Feeds one line if it is dated, not before the cutoff and matches a pattern. */
    method ScanLine(sc: Scanner, text: Bytes, cutoff: Time, now: Time) returns (fed: bool)
      requires buffer.Valid()
      modifies buffer, buffer.entries
      ensures buffer.Valid()
      ensures var e := LineEvent(sc, text, cutoff);
              fed == e.Some? &&
              buffer.State() == if fed then Step(buffer.Cfg(), old(buffer.State()), Event(e.value), now)
                                else old(buffer.State())
      ensures forall q :: q in buffer.entries ==> q in old(buffer.entries) || fresh(q)
    {
      var line := sc.trim(text);
      if line == [] {
        return false;
      }
      var ts := sc.parse(line);
      if ts == ZERO_TIME || ts < cutoff {
        return false;
      }
      var entry := sc.match_(line);
      if entry.None? {
        return false;
      }
      buffer.AddEvent(entry.value.(timestamp := ts), now);
      return true;
    }

    /** Feeds the matching lines at the end of one file that are not before the cutoff. */
    method ScanFile(sc: Scanner, content: Bytes, cutoff: Time, now: Time) returns (count: nat)
      requires buffer.Valid()
      modifies buffer, buffer.entries
      ensures buffer.Valid()
      ensures var events := LineEvents(sc, ScanLines(content), cutoff, now);
              buffer.State() == Continue(buffer.Cfg(), old(buffer.State()), events) && count == |events|
      ensures forall q :: q in buffer.entries ==> q in old(buffer.entries) || fresh(q)
    {
      var readFrom := ReadFrom(|content|);
      var lines := Split(content[readFrom..]);
      if readFrom > 0 {
        lines := lines[1..];
      }
      count := ScanEach(sc, lines, cutoff, now);
    }

    method ScanEach(sc: Scanner, lines: seq<Bytes>, cutoff: Time, now: Time) returns (count: nat)
      requires buffer.Valid()
      modifies buffer, buffer.entries
      ensures buffer.Valid()
      ensures var events := LineEvents(sc, lines, cutoff, now);
              buffer.State() == Continue(buffer.Cfg(), old(buffer.State()), events) && count == |events|
      ensures forall q :: q in buffer.entries ==> q in old(buffer.entries) || fresh(q)
    {
      ghost var start := buffer.State();
      ghost var events := [];
      count := 0;
      for i := 0 to |lines|
        invariant buffer.Valid()
        invariant events == LineEvents(sc, lines[..i], cutoff, now) && count == |events|
        invariant buffer.State() == Continue(buffer.Cfg(), start, events)
        invariant forall q :: q in buffer.entries ==> q in old(buffer.entries) || fresh(q)
      {
        TakeOne(lines, i);
        assert forall j :: 0 <= j < |buffer.entries| ==> buffer.entries[j] in buffer.entries;
        var fed := ScanLine(sc, lines[i], cutoff, now);
        if fed {
          var t := Timed(Event(LineEvent(sc, lines[i], cutoff).value), now);
          ContinueSnoc(buffer.Cfg(), start, events, t);
          events := events + [t];
          count := count + 1;
        }
      }
      TakeAll(lines);
    }

    /** Scans the files one after the other. */
    method ScanFiles(files: seq<Source>, cutoff: Time, now: Time) returns (added: nat)
      requires buffer.Valid()
      modifies buffer, buffer.entries
      ensures buffer.Valid()
      ensures var events := FileEvents(files, cutoff, now);
              buffer.State() == Continue(buffer.Cfg(), old(buffer.State()), events) && added == |events|
      ensures forall q :: q in buffer.entries ==> q in old(buffer.entries) || fresh(q)
    {
      ghost var start := buffer.State();
      ghost var events := [];
      added := 0;
      for i := 0 to |files|
        invariant buffer.Valid()
        invariant events == FileEvents(files[..i], cutoff, now) && added == |events|
        invariant buffer.State() == Continue(buffer.Cfg(), start, events)
        invariant forall q :: q in buffer.entries ==> q in old(buffer.entries) || fresh(q)
      {
        TakeOne(files, i);
        ghost var more := LineEvents(files[i].sc, ScanLines(files[i].content), cutoff, now);
        ContinueConcat(buffer.Cfg(), start, events, more);
        assert forall j :: 0 <= j < |buffer.entries| ==> buffer.entries[j] in buffer.entries;
        var count := ScanFile(files[i].sc, files[i].content, cutoff, now);
        added := added + count;
        events := events + more;
      }
      TakeAll(files);
    }

    method ScanCutoff(now: Time) returns (cutoff: Time)
      requires buffer.Valid()
      ensures cutoff == CutoffFor(buffer.Contents, now)
      ensures now - 86_400_000_000_000 <= cutoff
      ensures forall i :: 0 <= i < |buffer.Contents| && buffer.Contents[i].lastSeen > ZERO_TIME ==>
                            buffer.Contents[i].lastSeen + 1_000_000_000 <= cutoff
      ensures cutoff == now - 86_400_000_000_000 ||
              exists i :: 0 <= i < |buffer.Contents| && buffer.Contents[i].lastSeen + 1_000_000_000 == cutoff
    {
      cutoff := now - DAY;
      var maxLoaded := buffer.MaxLastSeen();
      LatestSeenIs(buffer.Contents);
      assert maxLoaded == LatestSeen(buffer.Contents);
      if maxLoaded != ZERO_TIME {
        var advanced := maxLoaded + SECOND;
        if advanced > cutoff {
          cutoff := advanced;
        }
      }
    }

    /** Scans the files at start-up from a cutoff past everything already loaded, and saves if anything
        was added. */
    method ScanRecent(files: seq<Source>, now: Time)
      requires buffer.Valid()
      modifies buffer, buffer.entries, if store == null then {} else {store}
      ensures buffer.Valid()
      ensures var events := FileEvents(files, CutoffFor(old(buffer.Contents), now), now);
              buffer.State() == Continue(buffer.Cfg(), old(buffer.State()), events) &&
              (store != null ==>
                 store.files == if events == [] then old(store.files)
                                else Saved(old(store.files), store.machineId, buffer.Contents, DayOf(now)))
    {
      var cutoff := ScanCutoff(now);
      var added := ScanFiles(files, cutoff, now);
      if added > 0 {
        SaveLogs(now);
      }
    }

    /** Feeds one event, and saves after every tenth. */
    method Feed(e: LogEntry, now: Time)
      requires Valid()
      modifies this, buffer, buffer.entries, if store == null then {} else {store}
      ensures Valid()
      ensures State() == FeedOne(buffer.Cfg(), MachineId(), old(State()), e, now)
      ensures forall q :: q in buffer.entries ==> q in old(buffer.entries) || fresh(q)
    {
      hide Step, Saved, LogBuffer.Consistent;
      buffer.AddEvent(e, now);
      saveN := saveN + 1;
      if saveN >= 10 {
        saveN := 0;
        SaveLogs(now);
      }
    }

    /** A line from the tail, dated by its arrival. */
    method MatchLine(sc: Scanner, line: Bytes, now: Time)
      requires Valid()
      modifies this, buffer, buffer.entries, if store == null then {} else {store}
      ensures Valid()
      ensures State() == match sc.match_(line)
                         case None => old(State())
                         case Some(e) => FeedOne(buffer.Cfg(), MachineId(), old(State()), e.(timestamp := now), now)
      ensures forall q :: q in buffer.entries ==> q in old(buffer.entries) || fresh(q)
    {
      var entry := sc.match_(line);
      if entry.None? {
        return;
      }
      Feed(entry.value.(timestamp := now), now);
    }

    method RecordCheckResult(r: CheckResult, now: Time)
      requires Valid()
      modifies this, buffer, buffer.entries, if store == null then {} else {store}
      ensures Valid()
      ensures State() == match RecordOf(r, now)
                         case None => old(State())
                         case Some(e) => FeedOne(buffer.Cfg(), MachineId(), old(State()), e, now)
      ensures forall q :: q in buffer.entries ==> q in old(buffer.entries) || fresh(q)
    {
      if r.status != Warn && r.status != Critical {
        return;
      }
      var severity := "warn";
      if r.status == Critical {
        severity := "error";
      }
      var ts := r.checkedAt;
      if ts == ZERO_TIME {
        ts := now;
      }
      Feed(LogEntry(ts, ZERO_TIME, "check", severity, r.message, r.component, "", 0), now);
    }
  }

  /** The files left after the expired ones among the listed days are removed. */
  function Swept(files: map<int, LogFile>, listing: seq<int>, cutoff: int): map<int, LogFile> {
    if listing == [] then files
    else
      var rest, d := Swept(files, listing[..|listing| - 1], cutoff), listing[|listing| - 1];
      if d < cutoff then rest - {d} else rest
  }

  lemma {:induction false} SweptKeeps(files: map<int, LogFile>, listing: seq<int>, cutoff: int, d: int)
    ensures d in Swept(files, listing, cutoff) <==> d in files && (d in listing ==> cutoff <= d)
    ensures d in Swept(files, listing, cutoff) ==> Swept(files, listing, cutoff)[d] == files[d]
  {
    if listing != [] {
      var n := |listing| - 1;
      SweptKeeps(files, listing[..n], cutoff, d);
      assert d in listing <==> d in listing[..n] || d == listing[n];
    }
  }

  /** A day that is not swept yet is read as it was. */
  lemma OwnDaysOfSwept(files: map<int, LogFile>, machineId: string, listing: seq<int>, cutoff: int, d: int)
    requires d in files && d !in listing
    ensures d in Swept(files, listing, cutoff)
    ensures var days := OwnDays(files, machineId, cutoff);
            var rest := OwnDays(Swept(files, listing, cutoff), machineId, cutoff);
            (d in rest <==> d in days) && (d in days ==> rest[d] == days[d])
  {
    hide Swept;
    SweptKeeps(files, listing, cutoff, d);
  }

  lemma SweptAll(files: map<int, LogFile>, listing: seq<int>, cutoff: int)
    requires forall d :: d in listing <==> d in files
    ensures Swept(files, listing, cutoff) == Unexpired(files, cutoff)
  {
    forall d
      ensures d in Swept(files, listing, cutoff) <==> d in Unexpired(files, cutoff)
      ensures d in Swept(files, listing, cutoff) ==> Swept(files, listing, cutoff)[d] == files[d]
    {
      SweptKeeps(files, listing, cutoff, d);
    }
  }

  // ---- restarting from the saved days ----

  /** The own files hold well-formed lists of their day, all since the epoch. */
  ghost predicate FilesOk(files: map<int, LogFile>, machineId: string) {
    forall d :: d in files && IsOwn(files[d], machineId) ==>
                  WellFormed(files[d].entries) && InDay(files[d].entries, d) && Recent(files[d].entries, 0)
  }

  /** Saving keeps the directory fit for loading. */
  lemma SavedOk(files: map<int, LogFile>, machineId: string, s: seq<LogEntry>, today: int)
    requires FilesOk(files, machineId) && WellFormed(s) && Recent(s, 0)
    ensures FilesOk(Saved(files, machineId, s, today), machineId)
  {
    DayListOk(s, today);
    forall i | 0 <= i < |DayList(s, today)|
      ensures 0 <= DayList(s, today)[i].timestamp
    {
      InRangeTimes(s, DayStart(today), DayStart(today + 1), i);
    }
  }

  /** A restart reads back every saved day that has not expired, merging nothing, even when the days
      were saved from different states of the buffer. */
  lemma RestartReadsBack(files: map<int, LogFile>, machineId: string, listing: seq<int>, cutoff: int)
    requires FilesOk(files, machineId) && NoRepeats(listing)
    requires forall d :: d in listing <==> d in files
    ensures var days := OwnDays(files, machineId, cutoff);
            var s := LoadAll(EMPTY, Flatten(days, listing)).entries;
            WellFormed(s) && |s| == |Flatten(days, listing)| &&
            forall d :: d in days ==> DayList(s, d) == Normalised(days[d])
  {
    var days := OwnDays(files, machineId, cutoff);
    KeysApartSinceEpoch(days);
    ReloadReproducesDays(days, listing);
  }

  // ---- what a check result becomes ----

  /** A bad result becomes an event under its component, and no other becomes one: critical an error, warn a warning,
      with its message, at the time of the check, or of the recording if that is unknown. */
  lemma RecordIs(r: CheckResult, now: Time)
    ensures RecordOf(r, now).Some? <==> r.status == Warn || r.status == Critical
    ensures RecordOf(r, now).Some? ==>
              var e := RecordOf(r, now).value;
              && (e.severity == "error" <==> r.status == Critical) && (e.severity == "warn" <==> r.status == Warn)
              && e.title == r.component && e.source == "check" && e.line == r.message && e.mitigation == ""
              && e.timestamp == if r.checkedAt == ZERO_TIME then now else r.checkedAt
  {
    Names();
  }

  /** While no prune drops it, the buffer shows a result just recorded: an entry of its component, its bucket and
      source check, counting one more than before, and an error if the result is critical. */
  lemma RecordShows(s: seq<LogEntry>, r: CheckResult, now: Time) returns (i: nat)
    requires WellFormed(s) && RecordOf(r, now).Some?
    ensures var t := Fed(s, Event(RecordOf(r, now).value));
            && i < |t| && t[i].title == r.component && t[i].source == "check"
            && (r.status == Critical ==> t[i].severity == "error")
            && (r.status == Warn ==> t[i].severity == "warn" || t[i].severity == "error")
  {
    hide BucketStart, WellFormed;
    var e := RecordOf(r, now).value;
    RecordIs(r, now);
    RanksNamed(e.severity);
    if HasKey(s, KeyOf(e)) {
      HasKeyMeans(s, KeyOf(e));
      i :| 0 <= i < |s| && KeyOf(s[i]) == KeyOf(e);
      RanksNamed(s[i].severity);
      assert Merged(s, Event(e))[i] == MergeEvent(s[i], e);
    } else {
      i := InsertedAt(s, FreshEvent(e));
    }
  }

  lemma {:induction false} InsertedAt(s: seq<LogEntry>, x: LogEntry) returns (i: nat)
    ensures i < |Insert(s, x)| && Insert(s, x)[i] == x
  {
    if s == [] || s[|s| - 1].timestamp <= x.timestamp {
      i := |s|;
    } else {
      i := InsertedAt(s[..|s| - 1], x);
    }
  }
}
