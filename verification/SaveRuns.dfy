/** Any run of feeding, saving and restarting: the file of a day is that day as last saved, and a restart
    brings back exactly that. */
module SaveRuns {
  import opened Clock
  import opened LogModel
  import opened Ledger
  import opened ArrivalOrder
  import opened Reload
  import opened LogWatchers
  import opened DailySaves
  import opened Sequences

  /** The buffer and the directory. */
  datatype LogHost = LogHost(buf: Buf, files: map<int, LogFile>)

  datatype LogOp =
    | Feed(op: Op, now: Time)
    | Save(now: Time)
    | Restart(listing: seq<int>, now: Time)

  function LogStep(cfg: Config, machineId: string, h: LogHost, op: LogOp): LogHost {
    match op
    case Feed(o, now) => h.(buf := Step(cfg, h.buf, o, now))
    case Save(now) => h.(files := Saved(h.files, machineId, h.buf.entries, DayOf(now)))
    case Restart(listing, now) =>
      var cutoff := DayOf(now) - LOG_RETENTION_DAYS;
      LogHost(LoadAll(EMPTY, Flatten(OwnDays(h.files, machineId, cutoff), listing)), Unexpired(h.files, cutoff))
  }

  function LogRun(cfg: Config, machineId: string, h: LogHost, ops: seq<LogOp>): LogHost {
    if ops == [] then h
    else LogStep(cfg, machineId, LogRun(cfg, machineId, h, ops[..|ops| - 1]), ops[|ops| - 1])
  }

  /** What is fed is dated since the epoch, and a restart lists the files that are there, each once. */
  ghost predicate LegalOp(h: LogHost, op: LogOp) {
    match op
    case Feed(o, _) => 0 <= o.e.timestamp
    case Save(_) => true
    case Restart(listing, _) => NoRepeats(listing) && forall d :: d in listing <==> d in h.files
  }

  ghost predicate Legal(cfg: Config, machineId: string, h: LogHost, ops: seq<LogOp>) {
    ops == [] ||
    (var n := |ops| - 1;
     Legal(cfg, machineId, h, ops[..n]) && LegalOp(LogRun(cfg, machineId, h, ops[..n]), ops[n]))
  }

  /** An entry as the buffer keeps it: counted, dated since the epoch, and with a last sighting. */
  predicate Sound(e: LogEntry) {
    1 <= e.count && 0 <= e.timestamp && e.lastSeen != ZERO_TIME
  }

  predicate AllSound(s: seq<LogEntry>) {
    s == [] || (AllSound(s[..|s| - 1]) && Sound(s[|s| - 1]))
  }

  ghost predicate HostOk(h: LogHost, machineId: string) {
    WellFormed(h.buf.entries) && AllSound(h.buf.entries) && FilesOk(h.files, machineId)
  }

  // ---- every reachable host is sound ----

  lemma {:induction false} AllSoundMeans(s: seq<LogEntry>)
    ensures AllSound(s) <==> forall i :: 0 <= i < |s| ==> Sound(s[i])
  {
    if s != [] {
      var a := s[..|s| - 1];
      AllSoundMeans(a);
      assert forall i :: 0 <= i < |a| ==> a[i] == s[i];
    }
  }

  lemma {:induction false} InsertSound(s: seq<LogEntry>, x: LogEntry)
    requires AllSound(s) && Sound(x)
    ensures AllSound(Insert(s, x))
  {
    Snoc(s, x);
    if s != [] && x.timestamp < s[|s| - 1].timestamp {
      InsertSound(s[..|s| - 1], x);
      Snoc(Insert(s[..|s| - 1], x), s[|s| - 1]);
    }
  }

  lemma {:induction false} MergedSound(s: seq<LogEntry>, op: Op)
    requires AllSound(s) && 0 <= op.e.timestamp
    ensures AllSound(Merged(s, op))
  {
    hide KeyOf;
    if s != [] {
      MergedSound(s[..|s| - 1], op);
      MergedLast(s, op);
    }
  }

  lemma {:induction false} PartSound(s: seq<LogEntry>, d: nat)
    requires AllSound(s) && d <= |s|
    ensures AllSound(s[d..])
  {
    AllSoundMeans(s);
    AllSoundMeans(s[d..]);
  }

  lemma StepSound(cfg: Config, b: Buf, op: Op, now: Time)
    requires WellFormed(b.entries) && AllSound(b.entries) && 0 <= op.e.timestamp
    ensures WellFormed(Step(cfg, b, op, now).entries) && AllSound(Step(cfg, b, op, now).entries)
  {
    hide WellFormed, Kept, HasKey, KeyOf;
    StepWellFormed(cfg, b, op, now);
    var s := Fed(b.entries, op);
    if HasKey(b.entries, OpKey(op)) {
      MergedSound(b.entries, op);
    } else {
      InsertSound(b.entries, First(op));
    }
    FedWellFormed(b.entries, op);
    SortedIfWellFormed(s);
    KeptIsSuffix(cfg, s, now, DropCount(cfg, s, now));
    PartSound(s, DropCount(cfg, s, now));
  }

  lemma SortedIfWellFormed(s: seq<LogEntry>)
    requires WellFormed(s)
    ensures Sorted(s)
  {
  }

  lemma SoundSince(s: seq<LogEntry>)
    requires AllSound(s)
    ensures Recent(s, 0) && forall i :: 0 <= i < |s| ==> Canonical(s[i])
  {
    AllSoundMeans(s);
  }

  lemma RestartSound(files: map<int, LogFile>, machineId: string, cutoff: int, listing: seq<int>)
    requires FilesOk(files, machineId) && NoRepeats(listing) && forall d :: d in files ==> d in listing
    ensures var r := Restarted(files, machineId, cutoff, listing); WellFormed(r) && AllSound(r)
  {
    hide WellFormed, Restarted, Loadable, DayList;
    LoadableSinceEpoch(files, machineId, cutoff, listing);
    RestartDays(files, machineId, cutoff, listing);
    var r := Restarted(files, machineId, cutoff, listing);
    forall i | 0 <= i < |r|
      ensures Sound(r[i])
    {
      var d := DayOf(r[i].timestamp);
      var j := InItsDay(r, i);
      NormalisedAt(Own(files, machineId, d), j);
    }
    AllSoundMeans(r);
  }

  lemma StepOk(cfg: Config, machineId: string, h: LogHost, op: LogOp)
    requires HostOk(h, machineId) && LegalOp(h, op)
    ensures HostOk(LogStep(cfg, machineId, h, op), machineId)
  {
    hide WellFormed, AllSound, Step, Saved, LoadAll;
    match op
    case Feed(o, now) => StepSound(cfg, h.buf, o, now);
    case Save(now) =>
      SoundSince(h.buf.entries);
      SavedOk(h.files, machineId, h.buf.entries, DayOf(now));
    case Restart(listing, now) => RestartSound(h.files, machineId, DayOf(now) - LOG_RETENTION_DAYS, listing);
  }

  lemma {:induction false} RunOk(cfg: Config, machineId: string, h: LogHost, ops: seq<LogOp>)
    requires HostOk(h, machineId) && Legal(cfg, machineId, h, ops)
    ensures HostOk(LogRun(cfg, machineId, h, ops), machineId)
  {
    hide LogStep, HostOk, LegalOp;
    if ops != [] {
      var n := |ops| - 1;
      RunOk(cfg, machineId, h, ops[..n]);
      StepOk(cfg, machineId, LogRun(cfg, machineId, h, ops[..n]), ops[n]);
    }
  }

  // ---- every host's buffer is the outcome of a run ----

  /** The entries read back, as operations. */
  function Loads(es: seq<LogEntry>, now: Time): seq<Timed> {
    if es == [] then [] else Loads(es[..|es| - 1], now) + [Timed(Bulk(es[|es| - 1]), now)]
  }

  lemma RunOn(cfg: Config, ts: seq<Timed>, t: Timed)
    ensures Run(cfg, ts + [t]).buf == Step(cfg, Run(cfg, ts).buf, t.op, t.now)
  {
    hide Step;
    Snoc(ts, t);
  }

  /** Reading entries back is a run of its own. */
  lemma {:induction false} LoadsAreRun(cfg: Config, es: seq<LogEntry>, now: Time)
    ensures LoadAll(EMPTY, es) == Run(cfg, Loads(es, now)).buf
  {
    hide Load, Step, Advance;
    if es == [] {
      NothingRun(cfg);
    } else {
      var a, e := es[..|es| - 1], es[|es| - 1];
      LoadsAreRun(cfg, a, now);
      LoadIsStep(cfg, LoadAll(EMPTY, a), e, now);
      RunOn(cfg, Loads(a, now), Timed(Bulk(e), now));
    }
  }

  lemma NothingRun(cfg: Config)
    ensures Run(cfg, []).buf == EMPTY
  {
  }

  /** Over every run of feeds, saves and restarts the buffer is what some run of events and loads makes of the empty
      one, so all that holds of such runs holds of every host. */
  lemma {:induction false} HostIsRun(cfg: Config, machineId: string, h: LogHost, ops: seq<LogOp>)
    returns (ts: seq<Timed>)
    requires h.buf == EMPTY
    ensures LogRun(cfg, machineId, h, ops).buf == Run(cfg, ts).buf
  {
    hide Step, Advance, LoadAll, Saved, Flatten;
    if ops == [] {
      ts := [];
      NothingRun(cfg);
    } else {
      var before := HostIsRun(cfg, machineId, h, ops[..|ops| - 1]);
      match ops[|ops| - 1]
      case Feed(op, now) =>
        ts := before + [Timed(op, now)];
        RunOn(cfg, before, Timed(op, now));
      case Save(_) =>
        ts := before;
      case Restart(listing, now) =>
        var files := LogRun(cfg, machineId, h, ops[..|ops| - 1]).files;
        var es := Flatten(OwnDays(files, machineId, DayOf(now) - LOG_RETENTION_DAYS), listing);
        ts := Loads(es, now);
        LoadsAreRun(cfg, es, now);
    }
  }

  // ---- the file of a day is that day as last saved ----

  /** Operation op writes or removes the own file of day d. */
  predicate Touches(h: LogHost, op: LogOp, d: int) {
    match op
    case Feed(_, _) => false
    case Save(now) => DayOf(now) == d && DayList(h.buf.entries, d) != []
    case Restart(_, now) => d < DayOf(now) - LOG_RETENTION_DAYS
  }

  /** Nothing from operation k on touches the file of day d. */
  predicate Untouched(cfg: Config, machineId: string, h: LogHost, ops: seq<LogOp>, k: nat, d: int)
    requires k <= |ops|
  {
    |ops| == k ||
    (var n := |ops| - 1;
     Untouched(cfg, machineId, h, ops[..n], k, d) && !Touches(LogRun(cfg, machineId, h, ops[..n]), ops[n], d))
  }

  lemma {:induction false} FileStays(cfg: Config, machineId: string, h: LogHost, ops: seq<LogOp>, k: nat, d: int)
    requires k <= |ops| && Untouched(cfg, machineId, h, ops, k, d)
    ensures Own(LogRun(cfg, machineId, h, ops).files, machineId, d) ==
              Own(LogRun(cfg, machineId, h, ops[..k]).files, machineId, d)
    decreases |ops|
  {
    hide Step, DayList, LoadAll;
    if |ops| == k {
      assert ops[..k] == ops;
    } else {
      var n := |ops| - 1;
      FileStays(cfg, machineId, h, ops[..n], k, d);
      assert ops[..n][..k] == ops[..k];
    }
  }

  /** Over every run the own file of a day holds that day of the buffer as it was at the last save made
      on the day with something of it to save, until a restart removes it as expired. */
  lemma FileIsLastSave(cfg: Config, machineId: string, h: LogHost, ops: seq<LogOp>, k: nat, d: int)
    requires 0 < k <= |ops| && ops[k - 1].Save? && Touches(LogRun(cfg, machineId, h, ops[..k - 1]), ops[k - 1], d)
    requires Untouched(cfg, machineId, h, ops, k, d)
    ensures Own(LogRun(cfg, machineId, h, ops).files, machineId, d) ==
              DayList(LogRun(cfg, machineId, h, ops[..k - 1]).buf.entries, d)
  {
    hide Step, DayList, LoadAll;
    FileStays(cfg, machineId, h, ops, k, d);
    assert ops[..k][..k - 1] == ops[..k - 1];
  }

  // ---- what comes back ----

  /** Over every run, a restart brings back of each unexpired day exactly what the last save of that day
      stored; so the day comes back as it was if and only if it has not changed since. */
  lemma RestartBringsBackLastSave(cfg: Config, machineId: string, h: LogHost, ops: seq<LogOp>, k: nat, d: int,
                                  listing: seq<int>, now: Time)
    requires HostOk(h, machineId) && Legal(cfg, machineId, h, ops + [Restart(listing, now)])
    requires 0 < k <= |ops| && ops[k - 1].Save? && Touches(LogRun(cfg, machineId, h, ops[..k - 1]), ops[k - 1], d)
    requires Untouched(cfg, machineId, h, ops, k, d) && DayOf(now) - LOG_RETENTION_DAYS <= d
    ensures DayList(LogRun(cfg, machineId, h, ops + [Restart(listing, now)]).buf.entries, d) ==
              DayList(LogRun(cfg, machineId, h, ops[..k - 1]).buf.entries, d)
  {
    hide DayList, HostOk, LegalOp, Touches, Untouched, Loadable, Normalised, LogStep, Own;
    var before := LogRun(cfg, machineId, h, ops);
    Snoc(ops, Restart(listing, now));
    FileIsLastSave(cfg, machineId, h, ops, k, d);
    RunOk(cfg, machineId, h, ops);
    RestartOf(cfg, machineId, before, listing, now, d);
    LegalPart(cfg, machineId, h, ops, k - 1);
    RunOk(cfg, machineId, h, ops[..k - 1]);
    SavedDayCanonical(LogRun(cfg, machineId, h, ops[..k - 1]), machineId, d);
  }

  /** A day that was never saved never comes back. */
  lemma NeverSavedNeverBack(cfg: Config, machineId: string, h: LogHost, ops: seq<LogOp>, d: int, listing: seq<int>,
                            now: Time)
    requires HostOk(h, machineId) && Legal(cfg, machineId, h, ops + [Restart(listing, now)])
    requires Own(h.files, machineId, d) == [] && Untouched(cfg, machineId, h, ops, 0, d)
    ensures DayList(LogRun(cfg, machineId, h, ops + [Restart(listing, now)]).buf.entries, d) == []
  {
    hide DayList, HostOk, LegalOp, Untouched, Normalised, LogStep, Own;
    Snoc(ops, Restart(listing, now));
    FileStays(cfg, machineId, h, ops, 0, d);
    RunNothing(cfg, machineId, h, ops);
    RunOk(cfg, machineId, h, ops);
    RestartOf(cfg, machineId, LogRun(cfg, machineId, h, ops), listing, now, d);
    NothingNormalised();
  }

  lemma RunNothing(cfg: Config, machineId: string, h: LogHost, ops: seq<LogOp>)
    ensures LogRun(cfg, machineId, h, ops[..0]) == h
  {
  }

  lemma {:induction false} LegalPart(cfg: Config, machineId: string, h: LogHost, ops: seq<LogOp>, k: nat)
    requires k <= |ops| && Legal(cfg, machineId, h, ops)
    ensures Legal(cfg, machineId, h, ops[..k])
    decreases |ops|
  {
    hide LegalOp, LogRun;
    if k == |ops| {
      assert ops[..k] == ops;
    } else {
      var n := |ops| - 1;
      LegalPart(cfg, machineId, h, ops[..n], k);
      assert ops[..n][..k] == ops[..k];
    }
  }

  lemma SavedDayCanonical(h: LogHost, machineId: string, d: int)
    requires HostOk(h, machineId)
    ensures Normalised(DayList(h.buf.entries, d)) == DayList(h.buf.entries, d)
  {
    SoundSince(h.buf.entries);
    DayOfCanonical(h.buf.entries, d);
  }

  lemma RestartOf(cfg: Config, machineId: string, h: LogHost, listing: seq<int>, now: Time, d: int)
    requires HostOk(h, machineId) && LegalOp(h, Restart(listing, now))
    ensures DayList(LogStep(cfg, machineId, h, Restart(listing, now)).buf.entries, d) ==
              if DayOf(now) - LOG_RETENTION_DAYS <= d then Normalised(Own(h.files, machineId, d)) else []
  {
    hide DayList, WellFormed, AllSound, Loadable;
    var cutoff := DayOf(now) - LOG_RETENTION_DAYS;
    LoadableSinceEpoch(h.files, machineId, cutoff, listing);
    RestartDays(h.files, machineId, cutoff, listing);
  }
}
