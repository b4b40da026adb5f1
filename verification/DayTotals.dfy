/** Counting by day: what the buffer holds of a day, and what prunes dropped of it, add up to what was there
    before and what was fed. */
module DayTotals {
  import opened Clock
  import opened LogModel
  import opened Ledger
  import opened BufferRuns
  import opened ArrivalOrder
  import opened Reload
  import LogWatchers
  import opened DailySaves
  import opened SaveRuns
  import opened DayChanges
  import opened Sequences

  /** How much of what is fed counts for day d. */
  function WeightOn(ts: seq<Timed>, d: int): int {
    if ts == [] then 0
    else
      var n := |ts| - 1;
      WeightOn(ts[..n], d) + if DayOf(ts[n].op.e.timestamp) == d then Weight(ts[n].op) else 0
  }

  /** The counts of day d among the entries that one operation makes the buffer drop. */
  function StepLoss(cfg: Config, b: Buf, t: Timed, d: int): int {
    var s := Fed(b.entries, t.op);
    if Prunes(b, t.op) then Total(DayList(s[..DropCount(cfg, s, t.now)], d)) else 0
  }

  /** The counts of day d that prunes drop along a run. */
  function LossOf(cfg: Config, b: Buf, ts: seq<Timed>, d: int): int {
    if ts == [] then 0
    else
      var a, t := ts[..|ts| - 1], ts[|ts| - 1];
      LossOf(cfg, b, a, d) + StepLoss(cfg, Continue(cfg, b, a), t, d)
  }

  /** A prune takes from a day exactly the counts of its dropped entries. */
  lemma KeptTotal(cfg: Config, s: seq<LogEntry>, now: Time, d: int)
    requires WellFormed(s)
    ensures Total(DayList(Kept(cfg, s, now), d)) + Total(DayList(s[..DropCount(cfg, s, now)], d)) ==
              Total(DayList(s, d))
  {
    hide Kept, InRange, DropCount, Total;
    var c := DropCount(cfg, s, now);
    KeptIsSuffix(cfg, s, now, c);
    Halves(s, c);
    InRangeConcat(s[..c], s[c..], DayStart(d), DayStart(d + 1));
    TotalConcat(DayList(s[..c], d), DayList(s[c..], d));
  }

  lemma StepTotal(cfg: Config, b: Buf, t: Timed, d: int)
    requires WellFormed(b.entries) && AllSound(b.entries) && 0 <= t.op.e.timestamp
    ensures Total(DayList(Step(cfg, b, t.op, t.now).entries, d)) + StepLoss(cfg, b, t, d) ==
              Total(DayList(b.entries, d)) + if DayOf(t.op.e.timestamp) == d then Weight(t.op) else 0
  {
    hide WellFormed, AllSound, DayOf, DayList, Fed, Kept, OpKey, HasKey, Total, DropCount, Weight;
    var s := Fed(b.entries, t.op);
    FedDay(b.entries, t.op, d);
    FedWellFormed(b.entries, t.op);
    KeptTotal(cfg, s, t.now, d);
    DayListOk(b.entries, d);
    DistinctIfWellFormed(DayList(b.entries, d));
    FedTotal(DayList(b.entries, d), t.op);
  }

  /** Counts are conserved day by day, over every run. */
  lemma {:induction false} DayConservation(cfg: Config, b: Buf, ts: seq<Timed>, d: int)
    requires WellFormed(b.entries) && AllSound(b.entries) && Dated(ts)
    ensures Total(DayList(Continue(cfg, b, ts).entries, d)) + LossOf(cfg, b, ts, d) ==
              Total(DayList(b.entries, d)) + WeightOn(ts, d)
  {
    hide Step, WellFormed, AllSound, DayOf, DayList, StepLoss, Total, Weight;
    if ts != [] {
      var a, t := ts[..|ts| - 1], ts[|ts| - 1];
      DayConservation(cfg, b, a, d);
      ContinueSound(cfg, b, a);
      StepTotal(cfg, Continue(cfg, b, a), t, d);
    }
  }

  lemma StepLosesNothing(cfg: Config, b: Buf, t: Timed, d: int)
    requires WellFormed(b.entries) && !StepDrops(cfg, b, t, d)
    ensures StepLoss(cfg, b, t, d) == 0
  {
    hide WellFormed, DayList, Fed, Kept, Total, DropCount;
    FedWellFormed(b.entries, t.op);
    KeptTotal(cfg, Fed(b.entries, t.op), t.now, d);
  }

  /** Where no prune changes the day, nothing of it is lost. */
  lemma {:induction false} NothingLost(cfg: Config, b: Buf, ts: seq<Timed>, d: int)
    requires WellFormed(b.entries) && !DroppedOf(cfg, b, ts, d)
    ensures LossOf(cfg, b, ts, d) == 0
  {
    hide WellFormed, StepDrops, StepLoss, Continue;
    if ts != [] {
      var a, t := ts[..|ts| - 1], ts[|ts| - 1];
      NothingLost(cfg, b, a, d);
      ContinueWellFormed(cfg, b, a);
      StepLosesNothing(cfg, Continue(cfg, b, a), t, d);
    }
  }

  lemma {:induction false} WeightConcat(ts: seq<Timed>, ts': seq<Timed>, d: int)
    ensures WeightOn(ts + ts', d) == WeightOn(ts, d) + WeightOn(ts', d)
  {
    hide DayOf, Weight;
    if ts' == [] {
      assert ts + ts' == ts;
    } else {
      var a, t := ts'[..|ts'| - 1], ts'[|ts'| - 1];
      WeightConcat(ts, a, d);
      Regroup(ts, a, t);
      assert ts' == a + [t];
      Snoc(ts + a, t);
    }
  }

  // ---- across restarts ----

  lemma {:induction false} NormalisedTotal(s: seq<LogEntry>)
    ensures |s| <= Total(Normalised(s))
  {
    if s != [] {
      NormalisedTotal(s[..|s| - 1]);
      TotalSnoc(Normalised(s[..|s| - 1]), Normalise(s[|s| - 1]));
    }
  }

  /** What day d counts for after a restart: what its own file says, unless it has expired. */
  function FileTotal(files: map<int, LogWatchers.LogFile>, machineId: string, d: int, cutoff: int): int {
    if cutoff <= d then Total(Normalised(Own(files, machineId, d))) else 0
  }

  /** The file of a day counts for nothing exactly when it has expired, or is absent or empty. */
  lemma FileCounts(files: map<int, LogWatchers.LogFile>, machineId: string, d: int, cutoff: int)
    ensures FileTotal(files, machineId, d, cutoff) == 0 <==> d < cutoff || Own(files, machineId, d) == []
  {
    hide Own, Normalised;
    NormalisedTotal(Own(files, machineId, d));
    NothingNormalised();
    TotalNone();
  }

  lemma TotalOfRestart(cfg: Config, machineId: string, h: LogHost, listing: seq<int>, now: Time, d: int)
    requires HostOk(h, machineId) && LegalOp(h, Restart(listing, now))
    ensures Total(DayList(LogStep(cfg, machineId, h, Restart(listing, now)).buf.entries, d)) ==
              FileTotal(h.files, machineId, d, DayOf(now) - LogWatchers.LOG_RETENTION_DAYS)
  {
    hide HostOk, LegalOp, LogStep, DayList, Own, Normalised, DayOf;
    RestartOf(cfg, machineId, h, listing, now, d);
    TotalNone();
  }

  /** Over every run, since a restart at operation j: what day d counts for, and what was dropped of it, is what
      its file said at the restart and everything fed of it since. */
  lemma TotalsSinceRestart(cfg: Config, machineId: string, h: LogHost, ops: seq<LogOp>, j: nat, d: int)
    requires HostOk(h, machineId) && Legal(cfg, machineId, h, ops)
    requires 0 < j <= |ops| && ops[j - 1].Restart? && NoRestartFrom(ops, j)
    ensures var cutoff := DayOf(ops[j - 1].now) - LogWatchers.LOG_RETENTION_DAYS;
            var rebuilt, feeds := LogRun(cfg, machineId, h, ops[..j]).buf, FeedsFrom(ops, j);
            Total(DayList(LogRun(cfg, machineId, h, ops).buf.entries, d)) + LossOf(cfg, rebuilt, feeds, d) ==
              FileTotal(LogRun(cfg, machineId, h, ops[..j - 1]).files, machineId, d, cutoff) + WeightOn(feeds, d)
  {
    hide HostOk, LegalOp, DayList, FeedsFrom, NoRestartFrom, LossOf, WeightOn, Total, FileTotal, Continue,
      LogRun, DayOf;
    var a := ops[..j - 1];
    LegalPart(cfg, machineId, h, ops, j);
    LegalPart(cfg, machineId, h, ops, j - 1);
    RunOk(cfg, machineId, h, a);
    RunOk(cfg, machineId, h, ops[..j]);
    LastStep(cfg, machineId, h, ops[..j]);
    assert ops[..j][..j - 1] == a;
    TotalOfRestart(cfg, machineId, LogRun(cfg, machineId, h, a), ops[j - 1].listing, ops[j - 1].now, d);
    BufferFollowsFeeds(cfg, machineId, h, ops, j);
    HostSound(LogRun(cfg, machineId, h, ops[..j]), machineId);
    DayConservation(cfg, LogRun(cfg, machineId, h, ops[..j]).buf, FeedsFrom(ops, j), d);
  }

  lemma LastStep(cfg: Config, machineId: string, h: LogHost, ops: seq<LogOp>)
    requires ops != [] && Legal(cfg, machineId, h, ops)
    ensures var before, op := LogRun(cfg, machineId, h, ops[..|ops| - 1]), ops[|ops| - 1];
            LogRun(cfg, machineId, h, ops) == LogStep(cfg, machineId, before, op) && LegalOp(before, op)
  {
  }

  /** Over every run, a saved day comes back from a restart with the counts it had just before exactly when, since
      the buffer was last rebuilt, as much of it was fed as was dropped. */
  lemma CountsComeBackExactly(cfg: Config, machineId: string, h: LogHost, ops: seq<LogOp>, k: nat, j: nat, d: int,
                              listing: seq<int>, now: Time)
    requires SavedDay(cfg, machineId, h, ops, k, j, d, listing, now)
    ensures var before := LogRun(cfg, machineId, h, ops).buf.entries;
            var after := LogRun(cfg, machineId, h, ops + [Restart(listing, now)]).buf.entries;
            Total(DayList(after, d)) == Total(DayList(before, d)) <==>
            WeightOn(FeedsFrom(ops, j), d) == LossOf(cfg, LogRun(cfg, machineId, h, ops[..j]).buf, FeedsFrom(ops, j), d)
  {
    hide DayList, HostOk, LegalOp, Touches, Untouched, Continue, FeedsFrom, NoRestartFrom, LogRun, LossOf, WeightOn,
      Total;
    ComesBackExactly(cfg, machineId, h, ops, k, j, d, listing, now);
    Snoc(ops, Restart(listing, now));
    BufferFollowsFeeds(cfg, machineId, h, ops, j);
    RebuiltAsSaved(cfg, machineId, h, ops, k, j, d);
    LegalPart(cfg, machineId, h, ops, j);
    RunOk(cfg, machineId, h, ops[..j]);
    HostSound(LogRun(cfg, machineId, h, ops[..j]), machineId);
    DayConservation(cfg, LogRun(cfg, machineId, h, ops[..j]).buf, FeedsFrom(ops, j), d);
  }
}
