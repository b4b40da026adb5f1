/** How one day of the buffer changes while operations are fed: by what is fed of it, and by what prunes
    drop of it. */
module DayChanges {
  import opened Clock
  import opened LogModel
  import opened Ledger
  import opened StableSort
  import opened BufferRuns
  import opened ArrivalOrder
  import opened Reload
  import DailySaves
  import LogWatchers
  import opened SaveRuns
  import opened Sequences

  // ---- one day of what is fed ----

  lemma {:induction false} InRangeEndsBy(s: seq<LogEntry>, lo: Time, hi: Time, x: Time)
    requires Sorted(s) && EndsBy(s, x)
    ensures EndsBy(InRange(s, lo, hi), x)
  {
    if s != [] {
      InRangeEndsBy(s[..|s| - 1], lo, hi, x);
    }
  }

  lemma {:induction false} InsertInRange(s: seq<LogEntry>, x: LogEntry, lo: Time, hi: Time)
    requires Sorted(s)
    ensures InRange(Insert(s, x), lo, hi) ==
              if lo <= x.timestamp < hi then Insert(InRange(s, lo, hi), x) else InRange(s, lo, hi)
  {
    Snoc(s, x);
    if s == [] || s[|s| - 1].timestamp <= x.timestamp {
      InRangeEndsBy(s, lo, hi, x.timestamp);
      InsertAtEnd(InRange(s, lo, hi), x);
    } else {
      var a, y := s[..|s| - 1], s[|s| - 1];
      InsertInRange(a, x, lo, hi);
      Snoc(Insert(a, x), y);
      InsertSnoc(InRange(a, lo, hi), y, x);
    }
  }

  lemma {:induction false} MergedInRange(s: seq<LogEntry>, op: Op, lo: Time, hi: Time)
    ensures InRange(Merged(s, op), lo, hi) == Merged(InRange(s, lo, hi), op)
  {
    hide KeyOf, Merge, Merged;
    MergedEmpty(op);
    if s != [] {
      var a, x := s[..|s| - 1], s[|s| - 1];
      MergedInRange(a, op, lo, hi);
      MergedLast(s, op);
      MergeKeeps(x, op);
      MergedSnoc(InRange(a, lo, hi), x, op);
    }
  }

  lemma MergedEmpty(op: Op)
    ensures Merged([], op) == []
  {
  }

  lemma MergedElsewhere(s: seq<LogEntry>, op: Op)
    requires !HasKey(s, OpKey(op))
    ensures Merged(s, op) == s
  {
    HasKeyMeans(s, OpKey(op));
  }

  /** Since the epoch the day of an operation is the day of the entry that holds its key. */
  lemma KeyHasOneDay(s: seq<LogEntry>, op: Op, d: int)
    requires AllSound(s) && 0 <= op.e.timestamp
    ensures HasKey(DayList(s, d), OpKey(op)) <==> HasKey(s, OpKey(op)) && DayOf(op.e.timestamp) == d
  {
    hide DayOf, BucketStart, DayList;
    var l, k := DayList(s, d), OpKey(op);
    AllSoundMeans(s);
    HasKeyMeans(s, k);
    HasKeyMeans(l, k);
    if HasKey(l, k) {
      var e := KeyedEntry(s, d, k);
      SameDay(e, op.e);
    }
    if HasKey(s, k) && DayOf(op.e.timestamp) == d {
      var i :| 0 <= i < |s| && KeyOf(s[i]) == k;
      SameDay(s[i], op.e);
      var j := DailySaves.InItsDay(s, i);
    }
  }

  lemma SameDay(e: LogEntry, f: LogEntry)
    requires 0 <= e.timestamp && 0 <= f.timestamp && KeyOf(e) == KeyOf(f)
    ensures DayOf(e.timestamp) == DayOf(f.timestamp)
  {
    SameBucketSpansDays(Min(e.timestamp, f.timestamp), Max(e.timestamp, f.timestamp));
  }

  /** What is fed changes its own day alone, as if the buffer held nothing else. */
  lemma FedDay(s: seq<LogEntry>, op: Op, d: int)
    requires WellFormed(s) && AllSound(s) && 0 <= op.e.timestamp
    ensures DayList(Fed(s, op), d) == if DayOf(op.e.timestamp) == d then Fed(DayList(s, d), op) else DayList(s, d)
  {
    hide KeyOf, AllSound, Insert, Merged, HasKey, DayOf;
    var k := OpKey(op);
    KeyHasOneDay(s, op, d);
    DayBounds(op.e.timestamp, d);
    FirstTime(op);
    if HasKey(s, k) {
      MergedInRange(s, op, DayStart(d), DayStart(d + 1));
      if DayOf(op.e.timestamp) != d {
        MergedElsewhere(DayList(s, d), op);
      }
    } else {
      InsertInRange(s, First(op), DayStart(d), DayStart(d + 1));
    }
  }

  lemma FirstTime(op: Op)
    ensures First(op).timestamp == op.e.timestamp
  {
  }

  // ---- one day of what is dropped ----

  lemma InRangeLast(s: seq<LogEntry>, x: LogEntry, lo: Time, hi: Time)
    ensures InRange(s + [x], lo, hi) == if lo <= x.timestamp < hi then InRange(s, lo, hi) + [x] else InRange(s, lo, hi)
  {
    Snoc(s, x);
  }

  lemma InRangeNothing(lo: Time, hi: Time)
    ensures InRange([], lo, hi) == []
  {
  }

  lemma {:induction false} InRangeConcat(a: seq<LogEntry>, b: seq<LogEntry>, lo: Time, hi: Time)
    ensures InRange(a + b, lo, hi) == InRange(a, lo, hi) + InRange(b, lo, hi)
  {
    hide InRange;
    if b == [] {
      InRangeNothing(lo, hi);
      assert a + b == a;
    } else {
      var c, x := b[..|b| - 1], b[|b| - 1];
      InRangeConcat(a, c, lo, hi);
      assert b == c + [x];
      Regroup(a, c, x);
      InRangeLast(a + c, x, lo, hi);
      InRangeLast(c, x, lo, hi);
      Regroup(InRange(a, lo, hi), InRange(c, lo, hi), x);
    }
  }

  /** A prune that changes a day shortens it. */
  lemma KeptDay(cfg: Config, s: seq<LogEntry>, now: Time, d: int)
    requires WellFormed(s)
    ensures var l := DayList(Kept(cfg, s, now), d); l == DayList(s, d) || |l| < |DayList(s, d)|
  {
    hide Kept, InRange, DropCount;
    var c := DropCount(cfg, s, now);
    KeptIsSuffix(cfg, s, now, c);
    Halves(s, c);
    InRangeConcat(s[..c], s[c..], DayStart(d), DayStart(d + 1));
    if DayList(s[..c], d) == [] {
      Nothing(DayList(s[c..], d));
    }
  }

  lemma Halves<T>(s: seq<T>, c: nat)
    requires c <= |s|
    ensures s[..c] + s[c..] == s
  {
  }

  lemma Nothing<T>(s: seq<T>)
    ensures [] + s == s
  {
  }

  // ---- a run ----

  predicate Dated(ts: seq<Timed>) {
    ts == [] || (Dated(ts[..|ts| - 1]) && 0 <= ts[|ts| - 1].op.e.timestamp)
  }

  /** Something of day d is fed. */
  predicate FedOn(ts: seq<Timed>, d: int) {
    ts != [] && (FedOn(ts[..|ts| - 1], d) || DayOf(ts[|ts| - 1].op.e.timestamp) == d)
  }

  /** A prune drops something of day d. */
  predicate DroppedOf(cfg: Config, b: Buf, ts: seq<Timed>, d: int) {
    ts != [] &&
    (var a, t := ts[..|ts| - 1], ts[|ts| - 1];
     DroppedOf(cfg, b, a, d) || StepDrops(cfg, Continue(cfg, b, a), t, d))
  }

  predicate StepDrops(cfg: Config, b: Buf, t: Timed, d: int) {
    var s := Fed(b.entries, t.op);
    Prunes(b, t.op) && DayList(Kept(cfg, s, t.now), d) != DayList(s, d)
  }

  lemma DayStep(cfg: Config, b: Buf, t: Timed, d: int)
    requires WellFormed(b.entries) && AllSound(b.entries) && 0 <= t.op.e.timestamp
    ensures var l, l' := DayList(b.entries, d), DayList(Step(cfg, b, t.op, t.now).entries, d);
            && (DayOf(t.op.e.timestamp) != d && !StepDrops(cfg, b, t, d) ==> l' == l)
            && (DayOf(t.op.e.timestamp) == d && !StepDrops(cfg, b, t, d) ==> Total(l) < Total(l'))
            && (DayOf(t.op.e.timestamp) != d && StepDrops(cfg, b, t, d) ==> |l'| < |l|)
  {
    hide WellFormed, AllSound, DayOf, DayList, Fed, Kept, OpKey, HasKey, Total;
    var s := Fed(b.entries, t.op);
    FedDay(b.entries, t.op, d);
    FedWellFormed(b.entries, t.op);
    KeptDay(cfg, s, t.now, d);
    DayListOk(b.entries, d);
    DistinctIfWellFormed(DayList(b.entries, d));
    FedTotal(DayList(b.entries, d), t.op);
  }

  lemma DistinctIfWellFormed(s: seq<LogEntry>)
    requires WellFormed(s)
    ensures DistinctKeys(s)
  {
  }

  lemma {:induction false} ContinueSound(cfg: Config, b: Buf, ts: seq<Timed>)
    requires WellFormed(b.entries) && AllSound(b.entries) && Dated(ts)
    ensures WellFormed(Continue(cfg, b, ts).entries) && AllSound(Continue(cfg, b, ts).entries)
  {
    hide Step, WellFormed, AllSound;
    if ts != [] {
      var a, t := ts[..|ts| - 1], ts[|ts| - 1];
      ContinueSound(cfg, b, a);
      StepSound(cfg, Continue(cfg, b, a), t.op, t.now);
    }
  }

  lemma {:induction false} DayGrows(cfg: Config, b: Buf, ts: seq<Timed>, d: int)
    requires WellFormed(b.entries) && AllSound(b.entries) && Dated(ts)
    ensures var l, l' := DayList(b.entries, d), DayList(Continue(cfg, b, ts).entries, d);
            && (!FedOn(ts, d) && !DroppedOf(cfg, b, ts, d) ==> l' == l)
            && (FedOn(ts, d) && !DroppedOf(cfg, b, ts, d) ==> Total(l) < Total(l'))
            && (!FedOn(ts, d) && DroppedOf(cfg, b, ts, d) ==> |l'| < |l|)
  {
    hide Step, WellFormed, AllSound, DayOf, DayList, StepDrops, Total;
    if ts != [] {
      var a, t := ts[..|ts| - 1], ts[|ts| - 1];
      DayGrows(cfg, b, a, d);
      ContinueSound(cfg, b, a);
      DayStep(cfg, Continue(cfg, b, a), t, d);
    }
  }

  /** A day is as it was exactly when nothing of it was fed and nothing of it was dropped, unless both
      happened, in which case the two may cancel out. */
  lemma DayUnchangedExactly(cfg: Config, b: Buf, ts: seq<Timed>, d: int)
    requires WellFormed(b.entries) && AllSound(b.entries) && Dated(ts)
    requires !(FedOn(ts, d) && DroppedOf(cfg, b, ts, d))
    ensures DayList(Continue(cfg, b, ts).entries, d) == DayList(b.entries, d) <==>
            !FedOn(ts, d) && !DroppedOf(cfg, b, ts, d)
  {
    hide Continue, WellFormed, AllSound, DayList, FedOn, DroppedOf, Dated;
    DayGrows(cfg, b, ts, d);
  }

  // ---- since the last save ----

  /** What is fed from operation k on. */
  function FeedsFrom(ops: seq<LogOp>, k: nat): seq<Timed> {
    if |ops| <= k then []
    else
      var n := |ops| - 1;
      match ops[n]
      case Feed(op, now) => FeedsFrom(ops[..n], k) + [Timed(op, now)]
      case _ => FeedsFrom(ops[..n], k)
  }

  predicate NoRestartFrom(ops: seq<LogOp>, k: nat) {
    |ops| <= k || (NoRestartFrom(ops[..|ops| - 1], k) && !ops[|ops| - 1].Restart?)
  }

  /** Without a restart the buffer is what the feeds make of it. */
  lemma {:induction false} BufferFollowsFeeds(cfg: Config, machineId: string, h: LogHost, ops: seq<LogOp>, k: nat)
    requires k <= |ops| && NoRestartFrom(ops, k) && Legal(cfg, machineId, h, ops)
    ensures LogRun(cfg, machineId, h, ops).buf ==
              Continue(cfg, LogRun(cfg, machineId, h, ops[..k]).buf, FeedsFrom(ops, k))
    ensures Dated(FeedsFrom(ops, k))
    decreases |ops|
  {
    hide Step, LogWatchers.Saved;
    if k == |ops| {
      assert ops[..k] == ops;
    } else {
      var n := |ops| - 1;
      BufferFollowsFeeds(cfg, machineId, h, ops[..n], k);
      assert ops[..n][..k] == ops[..k];
      match ops[n]
      case Feed(op, now) => Snoc(FeedsFrom(ops[..n], k), Timed(op, now));
      case Save(_) =>
    }
  }

  /** The buffer was last rebuilt at operation j: by a restart, or not at all since operation k. */
  predicate RebuiltAt(ops: seq<LogOp>, k: nat, j: nat) {
    k <= j <= |ops| && (k < j ==> ops[j - 1].Restart?) && NoRestartFrom(ops, j)
  }

  /** There is such an operation. */
  lemma {:induction false} LastRebuilt(ops: seq<LogOp>, k: nat) returns (j: nat)
    requires k <= |ops|
    ensures RebuiltAt(ops, k, j)
  {
    var n := |ops| - 1;
    if |ops| == k || ops[n].Restart? {
      j := |ops|;
    } else {
      j := LastRebuilt(ops[..n], k);
    }
  }

  lemma {:induction false} UntouchedPart(cfg: Config, machineId: string, h: LogHost, ops: seq<LogOp>, k: nat, j: nat,
                                         d: int)
    requires k <= j <= |ops| && Untouched(cfg, machineId, h, ops, k, d)
    ensures Untouched(cfg, machineId, h, ops[..j], k, d)
    ensures k < j ==> !Touches(LogRun(cfg, machineId, h, ops[..j - 1]), ops[j - 1], d)
    decreases |ops|
  {
    hide LogRun, Touches;
    if j == |ops| {
      assert ops[..j] == ops;
    } else {
      var n := |ops| - 1;
      UntouchedPart(cfg, machineId, h, ops[..n], k, j, d);
      assert ops[..n][..j] == ops[..j];
      if k < j {
        assert ops[..n][..j - 1] == ops[..j - 1];
      }
    }
  }

  /** When the buffer was last rebuilt, the day was as its last save had stored it. */
  lemma RebuiltAsSaved(cfg: Config, machineId: string, h: LogHost, ops: seq<LogOp>, k: nat, j: nat, d: int)
    requires HostOk(h, machineId) && Legal(cfg, machineId, h, ops)
    requires 0 < k && RebuiltAt(ops, k, j) && Untouched(cfg, machineId, h, ops, k, d)
    requires ops[k - 1].Save? && Touches(LogRun(cfg, machineId, h, ops[..k - 1]), ops[k - 1], d)
    ensures DayList(LogRun(cfg, machineId, h, ops[..j]).buf.entries, d) ==
              DayList(LogRun(cfg, machineId, h, ops[..k - 1]).buf.entries, d)
  {
    hide DayList, HostOk, Legal, LegalOp, Untouched, LogRun;
    UntouchedPart(cfg, machineId, h, ops, k, j, d);
    if k == j {
      SaveLeavesBuffer(cfg, machineId, h, ops[..k]);
      assert ops[..k][..k - 1] == ops[..k - 1];
    } else {
      var a := ops[..j - 1];
      assert ops[..j] == a + [ops[j - 1]];
      assert a[..k - 1] == ops[..k - 1] && ops[..j][..j - 1] == a;
      UntouchedPart(cfg, machineId, h, ops, k, j - 1, d);
      LegalPart(cfg, machineId, h, ops, j);
      RestartBringsBackLastSave(cfg, machineId, h, a, k, d, ops[j - 1].listing, ops[j - 1].now);
    }
  }

  lemma SaveLeavesBuffer(cfg: Config, machineId: string, h: LogHost, ops: seq<LogOp>)
    requires ops != [] && ops[|ops| - 1].Save?
    ensures LogRun(cfg, machineId, h, ops).buf == LogRun(cfg, machineId, h, ops[..|ops| - 1]).buf
  {
  }

  /** A run that can be restarted, whose last save of day d was operation k, with the buffer last rebuilt at j; the day
      has not expired. */
  ghost predicate SavedDay(cfg: Config, machineId: string, h: LogHost, ops: seq<LogOp>, k: nat, j: nat, d: int,
                           listing: seq<int>, now: Time)
  {
    && HostOk(h, machineId) && Legal(cfg, machineId, h, ops + [Restart(listing, now)])
    && 0 < k <= |ops| && ops[k - 1].Save? && Touches(LogRun(cfg, machineId, h, ops[..k - 1]), ops[k - 1], d)
    && Untouched(cfg, machineId, h, ops, k, d) && DayOf(now) - LogWatchers.LOG_RETENTION_DAYS <= d
    && RebuiltAt(ops, k, j)
  }

  /** Over every run, a day comes back from a restart as its last save stored it. That is how it was just
      before exactly when, since the buffer was last rebuilt, nothing of it was inserted or merged and nothing
      of it was pruned; only when both happened may the changes have cancelled out. */
  lemma ComesBackExactly(cfg: Config, machineId: string, h: LogHost, ops: seq<LogOp>, k: nat, j: nat, d: int,
                         listing: seq<int>, now: Time)
    requires SavedDay(cfg, machineId, h, ops, k, j, d, listing, now)
    ensures var saved := LogRun(cfg, machineId, h, ops[..k - 1]).buf.entries;
            var before := LogRun(cfg, machineId, h, ops).buf.entries;
            var after := LogRun(cfg, machineId, h, ops + [Restart(listing, now)]).buf.entries;
            var fed := FedOn(FeedsFrom(ops, j), d);
            var dropped := DroppedOf(cfg, LogRun(cfg, machineId, h, ops[..j]).buf, FeedsFrom(ops, j), d);
            && DayList(after, d) == DayList(saved, d)
            && (!(fed && dropped) ==> (DayList(after, d) == DayList(before, d) <==> !fed && !dropped))
  {
    hide DayList, HostOk, LegalOp, Touches, Untouched, Continue, FedOn, DroppedOf, FeedsFrom, NoRestartFrom, LogRun;
    RestartBringsBackLastSave(cfg, machineId, h, ops, k, d, listing, now);
    Snoc(ops, Restart(listing, now));
    BufferFollowsFeeds(cfg, machineId, h, ops, j);
    RebuiltAsSaved(cfg, machineId, h, ops, k, j, d);
    LegalPart(cfg, machineId, h, ops, j);
    RunOk(cfg, machineId, h, ops[..j]);
    HostSound(LogRun(cfg, machineId, h, ops[..j]), machineId);
    var saved, feeds := LogRun(cfg, machineId, h, ops[..j]).buf, FeedsFrom(ops, j);
    if !(FedOn(feeds, d) && DroppedOf(cfg, saved, feeds, d)) {
      DayUnchangedExactly(cfg, saved, feeds, d);
    }
  }

  lemma HostSound(h: LogHost, machineId: string)
    requires HostOk(h, machineId)
    ensures WellFormed(h.buf.entries) && AllSound(h.buf.entries)
  {
  }
}
