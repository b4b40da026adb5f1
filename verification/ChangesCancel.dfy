/** A run in which something of a saved day is fed, something of it is dropped, and the two cancel out. */
module ChangesCancel {
  import opened Clock
  import opened LogModel
  import opened Ledger
  import opened Reload
  import opened LogWatchers
  import opened SaveRuns
  import opened DayChanges
  import opened Sequences

  const HOUR: int := 3_600_000_000_000

  const CFG: Config := Config(7 * DAY, 20_000)

  /** Day 100 at noon, the start of day 106, and day 107 a second past one. */
  const FIRST_TIME: Time := 8_683_200_000_000_000
  const LATER: Time := 9_158_400_000_000_000
  const END: Time := 9_248_401_000_000_000

  const HOST: LogHost := LogHost(EMPTY, map[])

  function Title(n: nat): (s: string)
    ensures |s| == n
  {
    if n == 0 then "" else Title(n - 1) + "a"
  }

  /** Event i: the first one on day 100, all others later, each under its own title. */
  function Nth(i: nat): LogEntry {
    LogEntry(if i == 0 then FIRST_TIME else LATER, 0, "journal", "warn", "", Title(i), "", 0)
  }

  /** An event of day 100 at one: a second too old at the end, as one from the start of a journal window may be. */
  const OLD: LogEntry := Nth(63).(timestamp := FIRST_TIME - 11 * HOUR)

  function Filled(n: nat): seq<LogEntry> {
    if n == 0 then [] else Filled(n - 1) + [FreshEvent(Nth(n - 1))]
  }

  /** The first event is fed and saved on its day, the others are fed later. */
  function Filling(n: nat): seq<LogOp> {
    if n == 0 then []
    else if n == 1 then [Feed(Event(Nth(0)), FIRST_TIME), Save(FIRST_TIME)]
    else Filling(n - 1) + [Feed(Event(Nth(n - 1)), LATER)]
  }

  lemma {:induction false} FilledHas(n: nat, k: AggKey)
    ensures HasKey(Filled(n), k) ==> |k.title| < n
  {
    if n > 0 {
      FilledHas(n - 1, k);
      Snoc(Filled(n - 1), FreshEvent(Nth(n - 1)));
    }
  }

  /** Every event is young enough at the end, and later than the old one. */
  lemma {:induction false} FilledAt(n: nat)
    ensures |Filled(n)| == n
    ensures forall i :: 0 <= i < n ==> Filled(n)[i] == FreshEvent(Nth(i))
  {
    if n > 0 {
      FilledAt(n - 1);
    }
  }

  lemma FilledInsert(n: nat)
    ensures Insert(Filled(n), FreshEvent(Nth(n))) == Filled(n + 1)
  {
    FilledAt(n);
  }

  lemma FillStep(n: nat)
    requires n < 63
    ensures Step(CFG, Buf(Filled(n), n), Event(Nth(n)), LATER) == Buf(Filled(n + 1), n + 1)
    ensures Step(CFG, Buf(Filled(n), n), Event(Nth(n)), FIRST_TIME) == Buf(Filled(n + 1), n + 1)
  {
    hide Filled, Insert, Title, BucketStart, Kept;
    FilledHas(n, OpKey(Event(Nth(n))));
    FilledInsert(n);
  }

  lemma FirstSaved(machineId: string)
    ensures DayOf(FIRST_TIME) == 100 && DayList(Filled(1), 100) == Filled(1) && Filled(1) != []
    ensures LogRun(CFG, machineId, HOST, Filling(1)[..1]) == LogHost(Buf(Filled(1), 1), map[])
    ensures LogRun(CFG, machineId, HOST, Filling(1)) ==
              LogHost(Buf(Filled(1), 1), map[100 := LogFile(machineId, Filled(1))])
    ensures Legal(CFG, machineId, HOST, Filling(1))
  {
    hide Step, DayList;
    var ops := Filling(1);
    FillStep(0);
    assert ops[..1][..0] == [] && ops[..2] == ops && ops[..1] == [ops[0]];
    assert LogRun(CFG, machineId, HOST, []) == HOST;
    assert Filled(0) == [];
    assert Legal(CFG, machineId, HOST, []) && Legal(CFG, machineId, HOST, ops[..1]);
    FirstDay();
  }

  lemma FirstDay()
    ensures DayOf(FIRST_TIME) == 100 && DayList(Filled(1), 100) == Filled(1)
  {
    var f := FreshEvent(Nth(0));
    InRangeNothing(DayStart(100), DayStart(101));
    InRangeLast([], f, DayStart(100), DayStart(101));
    assert Filled(0) == [] && [] + [f] == [f] && Filled(1) == [f];
  }

  /** The run so far; nothing touches the file of day 100 once it is saved. */
  lemma {:induction false} FillingRuns(machineId: string, n: nat)
    requires 1 <= n <= 63
    ensures LogRun(CFG, machineId, HOST, Filling(n)) ==
              LogHost(Buf(Filled(n), n), map[100 := LogFile(machineId, Filled(1))])
    ensures Legal(CFG, machineId, HOST, Filling(n))
    ensures 2 <= |Filling(n)| && Filling(n)[..2] == Filling(1)
    ensures Untouched(CFG, machineId, HOST, Filling(n), 2, 100) && NoRestartFrom(Filling(n), 2)
  {
    hide Step, Filled, DayList, Nth, Saved;
    if n == 1 {
      FirstSaved(machineId);
      assert Filling(1)[..2] == Filling(1);
    } else {
      FillingRuns(machineId, n - 1);
      FillStep(n - 1);
      Snoc(Filling(n - 1), Feed(Event(Nth(n - 1)), LATER));
      assert Filling(n)[..2] == Filling(n - 1)[..2];
      NthDated(n - 1);
    }
  }

  lemma NthDated(i: nat)
    ensures 0 <= Nth(i).timestamp
  {
  }

  // ---- the last event ----

  lemma NotBeforeLast(s: seq<LogEntry>, x: LogEntry, lo: Time)
    ensures NotBefore(s + [x], lo) == if lo <= x.timestamp then NotBefore(s, lo) + [x] else NotBefore(s, lo)
  {
    Snoc(s, x);
  }

  lemma NthLate(i: nat)
    ensures FIRST_TIME <= FreshEvent(Nth(i)).timestamp
  {
  }

  lemma {:induction false} OldFirst(n: nat, f: LogEntry, lo: Time)
    requires f.timestamp < lo <= FIRST_TIME
    ensures Insert(Filled(n), f) == [f] + Filled(n) && NotBefore([f] + Filled(n), lo) == Filled(n)
  {
    hide Nth, FreshEvent, Insert, NotBefore, Filled;
    if n == 0 {
      OldAlone(f, lo);
    } else {
      var a, x := Filled(n - 1), FreshEvent(Nth(n - 1));
      OldFirst(n - 1, f, lo);
      FilledNext(n);
      NthLate(n - 1);
      InsertSnoc(a, x, f);
      NotBeforeLast([f] + a, x, lo);
      Regroup([f], a, x);
    }
  }

  lemma FilledNext(n: nat)
    requires 0 < n
    ensures Filled(n) == Filled(n - 1) + [FreshEvent(Nth(n - 1))]
  {
  }

  lemma OldAlone(f: LogEntry, lo: Time)
    requires f.timestamp < lo
    ensures Insert(Filled(0), f) == [f] + Filled(0) && NotBefore([f] + Filled(0), lo) == Filled(0)
  {
    assert [] + [f] == [f] && [f] + [] == [f] && [f][..0] == [];
    assert NotBefore([], lo) == [];
  }

  /** The event is inserted as the oldest, and the prune it triggers drops it again, and nothing else. */
  lemma OldStep(n: nat)
    requires n == 63
    ensures var b, t := Buf(Filled(n), n), Timed(Event(OLD), END);
            && Step(CFG, b, t.op, t.now) == Buf(Filled(n), 0)
            && DayOf(OLD.timestamp) == 100 && StepDrops(CFG, b, t, 100)
  {
    hide Filled, Insert, NotBefore, Title, BucketStart, InRange;
    var b, f := Buf(Filled(n), n), FreshEvent(OLD);
    FilledHas(n, OpKey(Event(OLD)));
    FilledAt(n);
    OldFirst(n, f, END - 7 * DAY);
    assert Fed(b.entries, Event(OLD)) == [f] + Filled(n);
    assert Kept(CFG, [f] + Filled(n), END) == Filled(n);
    InRangeConcat([f], Filled(n), DayStart(100), DayStart(101));
    OldDay(f);
    assert |DayList([f] + Filled(n), 100)| == 1 + |DayList(Filled(n), 100)|;
  }

  lemma OldDay(f: LogEntry)
    requires f.timestamp == FIRST_TIME - 11 * HOUR
    ensures |InRange([f], DayStart(100), DayStart(101))| == 1
  {
    InRangeNothing(DayStart(100), DayStart(101));
    InRangeLast([], f, DayStart(100), DayStart(101));
    assert [] + [f] == [f];
  }

  lemma HostStarts(machineId: string)
    ensures HostOk(HOST, machineId)
  {
  }

  function Cancelling(n: nat): seq<LogOp> {
    Filling(n) + [Feed(Event(OLD), END)]
  }

  /** The whole run is legal, saves day 100 and leaves its file alone afterwards. */
  lemma CancellingRuns(machineId: string, n: nat)
    requires n == PRUNE_INTERVAL - 1
    ensures var ops := Cancelling(n);
            && 2 <= |ops| && ops[..2] == Filling(1)
            && LogRun(CFG, machineId, HOST, ops) ==
               LogHost(Buf(Filled(n), 0), map[100 := LogFile(machineId, Filled(1))])
            && Legal(CFG, machineId, HOST, ops) && Untouched(CFG, machineId, HOST, ops, 2, 100)
            && NoRestartFrom(ops, 2)
  {
    hide Step, Filled, Filling, DayList, OLD, StepDrops, Saved, Nth;
    FillingRuns(machineId, n);
    OldStep(n);
    Snoc(Filling(n), Feed(Event(OLD), END));
    assert Cancelling(n)[..2] == Filling(n)[..2];
    OldDated();
  }

  lemma FirstDaySaved(machineId: string, n: nat)
    requires n == PRUNE_INTERVAL - 1
    ensures var ops := Cancelling(n);
            2 <= |ops| && ops[1].Save? && Touches(LogRun(CFG, machineId, HOST, ops[..1]), ops[1], 100)
  {
    hide Filled, Filling, DayList, LogRun, Nth, Cancelling;
    CancellingRuns(machineId, n);
    FirstSaved(machineId);
    SecondSaves();
    var ops := Cancelling(n);
    assert ops[..2][..1] == ops[..1] && ops[..2][1] == ops[1];
  }

  lemma OldFedAndDropped(machineId: string, n: nat)
    requires n == PRUNE_INTERVAL - 1
    ensures 2 <= |Cancelling(n)|
    ensures var feeds := FeedsFrom(Cancelling(n), 2);
            FedOn(feeds, 100) && DroppedOf(CFG, LogRun(CFG, machineId, HOST, Cancelling(n)[..2]).buf, feeds, 100)
  {
    hide Step, Filled, Filling, DayList, OLD, StepDrops, Saved, Nth, LogRun, Legal, Untouched;
    var fill, t := Filling(n), Timed(Event(OLD), END);
    FillingRuns(machineId, n);
    OldStep(n);
    Snoc(fill, Feed(Event(OLD), END));
    BufferFollowsFeeds(CFG, machineId, HOST, fill, 2);
    assert FeedsFrom(Cancelling(n), 2) == FeedsFrom(fill, 2) + [t];
    Snoc(FeedsFrom(fill, 2), t);
    assert Cancelling(n)[..2] == fill[..2];
  }

  /** A run from an empty host, with the limits the program uses: day 100 is saved, 62 events of later days follow, and
      then one of day 100 that is just too old to stay. Since the save something of the day was fed and something of
      it dropped, and yet a restart brings the day back as it was. */
  lemma FedAndDropped(machineId: string, n: nat)
    requires n == PRUNE_INTERVAL - 1
    ensures var ops := Cancelling(n);
            && SavedDay(CFG, machineId, HOST, ops, 2, 2, 100, [100], END)
            && FedOn(FeedsFrom(ops, 2), 100)
            && DroppedOf(CFG, LogRun(CFG, machineId, HOST, ops[..2]).buf, FeedsFrom(ops, 2), 100)
            && DayList(LogRun(CFG, machineId, HOST, ops + [Restart([100], END)]).buf.entries, 100) ==
               DayList(LogRun(CFG, machineId, HOST, ops).buf.entries, 100)
  {
    hide LogRun, Filled, Filling, Cancelling, DayList, FedOn, DroppedOf, FeedsFrom, Touches, Untouched, HostOk;
    var ops := Cancelling(n);
    HostStarts(machineId);
    CancellingRuns(machineId, n);
    FirstDaySaved(machineId, n);
    OldFedAndDropped(machineId, n);
    FirstSaved(machineId);
    Snoc(ops, Restart([100], END));
    assert ops[..2][..1] == ops[..1];
    OldDated();
    RestartBringsBackLastSave(CFG, machineId, HOST, ops, 2, 100, [100], END);
    DayOfFilled(n);
  }

  lemma SecondSaves()
    ensures |Filling(1)| == 2 && Filling(1)[1] == Save(FIRST_TIME)
  {
  }

  lemma OldDated()
    ensures 0 <= OLD.timestamp && DayOf(END) == 107
  {
  }

  lemma {:induction false} DayOfFilled(n: nat)
    requires 1 <= n
    ensures DayList(Filled(n), 100) == DayList(Filled(1), 100)
  {
    hide Title;
    if n > 1 {
      DayOfFilled(n - 1);
      InRangeLast(Filled(n - 1), FreshEvent(Nth(n - 1)), DayStart(100), DayStart(101));
    }
  }
}
