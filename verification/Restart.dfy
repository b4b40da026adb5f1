/** Saving the history after every cycle makes the week survive a restart. */
module Restarts {
  import opened Clock
  import opened Checks
  import opened Components
  import opened WeekHistory
  import opened Schedulers
  import opened Streams
  import Cycles
  import opened HistoryStores
  import opened Sequences

  // ---- what a load returns ----

  predicate HasDate(days: seq<HistoryDay>, d: int) {
    exists i :: 0 <= i < |days| && days[i].date == d
  }

  lemma HasDateSnoc(days: seq<HistoryDay>, h: HistoryDay, d: int)
    ensures HasDate(days + [h], d) <==> HasDate(days, d) || h.date == d
  {
    Snoc(days, h);
    var r := days + [h];
    assert forall i :: 0 <= i < |days| ==> r[i] == days[i];
    if HasDate(days, d) {
      var i :| 0 <= i < |days| && days[i].date == d;
      assert r[i].date == d;
    }
    if h.date == d {
      assert r[|days|].date == d;
    }
  }

  lemma InsertDayIs(days: seq<HistoryDay>, h: HistoryDay)
    ensures InsertDay(days, h) ==
              if days == [] || days[|days| - 1].date <= h.date then days + [h]
              else InsertDay(days[..|days| - 1], h) + [days[|days| - 1]]
  {
  }

  lemma HasLast(days: seq<HistoryDay>)
    requires days != []
    ensures HasDate(days, days[|days| - 1].date)
  {
  }

  /** Inserting a new date keeps the order and adds exactly that day. */
  lemma {:induction false} InsertDayOk(days: seq<HistoryDay>, h: HistoryDay, d: int)
    requires Increasing(days) && !HasDate(days, h.date) && h.status != Unknown
    ensures Increasing(InsertDay(days, h))
    ensures StatusOn(InsertDay(days, h), d) == if d == h.date then h.status else StatusOn(days, d)
    ensures HasDate(InsertDay(days, h), d) <==> HasDate(days, d) || d == h.date
    ensures |InsertDay(days, h)| == |days| + 1
    ensures InsertDay(days, h)[|days|].date == if days == [] then h.date else Max(days[|days| - 1].date, h.date)
  {
    hide StatusOn, HasDate, InsertDay;
    InsertDayIs(days, h);
    if days == [] || days[|days| - 1].date <= h.date {
      DaysSnoc(days, h, d);
      HasDateSnoc(days, h, d);
      if days != [] {
        HasLast(days);
      }
    } else {
      var a, g := days[..|days| - 1], days[|days| - 1];
      assert days == a + [g];
      HasDateSnoc(a, g, h.date);
      HasDateSnoc(a, g, d);
      DaysSnoc(a, g, d);
      InsertDayOk(a, h, d);
      DaysSnoc(InsertDay(a, h), g, d);
      HasDateSnoc(InsertDay(a, h), g, d);
    }
  }

  lemma {:induction false} NoStatusNoDate(days: seq<HistoryDay>, d: int)
    requires Increasing(days)
    ensures StatusOn(days, d) != Unknown <==> HasDate(days, d)
  {
    if days != [] {
      var n := |days| - 1;
      assert days == days[..n] + [days[n]];
      NoStatusNoDate(days[..n], d);
      HasDateSnoc(days[..n], days[n], d);
    }
  }

  /** Own files never hold an unknown status. */
  ghost predicate Clean(files: map<int, DayFile>, machineId: string) {
    forall d, c :: d in files && IsOwn(files[d], machineId) && c in files[d].components ==>
                     files[d].components[c] != Unknown
  }

  /** Loaded days are in order and show, for each listed and unexpired day, what its file says. */
  lemma {:induction false} LoadedDays(files: map<int, DayFile>, machineId: string, cutoff: int, listing: seq<int>,
                                      c: string, d: int)
    requires Clean(files, machineId) && NoRepeats(listing)
    ensures var days := SortDays(Collected(files, machineId, cutoff, listing, c));
            && Increasing(days)
            && StatusOn(days, d) == (if d in listing && cutoff < d then FileStatus(files, machineId, d, c) else Unknown)
  {
    if listing != [] {
      var n := |listing| - 1;
      var a, e := listing[..n], listing[n];
      LoadedDays(files, machineId, cutoff, a, c, d);
      assert d in listing <==> d in a || d == e;
      if Mentions(files, machineId, cutoff, e, c) {
        var days := SortDays(Collected(files, machineId, cutoff, a, c));
        var h := HistoryDay(e, files[e].components[c]);
        LoadedDays(files, machineId, cutoff, a, c, e);
        NoStatusNoDate(days, e);
        InsertDayOk(days, h, d);
        Snoc(Collected(files, machineId, cutoff, a, c), h);
      }
    }
  }

  lemma LoadedFor(files: map<int, DayFile>, machineId: string, cutoff: int, listing: seq<int>, c: string)
    ensures DaysOf(Loaded(files, machineId, cutoff, listing), c) ==
              SortDays(Collected(files, machineId, cutoff, listing, c))
    ensures c in Loaded(files, machineId, cutoff, listing) <==>
            SortDays(Collected(files, machineId, cutoff, listing, c)) != []
  {
    var l := Collected(files, machineId, cutoff, listing, c);
    if l != [] {
      CollectedIsKnown(files, machineId, cutoff, listing, c);
    }
  }

  lemma {:induction false} CollectedIsKnown(files: map<int, DayFile>, machineId: string, cutoff: int,
                                            listing: seq<int>, c: string)
    requires Collected(files, machineId, cutoff, listing, c) != []
    ensures c in Known(files)
  {
    var n := |listing| - 1;
    if !Mentions(files, machineId, cutoff, listing[n], c) {
      CollectedIsKnown(files, machineId, cutoff, listing[..n], c);
    }
  }

  // ---- one cycle ----

  /** All samples of a stream are taken at one instant. */
  predicate AllAt(tr: seq<Sample>, now: Time) {
    forall i :: 0 <= i < |tr| ==> tr[i].now == now
  }

  lemma {:induction false} AtAllAt(rs: seq<CheckResult>, now: Time)
    ensures AllAt(Cycles.At(rs, now), now)
  {
    if rs != [] {
      AtAllAt(rs[..|rs| - 1], now);
    }
  }

  lemma {:induction false} OfAllAt(tr: seq<Sample>, now: Time, c: string)
    requires AllAt(tr, now)
    ensures AllAt(Of(tr, c), now)
  {
    if tr != [] {
      OfAllAt(tr[..|tr| - 1], now, c);
    }
  }

  /** A known status of today never becomes unknown again. */
  lemma TodayStaysKnown(c: CompState, status: Status, now: Time)
    requires Orderly(c.days, DayOf(now)) && StatusOn(c.days, DayOf(now)) != Unknown
    ensures StatusOn(StepComp(c, status, now).days, DayOf(now)) != Unknown
  {
    var today := DayOf(now);
    StepCompDays(c, status, now);
    if status != Unknown {
      var q := Record(c.days, status, today);
      RecordDays(c.days, status, today, q, today);
      DowngradeDays(q, today, Downgrade(q, today), today);
      WeekIsTracked(q, today, today);
    }
  }

  /** A cycle's results for one component: other days of the week stay, today stays known. */
  lemma {:induction false} SameInstant(c: CompState, tr: seq<Sample>, now: Time, d: int)
    requires Orderly(c.days, DayOf(now)) && AllAt(tr, now) && DayOf(now) - 6 <= d
    ensures var e := RunComp(c, tr);
            && Orderly(e.days, DayOf(now))
            && (d != DayOf(now) ==> StatusOn(e.days, d) == StatusOn(c.days, d))
            && (StatusOn(c.days, DayOf(now)) != Unknown ==> StatusOn(e.days, DayOf(now)) != Unknown)
  {
    if tr != [] {
      var n := |tr| - 1;
      var e, x := RunComp(c, tr[..n]), tr[n];
      SameInstant(c, tr[..n], now, d);
      StepOrderly(e, x.result.status, now);
      WeekIsTracked(StepComp(e, x.result.status, now).days, DayOf(now), d);
      if d != DayOf(now) {
        OtherDaysFixed(e, x.result.status, now, d);
      }
      if StatusOn(e.days, DayOf(now)) != Unknown {
        TodayStaysKnown(e, x.result.status, now);
      }
    }
  }

  lemma CycleDays(s: Sched, bs: seq<Batch>, now: Time, c: string, d: int)
    requires Orderly(DaysOf(s.days, c), DayOf(now)) && DayOf(now) - 6 <= d
    ensures var t := ApplyAll(s, Flat(bs), now);
            && Orderly(DaysOf(t.days, c), DayOf(now))
            && (d != DayOf(now) ==> StatusOn(DaysOf(t.days, c), d) == StatusOn(DaysOf(s.days, c), d))
            && (StatusOn(DaysOf(s.days, c), DayOf(now)) != Unknown ==>
                  StatusOn(DaysOf(t.days, c), DayOf(now)) != Unknown)
  {
    var tr := Cycles.At(Flat(bs), now);
    Cycles.AtIsStream(s, Flat(bs), now);
    Projection(s, tr, c);
    AtAllAt(Flat(bs), now);
    OfAllAt(tr, now, c);
    SameInstant(CompOf(s, c), Of(tr, c), now, d);
  }

  // ---- what the view saves ----

  lemma {:induction false} FirstKnownFrom(days: seq<HistoryDay>, today: int, i: nat)
    requires i <= HISTORY_DAYS
    ensures FirstKnown(Padded(days, today)[i..], today) == if i == HISTORY_DAYS then Unknown else StatusOn(days, today)
    decreases HISTORY_DAYS - i
  {
    var p := Padded(days, today);
    if i < HISTORY_DAYS {
      assert p[i..][0] == p[i] && p[i..][1..] == p[i + 1..];
      FirstKnownFrom(days, today, i + 1);
    } else {
      assert p[i..] == [];
    }
  }

  function View(days: map<string, seq<HistoryDay>>, today: int): map<string, seq<HistoryDay>> {
    map c | c in days :: Padded(days[c], today)
  }

  lemma ViewToday(days: map<string, seq<HistoryDay>>, today: int, c: string)
    ensures var m := TodayStatuses(View(days, today), today);
            && (c in m <==> StatusOn(DaysOf(days, c), today) != Unknown)
            && (c in m ==> m[c] == StatusOn(DaysOf(days, c), today))
  {
    if c in days {
      FirstKnownFrom(days[c], today, 0);
      assert Padded(days[c], today)[0..] == Padded(days[c], today);
    }
  }

  // ---- the disk mirrors the week ----

  /** For every component, the week on disk is the week in memory. */
  ghost predicate Mirrors(days: map<string, seq<HistoryDay>>, files: map<int, DayFile>, machineId: string, today: int) {
    forall c, d :: today - 6 <= d ==> StatusOn(DaysOf(days, c), d) == FileStatus(files, machineId, d, c)
  }

  ghost predicate AllOrderly(days: map<string, seq<HistoryDay>>, today: int) {
    forall c :: Orderly(DaysOf(days, c), today)
  }

  /** The scheduler and the files, as they stand between cycles. */
  datatype Host = Host(s: Sched, files: map<int, DayFile>)

  ghost predicate InStep(h: Host, machineId: string, today: int) {
    Mirrors(h.s.days, h.files, machineId, today) && AllOrderly(h.s.days, today) && Clean(h.files, machineId)
  }

  datatype HostOp =
    | Cycle(bs: seq<Batch>, now: Time)
    | Restart(listing: seq<int>, now: Time)

  /** A cycle ends with a save of the padded view; a restart reads the files back. */
  function HostStep(h: Host, machineId: string, op: HostOp): Host {
    match op
    case Cycle(bs, now) =>
      var s := ApplyAll(h.s, Flat(bs), now);
      Host(s, Saved(h.files, machineId, View(s.days, DayOf(now)), DayOf(now)))
    case Restart(listing, now) =>
      var cutoff := DayOf(now) - HISTORY_RETENTION_DAYS;
      Host(Seeded(Loaded(h.files, machineId, cutoff, listing)), Unexpired(h.files, cutoff))
  }

  /** The listing of a restart names each file once. */
  ghost predicate Lists(op: HostOp, files: map<int, DayFile>) {
    op.Restart? ==> NoRepeats(op.listing) && forall d :: d in op.listing <==> d in files
  }

  /** After a save, today's file says what memory shows; if there was nothing to save, nothing was
      known of today before either. */
  lemma SavedStatus(days: map<string, seq<HistoryDay>>, files: map<int, DayFile>, machineId: string, today: int,
                    c: string, d: int)
    requires StatusOn(DaysOf(days, c), today) == Unknown ==> FileStatus(files, machineId, today, c) == Unknown
    ensures FileStatus(Saved(files, machineId, View(days, today), today), machineId, d, c) ==
            if d == today then StatusOn(DaysOf(days, c), d) else FileStatus(files, machineId, d, c)
  {
    ViewToday(days, today, c);
  }

  lemma SavedClean(days: map<string, seq<HistoryDay>>, files: map<int, DayFile>, machineId: string, today: int)
    requires Clean(files, machineId)
    ensures Clean(Saved(files, machineId, View(days, today), today), machineId)
  {
  }

  lemma CycleInStep(h: Host, machineId: string, bs: seq<Batch>, today: int, now: Time)
    requires InStep(h, machineId, today) && today <= DayOf(now)
    ensures InStep(HostStep(h, machineId, Cycle(bs, now)), machineId, DayOf(now))
  {
    var t := ApplyAll(h.s, Flat(bs), now);
    var today' := DayOf(now);
    SavedClean(t.days, h.files, machineId, today');
    forall c
      ensures Orderly(DaysOf(t.days, c), today')
    {
      CycleDays(h.s, bs, now, c, today');
    }
    forall c, d | today' - 6 <= d
      ensures StatusOn(DaysOf(t.days, c), d) ==
              FileStatus(Saved(h.files, machineId, View(t.days, today'), today'), machineId, d, c)
    {
      CycleDays(h.s, bs, now, c, d);
      assert StatusOn(DaysOf(h.s.days, c), today') == FileStatus(h.files, machineId, today', c);
      SavedStatus(t.days, h.files, machineId, today', c, d);
    }
  }

  /** What a restart remembers of component c on day d of the week. */
  lemma RestartStatus(h: Host, machineId: string, listing: seq<int>, today: int, now: Time, c: string, d: int)
    requires InStep(h, machineId, today) && today <= DayOf(now) && Lists(Restart(listing, now), h.files)
    ensures var days := DaysOf(HostStep(h, machineId, Restart(listing, now)).s.days, c);
            && Increasing(days)
            && StatusOn(days, d) == if DayOf(now) - 6 <= d then StatusOn(DaysOf(h.s.days, c), d) else Unknown
  {
    hide Loaded, SortDays, Collected, Orderly, Increasing, StatusOn;
    var cutoff := DayOf(now) - HISTORY_RETENTION_DAYS;
    LoadedDays(h.files, machineId, cutoff, listing, c, d);
    LoadedFor(h.files, machineId, cutoff, listing, c);
  }

  lemma RestartOrderly(h: Host, machineId: string, listing: seq<int>, today: int, now: Time, c: string)
    requires InStep(h, machineId, today) && today <= DayOf(now) && Lists(Restart(listing, now), h.files)
    ensures Orderly(DaysOf(HostStep(h, machineId, Restart(listing, now)).s.days, c), DayOf(now))
  {
    var days := DaysOf(HostStep(h, machineId, Restart(listing, now)).s.days, c);
    RestartStatus(h, machineId, listing, today, now, c, 0);
    if days != [] {
      var first, last := days[0].date, days[|days| - 1].date;
      RestartStatus(h, machineId, listing, today, now, c, first);
      RestartStatus(h, machineId, listing, today, now, c, last);
      NoStatusNoDate(days, first);
      NoStatusNoDate(days, last);
      assert HasDate(days, first) && HasDate(days, last);
      if DayOf(now) < last {
        LaterIsUnknown(DaysOf(h.s.days, c), last);
      }
      SpanOfDays(days);
    }
  }

  lemma RestartInStep(h: Host, machineId: string, listing: seq<int>, today: int, now: Time)
    requires InStep(h, machineId, today) && today <= DayOf(now) && Lists(Restart(listing, now), h.files)
    ensures InStep(HostStep(h, machineId, Restart(listing, now)), machineId, DayOf(now))
  {
    var h' := HostStep(h, machineId, Restart(listing, now));
    forall c
      ensures Orderly(DaysOf(h'.s.days, c), DayOf(now))
    {
      RestartOrderly(h, machineId, listing, today, now, c);
    }
    forall c, d | DayOf(now) - 6 <= d
      ensures StatusOn(DaysOf(h'.s.days, c), d) == FileStatus(h'.files, machineId, d, c)
    {
      RestartStatus(h, machineId, listing, today, now, c, d);
    }
  }

  function HostRun(h: Host, machineId: string, ops: seq<HostOp>): Host {
    if ops == [] then h else HostStep(HostRun(h, machineId, ops[..|ops| - 1]), machineId, ops[|ops| - 1])
  }

  function DayAfter(today: int, ops: seq<HostOp>): int {
    if ops == [] then today else DayOf(ops[|ops| - 1].now)
  }

  /** The clock never goes back, and each restart lists the files that are there. */
  ghost predicate Runs(h: Host, machineId: string, today: int, ops: seq<HostOp>) {
    ops == [] ||
    (var n := |ops| - 1;
     Runs(h, machineId, today, ops[..n]) && DayAfter(today, ops[..n]) <= DayOf(ops[n].now) &&
     Lists(ops[n], HostRun(h, machineId, ops[..n]).files))
  }

  /** Over every run of cycles and restarts, the week on disk is the week in memory. */
  lemma {:induction false} AlwaysInStep(h: Host, machineId: string, today: int, ops: seq<HostOp>)
    requires InStep(h, machineId, today) && Runs(h, machineId, today, ops)
    ensures InStep(HostRun(h, machineId, ops), machineId, DayAfter(today, ops))
  {
    if ops != [] {
      var n := |ops| - 1;
      var g, day := HostRun(h, machineId, ops[..n]), DayAfter(today, ops[..n]);
      AlwaysInStep(h, machineId, today, ops[..n]);
      match ops[n]
      case Cycle(bs, now) => CycleInStep(g, machineId, bs, day, now);
      case Restart(listing, now) => RestartInStep(g, machineId, listing, day, now);
    }
  }

  /** A host that boots on existing files, none of them from the future, is in step. */
  lemma BootInStep(files: map<int, DayFile>, machineId: string, listing: seq<int>, now: Time)
    requires Clean(files, machineId) && Lists(Restart(listing, now), files)
    requires forall d :: d in files && IsOwn(files[d], machineId) ==> d <= DayOf(now)
    ensures InStep(HostStep(Host(EMPTY_SCHED, files), machineId, Restart(listing, now)), machineId, DayOf(now))
  {
    var cutoff := DayOf(now) - HISTORY_RETENTION_DAYS;
    var h := HostStep(Host(EMPTY_SCHED, files), machineId, Restart(listing, now));
    forall c
      ensures Orderly(DaysOf(h.s.days, c), DayOf(now))
    {
      BootOrderly(files, machineId, cutoff, listing, now, c);
    }
    forall c, d | DayOf(now) - 6 <= d
      ensures StatusOn(DaysOf(h.s.days, c), d) == FileStatus(h.files, machineId, d, c)
    {
      LoadedDays(files, machineId, cutoff, listing, c, d);
      LoadedFor(files, machineId, cutoff, listing, c);
    }
  }

  lemma BootOrderly(files: map<int, DayFile>, machineId: string, cutoff: int, listing: seq<int>, now: Time, c: string)
    requires Clean(files, machineId) && NoRepeats(listing) && cutoff == DayOf(now) - HISTORY_RETENTION_DAYS
    requires forall d :: d in files && IsOwn(files[d], machineId) ==> d <= DayOf(now)
    ensures Orderly(DaysOf(Loaded(files, machineId, cutoff, listing), c), DayOf(now))
  {
    var days := DaysOf(Loaded(files, machineId, cutoff, listing), c);
    LoadedFor(files, machineId, cutoff, listing, c);
    LoadedDays(files, machineId, cutoff, listing, c, 0);
    if days != [] {
      var first, last := days[0].date, days[|days| - 1].date;
      LoadedDays(files, machineId, cutoff, listing, c, first);
      LoadedDays(files, machineId, cutoff, listing, c, last);
      NoStatusNoDate(days, first);
      NoStatusNoDate(days, last);
      assert HasDate(days, first) && HasDate(days, last);
      SpanOfDays(days);
    }
  }

  lemma WeekKnown(days: seq<HistoryDay>, d: int)
    requires Increasing(days) && StatusOn(days, d) != Unknown
    ensures days != []
  {
  }

  /** After any run, a restart shows the same week as before it, for every component with a record in
      the window, and no other component. */
  lemma RestartKeepsTheWeek(h: Host, machineId: string, today: int, ops: seq<HostOp>, listing: seq<int>, now: Time,
                            c: string)
    requires InStep(h, machineId, today) && Runs(h, machineId, today, ops + [Restart(listing, now)])
    ensures var before := HostRun(h, machineId, ops).s.days;
            var after := HostRun(h, machineId, ops + [Restart(listing, now)]).s.days;
            && Padded(DaysOf(after, c), DayOf(now)) == Padded(DaysOf(before, c), DayOf(now))
            && (c in after <==> exists d :: DayOf(now) - 6 <= d && StatusOn(DaysOf(before, c), d) != Unknown)
  {
    var all := ops + [Restart(listing, now)];
    Snoc(ops, Restart(listing, now));
    AlwaysInStep(h, machineId, today, ops);
    KeepsTheWeek(HostRun(h, machineId, ops), machineId, listing, DayAfter(today, ops), now, c);
  }

  lemma KeepsTheWeek(h: Host, machineId: string, listing: seq<int>, today: int, now: Time, c: string)
    requires InStep(h, machineId, today) && today <= DayOf(now) && Lists(Restart(listing, now), h.files)
    ensures var after := HostStep(h, machineId, Restart(listing, now)).s.days;
            && Padded(DaysOf(after, c), DayOf(now)) == Padded(DaysOf(h.s.days, c), DayOf(now))
            && (c in after <==> exists d :: DayOf(now) - 6 <= d && StatusOn(DaysOf(h.s.days, c), d) != Unknown)
  {
    var cutoff := DayOf(now) - HISTORY_RETENTION_DAYS;
    var after := HostStep(h, machineId, Restart(listing, now)).s.days;
    var days := DaysOf(after, c);
    forall i | 0 <= i < HISTORY_DAYS
      ensures Padded(days, DayOf(now))[i] == Padded(DaysOf(h.s.days, c), DayOf(now))[i]
    {
      RestartStatus(h, machineId, listing, today, now, c, DayOf(now) - 6 + i);
    }
    LoadedFor(h.files, machineId, cutoff, listing, c);
    RestartStatus(h, machineId, listing, today, now, c, 0);
    if days != [] {
      var d := days[0].date;
      RestartStatus(h, machineId, listing, today, now, c, d);
      NoStatusNoDate(days, d);
      assert HasDate(days, d);
      assert DayOf(now) - 6 <= d && StatusOn(DaysOf(h.s.days, c), d) != Unknown;
    }
    if d :| DayOf(now) - 6 <= d && StatusOn(DaysOf(h.s.days, c), d) != Unknown {
      RestartStatus(h, machineId, listing, today, now, c, d);
      WeekKnown(days, d);
    }
  }
}
