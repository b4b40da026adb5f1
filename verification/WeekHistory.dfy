/** The week of history refines a fold over the whole stream of results. */
module WeekHistory {
  import opened Clock
  import opened Checks
  import opened Components

  lemma DaysSnoc(days: seq<HistoryDay>, h: HistoryDay, d: int)
    ensures (days + [h])[..|days|] == days && (days + [h])[|days|] == h
    ensures StatusOn(days + [h], d) == if h.date == d then h.status else StatusOn(days, d)
  {
    var r := days + [h];
    assert r[..|days|] == days;
  }

  lemma {:induction false} LaterIsUnknown(days: seq<HistoryDay>, d: int)
    requires Increasing(days) && (days != [] ==> days[|days| - 1].date < d)
    ensures StatusOn(days, d) == Unknown
  {
    if days != [] {
      LaterIsUnknown(days[..|days| - 1], d);
    }
  }

  lemma {:induction false} DropOldest(days: seq<HistoryDay>, r: seq<HistoryDay>, d: int)
    requires Increasing(days) && days != [] && r == days[1..]
    ensures Increasing(r)
    ensures d != days[0].date ==> StatusOn(r, d) == StatusOn(days, d)
  {
    var n := |days|;
    if n > 1 {
      var a := days[..n - 1];
      DropOldest(a, a[1..], d);
      assert r[..n - 2] == a[1..];
    } else {
      assert days[..0] == [];
    }
  }

  /** Day d is still within what a full week of records reaches back to. */
  predicate Tracked(days: seq<HistoryDay>, d: int) {
    |days| < HISTORY_DAYS || days[0].date <= d
  }

  /** Opening today keeps every tracked day, and shows for today what was shown before. */
  lemma OpenedDays(days: seq<HistoryDay>, today: int, r: seq<HistoryDay>, d: int)
    requires Orderly(days, today) && r == Opened(days, today)
    ensures Orderly(r[..|r| - 1], today - 1) && |r| <= HISTORY_DAYS
    ensures r[|r| - 1] == HistoryDay(today, StatusOn(days, today))
    ensures Tracked(r, d) ==> Tracked(days, d)
    ensures Tracked(r, d) && d != today ==> StatusOn(r[..|r| - 1], d) == StatusOn(days, d)
  {
    var n := |days|;
    var h := HistoryDay(today, Unknown);
    if n != 0 && days[n - 1].date == today {
    } else {
      LaterIsUnknown(days, today);
      if n >= HISTORY_DAYS {
        var rest := days[n - 6..];
        assert rest == days[1..];
        DropOldest(days, rest, d);
        FirstTwo(days);
        DaysSnoc(rest, h, d);
      } else {
        DaysSnoc(days, h, d);
      }
    }
  }

  lemma FirstTwo(days: seq<HistoryDay>)
    requires Increasing(days) && |days| > 1
    ensures days[0].date < days[1].date
  {
    IncreasingMeans(days);
  }

  lemma SetLast(days: seq<HistoryDay>, h: HistoryDay, d: int)
    requires days != []
    ensures var n := |days| - 1;
            days[n := h][..n] == days[..n] &&
            StatusOn(days[n := h], d) == if h.date == d then h.status else StatusOn(days[..n], d)
  {
    var n := |days| - 1;
    assert days[n := h][..n] == days[..n];
  }

  /** Recording a known status worsens today and leaves every other tracked day alone. */
  lemma RecordDays(days: seq<HistoryDay>, status: Status, today: int, r: seq<HistoryDay>, d: int)
    requires Orderly(days, today) && status != Unknown && r == Record(days, status, today)
    ensures Orderly(r, today) && r != []
    ensures r[|r| - 1] == HistoryDay(today, Worse(StatusOn(days, today), status))
    ensures Tracked(r, d) ==> Tracked(days, d)
    ensures Tracked(r, d) ==>
              StatusOn(r, d) == if d == today then Worse(StatusOn(days, d), status) else StatusOn(days, d)
  {
    var o := Opened(days, today);
    var n := |o| - 1;
    OpenedDays(days, today, o, d);
    SetLast(o, o[n].(status := Worse(o[n].status, status)), d);
  }

  lemma {:induction false} OnlyLastIsToday(days: seq<HistoryDay>, today: int, i: nat)
    requires Increasing(days) && days != [] && days[|days| - 1].date <= today && i < |days|
    ensures CriticalAt(days, today, i) == if days[|days| - 1] == HistoryDay(today, Critical) then |days| - 1 else |days|
    decreases |days| - i
  {
    if i < |days| - 1 {
      BeforeLast(days, i);
      OnlyLastIsToday(days, today, i + 1);
    } else {
      assert CriticalAt(days, today, i + 1) == i + 1;
    }
  }

  lemma BeforeLast(days: seq<HistoryDay>, i: nat)
    requires Increasing(days) && i < |days| - 1
    ensures days[i].date < days[|days| - 1].date
  {
    IncreasingMeans(days);
  }

  /** A downgrade turns a critical today into ok and leaves everything else alone. */
  lemma DowngradeDays(days: seq<HistoryDay>, today: int, r: seq<HistoryDay>, d: int)
    requires Orderly(days, today) && days != [] && r == Downgrade(days, today)
    ensures Orderly(r, today) && (Tracked(r, d) <==> Tracked(days, d))
    ensures StatusOn(r, d) == if d == today && days[|days| - 1] == HistoryDay(today, Critical) then OK
                              else StatusOn(days, d)
  {
    OnlyLastIsToday(days, today, 0);
    SetLast(days, HistoryDay(today, OK), d);
  }

  /** Instants do not decrease along the stream, and what was recorded before is not from the future. */
  predicate InOrder(days: seq<HistoryDay>, tr: seq<Sample>) {
    && (tr != [] ==> Orderly(days, DayOf(tr[0].now)))
    && forall i :: 0 < i < |tr| ==> tr[i - 1].now <= tr[i].now
  }

  lemma InOrderPrefix(h0: seq<HistoryDay>, tr: seq<Sample>)
    requires InOrder(h0, tr) && |tr| > 1
    ensures InOrder(h0, tr[..|tr| - 1]) && tr[|tr| - 2].now <= tr[|tr| - 1].now
  {
  }

  /** Day d, if tracked, shows the worst of the statuses that count for it. */
  predicate Shows(h0: seq<HistoryDay>, days: seq<HistoryDay>, tr: seq<Sample>, d: int) {
    Tracked(days, d) ==> StatusOn(days, d) == Worst(Counting(h0, tr, d))
  }

  /** While a component is critical, so is today's entry. */
  predicate CriticalToday(days: seq<HistoryDay>, tr: seq<Sample>) {
    tr != [] && tr[|tr| - 1].result.status == Critical ==>
      days != [] && days[|days| - 1] == HistoryDay(DayOf(tr[|tr| - 1].now), Critical)
  }

  lemma WorstOne(s: Status)
    ensures Worst([s]) == s
  {
    assert [s][..0] == [];
  }

  /** After a quick recovery today shows ok, whatever it showed before. */
  lemma QuickStep(days: seq<HistoryDay>, last: int, today: int, r: seq<HistoryDay>, d: int)
    requires Orderly(days, last) && last <= today
    requires days != [] && days[|days| - 1] == HistoryDay(last, Critical)
    requires r == Downgrade(Record(days, OK, today), today)
    ensures Orderly(r, today)
    ensures Tracked(r, d) ==> Tracked(days, d) && StatusOn(r, d) == if d == today then OK else StatusOn(days, d)
  {
    var q := Record(days, OK, today);
    RecordDays(days, OK, today, q, d);
    DowngradeDays(q, today, r, d);
    if last < today {
      LaterIsUnknown(days, today);
    }
  }

  lemma CountingStep(h0: seq<HistoryDay>, tr: seq<Sample>, d: int)
    requires tr != []
    ensures var n := |tr| - 1; var x := tr[n].result.status;
            Worst(Counting(h0, tr, d)) ==
            if DayOf(tr[n].now) != d || x == Unknown then Worst(Counting(h0, tr[..n], d))
            else if QuickRecovery(tr, n) then OK
            else Worse(Worst(Counting(h0, tr[..n], d)), x)
  {
    var n := |tr| - 1;
    WorstSnoc(Counting(h0, tr[..n], d), tr[n].result.status);
    WorstOne(OK);
  }

  lemma StepCompDays(c: CompState, status: Status, now: Time)
    ensures var today := DayOf(now);
            StepComp(c, status, now).days ==
            if c.prev == Some(Critical) && status == OK && c.since.Some? && now - c.since.value <= MIGRATION_THRESHOLD
            then Downgrade(Record(c.days, OK, today), today) else Record(c.days, status, today)
  {
  }

  /** What one more result does to the recorded days. */
  lemma StepDays(h0: seq<HistoryDay>, tr: seq<Sample>, days: seq<HistoryDay>)
    requires tr != [] && days == RunComp(Fresh(h0), tr[..|tr| - 1]).days
    ensures var n := |tr| - 1; var today := DayOf(tr[n].now);
            RunComp(Fresh(h0), tr).days ==
            if QuickRecovery(tr, n) then Downgrade(Record(days, OK, today), today)
            else Record(days, tr[n].result.status, today)
  {
    var n := |tr| - 1;
    var c := RunComp(Fresh(h0), tr[..n]);
    StepCompDays(c, tr[n].result.status, tr[n].now);
    PrevIsLast(h0, tr[..n]);
    SinceIsRunStart(h0, tr[..n]);
    if n > 0 {
      RunStartPrefix(tr, n, n - 1);
    }
  }

  /** If the history is right before the last result, it is right after it. */
  lemma HistoryStep(h0: seq<HistoryDay>, days: seq<HistoryDay>, tr: seq<Sample>, r: seq<HistoryDay>, today: int, d: int)
    requires tr != [] && today == DayOf(tr[|tr| - 1].now)
    requires Orderly(days, today) && Shows(h0, days, tr[..|tr| - 1], d) && CriticalToday(days, tr[..|tr| - 1])
    requires |tr| > 1 ==> Orderly(days, DayOf(tr[|tr| - 2].now)) && DayOf(tr[|tr| - 2].now) <= today
    requires r == if QuickRecovery(tr, |tr| - 1) then Downgrade(Record(days, OK, today), today)
                  else Record(days, tr[|tr| - 1].result.status, today)
    ensures Orderly(r, today) && Shows(h0, r, tr, d) && CriticalToday(r, tr)
  {
    hide Record, Downgrade, Counting, Worst, StatusOn, Tracked, Orderly, DayOf, RunStart;
    var n := |tr| - 1;
    var x := tr[n].result.status;
    CountingStep(h0, tr, d);
    if QuickRecovery(tr, n) {
      QuickStep(days, DayOf(tr[n - 1].now), today, r, d);
    } else if x != Unknown {
      RecordDays(days, x, today, r, d);
    } else {
      UnknownIsNotRecorded(days, today);
    }
  }

  lemma UnknownIsNotRecorded(days: seq<HistoryDay>, today: int)
    ensures Record(days, Unknown, today) == days
  {
  }

  /** Over every stream of results in time order, starting from any orderly record: dates strictly
      increase, at most 7 of them, none unknown, and every day shows the worst status since it began
      or since its last quick recovery. */
  lemma {:induction false} HistoryIsWorst(h0: seq<HistoryDay>, tr: seq<Sample>, d: int)
    requires InOrder(h0, tr) && tr != []
    ensures var days := RunComp(Fresh(h0), tr).days;
            Orderly(days, DayOf(tr[|tr| - 1].now)) && Shows(h0, days, tr, d) && CriticalToday(days, tr)
  {
    var n := |tr| - 1;
    var a := tr[..n];
    var days := RunComp(Fresh(h0), a).days;
    if n > 0 {
      InOrderPrefix(h0, tr);
      HistoryIsWorst(h0, a, d);
    } else {
      assert a == [];
      WorstOne(StatusOn(h0, d));
    }
    StepDays(h0, tr, days);
    HistoryStep(h0, days, tr, RunComp(Fresh(h0), tr).days, DayOf(tr[n].now), d);
  }

  /** One step never changes what another day shows; it can only push the oldest day out. */
  lemma OtherDaysFixed(c: CompState, status: Status, now: Time, d: int)
    requires Orderly(c.days, DayOf(now)) && d != DayOf(now)
    requires Tracked(StepComp(c, status, now).days, d)
    ensures Tracked(c.days, d) && StatusOn(StepComp(c, status, now).days, d) == StatusOn(c.days, d)
  {
    var today := DayOf(now);
    StepCompDays(c, status, now);
    if status != Unknown {
      var q := Record(c.days, status, today);
      RecordDays(c.days, status, today, q, d);
      DowngradeDays(q, today, Downgrade(q, today), d);
    }
  }

  /** Steps keep the record orderly. */
  lemma StepOrderly(c: CompState, status: Status, now: Time)
    requires Orderly(c.days, DayOf(now))
    ensures Orderly(StepComp(c, status, now).days, DayOf(now))
  {
    var today := DayOf(now);
    StepCompDays(c, status, now);
    if status != Unknown {
      var q := Record(c.days, status, today);
      RecordDays(c.days, status, today, q, 0);
      DowngradeDays(q, today, Downgrade(q, today), 0);
    }
  }

  // ---- the padded week ----

  /** The 7-day view: each of the last 7 days with its recorded status, or unknown. */
  function Padded(days: seq<HistoryDay>, today: int): (r: seq<HistoryDay>)
    ensures |r| == HISTORY_DAYS
  {
    seq(HISTORY_DAYS, i requires 0 <= i < HISTORY_DAYS => HistoryDay(today - 6 + i, StatusOn(days, today - 6 + i)))
  }

  /** The last 7 days are always tracked. */
  lemma WeekIsTracked(days: seq<HistoryDay>, today: int, d: int)
    requires Orderly(days, today) && today - 6 <= d
    ensures Tracked(days, d)
  {
    if |days| == HISTORY_DAYS {
      SpanOfDays(days);
    }
  }

  /** Strictly increasing dates span at least their number. */
  lemma {:induction false} SpanOfDays(days: seq<HistoryDay>)
    requires Increasing(days) && days != []
    ensures days[0].date + |days| - 1 <= days[|days| - 1].date
  {
    if |days| > 1 {
      SpanOfDays(days[..|days| - 1]);
    }
  }

  lemma OrderlyLater(days: seq<HistoryDay>, t: int, u: int)
    requires Orderly(days, t) && t <= u
    ensures Orderly(days, u)
  {
  }

  /** The dashboard's week is exactly the worst of what counts, day by day. */
  lemma ViewIsWorst(h0: seq<HistoryDay>, tr: seq<Sample>, now: Time, i: nat)
    requires InOrder(h0, tr) && tr != [] && tr[|tr| - 1].now <= now && i < HISTORY_DAYS
    ensures Padded(RunComp(Fresh(h0), tr).days, DayOf(now))[i].status ==
            Worst(Counting(h0, tr, DayOf(now) - 6 + i))
  {
    hide RunComp, Worst, Counting, StatusOn, Orderly, InOrder, Tracked;
    var d := DayOf(now) - 6 + i;
    var days := RunComp(Fresh(h0), tr).days;
    HistoryIsWorst(h0, tr, d);
    OrderlyLater(days, DayOf(tr[|tr| - 1].now), DayOf(now));
    WeekIsTracked(days, DayOf(now), d);
  }

  // ---- statuses by name ----

  /** What day d shows, by name: critical if a critical counts for it, else warn if a warn does, ok if only ok does,
      and unknown if nothing does. */
  predicate ShowsByName(h0: seq<HistoryDay>, tr: seq<Sample>, d: int, shown: Status) {
    var counts := Counting(h0, tr, d);
    && (shown == Critical <==> Critical in counts)
    && (shown == Warn <==> Critical !in counts && Warn in counts)
    && (shown == OK <==> counts != [] && forall i :: 0 <= i < |counts| ==> counts[i] == OK)
    && (shown == Unknown <==> counts == [])
  }

  lemma WorstByName(h0: seq<HistoryDay>, tr: seq<Sample>, d: int)
    ensures ShowsByName(h0, tr, d, Worst(Counting(h0, tr, d)))
  {
    hide Counting, Worst;
    var counts := Counting(h0, tr, d);
    WorstNamed(counts);
    CountingKnown(h0, tr, d);
    assert forall i :: 0 <= i < |counts| ==> counts[i] in counts && counts[i] != Unknown;
    if counts != [] {
      assert counts[0] in counts;
    }
    if Critical !in counts && Warn !in counts {
      forall i | 0 <= i < |counts|
        ensures counts[i] == OK
      {
        assert counts[i] in counts;
      }
    }
  }

  /** Over every stream of results in time order each tracked day shows, by name, the worst that counts for it. */
  lemma DayByName(h0: seq<HistoryDay>, tr: seq<Sample>, d: int)
    requires InOrder(h0, tr) && tr != [] && Tracked(RunComp(Fresh(h0), tr).days, d)
    ensures ShowsByName(h0, tr, d, StatusOn(RunComp(Fresh(h0), tr).days, d))
  {
    hide InOrder, RunComp, Tracked, StatusOn, Orderly, CriticalToday, ShowsByName, Worst, Counting;
    HistoryIsWorst(h0, tr, d);
    WorstByName(h0, tr, d);
  }

  /** And so does each day of the padded week, which holds the last seven dates in order. */
  lemma WeekByName(h0: seq<HistoryDay>, tr: seq<Sample>, now: Time, i: nat)
    requires InOrder(h0, tr) && tr != [] && tr[|tr| - 1].now <= now && i < 7
    ensures var shown := Padded(RunComp(Fresh(h0), tr).days, DayOf(now));
            |shown| == 7 && shown[i].date == DayOf(now) - 6 + i && ShowsByName(h0, tr, shown[i].date, shown[i].status)
  {
    hide InOrder, RunComp, StatusOn, ShowsByName, Worst, Counting;
    ViewIsWorst(h0, tr, now, i);
    WorstByName(h0, tr, DayOf(now) - 6 + i);
  }
}
