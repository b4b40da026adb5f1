/** The scheduler: what it remembers of each component, and how a cycle's results update it. */
module Schedulers {
  import opened Clock
  import opened Checks
  import opened Components
  import opened WeekHistory
  import opened Sequences

  datatype Sched = Sched(prev: map<string, Status>, since: map<string, Time>, days: map<string, seq<HistoryDay>>)

  /** The results of one checker, as they come off the channel. */
  datatype Batch = Batch(name: string, results: seq<CheckResult>)

  const EMPTY_SCHED: Sched := Sched(map[], map[], map[])

  function Get<T>(m: map<string, T>, c: string): Option<T> {
    if c in m then Some(m[c]) else None
  }

  function Put<T>(m: map<string, T>, c: string, v: Option<T>): map<string, T> {
    match v
    case None => m - {c}
    case Some(x) => m[c := x]
  }

  function DaysOf(m: map<string, seq<HistoryDay>>, c: string): seq<HistoryDay> {
    if c in m then m[c] else []
  }

  function PutDays(m: map<string, seq<HistoryDay>>, c: string, days: seq<HistoryDay>): map<string, seq<HistoryDay>> {
    if days == [] then m - {c} else m[c := days]
  }

  /** What the scheduler knows about one component. */
  function CompOf(s: Sched, c: string): CompState {
    CompState(Get(s.prev, c), Get(s.since, c), DaysOf(s.days, c))
  }

  function PutComp(s: Sched, c: string, st: CompState): Sched {
    Sched(Put(s.prev, c, st.prev), Put(s.since, c, st.since), PutDays(s.days, c, st.days))
  }

  /** One result, processed at now. */
  function Apply(s: Sched, r: CheckResult, now: Time): Sched {
    PutComp(s, r.component, StepComp(CompOf(s, r.component), r.status, now))
  }

  function ApplyAll(s: Sched, rs: seq<CheckResult>, now: Time): Sched {
    if rs == [] then s else Apply(ApplyAll(s, rs[..|rs| - 1], now), rs[|rs| - 1], now)
  }

  function AlertsOf(s: Sched, rs: seq<CheckResult>, now: Time): seq<PendingAlert> {
    if rs == [] then []
    else
      var n := |rs| - 1;
      AddAlert(AlertsOf(s, rs[..n], now), AlertComp(Get(ApplyAll(s, rs[..n], now).prev, rs[n].component), rs[n]))
  }

  /** The results worth recording in the log buffer. */
  function BadOnes(rs: seq<CheckResult>): seq<CheckResult> {
    if rs == [] then []
    else
      var n := |rs| - 1;
      if IsBad(rs[n].status) then BadOnes(rs[..n]) + [rs[n]] else BadOnes(rs[..n])
  }

  /** They are exactly the warn and critical results, in order. */
  lemma {:induction false} BadAt(rs: seq<CheckResult>) returns (idx: seq<nat>)
    ensures Ascends(idx, |rs|) && |BadOnes(rs)| == |idx|
    ensures forall k :: 0 <= k < |rs| ==> (k in idx <==> rs[k].status == Warn || rs[k].status == Critical)
    ensures forall i :: 0 <= i < |idx| ==> BadOnes(rs)[i] == rs[idx[i]]
  {
    if rs == [] {
      idx := [];
    } else {
      var n := |rs| - 1;
      idx := BadAt(rs[..n]);
      AscendsSnoc(idx, n);
      if IsBad(rs[n].status) {
        idx := idx + [n];
      }
    }
  }

  function Flat(bs: seq<Batch>): seq<CheckResult> {
    if bs == [] then [] else Flat(bs[..|bs| - 1]) + bs[|bs| - 1].results
  }

  /** The results of the batches, one batch after the other. */
  lemma {:induction false} FlatIs(bs: seq<Batch>, i: nat)
    requires i < |bs|
    ensures Flat(bs) == Flat(bs[..i]) + bs[i].results + Flat(bs[i + 1..])
    ensures Flat([]) == []
    decreases |bs|
  {
    var n := |bs| - 1;
    if i < n {
      FlatIs(bs[..n], i);
      assert bs[..n][..i] == bs[..i] && bs[..n][i + 1..] == bs[i + 1..][..n - i - 1];
      Associate(Flat(bs[..i]) + bs[i].results, Flat(bs[..n][i + 1..]), bs[n].results);
    } else {
      assert Flat(bs[..i]) + bs[i].results + [] == Flat(bs[..i]) + bs[i].results;
    }
  }

  /** A name has the results of its last batch. */
  lemma {:induction false} ResultsOfLast(m: map<string, seq<CheckResult>>, bs: seq<Batch>, i: nat)
    requires i < |bs| && forall j :: i < j < |bs| ==> bs[j].name != bs[i].name
    ensures bs[i].name in SetResults(m, bs) && SetResults(m, bs)[bs[i].name] == bs[i].results
    decreases |bs|
  {
    var n := |bs| - 1;
    if i < n {
      var a := bs[..n];
      assert a[i] == bs[i] && bs[n].name != bs[i].name;
      ResultsOfLast(m, a, i);
    }
  }

  /** The results of a name without a batch stay. */
  lemma {:induction false} ResultsElsewhere(m: map<string, seq<CheckResult>>, bs: seq<Batch>, name: string)
    requires forall i :: 0 <= i < |bs| ==> bs[i].name != name
    ensures Get(SetResults(m, bs), name) == Get(m, name)
  {
    if bs != [] {
      var n := |bs| - 1;
      ResultsElsewhere(m, bs[..n], name);
    }
  }

  function SetResults(m: map<string, seq<CheckResult>>, bs: seq<Batch>): map<string, seq<CheckResult>> {
    if bs == [] then m
    else SetResults(m, bs[..|bs| - 1])[bs[|bs| - 1].name := bs[|bs| - 1].results]
  }

  /** The status of the last entry, if it is of day d. */
  function LastOn(days: seq<HistoryDay>, d: int): Status {
    if days != [] && days[|days| - 1].date == d then days[|days| - 1].status else Unknown
  }

  /** A known status recorded makes today's entry, the last one, the worse of the two. */
  lemma RecordedWorse(days: seq<HistoryDay>, status: Status, today: int)
    requires status != Unknown
    ensures var r := Record(days, status, today);
            r != [] && r[|r| - 1].date == today && IsWorse(LastOn(days, today), status, r[|r| - 1].status)
  {
    WorseNamed(LastOn(days, today), status);
  }

  lemma FlatSnoc(bs: seq<Batch>, i: nat)
    requires i < |bs|
    ensures Flat(bs[..i + 1]) == Flat(bs[..i]) + bs[i].results
  {
    TakeOne(bs, i);
  }

  class Scheduler {
    var results: map<string, seq<CheckResult>>
    var previousStatus: map<string, Status>
    var criticalSince: map<string, Time>
    var history: map<string, seq<HistoryDay>>

    ghost function State(): Sched
      reads this
    {
      Sched(previousStatus, criticalSince, history)
    }

    /** A component in the history has at least one recorded day. */
    ghost predicate Valid()
      reads this
    {
      forall c :: c in history ==> history[c] != []
    }

    /** A scheduler seeded with the history read from disk. */
    constructor (seed: map<string, seq<HistoryDay>>)
      requires forall c :: c in seed ==> seed[c] != []
      ensures Valid() && State() == Sched(map[], map[], seed) && results == map[]
    {
      results, previousStatus, criticalSince, history := map[], map[], map[], seed;
    }

    /** Makes today's entry the last one, keeping at most 7. */
    static method Open(recorded: seq<HistoryDay>, today: int) returns (days: seq<HistoryDay>)
      ensures days == Opened(recorded, today)
    {
      days := recorded;
      if |days| == 0 || days[|days| - 1].date != today {
        days := days + [HistoryDay(today, Unknown)];
        if |days| > HISTORY_DAYS {
          SuffixSnoc(recorded, HistoryDay(today, Unknown), |recorded| - 6);
          days := days[|days| - HISTORY_DAYS..];
        }
      }
    }

    method UpdateHistory(component: string, status: Status, now: Time)
      requires Valid()
      modifies this`history
      ensures Valid()
      ensures history == PutDays(old(history), component, Record(DaysOf(old(history), component), status, DayOf(now)))
      ensures status != Unknown ==>
                component in history && var days, before := history[component], DaysOf(old(history), component);
                days[|days| - 1].date == DayOf(now) &&
                IsWorse(LastOn(before, DayOf(now)), status, days[|days| - 1].status)
    {
      hide Opened, DayOf, IsWorse;
      var days := if component in history then history[component] else [];
      if status == Unknown {
        return;
      }
      RecordedWorse(days, status, DayOf(now));
      days := Open(days, DayOf(now));
      var last := |days| - 1;
      if Priority(status) > Priority(days[last].status) {
        days := days[last := days[last].(status := status)];
      } else {
        assert days[last := days[last]] == days;
      }
      history := history[component := days];
    }

    method DowngradeHistory(component: string, now: Time)
      requires Valid()
      modifies this`history
      ensures Valid()
      ensures history == PutDays(old(history), component, Downgrade(DaysOf(old(history), component), DayOf(now)))
    {
      var today := DayOf(now);
      var days := if component in history then history[component] else [];
      for i := 0 to |days|
        invariant history == old(history)
        invariant CriticalAt(days, today, 0) == CriticalAt(days, today, i)
      {
        if days[i].date == today && days[i].status == Critical {
          days := days[i := days[i].(status := OK)];
          history := history[component := days];
          return;
        }
      }
    }

    method ProcessResult(r: CheckResult, now: Time) returns (alert: Option<PendingAlert>)
      requires Valid()
      modifies this`previousStatus, this`criticalSince, this`history
      ensures Valid()
      ensures State() ==
              PutComp(old(State()), r.component, ProcessComp(CompOf(old(State()), r.component), r.status, now))
      ensures alert == AlertComp(Get(old(previousStatus), r.component), r)
    {
      hide Downgrade, DayOf;
      var c := r.component;
      if r.status == Critical {
        if c !in criticalSince {
          criticalSince := criticalSince[c := now];
        }
      }
      if c !in previousStatus {
        previousStatus := previousStatus[c := r.status];
        return if r.status == Critical || r.status == Warn then Some(PendingAlert(r, Unknown)) else None;
      }
      var prevStatus := previousStatus[c];
      if r.status == prevStatus {
        return None;
      }
      if prevStatus == Critical && r.status == OK {
        if c in criticalSince {
          if now - criticalSince[c] <= MIGRATION_THRESHOLD {
            DowngradeHistory(c, now);
          }
        }
      }
      if r.status != Critical {
        criticalSince := criticalSince - {c};
      }
      previousStatus := previousStatus[c := r.status];
      return Some(PendingAlert(r, prevStatus));
    }

    /** One result of the collection loop. */
    method TakeResult(r: CheckResult, now: Time) returns (alert: Option<PendingAlert>)
      requires Valid()
      modifies this`previousStatus, this`criticalSince, this`history
      ensures Valid()
      ensures State() == Apply(old(State()), r, now)
      ensures alert == AlertComp(Get(old(previousStatus), r.component), r)
    {
      hide Record, ProcessComp, AlertComp;
      UpdateHistory(r.component, r.status, now);
      alert := ProcessResult(r, now);
    }

    /** The results of one checker. */
    method TakeBatch(rs: seq<CheckResult>, now: Time) returns (alerts: seq<PendingAlert>, records: seq<CheckResult>)
      requires Valid()
      modifies this`previousStatus, this`criticalSince, this`history
      ensures Valid()
      ensures State() == ApplyAll(old(State()), rs, now)
      ensures alerts == AlertsOf(old(State()), rs, now) && records == BadOnes(rs)
    {
      alerts, records := [], [];
      for i := 0 to |rs|
        invariant Valid()
        invariant State() == ApplyAll(old(State()), rs[..i], now)
        invariant alerts == AlertsOf(old(State()), rs[..i], now) && records == BadOnes(rs[..i])
      {
        TakeOne(rs, i);
        var r := rs[i];
        if r.status == Warn || r.status == Critical {
          records := records + [r];
        }
        var a := TakeResult(r, now);
        alerts := AddAlert(alerts, a);
      }
      TakeAll(rs);
    }

    /** The collection loop of one cycle, over the batches in the order the checkers finish. */
    method Collect(bs: seq<Batch>, now: Time) returns (alerts: seq<PendingAlert>, records: seq<CheckResult>)
      requires Valid()
      modifies this
      ensures Valid()
      ensures results == SetResults(old(results), bs)
      ensures State() == ApplyAll(old(State()), Flat(bs), now)
      ensures alerts == AlertsOf(old(State()), Flat(bs), now) && records == BadOnes(Flat(bs))
    {
      alerts, records := [], [];
      for i := 0 to |bs|
        invariant Valid()
        invariant results == SetResults(old(results), bs[..i])
        invariant State() == ApplyAll(old(State()), Flat(bs[..i]), now)
        invariant alerts == AlertsOf(old(State()), Flat(bs[..i]), now) && records == BadOnes(Flat(bs[..i]))
      {
        TakeOne(bs, i);
        FlatSnoc(bs, i);
        RunConcat(old(State()), Flat(bs[..i]), bs[i].results, now);
        results := results[bs[i].name := bs[i].results];
        var a, r := TakeBatch(bs[i].results, now);
        alerts, records := alerts + a, records + r;
      }
      TakeAll(bs);
    }

    /** The week of one component, filled day by day. */
    static method Pad(recorded: seq<HistoryDay>, today: int) returns (padded: seq<HistoryDay>)
      ensures padded == Padded(recorded, today)
    {
      padded := seq(HISTORY_DAYS, i requires 0 <= i < HISTORY_DAYS => HistoryDay(today - 6 + i, Unknown));
      for k := 0 to |recorded|
        invariant |padded| == HISTORY_DAYS
        invariant forall i :: 0 <= i < HISTORY_DAYS ==>
                                padded[i] == HistoryDay(today - 6 + i, StatusOn(recorded[..k], today - 6 + i))
      {
        var day := recorded[k];
        TakeOne(recorded, k);
        ghost var before := padded;
        for i := 0 to |padded|
          invariant padded == before
          invariant forall j :: 0 <= j < i ==> before[j].date != day.date
        {
          if padded[i].date == day.date {
            padded := padded[i := padded[i].(status := day.status)];
            break;
          }
        }
      }
      TakeAll(recorded);
    }

    method GetHistory(now: Time) returns (view: map<string, seq<HistoryDay>>)
      ensures view == map c | c in history :: Padded(history[c], DayOf(now))
    {
      view := map[];
      var todo := history.Keys;
      while todo != {}
        invariant todo <= history.Keys
        invariant view == map c | c in history && c !in todo :: Padded(history[c], DayOf(now))
      {
        var component :| component in todo;
        todo := todo - {component};
        var padded := Pad(history[component], DayOf(now));
        view := view[component := padded];
      }
    }
  }

  lemma AddAlertConcat(a: seq<PendingAlert>, b: seq<PendingAlert>, x: Option<PendingAlert>)
    ensures AddAlert(a + b, x) == a + AddAlert(b, x)
  {
    if x.Some? {
      Regroup(a, b, x.value);
    }
  }

  /** Results taken in two portions. */
  lemma RunConcat(s: Sched, a: seq<CheckResult>, b: seq<CheckResult>, now: Time)
    ensures ApplyAll(s, a + b, now) == ApplyAll(ApplyAll(s, a, now), b, now)
    ensures AlertsOf(s, a + b, now) == AlertsOf(s, a, now) + AlertsOf(ApplyAll(s, a, now), b, now)
    ensures BadOnes(a + b) == BadOnes(a) + BadOnes(b)
  {
    ApplyConcat(s, a, b, now);
    AlertsConcat(s, a, b, now);
    BadConcat(a, b);
  }

  lemma {:induction false} ApplyConcat(s: Sched, a: seq<CheckResult>, b: seq<CheckResult>, now: Time)
    ensures ApplyAll(s, a + b, now) == ApplyAll(ApplyAll(s, a, now), b, now)
  {
    if b == [] {
      assert a + b == a;
    } else {
      var c, r := b[..|b| - 1], b[|b| - 1];
      ApplyConcat(s, a, c, now);
      assert b == c + [r];
      Regroup(a, c, r);
      Snoc(a + c, r);
    }
  }

  lemma {:induction false} AlertsConcat(s: Sched, a: seq<CheckResult>, b: seq<CheckResult>, now: Time)
    ensures AlertsOf(s, a + b, now) == AlertsOf(s, a, now) + AlertsOf(ApplyAll(s, a, now), b, now)
  {
    hide Apply, AlertComp;
    if b == [] {
      assert a + b == a;
    } else {
      var c, r := b[..|b| - 1], b[|b| - 1];
      AlertsConcat(s, a, c, now);
      ApplyConcat(s, a, c, now);
      assert b == c + [r];
      Regroup(a, c, r);
      Snoc(a + c, r);
      AddAlertConcat(AlertsOf(s, a, now), AlertsOf(ApplyAll(s, a, now), c, now),
                     AlertComp(Get(ApplyAll(s, a + c, now).prev, r.component), r));
    }
  }

  lemma {:induction false} BadConcat(a: seq<CheckResult>, b: seq<CheckResult>)
    ensures BadOnes(a + b) == BadOnes(a) + BadOnes(b)
  {
    if b == [] {
      assert a + b == a;
    } else {
      var c, r := b[..|b| - 1], b[|b| - 1];
      BadConcat(a, c);
      assert b == c + [r];
      Regroup(a, c, r);
      Snoc(a + c, r);
      Regroup(BadOnes(a), BadOnes(c), r);
    }
  }
}
