/** The scheduler as a whole, one component at a time: results of different components do not interact. */
module Streams {
  import opened Clock
  import opened Checks
  import opened Components
  import opened WeekHistory
  import opened Schedulers
  import opened Sequences

  /** The state after a stream of results of any components. */
  function RunStream(s: Sched, tr: seq<Sample>): Sched {
    if tr == [] then s
    else
      var n := |tr| - 1;
      Apply(RunStream(s, tr[..n]), tr[n].result, tr[n].now)
  }

  function StreamAlerts(s: Sched, tr: seq<Sample>): seq<PendingAlert> {
    if tr == [] then []
    else
      var n := |tr| - 1;
      var r := tr[n].result;
      AddAlert(StreamAlerts(s, tr[..n]), AlertComp(Get(RunStream(s, tr[..n]).prev, r.component), r))
  }

  /** The part of a stream that concerns component c. */
  function Of(tr: seq<Sample>, c: string): seq<Sample> {
    if tr == [] then []
    else
      var n := |tr| - 1;
      if tr[n].result.component == c then Of(tr[..n], c) + [tr[n]] else Of(tr[..n], c)
  }

  function AlertsFor(alerts: seq<PendingAlert>, c: string): seq<PendingAlert> {
    if alerts == [] then []
    else
      var n := |alerts| - 1;
      if alerts[n].result.component == c then AlertsFor(alerts[..n], c) + [alerts[n]] else AlertsFor(alerts[..n], c)
  }

  lemma PutComps(s: Sched, c: string, st: CompState, d: string)
    ensures CompOf(PutComp(s, c, st), d) == if d == c then st else CompOf(s, d)
  {
  }

  lemma AlertsForAdd(alerts: seq<PendingAlert>, a: Option<PendingAlert>, c: string)
    ensures AlertsFor(AddAlert(alerts, a), c) ==
            if a.Some? && a.value.result.component == c then AddAlert(AlertsFor(alerts, c), a) else AlertsFor(alerts, c)
  {
    if a.Some? {
      Snoc(alerts, a.value);
    }
  }

  lemma RunCompSnoc(st: CompState, tr: seq<Sample>, x: Sample)
    ensures RunComp(st, tr + [x]) == StepComp(RunComp(st, tr), x.result.status, x.now)
    ensures AlertsComp(st, tr + [x]) == AddAlert(AlertsComp(st, tr), AlertComp(RunComp(st, tr).prev, x.result))
  {
    hide StepComp, AlertComp, AddAlert;
    Snoc(tr, x);
  }

  lemma RunStreamSnoc(s: Sched, tr: seq<Sample>, x: Sample)
    ensures RunStream(s, tr + [x]) == Apply(RunStream(s, tr), x.result, x.now)
    ensures StreamAlerts(s, tr + [x]) ==
            AddAlert(StreamAlerts(s, tr), AlertComp(CompOf(RunStream(s, tr), x.result.component).prev, x.result))
  {
    hide Apply, AlertComp, AddAlert;
    Snoc(tr, x);
  }

  lemma OfSnoc(tr: seq<Sample>, x: Sample, c: string)
    ensures Of(tr + [x], c) == if x.result.component == c then Of(tr, c) + [x] else Of(tr, c)
  {
    Snoc(tr, x);
  }

  /** One result changes the state and the alerts of its own component, and no other. */
  lemma ApplyComps(s: Sched, alerts: seq<PendingAlert>, x: Sample, c: string)
    ensures var r, st := x.result, CompOf(s, c);
            && CompOf(Apply(s, r, x.now), c) == (if r.component == c then StepComp(st, r.status, x.now) else st)
            && AlertsFor(AddAlert(alerts, AlertComp(CompOf(s, r.component).prev, r)), c) ==
               if r.component == c then AddAlert(AlertsFor(alerts, c), AlertComp(st.prev, r)) else AlertsFor(alerts, c)
  {
    hide StepComp, PutComp, AddAlert, AlertsFor;
    var r := x.result;
    PutComps(s, r.component, StepComp(CompOf(s, r.component), r.status, x.now), c);
    AlertsForAdd(alerts, AlertComp(CompOf(s, r.component).prev, r), c);
    assert AddAlert(AlertsFor(alerts, c), None) == AlertsFor(alerts, c) by { AddNone(AlertsFor(alerts, c)); }
  }

  lemma AddNone(alerts: seq<PendingAlert>)
    ensures AddAlert(alerts, None) == alerts
  {
  }

  /** What happens to a component, and its alerts, depend on its own results alone, however they are
      interleaved with those of others. */
  lemma {:induction false} Projection(s: Sched, tr: seq<Sample>, c: string)
    ensures CompOf(RunStream(s, tr), c) == RunComp(CompOf(s, c), Of(tr, c))
    ensures AlertsFor(StreamAlerts(s, tr), c) == AlertsComp(CompOf(s, c), Of(tr, c))
  {
    if tr == [] {
      return;
    }
    hide *;
    var a, x := tr[..|tr| - 1], tr[|tr| - 1];
    assert tr == a + [x];
    Projection(s, a, c);
    RunStreamSnoc(s, a, x);
    OfSnoc(a, x, c);
    ApplyComps(RunStream(s, a), StreamAlerts(s, a), x, c);
    RunCompSnoc(CompOf(s, c), Of(a, c), x);
  }

  // ---- every stream, from a freshly seeded scheduler ----

  function Seeded(seed: map<string, seq<HistoryDay>>): Sched {
    Sched(map[], map[], seed)
  }

  /** Instants do not decrease, and the seed is orderly when the stream starts. */
  predicate StreamInOrder(seed: map<string, seq<HistoryDay>>, tr: seq<Sample>) {
    && (forall i, j :: 0 <= i < j < |tr| ==> tr[i].now <= tr[j].now)
    && (tr != [] ==> forall c :: c in seed ==> Orderly(seed[c], DayOf(tr[0].now)))
  }

  lemma {:induction false} OfIsSubsequence(tr: seq<Sample>, c: string, lo: Time, hi: Time)
    requires forall i, j :: 0 <= i < j < |tr| ==> tr[i].now <= tr[j].now
    requires forall i :: 0 <= i < |tr| ==> lo <= tr[i].now <= hi
    ensures forall i :: 0 <= i < |Of(tr, c)| ==> lo <= Of(tr, c)[i].now <= hi
    ensures forall i :: 0 < i < |Of(tr, c)| ==> Of(tr, c)[i - 1].now <= Of(tr, c)[i].now
  {
    if tr != [] {
      var a, x := tr[..|tr| - 1], tr[|tr| - 1];
      OfIsSubsequence(a, c, lo, x.now);
    }
  }

  lemma OfInOrder(seed: map<string, seq<HistoryDay>>, tr: seq<Sample>, c: string)
    requires StreamInOrder(seed, tr)
    ensures InOrder(DaysOf(seed, c), Of(tr, c))
  {
    if tr != [] {
      OfIsSubsequence(tr, c, tr[0].now, tr[|tr| - 1].now);
    }
  }

  /** For every component and every interleaving of results in time order: its alerts are exactly its
      status transitions, the scheduler remembers its last status, it is tracked exactly while
      critical, since the start of that unbroken run, and each day of its history shows the worst
      status that counts. */
  lemma EveryComponent(seed: map<string, seq<HistoryDay>>, tr: seq<Sample>, c: string, d: int)
    requires StreamInOrder(seed, tr)
    ensures var s, own := RunStream(Seeded(seed), tr), Of(tr, c);
            && AlertsFor(StreamAlerts(Seeded(seed), tr), c) == Transitions(own)
            && Get(s.prev, c) == (if own == [] then None else Some(own[|own| - 1].result.status))
            && Get(s.since, c) == (if own != [] && own[|own| - 1].result.status == Critical
                                   then Some(own[RunStart(own, |own| - 1)].now) else None)
            && (own != [] ==> Orderly(DaysOf(s.days, c), DayOf(own[|own| - 1].now)) &&
                              Shows(DaysOf(seed, c), DaysOf(s.days, c), own, d))
  {
    var own := Of(tr, c);
    var h0 := DaysOf(seed, c);
    Projection(Seeded(seed), tr, c);
    assert CompOf(Seeded(seed), c) == Fresh(h0);
    AlertsAreTransitions(h0, own);
    PrevIsLast(h0, own);
    SinceIsRunStart(h0, own);
    OfInOrder(seed, tr, c);
    if own != [] {
      HistoryIsWorst(h0, own, d);
    }
  }

  /** For every component and every interleaving in time order: each of the seven days shown is, by name, the worst
      that counts for it among the results of that component. */
  lemma EveryWeekByName(seed: map<string, seq<HistoryDay>>, tr: seq<Sample>, c: string, now: Time, i: nat)
    requires StreamInOrder(seed, tr) && Of(tr, c) != [] && tr[|tr| - 1].now <= now && i < 7
    ensures var shown := Padded(DaysOf(RunStream(Seeded(seed), tr).days, c), DayOf(now));
            |shown| == 7 && shown[i].date == DayOf(now) - 6 + i &&
            ShowsByName(DaysOf(seed, c), Of(tr, c), shown[i].date, shown[i].status)
  {
    hide RunStream, RunComp, Of, InOrder, Padded, ShowsByName, DayOf;
    var own, h0 := Of(tr, c), DaysOf(seed, c);
    Projection(Seeded(seed), tr, c);
    assert CompOf(Seeded(seed), c) == Fresh(h0);
    OfInOrder(seed, tr, c);
    SomethingRan(tr, c);
    OfIsSubsequence(tr, c, tr[0].now, tr[|tr| - 1].now);
    WeekByName(h0, own, now, i);
  }

  lemma SomethingRan(tr: seq<Sample>, c: string)
    requires Of(tr, c) != []
    ensures tr != []
  {
  }
}
