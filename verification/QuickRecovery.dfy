/** When the history of a day does not show the worst status of that day. */
module QuickRecoveries {
  import opened Clock
  import opened Checks
  import opened Components
  import opened WeekHistory

  /** What was recorded of day d before the stream. */
  function Seed(h0: seq<HistoryDay>, d: int): seq<Status> {
    if StatusOn(h0, d) == Unknown then [] else [StatusOn(h0, d)]
  }

  /** The known results of day d from sample k on. */
  function KnownFrom(tr: seq<Sample>, k: nat, d: int): seq<Status> {
    if |tr| <= k then []
    else
      var n := |tr| - 1;
      var x := tr[n].result.status;
      if DayOf(tr[n].now) == d && x != Unknown then KnownFrom(tr[..n], k, d) + [x] else KnownFrom(tr[..n], k, d)
  }

  /** Everything known of day d. */
  function AllOfDay(h0: seq<HistoryDay>, tr: seq<Sample>, d: int): seq<Status> {
    Seed(h0, d) + KnownFrom(tr, 0, d)
  }

  /** One past the last quick recovery of day d; 0 if there is none. */
  function AfterLastQuick(tr: seq<Sample>, d: int): (k: nat)
    ensures k <= |tr|
  {
    if tr == [] then 0
    else
      var n := |tr| - 1;
      if DayOf(tr[n].now) == d && QuickRecovery(tr, n) then |tr| else AfterLastQuick(tr[..n], d)
  }

  /** It is the last one. */
  lemma {:induction false} AfterLastQuickIs(tr: seq<Sample>, d: int)
    ensures var k := AfterLastQuick(tr, d);
            && (k > 0 ==> DayOf(tr[k - 1].now) == d && QuickRecovery(tr, k - 1))
            && forall i :: k <= i < |tr| && DayOf(tr[i].now) == d ==> !QuickRecovery(tr, i)
  {
    hide DayOf, RunStart;
    if tr != [] {
      var n := |tr| - 1;
      AfterLastQuickIs(tr[..n], d);
      forall i | 0 <= i < n
        ensures QuickRecovery(tr[..n], i) == QuickRecovery(tr, i)
      {
        QuickPrefix(tr, n, i);
      }
    }
  }

  lemma QuickPrefix(tr: seq<Sample>, n: nat, i: nat)
    requires i < n <= |tr|
    ensures QuickRecovery(tr[..n], i) == QuickRecovery(tr, i)
  {
    if i > 0 {
      RunStartPrefix(tr, n, i - 1);
    }
  }

  /** What counts for a day is everything, or ok and what follows the last quick recovery. */
  lemma {:induction false} CountingIs(h0: seq<HistoryDay>, tr: seq<Sample>, d: int)
    ensures var k := AfterLastQuick(tr, d);
            Counting(h0, tr, d) == if k == 0 then AllOfDay(h0, tr, d) else [OK] + KnownFrom(tr, k, d)
  {
    hide DayOf, QuickRecovery, StatusOn;
    if tr != [] {
      var n := |tr| - 1;
      CountingIs(h0, tr[..n], d);
      var k := AfterLastQuick(tr, d);
      if k == |tr| {
        QuickIsKnown(tr, n);
        assert [OK] + KnownFrom(tr, k, d) == [OK];
      } else {
        assert KnownFrom(tr[..n], k, d) == KnownFrom(tr[..n], AfterLastQuick(tr[..n], d), d);
      }
    }
  }

  lemma QuickIsKnown(tr: seq<Sample>, i: nat)
    requires i < |tr| && QuickRecovery(tr, i)
    ensures tr[i].result.status == OK
  {
  }

  lemma {:induction false} WorstConcat(a: seq<Status>, b: seq<Status>)
    ensures Worst(a + b) == Worse(Worst(a), Worst(b))
  {
    if b == [] {
      assert a + b == a;
    } else {
      var c, x := b[..|b| - 1], b[|b| - 1];
      WorstConcat(a, c);
      assert a + b == a + c + [x];
      WorstSnoc(a + c, x);
    }
  }

  lemma {:induction false} KnownSplits(tr: seq<Sample>, k: nat, d: int)
    requires k <= |tr|
    ensures KnownFrom(tr, 0, d) == KnownFrom(tr[..k], 0, d) + KnownFrom(tr, k, d)
    decreases |tr|
  {
    hide DayOf;
    if k == |tr| {
      assert tr[..k] == tr;
    } else {
      var n := |tr| - 1;
      KnownSplits(tr[..n], k, d);
      assert tr[..n][..k] == tr[..k];
    }
  }

  /** What a quick recovery makes the day forget was no worse than ok and what came after it. */
  predicate NothingForgotten(h0: seq<HistoryDay>, tr: seq<Sample>, d: int) {
    var k := AfterLastQuick(tr, d);
    k == 0 ||
    Priority(Worst(AllOfDay(h0, tr[..k - 1], d))) <= Priority(Worse(OK, Worst(KnownFrom(tr, k, d))))
  }

  lemma WorstForgets(h0: seq<HistoryDay>, tr: seq<Sample>, d: int)
    ensures Worst(Counting(h0, tr, d)) == Worst(AllOfDay(h0, tr, d)) <==> NothingForgotten(h0, tr, d)
  {
    hide DayOf, QuickRecovery, KnownFrom, Counting, Seed, Worst;
    var k := AfterLastQuick(tr, d);
    CountingIs(h0, tr, d);
    if k > 0 {
      AfterLastQuickIs(tr, d);
      LastKnown(tr, k, d);
      KnownSplits(tr, k, d);
      WorstOne(OK);
      WorstConcat([OK], KnownFrom(tr, k, d));
      var before, after := AllOfDay(h0, tr[..k - 1], d), KnownFrom(tr, k, d);
      assert AllOfDay(h0, tr, d) == before + [OK] + after;
      WorstSnoc(before, OK);
      WorstConcat(before + [OK], after);
    }
  }

  /** The known results up to a quick recovery end with its ok. */
  lemma LastKnown(tr: seq<Sample>, k: nat, d: int)
    requires 0 < k <= |tr| && DayOf(tr[k - 1].now) == d && QuickRecovery(tr, k - 1)
    ensures KnownFrom(tr[..k], 0, d) == KnownFrom(tr[..k - 1], 0, d) + [OK]
  {
    hide DayOf, RunStart;
    assert tr[..k][..k - 1] == tr[..k - 1];
  }

  /** A day of the history shows the worst of everything known of it exactly when it had no quick
      recovery, or when everything before its last one was no worse than ok and what followed. */
  lemma ShowsWorstExactly(h0: seq<HistoryDay>, tr: seq<Sample>, d: int)
    requires InOrder(h0, tr) && tr != [] && Tracked(RunComp(Fresh(h0), tr).days, d)
    ensures StatusOn(RunComp(Fresh(h0), tr).days, d) == Worst(AllOfDay(h0, tr, d)) <==> NothingForgotten(h0, tr, d)
  {
    hide RunComp, Tracked, StatusOn, NothingForgotten, Counting, InOrder, Orderly;
    HistoryIsWorst(h0, tr, d);
    WorstForgets(h0, tr, d);
  }

  // ---- an outage that is forgotten ----

  function At(s: Status, minute: int): Sample {
    Sample(CheckResult("c", s, "", 0), minute * 60_000_000_000)
  }

  lemma OutageSteps()
    ensures var day, half := [HistoryDay(0, Critical)], 30 * 60_000_000_000;
            && StepComp(Fresh([]), Critical, 0) == CompState(Some(Critical), Some(0), day)
            && StepComp(CompState(Some(Critical), Some(0), day), OK, 20 * 60_000_000_000) ==
                 CompState(Some(OK), None, day)
            && StepComp(CompState(Some(OK), None, day), Critical, half) == CompState(Some(Critical), Some(half), day)
            && StepComp(CompState(Some(Critical), Some(half), day), OK, 35 * 60_000_000_000) ==
                 CompState(Some(OK), None, [HistoryDay(0, OK)])
  {
    var day := [HistoryDay(0, Critical)];
    assert Opened([], 0) == [HistoryDay(0, Unknown)];
    assert Record([], Critical, 0) == day && Record(day, OK, 0) == day && Record(day, Critical, 0) == day;
    assert Downgrade(day, 0) == [HistoryDay(0, OK)];
  }

  lemma RunSnoc(c: CompState, tr: seq<Sample>, x: Sample)
    ensures RunComp(c, tr + [x]) == StepComp(RunComp(c, tr), x.result.status, x.now)
  {
    assert (tr + [x])[..|tr|] == tr;
  }

  lemma KnownOutage()
    ensures AllOfDay([], [At(Critical, 0), At(OK, 20), At(Critical, 30), At(OK, 35)], 0) == [Critical, OK, Critical, OK]
  {
    var a, b, c, e := At(Critical, 0), At(OK, 20), At(Critical, 30), At(OK, 35);
    assert [a, b, c, e][..3] == [a, b, c] && [a, b, c][..2] == [a, b] && [a, b][..1] == [a] && [a][..0] == [];
    assert KnownFrom([a], 0, 0) == [Critical];
    assert KnownFrom([a, b], 0, 0) == [Critical, OK];
    assert KnownFrom([a, b, c], 0, 0) == [Critical, OK, Critical];
  }

  /** Critical for 20 minutes, and later for 5: the day ends up ok. */
  lemma LongOutageForgotten()
    ensures var tr := [At(Critical, 0), At(OK, 20), At(Critical, 30), At(OK, 35)];
            && InOrder([], tr) && Tracked(RunComp(Fresh([]), tr).days, 0)
            && StatusOn(RunComp(Fresh([]), tr).days, 0) == OK && Worst(AllOfDay([], tr, 0)) == Critical
  {
    hide StepComp, AllOfDay, RunComp, Worst;
    var a, b, c, e := At(Critical, 0), At(OK, 20), At(Critical, 30), At(OK, 35);
    OutageSteps();
    RunNothing(Fresh([]));
    RunSnoc(Fresh([]), [], a);
    RunSnoc(Fresh([]), [a], b);
    RunSnoc(Fresh([]), [a, b], c);
    RunSnoc(Fresh([]), [a, b, c], e);
    assert [] + [a] == [a] && [a] + [b] == [a, b] && [a, b] + [c] == [a, b, c] && [a, b, c] + [e] == [a, b, c, e];
    KnownOutage();
    WorstIsMaximal([Critical, OK, Critical, OK]);
    assert [Critical, OK, Critical, OK][0] == Critical;
  }

  lemma RunNothing(c: CompState)
    ensures RunComp(c, []) == c
  {
  }

  /** An outage of ten minutes is forgotten, and one that is any longer is not. */
  lemma TenMinutes(x: CheckResult, y: CheckResult, t: Time)
    requires x.status == Critical && y.status == OK && 0 <= t < 86_400_000_000_000
    ensures StatusOn(RunComp(Fresh([]), [Sample(x, 0), Sample(y, t)]).days, 0) ==
            if t <= 600_000_000_000 then OK else Critical
  {
    var c := Fresh([]);
    RunNothing(c);
    RunSnoc(c, [], Sample(x, 0));
    RunSnoc(c, [Sample(x, 0)], Sample(y, t));
    assert [] + [Sample(x, 0)] == [Sample(x, 0)] && [Sample(x, 0)] + [Sample(y, t)] == [Sample(x, 0), Sample(y, t)];
    assert StepComp(c, Critical, 0) == CompState(Some(Critical), Some(0), [HistoryDay(0, Critical)]);
    RecordedOk(t);
  }

  lemma RecordedOk(t: Time)
    requires 0 <= t < 86_400_000_000_000
    ensures var s := StepComp(CompState(Some(Critical), Some(0), [HistoryDay(0, Critical)]), OK, t);
            s.days == [HistoryDay(0, if t <= 600_000_000_000 then OK else Critical)]
  {
    assert DayOf(t) == 0;
    assert Record([HistoryDay(0, Critical)], OK, 0) == [HistoryDay(0, Critical)];
    assert CriticalAt([HistoryDay(0, Critical)], 0, 0) == 0;
  }
}
