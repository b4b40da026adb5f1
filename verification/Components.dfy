/** One component of the scheduler: its last status, its critical run and its week of history. */
module Components {
  import opened Clock
  import opened Checks

  datatype HistoryDay = HistoryDay(date: int, status: Status)

  datatype CompState = CompState(prev: Option<Status>, since: Option<Time>, days: seq<HistoryDay>)

  datatype PendingAlert = PendingAlert(result: CheckResult, prev: Status)

  /** A result and the instant at which it is processed. */
  datatype Sample = Sample(result: CheckResult, now: Time)

  const MIGRATION_THRESHOLD: int := 600_000_000_000
  const HISTORY_DAYS: nat := 7

  function Priority(s: Status): nat {
    match s
    case Critical => 3
    case Warn => 2
    case OK => 1
    case Unknown => 0
  }

  function Worse(a: Status, b: Status): Status {
    if Priority(b) > Priority(a) then b else a
  }

  // ---- one step ----

  /** Today's entry is the last one; it is opened as unknown, pushing out the oldest of more than 7. */
  function Opened(days: seq<HistoryDay>, today: int): (r: seq<HistoryDay>)
    ensures r != []
  {
    var n := |days|;
    if n != 0 && days[n - 1].date == today then days
    else if n >= HISTORY_DAYS then days[n - 6..] + [HistoryDay(today, Unknown)]
    else days + [HistoryDay(today, Unknown)]
  }

  function Record(days: seq<HistoryDay>, status: Status, today: int): seq<HistoryDay> {
    if status == Unknown then days
    else
      var d := Opened(days, today);
      var last := |d| - 1;
      d[last := d[last].(status := Worse(d[last].status, status))]
  }

  /** The first critical entry of today at index i or later. */
  function CriticalAt(days: seq<HistoryDay>, today: int, i: nat): (r: nat)
    requires i <= |days|
    ensures i <= r <= |days|
    decreases |days| - i
  {
    if i == |days| || (days[i].date == today && days[i].status == Critical) then i
    else CriticalAt(days, today, i + 1)
  }

  /** The first critical entry of today becomes ok. */
  function Downgrade(days: seq<HistoryDay>, today: int): seq<HistoryDay> {
    var i := CriticalAt(days, today, 0);
    if i < |days| then days[i := days[i].(status := OK)] else days
  }

  /** What updateHistory does to the component. */
  function RecordComp(c: CompState, status: Status, now: Time): CompState {
    c.(days := Record(c.days, status, DayOf(now)))
  }

  /** What processResult does to the component. */
  function ProcessComp(c: CompState, status: Status, now: Time): CompState {
    var since := if status == Critical && c.since.None? then Some(now) else c.since;
    if c.prev.None? then CompState(Some(status), since, c.days)
    else if c.prev.value == status then CompState(c.prev, since, c.days)
    else
      var quick := c.prev.value == Critical && status == OK && since.Some? && now - since.value <= MIGRATION_THRESHOLD;
      CompState(Some(status), if status != Critical then None else since,
                if quick then Downgrade(c.days, DayOf(now)) else c.days)
  }

  function StepComp(c: CompState, status: Status, now: Time): CompState {
    ProcessComp(RecordComp(c, status, now), status, now)
  }

  /** The alert that a result raises. */
  function AlertComp(prev: Option<Status>, r: CheckResult): Option<PendingAlert> {
    match prev
    case None => if IsBad(r.status) then Some(PendingAlert(r, Unknown)) else None
    case Some(p) => if r.status == p then None else Some(PendingAlert(r, p))
  }

  function AddAlert(alerts: seq<PendingAlert>, a: Option<PendingAlert>): seq<PendingAlert> {
    match a
    case None => alerts
    case Some(x) => alerts + [x]
  }

  // ---- runs ----

  function RunComp(c: CompState, tr: seq<Sample>): CompState {
    if tr == [] then c
    else
      var n := |tr| - 1;
      StepComp(RunComp(c, tr[..n]), tr[n].result.status, tr[n].now)
  }

  function AlertsComp(c: CompState, tr: seq<Sample>): seq<PendingAlert> {
    if tr == [] then []
    else
      var n := |tr| - 1;
      AddAlert(AlertsComp(c, tr[..n]), AlertComp(RunComp(c, tr[..n]).prev, tr[n].result))
  }

  function Fresh(days: seq<HistoryDay>): CompState {
    CompState(None, None, days)
  }

  // ---- alerts are the transitions of the result stream ----

  /** The changes in a stream of results, told without any state: the first result counts as a change
      from unknown when it is bad. */
  function Transitions(tr: seq<Sample>): seq<PendingAlert> {
    if tr == [] then []
    else
      var n := |tr| - 1;
      var rest, r := Transitions(tr[..n]), tr[n].result;
      if n == 0 then if IsBad(r.status) then [PendingAlert(r, Unknown)] else []
      else if r.status != tr[n - 1].result.status then rest + [PendingAlert(r, tr[n - 1].result.status)]
      else rest
  }

  lemma {:induction false} PrevIsLast(days: seq<HistoryDay>, tr: seq<Sample>)
    ensures RunComp(Fresh(days), tr).prev == if tr == [] then None else Some(tr[|tr| - 1].result.status)
  {
    if tr != [] {
      PrevIsLast(days, tr[..|tr| - 1]);
    }
  }

  lemma {:induction false} AlertsAreTransitions(days: seq<HistoryDay>, tr: seq<Sample>)
    ensures AlertsComp(Fresh(days), tr) == Transitions(tr)
  {
    if tr != [] {
      AlertsAreTransitions(days, tr[..|tr| - 1]);
      PrevIsLast(days, tr[..|tr| - 1]);
    }
  }

  /** The first result of a component raises an alert exactly when it is warn or critical. */
  lemma FirstAlert(days: seq<HistoryDay>, x: Sample)
    ensures AlertsComp(Fresh(days), [x]) ==
            if x.result.status == Warn || x.result.status == Critical then [PendingAlert(x.result, Unknown)] else []
  {
    AlertsAreTransitions(days, [x]);
  }

  /** The stream of statuses without consecutive repeats. */
  function Changes(tr: seq<Sample>): seq<Status> {
    if tr == [] then []
    else
      var n := |tr| - 1;
      var s := tr[n].result.status;
      if n > 0 && tr[n - 1].result.status == s then Changes(tr[..n]) else Changes(tr[..n]) + [s]
  }

  /** The first change is silent when the first result is neither warn nor critical. */
  function Silent(tr: seq<Sample>): nat {
    if tr != [] && !IsBad(tr[0].result.status) then 1 else 0
  }

  /** The alerts a announce the changes c, leaving out the first k, and each names the status before. */
  predicate Announces(a: seq<PendingAlert>, c: seq<Status>, k: nat) {
    |a| + k == |c| &&
    forall i :: 0 <= i < |a| ==>
                  a[i].result.status == c[i + k] && a[i].prev == if i + k == 0 then Unknown else c[i + k - 1]
  }

  lemma AnnounceOne(a: seq<PendingAlert>, c: seq<Status>, k: nat, x: PendingAlert)
    requires Announces(a, c, k)
    requires x.prev == if c == [] then Unknown else c[|c| - 1]
    ensures Announces(a + [x], c + [x.result.status], k)
  {
  }

  /** The alerts are exactly the changes of status, each naming the status before it, and the last
      change is the status the scheduler remembers. */
  lemma {:induction false} TransitionsChain(tr: seq<Sample>)
    ensures Announces(Transitions(tr), Changes(tr), Silent(tr))
    ensures tr != [] ==> Changes(tr) != [] && Changes(tr)[|Changes(tr)| - 1] == tr[|tr| - 1].result.status
  {
    if tr != [] {
      var n := |tr| - 1;
      var a := tr[..n];
      TransitionsChain(a);
      if n == 0 {
        assert a == [];
      } else {
        assert a[0] == tr[0] && a[n - 1] == tr[n - 1];
        if tr[n].result.status != tr[n - 1].result.status {
          AnnounceOne(Transitions(a), Changes(a), Silent(a), PendingAlert(tr[n].result, tr[n - 1].result.status));
        }
      }
    }
  }

  // ---- critical runs ----

  /** The start of the unbroken run of critical results that ends at i. */
  function RunStart(tr: seq<Sample>, i: nat): (j: nat)
    requires i < |tr|
    ensures j <= i
  {
    if i > 0 && tr[i - 1].result.status == Critical then RunStart(tr, i - 1) else i
  }

  lemma {:induction false} RunStartIsStart(tr: seq<Sample>, i: nat)
    requires i < |tr| && tr[i].result.status == Critical
    ensures var j := RunStart(tr, i);
            (forall k :: j <= k <= i ==> tr[k].result.status == Critical) &&
            (j == 0 || tr[j - 1].result.status != Critical)
  {
    if i > 0 && tr[i - 1].result.status == Critical {
      RunStartIsStart(tr, i - 1);
    }
  }

  lemma {:induction false} RunStartPrefix(tr: seq<Sample>, n: nat, i: nat)
    requires i < n <= |tr|
    ensures RunStart(tr[..n], i) == RunStart(tr, i)
  {
    if i > 0 {
      RunStartPrefix(tr, n, i - 1);
    }
  }

  /** A component is tracked exactly while its last result is critical, since the first result of
      that unbroken run. */
  lemma {:induction false} SinceIsRunStart(days: seq<HistoryDay>, tr: seq<Sample>)
    ensures RunComp(Fresh(days), tr).since ==
            if tr != [] && tr[|tr| - 1].result.status == Critical then Some(tr[RunStart(tr, |tr| - 1)].now) else None
  {
    if tr != [] {
      var n := |tr| - 1;
      SinceIsRunStart(days, tr[..n]);
      PrevIsLast(days, tr[..n]);
      if n > 0 {
        RunStartPrefix(tr, n, n - 1);
      }
    }
  }

  // ---- history is the worst of what counts ----

  /** The recorded status of a day; unknown when there is none. */
  function StatusOn(days: seq<HistoryDay>, d: int): Status {
    if days == [] then Unknown
    else if days[|days| - 1].date == d then days[|days| - 1].status
    else StatusOn(days[..|days| - 1], d)
  }

  /** Sample i is a direct step from critical to ok at most 10 minutes after that critical run began. */
  predicate QuickRecovery(tr: seq<Sample>, i: nat)
    requires i < |tr|
  {
    i > 0 && tr[i].result.status == OK && tr[i - 1].result.status == Critical &&
    tr[i].now - tr[RunStart(tr, i - 1)].now <= MIGRATION_THRESHOLD
  }

  /** The statuses that count for day d: what was recorded before the run, then every known result of
      that day, starting over with ok at each quick recovery. */
  function Counting(days: seq<HistoryDay>, tr: seq<Sample>, d: int): seq<Status> {
    if tr == [] then if StatusOn(days, d) == Unknown then [] else [StatusOn(days, d)]
    else
      var n := |tr| - 1;
      var rest := Counting(days, tr[..n], d);
      if DayOf(tr[n].now) != d || tr[n].result.status == Unknown then rest
      else if QuickRecovery(tr, n) then [OK]
      else rest + [tr[n].result.status]
  }

  function Worst(s: seq<Status>): Status {
    if s == [] then Unknown else Worse(Worst(s[..|s| - 1]), s[|s| - 1])
  }

  lemma {:induction false} WorstIsMaximal(s: seq<Status>)
    ensures forall i :: 0 <= i < |s| ==> Priority(s[i]) <= Priority(Worst(s))
    ensures Worst(s) == Unknown || Worst(s) in s
  {
    if s != [] {
      WorstIsMaximal(s[..|s| - 1]);
    }
  }

  /** r is the worse of a and b, by name. */
  predicate IsWorse(a: Status, b: Status, r: Status) {
    && (r == Critical <==> a == Critical || b == Critical)
    && (r == Warn <==> a != Critical && b != Critical && (a == Warn || b == Warn))
    && (r == Unknown <==> a == Unknown && b == Unknown)
  }

  lemma WorseNamed(a: Status, b: Status)
    ensures IsWorse(a, b, Worse(a, b))
  {
  }

  /** Critical if there is one; else warn if there is one; else ok if there is one; else unknown. */
  predicate IsWorstOf(s: seq<Status>, r: Status) {
    && (r == Critical <==> Critical in s)
    && (r == Warn <==> Critical !in s && Warn in s)
    && (r == OK <==> Critical !in s && Warn !in s && OK in s)
    && (r == Unknown <==> forall i :: 0 <= i < |s| ==> s[i] == Unknown)
  }

  lemma {:induction false} WorstNamed(s: seq<Status>)
    ensures IsWorstOf(s, Worst(s))
  {
    hide Worse;
    if s != [] {
      var a, x := s[..|s| - 1], s[|s| - 1];
      WorstNamed(a);
      WorseNamed(Worst(a), x);
      assert s == a + [x];
    }
  }

  /** Only known statuses count. */
  lemma {:induction false} CountingKnown(days: seq<HistoryDay>, tr: seq<Sample>, d: int)
    ensures Unknown !in Counting(days, tr, d)
  {
    if tr != [] {
      CountingKnown(days, tr[..|tr| - 1], d);
    }
  }

  lemma WorstSnoc(s: seq<Status>, x: Status)
    ensures Worst(s + [x]) == Worse(Worst(s), x)
  {
    assert (s + [x])[..|s|] == s;
  }

  /** Dates increase strictly, at most 7 of them, none later than today, none unknown. */
  predicate Orderly(days: seq<HistoryDay>, today: int) {
    |days| <= HISTORY_DAYS && Increasing(days) && (days != [] ==> days[|days| - 1].date <= today)
  }

  predicate Increasing(days: seq<HistoryDay>) {
    var n := |days|;
    n == 0 ||
    (Increasing(days[..n - 1]) && days[n - 1].status != Unknown && (n == 1 || days[n - 2].date < days[n - 1].date))
  }

  lemma {:induction false} IncreasingMeans(days: seq<HistoryDay>)
    requires Increasing(days)
    ensures forall i :: 0 <= i < |days| ==> days[i].status != Unknown
    ensures forall i, j :: 0 <= i < j < |days| ==> days[i].date < days[j].date
  {
    var n := |days|;
    if n > 0 {
      IncreasingMeans(days[..n - 1]);
    }
  }
}
