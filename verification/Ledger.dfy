/** The simple aggregate behind the buffer: one history per live key, in order of insertion,
    each history listing every operation folded into that key since it was inserted. */
module Ledger {
  import opened Clock
  import opened LogModel

  type History = h: seq<Op> | h != [] witness [Event(LogEntry(0, 0, "", "", "", "", "", 0))]

  datatype Timed = Timed(op: Op, now: Time)

  /** The buffer, its ledger, and what a run has dropped; loads counts the entries inserted from
      disk since the last prune. */
  datatype World = World(buf: Buf, ledger: seq<History>, dropped: seq<LogEntry>, loads: nat)

  function KeyOfHistory(h: History): AggKey {
    OpKey(h[0])
  }

  /** The entry that a history adds up to. */
  function Summary(h: History): LogEntry {
    var n := |h| - 1;
    if n == 0 then First(h[0]) else Merge(Summary(h[..n]), h[n])
  }

  function Summaries(l: seq<History>): (r: seq<LogEntry>) {
    if l == [] then [] else Summaries(l[..|l| - 1]) + [Summary(l[|l| - 1])]
  }

  function Extend(h: History, op: Op): History {
    if KeyOfHistory(h) == OpKey(op) then h + [op] else h
  }

  function ExtendAll(l: seq<History>, op: Op): seq<History> {
    if l == [] then [] else ExtendAll(l[..|l| - 1], op) + [Extend(l[|l| - 1], op)]
  }

  /** op joins the history of its key, or starts one at the end. */
  function Record(l: seq<History>, op: Op): seq<History> {
    if HasKey(Summaries(l), OpKey(op)) then ExtendAll(l, op) else l + [[op]]
  }

  /** Only the histories of the keys in s live on. */
  function Surviving(l: seq<History>, s: seq<LogEntry>): seq<History> {
    if l == [] then []
    else
      var rest := Surviving(l[..|l| - 1], s);
      if HasKey(s, KeyOfHistory(l[|l| - 1])) then rest + [l[|l| - 1]] else rest
  }

  function Advance(cfg: Config, w: World, t: Timed): World {
    var before := Fed(w.buf.entries, t.op);
    var buf := Step(cfg, w.buf, t.op, t.now);
    if Prunes(w.buf, t.op) then
      World(buf, Surviving(Record(w.ledger, t.op), buf.entries),
            w.dropped + before[..DropCount(cfg, before, t.now)], 0)
    else
      World(buf, Record(w.ledger, t.op), w.dropped,
            w.loads + if t.op.Bulk? && |before| > |w.buf.entries| then 1 else 0)
  }

  /** The state after a run, starting from the empty buffer. */
  function Run(cfg: Config, ts: seq<Timed>): World {
    if ts == [] then World(EMPTY, [], [], 0)
    else Advance(cfg, Run(cfg, ts[..|ts| - 1]), ts[|ts| - 1])
  }

  // ---- what a history means ----

  lemma {:induction false} SummaryKeeps(h: History)
    ensures KeyOf(Summary(h)) == KeyOfHistory(h)
    ensures Summary(h).timestamp == h[0].e.timestamp
  {
    var n := |h| - 1;
    MergeKeeps(First(h[0]), h[0]);
    if n > 0 {
      SummaryKeeps(h[..n]);
    }
  }

  /** How much an operation counts for. */
  function Weight(op: Op): int {
    match op
    case Event(_) => 1
    case Bulk(e) => Normalise(e).count
  }

  function TotalWeight(h: seq<Op>): int {
    if h == [] then 0 else TotalWeight(h[..|h| - 1]) + Weight(h[|h| - 1])
  }

  /** The time an operation says its key was last seen. */
  function SeenAt(op: Op): Time {
    match op
    case Event(e) => e.timestamp
    case Bulk(e) => Normalise(e).lastSeen
  }

  /** An operation can set the severity when it is an event or it inserted the key. */
  predicate Grades(h: History, i: nat)
    requires i < |h|
  {
    i == 0 || h[i].Event?
  }

  /** Operation i is worse than everything before it that could set the severity. */
  predicate SetsRecord(h: History, i: nat)
    requires i < |h|
  {
    Grades(h, i) && forall j :: 0 <= j < i && Grades(h, j) ==> Rank(h[j].e) < Rank(h[i].e)
  }

  ghost predicate IsLatest(h: History, t: Time) {
    && (forall i :: 0 <= i < |h| ==> SeenAt(h[i]) <= t)
    && (exists i :: 0 <= i < |h| && SeenAt(h[i]) == t)
  }

  /** severity and line come from the first operation that reached the worst severity. */
  ghost predicate IsWorst(h: History, severity: string, line: string) {
    && (forall i :: 0 <= i < |h| && Grades(h, i) ==> Rank(h[i].e) <= SeverityRank(severity))
    && (exists i :: 0 <= i < |h| && SetsRecord(h, i) && severity == h[i].e.severity && line == h[i].e.line)
  }

  /** Operation i brought the advice, and no later record-setting operation brought any. */
  predicate AdvisedBy(h: History, mitigation: string, i: nat)
    requires i < |h|
  {
    && SetsRecord(h, i) && mitigation == h[i].e.mitigation && (i == 0 || mitigation != "")
    && forall j :: i < j < |h| && SetsRecord(h, j) ==> h[j].e.mitigation == ""
  }

  /** The advice comes from the last record-setting operation that brought any. */
  ghost predicate IsLastAdvice(h: History, mitigation: string) {
    exists i :: 0 <= i < |h| && AdvisedBy(h, mitigation, i)
  }

  /** e is the exact account of the history h. */
  ghost predicate Accounts(h: History, e: LogEntry) {
    && e.timestamp == h[0].e.timestamp && e.title == h[0].e.title && e.source == h[0].e.source
    && e.count == TotalWeight(h)
    && IsLatest(h, e.lastSeen)
    && IsWorst(h, e.severity, e.line)
    && IsLastAdvice(h, e.mitigation)
  }

  lemma SummaryAccounts(h: History)
    ensures Accounts(h, Summary(h))
  {
    SummaryCounts(h);
    SummaryLatest(h);
    SummaryWorst(h);
    SummaryAdvice(h);
  }

  /** Nothing fed for the key was more severe than the entry shows. */
  ghost predicate ShowsWorst(h: History, e: LogEntry) {
    forall i :: 0 <= i < |h| ==> Rank(h[i].e) <= Rank(e)
  }

  /** Every entry read back later is matched in severity by an event, or by the operation that inserted the key. */
  ghost predicate LoadsMatched(h: History) {
    forall i :: 0 < i < |h| && h[i].Bulk? ==>
                  exists j :: 0 <= j < |h| && Grades(h, j) && Rank(h[i].e) <= Rank(h[j].e)
  }

  /** An entry shows the worst severity of everything fed for its key exactly when no entry read back
      into it outranks all its events and the operation that inserted it. */
  lemma ShowsWorstExactly(h: History, e: LogEntry)
    requires Accounts(h, e)
    ensures ShowsWorst(h, e) <==> LoadsMatched(h)
  {
    var k :| 0 <= k < |h| && SetsRecord(h, k) && e.severity == h[k].e.severity && e.line == h[k].e.line;
    assert Grades(h, k) && Rank(h[k].e) == Rank(e);
    if LoadsMatched(h) {
      forall i | 0 <= i < |h|
        ensures Rank(h[i].e) <= Rank(e)
      {
        if !Grades(h, i) {
          var j :| 0 <= j < |h| && Grades(h, j) && Rank(h[i].e) <= Rank(h[j].e);
        }
      }
    }
  }

  lemma {:induction false} SummaryCounts(h: History)
    ensures var e := Summary(h);
            e.timestamp == h[0].e.timestamp && e.title == h[0].e.title && e.source == h[0].e.source &&
            e.count == TotalWeight(h)
  {
    var n := |h| - 1;
    if n == 0 {
      assert h[..0] == [];
    } else {
      SummaryCounts(h[..n]);
    }
  }

  lemma SummarySnoc(h: History, g: History)
    requires |h| > 1 && g == h[..|h| - 1]
    ensures Summary(h) == Merge(Summary(g), h[|h| - 1])
  {
  }

  lemma LatestStep(h: History, g: History, x: LogEntry)
    requires |h| > 1 && g == h[..|h| - 1] && IsLatest(g, x.lastSeen)
    ensures IsLatest(h, Merge(x, h[|h| - 1]).lastSeen)
  {
    hide KeyOf;
    var n := |h| - 1;
    assert Merge(x, h[n]).lastSeen == Max(x.lastSeen, SeenAt(h[n]));
    assert forall j :: 0 <= j < n ==> h[j] == g[j];
    var i :| 0 <= i < n && SeenAt(g[i]) == x.lastSeen;
    assert SeenAt(h[i]) == x.lastSeen;
  }

  lemma {:induction false} SummaryLatest(h: History)
    ensures IsLatest(h, Summary(h).lastSeen)
  {
    var n := |h| - 1;
    if n == 0 {
      assert SeenAt(h[0]) == Summary(h).lastSeen;
    } else {
      hide Summary, IsLatest, Merge;
      var g: History := h[..n];
      SummaryLatest(g);
      SummarySnoc(h, g);
      LatestStep(h, g, Summary(g));
    }
  }

  lemma RecordsExtend(h: History, g: History, k: nat)
    requires |h| > 1 && g == h[..|h| - 1] && k < |g|
    ensures SetsRecord(h, k) <==> SetsRecord(g, k)
  {
    assert forall j :: 0 <= j <= k ==> h[j] == g[j] && (Grades(h, j) <==> Grades(g, j));
  }

  /** The newest operation sets a record exactly when it is an event worse than the summary so far. */
  lemma LastRecord(h: History, g: History)
    requires |h| > 1 && g == h[..|h| - 1]
    ensures SetsRecord(h, |h| - 1) <==> h[|h| - 1].Event? && Rank(h[|h| - 1].e) > Rank(Summary(g))
  {
    SummaryWorst(g);
    var e := Summary(g);
    assert forall j :: 0 <= j < |g| ==> h[j] == g[j] && (Grades(h, j) <==> Grades(g, j));
    var k :| 0 <= k < |g| && SetsRecord(g, k) && e.severity == g[k].e.severity;
    assert Grades(h, k) && Rank(h[k].e) == Rank(e);
  }

  lemma WorstStep(h: History, g: History, x: LogEntry)
    requires |h| > 1 && g == h[..|h| - 1] && IsWorst(g, x.severity, x.line)
    ensures var y := Merge(x, h[|h| - 1]); IsWorst(h, y.severity, y.line)
  {
    hide KeyOf, SeverityRank;
    var n := |h| - 1;
    var k :| 0 <= k < n && SetsRecord(g, k) && x.severity == g[k].e.severity && x.line == g[k].e.line;
    RecordsExtend(h, g, k);
    assert forall j :: 0 <= j < n ==> h[j] == g[j] && (Grades(h, j) <==> Grades(g, j));
    if h[n].Event? && Rank(h[n].e) > Rank(x) {
      assert SetsRecord(h, n);
    } else {
      assert SetsRecord(h, k) && x.severity == h[k].e.severity && x.line == h[k].e.line;
    }
  }

  lemma {:induction false} SummaryWorst(h: History)
    ensures IsWorst(h, Summary(h).severity, Summary(h).line)
    decreases |h|, 0
  {
    var n := |h| - 1;
    if n == 0 {
      assert SetsRecord(h, 0);
    } else {
      hide Summary, IsWorst, Merge;
      var g: History := h[..n];
      SummaryWorst(g);
      SummarySnoc(h, g);
      WorstStep(h, g, Summary(g));
    }
  }

  lemma AdviceKept(h: History, g: History, mitigation: string, k: nat)
    requires |h| > 1 && g == h[..|h| - 1] && k < |g|
    requires AdvisedBy(g, mitigation, k)
    requires SetsRecord(h, |g|) ==> h[|g|].e.mitigation == ""
    ensures AdvisedBy(h, mitigation, k)
  {
    forall j | k <= j < |g|
      ensures SetsRecord(h, j) <==> SetsRecord(g, j)
    {
      RecordsExtend(h, g, j);
    }
  }

  lemma NewAdvice(h: History, mitigation: string)
    requires SetsRecord(h, |h| - 1) && mitigation == h[|h| - 1].e.mitigation && (|h| == 1 || mitigation != "")
    ensures AdvisedBy(h, mitigation, |h| - 1)
  {
  }

  lemma FirstSetsRecord(h: History)
    ensures SetsRecord(h, 0)
  {
  }

  lemma {:induction false} SummaryAdvice(h: History)
    ensures IsLastAdvice(h, Summary(h).mitigation)
  {
    hide KeyOf, SeverityRank, SetsRecord, AdvisedBy;
    var n := |h| - 1;
    if n == 0 {
      FirstSetsRecord(h);
      NewAdvice(h, Summary(h).mitigation);
    } else {
      hide Summary;
      var g: History := h[..n];
      SummaryAdvice(g);
      LastRecord(h, g);
      SummarySnoc(h, g);
      var k :| 0 <= k < n && AdvisedBy(g, Summary(g).mitigation, k);
      if SetsRecord(h, n) && h[n].e.mitigation != "" {
        NewAdvice(h, Summary(h).mitigation);
      } else {
        AdviceKept(h, g, Summary(g).mitigation, k);
      }
    }
  }

  // ---- severities by name ----

  /** An event, or the operation that inserted the key, had this severity. */
  predicate Had(h: seq<Op>, severity: string) {
    exists i :: 0 <= i < |h| && (i == 0 || h[i].Event?) && h[i].e.severity == severity
  }

  /** The worst of error, warn and info that was had, or the severity of the first operation when none was. */
  predicate NamesWorst(h: History, severity: string) {
    && (severity == "error" <==> Had(h, "error"))
    && (severity == "warn" <==> !Had(h, "error") && Had(h, "warn"))
    && (severity == "info" <==> !Had(h, "error") && !Had(h, "warn") && Had(h, "info"))
    && (!Had(h, "error") && !Had(h, "warn") && !Had(h, "info") ==> severity == h[0].e.severity)
  }

  /** The line of the first event, or inserting operation, with that severity. */
  predicate FirstLine(h: History, severity: string, line: string) {
    exists k :: 0 <= k < |h| && (k == 0 || h[k].Event?) && h[k].e.severity == severity && h[k].e.line == line &&
                forall j :: 0 <= j < k && (j == 0 || h[j].Event?) ==> h[j].e.severity != severity
  }

  /** The severity shown is the worst of those that count, by name, with the line that first had it. */
  lemma SeverityNamed(h: History, severity: string, line: string)
    requires IsWorst(h, severity, line)
    ensures NamesWorst(h, severity) && FirstLine(h, severity, line)
  {
    hide SeverityRank;
    var k :| 0 <= k < |h| && SetsRecord(h, k) && severity == h[k].e.severity && line == h[k].e.line;
    RanksNamed(severity);
    RanksNamed(h[0].e.severity);
    forall i | 0 <= i < |h|
      ensures SeverityRank(h[i].e.severity) == 3 <==> h[i].e.severity == "error"
      ensures SeverityRank(h[i].e.severity) == 2 <==> h[i].e.severity == "warn"
      ensures SeverityRank(h[i].e.severity) == 1 <==> h[i].e.severity == "info"
      ensures SeverityRank(h[i].e.severity) <= 3
    {
      RanksNamed(h[i].e.severity);
    }
    assert Grades(h, k) && Had(h, severity);
    assert Grades(h, 0);
    forall s | s in {"error", "warn", "info"} && Had(h, s)
      ensures SeverityRank(s) <= SeverityRank(severity)
    {
      var i :| 0 <= i < |h| && (i == 0 || h[i].Event?) && h[i].e.severity == s;
      assert Grades(h, i);
    }
    RanksNamed("error");
    RanksNamed("warn");
    RanksNamed("info");
    forall j | 0 <= j < k && (j == 0 || h[j].Event?)
      ensures h[j].e.severity != severity
    {
      assert Grades(h, j);
    }
  }
}
