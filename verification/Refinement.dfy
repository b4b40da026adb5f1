/** Over every run, the buffer is the stable sort of the summaries of its ledger. */
module Refinement {
  import opened Clock
  import opened LogModel
  import opened StableSort
  import opened Ledger
  import opened Sequences

  lemma SummaryExtend(h: History, op: Op)
    ensures Summary(Extend(h, op)) == MergeIfSame(Summary(h), op)
    ensures KeyOfHistory(Extend(h, op)) == KeyOfHistory(h)
  {
    SummaryKeeps(h);
    Snoc(h, op);
  }

  lemma SummariesSnoc(l: seq<History>, h: History)
    ensures Summaries(l + [h]) == Summaries(l) + [Summary(h)]
  {
    Snoc(l, h);
  }

  lemma {:induction false} SummariesExtend(l: seq<History>, op: Op)
    ensures Summaries(ExtendAll(l, op)) == Merged(Summaries(l), op)
  {
    if l != [] {
      var a, h := l[..|l| - 1], l[|l| - 1];
      SummariesExtend(a, op);
      SummaryExtend(h, op);
      SummariesSnoc(ExtendAll(a, op), Extend(h, op));
      MergedSnoc(Summaries(a), Summary(h), op);
    }
  }

  lemma {:induction false} SummariesSurviving(l: seq<History>, t: seq<LogEntry>)
    ensures Summaries(Surviving(l, t)) == Retain(Summaries(l), t)
  {
    if l != [] {
      var a, h := l[..|l| - 1], l[|l| - 1];
      SummariesSurviving(a, t);
      SummaryKeeps(h);
      SummariesSnoc(Surviving(a, t), h);
      RetainSnoc(Summaries(a), Summary(h), t);
    }
  }

  /** The buffer is the stable sort of the summaries, and no key has two histories. */
  ghost predicate Refines(s: seq<LogEntry>, l: seq<History>) {
    s == SortByTime(Summaries(l)) && DistinctKeys(Summaries(l))
  }

  lemma RefinesWellFormed(s: seq<LogEntry>, l: seq<History>)
    requires Refines(s, l)
    ensures WellFormed(s)
    ensures forall k :: HasKey(s, k) <==> HasKey(Summaries(l), k)
  {
    SortSorted(Summaries(l));
    SortDistinct(Summaries(l));
    forall k
      ensures HasKey(s, k) <==> HasKey(Summaries(l), k)
    {
      SortHasKey(Summaries(l), k);
    }
  }

  lemma RecordRefines(s: seq<LogEntry>, l: seq<History>, op: Op)
    requires Refines(s, l)
    ensures Refines(Fed(s, op), Record(l, op))
  {
    var t := Summaries(l);
    SortHasKey(t, OpKey(op));
    if HasKey(t, OpKey(op)) {
      SummariesExtend(l, op);
      SortMerged(t, op);
      MergedWellFormed(t, op);
    } else {
      var h: History := [op];
      SummariesSnoc(l, h);
      SortSnoc(t, First(op));
      MergeKeeps(First(op), op);
      DistinctSnoc(t, First(op));
    }
  }

  lemma DistinctSnoc(s: seq<LogEntry>, x: LogEntry)
    ensures DistinctKeys(s + [x]) <==> DistinctKeys(s) && !HasKey(s, KeyOf(x))
  {
    Snoc(s, x);
  }

  lemma HasKeySnoc(s: seq<LogEntry>, x: LogEntry, k: AggKey)
    ensures HasKey(s + [x], k) <==> HasKey(s, k) || KeyOf(x) == k
  {
    Snoc(s, x);
  }

  lemma {:induction false} RetainHasKey(s: seq<LogEntry>, t: seq<LogEntry>, k: AggKey)
    ensures HasKey(Retain(s, t), k) <==> HasKey(s, k) && HasKey(t, k)
  {
    if s != [] {
      RetainHasKey(s[..|s| - 1], t, k);
      HasKeySnoc(Retain(s[..|s| - 1], t), s[|s| - 1], k);
    }
  }

  lemma {:induction false} RetainDistinct(s: seq<LogEntry>, t: seq<LogEntry>)
    requires DistinctKeys(s)
    ensures DistinctKeys(Retain(s, t))
  {
    if s != [] {
      var a, x := s[..|s| - 1], s[|s| - 1];
      RetainDistinct(a, t);
      RetainHasKey(a, t, KeyOf(x));
      DistinctSnoc(Retain(a, t), x);
    }
  }

  /** Dropping a prefix of the buffer is dropping histories from the ledger. */
  lemma DropRefines(s: seq<LogEntry>, l: seq<History>, d: nat, t: seq<LogEntry>)
    requires Refines(s, l) && d <= |s| && t == s[d..]
    ensures Refines(t, Surviving(l, t))
  {
    RefinesWellFormed(s, l);
    SummariesSurviving(l, t);
    SortRetain(Summaries(l), t);
    RetainSuffix(s, d, t);
    RetainDistinct(Summaries(l), t);
  }

  lemma {:induction false} AdvanceRefines(cfg: Config, w: World, t: Timed)
    requires Refines(w.buf.entries, w.ledger)
    ensures var w' := Advance(cfg, w, t); Refines(w'.buf.entries, w'.ledger)
  {
    RecordRefines(w.buf.entries, w.ledger, t.op);
    if Prunes(w.buf, t.op) {
      var s := Fed(w.buf.entries, t.op);
      var d := DropCount(cfg, s, t.now);
      RefinesWellFormed(s, Record(w.ledger, t.op));
      KeptIsSuffix(cfg, s, t.now, d);
      DropRefines(s, Record(w.ledger, t.op), d, Kept(cfg, s, t.now));
    }
  }

  /** Every run, in any order of timestamps, keeps the buffer the stable sort of the summaries. */
  lemma {:induction false} RunRefines(cfg: Config, ts: seq<Timed>)
    ensures var w := Run(cfg, ts); Refines(w.buf.entries, w.ledger)
  {
    if ts != [] {
      RunRefines(cfg, ts[..|ts| - 1]);
      AdvanceRefines(cfg, Run(cfg, ts[..|ts| - 1]), ts[|ts| - 1]);
    }
  }

  // ---- what the ledger holds ----

  /** The operations of key k since k was last dropped, told from the run alone. */
  function LiveOps(cfg: Config, ts: seq<Timed>, k: AggKey): seq<Op> {
    if ts == [] then []
    else
      var n := |ts| - 1;
      var ops := LiveOps(cfg, ts[..n], k);
      if !HasKey(Run(cfg, ts).buf.entries, k) then []
      else if OpKey(ts[n].op) == k then ops + [ts[n].op] else ops
  }

  /** The history of key k, or nothing. */
  function Lookup(l: seq<History>, k: AggKey): seq<Op> {
    if l == [] then []
    else if KeyOfHistory(l[|l| - 1]) == k then l[|l| - 1]
    else Lookup(l[..|l| - 1], k)
  }

  lemma LookupSnoc(l: seq<History>, h: History, k: AggKey)
    ensures Lookup(l + [h], k) == if KeyOfHistory(h) == k then h else Lookup(l, k)
  {
    Snoc(l, h);
  }

  lemma {:induction false} LookupFinds(l: seq<History>, k: AggKey)
    ensures Lookup(l, k) != [] <==> HasKey(Summaries(l), k)
  {
    if l != [] {
      var a, h := l[..|l| - 1], l[|l| - 1];
      LookupFinds(a, k);
      SummaryKeeps(h);
      HasKeySnoc(Summaries(a), Summary(h), k);
    }
  }

  lemma {:induction false} LookupExtend(l: seq<History>, op: Op, k: AggKey)
    ensures Lookup(ExtendAll(l, op), k) ==
            if OpKey(op) == k && Lookup(l, k) != [] then Lookup(l, k) + [op] else Lookup(l, k)
  {
    if l != [] {
      var a, h := l[..|l| - 1], l[|l| - 1];
      LookupExtend(a, op, k);
      SummaryExtend(h, op);
      LookupSnoc(ExtendAll(a, op), Extend(h, op), k);
    }
  }

  lemma {:induction false} LookupSurviving(l: seq<History>, t: seq<LogEntry>, k: AggKey)
    ensures Lookup(Surviving(l, t), k) == if HasKey(t, k) then Lookup(l, k) else []
  {
    if l != [] {
      var a, h := l[..|l| - 1], l[|l| - 1];
      LookupSurviving(a, t, k);
      LookupSnoc(Surviving(a, t), h, k);
    }
  }

  lemma LookupRecord(l: seq<History>, op: Op, k: AggKey)
    ensures Lookup(Record(l, op), k) == if OpKey(op) == k then Lookup(l, k) + [op] else Lookup(l, k)
  {
    LookupFinds(l, OpKey(op));
    if HasKey(Summaries(l), OpKey(op)) {
      LookupExtend(l, op, k);
    } else {
      LookupSnoc(l, [op], k);
    }
  }

  /** The ledger's history of a key is exactly its operations since it was inserted. */
  lemma {:induction false} LedgerIsLive(cfg: Config, ts: seq<Timed>, k: AggKey)
    ensures Lookup(Run(cfg, ts).ledger, k) == LiveOps(cfg, ts, k)
  {
    if ts != [] {
      var n := |ts| - 1;
      var w, t := Run(cfg, ts[..n]), ts[n];
      var w' := Run(cfg, ts);
      LedgerIsLive(cfg, ts[..n], k);
      LookupRecord(w.ledger, t.op, k);
      RunRefines(cfg, ts);
      RefinesWellFormed(w'.buf.entries, w'.ledger);
      LookupFinds(w'.ledger, k);
      if Prunes(w.buf, t.op) {
        LookupSurviving(Record(w.ledger, t.op), w'.buf.entries, k);
      }
    }
  }

  lemma {:induction false} SummaryInLedger(l: seq<History>, e: LogEntry)
    requires DistinctKeys(Summaries(l)) && e in Summaries(l)
    ensures Lookup(l, KeyOf(e)) != [] && e == Summary(Lookup(l, KeyOf(e)))
  {
    var a, h := l[..|l| - 1], l[|l| - 1];
    SummaryKeeps(h);
    if e != Summary(h) {
      SummaryInLedger(a, e);
      HasKeyMeans(Summaries(a), KeyOf(e));
      DistinctSnoc(Summaries(a), Summary(h));
    }
  }

  /** The main refinement: in every reachable state, an entry is the exact account of the operations
      fed for its key since that key was inserted. */
  lemma EntryAccountsForItsEvents(cfg: Config, ts: seq<Timed>, i: nat)
    requires i < |Run(cfg, ts).buf.entries|
    ensures var e := Run(cfg, ts).buf.entries[i];
            var live := LiveOps(cfg, ts, KeyOf(e));
            live != [] && Accounts(live, e)
  {
    var w := Run(cfg, ts);
    var e := w.buf.entries[i];
    RunRefines(cfg, ts);
    SortMembers(Summaries(w.ledger));
    assert e in multiset(w.buf.entries);
    assert e in Summaries(w.ledger);
    SummaryInLedger(w.ledger, e);
    LedgerIsLive(cfg, ts, KeyOf(e));
    SummaryAccounts(Lookup(w.ledger, KeyOf(e)));
  }

  /** A key that is not in the buffer has nothing live. */
  lemma NothingElseIsLive(cfg: Config, ts: seq<Timed>, k: AggKey)
    ensures LiveOps(cfg, ts, k) != [] <==> HasKey(Run(cfg, ts).buf.entries, k)
  {
    LedgerIsLive(cfg, ts, k);
    LookupFinds(Run(cfg, ts).ledger, k);
    RunRefines(cfg, ts);
    RefinesWellFormed(Run(cfg, ts).buf.entries, Run(cfg, ts).ledger);
  }

  /** For a history of events the count is their number. */
  lemma {:induction false} EventsCountThemselves(h: seq<Op>)
    requires forall i :: 0 <= i < |h| ==> h[i].Event?
    ensures TotalWeight(h) == |h|
  {
    if h != [] {
      EventsCountThemselves(h[..|h| - 1]);
    }
  }

  /** In every reachable buffer an entry shows error if and only if an event of its key, or the operation that
      inserted it, was an error; warn if and only if none was an error and one a warning; and so on; its line is
      that of the first with the severity shown. */
  lemma EntrySeverity(cfg: Config, ts: seq<Timed>, i: nat)
    requires i < |Run(cfg, ts).buf.entries|
    ensures var e := Run(cfg, ts).buf.entries[i];
            var live := LiveOps(cfg, ts, KeyOf(e));
            live != [] && NamesWorst(live, e.severity) && FirstLine(live, e.severity, e.line)
  {
    hide Run, LiveOps, KeyOf, NamesWorst, FirstLine, IsWorst, IsLatest, IsLastAdvice;
    var e := Run(cfg, ts).buf.entries[i];
    EntryAccountsForItsEvents(cfg, ts, i);
    SeverityNamed(LiveOps(cfg, ts, KeyOf(e)), e.severity, e.line);
  }

  /** For an entry that events alone built. */
  lemma EventSeverity(cfg: Config, ts: seq<Timed>, i: nat)
    requires i < |Run(cfg, ts).buf.entries|
    requires var live := LiveOps(cfg, ts, KeyOf(Run(cfg, ts).buf.entries[i]));
             forall j :: 0 <= j < |live| ==> live[j].Event?
    ensures var e := Run(cfg, ts).buf.entries[i];
            var live := LiveOps(cfg, ts, KeyOf(e));
            var error := exists j :: 0 <= j < |live| && live[j].e.severity == "error";
            var warn := exists j :: 0 <= j < |live| && live[j].e.severity == "warn";
            var info := exists j :: 0 <= j < |live| && live[j].e.severity == "info";
            && (e.severity == "error" <==> error)
            && (e.severity == "warn" <==> !error && warn)
            && (e.severity == "info" <==> !error && !warn && info)
            && exists k :: 0 <= k < |live| && live[k].e.severity == e.severity && live[k].e.line == e.line &&
                           forall j :: 0 <= j < k ==> live[j].e.severity != e.severity
  {
    hide Run, LiveOps, KeyOf;
    EntrySeverity(cfg, ts, i);
    var e := Run(cfg, ts).buf.entries[i];
    HadByEvents(LiveOps(cfg, ts, KeyOf(e)), e.severity, e.line);
  }

  lemma HadByEvents(h: History, severity: string, line: string)
    requires (forall j :: 0 <= j < |h| ==> h[j].Event?) && FirstLine(h, severity, line)
    ensures forall s :: Had(h, s) <==> exists j :: 0 <= j < |h| && h[j].e.severity == s
    ensures exists k :: 0 <= k < |h| && h[k].e.severity == severity && h[k].e.line == line &&
                        forall j :: 0 <= j < k ==> h[j].e.severity != severity
  {
    forall s
      ensures Had(h, s) <==> exists j :: 0 <= j < |h| && h[j].e.severity == s
    {
      if j :| 0 <= j < |h| && h[j].e.severity == s {
        assert j == 0 || h[j].Event?;
      }
    }
  }

  /** In every reachable buffer an entry shows the worst severity fed for its key exactly when no entry
      read back into it outranks its events and the operation that inserted it. */
  lemma SeverityIsWorstExactly(cfg: Config, ts: seq<Timed>, i: nat)
    requires i < |Run(cfg, ts).buf.entries|
    ensures var e := Run(cfg, ts).buf.entries[i];
            var live := LiveOps(cfg, ts, KeyOf(e));
            live != [] && (ShowsWorst(live, e) <==> LoadsMatched(live))
  {
    hide Accounts, ShowsWorst, LoadsMatched, Run, LiveOps;
    EntryAccountsForItsEvents(cfg, ts, i);
    ShowsWorstExactly(LiveOps(cfg, ts, KeyOf(Run(cfg, ts).buf.entries[i])), Run(cfg, ts).buf.entries[i]);
  }

  /** A day file that holds one key twice, as files from before aggregation do: an error read back after a warning
      stays hidden behind it. */
  lemma LoadedErrorIsHidden(cfg: Config, e: LogEntry)
    requires e.severity == "warn"
    ensures var ts := [Timed(Bulk(e), 0), Timed(Bulk(e.(severity := "error")), 0)];
            |Run(cfg, ts).buf.entries| == 1 && Run(cfg, ts).buf.entries[0].severity == "warn"
  {
    var x := e.(severity := "error");
    var t0, t1 := Timed(Bulk(e), 0), Timed(Bulk(x), 0);
    assert [t0, t1][..1] == [t0] && [t0][..0] == [];
    assert KeyOf(e) == KeyOf(x) == KeyOf(Normalise(e));
    assert Run(cfg, [t0]).buf.entries == [Normalise(e)];
    assert Run(cfg, [t0, t1]).buf.entries == Merged([Normalise(e)], Bulk(x));
  }

  // ---- which operations share an entry ----

  /** From the epoch on: the same quarter of an hour. */
  predicate SameQuarter(t: int, u: int) {
    t / 900_000_000_000 == u / 900_000_000_000
  }

  lemma QuarterIsBucket(t: int, u: int)
    requires 0 <= t && 0 <= u
    ensures BucketStart(t) == BucketStart(u) <==> SameQuarter(t, u)
  {
    BucketIsIndexed(t);
    BucketIsIndexed(u);
    QuarterOf(t);
    QuarterOf(u);
  }

  lemma QuarterOf(t: nat)
    ensures Unix(t) / 900 == t / 900_000_000_000
  {
  }

  lemma {:induction false} LiveOpsHaveKey(cfg: Config, ts: seq<Timed>, k: AggKey, j: nat)
    requires j < |LiveOps(cfg, ts, k)|
    ensures OpKey(LiveOps(cfg, ts, k)[j]) == k
  {
    hide Run;
    var n := |ts| - 1;
    if j < |LiveOps(cfg, ts[..n], k)| {
      LiveOpsHaveKey(cfg, ts[..n], k, j);
    }
  }

  /** Nothing else shares an entry: in every reachable buffer whatever an entry counts has its title and source and,
      from the epoch on, is of the same quarter of an hour. */
  lemma SharesEntry(cfg: Config, ts: seq<Timed>, i: nat, j: nat)
    requires i < |Run(cfg, ts).buf.entries|
    requires j < |LiveOps(cfg, ts, KeyOf(Run(cfg, ts).buf.entries[i]))|
    ensures var e := Run(cfg, ts).buf.entries[i];
            var x := LiveOps(cfg, ts, KeyOf(e))[j].e;
            && x.title == e.title && x.source == e.source
            && (0 <= x.timestamp && 0 <= e.timestamp ==> SameQuarter(x.timestamp, e.timestamp))
  {
    hide Run, LiveOps, BucketStart;
    var e := Run(cfg, ts).buf.entries[i];
    LiveOpsHaveKey(cfg, ts, KeyOf(e), j);
    var x := LiveOps(cfg, ts, KeyOf(e))[j].e;
    if 0 <= x.timestamp && 0 <= e.timestamp {
      QuarterIsBucket(x.timestamp, e.timestamp);
    }
  }

  /** And no two entries could share: they differ in title, in source, or, from the epoch on, in the quarter. */
  lemma EntriesApart(cfg: Config, ts: seq<Timed>, i: nat, j: nat)
    requires i < j < |Run(cfg, ts).buf.entries|
    ensures var e, f := Run(cfg, ts).buf.entries[i], Run(cfg, ts).buf.entries[j];
            0 <= e.timestamp && 0 <= f.timestamp ==>
              e.title != f.title || e.source != f.source || !SameQuarter(e.timestamp, f.timestamp)
  {
    hide Run, BucketStart;
    var s := Run(cfg, ts).buf.entries;
    RunRefines(cfg, ts);
    RefinesWellFormed(s, Run(cfg, ts).ledger);
    DistinctMeans(s);
    if 0 <= s[i].timestamp && 0 <= s[j].timestamp {
      QuarterIsBucket(s[i].timestamp, s[j].timestamp);
    }
  }
}
