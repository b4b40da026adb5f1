/** One check cycle: the order in which the checkers finish does not matter. */
module Cycles {
  import opened Clock
  import opened Checks
  import opened Components
  import WeekHistory
  import opened Schedulers
  import opened Streams
  import opened LogModel
  import Ledger
  import opened ArrivalOrder
  import LogBuffers
  import LogWatchers
  import HistoryStores
  import opened Sequences

  /** The results of a cycle as a stream: all at one instant. */
  function At(rs: seq<CheckResult>, now: Time): seq<Sample> {
    if rs == [] then [] else At(rs[..|rs| - 1], now) + [Sample(rs[|rs| - 1], now)]
  }

  lemma {:induction false} AtIsStream(s: Sched, rs: seq<CheckResult>, now: Time)
    ensures ApplyAll(s, rs, now) == RunStream(s, At(rs, now))
    ensures AlertsOf(s, rs, now) == StreamAlerts(s, At(rs, now))
  {
    if rs != [] {
      var a, r := rs[..|rs| - 1], rs[|rs| - 1];
      AtIsStream(s, a, now);
      Snoc(At(a, now), Sample(r, now));
    }
  }

  // ---- who reports on whom ----

  predicate Reports(b: Batch, c: string) {
    exists i :: 0 <= i < |b.results| && b.results[i].component == c
  }

  /** Checkers have distinct names and report on disjoint components. */
  ghost predicate Separate(bs: seq<Batch>) {
    forall i, j :: 0 <= i < j < |bs| ==>
                     bs[i].name != bs[j].name && forall c :: Reports(bs[i], c) ==> !Reports(bs[j], c)
  }

  lemma OfNone(now: Time, c: string)
    ensures Of(At([], now), c) == []
  {
  }

  lemma OfSnoc(rs: seq<CheckResult>, r: CheckResult, now: Time, c: string)
    ensures Of(At(rs + [r], now), c) ==
            if r.component == c then Of(At(rs, now), c) + [Sample(r, now)] else Of(At(rs, now), c)
  {
    Snoc(rs, r);
    Snoc(At(rs, now), Sample(r, now));
  }

  lemma {:induction false} OfConcat(a: seq<CheckResult>, b: seq<CheckResult>, now: Time, c: string)
    ensures Of(At(a + b, now), c) == Of(At(a, now), c) + Of(At(b, now), c)
  {
    hide Of, At;
    if b == [] {
      OfNone(now, c);
      assert a + b == a;
    } else {
      var d, r := b[..|b| - 1], b[|b| - 1];
      OfConcat(a, d, now, c);
      assert b == d + [r];
      Regroup(a, d, r);
      OfSnoc(d, r, now, c);
      OfSnoc(a + d, r, now, c);
      Regroup(Of(At(a, now), c), Of(At(d, now), c), Sample(r, now));
    }
  }

  lemma {:induction false} OfNothing(rs: seq<CheckResult>, now: Time, c: string)
    requires forall i :: 0 <= i < |rs| ==> rs[i].component != c
    ensures Of(At(rs, now), c) == []
  {
    if rs != [] {
      OfNothing(rs[..|rs| - 1], now, c);
      Snoc(At(rs[..|rs| - 1], now), Sample(rs[|rs| - 1], now));
    }
  }

  lemma {:induction false} NobodyReports(bs: seq<Batch>, now: Time, c: string)
    requires forall i :: 0 <= i < |bs| ==> !Reports(bs[i], c)
    ensures Of(At(Flat(bs), now), c) == []
  {
    if bs != [] {
      var n := |bs| - 1;
      NobodyReports(bs[..n], now, c);
      OfConcat(Flat(bs[..n]), bs[n].results, now, c);
      OfNothing(bs[n].results, now, c);
    }
  }

  lemma SeparatePrefix(bs: seq<Batch>, n: nat)
    requires Separate(bs) && n <= |bs|
    ensures Separate(bs[..n])
  {
  }

  lemma ApartFrom(bs: seq<Batch>, k: nat, n: nat, c: string)
    requires Separate(bs) && k < |bs| && n < |bs| && k != n && Reports(bs[k], c)
    ensures !Reports(bs[n], c)
  {
  }

  lemma EmptySides<T>(s: seq<T>)
    ensures [] + s == s && s + [] == s
  {
  }

  /** A component's results in a cycle are those of the one checker that reports on it. */
  lemma {:induction false} OneReports(bs: seq<Batch>, now: Time, c: string, k: nat)
    requires Separate(bs) && k < |bs| && Reports(bs[k], c)
    ensures Of(At(Flat(bs), now), c) == Of(At(bs[k].results, now), c)
  {
    var n := |bs| - 1;
    var a := bs[..n];
    OfConcat(Flat(a), bs[n].results, now, c);
    EmptySides(Of(At(bs[k].results, now), c));
    if k == n {
      forall i | 0 <= i < |a|
        ensures !Reports(a[i], c)
      {
        ApartFrom(bs, k, i, c);
      }
      NobodyReports(a, now, c);
    } else {
      SeparatePrefix(bs, n);
      OneReports(a, now, c, k);
      ApartFrom(bs, k, n, c);
      OfNothing(bs[n].results, now, c);
    }
  }

  lemma SameOwn(bs: seq<Batch>, bs': seq<Batch>, now: Time, c: string)
    requires multiset(bs) == multiset(bs') && Separate(bs) && Separate(bs')
    ensures Of(At(Flat(bs), now), c) == Of(At(Flat(bs'), now), c)
  {
    if b :| b in bs && Reports(b, c) {
      PermutedHas(bs, bs', b);
      var k :| 0 <= k < |bs| && bs[k] == b;
      var k' :| 0 <= k' < |bs'| && bs'[k'] == b;
      OneReports(bs, now, c, k);
      OneReports(bs', now, c, k');
    } else {
      forall i | 0 <= i < |bs'|
        ensures !Reports(bs'[i], c)
      {
        PermutedHas(bs', bs, bs'[i]);
      }
      NobodyReports(bs, now, c);
      NobodyReports(bs', now, c);
    }
  }

  /** Two scheduler states that agree on every component are the same. */
  lemma SameComps(s: Sched, t: Sched)
    requires forall c :: CompOf(s, c) == CompOf(t, c)
    requires forall c :: (c in s.days ==> s.days[c] != []) && (c in t.days ==> t.days[c] != [])
    ensures s == t
  {
    forall c
      ensures (c in s.prev <==> c in t.prev) && (c in s.since <==> c in t.since) && (c in s.days <==> c in t.days)
      ensures (c in s.prev ==> s.prev[c] == t.prev[c]) && (c in s.since ==> s.since[c] == t.since[c])
      ensures c in s.days ==> s.days[c] == t.days[c]
    {
      assert CompOf(s, c) == CompOf(t, c);
    }
    assert s.prev == t.prev && s.since == t.since && s.days == t.days;
  }

  ghost predicate NoEmptyDays(s: Sched) {
    forall c :: c in s.days ==> s.days[c] != []
  }

  lemma {:induction false} ApplyAllNoEmpty(s: Sched, rs: seq<CheckResult>, now: Time)
    requires NoEmptyDays(s)
    ensures NoEmptyDays(ApplyAll(s, rs, now))
  {
    if rs != [] {
      ApplyAllNoEmpty(s, rs[..|rs| - 1], now);
    }
  }

  // ---- the results table ----

  lemma {:induction false} ResultsAt(m: map<string, seq<CheckResult>>, bs: seq<Batch>, name: string)
    ensures (forall i :: 0 <= i < |bs| ==> bs[i].name != name) ==> Get(SetResults(m, bs), name) == Get(m, name)
    ensures forall b :: b in bs && b.name == name && Separate(bs) ==> Get(SetResults(m, bs), name) == Some(b.results)
  {
    if bs != [] {
      var n := |bs| - 1;
      ResultsAt(m, bs[..n], name);
      forall b | b in bs && b.name == name && Separate(bs)
        ensures Get(SetResults(m, bs), name) == Some(b.results)
      {
        if bs[n].name == name {
          assert b == bs[n];
        } else {
          assert b in bs[..n] && Separate(bs[..n]);
        }
      }
    }
  }

  lemma SameResults(m: map<string, seq<CheckResult>>, bs: seq<Batch>, bs': seq<Batch>)
    requires multiset(bs) == multiset(bs') && Separate(bs) && Separate(bs')
    ensures SetResults(m, bs) == SetResults(m, bs')
  {
    var r, r' := SetResults(m, bs), SetResults(m, bs');
    forall name
      ensures Get(r, name) == Get(r', name)
    {
      ResultsAt(m, bs, name);
      ResultsAt(m, bs', name);
      if b :| b in bs && b.name == name {
        PermutedHas(bs, bs', b);
      } else {
        forall i | 0 <= i < |bs'|
          ensures bs'[i].name != name
        {
          PermutedHas(bs', bs, bs'[i]);
        }
      }
    }
    SameMap(r, r');
  }

  lemma SameMap<T>(m: map<string, T>, n: map<string, T>)
    requires forall k :: Get(m, k) == Get(n, k)
    ensures m == n
  {
    forall k
      ensures k in m <==> k in n
      ensures k in m ==> m[k] == n[k]
    {
      assert Get(m, k) == Get(n, k);
    }
  }

  /** Being separate does not depend on the order. */
  lemma SeparatePermuted(bs: seq<Batch>, bs': seq<Batch>)
    requires multiset(bs) == multiset(bs') && Separate(bs)
    ensures Separate(bs')
  {
    forall i, j | 0 <= i < j < |bs'|
      ensures bs'[i].name != bs'[j].name && forall c :: Reports(bs'[i], c) ==> !Reports(bs'[j], c)
    {
      var k, l := TwoPlaces(bs, bs', i, j);
      if k < l {
        assert bs[k].name != bs[l].name;
      } else {
        assert bs[l].name != bs[k].name;
      }
    }
  }

  /** Two different places of a permutation come from two different places. */
  lemma TwoPlaces<T>(s: seq<T>, t: seq<T>, i: nat, j: nat) returns (k: nat, l: nat)
    requires multiset(s) == multiset(t) && i < j < |t|
    ensures k < |s| && l < |s| && k != l && s[k] == t[i] && s[l] == t[j]
  {
    PermutedHas(t, s, t[i]);
    PermutedHas(t, s, t[j]);
    if t[i] != t[j] {
      k :| 0 <= k < |s| && s[k] == t[i];
      l :| 0 <= l < |s| && s[l] == t[j];
    } else {
      var x := t[i];
      assert t == t[..j] + [t[j]] + t[j + 1..];
      assert t[..j][i] == x;
      assert multiset(t)[x] >= 2;
      var a, b := TakeOut(s, x);
      assert x in multiset(a + b);
      var m :| 0 <= m < |a + b| && (a + b)[m] == x;
      k := |a|;
      l := if m < |a| then m else m + 1;
    }
  }

  // ---- the records that go to the log buffer ----

  function RecordEntries(rs: seq<CheckResult>, now: Time): seq<LogEntry> {
    if rs == [] then []
    else
      var n := |rs| - 1;
      match LogWatchers.RecordOf(rs[n], now)
      case None => RecordEntries(rs[..n], now)
      case Some(e) => RecordEntries(rs[..n], now) + [e]
  }

  function AsEvents(es: seq<LogEntry>, now: Time): seq<Ledger.Timed> {
    if es == [] then [] else AsEvents(es[..|es| - 1], now) + [Ledger.Timed(Event(es[|es| - 1]), now)]
  }

  lemma {:induction false} AsEventsEntries(es: seq<LogEntry>, now: Time)
    ensures Entries(AsEvents(es, now)) == es && AllEvents(AsEvents(es, now))
  {
    if es != [] {
      var n := |es| - 1;
      AsEventsEntries(es[..n], now);
      Snoc(AsEvents(es[..n], now), Ledger.Timed(Event(es[n]), now));
      assert es == es[..n] + [es[n]];
    }
  }

  lemma NoRecords(now: Time)
    ensures RecordEntries([], now) == []
  {
  }

  lemma RecordSnoc(rs: seq<CheckResult>, r: CheckResult, now: Time)
    ensures RecordEntries(rs + [r], now) ==
            match LogWatchers.RecordOf(r, now)
            case None => RecordEntries(rs, now)
            case Some(e) => RecordEntries(rs, now) + [e]
  {
    hide LogWatchers.RecordOf;
    Snoc(rs, r);
  }

  lemma {:induction false} RecordConcat(a: seq<CheckResult>, b: seq<CheckResult>, now: Time)
    ensures RecordEntries(a + b, now) == RecordEntries(a, now) + RecordEntries(b, now)
  {
    hide RecordEntries, LogWatchers.RecordOf;
    if b == [] {
      NoRecords(now);
      assert a + b == a;
    } else {
      var d, r := b[..|b| - 1], b[|b| - 1];
      RecordConcat(a, d, now);
      assert b == d + [r];
      Regroup(a, d, r);
      RecordSnoc(d, r, now);
      RecordSnoc(a + d, r, now);
      var e := LogWatchers.RecordOf(r, now);
      if e.Some? {
        Regroup(RecordEntries(a, now), RecordEntries(d, now), e.value);
      }
    }
  }

  /** The entries a whole cycle records. */
  function CycleEntries(bs: seq<Batch>, now: Time): seq<LogEntry> {
    RecordEntries(BadOnes(Flat(bs)), now)
  }

  lemma {:induction false} FlatConcat(a: seq<Batch>, b: seq<Batch>)
    ensures Flat(a + b) == Flat(a) + Flat(b)
  {
    if b == [] {
      assert a + b == a;
    } else {
      var d, x := b[..|b| - 1], b[|b| - 1];
      FlatConcat(a, d);
      assert b == d + [x];
      Regroup(a, d, x);
      Snoc(a + d, x);
      Associate(Flat(a), Flat(d), x.results);
    }
  }

  lemma CycleConcat(a: seq<Batch>, b: seq<Batch>, now: Time)
    ensures CycleEntries(a + b, now) == CycleEntries(a, now) + CycleEntries(b, now)
  {
    FlatConcat(a, b);
    BadConcat(Flat(a), Flat(b));
    RecordConcat(BadOnes(Flat(a)), BadOnes(Flat(b)), now);
  }

  lemma {:induction false} SameRecords(bs: seq<Batch>, bs': seq<Batch>, now: Time)
    requires multiset(bs) == multiset(bs')
    ensures multiset(CycleEntries(bs, now)) == multiset(CycleEntries(bs', now))
  {
    if bs == [] {
      assert |multiset(bs')| == 0;
    } else {
      var p, x := bs[..|bs| - 1], bs[|bs| - 1];
      SplitLast(bs);
      PermutedHas(bs, bs', x);
      var a, b := TakeOut(bs', x);
      CancelOne(multiset(p), multiset(a + b), x);
      SameRecords(p, a + b, now);
      CycleConcat(p, [x], now);
      CycleConcat(a + [x], b, now);
      CycleConcat(a, [x], now);
      CycleConcat(a, b, now);
    }
  }

  // ---- the cycle itself ----

  /** The log watcher after feeding events one after the other. */
  function FeedAll(cfg: Config, machineId: Option<string>, w: LogWatchers.Watch, es: seq<LogEntry>, now: Time)
    : LogWatchers.Watch
  {
    if es == [] then w
    else LogWatchers.FeedOne(cfg, machineId, FeedAll(cfg, machineId, w, es[..|es| - 1], now), es[|es| - 1], now)
  }

  /** The saves in between do not touch the buffer. */
  lemma {:induction false} FeedAllBuffer(cfg: Config, machineId: Option<string>, w: LogWatchers.Watch,
                                         es: seq<LogEntry>, now: Time)
    ensures FeedAll(cfg, machineId, w, es, now).buf == Continue(cfg, w.buf, AsEvents(es, now))
  {
    hide Step, LogWatchers.Saved;
    if es != [] {
      var a, e := es[..|es| - 1], es[|es| - 1];
      FeedAllBuffer(cfg, machineId, w, a, now);
      assert es == a + [e];
      ContinueOne(cfg, w.buf, a, e, now);
    }
  }

  /** Every tenth event fed saves today, counted across calls, and no other does. */
  lemma {:induction false} EveryTenthSaves(cfg: Config, machineId: string, w: LogWatchers.Watch, es: seq<LogEntry>,
                                           now: Time)
    requires w.saveN < 10
    ensures FeedAll(cfg, Some(machineId), w, es, now).saveN == (w.saveN + |es|) % 10
    ensures es != [] ==>
              var before := FeedAll(cfg, Some(machineId), w, es[..|es| - 1], now);
              var after := FeedAll(cfg, Some(machineId), w, es, now);
              after.files == if (w.saveN + |es|) % 10 == 0
                             then LogWatchers.Saved(before.files, machineId, after.buf.entries, DayOf(now))
                             else before.files
  {
    hide Step, LogWatchers.Saved, DayOf;
    if es != [] {
      EveryTenthSaves(cfg, machineId, w, es[..|es| - 1], now);
      NextTenth(w.saveN + |es| - 1);
    }
  }

  lemma NextTenth(n: nat)
    ensures (n + 1) % 10 == if n % 10 == 9 then 0 else n % 10 + 1
  {
  }

  lemma {:induction false} RecordsOfBad(rs: seq<CheckResult>, now: Time)
    ensures |RecordEntries(BadOnes(rs), now)| == |BadOnes(rs)|
    ensures forall i :: 0 <= i < |BadOnes(rs)| ==>
                          LogWatchers.RecordOf(BadOnes(rs)[i], now) == Some(RecordEntries(BadOnes(rs), now)[i])
  {
    if rs == [] {
      NoRecords(now);
    } else {
      hide RecordEntries;
      var n := |rs| - 1;
      RecordsOfBad(rs[..n], now);
      RecordSnoc(BadOnes(rs[..n]), rs[n], now);
    }
  }

  /** A cycle records its bad results and nothing else, in the order they were collected. */
  lemma CycleRecords(bs: seq<Batch>, now: Time)
    ensures var bad := BadOnes(Flat(bs));
            |CycleEntries(bs, now)| == |bad| &&
            forall i :: 0 <= i < |bad| ==> LogWatchers.RecordOf(bad[i], now) == Some(CycleEntries(bs, now)[i])
  {
    RecordsOfBad(Flat(bs), now);
  }

  lemma RecordStep(rs: seq<CheckResult>, i: nat, now: Time)
    requires i < |rs|
    ensures RecordEntries(rs[..i + 1], now) ==
            match LogWatchers.RecordOf(rs[i], now)
            case None => RecordEntries(rs[..i], now)
            case Some(e) => RecordEntries(rs[..i], now) + [e]
  {
    TakeOne(rs, i);
  }

  lemma ContinueOne(cfg: Config, b: Buf, es: seq<LogEntry>,
                    e: LogEntry, now: Time)
    ensures Continue(cfg, b, AsEvents(es + [e], now)) == Step(cfg, Continue(cfg, b, AsEvents(es, now)), Event(e), now)
  {
    Snoc(es, e);
    Snoc(AsEvents(es, now), Ledger.Timed(Event(e), now));
  }

  lemma FeedAllSnoc(cfg: Config, machineId: Option<string>, w: LogWatchers.Watch, es: seq<LogEntry>,
                    e: LogEntry, now: Time)
    ensures FeedAll(cfg, machineId, w, es + [e], now) ==
              LogWatchers.FeedOne(cfg, machineId, FeedAll(cfg, machineId, w, es, now), e, now)
  {
    Snoc(es, e);
  }

  /** Records the bad results in the log buffer. */
  method RecordAll(lw: LogWatchers.LogWatcher, rs: seq<CheckResult>, now: Time)
    requires lw.Valid()
    modifies lw, lw.buffer, lw.buffer.entries, if lw.store == null then {} else {lw.store}
    ensures lw.Valid()
    ensures lw.State() == FeedAll(lw.buffer.Cfg(), lw.MachineId(), old(lw.State()), RecordEntries(rs, now), now)
  {
    hide LogWatchers.FeedOne, LogBuffers.LogBuffer.Consistent;
    ghost var start, es := lw.State(), [];
    for i := 0 to |rs|
      invariant lw.Valid()
      invariant es == RecordEntries(rs[..i], now)
      invariant lw.State() == FeedAll(lw.buffer.Cfg(), lw.MachineId(), start, es, now)
      invariant forall q :: q in lw.buffer.entries ==> q in old(lw.buffer.entries) || fresh(q)
    {
      RecordStep(rs, i, now);
      assert forall j :: 0 <= j < |lw.buffer.entries| ==> lw.buffer.entries[j] in lw.buffer.entries;
      lw.RecordCheckResult(rs[i], now);
      ghost var x := LogWatchers.RecordOf(rs[i], now);
      if x.Some? {
        FeedAllSnoc(lw.buffer.Cfg(), lw.MachineId(), start, es, x.value, now);
        es := es + [x.value];
      }
    }
    TakeAll(rs);
  }

  /** What a cycle may change in the log watcher. */
  ghost function Touched(lw: LogWatchers.LogWatcher?): set<object>
    reads lw, if lw == null then {} else {lw.buffer}
  {
    if lw == null then {}
    else {lw, lw.buffer} + (set q | q in lw.buffer.entries) + if lw.store == null then {} else {lw.store}
  }

  /** One cycle: collect the batches in the order the checkers finish, hand back the alerts to send,
      record the bad results in the log buffer, and save today's history. */
  method RunCycle(sched: Scheduler, lw: LogWatchers.LogWatcher?, store: HistoryStores.HistoryStore?,
                  bs: seq<Batch>, now: Time)
    returns (alerts: seq<PendingAlert>)
    requires sched.Valid() && (lw != null ==> lw.Valid())
    modifies sched, Touched(lw), if store == null then {} else {store}
    ensures sched.Valid()
    ensures sched.results == SetResults(old(sched.results), bs)
    ensures sched.State() == ApplyAll(old(sched.State()), Flat(bs), now)
    ensures alerts == AlertsOf(old(sched.State()), Flat(bs), now)
    ensures lw != null ==>
              lw.Valid() &&
              lw.State() == FeedAll(lw.buffer.Cfg(), lw.MachineId(), old(lw.State()), CycleEntries(bs, now), now) &&
              lw.buffer.State() ==
                Continue(lw.buffer.Cfg(), old(lw.buffer.State()), AsEvents(CycleEntries(bs, now), now))
    ensures store != null ==>
              var week := map c | c in sched.history :: WeekHistory.Padded(sched.history[c], DayOf(now));
              store.files == HistoryStores.Saved(old(store.files), store.machineId, week, DayOf(now))
  {
    hide SetResults, ApplyAll, AlertsOf, FeedAll, Continue, AsEvents, LogBuffers.LogBuffer.Consistent;
    hide HistoryStores.Saved, WeekHistory.Padded;
    var records;
    alerts, records := sched.Collect(bs, now);
    if lw != null {
      FeedAllBuffer(lw.buffer.Cfg(), lw.MachineId(), lw.State(), CycleEntries(bs, now), now);
      RecordAll(lw, records, now);
    }
    if store != null {
      var view := sched.GetHistory(now);
      store.Save(view, now);
    }
  }

  // ---- confluence ----

  /** Whatever order the checkers finish in, a cycle leads to the same results, statuses, critical
      runs and history, and to the same alerts for each component. */
  lemma CycleConfluent(s: Sched, m: map<string, seq<CheckResult>>, bs: seq<Batch>, bs': seq<Batch>, now: Time)
    requires multiset(bs) == multiset(bs') && Separate(bs) && NoEmptyDays(s)
    ensures SetResults(m, bs) == SetResults(m, bs')
    ensures ApplyAll(s, Flat(bs), now) == ApplyAll(s, Flat(bs'), now)
    ensures forall c :: AlertsFor(AlertsOf(s, Flat(bs), now), c) == AlertsFor(AlertsOf(s, Flat(bs'), now), c)
  {
    SeparatePermuted(bs, bs');
    SameResults(m, bs, bs');
    AtIsStream(s, Flat(bs), now);
    AtIsStream(s, Flat(bs'), now);
    forall c
      ensures CompOf(ApplyAll(s, Flat(bs), now), c) == CompOf(ApplyAll(s, Flat(bs'), now), c)
      ensures AlertsFor(AlertsOf(s, Flat(bs), now), c) == AlertsFor(AlertsOf(s, Flat(bs'), now), c)
    {
      Projection(s, At(Flat(bs), now), c);
      Projection(s, At(Flat(bs'), now), c);
      SameOwn(bs, bs', now, c);
    }
    ApplyAllNoEmpty(s, Flat(bs), now);
    ApplyAllNoEmpty(s, Flat(bs'), now);
    SameComps(ApplyAll(s, Flat(bs), now), ApplyAll(s, Flat(bs'), now));
  }

  /** And while no prune drops anything, to the same aggregates in the log buffer. */
  lemma CycleRecordsConfluent(cfg: Config, b: Buf, bs: seq<Batch>, bs': seq<Batch>, now: Time)
    requires multiset(bs) == multiset(bs') && WellFormed(b.entries)
    requires DropsNothing(cfg, b, AsEvents(CycleEntries(bs, now), now))
    requires DropsNothing(cfg, b, AsEvents(CycleEntries(bs', now), now))
    ensures View(Continue(cfg, b, AsEvents(CycleEntries(bs, now), now)).entries) ==
            View(Continue(cfg, b, AsEvents(CycleEntries(bs', now), now)).entries)
  {
    SameRecords(bs, bs', now);
    AsEventsEntries(CycleEntries(bs, now), now);
    AsEventsEntries(CycleEntries(bs', now), now);
    OrderIrrelevant(cfg, b, AsEvents(CycleEntries(bs, now), now), AsEvents(CycleEntries(bs', now), now));
  }
}
