/** The order in which writers get the buffer's lock does not matter for what is aggregated. */
module ArrivalOrder {
  import opened Clock
  import opened LogModel
  import opened Ledger
  import opened BufferRuns
  import opened Sequences

  datatype Stats = Stats(count: int, lastSeen: Time, rank: nat)

  /** What the buffer knows about each key. */
  function View(s: seq<LogEntry>): map<AggKey, Stats> {
    if s == [] then map[]
    else View(s[..|s| - 1])[KeyOf(s[|s| - 1]) := StatsOf(s[|s| - 1])]
  }

  function StatsOf(e: LogEntry): Stats {
    Stats(e.count, e.lastSeen, Rank(e))
  }

  function AddToView(v: map<AggKey, Stats>, e: LogEntry): map<AggKey, Stats> {
    var k := KeyOf(e);
    if k in v then
      v[k := Stats(v[k].count + 1, Max(v[k].lastSeen, e.timestamp), Max(v[k].rank, Rank(e)))]
    else v[k := Stats(1, e.timestamp, Rank(e))]
  }

  function AddAll(v: map<AggKey, Stats>, es: seq<LogEntry>): map<AggKey, Stats> {
    if es == [] then v else AddToView(AddAll(v, es[..|es| - 1]), es[|es| - 1])
  }

  // ---- feeding one event acts on the view alone ----

  lemma ViewSnoc(s: seq<LogEntry>, x: LogEntry)
    ensures View(s + [x]) == View(s)[KeyOf(x) := StatsOf(x)]
  {
    hide KeyOf, StatsOf;
    var t := s + [x];
    Snoc(s, x);
    assert t != [] && t[..|t| - 1] == s && t[|t| - 1] == x;
    assert View(t) == View(t[..|t| - 1])[KeyOf(t[|t| - 1]) := StatsOf(t[|t| - 1])];
  }

  lemma {:induction false} ViewKeys(s: seq<LogEntry>, k: AggKey)
    ensures k in View(s) <==> HasKey(s, k)
  {
    if s != [] {
      ViewKeys(s[..|s| - 1], k);
    }
  }

  lemma {:induction false} ViewInsert(s: seq<LogEntry>, x: LogEntry)
    requires !HasKey(s, KeyOf(x))
    ensures View(Insert(s, x)) == View(s)[KeyOf(x) := StatsOf(x)]
  {
    if s == [] || s[|s| - 1].timestamp <= x.timestamp {
      ViewSnoc(s, x);
    } else {
      ViewInsert(s[..|s| - 1], x);
      ViewSnoc(Insert(s[..|s| - 1], x), s[|s| - 1]);
    }
  }

  lemma {:induction false} ViewMerged(s: seq<LogEntry>, e: LogEntry)
    requires DistinctKeys(s)
    ensures View(Merged(s, Event(e))) == if HasKey(s, KeyOf(e)) then AddToView(View(s), e) else View(s)
  {
    if s != [] {
      var a, x := s[..|s| - 1], s[|s| - 1];
      ViewMerged(a, e);
      MergedLast(s, Event(e));
      ViewSnoc(Merged(a, Event(e)), MergeIfSame(x, Event(e)));
      MergeKeeps(x, Event(e));
      ViewKeys(a, KeyOf(e));
      ViewKeys(a, KeyOf(x));
    }
  }

  lemma ViewFed(s: seq<LogEntry>, e: LogEntry)
    requires DistinctKeys(s)
    ensures View(Fed(s, Event(e))) == AddToView(View(s), e)
  {
    ViewKeys(s, KeyOf(e));
    if HasKey(s, KeyOf(e)) {
      ViewMerged(s, e);
    } else {
      ViewInsert(s, FreshEvent(e));
    }
  }

  // ---- events commute on the view ----

  lemma AddCommutes(v: map<AggKey, Stats>, a: LogEntry, b: LogEntry)
    ensures AddToView(AddToView(v, a), b) == AddToView(AddToView(v, b), a)
  {
  }

  lemma AddAllSnoc(v: map<AggKey, Stats>, es: seq<LogEntry>, x: LogEntry)
    ensures AddAll(v, es + [x]) == AddToView(AddAll(v, es), x)
  {
    Snoc(es, x);
  }

  lemma {:induction false} MoveToEnd(v: map<AggKey, Stats>, a: seq<LogEntry>, x: LogEntry, b: seq<LogEntry>)
    ensures AddAll(v, a + [x] + b) == AddToView(AddAll(v, a + b), x)
  {
    if b == [] {
      assert a + [x] + b == a + [x] && a + b == a;
      AddAllSnoc(v, a, x);
    } else {
      var c, y := b[..|b| - 1], b[|b| - 1];
      MoveToEnd(v, a, x, c);
      assert a + [x] + b == a + [x] + c + [y] && a + b == a + c + [y];
      AddAllSnoc(v, a + [x] + c, y);
      AddAllSnoc(v, a + c, y);
      AddCommutes(AddAll(v, a + c), x, y);
    }
  }

  /** Any two orders of the same events lead to the same view. */
  lemma {:induction false} AddAllPermuted(v: map<AggKey, Stats>, es: seq<LogEntry>, es': seq<LogEntry>)
    requires multiset(es) == multiset(es')
    ensures AddAll(v, es) == AddAll(v, es')
  {
    if es == [] {
      assert |multiset(es')| == 0;
    } else {
      var p, x := es[..|es| - 1], es[|es| - 1];
      SplitLast(es);
      PermutedHas(es, es', x);
      var a, b := TakeOut(es', x);
      CancelOne(multiset(p), multiset(a + b), x);
      AddAllPermuted(v, p, a + b);
      MoveToEnd(v, a, x, b);
    }
  }

  // ---- runs of events in which no prune drops anything ----

  /** The buffer after a further run. */
  function Continue(cfg: Config, b: Buf, ts: seq<Timed>): Buf {
    if ts == [] then b
    else Step(cfg, Continue(cfg, b, ts[..|ts| - 1]), ts[|ts| - 1].op, ts[|ts| - 1].now)
  }

  predicate DropsNothing(cfg: Config, b: Buf, ts: seq<Timed>) {
    ts == [] ||
    (DropsNothing(cfg, b, ts[..|ts| - 1]) &&
     var c := Continue(cfg, b, ts[..|ts| - 1]);
     var t := ts[|ts| - 1];
     Prunes(c, t.op) ==> Kept(cfg, Fed(c.entries, t.op), t.now) == Fed(c.entries, t.op))
  }

  predicate AllEvents(ts: seq<Timed>) {
    forall i :: 0 <= i < |ts| ==> ts[i].op.Event?
  }

  function Entries(ts: seq<Timed>): seq<LogEntry> {
    if ts == [] then [] else Entries(ts[..|ts| - 1]) + [ts[|ts| - 1].op.e]
  }

  lemma {:induction false} ContinueWellFormed(cfg: Config, b: Buf, ts: seq<Timed>)
    requires WellFormed(b.entries)
    ensures WellFormed(Continue(cfg, b, ts).entries)
  {
    if ts != [] {
      ContinueWellFormed(cfg, b, ts[..|ts| - 1]);
      StepWellFormed(cfg, Continue(cfg, b, ts[..|ts| - 1]), ts[|ts| - 1].op, ts[|ts| - 1].now);
    }
  }

  lemma {:induction false} ContinueView(cfg: Config, b: Buf, ts: seq<Timed>)
    requires WellFormed(b.entries) && AllEvents(ts) && DropsNothing(cfg, b, ts)
    ensures View(Continue(cfg, b, ts).entries) == AddAll(View(b.entries), Entries(ts))
  {
    if ts != [] {
      var n := |ts| - 1;
      ContinueView(cfg, b, ts[..n]);
      ContinueWellFormed(cfg, b, ts[..n]);
      ViewFed(Continue(cfg, b, ts[..n]).entries, ts[n].op.e);
      AddAllSnoc(View(b.entries), Entries(ts[..n]), ts[n].op.e);
    }
  }

  /** From any well-formed buffer, two runs of the same events in any two orders, at any instants,
      agree on the keys and on each key's count, last sighting and severity rank. */
  lemma OrderIrrelevant(cfg: Config, b: Buf, ts: seq<Timed>, ts': seq<Timed>)
    requires WellFormed(b.entries) && AllEvents(ts) && AllEvents(ts')
    requires multiset(Entries(ts)) == multiset(Entries(ts'))
    requires DropsNothing(cfg, b, ts) && DropsNothing(cfg, b, ts')
    ensures View(Continue(cfg, b, ts).entries) == View(Continue(cfg, b, ts').entries)
  {
    ContinueView(cfg, b, ts);
    ContinueView(cfg, b, ts');
    AddAllPermuted(View(b.entries), Entries(ts), Entries(ts'));
  }

  // ---- when nothing is dropped ----

  lemma {:induction false} AllNotBefore(s: seq<LogEntry>, lo: Time)
    requires forall i :: 0 <= i < |s| ==> lo <= s[i].timestamp
    ensures NotBefore(s, lo) == s
  {
    if s != [] {
      AllNotBefore(s[..|s| - 1], lo);
    }
  }

  ghost predicate Recent(s: seq<LogEntry>, lo: Time) {
    forall i :: 0 <= i < |s| ==> lo <= s[i].timestamp
  }

  ghost predicate KeysIn(s: seq<LogEntry>, keys: set<AggKey>) {
    forall k :: HasKey(s, k) ==> k in keys
  }

  /** Everything fed is recent at every instant of the run, and has one of the given keys. */
  ghost predicate RunFits(cfg: Config, ts: seq<Timed>, lo: Time, keys: set<AggKey>) {
    forall i :: 0 <= i < |ts| ==>
                  (cfg.maxAge > 0 ==> ts[i].now - cfg.maxAge <= lo) &&
                  lo <= ts[i].op.e.timestamp && OpKey(ts[i].op) in keys
  }

  lemma {:induction false} InsertRecent(s: seq<LogEntry>, x: LogEntry, lo: Time)
    requires lo <= x.timestamp && Recent(s, lo)
    ensures Recent(Insert(s, x), lo)
  {
    if s != [] && s[|s| - 1].timestamp > x.timestamp {
      InsertRecent(s[..|s| - 1], x, lo);
    }
  }

  lemma FedRecent(s: seq<LogEntry>, op: Op, lo: Time)
    requires lo <= op.e.timestamp && Recent(s, lo)
    ensures Recent(Fed(s, op), lo)
  {
    InsertRecent(s, First(op), lo);
    forall i | 0 <= i < |s|
      ensures lo <= Merged(s, op)[i].timestamp
    {
      MergeKeeps(s[i], op);
    }
  }

  lemma FedKeysIn(s: seq<LogEntry>, op: Op, keys: set<AggKey>)
    requires OpKey(op) in keys && KeysIn(s, keys)
    ensures KeysIn(Fed(s, op), keys)
  {
    MergeKeeps(First(op), op);
    forall k | HasKey(Fed(s, op), k)
      ensures k in keys
    {
      MergedHasKey(s, op, k);
      InsertHasKey(s, First(op), k);
    }
  }

  lemma NothingToDrop(cfg: Config, s: seq<LogEntry>, now: Time, lo: Time, keys: set<AggKey>)
    requires DistinctKeys(s) && Recent(s, lo) && KeysIn(s, keys)
    requires cfg.maxSize > 0 ==> |keys| <= cfg.maxSize
    requires cfg.maxAge > 0 ==> now - cfg.maxAge <= lo
    ensures Kept(cfg, s, now) == s
  {
    DistinctFit(s, keys);
    if cfg.maxAge > 0 {
      AllNotBefore(s, now - cfg.maxAge);
    }
  }

  /** A caller can tell in advance: recent events over few enough keys are never dropped. */
  lemma {:induction false} FittingDropsNothing(cfg: Config, b: Buf, ts: seq<Timed>, lo: Time, keys: set<AggKey>)
    requires WellFormed(b.entries) && Recent(b.entries, lo) && KeysIn(b.entries, keys)
    requires RunFits(cfg, ts, lo, keys)
    requires cfg.maxSize > 0 ==> |keys| <= cfg.maxSize
    ensures DropsNothing(cfg, b, ts)
    ensures Recent(Continue(cfg, b, ts).entries, lo) && KeysIn(Continue(cfg, b, ts).entries, keys)
  {
    if ts != [] {
      var n := |ts| - 1;
      assert forall i :: 0 <= i < n ==> ts[..n][i] == ts[i];
      FittingDropsNothing(cfg, b, ts[..n], lo, keys);
      ContinueWellFormed(cfg, b, ts[..n]);
      var s := Continue(cfg, b, ts[..n]).entries;
      FedWellFormed(s, ts[n].op);
      FedRecent(s, ts[n].op, lo);
      FedKeysIn(s, ts[n].op, keys);
      NothingToDrop(cfg, Fed(s, ts[n].op), ts[n].now, lo, keys);
    }
  }

  // ---- the same, entry by entry ----

  lemma {:induction false} ViewAt(s: seq<LogEntry>, i: nat)
    requires DistinctKeys(s) && i < |s|
    ensures KeyOf(s[i]) in View(s) && View(s)[KeyOf(s[i])] == StatsOf(s[i])
  {
    var n := |s| - 1;
    if i < n {
      ViewAt(s[..n], i);
      DistinctMeans(s);
    }
  }

  lemma {:induction false} ViewFrom(s: seq<LogEntry>, k: AggKey) returns (i: nat)
    requires DistinctKeys(s) && k in View(s)
    ensures i < |s| && KeyOf(s[i]) == k
  {
    var n := |s| - 1;
    if KeyOf(s[n]) == k {
      i := n;
    } else {
      i := ViewFrom(s[..n], k);
    }
  }

  /** Whatever the order of the same events, each entry of one buffer has an entry of the other with the same key,
      count, last sighting and severity, as far as that is error, warn or info. */
  lemma OrderIrrelevantFor(cfg: Config, b: Buf, ts: seq<Timed>, ts': seq<Timed>, i: nat) returns (j: nat)
    requires WellFormed(b.entries) && AllEvents(ts) && AllEvents(ts')
    requires multiset(Entries(ts)) == multiset(Entries(ts'))
    requires DropsNothing(cfg, b, ts) && DropsNothing(cfg, b, ts')
    requires i < |Continue(cfg, b, ts).entries|
    ensures j < |Continue(cfg, b, ts').entries|
    ensures var e, f := Continue(cfg, b, ts).entries[i], Continue(cfg, b, ts').entries[j];
            && f.title == e.title && f.source == e.source && BucketStart(f.timestamp) == BucketStart(e.timestamp)
            && f.count == e.count && f.lastSeen == e.lastSeen
            && (e.severity in {"error", "warn", "info"} ==> f.severity == e.severity)
  {
    hide Continue, View, DropsNothing, AllEvents, BucketStart, SeverityRank;
    OrderIrrelevant(cfg, b, ts, ts');
    ContinueWellFormed(cfg, b, ts);
    ContinueWellFormed(cfg, b, ts');
    var s, t := Continue(cfg, b, ts).entries, Continue(cfg, b, ts').entries;
    ViewAt(s, i);
    j := ViewFrom(t, KeyOf(s[i]));
    ViewAt(t, j);
    RanksNamed(s[i].severity);
    RanksNamed(t[j].severity);
  }
}
