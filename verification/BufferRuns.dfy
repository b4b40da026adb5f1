/** Counting over runs of the buffer: nothing is lost, and memory is bounded by dimensions. */
module BufferRuns {
  import opened Clock
  import opened LogModel
  import opened Ledger
  import opened Refinement
  import opened Sequences

  function Ops(ts: seq<Timed>): seq<Op> {
    if ts == [] then [] else Ops(ts[..|ts| - 1]) + [ts[|ts| - 1].op]
  }

  function Total(s: seq<LogEntry>): int {
    if s == [] then 0 else Total(s[..|s| - 1]) + s[|s| - 1].count
  }

  // ---- conservation ----

  lemma TotalSnoc(s: seq<LogEntry>, x: LogEntry)
    ensures Total(s + [x]) == Total(s) + x.count
  {
    Snoc(s, x);
  }

  lemma TotalNone()
    ensures Total([]) == 0
  {
  }

  lemma {:induction false} TotalConcat(a: seq<LogEntry>, b: seq<LogEntry>)
    ensures Total(a + b) == Total(a) + Total(b)
  {
    hide Total;
    if b == [] {
      TotalNone();
      assert a + b == a;
    } else {
      var c, x := b[..|b| - 1], b[|b| - 1];
      TotalConcat(a, c);
      TotalSnoc(c, x);
      TotalSnoc(a + c, x);
      Regroup(a, c, x);
      assert b == c + [x];
    }
  }

  lemma {:induction false} InsertTotal(s: seq<LogEntry>, x: LogEntry)
    ensures Total(Insert(s, x)) == Total(s) + x.count
  {
    if s == [] || s[|s| - 1].timestamp <= x.timestamp {
      TotalSnoc(s, x);
    } else {
      InsertTotal(s[..|s| - 1], x);
      TotalSnoc(Insert(s[..|s| - 1], x), s[|s| - 1]);
    }
  }

  lemma {:induction false} MergedTotal(s: seq<LogEntry>, op: Op)
    requires DistinctKeys(s)
    ensures Total(Merged(s, op)) == Total(s) + if HasKey(s, OpKey(op)) then Weight(op) else 0
  {
    if s != [] {
      var a, x := s[..|s| - 1], s[|s| - 1];
      MergedTotal(a, op);
      MergedLast(s, op);
      TotalSnoc(Merged(a, op), MergeIfSame(x, op));
    }
  }

  lemma FedTotal(s: seq<LogEntry>, op: Op)
    requires DistinctKeys(s)
    ensures Total(Fed(s, op)) == Total(s) + Weight(op)
  {
    MergedTotal(s, op);
    InsertTotal(s, First(op));
  }

  /** Counts are conserved: what the buffer holds and what it ever dropped add up to what it was fed. */
  lemma {:induction false} Conservation(cfg: Config, ts: seq<Timed>)
    ensures var w := Run(cfg, ts); Total(w.buf.entries) + Total(w.dropped) == TotalWeight(Ops(ts))
  {
    if ts != [] {
      var n := |ts| - 1;
      var w, t := Run(cfg, ts[..n]), ts[n];
      Conservation(cfg, ts[..n]);
      RunRefines(cfg, ts[..n]);
      RefinesWellFormed(w.buf.entries, w.ledger);
      FedTotal(w.buf.entries, t.op);
      Snoc(Ops(ts[..n]), t.op);
      if Prunes(w.buf, t.op) {
        var s := Fed(w.buf.entries, t.op);
        FedWellFormed(w.buf.entries, t.op);
        SplitTotal(cfg, s, t.now, DropCount(cfg, s, t.now), w.dropped);
      }
    }
  }

  lemma TotalSplit(s: seq<LogEntry>, d: nat)
    requires d <= |s|
    ensures Total(s[..d]) + Total(s[d..]) == Total(s)
  {
    TotalConcat(s[..d], s[d..]);
    assert s == s[..d] + s[d..];
  }

  lemma SplitTotal(cfg: Config, s: seq<LogEntry>, now: Time, d: nat, dropped: seq<LogEntry>)
    requires Sorted(s) && d == DropCount(cfg, s, now)
    ensures Total(Kept(cfg, s, now)) + Total(dropped + s[..d]) == Total(s) + Total(dropped)
  {
    KeptIsSuffix(cfg, s, now, d);
    TotalSplit(s, d);
    TotalConcat(dropped, s[..d]);
  }

  // ---- the length between prunes ----

  /** With a size cap, the buffer holds at most the cap plus what was inserted since the last prune,
      and fewer than 64 of those came from events. */
  lemma {:induction false} LengthBound(cfg: Config, ts: seq<Timed>)
    requires cfg.maxSize > 0
    ensures var w := Run(cfg, ts);
            |w.buf.entries| <= cfg.maxSize + w.buf.addN + w.loads && w.buf.addN < PRUNE_INTERVAL
  {
    hide OpKey, Record, First;
    if ts != [] {
      var n := |ts| - 1;
      LengthBound(cfg, ts[..n]);
    }
  }

  // ---- memory is bounded by dimensions ----

  lemma {:induction false} LiveOpsAreFed(cfg: Config, ts: seq<Timed>, k: AggKey, op: Op)
    requires op in LiveOps(cfg, ts, k)
    ensures OpKey(op) == k && exists i :: 0 <= i < |ts| && ts[i].op == op
  {
    var n := |ts| - 1;
    if OpKey(ts[n].op) == k && op == ts[n].op {
      assert ts[n].op == op;
    } else {
      LiveOpsAreFed(cfg, ts[..n], k, op);
      var i :| 0 <= i < n && ts[..n][i].op == op;
      assert ts[i].op == op;
    }
  }

  /** The keys of n buckets starting at index j, for the given (title, source) pairs. */
  function Grid(j: int, n: nat, pairs: set<(string, string)>): set<AggKey> {
    if n == 0 then {} else Grid(j, n - 1, pairs) + Row(j + n - 1, pairs)
  }

  function Row(j: int, pairs: set<(string, string)>): set<AggKey> {
    set p | p in pairs :: AggKey(900 * j, p.0, p.1)
  }

  lemma {:induction false} RowSize(j: int, pairs: set<(string, string)>)
    ensures |Row(j, pairs)| <= |pairs|
  {
    if pairs != {} {
      var p :| p in pairs;
      RowSize(j, pairs - {p});
      assert Row(j, pairs) == Row(j, pairs - {p}) + {AggKey(900 * j, p.0, p.1)};
    }
  }

  lemma {:induction false} GridSize(j: int, n: nat, pairs: set<(string, string)>)
    ensures |Grid(j, n, pairs)| <= n * |pairs|
  {
    hide Row;
    if n > 0 {
      GridSize(j, n - 1, pairs);
      RowSize(j + n - 1, pairs);
      assert n * |pairs| == (n - 1) * |pairs| + |pairs|;
    }
  }

  lemma {:induction false} GridHas(j: int, n: nat, pairs: set<(string, string)>, b: int, title: string, source: string)
    requires j <= b < j + n && (title, source) in pairs
    ensures AggKey(900 * b, title, source) in Grid(j, n, pairs)
  {
    if b == j + n - 1 {
      var p := (title, source);
      assert AggKey(900 * b, p.0, p.1) in Row(b, pairs);
    } else {
      GridHas(j, n - 1, pairs, b, title, source);
    }
  }

  /** Entries with distinct keys are at most as many as the keys they may have. */
  lemma {:induction false} DistinctFit(s: seq<LogEntry>, keys: set<AggKey>)
    requires DistinctKeys(s)
    requires forall k :: HasKey(s, k) ==> k in keys
    ensures |s| <= |keys|
  {
    if s != [] {
      var a, k := s[..|s| - 1], KeyOf(s[|s| - 1]);
      assert HasKey(s, k);
      forall k' | HasKey(a, k')
        ensures k' in keys - {k}
      {
        assert HasKey(s, k');
      }
      DistinctFit(a, keys - {k});
    }
  }

  /** All operations arrive in a span of w seconds with one of the given (title, source) pairs. */
  ghost predicate Confined(ts: seq<Timed>, t0: Time, w: nat, pairs: set<(string, string)>) {
    forall i :: 0 <= i < |ts| ==>
                  var e := ts[i].op.e;
                  t0 <= e.timestamp <= t0 + w * SECOND && (e.title, e.source) in pairs
  }

  /** However many events are fed, the buffer never holds more than one entry per bucket and pair. */
  lemma MemoryBound(cfg: Config, ts: seq<Timed>, t0: Time, w: nat, pairs: set<(string, string)>)
    requires Confined(ts, t0, w, pairs)
    ensures |Run(cfg, ts).buf.entries| <= (CeilDiv(w, 900) + 1) * |pairs|
  {
    var s := Run(cfg, ts).buf.entries;
    var j, n := BucketIndex(t0), CeilDiv(w, 900) + 1;
    forall k | HasKey(s, k)
      ensures k in Grid(j, n, pairs)
    {
      NothingElseIsLive(cfg, ts, k);
      var op := LiveOps(cfg, ts, k)[0];
      LiveOpsAreFed(cfg, ts, k, op);
      BucketSpread(t0, op.e.timestamp, w);
      BucketIsIndexed(op.e.timestamp);
      GridHas(j, n, pairs, BucketIndex(op.e.timestamp), op.e.title, op.e.source);
    }
    RunRefines(cfg, ts);
    RefinesWellFormed(s, Run(cfg, ts).ledger);
    DistinctFit(s, Grid(j, n, pairs));
    GridSize(j, n, pairs);
  }

  // ---- the zero time never returns ----

  /** When no operation carries the zero time, no entry ever has it as its last sighting. */
  lemma LastSeenNeverZero(cfg: Config, ts: seq<Timed>, i: nat)
    requires forall j :: 0 <= j < |ts| ==> ts[j].op.e.timestamp != ZERO_TIME
    requires i < |Run(cfg, ts).buf.entries|
    ensures Run(cfg, ts).buf.entries[i].lastSeen != ZERO_TIME
  {
    var e := Run(cfg, ts).buf.entries[i];
    var k := KeyOf(e);
    EntryAccountsForItsEvents(cfg, ts, i);
    var live: History := LiveOps(cfg, ts, k);
    var m :| 0 <= m < |live| && SeenAt(live[m]) == e.lastSeen;
    LiveOpsAreFed(cfg, ts, k, live[m]);
  }

  /** Counts stay positive. */
  lemma {:induction false} WeightPositive(h: History)
    ensures 1 <= TotalWeight(h)
  {
    var n := |h| - 1;
    if n > 0 {
      WeightPositive(h[..n]);
    } else {
      assert h[..0] == [];
    }
  }

  lemma CountPositive(cfg: Config, ts: seq<Timed>, i: nat)
    requires i < |Run(cfg, ts).buf.entries|
    ensures 1 <= Run(cfg, ts).buf.entries[i].count
  {
    EntryAccountsForItsEvents(cfg, ts, i);
    WeightPositive(LiveOps(cfg, ts, KeyOf(Run(cfg, ts).buf.entries[i])));
  }
}
