/** Aggregated log entries and the value-level specification of the log buffer. */
module LogModel {
  import opened Clock
  import opened Sequences

  datatype LogEntry = LogEntry(timestamp: Time, lastSeen: Time, source: string, severity: string,
                               line: string, title: string, mitigation: string, count: int)

  datatype AggKey = AggKey(bucketStart: int, title: string, source: string)

  datatype Config = Config(maxAge: int, maxSize: int)

  /** Everything that feeds the buffer: a raw event, or an entry read back from disk. */
  datatype Op = Event(e: LogEntry) | Bulk(e: LogEntry)

  const PRUNE_INTERVAL: nat := 64

  function KeyOf(e: LogEntry): AggKey {
    AggKey(BucketStart(e.timestamp), e.title, e.source)
  }

  function SeverityRank(s: string): nat {
    if s == "error" then 3 else if s == "warn" then 2 else if s == "info" then 1 else 0
  }

  function Rank(e: LogEntry): nat {
    SeverityRank(e.severity)
  }

  function FreshEvent(e: LogEntry): LogEntry {
    e.(count := 1, lastSeen := e.timestamp)
  }

  /** How an entry read from disk is completed when it predates aggregation. */
  function Normalise(e: LogEntry): LogEntry {
    e.(count := if e.count < 1 then 1 else e.count,
       lastSeen := if e.lastSeen == ZERO_TIME then e.timestamp else e.lastSeen)
  }

  function MergeEvent(x: LogEntry, e: LogEntry): LogEntry {
    var y := x.(count := x.count + 1, lastSeen := Max(x.lastSeen, e.timestamp));
    if Rank(e) > Rank(x) then
      y.(severity := e.severity, line := e.line,
         mitigation := if e.mitigation != "" then e.mitigation else x.mitigation)
    else y
  }

  function MergeAggregated(x: LogEntry, e: LogEntry): LogEntry {
    x.(count := x.count + e.count, lastSeen := Max(x.lastSeen, e.lastSeen))
  }

  /** The entry that op creates when its key is new. */
  function First(op: Op): LogEntry {
    match op
    case Event(e) => FreshEvent(e)
    case Bulk(e) => Normalise(e)
  }

  function OpKey(op: Op): AggKey {
    KeyOf(op.e)
  }

  function Merge(x: LogEntry, op: Op): LogEntry {
    match op
    case Event(e) => MergeEvent(x, e)
    case Bulk(e) => MergeAggregated(x, Normalise(e))
  }

  function MergeIfSame(x: LogEntry, op: Op): LogEntry {
    if KeyOf(x) == OpKey(op) then Merge(x, op) else x
  }

  lemma MergeKeeps(x: LogEntry, op: Op)
    ensures MergeIfSame(x, op).timestamp == x.timestamp && KeyOf(MergeIfSame(x, op)) == KeyOf(x)
    ensures KeyOf(First(op)) == OpKey(op) && First(op).timestamp == op.e.timestamp
  {
  }

  // ---- sequences of entries ----

  /** Oldest first. */
  predicate Sorted(s: seq<LogEntry>) {
    var n := |s|;
    n <= 1 || (Sorted(s[..n - 1]) && s[n - 2].timestamp <= s[n - 1].timestamp)
  }

  predicate HasKey(s: seq<LogEntry>, k: AggKey) {
    s != [] && (KeyOf(s[|s| - 1]) == k || HasKey(s[..|s| - 1], k))
  }

  predicate DistinctKeys(s: seq<LogEntry>) {
    s == [] || (DistinctKeys(s[..|s| - 1]) && !HasKey(s[..|s| - 1], KeyOf(s[|s| - 1])))
  }

  predicate WellFormed(s: seq<LogEntry>) {
    Sorted(s) && DistinctKeys(s)
  }

  lemma {:induction false} SortedMeans(s: seq<LogEntry>)
    ensures Sorted(s) <==> forall i, j :: 0 <= i < j < |s| ==> s[i].timestamp <= s[j].timestamp
  {
    var n := |s|;
    if n > 1 {
      SortedMeans(s[..n - 1]);
      if Sorted(s) {
        forall i, j | 0 <= i < j < n
          ensures s[i].timestamp <= s[j].timestamp
        {
          assert s[i] == s[..n - 1][i];
        }
      } else if Sorted(s[..n - 1]) {
        assert s[n - 2].timestamp > s[n - 1].timestamp;
      } else {
        var i, j :| 0 <= i < j < n - 1 && s[..n - 1][i].timestamp > s[..n - 1][j].timestamp;
        assert s[i].timestamp > s[j].timestamp;
      }
    }
  }

  lemma {:induction false} HasKeyMeans(s: seq<LogEntry>, k: AggKey)
    ensures HasKey(s, k) <==> exists i :: 0 <= i < |s| && KeyOf(s[i]) == k
  {
    hide KeyOf;
    if s != [] {
      var n := |s| - 1;
      HasKeyMeans(s[..n], k);
      if HasKey(s, k) && KeyOf(s[n]) != k {
        var i :| 0 <= i < n && KeyOf(s[..n][i]) == k;
        assert KeyOf(s[i]) == k;
      }
    }
  }

  lemma {:induction false} DistinctMeans(s: seq<LogEntry>)
    ensures DistinctKeys(s) <==> forall i, j :: 0 <= i < j < |s| ==> KeyOf(s[i]) != KeyOf(s[j])
  {
    hide KeyOf;
    if s != [] {
      var n := |s| - 1;
      var k := KeyOf(s[n]);
      DistinctMeans(s[..n]);
      HasKeyMeans(s[..n], k);
      if DistinctKeys(s) {
        forall i, j | 0 <= i < j < |s|
          ensures KeyOf(s[i]) != KeyOf(s[j])
        {
          assert KeyOf(s[..n][i]) == KeyOf(s[i]);
        }
      } else if HasKey(s[..n], k) {
        var i :| 0 <= i < n && KeyOf(s[..n][i]) == k;
        assert KeyOf(s[i]) == KeyOf(s[n]);
      } else {
        var i, j :| 0 <= i < j < n && KeyOf(s[..n][i]) == KeyOf(s[..n][j]);
        assert KeyOf(s[i]) == KeyOf(s[j]);
      }
    }
  }

  function Merged(s: seq<LogEntry>, op: Op): (r: seq<LogEntry>)
    ensures |r| == |s|
  {
    seq(|s|, i requires 0 <= i < |s| => MergeIfSame(s[i], op))
  }

  /** x goes after every entry that is not later than it, counted from the newest end. */
  function Insert(s: seq<LogEntry>, x: LogEntry): (r: seq<LogEntry>)
    ensures |r| == |s| + 1
  {
    if s == [] || s[|s| - 1].timestamp <= x.timestamp then s + [x]
    else Insert(s[..|s| - 1], x) + [s[|s| - 1]]
  }

  /** Where Insert places an entry of time t. */
  function UpperBound(s: seq<LogEntry>, t: Time): (i: nat)
    ensures i <= |s|
  {
    if s == [] || s[|s| - 1].timestamp <= t then |s| else UpperBound(s[..|s| - 1], t)
  }

  /** Where the entries that are not before lo start, in a sorted sequence. */
  function LowerBound(s: seq<LogEntry>, lo: Time): (i: nat)
    ensures i <= |s|
  {
    if s == [] || s[|s| - 1].timestamp < lo then |s| else LowerBound(s[..|s| - 1], lo)
  }

  /** The entries with lo <= timestamp < hi, in order. */
  function InRange(s: seq<LogEntry>, lo: Time, hi: Time): seq<LogEntry> {
    if s == [] then []
    else
      var x, rest := s[|s| - 1], InRange(s[..|s| - 1], lo, hi);
      if lo <= x.timestamp < hi then rest + [x] else rest
  }

  /** The entries with lo <= timestamp, in order. */
  function NotBefore(s: seq<LogEntry>, lo: Time): seq<LogEntry> {
    if s == [] then []
    else
      var x, rest := s[|s| - 1], NotBefore(s[..|s| - 1], lo);
      if lo <= x.timestamp then rest + [x] else rest
  }

  /** The last n elements, or all of them. */
  function Newest<T>(s: seq<T>, n: nat): seq<T> {
    if |s| <= n then s else s[|s| - n..]
  }

  /** What a prune keeps: the newest maxSize of the entries that are not too old. */
  function Kept(cfg: Config, s: seq<LogEntry>, now: Time): seq<LogEntry> {
    var young := if cfg.maxAge > 0 then NotBefore(s, now - cfg.maxAge) else s;
    if cfg.maxSize > 0 then Newest(young, cfg.maxSize) else young
  }

  // ---- the buffer as a value ----

  datatype Buf = Buf(entries: seq<LogEntry>, addN: nat)

  const EMPTY: Buf := Buf([], 0)

  /** The entries once op is fed, before any prune. */
  function Fed(s: seq<LogEntry>, op: Op): seq<LogEntry> {
    if HasKey(s, OpKey(op)) then Merged(s, op) else Insert(s, First(op))
  }

  /** Whether op inserts the entry that triggers a prune: the 64th event insertion since the last. */
  predicate Prunes(b: Buf, op: Op) {
    op.Event? && !HasKey(b.entries, OpKey(op)) && b.addN + 1 >= PRUNE_INTERVAL
  }

  function Step(cfg: Config, b: Buf, op: Op, now: Time): Buf {
    var s := Fed(b.entries, op);
    if Prunes(b, op) then Buf(Kept(cfg, s, now), 0)
    else if op.Event? && !HasKey(b.entries, OpKey(op)) then Buf(s, b.addN + 1)
    else Buf(s, b.addN)
  }

  /** Feeding an entry read from disk needs no clock. */
  function Load(b: Buf, e: LogEntry): Buf {
    b.(entries := Fed(b.entries, Bulk(e)))
  }

  // ---- facts about the sequence operations ----

  lemma InsertSnoc(s: seq<LogEntry>, y: LogEntry, x: LogEntry)
    ensures Insert(s + [y], x) == if y.timestamp <= x.timestamp then s + [y] + [x] else Insert(s, x) + [y]
  {
    Snoc(s, y);
  }

  lemma {:induction false} InsertAt(s: seq<LogEntry>, x: LogEntry, i: nat)
    requires i == UpperBound(s, x.timestamp)
    ensures Insert(s, x) == s[..i] + [x] + s[i..]
  {
    if s == [] || s[|s| - 1].timestamp <= x.timestamp {
      assert s[..i] == s && s[i..] == [];
    } else {
      InsertAt(s[..|s| - 1], x, i);
      assert s[..|s| - 1][..i] == s[..i];
      assert s[..|s| - 1][i..] + [s[|s| - 1]] == s[i..];
    }
  }

  lemma {:induction false} UpperBoundIs(s: seq<LogEntry>, t: Time, i: nat)
    requires i <= |s|
    requires i == 0 || s[i - 1].timestamp <= t
    requires forall j :: i <= j < |s| ==> t < s[j].timestamp
    ensures UpperBound(s, t) == i
  {
    if i < |s| {
      UpperBoundIs(s[..|s| - 1], t, i);
    }
  }

  lemma {:induction false} LowerBoundIs(s: seq<LogEntry>, lo: Time, i: nat)
    requires i <= |s|
    requires i == 0 || s[i - 1].timestamp < lo
    requires forall j :: i <= j < |s| ==> lo <= s[j].timestamp
    ensures LowerBound(s, lo) == i
  {
    if i < |s| {
      LowerBoundIs(s[..|s| - 1], lo, i);
    }
  }

  lemma {:induction false} InsertHasKey(s: seq<LogEntry>, x: LogEntry, k: AggKey)
    ensures HasKey(Insert(s, x), k) <==> HasKey(s, k) || k == KeyOf(x)
  {
    var r := Insert(s, x);
    if s == [] || s[|s| - 1].timestamp <= x.timestamp {
      assert r[..|s|] == s;
    } else {
      InsertHasKey(s[..|s| - 1], x, k);
      assert r[..|s|] == Insert(s[..|s| - 1], x);
    }
  }

  lemma {:induction false} InsertLast(s: seq<LogEntry>, x: LogEntry)
    requires Sorted(s)
    ensures Insert(s, x)[|s|].timestamp == if s == [] then x.timestamp else Max(s[|s| - 1].timestamp, x.timestamp)
  {
  }

  lemma {:induction false} InsertSorted(s: seq<LogEntry>, x: LogEntry)
    requires Sorted(s)
    ensures Sorted(Insert(s, x))
  {
    var r := Insert(s, x);
    if s == [] || s[|s| - 1].timestamp <= x.timestamp {
      assert r[..|s|] == s;
    } else {
      var init := s[..|s| - 1];
      InsertSorted(init, x);
      InsertLast(init, x);
      assert r[..|s|] == Insert(init, x);
    }
  }

  lemma {:induction false} InsertDistinct(s: seq<LogEntry>, x: LogEntry)
    requires DistinctKeys(s) && !HasKey(s, KeyOf(x))
    ensures DistinctKeys(Insert(s, x))
  {
    var r := Insert(s, x);
    if s == [] || s[|s| - 1].timestamp <= x.timestamp {
      assert r[..|s|] == s;
    } else {
      var init := s[..|s| - 1];
      InsertDistinct(init, x);
      InsertHasKey(init, x, KeyOf(s[|s| - 1]));
      assert r[..|s|] == Insert(init, x);
    }
  }

  lemma {:induction false} InsertMembers(s: seq<LogEntry>, x: LogEntry)
    ensures multiset(Insert(s, x)) == multiset(s) + multiset{x}
  {
    if s != [] && x.timestamp < s[|s| - 1].timestamp {
      InsertMembers(s[..|s| - 1], x);
      assert s == s[..|s| - 1] + [s[|s| - 1]];
    }
  }

  lemma MergedLast(s: seq<LogEntry>, op: Op)
    requires s != []
    ensures Merged(s, op) == Merged(s[..|s| - 1], op) + [MergeIfSame(s[|s| - 1], op)]
    ensures Merged(s, op)[..|s| - 1] == Merged(s[..|s| - 1], op)
  {
  }

  lemma MergedSnoc(s: seq<LogEntry>, x: LogEntry, op: Op)
    ensures Merged(s + [x], op) == Merged(s, op) + [MergeIfSame(x, op)]
  {
  }

  lemma {:induction false} MergedHasKey(s: seq<LogEntry>, op: Op, k: AggKey)
    ensures HasKey(Merged(s, op), k) <==> HasKey(s, k)
  {
    if s != [] {
      MergedLast(s, op);
      MergeKeeps(s[|s| - 1], op);
      MergedHasKey(s[..|s| - 1], op, k);
    }
  }

  lemma {:induction false} MergedWellFormed(s: seq<LogEntry>, op: Op)
    ensures Sorted(s) ==> Sorted(Merged(s, op))
    ensures DistinctKeys(s) ==> DistinctKeys(Merged(s, op))
  {
    if s != [] {
      var n := |s| - 1;
      MergedLast(s, op);
      MergeKeeps(s[n], op);
      MergedWellFormed(s[..n], op);
      MergedHasKey(s[..n], op, KeyOf(s[n]));
      if n > 0 {
        MergeKeeps(s[n - 1], op);
      }
    }
  }

  /** On a sorted sequence the range filters are slices. */
  lemma {:induction false} NotBeforeIsSuffix(s: seq<LogEntry>, lo: Time, i: nat)
    requires Sorted(s) && i == LowerBound(s, lo)
    ensures NotBefore(s, lo) == s[i..]
  {
    if s != [] {
      var n := |s| - 1;
      var i' := LowerBound(s[..n], lo);
      NotBeforeIsSuffix(s[..n], lo, i');
      if s[n].timestamp >= lo {
        assert s[..n][i..] + [s[n]] == s[i..];
      }
    }
  }

  lemma {:induction false} InRangeIsSlice(s: seq<LogEntry>, lo: Time, hi: Time, i: nat, j: nat)
    requires Sorted(s) && lo <= hi
    requires i == LowerBound(s, lo) && j == LowerBound(s, hi)
    ensures i <= j
    ensures InRange(s, lo, hi) == s[i..j]
  {
    if s != [] {
      var n := |s| - 1;
      if s[n].timestamp < lo {
        InRangeIsSlice(s[..n], lo, hi, n, n);
      } else if s[n].timestamp < hi {
        InRangeIsSlice(s[..n], lo, hi, i, n);
        TakeAppend(s, i, n);
      } else {
        InRangeIsSlice(s[..n], lo, hi, i, j);
        TakeSlice(s, i, j, n);
      }
    }
  }

  lemma TakeAppend<T>(s: seq<T>, i: nat, n: nat)
    requires i <= n < |s|
    ensures s[..n][i..n] + [s[n]] == s[i..n + 1]
  {
  }

  lemma TakeSlice<T>(s: seq<T>, i: nat, j: nat, n: nat)
    requires i <= j <= n <= |s|
    ensures s[..n][i..j] == s[i..j]
  {
  }

  lemma {:induction false} SuffixWellFormed(s: seq<LogEntry>, d: nat)
    requires d <= |s|
    ensures Sorted(s) ==> Sorted(s[d..])
    ensures DistinctKeys(s) ==> DistinctKeys(s[d..])
    ensures forall k :: HasKey(s[d..], k) ==> HasKey(s, k)
  {
    if d < |s| {
      var n := |s| - 1;
      SuffixWellFormed(s[..n], d);
      assert s[d..][..n - d] == s[..n][d..];
    }
  }

  /** How many of the oldest entries a prune drops. */
  function DropCount(cfg: Config, s: seq<LogEntry>, now: Time): (d: nat)
    ensures d <= |s|
  {
    var expired := if cfg.maxAge > 0 then LowerBound(s, now - cfg.maxAge) else 0;
    if cfg.maxSize > 0 && |s| - expired > cfg.maxSize then |s| - cfg.maxSize else expired
  }

  lemma NewestOfSuffix<T>(s: seq<T>, i: nat, n: nat)
    requires i <= |s|
    ensures Newest(s[i..], n) == if |s| - i <= n then s[i..] else s[|s| - n..]
  {
  }

  /** A prune of a sorted buffer drops a prefix. */
  lemma KeptIsSuffix(cfg: Config, s: seq<LogEntry>, now: Time, d: nat)
    requires Sorted(s) && d == DropCount(cfg, s, now)
    ensures Kept(cfg, s, now) == s[d..]
  {
    hide NotBefore, LowerBound, Newest, Sorted;
    var i := if cfg.maxAge > 0 then LowerBound(s, now - cfg.maxAge) else 0;
    if cfg.maxAge > 0 {
      NotBeforeIsSuffix(s, now - cfg.maxAge, i);
    } else {
      assert s[0..] == s;
    }
    if cfg.maxSize > 0 {
      NewestOfSuffix(s, i, cfg.maxSize);
    }
  }

  lemma KeptWellFormed(cfg: Config, s: seq<LogEntry>, now: Time)
    requires WellFormed(s)
    ensures WellFormed(Kept(cfg, s, now))
    ensures forall k :: HasKey(Kept(cfg, s, now), k) ==> HasKey(s, k)
  {
    var d := DropCount(cfg, s, now);
    KeptIsSuffix(cfg, s, now, d);
    SuffixWellFormed(s, d);
  }

  /** The lower bound separates the entries before lo from the others. */
  lemma {:induction false} LowerBoundSeparates(s: seq<LogEntry>, lo: Time, i: nat)
    requires Sorted(s) && i < |s|
    ensures s[i].timestamp < lo <==> i < LowerBound(s, lo)
  {
    var n := |s| - 1;
    if i < n {
      LowerBoundSeparates(s[..n], lo, i);
      if s[n].timestamp < lo {
        SortedMeans(s);
      }
    }
  }

  /** Entry i survives a prune exactly when it is not older than the cutoff and fewer than
      maxSize entries come after it. */
  lemma KeptExactly(cfg: Config, s: seq<LogEntry>, now: Time, i: nat)
    requires WellFormed(s) && i < |s|
    ensures HasKey(Kept(cfg, s, now), KeyOf(s[i])) <==>
            (cfg.maxAge > 0 ==> now - cfg.maxAge <= s[i].timestamp) &&
            (cfg.maxSize > 0 ==> |s| - 1 - i < cfg.maxSize)
  {
    hide Kept, HasKey, KeyOf, Sorted, DistinctKeys, LowerBound;
    var d := DropCount(cfg, s, now);
    KeptIsSuffix(cfg, s, now, d);
    SuffixHasKey(s, d, i);
    LowerBoundSeparates(s, now - cfg.maxAge, i);
  }

  lemma SuffixHasKey(s: seq<LogEntry>, d: nat, i: nat)
    requires DistinctKeys(s) && d <= |s| && i < |s|
    ensures HasKey(s[d..], KeyOf(s[i])) <==> d <= i
  {
    DistinctMeans(s);
    HasKeyMeans(s[d..], KeyOf(s[i]));
    if d <= i {
      assert s[d..][i - d] == s[i];
    }
  }

  lemma FedWellFormed(s: seq<LogEntry>, op: Op)
    requires WellFormed(s)
    ensures WellFormed(Fed(s, op))
  {
    MergeKeeps(First(op), op);
    if HasKey(s, OpKey(op)) {
      MergedWellFormed(s, op);
    } else {
      InsertSorted(s, First(op));
      InsertDistinct(s, First(op));
    }
  }

  lemma StepWellFormed(cfg: Config, b: Buf, op: Op, now: Time)
    requires WellFormed(b.entries)
    ensures WellFormed(Step(cfg, b, op, now).entries)
  {
    FedWellFormed(b.entries, op);
    KeptWellFormed(cfg, Fed(b.entries, op), now);
  }

  lemma LoadIsStep(cfg: Config, b: Buf, e: LogEntry, now: Time)
    ensures Load(b, e) == Step(cfg, b, Bulk(e), now)
  {
  }

  // ---- severities by name ----

  lemma Names()
    ensures "error" != "warn" && "error" != "info" && "warn" != "info"
  {
    assert "error"[0] == 'e' && "warn"[0] == 'w' && "info"[0] == 'i';
  }

  lemma RanksNamed(s: string)
    ensures SeverityRank(s) == 3 <==> s == "error"
    ensures SeverityRank(s) == 2 <==> s == "warn"
    ensures SeverityRank(s) == 1 <==> s == "info"
    ensures SeverityRank(s) <= 3
  {
    Names();
  }

  /** r is the worse of the severities a and b, by name. */
  predicate IsWorseSeverity(a: string, b: string, r: string) {
    && (r == "error" <==> a == "error" || b == "error")
    && (r == "warn" <==> a != "error" && b != "error" && (a == "warn" || b == "warn"))
    && (r == "info" <==> a !in {"error", "warn"} && b !in {"error", "warn"} && (a == "info" || b == "info"))
  }

  /** An event makes its entry show the worse of the two severities, and its line if it is the worse. */
  lemma MergedSeverity(x: LogEntry, e: LogEntry)
    ensures IsWorseSeverity(x.severity, e.severity, MergeEvent(x, e).severity)
    ensures MergeEvent(x, e).severity == x.severity ==> MergeEvent(x, e).line == x.line
    ensures MergeEvent(x, e).severity != x.severity ==> MergeEvent(x, e).line == e.line
  {
    hide SeverityRank;
    RanksNamed(x.severity);
    RanksNamed(e.severity);
    Names();
  }
}
