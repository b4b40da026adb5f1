/** Any run of pushes and restarts of the metrics ring: the file of a day is that day as last saved, and each
    restart brings back exactly that. */
module MetricRuns {
  import opened Clock
  import opened Metrics
  import opened MetricFiles
  import opened Sequences

  /** The ring, the pushes since the last save, and the files. */
  datatype MetricHost = MetricHost(points: seq<MetricPoint>, saveN: nat, files: map<int, MetricFile>)

  datatype MetricOp = Push(r: Reading) | Restart(listing: seq<int>, now: Time)

  function MetricStep(machineId: string, h: MetricHost, op: MetricOp): MetricHost {
    match op
    case Push(r) =>
      var points := Newest(h.points + [r.p]);
      if h.saveN + 1 >= 20 then MetricHost(points, 0, SavedToday(h.files, machineId, points, r.now))
      else MetricHost(points, h.saveN + 1, h.files)
    case Restart(listing, now) => MetricHost(Loaded(h.files, machineId, Unix(now) - 604_800, listing), 0, h.files)
  }

  function MetricRun(machineId: string, h: MetricHost, ops: seq<MetricOp>): MetricHost {
    if ops == [] then h else MetricStep(machineId, MetricRun(machineId, h, ops[..|ops| - 1]), ops[|ops| - 1])
  }

  predicate Ascending(listing: seq<int>) {
    listing == [] ||
    (var n := |listing| - 1; Ascending(listing[..n]) && (n > 0 ==> listing[n - 1] < listing[n]))
  }

  /** Readings come in order of time and are pushed on their day; a restart lists the files in order of date. */
  ghost predicate LegalOp(h: MetricHost, op: MetricOp) {
    match op
    case Push(r) =>
      r.p.t / 86_400 == DayOf(r.now) && (h.points == [] || h.points[|h.points| - 1].t <= r.p.t)
    case Restart(listing, _) => Ascending(listing) && forall d :: d in h.files ==> d in listing
  }

  ghost predicate Legal(machineId: string, h: MetricHost, ops: seq<MetricOp>) {
    ops == [] ||
    (var n := |ops| - 1; Legal(machineId, h, ops[..n]) && LegalOp(MetricRun(machineId, h, ops[..n]), ops[n]))
  }

  ghost predicate HostOk(h: MetricHost, machineId: string) {
    InOrder(h.points) && forall d :: DayInOrder(Stored(h.files, machineId, d), d)
  }

  lemma {:induction false} OrderlyListing(files: map<int, MetricFile>, machineId: string, listing: seq<int>)
    requires Ascending(listing) && forall d :: DayInOrder(Stored(files, machineId, d), d)
    ensures Orderly(files, machineId, listing)
  {
    hide DayInOrder, Stored;
    if listing != [] {
      OrderlyListing(files, machineId, listing[..|listing| - 1]);
    }
  }

  lemma PushInOrder(s: seq<MetricPoint>, p: MetricPoint)
    requires InOrder(s) && (s == [] || s[|s| - 1].t <= p.t)
    ensures InOrder(s + [p]) && InOrder(Newest(s + [p]))
    ensures Newest(s + [p]) != [] && Newest(s + [p])[|Newest(s + [p])| - 1] == p
  {
  }

  lemma SaveKeepsOrder(files: map<int, MetricFile>, machineId: string, pts: seq<MetricPoint>, now: Time, d: int)
    requires InOrder(pts) && pts != [] && pts[|pts| - 1].t / 86_400 == DayOf(now)
    requires DayInOrder(Stored(files, machineId, d), d)
    ensures DayInOrder(Stored(SavedToday(files, machineId, pts, now), machineId, d), d)
  {
    if d == DayOf(now) {
      SaveIsInOrder(pts, d);
    }
  }

  lemma StepOk(machineId: string, h: MetricHost, op: MetricOp)
    requires HostOk(h, machineId) && LegalOp(h, op)
    ensures HostOk(MetricStep(machineId, h, op), machineId)
  {
    hide InOrder, DayInOrder, Stored, SavedToday, Newest, Loaded;
    match op
    case Push(r) =>
      PushInOrder(h.points, r.p);
      forall d
        ensures DayInOrder(Stored(MetricStep(machineId, h, op).files, machineId, d), d)
      {
        assert DayInOrder(Stored(h.files, machineId, d), d);
        SaveKeepsOrder(h.files, machineId, Newest(h.points + [r.p]), r.now, d);
      }
    case Restart(listing, now) =>
      OrderlyListing(h.files, machineId, listing);
      RestartReadsBack(h.files, machineId, listing, Unix(now) - 604_800, 0);
  }

  lemma {:induction false} RunOk(machineId: string, h: MetricHost, ops: seq<MetricOp>)
    requires HostOk(h, machineId) && Legal(machineId, h, ops)
    ensures HostOk(MetricRun(machineId, h, ops), machineId)
  {
    hide MetricStep, HostOk, LegalOp;
    if ops != [] {
      var n := |ops| - 1;
      RunOk(machineId, h, ops[..n]);
      StepOk(machineId, MetricRun(machineId, h, ops[..n]), ops[n]);
    }
  }

  /** Operation op is a push that saves on day d. */
  predicate SavesDay(h: MetricHost, op: MetricOp, d: int) {
    op.Push? && h.saveN + 1 >= 20 && DayOf(op.r.now) == d
  }

  /** No operation from k on saves on day d. */
  predicate Unsaved(machineId: string, h: MetricHost, ops: seq<MetricOp>, k: nat, d: int)
    requires k <= |ops|
  {
    |ops| == k ||
    (var n := |ops| - 1;
     Unsaved(machineId, h, ops[..n], k, d) && !SavesDay(MetricRun(machineId, h, ops[..n]), ops[n], d))
  }

  lemma {:induction false} FileStays(machineId: string, h: MetricHost, ops: seq<MetricOp>, k: nat, d: int)
    requires k <= |ops| && Unsaved(machineId, h, ops, k, d)
    ensures Stored(MetricRun(machineId, h, ops).files, machineId, d) ==
              Stored(MetricRun(machineId, h, ops[..k]).files, machineId, d)
    decreases |ops|
  {
    hide AtLeast, Newest, Loaded;
    if |ops| == k {
      assert ops[..k] == ops;
    } else {
      var n := |ops| - 1;
      FileStays(machineId, h, ops[..n], k, d);
      assert ops[..n][..k] == ops[..k];
    }
  }

  lemma SaveStores(machineId: string, h: MetricHost, op: MetricOp, d: int)
    requires HostOk(h, machineId) && LegalOp(h, op) && SavesDay(h, op, d)
    ensures var after := MetricStep(machineId, h, op); Stored(after.files, machineId, d) == OnDay(after.points, d)
  {
    hide InOrder, DayInOrder, AtLeast, OnDay, Newest;
    var pts := Newest(h.points + [op.r.p]);
    PushInOrder(h.points, op.r.p);
    NoneLater(pts, d);
    AtLeastIsOnDay(pts, d);
    AtLeastInOrder(pts, d * 86_400);
    StoredToday(h.files, machineId, pts, op.r.now);
  }

  /** Over every run, across any number of restarts, the file of a day holds that day of the ring as it was at
      the last save made on the day. */
  lemma FileIsLastSaveOfRun(machineId: string, h: MetricHost, ops: seq<MetricOp>, k: nat, d: int)
    requires HostOk(h, machineId) && Legal(machineId, h, ops) && 0 < k <= |ops|
    requires SavesDay(MetricRun(machineId, h, ops[..k - 1]), ops[k - 1], d) && Unsaved(machineId, h, ops, k, d)
    ensures Stored(MetricRun(machineId, h, ops).files, machineId, d) ==
              OnDay(MetricRun(machineId, h, ops[..k]).points, d)
  {
    hide HostOk, LegalOp, SavesDay, MetricStep, Stored, OnDay;
    FileStays(machineId, h, ops, k, d);
    LegalPart(machineId, h, ops, k);
    assert ops[..k][..k - 1] == ops[..k - 1];
    RunOk(machineId, h, ops[..k - 1]);
    SaveStores(machineId, MetricRun(machineId, h, ops[..k - 1]), ops[k - 1], d);
  }

  lemma {:induction false} LegalPart(machineId: string, h: MetricHost, ops: seq<MetricOp>, k: nat)
    requires k <= |ops| && Legal(machineId, h, ops)
    ensures Legal(machineId, h, ops[..k])
    decreases |ops|
  {
    hide LegalOp, MetricRun;
    if k == |ops| {
      assert ops[..k] == ops;
    } else {
      var n := |ops| - 1;
      LegalPart(machineId, h, ops[..n], k);
      assert ops[..n][..k] == ops[..k];
    }
  }

  /** And each restart brings back of a day what its last save stored, within the last seven days, as much as
      the points of later days leave room for. */
  lemma RestartReadsLastSave(machineId: string, h: MetricHost, ops: seq<MetricOp>, k: nat, d: int, listing: seq<int>,
                             now: Time)
    requires HostOk(h, machineId) && Legal(machineId, h, ops + [Restart(listing, now)]) && 0 < k <= |ops|
    requires SavesDay(MetricRun(machineId, h, ops[..k - 1]), ops[k - 1], d) && Unsaved(machineId, h, ops, k, d)
    requires d in listing
    ensures var cutoff := Unix(now) - 604_800;
            var files := MetricRun(machineId, h, ops).files;
            OnDay(MetricRun(machineId, h, ops + [Restart(listing, now)]).points, d) ==
              LastN(AtLeast(OnDay(MetricRun(machineId, h, ops[..k]).points, d), cutoff),
                    Room(Collected(files, machineId, cutoff, listing), d, MAX_POINTS))
  {
    hide HostOk, SavesDay, Unsaved, Stored, OnDay, AtLeast, LastN, Room, Collected, Loaded, DayInOrder, InOrder;
    Snoc(ops, Restart(listing, now));
    FileIsLastSaveOfRun(machineId, h, ops, k, d);
    RunOk(machineId, h, ops);
    ListingOk(MetricRun(machineId, h, ops), machineId, listing);
    RestartReadsBack(MetricRun(machineId, h, ops).files, machineId, listing, Unix(now) - 604_800, d);
  }

  lemma ListingOk(h: MetricHost, machineId: string, listing: seq<int>)
    requires HostOk(h, machineId) && Ascending(listing)
    ensures Orderly(h.files, machineId, listing)
  {
    hide DayInOrder, InOrder;
    OrderlyListing(h.files, machineId, listing);
  }
}
