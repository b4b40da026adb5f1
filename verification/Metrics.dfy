/** The metrics buffer: the newest readings, thinned out for display, and its daily files. */
module Metrics {
  import opened Clock
  import opened Sequences

  const MAX_POINTS: int := 20_160

  type Byte = b: int | 0 <= b < 256

  /** A reading: whole seconds since the epoch, memory use in percent, load average. */
  datatype MetricPoint = MetricPoint(t: int, memory: Byte, load: real)

  datatype MetricFile = Unreadable | MetricFile(machineId: string, points: seq<MetricPoint>)

  /** A reading and the instant at which it is pushed. */
  datatype Reading = Reading(p: MetricPoint, now: Time)

  function Newest(s: seq<MetricPoint>): (r: seq<MetricPoint>) {
    if |s| > MAX_POINTS then s[|s| - MAX_POINTS..] else s
  }

  // ---- sampling ----

  /** The index of sample i of m out of n points. */
  function SampleIndex(n: nat, m: nat, i: nat): nat
    requires 0 < m
  {
    (i * n) / m
  }

  function Sampled(pts: seq<MetricPoint>, m: nat, count: nat): seq<MetricPoint>
    requires 0 < m < |pts| && count <= m
  {
    if count == 0 then []
    else
      SampleInRange(|pts|, m, count - 1);
      Sampled(pts, m, count - 1) + [pts[SampleIndex(|pts|, m, count - 1)]]
  }

  /** All points if they fit, else maxPoints samples. */
  function Thinned(pts: seq<MetricPoint>, maxPoints: int): seq<MetricPoint> {
    if maxPoints <= 0 || |pts| <= maxPoints then pts else Sampled(pts, maxPoints, maxPoints)
  }

  /** A common positive factor can be cancelled. */
  lemma Cancel(a: int, b: int, m: int)
    requires 0 < m
    ensures a * m < b * m <==> a < b
  {
    if a < b {
      assert (b - a) * m > 0;
    } else {
      assert (a - b) * m >= 0;
    }
  }

  lemma CancelReal(a: real, b: real, m: real)
    requires 0.0 < m
    ensures a * m < b * m <==> a < b
  {
    if a < b {
      assert (b - a) * m > 0.0;
    } else {
      assert (a - b) * m >= 0.0;
    }
  }

  lemma DivIs(x: int, m: int)
    requires 0 < m
    ensures (x / m) * m <= x < (x / m + 1) * m
  {
    assert x == (x / m) * m + x % m;
    assert (x / m + 1) * m == (x / m) * m + m;
  }

  lemma QuotientsMeet(p: int, q: int, x: int, m: int)
    requires 0 < m && p * m <= x < (p + 1) * m && q * m <= x < (q + 1) * m
    ensures p == q
  {
    Cancel(p, q + 1, m);
    Cancel(q, p + 1, m);
  }

  lemma DivUnique(x: int, m: int, q: int)
    requires 0 < m && q * m <= x < (q + 1) * m
    ensures x / m == q
  {
    DivIs(x, m);
    QuotientsMeet(x / m, q, x, m);
  }

  /** The quotient rounded up is the least number of steps of size m reaching n. */
  lemma CeilIs(n: int, m: int)
    requires 0 < m
    ensures (CeilDiv(n, m) - 1) * m < n <= CeilDiv(n, m) * m
  {
    var c := CeilDiv(n, m);
    DivIs(-n, m);
    assert (-c) * m == -(c * m);
    assert (-c + 1) * m == -((c - 1) * m);
  }

  lemma SampleInRange(n: nat, m: nat, i: nat)
    requires i < m && 0 < n
    ensures SampleIndex(n, m, i) < n
  {
    DivIs(i * n, m);
    Cancel(i, m, n);
    Cancel(SampleIndex(n, m, i), n, m);
  }

  lemma StepTimes(a: real, b: real, c: real)
    requires 0.0 < c
    ensures a * (b / c) * c == a * b
  {
    var step := b / c;
    assert step * c == b;
    assert a * step * c == a * (step * c);
  }

  lemma Between(a: real, y: real, b: real, m: real)
    requires 0.0 < m && a * m <= y * m < b * m
    ensures a <= y < b
  {
    CancelReal(y, a, m);
    CancelReal(y, b, m);
  }

  lemma FloorIs(y: real, q: int)
    requires q as real <= y < (q + 1) as real
    ensures y.Floor == q
  {
  }

  lemma RealFloor(y: real, x: int, m: int, q: int)
    requires 0 < m && q * m <= x < (q + 1) * m && y * m as real == x as real
    ensures y.Floor == q
  {
    var low, high := q * m, (q + 1) * m;
    AsProduct(q, m);
    AsProduct(q + 1, m);
    assert low as real <= x as real < high as real;
    Between(q as real, y, (q + 1) as real, m as real);
    FloorIs(y, q);
  }

  /** Multiplying by the step n/m and rounding down picks exactly index floor(i * n / m). */
  lemma StepIsIndex(n: nat, m: nat, i: nat)
    requires 0 < m
    ensures (i as real * (n as real / m as real)).Floor == SampleIndex(n, m, i)
  {
    var x := i * n;
    StepTimes(i as real, n as real, m as real);
    AsProduct(i, n);
    DivIs(x, m);
    RealFloor(i as real * (n as real / m as real), x, m, x / m);
  }

  lemma AsProduct(a: int, b: int)
    ensures (a * b) as real == a as real * b as real
  {
  }

  lemma GoIndex(n: nat, m: nat, i: nat, step: real)
    requires i < m && 0 < n && step == n as real / m as real
    ensures (i as real * step).Floor == SampleIndex(n, m, i) && 0 <= SampleIndex(n, m, i) < n
  {
    StepIsIndex(n, m, i);
    SampleInRange(n, m, i);
  }

  lemma {:induction false} SampledAt(pts: seq<MetricPoint>, m: nat, count: nat, i: nat)
    requires 0 < m < |pts| && i < count <= m
    ensures |Sampled(pts, m, count)| == count
    ensures 0 <= SampleIndex(|pts|, m, i) < |pts|
    ensures Sampled(pts, m, count)[i] == pts[SampleIndex(|pts|, m, i)]
  {
    SampleInRange(|pts|, m, count - 1);
    SampleInRange(|pts|, m, i);
    if i < count - 1 {
      SampledAt(pts, m, count - 1, i);
    } else {
      SampledLength(pts, m, count - 1);
    }
  }

  lemma {:induction false} SampledLength(pts: seq<MetricPoint>, m: nat, count: nat)
    requires 0 < m < |pts| && count <= m
    ensures |Sampled(pts, m, count)| == count
  {
    if count > 0 {
      SampledLength(pts, m, count - 1);
    }
  }

  lemma SampledSnoc(pts: seq<MetricPoint>, m: nat, count: nat)
    requires 0 < m < |pts| && count < m
    ensures 0 <= SampleIndex(|pts|, m, count) < |pts|
    ensures Sampled(pts, m, count + 1) == Sampled(pts, m, count) + [pts[SampleIndex(|pts|, m, count)]]
  {
    SampleInRange(|pts|, m, count);
  }

  /** Sampling fewer points than there are starts at the first one and moves on by n/m, rounded down or up. */
  lemma SamplesAreEven(n: nat, m: nat, i: nat)
    requires 0 < m < n && i + 1 < m
    ensures SampleIndex(n, m, 0) == 0
    ensures SampleIndex(n, m, i) < SampleIndex(n, m, i + 1) < n
    ensures SampleIndex(n, m, i + 1) - SampleIndex(n, m, i) in {n / m, CeilDiv(n, m)}
  {
    CeilNext(n, m);
    Gap(n, m, i);
    SampleInRange(n, m, i + 1);
    SampleInRange(n, m, 0);
    DivUnique(0, m, 0);
  }

  lemma CeilNext(n: nat, m: nat)
    requires 0 < m <= n
    ensures 1 <= n / m <= CeilDiv(n, m) <= n / m + 1
  {
    var k, c := n / m, CeilDiv(n, m);
    DivIs(n, m);
    CeilIs(n, m);
    Cancel(c - 1, k + 1, m);
    Cancel(c, k, m);
    Cancel(1, k + 1, m);
  }

  lemma Gap(n: nat, m: nat, i: nat)
    requires 0 < m < n && i + 1 < m
    ensures n / m <= SampleIndex(n, m, i + 1) - SampleIndex(n, m, i) <= CeilDiv(n, m)
  {
    DivIs(n, m);
    CeilIs(n, m);
    var x, y := i * n, (i + 1) * n;
    assert y == x + n;
    DivIs(x, m);
    DivIs(y, m);
    GapBounds(n, m, x, y, x / m, y / m, n / m, CeilDiv(n, m));
  }

  lemma GapBounds(n: nat, m: nat, x: nat, y: nat, p: int, q: int, k: int, c: int)
    requires 0 < m && y == x + n
    requires p * m <= x < (p + 1) * m && q * m <= y < (q + 1) * m
    requires k * m <= n <= c * m
    ensures k <= q - p <= c
  {
    assert (p + k) * m == p * m + k * m;
    Cancel(p + k, q + 1, m);
    assert (p + 1 + c) * m == (p + 1) * m + c * m;
    Cancel(q, p + 1 + c, m);
  }

  /** No gap: of any ceil(n/m) consecutive points at least one is sampled. */
  lemma WindowHasSample(n: nat, m: nat, w: nat) returns (i: nat)
    requires 0 < m < n && w + CeilDiv(n, m) <= n
    ensures i < m && w <= SampleIndex(n, m, i) < w + CeilDiv(n, m)
  {
    var i', c := CeilDiv(w * m, n), CeilDiv(n, m);
    CeilIs(w * m, n);
    CeilIs(n, m);
    Cancel(-1, i', n);
    i := i';
    DivIs(i * n, m);
    WindowBounds(n, m, w, i, c, i * n / m);
  }

  /** Thinning out more than m points leaves exactly m of them, and of any ceil(n/m) consecutive points at
      least one. */
  lemma ThinnedCovers(pts: seq<MetricPoint>, m: nat, w: nat) returns (i: nat, k: nat)
    requires 0 < m < |pts| && w + CeilDiv(|pts|, m) <= |pts|
    ensures |Thinned(pts, m)| == m && i < m && w <= k < w + CeilDiv(|pts|, m)
    ensures Thinned(pts, m)[i] == pts[k]
  {
    i := WindowHasSample(|pts|, m, w);
    SampledAt(pts, m, m, i);
    k := SampleIndex(|pts|, m, i);
  }

  lemma WindowBounds(n: nat, m: nat, w: nat, i: nat, c: int, q: int)
    requires 0 < m < n && w + c <= n
    requires (i - 1) * n < w * m <= i * n && n <= c * m && q * m <= i * n < (q + 1) * m
    ensures i < m && w <= q < w + c
  {
    assert (i - 1) * n == i * n - n;
    assert (w + c) * m == w * m + c * m;
    Cancel(w, q + 1, m);
    Cancel(q, w + c, m);
    Cancel(n, w + c, m);
    Cancel(i, m, n);
  }

  // ---- filters ----

  /** The points at or after the cutoff, in order. */
  function AtLeast(s: seq<MetricPoint>, cutoff: int): seq<MetricPoint> {
    if s == [] then []
    else
      var n := |s| - 1;
      if s[n].t >= cutoff then AtLeast(s[..n], cutoff) + [s[n]] else AtLeast(s[..n], cutoff)
  }

  /** Everything from the first point at or after the cutoff on. */
  function FromFirst(s: seq<MetricPoint>, cutoff: int): seq<MetricPoint> {
    if s == [] || s[0].t >= cutoff then s else FromFirst(s[1..], cutoff)
  }

  predicate InOrder(s: seq<MetricPoint>) {
    forall i, j :: 0 <= i < j < |s| ==> s[i].t <= s[j].t
  }

  lemma {:induction false} AtLeastAll(s: seq<MetricPoint>, cutoff: int)
    requires forall i :: 0 <= i < |s| ==> s[i].t >= cutoff
    ensures AtLeast(s, cutoff) == s
  {
    if s != [] {
      AtLeastAll(s[..|s| - 1], cutoff);
      assert s == s[..|s| - 1] + [s[|s| - 1]];
    }
  }

  lemma {:induction false} AtLeastConcat(a: seq<MetricPoint>, b: seq<MetricPoint>, cutoff: int)
    ensures AtLeast(a + b, cutoff) == AtLeast(a, cutoff) + AtLeast(b, cutoff)
  {
    if b == [] {
      assert a + b == a;
    } else {
      var n := |b| - 1;
      AtLeastConcat(a, b[..n], cutoff);
      assert (a + b)[..|a + b| - 1] == a + b[..n];
    }
  }

  lemma {:induction false} AtLeastMembers(s: seq<MetricPoint>, cutoff: int, i: nat)
    requires i < |AtLeast(s, cutoff)|
    ensures AtLeast(s, cutoff)[i].t >= cutoff
  {
    var n := |s| - 1;
    if i < |AtLeast(s[..n], cutoff)| {
      AtLeastMembers(s[..n], cutoff, i);
    }
  }

  /** The scan for the first point at or after the cutoff yields exactly the points at or after it, for
      every cutoff, just when the times never decrease. */
  lemma ScanIsFilter(s: seq<MetricPoint>)
    ensures InOrder(s) <==> forall cutoff :: FromFirst(s, cutoff) == AtLeast(s, cutoff)
  {
    if InOrder(s) {
      forall cutoff ensures FromFirst(s, cutoff) == AtLeast(s, cutoff) {
        ScanOrdered(s, cutoff);
      }
    } else {
      var i, j :| 0 <= i < j < |s| && s[i].t > s[j].t;
      ScanMisses(s, i, j);
    }
  }

  /** A point that is older than an earlier one is returned by a scan it should be left out of. */
  lemma ScanMisses(s: seq<MetricPoint>, i: nat, j: nat)
    requires i < j < |s| && s[i].t > s[j].t
    ensures FromFirst(s, s[i].t) != AtLeast(s, s[i].t)
  {
    var cutoff := s[i].t;
    var k := ScanKeeps(s, cutoff, i, j);
    if FromFirst(s, cutoff) == AtLeast(s, cutoff) {
      AtLeastMembers(s, cutoff, k);
      assert false;
    }
  }

  lemma {:induction false} ScanOrdered(s: seq<MetricPoint>, cutoff: int)
    requires InOrder(s)
    ensures FromFirst(s, cutoff) == AtLeast(s, cutoff)
  {
    if s != [] {
      if s[0].t >= cutoff {
        AtLeastAll(s, cutoff);
      } else {
        ScanOrdered(s[1..], cutoff);
        AtLeastConcat([s[0]], s[1..], cutoff);
        assert [s[0]] + s[1..] == s;
        assert AtLeast([s[0]][..0], cutoff) == [];
      }
    }
  }

  /** Once point i is kept, every later point is kept as well. */
  lemma {:induction false} ScanKeeps(s: seq<MetricPoint>, cutoff: int, i: nat, j: nat) returns (k: nat)
    requires i < j < |s| && s[i].t >= cutoff
    ensures k < |FromFirst(s, cutoff)| && FromFirst(s, cutoff)[k] == s[j]
  {
    if s[0].t >= cutoff {
      k := j;
    } else {
      k := ScanKeeps(s[1..], cutoff, i - 1, j - 1);
    }
  }

  /** The scan leaves out the points before the first recent one, and no others. */
  lemma {:induction false} FromFirstIs(s: seq<MetricPoint>, cutoff: int) returns (i: nat)
    ensures i <= |s| && FromFirst(s, cutoff) == s[i..]
    ensures forall j :: 0 <= j < i ==> s[j].t < cutoff
    ensures i < |s| ==> s[i].t >= cutoff
  {
    if s == [] || s[0].t >= cutoff {
      i := 0;
    } else {
      var k := FromFirstIs(s[1..], cutoff);
      i := k + 1;
      assert s[1..][k..] == s[i..];
      assert forall j :: 0 < j < i ==> s[j] == s[1..][j - 1];
    }
  }

  /** out are the points at the indices idx, in order, and those are exactly the ones at or after the cutoff. */
  predicate KeptAt(s: seq<MetricPoint>, cutoff: int, out: seq<MetricPoint>, idx: seq<nat>) {
    && Ascends(idx, |s|) && |out| == |idx|
    && (forall k :: 0 <= k < |s| ==> (k in idx <==> s[k].t >= cutoff))
    && (forall i :: 0 <= i < |idx| ==> out[i] == s[idx[i]])
  }

  lemma KeepNext(s: seq<MetricPoint>, x: MetricPoint, cutoff: int, out: seq<MetricPoint>, idx: seq<nat>)
    requires KeptAt(s, cutoff, out, idx)
    ensures x.t < cutoff ==> KeptAt(s + [x], cutoff, out, idx)
    ensures x.t >= cutoff ==> KeptAt(s + [x], cutoff, out + [x], idx + [|s|])
  {
    AscendsSnoc(idx, |s|);
  }

  /** The filter keeps exactly the points at or after the cutoff, in order. */
  lemma {:induction false} AtLeastAt(s: seq<MetricPoint>, cutoff: int) returns (idx: seq<nat>)
    ensures KeptAt(s, cutoff, AtLeast(s, cutoff), idx)
  {
    if s == [] {
      idx := [];
    } else {
      hide KeptAt;
      var n := |s| - 1;
      idx := AtLeastAt(s[..n], cutoff);
      assert s == s[..n] + [s[n]];
      KeepNext(s[..n], s[n], cutoff, AtLeast(s[..n], cutoff), idx);
      if s[n].t >= cutoff {
        idx := idx + [n];
      }
    }
  }

  /** The points of one day. */
  function OnDay(s: seq<MetricPoint>, d: int): seq<MetricPoint> {
    if s == [] then []
    else
      var n := |s| - 1;
      if s[n].t / 86_400 == d then OnDay(s[..n], d) + [s[n]] else OnDay(s[..n], d)
  }

  // ---- the files ----

  function SavedToday(files: map<int, MetricFile>, machineId: string, pts: seq<MetricPoint>, now: Time): map<int,
                      MetricFile> {
    var today := AtLeast(pts, DayOf(now) * 86_400);
    if today == [] then files else files[DayOf(now) := MetricFile(machineId, today)]
  }

  /** The own points stored for day d. */
  function Stored(files: map<int, MetricFile>, machineId: string, d: int): seq<MetricPoint> {
    if d in files && files[d].MetricFile? && files[d].machineId == machineId then files[d].points else []
  }

  /** What the files of a directory listing hold at or after the cutoff. */
  function Collected(files: map<int, MetricFile>, machineId: string, cutoff: int, listing: seq<int>): seq<MetricPoint> {
    if listing == [] then []
    else
      var n := |listing| - 1;
      Collected(files, machineId, cutoff, listing[..n]) + AtLeast(Stored(files, machineId, listing[n]), cutoff)
  }

  /** A file of another machine counts as one that cannot be read. */
  lemma {:induction false} ForeignIgnored(files: map<int, MetricFile>, machineId: string, cutoff: int,
                                          listing: seq<int>, d: int)
    requires d in files && files[d].MetricFile? && files[d].machineId != machineId
    ensures Collected(files, machineId, cutoff, listing) ==
              Collected(files[d := Unreadable], machineId, cutoff, listing)
  {
    hide AtLeast;
    if listing != [] {
      ForeignIgnored(files, machineId, cutoff, listing[..|listing| - 1], d);
    }
  }

  function InsertPoint(s: seq<MetricPoint>, p: MetricPoint): seq<MetricPoint> {
    if s == [] || s[|s| - 1].t <= p.t then s + [p]
    else InsertPoint(s[..|s| - 1], p) + [s[|s| - 1]]
  }

  /** sort.Slice by time. */
  function SortPoints(s: seq<MetricPoint>): seq<MetricPoint> {
    if s == [] then [] else InsertPoint(SortPoints(s[..|s| - 1]), s[|s| - 1])
  }

  predicate UpTo(s: seq<MetricPoint>, t: int) {
    forall i :: 0 <= i < |s| ==> s[i].t <= t
  }

  lemma InOrderLast(s: seq<MetricPoint>, p: MetricPoint)
    requires InOrder(s) && UpTo(s, p.t)
    ensures InOrder(s + [p])
  {
  }

  lemma InOrderPart(s: seq<MetricPoint>)
    requires InOrder(s) && s != []
    ensures InOrder(s[..|s| - 1]) && UpTo(s[..|s| - 1], s[|s| - 1].t) && UpTo(s, s[|s| - 1].t)
  {
  }

  lemma {:induction false} InsertPointOrder(s: seq<MetricPoint>, p: MetricPoint, t: int)
    requires InOrder(s)
    ensures InOrder(InsertPoint(s, p))
    ensures UpTo(s, t) && p.t <= t ==> UpTo(InsertPoint(s, p), t)
  {
    hide InOrder;
    if s != [] {
      var a, x := s[..|s| - 1], s[|s| - 1];
      InOrderPart(s);
      if p.t < x.t {
        InsertPointOrder(a, p, x.t);
        InsertPointOrder(a, p, t);
        InOrderLast(InsertPoint(a, p), x);
      } else {
        InOrderLast(s, p);
      }
    } else {
      InOrderLast([], p) by { assert InOrder([]); }
    }
  }

  lemma {:induction false} InsertPointMembers(s: seq<MetricPoint>, p: MetricPoint)
    ensures multiset(InsertPoint(s, p)) == multiset(s) + multiset{p}
  {
    if s != [] && p.t < s[|s| - 1].t {
      var a, x := s[..|s| - 1], s[|s| - 1];
      InsertPointMembers(a, p);
      assert s == a + [x];
    }
  }

  /** The points are sorted by time, and none is added or lost. */
  lemma {:induction false} SortPointsIs(s: seq<MetricPoint>)
    ensures InOrder(SortPoints(s)) && multiset(SortPoints(s)) == multiset(s)
  {
    if s == [] {
      assert SortPoints(s) == [];
    } else {
      hide InOrder, InsertPoint;
      var a, x := s[..|s| - 1], s[|s| - 1];
      SortPointsIs(a);
      InsertPointOrder(SortPoints(a), x, 0);
      InsertPointMembers(SortPoints(a), x);
      assert s == a + [x];
    }
  }

  function Loaded(files: map<int, MetricFile>, machineId: string, cutoff: int, listing: seq<int>): seq<MetricPoint> {
    Newest(SortPoints(Collected(files, machineId, cutoff, listing)))
  }

  // ---- a run of pushes ----

  function PointsOf(pushed: seq<Reading>): seq<MetricPoint> {
    if pushed == [] then [] else PointsOf(pushed[..|pushed| - 1]) + [pushed[|pushed| - 1].p]
  }

  /** The files after a run of pushes onto a loaded buffer: every 20th push stores today's points. */
  function FilesAfter(files: map<int, MetricFile>, machineId: string, base: seq<MetricPoint>, pushed: seq<Reading>)
    : map<int, MetricFile>
  {
    if pushed == [] then files
    else
      var n := |pushed| - 1;
      var before := FilesAfter(files, machineId, base, pushed[..n]);
      if |pushed| % 20 == 0
      then SavedToday(before, machineId, Newest(base + PointsOf(pushed)), pushed[n].now)
      else before
  }

  lemma NewestOfNewest(s: seq<MetricPoint>, p: MetricPoint)
    ensures Newest(Newest(s) + [p]) == Newest(s + [p])
  {
  }

  lemma PointsSnoc(base: seq<MetricPoint>, pushed: seq<Reading>, r: Reading)
    ensures PointsOf(pushed + [r]) == PointsOf(pushed) + [r.p]
    ensures base + PointsOf(pushed + [r]) == base + PointsOf(pushed) + [r.p]
  {
    assert (pushed + [r])[..|pushed|] == pushed;
  }

  /** One more push on a run. */
  lemma PushStep(files: map<int, MetricFile>, machineId: string, base: seq<MetricPoint>, pushed: seq<Reading>,
                 r: Reading)
    ensures PointsOf(pushed + [r]) == PointsOf(pushed) + [r.p]
    ensures Newest(base + PointsOf(pushed + [r])) == Newest(Newest(base + PointsOf(pushed)) + [r.p])
    ensures |pushed + [r]| % 20 == if |pushed| % 20 == 19 then 0 else |pushed| % 20 + 1
    ensures var before := FilesAfter(files, machineId, base, pushed);
            FilesAfter(files, machineId, base, pushed + [r]) ==
              if |pushed + [r]| % 20 == 0
              then SavedToday(before, machineId, Newest(base + PointsOf(pushed + [r])), r.now)
              else before
  {
    hide PointsOf, Newest, SavedToday;
    assert (pushed + [r])[..|pushed|] == pushed;
    PointsSnoc(base, pushed, r);
    NewestOfNewest(base + PointsOf(pushed), r.p);
  }

  class MetricsBuffer {
    var points: seq<MetricPoint>
    var saveN: nat
    var files: map<int, MetricFile>
    const machineId: string
    ghost var Base: seq<MetricPoint>
    ghost var Pushed: seq<Reading>
    ghost var Before: map<int, MetricFile>

    /** The buffer holds the newest of everything loaded and then pushed. */
    ghost predicate Valid()
      reads this
    {
      && points == Newest(Base + PointsOf(Pushed))
      && saveN == |Pushed| % 20
      && files == FilesAfter(Before, machineId, Base, Pushed)
    }

    /** A buffer filled from the stored files of the last seven days. */
    constructor (machineId: string, files: map<int, MetricFile>, listing: seq<int>, now: Time)
      requires forall i :: 0 <= i < |listing| ==> listing[i] in files
      ensures Valid() && this.machineId == machineId && this.files == files && Before == files && Pushed == []
      ensures points == Loaded(files, machineId, Unix(now) - 604_800, listing) && Base == points
    {
      this.machineId := machineId;
      this.files := files;
      saveN := 0;
      Pushed := [];
      Before := files;
      var all := Load(files, machineId, listing, Unix(now) - 604_800);
      points := all;
      Base := all;
      assert all + [] == all;
    }

    static method Load(files: map<int, MetricFile>, machineId: string, listing: seq<int>, cutoff: int)
      returns (pts: seq<MetricPoint>)
      requires forall i :: 0 <= i < |listing| ==> listing[i] in files
      ensures pts == Loaded(files, machineId, cutoff, listing) && |pts| <= MAX_POINTS
    {
      var all := [];
      for i := 0 to |listing|
        invariant all == Collected(files, machineId, cutoff, listing[..i])
      {
        assert listing[..i + 1][..i] == listing[..i];
        var f := files[listing[i]];
        if f.MetricFile? && f.machineId == machineId {
          var kept := Filter(f.points, cutoff);
          all := all + kept;
        }
      }
      assert listing[..|listing|] == listing;
      all := SortPoints(all);
      if |all| > MAX_POINTS {
        all := all[|all| - MAX_POINTS..];
      }
      pts := all;
    }

    static method Filter(pts: seq<MetricPoint>, cutoff: int) returns (out: seq<MetricPoint>)
      ensures out == AtLeast(pts, cutoff)
    {
      out := [];
      for i := 0 to |pts|
        invariant out == AtLeast(pts[..i], cutoff)
      {
        assert pts[..i + 1][..i] == pts[..i];
        if pts[i].t >= cutoff {
          out := out + [pts[i]];
        }
      }
      assert pts[..|pts|] == pts;
    }

    /** Stores the points of today, unless there are none. */
    method SaveToday(now: Time)
      modifies `files
      ensures files == SavedToday(old(files), machineId, points, now)
    {
      var today := Filter(points, DayOf(now) * 86_400);
      if today == [] {
        return;
      }
      files := files[DayOf(now) := MetricFile(machineId, today)];
    }

    method Push(p: MetricPoint, now: Time)
      requires Valid()
      modifies this
      ensures Valid() && Base == old(Base) && Before == old(Before) && Pushed == old(Pushed) + [Reading(p, now)]
      ensures points == Newest(old(points) + [p])
      ensures points == if |old(points)| < 20_160 then old(points) + [p]
                        else (old(points) + [p])[|old(points)| + 1 - 20_160..]
      ensures saveN == if old(saveN) == 19 then 0 else old(saveN) + 1
      ensures files == if saveN == 0 then SavedToday(old(files), machineId, points, now) else old(files)
    {
      PushStep(Before, machineId, Base, Pushed, Reading(p, now));
      points := points + [p];
      if |points| > MAX_POINTS {
        points := points[|points| - MAX_POINTS..];
      }
      Pushed := Pushed + [Reading(p, now)];
      saveN := saveN + 1;
      if saveN >= 20 {
        saveN := 0;
        SaveToday(now);
      }
    }

    /** The points of the last so many seconds, thinned out to at most maxPoints. */
    method Since(seconds: int, maxPoints: int, now: Time) returns (out: seq<MetricPoint>)
      ensures out == Thinned(FromFirst(points, Unix(now) - seconds), maxPoints)
      ensures var recent := FromFirst(points, Unix(now) - seconds);
              if maxPoints <= 0 || |recent| <= maxPoints then out == recent else |out| == maxPoints
    {
      var cutoff := Unix(now) - seconds;
      var start := |points|;
      var i := 0;
      while i < |points|
        invariant 0 <= i <= |points| && start == |points|
        invariant FromFirst(points, cutoff) == FromFirst(points[i..], cutoff)
      {
        assert points[i..][1..] == points[i + 1..];
        if points[i].t >= cutoff {
          start := i;
          break;
        }
        i := i + 1;
      }
      assert FromFirst(points, cutoff) == points[start..];
      if start >= |points| {
        return [];
      }
      out := Thin(points[start..], maxPoints);
    }

    /** The whole buffer, thinned out to at most maxPoints. */
    method Get(maxPoints: int) returns (out: seq<MetricPoint>)
      ensures out == Thinned(points, maxPoints)
      ensures if maxPoints <= 0 || |points| <= maxPoints then out == points else |out| == maxPoints
    {
      if |points| == 0 {
        return [];
      }
      out := Thin(points, maxPoints);
    }

    static method Thin(pts: seq<MetricPoint>, maxPoints: int) returns (out: seq<MetricPoint>)
      ensures out == Thinned(pts, maxPoints)
      ensures if maxPoints <= 0 || |pts| <= maxPoints then out == pts else |out| == maxPoints
    {
      if maxPoints <= 0 || |pts| <= maxPoints {
        return pts;
      }
      var step := |pts| as real / maxPoints as real;
      out := [];
      for i := 0 to maxPoints
        invariant out == Sampled(pts, maxPoints, i) && |out| == i
      {
        GoIndex(|pts|, maxPoints, i, step);
        SampledSnoc(pts, maxPoints, i);
        var k := (i as real * step).Floor;
        out := out + [pts[k]];
      }
    }
  }
}
