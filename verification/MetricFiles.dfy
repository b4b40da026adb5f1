/** What the daily metrics files hold after any run of pushes, and what a restart reads back. */
module MetricFiles {
  import opened Clock
  import opened Metrics

  /** Every reading is pushed on the day it was taken. */
  predicate Aligned(pushed: seq<Reading>) {
    forall i :: 0 <= i < |pushed| ==> pushed[i].p.t / 86_400 == DayOf(pushed[i].now)
  }

  /** Points of day d only, in order of time. */
  predicate DayInOrder(s: seq<MetricPoint>, d: int) {
    InOrder(s) && forall i :: 0 <= i < |s| ==> s[i].t / 86_400 == d
  }

  // ---- filters over days ----

  lemma {:induction false} OnDayConcat(a: seq<MetricPoint>, b: seq<MetricPoint>, d: int)
    ensures OnDay(a + b, d) == OnDay(a, d) + OnDay(b, d)
  {
    if b == [] {
      assert a + b == a;
    } else {
      var n := |b| - 1;
      OnDayConcat(a, b[..n], d);
      assert (a + b)[..|a + b| - 1] == a + b[..n];
    }
  }

  lemma {:induction false} OnDayAll(s: seq<MetricPoint>, d: int, e: int)
    requires forall i :: 0 <= i < |s| ==> s[i].t / 86_400 == e
    ensures OnDay(s, d) == if d == e then s else []
  {
    if s != [] {
      OnDayAll(s[..|s| - 1], d, e);
      assert s == s[..|s| - 1] + [s[|s| - 1]];
    }
  }

  lemma {:induction false} OnDayNone(s: seq<MetricPoint>, d: int)
    requires forall i :: 0 <= i < |s| ==> s[i].t / 86_400 != d
    ensures OnDay(s, d) == []
  {
    if s != [] {
      OnDayNone(s[..|s| - 1], d);
    }
  }

  /** Where no point is later than day d, the points from the start of day d on are those of day d. */
  lemma {:induction false} AtLeastIsOnDay(s: seq<MetricPoint>, d: int)
    requires forall i :: 0 <= i < |s| ==> s[i].t / 86_400 <= d
    ensures AtLeast(s, d * 86_400) == OnDay(s, d)
  {
    if s != [] {
      AtLeastIsOnDay(s[..|s| - 1], d);
    }
  }

  lemma {:induction false} AtLeastInOrder(s: seq<MetricPoint>, cutoff: int)
    requires InOrder(s)
    ensures InOrder(AtLeast(s, cutoff))
    ensures forall i :: 0 <= i < |AtLeast(s, cutoff)| ==> AtLeast(s, cutoff)[i] in s
    ensures s != [] && s[|s| - 1].t >= cutoff ==> AtLeast(s, cutoff) != []
  {
    if s != [] {
      AtLeastInOrder(s[..|s| - 1], cutoff);
    }
  }

  /** Dropping old points from points in order of time commutes with the cutoff. */
  lemma AtLeastOfNewest(s: seq<MetricPoint>, cutoff: int)
    requires InOrder(s)
    ensures AtLeast(Newest(s), cutoff) == Newest(AtLeast(s, cutoff))
  {
    hide AtLeast;
    if |s| > MAX_POINTS {
      NewestHalf(s, s[..|s| - MAX_POINTS], s[|s| - MAX_POINTS..], cutoff);
    } else {
      AtLeastFewer(s, cutoff);
    }
  }

  lemma NewestHalf(s: seq<MetricPoint>, a: seq<MetricPoint>, b: seq<MetricPoint>, cutoff: int)
    requires InOrder(s) && |s| > MAX_POINTS && |b| == MAX_POINTS
    requires a == s[..|s| - MAX_POINTS] && b == s[|s| - MAX_POINTS..]
    ensures AtLeast(b, cutoff) == Newest(AtLeast(s, cutoff))
  {
    hide AtLeast;
    assert s == a + b;
    AtLeastConcat(a, b, cutoff);
    AtLeastFewer(b, cutoff);
    var kept := AtLeast(a, cutoff);
    if kept == [] {
      assert AtLeast(s, cutoff) == AtLeast(b, cutoff);
    } else {
      AtLeastInOrder(a, cutoff);
      AtLeastMembers(a, cutoff, 0);
      assert kept[0] in a;
      AtLeastAll(b, cutoff);
      NewestOfSum(kept, b);
    }
  }

  lemma NewestOfSum(x: seq<MetricPoint>, b: seq<MetricPoint>)
    requires |b| == MAX_POINTS
    ensures Newest(x + b) == b
  {
  }

  lemma {:induction false} AtLeastFewer(s: seq<MetricPoint>, cutoff: int)
    ensures |AtLeast(s, cutoff)| <= |s|
  {
    if s != [] {
      AtLeastFewer(s[..|s| - 1], cutoff);
    }
  }

  /** Storing today's points after a push stores the newest points of that day. */
  lemma SaveStoresDay(files: map<int, MetricFile>, machineId: string, s: seq<MetricPoint>, now: Time)
    requires InOrder(s) && s != [] && s[|s| - 1].t / 86_400 == DayOf(now)
    ensures Stored(SavedToday(files, machineId, Newest(s), now), machineId, DayOf(now)) == Newest(OnDay(s, DayOf(now)))
  {
    hide AtLeast, OnDay, Newest;
    var d := DayOf(now);
    NoneLater(s, d);
    AtLeastIsOnDay(s, d);
    AtLeastOfNewest(s, d * 86_400);
    AtLeastInOrder(s, d * 86_400);
    NewestSome(AtLeast(s, d * 86_400));
    StoredToday(files, machineId, Newest(s), now);
  }

  lemma NoneLater(s: seq<MetricPoint>, d: int)
    requires InOrder(s) && s != [] && s[|s| - 1].t / 86_400 == d
    ensures forall i :: 0 <= i < |s| ==> s[i].t / 86_400 <= d
    ensures s[|s| - 1].t >= d * 86_400
  {
    forall i | 0 <= i < |s|
      ensures s[i].t / 86_400 <= d
    {
      assert s[i].t <= s[|s| - 1].t;
    }
  }

  lemma NewestSome(s: seq<MetricPoint>)
    ensures s != [] ==> Newest(s) != []
  {
  }

  lemma StoredToday(files: map<int, MetricFile>, machineId: string, pts: seq<MetricPoint>, now: Time)
    requires AtLeast(pts, DayOf(now) * 86_400) != []
    ensures Stored(SavedToday(files, machineId, pts, now), machineId, DayOf(now)) == AtLeast(pts, DayOf(now) * 86_400)
  {
  }

  // ---- the files after a run ----

  /** How many of the pushes the last save made on day d covers; 0 if there was none. */
  function LastSave(pushed: seq<Reading>, d: int): (k: nat)
    ensures k <= |pushed|
  {
    if pushed == [] then 0
    else
      var n := |pushed| - 1;
      if |pushed| % 20 == 0 && DayOf(pushed[n].now) == d then |pushed| else LastSave(pushed[..n], d)
  }

  /** It is the last multiple of 20 whose push fell on day d. */
  lemma {:induction false} LastSaveIs(pushed: seq<Reading>, d: int)
    ensures var k := LastSave(pushed, d);
            && k % 20 == 0 && (k > 0 ==> DayOf(pushed[k - 1].now) == d)
            && forall i :: k <= i < |pushed| && (i + 1) % 20 == 0 ==> DayOf(pushed[i].now) != d
  {
    if pushed != [] {
      var n := |pushed| - 1;
      LastSaveIs(pushed[..n], d);
      assert forall i :: 0 <= i < n ==> pushed[..n][i] == pushed[i];
    }
  }

  /** How many readings of day d come at push k or later. */
  function CountFrom(pushed: seq<Reading>, k: nat, d: int): nat {
    if |pushed| <= k then 0
    else
      var n := |pushed| - 1;
      CountFrom(pushed[..n], k, d) + if pushed[n].p.t / 86_400 == d then 1 else 0
  }

  lemma {:induction false} CountFromIs(pushed: seq<Reading>, k: nat, d: int)
    ensures CountFrom(pushed, k, d) == 0 <==> forall i :: k <= i < |pushed| ==> pushed[i].p.t / 86_400 != d
  {
    if |pushed| > k {
      var n := |pushed| - 1;
      CountFromIs(pushed[..n], k, d);
      assert forall i :: k <= i < n ==> pushed[..n][i] == pushed[i];
    }
  }

  /** One push, which saves today's points if it is the 20th since the last save. */
  function FilesStep(files: map<int, MetricFile>, machineId: string, s: seq<MetricPoint>, now: Time, unsaved: nat)
    : map<int, MetricFile>
  {
    if unsaved == 0 then SavedToday(files, machineId, Newest(s), now) else files
  }

  lemma StepStaysInOrder(files: map<int, MetricFile>, machineId: string, t: seq<MetricPoint>, now: Time, unsaved: nat,
                         d: int)
    requires InOrder(t) && t != [] && t[|t| - 1].t / 86_400 == DayOf(now)
    requires DayInOrder(Stored(files, machineId, d), d)
    ensures DayInOrder(Stored(FilesStep(files, machineId, t, now, unsaved), machineId, d), d)
  {
    if unsaved == 0 && DayOf(now) == d {
      SaveIsInOrder(Newest(t), d);
    }
  }

  lemma RunStep(files: map<int, MetricFile>, machineId: string, base: seq<MetricPoint>, pushed: seq<Reading>)
    requires pushed != [] && InOrder(base + PointsOf(pushed))
    ensures var n := |pushed| - 1;
            && base + PointsOf(pushed) == base + PointsOf(pushed[..n]) + [pushed[n].p]
            && InOrder(base + PointsOf(pushed[..n]))
            && |pushed| % 20 == (if n % 20 == 19 then 0 else n % 20 + 1)
            && FilesAfter(files, machineId, base, pushed) ==
                 FilesStep(FilesAfter(files, machineId, base, pushed[..n]), machineId, base + PointsOf(pushed),
                           pushed[n].now, |pushed| % 20)
  {
    var n := |pushed| - 1;
    assert pushed[..n] + [pushed[n]] == pushed;
    PushStep(files, machineId, base, pushed[..n], pushed[n]);
    var s := base + PointsOf(pushed[..n]);
    assert base + PointsOf(pushed) == s + [pushed[n].p];
    assert forall i :: 0 <= i < |s| ==> s[i] == (s + [pushed[n].p])[i];
  }

  /** Over every run of pushes in time order, the file of a day holds the newest of that day's points as
      they were at the last save made on the day. */
  lemma {:induction false} FileIsLastSave(files: map<int, MetricFile>, machineId: string, base: seq<MetricPoint>,
                                          pushed: seq<Reading>, d: int)
    requires Aligned(pushed) && InOrder(base + PointsOf(pushed))
    ensures var k := LastSave(pushed, d);
            Stored(FilesAfter(files, machineId, base, pushed), machineId, d) ==
              if k == 0 then Stored(files, machineId, d) else Newest(OnDay(base + PointsOf(pushed[..k]), d))
    decreases |pushed|
  {
    hide OnDay, AtLeast, Newest, InOrder, FilesAfter, PointsOf;
    if pushed == [] {
      NoPushes(files, machineId, base);
    } else {
      var n := |pushed| - 1;
      var t := base + PointsOf(pushed);
      RunStep(files, machineId, base, pushed);
      FileIsLastSave(files, machineId, base, pushed[..n], d);
      if |pushed| % 20 == 0 && DayOf(pushed[n].now) == d {
        assert pushed[..|pushed|] == pushed;
        SaveStoresDay(FilesAfter(files, machineId, base, pushed[..n]), machineId, t, pushed[n].now);
      } else {
        var k := LastSave(pushed[..n], d);
        assert pushed[..n][..k] == pushed[..k];
        StepElsewhere(FilesAfter(files, machineId, base, pushed[..n]), machineId, t, pushed[n].now, |pushed| % 20, d);
      }
    }
  }

  lemma NoPushes(files: map<int, MetricFile>, machineId: string, base: seq<MetricPoint>)
    ensures FilesAfter(files, machineId, base, []) == files
  {
  }

  lemma StepElsewhere(files: map<int, MetricFile>, machineId: string, t: seq<MetricPoint>, now: Time, unsaved: nat,
                      d: int)
    requires unsaved != 0 || DayOf(now) != d
    ensures Stored(FilesStep(files, machineId, t, now, unsaved), machineId, d) == Stored(files, machineId, d)
  {
    hide AtLeast, Newest;
  }

  /** The readings of a day that came after its last save are at most 19, and while the day lasts at most
      the pushes since the last save. */
  lemma {:induction false} AtMost19Unsaved(pushed: seq<Reading>, d: int)
    requires Aligned(pushed) && InOrder(PointsOf(pushed))
    ensures var c := CountFrom(pushed, LastSave(pushed, d), d);
            && c <= 19
            && (pushed != [] && pushed[|pushed| - 1].p.t / 86_400 < d ==> c == 0)
            && (pushed != [] && pushed[|pushed| - 1].p.t / 86_400 == d ==> c <= |pushed| % 20)
  {
    hide InOrder, PointsOf;
    if pushed != [] {
      var n := |pushed| - 1;
      OrderOfPrefix(pushed);
      AtMost19Unsaved(pushed[..n], d);
      CountTo20(n);
      CountNone(pushed, d);
    }
  }

  lemma CountTo20(n: nat)
    ensures (n + 1) % 20 == if n % 20 == 19 then 0 else n % 20 + 1
  {
  }

  lemma CountNone(pushed: seq<Reading>, d: int)
    ensures CountFrom(pushed, |pushed|, d) == 0
  {
  }

  lemma {:induction false} OrderOfPrefix(pushed: seq<Reading>)
    requires pushed != [] && InOrder(PointsOf(pushed))
    ensures var n := |pushed| - 1;
            InOrder(PointsOf(pushed[..n])) && (n > 0 ==> pushed[n - 1].p.t <= pushed[n].p.t)
  {
    var n := |pushed| - 1;
    PointsOfAre(pushed);
    PointsOfAre(pushed[..n]);
    var s, t := PointsOf(pushed[..n]), PointsOf(pushed);
    assert forall i :: 0 <= i < n ==> s[i] == t[i];
    if n > 0 {
      assert t[n - 1].t <= t[n].t;
    }
  }

  lemma {:induction false} PointsOfAre(pushed: seq<Reading>)
    ensures |PointsOf(pushed)| == |pushed|
    ensures forall i :: 0 <= i < |pushed| ==> PointsOf(pushed)[i] == pushed[i].p
  {
    if pushed != [] {
      PointsOfAre(pushed[..|pushed| - 1]);
    }
  }

  /** The points of day d are those covered by the first k pushes and the readings counted after. */
  lemma {:induction false} DaySplits(base: seq<MetricPoint>, pushed: seq<Reading>, k: nat, d: int)
    requires k <= |pushed|
    ensures var covered, all := OnDay(base + PointsOf(pushed[..k]), d), OnDay(base + PointsOf(pushed), d);
            covered <= all && |all| == |covered| + CountFrom(pushed, k, d)
    decreases |pushed|
  {
    hide OnDay;
    if k == |pushed| {
      assert pushed[..k] == pushed;
    } else {
      var n := |pushed| - 1;
      DaySplits(base, pushed[..n], k, d);
      assert pushed[..n][..k] == pushed[..k];
      var s := base + PointsOf(pushed[..n]);
      assert base + PointsOf(pushed) == s + [pushed[n].p];
      OnDaySnoc(s, pushed[n].p, d);
    }
  }

  lemma OnDaySnoc(s: seq<MetricPoint>, p: MetricPoint, d: int)
    ensures OnDay(s + [p], d) == if p.t / 86_400 == d then OnDay(s, d) + [p] else OnDay(s, d)
  {
    assert (s + [p])[..|s|] == s;
  }

  /** The file of a day is complete exactly when no reading of the day came after its last save, and the
      day had no more points than the buffer holds; never more than 19 readings came after. */
  lemma CompleteExactly(files: map<int, MetricFile>, machineId: string, base: seq<MetricPoint>,
                        pushed: seq<Reading>, d: int)
    requires Aligned(pushed) && InOrder(base + PointsOf(pushed)) && Stored(files, machineId, d) == OnDay(base, d)
    ensures var k, all := LastSave(pushed, d), OnDay(base + PointsOf(pushed), d);
            && (Stored(FilesAfter(files, machineId, base, pushed), machineId, d) == all <==>
                  CountFrom(pushed, k, d) == 0 && (k == 0 || |all| <= MAX_POINTS))
            && CountFrom(pushed, k, d) <= 19
  {
    hide OnDay, FilesAfter, PointsOf, InOrder, CountFrom, LastSave;
    var k := LastSave(pushed, d);
    FileIsLastSave(files, machineId, base, pushed, d);
    DaySplits(base, pushed, k, d);
    BaseOnly(base, pushed);
    PushedInOrder(base, pushed);
    AtMost19Unsaved(pushed, d);
  }

  lemma BaseOnly(base: seq<MetricPoint>, pushed: seq<Reading>)
    ensures base + PointsOf(pushed[..0]) == base
  {
  }

  lemma PushedInOrder(base: seq<MetricPoint>, pushed: seq<Reading>)
    requires InOrder(base + PointsOf(pushed))
    ensures InOrder(PointsOf(pushed))
  {
    var s, t := PointsOf(pushed), base + PointsOf(pushed);
    assert forall i :: 0 <= i < |s| ==> s[i] == t[|base| + i];
  }

  /** One reading late on day 0 and one on day 1: nothing of day 0 ever reaches the disk. */
  lemma LastReadingsAreLost(p: MetricPoint, machineId: string)
    requires p.t == 86_399
    ensures var q := p.(t := 86_429);
            var pushed := [Reading(p, 86_399 * SECOND), Reading(q, 86_429 * SECOND)];
            Aligned(pushed) && InOrder(PointsOf(pushed)) &&
            FilesAfter(map[], machineId, [], pushed) == map[] && OnDay(PointsOf(pushed), 0) == [p]
  {
    hide SavedToday;
    var q := p.(t := 86_429);
    var r0, r1 := Reading(p, 86_399 * SECOND), Reading(q, 86_429 * SECOND);
    TwoPoints(r0, r1);
    TwoFiles(machineId, r0, r1);
    OnDaySnoc([], p, 0);
    OnDaySnoc([p], q, 0);
    NothingOnDay(0);
    assert [] + [p] == [p] && [p] + [q] == [p, q];
  }

  lemma TwoPoints(r0: Reading, r1: Reading)
    ensures PointsOf([r0]) == [r0.p] && PointsOf([r0, r1]) == [r0.p, r1.p]
  {
    assert [r0, r1][..1] == [r0] && [r0][..0] == [];
  }

  lemma TwoFiles(machineId: string, r0: Reading, r1: Reading)
    ensures FilesAfter(map[], machineId, [], [r0, r1]) == map[]
  {
    hide SavedToday, PointsOf, Newest;
    assert [r0, r1][..1] == [r0] && [r0][..0] == [];
    assert FilesAfter(map[], machineId, [], [r0]) == map[];
  }

  /** Own files only ever hold points of their own day, in order of time. */
  lemma {:induction false} FilesStayInOrder(files: map<int, MetricFile>, machineId: string, base: seq<MetricPoint>,
                                            pushed: seq<Reading>, d: int)
    requires Aligned(pushed) && InOrder(base + PointsOf(pushed))
    requires DayInOrder(Stored(files, machineId, d), d)
    ensures DayInOrder(Stored(FilesAfter(files, machineId, base, pushed), machineId, d), d)
    decreases |pushed|
  {
    if pushed != [] {
      var n := |pushed| - 1;
      RunStep(files, machineId, base, pushed);
      FilesStayInOrder(files, machineId, base, pushed[..n], d);
      StepStaysInOrder(FilesAfter(files, machineId, base, pushed[..n]), machineId, base + PointsOf(pushed),
                       pushed[n].now, |pushed| % 20, d);
    }
  }

  lemma SaveIsInOrder(s: seq<MetricPoint>, d: int)
    requires InOrder(s) && s != [] && s[|s| - 1].t / 86_400 == d
    ensures DayInOrder(AtLeast(s, d * 86_400), d)
  {
    var kept := AtLeast(s, d * 86_400);
    AtLeastInOrder(s, d * 86_400);
    forall i | 0 <= i < |kept| ensures kept[i].t / 86_400 == d {
      AtLeastMembers(s, d * 86_400, i);
    }
  }

  // ---- reading the files back ----

  /** A listing in order of date, of files that each hold points of their own day in order of time. */
  predicate Orderly(files: map<int, MetricFile>, machineId: string, listing: seq<int>) {
    listing == [] ||
    (var n := |listing| - 1;
     Orderly(files, machineId, listing[..n]) && (n > 0 ==> listing[n - 1] < listing[n]) &&
     DayInOrder(Stored(files, machineId, listing[n]), listing[n]))
  }

  lemma {:induction false} ListedBelow(files: map<int, MetricFile>, machineId: string, listing: seq<int>, i: nat)
    requires Orderly(files, machineId, listing) && i < |listing|
    ensures listing[i] <= listing[|listing| - 1]
    decreases |listing|
  {
    var n := |listing| - 1;
    if i < n {
      ListedBelow(files, machineId, listing[..n], i);
    }
  }

  /** The last day listed comes after all the others. */
  lemma LastListed(files: map<int, MetricFile>, machineId: string, listing: seq<int>, d: int)
    requires Orderly(files, machineId, listing) && listing != [] && d in listing[..|listing| - 1]
    ensures d < listing[|listing| - 1]
  {
    var n := |listing| - 1;
    var i :| 0 <= i < n && listing[..n][i] == d;
    ListedBelow(files, machineId, listing[..n], i);
  }

  lemma {:induction false} OrderlyAfter(files: map<int, MetricFile>, machineId: string, base: seq<MetricPoint>,
                                        pushed: seq<Reading>, listing: seq<int>)
    requires Aligned(pushed) && InOrder(base + PointsOf(pushed)) && Orderly(files, machineId, listing)
    ensures Orderly(FilesAfter(files, machineId, base, pushed), machineId, listing)
    decreases |listing|
  {
    if listing != [] {
      var n := |listing| - 1;
      OrderlyAfter(files, machineId, base, pushed, listing[..n]);
      FilesStayInOrder(files, machineId, base, pushed, listing[n]);
    }
  }

  predicate NotLater(s: seq<MetricPoint>, d: int) {
    forall i :: 0 <= i < |s| ==> s[i].t / 86_400 <= d
  }

  lemma InOrderConcat(a: seq<MetricPoint>, b: seq<MetricPoint>, d: int, e: int)
    requires InOrder(a) && InOrder(b) && d < e
    requires NotLater(a, d) && forall i :: 0 <= i < |b| ==> b[i].t / 86_400 == e
    ensures InOrder(a + b) && NotLater(a + b, e)
  {
  }

  lemma {:induction false} CollectedInOrder(files: map<int, MetricFile>, machineId: string, cutoff: int,
                                            listing: seq<int>)
    requires Orderly(files, machineId, listing)
    ensures InOrder(Collected(files, machineId, cutoff, listing))
    ensures listing != [] ==> NotLater(Collected(files, machineId, cutoff, listing), listing[|listing| - 1])
  {
    if listing != [] {
      var n := |listing| - 1;
      CollectedInOrder(files, machineId, cutoff, listing[..n]);
      AtLeastInOrder(Stored(files, machineId, listing[n]), cutoff);
      InOrderConcat(Collected(files, machineId, cutoff, listing[..n]),
                    AtLeast(Stored(files, machineId, listing[n]), cutoff),
                    if n > 0 then listing[n - 1] else listing[n] - 1, listing[n]);
    }
  }

  lemma {:induction false} CollectedOnDay(files: map<int, MetricFile>, machineId: string, cutoff: int,
                                          listing: seq<int>, d: int)
    requires Orderly(files, machineId, listing)
    ensures d in listing ==>
              OnDay(Collected(files, machineId, cutoff, listing), d) == AtLeast(Stored(files, machineId, d), cutoff)
    ensures d !in listing ==> OnDay(Collected(files, machineId, cutoff, listing), d) == []
  {
    hide OnDay, AtLeast, DayInOrder;
    NothingOnDay(d);
    if listing != [] {
      var n := |listing| - 1;
      CollectedOnDay(files, machineId, cutoff, listing[..n], d);
      if d in listing[..n] {
        LastListed(files, machineId, listing, d);
      }
      OnDayOfNext(Collected(files, machineId, cutoff, listing[..n]), Stored(files, machineId, listing[n]), cutoff, d,
                  listing[n]);
    }
  }

  lemma OnDayOfNext(a: seq<MetricPoint>, stored: seq<MetricPoint>, cutoff: int, d: int, e: int)
    requires DayInOrder(stored, e)
    ensures OnDay(a + AtLeast(stored, cutoff), d) ==
              if d == e then OnDay(a, d) + AtLeast(stored, cutoff) else OnDay(a, d)
  {
    OnDayConcat(a, AtLeast(stored, cutoff), d);
    AtLeastInOrder(stored, cutoff);
    OnDayAll(AtLeast(stored, cutoff), d, e);
  }

  lemma InsertLast(s: seq<MetricPoint>, p: MetricPoint)
    requires s == [] || s[|s| - 1].t <= p.t
    ensures InsertPoint(s, p) == s + [p]
  {
  }

  lemma {:induction false} SortOfOrdered(s: seq<MetricPoint>)
    requires InOrder(s)
    ensures SortPoints(s) == s
  {
    if s != [] {
      var n := |s| - 1;
      SortOfOrdered(s[..n]);
      InsertLast(s[..n], s[n]);
    }
  }

  /** The last n points, or all of them. */
  function LastN(s: seq<MetricPoint>, n: nat): (r: seq<MetricPoint>)
    ensures |r| == if |s| <= n then |s| else n
  {
    if n == 0 || s == [] then [] else LastN(s[..|s| - 1], n - 1) + [s[|s| - 1]]
  }

  lemma {:induction false} LastNIsSuffix(s: seq<MetricPoint>, n: nat, c: nat)
    requires c == if |s| <= n then 0 else |s| - n
    ensures LastN(s, n) == s[c..]
  {
    if n > 0 && s != [] {
      LastNIsSuffix(s[..|s| - 1], n - 1, c);
      assert s == s[..|s| - 1] + [s[|s| - 1]];
    }
  }

  /** How many points are later than day d. */
  function Later(s: seq<MetricPoint>, d: int): nat {
    if s == [] then 0 else Later(s[..|s| - 1], d) + if s[|s| - 1].t / 86_400 > d then 1 else 0
  }

  /** The room that points of later days leave for day d, among n points. */
  function Room(s: seq<MetricPoint>, d: int, n: nat): nat {
    if Later(s, d) >= n then 0 else n - Later(s, d)
  }

  lemma NothingOnDay(d: int)
    ensures OnDay([], d) == []
  {
  }

  lemma LastNSnoc(s: seq<MetricPoint>, p: MetricPoint, n: nat)
    requires n > 0
    ensures LastN(s + [p], n) == LastN(s, n - 1) + [p]
  {
    assert (s + [p])[..|s|] == s;
  }

  lemma {:induction false} NoneLaterCount(s: seq<MetricPoint>, d: int)
    requires forall i :: 0 <= i < |s| ==> s[i].t / 86_400 <= d
    ensures Later(s, d) == 0
  {
    if s != [] {
      NoneLaterCount(s[..|s| - 1], d);
    }
  }

  /** While the last point is not later than day d, no point is; before day d there is none of it. */
  lemma {:induction false} NoneLaterYet(s: seq<MetricPoint>, d: int)
    requires InOrder(s) && s != [] && s[|s| - 1].t / 86_400 <= d
    ensures Later(s, d) == 0 && Later(s[..|s| - 1], d) == 0
    ensures s[|s| - 1].t / 86_400 < d ==> OnDay(s, d) == [] && OnDay(s[..|s| - 1], d) == []
  {
    NoneLater(s, s[|s| - 1].t / 86_400);
    NoneLaterCount(s, d);
    NoneLaterCount(s[..|s| - 1], d);
    if s[|s| - 1].t / 86_400 < d {
      OnDayNone(s, d);
      OnDayNone(s[..|s| - 1], d);
    }
  }

  /** Cutting points in order of time to the last n leaves of day d its newest points, as many as the later
      days leave room for. */
  lemma {:induction false} DayOfLastN(s: seq<MetricPoint>, n: nat, d: int)
    requires InOrder(s)
    ensures OnDay(LastN(s, n), d) == LastN(OnDay(s, d), Room(s, d, n))
  {
    hide InOrder, OnDay, LastN, Room;
    NothingOnDay(d);
    if s == [] {
      LastOfNone(n);
      LastOfNone(Room(s, d, n));
    } else if n == 0 {
      LastZero(s);
      LastZero(OnDay(s, d));
      NoRoom(s, d);
    } else {
      var a, x := s[..|s| - 1], s[|s| - 1];
      OrderOfPart(s);
      assert a + [x] == s;
      DayOfLastN(a, n - 1, d);
      LastNSnoc(a, x, n);
      OnDaySnoc(LastN(a, n - 1), x, d);
      OnDaySnoc(a, x, d);
      RoomStep(a, x, d, n);
      if x.t / 86_400 <= d {
        NoneLaterYet(s, d);
        LastNSnoc(OnDay(a, d), x, n);
        LastOfNone(n);
        LastOfNone(n - 1);
      }
    }
  }

  lemma LastZero(s: seq<MetricPoint>)
    ensures LastN(s, 0) == []
  {
  }

  lemma NoRoom(s: seq<MetricPoint>, d: int)
    ensures Room(s, d, 0) == 0
  {
  }

  lemma RoomStep(a: seq<MetricPoint>, x: MetricPoint, d: int, n: nat)
    requires n > 0
    ensures x.t / 86_400 > d ==> Room(a + [x], d, n) == Room(a, d, n - 1)
    ensures Later(a, d) == 0 ==> Room(a, d, n - 1) == n - 1 && (x.t / 86_400 <= d ==> Room(a + [x], d, n) == n)
  {
    assert (a + [x])[..|a|] == a;
  }

  lemma OrderOfPart(s: seq<MetricPoint>)
    requires InOrder(s) && s != []
    ensures InOrder(s[..|s| - 1])
    ensures forall i :: 0 <= i < |s| - 1 ==> s[..|s| - 1][i] == s[i]
  {
  }

  lemma NewestIsLastN(s: seq<MetricPoint>)
    ensures Newest(s) == LastN(s, MAX_POINTS)
  {
    hide LastN;
    LastNIsSuffix(s, MAX_POINTS, if |s| <= MAX_POINTS then 0 else |s| - MAX_POINTS);
  }

  /** A restart brings back of each day the newest of what its file holds at or after the cutoff, as much as
      the points of later days leave room for. */
  lemma RestartReadsBack(files: map<int, MetricFile>, machineId: string, listing: seq<int>, cutoff: int, d: int)
    requires Orderly(files, machineId, listing)
    ensures InOrder(Loaded(files, machineId, cutoff, listing))
    ensures OnDay(Loaded(files, machineId, cutoff, listing), d) ==
              if d in listing
              then LastN(AtLeast(Stored(files, machineId, d), cutoff),
                         Room(Collected(files, machineId, cutoff, listing), d, MAX_POINTS))
              else []
  {
    hide InOrder, OnDay, AtLeast, LastN, Orderly, Stored, Room, Newest, SortPoints;
    var c := Collected(files, machineId, cutoff, listing);
    CollectedInOrder(files, machineId, cutoff, listing);
    CollectedOnDay(files, machineId, cutoff, listing, d);
    SortOfOrdered(c);
    NewestIsLastN(c);
    NewestInOrder(c);
    DayOfLastN(c, MAX_POINTS, d);
    LastOfNone(Room(c, d, MAX_POINTS));
  }

  lemma NewestInOrder(s: seq<MetricPoint>)
    requires InOrder(s)
    ensures InOrder(Newest(s))
  {
  }

  lemma LastOfNone(n: nat)
    ensures LastN([], n) == []
  {
  }

  /** After any run of pushes a restart brings back of each day of the window what the last save of that day
      stored, as much as the points of later days leave room for. */
  lemma RestartBringsBackLastSave(files: map<int, MetricFile>, machineId: string, base: seq<MetricPoint>,
                                  pushed: seq<Reading>, listing: seq<int>, cutoff: int, d: int)
    requires Aligned(pushed) && InOrder(base + PointsOf(pushed)) && Orderly(files, machineId, listing)
    requires cutoff <= d * 86_400 && d in listing
    ensures var after, k := FilesAfter(files, machineId, base, pushed), LastSave(pushed, d);
            var kept := if k == 0 then Stored(files, machineId, d) else Newest(OnDay(base + PointsOf(pushed[..k]), d));
            OnDay(Loaded(after, machineId, cutoff, listing), d) ==
              LastN(kept, Room(Collected(after, machineId, cutoff, listing), d, MAX_POINTS))
  {
    hide InOrder, OnDay, AtLeast, LastN, Orderly, Room, Newest, FilesAfter, PointsOf, LastSave, Loaded, Collected,
      Aligned;
    var after := FilesAfter(files, machineId, base, pushed);
    OrderlyAfter(files, machineId, base, pushed, listing);
    OrderlyAt(after, machineId, listing, d);
    FileIsLastSave(files, machineId, base, pushed, d);
    RestartReadsBack(after, machineId, listing, cutoff, d);
    AtLeastAll(Stored(after, machineId, d), cutoff);
  }

  lemma {:induction false} OrderlyAt(files: map<int, MetricFile>, machineId: string, listing: seq<int>, d: int)
    requires Orderly(files, machineId, listing) && d in listing
    ensures DayInOrder(Stored(files, machineId, d), d)
  {
    var n := |listing| - 1;
    if d != listing[n] {
      OrderlyAt(files, machineId, listing[..n], d);
    }
  }
}
