/** Any number of callers of Sync, interleaved step by step. */
module SingleFlight {
  import opened Clock
  import opened Checks
  import Syncs

  type Caller = nat

  /** A finished run: its window, and when it completed. */
  datatype Run = Run(start: Time, end: Time, completedAt: Time)

  /** Where a caller is between two accesses to the shared state. */
  datatype Phase =
    | Locked                            // past TryLock
    | Marked                            // inFlight set
    | Clocked(now: Time)                // window end read
    | Working(start: Time, end: Time)   // window chosen, chunks running
    | Finished(run: Run)                // completion time read
    | Published                         // lastSync and lastRes set
    | Cleared                           // inFlight cleared, lock still held

  /** Callers without a phase are not inside Sync; runs lists every published result. */
  datatype State = State(clock: Time, enabled: bool, lock: Option<Caller>, inFlight: bool, lastSync: Time,
                         lastRes: Option<Run>, phases: map<Caller, Phase>, runs: seq<Run>)

  predicate Init(s: State) {
    s.lock == None && !s.inFlight && s.lastSync == ZERO_TIME && s.lastRes == None && s.phases == map[] &&
    s.runs == [] && ZERO_TIME < s.clock
  }

  datatype Event =
    | Tick(elapsed: nat)
    | Refused(c: Caller)
    | TryLock(c: Caller)
    | Mark(c: Caller)
    | ReadClock(c: Caller)
    | ChooseWindow(c: Caller)
    | Finish(c: Caller)
    | Publish(c: Caller)
    | Clear(c: Caller)
    | Unlock(c: Caller)

  predicate At(s: State, c: Caller) {
    c in s.phases
  }

  /** A refused caller finds no journal, or the lock taken; it is not already inside. */
  predicate CanRefuse(s: State, c: Caller) {
    c !in s.phases && (!s.enabled || s.lock.Some?)
  }

  /** One atomic step; the chunks themselves only feed the buffer and let time pass. */
  predicate Next(s: State, e: Event, t: State) {
    match e
    case Tick(elapsed) => t == s.(clock := s.clock + elapsed)
    case Refused(c) => CanRefuse(s, c) && t == s
    case TryLock(c) =>
      c !in s.phases && s.enabled && s.lock.None? &&
      t == s.(lock := Some(c), phases := s.phases[c := Locked])
    case Mark(c) =>
      At(s, c) && s.phases[c].Locked? && t == s.(inFlight := true, phases := s.phases[c := Marked])
    case ReadClock(c) =>
      At(s, c) && s.phases[c].Marked? && t == s.(phases := s.phases[c := Clocked(s.clock)])
    case ChooseWindow(c) =>
      At(s, c) && s.phases[c].Clocked? &&
      var now := s.phases[c].now;
      t == s.(phases := s.phases[c := Working(Syncs.WindowStart(s.lastSync, now), now)])
    case Finish(c) =>
      At(s, c) && s.phases[c].Working? &&
      var p := s.phases[c];
      t == s.(phases := s.phases[c := Finished(Run(p.start, p.end, s.clock))])
    case Publish(c) =>
      At(s, c) && s.phases[c].Finished? &&
      var r := s.phases[c].run;
      t == s.(lastSync := r.completedAt, lastRes := Some(r), runs := s.runs + [r], phases := s.phases[c := Published])
    case Clear(c) =>
      At(s, c) && s.phases[c].Published? && t == s.(inFlight := false, phases := s.phases[c := Cleared])
    case Unlock(c) =>
      At(s, c) && s.phases[c].Cleared? && t == s.(lock := None, phases := s.phases - {c})
  }

  // ---- what every reachable state satisfies ----

  function Last(runs: seq<Run>): Option<Run> {
    if runs == [] then None else Some(runs[|runs| - 1])
  }

  /** A window following the run before it: from that run's completion, or seven days back if that is later. */
  predicate Continues(prev: Option<Run>, start: Time, end: Time) {
    match prev
    case None => start == end - Syncs.DEFAULT_WINDOW
    case Some(p) => p.completedAt <= end && start == Max(p.completedAt, end - Syncs.DEFAULT_WINDOW)
  }

  /** Each run's window continues the run before it, and each run completes after its window ends. */
  predicate Chained(runs: seq<Run>) {
    if runs == [] then true
    else
      var n := |runs| - 1;
      Chained(runs[..n]) && Continues(Last(runs[..n]), runs[n].start, runs[n].end) &&
      ZERO_TIME < runs[n].end <= runs[n].completedAt
  }

  function SyncedAt(last: Option<Run>): Time {
    if last.None? then ZERO_TIME else last.value.completedAt
  }

  /** What a caller in phase p can rely on. */
  predicate PhaseOk(s: State, p: Phase) {
    match p
    case Locked => !s.inFlight
    case Marked => s.inFlight
    case Clocked(now) => s.inFlight && ZERO_TIME < now <= s.clock && s.lastSync <= now
    case Working(start, end) => s.inFlight && ZERO_TIME < end <= s.clock && Continues(s.lastRes, start, end)
    case Finished(r) =>
      s.inFlight && ZERO_TIME < r.end <= r.completedAt <= s.clock && Continues(s.lastRes, r.start, r.end)
    case Published => s.inFlight
    case Cleared => !s.inFlight
  }

  ghost predicate Inv(s: State) {
    && ZERO_TIME < s.clock && s.lastSync <= s.clock
    && (forall c :: c in s.phases ==> s.lock == Some(c) && PhaseOk(s, s.phases[c]))
    && (s.lock.Some? ==> s.lock.value in s.phases)
    && (s.lock.None? ==> !s.inFlight)
    && s.lastRes == Last(s.runs) && s.lastSync == SyncedAt(s.lastRes)
    && (s.lastRes.Some? ==> ZERO_TIME < s.lastSync)
    && Chained(s.runs)
  }

  lemma ChainedSnoc(runs: seq<Run>, r: Run)
    requires Chained(runs) && Continues(Last(runs), r.start, r.end) && ZERO_TIME < r.end <= r.completedAt
    ensures Chained(runs + [r]) && Last(runs + [r]) == Some(r)
  {
    assert (runs + [r])[..|runs|] == runs;
  }

  lemma PublishKeepsInv(s: State, c: Caller, t: State)
    requires Inv(s) && Next(s, Publish(c), t)
    ensures Inv(t)
  {
    hide Chained, Last, Continues;
    ChainedSnoc(s.runs, s.phases[c].run);
  }

  lemma OthersKeepInv(s: State, e: Event, t: State)
    requires Inv(s) && Next(s, e, t) && !e.Publish?
    ensures Inv(t)
  {
    hide Chained, Last;
  }

  lemma NextKeepsInv(s: State, e: Event, t: State)
    requires Inv(s) && Next(s, e, t)
    ensures Inv(t)
  {
    hide Inv, Next;
    match e
    case Publish(c) => PublishKeepsInv(s, c, t);
    case _ => OthersKeepInv(s, e, t);
  }

  /** An interleaving of any number of callers, from a state where nobody ever synced. */
  ghost predicate Trace(states: seq<State>, events: seq<Event>) {
    && |states| == |events| + 1 && Init(states[0])
    && forall i :: 0 <= i < |events| ==> Next(states[i], events[i], states[i + 1])
  }

  lemma {:induction false} TraceKeepsInv(states: seq<State>, events: seq<Event>, k: nat)
    requires Trace(states, events) && k < |states|
    ensures Inv(states[k])
  {
    if k > 0 {
      TraceKeepsInv(states, events, k - 1);
      NextKeepsInv(states[k - 1], events[k - 1], states[k]);
    }
  }

  /** Single flight: in every interleaving exactly the lock holder is past TryLock, so at most one caller
      is; and inFlight is set only while somebody holds the lock. */
  lemma AtMostOneInside(states: seq<State>, events: seq<Event>, k: nat)
    requires Trace(states, events) && k < |states|
    ensures forall c :: c in states[k].phases <==> states[k].lock == Some(c)
    ensures states[k].inFlight ==> states[k].lock.Some?
  {
    TraceKeepsInv(states, events, k);
  }

  /** The last result and the time of the last sync are published together: the time is always the
      completion of the result, and neither ever changes without the other. */
  lemma PublishedTogether(states: seq<State>, events: seq<Event>, k: nat)
    requires Trace(states, events) && k < |states|
    ensures var s := states[k];
            && (s.lastRes.None? ==> s.lastSync == ZERO_TIME && s.runs == [])
            && (s.lastRes.Some? ==> s.lastSync == s.lastRes.value.completedAt && s.runs != [])
    ensures k < |events| && states[k + 1].runs != states[k].runs ==>
              events[k].Publish? && states[k].inFlight && states[k + 1].inFlight &&
              states[k + 1].lastRes == Last(states[k + 1].runs)
    ensures k < |events| && states[k + 1].runs == states[k].runs ==>
              states[k + 1].lastSync == states[k].lastSync && states[k + 1].lastRes == states[k].lastRes
  {
    hide Chained;
    TraceKeepsInv(states, events, k);
    if k < |events| {
      TraceKeepsInv(states, events, k + 1);
    }
  }

  lemma {:induction false} ChainedInOrder(runs: seq<Run>, i: nat, j: nat)
    requires Chained(runs) && i < j < |runs|
    ensures runs[i].start <= runs[i].end <= runs[i].completedAt <= runs[j].start <= runs[j].end
    decreases |runs|
  {
    var n := |runs| - 1;
    var before := runs[..n];
    if j < n {
      ChainedInOrder(before, i, j);
    } else if i < n - 1 {
      ChainedInOrder(before, i, n - 1);
    } else {
      assert Chained(before[..n - 1]);
    }
  }

  lemma {:induction false} ChainedAt(runs: seq<Run>, i: nat)
    requires Chained(runs) && i < |runs|
    ensures Continues(if i == 0 then None else Some(runs[i - 1]), runs[i].start, runs[i].end)
    decreases |runs|
  {
    var n := |runs| - 1;
    if i < n {
      ChainedAt(runs[..n], i);
    }
  }

  /** The windows of different runs never overlap: each starts no earlier than every earlier one ended. */
  lemma WindowsFollow(states: seq<State>, events: seq<Event>, k: nat, i: nat, j: nat)
    requires Trace(states, events) && k < |states| && i < j < |states[k].runs|
    ensures var runs := states[k].runs; runs[i].end <= runs[i].completedAt <= runs[j].start
  {
    TraceKeepsInv(states, events, k);
    ChainedInOrder(states[k].runs, i, j);
  }

  /** What successive windows leave out: everything between the end of a window and the start of the next,
      so they meet exactly when the earlier run took no time and is at most seven days old. */
  lemma WindowsMeetExactly(states: seq<State>, events: seq<Event>, k: nat, i: nat)
    requires Trace(states, events) && k < |states| && i + 1 < |states[k].runs|
    ensures var p, r := states[k].runs[i], states[k].runs[i + 1];
            r.start == p.end <==> p.completedAt == p.end && r.end - p.end <= Syncs.DEFAULT_WINDOW
  {
    TraceKeepsInv(states, events, k);
    ChainedInOrder(states[k].runs, i, i + 1);
    ChainedAt(states[k].runs, i + 1);
  }

  // ---- the lock is always given back ----

  /** How many steps the lock holder still has to take. */
  function Rank(s: State): nat {
    if s.lock.None? || s.lock.value !in s.phases then 0
    else
      match s.phases[s.lock.value]
      case Locked => 7
      case Marked => 6
      case Clocked(_) => 5
      case Working(_, _) => 4
      case Finished(_) => 3
      case Published => 2
      case Cleared => 1
  }

  /** The steps of a caller that holds the lock. */
  predicate Inside(e: Event) {
    !e.Tick? && !e.Refused? && !e.TryLock?
  }

  /** In every reachable state the lock holder can take its next step, whatever the other callers do. */
  lemma HolderCanStep(states: seq<State>, events: seq<Event>, k: nat) returns (e: Event, t: State)
    requires Trace(states, events) && k < |states|
    ensures states[k].lock.Some? ==> Inside(e) && Next(states[k], e, t)
  {
    var s := states[k];
    TraceKeepsInv(states, events, k);
    e, t := Tick(0), s;
    if s.lock.Some? {
      var c := s.lock.value;
      match s.phases[c]
      case Locked => e, t := Mark(c), s.(inFlight := true, phases := s.phases[c := Marked]);
      case Marked => e, t := ReadClock(c), s.(phases := s.phases[c := Clocked(s.clock)]);
      case Clocked(now) =>
        e, t := ChooseWindow(c), s.(phases := s.phases[c := Working(Syncs.WindowStart(s.lastSync, now), now)]);
      case Working(start, end) =>
        e, t := Finish(c), s.(phases := s.phases[c := Finished(Run(start, end, s.clock))]);
      case Finished(r) =>
        e := Publish(c);
        t := s.(lastSync := r.completedAt, lastRes := Some(r), runs := s.runs + [r],
                phases := s.phases[c := Published]);
      case Published => e, t := Clear(c), s.(inFlight := false, phases := s.phases[c := Cleared]);
      case Cleared => e, t := Unlock(c), s.(lock := None, phases := s.phases - {c});
    }
  }

  /** Each step of the holder brings it one closer to giving the lock back, and no other event while it
      holds the lock moves it away; at rank 0 the lock is free. */
  lemma HolderAdvances(states: seq<State>, events: seq<Event>, k: nat)
    requires Trace(states, events) && k < |events|
    ensures Rank(states[k]) == 0 <==> states[k].lock.None?
    ensures states[k].lock.Some? ==> Rank(states[k + 1]) == Rank(states[k]) - if Inside(events[k]) then 1 else 0
  {
    TraceKeepsInv(states, events, k);
  }

  // ---- one call of the syncer is one run of the protocol ----

  /** The steps of a caller that finds the lock free and reads the clock at now and at completed. */
  ghost predicate IsCall(states: seq<State>, c: Caller, now: Time, completed: Time) {
    && |states| == 11 && states[0].clock <= now <= completed
    && Next(states[0], TryLock(c), states[1])
    && Next(states[1], Mark(c), states[2])
    && Next(states[2], Tick(now - states[0].clock), states[3])
    && Next(states[3], ReadClock(c), states[4])
    && Next(states[4], ChooseWindow(c), states[5])
    && Next(states[5], Tick(completed - now), states[6])
    && Next(states[6], Finish(c), states[7])
    && Next(states[7], Publish(c), states[8])
    && Next(states[8], Clear(c), states[9])
    && Next(states[9], Unlock(c), states[10])
  }

  /** Up to the choice of the window. */
  lemma CallEnters(s: State, c: Caller, now: Time) returns (s1: State, s2: State, s3: State, s4: State, s5: State)
    requires s.enabled && s.lock.None? && c !in s.phases && s.clock <= now
    ensures Next(s, TryLock(c), s1) && Next(s1, Mark(c), s2) && Next(s2, Tick(now - s.clock), s3)
    ensures Next(s3, ReadClock(c), s4) && Next(s4, ChooseWindow(c), s5)
    ensures s5 == s.(lock := Some(c), inFlight := true, clock := now,
                     phases := s.phases[c := Working(Syncs.WindowStart(s.lastSync, now), now)])
  {
    hide Syncs.WindowStart;
    s1 := s.(lock := Some(c), phases := s.phases[c := Locked]);
    s2 := s1.(inFlight := true, phases := s1.phases[c := Marked]);
    s3 := s2.(clock := now);
    s4 := s3.(phases := s3.phases[c := Clocked(now)]);
    s5 := s4.(phases := s4.phases[c := Working(Syncs.WindowStart(s.lastSync, now), now)]);
    assert s5.phases == s.phases[c := Working(Syncs.WindowStart(s.lastSync, now), now)];
  }

  /** From the chosen window to the release of the lock. */
  lemma CallLeaves(s: State, c: Caller, start: Time, end: Time, completed: Time)
    returns (s1: State, s2: State, s3: State, s4: State, s5: State)
    requires c in s.phases && s.phases[c] == Working(start, end) && s.clock <= completed
    ensures Next(s, Tick(completed - s.clock), s1) && Next(s1, Finish(c), s2) && Next(s2, Publish(c), s3)
    ensures Next(s3, Clear(c), s4) && Next(s4, Unlock(c), s5)
    ensures var r := Run(start, end, completed);
            s5 == s.(lock := None, inFlight := false, clock := completed, lastSync := completed, lastRes := Some(r),
                     runs := s.runs + [r], phases := s.phases - {c})
  {
    var r := Run(start, end, completed);
    s1 := s.(clock := completed);
    s2 := s1.(phases := s1.phases[c := Finished(r)]);
    s3 := s2.(lastSync := completed, lastRes := Some(r), runs := s2.runs + [r], phases := s2.phases[c := Published]);
    s4 := s3.(inFlight := false, phases := s3.phases[c := Cleared]);
    s5 := s4.(lock := None, phases := s4.phases - {c});
    assert s5.phases == s.phases - {c};
  }

  /** Those steps can be taken one after the other, and publish the window from the last sync to now. */
  lemma CallRuns(s: State, c: Caller, now: Time, completed: Time) returns (states: seq<State>)
    requires s.enabled && s.lock.None? && !s.inFlight && c !in s.phases && s.clock <= now <= completed
    ensures IsCall(states, c, now, completed) && states[0] == s
    ensures var r := Run(Syncs.WindowStart(s.lastSync, now), now, completed);
            states[10] == s.(clock := completed, lastSync := completed, lastRes := Some(r), runs := s.runs + [r])
  {
    hide Syncs.WindowStart, Next;
    var start := Syncs.WindowStart(s.lastSync, now);
    var s1, s2, s3, s4, s5 := CallEnters(s, c, now);
    var s6, s7, s8, s9, s10 := CallLeaves(s5, c, start, now, completed);
    assert s.phases[c := Working(start, now)] - {c} == s.phases;
    states := [s, s1, s2, s3, s4, s5, s6, s7, s8, s9, s10];
  }

  function RunOf(res: Syncs.SyncResult): Run {
    Run(res.window.start, res.window.end, res.completedAt)
  }

  /** The fields of the syncer are the shared state of the protocol. */
  ghost predicate Matches(x: Syncs.Syncer, s: State)
    reads x
  {
    && x.enabled == s.enabled && x.locked == s.lock.Some? && x.inFlight == s.inFlight && x.lastSync == s.lastSync
    && s.lastRes == if x.lastRes.None? then None else Some(RunOf(x.lastRes.value))
  }

  /** One call of the syncer, made while nobody holds the lock, has the effect of those ten steps. */
  method Call(x: Syncs.Syncer, env: Syncs.Env, ghost s: State, ghost c: Caller)
    returns (out: Syncs.Outcome, ghost states: seq<State>)
    requires x.buffer.Valid() && Matches(x, s)
    requires s.enabled && s.lock.None? && !s.inFlight && c !in s.phases && s.clock <= env.now <= env.completed
    modifies x, x.buffer, x.buffer.entries
    ensures out.Done? && IsCall(states, c, env.now, env.completed) && states[0] == s && Matches(x, states[10])
    ensures states[10].runs == s.runs + [RunOf(out.result)]
  {
    hide IsCall, Syncs.WindowStart, Syncs.StopsAfter, Syncs.Tiling;
    states := CallRuns(s, c, env.now, env.completed);
    var queries;
    out, queries := x.Sync(env);
  }
}
