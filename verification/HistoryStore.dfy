/** The daily history files: saving today's statuses, and loading the week back. */
module HistoryStores {
  import opened Clock
  import opened Checks
  import opened Components
  import opened Schedulers
  import opened Sequences

  datatype DayFile = Unreadable | DayFile(machineId: string, components: map<string, Status>)

  const HISTORY_RETENTION_DAYS: int := 7

  /** The status of the first known entry of the day. */
  function FirstKnown(days: seq<HistoryDay>, d: int): Status {
    if days == [] then Unknown
    else if days[0].date == d && days[0].status != Unknown then days[0].status
    else FirstKnown(days[1..], d)
  }

  /** It is the status of the first entry of the day that is known; unknown when there is none. */
  lemma {:induction false} FirstKnownIs(days: seq<HistoryDay>, d: int) returns (i: nat)
    ensures i <= |days| && forall j :: 0 <= j < i ==> days[j].date != d || days[j].status == Unknown
    ensures if i < |days| then days[i].date == d && days[i].status != Unknown && FirstKnown(days, d) == days[i].status
            else FirstKnown(days, d) == Unknown
  {
    if days == [] || (days[0].date == d && days[0].status != Unknown) {
      i := 0;
    } else {
      var k := FirstKnownIs(days[1..], d);
      i := k + 1;
      assert forall j :: 0 < j < i ==> days[j] == days[1..][j - 1];
    }
  }

  function TodayStatuses(history: map<string, seq<HistoryDay>>, today: int): map<string, Status> {
    map c | c in history && FirstKnown(history[c], today) != Unknown :: FirstKnown(history[c], today)
  }

  /** The files after a save: nothing is written while nothing is known today. */
  function Saved(files: map<int, DayFile>, machineId: string, history: map<string, seq<HistoryDay>>, today: int)
    : map<int, DayFile>
  {
    var components := TodayStatuses(history, today);
    if |components| == 0 then files else files[today := DayFile(machineId, components)]
  }

  /** A save writes the file of today, under this machine, with every component that has a known status today, and
      leaves the others; while there is none it writes nothing. */
  lemma SavedIs(files: map<int, DayFile>, machineId: string, history: map<string, seq<HistoryDay>>, today: int)
    ensures var after := Saved(files, machineId, history, today);
            && ((forall c :: c in history ==> FirstKnown(history[c], today) == Unknown) ==> after == files)
            && (forall c :: c in history && FirstKnown(history[c], today) != Unknown ==>
                              today in after && IsOwn(after[today], machineId) && c in after[today].components &&
                              after[today].components[c] == FirstKnown(history[c], today))
            && forall d :: d != today ==> (d in after <==> d in files) && (d in files ==> after[d] == files[d])
  {
    var components := TodayStatuses(history, today);
    if forall c :: c in history ==> FirstKnown(history[c], today) == Unknown {
      assert components == map[];
    }
    forall c | c in history && FirstKnown(history[c], today) != Unknown
      ensures |components| != 0
    {
      assert c in components;
    }
  }

  predicate IsOwn(f: DayFile, machineId: string) {
    f.DayFile? && f.machineId == machineId
  }

  /** What the own file of day d says about component c. */
  function FileStatus(files: map<int, DayFile>, machineId: string, d: int, c: string): Status {
    if d in files && IsOwn(files[d], machineId) && c in files[d].components then files[d].components[c] else Unknown
  }

  predicate Mentions(files: map<int, DayFile>, machineId: string, cutoff: int, d: int, c: string) {
    d in files && cutoff < d && IsOwn(files[d], machineId) && c in files[d].components
  }

  /** The entries of component c, in the order of the directory listing. */
  function Collected(files: map<int, DayFile>, machineId: string, cutoff: int, listing: seq<int>,
                     c: string): seq<HistoryDay> {
    if listing == [] then []
    else
      var n := |listing| - 1;
      var rest, d := Collected(files, machineId, cutoff, listing[..n], c), listing[n];
      if Mentions(files, machineId, cutoff, d, c) then rest + [HistoryDay(d, files[d].components[c])] else rest
  }

  /** A file of another machine counts as one that cannot be read. */
  lemma {:induction false} ForeignIgnored(files: map<int, DayFile>, machineId: string, cutoff: int, listing: seq<int>,
                                          c: string, d: int)
    requires d in files && files[d].DayFile? && files[d].machineId != machineId
    ensures Collected(files, machineId, cutoff, listing, c) ==
              Collected(files[d := Unreadable], machineId, cutoff, listing, c)
  {
    if listing != [] {
      ForeignIgnored(files, machineId, cutoff, listing[..|listing| - 1], c, d);
    }
  }

  function InsertDay(days: seq<HistoryDay>, h: HistoryDay): seq<HistoryDay> {
    if days == [] || days[|days| - 1].date <= h.date then days + [h]
    else InsertDay(days[..|days| - 1], h) + [days[|days| - 1]]
  }

  /** sort.Slice by date. */
  function SortDays(days: seq<HistoryDay>): seq<HistoryDay> {
    if days == [] then [] else InsertDay(SortDays(days[..|days| - 1]), days[|days| - 1])
  }

  /** The history that a load returns. */
  function Loaded(files: map<int, DayFile>, machineId: string, cutoff: int, listing: seq<int>): map<string,
                  seq<HistoryDay>> {
    map c | c in Known(files) && Collected(files, machineId, cutoff, listing, c) != [] ::
      SortDays(Collected(files, machineId, cutoff, listing, c))
  }

  /** Every component that any file names. */
  function Known(files: map<int, DayFile>): set<string> {
    set d, c | d in files && files[d].DayFile? && c in files[d].components :: c
  }

  function Unexpired(files: map<int, DayFile>, cutoff: int): map<int, DayFile> {
    map d | d in files && cutoff < d :: files[d]
  }

  class HistoryStore {
    var files: map<int, DayFile>
    const machineId: string

    constructor (machineId: string)
      ensures files == map[] && this.machineId == machineId
    {
      files := map[];
      this.machineId := machineId;
    }

    /** Looks for today's known status in one component's days. */
    static method FindToday(days: seq<HistoryDay>, today: int) returns (status: Status)
      ensures status == FirstKnown(days, today)
    {
      status := Unknown;
      for i := 0 to |days|
        invariant FirstKnown(days, today) == FirstKnown(days[i..], today)
      {
        assert days[i..][0] == days[i] && days[i..][1..] == days[i + 1..];
        if days[i].date == today && days[i].status != Unknown {
          return days[i].status;
        }
      }
    }

    method Save(history: map<string, seq<HistoryDay>>, now: Time)
      modifies this
      ensures files == Saved(old(files), machineId, history, DayOf(now))
    {
      var today := DayOf(now);
      var components := map[];
      var todo := history.Keys;
      while todo != {}
        invariant files == old(files) && todo <= history.Keys
        invariant components ==
                  map c | c in TodayStatuses(history, today) && c !in todo :: TodayStatuses(history, today)[c]
      {
        var component :| component in todo;
        todo := todo - {component};
        var status := FindToday(history[component], today);
        if status != Unknown {
          components := components[component := status];
        }
      }
      assert components == TodayStatuses(history, today);
      if |components| == 0 {
        return;
      }
      files := files[today := DayFile(machineId, components)];
    }

    /** Adds one file's statuses to the collected lists. */
    static method AppendFile(result: map<string, seq<HistoryDay>>, components: map<string, Status>, date: int)
      returns (out: map<string, seq<HistoryDay>>)
      ensures out == Appended(result, components, date)
    {
      out := result;
      var todo := components.Keys;
      while todo != {}
        invariant todo <= components.Keys
        invariant out.Keys == result.Keys + (components.Keys - todo)
        invariant forall c :: c in out ==> out[c] == if c in components && c !in todo
                                                     then DaysOf(result, c) + [HistoryDay(date, components[c])]
                                                     else result[c]
      {
        var component :| component in todo;
        todo := todo - {component};
        var days := if component in out then out[component] else [];
        out := out[component := days + [HistoryDay(date, components[component])]];
      }
    }

    /** Reads the files in the order of the directory listing, removing the expired ones. */
    method Collect(listing: seq<int>, cutoff: int) returns (result: map<string, seq<HistoryDay>>)
      requires NoRepeats(listing) && forall d :: d in listing <==> d in files
      modifies this
      ensures files == Unexpired(old(files), cutoff)
      ensures result == CollectedMap(old(files), machineId, cutoff, listing)
    {
      result := map[];
      ghost var was := files;
      assert CollectedMap(was, machineId, cutoff, []) == map[];
      for i := 0 to |listing|
        invariant files == map d | d in was && (d !in listing[..i] || cutoff < d) :: was[d]
        invariant result == CollectedMap(was, machineId, cutoff, listing[..i])
      {
        var date := listing[i];
        TakeOne(listing, i);
        NoRepeatsAt(listing, i);
        CollectedStep(was, machineId, cutoff, listing[..i], date);
        if date <= cutoff {
          files := files - {date};
          continue;
        }
        var file := files[date];
        if file.Unreadable? || file.machineId != machineId {
          continue;
        }
        result := AppendFile(result, file.components, date);
      }
      TakeAll(listing);
    }

    method Load(listing: seq<int>, now: Time) returns (result: map<string, seq<HistoryDay>>)
      requires NoRepeats(listing) && forall d :: d in listing <==> d in files
      modifies this
      ensures files == Unexpired(old(files), DayOf(now) - HISTORY_RETENTION_DAYS)
      ensures forall d :: d in files <==> d in old(files) && DayOf(now) - 7 < d
      ensures result == Loaded(old(files), machineId, DayOf(now) - HISTORY_RETENTION_DAYS, listing)
    {
      var cutoff := DayOf(now) - HISTORY_RETENTION_DAYS;
      result := Collect(listing, cutoff);
      ghost var collected := result;
      var todo := result.Keys;
      while todo != {}
        invariant todo <= collected.Keys == result.Keys
        invariant forall c :: c in result ==> result[c] == if c in todo then collected[c] else SortDays(collected[c])
      {
        var component :| component in todo;
        todo := todo - {component};
        result := result[component := SortDays(result[component])];
      }
    }
  }

  /** The lists collected so far, one for each component with an entry. */
  function CollectedMap(files: map<int, DayFile>, machineId: string, cutoff: int, listing: seq<int>)
    : map<string, seq<HistoryDay>>
  {
    map c | c in Known(files) && Collected(files, machineId, cutoff, listing, c) != [] ::
      Collected(files, machineId, cutoff, listing, c)
  }

  function Appended(result: map<string, seq<HistoryDay>>, components: map<string, Status>, date: int)
    : map<string, seq<HistoryDay>>
  {
    map c | c in result.Keys + components.Keys ::
      if c in components then DaysOf(result, c) + [HistoryDay(date, components[c])] else result[c]
  }

  lemma CollectedSnoc(files: map<int, DayFile>, machineId: string, cutoff: int, listing: seq<int>, d: int, c: string)
    ensures var rest := Collected(files, machineId, cutoff, listing, c);
            Collected(files, machineId, cutoff, listing + [d], c) ==
            if Mentions(files, machineId, cutoff, d, c) then rest + [HistoryDay(d, files[d].components[c])] else rest
  {
    Snoc(listing, d);
  }

  /** What one more file does to the collected lists. */
  lemma CollectedStep(files: map<int, DayFile>, machineId: string, cutoff: int, listing: seq<int>, d: int)
    requires d in files
    ensures CollectedMap(files, machineId, cutoff, listing + [d]) ==
            if cutoff < d && IsOwn(files[d], machineId)
            then Appended(CollectedMap(files, machineId, cutoff, listing), files[d].components, d)
            else CollectedMap(files, machineId, cutoff, listing)
  {
    forall c
      ensures var rest := Collected(files, machineId, cutoff, listing, c);
              Collected(files, machineId, cutoff, listing + [d], c) ==
              if Mentions(files, machineId, cutoff, d, c) then rest + [HistoryDay(d, files[d].components[c])] else rest
    {
      CollectedSnoc(files, machineId, cutoff, listing, d, c);
    }
  }
}
