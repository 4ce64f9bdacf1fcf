/**
 How long each test usually takes: the runtimes kept per test and the JSON file they are kept in
 (scripts/auto-retry-tests.py). Durations are reals; a file holds the records it was given, or nothing readable.
 */
module RuntimeHistories {
  import opened Wrappers

  const MIN_RUNTIME_THRESHOLD: real := 30.0
  const MAX_RUNTIME_HISTORY: nat := 50

  datatype Record = Record(testName: string, runtimes: seq<real>, lastUpdated: string)

  type Records = map<string, Record>

  /** What becomes of the file when it is written: replaced, left as it was, or damaged half-way. */
  datatype Save = Written | Refused | Damaged

  // ---------------------------------------------------------------- runtimes of one test

  function LongEnough(runtimes: seq<real>): seq<real> {
    if runtimes == [] then []
    else
      var n := |runtimes| - 1;
      LongEnough(runtimes[..n]) + if runtimes[n] >= MIN_RUNTIME_THRESHOLD then [runtimes[n]] else []
  }

  function Latest(runtimes: seq<real>): seq<real> {
    if |runtimes| > MAX_RUNTIME_HISTORY then runtimes[|runtimes| - MAX_RUNTIME_HISTORY..] else runtimes
  }

  function Added(record: Record, duration: real, now: string): Record {
    if duration >= MIN_RUNTIME_THRESHOLD
    then record.(runtimes := Latest(record.runtimes + [duration]), lastUpdated := now)
    else record
  }

  lemma LongEnoughAppend(runtimes: seq<real>, duration: real)
    ensures LongEnough(runtimes + [duration])
            == LongEnough(runtimes) + if duration >= MIN_RUNTIME_THRESHOLD then [duration] else []
  {
    assert (runtimes + [duration])[..|runtimes|] == runtimes;
  }

  lemma {:induction false} AllLongEnough(runtimes: seq<real>)
    requires forall d :: d in runtimes ==> d >= MIN_RUNTIME_THRESHOLD
    ensures LongEnough(runtimes) == runtimes
  {
    if runtimes != [] {
      var n := |runtimes| - 1;
      assert runtimes[n] in runtimes && forall d :: d in runtimes[..n] ==> d in runtimes;
      AllLongEnough(runtimes[..n]);
      assert runtimes == runtimes[..n] + [runtimes[n]];
    }
  }

  lemma {:induction false} OnlyLongEnough(runtimes: seq<real>)
    ensures forall d :: d in LongEnough(runtimes) <==> d in runtimes && d >= MIN_RUNTIME_THRESHOLD
  {
    if runtimes != [] {
      var n := |runtimes| - 1;
      OnlyLongEnough(runtimes[..n]);
      assert forall d :: d in runtimes <==> d == runtimes[n] || d in runtimes[..n];
    }
  }

  /** Trimming on every addition forgets nothing that trimming once would keep. */
  lemma LatestOfLatest(runtimes: seq<real>, duration: real)
    ensures Latest(Latest(runtimes) + [duration]) == Latest(runtimes + [duration])
  {
    var n := |runtimes|;
    if n > MAX_RUNTIME_HISTORY {
      var k := n - MAX_RUNTIME_HISTORY;
      assert (runtimes[k..] + [duration])[1..] == (runtimes + [duration])[k + 1..];
    }
  }

  /** `r` is the last fifty of `long`, or all of them. */
  ghost predicate LastFifty(long: seq<real>, r: seq<real>) {
    |r| == (if |long| < 50 then |long| else 50) && exists front :: long == front + r
  }

  lemma LatestIsLastFifty(long: seq<real>)
    ensures LastFifty(long, Latest(long))
  {
    var n := |long| - |Latest(long)|;
    assert long == long[..n] + Latest(long);
  }

  // ---------------------------------------------------------------- the history of all tests

  function Updated(history: Records, test: string, duration: real, created: string, added: string): Records {
    var record := if test in history then history[test] else Record(test, [], created);
    history[test := Added(record, duration, added)]
  }

  /** What loading keeps of a file: the runtimes above the threshold, and no test without any. */
  function Cleaned(data: Records): Records {
    map t | t in data && LongEnough(data[t].runtimes) != [] ::
      Record(data[t].testName, LongEnough(data[t].runtimes), data[t].lastUpdated)
  }

  /** The part of a file loaded while the tests `rest` are still to come. */
  function CleanedSoFar(data: Records, rest: set<string>): Records {
    map t | t in data && t !in rest && LongEnough(data[t].runtimes) != [] ::
      Record(data[t].testName, LongEnough(data[t].runtimes), data[t].lastUpdated)
  }

  lemma CleanedStep(memory: Records, data: Records, rest: set<string>, test: string)
    requires test in rest && test in data
    ensures var kept := LongEnough(data[test].runtimes);
            && (kept == [] ==> CleanedSoFar(data, rest - {test}) == CleanedSoFar(data, rest))
            && (kept != [] ==>
                  && test in CleanedSoFar(data, rest - {test})
                  && memory + CleanedSoFar(data, rest - {test})
                     == (memory + CleanedSoFar(data, rest))
                          [test := Record(data[test].testName, kept, data[test].lastUpdated)])
  {
  }

  function AfterSave(file: Option<Records>, history: Records, save: Save): Option<Records> {
    match save
    case Written => Some(history)
    case Refused => file
    case Damaged => None
  }

  class RuntimeHistory {
    const testName: string
    var runtimes: seq<real>
    var lastUpdated: string

    constructor (testName: string, runtimes: seq<real>, lastUpdated: string)
      ensures Value() == Record(testName, runtimes, lastUpdated)
    {
      this.testName, this.runtimes, this.lastUpdated := testName, runtimes, lastUpdated;
    }

    function Value(): Record
      reads this
    {
      Record(testName, runtimes, lastUpdated)
    }

    method AddRuntime(duration: real, now: string)
      modifies this
      ensures Value() == Added(old(Value()), duration, now)
      ensures duration < 30.0 ==> unchanged(this)
      ensures duration >= 30.0 ==> lastUpdated == now && LastFifty(old(runtimes) + [duration], runtimes)
    {
      LatestIsLastFifty(runtimes + [duration]);
      if duration >= MIN_RUNTIME_THRESHOLD {
        runtimes := runtimes + [duration];
        lastUpdated := now;
        if |runtimes| > MAX_RUNTIME_HISTORY {
          runtimes := runtimes[|runtimes| - MAX_RUNTIME_HISTORY..];
        }
      }
    }
  }

  class StateManager {
    var runtimeHistory: map<string, RuntimeHistory>
    var runtimeFile: Option<Records>

    /** Every test has a history object of its own. */
    ghost predicate Valid()
      reads this`runtimeHistory
    {
      forall s, t :: s in runtimeHistory && t in runtimeHistory && s != t ==> runtimeHistory[s] != runtimeHistory[t]
    }

    function Contents(): Records
      reads this`runtimeHistory, runtimeHistory.Values
    {
      map t | t in runtimeHistory :: runtimeHistory[t].Value()
    }

    constructor (runtimeFile: Option<Records>)
      ensures Valid() && Contents() == map[] && this.runtimeFile == runtimeFile
    {
      this.runtimeHistory, this.runtimeFile := map[], runtimeFile;
    }

    method SaveRuntimeHistory(save: Save)
      modifies this`runtimeFile
      ensures runtimeFile == AfterSave(old(runtimeFile), Contents(), save)
    {
      match save
      case Written => runtimeFile := Some(Contents());
      case Refused =>
      case Damaged => runtimeFile := None;
    }

    method Remember(test: string, testName: string, runtimes: seq<real>, lastUpdated: string)
      requires Valid()
      modifies this`runtimeHistory
      ensures Valid() && Contents() == old(Contents())[test := Record(testName, runtimes, lastUpdated)]
      ensures forall t :: t in runtimeHistory ==>
                if t == test then fresh(runtimeHistory[t])
                else t in old(runtimeHistory) && runtimeHistory[t] == old(runtimeHistory)[t]
      ensures test in runtimeHistory
    {
      var history := new RuntimeHistory(testName, runtimes, lastUpdated);
      runtimeHistory := runtimeHistory[test := history];
    }

    /** Entries of the file replace those in memory; a file that yields any entry is written back cleaned up. */
    method LoadRuntimeHistory(save: Save)
      requires Valid()
      modifies this
      ensures Valid()
      ensures var data := old(runtimeFile).GetOr(map[]);
              && Contents() == old(Contents()) + Cleaned(data)
              && runtimeFile == if Cleaned(data) == map[] then old(runtimeFile)
                                else AfterSave(old(runtimeFile), Contents(), save)
    {
      if runtimeFile.None? || runtimeFile.value == map[] {
        return;
      }
      var data := runtimeFile.value;
      var loadedCount, rest := 0, data.Keys;
      while rest != {}
        invariant Valid() && rest <= data.Keys && runtimeFile == old(runtimeFile) && loadedCount >= 0
        invariant Contents() == old(Contents()) + CleanedSoFar(data, rest)
        invariant loadedCount == 0 <==> CleanedSoFar(data, rest) == map[]
        decreases |rest|
      {
        var test :| test in rest;
        var kept := LongEnough(data[test].runtimes);
        if kept != [] {
          Remember(test, data[test].testName, kept, data[test].lastUpdated);
          loadedCount := loadedCount + 1;
        }
        CleanedStep(old(Contents()), data, rest, test);
        rest := rest - {test};
      }
      assert CleanedSoFar(data, {}) == Cleaned(data);
      if loadedCount > 0 {
        SaveRuntimeHistory(save);
      }
    }

    method AddTo(test: string, duration: real, now: string)
      requires Valid() && test in runtimeHistory
      modifies runtimeHistory[test]
      ensures Contents() == old(Contents())[test := Added(old(Contents()[test]), duration, now)]
    {
      hide Added, LastFifty;
      runtimeHistory[test].AddRuntime(duration, now);
    }

    method UpdateRuntimeHistory(test: string, duration: real, created: string, added: string, save: Save)
      requires Valid()
      modifies this, runtimeHistory.Values
      ensures Valid()
      ensures Contents() == Updated(old(Contents()), test, duration, created, added)
      ensures runtimeFile == AfterSave(old(runtimeFile), Contents(), save)
    {
      if test !in runtimeHistory {
        Remember(test, test, [], created);
      }
      hide Added, AfterSave;
      ghost var before := Contents();
      AddTo(test, duration, added);
      assert Contents() == before[test := Added(before[test], duration, added)];
      SaveRuntimeHistory(save);
    }
  }

  // ---------------------------------------------------------------- any sequence of reports and restarts

  datatype Event =
    | Report(test: string, duration: real, created: string, added: string, save: Save)
    | Restart(save: Save)

  datatype Store = Store(memory: Records, file: Option<Records>)

  /** A restart forgets the memory and loads the file. */
  function After(store: Store, event: Event): Store {
    match event
    case Report(test, duration, created, added, save) =>
      var history := Updated(store.memory, test, duration, created, added);
      Store(history, AfterSave(store.file, history, save))
    case Restart(save) =>
      var history := Cleaned(store.file.GetOr(map[]));
      Store(history, if history == map[] then store.file else AfterSave(store.file, history, save))
  }

  function Run(events: seq<Event>): Store {
    if events == [] then Store(map[], None) else After(Run(events[..|events| - 1]), events[|events| - 1])
  }

  type Reports = seq<(string, real)>

  /** The reports that memory and file still know of. */
  datatype Trail = Trail(memory: Reports, file: Reports)

  function Durations(reports: Reports, test: string): seq<real> {
    if reports == [] then []
    else
      var n := |reports| - 1;
      Durations(reports[..n], test) + if reports[n].0 == test then [reports[n].1] else []
  }

  ghost predicate AnyLong(reports: Reports) {
    exists test :: LongEnough(Durations(reports, test)) != []
  }

  function Kept(file: Reports, memory: Reports, save: Save): Reports {
    match save
    case Written => memory
    case Refused => file
    case Damaged => []
  }

  ghost function Followed(trail: Trail, event: Event): Trail {
    match event
    case Report(test, duration, _, _, save) =>
      var memory := trail.memory + [(test, duration)];
      Trail(memory, Kept(trail.file, memory, save))
    case Restart(save) =>
      Trail(trail.file, if AnyLong(trail.file) then Kept(trail.file, trail.file, save) else trail.file)
  }

  ghost function TrailOf(events: seq<Event>): Trail {
    if events == [] then Trail([], []) else Followed(TrailOf(events[..|events| - 1]), events[|events| - 1])
  }

  function RuntimesOf(history: Records, test: string): seq<real> {
    if test in history then history[test].runtimes else []
  }

  /** The last fifty durations above the threshold. */
  function Expected(reports: Reports, test: string): seq<real> {
    Latest(LongEnough(Durations(reports, test)))
  }

  ghost predicate Holds(history: Records, reports: Reports) {
    forall test :: RuntimesOf(history, test) == Expected(reports, test)
  }

  lemma ReportHolds(history: Records, reports: Reports, test: string, duration: real, created: string, added: string)
    requires Holds(history, reports)
    ensures Holds(Updated(history, test, duration, created, added), reports + [(test, duration)])
  {
    var history', reports' := Updated(history, test, duration, created, added), reports + [(test, duration)];
    assert reports'[..|reports|] == reports;
    forall t ensures RuntimesOf(history', t) == Expected(reports', t) {
      assert RuntimesOf(history, t) == Expected(reports, t);
      if t == test {
        LongEnoughAppend(Durations(reports, t), duration);
        LatestOfLatest(LongEnough(Durations(reports, t)), duration);
        assert LongEnough(Durations(reports, t)) + [] == LongEnough(Durations(reports, t));
      } else {
        assert Durations(reports, t) + [] == Durations(reports, t);
      }
    }
  }

  lemma ExpectedIsLong(reports: Reports, test: string)
    ensures LongEnough(Expected(reports, test)) == Expected(reports, test)
    ensures Expected(reports, test) == [] <==> LongEnough(Durations(reports, test)) == []
  {
    var long := LongEnough(Durations(reports, test));
    OnlyLongEnough(Durations(reports, test));
    assert forall d :: d in Latest(long) ==> d in long;
    AllLongEnough(Latest(long));
  }

  /** Loading restores what was saved, except for tests without a runtime. */
  lemma LoadHolds(history: Records, reports: Reports)
    requires Holds(history, reports)
    ensures Holds(Cleaned(history), reports)
    ensures Cleaned(history) == map t | t in history && history[t].runtimes != [] :: history[t]
    ensures Cleaned(history) != map[] <==> AnyLong(reports)
  {
    hide Cleaned;
    hide Expected;
    forall t ensures KeptByLoad(history, reports, t) {
      LoadKeeps(history, reports, t);
    }
    forall t ensures RuntimesOf(Cleaned(history), t) == Expected(reports, t) {
      assert KeptByLoad(history, reports, t);
    }
    forall t
      ensures t in Cleaned(history) <==> t in history && history[t].runtimes != []
      ensures t in Cleaned(history) ==> Cleaned(history)[t] == history[t]
    {
      assert KeptByLoad(history, reports, t);
    }
    SomeLong(history, reports);
  }

  ghost predicate KeptByLoad(history: Records, reports: Reports, test: string) {
    && RuntimesOf(Cleaned(history), test) == Expected(reports, test)
    && (test in Cleaned(history) <==> test in history && history[test].runtimes != [])
    && (test in Cleaned(history) <==> LongEnough(Durations(reports, test)) != [])
    && (test in Cleaned(history) ==> Cleaned(history)[test] == history[test])
  }

  lemma LoadKeeps(history: Records, reports: Reports, test: string)
    requires Holds(history, reports)
    ensures KeptByLoad(history, reports, test)
  {
    assert RuntimesOf(history, test) == Expected(reports, test);
    ExpectedIsLong(reports, test);
  }

  lemma SomeLong(history: Records, reports: Reports)
    requires forall t :: KeptByLoad(history, reports, t)
    ensures Cleaned(history) != map[] <==> AnyLong(reports)
  {
    hide Cleaned;
    if AnyLong(reports) {
      var t :| LongEnough(Durations(reports, t)) != [];
      assert KeptByLoad(history, reports, t);
    }
    if Cleaned(history) != map[] {
      var t :| t in Cleaned(history);
      assert KeptByLoad(history, reports, t);
    }
  }

  lemma NothingHolds()
    ensures Holds(map[], [])
  {
  }

  lemma SaveHolds(file: Option<Records>, history: Records, onFile: Reports, inMemory: Reports, save: Save)
    requires Holds(file.GetOr(map[]), onFile) && Holds(history, inMemory)
    ensures Holds(AfterSave(file, history, save).GetOr(map[]), Kept(onFile, inMemory, save))
  {
    NothingHolds();
  }

  /** Memory and file hold the last fifty durations of at least thirty seconds among the reports they know of. */
  lemma {:induction false} HistoryRefines(events: seq<Event>)
    ensures Holds(Run(events).memory, TrailOf(events).memory)
    ensures Holds(Run(events).file.GetOr(map[]), TrailOf(events).file)
  {
    if events == [] {
      NothingHolds();
    } else {
      var n := |events| - 1;
      HistoryRefines(events[..n]);
      var store, trail := Run(events[..n]), TrailOf(events[..n]);
      match events[n]
      case Report(test, duration, created, added, save) =>
        ReportHolds(store.memory, trail.memory, test, duration, created, added);
        SaveHolds(store.file, Updated(store.memory, test, duration, created, added), trail.file,
                  trail.memory + [(test, duration)], save);
      case Restart(save) =>
        LoadHolds(store.file.GetOr(map[]), trail.file);
        SaveHolds(store.file, Cleaned(store.file.GetOr(map[])), trail.file, trail.file, save);
    }
  }

  /** Every report of a run, in order. */
  function AllReports(events: seq<Event>): Reports {
    if events == [] then []
    else
      var n := |events| - 1;
      AllReports(events[..n]) + if events[n].Report? then [(events[n].test, events[n].duration)] else []
  }

  lemma {:induction false} NothingForgotten(events: seq<Event>)
    requires forall e :: e in events ==> e.save == Written
    ensures TrailOf(events) == Trail(AllReports(events), AllReports(events))
  {
    if events != [] {
      var n := |events| - 1;
      assert events[n] in events && forall e :: e in events[..n] ==> e in events;
      NothingForgotten(events[..n]);
      assert AllReports(events[..n]) + [] == AllReports(events[..n]);
    }
  }

  /** While saving works, the history of a test is the last fifty durations of at least thirty seconds ever reported
   for it, whatever the restarts, and loading the file gives it back without the tests that have none. */
  lemma HistoryIsComplete(events: seq<Event>, test: string)
    requires forall e :: e in events ==> e.save == Written
    ensures RuntimesOf(Run(events).memory, test) == Expected(AllReports(events), test)
    ensures Cleaned(Run(events).memory)
            == map t | t in Run(events).memory && Run(events).memory[t].runtimes != [] :: Run(events).memory[t]
  {
    HistoryRefines(events);
    NothingForgotten(events);
    LoadHolds(Run(events).memory, AllReports(events));
  }

  // ---------------------------------------------------------------- the history in terms of what was reported

  /** The durations of at least thirty seconds among the reports for a test, oldest first. */
  function LongReported(reports: Reports, test: string): seq<real> {
    if reports == [] then []
    else
      var n := |reports| - 1;
      LongReported(reports[..n], test)
      + if reports[n].0 == test && reports[n].1 >= 30.0 then [reports[n].1] else []
  }

  lemma {:induction false} LongOfReported(reports: Reports, test: string)
    ensures LongEnough(Durations(reports, test)) == LongReported(reports, test)
  {
    if reports != [] {
      var n := |reports| - 1;
      var before := Durations(reports[..n], test);
      LongOfReported(reports[..n], test);
      assert LongEnough(before) + [] == LongEnough(before) && before + [] == before;
      if reports[n].0 == test {
        LongEnoughAppend(before, reports[n].1);
      }
    }
  }

  /** The history knows, of every test, the last fifty durations of at least thirty seconds among the reports. */
  ghost predicate Recalls(history: Records, reports: Reports) {
    forall test ::
      LastFifty(LongReported(reports, test), if test in history then history[test].runtimes else [])
  }

  lemma HoldsRecalls(history: Records, reports: Reports)
    requires Holds(history, reports)
    ensures Recalls(history, reports)
  {
    forall test ensures LastFifty(LongReported(reports, test), if test in history then history[test].runtimes else []) {
      assert RuntimesOf(history, test) == Expected(reports, test);
      LongOfReported(reports, test);
      LatestIsLastFifty(LongReported(reports, test));
    }
  }

  /** After any reports, restarts and failing or damaging saves, memory and file recall the reports they know of. */
  lemma HistoryRecalls(events: seq<Event>)
    ensures Recalls(Run(events).memory, TrailOf(events).memory)
    ensures Recalls(if Run(events).file.Some? then Run(events).file.value else map[], TrailOf(events).file)
  {
    HistoryRefines(events);
    HoldsRecalls(Run(events).memory, TrailOf(events).memory);
    HoldsRecalls(Run(events).file.GetOr(map[]), TrailOf(events).file);
  }

  /** While saving works, memory recalls every report ever made, whatever the restarts. */
  lemma RecallsEverything(events: seq<Event>)
    requires forall e :: e in events ==> e.save == Written
    ensures Recalls(Run(events).memory, AllReports(events))
  {
    HistoryRecalls(events);
    NothingForgotten(events);
  }

  lemma KeptExactly(runtimes: seq<real>)
    ensures LongEnough(runtimes) != [] <==> exists d :: d in runtimes && d >= 30.0
    ensures forall d :: d in LongEnough(runtimes) <==> d in runtimes && d >= 30.0
  {
    OnlyLongEnough(runtimes);
    hide LongEnough;
    if d :| d in runtimes && d >= 30.0 {
      assert d in LongEnough(runtimes);
    }
    if LongEnough(runtimes) != [] {
      var d := LongEnough(runtimes)[0];
      assert d in LongEnough(runtimes) && d in runtimes;
    }
  }

  /** Loading keeps a test if and only if its entry holds durations of at least thirty seconds, and those it keeps. */
  lemma LoadedExactly(data: Records, test: string)
    ensures test in Cleaned(data) <==> test in data && exists d :: d in data[test].runtimes && d >= 30.0
    ensures test in Cleaned(data) ==>
              && Cleaned(data)[test].testName == data[test].testName
              && Cleaned(data)[test].lastUpdated == data[test].lastUpdated
              && forall d :: d in Cleaned(data)[test].runtimes <==> d in data[test].runtimes && d >= 30.0
  {
    if test in data {
      KeptExactly(data[test].runtimes);
      hide LongEnough;
    }
  }
}
