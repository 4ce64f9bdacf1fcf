/**
 What a fresh run of the retry engine guarantees: how many attempts a test gets, which namespaces survive, that no
 result is lost or invented, and what the exit code says.
 */
module RetryGuarantees {
  import opened Wrappers
  import opened RetryEngine

  function Pos(n: int): nat {
    if n < 0 then 0 else n
  }

  // ---------------------------------------------------------------- attempts of one test

  /** Zero or more failures, then at most one success. */
  predicate FailuresThenSuccess(results: seq<TestResult>) {
    forall i :: 0 <= i < |results| - 1 ==> !results[i].success
  }

  lemma {:induction false} ResultsKeepOrder(calls: seq<Call>)
    requires forall i :: 0 <= i < |calls| - 1 ==> !Succeeded(calls[i])
    ensures FailuresThenSuccess(ResultsOf(calls))
    ensures |ResultsOf(calls)| <= |calls|
    ensures |ResultsOf(calls)| == |calls| <==> NoneRaised(calls)
  {
    if calls != [] {
      var rest := calls[1..];
      assert forall i :: 0 <= i < |rest| ==> rest[i] == calls[i + 1];
      ResultsKeepOrder(rest);
      assert NoneRaised(calls) <==> calls[0].outcome.Ran? && NoneRaised(rest);
      if rest == [] {
        assert ResultsOf(rest) == [];
      } else {
        assert !Succeeded(calls[0]);
      }
    }
  }

  /** At most the two budgets together, and less only after a success; the last slot alone may keep its namespace. */
  lemma PlannedShape(calls: seq<Call>, parallelBudget: int, serialBudget: int, keep: bool)
    requires Planned(calls, parallelBudget, serialBudget, keep)
    ensures |calls| <= Pos(parallelBudget) + Pos(serialBudget)
    ensures forall i :: 0 <= i < |calls| - 1 ==> !Succeeded(calls[i])
    ensures !SuccessIn(calls) ==> |calls| == Pos(parallelBudget) + Pos(serialBudget)
    ensures forall i :: 0 <= i < |calls| ==>
              (calls[i].skipDelete <==> keep && i + 1 == Pos(parallelBudget) + Pos(serialBudget))
  {
    var p, q :|
      && calls == p + q
      && Chain(p, Parallel, parallelBudget, parallelBudget, keep && serialBudget <= 0)
      && if SuccessIn(p) then q == [] else Chain(q, Serial, serialBudget, serialBudget, keep) && NoneRaised(q);
    if SuccessIn(p) {
      assert calls == p;
    } else {
      assert |p| == Pos(parallelBudget);
      if SuccessIn(q) {
        var i :| 0 <= i < |q| && Succeeded(q[i]);
        assert calls[|p| + i] == q[i];
      }
      assert forall i :: |p| <= i < |calls| ==> calls[i] == q[i - |p|];
    }
  }

  /** The retries of a test are failures followed by at most one success, within the budgets, which a test that never
   passes and whose workers never raise uses up exactly. */
  lemma RetriesWithinBudget(
    summaries: map<string, TestSummary>, calls: seq<Call>, test: string,
    parallelBudget: int, serialBudget: int, deleteFailedNamespaces: bool)
    requires Accounted(summaries, calls, test, parallelBudget, serialBudget, deleteFailedNamespaces)
    ensures FailuresThenSuccess(summaries[test].retryResults)
    ensures |summaries[test].retryResults| <= Pos(parallelBudget) + Pos(serialBudget)
    ensures summaries[test].finalStatus == Failed && NoneRaised(CallsOf(calls, test)) ==>
              |summaries[test].retryResults| == Pos(parallelBudget) + Pos(serialBudget)
    ensures summaries[test].finalStatus == Flaky <==>
              exists r :: r in summaries[test].retryResults && r.success
  {
    var own := CallsOf(calls, test);
    PlannedShape(own, parallelBudget, serialBudget, !deleteFailedNamespaces);
    ResultsKeepOrder(own);
    ChainSuccess(own);
  }

  lemma {:induction false} ResultsPointwise(calls: seq<Call>)
    requires NoneRaised(calls)
    ensures |ResultsOf(calls)| == |calls|
    ensures forall k :: 0 <= k < |calls| ==> ResultsOf(calls)[k] == ResultOf(calls[k])
  {
    if calls != [] {
      ResultsPointwise(calls[1..]);
    }
  }

  /** `r` is what the attempt `c` came to. */
  predicate Reports(r: TestResult, c: Call) {
    && c.outcome.Ran?
    && r.test == c.test && r.attempt == c.attempt && r.attemptType == c.attemptType
    && r.success == c.outcome.success && r.namespace == if c.outcome.logged then c.outcome.created else None
  }

  lemma {:induction false} EveryResultReports(calls: seq<Call>, r: TestResult) returns (c: Call)
    requires r in ResultsOf(calls)
    ensures c in calls && Reports(r, c)
  {
    if calls[0].outcome.Ran? && r == ResultOf(calls[0]) {
      c := calls[0];
    } else {
      c := EveryResultReports(calls[1..], r);
    }
  }

  /** The first `parallel` attempts are parallel ones, numbered from 1; then serial ones follow, numbered from 1. */
  predicate Numbered(calls: seq<Call>, parallel: nat) {
    forall k :: 0 <= k < |calls| ==>
      if k < parallel then calls[k].attemptType == Parallel && calls[k].attempt == k + 1
      else calls[k].attemptType == Serial && calls[k].attempt == k - parallel + 1
  }

  lemma PlannedNumbers(calls: seq<Call>, parallelBudget: int, serialBudget: int, keep: bool) returns (parallel: nat)
    requires Planned(calls, parallelBudget, serialBudget, keep)
    ensures Numbered(calls, parallel) && parallel <= Pos(parallelBudget)
    ensures parallel < |calls| ==> parallel == Pos(parallelBudget)
  {
    var p, q :|
      && calls == p + q
      && Chain(p, Parallel, parallelBudget, parallelBudget, keep && serialBudget <= 0)
      && if SuccessIn(p) then q == [] else Chain(q, Serial, serialBudget, serialBudget, keep) && NoneRaised(q);
    parallel := |p|;
    assert forall k :: |p| <= k < |calls| ==> calls[k] == q[k - |p|];
  }

  /** The recorded retries of a test report its attempts; if none raised, the k-th reports the k-th. */
  lemma RetriesReportAttempts(
    summaries: map<string, TestSummary>, calls: seq<Call>, test: string,
    parallelBudget: int, serialBudget: int, deleteFailedNamespaces: bool)
    returns (parallel: nat)
    requires Accounted(summaries, calls, test, parallelBudget, serialBudget, deleteFailedNamespaces)
    ensures var own, retries := CallsOf(calls, test), summaries[test].retryResults;
            && Numbered(own, parallel) && parallel <= Pos(parallelBudget)
            && (parallel < |own| ==> parallel == Pos(parallelBudget))
            && (forall r :: r in retries ==> r.test == test && exists c :: c in own && Reports(r, c))
            && ((forall k :: 0 <= k < |own| ==> own[k].outcome.Ran?) ==>
                  |retries| == |own| && forall k :: 0 <= k < |own| ==> Reports(retries[k], own[k]))
  {
    var own, retries := CallsOf(calls, test), summaries[test].retryResults;
    parallel := PlannedNumbers(own, parallelBudget, serialBudget, !deleteFailedNamespaces);
    CallsOfTest(calls, test);
    forall r | r in retries ensures r.test == test && exists c :: c in own && Reports(r, c) {
      var c := EveryResultReports(own, r);
    }
    if forall k :: 0 <= k < |own| ==> own[k].outcome.Ran? {
      ResultsPointwise(own);
    }
  }

  // ---------------------------------------------------------------- namespaces of one test

  /** A passed attempt's namespace could be found in its log and deleted. */
  predicate CleansUp(c: Call) {
    c.outcome.Ran? && c.outcome.success && c.outcome.created.Some? ==> c.outcome.logged && c.outcome.deletable
  }

  function Created(c: Call): multiset<string> {
    if c.outcome.created.Some? then multiset{c.outcome.created.value} else multiset{}
  }

  lemma {:induction false} NothingKept(calls: seq<Call>)
    requires forall i :: 0 <= i < |calls| ==> !calls[i].skipDelete
    ensures Surviving(calls) == multiset{}
  {
    if calls != [] {
      assert forall i :: 0 <= i < |calls[1..]| ==> calls[1..][i] == calls[i + 1];
      NothingKept(calls[1..]);
    }
  }

  /** What one test leaves behind: the namespace of the attempt in its very last slot, if failed namespaces are kept and
   that attempt did not pass and get cleaned up. */
  function LeftBehind(calls: seq<Call>, keep: bool, budget: nat): multiset<string> {
    if !keep || calls == [] || |calls| != budget then multiset{}
    else
      var last := calls[|calls| - 1];
      var cleaned := last.outcome.Ran? && last.outcome.success && last.outcome.logged && last.outcome.deletable;
      if last.outcome.created.None? || cleaned then multiset{} else multiset{last.outcome.created.value}
  }

  lemma OnlyTheLastCanBeKept(calls: seq<Call>)
    requires calls != [] && forall i :: 0 <= i < |calls| - 1 ==> !calls[i].skipDelete
    ensures Surviving(calls) == Left(calls[|calls| - 1])
  {
    var n := |calls| - 1;
    var before, last := calls[..n], calls[n];
    NothingKept(before);
    LogStep(before, last);
    assert calls == before + [last];
  }

  lemma SurvivorsOfTest(calls: seq<Call>, parallelBudget: int, serialBudget: int, keep: bool)
    requires Planned(calls, parallelBudget, serialBudget, keep)
    ensures Surviving(calls) == LeftBehind(calls, keep, Pos(parallelBudget) + Pos(serialBudget))
  {
    PlannedShape(calls, parallelBudget, serialBudget, keep);
    if calls == [] {
      assert Surviving([]) == multiset{};
    } else {
      hide Surviving, Planned, Succeeded, SuccessIn;
      OnlyTheLastCanBeKept(calls);
    }
  }

  /** With working clean-up that is the namespace of the last attempt of a test that never passed. */
  lemma CleanLeftBehind(calls: seq<Call>, parallelBudget: int, serialBudget: int, keep: bool)
    requires Planned(calls, parallelBudget, serialBudget, keep)
    requires forall c :: c in calls ==> CleansUp(c)
    ensures LeftBehind(calls, keep, Pos(parallelBudget) + Pos(serialBudget))
            == if keep && calls != [] && !SuccessIn(calls) then Created(calls[|calls| - 1]) else multiset{}
  {
    PlannedShape(calls, parallelBudget, serialBudget, keep);
    if calls != [] {
      assert calls[|calls| - 1] in calls;
    }
  }

  // ---------------------------------------------------------------- sums over tests

  /** Summing per-test shares over the failed tests. */
  function SurvivingByTest(names: seq<string>, calls: seq<Call>): multiset<string> {
    if names == [] then multiset{} else Surviving(CallsOf(calls, names[0])) + SurvivingByTest(names[1..], calls)
  }

  function ResultsByTest(names: seq<string>, calls: seq<Call>): multiset<TestResult> {
    if names == [] then multiset{}
    else multiset(ResultsOf(CallsOf(calls, names[0]))) + ResultsByTest(names[1..], calls)
  }

  lemma {:induction false} NoCallsByTest(names: seq<string>)
    ensures SurvivingByTest(names, []) == multiset{} && ResultsByTest(names, []) == multiset{}
  {
    if names != [] {
      NoCallsByTest(names[1..]);
    }
  }

  lemma OwnShare(calls: seq<Call>, c: Call, test: string)
    ensures Surviving(CallsOf(calls + [c], test))
            == Surviving(CallsOf(calls, test)) + if c.test == test then Left(c) else multiset{}
    ensures multiset(ResultsOf(CallsOf(calls + [c], test)))
            == multiset(ResultsOf(CallsOf(calls, test)))
               + if c.test == test then ResultShare(c) else multiset{}
  {
    CallsOfAppend(calls, c, test);
    if c.test == test {
      LogStep(CallsOf(calls, test), c);
    } else {
      assert CallsOf(calls, test) + [] == CallsOf(calls, test);
    }
  }

  lemma {:induction false} OtherShares(names: seq<string>, calls: seq<Call>, c: Call)
    requires c.test !in names
    ensures SurvivingByTest(names, calls + [c]) == SurvivingByTest(names, calls)
    ensures ResultsByTest(names, calls + [c]) == ResultsByTest(names, calls)
  {
    if names != [] {
      OwnShare(calls, c, names[0]);
      OtherShares(names[1..], calls, c);
    }
  }

  lemma SumGrows<T>(a: multiset<T>, b: multiset<T>, d: multiset<T>)
    ensures (a + d) + b == (a + b) + d
    ensures a + (b + d) == (a + b) + d
  {
  }

  lemma {:induction false} OneSurvivingShareGrows(names: seq<string>, calls: seq<Call>, c: Call)
    requires Distinct(names) && c.test in names
    ensures SurvivingByTest(names, calls + [c]) == SurvivingByTest(names, calls) + Left(c)
  {
    OwnShare(calls, c, names[0]);
    if names[0] == c.test {
      OtherShares(names[1..], calls, c);
    } else {
      OneSurvivingShareGrows(names[1..], calls, c);
    }
    SumGrows(Surviving(CallsOf(calls, names[0])), SurvivingByTest(names[1..], calls), Left(c));
  }

  function ResultShare(c: Call): multiset<TestResult> {
    if c.outcome.Ran? then multiset{ResultOf(c)} else multiset{}
  }

  lemma {:induction false} OneResultShareGrows(names: seq<string>, calls: seq<Call>, c: Call)
    requires Distinct(names) && c.test in names
    ensures ResultsByTest(names, calls + [c]) == ResultsByTest(names, calls) + ResultShare(c)
  {
    OwnShare(calls, c, names[0]);
    if names[0] == c.test {
      OtherShares(names[1..], calls, c);
    } else {
      OneResultShareGrows(names[1..], calls, c);
    }
    SumGrows(multiset(ResultsOf(CallsOf(calls, names[0]))), ResultsByTest(names[1..], calls), ResultShare(c));
  }

  /** Every attempt belongs to exactly one test, so the shares add up to the whole. */
  lemma {:induction false} SharesAddUp(names: seq<string>, calls: seq<Call>)
    requires Distinct(names) && forall c :: c in calls ==> c.test in names
    ensures Surviving(calls) == SurvivingByTest(names, calls)
    ensures multiset(ResultsOf(calls)) == ResultsByTest(names, calls)
  {
    if calls == [] {
      NoCallsByTest(names);
    } else {
      var n := |calls| - 1;
      assert calls == calls[..n] + [calls[n]] && calls[n] in calls;
      SharesAddUp(names, calls[..n]);
      LogStep(calls[..n], calls[n]);
      OneSurvivingShareGrows(names, calls[..n], calls[n]);
      OneResultShareGrows(names, calls[..n], calls[n]);
    }
  }

  // ---------------------------------------------------------------- the whole run

  function LeftBehindBy(names: seq<string>, calls: seq<Call>, keep: bool, budget: nat): multiset<string> {
    if names == [] then multiset{}
    else LeftBehind(CallsOf(calls, names[0]), keep, budget) + LeftBehindBy(names[1..], calls, keep, budget)
  }

  /** The last attempts' namespaces of the tests that never passed. */
  function FailedNamespaces(names: seq<string>, calls: seq<Call>): multiset<string> {
    if names == [] then multiset{}
    else
      var own := CallsOf(calls, names[0]);
      (if own != [] && !SuccessIn(own) then Created(own[|own| - 1]) else multiset{})
      + FailedNamespaces(names[1..], calls)
  }

  lemma {:induction false} SurvivorsByTest(
    names: seq<string>, calls: seq<Call>, parallelBudget: int, serialBudget: int, keep: bool)
    requires forall t :: t in names ==> Planned(CallsOf(calls, t), parallelBudget, serialBudget, keep)
    ensures SurvivingByTest(names, calls) == LeftBehindBy(names, calls, keep, Pos(parallelBudget) + Pos(serialBudget))
  {
    if names != [] {
      SurvivorsOfTest(CallsOf(calls, names[0]), parallelBudget, serialBudget, keep);
      SurvivorsByTest(names[1..], calls, parallelBudget, serialBudget, keep);
    }
  }

  lemma {:induction false} CleanLeftBehindBy(
    names: seq<string>, calls: seq<Call>, parallelBudget: int, serialBudget: int, keep: bool)
    requires forall t :: t in names ==> Planned(CallsOf(calls, t), parallelBudget, serialBudget, keep)
    requires forall c :: c in calls ==> CleansUp(c)
    ensures LeftBehindBy(names, calls, keep, Pos(parallelBudget) + Pos(serialBudget))
            == if keep then FailedNamespaces(names, calls) else multiset{}
  {
    if names != [] {
      CallsOfTest(calls, names[0]);
      CleanLeftBehind(CallsOf(calls, names[0]), parallelBudget, serialBudget, keep);
      CleanLeftBehindBy(names[1..], calls, parallelBudget, serialBudget, keep);
    }
  }

  /** The surviving namespaces are those the tests' very last slots left behind. */
  lemma NamespacesLeft(
    summaries: map<string, TestSummary>, calls: seq<Call>, names: seq<string>,
    parallelBudget: int, serialBudget: int, deleteFailedNamespaces: bool)
    requires Finished(summaries, calls, names, parallelBudget, serialBudget, deleteFailedNamespaces)
    ensures Surviving(calls)
            == LeftBehindBy(names, calls, !deleteFailedNamespaces, Pos(parallelBudget) + Pos(serialBudget))
  {
    SharesAddUp(names, calls);
    AllPlanned(summaries, calls, names, parallelBudget, serialBudget, deleteFailedNamespaces);
    SurvivorsByTest(names, calls, parallelBudget, serialBudget, !deleteFailedNamespaces);
  }

  lemma AllPlanned(
    summaries: map<string, TestSummary>, calls: seq<Call>, names: seq<string>,
    parallelBudget: int, serialBudget: int, deleteFailedNamespaces: bool)
    requires Finished(summaries, calls, names, parallelBudget, serialBudget, deleteFailedNamespaces)
    ensures forall t :: t in names ==>
              Planned(CallsOf(calls, t), parallelBudget, serialBudget, !deleteFailedNamespaces)
  {
    forall t | t in names
      ensures Planned(CallsOf(calls, t), parallelBudget, serialBudget, !deleteFailedNamespaces)
    {
      assert Accounted(summaries, calls, t, parallelBudget, serialBudget, deleteFailedNamespaces);
    }
  }

  /**
   With working clean-up these are the namespaces of the last attempts of the tests that never passed; in delete mode,
   none.
   */
  lemma NamespaceRetention(
    summaries: map<string, TestSummary>, calls: seq<Call>, names: seq<string>,
    parallelBudget: int, serialBudget: int, deleteFailedNamespaces: bool)
    requires Finished(summaries, calls, names, parallelBudget, serialBudget, deleteFailedNamespaces)
    requires forall c :: c in calls ==> CleansUp(c)
    ensures Surviving(calls) == if deleteFailedNamespaces then multiset{} else FailedNamespaces(names, calls)
  {
    NamespacesLeft(summaries, calls, names, parallelBudget, serialBudget, deleteFailedNamespaces);
    AllPlanned(summaries, calls, names, parallelBudget, serialBudget, deleteFailedNamespaces);
    CleanLeftBehindBy(names, calls, parallelBudget, serialBudget, !deleteFailedNamespaces);
  }

  lemma DeleteModeKeepsNothing(
    summaries: map<string, TestSummary>, calls: seq<Call>, names: seq<string>, parallelBudget: int, serialBudget: int)
    requires Finished(summaries, calls, names, parallelBudget, serialBudget, true)
    ensures Surviving(calls) == multiset{}
  {
    forall i | 0 <= i < |calls| ensures !calls[i].skipDelete {
      var t := calls[i].test;
      assert calls[i] in calls;
      assert Accounted(summaries, calls, t, parallelBudget, serialBudget, true);
      CallsOfTest(calls, t);
      PlannedShape(CallsOf(calls, t), parallelBudget, serialBudget, false);
    }
    NothingKept(calls);
  }

  // ---------------------------------------------------------------- the reported namespace

  lemma {:induction false} ReportedIsLogged(calls: seq<Call>)
    ensures LastNamespace(ResultsOf(calls)).Some? ==>
              exists i :: 0 <= i < |calls| && LoggedNamespace(calls[i]) == LastNamespace(ResultsOf(calls))
    ensures calls != [] && LoggedNamespace(calls[|calls| - 1]).Some? ==>
              LastNamespace(ResultsOf(calls)) == LoggedNamespace(calls[|calls| - 1])
  {
    if calls != [] {
      var n := |calls| - 1;
      assert calls == calls[..n] + [calls[n]];
      ResultsOfAppend(calls[..n], calls[n]);
      ReportedIsLogged(calls[..n]);
      var rs := ResultsOf(calls);
      if calls[n].outcome.Ran? {
        assert rs[..|rs| - 1] == ResultsOf(calls[..n]);
      } else {
        assert rs == ResultsOf(calls[..n]);
      }
    }
  }

  predicate Logs(c: Call, namespace: string) {
    c.outcome.Ran? && c.outcome.logged && c.outcome.created == Some(namespace)
  }

  predicate LogsNothing(c: Call) {
    !c.outcome.Ran? || !c.outcome.logged || c.outcome.created.None?
  }

  /** The latest namespace any of the attempts logged. */
  predicate LatestLogged(calls: seq<Call>, reported: Option<string>) {
    match reported
    case None => forall i :: 0 <= i < |calls| ==> LogsNothing(calls[i])
    case Some(namespace) =>
      exists i :: 0 <= i < |calls| && Logs(calls[i], namespace)
                  && forall j :: i < j < |calls| ==> LogsNothing(calls[j])
  }

  lemma {:induction false} LastNamespaceIsLatest(calls: seq<Call>)
    ensures LatestLogged(calls, LastNamespace(ResultsOf(calls)))
  {
    if calls != [] {
      var n := |calls| - 1;
      var before, last := calls[..n], calls[n];
      assert calls == before + [last];
      ResultsOfAppend(before, last);
      LastNamespaceIsLatest(before);
      var rs := ResultsOf(calls);
      assert last.outcome.Ran? ==> rs[..|rs| - 1] == ResultsOf(before);
      assert !last.outcome.Ran? ==> rs == ResultsOf(before);
      LatestAppend(before, LastNamespace(ResultsOf(before)), last);
    }
  }

  lemma LatestAppend(before: seq<Call>, reported: Option<string>, last: Call)
    requires LatestLogged(before, reported)
    ensures LogsNothing(last) ==> LatestLogged(before + [last], reported)
    ensures !LogsNothing(last) ==> LatestLogged(before + [last], last.outcome.created)
  {
    var calls := before + [last];
    assert calls[|before|] == last && forall i :: 0 <= i < |before| ==> calls[i] == before[i];
    if LogsNothing(last) && reported.Some? {
      var i :| 0 <= i < |before| && Logs(before[i], reported.value)
               && forall j :: i < j < |before| ==> LogsNothing(before[j]);
      assert Logs(calls[i], reported.value) && forall j :: i < j < |calls| ==> LogsNothing(calls[j]);
    }
    if !LogsNothing(last) {
      assert Logs(calls[|before|], last.outcome.created.value);
    }
  }

  /** Only failed tests whose namespaces are kept report one: the latest that any of their attempts logged. */
  lemma ReportedIsLatest(
    summaries: map<string, TestSummary>, calls: seq<Call>, test: string,
    parallelBudget: int, serialBudget: int, deleteFailedNamespaces: bool)
    requires Accounted(summaries, calls, test, parallelBudget, serialBudget, deleteFailedNamespaces)
    ensures summaries[test].finalStatus == Failed && !deleteFailedNamespaces ==>
              LatestLogged(CallsOf(calls, test), summaries[test].finalNamespace)
    ensures !(summaries[test].finalStatus == Failed && !deleteFailedNamespaces) ==> summaries[test].finalNamespace.None?
  {
    LastNamespaceIsLatest(CallsOf(calls, test));
  }

  /** Attempts never share a namespace. */
  predicate OwnNamespaces(calls: seq<Call>) {
    forall i, j :: 0 <= i < j < |calls| && calls[i].outcome.created.Some? ==>
      calls[i].outcome.created != calls[j].outcome.created
  }

  /** A finally failed test's reported namespace still exists if and only if the last attempt logged it. */
  lemma ReportedNamespaceExists(
    summaries: map<string, TestSummary>, calls: seq<Call>, test: string, parallelBudget: int, serialBudget: int)
    requires Accounted(summaries, calls, test, parallelBudget, serialBudget, false)
    requires summaries[test].finalStatus == Failed && summaries[test].finalNamespace.Some?
    requires OwnNamespaces(CallsOf(calls, test))
    ensures var own, reported := CallsOf(calls, test), summaries[test].finalNamespace;
            && own != []
            && (LoggedNamespace(own[|own| - 1]).Some? ==> reported == LoggedNamespace(own[|own| - 1]))
            && (reported.value in Surviving(own) <==> LoggedNamespace(own[|own| - 1]).Some?)
  {
    ChainSuccess(CallsOf(calls, test));
    ReportOfFailed(CallsOf(calls, test), summaries[test].finalNamespace, parallelBudget, serialBudget);
  }

  lemma ReportOfFailed(own: seq<Call>, reported: Option<string>, parallelBudget: int, serialBudget: int)
    requires Planned(own, parallelBudget, serialBudget, true) && !SuccessIn(own) && OwnNamespaces(own)
    requires reported.Some? && reported == LastNamespace(ResultsOf(own))
    ensures own != []
    ensures LoggedNamespace(own[|own| - 1]).Some? ==> reported == LoggedNamespace(own[|own| - 1])
    ensures reported.value in Surviving(own) <==> LoggedNamespace(own[|own| - 1]).Some?
  {
    ReportedIsLogged(own);
    FailedTestLeaves(own, parallelBudget, serialBudget);
    LastLogged(own, reported.value);
  }

  lemma FailedTestLeaves(own: seq<Call>, parallelBudget: int, serialBudget: int)
    requires own != [] && Planned(own, parallelBudget, serialBudget, true) && !SuccessIn(own)
    ensures Surviving(own) == Created(own[|own| - 1])
  {
    PlannedShape(own, parallelBudget, serialBudget, true);
    forall c | c in own ensures CleansUp(c) {
      assert !Succeeded(c);
    }
    SurvivorsOfTest(own, parallelBudget, serialBudget, true);
    CleanLeftBehind(own, parallelBudget, serialBudget, true);
  }

  lemma LastLogged(own: seq<Call>, namespace: string)
    requires OwnNamespaces(own) && exists i :: 0 <= i < |own| && LoggedNamespace(own[i]) == Some(namespace)
    requires var last := own[|own| - 1]; LoggedNamespace(last).Some? ==> LoggedNamespace(last) == Some(namespace)
    ensures namespace in Created(own[|own| - 1]) <==> LoggedNamespace(own[|own| - 1]).Some?
  {
    var i :| 0 <= i < |own| && LoggedNamespace(own[i]) == Some(namespace);
    assert i < |own| - 1 ==> own[i].outcome.created != own[|own| - 1].outcome.created;
  }

  /** One parallel and one serial attempt, both failing; only the first made and logged a namespace. */
  function GoneAttempts(test: string, namespace: string): seq<Call> {
    [Call(test, 1, Parallel, false, Ran(false, Some(namespace), true, true)),
     Call(test, 1, Serial, true, Ran(false, None, false, true))]
  }

  /** With both budgets 1 and failed namespaces kept, the report then names a namespace that is gone. */
  lemma ReportedButGone(test: string, namespace: string)
    ensures var own := GoneAttempts(test, namespace);
            var summaries := map[test := SummaryOf(test, ResultsOf(own), false)];
            && Accounted(summaries, own, test, 1, 1, false) && OwnNamespaces(CallsOf(own, test))
            && summaries[test].finalStatus == Failed && summaries[test].finalNamespace == Some(namespace)
            && namespace !in Surviving(CallsOf(own, test))
  {
    var own := GoneAttempts(test, namespace);
    var first, second := [own[0]], [own[1]];
    assert own == first + second;
    CallsOfSame(own, test);
    GonePlanned(test, namespace);
    ResultsOfAppend(first, own[1]);
    One(own[0], test);
    ChainSuccess(own);
    ReportedIsLogged(first);
    var results := ResultsOf(own);
    assert results == [ResultOf(own[0]), ResultOf(own[1])] && results[..1] == [ResultOf(own[0])];
    FailedTestLeaves(own, 1, 1);
  }

  lemma GonePlanned(test: string, namespace: string)
    ensures Planned(GoneAttempts(test, namespace), 1, 1, true)
  {
    var own := GoneAttempts(test, namespace);
    var first, second := [own[0]], [own[1]];
    assert own == first + second;
    assert Chain(first, Parallel, 1, 1, false) && !SuccessIn(first);
    assert Chain(second, Serial, 1, 1, true) && NoneRaised(second);
  }

  // ---------------------------------------------------------------- conservation and the exit code

  function RetriesOf(names: seq<string>, summaries: map<string, TestSummary>): multiset<TestResult>
    requires forall t :: t in names ==> t in summaries
  {
    if names == [] then multiset{}
    else multiset(summaries[names[0]].retryResults) + RetriesOf(names[1..], summaries)
  }

  function RetryCount(names: seq<string>, summaries: map<string, TestSummary>): int
    requires forall t :: t in names ==> t in summaries
  {
    if names == [] then 0 else summaries[names[0]].totalAttempts - 1 + RetryCount(names[1..], summaries)
  }

  lemma {:induction false} SummariesHoldShares(
    summaries: map<string, TestSummary>, calls: seq<Call>, names: seq<string>,
    parallelBudget: int, serialBudget: int, deleteFailedNamespaces: bool)
    requires forall t :: t in names ==>
               Accounted(summaries, calls, t, parallelBudget, serialBudget, deleteFailedNamespaces)
    ensures forall t :: t in names ==> t in summaries
    ensures RetriesOf(names, summaries) == ResultsByTest(names, calls)
    ensures RetryCount(names, summaries) == |ResultsByTest(names, calls)|
  {
    if names != [] {
      assert Accounted(summaries, calls, names[0], parallelBudget, serialBudget, deleteFailedNamespaces);
      SummariesHoldShares(summaries, calls, names[1..], parallelBudget, serialBudget, deleteFailedNamespaces);
    }
  }

  /** No result is lost, invented or counted twice. */
  lemma ResultConservation(
    summaries: map<string, TestSummary>, calls: seq<Call>, names: seq<string>,
    parallelBudget: int, serialBudget: int, deleteFailedNamespaces: bool)
    requires Finished(summaries, calls, names, parallelBudget, serialBudget, deleteFailedNamespaces)
    ensures forall t :: t in summaries <==> t in names
    ensures multiset(ResultsOf(calls)) == RetriesOf(names, summaries)
    ensures |ResultsOf(calls)| == RetryCount(names, summaries)
  {
    SharesAddUp(names, calls);
    SummariesHoldShares(summaries, calls, names, parallelBudget, serialBudget, deleteFailedNamespaces);
    assert |multiset(ResultsOf(calls))| == |ResultsOf(calls)|;
  }

  predicate Passes(c: Call) {
    c.outcome.Ran? && c.outcome.success
  }

  /** The run fails if and only if some failed test never passed in any retry. */
  lemma ExitCodeMeans(
    summaries: map<string, TestSummary>, calls: seq<Call>, names: seq<string>,
    parallelBudget: int, serialBudget: int, deleteFailedNamespaces: bool)
    requires Finished(summaries, calls, names, parallelBudget, serialBudget, deleteFailedNamespaces)
    ensures SomeFailed(summaries) <==>
              exists t :: t in names && forall c :: c in calls && c.test == t ==> !Passes(c)
  {
    forall t | t in names
      ensures summaries[t].finalStatus == Failed <==> forall c :: c in calls && c.test == t ==> !Passes(c)
    {
      assert Accounted(summaries, calls, t, parallelBudget, serialBudget, deleteFailedNamespaces);
      SuccessIsRecorded(CallsOf(calls, t));
      CallsOfTest(calls, t);
    }
  }
}
