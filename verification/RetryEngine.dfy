/**
 The retry engine for flaky integration tests (scripts/auto-retry-tests.py): a parallel phase, a serial phase,
 and the bookkeeping that turns attempts into summaries, kept namespaces and an exit code.

 The world's part is given as functions: what the n-th attempt comes to, and which of the running workers
 finishes next. `calls` logs every attempt, so that what the runner records can be compared with what ran.
 */
module RetryEngine {
  import opened Wrappers

  datatype AttemptType = Initial | Parallel | Serial

  /**
   What an attempt comes to. `created` is the namespace the test made, `logged` whether the log names it, and
   `deletable` whether deleting it afterwards succeeds. A worker may also raise.
   */
  datatype Outcome =
    | Ran(success: bool, created: Option<string>, logged: bool, deletable: bool)
    | Raised(created: Option<string>)

  datatype Call = Call(test: string, attempt: int, attemptType: AttemptType, skipDelete: bool, outcome: Outcome)

  datatype TestResult = TestResult(
    test: string, attempt: int, attemptType: AttemptType, success: bool, namespace: Option<string>)

  datatype Status = Passed | Failed | Flaky

  datatype TestSummary = TestSummary(
    test: string, retryResults: seq<TestResult>, finalStatus: Status, totalAttempts: nat,
    finalNamespace: Option<string>)

  // ---------------------------------------------------------------- reading the log

  predicate Succeeded(c: Call) {
    c.outcome.Ran? && c.outcome.success
  }

  function LoggedNamespace(c: Call): Option<string> {
    if c.outcome.Ran? && c.outcome.logged then c.outcome.created else None
  }

  function ResultOf(c: Call): TestResult {
    TestResult(c.test, c.attempt, c.attemptType, Succeeded(c), LoggedNamespace(c))
  }

  /** The results that reach the runner: a worker that raises leaves none. */
  function ResultsOf(calls: seq<Call>): seq<TestResult> {
    if calls == [] then []
    else (if calls[0].outcome.Ran? then [ResultOf(calls[0])] else []) + ResultsOf(calls[1..])
  }

  function CallsOf(calls: seq<Call>, test: string): seq<Call> {
    if calls == [] then []
    else (if calls[0].test == test then [calls[0]] else []) + CallsOf(calls[1..], test)
  }

  /** A namespace outlives its attempt only with skip-delete, and then unless a success cleans it up. */
  function Left(c: Call): multiset<string> {
    if !c.skipDelete || c.outcome.created.None? then multiset{}
    else if c.outcome.Ran? && c.outcome.success && c.outcome.logged && c.outcome.deletable then multiset{}
    else multiset{c.outcome.created.value}
  }

  function Surviving(calls: seq<Call>): multiset<string> {
    if calls == [] then multiset{} else Left(calls[0]) + Surviving(calls[1..])
  }

  predicate AnySuccess(results: seq<TestResult>) {
    exists r :: r in results && r.success
  }

  function LastNamespace(results: seq<TestResult>): Option<string> {
    if results == [] then None
    else if results[|results| - 1].namespace.Some? then results[|results| - 1].namespace
    else LastNamespace(results[..|results| - 1])
  }

  predicate Distinct(names: seq<string>) {
    forall i, j :: 0 <= i < j < |names| ==> names[i] != names[j]
  }

  lemma Associative<T>(before: seq<T>, log: seq<T>, more: seq<T>)
    ensures before + log + more == before + (log + more)
  {
  }

  lemma Uncons(calls: seq<Call>, more: seq<Call>)
    requires calls != []
    ensures (calls + more)[0] == calls[0] && (calls + more)[1..] == calls[1..] + more
  {
  }

  lemma One(c: Call, test: string)
    ensures ResultsOf([c]) == if c.outcome.Ran? then [ResultOf(c)] else []
    ensures CallsOf([c], test) == if c.test == test then [c] else []
    ensures Surviving([c]) == Left(c)
  {
    assert [c][1..] == [];
    assert Surviving([]) == multiset{};
  }

  lemma {:induction false} ResultsOfConcat(calls: seq<Call>, more: seq<Call>)
    ensures ResultsOf(calls + more) == ResultsOf(calls) + ResultsOf(more)
  {
    if calls == [] {
      assert calls + more == more;
    } else {
      Uncons(calls, more);
      ResultsOfConcat(calls[1..], more);
      Associative(if calls[0].outcome.Ran? then [ResultOf(calls[0])] else [], ResultsOf(calls[1..]), ResultsOf(more));
    }
  }

  lemma {:induction false} CallsOfConcat(calls: seq<Call>, more: seq<Call>, test: string)
    ensures CallsOf(calls + more, test) == CallsOf(calls, test) + CallsOf(more, test)
  {
    if calls == [] {
      assert calls + more == more;
    } else {
      Uncons(calls, more);
      CallsOfConcat(calls[1..], more, test);
      Associative(if calls[0].test == test then [calls[0]] else [], CallsOf(calls[1..], test), CallsOf(more, test));
    }
  }

  lemma {:induction false} SurvivingConcat(calls: seq<Call>, more: seq<Call>)
    ensures Surviving(calls + more) == Surviving(calls) + Surviving(more)
  {
    if calls == [] {
      assert calls + more == more;
    } else {
      Uncons(calls, more);
      SurvivingConcat(calls[1..], more);
    }
  }

  lemma ResultsOfAppend(calls: seq<Call>, c: Call)
    ensures ResultsOf(calls + [c]) == ResultsOf(calls) + if c.outcome.Ran? then [ResultOf(c)] else []
  {
    ResultsOfConcat(calls, [c]);
    One(c, c.test);
  }

  lemma CallsOfAppend(calls: seq<Call>, c: Call, test: string)
    ensures CallsOf(calls + [c], test) == CallsOf(calls, test) + if c.test == test then [c] else []
  {
    CallsOfConcat(calls, [c], test);
    One(c, test);
  }

  lemma LogStep(log: seq<Call>, call: Call)
    ensures Surviving(log + [call]) == Surviving(log) + Left(call)
    ensures ResultsOf(log + [call]) == ResultsOf(log) + if call.outcome.Ran? then [ResultOf(call)] else []
  {
    SurvivingConcat(log, [call]);
    One(call, call.test);
    ResultsOfAppend(log, call);
  }

  lemma {:induction false} CallsOfOthers(calls: seq<Call>, test: string)
    requires forall c :: c in calls ==> c.test != test
    ensures CallsOf(calls, test) == []
  {
    if calls != [] {
      assert calls[0] in calls;
      assert forall c :: c in calls[1..] ==> c in calls;
      CallsOfOthers(calls[1..], test);
    }
  }

  lemma {:induction false} CallsOfSame(calls: seq<Call>, test: string)
    requires forall c :: c in calls ==> c.test == test
    ensures CallsOf(calls, test) == calls
  {
    if calls != [] {
      assert calls[0] in calls;
      assert forall c :: c in calls[1..] ==> c in calls;
      CallsOfSame(calls[1..], test);
    }
  }

  lemma {:induction false} CallsOfTest(calls: seq<Call>, test: string)
    ensures forall c :: c in CallsOf(calls, test) <==> c in calls && c.test == test
  {
    if calls != [] {
      CallsOfTest(calls[1..], test);
      assert forall c :: c in calls <==> c == calls[0] || c in calls[1..];
    }
  }

  lemma {:induction false} SuccessIsRecorded(calls: seq<Call>)
    ensures AnySuccess(ResultsOf(calls)) <==> exists c :: c in calls && Succeeded(c)
  {
    if calls != [] {
      SuccessIsRecorded(calls[1..]);
      assert forall c :: c in calls <==> c == calls[0] || c in calls[1..];
      var head := if calls[0].outcome.Ran? then [ResultOf(calls[0])] else [];
      assert forall r :: r in ResultsOf(calls) <==> r in head || r in ResultsOf(calls[1..]);
      if Succeeded(calls[0]) {
        assert ResultOf(calls[0]) in ResultsOf(calls);
      }
    }
  }

  // ---------------------------------------------------------------- one phase of one test

  /**
   `n` rounds of a phase with budget `max`: attempts are numbered from 1, stop at the first success, otherwise
   use every round, and only the budget's last attempt may keep its namespace.
   */
  predicate Chain(calls: seq<Call>, attemptType: AttemptType, n: int, max: int, keepLast: bool) {
    && |calls| <= (if n < 0 then 0 else n)
    && (forall i :: 0 <= i < |calls| ==>
          && calls[i].attemptType == attemptType
          && calls[i].attempt == i + 1
          && calls[i].skipDelete == (keepLast && i + 1 == max))
    && (forall i :: 0 <= i < |calls| - 1 ==> !Succeeded(calls[i]))
    && (|calls| < n ==> calls != [] && Succeeded(calls[|calls| - 1]))
  }

  predicate SuccessIn(calls: seq<Call>) {
    exists i :: 0 <= i < |calls| && Succeeded(calls[i])
  }

  lemma ChainExtends(calls: seq<Call>, c: Call, attemptType: AttemptType, n: nat, max: int, keepLast: bool)
    requires Chain(calls, attemptType, n, max, keepLast) && !SuccessIn(calls)
    requires c.attemptType == attemptType && c.attempt == n + 1 && c.skipDelete == (keepLast && n + 1 == max)
    ensures |calls| == n
    ensures Chain(calls + [c], attemptType, n + 1, max, keepLast)
  {
  }

  // ---------------------------------------------------------------- what the parallel phase maintains

  /** The per-test lists hold exactly the logged results. */
  predicate Recorded(all: map<string, seq<TestResult>>, all': map<string, seq<TestResult>>, log: seq<Call>) {
    all'.Keys == all.Keys && forall t :: t in all ==> all'[t] == all[t] + ResultsOf(CallsOf(log, t))
  }

  predicate RoundCalls(log: seq<Call>, selected: seq<string>, attempt: int, skipDelete: bool) {
    forall c :: c in log ==>
      c.test in selected && c.attempt == attempt && c.attemptType == Parallel && c.skipDelete == skipDelete
  }

  predicate Once(selected: seq<string>, running: seq<string>, log: seq<Call>) {
    forall t :: t in selected ==> |CallsOf(log, t)| == if t in running then 0 else 1
  }

  lemma RecordedStep(
    all: map<string, seq<TestResult>>, all': map<string, seq<TestResult>>, log: seq<Call>, call: Call)
    requires Recorded(all, all', log) && call.test in all
    ensures Recorded(
              all,
              if call.outcome.Ran? then all'[call.test := all'[call.test] + [ResultOf(call)]] else all',
              log + [call])
  {
    hide ResultsOf, CallsOf, ResultOf;
    forall t | t in all
      ensures ResultsOf(CallsOf(log + [call], t))
              == ResultsOf(CallsOf(log, t)) + if t == call.test && call.outcome.Ran? then [ResultOf(call)] else []
    {
      OwnResults(log, call, t);
    }
    forall t | t in all ensures all[t] + ResultsOf(CallsOf(log, t)) + [] == all[t] + ResultsOf(CallsOf(log, t)) {
    }
    Associative(all[call.test], ResultsOf(CallsOf(log, call.test)), [ResultOf(call)]);
  }

  lemma OwnResults(log: seq<Call>, call: Call, test: string)
    ensures ResultsOf(CallsOf(log + [call], test))
            == ResultsOf(CallsOf(log, test)) + if test == call.test && call.outcome.Ran? then [ResultOf(call)] else []
  {
    CallsOfAppend(log, call, test);
    ResultsOfAppend(CallsOf(log, test), call);
    assert CallsOf(log, test) + [] == CallsOf(log, test);
    assert ResultsOf(CallsOf(log, test)) + [] == ResultsOf(CallsOf(log, test));
  }

  lemma OnceStep(selected: seq<string>, running: seq<string>, i: nat, log: seq<Call>, call: Call)
    requires i < |running| && call.test == running[i] && Distinct(running) && Once(selected, running, log)
    requires forall t :: t in running ==> t in selected
    ensures Once(selected, running[..i] + running[i + 1..], log + [call])
  {
    RemovedOne(running, i);
    forall t | t in selected
      ensures |CallsOf(log + [call], t)| == |CallsOf(log, t)| + if t == call.test then 1 else 0
    {
      CallsOfAppend(log, call, t);
    }
  }

  /** A round in progress. */
  ghost predicate RoundInv(
    selected: seq<string>, running: seq<string>, all: map<string, seq<TestResult>>,
    all': map<string, seq<TestResult>>, log: seq<Call>, attempt: int, skipDelete: bool)
  {
    && (forall t :: t in running ==> t in selected)
    && Recorded(all, all', log) && RoundCalls(log, selected, attempt, skipDelete)
    && (Distinct(selected) ==> Distinct(running) && Once(selected, running, log))
  }

  lemma RoundStep(
    selected: seq<string>, running: seq<string>, all: map<string, seq<TestResult>>,
    all': map<string, seq<TestResult>>, log: seq<Call>, attempt: int, skipDelete: bool, i: nat, call: Call)
    requires RoundInv(selected, running, all, all', log, attempt, skipDelete) && i < |running|
    requires forall t :: t in selected ==> t in all
    requires call.test == running[i] && call.attempt == attempt
    requires call.attemptType == Parallel && call.skipDelete == skipDelete
    ensures RoundInv(
              selected, running[..i] + running[i + 1..], all,
              if call.outcome.Ran? then all'[call.test := all'[call.test] + [ResultOf(call)]] else all',
              log + [call], attempt, skipDelete)
  {
    RecordedStep(all, all', log, call);
    RoundCallsStep(log, selected, attempt, skipDelete, call);
    RemovedOne(running, i);
    if Distinct(selected) {
      OnceStep(selected, running, i, log, call);
    }
  }

  lemma RoundCallsStep(log: seq<Call>, selected: seq<string>, attempt: int, skipDelete: bool, call: Call)
    requires RoundCalls(log, selected, attempt, skipDelete) && RoundCalls([call], selected, attempt, skipDelete)
    ensures RoundCalls(log + [call], selected, attempt, skipDelete)
  {
  }

  function ResultsFor(all: map<string, seq<TestResult>>, test: string): seq<TestResult> {
    if test in all then all[test] else []
  }

  /** The tests that go on being retried: those without a success so far. */
  ghost predicate StillFailingOf(failing: seq<string>, names: seq<string>, parallel: map<string, seq<TestResult>>) {
    && (forall t :: t in failing <==> t in names && !AnySuccess(ResultsFor(parallel, t)))
    && (Distinct(names) ==> Distinct(failing))
  }

  /** Every test's list holds exactly its logged results. */
  predicate Collected(names: seq<string>, all: map<string, seq<TestResult>>, log: seq<Call>) {
    forall t :: t in names ==> t in all && ResultsFor(all, t) == ResultsOf(CallsOf(log, t))
  }

  lemma PhaseStart(names: seq<string>, max: int, keepLast: bool)
    ensures PhaseInv(names, NoResults(names), [], 0, max, keepLast)
    ensures max <= 0 || names == [] ==> PhaseInv(names, NoResults(names), [], max, max, keepLast)
    ensures forall t :: t in names ==> t in NoResults(names)
  {
    assert forall t :: t in names ==> NoResults(names)[t] == [];
  }

  /** The parallel phase after `n` rounds. */
  ghost predicate PhaseInv(
    names: seq<string>, all: map<string, seq<TestResult>>, log: seq<Call>, n: int, max: int, keepLast: bool)
  {
    && Collected(names, all, log)
    && (forall c :: c in log ==> c.test in names)
    && (Distinct(names) ==> Chains(names, log, n, max, keepLast))
  }

  lemma PhaseStep(
    names: seq<string>, selected: seq<string>, all: map<string, seq<TestResult>>, all': map<string, seq<TestResult>>,
    log: seq<Call>, round: seq<Call>, attempt: nat, max: int, keepLast: bool)
    requires 1 <= attempt <= max && PhaseInv(names, all, log, attempt - 1, max, keepLast)
    requires StillFailingOf(selected, names, all)
    requires RoundInv(selected, [], all, all', round, attempt, keepLast && attempt == max)
    ensures PhaseInv(names, all', log + round, attempt, max, keepLast) && forall t :: t in names ==> t in all'
  {
    RecordedRound(names, all, all', log, round);
    if Distinct(names) {
      RoundExtendsChains(names, selected, all, log, round, attempt, max, keepLast);
    }
  }

  lemma PhaseDone(
    names: seq<string>, all: map<string, seq<TestResult>>, log: seq<Call>, n: nat, max: int, keepLast: bool)
    requires PhaseInv(names, all, log, n, max, keepLast) && StillFailingOf([], names, all) && n <= max
    ensures PhaseInv(names, all, log, max, max, keepLast)
  {
    if Distinct(names) {
      ChainsComplete(names, log, all, n, max, keepLast);
    }
  }

  lemma RemovedOne(running: seq<string>, i: nat)
    requires i < |running|
    ensures var rest := running[..i] + running[i + 1..];
            && (forall t :: t in rest ==> t in running)
            && (forall t :: t in running ==> t in rest || t == running[i])
            && (Distinct(running) ==> Distinct(rest) && running[i] !in rest)
  {
  }

  function NoResults(names: seq<string>): map<string, seq<TestResult>> {
    map t | t in names :: []
  }

  predicate Chains(names: seq<string>, log: seq<Call>, n: int, max: int, keepLast: bool) {
    forall t :: t in names ==> Chain(CallsOf(log, t), Parallel, n, max, keepLast)
  }

  lemma ChainSuccess(calls: seq<Call>)
    ensures AnySuccess(ResultsOf(calls)) <==> SuccessIn(calls)
  {
    SuccessIsRecorded(calls);
  }

  /** When every test has passed, stopping early leaves complete chains. */
  lemma ChainsComplete(
    names: seq<string>, log: seq<Call>, all: map<string, seq<TestResult>>, n: nat, max: int, keepLast: bool)
    requires Collected(names, all, log) && StillFailingOf([], names, all)
    requires n <= max && Chains(names, log, n, max, keepLast)
    ensures Chains(names, log, max, max, keepLast)
  {
    forall t | t in names ensures Chain(CallsOf(log, t), Parallel, max, max, keepLast) {
      assert t !in [];
      ChainSuccess(CallsOf(log, t));
    }
  }

  lemma RecordedRound(
    names: seq<string>, all: map<string, seq<TestResult>>, all': map<string, seq<TestResult>>,
    before: seq<Call>, round: seq<Call>)
    requires Collected(names, all, before) && Recorded(all, all', round)
    ensures Collected(names, all', before + round)
  {
    forall t | t in names
      ensures t in all' && ResultsFor(all', t) == ResultsOf(CallsOf(before + round, t))
    {
      CallsOfConcat(before, round, t);
      ResultsOfConcat(CallsOf(before, t), CallsOf(round, t));
    }
  }

  lemma RoundExtendsChains(
    names: seq<string>, selected: seq<string>, all: map<string, seq<TestResult>>,
    before: seq<Call>, round: seq<Call>, attempt: nat, max: int, keepLast: bool)
    requires 1 <= attempt <= max
    requires Collected(names, all, before) && StillFailingOf(selected, names, all)
    requires RoundCalls(round, selected, attempt, keepLast && attempt == max) && Once(selected, [], round)
    requires Chains(names, before, attempt - 1, max, keepLast)
    ensures Chains(names, before + round, attempt, max, keepLast)
  {
    forall t | t in names ensures Chain(CallsOf(before + round, t), Parallel, attempt, max, keepLast) {
      assert Chain(CallsOf(before, t), Parallel, attempt - 1, max, keepLast);
      CallsOfConcat(before, round, t);
      ChainSuccess(CallsOf(before, t));
      if t in selected {
        SelectedRunsOnce(selected, round, t, attempt, keepLast && attempt == max);
        ChainExtends(CallsOf(before, t), CallsOf(round, t)[0], Parallel, attempt - 1, max, keepLast);
      } else {
        CallsOfOthers(round, t);
        ChainStays(CallsOf(before, t), attempt, max, keepLast);
      }
    }
  }

  lemma SelectedRunsOnce(selected: seq<string>, round: seq<Call>, t: string, attempt: int, skipDelete: bool)
    requires RoundCalls(round, selected, attempt, skipDelete) && Once(selected, [], round) && t in selected
    ensures |CallsOf(round, t)| == 1
    ensures var c := CallsOf(round, t)[0];
            && CallsOf(round, t) == [c]
            && c.attemptType == Parallel && c.attempt == attempt && c.skipDelete == skipDelete
  {
    CallsOfTest(round, t);
    assert CallsOf(round, t)[0] in CallsOf(round, t);
  }

  lemma ChainStays(calls: seq<Call>, attempt: nat, max: int, keepLast: bool)
    requires 1 <= attempt && Chain(calls, Parallel, attempt - 1, max, keepLast) && SuccessIn(calls)
    ensures Chain(calls + [], Parallel, attempt, max, keepLast)
  {
    assert calls + [] == calls;
  }

  // ---------------------------------------------------------------- what the serial phase maintains

  predicate NoneRaised(calls: seq<Call>) {
    forall i :: 0 <= i < |calls| ==> calls[i].outcome.Ran?
  }

  /** A serial worker's exception is not caught: it is the last thing that happens. */
  predicate AbortedBySerial(calls: seq<Call>) {
    calls != [] && calls[|calls| - 1].attemptType == Serial && calls[|calls| - 1].outcome.Raised?
  }

  lemma AbortedInTheEnd(before: seq<Call>, log: seq<Call>)
    requires AbortedBySerial(log)
    ensures AbortedBySerial(before + log)
  {
  }

  /** One test's serial phase after `n` attempts, none of which raised. */
  predicate SerialInv(test: string, log: seq<Call>, rs: seq<TestResult>, n: int, max: int, keep: bool) {
    && rs == ResultsOf(log) && NoneRaised(log) && (forall c :: c in log ==> c.test == test)
    && Chain(log, Serial, n, max, keep)
  }

  ghost predicate SerialGoing(test: string, log: seq<Call>, rs: seq<TestResult>, n: int, max: int, keep: bool) {
    SerialInv(test, log, rs, n, max, keep) && !SuccessIn(log)
  }

  lemma SerialStart(test: string, max: int, keep: bool, attemptsDone: map<string, int>)
    ensures SerialGoing(test, [], [], 0, max, keep) && OthersSame(attemptsDone, attemptsDone, test)
    ensures max <= 0 ==> SerialInv(test, [], [], max, max, keep)
  {
  }

  lemma SerialCall(test: string, log: seq<Call>, rs: seq<TestResult>, n: nat, max: int, keep: bool, call: Call)
    requires SerialGoing(test, log, rs, n, max, keep) && n < max
    requires call.test == test && call.attemptType == Serial
    requires call.attempt == n + 1 && call.skipDelete == (keep && n + 1 == max)
    ensures forall c :: c in log + [call] ==> c.test == test
    ensures call.outcome.Ran? ==>
              if ResultOf(call).success then SerialInv(test, log + [call], rs + [ResultOf(call)], max, max, keep)
              else SerialGoing(test, log + [call], rs + [ResultOf(call)], n + 1, max, keep)
    ensures call.outcome.Raised? ==> AbortedBySerial(log + [call])
  {
    ChainExtends(log, call, Serial, n, max, keep);
    ResultsOfAppend(log, call);
    assert (log + [call])[|log|] == call;
  }

  lemma SerialEnd(test: string, log: seq<Call>, rs: seq<TestResult>, n: int, max: int, keep: bool)
    requires SerialInv(test, log, rs, n, max, keep) || SerialGoing(test, log, rs, n, max, keep)
    ensures forall c :: c in log ==> c.test == test
    ensures SerialInv(test, log, rs, n, max, keep)
  {
  }

  /** The complete serial phase of one test, given what its parallel phase came to. */
  predicate SerialDone(
    parallel: map<string, seq<TestResult>>, all: map<string, seq<TestResult>>, log: seq<Call>, test: string,
    budget: int, keep: bool)
  {
    var calls := CallsOf(log, test);
    && ResultsFor(all, test) == ResultsOf(calls)
    && if AnySuccess(ResultsFor(parallel, test)) then calls == []
       else Chain(calls, Serial, budget, budget, keep) && NoneRaised(calls)
  }

  /** Tests whose serial phase has not begun have left no trace in it. */
  predicate Untouched(all: map<string, seq<TestResult>>, log: seq<Call>, test: string) {
    test !in all && CallsOf(log, test) == []
  }

  lemma SerialStepSelf(
    parallel: map<string, seq<TestResult>>, all: map<string, seq<TestResult>>, log: seq<Call>,
    ran: string, calls: seq<Call>, budget: int, keep: bool)
    requires forall c :: c in calls ==> c.test == ran
    requires Untouched(all, log, ran) && !AnySuccess(ResultsFor(parallel, ran))
    requires Chain(calls, Serial, budget, budget, keep) && NoneRaised(calls)
    ensures SerialDone(parallel, all[ran := ResultsOf(calls)], log + calls, ran, budget, keep)
  {
    CallsOfConcat(log, calls, ran);
    CallsOfSame(calls, ran);
    assert [] + calls == calls;
  }

  lemma SerialStepOther(
    all: map<string, seq<TestResult>>, log: seq<Call>, ran: string, rs: seq<TestResult>, calls: seq<Call>, test: string)
    requires (forall c :: c in calls ==> c.test == ran) && test != ran
    ensures CallsOf(log + calls, test) == CallsOf(log, test)
    ensures test in all[ran := rs] <==> test in all
    ensures ResultsFor(all[ran := rs], test) == ResultsFor(all, test)
  {
    CallsOfConcat(log, calls, test);
    CallsOfOthers(calls, test);
    assert CallsOf(log, test) + [] == CallsOf(log, test);
  }

  /** What a finished run records about one test. */
  function SummaryOf(test: string, results: seq<TestResult>, deleteFailedNamespaces: bool): TestSummary {
    var status := if AnySuccess(results) then Flaky else Failed;
    TestSummary(
      test, results, status, 1 + |results|,
      if status == Failed && !deleteFailedNamespaces then LastNamespace(results) else None)
  }

  /** All attempts of one test in a fresh run. */
  ghost predicate Planned(calls: seq<Call>, parallelBudget: int, serialBudget: int, keep: bool) {
    exists p, q ::
      && calls == p + q
      && Chain(p, Parallel, parallelBudget, parallelBudget, keep && serialBudget <= 0)
      && if SuccessIn(p) then q == [] else Chain(q, Serial, serialBudget, serialBudget, keep) && NoneRaised(q)
  }

  /** One test after both phases. */
  ghost predicate Accounted(
    summaries: map<string, TestSummary>, calls: seq<Call>, test: string,
    parallelBudget: int, serialBudget: int, deleteFailedNamespaces: bool)
  {
    && Planned(CallsOf(calls, test), parallelBudget, serialBudget, !deleteFailedNamespaces)
    && test in summaries
    && summaries[test] == SummaryOf(test, ResultsOf(CallsOf(calls, test)), deleteFailedNamespaces)
  }

  ghost predicate SomeFailed(summaries: map<string, TestSummary>) {
    exists t :: t in summaries && summaries[t].finalStatus == Failed
  }

  /** A finished run over distinct failed tests: every one summarised, every attempt belonging to one of them. */
  ghost predicate Finished(
    summaries: map<string, TestSummary>, calls: seq<Call>, names: seq<string>,
    parallelBudget: int, serialBudget: int, deleteFailedNamespaces: bool)
  {
    && Distinct(names)
    && summaries.Keys == (set t | t in names)
    && (forall c :: c in calls ==> c.test in names)
    && (forall t :: t in names ==>
          Accounted(summaries, calls, t, parallelBudget, serialBudget, deleteFailedNamespaces))
  }

  lemma BothPhases(
    parallel: map<string, seq<TestResult>>, serial: map<string, seq<TestResult>>, first: seq<Call>, second: seq<Call>,
    test: string, parallelBudget: int, serialBudget: int, keep: bool)
    requires ResultsFor(parallel, test) == ResultsOf(CallsOf(first, test))
    requires Chain(CallsOf(first, test), Parallel, parallelBudget, parallelBudget, keep && serialBudget <= 0)
    requires SerialDone(parallel, serial, second, test, serialBudget, keep)
    ensures Planned(CallsOf(first + second, test), parallelBudget, serialBudget, keep)
    ensures ResultsFor(parallel, test) + ResultsFor(serial, test) == ResultsOf(CallsOf(first + second, test))
  {
    var p, q := CallsOf(first, test), CallsOf(second, test);
    CallsOfConcat(first, second, test);
    ResultsOfConcat(p, q);
    ChainSuccess(p);
  }

  // ---------------------------------------------------------------- the runner

  class Runner {
    const attemptsParallel: int
    const attemptsSerial: int
    const deleteFailedNamespaces: bool
    const outcomes: nat -> Outcome
    const finishesNext: nat -> nat

    var calls: seq<Call>
    var namespaces: multiset<string>
    var results: seq<TestResult>
    var testSummaries: map<string, TestSummary>
    var failedTests: seq<string>
    var parallelAttemptsDone: int
    var serialAttemptsDone: map<string, int>

    constructor (attemptsParallel: int, attemptsSerial: int, deleteFailedNamespaces: bool,
                 outcomes: nat -> Outcome, finishesNext: nat -> nat)
      ensures this.attemptsParallel == attemptsParallel && this.attemptsSerial == attemptsSerial
      ensures this.deleteFailedNamespaces == deleteFailedNamespaces
      ensures this.outcomes == outcomes && this.finishesNext == finishesNext
      ensures Fresh() && failedTests == []
    {
      this.attemptsParallel := attemptsParallel;
      this.attemptsSerial := attemptsSerial;
      this.deleteFailedNamespaces := deleteFailedNamespaces;
      this.outcomes := outcomes;
      this.finishesNext := finishesNext;
      calls, namespaces, results, testSummaries := [], multiset{}, [], map[];
      failedTests, parallelAttemptsDone, serialAttemptsDone := [], 0, map[];
    }

    /** Nothing has been retried yet. */
    predicate Fresh()
      reads this
    {
      && calls == [] && namespaces == multiset{} && results == []
      && testSummaries == map[] && parallelAttemptsDone == 0 && serialAttemptsDone == map[]
    }

    /** What is recorded is exactly what the logged attempts produced and left behind. */
    predicate Valid()
      reads this`calls, this`results, this`namespaces
    {
      results == ResultsOf(calls) && namespaces == Surviving(calls)
    }

    /** One attempt, and the clean-up of a kept namespace when it passed. */
    method RunSingleTestSuite(test: string, skipDelete: bool, attempt: int, attemptType: AttemptType)
      returns (result: Option<TestResult>, ghost call: Call)
      modifies this`calls, this`namespaces
      ensures call == Call(test, attempt, attemptType, skipDelete, outcomes(|old(calls)|))
      ensures calls == old(calls) + [call]
      ensures namespaces == old(namespaces) + Left(call)
      ensures result == if call.outcome.Ran? then Some(ResultOf(call)) else None
    {
      var outcome := outcomes(|calls|);
      call := Call(test, attempt, attemptType, skipDelete, outcome);
      calls := calls + [Call(test, attempt, attemptType, skipDelete, outcome)];
      if skipDelete && outcome.created.Some? {
        namespaces := namespaces + multiset{outcome.created.value};
      }
      match outcome
      case Raised(_) =>
        result := None;
      case Ran(success, created, logged, deletable) =>
        var namespace := if logged then created else None;
        if skipDelete && success && namespace.Some? && deletable {
          namespaces := namespaces - multiset{namespace.value};
        }
        result := Some(TestResult(test, attempt, attemptType, success, namespace));
    }

    /** An attempt whose result, if any, is added to the flat list. */
    method RunAndRecord(test: string, skipDelete: bool, attempt: int, attemptType: AttemptType)
      returns (result: Option<TestResult>, ghost call: Call)
      requires Valid()
      modifies this`calls, this`namespaces, this`results
      ensures Valid()
      ensures call == Call(test, attempt, attemptType, skipDelete, outcomes(|old(calls)|))
      ensures calls == old(calls) + [call]
      ensures result == if call.outcome.Ran? then Some(ResultOf(call)) else None
    {
      result, call := RunSingleTestSuite(test, skipDelete, attempt, attemptType);
      if result.Some? {
        results := results + [result.value];
      }
      LogStep(old(calls), call);
    }

    /** The tests of a round: those without a success so far. */
    method TestsToRetry(names: seq<string>, all: map<string, seq<TestResult>>) returns (selected: seq<string>)
      requires forall t :: t in names ==> t in all
      ensures StillFailingOf(selected, names, all)
    {
      selected := [];
      for i := 0 to |names|
        invariant forall t :: t in selected <==> t in names[..i] && !AnySuccess(all[t])
        invariant Distinct(names) ==> Distinct(selected)
      {
        if !AnySuccess(all[names[i]]) {
          assert Distinct(names) ==> names[i] !in names[..i];
          selected := selected + [names[i]];
        }
      }
      assert names[..|names|] == names;
    }

    /** One parallel round: every selected test runs once; the workers finish in any order. */
    method ParallelRound(selected: seq<string>, all: map<string, seq<TestResult>>, attempt: int, skipDelete: bool)
      returns (all': map<string, seq<TestResult>>, ghost log: seq<Call>)
      requires Valid() && forall t :: t in selected ==> t in all
      modifies this`calls, this`namespaces, this`results
      ensures Valid() && calls == old(calls) + log
      ensures RoundInv(selected, [], all, all', log, attempt, skipDelete)
      ensures |log| == |selected| && forall c :: c in log ==> c.attempt == attempt
    {
      all', log := all, [];
      var running := selected;
      while running != []
        invariant Valid() && calls == old(calls) + log
        invariant RoundInv(selected, running, all, all', log, attempt, skipDelete)
        invariant |log| + |running| == |selected| && forall c :: c in log ==> c.attempt == attempt
        decreases |running|
      {
        var i := finishesNext(|calls|) % |running|;
        var test := running[i];
        var result, call := RunAndRecord(test, skipDelete, attempt, Parallel);
        Associative(old(calls), log, [call]);
        RoundStep(selected, running, all, all', log, attempt, skipDelete, i, call);
        log := log + [call];
        if result.Some? {
          all' := all'[test := all'[test] + [result.value]];
        }
        running := running[..i] + running[i + 1..];
      }
    }

    method RetryTestsInParallel(names: seq<string>, maxAttempts: int, serialTestsFollow: bool)
      returns (all: map<string, seq<TestResult>>, ghost log: seq<Call>)
      requires Valid()
      modifies this`calls, this`namespaces, this`results, this`parallelAttemptsDone
      ensures Valid() && calls == old(calls) + log
      ensures PhaseInv(names, all, log, maxAttempts, maxAttempts, !deleteFailedNamespaces && !serialTestsFollow)
      ensures parallelAttemptsDone == if log == [] then old(parallelAttemptsDone) else log[|log| - 1].attempt
    {
      hide *;
      all, log := NoResults(names), [];
      ghost var keepLast := !deleteFailedNamespaces && !serialTestsFollow;
      PhaseStart(names, maxAttempts, keepLast);
      if maxAttempts <= 0 || names == [] {
        return;
      }
      var attempt := 1;
      while attempt <= maxAttempts
        invariant 1 <= attempt <= maxAttempts + 1
        invariant Valid()
        invariant calls == old(calls) + log
        invariant forall t :: t in names ==> t in all
        invariant PhaseInv(names, all, log, attempt - 1, maxAttempts, keepLast)
        invariant parallelAttemptsDone == if log == [] then old(parallelAttemptsDone) else log[|log| - 1].attempt
      {
        var selected := TestsToRetry(names, all);
        if selected == [] {
          PhaseDone(names, all, log, attempt - 1, maxAttempts, keepLast);
          break;
        }
        var skipDelete := !deleteFailedNamespaces && !serialTestsFollow && attempt == maxAttempts;
        var all', round := ParallelRound(selected, all, attempt, skipDelete);
        Associative(old(calls), log, round);
        PhaseStep(names, selected, all, all', log, round, attempt, maxAttempts, keepLast);
        assert round[|round| - 1] in round && (log + round)[|log + round| - 1] == round[|round| - 1];
        all, log := all', log + round;
        parallelAttemptsDone := attempt;
        attempt := attempt + 1;
      }
    }

    method RetryTestSerially(test: string, maxAttempts: int)
      returns (rs: seq<TestResult>, raised: bool, ghost log: seq<Call>)
      requires Valid()
      modifies this`calls, this`namespaces, this`results, this`serialAttemptsDone
      ensures Valid() && calls == old(calls) + log && forall c :: c in log ==> c.test == test
      ensures OthersSame(old(serialAttemptsDone), serialAttemptsDone, test)
      ensures rs != [] ==> test in serialAttemptsDone && serialAttemptsDone[test] == |rs|
      ensures !raised ==> SerialInv(test, log, rs, maxAttempts, maxAttempts, !deleteFailedNamespaces)
      ensures raised ==> AbortedBySerial(log)
    {
      hide *;
      rs, raised, log := [], false, [];
      ghost var keep := !deleteFailedNamespaces;
      SerialStart(test, maxAttempts, keep, serialAttemptsDone);
      if maxAttempts <= 0 {
        return;
      }
      var attempt := 1;
      while attempt <= maxAttempts
        invariant 1 <= attempt <= maxAttempts + 1
        invariant Valid()
        invariant calls == old(calls) + log
        invariant OthersSame(old(serialAttemptsDone), serialAttemptsDone, test)
        invariant |rs| == attempt - 1 && (rs != [] ==> test in serialAttemptsDone && serialAttemptsDone[test] == |rs|)
        invariant SerialGoing(test, log, rs, attempt - 1, maxAttempts, keep)
      {
        var skipDelete := !deleteFailedNamespaces && attempt == maxAttempts;
        var result, call := RunAndRecord(test, skipDelete, attempt, Serial);
        Associative(old(calls), log, [call]);
        SerialCall(test, log, rs, attempt - 1, maxAttempts, keep, call);
        log := log + [call];
        if result.None? {
          raised := true;
          return;
        }
        rs := rs + [result.value];
        OthersStillSame(old(serialAttemptsDone), serialAttemptsDone, test, attempt);
        serialAttemptsDone := serialAttemptsDone[test := attempt];
        if result.value.success {
          SerialEnd(test, log, rs, maxAttempts, maxAttempts, keep);
          return;
        }
        attempt := attempt + 1;
      }
      SerialEnd(test, log, rs, maxAttempts, maxAttempts, keep);
    }

    /** Tests not yet passed or flaky by their summary; all of them, in a fresh run. */
    predicate StillFailing(test: string)
      reads this
    {
      test in testSummaries ==> testSummaries[test].finalStatus == Failed
    }

    method ExecuteParallelRetries() returns (all: map<string, seq<TestResult>>, ghost log: seq<Call>)
      requires Valid() && testSummaries == map[] && parallelAttemptsDone == 0
      modifies this`calls, this`namespaces, this`results, this`parallelAttemptsDone
      ensures Valid() && calls == old(calls) + log
      ensures ParallelDone(failedTests, all, log, attemptsParallel, !deleteFailedNamespaces && attemptsSerial <= 0)
    {
      hide ResultsOf, CallsOf, Surviving, Collected, PhaseInv, ParallelDone;
      all, log := map[], [];
      ghost var keepLast := !deleteFailedNamespaces && attemptsSerial <= 0;
      if attemptsParallel > 0 && parallelAttemptsDone < attemptsParallel {
        var needing: seq<string> := [];
        for i := 0 to |failedTests|
          invariant needing == failedTests[..i]
        {
          if StillFailing(failedTests[i]) {
            needing := needing + [failedTests[i]];
          }
        }
        assert failedTests[..|failedTests|] == failedTests;
        if needing != [] {
          var remaining := attemptsParallel - parallelAttemptsDone;
          var serialTestsWillFollow := attemptsSerial > 0;
          all, log := RetryTestsInParallel(needing, remaining, serialTestsWillFollow);
          PhaseResults(failedTests, all, log, attemptsParallel, keepLast);
        } else {
          NoParallelPhase(failedTests, attemptsParallel, keepLast);
        }
      } else {
        NoParallelPhase(failedTests, attemptsParallel, keepLast);
      }
    }

    method TestsStillFailing(parallel: map<string, seq<TestResult>>) returns (failing: seq<string>)
      requires testSummaries == map[]
      ensures StillFailingOf(failing, failedTests, parallel)
    {
      failing := [];
      for i := 0 to |failedTests|
        invariant forall t :: t in failing <==> t in failedTests[..i] && !AnySuccess(ResultsFor(parallel, t))
        invariant Distinct(failedTests) ==> Distinct(failing)
      {
        var test := failedTests[i];
        if StillFailing(test) && !AnySuccess(ResultsFor(parallel, test)) {
          assert Distinct(failedTests) ==> test !in failedTests[..i];
          failing := failing + [test];
        }
      }
      assert failedTests[..|failedTests|] == failedTests;
    }

    method ExecuteSerialRetries(parallel: map<string, seq<TestResult>>)
      returns (all: map<string, seq<TestResult>>, raised: bool, ghost log: seq<Call>)
      requires Valid() && testSummaries == map[] && serialAttemptsDone == map[]
      modifies this`calls, this`namespaces, this`results, this`serialAttemptsDone
      ensures Valid() && calls == old(calls) + log && forall c :: c in log ==> c.test in failedTests
      ensures !raised && Distinct(failedTests) ==>
                AllSerialDone(failedTests, parallel, all, log, attemptsSerial, !deleteFailedNamespaces)
      ensures raised ==> AbortedBySerial(log)
    {
      hide *;
      all, raised, log := map[], false, [];
      var failing := TestsStillFailing(parallel);
      if attemptsSerial > 0 && failing != [] {
        ghost var keep := !deleteFailedNamespaces;
        SerialPhaseStart(parallel, failedTests, failing, serialAttemptsDone, attemptsSerial, keep);
        for i := 0 to |failing|
          invariant Valid() && calls == old(calls) + log
          invariant !raised
          invariant SerialPhaseInv(
                      parallel, all, log, failedTests, failing, i, serialAttemptsDone, attemptsSerial, keep)
        {
          var test := failing[i];
          var remainingAttempts := attemptsSerial - AttemptsDone(serialAttemptsDone, test);
          if remainingAttempts > 0 {
            ghost var doneBefore := serialAttemptsDone;
            var rs: seq<TestResult>;
            ghost var serialLog: seq<Call>;
            rs, raised, serialLog := RetryTestSerially(test, remainingAttempts);
            Associative(old(calls), log, serialLog);
            if raised {
              SerialPhaseAborts(
                parallel, all, log, failedTests, failing, i, doneBefore, attemptsSerial, keep, serialLog);
              log := log + serialLog;
              return;
            }
            SerialPhaseStep(
              parallel, all, log, failedTests, failing, i, doneBefore, attemptsSerial, keep,
              serialLog, rs, serialAttemptsDone);
            log := log + serialLog;
            all := all[test := rs];
          } else {
            SerialPhaseSkip(parallel, all, log, failedTests, failing, i, serialAttemptsDone, attemptsSerial, keep);
          }
        }
      }
      SerialPhaseDone(
        failedTests, parallel, all, log, failing, serialAttemptsDone, attemptsSerial, !deleteFailedNamespaces);
    }

    method CreateTestSummary(test: string, initialSuccess: bool, retryResults: seq<TestResult>)
      modifies this`testSummaries
      ensures testSummaries == old(testSummaries)[test :=
                if initialSuccess then TestSummary(test, retryResults, Passed, 1 + |retryResults|, None)
                else SummaryOf(test, retryResults, deleteFailedNamespaces)]
    {
      var finalStatus := if initialSuccess then Passed else if AnySuccess(retryResults) then Flaky else Failed;
      var finalNamespace: Option<string> := None;
      if finalStatus == Failed && !deleteFailedNamespaces {
        var i := |retryResults|;
        assert retryResults[..i] == retryResults;
        while i > 0
          invariant 0 <= i <= |retryResults| && finalNamespace.None?
          invariant LastNamespace(retryResults) == LastNamespace(retryResults[..i])
        {
          i := i - 1;
          assert retryResults[..i + 1][..i] == retryResults[..i];
          if retryResults[i].namespace.Some? {
            finalNamespace := retryResults[i].namespace;
            break;
          }
        }
      }
      testSummaries := testSummaries[test :=
        TestSummary(test, retryResults, finalStatus, 1 + |retryResults|, finalNamespace)];
    }

    method ProcessAllTestResults(parallel: map<string, seq<TestResult>>, serial: map<string, seq<TestResult>>)
      requires testSummaries == map[]
      modifies this`testSummaries
      ensures testSummaries.Keys == set t | t in failedTests
      ensures forall t :: t in testSummaries ==>
                testSummaries[t]
                == SummaryOf(t, ResultsFor(parallel, t) + ResultsFor(serial, t), deleteFailedNamespaces)
    {
      for i := 0 to |failedTests|
        invariant testSummaries.Keys == set t | t in failedTests[..i]
        invariant forall t :: t in testSummaries ==>
                    testSummaries[t]
                    == SummaryOf(t, ResultsFor(parallel, t) + ResultsFor(serial, t), deleteFailedNamespaces)
      {
        var test := failedTests[i];
        if test !in testSummaries {
          CreateTestSummary(test, false, ResultsFor(parallel, test) + ResultsFor(serial, test));
        }
      }
      assert failedTests[..|failedTests|] == failedTests;
    }

    /** A fresh run's retries; a worker that raises in the serial phase aborts the run. */
    method ExecuteTestRetries() returns (raised: bool)
      requires Fresh()
      modifies this`calls, this`namespaces, this`results, this`parallelAttemptsDone
      modifies this`serialAttemptsDone, this`testSummaries
      ensures Valid() && forall c :: c in calls ==> c.test in failedTests
      ensures if raised then AbortedBySerial(calls) else testSummaries.Keys == set t | t in failedTests
      ensures !raised && Distinct(failedTests) ==>
                forall t :: t in failedTests ==>
                  Accounted(testSummaries, calls, t, attemptsParallel, attemptsSerial, deleteFailedNamespaces)
    {
      var parallel, first := ExecuteParallelRetries();
      assert calls == first;
      var serial, serialRaised, second := ExecuteSerialRetries(parallel);
      if serialRaised {
        AbortedInTheEnd(first, second);
        return true;
      }
      ProcessAllTestResults(parallel, serial);
      if Distinct(failedTests) {
        forall t | t in failedTests
          ensures Accounted(testSummaries, calls, t, attemptsParallel, attemptsSerial, deleteFailedNamespaces)
        {
          BothPhases(parallel, serial, first, second, t, attemptsParallel, attemptsSerial, !deleteFailedNamespaces);
        }
      }
      raised := false;
    }

    method FinalizeAndReport() returns (exitCode: int)
      ensures exitCode == if SomeFailed(testSummaries) then 1 else 0
    {
      var failed := set t | t in testSummaries && testSummaries[t].finalStatus == Failed;
      if t :| t in testSummaries && testSummaries[t].finalStatus == Failed {
        assert t in failed;
      }
      exitCode := if failed == {} then 0 else 1;
    }

    /** A fresh run, given what the initial full suite came to; no exit code when a serial worker raised. */
    method Run(initialSuccess: bool, parsedFailures: seq<string>) returns (exitCode: Option<int>)
      requires Fresh()
      modifies this
      ensures initialSuccess || parsedFailures == [] ==> exitCode == Some(0) && calls == []
      ensures Valid() && (exitCode.None? ==> AbortedBySerial(calls))
      ensures exitCode.Some? && !initialSuccess && Distinct(parsedFailures) ==>
                Finished(testSummaries, calls, parsedFailures, attemptsParallel, attemptsSerial, deleteFailedNamespaces)
      ensures exitCode.Some? && !initialSuccess ==>
                && testSummaries.Keys == (set t | t in parsedFailures)
                && exitCode.value == if SomeFailed(testSummaries) then 1 else 0
    {
      if initialSuccess || parsedFailures == [] {
        return Some(0);
      }
      failedTests := parsedFailures;
      var raised := ExecuteTestRetries();
      if raised {
        return None;
      }
      var code := FinalizeAndReport();
      exitCode := Some(code);
    }
  }

  /** What the parallel phase leaves for the serial one. */
  ghost predicate ParallelDone(
    names: seq<string>, all: map<string, seq<TestResult>>, log: seq<Call>, max: int, keepLast: bool)
  {
    && (forall c :: c in log ==> c.test in names)
    && (forall t :: t in names ==> ResultsFor(all, t) == ResultsOf(CallsOf(log, t)))
    && (Distinct(names) ==> Chains(names, log, max, max, keepLast))
  }

  lemma PhaseResults(names: seq<string>, all: map<string, seq<TestResult>>, log: seq<Call>, max: int, keepLast: bool)
    requires PhaseInv(names, all, log, max, max, keepLast)
    ensures ParallelDone(names, all, log, max, keepLast)
  {
    hide ResultsOf, CallsOf, Chains, Distinct;
  }

  lemma NoParallelPhase(names: seq<string>, max: int, keepLast: bool)
    requires max <= 0 || names == []
    ensures ParallelDone(names, map[], [], max, keepLast)
  {
  }

  ghost predicate AllSerialDone(
    names: seq<string>, parallel: map<string, seq<TestResult>>, all: map<string, seq<TestResult>>, log: seq<Call>,
    budget: int, keep: bool)
  {
    forall t :: t in names ==> SerialDone(parallel, all, log, t, budget, keep)
  }

  ghost predicate SerialProgress(
    parallel: map<string, seq<TestResult>>, all: map<string, seq<TestResult>>, log: seq<Call>,
    failing: seq<string>, n: nat, budget: int, keep: bool)
    requires n <= |failing|
  {
    && (forall i :: 0 <= i < n ==> SerialDone(parallel, all, log, failing[i], budget, keep))
    && (forall t :: t !in failing[..n] ==> Untouched(all, log, t))
    && (forall i :: 0 <= i < |failing| ==> !AnySuccess(ResultsFor(parallel, failing[i])))
  }

  predicate NotBegun(attemptsDone: map<string, int>, tests: seq<string>) {
    forall t :: t in tests ==> AttemptsDone(attemptsDone, t) == 0
  }

  lemma NotBegunStep(before: map<string, int>, after: map<string, int>, failing: seq<string>, n: nat)
    requires n < |failing| && Distinct(failing) && NotBegun(before, failing[n..])
    requires OthersSame(before, after, failing[n])
    ensures NotBegun(after, failing[n + 1..])
  {
    forall t | t in failing[n + 1..] ensures AttemptsDone(after, t) == 0 {
      assert t in failing[n..];
    }
  }

  lemma SerialProgressStep(
    parallel: map<string, seq<TestResult>>, all: map<string, seq<TestResult>>, log: seq<Call>,
    failing: seq<string>, n: nat, calls: seq<Call>, budget: int, keep: bool)
    requires n < |failing| && Distinct(failing) && SerialProgress(parallel, all, log, failing, n, budget, keep)
    requires forall c :: c in calls ==> c.test == failing[n]
    requires Chain(calls, Serial, budget, budget, keep) && NoneRaised(calls)
    ensures SerialProgress(parallel, all[failing[n] := ResultsOf(calls)], log + calls, failing, n + 1, budget, keep)
  {
    var ran, rs := failing[n], ResultsOf(calls);
    var all', log' := all[ran := rs], log + calls;
    assert ran !in failing[..n] && failing[..n + 1] == failing[..n] + [ran];
    SerialStepSelf(parallel, all, log, ran, calls, budget, keep);
    forall i | 0 <= i < n
      ensures SerialDone(parallel, all', log', failing[i], budget, keep)
    {
      SerialStepOther(all, log, ran, rs, calls, failing[i]);
    }
    forall t ensures t !in failing[..n + 1] ==> Untouched(all', log', t) {
      if t !in failing[..n + 1] {
        SerialStepOther(all, log, ran, rs, calls, t);
      }
    }
  }

  /** Counting one test's attempts leaves the other counters alone. */
  ghost predicate OthersSame(before: map<string, int>, after: map<string, int>, test: string) {
    forall t :: t != test ==> AttemptsDone(after, t) == AttemptsDone(before, t)
  }

  lemma OthersStillSame(before: map<string, int>, after: map<string, int>, test: string, n: int)
    requires OthersSame(before, after, test)
    ensures OthersSame(before, after[test := n], test)
  {
    forall t | t != test ensures AttemptsDone(after[test := n], t) == AttemptsDone(before, t) {
      assert AttemptsDone(after, t) == AttemptsDone(before, t);
    }
  }

  function AttemptsDone(attemptsDone: map<string, int>, test: string): int {
    if test in attemptsDone then attemptsDone[test] else 0
  }

  /** The serial phase after the first `n` of the failing tests. */
  ghost predicate SerialPhaseInv(
    parallel: map<string, seq<TestResult>>, all: map<string, seq<TestResult>>, log: seq<Call>, names: seq<string>,
    failing: seq<string>, n: nat, attemptsDone: map<string, int>, budget: int, keep: bool)
    requires n <= |failing|
  {
    && (forall t :: t in failing ==> t in names)
    && (forall c :: c in log ==> c.test in names)
    && (Distinct(failing) ==>
          SerialProgress(parallel, all, log, failing, n, budget, keep) && NotBegun(attemptsDone, failing[n..]))
  }

  lemma SerialPhaseStart(
    parallel: map<string, seq<TestResult>>, names: seq<string>, failing: seq<string>,
    attemptsDone: map<string, int>, budget: int, keep: bool)
    requires StillFailingOf(failing, names, parallel)
    requires attemptsDone == map[]
    ensures SerialPhaseInv(parallel, map[], [], names, failing, 0, attemptsDone, budget, keep)
  {
  }

  lemma SerialPhaseStep(
    parallel: map<string, seq<TestResult>>, all: map<string, seq<TestResult>>, log: seq<Call>, names: seq<string>,
    failing: seq<string>, n: nat, attemptsDone: map<string, int>, budget: int, keep: bool,
    calls: seq<Call>, rs: seq<TestResult>, attemptsDone': map<string, int>)
    requires n < |failing|
    requires SerialPhaseInv(parallel, all, log, names, failing, n, attemptsDone, budget, keep)
    requires var remaining := budget - AttemptsDone(attemptsDone, failing[n]);
             SerialInv(failing[n], calls, rs, remaining, remaining, keep)
    requires OthersSame(attemptsDone, attemptsDone', failing[n])
    ensures SerialPhaseInv(
              parallel, all[failing[n] := rs], log + calls, names, failing, n + 1, attemptsDone', budget, keep)
  {
    if Distinct(failing) {
      assert failing[n] in failing[n..];
      SerialProgressStep(parallel, all, log, failing, n, calls, budget, keep);
      NotBegunStep(attemptsDone, attemptsDone', failing, n);
    }
  }

  lemma SerialPhaseAborts(
    parallel: map<string, seq<TestResult>>, all: map<string, seq<TestResult>>, log: seq<Call>, names: seq<string>,
    failing: seq<string>, n: nat, attemptsDone: map<string, int>, budget: int, keep: bool, calls: seq<Call>)
    requires n < |failing| && SerialPhaseInv(parallel, all, log, names, failing, n, attemptsDone, budget, keep)
    requires AbortedBySerial(calls) && forall c :: c in calls ==> c.test == failing[n]
    ensures AbortedBySerial(log + calls) && forall c :: c in log + calls ==> c.test in names
  {
  }

  lemma SerialPhaseSkip(
    parallel: map<string, seq<TestResult>>, all: map<string, seq<TestResult>>, log: seq<Call>, names: seq<string>,
    failing: seq<string>, n: nat, attemptsDone: map<string, int>, budget: int, keep: bool)
    requires n < |failing| && 0 < budget <= AttemptsDone(attemptsDone, failing[n])
    requires SerialPhaseInv(parallel, all, log, names, failing, n, attemptsDone, budget, keep)
    ensures SerialPhaseInv(parallel, all, log, names, failing, n + 1, attemptsDone, budget, keep)
  {
    assert failing[n] in failing[n..];
  }

  lemma SerialPhaseDone(
    names: seq<string>, parallel: map<string, seq<TestResult>>, all: map<string, seq<TestResult>>, log: seq<Call>,
    failing: seq<string>, attemptsDone: map<string, int>, budget: int, keep: bool)
    requires StillFailingOf(failing, names, parallel)
    requires if budget > 0 && failing != []
             then SerialPhaseInv(parallel, all, log, names, failing, |failing|, attemptsDone, budget, keep)
             else all == map[] && log == []
    ensures forall c :: c in log ==> c.test in names
    ensures Distinct(names) ==> AllSerialDone(names, parallel, all, log, budget, keep)
  {
    forall t | Distinct(names) && t in names ensures SerialDone(parallel, all, log, t, budget, keep) {
      if budget > 0 && failing != [] {
        assert failing[..|failing|] == failing;
        if t in failing {
          var i :| 0 <= i < |failing| && failing[i] == t;
          assert SerialDone(parallel, all, log, failing[i], budget, keep);
        } else {
          assert Untouched(all, log, t);
        }
      }
    }
  }
}
