/**
 The restarter comes to rest even if patches are refused early, before the news of a deletion or replacement arrives
 (rust/operator-binary/src/restart_controller/statefulset.rs): all it takes is that news on its way is eventually
 delivered.
 */
module RestartFairness {
  import opened Wrappers
  import opened Kubernetes
  import opened ServerSideApply
  import opened RestartController
  import opened RestartConvergence
  import opened RestartTermination

  function Behind(s: State): set<ObjectRef> {
    StaleEntries(InputView(s.stses), s.stsStore)
  }

  /** After the next `n` events the store has caught up, and the events behind them are up to date. */
  predicate Lag(s: State, n: nat) {
    && n <= |s.stsEvents|
    && StaleEvents(InputView(s.stses), s.stsEvents[n..]) == 0
    && StaleEntries(InputView(s.stses), Replay(s.stsStore, s.stsEvents[..n])) == {}
  }

  lemma LagAtMost(s: State)
    requires Mirrored(s)
    ensures Lag(s, |s.stsEvents|)
  {
    assert s.stsEvents[..|s.stsEvents|] == s.stsEvents;
  }

  lemma DeliveryLowersLag(s: State, n: nat)
    requires Lag(s, n) && s.stsEvents != []
    ensures Lag(DoDeliverStatefulSet(s), if n > 0 then n - 1 else 0)
  {
    var e, inputs := s.stsEvents[0], InputView(s.stses);
    if n > 0 {
      assert s.stsEvents[..n][1..] == s.stsEvents[1..][..n - 1] && s.stsEvents[n..] == s.stsEvents[1..][n - 1..];
    } else {
      assert s.stsEvents[..0] == [] && s.stsEvents[1..][..0] == [] && s.stsEvents[0..] == s.stsEvents;
      assert s.stsEvents[1..][0..] == s.stsEvents[1..];
      assert StaleEntries(inputs, s.stsStore) == {};
      assert StaleEntries(inputs, s.stsStore[e.key := e.value]) == {};
    }
  }

  lemma SentPatch(s: State, ref: ObjectRef)
    requires Answered(s, SendPatch(ref, true))
    ensures var s' := DoSendPatch(s, ref, true);
            && s'.stsStore == s.stsStore
            && (!PatchLands(s, ref) ==> s'.stses == s.stses && s'.stsEvents == s.stsEvents)
            && (PatchLands(s, ref) ==>
                  var o := Apply(s.stses[ref], s.inFlight[ref].annotations);
                  && s'.stses == s.stses[ref := o]
                  && s'.stsEvents == s.stsEvents + if o != s.stses[ref] && Enabled(o) then [Applied(ref, o)] else [])
  {
    hide Apply;
  }

  lemma PatchKeepsLag(s: State, ref: ObjectRef, n: nat)
    requires Lag(s, n) && Answered(s, SendPatch(ref, true))
    ensures Lag(DoSendPatch(s, ref, true), n)
  {
    SentPatch(s, ref);
    hide Replay, Apply, StaleEntries, DoSendPatch, StaleEvents;
    if PatchLands(s, ref) {
      var annotations := s.inFlight[ref].annotations;
      var o := Apply(s.stses[ref], annotations);
      PatchKeepsInputs(s, ref, o, annotations);
      AppliedAnnotations(s.stses[ref], annotations);
      UpToDateAppend(InputView(s.stses), s.stsEvents, n, ref, o);
      assert s.stsEvents + [] == s.stsEvents;
    }
  }

  lemma UpToDateAppend(
    inputs: map<ObjectRef, Inputs>, events: seq<Event<ManagedSts>>, n: nat, ref: ObjectRef, o: ManagedSts)
    requires n <= |events|
    ensures (events + [Applied(ref, o)])[..n] == events[..n]
    ensures UpToDate(inputs, ref, o) ==>
              StaleEvents(inputs, (events + [Applied(ref, o)])[n..]) == StaleEvents(inputs, events[n..])
  {
    StaleEventsAppend(inputs, events[n..], Applied(ref, o));
    assert (events + [Applied(ref, o)])[n..] == events[n..] + [Applied(ref, o)];
  }

  lemma StepKeepsLag(s: State, step: Step, n: nat)
    requires Lag(s, n) && Answered(s, step)
    ensures Lag(Do(s, step), if step.DeliverStatefulSet? && n > 0 then n - 1 else n)
  {
    match step
    case DeliverStatefulSet => DeliveryLowersLag(s, n);
    case SendPatch(ref, _) => PatchKeepsLag(s, ref, n);
    case _ =>
  }

  /** Once the store has caught up, every answered step makes progress. */
  lemma CaughtUpIsSmooth(s: State, step: Step)
    requires Lag(s, 0) && Answered(s, step)
    ensures Smooth(s, step)
  {
    assert s.stsEvents[..0] == [];
  }

  // ---------------------------------------------------------------- fair runs

  ghost predicate Continues(s: State, s': State) {
    if Quiescent(s) then s' == s else exists step :: Answered(s, step) && s' == Do(s, step)
  }

  /** From `i` on, the controller goes on with answered steps until it is quiet. */
  ghost predicate Continuing(run: nat -> State, i: nat) {
    forall j: nat :: j >= i ==> Continues(run(j), run(j + 1))
  }

  predicate Delivers(s: State, s': State) {
    s.stsEvents != [] && s' == DoDeliverStatefulSet(s)
  }

  /** Whenever StatefulSet news is on its way, some is delivered at some later point. */
  ghost predicate Fair(run: nat -> State, i: nat) {
    forall j: nat :: j >= i && run(j).stsEvents != [] ==> exists k: nat :: k >= j && Delivers(run(k), run(k + 1))
  }

  ghost predicate Good(s: State, n: nat) {
    Inv(s) && Ready(s) && Lag(s, n)
  }

  lemma ContinueKeepsGood(s: State, s': State, n: nat)
    requires Good(s, n) && Continues(s, s')
    ensures Good(s', n) || (n > 0 && Good(s', n - 1))
    ensures n > 0 && Delivers(s, s') ==> Good(s', n - 1)
  {
    if !Quiescent(s) {
      hide Inv, Lag, Do, Ready;
      var step :| Answered(s, step) && s' == Do(s, step);
      StepKeepsInv(s, step);
      StepKeepsLag(s, step, n);
      AnsweredKeepsReady(s, step);
      if n > 0 && Delivers(s, s') {
        DeliveryLowersLag(s, n);
      }
    }
  }

  lemma AnsweredKeepsReady(s: State, step: Step)
    requires Ready(s) && Answered(s, step)
    ensures Ready(Do(s, step))
  {
  }

  lemma NextDelivery(run: nat -> State, i: nat, n: nat) returns (k: nat)
    requires Good(run(i), n) && n > 0 && Fair(run, i)
    ensures k >= i && Delivers(run(k), run(k + 1))
  {
    assert run(i).stsEvents != [];
    k :| k >= i && Delivers(run(k), run(k + 1));
  }

  lemma OneFurther(run: nat -> State, i: nat)
    requires Fair(run, i) && Continuing(run, i)
    ensures Continues(run(i), run(i + 1)) && Fair(run, i + 1) && Continuing(run, i + 1)
  {
    hide Continues, Delivers;
  }

  lemma {:induction false} CatchesUp(run: nat -> State, i: nat, n: nat, k: nat) returns (m: nat)
    requires Good(run(i), n) && Fair(run, i) && Continuing(run, i)
    requires n > 0 ==> k >= i && Delivers(run(k), run(k + 1))
    ensures m >= i && Good(run(m), 0)
    decreases n, k - i
  {
    hide *;
    if n == 0 {
      m := i;
    } else {
      OneFurther(run, i);
      ContinueKeepsGood(run(i), run(i + 1), n);
      if Good(run(i + 1), n - 1) {
        var next := k;
        if n > 1 {
          next := NextDelivery(run, i + 1, n - 1);
        }
        m := CatchesUp(run, i + 1, n - 1, next);
      } else {
        m := CatchesUp(run, i + 1, n, k);
      }
    }
  }

  lemma CaughtUpAdvances(s: State, s': State)
    requires Good(s, 0) && Continues(s, s')
    ensures Advances(s, s')
  {
    hide Inv, Ready, Lag, Quiescent, Do;
    if !Quiescent(s) {
      var step :| Answered(s, step) && s' == Do(s, step);
      CaughtUpIsSmooth(s, step);
    }
  }

  lemma {:induction false} StaysCaughtUp(run: nat -> State, m: nat, j: nat)
    requires Good(run(m), 0) && m <= j && Continuing(run, m)
    ensures Good(run(j), 0) && Advances(run(j), run(j + 1))
    decreases j
  {
    hide *;
    if m < j {
      StaysCaughtUp(run, m, j - 1);
      ContinuesAt(run, m, j - 1);
      ContinueKeepsGood(run(j - 1), run(j), 0);
    }
    ContinuesAt(run, m, j);
    CaughtUpAdvances(run(j), run(j + 1));
  }

  lemma ContinuesAt(run: nat -> State, i: nat, j: nat)
    requires Continuing(run, i) && j >= i
    ensures Continues(run(j), run(j + 1))
  {
    hide Continues;
  }

  /**
   Whatever the scheduler chooses, and however often patches are refused, a run of answered steps in which news on its
   way is eventually delivered reaches a quiet state, in which every enabled StatefulSet has converged.
   */
  lemma EveryFairRunSettles(run: nat -> State, i: nat) returns (n: nat)
    requires Inv(run(i)) && Ready(run(i)) && Continuing(run, i) && Fair(run, i)
    ensures n >= i && Quiescent(run(n)) && forall ref :: Converged(run(n), ref)
  {
    hide *;
    var lag := |run(i).stsEvents|;
    GoodAtMost(run(i));
    var k := i;
    if lag > 0 {
      k := NextDelivery(run, i, lag);
    }
    var m := CatchesUp(run, i, lag, k);
    ContinuingLater(run, i, m);
    GoodParts(run(m));
    forall j: nat | j >= m ensures Advances(run(j), run(j + 1)) {
      StaysCaughtUp(run, m, j);
    }
    n := EveryRunSettles(run, m);
  }

  lemma GoodAtMost(s: State)
    requires Inv(s) && Ready(s)
    ensures Good(s, |s.stsEvents|)
  {
    LagAtMost(s);
    hide Lag;
  }

  lemma GoodParts(s: State)
    requires Good(s, 0)
    ensures Inv(s) && Ready(s)
  {
  }

  lemma ContinuingLater(run: nat -> State, i: nat, m: nat)
    requires Continuing(run, i) && m >= i
    ensures Continuing(run, m)
  {
    hide Continues;
  }
}
