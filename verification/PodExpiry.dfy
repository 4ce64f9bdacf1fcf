/**
 The Pod restarter: Pods carrying expiry annotations are evicted once the earliest of them has passed
 (rust/operator-binary/src/restart_controller/pod.rs).

 Instants and durations are whole nanoseconds. Parsing an RFC 3339 timestamp is a function from text to an instant,
 if the text is one. `sampled` is the time a reconcile compares the expiry with.
 */
module PodExpiry {
  import opened Wrappers

  type Instant = int

  type Parser = string -> Option<Instant>

  const EXPIRES_AT_PREFIX: string := "restarter.stackable.tech/expires-at."
  const ERROR_REQUEUE: nat := 5_000_000_000

  /** Annotations in the order of their keys. */
  datatype Pod = Pod(
    name: Option<string>, namespace: Option<string>, deleting: bool, annotations: Option<seq<(string, string)>>)

  datatype Error =
    | PodHasNoName
    | PodHasNoNamespace
    | UnparsableExpiryTimestamp(annotation: string, value: string)
    | EvictPod

  datatype Action = AwaitChange | Requeue(after: nat)

  /** What a reconcile comes to, and whether it asked for an eviction. */
  datatype Outcome = Outcome(result: Result<Action, Error>, requested: bool)

  // ---------------------------------------------------------------- choosing the expiry

  function ExpiryAnnotations(annotations: seq<(string, string)>): seq<(string, string)> {
    if annotations == [] then []
    else
      (if EXPIRES_AT_PREFIX <= annotations[0].0 then [annotations[0]] else []) + ExpiryAnnotations(annotations[1..])
  }

  function Expiry(annotation: (string, string), parse: Parser): Result<Instant, Error> {
    match parse(annotation.1)
    case Some(instant) => Ok(instant)
    case None => Err(UnparsableExpiryTimestamp(annotation.0, annotation.1))
  }

  function Expiries(annotations: seq<(string, string)>, parse: Parser): seq<Result<Instant, Error>> {
    seq(|annotations|, i requires 0 <= i < |annotations| => Expiry(annotations[i], parse))
  }

  /** Errors come before instants, and all errors are alike. */
  predicate KeyBelow(a: Result<Instant, Error>, b: Result<Instant, Error>) {
    match (a, b)
    case (Err(_), Ok(_)) => true
    case (Ok(x), Ok(y)) => x < y
    case _ => false
  }

  /** The first of the least elements. */
  function MinByKey(expiries: seq<Result<Instant, Error>>): Option<Result<Instant, Error>> {
    if expiries == [] then None
    else
      var n := |expiries| - 1;
      match MinByKey(expiries[..n])
      case None => Some(expiries[n])
      case Some(least) => Some(if KeyBelow(expiries[n], least) then expiries[n] else least)
  }

  function PodExpiresAt(pod: Pod, parse: Parser): Result<Option<Instant>, Error> {
    match MinByKey(Expiries(ExpiryAnnotations(pod.annotations.GetOr([])), parse))
    case None => Ok(None)
    case Some(Ok(instant)) => Ok(Some(instant))
    case Some(Err(error)) => Err(error)
  }

  function Reconcile(pod: Pod, sampled: Instant, parse: Parser, evictionAccepted: bool): Outcome {
    if pod.deleting then Outcome(Ok(AwaitChange), false)
    else
      match PodExpiresAt(pod, parse)
      case Err(error) => Outcome(Err(error), false)
      case Ok(None) => Outcome(Ok(AwaitChange), false)
      case Ok(Some(expiresAt)) =>
        if expiresAt - sampled >= 0 then Outcome(Ok(Requeue(expiresAt - sampled)), false)
        else if pod.namespace.None? then Outcome(Err(PodHasNoNamespace), false)
        else if pod.name.None? then Outcome(Err(PodHasNoName), false)
        else Outcome(if evictionAccepted then Ok(AwaitChange) else Err(EvictPod), true)
  }

  predicate FirstUnparsable(annotations: seq<(string, string)>, parse: Parser, i: int) {
    && 0 <= i < |annotations| && parse(annotations[i].1).None?
    && forall j :: 0 <= j < i ==> parse(annotations[j].1).Some?
  }

  ghost predicate Earliest(annotations: seq<(string, string)>, parse: Parser, instant: Instant) {
    && (exists i :: 0 <= i < |annotations| && parse(annotations[i].1) == Some(instant))
    && (forall i :: 0 <= i < |annotations| ==>
          parse(annotations[i].1).Some? && instant <= parse(annotations[i].1).value)
  }

  /** What choosing an expiry among the annotations means, without saying how it is chosen. */
  ghost predicate Chosen(
    annotations: seq<(string, string)>, parse: Parser, chosen: Option<Result<Instant, Error>>)
  {
    match chosen
    case None => annotations == []
    case Some(Ok(instant)) => Earliest(annotations, parse, instant)
    case Some(Err(error)) =>
      exists i :: FirstUnparsable(annotations, parse, i)
                  && error == UnparsableExpiryTimestamp(annotations[i].0, annotations[i].1)
  }

  lemma {:induction false} MinByKeyChooses(annotations: seq<(string, string)>, parse: Parser)
    ensures Chosen(annotations, parse, MinByKey(Expiries(annotations, parse)))
  {
    var expiries := Expiries(annotations, parse);
    if annotations != [] {
      var n := |annotations| - 1;
      MinByKeyChooses(annotations[..n], parse);
      assert expiries[..n] == Expiries(annotations[..n], parse);
      ChooseNext(annotations, parse, MinByKey(expiries[..n]));
    }
  }

  lemma ChooseNext(annotations: seq<(string, string)>, parse: Parser, chosen: Option<Result<Instant, Error>>)
    requires annotations != [] && Chosen(annotations[..|annotations| - 1], parse, chosen)
    ensures var next := Expiry(annotations[|annotations| - 1], parse);
            Chosen(annotations, parse,
                   Some(if chosen.None? || KeyBelow(next, chosen.value) then next else chosen.value))
  {
    var n := |annotations| - 1;
    var before := annotations[..n];
    match chosen
    case None =>
      assert n == 0;
      assert parse(annotations[0].1).None? ==> FirstUnparsable(annotations, parse, 0);
    case Some(Ok(instant)) =>
      var i :| 0 <= i < |before| && parse(before[i].1) == Some(instant);
      assert annotations[i] == before[i];
      assert forall j :: 0 <= j < n ==> annotations[j] == before[j];
      assert parse(annotations[n].1).None? ==> FirstUnparsable(annotations, parse, n);
    case Some(Err(error)) =>
      var i :| FirstUnparsable(before, parse, i) && error == UnparsableExpiryTimestamp(before[i].0, before[i].1);
      assert forall j :: 0 <= j <= i ==> annotations[j] == before[j];
      assert FirstUnparsable(annotations, parse, i);
  }

  predicate IsExpiry(annotation: (string, string)) {
    "restarter.stackable.tech/expires-at." <= annotation.0
  }

  lemma {:induction false} ExpiryAnnotationsExact(annotations: seq<(string, string)>)
    ensures forall a :: a in ExpiryAnnotations(annotations) <==> a in annotations && IsExpiry(a)
  {
    if annotations != [] {
      ExpiryAnnotationsExact(annotations[1..]);
      assert forall a :: a in annotations <==> a == annotations[0] || a in annotations[1..];
    }
  }

  ghost predicate Parses(pod: Pod, parse: Parser) {
    pod.annotations.Some? ==> forall a :: a in pod.annotations.value && IsExpiry(a) ==> parse(a.1).Some?
  }

  /** `instant` is the earliest of the Pod's expiry annotations. */
  ghost predicate ExpiresAt(pod: Pod, parse: Parser, instant: Instant) {
    && pod.annotations.Some?
    && (exists a :: a in pod.annotations.value && IsExpiry(a) && parse(a.1) == Some(instant))
    && (forall a :: a in pod.annotations.value && IsExpiry(a) ==>
          parse(a.1).Some? && instant <= parse(a.1).value)
  }

  ghost predicate HasExpiry(pod: Pod) {
    pod.annotations.Some? && exists a :: a in pod.annotations.value && IsExpiry(a)
  }

  /** One unparsable annotation outweighs all others; otherwise the earliest instant is taken. */
  lemma PodExpiresAtExact(pod: Pod, parse: Parser)
    ensures PodExpiresAt(pod, parse).Err? <==> !Parses(pod, parse)
    ensures PodExpiresAt(pod, parse) == Ok(None) <==> !HasExpiry(pod)
    ensures forall m :: PodExpiresAt(pod, parse) == Ok(Some(m)) <==> ExpiresAt(pod, parse, m)
  {
    var annotations := pod.annotations.GetOr([]);
    var own := ExpiryAnnotations(annotations);
    ExpiryAnnotationsExact(annotations);
    MinByKeyChooses(own, parse);
    assert HasExpiry(pod) <==> own != [] by {
      if own != [] {
        assert own[0] in own;
      }
    }
    match MinByKey(Expiries(own, parse))
    case None =>
    case Some(Ok(instant)) =>
      var i :| 0 <= i < |own| && parse(own[i].1) == Some(instant);
      assert own[i] in own;
    case Some(Err(error)) =>
      var i :| FirstUnparsable(own, parse, i) && error == UnparsableExpiryTimestamp(own[i].0, own[i].1);
      assert own[i] in own;
  }

  /** Of the Pod's annotations in key order, the `i`-th is the first that expires the Pod and does not parse. */
  predicate FirstBroken(pod: Pod, parse: Parser, i: int) {
    && pod.annotations.Some? && 0 <= i < |pod.annotations.value|
    && IsExpiry(pod.annotations.value[i]) && parse(pod.annotations.value[i].1).None?
    && forall j :: 0 <= j < i && IsExpiry(pod.annotations.value[j]) ==> parse(pod.annotations.value[j].1).Some?
  }

  lemma {:induction false} BrokenInOrder(annotations: seq<(string, string)>, parse: Parser, i: nat) returns (k: nat)
    requires i < |annotations| && IsExpiry(annotations[i]) && parse(annotations[i].1).None?
    requires forall j :: 0 <= j < i && IsExpiry(annotations[j]) ==> parse(annotations[j].1).Some?
    ensures FirstUnparsable(ExpiryAnnotations(annotations), parse, k)
    ensures ExpiryAnnotations(annotations)[k] == annotations[i]
  {
    if i == 0 {
      k := 0;
    } else {
      var later := BrokenInOrder(annotations[1..], parse, i - 1);
      k := if IsExpiry(annotations[0]) then later + 1 else later;
    }
  }

  /** The reconcile fails with the first annotation, in key order, that does not parse. */
  lemma BrokenReported(pod: Pod, sampled: Instant, parse: Parser, evictionAccepted: bool, i: nat)
    requires !pod.deleting && FirstBroken(pod, parse, i)
    ensures var (key, value) := pod.annotations.value[i];
            Reconcile(pod, sampled, parse, evictionAccepted)
            == Outcome(Err(UnparsableExpiryTimestamp(key, value)), false)
  {
    var own := ExpiryAnnotations(pod.annotations.value);
    var k := BrokenInOrder(pod.annotations.value, parse, i);
    MinByKeyChooses(own, parse);
    assert parse(own[k].1).None?;
    match MinByKey(Expiries(own, parse))
    case None =>
    case Some(Ok(instant)) =>
    case Some(Err(error)) =>
      var first :| FirstUnparsable(own, parse, first)
                   && error == UnparsableExpiryTimestamp(own[first].0, own[first].1);
      assert first == k;
  }

  /** Being deleted or without expiry annotations, a Pod is left alone; while valid it is rechecked at its expiry. */
  lemma LeftAloneOrRechecked(pod: Pod, sampled: Instant, parse: Parser, evictionAccepted: bool)
    ensures pod.deleting || !HasExpiry(pod) ==>
              Reconcile(pod, sampled, parse, evictionAccepted) == Outcome(Ok(AwaitChange), false)
    ensures forall m :: !pod.deleting && ExpiresAt(pod, parse, m) && sampled <= m ==>
              Reconcile(pod, sampled, parse, evictionAccepted) == Outcome(Ok(Requeue(m - sampled)), false)
  {
    PodExpiresAtExact(pod, parse);
  }

  /** An eviction is asked for exactly when the earliest expiry lies strictly in the past, everything parses, and the
   Pod can be addressed and is not being deleted. */
  lemma RequestedExactly(pod: Pod, sampled: Instant, parse: Parser, evictionAccepted: bool)
    ensures Reconcile(pod, sampled, parse, evictionAccepted).requested <==>
              && !pod.deleting && pod.name.Some? && pod.namespace.Some?
              && exists m :: ExpiresAt(pod, parse, m) && m < sampled
    ensures forall m :: !pod.deleting && ExpiresAt(pod, parse, m) && m < sampled ==>
              Reconcile(pod, sampled, parse, evictionAccepted).result ==
                if pod.namespace.None? then Err(PodHasNoNamespace) else if pod.name.None? then Err(PodHasNoName)
                else if evictionAccepted then Ok(AwaitChange) else Err(EvictPod)
  {
    PodExpiresAtExact(pod, parse);
    match PodExpiresAt(pod, parse)
    case Ok(Some(m)) =>
      assert forall k :: ExpiresAt(pod, parse, k) ==> PodExpiresAt(pod, parse) == Ok(Some(k));
    case _ =>
  }

  // ---------------------------------------------------------------- the scheduler

  datatype Flight = Flight(pod: Pod, sampled: Instant, current: bool)

  datatype Last = Last(sampled: Instant, finished: Instant, evictionAccepted: bool)

  datatype Request = Request(pod: Pod, sampled: Instant, sent: Instant)

  /**
   One Pod as its controller sees it: the cached object, when the next reconcile is due, the reconcile in flight
   (`current` while the cached object is the one it started from) and the last reconcile of the cached object.
   */
  datatype State = State(
    now: Instant, cached: Option<Pod>, due: Option<Instant>, inFlight: Option<Flight>, last: Option<Last>,
    requests: seq<Request>)

  datatype Step = Tick(to: Instant) | Observe(pod: Pod) | Remove | Start | Finish(evictionAccepted: bool)

  /** Of two triggers for one object, the scheduler keeps the sooner. */
  function Sooner(due: Option<Instant>, at: Instant): Option<Instant> {
    if due.Some? && due.value <= at then due else Some(at)
  }

  function ErrorPolicy(): Action {
    Requeue(ERROR_REQUEUE)
  }

  function Scheduled(due: Option<Instant>, now: Instant, result: Result<Action, Error>): Option<Instant> {
    match if result.Ok? then result.value else ErrorPolicy()
    case AwaitChange => due
    case Requeue(after) => Sooner(due, now + after)
  }

  function Outdated(inFlight: Option<Flight>): Option<Flight> {
    match inFlight
    case Some(flight) => Some(flight.(current := false))
    case None => None
  }

  predicate CanStep(s: State, step: Step) {
    match step
    case Tick(to) => s.now <= to
    case Observe(_) => true
    case Remove => true
    case Start => s.inFlight.None? && s.due.Some? && s.due.value <= s.now
    case Finish(_) => s.inFlight.Some?
  }

  function Do(s: State, step: Step, parse: Parser): State
    requires CanStep(s, step)
  {
    match step
    case Tick(to) => s.(now := to)
    case Observe(pod) =>
      s.(cached := Some(pod), due := Sooner(s.due, s.now), inFlight := Outdated(s.inFlight), last := None)
    case Remove => s.(cached := None, inFlight := Outdated(s.inFlight), last := None)
    case Start =>
      var s' := s.(due := None, last := None);
      if s.cached.Some? then s'.(inFlight := Some(Flight(s.cached.value, s.now, true))) else s'
    case Finish(evictionAccepted) =>
      var flight := s.inFlight.value;
      var outcome := Reconcile(flight.pod, flight.sampled, parse, evictionAccepted);
      s.(inFlight := None,
         due := Scheduled(s.due, s.now, outcome.result),
         last := if flight.current then Some(Last(flight.sampled, s.now, evictionAccepted)) else s.last,
         requests := s.requests
           + if outcome.requested then [Request(flight.pod, flight.sampled, s.now)] else [])
  }

  predicate CanRun(s: State, steps: seq<Step>, parse: Parser)
    decreases |steps|
  {
    steps == [] || (CanStep(s, steps[0]) && CanRun(Do(s, steps[0], parse), steps[1..], parse))
  }

  function Run(s: State, steps: seq<Step>, parse: Parser): State
    requires CanRun(s, steps, parse)
    decreases |steps|
  {
    if steps == [] then s else Run(Do(s, steps[0], parse), steps[1..], parse)
  }

  function Begin(now: Instant): State {
    State(now, None, None, None, None, [])
  }

  // ---------------------------------------------------------------- what every run keeps

  ghost predicate Justified(request: Request, parse: Parser) {
    && !request.pod.deleting && Parses(request.pod, parse)
    && exists m :: ExpiresAt(request.pod, parse, m) && m < request.sampled <= request.sent
  }

  predicate InFlightNow(s: State) {
    s.inFlight.Some? && s.inFlight.value.current
  }

  /** The cached Pod is being reconciled, or waits for its first reconcile, or is scheduled as its last one asked. */
  predicate Attended(s: State, pod: Pod, parse: Parser) {
    if InFlightNow(s) then s.inFlight.value.pod == pod && s.last.None? && s.due.None?
    else if s.last.None? then s.due.Some? && s.due.value <= s.now
    else
      var l := s.last.value;
      && s.inFlight.None? && l.sampled <= l.finished <= s.now
      && s.due == Scheduled(None, l.finished, Reconcile(pod, l.sampled, parse, l.evictionAccepted).result)
  }

  ghost predicate Inv(s: State, parse: Parser) {
    && (s.inFlight.Some? ==> s.inFlight.value.sampled <= s.now)
    && (forall r :: r in s.requests ==> Justified(r, parse))
    && (s.cached.Some? ==> Attended(s, s.cached.value, parse))
    && (s.cached.None? ==> !InFlightNow(s) && s.last.None?)
  }

  lemma FinishKeepsAttended(s: State, evictionAccepted: bool, parse: Parser)
    requires Inv(s, parse) && s.inFlight.Some? && s.cached.Some?
    ensures Attended(Do(s, Finish(evictionAccepted), parse), s.cached.value, parse)
  {
  }

  lemma FinishKeepsJustified(s: State, evictionAccepted: bool, parse: Parser)
    requires Inv(s, parse) && s.inFlight.Some?
    ensures forall r :: r in Do(s, Finish(evictionAccepted), parse).requests ==> Justified(r, parse)
  {
    var flight := s.inFlight.value;
    RequestedExactly(flight.pod, flight.sampled, parse, evictionAccepted);
    PodExpiresAtExact(flight.pod, parse);
  }

  lemma StepKeepsInv(s: State, step: Step, parse: Parser)
    requires Inv(s, parse) && CanStep(s, step)
    ensures Inv(Do(s, step, parse), parse)
  {
    match step
    case Finish(evictionAccepted) =>
      FinishKeepsJustified(s, evictionAccepted, parse);
      if s.cached.Some? {
        FinishKeepsAttended(s, evictionAccepted, parse);
      }
    case _ =>
  }

  lemma {:induction false} RunKeepsInv(s: State, steps: seq<Step>, parse: Parser)
    requires Inv(s, parse) && CanRun(s, steps, parse)
    ensures Inv(Run(s, steps, parse), parse)
    decreases |steps|
  {
    if steps != [] {
      StepKeepsInv(s, steps[0], parse);
      RunKeepsInv(Do(s, steps[0], parse), steps[1..], parse);
    }
  }

  /** Whatever is observed and however long reconciles take, no eviction is asked for before its time. */
  lemma EvictedOnlyAfterExpiry(begin: Instant, steps: seq<Step>, parse: Parser)
    requires CanRun(Begin(begin), steps, parse)
    ensures forall r :: r in Run(Begin(begin), steps, parse).requests ==>
              && !r.pod.deleting && Parses(r.pod, parse)
              && exists m :: ExpiresAt(r.pod, parse, m) && m < r.sampled <= r.sent
  {
    RunKeepsInv(Begin(begin), steps, parse);
    var s := Run(Begin(begin), steps, parse);
    assert forall r :: r in s.requests ==> Justified(r, parse);
  }

  /** When a Pod whose earliest expiry is `m`, if it has one, is to be reconciled next. */
  ghost predicate NextCheck(pod: Pod, l: Last, parse: Parser, m: Instant, due: Option<Instant>) {
    && (pod.deleting || !HasExpiry(pod) ==> due == None)
    && (!pod.deleting && !Parses(pod, parse) ==> due == Some(l.finished + 5_000_000_000))
    && (!pod.deleting && ExpiresAt(pod, parse, m) && l.sampled <= m ==> due == Some(m + (l.finished - l.sampled)))
    && (!pod.deleting && ExpiresAt(pod, parse, m) && m < l.sampled ==>
          due == if pod.name.Some? && pod.namespace.Some? && l.evictionAccepted then None
                 else Some(l.finished + 5_000_000_000))
  }

  lemma DueAfter(pod: Pod, l: Last, parse: Parser, m: Instant)
    ensures NextCheck(
              pod, l, parse, m,
              Scheduled(None, l.finished, Reconcile(pod, l.sampled, parse, l.evictionAccepted).result))
  {
    PodExpiresAtExact(pod, parse);
    hide PodExpiresAt;
    hide ExpiresAt;
    hide HasExpiry;
    hide Parses;
  }

  /** After a Pod's reconcile the next one is due at its expiry (later by as long as the reconcile took), five seconds
   after a failure, or never: when nothing is to be done, or the eviction was accepted. */
  lemma RecheckedAtExpiry(begin: Instant, steps: seq<Step>, parse: Parser, m: Instant)
    requires CanRun(Begin(begin), steps, parse)
    ensures var s := Run(Begin(begin), steps, parse);
            s.cached.Some? && s.last.Some? ==> NextCheck(s.cached.value, s.last.value, parse, m, s.due)
  {
    hide NextCheck;
    RunKeepsInv(Begin(begin), steps, parse);
    var s := Run(Begin(begin), steps, parse);
    if s.cached.Some? && s.last.Some? {
      DueAfter(s.cached.value, s.last.value, parse, m);
    }
  }

  /** A Pod with an expiry is never forgotten: a reconcile runs or is due, unless its eviction was accepted. */
  lemma NeverForgotten(begin: Instant, steps: seq<Step>, parse: Parser)
    requires CanRun(Begin(begin), steps, parse)
    ensures var s := Run(Begin(begin), steps, parse);
            s.cached.Some? && !s.cached.value.deleting && HasExpiry(s.cached.value) ==>
              || s.inFlight.Some? || s.due.Some?
              || (&& s.last.Some? && s.last.value.evictionAccepted
                  && Reconcile(s.cached.value, s.last.value.sampled, parse, true).requested)
  {
    RunKeepsInv(Begin(begin), steps, parse);
    var s := Run(Begin(begin), steps, parse);
    if s.cached.Some? {
      PodExpiresAtExact(s.cached.value, parse);
    }
  }
}
