/**
 A value that an external writer initializes once and that any number of concurrent readers await
 (rust/operator-binary/src/utils/delayed_init.rs).

 The classes follow the source: a one-shot channel, and a lock-protected state that is overwritten when the
 channel resolves. The protocol below interleaves the critical sections of any number of getters with one
 initializer, and refines a write-once register.
 */
module DelayedInit {
  import opened Wrappers

  datatype InitDropped = InitDropped

  type Outcome<T> = Result<T, InitDropped>

  datatype Poll<T> = Ready(value: T) | Pending

  /** Identifies a getter's task, and so its waker. */
  type Task = nat

  // ---------------------------------------------------------------- the one-shot channel

  /** `complete` once the sender is gone; `handedOut` counts the results the receiver has handed out. */
  datatype Channel<T> = Channel(complete: bool, data: Option<T>, waker: Option<Task>, handedOut: nat)

  function FreshChannel<T>(): Channel<T> {
    Channel(false, None, None, 0)
  }

  /** Dropping the sender, with or without having sent, completes the channel and takes the waker. */
  function Complete<T>(c: Channel<T>, data: Option<T>): Channel<T> {
    c.(complete := true, data := data, waker := None)
  }

  /** Polling moves the data out: a second poll after completion would report cancellation. */
  function PollChannel<T>(c: Channel<T>, task: Task): (Channel<T>, Poll<Outcome<T>>) {
    if c.complete then
      (c.(data := None, handedOut := c.handedOut + 1),
       Ready(if c.data.Some? then Ok(c.data.value) else Err(InitDropped)))
    else
      (c.(waker := Some(task)), Pending)
  }

  class Oneshot<T> {
    var complete: bool
    var data: Option<T>
    var waker: Option<Task>
    var handedOut: nat

    ghost function State(): Channel<T>
      reads this
    {
      Channel(complete, data, waker, handedOut)
    }

    constructor ()
      ensures State() == FreshChannel()
    {
      complete, data, waker, handedOut := false, None, None, 0;
    }

    /** `Initializer::init`: stores the value, then the consumed sender is dropped. */
    method Send(value: T) returns (woken: Option<Task>)
      modifies this
      ensures State() == Complete(old(State()), Some(value))
      ensures woken == old(waker)
    {
      data := Some(value);
      woken := DropSender();
    }

    method DropSender() returns (woken: Option<Task>)
      modifies this
      ensures State() == Complete(old(State()), old(data))
      ensures woken == old(waker)
    {
      complete := true;
      woken := waker;
      waker := None;
    }

    method PollOnce(task: Task) returns (p: Poll<Outcome<T>>)
      modifies this
      ensures (State(), p) == PollChannel(old(State()), task)
    {
      if complete {
        p := Ready(if data.Some? then Ok(data.value) else Err(InitDropped));
        data := None;
        handedOut := handedOut + 1;
      } else {
        waker := Some(task);
        p := Pending;
      }
    }
  }

  // ---------------------------------------------------------------- the two critical sections of a poll

  /** What the lock protects: the channel while waiting, the memoized result afterwards. */
  datatype Shared<T> = Shared(channel: Channel<T>, memo: Option<Outcome<T>>)

  /** Under the write lock the state is checked again before the channel is touched. */
  function WriteSection<T>(s: Shared<T>, task: Task): (Shared<T>, Poll<Outcome<T>>) {
    if s.memo.Some? then (s, Ready(s.memo.value))
    else
      var (channel, p) := PollChannel(s.channel, task);
      (Shared(channel, if p.Ready? then Some(p.value) else None), p)
  }

  datatype ReceiverState<T> = Waiting(rx: Oneshot<T>) | Memoized(result: Outcome<T>)

  class DelayedInit<T> {
    const channel: Oneshot<T>
    var state: ReceiverState<T>

    ghost predicate Valid()
      reads this
    {
      state.Waiting? ==> state.rx == channel
    }

    ghost function State(): Shared<T>
      reads this, channel
    {
      Shared(channel.State(), if state.Memoized? then Some(state.result) else None)
    }

    constructor (channel: Oneshot<T>)
      ensures Valid() && this.channel == channel && State() == Shared(channel.State(), None)
    {
      this.channel := channel;
      state := Waiting(channel);
    }

    /** The optimistic read: the memoized result, if any. */
    method ReadLocked() returns (r: Option<Outcome<T>>)
      requires Valid()
      ensures r == State().memo
    {
      r := if state.Memoized? then Some(state.result) else None;
    }

    method WriteLocked(task: Task) returns (p: Poll<Outcome<T>>)
      requires Valid()
      modifies this`state, channel
      ensures Valid() && (State(), p) == WriteSection(old(State()), task)
    {
      match state
      case Waiting(rx) =>
        p := rx.PollOnce(task);
        if p.Ready? {
          state := Memoized(p.value);
        }
      case Memoized(result) =>
        p := Ready(result);
    }

    /** `DelayedInitGet::poll`, when nothing happens between releasing the read lock and taking the write lock. */
    method PollGet(task: Task) returns (p: Poll<Outcome<T>>)
      requires Valid()
      modifies this`state, channel
      ensures Valid() && (State(), p) == WriteSection(old(State()), task)
    {
      var fast := ReadLocked();
      if fast.Some? {
        p := Ready(fast.value);
      } else {
        p := WriteLocked(task);
      }
    }
  }

  // ---------------------------------------------------------------- the protocol

  /** Where a getter is: between polls, in one of the critical sections, in the gap between them, or finished. */
  datatype Pc<T> = Idle | Reading | Upgrading | Writing | Parked | Done(result: Outcome<T>)

  datatype System<T> = System(
    shared: Shared<T>,
    initializerLive: bool,
    getters: map<Task, Pc<T>>,
    readers: set<Task>,
    writer: Option<Task>,
    woken: set<Task>,
    lastParked: Option<Task>)

  function PcOf<T>(s: System<T>, task: Task): Pc<T> {
    Lookup(s.getters, task).GetOr(Idle)
  }

  datatype Step<T> =
    | BeginPoll(task: Task)
    | ReadState(task: Task)
    | AcquireWrite(task: Task)
    | WriteState(task: Task)
    | Cancel(task: Task)
    | Init(value: T)
    | DropInitializer

  predicate CanStep<T>(s: System<T>, step: Step<T>) {
    match step
    case BeginPoll(task) => (PcOf(s, task).Idle? || PcOf(s, task).Parked?) && s.writer.None?
    case ReadState(task) => PcOf(s, task).Reading?
    case AcquireWrite(task) => PcOf(s, task).Upgrading? && s.writer.None? && s.readers == {}
    case WriteState(task) => PcOf(s, task).Writing?
    case Cancel(task) => PcOf(s, task).Parked?
    case Init(_) => s.initializerLive
    case DropInitializer => s.initializerLive
  }

  function Wake(waker: Option<Task>): set<Task> {
    if waker.Some? then {waker.value} else {}
  }

  function DoComplete<T>(s: System<T>, data: Option<T>): System<T> {
    s.(shared := s.shared.(channel := Complete(s.shared.channel, data)),
       initializerLive := false,
       woken := s.woken + Wake(s.shared.channel.waker))
  }

  function DoWriteState<T>(s: System<T>, task: Task): System<T> {
    var (shared, p) := WriteSection(s.shared, task);
    s.(shared := shared,
       writer := None,
       getters := s.getters[task := if p.Ready? then Done(p.value) else Parked],
       lastParked := if p.Ready? then s.lastParked else Some(task))
  }

  function Do<T>(s: System<T>, step: Step<T>): System<T>
    requires CanStep(s, step)
  {
    match step
    case BeginPoll(task) =>
      s.(getters := s.getters[task := Reading], readers := s.readers + {task}, woken := s.woken - {task})
    case ReadState(task) =>
      s.(readers := s.readers - {task},
         getters := s.getters[task := if s.shared.memo.Some? then Done(s.shared.memo.value) else Upgrading])
    case AcquireWrite(task) => s.(writer := Some(task), getters := s.getters[task := Writing])
    case WriteState(task) => DoWriteState(s, task)
    case Cancel(task) => s.(getters := s.getters[task := Idle])
    case Init(value) => DoComplete(s, Some(value))
    case DropInitializer => DoComplete(s, None)
  }

  predicate CanRun<T>(s: System<T>, steps: seq<Step<T>>)
    decreases |steps|
  {
    steps == [] || (CanStep(s, steps[0]) && CanRun(Do(s, steps[0]), steps[1..]))
  }

  function Run<T>(s: System<T>, steps: seq<Step<T>>): System<T>
    requires CanRun(s, steps)
    decreases |steps|
  {
    if steps == [] then s else Run(Do(s, steps[0]), steps[1..])
  }

  function Start<T>(): System<T> {
    System(Shared(FreshChannel(), None), true, map[], {}, None, {}, None)
  }

  // ---------------------------------------------------------------- invariant

  ghost predicate LocksAgree<T>(s: System<T>) {
    && (forall task :: task in s.readers <==> PcOf(s, task).Reading?)
    && (forall task: Task :: s.writer == Some(task) <==> PcOf(s, task).Writing?)
    && (s.writer.Some? ==> s.readers == {})
  }

  /** The channel yields once, exactly when its result is memoized; nothing was sent while the initializer lives. */
  predicate HandsOutOnce<T>(s: System<T>) {
    var channel := s.shared.channel;
    && (s.initializerLive <==> !channel.complete)
    && (s.initializerLive ==> channel.data.None? && s.shared.memo.None?)
    && channel.handedOut == if s.shared.memo.Some? then 1 else 0
  }

  ghost predicate ResultsMemoized<T>(s: System<T>) {
    forall task :: PcOf(s, task).Done? ==> s.shared.memo == Some(PcOf(s, task).result)
  }

  /** Only the latest getter to park is registered; once the initializer is gone it has been woken. */
  predicate LatestIsWoken<T>(s: System<T>) {
    && (s.initializerLive ==> s.shared.channel.waker == s.lastParked)
    && (!s.initializerLive && s.shared.memo.None? && s.lastParked.Some? && PcOf(s, s.lastParked.value).Parked? ==>
          s.lastParked.value in s.woken)
  }

  ghost predicate Inv<T>(s: System<T>) {
    LocksAgree(s) && HandsOutOnce(s) && ResultsMemoized(s) && LatestIsWoken(s)
  }

  lemma StartInv<T>()
    ensures Inv<T>(Start())
  {
  }

  lemma PcAfter<T>(s: System<T>, step: Step<T>, task: Task)
    requires CanStep(s, step)
    requires step.Init? || step.DropInitializer? || step.task != task
    ensures PcOf(Do(s, step), task) == PcOf(s, task)
  {
  }

  lemma StepKeepsLocks<T>(s: System<T>, step: Step<T>)
    requires Inv(s) && CanStep(s, step)
    ensures LocksAgree(Do(s, step))
  {
    forall task
      ensures task in Do(s, step).readers <==> PcOf(Do(s, step), task).Reading?
      ensures Do(s, step).writer == Some(task) <==> PcOf(Do(s, step), task).Writing?
    {
      if step.Init? || step.DropInitializer? || step.task != task {
        PcAfter(s, step, task);
      }
    }
  }

  lemma StepKeepsResults<T>(s: System<T>, step: Step<T>)
    requires Inv(s) && CanStep(s, step)
    ensures ResultsMemoized(Do(s, step))
  {
    forall task | PcOf(Do(s, step), task).Done?
      ensures Do(s, step).shared.memo == Some(PcOf(Do(s, step), task).result)
    {
      if step.Init? || step.DropInitializer? || step.task != task {
        PcAfter(s, step, task);
      }
    }
  }

  lemma StepKeepsLatest<T>(s: System<T>, step: Step<T>)
    requires Inv(s) && CanStep(s, step)
    ensures LatestIsWoken(Do(s, step))
  {
    if s.lastParked.Some? && (step.Init? || step.DropInitializer? || step.task != s.lastParked.value) {
      PcAfter(s, step, s.lastParked.value);
    }
  }

  lemma StepKeepsInv<T>(s: System<T>, step: Step<T>)
    requires Inv(s) && CanStep(s, step)
    ensures Inv(Do(s, step))
  {
    StepKeepsLocks(s, step);
    StepKeepsResults(s, step);
    StepKeepsLatest(s, step);
  }

  lemma {:induction false} RunKeepsInv<T>(s: System<T>, steps: seq<Step<T>>)
    requires Inv(s) && CanRun(s, steps)
    ensures Inv(Run(s, steps))
    decreases |steps|
  {
    if steps != [] {
      StepKeepsInv(s, steps[0]);
      RunKeepsInv(Do(s, steps[0]), steps[1..]);
    }
  }

  // ---------------------------------------------------------------- refinement of a write-once register

  datatype Register<T> = Unset | Set(outcome: Outcome<T>)

  datatype Action<T> = Write(outcome: Outcome<T>) | Return(task: Task, outcome: Outcome<T>) | Internal

  /** The specification: one write, and every return reports it. */
  ghost predicate RegisterStep<T>(before: Register<T>, action: Action<T>, after: Register<T>) {
    match action
    case Write(outcome) => before.Unset? && after == Set(outcome)
    case Return(_, outcome) => before == Set(outcome) && after == before
    case Internal => after == before
  }

  /** The initializer's send or drop decides the register, long before anyone memoizes it. */
  function Abstract<T>(s: System<T>): Register<T> {
    if s.initializerLive then Unset
    else if s.shared.memo.Some? then Set(s.shared.memo.value)
    else if s.shared.channel.data.Some? then Set(Ok(s.shared.channel.data.value))
    else Set(Err(InitDropped))
  }

  function ReturnOf<T>(task: Task, pc: Pc<T>): Action<T> {
    if pc.Done? then Return(task, pc.result) else Internal
  }

  function ActionOf<T>(s: System<T>, step: Step<T>): Action<T>
    requires CanStep(s, step)
  {
    match step
    case Init(value) => Write(Ok(value))
    case DropInitializer => Write(Err(InitDropped))
    case ReadState(task) => ReturnOf(task, PcOf(Do(s, step), task))
    case WriteState(task) => ReturnOf(task, PcOf(Do(s, step), task))
    case _ => Internal
  }

  lemma StepRefines<T>(s: System<T>, step: Step<T>)
    requires Inv(s) && CanStep(s, step)
    ensures RegisterStep(Abstract(s), ActionOf(s, step), Abstract(Do(s, step)))
  {
  }

  function History<T>(s: System<T>, steps: seq<Step<T>>): seq<Action<T>>
    requires CanRun(s, steps)
    decreases |steps|
  {
    if steps == [] then [] else [ActionOf(s, steps[0])] + History(Do(s, steps[0]), steps[1..])
  }

  /** `actions` is a run of the register from `register`. */
  ghost predicate RegisterRun<T(!new)>(register: Register<T>, actions: seq<Action<T>>)
    decreases |actions|
  {
    actions == [] || exists after :: RegisterStep(register, actions[0], after) && RegisterRun(after, actions[1..])
  }

  /** Every interleaving of getters and initializer is a run of the write-once register. */
  lemma {:induction false} Linearizable<T(!new)>(s: System<T>, steps: seq<Step<T>>)
    requires Inv(s) && CanRun(s, steps)
    ensures RegisterRun(Abstract(s), History(s, steps))
    decreases |steps|
  {
    if steps != [] {
      var next := Do(s, steps[0]);
      StepRefines(s, steps[0]);
      StepKeepsInv(s, steps[0]);
      Linearizable(next, steps[1..]);
      var actions := History(s, steps);
      assert actions[0] == ActionOf(s, steps[0]) && actions[1..] == History(next, steps[1..]);
      assert RegisterStep(Abstract(s), actions[0], Abstract(next));
    }
  }

  lemma {:induction false} SetStays<T(!new)>(outcome: Outcome<T>, actions: seq<Action<T>>, i: nat)
    requires RegisterRun(Set(outcome), actions) && i < |actions|
    ensures !actions[i].Write? && (actions[i].Return? ==> actions[i].outcome == outcome)
    decreases i
  {
    var after :| RegisterStep(Set(outcome), actions[0], after) && RegisterRun(after, actions[1..]);
    if i > 0 {
      SetStays(outcome, actions[1..], i - 1);
    }
  }

  lemma {:induction false} ReturnsTheWrite<T(!new)>(actions: seq<Action<T>>, i: nat) returns (w: nat)
    requires RegisterRun(Unset, actions) && i < |actions| && actions[i].Return?
    ensures w < i && actions[w] == Write(actions[i].outcome)
    decreases i
  {
    var after :| RegisterStep(Unset, actions[0], after) && RegisterRun(after, actions[1..]);
    if actions[0].Write? {
      w := 0;
      SetStays(actions[0].outcome, actions[1..], i - 1);
    } else {
      w := ReturnsTheWrite(actions[1..], i - 1);
      w := w + 1;
    }
  }

  lemma {:induction false} OneWrite<T(!new)>(actions: seq<Action<T>>, i: nat, j: nat)
    requires RegisterRun(Unset, actions) && i < j < |actions|
    ensures !(actions[i].Write? && actions[j].Write?)
    decreases i
  {
    var after :| RegisterStep(Unset, actions[0], after) && RegisterRun(after, actions[1..]);
    if i == 0 {
      if actions[0].Write? {
        SetStays(actions[0].outcome, actions[1..], j - 1);
      }
    } else if actions[0].Write? {
      SetStays(actions[0].outcome, actions[1..], i - 1);
    } else {
      OneWrite(actions[1..], i - 1, j - 1);
    }
  }

  /**
   In any run from the start: whichever getters finish, whenever they do, they return one and the same
   result, and it is the value that was sent before, or `InitDropped` if the initializer had been dropped.
   */
  lemma AllGetsAgree<T(!new)>(steps: seq<Step<T>>, i: nat, j: nat) returns (w: nat)
    requires CanRun(Start(), steps)
    requires i < |History(Start(), steps)| && History(Start(), steps)[i].Return?
    requires j < |History(Start(), steps)| && History(Start(), steps)[j].Return?
    ensures History(Start(), steps)[i].outcome == History(Start(), steps)[j].outcome
    ensures w < i && w < j && History(Start(), steps)[w] == Write(History(Start(), steps)[i].outcome)
  {
    var actions := History(Start(), steps);
    StartInv<T>();
    Linearizable(Start(), steps);
    w := ReturnsTheWrite(actions, i);
    var w' := ReturnsTheWrite(actions, j);
    if w < w' {
      OneWrite(actions, w, w');
    } else if w' < w {
      OneWrite(actions, w', w);
    }
  }

  // ---------------------------------------------------------------- the channel and its waker

  /** The channel hands out at most one result, so no getter is told of a cancellation after a send. */
  lemma ChannelHandsOutAtMostOnce<T>(steps: seq<Step<T>>)
    requires CanRun(Start(), steps)
    ensures Run(Start(), steps).shared.channel.handedOut <= 1
  {
    StartInv<T>();
    RunKeepsInv(Start(), steps);
  }

  /** Once memoized, the shared state is final: no poll touches the channel again. */
  lemma {:induction false} MemoIsFinal<T>(s: System<T>, steps: seq<Step<T>>)
    requires Inv(s) && CanRun(s, steps) && s.shared.memo.Some?
    ensures Run(s, steps).shared == s.shared
    decreases |steps|
  {
    if steps != [] {
      StepKeepsInv(s, steps[0]);
      MemoIsFinal(Do(s, steps[0]), steps[1..]);
    }
  }

  /** After the initializer has sent or gone, whoever gets the write lock finishes, and memoizes. */
  lemma CompletedNeverParks<T>(s: System<T>, task: Task)
    requires Inv(s) && !s.initializerLive && CanStep(s, WriteState(task))
    ensures var s' := Do(s, WriteState(task)); PcOf(s', task).Done? && s'.shared.memo.Some?
  {
  }

  /** How many steps of its own a getter in the middle of a poll has left at most. */
  function StepsLeft<T>(pc: Pc<T>): nat {
    match pc
    case Reading => 3
    case Upgrading => 2
    case Writing => 1
    case _ => 0
  }

  predicate Polling<T>(pc: Pc<T>) {
    pc.Reading? || pc.Upgrading? || pc.Writing? || pc.Done?
  }

  predicate OwnStep<T>(step: Step<T>, task: Task) {
    step == ReadState(task) || step == AcquireWrite(task) || step == WriteState(task)
  }

  function OwnSteps<T(==)>(steps: seq<Step<T>>, task: Task): nat {
    if steps == [] then 0 else (if OwnStep(steps[0], task) then 1 else 0) + OwnSteps(steps[1..], task)
  }

  lemma PollStep<T>(s: System<T>, step: Step<T>, task: Task)
    requires Inv(s) && !s.initializerLive && Polling(PcOf(s, task)) && CanStep(s, step)
    ensures !Do(s, step).initializerLive && Polling(PcOf(Do(s, step), task))
    ensures StepsLeft(PcOf(Do(s, step), task)) + (if OwnStep(step, task) then 1 else 0) <= StepsLeft(PcOf(s, task))
    ensures Abstract(Do(s, step)) == Abstract(s)
  {
    StepRefines(s, step);
    if !step.Init? && !step.DropInitializer? && step.task != task {
      PcAfter(s, step, task);
    }
  }

  /**
   Once the initializer has sent or gone, a getter that has begun to poll never parks again, however the steps of other
   getters fall between its own: after at most three steps of its own it has the register's value.
   */
  lemma {:induction false} PollFinishes<T>(s: System<T>, steps: seq<Step<T>>, task: Task)
    requires Inv(s) && !s.initializerLive && Polling(PcOf(s, task)) && CanRun(s, steps)
    ensures var pc := PcOf(Run(s, steps), task);
            && Polling(pc) && StepsLeft(pc) + OwnSteps(steps, task) <= StepsLeft(PcOf(s, task))
            && (pc.Done? ==> Abstract(s) == Set(pc.result))
    decreases |steps|
  {
    if steps == [] {
      assert PcOf(s, task).Done? ==> s.shared.memo == Some(PcOf(s, task).result);
    } else {
      PollStep(s, steps[0], task);
      StepKeepsInv(s, steps[0]);
      PollFinishes(Do(s, steps[0]), steps[1..], task);
    }
  }

  /** A getter parked so far that is polled again finishes within three further steps of its own. */
  lemma WokenGetterFinishes<T>(s: System<T>, steps: seq<Step<T>>, task: Task)
    requires Inv(s) && !s.initializerLive && PcOf(s, task).Parked? && CanStep(s, BeginPoll(task))
    requires CanRun(Do(s, BeginPoll(task)), steps)
    ensures var pc := PcOf(Run(Do(s, BeginPoll(task)), steps), task);
            && !pc.Parked? && OwnSteps(steps, task) <= 3
            && (OwnSteps(steps, task) == 3 ==> pc.Done?)
            && (pc.Done? ==> Abstract(s) == Set(pc.result))
  {
    StepKeepsInv(s, BeginPoll(task));
    PollFinishes(Do(s, BeginPoll(task)), steps, task);
  }

  /** The locks never stand still: while a getter is in the middle of a poll, it or a holder of the lock can go on. */
  lemma LocksMoveOn<T>(s: System<T>, task: Task) returns (mover: Task, step: Step<T>)
    requires Inv(s) && Polling(PcOf(s, task)) && !PcOf(s, task).Done?
    ensures OwnStep(step, mover) && CanStep(s, step)
  {
    mover := task;
    match PcOf(s, task)
    case Reading => step := ReadState(task);
    case Writing => step := WriteState(task);
    case Upgrading =>
      if s.writer.Some? {
        mover, step := s.writer.value, WriteState(s.writer.value);
      } else if s.readers != {} {
        mover :| mover in s.readers;
        step := ReadState(mover);
      } else {
        step := AcquireWrite(task);
      }
  }

  /**
   Sending wakes exactly the latest getter to have parked. Getters that parked earlier stay parked until
   something else polls them.
   */
  lemma OnlyTheLatestIsWoken<T>(steps: seq<Step<T>>, value: T, task: Task)
    requires CanRun(Start(), steps) && Run(Start(), steps).initializerLive
    ensures var s := Run(Start(), steps);
            task in Do(s, Init(value)).woken - s.woken <==> s.lastParked == Some(task) && task !in s.woken
  {
    StartInv<T>();
    RunKeepsInv(Start(), steps);
  }

  /** A getter that polls, undisturbed, before the value arrives. */
  predicate CanPark<T>(s: System<T>, task: Task) {
    && PcOf(s, task).Idle? && s.writer.None? && s.readers == {}
    && s.shared.memo.None? && PollChannel(s.shared.channel, task).1.Pending?
  }

  function AfterParking<T>(s: System<T>, task: Task): System<T> {
    s.(shared := Shared(PollChannel(s.shared.channel, task).0, None),
       getters := s.getters[task := Parked], woken := s.woken - {task}, lastParked := Some(task))
  }

  lemma ParkThen<T>(s: System<T>, task: Task, steps: seq<Step<T>>) returns (longer: seq<Step<T>>)
    requires CanPark(s, task) && CanRun(AfterParking(s, task), steps)
    ensures CanRun(s, longer) && Run(s, longer) == Run(AfterParking(s, task), steps)
  {
    var s1 := Do(s, BeginPoll(task));
    var s2 := Do(s1, ReadState(task));
    var s3 := Do(s2, AcquireWrite(task));
    assert s2.readers == {} && s2.getters == s.getters[task := Upgrading];
    assert Do(s3, WriteState(task)) == AfterParking(s, task);
    longer := Prepend(s3, WriteState(task), steps);
    longer := Prepend(s2, AcquireWrite(task), longer);
    longer := Prepend(s1, ReadState(task), longer);
    longer := Prepend(s, BeginPoll(task), longer);
  }

  /** Two getters park, the value arrives, and the first of them is never woken. */
  lemma EarlierGetterSleepsOn<T>(first: Task, second: Task, value: T) returns (steps: seq<Step<T>>)
    requires first != second
    ensures CanRun(Start(), steps)
    ensures var s := Run(Start(), steps);
            PcOf(s, first).Parked? && first !in s.woken && Abstract(s) == Set(Ok(value))
  {
    var s1 := AfterParking(Start<T>(), first);
    var s2 := AfterParking(s1, second);
    var s3 := Do(s2, Init(value));
    steps := [];
    assert CanRun(s3, steps) && Run(s3, steps) == s3;
    steps := Prepend(s2, Init(value), steps);
    steps := ParkThen(s1, second, steps);
    steps := ParkThen(Start(), first, steps);
  }

  lemma Prepend<T>(s: System<T>, step: Step<T>, steps: seq<Step<T>>) returns (longer: seq<Step<T>>)
    requires CanStep(s, step) && CanRun(Do(s, step), steps)
    ensures longer == [step] + steps && CanRun(s, longer) && Run(s, longer) == Run(Do(s, step), steps)
  {
    longer := [step] + steps;
    assert longer[1..] == steps;
  }
}
