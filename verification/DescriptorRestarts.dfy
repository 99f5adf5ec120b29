/** Calls of RestartRead() and RestartWrite(), returns of `Suppress`, and the counter that
    keeps the difference. */
module DescriptorRestarts {
  import opened Counting
  import opened Prelude
  import opened Descriptor
  import opened DescriptorInvariant
  import opened DescriptorSafety
  import opened DescriptorOrder
  import opened DescriptorTheorems

  // ----------------------------------------------------------------- tasks run

  /** The event loop runs the counting part of a restart or of a suppress task. */
  predicate RestartRuns(s: State, t: State, d: Dir) {
    s.loop == Running(OnChannel(d, RestartNow)) && t.loop != s.loop && s.v.enabled
  }

  predicate SuppressRuns(s: State, t: State, d: Dir) {
    s.loop == Running(OnChannel(d, SuppressTest)) && t.loop != s.loop && s.v.enabled
  }

  /** How many did so up to state `n`. */
  function RestartsRun(trace: seq<State>, d: Dir, n: nat): nat
    requires n < |trace|
  {
    if n == 0 then 0 else RestartsRun(trace, d, n - 1) + One(RestartRuns(trace[n - 1], trace[n], d))
  }

  function SuppressesRun(trace: seq<State>, d: Dir, n: nat): nat
    requires n < |trace|
  {
    if n == 0 then 0 else SuppressesRun(trace, d, n - 1) + One(SuppressRuns(trace[n - 1], trace[n], d))
  }

  /** What the descriptor started with, plus restarts run, less suppressions run. */
  function Outstanding(trace: seq<State>, d: Dir, n: nat): int
    requires n < |trace|
  {
    One(Ch(trace[0].v, d).inMask) + RestartsRun(trace, d, n) - SuppressesRun(trace, d, n)
  }

  function LoopRestarts(l: LoopPc, d: Dir): nat { One(l == Running(OnChannel(d, RestartNow))) }

  function LoopCounts(v: Vars, l: LoopPc, d: Dir): int {
    if !v.enabled then 0
    else LoopRestarts(l, d) - One(l == Running(OnChannel(d, SuppressTest)))
  }

  lemma RearmRestarts(v: Vars, d: Dir)
    ensures Ch(Rearm(v), d).restarts == Ch(v, d).restarts
  {
    if d == Read {} else {}
  }

  lemma WithChRestarts(v: Vars, e: Dir, c: Channel, d: Dir)
    ensures Ch(WithCh(v, e, c), d).restarts == if d == e then c.restarts else Ch(v, d).restarts
  {
    if d == Read {} else {}
  }

  lemma CountRestarts(v: Vars, e: Dir, d: Dir)
    ensures Ch(CountSuppress(v, e), d).restarts == Ch(v, d).restarts - One(d == e)
    ensures Ch(CountRestart(v, e), d).restarts == Ch(v, d).restarts + One(d == e)
  {
    var c := Ch(v, e);
    if d == Read {
      assert Ch(CountSuppress(v, e), d).restarts == Ch(v, d).restarts - One(d == e);
    } else {
      assert Ch(CountSuppress(v, e), d).restarts == Ch(v, d).restarts - One(d == e);
    }
  }

  lemma ChannelRestarts(v: Vars, e: Dir, p: ChannelPc, d: Dir)
    ensures Ch(ChannelEffect(v, e, p).v, d).restarts
            == Ch(v, d).restarts + LoopCounts(v, Running(OnChannel(e, p)), d)
    ensures p.RestartNow? || p.SuppressTest? ==> ChannelEffect(v, e, p).next != Running(OnChannel(e, p))
  {
    hide CountSuppress, CountRestart, WithCh, Rearm, Ch;
    match p
    case ResetNow => WithChRestarts(v, e, Ch(v, e).(events := 0, unseen := false, left := true), d);
    case SuppressStore => WithChRestarts(v, e, Ch(v, e).(events := 0, unseen := false, rearmed := false), d);
    case SuppressTest =>
      CountRestarts(v, e, d);
      RearmRestarts(CountSuppress(v, e), d);
    case RestartNow =>
      CountRestarts(v, e, d);
      RearmRestarts(CountRestart(v, e), d);
  }

  lemma FireRestarts(v: Vars, p: FirePc, d: Dir)
    ensures Ch(FireEffect(v, p).v, d).restarts == Ch(v, d).restarts
  {
    hide WithCh, Ch;
    FireOneRestarts(v, Read, p.Fire? && p.write, d);
    FireOneRestarts(v, Write, false, d);
    hide FireOne;
    match p
    case Fire(_, _) =>
    case StartFiber(_, _) =>
    case ErrorExchange => SameChannels(v, FireEffect(v, p).v, d);
    case ErrorAdd => SameChannels(v, FireEffect(v, p).v, d);
    case ErrorStart =>
  }

  lemma FireOneRestarts(v: Vars, e: Dir, rest: bool, d: Dir)
    ensures Ch(FireOne(v, e, rest).v, d).restarts == Ch(v, d).restarts
  {
    hide WithCh;
    WithChRestarts(v, e, Ch(v, e).(events := Ch(v, e).events + 1, unseen := true), d);
  }

  lemma SameChannels(v: Vars, u: Vars, d: Dir)
    requires u.r.restarts == v.r.restarts && u.w.restarts == v.w.restarts
    ensures Ch(u, d).restarts == Ch(v, d).restarts
  {
  }

  lemma ClosingRestarts(v: Vars, p: ClosingPc, d: Dir)
    ensures Ch(ClosingEffect(v, p).v, d).restarts == Ch(v, d).restarts
  {
    hide Ch;
    match p
    case DisableNow => SameChannels(v, ClosingEffect(v, p).v, d);
    case SetPending => SameChannels(v, ClosingEffect(v, p).v, d);
    case CleanupTest => SameChannels(v, ClosingEffect(v, p).v, d);
    case Detach => SameChannels(v, ClosingEffect(v, p).v, d);
    case CallOnCleanup => SameChannels(v, ClosingEffect(v, p).v, d);
  }

  lemma CheckRestarts(v: Vars, p: CheckPc, d: Dir)
    ensures Ch(CheckStep(v, p).v, d).restarts == Ch(v, d).restarts
  {
    hide Ch;
    SameChannels(v, CheckStep(v, p).v, d);
  }

  lemma LoopRestartsOf(v: Vars, l: LoopPc, d: Dir)
    ensures Ch(LoopEffect(v, l).v, d).restarts == Ch(v, d).restarts + LoopCounts(v, l, d)
    ensures LoopCounts(v, l, d) != 0 ==> LoopEffect(v, l).next != l
  {
    hide FireEffect, ClosingEffect, ChannelEffect, CheckStep, Resume, Ch;
    match l
    case Idle =>
    case Firing(p) => FireRestarts(v, p, d);
    case Running(Closing(p)) => ClosingRestarts(v, p, d);
    case Running(OnChannel(e, p)) => ChannelRestarts(v, e, p, d);
    case LoopChecking(p, _) => CheckRestarts(v, p, d);
  }

  lemma StepRestarts(s: State, l: Label, t: State, d: Dir)
    requires Inv(s) && Next(s, l) == Some(t)
    ensures Ch(t.v, d).restarts
            == Ch(s.v, d).restarts + One(RestartRuns(s, t, d)) - One(SuppressRuns(s, t, d))
  {
    hide Inv, LoopEffect, FiberEffect;
    match l
    case LoopStep => LoopRestartsOf(s.v, s.loop, d);
    case FiberStep(i, a) => FiberStepIsQuiet(s, i, a, FiberEffect(s.v, s.fibers[i], a).value);
    case _ =>
  }

  /** The restart counter is the difference of restarts and suppressions run, as its
      comment says, in every state of every run. */
  lemma {:induction false} RestartsAccounted(trace: seq<State>, n: nat, d: Dir)
    requires Descriptor.Run(trace) && n < |trace|
    ensures Ch(trace[n].v, d).restarts == Outstanding(trace, d, n)
  {
    hide Inv, Next, RestartRuns, SuppressRuns, Init, Ch;
    if n == 0 {
      InitRestarts(trace[0], d);
    } else {
      RestartsAccounted(trace, n - 1, d);
      RunInv(trace, n - 1);
      assert Step(trace[n - 1], trace[n]);
      var l: Label :| Next(trace[n - 1], l) == Some(trace[n]);
      StepRestarts(trace[n - 1], l, trace[n], d);
    }
  }

  lemma InitRestarts(s: State, d: Dir)
    requires Init(s)
    ensures Ch(s.v, d).restarts == One(Ch(s.v, d).inMask)
  {
  }

  /** The checks on the number of write restarts hold up to a state if and only if, at
      every write restart run before it while the descriptor was enabled, not more than
      one was outstanding, counting the one the descriptor may start with. */
  lemma WriteChecksExactly(trace: seq<State>, n: nat)
    requires Descriptor.Run(trace) && n < |trace|
    ensures trace[n].v.writeChecks
            <==> forall k: nat | k < n && RestartRuns(trace[k], trace[k + 1], Write) ::
                   Outstanding(trace, Write, k) <= 1
  {
    hide Outstanding;
    WriteChecksFail(trace, n);
    forall k: nat | k < n
      ensures ThirdWriteRestart(trace[k], trace[k + 1])
              <==> RestartRuns(trace[k], trace[k + 1], Write) && Outstanding(trace, Write, k) > 1
    {
      RestartsAccounted(trace, k, Write);
    }
  }

  // ---------------------------------------------------------------- calls made

  /** A run with the steps that made it. */
  ghost predicate Labelled(trace: seq<State>, labels: seq<Label>) {
    && |trace| == |labels| + 1 && Init(trace[0])
    && forall k: nat | k < |labels| :: Next(trace[k], labels[k]) == Some(trace[k + 1])
  }

  lemma LabelledIsRun(trace: seq<State>, labels: seq<Label>)
    requires Labelled(trace, labels)
    ensures Descriptor.Run(trace)
  {
    forall k | 0 < k < |trace| ensures Step(trace[k - 1], trace[k]) {
      assert Next(trace[k - 1], labels[k - 1]) == Some(trace[k]);
    }
  }

  /** Every run has such steps. */
  lemma {:induction false} RunIsLabelled(trace: seq<State>) returns (labels: seq<Label>)
    requires Descriptor.Run(trace)
    ensures Labelled(trace, labels)
    decreases |trace|
  {
    hide Next, Init;
    var n := |trace| - 1;
    if n == 0 {
      labels := [];
    } else {
      var shorter := RunIsLabelled(trace[..n]);
      assert Step(trace[n - 1], trace[n]);
      var l: Label :| Next(trace[n - 1], l) == Some(trace[n]);
      labels := shorter + [l];
    }
  }

  /** The callback of `d` returns `Suppress` in this step. */
  predicate SuppressReturns(s: State, l: Label, d: Dir) {
    l.FiberStep? && l.a == AskSuppress && l.i < |s.fibers| && s.fibers[l.i] == Handling(d, InCallback)
  }

  function Calls(labels: seq<Label>, d: Dir, n: nat): nat
    requires n <= |labels|
  {
    if n == 0 then 0 else Calls(labels, d, n - 1) + One(labels[n - 1] == RestartCall(d))
  }

  function Returns(trace: seq<State>, labels: seq<Label>, d: Dir, n: nat): nat
    requires n <= |labels| <= |trace|
  {
    if n == 0 then 0
    else Returns(trace, labels, d, n - 1) + One(SuppressReturns(trace[n - 1], labels[n - 1], d))
  }

  function CallbackWeight(d: Dir): Pc -> nat { (pc: Pc) => One(pc == Handling(d, InCallback)) }
  function SuppressingFiber(d: Dir): Pc -> nat { (pc: Pc) => One(pc == Handling(d, PostSuppress)) }
  function SuppressingTask(d: Dir): Task -> nat { (x: Task) => One(x == Suppress(d)) }
  function RestartingTask(d: Dir): Task -> nat { (x: Task) => One(x == Restart(d)) }

  function LoopSuppresses(l: LoopPc, d: Dir): nat {
    match l
    case Running(p) => One(p == OnChannel(d, SuppressStore) || p == OnChannel(d, SuppressTest))
    case LoopChecking(_, after) => One(after == Tail(d))
    case _ => 0
  }

  /** Suppressions returned and not yet run. */
  function Suppressing(s: State, d: Dir): nat {
    Sum(s.fibers, SuppressingFiber(d)) + Sum(s.tasks, SuppressingTask(d)) + LoopSuppresses(s.loop, d)
  }

  /** Restarts called and not yet run. */
  function Restarting(s: State, d: Dir): nat {
    Sum(s.tasks, RestartingTask(d)) + LoopRestarts(s.loop, d)
  }

  /** The counter as it will be once all that was asked for has run. */
  function Balance(s: State, d: Dir): int {
    Ch(s.v, d).restarts + Restarting(s, d) - Suppressing(s, d)
  }

  /** A callback in progress and a suppression in progress exclude each other, and there is
      never more than one of them. */
  lemma OneAtATime(s: State, d: Dir)
    requires Inv(s)
    ensures Sum(s.fibers, CallbackWeight(d)) + Suppressing(s, d) <= 1
  {
    SumOfTwo(s.fibers, CallbackWeight(d), SuppressingFiber(d), FiberWeight(Own(d)));
    SumMonotone(s.tasks, SuppressingTask(d), TaskWeight(Own(d)));
    assert Total(s, Own(d)) == One(Ch(s.v, d).events > 0);
    assert LoopSuppresses(s.loop, d) > 0 ==> OfLoop(s.loop, Own(d)) == 1 || Ch(s.v, d).events == 0;
  }

  // ------------------------------------------------------------ steps and balance

  /** What a step of the event loop leaves for later. */
  lemma LoopLeaves(v: Vars, l: LoopPc, d: Dir)
    requires v.enabled
    ensures var e := LoopEffect(v, l);
            && LoopRestarts(e.next, d) == 0
            && LoopSuppresses(e.next, d) == LoopSuppresses(l, d) - One(l == Running(OnChannel(d, SuppressTest)))
            && (e.posted.Some? ==> e.posted.value == Cleanup)
            && (e.spawned.Some? ==> !(e.spawned.value.Handling? && !e.spawned.value.event.Started?))
  {
    match l
    case Idle =>
    case Firing(p) => FireLeaves(v, p, d);
    case Running(Closing(p)) => ClosingLeaves(v, p, d);
    case Running(OnChannel(e, p)) => ChannelLeaves(v, e, p, d);
    case LoopChecking(p, after) => CheckLeaves(v, p, after, d);
  }

  lemma FireLeaves(v: Vars, p: FirePc, d: Dir)
    ensures var e := FireEffect(v, p);
            && LoopRestarts(e.next, d) == 0 && LoopSuppresses(e.next, d) == 0 && e.posted.None?
            && (e.spawned.Some? ==> !(e.spawned.value.Handling? && !e.spawned.value.event.Started?))
  {
    match p case Fire(_, _) => case StartFiber(_, _) => case ErrorExchange => case ErrorAdd => case ErrorStart =>
  }

  lemma ClosingLeaves(v: Vars, p: ClosingPc, d: Dir)
    ensures var e := ClosingEffect(v, p);
            LoopRestarts(e.next, d) == 0 && LoopSuppresses(e.next, d) == 0 && e.posted.None? && e.spawned.None?
  {
    match p case DisableNow => case SetPending => case CleanupTest => case Detach => case CallOnCleanup =>
  }

  lemma ChannelLeaves(v: Vars, c: Dir, p: ChannelPc, d: Dir)
    requires v.enabled
    ensures var e := ChannelEffect(v, c, p);
            && LoopRestarts(e.next, d) == 0 && e.posted.None? && e.spawned.None?
            && LoopSuppresses(e.next, d) == One(p.SuppressStore? && c == d)
  {
    hide CountSuppress, CountRestart, RestartEnabled, WithCh, Rearm;
    match p case ResetNow => case SuppressStore => case SuppressTest => case RestartNow =>
  }

  lemma CheckLeaves(v: Vars, p: CheckPc, after: After, d: Dir)
    ensures var e := LoopEffect(v, LoopChecking(p, after));
            && LoopRestarts(e.next, d) == 0 && LoopSuppresses(e.next, d) == One(after == Tail(d))
            && e.spawned.None? && (e.posted.Some? ==> e.posted.value == Cleanup)
  {
    match p case LoadPending => case LoadRead => case LoadWrite => case LoadError => case Exchange => case Post =>
  }

  lemma AddedWeight<T>(s: seq<T>, x: Option<T>, w: T -> nat)
    ensures Sum(AndThen(s, x), w) == Sum(s, w) + (if x.Some? then w(x.value) else 0)
  {
    if x.Some? {
      SumAppend(s, x.value, w);
    }
  }

  /** A step of the event loop moves what was asked for into the counter. */
  lemma LoopBalance(s: State, t: State, d: Dir)
    requires s.v.enabled && Next(s, LoopStep) == Some(t)
    ensures Balance(t, d) == Balance(s, d)
    ensures Ch(t.v, d).restarts + Restarting(t, d) <= Ch(s.v, d).restarts + Restarting(s, d)
  {
    hide LoopEffect, LoopSuppresses, Ch;
    var e := LoopEffect(s.v, s.loop);
    LoopLeaves(s.v, s.loop, d);
    LoopRestartsOf(s.v, s.loop, d);
    AddedWeight(s.tasks, e.posted, SuppressingTask(d));
    AddedWeight(s.tasks, e.posted, RestartingTask(d));
    AddedWeight(s.fibers, e.spawned, SuppressingFiber(d));
  }

  /** A fiber only adds a suppression it has been asked for. */
  lemma FiberBalance(s: State, i: nat, a: Action, t: State, d: Dir)
    requires Inv(s) && Next(s, FiberStep(i, a)) == Some(t)
    ensures Balance(t, d) == Balance(s, d) - One(SuppressReturns(s, FiberStep(i, a), d))
    ensures Ch(t.v, d).restarts + Restarting(t, d) == Ch(s.v, d).restarts + Restarting(s, d)
  {
    hide Inv, FiberEffect;
    var e := FiberEffect(s.v, s.fibers[i], a).value;
    FiberStepIsQuiet(s, i, a, e);
    FiberLeaves(s.v, s.fibers[i], a, e, d);
    SumUpdate(s.fibers, i, e.next, SuppressingFiber(d));
    AddedWeight(s.tasks, e.posted, SuppressingTask(d));
    AddedWeight(s.tasks, e.posted, RestartingTask(d));
  }

  lemma FiberLeaves(v: Vars, pc: Pc, a: Action, e: Effect<Pc>, d: Dir)
    requires FiberEffect(v, pc, a) == Some(e)
    ensures e.spawned.None? && (e.posted.Some? ==> !e.posted.value.Restart?)
    ensures SuppressingFiber(d)(e.next) + (if e.posted.Some? then SuppressingTask(d)(e.posted.value) else 0)
            == SuppressingFiber(d)(pc) + One(pc == Handling(d, InCallback) && a == AskSuppress)
  {
    match pc
    case Handling(c, p) => HandlingLeaves(v, c, p, a, e, d);
    case HandlingError(p) =>
      match p { case ErrorStarted => case InError => case ErrorDecrement => }
    case Checking(p) =>
      match p { case LoadPending => case LoadRead => case LoadWrite => case LoadError => case Exchange => case Post => }
    case KillPost =>
  }

  lemma HandlingLeaves(v: Vars, c: Dir, p: EventPc, a: Action, e: Effect<Pc>, d: Dir)
    requires HandlingEffect(v, c, p, a) == Some(e)
    ensures e.spawned.None? && (e.posted.Some? ==> !e.posted.value.Restart?)
    ensures SuppressingFiber(d)(e.next) + (if e.posted.Some? then SuppressingTask(d)(e.posted.value) else 0)
            == SuppressingFiber(d)(Handling(c, p)) + One(c == d && p == InCallback && a == AskSuppress)
  {
    hide WithCh, Ch;
    match p
    case Started =>
    case InCallback => match a { case Ready => case Leaving => case AskSuppress => }
    case Decrement =>
    case PostReset =>
    case PostSuppress =>
  }

  lemma NoReturn(s: State, l: Label, d: Dir)
    ensures SuppressReturns(s, l, d) ==> l.FiberStep?
  {
  }

  lemma KillBalance(s: State, d: Dir)
    ensures var t := s.(v := s.v.(killed := true), fibers := s.fibers + [KillPost]);
            && Balance(t, d) == Balance(s, d) && Restarting(t, d) == Restarting(s, d)
            && Ch(t.v, d).restarts == Ch(s.v, d).restarts
  {
    hide Sum;
    SumAppend(s.fibers, KillPost, SuppressingFiber(d));
  }

  lemma CallBalance(s: State, e: Dir, d: Dir)
    ensures var t := s.(tasks := s.tasks + [Restart(e)]);
            && Balance(t, d) == Balance(s, d) + One(e == d)
            && Restarting(t, d) == Restarting(s, d) + One(e == d)
  {
    hide Sum;
    SumAppend(s.tasks, Restart(e), SuppressingTask(d));
    SumAppend(s.tasks, Restart(e), RestartingTask(d));
  }

  lemma PollBalance(s: State, t: State, d: Dir)
    requires s.loop.Idle? && t.loop.Firing? && t == s.(loop := t.loop)
    ensures Balance(t, d) == Balance(s, d) && Restarting(t, d) == Restarting(s, d)
  {
  }

  /** Taking a task off the queue leaves it to the event loop. */
  lemma TaskBalance(s: State, d: Dir)
    requires s.loop.Idle? && s.tasks != []
    ensures var t := s.(tasks := s.tasks[1..], loop := Running(Entry(s.tasks[0])));
            Balance(t, d) == Balance(s, d) && Restarting(t, d) == Restarting(s, d)
  {
  }

  /** While the descriptor is enabled, a step changes the balance by a call or a return, and
      only a call adds to the counter and the restarts to come. */
  lemma StepBalance(s: State, l: Label, t: State, d: Dir)
    requires Inv(s) && s.v.enabled && Next(s, l) == Some(t)
    ensures Balance(t, d) == Balance(s, d) + One(l == RestartCall(d)) - One(SuppressReturns(s, l, d))
    ensures Ch(t.v, d).restarts + Restarting(t, d)
            <= Ch(s.v, d).restarts + Restarting(s, d) + One(l == RestartCall(d))
  {
    hide Inv, Ch, Balance, Restarting, SuppressReturns;
    NoReturn(s, l, d);
    match l
    case KillCall => KillBalance(s, d);
    case RestartCall(e) => CallBalance(s, e, d);
    case Poll(_, _) => PollBalance(s, t, d);
    case PollError => PollBalance(s, t, d);
    case RunTask => TaskBalance(s, d);
    case LoopStep => LoopBalance(s, t, d);
    case FiberStep(i, a) => FiberBalance(s, i, a, t, d);
  }

  lemma EnabledBefore(s: State, l: Label, t: State)
    requires Inv(s) && Next(s, l) == Some(t) && t.v.enabled
    ensures s.v.enabled
  {
    if !l.RunTask? {
      hide Next;
      StepAppends(s, l, t);
      if s.loop == Disabler() {
        OnlyEnabledIsDisabled(s);
      }
    }
  }

  /** The disable task runs only once. */
  lemma OnlyEnabledIsDisabled(s: State)
    requires Inv(s) && s.loop == Disabler()
    ensures s.v.enabled
  {
  }

  // ------------------------------------------------------------- what callers see

  /** As long as the descriptor is enabled, the counter, corrected by the tasks under way,
      is what callers can count for themselves: calls of RestartRead() or RestartWrite()
      less returns of `Suppress`. */
  lemma {:induction false} BalanceIsHistory(trace: seq<State>, labels: seq<Label>, d: Dir, n: nat)
    requires Labelled(trace, labels) && n <= |labels| && trace[n].v.enabled
    ensures Balance(trace[n], d)
            == One(Ch(trace[0].v, d).inMask) + Calls(labels, d, n) - Returns(trace, labels, d, n)
  {
    hide Inv, Next, Init, Balance, SuppressReturns, Ch, Descriptor.Run;
    LabelledIsRun(trace, labels);
    if n == 0 {
      InitBalance(trace[0], d);
    } else {
      RunInv(trace, n - 1);
      assert Next(trace[n - 1], labels[n - 1]) == Some(trace[n - 1 + 1]);
      EnabledBefore(trace[n - 1], labels[n - 1], trace[n]);
      BalanceIsHistory(trace, labels, d, n - 1);
      StepBalance(trace[n - 1], labels[n - 1], trace[n], d);
    }
  }

  lemma InitBalance(s: State, d: Dir)
    requires Init(s)
    ensures Balance(s, d) == One(Ch(s.v, d).inMask) && Ch(s.v, d).restarts + Restarting(s, d) <= 1
  {
  }

  ghost predicate InCallbackOf(s: State, d: Dir) {
    exists i: nat :: i < |s.fibers| && s.fibers[i] == Handling(d, InCallback)
  }

  /** A restart answers a suppression that was returned, or one that a callback in progress
      is about to return. */
  ghost predicate Disciplined(trace: seq<State>, labels: seq<Label>, d: Dir)
    requires Labelled(trace, labels)
  {
    forall k: nat | k < |labels| && labels[k] == RestartCall(d) ::
      Calls(labels, d, k) < Returns(trace, labels, d, k) + One(InCallbackOf(trace[k], d))
                            + One(!Ch(trace[0].v, d).inMask)
  }

  /** A call by the rule is made when at most one restart counts or is to come. */
  lemma CallByTheRule(s: State, d: Dir)
    requires Inv(s) && Balance(s, d) <= One(InCallbackOf(s, d))
    ensures Ch(s.v, d).restarts + Restarting(s, d) <= 1
  {
    OneAtATime(s, d);
    if InCallbackOf(s, d) {
      var i: nat :| i < |s.fibers| && s.fibers[i] == Handling(d, InCallback);
      SumAtLeast(s.fibers, i, CallbackWeight(d));
    }
  }

  lemma {:induction false} AtMostTwo(trace: seq<State>, labels: seq<Label>, d: Dir, n: nat)
    requires Labelled(trace, labels) && Disciplined(trace, labels, d) && n <= |labels| && trace[n].v.enabled
    ensures Ch(trace[n].v, d).restarts + Restarting(trace[n], d) <= 2
  {
    hide Inv, Next, Init, Balance, SuppressReturns, Ch, Restarting, InCallbackOf, Descriptor.Run;
    LabelledIsRun(trace, labels);
    if n == 0 {
      InitBalance(trace[0], d);
    } else {
      var s, l := trace[n - 1], labels[n - 1];
      RunInv(trace, n - 1);
      assert Next(s, l) == Some(trace[n - 1 + 1]);
      EnabledBefore(s, l, trace[n]);
      AtMostTwo(trace, labels, d, n - 1);
      StepBalance(s, l, trace[n], d);
      if l == RestartCall(d) {
        BalanceIsHistory(trace, labels, d, n - 1);
        CallByTheRule(s, d);
      }
    }
  }

  /** If RestartWrite() is called only to answer a suppression that was or will be returned,
      the checks on the number of write restarts never fail. */
  lemma WriteChecksForCallers(trace: seq<State>, labels: seq<Label>, n: nat)
    requires Labelled(trace, labels) && Disciplined(trace, labels, Write) && n < |trace|
    ensures trace[n].v.writeChecks
  {
    hide Disciplined, Labelled, Descriptor.Run;
    LabelledIsRun(trace, labels);
    LabelledLength(trace, labels);
    WriteChecksFail(trace, n);
    forall k: nat | k < n ensures !ThirdWriteRestart(trace[k], trace[k + 1]) {
      if trace[k].v.enabled {
        AtMostTwo(trace, labels, Write, k);
      }
    }
  }

  /** Every run has a history of calls and returns of which both hold. */
  lemma HistoryOfAnyRun(trace: seq<State>) returns (labels: seq<Label>)
    requires Descriptor.Run(trace)
    ensures Labelled(trace, labels)
    ensures forall d: Dir, n: nat | n < |trace| && trace[n].v.enabled ::
              Balance(trace[n], d)
              == One(Ch(trace[0].v, d).inMask) + Calls(labels, d, n) - Returns(trace, labels, d, n)
    ensures Disciplined(trace, labels, Write) ==> forall n: nat | n < |trace| :: trace[n].v.writeChecks
  {
    hide Balance, Disciplined, Labelled, Descriptor.Run, Ch, Calls, Returns;
    labels := RunIsLabelled(trace);
    LabelledLength(trace, labels);
    forall d: Dir, n: nat | n < |trace| && trace[n].v.enabled
      ensures Balance(trace[n], d)
              == One(Ch(trace[0].v, d).inMask) + Calls(labels, d, n) - Returns(trace, labels, d, n)
    {
      BalanceIsHistory(trace, labels, d, n);
    }
    if Disciplined(trace, labels, Write) {
      forall n: nat | n < |trace| ensures trace[n].v.writeChecks {
        WriteChecksForCallers(trace, labels, n);
      }
    }
  }

  lemma LabelledLength(trace: seq<State>, labels: seq<Label>)
    requires Labelled(trace, labels)
    ensures |trace| == |labels| + 1
  {
  }
}
