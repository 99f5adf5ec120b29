/** Every event the poller reports is counted once, every event counted is followed by a
    callback, and the first error report leads to one call of OnError(). */
module DescriptorEvents {
  import opened Counting
  import opened Prelude
  import opened Descriptor
  import opened DescriptorInvariant
  import opened DescriptorSafety
  import opened DescriptorRestarts

  // -------------------------------------------------------------- what is counted

  /** The counter of `d` goes up in this step. */
  predicate Increments(s: State, t: State, d: Dir) {
    Ch(t.v, d).events == Ch(s.v, d).events + 1
  }

  /** A suppress task ends with restarts left, which stand for events not looked at. */
  predicate Resumes(s: State, t: State, d: Dir) {
    SuppressRuns(s, t, d) && Ch(t.v, d).restarts != 0
  }

  predicate Reports(l: Label, d: Dir) {
    l.Poll? && if d.Read? then l.read else l.write
  }

  function Incremented(trace: seq<State>, d: Dir, n: nat): nat
    requires n < |trace|
  {
    if n == 0 then 0 else Incremented(trace, d, n - 1) + One(Increments(trace[n - 1], trace[n], d))
  }

  function Resumed(trace: seq<State>, d: Dir, n: nat): nat
    requires n < |trace|
  {
    if n == 0 then 0 else Resumed(trace, d, n - 1) + One(Resumes(trace[n - 1], trace[n], d))
  }

  function Reported(labels: seq<Label>, d: Dir, n: nat): nat
    requires n <= |labels|
  {
    if n == 0 then 0 else Reported(labels, d, n - 1) + One(Reports(labels[n - 1], d))
  }

  /** Whether the event loop is still to increment the counter of `d`. */
  predicate Owes(l: LoopPc, d: Dir) {
    match l
    case Firing(Fire(read, write)) => if d.Read? then read else write
    case Firing(StartFiber(_, write)) => d.Write? && write
    case _ => false
  }

  // ---------------------------------------------------------- steps of the event loop

  predicate FiresNow(l: LoopPc, d: Dir) {
    l.Firing? && l.fire.Fire? && if d.Read? then l.fire.read else !l.fire.read && l.fire.write
  }

  predicate Clears(l: LoopPc, d: Dir) {
    l == Running(OnChannel(d, ResetNow)) || l == Running(OnChannel(d, SuppressStore))
  }

  /** What a step does to one direction. */
  predicate Pulse(c: Channel, c': Channel, fires: bool, clears: bool) {
    && (if fires then c'.events == c.events + 1 && c'.unseen else c'.events <= c.events)
    && (c.unseen && !c'.unseen ==> clears)
  }

  predicate SamePulse(v: Vars, u: Vars) {
    && u.r.events == v.r.events && u.r.unseen == v.r.unseen
    && u.w.events == v.w.events && u.w.unseen == v.w.unseen
  }

  lemma SameIsPulse(v: Vars, u: Vars, d: Dir)
    requires SamePulse(v, u)
    ensures Pulse(Ch(v, d), Ch(u, d), false, false)
  {
    match d case Read => case Write =>
  }

  lemma WithChIs(v: Vars, e: Dir, c: Channel, d: Dir)
    ensures Ch(WithCh(v, e, c), d) == if d == e then c else Ch(v, d)
  {
    match d case Read => case Write =>
  }

  lemma FireOnePulse(v: Vars, e: Dir, rest: bool, d: Dir)
    ensures Pulse(Ch(v, d), Ch(FireOne(v, e, rest).v, d), d == e, false)
    ensures Owes(FireOne(v, e, rest).next, d) == (d.Write? && rest)
  {
    hide WithCh, Ch;
    WithChIs(v, e, Ch(v, e).(events := Ch(v, e).events + 1, unseen := true), d);
  }

  lemma FirePulse(v: Vars, p: FirePc, d: Dir)
    ensures var e := FireEffect(v, p);
            && Pulse(Ch(v, d), Ch(e.v, d), FiresNow(Firing(p), d), false)
            && One(Owes(e.next, d)) + One(FiresNow(Firing(p), d)) == One(Owes(Firing(p), d))
  {
    hide FireOne, Ch;
    match p
    case Fire(read, write) =>
      FireOnePulse(v, Read, write, d);
      FireOnePulse(v, Write, false, d);
    case StartFiber(_, _) =>
    case ErrorExchange => SameIsPulse(v, FireEffect(v, p).v, d);
    case ErrorAdd => SameIsPulse(v, FireEffect(v, p).v, d);
    case ErrorStart =>
  }

  lemma ClosingPulse(v: Vars, p: ClosingPc, d: Dir)
    ensures Pulse(Ch(v, d), Ch(ClosingEffect(v, p).v, d), false, false) && !ClosingEffect(v, p).next.Firing?
  {
    hide Ch;
    SameIsPulse(v, ClosingEffect(v, p).v, d);
  }

  lemma CountPulse(v: Vars, d: Dir)
    ensures SamePulse(v, CountSuppress(v, d)) && SamePulse(v, CountRestart(v, d))
  {
    hide CountSuppress, CountRestart;
    CountSameEvents(v, d);
  }

  lemma ClearPulse(v: Vars, e: Dir, c: Channel, d: Dir)
    requires c.events == 0
    ensures Pulse(Ch(v, d), Ch(WithCh(v, e, c), d), false, d == e)
  {
    hide WithCh, Ch;
    WithChIs(v, e, c, d);
  }

  lemma ChannelPulse(v: Vars, e: Dir, p: ChannelPc, d: Dir)
    ensures Pulse(Ch(v, d), Ch(ChannelEffect(v, e, p).v, d), false, Clears(Running(OnChannel(e, p)), d))
  {
    hide CountSuppress, CountRestart, WithCh, Ch;
    match p
    case ResetNow => ClearPulse(v, e, Ch(v, e).(events := 0, unseen := false, left := true), d);
    case SuppressStore => ClearPulse(v, e, Ch(v, e).(events := 0, unseen := false, rearmed := false), d);
    case SuppressTest =>
      CountPulse(v, e);
      SameIsPulse(v, ChannelEffect(v, e, p).v, d);
    case RestartNow =>
      CountPulse(v, e);
      SameIsPulse(v, ChannelEffect(v, e, p).v, d);
  }

  lemma ChannelOwes(v: Vars, e: Dir, p: ChannelPc, d: Dir)
    ensures var x := ChannelEffect(v, e, p);
            && Owes(x.next, d) == (p.SuppressTest? && d == e && v.enabled && Ch(x.v, d).restarts != 0)
            && (p.SuppressTest? ==> !x.next.Running?)
  {
    hide CountSuppress, CountRestart, WithCh, Ch, Rearm;
    if p.SuppressTest? && d == e {
      RearmRestarts(CountSuppress(v, d), d);
    }
  }

  lemma CheckPulse(v: Vars, p: CheckPc, after: After, d: Dir)
    ensures var e := LoopEffect(v, LoopChecking(p, after));
            Pulse(Ch(v, d), Ch(e.v, d), false, false) && !e.next.Firing?
  {
    hide Ch;
    SameIsPulse(v, LoopEffect(v, LoopChecking(p, after)).v, d);
  }

  lemma LoopPulse(v: Vars, l: LoopPc, d: Dir)
    ensures var e := LoopEffect(v, l);
            && Pulse(Ch(v, d), Ch(e.v, d), FiresNow(l, d), Clears(l, d))
            && var resumes := l == Running(OnChannel(d, SuppressTest)) && v.enabled && Ch(e.v, d).restarts != 0;
               One(Owes(e.next, d)) + One(FiresNow(l, d)) == One(Owes(l, d)) + One(resumes)
    ensures l == Running(OnChannel(d, SuppressTest)) ==> LoopEffect(v, l).next != l
  {
    hide FireEffect, ClosingEffect, ChannelEffect, CheckStep, Resume, Ch;
    match l
    case Idle =>
    case Firing(p) => FirePulse(v, p, d);
    case Running(Closing(p)) => ClosingPulse(v, p, d);
    case Running(OnChannel(e, p)) =>
      ChannelPulse(v, e, p, d);
      ChannelOwes(v, e, p, d);
    case LoopChecking(p, after) => CheckPulse(v, p, after, d);
  }

  // -------------------------------------------------------------------- every step

  lemma FiberPulse(s: State, i: nat, a: Action, e: Effect<Pc>, d: Dir)
    requires Inv(s) && i < |s.fibers| && FiberEffect(s.v, s.fibers[i], a) == Some(e)
    ensures Ch(e.v, d).events <= Ch(s.v, d).events
  {
    hide Inv, FiberEffect;
    FiberStepIsQuiet(s, i, a, e);
  }

  /** What a step adds to either side. */
  lemma StepCounts(s: State, l: Label, t: State, d: Dir)
    requires Inv(s) && Next(s, l) == Some(t)
    ensures One(Increments(s, t, d)) + One(Owes(t.loop, d))
            == One(Owes(s.loop, d)) + One(Reports(l, d)) + One(Resumes(s, t, d))
  {
    hide Inv, LoopEffect, FiberEffect, Ch;
    match l
    case LoopStep => LoopPulse(s.v, s.loop, d);
    case FiberStep(i, a) => FiberPulse(s, i, a, FiberEffect(s.v, s.fibers[i], a).value, d);
    case KillCall => SameEventsAfterKill(s, t, d);
    case _ =>
  }

  lemma SameEventsAfterKill(s: State, t: State, d: Dir)
    requires Next(s, KillCall) == Some(t)
    ensures Ch(t.v, d) == Ch(s.v, d)
  {
    match d case Read => case Write =>
  }

  /** The increments of a counter so far, and the one the event loop may still owe it, are the
      events the poller has reported and those a suppress task has stood in for. */
  lemma {:induction false} EventsAccounted(trace: seq<State>, labels: seq<Label>, d: Dir, n: nat)
    requires Labelled(trace, labels) && n < |trace|
    ensures Incremented(trace, d, n) + One(Owes(trace[n].loop, d))
            == Reported(labels, d, n) + Resumed(trace, d, n)
    decreases n
  {
    hide Inv, Next, Init, Increments, Resumes, Reports, Descriptor.Run;
    LabelledIsRun(trace, labels);
    if n == 0 {
      InitOwes(trace[0], d);
    } else {
      RunInv(trace, n - 1);
      assert Next(trace[n - 1], labels[n - 1]) == Some(trace[n - 1 + 1]);
      EventsAccounted(trace, labels, d, n - 1);
      StepCounts(trace[n - 1], labels[n - 1], trace[n], d);
    }
  }

  lemma InitOwes(s: State, d: Dir)
    requires Init(s)
    ensures !Owes(s.loop, d)
  {
  }

  // ------------------------------------------------------------- one report at a time

  /** The event loop does nothing else between a report and its end. */
  lemma FiringGoesOn(s: State, l: Label, t: State)
    requires Next(s, l) == Some(t) && s.loop.Firing?
    ensures (t.loop.Firing? || t.loop.Idle?) && !l.Poll?
  {
    hide FireOne;
    match l
    case LoopStep =>
      match s.loop.fire { case Fire(_, _) => FireOneFires(s.v, s.loop.fire.write); case _ => }
    case _ =>
  }

  lemma FireOneFires(v: Vars, write: bool)
    ensures FireOne(v, Read, write).next.Firing? && FireOne(v, Write, false).next.Firing?
  {
  }

  lemma {:induction false} WhileFiring(trace: seq<State>, labels: seq<Label>, d: Dir, k: nat, m: nat)
    requires Labelled(trace, labels) && k < m <= |labels| && labels[k].Poll?
    requires forall j | k < j < m :: !trace[j].loop.Idle?
    ensures trace[m].loop.Firing? || trace[m].loop.Idle?
    ensures Reported(labels, d, m) == Reported(labels, d, k) + One(Reports(labels[k], d))
    ensures Resumed(trace, d, m) == Resumed(trace, d, k)
    decreases m
  {
    hide Reports, Next, Init, Resumes;
    assert Next(trace[m - 1], labels[m - 1]) == Some(trace[m - 1 + 1]);
    if m == k + 1 {
      PollBegins(trace[k], labels[k], trace[m]);
    } else {
      WhileFiring(trace, labels, d, k, m - 1);
      FiringGoesOn(trace[m - 1], labels[m - 1], trace[m]);
      OnlyPollReports(labels[m - 1], d);
    }
    OnlyTasksResume(trace[m - 1], trace[m], d);
  }

  lemma PollBegins(s: State, l: Label, t: State)
    requires Next(s, l) == Some(t) && l.Poll?
    ensures s.loop.Idle? && t.loop.Firing?
  {
  }

  lemma OnlyTasksResume(s: State, t: State, d: Dir)
    ensures Resumes(s, t, d) ==> s.loop.Running?
  {
  }

  lemma OnlyPollReports(l: Label, d: Dir)
    ensures Reports(l, d) ==> l.Poll?
  {
  }

  /** When the event loop is idle again after a report, the counters of exactly the directions
      reported have been incremented, once each. */
  lemma PollFiresEach(trace: seq<State>, labels: seq<Label>, d: Dir, k: nat, m: nat)
    requires Labelled(trace, labels) && k < m <= |labels| && labels[k].Poll?
    requires trace[m].loop.Idle? && forall j | k < j < m :: !trace[j].loop.Idle?
    ensures Incremented(trace, d, m)
            == Incremented(trace, d, k) + if (if d.Read? then labels[k].read else labels[k].write) then 1 else 0
  {
    hide Incremented, Reported, Resumed, Next;
    WhileFiring(trace, labels, d, k, m);
    EventsAccounted(trace, labels, d, k);
    EventsAccounted(trace, labels, d, m);
    PollBegins(trace[k], labels[k], trace[k + 1]);
  }

  // ------------------------------------------------------------------- no event is lost

  /** A fiber enters the callback of `d`. */
  ghost predicate CallbackBegins(s: State, t: State, d: Dir) {
    exists i: nat :: i < |s.fibers| && i < |t.fibers| && s.fibers[i] != t.fibers[i] == Handling(d, InCallback)
  }

  /** Unless it enters the callback of `d`, a fiber leaves the observation alone. */
  predicate Overlooks(v: Vars, e: Effect<Pc>, d: Dir) {
    e.next == Handling(d, InCallback) || Ch(e.v, d).unseen == Ch(v, d).unseen
  }

  lemma GoesBackSees(v: Vars, c: Dir, x: Channel, b: bool, d: Dir)
    ensures Overlooks(v, Move(WithCh(Check(v, b), c, x), Handling(c, InCallback)), d)
  {
    hide WithCh, Ch;
    WithChIs(Check(v, b), c, x, d);
    SameCh(v, Check(v, b), d);
  }

  lemma SameCh(v: Vars, u: Vars, d: Dir)
    requires u.r == v.r && u.w == v.w
    ensures Ch(u, d) == Ch(v, d)
  {
    match d case Read => case Write =>
  }

  lemma StopsSees(v: Vars, c: Dir, events: nat, d: Dir)
    ensures Overlooks(v, Move(WithCh(v, c, Ch(v, c).(events := events)), Checking(LoadPending)), d)
  {
    hide WithCh, Ch;
    WithChIs(v, c, Ch(v, c).(events := events), d);
  }

  lemma DecrementSees(v: Vars, c: Dir, a: Action, e: Effect<Pc>, d: Dir)
    requires HandlingEffect(v, c, Decrement, a) == Some(e)
    ensures Overlooks(v, e, d)
  {
    hide WithCh, Ch, Overlooks, Check;
    var x := Ch(v, c);
    var left := if x.events > 0 then x.events - 1 else 0;
    if x.events != 1 {
      GoesBackSees(v, c, x.(events := left, unseen := false), x.events > 0, d);
    } else {
      StopsSees(v, c, left, d);
    }
  }

  lemma CallbackSees(v: Vars, c: Dir, a: Action, e: Effect<Pc>, d: Dir)
    requires HandlingEffect(v, c, InCallback, a) == Some(e)
    ensures Overlooks(v, e, d) && !(e.next.Handling? && e.next.event.InCallback?)
  {
    hide WithCh, Ch;
    match a
    case Ready => WithChIs(v, c, Ch(v, c).(undrained := false), d);
    case Leaving =>
    case AskSuppress => WithChIs(v, c, Ch(v, c).(undrained := true), d);
  }

  lemma HandlingSees(v: Vars, c: Dir, p: EventPc, a: Action, e: Effect<Pc>, d: Dir)
    requires HandlingEffect(v, c, p, a) == Some(e)
    ensures Overlooks(v, e, d) && e.next != Handling(c, p)
  {
    hide WithCh, Ch, Overlooks;
    match p
    case Started => StartedSees(v, c, d);
    case InCallback => CallbackSees(v, c, a, e, d);
    case Decrement => DecrementSees(v, c, a, e, d);
    case PostReset => PostedSees(v, e, d);
    case PostSuppress => PostedSees(v, e, d);
  }

  lemma StartedSees(v: Vars, c: Dir, d: Dir)
    ensures Overlooks(v, Move(WithCh(v, c, Ch(v, c).(unseen := false)), Handling(c, InCallback)), d)
  {
    hide WithCh, Ch;
    WithChIs(v, c, Ch(v, c).(unseen := false), d);
  }

  lemma PostedSees(v: Vars, e: Effect<Pc>, d: Dir)
    requires e.v.r == v.r && e.v.w == v.w
    ensures Overlooks(v, e, d)
  {
  }

  lemma ErrorKeepsChannels(v: Vars, p: ErrorPc)
    ensures var e := ErrorEffect(v, p); e.v.r == v.r && e.v.w == v.w && e.next != HandlingError(p)
  {
    match p case ErrorStarted => case InError => case ErrorDecrement =>
  }

  lemma CheckKeepsChannels(v: Vars, p: CheckPc)
    ensures var e := CheckStep(v, p); e.v.r == v.r && e.v.w == v.w && e.next != Some(p)
  {
    match p case LoadPending => case LoadRead => case LoadWrite => case LoadError => case Exchange => case Post =>
  }

  lemma FiberSees(v: Vars, pc: Pc, a: Action, e: Effect<Pc>, d: Dir)
    requires FiberEffect(v, pc, a) == Some(e)
    ensures Overlooks(v, e, d) && e.next != pc
  {
    hide Overlooks, HandlingEffect, ErrorEffect, CheckStep;
    match pc
    case Handling(c, p) => HandlingSees(v, c, p, a, e, d);
    case HandlingError(p) =>
      ErrorKeepsChannels(v, p);
      PostedSees(v, e, d);
    case Checking(p) =>
      CheckKeepsChannels(v, p);
      PostedSees(v, e, d);
    case KillPost => PostedSees(v, e, d);
  }

  /** An event fired stays unseen until a callback begins or the counter is reset. */
  lemma SeenOrCleared(s: State, l: Label, t: State, d: Dir)
    requires Next(s, l) == Some(t) && Ch(s.v, d).unseen && !Ch(t.v, d).unseen
    ensures CallbackBegins(s, t, d) || Clears(s.loop, d)
  {
    hide LoopEffect, FiberEffect, Ch;
    match l
    case LoopStep => LoopPulse(s.v, s.loop, d);
    case FiberStep(i, a) =>
      FiberSees(s.v, s.fibers[i], a, FiberEffect(s.v, s.fibers[i], a).value, d);
      assert s.fibers[i] != t.fibers[i] == Handling(d, InCallback);
    case KillCall => SameEventsAfterKill(s, t, d);
    case _ =>
  }

  lemma IncrementIsUnseen(s: State, l: Label, t: State, d: Dir)
    requires Inv(s) && Next(s, l) == Some(t) && Increments(s, t, d)
    ensures Ch(t.v, d).unseen
  {
    hide Inv, LoopEffect, FiberEffect, Ch;
    match l
    case LoopStep => LoopPulse(s.v, s.loop, d);
    case FiberStep(i, a) => FiberPulse(s, i, a, FiberEffect(s.v, s.fibers[i], a).value, d);
    case KillCall => SameEventsAfterKill(s, t, d);
    case _ =>
  }

  /** Between states `k` and `n` a callback of `d` begins, or a task clears the counter. */
  ghost predicate LookedAt(trace: seq<State>, d: Dir, k: nat, n: nat) {
    exists j: nat :: k < j < n < |trace| && (CallbackBegins(trace[j], trace[j + 1], d) || Clears(trace[j].loop, d))
  }

  lemma {:induction false} UnseenUntilLookedAt(trace: seq<State>, d: Dir, k: nat, n: nat)
    requires Descriptor.Run(trace) && k < n < |trace| && Increments(trace[k], trace[k + 1], d)
    ensures Ch(trace[n].v, d).unseen || LookedAt(trace, d, k, n)
    decreases n
  {
    hide Inv, Next, Init, Ch, Increments, CallbackBegins, Clears;
    assert Step(trace[n - 1], trace[n]);
    var l: Label :| Next(trace[n - 1], l) == Some(trace[n]);
    if n == k + 1 {
      RunInv(trace, k);
      IncrementIsUnseen(trace[k], l, trace[n], d);
    } else {
      UnseenUntilLookedAt(trace, d, k, n - 1);
      if Ch(trace[n - 1].v, d).unseen && !Ch(trace[n].v, d).unseen {
        SeenOrCleared(trace[n - 1], l, trace[n], d);
        assert trace[n] == trace[n - 1 + 1];
      }
    }
  }

  /** No event is lost: by the time the counter of a direction is back to zero after an
      increment, a callback has begun after that increment, or a task has reset the counter
      because a callback asked to leave or to be suppressed. */
  lemma EventIsLookedAt(trace: seq<State>, d: Dir, k: nat, n: nat)
    requires Descriptor.Run(trace) && k < n < |trace| && Increments(trace[k], trace[k + 1], d)
    requires Ch(trace[n].v, d).events == 0
    ensures LookedAt(trace, d, k, n)
  {
    hide Descriptor.Run, Inv, Increments, LookedAt, Ch;
    UnseenUntilLookedAt(trace, d, k, n);
    RunInv(trace, n);
    ZeroIsSeen(trace[n], d);
  }

  lemma ZeroIsSeen(s: State, d: Dir)
    requires Inv(s) && Ch(s.v, d).events == 0
    ensures !Ch(s.v, d).unseen
  {
  }
}
