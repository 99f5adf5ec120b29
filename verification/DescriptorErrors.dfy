/** The first error the poller reports leads to one fiber and one call of OnError(), and later
    ones to none. */
module DescriptorErrors {
  import opened Counting
  import opened Prelude
  import opened Descriptor
  import opened DescriptorInvariant
  import opened DescriptorSafety
  import opened DescriptorRestarts

  /** A fiber that will call OnError() is started in this step. */
  predicate StartsError(s: State, t: State) {
    t.fibers == s.fibers + [HandlingError(ErrorStarted)]
  }

  /** A fiber calls OnError() in this step. */
  ghost predicate CallsError(s: State, t: State) {
    exists i: nat :: i < |s.fibers| && i < |t.fibers| && s.fibers[i] != t.fibers[i] == HandlingError(InError)
  }

  ghost function ErrorStarts(trace: seq<State>, n: nat): nat
    requires n < |trace|
  {
    if n == 0 then 0 else ErrorStarts(trace, n - 1) + One(StartsError(trace[n - 1], trace[n]))
  }

  ghost function ErrorCalls(trace: seq<State>, n: nat): nat
    requires n < |trace|
  {
    if n == 0 then 0 else ErrorCalls(trace, n - 1) + One(CallsError(trace[n - 1], trace[n]))
  }

  predicate ErrorReported(labels: seq<Label>, n: nat)
    requires n <= |labels|
  {
    exists k: nat :: k < n && labels[k] == PollError
  }

  /** The event loop is on its way to start the fiber. */
  predicate OwesError(v: Vars, l: LoopPc) {
    match l
    case Firing(ErrorExchange) => !v.errorSeen
    case Firing(ErrorAdd) => true
    case Firing(ErrorStart) => true
    case _ => false
  }

  predicate Noticed(v: Vars, l: LoopPc) {
    v.errorSeen || l == Firing(ErrorExchange)
  }

  function Waits(pc: Pc): nat { One(pc == HandlingError(ErrorStarted)) }

  // -------------------------------------------------------------------- event loop

  /** What a step of the event loop does about errors. */
  predicate LoopErrors(v: Vars, l: LoopPc, e: Effect<LoopPc>) {
    && Noticed(e.v, e.next) == Noticed(v, l)
    && One(e.spawned == Some(HandlingError(ErrorStarted))) + One(OwesError(e.v, e.next)) == One(OwesError(v, l))
  }

  lemma FireErrors(v: Vars, p: FirePc)
    requires p.ErrorAdd? ==> v.errorEvents == 0
    ensures LoopErrors(v, Firing(p), FireEffect(v, p))
  {
    hide WithCh;
    match p
    case Fire(read, write) =>
      WithChErrorSeen(v, Read, v.r.(events := v.r.events + 1, unseen := true));
      WithChErrorSeen(v, Write, v.w.(events := v.w.events + 1, unseen := true));
    case StartFiber(_, _) =>
    case ErrorExchange =>
    case ErrorAdd =>
    case ErrorStart =>
  }

  lemma WithChErrorSeen(v: Vars, d: Dir, c: Channel)
    ensures WithCh(v, d, c).errorSeen == v.errorSeen
  {
    match d case Read => case Write =>
  }

  lemma ClosingErrors(v: Vars, p: ClosingPc)
    ensures LoopErrors(v, Running(Closing(p)), ClosingEffect(v, p))
  {
    match p case DisableNow => case SetPending => case CleanupTest => case Detach => case CallOnCleanup =>
  }

  /** A step with no part in it. */
  lemma NoErrors(v: Vars, l: LoopPc, e: Effect<LoopPc>)
    requires e.v.errorSeen == v.errorSeen && e.spawned.None? && !l.Firing?
    requires e.next.Firing? ==> e.next.fire.Fire?
    ensures LoopErrors(v, l, e)
  {
  }

  lemma RearmErrorSeen(v: Vars)
    ensures Rearm(v).errorSeen == v.errorSeen
  {
  }

  lemma ChannelErrorSeen(v: Vars, d: Dir, p: ChannelPc)
    ensures ChannelEffect(v, d, p).v.errorSeen == v.errorSeen
  {
    hide WithCh, CountSuppress, CountRestart, Ch, Rearm;
    match p
    case ResetNow => WithChErrorSeen(v, d, Ch(v, d).(events := 0, unseen := false, left := true));
    case SuppressStore => WithChErrorSeen(v, d, Ch(v, d).(events := 0, unseen := false, rearmed := false));
    case SuppressTest =>
      CountErrorSeen(v, d);
      RearmErrorSeen(CountSuppress(v, d));
    case RestartNow =>
      CountErrorSeen(v, d);
      RearmErrorSeen(CountRestart(v, d));
  }

  lemma ChannelNext(v: Vars, d: Dir, p: ChannelPc)
    ensures var e := ChannelEffect(v, d, p); e.spawned.None? && (e.next.Firing? ==> e.next.fire.Fire?)
  {
    hide WithCh, CountSuppress, RestartEnabled, Rearm, Ch;
    match p case ResetNow => case SuppressStore => case SuppressTest => case RestartNow =>
  }

  lemma ChannelErrors(v: Vars, d: Dir, p: ChannelPc)
    ensures LoopErrors(v, Running(OnChannel(d, p)), ChannelEffect(v, d, p))
  {
    hide ChannelEffect, LoopErrors;
    ChannelErrorSeen(v, d, p);
    ChannelNext(v, d, p);
    NoErrors(v, Running(OnChannel(d, p)), ChannelEffect(v, d, p));
  }

  lemma CountErrorSeen(v: Vars, d: Dir)
    ensures CountSuppress(v, d).errorSeen == v.errorSeen && CountRestart(v, d).errorSeen == v.errorSeen
  {
    match d case Read => case Write =>
  }

  lemma CheckErrors(v: Vars, p: CheckPc, after: After)
    ensures LoopErrors(v, LoopChecking(p, after), LoopEffect(v, LoopChecking(p, after)))
  {
    match p case LoadPending => case LoadRead => case LoadWrite => case LoadError => case Exchange => case Post =>
  }

  lemma LoopErrorsOf(v: Vars, l: LoopPc)
    requires LoopFacts(v, l)
    ensures LoopErrors(v, l, LoopEffect(v, l))
  {
    hide FireEffect, ClosingEffect, ChannelEffect, CheckStep, Resume, LoopErrors;
    match l
    case Idle => assert LoopErrors(v, Idle, Move(v, Idle)) by { IdleErrors(v); }
    case Firing(p) => FireErrors(v, p);
    case Running(Closing(p)) => ClosingErrors(v, p);
    case Running(OnChannel(d, p)) => ChannelErrors(v, d, p);
    case LoopChecking(p, after) => CheckErrors(v, p, after);
  }

  lemma IdleErrors(v: Vars)
    ensures LoopErrors(v, Idle, Move(v, Idle))
  {
  }

  lemma FactsOf(s: State)
    requires Inv(s)
    ensures LoopFacts(s.v, s.loop)
  {
  }

  // -------------------------------------------------------------------------- fibers

  /** Only a fiber that has just been started for it calls OnError(). */
  lemma FiberErrors(v: Vars, pc: Pc, a: Action, e: Effect<Pc>)
    requires FiberEffect(v, pc, a) == Some(e)
    ensures e.spawned.None? && Waits(e.next) == 0
    ensures e.next == HandlingError(InError) <==> Waits(pc) == 1
  {
    hide WithCh, Ch;
    match pc
    case Handling(c, p) => HandlingErrors(v, c, p, a, e);
    case HandlingError(p) => match p { case ErrorStarted => case InError => case ErrorDecrement => }
    case Checking(p) =>
      match p { case LoadPending => case LoadRead => case LoadWrite => case LoadError => case Exchange => case Post => }
    case KillPost =>
  }

  lemma HandlingErrors(v: Vars, c: Dir, p: EventPc, a: Action, e: Effect<Pc>)
    requires HandlingEffect(v, c, p, a) == Some(e)
    ensures e.spawned.None? && !e.next.HandlingError?
  {
    hide WithCh, Ch;
    match p
    case Started =>
    case InCallback => match a { case Ready => case Leaving => case AskSuppress => }
    case Decrement =>
    case PostReset =>
    case PostSuppress =>
  }

  lemma FiberStepErrors(s: State, i: nat, a: Action, t: State)
    requires Next(s, FiberStep(i, a)) == Some(t)
    ensures !StartsError(s, t) && t.loop == s.loop
    ensures One(CallsError(s, t)) + Sum(t.fibers, Waits) == Sum(s.fibers, Waits)
  {
    hide FiberEffect, Sum;
    var e := FiberEffect(s.v, s.fibers[i], a).value;
    FiberErrors(s.v, s.fibers[i], a, e);
    assert t.fibers == s.fibers[i := e.next];
    SumUpdate(s.fibers, i, e.next, Waits);
    assert CallsError(s, t) <==> Waits(s.fibers[i]) == 1 by {
      if Waits(s.fibers[i]) == 1 {
        assert s.fibers[i] != t.fibers[i] == HandlingError(InError);
      }
    }
  }

  /** Nobody calls OnError() when fibers are only added. */
  lemma AddedErrors(s: State, t: State, x: Option<Pc>)
    requires t.fibers == AndThen(s.fibers, x)
    ensures !CallsError(s, t)
    ensures StartsError(s, t) <==> x == Some(HandlingError(ErrorStarted))
    ensures Sum(t.fibers, Waits) == Sum(s.fibers, Waits) + One(StartsError(s, t))
  {
    AddedWeight(s.fibers, x, Waits);
    if x.Some? {
      assert t.fibers[|s.fibers|] == x.value;
    }
  }

  // ---------------------------------------------------------------------- every step

  lemma StepErrors(s: State, l: Label, t: State)
    requires Inv(s) && Next(s, l) == Some(t)
    ensures One(CallsError(s, t)) + Sum(t.fibers, Waits) == Sum(s.fibers, Waits) + One(StartsError(s, t))
    ensures Noticed(t.v, t.loop) == (Noticed(s.v, s.loop) || l == PollError)
    ensures One(StartsError(s, t)) + One(OwesError(t.v, t.loop))
            == One(OwesError(s.v, s.loop)) + One(l == PollError && !Noticed(s.v, s.loop))
  {
    hide Inv, LoopEffect, FiberEffect, Sum, CallsError, StartsError, AndThen;
    match l
    case LoopStep =>
      FactsOf(s);
      LoopErrorsOf(s.v, s.loop);
      AddedErrors(s, t, LoopEffect(s.v, s.loop).spawned);
    case FiberStep(i, a) =>
      FiberStepErrors(s, i, a, t);
      FiberStepIsQuiet(s, i, a, FiberEffect(s.v, s.fibers[i], a).value);
    case KillCall =>
      KillAdds(s, t);
      AddedErrors(s, t, if s.v.killed then None else Some(KillPost));
    case _ =>
      NothingAdded(s, t);
      AddedErrors(s, t, None);
  }

  lemma KillAdds(s: State, t: State)
    requires Next(s, KillCall) == Some(t)
    ensures t.fibers == AndThen(s.fibers, if s.v.killed then None else Some(KillPost))
  {
  }

  lemma NothingAdded(s: State, t: State)
    requires t.fibers == s.fibers
    ensures t.fibers == AndThen(s.fibers, None)
  {
  }

  /** In every run: a fiber for OnError() has been started or is about to be if and only if the
      poller has reported an error, however often, and then one only; and every fiber started
      for it has called OnError() or is about to. */
  lemma {:induction false} ErrorsAccounted(trace: seq<State>, labels: seq<Label>, n: nat)
    requires Labelled(trace, labels) && n < |trace|
    ensures ErrorStarts(trace, n) + One(OwesError(trace[n].v, trace[n].loop)) == One(ErrorReported(labels, n))
    ensures ErrorCalls(trace, n) + Sum(trace[n].fibers, Waits) == ErrorStarts(trace, n)
    ensures Noticed(trace[n].v, trace[n].loop) == ErrorReported(labels, n)
    decreases n
  {
    hide Inv, Next, Init, Sum, CallsError, StartsError, OwesError, Noticed, Descriptor.Run;
    LabelledIsRun(trace, labels);
    if n == 0 {
      InitErrors(trace[0]);
    } else {
      RunInv(trace, n - 1);
      assert Next(trace[n - 1], labels[n - 1]) == Some(trace[n - 1 + 1]);
      ErrorsAccounted(trace, labels, n - 1);
      StepErrors(trace[n - 1], labels[n - 1], trace[n]);
      ReportedNow(labels, n);
    }
  }

  lemma ReportedNow(labels: seq<Label>, n: nat)
    requires 0 < n <= |labels|
    ensures ErrorReported(labels, n) == (ErrorReported(labels, n - 1) || labels[n - 1] == PollError)
  {
  }

  lemma InitErrors(s: State)
    requires Init(s)
    ensures !OwesError(s.v, s.loop) && !Noticed(s.v, s.loop) && Sum(s.fibers, Waits) == 0
  {
  }

  /** When the event loop is idle and no fiber is waiting to begin, OnError() has been called
      exactly once if the poller has reported an error, and not at all otherwise. */
  lemma OneErrorCall(trace: seq<State>, labels: seq<Label>, n: nat)
    requires Labelled(trace, labels) && n < |trace| && trace[n].loop.Idle?
    requires HandlingError(ErrorStarted) !in trace[n].fibers
    ensures ErrorCalls(trace, n) == if exists k: nat :: k < n && labels[k] == PollError then 1 else 0
  {
    hide Sum, ErrorCalls, ErrorStarts;
    ErrorsAccounted(trace, labels, n);
    SumZero(trace[n].fibers, Waits);
  }
}
