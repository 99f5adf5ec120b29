/** Data left behind by a suppressed callback is not forgotten while the descriptor is
    enabled, as long as no reset task is posted in the middle of Kill(). */
module DescriptorStall {
  import opened Counting
  import opened Prelude
  import opened Descriptor
  import opened DescriptorInvariant
  import opened DescriptorSafety
  import opened DescriptorOrder
  import opened DescriptorTheorems
  import opened DescriptorRestarts

  /** A fiber posts the reset task of `d` in this step. */
  predicate Posts(s: State, t: State, d: Dir) {
    t.tasks == s.tasks + [Reset(d)]
  }

  /** Whenever a reset task of `d` was posted, the winning Kill() had posted its task. */
  ghost predicate KillsHavePosted(trace: seq<State>, d: Dir, n: nat)
    requires n < |trace|
  {
    forall k: nat | k < n :: Posts(trace[k], trace[k + 1], d) ==> !KillInProgress(trace[k])
  }

  /** A reset task of `d` runs only after the descriptor has been disabled. */
  ghost predicate LeavesDisabled(s: State, d: Dir) {
    && (Reset(d) in s.tasks ==> exists q: nat :: DisableFirst(s, d, q))
    && (s.loop == Resetting(d) || Ch(s.v, d).left ==> !s.v.enabled)
  }

  // -------------------------------------------------------- who sets the flag

  predicate SameLeft(v: Vars, u: Vars) {
    u.r.left == v.r.left && u.w.left == v.w.left
  }

  lemma WithChLeft(v: Vars, d: Dir, c: Channel)
    requires c.left == Ch(v, d).left
    ensures SameLeft(v, WithCh(v, d, c))
  {
    match d case Read => case Write =>
  }

  lemma WithChOther(v: Vars, c: Dir, x: Channel, d: Dir)
    requires c != d
    ensures Ch(WithCh(v, c, x), d) == Ch(v, d)
  {
    match d case Read => case Write =>
  }

  lemma FireOneLeft(v: Vars, d: Dir, rest: bool)
    ensures SameLeft(v, FireOne(v, d, rest).v)
  {
    hide WithCh, SameLeft;
    WithChLeft(v, d, Ch(v, d).(events := Ch(v, d).events + 1, unseen := true));
  }

  lemma FireLeft(v: Vars, p: FirePc)
    ensures SameLeft(v, FireEffect(v, p).v)
  {
    hide FireOne;
    match p
    case Fire(_, write) =>
      FireOneLeft(v, Read, write);
      FireOneLeft(v, Write, false);
    case StartFiber(_, _) =>
    case ErrorExchange =>
    case ErrorAdd =>
    case ErrorStart =>
  }

  lemma ClosingLeft(v: Vars, p: ClosingPc)
    ensures SameLeft(v, ClosingEffect(v, p).v)
  {
    match p case DisableNow => case SetPending => case CleanupTest => case Detach => case CallOnCleanup =>
  }

  lemma CheckLeft(v: Vars, p: CheckPc, after: After)
    ensures SameLeft(v, LoopEffect(v, LoopChecking(p, after)).v)
  {
    match p case LoadPending => case LoadRead => case LoadWrite => case LoadError => case Exchange => case Post =>
  }

  lemma SuppressLeft(v: Vars, d: Dir)
    ensures SameLeft(v, CountSuppress(v, d))
  {
    hide WithCh;
    var c := Ch(v, d);
    WithChLeft(v, d, c.(restarts := c.restarts - 1, inMask := c.inMask && c.restarts - 1 != 0));
  }

  lemma RestartLeft(v: Vars, d: Dir)
    ensures SameLeft(v, CountRestart(v, d))
  {
    hide WithCh;
    var c := Ch(v, d);
    WithChLeft(v, d, c.(restarts := c.restarts + 1, inMask := c.inMask || c.restarts == 0));
  }

  lemma ChannelLeft(v: Vars, d: Dir, p: ChannelPc)
    requires !p.ResetNow?
    ensures SameLeft(v, ChannelEffect(v, d, p).v)
  {
    hide WithCh, Ch, CountSuppress, CountRestart;
    match p
    case SuppressStore => WithChLeft(v, d, Ch(v, d).(events := 0, unseen := false, rearmed := false));
    case SuppressTest => SuppressLeft(v, d);
    case RestartNow => RestartLeft(v, d);
  }

  lemma OnlyResettingLeaves(v: Vars, l: LoopPc, d: Dir)
    requires l != Resetting(d)
    ensures Ch(LoopEffect(v, l).v, d).left == Ch(v, d).left
  {
    hide FireEffect, ClosingEffect, ChannelEffect, CheckStep, Resume;
    match l
    case Idle =>
    case Firing(p) => FireLeft(v, p);
    case Running(Closing(p)) => ClosingLeft(v, p);
    case Running(OnChannel(c, p)) =>
      if p.ResetNow? {
        ResetElsewhere(v, c, d);
      } else {
        ChannelLeft(v, c, p);
      }
    case LoopChecking(p, after) => CheckLeft(v, p, after);
  }

  lemma ResetElsewhere(v: Vars, c: Dir, d: Dir)
    requires c != d
    ensures Ch(ChannelEffect(v, c, ResetNow).v, d) == Ch(v, d)
  {
    hide WithCh;
    WithChOther(v, c, Ch(v, c).(events := 0, unseen := false, left := true), d);
  }

  lemma LeftByReset(s: State, l: Label, t: State, d: Dir)
    requires Inv(s) && Next(s, l) == Some(t) && s.loop != Resetting(d)
    ensures Ch(t.v, d).left ==> Ch(s.v, d).left
  {
    hide Inv, LoopEffect, FiberEffect;
    match l
    case LoopStep => OnlyResettingLeaves(s.v, s.loop, d);
    case FiberStep(i, a) => FiberStepIsQuiet(s, i, a, FiberEffect(s.v, s.fibers[i], a).value);
    case _ =>
  }

  // ----------------------------------------------------------- who posts the task

  lemma FiberPostsReset(v: Vars, pc: Pc, a: Action, e: Effect<Pc>, d: Dir)
    requires FiberEffect(v, pc, a) == Some(e) && e.posted == Some(Reset(d))
    ensures pc == Handling(d, PostReset)
  {
    hide WithCh, Ch;
    match pc
    case Handling(c, p) =>
      match p {
        case InCallback => match a { case Ready => case Leaving => case AskSuppress => }
        case _ =>
      }
    case HandlingError(p) => match p { case ErrorStarted => case InError => case ErrorDecrement => }
    case Checking(p) =>
      match p { case LoadPending => case LoadRead => case LoadWrite => case LoadError => case Exchange => case Post => }
    case KillPost =>
  }

  /** A reset task that was not there before has been posted by a fiber. */
  lemma ResetIsPosted(s: State, l: Label, t: State, d: Dir)
    requires Next(s, l) == Some(t) && s.v.enabled && Reset(d) !in s.tasks && Reset(d) in t.tasks
    ensures l.FiberStep? && l.i < |s.fibers| && s.fibers[l.i] == Handling(d, PostReset)
  {
    hide LoopEffect, FiberEffect;
    match l
    case LoopStep => LoopLeaves(s.v, s.loop, d);
    case FiberStep(i, a) => FiberPostsReset(s.v, s.fibers[i], a, FiberEffect(s.v, s.fibers[i], a).value, d);
    case _ =>
  }

  lemma NotBegun(s: State, l: Label, t: State, d: Dir)
    requires Inv(s) && Next(s, l) == Some(t) && s.loop != Resetting(d) && Reset(d) !in s.tasks
    ensures t.loop != Resetting(d)
  {
    hide Inv;
    if l.RunTask? {
      assert s.tasks[0] != Reset(d);
    } else {
      hide Next;
      StepAppends(s, l, t);
    }
  }

  lemma NewResetIsOrdered(s: State, l: Label, t: State, d: Dir) returns (q: nat)
    requires Inv(s) && Next(s, l) == Some(t) && s.v.enabled && Reset(d) !in s.tasks && Reset(d) in t.tasks
    requires Posts(s, t, d) ==> !KillInProgress(s)
    ensures DisableFirst(t, d, q)
  {
    hide Inv, Next, KillInProgress, DisableFirst;
    ResetIsPosted(s, l, t, d);
    BeforePost(s, l.i, d);
    AfterPost(s, l.i, l.a, d, t);
    q := DisableQueued(s, t, d);
  }

  // ---------------------------------------------------------------- every run

  lemma StepLeavesDisabled(s: State, l: Label, t: State, d: Dir)
    requires Inv(s) && Next(s, l) == Some(t) && LeavesDisabled(s, d)
    requires Posts(s, t, d) ==> !KillInProgress(s)
    ensures LeavesDisabled(t, d)
  {
    hide Inv, Next, KillInProgress, DisableFirst, Posts;
    if t.v.enabled {
      EnabledBefore(s, l, t);
      LeftByReset(s, l, t, d);
      if Reset(d) in s.tasks {
        var q: nat :| DisableFirst(s, d, q);
        var r := DisableStaysFirst(s, l, t, d, q);
      } else {
        NotBegun(s, l, t, d);
        if Reset(d) in t.tasks {
          var q := NewResetIsOrdered(s, l, t, d);
        }
      }
    } else {
      DisabledFirst(t, d);
    }
  }

  lemma DisabledFirst(s: State, d: Dir)
    requires !s.v.enabled
    ensures DisableFirst(s, d, 0)
  {
  }

  lemma InitLeavesDisabled(s: State, d: Dir)
    requires Init(s)
    ensures LeavesDisabled(s, d)
  {
    match d case Read => case Write =>
  }

  lemma {:induction false} RunLeavesDisabled(trace: seq<State>, d: Dir, n: nat)
    requires Descriptor.Run(trace) && n < |trace| && KillsHavePosted(trace, d, n)
    ensures LeavesDisabled(trace[n], d)
  {
    hide Inv, Next, Init, LeavesDisabled, KillInProgress, Posts;
    if n == 0 {
      InitLeavesDisabled(trace[0], d);
    } else {
      RunLeavesDisabled(trace, d, n - 1);
      RunInv(trace, n - 1);
      assert Step(trace[n - 1], trace[n]);
      var l: Label :| Next(trace[n - 1], l) == Some(trace[n]);
      assert trace[n] == trace[n - 1 + 1];
      StepLeavesDisabled(trace[n - 1], l, trace[n], d);
    }
  }

  /** No stall under edge triggering, for callers: if no reset task of the direction was ever
      posted between the compare-and-swap of a Kill() and its task, then data that a suppressed
      callback left behind in an armed direction of an enabled descriptor has an owner, or
      the poller was armed again after the suppression, or the event loop sees to it. */
  lemma NoStallForCallers(trace: seq<State>, n: nat, d: Dir)
    requires Descriptor.Run(trace) && n < |trace| && KillsHavePosted(trace, d, n)
    requires trace[n].v.enabled && Ch(trace[n].v, d).armed && Ch(trace[n].v, d).undrained
    ensures OwnerCount(trace[n], d) == 1 || Ch(trace[n].v, d).rearmed || LoopAttends(trace[n].loop, d)
  {
    hide Descriptor.Run, OwnerCount, LoopAttends;
    RunLeavesDisabled(trace, d, n);
    NoStallUnderEdgeTriggering(trace, n, d);
  }
}
