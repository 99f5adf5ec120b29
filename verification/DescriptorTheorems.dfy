/** The promises of the I/O descriptor, for every run of the protocol. */
module DescriptorTheorems {
  import opened Counting
  import opened Prelude
  import opened Descriptor
  import opened DescriptorInvariant
  import opened DescriptorSafety

  // ----------------------------------------------------------------- ownership

  /** Those who own the event counter of `d`: fibers in its loop, tasks that will
      reset it, and the event loop while it starts such a fiber or runs such a task. */
  function OwnerCount(s: State, d: Dir): nat {
    Sum(s.fibers, (pc: Pc) => if pc.Handling? && pc.d == d then 1 else 0)
    + Sum(s.tasks, (x: Task) => if x == Reset(d) || x == Suppress(d) then 1 else 0)
    + (match s.loop
       case Firing(StartFiber(e, _)) => if e == d then 1 else 0
       case Running(OnChannel(e, p)) => if e == d && (p.ResetNow? || p.SuppressStore?) then 1 else 0
       case _ => 0)
  }

  lemma {:induction false} SumSameWeights<T>(s: seq<T>, f: T -> nat, g: T -> nat)
    requires forall x: T :: f(x) == g(x)
    ensures Sum(s, f) == Sum(s, g)
  {
    if s != [] {
      SumSameWeights(s[1..], f, g);
    }
  }

  /** The counter is positive exactly when it has an owner, and then it has one. */
  lemma OneOwner(trace: seq<State>, n: nat, d: Dir)
    requires Descriptor.Run(trace) && n < |trace|
    ensures OwnerCount(trace[n], d) == if Ch(trace[n].v, d).events > 0 then 1 else 0
  {
    hide OwnerCount;
    RunInv(trace, n);
    OwnersAreTokens(trace[n], d);
  }

  lemma OwnersAreTokens(s: State, d: Dir)
    ensures OwnerCount(s, d) == Total(s, Own(d))
  {
    SumSameWeights(s.fibers, (pc: Pc) => if pc.Handling? && pc.d == d then 1 else 0, FiberWeight(Own(d)));
    SumSameWeights(s.tasks, (x: Task) => if x == Reset(d) || x == Suppress(d) then 1 else 0, TaskWeight(Own(d)));
  }

  /** The callback of a direction never runs twice at the same time. */
  lemma NoOverlap(trace: seq<State>, n: nat, i: nat, j: nat)
    requires Descriptor.Run(trace) && n < |trace|
    requires i < |trace[n].fibers| && j < |trace[n].fibers|
    requires trace[n].fibers[i].Handling? && trace[n].fibers[j].Handling?
    requires trace[n].fibers[i].d == trace[n].fibers[j].d
    ensures i == j
  {
    RunInv(trace, n);
    if i != j {
      SumAtLeastTwo(trace[n].fibers, i, j, FiberWeight(Own(trace[n].fibers[i].d)));
    }
  }

  /** An event fired since the callback last started is not forgotten: the direction
      still has an owner, and a fiber about to acknowledge runs the callback again. */
  lemma FiredEventCausesAnotherRun(trace: seq<State>, n: nat, i: nat, d: Dir, a: Action)
    requires Descriptor.Run(trace) && n < |trace| && Ch(trace[n].v, d).unseen
    ensures OwnerCount(trace[n], d) == 1
    ensures i < |trace[n].fibers| && trace[n].fibers[i] == Handling(d, Decrement) ==>
              && FiberEffect(trace[n].v, trace[n].fibers[i], a).Some?
              && FiberEffect(trace[n].v, trace[n].fibers[i], a).value.next == Handling(d, InCallback)
  {
    RunInv(trace, n);
    OneOwner(trace, n, d);
    if i < |trace[n].fibers| {
      assert FiberFacts(trace[n].v, trace[n].fibers[i]);
    }
  }

  // ------------------------------------------------------------------- cleanup

  /** No check of the code fails, except that on the number of write restarts. */
  lemma ChecksHold(trace: seq<State>, n: nat)
    requires Descriptor.Run(trace) && n < |trace|
    ensures trace[n].v.checks
  {
    RunInv(trace, n);
  }

  /** Somebody is inside QueueCleanupCallbackCheck() and has not posted anything. */
  ghost predicate CheckUnderWay(s: State) {
    || (s.loop.LoopChecking? && !s.loop.check.Post?)
    || (exists i: nat | i < |s.fibers| :: s.fibers[i].Checking? && !s.fibers[i].check.Post?)
  }

  /** Cleanup is never lost: once the descriptor is disabled and idle, the cleanup has
      been queued, or a check is under way, and every such check goes on until it is. */
  lemma CleanupNotLost(trace: seq<State>, n: nat)
    requires Descriptor.Run(trace) && n < |trace|
    requires trace[n].v.pending && AllZero(trace[n].v) && !trace[n].v.queued
    ensures CheckUnderWay(trace[n])
    ensures forall p: CheckPc | !p.Post? ::
              CheckStep(trace[n].v, p).next.Some? || CheckStep(trace[n].v, p).v.queued
  {
    RunInv(trace, n);
    var s := trace[n];
    if !(s.loop.LoopChecking? && !s.loop.check.Post?) {
      assert Sum(s.tasks, TaskWeight(Examining)) == 0 by {
        SumZero(s.tasks, TaskWeight(Examining));
      }
      var i := SumWitness(s.fibers, FiberWeight(Examining));
      assert s.fibers[i].Checking? && !s.fibers[i].check.Post?;
    }
  }

  ghost predicate Quiescent(s: State) {
    s.loop == Idle && s.tasks == [] && forall i: nat | i < |s.fibers| :: s.fibers[i] == Done
  }

  /** A killed descriptor with nothing left to run has been cleaned up, exactly once. */
  lemma QuiescentIsClean(trace: seq<State>, n: nat)
    requires Descriptor.Run(trace) && n < |trace|
    requires trace[n].v.killed && Quiescent(trace[n])
    ensures trace[n].v.cleanups == 1 && !trace[n].v.enabled
  {
    RunInv(trace, n);
    var s := trace[n];
    forall k: Kind ensures Total(s, k) == 0 {
      SumZero(s.fibers, FiberWeight(k));
    }
  }

  lemma AtMostOneCleanup(trace: seq<State>, n: nat)
    requires Descriptor.Run(trace) && n < |trace|
    ensures trace[n].v.cleanups <= 1
  {
    RunInv(trace, n);
  }

  predicate AtCleanup(s: State) {
    s.v.cleanups > 0 || s.loop == Running(Closing(CallOnCleanup))
  }

  /** Neither a callback nor a fiber that will call one. */
  predicate NoCallback(pc: Pc) {
    !pc.Handling? && !pc.HandlingError?
  }

  lemma {:induction false} CleanupsStay(trace: seq<State>, n: nat, m: nat)
    requires Descriptor.Run(trace) && n <= m < |trace| && AtCleanup(trace[n])
    ensures AtCleanup(trace[m])
  {
    hide AtCleanup, Next, Inv;
    if n < m {
      CleanupsStay(trace, n, m - 1);
      RunInv(trace, m - 1);
      assert Step(trace[m - 1], trace[m]);
      var l: Label :| Next(trace[m - 1], l) == Some(trace[m]);
      NextKeepsCleanup(trace[m - 1], l, trace[m]);
    }
  }

  lemma NextKeepsCleanup(s: State, l: Label, t: State)
    requires Inv(s) && Next(s, l) == Some(t) && AtCleanup(s)
    ensures AtCleanup(t)
  {
    hide Inv, FiberEffect, LoopEffect;
    match l
    case LoopStep => LoopTotalsOf(s.v, s.loop);
    case FiberStep(i, a) =>
      FiberStepIsQuiet(s, i, a, FiberEffect(s.v, s.fibers[i], a).value);
    case _ =>
  }

  /** What the event loop does to the number of cleanups and to `writeChecks`. */
  lemma LoopTotalsOf(v: Vars, l: LoopPc)
    ensures l != Running(Closing(CallOnCleanup)) ==> LoopEffect(v, l).v.cleanups == v.cleanups
    ensures l == Running(Closing(CallOnCleanup)) ==> LoopEffect(v, l).v.cleanups == v.cleanups + 1
    ensures !(l.Running? && l.task.OnChannel?) ==> LoopEffect(v, l).v.writeChecks == v.writeChecks
  {
    hide FireEffect, ChannelEffect, ClosingEffect, CheckStep, Resume;
    match l
    case Idle =>
    case Firing(p) =>
      FireTotals(v, p);
      assert LoopEffect(v, l) == FireEffect(v, p);
    case Running(Closing(p)) =>
      ClosingTotals(v, p);
      assert LoopEffect(v, l) == ClosingEffect(v, p);
    case Running(OnChannel(d, p)) =>
      ChannelTotals(v, d, p);
      assert LoopEffect(v, l) == ChannelEffect(v, d, p);
    case LoopChecking(p, _) =>
      CheckTotals(v, p);
      assert LoopEffect(v, l).v == CheckStep(v, p).v;
  }

  predicate SameTotals(v: Vars, u: Vars) {
    u.cleanups == v.cleanups && u.writeChecks == v.writeChecks
  }

  lemma FireTotals(v: Vars, p: FirePc)
    ensures SameTotals(v, FireEffect(v, p).v)
  {
    match p
    case Fire(true, _) => assert SameTotals(v, FireEffect(v, p).v);
    case Fire(false, true) => assert SameTotals(v, FireEffect(v, p).v);
    case Fire(false, false) => assert SameTotals(v, FireEffect(v, p).v);
    case StartFiber(_, _) => assert SameTotals(v, FireEffect(v, p).v);
    case ErrorExchange => assert SameTotals(v, FireEffect(v, p).v);
    case ErrorAdd => assert SameTotals(v, FireEffect(v, p).v);
    case ErrorStart => assert SameTotals(v, FireEffect(v, p).v);
  }

  lemma CheckTotal(v: Vars, b: bool)
    ensures SameTotals(v, Check(v, b))
  {
  }

  lemma ClosingTotals(v: Vars, p: ClosingPc)
    ensures !p.CallOnCleanup? ==> SameTotals(v, ClosingEffect(v, p).v)
    ensures p.CallOnCleanup? ==> ClosingEffect(v, p).v == v.(cleanups := v.cleanups + 1)
  {
    hide Check;
    CheckTotal(v, v.enabled);
    CheckTotal(v, AllZero(v));
    CheckTotal(v, !v.enabled);
  }

  /** What the tasks of a direction leave to the restart counter. */
  lemma SuppressTotals(v: Vars, d: Dir)
    ensures SuppressEnabled(v, d).v.cleanups == v.cleanups
    ensures SuppressEnabled(v, d).v.writeChecks
            <==> v.writeChecks && (d.Write? ==> v.w.restarts == 1 || v.w.restarts == 2)
  {
    var u := CountSuppress(v, d);
    if d == Read {
      assert u.cleanups == v.cleanups && u.writeChecks == v.writeChecks;
    } else {
      assert u.cleanups == v.cleanups;
    }
    hide CountSuppress;
    RearmTotals(u);
  }

  lemma RestartTotals(v: Vars, d: Dir)
    ensures RestartEnabled(v, d).cleanups == v.cleanups
    ensures RestartEnabled(v, d).writeChecks
            <==> v.writeChecks && (d.Write? ==> v.w.restarts == 0 || v.w.restarts == 1)
  {
    var u := CountRestart(v, d);
    if d == Read {
      assert u.cleanups == v.cleanups && u.writeChecks == v.writeChecks;
    } else {
      assert u.cleanups == v.cleanups;
    }
    hide CountRestart;
    RearmTotals(u);
  }

  lemma WithChTotals(v: Vars, d: Dir, c: Channel)
    ensures WithCh(v, d, c).cleanups == v.cleanups && WithCh(v, d, c).writeChecks == v.writeChecks
  {
    match d case Read => case Write =>
  }

  lemma RearmTotals(v: Vars)
    ensures Rearm(v).cleanups == v.cleanups && Rearm(v).writeChecks == v.writeChecks
  {
  }

  lemma ChannelTotals(v: Vars, d: Dir, p: ChannelPc)
    ensures ChannelEffect(v, d, p).v.cleanups == v.cleanups
  {
    hide SuppressEnabled, RestartEnabled, WithCh, Ch;
    match p
    case ResetNow => WithChTotals(v, d, Ch(v, d).(events := 0, unseen := false, left := true));
    case SuppressStore => WithChTotals(v, d, Ch(v, d).(events := 0, unseen := false, rearmed := false));
    case SuppressTest => SuppressTotals(v, d);
    case RestartNow => RestartTotals(v, d);
  }

  lemma CheckTotals(v: Vars, p: CheckPc)
    ensures CheckStep(v, p).v.cleanups == v.cleanups && CheckStep(v, p).v.writeChecks == v.writeChecks
  {
  }

  /** When OnCleanup() runs, and ever after, no callback is running or can start. */
  lemma NoCallbackFromCleanupOn(trace: seq<State>, n: nat, m: nat, i: nat)
    requires Descriptor.Run(trace) && n <= m < |trace| && AtCleanup(trace[n])
    requires i < |trace[m].fibers|
    ensures NoCallback(trace[m].fibers[i])
    ensures !trace[m].loop.Firing?
  {
    CleanupsStay(trace, n, m);
    RunInv(trace, m);
    var s := trace[m];
    SumAtLeast(s.fibers, i, FiberWeight(OwnRead));
    SumAtLeast(s.fibers, i, FiberWeight(OwnWrite));
    SumAtLeast(s.fibers, i, FiberWeight(Erring));
  }

  /** Places and tasks that use the descriptor without a reference of their own. */
  predicate BareFiber(pc: Pc) {
    (pc.Handling? && pc.event.Started?) || (pc.HandlingError? && pc.error.ErrorStarted?)
  }

  predicate BareTask(x: Task) {
    x.Reset? || x.Cleanup?
  }

  predicate BareLoop(l: LoopPc) {
    match l
    case Firing(_) => true
    case Running(OnChannel(_, p)) => p.ResetNow?
    case Running(Closing(p)) => p.CleanupTest? || p.Detach?
    case LoopChecking(_, after) => after.Finish?
    case _ => false
  }

  /** The event loop keeps its reference as long as anybody uses a bare pointer. */
  lemma ReferenceOutlivesBarePointers(trace: seq<State>, n: nat)
    requires Descriptor.Run(trace) && n < |trace|
    requires !trace[n].v.loopRef
    ensures forall i: nat | i < |trace[n].fibers| :: !BareFiber(trace[n].fibers[i])
    ensures forall i: nat | i < |trace[n].tasks| :: !BareTask(trace[n].tasks[i])
    ensures !BareLoop(trace[n].loop)
  {
    RunInv(trace, n);
    var s := trace[n];
    forall i: nat | i < |s.fibers| ensures !BareFiber(s.fibers[i]) {
      SumAtLeast(s.fibers, i, FiberWeight(OwnRead));
      SumAtLeast(s.fibers, i, FiberWeight(OwnWrite));
      SumAtLeast(s.fibers, i, FiberWeight(Erring));
    }
    forall i: nat | i < |s.tasks| ensures !BareTask(s.tasks[i]) {
      SumAtLeast(s.tasks, i, TaskWeight(OwnRead));
      SumAtLeast(s.tasks, i, TaskWeight(OwnWrite));
      SumAtLeast(s.tasks, i, TaskWeight(Cleaning));
    }
  }

  // ------------------------------------------------------ suppress and restart

  /** While enabled, a direction is in the mask, and armed in the poller, exactly when
      its restart counter is positive. */
  lemma MaskFollowsRestarts(trace: seq<State>, n: nat, d: Dir)
    requires Descriptor.Run(trace) && n < |trace| && trace[n].v.enabled
    ensures Ch(trace[n].v, d).inMask <==> Ch(trace[n].v, d).restarts > 0
    ensures Ch(trace[n].v, d).armed == Ch(trace[n].v, d).inMask
  {
    RunInv(trace, n);
  }

  /** No stall under edge triggering: if a suppressed callback left data behind and the
      direction is armed, then the direction has an owner, or the event loop is about
      to start one or disarm it, or the poller was armed again after the suppression, as
      long as no callback of the direction has left.  One can leave only after Kill(). */
  lemma NoStallUnderEdgeTriggering(trace: seq<State>, n: nat, d: Dir)
    requires Descriptor.Run(trace) && n < |trace|
    requires trace[n].v.enabled && Ch(trace[n].v, d).armed && Ch(trace[n].v, d).undrained
    ensures Ch(trace[n].v, d).left ==> trace[n].v.killed
    ensures !Ch(trace[n].v, d).left ==>
              OwnerCount(trace[n], d) == 1 || Ch(trace[n].v, d).rearmed || LoopAttends(trace[n].loop, d)
  {
    RunInv(trace, n);
    OneOwner(trace, n, d);
  }

  /** The step at which the check on the number of write restarts fails. */
  predicate ThirdWriteRestart(s: State, t: State) {
    && s.loop == Running(OnChannel(Write, RestartNow)) && t.loop != s.loop
    && s.v.enabled && s.v.w.restarts >= 2
  }

  lemma {:induction false} WriteChecksFail(trace: seq<State>, n: nat)
    requires Descriptor.Run(trace) && n < |trace|
    ensures trace[n].v.writeChecks <==> forall k: nat | k < n :: !ThirdWriteRestart(trace[k], trace[k + 1])
  {
    hide Inv, Next, ThirdWriteRestart;
    if n == 0 {
      InitWriteChecks(trace[0]);
    } else {
      WriteChecksFail(trace, n - 1);
      RunInv(trace, n - 1);
      assert Step(trace[n - 1], trace[n]);
      var l: Label :| Next(trace[n - 1], l) == Some(trace[n]);
      WriteChecksStep(trace[n - 1], l, trace[n]);
      assert trace[n] == trace[n - 1 + 1];
    }
  }

  lemma InitWriteChecks(s: State)
    requires Init(s)
    ensures s.v.writeChecks
  {
  }

  lemma WriteChecksStep(s: State, l: Label, t: State)
    requires Inv(s) && Next(s, l) == Some(t)
    ensures t.v.writeChecks <==> s.v.writeChecks && !ThirdWriteRestart(s, t)
  {
    hide FiberEffect, LoopEffect;
    match l
    case LoopStep => LoopWriteChecks(s.v, s.loop);
    case FiberStep(i, a) =>
      FiberStepIsQuiet(s, i, a, FiberEffect(s.v, s.fibers[i], a).value);
    case _ =>
  }

  predicate OverRestarted(v: Vars, l: LoopPc) {
    l == Running(OnChannel(Write, RestartNow)) && v.enabled && v.w.restarts >= 2
  }

  lemma LoopWriteChecks(v: Vars, l: LoopPc)
    requires Core(v, l)
    ensures LoopEffect(v, l).v.writeChecks <==> v.writeChecks && !OverRestarted(v, l)
    ensures l == Running(OnChannel(Write, RestartNow)) ==> LoopEffect(v, l).next == Idle
  {
    LoopTotalsOf(v, l);
    if l.Running? && l.task.OnChannel? {
      ChannelWriteChecks(v, l.task.d, l.task.channel);
    }
  }

  lemma ChannelWriteChecks(v: Vars, d: Dir, p: ChannelPc)
    requires ChannelOk(v.enabled, v.w) && (v.writeChecks ==> v.w.restarts <= 2)
    requires p.SuppressTest? && v.enabled ==> Ch(v, d).inMask
    ensures ChannelEffect(v, d, p).v.writeChecks
            <==> v.writeChecks && !(d.Write? && p.RestartNow? && v.enabled && v.w.restarts >= 2)
  {
    hide SuppressEnabled, RestartEnabled, WithCh;
    match p
    case ResetNow => WithChTotals(v, d, Ch(v, d).(events := 0, unseen := false, left := true));
    case SuppressStore => WithChTotals(v, d, Ch(v, d).(events := 0, unseen := false, rearmed := false));
    case SuppressTest => SuppressTotals(v, d);
    case RestartNow => RestartTotals(v, d);
  }
}
