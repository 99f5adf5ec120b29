/** The order in which the event loop runs the task that resets a counter after `Leaving`
    and the task that disables the descriptor. */
module DescriptorOrder {
  import opened Counting
  import opened Prelude
  import opened Descriptor
  import opened DescriptorInvariant
  import opened DescriptorSafety

  function Resetting(d: Dir): LoopPc { Running(OnChannel(d, ResetNow)) }

  function Disabler(): LoopPc { Running(Closing(DisableNow)) }

  /** The fiber that won the compare-and-swap in Kill() has not posted its task yet. */
  ghost predicate KillInProgress(s: State) {
    exists j: nat :: j < |s.fibers| && s.fibers[j] == KillPost
  }

  /** The disable task comes after the reset task at `q`, if at all. */
  predicate ResetFirst(s: State, d: Dir, q: nat) {
    && s.v.enabled && s.loop != Disabler()
    && q < |s.tasks| && s.tasks[q] == Reset(d)
    && forall j: nat | j < q :: s.tasks[j] != Disable
  }

  /** The disable task has run, is running, or is at `q` with no reset task before it. */
  predicate DisableFirst(s: State, d: Dir, q: nat) {
    || !s.v.enabled
    || s.loop == Disabler()
    || (q < |s.tasks| && s.tasks[q] == Disable && forall j: nat | j < q :: s.tasks[j] != Reset(d))
  }

  /** What a step of the event loop does to the flag and where it leads. */
  predicate Orderly(v: Vars, l: LoopPc, e: Effect<LoopPc>) {
    && (if l == Disabler() then !e.v.enabled else e.v.enabled == v.enabled)
    && e.next != Disabler() && e.next != Resetting(Read) && e.next != Resetting(Write)
  }

  lemma FireOrderly(v: Vars, p: FirePc)
    ensures Orderly(v, Firing(p), FireEffect(v, p))
  {
    hide FireOne;
    FireOneOrderly(v, Read, p.Fire? && p.write);
    FireOneOrderly(v, Write, false);
  }

  lemma FireOneOrderly(v: Vars, d: Dir, rest: bool)
    ensures FireOne(v, d, rest).v.enabled == v.enabled && FireOne(v, d, rest).next.Firing?
  {
    hide WithCh;
    WithChEnabled(v, d, Ch(v, d).(events := Ch(v, d).events + 1, unseen := true));
  }

  lemma ClosingOrderly(v: Vars, p: ClosingPc)
    ensures Orderly(v, Running(Closing(p)), ClosingEffect(v, p))
  {
    match p case DisableNow => case SetPending => case CleanupTest => case Detach => case CallOnCleanup =>
  }

  lemma ChannelOrderly(v: Vars, d: Dir, p: ChannelPc)
    ensures Orderly(v, Running(OnChannel(d, p)), ChannelEffect(v, d, p))
  {
    hide WithCh, CountSuppress, RestartEnabled;
    match p
    case ResetNow => WithChEnabled(v, d, Ch(v, d).(events := 0, unseen := false, left := true));
    case SuppressStore => WithChEnabled(v, d, Ch(v, d).(events := 0, unseen := false, rearmed := false));
    case SuppressTest => ChannelSameEvents(v, d);
    case RestartNow => ChannelSameEvents(v, d);
  }

  lemma WithChEnabled(v: Vars, d: Dir, c: Channel)
    ensures WithCh(v, d, c).enabled == v.enabled
  {
    match d case Read => case Write =>
  }

  lemma CheckOrderly(v: Vars, p: CheckPc, after: After)
    ensures Orderly(v, LoopChecking(p, after), LoopEffect(v, LoopChecking(p, after)))
  {
    match p case LoadPending => case LoadRead => case LoadWrite => case LoadError => case Exchange => case Post =>
  }

  lemma LoopOrderly(v: Vars, l: LoopPc)
    ensures Orderly(v, l, LoopEffect(v, l))
  {
    hide FireEffect, ClosingEffect, ChannelEffect, CheckStep, Resume;
    match l
    case Idle =>
    case Firing(p) => FireOrderly(v, p);
    case Running(Closing(p)) => ClosingOrderly(v, p);
    case Running(OnChannel(d, p)) => ChannelOrderly(v, d, p);
    case LoopChecking(p, after) => CheckOrderly(v, p, after);
  }

  /** Everything but taking a task off the queue appends to it, and only the disable task
      changes whether the descriptor is enabled. */
  predicate Appends(s: State, t: State) {
    && s.tasks <= t.tasks
    && (if s.loop == Disabler() then t.loop == Disabler() || !t.v.enabled
        else t.v.enabled == s.v.enabled && t.loop != Disabler())
    && (t.loop == s.loop || (t.loop != Resetting(Read) && t.loop != Resetting(Write)))
  }

  lemma StepAppends(s: State, l: Label, t: State)
    requires Inv(s) && Next(s, l) == Some(t) && !l.RunTask?
    ensures Appends(s, t)
  {
    hide Inv, LoopEffect, FiberEffect;
    match l
    case LoopStep => LoopOrderly(s.v, s.loop);
    case FiberStep(i, a) => FiberStepIsQuiet(s, i, a, FiberEffect(s.v, s.fibers[i], a).value);
    case _ =>
  }

  /** As long as the reset task has not been taken off the queue, its order with the
      disable task stays what it is. */
  lemma ResetStaysFirst(s: State, l: Label, t: State, d: Dir, q: nat) returns (r: nat)
    requires Inv(s) && Next(s, l) == Some(t) && ResetFirst(s, d, q)
    ensures t.v.enabled && (t.loop == Resetting(d) || ResetFirst(t, d, r))
  {
    hide Inv;
    r := q;
    if l.RunTask? {
      if q > 0 {
        r := q - 1;
        assert s.tasks[0] != Disable;
        assert forall j: nat | j < r :: t.tasks[j] == s.tasks[j + 1];
      }
    } else {
      hide Next;
      StepAppends(s, l, t);
    }
  }

  lemma DisableStaysFirst(s: State, l: Label, t: State, d: Dir, q: nat) returns (r: nat)
    requires Inv(s) && Next(s, l) == Some(t) && DisableFirst(s, d, q) && s.loop != Resetting(d)
    ensures DisableFirst(t, d, r) && (t.loop == Resetting(d) ==> !t.v.enabled)
  {
    hide Inv;
    r := q;
    if l.RunTask? {
      if s.v.enabled {
        if q > 0 {
          r := q - 1;
          assert s.tasks[0] != Reset(d);
          assert forall j: nat | j < r :: t.tasks[j] == s.tasks[j + 1];
        }
      }
    } else {
      hide Next;
      StepAppends(s, l, t);
    }
  }

  /** The reset task has not begun in any state after `p` and before `r`. */
  predicate NotBefore(trace: seq<State>, d: Dir, p: nat, r: nat)
    requires r <= |trace|
  {
    forall k | p < k < r :: trace[k].loop != Resetting(d)
  }

  lemma {:induction false} EnabledUntilReset(trace: seq<State>, d: Dir, p: nat, q: nat, r: nat) returns (q': nat)
    requires Descriptor.Run(trace) && p <= r < |trace| && ResetFirst(trace[p], d, q) && NotBefore(trace, d, p, r)
    ensures trace[r].v.enabled && (trace[r].loop == Resetting(d) || ResetFirst(trace[r], d, q'))
    decreases r
  {
    hide Inv, Next, ResetFirst;
    q' := q;
    if p < r {
      q' := EnabledUntilReset(trace, d, p, q, r - 1);
      RunInv(trace, r - 1);
      assert Step(trace[r - 1], trace[r]);
      var l: Label :| Next(trace[r - 1], l) == Some(trace[r]);
      if p == r - 1 {
        q' := q;
      }
      q' := ResetStaysFirst(trace[r - 1], l, trace[r], d, q');
    } else {
      ResetFirstEnabled(trace[p], d, q);
    }
  }

  lemma ResetFirstEnabled(s: State, d: Dir, q: nat)
    requires ResetFirst(s, d, q)
    ensures s.v.enabled
  {
  }

  lemma {:induction false} DisabledBeforeReset(trace: seq<State>, d: Dir, p: nat, q: nat, r: nat) returns (q': nat)
    requires Descriptor.Run(trace) && p <= r < |trace| && DisableFirst(trace[p], d, q) && NotBefore(trace, d, p, r)
    requires trace[p].loop != Resetting(d)
    ensures DisableFirst(trace[r], d, q') && (trace[r].loop == Resetting(d) ==> !trace[r].v.enabled)
    decreases r
  {
    hide Inv, Next, DisableFirst;
    q' := q;
    if p < r {
      q' := DisabledBeforeReset(trace, d, p, q, r - 1);
      RunInv(trace, r - 1);
      assert Step(trace[r - 1], trace[r]);
      var l: Label :| Next(trace[r - 1], l) == Some(trace[r]);
      q' := DisableStaysFirst(trace[r - 1], l, trace[r], d, q');
    }
  }

  /** A fiber about to post the reset task: nobody else has anything to do with the
      direction's counter, and the disable task is owed by exactly one. */
  lemma BeforePost(s: State, i: nat, d: Dir)
    requires Inv(s) && i < |s.fibers| && s.fibers[i] == Handling(d, PostReset)
    ensures s.v.killed && s.loop != Resetting(d) && Reset(d) !in s.tasks
    ensures KillInProgress(s) ==> s.v.enabled && s.loop != Disabler() && Disable !in s.tasks
    ensures !KillInProgress(s) ==> !s.v.enabled || s.loop == Disabler() || Disable in s.tasks
  {
    SumAtLeast(s.fibers, i, FiberWeight(Own(d)));
    assert FiberFacts(s.v, s.fibers[i]);
    if Reset(d) in s.tasks {
      var j: nat :| j < |s.tasks| && s.tasks[j] == Reset(d);
      SumAtLeast(s.tasks, j, TaskWeight(Own(d)));
    }
    DisableOwed(s);
  }

  lemma KillerHasToken(s: State)
    ensures Sum(s.fibers, FiberWeight(Disabling)) > 0 ==> KillInProgress(s)
  {
    if Sum(s.fibers, FiberWeight(Disabling)) > 0 {
      var j := SumWitness(s.fibers, FiberWeight(Disabling));
      assert s.fibers[j] == KillPost;
    }
  }

  lemma DisableOwed(s: State)
    requires Inv(s) && s.v.killed
    ensures KillInProgress(s) ==> s.v.enabled && s.loop != Disabler() && Disable !in s.tasks
    ensures !KillInProgress(s) ==> !s.v.enabled || s.loop == Disabler() || Disable in s.tasks
  {
    if KillInProgress(s) {
      var j: nat :| j < |s.fibers| && s.fibers[j] == KillPost;
      SumAtLeast(s.fibers, j, FiberWeight(Disabling));
      if Disable in s.tasks {
        var h: nat :| h < |s.tasks| && s.tasks[h] == Disable;
        SumAtLeast(s.tasks, h, TaskWeight(Disabling));
      }
    } else if s.v.enabled && s.loop != Disabler() {
      KillerHasToken(s);
      var h := SumWitness(s.tasks, TaskWeight(Disabling));
      assert s.tasks[h] == Disable;
    }
  }

  lemma AfterPost(s: State, i: nat, a: Action, d: Dir, t: State)
    requires Inv(s) && i < |s.fibers| && s.fibers[i] == Handling(d, PostReset)
    requires Next(s, FiberStep(i, a)) == Some(t)
    ensures t.tasks == s.tasks + [Reset(d)] && t.loop == s.loop && t.v.enabled == s.v.enabled
    ensures KillInProgress(s) ==> ResetFirst(t, d, |s.tasks|)
  {
    hide Inv;
    BeforePost(s, i, d);
    var e := Effect(Check(s.v, s.v.killed), Checking(LoadPending), None, Some(Reset(d)));
    assert FiberEffect(s.v, s.fibers[i], a) == Some(e);
  }

  lemma DisableQueued(s: State, t: State, d: Dir) returns (q: nat)
    requires t.tasks == s.tasks + [Reset(d)] && t.loop == s.loop && t.v.enabled == s.v.enabled
    requires Reset(d) !in s.tasks && (!s.v.enabled || s.loop == Disabler() || Disable in s.tasks)
    ensures DisableFirst(t, d, q)
  {
    q := 0;
    if Disable in s.tasks {
      q :| q < |s.tasks| && s.tasks[q] == Disable;
    }
  }

  /** The first time after a fiber has posted the reset task that the event loop begins
      it, the descriptor is still enabled if and only if the winning Kill() had not yet
      posted the disable task when the reset task was posted.  So the order the code
      relies on is right whenever that Kill() has returned. */
  lemma ResetBeforeDisableExactly(trace: seq<State>, p: nat, i: nat, a: Action, d: Dir, r: nat)
    requires Descriptor.Run(trace) && p < r < |trace|
    requires i < |trace[p].fibers| && trace[p].fibers[i] == Handling(d, PostReset)
    requires Next(trace[p], FiberStep(i, a)) == Some(trace[p + 1])
    requires trace[r].loop == Resetting(d) && NotBefore(trace, d, p, r)
    ensures trace[r].v.enabled <==> KillInProgress(trace[p])
  {
    hide Inv, Next, ResetFirst, DisableFirst, KillInProgress, Descriptor.Run;
    RunInv(trace, p);
    BeforePost(trace[p], i, d);
    AfterPost(trace[p], i, a, d, trace[p + 1]);
    if KillInProgress(trace[p]) {
      var q := EnabledUntilReset(trace, d, p + 1, |trace[p].tasks|, r);
    } else {
      var q := DisableQueued(trace[p], trace[p + 1], d);
      q := DisabledBeforeReset(trace, d, p + 1, q, r);
    }
  }
}
