/** Runs that show what the descriptor does not promise. */
module DescriptorRuns {
  import opened Prelude
  import opened Descriptor
  import opened DescriptorInvariant
  import opened DescriptorTheorems

  function Last(trace: seq<State>): State
    requires |trace| > 0
  {
    trace[|trace| - 1]
  }

  /** Some run ends in `s`. */
  ghost predicate Reachable(s: State) {
    exists trace: seq<State> :: Descriptor.Run(trace) && Last(trace) == s
  }

  lemma Start(s: State)
    requires Init(s)
    ensures Reachable(s)
  {
    var trace := [s];
    assert Descriptor.Run(trace) && Last(trace) == s;
  }

  /** A run goes on with any step its last state allows. */
  lemma Extend(s: State, l: Label, t: State)
    requires Reachable(s) && Next(s, l) == Some(t)
    ensures Reachable(t)
  {
    hide Next, Init;
    var trace: seq<State> :| Descriptor.Run(trace) && Last(trace) == s;
    var longer := trace + [t];
    forall k | 0 < k < |longer| ensures Step(longer[k - 1], longer[k]) {
      if k < |trace| {
        assert Step(trace[k - 1], trace[k]);
      } else {
        assert Next(longer[k - 1], l) == Some(longer[k]);
      }
    }
    assert Descriptor.Run(longer) && Last(longer) == t;
  }

  /** A step of the event loop that starts no fiber and posts no task. */
  lemma ExtendLoop(s: State, v: Vars, l: LoopPc)
    requires Reachable(s) && !s.loop.Idle? && LoopEffect(s.v, s.loop) == Move(v, l)
    ensures Reachable(s.(v := v, loop := l))
  {
    hide LoopEffect, Reachable;
    Extend(s, LoopStep, s.(v := v, loop := l));
  }

  /** A step of a fiber that posts no task. */
  lemma ExtendFiber(s: State, i: nat, a: Action, v: Vars, pc: Pc)
    requires Reachable(s) && i < |s.fibers| && FiberEffect(s.v, s.fibers[i], a) == Some(Move(v, pc))
    ensures Reachable(s.(v := v, fibers := s.fibers[i := pc]))
  {
    hide FiberEffect, Reachable;
    Extend(s, FiberStep(i, a), s.(v := v, fibers := s.fibers[i := pc]));
  }

  /** A step of a fiber that only posts a task. */
  lemma ExtendPost(s: State, i: nat, pc: Pc, x: Task)
    requires Reachable(s) && i < |s.fibers|
    requires FiberEffect(s.v, s.fibers[i], Ready) == Some(Effect(s.v, pc, None, Some(x)))
    ensures Reachable(s.(tasks := s.tasks + [x], fibers := s.fibers[i := pc]))
  {
    hide FiberEffect, Reachable;
    Extend(s, FiberStep(i, Ready), s.(tasks := s.tasks + [x], fibers := s.fibers[i := pc]));
  }

  /** The event loop takes the first task. */
  lemma ExtendTask(s: State, x: Task, rest: seq<Task>)
    requires Reachable(s) && s.loop.Idle? && s.tasks == [x] + rest
    ensures Reachable(s.(tasks := rest, loop := Running(Entry(x))))
  {
    hide Reachable;
    assert s.tasks[1..] == rest;
    Extend(s, RunTask, s.(tasks := rest, loop := Running(Entry(x))));
  }

  /** A descriptor just attached and enabled for the given directions. */
  function Attached(read: bool, write: bool): State {
    State(Vars(NewChannel(read), NewChannel(write), 0, false, false, false, false, true, true, 0, true, true),
          Idle, [], [])
  }

  function NewChannel(on: bool): Channel { Channel(0, One(on), on, on, false, false, false, false) }

  lemma StartAttached(read: bool, write: bool)
    ensures Reachable(Attached(read, write))
  {
    Start(Attached(read, write));
  }

  // ------------------------------------------------------------- write restarts

  /** Two calls of RestartWrite() for a descriptor that starts with its write event
      enabled are enough to make the check on the number of write restarts fail. */
  lemma WriteRestartsCanFail() returns (trace: seq<State>)
    ensures Descriptor.Run(trace) && !Last(trace).v.writeChecks
  {
    hide Reachable, Descriptor.Run;
    var s := Attached(false, true);
    StartAttached(false, true);
    var t := TwoRestarts(s);
    trace := Witness(t);
  }

  lemma Witness(s: State) returns (trace: seq<State>)
    requires Reachable(s)
    ensures Descriptor.Run(trace) && Last(trace) == s
  {
    trace :| Descriptor.Run(trace) && Last(trace) == s;
  }

  lemma TwoRestarts(s: State) returns (t: State)
    requires Reachable(s) && s.loop.Idle? && s.v.enabled && s.v.w.restarts == 1 && s.tasks == []
    ensures Reachable(t) && !t.v.writeChecks
  {
    hide Reachable, LoopEffect, Entry;
    Extend(s, RestartCall(Write), s.(tasks := s.tasks + [Restart(Write)]));
    assert s.tasks + [Restart(Write)] == [Restart(Write)];
    var a := s.(tasks := [Restart(Write)]);
    Extend(a, RestartCall(Write), a.(tasks := a.tasks + [Restart(Write)]));
    a := s.(tasks := [Restart(Write)] + [Restart(Write)]);
    a := RunWriteRestart(a, [Restart(Write)]);
    t := RunWriteRestart(a, []);
  }

  lemma RunWriteRestart(s: State, rest: seq<Task>) returns (t: State)
    requires Reachable(s) && s.loop.Idle? && s.v.enabled && s.v.w.restarts > 0 && s.tasks == [Restart(Write)] + rest
    ensures Reachable(t) && t.loop.Idle? && t.v.enabled && t.v.w.restarts == s.v.w.restarts + 1 && t.tasks == rest
    ensures t.v.writeChecks == (s.v.writeChecks && s.v.w.restarts <= 1)
  {
    hide Reachable;
    ExtendTask(s, Restart(Write), rest);
    var a := s.(tasks := rest, loop := Running(OnChannel(Write, RestartNow)));
    var v := CountRestart(s.v, Write);
    assert LoopEffect(a.v, a.loop) == Move(v, Idle);
    ExtendLoop(a, v, Idle);
    t := a.(v := v, loop := Idle);
  }

  // ------------------------------------------------------------------- leaving

  /** The event loop fires a read event, up to the moment the callback is running. */
  lemma DeliverRead(s: State)
    requires Reachable(s) && s.loop == Firing(Fire(true, false)) && s.v.r.events == 0
    ensures Reachable(State(s.v.(r := s.v.r.(events := 1, unseen := false)), Idle, s.tasks,
                            s.fibers + [Handling(Read, InCallback)]))
  {
    hide Reachable;
    var v := s.v.(r := s.v.r.(events := 1, unseen := true));
    var i, fibers := |s.fibers|, s.fibers + [Handling(Read, Started)];
    ExtendLoop(s, v, Firing(StartFiber(Read, false)));
    var a := State(v, Firing(Fire(false, false)), s.tasks, fibers);
    Extend(s.(v := v, loop := Firing(StartFiber(Read, false))), LoopStep, a);
    ExtendLoop(a, v, Idle);
    ExtendFiber(a.(loop := Idle), i, Ready, v.(r := v.r.(unseen := false)), Handling(Read, InCallback));
    assert fibers[i := Handling(Read, InCallback)] == s.fibers + [Handling(Read, InCallback)];
  }

  /** A callback leaves while the winning Kill() has not posted its task, and the event loop
      takes the reset task. */
  lemma LeaveEarly(s: State, i: nat) returns (t: State)
    requires Reachable(s) && s.loop.Idle? && !s.v.killed && s.v.checks && s.tasks == []
    requires i < |s.fibers| && s.fibers[i] == Handling(Read, InCallback)
    ensures Reachable(t) && t.loop == Running(OnChannel(Read, ResetNow)) && t.v == s.v.(killed := true)
  {
    hide Reachable;
    var v := s.v.(killed := true);
    var a := s.(v := v, fibers := s.fibers + [KillPost]);
    Extend(s, KillCall, a);
    ExtendFiber(a, i, Leaving, v, Handling(Read, PostReset));
    a := a.(fibers := a.fibers[i := Handling(Read, PostReset)]);
    ExtendPost(a, i, Checking(LoadPending), Reset(Read));
    a := a.(tasks := a.tasks + [Reset(Read)], fibers := a.fibers[i := Checking(LoadPending)]);
    assert a.tasks == [Reset(Read)] + [];
    ExtendTask(a, Reset(Read), []);
    t := a.(tasks := [], loop := Running(OnChannel(Read, ResetNow)));
  }

  lemma StartReading() returns (s: State)
    ensures Reachable(s) && s == Attached(true, false).(loop := Firing(Fire(true, false)))
  {
    hide Reachable;
    StartAttached(true, false);
    s := Attached(true, false).(loop := Firing(Fire(true, false)));
    Extend(Attached(true, false), Poll(true, false), s);
  }

  /** The task that resets a counter after `Leaving` can run while the descriptor is
      still enabled: the fiber that called Kill() may not have posted the disable task. */
  lemma ResetCanRunBeforeDisable() returns (trace: seq<State>)
    ensures Descriptor.Run(trace)
    ensures Last(trace).loop == Running(OnChannel(Read, ResetNow)) && Last(trace).v.enabled
  {
    hide Reachable, Descriptor.Run;
    var s := StartReading();
    DeliverRead(s);
    var a := State(s.v.(r := s.v.r.(events := 1, unseen := false)), Idle, s.tasks,
                   s.fibers + [Handling(Read, InCallback)]);
    var t := LeaveEarly(a, 0);
    trace := Witness(t);
  }

  /** The only read callback returns `Suppress`, but a restart has come before it. */
  lemma SuppressTooLate(s: State)
    requires Reachable(s) && s.loop.Idle? && s.tasks == [] && s.fibers == [Handling(Read, InCallback)]
    ensures Reachable(State(s.v.(r := s.v.r.(undrained := true)), Idle, [Restart(Read), Suppress(Read)],
                            [Checking(LoadPending)]))
  {
    hide Reachable;
    Extend(s, RestartCall(Read), s.(tasks := s.tasks + [Restart(Read)]));
    var a := s.(tasks := s.tasks + [Restart(Read)]);
    var v := s.v.(r := s.v.r.(undrained := true));
    ExtendFiber(a, 0, AskSuppress, v, Handling(Read, PostSuppress));
    a := a.(v := v, fibers := a.fibers[0 := Handling(Read, PostSuppress)]);
    ExtendPost(a, 0, Checking(LoadPending), Suppress(Read));
    assert a.tasks + [Suppress(Read)] == [Restart(Read), Suppress(Read)];
    assert a.fibers[0 := Checking(LoadPending)] == [Checking(LoadPending)];
  }

  /** The event loop runs both, and fires the event that the poller will not report. */
  lemma FireAgain(s: State)
    requires Reachable(s) && s.loop.Idle? && s.tasks == [Restart(Read), Suppress(Read)]
    requires s.v.enabled && !s.v.pending && s.v.checks && s.v.r.restarts == 1 && s.v.r.inMask
    ensures Reachable(State(s.v.(r := s.v.r.(events := 0, unseen := false, rearmed := false)),
                            Firing(Fire(true, false)), [], s.fibers))
  {
    hide Reachable;
    assert s.tasks == [Restart(Read)] + [Suppress(Read)];
    ExtendTask(s, Restart(Read), [Suppress(Read)]);
    var a := s.(tasks := [Suppress(Read)], loop := Running(OnChannel(Read, RestartNow)));
    var v := s.v.(r := s.v.r.(restarts := 2));
    ExtendLoop(a, v, Idle);
    assert a.tasks == [Suppress(Read)] + [];
    SuppressAgain(State(v, Idle, a.tasks, s.fibers));
  }

  lemma SuppressAgain(s: State)
    requires Reachable(s) && s.loop.Idle? && s.tasks == [Suppress(Read)] + []
    requires s.v.enabled && !s.v.pending && s.v.checks && s.v.r.restarts == 2 && s.v.r.inMask
    ensures Reachable(State(s.v.(r := s.v.r.(restarts := 1, events := 0, unseen := false, rearmed := false)),
                            Firing(Fire(true, false)), [], s.fibers))
  {
    hide Reachable;
    ExtendTask(s, Suppress(Read), []);
    var a := s.(tasks := [], loop := Running(OnChannel(Read, SuppressStore)));
    var v := s.v.(r := s.v.r.(events := 0, unseen := false, rearmed := false));
    ExtendLoop(a, v, LoopChecking(LoadPending, Tail(Read)));
    a := a.(v := v, loop := LoopChecking(LoadPending, Tail(Read)));
    ExtendLoop(a, v, Running(OnChannel(Read, SuppressTest)));
    a := a.(loop := Running(OnChannel(Read, SuppressTest)));
    ExtendLoop(a, v.(r := v.r.(restarts := 1)), Firing(Fire(true, false)));
  }

  /** Once a callback has left, data may stay behind in a direction that is armed. */
  lemma LeavingCanStall() returns (trace: seq<State>)
    ensures Descriptor.Run(trace)
    ensures var s := Last(trace);
            && s.v.enabled && s.v.r.armed && s.v.r.undrained && s.v.r.left
            && OwnerCount(s, Read) == 0 && !s.v.r.rearmed && !LoopAttends(s.loop, Read)
  {
    hide Reachable, Descriptor.Run, OwnerCount;
    var s := StartReading();
    DeliverRead(s);
    var a := State(s.v.(r := s.v.r.(events := 1, unseen := false)), Idle, s.tasks,
                   s.fibers + [Handling(Read, InCallback)]);
    assert a.fibers == [Handling(Read, InCallback)];
    SuppressTooLate(a);
    a := State(a.v.(r := a.v.r.(undrained := true)), Idle, [Restart(Read), Suppress(Read)], [Checking(LoadPending)]);
    FireAgain(a);
    a := State(a.v.(r := a.v.r.(events := 0, unseen := false, rearmed := false)), Firing(Fire(true, false)),
               [], a.fibers);
    DeliverRead(a);
    a := State(a.v.(r := a.v.r.(events := 1, unseen := false)), Idle, a.tasks, a.fibers + [Handling(Read, InCallback)]);
    a := LeaveEarly(a, 1);
    var v := a.v.(r := a.v.r.(events := 0, unseen := false, left := true));
    ExtendLoop(a, v, LoopChecking(LoadPending, Finish));
    trace := Witness(a.(v := v, loop := LoopChecking(LoadPending, Finish)));
    OneOwner(trace, |trace| - 1, Read);
  }
}
