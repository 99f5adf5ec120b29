/** The descriptor protocol over whole runs: every step keeps the invariant, and what
    follows from it. */
module DescriptorSafety {
  import opened Counting
  import opened Prelude
  import opened Descriptor
  import opened DescriptorInvariant

  // --------------------------------------------------- from movers to the state

  function OfPosted(x: Option<Task>, k: Kind): nat {
    match x case Some(x) => OfTask(x, k) case None => 0
  }

  function OfSpawned(x: Option<Pc>, k: Kind): nat {
    match x case Some(x) => OfFiber(x, k) case None => 0
  }

  lemma PostedTotal(tasks: seq<Task>, x: Option<Task>, k: Kind)
    ensures Sum(AndThen(tasks, x), TaskWeight(k)) == Sum(tasks, TaskWeight(k)) + OfPosted(x, k)
  {
    if x.Some? {
      SumAppend(tasks, x.value, TaskWeight(k));
    }
  }

  lemma SpawnedTotal(fibers: seq<Pc>, x: Option<Pc>, k: Kind)
    ensures Sum(AndThen(fibers, x), FiberWeight(k)) == Sum(fibers, FiberWeight(k)) + OfSpawned(x, k)
  {
    if x.Some? {
      SumAppend(fibers, x.value, FiberWeight(k));
    }
  }

  /** Everything but fiber `i`. */
  function WithoutFiber(s: State, i: nat): Tokens
    requires i < |s.fibers|
  {
    var pc := s.fibers[i];
    Tokens(Total(s, OwnRead) - OfFiber(pc, OwnRead), Total(s, OwnWrite) - OfFiber(pc, OwnWrite),
           Total(s, Erring) - OfFiber(pc, Erring), Total(s, Disabling) - OfFiber(pc, Disabling),
           Total(s, Cleaning) - OfFiber(pc, Cleaning), Total(s, Examining) - OfFiber(pc, Examining))
  }

  /** Everything but the event loop. */
  function WithoutLoop(s: State): Tokens {
    Tokens(Total(s, OwnRead) - OfLoop(s.loop, OwnRead), Total(s, OwnWrite) - OfLoop(s.loop, OwnWrite),
           Total(s, Erring) - OfLoop(s.loop, Erring), Total(s, Disabling) - OfLoop(s.loop, Disabling),
           Total(s, Cleaning) - OfLoop(s.loop, Cleaning), Total(s, Examining) - OfLoop(s.loop, Examining))
  }

  function AfterFiber(s: State, i: nat, e: Effect<Pc>): State
    requires i < |s.fibers|
  {
    State(e.v, s.loop, AndThen(s.tasks, e.posted), s.fibers[i := e.next])
  }

  function AfterLoop(s: State, e: Effect<LoopPc>): State {
    State(e.v, e.next, AndThen(s.tasks, e.posted), AndThen(s.fibers, e.spawned))
  }

  lemma FiberMoveTotal(s: State, i: nat, e: Effect<Pc>, k: Kind)
    requires i < |s.fibers|
    ensures OfFiber(s.fibers[i], k) <= Total(s, k)
    ensures Total(AfterFiber(s, i, e), k)
            == Total(s, k) - OfFiber(s.fibers[i], k) + OfFiber(e.next, k) + OfPosted(e.posted, k)
  {
    SumUpdate(s.fibers, i, e.next, FiberWeight(k));
    SumAtLeast(s.fibers, i, FiberWeight(k));
    PostedTotal(s.tasks, e.posted, k);
  }

  lemma LoopMoveTotal(s: State, e: Effect<LoopPc>, k: Kind)
    ensures OfLoop(s.loop, k) <= Total(s, k)
    ensures Total(AfterLoop(s, e), k)
            == Total(s, k) - OfLoop(s.loop, k) + OfLoop(e.next, k) + OfPosted(e.posted, k) + OfSpawned(e.spawned, k)
  {
    PostedTotal(s.tasks, e.posted, k);
    SpawnedTotal(s.fibers, e.spawned, k);
  }

  /** Adding a task or a fiber, token by token. */
  lemma PostedTokens(t: Tokens, x: Option<Task>)
    ensures WithPosted(t, x)
            == Tokens(t.r + OfPosted(x, OwnRead), t.w + OfPosted(x, OwnWrite), t.e + OfPosted(x, Erring),
                      t.k + OfPosted(x, Disabling), t.c + OfPosted(x, Cleaning), t.h + OfPosted(x, Examining))
  {
  }

  lemma SpawnedTokens(t: Tokens, x: Option<Pc>)
    ensures WithSpawned(t, x)
            == Tokens(t.r + OfSpawned(x, OwnRead), t.w + OfSpawned(x, OwnWrite), t.e + OfSpawned(x, Erring),
                      t.k + OfSpawned(x, Disabling), t.c + OfSpawned(x, Cleaning), t.h + OfSpawned(x, Examining))
  {
  }

  lemma FiberMoveTotals(s: State, i: nat, e: Effect<Pc>)
    requires i < |s.fibers|
    ensures Sound(WithoutFiber(s, i)) && WithFiber(WithoutFiber(s, i), s.fibers[i]) == Totals(s)
    ensures Totals(AfterFiber(s, i, e)) == FiberTotals(e, WithoutFiber(s, i))
  {
    hide Total, OfFiber, OfTask, Sum;
    forall k: Kind {
      FiberMoveTotal(s, i, e, k);
    }
    PostedTokens(WithFiber(WithoutFiber(s, i), e.next), e.posted);
  }

  lemma LoopMoveTotals(s: State, e: Effect<LoopPc>)
    ensures Sound(WithoutLoop(s)) && WithLoop(WithoutLoop(s), s.loop) == Totals(s)
    ensures Totals(AfterLoop(s, e)) == LoopTotals(e, WithoutLoop(s))
  {
    hide Total, OfFiber, OfTask, OfLoop, Sum;
    forall k: Kind {
      LoopMoveTotal(s, e, k);
    }
    SpawnedTokens(WithoutLoop(s), e.spawned);
    PostedTokens(WithSpawned(WithoutLoop(s), e.spawned), e.posted);
  }

  /** Another fiber's facts survive a step of the mover. */
  lemma FactsSurvive(v: Vars, u: Vars, rest: Tokens, pc: Pc)
    requires FiberFacts(v, pc) && Stable(v, u, rest)
    requires pc.Handling? ==> Owners(rest, pc.d) > 0
    ensures FiberFacts(u, pc)
  {
  }

  /** A fiber other than the mover that owns a direction is in `rest`. */
  lemma OtherOwner(s: State, i: nat, j: nat)
    requires i < |s.fibers| && j < |s.fibers| && i != j && s.fibers[j].Handling?
    ensures Owners(WithoutFiber(s, i), s.fibers[j].d) > 0
  {
    var k := Own(s.fibers[j].d);
    SumAtLeastTwo(s.fibers, i, j, FiberWeight(k));
  }

  lemma OwnerNotLoop(s: State, j: nat)
    requires j < |s.fibers| && s.fibers[j].Handling?
    ensures Owners(WithoutLoop(s), s.fibers[j].d) > 0
  {
    SumAtLeast(s.fibers, j, FiberWeight(Own(s.fibers[j].d)));
  }

  lemma TasksSurvive(v: Vars, u: Vars, tasks: seq<Task>, x: Option<Task>)
    requires forall i: nat | i < |tasks| :: QueuedFacts(v, tasks[i])
    requires v.killed ==> u.killed
    requires x.Some? ==> QueuedFacts(u, x.value)
    ensures forall i: nat | i < |AndThen(tasks, x)| :: QueuedFacts(u, AndThen(tasks, x)[i])
  {
  }

  lemma FiberKeepsInv(s: State, i: nat, e: Effect<Pc>)
    requires Inv(s) && i < |s.fibers|
    requires
      var rest := WithoutFiber(s, i);
      FiberBefore(s.v, s.loop, s.fibers[i], rest) ==>
        Quiet(s.v, e.v) && QuietAfter(s.v, e, rest) && TokensOk(e.v, FiberTotals(e, rest))
    ensures Inv(AfterFiber(s, i, e))
  {
    var rest := WithoutFiber(s, i);
    var t := AfterFiber(s, i, e);
    FiberMoveTotals(s, i, e);
    QuietCore(s.v, e.v, s.loop);
    TasksSurvive(s.v, e.v, s.tasks, e.posted);
    forall j: nat | j < |t.fibers| ensures FiberFacts(t.v, t.fibers[j]) {
      if j != i {
        if s.fibers[j].Handling? {
          OtherOwner(s, i, j);
        }
        FactsSurvive(s.v, e.v, rest, s.fibers[j]);
      }
    }
  }

  lemma LoopKeepsInv(s: State, e: Effect<LoopPc>)
    requires Inv(s)
    requires LoopBefore(s.v, s.loop, WithoutLoop(s)) ==> LoopAfter(s.v, e, WithoutLoop(s))
    requires e.posted.Some? ==> !e.posted.value.Reset?
    requires e.spawned.Some? ==> FiberFacts(e.v, e.spawned.value)
    ensures Inv(AfterLoop(s, e))
  {
    var t := AfterLoop(s, e);
    LoopMoveTotals(s, e);
    TasksSurvive(s.v, e.v, s.tasks, e.posted);
    forall j: nat | j < |t.fibers| ensures FiberFacts(t.v, t.fibers[j]) {
      if j < |s.fibers| {
        if s.fibers[j].Handling? {
          OwnerNotLoop(s, j);
        }
        FactsSurvive(s.v, e.v, WithoutLoop(s), s.fibers[j]);
      }
    }
  }

  // ------------------------------------------------- every step keeps the invariant

  lemma FiberStepKeepsInv(s: State, i: nat, a: Action, e: Effect<Pc>)
    requires Inv(s) && i < |s.fibers| && FiberEffect(s.v, s.fibers[i], a) == Some(e)
    ensures e.spawned.None? && Inv(AfterFiber(s, i, e))
  {
    var rest := WithoutFiber(s, i);
    FiberMoveTotals(s, i, e);
    FiberMover(s.v, s.loop, s.fibers[i], a, e, rest);
    FiberKeepsInv(s, i, e);
  }

  lemma FiberStepIsQuiet(s: State, i: nat, a: Action, e: Effect<Pc>)
    requires Inv(s) && i < |s.fibers| && FiberEffect(s.v, s.fibers[i], a) == Some(e)
    ensures Quiet(s.v, e.v)
  {
    FiberMoveTotals(s, i, e);
    FiberMover(s.v, s.loop, s.fibers[i], a, e, WithoutFiber(s, i));
  }

  lemma FiberMover(v: Vars, l: LoopPc, pc: Pc, a: Action, e: Effect<Pc>, rest: Tokens)
    requires FiberBefore(v, l, pc, rest) && FiberEffect(v, pc, a) == Some(e)
    ensures Quiet(v, e.v) && QuietAfter(v, e, rest) && TokensOk(e.v, FiberTotals(e, rest))
  {
    hide FiberBefore, Quiet, QuietAfter, TokensOk, FiberTotals, HandlingEffect, ErrorEffect;
    match pc
    case Handling(d, p) =>
      HandlingMover(v, l, d, p, a, e, rest);
    case HandlingError(p) =>
      ErrorQuiet(v, l, p, rest);
      ErrorTokens(v, l, p, rest);
    case Checking(p) =>
      CheckingQuiet(v, l, p, a, rest);
      CheckingTokens(v, l, p, a, rest);
    case KillPost =>
      KillPostMover(v, l, e, rest);
  }

  lemma HandlingMover(v: Vars, l: LoopPc, d: Dir, p: EventPc, a: Action, e: Effect<Pc>, rest: Tokens)
    requires FiberBefore(v, l, Handling(d, p), rest) && HandlingEffect(v, d, p, a) == Some(e)
    ensures Quiet(v, e.v) && QuietAfter(v, e, rest) && TokensOk(e.v, FiberTotals(e, rest))
  {
    hide FiberBefore, Quiet, QuietAfter, TokensOk, FiberTotals, HandlingEffect;
    match p
    case Started =>
      StartedQuiet(v, l, d, a, rest);
      StartedTokens(v, l, d, a, rest);
    case InCallback =>
      ReturnQuiet(v, l, d, a, rest);
      ReturnTokens(v, l, d, a, rest);
    case Decrement =>
      DecrementQuiet(v, l, d, a, rest);
      DecrementTokens(v, l, d, a, rest);
    case _ =>
      PostQuiet(v, l, d, p, a, rest);
      PostTokens(v, l, d, p, a, rest);
  }

  /** The second half of Kill(): the disable task is posted. */
  lemma KillPostMover(v: Vars, l: LoopPc, e: Effect<Pc>, rest: Tokens)
    requires FiberBefore(v, l, KillPost, rest) && e == Effect(v, Done, None, Some(Disable))
    ensures Quiet(v, e.v) && QuietAfter(v, e, rest) && TokensOk(e.v, FiberTotals(e, rest))
  {
  }

  lemma LoopMover(v: Vars, l: LoopPc, rest: Tokens)
    requires LoopBefore(v, l, rest) && !l.Idle?
    ensures LoopAfter(v, LoopEffect(v, l), rest)
  {
    hide LoopBefore, FireEffect, TaskEffect, Core, Stable, TokensOk, LoopTotals, CheckStep, Resume;
    match l
    case Firing(p) => FiringMover(v, p, rest);
    case Running(Closing(p)) => ClosingMover(v, p, rest);
    case Running(OnChannel(d, p)) => ChannelMover(v, d, p, rest);
    case LoopChecking(p, after) => LoopCheckingMover(v, p, after, rest);
  }

  lemma FiringMover(v: Vars, p: FirePc, rest: Tokens)
    requires LoopBefore(v, Firing(p), rest)
    ensures LoopAfter(v, FireEffect(v, p), rest)
  {
    hide LoopBefore, FireEffect, Stable, TokensOk, LoopTotals, Flags, LoopFacts, ChannelsOk;
    match p
    case Fire(read, write) =>
      FireFlags(v, read, write, rest);
      FireChannels(v, read, write, rest);
      FireTokens(v, read, write, rest);
    case StartFiber(d, write) => StartKept(v, d, write, rest);
    case _ => FireErrorKept(v, p, rest);
  }

  lemma ClosingMover(v: Vars, p: ClosingPc, rest: Tokens)
    requires LoopBefore(v, Running(Closing(p)), rest)
    ensures LoopAfter(v, TaskEffect(v, Closing(p)), rest)
  {
    hide LoopBefore, ClosingEffect, Stable, TokensOk, LoopTotals, Flags, LoopFacts, ChannelsOk;
    ClosingFlags(v, p, rest);
    ClosingChannels(v, p, rest);
    ClosingTokens(v, p, rest);
  }

  lemma ChannelMover(v: Vars, d: Dir, p: ChannelPc, rest: Tokens)
    requires LoopBefore(v, Running(OnChannel(d, p)), rest)
    ensures LoopAfter(v, TaskEffect(v, OnChannel(d, p)), rest)
  {
    hide LoopBefore, ChannelEffect, Stable, TokensOk, LoopTotals, Flags, LoopFacts, ChannelsOk;
    match p
    case ResetNow => ResetKept(v, d, rest);
    case SuppressStore => SuppressStoreKept(v, d, rest);
    case SuppressTest =>
      SuppressTestFlags(v, d, rest);
      SuppressTestStable(v, d, rest);
      SuppressTestChannels(v, d, rest);
      SuppressTestTokens(v, d, rest);
    case RestartNow =>
      RestartFlags(v, d, rest);
      RestartStable(v, d, rest);
      RestartChannels(v, d, rest);
      RestartTokens(v, d, rest);
  }

  lemma LoopCheckingMover(v: Vars, p: CheckPc, after: After, rest: Tokens)
    requires LoopBefore(v, LoopChecking(p, after), rest)
    ensures LoopAfter(v, LoopEffect(v, LoopChecking(p, after)), rest)
  {
    hide LoopBefore, LoopEffect, Stable, TokensOk, LoopTotals, Flags, LoopFacts, ChannelsOk;
    LoopCheckingFlags(v, p, after, rest);
    LoopCheckingChannels(v, p, after, rest);
    LoopCheckingTokens(v, p, after, rest);
  }

  lemma LoopStepKeepsInv(s: State)
    requires Inv(s) && !s.loop.Idle?
    ensures Inv(AfterLoop(s, LoopEffect(s.v, s.loop)))
  {
    var e := LoopEffect(s.v, s.loop);
    LoopMoveTotals(s, e);
    LoopMover(s.v, s.loop, WithoutLoop(s));
    SpawnedFacts(s.v, s.loop);
    LoopKeepsInv(s, e);
  }

  lemma SpawnedFacts(v: Vars, l: LoopPc)
    ensures var e := LoopEffect(v, l);
            && (e.posted.Some? ==> !e.posted.value.Reset?)
            && (e.spawned.Some? ==> FiberFacts(e.v, e.spawned.value))
  {
    hide Check, WithCh, CountSuppress, RestartEnabled, Rearm;
    match l
    case Idle =>
    case Firing(_) =>
    case Running(_) =>
    case LoopChecking(_, _) =>
  }

  /** The event loop takes the first task off the queue. */
  lemma RunTaskKeepsInv(s: State)
    requires Inv(s) && s.loop.Idle? && s.tasks != []
    ensures Inv(s.(tasks := s.tasks[1..], loop := Running(Entry(s.tasks[0]))))
  {
    var t := s.(tasks := s.tasks[1..], loop := Running(Entry(s.tasks[0])));
    forall k: Kind ensures Total(t, k) == Total(s, k) {
      assert OfLoop(t.loop, k) == OfTask(s.tasks[0], k);
    }
    assert QueuedFacts(s.v, s.tasks[0]);
    EntryCore(s.v, s.tasks[0]);
  }

  lemma EntryCore(v: Vars, x: Task)
    requires Core(v, Idle) && QueuedFacts(v, x)
    ensures Core(v, Running(Entry(x)))
  {
  }

  lemma PollKeepsInv(s: State, p: FirePc)
    requires Inv(s) && s.loop.Idle? && s.v.enabled
    requires p.ErrorExchange? || (p.Fire? && (p.read ==> s.v.r.armed) && (p.write ==> s.v.w.armed))
    ensures Inv(s.(loop := Firing(p)))
  {
    var t := s.(loop := Firing(p));
    assert forall k: Kind :: Total(t, k) == Total(s, k);
  }

  lemma KillCore(v: Vars, l: LoopPc)
    requires Core(v, l)
    ensures Core(v.(killed := true), l)
  {
    hide ChannelOk;
    LoopFactsKilled(v, l);
  }

  lemma LoopFactsKilled(v: Vars, l: LoopPc)
    requires LoopFacts(v, l)
    ensures LoopFacts(v.(killed := true), l)
  {
  }

  lemma KillTokens(v: Vars, l: LoopPc, t: Tokens)
    requires Core(v, l) && TokensOk(v, t) && !v.killed
    ensures TokensOk(v.(killed := true), t.(k := t.k + 1))
  {
  }

  lemma KillCallKeepsInv(s: State)
    requires Inv(s) && !s.v.killed
    ensures Inv(s.(v := s.v.(killed := true), fibers := s.fibers + [KillPost]))
  {
    hide Core, TokensOk, Sum;
    var t := s.(v := s.v.(killed := true), fibers := s.fibers + [KillPost]);
    forall k: Kind ensures Total(t, k) == Total(s, k) + OfFiber(KillPost, k) {
      SumAppend(s.fibers, KillPost, FiberWeight(k));
    }
    forall j: nat | j < |t.fibers| ensures FiberFacts(t.v, t.fibers[j]) {
      assert j < |s.fibers| ==> FiberFacts(s.v, s.fibers[j]);
    }
    KillCore(s.v, s.loop);
    KillTokens(s.v, s.loop, Totals(s));
  }

  lemma RestartCallKeepsInv(s: State, d: Dir)
    requires Inv(s)
    ensures Inv(s.(tasks := s.tasks + [Restart(d)]))
  {
    forall k: Kind {
      SumAppend(s.tasks, Restart(d), TaskWeight(k));
    }
  }

  lemma StepKeepsInv(s: State, l: Label, t: State)
    requires Inv(s) && Next(s, l) == Some(t)
    ensures Inv(t)
  {
    hide Inv, LoopEffect, FiberEffect, Entry;
    match l
    case KillCall => if !s.v.killed { KillCallKeepsInv(s); }
    case RestartCall(d) => RestartCallKeepsInv(s, d);
    case Poll(read, write) => PollKeepsInv(s, Fire(read, write));
    case PollError => PollKeepsInv(s, ErrorExchange);
    case RunTask => RunTaskKeepsInv(s);
    case LoopStep => LoopStepKeepsInv(s);
    case FiberStep(i, a) =>
      var e := FiberEffect(s.v, s.fibers[i], a).value;
      FiberStepKeepsInv(s, i, a, e);
      assert t == AfterFiber(s, i, e);
  }

  lemma InitInv(s: State)
    requires Init(s)
    ensures Inv(s)
  {
    assert forall k: Kind :: Total(s, k) == 0;
  }

  /** The invariant holds in every state of every run. */
  lemma {:induction false} RunInv(trace: seq<State>, n: nat)
    requires Descriptor.Run(trace) && n < |trace|
    ensures Inv(trace[n])
  {
    if n == 0 {
      InitInv(trace[0]);
    } else {
      RunInv(trace, n - 1);
      assert Step(trace[n - 1], trace[n]);
      var l: Label :| Next(trace[n - 1], l) == Some(trace[n]);
      StepKeepsInv(trace[n - 1], l, trace[n]);
    }
  }
}
