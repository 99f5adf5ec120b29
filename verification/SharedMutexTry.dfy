/** What the operations promise beyond safety: they get a lock that is free, and `try_lock` and
    `try_lock_shared` give up only for a reason. */
module SharedMutexTry {
  import opened Counting
  import opened Prelude
  import opened SharedMutex

  /** The state after `n` steps of fiber `i` alone, none of them spurious. */
  function Alone(s: State, i: nat, n: nat): Option<State>
    decreases n
  {
    if n == 0 then Some(s)
    else if i >= |s.fibers| then None
    else match StepFiber(s, i, Proceed)
         case None => None
         case Some(t) => Alone(t, i, n - 1)
  }

  /** No reader has taken a unit. */
  predicate NoReaders(s: State) { WaitingIn(s) + HoldingIn(s) == 0 }

  predicate WriterIn(s: State) { CurrentPhase(s).Draining? || CurrentPhase(s).Exclusive? }

  lemma OpenQuota(s: State)
    requires Inv(s) && !WriterIn(s)
    ensures s.quota == MAX_READERS - WaitingIn(s) - HoldingIn(s)
  {
  }

  /** A fiber that holds nothing finds room for itself. */
  lemma {:induction false} RoomForOne(fs: seq<Pc>, i: nat)
    requires i < |fs| && Waiting(fs[i]) == 0 && Holding(fs[i]) == 0
    ensures Sum(fs, Waiting) + Sum(fs, Holding) <= |fs| - 1
  {
    if i == 0 {
      UnitsBound(fs[1..]);
    } else {
      RoomForOne(fs[1..], i - 1);
    }
  }

  /** A reader that asks while no writer is in can have a unit. */
  lemma ReaderQuota(s: State, i: nat)
    requires Inv(s) && i < |s.fibers| && Waiting(s.fibers[i]) == 0 && Holding(s.fibers[i]) == 0
    ensures s.quota > 1 <==> !WriterIn(s)
    ensures s.quota <= 0 <==> WriterIn(s)
    ensures s.checks && s.quota <= MAX_READERS
  {
    RoomForOne(s.fibers, i);
  }

  // ------------------------------------------------------------------ alone on the lock

  lemma FreeQuota(s: State)
    requires Inv(s) && s.writerLock.None?
    ensures s.quota == MAX_READERS <==> NoReaders(s)
  {
  }

  /** try_lock() run alone: it fails at once if the writer mutex is taken; otherwise it gets the
      lock if no reader is in, and if one is, leaves everything as it was. */
  lemma TryLockAlone(trace: seq<State>, k: nat, i: nat)
    requires SharedMutex.Run(trace) && k < |trace| && i < |trace[k].fibers|
    requires trace[k].fibers[i] == TryLocking(TryAcquireWriter)
    ensures var s := trace[k];
            if s.writerLock.Some? then Alone(s, i, 1) == Some(Goto(s, i, Idle))
            else if NoReaders(s) then
              Alone(s, i, 4) == Some(Goto(s, i, WriteHeld).(quota := 0, writerLock := Some(i)))
            else Alone(s, i, 4) == Some(Goto(s, i, Idle))
  {
    hide SharedMutex.Run, Inv, Alone, NoReaders;
    RunInv(trace, k);
    var s := trace[k];
    if s.writerLock.None? {
      FreeQuota(s);
      TryLockSteps(s, i);
    } else {
      TryLockFails(s, i);
    }
  }

  lemma TryLockFails(s: State, i: nat)
    requires i < |s.fibers| && s.fibers[i] == TryLocking(TryAcquireWriter) && s.writerLock.Some?
    ensures Alone(s, i, 1) == Some(Goto(s, i, Idle))
  {
    assert StepFiber(s, i, Proceed) == Some(Goto(s, i, Idle));
    assert Alone(Goto(s, i, Idle), i, 0) == Some(Goto(s, i, Idle));
  }

  lemma TryLockSteps(s: State, i: nat)
    requires i < |s.fibers| && s.fibers[i] == TryLocking(TryAcquireWriter) && s.writerLock.None?
    ensures Alone(s, i, 4) == Some(if s.quota == MAX_READERS
                                   then Goto(s, i, WriteHeld).(quota := 0, writerLock := Some(i))
                                   else Goto(s, i, Idle))
  {
    var a := Goto(s, i, TryLocking(TryLoad)).(writerLock := Some(i));
    var b := Goto(a, i, TryLocking(TryTest(s.quota)));
    var c := Goto(b, i, TryLocking(if s.quota != MAX_READERS then TryRelease else TryCas));
    var d := if s.quota != MAX_READERS then Goto(c, i, Idle).(writerLock := None)
             else Goto(c.(quota := 0), i, WriteHeld);
    assert StepFiber(s, i, Proceed) == Some(a) && StepFiber(a, i, Proceed) == Some(b);
    assert StepFiber(b, i, Proceed) == Some(c) && StepFiber(c, i, Proceed) == Some(d);
    assert Alone(c, i, 1) == Some(d) && Alone(b, i, 2) == Some(d) && Alone(a, i, 3) == Some(d);
    assert d.fibers == s.fibers[i := d.fibers[i]];
  }

  /** try_lock_shared() run alone: it gets its unit if no writer is in, and otherwise leaves
      everything as it was. */
  lemma TryLockSharedAlone(trace: seq<State>, k: nat, i: nat)
    requires SharedMutex.Run(trace) && k < |trace| && i < |trace[k].fibers|
    requires trace[k].fibers[i] == TryLockingShared(TrySharedLoad)
    ensures var s := trace[k];
            if WriterIn(s) then Alone(s, i, 2) == Some(Goto(s, i, Idle))
            else Alone(s, i, 3) == Some(Goto(s, i, ReadHeld).(quota := s.quota - 1))
  {
    hide SharedMutex.Run, Inv, Alone, WriterIn;
    RunInv(trace, k);
    var s := trace[k];
    ReaderQuota(s, i);
    TrySharedSteps(s, i);
  }

  lemma TrySharedSteps(s: State, i: nat)
    requires i < |s.fibers| && s.fibers[i] == TryLockingShared(TrySharedLoad) && s.checks
    requires s.quota <= MAX_READERS && s.quota != 1
    ensures s.quota <= 0 ==> Alone(s, i, 2) == Some(Goto(s, i, Idle))
    ensures s.quota > 0 ==> Alone(s, i, 3) == Some(Goto(s, i, ReadHeld).(quota := s.quota - 1))
  {
    var a := Goto(s, i, TryLockingShared(TrySharedTest(s.quota)));
    var b := Goto(a, i, if s.quota <= 0 then Idle else TryLockingShared(TrySharedCas(s.quota)));
    assert StepFiber(s, i, Proceed) == Some(a) && StepFiber(a, i, Proceed) == Some(b);
    assert Alone(a, i, 1) == Some(b);
    if s.quota > 0 {
      var c := Goto(b.(quota := s.quota - 1), i, ReadHeld);
      assert StepFiber(b, i, Proceed) == Some(c);
      assert Alone(b, i, 1) == Some(c) && Alone(a, i, 2) == Some(c);
      assert c.fibers == s.fibers[i := ReadHeld];
    } else {
      assert b.fibers == s.fibers[i := Idle];
    }
  }

  /** lock() run alone on a free lock gets it. */
  lemma LockAlone(trace: seq<State>, k: nat, i: nat)
    requires SharedMutex.Run(trace) && k < |trace| && i < |trace[k].fibers|
    requires trace[k].fibers[i] == Locking(LockAcquireWriter)
    requires trace[k].writerLock.None? && NoReaders(trace[k])
    ensures Alone(trace[k], i, 2) == Some(Goto(trace[k], i, WriteHeld).(quota := 0, writerLock := Some(i)))
  {
    hide SharedMutex.Run, Inv, Alone, NoReaders;
    RunInv(trace, k);
    FreeQuota(trace[k]);
    LockSteps(trace[k], i);
  }

  /** lock_shared() run alone while no writer is in gets its unit. */
  lemma LockSharedAlone(trace: seq<State>, k: nat, i: nat)
    requires SharedMutex.Run(trace) && k < |trace| && i < |trace[k].fibers|
    requires trace[k].fibers[i] == LockingShared(SharedSubtract) && !WriterIn(trace[k])
    ensures Alone(trace[k], i, 1) == Some(Goto(trace[k], i, ReadHeld).(quota := trace[k].quota - 1))
  {
    hide SharedMutex.Run, Inv, Alone, WriterIn;
    RunInv(trace, k);
    ReaderQuota(trace[k], i);
    SharedStep(trace[k], i);
  }

  lemma SharedStep(s: State, i: nat)
    requires i < |s.fibers| && s.fibers[i] == LockingShared(SharedSubtract) && s.checks && 1 < s.quota <= MAX_READERS
    ensures Alone(s, i, 1) == Some(Goto(s, i, ReadHeld).(quota := s.quota - 1))
  {
    var t := Goto(s, i, ReadHeld).(quota := s.quota - 1);
    assert StepFiber(s, i, Proceed) == Some(t);
    assert Alone(t, i, 0) == Some(t);
  }

  lemma LockSteps(s: State, i: nat)
    requires i < |s.fibers| && s.fibers[i] == Locking(LockAcquireWriter) && s.writerLock.None?
    requires s.quota == MAX_READERS
    ensures Alone(s, i, 2) == Some(Goto(s, i, WriteHeld).(quota := 0, writerLock := Some(i)))
  {
    var a := Goto(s, i, Locking(LockSubtract)).(writerLock := Some(i));
    var b := Goto(a, i, WriteHeld).(quota := 0);
    assert StepFiber(s, i, Proceed) == Some(a) && StepFiber(a, i, Proceed) == Some(b);
    assert Alone(a, i, 1) == Some(b);
    assert b.fibers == s.fibers[i := WriteHeld];
  }

  /** A call made by an idle fiber and then left alone. */
  function Called(s: State, i: nat, c: Choice, n: nat): Option<State>
    requires i < |s.fibers|
  {
    match StepFiber(s, i, c)
    case None => None
    case Some(t) => Alone(t, i, n)
  }

  /** In every state of every run in which nobody is in, each of the four operations, called by
      an idle fiber and left alone, gets the lock in its own mode. */
  lemma FreeLockIsGot(trace: seq<State>, k: nat, i: nat)
    requires SharedMutex.Run(trace) && k < |trace| && i < |trace[k].fibers| && trace[k].fibers[i].Idle?
    requires trace[k].writerLock.None? && NoReaders(trace[k])
    ensures var s := trace[k];
            var writing := Goto(s, i, WriteHeld).(quota := 0, writerLock := Some(i));
            var reading := Goto(s, i, ReadHeld).(quota := s.quota - 1);
            && Called(s, i, CallLock, 2) == Some(writing) && Called(s, i, CallTryLock, 4) == Some(writing)
            && Called(s, i, CallLockShared, 1) == Some(reading) && Called(s, i, CallTryLockShared, 3) == Some(reading)
  {
    hide SharedMutex.Run, Inv, Alone, NoReaders, WriterIn;
    RunInv(trace, k);
    var s := trace[k];
    FreeQuota(s);
    NoWriterIn(s);
    ReaderQuota(s, i);
    Begun(s, i, Locking(LockAcquireWriter), WriteHeld);
    Begun(s, i, TryLocking(TryAcquireWriter), WriteHeld);
    Begun(s, i, LockingShared(SharedSubtract), ReadHeld);
    Begun(s, i, TryLockingShared(TrySharedLoad), ReadHeld);
    LockSteps(Goto(s, i, Locking(LockAcquireWriter)), i);
    TryLockSteps(Goto(s, i, TryLocking(TryAcquireWriter)), i);
    SharedStep(Goto(s, i, LockingShared(SharedSubtract)), i);
    TrySharedSteps(Goto(s, i, TryLockingShared(TrySharedLoad)), i);
  }

  lemma NoWriterIn(s: State)
    requires s.writerLock.None?
    ensures !WriterIn(s)
  {
  }

  lemma Begun(s: State, i: nat, first: Pc, last: Pc)
    requires i < |s.fibers|
    ensures Goto(Goto(s, i, first), i, last) == Goto(s, i, last)
  {
    assert s.fibers[i := first][i := last] == s.fibers[i := last];
  }

  // ------------------------------------------------------------- reasons for giving up

  predicate Keeps(s: State, t: State, i: nat) {
    |t.fibers| == |s.fibers| && (i < |s.fibers| ==> t.fibers[i] == s.fibers[i])
  }

  lemma LockKeeps(s: State, j: nat, pc: LockPc, c: Choice, t: State, i: nat)
    requires j < |s.fibers| && i != j && StepLock(s, j, pc, c) == Some(t)
    ensures Keeps(s, t, i)
  {
    match pc
    case LockAcquireWriter =>
    case LockSubtract =>
    case LockAcquireWakeup(p) =>
    case LockTest(p) =>
    case LockAsleep(p) =>
    case LockReset(p) =>
  }

  lemma UnlockKeeps(s: State, j: nat, pc: UnlockPc, t: State, i: nat)
    requires j < |s.fibers| && i < |s.fibers| && i != j && StepUnlock(s, j, pc) == Some(t)
    requires Woken(s.fibers[i]) == s.fibers[i]
    ensures Keeps(s, t, i)
  {
    hide Woken;
    match pc
    case UnlockAcquireWakeup =>
    case UnlockAdd =>
    case UnlockGrant(was) =>
    case UnlockNotify =>
    case UnlockReleaseWriter =>
    case UnlockReleaseWakeup =>
  }

  lemma TryKeeps(s: State, j: nat, pc: TryPc, c: Choice, t: State, i: nat)
    requires j < |s.fibers| && i != j && StepTryLock(s, j, pc, c) == Some(t)
    ensures Keeps(s, t, i)
  {
    match pc case TryAcquireWriter => case TryLoad => case TryTest(was) => case TryCas => case TryRelease =>
  }

  lemma SharedKeeps(s: State, j: nat, pc: SharedPc, c: Choice, t: State, i: nat)
    requires j < |s.fibers| && i != j && StepShared(s, j, pc, c) == Some(t)
    ensures Keeps(s, t, i)
  {
    match pc case SharedSubtract => case WaitAcquire => case WaitTest => case WaitAsleep => case WaitRelease =>
  }

  lemma TrySharedKeeps(s: State, j: nat, pc: TrySharedPc, c: Choice, t: State, i: nat)
    requires j < |s.fibers| && i != j && StepTryShared(s, j, pc, c) == Some(t)
    ensures Keeps(s, t, i)
  {
    match pc case TrySharedLoad => case TrySharedTest(was) => case TrySharedCas(was) =>
  }

  lemma UnlockSharedKeeps(s: State, j: nat, pc: UnsharedPc, t: State, i: nat)
    requires j < |s.fibers| && i < |s.fibers| && i != j && StepUnlockShared(s, j, pc) == Some(t)
    requires Woken(s.fibers[i]) == s.fibers[i]
    ensures Keeps(s, t, i)
  {
    hide Woken;
    match pc case SharedAdd => case WakeAcquire => case WakeIncrement => case WakeNotify => case WakeRelease =>
  }

  /** A fiber that is not asleep is moved by its own steps only. */
  lemma OthersKeep(s: State, j: nat, c: Choice, t: State, i: nat)
    requires j < |s.fibers| && i < |s.fibers| && i != j && StepFiber(s, j, c) == Some(t)
    requires Woken(s.fibers[i]) == s.fibers[i]
    ensures Keeps(s, t, i)
  {
    hide Woken, StepLock, StepUnlock, StepTryLock, StepShared, StepTryShared, StepUnlockShared;
    match s.fibers[j]
    case Idle => match c { case CallLock => case CallTryLock => case CallLockShared => case CallTryLockShared => }
    case WriteHeld =>
    case ReadHeld =>
    case Locking(pc) => LockKeeps(s, j, pc, c, t, i);
    case Unlocking(pc) => UnlockKeeps(s, j, pc, t, i);
    case TryLocking(pc) => TryKeeps(s, j, pc, c, t, i);
    case LockingShared(pc) => SharedKeeps(s, j, pc, c, t, i);
    case TryLockingShared(pc) => TrySharedKeeps(s, j, pc, c, t, i);
    case UnlockingShared(pc) => UnlockSharedKeeps(s, j, pc, t, i);
  }

  /** Fiber `i` is inside one call of try_lock() from state `a` to state `n`. */
  ghost predicate InTryLock(trace: seq<State>, i: nat, a: nat, n: nat) {
    && a <= n < |trace|
    && (forall k | a <= k <= n :: i < |trace[k].fibers| && trace[k].fibers[i].TryLocking?)
    && trace[a].fibers[i] == TryLocking(TryAcquireWriter)
  }

  ghost predicate ReadersSeen(trace: seq<State>, a: nat, n: nat) {
    exists k: nat :: a <= k <= n < |trace| && !NoReaders(trace[k])
  }

  predicate GivingUp(pc: Pc) {
    match pc
    case TryLocking(TryTest(was)) => was != MAX_READERS
    case TryLocking(TryRelease) => true
    case _ => false
  }

  /** The value that makes try_lock() give up was read while a reader was in. */
  lemma ReadForReason(s: State, i: nat, c: Choice, t: State)
    requires Inv(s) && i < |s.fibers| && s.fibers[i].TryLocking? && StepFiber(s, i, c) == Some(t)
    requires i < |t.fibers| && GivingUp(t.fibers[i])
    ensures GivingUp(s.fibers[i]) || !NoReaders(s)
  {
    assert HasWriterLock(s.fibers[i]);
  }

  lemma {:induction false} ReasonSeen(trace: seq<State>, i: nat, a: nat, n: nat)
    requires SharedMutex.Run(trace) && InTryLock(trace, i, a, n) && GivingUp(trace[n].fibers[i])
    ensures ReadersSeen(trace, a, n)
    decreases n
  {
    hide Inv, StepFiber, NoReaders;
    var s, t := trace[n - 1], trace[n];
    assert Step(s, t);
    RunInv(trace, n - 1);
    var j: nat, c: Choice :| j < |s.fibers| && StepFiber(s, j, c) == Some(t);
    if j == i {
      ReadForReason(s, i, c, t);
    } else {
      OthersKeep(s, j, c, t, i);
    }
    if GivingUp(s.fibers[i]) {
      ReasonSeen(trace, i, a, n - 1);
    }
  }

  lemma LastTryStep(s: State, i: nat, c: Choice, t: State)
    requires Inv(s) && i < |s.fibers| && s.fibers[i].TryLocking? && StepFiber(s, i, c) == Some(t)
    requires i < |t.fibers| && t.fibers[i].Idle?
    ensures GivingUp(s.fibers[i]) || (s.writerLock.Some? && s.writerLock.value != i)
  {
    assert s.fibers[i] == TryLocking(TryAcquireWriter) ==> !HasWriterLock(s.fibers[i]);
  }

  /** try_lock() returns false only if, in some state of the call, another fiber had the writer
      mutex or a reader was in. */
  lemma TryLockGivesUp(trace: seq<State>, i: nat, a: nat, n: nat)
    requires SharedMutex.Run(trace) && n + 1 < |trace| && InTryLock(trace, i, a, n)
    requires i < |trace[n + 1].fibers| && trace[n + 1].fibers[i].Idle?
    ensures exists k: nat :: a <= k <= n &&
              ((trace[k].writerLock.Some? && trace[k].writerLock.value != i)
               || WaitingIn(trace[k]) + HoldingIn(trace[k]) > 0)
  {
    hide Inv, StepFiber, WaitingIn, HoldingIn;
    var s, t := trace[n], trace[n + 1];
    assert Step(trace[n + 1 - 1], trace[n + 1]);
    RunInv(trace, n);
    var j: nat, c: Choice :| j < |s.fibers| && StepFiber(s, j, c) == Some(t);
    if j != i {
      OthersKeep(s, j, c, t, i);
    }
    LastTryStep(s, i, c, t);
    if GivingUp(s.fibers[i]) {
      ReasonSeen(trace, i, a, n);
      var k: nat :| a <= k <= n < |trace| && !NoReaders(trace[k]);
    }
  }

  /** Fiber `i` is inside one call of try_lock_shared() from state `a` to state `n`. */
  ghost predicate InTryShared(trace: seq<State>, i: nat, a: nat, n: nat) {
    && a <= n < |trace|
    && (forall k | a <= k <= n :: i < |trace[k].fibers| && trace[k].fibers[i].TryLockingShared?)
    && trace[a].fibers[i] == TryLockingShared(TrySharedLoad)
  }

  ghost predicate WriterSeen(trace: seq<State>, a: nat, n: nat) {
    exists k: nat :: a <= k <= n < |trace| && WriterIn(trace[k])
  }

  predicate Refused(pc: Pc) {
    match pc
    case TryLockingShared(TrySharedTest(was)) => was <= 0
    case _ => false
  }

  lemma RefusedForReason(s: State, i: nat, c: Choice, t: State)
    requires Inv(s) && i < |s.fibers| && s.fibers[i].TryLockingShared? && StepFiber(s, i, c) == Some(t)
    requires i < |t.fibers| && Refused(t.fibers[i])
    ensures WriterIn(s)
  {
    ReaderQuota(s, i);
  }

  lemma {:induction false} WriterWasSeen(trace: seq<State>, i: nat, a: nat, n: nat)
    requires SharedMutex.Run(trace) && InTryShared(trace, i, a, n) && Refused(trace[n].fibers[i])
    ensures WriterSeen(trace, a, n)
    decreases n
  {
    hide Inv, StepFiber, WriterIn;
    var s, t := trace[n - 1], trace[n];
    assert Step(s, t);
    RunInv(trace, n - 1);
    var j: nat, c: Choice :| j < |s.fibers| && StepFiber(s, j, c) == Some(t);
    if j == i {
      RefusedForReason(s, i, c, t);
    } else {
      OthersKeep(s, j, c, t, i);
      WriterWasSeen(trace, i, a, n - 1);
    }
  }

  lemma LastSharedStep(s: State, i: nat, c: Choice, t: State)
    requires Inv(s) && i < |s.fibers| && s.fibers[i].TryLockingShared? && StepFiber(s, i, c) == Some(t)
    requires i < |t.fibers| && t.fibers[i].Idle?
    ensures Refused(s.fibers[i])
  {
  }

  /** try_lock_shared() returns false only if, in some state of the call, a writer was draining
      the readers or had the lock. */
  lemma TryLockSharedGivesUp(trace: seq<State>, i: nat, a: nat, n: nat)
    requires SharedMutex.Run(trace) && n + 1 < |trace| && InTryShared(trace, i, a, n)
    requires i < |trace[n + 1].fibers| && trace[n + 1].fibers[i].Idle?
    ensures exists k: nat :: a <= k <= n &&
              (CurrentPhase(trace[k]).Draining? || CurrentPhase(trace[k]).Exclusive?)
  {
    hide Inv, StepFiber, CurrentPhase;
    var s, t := trace[n], trace[n + 1];
    assert Step(trace[n + 1 - 1], trace[n + 1]);
    RunInv(trace, n);
    var j: nat, c: Choice :| j < |s.fibers| && StepFiber(s, j, c) == Some(t);
    if j != i {
      OthersKeep(s, j, c, t, i);
    }
    LastSharedStep(s, i, c, t);
    WriterWasSeen(trace, i, a, n);
    var k: nat :| a <= k <= n < |trace| && WriterIn(trace[k]);
  }
}
