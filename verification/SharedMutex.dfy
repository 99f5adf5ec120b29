/** The fiber reader-writer lock as a state machine: any number of fibers below
    the reader limit run `lock`, `try_lock`, `unlock`, `lock_shared`,
    `try_lock_shared` and `unlock_shared`, one atomic operation, mutex operation
    or condition-variable operation at a time. */
module SharedMutex {
  import opened Counting
  import opened Prelude

  const MAX_READERS: int := 0x3fff_ffff

  /** The place a fiber has reached, operation by operation.  A name says what the
      fiber does next. */
  datatype Pc =
    | Idle
    | WriteHeld
    | ReadHeld
    | Locking(lock: LockPc)
    | Unlocking(unlock: UnlockPc)
    | TryLocking(try: TryPc)
    | LockingShared(shared: SharedPc)
    | TryLockingShared(tryShared: TrySharedPc)
    | UnlockingShared(unshared: UnsharedPc)

  datatype LockPc =
    | LockAcquireWriter
    | LockSubtract
    | LockAcquireWakeup(pending: int)
    | LockTest(pending: int)
    | LockAsleep(pending: int)
    | LockReset(pending: int)

  datatype UnlockPc =
    | UnlockAcquireWakeup
    | UnlockAdd
    | UnlockGrant(was: int)
    | UnlockNotify
    | UnlockReleaseWriter
    | UnlockReleaseWakeup

  datatype TryPc = TryAcquireWriter | TryLoad | TryTest(read: int) | TryCas | TryRelease

  datatype SharedPc = SharedSubtract | WaitAcquire | WaitTest | WaitAsleep | WaitRelease

  datatype TrySharedPc = TrySharedLoad | TrySharedTest(read: int) | TrySharedCas(read: int)

  datatype UnsharedPc = SharedAdd | WakeAcquire | WakeIncrement | WakeNotify | WakeRelease

  /** `checks` stays true as long as no FLARE_CHECK of the code has failed. */
  datatype State = State(
    quota: int,
    exited: int,
    granted: int,
    writerLock: Option<nat>,
    wakeupLock: Option<nat>,
    checks: bool,
    fibers: seq<Pc>)

  /** What is left open at a step: the operation an idle fiber calls, and whether
      a weak compare-and-swap fails although the value matches or a fiber wakes up
      although nobody notified it. */
  datatype Choice =
    | CallLock | CallTryLock | CallLockShared | CallTryLockShared
    | Proceed | Spurious

  // ---------------------------------------------------------------- the steps

  function Goto(s: State, i: nat, pc: Pc): State
    requires i < |s.fibers|
  {
    s.(fibers := s.fibers[i := pc])
  }

  function Check(s: State, b: bool): State {
    s.(checks := s.checks && b)
  }

  function Woken(pc: Pc): Pc {
    match pc
    case Locking(LockAsleep(p)) => Locking(LockAcquireWakeup(p))
    case LockingShared(WaitAsleep) => LockingShared(WaitAcquire)
    case _ => pc
  }

  /** wakeup_cv_.notify_all() */
  function NotifyAll(s: State): State {
    s.(fibers := seq(|s.fibers|, k requires 0 <= k < |s.fibers| => Woken(s.fibers[k])))
  }

  /** The step of fiber `i`, or None where it is blocked. */
  function StepFiber(s: State, i: nat, c: Choice): Option<State>
    requires i < |s.fibers|
  {
    match s.fibers[i]
    case Idle => StepIdle(s, i, c)
    case WriteHeld => Some(Goto(s, i, Unlocking(UnlockAcquireWakeup)))
    case ReadHeld => Some(Goto(s, i, UnlockingShared(SharedAdd)))
    case Locking(pc) => StepLock(s, i, pc, c)
    case Unlocking(pc) => StepUnlock(s, i, pc)
    case TryLocking(pc) => StepTryLock(s, i, pc, c)
    case LockingShared(pc) => StepShared(s, i, pc, c)
    case TryLockingShared(pc) => StepTryShared(s, i, pc, c)
    case UnlockingShared(pc) => StepUnlockShared(s, i, pc)
  }

  function StepIdle(s: State, i: nat, c: Choice): Option<State>
    requires i < |s.fibers|
  {
    match c
    case CallLock => Some(Goto(s, i, Locking(LockAcquireWriter)))
    case CallTryLock => Some(Goto(s, i, TryLocking(TryAcquireWriter)))
    case CallLockShared => Some(Goto(s, i, LockingShared(SharedSubtract)))
    case CallTryLockShared => Some(Goto(s, i, TryLockingShared(TrySharedLoad)))
    case _ => None
  }

  /** lock().  A sleeping fiber may wake up without having been notified. */
  function StepLock(s: State, i: nat, pc: LockPc, c: Choice): Option<State>
    requires i < |s.fibers|
  {
    match pc
    case LockAcquireWriter =>
      if s.writerLock.None? then Some(Goto(s, i, Locking(LockSubtract)).(writerLock := Some(i))) else None
    case LockSubtract =>
      var was := s.quota;
      var t := s.(quota := was - MAX_READERS);
      if was == MAX_READERS then
        Some(Goto(t, i, WriteHeld))
      else
        Some(Goto(Check(t, 0 < was < MAX_READERS), i, Locking(LockAcquireWakeup(MAX_READERS - was))))
    case LockAcquireWakeup(p) =>
      if s.wakeupLock.None? then Some(Goto(s, i, Locking(LockTest(p))).(wakeupLock := Some(i))) else None
    case LockTest(p) =>
      if s.exited == p then Some(Goto(s, i, Locking(LockReset(p))))
      else Some(Goto(s, i, Locking(LockAsleep(p))).(wakeupLock := None))
    case LockAsleep(p) =>
      if c.Spurious? then Some(Goto(s, i, Locking(LockAcquireWakeup(p)))) else None
    case LockReset(p) =>
      Some(Goto(s, i, WriteHeld).(exited := 0, wakeupLock := None))
  }

  /** unlock() */
  function StepUnlock(s: State, i: nat, pc: UnlockPc): Option<State>
    requires i < |s.fibers|
  {
    match pc
    case UnlockAcquireWakeup =>
      if s.wakeupLock.None? then Some(Goto(s, i, Unlocking(UnlockAdd)).(wakeupLock := Some(i))) else None
    case UnlockAdd =>
      var was := s.quota;
      var t := Check(s.(quota := was + MAX_READERS), was + MAX_READERS > 0 && was <= 0);
      Some(Goto(t, i, Unlocking(if was != 0 then UnlockGrant(was) else UnlockReleaseWriter)))
    case UnlockGrant(was) =>
      Some(Goto(s.(granted := -was), i, Unlocking(UnlockNotify)))
    case UnlockNotify =>
      Some(Goto(NotifyAll(s), i, Unlocking(UnlockReleaseWriter)))
    case UnlockReleaseWriter =>
      Some(Goto(s, i, Unlocking(UnlockReleaseWakeup)).(writerLock := None))
    case UnlockReleaseWakeup =>
      Some(Goto(s, i, Idle).(wakeupLock := None))
  }

  /** try_lock() */
  function StepTryLock(s: State, i: nat, pc: TryPc, c: Choice): Option<State>
    requires i < |s.fibers|
  {
    match pc
    case TryAcquireWriter =>
      if s.writerLock.None? then Some(Goto(s, i, TryLocking(TryLoad)).(writerLock := Some(i)))
      else Some(Goto(s, i, Idle))
    case TryLoad => Some(Goto(s, i, TryLocking(TryTest(s.quota))))
    case TryTest(was) =>
      Some(Goto(s, i, TryLocking(if was != MAX_READERS then TryRelease else TryCas)))
    case TryCas =>
      if s.quota == MAX_READERS && !c.Spurious? then
        Some(Goto(s.(quota := 0), i, WriteHeld))
      else
        Some(Goto(s, i, TryLocking(TryTest(s.quota))))
    case TryRelease => Some(Goto(s, i, Idle).(writerLock := None))
  }

  /** lock_shared() and WaitForRead() */
  function StepShared(s: State, i: nat, pc: SharedPc, c: Choice): Option<State>
    requires i < |s.fibers|
  {
    match pc
    case SharedSubtract =>
      var was := s.quota;
      var t := s.(quota := was - 1);
      if was > 1 then Some(Goto(Check(t, was <= MAX_READERS), i, ReadHeld))
      else Some(Goto(Check(t, was != 1), i, LockingShared(WaitAcquire)))
    case WaitAcquire =>
      if s.wakeupLock.None? then Some(Goto(s, i, LockingShared(WaitTest)).(wakeupLock := Some(i))) else None
    case WaitTest =>
      if s.granted != 0 then Some(Goto(s, i, LockingShared(WaitRelease)).(granted := s.granted - 1))
      else Some(Goto(s, i, LockingShared(WaitAsleep)).(wakeupLock := None))
    case WaitAsleep => if c.Spurious? then Some(Goto(s, i, LockingShared(WaitAcquire))) else None
    case WaitRelease => Some(Goto(s, i, ReadHeld).(wakeupLock := None))
  }

  /** try_lock_shared() */
  function StepTryShared(s: State, i: nat, pc: TrySharedPc, c: Choice): Option<State>
    requires i < |s.fibers|
  {
    match pc
    case TrySharedLoad => Some(Goto(s, i, TryLockingShared(TrySharedTest(s.quota))))
    case TrySharedTest(was) =>
      var t := Check(s, was <= MAX_READERS && was != 1);
      Some(Goto(t, i, if was <= 0 then Idle else TryLockingShared(TrySharedCas(was))))
    case TrySharedCas(was) =>
      if s.quota == was && !c.Spurious? then
        Some(Goto(s.(quota := was - 1), i, ReadHeld))
      else
        Some(Goto(s, i, TryLockingShared(TrySharedTest(s.quota))))
  }

  /** unlock_shared() and WakeupWriter() */
  function StepUnlockShared(s: State, i: nat, pc: UnsharedPc): Option<State>
    requires i < |s.fibers|
  {
    match pc
    case SharedAdd =>
      var was := s.quota;
      var t := s.(quota := was + 1);
      if was > 0 then Some(Goto(Check(t, was < MAX_READERS), i, Idle))
      else Some(Goto(t, i, UnlockingShared(WakeAcquire)))
    case WakeAcquire =>
      if s.wakeupLock.None? then Some(Goto(s, i, UnlockingShared(WakeIncrement)).(wakeupLock := Some(i))) else None
    case WakeIncrement =>
      Some(Goto(Check(s, s.exited >= 0).(exited := s.exited + 1), i, UnlockingShared(WakeNotify)))
    case WakeNotify => Some(Goto(NotifyAll(s), i, UnlockingShared(WakeRelease)))
    case WakeRelease => Some(Goto(s, i, Idle).(wakeupLock := None))
  }

  // --------------------------------------------------------------------- runs

  ghost predicate Init(s: State) {
    && s.quota == MAX_READERS && s.exited == 0 && s.granted == 0
    && s.writerLock.None? && s.wakeupLock.None? && s.checks
    && |s.fibers| < MAX_READERS
    && forall i | 0 <= i < |s.fibers| :: s.fibers[i] == Idle
  }

  ghost predicate Step(s: State, t: State) {
    exists i: nat, c: Choice :: i < |s.fibers| && StepFiber(s, i, c) == Some(t)
  }

  ghost predicate Run(trace: seq<State>) {
    && |trace| > 0
    && Init(trace[0])
    && forall k | 0 < k < |trace| :: Step(trace[k - 1], trace[k])
  }

  // ---------------------------------------------------------- classifications

  /** Readers that have taken one from the quota and have not been let in yet. */
  function Waiting(pc: Pc): nat {
    match pc
    case LockingShared(p) => if p.WaitAcquire? || p.WaitTest? || p.WaitAsleep? then 1 else 0
    case _ => 0
  }

  /** Readers that have been let in and have not given their unit back. */
  function Holding(pc: Pc): nat {
    match pc
    case ReadHeld => 1
    case LockingShared(p) => if p.WaitRelease? then 1 else 0
    case UnlockingShared(p) => if p.SharedAdd? then 1 else 0
    case _ => 0
  }

  /** Readers that left under a writer and are not in `exited_readers_` yet. */
  function Exiting(pc: Pc): nat {
    match pc
    case UnlockingShared(p) => if p.WakeAcquire? || p.WakeIncrement? then 1 else 0
    case _ => 0
  }

  predicate HasWriterLock(pc: Pc) {
    match pc
    case WriteHeld => true
    case Locking(p) => !p.LockAcquireWriter?
    case Unlocking(p) => !p.UnlockReleaseWakeup?
    case TryLocking(p) => !p.TryAcquireWriter?
    case _ => false
  }

  predicate HasWakeupLock(pc: Pc) {
    match pc
    case Locking(p) => p.LockTest? || p.LockReset?
    case Unlocking(p) => !p.UnlockAcquireWakeup?
    case LockingShared(p) => p.WaitTest? || p.WaitRelease?
    case UnlockingShared(p) => p.WakeIncrement? || p.WakeNotify? || p.WakeRelease?
    case _ => false
  }

  /** How far the writer, if there is one, has come. */
  datatype Phase = Open | Draining(pending: int) | Exclusive | Granting(was: int)

  function PhaseOf(pc: Pc): Phase {
    match pc
    case WriteHeld => Exclusive
    case Locking(p) =>
      if p.LockAcquireWriter? || p.LockSubtract? then Open else Draining(p.pending)
    case Unlocking(p) =>
      if p.UnlockAcquireWakeup? || p.UnlockAdd? then Exclusive
      else if p.UnlockGrant? then Granting(p.was) else Open
    case _ => Open
  }

  function CurrentPhase(s: State): Phase {
    if s.writerLock.Some? && s.writerLock.value < |s.fibers|
    then PhaseOf(s.fibers[s.writerLock.value]) else Open
  }

  function WaitingIn(s: State): nat { Sum(s.fibers, Waiting) }
  function HoldingIn(s: State): nat { Sum(s.fibers, Holding) }
  function ExitingIn(s: State): nat { Sum(s.fibers, Exiting) }

  // ------------------------------------------------------------ the invariant

  ghost predicate LocksConsistent(s: State) {
    && (s.writerLock.Some? ==> s.writerLock.value < |s.fibers|)
    && (s.wakeupLock.Some? ==> s.wakeupLock.value < |s.fibers|)
    && (forall i: nat | i < |s.fibers| ::
          HasWriterLock(s.fibers[i]) <==> s.writerLock == Some(i))
    && (forall i: nat | i < |s.fibers| ::
          HasWakeupLock(s.fibers[i]) <==> s.wakeupLock == Some(i))
  }

  /** The numbers of a state, without its fibers. */
  datatype Numbers = Numbers(
    quota: int, exited: int, granted: int, waiting: int, holding: int, exiting: int)

  function NumbersOf(s: State): Numbers {
    Numbers(s.quota, s.exited, s.granted, WaitingIn(s), HoldingIn(s), ExitingIn(s))
  }

  /** The quota is the reader limit, less one for every reader that took a unit,
      less the whole limit while a writer is in. */
  predicate QuotaExact(ph: Phase, n: Numbers) {
    n.quota == (if ph.Draining? || ph.Exclusive? then 0 else MAX_READERS) - n.waiting - n.holding
  }

  /** Where the readers are, phase by phase. */
  predicate Accounting(ph: Phase, n: Numbers) {
    && n.granted >= 0 && n.exited >= 0 && n.waiting >= 0 && n.holding >= 0 && n.exiting >= 0
    && match ph
       case Open => n.granted == n.waiting && n.exiting == 0 && n.exited == 0
       case Granting(was) =>
         -was == n.waiting && n.granted == 0 && n.exiting == 0 && n.exited == 0
       case Exclusive =>
         n.granted == 0 && n.holding == 0 && n.exiting == 0 && n.exited == 0
       case Draining(p) =>
         n.granted + n.holding + n.exiting + n.exited == p && n.granted <= n.waiting && p > 0
  }

  ghost predicate NumbersAgree(s: State) {
    QuotaExact(CurrentPhase(s), NumbersOf(s)) && Accounting(CurrentPhase(s), NumbersOf(s))
  }

  predicate Resetting(pc: Pc) { pc.Locking? && pc.lock.LockReset? }

  /** `LockReset` is reached only when every reader to wait for has left. */
  ghost predicate ResetJustified(s: State) {
    forall i: nat | i < |s.fibers| && Resetting(s.fibers[i]) ::
      s.exited == s.fibers[i].lock.pending
  }

  predicate Notifying(pc: Pc) {
    pc == Unlocking(UnlockNotify) || pc == UnlockingShared(WakeNotify)
  }

  ghost predicate AboutToNotify(s: State) {
    s.wakeupLock.Some? && s.wakeupLock.value < |s.fibers| && Notifying(s.fibers[s.wakeupLock.value])
  }

  /** The condition a sleeping fiber waits for. */
  predicate Awaited(s: State, pc: Pc) {
    match pc
    case Locking(LockAsleep(p)) => s.exited == p
    case LockingShared(WaitAsleep) => s.granted != 0
    case _ => false
  }

  ghost predicate NoLostWakeup(s: State) {
    forall i: nat | i < |s.fibers| && Awaited(s, s.fibers[i]) :: AboutToNotify(s)
  }

  /** Values read earlier by `try_lock_shared` still satisfy its checks. */
  ghost predicate ReadsInRange(s: State) {
    forall i: nat | i < |s.fibers| :: ReadInRange(s.fibers[i])
  }

  predicate ReadInRange(pc: Pc) {
    match pc
    case TryLockingShared(TrySharedTest(was)) => was <= MAX_READERS && was != 1
    case TryLockingShared(TrySharedCas(was)) => 1 < was <= MAX_READERS
    case _ => true
  }

  ghost predicate Inv(s: State) {
    && |s.fibers| < MAX_READERS
    && s.checks
    && LocksConsistent(s)
    && NumbersAgree(s)
    && ResetJustified(s)
    && NoLostWakeup(s)
    && ReadsInRange(s)
  }

  // ------------------------------------------------- every step keeps the invariant

  /** What moving one fiber does to the three counts. */
  lemma Moved(fs: seq<Pc>, i: nat, pc: Pc)
    requires i < |fs|
    ensures Sum(fs[i := pc], Waiting) + Waiting(fs[i]) == Sum(fs, Waiting) + Waiting(pc)
    ensures Sum(fs[i := pc], Holding) + Holding(fs[i]) == Sum(fs, Holding) + Holding(pc)
    ensures Sum(fs[i := pc], Exiting) + Exiting(fs[i]) == Sum(fs, Exiting) + Exiting(pc)
    ensures Waiting(fs[i]) <= Sum(fs, Waiting)
    ensures Holding(fs[i]) <= Sum(fs, Holding)
    ensures Exiting(fs[i]) <= Sum(fs, Exiting)
  {
    SumUpdate(fs, i, pc, Waiting);
    SumUpdate(fs, i, pc, Holding);
    SumUpdate(fs, i, pc, Exiting);
    SumAtLeast(fs, i, Waiting);
    SumAtLeast(fs, i, Holding);
    SumAtLeast(fs, i, Exiting);
  }

  /** No fiber has taken more than one unit. */
  lemma {:induction false} UnitsBound(fs: seq<Pc>)
    ensures Sum(fs, Waiting) + Sum(fs, Holding) <= |fs|
  {
    if fs != [] {
      UnitsBound(fs[1..]);
    }
  }

  /** How fiber `i` may change a mutex: acquire it, release it, or leave it. */
  predicate MutexMove(before: Option<nat>, after: Option<nat>, i: nat, had: bool, has: bool) {
    || (after == before && had == has)
    || (before.None? && after == Some(i) && has)
    || (before == Some(i) && after.None? && !has)
  }

  /** The part of a step's effect that can be read off the moving fiber alone. */
  predicate LocalMove(s: State, t: State, i: nat, pc: Pc) {
    && i < |s.fibers|
    && t.fibers == s.fibers[i := pc]
    && MutexMove(s.writerLock, t.writerLock, i, HasWriterLock(s.fibers[i]), HasWriterLock(pc))
    && MutexMove(s.wakeupLock, t.wakeupLock, i, HasWakeupLock(s.fibers[i]), HasWakeupLock(pc))
    && ReadInRange(pc)
    && (Resetting(pc) ==> t.exited == pc.lock.pending)
    && !Awaited(t, pc)
    && !Notifying(s.fibers[i])
    && (t.exited == s.exited
        || (s.fibers[i] == UnlockingShared(WakeIncrement) && Notifying(pc))
        || (Resetting(s.fibers[i]) && pc == WriteHeld))
    && (t.granted == s.granted
        || (HasWakeupLock(s.fibers[i]) && Notifying(pc))
        || (s.fibers[i] == LockingShared(WaitTest) && pc == LockingShared(WaitRelease) && s.granted != 0))
  }

  lemma LocksAfter(s: State, t: State, i: nat, pc: Pc)
    requires LocksConsistent(s) && LocalMove(s, t, i, pc)
    ensures LocksConsistent(t)
  {
    forall j: nat | j < |t.fibers|
      ensures HasWriterLock(t.fibers[j]) <==> t.writerLock == Some(j)
      ensures HasWakeupLock(t.fibers[j]) <==> t.wakeupLock == Some(j)
    {
      assert t.fibers[j] == if j == i then pc else s.fibers[j];
    }
  }

  lemma ResetAfter(s: State, t: State, i: nat, pc: Pc)
    requires LocksConsistent(s) && LocalMove(s, t, i, pc) && ResetJustified(s)
    ensures ResetJustified(t)
  {
    forall j: nat | j < |t.fibers| && Resetting(t.fibers[j])
      ensures t.exited == t.fibers[j].lock.pending
    {
      if j != i {
        assert HasWakeupLock(s.fibers[j]);
        assert !HasWakeupLock(s.fibers[i]);
      }
    }
  }

  lemma SleepersAfter(s: State, t: State, i: nat, pc: Pc)
    requires LocksConsistent(s) && LocalMove(s, t, i, pc) && NoLostWakeup(s)
    ensures NoLostWakeup(t)
  {
    LocksAfter(s, t, i, pc);
    forall j: nat | j < |t.fibers| && Awaited(t, t.fibers[j])
      ensures AboutToNotify(t)
    {
      assert j != i && t.fibers[j] == s.fibers[j];
      if Notifying(pc) {
        assert HasWakeupLock(pc);
      } else if Awaited(s, s.fibers[j]) {
        var h := s.wakeupLock.value;
        assert h != i && t.fibers[h] == s.fibers[h];
        assert HasWakeupLock(t.fibers[h]);
      }
    }
  }

  /** A step whose local part is right keeps the invariant if the numbers agree. */
  lemma MoveKeepsInv(s: State, t: State, i: nat, pc: Pc)
    requires Inv(s) && LocalMove(s, t, i, pc)
    requires t.checks && NumbersAgree(t)
    ensures Inv(t)
  {
    LocksAfter(s, t, i, pc);
    ResetAfter(s, t, i, pc);
    SleepersAfter(s, t, i, pc);
    forall j: nat | j < |t.fibers| ensures ReadInRange(t.fibers[j]) {
      assert t.fibers[j] == if j == i then pc else s.fibers[j];
    }
  }

  lemma Notified(s: State)
    ensures WaitingIn(NotifyAll(s)) == WaitingIn(s)
    ensures HoldingIn(NotifyAll(s)) == HoldingIn(s)
    ensures ExitingIn(NotifyAll(s)) == ExitingIn(s)
  {
    SumPointwise(s.fibers, NotifyAll(s).fibers, Waiting);
    SumPointwise(s.fibers, NotifyAll(s).fibers, Holding);
    SumPointwise(s.fibers, NotifyAll(s).fibers, Exiting);
  }

  /** notify_all followed by the notifier's move: nobody is asleep any more, and
      nothing else changes. */
  predicate NotifyMove(s: State, i: nat, pc: Pc) {
    && i < |s.fibers|
    && ((s.fibers[i] == Unlocking(UnlockNotify) && pc == Unlocking(UnlockReleaseWriter))
        || (s.fibers[i] == UnlockingShared(WakeNotify) && pc == UnlockingShared(WakeRelease)))
  }

  lemma AfterNotify(s: State, i: nat, pc: Pc, j: nat)
    requires NotifyMove(s, i, pc) && j < |s.fibers| && ReadInRange(s.fibers[j])
    ensures var u := Goto(NotifyAll(s), i, pc).fibers[j];
            && HasWriterLock(u) == HasWriterLock(s.fibers[j])
            && HasWakeupLock(u) == HasWakeupLock(s.fibers[j])
            && PhaseOf(u) == PhaseOf(s.fibers[j])
            && Woken(u) == u && ReadInRange(u)
            && (Resetting(u) ==> u == s.fibers[j])
  {
  }

  lemma NotifyNumbers(s: State, i: nat, pc: Pc)
    requires NotifyMove(s, i, pc) && LocksConsistent(s) && ReadsInRange(s)
    requires NumbersAgree(s)
    ensures NumbersAgree(Goto(NotifyAll(s), i, pc))
  {
    Notified(s);
    Moved(NotifyAll(s).fibers, i, pc);
    if s.writerLock.Some? {
      AfterNotify(s, i, pc, s.writerLock.value);
    }
  }

  lemma NotifyKeepsInv(s: State, i: nat, pc: Pc)
    requires Inv(s) && NotifyMove(s, i, pc)
    ensures Inv(Goto(NotifyAll(s), i, pc))
  {
    NotifyNumbers(s, i, pc);
    forall j: nat | j < |s.fibers| {
      AfterNotify(s, i, pc, j);
    }
  }

  /** The phase changes only when the writer itself moves. */
  predicate PhaseMove(ph: Phase, ph': Phase, before: Pc, after: Pc) {
    if HasWriterLock(before) then
      ph == PhaseOf(before) && ph' == (if HasWriterLock(after) then PhaseOf(after) else Open)
    else if HasWriterLock(after) then
      ph == Open && ph' == PhaseOf(after)
    else
      ph == ph'
  }

  lemma PhaseAfter(s: State, t: State, i: nat, pc: Pc)
    requires LocksConsistent(s) && LocalMove(s, t, i, pc)
    ensures PhaseMove(CurrentPhase(s), CurrentPhase(t), s.fibers[i], pc)
  {
    LocksAfter(s, t, i, pc);
  }

  /** The numbers after fiber `i` has moved. */
  function NumbersMoved(t: State, n: Numbers, before: Pc, after: Pc): Numbers {
    Numbers(t.quota, t.exited, t.granted,
            n.waiting - Waiting(before) + Waiting(after),
            n.holding - Holding(before) + Holding(after),
            n.exiting - Exiting(before) + Exiting(after))
  }

  lemma NumbersAfter(s: State, t: State, i: nat)
    requires i < |s.fibers| && |t.fibers| == |s.fibers| && t.fibers == s.fibers[i := t.fibers[i]]
    ensures NumbersOf(t) == NumbersMoved(t, NumbersOf(s), s.fibers[i], t.fibers[i])
    ensures Waiting(s.fibers[i]) <= WaitingIn(s)
    ensures Holding(s.fibers[i]) <= HoldingIn(s)
    ensures Exiting(s.fibers[i]) <= ExitingIn(s)
    ensures WaitingIn(s) + HoldingIn(s) <= |s.fibers|
    ensures WaitingIn(s) + HoldingIn(s) - Waiting(s.fibers[i]) - Holding(s.fibers[i]) < |s.fibers|
  {
    Moved(s.fibers, i, t.fibers[i]);
    Moved(s.fibers, i, Idle);
    Moved(s.fibers, i, ReadHeld);
    UnitsBound(s.fibers);
    UnitsBound(s.fibers[i := ReadHeld]);
  }

  /** What the arithmetic of a step starts from. */
  predicate NumbersBefore(s: State, i: nat, pc: Pc, n: Numbers, ph: Phase, ph': Phase) {
    && i < |s.fibers| < MAX_READERS
    && s.checks && ReadInRange(s.fibers[i])
    && (Resetting(s.fibers[i]) ==> s.exited == s.fibers[i].lock.pending)
    && n.quota == s.quota && n.exited == s.exited && n.granted == s.granted
    && QuotaExact(ph, n) && Accounting(ph, n)
    && PhaseMove(ph, ph', s.fibers[i], pc)
    && Waiting(s.fibers[i]) <= n.waiting && Holding(s.fibers[i]) <= n.holding
    && Exiting(s.fibers[i]) <= n.exiting
    && n.waiting + n.holding - Waiting(s.fibers[i]) - Holding(s.fibers[i]) < |s.fibers|
  }

  predicate NumbersStay(t: State, n: Numbers, before: Pc, after: Pc, ph: Phase) {
    var n' := NumbersMoved(t, n, before, after);
    t.checks && QuotaExact(ph, n') && Accounting(ph, n')
  }

  /** A fiber that neither has nor takes the writer lock does not change the phase. */
  predicate Bystander(pc: Pc) {
    pc.Idle? || pc.ReadHeld? || pc.LockingShared? || pc.TryLockingShared? || pc.UnlockingShared?
  }

  lemma BystandersKeepPhase(ph: Phase, ph': Phase, before: Pc, after: Pc)
    requires PhaseMove(ph, ph', before, after) && Bystander(before) && Bystander(after)
    ensures ph' == ph
  {
  }

  /** From the local part and the arithmetic of a step to the whole invariant. */
  lemma StepKeepsInv(s: State, i: nat, t: State)
    requires Inv(s) && i < |s.fibers| && i < |t.fibers| && LocalMove(s, t, i, t.fibers[i])
    requires NumbersBefore(s, i, t.fibers[i], NumbersOf(s), CurrentPhase(s), CurrentPhase(t))
             ==> NumbersStay(t, NumbersOf(s), s.fibers[i], t.fibers[i], CurrentPhase(t))
    ensures Inv(t)
  {
    PhaseAfter(s, t, i, t.fibers[i]);
    NumbersAfter(s, t, i);
    MoveKeepsInv(s, t, i, t.fibers[i]);
  }

  lemma LockLocal(s: State, i: nat, pc: LockPc, c: Choice, t: State)
    requires Inv(s) && i < |s.fibers| && s.fibers[i] == Locking(pc)
    requires StepLock(s, i, pc, c) == Some(t)
    ensures i < |t.fibers| && LocalMove(s, t, i, t.fibers[i])
  {
    assert HasWriterLock(s.fibers[i]) <==> s.writerLock == Some(i);
    assert HasWakeupLock(s.fibers[i]) <==> s.wakeupLock == Some(i);
  }

  lemma LockNumbers(s: State, i: nat, pc: LockPc, c: Choice, t: State, n: Numbers, ph: Phase, ph': Phase)
    requires i < |t.fibers| && NumbersBefore(s, i, t.fibers[i], n, ph, ph')
    requires s.fibers[i] == Locking(pc) && StepLock(s, i, pc, c) == Some(t)
    ensures NumbersStay(t, n, s.fibers[i], t.fibers[i], ph')
  {
    match pc
    case LockAcquireWriter => assert NumbersStay(t, n, s.fibers[i], t.fibers[i], ph');
    case LockSubtract => assert NumbersStay(t, n, s.fibers[i], t.fibers[i], ph');
    case LockAcquireWakeup(_) => assert NumbersStay(t, n, s.fibers[i], t.fibers[i], ph');
    case LockTest(_) => assert NumbersStay(t, n, s.fibers[i], t.fibers[i], ph');
    case LockAsleep(_) => assert NumbersStay(t, n, s.fibers[i], t.fibers[i], ph');
    case LockReset(_) => assert NumbersStay(t, n, s.fibers[i], t.fibers[i], ph');
  }

  lemma LockKeepsInv(s: State, i: nat, pc: LockPc, c: Choice, t: State)
    requires Inv(s) && i < |s.fibers| && s.fibers[i] == Locking(pc)
    requires StepLock(s, i, pc, c) == Some(t)
    ensures Inv(t)
  {
    LockLocal(s, i, pc, c, t);
    if NumbersBefore(s, i, t.fibers[i], NumbersOf(s), CurrentPhase(s), CurrentPhase(t)) {
      LockNumbers(s, i, pc, c, t, NumbersOf(s), CurrentPhase(s), CurrentPhase(t));
    }
    StepKeepsInv(s, i, t);
  }

  lemma UnlockLocal(s: State, i: nat, pc: UnlockPc, t: State)
    requires Inv(s) && i < |s.fibers| && s.fibers[i] == Unlocking(pc) && pc != UnlockNotify
    requires StepUnlock(s, i, pc) == Some(t)
    ensures i < |t.fibers| && LocalMove(s, t, i, t.fibers[i])
  {
    assert HasWriterLock(s.fibers[i]) <==> s.writerLock == Some(i);
    assert HasWakeupLock(s.fibers[i]) <==> s.wakeupLock == Some(i);
  }

  lemma WriterMoves(ph: Phase, ph': Phase, before: Pc, after: Pc)
    requires PhaseMove(ph, ph', before, after)
    requires before.Unlocking? && !before.unlock.UnlockReleaseWakeup?
    requires after.Unlocking? && !after.unlock.UnlockReleaseWakeup?
    ensures ph == PhaseOf(before) && ph' == PhaseOf(after)
  {
  }

  lemma UnlockAddNumbers(s: State, i: nat, t: State, n: Numbers, ph: Phase, ph': Phase)
    requires i < |t.fibers| && NumbersBefore(s, i, t.fibers[i], n, ph, ph')
    requires s.fibers[i] == Unlocking(UnlockAdd) && StepUnlock(s, i, UnlockAdd) == Some(t)
    ensures NumbersStay(t, n, s.fibers[i], t.fibers[i], ph')
  {
    hide PhaseMove, HasWriterLock;
    WriterMoves(ph, ph', s.fibers[i], t.fibers[i]);
    if s.quota != 0 {
      assert t.fibers[i] == Unlocking(UnlockGrant(s.quota));
    } else {
      assert t.fibers[i] == Unlocking(UnlockReleaseWriter);
    }
  }

  lemma UnlockGrantNumbers(s: State, i: nat, was: int, t: State, n: Numbers, ph: Phase, ph': Phase)
    requires i < |t.fibers| && NumbersBefore(s, i, t.fibers[i], n, ph, ph')
    requires s.fibers[i] == Unlocking(UnlockGrant(was)) && StepUnlock(s, i, UnlockGrant(was)) == Some(t)
    ensures NumbersStay(t, n, s.fibers[i], t.fibers[i], ph')
  {
    hide PhaseMove, HasWriterLock;
    WriterMoves(ph, ph', s.fibers[i], t.fibers[i]);
    assert t.fibers[i] == Unlocking(UnlockNotify);
  }

  lemma UnlockOtherNumbers(s: State, i: nat, pc: UnlockPc, t: State, n: Numbers, ph: Phase, ph': Phase)
    requires i < |t.fibers| && NumbersBefore(s, i, t.fibers[i], n, ph, ph')
    requires s.fibers[i] == Unlocking(pc) && StepUnlock(s, i, pc) == Some(t)
    requires pc.UnlockAcquireWakeup? || pc.UnlockReleaseWriter? || pc.UnlockReleaseWakeup?
    ensures NumbersStay(t, n, s.fibers[i], t.fibers[i], ph')
  {
    assert t.quota == s.quota && t.exited == s.exited && t.granted == s.granted && t.checks;
    match pc
    case UnlockAcquireWakeup => assert ph' == ph;
    case UnlockReleaseWriter => assert ph' == ph == Open;
    case UnlockReleaseWakeup => assert ph' == ph;
  }

  lemma UnlockNumbers(s: State, i: nat, pc: UnlockPc, t: State, n: Numbers, ph: Phase, ph': Phase)
    requires i < |t.fibers| && NumbersBefore(s, i, t.fibers[i], n, ph, ph')
    requires s.fibers[i] == Unlocking(pc) && pc != UnlockNotify && StepUnlock(s, i, pc) == Some(t)
    ensures NumbersStay(t, n, s.fibers[i], t.fibers[i], ph')
  {
    hide NumbersBefore, NumbersStay, StepUnlock;
    match pc
    case UnlockAdd => UnlockAddNumbers(s, i, t, n, ph, ph');
    case UnlockGrant(was) => UnlockGrantNumbers(s, i, was, t, n, ph, ph');
    case _ => UnlockOtherNumbers(s, i, pc, t, n, ph, ph');
  }

  lemma UnlockKeepsInv(s: State, i: nat, pc: UnlockPc, t: State)
    requires Inv(s) && i < |s.fibers| && s.fibers[i] == Unlocking(pc)
    requires StepUnlock(s, i, pc) == Some(t)
    ensures Inv(t)
  {
    if pc == UnlockNotify {
      NotifyKeepsInv(s, i, t.fibers[i]);
      return;
    }
    UnlockLocal(s, i, pc, t);
    if NumbersBefore(s, i, t.fibers[i], NumbersOf(s), CurrentPhase(s), CurrentPhase(t)) {
      UnlockNumbers(s, i, pc, t, NumbersOf(s), CurrentPhase(s), CurrentPhase(t));
    }
    StepKeepsInv(s, i, t);
  }

  lemma TryLockLocal(s: State, i: nat, pc: TryPc, c: Choice, t: State)
    requires Inv(s) && i < |s.fibers| && s.fibers[i] == TryLocking(pc)
    requires StepTryLock(s, i, pc, c) == Some(t)
    ensures i < |t.fibers| && LocalMove(s, t, i, t.fibers[i])
  {
    assert HasWriterLock(s.fibers[i]) <==> s.writerLock == Some(i);
    assert HasWakeupLock(s.fibers[i]) <==> s.wakeupLock == Some(i);
  }

  lemma TryLockNumbers(s: State, i: nat, pc: TryPc, c: Choice, t: State, n: Numbers, ph: Phase, ph': Phase)
    requires i < |t.fibers| && NumbersBefore(s, i, t.fibers[i], n, ph, ph')
    requires s.fibers[i] == TryLocking(pc) && StepTryLock(s, i, pc, c) == Some(t)
    ensures NumbersStay(t, n, s.fibers[i], t.fibers[i], ph')
  {
    match pc
    case TryAcquireWriter => assert NumbersStay(t, n, s.fibers[i], t.fibers[i], ph');
    case TryLoad => assert NumbersStay(t, n, s.fibers[i], t.fibers[i], ph');
    case TryTest(_) => assert NumbersStay(t, n, s.fibers[i], t.fibers[i], ph');
    case TryCas => assert NumbersStay(t, n, s.fibers[i], t.fibers[i], ph');
    case TryRelease => assert NumbersStay(t, n, s.fibers[i], t.fibers[i], ph');
  }

  lemma TryLockKeepsInv(s: State, i: nat, pc: TryPc, c: Choice, t: State)
    requires Inv(s) && i < |s.fibers| && s.fibers[i] == TryLocking(pc)
    requires StepTryLock(s, i, pc, c) == Some(t)
    ensures Inv(t)
  {
    TryLockLocal(s, i, pc, c, t);
    if NumbersBefore(s, i, t.fibers[i], NumbersOf(s), CurrentPhase(s), CurrentPhase(t)) {
      TryLockNumbers(s, i, pc, c, t, NumbersOf(s), CurrentPhase(s), CurrentPhase(t));
    }
    StepKeepsInv(s, i, t);
  }

  lemma SharedLocal(s: State, i: nat, pc: SharedPc, c: Choice, t: State)
    requires Inv(s) && i < |s.fibers| && s.fibers[i] == LockingShared(pc)
    requires StepShared(s, i, pc, c) == Some(t)
    ensures i < |t.fibers| && LocalMove(s, t, i, t.fibers[i])
  {
    assert HasWriterLock(s.fibers[i]) <==> s.writerLock == Some(i);
    assert HasWakeupLock(s.fibers[i]) <==> s.wakeupLock == Some(i);
  }

  lemma SharedNumbers(s: State, i: nat, pc: SharedPc, c: Choice, t: State, n: Numbers, ph: Phase, ph': Phase)
    requires i < |t.fibers| && NumbersBefore(s, i, t.fibers[i], n, ph, ph')
    requires s.fibers[i] == LockingShared(pc) && StepShared(s, i, pc, c) == Some(t)
    ensures NumbersStay(t, n, s.fibers[i], t.fibers[i], ph')
  {
    hide PhaseMove, HasWriterLock, PhaseOf;
    BystandersKeepPhase(ph, ph', s.fibers[i], t.fibers[i]);
    match pc
    case SharedSubtract => assert NumbersStay(t, n, s.fibers[i], t.fibers[i], ph');
    case WaitAcquire => assert NumbersStay(t, n, s.fibers[i], t.fibers[i], ph');
    case WaitTest => assert NumbersStay(t, n, s.fibers[i], t.fibers[i], ph');
    case WaitAsleep => assert NumbersStay(t, n, s.fibers[i], t.fibers[i], ph');
    case WaitRelease => assert NumbersStay(t, n, s.fibers[i], t.fibers[i], ph');
  }

  lemma SharedKeepsInv(s: State, i: nat, pc: SharedPc, c: Choice, t: State)
    requires Inv(s) && i < |s.fibers| && s.fibers[i] == LockingShared(pc)
    requires StepShared(s, i, pc, c) == Some(t)
    ensures Inv(t)
  {
    SharedLocal(s, i, pc, c, t);
    if NumbersBefore(s, i, t.fibers[i], NumbersOf(s), CurrentPhase(s), CurrentPhase(t)) {
      SharedNumbers(s, i, pc, c, t, NumbersOf(s), CurrentPhase(s), CurrentPhase(t));
    }
    StepKeepsInv(s, i, t);
  }

  lemma TrySharedLocal(s: State, i: nat, pc: TrySharedPc, c: Choice, t: State)
    requires Inv(s) && i < |s.fibers| && s.fibers[i] == TryLockingShared(pc)
    requires StepTryShared(s, i, pc, c) == Some(t)
    ensures i < |t.fibers| && LocalMove(s, t, i, t.fibers[i])
  {
    NumbersAfter(s, s, i);
    assert HasWriterLock(s.fibers[i]) <==> s.writerLock == Some(i);
    assert HasWakeupLock(s.fibers[i]) <==> s.wakeupLock == Some(i);
  }

  lemma TrySharedNumbers(s: State, i: nat, pc: TrySharedPc, c: Choice, t: State, n: Numbers, ph: Phase, ph': Phase)
    requires i < |t.fibers| && NumbersBefore(s, i, t.fibers[i], n, ph, ph')
    requires s.fibers[i] == TryLockingShared(pc) && StepTryShared(s, i, pc, c) == Some(t)
    ensures NumbersStay(t, n, s.fibers[i], t.fibers[i], ph')
  {
    hide PhaseMove, HasWriterLock, PhaseOf;
    BystandersKeepPhase(ph, ph', s.fibers[i], t.fibers[i]);
    match pc
    case TrySharedLoad => assert NumbersStay(t, n, s.fibers[i], t.fibers[i], ph');
    case TrySharedTest(_) => assert NumbersStay(t, n, s.fibers[i], t.fibers[i], ph');
    case TrySharedCas(_) => assert NumbersStay(t, n, s.fibers[i], t.fibers[i], ph');
  }

  lemma TrySharedKeepsInv(s: State, i: nat, pc: TrySharedPc, c: Choice, t: State)
    requires Inv(s) && i < |s.fibers| && s.fibers[i] == TryLockingShared(pc)
    requires StepTryShared(s, i, pc, c) == Some(t)
    ensures Inv(t)
  {
    TrySharedLocal(s, i, pc, c, t);
    if NumbersBefore(s, i, t.fibers[i], NumbersOf(s), CurrentPhase(s), CurrentPhase(t)) {
      TrySharedNumbers(s, i, pc, c, t, NumbersOf(s), CurrentPhase(s), CurrentPhase(t));
    }
    StepKeepsInv(s, i, t);
  }

  lemma UnlockSharedLocal(s: State, i: nat, pc: UnsharedPc, t: State)
    requires Inv(s) && i < |s.fibers| && s.fibers[i] == UnlockingShared(pc) && pc != WakeNotify
    requires StepUnlockShared(s, i, pc) == Some(t)
    ensures i < |t.fibers| && LocalMove(s, t, i, t.fibers[i])
  {
    assert HasWriterLock(s.fibers[i]) <==> s.writerLock == Some(i);
    assert HasWakeupLock(s.fibers[i]) <==> s.wakeupLock == Some(i);
  }

  lemma UnlockSharedNumbers(s: State, i: nat, pc: UnsharedPc, t: State, n: Numbers, ph: Phase, ph': Phase)
    requires i < |t.fibers| && NumbersBefore(s, i, t.fibers[i], n, ph, ph')
    requires s.fibers[i] == UnlockingShared(pc) && pc != WakeNotify && StepUnlockShared(s, i, pc) == Some(t)
    ensures NumbersStay(t, n, s.fibers[i], t.fibers[i], ph')
  {
    hide PhaseMove, HasWriterLock, PhaseOf;
    BystandersKeepPhase(ph, ph', s.fibers[i], t.fibers[i]);
    match pc
    case SharedAdd => assert NumbersStay(t, n, s.fibers[i], t.fibers[i], ph');
    case WakeAcquire => assert NumbersStay(t, n, s.fibers[i], t.fibers[i], ph');
    case WakeIncrement => assert NumbersStay(t, n, s.fibers[i], t.fibers[i], ph');
    case WakeRelease => assert NumbersStay(t, n, s.fibers[i], t.fibers[i], ph');
  }

  lemma UnlockSharedKeepsInv(s: State, i: nat, pc: UnsharedPc, t: State)
    requires Inv(s) && i < |s.fibers| && s.fibers[i] == UnlockingShared(pc)
    requires StepUnlockShared(s, i, pc) == Some(t)
    ensures Inv(t)
  {
    if pc == WakeNotify {
      NotifyKeepsInv(s, i, t.fibers[i]);
      return;
    }
    UnlockSharedLocal(s, i, pc, t);
    if NumbersBefore(s, i, t.fibers[i], NumbersOf(s), CurrentPhase(s), CurrentPhase(t)) {
      UnlockSharedNumbers(s, i, pc, t, NumbersOf(s), CurrentPhase(s), CurrentPhase(t));
    }
    StepKeepsInv(s, i, t);
  }

  /** A fiber that holds nothing, or holds the lock, may start its next call. */
  predicate CallMove(before: Pc, after: Pc) {
    match before
    case Idle =>
      || after == Locking(LockAcquireWriter) || after == TryLocking(TryAcquireWriter)
      || after == LockingShared(SharedSubtract) || after == TryLockingShared(TrySharedLoad)
    case WriteHeld => after == Unlocking(UnlockAcquireWakeup)
    case ReadHeld => after == UnlockingShared(SharedAdd)
    case _ => false
  }

  lemma CallNumbers(s: State, i: nat, pc: Pc, n: Numbers, ph: Phase, ph': Phase)
    requires NumbersBefore(s, i, pc, n, ph, ph') && CallMove(s.fibers[i], pc)
    ensures NumbersStay(Goto(s, i, pc), n, s.fibers[i], pc, ph')
  {
  }

  lemma CallKeepsInv(s: State, i: nat, pc: Pc)
    requires Inv(s) && i < |s.fibers| && CallMove(s.fibers[i], pc)
    ensures Inv(Goto(s, i, pc))
  {
    var t := Goto(s, i, pc);
    assert LocalMove(s, t, i, pc);
    if NumbersBefore(s, i, t.fibers[i], NumbersOf(s), CurrentPhase(s), CurrentPhase(t)) {
      CallNumbers(s, i, pc, NumbersOf(s), CurrentPhase(s), CurrentPhase(t));
    }
    StepKeepsInv(s, i, t);
  }

  lemma AnyStepKeepsInv(s: State, i: nat, c: Choice, t: State)
    requires Inv(s) && i < |s.fibers| && StepFiber(s, i, c) == Some(t)
    ensures Inv(t)
  {
    match s.fibers[i]
    case Locking(pc) => LockKeepsInv(s, i, pc, c, t);
    case Unlocking(pc) => UnlockKeepsInv(s, i, pc, t);
    case TryLocking(pc) => TryLockKeepsInv(s, i, pc, c, t);
    case LockingShared(pc) => SharedKeepsInv(s, i, pc, c, t);
    case TryLockingShared(pc) => TrySharedKeepsInv(s, i, pc, c, t);
    case UnlockingShared(pc) => UnlockSharedKeepsInv(s, i, pc, t);
    case _ => CallKeepsInv(s, i, t.fibers[i]);
  }

  lemma InitInv(s: State)
    requires Init(s)
    ensures Inv(s)
  {
    SumZero(s.fibers, Waiting);
    SumZero(s.fibers, Holding);
    SumZero(s.fibers, Exiting);
  }

  /** The invariant holds in every state of every run. */
  lemma {:induction false} RunInv(trace: seq<State>, k: nat)
    requires Run(trace) && k < |trace|
    ensures Inv(trace[k])
  {
    if k == 0 {
      InitInv(trace[0]);
    } else {
      RunInv(trace, k - 1);
      assert Step(trace[k - 1], trace[k]);
      var i: nat, c: Choice :|
        i < |trace[k - 1].fibers| && StepFiber(trace[k - 1], i, c) == Some(trace[k]);
      AnyStepKeepsInv(trace[k - 1], i, c, trace[k]);
    }
  }

  // ------------------------------------------------------------- main results

  /** Writer exclusion.  While a fiber holds the lock exclusively, from the return
      of `lock` or `try_lock` until `unlock` gives the quota back, no other fiber
      holds it in either mode. */
  lemma WriterExclusion(trace: seq<State>, k: nat, i: nat, j: nat)
    requires Run(trace) && k < |trace|
    requires i < |trace[k].fibers| && j < |trace[k].fibers| && i != j
    requires PhaseOf(trace[k].fibers[i]).Exclusive?
    ensures !PhaseOf(trace[k].fibers[j]).Exclusive?
    ensures Holding(trace[k].fibers[j]) == 0
    ensures !trace[k].fibers[j].WriteHeld? && !trace[k].fibers[j].ReadHeld?
  {
    RunInv(trace, k);
    var s := trace[k];
    assert HasWriterLock(s.fibers[i]);
    assert !HasWriterLock(s.fibers[j]);
    SumAtLeast(s.fibers, j, Holding);
  }

  /** None of the code's own checks ever fails, and the quota stays in the range of
      its 32-bit type. */
  lemma ChecksHold(trace: seq<State>, k: nat)
    requires Run(trace) && k < |trace|
    ensures trace[k].checks
    ensures -0x3fff_ffff < trace[k].quota <= 0x3fff_ffff
  {
    RunInv(trace, k);
    UnitsBound(trace[k].fibers);
  }

  /** No lost wake-up: a fiber asleep although what it waits for has come true is
      about to be notified by the fiber that holds the wake-up mutex. */
  lemma SleepersWillBeWoken(trace: seq<State>, k: nat, i: nat)
    requires Run(trace) && k < |trace| && i < |trace[k].fibers|
    requires Awaited(trace[k], trace[k].fibers[i])
    ensures AboutToNotify(trace[k])
  {
    RunInv(trace, k);
  }

  /** While a writer drains the readers, every reader it counted is exactly one of:
      granted and not yet in, in, on its way out, or out. */
  lemma DrainingBalance(trace: seq<State>, k: nat, i: nat)
    requires Run(trace) && k < |trace| && i < |trace[k].fibers|
    requires PhaseOf(trace[k].fibers[i]).Draining?
    ensures trace[k].granted + HoldingIn(trace[k]) + ExitingIn(trace[k]) + trace[k].exited
            == PhaseOf(trace[k].fibers[i]).pending
  {
    RunInv(trace, k);
    assert HasWriterLock(trace[k].fibers[i]);
  }

  /** Fiber `i` can do its next step now, without being woken for no reason. */
  ghost predicate CanStep(s: State, i: nat) {
    i < |s.fibers| && StepFiber(s, i, Proceed).Some?
  }

  /** No deadlock: if some fiber is inside an operation and nobody holds the lock,
      then some fiber inside an operation can step. */
  lemma NoDeadlock(trace: seq<State>, k: nat, i: nat) returns (j: nat)
    requires Run(trace) && k < |trace| && i < |trace[k].fibers|
    requires !trace[k].fibers[i].Idle?
    requires forall h: nat | h < |trace[k].fibers| ::
               !trace[k].fibers[h].WriteHeld? && !trace[k].fibers[h].ReadHeld?
    ensures CanStep(trace[k], j) && !trace[k].fibers[j].Idle?
  {
    RunInv(trace, k);
    j := Runnable(trace[k], i);
  }

  lemma Runnable(s: State, i: nat) returns (j: nat)
    requires Inv(s) && i < |s.fibers| && !s.fibers[i].Idle?
    requires forall h: nat | h < |s.fibers| :: !s.fibers[h].WriteHeld? && !s.fibers[h].ReadHeld?
    ensures CanStep(s, j) && !s.fibers[j].Idle?
  {
    if CanStep(s, i) {
      j := i;
    } else if s.wakeupLock.Some? {
      j := s.wakeupLock.value;
    } else if s.writerLock.Some? && CanStep(s, s.writerLock.value) {
      j := s.writerLock.value;
    } else if s.writerLock.None? {
      j := i;
      SumAtLeast(s.fibers, i, Waiting);
      assert false;
    } else {
      j := BehindWriter(s);
    }
  }

  /** The writer is asleep and nobody holds a mutex: a reader can step. */
  lemma BehindWriter(s: State) returns (j: nat)
    requires Inv(s) && s.wakeupLock.None? && s.writerLock.Some?
    requires s.fibers[s.writerLock.value].Locking? && s.fibers[s.writerLock.value].lock.LockAsleep?
    requires forall h: nat | h < |s.fibers| :: !s.fibers[h].ReadHeld?
    ensures CanStep(s, j) && !s.fibers[j].Idle?
  {
    var w := s.fibers[s.writerLock.value];
    assert !Awaited(s, w);
    if HoldingIn(s) > 0 {
      j := SumWitness(s.fibers, Holding);
    } else if ExitingIn(s) > 0 {
      j := SumWitness(s.fibers, Exiting);
    } else {
      assert s.granted > 0;
      j := SumWitness(s.fibers, Waiting);
      assert !Awaited(s, s.fibers[j]);
    }
  }
}
