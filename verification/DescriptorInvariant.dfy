/** What every step of the descriptor protocol keeps.  Responsibilities (owning the
    read or write counter, owing the disable task, owing the call of OnCleanup, and
    so on) are tokens held by fibers, queued tasks and the event loop.  A step moves
    tokens between one mover and the rest, so its effect on the totals is arithmetic. */
module DescriptorInvariant {
  import opened Counting
  import opened Prelude
  import opened Descriptor

  // ------------------------------------------------------------------- tokens

  /** `OwnRead`, `OwnWrite`: owner of a direction's event counter.  `Erring`: error
      handler in progress.  `Disabling`: owes the disable task.  `Cleaning`: owes the
      call of OnCleanup.  `Examining`: has a cleanup check ahead or under way. */
  datatype Kind = OwnRead | OwnWrite | Erring | Disabling | Cleaning | Examining

  function Own(d: Dir): Kind { match d case Read => OwnRead case Write => OwnWrite }

  function One(b: bool): nat { if b then 1 else 0 }

  function OfCheck(p: CheckPc, k: Kind): nat {
    One(k == if p.Post? then Cleaning else Examining)
  }

  function OfFiber(pc: Pc, k: Kind): nat {
    match pc
    case Handling(d, _) => One(k == Own(d))
    case HandlingError(_) => One(k == Erring)
    case Checking(p) => OfCheck(p, k)
    case KillPost => One(k == Disabling)
    case Done => 0
  }

  function OfTask(x: Task, k: Kind): nat {
    match x
    case Disable => One(k == Disabling)
    case Reset(d) => One(k == Own(d))
    case Suppress(d) => One(k == Own(d))
    case Restart(_) => 0
    case Cleanup => One(k == Cleaning)
  }

  function OfLoop(l: LoopPc, k: Kind): nat {
    match l
    case Idle => 0
    case Firing(p) =>
      (match p
       case StartFiber(d, _) => One(k == Own(d))
       case ErrorStart => One(k == Erring)
       case _ => 0)
    case Running(p) => OfTaskPc(p, k)
    case LoopChecking(p, _) => OfCheck(p, k)
  }

  function OfTaskPc(p: TaskPc, k: Kind): nat {
    match p
    case Closing(DisableNow) => One(k == Disabling)
    case Closing(SetPending) => 0
    case Closing(_) => One(k == Cleaning)
    case OnChannel(d, p) => One(k == Own(d) && (p.ResetNow? || p.SuppressStore?))
  }

  function FiberWeight(k: Kind): Pc -> nat { (pc: Pc) => OfFiber(pc, k) }
  function TaskWeight(k: Kind): Task -> nat { (x: Task) => OfTask(x, k) }

  /** The tokens of one kind in circulation. */
  function Total(s: State, k: Kind): nat {
    Sum(s.fibers, FiberWeight(k)) + Sum(s.tasks, TaskWeight(k)) + OfLoop(s.loop, k)
  }

  datatype Tokens = Tokens(r: int, w: int, e: int, k: int, c: int, h: int)

  function Totals(s: State): Tokens {
    Tokens(Total(s, OwnRead), Total(s, OwnWrite), Total(s, Erring),
           Total(s, Disabling), Total(s, Cleaning), Total(s, Examining))
  }

  function WithFiber(t: Tokens, pc: Pc): Tokens {
    Tokens(t.r + OfFiber(pc, OwnRead), t.w + OfFiber(pc, OwnWrite), t.e + OfFiber(pc, Erring),
           t.k + OfFiber(pc, Disabling), t.c + OfFiber(pc, Cleaning), t.h + OfFiber(pc, Examining))
  }

  function WithTask(t: Tokens, x: Task): Tokens {
    Tokens(t.r + OfTask(x, OwnRead), t.w + OfTask(x, OwnWrite), t.e,
           t.k + OfTask(x, Disabling), t.c + OfTask(x, Cleaning), t.h)
  }

  function WithLoop(t: Tokens, l: LoopPc): Tokens {
    Tokens(t.r + OfLoop(l, OwnRead), t.w + OfLoop(l, OwnWrite), t.e + OfLoop(l, Erring),
           t.k + OfLoop(l, Disabling), t.c + OfLoop(l, Cleaning), t.h + OfLoop(l, Examining))
  }

  predicate Sound(t: Tokens) {
    0 <= t.r && 0 <= t.w && 0 <= t.e && 0 <= t.k && 0 <= t.c && 0 <= t.h
  }

  function Owners(t: Tokens, d: Dir): int { match d case Read => t.r case Write => t.w }

  // ------------------------------------------------------------ the invariant

  /** The tokens in circulation are exactly those the shared variables call for. */
  predicate TokensOk(v: Vars, t: Tokens) {
    && t.r == (if v.r.events > 0 then 1 else 0)
    && t.w == (if v.w.events > 0 then 1 else 0)
    && t.e == v.errorEvents
    && t.k == (if v.killed && v.enabled then 1 else 0)
    && t.c == (if v.queued && v.cleanups == 0 then 1 else 0)
    && (v.pending && AllZero(v) && !v.queued ==> t.h > 0)
  }

  predicate ChannelOk(enabled: bool, c: Channel) {
    && c.restarts >= 0
    && (enabled ==> (c.inMask <==> c.restarts > 0) && c.armed == c.inMask)
    && (enabled && c.events > 0 ==> c.inMask)
    && (c.unseen ==> c.events > 0)
  }

  /** The event loop is between the two halves of the suppress task of `d`, or is
      about to fire an event of `d`. */
  predicate LoopAttends(l: LoopPc, d: Dir) {
    match l
    case LoopChecking(_, after) => after == Tail(d)
    case Running(p) => p == OnChannel(d, SuppressTest)
    case Firing(Fire(read, write)) => if d.Read? then read else write
    case Firing(StartFiber(_, write)) => d.Write? && write
    case _ => false
  }

  /** Until a callback leaves, data that a suppressed callback left in the system's buffer
      is not forgotten. */
  predicate NoStall(v: Vars, l: LoopPc, d: Dir) {
    var c := Ch(v, d);
    v.enabled && !c.left && c.inMask && c.undrained ==> c.events > 0 || c.rearmed || LoopAttends(l, d)
  }

  predicate Flags(v: Vars, l: LoopPc) {
    && v.checks
    && (v.enabled ==> !v.pending)
    && (!v.enabled ==> v.killed)
    && (!v.enabled && !v.pending ==> l == Running(Closing(SetPending)))
    && (v.queued ==> v.pending && AllZero(v))
    && v.cleanups <= 1 && (v.cleanups == 1 ==> v.queued)
    && (!v.loopRef <==> v.cleanups == 1 || l == Running(Closing(CallOnCleanup)))
    && v.errorEvents <= 1 && (!v.errorSeen ==> v.errorEvents == 0)
    && (v.writeChecks ==> v.w.restarts <= 2)
    && (v.r.left || v.w.left ==> v.killed)
    && (l.LoopChecking? ==> v.cleanups == 0)
  }

  /** What a place in QueueCleanupCallbackCheck() already knows. */
  predicate CheckFacts(v: Vars, p: CheckPc) {
    match p
    case LoadPending => true
    case LoadRead => v.pending
    case LoadWrite => v.pending && v.r.events == 0
    case LoadError => v.pending && v.r.events == 0 && v.w.events == 0
    case Exchange => v.pending && AllZero(v)
    case Post => v.queued
  }

  predicate FireFacts(v: Vars, p: FirePc) {
    && v.enabled
    && match p
       case Fire(read, write) => (read ==> v.r.inMask) && (write ==> v.w.inMask)
       case StartFiber(d, write) => write ==> v.w.inMask
       case ErrorAdd => v.errorSeen && v.errorEvents == 0
       case _ => true
  }

  /** Between the two halves of the suppress task. */
  predicate Suppressed(v: Vars, d: Dir) {
    Ch(v, d).events == 0 && (v.enabled ==> Ch(v, d).inMask)
  }

  predicate TaskFacts(v: Vars, p: TaskPc) {
    match p
    case Closing(p) => p.SetPending? ==> !v.enabled && !v.pending
    case OnChannel(d, p) => (p.ResetNow? ==> v.killed) && (p.SuppressTest? ==> Suppressed(v, d))
  }

  predicate LoopFacts(v: Vars, l: LoopPc) {
    match l
    case Idle => true
    case Firing(p) => FireFacts(v, p)
    case Running(p) => TaskFacts(v, p)
    case LoopChecking(p, after) =>
      CheckFacts(v, p) && (after.Tail? ==> Suppressed(v, after.d))
  }

  predicate ChannelsOk(v: Vars, l: LoopPc) {
    && ChannelOk(v.enabled, v.r) && ChannelOk(v.enabled, v.w)
    && NoStall(v, l, Read) && NoStall(v, l, Write)
  }

  /** Everything but the fibers and the totals. */
  predicate Core(v: Vars, l: LoopPc) {
    Flags(v, l) && LoopFacts(v, l) && ChannelsOk(v, l)
  }

  /** What the fiber that owns a direction may rely on. */
  predicate HandlingFacts(v: Vars, c: Channel, p: EventPc) {
    && ((p.InCallback? || p.Decrement?) && c.unseen ==> c.events >= 2)
    && (p.Decrement? ==> !c.undrained)
    && (p.PostReset? ==> v.killed)
  }

  predicate FiberFacts(v: Vars, pc: Pc) {
    match pc
    case Handling(d, p) => HandlingFacts(v, Ch(v, d), p)
    case Checking(p) => CheckFacts(v, p)
    case _ => true
  }

  predicate QueuedFacts(v: Vars, x: Task) {
    x.Reset? ==> v.killed
  }

  ghost predicate Inv(s: State) {
    && Core(s.v, s.loop)
    && TokensOk(s.v, Totals(s))
    && (forall i: nat | i < |s.fibers| :: FiberFacts(s.v, s.fibers[i]))
    && (forall i: nat | i < |s.tasks| :: QueuedFacts(s.v, s.tasks[i]))
  }

  /** Once cleanup is pending nothing that a check has seen can be undone. */
  predicate ChecksStable(v: Vars, u: Vars) {
    && (v.killed ==> u.killed)
    && (v.pending ==> u.pending)
    && (v.queued ==> u.queued)
    && (v.pending && v.r.events == 0 ==> u.r.events == 0)
    && (v.pending && v.w.events == 0 ==> u.w.events == 0)
    && (v.pending && v.errorEvents == 0 ==> u.errorEvents == 0)
  }

  /** A direction owned by somebody other than the mover only gains events. */
  predicate ChannelStable(c: Channel, c': Channel) {
    c'.undrained == c.undrained && c'.events >= c.events && (c'.unseen && !c.unseen ==> c'.events >= 2)
  }

  predicate Stable(v: Vars, u: Vars, rest: Tokens) {
    && ChecksStable(v, u)
    && (rest.r > 0 ==> ChannelStable(v.r, u.r))
    && (rest.w > 0 ==> ChannelStable(v.w, u.w))
  }

  // ------------------------------------------------------ one lemma per mover

  function WithPosted(t: Tokens, x: Option<Task>): Tokens {
    match x case Some(x) => WithTask(t, x) case None => t
  }

  function WithSpawned(t: Tokens, x: Option<Pc>): Tokens {
    match x case Some(x) => WithFiber(t, x) case None => t
  }

  /** `rest` is what everybody but the event loop holds. */
  predicate LoopBefore(v: Vars, l: LoopPc, rest: Tokens) {
    Core(v, l) && Sound(rest) && TokensOk(v, WithLoop(rest, l))
  }

  function LoopTotals(e: Effect<LoopPc>, rest: Tokens): Tokens {
    WithLoop(WithPosted(WithSpawned(rest, e.spawned), e.posted), e.next)
  }

  /** `rest` is what everybody but the fiber at `pc` holds. */
  predicate FiberBefore(v: Vars, l: LoopPc, pc: Pc, rest: Tokens) {
    Core(v, l) && FiberFacts(v, pc) && Sound(rest) && TokensOk(v, WithFiber(rest, pc))
  }

  function FiberTotals(e: Effect<Pc>, rest: Tokens): Tokens {
    WithPosted(WithFiber(rest, e.next), e.posted)
  }

  predicate LoopAfter(v: Vars, e: Effect<LoopPc>, rest: Tokens) {
    Core(e.v, e.next) && Stable(v, e.v, rest) && TokensOk(e.v, LoopTotals(e, rest))
  }

  lemma StartKept(v: Vars, d: Dir, write: bool, rest: Tokens)
    requires LoopBefore(v, Firing(StartFiber(d, write)), rest)
    ensures LoopAfter(v, FireEffect(v, StartFiber(d, write)), rest)
  {
    match d case Read => case Write =>
  }

  lemma ErrorExchangeKept(v: Vars, rest: Tokens)
    requires LoopBefore(v, Firing(ErrorExchange), rest)
    ensures LoopAfter(v, FireEffect(v, ErrorExchange), rest)
  {
    var u := v.(errorSeen := true);
    hide FireEffect;
    if v.errorSeen {
      assert LoopAfter(v, Move(u, Idle), rest);
    } else {
      assert LoopAfter(v, Move(u, Firing(ErrorAdd)), rest);
    }
    FireErrorEffects(v);
  }

  lemma ErrorAddKept(v: Vars, rest: Tokens)
    requires LoopBefore(v, Firing(ErrorAdd), rest)
    ensures LoopAfter(v, FireEffect(v, ErrorAdd), rest)
  {
    hide FireEffect;
    assert LoopAfter(v, Move(v.(errorEvents := 1), Firing(ErrorStart)), rest);
    FireErrorEffects(v);
  }

  lemma ErrorStartKept(v: Vars, rest: Tokens)
    requires LoopBefore(v, Firing(ErrorStart), rest)
    ensures LoopAfter(v, FireEffect(v, ErrorStart), rest)
  {
    hide FireEffect;
    assert LoopAfter(v, Effect(v, Idle, Some(HandlingError(ErrorStarted)), None), rest);
    FireErrorEffects(v);
  }

  lemma FireErrorEffects(v: Vars)
    ensures FireEffect(v, ErrorExchange)
            == Move(v.(errorSeen := true), if v.errorSeen then Idle else Firing(ErrorAdd))
    ensures v.checks && v.errorEvents == 0 ==>
              FireEffect(v, ErrorAdd) == Move(v.(errorEvents := 1), Firing(ErrorStart))
    ensures FireEffect(v, ErrorStart) == Effect(v, Idle, Some(HandlingError(ErrorStarted)), None)
  {
  }

  lemma FireErrorKept(v: Vars, p: FirePc, rest: Tokens)
    requires LoopBefore(v, Firing(p), rest) && (p.ErrorExchange? || p.ErrorAdd? || p.ErrorStart?)
    ensures LoopAfter(v, FireEffect(v, p), rest)
  {
    match p
    case ErrorExchange => ErrorExchangeKept(v, rest);
    case ErrorAdd => ErrorAddKept(v, rest);
    case ErrorStart => ErrorStartKept(v, rest);
  }

  lemma ResetKept(v: Vars, d: Dir, rest: Tokens)
    requires LoopBefore(v, Running(OnChannel(d, ResetNow)), rest)
    ensures LoopAfter(v, ChannelEffect(v, d, ResetNow), rest)
  {
    match d case Read => case Write =>
  }

  lemma SuppressStoreKept(v: Vars, d: Dir, rest: Tokens)
    requires LoopBefore(v, Running(OnChannel(d, SuppressStore)), rest)
    ensures LoopAfter(v, ChannelEffect(v, d, SuppressStore), rest)
  {
    match d case Read => case Write =>
  }

  lemma FireFlags(v: Vars, read: bool, write: bool, rest: Tokens)
    requires LoopBefore(v, Firing(Fire(read, write)), rest)
    ensures var e := FireEffect(v, Fire(read, write));
            Flags(e.v, e.next) && LoopFacts(e.v, e.next) && Stable(v, e.v, rest)
  {
  }

  lemma FireChannels(v: Vars, read: bool, write: bool, rest: Tokens)
    requires LoopBefore(v, Firing(Fire(read, write)), rest)
    ensures var e := FireEffect(v, Fire(read, write)); ChannelsOk(e.v, e.next)
  {
  }

  lemma FireTokens(v: Vars, read: bool, write: bool, rest: Tokens)
    requires LoopBefore(v, Firing(Fire(read, write)), rest)
    ensures var e := FireEffect(v, Fire(read, write)); TokensOk(e.v, LoopTotals(e, rest))
  {
  }

  lemma ClosingFlags(v: Vars, p: ClosingPc, rest: Tokens)
    requires LoopBefore(v, Running(Closing(p)), rest)
    ensures var e := ClosingEffect(v, p); Flags(e.v, e.next) && LoopFacts(e.v, e.next) && Stable(v, e.v, rest)
  {
    match p case DisableNow => case SetPending => case CleanupTest => case Detach => case CallOnCleanup =>
  }

  lemma ClosingChannels(v: Vars, p: ClosingPc, rest: Tokens)
    requires LoopBefore(v, Running(Closing(p)), rest)
    ensures var e := ClosingEffect(v, p); ChannelsOk(e.v, e.next)
  {
  }

  lemma ClosingTokens(v: Vars, p: ClosingPc, rest: Tokens)
    requires LoopBefore(v, Running(Closing(p)), rest)
    ensures var e := ClosingEffect(v, p); TokensOk(e.v, LoopTotals(e, rest))
  {
    match p case DisableNow => case SetPending => case CleanupTest => case Detach => case CallOnCleanup =>
  }

  function Other(d: Dir): Dir { match d case Read => Write case Write => Read }

  /** Both directions, starting from either. */
  lemma ChannelsFrom(v: Vars, l: LoopPc, d: Dir)
    requires ChannelOk(v.enabled, Ch(v, d)) && NoStall(v, l, d)
    requires ChannelOk(v.enabled, Ch(v, Other(d))) && NoStall(v, l, Other(d))
    ensures ChannelsOk(v, l)
  {
    match d case Read => case Write =>
  }

  lemma ChannelsOf(v: Vars, l: LoopPc, d: Dir)
    requires ChannelsOk(v, l)
    ensures ChannelOk(v.enabled, Ch(v, d)) && NoStall(v, l, d)
    ensures ChannelOk(v.enabled, Ch(v, Other(d))) && NoStall(v, l, Other(d))
  {
    match d case Read => case Write =>
  }

  /** What counting does to the direction and to the other one. */
  lemma CountFacts(v: Vars, d: Dir)
    ensures var u, c := CountSuppress(v, d), Ch(v, d);
            && Ch(u, d) == c.(restarts := c.restarts - 1, inMask := c.inMask && c.restarts != 1)
            && Ch(u, Other(d)) == Ch(v, Other(d)) && u.enabled == v.enabled
    ensures var u, c := CountRestart(v, d), Ch(v, d);
            && Ch(u, d) == c.(restarts := c.restarts + 1, inMask := c.inMask || c.restarts == 0)
            && Ch(u, Other(d)) == Ch(v, Other(d)) && u.enabled == v.enabled
  {
    match d case Read => case Write =>
  }

  lemma RearmFacts(v: Vars, d: Dir)
    ensures var c := Ch(v, d); Ch(Rearm(v), d) == c.(armed := c.inMask, rearmed := c.rearmed || c.inMask)
    ensures Rearm(v).enabled == v.enabled
  {
    match d case Read => case Write =>
  }

  lemma LoopFlags(v: Vars, l: LoopPc, rest: Tokens)
    requires LoopBefore(v, l, rest)
    ensures Flags(v, l)
  {
  }

  /** Only counters, mask and arming differ, and the checks that go with them hold. */
  predicate SameCore(v: Vars, u: Vars) {
    && u == v.(r := u.r, w := u.w, checks := u.checks, writeChecks := u.writeChecks)
    && u.r.events == v.r.events && u.r.left == v.r.left
    && u.w.events == v.w.events && u.w.left == v.w.left
  }

  lemma SameFlags(v: Vars, u: Vars, l: LoopPc, l': LoopPc)
    requires Flags(v, l) && SameCore(v, u) && u.checks && (u.writeChecks ==> u.w.restarts <= 2)
    requires l.Running? && l.task.OnChannel? && (l'.Idle? || l'.Firing?)
    ensures Flags(u, l')
  {
  }

  lemma CountCore(v: Vars, d: Dir)
    ensures SameCore(v, CountSuppress(v, d)) && SameCore(v, CountRestart(v, d))
    ensures var c := Ch(v, d); v.checks && c.restarts > 0 && c.inMask ==> CountSuppress(v, d).checks
    ensures var c := Ch(v, d); v.checks && (c.restarts == 0 ==> !c.inMask) ==> CountRestart(v, d).checks
    ensures CountSuppress(v, d).writeChecks ==> v.writeChecks
    ensures v.w.restarts <= 2 ==> CountSuppress(v, d).w.restarts <= 2
    ensures CountRestart(v, d).writeChecks && v.w.restarts <= 2 ==> CountRestart(v, d).w.restarts <= 2
    ensures CountRestart(v, d).writeChecks ==> v.writeChecks
  {
    match d case Read => case Write =>
  }

  lemma RearmCore(v: Vars)
    ensures SameCore(v, Rearm(v)) && Rearm(v).checks == (v.checks && v.enabled)
    ensures Rearm(v).writeChecks == v.writeChecks && Rearm(v).w.restarts == v.w.restarts
  {
  }

  lemma FiringMask(v: Vars, d: Dir)
    requires v.enabled && Ch(v, d).inMask
    ensures FireFacts(v, Fire(d.Read?, d.Write?))
  {
  }

  lemma SuppressTestFlags(v: Vars, d: Dir, rest: Tokens)
    requires LoopBefore(v, Running(OnChannel(d, SuppressTest)), rest)
    ensures var e := ChannelEffect(v, d, SuppressTest); Flags(e.v, e.next) && LoopFacts(e.v, e.next)
  {
    hide LoopBefore, CountSuppress, Rearm, Flags, Ch;
    SuppressTestKnows(v, d, rest);
    LoopFlags(v, Running(OnChannel(d, SuppressTest)), rest);
    if v.enabled {
      var u := CountSuppress(v, d);
      CountCore(v, d);
      CountFacts(v, d);
      RearmCore(u);
      RearmFacts(u, d);
      if Ch(v, d).restarts == 1 {
        SameFlags(v, Rearm(u), Running(OnChannel(d, SuppressTest)), Idle);
      } else {
        SameFlags(v, u, Running(OnChannel(d, SuppressTest)), Firing(Fire(d.Read?, d.Write?)));
        FiringMask(u, d);
      }
    } else {
      SameFlags(v, v, Running(OnChannel(d, SuppressTest)), Idle);
    }
  }

  /** Nothing a callback or a check looks at is touched. */
  predicate SameEvents(v: Vars, u: Vars) {
    && u.killed == v.killed && u.pending == v.pending && u.queued == v.queued
    && u.enabled == v.enabled && u.cleanups == v.cleanups
    && u.errorEvents == v.errorEvents
    && u.r.events == v.r.events && u.r.undrained == v.r.undrained && u.r.unseen == v.r.unseen
    && u.w.events == v.w.events && u.w.undrained == v.w.undrained && u.w.unseen == v.w.unseen
  }

  lemma CountSameEvents(v: Vars, d: Dir)
    ensures SameEvents(v, CountSuppress(v, d))
    ensures SameEvents(v, CountRestart(v, d))
  {
    if d == Read {
      assert SameEvents(v, CountSuppress(v, d));
      assert SameEvents(v, CountRestart(v, d));
    } else {
      assert SameEvents(v, CountSuppress(v, d));
      assert SameEvents(v, CountRestart(v, d));
    }
  }

  lemma ChannelSameEvents(v: Vars, d: Dir)
    ensures SameEvents(v, ChannelEffect(v, d, SuppressTest).v)
    ensures SameEvents(v, ChannelEffect(v, d, RestartNow).v)
  {
    hide CountSuppress, CountRestart;
    CountSameEvents(v, d);
  }

  lemma SameTokens(v: Vars, u: Vars, t: Tokens)
    requires SameEvents(v, u) && TokensOk(v, t)
    ensures TokensOk(u, t)
  {
  }

  lemma SameStable(v: Vars, u: Vars, rest: Tokens)
    requires SameEvents(v, u)
    ensures Stable(v, u, rest)
  {
  }

  lemma SuppressTestStable(v: Vars, d: Dir, rest: Tokens)
    requires LoopBefore(v, Running(OnChannel(d, SuppressTest)), rest)
    ensures var e := ChannelEffect(v, d, SuppressTest); Stable(v, e.v, rest)
  {
    ChannelSameEvents(v, d);
    SameStable(v, ChannelEffect(v, d, SuppressTest).v, rest);
  }

  lemma SuppressTestKnows(v: Vars, d: Dir, rest: Tokens)
    requires LoopBefore(v, Running(OnChannel(d, SuppressTest)), rest)
    ensures ChannelsOk(v, Running(OnChannel(d, SuppressTest))) && Ch(v, d).events == 0
    ensures v.enabled ==> Ch(v, d).restarts > 0 && Ch(v, d).inMask
  {
    match d case Read => case Write =>
  }

  lemma SuppressTestChannels(v: Vars, d: Dir, rest: Tokens)
    requires LoopBefore(v, Running(OnChannel(d, SuppressTest)), rest)
    ensures var e := ChannelEffect(v, d, SuppressTest); ChannelsOk(e.v, e.next)
  {
    hide WithCh, CountSuppress, Rearm, LoopBefore, Ch, ChannelsOk;
    SuppressTestKnows(v, d, rest);
    ChannelsOf(v, Running(OnChannel(d, SuppressTest)), d);
    if v.enabled {
      var u := CountSuppress(v, d);
      CountFacts(v, d);
      RearmFacts(u, d);
      RearmFacts(u, Other(d));
      if Ch(v, d).restarts == 1 {
        ChannelsFrom(Rearm(u), Idle, d);
      } else {
        ChannelsFrom(u, Firing(Fire(d.Read?, d.Write?)), d);
      }
    } else {
      ChannelsFrom(v, Idle, d);
    }
  }

  /** A place in which the event loop holds no token. */
  predicate EmptyHanded(l: LoopPc) {
    match l
    case Idle => true
    case Firing(p) => p.Fire?
    case Running(OnChannel(_, p)) => p.SuppressTest? || p.RestartNow?
    case _ => false
  }

  lemma LoopTokens(v: Vars, l: LoopPc, rest: Tokens)
    requires LoopBefore(v, l, rest) && EmptyHanded(l)
    ensures TokensOk(v, rest)
  {
    assert WithLoop(rest, l) == rest;
  }

  lemma NothingMoved(e: Effect<LoopPc>, rest: Tokens)
    requires EmptyHanded(e.next) && e.posted.None? && e.spawned.None?
    ensures LoopTotals(e, rest) == rest
  {
  }

  lemma SuppressTestTokens(v: Vars, d: Dir, rest: Tokens)
    requires LoopBefore(v, Running(OnChannel(d, SuppressTest)), rest)
    ensures var e := ChannelEffect(v, d, SuppressTest); TokensOk(e.v, LoopTotals(e, rest))
  {
    hide LoopBefore, TokensOk, LoopTotals, CountSuppress, Rearm;
    var e := ChannelEffect(v, d, SuppressTest);
    LoopTokens(v, Running(OnChannel(d, SuppressTest)), rest);
    ChannelSameEvents(v, d);
    SameTokens(v, e.v, rest);
    NothingMoved(e, rest);
  }

  lemma RestartFlags(v: Vars, d: Dir, rest: Tokens)
    requires LoopBefore(v, Running(OnChannel(d, RestartNow)), rest)
    ensures var e := ChannelEffect(v, d, RestartNow); Flags(e.v, e.next) && LoopFacts(e.v, e.next)
  {
    hide LoopBefore, CountRestart, Rearm, Flags, Ch;
    RestartKnows(v, d, rest);
    LoopFlags(v, Running(OnChannel(d, RestartNow)), rest);
    ChannelsOf(v, Running(OnChannel(d, RestartNow)), d);
    if v.enabled {
      var u := CountRestart(v, d);
      CountCore(v, d);
      CountFacts(v, d);
      RearmCore(u);
      if Ch(v, d).restarts == 0 {
        SameFlags(v, Rearm(u), Running(OnChannel(d, RestartNow)), Idle);
      } else {
        SameFlags(v, u, Running(OnChannel(d, RestartNow)), Idle);
      }
    } else {
      SameFlags(v, v, Running(OnChannel(d, RestartNow)), Idle);
    }
  }

  lemma RestartStable(v: Vars, d: Dir, rest: Tokens)
    requires LoopBefore(v, Running(OnChannel(d, RestartNow)), rest)
    ensures var e := ChannelEffect(v, d, RestartNow); Stable(v, e.v, rest)
  {
    ChannelSameEvents(v, d);
    SameStable(v, ChannelEffect(v, d, RestartNow).v, rest);
  }

  lemma RestartKnows(v: Vars, d: Dir, rest: Tokens)
    requires LoopBefore(v, Running(OnChannel(d, RestartNow)), rest)
    ensures ChannelsOk(v, Running(OnChannel(d, RestartNow)))
  {
  }

  lemma RestartChannels(v: Vars, d: Dir, rest: Tokens)
    requires LoopBefore(v, Running(OnChannel(d, RestartNow)), rest)
    ensures var e := ChannelEffect(v, d, RestartNow); ChannelsOk(e.v, e.next)
  {
    hide WithCh, CountRestart, Rearm, LoopBefore, Ch, ChannelsOk;
    RestartKnows(v, d, rest);
    ChannelsOf(v, Running(OnChannel(d, RestartNow)), d);
    if v.enabled {
      var u := CountRestart(v, d);
      CountFacts(v, d);
      RearmFacts(u, d);
      RearmFacts(u, Other(d));
      if Ch(v, d).restarts == 0 {
        ChannelsFrom(Rearm(u), Idle, d);
      } else {
        ChannelsFrom(u, Idle, d);
      }
    } else {
      ChannelsFrom(v, Idle, d);
    }
  }

  lemma RestartTokens(v: Vars, d: Dir, rest: Tokens)
    requires LoopBefore(v, Running(OnChannel(d, RestartNow)), rest)
    ensures var e := ChannelEffect(v, d, RestartNow); TokensOk(e.v, LoopTotals(e, rest))
  {
    hide LoopBefore, TokensOk, LoopTotals, RestartEnabled;
    var e := ChannelEffect(v, d, RestartNow);
    LoopTokens(v, Running(OnChannel(d, RestartNow)), rest);
    ChannelSameEvents(v, d);
    SameTokens(v, e.v, rest);
    NothingMoved(e, rest);
  }

  lemma LoopCheckingFlags(v: Vars, p: CheckPc, after: After, rest: Tokens)
    requires LoopBefore(v, LoopChecking(p, after), rest)
    ensures var e := LoopEffect(v, LoopChecking(p, after));
            Flags(e.v, e.next) && LoopFacts(e.v, e.next) && Stable(v, e.v, rest)
  {
  }

  lemma LoopCheckingChannels(v: Vars, p: CheckPc, after: After, rest: Tokens)
    requires LoopBefore(v, LoopChecking(p, after), rest)
    ensures var e := LoopEffect(v, LoopChecking(p, after)); ChannelsOk(e.v, e.next)
  {
  }

  /** `rest` and what somebody in QueueCleanupCallbackCheck() holds. */
  function WithCheck(t: Tokens, p: Option<CheckPc>): Tokens {
    match p
    case Some(p) => t.(c := t.c + OfCheck(p, Cleaning), h := t.h + OfCheck(p, Examining))
    case None => t
  }

  /** A check may end when there is nothing it could have to do. */
  lemma StopsExamining(v: Vars, rest: Tokens)
    requires TokensOk(v, WithCheck(rest, Some(LoadPending))) && !(v.pending && AllZero(v))
    ensures TokensOk(v, rest)
  {
  }

  lemma ExchangeTokens(v: Vars, rest: Tokens)
    requires TokensOk(v, WithCheck(rest, Some(Exchange))) && v.pending && AllZero(v) && rest.h >= 0
    requires v.cleanups > 0 ==> v.queued
    ensures TokensOk(v.(queued := true), if v.queued then rest else WithCheck(rest, Some(Post)))
  {
  }

  lemma CheckTokens(v: Vars, p: CheckPc, rest: Tokens)
    requires TokensOk(v, WithCheck(rest, Some(p))) && CheckFacts(v, p) && rest.h >= 0
    requires v.cleanups > 0 ==> v.queued
    ensures var e := CheckStep(v, p); TokensOk(e.v, WithPosted(WithCheck(rest, e.next), e.posted))
  {
    hide TokensOk;
    match p
    case LoadPending => if !v.pending { StopsExamining(v, rest); }
    case LoadRead => if v.r.events != 0 { StopsExamining(v, rest); }
    case LoadWrite => if v.w.events != 0 { StopsExamining(v, rest); }
    case LoadError => if v.errorEvents != 0 { StopsExamining(v, rest); }
    case Exchange => ExchangeTokens(v, rest);
    case Post => assert WithCheck(rest, Some(Post)) == WithTask(rest, Cleanup);
  }

  lemma CheckPosts(v: Vars, p: CheckPc)
    ensures CheckStep(v, p).spawned.None?
    ensures CheckStep(v, p).posted == if p.Post? then Some(Cleanup) else None
    ensures p.Post? ==> CheckStep(v, p).next.None?
  {
  }

  lemma CheckingLoop(v: Vars, p: CheckPc, after: After, rest: Tokens)
    requires LoopBefore(v, LoopChecking(p, after), rest)
    ensures TokensOk(v, WithCheck(rest, Some(p))) && CheckFacts(v, p) && rest.h >= 0
    ensures v.cleanups > 0 ==> v.queued
  {
    assert WithLoop(rest, LoopChecking(p, after)) == WithCheck(rest, Some(p));
  }

  lemma LoopCheckTotals(v: Vars, p: CheckPc, after: After, rest: Tokens)
    ensures var e := CheckStep(v, p);
            LoopTotals(LoopEffect(v, LoopChecking(p, after)), rest) == WithPosted(WithCheck(rest, e.next), e.posted)
  {
    hide CheckStep;
    CheckPosts(v, p);
    match after case Finish => case Tail(_) =>
  }

  lemma FiberCheckTotals(v: Vars, p: CheckPc, a: Action, rest: Tokens)
    ensures var e := CheckStep(v, p);
            FiberTotals(FiberEffect(v, Checking(p), a).value, rest) == WithPosted(WithCheck(rest, e.next), e.posted)
    ensures WithFiber(rest, Checking(p)) == WithCheck(rest, Some(p))
  {
    hide CheckStep;
    CheckPosts(v, p);
  }

  lemma LoopCheckingTokens(v: Vars, p: CheckPc, after: After, rest: Tokens)
    requires LoopBefore(v, LoopChecking(p, after), rest)
    ensures var e := LoopEffect(v, LoopChecking(p, after)); TokensOk(e.v, LoopTotals(e, rest))
  {
    hide LoopBefore, TokensOk, CheckStep;
    CheckingLoop(v, p, after, rest);
    CheckTokens(v, p, rest);
    CheckPosts(v, p);
    LoopCheckTotals(v, p, after, rest);
  }

  /** What a fiber's step may do to a direction. */
  predicate QuietChannel(c: Channel, c': Channel) {
    && c'.restarts == c.restarts && c'.inMask == c.inMask && c'.armed == c.armed
    && c'.rearmed == c.rearmed && c'.left == c.left
    && c'.events <= c.events
    && (c'.unseen ==> c.unseen && c'.events > 0)
    && (c'.undrained ==> c'.events > 0 || c == c')
  }

  /** What a fiber's step may do to the shared variables. */
  predicate Quiet(v: Vars, u: Vars) {
    && u == v.(r := u.r, w := u.w, errorEvents := u.errorEvents, queued := u.queued)
    && QuietChannel(v.r, u.r) && QuietChannel(v.w, u.w)
    && u.errorEvents <= v.errorEvents
    && (v.queued ==> u.queued)
    && (u.queued && !v.queued ==> v.pending && AllZero(v))
  }

  predicate QuietAfter(v: Vars, e: Effect<Pc>, rest: Tokens) {
    && Stable(v, e.v, rest) && e.spawned.None? && FiberFacts(e.v, e.next)
    && (e.posted.Some? ==> QueuedFacts(e.v, e.posted.value))
  }

  lemma QuietCore(v: Vars, u: Vars, l: LoopPc)
    requires Core(v, l) && Quiet(v, u)
    ensures Core(u, l)
  {
  }

  /** A channel may stay as it is. */
  predicate SelfQuiet(v: Vars) {
    QuietChannel(v.r, v.r) && QuietChannel(v.w, v.w)
  }

  /** What a fiber in the loop of `d` knows. */
  lemma OwnerKnows(v: Vars, l: LoopPc, d: Dir, p: EventPc, rest: Tokens)
    requires FiberBefore(v, l, Handling(d, p), rest)
    ensures Ch(v, d).events > 0 && Owners(rest, d) == 0 && v.checks && SelfQuiet(v)
    ensures HandlingFacts(v, Ch(v, d), p)
  {
    match d case Read => case Write =>
  }

  lemma QuietSelf(v: Vars, rest: Tokens)
    requires SelfQuiet(v)
    ensures Quiet(v, v) && Stable(v, v, rest)
  {
  }

  /** The owner of a direction changes its channel. */
  lemma OwnChange(v: Vars, d: Dir, c: Channel, rest: Tokens)
    requires Ch(v, d).events > 0 && Owners(rest, d) == 0 && QuietChannel(Ch(v, d), c) && SelfQuiet(v)
    ensures Quiet(v, WithCh(v, d, c)) && Stable(v, WithCh(v, d, c), rest)
    ensures Ch(WithCh(v, d, c), d) == c && WithCh(v, d, c).killed == v.killed
  {
    match d
    case Read => assert WithCh(v, d, c) == v.(r := c);
    case Write => assert WithCh(v, d, c) == v.(w := c);
  }

  /** The steps of an owner: it changes its channel and goes on, or gives the channel up. */
  lemma OwnerMoves(v: Vars, d: Dir, c: Channel, p: EventPc, rest: Tokens)
    requires Ch(v, d).events > 0 && Owners(rest, d) == 0 && QuietChannel(Ch(v, d), c) && SelfQuiet(v)
    requires HandlingFacts(v, c, p)
    ensures var e := Move(WithCh(v, d, c), Handling(d, p)); Quiet(v, e.v) && QuietAfter(v, e, rest)
  {
    hide Quiet, Stable, WithCh, Ch, QuietChannel, SelfQuiet;
    OwnChange(v, d, c, rest);
  }

  lemma OwnerGivesUp(v: Vars, d: Dir, c: Channel, rest: Tokens)
    requires Ch(v, d).events > 0 && Owners(rest, d) == 0 && QuietChannel(Ch(v, d), c) && SelfQuiet(v)
    ensures var e := Move(WithCh(v, d, c), Checking(LoadPending)); Quiet(v, e.v) && QuietAfter(v, e, rest)
  {
    hide Quiet, Stable, WithCh, Ch, QuietChannel, SelfQuiet;
    OwnChange(v, d, c, rest);
  }

  lemma OwnerLeaves(v: Vars, d: Dir, rest: Tokens)
    requires v.killed && SelfQuiet(v)
    ensures var e := Move(v, Handling(d, PostReset)); Quiet(v, e.v) && QuietAfter(v, e, rest)
  {
    hide Quiet, Stable, SelfQuiet;
    QuietSelf(v, rest);
  }

  lemma StartedQuiet(v: Vars, l: LoopPc, d: Dir, a: Action, rest: Tokens)
    requires FiberBefore(v, l, Handling(d, Started), rest)
    ensures var e := HandlingEffect(v, d, Started, a).value; Quiet(v, e.v) && QuietAfter(v, e, rest)
  {
    hide FiberBefore, Quiet, QuietAfter, WithCh, SelfQuiet;
    OwnerKnows(v, l, d, Started, rest);
    OwnerMoves(v, d, Ch(v, d).(unseen := false), InCallback, rest);
  }

  lemma FiberTokens(v: Vars, l: LoopPc, pc: Pc, rest: Tokens)
    requires FiberBefore(v, l, pc, rest)
    ensures TokensOk(v, WithFiber(rest, pc)) && rest.h >= 0
  {
  }

  lemma OwnerKeepsToken(v: Vars, d: Dir, c: Channel, p: EventPc, q: EventPc, rest: Tokens)
    requires TokensOk(v, WithFiber(rest, Handling(d, p))) && Ch(v, d).events > 0 && c.events > 0
    ensures TokensOk(WithCh(v, d, c), WithFiber(rest, Handling(d, q)))
  {
    match d case Read => case Write =>
  }

  lemma OwnerReturnsToken(v: Vars, d: Dir, c: Channel, rest: Tokens)
    requires TokensOk(v, WithFiber(rest, Handling(d, Decrement))) && Ch(v, d).events > 0 && c.events == 0
    requires rest.h >= 0
    ensures TokensOk(WithCh(v, d, c), WithFiber(rest, Checking(LoadPending)))
  {
    match d case Read => case Write =>
  }

  lemma SameCh(v: Vars, d: Dir)
    ensures WithCh(v, d, Ch(v, d)) == v
  {
    match d case Read => case Write =>
  }

  lemma StartedTokens(v: Vars, l: LoopPc, d: Dir, a: Action, rest: Tokens)
    requires FiberBefore(v, l, Handling(d, Started), rest)
    ensures var e := HandlingEffect(v, d, Started, a).value; TokensOk(e.v, FiberTotals(e, rest))
  {
    hide FiberBefore, TokensOk, WithFiber, WithCh;
    OwnerKnows(v, l, d, Started, rest);
    FiberTokens(v, l, Handling(d, Started), rest);
    OwnerKeepsToken(v, d, Ch(v, d).(unseen := false), Started, InCallback, rest);
  }

  lemma ReturnQuiet(v: Vars, l: LoopPc, d: Dir, a: Action, rest: Tokens)
    requires FiberBefore(v, l, Handling(d, InCallback), rest) && HandlingEffect(v, d, InCallback, a).Some?
    ensures var e := HandlingEffect(v, d, InCallback, a).value; Quiet(v, e.v) && QuietAfter(v, e, rest)
  {
    hide FiberBefore, Quiet, QuietAfter, WithCh, SelfQuiet;
    OwnerKnows(v, l, d, InCallback, rest);
    match a
    case Ready => OwnerMoves(v, d, Ch(v, d).(undrained := false), Decrement, rest);
    case Leaving => OwnerLeaves(v, d, rest);
    case AskSuppress => OwnerMoves(v, d, Ch(v, d).(undrained := true), PostSuppress, rest);
  }

  lemma ReturnTokens(v: Vars, l: LoopPc, d: Dir, a: Action, rest: Tokens)
    requires FiberBefore(v, l, Handling(d, InCallback), rest) && HandlingEffect(v, d, InCallback, a).Some?
    ensures var e := HandlingEffect(v, d, InCallback, a).value; TokensOk(e.v, FiberTotals(e, rest))
  {
    hide FiberBefore, TokensOk, WithFiber, WithCh;
    OwnerKnows(v, l, d, InCallback, rest);
    FiberTokens(v, l, Handling(d, InCallback), rest);
    match a
    case Ready => OwnerKeepsToken(v, d, Ch(v, d).(undrained := false), InCallback, Decrement, rest);
    case Leaving =>
      OwnerKeepsToken(v, d, Ch(v, d), InCallback, PostReset, rest);
      SameCh(v, d);
    case AskSuppress => OwnerKeepsToken(v, d, Ch(v, d).(undrained := true), InCallback, PostSuppress, rest);
  }

  lemma CheckTrue(v: Vars)
    requires v.checks
    ensures Check(v, true) == v
  {
  }

  lemma DecrementQuiet(v: Vars, l: LoopPc, d: Dir, a: Action, rest: Tokens)
    requires FiberBefore(v, l, Handling(d, Decrement), rest)
    ensures var e := HandlingEffect(v, d, Decrement, a).value; Quiet(v, e.v) && QuietAfter(v, e, rest)
  {
    hide FiberBefore, Quiet, QuietAfter, WithCh, SelfQuiet, Check;
    OwnerKnows(v, l, d, Decrement, rest);
    CheckTrue(v);
    var c := Ch(v, d);
    if c.events != 1 {
      OwnerMoves(v, d, c.(events := c.events - 1, unseen := false), InCallback, rest);
    } else {
      OwnerGivesUp(v, d, c.(events := c.events - 1), rest);
    }
  }

  lemma DecrementTokens(v: Vars, l: LoopPc, d: Dir, a: Action, rest: Tokens)
    requires FiberBefore(v, l, Handling(d, Decrement), rest)
    ensures var e := HandlingEffect(v, d, Decrement, a).value; TokensOk(e.v, FiberTotals(e, rest))
  {
    hide FiberBefore, TokensOk, WithFiber, WithCh, Check;
    OwnerKnows(v, l, d, Decrement, rest);
    FiberTokens(v, l, Handling(d, Decrement), rest);
    CheckTrue(v);
    var c := Ch(v, d);
    if c.events != 1 {
      OwnerKeepsToken(v, d, c.(events := c.events - 1, unseen := false), Decrement, InCallback, rest);
    } else {
      OwnerReturnsToken(v, d, c.(events := c.events - 1), rest);
    }
  }

  lemma PostQuiet(v: Vars, l: LoopPc, d: Dir, p: EventPc, a: Action, rest: Tokens)
    requires FiberBefore(v, l, Handling(d, p), rest) && (p.PostReset? || p.PostSuppress?)
    ensures var e := HandlingEffect(v, d, p, a).value; Quiet(v, e.v) && QuietAfter(v, e, rest)
  {
    OwnerKnows(v, l, d, p, rest);
    CheckTrue(v);
    hide FiberBefore, Quiet, Stable, SelfQuiet, Check, Ch;
    QuietSelf(v, rest);
  }

  lemma PostTokens(v: Vars, l: LoopPc, d: Dir, p: EventPc, a: Action, rest: Tokens)
    requires FiberBefore(v, l, Handling(d, p), rest) && (p.PostReset? || p.PostSuppress?)
    ensures var e := HandlingEffect(v, d, p, a).value; TokensOk(e.v, FiberTotals(e, rest))
  {
    match d case Read => case Write =>
  }

  lemma ErrorQuiet(v: Vars, l: LoopPc, p: ErrorPc, rest: Tokens)
    requires FiberBefore(v, l, HandlingError(p), rest)
    ensures var e := ErrorEffect(v, p); Quiet(v, e.v) && QuietAfter(v, e, rest)
  {
    ErrorKnows(v, l, p, rest);
    CheckTrue(v);
    hide FiberBefore, Quiet, Stable, SelfQuiet, Check;
    QuietSelf(v, rest);
    ErrorChange(v, rest);
  }

  lemma ErrorKnows(v: Vars, l: LoopPc, p: ErrorPc, rest: Tokens)
    requires FiberBefore(v, l, HandlingError(p), rest)
    ensures v.errorEvents == 1 && v.checks && SelfQuiet(v)
  {
  }

  lemma ErrorChange(v: Vars, rest: Tokens)
    requires SelfQuiet(v)
    ensures Quiet(v, v.(errorEvents := 0)) && Stable(v, v.(errorEvents := 0), rest)
  {
  }

  lemma CheckingQuiet(v: Vars, l: LoopPc, p: CheckPc, a: Action, rest: Tokens)
    requires FiberBefore(v, l, Checking(p), rest)
    ensures var e := FiberEffect(v, Checking(p), a).value; Quiet(v, e.v) && QuietAfter(v, e, rest)
  {
    CheckerKnows(v, l, p, rest);
    hide FiberBefore, Quiet, Stable, SelfQuiet;
    QuietSelf(v, rest);
    match p
    case LoadPending =>
    case LoadRead =>
    case LoadWrite =>
    case LoadError =>
    case Exchange => QueueChange(v, rest);
    case Post =>
  }

  lemma CheckerKnows(v: Vars, l: LoopPc, p: CheckPc, rest: Tokens)
    requires FiberBefore(v, l, Checking(p), rest)
    ensures SelfQuiet(v) && CheckFacts(v, p) && (v.cleanups > 0 ==> v.queued)
  {
  }

  lemma QueueChange(v: Vars, rest: Tokens)
    requires SelfQuiet(v) && v.pending && AllZero(v)
    ensures Quiet(v, v.(queued := true)) && Stable(v, v.(queued := true), rest)
  {
  }

  lemma ErrorTokens(v: Vars, l: LoopPc, p: ErrorPc, rest: Tokens)
    requires FiberBefore(v, l, HandlingError(p), rest)
    ensures var e := ErrorEffect(v, p); TokensOk(e.v, FiberTotals(e, rest))
  {
    match p case ErrorStarted => case InError => case ErrorDecrement =>
  }

  lemma CheckingTokens(v: Vars, l: LoopPc, p: CheckPc, a: Action, rest: Tokens)
    requires FiberBefore(v, l, Checking(p), rest)
    ensures var e := FiberEffect(v, Checking(p), a).value; TokensOk(e.v, FiberTotals(e, rest))
  {
    hide FiberBefore, TokensOk, CheckStep;
    CheckerKnows(v, l, p, rest);
    FiberTokens(v, l, Checking(p), rest);
    CheckTokens(v, p, rest);
    CheckPosts(v, p);
    FiberCheckTotals(v, p, a, rest);
  }
}
