/** The I/O descriptor protocol as a state machine.  One event loop, the fibers it
    starts for read, write and error events, and any number of callers of `Kill`
    and `RestartRead` / `RestartWrite` interleave, one atomic operation at a time.
    Only the event loop touches the event mask, the enabled flag and the restart
    counters, so a task that uses nothing else takes one step. */
module Descriptor {
  import opened Prelude

  datatype Dir = Read | Write

  /** One direction of a descriptor.  The last four fields are observations: they
      are set as described and no step of the protocol depends on them.
      `unseen`: an event has been fired since the callback last started.
      `undrained`: the last callback that returned asked for suppression, so the
      system's buffer may still hold data.
      `rearmed`: the poller has been told to report this direction since the last
      suppression took effect.
      `left`: the counter has been reset after a callback returned `Leaving`. */
  datatype Channel = Channel(
    events: nat,
    restarts: int,
    inMask: bool,
    armed: bool,
    unseen: bool,
    undrained: bool,
    rearmed: bool,
    left: bool)

  /** Functions the event loop will run.  `Reset` and `Cleanup` hold no reference. */
  datatype Task = Disable | Reset(d: Dir) | Suppress(d: Dir) | Restart(d: Dir) | Cleanup

  /** The places inside QueueCleanupCallbackCheck(). */
  datatype CheckPc = LoadPending | LoadRead | LoadWrite | LoadError | Exchange | Post

  /** A fiber handling events of one direction. */
  datatype EventPc = Started | InCallback | Decrement | PostReset | PostSuppress

  datatype ErrorPc = ErrorStarted | InError | ErrorDecrement

  datatype Pc =
    | Handling(d: Dir, event: EventPc)
    | HandlingError(error: ErrorPc)
    | Checking(check: CheckPc)
    | KillPost
    | Done

  /** What the event loop does after a cleanup check inside a task. */
  datatype After = Finish | Tail(d: Dir)

  datatype FirePc =
    | Fire(read: bool, write: bool)
    | StartFiber(d: Dir, write: bool)
    | ErrorExchange
    | ErrorAdd
    | ErrorStart

  datatype TaskPc = Closing(closing: ClosingPc) | OnChannel(d: Dir, channel: ChannelPc)

  datatype ClosingPc = DisableNow | SetPending | CleanupTest | Detach | CallOnCleanup

  datatype ChannelPc = ResetNow | SuppressStore | SuppressTest | RestartNow

  datatype LoopPc =
    | Idle
    | Firing(fire: FirePc)
    | Running(task: TaskPc)
    | LoopChecking(check: CheckPc, after: After)

  /** The shared variables.  `checks` stays true as long as no FLARE_CHECK has
      failed, except those on the number of write restarts, which `writeChecks`
      follows.  `loopRef` is the reference the event loop holds, `cleanups` the number
      of calls of OnCleanup(). */
  datatype Vars = Vars(
    r: Channel,
    w: Channel,
    errorEvents: nat,
    errorSeen: bool,
    killed: bool,
    pending: bool,
    queued: bool,
    enabled: bool,
    loopRef: bool,
    cleanups: nat,
    checks: bool,
    writeChecks: bool)

  datatype State = State(v: Vars, loop: LoopPc, tasks: seq<Task>, fibers: seq<Pc>)

  function Ch(v: Vars, d: Dir): Channel {
    match d case Read => v.r case Write => v.w
  }

  function WithCh(v: Vars, d: Dir, c: Channel): Vars {
    match d case Read => v.(r := c) case Write => v.(w := c)
  }

  function Check(v: Vars, b: bool): Vars {
    v.(checks := v.checks && b)
  }

  predicate AllZero(v: Vars) {
    v.r.events == 0 && v.w.events == 0 && v.errorEvents == 0
  }

  /** RearmDescriptor(): the poller is told the current mask. */
  function Rearm(v: Vars): Vars {
    Check(v, v.enabled).(
    r := v.r.(armed := v.r.inMask, rearmed := v.r.rearmed || v.r.inMask),
    w := v.w.(armed := v.w.inMask, rearmed := v.w.rearmed || v.w.inMask))
  }

  // ---------------------------------------------------- steps of the event loop

  /** A step of the event loop or of a fiber: the new variables, where the stepper
      is next, a fiber it starts, a task it posts. */
  datatype Effect<P> = Effect(v: Vars, next: P, spawned: Option<Pc>, posted: Option<Task>)

  function Move<P>(v: Vars, next: P): Effect<P> {
    Effect(v, next, None, None)
  }

  /** One access of QueueCleanupCallbackCheck(); `next` is None once it returns. */
  function CheckStep(v: Vars, p: CheckPc): Effect<Option<CheckPc>> {
    match p
    case LoadPending => Move(v, if v.pending then Some(LoadRead) else None)
    case LoadRead => Move(v, if v.r.events == 0 then Some(LoadWrite) else None)
    case LoadWrite => Move(v, if v.w.events == 0 then Some(LoadError) else None)
    case LoadError => Move(v, if v.errorEvents == 0 then Some(Exchange) else None)
    case Exchange => Move(v.(queued := true), if v.queued then None else Some(Post))
    case Post => Effect(v, None, None, Some(Cleanup))
  }

  function LoopEffect(v: Vars, l: LoopPc): Effect<LoopPc> {
    match l
    case Idle => Move(v, Idle)
    case Firing(p) => FireEffect(v, p)
    case Running(p) => TaskEffect(v, p)
    case LoopChecking(p, after) =>
      var e := CheckStep(v, p);
      Effect(e.v,
             match e.next
             case Some(q) => LoopChecking(q, after)
             case None => Resume(after),
             e.spawned, e.posted)
  }

  function Resume(after: After): LoopPc {
    match after case Finish => Idle case Tail(d) => Running(OnChannel(d, SuppressTest))
  }

  function Entry(x: Task): TaskPc {
    match x
    case Disable => Closing(DisableNow)
    case Reset(d) => OnChannel(d, ResetNow)
    case Suppress(d) => OnChannel(d, SuppressStore)
    case Restart(d) => OnChannel(d, RestartNow)
    case Cleanup => Closing(CleanupTest)
  }

  /** FireEvents(), FireReadEvent(), FireWriteEvent() and FireErrorEvent(). */
  function FireEffect(v: Vars, p: FirePc): Effect<LoopPc> {
    match p
    case Fire(read, write) =>
      if read then FireOne(v, Read, write)
      else if write then FireOne(v, Write, false)
      else Move(v, Idle)
    case StartFiber(d, write) =>
      Effect(v, Firing(Fire(false, write)), Some(Handling(d, Started)), None)
    case ErrorExchange =>
      Move(v.(errorSeen := true), if v.errorSeen then Idle else Firing(ErrorAdd))
    case ErrorAdd =>
      Move(Check(v, v.errorEvents == 0).(errorEvents := v.errorEvents + 1),
           if v.errorEvents == 0 then Firing(ErrorStart) else Idle)
    case ErrorStart => Effect(v, Idle, Some(HandlingError(ErrorStarted)), None)
  }

  function FireOne(v: Vars, d: Dir, rest: bool): Effect<LoopPc> {
    var c := Ch(v, d);
    Move(WithCh(v, d, c.(events := c.events + 1, unseen := true)),
         Firing(if c.events == 0 then StartFiber(d, rest) else Fire(false, rest)))
  }

  /** The tasks. */
  function TaskEffect(v: Vars, p: TaskPc): Effect<LoopPc> {
    match p
    case Closing(p) => ClosingEffect(v, p)
    case OnChannel(d, p) => ChannelEffect(v, d, p)
  }

  /** The tasks posted by Kill() and by QueueCleanupCallbackCheck(). */
  function ClosingEffect(v: Vars, p: ClosingPc): Effect<LoopPc> {
    match p
    case DisableNow =>
      Move(Check(v, v.enabled).(enabled := false, r := v.r.(armed := false), w := v.w.(armed := false)),
           Running(Closing(SetPending)))
    case SetPending => Move(v.(pending := true), LoopChecking(LoadPending, Finish))
    case CleanupTest => Move(Check(v, AllZero(v)), Running(Closing(Detach)))
    case Detach => Move(Check(v, !v.enabled).(loopRef := false), Running(Closing(CallOnCleanup)))
    case CallOnCleanup => Move(v.(cleanups := v.cleanups + 1), Idle)
  }

  /** The tasks posted on `Leaving`, on `Suppress`, and by RestartReadNow() and
      RestartWriteNow(). */
  function ChannelEffect(v: Vars, d: Dir, p: ChannelPc): Effect<LoopPc> {
    match p
    case ResetNow =>
      Move(WithCh(v, d, Ch(v, d).(events := 0, unseen := false, left := true)), LoopChecking(LoadPending, Finish))
    case SuppressStore =>
      Move(WithCh(v, d, Ch(v, d).(events := 0, unseen := false, rearmed := false)),
           LoopChecking(LoadPending, Tail(d)))
    case SuppressTest => if v.enabled then SuppressEnabled(v, d) else Move(v, Idle)
    case RestartNow => Move(if v.enabled then RestartEnabled(v, d) else v, Idle)
  }

  /** The counter of `d` goes down by one; at zero its bit leaves the mask. */
  function CountSuppress(v: Vars, d: Dir): Vars {
    var c := Ch(v, d);
    var reached := c.restarts - 1;
    WithCh(v, d, c.(restarts := reached, inMask := c.inMask && reached != 0)).(
    checks := v.checks && reached != -1 && c.inMask,
    writeChecks := v.writeChecks && (d.Write? ==> reached == 0 || reached == 1))
  }

  function SuppressEnabled(v: Vars, d: Dir): Effect<LoopPc> {
    var u := CountSuppress(v, d);
    if Ch(u, d).restarts == 0 then Move(Rearm(u), Idle) else Move(u, Firing(Fire(d.Read?, d.Write?)))
  }

  /** The counter of `d` goes up by one; from zero its bit enters the mask. */
  function CountRestart(v: Vars, d: Dir): Vars {
    var c := Ch(v, d);
    var count := c.restarts;
    WithCh(v, d, c.(restarts := count + 1, inMask := c.inMask || count == 0)).(
    checks := v.checks && (count == 0 ==> !c.inMask),
    writeChecks := v.writeChecks && (d.Write? ==> count == 0 || count == 1))
  }

  function RestartEnabled(v: Vars, d: Dir): Vars {
    var u := CountRestart(v, d);
    if Ch(v, d).restarts == 0 then Rearm(u) else u
  }

  // ------------------------------------------------------------ steps of fibers

  datatype Action = Ready | Leaving | AskSuppress

  /** A fiber's next step, None once it has finished.  A callback may return `Leaving`
      only after `Kill`. */
  function FiberEffect(v: Vars, pc: Pc, a: Action): Option<Effect<Pc>> {
    match pc
    case Handling(d, p) => HandlingEffect(v, d, p, a)
    case HandlingError(p) => Some(ErrorEffect(v, p))
    case Checking(p) =>
      var e := CheckStep(v, p);
      Some(Effect(e.v, match e.next case Some(q) => Checking(q) case None => Done, e.spawned, e.posted))
    case KillPost => Some(Effect(v, Done, None, Some(Disable)))
    case Done => None
  }

  function HandlingEffect(v: Vars, d: Dir, p: EventPc, a: Action): Option<Effect<Pc>> {
    var c := Ch(v, d);
    match p
    case Started => Some(Move(WithCh(v, d, c.(unseen := false)), Handling(d, InCallback)))
    case InCallback =>
      (match a
       case Ready => Some(Move(WithCh(v, d, c.(undrained := false)), Handling(d, Decrement)))
       case Leaving => if v.killed then Some(Move(v, Handling(d, PostReset))) else None
       case AskSuppress =>
         Some(Move(WithCh(v, d, c.(undrained := true)), Handling(d, PostSuppress))))
    case Decrement =>
      var left := if c.events > 0 then c.events - 1 else 0;
      if c.events != 1 then
        Some(Move(WithCh(Check(v, c.events > 0), d, c.(events := left, unseen := false)),
                  Handling(d, InCallback)))
      else
        Some(Move(WithCh(v, d, c.(events := left)), Checking(LoadPending)))
    case PostReset => Some(Effect(Check(v, v.killed), Checking(LoadPending), None, Some(Reset(d))))
    case PostSuppress => Some(Effect(v, Checking(LoadPending), None, Some(Suppress(d))))
  }

  function ErrorEffect(v: Vars, p: ErrorPc): Effect<Pc> {
    match p
    case ErrorStarted => Move(v, HandlingError(InError))
    case InError => Move(v, HandlingError(ErrorDecrement))
    case ErrorDecrement =>
      Move(Check(v, v.errorEvents == 1).(errorEvents := if v.errorEvents > 0 then v.errorEvents - 1 else 0),
           Checking(LoadPending))
  }

  // ---------------------------------------------------------------- all steps

  datatype Label =
    | KillCall
    | RestartCall(d: Dir)
    | Poll(read: bool, write: bool)
    | PollError
    | RunTask
    | LoopStep
    | FiberStep(i: nat, a: Action)

  function AndThen<T>(s: seq<T>, x: Option<T>): seq<T> {
    match x case Some(x) => s + [x] case None => s
  }

  function Next(s: State, l: Label): Option<State> {
    match l
    case KillCall =>
      Some(if s.v.killed then s else s.(v := s.v.(killed := true), fibers := s.fibers + [KillPost]))
    case RestartCall(d) => Some(s.(tasks := s.tasks + [Restart(d)]))
    case Poll(read, write) =>
      if s.loop.Idle? && s.v.enabled && (read ==> s.v.r.armed) && (write ==> s.v.w.armed)
      then Some(s.(loop := Firing(Fire(read, write)))) else None
    case PollError =>
      if s.loop.Idle? && s.v.enabled then Some(s.(loop := Firing(ErrorExchange))) else None
    case RunTask =>
      if s.loop.Idle? && s.tasks != []
      then Some(s.(tasks := s.tasks[1..], loop := Running(Entry(s.tasks[0])))) else None
    case LoopStep =>
      var e := LoopEffect(s.v, s.loop);
      if s.loop.Idle? then None
      else Some(State(e.v, e.next, AndThen(s.tasks, e.posted), AndThen(s.fibers, e.spawned)))
    case FiberStep(i, a) =>
      if i >= |s.fibers| then None
      else match FiberEffect(s.v, s.fibers[i], a)
           case None => None
           case Some(e) =>
             Some(State(e.v, s.loop, AndThen(s.tasks, e.posted), AndThen(s.fibers[i := e.next], e.spawned)))
  }

  // --------------------------------------------------------------------- runs

  ghost predicate FreshChannel(c: Channel) {
    && c.events == 0 && c.restarts == (if c.inMask then 1 else 0) && c.armed == c.inMask
    && !c.unseen && !c.undrained && !c.rearmed && !c.left
  }

  /** Just attached and enabled. */
  ghost predicate Init(s: State) {
    var v := s.v;
    && FreshChannel(v.r) && FreshChannel(v.w)
    && v.errorEvents == 0 && !v.errorSeen
    && !v.killed && !v.pending && !v.queued && v.enabled && v.loopRef && v.cleanups == 0
    && v.checks && v.writeChecks
    && s.tasks == [] && s.loop == Idle && s.fibers == []
  }

  ghost predicate Step(s: State, t: State) {
    exists l: Label :: Next(s, l) == Some(t)
  }

  ghost predicate Run(trace: seq<State>)
    ensures Run(trace) ==> |trace| > 0
  {
    && |trace| > 0
    && Init(trace[0])
    && forall k | 0 < k < |trace| :: Step(trace[k - 1], trace[k])
  }
}
