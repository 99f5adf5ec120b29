/** Connection accounting of the RPC server: accept handlers, close notifications, the
    idle timer, background jobs and Join() interleave over a counter, a map under a lock
    and a count of jobs. */
module Server {
  import opened Counting

  /** Where one call of OnConnection() is, or one removal of connections by
      OnConnectionClosed() or OnConnectionCleanupTimer() and the job it starts.
      `TimerEntered`: the idle timer has fired, and its fiber has not yet looked at the map. */
  datatype Task =
    | Accepting
    | Rejecting
    | Passed
    | Inserting(id: nat)
    | TimerEntered
    | Removed(ids: set<nat>)
    | Tearing(ids: set<nat>, phase: Phase)
    | Releasing(ids: set<nat>)
    | Finishing
    | Done

  /** The four loops over the connections being torn down: stop the connections, join them,
      stop their handlers, join those. */
  datatype Phase = StopConns | JoinConns | StopHandlers | JoinHandlers

  /** The connections that have been through each of them. */
  datatype Teardown = Teardown(stopped: set<nat>, joined: set<nat>, halted: set<nat>, torn: set<nat>)

  function Mark(t: Teardown, phase: Phase, ids: set<nat>): Teardown {
    match phase
    case StopConns => t.(stopped := t.stopped + ids)
    case JoinConns => t.(joined := t.joined + ids)
    case StopHandlers => t.(halted := t.halted + ids)
    case JoinHandlers => t.(torn := t.torn + ids)
  }

  function Following(phase: Phase): Phase {
    match phase case StopConns => JoinConns case JoinConns => StopHandlers case _ => JoinHandlers
  }

  /** Where Join() is.  It joins a handler and releases its connection in one loop. */
  datatype JoinPc =
    | NotJoining
    | Swapping
    | JoinTearing(ids: set<nat>, phase: Phase)
    | JoinReleasing(ids: set<nat>)
    | WaitConns
    | WaitJobs
    | Joined

  /** `conns` are the IDs in the connection map and `lastId` is the last one given out.
      `checks` stays true as long as no FLARE_CHECK has failed. */
  datatype State = State(
    alive: int,
    jobs: int,
    conns: set<nat>,
    lastId: nat,
    tear: Teardown,
    join: JoinPc,
    tasks: seq<Task>,
    checks: bool)

  /** `Arrive`: the acceptor calls OnConnection().  `TimerFires`: the idle timer starts a
      fiber.  `TimerRemoves`: that fiber takes the idle connections out of the map, and there
      may be none.  `Close`: OnConnectionClosed() takes one out.  `Advance`: a task makes its
      next step.  `JoinStep`: Join() makes its next step.  `JoinRelease`: it releases one of
      its connections, in whatever order the map has them. */
  datatype Action =
    | Arrive
    | TimerFires
    | TimerRemoves(i: nat, ids: set<nat>)
    | Close(id: nat)
    | Advance(i: nat)
    | JoinStep
    | JoinRelease(id: nat)

  predicate Init(s: State) {
    s == State(0, 0, {}, 0, Teardown({}, {}, {}, {}), NotJoining, [], true)
  }

  /** A task that belongs to the acceptor. */
  function AtAcceptor(t: Task): nat {
    if t.Accepting? || t.Rejecting? || t.Passed? || t.Inserting? then 1 else 0
  }

  /** The acceptor's Join() returns when none of its handlers runs, and none does after.
      The timer was killed by Stop(), before Join(), and does not fire any more; what it has
      fired goes on. */
  ghost predicate Enabled(s: State, a: Action) {
    match a
    case Arrive => s.join.NotJoining?
    case TimerFires => s.join.NotJoining?
    case TimerRemoves(i, ids) => i < |s.tasks| && s.tasks[i].TimerEntered? && ids <= s.conns
    case Close(id) => id in s.conns
    case Advance(i) => i < |s.tasks| && !s.tasks[i].TimerEntered?
    case JoinStep =>
      match s.join {
        case NotJoining => Sum(s.tasks, AtAcceptor) == 0
        case JoinReleasing(ids) => ids == {}
        case WaitConns => s.alive == 0
        case WaitJobs => s.jobs == 0
        case _ => true
      }
    case JoinRelease(id) => s.join.JoinReleasing? && id in s.join.ids
  }

  /** One atomic operation or one critical section of a task. */
  function AdvanceTask(s: State, limit: nat, i: nat): State
    requires i < |s.tasks|
  {
    match s.tasks[i]
    case Accepting =>
      s.(alive := s.alive + 1, tasks := s.tasks[i := if s.alive >= limit then Rejecting else Passed])
    case Rejecting => s.(alive := s.alive - 1, tasks := s.tasks[i := Done])
    case Passed => s.(lastId := s.lastId + 1, tasks := s.tasks[i := Inserting(s.lastId + 1)])
    case Inserting(id) => s.(conns := s.conns + {id}, tasks := s.tasks[i := Done])
    case Removed(ids) => s.(jobs := s.jobs + 1, tasks := s.tasks[i := Tearing(ids, StopConns)])
    case Tearing(ids, phase) =>
      s.(tear := Mark(s.tear, phase, ids),
         tasks := s.tasks[i := if phase.JoinHandlers? then Releasing(ids) else Tearing(ids, Following(phase))])
    case Releasing(ids) =>
      s.(alive := s.alive - |ids|, checks := s.checks && s.alive >= |ids|, tasks := s.tasks[i := Finishing])
    case Finishing => s.(jobs := s.jobs - 1, checks := s.checks && s.jobs >= 0, tasks := s.tasks[i := Done])
    case TimerEntered => s
    case Done => s
  }

  /** The critical section of the timer. */
  function RemoveIdle(s: State, i: nat, ids: set<nat>): State
    requires i < |s.tasks|
  {
    s.(conns := s.conns - ids, tasks := s.tasks[i := Removed(ids)])
  }

  function AdvanceJoin(s: State): State {
    match s.join
    case NotJoining => s.(join := Swapping)
    case Swapping => s.(conns := {}, join := JoinTearing(s.conns, StopConns))
    case JoinTearing(ids, phase) =>
      s.(tear := Mark(s.tear, phase, ids),
         join := if phase.StopHandlers? then JoinReleasing(ids) else JoinTearing(ids, Following(phase)))
    case JoinReleasing(_) => s.(join := WaitConns)
    case WaitConns => s.(join := WaitJobs)
    case WaitJobs => s.(join := Joined)
    case Joined => s
  }

  function Next(s: State, limit: nat, a: Action): State
    requires a.Advance? || a.TimerRemoves? ==> a.i < |s.tasks|
    requires a.JoinRelease? ==> s.join.JoinReleasing?
  {
    match a
    case Arrive => s.(tasks := s.tasks + [Accepting])
    case TimerFires => s.(tasks := s.tasks + [TimerEntered])
    case TimerRemoves(i, ids) => RemoveIdle(s, i, ids)
    case Close(id) => s.(conns := s.conns - {id}, tasks := s.tasks + [Removed({id})])
    case Advance(i) => AdvanceTask(s, limit, i)
    case JoinStep => AdvanceJoin(s)
    case JoinRelease(id) => ReleaseOne(s, id)
  }

  function ReleaseOne(s: State, id: nat): State
    requires s.join.JoinReleasing?
  {
    s.(alive := s.alive - 1, checks := s.checks && s.alive > 0, tear := Mark(s.tear, JoinHandlers, {id}),
       join := JoinReleasing(s.join.ids - {id}))
  }

  ghost predicate Step(s: State, limit: nat, t: State) {
    exists a: Action :: Enabled(s, a) && t == Next(s, limit, a)
  }

  ghost predicate Run(trace: seq<State>, limit: nat)
    ensures Run(trace, limit) ==> |trace| > 0
  {
    |trace| > 0 && Init(trace[0]) && forall n: nat | n + 1 < |trace| :: Step(trace[n], limit, trace[n + 1])
  }

  // ------------------------------------------------------------------ invariant

  /** How much of the counter a task accounts for. */
  function Weight(t: Task): nat {
    match t
    case Rejecting => 1
    case Passed => 1
    case Inserting(_) => 1
    case Removed(ids) => |ids|
    case Tearing(ids, _) => |ids|
    case Releasing(ids) => |ids|
    case _ => 0
  }

  function RejectWeight(t: Task): nat { if t.Rejecting? then 1 else 0 }

  function JobWeight(t: Task): nat { if t.Tearing? || t.Releasing? || t.Finishing? then 1 else 0 }

  function JoinWeight(p: JoinPc): nat {
    match p
    case JoinTearing(ids, _) => |ids|
    case JoinReleasing(ids) => |ids|
    case _ => 0
  }

  predicate JoinHas(p: JoinPc, id: nat) {
    (p.JoinTearing? || p.JoinReleasing?) && id in p.ids
  }

  /** Whether a task has connection `id` and has not yet torn it down. */
  function Has(id: nat): Task -> nat {
    (t: Task) => if (t.Inserting? && t.id == id) || ((t.Removed? || t.Tearing?) && id in t.ids) then 1 else 0
  }

  function One(b: bool): nat { if b then 1 else 0 }

  /** In how many hands connection `id` is: on its way into the map, in the map, taken out
      by a close or by the timer, taken out by Join(), or torn down. */
  function Hands(s: State, id: nat): nat {
    Sum(s.tasks, Has(id)) + One(id in s.conns) + One(JoinHas(s.join, id)) + One(id in s.tear.torn)
  }

  predicate Counted(s: State) {
    && s.alive == Sum(s.tasks, Weight) + |s.conns| + JoinWeight(s.join)
    && s.jobs == Sum(s.tasks, JobWeight)
    && s.checks
  }

  predicate Limited(s: State, limit: nat) {
    s.alive <= limit + Sum(s.tasks, RejectWeight)
  }

  ghost predicate InOneHand(s: State) {
    forall id: nat :: Hands(s, id) == One(1 <= id <= s.lastId)
  }

  /** Once Join() has got past a point, nothing goes back behind it. */
  predicate Ordered(s: State) {
    && (!s.join.NotJoining? ==> Sum(s.tasks, AtAcceptor) == 0)
    && (!s.join.NotJoining? && !s.join.Swapping? ==> s.conns == {})
    && (s.join.WaitJobs? || s.join.Joined? ==> s.alive == 0)
    && (s.join.JoinTearing? ==> !s.join.phase.JoinHandlers?)
  }

  /** The connections `ids` have been through everything before `phase`. */
  predicate Reached(t: Teardown, phase: Phase, ids: set<nat>) {
    match phase
    case StopConns => true
    case JoinConns => ids <= t.stopped
    case StopHandlers => ids <= t.joined
    case JoinHandlers => ids <= t.halted
  }

  /** A connection is joined after it was stopped, its handler stopped after that, and
      joined last. */
  predicate Nested(t: Teardown) {
    t.torn <= t.halted <= t.joined <= t.stopped
  }

  predicate TaskReached(t: Teardown, x: Task) {
    x.Tearing? ==> Reached(t, x.phase, x.ids)
  }

  predicate JoinReached(t: Teardown, p: JoinPc) {
    match p
    case JoinTearing(ids, phase) => Reached(t, phase, ids)
    case JoinReleasing(ids) => Reached(t, JoinHandlers, ids)
    case _ => true
  }

  ghost predicate InOrder(s: State) {
    && Nested(s.tear) && JoinReached(s.tear, s.join)
    && forall i: nat | i < |s.tasks| :: TaskReached(s.tear, s.tasks[i])
  }

  ghost predicate Inv(s: State, limit: nat) {
    Counted(s) && Limited(s, limit) && InOneHand(s) && Ordered(s) && InOrder(s)
  }

  // ----------------------------------------------------------------------- tasks

  lemma TaskAlive(s: State, limit: nat, i: nat)
    requires Counted(s) && i < |s.tasks|
    requires s.tasks[i].Inserting? ==> s.tasks[i].id !in s.conns
    ensures var t := AdvanceTask(s, limit, i); t.alive == Sum(t.tasks, Weight) + |t.conns| + JoinWeight(t.join)
  {
    hide Mark, Sum, JobWeight, JoinWeight;
    var t := AdvanceTask(s, limit, i);
    var x := t.tasks[i];
    SumUpdate(s.tasks, i, x, Weight);
    Unchanged(s.tasks, i, x);
    match s.tasks[i]
    case Inserting(id) => assert |s.conns + {id}| == |s.conns| + 1;
    case _ =>
  }

  lemma TaskJobs(s: State, limit: nat, i: nat)
    requires Counted(s) && i < |s.tasks|
    ensures var t := AdvanceTask(s, limit, i); t.jobs == Sum(t.tasks, JobWeight) && t.checks
  {
    hide Mark, Sum, JoinWeight;
    var x := AdvanceTask(s, limit, i).tasks[i];
    SumUpdate(s.tasks, i, x, JobWeight);
    SumAtLeast(s.tasks, i, Weight);
    SumAtLeast(s.tasks, i, JobWeight);
    Unchanged(s.tasks, i, x);
  }

  lemma TaskCounted(s: State, limit: nat, i: nat)
    requires Counted(s) && i < |s.tasks|
    requires s.tasks[i].Inserting? ==> s.tasks[i].id !in s.conns
    ensures Counted(AdvanceTask(s, limit, i))
  {
    TaskAlive(s, limit, i);
    TaskJobs(s, limit, i);
  }

  lemma Unchanged(tasks: seq<Task>, i: nat, x: Task)
    requires i < |tasks|
    ensures x == tasks[i] ==> tasks[i := x] == tasks
  {
  }

  /** A connection is let in only below the limit. */
  lemma TaskLimited(s: State, limit: nat, i: nat)
    requires Limited(s, limit) && i < |s.tasks|
    ensures Limited(AdvanceTask(s, limit, i), limit)
  {
    hide Mark, Sum;
    var x := AdvanceTask(s, limit, i).tasks[i];
    SumUpdate(s.tasks, i, x, RejectWeight);
    Unchanged(s.tasks, i, x);
  }

  lemma TaskHands(s: State, limit: nat, i: nat, id: nat)
    requires i < |s.tasks| && Hands(s, id) == One(1 <= id <= s.lastId)
    ensures var t := AdvanceTask(s, limit, i); Hands(t, id) == One(1 <= id <= t.lastId)
  {
    hide Sum;
    var t := AdvanceTask(s, limit, i);
    var x := t.tasks[i];
    SumUpdate(s.tasks, i, x, Has(id));
    SumAtLeast(s.tasks, i, Has(id));
    match s.tasks[i]
    case Passed => assert Hands(t, id) == One(1 <= id <= t.lastId);
    case Inserting(_) => assert Hands(t, id) == One(1 <= id <= t.lastId);
    case Tearing(_, phase) => assert Hands(t, id) == One(1 <= id <= t.lastId);
    case Done => Unchanged(s.tasks, i, x);
    case _ => assert Has(id)(x) == Has(id)(s.tasks[i]);
  }

  lemma TaskOrdered(s: State, limit: nat, i: nat)
    requires Ordered(s) && Counted(s) && i < |s.tasks|
    ensures Ordered(AdvanceTask(s, limit, i))
  {
    hide Mark, Sum;
    var x := AdvanceTask(s, limit, i).tasks[i];
    SumUpdate(s.tasks, i, x, AtAcceptor);
    SumAtLeast(s.tasks, i, AtAcceptor);
    SumAtLeast(s.tasks, i, Weight);
    Unchanged(s.tasks, i, x);
  }

  /** What has been through a phase stays so. */
  lemma MarkKeeps(t: Teardown, phase: Phase, ids: set<nat>, p: Phase, other: set<nat>)
    requires Reached(t, p, other)
    ensures Reached(Mark(t, phase, ids), p, other)
  {
  }

  lemma MarkNested(t: Teardown, phase: Phase, ids: set<nat>)
    requires Nested(t) && Reached(t, phase, ids)
    ensures Nested(Mark(t, phase, ids)) && Reached(Mark(t, phase, ids), Following(phase), ids)
  {
  }

  /** A mark by one of the tasks or by Join() leaves everybody else where they are. */
  lemma MarkInOrder(s: State, phase: Phase, ids: set<nat>)
    requires InOrder(s) && Reached(s.tear, phase, ids)
    ensures InOrder(s.(tear := Mark(s.tear, phase, ids)))
  {
    hide Mark, Reached, Nested;
    var t := Mark(s.tear, phase, ids);
    MarkNested(s.tear, phase, ids);
    forall i: nat | i < |s.tasks| ensures TaskReached(t, s.tasks[i]) {
      assert TaskReached(s.tear, s.tasks[i]);
      if s.tasks[i].Tearing? {
        MarkKeeps(s.tear, phase, ids, s.tasks[i].phase, s.tasks[i].ids);
      }
    }
    if s.join.JoinTearing? {
      MarkKeeps(s.tear, phase, ids, s.join.phase, s.join.ids);
    } else if s.join.JoinReleasing? {
      MarkKeeps(s.tear, phase, ids, JoinHandlers, s.join.ids);
    }
  }

  lemma TaskInOrder(s: State, limit: nat, i: nat)
    requires InOrder(s) && i < |s.tasks|
    ensures InOrder(AdvanceTask(s, limit, i))
  {
    hide Mark, Reached, Nested;
    assert TaskReached(s.tear, s.tasks[i]);
    if s.tasks[i].Tearing? {
      MarkInOrder(s, s.tasks[i].phase, s.tasks[i].ids);
      MarkNested(s.tear, s.tasks[i].phase, s.tasks[i].ids);
    }
    EveryoneStarts(s.tear, s.tasks[i]);
  }

  lemma EveryoneStarts(t: Teardown, x: Task)
    ensures x.Removed? ==> Reached(t, StopConns, x.ids)
  {
  }

  lemma TaskKeepsInv(s: State, limit: nat, i: nat)
    requires Inv(s, limit) && i < |s.tasks|
    ensures Inv(AdvanceTask(s, limit, i), limit)
  {
    hide Counted, Limited, Ordered, InOrder, AdvanceTask;
    if s.tasks[i].Inserting? {
      NotYetInMap(s, i);
    }
    TaskCounted(s, limit, i);
    TaskLimited(s, limit, i);
    TaskOrdered(s, limit, i);
    TaskInOrder(s, limit, i);
    forall id: nat ensures Hands(AdvanceTask(s, limit, i), id) == One(1 <= id <= AdvanceTask(s, limit, i).lastId) {
      TaskHands(s, limit, i, id);
    }
  }

  lemma NotYetInMap(s: State, i: nat)
    requires InOneHand(s) && i < |s.tasks| && s.tasks[i].Inserting?
    ensures s.tasks[i].id !in s.conns
  {
    var id := s.tasks[i].id;
    SumAtLeast(s.tasks, i, Has(id));
    assert Hands(s, id) == One(1 <= id <= s.lastId);
  }

  // ----------------------------------------------------------- arrival and removal

  /** A new call, by the acceptor or by the timer, accounts for nothing yet. */
  lemma NewTaskKeepsInv(s: State, limit: nat, x: Task)
    requires Inv(s, limit) && s.join.NotJoining? && (x.Accepting? || x.TimerEntered?)
    ensures Inv(s.(tasks := s.tasks + [x]), limit)
  {
    hide Sum;
    var t := s.(tasks := s.tasks + [x]);
    SumAppend(s.tasks, x, Weight);
    SumAppend(s.tasks, x, JobWeight);
    SumAppend(s.tasks, x, RejectWeight);
    forall id: nat ensures Hands(t, id) == One(1 <= id <= t.lastId) {
      SumAppend(s.tasks, x, Has(id));
      assert Hands(s, id) == One(1 <= id <= s.lastId);
    }
  }

  lemma Minus(a: set<nat>, b: set<nat>)
    requires b <= a
    ensures |a - b| == |a| - |b|
  {
    assert a == (a - b) + b;
  }

  lemma CloseKeepsInv(s: State, limit: nat, id: nat)
    requires Inv(s, limit) && id in s.conns
    ensures Inv(Next(s, limit, Close(id)), limit)
  {
    hide Sum;
    var t, x := Next(s, limit, Close(id)), Removed({id});
    Minus(s.conns, {id});
    SumAppend(s.tasks, x, Weight);
    SumAppend(s.tasks, x, JobWeight);
    SumAppend(s.tasks, x, RejectWeight);
    SumAppend(s.tasks, x, AtAcceptor);
    forall other: nat ensures Hands(t, other) == One(1 <= other <= t.lastId) {
      SumAppend(s.tasks, x, Has(other));
      assert Hands(s, other) == One(1 <= other <= s.lastId);
    }
  }

  lemma TimerKeepsInv(s: State, limit: nat, i: nat, ids: set<nat>)
    requires Inv(s, limit) && i < |s.tasks| && s.tasks[i].TimerEntered? && ids <= s.conns
    ensures Inv(RemoveIdle(s, i, ids), limit)
  {
    hide Sum;
    var t, x := RemoveIdle(s, i, ids), Removed(ids);
    Minus(s.conns, ids);
    SumUpdate(s.tasks, i, x, Weight);
    SumUpdate(s.tasks, i, x, JobWeight);
    SumUpdate(s.tasks, i, x, RejectWeight);
    SumUpdate(s.tasks, i, x, AtAcceptor);
    forall id: nat ensures Hands(t, id) == One(1 <= id <= t.lastId) {
      SumUpdate(s.tasks, i, x, Has(id));
      assert Hands(s, id) == One(1 <= id <= s.lastId);
    }
  }

  // ------------------------------------------------------------------------ Join()

  lemma JoinKeepsInv(s: State, limit: nat)
    requires Inv(s, limit) && Enabled(s, JoinStep)
    ensures Inv(AdvanceJoin(s), limit)
  {
    hide Sum;
    var t := AdvanceJoin(s);
    forall id: nat ensures Hands(t, id) == One(1 <= id <= t.lastId) {
      assert Hands(s, id) == One(1 <= id <= s.lastId);
    }
    JoinInOrder(s);
  }

  lemma JoinInOrder(s: State)
    requires InOrder(s) && (s.join.JoinTearing? ==> !s.join.phase.JoinHandlers?)
    ensures InOrder(AdvanceJoin(s))
  {
    hide Mark, Nested;
    if s.join.JoinTearing? {
      MarkInOrder(s, s.join.phase, s.join.ids);
      MarkNested(s.tear, s.join.phase, s.join.ids);
    }
  }

  lemma ReleaseKeepsInv(s: State, limit: nat, id: nat)
    requires Inv(s, limit) && s.join.JoinReleasing? && id in s.join.ids
    ensures Inv(ReleaseOne(s, id), limit)
  {
    var t := ReleaseOne(s, id);
    Minus(s.join.ids, {id});
    forall x: nat ensures Hands(t, x) == One(1 <= x <= t.lastId) {
      assert Hands(s, x) == One(1 <= x <= s.lastId);
    }
    MarkInOrder(s, JoinHandlers, {id});
  }

  lemma StepKeepsInv(s: State, limit: nat, t: State)
    requires Inv(s, limit) && Step(s, limit, t)
    ensures Inv(t, limit)
  {
    hide Inv, AdvanceTask, AdvanceJoin, ReleaseOne, RemoveIdle;
    var a: Action :| Enabled(s, a) && t == Next(s, limit, a);
    match a
    case Arrive => NewTaskKeepsInv(s, limit, Accepting);
    case TimerFires => NewTaskKeepsInv(s, limit, TimerEntered);
    case TimerRemoves(i, ids) => TimerKeepsInv(s, limit, i, ids);
    case Close(id) => CloseKeepsInv(s, limit, id);
    case Advance(i) => TaskKeepsInv(s, limit, i);
    case JoinStep => JoinKeepsInv(s, limit);
    case JoinRelease(id) => ReleaseKeepsInv(s, limit, id);
  }

  lemma {:induction false} RunInv(trace: seq<State>, limit: nat, n: nat)
    requires Run(trace, limit) && n < |trace|
    ensures Inv(trace[n], limit)
  {
    if n > 0 {
      RunInv(trace, limit, n - 1);
      assert Step(trace[n - 1], limit, trace[n - 1 + 1]);
      StepKeepsInv(trace[n - 1], limit, trace[n]);
    }
  }

  // -------------------------------------------------------------------- theorems

  /** The number of connections that have been let in and not yet released. */
  function Admitted(s: State): int { s.alive - Sum(s.tasks, RejectWeight) }

  /** However far the counter overshoots while connections are turned away, not more than
      the limit are let in. */
  lemma NeverOverLimit(trace: seq<State>, limit: nat, n: nat)
    requires Run(trace, limit) && n < |trace|
    ensures |trace[n].conns| <= Admitted(trace[n]) <= limit
  {
    RunInv(trace, limit, n);
    var s := trace[n];
    SumMonotone(s.tasks, RejectWeight, Weight);
  }

  /** The counter is exactly the connections on their way in or being turned away, in the
      map, and being torn down; and the checks of the code never fail. */
  lemma CounterIsExact(trace: seq<State>, limit: nat, n: nat)
    requires Run(trace, limit) && n < |trace|
    ensures var s := trace[n];
            && s.alive == Sum(s.tasks, Weight) + |s.conns| + JoinWeight(s.join)
            && s.jobs == Sum(s.tasks, JobWeight) && s.checks
  {
    RunInv(trace, limit, n);
  }

  /** Only its own steps move a call of OnConnection(). */
  lemma LeavesAccepting(s: State, limit: nat, t: State, i: nat)
    requires Step(s, limit, t) && i < |s.tasks| && s.tasks[i].Accepting?
    requires i < |t.tasks| && !t.tasks[i].Accepting?
    ensures t == AdvanceTask(s, limit, i)
  {
    hide AdvanceTask, AdvanceJoin, ReleaseOne;
    var a: Action :| Enabled(s, a) && t == Next(s, limit, a);
    match a
    case Advance(j) => OthersStay(s, limit, j, i);
    case JoinStep => JoinAlone(s);
    case JoinRelease(id) => ReleaseAlone(s, id);
    case _ =>
  }

  lemma OthersStay(s: State, limit: nat, j: nat, i: nat)
    requires j < |s.tasks| && i < |s.tasks|
    ensures j != i ==> AdvanceTask(s, limit, j).tasks[i] == s.tasks[i]
  {
    hide Mark;
  }

  /** A connection is let in if and only if those being admitted or turned away, in the map,
      and being torn down are fewer than the limit; otherwise it is turned away. */
  lemma AdmittedExactly(trace: seq<State>, limit: nat, n: nat, i: nat)
    requires Run(trace, limit) && n + 1 < |trace| && i < |trace[n].tasks| && trace[n].tasks[i].Accepting?
    requires i < |trace[n + 1].tasks| && !trace[n + 1].tasks[i].Accepting?
    ensures var s, t := trace[n], trace[n + 1];
            var present := Sum(s.tasks, Weight) + |s.conns| + JoinWeight(s.join);
            && (t.tasks[i] == Passed <==> present < limit)
            && (t.tasks[i] == Rejecting <==> present >= limit)
  {
    hide Sum, Weight, JoinWeight, Step, Mark;
    CounterIsExact(trace, limit, n);
    assert Step(trace[n], limit, trace[n + 1]);
    LeavesAccepting(trace[n], limit, trace[n + 1], i);
  }

  /** Every connection let in is in exactly one place, so that exactly one of a close, the
      timer and Join() tears it down. */
  lemma TornDownOnce(trace: seq<State>, limit: nat, n: nat, id: nat)
    requires Run(trace, limit) && n < |trace|
    ensures Hands(trace[n], id) == One(1 <= id <= trace[n].lastId)
    ensures forall i: nat, j: nat | i < j < |trace[n].tasks| ::
              Has(id)(trace[n].tasks[i]) == 0 || Has(id)(trace[n].tasks[j]) == 0
  {
    RunInv(trace, limit, n);
    var s := trace[n];
    assert Hands(s, id) == One(1 <= id <= s.lastId);
    forall i: nat, j: nat | i < j < |s.tasks| ensures Has(id)(s.tasks[i]) == 0 || Has(id)(s.tasks[j]) == 0 {
      SumAtLeastTwo(s.tasks, i, j, Has(id));
    }
  }

  /** Whoever tears a connection down, it is stopped, joined, its handler stopped and the
      handler joined, in this order. */
  lemma TornDownInOrder(trace: seq<State>, limit: nat, n: nat)
    requires Run(trace, limit) && n < |trace|
    ensures var t := trace[n].tear; t.torn <= t.halted <= t.joined <= t.stopped
  {
    RunInv(trace, limit, n);
  }

  /** When Join() has passed its wait for connections, every connection ever let in has
      been stopped and joined. */
  lemma JoinWaitsForAll(trace: seq<State>, limit: nat, n: nat, id: nat)
    requires Run(trace, limit) && n < |trace| && 1 <= id <= trace[n].lastId
    requires trace[n].join.WaitJobs? || trace[n].join.Joined?
    ensures var t := trace[n].tear; id in t.stopped && id in t.joined && id in t.halted && id in t.torn
  {
    RunInv(trace, limit, n);
    var s := trace[n];
    assert Hands(s, id) == 1;
    if Sum(s.tasks, Has(id)) > 0 {
      var i := SumWitness(s.tasks, Has(id));
      SumAtLeast(s.tasks, i, Weight);
      SumAtLeast(s.tasks, i, AtAcceptor);
      NotEmpty(s.tasks[i], id);
    }
  }

  lemma NotEmpty(t: Task, id: nat)
    requires Has(id)(t) > 0
    ensures Weight(t) > 0
  {
    if t.Removed? || t.Tearing? {
      assert t.ids != {};
    }
  }

  // ------------------------------------------------------- what can outlive Join()

  /** A call of the timer that is counted nowhere: it has not yet looked at the map, or has
      found nothing there and not yet counted its job. */
  predicate InFlight(t: Task) {
    t.TimerEntered? || t == Removed({})
  }

  predicate AllDone(tasks: seq<Task>) {
    forall i: nat | i < |tasks| :: tasks[i].Done?
  }

  predicate NoneInFlight(tasks: seq<Task>) {
    forall i: nat | i < |tasks| :: !InFlight(tasks[i])
  }

  /** With both counters at zero and the acceptor stopped, whatever is not over is such a
      call. */
  lemma OnlyInFlight(s: State, limit: nat, i: nat)
    requires Inv(s, limit) && s.alive == 0 && s.jobs == 0 && !s.join.NotJoining? && i < |s.tasks|
    ensures s.tasks[i].Done? || InFlight(s.tasks[i])
  {
    hide Sum;
    SumAtLeast(s.tasks, i, Weight);
    SumAtLeast(s.tasks, i, JobWeight);
    SumAtLeast(s.tasks, i, AtAcceptor);
  }

  /** So it is when Join() passes its wait for jobs. */
  lemma OnlyTimersOutliveJoin(trace: seq<State>, limit: nat, n: nat, i: nat)
    requires Run(trace, limit) && n + 1 < |trace| && i < |trace[n].tasks|
    requires trace[n].join.WaitJobs? && trace[n + 1].join.Joined?
    ensures trace[n].tasks[i].Done? || trace[n].tasks[i].TimerEntered? || trace[n].tasks[i] == Removed({})
  {
    hide Sum;
    RunInv(trace, limit, n);
    var s := trace[n];
    assert Step(s, limit, trace[n + 1]);
    assert Enabled(s, JoinStep);
    OnlyInFlight(s, limit, i);
  }

  /** With Join() through and all tasks over, nothing starts again. */
  lemma DoneStep(s: State, limit: nat, t: State)
    requires Inv(s, limit) && Step(s, limit, t)
    requires s.join.WaitJobs? || s.join.Joined?
    requires AllDone(s.tasks)
    ensures AllDone(t.tasks) && (t.join.WaitJobs? || t.join.Joined?)
  {
  }

  lemma {:induction false} DoneForGood(trace: seq<State>, limit: nat, n: nat, m: nat)
    requires Run(trace, limit) && n <= m < |trace|
    requires (trace[n].join.WaitJobs? || trace[n].join.Joined?) && AllDone(trace[n].tasks)
    ensures AllDone(trace[m].tasks) && (trace[m].join.WaitJobs? || trace[m].join.Joined?)
  {
    hide Inv, AllDone, Step;
    if n < m {
      DoneForGood(trace, limit, n, m - 1);
      RunInv(trace, limit, m - 1);
      assert Step(trace[m - 1], limit, trace[m - 1 + 1]);
      DoneStep(trace[m - 1], limit, trace[m]);
    }
  }

  /** All tasks are over when Join() passes its last wait, and stay so, if and only if no call
      of the timer is in flight then. */
  lemma JoinOutlivesAllExactly(trace: seq<State>, limit: nat, n: nat)
    requires Run(trace, limit) && n + 1 < |trace|
    requires trace[n].join.WaitJobs? && trace[n + 1].join.Joined?
    ensures (forall m: nat | n <= m < |trace| :: AllDone(trace[m].tasks))
            <==> forall i: nat | i < |trace[n].tasks| ::
                   !trace[n].tasks[i].TimerEntered? && trace[n].tasks[i] != Removed({})
  {
    hide Run;
    forall i: nat | i < |trace[n].tasks| ensures trace[n].tasks[i].Done? || InFlight(trace[n].tasks[i]) {
      OnlyTimersOutliveJoin(trace, limit, n, i);
    }
    if NoneInFlight(trace[n].tasks) {
      forall m: nat | n <= m < |trace| ensures AllDone(trace[m].tasks) {
        DoneForGood(trace, limit, n, m);
      }
    }
  }

  /** A task that makes a step of its own is not in flight after it. */
  lemma NotInFlightAfter(s: State, limit: nat, i: nat)
    requires i < |s.tasks| && !s.tasks[i].TimerEntered?
    ensures var t := AdvanceTask(s, limit, i);
            t.join == s.join && t.tasks == s.tasks[i := t.tasks[i]] && !InFlight(t.tasks[i])
  {
    hide Mark;
    match s.tasks[i]
    case Done => Unchanged(s.tasks, i, Done);
    case _ =>
  }

  /** Once Join() has begun, no new call of the timer is in flight. */
  lemma NoneInFlightStep(s: State, limit: nat, t: State)
    requires Step(s, limit, t) && !s.join.NotJoining? && NoneInFlight(s.tasks)
    ensures !t.join.NotJoining? && NoneInFlight(t.tasks)
  {
    hide AdvanceTask, AdvanceJoin, ReleaseOne, RemoveIdle;
    var a: Action :| Enabled(s, a) && t == Next(s, limit, a);
    match a
    case Close(id) => assert Removed({id}) != Removed({});
    case Advance(i) => NotInFlightAfter(s, limit, i);
    case JoinStep => JoinAlone(s);
    case JoinRelease(id) => ReleaseAlone(s, id);
    case _ =>
  }

  lemma JoinAlone(s: State)
    ensures AdvanceJoin(s).tasks == s.tasks && !AdvanceJoin(s).join.NotJoining?
  {
    hide Mark;
    match s.join
    case JoinTearing(_, _) =>
    case _ =>
  }

  lemma ReleaseAlone(s: State, id: nat)
    requires s.join.JoinReleasing?
    ensures ReleaseOne(s, id).tasks == s.tasks && ReleaseOne(s, id).join.JoinReleasing?
  {
    hide Mark;
  }

  lemma LeavesAcceptor(s: State, limit: nat, t: State)
    requires Step(s, limit, t) && s.join.NotJoining? && !t.join.NotJoining?
    ensures t == AdvanceJoin(s)
  {
    hide Mark;
  }

  lemma LastWait(s: State, limit: nat, t: State)
    requires Inv(s, limit) && Step(s, limit, t) && t.join.Joined?
    requires NoneInFlight(s.tasks) && (s.join.Joined? ==> AllDone(s.tasks))
    ensures AllDone(t.tasks)
  {
    hide Inv, Sum, Mark;
    if s.join.Joined? {
      DoneStep(s, limit, t);
    } else {
      assert Enabled(s, JoinStep) && t == AdvanceJoin(s);
      PastConns(s, limit);
      forall i: nat | i < |s.tasks| ensures s.tasks[i].Done? {
        OnlyInFlight(s, limit, i);
      }
    }
  }

  lemma PastConns(s: State, limit: nat)
    requires Inv(s, limit) && s.join.WaitJobs?
    ensures s.alive == 0
  {
  }

  /** The caller's side: if no call of the timer is in flight when Join() leaves its wait for
      the acceptor, then everything is over once it is through. */
  lemma {:induction false} NoTimerNoLeftover(trace: seq<State>, limit: nat, k: nat, n: nat)
    requires Run(trace, limit) && k < n < |trace|
    requires trace[k].join.NotJoining? && !trace[k + 1].join.NotJoining? && NoneInFlight(trace[k].tasks)
    ensures !trace[n].join.NotJoining? && NoneInFlight(trace[n].tasks)
    ensures trace[n].join.Joined? ==> AllDone(trace[n].tasks)
    decreases n
  {
    hide Inv, AllDone, NoneInFlight, AdvanceTask;
    assert Step(trace[n - 1], limit, trace[n - 1 + 1]);
    if n == k + 1 {
      LeavesAcceptor(trace[k], limit, trace[n]);
    } else {
      NoTimerNoLeftover(trace, limit, k, n - 1);
      NoneInFlightStep(trace[n - 1], limit, trace[n]);
      RunInv(trace, limit, n - 1);
      if trace[n].join.Joined? {
        LastWait(trace[n - 1], limit, trace[n]);
      }
    }
  }

  // -------------------------------------------------------- Join() can get through

  lemma Extend(trace: seq<State>, limit: nat, a: Action) returns (longer: seq<State>)
    requires Run(trace, limit) && Enabled(trace[|trace| - 1], a)
    ensures Run(longer, limit) && trace < longer
    ensures longer[|longer| - 1] == Next(trace[|trace| - 1], limit, a) && |longer| == |trace| + 1
  {
    hide Next;
    var s := trace[|trace| - 1];
    longer := trace + [Next(s, limit, a)];
    forall n: nat | n + 1 < |longer| ensures Step(longer[n], limit, longer[n + 1]) {
      if n + 1 < |trace| {
        assert Step(trace[n], limit, trace[n + 1]);
      } else {
        assert Enabled(longer[n], a) && longer[n + 1] == Next(longer[n], limit, a);
      }
    }
  }

  function Last(trace: seq<State>): State
    requires |trace| > 0
  {
    trace[|trace| - 1]
  }

  /** How many steps a task has before it. */
  function TaskRank(t: Task): nat {
    match t
    case Accepting => 3
    case Rejecting => 1
    case Passed => 2
    case Inserting(_) => 1
    case TimerEntered => 8
    case Removed(_) => 7
    case Tearing(_, phase) => 2 + PhaseRank(phase)
    case Releasing(_) => 2
    case Finishing => 1
    case Done => 0
  }

  function PhaseRank(phase: Phase): nat {
    match phase case StopConns => 4 case JoinConns => 3 case StopHandlers => 2 case JoinHandlers => 1
  }

  /** The next step of task `i`; a timer removes nothing. */
  function Move(s: State, i: nat): Action
    requires i < |s.tasks|
  {
    if s.tasks[i].TimerEntered? then TimerRemoves(i, {}) else Advance(i)
  }

  lemma MoveOnlyOne(s: State, limit: nat, i: nat)
    requires i < |s.tasks| && !s.tasks[i].Done?
    ensures Enabled(s, Move(s, i))
    ensures var t := Next(s, limit, Move(s, i));
            && t.join == s.join && |t.tasks| == |s.tasks| && t.tasks == s.tasks[i := t.tasks[i]]
            && TaskRank(t.tasks[i]) < TaskRank(s.tasks[i])
  {
    hide Mark;
  }

  /** Any one task can be run to its end alone. */
  lemma {:induction false} FinishTask(trace: seq<State>, limit: nat, i: nat) returns (longer: seq<State>)
    requires Run(trace, limit) && i < |Last(trace).tasks|
    ensures Run(longer, limit) && trace <= longer && Last(longer).join == Last(trace).join
    ensures Last(longer).tasks == Last(trace).tasks[i := Done]
    decreases TaskRank(Last(trace).tasks[i])
  {
    hide Run, TaskRank, Next, Move, Enabled;
    var s := Last(trace);
    longer := trace;
    if !s.tasks[i].Done? {
      MoveOnlyOne(s, limit, i);
      longer := Extend(trace, limit, Move(s, i));
      longer := FinishTask(longer, limit, i);
    }
  }

  /** All tasks but one can be run to their ends. */
  lemma {:induction false} FinishTasks(trace: seq<State>, limit: nat, spared: nat, n: nat) returns (longer: seq<State>)
    requires Run(trace, limit) && n <= |Last(trace).tasks|
    ensures Run(longer, limit) && trace <= longer && Last(longer).join == Last(trace).join
    ensures var s, t := Last(trace).tasks, Last(longer).tasks;
            && |t| == |s|
            && forall i: nat | i < |s| :: t[i] == if i < n && i != spared then Done else s[i]
  {
    hide Run;
    longer := trace;
    if n > 0 {
      longer := FinishTasks(trace, limit, spared, n - 1);
      if n - 1 != spared {
        longer := FinishTask(longer, limit, n - 1);
      }
    }
  }

  /** Join() does not wait for something that will not come: with nothing left but calls of
      the timer that are in flight, it can take its next step. */
  lemma JoinIsNotStuck(trace: seq<State>, limit: nat, n: nat) returns (a: Action)
    requires Run(trace, limit) && n < |trace|
    requires forall i: nat | i < |trace[n].tasks| :: trace[n].tasks[i].Done? || InFlight(trace[n].tasks[i])
    ensures Enabled(trace[n], a) && (a.JoinStep? || a.JoinRelease?)
  {
    hide Run, Sum;
    RunInv(trace, limit, n);
    var s := trace[n];
    SumZero(s.tasks, Weight);
    SumZero(s.tasks, JobWeight);
    SumZero(s.tasks, AtAcceptor);
    a := JoinStep;
    if s.join.JoinReleasing? && s.join.ids != {} {
      var id: nat :| id in s.join.ids;
      a := JoinRelease(id);
    }
  }

  function JoinRank(p: JoinPc): nat {
    match p
    case NotJoining => 9
    case Swapping => 8
    case JoinTearing(_, phase) => 3 + PhaseRank(phase)
    case JoinReleasing(_) => 3
    case WaitConns => 2
    case WaitJobs => 1
    case Joined => 0
  }

  lemma StepDescends(s: State)
    requires !s.join.Joined? && (s.join.JoinTearing? ==> !s.join.phase.JoinHandlers?)
    ensures JoinRank(AdvanceJoin(s).join) < JoinRank(s.join)
  {
    hide Mark;
    match s.join
    case JoinTearing(_, phase) => match phase { case StopConns => case JoinConns => case StopHandlers => }
    case _ =>
  }

  lemma ReleaseDescends(s: State, id: nat)
    requires s.join.JoinReleasing? && id in s.join.ids
    ensures var t := ReleaseOne(s, id);
            JoinRank(t.join) == JoinRank(s.join) && JoinWeight(t.join) < JoinWeight(s.join)
  {
    hide Mark;
    Minus(s.join.ids, {id});
  }

  lemma JoinMoves(s: State, limit: nat, a: Action)
    requires Ordered(s) && Enabled(s, a) && (a.JoinStep? || a.JoinRelease?) && !s.join.Joined?
    ensures var t := Next(s, limit, a);
            && t.tasks == s.tasks
            && (JoinRank(t.join) < JoinRank(s.join)
                || (JoinRank(t.join) == JoinRank(s.join) && JoinWeight(t.join) < JoinWeight(s.join)))
  {
    hide JoinRank, JoinWeight, AdvanceJoin, ReleaseOne, Sum;
    match a
    case JoinStep =>
      JoinAlone(s);
      StepDescends(s);
    case JoinRelease(id) =>
      ReleaseAlone(s, id);
      ReleaseDescends(s, id);
  }

  lemma {:induction false} FinishJoin(trace: seq<State>, limit: nat) returns (longer: seq<State>)
    requires Run(trace, limit)
    requires var tasks := Last(trace).tasks; forall i: nat | i < |tasks| :: tasks[i].Done? || InFlight(tasks[i])
    ensures Run(longer, limit) && trace <= longer && Last(longer).tasks == Last(trace).tasks
    ensures Last(longer).join.Joined?
    decreases JoinRank(Last(trace).join), JoinWeight(Last(trace).join)
  {
    hide Run, JoinRank, JoinWeight, Next, Ordered, InFlight;
    var s := Last(trace);
    longer := trace;
    if !s.join.Joined? {
      var a := JoinIsNotStuck(trace, limit, |trace| - 1);
      RunInv(trace, limit, |trace| - 1);
      JoinMoves(s, limit, a);
      longer := Extend(trace, limit, a);
      longer := FinishJoin(longer, limit);
    }
  }

  /** From every state of every run Join() can get through, with all tasks over but one call
      of the timer, if one is in flight, that has not moved at all. */
  lemma JoinCanFinish(trace: seq<State>, limit: nat, spared: nat) returns (longer: seq<State>)
    requires Run(trace, limit)
    requires var tasks := Last(trace).tasks; spared < |tasks| ==> InFlight(tasks[spared])
    ensures Run(longer, limit) && trace <= longer && Last(longer).join.Joined?
    ensures var s, t := Last(trace).tasks, Last(longer).tasks;
            && |t| == |s|
            && forall i: nat | i < |s| :: t[i] == if i == spared then s[i] else Done
  {
    hide Run, InFlight;
    longer := FinishTasks(trace, limit, spared, |Last(trace).tasks|);
    longer := FinishJoin(longer, limit);
  }

  /** However the run goes on after Join() has left its wait for the acceptor, nothing is left
      running once it is through. */
  ghost predicate OutlivesAll(trace: seq<State>, limit: nat)
    requires |trace| > 0
  {
    forall longer: seq<State>, n: nat |
      Run(longer, limit) && trace < longer && longer[|trace|] == AdvanceJoin(Last(trace))
      && |trace| <= n < |longer| && longer[n].join.Joined? :: AllDone(longer[n].tasks)
  }

  /** A caller of Join() can rely on that if and only if no call of the timer is in flight
      when the acceptor has been joined. */
  lemma JoinIsSafeExactly(trace: seq<State>, limit: nat)
    requires Run(trace, limit) && Last(trace).join.NotJoining? && Enabled(Last(trace), JoinStep)
    ensures OutlivesAll(trace, limit) <==> NoneInFlight(Last(trace).tasks)
  {
    hide Run, InFlight;
    var k := |trace| - 1;
    if NoneInFlight(Last(trace).tasks) {
      forall longer: seq<State>, n: nat |
        Run(longer, limit) && trace < longer && longer[|trace|] == AdvanceJoin(Last(trace))
        && |trace| <= n < |longer| && longer[n].join.Joined?
        ensures AllDone(longer[n].tasks)
      {
        NoTimerNoLeftover(longer, limit, k, n);
      }
    } else {
      var i: nat :| i < |Last(trace).tasks| && InFlight(Last(trace).tasks[i]);
      var begun := Extend(trace, limit, JoinStep);
      var longer := JoinCanFinish(begun, limit, i);
      NotDone(Last(trace).tasks[i]);
      assert !AllDone(longer[|longer| - 1].tasks);
    }
  }

  lemma NotDone(t: Task)
    requires InFlight(t)
    ensures !t.Done?
  {
  }

  /** One more connection, when the server is otherwise at rest and below its limit. */
  lemma Serve(trace: seq<State>, limit: nat) returns (longer: seq<State>)
    requires Run(trace, limit) && Last(trace).join.NotJoining? && Last(trace).alive < limit
    ensures Run(longer, limit)
    ensures var s, t := Last(trace), Last(longer);
            && t.join == s.join && t.alive == s.alive + 1 && t.lastId == s.lastId + 1
            && t.conns == s.conns + {s.lastId + 1}
  {
    hide Run;
    var i := |Last(trace).tasks|;
    longer := Extend(trace, limit, Arrive);
    longer := Extend(longer, limit, Advance(i));
    assert Last(longer).tasks[i] == Passed;
    longer := Extend(longer, limit, Advance(i));
    longer := Extend(longer, limit, Advance(i));
  }

  /** The limit can be reached: for every number of connections up to it there is a run that
      ends with so many in the map. */
  lemma {:induction false} LimitIsReached(limit: nat, n: nat) returns (trace: seq<State>)
    requires n <= limit
    ensures Run(trace, limit) && |Last(trace).conns| == n
    ensures Last(trace).join.NotJoining? && Last(trace).alive == n && Last(trace).lastId == n
    ensures forall id: nat :: id in Last(trace).conns <==> 1 <= id <= n
  {
    hide Run;
    if n == 0 {
      trace := StartRun(limit);
    } else {
      var shorter := LimitIsReached(limit, n - 1);
      trace := Serve(shorter, limit);
      assert n !in Last(shorter).conns;
    }
  }

  /** Either kind of call can be left over, for every limit. */
  lemma TimerCanOutliveJoin(limit: nat, entered: bool) returns (trace: seq<State>)
    ensures Run(trace, limit)
    ensures var s := trace[|trace| - 1];
            s.join.Joined? && s.tasks == [if entered then TimerEntered else Removed({})]
  {
    hide Run;
    var start := StartRun(limit);
    trace := Extend(start, limit, TimerFires);
    assert Last(trace).tasks == [TimerEntered];
    if !entered {
      trace := Extend(trace, limit, TimerRemoves(0, {}));
    }
    trace := JoinCanFinish(trace, limit, 0);
  }

  lemma StartRun(limit: nat) returns (trace: seq<State>)
    ensures Run(trace, limit) && Init(trace[|trace| - 1])
  {
    trace := [State(0, 0, {}, 0, Teardown({}, {}, {}, {}), NotJoining, [], true)];
  }
}
