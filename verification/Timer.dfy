/** The callback of a periodic timer: any number of fibers call Run() on it. */
module Timer {
  import opened Counting

  /** Where a call of Run() is. */
  datatype Pc = Enter | Calling | Decrement | Returned

  /** `invoked` counts the calls of the user's callback that have begun. */
  datatype State = State(remaining: int, invoked: nat, calls: seq<Pc>)

  predicate Init(s: State) {
    s.remaining == 0 && s.invoked == 0 && forall i | 0 <= i < |s.calls| :: s.calls[i] == Enter
  }

  /** One atomic operation, or the return of the user's callback. */
  function Next(s: State, i: nat): State
    requires i < |s.calls|
  {
    match s.calls[i]
    case Enter =>
      if s.remaining == 0 then State(s.remaining + 1, s.invoked + 1, s.calls[i := Calling])
      else State(s.remaining + 1, s.invoked, s.calls[i := Returned])
    case Calling => s.(calls := s.calls[i := Decrement])
    case Decrement =>
      if s.remaining != 1 then State(s.remaining - 1, s.invoked + 1, s.calls[i := Calling])
      else State(s.remaining - 1, s.invoked, s.calls[i := Returned])
    case Returned => s
  }

  predicate Step(s: State, t: State) {
    exists i: nat :: i < |s.calls| && t == Next(s, i)
  }

  predicate Run(trace: seq<State>) {
    |trace| > 0 && Init(trace[0]) && forall n: nat | n + 1 < |trace| :: Step(trace[n], trace[n + 1])
  }

  function Owns(pc: Pc): nat { if pc.Calling? || pc.Decrement? then 1 else 0 }

  function Entered(pc: Pc): nat { if pc.Enter? then 0 else 1 }

  /** One call does the work of all that are unanswered. */
  predicate Inv(s: State) {
    && s.remaining >= 0
    && Sum(s.calls, Owns) == (if s.remaining > 0 then 1 else 0)
    && s.invoked + s.remaining == Sum(s.calls, Entered) + Sum(s.calls, Owns)
  }

  lemma StepKeepsInv(s: State, i: nat)
    requires Inv(s) && i < |s.calls|
    ensures Inv(Next(s, i))
  {
    var pc := Next(s, i).calls[i];
    SumUpdate(s.calls, i, pc, Owns);
    SumUpdate(s.calls, i, pc, Entered);
    SumAtLeast(s.calls, i, Owns);
    assert s.calls[i].Returned? ==> s.calls[i := pc] == s.calls;
  }

  lemma {:induction false} RunInv(trace: seq<State>, n: nat)
    requires Run(trace) && n < |trace|
    ensures Inv(trace[n]) && |trace[n].calls| == |trace[0].calls|
  {
    if n == 0 {
      SumZero(trace[0].calls, Owns);
      SumZero(trace[0].calls, Entered);
    } else {
      RunInv(trace, n - 1);
      assert Step(trace[n - 1], trace[n - 1 + 1]);
      var i: nat :| i < |trace[n - 1].calls| && trace[n] == Next(trace[n - 1], i);
      StepKeepsInv(trace[n - 1], i);
    }
  }

  /** Some call enters the user's callback in this step. */
  predicate Begins(s: State, t: State) {
    exists i: nat :: i < |s.calls| && i < |t.calls| && s.calls[i] != t.calls[i] == Calling
  }

  function Begun(trace: seq<State>, n: nat): nat
    requires n < |trace|
  {
    if n == 0 then 0 else Begun(trace, n - 1) + if Begins(trace[n - 1], trace[n]) then 1 else 0
  }

  lemma StepBegins(s: State, i: nat)
    requires i < |s.calls|
    ensures Next(s, i).invoked == s.invoked + if Begins(s, Next(s, i)) then 1 else 0
  {
    var t := Next(s, i);
    if s.calls[i] != t.calls[i] == Calling {
      assert Begins(s, t);
    }
  }

  /** The number of invocations is how often the callback has been entered. */
  lemma {:induction false} InvokedIsEntered(trace: seq<State>, n: nat)
    requires Run(trace) && n < |trace|
    ensures trace[n].invoked == Begun(trace, n)
  {
    hide Next, Begins;
    if n > 0 {
      InvokedIsEntered(trace, n - 1);
      assert Step(trace[n - 1], trace[n - 1 + 1]);
      var i: nat :| i < |trace[n - 1].calls| && trace[n] == Next(trace[n - 1], i);
      StepBegins(trace[n - 1], i);
    }
  }

  /** The user's callback is never entered while it runs. */
  lemma NoOverlap(trace: seq<State>, n: nat, i: nat, j: nat)
    requires Run(trace) && n < |trace| && i < |trace[n].calls| && j < |trace[n].calls|
    requires trace[n].calls[i].Calling? && trace[n].calls[j].Calling?
    ensures i == j
  {
    RunInv(trace, n);
    if i != j {
      SumAtLeastTwo(trace[n].calls, i, j, Owns);
    }
  }

  /** At any time the callback has been invoked once for every call that has entered,
      except for those the one call in progress still owes. */
  lemma Accounted(trace: seq<State>, n: nat)
    requires Run(trace) && n < |trace|
    ensures var s := trace[n];
            s.invoked + (if s.remaining > 0 then s.remaining - 1 else 0) == Sum(s.calls, Entered)
    ensures trace[n].remaining > 0 ==> exists i: nat :: i < |trace[n].calls| && Owns(trace[n].calls[i]) == 1
  {
    RunInv(trace, n);
    if trace[n].remaining > 0 {
      var i := SumWitness(trace[n].calls, Owns);
    }
  }

  /** Once all calls have returned, as many invocations have been made as calls. */
  lemma ExactlyAsManyInvocations(trace: seq<State>, n: nat)
    requires Run(trace) && n < |trace|
    requires forall i | 0 <= i < |trace[n].calls| :: trace[n].calls[i].Returned?
    ensures trace[n].invoked == |trace[0].calls| && trace[n].remaining == 0
  {
    RunInv(trace, n);
    SumZero(trace[n].calls, Owns);
    SumOnes(trace[n].calls);
  }

  lemma {:induction false} SumOnes(calls: seq<Pc>)
    requires forall i | 0 <= i < |calls| :: calls[i].Returned?
    ensures Sum(calls, Entered) == |calls|
  {
    if calls != [] {
      SumOnes(calls[1..]);
    }
  }
}
