/** The batched ID allocator: threads take batches from a global counter with a
    compare-and-swap loop and issue the IDs of their batch on their own. */
module IdAlloc {
  import opened Arithmetic

  /** `Valid` is what the static assertions demand. */
  datatype Traits = Traits(kMin: int, kMax: int, kBatchSize: int) {
    predicate Valid() { kMin < kMax && kBatchSize > 1 && kMin + kBatchSize < kMax }

    predicate BatchDivides()
      requires Valid()
    {
      (kMax - kMin) % kBatchSize == 0
    }
  }

  datatype Pc = Ready | Trying(read: int, next: int)

  /** A thread's `current` and `max` and its place in SlowNext(); `batch` says which of
      the batches taken it last got. */
  datatype Local = Local(current: int, max: int, pc: Pc, batch: nat)

  /** The IDs `first..limit`, taken when the counter had gone back to `kMin` `gen` times. */
  datatype Batch = Batch(gen: nat, first: int, limit: int)

  datatype Issued = Issued(gen: nat, id: int, batch: nat)

  /** `gen`, `batches` and `issued` are a record of the run: how often the counter went
      back, the batches taken and the IDs issued, in order.  `checks` stays true as long
      as no FLARE_CHECK has failed. */
  datatype State = State(
    global: int,
    threads: seq<Local>,
    checks: bool,
    gen: nat,
    batches: seq<Batch>,
    issued: seq<Issued>)

  /** A compare-and-swap may fail although the value matches. */
  datatype Action = Issue | Load | CasSucceeds | CasFails

  predicate Init(k: Traits, s: State) {
    && s.global == k.kMin && s.checks && s.gen == 0 && s.batches == [] && s.issued == []
    && forall i | 0 <= i < |s.threads| :: s.threads[i] == Local(0, 0, Ready, 0)
  }

  /** The body of the loop, with what was read from the counter. */
  function Prepare(k: Traits, read: int, batch: nat): Local {
    if read > k.kMax - k.kBatchSize then Local(read, k.kMax, Trying(read, k.kMin), batch)
    else Local(read, read + k.kBatchSize, Trying(read, read + k.kBatchSize), batch)
  }

  predicate InRange(k: Traits, x: int) { k.kMin <= x <= k.kMax }

  predicate Enabled(s: State, i: nat, a: Action) {
    && i < |s.threads|
    && match a
       case Issue => s.threads[i].pc.Ready? && s.threads[i].current < s.threads[i].max
       case Load => s.threads[i].pc.Ready? && s.threads[i].current >= s.threads[i].max
       case CasSucceeds => s.threads[i].pc.Trying? && s.global == s.threads[i].pc.read
       case CasFails => s.threads[i].pc.Trying?
  }

  function GenOf(s: State, batch: nat): nat {
    if batch < |s.batches| then s.batches[batch].gen else 0
  }

  function Next(k: Traits, s: State, i: nat, a: Action): State
    requires Enabled(s, i, a)
  {
    var t := s.threads[i];
    match a
    case Issue =>
      s.(threads := s.threads[i := t.(current := t.current + 1)],
         issued := s.issued + [Issued(GenOf(s, t.batch), t.current, t.batch)])
    case CasSucceeds =>
      s.(global := t.pc.next,
         threads := s.threads[i := t.(pc := Ready, batch := |s.batches|)],
         checks := s.checks && InRange(k, t.max) && t.current < t.max && InRange(k, t.current),
         gen := if t.pc.next == k.kMin then s.gen + 1 else s.gen,
         batches := s.batches + [Batch(s.gen, t.current, t.max)])
    case _ =>
      s.(threads := s.threads[i := Prepare(k, s.global, t.batch)], checks := s.checks && InRange(k, s.global))
  }

  ghost predicate Step(k: Traits, s: State, t: State) {
    exists i: nat, a: Action :: Enabled(s, i, a) && t == Next(k, s, i, a)
  }

  ghost predicate Run(k: Traits, trace: seq<State>)
    ensures Run(k, trace) ==> |trace| > 0
  {
    |trace| > 0 && Init(k, trace[0]) && forall n: nat | n + 1 < |trace| :: Step(k, trace[n], trace[n + 1])
  }

  // ------------------------------------------------------------------ invariant

  /** A place the counter can be at: a multiple of the batch size away from `kMin`. */
  predicate Aligned(k: Traits, x: int)
    requires k.Valid()
  {
    k.kMin <= x < k.kMax && (x - k.kMin) % k.kBatchSize == 0
  }

  /** Generation and counter before batch `j`: where the batch before it ended. */
  function Cursor(k: Traits, batches: seq<Batch>, j: nat): (nat, int)
    requires j <= |batches|
  {
    if j == 0 then (0, k.kMin)
    else if batches[j - 1].limit == k.kMax then (batches[j - 1].gen + 1, k.kMin)
    else (batches[j - 1].gen, batches[j - 1].limit)
  }

  function Min(a: int, b: int): int { if a <= b then a else b }

  /** Every batch starts where the one before it ended, and is as long as it can be. */
  predicate Chained(k: Traits, batches: seq<Batch>) {
    forall j: nat | j < |batches| :: Linked(k, batches, j)
  }

  predicate Linked(k: Traits, batches: seq<Batch>, j: nat)
    requires j < |batches|
  {
    && k.kMin <= batches[j].first < batches[j].limit
    && batches[j].limit == Min(batches[j].first + k.kBatchSize, k.kMax)
    && (batches[j].gen, batches[j].first) == Cursor(k, batches, j)
  }

  predicate Owner(t: Local) { t.pc.Ready? && t.current < t.max }

  predicate LocalOk(k: Traits, s: State, t: Local)
    requires k.Valid()
  {
    && (Owner(t) ==> && t.batch < |s.batches| && t.max == s.batches[t.batch].limit
                     && s.batches[t.batch].first <= t.current)
    && (t.pc.Trying? ==> Aligned(k, t.pc.read) && t == Prepare(k, t.pc.read, t.batch))
  }

  /** An ID issued is in its batch, below what the batch's owner has left. */
  predicate IssuedOk(s: State, x: Issued) {
    && x.batch < |s.batches| && x.gen == s.batches[x.batch].gen
    && s.batches[x.batch].first <= x.id < s.batches[x.batch].limit
    && forall i: nat | i < |s.threads| && Owner(s.threads[i]) && s.threads[i].batch == x.batch ::
         x.id < s.threads[i].current
  }

  predicate Distinct(issued: seq<Issued>) {
    forall m: nat, n: nat | m < n < |issued| :: issued[m].gen != issued[n].gen || issued[m].id != issued[n].id
  }

  predicate Inv(k: Traits, s: State)
    requires k.Valid()
  {
    && s.checks && Aligned(k, s.global)
    && Chained(k, s.batches) && (s.gen, s.global) == Cursor(k, s.batches, |s.batches|)
    && (forall i: nat | i < |s.threads| :: LocalOk(k, s, s.threads[i]))
    && (forall i: nat, j: nat | i < j < |s.threads| && Owner(s.threads[i]) && Owner(s.threads[j]) ::
          s.threads[i].batch != s.threads[j].batch)
    && (forall n: nat | n < |s.issued| :: IssuedOk(s, s.issued[n]))
    && Distinct(s.issued)
  }

  /** One batch further the counter is aligned again, and not at `kMax`. */
  lemma NextAligned(k: Traits, read: int)
    requires k.Valid() && !k.BatchDivides() && Aligned(k, read) && read <= k.kMax - k.kBatchSize
    ensures Aligned(k, read + k.kBatchSize)
  {
    AddModulus(read - k.kMin, k.kBatchSize);
  }

  /** Neighbours are in the same generation, or the counter went back between them. */
  lemma Neighbours(k: Traits, batches: seq<Batch>, j: nat)
    requires Chained(k, batches) && 0 < j < |batches|
    ensures batches[j - 1].gen < batches[j].gen
            || (batches[j - 1].gen == batches[j].gen && batches[j - 1].limit == batches[j].first)
    ensures batches[j - 1].first < batches[j - 1].limit
  {
    assert Linked(k, batches, j - 1) && Linked(k, batches, j);
  }

  /** Within a generation later batches have larger IDs. */
  lemma {:induction false} Ascending(k: Traits, batches: seq<Batch>, i: nat, j: nat)
    requires Chained(k, batches) && i < j < |batches|
    ensures batches[i].gen <= batches[j].gen
    ensures batches[i].gen == batches[j].gen ==> batches[i].limit <= batches[j].first
    decreases j
  {
    hide Chained;
    Neighbours(k, batches, j);
    if i < j - 1 {
      Ascending(k, batches, i, j - 1);
    }
  }

  lemma ChainedAppend(k: Traits, batches: seq<Batch>, b: Batch)
    requires Chained(k, batches) && (b.gen, b.first) == Cursor(k, batches, |batches|)
    requires k.kMin <= b.first < b.limit == Min(b.first + k.kBatchSize, k.kMax)
    ensures Chained(k, batches + [b])
    ensures Cursor(k, batches + [b], |batches| + 1)
            == if b.limit == k.kMax then (b.gen + 1, k.kMin) else (b.gen, b.limit)
  {
    var all := batches + [b];
    forall j: nat | j < |all| ensures Linked(k, all, j) {
      if j < |batches| {
        assert Linked(k, batches, j);
      }
      assert Cursor(k, all, j) == Cursor(k, batches, j);
    }
  }

  lemma IssueKeepsInv(k: Traits, s: State, i: nat)
    requires k.Valid() && Inv(k, s) && Enabled(s, i, Issue)
    ensures Inv(k, Next(k, s, i, Issue))
  {
    var t, u := s.threads[i], Next(k, s, i, Issue);
    forall n: nat | n < |s.issued| ensures s.issued[n].gen != GenOf(s, t.batch) || s.issued[n].id != t.current {
      var x := s.issued[n];
      assert IssuedOk(s, x);
      if x.batch < t.batch {
        Ascending(k, s.batches, x.batch, t.batch);
      } else if x.batch > t.batch {
        Ascending(k, s.batches, t.batch, x.batch);
      }
    }
    forall n: nat | n < |u.issued| ensures IssuedOk(u, u.issued[n]) {
      if n < |s.issued| {
        assert IssuedOk(s, s.issued[n]);
      }
    }
  }

  /** What the loop prepared is a batch that starts at the counter. */
  lemma Prepared(k: Traits, read: int, t: Local)
    requires k.Valid() && !k.BatchDivides() && Aligned(k, read) && t == Prepare(k, read, t.batch)
    ensures t.current == read && InRange(k, t.current) && InRange(k, t.max) && t.current < t.max
    ensures t.max == Min(read + k.kBatchSize, k.kMax)
    ensures Aligned(k, t.pc.next) && t.pc.next == (if t.max == k.kMax then k.kMin else t.max)
    ensures t.pc.next == k.kMin <==> t.max == k.kMax
  {
    if read <= k.kMax - k.kBatchSize {
      NextAligned(k, read);
    }
  }

  lemma CasKeepsInv(k: Traits, s: State, i: nat)
    requires k.Valid() && !k.BatchDivides() && Inv(k, s) && Enabled(s, i, CasSucceeds)
    ensures Inv(k, Next(k, s, i, CasSucceeds))
  {
    hide Chained, Cursor, Aligned, Prepare;
    var t, u := s.threads[i], Next(k, s, i, CasSucceeds);
    assert LocalOk(k, s, t);
    Prepared(k, s.global, t);
    ChainedAppend(k, s.batches, Batch(s.gen, t.current, t.max));
    forall j: nat | j < |u.threads| ensures LocalOk(k, u, u.threads[j]) {
      assert LocalOk(k, s, s.threads[j]);
    }
    forall n: nat | n < |u.issued| ensures IssuedOk(u, u.issued[n]) {
      assert IssuedOk(s, s.issued[n]);
    }
  }

  lemma LoadKeepsInv(k: Traits, s: State, i: nat, a: Action)
    requires k.Valid() && Inv(k, s) && Enabled(s, i, a) && (a.Load? || a.CasFails?)
    ensures Inv(k, Next(k, s, i, a))
  {
    var u := Next(k, s, i, a);
    forall j: nat | j < |u.threads| ensures LocalOk(k, u, u.threads[j]) {
      assert LocalOk(k, s, s.threads[j]);
    }
    forall n: nat | n < |u.issued| ensures IssuedOk(u, u.issued[n]) {
      assert IssuedOk(s, s.issued[n]);
    }
  }

  lemma {:induction false} RunInv(k: Traits, trace: seq<State>, n: nat)
    requires k.Valid() && !k.BatchDivides() && Run(k, trace) && n < |trace|
    ensures Inv(k, trace[n])
  {
    if n > 0 {
      RunInv(k, trace, n - 1);
      assert Step(k, trace[n - 1], trace[n - 1 + 1]);
      StepKeepsInv(k, trace[n - 1], trace[n]);
    }
  }

  lemma StepKeepsInv(k: Traits, s: State, t: State)
    requires k.Valid() && !k.BatchDivides() && Inv(k, s) && Step(k, s, t)
    ensures Inv(k, t)
  {
    hide Inv, Next;
    var i: nat, a: Action :| Enabled(s, i, a) && t == Next(k, s, i, a);
    match a
    case Issue => IssueKeepsInv(k, s, i);
    case CasSucceeds => CasKeepsInv(k, s, i);
    case _ => LoadKeepsInv(k, s, i, a);
  }

  // ------------------------------------------------------------------- theorems

  /** No thread ever issues an ID that this or another thread has issued since the counter
      last went back. */
  lemma NeverIssuedTwice(k: Traits, trace: seq<State>, n: nat, x: nat, y: nat)
    requires k.Valid() && !k.BatchDivides() && Run(k, trace) && n < |trace| && x < y < |trace[n].issued|
    ensures var a, b := trace[n].issued[x], trace[n].issued[y];
            && k.kMin <= a.id < k.kMax && k.kMin <= b.id < k.kMax
            && (a.gen != b.gen || a.id != b.id)
  {
    RunInv(k, trace, n);
    var s := trace[n];
    assert IssuedOk(s, s.issued[x]) && IssuedOk(s, s.issued[y]);
    assert Linked(k, s.batches, s.issued[x].batch) && Linked(k, s.batches, s.issued[y].batch);
  }

  // ------------------------------------------------------- the IDs of one batch

  /** The IDs issued from batch `b`, in the order in which they were. */
  function IdsOf(issued: seq<Issued>, b: nat): seq<int> {
    if issued == [] then []
    else
      var x := issued[|issued| - 1];
      IdsOf(issued[..|issued| - 1], b) + if x.batch == b then [x.id] else []
  }

  function Range(a: int, b: int): (r: seq<int>)
    requires a <= b
    ensures |r| == b - a && forall i | 0 <= i < |r| :: r[i] == a + i
  {
    seq(b - a, i => a + i)
  }

  lemma IdsAppend(issued: seq<Issued>, x: Issued, b: nat)
    ensures IdsOf(issued + [x], b) == IdsOf(issued, b) + if x.batch == b then [x.id] else []
  {
    assert (issued + [x])[..|issued|] == issued;
  }

  lemma RangeGrows(a: int, b: int)
    requires a <= b
    ensures Range(a, b) + [b] == Range(a, b + 1)
  {
  }

  lemma {:induction false} NoneYet(issued: seq<Issued>, b: nat)
    requires forall n: nat | n < |issued| :: issued[n].batch != b
    ensures IdsOf(issued, b) == []
  {
    if issued != [] {
      NoneYet(issued[..|issued| - 1], b);
    }
  }

  /** Nobody has IDs of batch `b` left. */
  predicate UsedUp(s: State, b: nat) {
    forall i: nat | i < |s.threads| && Owner(s.threads[i]) :: s.threads[i].batch != b
  }

  /** The owner of a batch has issued its IDs up to its own `current`, one by one; a batch
      without owner has been issued completely. */
  predicate InSequence(s: State, b: nat)
    requires b < |s.batches|
  {
    var x := s.batches[b];
    && x.first <= x.limit
    && (forall i: nat | i < |s.threads| && Owner(s.threads[i]) && s.threads[i].batch == b ::
          x.first <= s.threads[i].current && IdsOf(s.issued, b) == Range(x.first, s.threads[i].current))
    && (UsedUp(s, b) ==> IdsOf(s.issued, b) == Range(x.first, x.limit))
  }

  lemma IssueInSequence(k: Traits, s: State, i: nat, b: nat)
    requires k.Valid() && Inv(k, s) && Enabled(s, i, Issue) && b < |s.batches| && InSequence(s, b)
    ensures InSequence(Next(k, s, i, Issue), b)
  {
    hide IdsOf, Range, Chained, Cursor, Distinct, IssuedOk;
    var t, u := s.threads[i], Next(k, s, i, Issue);
    assert LocalOk(k, s, t);
    IdsAppend(s.issued, Issued(GenOf(s, t.batch), t.current, t.batch), b);
    if t.batch == b {
      RangeGrows(s.batches[b].first, t.current);
      assert UsedUp(u, b) ==> !Owner(u.threads[i]);
    } else {
      assert UsedUp(u, b) ==> UsedUp(s, b) by {
        assert forall j: nat | j < |s.threads| && j != i :: u.threads[j] == s.threads[j];
      }
    }
  }

  lemma OthersInSequence(k: Traits, s: State, i: nat, a: Action, b: nat)
    requires k.Valid() && Enabled(s, i, a) && !a.Issue? && b < |s.batches| && InSequence(s, b)
    ensures InSequence(Next(k, s, i, a), b)
  {
    hide IdsOf, Range;
    var u := Next(k, s, i, a);
    assert u.issued == s.issued && u.batches[b] == s.batches[b];
    assert !Owner(s.threads[i]);
    assert Owner(u.threads[i]) ==> u.threads[i].batch == |s.batches|;
    assert forall j: nat | j < |s.threads| && j != i :: u.threads[j] == s.threads[j];
    assert UsedUp(u, b) ==> UsedUp(s, b);
  }

  lemma NewInSequence(k: Traits, s: State, i: nat)
    requires k.Valid() && !k.BatchDivides() && Inv(k, s) && Enabled(s, i, CasSucceeds)
    ensures InSequence(Next(k, s, i, CasSucceeds), |s.batches|)
  {
    hide Chained, Cursor, Aligned, Prepare, Distinct;
    var t, u, b := s.threads[i], Next(k, s, i, CasSucceeds), |s.batches|;
    assert LocalOk(k, s, t);
    Prepared(k, s.global, t);
    forall n: nat | n < |s.issued| ensures s.issued[n].batch != b {
      assert IssuedOk(s, s.issued[n]);
    }
    NoneYet(s.issued, b);
    assert Owner(u.threads[i]);
  }

  lemma StepInSequence(k: Traits, s: State, t: State, b: nat)
    requires k.Valid() && !k.BatchDivides() && Inv(k, s) && Step(k, s, t) && b < |t.batches|
    requires b < |s.batches| ==> InSequence(s, b)
    ensures InSequence(t, b)
  {
    hide Inv, InSequence;
    var i: nat, a: Action :| Enabled(s, i, a) && t == Next(k, s, i, a);
    if b == |s.batches| {
      NewInSequence(k, s, i);
    } else if a.Issue? {
      IssueInSequence(k, s, i, b);
    } else {
      OthersInSequence(k, s, i, a, b);
    }
  }

  /** In every state of every run, what has been issued from a batch are its IDs from the
      first on, each once and in order: all of them if nobody has any left, and those below
      its owner's `current` otherwise. */
  lemma {:induction false} IssuedInSequence(k: Traits, trace: seq<State>, n: nat, b: nat)
    requires k.Valid() && !k.BatchDivides() && Run(k, trace) && n < |trace| && b < |trace[n].batches|
    ensures InSequence(trace[n], b)
    decreases n
  {
    hide Inv, InSequence, Step;
    if n > 0 {
      RunInv(k, trace, n - 1);
      assert Step(k, trace[n - 1], trace[n - 1 + 1]);
      if b < |trace[n - 1].batches| {
        IssuedInSequence(k, trace, n - 1, b);
      }
      StepInSequence(k, trace[n - 1], trace[n], b);
    }
  }

  /** An element of that sequence has been issued. */
  lemma {:induction false} IssuedFrom(issued: seq<Issued>, b: nat, id: int) returns (x: nat)
    requires id in IdsOf(issued, b)
    ensures x < |issued| && issued[x].batch == b && issued[x].id == id
  {
    var n := |issued| - 1;
    if issued[n].batch == b && issued[n].id == id {
      x := n;
    } else {
      x := IssuedFrom(issued[..n], b, id);
    }
  }

  /** A batch has `kBatchSize` IDs, or what is left up to `kMax`. */
  lemma BatchesAreFull(k: Traits, trace: seq<State>, n: nat, b: nat)
    requires k.Valid() && !k.BatchDivides() && Run(k, trace) && n < |trace| && b < |trace[n].batches|
    ensures var x := trace[n].batches[b];
            if x.first + k.kBatchSize <= k.kMax then x.limit == x.first + k.kBatchSize
            else k.kMin <= x.first < x.limit == k.kMax
  {
    RunInv(k, trace, n);
    assert Linked(k, trace[n].batches, b);
  }

  predicate Holds(b: Batch, gen: nat, id: int) { b.gen == gen && b.first <= id < b.limit }

  /** The batches of a generation that is over partition `kMin..kMax`. */
  lemma GenerationIsPartitioned(k: Traits, trace: seq<State>, n: nat, gen: nat, id: int)
    requires k.Valid() && !k.BatchDivides() && Run(k, trace) && n < |trace|
    requires gen < trace[n].gen && k.kMin <= id < k.kMax
    ensures exists j: nat :: j < |trace[n].batches| && Holds(trace[n].batches[j], gen, id)
    ensures forall i: nat, j: nat | i < |trace[n].batches| && j < |trace[n].batches| ::
              Holds(trace[n].batches[i], gen, id) && Holds(trace[n].batches[j], gen, id) ==> i == j
  {
    RunInv(k, trace, n);
    var batches := trace[n].batches;
    var j := HolderBefore(k, batches, |batches|, gen, id);
    forall i: nat, j: nat | i < j < |batches| ensures !(Holds(batches[i], gen, id) && Holds(batches[j], gen, id)) {
      Ascending(k, batches, i, j);
    }
  }

  lemma {:induction false} HolderBefore(k: Traits, batches: seq<Batch>, j: nat, gen: nat, id: int) returns (b: nat)
    requires Chained(k, batches) && j <= |batches| && k.kMin <= id < k.kMax
    requires var c := Cursor(k, batches, j); gen < c.0 || (gen == c.0 && id < c.1)
    ensures b < j && Holds(batches[b], gen, id)
  {
    b := j - 1;
    assert Linked(k, batches, b);
    if !Holds(batches[b], gen, id) {
      b := HolderBefore(k, batches, j - 1, gen, id);
    }
  }

  ghost predicate IsIssued(s: State, gen: nat, id: int) {
    exists x: nat :: x < |s.issued| && s.issued[x].gen == gen && s.issued[x].id == id
  }

  /** An ID has been issued in its generation if and only if the batch that holds it has no
      owner, or one that is past it. */
  lemma IssuedExactly(k: Traits, trace: seq<State>, n: nat, b: nat, id: int)
    requires k.Valid() && !k.BatchDivides() && Run(k, trace) && n < |trace| && b < |trace[n].batches|
    requires trace[n].batches[b].first <= id < trace[n].batches[b].limit
    ensures IsIssued(trace[n], trace[n].batches[b].gen, id)
            <==> forall i: nat | i < |trace[n].threads| && Owner(trace[n].threads[i])
                   && trace[n].threads[i].batch == b :: id < trace[n].threads[i].current
  {
    hide Run, IdsOf, Range, LocalOk;
    var s := trace[n];
    RunInv(k, trace, n);
    IssuedInSequence(k, trace, n, b);
    var gen := s.batches[b].gen;
    if IsIssued(s, gen, id) {
      var x: nat :| x < |s.issued| && s.issued[x].gen == gen && s.issued[x].id == id;
      assert IssuedOk(s, s.issued[x]);
      if s.issued[x].batch < b {
        Ascending(k, s.batches, s.issued[x].batch, b);
      } else if s.issued[x].batch > b {
        Ascending(k, s.batches, b, s.issued[x].batch);
      }
    }
    if forall i: nat | i < |s.threads| && Owner(s.threads[i]) && s.threads[i].batch == b ::
         id < s.threads[i].current {
      Listed(s, b, id);
      var x := IssuedFrom(s.issued, b, id);
      assert IssuedOk(s, s.issued[x]);
    }
  }

  lemma Listed(s: State, b: nat, id: int)
    requires b < |s.batches| && InSequence(s, b) && s.batches[b].first <= id < s.batches[b].limit
    requires forall i: nat | i < |s.threads| && Owner(s.threads[i]) && s.threads[i].batch == b ::
               id < s.threads[i].current
    ensures id in IdsOf(s.issued, b)
  {
    hide IdsOf;
    var first := s.batches[b].first;
    if UsedUp(s, b) {
      assert Range(first, s.batches[b].limit)[id - first] == id;
    } else {
      var i: nat :| i < |s.threads| && Owner(s.threads[i]) && s.threads[i].batch == b;
      assert Range(first, s.threads[i].current)[id - first] == id;
    }
  }

  /** A generation that is over has issued every ID of `kMin..kMax` exactly once, if and only
      if all its batches have been used up. */
  lemma GenerationIsIssued(k: Traits, trace: seq<State>, n: nat, gen: nat)
    requires k.Valid() && !k.BatchDivides() && Run(k, trace) && n < |trace| && gen < trace[n].gen
    ensures (forall id: int | k.kMin <= id < k.kMax :: IsIssued(trace[n], gen, id))
            <==> forall b: nat | b < |trace[n].batches| && trace[n].batches[b].gen == gen :: UsedUp(trace[n], b)
    ensures forall x: nat, y: nat | x < y < |trace[n].issued| && trace[n].issued[x].gen == gen
              && trace[n].issued[y].gen == gen :: trace[n].issued[x].id != trace[n].issued[y].id
  {
    hide Run, Holds, IsIssued;
    var s := trace[n];
    forall x: nat, y: nat | x < y < |s.issued| && s.issued[x].gen == gen && s.issued[y].gen == gen
      ensures s.issued[x].id != s.issued[y].id
    {
      NeverIssuedTwice(k, trace, n, x, y);
    }
    forall b: nat | b < |s.batches| && s.batches[b].gen == gen && !UsedUp(s, b)
      ensures exists id: int :: k.kMin <= id < k.kMax && !IsIssued(s, gen, id)
    {
      var id := NotYetIssued(k, trace, n, b);
    }
    if forall b: nat | b < |s.batches| && s.batches[b].gen == gen :: UsedUp(s, b) {
      forall id: int | k.kMin <= id < k.kMax ensures IsIssued(s, gen, id) {
        GenerationIsPartitioned(k, trace, n, gen, id);
        var b: nat :| b < |s.batches| && Holds(s.batches[b], gen, id);
        HoldsIt(s.batches[b], gen, id);
        IssuedExactly(k, trace, n, b, id);
      }
    }
  }

  lemma HoldsIt(b: Batch, gen: nat, id: int)
    requires Holds(b, gen, id)
    ensures b.gen == gen && b.first <= id < b.limit
  {
  }

  /** The owner's next ID is still to be issued. */
  lemma NotYetIssued(k: Traits, trace: seq<State>, n: nat, b: nat) returns (id: int)
    requires k.Valid() && !k.BatchDivides() && Run(k, trace) && n < |trace|
    requires b < |trace[n].batches| && !UsedUp(trace[n], b)
    ensures k.kMin <= id < k.kMax && !IsIssued(trace[n], trace[n].batches[b].gen, id)
  {
    hide Run, IsIssued;
    var s := trace[n];
    RunInv(k, trace, n);
    var i: nat :| i < |s.threads| && Owner(s.threads[i]) && s.threads[i].batch == b;
    id := s.threads[i].current;
    assert LocalOk(k, s, s.threads[i]);
    assert Linked(k, s.batches, b);
    IssuedExactly(k, trace, n, b, id);
  }

  /** A thread that has run out of IDs and is left alone gets a batch, whatever happened to it
      before, and issues its first ID: the counter as it stands. */
  lemma NextAlone(k: Traits, trace: seq<State>, n: nat, i: nat) returns (t: State, u: State, w: State)
    requires k.Valid() && !k.BatchDivides() && Run(k, trace) && n < |trace|
    requires i < |trace[n].threads| && !Owner(trace[n].threads[i])
    ensures var a := if trace[n].threads[i].pc.Ready? then Load else CasFails;
            Enabled(trace[n], i, a) && t == Next(k, trace[n], i, a)
    ensures Enabled(t, i, CasSucceeds) && u == Next(k, t, i, CasSucceeds)
    ensures Enabled(u, i, Issue) && w == Next(k, u, i, Issue)
    ensures w.issued == trace[n].issued + [Issued(trace[n].gen, trace[n].global, |trace[n].batches|)]
  {
    hide Run;
    RunInv(k, trace, n);
    var s := trace[n];
    t := Next(k, s, i, if s.threads[i].pc.Ready? then Load else CasFails);
    assert t.threads[i] == Prepare(k, s.global, s.threads[i].batch);
    u := Next(k, t, i, CasSucceeds);
    assert u.threads[i].current == s.global && u.threads[i].batch == |s.batches|;
    w := Next(k, u, i, Issue);
  }

  /** The checks never fail, unless the batch size divides the range: then some run makes
      the last one fail. */
  lemma ChecksExactly(k: Traits)
    requires k.Valid()
    ensures !k.BatchDivides()
            <==> forall trace: seq<State>, n: nat | Run(k, trace) && n < |trace| :: trace[n].checks
  {
    hide Run, Inv;
    if k.BatchDivides() {
      var trace := FailingRun(k);
      assert !trace[|trace| - 1].checks;
    } else {
      forall trace: seq<State>, n: nat | Run(k, trace) && n < |trace| ensures trace[n].checks {
        RunInv(k, trace, n);
        InvChecks(k, trace[n]);
      }
    }
  }

  lemma InvChecks(k: Traits, s: State)
    requires k.Valid() && Inv(k, s)
    ensures s.checks
  {
  }

  lemma Extend(k: Traits, trace: seq<State>, i: nat, a: Action) returns (longer: seq<State>)
    requires Run(k, trace) && Enabled(trace[|trace| - 1], i, a)
    ensures Run(k, longer) && longer[|longer| - 1] == Next(k, trace[|trace| - 1], i, a)
  {
    var t := Next(k, trace[|trace| - 1], i, a);
    longer := trace + [t];
    forall n: nat | n + 1 < |longer| ensures Step(k, longer[n], longer[n + 1]) {
      if n + 1 < |trace| {
        assert Step(k, trace[n], trace[n + 1]);
      } else {
        assert Enabled(longer[n], i, a) && longer[n + 1] == Next(k, longer[n], i, a);
      }
    }
  }

  /** After thread `i` has taken a batch, the others are as they were. */
  lemma TakeBatch(k: Traits, trace: seq<State>, i: nat) returns (longer: seq<State>)
    requires Run(k, trace) && i < |trace[|trace| - 1].threads|
    requires trace[|trace| - 1].threads[i] == Local(0, 0, Ready, 0)
    ensures Run(k, longer)
    ensures var s, t := trace[|trace| - 1], longer[|longer| - 1];
            var p := Prepare(k, s.global, 0);
            && t.global == p.pc.next && (t.checks ==> p.current < p.max)
            && |t.threads| == |s.threads|
            && forall j | 0 <= j < |t.threads| && j != i :: t.threads[j] == s.threads[j]
  {
    hide Run;
    var mid := Extend(k, trace, i, Load);
    longer := Extend(k, mid, i, CasSucceeds);
  }

  /** `j` threads have taken a batch each; the others have not begun. */
  lemma {:induction false} Climb(k: Traits, m: nat, j: nat, g: int) returns (trace: seq<State>)
    requires k.Valid() && j <= m && g == k.kMin + j * k.kBatchSize <= k.kMax
    ensures Run(k, trace)
    ensures var s := trace[|trace| - 1];
            && s.global == g && |s.threads| == m
            && forall i | j <= i < m :: s.threads[i] == Local(0, 0, Ready, 0)
    decreases j
  {
    if j == 0 {
      trace := [State(k.kMin, seq(m, _ => Local(0, 0, Ready, 0)), true, 0, [], [])];
    } else {
      assert (j - 1) * k.kBatchSize == j * k.kBatchSize - k.kBatchSize;
      var shorter := Climb(k, m, j - 1, g - k.kBatchSize);
      trace := TakeBatch(k, shorter, j - 1);
    }
  }

  /** The counter reaches `kMax`, and the next thread gets an empty batch. */
  lemma FailingRun(k: Traits) returns (trace: seq<State>)
    requires k.Valid() && k.BatchDivides()
    ensures Run(k, trace) && !trace[|trace| - 1].checks
  {
    hide Run;
    var j := (k.kMax - k.kMin) / k.kBatchSize;
    assert k.kMax == k.kMin + j * k.kBatchSize;
    var climbed := Climb(k, j + 1, j, k.kMax);
    trace := TakeBatch(k, climbed, j);
  }
}
