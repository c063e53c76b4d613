/**
  The floor of PoolScaling is exact.  For every elastic configuration whose limits differ
  there is a run, with no more than k evaluations in progress at a time, that leaves an
  open pool with minWorker + 1 - k workers: k evaluations all read minWorker + 1 workers
  and all retire one.

  The machine lets an evaluation begin at any time, while Submit begins one after every
  1024th return.  The runs built here respect that: between the evaluations they submit
  and handle tasks, which leaves the pool as it was.
 */
module PoolOverlap {
  import opened Basics
  import opened Pool
  import opened PoolSafety
  import opened PoolScaling

  const INTERVAL := 1024

  // Submits that have returned and not yet led to an evaluation.
  function Gain(a: Action): int {
    if a.OfSubmit? && a.submit.RUnlock? then 1
    else if a.OfScale? && a.scale.ScaleCall? then -INTERVAL
    else 0
  }

  function Credit(run: seq<Action>): int {
    if run == [] then 0 else Credit(run[..|run| - 1]) + Gain(run[|run| - 1])
  }

  // No evaluation begins before its 1024 submits have returned.
  predicate Paced(run: seq<Action>) {
    run == [] || (Paced(run[..|run| - 1]) && Credit(run) >= 0)
  }

  ghost predicate IsRun(c: Config, run: seq<Action>, s: State, k: nat, credit: int)
    requires WellFormed(c)
  {
    RunsWithin(c, Init(c, map[]), run, s, k) && Paced(run) && Credit(run) == credit
  }

  ghost predicate CanReach(c: Config, s: State, k: nat, credit: int) {
    WellFormed(c) && exists run :: IsRun(c, run, s, k, credit)
  }

  lemma {:induction false} RunExtends(c: Config, s: State, run: seq<Action>, m: State, a: Action, k: nat)
    requires WellFormed(c) && RunsWithin(c, s, run, m, k)
    requires Enabled(c, m, a) && |Evaluating(Apply(c, m, a).scalers)| <= k
    ensures RunsWithin(c, s, run + [a], Apply(c, m, a), k)
    decreases |run|
  {
    if run == [] {
      assert [a][1..] == [];
      assert RunsWithin(c, Apply(c, m, a), [], Apply(c, m, a), k);
    } else {
      RunExtends(c, Apply(c, s, run[0]), run[1..], m, a, k);
      assert (run + [a])[1..] == run[1..] + [a];
    }
  }

  lemma {:induction false} EndIsWithin(c: Config, s: State, run: seq<Action>, m: State, k: nat)
    requires WellFormed(c) && RunsWithin(c, s, run, m, k)
    ensures |Evaluating(m.scalers)| <= k
    decreases |run|
  {
    if run != [] { EndIsWithin(c, Apply(c, s, run[0]), run[1..], m, k); }
  }

  lemma Step(c: Config, s: State, a: Action, k: nat, credit: int) returns (s': State)
    requires CanReach(c, s, k, credit) && Enabled(c, s, a)
    requires |Evaluating(Apply(c, s, a).scalers)| <= k && credit + Gain(a) >= 0
    ensures s' == Apply(c, s, a) && CanReach(c, s', k, credit + Gain(a))
  {
    s' := Apply(c, s, a);
    var run :| IsRun(c, run, s, k, credit);
    RunExtends(c, Init(c, map[]), run, s, a, k);
    assert (run + [a])[..|run|] == run;
    assert IsRun(c, run + [a], s', k, credit + Gain(a));
  }

  // A step that moves no evaluation.
  lemma Proceeds(c: Config, s: State, a: Action, k: nat, credit: nat) returns (s': State)
    requires CanReach(c, s, k, credit) && Enabled(c, s, a) && Apply(c, s, a).scalers == s.scalers && Gain(a) >= 0
    ensures s' == Apply(c, s, a) && CanReach(c, s', k, credit + Gain(a))
  {
    var run :| IsRun(c, run, s, k, credit);
    EndIsWithin(c, Init(c, map[]), run, s, k);
    s' := Step(c, s, a, k, credit);
  }

  // ------------------------------------------------------------- tasks come and go

  // Nobody is inside a lock, worker 1 is free, and every task so far is below `next`.
  ghost predicate AtRest(s: State, next: Task) {
    && !s.closed && s.mu.None? && s.writer.None? && s.readers == {} && s.starter.Started?
    && 1 in s.workers && s.workers[1].Looping? && (forall t :: t in s.submits ==> t < next)
  }

  lemma Entered(c: Config, s0: State, t: Task, k: nat, credit: nat) returns (s: State)
    requires CanReach(c, s0, k, credit) && AtRest(s0, t)
    ensures s == s0.(submits := s0.submits[t := Ready], readers := {t}) && CanReach(c, s, k, credit)
  {
    s := Proceeds(c, s0, OfSubmit(t, Call), k, credit);
    s := Proceeds(c, s, OfSubmit(t, RLock), k, credit);
    s := Proceeds(c, s, OfSubmit(t, CheckClosed), k, credit);
    assert s.submits == s0.submits[t := Ready] && s.readers == {t};
  }

  lemma Submitted(c: Config, s0: State, t: Task, k: nat, credit: nat) returns (s: State)
    requires CanReach(c, s0, k, credit) && AtRest(s0, t) && |s0.queue| < c.capacity
    ensures s == s0.(queue := s0.queue + [t], submits := s.submits, place := s.place)
    ensures CanReach(c, s, k, credit + 1) && AtRest(s, t + 1)
  {
    s := Entered(c, s0, t, k, credit);
    s := Proceeds(c, s, OfSubmit(t, Enqueue), k, credit);
    s := Proceeds(c, s, OfSubmit(t, RUnlock), k, credit);
    assert s.readers == {};
  }

  lemma Handled(c: Config, s0: State, next: Task, k: nat, credit: nat) returns (s: State)
    requires CanReach(c, s0, k, credit) && AtRest(s0, next) && s0.queue != []
    ensures s == s0.(queue := s0.queue[1..], handled := s.handled, place := s.place)
    ensures CanReach(c, s, k, credit) && AtRest(s, next)
  {
    s := Proceeds(c, s0, OfWorker(1, Receive), k, credit);
    s := Proceeds(c, s, OfWorker(1, FinishTask), k, credit);
    assert s.workers == s0.workers;
  }

  // n tasks submitted and handled one after the other: nothing else has changed.
  lemma {:induction false} Passed(c: Config, s0: State, next: Task, n: nat, k: nat, credit: nat) returns (s: State)
    requires CanReach(c, s0, k, credit) && AtRest(s0, next) && s0.queue == []
    ensures s == s0.(submits := s.submits, handled := s.handled, place := s.place)
    ensures CanReach(c, s, k, credit + n) && AtRest(s, next + n)
    decreases n
  {
    s := s0;
    if n > 0 {
      s := Submitted(c, s0, next, k, credit);
      s := Handled(c, s, next + 1, k, credit + 1);
      s := Passed(c, s, next + 1, n - 1, k, credit + 1);
    }
  }

  lemma {:induction false} Filled(c: Config, s0: State, next: Task, n: nat, k: nat, credit: nat) returns (s: State)
    requires CanReach(c, s0, k, credit) && AtRest(s0, next) && |s0.queue| + n <= c.capacity
    ensures s == s0.(queue := s.queue, submits := s.submits, place := s.place) && |s.queue| == |s0.queue| + n
    ensures CanReach(c, s, k, credit + n) && AtRest(s, next + n)
    decreases n
  {
    s := s0;
    if n > 0 {
      s := Submitted(c, s0, next, k, credit);
      s := Filled(c, s, next + 1, n - 1, k, credit + 1);
    }
  }

  lemma {:induction false} Drained(c: Config, s0: State, next: Task, k: nat, credit: nat) returns (s: State)
    requires CanReach(c, s0, k, credit) && AtRest(s0, next)
    ensures s == s0.(queue := [], handled := s.handled, place := s.place)
    ensures CanReach(c, s, k, credit) && AtRest(s, next)
    decreases |s0.queue|
  {
    s := s0;
    if s0.queue != [] {
      s := Handled(c, s0, next, k, credit);
      s := Drained(c, s, next, k, credit);
    }
  }

  // ------------------------------------------------------------- starting and growing

  lemma AddMoves(c: Config, s: State, o: Owner, a: AddStep, k: nat, credit: nat) returns (s': State)
    requires CanReach(c, s, k, credit) && AddEnabled(c, s, o, a)
    ensures s' == AddApply(c, s, o, a) && CanReach(c, s', k, credit)
  {
    var run :| IsRun(c, run, s, k, credit);
    EndIsWithin(c, Init(c, map[]), run, s, k);
    var after := ScalersNext(s.scalers, o, AddNext(s, a));
    assert Evaluating(after) <= Evaluating(s.scalers);
    SubsetIsSmaller(Evaluating(after), Evaluating(s.scalers));
    s' := Step(c, s, OfAdd(o, a), k, credit);
  }

  // addWorker up to the point where it holds the mutex of an open pool.
  lemma Approached(c: Config, s0: State, o: Owner, k: nat, credit: nat) returns (s: State)
    requires CanReach(c, s0, k, credit) && !s0.closed && s0.mu.None? && Adding(s0.starter, s0.scalers, o, AddCheck)
    ensures s == s0.(starter := s.starter, scalers := s.scalers, mu := Some(o))
    ensures s.starter == StarterNext(s0.starter, o, Some(AddReady)) &&
            s.scalers == ScalersNext(s0.scalers, o, Some(AddReady))
    ensures Adding(s.starter, s.scalers, o, AddReady) && CanReach(c, s, k, credit)
  {
    s := AddMoves(c, s0, o, FirstCheck, k, credit);
    s := AddMoves(c, s, o, AcquireMu, k, credit);
    s := AddMoves(c, s, o, SecondCheck, k, credit);
    assert s.scalers == ScalersNext(s0.scalers, o, Some(AddReady));
  }

  lemma Grown(c: Config, s0: State, o: Owner, k: nat, credit: nat) returns (s: State)
    requires CanReach(c, s0, k, credit) && !s0.closed && s0.mu.None? && Adding(s0.starter, s0.scalers, o, AddCheck)
    requires |s0.active| < c.maxWorker
    ensures s == s0.(starter := s.starter, scalers := s.scalers, nextId := s0.nextId + 1,
                     active := s0.active + {s0.nextId + 1}, workers := s0.workers[s0.nextId + 1 := Looping])
    ensures s.starter == StarterNext(s0.starter, o, None) && s.scalers == ScalersNext(s0.scalers, o, None)
    ensures CanReach(c, s, k, credit)
  {
    s := Approached(c, s0, o, k, credit);
    s := AddMoves(c, s, o, Launch, k, credit);
    assert s.scalers == ScalersNext(s0.scalers, o, None);
  }

  // A pool whose workers are all free and numbered up to nextId.
  ghost predicate Numbered(s: State) {
    && s.active == Interval(1, s.nextId)
    && forall w :: 1 <= w <= s.nextId ==> w in s.workers && s.workers[w].Looping?
  }

  lemma OneMore(s0: State, s: State)
    requires Numbered(s0) && s.nextId == s0.nextId + 1 && s.active == s0.active + {s.nextId}
    requires s.workers == s0.workers[s.nextId := Looping]
    ensures Numbered(s)
  {
    assert s.active == Interval(1, s.nextId);
  }

  predicate CanStart(c: Config, s: State) {
    && !s.closed && s.mu.None? && s.starter.Starting? && s.starter.add == AddCheck
    && s.starter.remaining > 0 && s.nextId + s.starter.remaining <= c.maxWorker
  }

  lemma StartedOne(c: Config, s0: State, k: nat) returns (s: State)
    requires CanReach(c, s0, k, 0) && CanStart(c, s0) && Numbered(s0)
    ensures s == s0.(starter := s.starter, nextId := s0.nextId + 1, active := s.active, workers := s.workers)
    ensures s.starter == if s0.starter.remaining == 1 then Started else Starting(s0.starter.remaining - 1, AddCheck)
    ensures Numbered(s) && CanReach(c, s, k, 0)
  {
    assert |s0.active| == s0.nextId;
    s := Grown(c, s0, ByStarter, k, 0);
    OneMore(s0, s);
  }

  lemma {:induction false} StartedUp(c: Config, s0: State, k: nat) returns (s: State)
    requires CanReach(c, s0, k, 0) && CanStart(c, s0) && Numbered(s0)
    ensures s == s0.(starter := Started, nextId := s0.nextId + s0.starter.remaining, active := s.active,
            workers := s.workers)
    ensures Numbered(s) && CanReach(c, s, k, 0)
    decreases s0.starter.remaining
  {
    s := StartedOne(c, s0, k);
    if s0.starter.remaining > 1 {
      s := StartedUp(c, s, k);
    }
  }

  // ------------------------------------------------------------- evaluations

  // The evaluations in progress lie within a set that is small enough.
  predicate Fits(scalers: Scalers, among: set<Scaler>, k: nat) {
    Evaluating(scalers) <= among && |among| <= k
  }

  lemma StillFits(scalers: Scalers, among: set<Scaler>, k: nat, e: Scaler, pc: ScalePc)
    requires Fits(scalers, among, k) && e in among
    ensures Fits(scalers[e := pc], among, k) && |Evaluating(scalers[e := pc])| <= k
  {
    SubsetIsSmaller(Evaluating(scalers[e := pc]), among);
  }

  lemma ScaleMoves(c: Config, s: State, e: Scaler, a: ScaleStep, k: nat, credit: nat, among: set<Scaler>)
      returns (s': State)
    requires CanReach(c, s, k, credit) && ScaleEnabled(c, s, e, a) && credit + Gain(OfScale(e, a)) >= 0
    requires Fits(s.scalers, among, k) && e in among
    ensures s' == ScaleApply(c, s, e, a) && CanReach(c, s', k, credit + Gain(OfScale(e, a)))
    ensures Fits(s'.scalers, among, k)
  {
    StillFits(s.scalers, among, k, e, ScaleNext(c, s, e, a));
    s' := Step(c, s, OfScale(e, a), k, credit);
  }

  // A step of e that only reads.
  lemma Reads(c: Config, s: State, e: Scaler, a: ScaleStep, pc: ScalePc, k: nat, credit: nat, among: set<Scaler>)
    returns (s': State)
    requires CanReach(c, s, k, credit) && ScaleEnabled(c, s, e, a) && pc == ScaleNext(c, s, e, a)
    requires a.CheckOpen? || a.ReadQueue? || a.ReadWorkers?
    requires Fits(s.scalers, among, k) && e in among
    ensures s' == s.(scalers := s.scalers[e := pc]) && CanReach(c, s', k, credit) && Fits(s'.scalers, among, k)
  {
    s' := ScaleMoves(c, s, e, a, k, credit, among);
  }

  // Evaluations below lo are over, and none has a number from e on.
  predicate Spare(scalers: Scalers, lo: nat, e: Scaler) {
    lo <= e && forall f :: f in scalers ==> f < e && (f < lo ==> scalers[f].ScDone?)
  }

  lemma SpareFits(scalers: Scalers, lo: nat, e: Scaler, k: nat)
    requires Spare(scalers, lo, e) && e + 1 - lo <= k
    ensures Fits(scalers, Interval(lo, e + 1 - lo), k)
  {
  }

  // Evaluation e begins.
  lemma Began(c: Config, s0: State, e: Scaler, k: nat, credit: nat, among: set<Scaler>) returns (s: State)
    requires CanReach(c, s0, k, credit) && c.kind.ElasticPool? && INTERVAL <= credit && e !in s0.scalers
    requires Fits(s0.scalers, among, k) && e in among
    ensures s == s0.(scalers := s0.scalers[e := ScCheck]) && CanReach(c, s, k, credit - INTERVAL)
    ensures Fits(s.scalers, among, k)
  {
    s := ScaleMoves(c, s0, e, ScaleCall, k, credit, among);
  }

  lemma Opened(c: Config, s0: State, e: Scaler, k: nat, credit: nat, among: set<Scaler>) returns (s: State)
    requires CanReach(c, s0, k, credit) && c.kind.ElasticPool? && !s0.closed && INTERVAL <= credit
    requires e !in s0.scalers && Fits(s0.scalers, among, k) && e in among
    ensures s == s0.(scalers := s0.scalers[e := ScCount(|s0.queue|)]) && CanReach(c, s, k, credit - INTERVAL)
    ensures Fits(s.scalers, among, k)
  {
    s := Began(c, s0, e, k, credit, among);
    s := Reads(c, s, e, CheckOpen, ScQueue, k, credit - INTERVAL, among);
    s := Reads(c, s, e, ReadQueue, ScCount(|s0.queue|), k, credit - INTERVAL, among);
    assert s.scalers == s0.scalers[e := ScCount(|s0.queue|)];
  }

  // Evaluation e up to its decision: it reads an occupancy and a worker count.
  lemma Observed(c: Config, s0: State, e: Scaler, k: nat, credit: nat, among: set<Scaler>) returns (s: State)
    requires CanReach(c, s0, k, credit) && c.kind.ElasticPool? && !s0.closed && s0.mu.None? && INTERVAL <= credit
    requires e !in s0.scalers && Fits(s0.scalers, among, k) && e in among
    ensures s == s0.(scalers := s0.scalers[e := ScDecide(|s0.queue|, |s0.active|)])
    ensures CanReach(c, s, k, credit - INTERVAL) && Fits(s.scalers, among, k)
  {
    s := Opened(c, s0, e, k, credit, among);
    s := Reads(c, s, e, ReadWorkers, ScDecide(|s0.queue|, |s0.active|), k, credit - INTERVAL, among);
    assert s.scalers == s0.scalers[e := ScDecide(|s0.queue|, |s0.active|)];
  }

  lemma FullIsHigh(c: Config)
    requires WellFormed(c) && c.minWorker < c.maxWorker
    ensures Judge(c, c.capacity, c.minWorker).High? && Judge(c, 0, c.minWorker + 1).Low?
  {
  }

  // The first evaluation finds a full queue and adds a worker; then the queue is drained.
  lemma GrownByOne(c: Config, s0: State, k: nat, credit: nat) returns (s: State)
    requires CanReach(c, s0, k, credit) && c.kind.ElasticPool? && INTERVAL <= credit && 1 <= k
    requires !s0.closed && s0.mu.None? && s0.scalers == map[] && c.minWorker < c.maxWorker
    requires |s0.queue| == c.capacity && Numbered(s0) && s0.nextId == c.minWorker && s0.downStreak == 0
    ensures s == s0.(scalers := map[0 := ScDone], verdicts := s.verdicts, nextId := s0.nextId + 1,
                     active := s.active, workers := s.workers)
    ensures Numbered(s) && CanReach(c, s, k, credit - INTERVAL)
  {
    assert |s0.active| == c.minWorker;
    s := Observed(c, s0, 0, k, credit, {0});
    FullIsHigh(c);
    s := ScaleMoves(c, s, 0, Decide, k, credit - INTERVAL, {0});
    s := Grown(c, s, ByScaler(0), k, credit - INTERVAL);
    OneMore(s0, s);
    assert s.scalers == map[0 := ScDone];
  }

  // A pool with one worker above the minimum, at rest, with an empty queue.
  ghost predicate Idle(c: Config, s: State, next: Task) {
    AtRest(s, next) && s.queue == [] && |s.active| == c.minWorker + 1 && c.minWorker < c.maxWorker &&
        c.kind.ElasticPool?
  }

  // One more low-water decision, not yet the last of the streak.
  lemma LowOnce(c: Config, s0: State, next: Task, e: Scaler, k: nat, credit: nat) returns (s: State)
    requires CanReach(c, s0, k, credit) && Idle(c, s0, next) && 1 <= k
    requires Spare(s0.scalers, e, e) && s0.downStreak + 1 < c.hold
    ensures Idle(c, s, next + INTERVAL) && Spare(s.scalers, e + 1, e + 1) && s.downStreak == s0.downStreak + 1
    ensures CanReach(c, s, k, credit)
  {
    s := Passed(c, s0, next, INTERVAL, k, credit);
    assert Evaluating(s.scalers) == {};
    s := Observed(c, s, e, k, credit + INTERVAL, {e});
    FullIsHigh(c);
    s := ScaleMoves(c, s, e, Decide, k, credit, {e});
  }

  lemma {:induction false} LowUntil(c: Config, s0: State, next: Task, e: Scaler, k: nat, credit: nat)
    returns (s: State, next': Task, e': Scaler)
    requires CanReach(c, s0, k, credit) && Idle(c, s0, next) && 1 <= k
    requires Spare(s0.scalers, e, e) && s0.downStreak + 1 <= c.hold
    ensures Idle(c, s, next') && Spare(s.scalers, e', e') && s.downStreak + 1 == c.hold
    ensures CanReach(c, s, k, credit)
    decreases c.hold - s0.downStreak
  {
    s, next', e' := s0, next, e;
    if s0.downStreak + 1 < c.hold {
      s := LowOnce(c, s0, next, e, k, credit);
      s, next', e' := LowUntil(c, s, next + INTERVAL, e + 1, k, credit);
    }
  }

  // ------------------------------------------------------------- overlapping evaluations

  datatype Stage = Deciding | Resetting | Taking | Done

  predicate Is(c: Config, pc: ScalePc, x: Stage) {
    match x
    case Deciding => pc == ScDecide(0, c.minWorker + 1)
    case Resetting => pc.ScReset?
    case Taking => pc.ScRetire?
    case Done => pc.ScClose?
  }

  // Of the evaluations lo .. hi-1 those below mid are at stage x and the others at stage y;
  // all earlier ones are over.
  predicate Crowd(c: Config, scalers: Scalers, lo: nat, mid: nat, hi: nat, x: Stage, y: Stage) {
    && lo <= mid <= hi && Spare(scalers, lo, hi)
    && (forall e :: lo <= e < mid ==> e in scalers && Is(c, scalers[e], x))
    && (forall e :: mid <= e < hi ==> e in scalers && Is(c, scalers[e], y))
  }

  lemma CrowdFits(c: Config, scalers: Scalers, lo: nat, mid: nat, hi: nat, x: Stage, y: Stage, k: nat)
    requires Crowd(c, scalers, lo, mid, hi, x, y) && hi - lo <= k
    ensures Fits(scalers, Interval(lo, hi - lo), k)
  {
  }

  lemma CrowdJoins(c: Config, scalers: Scalers, lo: nat, hi: nat)
    requires Crowd(c, scalers, lo, hi, hi, Deciding, Deciding)
    ensures Crowd(c, scalers[hi := ScDecide(0, c.minWorker + 1)], lo, hi + 1, hi + 1, Deciding, Deciding)
  {
  }

  lemma CrowdMoves(c: Config, scalers: Scalers, lo: nat, mid: nat, hi: nat, x: Stage, y: Stage, pc: ScalePc)
    requires Crowd(c, scalers, lo, mid, hi, x, y) && mid < hi && Is(c, pc, x)
    ensures Crowd(c, scalers[mid := pc], lo, mid + 1, hi, x, y)
  {
  }

  lemma JoinedOne(c: Config, s0: State, next: Task, lo: nat, hi: nat, k: nat, credit: nat) returns (s: State)
    requires CanReach(c, s0, k, credit) && Idle(c, s0, next) && hi < lo + k
    requires Crowd(c, s0.scalers, lo, hi, hi, Deciding, Deciding)
    ensures Idle(c, s, next + INTERVAL) && Crowd(c, s.scalers, lo, hi + 1, hi + 1, Deciding, Deciding)
    ensures s.downStreak == s0.downStreak && CanReach(c, s, k, credit)
  {
    s := Passed(c, s0, next, INTERVAL, k, credit);
    SpareFits(s.scalers, lo, hi, k);
    s := Observed(c, s, hi, k, credit + INTERVAL, Interval(lo, hi + 1 - lo));
    CrowdJoins(c, s0.scalers, lo, hi);
  }

  // n evaluations have read minWorker + 1 workers.
  lemma {:induction false} Gathered(c: Config, s0: State, next: Task, lo: nat, hi: nat, n: nat, k: nat, credit: nat)
    returns (s: State, next': Task)
    requires CanReach(c, s0, k, credit) && Idle(c, s0, next) && hi + n <= lo + k
    requires Crowd(c, s0.scalers, lo, hi, hi, Deciding, Deciding)
    ensures Idle(c, s, next') && Crowd(c, s.scalers, lo, hi + n, hi + n, Deciding, Deciding)
    ensures s.downStreak == s0.downStreak && CanReach(c, s, k, credit)
    decreases n
  {
    s, next' := s0, next;
    if n > 0 {
      s := JoinedOne(c, s0, next, lo, hi, k, credit);
      s, next' := Gathered(c, s, next + INTERVAL, lo, hi + 1, n - 1, k, credit);
    }
  }

  // One more evaluation of the crowd takes its next step.
  lemma MovedOne(c: Config, s0: State, a: ScaleStep, lo: nat, mid: nat, hi: nat, x: Stage, y: Stage, k: nat,
      credit: nat)
    returns (s: State)
    requires CanReach(c, s0, k, credit) && Crowd(c, s0.scalers, lo, mid, hi, x, y) && mid < hi <= lo + k
    requires ScaleEnabled(c, s0, mid, a) && !a.ScaleCall? && Is(c, ScaleNext(c, s0, mid, a), x)
    ensures s == ScaleApply(c, s0, mid, a) && CanReach(c, s, k, credit) && Crowd(c, s.scalers, lo, mid + 1, hi, x, y)
  {
    CrowdFits(c, s0.scalers, lo, mid, hi, x, y, k);
    CrowdMoves(c, s0.scalers, lo, mid, hi, x, y, ScaleNext(c, s0, mid, a));
    s := ScaleMoves(c, s0, mid, a, k, credit, Interval(lo, hi - lo));
  }

  // Open, started, and the mutex is free.
  predicate Calm(s: State) { !s.closed && s.mu.None? && s.starter.Started? }

  // All of them decide low-water and end a streak.
  lemma {:induction false} AllDecided(c: Config, s0: State, lo: nat, mid: nat, hi: nat, k: nat, credit: nat)
    returns (s: State)
    requires CanReach(c, s0, k, credit) && Calm(s0) && hi <= lo + k && s0.downStreak + 1 >= c.hold
    requires c.minWorker < c.maxWorker && Crowd(c, s0.scalers, lo, mid, hi, Resetting, Deciding)
    ensures Calm(s) && s.active == s0.active && Crowd(c, s.scalers, lo, hi, hi, Resetting, Deciding)
    ensures CanReach(c, s, k, credit)
    decreases hi - mid
  {
    s := s0;
    if mid < hi {
      FullIsHigh(c);
      s := MovedOne(c, s0, Decide, lo, mid, hi, Resetting, Deciding, k, credit);
      s := AllDecided(c, s, lo, mid + 1, hi, k, credit);
    }
  }

  lemma {:induction false} AllReset(c: Config, s0: State, lo: nat, mid: nat, hi: nat, k: nat, credit: nat)
    returns (s: State)
    requires CanReach(c, s0, k, credit) && Calm(s0) && hi <= lo + k
    requires Crowd(c, s0.scalers, lo, mid, hi, Taking, Resetting)
    ensures Calm(s) && s.active == s0.active && Crowd(c, s.scalers, lo, hi, hi, Taking, Resetting)
    ensures CanReach(c, s, k, credit)
    decreases hi - mid
  {
    s := s0;
    if mid < hi {
      s := MovedOne(c, s0, ResetStreak, lo, mid, hi, Taking, Resetting, k, credit);
      s := AllReset(c, s, lo, mid + 1, hi, k, credit);
    }
  }

  lemma {:induction false} AllTaken(c: Config, s0: State, lo: nat, mid: nat, hi: nat, k: nat, credit: nat)
    returns (s: State)
    requires CanReach(c, s0, k, credit) && Calm(s0) && hi <= lo + k && hi - mid <= |s0.active|
    requires Crowd(c, s0.scalers, lo, mid, hi, Done, Taking)
    ensures Calm(s) && |s.active| == |s0.active| - (hi - mid) && CanReach(c, s, k, credit)
    decreases hi - mid
  {
    s := s0;
    if mid < hi {
      var w :| w in s0.active;
      s := MovedOne(c, s0, TakeVictim(w), lo, mid, hi, Done, Taking, k, credit);
      s := AllTaken(c, s, lo, mid + 1, hi, k, credit);
    }
  }

  lemma Restaged(c: Config, scalers: Scalers, lo: nat, hi: nat, x: Stage, y: Stage, z: Stage)
    requires Crowd(c, scalers, lo, hi, hi, x, y)
    ensures Crowd(c, scalers, lo, lo, hi, z, x)
  {
  }

  // j overlapping evaluations each take a worker.
  lemma Overlapped(c: Config, s0: State, next: Task, lo: nat, j: nat, k: nat, credit: nat) returns (s: State)
    requires CanReach(c, s0, k, credit) && Idle(c, s0, next) && Spare(s0.scalers, lo, lo) && s0.downStreak + 1 == c.hold
    requires j <= k && j <= c.minWorker + 1
    ensures Calm(s) && |s.active| == c.minWorker + 1 - j && CanReach(c, s, k, credit)
  {
    var next';
    s, next' := Gathered(c, s0, next, lo, lo, j, k, credit);
    Restaged(c, s.scalers, lo, lo + j, Deciding, Deciding, Resetting);
    s := AllDecided(c, s, lo, lo, lo + j, k, credit);
    Restaged(c, s.scalers, lo, lo + j, Resetting, Deciding, Taking);
    s := AllReset(c, s, lo, lo, lo + j, k, credit);
    Restaged(c, s.scalers, lo, lo + j, Taking, Resetting, Done);
    s := AllTaken(c, s, lo, lo, lo + j, k, credit);
  }

  // ------------------------------------------------------------- the whole run

  lemma StartedPool(c: Config, k: nat) returns (s: State)
    requires WellFormed(c) && c.kind.ElasticPool? && 1 <= k
    ensures CanReach(c, s, k, 0) && AtRest(s, 0) && Numbered(s) && s.nextId == c.minWorker
    ensures s.queue == [] && s.scalers == map[] && s.downStreak == 0
  {
    var s0 := Init(c, map[]);
    assert Evaluating(s0.scalers) == {};
    assert IsRun(c, [], s0, k, 0);
    assert s0.active == Interval(1, 0);
    s := StartedUp(c, s0, k);
  }

  lemma FullPool(c: Config, k: nat) returns (s: State)
    requires WellFormed(c) && c.kind.ElasticPool? && 1 <= k
    ensures CanReach(c, s, k, INTERVAL + c.capacity) && AtRest(s, INTERVAL + c.capacity) && Numbered(s)
    ensures s.nextId == c.minWorker && |s.queue| == c.capacity && s.scalers == map[] && s.downStreak == 0
  {
    s := StartedPool(c, k);
    s := Passed(c, s, 0, INTERVAL, k, 0);
    s := Filled(c, s, INTERVAL, c.capacity, k, INTERVAL);
  }

  lemma IdlePool(c: Config, k: nat) returns (s: State, next: Task, credit: nat)
    requires WellFormed(c) && c.kind.ElasticPool? && c.minWorker < c.maxWorker && 1 <= k
    ensures CanReach(c, s, k, credit) && Idle(c, s, next) && Spare(s.scalers, 1, 1) && s.downStreak == 0
  {
    s := FullPool(c, k);
    credit, next := c.capacity, INTERVAL + c.capacity;
    s := GrownByOne(c, s, k, INTERVAL + c.capacity);
    assert |s.active| == c.minWorker + 1;
    s := Drained(c, s, next, k, credit);
  }

  // With room for growth, every worker count from minWorker down to the floor for k
  // overlapping evaluations is reached by an open, started pool.
  lemma FloorIsAttained(c: Config, k: nat, j: nat) returns (run: seq<Action>, s: State)
    requires WellFormed(c) && c.kind.ElasticPool? && c.minWorker < c.maxWorker
    requires 1 <= j <= k && j <= c.minWorker + 1
    ensures RunsWithin(c, Init(c, map[]), run, s, k) && Paced(run)
    ensures s.starter.Started? && !s.closed && |s.active| == c.minWorker + 1 - j
  {
    var next, credit, e;
    s, next, credit := IdlePool(c, k);
    s, next, e := LowUntil(c, s, next, 1, k, credit);
    s := Overlapped(c, s, next, e, j, k, credit);
    run :| IsRun(c, run, s, k, credit);
  }

  // Every run of Submit's evaluations, at most k at a time, keeps minWorker workers from
  // the end of Start until Stop.
  ghost predicate KeepsMinimum(c: Config, k: nat)
    requires WellFormed(c)
  {
    forall run, s :: RunsWithin(c, Init(c, map[]), run, s, k) && Paced(run) && s.starter.Started? && !s.closed ==>
      |s.active| >= c.minWorker
  }

  // That holds exactly when evaluations do not overlap or the two limits are equal.
  lemma MinimumKeptIff(c: Config, k: nat)
    requires WellFormed(c) && c.kind.ElasticPool? && 1 <= k
    ensures KeepsMinimum(c, k) <==> k == 1 || c.minWorker == c.maxWorker
  {
    if k == 1 || c.minWorker == c.maxWorker {
      forall run, s | RunsWithin(c, Init(c, map[]), run, s, k) && Paced(run) && s.starter.Started? && !s.closed
        ensures |s.active| >= c.minWorker
      {
        WorkersStayAboveFloor(c, run, s, k);
      }
    } else {
      var run, s := FloorIsAttained(c, k, 2);
    }
  }
}
