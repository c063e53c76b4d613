/**
  How the elastic pool scales.  Its worker set shrinks only after `hold` consecutive
  low-water decisions, and it falls below minWorker only as far as evaluations overlap:
  at most K at a time keep it at minWorker + 1 - K or more.  PoolOverlap shows that this
  bound is attained.
 */
module PoolScaling {
  import opened Basics
  import opened Pool
  import opened PoolSafety

  // Evaluations that are still running.
  function Evaluating(scalers: Scalers): set<Scaler> {
    set e | e in scalers && !scalers[e].ScDone?
  }

  // Evaluations that read a worker count above the minimum and may still retire a worker.
  predicate MayRetire(c: Config, pc: ScalePc) {
    (pc.ScDecide? && pc.n > c.minWorker) || pc.ScReset? || pc.ScRetire?
  }

  function Pending(c: Config, scalers: Scalers): set<Scaler> {
    set e | e in scalers && MayRetire(c, scalers[e])
  }

  // Workers that Start has still to add.
  function Remaining(starter: StartPc): nat {
    if starter.Starting? then starter.remaining else 0
  }

  // A worker leaves the active set by itself only after it was retired or the pool closed.
  ghost predicate ExitInv(workers: map<Worker, WorkerPc>, retired: set<Worker>, done: bool) {
    forall w :: w in workers && !done ==>
      !workers[w].Draining? && (workers[w].Handling? ==> !workers[w].draining) &&
      (workers[w].Removing? ==> w in retired)
  }

  predicate CountsInv(c: Config, scalers: Scalers) {
    && (forall e :: e in scalers && scalers[e].ScDecide? ==> scalers[e].n <= c.maxWorker)
    && (forall e :: e in scalers && (scalers[e].ScReset? || scalers[e].ScRetire?) ==> c.minWorker < c.maxWorker)
  }

  // The lower bound: every evaluation that may still retire a worker is already paid for.
  ghost predicate FloorInv(c: Config, s: State, k: nat) {
    s.closed || Floor(c, s.active, s.starter, s.scalers, k)
  }

  predicate Floor(c: Config, active: set<Worker>, starter: StartPc, scalers: Scalers, k: nat) {
    |active| + Remaining(starter) >= c.minWorker + 1 - k + |Pending(c, scalers)|
  }

  // ------------------------------------------------------- the low-water streak

  function TrailingLows(log: seq<Verdict>): nat {
    if log != [] && log[|log| - 1].Low? then 1 + TrailingLows(log[..|log| - 1]) else 0
  }

  // The `hold` decisions before position `at` were all low-water.
  predicate LowWindow(c: Config, log: seq<Verdict>, at: nat) {
    c.hold <= at <= |log| && forall i :: at - c.hold <= i < at ==> log[i].Low?
  }

  ghost predicate StreakInv(c: Config, scalers: Scalers, log: seq<Verdict>, streak: nat) {
    && streak <= TrailingLows(log)
    && (forall e :: e in scalers && scalers[e].ScReset? ==> LowWindow(c, log, scalers[e].at))
    && (forall e :: e in scalers && scalers[e].ScRetire? ==> LowWindow(c, log, scalers[e].at))
  }

  lemma {:induction false} TrailingAreLow(log: seq<Verdict>, i: nat)
    requires |log| - TrailingLows(log) <= i < |log|
    ensures log[i].Low?
    decreases |log|
  {
    if i < |log| - 1 { TrailingAreLow(log[..|log| - 1], i); }
  }

  lemma {:induction false} TrailingFits(log: seq<Verdict>)
    ensures TrailingLows(log) <= |log|
    decreases |log|
  {
    if log != [] { TrailingFits(log[..|log| - 1]); }
  }

  lemma LogGrows(c: Config, scalers: Scalers, log: seq<Verdict>, streak: nat, v: Verdict, e: Scaler, pc: ScalePc)
    requires WellFormed(c) && StreakInv(c, scalers, log, streak)
    requires pc.ScReset? ==> v.Low? && streak + 1 >= c.hold && pc.at == |log| + 1
    requires !pc.ScRetire?
    ensures StreakInv(c, scalers[e := pc], log + [v], if v.Low? then streak + 1 else 0)
  {
    var grown := log + [v];
    assert grown[..|grown| - 1] == log;
    forall at | LowWindow(c, log, at) ensures LowWindow(c, grown, at) {}
    if pc.ScReset? {
      TrailingFits(grown);
      forall i | pc.at - c.hold <= i < pc.at ensures grown[i].Low? { TrailingAreLow(grown, i); }
    }
  }

  lemma StreakKept(c: Config, s: State, e: Scaler, a: ScaleStep)
    requires WellFormed(c) && StreakInv(c, s.scalers, s.verdicts, s.downStreak) && ScaleEnabled(c, s, e, a)
    ensures var s' := ScaleApply(c, s, e, a); StreakInv(c, s'.scalers, s'.verdicts, s'.downStreak)
  {
    if a.Decide? {
      LogGrows(c, s.scalers, s.verdicts, s.downStreak, Judge(c, s.scalers[e].q, s.scalers[e].n), e,
          ScaleNext(c, s, e, a));
    }
  }

  // ------------------------------------------------------------ the lower bound

  lemma PendingMoves(c: Config, scalers: Scalers, e: Scaler, pc: ScalePc)
    ensures Pending(c, scalers[e := pc]) ==
            (if MayRetire(c, pc) then Pending(c, scalers) + {e} else Pending(c, scalers) - {e})
  {
  }

  lemma PendingAreEvaluating(c: Config, scalers: Scalers)
    ensures |Pending(c, scalers)| <= |Evaluating(scalers)|
  {
    SubsetIsSmaller(Pending(c, scalers), Evaluating(scalers));
  }

  lemma ScaleKeepsCounts(c: Config, s: State, e: Scaler, a: ScaleStep)
    requires WellFormed(c) && CountsInv(c, s.scalers) && |s.active| <= c.maxWorker && ScaleEnabled(c, s, e, a)
    ensures CountsInv(c, ScaleApply(c, s, e, a).scalers)
  {
  }

  lemma ScaleKeepsFloor(c: Config, s: State, e: Scaler, a: ScaleStep, k: nat)
    requires WellFormed(c) && FloorInv(c, s, k) && ScaleEnabled(c, s, e, a)
    requires |Pending(c, ScaleApply(c, s, e, a).scalers)| <= k
    ensures FloorInv(c, ScaleApply(c, s, e, a), k)
  {
    PendingMoves(c, s.scalers, e, ScaleNext(c, s, e, a));
  }

  lemma AdderKeepsPending(c: Config, scalers: Scalers, o: Owner, next: Option<AddPc>)
    requires o.ByScaler? ==> o.e in scalers && scalers[o.e].ScAdd?
    ensures Pending(c, ScalersNext(scalers, o, next)) == Pending(c, scalers)
    ensures CountsInv(c, scalers) ==> CountsInv(c, ScalersNext(scalers, o, next))
  {
  }

  // addWorker found the pool full: no evaluation is pending unless there is room below maxWorker.
  lemma FullPoolHasFloor(c: Config, active: set<Worker>, scalers: Scalers, k: nat)
    requires WellFormed(c) && CountsInv(c, scalers) && |active| >= c.maxWorker
    requires 1 <= k && |Pending(c, scalers)| <= k
    ensures |active| >= c.minWorker + 1 - k + |Pending(c, scalers)|
  {
    if e :| e in Pending(c, scalers) {
      assert c.minWorker < c.maxWorker;
    } else {
      assert Pending(c, scalers) == {};
    }
  }

  lemma AddKeepsFloor(c: Config, s: State, o: Owner, a: AddStep, k: nat)
    requires WellFormed(c) && CountsInv(c, s.scalers) && FloorInv(c, s, k)
    requires AddEnabled(c, s, o, a) && s.nextId + 1 !in s.active
    requires 1 <= k && |Pending(c, s.scalers)| <= k
    ensures FloorInv(c, AddApply(c, s, o, a), k)
  {
    AdderKeepsPending(c, s.scalers, o, AddNext(s, a));
    if a.Launch? && |s.active| >= c.maxWorker {
      FullPoolHasFloor(c, s.active, s.scalers, k);
    }
  }

  ghost predicate ScaleInv(c: Config, s: State) {
    && ExitInv(s.workers, s.retired, s.done)
    && CountsInv(c, s.scalers)
    && StreakInv(c, s.scalers, s.verdicts, s.downStreak)
  }

  lemma SubmitKeepsScale(c: Config, s: State, t: Task, a: SubmitStep)
    requires ScaleInv(c, s) && SubmitEnabled(c, s, t, a)
    ensures ScaleInv(c, SubmitApply(c, s, t, a))
  {
  }

  lemma WorkerKeepsScale(c: Config, s: State, w: Worker, a: WorkerStep)
    requires ScaleInv(c, s) && WorkerEnabled(c, s, w, a)
    ensures ScaleInv(c, WorkerApply(c, s, w, a))
  {
  }

  lemma StopKeepsScale(c: Config, s: State, k: Stopper, a: StopStep)
    requires ScaleInv(c, s) && StopEnabled(c, s, k, a)
    ensures ScaleInv(c, StopApply(c, s, k, a))
  {
  }

  lemma AddKeepsExit(c: Config, s: State, o: Owner, a: AddStep)
    requires ExitInv(s.workers, s.retired, s.done) && AddEnabled(c, s, o, a)
    ensures var s' := AddApply(c, s, o, a); ExitInv(s'.workers, s'.retired, s'.done)
  {
    assert ExitInv(s.workers[s.nextId + 1 := Looping], s.retired, s.done);
  }

  lemma AdderKeepsStreak(c: Config, scalers: Scalers, log: seq<Verdict>, streak: nat, o: Owner, next: Option<AddPc>)
    requires StreakInv(c, scalers, log, streak)
    ensures StreakInv(c, ScalersNext(scalers, o, next), log, streak)
  {
  }

  lemma AddKeepsCounts(c: Config, s: State, o: Owner, a: AddStep)
    requires CountsInv(c, s.scalers) && AddEnabled(c, s, o, a)
    ensures CountsInv(c, AddApply(c, s, o, a).scalers)
  {
    AdderKeepsPending(c, s.scalers, o, AddNext(s, a));
  }

  lemma AddKeepsStreak(c: Config, s: State, o: Owner, a: AddStep)
    requires StreakInv(c, s.scalers, s.verdicts, s.downStreak) && AddEnabled(c, s, o, a)
    ensures var s' := AddApply(c, s, o, a); StreakInv(c, s'.scalers, s'.verdicts, s'.downStreak)
  {
    AdderKeepsStreak(c, s.scalers, s.verdicts, s.downStreak, o, AddNext(s, a));
  }

  lemma AddKeepsScale(c: Config, s: State, o: Owner, a: AddStep)
    requires ScaleInv(c, s) && AddEnabled(c, s, o, a)
    ensures ScaleInv(c, AddApply(c, s, o, a))
  {
    AddKeepsExit(c, s, o, a);
    AddKeepsCounts(c, s, o, a);
    AddKeepsStreak(c, s, o, a);
  }

  lemma ScaleKeepsExit(c: Config, s: State, e: Scaler, a: ScaleStep)
    requires WellFormed(c) && ExitInv(s.workers, s.retired, s.done) && ScaleEnabled(c, s, e, a)
    ensures var s' := ScaleApply(c, s, e, a); ExitInv(s'.workers, s'.retired, s'.done)
  {
    ScaleRetires(c, s, e, a);
  }

  lemma ScaleRetires(c: Config, s: State, e: Scaler, a: ScaleStep)
    requires WellFormed(c) && ScaleEnabled(c, s, e, a)
    ensures var s' := ScaleApply(c, s, e, a);
            s'.workers == s.workers && s'.done == s.done && s.retired <= s'.retired
  {
    match a
    case Decide =>
    case CloseRetire =>
    case _ =>
  }

  lemma ScaleKeepsScale(c: Config, s: State, e: Scaler, a: ScaleStep)
    requires WellFormed(c) && |s.active| <= c.maxWorker && ScaleInv(c, s) && ScaleEnabled(c, s, e, a)
    ensures ScaleInv(c, ScaleApply(c, s, e, a))
  {
    ScaleKeepsExit(c, s, e, a);
    ScaleKeepsCounts(c, s, e, a);
    StreakKept(c, s, e, a);
  }

  lemma StepKeepsScaleInv(c: Config, s: State, a: Action)
    requires WellFormed(c) && |s.active| <= c.maxWorker && ScaleInv(c, s) && Enabled(c, s, a)
    ensures ScaleInv(c, Apply(c, s, a))
  {
    match a
    case OfSubmit(t, x) => SubmitKeepsScale(c, s, t, x);
    case OfWorker(w, x) => WorkerKeepsScale(c, s, w, x);
    case OfStop(k, x) => StopKeepsScale(c, s, k, x);
    case OfAdd(o, x) => AddKeepsScale(c, s, o, x);
    case OfScale(e, x) => ScaleKeepsScale(c, s, e, x);
  }

  // What holds of an open pool's active set, for the steps that are not part of scaling.
  ghost predicate ActiveInv(s: State) {
    && s.active !! s.retired
    && s.nextId + 1 !in s.active
    && ExitInv(s.workers, s.retired, s.done)
    && DoneInv(s.stops, s.closed, s.done)
  }

  lemma ActiveFromInv(c: Config, s: State)
    requires Inv(c, s) && c.kind.ElasticPool? && ScaleInv(c, s)
    ensures ActiveInv(s)
  {
  }

  lemma SubmitKeepsActive(c: Config, s: State, t: Task, a: SubmitStep)
    requires SubmitEnabled(c, s, t, a)
    ensures var s' := SubmitApply(c, s, t, a);
            s'.active == s.active && s'.scalers == s.scalers && s'.starter == s.starter && s'.closed == s.closed
  {
  }

  // A worker removes itself from the active set only if it is no longer there.
  lemma WorkerKeepsActive(c: Config, s: State, w: Worker, a: WorkerStep)
    requires ActiveInv(s) && !s.closed && WorkerEnabled(c, s, w, a)
    ensures var s' := WorkerApply(c, s, w, a);
            s'.active == s.active && s'.scalers == s.scalers && s'.starter == s.starter
  {
  }

  lemma StopKeepsActive(c: Config, s: State, k: Stopper, a: StopStep)
    requires DoneInv(s.stops, s.closed, s.done) && StopEnabled(c, s, k, a)
    ensures var s' := StopApply(c, s, k, a);
            !s'.closed ==> !s.closed && s'.active == s.active && s'.scalers == s.scalers && s'.starter == s.starter
  {
  }

  lemma AddKeepsActive(c: Config, s: State, o: Owner, a: AddStep)
    requires AddEnabled(c, s, o, a)
    ensures s.active <= AddApply(c, s, o, a).active
  {
  }

  lemma SubmitKeepsFloor(c: Config, s: State, t: Task, a: SubmitStep, k: nat)
    requires FloorInv(c, s, k) && SubmitEnabled(c, s, t, a)
    ensures FloorInv(c, SubmitApply(c, s, t, a), k)
  {
    SubmitKeepsActive(c, s, t, a);
  }

  lemma WorkerKeepsFloor(c: Config, s: State, w: Worker, a: WorkerStep, k: nat)
    requires ActiveInv(s) && FloorInv(c, s, k) && WorkerEnabled(c, s, w, a)
    ensures FloorInv(c, WorkerApply(c, s, w, a), k)
  {
    if !s.closed { WorkerKeepsActive(c, s, w, a); }
  }

  lemma StopKeepsFloor(c: Config, s: State, l: Stopper, a: StopStep, k: nat)
    requires DoneInv(s.stops, s.closed, s.done) && FloorInv(c, s, k) && StopEnabled(c, s, l, a)
    ensures FloorInv(c, StopApply(c, s, l, a), k)
  {
    StopKeepsActive(c, s, l, a);
  }

  lemma StepKeepsFloor(c: Config, s: State, a: Action, k: nat)
    requires WellFormed(c) && ActiveInv(s) && CountsInv(c, s.scalers) && FloorInv(c, s, k) && Enabled(c, s, a)
    requires 1 <= k && |Pending(c, s.scalers)| <= k && |Pending(c, Apply(c, s, a).scalers)| <= k
    ensures FloorInv(c, Apply(c, s, a), k)
  {
    match a
    case OfSubmit(t, x) => SubmitKeepsFloor(c, s, t, x, k);
    case OfWorker(w, x) => WorkerKeepsFloor(c, s, w, x, k);
    case OfStop(l, x) => StopKeepsFloor(c, s, l, x, k);
    case OfAdd(o, x) => AddKeepsFloor(c, s, o, x, k);
    case OfScale(e, x) => ScaleKeepsFloor(c, s, e, x, k);
  }

  // A run on which never more than k evaluations are in progress together.
  ghost predicate RunsWithin(c: Config, s: State, run: seq<Action>, s': State, k: nat)
    requires WellFormed(c)
    decreases |run|
  {
    && |Evaluating(s.scalers)| <= k
    && if run == [] then s == s'
       else Enabled(c, s, run[0]) && RunsWithin(c, Apply(c, s, run[0]), run[1..], s', k)
  }

  // A pool that cannot grow past its minimum never reads a count above it.
  lemma NothingPending(c: Config, scalers: Scalers)
    requires CountsInv(c, scalers) && c.minWorker == c.maxWorker
    ensures Pending(c, scalers) == {}
  {
  }

  // How many evaluations may be pending at a time: k of them, or none when minWorker and
  // maxWorker are equal.
  predicate Bounds(c: Config, k: nat, pending: nat) {
    1 <= pending && (k <= pending || c.minWorker == c.maxWorker)
  }

  lemma PendingWithin(c: Config, scalers: Scalers, k: nat, pending: nat)
    requires CountsInv(c, scalers) && |Evaluating(scalers)| <= k && Bounds(c, k, pending)
    ensures |Pending(c, scalers)| <= pending
  {
    PendingAreEvaluating(c, scalers);
    if c.minWorker == c.maxWorker { NothingPending(c, scalers); }
  }

  lemma {:induction false} RunKeepsFloor(c: Config, s: State, run: seq<Action>, s': State, k: nat, pending: nat)
    requires Inv(c, s) && c.kind.ElasticPool? && ScaleInv(c, s) && FloorInv(c, s, pending)
    requires Bounds(c, k, pending) && RunsWithin(c, s, run, s', k)
    ensures FloorInv(c, s', pending)
    decreases |run|
  {
    if run != [] {
      var next := Apply(c, s, run[0]);
      StepKeepsInv(c, s, run[0]);
      StepKeepsScaleInv(c, s, run[0]);
      assert |Evaluating(next.scalers)| <= k;
      ActiveFromInv(c, s);
      PendingWithin(c, s.scalers, k, pending);
      PendingWithin(c, next.scalers, k, pending);
      StepKeepsFloor(c, s, run[0], pending);
      RunKeepsFloor(c, next, run[1..], s', k, pending);
    }
  }

  // With at most k overlapping evaluations, an open pool that has finished Start runs at
  // least minWorker + 1 - k workers; when evaluations do not overlap, or the two limits are
  // equal, at least minWorker.
  lemma WorkersStayAboveFloor(c: Config, run: seq<Action>, s: State, k: nat)
    requires WellFormed(c) && c.kind.ElasticPool? && 1 <= k
    requires RunsWithin(c, Init(c, map[]), run, s, k)
    requires s.starter.Started? && !s.closed
    ensures |s.active| >= c.minWorker + 1 - k
    ensures c.minWorker == c.maxWorker ==> |s.active| >= c.minWorker
  {
    var s0 := Init(c, map[]);
    var pending := if c.minWorker == c.maxWorker then 1 else k;
    InitInv(c, map[]);
    assert Pending(c, s0.scalers) == {};
    RunKeepsFloor(c, s0, run, s, k, pending);
  }

  lemma {:induction false} RunKeepsScaleInv(c: Config, s: State, run: seq<Action>, s': State)
    requires Inv(c, s) && ScaleInv(c, s) && Runs(c, s, run, s')
    ensures Inv(c, s') && ScaleInv(c, s')
    decreases |run|
  {
    if run != [] {
      StepKeepsInv(c, s, run[0]);
      StepKeepsScaleInv(c, s, run[0]);
      RunKeepsScaleInv(c, Apply(c, s, run[0]), run[1..], s');
    }
  }

  lemma ScaleShrinks(c: Config, s: State, e: Scaler, a: ScaleStep)
    requires WellFormed(c) && ScaleEnabled(c, s, e, a) && !(s.active <= ScaleApply(c, s, e, a).active)
    ensures a.TakeVictim? && s.scalers[e].ScRetire? && a.w in s.active
    ensures ScaleApply(c, s, e, a).active == s.active - {a.w}
  {
  }

  lemma OthersDoNotShrink(c: Config, s: State, a: Action)
    requires WellFormed(c) && ActiveInv(s) && Enabled(c, s, a) && !a.OfScale?
    ensures Apply(c, s, a).closed || s.active <= Apply(c, s, a).active
  {
    match a
    case OfSubmit(t, x) => SubmitKeepsActive(c, s, t, x);
    case OfWorker(w, x) => if !s.closed { WorkerKeepsActive(c, s, w, x); }
    case OfStop(l, x) => StopKeepsActive(c, s, l, x);
    case OfAdd(o, x) => AddKeepsActive(c, s, o, x);
  }

  lemma ShrinkStep(c: Config, s: State, a: Action)
    requires WellFormed(c) && ActiveInv(s) && Enabled(c, s, a) && !Apply(c, s, a).closed
    requires !(s.active <= Apply(c, s, a).active)
    ensures a.OfScale? && s.scalers[a.e].ScRetire? && |Apply(c, s, a).active| == |s.active| - 1
  {
    if a.OfScale? {
      ScaleShrinks(c, s, a.e, a.scale);
    } else {
      OthersDoNotShrink(c, s, a);
    }
  }

  // An open pool shrinks by exactly one worker at a time, and only on behalf of an
  // evaluation whose own decision ended a window of `hold` consecutive low-water decisions.
  lemma ShrinksOnlyAfterHold(c: Config, run: seq<Action>, s: State, a: Action)
    requires WellFormed(c) && c.kind.ElasticPool? && Runs(c, Init(c, map[]), run, s)
    requires Enabled(c, s, a) && !Apply(c, s, a).closed
    requires !(s.active <= Apply(c, s, a).active)
    ensures |Apply(c, s, a).active| == |s.active| - 1
    ensures a.OfScale? && s.scalers[a.e].ScRetire? && LowWindow(c, s.verdicts, s.scalers[a.e].at)
  {
    InitInv(c, map[]);
    RunKeepsScaleInv(c, Init(c, map[]), run, s);
    ActiveFromInv(c, s);
    ShrinkStep(c, s, a);
  }

  // ------------------------------------------------------- one window, one worker

  function Lows(log: seq<Verdict>): nat {
    if log == [] then 0 else Lows(log[..|log| - 1]) + if log[|log| - 1].Low? then 1 else 0
  }

  // The workers that scaling has taken out of the active set along a run.
  function Shrinks(run: seq<Action>): nat {
    if run == [] then 0 else (if run[0].OfScale? && run[0].scale.TakeVictim? then 1 else 0) + Shrinks(run[1..])
  }

  function Retirees(scalers: Scalers): set<Scaler> {
    set e | e in scalers && scalers[e].ScRetire?
  }

  // n * hold
  function Owed(hold: nat, n: nat): nat {
    if n == 0 then 0 else hold + Owed(hold, n - 1)
  }

  lemma {:induction false} OwedIs(hold: nat, n: nat, more: nat)
    ensures n * hold <= Owed(hold, n + more)
    decreases n + more
  {
    if n > 0 {
      OwedIs(hold, n - 1, more);
      assert n * hold == (n - 1) * hold + hold;
    }
  }

  // Every worker taken, or about to be taken, has `hold` low-water decisions of its own;
  // those of the running streak belong to nobody yet.
  ghost predicate Funded(c: Config, scalers: Scalers, log: seq<Verdict>, streak: nat, taken: nat) {
    && Owed(c.hold, taken + |Retirees(scalers)|) + streak <= Lows(log)
    && (forall e :: e in scalers && scalers[e].ScReset? ==> streak >= c.hold)
  }

  // The only evaluation in progress is e.
  predicate Alone(scalers: Scalers, e: Scaler) {
    forall f :: f in scalers && f != e ==> scalers[f].ScDone?
  }

  lemma AloneWithin(scalers: Scalers, e: Scaler)
    requires |Evaluating(scalers)| <= 1 && e in Evaluating(scalers)
    ensures Alone(scalers, e)
  {
    forall f | f in scalers && f != e ensures scalers[f].ScDone? {
      if !scalers[f].ScDone? {
        assert {e, f} <= Evaluating(scalers);
        SubsetIsSmaller({e, f}, Evaluating(scalers));
      }
    }
  }

  lemma RetireesAlone(scalers: Scalers, e: Scaler, pc: ScalePc)
    requires Alone(scalers, e)
    ensures |Retirees(scalers[e := pc])| == if pc.ScRetire? then 1 else 0
    ensures |Retirees(scalers)| == if e in scalers && scalers[e].ScRetire? then 1 else 0
  {
    assert Retirees(scalers[e := pc]) == if pc.ScRetire? then {e} else {};
    assert Retirees(scalers) == if e in scalers && scalers[e].ScRetire? then {e} else {};
  }

  lemma LowsGrow(log: seq<Verdict>, v: Verdict)
    ensures Lows(log + [v]) == Lows(log) + if v.Low? then 1 else 0
  {
    assert (log + [v])[..|log|] == log;
  }

  lemma FundedMoves(c: Config, scalers: Scalers, log: seq<Verdict>, streak: nat, taken: nat, e: Scaler, pc: ScalePc,
                    log': seq<Verdict>, streak': nat, taken': nat)
    requires Funded(c, scalers, log, streak, taken) && Alone(scalers, e)
    requires var was, now := (if e in scalers && scalers[e].ScRetire? then 1 else 0), (if pc.ScRetire? then 1 else 0);
             Owed(c.hold, taken' + now) + streak' + Lows(log) <= Owed(c.hold, taken + was) + streak + Lows(log')
    requires pc.ScReset? ==> streak' >= c.hold
    ensures Funded(c, scalers[e := pc], log', streak', taken')
  {
    RetireesAlone(scalers, e, pc);
  }

  lemma ScaleKeepsFunded(c: Config, s: State, e: Scaler, a: ScaleStep, taken: nat)
    requires WellFormed(c) && Funded(c, s.scalers, s.verdicts, s.downStreak, taken) && ScaleEnabled(c, s, e, a)
    requires Alone(s.scalers, e)
    ensures var s' := ScaleApply(c, s, e, a);
            Funded(c, s'.scalers, s'.verdicts, s'.downStreak, taken + if a.TakeVictim? then 1 else 0)
  {
    var s' := ScaleApply(c, s, e, a);
    var pc, taken' := ScaleNext(c, s, e, a), taken + if a.TakeVictim? then 1 else 0;
    if a.Decide? {
      LowsGrow(s.verdicts, Judge(c, s.scalers[e].q, s.scalers[e].n));
    }
    FundedMoves(c, s.scalers, s.verdicts, s.downStreak, taken, e, pc, s'.verdicts, s'.downStreak, taken');
  }

  lemma AdderKeepsRetirees(scalers: Scalers, o: Owner, next: Option<AddPc>)
    requires o.ByScaler? ==> o.e in scalers && scalers[o.e].ScAdd?
    ensures Retirees(ScalersNext(scalers, o, next)) == Retirees(scalers)
  {
  }

  lemma AdderKeepsFunded(c: Config, s: State, o: Owner, a: AddStep, taken: nat)
    requires Funded(c, s.scalers, s.verdicts, s.downStreak, taken) && AddEnabled(c, s, o, a)
    ensures var s' := AddApply(c, s, o, a); Funded(c, s'.scalers, s'.verdicts, s'.downStreak, taken)
  {
    AddKeepsLog(c, s, o, a);
    AdderKeepsRetirees(s.scalers, o, AddNext(s, a));
  }

  lemma SubmitKeepsLog(c: Config, s: State, t: Task, a: SubmitStep)
    requires SubmitEnabled(c, s, t, a)
    ensures var s' := SubmitApply(c, s, t, a);
            s'.scalers == s.scalers && s'.verdicts == s.verdicts && s'.downStreak == s.downStreak
  {
  }

  lemma WorkerKeepsLog(c: Config, s: State, w: Worker, a: WorkerStep)
    requires WorkerEnabled(c, s, w, a)
    ensures var s' := WorkerApply(c, s, w, a);
            s'.scalers == s.scalers && s'.verdicts == s.verdicts && s'.downStreak == s.downStreak
  {
  }

  lemma StopKeepsLog(c: Config, s: State, k: Stopper, a: StopStep)
    requires StopEnabled(c, s, k, a)
    ensures var s' := StopApply(c, s, k, a);
            s'.scalers == s.scalers && s'.verdicts == s.verdicts && s'.downStreak == s.downStreak
  {
  }

  lemma AddKeepsLog(c: Config, s: State, o: Owner, a: AddStep)
    requires AddEnabled(c, s, o, a)
    ensures var s' := AddApply(c, s, o, a);
            && s'.scalers == ScalersNext(s.scalers, o, AddNext(s, a))
            && s'.verdicts == s.verdicts && s'.downStreak == s.downStreak
  {
  }

  lemma StepKeepsFunded(c: Config, s: State, a: Action, taken: nat)
    requires WellFormed(c) && Funded(c, s.scalers, s.verdicts, s.downStreak, taken) && Enabled(c, s, a)
    requires |Evaluating(s.scalers)| <= 1 && |Evaluating(Apply(c, s, a).scalers)| <= 1
    ensures var s' := Apply(c, s, a); Funded(c, s'.scalers, s'.verdicts, s'.downStreak, taken + Shrinks([a]))
  {
    assert [a][1..] == [];
    match a
    case OfAdd(o, x) => AdderKeepsFunded(c, s, o, x, taken);
    case OfScale(e, x) =>
      ScalerIsAlone(c, s, e, x);
      ScaleKeepsFunded(c, s, e, x, taken);
    case OfSubmit(t, x) => SubmitKeepsLog(c, s, t, x);
    case OfWorker(w, x) => WorkerKeepsLog(c, s, w, x);
    case OfStop(k, x) => StopKeepsLog(c, s, k, x);
  }

  lemma ScalerIsAlone(c: Config, s: State, e: Scaler, a: ScaleStep)
    requires WellFormed(c) && ScaleEnabled(c, s, e, a)
    requires |Evaluating(s.scalers)| <= 1 && |Evaluating(ScaleApply(c, s, e, a).scalers)| <= 1
    ensures Alone(s.scalers, e)
  {
    if a.ScaleCall? {
      var after := s.scalers[e := ScCheck];
      assert ScaleApply(c, s, e, a).scalers == after;
      AloneWithin(after, e);
      assert forall f :: f in s.scalers && f != e ==> f in after && after[f] == s.scalers[f];
    } else {
      AloneWithin(s.scalers, e);
    }
  }

  lemma {:induction false} RunKeepsFunded(c: Config, s: State, run: seq<Action>, s': State, taken: nat)
    requires WellFormed(c) && RunsWithin(c, s, run, s', 1) && Funded(c, s.scalers, s.verdicts, s.downStreak, taken)
    ensures Funded(c, s'.scalers, s'.verdicts, s'.downStreak, taken + Shrinks(run))
    decreases |run|
  {
    if run != [] {
      var next := Apply(c, s, run[0]);
      assert RunsWithin(c, next, run[1..], s', 1);
      StepKeepsFunded(c, s, run[0], taken);
      assert Shrinks(run) == Shrinks([run[0]]) + Shrinks(run[1..]) by {
        assert [run[0]][1..] == [];
      }
      RunKeepsFunded(c, next, run[1..], s', taken + Shrinks([run[0]]));
    }
  }

  // When evaluations do not overlap, no low-water decision pays for two workers: taking m
  // workers needs m * hold of them.
  lemma WindowsAreDisjoint(c: Config, run: seq<Action>, s: State)
    requires WellFormed(c) && RunsWithin(c, Init(c, map[]), run, s, 1)
    ensures Shrinks(run) * c.hold <= Lows(s.verdicts)
  {
    StartsFunded(c, Init(c, map[]));
    RunKeepsFunded(c, Init(c, map[]), run, s, 0);
    FundedPays(c, s.scalers, s.verdicts, s.downStreak, Shrinks(run));
  }

  lemma StartsFunded(c: Config, s0: State)
    requires s0 == Init(c, map[])
    ensures Funded(c, s0.scalers, s0.verdicts, s0.downStreak, 0)
  {
    assert Retirees(s0.scalers) == {};
  }

  lemma FundedPays(c: Config, scalers: Scalers, log: seq<Verdict>, streak: nat, taken: nat)
    requires Funded(c, scalers, log, streak, taken)
    ensures taken * c.hold <= Lows(log)
  {
    OwedIs(c.hold, taken, |Retirees(scalers)|);
  }
}
