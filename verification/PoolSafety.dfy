/**
  Safety of the pools over every interleaving: no accepted task is lost or repeated, a
  refused one never runs, Stop returns on a quiet empty pool, no channel is closed twice.
 */
module PoolSafety {
  import opened Basics
  import opened Pool

  predicate NoDuplicates<T(==)>(q: seq<T>) {
    forall i, j :: 0 <= i < j < |q| ==> q[i] != q[j]
  }

  predicate Successful(p: SubmitPc) {
    (p.Leaving? || p.Returned?) && p.outcome.Accepted?
  }

  predicate WasAccepted(s: State, t: Task) {
    t in s.submits && Successful(s.submits[t])
  }

  // ------------------------------------------------- one place for each task

  type Places = map<Task, Place>

  // Each accepted task has one place; the queue and the log of handled tasks agree with it.
  ghost predicate QueueInv(submits: map<Task, SubmitPc>, place: Places, queue: seq<Task>, handled: seq<Task>) {
    && (forall t :: t in place <==> t in submits && Successful(submits[t]))
    && NoDuplicates(queue)
    && (forall t :: t in queue <==> t in place && place[t].InQueue?)
    && NoDuplicates(handled)
    && (forall t :: t in handled <==> t in place && place[t].Finished?)
  }

  // A worker holds a task exactly when that is the task's place.
  ghost predicate WorkerHands(place: Places, workers: map<Worker, WorkerPc>) {
    && (forall w :: w in workers && workers[w].Handling? ==>
          workers[w].task in place && place[workers[w].task] == WithWorker(w))
    && (forall t :: t in place && place[t].WithWorker? ==>
          place[t].w in workers && workers[place[t].w].Handling? && workers[place[t].w].task == t)
  }

  ghost predicate StopperHands(place: Places, stops: map<Stopper, StopPc>) {
    && (forall k :: k in stops && stops[k].SweepHandling? ==>
          stops[k].task in place && place[stops[k].task] == WithStopper(k))
    && (forall t :: t in place && place[t].WithStopper? ==>
          place[t].k in stops && stops[place[t].k].SweepHandling? && stops[place[t].k].task == t)
  }

  ghost predicate TaskInv(s: State) {
    && QueueInv(s.submits, s.place, s.queue, s.handled)
    && WorkerHands(s.place, s.workers)
    && StopperHands(s.place, s.stops)
  }

  // ------------------------------------------------------ the submit lock

  type Submits = map<Task, SubmitPc>
  type Stops = map<Stopper, StopPc>
  type Scalers = map<Scaler, ScalePc>

  predicate Reading(p: SubmitPc) { p.Locked? || p.Ready? || p.Leaving? }

  predicate Writing(p: StopPc) { p.Waiting? || p.Sweeping? || p.SweepHandling? }

  ghost predicate LockInv(submits: Submits, stops: Stops, readers: set<Task>, writer: Option<Stopper>) {
    && (forall t :: t in readers <==> t in submits && Reading(submits[t]))
    && (forall k :: writer == Some(k) <==> k in stops && Writing(stops[k]))
    && (writer.Some? ==> readers == {})
  }

  // ---------------------------------------------------------- the pool mutex

  predicate AddHolds(p: AddPc) { p.AddLocked? || p.AddReady? }

  predicate HoldsMu(starter: StartPc, scalers: Scalers, stops: Stops, o: Owner) {
    match o
    case ByStarter => starter.Starting? && starter.remaining > 0 && AddHolds(starter.add)
    case ByScaler(e) => e in scalers && scalers[e].ScAdd? && AddHolds(scalers[e].add)
    case ByStopper(k) => k in stops && stops[k].RetireLoop?
  }

  // The mutex has an owner exactly when that owner is inside its critical section.
  ghost predicate MuInv(starter: StartPc, scalers: Scalers, stops: Stops, mu: Option<Owner>) {
    forall o :: HoldsMu(starter, scalers, stops, o) <==> mu == Some(o)
  }

  // --------------------------------------------------------- closing the pool

  // The done channel is closed by the one Stop call that won the swap on closed.
  ghost predicate DoneInv(stops: Stops, closed: bool, done: bool) {
    && (done ==> closed)
    && (forall k :: k in stops && !stops[k].Closing? ==> closed)
    && (forall k :: k in stops && stops[k].ClosingDone? ==> !done)
    && (forall k, l :: k in stops && l in stops && stops[k].ClosingDone? && stops[l].ClosingDone? ==> k == l)
  }

  predicate KindInv(c: Config, starter: StartPc, scalers: Scalers, stops: Stops) {
    && (c.kind.FixedPool? ==> starter.Started? && scalers == map[])
    && (forall k :: k in stops && (stops[k].Retiring? || stops[k].RetireLoop?) ==> c.kind.ElasticPool?)
  }

  // Stop is past its own critical section on mu (the fixed pool has none).
  predicate PastMu(p: StopPc) { p.RetireLoop? || p.Fencing? || PastFence(p) }
  predicate PastFence(p: StopPc) { p.Waiting? || PastWait(p) }
  predicate PastWait(p: StopPc) { p.Sweeping? || p.SweepHandling? || p.Stopped? }

  // Once a Stop has held mu, nobody is about to start a worker.
  ghost predicate LaunchInv(starter: StartPc, scalers: Scalers, stops: Stops) {
    (exists k :: k in stops && PastMu(stops[k])) ==> forall o :: !Adding(starter, scalers, o, AddReady)
  }

  // Once a Stop has held the write lock, nobody is about to enqueue.
  ghost predicate FenceInv(submits: Submits, stops: Stops) {
    (exists k :: k in stops && PastFence(stops[k])) ==> forall t :: t in submits ==> !submits[t].Ready?
  }

  // Once a Stop has waited, no worker is left.
  ghost predicate WaitInv(workers: map<Worker, WorkerPc>, stops: Stops) {
    (exists k :: k in stops && PastWait(stops[k])) ==> AllExited(workers)
  }

  // Once a Stop has returned, the queue is empty and no other Stop holds a task.
  ghost predicate EmptyInv(queue: seq<Task>, stops: Stops) {
    (exists k :: k in stops && stops[k].Stopped?) ==>
      queue == [] && forall l :: l in stops ==> !stops[l].SweepHandling?
  }

  // -------------------------------------------------------- retire channels

  // An open retire channel is closed either by Stop, while its worker is in the active set,
  // or by the one evaluation that took the worker out of that set.
  ghost predicate RetireInv(c: Config, active: set<Worker>, retired: set<Worker>, nextId: nat,
                            workers: map<Worker, WorkerPc>, scalers: Scalers)
  {
    && active !! retired
    && active <= workers.Keys
    && retired <= workers.Keys
    && (c.kind.ElasticPool? ==> forall w :: w in workers ==> w <= nextId)
    && (forall e :: e in scalers && scalers[e].ScClose? ==>
          scalers[e].victim in workers && scalers[e].victim !in active && scalers[e].victim !in retired)
    && (forall e, f :: e in scalers && f in scalers && e != f && scalers[e].ScClose? && scalers[f].ScClose? ==>
          scalers[e].victim != scalers[f].victim)
    && |active| <= c.maxWorker
  }

  ghost predicate SyncInv(c: Config, s: State) {
    && LockInv(s.submits, s.stops, s.readers, s.writer)
    && MuInv(s.starter, s.scalers, s.stops, s.mu)
    && DoneInv(s.stops, s.closed, s.done)
    && KindInv(c, s.starter, s.scalers, s.stops)
    && LaunchInv(s.starter, s.scalers, s.stops)
    && FenceInv(s.submits, s.stops)
    && WaitInv(s.workers, s.stops)
    && EmptyInv(s.queue, s.stops)
    && RetireInv(c, s.active, s.retired, s.nextId, s.workers, s.scalers)
    && !s.panicked
  }

  ghost predicate Inv(c: Config, s: State) {
    WellFormed(c) && TaskInv(s) && SyncInv(c, s)
  }

  // ------------------------------------------------------------ preservation

  lemma InitInv(c: Config, ws: map<Worker, WorkerPc>)
    requires WellFormed(c) && Launched(c, ws)
    ensures Inv(c, Init(c, ws))
  {
  }

  lemma PutInQueue(subs: map<Task, SubmitPc>, p: Places, q: seq<Task>, h: seq<Task>, t: Task, pc: SubmitPc)
    requires QueueInv(subs, p, q, h)
    requires t !in p && Successful(pc)
    ensures QueueInv(subs[t := pc], p[t := InQueue], q + [t], h)
  {
    assert t !in q;
    assert forall u :: u in q + [t] <==> u in q || u == t;
  }

  lemma TakeFromQueue(subs: map<Task, SubmitPc>, p: Places, q: seq<Task>, h: seq<Task>, x: Place)
    requires QueueInv(subs, p, q, h) && q != []
    requires x.WithWorker? || x.WithStopper?
    ensures QueueInv(subs, p[q[0] := x], q[1..], h)
  {
    assert q == [q[0]] + q[1..];
    assert q[0] in q;
    assert q[0] !in q[1..];
    assert forall u :: u in q <==> u == q[0] || u in q[1..];
  }

  lemma LogTask(subs: map<Task, SubmitPc>, p: Places, q: seq<Task>, h: seq<Task>, t: Task)
    requires QueueInv(subs, p, q, h) && t in p
    requires p[t].WithWorker? || p[t].WithStopper?
    ensures QueueInv(subs, p[t := Finished], q, h + [t])
  {
    assert t !in h;
    assert forall u :: u in h + [t] <==> u in h || u == t;
  }

  lemma EnqueueKeepsTasks(c: Config, s: State, t: Task)
    requires TaskInv(s) && SubmitEnabled(c, s, t, Enqueue)
    ensures TaskInv(SubmitApply(c, s, t, Enqueue))
  {
    PutInQueue(s.submits, s.place, s.queue, s.handled, t, Leaving(Accepted));
  }

  lemma SubmitKeepsTasks(c: Config, s: State, t: Task, a: SubmitStep)
    requires TaskInv(s) && SubmitEnabled(c, s, t, a)
    ensures TaskInv(SubmitApply(c, s, t, a))
  {
    if a.Enqueue? { EnqueueKeepsTasks(c, s, t); }
  }

  lemma ReceiveKeepsTasks(c: Config, s: State, w: Worker)
    requires TaskInv(s) && WorkerEnabled(c, s, w, Receive)
    ensures TaskInv(WorkerApply(c, s, w, Receive))
  {
    TakeFromQueue(s.submits, s.place, s.queue, s.handled, WithWorker(w));
    assert s.queue[0] in s.queue;
  }

  lemma WorkerKeepsTasks(c: Config, s: State, w: Worker, a: WorkerStep)
    requires TaskInv(s) && WorkerEnabled(c, s, w, a)
    ensures TaskInv(WorkerApply(c, s, w, a))
  {
    if a.Receive? {
      ReceiveKeepsTasks(c, s, w);
    } else if a.FinishTask? {
      LogTask(s.submits, s.place, s.queue, s.handled, s.workers[w].task);
    }
  }

  lemma SweepKeepsTasks(c: Config, s: State, k: Stopper)
    requires TaskInv(s) && StopEnabled(c, s, k, SweepReceive)
    ensures TaskInv(StopApply(c, s, k, SweepReceive))
  {
    TakeFromQueue(s.submits, s.place, s.queue, s.handled, WithStopper(k));
    assert s.queue[0] in s.queue;
  }

  lemma StopKeepsTasks(c: Config, s: State, k: Stopper, a: StopStep)
    requires TaskInv(s) && StopEnabled(c, s, k, a)
    ensures TaskInv(StopApply(c, s, k, a))
  {
    if a.SweepReceive? {
      SweepKeepsTasks(c, s, k);
    } else if a.SweepFinish? {
      LogTask(s.submits, s.place, s.queue, s.handled, s.stops[k].task);
    }
  }

  // -------------------------------------------------- locks, fences, channels

  lemma SubmitKeepsSync(c: Config, s: State, t: Task, a: SubmitStep)
    requires SyncInv(c, s) && SubmitEnabled(c, s, t, a)
    ensures SyncInv(c, SubmitApply(c, s, t, a))
  {
  }

  lemma WorkerKeepsSync(c: Config, s: State, w: Worker, a: WorkerStep)
    requires SyncInv(c, s) && WorkerEnabled(c, s, w, a)
    ensures SyncInv(c, WorkerApply(c, s, w, a))
  {
  }

  lemma StopperKeepsLock(submits: Submits, stops: Stops, readers: set<Task>, writer: Option<Stopper>,
                         k: Stopper, pc: StopPc, writer': Option<Stopper>)
    requires LockInv(submits, stops, readers, writer)
    requires Writing(pc) <==> writer' == Some(k)
    requires writer' == writer ||
             (writer.None? && readers == {} && writer' == Some(k)) || (writer == Some(k) && writer'.None?)
    ensures LockInv(submits, stops[k := pc], readers, writer')
  {
  }

  lemma StopKeepsLock(c: Config, s: State, k: Stopper, a: StopStep)
    requires LockInv(s.submits, s.stops, s.readers, s.writer) && StopEnabled(c, s, k, a)
    ensures var s' := StopApply(c, s, k, a); LockInv(s'.submits, s'.stops, s'.readers, s'.writer)
  {
    StopperKeepsLock(s.submits, s.stops, s.readers, s.writer, k, StopNext(c, s, k, a), StopApply(c, s, k, a).writer);
  }

  lemma StopperKeepsMu(starter: StartPc, scalers: Scalers, stops: Stops, mu: Option<Owner>,
                       k: Stopper, pc: StopPc, mu': Option<Owner>)
    requires MuInv(starter, scalers, stops, mu)
    requires pc.RetireLoop? <==> mu' == Some(ByStopper(k))
    requires mu' == mu || (mu.None? && mu' == Some(ByStopper(k))) || (mu == Some(ByStopper(k)) && mu'.None?)
    ensures MuInv(starter, scalers, stops[k := pc], mu')
  {
    assert HoldsMu(starter, scalers, stops, ByStopper(k)) <==> mu == Some(ByStopper(k));
    forall o | o != ByStopper(k)
      ensures HoldsMu(starter, scalers, stops[k := pc], o) == HoldsMu(starter, scalers, stops, o)
    {
    }
  }

  lemma StopKeepsMu(c: Config, s: State, k: Stopper, a: StopStep)
    requires MuInv(s.starter, s.scalers, s.stops, s.mu) && StopEnabled(c, s, k, a)
    ensures var s' := StopApply(c, s, k, a); MuInv(s'.starter, s'.scalers, s'.stops, s'.mu)
  {
    assert HoldsMu(s.starter, s.scalers, s.stops, ByStopper(k)) <==> s.mu == Some(ByStopper(k));
    StopperKeepsMu(s.starter, s.scalers, s.stops, s.mu, k, StopNext(c, s, k, a), StopApply(c, s, k, a).mu);
  }

  lemma StopKeepsDone(c: Config, s: State, k: Stopper, a: StopStep)
    requires DoneInv(s.stops, s.closed, s.done) && KindInv(c, s.starter, s.scalers, s.stops) && StopEnabled(c, s, k, a)
    ensures var s' := StopApply(c, s, k, a);
            DoneInv(s'.stops, s'.closed, s'.done) && KindInv(c, s'.starter, s'.scalers, s'.stops)
  {
  }

  lemma StopperKeepsLaunch(c: Config, starter: StartPc, scalers: Scalers, stops: Stops, mu: Option<Owner>,
                           k: Stopper, pc: StopPc)
    requires LaunchInv(starter, scalers, stops) && MuInv(starter, scalers, stops, mu)
    requires KindInv(c, starter, scalers, stops)
    requires PastMu(pc) ==> (k in stops && PastMu(stops[k])) || mu.None? || c.kind.FixedPool?
    ensures LaunchInv(starter, scalers, stops[k := pc])
  {
    assert forall o :: Adding(starter, scalers, o, AddReady) ==> HoldsMu(starter, scalers, stops, o);
  }

  lemma StopKeepsLaunch(c: Config, s: State, k: Stopper, a: StopStep)
    requires KindInv(c, s.starter, s.scalers, s.stops) && LaunchInv(s.starter, s.scalers, s.stops)
    requires MuInv(s.starter, s.scalers, s.stops, s.mu) && StopEnabled(c, s, k, a)
    ensures var s' := StopApply(c, s, k, a); LaunchInv(s'.starter, s'.scalers, s'.stops)
  {
    StopperKeepsLaunch(c, s.starter, s.scalers, s.stops, s.mu, k, StopNext(c, s, k, a));
  }

  lemma StopKeepsFence(c: Config, s: State, k: Stopper, a: StopStep)
    requires LockInv(s.submits, s.stops, s.readers, s.writer)
    requires FenceInv(s.submits, s.stops) && StopEnabled(c, s, k, a)
    ensures var s' := StopApply(c, s, k, a); FenceInv(s'.submits, s'.stops)
  {
  }

  lemma StopKeepsWait(c: Config, s: State, k: Stopper, a: StopStep)
    requires WaitInv(s.workers, s.stops) && StopEnabled(c, s, k, a)
    ensures var s' := StopApply(c, s, k, a); WaitInv(s'.workers, s'.stops)
  {
  }

  lemma StopKeepsEmpty(c: Config, s: State, k: Stopper, a: StopStep)
    requires LockInv(s.submits, s.stops, s.readers, s.writer)
    requires EmptyInv(s.queue, s.stops) && StopEnabled(c, s, k, a)
    ensures var s' := StopApply(c, s, k, a); EmptyInv(s'.queue, s'.stops)
  {
  }

  lemma StopKeepsRetire(c: Config, s: State, k: Stopper, a: StopStep)
    requires RetireInv(c, s.active, s.retired, s.nextId, s.workers, s.scalers) && StopEnabled(c, s, k, a)
    ensures var s' := StopApply(c, s, k, a); RetireInv(c, s'.active, s'.retired, s'.nextId, s'.workers, s'.scalers)
  {
  }

  lemma StopKeepsSync(c: Config, s: State, k: Stopper, a: StopStep)
    requires SyncInv(c, s) && StopEnabled(c, s, k, a)
    ensures SyncInv(c, StopApply(c, s, k, a))
  {
    StopKeepsLock(c, s, k, a);
    StopKeepsMu(c, s, k, a);
    StopKeepsDone(c, s, k, a);
    StopKeepsLaunch(c, s, k, a);
    StopKeepsFence(c, s, k, a);
    StopKeepsWait(c, s, k, a);
    StopKeepsEmpty(c, s, k, a);
    StopKeepsRetire(c, s, k, a);
  }

  // addWorker moves: its caller enters or leaves the critical section with the mutex.
  lemma AdderMoves(starter: StartPc, scalers: Scalers, stops: Stops, mu: Option<Owner>,
                   o: Owner, pc: AddPc, next: Option<AddPc>, mu': Option<Owner>)
    requires MuInv(starter, scalers, stops, mu) && Adding(starter, scalers, o, pc)
    requires AddHolds(pc) || mu.None? || (mu' == mu && !(next.Some? && AddHolds(next.value)))
    requires next.Some? && AddHolds(next.value) ==> mu' == Some(o)
    requires !(next.Some? && AddHolds(next.value)) && (AddHolds(pc) || mu.None?) ==> mu'.None?
    ensures MuInv(StarterNext(starter, o, next), ScalersNext(scalers, o, next), stops, mu')
  {
    var starter', scalers' := StarterNext(starter, o, next), ScalersNext(scalers, o, next);
    assert HoldsMu(starter, scalers, stops, o) <==> mu == Some(o);
    forall p | p != o
      ensures HoldsMu(starter', scalers', stops, p) == HoldsMu(starter, scalers, stops, p)
    {
    }
  }

  function AddAt(a: AddStep): AddPc {
    match a
    case FirstCheck => AddCheck
    case AcquireMu => AddWait
    case SecondCheck => AddLocked
    case Launch => AddReady
  }

  lemma AddFields(c: Config, s: State, o: Owner, a: AddStep)
    requires AddEnabled(c, s, o, a)
    ensures var s' := AddApply(c, s, o, a);
            && s'.starter == StarterNext(s.starter, o, AddNext(s, a))
            && s'.scalers == ScalersNext(s.scalers, o, AddNext(s, a))
            && s'.stops == s.stops && s'.mu == AddMu(s, o, a)
  {
  }

  lemma AddKeepsMu(c: Config, s: State, o: Owner, a: AddStep)
    requires MuInv(s.starter, s.scalers, s.stops, s.mu) && AddEnabled(c, s, o, a)
    ensures var s' := AddApply(c, s, o, a); MuInv(s'.starter, s'.scalers, s'.stops, s'.mu)
  {
    AddFields(c, s, o, a);
    AdderMoves(s.starter, s.scalers, s.stops, s.mu, o, AddAt(a), AddNext(s, a), AddMu(s, o, a));
  }

  lemma AdderKeepsLaunch(starter: StartPc, scalers: Scalers, stops: Stops, o: Owner, next: Option<AddPc>)
    requires LaunchInv(starter, scalers, stops) && exists pc :: Adding(starter, scalers, o, pc)
    requires next == Some(AddReady) ==> forall k :: k in stops ==> stops[k].Closing?
    ensures LaunchInv(StarterNext(starter, o, next), ScalersNext(scalers, o, next), stops)
  {
    forall p | p != o
      ensures Adding(StarterNext(starter, o, next), ScalersNext(scalers, o, next), p, AddReady)
           == Adding(starter, scalers, p, AddReady)
    {
    }
  }

  lemma AddKeepsLaunch(c: Config, s: State, o: Owner, a: AddStep)
    requires DoneInv(s.stops, s.closed, s.done) && LaunchInv(s.starter, s.scalers, s.stops)
    requires AddEnabled(c, s, o, a)
    ensures var s' := AddApply(c, s, o, a); LaunchInv(s'.starter, s'.scalers, s'.stops)
  {
    AdderKeepsLaunch(s.starter, s.scalers, s.stops, o, AddNext(s, a));
  }

  lemma AddKeepsWait(c: Config, s: State, o: Owner, a: AddStep)
    requires LaunchInv(s.starter, s.scalers, s.stops) && WaitInv(s.workers, s.stops)
    requires AddEnabled(c, s, o, a)
    ensures var s' := AddApply(c, s, o, a); WaitInv(s'.workers, s'.stops)
  {
  }

  lemma AdderKeepsRetire(c: Config, active: set<Worker>, retired: set<Worker>, nextId: nat,
                         workers: map<Worker, WorkerPc>, scalers: Scalers, o: Owner, next: Option<AddPc>)
    requires RetireInv(c, active, retired, nextId, workers, scalers)
    ensures RetireInv(c, active, retired, nextId, workers, ScalersNext(scalers, o, next))
  {
  }

  lemma LaunchKeepsRetire(c: Config, active: set<Worker>, retired: set<Worker>, nextId: nat,
                          workers: map<Worker, WorkerPc>, scalers: Scalers)
    requires RetireInv(c, active, retired, nextId, workers, scalers)
    requires c.kind.ElasticPool? && |active| < c.maxWorker
    ensures var w := nextId + 1;
            RetireInv(c, active + {w}, retired, w, workers[w := Looping], scalers)
  {
  }

  lemma LaunchFields(c: Config, s: State, o: Owner)
    requires AddEnabled(c, s, o, Launch) && |s.active| < c.maxWorker
    ensures var s', w := AddApply(c, s, o, Launch), s.nextId + 1;
            && s'.active == s.active + {w} && s'.retired == s.retired && s'.nextId == w
            && s'.workers == s.workers[w := Looping] && s'.scalers == ScalersNext(s.scalers, o, None)
  {
  }

  lemma GrowKeepsRetire(c: Config, s: State, o: Owner)
    requires c.kind.ElasticPool? && AddEnabled(c, s, o, Launch) && |s.active| < c.maxWorker
    requires RetireInv(c, s.active, s.retired, s.nextId, s.workers, s.scalers)
    ensures var s' := AddApply(c, s, o, Launch);
            RetireInv(c, s'.active, s'.retired, s'.nextId, s'.workers, s'.scalers)
  {
    LaunchFields(c, s, o);
    AdderKeepsRetire(c, s.active, s.retired, s.nextId, s.workers, s.scalers, o, None);
    LaunchKeepsRetire(c, s.active, s.retired, s.nextId, s.workers, ScalersNext(s.scalers, o, None));
  }

  lemma AddKeepsRetire(c: Config, s: State, o: Owner, a: AddStep)
    requires c.kind.ElasticPool? && AddEnabled(c, s, o, a)
    requires RetireInv(c, s.active, s.retired, s.nextId, s.workers, s.scalers)
    ensures var s' := AddApply(c, s, o, a);
            RetireInv(c, s'.active, s'.retired, s'.nextId, s'.workers, s'.scalers)
  {
    if a.Launch? && |s.active| < c.maxWorker {
      GrowKeepsRetire(c, s, o);
    } else {
      AdderKeepsRetire(c, s.active, s.retired, s.nextId, s.workers, s.scalers, o, AddNext(s, a));
    }
  }

  lemma AddKeepsSync(c: Config, s: State, o: Owner, a: AddStep)
    requires SyncInv(c, s) && AddEnabled(c, s, o, a)
    ensures SyncInv(c, AddApply(c, s, o, a))
  {
    AddKeepsMu(c, s, o, a);
    AddKeepsLaunch(c, s, o, a);
    AddKeepsWait(c, s, o, a);
    AddKeepsRetire(c, s, o, a);
  }

  // A scaling evaluation moves outside addWorker's critical section.
  lemma ScalerMoves(starter: StartPc, scalers: Scalers, stops: Stops, mu: Option<Owner>, e: Scaler, pc: ScalePc)
    requires MuInv(starter, scalers, stops, mu) && LaunchInv(starter, scalers, stops)
    requires e in scalers ==> !scalers[e].ScAdd?
    requires pc.ScAdd? ==> pc.add.AddCheck?
    ensures MuInv(starter, scalers[e := pc], stops, mu) && LaunchInv(starter, scalers[e := pc], stops)
  {
    var moved := scalers[e := pc];
    forall o ensures HoldsMu(starter, moved, stops, o) == HoldsMu(starter, scalers, stops, o) {}
    forall o | Adding(starter, moved, o, AddReady) ensures Adding(starter, scalers, o, AddReady) {}
  }

  lemma ScaleKeepsMu(c: Config, s: State, e: Scaler, a: ScaleStep)
    requires WellFormed(c) && MuInv(s.starter, s.scalers, s.stops, s.mu)
    requires LaunchInv(s.starter, s.scalers, s.stops) && ScaleEnabled(c, s, e, a)
    ensures var s' := ScaleApply(c, s, e, a);
            MuInv(s'.starter, s'.scalers, s'.stops, s'.mu) && LaunchInv(s'.starter, s'.scalers, s'.stops)
  {
    ScalerMoves(s.starter, s.scalers, s.stops, s.mu, e, ScaleNext(c, s, e, a));
  }

  lemma ScalerKeepsRetire(c: Config, active: set<Worker>, retired: set<Worker>, nextId: nat,
                          workers: map<Worker, WorkerPc>, scalers: Scalers, e: Scaler, pc: ScalePc)
    requires RetireInv(c, active, retired, nextId, workers, scalers)
    ensures !pc.ScClose? ==> RetireInv(c, active, retired, nextId, workers, scalers[e := pc])
    ensures pc.ScClose? && pc.victim in active ==>
              RetireInv(c, active - {pc.victim}, retired, nextId, workers, scalers[e := pc])
    ensures e in scalers && scalers[e].ScClose? && !pc.ScClose? ==>
              RetireInv(c, active, retired + {scalers[e].victim}, nextId, workers, scalers[e := pc])
  {
  }

  lemma ScaleKeepsRetire(c: Config, s: State, e: Scaler, a: ScaleStep)
    requires WellFormed(c) && RetireInv(c, s.active, s.retired, s.nextId, s.workers, s.scalers)
    requires ScaleEnabled(c, s, e, a)
    ensures var s' := ScaleApply(c, s, e, a);
            RetireInv(c, s'.active, s'.retired, s'.nextId, s'.workers, s'.scalers)
  {
    ScalerKeepsRetire(c, s.active, s.retired, s.nextId, s.workers, s.scalers, e, ScaleNext(c, s, e, a));
  }

  lemma ScaleKeepsSync(c: Config, s: State, e: Scaler, a: ScaleStep)
    requires WellFormed(c) && SyncInv(c, s) && ScaleEnabled(c, s, e, a)
    ensures SyncInv(c, ScaleApply(c, s, e, a))
  {
    ScaleKeepsMu(c, s, e, a);
    ScaleKeepsRetire(c, s, e, a);
  }

  // ---------------------------------------------------------------- every run

  lemma AddKeepsTasks(c: Config, s: State, o: Owner, a: AddStep)
    requires TaskInv(s) && AddEnabled(c, s, o, a)
    requires c.kind.ElasticPool? && RetireInv(c, s.active, s.retired, s.nextId, s.workers, s.scalers)
    ensures TaskInv(AddApply(c, s, o, a))
  {
    if a.Launch? && |s.active| < c.maxWorker {
      assert s.nextId + 1 !in s.workers;
    }
  }

  lemma StepKeepsInv(c: Config, s: State, a: Action)
    requires Inv(c, s) && Enabled(c, s, a)
    ensures Inv(c, Apply(c, s, a))
  {
    match a
    case OfSubmit(t, x) => SubmitKeepsTasks(c, s, t, x); SubmitKeepsSync(c, s, t, x);
    case OfWorker(w, x) => WorkerKeepsTasks(c, s, w, x); WorkerKeepsSync(c, s, w, x);
    case OfStop(k, x) => StopKeepsTasks(c, s, k, x); StopKeepsSync(c, s, k, x);
    case OfAdd(o, x) => AddKeepsTasks(c, s, o, x); AddKeepsSync(c, s, o, x);
    case OfScale(e, x) => ScaleKeepsSync(c, s, e, x);
  }

  lemma {:induction false} RunKeepsInv(c: Config, s: State, run: seq<Action>, s': State)
    requires Inv(c, s) && Runs(c, s, run, s')
    ensures Inv(c, s')
    decreases |run|
  {
    if run != [] {
      StepKeepsInv(c, s, run[0]);
      RunKeepsInv(c, Apply(c, s, run[0]), run[1..], s');
    }
  }

  ghost predicate Reachable(c: Config, s: State) {
    WellFormed(c) && exists ws, run :: Launched(c, ws) && Runs(c, Init(c, ws), run, s)
  }

  lemma ReachableInv(c: Config, s: State)
    requires Reachable(c, s)
    ensures Inv(c, s)
  {
    var ws, run :| Launched(c, ws) && Runs(c, Init(c, ws), run, s);
    InitInv(c, ws);
    RunKeepsInv(c, Init(c, ws), run, s);
  }

  lemma CountIsOne(q: seq<Task>, t: Task)
    requires NoDuplicates(q)
    ensures multiset(q)[t] == if t in q then 1 else 0
  {
    if q != [] {
      var last := |q| - 1;
      CountIsOne(q[..last], t);
      assert q == q[..last] + [q[last]];
      assert q[last] !in q[..last];
    }
  }

  // In every interleaving handle() is called at most once for a task, and only if Submit
  // accepted it; a call that returned an error is never handled.
  lemma HandledAtMostOnce(c: Config, s: State, t: Task)
    requires Reachable(c, s)
    ensures multiset(s.handled)[t] <= 1
    ensures t in s.handled ==> WasAccepted(s, t)
    ensures t in s.submits && s.submits[t].Returned? && !s.submits[t].outcome.Accepted? ==>
              multiset(s.handled)[t] == 0 && t !in s.queue
  {
    ReachableInv(c, s);
    CountIsOne(s.handled, t);
  }

  // An accepted task that is not yet handled is still queued or in somebody's hands.
  lemma NothingIsLost(c: Config, s: State, t: Task)
    requires Reachable(c, s) && WasAccepted(s, t) && t !in s.handled
    ensures t in s.queue ||
            (exists w :: w in s.workers && s.workers[w].Handling? && s.workers[w].task == t) ||
            (exists k :: k in s.stops && s.stops[k] == SweepHandling(t))
  {
    ReachableInv(c, s);
    var p := s.place[t];
    match p
    case InQueue =>
    case WithWorker(w) => assert w in s.workers && s.workers[w].Handling? && s.workers[w].task == t;
    case WithStopper(k) => assert k in s.stops && s.stops[k] == SweepHandling(t);
    case Finished =>
  }

  // When Stop has returned: the queue is empty, no worker runs, and handle() was called
  // exactly once for every task whose Submit succeeded.
  lemma StoppedPoolIsQuiet(c: Config, s: State, k: Stopper)
    requires Reachable(c, s) && k in s.stops && s.stops[k].Stopped?
    ensures s.queue == [] && AllExited(s.workers)
    ensures forall t :: multiset(s.handled)[t] == if WasAccepted(s, t) then 1 else 0
  {
    ReachableInv(c, s);
    forall t ensures multiset(s.handled)[t] == if WasAccepted(s, t) then 1 else 0 {
      CountIsOne(s.handled, t);
      if WasAccepted(s, t) && t !in s.handled { NothingIsLost(c, s, t); }
    }
  }

  ghost predicate Quiet(s: State, k: Stopper) {
    && k in s.stops && s.stops[k].Stopped?
    && s.queue == [] && AllExited(s.workers)
    && (forall t :: t in s.submits ==> !s.submits[t].Ready?)
    && (forall l :: l in s.stops ==> !s.stops[l].SweepHandling?)
  }

  lemma StoppedStop(c: Config, s: State, k: Stopper, l: Stopper, a: StopStep)
    requires Quiet(s, k) && StopEnabled(c, s, l, a)
    ensures var s' := StopApply(c, s, l, a);
            k in s'.stops && s'.stops[k].Stopped? && s'.handled == s.handled && s'.submits == s.submits
  {
  }

  ghost predicate SameAccepted(a: Submits, b: Submits) {
    forall t :: t in a && Successful(a[t]) <==> t in b && Successful(b[t])
  }

  lemma StoppedSubmit(c: Config, s: State, k: Stopper, t: Task, a: SubmitStep)
    requires Quiet(s, k) && SubmitEnabled(c, s, t, a)
    ensures var s' := SubmitApply(c, s, t, a);
            s'.stops == s.stops && s'.handled == s.handled && SameAccepted(s.submits, s'.submits)
  {
  }

  lemma StoppedScale(c: Config, s: State, e: Scaler, a: ScaleStep)
    requires WellFormed(c) && ScaleEnabled(c, s, e, a)
    ensures var s' := ScaleApply(c, s, e, a);
            s'.stops == s.stops && s'.handled == s.handled && s'.submits == s.submits
  {
  }

  lemma StoppedStep(c: Config, s: State, k: Stopper, a: Action)
    requires WellFormed(c) && Quiet(s, k) && Enabled(c, s, a)
    ensures var s' := Apply(c, s, a);
            s'.handled == s.handled && k in s'.stops && s'.stops[k].Stopped? &&
            SameAccepted(s.submits, s'.submits)
  {
    match a
    case OfSubmit(t, x) => StoppedSubmit(c, s, k, t, x);
    case OfWorker(w, x) =>
    case OfStop(l, x) => StoppedStop(c, s, k, l, x);
    case OfAdd(o, x) =>
    case OfScale(e, x) => StoppedScale(c, s, e, x);
  }

  // Nothing is accepted or handled after Stop has returned, whatever is called next.
  lemma {:induction false} StoppedForever(c: Config, s: State, k: Stopper, run: seq<Action>, s': State)
    requires Inv(c, s) && k in s.stops && s.stops[k].Stopped? && Runs(c, s, run, s')
    ensures s'.queue == [] && AllExited(s'.workers) && s'.handled == s.handled
    ensures forall t :: WasAccepted(s', t) <==> WasAccepted(s, t)
    decreases |run|
  {
    if run != [] {
      StepKeepsInv(c, s, run[0]);
      StoppedStep(c, s, k, run[0]);
      StoppedForever(c, Apply(c, s, run[0]), k, run[1..], s');
    }
  }

  // No retire channel and no done channel is ever closed twice, and the active set stays
  // within maxWorker.
  lemma ChannelsClosedOnce(c: Config, s: State)
    requires Reachable(c, s)
    ensures !s.panicked && |s.active| <= c.maxWorker
  {
    ReachableInv(c, s);
  }
}
