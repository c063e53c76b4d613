/**
  The task-dispatch pools as one interleaved machine.

  Every goroutine is a thread with a program counter: submitters, workers, scaling
  evaluations, the starter and any number of concurrent Stop calls.  A step is one
  atomic access of the source: a lock operation, an atomic load or store, a channel
  send or receive, or a channel close.  A `select` picks any ready branch.
 */
module Pool {
  import opened Basics

  datatype FullPolicy = PolicyBlock | PolicyDrop | PolicyClose
  datatype Kind = FixedPool | ElasticPool
  datatype Outcome = Accepted | ErrClosed | ErrQueueFull | ErrSessionClosed

  type Task = nat    // a submit call and the task it carries
  type Worker = nat  // workerRef.id
  type Stopper = nat
  type Scaler = nat

  datatype Config = Config(kind: Kind, policy: FullPolicy, capacity: nat,
                           minWorker: nat, maxWorker: nat,
                           scaleUp: real, scaleDown: real, hold: nat)

  // What the constructors establish.
  predicate WellFormed(c: Config) {
    && 1 <= c.capacity
    && 1 <= c.minWorker <= c.maxWorker
    && 0.0 < c.scaleDown < c.scaleUp <= 1.0
    && 1 <= c.hold
  }

  datatype SubmitPc =
    | Calling                    // before RLock
    | Locked                     // read lock held, closed not yet loaded
    | Ready                      // closed was false; at the select
    | Leaving(outcome: Outcome)  // result decided, read lock still held
    | Returned(outcome: Outcome)

  datatype WorkerPc =
    | Looping
    | Handling(task: Task, draining: bool)
    | Draining
    | Removing
    | Exited

  datatype StopPc =
    | Closing       // before the compare-and-swap on closed
    | ClosingDone   // won the swap; about to close the done channel
    | Retiring      // about to lock mu
    | RetireLoop    // holds mu, closing retire channels
    | Fencing       // about to take the write lock
    | Waiting       // holds the write lock, in WaitGroup.Wait
    | Sweeping      // holds the write lock, in the final drainQueue
    | SweepHandling(task: Task)
    | Stopped

  // addWorker, called by Start and by a scaling evaluation
  datatype AddPc =
    | AddCheck    // first closed.Load
    | AddWait     // about to lock mu
    | AddLocked   // holds mu; second closed.Load
    | AddReady    // holds mu; closed was false

  datatype StartPc = Starting(remaining: nat, add: AddPc) | Started

  datatype ScalePc =
    | ScCheck                    // closed.Load
    | ScQueue                    // len(queue)
    | ScCount(q: nat)            // workerCount()
    | ScDecide(q: nat, n: nat)   // first access to downStreak
    | ScAdd(add: AddPc)
    | ScReset(at: nat)           // downStreak.Store(0) before retiring
    | ScRetire(at: nat)          // about to lock mu and take a victim
    | ScClose(victim: Worker)    // about to close the victim's retire channel
    | ScDone

  datatype Verdict = High | Low | Middle

  datatype Owner = ByStarter | ByScaler(e: Scaler) | ByStopper(k: Stopper)

  // Where an accepted task is.
  datatype Place = InQueue | WithWorker(w: Worker) | WithStopper(k: Stopper) | Finished

  datatype State = State(
    queue: seq<Task>,
    closed: bool,                      // poolCore.closed
    done: bool,                        // the done channel is closed
    readers: set<Task>,                // submitMu read holders
    writer: Option<Stopper>,           // submitMu write holder
    mu: Option<Owner>,
    active: set<Worker>,               // keys of ScalablePool.workers
    nextId: nat,
    retired: set<Worker>,              // closed retire channels
    workers: map<Worker, WorkerPc>,    // every goroutine the WaitGroup tracks
    submits: map<Task, SubmitPc>,
    cancelled: set<Task>,              // submits whose session context is done
    stops: map<Stopper, StopPc>,
    scalers: map<Scaler, ScalePc>,
    starter: StartPc,
    downStreak: nat,
    panicked: bool,                    // a closed channel was closed again
    // history
    handled: seq<Task>,                // handle() calls, in order of completion
    verdicts: seq<Verdict>,            // scaling decisions, in order
    place: map<Task, Place>)

  // The fixed pool begins with the workers its Start launched; the elastic one with none.
  predicate Launched(c: Config, workers: map<Worker, WorkerPc>) {
    if c.kind.FixedPool? then forall w :: w in workers ==> workers[w].Looping? else workers == map[]
  }

  function Init(c: Config, workers: map<Worker, WorkerPc>): State
  {
    State([], false, false, {}, None, None, {}, 0, {}, workers,
          map[], {}, map[], map[],
          if c.kind.FixedPool? then Started else Starting(c.minWorker, AddCheck),
          0, false, [], [], map[])
  }

  // ---------------------------------------------------------------- submit

  datatype SubmitStep =
    | Call | RLock | CheckClosed | Enqueue | RejectFull | SeeDone | SeeSession | RUnlock
    | CancelSession  // the environment cancels the session context

  predicate SubmitEnabled(c: Config, s: State, t: Task, a: SubmitStep) {
    if a.Call? then t !in s.submits
    else
      && t in s.submits
      && match a
         case RLock => s.submits[t].Calling? && s.writer.None?
         case CheckClosed => s.submits[t].Locked?
         case Enqueue => s.submits[t].Ready? && |s.queue| < c.capacity
         case RejectFull => s.submits[t].Ready? && |s.queue| >= c.capacity && !c.policy.PolicyBlock?
         case SeeDone => s.submits[t].Ready? && c.policy.PolicyBlock? && s.done
         case SeeSession => s.submits[t].Ready? && c.policy.PolicyBlock? && t in s.cancelled
         case RUnlock => s.submits[t].Leaving?
         case _ => true
  }

  function SubmitApply(c: Config, s: State, t: Task, a: SubmitStep): State
    requires SubmitEnabled(c, s, t, a)
  {
    match a
    case Call => s.(submits := s.submits[t := Calling])
    case RLock => s.(submits := s.submits[t := Locked], readers := s.readers + {t})
    case CheckClosed =>
      s.(submits := s.submits[t := if s.closed then Leaving(ErrClosed) else Ready])
    case Enqueue =>
      s.(submits := s.submits[t := Leaving(Accepted)], queue := s.queue + [t],
         place := s.place[t := InQueue])
    case RejectFull =>
      s.(submits := s.submits[t := Leaving(ErrQueueFull)],
         cancelled := if c.policy.PolicyClose? then s.cancelled + {t} else s.cancelled)
    case SeeDone => s.(submits := s.submits[t := Leaving(ErrClosed)])
    case SeeSession => s.(submits := s.submits[t := Leaving(ErrSessionClosed)])
    case RUnlock =>
      s.(submits := s.submits[t := Returned(s.submits[t].outcome)], readers := s.readers - {t})
    case CancelSession => s.(cancelled := s.cancelled + {t})
  }

  // ---------------------------------------------------------------- worker

  datatype WorkerStep = Receive | FinishTask | SeeRetire | SeeDoneChannel | DrainEmpty | RemoveSelf

  predicate WorkerEnabled(c: Config, s: State, w: Worker, a: WorkerStep) {
    && w in s.workers
    && match a
       case Receive => (s.workers[w].Looping? || s.workers[w].Draining?) && s.queue != []
       case FinishTask => s.workers[w].Handling?
       case SeeRetire => s.workers[w].Looping? && w in s.retired
       case SeeDoneChannel => s.workers[w].Looping? && s.done
       case DrainEmpty => s.workers[w].Draining? && s.queue == []
       case RemoveSelf => s.workers[w].Removing? && s.mu.None?
  }

  function WorkerApply(c: Config, s: State, w: Worker, a: WorkerStep): State
    requires WorkerEnabled(c, s, w, a)
  {
    match a
    case Receive =>
      s.(workers := s.workers[w := Handling(s.queue[0], s.workers[w].Draining?)],
         queue := s.queue[1..], place := s.place[s.queue[0] := WithWorker(w)])
    case FinishTask =>
      var t := s.workers[w].task;
      s.(workers := s.workers[w := if s.workers[w].draining then Draining else Looping],
         handled := s.handled + [t], place := s.place[t := Finished])
    case SeeRetire => s.(workers := s.workers[w := Removing])
    case SeeDoneChannel => s.(workers := s.workers[w := Draining])
    case DrainEmpty => s.(workers := s.workers[w := Removing])
    case RemoveSelf => s.(workers := s.workers[w := Exited], active := s.active - {w})
  }

  // ------------------------------------------------------------------ Stop

  datatype StopStep =
    | StopCall | SwapClosed | CloseDone | LockMu | RetireOne(w: Worker) | UnlockMu
    | WriteLock | WaitDone | SweepReceive | SweepFinish | StopReturn

  predicate AllExited(workers: map<Worker, WorkerPc>) {
    forall w :: w in workers ==> workers[w].Exited?
  }

  predicate StopEnabled(c: Config, s: State, k: Stopper, a: StopStep) {
    if a.StopCall? then k !in s.stops
    else
      && k in s.stops
      && match a
         case SwapClosed => s.stops[k].Closing?
         case CloseDone => s.stops[k].ClosingDone?
         case LockMu => s.stops[k].Retiring? && s.mu.None?
         case RetireOne(w) => s.stops[k].RetireLoop? && w in s.active
         case UnlockMu => s.stops[k].RetireLoop? && s.active == {}
         case WriteLock => s.stops[k].Fencing? && s.writer.None? && s.readers == {}
         case WaitDone => s.stops[k].Waiting? && AllExited(s.workers)
         case SweepReceive => s.stops[k].Sweeping? && s.queue != []
         case SweepFinish => s.stops[k].SweepHandling?
         case StopReturn => s.stops[k].Sweeping? && s.queue == []
         case _ => true
  }

  // After beginClose the elastic pool retires its workers; the fixed one has none to retire.
  function AfterClose(c: Config): StopPc {
    if c.kind.ElasticPool? then Retiring else Fencing
  }

  function StopNext(c: Config, s: State, k: Stopper, a: StopStep): StopPc
    requires StopEnabled(c, s, k, a)
  {
    match a
    case StopCall => Closing
    case SwapClosed => if s.closed then AfterClose(c) else ClosingDone
    case CloseDone => AfterClose(c)
    case LockMu => RetireLoop
    case RetireOne(w) => RetireLoop
    case UnlockMu => Fencing
    case WriteLock => Waiting
    case WaitDone => Sweeping
    case SweepReceive => SweepHandling(s.queue[0])
    case SweepFinish => Sweeping
    case StopReturn => Stopped
  }

  function StopApply(c: Config, s: State, k: Stopper, a: StopStep): State
    requires StopEnabled(c, s, k, a)
  {
    var stops := s.stops[k := StopNext(c, s, k, a)];
    match a
    case SwapClosed => s.(stops := stops, closed := true)
    case CloseDone => s.(stops := stops, done := true, panicked := s.panicked || s.done)
    case LockMu => s.(stops := stops, mu := Some(ByStopper(k)))
    case RetireOne(w) =>
      s.(stops := stops, retired := s.retired + {w}, panicked := s.panicked || w in s.retired,
         active := s.active - {w})
    case UnlockMu => s.(stops := stops, mu := None)
    case WriteLock => s.(stops := stops, writer := Some(k))
    case SweepReceive =>
      s.(stops := stops, queue := s.queue[1..], place := s.place[s.queue[0] := WithStopper(k)])
    case SweepFinish =>
      s.(stops := stops, handled := s.handled + [s.stops[k].task],
         place := s.place[s.stops[k].task := Finished])
    case StopReturn => s.(stops := stops, writer := None)
    case _ => s.(stops := stops)
  }

  // ------------------------------------------------------------- addWorker

  // Who runs addWorker, and where it is: Start, or a scaling evaluation that chose to grow.
  predicate Adding(starter: StartPc, scalers: map<Scaler, ScalePc>, o: Owner, pc: AddPc) {
    match o
    case ByStarter => starter.Starting? && starter.remaining > 0 && starter.add == pc
    case ByScaler(e) => e in scalers && scalers[e] == ScAdd(pc)
    case ByStopper(_) => false
  }

  // The caller's program counter once addWorker has moved to `next`, or returned when there is none.
  function StarterNext(starter: StartPc, o: Owner, next: Option<AddPc>): StartPc {
    if !o.ByStarter? || !starter.Starting? || starter.remaining == 0 then starter
    else if next.Some? then Starting(starter.remaining, next.value)
    else if starter.remaining == 1 then Started
    else Starting(starter.remaining - 1, AddCheck)
  }

  function ScalersNext(scalers: map<Scaler, ScalePc>, o: Owner, next: Option<AddPc>): map<Scaler, ScalePc> {
    if !o.ByScaler? then scalers
    else scalers[o.e := if next.Some? then ScAdd(next.value) else ScDone]
  }

  datatype AddStep = FirstCheck | AcquireMu | SecondCheck | Launch

  predicate AddEnabled(c: Config, s: State, o: Owner, a: AddStep) {
    match a
    case FirstCheck => Adding(s.starter, s.scalers, o, AddCheck)
    case AcquireMu => Adding(s.starter, s.scalers, o, AddWait) && s.mu.None?
    case SecondCheck => Adding(s.starter, s.scalers, o, AddLocked)
    case Launch => Adding(s.starter, s.scalers, o, AddReady)
  }

  // Where addWorker goes; None means it returns.
  function AddNext(s: State, a: AddStep): Option<AddPc> {
    match a
    case FirstCheck => if s.closed then None else Some(AddWait)
    case AcquireMu => Some(AddLocked)
    case SecondCheck => if s.closed then None else Some(AddReady)
    case Launch => None
  }

  function AddMu(s: State, o: Owner, a: AddStep): Option<Owner> {
    if a.FirstCheck? then s.mu else if AddNext(s, a).Some? then Some(o) else None
  }

  predicate AddGrows(c: Config, s: State, a: AddStep) { a.Launch? && |s.active| < c.maxWorker }

  function AddApply(c: Config, s: State, o: Owner, a: AddStep): State
    requires AddEnabled(c, s, o, a)
  {
    var next, grows, w := AddNext(s, a), AddGrows(c, s, a), s.nextId + 1;
    s.(starter := StarterNext(s.starter, o, next), scalers := ScalersNext(s.scalers, o, next), mu := AddMu(s, o, a),
       nextId := if grows then w else s.nextId,
       active := if grows then s.active + {w} else s.active,
       workers := if grows then s.workers[w := Looping] else s.workers)
  }

  // ------------------------------------------------------------- maybeScale

  datatype ScaleStep =
    | ScaleCall | CheckOpen | ReadQueue | ReadWorkers | Decide | ResetStreak
    | TakeVictim(w: Worker) | NoVictim | CloseRetire

  predicate ScaleEnabled(c: Config, s: State, e: Scaler, a: ScaleStep) {
    if a.ScaleCall? then c.kind.ElasticPool? && e !in s.scalers
    else
      && e in s.scalers
      && match a
         case CheckOpen => s.scalers[e].ScCheck?
         case ReadQueue => s.scalers[e].ScQueue?
         case ReadWorkers => s.scalers[e].ScCount? && s.mu.None?
         case Decide => s.scalers[e].ScDecide?
         case ResetStreak => s.scalers[e].ScReset?
         case TakeVictim(w) => s.scalers[e].ScRetire? && s.mu.None? && w in s.active
         case NoVictim => s.scalers[e].ScRetire? && s.mu.None? && s.active == {}
         case CloseRetire => s.scalers[e].ScClose?
         case _ => true
  }

  // The branch maybeScale takes for queue length q and worker count n.
  function Judge(c: Config, q: nat, n: nat): Verdict
    requires c.capacity >= 1
  {
    var occupancy := q as real / c.capacity as real;
    if occupancy >= c.scaleUp && n < c.maxWorker then High
    else if occupancy <= c.scaleDown && n > c.minWorker then Low
    else Middle
  }

  function ScaleNext(c: Config, s: State, e: Scaler, a: ScaleStep): ScalePc
    requires WellFormed(c) && ScaleEnabled(c, s, e, a)
  {
    match a
    case ScaleCall => ScCheck
    case CheckOpen => if s.closed then ScDone else ScQueue
    case ReadQueue => ScCount(|s.queue|)
    case ReadWorkers => ScDecide(s.scalers[e].q, |s.active|)
    case Decide =>
      (match Judge(c, s.scalers[e].q, s.scalers[e].n)
       case High => ScAdd(AddCheck)
       case Middle => ScDone
       case Low => if s.downStreak + 1 >= c.hold then ScReset(|s.verdicts| + 1) else ScDone)
    case ResetStreak => ScRetire(s.scalers[e].at)
    case TakeVictim(w) => ScClose(w)
    case NoVictim => ScDone
    case CloseRetire => ScDone
  }

  function ScaleApply(c: Config, s: State, e: Scaler, a: ScaleStep): State
    requires WellFormed(c) && ScaleEnabled(c, s, e, a)
  {
    var scalers := s.scalers[e := ScaleNext(c, s, e, a)];
    match a
    case Decide =>
      var v := Judge(c, s.scalers[e].q, s.scalers[e].n);
      s.(scalers := scalers, verdicts := s.verdicts + [v],
         downStreak := if v.Low? then s.downStreak + 1 else 0)
    case ResetStreak => s.(scalers := scalers, downStreak := 0)
    case TakeVictim(w) => s.(scalers := scalers, active := s.active - {w})
    case CloseRetire =>
      s.(scalers := scalers, retired := s.retired + {s.scalers[e].victim},
         panicked := s.panicked || s.scalers[e].victim in s.retired)
    case _ => s.(scalers := scalers)
  }

  // ------------------------------------------------------------------- runs

  datatype Action =
    | OfSubmit(t: Task, submit: SubmitStep)
    | OfWorker(w: Worker, work: WorkerStep)
    | OfStop(k: Stopper, stop: StopStep)
    | OfAdd(o: Owner, add: AddStep)
    | OfScale(e: Scaler, scale: ScaleStep)

  predicate Enabled(c: Config, s: State, a: Action) {
    match a
    case OfSubmit(t, x) => SubmitEnabled(c, s, t, x)
    case OfWorker(w, x) => WorkerEnabled(c, s, w, x)
    case OfStop(k, x) => StopEnabled(c, s, k, x)
    case OfAdd(o, x) => AddEnabled(c, s, o, x)
    case OfScale(e, x) => ScaleEnabled(c, s, e, x)
  }

  function Apply(c: Config, s: State, a: Action): State
    requires WellFormed(c) && Enabled(c, s, a)
  {
    match a
    case OfSubmit(t, x) => SubmitApply(c, s, t, x)
    case OfWorker(w, x) => WorkerApply(c, s, w, x)
    case OfStop(k, x) => StopApply(c, s, k, x)
    case OfAdd(o, x) => AddApply(c, s, o, x)
    case OfScale(e, x) => ScaleApply(c, s, e, x)
  }

  // s' is reached from s by taking the actions of `run` one after the other.
  ghost predicate Runs(c: Config, s: State, run: seq<Action>, s': State)
    requires WellFormed(c)
    decreases |run|
  {
    if run == [] then s == s'
    else Enabled(c, s, run[0]) && Runs(c, Apply(c, s, run[0]), run[1..], s')
  }
}
