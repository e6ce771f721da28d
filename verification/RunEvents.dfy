/** The run as a state machine: every statement of a worker, the dispatcher, the supervisor, the judge
    and the operator is one event. */
module RunEvents {
  import opened Wrappers
  import opened RunDb

  // Where a worker is with the job it claimed.
  datatype Phase =
    | Taken         // claimed
    | Working       // its step is marked running
    | HandlerOk     // the handler succeeded
    | HandlerErr    // the handler failed
    | JobDone       // the job is marked succeeded, the step not yet looked at
    | JobFailed     // the job is given back or dead, the step not yet looked at

  datatype Flight = Flight(job: nat, step: nat, batch: Option<nat>, phase: Phase)

  // flights: by worker. ready: what is left of the dispatcher's last query.
  datatype World = World(db: Db, flights: map<nat, Flight>, ready: set<nat>)

  datatype Event =
    // a worker
    | Claim(w: nat, j: nat) | Begin(w: nat) | Expand(w: nat, n: nat) | CopyBatch(w: nat) | Finish(w: nat) | Err(w: nat)
    | Succeed(w: nat) | Finalize(w: nat) | Fail(w: nat) | FailStep(w: nat) | Crash(w: nat)
    // the supervisor, in two statements
    | Requeue(expired: set<nat>) | FailDead
    // the dispatcher: one query, then one insert for each step it found
    | Query | Dispatch(s: nat)
    | Judge
    // the operator; retry and cancel are several statements
    | CancelRun | CancelJobs | RetryJobs | RetryBatches | RetrySteps | RetryRun
    | PlayLevel(level: int) | ReplayLevel(level: int) | PlayStep(s: nat) | ReplayStep(s: nat)

  predicate At(w: World, k: nat, phase: Phase) {
    k in w.flights && w.flights[k].phase == phase
  }

  predicate IsStepJob(w: World, k: nat) {
    k in w.flights && w.flights[k].batch.None?
  }

  predicate IsCopyStep(w: World, s: nat) {
    s in w.db.steps && w.db.steps[s].copies
  }

  predicate Enabled(w: World, e: Event) {
    match e
    case Claim(k, j) => k !in w.flights && Claimable(w.db, j)
    case Begin(k) => At(w, k, Taken)
    case Expand(k, n) => At(w, k, Working) && IsStepJob(w, k) && IsCopyStep(w, w.flights[k].step)
    case CopyBatch(k) => At(w, k, Working) && w.flights[k].batch.Some?
    case Finish(k) => At(w, k, Working) && IsStepJob(w, k) && !IsCopyStep(w, w.flights[k].step)
    case Err(k) => At(w, k, Working)
    case Succeed(k) => At(w, k, HandlerOk)
    case Finalize(k) => At(w, k, JobDone)
    case Fail(k) => At(w, k, HandlerErr)
    case FailStep(k) => At(w, k, JobFailed)
    case Crash(k) => k in w.flights
    case Query => w.ready == {}
    case Dispatch(s) => s in w.ready
    case _ => true
  }

  function Moved(w: World, k: nat, phase: Phase, db: Db): World
    requires k in w.flights
  {
    w.(db := db, flights := w.flights[k := w.flights[k].(phase := phase)])
  }

  function Landed(w: World, k: nat, db: Db): World {
    w.(db := db, flights := w.flights - {k})
  }

  function ClaimedBy(w: World, k: nat, j: nat): World
    requires Claimable(w.db, j)
  {
    w.(db := ClaimedJob(w.db, j), flights := w.flights[k := Flight(j, w.db.jobs[j].step, w.db.jobs[j].batch, Taken)])
  }

  // The expansion is one transaction. When the step already has a batch with one of the numbers,
  // the batch is kept, and the job for the new batch id breaks its foreign key: the handler fails.
  function ExpandedBy(w: World, k: nat, n: nat): World
    requires k in w.flights
  {
    if HasBatchBelow(w.db, w.flights[k].step, n) then Moved(w, k, HandlerErr, w.db)
    else Moved(w, k, HandlerOk, Expanded(w.db, w.flights[k].step, n))
  }

  predicate IsWorker(e: Event) {
    e.Claim? || e.Begin? || e.Expand? || e.CopyBatch? || e.Finish? || e.Err? || e.Succeed? || e.Finalize? || e.Fail? ||
      e.FailStep? || e.Crash?
  }

  function WorkerStep(w: World, e: Event): World
    requires Enabled(w, e) && IsWorker(e)
  {
    match e
    case Claim(k, j) => ClaimedBy(w, k, j)
    case Begin(k) => Moved(w, k, Working, Begun(w.db, w.flights[k].step))
    case Expand(k, n) => ExpandedBy(w, k, n)
    case CopyBatch(k) => Moved(w, k, HandlerOk, BatchDone(w.db, w.flights[k].batch.value))
    case Finish(k) => Moved(w, k, HandlerOk, w.db)
    case Err(k) => Moved(w, k, HandlerErr, w.db)
    case Succeed(k) => Moved(w, k, JobDone, SucceededJob(w.db, w.flights[k].job))
    case Finalize(k) => Landed(w, k, Finalized(w.db, w.flights[k].step))
    case Fail(k) => Moved(w, k, JobFailed, FailedJob(w.db, w.flights[k].job))
    case FailStep(k) => Landed(w, k, StepFailed(w.db, w.flights[k].step))
    case Crash(k) => Landed(w, k, w.db)
  }

  // What an operator's event does to the rows; the events of the others leave them alone.
  function Operated(db: Db, e: Event): Db {
    match e
    case CancelRun => db.(run := RunCancelled)
    case CancelJobs => JobsCancelled(db)
    case RetryJobs => JobsRetried(db)
    case RetryBatches => Reopened(db, db.steps.Keys)
    case RetrySteps => StepsRetried(db)
    case RetryRun => db.(run := RunRunning)
    case PlayLevel(level) => Played(db, AtLevel(db, level))
    case ReplayLevel(level) => Replayed(db, FromLevel(db, level))
    case PlayStep(s) => Played(db, {s})
    case ReplayStep(s) => Replayed(db, Descendants(db, s))
    case _ => db
  }

  function Next(w: World, e: Event): World
    requires Enabled(w, e)
  {
    if IsWorker(e) then WorkerStep(w, e)
    else
      match e
      case Requeue(expired) => w.(db := Requeued(w.db, expired))
      case FailDead => w.(db := DeadFailed(w.db))
      case Query => w.(ready := Ready(w.db))
      case Dispatch(s) => w.(db := Enqueued(w.db, s, None), ready := w.ready - {s})
      case Judge => w.(db := Judged(w.db))
      case _ => w.(db := Operated(w.db, e))
  }

  // Some order of events, each possible where it happens.
  ghost predicate Possible(w: World, es: seq<Event>)
    decreases |es|
  {
    es == [] || (Enabled(w, es[0]) && Possible(Next(w, es[0]), es[1..]))
  }

  ghost function After(w: World, es: seq<Event>): World
    requires Possible(w, es)
    decreases |es|
  {
    if es == [] then w else After(Next(w, es[0]), es[1..])
  }

  // A new run, as startRun commits it: no claims, nothing but the first jobs.
  ghost predicate Started(w: World) {
    && w.flights == map[] && w.ready == {} && w.db.batches == map[]
    && (forall s <- w.db.steps :: w.db.steps[s].status == Pending)
    && (forall j <- w.db.jobs :: j < w.db.next && FirstJob(w.db, w.db.jobs[j]))
    && (forall i, j :: i in w.db.jobs && j in w.db.jobs && w.db.jobs[i].step == w.db.jobs[j].step ==> i == j)
  }

  predicate FirstJob(db: Db, job: Job) {
    job.step in db.steps && db.steps[job.step].deps == [] && job == Job(job.step, None, Waiting, 0, MAX_ATTEMPTS)
  }
}
