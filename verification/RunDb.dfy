/** The rows of one run and what each statement does to them. */
module RunDb {
  import opened Wrappers

  datatype StepStatus = Pending | Running | Succeeded | Failed | Cancelled

  datatype JobStatus = Waiting | Claimed | Done | Broken | Dead

  datatype RunStatus = RunPending | RunRunning | RunSucceeded | RunFailed | RunCancelled

  // copies: a copy_table step, whose job is expanded into batches.
  datatype Row = Row(deps: seq<nat>, level: int, unlocked: bool, copies: bool, status: StepStatus)

  // A job of a batch, or the one job of its step.
  datatype Job = Job(step: nat, batch: Option<nat>, status: JobStatus, attempts: nat, max: nat)

  datatype Batch = Batch(step: nat, number: nat, status: StepStatus)

  // Ids of jobs and batches are taken from next on.
  datatype Db = Db(run: RunStatus, steps: map<nat, Row>, jobs: map<nat, Job>, batches: map<nat, Batch>, next: nat)

  const MAX_ATTEMPTS := 3

  /* ---- the queue ---- */

  function Enqueued(db: Db, step: nat, batch: Option<nat>): Db {
    db.(jobs := db.jobs[db.next := Job(step, batch, Waiting, 0, MAX_ATTEMPTS)], next := db.next + 1)
  }

  predicate Claimable(db: Db, j: nat) {
    j in db.jobs && db.jobs[j].status == Waiting && db.jobs[j].attempts < db.jobs[j].max
  }

  function WithJob(db: Db, j: nat, job: Job): Db {
    db.(jobs := db.jobs[j := job])
  }

  function ClaimedJob(db: Db, j: nat): Db
    requires Claimable(db, j)
  {
    WithJob(db, j, db.jobs[j].(status := Claimed, attempts := db.jobs[j].attempts + 1))
  }

  function SucceededJob(db: Db, j: nat): Db {
    if j in db.jobs then WithJob(db, j, db.jobs[j].(status := Done)) else db
  }

  // Back to the queue, or dead after the last attempt.
  function Returned(job: Job): Job {
    job.(status := if job.attempts >= job.max then Dead else Waiting)
  }

  function FailedJob(db: Db, j: nat): Db {
    if j in db.jobs then WithJob(db, j, Returned(db.jobs[j])) else db
  }

  // expired: the jobs whose lock is too old.
  function Requeued(db: Db, expired: set<nat>): Db {
    db.(jobs := map j | j in db.jobs ::
      if j in expired && db.jobs[j].status == Claimed then Returned(db.jobs[j]) else db.jobs[j])
  }

  predicate HasDeadJob(db: Db, s: nat) {
    exists j <- db.jobs :: db.jobs[j].step == s && db.jobs[j].status == Dead
  }

  predicate HasDeadStepJob(db: Db, s: nat) {
    exists j <- db.jobs :: db.jobs[j].step == s && db.jobs[j].batch.None? && db.jobs[j].status == Dead
  }

  function WithStatus(db: Db, s: nat, status: StepStatus): Db {
    if s in db.steps then db.(steps := db.steps[s := db.steps[s].(status := status)]) else db
  }

  function DeadFailed(db: Db): Db {
    db.(steps := map s | s in db.steps ::
      if HasDeadStepJob(db, s) && db.steps[s].status != Succeeded && db.steps[s].status != Failed
      then db.steps[s].(status := Failed) else db.steps[s])
  }

  function Revived(job: Job): Job {
    job.(status := Waiting, attempts := 0)
  }

  // A batch that was not finished starts over.
  function Reopened(db: Db, steps: set<nat>): Db {
    db.(batches := map b | b in db.batches ::
      var x := db.batches[b];
      if x.step in steps && (x.status == Failed || x.status == Running) then x.(status := Pending) else x)
  }

  /* ---- the worker ---- */

  function Begun(db: Db, s: nat): Db {
    if s in db.steps && db.steps[s].status == Pending then WithStatus(db, s, Running) else db
  }

  predicate HasBatches(db: Db, s: nat) {
    exists b <- db.batches :: db.batches[b].step == s
  }

  predicate OpenBatch(db: Db, s: nat) {
    exists b <- db.batches ::
      db.batches[b].step == s && db.batches[b].status != Succeeded && db.batches[b].status != Cancelled
  }

  predicate OpenJob(db: Db, s: nat) {
    exists j <- db.jobs :: db.jobs[j].step == s && (db.jobs[j].status == Waiting || db.jobs[j].status == Claimed)
  }

  predicate Finishable(db: Db, s: nat) {
    !HasBatches(db, s) || (!OpenBatch(db, s) && !OpenJob(db, s))
  }

  function Finalized(db: Db, s: nat): Db {
    if Finishable(db, s) then WithStatus(db, s, Succeeded) else db
  }

  function StepFailed(db: Db, s: nat): Db {
    if HasDeadJob(db, s) then WithStatus(db, s, Failed) else db
  }

  function BatchDone(db: Db, b: nat): Db {
    if b in db.batches then db.(batches := db.batches[b := db.batches[b].(status := Succeeded)]) else db
  }

  predicate HasBatchBelow(db: Db, s: nat, n: nat) {
    exists b <- db.batches :: db.batches[b].step == s && db.batches[b].number < n
  }

  // One more batch and its job.
  function BatchAdded(db: Db, s: nat, number: nat): Db {
    Enqueued(db.(batches := db.batches[db.next := Batch(s, number, Pending)], next := db.next + 1), s, Some(db.next))
  }

  function Expanded(db: Db, s: nat, n: nat): Db
    decreases n
  {
    if n == 0 then db else BatchAdded(Expanded(db, s, n - 1), s, n - 1)
  }

  /* ---- the dispatcher ---- */

  predicate DepsDone(db: Db, s: nat)
    requires s in db.steps
  {
    forall d <- db.steps[s].deps :: d in db.steps && db.steps[d].status == Succeeded
  }

  predicate HasStepJob(db: Db, s: nat) {
    exists j <- db.jobs :: db.jobs[j].step == s && db.jobs[j].batch.None?
  }

  predicate IsReady(db: Db, s: nat) {
    s in db.steps && db.steps[s].status == Pending && db.steps[s].unlocked && DepsDone(db, s) && !HasStepJob(db, s)
  }

  function Ready(db: Db): set<nat> {
    set s | s in db.steps && IsReady(db, s)
  }

  /* ---- the verdict ---- */

  predicate AllSucceeded(db: Db) {
    forall s <- db.steps :: db.steps[s].status == Succeeded
  }

  predicate AnyFailed(db: Db) {
    exists s <- db.steps :: db.steps[s].status == Failed || db.steps[s].status == Cancelled
  }

  predicate AnyRunning(db: Db) {
    exists s <- db.steps :: db.steps[s].status == Running
  }

  // A dependency that is not a step of the run does not count.
  predicate IsRunnable(db: Db, s: nat) {
    s in db.steps && db.steps[s].status == Pending &&
    forall d <- db.steps[s].deps :: d in db.steps ==> db.steps[d].status == Succeeded
  }

  predicate AnyRunnable(db: Db) {
    exists s <- db.steps :: IsRunnable(db, s)
  }

  function Verdict(db: Db): Option<RunStatus> {
    if db.run != RunRunning || db.steps == map[] then None
    else if AllSucceeded(db) then Some(RunSucceeded)
    else if AnyFailed(db) && !AnyRunning(db) && !AnyRunnable(db) then Some(RunFailed)
    else None
  }

  function Judged(db: Db): Db {
    if Verdict(db).Some? then db.(run := Verdict(db).value) else db
  }

  /* ---- the operator ---- */

  function JobsCancelled(db: Db): Db {
    db.(jobs := map j | j in db.jobs ::
      if db.jobs[j].status == Waiting || db.jobs[j].status == Claimed then db.jobs[j].(status := Dead) else db.jobs[j])
  }

  function JobsRetried(db: Db): Db {
    db.(jobs := map j | j in db.jobs ::
      if db.jobs[j].status == Broken || db.jobs[j].status == Dead || db.jobs[j].status == Claimed
      then Revived(db.jobs[j]) else db.jobs[j])
  }

  function StepsRetried(db: Db): Db {
    db.(steps := map s | s in db.steps ::
      if db.steps[s].status == Failed || db.steps[s].status == Running || db.steps[s].status == Cancelled
      then db.steps[s].(status := Pending) else db.steps[s])
  }

  function RunReopened(db: Db): Db {
    if db.run == RunFailed || db.run == RunCancelled || db.run == RunSucceeded then db.(run := RunRunning) else db
  }

  function AtLevel(db: Db, level: int): set<nat> {
    set s | s in db.steps && db.steps[s].level == level
  }

  function FromLevel(db: Db, level: int): set<nat> {
    set s | s in db.steps && db.steps[s].level >= level
  }

  function Unlocked(db: Db, steps: set<nat>): Db {
    db.(steps := map s | s in db.steps :: if s in steps then db.steps[s].(unlocked := true) else db.steps[s])
  }

  function StepsReset(db: Db, steps: set<nat>): Db {
    db.(steps := map s | s in db.steps ::
      if s in steps && (db.steps[s].status == Failed || db.steps[s].status == Cancelled)
      then db.steps[s].(status := Pending) else db.steps[s])
  }

  function JobsReset(db: Db, steps: set<nat>): Db {
    db.(jobs := map j | j in db.jobs ::
      if db.jobs[j].step in steps && db.jobs[j].status != Done then Revived(db.jobs[j]) else db.jobs[j])
  }

  // Play: unlock the steps and give every unfinished job of theirs another chance.
  function Played(db: Db, steps: set<nat>): Db {
    RunReopened(Reopened(JobsReset(StepsReset(Unlocked(db, steps), steps), steps), steps))
  }

  // Replay: the steps start from nothing.
  function Replayed(db: Db, steps: set<nat>): Db {
    RunReopened(db.(
      jobs := map j | j in db.jobs && db.jobs[j].step !in steps :: db.jobs[j],
      batches := map b | b in db.batches && db.batches[b].step !in steps :: db.batches[b],
      steps := map s | s in db.steps ::
        if s in steps then db.steps[s].(status := Pending, unlocked := true) else db.steps[s]))
  }

  // Nothing outside the steps depends on one of them.
  ghost predicate ClosedUnderDependents(db: Db, steps: set<nat>) {
    forall s <- db.steps :: s !in steps ==> forall d <- db.steps[s].deps :: d !in steps
  }

  // The steps that wait for s, at any remove: a walk of dependencies leads from each to s.
  ghost predicate Walk(db: Db, path: seq<nat>) {
    && path != []
    && (forall k :: 0 <= k < |path| ==> path[k] in db.steps)
    && (forall k :: 0 <= k < |path| - 1 ==> path[k + 1] in db.steps[path[k]].deps)
  }

  ghost predicate WaitsFor(db: Db, t: nat, s: nat) {
    exists path :: Walk(db, path) && path[0] == t && path[|path| - 1] == s
  }

  predicate HasDepIn(db: Db, s: nat, found: set<nat>)
    requires s in db.steps
  {
    exists d <- db.steps[s].deps :: d in found
  }

  function Dependents(db: Db, found: set<nat>): set<nat> {
    set s | s in db.steps && HasDepIn(db, s, found)
  }

  // The recursive query: dependents are added until nothing is new.
  function Closure(db: Db, found: set<nat>): set<nat>
    requires found <= db.steps.Keys
    decreases db.steps.Keys - found
  {
    var new_ := Dependents(db, found) - found;
    if new_ == {} then found else Closure(db, found + new_)
  }

  function Descendants(db: Db, s: nat): set<nat> {
    if s in db.steps then Closure(db, {s}) else {}
  }
}
