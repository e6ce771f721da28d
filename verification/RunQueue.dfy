/** What holds of the queue under every interleaving, whatever the operator and the supervisor do. */
module RunQueue {
  import opened Wrappers
  import opened RunDb
  import opened RunEvents

  /* ---- attempts ---- */

  predicate JobOk(job: Job) {
    0 < job.max && job.attempts <= job.max && (job.status == Waiting ==> job.attempts < job.max)
  }

  predicate QueueOk(db: Db) {
    forall j <- db.jobs :: j < db.next && JobOk(db.jobs[j])
  }

  lemma {:induction false} ExpandedQueue(db: Db, s: nat, n: nat)
    requires QueueOk(db)
    ensures QueueOk(Expanded(db, s, n)) && Expanded(db, s, n).next == db.next + 2 * n
  {
    if n > 0 {
      ExpandedQueue(db, s, n - 1);
    }
  }

  // What a worker writes to its step or its batch leaves the jobs alone.
  lemma StepWrites(db: Db)
    ensures forall s :: Begun(db, s) == db.(steps := Begun(db, s).steps)
    ensures forall s :: Finalized(db, s) == db.(steps := Finalized(db, s).steps)
    ensures forall s :: StepFailed(db, s) == db.(steps := StepFailed(db, s).steps)
    ensures forall b :: BatchDone(db, b) == db.(batches := BatchDone(db, b).batches)
  {}

  // Only the status of its step can change.
  ghost predicate OnlyStatus(a: Db, b: Db, s: nat) {
    && a.steps.Keys == b.steps.Keys && (forall t <- a.steps :: t != s ==> b.steps[t] == a.steps[t])
    && (s in a.steps ==> b.steps[s] == a.steps[s].(status := b.steps[s].status))
  }

  lemma StatusWrites(db: Db)
    ensures forall s ::
      OnlyStatus(db, Begun(db, s), s) && OnlyStatus(db, Finalized(db, s), s) && OnlyStatus(db, StepFailed(db, s), s)
  {}

  lemma QueueKept(w: World, e: Event)
    requires QueueOk(w.db) && Enabled(w, e)
    ensures QueueOk(Next(w, e).db)
  {
    hide WorkerStep, Operated, HasDeadStepJob, Verdict, Ready;
    if IsWorker(e) {
      WorkerQueue(w, e);
    } else {
      OperatedQueue(w.db, e);
    }
  }

  lemma WorkerQueue(w: World, e: Event)
    requires QueueOk(w.db) && Enabled(w, e) && IsWorker(e)
    ensures QueueOk(WorkerStep(w, e).db)
  {
    StepWrites(w.db);
    hide Expanded, Begun, Finalized, StepFailed, BatchDone, HasBatchBelow;
    if e.Expand? {
      ExpandedQueue(w.db, w.flights[e.w].step, e.n);
    }
  }

  lemma OperatedQueue(db: Db, e: Event)
    requires QueueOk(db)
    ensures QueueOk(Operated(db, e))
  {
    hide AtLevel, FromLevel, Descendants;
  }

  // No job is ever tried more than its maximum, and every job that waits can be claimed.
  lemma {:induction false} AttemptsBounded(w: World, es: seq<Event>)
    requires Started(w) && Possible(w, es)
    ensures QueueOk(After(w, es).db)
    ensures forall j <- After(w, es).db.jobs :: After(w, es).db.jobs[j].status == Waiting ==>
      Claimable(After(w, es).db, j)
  {
    QueueAlong(w, es);
  }

  lemma {:induction false} QueueAlong(w: World, es: seq<Event>)
    requires QueueOk(w.db) && Possible(w, es)
    ensures QueueOk(After(w, es).db)
    decreases |es|
  {
    if es != [] {
      QueueKept(w, es[0]);
      hide Next, QueueOk, Enabled;
      QueueAlong(Next(w, es[0]), es[1..]);
    }
  }

  /* ---- the attempts that are left ---- */

  // Summed over the jobs with ids below n.
  function AttemptsLeft(jobs: map<nat, Job>, n: nat): int {
    if n == 0 then 0
    else AttemptsLeft(jobs, n - 1) + if n - 1 in jobs then jobs[n - 1].max - jobs[n - 1].attempts else 0
  }

  function Left(db: Db): int {
    AttemptsLeft(db.jobs, db.next)
  }

  lemma {:induction false} LeftBounds(db: Db, n: nat)
    requires QueueOk(db)
    ensures AttemptsLeft(db.jobs, n) >= 0
  {
    if n > 0 {
      LeftBounds(db, n - 1);
    }
  }

  predicate SameAttempts(a: map<nat, Job>, b: map<nat, Job>) {
    a.Keys == b.Keys && forall j <- a :: a[j].attempts == b[j].attempts && a[j].max == b[j].max
  }

  lemma {:induction false} LeftSame(a: map<nat, Job>, b: map<nat, Job>, n: nat)
    requires SameAttempts(a, b)
    ensures AttemptsLeft(a, n) == AttemptsLeft(b, n)
  {
    if n > 0 {
      LeftSame(a, b, n - 1);
    }
  }

  lemma {:induction false} LeftUpdate(jobs: map<nat, Job>, j: nat, job: Job, n: nat)
    ensures AttemptsLeft(jobs[j := job], n) ==
      AttemptsLeft(jobs, n) +
      if j < n then job.max - job.attempts - (if j in jobs then jobs[j].max - jobs[j].attempts else 0) else 0
  {
    if n > 0 {
      LeftUpdate(jobs, j, job, n - 1);
    }
  }

  // The operator's second chances are the only events that give attempts back.
  predicate GivesBack(e: Event) {
    e.RetryJobs? || e.PlayLevel? || e.ReplayLevel? || e.PlayStep? || e.ReplayStep?
  }

  // New jobs that e inserts.
  function Inserts(w: World, e: Event): nat
    requires Enabled(w, e)
  {
    if e.Dispatch? then 1
    else if e.Expand? && !HasBatchBelow(w.db, w.flights[e.w].step, e.n) then e.n
    else 0
  }

  lemma {:induction false} LeftExpanded(db: Db, s: nat, n: nat)
    requires QueueOk(db)
    ensures Left(Expanded(db, s, n)) == Left(db) + n * MAX_ATTEMPTS
  {
    hide QueueOk, Left, BatchAdded;
    if n > 0 {
      LeftExpanded(db, s, n - 1);
      ExpandedQueue(db, s, n - 1);
      LeftAdded(Expanded(db, s, n - 1), s, n - 1);
    }
  }

  lemma LeftAdded(db: Db, s: nat, number: nat)
    requires QueueOk(db)
    ensures Left(BatchAdded(db, s, number)) == Left(db) + MAX_ATTEMPTS
  {
    var job := Job(s, Some(db.next), Waiting, 0, MAX_ATTEMPTS);
    LeftUpdate(db.jobs, db.next + 1, job, db.next + 2);
    LeftUpdate(db.jobs, db.next + 1, job, db.next);
  }

  // A claim uses up one attempt; each new job brings its three; nothing else counts.
  lemma LeftStep(w: World, e: Event)
    requires QueueOk(w.db) && Enabled(w, e) && !GivesBack(e)
    ensures Left(Next(w, e).db) == Left(w.db) + Inserts(w, e) * MAX_ATTEMPTS - if e.Claim? then 1 else 0
  {
    hide HasDeadJob, HasDeadStepJob, Finishable, Verdict, Ready, Expanded, AttemptsLeft, HasBatchBelow;
    var n := w.db.next;
    if e.Claim? {
      var j := e.j;
      LeftUpdate(w.db.jobs, j, w.db.jobs[j].(status := Claimed, attempts := w.db.jobs[j].attempts + 1), n);
    } else if e.Expand? {
      LeftExpanded(w.db, w.flights[e.w].step, e.n);
    } else if e.Dispatch? {
      EnqueuedLeft(w.db, e.s);
    } else {
      LeftSame(w.db.jobs, Next(w, e).db.jobs, n);
    }
  }

  lemma EnqueuedLeft(db: Db, s: nat)
    requires QueueOk(db)
    ensures Left(Enqueued(db, s, None)) == Left(db) + MAX_ATTEMPTS
  {
    LeftUpdate(db.jobs, db.next, Job(s, None, Waiting, 0, MAX_ATTEMPTS), db.next + 1);
    LeftUpdate(db.jobs, db.next, Job(s, None, Waiting, 0, MAX_ATTEMPTS), db.next);
  }

  ghost function Claims(es: seq<Event>): nat {
    if es == [] then 0 else (if es[0].Claim? then 1 else 0) + Claims(es[1..])
  }

  ghost function Inserted(w: World, es: seq<Event>): nat
    requires Possible(w, es)
    decreases |es|
  {
    if es == [] then 0 else Inserts(w, es[0]) + Inserted(Next(w, es[0]), es[1..])
  }

  // The claims of any stretch without second chances, however its events interleave, are paid for by
  // the attempts it starts with and three for each job it inserts.
  lemma {:induction false} ClaimsPaid(w: World, es: seq<Event>)
    requires QueueOk(w.db) && Possible(w, es) && forall e <- es :: !GivesBack(e)
    ensures Claims(es) == Left(w.db) + Inserted(w, es) * MAX_ATTEMPTS - Left(After(w, es).db)
    ensures Claims(es) <= Left(w.db) + Inserted(w, es) * MAX_ATTEMPTS
    decreases |es|
  {
    QueueAlong(w, es);
    LeftBounds(After(w, es).db, After(w, es).db.next);
    if es != [] {
      QueueKept(w, es[0]);
      LeftStep(w, es[0]);
      hide Next, QueueOk, Enabled, Left, GivesBack;
      ClaimsPaid(Next(w, es[0]), es[1..]);
    }
  }

  /* ---- one job for each step, one for each batch ---- */

  ghost predicate Keyed(db: Db) {
    && (forall j <- db.jobs :: j < db.next)
    && (forall b <- db.batches :: b < db.next)
    && (forall i, j :: i in db.jobs && j in db.jobs && SameOwner(db.jobs[i], db.jobs[j]) ==> i == j)
    && (forall j <- db.jobs :: BatchKnown(db, db.jobs[j]))
    && (forall a, b :: a in db.batches && b in db.batches && SameRange(db.batches[a], db.batches[b]) ==> a == b)
  }

  predicate SameOwner(a: Job, b: Job) {
    a.step == b.step && a.batch == b.batch
  }

  predicate SameRange(a: Batch, b: Batch) {
    a.step == b.step && a.number == b.number
  }

  predicate BatchKnown(db: Db, job: Job) {
    job.batch.Some? ==> job.batch.value in db.batches && db.batches[job.batch.value].step == job.step
  }

  // A claim is of its step, and so is its batch: ids are not used again.
  predicate ClaimMatches(db: Db, f: Flight) {
    && f.job < db.next && (f.job in db.jobs ==> db.jobs[f.job].step == f.step && db.jobs[f.job].batch == f.batch)
    && (f.batch.Some? ==> f.batch.value < db.next)
    && (f.batch.Some? && f.batch.value in db.batches ==> db.batches[f.batch.value].step == f.step)
  }

  // Each step that the dispatcher has found ready still has no job.
  ghost predicate OneJob(w: World) {
    Keyed(w.db) && (forall s <- w.ready :: !HasStepJob(w.db, s)) && forall k <- w.flights ::
      ClaimMatches(w.db, w.flights[k])
  }

  // Rows come and go, but an id keeps its owner.
  ghost predicate OwnersStay(a: Db, b: Db) {
    && a.next <= b.next
    && (forall j <- b.jobs :: (j < a.next ==> j in a.jobs) && (j in a.jobs ==> SameOwner(a.jobs[j], b.jobs[j])))
    && (forall x <- b.batches ::
        (x < a.next ==> x in a.batches) && (x in a.batches ==> SameRange(a.batches[x], b.batches[x])))
  }

  lemma ClaimsMatch(w: World, e: Event)
    requires Enabled(w, e) && OneJob(w) && OwnersStay(w.db, Next(w, e).db)
    ensures forall k <- Next(w, e).flights :: ClaimMatches(Next(w, e).db, Next(w, e).flights[k])
  {
    hide Keyed, HasStepJob, Next, Enabled;
    var v := Next(w, e);
    forall k | k in v.flights ensures ClaimMatches(v.db, v.flights[k]) {
      FlightFrom(w, e, k);
      if k in w.flights {
        StillMatches(w.db, v.db, w.flights[k], v.flights[k]);
      } else {
        NewlyMatches(w.db, v.db, v.flights[k]);
      }
    }
  }

  // A claim in flight was there before, or has just been made.
  lemma FlightFrom(w: World, e: Event, k: nat)
    requires Enabled(w, e) && k in Next(w, e).flights
    ensures var f := Next(w, e).flights[k];
      if k in w.flights then f == w.flights[k].(phase := f.phase)
      else f.job in w.db.jobs && f.step == w.db.jobs[f.job].step && f.batch == w.db.jobs[f.job].batch
  {
    hide Expanded, HasDeadJob, HasDeadStepJob, Finishable, Verdict, Operated, HasBatchBelow;
  }

  lemma StillMatches(a: Db, b: Db, f: Flight, g: Flight)
    requires ClaimMatches(a, f) && OwnersStay(a, b) && g == f.(phase := g.phase)
    ensures ClaimMatches(b, g)
  {
    assert f.job in b.jobs ==> f.job in a.jobs && SameOwner(a.jobs[f.job], b.jobs[f.job]);
    assert f.batch.Some? && f.batch.value in b.batches ==>
      f.batch.value in a.batches && SameRange(a.batches[f.batch.value], b.batches[f.batch.value]);
  }

  lemma NewlyMatches(a: Db, b: Db, f: Flight)
    requires Keyed(a) && OwnersStay(a, b) && f.job in a.jobs
    requires f.step == a.jobs[f.job].step && f.batch == a.jobs[f.job].batch
    ensures ClaimMatches(b, f)
  {
    assert BatchKnown(a, a.jobs[f.job]);
    StillMatches(a, b, f, f);
  }

  lemma {:induction false} ExpandedOwners(db: Db, s: nat, n: nat)
    requires (forall j <- db.jobs :: j < db.next) && (forall b <- db.batches :: b < db.next)
    ensures OwnersStay(db, Expanded(db, s, n)) && forall j <- Expanded(db, s, n).jobs :: j < Expanded(db, s, n).next
    ensures forall b <- Expanded(db, s, n).batches :: b < Expanded(db, s, n).next
  {
    if n > 0 {
      ExpandedOwners(db, s, n - 1);
    }
  }

  lemma EnqueuedOwners(db: Db, s: nat)
    requires forall j <- db.jobs :: j < db.next
    ensures OwnersStay(db, Enqueued(db, s, None))
  {}

  lemma RowsOwners(a: Db, b: Db)
    requires SameRows(a, b)
    ensures OwnersStay(a, b)
  {}

  lemma ReplayedOwners(db: Db, steps: set<nat>)
    ensures OwnersStay(db, Replayed(db, steps))
  {}

  // The same rows, but for their state.
  ghost predicate SameRows(a: Db, b: Db) {
    && a.jobs.Keys == b.jobs.Keys && (forall j <- a.jobs :: SameOwner(a.jobs[j], b.jobs[j]))
    && a.batches.Keys == b.batches.Keys && (forall x <- a.batches :: SameRange(a.batches[x], b.batches[x]))
    && a.next == b.next
  }

  lemma RowsKeep(a: Db, b: Db)
    requires SameRows(a, b) && Keyed(a)
    ensures Keyed(b) && forall s :: HasStepJob(b, s) ==> HasStepJob(a, s)
  {
    hide BatchKnown;
    forall j | j in b.jobs ensures BatchKnown(b, b.jobs[j]) {
      assert BatchKnown(a, a.jobs[j]) && SameOwner(a.jobs[j], b.jobs[j]);
      BatchKnownKept(a, b, a.jobs[j], b.jobs[j]);
    }
  }

  lemma BatchKnownKept(a: Db, b: Db, x: Job, y: Job)
    requires SameRows(a, b) && BatchKnown(a, x) && SameOwner(x, y)
    ensures BatchKnown(b, y)
  {
    if x.batch.Some? {
      assert SameRange(a.batches[x.batch.value], b.batches[x.batch.value]);
    }
  }

  lemma EnqueuedKeyed(db: Db, s: nat)
    requires Keyed(db) && !HasStepJob(db, s)
    ensures Keyed(Enqueued(db, s, None))
    ensures forall t :: HasStepJob(Enqueued(db, s, None), t) ==> HasStepJob(db, t) || t == s
  {
    var after := Enqueued(db, s, None);
    assert forall j <- db.jobs :: after.jobs[j] == db.jobs[j];
  }

  // The batches of s are numbered below done or from limit on.
  predicate Numbered(db: Db, s: nat, done: nat, limit: nat) {
    forall b <- db.batches :: db.batches[b].step == s ==> db.batches[b].number < done || db.batches[b].number >= limit
  }

  lemma BatchAddedKeyed(db: Db, s: nat, number: nat, limit: nat)
    requires Keyed(db) && number < limit && Numbered(db, s, number, limit)
    ensures Keyed(BatchAdded(db, s, number)) && Numbered(BatchAdded(db, s, number), s, number + 1, limit)
    ensures forall t :: HasStepJob(BatchAdded(db, s, number), t) ==> HasStepJob(db, t)
  {
    var after := BatchAdded(db, s, number);
    assert forall j <- db.jobs :: after.jobs[j] == db.jobs[j] && BatchKnown(db, db.jobs[j]);
    assert forall b <- db.batches :: after.batches[b] == db.batches[b];
    var j := db.next + 1;
    assert after.jobs[j] == Job(s, Some(db.next), Waiting, 0, MAX_ATTEMPTS);
    assert forall i <- db.jobs :: BatchKnown(db, db.jobs[i]) ==> !SameOwner(db.jobs[i], after.jobs[j]);
  }

  lemma {:induction false} ExpandedKeyed(db: Db, s: nat, n: nat, limit: nat)
    requires Keyed(db) && n <= limit && Numbered(db, s, 0, limit)
    ensures Keyed(Expanded(db, s, n)) && Numbered(Expanded(db, s, n), s, n, limit)
    ensures forall t :: HasStepJob(Expanded(db, s, n), t) ==> HasStepJob(db, t)
  {
    hide Keyed, HasStepJob, BatchAdded, Numbered;
    if n > 0 {
      ExpandedKeyed(db, s, n - 1, limit);
      BatchAddedKeyed(Expanded(db, s, n - 1), s, n - 1, limit);
    }
  }

  lemma ReplayedKeyed(db: Db, steps: set<nat>)
    requires Keyed(db)
    ensures Keyed(Replayed(db, steps))
    ensures forall s :: HasStepJob(Replayed(db, steps), s) ==> HasStepJob(db, s)
  {
    var after := Replayed(db, steps);
    assert forall j <- after.jobs :: after.jobs[j] == db.jobs[j];
    forall j | j in after.jobs ensures BatchKnown(after, after.jobs[j]) {
      assert BatchKnown(db, db.jobs[j]);
    }
  }

  // Events that leave the rows but for their state.
  lemma RowsStep(w: World, e: Event)
    requires Enabled(w, e) && !e.Expand? && !e.Dispatch? && !e.ReplayLevel? && !e.ReplayStep?
    ensures SameRows(w.db, Next(w, e).db)
  {
    hide HasDeadStepJob, Verdict, Ready, WorkerStep, Operated;
    if IsWorker(e) {
      WorkerRows(w, e);
    } else {
      OperatedRows(w.db, e);
    }
  }

  lemma WorkerRows(w: World, e: Event)
    requires Enabled(w, e) && IsWorker(e) && !e.Expand?
    ensures SameRows(w.db, WorkerStep(w, e).db)
  {
    hide HasDeadJob, Finishable;
  }

  lemma OperatedRows(db: Db, e: Event)
    requires !e.ReplayLevel? && !e.ReplayStep?
    ensures SameRows(db, Operated(db, e))
  {
    hide AtLevel, Played;
    if e.PlayLevel? {
      PlayedSameRows(db, AtLevel(db, e.level));
    } else if e.PlayStep? {
      PlayedSameRows(db, {e.s});
    }
  }

  lemma PlayedSameRows(db: Db, steps: set<nat>)
    ensures SameRows(db, Played(db, steps))
  {}

  lemma KeyedIds(db: Db)
    requires Keyed(db)
    ensures (forall j <- db.jobs :: j < db.next) && (forall b <- db.batches :: b < db.next)
  {}

  lemma OneJobKept(w: World, e: Event)
    requires OneJob(w) && Enabled(w, e)
    ensures OneJob(Next(w, e))
  {
    hide Keyed, HasStepJob, Expanded, HasDeadJob, HasDeadStepJob, Finishable,
      Verdict, FromLevel, Descendants, Replayed, Enqueued;
    KeyedIds(w.db);
    if e.Expand? {
      var s := w.flights[e.w].step;
      ExpandedOwners(w.db, s, e.n);
      if !HasBatchBelow(w.db, s, e.n) {
        ExpandedKeyed(w.db, s, e.n, e.n);
      }
    } else if e.Dispatch? {
      EnqueuedKeyed(w.db, e.s);
      EnqueuedOwners(w.db, e.s);
    } else if e.ReplayLevel? {
      ReplayedKeyed(w.db, FromLevel(w.db, e.level));
      ReplayedOwners(w.db, FromLevel(w.db, e.level));
    } else if e.ReplayStep? {
      ReplayedKeyed(w.db, Descendants(w.db, e.s));
      ReplayedOwners(w.db, Descendants(w.db, e.s));
    } else {
      RowsStep(w, e);
      RowsKeep(w.db, Next(w, e).db);
      RowsOwners(w.db, Next(w, e).db);
    }
    ClaimsMatch(w, e);
  }

  // However events interleave, even between the dispatcher's query and its inserts, a step never has
  // two jobs of its own, nor a batch two jobs, nor a step two batches with one number.
  lemma {:induction false} OneJobAlways(w: World, es: seq<Event>)
    requires Started(w) && Possible(w, es)
    ensures OneJob(After(w, es))
  {
    OneJobAlong(w, es);
  }

  lemma {:induction false} OneJobAlong(w: World, es: seq<Event>)
    requires OneJob(w) && Possible(w, es)
    ensures OneJob(After(w, es))
    decreases |es|
  {
    if es != [] {
      OneJobKept(w, es[0]);
      hide Next, OneJob, Enabled;
      OneJobAlong(Next(w, es[0]), es[1..]);
    }
  }
}
