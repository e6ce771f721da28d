/** A cancelled run: what can still insert a job when no operator does anything more. */
module RunCancel {
  import opened Wrappers
  import opened RunDb
  import opened RunEvents
  import opened RunQueue
  import opened RunVerdict
  import opened RunHazards
  import opened RunBreaks

  /* ---- the dispatcher does not look at the run ---- */

  function CancelledDb(db: Db): Db {
    JobsCancelled(db.(run := RunCancelled))
  }

  // The query after a cancel finds the steps it would have found before it.
  lemma CancelKeepsReady(db: Db)
    ensures Ready(CancelledDb(db)) == Ready(db)
  {
    var b := CancelledDb(db);
    forall s ensures IsReady(b, s) <==> IsReady(db, s) {
      if HasStepJob(db, s) {
        var j :| j in db.jobs && db.jobs[j].step == s && db.jobs[j].batch.None?;
        assert b.jobs[j].step == s && b.jobs[j].batch.None?;
      }
      assert forall j <- b.jobs :: b.jobs[j].step == db.jobs[j].step && b.jobs[j].batch == db.jobs[j].batch;
    }
  }

  // With nothing left of an earlier query, the next one hands out a job exactly when a step is ready.
  lemma CancelDispatchesExactly(w: World)
    requires w.ready == {}
    ensures var v := w.(db := CancelledDb(w.db));
      (exists s :: Enabled(Next(v, Query), Dispatch(s))) <==> Ready(w.db) != {}
  {
    CancelKeepsReady(w.db);
    var u := Next(w.(db := CancelledDb(w.db)), Query);
    if Ready(w.db) != {} {
      var s :| s in Ready(w.db);
      assert Enabled(u, Dispatch(s));
    }
  }

  /* ---- what the claims that are left can still do ---- */

  // The handler failed, but the job has attempts left.
  predicate Retriable(db: Db, f: Flight) {
    f.phase == HandlerErr && f.job in db.jobs && db.jobs[f.job].attempts < db.jobs[f.job].max
  }

  // The handler may still run.
  predicate Trying(db: Db, f: Flight) {
    f.phase == Taken || f.phase == Working || Retriable(db, f)
  }

  // The job may still be marked done.
  predicate Hopeful(db: Db, f: Flight) {
    Trying(db, f) || f.phase == HandlerOk || f.phase == JobDone
  }

  // The job may still be claimed.
  predicate Returns(job: Job) {
    job.status == Waiting || (job.status == Claimed && job.attempts < job.max)
  }

  predicate CanComplete(w: World, s: nat) {
    || (exists k <- w.flights :: w.flights[k].step == s && Hopeful(w.db, w.flights[k]))
    || exists j <- w.db.jobs :: w.db.jobs[j].step == s && Returns(w.db.jobs[j])
  }

  predicate CanClose(w: World, b: nat) {
    || (exists k <- w.flights :: w.flights[k].batch == Some(b) && Trying(w.db, w.flights[k]))
    || exists j <- w.db.jobs :: w.db.jobs[j].batch == Some(b) && Returns(w.db.jobs[j])
  }

  predicate IsOpen(db: Db, b: nat, s: nat) {
    b in db.batches && db.batches[b].step == s && db.batches[b].status != Succeeded && db.batches[b].status != Cancelled
  }

  predicate CanFinish(w: World, s: nat) {
    CanComplete(w, s) && forall b <- w.db.batches :: IsOpen(w.db, b, s) ==> CanClose(w, b)
  }

  predicate CanSucceed(w: World, s: nat) {
    s in w.db.steps && (w.db.steps[s].status == Succeeded || CanFinish(w, s))
  }

  // A copy_table step, without batches, whose own job may still be handled.
  predicate CanExpand(w: World, s: nat) {
    && IsCopyStep(w, s) && !HasBatchBelow(w.db, s, 1)
    && ((exists k <- w.flights :: w.flights[k].step == s && w.flights[k].batch.None? && Trying(w.db, w.flights[k]))
        || exists j <- w.db.jobs :: w.db.jobs[j].step == s && w.db.jobs[j].batch.None? && Returns(w.db.jobs[j]))
  }

  // A step without a job whose dependencies have succeeded, or may.
  predicate CanDispatch(w: World, t: nat) {
    && t in w.db.steps && w.db.steps[t].status == Pending && w.db.steps[t].unlocked && !HasStepJob(w.db, t)
    && forall d <- w.db.steps[t].deps :: CanSucceed(w, d)
  }

  ghost predicate StillInserts(w: World) {
    w.ready != {} || (exists s :: CanExpand(w, s)) || exists t :: CanDispatch(w, t)
  }

  // Events by which an operator gives steps, jobs or batches another chance.
  predicate Resets(e: Event) {
    GivesBack(e) || e.RetryBatches? || e.RetrySteps?
  }

  /* ---- none of it grows ---- */

  // A claim that may still try was one before, or takes a job that waited.
  lemma TryFades(w: World, e: Event, k: nat)
    requires Enabled(w, e) && OneJob(w) && !Resets(e) && Inserts(w, e) == 0
    requires k in Next(w, e).flights && Hopeful(Next(w, e).db, Next(w, e).flights[k])
    ensures var f, trying := Next(w, e).flights[k], Trying(Next(w, e).db, Next(w, e).flights[k]);
      || (k in w.flights && f == w.flights[k].(phase := f.phase) && Hopeful(w.db, w.flights[k]) &&
          (trying ==> Trying(w.db, w.flights[k])))
      || (f.job in w.db.jobs && w.db.jobs[f.job].step == f.step && w.db.jobs[f.job].batch == f.batch &&
          Returns(w.db.jobs[f.job]))
  {
    FlightFrom(w, e, k);
    StepWrites(w.db);
    hide Keyed, HasStepJob, HasBatchBelow, HasDeadStepJob, Verdict, Begun, Finalized, StepFailed, BatchDone, Expanded;
    if !IsWorker(e) {
      hide WorkerStep;
    }
  }

  // A job that may be claimed could be before, or is given back by a claim that was trying.
  lemma ReturnFades(w: World, e: Event, j: nat)
    requires Enabled(w, e) && OneJob(w) && !Resets(e) && Inserts(w, e) == 0
    requires j in Next(w, e).db.jobs && Returns(Next(w, e).db.jobs[j])
    ensures j in w.db.jobs && SameOwner(w.db.jobs[j], Next(w, e).db.jobs[j])
    ensures Returns(w.db.jobs[j]) || (e.Fail? && w.flights[e.w].job == j && Trying(w.db, w.flights[e.w]))
  {
    hide Keyed, HasStepJob, HasBatchBelow, HasDeadJob, HasDeadStepJob, Finishable, Verdict;
    if !IsWorker(e) {
      hide WorkerStep;
    }
  }

  lemma CompleteFades(w: World, e: Event, s: nat)
    requires Enabled(w, e) && OneJob(w) && !Resets(e) && Inserts(w, e) == 0 && CanComplete(Next(w, e), s)
    ensures CanComplete(w, s)
  {
    hide Next, Enabled, Returns, Hopeful, Trying, Inserts, Resets, Keyed, HasStepJob;
    var v := Next(w, e);
    if k :| k in v.flights && v.flights[k].step == s && Hopeful(v.db, v.flights[k]) {
      TryFades(w, e, k);
    } else {
      var j :| j in v.db.jobs && v.db.jobs[j].step == s && Returns(v.db.jobs[j]);
      ReturnFades(w, e, j);
      if !Returns(w.db.jobs[j]) {
        TryingIsHopeful(w, e);
      }
    }
  }

  lemma TryingIsHopeful(w: World, e: Event)
    requires Enabled(w, e) && e.Fail? && OneJob(w) && Trying(w.db, w.flights[e.w])
    ensures e.w in w.flights && Hopeful(w.db, w.flights[e.w]) && ClaimMatches(w.db, w.flights[e.w])
  {}

  lemma CloseFades(w: World, e: Event, b: nat)
    requires Enabled(w, e) && OneJob(w) && !Resets(e) && Inserts(w, e) == 0 && CanClose(Next(w, e), b)
    ensures CanClose(w, b)
  {
    hide Next, Enabled, Returns, Inserts, Resets, Keyed, HasStepJob;
    var v := Next(w, e);
    if k :| k in v.flights && v.flights[k].batch == Some(b) && Trying(v.db, v.flights[k]) {
      TryFades(w, e, k);
    } else {
      var j :| j in v.db.jobs && v.db.jobs[j].batch == Some(b) && Returns(v.db.jobs[j]);
      ReturnFades(w, e, j);
      if !Returns(w.db.jobs[j]) {
        TryingIsHopeful(w, e);
      }
    }
  }

  // Without an insert, batches and steps keep what they are.
  lemma RowsFade(w: World, e: Event)
    requires Enabled(w, e) && OneJob(w) && !Resets(e) && Inserts(w, e) == 0
    ensures SameRows(w.db, Next(w, e).db)
    ensures w.db.steps.Keys == Next(w, e).db.steps.Keys
    ensures forall s <- w.db.steps :: Next(w, e).db.steps[s] == w.db.steps[s].(status := Next(w, e).db.steps[s].status)
    ensures forall s <- w.db.steps :: Next(w, e).db.steps[s].status == Pending ==> w.db.steps[s].status == Pending
  {
    hide HasStepJob, HasBatchBelow, HasDeadStepJob, Verdict, WorkerStep;
    if e.Expand? {
      ExpandNothing(w, e);
    } else {
      RowsStep(w, e);
      hide SameRows;
      if IsWorker(e) {
        WorkerSteps(w, e);
      }
    }
  }

  lemma WorkerSteps(w: World, e: Event)
    requires Enabled(w, e) && IsWorker(e) && !e.Expand?
    ensures w.db.steps.Keys == WorkerStep(w, e).db.steps.Keys
    ensures forall s <- w.db.steps ::
      WorkerStep(w, e).db.steps[s] == w.db.steps[s].(status := WorkerStep(w, e).db.steps[s].status)
    ensures forall s <- w.db.steps :: WorkerStep(w, e).db.steps[s].status == Pending ==> w.db.steps[s].status == Pending
  {
    hide HasDeadJob, Finishable, HasBatchBelow, Expanded, SucceededJob, FailedJob, BatchDone;
    if e.Claim? || e.Succeed? || e.Fail? || e.CopyBatch? {
      WorkerLeavesSteps(w, e);
      hide WorkerStep;
    }
  }

  lemma WorkerLeavesSteps(w: World, e: Event)
    requires Enabled(w, e) && (e.Claim? || e.Succeed? || e.Fail? || e.CopyBatch?)
    ensures WorkerStep(w, e).db.steps == w.db.steps
  {}

  lemma ExpandNothing(w: World, e: Event)
    requires Enabled(w, e) && e.Expand? && Inserts(w, e) == 0
    ensures Next(w, e).db == w.db
  {
    hide HasBatchBelow;
  }

  // A batch that is open was open, and one that is closed was so or could be.
  lemma OpenFades(w: World, e: Event, b: nat, s: nat)
    requires Enabled(w, e) && OneJob(w) && !Resets(e) && Inserts(w, e) == 0
    ensures IsOpen(w.db, b, s) ==> IsOpen(Next(w, e).db, b, s) || CanClose(w, b)
  {
    RowsFade(w, e);
    hide Keyed, HasStepJob, HasBatchBelow, HasDeadJob, HasDeadStepJob, Finishable, Verdict;
    if !IsWorker(e) {
      hide WorkerStep;
    }
  }

  lemma SucceedFades(w: World, e: Event, s: nat)
    requires Enabled(w, e) && OneJob(w) && !Resets(e) && Inserts(w, e) == 0 && CanSucceed(Next(w, e), s)
    ensures CanSucceed(w, s)
  {
    var v := Next(w, e);
    RowsFade(w, e);
    if v.db.steps[s].status == Succeeded {
      NewlySucceeded(w, e, s);
    } else {
      hide Next, Enabled, IsOpen, CanComplete, CanClose, Inserts, Resets, Keyed, HasStepJob;
      CompleteFades(w, e, s);
      forall b | b in w.db.batches && IsOpen(w.db, b, s) ensures CanClose(w, b) {
        OpenFades(w, e, b, s);
        if IsOpen(v.db, b, s) {
          InBatches(v.db, b, s);
          CloseFades(w, e, b);
        }
      }
    }
  }

  lemma InBatches(db: Db, b: nat, s: nat)
    requires IsOpen(db, b, s)
    ensures b in db.batches
  {}

  lemma NewlySucceeded(w: World, e: Event, s: nat)
    requires Enabled(w, e) && !Resets(e) && Inserts(w, e) == 0
    requires s in w.db.steps && s in Next(w, e).db.steps && Next(w, e).db.steps[s].status == Succeeded
    ensures CanSucceed(w, s)
  {
    hide HasBatchBelow, HasDeadJob, HasDeadStepJob, Verdict;
    if w.db.steps[s].status != Succeeded {
      assert e.Finalize? && w.flights[e.w].step == s && Finishable(w.db, s);
      assert Hopeful(w.db, w.flights[e.w]);
      NoneOpen(w.db, s);
    }
  }

  lemma NoneOpen(db: Db, s: nat)
    ensures forall b :: IsOpen(db, b, s) ==> HasBatches(db, s) && OpenBatch(db, s)
    ensures OpenBatch(db, s) ==> OpenOnes(db, s) != {}
  {
    if OpenBatch(db, s) {
      var b :| b in db.batches && db.batches[b].step == s && db.batches[b].status != Succeeded &&
        db.batches[b].status != Cancelled;
      assert b in OpenOnes(db, s);
    }
  }

  lemma DispatchFades(w: World, e: Event, t: nat)
    requires Enabled(w, e) && OneJob(w) && !Resets(e) && Inserts(w, e) == 0 && CanDispatch(Next(w, e), t)
    ensures CanDispatch(w, t)
  {
    RowsFade(w, e);
    RowsHave(w.db, Next(w, e).db, t);
    var v := Next(w, e);
    hide Next, Enabled, CanSucceed, Inserts, Resets, Keyed, HasStepJob, SameRows;
    forall d | d in w.db.steps[t].deps ensures CanSucceed(w, d) {
      assert d in v.db.steps[t].deps;
      SucceedFades(w, e, d);
    }
  }

  lemma ExpandFades(w: World, e: Event, s: nat)
    requires Enabled(w, e) && OneJob(w) && !Resets(e) && Inserts(w, e) == 0 && CanExpand(Next(w, e), s)
    ensures CanExpand(w, s)
  {
    hide Next, Enabled, Returns, Inserts, Resets, Keyed, HasStepJob, HasBatchBelow, SameRows, Trying;
    RowsFade(w, e);
    var v := Next(w, e);
    NumbersFade(w.db, v.db, s);
    if k :| k in v.flights && v.flights[k].step == s && v.flights[k].batch.None? && Trying(v.db, v.flights[k]) {
      TryFades(w, e, k);
    } else {
      var j :| j in v.db.jobs && v.db.jobs[j].step == s && v.db.jobs[j].batch.None? && Returns(v.db.jobs[j]);
      ReturnFades(w, e, j);
      if !Returns(w.db.jobs[j]) {
        TryingIsHopeful(w, e);
      }
    }
  }

  lemma NumbersFade(a: Db, b: Db, s: nat)
    requires SameRows(a, b)
    ensures HasBatchBelow(a, s, 1) ==> HasBatchBelow(b, s, 1)
  {
    if HasBatchBelow(a, s, 1) {
      var x :| x in a.batches && a.batches[x].step == s && a.batches[x].number < 1;
      assert SameRange(a.batches[x], b.batches[x]);
    }
  }

  // What could not insert inserts nothing, and still cannot.
  lemma NothingInserted(w: World, e: Event)
    requires OneJob(w) && !StillInserts(w) && Enabled(w, e) && !Resets(e)
    ensures Inserts(w, e) == 0 && !StillInserts(Next(w, e))
  {
    hide CanDispatch, Keyed, HasStepJob, CanSucceed;
    if Inserts(w, e) != 0 {
      ExpandsNow(w, e);
    }
    assert Inserts(w, e) == 0;
    var v := Next(w, e);
    assert v.ready == {} by {
      ReadyFades(w, e);
    }
    hide Next, Enabled, CanExpand, Inserts, Resets;
    forall s ensures !CanExpand(v, s) {
      if CanExpand(v, s) {
        ExpandFades(w, e, s);
      }
    }
    forall t ensures !CanDispatch(v, t) {
      if CanDispatch(v, t) {
        DispatchFades(w, e, t);
      }
    }
  }

  lemma ExpandsNow(w: World, e: Event)
    requires Enabled(w, e) && Inserts(w, e) != 0
    ensures e.Dispatch? || (e.Expand? && CanExpand(w, w.flights[e.w].step))
  {
    if e.Expand? {
      assert Trying(w.db, w.flights[e.w]);
    }
  }

  lemma ReadyFades(w: World, e: Event)
    requires !StillInserts(w) && Enabled(w, e)
    ensures Next(w, e).ready == {}
  {
    hide HasStepJob, Finishable, Verdict, HasDeadStepJob, Operated, WorkerStep;
    if e.Query? {
      forall s | s in Ready(w.db) ensures CanDispatch(w, s) {}
      assert forall s :: s in Ready(w.db) ==> false;
    } else if IsWorker(e) {
      WorkerReady(w, e);
    }
  }

  lemma WorkerReady(w: World, e: Event)
    requires Enabled(w, e) && IsWorker(e)
    ensures WorkerStep(w, e).ready == w.ready
  {}

  // Some run without an operator's reset ends where the next event inserts a job.
  ghost predicate InsertsLater(w: World) {
    exists es: seq<Event>, e: Event :: InsertsAfter(w, es, e)
  }

  ghost predicate InsertsAfter(w: World, es: seq<Event>, e: Event) {
    && Possible(w, es) && (forall i <- es :: !Resets(i))
    && Enabled(After(w, es), e) && !Resets(e) && Inserts(After(w, es), e) > 0
  }

  lemma {:induction false} NeverAlong(w: World, es: seq<Event>)
    requires OneJob(w) && !StillInserts(w) && Possible(w, es) && forall e <- es :: !Resets(e)
    ensures OneJob(After(w, es)) && !StillInserts(After(w, es)) && Inserted(w, es) == 0
    decreases |es|
  {
    if es != [] {
      NothingInserted(w, es[0]);
      OneJobKept(w, es[0]);
      hide Next, OneJob, Enabled, StillInserts, Resets, Inserts;
      NeverAlong(Next(w, es[0]), es[1..]);
    }
  }

  lemma NeverInserts(w: World)
    requires OneJob(w) && !StillInserts(w)
    ensures !InsertsLater(w)
  {
    hide OneJob, StillInserts;
    if InsertsLater(w) {
      var es: seq<Event>, e: Event :| InsertsAfter(w, es, e);
      NeverAlong(w, es);
      NothingInserted(After(w, es), e);
    }
  }

  /* ---- and what can, does ---- */

  predicate Ended(job: Job) {
    job.status != Waiting && job.status != Claimed
  }

  // No job waits or is claimed, as a cancel leaves the table.
  ghost predicate AllEnded(db: Db) {
    forall j <- db.jobs :: Ended(db.jobs[j])
  }

  lemma CancelEnds(db: Db)
    ensures AllEnded(CancelledDb(db))
  {}

  // Only the worker's own job, batch and step have moved, and its claim is at the given phase.
  ghost predicate Handled(w: World, v: World, k: nat, i: nat, phase: Phase)
    requires k in w.flights
  {
    var f := w.flights[k];
    && v.ready == w.ready && SameRows(w.db, v.db)
    && v.db.steps.Keys == w.db.steps.Keys
    && (forall s <- w.db.steps :: v.db.steps[s] == w.db.steps[s].(status := v.db.steps[s].status))
    && (forall s <- w.db.steps :: s != f.step ==> v.db.steps[s] == w.db.steps[s])
    && (forall j <- w.db.jobs :: j != f.job ==> v.db.jobs[j] == w.db.jobs[j])
    && (forall b <- w.db.batches :: f.batch != Some(b) ==> v.db.batches[b] == w.db.batches[b])
    && (forall b <- w.db.batches ::
        v.db.batches[b].status == w.db.batches[b].status || v.db.batches[b].status == Succeeded)
    && (forall x <- w.flights :: x != k ==> x in v.flights && v.flights[x] == w.flights[x])
    && (forall x <- v.flights :: x in w.flights || x == i) && i in v.flights && (i == k || i !in w.flights)
    && v.flights[i] == f.(phase := phase) && (k in v.flights ==> v.flights[k] == f.(phase := v.flights[k].phase))
  }

  // Events of workers, and nothing inserted.
  ghost predicate Quietly(es: seq<Event>) {
    forall e <- es :: !Resets(e)
  }

  lemma {:induction false} OneJobAfter(w: World, es: seq<Event>)
    requires OneJob(w) && Possible(w, es)
    ensures OneJob(After(w, es))
  {
    OneJobAlong(w, es);
  }

  // A claim whose handler may run, brought to it: begun, or given back and claimed again.
  lemma ToWorking(w: World, k: nat) returns (es: seq<Event>, v: World, i: nat)
    requires OneJob(w) && k in w.flights && Trying(w.db, w.flights[k])
    ensures Possible(w, es) && After(w, es) == v && Quietly(es) && Handled(w, v, k, i, Working)
    ensures v.db.batches == w.db.batches
  {
    var f := w.flights[k];
    if f.phase == Working {
      es, v, i := [], w, k;
      assert w.flights[k].(phase := Working) == w.flights[k];
    } else if f.phase == Taken {
      i := k;
      v := Next(w, Begin(k));
      es := [Begin(k)];
      BeginHandled(w, k);
      hide Handled, Next;
      Also(w, Begin(k), v, []);
    } else {
      es, v, i := Retaken(w, k);
    }
  }

  lemma BeginHandled(w: World, k: nat)
    requires OneJob(w) && At(w, k, Taken)
    ensures Handled(w, Next(w, Begin(k)), k, k, Working) && Next(w, Begin(k)).db.batches == w.db.batches
  {
    hide Keyed;
  }

  // The failure, the claim and the start of another attempt.
  function Retake(w: World, k: nat, i: nat): World
    requires k in w.flights && Retriable(w.db, w.flights[k]) && i !in w.flights
  {
    var f := w.flights[k];
    var db := ClaimedJob(FailedJob(w.db, f.job), f.job);
    World(Begun(db, db.jobs[f.job].step),
          w.flights[k := f.(phase := JobFailed)]
                   [i := Flight(f.job, db.jobs[f.job].step, db.jobs[f.job].batch, Working)], w.ready)
  }

  lemma RetakeRuns(w: World, k: nat, i: nat)
    requires k in w.flights && Retriable(w.db, w.flights[k]) && i !in w.flights
    ensures var j := w.flights[k].job;
      && Enabled(w, Fail(k)) && Enabled(Next(w, Fail(k)), Claim(i, j))
      && Enabled(Next(Next(w, Fail(k)), Claim(i, j)), Begin(i))
      && Next(Next(Next(w, Fail(k)), Claim(i, j)), Begin(i)) == Retake(w, k, i)
  {
    var f := w.flights[k];
    var a := Next(w, Fail(k));
    var b := Next(a, Claim(i, f.job));
    assert Next(b, Begin(i)).flights == Retake(w, k, i).flights;
  }

  lemma RetakeHandled(w: World, k: nat, i: nat)
    requires OneJob(w) && k in w.flights && Retriable(w.db, w.flights[k]) && i !in w.flights
    ensures Handled(w, Retake(w, k, i), k, i, Working) && Retake(w, k, i).db.batches == w.db.batches
  {
    hide Keyed;
    assert ClaimMatches(w.db, w.flights[k]);
  }

  lemma Retaken(w: World, k: nat) returns (es: seq<Event>, v: World, i: nat)
    requires OneJob(w) && k in w.flights && Retriable(w.db, w.flights[k])
    ensures Possible(w, es) && After(w, es) == v && Quietly(es) && Handled(w, v, k, i, Working)
    ensures v.db.batches == w.db.batches
  {
    hide Handled, Next, OneJob, Enabled;
    i := FreshWorker(w.flights.Keys);
    var j := w.flights[k].job;
    RetakeRuns(w, k, i);
    RetakeHandled(w, k, i);
    v := Retake(w, k, i);
    var a := Next(w, Fail(k));
    var b := Next(a, Claim(i, j));
    es := [Fail(k)] + ([Claim(i, j)] + [Begin(i)]);
    Also(b, Begin(i), v, []);
    Also(a, Claim(i, j), b, [Begin(i)]);
    Also(w, Fail(k), a, [Claim(i, j)] + [Begin(i)]);
  }

  lemma HandlingHandled(w: World, k: nat)
    requires OneJob(w) && At(w, k, Working)
    ensures Enabled(w, Handling(w, k)) && Handled(w, Next(w, Handling(w, k)), k, k, HandlerOk)
    ensures Next(w, Handling(w, k)).db.jobs == w.db.jobs && Next(w, Handling(w, k)).db.steps == w.db.steps
    ensures forall b <- w.db.batches :: w.flights[k].batch == Some(b) ==>
      Next(w, Handling(w, k)).db.batches[b].status == Succeeded
  {
    hide Keyed;
    assert ClaimMatches(w.db, w.flights[k]);
  }

  lemma SucceedHandled(w: World, k: nat)
    requires OneJob(w) && At(w, k, HandlerOk)
    ensures Handled(w, Next(w, Succeed(k)), k, k, JobDone) && Next(w, Succeed(k)).db.batches == w.db.batches
    ensures w.flights[k].job in w.db.jobs ==> Next(w, Succeed(k)).db.jobs[w.flights[k].job].status == Done
  {
    hide Keyed;
    assert ClaimMatches(w.db, w.flights[k]);
  }

  lemma HandledTwice(w: World, v: World, u: World, k: nat, i: nat, phase: Phase, last: Phase)
    requires k in w.flights && i in v.flights && Handled(w, v, k, i, phase) && Handled(v, u, i, i, last)
    ensures Handled(w, u, k, i, last)
  {
    SameRowsTwice(w.db, v.db, u.db);
  }

  lemma SameRowsTwice(a: Db, b: Db, c: Db)
    requires SameRows(a, b) && SameRows(b, c)
    ensures SameRows(a, c)
  {}

  // The batch of the claim, if it was still to be copied, is closed; its job has ended.
  ghost predicate Through(w: World, v: World, k: nat, i: nat)
    requires k in w.flights
  {
    var f := w.flights[k];
    && Handled(w, v, k, i, JobDone)
    && (f.job in w.db.jobs ==> Ended(v.db.jobs[f.job]))
    && (Trying(w.db, f) ==> forall b <- w.db.batches :: f.batch == Some(b) ==> v.db.batches[b].status == Succeeded)
  }

  lemma FromOk(w: World, k: nat) returns (es: seq<Event>, v: World)
    requires OneJob(w) && At(w, k, HandlerOk)
    ensures Possible(w, es) && After(w, es) == v && Quietly(es) && Through(w, v, k, k)
  {
    hide Next, OneJob;
    SucceedHandled(w, k);
    v := Next(w, Succeed(k));
    es := [Succeed(k)];
    Last(w, Succeed(k));
  }

  lemma FromTrying(w: World, k: nat) returns (es: seq<Event>, v: World, i: nat)
    requires OneJob(w) && k in w.flights && Trying(w.db, w.flights[k])
    ensures Possible(w, es) && After(w, es) == v && Quietly(es) && Through(w, v, k, i)
  {
    hide OneJob, Next, Possible, After;
    var first, a: World;
    first, a, i := ToWorking(w, k);
    OneJobAfter(w, first);
    var rest: seq<Event>;
    rest, v := FromWorking(w, a, k, i);
    hide Handled, Through, Trying;
    Then(w, first, rest);
    es := first + rest;
  }

  lemma FromWorking(w: World, a: World, k: nat, i: nat) returns (es: seq<Event>, v: World)
    requires OneJob(a) && k in w.flights && Handled(w, a, k, i, Working) && a.db.batches == w.db.batches
    ensures Possible(a, es) && After(a, es) == v && Quietly(es) && Through(w, v, k, i)
  {
    hide OneJob, Next, Possible, After, Handling;
    assert At(a, i, Working);
    HandlingHandled(a, i);
    var e := Handling(a, i);
    var b := Next(a, e);
    OneJobKept(a, e);
    assert At(b, i, HandlerOk);
    SucceedHandled(b, i);
    v := Next(b, Succeed(i));
    hide SameRows;
    HandledTwice(w, a, b, k, i, Working, HandlerOk);
    HandledTwice(w, b, v, k, i, HandlerOk, JobDone);
    ThroughFrom(w, a, b, v, k, i);
    es := HandleAndSucceed(a, i);
  }

  lemma HandleAndSucceed(a: World, i: nat) returns (es: seq<Event>)
    requires At(a, i, Working) && Enabled(a, Handling(a, i)) && At(Next(a, Handling(a, i)), i, HandlerOk)
    ensures Possible(a, es) && After(a, es) == Next(Next(a, Handling(a, i)), Succeed(i)) && Quietly(es)
  {
    hide Next, Possible, After, Handling;
    var b := Next(a, Handling(a, i));
    Last(b, Succeed(i));
    Also(a, Handling(a, i), b, [Succeed(i)]);
    HandlingResets(a, i);
    es := [Handling(a, i)] + [Succeed(i)];
  }

  lemma HandlingResets(w: World, k: nat)
    requires At(w, k, Working)
    ensures !Resets(Handling(w, k))
  {}

  lemma Last(w: World, e: Event)
    requires Enabled(w, e)
    ensures Possible(w, [e]) && After(w, [e]) == Next(w, e)
  {
    Also(w, e, Next(w, e), []);
    assert [e] + [] == [e];
  }

  lemma ThroughFrom(w: World, a: World, b: World, v: World, k: nat, i: nat)
    requires k in w.flights && Handled(w, a, k, i, Working) && Handled(w, b, k, i, HandlerOk)
    requires Handled(w, v, k, i, JobDone)
    requires a.db.batches == w.db.batches && v.db.batches == b.db.batches
    requires w.flights[k].job in b.db.jobs ==> v.db.jobs[w.flights[k].job].status == Done
    requires forall x <- a.db.batches :: w.flights[k].batch == Some(x) ==> b.db.batches[x].status == Succeeded
    ensures Through(w, v, k, i)
  {}

  // A claim that may still mark its job done, brought to the completion.
  lemma ToDone(w: World, k: nat) returns (es: seq<Event>, v: World, i: nat)
    requires OneJob(w) && k in w.flights && Hopeful(w.db, w.flights[k])
    requires AllEnded(w.db)
    ensures Possible(w, es) && After(w, es) == v && Quietly(es) && Through(w, v, k, i)
  {
    hide OneJob, Next;
    if Trying(w.db, w.flights[k]) {
      es, v, i := FromTrying(w, k);
    } else if w.flights[k].phase == HandlerOk {
      es, v := FromOk(w, k);
      i := k;
    } else {
      es, v, i := [], w, k;
      assert w.flights[k].(phase := JobDone) == w.flights[k];
    }
  }

  /* ---- a step completed ---- */

  // Nothing but step s, its jobs, batches and claims has moved.
  ghost predicate Elsewhere(w: World, v: World, s: nat) {
    && v.ready == w.ready && SameRows(w.db, v.db) && v.db.steps.Keys == w.db.steps.Keys
    && (forall t <- w.db.steps :: v.db.steps[t] == w.db.steps[t].(status := v.db.steps[t].status))
    && (forall t <- w.db.steps :: t != s ==> v.db.steps[t] == w.db.steps[t])
    && (forall j <- w.db.jobs :: w.db.jobs[j].step != s ==> v.db.jobs[j] == w.db.jobs[j])
    && (forall b <- w.db.batches :: w.db.batches[b].step != s ==> v.db.batches[b] == w.db.batches[b])
    && (forall k <- w.flights :: w.flights[k].step != s ==> k in v.flights && v.flights[k] == w.flights[k])
    && (forall k <- v.flights :: v.flights[k].step != s ==> k in w.flights && w.flights[k] == v.flights[k])
  }

  lemma ThroughElsewhere(w: World, v: World, k: nat, i: nat)
    requires OneJob(w) && k in w.flights && Through(w, v, k, i) && AllEnded(w.db)
    ensures Elsewhere(w, v, w.flights[k].step) && AllEnded(v.db)
  {
    hide Keyed;
    assert ClaimMatches(w.db, w.flights[k]);
    forall j | j in v.db.jobs ensures Ended(v.db.jobs[j]) {
      assert j in w.db.jobs && Ended(w.db.jobs[j]);
    }
  }

  lemma ElsewhereTwice(w: World, v: World, u: World, s: nat)
    requires Elsewhere(w, v, s) && Elsewhere(v, u, s)
    ensures Elsewhere(w, u, s)
  {
    SameRowsTwice(w.db, v.db, u.db);
    forall j | j in w.db.jobs && w.db.jobs[j].step != s ensures u.db.jobs[j] == w.db.jobs[j] {
      assert v.db.jobs[j] == w.db.jobs[j];
    }
    forall k | k in w.flights && w.flights[k].step != s ensures k in u.flights && u.flights[k] == w.flights[k] {
      assert v.flights[k] == w.flights[k];
    }
  }

  function OpenOnes(db: Db, s: nat): set<nat> {
    set b | b in db.batches && IsOpen(db, b, s)
  }

  lemma EndedStays(db: Db)
    requires AllEnded(db)
    ensures forall j <- db.jobs :: !Returns(db.jobs[j])
  {
    forall j | j in db.jobs ensures !Returns(db.jobs[j]) {
      assert Ended(db.jobs[j]);
    }
  }

  // With every job ended, a batch that can be closed has a claim that may still try.
  lemma ClosedByClaim(w: World, b: nat) returns (k: nat)
    requires AllEnded(w.db) && CanClose(w, b)
    ensures k in w.flights && w.flights[k].batch == Some(b) && Trying(w.db, w.flights[k])
  {
    EndedStays(w.db);
    k :| k in w.flights && w.flights[k].batch == Some(b) && Trying(w.db, w.flights[k]);
  }

  lemma CompletedByClaim(w: World, s: nat) returns (k: nat)
    requires AllEnded(w.db) && CanComplete(w, s)
    ensures k in w.flights && w.flights[k].step == s && Hopeful(w.db, w.flights[k])
  {
    EndedStays(w.db);
    k :| k in w.flights && w.flights[k].step == s && Hopeful(w.db, w.flights[k]);
  }

  // Another batch can be closed after one has been.
  lemma OthersClose(w: World, v: World, k: nat, i: nat, b: nat, s: nat)
    requires OneJob(w) && k in w.flights && w.flights[k].step == s && Through(w, v, k, i) && AllEnded(w.db)
    requires IsOpen(w.db, b, s) && IsOpen(v.db, b, s) && CanClose(w, b) && Trying(w.db, w.flights[k])
    ensures CanClose(v, b)
  {
    var x := ClosedByClaim(w, b);
    hide Keyed;
    assert w.flights[k].batch != Some(b);
    assert x != k && v.flights[x] == w.flights[x];
    if w.flights[x].phase == HandlerErr {
      assert ClaimMatches(w.db, w.flights[x]) && ClaimMatches(w.db, w.flights[k]);
      assert v.db.jobs[w.flights[x].job] == w.db.jobs[w.flights[x].job];
    }
  }

  lemma {:induction false} CloseAll(w: World, s: nat) returns (es: seq<Event>, v: World, i: nat)
    requires OneJob(w) && AllEnded(w.db) && CanFinish(w, s)
    ensures Possible(w, es) && After(w, es) == v && Quietly(es) && Elsewhere(w, v, s) && AllEnded(v.db) && OneJob(v)
    ensures At(v, i, JobDone) && v.flights[i].step == s && OpenOnes(v.db, s) == {}
    decreases OpenOnes(w.db, s)
  {
    hide OneJob, Possible, After, CanComplete, CanClose, Elsewhere, AllEnded;
    var k: nat;
    if OpenOnes(w.db, s) == {} {
      k := CompletedByClaim(w, s);
      es, v, i := ToDone(w, k);
      OneJobAfter(w, es);
      ThroughElsewhere(w, v, k, i);
      NoneOpened(w, v, k, i, s);
    } else {
      var b :| b in OpenOnes(w.db, s);
      k := ClosedByClaim(w, b);
      ClaimOfBatch(w, k, b, s);
      var first, a: World, x: nat;
      first, a, x := ToDone(w, k);
      OneJobAfter(w, first);
      ThroughElsewhere(w, a, k, x);
      NoneOpened(w, a, k, x, s);
      assert b !in OpenOnes(a.db, s);
      StillFinishes(w, a, k, x, s);
      hide Through, OpenOnes, CanFinish, IsOpen;
      var rest;
      rest, v, i := CloseAll(a, s);
      Then(w, first, rest);
      ElsewhereTwice(w, a, v, s);
      es := first + rest;
    }
  }

  lemma ClaimOfBatch(w: World, k: nat, b: nat, s: nat)
    requires OneJob(w) && k in w.flights && w.flights[k].batch == Some(b) && IsOpen(w.db, b, s)
    ensures w.flights[k].step == s
  {
    assert ClaimMatches(w.db, w.flights[k]);
  }

  lemma NoneOpened(w: World, v: World, k: nat, i: nat, s: nat)
    requires k in w.flights && Through(w, v, k, i)
    ensures OpenOnes(v.db, s) <= OpenOnes(w.db, s)
    ensures Trying(w.db, w.flights[k]) ==> forall b <- OpenOnes(v.db, s) :: w.flights[k].batch != Some(b)
  {
    forall b | b in OpenOnes(v.db, s) ensures b in OpenOnes(w.db, s) {
      assert SameRange(w.db.batches[b], v.db.batches[b]);
    }
  }

  lemma StillFinishes(w: World, v: World, k: nat, i: nat, s: nat)
    requires OneJob(w) && k in w.flights && w.flights[k].step == s && Trying(w.db, w.flights[k])
    requires Through(w, v, k, i) && AllEnded(w.db) && CanFinish(w, s)
    ensures CanFinish(v, s)
  {
    assert Hopeful(v.db, v.flights[i]) && v.flights[i].step == s;
    NoneOpened(w, v, k, i, s);
    hide Through, CanClose, OneJob, AllEnded, Trying;
    forall b | b in v.db.batches && IsOpen(v.db, b, s) ensures CanClose(v, b) {
      assert b in OpenOnes(v.db, s) && b in OpenOnes(w.db, s);
      OthersClose(w, v, k, i, b, s);
    }
  }

  // A step that can finish, completed.
  lemma Completes(w: World, s: nat) returns (es: seq<Event>, v: World)
    requires OneJob(w) && AllEnded(w.db) && s in w.db.steps && CanFinish(w, s)
    ensures Possible(w, es) && After(w, es) == v && Quietly(es) && Elsewhere(w, v, s) && AllEnded(v.db) && OneJob(v)
    ensures s in v.db.steps && v.db.steps[s].status == Succeeded
  {
    hide Possible, After, Elsewhere, OneJob, Next, CanFinish;
    var first, a, i := CloseAll(w, s);
    KeysElsewhere(w, a, s);
    Finished(a, i, s);
    v := Next(a, Finalize(i));
    OneJobKept(a, Finalize(i));
    ElsewhereTwice(w, a, v, s);
    Last(a, Finalize(i));
    Then(w, first, [Finalize(i)]);
    es := first + [Finalize(i)];
  }

  lemma KeysElsewhere(w: World, v: World, s: nat)
    requires Elsewhere(w, v, s)
    ensures v.db.steps.Keys == w.db.steps.Keys
  {}

  lemma Finished(w: World, i: nat, s: nat)
    requires AllEnded(w.db) && At(w, i, JobDone) && w.flights[i].step == s && OpenOnes(w.db, s) == {} && s in w.db.steps
    ensures var v := Next(w, Finalize(i));
      Elsewhere(w, v, s) && AllEnded(v.db) && v.db.steps[s].status == Succeeded && s in v.db.steps
  {
    NoneOpen(w.db, s);
    EndedClosed(w.db, s);
    assert Finishable(w.db, s);
    hide Finishable, OpenOnes;
  }

  lemma EndedClosed(db: Db, s: nat)
    requires AllEnded(db)
    ensures !OpenJob(db, s)
  {
    assert forall j <- db.jobs :: Ended(db.jobs[j]);
  }

  // Another step can still finish after one has been completed.
  lemma OthersFinish(w: World, v: World, s: nat, d: nat)
    requires OneJob(w) && Elsewhere(w, v, s) && AllEnded(w.db) && d != s && CanFinish(w, d)
    ensures CanFinish(v, d)
  {
    var k := CompletedByClaim(w, d);
    KeptHope(w, v, s, k);
    hide Trying, Elsewhere;
    forall b | b in v.db.batches && IsOpen(v.db, b, d) ensures CanClose(v, b) {
      WasOpen(w, v, s, b, d);
      var x := ClosedByClaim(w, b);
      ClaimOfBatch(w, x, b, d);
      KeptHope(w, v, s, x);
    }
  }

  lemma WasOpen(w: World, v: World, s: nat, b: nat, d: nat)
    requires Elsewhere(w, v, s) && d != s && IsOpen(v.db, b, d)
    ensures IsOpen(w.db, b, d) && b in w.db.batches
  {
    assert SameRange(w.db.batches[b], v.db.batches[b]);
  }

  lemma KeptHope(w: World, v: World, s: nat, k: nat)
    requires OneJob(w) && Elsewhere(w, v, s) && k in w.flights && w.flights[k].step != s
    ensures k in v.flights && v.flights[k] == w.flights[k]
    ensures Trying(w.db, w.flights[k]) ==> Trying(v.db, v.flights[k])
    ensures Hopeful(w.db, w.flights[k]) ==> Hopeful(v.db, v.flights[k])
  {
    hide Keyed;
    assert ClaimMatches(w.db, w.flights[k]);
  }

  /* ---- a step dispatched ---- */

  function Missing(w: World, t: nat): set<nat>
    requires t in w.db.steps
  {
    set d | d in w.db.steps && d in w.db.steps[t].deps && w.db.steps[d].status != Succeeded
  }

  lemma {:induction false} DispatchRuns(w: World, t: nat) returns (es: seq<Event>)
    requires OneJob(w) && AllEnded(w.db) && Leveled(w.db) && w.ready == {} && CanDispatch(w, t)
    ensures InsertsAfter(w, es, Dispatch(t))
    decreases Missing(w, t)
  {
    hide OneJob, AllEnded, Possible, After, Next, HasStepJob, Elsewhere, CanFinish, Leveled;
    if Missing(w, t) == {} {
      es := [Query];
      QueryFinds(w, t);
      Last(w, Query);
    } else {
      var d :| d in Missing(w, t);
      assert CanSucceed(w, d);
      NoSelf(w.db, t, d);
      var first, v := Completes(w, d);
      StillDispatches(w, v, d, t);
      hide Missing, CanDispatch;
      var rest := DispatchRuns(v, t);
      Then(w, first, rest);
      es := first + rest;
    }
  }

  lemma NoSelf(db: Db, t: nat, d: nat)
    requires Leveled(db) && t in db.steps && d in db.steps[t].deps && d in db.steps
    ensures d != t
  {}

  lemma QueryFinds(w: World, t: nat)
    requires w.ready == {} && CanDispatch(w, t) && Missing(w, t) == {}
    ensures Enabled(w, Query) && Enabled(Next(w, Query), Dispatch(t))
  {
    forall d | d in w.db.steps[t].deps ensures d in w.db.steps && w.db.steps[d].status == Succeeded {
      assert CanSucceed(w, d) && d !in Missing(w, t);
    }
    assert IsReady(w.db, t);
  }

  lemma StillDispatches(w: World, v: World, d: nat, t: nat)
    requires OneJob(w) && AllEnded(w.db) && Leveled(w.db) && CanDispatch(w, t) && w.ready == {}
    requires Elsewhere(w, v, d) && d in Missing(w, t) && d != t && v.db.steps[d].status == Succeeded
    ensures CanDispatch(v, t) && v.ready == {} && Leveled(v.db) && Missing(v, t) < Missing(w, t)
  {
    forall x | x in v.db.steps[t].deps ensures CanSucceed(v, x) {
      assert x in w.db.steps[t].deps && CanSucceed(w, x);
      if x != d && w.db.steps[x].status != Succeeded {
        OthersFinish(w, v, d, x);
      }
    }
    NoJobYet(w.db, v.db, t);
    hide OneJob, AllEnded, HasStepJob;
    assert d !in Missing(v, t);
  }

  lemma NoJobYet(a: Db, b: Db, t: nat)
    requires SameRows(a, b) && !HasStepJob(a, t)
    ensures !HasStepJob(b, t)
  {
    forall j | j in b.jobs ensures !(b.jobs[j].step == t && b.jobs[j].batch.None?) {
      assert SameOwner(a.jobs[j], b.jobs[j]);
    }
  }

  /* ---- a copy expanded ---- */

  lemma ExpandRuns(w: World, s: nat) returns (es: seq<Event>, e: Event)
    requires OneJob(w) && AllEnded(w.db) && CanExpand(w, s)
    ensures InsertsAfter(w, es, e)
  {
    EndedStays(w.db);
    var k :| k in w.flights && w.flights[k].step == s && w.flights[k].batch.None? && Trying(w.db, w.flights[k]);
    var v: World, i: nat;
    es, v, i := ToWorking(w, k);
    e := Expand(i, 1);
    Expands(w, v, k, i);
  }

  lemma Expands(w: World, v: World, k: nat, i: nat)
    requires k in w.flights && w.flights[k].batch.None? && IsCopyStep(w, w.flights[k].step)
    requires !HasBatchBelow(w.db, w.flights[k].step, 1) && Handled(w, v, k, i, Working) && v.db.batches == w.db.batches
    ensures Enabled(v, Expand(i, 1)) && Inserts(v, Expand(i, 1)) == 1
  {}

  // Of a table whose jobs have all ended, as a cancel leaves it: a job is inserted later, without an
  // operator, exactly when the dispatcher still holds a step, a claim can still expand a copy_table
  // step, or some step only waits for steps that have succeeded or that the claims left can finish.
  lemma InsertsLaterExactly(w: World)
    requires OneJob(w) && AllEnded(w.db) && Leveled(w.db)
    ensures InsertsLater(w) <==> StillInserts(w)
  {
    hide OneJob, AllEnded, Leveled, CanDispatch, CanExpand, InsertsAfter;
    if w.ready != {} {
      var s :| s in w.ready;
      DispatchNow(w, s);
    } else if s :| CanExpand(w, s) {
      var es, e := ExpandRuns(w, s);
    } else if t :| CanDispatch(w, t) {
      var es := DispatchRuns(w, t);
      assert InsertsAfter(w, es, Dispatch(t));
    } else {
      NeverInserts(w);
    }
  }

  lemma DispatchNow(w: World, s: nat)
    requires s in w.ready
    ensures InsertsAfter(w, [], Dispatch(s))
  {}

  // After a cancel of any state, without an operator's further action.
  lemma CancelStopsExactly(w: World)
    requires OneJob(w) && Leveled(w.db)
    ensures var v := w.(db := CancelledDb(w.db));
      v == Next(Next(w, CancelRun), CancelJobs) && (InsertsLater(v) <==> StillInserts(v))
  {
    hide OneJob, StillInserts, InsertsLater, AllEnded, Leveled, CancelledDb, Next;
    CancelLeaves(w);
    InsertsLaterExactly(w.(db := CancelledDb(w.db)));
  }

  lemma CancelLeaves(w: World)
    requires OneJob(w) && Leveled(w.db)
    ensures var v := w.(db := CancelledDb(w.db));
      v == Next(Next(w, CancelRun), CancelJobs) && OneJob(v) && Leveled(v.db) && AllEnded(v.db)
  {
    hide OneJob;
    OneJobKept(w, CancelRun);
    OneJobKept(Next(w, CancelRun), CancelJobs);
    CancelEnds(w.db);
  }
}
