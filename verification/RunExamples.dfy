/** Safe states in which the order goes on to break: one for each kind of event that is not calm. */
module RunExamples {
  import opened Wrappers
  import opened RunDb
  import opened RunEvents
  import opened RunQueue
  import opened RunOrder
  import opened RunHazards
  import opened RunBreaks
  import opened RunRescue
  import opened RunOverlaps
  import opened RunBatches
  import RunVerdict

  /* ---- a copy step with a dead job ---- */

  // Two batches of step 0, both copied; the job of one is done, that of the other has died after its last
  // attempt. Step 1 waits for step 0.
  ghost predicate IsCopyRun(w: World, first: StepStatus) {
    && w.ready == {} && w.db.next == 6 && w.db.steps.Keys == {0, 1} && w.db.batches.Keys == {1, 3}
    && w.db.steps[0] == Row([], 0, true, true, first) && w.db.steps[1] == Row([0], 1, true, false, Pending)
    && w.db.batches[1] == Batch(0, 0, Succeeded) && w.db.batches[3] == Batch(0, 1, Succeeded)
    && {0, 2, 4} <= w.db.jobs.Keys <= {0, 2, 4, 5}
    && w.db.jobs[0] == Job(0, None, Done, 1, 3) && w.db.jobs[2] == Job(0, Some(1), Done, 1, 3)
    && w.db.jobs[4] == Job(0, Some(3), Dead, 3, 3) && (5 in w.db.jobs ==> w.db.jobs[5] == Job(1, None, Waiting, 0, 3))
  }

  lemma CopyRunKeyed(w: World, first: StepStatus)
    requires IsCopyRun(w, first)
    ensures Keyed(w.db) && QueueOk(w.db)
  {
    forall j | j in w.db.jobs ensures BatchKnown(w.db, w.db.jobs[j]) && j < w.db.next && JobOk(w.db.jobs[j]) {
      assert j == 0 || j == 2 || j == 4 || j == 5;
    }
    forall i, j | i in w.db.jobs && j in w.db.jobs && SameOwner(w.db.jobs[i], w.db.jobs[j]) ensures i == j {
      assert (i == 0 || i == 2 || i == 4 || i == 5) && (j == 0 || j == 2 || j == 4 || j == 5);
    }
  }

  lemma CopyRunKnown(w: World, first: StepStatus)
    requires IsCopyRun(w, first)
    ensures JobsKnown(w.db) && RunVerdict.Leveled(w.db) && Finishable(w.db, 0)
    ensures forall j <- w.db.jobs :: w.db.jobs[j].step == 0 ==>
      w.db.jobs[j].status == Done || w.db.jobs[j].status == Dead
    ensures HasJob(w.db, 1) || HasStepJob(w.db, 1) <==> 5 in w.db.jobs
  {
    assert w.db.jobs[0].step == 0 && w.db.jobs[0].batch.None? && HasStepJob(w.db, 0);
    assert 5 in w.db.jobs ==> w.db.jobs[5].step == 1 && w.db.jobs[5].batch.None? && HasStepJob(w.db, 1);
    forall j | j in w.db.jobs
      ensures JobKnown(w.db, w.db.jobs[j]) && (w.db.jobs[j].step == 0 || j == 5)
      ensures w.db.jobs[j].step == 0 ==> w.db.jobs[j].status == Done || w.db.jobs[j].status == Dead
    {
      assert j == 0 || j == 2 || j == 4 || j == 5;
    }
  }

  // The step has succeeded, and the next one has its job.
  function RevivalWorld(): World {
    World(
      Db(RunRunning, map[0 := Row([], 0, true, true, Succeeded), 1 := Row([0], 1, true, false, Pending)],
         map[0 := Job(0, None, Done, 1, 3), 2 := Job(0, Some(1), Done, 1, 3), 4 := Job(0, Some(3), Dead, 3, 3),
             5 := Job(1, None, Waiting, 0, 3)],
         map[1 := Batch(0, 0, Succeeded), 3 := Batch(0, 1, Succeeded)], 6),
      map[], {})
  }

  // Retry revives the dead job.
  lemma RevivalHappens()
    ensures var w := RevivalWorld();
      Safe(w) && Enabled(w, RetryJobs) && QueueOk(w.db) && w.db.jobs[4].status != Done && Leans(w, 1, w.db.jobs[4].step)
  {
    hide Safe, Leans, QueueOk;
    RevivalIs();
    RevivalSafe(RevivalWorld());
  }

  lemma RevivalIs()
    ensures IsCopyRun(RevivalWorld(), Succeeded) && RevivalWorld().flights == map[] && 5 in RevivalWorld().db.jobs
  {}

  lemma RevivalSafe(w: World)
    requires IsCopyRun(w, Succeeded) && w.flights == map[] && 5 in w.db.jobs
    ensures Safe(w) && QueueOk(w.db) && w.db.jobs[4].status != Done && Leans(w, 1, w.db.jobs[4].step)
  {
    hide Keyed, JobsKnown, RunVerdict.Leveled, Finishable, QueueOk, HasJob, HasStepJob;
    CopyRunKeyed(w, Succeeded);
    CopyRunKnown(w, Succeeded);
    assert HasJob(w.db, 1) by {
      OwnJob(w.db, 5);
    }
    assert DepsDone(w.db, 1) && DepsDone(w.db, 0) && Touched(w, 1);
  }

  lemma OwnJob(db: Db, j: nat)
    requires j in db.jobs
    ensures HasJob(db, db.jobs[j].step)
  {}

  // The last job has died under a live worker, and the other's worker is about to complete the step.
  function EarlyWorld(): World {
    World(
      Db(RunRunning, map[0 := Row([], 0, true, true, Running), 1 := Row([0], 1, true, false, Pending)],
         map[0 := Job(0, None, Done, 1, 3), 2 := Job(0, Some(1), Done, 1, 3), 4 := Job(0, Some(3), Dead, 3, 3)],
         map[1 := Batch(0, 0, Succeeded), 3 := Batch(0, 1, Succeeded)], 6),
      map[0 := Flight(2, 0, Some(1), JobDone), 1 := Flight(4, 0, Some(3), Working)], {})
  }

  lemma EarlyHappens()
    ensures var w := EarlyWorld();
      Safe(w) && At(w, 0, JobDone) && Finishable(w.db, 0) && w.flights[1].step == w.flights[0].step &&
      !Past(w.flights[1].phase) && Awaits(w, 1, w.flights[0].step)
  {
    hide Safe, Awaits, Finishable;
    EarlyIs();
    EarlySafe(EarlyWorld());
  }

  ghost predicate EarlyClaims(w: World) {
    && w.flights.Keys == {0, 1} && w.flights[0] == Flight(2, 0, Some(1), JobDone)
    && w.flights[1] == Flight(4, 0, Some(3), Working) && 5 !in w.db.jobs
  }

  lemma EarlyIs()
    ensures IsCopyRun(EarlyWorld(), Running) && EarlyClaims(EarlyWorld())
  {}

  lemma EarlySafe(w: World)
    requires IsCopyRun(w, Running) && EarlyClaims(w)
    ensures Safe(w) && At(w, 0, JobDone) && Finishable(w.db, 0) && w.flights[1].step == w.flights[0].step
    ensures !Past(w.flights[1].phase) && Awaits(w, 1, w.flights[0].step)
  {
    hide Keyed, JobsKnown, RunVerdict.Leveled, Finishable, QueueOk, HasJob, HasStepJob;
    CopyRunKeyed(w, Running);
    CopyRunKnown(w, Running);
    assert DepsDone(w.db, 0) && !Touched(w, 1);
  }

  /* ---- a step under way ---- */

  // Step 0 is at its second attempt; step 1 waits for it.
  function UnderWay(): World {
    World(
      Db(RunRunning, map[0 := Row([], 0, true, false, Running), 1 := Row([0], 1, true, false, Pending)],
         map[0 := Job(0, None, Claimed, 2, 3)], map[], 1),
      map[0 := Flight(0, 0, None, Working)], {})
  }

  lemma UnderWaySafe()
    ensures Safe(UnderWay()) && Sound(UnderWay())
  {
    hide OneJob, JobsKnown, Settled, InOrder, ClaimsOk, RunVerdict.Leveled, QueueOk, Batched;
    UnderWayRows();
    UnderWayOrder();
  }

  lemma UnderWayRows()
    ensures OneJob(UnderWay()) && QueueOk(UnderWay().db) && Batched(UnderWay())
  {}

  lemma UnderWayOrder()
    ensures var w := UnderWay();
      JobsKnown(w.db) && ClaimsOk(w) && Settled(w) && InOrder(w) && RunVerdict.Leveled(w.db)
  {
    var w := UnderWay();
    assert w.db.jobs[0].step == 0 && HasStepJob(w.db, 0);
    assert !Touched(w, 1);
  }

  // Its lock may expire.
  lemma OverlapHappens()
    ensures var w := UnderWay();
      Retriable(w.db, 0) && CanWork(w.db, 0, 0, w.flights[0].batch) && Awaits(w, 1, 0)
  {
    assert !HasStepJob(UnderWay().db, 1);
  }

  // It may be replayed with its dependents.
  lemma ReplayHappens()
    ensures var w := UnderWay();
      Covers(w, {0, 1}, 0, 1) && w.ready == {} && !RunHazards.Failing(w.flights[0].phase) && !IsCopyStep(w, 0)
    ensures Descendants(UnderWay().db, 0) == {0, 1}
  {
    var db := UnderWay().db;
    assert 0 in db.steps[1].deps && HasDepIn(db, 1, {0});
    assert Dependents(db, {0}) - {0} == {1};
    assert Dependents(db, {0} + {1}) - ({0} + {1}) == {};
    assert Closure(db, {0} + {1}) == {0} + {1};
  }
}
