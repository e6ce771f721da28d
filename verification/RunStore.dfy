/** The tables of a run, changed in place by the queue, the worker, the dispatcher, the judge and the operator. */
module RunStore {
  import opened Wrappers
  import opened StepGraph
  import opened RunDb
  import opened RunQueue
  import opened RunVerdict
  import RunCancel
  import RunOrder

  // The rows startRun inserts for a step.
  function RowOf(s: Step, unlocked: bool): Row {
    Row(s.deps, s.level, unlocked, s.kind == CopyTable, Pending)
  }

  // A step that is played: unlocked, and no longer stopped.
  function Opened(row: Row): Row {
    row.(unlocked := true, status := if row.status in {Failed, Cancelled} then Pending else row.status)
  }

  predicate OfLevel(steps: map<nat, Row>, s: nat, level: int) {
    s in steps && steps[s].level == level
  }

  class Store {
    var run: RunStatus
    var steps: map<nat, Row>
    var jobs: map<nat, Job>
    var batches: map<nat, Batch>
    var next: nat

    function Rows(): Db
      reads this
    {
      Db(run, steps, jobs, batches, next)
    }

    constructor ()
      ensures Rows() == Db(RunRunning, map[], map[], map[], 0)
    {
      run, steps, jobs, batches, next := RunRunning, map[], map[], map[], 0;
    }

    method PersistSteps(plan: seq<Step>, unlocked: bool)
      requires DistinctIds(plan) && steps == map[]
      modifies this`steps
      ensures steps.Keys == (set s <- plan :: s.id) && forall s <- plan :: steps[s.id] == RowOf(s, unlocked)
    {
      var i := 0;
      while i < |plan|
        invariant i <= |plan| && steps.Keys == set k | 0 <= k < i :: plan[k].id
        invariant forall k :: 0 <= k < i ==> steps[plan[k].id] == RowOf(plan[k], unlocked)
      {
        steps := steps[plan[i].id := RowOf(plan[i], unlocked)];
        i := i + 1;
      }
    }

    // A first job for each step without dependencies.
    method EnqueueFirst(plan: seq<Step>)
      requires DistinctIds(plan) && jobs == map[]
      modifies this`jobs, this`next
      ensures forall j <- jobs :: j < next && FirstOf(plan, jobs[j])
      ensures forall i, j :: i in jobs && j in jobs && jobs[i].step == jobs[j].step ==> i == j
      ensures forall k :: 0 <= k < |plan| && plan[k].deps == [] ==> HasStepJob(Rows(), plan[k].id)
    {
      var i := 0;
      while i < |plan|
        invariant i <= |plan|
        invariant forall j <- jobs :: j < next && FirstOf(plan[..i], jobs[j])
        invariant forall a, b :: a in jobs && b in jobs && jobs[a].step == jobs[b].step ==> a == b
        invariant forall k :: 0 <= k < i && plan[k].deps == [] ==> HasStepJob(Rows(), plan[k].id)
      {
        hide HasStepJob;
        ghost var before := Rows();
        FirstOfMore(plan, i, before);
        if plan[i].deps == [] {
          var id := next;
          jobs := jobs[id := Job(plan[i].id, None, Waiting, 0, MAX_ATTEMPTS)];
          next := next + 1;
          EnqueuedHas(before, plan[i].id);
          assert Rows() == Enqueued(before, plan[i].id, None);
        }
        i := i + 1;
      }
      assert plan[..i] == plan;
    }

    // In auto mode every step is unlocked and those without dependencies get their job at once.
    method StartRun(plan: seq<Step>, auto: bool)
      requires DistinctIds(plan) && Rows() == Db(RunRunning, map[], map[], map[], 0)
      modifies this
      ensures run == RunRunning && batches == map[] && (!auto ==> jobs == map[])
      ensures steps.Keys == (set s <- plan :: s.id) && forall s <- plan :: steps[s.id] == RowOf(s, auto)
      ensures forall s <- plan :: steps[s.id] == Row(s.deps, s.level, auto, s.kind == CopyTable, Pending)
      ensures forall j <- jobs :: j < next && FirstOf(plan, jobs[j])
      ensures forall j <- jobs :: exists s <- plan :: s.deps == [] && jobs[j] == Job(s.id, None, Waiting, 0, 3)
      ensures forall i, j :: i in jobs && j in jobs && jobs[i].step == jobs[j].step ==> i == j
      ensures auto ==> forall k :: 0 <= k < |plan| && plan[k].deps == [] ==> HasStepJob(Rows(), plan[k].id)
    {
      PersistSteps(plan, auto);
      if auto {
        EnqueueFirst(plan);
      }
    }

    // The step and the batch of a job are foreign keys: without their rows nothing is inserted.
    method Enqueue(step: nat, batch: Option<nat>) returns (id: Option<nat>)
      modifies this
      ensures id.Some? <==> step in old(steps) && (batch.Some? ==> batch.value in old(batches))
      ensures id.Some? ==>
        id.value == old(next) && Rows() == Enqueued(old(Rows()), step, batch) && Claimable(Rows(), id.value)
      ensures id.Some? ==> jobs == old(jobs)[id.value := Job(step, batch, Waiting, 0, 3)] && next == id.value + 1
      ensures steps == old(steps) && batches == old(batches) && run == old(run)
      ensures id.None? ==> Rows() == old(Rows())
      ensures old(QueueOk(Rows())) ==> QueueOk(Rows())
    {
      if step !in steps || (batch.Some? && batch.value !in batches) {
        return None;
      }
      id := Some(next);
      jobs := jobs[next := Job(step, batch, Waiting, 0, MAX_ATTEMPTS)];
      next := next + 1;
    }

    // Which of the jobs that can be claimed is a matter of priority and backoff.
    method Claim() returns (claim: Option<nat>)
      modifies this
      ensures claim.None? <==> forall j :: !Claimable(old(Rows()), j)
      ensures claim.None? ==> Rows() == old(Rows())
      ensures claim.Some? ==> Claimable(old(Rows()), claim.value) && Rows() == ClaimedJob(old(Rows()), claim.value)
      ensures claim.Some? ==>
        && claim.value in old(jobs)
        && var job := old(jobs)[claim.value];
           job.status == Waiting && job.attempts < job.max &&
           jobs == old(jobs)[claim.value := job.(status := Claimed, attempts := job.attempts + 1)]
      ensures claim.None? ==> forall j <- jobs :: jobs[j].status == Waiting ==> jobs[j].attempts >= jobs[j].max
      ensures old(QueueOk(Rows())) ==> QueueOk(Rows())
    {
      var open := set j | j in jobs && jobs[j].status == Waiting && jobs[j].attempts < jobs[j].max;
      if open == {} {
        assert forall j :: Claimable(Rows(), j) ==> j in open;
        assert forall j <- jobs :: !Claimable(Rows(), j);
        return None;
      }
      var j :| j in open;
      assert Claimable(old(Rows()), j);
      jobs := jobs[j := jobs[j].(status := Claimed, attempts := jobs[j].attempts + 1)];
      claim := Some(j);
    }

    // Whatever the job was, it can no longer be claimed or requeued.
    method Succeed(id: nat)
      modifies this`jobs
      ensures Rows() == SucceededJob(old(Rows()), id)
      ensures id in old(jobs) ==> jobs[id] == old(jobs)[id].(status := Done)
      ensures !Claimable(Rows(), id) && jobs.Keys == old(jobs).Keys
      ensures forall j <- jobs :: j != id ==> jobs[j] == old(jobs)[j]
      ensures old(QueueOk(Rows())) ==> QueueOk(Rows())
    {
      if id in jobs {
        jobs := jobs[id := jobs[id].(status := Done)];
      }
    }

    // Whatever the job was, it can be claimed again exactly when it has attempts left; otherwise it is dead.
    method Fail(id: nat)
      modifies this`jobs
      ensures Rows() == FailedJob(old(Rows()), id)
      ensures id in old(jobs) ==> (Claimable(Rows(), id) <==> old(jobs)[id].attempts < old(jobs)[id].max)
      ensures id in old(jobs) ==> jobs[id] == old(jobs)[id].(status := if Claimable(Rows(), id) then Waiting else Dead)
      ensures jobs.Keys == old(jobs).Keys && forall j <- jobs :: j != id ==> jobs[j] == old(jobs)[j]
      ensures old(QueueOk(Rows())) ==> QueueOk(Rows())
    {
      if id in jobs {
        var status := if jobs[id].attempts >= jobs[id].max then Dead else Waiting;
        jobs := jobs[id := jobs[id].(status := status)];
      }
    }

    // Afterwards no expired job is claimed, and no step with a dead job of its own is left open.
    method RequeueOrphans(expired: set<nat>)
      modifies this`jobs, this`steps
      ensures Rows() == DeadFailed(Requeued(old(Rows()), expired))
      ensures jobs.Keys == old(jobs).Keys && forall j <- jobs :: j in expired ==> jobs[j].status != Claimed
      ensures forall j <- jobs :: j !in expired || old(jobs)[j].status != Claimed ==> jobs[j] == old(jobs)[j]
      ensures forall j <- jobs :: j in expired && old(jobs)[j].status == Claimed ==>
        jobs[j] == old(jobs)[j].(status := if jobs[j].attempts < jobs[j].max then Waiting else Dead)
      ensures steps.Keys == old(steps).Keys
      ensures forall s <- steps :: HasDeadStepJob(Rows(), s) ==>
        steps[s] == old(steps)[s].(status := if old(steps)[s].status == Succeeded then Succeeded else Failed)
      ensures forall s <- steps :: !HasDeadStepJob(Rows(), s) ==> steps[s] == old(steps)[s]
      ensures forall s :: HasDeadStepJob(Rows(), s) <==>
        exists j <- jobs :: jobs[j].step == s && jobs[j].batch == None && jobs[j].status == Dead
      ensures old(QueueOk(Rows())) ==> QueueOk(Rows())
    {
      ReturnExpired(expired);
      FailDeadSteps();
    }

    method ReturnExpired(expired: set<nat>)
      modifies this`jobs
      ensures Rows() == Requeued(old(Rows()), expired)
      ensures jobs.Keys == old(jobs).Keys && forall j <- jobs :: j in expired ==> jobs[j].status != Claimed
      ensures forall j <- jobs :: j !in expired || old(jobs)[j].status != Claimed ==> jobs[j] == old(jobs)[j]
      ensures forall j <- jobs :: j in expired && old(jobs)[j].status == Claimed ==>
        jobs[j] == old(jobs)[j].(status := if jobs[j].attempts < jobs[j].max then Waiting else Dead)
      ensures old(QueueOk(Rows())) ==> QueueOk(Rows())
    {
      jobs := map j | j in jobs :: if j in expired && jobs[j].status == Claimed then Returned(jobs[j]) else jobs[j];
    }

    method FailDeadSteps()
      modifies this`steps
      ensures Rows() == DeadFailed(old(Rows())) && steps.Keys == old(steps).Keys
      ensures forall s <- steps :: HasDeadStepJob(Rows(), s) ==>
        steps[s] == old(steps)[s].(status := if old(steps)[s].status == Succeeded then Succeeded else Failed)
      ensures forall s <- steps :: !HasDeadStepJob(Rows(), s) ==> steps[s] == old(steps)[s]
    {
      steps := map s | s in steps ::
        if HasDeadStepJob(Rows(), s) && steps[s].status != Succeeded && steps[s].status != Failed
        then steps[s].(status := Failed) else steps[s];
      assert forall s :: HasDeadStepJob(Rows(), s) <==> HasDeadStepJob(old(Rows()), s);
    }

    /* ---- the worker ---- */

    // A pending step is running; a step that is not pending keeps its status.
    method MarkRunning(step: nat)
      modifies this`steps
      ensures Rows() == Begun(old(Rows()), step)
      ensures steps.Keys == old(steps).Keys && forall s <- steps :: s != step ==> steps[s] == old(steps)[s]
      ensures step in steps ==>
        steps[step] == old(steps)[step].(
          status := if old(steps)[step].status == Pending then Running else old(steps)[step].status)
    {
      if step in steps && steps[step].status == Pending {
        steps := steps[step := steps[step].(status := Running)];
      }
    }

    // The step has succeeded exactly when it had, or could be completed; no other step changes.
    method Complete(step: nat)
      modifies this`steps
      ensures Rows() == Finalized(old(Rows()), step)
      ensures steps.Keys == old(steps).Keys && forall s <- steps :: s != step ==> steps[s] == old(steps)[s]
      ensures step in steps ==>
        (steps[step].status == Succeeded <==> old(steps)[step].status == Succeeded || Finishable(old(Rows()), step))
      ensures step in steps ==>
        && steps[step] == old(steps)[step].(status := steps[step].status)
        && (steps[step].status == Succeeded || steps[step].status == old(steps)[step].status)
      ensures Finishable(old(Rows()), step) <==>
        || (forall b <- batches :: batches[b].step != step)
        || ((forall b <- batches :: batches[b].step == step ==> batches[b].status in {Succeeded, Cancelled}) &&
            (forall j <- jobs :: jobs[j].step == step ==> jobs[j].status !in {Waiting, Claimed}))
    {
      if step in steps && Finishable(Rows(), step) {
        steps := steps[step := steps[step].(status := Succeeded)];
      }
    }

    // A step with a dead job fails, even one that had succeeded; without one nothing changes.
    method FailStep(step: nat)
      modifies this`steps
      ensures Rows() == StepFailed(old(Rows()), step)
      ensures steps.Keys == old(steps).Keys && forall s <- steps :: s != step ==> steps[s] == old(steps)[s]
      ensures step in steps && (exists j <- jobs :: jobs[j].step == step && jobs[j].status == Dead) ==>
        steps[step] == old(steps)[step].(status := Failed)
      ensures (forall j <- jobs :: jobs[j].step == step ==> jobs[j].status != Dead) ==> steps == old(steps)
    {
      if step in steps && HasDeadJob(Rows(), step) {
        steps := steps[step := steps[step].(status := Failed)];
      }
    }

    // One batch fewer is open, if it was.
    method FinishBatch(batch: nat)
      modifies this`batches
      ensures Rows() == BatchDone(old(Rows()), batch)
      ensures forall s :: OpenBatches(Rows(), s) == OpenBatches(old(Rows()), s) - {batch}
      ensures batches.Keys == old(batches).Keys && forall b <- batches ::
        batches[b] == if b == batch then old(batches)[b].(status := Succeeded) else old(batches)[b]
    {
      if batch in batches {
        batches := batches[batch := batches[batch].(status := Succeeded)];
      }
    }

    // A new id, and a row under it unless the step already has a batch with the number.
    method InsertBatch(step: nat, number: nat) returns (id: nat)
      modifies this`batches, this`next
      ensures id == old(next) && next == old(next) + 1
      ensures batches ==
        if exists b <- old(batches) :: old(batches)[b].step == step && old(batches)[b].number == number
        then old(batches) else old(batches)[id := Batch(step, number, Pending)]
    {
      id := next;
      next := next + 1;
      if !exists b <- batches :: batches[b].step == step && batches[b].number == number {
        batches := batches[id := Batch(step, number, Pending)];
      }
    }

    // One transaction, for the number of each range a batch and its job. Where a number is taken the old batch
    // stays, the job of the new id refers to no batch, and the transaction is rolled back: the expansion
    // succeeds exactly when no number is repeated and the step has no batch with one of them.
    method ExpandCopy(step: nat, numbers: seq<nat>) returns (ok: bool)
      requires step in steps && Keyed(Rows())
      modifies this
      ensures ok <==>
        && (forall i, k :: 0 <= i < k < |numbers| ==> numbers[i] != numbers[k])
        && (forall b <- old(batches) :: old(batches)[b].step == step ==> old(batches)[b].number !in numbers)
      ensures Rows() == if ok then ExpandedWith(old(Rows()), step, numbers) else old(Rows())
      ensures ok ==> next == old(next) + 2 * |numbers| && old(steps) == steps
      ensures ok ==> forall i :: 0 <= i < |numbers| ==> GotBatch(Rows(), old(next) + 2 * i, step, numbers[i])
    {
      hide Keyed, GotBatch, ExpandedWith;
      KeyedIds(Rows());
      var jobsBefore, batchesBefore, nextBefore := jobs, batches, next;
      var i := 0;
      NoNumbers(Rows(), step, numbers);
      while i < |numbers|
        invariant i <= |numbers| && Rows() == ExpandedWith(old(Rows()), step, numbers[..i])
        invariant AreFree(old(Rows()), step, numbers[..i])
        invariant jobsBefore == old(jobs) && batchesBefore == old(batches) && nextBefore == old(next)
        invariant step in steps && run == old(run) && steps == old(steps)
      {
        hide AreFree;
        ghost var before := Rows();
        NumbersTaken(old(Rows()), step, numbers[..i]);
        var batch := InsertBatch(step, numbers[i]);
        var job := Enqueue(step, Some(batch));
        if job.None? {
          jobs, batches, next := jobsBefore, batchesBefore, nextBefore;
          FreeNext(old(Rows()), before, step, numbers, i);
          FreeMeans(old(Rows()), step, numbers);
          return false;
        }
        assert !NumberTaken(before, step, numbers[i]);
        assert Rows() == BatchAdded(before, step, numbers[i]);
        FreeNext(old(Rows()), before, step, numbers, i);
        i := i + 1;
      }
      assert numbers[..i] == numbers;
      FreeMeans(old(Rows()), step, numbers);
      ExpandedRows(old(Rows()), step, numbers);
      ok := true;
    }

    /* ---- the judge ---- */

    // Only a running run changes, and one that stays running has something that runs or can.
    method JudgeTick()
      modifies this`run
      ensures Rows() == Judged(old(Rows()))
      ensures old(run) != RunRunning ==> run == old(run)
      ensures old(run) == RunRunning ==> run in {RunRunning, RunSucceeded, RunFailed}
      ensures old(run) == RunRunning && steps == map[] ==> run == RunRunning
      ensures old(run) == RunRunning && steps != map[] ==>
        (run == RunSucceeded <==> forall s <- steps :: steps[s].status == Succeeded)
      ensures old(run) == RunRunning ==> (run == RunFailed <==>
        && (exists s <- steps :: steps[s].status in {Failed, Cancelled})
        && (forall s <- steps :: steps[s].status != Running)
        && (forall s <- steps :: steps[s].status == Pending ==>
              exists d <- steps[s].deps :: d in steps && steps[d].status != Succeeded))
      ensures run == RunRunning && steps != map[] && Leveled(Rows()) ==> AnyRunning(Rows()) || AnyRunnable(Rows())
    {
      ghost var before := Rows();
      if Leveled(before) && run == RunRunning && steps != map[] {
        UndecidedExactly(before);
      }
      hide Leveled;
      var verdict := Verdict(Rows());
      if verdict.Some? {
        run := verdict.value;
      }
      assert Leveled(Rows()) ==> Leveled(before) by {
        LeveledBefore(before, Rows());
      }
    }

    /* ---- the operator ---- */

    // Nothing can be claimed, but no step changes, and the dispatcher would still find what it would
    // have found.
    method CancelRun()
      modifies this`run, this`jobs
      ensures Rows() == JobsCancelled(old(Rows()).(run := RunCancelled))
      ensures (forall j :: !Claimable(Rows(), j)) && Ready(Rows()) == Ready(old(Rows()))
      ensures run == RunCancelled && jobs.Keys == old(jobs).Keys && forall j <- jobs ::
        jobs[j] == if old(jobs)[j].status in {Waiting, Claimed} then old(jobs)[j].(status := Dead) else old(jobs)[j]
      ensures old(QueueOk(Rows())) ==> QueueOk(Rows())
    {
      run := RunCancelled;
      jobs := map j | j in jobs ::
        if jobs[j].status == Waiting || jobs[j].status == Claimed then jobs[j].(status := Dead) else jobs[j];
      RunCancel.CancelKeepsReady(old(Rows()));
    }

    // Every job is done or can be claimed, every step is pending or has succeeded.
    method RetryRun()
      modifies this
      ensures Rows() == StepsRetried(Reopened(JobsRetried(old(Rows())), steps.Keys)).(run := RunRunning)
      ensures run == RunRunning && jobs.Keys == old(jobs).Keys && steps.Keys == old(steps).Keys
      ensures batches.Keys == old(batches).Keys && forall b <- batches :: batches[b].step in steps ==>
        batches[b] == if old(batches)[b].status in {Failed, Running}
          then old(batches)[b].(status := Pending) else old(batches)[b]
      ensures old(QueueOk(Rows())) ==> forall j <- jobs :: jobs[j].status == Done || Claimable(Rows(), j)
      ensures forall j <- jobs ::
        jobs[j] == if old(jobs)[j].status in {Broken, Dead, Claimed}
          then old(jobs)[j].(status := Waiting, attempts := 0) else old(jobs)[j]
      ensures forall s <- steps ::
        steps[s] == old(steps)[s].(status := if old(steps)[s].status == Succeeded then Succeeded else Pending)
      ensures old(QueueOk(Rows())) ==> QueueOk(Rows())
    {
      RetryJobs();
      ReopenBatches(steps.Keys);
      RetrySteps();
      run := RunRunning;
    }

    method RetryJobs()
      modifies this`jobs
      ensures Rows() == JobsRetried(old(Rows())) && jobs.Keys == old(jobs).Keys
      ensures old(QueueOk(Rows())) ==>
        QueueOk(Rows()) && forall j <- jobs :: jobs[j].status == Done || Claimable(Rows(), j)
      ensures forall j <- jobs ::
        jobs[j] == if old(jobs)[j].status in {Broken, Dead, Claimed}
          then old(jobs)[j].(status := Waiting, attempts := 0) else old(jobs)[j]
    {
      jobs := map j | j in jobs ::
        if jobs[j].status == Broken || jobs[j].status == Dead ||
          jobs[j].status == Claimed then Revived(jobs[j]) else jobs[j];
    }

    method RetrySteps()
      modifies this`steps
      ensures Rows() == StepsRetried(old(Rows())) && steps.Keys == old(steps).Keys
      ensures forall s <- steps ::
        steps[s] == old(steps)[s].(status := if old(steps)[s].status == Succeeded then Succeeded else Pending)
    {
      steps := map s | s in steps ::
        if steps[s].status == Failed || steps[s].status == Running || steps[s].status == Cancelled
        then steps[s].(status := Pending) else steps[s];
    }

    method ReopenBatches(which: set<nat>)
      modifies this`batches
      ensures Rows() == Reopened(old(Rows()), which)
      ensures batches.Keys == old(batches).Keys && forall b <- batches ::
        batches[b] == if old(batches)[b].step in which && old(batches)[b].status in {Failed, Running}
          then old(batches)[b].(status := Pending) else old(batches)[b]
    {
      batches := map b | b in batches ::
        if batches[b].step in which && (batches[b].status == Failed || batches[b].status == Running)
        then batches[b].(status := Pending) else batches[b];
    }

    method ReopenRun()
      modifies this`run
      ensures Rows() == RunReopened(old(Rows()))
      ensures run == if old(run) in {RunFailed, RunCancelled, RunSucceeded} then RunRunning else old(run)
    {
      if run == RunFailed || run == RunCancelled || run == RunSucceeded {
        run := RunRunning;
      }
    }

    // The steps are unlocked and no longer stopped, and each of their jobs is done or can be claimed;
    // other steps and jobs stay as they were.
    method Play(which: set<nat>)
      modifies this
      ensures Rows() == Played(old(Rows()), which)
      ensures jobs.Keys == old(jobs).Keys && steps.Keys == old(steps).Keys
      ensures run == if old(run) in {RunFailed, RunCancelled, RunSucceeded} then RunRunning else old(run)
      ensures forall s <- steps :: steps[s] == if s in which then Opened(old(steps)[s]) else old(steps)[s]
      ensures forall j <- jobs ::
        jobs[j] == if old(jobs)[j].step in which && old(jobs)[j].status != Done
          then old(jobs)[j].(status := Waiting, attempts := 0) else old(jobs)[j]
      ensures batches.Keys == old(batches).Keys && forall b <- batches ::
        batches[b] == if old(batches)[b].step in which && old(batches)[b].status in {Failed, Running}
          then old(batches)[b].(status := Pending) else old(batches)[b]
      ensures old(QueueOk(Rows())) ==>
        forall j <- jobs :: jobs[j].step in which ==> jobs[j].status == Done || Claimable(Rows(), j)
      ensures old(QueueOk(Rows())) ==> QueueOk(Rows())
    {
      UnlockSteps(which);
      ResetJobs(which);
      ReopenBatches(which);
      ReopenRun();
    }

    method UnlockSteps(which: set<nat>)
      modifies this`steps
      ensures Rows() == StepsReset(Unlocked(old(Rows()), which), which)
      ensures steps.Keys == old(steps).Keys
      ensures forall s <- steps :: steps[s] == if s in which then Opened(old(steps)[s]) else old(steps)[s]
    {
      steps := map s | s in steps :: if s in which then steps[s].(unlocked := true) else steps[s];
      steps := map s | s in steps ::
        if s in which && (steps[s].status == Failed || steps[s].status == Cancelled)
        then steps[s].(status := Pending) else steps[s];
    }

    method ResetJobs(which: set<nat>)
      modifies this`jobs
      ensures Rows() == JobsReset(old(Rows()), which) && jobs.Keys == old(jobs).Keys
      ensures old(QueueOk(Rows())) ==>
        QueueOk(Rows()) && forall j <- jobs :: jobs[j].step in which ==> jobs[j].status == Done || Claimable(Rows(), j)
      ensures forall j <- jobs ::
        jobs[j] == if old(jobs)[j].step in which && old(jobs)[j].status != Done
          then old(jobs)[j].(status := Waiting, attempts := 0) else old(jobs)[j]
    {
      jobs := map j | j in jobs ::
        if jobs[j].step in which && jobs[j].status != Done then Revived(jobs[j]) else jobs[j];
    }

    method PlayLevel(level: int)
      modifies this
      ensures Rows() == Played(old(Rows()), AtLevel(old(Rows()), level))
      ensures jobs.Keys == old(jobs).Keys && steps.Keys == old(steps).Keys
      ensures run == if old(run) in {RunFailed, RunCancelled, RunSucceeded} then RunRunning else old(run)
      ensures forall s <- steps ::
        steps[s] == if old(steps)[s].level == level then Opened(old(steps)[s]) else old(steps)[s]
      ensures forall j <- jobs ::
        jobs[j] == if OfLevel(old(steps), old(jobs)[j].step, level) && old(jobs)[j].status != Done
          then old(jobs)[j].(status := Waiting, attempts := 0) else old(jobs)[j]
      ensures batches.Keys == old(batches).Keys && forall b <- batches ::
        batches[b] == if OfLevel(old(steps), old(batches)[b].step, level) && old(batches)[b].status in {Failed, Running}
          then old(batches)[b].(status := Pending) else old(batches)[b]
      ensures old(QueueOk(Rows())) ==> QueueOk(Rows())
    {
      Play(set s | s in steps && steps[s].level == level);
    }

    method PlayStep(step: nat)
      modifies this
      ensures Rows() == Played(old(Rows()), {step})
      ensures jobs.Keys == old(jobs).Keys && steps.Keys == old(steps).Keys
      ensures run == if old(run) in {RunFailed, RunCancelled, RunSucceeded} then RunRunning else old(run)
      ensures forall s <- steps :: steps[s] == if s == step then Opened(old(steps)[s]) else old(steps)[s]
      ensures forall j <- jobs ::
        jobs[j] == if old(jobs)[j].step == step && old(jobs)[j].status != Done
          then old(jobs)[j].(status := Waiting, attempts := 0) else old(jobs)[j]
      ensures batches.Keys == old(batches).Keys && forall b <- batches ::
        batches[b] == if old(batches)[b].step == step && old(batches)[b].status in {Failed, Running}
          then old(batches)[b].(status := Pending) else old(batches)[b]
      ensures old(QueueOk(Rows())) ==> QueueOk(Rows())
    {
      Play({step});
    }

    // The steps are pending and unlocked, without a job or a batch; everything else stays as it was.
    method Replay(which: set<nat>)
      modifies this
      ensures Rows() == Replayed(old(Rows()), which)
      ensures steps.Keys == old(steps).Keys
      ensures run == if old(run) in {RunFailed, RunCancelled, RunSucceeded} then RunRunning else old(run)
      ensures forall s <- steps ::
        steps[s] == if s in which then old(steps)[s].(status := Pending, unlocked := true) else old(steps)[s]
      ensures forall j :: j in jobs <==> j in old(jobs) && old(jobs)[j].step !in which
      ensures forall b :: b in batches <==> b in old(batches) && old(batches)[b].step !in which
      ensures (forall j <- jobs :: jobs[j] == old(jobs)[j]) && forall b <- batches :: batches[b] == old(batches)[b]
      ensures old(QueueOk(Rows())) ==> QueueOk(Rows())
    {
      jobs := map j | j in jobs && jobs[j].step !in which :: jobs[j];
      batches := map b | b in batches && batches[b].step !in which :: batches[b];
      steps := map s | s in steps ::
        if s in which then steps[s].(status := Pending, unlocked := true) else steps[s];
      ReopenRun();
    }

    method ReplayLevel(level: int)
      modifies this
      ensures Rows() == Replayed(old(Rows()), FromLevel(old(Rows()), level))
      ensures steps.Keys == old(steps).Keys
      ensures run == if old(run) in {RunFailed, RunCancelled, RunSucceeded} then RunRunning else old(run)
      ensures forall s <- steps ::
        steps[s] == if old(steps)[s].level >= level
          then old(steps)[s].(status := Pending, unlocked := true) else old(steps)[s]
      ensures forall j :: j in jobs <==>
        j in old(jobs) && !(old(jobs)[j].step in steps && old(steps)[old(jobs)[j].step].level >= level)
      ensures forall b :: b in batches <==>
        b in old(batches) && !(old(batches)[b].step in steps && old(steps)[old(batches)[b].step].level >= level)
      ensures (forall j <- jobs :: jobs[j] == old(jobs)[j]) && forall b <- batches :: batches[b] == old(batches)[b]
      ensures old(QueueOk(Rows())) ==> QueueOk(Rows())
    {
      Replay(set s | s in steps && steps[s].level >= level);
    }

    method ReplayStep(step: nat)
      modifies this
      ensures Rows() == Replayed(old(Rows()), Descendants(old(Rows()), step))
      ensures steps.Keys == old(steps).Keys
      ensures run == if old(run) in {RunFailed, RunCancelled, RunSucceeded} then RunRunning else old(run)
      ensures forall s <- steps ::
        steps[s] == if WaitsFor(old(Rows()), s, step)
          then old(steps)[s].(status := Pending, unlocked := true) else old(steps)[s]
      ensures forall j :: j in jobs <==> j in old(jobs) && !WaitsFor(old(Rows()), old(jobs)[j].step, step)
      ensures forall b :: b in batches <==> b in old(batches) && !WaitsFor(old(Rows()), old(batches)[b].step, step)
      ensures (forall j <- jobs :: jobs[j] == old(jobs)[j]) && forall b <- batches :: batches[b] == old(batches)[b]
      ensures old(QueueOk(Rows())) ==> QueueOk(Rows())
    {
      QueryFinds(Rows(), step);
      var found := {};
      if step in steps {
        found := {step};
        var more := Dependents(Rows(), found) - found;
        while more != {}
          invariant found <= steps.Keys && Rows() == old(Rows())
          invariant more == Dependents(Rows(), found) - found
          invariant Closure(Rows(), found) == Descendants(Rows(), step)
          decreases steps.Keys - found
        {
          found := found + more;
          more := Dependents(Rows(), found) - found;
        }
      }
      Replay(found);
    }
  }

  lemma QueryFinds(db: Db, s: nat)
    ensures forall t :: t in Descendants(db, s) <==> WaitsFor(db, t, s)
  {
    if s in db.steps {
      RunOrder.DescendantsExactly(db, s);
    }
  }

  function OpenBatches(db: Db, s: nat): set<nat> {
    set b | b in db.batches && db.batches[b].step == s && db.batches[b].status != Succeeded &&
      db.batches[b].status != Cancelled
  }

  predicate NumberTaken(db: Db, s: nat, number: nat) {
    exists b <- db.batches :: db.batches[b].step == s && db.batches[b].number == number
  }

  // A batch of the step with that number, under that id, and its job under the next one.
  predicate GotBatch(db: Db, id: nat, s: nat, number: nat) {
    && id in db.batches && db.batches[id] == Batch(s, number, Pending)
    && id + 1 in db.jobs && db.jobs[id + 1] == Job(s, Some(id), Waiting, 0, 3)
  }

  function ExpandedWith(db: Db, s: nat, numbers: seq<nat>): Db {
    if numbers == [] then db
    else BatchAdded(ExpandedWith(db, s, numbers[..|numbers| - 1]), s, numbers[|numbers| - 1])
  }

  // The numbers differ, and the step has no batch with one of them.
  ghost predicate AreFree(db: Db, s: nat, numbers: seq<nat>) {
    && (forall i, k :: 0 <= i < k < |numbers| ==> numbers[i] != numbers[k])
    && (forall x <- numbers :: !NumberTaken(db, s, x))
  }

  lemma NoNumbers(db: Db, s: nat, numbers: seq<nat>)
    ensures ExpandedWith(db, s, numbers[..0]) == db && AreFree(db, s, numbers[..0])
  {}

  lemma FreeMeans(db: Db, s: nat, numbers: seq<nat>)
    ensures AreFree(db, s, numbers) <==>
      && (forall i, k :: 0 <= i < k < |numbers| ==> numbers[i] != numbers[k])
      && (forall b <- db.batches :: db.batches[b].step == s ==> db.batches[b].number !in numbers)
  {}

  lemma FreeNext(db: Db, before: Db, s: nat, numbers: seq<nat>, i: nat)
    requires i < |numbers| && AreFree(db, s, numbers[..i])
    requires NumberTaken(before, s, numbers[i]) <==> NumberTaken(db, s, numbers[i]) || numbers[i] in numbers[..i]
    ensures !NumberTaken(before, s, numbers[i]) ==> AreFree(db, s, numbers[..i + 1])
    ensures NumberTaken(before, s, numbers[i]) ==> !AreFree(db, s, numbers)
    ensures ExpandedWith(db, s, numbers[..i + 1]) == BatchAdded(ExpandedWith(db, s, numbers[..i]), s, numbers[i])
  {
    hide NumberTaken, BatchAdded;
    assert numbers[..i + 1][..i] == numbers[..i] && numbers[..i + 1] == numbers[..i] + [numbers[i]];
    if numbers[i] in numbers[..i] {
      var k :| 0 <= k < i && numbers[..i][k] == numbers[i];
    }
    assert numbers[i] in numbers;
  }

  // The batches of the step afterwards have the numbers they had and the new ones.
  lemma {:induction false} NumbersTaken(db: Db, s: nat, numbers: seq<nat>)
    requires (forall b <- db.batches :: b < db.next) && forall j <- db.jobs :: j < db.next
    ensures forall b <- ExpandedWith(db, s, numbers).batches :: b < ExpandedWith(db, s, numbers).next
    ensures forall j <- ExpandedWith(db, s, numbers).jobs :: j < ExpandedWith(db, s, numbers).next
    ensures forall x :: NumberTaken(ExpandedWith(db, s, numbers), s, x) <==> NumberTaken(db, s, x) || x in numbers
  {
    hide BatchAdded, NumberTaken;
    if numbers != [] {
      var n := |numbers| - 1;
      NumbersTaken(db, s, numbers[..n]);
      var before := ExpandedWith(db, s, numbers[..n]);
      AddedNumber(before, s, numbers[n]);
      assert numbers == numbers[..n] + [numbers[n]];
    }
  }

  lemma AddedNumber(db: Db, s: nat, number: nat)
    requires (forall b <- db.batches :: b < db.next) && forall j <- db.jobs :: j < db.next
    ensures forall b <- BatchAdded(db, s, number).batches :: b < BatchAdded(db, s, number).next
    ensures forall j <- BatchAdded(db, s, number).jobs :: j < BatchAdded(db, s, number).next
    ensures forall x :: NumberTaken(BatchAdded(db, s, number), s, x) <==> NumberTaken(db, s, x) || x == number
  {
    var after := BatchAdded(db, s, number);
    assert after.batches[db.next] == Batch(s, number, Pending);
    assert forall b <- db.batches :: after.batches[b] == db.batches[b];
    forall x ensures NumberTaken(after, s, x) <==> NumberTaken(db, s, x) || x == number {
      if NumberTaken(db, s, x) {
        var b :| b in db.batches && db.batches[b].step == s && db.batches[b].number == x;
        assert after.batches[b] == db.batches[b];
      }
    }
  }

  // An expansion gives every number a batch and a job under ids of their own, and changes and adds nothing else.
  lemma {:induction false} ExpandedRows(db: Db, s: nat, numbers: seq<nat>)
    requires (forall b <- db.batches :: b < db.next) && forall j <- db.jobs :: j < db.next
    ensures var after := ExpandedWith(db, s, numbers);
      && after.next == db.next + 2 * |numbers| && after.steps == db.steps && after.run == db.run
      && (forall i :: 0 <= i < |numbers| ==> GotBatch(after, db.next + 2 * i, s, numbers[i]))
      && (forall b <- db.batches :: b in after.batches && after.batches[b] == db.batches[b])
      && (forall j <- db.jobs :: j in after.jobs && after.jobs[j] == db.jobs[j])
      && (forall b <- after.batches :: b in db.batches || NewId(db.next, |numbers|, b, 0))
      && (forall j <- after.jobs :: j in db.jobs || NewId(db.next, |numbers|, j, 1))
  {
    if numbers != [] {
      var n := |numbers| - 1;
      ExpandedRows(db, s, numbers[..n]);
      var before := ExpandedWith(db, s, numbers[..n]);
      var after := ExpandedWith(db, s, numbers);
      assert after.batches == before.batches[before.next := Batch(s, numbers[n], Pending)];
      assert after.jobs == before.jobs[before.next + 1 := Job(s, Some(before.next), Waiting, 0, 3)];
      forall i | 0 <= i < |numbers| ensures GotBatch(after, db.next + 2 * i, s, numbers[i]) {
        if i < n {
          assert GotBatch(before, db.next + 2 * i, s, numbers[..n][i]);
        }
      }
      MoreIds(db.next, n);
      assert NewId(db.next, n + 1, before.next, 0) && NewId(db.next, n + 1, before.next + 1, 1);
    }
  }

  // One of the n ids that an expansion takes for batches, or one of those for jobs.
  ghost predicate NewId(next: nat, n: nat, id: nat, kind: nat) {
    exists i :: 0 <= i < n && id == next + 2 * i + kind
  }

  lemma MoreIds(next: nat, n: nat)
    ensures forall id, kind :: NewId(next, n, id, kind) ==> NewId(next, n + 1, id, kind)
    ensures NewId(next, n + 1, next + 2 * n, 0) && NewId(next, n + 1, next + 2 * n + 1, 1)
  {
    assert next + 2 * n == next + 2 * n + 0;
  }

  function Upto(n: nat): seq<nat> {
    seq(n, i => i)
  }

  // An expansion into n ranges is that of the numbers below n.
  lemma {:induction false} ExpandedUpto(db: Db, s: nat, n: nat)
    ensures ExpandedWith(db, s, Upto(n)) == Expanded(db, s, n)
  {
    if n > 0 {
      ExpandedUpto(db, s, n - 1);
      assert Upto(n)[..n - 1] == Upto(n - 1);
    }
  }

  lemma BelowMeans(db: Db, s: nat, n: nat)
    ensures !HasBatchBelow(db, s, n) <==>
      && (forall i, k :: 0 <= i < k < |Upto(n)| ==> Upto(n)[i] != Upto(n)[k])
      && (forall b <- db.batches :: db.batches[b].step == s ==> db.batches[b].number !in Upto(n))
  {
    forall x: nat ensures x in Upto(n) <==> x < n {
      if x < n {
        assert Upto(n)[x] == x;
      }
    }
  }

  // The verdict changes no step.
  lemma LeveledBefore(a: Db, b: Db)
    requires a.steps == b.steps
    ensures Leveled(b) ==> Leveled(a)
  {}

  predicate FirstOf(plan: seq<Step>, job: Job) {
    exists s <- plan :: s.deps == [] && job == Job(s.id, None, Waiting, 0, MAX_ATTEMPTS)
  }

  lemma FirstOfMore(plan: seq<Step>, i: nat, db: Db)
    requires DistinctIds(plan) && i < |plan|
    ensures forall j <- db.jobs :: FirstOf(plan[..i], db.jobs[j]) ==>
      FirstOf(plan[..i + 1], db.jobs[j]) && db.jobs[j].step != plan[i].id
    ensures plan[i].deps == [] ==> FirstOf(plan[..i + 1], Job(plan[i].id, None, Waiting, 0, MAX_ATTEMPTS))
  {
    assert plan[..i + 1] == plan[..i] + [plan[i]];
    forall j | j in db.jobs && FirstOf(plan[..i], db.jobs[j])
      ensures FirstOf(plan[..i + 1], db.jobs[j]) && db.jobs[j].step != plan[i].id
    {
      var s :| s in plan[..i] && s.deps == [] && db.jobs[j] == Job(s.id, None, Waiting, 0, MAX_ATTEMPTS);
      assert s in plan[..i + 1];
    }
    assert plan[i] in plan[..i + 1];
  }

  lemma EnqueuedHas(db: Db, s: nat)
    requires forall j <- db.jobs :: j < db.next
    ensures forall t :: HasStepJob(Enqueued(db, s, None), t) <==> HasStepJob(db, t) || t == s
  {
    var b := Enqueued(db, s, None);
    assert b.jobs[db.next].step == s && b.jobs[db.next].batch.None?;
    forall t | HasStepJob(db, t) ensures HasStepJob(b, t) {
      var j :| j in db.jobs && db.jobs[j].step == t && db.jobs[j].batch.None?;
      assert b.jobs[j] == db.jobs[j];
    }
  }
}
