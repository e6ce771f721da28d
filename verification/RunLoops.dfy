/** The loops of the workers, the supervisor, the dispatcher and the judge, and the operator's calls:
    what a round does to the tables is what a run of events does. */
module RunLoops {
  import opened Wrappers
  import opened RunDb
  import opened RunEvents
  import opened RunQueue
  import opened RunStore
  import opened RunHazards
  import RunOrder
  import RunBreaks
  import RunCancel

  // The events can happen in this order, and lead from w to v.
  ghost predicate Runs(w: World, es: seq<Event>, v: World) {
    Possible(w, es) && After(w, es) == v
  }

  lemma Two(w: World, d: Event, e: Event)
    requires Enabled(w, d) && Enabled(Next(w, d), e)
    ensures Runs(w, [d, e], Next(Next(w, d), e))
  {
    RunCancel.Last(Next(w, d), e);
    Also(w, d, Next(w, d), [e]);
    assert [d] + [e] == [d, e];
  }

  /* ---- a worker ---- */

  // What the handler of a claimed job comes to: an error of its own, or for a copy_table step some ranges.
  datatype Outcome = Fails | Works(ranges: nat)

  ghost function HandlerEvent(w: World, k: nat, outcome: Outcome): (e: Event)
    requires At(w, k, Working)
    ensures Enabled(w, e)
  {
    if outcome.Fails? then Err(k)
    else if w.flights[k].batch.Some? then CopyBatch(k)
    else if IsCopyStep(w, w.flights[k].step) then Expand(k, outcome.ranges)
    else Finish(k)
  }

  // The handler as the worker calls it, with the step and the batch that its job had when it was claimed.
  method Handle(store: Store, step: nat, batch: Option<nat>, outcome: Outcome, ghost w: World, ghost k: nat)
    returns (ok: bool)
    requires store.Rows() == w.db && Keyed(w.db)
    requires At(w, k, Working) && w.flights[k].step == step && w.flights[k].batch == batch
    modifies store
    ensures store.Rows() == Next(w, HandlerEvent(w, k, outcome)).db
    ensures ok <==> At(Next(w, HandlerEvent(w, k, outcome)), k, HandlerOk)
    ensures ok <==>
      outcome.Works? && (IsCopyStep(w, step) && batch.None? ==> !HasBatchBelow(w.db, step, outcome.ranges))
  {
    hide Keyed, HasBatchBelow, Expanded, ExpandedWith, Upto;
    match outcome
    case Fails => ok := false;
    case Works(ranges) =>
      ok := true;
      if batch.Some? {
        store.FinishBatch(batch.value);
      } else if step in store.steps && store.steps[step].copies {
        ExpandedUpto(w.db, step, ranges);
        BelowMeans(w.db, step, ranges);
        ok := store.ExpandCopy(step, Upto(ranges));
      }
  }

  // What the worker writes after the handler.
  method Report(store: Store, job: nat, step: nat, ok: bool, ghost w: World, ghost k: nat)
    returns (ghost es: seq<Event>)
    requires store.Rows() == w.db && At(w, k, if ok then HandlerOk else HandlerErr)
    requires w.flights[k].job == job && w.flights[k].step == step
    modifies store
    ensures es == if ok then [Event.Succeed(k), Finalize(k)] else [Event.Fail(k), Event.FailStep(k)]
    ensures Runs(w, es, Landed(w, k, store.Rows()))
    ensures job in w.db.jobs ==> job in store.jobs && (store.jobs[job].status == Done <==> ok)
    ensures job in w.db.jobs ==> store.jobs[job].attempts == w.db.jobs[job].attempts
  {
    hide HasDeadJob, Finishable;
    es := if ok then [Event.Succeed(k), Finalize(k)] else [Event.Fail(k), Event.FailStep(k)];
    if ok {
      store.Succeed(job);
      store.Complete(step);
      Two(w, Event.Succeed(k), Finalize(k));
    } else {
      store.Fail(job);
      store.FailStep(step);
      Two(w, Event.Fail(k), Event.FailStep(k));
    }
  }

  // One round of a worker without a claim. When something can be claimed, the round uses up one attempt
  // of the job and leaves it done exactly when the handler did its work.
  method WorkOnce(store: Store, k: nat, outcome: Outcome, ghost w: World)
    returns (claim: Option<nat>, ghost es: seq<Event>)
    requires store.Rows() == w.db && Keyed(w.db) && k !in w.flights
    modifies store
    ensures claim.None? <==> forall j :: !Claimable(w.db, j)
    ensures Runs(w, es, w.(db := store.Rows()))
    ensures claim.Some? ==> Claimable(w.db, claim.value) && es != [] && es[0] == Claim(k, claim.value)
    ensures claim.Some? ==>
      claim.value in store.jobs && store.jobs[claim.value].attempts == w.db.jobs[claim.value].attempts + 1
    ensures claim.Some? ==> (store.jobs[claim.value].status == Done <==> CanWork(w.db, claim.value, outcome))
  {
    hide Keyed, Next, Enabled, Possible, After, Begun, HasBatchBelow, HandlerEvent, At, Moved, IsWorker;
    claim := store.Claim();
    es := [];
    if claim.None? {
      Nothing(w);
      return;
    }
    var job := claim.value;
    var step, batch := store.jobs[job].step, store.jobs[job].batch;
    store.MarkRunning(step);
    ghost var b := Marked(w, k, job);
    MarkedBy(w, k, job);
    var ok := Handle(store, step, batch, outcome, b, k);
    ghost var e := HandlerEvent(b, k, outcome);
    HandlerMoves(b, k, outcome);
    ghost var rest := Report(store, job, step, ok, Next(b, e), k);
    es := [Claim(k, job), Begin(k), e] + rest;
    RunBreaks.Then(w, [Claim(k, job), Begin(k), e], rest) by {
      AfterHandler(w, k, job, outcome);
    }
    AfterHandler(w, k, job, outcome);
    assert After(w, es) == Landed(Next(b, e), k, store.Rows());
    assert (w.flights[k := b.flights[k]]) - {k} == w.flights;
  }

  // An expansion needs its numbers free.
  predicate CanWork(db: Db, j: nat, outcome: Outcome)
    requires j in db.jobs
  {
    var s := db.jobs[j].step;
    && outcome.Works?
    && (db.jobs[j].batch.None? && s in db.steps && db.steps[s].copies ==> !HasBatchBelow(db, s, outcome.ranges))
  }

  lemma Nothing(w: World)
    ensures Runs(w, [], w)
  {}

  lemma AfterHandler(w: World, k: nat, j: nat, outcome: Outcome)
    requires Claimable(w.db, j) && k !in w.flights && Keyed(w.db)
    requires At(Marked(w, k, j), k, Working)
    ensures var e := HandlerEvent(Marked(w, k, j), k, outcome);
      Runs(w, [Claim(k, j), Begin(k), e], Next(Marked(w, k, j), e))
  {
    hide Keyed, Next, Marked, HandlerEvent;
    MarkedBy(w, k, j);
    var e := HandlerEvent(Marked(w, k, j), k, outcome);
    RunCancel.Last(Marked(w, k, j), e);
    RunBreaks.Then(w, [Claim(k, j), Begin(k)], [e]);
    assert [Claim(k, j), Begin(k)] + [e] == [Claim(k, j), Begin(k), e];
  }

  // The job is claimed and its step is marked running.
  function Marked(w: World, k: nat, j: nat): World
    requires Claimable(w.db, j)
  {
    var a := ClaimedBy(w, k, j);
    Moved(a, k, Working, Begun(a.db, w.db.jobs[j].step))
  }

  lemma MarkedBy(w: World, k: nat, j: nat)
    requires Claimable(w.db, j) && k !in w.flights && Keyed(w.db)
    ensures Runs(w, [Claim(k, j), Begin(k)], Marked(w, k, j))
    ensures Keyed(Marked(w, k, j).db) && At(Marked(w, k, j), k, Working)
    ensures Marked(w, k, j).db == Begun(ClaimedJob(w.db, j), w.db.jobs[j].step)
    ensures Marked(w, k, j).flights == w.flights[k := Flight(j, w.db.jobs[j].step, w.db.jobs[j].batch, Working)]
    ensures forall s :: IsCopyStep(Marked(w, k, j), s) <==> IsCopyStep(w, s)
    ensures Marked(w, k, j).ready == w.ready && Marked(w, k, j).db.batches == w.db.batches
    ensures forall s, n: nat :: HasBatchBelow(Marked(w, k, j).db, s, n) <==> HasBatchBelow(w.db, s, n)
    ensures j in Marked(w, k, j).db.jobs && Marked(w, k, j).db.jobs[j].attempts == w.db.jobs[j].attempts + 1
  {
    hide Keyed;
    Two(w, Claim(k, j), Begin(k));
    RowsKeep(w.db, Marked(w, k, j).db);
  }

  lemma HandlerMoves(w: World, k: nat, outcome: Outcome)
    requires At(w, k, Working) && Keyed(w.db)
    ensures var c := Next(w, HandlerEvent(w, k, outcome));
      c.ready == w.ready && c.flights.Keys == w.flights.Keys && c.flights - {k} == w.flights - {k} &&
      c.flights[k] == w.flights[k].(phase := c.flights[k].phase) &&
      (At(c, k, HandlerOk) || At(c, k, HandlerErr)) &&
      forall j <- w.db.jobs :: j in c.db.jobs && c.db.jobs[j] == w.db.jobs[j]
  {
    hide HasBatchBelow, Expanded, Keyed;
    KeyedIds(w.db);
    if outcome.Works? {
      RunOrder.ExpandedGrows(w.db, w.flights[k].step, outcome.ranges);
    }
  }

  /* ---- the supervisor, the dispatcher, the judge ---- */

  method SuperviseOnce(store: Store, expired: set<nat>, ghost w: World)
    requires store.Rows() == w.db
    modifies store
    ensures Runs(w, [Requeue(expired), FailDead], w.(db := store.Rows()))
    ensures forall j <- store.jobs :: j in expired ==> store.jobs[j].status != Claimed
    ensures forall s <- store.steps :: HasDeadStepJob(store.Rows(), s) ==>
      store.steps[s].status == Succeeded || store.steps[s].status == Failed
  {
    hide HasDeadStepJob;
    store.RequeueOrphans(expired);
    Two(w, Requeue(expired), FailDead);
  }

  method JudgeOnce(store: Store, ghost w: World)
    requires store.Rows() == w.db
    modifies store
    ensures Runs(w, [Judge], w.(db := store.Rows()))
  {
    hide Verdict;
    store.JudgeTick();
    RunCancel.Last(w, Judge);
  }

  // A tick that nothing interrupts gives every ready step a job, leaves none ready, and inserts nothing else.
  method DispatchOnce(store: Store, ghost w: World) returns (ghost es: seq<Event>)
    requires store.Rows() == w.db && w.ready == {} && Keyed(w.db)
    modifies store
    ensures Runs(w, es, w.(db := store.Rows()))
    ensures es != [] && es[0] == Query && forall i :: 1 <= i < |es| ==> es[i].Dispatch? && es[i].s in Ready(w.db)
    ensures |es| == 1 + |Ready(w.db)| && Ready(store.Rows()) == {}
    ensures forall s :: HasStepJob(store.Rows(), s) <==> HasStepJob(w.db, s) || s in Ready(w.db)
    ensures Given(w.db, store.Rows(), Ready(w.db))
    ensures forall s <- w.db.steps :: s in Ready(w.db) <==>
      && w.db.steps[s].status == Pending && w.db.steps[s].unlocked
      && (forall d <- w.db.steps[s].deps :: d in w.db.steps && w.db.steps[d].status == Succeeded)
      && (forall j <- w.db.jobs :: w.db.jobs[j].step == s ==> w.db.jobs[j].batch != None)
    ensures store.steps == w.db.steps && store.batches == w.db.batches && store.run == w.db.run
  {
    hide Keyed, HasStepJob, Given, Ready, Runs, Enqueued, IsReady, Ticked;
    KeyedIds(w.db);
    var found := Ready(store.Rows());
    es := [Query];
    FirstTick(w);
    while found != {}
      invariant Ticked(w, es, store.Rows(), found) && found <= w.db.steps.Keys
      invariant store.steps == w.db.steps && store.batches == w.db.batches && store.run == w.db.run
      invariant forall j <- store.jobs :: j < store.next
      decreases found
    {
      ghost var db := store.Rows();
      var s :| s in found;
      var id := store.Enqueue(s, None);
      TickOn(w, es, db, found, s);
      found := found - {s};
      es := es + [Dispatch(s)];
    }
    TickEnds(w, es, store.Rows());
    ReadyRows(w.db);
  }

  // A tick under way: what it has inserted, and the steps it found that are left.
  ghost predicate Ticked(w: World, es: seq<Event>, db: Db, left: set<nat>) {
    && left <= Ready(w.db) && |es| + |left| == 1 + |Ready(w.db)| && Runs(w, es, World(db, w.flights, left))
    && es != [] && es[0] == Query && (forall i :: 1 <= i < |es| ==> es[i].Dispatch? && es[i].s in Ready(w.db))
    && (forall s :: HasStepJob(db, s) <==> HasStepJob(w.db, s) || (s in Ready(w.db) && s !in left))
    && Given(w.db, db, Ready(w.db) - left)
  }

  lemma FirstTick(w: World)
    requires w.ready == {}
    ensures Ticked(w, [Query], w.db, Ready(w.db)) && Ready(w.db) <= w.db.steps.Keys
  {
    hide HasStepJob, DepsDone, Runs;
    Asked(w);
    assert Ready(w.db) - Ready(w.db) == {};
    assert World(w.db, w.flights, {}) == w;
  }

  lemma TickOn(w: World, es: seq<Event>, db: Db, left: set<nat>, s: nat)
    requires Ticked(w, es, db, left) && s in left && forall j <- db.jobs :: j < db.next
    ensures Ticked(w, es + [Dispatch(s)], Enqueued(db, s, None), left - {s})
  {
    hide HasStepJob, Ready, Runs, Given, Enqueued;
    EnqueuedHas(db, s);
    Found(w, es, World(db, w.flights, left), s);
    OneMore(w.db, db, Ready(w.db) - left, s);
    assert Ready(w.db) - left + {s} == Ready(w.db) - (left - {s});
  }

  lemma TickEnds(w: World, es: seq<Event>, db: Db)
    requires Ticked(w, es, db, {}) && db.steps == w.db.steps && w.ready == {}
    ensures Runs(w, es, w.(db := db)) && Given(w.db, db, Ready(w.db)) && Ready(db) == {}
    ensures es != [] && es[0] == Query && forall i :: 1 <= i < |es| ==> es[i].Dispatch? && es[i].s in Ready(w.db)
    ensures |es| == 1 + |Ready(w.db)|
    ensures forall s :: HasStepJob(db, s) <==> HasStepJob(w.db, s) || s in Ready(w.db)
  {
    hide HasStepJob, Ready, Runs, Given;
    assert Ready(w.db) - {} == Ready(w.db);
    NoneLeft(w.db, db);
  }

  // Some steps were given a new job each, and nothing else was inserted.
  ghost predicate Given(a: Db, b: Db, given: set<nat>) {
    && (forall j <- a.jobs :: j in b.jobs && b.jobs[j] == a.jobs[j])
    && (forall j <- b.jobs ::
          j in a.jobs || (b.jobs[j].step in given && b.jobs[j] == Job(b.jobs[j].step, None, Waiting, 0, 3)))
    && (forall s <- given :: exists j <- b.jobs :: b.jobs[j] == Job(s, None, Waiting, 0, 3))
  }

  lemma OneMore(a: Db, b: Db, given: set<nat>, s: nat)
    requires Given(a, b, given) && forall j <- b.jobs :: j < b.next
    ensures Given(a, Enqueued(b, s, None), given + {s})
  {
    var c := Enqueued(b, s, None);
    assert forall j <- b.jobs :: c.jobs[j] == b.jobs[j];
    forall t | t in given + {s} ensures exists j <- c.jobs :: c.jobs[j] == Job(t, None, Waiting, 0, 3) {
      if t == s {
        assert c.jobs[b.next] == Job(s, None, Waiting, 0, 3);
      } else {
        var j :| j in b.jobs && b.jobs[j] == Job(t, None, Waiting, 0, 3);
        assert c.jobs[j] == b.jobs[j];
      }
    }
  }

  lemma NoneLeft(a: Db, b: Db)
    requires a.steps == b.steps && forall s :: HasStepJob(b, s) <==> HasStepJob(a, s) || s in Ready(a)
    ensures Ready(b) == {}
  {
    forall s | s in b.steps ensures !IsReady(b, s) {
      SameDeps(a, b, s);
    }
  }

  lemma ReadyRows(db: Db)
    ensures forall s <- db.steps :: s in Ready(db) <==>
      && db.steps[s].status == Pending && db.steps[s].unlocked
      && (forall d <- db.steps[s].deps :: d in db.steps && db.steps[d].status == Succeeded)
      && (forall j <- db.jobs :: db.jobs[j].step == s ==> db.jobs[j].batch != None)
  {}

  lemma Asked(w: World)
    requires w.ready == {}
    ensures Runs(w, [Query], World(w.db, w.flights, Ready(w.db)))
  {
    RunCancel.Last(w, Query);
  }

  lemma Found(w: World, es: seq<Event>, v: World, s: nat)
    requires Runs(w, es, v) && s in v.ready
    ensures Runs(w, es + [Dispatch(s)], World(Enqueued(v.db, s, None), v.flights, v.ready - {s}))
  {
    RunBreaks.Then(w, es, [Dispatch(s)]) by {
      RunCancel.Last(v, Dispatch(s));
    }
    RunCancel.Last(v, Dispatch(s));
  }

  lemma SameDeps(a: Db, b: Db, s: nat)
    requires a.steps == b.steps && s in a.steps
    ensures DepsDone(a, s) == DepsDone(b, s)
  {}

  /* ---- the operator ---- */

  datatype Action = Cancel | Retry | Play(level: int) | Replay(level: int) | PlayOne(s: nat) | ReplayOne(s: nat)

  function EventsOf(action: Action): seq<Event> {
    match action
    case Cancel => [CancelRun, CancelJobs]
    case Retry => [RetryJobs, RetryBatches, RetrySteps, RetryRun]
    case Play(level) => [PlayLevel(level)]
    case Replay(level) => [ReplayLevel(level)]
    case PlayOne(s) => [PlayStep(s)]
    case ReplayOne(s) => [ReplayStep(s)]
  }

  method Operate(store: Store, action: Action, ghost w: World)
    requires store.Rows() == w.db
    modifies store
    ensures Runs(w, EventsOf(action), w.(db := store.Rows()))
    ensures QueueOk(w.db) ==> QueueOk(store.Rows())
    ensures action.Cancel? ==> store.run == RunCancelled
    ensures action.Retry? || (!action.Cancel? && w.db.run in {RunFailed, RunCancelled, RunSucceeded}) ==>
      store.run == RunRunning
    ensures !action.Retry? && !action.Cancel? && w.db.run in {RunPending, RunRunning} ==> store.run == w.db.run
  {
    hide Played, Replayed, AtLevel, FromLevel, Descendants, QueueOk, JobsCancelled, JobsRetried, StepsRetried, Reopened;
    match action
    case Cancel =>
      store.CancelRun();
      Two(w, CancelRun, CancelJobs);
    case Retry =>
      store.RetryRun();
      Retried(w);
    case Play(level) =>
      store.PlayLevel(level);
      RunCancel.Last(w, PlayLevel(level));
    case Replay(level) =>
      store.ReplayLevel(level);
      RunCancel.Last(w, ReplayLevel(level));
    case PlayOne(s) =>
      store.PlayStep(s);
      RunCancel.Last(w, PlayStep(s));
    case ReplayOne(s) =>
      store.ReplayStep(s);
      RunCancel.Last(w, ReplayStep(s));
  }

  lemma Retried(w: World)
    ensures Runs(w, EventsOf(Retry),
      w.(db := StepsRetried(Reopened(JobsRetried(w.db), w.db.steps.Keys)).(run := RunRunning)))
  {
    var a := w.(db := JobsRetried(w.db));
    var b := a.(db := Reopened(a.db, w.db.steps.Keys));
    RetriedJobs(w);
    RetriedSteps(b);
    hide Next, Enabled, JobsRetried, Reopened, StepsRetried;
    RunBreaks.Then(w, [RetryJobs, RetryBatches], [RetrySteps, RetryRun]);
    assert [RetryJobs, RetryBatches] + [RetrySteps, RetryRun] == EventsOf(Retry);
  }

  lemma RetriedJobs(w: World)
    ensures Runs(w, [RetryJobs, RetryBatches], w.(db := Reopened(JobsRetried(w.db), w.db.steps.Keys)))
  {
    hide Reopened;
    Two(w, RetryJobs, RetryBatches);
  }

  lemma RetriedSteps(w: World)
    ensures Runs(w, [RetrySteps, RetryRun], w.(db := StepsRetried(w.db).(run := RunRunning)))
  {
    hide StepsRetried;
    Two(w, RetrySteps, RetryRun);
  }
}
