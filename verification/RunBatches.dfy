/** Batches and their jobs, under every interleaving: none without a job, none done but not copied. */
module RunBatches {
  import opened Wrappers
  import opened RunDb
  import opened RunEvents
  import opened RunQueue
  import opened RunOrder

  predicate HasBatchJob(db: Db, b: nat) {
    exists j <- db.jobs :: db.jobs[j].batch == Some(b)
  }

  // The batch, if it is one and still in the table, has been copied.
  predicate IsCopied(db: Db, batch: Option<nat>) {
    batch.Some? && batch.value in db.batches ==> db.batches[batch.value].status == Succeeded
  }

  // Every batch has a job, and where the job is done or a claim on it is past its handler, it is copied.
  ghost predicate Batched(w: World) {
    && (forall b <- w.db.batches :: HasBatchJob(w.db, b))
    && (forall j <- w.db.jobs :: w.db.jobs[j].status == Done ==> IsCopied(w.db, w.db.jobs[j].batch))
    && (forall k <- w.flights :: Past(w.flights[k].phase) ==> IsCopied(w.db, w.flights[k].batch))
  }

  /* ---- batches stay copied ---- */

  // Old batches stay copied, and new ones have new ids and a job.
  ghost predicate BatchesStay(a: Db, b: Db) {
    forall x <- b.batches ::
      if x in a.batches then a.batches[x].status == Succeeded ==> b.batches[x].status == Succeeded
      else x >= a.next && HasBatchJob(b, x)
  }

  lemma {:induction false} ExpandedStay(db: Db, s: nat, n: nat)
    requires (forall j <- db.jobs :: j < db.next) && (forall x <- db.batches :: x < db.next)
    ensures BatchesStay(db, Expanded(db, s, n)) && db.next <= Expanded(db, s, n).next
    ensures forall x: nat :: HasBatchJob(db, x) ==> HasBatchJob(Expanded(db, s, n), x)
  {
    hide HasBatchJob, BatchAdded;
    if n > 0 {
      ExpandedStay(db, s, n - 1);
      ExpandedOwners(db, s, n - 1);
      AddedStay(Expanded(db, s, n - 1), s, n - 1);
    }
  }

  lemma AddedStay(db: Db, s: nat, number: nat)
    requires (forall j <- db.jobs :: j < db.next) && (forall x <- db.batches :: x < db.next)
    ensures var b := BatchAdded(db, s, number);
      && BatchesStay(db, b) && b.batches.Keys == db.batches.Keys + {db.next} && db.next <= b.next
      && forall x <- db.batches :: b.batches[x] == db.batches[x]
    ensures forall x: nat :: HasBatchJob(db, x) ==> HasBatchJob(BatchAdded(db, s, number), x)
  {
    var b := BatchAdded(db, s, number);
    assert b.jobs[db.next + 1].batch == Some(db.next);
    JobsAdded(db, b);
  }

  lemma JobsAdded(a: Db, b: Db)
    requires forall j <- a.jobs :: j in b.jobs && b.jobs[j].batch == a.jobs[j].batch
    ensures forall x: nat :: HasBatchJob(a, x) ==> HasBatchJob(b, x)
  {
    forall x: nat | HasBatchJob(a, x) ensures HasBatchJob(b, x) {
      var j :| j in a.jobs && a.jobs[j].batch == Some(x);
      assert b.jobs[j].batch == Some(x);
    }
  }

  lemma StayStep(w: World, e: Event)
    requires OneJob(w) && Enabled(w, e)
    ensures BatchesStay(w.db, Next(w, e).db)
  {
    hide OneJob, HasBatchJob, HasDeadJob, HasDeadStepJob, Finishable, Verdict,
      Ready, Expanded, HasBatchBelow, AtLevel, FromLevel,
      Descendants;
    if e.Expand? {
      OneJobIds(w);
      OneJobBatches(w);
      ExpandedStay(w.db, w.flights[e.w].step, e.n);
    }
  }

  lemma OneJobBatches(w: World)
    requires OneJob(w)
    ensures forall x <- w.db.batches :: x < w.db.next
  {}

  lemma StaysCopied(a: Db, b: Db, batch: Option<nat>)
    requires BatchesStay(a, b) && IsCopied(a, batch) && (batch.Some? ==> batch.value < a.next)
    ensures IsCopied(b, batch)
  {}

  /* ---- batches keep their jobs ---- */

  lemma JobsStep(w: World, e: Event, b: nat)
    requires OneJob(w) && Enabled(w, e) && b in w.db.batches && b in Next(w, e).db.batches && HasBatchJob(w.db, b)
    ensures HasBatchJob(Next(w, e).db, b)
  {
    hide Keyed, HasStepJob, Expanded, Replayed, FromLevel, Descendants,
      WorkerStep, Operated, Verdict, HasDeadStepJob, HasBatchJob;
    if e.Expand? {
      hide Keyed;
      OneJobIds(w);
      OneJobBatches(w);
      ExpandedStay(w.db, w.flights[e.w].step, e.n);
      ExpandEffect(w, e);
    } else if IsReplay(e) {
      ReplayEffect(w, e);
      ReplayKeepsJob(w.db, if e.ReplayLevel? then FromLevel(w.db, e.level) else Descendants(w.db, e.s), b);
    } else if e.Dispatch? {
      OneJobIds(w);
      JobsAdded(w.db, Next(w, e).db);
    } else {
      RowsStep(w, e);
      JobsAdded(w.db, Next(w, e).db);
    }
  }

  lemma ExpandEffect(w: World, e: Event)
    requires Enabled(w, e) && e.Expand?
    ensures var s := w.flights[e.w].step;
      Next(w, e).db == if HasBatchBelow(w.db, s, e.n) then w.db else Expanded(w.db, s, e.n)
  {
    hide HasBatchBelow, Expanded;
  }

  lemma ReplayEffect(w: World, e: Event)
    requires Enabled(w, e) && IsReplay(e)
    ensures Next(w, e).db == Replayed(w.db, if e.ReplayLevel? then FromLevel(w.db, e.level) else Descendants(w.db, e.s))
  {
    hide Replayed, FromLevel, Descendants;
  }

  lemma ReplayKeepsJob(db: Db, steps: set<nat>, b: nat)
    requires Keyed(db) && b in db.batches && b in Replayed(db, steps).batches && HasBatchJob(db, b)
    ensures HasBatchJob(Replayed(db, steps), b)
  {
    var j :| j in db.jobs && db.jobs[j].batch == Some(b);
    assert BatchKnown(db, db.jobs[j]);
    assert Replayed(db, steps).jobs[j] == db.jobs[j];
  }

  /* ---- who is done, who is past the handler ---- */

  // A job is done because it was, or because a claim past its handler marks it so.
  lemma NewlyMarked(w: World, e: Event, j: nat)
    requires OneJob(w) && Enabled(w, e) && j in Next(w, e).db.jobs && Next(w, e).db.jobs[j].status == Done
    ensures j in w.db.jobs && w.db.jobs[j].batch == Next(w, e).db.jobs[j].batch
    ensures w.db.jobs[j].status == Done ||
      (e.Succeed? && At(w, e.w, HandlerOk) && w.flights[e.w].batch == w.db.jobs[j].batch)
  {
    hide OneJob, WorkerStep;
    OneJobIds(w);
    if IsWorker(e) {
      WorkerMarks(w, e, j);
    } else {
      hide HasDeadStepJob, Verdict, Ready, AtLevel, FromLevel, Descendants;
    }
  }

  lemma WorkerMarks(w: World, e: Event, j: nat)
    requires OneJob(w) && Enabled(w, e) && IsWorker(e)
    requires j in WorkerStep(w, e).db.jobs && WorkerStep(w, e).db.jobs[j].status == Done
    ensures j in w.db.jobs && w.db.jobs[j].batch == WorkerStep(w, e).db.jobs[j].batch
    ensures w.db.jobs[j].status == Done ||
      (e.Succeed? && At(w, e.w, HandlerOk) && w.flights[e.w].batch == w.db.jobs[j].batch)
  {
    StepWrites(w.db);
    hide Keyed, HasStepJob, Expanded, HasBatchBelow, Begun, Finalized, StepFailed, BatchDone;
    if e.Expand? {
      OneJobIds(w);
      ExpandedGrows(w.db, w.flights[e.w].step, e.n);
    } else if e.Succeed? {
      assert ClaimMatches(w.db, w.flights[e.w]);
    }
  }

  lemma NewlyPast(w: World, e: Event, k: nat)
    requires Enabled(w, e) && k in Next(w, e).flights && Past(Next(w, e).flights[k].phase)
    ensures k in w.flights && w.flights[k].batch == Next(w, e).flights[k].batch
    ensures Past(w.flights[k].phase) || w.flights[k].batch.None? ||
      (e == CopyBatch(k) && Next(w, e).db == BatchDone(w.db, w.flights[k].batch.value))
  {
    hide HasDeadJob, HasDeadStepJob, Finishable, Verdict, Ready, Expanded, HasBatchBelow, Operated, BatchDone;
  }

  lemma ClaimedBatch(w: World, k: nat)
    requires OneJob(w) && k in w.flights && w.flights[k].batch.Some?
    ensures w.flights[k].batch.value < w.db.next
  {
    assert ClaimMatches(w.db, w.flights[k]);
  }

  lemma JobsBatch(w: World, j: nat)
    requires OneJob(w) && j in w.db.jobs && w.db.jobs[j].batch.Some?
    ensures w.db.jobs[j].batch.value < w.db.next
  {
    assert BatchKnown(w.db, w.db.jobs[j]);
  }

  lemma BatchedKept(w: World, e: Event)
    requires OneJob(w) && Batched(w) && Enabled(w, e)
    ensures Batched(Next(w, e))
  {
    hide OneJob, Next, Enabled, HasBatchJob, IsCopied, BatchesStay;
    var v := Next(w, e);
    StayStep(w, e);
    forall b | b in v.db.batches ensures HasBatchJob(v.db, b) {
      if b in w.db.batches {
        JobsStep(w, e, b);
      } else {
        NewHasJob(w.db, v.db, b);
      }
    }
    forall j | j in v.db.jobs && v.db.jobs[j].status == Done ensures IsCopied(v.db, v.db.jobs[j].batch) {
      NewlyMarked(w, e, j);
      if v.db.jobs[j].batch.Some? {
        JobsBatch(w, j);
      }
      StaysCopied(w.db, v.db, v.db.jobs[j].batch);
    }
    forall k | k in v.flights && Past(v.flights[k].phase) ensures IsCopied(v.db, v.flights[k].batch) {
      PastCopied(w, e, k);
    }
  }

  lemma NewHasJob(a: Db, b: Db, x: nat)
    requires BatchesStay(a, b) && x in b.batches && x !in a.batches
    ensures HasBatchJob(b, x)
  {}

  lemma PastCopied(w: World, e: Event, k: nat)
    requires OneJob(w) && Batched(w) && Enabled(w, e) && BatchesStay(w.db, Next(w, e).db)
    requires k in Next(w, e).flights && Past(Next(w, e).flights[k].phase)
    ensures IsCopied(Next(w, e).db, Next(w, e).flights[k].batch)
  {
    hide OneJob, Next, Enabled, HasBatchJob, BatchesStay;
    NewlyPast(w, e, k);
    if w.flights[k].batch.Some? {
      ClaimedBatch(w, k);
      if Past(w.flights[k].phase) {
        StaysCopied(w.db, Next(w, e).db, w.flights[k].batch);
      }
    }
  }

  lemma {:induction false} BatchedAlong(w: World, es: seq<Event>)
    requires OneJob(w) && Batched(w) && Possible(w, es)
    ensures Batched(After(w, es))
    decreases |es|
  {
    if es != [] {
      BatchedKept(w, es[0]);
      OneJobKept(w, es[0]);
      hide Next, OneJob, Enabled, Batched;
      BatchedAlong(Next(w, es[0]), es[1..]);
    }
  }

  // In every reachable state, whatever the operator does, a batch has a job, and is copied when the job
  // is done or a claim on it is past its handler.
  lemma BatchedAlways(w: World, es: seq<Event>)
    requires Started(w) && Possible(w, es)
    ensures Batched(After(w, es))
  {
    BatchedAlong(w, es);
  }
}
