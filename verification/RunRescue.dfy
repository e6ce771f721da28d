/** When retry and play still help: a step can succeed without a replay exactly when it is not stuck. */
module RunRescue {
  import opened Wrappers
  import opened RunDb
  import opened RunEvents
  import opened RunQueue
  import opened RunOrder
  import opened RunHazards
  import opened RunBreaks
  import opened RunBatches
  import RunVerdict

  /* ---- steps that are stuck ---- */

  // A copy step with one of the n batches that its own job would insert.
  predicate Jammed(db: Db, s: nat, n: nat) {
    s in db.steps && db.steps[s].copies && HasBatchBelow(db, s, n)
  }

  // The handler can succeed: for a batch, or for a step whose expansion finds its numbers free.
  predicate CanWork(db: Db, s: nat, n: nat, batch: Option<nat>) {
    batch.Some? || !Jammed(db, s, n)
  }

  // The claim leads to no completion, nor gives a job back that could.
  predicate Idle(db: Db, f: Flight, n: nat) {
    || f.phase == JobFailed
    || (f.phase == HandlerErr && f.job !in db.jobs)
    || (!Past(f.phase) && !CanWork(db, f.step, n, f.batch))
  }

  // The step has its job, and nobody will complete it.
  ghost predicate Stuck(w: World, s: nat, n: nat) {
    && s in w.db.steps && w.db.steps[s].status != Succeeded && HasStepJob(w.db, s)
    && (forall j <- w.db.jobs :: w.db.jobs[j].step == s ==>
          w.db.jobs[j].status == Done || !CanWork(w.db, s, n, w.db.jobs[j].batch))
    && (forall k <- w.flights :: w.flights[k].step == s ==> Idle(w.db, w.flights[k], n))
  }

  // The table of s has n ranges when it is expanded.
  predicate Sized(w: World, e: Event, s: nat, n: nat) {
    e.Expand? && e.w in w.flights && w.flights[e.w].step == s ==> e.n == n
  }

  // Some run leads from w to v without a replay of s, and s has n ranges all along.
  ghost predicate Goes(w: World, es: seq<Event>, v: World, s: nat, n: nat)
    decreases |es|
  {
    if es == [] then w == v
    else Enabled(w, es[0]) && !Replays(w, es[0], s) && Sized(w, es[0], s, n) && Goes(Next(w, es[0]), es[1..], v, s, n)
  }

  ghost predicate Rescuable(w: World, s: nat, n: nat) {
    exists es, v :: Goes(w, es, v, s, n) && s in v.db.steps && v.db.steps[s].status == Succeeded
  }

  /* ---- a stuck step stays stuck ---- */

  lemma SameJammed(a: Db, b: Db, s: nat, n: nat)
    requires SameRows(a, b) && s in a.steps && s in b.steps && a.steps[s].copies == b.steps[s].copies
    ensures Jammed(a, s, n) <==> Jammed(b, s, n)
  {
    forall x | x in a.batches ensures SameRange(a.batches[x], b.batches[x]) {}
    if HasBatchBelow(a, s, n) {
      var x :| x in a.batches && a.batches[x].step == s && a.batches[x].number < n;
      assert b.batches[x].step == s && b.batches[x].number < n;
    }
    if HasBatchBelow(b, s, n) {
      var x :| x in b.batches && b.batches[x].step == s && b.batches[x].number < n;
      assert a.batches[x].step == s && a.batches[x].number < n;
    }
  }

  // An event without a replay of s, as far as s is concerned.
  ghost predicate Spares(a: Db, b: Db, s: nat, n: nat) {
    && s in b.steps && (HasStepJob(a, s) ==> HasStepJob(b, s)) && (Jammed(a, s, n) ==> Jammed(b, s, n))
    && (forall j <- b.jobs :: b.jobs[j].step == s ==> j in a.jobs && SameOwner(a.jobs[j], b.jobs[j]))
    && a.next <= b.next && (forall j <- b.jobs :: j < a.next ==> j in a.jobs)
  }

  lemma CopiesStay(w: World, e: Event)
    requires OneJob(w) && Enabled(w, e)
    ensures SameCopies(w.db, Next(w, e).db)
  {
    hide OneJob, HasDeadStepJob, Verdict, Ready, Operated, WorkerStep;
    if IsWorker(e) {
      WorkerCopies(w, e);
    } else {
      OperatedCopies(w.db, e);
    }
  }

  ghost predicate SameCopies(a: Db, b: Db) {
    a.steps.Keys == b.steps.Keys && forall s <- a.steps :: a.steps[s].copies == b.steps[s].copies
  }

  lemma WorkerCopies(w: World, e: Event)
    requires OneJob(w) && Enabled(w, e) && IsWorker(e)
    ensures SameCopies(w.db, WorkerStep(w, e).db)
  {
    hide OneJob, HasDeadJob, Finishable, Expanded, HasBatchBelow;
    if e.Expand? {
      OneJobIds(w);
      ExpandedGrows(w.db, w.flights[e.w].step, e.n);
    }
  }

  lemma OperatedCopies(db: Db, e: Event)
    ensures SameCopies(db, Operated(db, e))
  {
    hide AtLevel, FromLevel, Descendants;
  }

  lemma SparedRows(w: World, e: Event, s: nat, n: nat)
    requires OneJob(w) && Stuck(w, s, n) && Enabled(w, e) && !Replays(w, e, s) && Sized(w, e, s, n)
    ensures Spares(w.db, Next(w, e).db, s, n)
  {
    hide Keyed, HasBatchBelow, HasStepJob, Next, Enabled, Replays, Expanded, Replayed, Jammed, Idle, CanWork;
    CopiesStay(w, e);
    OneJobIds(w);
    if e.Expand? {
      ExpandSpares(w, e, s, n);
    } else if e.Dispatch? {
      DispatchSpares(w, e, s, n);
    } else if IsReplay(e) {
      ReplaySpares(w, e, s, n);
    } else {
      RowsStep(w, e);
      RowsHave(w.db, Next(w, e).db, s);
      SameJammed(w.db, Next(w, e).db, s, n);
      RowsSpare(w.db, Next(w, e).db);
    }
  }

  lemma RowsSpare(a: Db, b: Db)
    requires SameRows(a, b)
    ensures (forall j <- b.jobs :: j in a.jobs && SameOwner(a.jobs[j], b.jobs[j])) && a.next == b.next
  {}

  // The jammed step's own job inserts nothing; another step's inserts no row of s.
  lemma ExpandSpares(w: World, e: Event, s: nat, n: nat)
    requires OneJob(w) && Stuck(w, s, n) && Enabled(w, e) && e.Expand? && Sized(w, e, s, n)
    ensures Spares(w.db, Next(w, e).db, s, n)
  {
    var t := w.flights[e.w].step;
    hide Keyed, HasBatchBelow, Expanded, Stuck;
    ExpandEffect(w, e);
    if !HasBatchBelow(w.db, t, e.n) {
      OneJobIds(w);
      OneJobBatches(w);
      StuckJammed(w, e, s, n);
      ExpandedGrows(w.db, t, e.n);
      ExpandedOwners(w.db, t, e.n);
      ExpandedHas(w.db, t, e.n, s, n);
      GrowsSpare(w.db, Expanded(w.db, t, e.n), t, s);
    }
    StuckKnown(w, s, n);
  }

  lemma StuckKnown(w: World, s: nat, n: nat)
    requires Stuck(w, s, n)
    ensures s in w.db.steps && HasStepJob(w.db, s)
  {}

  lemma StuckJammed(w: World, e: Event, s: nat, n: nat)
    requires Stuck(w, s, n) && Enabled(w, e) && e.Expand? && Sized(w, e, s, n)
    requires !HasBatchBelow(w.db, w.flights[e.w].step, e.n)
    ensures w.flights[e.w].step != s
  {
    hide HasBatchBelow, HasStepJob;
  }

  lemma {:induction false} ExpandedHas(db: Db, t: nat, m: nat, s: nat, n: nat)
    requires (forall j <- db.jobs :: j < db.next) && forall x <- db.batches :: x < db.next
    ensures HasBatchBelow(db, s, n) ==> HasBatchBelow(Expanded(db, t, m), s, n)
  {
    if HasBatchBelow(db, s, n) {
      var x :| x in db.batches && db.batches[x].step == s && db.batches[x].number < n;
      ExpandedKeeps(db, t, m, x);
    }
  }

  lemma {:induction false} ExpandedKeeps(db: Db, t: nat, m: nat, x: nat)
    requires (forall j <- db.jobs :: j < db.next) && (forall b <- db.batches :: b < db.next) && x in db.batches
    ensures x in Expanded(db, t, m).batches && Expanded(db, t, m).batches[x] == db.batches[x]
  {
    if m > 0 {
      ExpandedKeeps(db, t, m - 1, x);
      ExpandedOwners(db, t, m - 1);
    }
  }

  lemma GrowsSpare(a: Db, b: Db, t: nat, s: nat)
    requires Grows(a, b, t) && t != s
    ensures HasStepJob(a, s) ==> HasStepJob(b, s)
    ensures forall j <- b.jobs :: b.jobs[j].step == s ==> j in a.jobs && SameOwner(a.jobs[j], b.jobs[j])
  {
    if HasStepJob(a, s) {
      var j :| j in a.jobs && a.jobs[j].step == s && a.jobs[j].batch.None?;
      assert b.jobs[j] == a.jobs[j];
    }
  }

  lemma DispatchSpares(w: World, e: Event, s: nat, n: nat)
    requires OneJob(w) && Stuck(w, s, n) && Enabled(w, e) && e.Dispatch?
    ensures Spares(w.db, Next(w, e).db, s, n)
  {
    hide CanWork, Idle;
    OneJobIds(w);
    var b := Next(w, e).db;
    assert e.s != s;
    var j :| j in w.db.jobs && w.db.jobs[j].step == s && w.db.jobs[j].batch.None?;
    assert b.jobs[j] == w.db.jobs[j];
  }

  lemma ReplaySpares(w: World, e: Event, s: nat, n: nat)
    requires OneJob(w) && Stuck(w, s, n) && Enabled(w, e) && IsReplay(e) && !Replays(w, e, s)
    ensures Spares(w.db, Next(w, e).db, s, n)
  {
    hide FromLevel, Descendants, CanWork, Idle, Replayed, Next;
    OneJobIds(w);
    ReplayEffect(w, e);
    ReplayedElse(w.db, if e.ReplayLevel? then FromLevel(w.db, e.level) else Descendants(w.db, e.s), s, n);
  }

  lemma ReplayedElse(db: Db, steps: set<nat>, s: nat, n: nat)
    requires s in db.steps && s !in steps && forall j <- db.jobs :: j < db.next
    ensures Spares(db, Replayed(db, steps), s, n) && Replayed(db, steps).steps[s] == db.steps[s]
    ensures forall j <- Replayed(db, steps).jobs :: j in db.jobs && Replayed(db, steps).jobs[j] == db.jobs[j]
  {
    var b := Replayed(db, steps);
    if HasStepJob(db, s) {
      var j :| j in db.jobs && db.jobs[j].step == s && db.jobs[j].batch.None?;
      assert b.jobs[j] == db.jobs[j];
    }
    if HasBatchBelow(db, s, n) {
      var x :| x in db.batches && db.batches[x].step == s && db.batches[x].number < n;
      assert b.batches[x] == db.batches[x];
    }
  }

  // A job of s stays done, or was and is beyond use.
  lemma StuckJobs(w: World, e: Event, s: nat, n: nat, j: nat)
    requires OneJob(w) && Stuck(w, s, n) && Enabled(w, e) && !Replays(w, e, s) && Spares(w.db, Next(w, e).db, s, n)
    requires j in Next(w, e).db.jobs && Next(w, e).db.jobs[j].step == s
    ensures Next(w, e).db.jobs[j].status == Done || !CanWork(Next(w, e).db, s, n, Next(w, e).db.jobs[j].batch)
  {
    hide Keyed, Jammed, HasStepJob, Next, Enabled, Replays;
    assert SameOwner(w.db.jobs[j], Next(w, e).db.jobs[j]);
    if CanWork(w.db, s, n, w.db.jobs[j].batch) {
      assert w.db.jobs[j].status == Done;
      if IsReplay(e) {
        ReplayedJob(w, e, s, j);
      } else if e.Fail? {
        FailSpares(w, e, s, n, j);
      } else if e.Succeed? {
        SucceedKeepsDone(w, e, j);
      } else {
        DoneStaysStep(w, e);
      }
    }
  }

  lemma ReplayedJob(w: World, e: Event, s: nat, j: nat)
    requires Enabled(w, e) && IsReplay(e) && j in w.db.jobs && j in Next(w, e).db.jobs
    ensures Next(w, e).db.jobs[j] == w.db.jobs[j]
  {
    hide FromLevel, Descendants;
  }

  lemma FailSpares(w: World, e: Event, s: nat, n: nat, j: nat)
    requires OneJob(w) && Stuck(w, s, n) && Enabled(w, e) && e.Fail? && j in w.db.jobs && w.db.jobs[j].step == s
    requires CanWork(w.db, s, n, w.db.jobs[j].batch) && w.db.jobs[j].status == Done
    ensures Next(w, e).db.jobs[j].status == Done
  {
    hide Keyed, Jammed, HasStepJob;
    assert ClaimMatches(w.db, w.flights[e.w]);
  }

  lemma SucceedKeepsDone(w: World, e: Event, j: nat)
    requires Enabled(w, e) && e.Succeed? && j in w.db.jobs && w.db.jobs[j].status == Done
    ensures Next(w, e).db.jobs[j].status == Done
  {}

  // A claim on s stays idle, and a new one is.
  lemma StuckClaims(w: World, e: Event, s: nat, n: nat, k: nat)
    requires OneJob(w) && Stuck(w, s, n) && Enabled(w, e) && Sized(w, e, s, n) && Spares(w.db, Next(w, e).db, s, n)
    requires k in Next(w, e).flights && Next(w, e).flights[k].step == s
    ensures Idle(Next(w, e).db, Next(w, e).flights[k], n)
  {
    hide Keyed, HasStepJob, Next, Enabled, Jammed;
    FlightFrom(w, e, k);
    var v := Next(w, e);
    if k in w.flights {
      var f, g := w.flights[k], v.flights[k];
      if f.phase != g.phase {
        IdleMoves(w, e, s, n, k);
      }
      if f.phase == HandlerErr && f.job !in w.db.jobs {
        assert ClaimMatches(w.db, f);
      }
    } else {
      NewClaim(w, e, k);
    }
  }

  lemma NewClaim(w: World, e: Event, k: nat)
    requires Enabled(w, e) && k in Next(w, e).flights && k !in w.flights
    ensures Next(w, e).flights[k].phase == Taken && Next(w, e).flights[k].job in w.db.jobs
    ensures w.db.jobs[Next(w, e).flights[k].job].status == Waiting
  {
    hide Expanded, HasDeadJob, HasDeadStepJob, Finishable, Verdict, Operated, HasBatchBelow;
  }

  // An idle claim moves only towards its failure.
  lemma IdleMoves(w: World, e: Event, s: nat, n: nat, k: nat)
    requires Stuck(w, s, n) && Enabled(w, e) && Sized(w, e, s, n)
    requires k in w.flights && w.flights[k].step == s && Idle(w.db, w.flights[k], n)
    requires k in Next(w, e).flights && Next(w, e).flights[k].phase != w.flights[k].phase
    ensures Next(w, e).flights[k].phase == JobFailed ||
      (!CanWork(w.db, s, n, w.flights[k].batch) && !Past(Next(w, e).flights[k].phase))
  {
    hide Expanded, HasDeadJob, HasDeadStepJob, Finishable, Verdict, Operated, HasBatchBelow, HasStepJob, Stuck;
    StuckKnown(w, s, n);
  }

  lemma StuckStays(w: World, e: Event, s: nat, n: nat)
    requires OneJob(w) && Stuck(w, s, n) && Enabled(w, e) && !Replays(w, e, s) && Sized(w, e, s, n)
    ensures Stuck(Next(w, e), s, n)
  {
    hide OneJob, Next, Enabled, Replays, Sized, Idle, CanWork;
    var v := Next(w, e);
    SparedRows(w, e, s, n);
    forall j | j in v.db.jobs && v.db.jobs[j].step == s
      ensures v.db.jobs[j].status == Done || !CanWork(v.db, s, n, v.db.jobs[j].batch)
    {
      StuckJobs(w, e, s, n, j);
    }
    forall k | k in v.flights && v.flights[k].step == s ensures Idle(v.db, v.flights[k], n) {
      StuckClaims(w, e, s, n, k);
    }
    StuckStatus(w, e, s, n);
  }

  lemma StuckStatus(w: World, e: Event, s: nat, n: nat)
    requires OneJob(w) && Stuck(w, s, n) && Enabled(w, e) && !Replays(w, e, s) && Spares(w.db, Next(w, e).db, s, n)
    ensures Next(w, e).db.steps[s].status != Succeeded
  {
    hide Keyed, HasStepJob, Jammed, Next;
    OneJobIds(w);
    StuckKnown(w, s, n);
    if IsReplay(e) {
      hide FromLevel, Descendants;
      ReplayEffect(w, e);
      ReplayedElse(w.db, if e.ReplayLevel? then FromLevel(w.db, e.level) else Descendants(w.db, e.s), s, n);
    } else if Next(w, e).db.steps[s].status == Succeeded {
      NewlyDone(w, e, s);
    }
  }

  // Whatever happens but a replay of the step, and however often its table is expanded into n ranges.
  lemma {:induction false} StuckForever(w: World, es: seq<Event>, v: World, s: nat, n: nat)
    requires OneJob(w) && Stuck(w, s, n) && Goes(w, es, v, s, n)
    ensures Stuck(v, s, n)
    decreases |es|
  {
    if es != [] {
      OneJobKept(w, es[0]);
      StuckStays(w, es[0], s, n);
      hide Next, OneJob, Stuck, Enabled, Replays, Sized;
      StuckForever(Next(w, es[0]), es[1..], v, s, n);
    }
  }

  /* ---- and what is not stuck can be brought to its end ---- */

  // Nothing but step s, its jobs, batches and claims has moved; rows of s may have come.
  ghost predicate Within(w: World, v: World, s: nat) {
    && WithinRows(w, v, s)
    && forall k <- w.flights :: w.flights[k].phase != JobDone ==> k in v.flights && v.flights[k] == w.flights[k]
  }

  ghost predicate WithinRows(w: World, v: World, s: nat) {
    v.ready == w.ready && WithinDb(w.db, v.db, s)
  }

  ghost predicate WithinDb(a: Db, b: Db, s: nat) {
    && SameCopies(a, b)
    && (forall t <- a.steps :: b.steps[t].deps == a.steps[t].deps)
    && (forall t <- a.steps :: t != s ==> b.steps[t] == a.steps[t])
    && (forall j <- a.jobs :: j in b.jobs && SameOwner(a.jobs[j], b.jobs[j]))
    && (forall j <- a.jobs :: a.jobs[j].step != s ==> b.jobs[j] == a.jobs[j])
    && (forall j <- b.jobs :: j !in a.jobs ==> b.jobs[j].step == s)
    && (forall x <- a.batches :: x in b.batches && SameRange(a.batches[x], b.batches[x]))
    && (forall x <- b.batches :: x !in a.batches ==> b.batches[x].step == s)
  }

  lemma WithinTwice(w: World, v: World, u: World, s: nat)
    requires WithinRows(w, v, s) && WithinRows(v, u, s)
    ensures WithinRows(w, u, s)
    ensures Within(w, v, s) && Within(v, u, s) ==> Within(w, u, s)
  {}

  lemma WithinNothing(w: World, s: nat)
    ensures Within(w, w, s)
  {}

  lemma StillJammed(w: World, v: World, s: nat, n: nat)
    requires WithinRows(w, v, s) && Jammed(w.db, s, n)
    ensures Jammed(v.db, s, n)
  {
    var b :| b in w.db.batches && w.db.batches[b].step == s && w.db.batches[b].number < n;
    assert SameRange(w.db.batches[b], v.db.batches[b]);
  }

  // An event of the worker i, on the step it has claimed.
  lemma EventWithin(w: World, e: Event, i: nat, s: nat)
    requires OneJob(w) && Enabled(w, e) && IsWorker(e) && e.w == i
    requires if e.Claim? then w.db.jobs[e.j].step == s else w.flights[i].step == s
    ensures WithinRows(w, Next(w, e), s) && OthersFly(w, Next(w, e), i, s)
  {
    hide OneJob, WithinRows;
    OthersKept(w, e, i, s);
    hide Next, Enabled, OthersFly;
    if e.Expand? {
      ExpandWithin(w, e, s);
    } else if e.Claim? || e.Succeed? || e.Fail? {
      JobWithin(w, e, s);
    } else {
      StepWithin(w, e, s);
    }
  }

  // The claims of other workers stay, and that of i is on s.
  ghost predicate OthersFly(w: World, v: World, i: nat, s: nat) {
    && (i in v.flights ==> v.flights[i].step == s)
    && forall k <- w.flights :: k != i ==> k in v.flights && v.flights[k] == w.flights[k]
  }

  lemma OthersKept(w: World, e: Event, i: nat, s: nat)
    requires Enabled(w, e) && IsWorker(e) && e.w == i
    requires if e.Claim? then w.db.jobs[e.j].step == s else w.flights[i].step == s
    ensures OthersFly(w, Next(w, e), i, s)
  {
    hide HasDeadJob, Finishable, Expanded, HasBatchBelow;
  }

  lemma JobWithin(w: World, e: Event, s: nat)
    requires OneJob(w) && Enabled(w, e) && (e.Claim? || e.Succeed? || e.Fail?)
    requires if e.Claim? then w.db.jobs[e.j].step == s else w.flights[e.w].step == s
    ensures WithinRows(w, Next(w, e), s)
  {
    hide Keyed, HasStepJob;
    if !e.Claim? {
      assert ClaimMatches(w.db, w.flights[e.w]);
    }
  }

  lemma StepWithin(w: World, e: Event, s: nat)
    requires OneJob(w) && Enabled(w, e) && IsWorker(e) && !e.Claim? && !e.Succeed? && !e.Fail? && !e.Expand?
    requires w.flights[e.w].step == s
    ensures WithinRows(w, Next(w, e), s)
  {
    hide OneJob, WithinDb;
    if e.CopyBatch? {
      BatchWithin(w.db, w.flights[e.w].batch.value, s);
    } else {
      StatusWithin(w.db, s);
      hide Begun, Finalized, StepFailed;
    }
  }

  lemma BatchWithin(db: Db, b: nat, s: nat)
    ensures WithinDb(db, BatchDone(db, b), s)
  {}

  lemma StatusWithin(db: Db, s: nat)
    ensures WithinDb(db, db, s) && WithinDb(db, Begun(db, s), s)
    ensures WithinDb(db, Finalized(db, s), s) && WithinDb(db, StepFailed(db, s), s)
  {
    hide Finishable, HasDeadJob, WithinDb, WithStatus;
    NothingWithin(db, s);
    OneStatusWithin(db, s, Running);
    OneStatusWithin(db, s, Succeeded);
    OneStatusWithin(db, s, Failed);
  }

  lemma NothingWithin(db: Db, s: nat)
    ensures WithinDb(db, db, s)
  {}

  lemma OneStatusWithin(db: Db, s: nat, status: StepStatus)
    ensures WithinDb(db, WithStatus(db, s, status), s)
  {}

  lemma ExpandWithin(w: World, e: Event, s: nat)
    requires OneJob(w) && Enabled(w, e) && e.Expand? && w.flights[e.w].step == s
    ensures WithinRows(w, Next(w, e), s)
  {
    hide Keyed, HasStepJob, Expanded, HasBatchBelow;
    OneJobIds(w);
    OneJobBatches(w);
    ExpandedGrows(w.db, s, e.n);
    ExpandedNew(w.db, s, e.n);
    forall b | b in w.db.batches
      ensures b in Expanded(w.db, s, e.n).batches && Expanded(w.db, s, e.n).batches[b] == w.db.batches[b]
    {
      ExpandedKeeps(w.db, s, e.n, b);
    }
  }

  lemma {:induction false} ExpandedNew(db: Db, s: nat, n: nat)
    ensures forall b <- Expanded(db, s, n).batches :: b in db.batches || Expanded(db, s, n).batches[b].step == s
  {
    if n > 0 {
      ExpandedNew(db, s, n - 1);
    }
  }

  // The invariants of every run.
  ghost predicate Sound(w: World) {
    OneJob(w) && QueueOk(w.db) && Batched(w)
  }

  lemma SoundKept(w: World, e: Event)
    requires Sound(w) && Enabled(w, e)
    ensures Sound(Next(w, e))
  {
    hide OneJob, QueueOk, Batched, Next, Enabled;
    OneJobKept(w, e);
    QueueKept(w, e);
    BatchedKept(w, e);
  }

  // In every reachable state.
  lemma SoundAlways(w: World, es: seq<Event>)
    requires Started(w) && Possible(w, es)
    ensures Sound(After(w, es))
  {
    hide After, Possible, OneJob, QueueOk, Batched;
    OneJobAlways(w, es);
    AttemptsBounded(w, es);
    BatchedAlways(w, es);
  }

  lemma {:induction false} GoesOn(w: World, es: seq<Event>, v: World, more: seq<Event>, u: World, s: nat, n: nat)
    requires Goes(w, es, v, s, n) && Goes(v, more, u, s, n)
    ensures Goes(w, es + more, u, s, n)
    decreases |es|
  {
    hide Next, Enabled, Replays, Sized;
    if es == [] {
      assert es + more == more;
    } else {
      GoesOn(Next(w, es[0]), es[1..], v, more, u, s, n);
      assert (es + more)[0] == es[0] && (es + more)[1..] == es[1..] + more;
    }
  }

  lemma GoesOnce(w: World, e: Event, s: nat, n: nat)
    requires Enabled(w, e) && !IsReplay(e) && Sized(w, e, s, n)
    ensures Goes(w, [e], Next(w, e), s, n)
  {
    hide Next, Enabled, Sized;
    assert [e][1..] == [];
    assert Goes(Next(w, e), [], Next(w, e), s, n);
  }

  // What a run of events has led to: a sound world, and only s moved, by the hands of worker i.
  ghost predicate Led(w: World, es: seq<Event>, v: World, i: nat, s: nat, n: nat) {
    Goes(w, es, v, s, n) && Sound(v) && WithinRows(w, v, s) && OthersFly(w, v, i, s)
  }

  // No replay, and no other chance that an operator gives.
  ghost predicate ByWorkers(es: seq<Event>) {
    forall e <- es :: IsWorker(e)
  }

  lemma LedOn(w: World, es: seq<Event>, v: World, i: nat, s: nat, n: nat, e: Event)
    requires Led(w, es, v, i, s, n) && Enabled(v, e) && IsWorker(e) && e.w == i && Sized(v, e, s, n)
    requires e.Claim? ==> v.db.jobs[e.j].step == s
    ensures Led(w, es + [e], Next(v, e), i, s, n)
  {
    hide OneJob, QueueOk, Batched, Next, Goes, WithinRows, Sized;
    InFlight(v, e);
    SoundKept(v, e);
    EventWithin(v, e, i, s);
    WithinTwice(w, v, Next(v, e), s);
    GoesOnce(v, e, s, n);
    GoesOn(w, es, v, [e], Next(v, e), s, n);
  }

  lemma InFlight(w: World, e: Event)
    requires Enabled(w, e) && IsWorker(e)
    ensures !e.Claim? ==> e.w in w.flights
    ensures e.Claim? ==> e.j in w.db.jobs
  {}

  lemma LedNowhere(w: World, i: nat, s: nat, n: nat)
    requires Sound(w) && (i in w.flights ==> w.flights[i].step == s)
    ensures Led(w, [], w, i, s, n)
  {
    WithinNothing(w, s);
  }

  /* ---- one attempt of a job ---- */

  lemma Starts(w: World, i: nat, j: nat, n: nat)
    requires Claimable(w.db, j) && i !in w.flights
    ensures Enabled(w, Claim(i, j)) && Enabled(Next(w, Claim(i, j)), Begin(i))
    ensures var b, job := Next(Next(w, Claim(i, j)), Begin(i)), w.db.jobs[j];
      && b.flights == w.flights[i := Flight(j, job.step, job.batch, Working)]
      && b.db.jobs == w.db.jobs[j := job.(status := Claimed, attempts := job.attempts + 1)]
      && b.db.batches == w.db.batches && (Jammed(b.db, job.step, n) <==> Jammed(w.db, job.step, n))
      && (IsCopyStep(b, job.step) <==> IsCopyStep(w, job.step))
  {
    var a := Next(w, Claim(i, j));
    var job := w.db.jobs[j];
    assert a.flights[i := Flight(j, job.step, job.batch, Working)] ==
      w.flights[i := Flight(j, job.step, job.batch, Working)];
  }

  function HandlerOf(w: World, i: nat, n: nat): Event
    requires At(w, i, Working)
  {
    if w.flights[i].batch.Some? then CopyBatch(i)
    else if IsCopyStep(w, w.flights[i].step) then Expand(i, n)
    else Finish(i)
  }

  // The jobs are there as before, and those that came wait, for a batch.
  ghost predicate JobsGrow(a: Db, b: Db) {
    && (forall j <- a.jobs :: j in b.jobs && b.jobs[j] == a.jobs[j])
    && (forall j <- b.jobs :: j !in a.jobs ==> b.jobs[j].batch.Some? && b.jobs[j].status == Waiting)
  }

  lemma Handles(w: World, i: nat, n: nat)
    requires OneJob(w) && At(w, i, Working) && CanWork(w.db, w.flights[i].step, n, w.flights[i].batch)
    ensures var e := HandlerOf(w, i, n);
      && Enabled(w, e) && Sized(w, e, w.flights[i].step, n) && IsWorker(e) && e.w == i && !e.Claim?
      && Next(w, e).flights == w.flights[i := w.flights[i].(phase := HandlerOk)] && JobsGrow(w.db, Next(w, e).db)
      && (w.flights[i].batch.Some? ==> Next(w, e).db.jobs == w.db.jobs)
  {
    hide Keyed, HasStepJob, Expanded, HasBatchBelow;
    if HandlerOf(w, i, n).Expand? {
      OneJobIds(w);
      ExpandedGrows(w.db, w.flights[i].step, n);
    }
  }

  lemma Marks(w: World, i: nat)
    requires At(w, i, HandlerOk)
    ensures Enabled(w, Succeed(i))
    ensures var v, f := Next(w, Succeed(i)), w.flights[i];
      && v.flights == w.flights[i := f.(phase := JobDone)]
      && v.db.jobs == if f.job in w.db.jobs then w.db.jobs[f.job := w.db.jobs[f.job].(status := Done)] else w.db.jobs
  {}

  // The job is done, the others are as they were, and jobs of batches may have come.
  ghost predicate Worked(a: Db, b: Db, j: nat) {
    && j in a.jobs && j in b.jobs && b.jobs[j].status == Done
    && (forall x <- a.jobs :: x != j ==> x in b.jobs && b.jobs[x] == a.jobs[x])
    && (forall x <- b.jobs :: x !in a.jobs ==> b.jobs[x].batch.Some? && b.jobs[x].status == Waiting)
    && (a.jobs[j].batch.Some? ==> b.jobs.Keys == a.jobs.Keys)
  }

  // A claim that works, brought to the completion.
  lemma WorkThrough(w: World, i: nat, n: nat) returns (es: seq<Event>, v: World)
    requires Sound(w) && At(w, i, Working) && CanWork(w.db, w.flights[i].step, n, w.flights[i].batch)
    ensures Led(w, es, v, i, w.flights[i].step, n) && ByWorkers(es) && At(v, i, JobDone)
    ensures w.flights[i].job in w.db.jobs ==> Worked(w.db, v.db, w.flights[i].job)
  {
    hide OneJob, QueueOk, Batched, Next, Enabled, Led, HandlerOf, CanWork, Sized;
    var s := w.flights[i].step;
    LedNowhere(w, i, s, n);
    SoundOneJob(w);
    Handles(w, i, n);
    MatchedBatch(w, i);
    var e := HandlerOf(w, i, n);
    var c := Next(w, e);
    LedOn(w, [], w, i, s, n, e);
    assert [] + [e] == [e];
    Marks(c, i);
    v := Next(c, Succeed(i));
    SizedSucceed(c, i, s, n);
    LedOn(w, [e], c, i, s, n, Succeed(i));
    es := [e] + [Succeed(i)];
  }

  lemma SoundOneJob(w: World)
    requires Sound(w)
    ensures OneJob(w)
  {}

  lemma MatchedBatch(w: World, i: nat)
    requires Sound(w) && i in w.flights
    ensures w.flights[i].job in w.db.jobs ==>
      w.db.jobs[w.flights[i].job].batch == w.flights[i].batch && w.db.jobs[w.flights[i].job].step == w.flights[i].step
  {
    assert ClaimMatches(w.db, w.flights[i]);
  }

  lemma SizedSucceed(w: World, i: nat, s: nat, n: nat)
    ensures Sized(w, Succeed(i), s, n) && Sized(w, Begin(i), s, n) && Sized(w, Err(i), s, n) && Sized(w, Fail(i), s, n)
    ensures Sized(w, Finalize(i), s, n) && forall j :: Sized(w, Claim(i, j), s, n)
  {}

  // A run of workers, within s, that no claim of another worker has a part in but those at their completion.
  ghost predicate Leads(w: World, es: seq<Event>, v: World, s: nat, n: nat) {
    Goes(w, es, v, s, n) && Sound(v) && Within(w, v, s) && ByWorkers(es)
  }

  lemma LeadsThen(w: World, a: seq<Event>, v: World, b: seq<Event>, u: World, s: nat, n: nat)
    requires Leads(w, a, v, s, n) && Leads(v, b, u, s, n)
    ensures Leads(w, a + b, u, s, n)
  {
    hide Sound, Goes, WithinRows;
    GoesOn(w, a, v, b, u, s, n);
    WithinTwice(w, v, u, s);
  }

  lemma LedLeads(w: World, es: seq<Event>, v: World, i: nat, s: nat, n: nat)
    requires Led(w, es, v, i, s, n) && ByWorkers(es) && (i !in w.flights || w.flights[i].phase == JobDone)
    ensures Leads(w, es, v, s, n)
  {
    hide Sound, Goes, WithinRows;
  }

  lemma LeadsNowhere(w: World, s: nat, n: nat)
    requires Sound(w)
    ensures Leads(w, [], w, s, n)
  {
    WithinNothing(w, s);
  }

  // No claim has moved.
  ghost predicate AllFly(w: World, v: World) {
    forall k <- w.flights :: k in v.flights && v.flights[k] == w.flights[k]
  }

  lemma LedFly(w: World, es: seq<Event>, v: World, i: nat, s: nat, n: nat)
    requires Led(w, es, v, i, s, n) && i !in w.flights
    ensures AllFly(w, v)
  {}

  // Worker i takes the job to its handler.
  lemma Start(w: World, i: nat, j: nat, n: nat) returns (es: seq<Event>, b: World)
    requires Sound(w) && Claimable(w.db, j) && i !in w.flights
    ensures Led(w, es, b, i, w.db.jobs[j].step, n) && ByWorkers(es)
    ensures var job := w.db.jobs[j];
      && b.flights == w.flights[i := Flight(j, job.step, job.batch, Working)]
      && b.db.jobs == w.db.jobs[j := job.(status := Claimed, attempts := job.attempts + 1)]
      && (Jammed(b.db, job.step, n) <==> Jammed(w.db, job.step, n))
  {
    hide Sound, Next, Enabled, Led, Jammed;
    var s := w.db.jobs[j].step;
    Starts(w, i, j, n);
    LedNowhere(w, i, s, n);
    SizedSucceed(w, i, s, n);
    SizedSucceed(Next(w, Claim(i, j)), i, s, n);
    LedOn(w, [], w, i, s, n, Claim(i, j));
    assert [] + [Claim(i, j)] == [Claim(i, j)];
    LedOn(w, [Claim(i, j)], Next(w, Claim(i, j)), i, s, n, Begin(i));
    es := [Claim(i, j)] + [Begin(i)];
    b := Next(Next(w, Claim(i, j)), Begin(i));
  }

  lemma LedThen(w: World, a: seq<Event>, v: World, b: seq<Event>, u: World, i: nat, s: nat, n: nat)
    requires Led(w, a, v, i, s, n) && Led(v, b, u, i, s, n)
    ensures Led(w, a + b, u, i, s, n)
  {
    hide Sound, Goes, WithinRows;
    GoesOn(w, a, v, b, u, s, n);
    WithinTwice(w, v, u, s);
  }

  // A job that can be claimed and handled, done; its claim waits for the completion.
  lemma Attempt(w: World, j: nat, s: nat, n: nat) returns (es: seq<Event>, v: World, i: nat)
    requires Sound(w) && Claimable(w.db, j) && w.db.jobs[j].step == s && CanWork(w.db, s, n, w.db.jobs[j].batch)
    ensures Leads(w, es, v, s, n) && At(v, i, JobDone) && v.flights[i].step == s && Worked(w.db, v.db, j)
  {
    hide Sound, Led, Leads, Jammed;
    i := FreshWorker(w.flights.Keys);
    var first, b := Start(w, i, j, n);
    LedSound(w, first, b, i, s, n);
    var rest;
    rest, v := WorkThrough(b, i, n);
    LedThen(w, first, b, rest, v, i, s, n);
    es := first + rest;
    LedStep(w, es, v, i, s, n);
    LedLeads(w, es, v, i, s, n);
  }

  lemma LedSound(w: World, es: seq<Event>, v: World, i: nat, s: nat, n: nat)
    requires Led(w, es, v, i, s, n)
    ensures Sound(v)
  {}

  lemma LedStep(w: World, es: seq<Event>, v: World, i: nat, s: nat, n: nat)
    requires Led(w, es, v, i, s, n)
    ensures i in v.flights ==> v.flights[i].step == s
  {}

  // One attempt fewer, or none left.
  lemma FailOnce(w: World, j: nat, s: nat, n: nat) returns (es: seq<Event>, v: World)
    requires Sound(w) && Claimable(w.db, j) && w.db.jobs[j].step == s
    ensures Leads(w, es, v, s, n)
    ensures v.db.jobs == w.db.jobs[j := Returned(w.db.jobs[j].(attempts := w.db.jobs[j].attempts + 1))]
    ensures AllFly(w, v)
  {
    hide Sound, Led, Leads, Jammed, Claimable, Next, Enabled;
    var i := FreshWorker(w.flights.Keys);
    var first, b := Start(w, i, j, n);
    Fails(b, i);
    var c := Next(b, Err(i));
    v := Next(c, Fail(i));
    SizedSucceed(b, i, s, n);
    SizedSucceed(c, i, s, n);
    LedOn(w, first, b, i, s, n, Err(i));
    LedOn(w, first + [Err(i)], c, i, s, n, Fail(i));
    es := first + [Err(i)] + [Fail(i)];
    LedFly(w, es, v, i, s, n);
    LedLeads(w, es, v, i, s, n);
  }

  lemma Fails(w: World, i: nat)
    requires At(w, i, Working)
    ensures var c := Next(w, Err(i));
      Enabled(w, Err(i)) && Enabled(c, Fail(i)) && c.db.jobs == w.db.jobs &&
      (w.flights[i].job in w.db.jobs ==>
        Next(c, Fail(i)).db.jobs == w.db.jobs[w.flights[i].job := Returned(w.db.jobs[w.flights[i].job])])
  {}

  // A job that fails until it is dead.
  lemma {:induction false} Exhaust(w: World, j: nat, s: nat, n: nat) returns (es: seq<Event>, v: World)
    requires Sound(w) && Claimable(w.db, j) && w.db.jobs[j].step == s
    ensures Leads(w, es, v, s, n) && v.db.jobs.Keys == w.db.jobs.Keys && v.db.jobs[j].status == Dead
    ensures SameOwner(w.db.jobs[j], v.db.jobs[j]) && forall x <- w.db.jobs :: x != j ==> v.db.jobs[x] == w.db.jobs[x]
    ensures AllFly(w, v)
    decreases w.db.jobs[j].max - w.db.jobs[j].attempts
  {
    hide Sound, Leads;
    es, v := FailOnce(w, j, s, n);
    if v.db.jobs[j].status != Dead {
      LeadsSound(w, es, v, s, n);
      var rest, u := Exhaust(v, j, s, n);
      LeadsThen(w, es, v, rest, u, s, n);
      es, v := es + rest, u;
    }
  }

  lemma LeadsSound(w: World, es: seq<Event>, v: World, s: nat, n: nat)
    requires Leads(w, es, v, s, n)
    ensures Sound(v) && Within(w, v, s)
  {}

  /* ---- every job of the step, then the completion ---- */

  // Each job of the step is done, can be claimed, or is dead and beyond use.
  ghost predicate Startable(w: World, s: nat, n: nat) {
    forall j <- w.db.jobs :: w.db.jobs[j].step == s ==>
      w.db.jobs[j].status == Done || Claimable(w.db, j) ||
      (w.db.jobs[j].status == Dead && !CanWork(w.db, s, n, w.db.jobs[j].batch))
  }

  // A job of the step that is not done, and can be.
  predicate ToDo(db: Db, j: nat, s: nat, n: nat) {
    j in db.jobs && db.jobs[j].step == s && db.jobs[j].status != Done && CanWork(db, s, n, db.jobs[j].batch)
  }

  lemma ToDoIs(db: Db, j: nat, s: nat, n: nat)
    requires ToDo(db, j, s, n)
    ensures j in db.jobs && db.jobs[j].step == s && db.jobs[j].status != Done && CanWork(db, s, n, db.jobs[j].batch)
  {}

  // A claim that can complete the step, or a job whose attempt will leave one.
  ghost predicate Hope(w: World, s: nat, n: nat) {
    || (exists k <- w.flights :: w.flights[k].step == s && w.flights[k].phase == JobDone)
    || exists j <- w.db.jobs :: ToDo(w.db, j, s, n)
  }

  // The step's own job is not done, and can be.
  ghost predicate OwnOpen(db: Db, s: nat, n: nat) {
    exists j <- db.jobs ::
      db.jobs[j].step == s && db.jobs[j].batch.None? && db.jobs[j].status != Done && !Jammed(db, s, n)
  }

  function Unfinished(db: Db, s: nat): set<nat> {
    set j | j in db.jobs && db.jobs[j].step == s && db.jobs[j].status != Done && db.jobs[j].status != Dead
  }

  // A batch of s that is not copied has a job that is not done.
  lemma AllClosed(w: World, s: nat, n: nat)
    requires Sound(w) && Startable(w, s, n) && Unfinished(w.db, s) == {}
    ensures Finishable(w.db, s)
  {
    forall j | j in w.db.jobs && w.db.jobs[j].step == s
      ensures w.db.jobs[j].status == Done || (w.db.jobs[j].status == Dead && w.db.jobs[j].batch.None?)
    {
      assert j !in Unfinished(w.db, s);
    }
    forall b | b in w.db.batches && w.db.batches[b].step == s ensures w.db.batches[b].status == Succeeded {
      BatchClosed(w, b, s);
    }
  }

  lemma BatchClosed(w: World, b: nat, s: nat)
    requires Sound(w) && b in w.db.batches && w.db.batches[b].step == s
    requires forall j <- w.db.jobs :: w.db.jobs[j].step == s ==>
      w.db.jobs[j].status == Done || (w.db.jobs[j].status == Dead && w.db.jobs[j].batch.None?)
    ensures w.db.batches[b].status == Succeeded
  {
    assert HasBatchJob(w.db, b);
    var j :| j in w.db.jobs && w.db.jobs[j].batch == Some(b);
    assert BatchKnown(w.db, w.db.jobs[j]) && IsCopied(w.db, w.db.jobs[j].batch);
  }

  lemma Complete(w: World, s: nat, n: nat) returns (es: seq<Event>, v: World)
    requires Sound(w) && s in w.db.steps && Startable(w, s, n) && Hope(w, s, n) && Unfinished(w.db, s) == {}
    ensures Leads(w, es, v, s, n) && s in v.db.steps && v.db.steps[s].status == Succeeded
  {
    hide Sound, Leads, Led, Finishable;
    AllClosed(w, s, n);
    forall j | j in w.db.jobs && w.db.jobs[j].step == s && w.db.jobs[j].status != Done
      ensures !CanWork(w.db, s, n, w.db.jobs[j].batch)
    {
      assert j !in Unfinished(w.db, s);
    }
    var k :| k in w.flights && w.flights[k].step == s && w.flights[k].phase == JobDone;
    LedNowhere(w, k, s, n);
    SizedSucceed(w, k, s, n);
    LedOn(w, [], w, k, s, n, Finalize(k));
    v := Next(w, Finalize(k));
    es := [] + [Finalize(k)];
    LedLeads(w, es, v, k, s, n);
  }

  lemma AfterAttempt(w: World, u: World, i: nat, j: nat, s: nat, n: nat)
    requires Sound(w) && Sound(u) && Within(w, u, s) && s in w.db.steps && Startable(w, s, n)
    requires j in Unfinished(w.db, s) && CanWork(w.db, s, n, w.db.jobs[j].batch) && Worked(w.db, u.db, j)
    requires At(u, i, JobDone) && u.flights[i].step == s
    ensures s in u.db.steps && Startable(u, s, n) && Hope(u, s, n)
    ensures OwnOpen(u.db, s, n) ==> OwnOpen(w.db, s, n)
    ensures (OwnOpen(w.db, s, n) && !OwnOpen(u.db, s, n)) || Unfinished(u.db, s) < Unfinished(w.db, s)
  {
    hide Batched, HasBatchBelow;
    if Jammed(w.db, s, n) {
      StillJammed(w, u, s, n);
    }
    OwnCloses(w, u, j, s, n);
    forall x | x in u.db.jobs && u.db.jobs[x].step == s
      ensures u.db.jobs[x].status == Done || Claimable(u.db, x) ||
        (u.db.jobs[x].status == Dead && !CanWork(u.db, s, n, u.db.jobs[x].batch))
    {
      if x in w.db.jobs && x != j {
        assert u.db.jobs[x] == w.db.jobs[x];
      } else if x != j {
        assert JobOk(u.db.jobs[x]);
      }
    }
    if w.db.jobs[j].batch.Some? {
      assert j in Unfinished(w.db, s) && j !in Unfinished(u.db, s);
    }
  }

  lemma OwnCloses(w: World, u: World, j: nat, s: nat, n: nat)
    requires OneJob(w) && WithinRows(w, u, s) && s in w.db.steps && (Jammed(w.db, s, n) ==> Jammed(u.db, s, n))
    requires j in w.db.jobs && w.db.jobs[j].step == s && w.db.jobs[j].status != Done && Worked(w.db, u.db, j)
    requires CanWork(w.db, s, n, w.db.jobs[j].batch)
    ensures OwnOpen(u.db, s, n) ==> OwnOpen(w.db, s, n)
    ensures w.db.jobs[j].batch.None? ==> OwnOpen(w.db, s, n) && !OwnOpen(u.db, s, n)
  {
    hide Jammed, HasStepJob;
    forall x | x in u.db.jobs && u.db.jobs[x].step == s && u.db.jobs[x].batch.None?
      ensures x in w.db.jobs && SameOwner(w.db.jobs[x], u.db.jobs[x]) && (x == j || u.db.jobs[x] == w.db.jobs[x])
      ensures w.db.jobs[j].batch.None? ==> x == j
    {
      assert x in w.db.jobs && SameOwner(w.db.jobs[x], u.db.jobs[x]);
    }
  }

  lemma AfterExhaust(w: World, u: World, j: nat, s: nat, n: nat)
    requires Sound(w) && Within(w, u, s) && s in w.db.steps && Startable(w, s, n) && Hope(w, s, n)
    requires j in Unfinished(w.db, s) && !CanWork(w.db, s, n, w.db.jobs[j].batch)
    requires u.db.jobs.Keys == w.db.jobs.Keys && u.db.jobs[j].status == Dead && SameOwner(w.db.jobs[j], u.db.jobs[j])
    requires forall x <- w.db.jobs :: x != j ==> u.db.jobs[x] == w.db.jobs[x]
    requires AllFly(w, u)
    ensures s in u.db.steps && Startable(u, s, n) && Hope(u, s, n)
    ensures !OwnOpen(u.db, s, n) && Unfinished(u.db, s) < Unfinished(w.db, s)
  {
    hide HasBatchBelow, Sound;
    StillJammed(w, u, s, n);
    assert j in Unfinished(w.db, s) && j !in Unfinished(u.db, s);
    if k :| k in w.flights && w.flights[k].step == s && w.flights[k].phase == JobDone {
      assert u.flights[k] == w.flights[k];
    } else {
      var x :| x in w.db.jobs && ToDo(w.db, x, s, n);
      ToDoIs(w.db, x, s, n);
      assert u.db.jobs[x] == w.db.jobs[x];
    }
  }

  lemma {:induction false} Process(w: World, s: nat, n: nat) returns (es: seq<Event>, v: World)
    requires Sound(w) && s in w.db.steps && Startable(w, s, n) && Hope(w, s, n)
    ensures Leads(w, es, v, s, n) && s in v.db.steps && v.db.steps[s].status == Succeeded
    decreases OwnOpen(w.db, s, n), Unfinished(w.db, s)
  {
    hide Sound, Leads, Within, Claimable, CanWork, Worked, Hope;
    if Unfinished(w.db, s) == {} {
      es, v := Complete(w, s, n);
    } else {
      var j :| j in Unfinished(w.db, s);
      assert Claimable(w.db, j);
      var u: World;
      if CanWork(w.db, s, n, w.db.jobs[j].batch) {
        var i;
        es, u, i := Attempt(w, j, s, n);
        LeadsSound(w, es, u, s, n);
        AfterAttempt(w, u, i, j, s, n);
      } else {
        es, u := Exhaust(w, j, s, n);
        LeadsSound(w, es, u, s, n);
        AfterExhaust(w, u, j, s, n);
      }
      var rest;
      rest, v := Process(u, s, n);
      LeadsThen(w, es, u, rest, v, s, n);
      es := es + rest;
    }
  }

  /* ---- the exact condition ---- */

  // Whoever is not idle gives hope.
  lemma ToHope(w: World, s: nat, n: nat) returns (es: seq<Event>, v: World)
    requires Sound(w) && s in w.db.steps && w.db.steps[s].status != Succeeded && HasStepJob(w.db, s) && !Stuck(w, s, n)
    ensures Goes(w, es, v, s, n) && Sound(v) && s in v.db.steps && Hope(v, s, n)
  {
    hide Sound, CanWork;
    if j :| ToDo(w.db, j, s, n) {
      es, v := [], w;
    } else {
      assert forall j <- w.db.jobs :: !ToDo(w.db, j, s, n);
      var k :| k in w.flights && w.flights[k].step == s && !Idle(w.db, w.flights[k], n);
      es, v := ClaimToHope(w, k, n);
    }
  }

  lemma ClaimToHope(w: World, k: nat, n: nat) returns (es: seq<Event>, v: World)
    requires Sound(w) && k in w.flights && w.flights[k].step in w.db.steps && !Idle(w.db, w.flights[k], n)
    ensures Goes(w, es, v, w.flights[k].step, n) && Sound(v) && w.flights[k].step in v.db.steps
    ensures Hope(v, w.flights[k].step, n)
  {
    hide Sound, CanWork, Led, Next, WithinRows;
    var f := w.flights[k];
    var s := f.step;
    LedNowhere(w, k, s, n);
    MatchedBatch(w, k);
    SizedSucceed(w, k, s, n);
    if f.phase == JobDone {
      es, v := [], w;
    } else if f.phase == HandlerOk {
      Marks(w, k);
      v := Next(w, Succeed(k));
      LedOn(w, [], w, k, s, n, Succeed(k));
      es := [] + [Succeed(k)];
      LedParts(w, es, v, k, s, n);
    } else if f.phase == HandlerErr {
      v := Next(w, Fail(k));
      LedOn(w, [], w, k, s, n, Fail(k));
      es := [] + [Fail(k)];
      LedParts(w, es, v, k, s, n);
      GivenBack(w, k, n);
    } else {
      es, v := TryToHope(w, k, n);
    }
  }

  lemma LedParts(w: World, es: seq<Event>, v: World, i: nat, s: nat, n: nat)
    requires Led(w, es, v, i, s, n)
    ensures Goes(w, es, v, s, n) && Sound(v) && w.db.steps.Keys == v.db.steps.Keys
    ensures i in v.flights ==> v.flights[i].step == s
  {}

  // The failure of an attempt leaves its job for another.
  lemma GivenBack(w: World, k: nat, n: nat)
    requires Sound(w) && At(w, k, HandlerErr) && w.flights[k].job in w.db.jobs && w.flights[k].step in w.db.steps
    requires CanWork(w.db, w.flights[k].step, n, w.flights[k].batch)
    ensures Hope(Next(w, Fail(k)), w.flights[k].step, n)
  {
    var f, v := w.flights[k], Next(w, Fail(k));
    MatchedBatch(w, k);
    hide Sound;
    assert v.db.jobs[f.job].step == f.step && v.db.jobs[f.job].status != Done;
    assert CanWork(v.db, f.step, n, v.db.jobs[f.job].batch);
  }

  lemma TryToHope(w: World, k: nat, n: nat) returns (es: seq<Event>, v: World)
    requires Sound(w) && k in w.flights && w.flights[k].step in w.db.steps
    requires w.flights[k].phase == Taken || w.flights[k].phase == Working
    requires CanWork(w.db, w.flights[k].step, n, w.flights[k].batch)
    ensures Goes(w, es, v, w.flights[k].step, n) && Sound(v) && w.flights[k].step in v.db.steps
    ensures Hope(v, w.flights[k].step, n)
  {
    hide Sound, CanWork, Led, WithinRows, Goes;
    var s := w.flights[k].step;
    var first, b := [], w;
    LedNowhere(w, k, s, n);
    if w.flights[k].phase == Taken {
      b := Next(w, Begin(k));
      SizedSucceed(w, k, s, n);
      LedOn(w, [], w, k, s, n, Begin(k));
      first := [] + [Begin(k)];
      BegunCanWork(w, k, n);
    }
    LedSound(w, first, b, k, s, n);
    var rest;
    rest, v := WorkThrough(b, k, n);
    LedThen(w, first, b, rest, v, k, s, n);
    es := first + rest;
    LedParts(w, es, v, k, s, n);
  }

  lemma BegunCanWork(w: World, k: nat, n: nat)
    requires At(w, k, Taken) && CanWork(w.db, w.flights[k].step, n, w.flights[k].batch)
    ensures var b := Next(w, Begin(k));
      At(b, k, Working) && b.flights[k] == w.flights[k].(phase := Working) &&
      CanWork(b.db, w.flights[k].step, n, w.flights[k].batch)
  {}

  lemma PlayedStartable(w: World, s: nat, n: nat)
    requires Sound(w) && s in w.db.steps && Hope(w, s, n)
    ensures var v := Next(w, PlayStep(s));
      s in v.db.steps && Startable(v, s, n) && Hope(v, s, n)
  {
    hide OneJob, Batched, Jammed, CanWork;
    var v := Next(w, PlayStep(s));
    PlayedJobs(w, s);
    hide Next, Enabled;
    PlayedWork(w.db, s, n);
    if k :| k in w.flights && w.flights[k].step == s && w.flights[k].phase == JobDone {
      assert v.flights[k] == w.flights[k];
    } else {
      var j :| j in w.db.jobs && ToDo(w.db, j, s, n);
      ToDoIs(w.db, j, s, n);
      assert v.db.jobs[j].step == s;
    }
  }

  lemma PlayedJobs(w: World, s: nat)
    requires QueueOk(w.db)
    ensures var v := Next(w, PlayStep(s));
      && v.flights == w.flights && v.db == Played(w.db, {s}) && v.db.jobs.Keys == w.db.jobs.Keys
      && (forall j <- w.db.jobs :: SameOwner(w.db.jobs[j], v.db.jobs[j]))
      && (forall j <- w.db.jobs :: v.db.jobs[j].status == Done <==> w.db.jobs[j].status == Done)
      && (forall j <- v.db.jobs :: v.db.jobs[j].step == s ==> v.db.jobs[j].status == Done || Claimable(v.db, j))
  {}

  lemma PlayedWork(db: Db, s: nat, n: nat)
    requires s in db.steps
    ensures s in Played(db, {s}).steps && forall batch :: CanWork(Played(db, {s}), s, n, batch) <==>
      CanWork(db, s, n, batch)
  {
    hide Jammed;
    PlayedSameRows(db, {s});
    PlayedCopies(db, s);
    SameJammed(db, Played(db, {s}), s, n);
  }

  lemma PlayedCopies(db: Db, s: nat)
    requires s in db.steps
    ensures s in Played(db, {s}).steps && Played(db, {s}).steps[s].copies == db.steps[s].copies
  {}

  lemma Rescue(w: World, s: nat, n: nat) returns (es: seq<Event>, v: World)
    requires Sound(w) && s in w.db.steps && w.db.steps[s].status != Succeeded && HasStepJob(w.db, s) && !Stuck(w, s, n)
    ensures Goes(w, es, v, s, n) && s in v.db.steps && v.db.steps[s].status == Succeeded
  {
    hide Sound, Goes, Stuck, Hope, Startable, Leads;
    var first, u := ToHope(w, s, n);
    var p := Next(u, PlayStep(s));
    PlayedStartable(u, s, n);
    SoundKept(u, PlayStep(s));
    GoesOnce(u, PlayStep(s), s, n);
    GoesOn(w, first, u, [PlayStep(s)], p, s, n);
    hide Next;
    var rest;
    rest, v := Process(p, s, n);
    LeadsGoes(p, rest, v, s, n);
    GoesOn(w, first + [PlayStep(s)], p, rest, v, s, n);
    es := first + [PlayStep(s)] + rest;
  }

  lemma LeadsGoes(w: World, es: seq<Event>, v: World, s: nat, n: nat)
    requires Leads(w, es, v, s, n)
    ensures Goes(w, es, v, s, n)
  {}

  // In every reachable state, of a step that has its job and has not succeeded: some run without a
  // replay of it ends with its success exactly when the step is not stuck.
  lemma SucceedsExactly(w: World, s: nat, n: nat)
    requires Sound(w) && s in w.db.steps && w.db.steps[s].status != Succeeded && HasStepJob(w.db, s)
    ensures Rescuable(w, s, n) <==> !Stuck(w, s, n)
  {
    hide Goes, Stuck;
    if !Stuck(w, s, n) {
      var es, v := Rescue(w, s, n);
    } else if Rescuable(w, s, n) {
      var es, v :| Goes(w, es, v, s, n) && s in v.db.steps && v.db.steps[s].status == Succeeded;
      StuckForever(w, es, v, s, n);
      StuckNot(v, s, n);
    }
  }

  lemma StuckNot(w: World, s: nat, n: nat)
    requires s in w.db.steps && w.db.steps[s].status == Succeeded
    ensures !Stuck(w, s, n)
  {}

  lemma {:induction false} GoesRuns(w: World, es: seq<Event>, v: World, s: nat, n: nat)
    requires Goes(w, es, v, s, n)
    ensures Possible(w, es) && After(w, es) == v && NeverReplays(w, es, s)
    decreases |es|
  {
    hide Next, Enabled, Replays, Sized;
    if es != [] {
      GoesRuns(Next(w, es[0]), es[1..], v, s, n);
    }
  }

  // With claims on their own jobs, and expansions into any number of ranges, none included, the stuck
  // steps are the stranded ones.
  lemma StuckIsStranded(w: World, s: nat)
    requires ClaimsOk(w)
    ensures Stuck(w, s, 0) <==> Stranded(w, s)
  {
    hide HasStepJob;
    if Stuck(w, s, 0) {
      forall j | j in w.db.jobs && w.db.jobs[j].step == s ensures w.db.jobs[j].status == Done {
        assert CanWork(w.db, s, 0, w.db.jobs[j].batch);
      }
      forall k | k in w.flights ensures w.flights[k].step != s {
        assert Holds(w.db, w.flights[k]) && CanWork(w.db, s, 0, w.flights[k].batch);
      }
    }
  }

  // In every safe state, of a step that has its job and has not succeeded: workers, retry and play can
  // still bring it to its success exactly when it is not stranded.
  lemma StrandedExactly(w: World, s: nat)
    requires Safe(w) && Sound(w) && s in w.db.steps && w.db.steps[s].status != Succeeded && HasStepJob(w.db, s)
    ensures (exists es: seq<Event> :: SucceedsAfter(w, es, s)) <==> !Stranded(w, s)
  {
    hide OneJob, QueueOk, Batched, JobsKnown, ClaimsOk, Settled, InOrder, RunVerdict.Leveled, Stuck, Stranded, Goes,
      Possible, After, NeverReplays;
    StuckIsStranded(w, s);
    if !Stranded(w, s) {
      var es, v := Rescue(w, s, 0);
      GoesRuns(w, es, v, s, 0);
      assert SucceedsAfter(w, es, s);
    } else if es: seq<Event> :| SucceedsAfter(w, es, s) {
      StrandedForever(w, es, s);
      StrandedNot(After(w, es), s);
    }
  }

  ghost predicate SucceedsAfter(w: World, es: seq<Event>, s: nat) {
    && Possible(w, es) && NeverReplays(w, es, s)
    && s in After(w, es).db.steps && After(w, es).db.steps[s].status == Succeeded
  }

  lemma StrandedNot(w: World, s: nat)
    requires s in w.db.steps && w.db.steps[s].status == Succeeded
    ensures !Stranded(w, s)
  {}
}
