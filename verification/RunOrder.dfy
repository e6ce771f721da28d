/** Dependencies first: a step with a job, or that runs or succeeded, has all its dependencies succeeded. */
module RunOrder {
  import opened Wrappers
  import opened RunDb
  import opened RunEvents
  import opened RunQueue
  import opened RunVerdict

  predicate HasJob(db: Db, s: nat) {
    exists j <- db.jobs :: db.jobs[j].step == s
  }

  predicate Touched(w: World, s: nat)
    requires s in w.db.steps
  {
    w.db.steps[s].status == Running || w.db.steps[s].status == Succeeded || s in w.ready || HasJob(w.db, s)
  }

  ghost predicate InOrder(w: World) {
    && w.ready <= w.db.steps.Keys
    && forall s <- w.db.steps :: Touched(w, s) ==> DepsDone(w.db, s)
  }

  // A claim is on a job of the table, which is done exactly when the claim marked it so.
  predicate Holds(db: Db, f: Flight) {
    && f.job in db.jobs && db.jobs[f.job].step == f.step && db.jobs[f.job].batch == f.batch
    && (f.phase == JobDone <==> db.jobs[f.job].status == Done)
  }

  ghost predicate ClaimsOk(w: World) {
    && (forall k <- w.flights :: Holds(w.db, w.flights[k]))
    && (forall a, b :: a in w.flights && b in w.flights && w.flights[a].job == w.flights[b].job ==> a == b)
  }

  predicate JobKnown(db: Db, job: Job) {
    job.status != Broken && job.step in db.steps && HasStepJob(db, job.step)
  }

  ghost predicate JobsKnown(db: Db) {
    forall j <- db.jobs :: JobKnown(db, db.jobs[j])
  }

  // The handler has succeeded: the claim can no longer fail.
  predicate Past(phase: Phase) {
    phase == HandlerOk || phase == JobDone
  }

  // Nothing that could still fail is left of a step that succeeded.
  ghost predicate Quiet(w: World, s: nat) {
    && s !in w.ready
    && (forall j <- w.db.jobs :: w.db.jobs[j].step == s ==> w.db.jobs[j].status == Done || w.db.jobs[j].status == Dead)
    && (forall k <- w.flights :: w.flights[k].step == s ==> Past(w.flights[k].phase))
  }

  ghost predicate Settled(w: World) {
    forall s <- w.db.steps :: w.db.steps[s].status == Succeeded ==> Quiet(w, s)
  }

  ghost predicate Safe(w: World) {
    OneJob(w) && JobsKnown(w.db) && ClaimsOk(w) && Settled(w) && InOrder(w) && Leveled(w.db)
  }

  /* ---- the discipline ---- */

  // No step is claimed, and none about to be dispatched waits for another of them.
  predicate NoClaimOn(w: World, steps: set<nat>) {
    && (forall k <- w.flights :: w.flights[k].step !in steps)
    && forall s <- w.ready :: s in steps && s in w.db.steps ==> !HasDepIn(w.db, s, steps)
  }

  // No step that succeeded has an unfinished job.
  predicate NoneDone(db: Db, steps: set<nat>) {
    forall j <- db.jobs :: db.jobs[j].step in steps && db.jobs[j].step in db.steps && db.jobs[j].status != Done ==>
      db.steps[db.jobs[j].step].status != Succeeded
  }

  // What the rows do not enforce: no two attempts of one job overlap; a step is not completed while
  // another claim on it can still fail; no dead job of a completed step is revived; nothing is
  // replayed while it is claimed, or between the query and the insert of a dispatch, together with
  // a dependency.
  predicate Calm(w: World, e: Event)
    requires Enabled(w, e)
  {
    match e
    case Claim(_, j) => forall k <- w.flights :: w.flights[k].job != j
    case Finalize(k) => Finishable(w.db, w.flights[k].step) ==>
      forall i <- w.flights :: w.flights[i].step == w.flights[k].step ==> Past(w.flights[i].phase)
    case RetryJobs => NoneDone(w.db, w.db.steps.Keys)
    case PlayLevel(level) => NoneDone(w.db, AtLevel(w.db, level))
    case PlayStep(s) => NoneDone(w.db, {s})
    case ReplayLevel(level) => NoClaimOn(w, FromLevel(w.db, level))
    case ReplayStep(s) => NoClaimOn(w, Descendants(w.db, s))
    case _ => true
  }

  /* ---- replays take whole sets of dependents ---- */

  lemma LevelsClosed(db: Db, level: int)
    requires Leveled(db)
    ensures ClosedUnderDependents(db, FromLevel(db, level))
  {
    forall s | s in db.steps && s !in FromLevel(db, level)
      ensures forall d <- db.steps[s].deps :: d !in FromLevel(db, level)
    {
      assert db.steps[s].level < level;
    }
  }

  lemma {:induction false} ClosureClosed(db: Db, found: set<nat>)
    requires found <= db.steps.Keys
    ensures found <= Closure(db, found) <= db.steps.Keys && ClosedUnderDependents(db, Closure(db, found))
    decreases db.steps.Keys - found
  {
    var more := Dependents(db, found) - found;
    if more == {} {
      forall s | s in db.steps && s !in found ensures forall d <- db.steps[s].deps :: d !in found {
        assert s !in Dependents(db, found);
      }
    } else {
      ClosureClosed(db, found + more);
    }
  }

  lemma {:induction false} ClosureReaches(db: Db, s: nat, found: set<nat>)
    requires found <= db.steps.Keys && forall t <- found :: WaitsFor(db, t, s)
    ensures forall t <- Closure(db, found) :: WaitsFor(db, t, s)
    decreases db.steps.Keys - found
  {
    hide WaitsFor;
    var more := Dependents(db, found) - found;
    if more != {} {
      forall t | t in more ensures WaitsFor(db, t, s) {
        var d :| d in db.steps[t].deps && d in found;
        WaitsLonger(db, t, d, s);
      }
      ClosureReaches(db, s, found + more);
    }
  }

  lemma {:induction false} WalkStays(db: Db, path: seq<nat>, steps: set<nat>)
    requires ClosedUnderDependents(db, steps) && Walk(db, path) && path[|path| - 1] in steps
    ensures path[0] in steps
  {
    if |path| > 1 {
      var rest := path[1..];
      assert forall k :: 0 <= k < |rest| ==> rest[k] == path[k + 1];
      WalkStays(db, rest, steps);
      assert path[1] in db.steps[path[0]].deps;
    }
  }

  // The recursive query finds exactly the steps that wait, at any remove, for s.
  lemma DescendantsExactly(db: Db, s: nat)
    requires s in db.steps
    ensures ClosedUnderDependents(db, Descendants(db, s))
    ensures forall t :: t in Descendants(db, s) <==> WaitsFor(db, t, s)
  {
    ClosureClosed(db, {s});
    WaitsForItself(db, s);
    ClosureReaches(db, s, {s});
    forall t | WaitsFor(db, t, s) ensures t in Descendants(db, s) {
      var path :| Walk(db, path) && path[0] == t && path[|path| - 1] == s;
      WalkStays(db, path, Descendants(db, s));
    }
  }

  /* ---- the order is kept ---- */

  // The same graph, and no step that succeeded is taken back.
  ghost predicate Keeps(a: Db, b: Db) {
    && a.steps.Keys == b.steps.Keys
    && (forall s <- a.steps :: a.steps[s].deps == b.steps[s].deps && a.steps[s].level == b.steps[s].level)
    && (forall s <- a.steps :: a.steps[s].status == Succeeded ==> b.steps[s].status == Succeeded)
  }

  predicate IsReplay(e: Event) {
    e.ReplayLevel? || e.ReplayStep?
  }

  // What an expansion adds: waiting jobs of batches of s.
  ghost predicate Grows(a: Db, b: Db, s: nat) {
    && b.steps == a.steps && b.run == a.run && a.jobs.Keys <= b.jobs.Keys
    && (forall j <- b.jobs :: j < b.next)
    && (forall j <- b.jobs :: if j in a.jobs then b.jobs[j] == a.jobs[j]
                              else b.jobs[j].step == s && b.jobs[j].batch.Some? && b.jobs[j].status == Waiting)
  }

  lemma {:induction false} ExpandedGrows(db: Db, s: nat, n: nat)
    requires forall j <- db.jobs :: j < db.next
    ensures Grows(db, Expanded(db, s, n), s)
  {
    if n > 0 {
      ExpandedGrows(db, s, n - 1);
    }
  }

  lemma DepsStayDone(a: Db, b: Db, s: nat)
    requires Keeps(a, b) && s in a.steps && DepsDone(a, s)
    ensures DepsDone(b, s)
  {}

  lemma FailStepKeeps(w: World, k: nat)
    requires Settled(w) && At(w, k, JobFailed)
    ensures Keeps(w.db, StepFailed(w.db, w.flights[k].step))
  {
    hide HasDeadJob;
    LiveNotDone(w, k);
  }

  lemma LiveNotDone(w: World, k: nat)
    requires Settled(w) && k in w.flights && !Past(w.flights[k].phase)
    ensures w.flights[k].step in w.db.steps ==> w.db.steps[w.flights[k].step].status != Succeeded
  {}

  lemma OperatedKeeps(db: Db, e: Event)
    requires !IsReplay(e)
    ensures Keeps(db, Operated(db, e))
  {
    hide AtLevel, Played;
    if e.PlayLevel? {
      PlayedKeeps(db, AtLevel(db, e.level));
    } else if e.PlayStep? {
      PlayedKeeps(db, {e.s});
    }
  }

  lemma PlayedKeeps(db: Db, steps: set<nat>)
    ensures Keeps(db, Played(db, steps))
  {}

  // Events other than a replay keep what has succeeded.
  lemma KeepsStep(w: World, e: Event)
    requires OneJob(w) && Settled(w) && Enabled(w, e) && !IsReplay(e)
    ensures Keeps(w.db, Next(w, e).db)
  {
    hide HasDeadStepJob, Verdict, Ready, OneJob, Operated, Settled, WorkerStep;
    if IsWorker(e) {
      WorkerKeeps(w, e);
    } else {
      OperatedKeeps(w.db, e);
    }
  }

  lemma WorkerKeeps(w: World, e: Event)
    requires OneJob(w) && Settled(w) && Enabled(w, e) && IsWorker(e)
    ensures Keeps(w.db, WorkerStep(w, e).db)
  {
    hide Finishable, Expanded, OneJob, HasBatchBelow, Settled, StepFailed;
    if e.Expand? {
      OneJobIds(w);
      ExpandedGrows(w.db, w.flights[e.w].step, e.n);
    } else if e.FailStep? {
      FailStepKeeps(w, e.w);
    }
  }

  lemma OneJobIds(w: World)
    requires OneJob(w)
    ensures forall j <- w.db.jobs :: j < w.db.next
  {}

  /* ---- the claims are kept ---- */

  // Rows of jobs kept, and the same jobs done.
  ghost predicate DoneStays(a: Db, b: Db) {
    forall j <- a.jobs :: j in b.jobs && SameOwner(a.jobs[j], b.jobs[j]) &&
      (a.jobs[j].status == Done <==> b.jobs[j].status == Done)
  }

  lemma ClaimsStay(w: World, db: Db)
    requires ClaimsOk(w) && DoneStays(w.db, db)
    ensures forall k <- w.flights :: Holds(db, w.flights[k])
  {
    forall k | k in w.flights ensures Holds(db, w.flights[k]) {
      assert Holds(w.db, w.flights[k]);
    }
  }

  lemma OperatedDoneStays(db: Db, e: Event)
    requires !IsReplay(e)
    ensures DoneStays(db, Operated(db, e))
  {
    hide AtLevel;
  }

  lemma DoneStaysStep(w: World, e: Event)
    requires OneJob(w) && Enabled(w, e) && !IsReplay(e) && !e.Fail? && !e.Succeed?
    ensures DoneStays(w.db, Next(w, e).db)
  {
    hide HasDeadStepJob, Verdict, Ready, OneJob, Operated, WorkerStep;
    OneJobIds(w);
    if IsWorker(e) {
      WorkerDoneStays(w, e);
    } else {
      OperatedDoneStays(w.db, e);
    }
  }

  lemma WorkerDoneStays(w: World, e: Event)
    requires (forall j <- w.db.jobs :: j < w.db.next) && Enabled(w, e) && IsWorker(e) && !e.Fail? && !e.Succeed?
    ensures DoneStays(w.db, WorkerStep(w, e).db)
  {
    hide HasDeadJob, Finishable, Expanded, HasBatchBelow;
    if e.Expand? {
      ExpandedGrows(w.db, w.flights[e.w].step, e.n);
    }
  }

  lemma ClaimsKept(w: World, e: Event)
    requires Safe(w) && Enabled(w, e) && Calm(w, e) && !IsReplay(e)
    ensures ClaimsOk(Next(w, e))
  {
    hide OneJob, JobsKnown, Settled, InOrder, Leveled, Operated, NoneDone,
      NoClaimOn, Ready, Verdict, HasDeadStepJob, WorkerStep, Finishable;
    if !IsWorker(e) {
      DoneStaysStep(w, e);
      ClaimsStay(w, Next(w, e).db);
    } else if e.Claim? || e.Fail? || e.Succeed? {
      ClaimedOrEnded(w, e);
    } else {
      DoneStaysStep(w, e);
      ClaimsStay(w, Next(w, e).db);
      MovesKeepClaims(w, e);
    }
  }

  lemma ClaimedOrEnded(w: World, e: Event)
    requires ClaimsOk(w) && Enabled(w, e) && Calm(w, e) && (e.Claim? || e.Fail? || e.Succeed?)
    ensures ClaimsOk(WorkerStep(w, e))
  {
    hide Finishable, NoneDone, NoClaimOn;
  }

  lemma MovesKeepClaims(w: World, e: Event)
    requires ClaimsOk(w) && Enabled(w, e) && IsWorker(e) && !e.Claim? && !e.Fail? && !e.Succeed?
    requires forall k <- w.flights :: Holds(WorkerStep(w, e).db, w.flights[k])
    ensures ClaimsOk(WorkerStep(w, e))
  {
    hide Expanded, Finishable, HasBatchBelow, HasDeadJob;
  }

  lemma ReplayedClaims(w: World, steps: set<nat>)
    requires ClaimsOk(w) && NoClaimOn(w, steps)
    ensures ClaimsOk(w.(db := Replayed(w.db, steps)))
  {
    forall k | k in w.flights ensures Holds(Replayed(w.db, steps), w.flights[k]) {
      assert Holds(w.db, w.flights[k]);
    }
  }

  /* ---- the jobs are kept ---- */

  lemma JobsKnownKept(w: World, e: Event)
    requires Safe(w) && Enabled(w, e) && !IsReplay(e)
    ensures JobsKnown(Next(w, e).db)
  {
    hide OneJob, ClaimsOk, Settled, InOrder, Leveled;
    KeepsStep(w, e);
    var a, b := w.db, Next(w, e).db;
    OneJobIds(w);
    if e.Expand? && !HasBatchBelow(w.db, w.flights[e.w].step, e.n) {
      ExpandedGrows(w.db, w.flights[e.w].step, e.n);
      GrowsKnown(w, e.w, b);
    } else if e.Dispatch? {
      hide Ready, Enabled;
      InOrderReady(w);
      EnqueuedKnown(a, e.s);
    } else {
      SimpleStatuses(w, e);
      StatusesKnown(a, b);
    }
  }

  lemma InOrderReady(w: World)
    requires InOrder(w)
    ensures w.ready <= w.db.steps.Keys
  {}

  lemma GrowsKnown(w: World, k: nat, b: Db)
    requires JobsKnown(w.db) && k in w.flights && ClaimsOk(w) && Grows(w.db, b, w.flights[k].step)
    ensures JobsKnown(b)
  {
    assert Holds(w.db, w.flights[k]);
    assert JobKnown(w.db, w.db.jobs[w.flights[k].job]);
    forall s | HasStepJob(w.db, s) ensures HasStepJob(b, s) {
      var j :| j in w.db.jobs && w.db.jobs[j].step == s && w.db.jobs[j].batch.None?;
      assert b.jobs[j] == w.db.jobs[j];
    }
    forall j | j in b.jobs ensures JobKnown(b, b.jobs[j]) {
      if j in w.db.jobs {
        assert JobKnown(w.db, w.db.jobs[j]);
      }
    }
  }

  lemma EnqueuedKnown(db: Db, s: nat)
    requires JobsKnown(db) && s in db.steps && forall j <- db.jobs :: j < db.next
    ensures JobsKnown(Enqueued(db, s, None))
  {
    var b := Enqueued(db, s, None);
    forall t | HasStepJob(db, t) ensures HasStepJob(b, t) {
      var j :| j in db.jobs && db.jobs[j].step == t && db.jobs[j].batch.None?;
      assert b.jobs[j] == db.jobs[j];
    }
    assert b.jobs[db.next].step == s && b.jobs[db.next].batch.None?;
    forall j | j in b.jobs ensures JobKnown(b, b.jobs[j]) {
      if j != db.next {
        assert JobKnown(db, db.jobs[j]);
      }
    }
  }

  // The same jobs, with other statuses but never Broken.
  ghost predicate Statuses(a: Db, b: Db) {
    && a.jobs.Keys == b.jobs.Keys && a.steps.Keys == b.steps.Keys
    && forall j <- a.jobs ::
      SameOwner(a.jobs[j], b.jobs[j]) && (b.jobs[j].status == Broken ==> a.jobs[j].status == Broken)
  }

  lemma StatusesKnown(a: Db, b: Db)
    requires JobsKnown(a) && Statuses(a, b)
    ensures JobsKnown(b)
  {
    forall s | HasStepJob(a, s) ensures HasStepJob(b, s) {
      var j :| j in a.jobs && a.jobs[j].step == s && a.jobs[j].batch.None?;
      assert SameOwner(a.jobs[j], b.jobs[j]);
    }
    forall j | j in b.jobs ensures JobKnown(b, b.jobs[j]) {
      assert JobKnown(a, a.jobs[j]) && SameOwner(a.jobs[j], b.jobs[j]);
    }
  }

  lemma OperatedStatuses(db: Db, e: Event)
    requires !IsReplay(e)
    ensures Statuses(db, Operated(db, e))
  {
    hide AtLevel;
  }

  lemma SimpleStatuses(w: World, e: Event)
    requires Enabled(w, e) && !IsReplay(e) && !e.Dispatch?
    requires e.Expand? ==> HasBatchBelow(w.db, w.flights[e.w].step, e.n)
    ensures Statuses(w.db, Next(w, e).db)
  {
    hide HasDeadStepJob, Verdict, Ready, Operated, WorkerStep;
    if IsWorker(e) {
      WorkerStatuses(w, e);
    } else {
      OperatedStatuses(w.db, e);
    }
  }

  lemma WorkerStatuses(w: World, e: Event)
    requires Enabled(w, e) && IsWorker(e) && (e.Expand? ==> HasBatchBelow(w.db, w.flights[e.w].step, e.n))
    ensures Statuses(w.db, WorkerStep(w, e).db)
  {
    hide HasDeadJob, Finishable, Expanded, HasBatchBelow;
  }

  lemma ReplayedKnown(db: Db, steps: set<nat>)
    requires JobsKnown(db)
    ensures JobsKnown(Replayed(db, steps))
  {
    var b := Replayed(db, steps);
    forall j | j in b.jobs ensures JobKnown(b, b.jobs[j]) {
      assert JobKnown(db, db.jobs[j]);
      var i :| i in db.jobs && db.jobs[i].step == db.jobs[j].step && db.jobs[i].batch.None?;
      assert b.jobs[i] == db.jobs[i];
    }
  }

  /* ---- a step that succeeded stays quiet ---- */

  lemma OperatedQuiet(w: World, e: Event, s: nat)
    requires Enabled(w, e) && Calm(w, e) && !IsReplay(e) && s in w.db.steps && w.db.steps[s].status == Succeeded
    requires Quiet(w, s)
    ensures Quiet(w.(db := Operated(w.db, e)), s)
  {
    hide NoClaimOn, Enabled, Played, NoneDone;
    if e.RetryJobs? {
      NoneDoneAt(w.db, w.db.steps.Keys, s);
    } else if e.PlayLevel? {
      PlayedQuiet(w, AtLevel(w.db, e.level), s);
    } else if e.PlayStep? {
      PlayedQuiet(w, {e.s}, s);
    }
  }

  lemma PlayedQuiet(w: World, steps: set<nat>, s: nat)
    requires NoneDone(w.db, steps) && s in w.db.steps && w.db.steps[s].status == Succeeded && Quiet(w, s)
    ensures Quiet(w.(db := Played(w.db, steps)), s)
  {
    NoneDoneAt(w.db, steps, s);
    hide NoneDone;
  }

  lemma NoneDoneAt(db: Db, steps: set<nat>, s: nat)
    ensures NoneDone(db, steps) && s in steps && s in db.steps && db.steps[s].status == Succeeded ==>
      forall j <- db.jobs :: db.jobs[j].step == s ==> db.jobs[j].status == Done
  {}

  lemma QuietStays(w: World, e: Event, s: nat)
    requires Enabled(w, e) && Calm(w, e) && !IsReplay(e) && OneJob(w) && ClaimsOk(w)
    requires s in w.db.steps && w.db.steps[s].status == Succeeded && Quiet(w, s)
    ensures Quiet(Next(w, e), s)
  {
    hide HasDeadStepJob, Verdict, Operated, OneJob, NoneDone, NoClaimOn,
      AtLevel, FromLevel, Descendants, WorkerStep, Finishable;
    if IsWorker(e) {
      WorkerQuiet(w, e, s);
    } else {
      OperatedQuiet(w, e, s);
    }
  }

  lemma WorkerQuiet(w: World, e: Event, s: nat)
    requires Enabled(w, e) && IsWorker(e) && OneJob(w) && ClaimsOk(w)
    requires s in w.db.steps && w.db.steps[s].status == Succeeded && Quiet(w, s)
    ensures Quiet(WorkerStep(w, e), s)
  {
    hide HasDeadJob, Finishable, Expanded, HasBatchBelow, OneJob;
    if e.Expand? {
      OneJobIds(w);
      ExpandedGrows(w.db, w.flights[e.w].step, e.n);
    } else if e.Fail? {
      assert Holds(w.db, w.flights[e.w]);
    }
  }

  // When a step can be completed, its jobs are done or dead.
  lemma FinishableJobs(w: World, k: nat)
    requires OneJob(w) && JobsKnown(w.db) && ClaimsOk(w) && At(w, k, JobDone) && Finishable(w.db, w.flights[k].step)
    ensures forall j <- w.db.jobs :: w.db.jobs[j].step == w.flights[k].step ==>
      w.db.jobs[j].status == Done || w.db.jobs[j].status == Dead
    ensures forall j <- w.db.jobs :: w.db.jobs[j].step == w.flights[k].step && !HasBatches(w.db, w.flights[k].step) ==>
      j == w.flights[k].job
  {
    var db, f := w.db, w.flights[k];
    assert Holds(db, f);
    forall j | j in db.jobs && db.jobs[j].step == f.step
      ensures db.jobs[j].status == Done || db.jobs[j].status == Dead
      ensures !HasBatches(db, f.step) ==> j == f.job
    {
      assert JobKnown(db, db.jobs[j]) && BatchKnown(db, db.jobs[j]) && BatchKnown(db, db.jobs[f.job]);
      if !HasBatches(db, f.step) {
        assert SameOwner(db.jobs[j], db.jobs[f.job]);
      }
    }
  }

  lemma FinalizedQuiet(w: World, k: nat)
    requires OneJob(w) && JobsKnown(w.db) && ClaimsOk(w)
    requires At(w, k, JobDone) && Calm(w, Finalize(k)) && Finishable(w.db, w.flights[k].step)
    ensures Quiet(Next(w, Finalize(k)), w.flights[k].step)
  {
    FinishableJobs(w, k);
    hide JobsKnown, Finishable;
    assert Holds(w.db, w.flights[k]);
    StepJobHeld(w, k);
  }

  lemma StepJobHeld(w: World, k: nat)
    requires JobsKnown(w.db) && OneJob(w) && ClaimsOk(w) && k in w.flights
    ensures w.flights[k].step in w.db.steps && HasStepJob(w.db, w.flights[k].step) && w.flights[k].step !in w.ready
  {
    assert Holds(w.db, w.flights[k]) && JobKnown(w.db, w.db.jobs[w.flights[k].job]);
  }

  lemma SettledKept(w: World, e: Event)
    requires Safe(w) && Enabled(w, e) && Calm(w, e) && !IsReplay(e)
    ensures Settled(Next(w, e))
  {
    hide OneJob, JobsKnown, ClaimsOk, Leveled, InOrder, Quiet, Calm;
    forall s | s in Next(w, e).db.steps && Next(w, e).db.steps[s].status == Succeeded ensures Quiet(Next(w, e), s) {
      NewlyDone(w, e, s);
      if s in w.db.steps && w.db.steps[s].status == Succeeded {
        QuietStays(w, e, s);
      } else {
        FinalizedQuiet(w, e.w);
      }
    }
  }

  // A step succeeds only by a completion.
  lemma NewlyDone(w: World, e: Event, s: nat)
    requires Enabled(w, e) && !IsReplay(e) && OneJob(w)
    requires s in Next(w, e).db.steps && Next(w, e).db.steps[s].status == Succeeded
    ensures s in w.db.steps
    ensures w.db.steps[s].status == Succeeded || (e.Finalize? && w.flights[e.w].step == s && Finishable(w.db, s))
  {
    hide HasDeadJob, HasDeadStepJob, Finishable, Verdict, Ready, Expanded, OneJob, HasBatchBelow, Operated;
    if e.Expand? {
      OneJobIds(w);
      ExpandedGrows(w.db, w.flights[e.w].step, e.n);
    } else {
      OperatedNewly(w.db, e, s);
    }
  }

  lemma OperatedNewly(db: Db, e: Event, s: nat)
    requires !IsReplay(e)
    ensures s in Operated(db, e).steps ==> s in db.steps
    ensures s in db.steps ==> s in Operated(db, e).steps
    ensures
      s in db.steps && (Operated(db, e).steps[s].status == Succeeded || Operated(db, e).steps[s].status == Running) ==>
      Operated(db, e).steps[s].status == db.steps[s].status
  {
    hide AtLevel;
  }

  /* ---- the order is kept ---- */

  lemma HasJobBefore(w: World, e: Event, s: nat)
    requires Safe(w) && Enabled(w, e) && !IsReplay(e) && HasJob(Next(w, e).db, s)
    ensures HasJob(w.db, s) || (e.Dispatch? && e.s == s)
  {
    hide JobsKnown, Settled, InOrder, Leveled, OneJob;
    OneJobIds(w);
    var b := Next(w, e).db;
    var j :| j in b.jobs && b.jobs[j].step == s;
    if e.Expand? && !HasBatchBelow(w.db, w.flights[e.w].step, e.n) {
      ExpandedGrows(w.db, w.flights[e.w].step, e.n);
      assert Holds(w.db, w.flights[e.w]);
      assert HasJob(w.db, w.flights[e.w].step);
    } else if !e.Dispatch? {
      hide HasBatchBelow;
      SimpleStatuses(w, e);
      hide Enabled, Next;
      assert SameOwner(w.db.jobs[j], b.jobs[j]);
    }
  }

  lemma TouchedBefore(w: World, e: Event, s: nat)
    requires Safe(w) && Enabled(w, e) && !IsReplay(e) && s in w.db.steps && s in Next(w, e).db.steps
    requires Touched(Next(w, e), s)
    ensures Touched(w, s) || (e.Query? && IsReady(w.db, s))
  {
    hide JobsKnown, Settled, InOrder, Leveled, OneJob, Verdict, HasDeadJob,
      HasDeadStepJob, Expanded, HasBatchBelow, Operated, HasJob;
    if HasJob(Next(w, e).db, s) {
      HasJobBefore(w, e, s);
    } else if e.Begin? || e.Finalize? {
      FlightHasJob(w, e.w);
    } else {
      OperatedNewly(w.db, e, s);
    }
    if e.Expand? {
      OneJobIds(w);
      ExpandedGrows(w.db, w.flights[e.w].step, e.n);
    }
  }

  lemma FlightHasJob(w: World, k: nat)
    requires ClaimsOk(w) && k in w.flights
    ensures HasJob(w.db, w.flights[k].step)
  {
    assert Holds(w.db, w.flights[k]);
  }

  lemma InOrderKept(w: World, e: Event)
    requires Safe(w) && Enabled(w, e) && !IsReplay(e)
    ensures InOrder(Next(w, e))
  {
    hide JobsKnown, ClaimsOk, Settled, Leveled, OneJob, Touched, DepsDone;
    KeepsStep(w, e);
    forall s | s in w.db.steps && Touched(Next(w, e), s) ensures DepsDone(Next(w, e).db, s) {
      TouchedBefore(w, e, s);
      assert DepsDone(w.db, s) by {
        ReadyDone(w, s);
      }
      DepsStayDone(w.db, Next(w, e).db, s);
    }
    ReadyKnown(w, e);
  }

  lemma ReadyDone(w: World, s: nat)
    ensures IsReady(w.db, s) ==> s in w.db.steps && DepsDone(w.db, s)
  {}

  lemma ReadyKnown(w: World, e: Event)
    requires Enabled(w, e) && w.ready <= w.db.steps.Keys && Keeps(w.db, Next(w, e).db)
    ensures Next(w, e).ready <= Next(w, e).db.steps.Keys
  {
    hide IsReady, Operated, Verdict, HasDeadStepJob;
  }

  lemma LeveledStays(a: Db, b: Db)
    requires Leveled(a) && Keeps(a, b)
    ensures Leveled(b)
  {}

  /* ---- replays ---- */

  lemma ReplayedSettled(w: World, steps: set<nat>)
    requires Settled(w)
    ensures Settled(w.(db := Replayed(w.db, steps)))
  {
    var v := w.(db := Replayed(w.db, steps));
    forall s | s in v.db.steps && v.db.steps[s].status == Succeeded ensures Quiet(v, s) {
      assert Quiet(w, s);
    }
  }

  lemma ReplayedInOrder(w: World, steps: set<nat>)
    requires InOrder(w) && ClosedUnderDependents(w.db, steps) && NoClaimOn(w, steps)
    ensures InOrder(w.(db := Replayed(w.db, steps)))
  {
    var v := w.(db := Replayed(w.db, steps));
    forall s | s in v.db.steps && Touched(v, s) ensures DepsDone(v.db, s) {
      assert HasJob(v.db, s) ==> HasJob(w.db, s);
      assert Touched(w, s) && DepsDone(w.db, s);
      assert s in steps ==> s in w.ready;
      forall d | d in v.db.steps[s].deps ensures d in v.db.steps && v.db.steps[d].status == Succeeded {
        assert d in w.db.steps[s].deps && d !in steps;
      }
    }
  }

  lemma ReplayedLeveled(db: Db, steps: set<nat>)
    requires Leveled(db)
    ensures Leveled(Replayed(db, steps))
  {}

  lemma ReplayedSafe(w: World, steps: set<nat>)
    requires Safe(w) && ClosedUnderDependents(w.db, steps) && NoClaimOn(w, steps)
    ensures Safe(w.(db := Replayed(w.db, steps)))
  {
    hide Keyed, JobsKnown, ClaimsOk, Settled, InOrder, Leveled, Replayed, HasStepJob;
    ReplayedKeyed(w.db, steps);
    ReplayedOwners(w.db, steps);
    ReplayedKnown(w.db, steps);
    ReplayedClaims(w, steps);
    ReplayedSettled(w, steps);
    ReplayedInOrder(w, steps);
    ReplayedLeveled(w.db, steps);
  }

  /* ---- every event ---- */

  lemma SafeKept(w: World, e: Event)
    requires Safe(w) && Enabled(w, e) && Calm(w, e)
    ensures Safe(Next(w, e))
  {
    hide OneJob, JobsKnown, ClaimsOk, Settled, InOrder, Leveled, Replayed,
      FromLevel, Descendants, ClosedUnderDependents, NoClaimOn;
    if e.ReplayLevel? {
      LevelsClosed(w.db, e.level);
      ReplayedSafe(w, FromLevel(w.db, e.level));
    } else if e.ReplayStep? {
      DescendantsClosed(w.db, e.s);
      ReplayedSafe(w, Descendants(w.db, e.s));
    } else {
      OtherSafe(w, e);
    }
  }

  lemma OtherSafe(w: World, e: Event)
    requires Safe(w) && Enabled(w, e) && Calm(w, e) && !IsReplay(e)
    ensures Safe(Next(w, e))
  {
    hide OneJob, JobsKnown, ClaimsOk, Settled, InOrder, Leveled, Next, Enabled, Calm, Keeps;
    OneJobKept(w, e);
    JobsKnownKept(w, e);
    ClaimsKept(w, e);
    SettledKept(w, e);
    InOrderKept(w, e);
    KeepsStep(w, e);
    LeveledStays(w.db, Next(w, e).db);
  }

  lemma DescendantsClosed(db: Db, s: nat)
    ensures ClosedUnderDependents(db, Descendants(db, s))
  {
    NothingClosed(db);
    if s in db.steps {
      DescendantsExactly(db, s);
    }
  }

  lemma NothingClosed(db: Db)
    ensures ClosedUnderDependents(db, {})
  {}

  /* ---- nothing less will do ---- */

  lemma OverlapUnsafe(w: World, k: nat, j: nat, other: nat)
    requires Enabled(w, Claim(k, j)) && other in w.flights && w.flights[other].job == j
    ensures !ClaimsOk(Next(w, Claim(k, j)))
  {
    var v := Next(w, Claim(k, j));
    assert v.flights[k].job == v.flights[other].job && k != other;
  }

  lemma EarlyFinalizeUnsafe(w: World, k: nat, other: nat)
    requires JobsKnown(w.db) && ClaimsOk(w) && At(w, k, JobDone) && Finishable(w.db, w.flights[k].step)
    requires other in w.flights && w.flights[other].step == w.flights[k].step && !Past(w.flights[other].phase)
    ensures !Settled(Next(w, Finalize(k)))
  {
    var v, s := Next(w, Finalize(k)), w.flights[k].step;
    assert Holds(w.db, w.flights[k]) && JobKnown(w.db, w.db.jobs[w.flights[k].job]);
    assert v.flights[other] == w.flights[other] && !Quiet(v, s);
  }

  // A dead job of a step that succeeded, revived.
  lemma RevivalUnsafe(w: World, e: Event, steps: set<nat>)
    requires JobsKnown(w.db) && Settled(w) && Enabled(w, e) && !NoneDone(w.db, steps)
    requires (e.RetryJobs? && steps == w.db.steps.Keys) ||
             (e.PlayLevel? && steps == AtLevel(w.db, e.level)) || (e.PlayStep? && steps == {e.s})
    ensures !Settled(Next(w, e))
  {
    hide AtLevel, Operated;
    var v := Next(w, e);
    var j :| j in w.db.jobs && w.db.jobs[j].step in steps && w.db.jobs[j].step in w.db.steps &&
      w.db.jobs[j].status != Done &&
      w.db.steps[w.db.jobs[j].step].status == Succeeded;
    assert JobKnown(w.db, w.db.jobs[j]) && Quiet(w, w.db.jobs[j].step);
    var s := w.db.jobs[j].step;
    RevivedRows(w.db, e, steps, j);
    hide Quiet;
    WaitingUnquiet(v, j);
  }

  lemma WaitingUnquiet(w: World, j: nat)
    requires j in w.db.jobs && w.db.jobs[j].status == Waiting
    ensures !Quiet(w, w.db.jobs[j].step)
  {}

  lemma RevivedRows(db: Db, e: Event, steps: set<nat>, j: nat)
    requires j in db.jobs && db.jobs[j].step in steps && db.jobs[j].step in db.steps
    requires db.jobs[j].status != Done && db.jobs[j].status != Broken && db.steps[db.jobs[j].step].status == Succeeded
    requires (e.RetryJobs? && db.jobs[j].status == Dead) ||
             (e.PlayLevel? && steps == AtLevel(db, e.level)) || (e.PlayStep? && steps == {e.s})
    ensures var b := Operated(db, e);
      j in b.jobs && b.jobs[j].step == db.jobs[j].step && b.jobs[j].status == Waiting &&
      db.jobs[j].step in b.steps && b.steps[db.jobs[j].step].status == Succeeded
  {
    hide AtLevel, Played;
    if !e.RetryJobs? {
      PlayedRows(db, steps, j);
    }
  }

  lemma PlayedRows(db: Db, steps: set<nat>, j: nat)
    requires j in db.jobs && db.jobs[j].step in steps && db.jobs[j].step in db.steps
    requires db.jobs[j].status != Done && db.steps[db.jobs[j].step].status == Succeeded
    ensures var b := Played(db, steps);
      j in b.jobs && b.jobs[j].step == db.jobs[j].step && b.jobs[j].status == Waiting &&
      db.jobs[j].step in b.steps && b.steps[db.jobs[j].step].status == Succeeded
  {}

  lemma ReplayUnsafe(w: World, steps: set<nat>)
    requires Safe(w) && !NoClaimOn(w, steps) && steps <= w.db.steps.Keys
    ensures !Safe(w.(db := Replayed(w.db, steps)))
  {
    hide OneJob, JobsKnown, Settled, Leveled;
    var v := w.(db := Replayed(w.db, steps));
    if k :| k in w.flights && w.flights[k].step in steps {
      assert Holds(w.db, w.flights[k]);
      assert w.flights[k].job !in v.db.jobs && !Holds(v.db, v.flights[k]);
    } else {
      var s :| s in w.ready && s in steps && s in w.db.steps && HasDepIn(w.db, s, steps);
      var d :| d in w.db.steps[s].deps && d in steps;
      assert v.db.steps[d].status == Pending && d in v.db.steps[s].deps;
      assert Touched(v, s) && !DepsDone(v.db, s);
    }
  }

  lemma ReplaySets(db: Db, level: int, s: nat)
    ensures FromLevel(db, level) <= db.steps.Keys && Descendants(db, s) <= db.steps.Keys
  {
    if s in db.steps {
      ClosureClosed(db, {s});
    }
  }

  // Calm is exactly what keeps the invariant: an event that is not leaves it at once.
  lemma CalmExactly(w: World, e: Event)
    requires Safe(w) && Enabled(w, e)
    ensures Safe(Next(w, e)) <==> Calm(w, e)
  {
    if Calm(w, e) {
      SafeKept(w, e);
    } else if e.ReplayLevel? || e.ReplayStep? {
      ReplaySets(w.db, if e.ReplayLevel? then e.level else 0, if e.ReplayStep? then e.s else 0);
      ReplayUnsafe(w, if e.ReplayLevel? then FromLevel(w.db, e.level) else Descendants(w.db, e.s));
    } else {
      UncalmUnsafe(w, e);
    }
  }

  lemma UncalmUnsafe(w: World, e: Event)
    requires Safe(w) && Enabled(w, e) && !Calm(w, e) && !IsReplay(e)
    ensures !Safe(Next(w, e))
  {
    hide Next, NoneDone, Finishable, OneJob, JobsKnown, ClaimsOk, Settled, InOrder, Leveled, Claimable;
    if e.Claim? {
      var other :| other in w.flights && w.flights[other].job == e.j;
      OverlapUnsafe(w, e.w, e.j, other);
    } else if e.Finalize? {
      var k := e.w;
      var other :| other in w.flights && w.flights[other].step == w.flights[k].step && !Past(w.flights[other].phase);
      EarlyFinalizeUnsafe(w, k, other);
    } else if e.RetryJobs? {
      RevivalUnsafe(w, e, w.db.steps.Keys);
    } else if e.PlayLevel? {
      RevivalUnsafe(w, e, AtLevel(w.db, e.level));
    } else if e.PlayStep? {
      RevivalUnsafe(w, e, {e.s});
    }
  }

  /* ---- every run ---- */

  lemma StartedSafe(w: World)
    requires Started(w) && Leveled(w.db)
    ensures Safe(w)
  {
    var db := w.db;
    forall j | j in db.jobs ensures JobKnown(db, db.jobs[j]) {
      assert FirstJob(db, db.jobs[j]);
    }
    forall s | s in db.steps && HasJob(db, s) ensures DepsDone(db, s) {
      var j :| j in db.jobs && db.jobs[j].step == s;
      assert FirstJob(db, db.jobs[j]);
    }
  }

  ghost predicate CalmRun(w: World, es: seq<Event>)
    requires Possible(w, es)
    decreases |es|
  {
    es == [] || (Calm(w, es[0]) && CalmRun(Next(w, es[0]), es[1..]))
  }

  lemma {:induction false} SafeAlong(w: World, es: seq<Event>)
    requires Safe(w) && Possible(w, es) && CalmRun(w, es)
    ensures Safe(After(w, es))
    decreases |es|
  {
    if es != [] {
      SafeKept(w, es[0]);
      hide Next, Safe, Enabled, Calm;
      SafeAlong(Next(w, es[0]), es[1..]);
    }
  }

  // In every reachable state of a calm run, a step that has a job, runs or succeeded has all its
  // dependencies succeeded, and theirs, all the way down.
  lemma {:induction false} DependenciesFirst(w: World, es: seq<Event>, s: nat)
    requires Started(w) && Leveled(w.db) && Possible(w, es) && CalmRun(w, es)
    requires s in After(w, es).db.steps && Touched(After(w, es), s)
    ensures DepsDone(After(w, es).db, s)
    ensures forall t :: t != s && WaitsFor(After(w, es).db, s, t) ==> After(w, es).db.steps[t].status == Succeeded
  {
    hide Started, After, Possible, CalmRun;
    StartedSafe(w);
    SafeAlong(w, es);
    AncestorsDone(After(w, es), s);
  }

  lemma AncestorsDone(w: World, s: nat)
    requires Safe(w) && s in w.db.steps && Touched(w, s)
    ensures DepsDone(w.db, s)
    ensures forall t :: t != s && WaitsFor(w.db, s, t) ==> t in w.db.steps && w.db.steps[t].status == Succeeded
  {
    hide OneJob, JobsKnown, ClaimsOk, Settled, Leveled;
    SafeDone(w);
    forall t | t != s && WaitsFor(w.db, s, t) ensures t in w.db.steps && w.db.steps[t].status == Succeeded {
      var path :| Walk(w.db, path) && path[0] == s && path[|path| - 1] == t;
      var rest := path[1..];
      assert forall k :: 0 <= k < |rest| ==> rest[k] == path[k + 1];
      assert path[1] in w.db.steps[s].deps;
      DoneAllTheWay(w.db, rest);
    }
  }

  lemma SafeDone(w: World)
    requires InOrder(w)
    ensures DoneInOrder(w.db)
  {
    forall s | s in w.db.steps && w.db.steps[s].status == Succeeded ensures DepsDone(w.db, s) {
      assert Touched(w, s);
    }
  }
}
