/** A run that had its verdict and is played or replayed is open to a verdict again. */
module RunReopen {
  import opened Wrappers
  import opened RunDb
  import opened RunEvents
  import opened RunVerdict
  import RunQueue

  predicate Reopens(e: Event) {
    e.PlayLevel? || e.PlayStep? || e.ReplayLevel? || e.ReplayStep?
  }

  // Neither the judge nor a cancel is among the events.
  ghost predicate Undisturbed(es: seq<Event>) {
    forall e <- es :: !e.Judge? && !e.CancelRun?
  }

  ghost predicate SameShape(a: Db, b: Db) {
    a.steps.Keys == b.steps.Keys &&
    forall s <- a.steps :: a.steps[s].deps == b.steps[s].deps && a.steps[s].level == b.steps[s].level
  }

  lemma {:induction false} ExpandedRest(db: Db, s: nat, n: nat)
    ensures Expanded(db, s, n).steps == db.steps && Expanded(db, s, n).run == db.run
  {
    if n > 0 {
      ExpandedRest(db, s, n - 1);
    }
  }

  lemma WorkerShape(w: World, e: Event)
    requires Enabled(w, e) && IsWorker(e)
    ensures SameShape(w.db, WorkerStep(w, e).db) && WorkerStep(w, e).db.run == w.db.run
  {
    RunQueue.StepWrites(w.db);
    RunQueue.StatusWrites(w.db);
    hide Expanded, Begun, Finalized, StepFailed, BatchDone, HasBatchBelow;
    if e.Expand? {
      ExpandedRest(w.db, w.flights[e.w].step, e.n);
    }
  }

  lemma PlayedShape(db: Db, steps: set<nat>)
    ensures SameShape(db, Played(db, steps)) && SameShape(db, Replayed(db, steps))
    ensures db.run == RunRunning ==> Played(db, steps).run == RunRunning && Replayed(db, steps).run == RunRunning
  {}

  lemma OperatedShape(db: Db, e: Event)
    ensures SameShape(db, Operated(db, e))
    ensures db.run == RunRunning && !e.CancelRun? ==> Operated(db, e).run == RunRunning
  {
    hide AtLevel, FromLevel, Descendants, Played, Replayed;
    match e
    case PlayLevel(level) => PlayedShape(db, AtLevel(db, level));
    case ReplayLevel(level) => PlayedShape(db, FromLevel(db, level));
    case PlayStep(s) => PlayedShape(db, {s});
    case ReplayStep(s) => PlayedShape(db, Descendants(db, s));
    case _ =>
  }

  lemma ShapeStep(w: World, e: Event)
    requires Enabled(w, e)
    ensures SameShape(w.db, Next(w, e).db)
    ensures w.db.run == RunRunning && !e.Judge? && !e.CancelRun? ==> Next(w, e).db.run == RunRunning
  {
    hide WorkerStep, Operated, HasDeadStepJob, Verdict, Ready;
    if IsWorker(e) {
      WorkerShape(w, e);
    } else {
      OperatedShape(w.db, e);
    }
  }

  lemma {:induction false} ShapeAlong(w: World, es: seq<Event>)
    requires Possible(w, es) && Undisturbed(es) && w.db.run == RunRunning
    ensures SameShape(w.db, After(w, es).db) && After(w, es).db.run == RunRunning
    decreases |es|
  {
    if es != [] {
      ShapeStep(w, es[0]);
      assert es[0] in es && forall e <- es[1..] :: e in es;
      hide Next, Enabled;
      ShapeAlong(Next(w, es[0]), es[1..]);
    }
  }

  // A play or a replay leaves a run that had its verdict running, whatever it was; a running one stays so.
  lemma ReopenRuns(w: World, e: Event)
    requires Reopens(e) && w.db.run != RunPending
    ensures Enabled(w, e) && Next(w, e).db.run == RunRunning
  {
    hide AtLevel, FromLevel, Descendants;
  }

  // From then on, until the judge next looks or the run is cancelled, the judge would be silent exactly while
  // something runs or can run; once every step has succeeded it finds that the run has.
  lemma OpenAgain(w: World, e: Event, es: seq<Event>)
    requires Reopens(e) && w.db.run in {RunFailed, RunCancelled, RunSucceeded, RunRunning}
    requires Leveled(w.db) && w.db.steps != map[]
    requires Possible(w, [e] + es) && Undisturbed(es)
    ensures var v := After(w, [e] + es);
      && v.db.run == RunRunning
      && (Verdict(v.db).None? <==> AnyRunning(v.db) || AnyRunnable(v.db))
      && ((forall s <- v.db.steps :: v.db.steps[s].status == Succeeded) ==> Judged(v.db).run == RunSucceeded)
  {
    hide Next, Verdict, Enabled, Leveled, AnyRunning, AnyRunnable, SameShape, Judged;
    var v := After(w, [e] + es);
    assert ([e] + es)[0] == e && ([e] + es)[1..] == es;
    ReopenRuns(w, e);
    ShapeStep(w, e);
    ShapeAlong(Next(w, e), es);
    assert After(Next(w, e), es) == v;
    LeveledSame(w.db, Next(w, e).db);
    LeveledSame(Next(w, e).db, v.db);
    UndecidedExactly(v.db);
    JudgedDone(v.db);
  }

  lemma LeveledSame(a: Db, b: Db)
    requires SameShape(a, b) && Leveled(a)
    ensures Leveled(b) && (a.steps == map[] <==> b.steps == map[])
  {
    if b.steps == map[] {
      assert a.steps.Keys == {};
    }
  }

  lemma JudgedDone(db: Db)
    requires db.run == RunRunning && db.steps != map[]
    ensures (forall s <- db.steps :: db.steps[s].status == Succeeded) ==> Judged(db).run == RunSucceeded
  {}
}
