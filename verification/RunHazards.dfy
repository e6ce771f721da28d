/** What the rows do not protect against: replays under live claims or in the middle of a tick, and a
    crash between the two writes of a success. */
module RunHazards {
  import opened Wrappers
  import opened RunDb
  import opened RunEvents
  import opened RunQueue
  import opened RunVerdict
  import opened RunOrder

  predicate Failing(phase: Phase) {
    phase == HandlerErr || phase == JobFailed
  }

  // A claim that has not failed, on a step without batches one of whose dependencies is not done.
  ghost predicate Doomed(w: World, k: nat, d: nat) {
    && k in w.flights && !Failing(w.flights[k].phase)
    && var s := w.flights[k].step;
    s in w.db.steps && d in w.db.steps[s].deps && d != s && d in w.db.steps && w.db.steps[d].status != Succeeded &&
    !HasBatches(w.db, s) && (w.db.steps[s].status == Pending || w.flights[k].phase != Taken)
  }

  predicate By(e: Event, k: nat) {
    e == Begin(k) || e == Expand(k, 0) || e == CopyBatch(k) || e == Finish(k) || e == Succeed(k) || e == Finalize(k)
  }

  lemma BeginBreaks(w: World, k: nat, d: nat)
    requires Doomed(w, k, d) && w.flights[k].phase == Taken
    ensures !InOrder(Next(w, Begin(k)))
  {
    var v, s := Next(w, Begin(k)), w.flights[k].step;
    assert Touched(v, s) && v.db.steps[d].status == w.db.steps[d].status;
    assert !DepsDone(v.db, s);
  }

  lemma FinalizeBreaks(w: World, k: nat, d: nat)
    requires Doomed(w, k, d) && w.flights[k].phase == JobDone
    ensures !InOrder(Next(w, Finalize(k)))
  {
    var v, s := Next(w, Finalize(k)), w.flights[k].step;
    assert Touched(v, s) && v.db.steps[d].status == w.db.steps[d].status;
    assert !DepsDone(v.db, s);
  }

  // What the handler does, if it has nothing to copy.
  function Handling(w: World, k: nat): Event
    requires At(w, k, Working)
  {
    if w.flights[k].batch.Some? then CopyBatch(k)
    else if IsCopyStep(w, w.flights[k].step) then Expand(k, 0)
    else Finish(k)
  }

  lemma HandledDoomed(w: World, k: nat, d: nat)
    requires Doomed(w, k, d) && w.flights[k].phase == Working
    ensures Enabled(w, Handling(w, k)) && Doomed(Next(w, Handling(w, k)), k, d)
    ensures At(Next(w, Handling(w, k)), k, HandlerOk)
  {
  }

  function PhaseRank(phase: Phase): nat {
    match phase
    case Working => 2
    case HandlerOk => 1
    case _ => 0
  }

  // Left to itself, the worker of a doomed claim breaks the order.
  lemma {:induction false} DoomedBreaks(w: World, k: nat, d: nat) returns (es: seq<Event>)
    requires Doomed(w, k, d)
    ensures Possible(w, es) && !InOrder(After(w, es)) && forall e <- es :: By(e, k)
    decreases PhaseRank(w.flights[k].phase)
  {
    var phase := w.flights[k].phase;
    var e: Event, rest: seq<Event> := Begin(k), [];
    if phase == Taken {
      BeginBreaks(w, k, d);
    } else if phase == JobDone {
      e := Finalize(k);
      FinalizeBreaks(w, k, d);
    } else {
      if phase == Working {
        e := Handling(w, k);
        HandledDoomed(w, k, d);
      } else {
        e := Succeed(k);
        assert Doomed(Next(w, e), k, d);
      }
      hide InOrder, Doomed;
      rest := DoomedBreaks(Next(w, e), k, d);
    }
    hide InOrder, Next;
    es := [e] + rest;
    assert es[1..] == rest;
  }

  // A replay while a claim is live on a step it covers, if it covers a dependency of that step too:
  // the completion does not look at the deleted job, and the step runs or succeeds before its dependency.
  lemma ReplayUnderClaimBreaks(w: World, steps: set<nat>, k: nat, d: nat) returns (es: seq<Event>)
    requires Safe(w) && k in w.flights && !Failing(w.flights[k].phase)
    requires w.flights[k].step in steps && d in steps && d in w.db.steps
    requires w.flights[k].step in w.db.steps && d in w.db.steps[w.flights[k].step].deps
    ensures Possible(w.(db := Replayed(w.db, steps)), es) && !InOrder(After(w.(db := Replayed(w.db, steps)), es))
    ensures forall e <- es :: By(e, k)
  {
    hide OneJob, JobsKnown, ClaimsOk, Settled, InOrder;
    var v := w.(db := Replayed(w.db, steps));
    assert w.db.steps[d].level < w.db.steps[w.flights[k].step].level;
    ReplayDooms(w, steps, k, d);
    hide Replayed, Doomed;
    es := DoomedBreaks(v, k, d);
  }

  lemma ReplayDooms(w: World, steps: set<nat>, k: nat, d: nat)
    requires k in w.flights && !Failing(w.flights[k].phase) && w.flights[k].step in steps && d in steps
    requires d in w.db.steps
    requires w.flights[k].step in w.db.steps && d in w.db.steps[w.flights[k].step].deps && d != w.flights[k].step
    ensures Doomed(w.(db := Replayed(w.db, steps)), k, d)
  {
  }

  // A replay between the dispatcher's query and its insert.
  lemma ReplayUnderTickBreaks(w: World, steps: set<nat>, s: nat, d: nat)
    requires Safe(w) && s in w.ready && d in w.db.steps[s].deps && d in steps && d in w.db.steps
    ensures !InOrder(Next(w.(db := Replayed(w.db, steps)), Dispatch(s)))
  {
    var v := Next(w.(db := Replayed(w.db, steps)), Dispatch(s));
    assert v.db.jobs[w.db.next].step == s;
    assert Touched(v, s);
    assert v.db.steps[d].status == Pending;
    assert !DepsDone(v.db, s);
  }

  lemma Also(w: World, e: Event, v: World, es: seq<Event>)
    requires Enabled(w, e) && Next(w, e) == v && Possible(v, es)
    ensures Possible(w, [e] + es) && After(w, [e] + es) == After(v, es)
  {
    assert ([e] + es)[1..] == es;
  }

  /* ---- a crash between the two writes of a success ---- */

  // Nobody will look at the step again: its job is done, it is not.
  ghost predicate Stranded(w: World, s: nat) {
    && s in w.db.steps && w.db.steps[s].status != Succeeded && HasStepJob(w.db, s)
    && (forall j <- w.db.jobs :: w.db.jobs[j].step == s ==> w.db.jobs[j].status == Done)
    && (forall k <- w.flights :: w.flights[k].step != s)
  }

  predicate Replays(w: World, e: Event, s: nat) {
    (e.ReplayLevel? && s in FromLevel(w.db, e.level)) || (e.ReplayStep? && s in Descendants(w.db, e.s))
  }

  // The crash of the only claim left on a step whose jobs are all done.
  lemma CrashStrands(w: World, k: nat)
    requires At(w, k, JobDone) && w.flights[k].step in w.db.steps
    requires w.db.steps[w.flights[k].step].status != Succeeded && HasStepJob(w.db, w.flights[k].step)
    requires forall j <- w.db.jobs :: w.db.jobs[j].step == w.flights[k].step ==> w.db.jobs[j].status == Done
    requires forall i <- w.flights :: w.flights[i].step == w.flights[k].step ==> i == k
    ensures Stranded(Landed(w, k, w.db), w.flights[k].step)
  {
    var v := Landed(w, k, w.db);
    assert forall i <- v.flights :: i != k && v.flights[i] == w.flights[i];
  }

  // In a safe state: a crash instead of the completion that would have ended the step, batches or not.
  lemma LastCrashStrands(w: World, k: nat)
    requires Safe(w) && At(w, k, JobDone) && Finishable(w.db, w.flights[k].step) && !HasDeadJob(w.db, w.flights[k].step)
    requires w.flights[k].step in w.db.steps && w.db.steps[w.flights[k].step].status != Succeeded
    requires forall i <- w.flights :: w.flights[i].step == w.flights[k].step ==> i == k
    ensures Stranded(Landed(w, k, w.db), w.flights[k].step)
  {
    hide InOrder, Leveled, Settled, Stranded;
    assert Calm(w, Finalize(k));
    FinishableJobs(w, k);
    assert Holds(w.db, w.flights[k]) && JobKnown(w.db, w.db.jobs[w.flights[k].job]);
    forall j | j in w.db.jobs && w.db.jobs[j].step == w.flights[k].step ensures w.db.jobs[j].status == Done {
      assert w.db.jobs[j].status != Dead;
    }
    CrashStrands(w, k);
  }

  lemma PlayedStranded(w: World, steps: set<nat>, s: nat)
    requires Stranded(w, s)
    ensures Stranded(w.(db := Played(w.db, steps)), s) && w.db.jobs.Keys == Played(w.db, steps).jobs.Keys
    ensures forall j <- w.db.jobs :: SameOwner(w.db.jobs[j], Played(w.db, steps).jobs[j])
  {
    var j :| j in w.db.jobs && w.db.jobs[j].step == s && w.db.jobs[j].batch.None?;
    var db := Played(w.db, steps);
    assert j in db.jobs && db.jobs[j].step == s && db.jobs[j].batch.None?;
  }

  lemma OperatedStranded(w: World, e: Event, s: nat)
    requires Stranded(w, s) && Enabled(w, e) && !Replays(w, e, s)
    ensures Stranded(w.(db := Operated(w.db, e)), s)
  {
    hide Descendants, AtLevel, FromLevel, Enabled, Played;
    if e.PlayLevel? {
      PlayedStranded(w, AtLevel(w.db, e.level), s);
    } else if e.PlayStep? {
      PlayedStranded(w, {e.s}, s);
    }
    var j :| j in w.db.jobs && w.db.jobs[j].step == s && w.db.jobs[j].batch.None?;
    var db := Operated(w.db, e);
    assert j in db.jobs && db.jobs[j].step == s && db.jobs[j].batch.None?;
  }

  lemma StrandedStays(w: World, e: Event, s: nat)
    requires OneJob(w) && Stranded(w, s) && Enabled(w, e) && !Replays(w, e, s)
    ensures Stranded(Next(w, e), s)
  {
    hide Verdict, Ready, Operated, Keyed, WorkerStep, Replays;
    OneJobIds(w);
    if IsWorker(e) {
      WorkerStranded(w, e, s);
    } else if !e.Requeue? && !e.FailDead? && !e.Query? && !e.Dispatch? && !e.Judge? {
      OperatedStranded(w, e, s);
    } else {
      var j :| j in w.db.jobs && w.db.jobs[j].step == s && w.db.jobs[j].batch.None?;
      assert j in Next(w, e).db.jobs && Next(w, e).db.jobs[j].step == s && Next(w, e).db.jobs[j].batch.None?;
    }
  }

  lemma WorkerStranded(w: World, e: Event, s: nat)
    requires OneJob(w) && Stranded(w, s) && Enabled(w, e) && IsWorker(e)
    ensures Stranded(WorkerStep(w, e), s)
  {
    hide Finishable, Expanded, HasBatchBelow, Keyed, HasStepJob, HasDeadJob;
    if e.Expand? {
      hide Stranded;
      ExpandStranded(w, e.w, e.n, s);
    } else {
      WorkerRows(w, e);
      RowsHave(w.db, WorkerStep(w, e).db, s);
      hide SameRows;
      if e.Claim? || e.Succeed? || e.Fail? {
        hide Begun, Finalized, StepFailed, BatchDone;
      } else {
        StepWrites(w.db);
        StatusWrites(w.db);
        hide SucceededJob, FailedJob, ClaimedJob, Begun, Finalized, StepFailed, BatchDone;
      }
    }
  }

  lemma RowsHave(a: Db, b: Db, s: nat)
    requires SameRows(a, b)
    ensures HasStepJob(a, s) ==> HasStepJob(b, s)
  {
    if HasStepJob(a, s) {
      var j :| j in a.jobs && a.jobs[j].step == s && a.jobs[j].batch.None?;
      assert SameOwner(a.jobs[j], b.jobs[j]);
    }
  }

  lemma ExpandStranded(w: World, k: nat, n: nat, s: nat)
    requires OneJob(w) && Stranded(w, s) && Enabled(w, Expand(k, n))
    ensures Stranded(Next(w, Expand(k, n)), s)
  {
    hide Expanded, HasBatchBelow;
    var t := w.flights[k].step;
    OneJobIds(w);
    ExpandedGrows(w.db, t, n);
    var b := Expanded(w.db, t, n);
    var j :| j in w.db.jobs && w.db.jobs[j].step == s && w.db.jobs[j].batch.None?;
    assert b.jobs[j] == w.db.jobs[j];
  }

  ghost predicate NeverReplays(w: World, es: seq<Event>, s: nat)
    requires Possible(w, es)
    decreases |es|
  {
    es == [] || (!Replays(w, es[0], s) && NeverReplays(Next(w, es[0]), es[1..], s))
  }

  // A stranded step never succeeds, and so neither does its run, under any interleaving of workers,
  // dispatcher, supervisor, judge, retries and plays: only a replay of the step helps.
  lemma {:induction false} StrandedForever(w: World, es: seq<Event>, s: nat)
    requires OneJob(w) && Stranded(w, s) && Possible(w, es) && NeverReplays(w, es, s)
    ensures Stranded(After(w, es), s) && Verdict(After(w, es).db) != Some(RunSucceeded)
    decreases |es|
  {
    if es != [] {
      OneJobKept(w, es[0]);
      StrandedStays(w, es[0], s);
      hide Next, OneJob, Stranded, Enabled, Replays, Verdict;
      StrandedForever(Next(w, es[0]), es[1..], s);
    }
  }
}
