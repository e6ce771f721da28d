/** Attempts that overlap and replays under a claim break the order from every safe state in which a
    step waits for no other. */
module RunOverlaps {
  import opened Wrappers
  import opened RunDb
  import opened RunEvents
  import opened RunQueue
  import opened RunOrder
  import opened RunHazards
  import opened RunBreaks
  import opened RunRescue
  import RunBatches
  import RunCancel
  import RunVerdict

  // No replay, nor any other chance that an operator gives.
  ghost predicate Unaided(es: seq<Event>) {
    forall e <- es :: !IsReplay(e) && !GivesBack(e)
  }

  lemma WorkersUnaided(es: seq<Event>)
    requires ByWorkers(es)
    ensures Unaided(es)
  {}

  /* ---- two attempts of one job ---- */

  // The claimed jobs of the step.
  function Held(db: Db, s: nat): set<nat> {
    set j | j in db.jobs && db.jobs[j].step == s && db.jobs[j].status == Claimed
  }

  // Every job of the step is done, waits, or is claimed with an attempt left.
  ghost predicate Retriable(db: Db, s: nat) {
    forall j <- db.jobs :: db.jobs[j].step == s ==>
      db.jobs[j].status == Done || db.jobs[j].status == Waiting ||
      (db.jobs[j].status == Claimed && db.jobs[j].attempts < db.jobs[j].max)
  }

  lemma Expire(w: World, s: nat, n: nat)
    requires Sound(w) && s in w.db.steps && Retriable(w.db, s)
    ensures var v := Next(w, Requeue(Held(w.db, s)));
      && Sound(v) && v.flights == w.flights && v.ready == w.ready && v.db.steps == w.db.steps && Startable(v, s, n)
      && SameRows(w.db, v.db) && v.db.batches == w.db.batches
      && forall j <- w.db.jobs :: v.db.jobs[j].status == Done <==> w.db.jobs[j].status == Done
  {
    SoundKept(w, Requeue(Held(w.db, s)));
    hide OneJob, RunBatches.Batched, RunDb.Requeued, CanWork, Held;
    RequeuedJobs(w.db, s);
  }

  lemma RequeuedJobs(db: Db, s: nat)
    requires QueueOk(db) && Retriable(db, s)
    ensures var b := RunDb.Requeued(db, Held(db, s));
      && SameRows(db, b) && b.steps == db.steps && b.batches == db.batches
      && (forall j <- db.jobs :: b.jobs[j].status == Done <==> db.jobs[j].status == Done)
      && forall j <- b.jobs :: b.jobs[j].step == s ==> b.jobs[j].status == Done || Claimable(b, j)
  {
    forall j | j in db.jobs && db.jobs[j].step == s
      ensures j in Held(db, s) <==> db.jobs[j].status == Claimed
      ensures JobOk(db.jobs[j])
    {}
  }

  // The lock of a live attempt expires, other workers do what is left of the step, and its dependent is
  // dispatched; then the first attempt fails and takes the succeeded step down with it.
  lemma OverlapBreaks(w: World, k: nat, t: nat, n: nat) returns (es: seq<Event>)
    requires Safe(w) && Sound(w) && k in w.flights && !Past(w.flights[k].phase) && w.flights[k].phase != JobFailed
    requires Retriable(w.db, w.flights[k].step) && CanWork(w.db, w.flights[k].step, n, w.flights[k].batch)
    requires Awaits(w, t, w.flights[k].step)
    ensures Possible(w, es) && !InOrder(After(w, es)) && Unaided(es)
  {
    hide JobsKnown, Settled, InOrder, RunVerdict.Leveled, Sound, Possible,
      After, OneJob, Awaits, Within, CanFail, Leans,
      Retriable, Next, Enabled, CanWork;
    var f := w.flights[k];
    var s := f.step;
    assert Holds(w.db, f);
    var e := Requeue(Held(w.db, s));
    StepJobHeld(w, k);
    Requeued(w, e, k, t, n);
    var a := Next(w, e);
    var mid, b := Processed(a, s, n);
    var u := DispatchAfter(a, b, k, t, s);
    var rest := FailureBreaks(u, k, t);
    var last := [Query, Dispatch(t)];
    Then(w, [e], mid);
    Then(w, [e] + mid, last);
    Then(w, [e] + mid + last, rest);
    es := [e] + mid + last + rest;
    WorkersUnaided(mid);
    WorkersUnaided(rest);
  }

  lemma Requeued(w: World, e: Event, k: nat, t: nat, n: nat)
    requires Sound(w) && k in w.flights && !Past(w.flights[k].phase) && Holds(w.db, w.flights[k])
    requires Retriable(w.db, w.flights[k].step) && CanWork(w.db, w.flights[k].step, n, w.flights[k].batch)
    requires Awaits(w, t, w.flights[k].step) && e == Requeue(Held(w.db, w.flights[k].step))
    requires w.flights[k].step in w.db.steps
    ensures Enabled(w, e) && Possible(w, [e]) && After(w, [e]) == Next(w, e)
    ensures var a, s := Next(w, e), w.flights[k].step;
      && Sound(a) && s in a.db.steps && Startable(a, s, n) && Hope(a, s, n) && Awaits(a, t, s)
      && k in a.flights && a.flights[k] == w.flights[k]
      && a.flights[k].job in a.db.jobs && a.db.jobs[a.flights[k].job].step == s
  {
    hide Sound, Awaits, Startable, Hope, Retriable, Possible, After, CanWork, Held;
    var s := w.flights[k].step;
    Expire(w, s, n);
    hide Next;
    HopeOf(w, Next(w, e), k, s, n);
    StillAwaits(w, Next(w, e), t, s);
    RunCancel.Last(w, e);
  }

  lemma Processed(a: World, s: nat, n: nat) returns (es: seq<Event>, b: World)
    requires Sound(a) && s in a.db.steps && Startable(a, s, n) && Hope(a, s, n)
    ensures Possible(a, es) && After(a, es) == b && Within(a, b, s) && Sound(b) && ByWorkers(es)
    ensures s in b.db.steps && b.db.steps[s].status == Succeeded
  {
    hide Sound, Startable, Hope, Within, Goes, Possible, After;
    es, b := Process(a, s, n);
    GoesRuns(a, es, b, s, n);
  }

  lemma HopeOf(w: World, a: World, k: nat, s: nat, n: nat)
    requires k in w.flights && w.flights[k].step == s && Holds(w.db, w.flights[k]) && w.flights[k].phase != JobDone
    requires SameRows(w.db, a.db) && a.db.batches == w.db.batches && a.db.steps == w.db.steps && s in w.db.steps
    requires forall j <- w.db.jobs :: a.db.jobs[j].status == Done <==> w.db.jobs[j].status == Done
    requires CanWork(w.db, s, n, w.flights[k].batch)
    ensures Hope(a, s, n)
  {
    SameJammed(w.db, a.db, s, n);
    hide Jammed;
    var j := w.flights[k].job;
    assert SameOwner(w.db.jobs[j], a.db.jobs[j]);
    assert a.db.jobs[j].step == s && a.db.jobs[j].status != Done && CanWork(a.db, s, n, a.db.jobs[j].batch);
  }

  lemma StillAwaits(w: World, a: World, t: nat, s: nat)
    requires Awaits(w, t, s) && a.ready == w.ready && a.db.steps == w.db.steps && SameRows(w.db, a.db)
    ensures Awaits(a, t, s)
  {
    forall j | j in a.db.jobs ensures !(a.db.jobs[j].step == t && a.db.jobs[j].batch.None?) {
      assert SameOwner(w.db.jobs[j], a.db.jobs[j]);
    }
  }

  // A tick that goes as far as t.
  lemma TickTo(w: World, t: nat) returns (u: World)
    requires w.ready == {} && IsReady(w.db, t)
    ensures Possible(w, [Query, Dispatch(t)]) && After(w, [Query, Dispatch(t)]) == u
    ensures u.db == Enqueued(w.db, t, None) && u.flights == w.flights
  {
    var c := Next(w, Query);
    u := Next(c, Dispatch(t));
    hide Next;
    RunCancel.Last(c, Dispatch(t));
    Also(w, Query, c, [Dispatch(t)]);
    assert [Query] + [Dispatch(t)] == [Query, Dispatch(t)];
  }

  // The step done, its dependent dispatched, the claim where it was.
  lemma DispatchAfter(a: World, b: World, k: nat, t: nat, s: nat) returns (u: World)
    requires Within(a, b, s) && Awaits(a, t, s) && s in b.db.steps && b.db.steps[s].status == Succeeded && Sound(b)
    requires k in a.flights && a.flights[k].step == s && !Past(a.flights[k].phase) && a.flights[k].phase != JobFailed
    requires a.flights[k].job in a.db.jobs && a.db.jobs[a.flights[k].job].step == s
    ensures Possible(b, [Query, Dispatch(t)]) && After(b, [Query, Dispatch(t)]) == u
    ensures k in u.flights && u.flights[k] == a.flights[k] && CanFail(u, k, s) && Leans(u, t, s)
  {
    hide OneJob, RunBatches.Batched;
    forall j | j in b.db.jobs ensures !(b.db.jobs[j].step == t && b.db.jobs[j].batch.None?) {
      if j in a.db.jobs {
        assert SameOwner(a.db.jobs[j], b.db.jobs[j]);
      }
    }
    assert IsReady(b.db, t);
    u := TickTo(b, t);
    hide Possible, After;
    assert u.db.jobs[b.db.next].step == t;
    assert forall j <- b.db.jobs :: u.db.jobs[j] == b.db.jobs[j];
    assert SameOwner(a.db.jobs[a.flights[k].job], b.db.jobs[a.flights[k].job]);
  }

  /* ---- a replay under a claim ---- */

  // What the replay leaves of the claim: its job and its batch are gone, and its step starts over.
  ghost predicate Stale(w: World, k: nat) {
    && k in w.flights && !RunHazards.Failing(w.flights[k].phase) && w.flights[k].step in w.db.steps
    && w.db.steps[w.flights[k].step].status != Succeeded
    && w.flights[k].job !in w.db.jobs && !HasBatches(w.db, w.flights[k].step)
    && (w.flights[k].batch.Some? ==> w.flights[k].batch.value !in w.db.batches)
    && (w.flights[k].batch.Some? || !w.db.steps[w.flights[k].step].copies || Past(w.flights[k].phase))
  }

  // Only the step has succeeded, and the claim has landed.
  ghost predicate Passed(w: World, v: World, k: nat)
    requires k in w.flights && w.flights[k].step in w.db.steps
  {
    var s := w.flights[k].step;
    && v.ready == w.ready && v.flights == w.flights - {k} && v.db.jobs == w.db.jobs && v.db.batches == w.db.batches
    && v.db.next == w.db.next
    && v.db.steps == w.db.steps[s := w.db.steps[s].(status := Succeeded)]
  }

  function StaleStep(w: World, k: nat): Event
    requires k in w.flights && !RunHazards.Failing(w.flights[k].phase)
  {
    match w.flights[k].phase
    case Taken => Begin(k)
    case Working => if w.flights[k].batch.Some? then CopyBatch(k) else Finish(k)
    case HandlerOk => Succeed(k)
    case _ => Finalize(k)
  }

  function StaleRank(phase: Phase): nat {
    match phase case Taken => 3 case Working => 2 case HandlerOk => 1 case _ => 0
  }

  // Each move of a stale claim leaves the tables as they are, but for the step's status.
  lemma StaleMoves(w: World, k: nat)
    requires Stale(w, k)
    ensures var e := StaleStep(w, k);
      && Enabled(w, e) && IsWorker(e)
      && (w.flights[k].phase == JobDone ==> Passed(w, Next(w, e), k))
      && (w.flights[k].phase != JobDone ==>
            var v, f := Next(w, e), w.flights[k];
            && v.flights == w.flights[k := f.(phase := v.flights[k].phase)] &&
              StaleRank(v.flights[k].phase) < StaleRank(f.phase)
            && Stale(v, k) && v.ready == w.ready && v.db.jobs == w.db.jobs && v.db.batches == w.db.batches
            && v.db.next == w.db.next
            && v.db.steps == w.db.steps[f.step := w.db.steps[f.step].(status := v.db.steps[f.step].status)])
  {
    var v := Next(w, StaleStep(w, k));
    assert HasBatches(v.db, w.flights[k].step) ==> HasBatches(w.db, w.flights[k].step);
  }

  // Left to itself, the worker of a stale claim completes the step.
  lemma {:induction false} StalePasses(w: World, k: nat) returns (es: seq<Event>, v: World)
    requires Stale(w, k)
    ensures Possible(w, es) && After(w, es) == v && ByWorkers(es) && Passed(w, v, k)
    decreases StaleRank(w.flights[k].phase)
  {
    hide Stale, Next, Enabled, Possible, After;
    StaleMoves(w, k);
    StaleKnown(w, k);
    var e := StaleStep(w, k);
    RunCancel.Last(w, e);
    if w.flights[k].phase == JobDone {
      es, v := [e], Next(w, e);
    } else {
      var a := Next(w, e);
      var rest;
      rest, v := StalePasses(a, k);
      Then(w, [e], rest);
      es := [e] + rest;
      assert w.flights[k := a.flights[k]] - {k} == w.flights - {k};
    }
  }

  lemma StaleKnown(w: World, k: nat)
    requires Stale(w, k)
    ensures k in w.flights && !RunHazards.Failing(w.flights[k].phase) && w.flights[k].step in w.db.steps
  {}

  // All that the query found is dispatched: jobs for exactly those steps.
  lemma {:induction false} Drain(w: World) returns (es: seq<Event>, v: World)
    requires forall j <- w.db.jobs :: j < w.db.next
    ensures Possible(w, es) && After(w, es) == v && Unaided(es)
    ensures v.ready == {} && v.flights == w.flights && v.db.steps == w.db.steps && v.db.batches == w.db.batches
    ensures (forall j <- w.db.jobs :: j in v.db.jobs && v.db.jobs[j] == w.db.jobs[j]) && w.db.next <= v.db.next
    ensures forall j <- v.db.jobs ::
      j in w.db.jobs || (j >= w.db.next && v.db.jobs[j].step in w.ready && Claimable(v.db, j))
    ensures forall s <- w.ready :: exists j <- v.db.jobs :: v.db.jobs[j].step == s && j !in w.db.jobs
    ensures forall j <- v.db.jobs :: j < v.db.next
    decreases w.ready
  {
    if w.ready == {} {
      es, v := [], w;
    } else {
      var s :| s in w.ready;
      var a := Next(w, Dispatch(s));
      RunCancel.Last(w, Dispatch(s));
      hide Next, Enabled, Possible, After;
      var rest;
      rest, v := Drain(a);
      assert a.db.jobs[w.db.next].step == s;
      Then(w, [Dispatch(s)], rest);
      es := [Dispatch(s)] + rest;
      forall x | x in w.ready ensures exists j <- v.db.jobs :: v.db.jobs[j].step == x && j !in w.db.jobs {
        if x == s {
          assert v.db.jobs[w.db.next].step == s;
        } else {
          assert x in a.ready;
          var j :| j in v.db.jobs && v.db.jobs[j].step == x && j !in a.db.jobs;
        }
      }
    }
  }

  // A replay covers the claimed step and a dependent that waits for no other step it covers; the claimed
  // step waits for none.
  ghost predicate Covers(w: World, steps: set<nat>, s: nat, t: nat) {
    && s in w.db.steps && t in w.db.steps && s in steps && t in steps && t != s && s in w.db.steps[t].deps
    && (forall d <- w.db.steps[s].deps :: d !in steps)
    && forall d <- w.db.steps[t].deps :: d == s || (d in w.db.steps && w.db.steps[d].status == Succeeded && d !in steps)
  }

  // After the replay: the claim is stale, the step is ready, and its dependent waits for it alone.
  lemma ReplayedWorld(w: World, steps: set<nat>, k: nat, t: nat)
    requires Safe(w) && k in w.flights && !RunHazards.Failing(w.flights[k].phase)
    requires Covers(w, steps, w.flights[k].step, t)
    requires w.flights[k].batch.Some? || !IsCopyStep(w, w.flights[k].step) || Past(w.flights[k].phase)
    ensures var v, s := w.(db := Replayed(w.db, steps)), w.flights[k].step;
      && Stale(v, k) && IsReady(v.db, s) && w.flights[k].job < v.db.next && (forall j <- v.db.jobs :: j < v.db.next)
      && Pends(v.db, t, s) && (forall j <- v.db.jobs :: v.db.jobs[j].step != t)
  {
    hide JobsKnown, Settled, RunVerdict.Leveled, HasStepJob;
    var v, f := w.(db := Replayed(w.db, steps)), w.flights[k];
    assert Holds(w.db, f) && ClaimMatches(w.db, f);
    assert BatchKnown(w.db, w.db.jobs[f.job]);
    assert HasJob(w.db, f.step) && Touched(w, f.step) && DepsDone(w.db, f.step);
    assert DepsDone(v.db, f.step);
    NoJobLeft(w.db, steps, f.step);
  }

  lemma NoJobLeft(db: Db, steps: set<nat>, s: nat)
    requires s in steps
    ensures !HasStepJob(Replayed(db, steps), s)
  {}

  // t is pending and unlocked, and s is the only step it still waits for.
  ghost predicate Pends(db: Db, t: nat, s: nat) {
    && t in db.steps && t != s && s in db.steps[t].deps && db.steps[t].status == Pending && db.steps[t].unlocked
    && forall d <- db.steps[t].deps :: d == s || (d in db.steps && db.steps[d].status == Succeeded)
  }

  // The tick after the replay gives the step its new job.
  lemma Redispatched(v: World, k: nat, t: nat) returns (es: seq<Event>, b: World, j: nat)
    requires Stale(v, k) && IsReady(v.db, v.flights[k].step) && v.ready == {} && v.flights[k].job < v.db.next
    requires (forall i <- v.db.jobs :: i < v.db.next) && Pends(v.db, t, v.flights[k].step)
    requires forall i <- v.db.jobs :: v.db.jobs[i].step != t
    ensures Possible(v, es) && After(v, es) == b && Unaided(es) && b.ready == {} && Stale(b, k)
    ensures b.flights == v.flights
    ensures Claimable(b.db, j) && b.db.jobs[j].step == v.flights[k].step && Pends(b.db, t, v.flights[k].step)
    ensures j < b.db.next
    ensures (forall i <- b.db.jobs :: i < b.db.next && b.db.jobs[i].step != t)
  {
    var s := v.flights[k].step;
    var a := Next(v, Query);
    assert s in a.ready;
    assert !DepsDone(v.db, t) && t !in a.ready;
    RunCancel.Last(v, Query);
    hide Next, Enabled, Possible, After, IsReady, DepsDone;
    var rest;
    rest, b := Drain(a);
    Then(v, [Query], rest);
    es := [Query] + rest;
    j :| j in b.db.jobs && b.db.jobs[j].step == s && j !in a.db.jobs;
    assert HasBatches(b.db, s) ==> HasBatches(v.db, s);
  }

  // The stale completion lets the dependent go, while the step's new job can still fail.
  lemma Overtaken(b: World, k: nat, t: nat, j: nat) returns (es: seq<Event>, u: World)
    requires Stale(b, k) && b.ready == {} && Claimable(b.db, j) && b.db.jobs[j].step == b.flights[k].step
    requires Pends(b.db, t, b.flights[k].step) && j < b.db.next && forall i <- b.db.jobs :: b.db.jobs[i].step != t
    ensures Possible(b, es) && After(b, es) == u && Unaided(es)
    ensures Claimable(u.db, j) && Leans(u, t, u.db.jobs[j].step)
  {
    hide Stale, Pends, Possible, After, Leans, IsReady, Passed, Claimable;
    StaleKnown(b, k);
    var first, c := StalePasses(b, k);
    WorkersUnaided(first);
    PassedReady(b, c, k, t);
    u := TickTo(c, t);
    PassedLeans(b, c, u, k, t, j);
    Then(b, first, [Query, Dispatch(t)]);
    es := first + [Query, Dispatch(t)];
  }

  lemma PassedReady(b: World, c: World, k: nat, t: nat)
    requires k in b.flights && b.flights[k].step in b.db.steps && Passed(b, c, k) && b.ready == {}
    requires Pends(b.db, t, b.flights[k].step) && forall i <- b.db.jobs :: b.db.jobs[i].step != t
    ensures c.ready == {} && IsReady(c.db, t)
  {
    assert DepsDone(c.db, t) && !HasStepJob(c.db, t);
  }

  lemma PassedLeans(b: World, c: World, u: World, k: nat, t: nat, j: nat)
    requires k in b.flights && b.flights[k].step in b.db.steps && Passed(b, c, k) && j < b.db.next
    requires Pends(b.db, t, b.flights[k].step) && Claimable(b.db, j) && b.db.jobs[j].step == b.flights[k].step
    requires u.db == Enqueued(c.db, t, None)
    ensures Claimable(u.db, j) && Leans(u, t, u.db.jobs[j].step)
  {
    assert u.db.jobs[c.db.next].step == t;
    assert u.db.jobs[j] == b.db.jobs[j];
  }

  // A replay of a claimed step and of its dependents, no dependency among them: the tick gives the step
  // a new job, the old claim completes it, the next tick dispatches the dependent, and then the new job
  // fails to its maximum and takes the step down.
  lemma ReplayUnderClaimOvertakes(w: World, steps: set<nat>, k: nat, t: nat) returns (es: seq<Event>)
    requires Safe(w) && w.ready == {} && k in w.flights && !RunHazards.Failing(w.flights[k].phase)
    requires Covers(w, steps, w.flights[k].step, t)
    requires w.flights[k].batch.Some? || !IsCopyStep(w, w.flights[k].step) || Past(w.flights[k].phase)
    ensures var v := w.(db := Replayed(w.db, steps));
      Possible(v, es) && !InOrder(After(v, es)) && Unaided(es)
  {
    hide Safe, Stale, Pends, IsReady, Possible, After, InOrder, Leans, Claimable, Replayed;
    var v := w.(db := Replayed(w.db, steps));
    ReplayedWorld(w, steps, k, t);
    var first, b, j := Redispatched(v, k, t);
    var mid, u := Overtaken(b, k, t, j);
    var rest := RetriesBreak(u, j, t);
    WorkersUnaided(rest);
    Then(v, first, mid);
    Then(v, first + mid, rest);
    es := first + mid + rest;
  }
}
