/** A copy_table step whose expansion was committed by a worker that died before it could say so. */
module RunJams {
  import opened Wrappers
  import opened RunDb
  import opened RunEvents
  import opened RunQueue
  import opened RunOrder
  import opened RunHazards
  import opened RunBreaks
  import opened RunRescue
  import RunBatches
  import RunCancel

  // The worker holds the step's own job, is about to expand it, and the job has an attempt left.
  ghost predicate Expands(w: World, k: nat, n: nat) {
    && At(w, k, Working) && w.flights[k].batch.None? && IsCopyStep(w, w.flights[k].step)
    && n > 0 && !HasBatchBelow(w.db, w.flights[k].step, n)
    && w.flights[k].job in w.db.jobs && w.db.jobs[w.flights[k].job].status == Claimed
    && w.db.jobs[w.flights[k].job].attempts < w.db.jobs[w.flights[k].job].max
  }

  lemma ExpandedBelow(db: Db, s: nat, n: nat)
    requires n > 0
    ensures HasBatchBelow(Expanded(db, s, n), s, n)
  {
    var before := Expanded(db, s, n - 1);
    assert Expanded(db, s, n).batches[before.next] == Batch(s, n - 1, Pending);
  }

  // The crash after the commit, and the requeue.
  lemma Orphaned(w: World, k: nat, n: nat) returns (v: World)
    requires OneJob(w) && Expands(w, k, n)
    ensures var j, es := w.flights[k].job, [Expand(k, n), Crash(k), Requeue({w.flights[k].job})];
      && Possible(w, es) && After(w, es) == v && k !in v.flights && Claimable(v.db, j)
      && SameOwner(v.db.jobs[j], w.db.jobs[j]) && Jammed(v.db, w.flights[k].step, n)
  {
    hide Keyed, HasStepJob, Expanded, HasBatchBelow;
    var j, s := w.flights[k].job, w.flights[k].step;
    OneJobIds(w);
    ExpandedGrows(w.db, s, n);
    ExpandedBelow(w.db, s, n);
    var a := Next(w, Expand(k, n));
    var b := Next(a, Crash(k));
    v := Next(b, Requeue({j}));
    KeepsBelow(a.db, v.db, s, n);
    hide Next, Enabled;
    RunCancel.Last(b, Requeue({j}));
    Also(a, Crash(k), b, [Requeue({j})]);
    Also(w, Expand(k, n), a, [Crash(k)] + [Requeue({j})]);
    assert [Expand(k, n)] + ([Crash(k)] + [Requeue({j})]) == [Expand(k, n), Crash(k), Requeue({j})];
  }

  lemma KeepsBelow(a: Db, b: Db, s: nat, n: nat)
    requires a.batches == b.batches
    ensures HasBatchBelow(a, s, n) ==> HasBatchBelow(b, s, n)
  {}

  // In every sound state: the expansion, the crash of its worker, the requeue and the next claim end in
  // a handler error, and so does every further attempt.
  lemma SecondExpansionFails(w: World, k: nat, n: nat) returns (v: World)
    requires Sound(w) && Expands(w, k, n)
    ensures var j := w.flights[k].job;
      var es := [Expand(k, n), Crash(k), Requeue({j}), Claim(k, j), Begin(k), Expand(k, n)];
      Possible(w, es) && After(w, es) == v && At(v, k, HandlerErr) && Jammed(v.db, w.flights[k].step, n) &&
      v.flights[k].job == j && v.flights[k].batch.None?
  {
    hide OneJob, QueueOk, RunBatches.Batched;
    var j, s := w.flights[k].job, w.flights[k].step;
    var a := Orphaned(w, k, n);
    RunRescue.MatchedBatch(w, k);
    Starts(a, k, j, n);
    var b := Next(a, Claim(k, j));
    var c := Next(b, Begin(k));
    v := Next(c, Expand(k, n));
    ExpandsNot(c, k, n);
    hide Next, Enabled, Possible, After;
    RunCancel.Last(c, Expand(k, n));
    Also(b, Begin(k), c, [Expand(k, n)]);
    Also(a, Claim(k, j), b, [Begin(k)] + [Expand(k, n)]);
    var first, rest := [Expand(k, n), Crash(k), Requeue({j})], [Claim(k, j)] + ([Begin(k)] + [Expand(k, n)]);
    Then(w, first, rest);
    assert first + rest == [Expand(k, n), Crash(k), Requeue({j}), Claim(k, j), Begin(k), Expand(k, n)];
  }

  lemma ExpandsNot(w: World, k: nat, n: nat)
    requires At(w, k, Working) && w.flights[k].batch.None? && Jammed(w.db, w.flights[k].step, n)
    ensures Enabled(w, Expand(k, n)) && At(Next(w, Expand(k, n)), k, HandlerErr) && Next(w, Expand(k, n)).db == w.db
  {}

  /* ---- from a new run ---- */

  // Two steps: the second copies a table, once the first has succeeded.
  function TwoSteps(): World {
    World(
      Db(RunRunning, map[0 := Row([], 0, true, false, Pending), 1 := Row([0], 1, true, true, Pending)],
         map[0 := Job(0, None, Waiting, 0, MAX_ATTEMPTS)], map[], 1),
      map[], {})
  }

  lemma TwoStepsStart()
    ensures Started(TwoSteps()) && Sound(TwoSteps()) && Startable(TwoSteps(), 0, 0) && Hope(TwoSteps(), 0, 0)
    ensures !HasStepJob(TwoSteps().db, 1)
  {
    var w := TwoSteps();
    assert w.db.jobs[0].step == 0 && FirstJob(w.db, w.db.jobs[0]);
    SoundAlways(w, []);
    assert Claimable(w.db, 0) && CanWork(w.db, 0, 0, None);
  }

  // The copy step, dispatched and brought to its expansion.
  lemma Dispatched(w: World, s: nat, k: nat) returns (es: seq<Event>, v: World)
    requires Sound(w) && w.ready == {} && IsReady(w.db, s) && w.db.steps[s].copies && k !in w.flights
    requires !HasBatches(w.db, s)
    ensures Possible(w, es) && After(w, es) == v && Sound(v) && Expands(v, k, 1) && v.flights[k].step == s
  {
    hide OneJob, QueueOk, RunBatches.Batched;
    var a := Next(w, Query);
    var b := Next(a, Dispatch(s));
    var j := w.db.next;
    SoundKept(w, Query);
    SoundKept(a, Dispatch(s));
    var rest;
    rest, v := Start(b, k, j, 1);
    LedRuns(b, rest, v, k, s, 1);
    hide Next, Enabled, Goes, Sound, Possible, After;
    RunCancel.Last(a, Dispatch(s));
    Also(w, Query, a, [Dispatch(s)]);
    Then(w, [Query] + [Dispatch(s)], rest);
    es := [Query] + [Dispatch(s)] + rest;
  }

  lemma LedRuns(w: World, es: seq<Event>, v: World, i: nat, s: nat, n: nat)
    requires Led(w, es, v, i, s, n)
    ensures Possible(w, es) && After(w, es) == v && Sound(v)
  {
    GoesRuns(w, es, v, s, n);
  }

  lemma CopyIsReady(a: World)
    requires Within(TwoSteps(), a, 0) && 0 in a.db.steps && a.db.steps[0].status == Succeeded
    ensures a.ready == {} && IsReady(a.db, 1) && a.db.steps[1].copies && !HasBatches(a.db, 1)
  {
    var w := TwoSteps();
    assert w.db.jobs[0].step == 0 && 0 in a.db.jobs;
    assert a.db.steps[1] == w.db.steps[1] && DepsDone(a.db, 1);
    forall j | j in a.db.jobs ensures a.db.jobs[j].step == 0 {
      assert j !in w.db.jobs || SameOwner(w.db.jobs[j], a.db.jobs[j]);
    }
  }

  // A run from its start: the first step succeeds, the second is expanded, its worker dies, its job is
  // requeued, and the second expansion fails.
  lemma StartedJams() returns (w: World, first: seq<Event>, k: nat, j: nat, v: World)
    ensures Started(w)
    ensures Possible(w, first + [Expand(k, 1), Crash(k), Requeue({j}), Claim(k, j), Begin(k), Expand(k, 1)])
    ensures After(w, first + [Expand(k, 1), Crash(k), Requeue({j}), Claim(k, j), Begin(k), Expand(k, 1)]) == v
    ensures At(v, k, HandlerErr) && v.flights[k].job == j && v.flights[k].batch.None?
  {
    hide Started, Sound, Startable, Hope, Leads, Possible, After;
    w := TwoSteps();
    TwoStepsStart();
    var es1, a := Process(w, 0, 0);
    LeadsSound(w, es1, a, 0, 0);
    LeadsGoes(w, es1, a, 0, 0);
    GoesRuns(w, es1, a, 0, 0);
    CopyIsReady(a);
    k := FreshWorker(a.flights.Keys);
    var es2, b := Dispatched(a, 1, k);
    Then(w, es1, es2);
    first := es1 + es2;
    j := b.flights[k].job;
    v := SecondExpansionFails(b, k, 1);
    Then(w, first, [Expand(k, 1), Crash(k), Requeue({j}), Claim(k, j), Begin(k), Expand(k, 1)]);
  }
}
