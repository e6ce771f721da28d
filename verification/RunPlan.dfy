/** From the plan to its run: what create_fk has waited for when it starts. */
module RunPlan {
  import opened Wrappers
  import opened StepGraph
  import opened RunDb
  import opened RunEvents
  import opened RunOrder
  import RunVerdict
  import RunStore
  import RunQueue
  import Planner
  import PlannerProofs
  import Levels
  import SkipData
  import StartRun

  // The tables just after startRun.
  ghost predicate Stored(plan: seq<Step>, auto: bool, db: Db) {
    && db.run == RunRunning && db.batches == map[]
    && db.steps.Keys == (set s <- plan :: s.id) && (forall s <- plan :: db.steps[s.id] == RunStore.RowOf(s, auto))
    && (forall j <- db.jobs :: j < db.next && RunStore.FirstOf(plan, db.jobs[j]))
    && (forall i, j :: i in db.jobs && j in db.jobs && db.jobs[i].step == db.jobs[j].step ==> i == j)
  }

  function Begin(db: Db): World {
    World(db, map[], {})
  }

  lemma StoredStarted(plan: seq<Step>, auto: bool, db: Db)
    requires Stored(plan, auto, db) && DistinctIds(plan) && SkipData.Leveled(plan) && forall s <- plan :: s.level >= 0
    ensures Started(Begin(db)) && RunVerdict.Leveled(db)
  {
    forall j | j in db.jobs ensures FirstJob(db, db.jobs[j]) {
      assert RunStore.FirstOf(plan, db.jobs[j]);
    }
    forall s, d | s in db.steps && d in db.steps[s].deps && d in db.steps
      ensures db.steps[d].level < db.steps[s].level
    {
      var i :| 0 <= i < |plan| && plan[i].id == s;
      var j :| 0 <= j < |plan| && plan[j].id == d;
      assert plan[i] in plan && plan[j] in plan;
    }
  }

  // A walk in the plan is a walk in the rows.
  lemma ReachesRows(plan: seq<Step>, auto: bool, db: Db, i: nat, j: nat)
    requires Stored(plan, auto, db) && Reaches(plan, i, j) && i < |plan| && j < |plan|
    ensures WaitsFor(db, plan[i].id, plan[j].id)
  {
    var path :| Chain(plan, path) && path[0] == i && path[|path| - 1] == j;
    var walk := seq(|path|, k requires 0 <= k < |path| => plan[path[k]].id);
    forall k | 0 <= k < |walk| ensures walk[k] in db.steps && db.steps[walk[k]] == RunStore.RowOf(plan[path[k]], auto) {
      assert plan[path[k]] in plan;
    }
    forall k | 0 <= k < |walk| - 1 ensures walk[k + 1] in db.steps[walk[k]].deps {
      assert Edge(plan, path[k], path[k + 1]);
      var d :| d in plan[path[k]].deps && d in ById(plan) && ById(plan)[d] == path[k + 1];
    }
    assert Walk(db, walk);
  }

  ghost predicate SameGraph(a: Db, b: Db) {
    a.steps.Keys == b.steps.Keys && forall s <- a.steps :: a.steps[s].deps == b.steps[s].deps
  }

  lemma WaitsForStays(a: Db, b: Db, s: nat, t: nat)
    requires SameGraph(a, b) && WaitsFor(a, s, t)
    ensures WaitsFor(b, s, t)
  {
    var path :| Walk(a, path) && path[0] == s && path[|path| - 1] == t;
    assert Walk(b, path);
  }

  lemma GraphStep(w: World, e: Event)
    requires Safe(w) && Enabled(w, e)
    ensures SameGraph(w.db, Next(w, e).db)
  {
    hide Descendants, FromLevel, RunQueue.OneJob, Settled;
    if !IsReplay(e) {
      hide Next;
      KeepsStep(w, e);
    }
  }

  lemma {:induction false} GraphAlong(w: World, es: seq<Event>)
    requires Safe(w) && Possible(w, es) && CalmRun(w, es)
    ensures SameGraph(w.db, After(w, es).db)
    decreases |es|
  {
    if es != [] {
      GraphStep(w, es[0]);
      SafeKept(w, es[0]);
      hide Next, Safe, Enabled, Calm;
      GraphAlong(Next(w, es[0]), es[1..]);
    }
  }

  lemma {:induction false} SameIds(a: seq<Step>, b: seq<Step>)
    requires Levels.SameSteps(a, b)
    ensures ById(a) == ById(b)
  {
    if a != [] {
      SameIds(a[..|a| - 1], b[..|b| - 1]);
    }
  }

  // The stored, renamed plan has the walks of the one that was built.
  lemma ReachesRun(planned: seq<Step>, steps: seq<Step>, minted: seq<nat>, run: seq<Step>, i: nat, j: nat)
    requires Levels.SameSteps(steps, planned) && StartRun.Fresh(steps, minted)
    requires StartRun.AllRenamed(steps, minted, run)
    requires Reaches(planned, i, j)
    ensures Reaches(run, i, j)
  {
    hide StartRun.AllRenamed, StartRun.Fresh;
    var path :| Chain(planned, path) && path[0] == i && path[|path| - 1] == j;
    SameIds(steps, planned);
    RunLength(steps, minted, run);
    forall k | 0 <= k < |path| - 1 ensures Edge(run, path[k], path[k + 1]) {
      assert Edge(planned, path[k], path[k + 1]);
      StartRun.RemapKeepsEdges(steps, minted, run, path[k], path[k + 1]);
    }
    assert Chain(run, path);
  }

  lemma RunLength(steps: seq<Step>, minted: seq<nat>, run: seq<Step>)
    requires StartRun.AllRenamed(steps, minted, run)
    ensures |run| == |steps|
  {}

  // A step that runs, or only has a job, was preceded by everything the plan makes it wait for.
  lemma AfterAncestors(run: seq<Step>, auto: bool, db: Db, es: seq<Event>, i: nat, j: nat)
    requires Stored(run, auto, db) && DistinctIds(run) && SkipData.Leveled(run) && forall s <- run :: s.level >= 0
    requires Possible(Begin(db), es) && CalmRun(Begin(db), es)
    requires i < |run| && j < |run| && run[i].id != run[j].id && Reaches(run, i, j)
    requires run[i].id in After(Begin(db), es).db.steps && Touched(After(Begin(db), es), run[i].id)
    ensures run[j].id in After(Begin(db), es).db.steps && After(Begin(db), es).db.steps[run[j].id].status == Succeeded
  {
    hide Stored, Possible, CalmRun, After, Touched;
    StoredStarted(run, auto, db);
    hide Started, RunVerdict.Leveled, Safe;
    StartedSafe(Begin(db));
    GraphAlong(Begin(db), es);
    SafeAlong(Begin(db), es);
    ReachesRows(run, auto, db, i, j);
    WaitsForStays(db, After(Begin(db), es).db, run[i].id, run[j].id);
    AncestorsDone(After(Begin(db), es), run[i].id);
  }

  // In an unfiltered run whose copies have distinct targets, whatever happens in it short of the four
  // hazards, create_fk, which installs the versioning triggers, has no job before every copy succeeded.
  lemma TriggersAfterCopies(src: Planner.Source, opts: Planner.Options, planned: seq<Step>, l: Planner.Layout,
        steps: seq<Step>, minted: seq<nat>, run: seq<Step>, auto: bool, db: Db, es: seq<Event>, c: nat)
    requires Planner.Planned(src, opts, planned, l) && PlannerProofs.Distinct(Planner.CopyTargets(src, opts))
    requires Levels.SameSteps(steps, planned) && StartRun.Startable(steps)
    requires StartRun.Fresh(steps, minted) && StartRun.AllRenamed(steps, minted, run) && Stored(run, auto, db)
    requires Possible(Begin(db), es) && CalmRun(Begin(db), es)
    requires l.ddl < c < l.indexes < |run| && l.fk < |run|
    requires HasJob(After(Begin(db), es).db, run[l.fk].id) && run[l.fk].id in After(Begin(db), es).db.steps
    ensures run[c].id in After(Begin(db), es).db.steps && After(Begin(db), es).db.steps[run[c].id].status == Succeeded
  {
    hide Possible, CalmRun, After, Stored, StartRun.AllRenamed, StartRun.Fresh, HasJob;
    PlannerProofs.FkWaitsForCopiesExactly(src, opts, planned, l);
    assert Reaches(planned, l.fk, c);
    hide Reaches, Planner.Planned;
    assert l.indexes <= l.fk by {
      LayoutOrder(src, opts, planned, l);
    }
    ReachesRun(planned, steps, minted, run, l.fk, c);
    StartRun.RemapStartable(steps, minted, run);
    AfterAncestors(run, auto, db, es, l.fk, c);
  }

  lemma LayoutOrder(src: Planner.Source, opts: Planner.Options, planned: seq<Step>, l: Planner.Layout)
    requires Planner.Planned(src, opts, planned, l)
    ensures l.indexes <= l.fk
  {}
}
