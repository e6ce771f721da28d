/** Plans, levels assigned, as startRun reads them back; and what is lost in a run without data. */
module SkippedPlan {
  import opened Wrappers
  import opened StepGraph
  import opened Planner
  import opened PlannerProofs
  import Levels
  import SkipData
  import StartRun

  // What the planner stores can be started.
  lemma PlanStartable(src: Source, opts: Options, planned: seq<Step>, l: Layout, steps: seq<Step>)
    requires Planned(src, opts, planned, l) && Levels.SameSteps(steps, planned)
    requires forall i :: 0 <= i < |steps| ==> IsLongest(planned, i, steps[i].level)
    ensures StartRun.Startable(steps)
  {
    hide IsLongest, Skeleton, Indexed, Tail;
    PlanClosed(src, opts, planned, l);
    IdsArePositions(planned);
    forall i | 0 <= i < |steps|
      ensures forall d <- steps[i].deps :: exists j :: 0 <= j < |steps| && steps[j].id == d
    {
      assert steps[i].deps == planned[i].deps;
      forall d | d in steps[i].deps ensures exists j :: 0 <= j < |steps| && steps[j].id == d {
        var j :| 0 <= j < |planned| && planned[j].id == d;
        assert steps[j].id == d;
      }
    }
    forall i, j | 0 <= i < |steps| && 0 <= j < |steps| && steps[j].id in steps[i].deps
      ensures steps[j].level < steps[i].level
    {
      assert steps[j].id == planned[j].id == j;
      EdgesAreDeps(planned, i, j);
      Levels.EdgeLowersLevel(planned, i, j, steps[i].level, steps[j].level);
    }
    forall i | 0 <= i < |steps| ensures steps[i].level >= 0 {
      LongestIsNat(planned, i, steps[i].level);
    }
    FirstStep(src, opts, planned, l);
    LongestOfRoot(planned, steps[0].level);
  }

  lemma LongestIsNat(steps: seq<Step>, i: nat, n: int)
    requires IsLongest(steps, i, n)
    ensures n >= 0
  {}

  lemma FirstStep(src: Source, opts: Options, steps: seq<Step>, l: Layout)
    requires Planned(src, opts, steps, l)
    ensures steps[0].deps == [] && !SkipData.IsDropped(steps[0]) && |steps| > 0
  {}

  lemma ChainGoesOn(steps: seq<Step>, path: seq<nat>)
    requires Chain(steps, path)
    ensures |path| == 1 || exists j :: Edge(steps, path[0], j)
  {
    if |path| > 1 {
      assert Edge(steps, path[0], path[1]);
    }
  }

  lemma LongestOfRoot(steps: seq<Step>, n: int)
    requires steps != [] && steps[0].deps == [] && IsLongest(steps, 0, n)
    ensures n == 0
  {
    assert Chain(steps, [0]);
    var path :| Chain(steps, path) && path[0] == 0 && |path| == n + 1;
    assert forall j :: !Edge(steps, 0, j);
    ChainGoesOn(steps, path);
  }

  /* ---- what a run without data no longer waits for ---- */

  lemma DroppedExactly(src: Source, opts: Options, steps: seq<Step>, l: Layout, d: nat)
    requires Planned(src, opts, steps, l) && d < |steps|
    ensures SkipData.DroppedId(steps, d) <==> l.ddl < d < l.indexes || d == l.validate
  {
    if SkipData.DroppedId(steps, d) {
      var s :| s in steps && s.id == d && SkipData.IsDropped(s);
      assert s == steps[d];
    }
    if l.indexes <= d < l.fk {
      assert IndexesLastCopy(src, opts, steps[d], l);
    }
    assert steps[d] in steps && steps[d].id == d;
    assert d < l.ddl ==> steps[d].kind == CreateTargetDb || steps[d].kind == Inspect;
  }

  lemma RootIsZero(src: Source, opts: Options, steps: seq<Step>, l: Layout)
    requires Planned(src, opts, steps, l)
    ensures SkipData.RootAfter(steps, 0) == Some(0)
  {
    FirstStep(src, opts, steps, l);
    DroppedExactly(src, opts, steps, l, 0);
  }

  // What create_fk can reach once the data steps are dropped from a plan made with them.
  predicate BelowSkippedFk(l: Layout, id: nat) {
    id == 0 || l.indexes <= id <= l.fk
  }

  lemma SkippedEdge(src: Source, opts: Options, steps: seq<Step>, l: Layout, i: nat, d: nat)
    requires Planned(src, opts, steps, l) && !opts.skipData && i < |SkipData.Filtered(steps)|
    requires BelowSkippedFk(l, SkipData.Filtered(steps)[i].id) && d in SkipData.Filtered(steps)[i].deps
    ensures BelowSkippedFk(l, d)
  {
    hide Tail, SkipData.Rerouted, SkipData.DroppedId;
    var p := SkipData.LeftFrom(steps, |steps|, i);
    SkipData.ReroutedExactly(steps, SkipData.RootAfter(steps, 0), steps[p].id, steps[p].deps);
    RootIsZero(src, opts, steps, l);
    FirstStep(src, opts, steps, l);
    if d != 0 {
      assert d in steps[p].deps && !SkipData.DroppedId(steps, d);
      if p == l.fk {
        InPositions(l.indexes, l.fk, d);
      } else if p != 0 {
        assert IndexesLastCopy(src, opts, steps[p], l);
        DroppedExactly(src, opts, steps, l, d);
      }
    }
  }

  // In a run started without data, create_fk, and so every view and routine, still waits for
  // create_ddl exactly when data was already skipped at planning time. Otherwise the index steps,
  // which waited for create_ddl through the copies, are rerouted to the first step of all.
  lemma SkippedFkWaitsForDdlExactly(src: Source, opts: Options, steps: seq<Step>, l: Layout, fk: nat, ddl: nat)
    requires Planned(src, opts, steps, l)
    requires fk < |SkipData.Filtered(steps)| && SkipData.Filtered(steps)[fk].id == l.fk
    requires ddl < |SkipData.Filtered(steps)| && SkipData.Filtered(steps)[ddl].id == l.ddl
    ensures Reaches(SkipData.Filtered(steps), fk, ddl) <==> opts.skipData
  {
    hide Skeleton, Indexed, Tail, SkipData.Filtered, SkipData.DroppedId, SkipData.Rerouted;
    var left := SkipData.Filtered(steps);
    if opts.skipData {
      SkippedFkEdge(src, opts, steps, l, fk, ddl);
      ReachesEdge(left, fk, ddl);
    } else {
      var inside := set i: nat | i < |left| && BelowSkippedFk(l, left[i].id);
      forall i, j | 0 <= i < |left| && i in inside && Edge(left, i, j) ensures j in inside {
        var d :| d in left[i].deps && d in ById(left) && ById(left)[d] == j;
        SkippedEdge(src, opts, steps, l, i, d);
      }
      if Reaches(left, fk, ddl) {
        var path :| Chain(left, path) && path[0] == fk && path[|path| - 1] == ddl;
        ChainStays(left, path, inside);
      }
    }
  }

  lemma SkippedFkEdge(src: Source, opts: Options, steps: seq<Step>, l: Layout, fk: nat, ddl: nat)
    requires Planned(src, opts, steps, l) && opts.skipData
    requires fk < |SkipData.Filtered(steps)| && SkipData.Filtered(steps)[fk].id == l.fk
    requires ddl < |SkipData.Filtered(steps)| && SkipData.Filtered(steps)[ddl].id == l.ddl
    ensures Edge(SkipData.Filtered(steps), fk, ddl)
  {
    hide Tail, SkipData.Rerouted, SkipData.DroppedId, SkipData.Left;
    var left := SkipData.Filtered(steps);
    var p := SkipData.LeftFrom(steps, |steps|, fk);
    SkipData.ReroutedExactly(steps, SkipData.RootAfter(steps, 0), steps[p].id, steps[p].deps);
    DroppedExactly(src, opts, steps, l, l.ddl);
    assert l.ddl in left[fk].deps;
    SkipData.LeftDistinct(steps, |steps|);
    assert left[ById(left)[l.ddl]].id == l.ddl;
  }
}
