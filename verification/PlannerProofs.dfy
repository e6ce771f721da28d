/** The graph of a plan: closed, acyclic exactly when the views are, and what create_fk waits for. */
module PlannerProofs {
  import opened StepGraph
  import opened Planner
  import Levels

  lemma {:induction false} IdsArePositions(steps: seq<Step>)
    requires forall k :: 0 <= k < |steps| ==> steps[k].id == k
    ensures forall d: nat :: d in ById(steps) <==> d < |steps|
    ensures forall d: nat :: d < |steps| ==> ById(steps)[d] == d
  {
    if steps != [] {
      IdsArePositions(steps[..|steps| - 1]);
    }
  }

  lemma EdgesAreDeps(steps: seq<Step>, i: nat, j: nat)
    requires (forall k :: 0 <= k < |steps| ==> steps[k].id == k) && i < |steps|
    ensures Edge(steps, i, j) <==> j in steps[i].deps && j < |steps|
  {
    IdsArePositions(steps);
  }

  lemma InPositions(from: nat, to: nat, d: nat)
    requires from <= to
    ensures d in Positions(from, to) <==> from <= d < to
  {
    if from <= d < to {
      assert Positions(from, to)[d - from] == d;
    }
  }

  // Dependencies that are not between views go to earlier steps.
  lemma DepsGoBack(src: Source, opts: Options, steps: seq<Step>, l: Layout, i: nat, d: nat)
    requires Planned(src, opts, steps, l) && i < |steps| && d in steps[i].deps
    ensures d < |steps| && d != i
    ensures i < Views(l) || i >= l.routines ==> d < i
    ensures Views(l) <= i < l.routines ==> d == l.fk || Views(l) <= d < l.routines
    ensures l.routines <= i < l.validate ==> d < l.routines
  {
    if i == l.fk {
      InPositions(l.indexes, l.fk, d);
    } else if l.indexes <= i < l.fk {
      assert IndexesLastCopy(src, opts, steps[i], l);
    } else if i == l.validate {
      InPositions(0, l.validate, d);
    } else if Views(l) <= i < l.routines {
      assert ViewDeps(src, steps, l, i);
    } else if l.routines <= i < l.validate {
      assert RoutineDeps(src, steps, l, i);
    }
  }

  lemma PlanClosed(src: Source, opts: Options, steps: seq<Step>, l: Layout)
    requires Planned(src, opts, steps, l)
    ensures Closed(steps) && DistinctIds(steps)
  {
    forall i | 0 <= i < |steps|
      ensures forall d <- steps[i].deps :: exists j :: 0 <= j < |steps| && steps[j].id == d
    {
      forall d | d in steps[i].deps ensures exists j :: 0 <= j < |steps| && steps[j].id == d {
        DepsGoBack(src, opts, steps, l, i, d);
        assert steps[d].id == d;
      }
    }
  }

  /* ---- acyclic exactly when the view references are ---- */

  // View f is the first of its name, and j the last one of another name, which f reads.
  ghost predicate FirstReadsLast(views: seq<View>, f: nat, j: nat)
    requires f < |views| && j < |views|
  {
    && views[j].name in views[f].uses && views[j].name != views[f].name
    && (forall m :: 0 <= m < f ==> views[m].name != views[f].name)
    && (forall m :: j < m < |views| ==> views[m].name != views[j].name)
  }

  // View i, looked up by its name, reads the view that step j creates.
  ghost predicate Refers(src: Source, i: nat, j: nat)
    requires i < |src.views| && j < |src.views|
  {
    exists f :: 0 <= f <= i && src.views[f].name == src.views[i].name && FirstReadsLast(src.views, f, j)
  }

  ghost predicate ViewsRanked(src: Source, vr: seq<nat>) {
    |vr| == |src.views| && forall i, j :: 0 <= i < |vr| && 0 <= j < |vr| && Refers(src, i, j) ==> vr[j] < vr[i]
  }

  ghost predicate ViewsAcyclic(src: Source) {
    exists vr :: ViewsRanked(src, vr)
  }

  lemma ViewEdge(src: Source, opts: Options, steps: seq<Step>, l: Layout, i: nat, j: nat)
    requires Planned(src, opts, steps, l) && i < |src.views| && j < |src.views|
    ensures Edge(steps, Views(l) + i, Views(l) + j) <==> Refers(src, i, j)
  {
    hide Edge, Skeleton, Indexed, Refers, Tail;
    EdgesAreDeps(steps, Views(l) + i, Views(l) + j);
    ViewWaits(src, opts, steps, l, i, j);
  }

  // The step of view i waits for the step of view j exactly when, of the views with the name of i, the first one
  // reads j's name, and j is the last view of its name, which is not the name of i.
  lemma ViewWaits(src: Source, opts: Options, steps: seq<Step>, l: Layout, i: nat, j: nat)
    requires Planned(src, opts, steps, l) && i < |src.views| && j < |src.views|
    ensures Views(l) + j in steps[Views(l) + i].deps <==> Refers(src, i, j)
  {
    hide Skeleton, Indexed, ReadsView, Refers, RoutineDeps;
    assert ViewDeps(src, steps, l, Views(l) + i);
    RefersExactly(src, l, i, j);
  }

  lemma RefersExactly(src: Source, l: Layout, i: nat, j: nat)
    requires i < |src.views| && j < |src.views|
    ensures ReadsView(src, l, src.views[i].name, Views(l) + j) <==> Refers(src, i, j)
  {
    var name, names := src.views[i].name, Names(src.views);
    assert forall m :: 0 <= m < |names| ==> names[m] == src.views[m].name;
    if f :| FirstAt(names, name, f) && UsesView(src, l, src.views[f].uses - {name}, Views(l) + j) {
      var n :| n in src.views[f].uses - {name} && LastAt(names, n, j);
      assert FirstReadsLast(src.views, f, j);
    }
    if Refers(src, i, j) {
      var f :| 0 <= f <= i && src.views[f].name == name && FirstReadsLast(src.views, f, j);
      assert FirstAt(names, name, f) && LastAt(names, src.views[j].name, Views(l) + j - Views(l));
      assert src.views[j].name in src.views[f].uses - {name};
      assert UsesView(src, l, src.views[f].uses - {name}, Views(l) + j);
    }
  }

  // With distinct names the step of a view waits for the steps of the other views it reads, and no others.
  lemma DistinctViewsWait(src: Source, opts: Options, steps: seq<Step>, l: Layout, i: nat, j: nat)
    requires Planned(src, opts, steps, l) && i < |src.views| && j < |src.views|
    requires forall a, b :: 0 <= a < b < |src.views| ==> src.views[a].name != src.views[b].name
    ensures Views(l) + j in steps[Views(l) + i].deps <==> j != i && src.views[j].name in src.views[i].uses
  {
    hide Planned;
    ViewWaits(src, opts, steps, l, i, j);
    if j != i && src.views[j].name in src.views[i].uses {
      assert FirstReadsLast(src.views, i, j);
    }
  }

  // A routine waits for create_fk and the last view of each name it reads.
  lemma RoutineWaits(src: Source, opts: Options, steps: seq<Step>, l: Layout, r: nat, j: nat)
    requires Planned(src, opts, steps, l) && r < |src.routines| && j < |src.views|
    ensures l.fk in steps[l.routines + r].deps
    ensures Views(l) + j in steps[l.routines + r].deps <==>
      && src.views[j].name in src.routines[r].uses
      && forall m :: j < m < |src.views| ==> src.views[m].name != src.views[j].name
  {
    hide Skeleton, Indexed;
    var k, d, names := l.routines + r, Views(l) + j, Names(src.views);
    assert RoutineDeps(src, steps, l, k);
    assert forall m :: 0 <= m < |names| ==> names[m] == src.views[m].name;
    if src.views[j].name in src.routines[r].uses && forall m :: j < m < |names| ==> names[m] != src.views[j].name {
      assert LastAt(names, src.views[j].name, j);
    }
  }

  // Unless data is skipped every table and every history table has its copy step, and nothing else has one.
  lemma CopiesExactly(src: Source, opts: Options, steps: seq<Step>, l: Layout)
    requires Planned(src, opts, steps, l)
    ensures !opts.skipData ==>
      && (forall k :: 0 <= k < |src.tables| ==>
            steps[l.ddl + 1 + k].kind == CopyTable && steps[l.ddl + 1 + k].target == src.tables[k])
      && (forall k, n :: 0 <= k < |src.histories| && n == l.ddl + 1 + |src.tables| + k ==>
            steps[n].kind == CopyTable && steps[n].target == src.histories[k])
    ensures forall n :: 0 <= n < |steps| && steps[n].kind == CopyTable ==>
      !opts.skipData && l.ddl < n <= l.ddl + |src.tables| + |src.histories|
  {
    hide Tail, LastAt, Positions;
    forall n | 0 <= n < |steps| && !(l.ddl < n < l.indexes) ensures steps[n].kind != CopyTable {
      OtherKinds(src, opts, steps, l, n);
    }
    var copies := CopyTargets(src, opts);
    if !opts.skipData {
      assert forall k :: 0 <= k < |src.tables| ==> copies[k] == src.tables[k];
      assert forall k :: 0 <= k < |src.histories| ==> copies[|src.tables| + k] == src.histories[k];
    }
  }

  lemma OtherKinds(src: Source, opts: Options, steps: seq<Step>, l: Layout, n: nat)
    requires Planned(src, opts, steps, l) && n < |steps| && !(l.ddl < n < l.indexes)
    ensures steps[n].kind != CopyTable
  {
    hide ViewDeps, RoutineDeps, LastAt, Positions;
    if l.indexes <= n < l.fk {
      assert IndexesLastCopy(src, opts, steps[n], l);
    }
  }

  function Top(vr: seq<nat>): (m: nat)
    ensures forall v <- vr :: v <= m
  {
    if vr == [] then 0
    else
      var n := |vr| - 1;
      var m := Top(vr[..n]);
      assert vr == vr[..n] + [vr[n]];
      if vr[|vr| - 1] > m then vr[|vr| - 1] else m
  }

  // Positions rank the plan, but for the views, which come in the order of their references.
  function RankAt(l: Layout, vr: seq<nat>, k: nat): nat
    requires Views(l) <= l.routines && |vr| == l.routines - Views(l)
  {
    if k < Views(l) then k
    else if k < l.routines then Views(l) + vr[k - Views(l)]
    else if k < l.validate then Views(l) + Top(vr) + 1
    else Views(l) + Top(vr) + 2
  }

  lemma RankFalls(src: Source, opts: Options, steps: seq<Step>, l: Layout, vr: seq<nat>, i: nat, j: nat)
    requires Planned(src, opts, steps, l) && ViewsRanked(src, vr) && i < |steps| && j < |steps| && Edge(steps, i, j)
    ensures RankAt(l, vr, j) < RankAt(l, vr, i)
  {
    hide Skeleton, Indexed, Tail, Edge, Refers;
    EdgesAreDeps(steps, i, j);
    DepsGoBack(src, opts, steps, l, i, j);
    if Views(l) <= j < l.routines {
      assert vr[j - Views(l)] in vr;
      if Views(l) <= i < l.routines {
        ViewEdge(src, opts, steps, l, i - Views(l), j - Views(l));
      }
    }
  }

  lemma PlanRanked(src: Source, opts: Options, steps: seq<Step>, l: Layout, vr: seq<nat>) returns (rank: seq<nat>)
    requires Planned(src, opts, steps, l) && ViewsRanked(src, vr)
    ensures Ranked(steps, rank)
  {
    rank := seq(|steps|, k requires 0 <= k < |steps| => RankAt(l, vr, k));
    forall i, j | 0 <= i < |steps| && 0 <= j < |steps| && Edge(steps, i, j) ensures rank[j] < rank[i] {
      RankFalls(src, opts, steps, l, vr, i, j);
    }
  }

  lemma PlanAcyclicExactly(src: Source, opts: Options, steps: seq<Step>, l: Layout)
    requires Planned(src, opts, steps, l)
    ensures Acyclic(steps) <==> ViewsAcyclic(src)
  {
    if ViewsAcyclic(src) {
      var vr :| ViewsRanked(src, vr);
      var rank := PlanRanked(src, opts, steps, l, vr);
    }
    if Acyclic(steps) {
      var rank :| Ranked(steps, rank);
      var vr := rank[Views(l)..l.routines];
      forall i, j | 0 <= i < |vr| && 0 <= j < |vr| && Refers(src, i, j) ensures vr[j] < vr[i] {
        ViewEdge(src, opts, steps, l, i, j);
      }
      assert ViewsRanked(src, vr);
    }
  }

  /* ---- what create_fk waits for ---- */

  lemma {:induction false} ChainStays(steps: seq<Step>, path: seq<nat>, inside: set<nat>)
    requires Chain(steps, path) && path[0] in inside
    requires forall i, j :: 0 <= i < |steps| && i in inside && Edge(steps, i, j) ==> j in inside
    ensures path[|path| - 1] in inside
  {
    if |path| > 1 {
      assert Chain(steps, path[1..]);
      ChainStays(steps, path[1..], inside);
    }
  }

  predicate LastCopy(targets: seq<string>, i: int) {
    0 <= i < |targets| && LastAt(targets, targets[i], i)
  }

  // What create_fk can reach: itself, the indexes, the last copy of each name, and what comes
  // before the copies when there is a copy.
  predicate IsBelowFk(src: Source, opts: Options, l: Layout, k: nat) {
    || l.indexes <= k <= l.fk
    || (l.ddl < k < l.indexes && LastCopy(CopyTargets(src, opts), k - l.ddl - 1))
    || (k <= l.ddl && (opts.skipData || CopyTargets(src, opts) != []))
  }

  function BelowFk(src: Source, opts: Options, l: Layout): set<nat> {
    set k: nat | k <= l.indexes + l.fk && IsBelowFk(src, opts, l, k)
  }

  lemma BelowFkClosed(src: Source, opts: Options, steps: seq<Step>, l: Layout, i: nat, j: nat)
    requires Planned(src, opts, steps, l) && i < |steps| && i in BelowFk(src, opts, l) && Edge(steps, i, j)
    ensures j in BelowFk(src, opts, l)
  {
    hide Tail, Edge;
    EdgesAreDeps(steps, i, j);
    DepsGoBack(src, opts, steps, l, i, j);
    if i == l.fk {
      InPositions(l.indexes, l.fk, j);
    } else if l.indexes <= i {
      assert IndexesLastCopy(src, opts, steps[i], l);
    }
  }

  lemma FkReachesOnly(src: Source, opts: Options, steps: seq<Step>, l: Layout, j: nat)
    requires Planned(src, opts, steps, l) && Reaches(steps, l.fk, j)
    ensures j in BelowFk(src, opts, l)
  {
    var path :| Chain(steps, path) && path[0] == l.fk && path[|path| - 1] == j;
    forall i, k | 0 <= i < |steps| && i in BelowFk(src, opts, l) && Edge(steps, i, k)
      ensures k in BelowFk(src, opts, l)
    {
      BelowFkClosed(src, opts, steps, l, i, k);
    }
    ChainStays(steps, path, BelowFk(src, opts, l));
  }

  lemma FkReachesLastCopy(src: Source, opts: Options, steps: seq<Step>, l: Layout, c: nat)
    requires Planned(src, opts, steps, l) && l.ddl < c < l.indexes
    requires LastAt(CopyTargets(src, opts), CopyTargets(src, opts)[c - l.ddl - 1], c - l.ddl - 1)
    ensures Reaches(steps, l.fk, c)
  {
    var t := CopyTargets(src, opts)[c - l.ddl - 1];
    assert t in CopyTargets(src, opts);
    var x :| l.indexes <= x < l.fk && steps[x].target == t;
    assert IndexesLastCopy(src, opts, steps[x], l);
    assert steps[x].deps[0] == c;
    InPositions(l.indexes, l.fk, x);
    EdgesAreDeps(steps, l.fk, x);
    EdgesAreDeps(steps, x, c);
    ReachesEdge(steps, l.fk, x);
    ReachesEdge(steps, x, c);
    ReachesThrough(steps, l.fk, x, c);
  }

  // Of the copies of one name, create_fk waits for the last one only.
  lemma FkReachesCopyExactly(src: Source, opts: Options, steps: seq<Step>, l: Layout, c: nat)
    requires Planned(src, opts, steps, l) && l.ddl < c < l.indexes
    ensures Reaches(steps, l.fk, c) <==> LastCopy(CopyTargets(src, opts), c - l.ddl - 1)
  {
    if LastCopy(CopyTargets(src, opts), c - l.ddl - 1) {
      FkReachesLastCopy(src, opts, steps, l, c);
    }
    if Reaches(steps, l.fk, c) {
      FkReachesOnly(src, opts, steps, l, c);
    }
  }

  ghost predicate Distinct(names: seq<string>) {
    forall i, j :: 0 <= i < j < |names| ==> names[i] != names[j]
  }

  // create_fk, which installs the versioning triggers, waits for every copy exactly when no two
  // copies have the same target.
  lemma FkWaitsForCopiesExactly(src: Source, opts: Options, steps: seq<Step>, l: Layout)
    requires Planned(src, opts, steps, l)
    ensures (forall c :: l.ddl < c < l.indexes ==> Reaches(steps, l.fk, c)) <==> Distinct(CopyTargets(src, opts))
  {
    var targets := CopyTargets(src, opts);
    if Distinct(targets) {
      forall c | l.ddl < c < l.indexes ensures Reaches(steps, l.fk, c) {
        FkReachesLastCopy(src, opts, steps, l, c);
      }
    } else {
      var i, j :| 0 <= i < j < |targets| && targets[i] == targets[j];
      FkReachesCopyExactly(src, opts, steps, l, l.ddl + 1 + i);
    }
  }

  lemma CopyWaitsForDdl(src: Source, opts: Options, steps: seq<Step>, l: Layout, c: nat)
    requires Planned(src, opts, steps, l) && l.ddl < c < l.indexes
    ensures Reaches(steps, c, l.ddl)
  {
    EdgesAreDeps(steps, c, l.ddl);
    ReachesEdge(steps, c, l.ddl);
  }

  // create_fk waits for create_ddl exactly when data is skipped at planning time or there is a
  // table to copy: with no table it has no dependency at all.
  lemma FkWaitsForDdlExactly(src: Source, opts: Options, steps: seq<Step>, l: Layout)
    requires Planned(src, opts, steps, l)
    ensures Reaches(steps, l.fk, l.ddl) <==> opts.skipData || CopyTargets(src, opts) != []
  {
    var targets := CopyTargets(src, opts);
    if opts.skipData {
      EdgesAreDeps(steps, l.fk, l.ddl);
      ReachesEdge(steps, l.fk, l.ddl);
    } else if targets != [] {
      var c := l.ddl + |targets|;
      FkReachesLastCopy(src, opts, steps, l, c);
      CopyWaitsForDdl(src, opts, steps, l, c);
      ReachesThrough(steps, l.fk, c, l.ddl);
    } else if Reaches(steps, l.fk, l.ddl) {
      FkReachesOnly(src, opts, steps, l, l.ddl);
    }
  }

  // The whole planner: the steps of Build, their levels assigned in place. It returns exactly when no
  // view refers to itself through others.
  method BuildLeveled(src: Source, opts: Options, depth: nat)
    returns (ok: bool, steps: array<Step>, ghost planned: seq<Step>, ghost l: Layout)
    requires RoutineNames(src)
    ensures Planned(src, opts, planned, l) && steps.Length == |planned|
    ensures ok ==> ViewsAcyclic(src) && Levels.SameSteps(steps[..], planned)
    ensures ViewsAcyclic(src) && depth >= steps.Length ==> ok
    ensures ok ==> forall i :: 0 <= i < steps.Length ==> IsLongest(planned, i, steps[i].level)
    ensures ok ==> forall i, j :: 0 <= i < steps.Length && 0 <= j < steps.Length && Edge(planned, i, j) ==>
      steps[j].level < steps[i].level
  {
    var p := new Plan();
    l := p.Build(src, opts);
    planned := p.steps;
    var all := p.steps;
    steps := new Step[|all|](i requires 0 <= i < |all| => all[i]);
    assert steps[..] == planned;
    PlanAcyclicExactly(src, opts, planned, l);
    ok := Levels.AssignLevels(steps, depth);
    if ok {
      forall i, j | 0 <= i < steps.Length && 0 <= j < steps.Length && Edge(planned, i, j)
        ensures steps[j].level < steps[i].level
      {
        Levels.EdgeLowersLevel(planned, i, j, steps[i].level, steps[j].level);
      }
    }
  }
}
