/** Starting a run: fresh ids for the stored plan, then, for a run without data, its filtering. */
module StartRun {
  import opened Wrappers
  import opened StepGraph
  import SkipData

  /* ---- fresh ids ---- */

  // The new id of id: the fresh id of its last position, or itself when no step has it.
  function NewId(steps: seq<Step>, minted: seq<nat>, id: nat): nat
    requires |minted| == |steps|
  {
    if id in ById(steps) then minted[ById(steps)[id]] else id
  }

  function NewDeps(steps: seq<Step>, minted: seq<nat>, deps: seq<nat>): (r: seq<nat>)
    requires |minted| == |steps|
    ensures |r| == |deps| && forall k :: 0 <= k < |deps| ==> r[k] == NewId(steps, minted, deps[k])
  {
    if deps == [] then []
    else
      assert deps == deps[..|deps| - 1] + [deps[|deps| - 1]];
      NewDeps(steps, minted, deps[..|deps| - 1]) + [NewId(steps, minted, deps[|deps| - 1])]
  }

  function Renamed(steps: seq<Step>, minted: seq<nat>, s: Step): Step
    requires |minted| == |steps|
  {
    s.(id := NewId(steps, minted, s.id), deps := NewDeps(steps, minted, s.deps))
  }

  // Fresh ids are new: distinct from each other and from every id of the plan.
  ghost predicate Fresh(steps: seq<Step>, minted: seq<nat>) {
    && |minted| == |steps|
    && (forall i, j :: 0 <= i < j < |minted| ==> minted[i] != minted[j])
    && (forall i :: 0 <= i < |steps| ==> steps[i].id !in minted && forall d <- steps[i].deps :: d !in minted)
  }

  method MintIds(steps: array<Step>, minted: seq<nat>) returns (idMap: map<nat, nat>)
    requires |minted| == steps.Length
    ensures idMap.Keys == ById(steps[..]).Keys
    ensures forall id <- idMap :: idMap[id] == NewId(steps[..], minted, id)
  {
    idMap := map[];
    var i := 0;
    while i < steps.Length
      invariant i <= steps.Length
      invariant idMap.Keys == ById(steps[..i]).Keys
      invariant forall id <- idMap :: idMap[id] == minted[ById(steps[..i])[id]]
    {
      ByIdSnoc(steps[..i], steps[i]);
      assert steps[..i + 1] == steps[..i] + [steps[i]];
      idMap := idMap[steps[i].id := minted[i]];
      i := i + 1;
    }
    assert steps[..i] == steps[..];
  }

  method RemapDeps(deps: seq<nat>, idMap: map<nat, nat>, ghost plan: seq<Step>, ghost minted: seq<nat>)
    returns (newDeps: seq<nat>)
    requires |minted| == |plan| && idMap.Keys == ById(plan).Keys
    requires forall id <- idMap :: idMap[id] == NewId(plan, minted, id)
    ensures newDeps == NewDeps(plan, minted, deps)
  {
    newDeps := [];
    var k := 0;
    while k < |deps|
      invariant k <= |deps| && newDeps == NewDeps(plan, minted, deps[..k])
    {
      assert deps[..k + 1][..k] == deps[..k];
      newDeps := newDeps + [if deps[k] in idMap then idMap[deps[k]] else deps[k]];
      k := k + 1;
    }
    assert deps[..k] == deps;
  }

  method Remap(steps: array<Step>, minted: seq<nat>)
    requires |minted| == steps.Length
    modifies steps
    ensures AllRenamed(old(steps[..]), minted, steps[..])
  {
    hide NewId, NewDeps, ById;
    ghost var plan := steps[..];
    var idMap := MintIds(steps, minted);
    var i := 0;
    while i < steps.Length
      invariant i <= steps.Length
      invariant forall k :: 0 <= k < i ==> steps[k] == Renamed(plan, minted, plan[k])
      invariant forall k :: i <= k < steps.Length ==> steps[k] == plan[k]
    {
      assert steps[i].id == plan[i].id && plan[i].id in ById(plan);
      var newDeps := RemapDeps(steps[i].deps, idMap, plan, minted);
      steps[i] := steps[i].(id := idMap[steps[i].id], deps := newDeps);
      i := i + 1;
    }
  }

  lemma ByIdSnoc(steps: seq<Step>, s: Step)
    ensures ById(steps + [s]) == ById(steps)[s.id := |steps|]
  {
    assert (steps + [s])[..|steps|] == steps;
  }

  lemma {:induction false} ByIdIsLast(steps: seq<Step>, i: nat)
    requires i < |steps|
    ensures i <= ById(steps)[steps[i].id]
  {
    hide ById;
    var n := |steps| - 1;
    var before := steps[..n];
    ByIdSnoc(before, steps[n]);
    assert steps == before + [steps[n]];
    if i < n && steps[i].id != steps[n].id {
      assert before[i] == steps[i];
      ByIdIsLast(before, i);
    }
  }

  ghost predicate AllRenamed(steps: seq<Step>, minted: seq<nat>, run: seq<Step>) {
    |minted| == |steps| == |run| && forall i :: 0 <= i < |run| ==> run[i] == Renamed(steps, minted, steps[i])
  }

  // Two ids get the same new id only when they are the same.
  lemma NewIdInjective(steps: seq<Step>, minted: seq<nat>, a: nat, b: nat)
    requires Fresh(steps, minted) && a !in minted && b !in minted
    ensures NewId(steps, minted, a) == NewId(steps, minted, b) <==> a == b
  {
    var m := ById(steps);
    if a in m && b in m && a != b {
      assert steps[m[a]].id == a && steps[m[b]].id == b;
    }
  }

  lemma RenamedById(steps: seq<Step>, minted: seq<nat>, run: seq<Step>, d: nat)
    requires Fresh(steps, minted) && AllRenamed(steps, minted, run) && d !in minted
    ensures NewId(steps, minted, d) in ById(run) <==> d in ById(steps)
    ensures d in ById(steps) ==> ById(run)[NewId(steps, minted, d)] == ById(steps)[d]
  {
    var e, m, r := NewId(steps, minted, d), ById(steps), ById(run);
    if e in r {
      assert run[r[e]].id == NewId(steps, minted, steps[r[e]].id);
      NewIdInjective(steps, minted, d, steps[r[e]].id);
    }
    if d in m {
      assert run[m[d]].id == e;
      ByIdIsLast(run, m[d]);
      ByIdIsLast(steps, r[e]);
    }
  }

  // The remap is an isomorphism: the same edges between the same positions.
  lemma RemapKeepsEdges(steps: seq<Step>, minted: seq<nat>, run: seq<Step>, i: nat, j: nat)
    requires Fresh(steps, minted) && AllRenamed(steps, minted, run) && i < |steps|
    ensures Edge(run, i, j) <==> Edge(steps, i, j)
  {
    if Edge(steps, i, j) {
      var d :| d in steps[i].deps && d in ById(steps) && ById(steps)[d] == j;
      RenamedById(steps, minted, run, d);
      var k :| 0 <= k < |steps[i].deps| && steps[i].deps[k] == d;
      assert run[i].deps[k] == NewId(steps, minted, d);
    }
    if Edge(run, i, j) {
      var e :| e in run[i].deps && e in ById(run) && ById(run)[e] == j;
      var k :| 0 <= k < |run[i].deps| && run[i].deps[k] == e;
      RenamedById(steps, minted, run, steps[i].deps[k]);
    }
  }

  // No dependency dangles in the run that did not dangle in the plan, and no two steps share an id
  // that did not share one.
  lemma RemapKeepsClosedExactly(steps: seq<Step>, minted: seq<nat>, run: seq<Step>)
    requires Fresh(steps, minted) && AllRenamed(steps, minted, run)
    ensures Closed(run) <==> Closed(steps)
    ensures DistinctIds(run) <==> DistinctIds(steps)
  {
    hide Closed, ById, NewId, NewDeps, DepsKnown;
    forall i | 0 <= i < |steps| ensures DepsKnown(run, i) <==> DepsKnown(steps, i) {
      RemapKeepsKnown(steps, minted, run, i);
    }
    ClosedById(steps);
    ClosedById(run);
    forall i, j | 0 <= i < j < |steps| ensures run[i].id == run[j].id <==> steps[i].id == steps[j].id {
      NewIdInjective(steps, minted, steps[i].id, steps[j].id);
    }
  }

  lemma RemapKeepsKnown(steps: seq<Step>, minted: seq<nat>, run: seq<Step>, i: nat)
    requires Fresh(steps, minted) && AllRenamed(steps, minted, run) && i < |steps|
    ensures DepsKnown(run, i) <==> DepsKnown(steps, i)
  {
    hide ById, NewId, NewDeps;
    forall k | 0 <= k < |steps[i].deps|
      ensures run[i].deps[k] in ById(run) <==> steps[i].deps[k] in ById(steps)
    {
      RenamedById(steps, minted, run, steps[i].deps[k]);
    }
  }

  ghost predicate DepsKnown(steps: seq<Step>, i: nat)
    requires i < |steps|
  {
    forall k :: 0 <= k < |steps[i].deps| ==> steps[i].deps[k] in ById(steps)
  }

  lemma ClosedById(steps: seq<Step>)
    ensures Closed(steps) <==> forall i :: 0 <= i < |steps| ==> DepsKnown(steps, i)
  {
    if Closed(steps) {
      forall i | 0 <= i < |steps| ensures DepsKnown(steps, i) {
        forall k | 0 <= k < |steps[i].deps| ensures steps[i].deps[k] in ById(steps) {
          assert steps[i].deps[k] in steps[i].deps;
        }
      }
    }
    if forall i :: 0 <= i < |steps| ==> DepsKnown(steps, i) {
      forall i | 0 <= i < |steps|
        ensures forall d <- steps[i].deps :: exists j :: 0 <= j < |steps| && steps[j].id == d
      {
        assert DepsKnown(steps, i);
        forall d | d in steps[i].deps ensures exists j :: 0 <= j < |steps| && steps[j].id == d {
          assert steps[ById(steps)[d]].id == d;
        }
      }
    }
  }

  /* ---- the steps of a new run ---- */

  // A stored plan: closed, levels falling along every edge, its first step at level 0.
  ghost predicate Startable(steps: seq<Step>) {
    && Closed(steps) && DistinctIds(steps) && SkipData.Leveled(steps)
    && (forall s <- steps :: s.level >= 0)
    && steps != [] && !SkipData.IsDropped(steps[0]) && steps[0].level == 0
  }

  lemma RemapStartable(steps: seq<Step>, minted: seq<nat>, run: seq<Step>)
    requires Startable(steps) && Fresh(steps, minted) && AllRenamed(steps, minted, run)
    ensures Startable(run)
  {
    hide ById, NewId, NewDeps, Closed, DistinctIds;
    RemapKeepsClosedExactly(steps, minted, run);
    forall i, j | 0 <= i < |run| && 0 <= j < |run| && run[j].id in run[i].deps ensures run[j].level < run[i].level {
      var k :| 0 <= k < |run[i].deps| && run[i].deps[k] == run[j].id;
      assert steps[i].deps[k] in steps[i].deps;
      NewIdInjective(steps, minted, steps[i].deps[k], steps[j].id);
    }
    forall s | s in run ensures s.level >= 0 {
      var i :| 0 <= i < |run| && run[i] == s;
      assert steps[i] in steps;
    }
  }

  // Whatever the mode, the run is closed, has distinct ids, and its levels fall along every edge,
  // so it is acyclic.
  method RunSteps(steps: array<Step>, minted: seq<nat>, skipData: bool) returns (run: seq<Step>)
    requires Startable(steps[..]) && Fresh(steps[..], minted)
    modifies steps
    ensures AllRenamed(old(steps[..]), minted, steps[..])
    ensures run == if skipData then SkipData.Filtered(steps[..]) else steps[..]
    ensures Closed(run) && DistinctIds(run) && SkipData.Leveled(run)
    ensures skipData ==> forall s <- run :: SkipData.NoRepeat(s.deps)
  {
    hide ById, NewId, NewDeps, Closed, DistinctIds, SkipData.Leveled, SkipData.Filtered;
    Remap(steps, minted);
    RemapStartable(old(steps[..]), minted, steps[..]);
    run := steps[..];
    if skipData {
      run := SkipData.Filter(steps[..]);
      SkipData.FilterCloses(steps[..]);
      RootIsFirst(steps[..]);
      SkipData.FilterKeepsLevels(steps[..]);
    }
  }

  lemma RootIsFirst(steps: seq<Step>)
    requires DistinctIds(steps) && steps != [] && !SkipData.IsDropped(steps[0])
    ensures SkipData.RootAfter(steps, 0) == Some(steps[0].id)
    ensures forall s <- steps :: SkipData.RootAfter(steps, 0) == Some(s.id) ==> s == steps[0]
  {
  }
}
