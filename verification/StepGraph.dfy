/** Steps and the dependency graph between them. */
module StepGraph {
  datatype Kind = CreateTargetDb | Inspect | CreateDdl | CopyTable | CreateIndex | CreateFk | CreateRoutine | Validate

  datatype Step = Step(id: nat, kind: Kind, target: string, deps: seq<nat>, level: int)

  // Id to position; a repeated id names its last position.
  function ById(steps: seq<Step>): (m: map<nat, nat>)
    ensures forall d <- m :: m[d] < |steps| && steps[m[d]].id == d
    ensures forall i :: 0 <= i < |steps| ==> steps[i].id in m
  {
    if steps == [] then map[]
    else
      var n := |steps| - 1;
      var before := ById(steps[..n]);
      before[steps[n].id := n]
  }

  ghost predicate DistinctIds(steps: seq<Step>) {
    forall i, j :: 0 <= i < j < |steps| ==> steps[i].id != steps[j].id
  }

  // Position i depends on position j.
  predicate Edge(steps: seq<Step>, i: nat, j: nat)
    requires i < |steps|
  {
    exists d <- steps[i].deps :: d in ById(steps) && ById(steps)[d] == j
  }

  // Every dependency is a step of the plan.
  ghost predicate Closed(steps: seq<Step>) {
    forall i :: 0 <= i < |steps| ==> forall d <- steps[i].deps :: exists j :: 0 <= j < |steps| && steps[j].id == d
  }

  // rank orders the positions so that every edge goes down.
  ghost predicate Ranked(steps: seq<Step>, rank: seq<nat>) {
    |rank| == |steps| && forall i, j :: 0 <= i < |steps| && 0 <= j < |steps| && Edge(steps, i, j) ==> rank[j] < rank[i]
  }

  ghost predicate Acyclic(steps: seq<Step>) {
    exists rank :: Ranked(steps, rank)
  }

  // A walk down the dependencies.
  ghost predicate Chain(steps: seq<Step>, path: seq<nat>) {
    && path != []
    && (forall k :: 0 <= k < |path| ==> path[k] < |steps|)
    && (forall k :: 0 <= k < |path| - 1 ==> Edge(steps, path[k], path[k + 1]))
  }

  // n is the length of the longest chain of dependencies of i.
  ghost predicate IsLongest(steps: seq<Step>, i: nat, n: int) {
    && (exists path :: Chain(steps, path) && path[0] == i && |path| == n + 1)
    && (forall path :: Chain(steps, path) && path[0] == i ==> |path| <= n + 1)
  }

  // i reaches j through zero or more dependencies.
  ghost predicate Reaches(steps: seq<Step>, i: nat, j: nat) {
    exists path :: Chain(steps, path) && path[0] == i && path[|path| - 1] == j
  }

  lemma ReachesEdge(steps: seq<Step>, i: nat, j: nat)
    requires i < |steps| && j < |steps| && Edge(steps, i, j)
    ensures Reaches(steps, i, j)
  {
    assert Chain(steps, [i, j]);
  }

  lemma ReachesThrough(steps: seq<Step>, i: nat, j: nat, k: nat)
    requires Reaches(steps, i, j) && Reaches(steps, j, k)
    ensures Reaches(steps, i, k)
  {
    var p :| Chain(steps, p) && p[0] == i && p[|p| - 1] == j;
    var q :| Chain(steps, q) && q[0] == j && q[|q| - 1] == k;
    var r := p + q[1..];
    assert forall m :: 0 <= m < |r| ==> r[m] == if m < |p| then p[m] else q[m - |p| + 1];
    assert Chain(steps, r);
  }
}
