/** The level of each step, computed in place with memoisation. */
module Levels {
  import opened StepGraph

  // The longest chain from i, computed along a ranking.
  ghost function Depth(steps: seq<Step>, rank: seq<nat>, i: nat): nat
    requires Ranked(steps, rank) && i < |steps|
    decreases rank[i], |steps[i].deps| + 1
  {
    DepthOver(steps, rank, i, |steps[i].deps|)
  }

  // One more than the deepest of the first n dependencies, 0 when none is known.
  ghost function DepthOver(steps: seq<Step>, rank: seq<nat>, i: nat, n: nat): nat
    requires Ranked(steps, rank) && i < |steps| && n <= |steps[i].deps|
    decreases rank[i], n
  {
    if n == 0 then 0
    else
      var before, d := DepthOver(steps, rank, i, n - 1), steps[i].deps[n - 1];
      if d !in ById(steps) then before
      else
        assert Edge(steps, i, ById(steps)[d]);
        var here := Depth(steps, rank, ById(steps)[d]) + 1;
        if here > before then here else before
  }

  lemma {:induction false} DepthOverBounds(steps: seq<Step>, rank: seq<nat>, i: nat, n: nat, j: nat)
    requires Ranked(steps, rank) && i < |steps| && n <= |steps[i].deps|
    requires exists k :: 0 <= k < n && steps[i].deps[k] in ById(steps) && ById(steps)[steps[i].deps[k]] == j
    ensures j < |steps| && Depth(steps, rank, j) + 1 <= DepthOver(steps, rank, i, n)
  {
    var k :| 0 <= k < n && steps[i].deps[k] in ById(steps) && ById(steps)[steps[i].deps[k]] == j;
    if k < n - 1 {
      DepthOverBounds(steps, rank, i, n - 1, j);
    }
  }

  // Every edge goes to a strictly lower depth.
  lemma EdgeLowersDepth(steps: seq<Step>, rank: seq<nat>, i: nat, j: nat)
    requires Ranked(steps, rank) && i < |steps| && j < |steps| && Edge(steps, i, j)
    ensures Depth(steps, rank, j) < Depth(steps, rank, i)
  {
    var d :| d in steps[i].deps && d in ById(steps) && ById(steps)[d] == j;
    var k :| 0 <= k < |steps[i].deps| && steps[i].deps[k] == d;
    DepthOverBounds(steps, rank, i, |steps[i].deps|, j);
  }

  lemma {:induction false} DepthReached(steps: seq<Step>, rank: seq<nat>, i: nat, n: nat) returns (j: nat)
    requires Ranked(steps, rank) && i < |steps| && n <= |steps[i].deps|
    requires DepthOver(steps, rank, i, n) > 0
    ensures j < |steps| && Edge(steps, i, j) && DepthOver(steps, rank, i, n) == Depth(steps, rank, j) + 1
  {
    var before, d := DepthOver(steps, rank, i, n - 1), steps[i].deps[n - 1];
    if d in ById(steps) {
      j := ById(steps)[d];
      assert Edge(steps, i, j);
      if Depth(steps, rank, j) + 1 > before {
        return;
      }
    }
    j := DepthReached(steps, rank, i, n - 1);
  }

  lemma {:induction false} ChainBounded(steps: seq<Step>, rank: seq<nat>, path: seq<nat>)
    requires Ranked(steps, rank) && Chain(steps, path)
    ensures |path| <= Depth(steps, rank, path[0]) + 1
  {
    if |path| > 1 {
      assert Chain(steps, path[1..]);
      ChainBounded(steps, rank, path[1..]);
      EdgeLowersDepth(steps, rank, path[0], path[1]);
    }
  }

  lemma {:induction false} ChainExists(steps: seq<Step>, rank: seq<nat>, i: nat) returns (path: seq<nat>)
    requires Ranked(steps, rank) && i < |steps|
    ensures Chain(steps, path) && path[0] == i && |path| == Depth(steps, rank, i) + 1
    decreases rank[i]
  {
    if Depth(steps, rank, i) == 0 {
      path := [i];
    } else {
      var j := DepthReached(steps, rank, i, |steps[i].deps|);
      var rest := ChainExists(steps, rank, j);
      path := [i] + rest;
      assert forall k :: 0 < k < |path| ==> path[k] == rest[k - 1];
    }
  }

  // The depth is the length of the longest chain, whatever the ranking.
  lemma DepthIsLongest(steps: seq<Step>, rank: seq<nat>, i: nat)
    requires Ranked(steps, rank) && i < |steps|
    ensures IsLongest(steps, i, Depth(steps, rank, i))
  {
    var path := ChainExists(steps, rank, i);
    forall p | Chain(steps, p) && p[0] == i ensures |p| <= Depth(steps, rank, i) + 1 {
      ChainBounded(steps, rank, p);
    }
  }

  // Going down from a depth, every smaller one is met, each at another step.
  lemma DepthBounded(steps: seq<Step>, rank: seq<nat>, i: nat)
    requires Ranked(steps, rank) && i < |steps|
    ensures Depth(steps, rank, i) < |steps|
  {
    var met := DepthsMet(steps, rank, i, Depth(steps, rank, i));
    SetBound(met, |steps|);
  }

  lemma {:induction false} DepthsMet(steps: seq<Step>, rank: seq<nat>, i: nat, n: nat) returns (met: set<nat>)
    requires Ranked(steps, rank) && i < |steps| && Depth(steps, rank, i) == n
    ensures |met| == n + 1 && forall j <- met :: j < |steps| && Depth(steps, rank, j) <= n
    decreases n
  {
    if n == 0 {
      met := {i};
    } else {
      var j := DepthReached(steps, rank, i, |steps[i].deps|);
      met := DepthsMet(steps, rank, j, n - 1);
      met := met + {i};
    }
  }

  lemma {:induction false} SetBound(s: set<nat>, n: nat)
    requires forall i <- s :: i < n
    ensures |s| <= n
  {
    if n > 0 {
      SetBound(s - {n - 1}, n - 1);
    }
  }

  // An acyclic graph is ranked by its depths, which are all below the number of its steps.
  lemma ShortRank(steps: seq<Step>) returns (rank: seq<nat>)
    requires Acyclic(steps)
    ensures Ranked(steps, rank) && forall i :: 0 <= i < |steps| ==> rank[i] < |steps|
  {
    var any :| Ranked(steps, any);
    rank := seq(|steps|, i requires 0 <= i < |steps| => Depth(steps, any, i));
    forall i | 0 <= i < |steps| ensures rank[i] < |steps| {
      DepthBounded(steps, any, i);
    }
    forall i, j | 0 <= i < |steps| && 0 <= j < |steps| && Edge(steps, i, j) ensures rank[j] < rank[i] {
      EdgeLowersDepth(steps, any, i, j);
    }
  }

  /* ---- the computation ---- */

  // The same steps, but for their levels.
  ghost predicate SameSteps(a: seq<Step>, b: seq<Step>) {
    |a| == |b| && forall i :: 0 <= i < |a| ==> a[i] == b[i].(level := a[i].level)
  }

  // done: the steps whose call has returned; the others have no level yet.
  ghost predicate Partly(now: seq<Step>, g: seq<Step>, done: set<nat>) {
    && SameSteps(now, g) && (forall i <- done :: i < |g|)
    && (forall i :: 0 <= i < |g| && i !in done ==> now[i].level == 0)
    && (forall i <- done :: OneMore(now, g, done, i))
  }

  // The level of i is one more than the highest of its dependencies, which have returned as well.
  ghost predicate OneMore(now: seq<Step>, g: seq<Step>, done: set<nat>, i: nat)
    requires |now| == |g| && i < |g|
  {
    && now[i].level >= 0
    && (forall j :: 0 <= j < |g| && Edge(g, i, j) ==> j in done && now[j].level < now[i].level)
    && (now[i].level > 0 ==> exists j :: 0 <= j < |g| && Edge(g, i, j) && now[j].level == now[i].level - 1)
  }

  // What is known after the first k dependencies of i.
  ghost predicate SeenUpTo(now: seq<Step>, g: seq<Step>, done: set<nat>, i: nat, k: nat, max: int)
    requires |now| == |g| && i < |g| && k <= |g[i].deps|
  {
    && max >= -1
    && (forall m :: 0 <= m < k && g[i].deps[m] in ById(g) ==>
          ById(g)[g[i].deps[m]] in done && now[ById(g)[g[i].deps[m]]].level <= max)
    && (max >= 0 ==>
          exists m :: 0 <= m < k && g[i].deps[m] in ById(g) && now[ById(g)[g[i].deps[m]]].level == max)
  }

  lemma SeenMore(a: seq<Step>, b: seq<Step>, g: seq<Step>, done: set<nat>, more: set<nat>, i: nat, k: nat, max: int)
    requires |a| == |b| == |g| && i < |g| && k < |g[i].deps| && SeenUpTo(a, g, done, i, k, max)
    requires done <= more && (forall j <- done :: j < |g| && a[j] == b[j])
    requires g[i].deps[k] in ById(g) ==> ById(g)[g[i].deps[k]] in more && b[ById(g)[g[i].deps[k]]].level >= 0
    ensures
      var high := if g[i].deps[k] in ById(g) &&
        b[ById(g)[g[i].deps[k]]].level > max then b[ById(g)[g[i].deps[k]]].level else max;
      SeenUpTo(b, g, more, i, k + 1, high)
  {
    hide ById;
  }

  // With all dependencies seen, the level is settled; a step that was settled keeps its level.
  lemma Settles(now: seq<Step>, g: seq<Step>, done: set<nat>, i: nat, max: int)
    requires Partly(now, g, done) && i < |g| && SeenUpTo(now, g, done, i, |g[i].deps|, max)
    ensures Partly(now[i := now[i].(level := max + 1)], g, done + {i})
    ensures i in done ==> now[i].level == max + 1
  {
    hide ById, Edge, SeenUpTo;
    EdgesSeen(now, g, done, i, max);
    var after := now[i := now[i].(level := max + 1)];
    if i in done {
      LevelsPositive(now, g, done);
      assert OneMore(now, g, done, i);
      assert after == now && done + {i} == done;
    } else {
      hide OneMore;
      forall k | k in done ensures OneMore(after, g, done + {i}, k) {
        OthersSettled(now, after, g, done, i, k);
      }
      NewSettled(now, after, g, done, i);
    }
  }

  lemma LevelsPositive(now: seq<Step>, g: seq<Step>, done: set<nat>)
    requires Partly(now, g, done)
    ensures |now| == |g| && forall j <- done :: j < |g| && now[j].level >= 0
  {
    forall j | j in done ensures j < |g| && now[j].level >= 0 {
      assert OneMore(now, g, done, j);
    }
  }

  lemma OthersSettled(now: seq<Step>, after: seq<Step>, g: seq<Step>, done: set<nat>, i: nat, k: nat)
    requires |now| == |g| && i < |g| && k < |g| && k in done && i !in done && OneMore(now, g, done, k)
    requires |after| == |g| && after == now[i := now[i].(level := after[i].level)]
    ensures OneMore(after, g, done + {i}, k)
  {
    hide Edge;
  }

  lemma NewSettled(now: seq<Step>, after: seq<Step>, g: seq<Step>, done: set<nat>, i: nat)
    requires |now| == |g| && i < |g| && i !in done && |after| == |g| && after[i].level >= 0
    requires after == now[i := now[i].(level := after[i].level)]
    requires forall j :: 0 <= j < |g| && Edge(g, i, j) ==> j in done && now[j].level < after[i].level
    requires after[i].level > 0 ==> exists j :: 0 <= j < |g| && Edge(g, i, j) && now[j].level == after[i].level - 1
    ensures OneMore(after, g, done + {i}, i)
  {
    hide Edge;
  }

  lemma EdgesSeen(now: seq<Step>, g: seq<Step>, done: set<nat>, i: nat, max: int)
    requires Partly(now, g, done) && i < |g| && SeenUpTo(now, g, done, i, |g[i].deps|, max)
    ensures forall j :: 0 <= j < |g| && Edge(g, i, j) ==> j in done && now[j].level <= max
    ensures max >= -1 && (max >= 0 ==> exists j :: 0 <= j < |g| && Edge(g, i, j) && now[j].level == max)
  {
    PartlyLevels(now, g, done, i);
    hide Partly, OneMore;
    forall j | 0 <= j < |g| && Edge(g, i, j) ensures j in done && now[j].level <= max {
      var d :| d in g[i].deps && d in ById(g) && ById(g)[d] == j;
      var m :| 0 <= m < |g[i].deps| && g[i].deps[m] == d;
    }
    if max >= 0 {
      var m :| 0 <= m < |g[i].deps| && g[i].deps[m] in ById(g) && now[ById(g)[g[i].deps[m]]].level == max;
      assert Edge(g, i, ById(g)[g[i].deps[m]]);
    }
  }

  // depth: how far the calls may still nest; without it the call does not return.
  method Resolve(steps: array<Step>, byId: map<nat, nat>, i: nat, depth: nat,
                 ghost g: seq<Step>, ghost done: set<nat>, ghost rank: seq<nat>)
    returns (ok: bool, level: int, ghost more: set<nat>)
    requires i < |g| && byId == ById(g) && Partly(steps[..], g, done)
    modifies steps
    ensures ok ==> Partly(steps[..], g, more) && done + {i} <= more && level == steps[i].level
    ensures ok ==> forall k <- done :: steps[k] == old(steps[k])
    ensures Ranked(g, rank) && rank[i] < depth ==> ok
    decreases depth
  {
    hide ById, Ranked, Partly, OneMore, SeenUpTo;
    ok, level, more := true, 0, done;
    PartlyLevels(steps[..], g, done, i);
    RankedLength(g, rank);
    if depth == 0 {
      ok := false;
      return;
    }
    if |steps[i].deps| == 0 {
      NoneSeen(steps[..], g, done, i);
      Settles(steps[..], g, done, i, -1);
      steps[i] := steps[i].(level := 0);
      more := done + {i};
      return;
    }
    if steps[i].level > 0 {
      level := steps[i].level;
      return;
    }
    var deps, max, k := steps[i].deps, -1, 0;
    NoneSeen(steps[..], g, done, i);
    while k < |deps|
      invariant k <= |deps| && deps == g[i].deps
      invariant Partly(steps[..], g, more) && done <= more && forall j <- done :: j < |g| && steps[j] == old(steps[j])
      invariant steps.Length == |g| && SeenUpTo(steps[..], g, more, i, k, max)
    {
      var d := deps[k];
      ghost var was, had := steps[..], more;
      PartlyLevels(was, g, had, i);
      if d in byId {
        EdgeDown(g, rank, i, d);
        var pl;
        ok, pl, more := Resolve(steps, byId, byId[d], depth - 1, g, more, rank);
        if !ok {
          return;
        }
        PartlyLevels(steps[..], g, more, byId[d]);
        SeenMore(was, steps[..], g, had, more, i, k, max);
        if pl > max {
          max := pl;
        }
      } else {
        SeenMore(was, was, g, had, had, i, k, max);
      }
      k := k + 1;
    }
    PartlyLevels(steps[..], g, more, i);
    Settles(steps[..], g, more, i, max);
    steps[i] := steps[i].(level := max + 1);
    level, more := max + 1, more + {i};
  }

  lemma PartlyLevels(now: seq<Step>, g: seq<Step>, done: set<nat>, i: nat)
    requires Partly(now, g, done) && i < |g|
    ensures |now| == |g| && now[i].level >= 0 && now[i].deps == g[i].deps && (now[i].level > 0 ==> i in done)
    ensures forall j <- done :: j < |g|
  {
    assert i in done ==> OneMore(now, g, done, i);
  }

  lemma RankedLength(g: seq<Step>, rank: seq<nat>)
    ensures Ranked(g, rank) ==> |rank| == |g|
  {}

  lemma NoneSeen(now: seq<Step>, g: seq<Step>, done: set<nat>, i: nat)
    requires |now| == |g| && i < |g|
    ensures SeenUpTo(now, g, done, i, 0, -1)
  {}

  lemma EdgeDown(g: seq<Step>, rank: seq<nat>, i: nat, d: nat)
    requires i < |g| && d in g[i].deps && d in ById(g)
    ensures ById(g)[d] < |g|
    ensures Ranked(g, rank) ==> |rank| == |g| && rank[ById(g)[d]] < rank[i]
  {
    assert Edge(g, i, ById(g)[d]);
  }

  // Freshly planned steps: every level is 0. The calls return exactly when the graph is acyclic, and
  // then nest no deeper than there are steps; each level is the step's longest chain of known
  // dependencies, and nothing else has changed.
  method AssignLevels(steps: array<Step>, depth: nat) returns (ok: bool)
    requires forall i :: 0 <= i < steps.Length ==> steps[i].level == 0
    modifies steps
    ensures ok ==> Acyclic(old(steps[..])) && SameSteps(steps[..], old(steps[..]))
    ensures ok ==> forall i :: 0 <= i < steps.Length ==> IsLongest(old(steps[..]), i, steps[i].level)
    ensures Acyclic(old(steps[..])) && depth >= steps.Length ==> ok
  {
    hide Ranked, OneMore, IsLongest;
    ghost var g := steps[..];
    ghost var rank, done := [], {};
    if Acyclic(g) {
      rank := ShortRank(g);
    }
    ok := true;
    var byId := ById(steps[..]);
    var i := 0;
    while i < steps.Length
      invariant i <= steps.Length && ok && Partly(steps[..], g, done) && forall k :: 0 <= k < i ==> k in done
    {
      var level;
      ok, level, done := Resolve(steps, byId, i, depth, g, done, rank);
      if !ok {
        return;
      }
      i := i + 1;
    }
    AllSettled(steps[..], g, done);
  }

  lemma AllSettled(now: seq<Step>, g: seq<Step>, done: set<nat>)
    requires Partly(now, g, done) && forall i :: 0 <= i < |g| ==> i in done
    ensures Acyclic(g) && |now| == |g| && forall i :: 0 <= i < |g| ==> IsLongest(g, i, now[i].level)
  {
    hide IsLongest, Depth;
    forall i | 0 <= i < |g| ensures OneMore(now, g, done, i) && now[i].level >= 0 {
      assert i in done;
    }
    var rank := seq(|g|, i requires 0 <= i < |g| => now[i].level as nat);
    assert Ranked(g, rank);
    forall i | 0 <= i < |g| ensures IsLongest(g, i, now[i].level) {
      DepthIsLevel(now, g, done, rank, i);
      DepthIsLongest(g, rank, i);
    }
  }

  lemma {:induction false} DepthIsLevel(now: seq<Step>, g: seq<Step>, done: set<nat>, rank: seq<nat>, i: nat)
    requires Ranked(g, rank) && |now| == |g| && i < |g|
    requires forall k :: 0 <= k < |g| ==> OneMore(now, g, done, k) && rank[k] == now[k].level
    ensures Depth(g, rank, i) == now[i].level
    decreases now[i].level
  {
    hide Depth, Ranked;
    assert OneMore(now, g, done, i);
    if now[i].level > 0 {
      var j :| 0 <= j < |g| && Edge(g, i, j) && now[j].level == now[i].level - 1;
      DepthIsLevel(now, g, done, rank, j);
      EdgeLowersDepth(g, rank, i, j);
    }
    DepthIs(g, rank, i);
    if Depth(g, rank, i) > 0 {
      var j := DepthReached(g, rank, i, |g[i].deps|);
      DepthIsLevel(now, g, done, rank, j);
    }
  }

  lemma DepthIs(g: seq<Step>, rank: seq<nat>, i: nat)
    requires Ranked(g, rank) && i < |g|
    ensures Depth(g, rank, i) == DepthOver(g, rank, i, |g[i].deps|)
  {}

  // Along every edge the longest chain strictly falls.
  lemma EdgeLowersLevel(steps: seq<Step>, i: nat, j: nat, m: int, n: int)
    requires i < |steps| && j < |steps| && Edge(steps, i, j) && IsLongest(steps, i, m) && IsLongest(steps, j, n)
    ensures n < m
  {
    var path :| Chain(steps, path) && path[0] == j && |path| == n + 1;
    var longer := [i] + path;
    assert forall k :: 0 < k < |longer| ==> longer[k] == path[k - 1];
    assert Chain(steps, longer);
  }
}
