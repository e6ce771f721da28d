/** A run without data: copies and validation are dropped, what waited for them waits for the first step left. */
module SkipData {
  import opened Wrappers
  import opened StepGraph

  predicate IsDropped(s: Step) {
    s.kind == CopyTable || s.kind == Validate
  }

  predicate DroppedId(steps: seq<Step>, d: nat) {
    exists s <- steps :: s.id == d && IsDropped(s)
  }

  // The id of the first step left, from position i on.
  function RootAfter(steps: seq<Step>, i: nat): Option<nat>
    requires i <= |steps|
    decreases |steps| - i
  {
    if i == |steps| then None
    else if DroppedId(steps, steps[i].id) then RootAfter(steps, i + 1)
    else Some(steps[i].id)
  }

  // Appended once, never twice.
  function Once(ids: seq<nat>, d: nat): seq<nat> {
    if d in ids then ids else ids + [d]
  }

  function Rerouted(steps: seq<Step>, root: Option<nat>, self: nat, deps: seq<nat>): seq<nat> {
    if deps == [] then []
    else
      var before, d := Rerouted(steps, root, self, deps[..|deps| - 1]), deps[|deps| - 1];
      if !DroppedId(steps, d) then Once(before, d)
      else if root.None? || root.value == self then before
      else Once(before, root.value)
  }

  // The steps left among the first n, with their new dependencies.
  function Left(steps: seq<Step>, n: nat): seq<Step>
    requires n <= |steps|
  {
    if n == 0 then []
    else
      var s := steps[n - 1];
      if DroppedId(steps, s.id) then Left(steps, n - 1)
      else Left(steps, n - 1) + [s.(deps := Rerouted(steps, RootAfter(steps, 0), s.id, s.deps))]
  }

  function Filtered(steps: seq<Step>): seq<Step> {
    Left(steps, |steps|)
  }

  method DroppedIds(steps: seq<Step>) returns (dropped: set<nat>)
    ensures forall d :: d in dropped <==> DroppedId(steps, d)
  {
    dropped := {};
    var i := 0;
    while i < |steps|
      invariant i <= |steps|
      invariant forall d :: d in dropped <==> exists k :: 0 <= k < i && steps[k].id == d && IsDropped(steps[k])
    {
      if IsDropped(steps[i]) {
        dropped := dropped + {steps[i].id};
      }
      i := i + 1;
    }
  }

  method Reroute(ghost steps: seq<Step>, dropped: set<nat>, root: Option<nat>, self: nat, deps: seq<nat>)
    returns (newDeps: seq<nat>)
    requires forall d :: d in dropped <==> DroppedId(steps, d)
    ensures newDeps == Rerouted(steps, root, self, deps)
  {
    hide DroppedId;
    newDeps := [];
    var seen: set<nat> := {};
    var k := 0;
    while k < |deps|
      invariant k <= |deps| && newDeps == Rerouted(steps, root, self, deps[..k])
      invariant forall d :: d in seen <==> d in newDeps
    {
      var d := deps[k];
      assert deps[..k + 1][..k] == deps[..k];
      if d in dropped {
        if root.Some? && root.value != self && root.value !in seen {
          newDeps := newDeps + [root.value];
          seen := seen + {root.value};
        }
      } else if d !in seen {
        newDeps := newDeps + [d];
        seen := seen + {d};
      }
      k := k + 1;
    }
    assert deps[..k] == deps;
  }

  method FirstLeft(steps: seq<Step>, dropped: set<nat>) returns (root: Option<nat>)
    requires forall d :: d in dropped <==> DroppedId(steps, d)
    ensures root == RootAfter(steps, 0)
  {
    hide DroppedId;
    var i := 0;
    while i < |steps|
      invariant i <= |steps| && RootAfter(steps, i) == RootAfter(steps, 0)
    {
      if steps[i].id !in dropped {
        return Some(steps[i].id);
      }
      i := i + 1;
    }
    return None;
  }

  method Filter(steps: seq<Step>) returns (left: seq<Step>)
    ensures left == Filtered(steps)
  {
    hide DroppedId, Rerouted;
    var dropped := DroppedIds(steps);
    var root := FirstLeft(steps, dropped);
    left := [];
    var i := 0;
    while i < |steps|
      invariant i <= |steps| && left == Left(steps, i)
    {
      if steps[i].id !in dropped {
        var deps := Reroute(steps, dropped, root, steps[i].id, steps[i].deps);
        left := left + [steps[i].(deps := deps)];
      }
      i := i + 1;
    }
  }

  /* ---- what the filter keeps ---- */

  predicate HasDroppedDep(steps: seq<Step>, deps: seq<nat>) {
    exists d <- deps :: DroppedId(steps, d)
  }

  // The new dependencies: the old ones that are left, and the first step left in place of any others.
  // Each once.
  lemma {:induction false} ReroutedExactly(steps: seq<Step>, root: Option<nat>, self: nat, deps: seq<nat>)
    ensures forall d :: d in Rerouted(steps, root, self, deps) <==>
      (d in deps && !DroppedId(steps, d)) || (root == Some(d) && d != self && HasDroppedDep(steps, deps))
    ensures NoRepeat(Rerouted(steps, root, self, deps))
  {
    hide DroppedId;
    if deps != [] {
      var rest, d := deps[..|deps| - 1], deps[|deps| - 1];
      assert deps == rest + [d];
      ReroutedExactly(steps, root, self, rest);
      assert HasDroppedDep(steps, deps) <==> HasDroppedDep(steps, rest) || DroppedId(steps, d);
    }
  }

  predicate NoRepeat(ids: seq<nat>) {
    forall i, j :: 0 <= i < j < |ids| ==> ids[i] != ids[j]
  }

  // t is what the filter makes of s.
  ghost predicate Becomes(steps: seq<Step>, s: Step, t: Step) {
    !DroppedId(steps, s.id) && t == s.(deps := Rerouted(steps, RootAfter(steps, 0), s.id, s.deps))
  }

  lemma {:induction false} LeftFrom(steps: seq<Step>, n: nat, i: nat) returns (p: nat)
    requires n <= |steps| && i < |Left(steps, n)|
    ensures p < n && Becomes(steps, steps[p], Left(steps, n)[i])
  {
    hide DroppedId, Rerouted;
    if i < |Left(steps, n - 1)| {
      p := LeftFrom(steps, n - 1, i);
    } else {
      p := n - 1;
    }
  }

  lemma {:induction false} LeftHas(steps: seq<Step>, n: nat, p: nat) returns (i: nat)
    requires p < n <= |steps| && !DroppedId(steps, steps[p].id)
    ensures i < |Left(steps, n)| && Becomes(steps, steps[p], Left(steps, n)[i])
  {
    hide DroppedId, Rerouted;
    if p == n - 1 {
      i := |Left(steps, n)| - 1;
    } else {
      i := LeftHas(steps, n - 1, p);
    }
  }

  lemma {:induction false} RootIsLeft(steps: seq<Step>, i: nat) returns (p: nat)
    requires i <= |steps| && RootAfter(steps, i).Some?
    ensures i <= p < |steps| && RootAfter(steps, i) == Some(steps[p].id) && !DroppedId(steps, steps[p].id)
    ensures forall q :: i <= q < p ==> DroppedId(steps, steps[q].id)
    decreases |steps| - i
  {
    hide DroppedId;
    if DroppedId(steps, steps[i].id) {
      p := RootIsLeft(steps, i + 1);
    } else {
      p := i;
    }
  }

  // No dependency of a filtered closed plan dangles, and none is repeated.
  lemma FilterCloses(steps: seq<Step>)
    requires Closed(steps)
    ensures Closed(Filtered(steps))
    ensures forall t <- Filtered(steps) :: NoRepeat(t.deps)
  {
    hide DroppedId, Rerouted;
    var left, root := Filtered(steps), RootAfter(steps, 0);
    forall i | 0 <= i < |left|
      ensures NoRepeat(left[i].deps) && forall d <- left[i].deps :: exists j :: 0 <= j < |left| && left[j].id == d
    {
      var p := LeftFrom(steps, |steps|, i);
      ReroutedExactly(steps, root, steps[p].id, steps[p].deps);
      forall d | d in left[i].deps ensures exists j :: 0 <= j < |left| && left[j].id == d {
        var q: nat;
        if d in steps[p].deps && !DroppedId(steps, d) {
          q :| 0 <= q < |steps| && steps[q].id == d;
        } else {
          q := RootIsLeft(steps, 0);
        }
        var j := LeftHas(steps, |steps|, q);
        assert left[j].id == d;
      }
    }
  }

  // Stored levels fall along every edge.
  ghost predicate Leveled(steps: seq<Step>) {
    forall i, j :: 0 <= i < |steps| && 0 <= j < |steps| && steps[j].id in steps[i].deps ==>
      steps[j].level < steps[i].level
  }

  // The levels, computed before the filter and kept by it, still fall along every edge: the filtered
  // graph is acyclic. The first step left must be at level 0, as it is in a plan.
  lemma FilterKeepsLevels(steps: seq<Step>)
    requires Closed(steps) && DistinctIds(steps) && Leveled(steps)
    requires forall s <- steps :: s.level >= 0
    requires forall s <- steps :: RootAfter(steps, 0) == Some(s.id) ==> s.level == 0
    ensures Leveled(Filtered(steps)) && DistinctIds(Filtered(steps))
  {
    hide DroppedId, Rerouted;
    var left, root := Filtered(steps), RootAfter(steps, 0);
    forall i, j | 0 <= i < |left| && 0 <= j < |left| && left[j].id in left[i].deps
      ensures left[j].level < left[i].level
    {
      var p := LeftFrom(steps, |steps|, i);
      var q := LeftFrom(steps, |steps|, j);
      ReroutedExactly(steps, root, steps[p].id, steps[p].deps);
      var d := steps[q].id;
      if !(d in steps[p].deps && !DroppedId(steps, d)) {
        var e :| e in steps[p].deps && DroppedId(steps, e);
        var r :| 0 <= r < |steps| && steps[r].id == e;
        assert steps[r].level < steps[p].level && steps[r] in steps && steps[q] in steps;
      }
    }
    LeftDistinct(steps, |steps|);
  }

  lemma {:induction false} LeftDistinct(steps: seq<Step>, n: nat)
    requires DistinctIds(steps) && n <= |steps|
    ensures DistinctIds(Left(steps, n))
  {
    hide DroppedId, Rerouted;
    if n > 0 {
      LeftDistinct(steps, n - 1);
      var before := Left(steps, n - 1);
      forall i | 0 <= i < |before| ensures before[i].id != steps[n - 1].id {
        var p := LeftFrom(steps, n - 1, i);
      }
    }
  }

  // The first step that is neither a copy nor the validation.
  ghost predicate IsFirstLeft(steps: seq<Step>, d: nat) {
    exists q :: 0 <= q < |steps| && steps[q].id == d && steps[q].kind !in {CopyTable, Validate} &&
      forall r :: 0 <= r < q ==> steps[r].kind in {CopyTable, Validate}
  }

  lemma DroppedExactly(steps: seq<Step>, p: nat)
    requires DistinctIds(steps) && p < |steps|
    ensures DroppedId(steps, steps[p].id) <==> steps[p].kind in {CopyTable, Validate}
  {
    if s :| s in steps && s.id == steps[p].id && IsDropped(s) {
      var q :| 0 <= q < |steps| && steps[q] == s;
    }
    assert steps[p] in steps;
  }

  // The filter keeps the steps that are neither copies nor the validation, each but for its dependencies: those that
  // are left, and, for one that waited for a dropped step, the first step left.
  lemma FilteredFrom(steps: seq<Step>, i: nat) returns (p: nat)
    requires DistinctIds(steps) && i < |Filtered(steps)|
    ensures p < |steps| && steps[p].kind !in {CopyTable, Validate}
    ensures Filtered(steps)[i] == steps[p].(deps := Filtered(steps)[i].deps)
    ensures forall d: nat :: d in Filtered(steps)[i].deps <==>
      || (d in steps[p].deps && forall x <- steps :: x.id == d ==> x.kind !in {CopyTable, Validate})
      || (IsFirstLeft(steps, d) && d != steps[p].id &&
          exists x <- steps :: x.kind in {CopyTable, Validate} && x.id in steps[p].deps)
  {
    hide Rerouted;
    p := LeftFrom(steps, |steps|, i);
    DroppedExactly(steps, p);
    ReroutedExactly(steps, RootAfter(steps, 0), steps[p].id, steps[p].deps);
    forall d: nat ensures RootAfter(steps, 0) == Some(d) <==> IsFirstLeft(steps, d) {
      RootExactly(steps, d);
    }
  }

  lemma RootExactly(steps: seq<Step>, d: nat)
    requires DistinctIds(steps)
    ensures RootAfter(steps, 0) == Some(d) <==> IsFirstLeft(steps, d)
  {
    hide DroppedId;
    forall q | 0 <= q < |steps| ensures DroppedId(steps, steps[q].id) <==> steps[q].kind in {CopyTable, Validate} {
      DroppedExactly(steps, q);
    }
    if RootAfter(steps, 0).Some? {
      var p := RootIsLeft(steps, 0);
    } else {
      NoRoot(steps, 0);
    }
  }

  lemma {:induction false} NoRoot(steps: seq<Step>, i: nat)
    requires i <= |steps| && RootAfter(steps, i).None?
    ensures forall q :: i <= q < |steps| ==> DroppedId(steps, steps[q].id)
    decreases |steps| - i
  {
    hide DroppedId;
    if i < |steps| {
      NoRoot(steps, i + 1);
    }
  }

  lemma FilteredHas(steps: seq<Step>, p: nat) returns (i: nat)
    requires DistinctIds(steps) && p < |steps| && steps[p].kind !in {CopyTable, Validate}
    ensures i < |Filtered(steps)| && Filtered(steps)[i].id == steps[p].id
  {
    DroppedExactly(steps, p);
    i := LeftHas(steps, |steps|, p);
  }
}
