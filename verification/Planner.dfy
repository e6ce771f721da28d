/** The plan of a migration: the steps Build appends, in order, and the graph they form. */
module Planner {
  import opened StepGraph

  // What the translator found: uses are the names the text of a view or routine refers to.
  datatype View = View(name: string, uses: set<string>)

  datatype Routine = Routine(kind: string, name: string, uses: set<string>)

  // tables: the source tables; histories: the history tables of emulated versioned tables.
  datatype Source = Source(tables: seq<string>, histories: seq<string>, views: seq<View>, routines: seq<Routine>)

  datatype Options = Options(createTargetDb: bool, skipData: bool)

  function CopyTargets(src: Source, opts: Options): seq<string> {
    if opts.skipData then [] else src.tables + src.histories
  }

  // Where each part of a plan starts. A plan is: an optional create_target_db, inspect,
  // create_ddl, the copies, the indexes, create_fk, the views, the routines, validate.
  datatype Layout = Layout(ddl: nat, indexes: nat, fk: nat, routines: nat, validate: nat)

  function Views(l: Layout): nat {
    l.fk + 1
  }

  function Names(views: seq<View>): seq<string> {
    seq(|views|, i requires 0 <= i < |views| => views[i].name)
  }

  // k is the last place of t: a repeated name stands for its last step.
  predicate LastAt(names: seq<string>, t: string, k: int) {
    0 <= k < |names| && names[k] == t && forall j :: k < j < |names| ==> names[j] != t
  }

  // f is the first place of t: looking a view up by name stops there.
  predicate FirstAt(names: seq<string>, t: string, f: int) {
    0 <= f < |names| && names[f] == t && forall j :: 0 <= j < f ==> names[j] != t
  }

  // The dependencies of each part.
  ghost predicate Planned(src: Source, opts: Options, steps: seq<Step>, l: Layout) {
    && l.ddl == (if opts.createTargetDb then 2 else 1)
    && l.indexes == l.ddl + 1 + |CopyTargets(src, opts)| && l.indexes <= l.fk
    && l.routines == Views(l) + |src.views| && l.validate == l.routines + |src.routines| && |steps| == l.validate + 1
    && (forall k :: 0 <= k < |steps| ==> steps[k].id == k && steps[k].level == 0)
    && Skeleton(src, opts, steps, l) && Indexed(src, opts, steps, l) && Tail(src, steps, l)
  }

  ghost predicate Skeleton(src: Source, opts: Options, steps: seq<Step>, l: Layout)
    requires l.ddl >= 1 && l.indexes == l.ddl + 1 + |CopyTargets(src, opts)| && l.indexes <= |steps|
  {
    && (opts.createTargetDb ==> steps[0].kind == CreateTargetDb && steps[0].deps == [])
    && steps[l.ddl - 1].kind == Inspect && steps[l.ddl - 1].deps == (if opts.createTargetDb then [0] else [])
    && steps[l.ddl].kind == CreateDdl && steps[l.ddl].deps == [l.ddl - 1]
    && (forall k :: l.ddl < k < l.indexes ==>
          steps[k].kind == CopyTable && steps[k].deps == [l.ddl] &&
            steps[k].target == CopyTargets(src, opts)[k - l.ddl - 1])
  }

  // One index step per copied name, on the last copy of that name; create_fk waits for them all.
  ghost predicate Indexed(src: Source, opts: Options, steps: seq<Step>, l: Layout)
    requires l.ddl >= 1 && l.indexes == l.ddl + 1 + |CopyTargets(src, opts)| && l.indexes <= l.fk < |steps|
  {
    && (forall k :: l.indexes <= k < l.fk ==> IndexesLastCopy(src, opts, steps[k], l))
    && (forall t <- CopyTargets(src, opts) :: exists k :: l.indexes <= k < l.fk && steps[k].target == t)
    && steps[l.fk].kind == CreateFk
    && steps[l.fk].deps == (if opts.skipData then [l.ddl] else Positions(l.indexes, l.fk))
  }

  ghost predicate IndexesLastCopy(src: Source, opts: Options, s: Step, l: Layout) {
    s.kind == CreateIndex && |s.deps| == 1 && LastAt(CopyTargets(src, opts), s.target, s.deps[0] - l.ddl - 1)
  }

  function Positions(from: nat, to: nat): seq<nat>
    requires from <= to
  {
    seq(to - from, i requires 0 <= i < to - from => from + i)
  }

  // d is the step of a view whose name is used.
  ghost predicate UsesView(src: Source, l: Layout, uses: set<string>, d: nat) {
    exists name <- uses :: LastAt(Names(src.views), name, d - Views(l))
  }

  // Views and routines wait for create_fk and the views they read; validate waits for everything.
  ghost predicate Tail(src: Source, steps: seq<Step>, l: Layout)
    requires l.routines == Views(l) + |src.views| && l.validate == l.routines + |src.routines|
    requires |steps| == l.validate + 1
  {
    && (forall k :: Views(l) <= k < l.routines ==>
          steps[k].kind == CreateRoutine && steps[k].target == "view:" + src.views[k - Views(l)].name &&
            ViewDeps(src, steps, l, k))
    && (forall k :: l.routines <= k < l.validate ==>
          steps[k].kind == CreateRoutine && RoutineDeps(src, steps, l, k) &&
            steps[k].target == src.routines[k - l.routines].kind + ":" + src.routines[k - l.routines].name)
    && steps[l.validate].kind == Validate
    && steps[l.validate].deps == Positions(0, l.validate)
  }

  ghost predicate ViewDeps(src: Source, steps: seq<Step>, l: Layout, k: nat)
    requires Views(l) <= k < l.routines < |steps| && l.routines == Views(l) + |src.views|
  {
    var name := src.views[k - Views(l)].name;
    forall d: nat :: d in steps[k].deps <==> d == l.fk || ReadsView(src, l, name, d)
  }

  // d is the step of another view that the first view of that name reads.
  ghost predicate ReadsView(src: Source, l: Layout, name: string, d: nat) {
    exists f :: FirstAt(Names(src.views), name, f) && UsesView(src, l, src.views[f].uses - {name}, d)
  }

  ghost predicate RoutineDeps(src: Source, steps: seq<Step>, l: Layout, k: nat)
    requires l.routines <= k < l.validate < |steps| && l.validate == l.routines + |src.routines|
  {
    forall d: nat :: d in steps[k].deps <==> d == l.fk || UsesView(src, l, src.routines[k - l.routines].uses, d)
  }

  /* ---- building the plan ---- */

  // Only views are named as views.
  predicate RoutineNames(src: Source) {
    forall r <- src.routines :: !("view:" <= r.kind + ":" + r.name)
  }

  predicate IndexStep(s: Step, k: nat, copyIds: map<string, nat>) {
    s.id == k && s.level == 0 && s.kind == CreateIndex && s.target in copyIds && s.deps == [copyIds[s.target]]
  }

  ghost predicate RoutineStep(s: Step, k: nat, r: Routine, fk: nat, viewIds: map<string, nat>) {
    s.id == k && s.level == 0 && s.kind == CreateRoutine && s.target == r.kind + ":" + r.name &&
    forall d :: d in s.deps <==> d == fk || Uses(viewIds, r.uses, d)
  }

  predicate IsViewStep(s: Step) {
    s.kind == CreateRoutine && "view:" <= s.target
  }

  ghost predicate Linked(before: Step, after: Step, views: seq<View>, viewIds: map<string, nat>) {
    after == before.(deps := after.deps) &&
    if IsViewStep(before) then
      var name := before.target[5..];
      forall d :: d in after.deps <==> d in before.deps || Reads(viewIds, views, name, d)
    else after == before
  }

  ghost predicate Reads(viewIds: map<string, nat>, views: seq<View>, name: string, d: nat) {
    exists f :: FirstAt(Names(views), name, f) && Uses(viewIds, views[f].uses - {name}, d)
  }

  function Prelude(opts: Options): seq<Step> {
    if opts.createTargetDb then
      [Step(0, CreateTargetDb, "", [], 0), Step(1, Inspect, "", [0], 0), Step(2, CreateDdl, "", [1], 0)]
    else [Step(0, Inspect, "", [], 0), Step(1, CreateDdl, "", [0], 0)]
  }

  class Plan {
    var steps: seq<Step>

    constructor ()
      ensures steps == []
    {
      steps := [];
    }

    // Ids are fresh: a step's id is its position.
    method AddStep(kind: Kind, target: string, deps: seq<nat>) returns (id: nat)
      modifies this
      ensures id == old(|steps|) && steps == old(steps) + [Step(id, kind, target, deps, 0)]
    {
      id := |steps|;
      steps := steps + [Step(id, kind, target, deps, 0)];
    }

    // One copy per target; the map keeps the last copy of a name.
    method AddCopies(targets: seq<string>, ddl: nat) returns (copyIds: map<string, nat>)
      modifies this
      ensures old(steps) <= steps && |steps| == old(|steps|) + |targets|
      ensures forall k :: old(|steps|) <= k < |steps| ==>
        steps[k] == Step(k, CopyTable, targets[k - old(|steps|)], [ddl], 0)
      ensures forall t :: t in copyIds <==> t in targets
      ensures forall t <- copyIds :: LastAt(targets, t, copyIds[t] - old(|steps|))
    {
      copyIds := map[];
      var i := 0;
      while i < |targets|
        invariant i <= |targets| && old(steps) <= steps && |steps| == old(|steps|) + i
        invariant forall k :: old(|steps|) <= k < |steps| ==>
          steps[k] == Step(k, CopyTable, targets[k - old(|steps|)], [ddl], 0)
        invariant forall t :: t in copyIds <==> t in targets[..i]
        invariant forall t <- copyIds :: LastAt(targets[..i], t, copyIds[t] - old(|steps|))
      {
        var id := AddStep(CopyTable, targets[i], [ddl]);
        copyIds := copyIds[targets[i] := id];
        i := i + 1;
      }
      assert targets[..i] == targets;
    }

    // One index step per copied name, in no particular order.
    method AddIndexes(copyIds: map<string, nat>) returns (indexIds: seq<nat>)
      modifies this
      ensures old(steps) <= steps
      ensures indexIds == Positions(old(|steps|), |steps|)
      ensures forall k :: old(|steps|) <= k < |steps| ==> IndexStep(steps[k], k, copyIds)
      ensures forall t <- copyIds :: exists k :: old(|steps|) <= k < |steps| && steps[k].target == t
    {
      indexIds := [];
      var todo := copyIds.Keys;
      while todo != {}
        invariant todo <= copyIds.Keys && old(steps) <= steps
        invariant indexIds == Positions(old(|steps|), |steps|)
        invariant forall k :: old(|steps|) <= k < |steps| ==> IndexStep(steps[k], k, copyIds)
        invariant forall t <- copyIds :: t in todo || exists k :: old(|steps|) <= k < |steps| && steps[k].target == t
        decreases todo
      {
        var t :| t in todo;
        ghost var before := steps;
        var id := AddStep(CreateIndex, t, [copyIds[t]]);
        assert steps[id].target == t;
        assert forall k :: 0 <= k < |before| ==> steps[k] == before[k];
        indexIds := indexIds + [id];
        todo := todo - {t};
      }
    }

    method AddViews(names: seq<string>, fk: nat) returns (viewIds: map<string, nat>)
      modifies this
      ensures old(steps) <= steps && |steps| == old(|steps|) + |names|
      ensures forall k :: old(|steps|) <= k < |steps| ==>
        steps[k] == Step(k, CreateRoutine, "view:" + names[k - old(|steps|)], [fk], 0)
      ensures forall n :: n in viewIds <==> n in names
      ensures forall n <- viewIds :: LastAt(names, n, viewIds[n] - old(|steps|))
    {
      viewIds := map[];
      var i := 0;
      while i < |names|
        invariant i <= |names| && old(steps) <= steps && |steps| == old(|steps|) + i
        invariant forall k :: old(|steps|) <= k < |steps| ==>
          steps[k] == Step(k, CreateRoutine, "view:" + names[k - old(|steps|)], [fk], 0)
        invariant forall n :: n in viewIds <==> n in names[..i]
        invariant forall n <- viewIds :: LastAt(names[..i], n, viewIds[n] - old(|steps|))
      {
        var id := AddStep(CreateRoutine, "view:" + names[i], [fk]);
        viewIds := viewIds[names[i] := id];
        i := i + 1;
      }
      assert names[..i] == names;
    }

    method AddRoutines(routines: seq<Routine>, fk: nat, viewIds: map<string, nat>)
      modifies this
      ensures old(steps) <= steps && |steps| == old(|steps|) + |routines|
      ensures forall k :: old(|steps|) <= k < |steps| ==>
        RoutineStep(steps[k], k, routines[k - old(|steps|)], fk, viewIds)
    {
      var i := 0;
      while i < |routines|
        invariant i <= |routines| && old(steps) <= steps && |steps| == old(|steps|) + i
        invariant forall k :: old(|steps|) <= k < |steps| ==>
          RoutineStep(steps[k], k, routines[k - old(|steps|)], fk, viewIds)
      {
        var deps := DepsOn(viewIds, routines[i].uses, [fk]);
        ghost var before := steps;
        var id := AddStep(CreateRoutine, routines[i].kind + ":" + routines[i].name, deps);
        assert RoutineStep(steps[id], id, routines[i], fk, viewIds);
        assert forall j :: 0 <= j < |before| ==> steps[j] == before[j];
        i := i + 1;
      }
    }

    // View steps also wait for the views their own text reads.
    method LinkViews(views: seq<View>, viewIds: map<string, nat>)
      modifies this
      ensures |steps| == old(|steps|)
      ensures forall k :: 0 <= k < |steps| ==> Linked(old(steps[k]), steps[k], views, viewIds)
    {
      var i := 0;
      while i < |steps|
        invariant i <= |steps| == old(|steps|)
        invariant forall k :: i <= k < |steps| ==> steps[k] == old(steps[k])
        invariant forall k :: 0 <= k < i ==> Linked(old(steps[k]), steps[k], views, viewIds)
      {
        var s := steps[i];
        if IsViewStep(s) {
          var name := s.target[5..];
          var uses := FindUses(views, name);
          var deps := DepsOn(viewIds, uses - {name}, s.deps);
          assert forall d :: Uses(viewIds, uses - {name}, d) <==> Reads(viewIds, views, name, d);
          steps := steps[i := s.(deps := deps)];
        }
        i := i + 1;
      }
    }

    method AddPrelude(opts: Options) returns (ddl: nat)
      requires steps == []
      modifies this
      ensures steps == Prelude(opts) && ddl == |steps| - 1
    {
      var pre: seq<nat> := [];
      if opts.createTargetDb {
        var db := AddStep(CreateTargetDb, "", []);
        pre := [db];
      }
      var inspect := AddStep(Inspect, "", pre);
      ddl := AddStep(CreateDdl, "", [inspect]);
    }

    method AddCopiesAndIndexes(targets: seq<string>, ddl: nat)
      returns (indexIds: seq<nat>, ghost indexes: nat, ghost copyIds: map<string, nat>)
      modifies this
      ensures old(steps) <= steps && indexes == old(|steps|) + |targets| <= |steps|
      ensures indexIds == Positions(indexes, |steps|)
      ensures forall k :: old(|steps|) <= k < indexes ==>
        steps[k] == Step(k, CopyTable, targets[k - old(|steps|)], [ddl], 0)
      ensures forall k :: indexes <= k < |steps| ==> IndexStep(steps[k], k, copyIds)
      ensures forall t <- targets :: exists k :: indexes <= k < |steps| && steps[k].target == t
      ensures forall t <- copyIds :: LastAt(targets, t, copyIds[t] - old(|steps|))
    {
      hide LastAt, IndexStep;
      var ids := AddCopies(targets, ddl);
      copyIds := ids;
      indexes := |steps|;
      ghost var copied := steps;
      indexIds := AddIndexes(ids);
      assert forall k :: 0 <= k < |copied| ==> steps[k] == copied[k];
    }

    // Up to create_fk.
    method BuildData(src: Source, opts: Options) returns (ghost l: Layout)
      requires steps == []
      modifies this
      ensures DataLayout(src, opts, l) && |steps| == l.fk + 1 && forall k :: 0 <= k < |steps| ==>
        steps[k].id == k && steps[k].level == 0
      ensures Skeleton(src, opts, steps, l) && Indexed(src, opts, steps, l)
    {
      hide LastAt, IndexStep;
      var ddl := AddPrelude(opts);
      ghost var prelude := steps;
      ghost var copyIds := map[];
      ghost var indexes := |steps|;
      var indexIds := [];
      if !opts.skipData {
        indexIds, indexes, copyIds := AddCopiesAndIndexes(src.tables + src.histories, ddl);
      }
      ghost var indexed := steps;
      var fk := AddStep(CreateFk, "", if opts.skipData then [ddl] else indexIds);
      l := Layout(ddl, indexes, fk, 0, 0);
      assert forall k :: 0 <= k < |indexed| ==> steps[k] == indexed[k];
      DataPlanned(src, opts, steps, l, copyIds);
    }

    method Build(src: Source, opts: Options) returns (ghost l: Layout)
      requires RoutineNames(src) && steps == []
      modifies this
      ensures Planned(src, opts, steps, l)
    {
      hide Skeleton, Indexed, IndexesLastCopy, LastAt, Linked, RoutineStep, Tail, RoutineNames;
      ghost var l0 := BuildData(src, opts);
      ghost var data := steps;
      ghost var before;
      var viewIds, routines := AddViewsAndRoutines(src, |steps| - 1);
      before := steps;
      LinkViews(src.views, viewIds);
      ghost var linked := steps;
      var validate := AddStep(Validate, "", Positions(0, |steps|));
      l := Layout(l0.ddl, l0.indexes, l0.fk, routines, validate);
      assert forall k :: 0 <= k < |linked| ==> steps[k] == linked[k];
      DataUnlinked(src, opts, data, before, linked, l0, viewIds);
      DataKept(src, opts, data, steps, l0, l);
      TailLinked(src, data, before, linked, steps, l, viewIds);
    }

    method AddViewsAndRoutines(src: Source, fk: nat) returns (viewIds: map<string, nat>, ghost routines: nat)
      requires |steps| == fk + 1
      modifies this
      ensures old(steps) <= steps && routines == fk + 1 + |src.views| && |steps| == routines + |src.routines|
      ensures (forall n :: n in viewIds <==> n in Names(src.views)) &&
        forall n <- viewIds :: LastAt(Names(src.views), n, viewIds[n] - fk - 1)
      ensures forall k :: fk < k < routines ==>
        steps[k] == Step(k, CreateRoutine, "view:" + Names(src.views)[k - fk - 1], [fk], 0)
      ensures forall k :: routines <= k < |steps| ==> RoutineStep(steps[k], k, src.routines[k - routines], fk, viewIds)
    {
      hide LastAt, RoutineStep;
      viewIds := AddViews(Names(src.views), fk);
      routines := |steps|;
      ghost var viewed := steps;
      AddRoutines(src.routines, fk, viewIds);
      assert forall k :: 0 <= k < |viewed| ==> steps[k] == viewed[k];
    }
  }

  ghost predicate DataLayout(src: Source, opts: Options, l: Layout) {
    l.ddl == (if opts.createTargetDb then 2 else 1) && l.indexes == l.ddl + 1 + |CopyTargets(src, opts)| &&
      l.indexes <= l.fk
  }

  lemma DataPlanned(src: Source, opts: Options, steps: seq<Step>, l: Layout, copyIds: map<string, nat>)
    requires DataLayout(src, opts, l) && |steps| == l.fk + 1 && steps[..l.ddl + 1] == Prelude(opts)
    requires forall k :: l.ddl < k < l.indexes ==>
      steps[k] == Step(k, CopyTable, CopyTargets(src, opts)[k - l.ddl - 1], [l.ddl], 0)
    requires forall k :: l.indexes <= k < l.fk ==> IndexStep(steps[k], k, copyIds)
    requires forall t <- CopyTargets(src, opts) :: exists k :: l.indexes <= k < l.fk && steps[k].target == t
    requires forall t <- copyIds :: LastAt(CopyTargets(src, opts), t, copyIds[t] - l.ddl - 1)
    requires steps[l.fk] == Step(l.fk, CreateFk, "", if opts.skipData then [l.ddl] else Positions(l.indexes, l.fk), 0)
    ensures Skeleton(src, opts, steps, l) && Indexed(src, opts, steps, l)
    ensures forall k :: 0 <= k < |steps| ==> steps[k].id == k && steps[k].level == 0
  {
    assert forall k :: 0 <= k <= l.ddl ==> steps[k] == Prelude(opts)[k];
    forall k | l.indexes <= k < l.fk ensures IndexesLastCopy(src, opts, steps[k], l) {
      assert IndexStep(steps[k], k, copyIds);
    }
  }

  // The steps up to create_fk are no views.
  lemma DataUnlinked(src: Source, opts: Options, data: seq<Step>, before: seq<Step>, linked: seq<Step>,
      l: Layout, viewIds: map<string, nat>)
    requires DataLayout(src, opts, l) && |data| == l.fk + 1 && data <= before && |linked| == |before|
    requires Skeleton(src, opts, data, l) && Indexed(src, opts, data, l)
    requires forall k :: 0 <= k < |before| ==> Linked(before[k], linked[k], src.views, viewIds)
    ensures data <= linked
  {
    forall k | 0 <= k < |data| ensures linked[k] == data[k] {
      assert Linked(before[k], linked[k], src.views, viewIds);
      assert data[k].kind != CreateRoutine by {
        if l.indexes <= k < l.fk {
          assert IndexesLastCopy(src, opts, data[k], l);
        }
      }
    }
  }

  lemma DataKept(src: Source, opts: Options, data: seq<Step>, steps: seq<Step>, l0: Layout, l: Layout)
    requires DataLayout(src, opts, l0) && |data| == l0.fk + 1 && data <= steps
    requires l == l0.(routines := l.routines, validate := l.validate)
    requires Skeleton(src, opts, data, l0) && Indexed(src, opts, data, l0)
    ensures Skeleton(src, opts, steps, l) && Indexed(src, opts, steps, l)
  {
    assert forall k :: 0 <= k < |data| ==> steps[k] == data[k];
    SkeletonKept(src, opts, data, steps, l0, l);
    IndexedKept(src, opts, data, steps, l0, l);
  }

  lemma SkeletonKept(src: Source, opts: Options, data: seq<Step>, steps: seq<Step>, l0: Layout, l: Layout)
    requires |data| == l0.fk + 1 <= |steps| && forall k :: 0 <= k < |data| ==> steps[k] == data[k]
    requires DataLayout(src, opts, l0) && l == l0.(routines := l.routines, validate := l.validate)
    requires Skeleton(src, opts, data, l0)
    ensures Skeleton(src, opts, steps, l)
  {}

  lemma IndexedKept(src: Source, opts: Options, data: seq<Step>, steps: seq<Step>, l0: Layout, l: Layout)
    requires |data| == l0.fk + 1 <= |steps| && forall k :: 0 <= k < |data| ==> steps[k] == data[k]
    requires DataLayout(src, opts, l0) && l == l0.(routines := l.routines, validate := l.validate)
    requires Indexed(src, opts, data, l0)
    ensures Indexed(src, opts, steps, l)
  {
    forall k | l.indexes <= k < l.fk ensures IndexesLastCopy(src, opts, steps[k], l) {
      assert IndexesLastCopy(src, opts, data[k], l0);
    }
    forall t | t in CopyTargets(src, opts) ensures exists k :: l.indexes <= k < l.fk && steps[k].target == t {
      var k :| l0.indexes <= k < l0.fk && data[k].target == t;
      assert steps[k].target == t;
    }
  }

  // The map keeps exactly the last step of each view name.
  ghost predicate LastViews(src: Source, l: Layout, viewIds: map<string, nat>) {
    && (forall n :: n in viewIds <==> n in Names(src.views))
    && forall n <- viewIds :: LastAt(Names(src.views), n, viewIds[n] - Views(l))
  }

  lemma UsesMeans(src: Source, l: Layout, viewIds: map<string, nat>, uses: set<string>, d: nat)
    requires LastViews(src, l, viewIds)
    ensures Uses(viewIds, uses, d) <==> UsesView(src, l, uses, d)
  {
    hide Names;
    if UsesView(src, l, uses, d) {
      var n :| n in uses && LastAt(Names(src.views), n, d - Views(l));
      assert n in viewIds;
      OneLast(Names(src.views), n, d - Views(l), viewIds[n] - Views(l));
    }
  }

  lemma ReadsMeans(src: Source, l: Layout, viewIds: map<string, nat>, name: string, d: nat)
    requires LastViews(src, l, viewIds)
    ensures Reads(viewIds, src.views, name, d) <==> ReadsView(src, l, name, d)
  {
    hide Uses, UsesView, LastViews;
    forall f | FirstAt(Names(src.views), name, f)
      ensures Uses(viewIds, src.views[f].uses - {name}, d) <==> UsesView(src, l, src.views[f].uses - {name}, d)
    {
      UsesMeans(src, l, viewIds, src.views[f].uses - {name}, d);
    }
  }

  lemma OneLast(names: seq<string>, t: string, j: int, k: int)
    requires LastAt(names, t, j) && LastAt(names, t, k)
    ensures j == k
  {}

  lemma TailLinked(src: Source, data: seq<Step>, before: seq<Step>, linked: seq<Step>, steps: seq<Step>,
      l: Layout, viewIds: map<string, nat>)
    requires RoutineNames(src) && |data| == Views(l) && l.routines == Views(l) + |src.views|
    requires l.validate == l.routines + |src.routines| == |before| == |linked| && |steps| == l.validate + 1
    requires LastViews(src, l, viewIds)
    requires forall k :: |data| <= k < l.routines ==>
      before[k] == Step(k, CreateRoutine, "view:" + Names(src.views)[k - |data|], [l.fk], 0)
    requires forall k :: l.routines <= k < |before| ==>
      RoutineStep(before[k], k, src.routines[k - l.routines], l.fk, viewIds)
    requires forall k :: 0 <= k < |before| ==> Linked(before[k], linked[k], src.views, viewIds)
    requires forall k :: 0 <= k < |linked| ==> steps[k] == linked[k]
    requires steps[l.validate] == Step(l.validate, Validate, "", Positions(0, l.validate), 0)
    ensures Tail(src, steps, l)
    ensures forall k :: Views(l) <= k < |steps| ==> steps[k].id == k && steps[k].level == 0
  {
    forall k | Views(l) <= k < l.routines
      ensures steps[k].kind == CreateRoutine && steps[k].id == k && steps[k].level == 0
      ensures steps[k].target == "view:" + src.views[k - Views(l)].name && ViewDeps(src, steps, l, k)
    {
      var i := k - Views(l);
      var name := src.views[i].name;
      assert before[k] == Step(k, CreateRoutine, "view:" + name, [l.fk], 0);
      assert ("view:" + name)[5..] == name;
      assert Linked(before[k], linked[k], src.views, viewIds);
      forall d: nat ensures d in steps[k].deps <==> d == l.fk || ReadsView(src, l, name, d) {
        ReadsMeans(src, l, viewIds, name, d);
      }
    }
    forall k | l.routines <= k < l.validate
      ensures steps[k].kind == CreateRoutine && steps[k].id == k && steps[k].level == 0 && RoutineDeps(src, steps, l, k)
      ensures steps[k].target == src.routines[k - l.routines].kind + ":" + src.routines[k - l.routines].name
    {
      var r := src.routines[k - l.routines];
      assert RoutineStep(before[k], k, r, l.fk, viewIds);
      assert Linked(before[k], linked[k], src.views, viewIds);
      assert r in src.routines && !IsViewStep(before[k]);
      forall d: nat ensures d in steps[k].deps <==> d == l.fk || UsesView(src, l, r.uses, d) {
        UsesMeans(src, l, viewIds, r.uses, d);
      }
    }
  }

  // What the first view of that name reads.
  method FindUses(views: seq<View>, name: string) returns (uses: set<string>)
    ensures forall f :: FirstAt(Names(views), name, f) ==> uses == views[f].uses
    ensures uses == {} || exists f :: FirstAt(Names(views), name, f)
  {
    uses := {};
    var i := 0;
    while i < |views|
      invariant i <= |views| && uses == {} && forall k :: 0 <= k < i ==> Names(views)[k] != name
    {
      if views[i].name == name {
        assert FirstAt(Names(views), name, i);
        return views[i].uses;
      }
      i := i + 1;
    }
  }

  // d is the step of a view that is read.
  predicate Uses(viewIds: map<string, nat>, uses: set<string>, d: nat) {
    exists n <- viewIds :: n in uses && viewIds[n] == d
  }

  // deps, then the steps of the views that are read, in no particular order.
  method DepsOn(viewIds: map<string, nat>, uses: set<string>, deps: seq<nat>) returns (r: seq<nat>)
    ensures forall d :: d in r <==> d in deps || Uses(viewIds, uses, d)
  {
    r := deps;
    var todo := viewIds.Keys;
    while todo != {}
      invariant todo <= viewIds.Keys
      invariant forall d :: d in r <==> d in deps || exists n <- viewIds :: n !in todo && n in uses && viewIds[n] == d
      decreases todo
    {
      var n :| n in todo;
      if n in uses {
        r := r + [viewIds[n]];
      }
      todo := todo - {n};
    }
  }
}
