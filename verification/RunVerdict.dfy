/** The judge: a run is never left undecided without something to run, and fails only when nothing can. */
module RunVerdict {
  import opened Wrappers
  import opened RunDb

  // The stored levels fall along every dependency.
  ghost predicate Leveled(db: Db) {
    forall s <- db.steps :: db.steps[s].level >= 0 &&
      forall d <- db.steps[s].deps :: d in db.steps ==> db.steps[d].level < db.steps[s].level
  }

  ghost predicate DepsKnown(db: Db) {
    forall s <- db.steps :: forall d <- db.steps[s].deps :: d in db.steps
  }

  predicate Stopped(db: Db, s: nat) {
    s in db.steps && (db.steps[s].status == Failed || db.steps[s].status == Cancelled)
  }

  ghost predicate Blocked(db: Db, s: nat) {
    exists f :: WaitsFor(db, s, f) && Stopped(db, f)
  }

  // A step that cannot run waits for one that is not done.
  lemma NotRunnable(db: Db, s: nat) returns (d: nat)
    requires s in db.steps && db.steps[s].status == Pending && !IsRunnable(db, s)
    ensures d in db.steps[s].deps && d in db.steps && db.steps[d].status != Succeeded
  {
    d :| d in db.steps[s].deps && d in db.steps && db.steps[d].status != Succeeded;
  }

  lemma WaitsLonger(db: Db, s: nat, d: nat, f: nat)
    requires s in db.steps && d in db.steps[s].deps && WaitsFor(db, d, f)
    ensures WaitsFor(db, s, f)
  {
    var path :| Walk(db, path) && path[0] == d && path[|path| - 1] == f;
    var longer := [s] + path;
    assert forall k :: 0 < k < |longer| ==> longer[k] == path[k - 1];
    assert Walk(db, longer);
  }

  lemma WaitsForItself(db: Db, s: nat)
    requires s in db.steps
    ensures WaitsFor(db, s, s)
  {
    assert Walk(db, [s]);
  }

  // When nothing runs and nothing can, every pending step waits, at some remove, for a stopped one.
  lemma {:induction false} PendingBlocked(db: Db, s: nat)
    requires Leveled(db) && !AnyRunning(db) && !AnyRunnable(db)
    requires s in db.steps && db.steps[s].status == Pending
    ensures Blocked(db, s)
    decreases db.steps[s].level
  {
    hide WaitsFor;
    var d := NotRunnable(db, s);
    if db.steps[d].status == Pending {
      PendingBlocked(db, d);
      var f :| WaitsFor(db, d, f) && Stopped(db, f);
      WaitsLonger(db, s, d, f);
    } else {
      assert Stopped(db, d);
      WaitsForItself(db, d);
      WaitsLonger(db, s, d, d);
    }
  }

  // Steps that succeeded have only dependencies that did.
  ghost predicate DoneInOrder(db: Db) {
    forall s <- db.steps :: db.steps[s].status == Succeeded ==> DepsDone(db, s)
  }

  lemma {:induction false} DoneAllTheWay(db: Db, path: seq<nat>)
    requires DoneInOrder(db) && Walk(db, path) && db.steps[path[0]].status == Succeeded
    ensures db.steps[path[|path| - 1]].status == Succeeded
  {
    if |path| > 1 {
      assert DepsDone(db, path[0]);
      assert path[1] in db.steps[path[0]].deps;
      var rest := path[1..];
      assert forall k :: 0 <= k < |rest| ==> rest[k] == path[k + 1];
      assert Walk(db, rest);
      DoneAllTheWay(db, rest);
    }
  }

  lemma RunnableNotBlocked(db: Db, s: nat)
    requires DoneInOrder(db) && DepsKnown(db) && IsRunnable(db, s)
    ensures !Blocked(db, s)
  {
    if Blocked(db, s) {
      var f :| WaitsFor(db, s, f) && Stopped(db, f);
      var path :| Walk(db, path) && path[0] == s && path[|path| - 1] == f;
      if |path| > 1 {
        assert path[1] in db.steps[s].deps;
        var rest := path[1..];
        assert forall k :: 0 <= k < |rest| ==> rest[k] == path[k + 1];
        DoneAllTheWay(db, rest);
      }
    }
  }

  // Whatever the order of the steps: a run is failed only when a step stopped, none runs, and every
  // pending step waits for a stopped one.
  lemma FailedOnlyIfBlocked(db: Db)
    requires Leveled(db) && Verdict(db) == Some(RunFailed)
    ensures (exists s :: Stopped(db, s)) && !AnyRunning(db)
    ensures forall s <- db.steps :: db.steps[s].status == Pending ==> Blocked(db, s)
  {
    hide Blocked, IsRunnable, Leveled;
    AnyStopped(db);
    forall s | s in db.steps && db.steps[s].status == Pending ensures Blocked(db, s) {
      PendingBlocked(db, s);
    }
  }

  // A running run is failed exactly when a step stopped, none runs, and every pending step waits for
  // a stopped one.
  lemma FailedExactly(db: Db)
    requires Leveled(db) && DepsKnown(db) && DoneInOrder(db) && db.run == RunRunning
    ensures Verdict(db) == Some(RunFailed) <==>
      (exists s :: Stopped(db, s)) && !AnyRunning(db) && forall s <- db.steps :: db.steps[s].status == Pending ==>
        Blocked(db, s)
  {
    hide Blocked, IsRunnable, Leveled, DoneInOrder, DepsKnown;
    AnyStopped(db);
    if Verdict(db) == Some(RunFailed) {
      FailedOnlyIfBlocked(db);
    }
    if AnyRunnable(db) {
      var s :| s in db.steps && IsRunnable(db, s);
      RunnableNotBlocked(db, s);
      assert db.steps[s].status == Pending by {
        RunnableIsPending(db, s);
      }
    }
  }

  lemma AnyStopped(db: Db)
    ensures AnyFailed(db) <==> exists s :: Stopped(db, s)
  {
    if AnyFailed(db) {
      var s :| s in db.steps && (db.steps[s].status == Failed || db.steps[s].status == Cancelled);
      assert Stopped(db, s);
    }
  }

  lemma RunnableIsPending(db: Db, s: nat)
    requires IsRunnable(db, s)
    ensures s in db.steps && db.steps[s].status == Pending
  {}

  // A running run stays undecided exactly while a step is marked running, or is pending and waits for no
  // other, be it locked or its job done.
  lemma UndecidedExactly(db: Db)
    requires Leveled(db) && db.run == RunRunning && db.steps != map[]
    ensures Verdict(db).None? <==> AnyRunning(db) || AnyRunnable(db)
  {
    hide Blocked, Leveled;
    if !AnyRunning(db) && !AnyRunnable(db) && !AnyFailed(db) {
      forall s | s in db.steps ensures db.steps[s].status == Succeeded {
        if db.steps[s].status == Pending {
          PendingBlocked(db, s);
          BlockedMeansFailed(db, s);
        }
      }
    }
  }

  lemma BlockedMeansFailed(db: Db, s: nat)
    requires Blocked(db, s)
    ensures AnyFailed(db)
  {
    var f :| WaitsFor(db, s, f) && Stopped(db, f);
  }
}
