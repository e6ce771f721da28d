/** From the invariant to the order itself: a revived job of a succeeded step, and a completion beside a
    claim that can still fail, each go on to a run that fails the step under its dependents. */
module RunBreaks {
  import opened Wrappers
  import opened RunDb
  import opened RunEvents
  import opened RunQueue
  import opened RunVerdict
  import opened RunOrder
  import opened RunHazards

  lemma FreshWorker(busy: set<nat>) returns (k: nat)
    ensures k !in busy
  {
    k := Above(busy);
  }

  lemma {:induction false} Above(busy: set<nat>) returns (k: nat)
    ensures forall i <- busy :: i < k
    decreases busy
  {
    if busy == {} {
      k := 0;
    } else {
      var i :| i in busy;
      var rest := Above(busy - {i});
      k := if i < rest then rest else i + 1;
      assert forall x <- busy :: x == i || x in busy - {i};
    }
  }

  // t waits for s, which succeeded, and has been dispatched or more.
  ghost predicate Leans(w: World, t: nat, s: nat) {
    && s in w.db.steps && w.db.steps[s].status == Succeeded && t != s
    && t in w.db.steps && s in w.db.steps[t].deps && Touched(w, t)
  }

  lemma FailedUnder(w: World, v: World, t: nat, s: nat)
    requires Leans(w, t, s) && v.db.steps == WithStatus(w.db, s, Failed).steps && v.ready == w.ready
    requires HasJob(w.db, t) ==> HasJob(v.db, t)
    ensures !InOrder(v)
  {
    assert Touched(v, t) && !DepsDone(v.db, t);
  }

  /* ---- a job that fails until it is dead ---- */

  // One more attempt of j, failed.
  function Spent(db: Db, j: nat): Db
    requires j in db.jobs
  {
    WithJob(db, j, Returned(db.jobs[j].(attempts := db.jobs[j].attempts + 1)))
  }

  lemma FailedRound(w: World, k: nat, j: nat)
    requires k !in w.flights && Claimable(w.db, j)
    requires w.db.jobs[j].step in w.db.steps && w.db.steps[w.db.jobs[j].step].status == Succeeded
    ensures var es := [Claim(k, j), Begin(k), Err(k), Fail(k), FailStep(k)];
      var v := w.(db := StepFailed(Spent(w.db, j), w.db.jobs[j].step));
      Possible(w, es) && After(w, es) == v
  {
    var f := Flight(j, w.db.jobs[j].step, w.db.jobs[j].batch, Taken);
    var a := w.(db := ClaimedJob(w.db, j), flights := w.flights[k := f]);
    var b := a.(flights := w.flights[k := f.(phase := Working)]);
    var c := a.(flights := w.flights[k := f.(phase := HandlerErr)]);
    var d := World(Spent(w.db, j), w.flights[k := f.(phase := JobFailed)], w.ready);
    var v := w.(db := StepFailed(Spent(w.db, j), f.step));
    RoundEnds(w, k, f, d, v);
    RoundSteps(w, k, j, f, a, b, c, d);
    Chained(w, a, b, c, d, v, [Claim(k, j), Begin(k), Err(k), Fail(k), FailStep(k)]);
  }

  lemma Chained(w: World, a: World, b: World, c: World, d: World, v: World, es: seq<Event>)
    requires |es| == 5 && Enabled(w, es[0]) && Next(w, es[0]) == a && Enabled(a, es[1]) && Next(a, es[1]) == b
    requires Enabled(b, es[2]) && Next(b, es[2]) == c && Enabled(c, es[3]) && Next(c, es[3]) == d
    requires Enabled(d, es[4]) && Next(d, es[4]) == v
    ensures Possible(w, es) && After(w, es) == v
  {
    hide Next, Enabled;
    Also(d, es[4], v, []);
    Also(c, es[3], d, [es[4]]);
    Also(b, es[2], c, [es[3]] + [es[4]]);
    Also(a, es[1], b, [es[2]] + ([es[3]] + [es[4]]));
    Also(w, es[0], a, [es[1]] + ([es[2]] + ([es[3]] + [es[4]])));
    assert [es[0]] + ([es[1]] + ([es[2]] + ([es[3]] + [es[4]]))) == es;
  }

  lemma RoundSteps(w: World, k: nat, j: nat, f: Flight, a: World, b: World, c: World, d: World)
    requires k !in w.flights && Claimable(w.db, j) && f == Flight(j, w.db.jobs[j].step, w.db.jobs[j].batch, Taken)
    requires f.step in w.db.steps && w.db.steps[f.step].status == Succeeded
    requires a == w.(db := ClaimedJob(w.db, j), flights := w.flights[k := f])
    requires b == a.(flights := w.flights[k := f.(phase := Working)])
    requires c == a.(flights := w.flights[k := f.(phase := HandlerErr)])
    requires d == World(Spent(w.db, j), w.flights[k := f.(phase := JobFailed)], w.ready)
    ensures Next(w, Claim(k, j)) == a && Next(a, Begin(k)) == b && Next(b, Err(k)) == c && Next(c, Fail(k)) == d
  {
    assert w.flights[k := f][k := f.(phase := Working)] == b.flights;
    assert b.flights[k := f.(phase := HandlerErr)] == c.flights;
    assert c.flights[k := f.(phase := JobFailed)] == d.flights;
    assert FailedJob(c.db, j).jobs == Spent(w.db, j).jobs;
  }

  lemma RoundEnds(w: World, k: nat, f: Flight, d: World, v: World)
    requires k !in w.flights && d.flights == w.flights[k := f.(phase := JobFailed)]
    requires d.ready == w.ready && v == w.(db := StepFailed(d.db, f.step))
    ensures At(d, k, JobFailed) && Next(d, FailStep(k)) == v
  {
    assert d.flights - {k} == w.flights;
  }

  // Workers alone, claiming and failing the job to its maximum, take the step down.
  lemma {:induction false} RetriesBreak(w: World, j: nat, t: nat) returns (es: seq<Event>)
    requires Claimable(w.db, j) && Leans(w, t, w.db.jobs[j].step)
    ensures Possible(w, es) && !InOrder(After(w, es)) && forall e <- es :: IsWorker(e)
    decreases w.db.jobs[j].max - w.db.jobs[j].attempts
  {
    var s := w.db.jobs[j].step;
    var k := FreshWorker(w.flights.Keys);
    es := [Claim(k, j), Begin(k), Err(k), Fail(k), FailStep(k)];
    FailedRound(w, k, j);
    var v := w.(db := StepFailed(Spent(w.db, j), s));
    SpentJobs(w.db, j, t);
    if HasDeadJob(Spent(w.db, j), s) {
      FailedUnder(w, v, t, s);
    } else {
      assert Spent(w.db, j).jobs[j].step == s && v.db == Spent(w.db, j);
      assert Claimable(v.db, j) && Leans(v, t, s);
      hide Possible, After, Claimable, Leans, InOrder, Next, Spent, StepFailed, HasDeadJob;
      var rest := RetriesBreak(v, j, t);
      Then(w, es, rest);
      es := es + rest;
    }
  }

  lemma SpentJobs(db: Db, j: nat, t: nat)
    requires j in db.jobs
    ensures HasJob(db, t) <==> HasJob(Spent(db, j), t)
  {
    forall i | i in db.jobs ensures Spent(db, j).jobs[i].step == db.jobs[i].step {}
    if HasJob(db, t) {
      var i :| i in db.jobs && db.jobs[i].step == t;
      assert Spent(db, j).jobs[i].step == t;
    }
  }

  // One run after another.
  lemma {:induction false} Then(w: World, a: seq<Event>, b: seq<Event>)
    requires Possible(w, a) && Possible(After(w, a), b)
    ensures Possible(w, a + b) && After(w, a + b) == After(After(w, a), b)
    decreases |a|
  {
    if a == [] {
      assert a + b == b;
    } else {
      Then(Next(w, a[0]), a[1..], b);
      assert (a + b)[0] == a[0] && (a + b)[1..] == a[1..] + b;
    }
  }

  // An event that revives a job of a succeeded step, in a safe state, goes on to break the order as
  // soon as something leans on the step.
  lemma RevivalBreaks(w: World, e: Event, steps: set<nat>, j: nat, t: nat) returns (es: seq<Event>)
    requires Safe(w) && Enabled(w, e) && QueueOk(w.db)
    requires (e.RetryJobs? && steps == w.db.steps.Keys) ||
             (e.PlayLevel? && steps == AtLevel(w.db, e.level)) || (e.PlayStep? && steps == {e.s})
    requires j in w.db.jobs && w.db.jobs[j].status != Done && w.db.jobs[j].step in steps
    requires Leans(w, t, w.db.jobs[j].step)
    ensures Possible(Next(w, e), es) && !InOrder(After(Next(w, e), es)) && forall i <- es :: IsWorker(i)
  {
    var s, v := w.db.jobs[j].step, Next(w, e);
    assert JobKnown(w.db, w.db.jobs[j]) && Quiet(w, s) && JobOk(w.db.jobs[j]);
    LeansOn(w, e, steps, j, t);
    hide Safe, Next, Leans, Claimable, QueueOk;
    es := RetriesBreak(v, j, t);
  }

  lemma LeansOn(w: World, e: Event, steps: set<nat>, j: nat, t: nat)
    requires Enabled(w, e) && j in w.db.jobs && JobOk(w.db.jobs[j])
    requires (e.RetryJobs? && steps == w.db.steps.Keys) ||
             (e.PlayLevel? && steps == AtLevel(w.db, e.level)) || (e.PlayStep? && steps == {e.s})
    requires w.db.jobs[j].status == Dead && w.db.jobs[j].step in steps && Leans(w, t, w.db.jobs[j].step)
    ensures var v := Next(w, e);
      Claimable(v.db, j) && v.db.jobs[j].step == w.db.jobs[j].step && Leans(v, t, v.db.jobs[j].step)
  {
    hide AtLevel, Operated;
    RevivedRows(w.db, e, steps, j);
    RevivedJob(w.db, e, steps, j);
    StaysTouched(w.db, e, t);
  }

  lemma RevivedJob(db: Db, e: Event, steps: set<nat>, j: nat)
    requires j in db.jobs && JobOk(db.jobs[j]) && db.jobs[j].status == Dead && db.jobs[j].step in steps
    requires e.RetryJobs? || (e.PlayLevel? && steps == AtLevel(db, e.level)) || (e.PlayStep? && steps == {e.s})
    ensures Claimable(Operated(db, e), j)
  {
    hide AtLevel;
  }

  lemma StaysTouched(db: Db, e: Event, t: nat)
    requires t in db.steps && (e.RetryJobs? || e.PlayLevel? || e.PlayStep?)
    ensures var b := Operated(db, e);
      t in b.steps && b.steps[t].deps == db.steps[t].deps && (HasJob(db, t) ==> HasJob(b, t)) &&
      (db.steps[t].status == Running || db.steps[t].status == Succeeded ==> b.steps[t].status == db.steps[t].status)
  {
    hide Operated, SameRows;
    var b := Operated(db, e);
    StaysAsItWas(db, e, t);
    OperatedRows(db, e);
    SameJobs(db, b, t);
  }

  lemma SameJobs(a: Db, b: Db, t: nat)
    requires SameRows(a, b)
    ensures HasJob(a, t) ==> HasJob(b, t)
  {
    if HasJob(a, t) {
      var i :| i in a.jobs && a.jobs[i].step == t;
      assert SameOwner(a.jobs[i], b.jobs[i]);
    }
  }

  lemma StaysAsItWas(db: Db, e: Event, t: nat)
    requires t in db.steps && (e.RetryJobs? || e.PlayLevel? || e.PlayStep?)
    ensures var b := Operated(db, e);
      t in b.steps && b.steps[t].deps == db.steps[t].deps &&
      (db.steps[t].status == Running || db.steps[t].status == Succeeded ==> b.steps[t].status == db.steps[t].status)
  {
    hide AtLevel, Played;
    if e.PlayLevel? {
      PlayedAsItWas(db, AtLevel(db, e.level), t);
    } else if e.PlayStep? {
      PlayedAsItWas(db, {e.s}, t);
    }
  }

  lemma PlayedAsItWas(db: Db, steps: set<nat>, t: nat)
    requires t in db.steps
    ensures var b := Played(db, steps);
      t in b.steps && b.steps[t].deps == db.steps[t].deps &&
      (db.steps[t].status == Running || db.steps[t].status == Succeeded ==> b.steps[t].status == db.steps[t].status)
  {}

  /* ---- a completion beside a claim that can still fail ---- */

  // Everything t waits for but s has succeeded, and t is open to the dispatcher.
  ghost predicate Awaits(w: World, t: nat, s: nat) {
    && t in w.db.steps && t != s && s in w.db.steps[t].deps && w.db.steps[t].status == Pending && w.db.steps[t].unlocked
    && !HasStepJob(w.db, t) && w.ready == {}
    && forall d <- w.db.steps[t].deps :: d in w.db.steps && (d == s || w.db.steps[d].status == Succeeded)
  }

  // A claim on s, not past its handler, whose failure will count.
  ghost predicate CanFail(w: World, o: nat, s: nat) {
    && o in w.flights && w.flights[o].step == s && !Past(w.flights[o].phase)
    && w.flights[o].job in w.db.jobs && w.db.jobs[w.flights[o].job].step == s
    && (w.flights[o].phase == JobFailed ==> HasDeadJob(w.db, s))
  }

  // What its worker does next, failing.
  function Failing(w: World, o: nat): Event
    requires o in w.flights && !Past(w.flights[o].phase)
  {
    match w.flights[o].phase
    case Taken => Begin(o)
    case Working => Err(o)
    case HandlerErr => Fail(o)
    case _ => FailStep(o)
  }

  function FailRank(phase: Phase): nat {
    match phase case Taken => 3 case Working => 2 case HandlerErr => 1 case _ => 0
  }

  lemma {:induction false} FailureBreaks(w: World, o: nat, t: nat) returns (es: seq<Event>)
    requires o in w.flights && CanFail(w, o, w.flights[o].step) && Leans(w, t, w.flights[o].step)
    ensures Possible(w, es) && !InOrder(After(w, es)) && forall e <- es :: IsWorker(e)
    decreases FailRank(w.flights[o].phase)
  {
    var s, phase := w.flights[o].step, w.flights[o].phase;
    var e := Failing(w, o);
    var v := Next(w, e);
    var rest: seq<Event> := [];
    if phase == JobFailed {
      FailedUnder(w, v, t, s);
    } else if phase == HandlerErr {
      FailedLeans(w, o, t);
      if HasDeadJob(v.db, s) {
        hide InOrder, Leans, CanFail, HasDeadJob;
        rest := FailureBreaks(v, o, t);
      } else {
        hide InOrder, Leans;
        rest := RetriesBreak(v, w.flights[o].job, t);
      }
    } else {
      assert CanFail(v, o, s) && Leans(v, t, s);
      hide InOrder, Leans, CanFail;
      rest := FailureBreaks(v, o, t);
    }
    hide InOrder, Next;
    es := [e] + rest;
    assert es[1..] == rest;
  }

  lemma FailedLeans(w: World, o: nat, t: nat)
    requires At(w, o, HandlerErr) && CanFail(w, o, w.flights[o].step) && Leans(w, t, w.flights[o].step)
    ensures var v, s := Next(w, Fail(o)), w.flights[o].step;
      Leans(v, t, s) && (HasDeadJob(v.db, s) ==> CanFail(v, o, s)) && v.flights[o].step == s &&
      (!HasDeadJob(v.db, s) ==> Claimable(v.db, w.flights[o].job) && v.db.jobs[w.flights[o].job].step == s)
  {
    var v, j := Next(w, Fail(o)), w.flights[o].job;
    assert forall i <- w.db.jobs :: i in v.db.jobs && v.db.jobs[i].step == w.db.jobs[i].step;
    if HasJob(w.db, t) {
      var i :| i in w.db.jobs && w.db.jobs[i].step == t;
      assert v.db.jobs[i].step == t;
    }
    assert v.db.jobs[j] == Returned(w.db.jobs[j]);
  }

  // The step completed, its dependent dispatched.
  lemma Dispatched(w: World, k: nat, o: nat, t: nat) returns (u: World)
    requires At(w, k, JobDone) && o in w.flights && o != k && w.flights[o].step == w.flights[k].step
    requires w.flights[k].step in w.db.steps && Finishable(w.db, w.flights[k].step) && Awaits(w, t, w.flights[k].step)
    requires CanFail(w, o, w.flights[o].step) && forall j <- w.db.jobs :: j < w.db.next
    ensures Possible(w, [Finalize(k), Query, Dispatch(t)]) && After(w, [Finalize(k), Query, Dispatch(t)]) == u
    ensures o in u.flights && u.flights[o] == w.flights[o] && CanFail(u, o, w.flights[o].step)
    ensures Leans(u, t, w.flights[o].step)
  {
    hide Finishable;
    var s := w.flights[k].step;
    var a := Next(w, Finalize(k));
    assert HasStepJob(a.db, t) == HasStepJob(w.db, t) && IsReady(a.db, t);
    var b := Next(a, Query);
    u := Next(b, Dispatch(t));
    assert u.db.jobs[b.db.next].step == t;
    assert forall j <- w.db.jobs :: u.db.jobs[j] == w.db.jobs[j];
    if HasDeadJob(w.db, s) {
      var j :| j in w.db.jobs && w.db.jobs[j].step == s && w.db.jobs[j].status == Dead;
      assert u.db.jobs[j] == w.db.jobs[j];
    }
    assert CanFail(u, o, s) && Leans(u, t, s);
    hide Next, CanFail, Leans, Awaits;
    Also(b, Dispatch(t), u, []);
    Also(a, Query, b, [Dispatch(t)]);
    Also(w, Finalize(k), a, [Query] + [Dispatch(t)]);
    assert [Finalize(k)] + ([Query] + [Dispatch(t)]) == [Finalize(k), Query, Dispatch(t)];
  }

  // In a safe state, a completion beside a claim that can still fail, when a dependent is only
  // waiting for it, goes on to break the order.
  lemma EarlyCompletionBreaks(w: World, k: nat, o: nat, t: nat) returns (es: seq<Event>)
    requires Safe(w) && At(w, k, JobDone) && Finishable(w.db, w.flights[k].step)
    requires o in w.flights && w.flights[o].step == w.flights[k].step && !Past(w.flights[o].phase)
    requires Awaits(w, t, w.flights[k].step)
    ensures Possible(w, es) && !InOrder(After(w, es)) && es != [] && es[0] == Finalize(k)
    ensures forall e <- es :: IsWorker(e) || e == Query || e == Dispatch(t)
  {
    hide Settled, InOrder, Leveled, Awaits, Possible, After, Leans;
    FinishableJobs(w, k);
    StepJobHeld(w, k);
    assert Holds(w.db, w.flights[o]);
    var j, s := w.flights[o].job, w.flights[o].step;
    assert w.db.jobs[j].status == Dead && HasDeadJob(w.db, s);
    OneJobIds(w);
    var u := Dispatched(w, k, o, t);
    var rest := FailureBreaks(u, o, t);
    var first := [Finalize(k), Query, Dispatch(t)];
    hide Possible, After;
    Then(w, first, rest);
    es := first + rest;
  }
}
