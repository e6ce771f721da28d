/** The emulation refines a plain log of statements: the AS OF view, the intervals of the row
    versions, and the key of the history table. */
module AsOf {
  import opened Text
  import opened Temporal
  import opened Wrappers

  datatype Event = Event(ts: int, ch: Change)

  function Run(cfg: Config, s: State, es: seq<Event>): State {
    if es == [] then s
    else var last := es[|es| - 1]; Step(cfg, Run(cfg, s, es[..|es| - 1]), last.ts, last.ch)
  }

  function Clock(start: int, es: seq<Event>): int {
    if es == [] then start else es[|es| - 1].ts
  }

  /* ---- the log: what the user's tables held, with no versions ---- */

  function DataOf(cfg: Config, row: Row): Row {
    map c | c in row && c in cfg.Columns() :: row[c]
  }

  function Contents(cfg: Config, s: State): map<nat, Row> {
    map rid | rid in s.current :: DataOf(cfg, s.current[rid])
  }

  function LogStep(cfg: Config, log: map<nat, Row>, ch: Change): map<nat, Row> {
    match ch
    case InsertRow(rid, row) => log[rid := DataOf(cfg, row)]
    case UpdateRow(rid, set_) => if rid in log then log[rid := log[rid] + set_] else log
    case DeleteRow(rid) => log - {rid}
  }

  // The table after every change stamped at or before t.
  function LogAt(cfg: Config, log: map<nat, Row>, es: seq<Event>, t: int): map<nat, Row> {
    if es == [] then log
    else
      var last := es[|es| - 1];
      var before := LogAt(cfg, log, es[..|es| - 1], t);
      if last.ts <= t then LogStep(cfg, before, last.ch) else before
  }

  /* ---- the AS OF view: current and history rows with row_start <= t < row_end ---- */

  function Projection(cfg: Config, row: Row): Row {
    map c | c in row && c in cfg.Versioned() :: row[c]
  }

  predicate Visible(cfg: Config, row: Row, t: int) {
    !Less(Time(t), Field(row, cfg.rowStart)) && Less(Time(t), Field(row, cfg.rowEnd))
  }

  ghost predicate Shows(cfg: Config, s: State, t: int, rid: nat, data: Row) {
    || (rid in s.current && Visible(cfg, s.current[rid], t) && Projection(cfg, s.current[rid]) == data)
    || exists i :: 0 <= i < |s.history| && s.history[i].rid == rid &&
         Visible(cfg, s.history[i].row, t) && Projection(cfg, s.history[i].row) == data
  }

  /* ---- invariants ---- */

  ghost predicate Dated(cfg: Config, row: Row) {
    row.Keys == (set c <- cfg.cols) && cfg.rowStart in row && cfg.rowEnd in row &&
    row[cfg.rowStart].Time? && row[cfg.rowEnd].Time?
  }

  ghost predicate Ended(cfg: Config, row: Row, clock: int) {
    Dated(cfg, row) && row[cfg.rowStart].at < row[cfg.rowEnd].at <= clock
  }

  ghost predicate Open(cfg: Config, row: Row, clock: int) {
    Dated(cfg, row) && row[cfg.rowStart].at <= clock && row[cfg.rowEnd].at == cfg.sentinel
  }

  // Versions carry non-empty intervals that have begun by the clock; closed ones have ended.
  ghost predicate Healthy(cfg: Config, s: State, clock: int) {
    && clock < cfg.sentinel
    && (forall rid <- s.current :: Open(cfg, s.current[rid], clock))
    && (forall i :: 0 <= i < |s.history| ==> Ended(cfg, s.history[i].row, clock))
  }

  lemma StepMeans(cfg: Config, s: State, clock: int, e: Event)
    requires cfg.Valid() && Healthy(cfg, s, clock) && Accepts(cfg, s, e.ch)
    ensures e.ch.InsertRow? || e.ch.rid in s.current
    ensures Step(cfg, s, e.ts, e.ch) == Meaning(cfg, s, e.ts, e.ch)
  {
    TriggersMean(cfg, s, e.ts, e.ch);
  }

  lemma StepHealthy(cfg: Config, s: State, clock: int, e: Event)
    requires cfg.Valid() && Healthy(cfg, s, clock) && Accepts(cfg, s, e.ch) && clock <= e.ts < cfg.sentinel
    ensures Healthy(cfg, Step(cfg, s, e.ts, e.ch), e.ts)
  {
    hide Step, NewRow, LeftBehind, Accepts;
    StepMeans(cfg, s, clock, e);
    NewRowOpen(cfg, s, clock, e);
    LeftBehindEnded(cfg, s, clock, e);
  }

  lemma NewRowOpen(cfg: Config, s: State, clock: int, e: Event)
    requires cfg.Valid() && Healthy(cfg, s, clock) && Accepts(cfg, s, e.ch) && clock <= e.ts < cfg.sentinel
    ensures var r := NewRow(cfg, s, e.ts, e.ch);
      r.Some? ==> Open(cfg, r.value, e.ts)
  {
    match e.ch
    case InsertRow(_, row) => assert Stamped(cfg, row, e.ts).Keys == row.Keys;
    case UpdateRow(rid, set_) => UpdatedHealthy(cfg, s.current[rid], set_, clock, e.ts);
    case DeleteRow(_) =>
  }

  lemma LeftBehindEnded(cfg: Config, s: State, clock: int, e: Event)
    requires cfg.Valid() && Healthy(cfg, s, clock) && Accepts(cfg, s, e.ch) && clock <= e.ts < cfg.sentinel
    ensures var left := LeftBehind(cfg, s, e.ts, e.ch);
      forall v <- left :: Ended(cfg, v.row, e.ts) && v.rid == e.ch.rid
  {
    if e.ch.rid in s.current {
      CloseHealthy(cfg, s.current[e.ch.rid], clock, e.ts);
    }
  }

  lemma CloseHealthy(cfg: Config, row: Row, clock: int, ts: int)
    requires cfg.Valid() && Open(cfg, row, clock) && clock <= ts
    ensures row[cfg.rowStart].at < ts ==> Ended(cfg, Closed(cfg, row, ts), ts)
  {
    assert Closed(cfg, row, ts).Keys == row.Keys;
  }

  lemma UpdatedHealthy(cfg: Config, row: Row, set_: Row, clock: int, ts: int)
    requires cfg.Valid() && Open(cfg, row, clock) && set_.Keys <= cfg.Columns() && clock <= ts
    ensures Open(cfg, row + set_, ts) && Open(cfg, Stamped(cfg, row + set_, ts), ts)
  {
    assert (row + set_).Keys == row.Keys;
    assert Stamped(cfg, row + set_, ts).Keys == row.Keys;
  }

  ghost predicate Legal(cfg: Config, s: State, clock: int, es: seq<Event>) {
    es == [] ||
    (var before := es[..|es| - 1];
     var last := es[|es| - 1];
     Legal(cfg, s, clock, before) && Accepts(cfg, Run(cfg, s, before), last.ch) &&
     Clock(clock, before) <= last.ts < cfg.sentinel)
  }

  lemma {:induction false} RunHealthy(cfg: Config, s: State, clock: int, es: seq<Event>)
    requires cfg.Valid() && Healthy(cfg, s, clock) && Legal(cfg, s, clock, es)
    ensures Healthy(cfg, Run(cfg, s, es), Clock(clock, es)) && clock <= Clock(clock, es)
  {
    if es != [] {
      var before := es[..|es| - 1];
      RunHealthy(cfg, s, clock, before);
      StepHealthy(cfg, Run(cfg, s, before), Clock(clock, before), es[|es| - 1]);
    }
  }

  /* ---- one step ---- */

  // A change made now does not alter the view of any earlier time.
  lemma PastUnchanged(cfg: Config, s: State, clock: int, e: Event, t: int, rid: nat, data: Row)
    requires cfg.Valid() && Healthy(cfg, s, clock) && Accepts(cfg, s, e.ch) && clock <= e.ts < cfg.sentinel
    requires t < e.ts
    ensures Shows(cfg, Step(cfg, s, e.ts, e.ch), t, rid, data) <==> Shows(cfg, s, t, rid, data)
  {
    hide Step, NewRow, LeftBehind, Accepts, Visible, Projection, Healthy, ShownPast;
    StepMeans(cfg, s, clock, e);
    RowAndVersionLookSame(cfg, s, clock, e, t, data);
    var s' := Step(cfg, s, e.ts, e.ch);
    ShowsEither(cfg, s, t, rid, data);
    ShowsEither(cfg, s', t, rid, data);
    ShownPastMore(cfg, s.history, LeftBehind(cfg, s, e.ts, e.ch), t, rid, data);
    ShownPastOne(cfg, LeftBehind(cfg, s, e.ts, e.ch), t, rid, data);
  }

  // A version of the row in the history looks so at t.
  ghost predicate ShownPast(cfg: Config, history: seq<Version>, t: int, rid: nat, data: Row) {
    exists i :: 0 <= i < |history| && history[i].rid == rid && Looks(cfg, history[i].row, t, data)
  }

  lemma ShowsEither(cfg: Config, s: State, t: int, rid: nat, data: Row)
    ensures Shows(cfg, s, t, rid, data) <==>
      (rid in s.current && Looks(cfg, s.current[rid], t, data)) || ShownPast(cfg, s.history, t, rid, data)
  {
    hide Visible, Projection;
    if exists i ::
      0 <= i < |s.history| && s.history[i].rid == rid && Visible(cfg, s.history[i].row, t) &&
        Projection(cfg, s.history[i].row) == data {
      var i :| 0 <= i < |s.history| && s.history[i].rid == rid && Visible(cfg, s.history[i].row, t) &&
        Projection(cfg, s.history[i].row) == data;
      assert Looks(cfg, s.history[i].row, t, data);
    }
  }

  lemma ShownPastMore(cfg: Config, a: seq<Version>, b: seq<Version>, t: int, rid: nat, data: Row)
    ensures ShownPast(cfg, a + b, t, rid, data) <==> ShownPast(cfg, a, t, rid, data) || ShownPast(cfg, b, t, rid, data)
  {
    hide Looks;
    var h := a + b;
    if i :| 0 <= i < |a| && a[i].rid == rid && Looks(cfg, a[i].row, t, data) {
      assert h[i] == a[i];
    } else if i :| 0 <= i < |b| && b[i].rid == rid && Looks(cfg, b[i].row, t, data) {
      assert h[|a| + i] == b[i];
    }
  }

  lemma ShownPastOne(cfg: Config, left: seq<Version>, t: int, rid: nat, data: Row)
    requires |left| <= 1
    ensures ShownPast(cfg, left, t, rid, data) <==> left != [] && left[0].rid == rid && Looks(cfg, left[0].row, t, data)
  {}

  ghost predicate Looks(cfg: Config, row: Row, t: int, data: Row) {
    Visible(cfg, row, t) && Projection(cfg, row) == data
  }

  // At an earlier time the changed row and the version it leaves look as the old row did.
  lemma RowAndVersionLookSame(cfg: Config, s: State, clock: int, e: Event, t: int, data: Row)
    requires cfg.Valid() && Healthy(cfg, s, clock) && Accepts(cfg, s, e.ch) && clock <= e.ts < cfg.sentinel
    requires t < e.ts
    ensures var r, left := NewRow(cfg, s, e.ts, e.ch), LeftBehind(cfg, s, e.ts, e.ch);
      && |left| <= 1 && (left != [] ==> left[0].rid == e.ch.rid)
      && ((r.Some? && Looks(cfg, r.value, t, data)) || (left != [] && Looks(cfg, left[0].row, t, data)) <==>
          (e.ch.rid in s.current && Looks(cfg, s.current[e.ch.rid], t, data)))
  {
    match e.ch
    case InsertRow(_, row) => StampedInvisible(cfg, row, e.ts, t);
    case UpdateRow(rid, set_) =>
      var row := s.current[rid];
      ClosedLooksSame(cfg, row, clock, e.ts, t);
      if MakesVersion(cfg, set_.Keys) {
        StampedInvisible(cfg, row + set_, e.ts, t);
      } else {
        UntouchedLooksSame(cfg, row, set_, t);
      }
    case DeleteRow(rid) => ClosedLooksSame(cfg, s.current[rid], clock, e.ts, t);
  }

  // Before its end a closed version looks like the row it was.
  lemma ClosedLooksSame(cfg: Config, row: Row, clock: int, ts: int, t: int)
    requires cfg.Valid() && Open(cfg, row, clock) && t < ts < cfg.sentinel
    ensures var v := Closed(cfg, row, ts);
      Projection(cfg, v) == Projection(cfg, row) && (Visible(cfg, v, t) <==> Visible(cfg, row, t))
    ensures !(row[cfg.rowStart].at < ts) ==> !Visible(cfg, row, t)
  {
    SameProjection(cfg, row, Closed(cfg, row, ts));
  }

  lemma StampedInvisible(cfg: Config, row: Row, ts: int, t: int)
    requires cfg.Valid() && t < ts
    ensures !Visible(cfg, Stamped(cfg, row, ts), t)
  {}

  lemma UntouchedLooksSame(cfg: Config, row: Row, set_: Row, t: int)
    requires cfg.Valid() && row.Keys == (set c <- cfg.cols) && set_.Keys <= cfg.Columns()
    requires cfg.unversioned != [] && !MakesVersion(cfg, set_.Keys)
    ensures Projection(cfg, row + set_) == Projection(cfg, row)
    ensures Visible(cfg, row + set_, t) <==> Visible(cfg, row, t)
  {
    assert (row + set_).Keys == row.Keys;
    SameProjection(cfg, row, row + set_);
  }

  lemma SameProjection(cfg: Config, a: Row, b: Row)
    requires a.Keys == b.Keys
    requires forall c <- a :: c in cfg.Versioned() ==> a[c] == b[c]
    ensures Projection(cfg, a) == Projection(cfg, b)
  {}

  // At the clock and after it the view is the current table.
  lemma PresentIsCurrent(cfg: Config, s: State, clock: int, t: int, rid: nat, data: Row)
    requires Healthy(cfg, s, clock) && clock <= t < cfg.sentinel
    ensures Shows(cfg, s, t, rid, data) <==>
      rid in Contents(cfg, s) && Projection(cfg, Contents(cfg, s)[rid]) == data
  {
    if rid in s.current {
      var row := s.current[rid];
      assert Projection(cfg, DataOf(cfg, row)) == Projection(cfg, row);
    }
  }

  lemma ContentsStep(cfg: Config, s: State, clock: int, e: Event)
    requires cfg.Valid() && Healthy(cfg, s, clock) && Accepts(cfg, s, e.ch)
    ensures Contents(cfg, Step(cfg, s, e.ts, e.ch)) == LogStep(cfg, Contents(cfg, s), e.ch)
  {
    hide Step, NewRow, LeftBehind, Accepts, DataOf, Healthy;
    StepMeans(cfg, s, clock, e);
    NewRowData(cfg, s, e.ts, e.ch);
    match e.ch
    case InsertRow(_, _) =>
    case UpdateRow(_, _) =>
    case DeleteRow(_) =>
  }

  lemma NewRowData(cfg: Config, s: State, ts: int, ch: Change)
    requires cfg.Valid() && Accepts(cfg, s, ch)
    ensures var r := NewRow(cfg, s, ts, ch);
      match ch
      case InsertRow(_, row) => r.Some? && DataOf(cfg, r.value) == DataOf(cfg, row)
      case UpdateRow(rid, set_) => r.Some? && DataOf(cfg, r.value) == DataOf(cfg, s.current[rid]) + set_
      case DeleteRow(_) => r.None?
  {
    match ch
    case InsertRow(_, row) => StampKeepsData(cfg, row, ts);
    case UpdateRow(rid, set_) =>
      var row := s.current[rid];
      StampKeepsData(cfg, row + set_, ts);
      assert DataOf(cfg, row + set_) == DataOf(cfg, row) + set_;
    case DeleteRow(_) =>
  }

  lemma StampKeepsData(cfg: Config, row: Row, ts: int)
    ensures DataOf(cfg, Stamped(cfg, row, ts)) == DataOf(cfg, row)
  {}

  lemma {:induction false} ContentsRun(cfg: Config, s: State, clock: int, es: seq<Event>, t: int)
    requires cfg.Valid() && Healthy(cfg, s, clock) && Legal(cfg, s, clock, es) && Clock(clock, es) <= t
    ensures Contents(cfg, Run(cfg, s, es)) == LogAt(cfg, Contents(cfg, s), es, t)
  {
    if es != [] {
      var before := es[..|es| - 1];
      RunHealthy(cfg, s, clock, before);
      ContentsRun(cfg, s, clock, before, t);
      ContentsStep(cfg, Run(cfg, s, before), Clock(clock, before), es[|es| - 1]);
    }
  }

  /* ---- the AS OF theorem ---- */

  // What should be visible at t: the log from the migration on, the copied history before it.
  ghost predicate Truth(cfg: Config, s: State, clock: int, es: seq<Event>, t: int, rid: nat, data: Row) {
    if t < clock then Shows(cfg, s, t, rid, data)
    else
      var log := LogAt(cfg, Contents(cfg, s), es, t);
      rid in log && Projection(cfg, log[rid]) == data
  }

  // After any run of changes with non-decreasing timestamps, the AS OF view of every time is
  // the table the log held at that time, on its versioned columns.
  lemma {:induction false} AsOfTheorem(cfg: Config, s: State, clock: int, es: seq<Event>, t: int, rid: nat, data: Row)
    requires cfg.Valid() && Healthy(cfg, s, clock) && Legal(cfg, s, clock, es) && t < cfg.sentinel
    ensures Shows(cfg, Run(cfg, s, es), t, rid, data) <==> Truth(cfg, s, clock, es, t, rid, data)
  {
    RunHealthy(cfg, s, clock, es);
    if t >= Clock(clock, es) {
      ContentsRun(cfg, s, clock, es, t);
      PresentIsCurrent(cfg, Run(cfg, s, es), Clock(clock, es), t, rid, data);
    } else if es != [] {
      var before := es[..|es| - 1];
      RunHealthy(cfg, s, clock, before);
      AsOfTheorem(cfg, s, clock, before, t, rid, data);
      PastUnchanged(cfg, Run(cfg, s, before), Clock(clock, before), es[|es| - 1], t, rid, data);
    }
  }

  // An update of listed columns alone, case aside, archives nothing and is invisible at every time.
  lemma UnversionedUpdateInvisible(cfg: Config, s: State, clock: int, e: Event, t: int, rid: nat, data: Row)
    requires cfg.Valid() && Healthy(cfg, s, clock) && Accepts(cfg, s, e.ch)
    requires e.ch.UpdateRow? && cfg.unversioned != []
    requires forall c <- e.ch.targets :: exists u <- cfg.unversioned :: u != "" && Lower(u) == Lower(c)
    ensures Shows(cfg, Step(cfg, s, e.ts, e.ch), t, rid, data) <==> Shows(cfg, s, t, rid, data)
    ensures Step(cfg, s, e.ts, e.ch).history == s.history
  {
    hide Step, NewRow, LeftBehind, Accepts, Visible, Projection, Healthy;
    StepMeans(cfg, s, clock, e);
    forall c | c in e.ch.targets ensures c !in cfg.Versioned() {
      VersionedExactly(cfg, c);
    }
    UnversionedRow(cfg, s, clock, e, t);
    assert s.history + [] == s.history;
  }

  lemma UnversionedRow(cfg: Config, s: State, clock: int, e: Event, t: int)
    requires cfg.Valid() && Healthy(cfg, s, clock) && Accepts(cfg, s, e.ch)
    requires e.ch.UpdateRow? && cfg.unversioned != [] && e.ch.targets.Keys !! cfg.Versioned()
    ensures LeftBehind(cfg, s, e.ts, e.ch) == [] && NewRow(cfg, s, e.ts, e.ch).Some?
    ensures var row, row' := s.current[e.ch.rid], NewRow(cfg, s, e.ts, e.ch).value;
      Projection(cfg, row') == Projection(cfg, row) && (Visible(cfg, row', t) <==> Visible(cfg, row, t))
  {
    UntouchedLooksSame(cfg, s.current[e.ch.rid], e.ch.targets, t);
  }
}
