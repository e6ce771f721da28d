/** The trigger DDL that emulates MariaDB system versioning on PostgreSQL, as the tree the
    translator builds, and what PostgreSQL does when it runs those triggers. */
module Temporal {
  import opened Text
  import opened Wrappers

  // Column names are compared without case.
  predicate IsColumn(name: string, col: string) {
    col != "" && Lower(name) == Lower(col)
  }

  datatype Value = Time(at: int) | Data(d: int) | Null

  type Row = map<string, Value>

  // A system-versioned table: its columns in order, the period columns, the columns declared
  // WITHOUT SYSTEM VERSIONING, the primary key, and the end of time stamped on current rows.
  datatype Config = Config(
    cols: seq<string>, rowStart: string, rowEnd: string,
    unversioned: seq<string>, pk: seq<string>, sentinel: int)
  {
    ghost predicate Valid() {
      && rowStart in cols && rowEnd in cols && rowStart != "" && rowEnd != ""
      && (forall i, j :: 0 <= i < j < |cols| ==> Lower(cols[i]) != Lower(cols[j]))
      && rowStart != rowEnd
      && (forall c <- pk :: c in Columns())
    }

    // The columns of the user's data.
    function Columns(): set<string> {
      (set c <- cols) - {rowStart, rowEnd}
    }

    predicate Unversioned(c: string) {
      exists u <- unversioned :: IsColumn(c, u)
    }

    // The user's columns whose updates make a version.
    function Versioned(): set<string> {
      set c <- cols | c in Columns() && !Unversioned(c)
    }
  }

  /* ---- the emitted triggers ---- */

  datatype EventKind = INSERT | UPDATE | DELETE

  datatype PlExpr = StatementTimestamp | RowEndMax | Old(col: string) | New(col: string)

  datatype PlStmt =
    | AssignNew(col: string, expr: PlExpr)
    | IfLess(lhs: PlExpr, rhs: PlExpr, body: PlStmt)
    | IfUpdate(thn: PlStmt, els: PlStmt)
    | InsertHistory(cols: seq<string>, vals: seq<PlExpr>)

  // updateOf empty: any UPDATE fires the trigger.
  datatype Trigger = Trigger(events: set<EventKind>, updateOf: seq<string>, body: seq<PlStmt>)

  datatype Triggers = Triggers(stamp: Trigger, history: Trigger)

  function ArchiveVals(cfg: Config, cols: seq<string>, closeAt: PlExpr): (vals: seq<PlExpr>)
    ensures |vals| == |cols|
  {
    if cols == [] then []
    else [if IsColumn(cols[0], cfg.rowEnd) then closeAt else Old(cols[0])] + ArchiveVals(cfg, cols[1..], closeAt)
  }

  // OLD goes to the history table, closed at closeAt, unless the version has zero length.
  function Archive(cfg: Config, closeAt: PlExpr): PlStmt {
    IfLess(Old(cfg.rowStart), closeAt, InsertHistory(cfg.cols, ArchiveVals(cfg, cfg.cols, closeAt)))
  }

  // The versioned columns, in column order.
  function UpdateOf(cfg: Config, cols: seq<string>): seq<string> {
    if cols == [] then []
    else
      var c := cols[0];
      (if IsColumn(c, cfg.rowStart) || IsColumn(c, cfg.rowEnd) || cfg.Unversioned(c) then [] else [c]) +
      UpdateOf(cfg, cols[1..])
  }

  function SystemVersioningDDL(cfg: Config): Triggers {
    var stamp := [AssignNew(cfg.rowStart, StatementTimestamp), AssignNew(cfg.rowEnd, RowEndMax)];
    var history := [IfUpdate(Archive(cfg, New(cfg.rowStart)), Archive(cfg, StatementTimestamp))];
    var updateOf := if cfg.unversioned == [] then [] else UpdateOf(cfg, cfg.cols);
    var withUpdate := cfg.unversioned == [] || updateOf != [];
    Triggers(
      Trigger(if withUpdate then {INSERT, UPDATE} else {INSERT}, updateOf, stamp),
      Trigger(if withUpdate then {UPDATE, DELETE} else {DELETE}, updateOf, history))
  }

  /* ---- PostgreSQL running the triggers ---- */

  datatype Env = Env(op: EventKind, old_: Row, ts: int, sentinel: int)

  function Field(row: Row, c: string): Value {
    if c in row then row[c] else Null
  }

  function Eval(e: PlExpr, env: Env, new_: Row): Value {
    match e
    case StatementTimestamp => Time(env.ts)
    case RowEndMax => Time(env.sentinel)
    case Old(c) => Field(env.old_, c)
    case New(c) => Field(new_, c)
  }

  function RowOf(cols: seq<string>, vals: seq<PlExpr>, env: Env, new_: Row): Row {
    if cols == [] || vals == [] then map[]
    else RowOf(cols[1..], vals[1..], env, new_)[cols[0] := Eval(vals[0], env, new_)]
  }

  predicate Less(a: Value, b: Value) {
    a.Time? && b.Time? && a.at < b.at
  }

  // The NEW row and the rows inserted into the history table.
  datatype Effect = Effect(new_: Row, archived: seq<Row>)

  function Exec(p: PlStmt, env: Env, eff: Effect): Effect {
    match p
    case AssignNew(c, e) => eff.(new_ := eff.new_[c := Eval(e, env, eff.new_)])
    case IfLess(a, b, body) =>
      if Less(Eval(a, env, eff.new_), Eval(b, env, eff.new_)) then Exec(body, env, eff) else eff
    case IfUpdate(thn, els) => if env.op == UPDATE then Exec(thn, env, eff) else Exec(els, env, eff)
    case InsertHistory(cols, vals) => eff.(archived := eff.archived + [RowOf(cols, vals, env, eff.new_)])
  }

  function ExecAll(body: seq<PlStmt>, env: Env, eff: Effect): Effect {
    if body == [] then eff else ExecAll(body[1..], env, Exec(body[0], env, eff))
  }

  predicate Fires(t: Trigger, op: EventKind, targets: set<string>) {
    op in t.events && (op == UPDATE && t.updateOf != [] ==> exists c <- t.updateOf :: c in targets)
  }

  function Fire(t: Trigger, env: Env, targets: set<string>, new_: Row): Effect {
    if Fires(t, env.op, targets) then ExecAll(t.body, env, Effect(new_, [])) else Effect(new_, [])
  }

  // One row of a statement. A rid is a row's identity; a rid is never used again.
  datatype Change =
    | InsertRow(rid: nat, row: Row)
    | UpdateRow(rid: nat, targets: Row)
    | DeleteRow(rid: nat)

  datatype Version = Version(rid: nat, row: Row)

  datatype State = State(current: map<nat, Row>, history: seq<Version>)

  function Versions(rid: nat, rows: seq<Row>): seq<Version> {
    seq(|rows|, i requires 0 <= i < |rows| => Version(rid, rows[i]))
  }

  // A change the table accepts.
  ghost predicate Accepts(cfg: Config, s: State, ch: Change) {
    match ch
    case InsertRow(rid, row) => rid !in s.current && row.Keys == (set c <- cfg.cols)
    case UpdateRow(rid, set_) => rid in s.current && set_.Keys <= cfg.Columns()
    case DeleteRow(rid) => rid in s.current
  }

  // What PostgreSQL does for one changed row at statement time ts: the BEFORE trigger, the
  // change itself, the AFTER trigger.
  function Step(cfg: Config, s: State, ts: int, ch: Change): State {
    var ddl := SystemVersioningDDL(cfg);
    match ch
    case InsertRow(rid, row) =>
      var stamped := Fire(ddl.stamp, Env(INSERT, map[], ts, cfg.sentinel), {}, row).new_;
      var archived := Fire(ddl.history, Env(INSERT, map[], ts, cfg.sentinel), {}, stamped).archived;
      State(s.current[rid := stamped], s.history + Versions(rid, archived))
    case UpdateRow(rid, set_) =>
      if rid !in s.current then s
      else
        var env := Env(UPDATE, s.current[rid], ts, cfg.sentinel);
        var stamped := Fire(ddl.stamp, env, set_.Keys, s.current[rid] + set_).new_;
        var archived := Fire(ddl.history, env, set_.Keys, stamped).archived;
        State(s.current[rid := stamped], s.history + Versions(rid, archived))
    case DeleteRow(rid) =>
      if rid !in s.current then s
      else
        var archived := Fire(ddl.history, Env(DELETE, s.current[rid], ts, cfg.sentinel), {}, map[]).archived;
        State(s.current - {rid}, s.history + Versions(rid, archived))
  }

  /* ---- what the generated code means ---- */

  function Stamped(cfg: Config, row: Row, ts: int): Row {
    row[cfg.rowStart := Time(ts)][cfg.rowEnd := Time(cfg.sentinel)]
  }

  function Closed(cfg: Config, row: Row, ts: int): Row {
    row[cfg.rowEnd := Time(ts)]
  }

  // Does an update of these columns make a version?
  predicate MakesVersion(cfg: Config, targets: set<string>) {
    cfg.unversioned == [] || exists c <- targets :: c in cfg.Versioned()
  }

  lemma {:induction false} UpdateOfMembers(cfg: Config, cols: seq<string>)
    ensures forall c :: c in UpdateOf(cfg, cols) <==>
      c in cols && !IsColumn(c, cfg.rowStart) && !IsColumn(c, cfg.rowEnd) && !cfg.Unversioned(c)
  {
    if cols != [] {
      UpdateOfMembers(cfg, cols[1..]);
      assert forall c :: c in cols <==> c == cols[0] || c in cols[1..];
    }
  }

  lemma SameColumn(cfg: Config, a: string, b: string)
    requires cfg.Valid() && a in cfg.cols && b in cfg.cols
    ensures IsColumn(a, b) ==> a == b
    ensures a == b && b != "" ==> IsColumn(a, b)
  {}

  // A column is versioned when it is the user's and no listed name is its own, case aside.
  lemma VersionedExactly(cfg: Config, c: string)
    ensures cfg.Unversioned(c) <==> exists u <- cfg.unversioned :: u != "" && Lower(u) == Lower(c)
    ensures c in cfg.Versioned() <==>
      && c in cfg.cols && c != cfg.rowStart && c != cfg.rowEnd
      && forall u <- cfg.unversioned :: u != "" ==> Lower(u) != Lower(c)
  {}

  // Both UPDATE triggers fire exactly for the updates that name a column which is not listed WITHOUT SYSTEM
  // VERSIONING, case aside; with nothing listed they fire for every update.
  lemma FiresExactly(cfg: Config, targets: set<string>)
    requires cfg.Valid() && targets <= cfg.Columns()
    ensures Fires(SystemVersioningDDL(cfg).stamp, UPDATE, targets) <==>
      cfg.unversioned == [] || exists c <- targets :: forall u <- cfg.unversioned :: u != "" ==> Lower(u) != Lower(c)
    ensures Fires(SystemVersioningDDL(cfg).history, UPDATE, targets) <==>
      cfg.unversioned == [] || exists c <- targets :: forall u <- cfg.unversioned :: u != "" ==> Lower(u) != Lower(c)
  {
    hide SystemVersioningDDL, Fires;
    FiresMeans(cfg, targets);
    forall c | c in targets
      ensures c in cfg.Versioned() <==> forall u <- cfg.unversioned :: u != "" ==> Lower(u) != Lower(c)
    {
      VersionedExactly(cfg, c);
    }
  }

  lemma FiresMeans(cfg: Config, targets: set<string>)
    requires cfg.Valid() && targets <= cfg.Columns()
    ensures Fires(SystemVersioningDDL(cfg).stamp, UPDATE, targets) <==> MakesVersion(cfg, targets)
    ensures Fires(SystemVersioningDDL(cfg).history, UPDATE, targets) <==> MakesVersion(cfg, targets)
  {
    UpdateOfMembers(cfg, cfg.cols);
    forall c | c in cfg.Columns() ensures c in UpdateOf(cfg, cfg.cols) <==> c in cfg.Versioned() {
      SameColumn(cfg, c, cfg.rowStart);
      SameColumn(cfg, c, cfg.rowEnd);
    }
    assert forall c <- targets :: c in UpdateOf(cfg, cfg.cols) <==> c in cfg.Versioned();
  }

  lemma {:induction false} ArchivedRow(cfg: Config, cols: seq<string>, closeAt: PlExpr, env: Env, new_: Row)
    requires cfg.Valid() && (forall c <- cols :: c in cfg.cols)
    ensures var r := RowOf(cols, ArchiveVals(cfg, cols, closeAt), env, new_);
      r.Keys == (set c <- cols) &&
      forall c <- cols :: r[c] == if c == cfg.rowEnd then Eval(closeAt, env, new_) else Field(env.old_, c)
  {
    if cols != [] {
      ArchivedRow(cfg, cols[1..], closeAt, env, new_);
      SameColumn(cfg, cols[0], cfg.rowEnd);
    }
  }

  lemma ExecArchive(cfg: Config, closeAt: PlExpr, env: Env, new_: Row)
    requires cfg.Valid() && env.old_.Keys == (set c <- cfg.cols) && Eval(closeAt, env, new_) == Time(env.ts)
    ensures Exec(Archive(cfg, closeAt), env, Effect(new_, [])) ==
      Effect(new_, if Less(env.old_[cfg.rowStart], Time(env.ts)) then [Closed(cfg, env.old_, env.ts)] else [])
  {
    ArchivedRow(cfg, cfg.cols, closeAt, env, new_);
    assert RowOf(cfg.cols, ArchiveVals(cfg, cfg.cols, closeAt), env, new_) == Closed(cfg, env.old_, env.ts);
  }

  lemma HistoryMeans(cfg: Config, env: Env, new_: Row)
    requires cfg.Valid() && env.old_.Keys == (set c <- cfg.cols)
    requires env.op == UPDATE ==> Field(new_, cfg.rowStart) == Time(env.ts)
    ensures ExecAll(SystemVersioningDDL(cfg).history.body, env, Effect(new_, [])) ==
      Effect(new_, if Less(env.old_[cfg.rowStart], Time(env.ts)) then [Closed(cfg, env.old_, env.ts)] else [])
  {
    var closeAt := if env.op == UPDATE then New(cfg.rowStart) else StatementTimestamp;
    ExecArchive(cfg, closeAt, env, new_);
    var p := IfUpdate(Archive(cfg, New(cfg.rowStart)), Archive(cfg, StatementTimestamp));
    assert ExecAll([p], env, Effect(new_, [])) == ExecAll([p][1..], env, Exec(p, env, Effect(new_, [])));
    assert Exec(p, env, Effect(new_, [])) == Exec(Archive(cfg, closeAt), env, Effect(new_, []));
  }

  lemma StampMeans(cfg: Config, env: Env, row: Row)
    requires env.sentinel == cfg.sentinel
    ensures ExecAll(SystemVersioningDDL(cfg).stamp.body, env, Effect(row, [])) == Effect(Stamped(cfg, row, env.ts), [])
  {
    var a, b := AssignNew(cfg.rowStart, StatementTimestamp), AssignNew(cfg.rowEnd, RowEndMax);
    var eff := Effect(row, []);
    assert ExecAll([a, b], env, eff) == ExecAll([a, b][1..], env, Exec(a, env, eff));
    assert [a, b][1..] == [b];
    assert ExecAll([b], env, Exec(a, env, eff)) == ExecAll([b][1..], env, Exec(b, env, Exec(a, env, eff)));
  }

  // The row a change leaves in the current table, if any.
  function NewRow(cfg: Config, s: State, ts: int, ch: Change): Option<Row>
    requires ch.InsertRow? || ch.rid in s.current
  {
    match ch
    case InsertRow(_, row) => Some(Stamped(cfg, row, ts))
    case UpdateRow(rid, set_) =>
      var row := s.current[rid] + set_;
      Some(if MakesVersion(cfg, set_.Keys) then Stamped(cfg, row, ts) else row)
    case DeleteRow(_) => None
  }

  // The version a change leaves in the history table, if any.
  function LeftBehind(cfg: Config, s: State, ts: int, ch: Change): seq<Version>
    requires ch.InsertRow? || ch.rid in s.current
  {
    if ch.InsertRow? || (ch.UpdateRow? && !MakesVersion(cfg, ch.targets.Keys)) then []
    else Archived(cfg, ch.rid, s.current[ch.rid], ts)
  }

  function Archived(cfg: Config, rid: nat, row: Row, ts: int): seq<Version> {
    if Less(Field(row, cfg.rowStart), Time(ts)) then [Version(rid, Closed(cfg, row, ts))] else []
  }

  function Put(rows: map<nat, Row>, rid: nat, row: Option<Row>): map<nat, Row> {
    match row
    case Some(r) => rows[rid := r]
    case None => rows - {rid}
  }

  // The meaning of one changed row, with no trigger in sight.
  function Meaning(cfg: Config, s: State, ts: int, ch: Change): State
    requires ch.InsertRow? || ch.rid in s.current
  {
    State(Put(s.current, ch.rid, NewRow(cfg, s, ts, ch)), s.history + LeftBehind(cfg, s, ts, ch))
  }

  // The generated triggers do exactly that.
  lemma TriggersMean(cfg: Config, s: State, ts: int, ch: Change)
    requires cfg.Valid() && Accepts(cfg, s, ch)
    requires forall rid <- s.current :: s.current[rid].Keys == (set c <- cfg.cols)
    ensures Step(cfg, s, ts, ch) == Meaning(cfg, s, ts, ch)
  {
    assert s.history + Versions(ch.rid, []) == s.history;
    match ch
    case InsertRow(_, row) => StampMeans(cfg, Env(INSERT, map[], ts, cfg.sentinel), row);
    case UpdateRow(_, _) => UpdateMeans(cfg, s, ts, ch);
    case DeleteRow(rid) =>
      HistoryMeans(cfg, Env(DELETE, s.current[rid], ts, cfg.sentinel), map[]);
      NoVersions(cfg, s, rid, ts);
  }

  lemma NoVersions(cfg: Config, s: State, rid: nat, ts: int)
    requires rid in s.current && cfg.rowStart in s.current[rid]
    ensures var row := s.current[rid];
      Versions(rid, if Less(row[cfg.rowStart], Time(ts)) then [Closed(cfg, row, ts)] else []) ==
        Archived(cfg, rid, row, ts)
  {}

  lemma UpdateMeans(cfg: Config, s: State, ts: int, ch: Change)
    requires cfg.Valid() && Accepts(cfg, s, ch) && ch.UpdateRow?
    requires forall rid <- s.current :: s.current[rid].Keys == (set c <- cfg.cols)
    ensures Step(cfg, s, ts, ch) == Meaning(cfg, s, ts, ch)
  {
    var UpdateRow(rid, set_) := ch;
    var row := s.current[rid];
    var env := Env(UPDATE, row, ts, cfg.sentinel);
    assert s.history + Versions(rid, []) == s.history;
    FiresMeans(cfg, set_.Keys);
    StampMeans(cfg, env, row + set_);
    if MakesVersion(cfg, set_.Keys) {
      HistoryMeans(cfg, env, Stamped(cfg, row + set_, ts));
      NoVersions(cfg, s, rid, ts);
    }
  }
}
