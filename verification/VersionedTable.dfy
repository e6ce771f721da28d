/** The emulated table as PostgreSQL updates it: rows and archived versions change in place,
    one statement at a time. */
module VersionedTable {
  import opened Temporal
  import opened AsOf

  method FireTrigger(t: Trigger, env: Env, targets: set<string>, row: Row) returns (eff: Effect)
    ensures eff == Fire(t, env, targets, row)
  {
    eff := Effect(row, []);
    if Fires(t, env.op, targets) {
      ghost var whole := ExecAll(t.body, env, eff);
      var i := 0;
      while i < |t.body|
        invariant i <= |t.body| && ExecAll(t.body[i..], env, eff) == whole
      {
        eff := Exec(t.body[i], env, eff);
        i := i + 1;
      }
    }
  }

  class Table {
    const cfg: Config
    const ddl: Triggers
    var current: map<nat, Row>
    var history: seq<Version>

    ghost predicate Valid() {
      ddl == SystemVersioningDDL(cfg)
    }

    function Contents(): State
      reads this
    {
      State(current, history)
    }

    // The copied rows and versions, with the triggers installed after the copy.
    constructor (cfg: Config, copied: State)
      ensures Valid() && this.cfg == cfg && Contents() == copied
    {
      this.cfg := cfg;
      this.ddl := SystemVersioningDDL(cfg);
      this.current := copied.current;
      this.history := copied.history;
    }

    // One changed row: BEFORE trigger, the change, AFTER trigger.
    method Change(ts: int, ch: Temporal.Change)
      requires Valid()
      modifies this
      ensures Contents() == Step(cfg, old(Contents()), ts, ch)
    {
      match ch
      case InsertRow(rid, row) =>
        var env := Env(INSERT, map[], ts, cfg.sentinel);
        var before := FireTrigger(ddl.stamp, env, {}, row);
        current := current[rid := before.new_];
        var after := FireTrigger(ddl.history, env, {}, before.new_);
        history := history + Versions(rid, after.archived);
      case UpdateRow(rid, set_) =>
        if rid in current {
          var env := Env(UPDATE, current[rid], ts, cfg.sentinel);
          var before := FireTrigger(ddl.stamp, env, set_.Keys, current[rid] + set_);
          current := current[rid := before.new_];
          var after := FireTrigger(ddl.history, env, set_.Keys, before.new_);
          history := history + Versions(rid, after.archived);
        }
      case DeleteRow(rid) =>
        if rid in current {
          var env := Env(DELETE, current[rid], ts, cfg.sentinel);
          current := current - {rid};
          var after := FireTrigger(ddl.history, env, {}, map[]);
          history := history + Versions(rid, after.archived);
        }
    }

    // A statement changes its rows one after the other, all at the statement's timestamp.
    method Statement(ts: int, changes: seq<Temporal.Change>)
      requires Valid()
      modifies this
      ensures Contents() == Run(cfg, old(Contents()), Stamp(ts, changes))
    {
      var i := 0;
      while i < |changes|
        invariant i <= |changes|
        invariant Contents() == Run(cfg, old(Contents()), Stamp(ts, changes[..i]))
      {
        Change(ts, changes[i]);
        assert Stamp(ts, changes[..i + 1])[..i] == Stamp(ts, changes[..i]);
        i := i + 1;
      }
      assert changes[..|changes|] == changes;
    }
  }

  // The events of one statement.
  function Stamp(ts: int, changes: seq<Temporal.Change>): seq<Event> {
    seq(|changes|, i requires 0 <= i < |changes| => Event(ts, changes[i]))
  }
}
