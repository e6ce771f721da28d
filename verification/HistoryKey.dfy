/** The versions of one row, and of one primary key, never overlap, and the history table's key
    (pk..., row_end) is never violated - exactly when no key column is unversioned. */
module HistoryKey {
  import opened Wrappers
  import opened Text
  import opened Temporal
  import opened AsOf

  // What a version is a version of: a row, or a primary key value.
  datatype Tag = Rid(rid: nat) | Key(vals: Row)

  function KeyOf(cfg: Config, row: Row): Row {
    map c | c in row && c in cfg.pk :: row[c]
  }

  // Two rows have the same key exactly when they agree on every key column.
  lemma KeyExactly(cfg: Config, a: Row, b: Row)
    requires cfg.Valid() && a.Keys == b.Keys == (set c <- cfg.cols)
    ensures KeyOf(cfg, a) == KeyOf(cfg, b) <==> forall c <- cfg.pk :: a[c] == b[c]
  {
    if KeyOf(cfg, a) == KeyOf(cfg, b) {
      forall c | c in cfg.pk ensures a[c] == b[c] {
        assert c in cfg.Columns() && KeyOf(cfg, a)[c] == KeyOf(cfg, b)[c];
      }
    }
  }

  function TagOf(cfg: Config, byKey: bool, v: Version): Tag {
    if byKey then Key(KeyOf(cfg, v.row)) else Rid(v.rid)
  }

  // PostgreSQL enforces the current table's primary key.
  ghost predicate KeysUnique(cfg: Config, s: State) {
    forall a, b :: a in s.current && b in s.current && a != b ==> KeyOf(cfg, s.current[a]) != KeyOf(cfg, s.current[b])
  }

  function Start(cfg: Config, row: Row): int {
    match Field(row, cfg.rowStart) case Time(t) => t case _ => 0
  }

  function End(cfg: Config, row: Row): int {
    match Field(row, cfg.rowEnd) case Time(t) => t case _ => 0
  }

  ghost predicate Apart(cfg: Config, v: Row, w: Row) {
    End(cfg, v) <= Start(cfg, w) || End(cfg, w) <= Start(cfg, v)
  }

  // Archived versions of one tag lie apart, and before the current version of that tag.
  ghost predicate NoOverlap(cfg: Config, byKey: bool, s: State) {
    && (forall i, j :: 0 <= i < j < |s.history| && TagOf(cfg, byKey, s.history[i]) == TagOf(cfg, byKey, s.history[j])
          ==> Apart(cfg, s.history[i].row, s.history[j].row))
    && (forall i, rid :: 0 <= i < |s.history| && rid in s.current
          && TagOf(cfg, byKey, s.history[i]) == TagOf(cfg, byKey, Version(rid, s.current[rid]))
          ==> End(cfg, s.history[i].row) <= Start(cfg, s.current[rid]))
  }

  // The key columns are all versioned.
  predicate KeyVersioned(cfg: Config) {
    forall c <- cfg.pk :: !cfg.Unversioned(c)
  }

  // The changed row: restarted now, or still the version it was; what it leaves behind ends now.
  ghost predicate Restarts(cfg: Config, byKey: bool, s: State, e: Event, r: Option<Row>, left: seq<Version>)
    requires e.ch.InsertRow? || e.ch.rid in s.current
  {
    var rid := e.ch.rid;
    && (r.Some? && Start(cfg, r.value) != e.ts ==>
          left == [] && rid in s.current && Start(cfg, r.value) == Start(cfg, s.current[rid]) &&
          TagOf(cfg, byKey, Version(rid, r.value)) == TagOf(cfg, byKey, Version(rid, s.current[rid])))
    && (left != [] ==>
          rid in s.current && |left| == 1 && End(cfg, left[0].row) == e.ts &&
          Start(cfg, left[0].row) == Start(cfg, s.current[rid]) &&
          TagOf(cfg, byKey, left[0]) == TagOf(cfg, byKey, Version(rid, s.current[rid])))
  }

  lemma ChangeRestarts(cfg: Config, byKey: bool, s: State, clock: int, e: Event)
    requires cfg.Valid() && Healthy(cfg, s, clock) && Accepts(cfg, s, e.ch)
    requires byKey ==> KeyVersioned(cfg)
    ensures Restarts(cfg, byKey, s, e, NewRow(cfg, s, e.ts, e.ch), LeftBehind(cfg, s, e.ts, e.ch))
  {
    var rid := e.ch.rid;
    if rid in s.current {
      var row := s.current[rid];
      assert KeyOf(cfg, Closed(cfg, row, e.ts)) == KeyOf(cfg, row);
      if byKey && e.ch.UpdateRow? && !MakesVersion(cfg, e.ch.targets.Keys) {
        KeyStays(cfg, row, e.ch.targets);
      }
    }
  }

  // An update that makes no version leaves a versioned key alone.
  lemma KeyStays(cfg: Config, row: Row, targets: Row)
    requires cfg.Valid() && KeyVersioned(cfg) && !MakesVersion(cfg, targets.Keys)
    ensures KeyOf(cfg, row + targets) == KeyOf(cfg, row)
  {
    assert forall c <- cfg.pk :: c in cfg.Versioned();
  }

  lemma OthersHaveOtherTags(cfg: Config, byKey: bool, s: State, rid: nat)
    requires rid in s.current && (byKey ==> KeysUnique(cfg, s))
    ensures forall other <- s.current :: other != rid ==>
      TagOf(cfg, byKey, Version(other, s.current[other])) != TagOf(cfg, byKey, Version(rid, s.current[rid]))
  {}

  lemma StepNoOverlap(cfg: Config, byKey: bool, s: State, clock: int, e: Event)
    requires cfg.Valid() && Healthy(cfg, s, clock) && Accepts(cfg, s, e.ch) && clock <= e.ts < cfg.sentinel
    requires NoOverlap(cfg, byKey, s)
    requires byKey ==> KeysUnique(cfg, s) && KeyVersioned(cfg)
    ensures NoOverlap(cfg, byKey, Step(cfg, s, e.ts, e.ch))
  {
    hide Step, NewRow, LeftBehind, Accepts, TagOf, Start, End, Healthy, Restarts, NoOverlap;
    StepMeans(cfg, s, clock, e);
    EndedByClock(cfg, s, clock);
    ChangeRestarts(cfg, byKey, s, clock, e);
    ChangeNoOverlap(cfg, byKey, s, e, NewRow(cfg, s, e.ts, e.ch), LeftBehind(cfg, s, e.ts, e.ch));
  }

  lemma ChangeNoOverlap(cfg: Config, byKey: bool, s: State, e: Event, r: Option<Row>, left: seq<Version>)
    requires e.ch.InsertRow? || e.ch.rid in s.current
    requires NoOverlap(cfg, byKey, s) && Restarts(cfg, byKey, s, e, r, left) && (byKey ==> KeysUnique(cfg, s))
    requires forall i :: 0 <= i < |s.history| ==> End(cfg, s.history[i].row) <= e.ts
    ensures NoOverlap(cfg, byKey, State(Put(s.current, e.ch.rid, r), s.history + left))
  {
    hide TagOf, Start, End;
    if left != [] {
      OthersHaveOtherTags(cfg, byKey, s, e.ch.rid);
    }
    var s' := State(Put(s.current, e.ch.rid, r), s.history + left);
    forall i, j | 0 <= i < j < |s'.history| && TagOf(cfg, byKey, s'.history[i]) == TagOf(cfg, byKey, s'.history[j])
      ensures Apart(cfg, s'.history[i].row, s'.history[j].row)
    {
      assert s'.history[i] == s.history[i];
      if j < |s.history| {
        assert s'.history[j] == s.history[j];
      } else {
        assert s'.history[j] == left[0];
      }
    }
    forall i, rid | 0 <= i < |s'.history| && rid in s'.current
      && TagOf(cfg, byKey, s'.history[i]) == TagOf(cfg, byKey, Version(rid, s'.current[rid]))
      ensures End(cfg, s'.history[i].row) <= Start(cfg, s'.current[rid])
    {
      if i < |s.history| {
        assert s'.history[i] == s.history[i];
      } else {
        assert s'.history[i] == left[0];
      }
    }
  }

  lemma EndedByClock(cfg: Config, s: State, clock: int)
    requires Healthy(cfg, s, clock)
    ensures forall i :: 0 <= i < |s.history| ==>
      Start(cfg, s.history[i].row) < End(cfg, s.history[i].row) <= clock
  {}

  // Keys stay unique in the current table all along the run: PostgreSQL rejects other statements.
  ghost predicate KeysEnforced(cfg: Config, s: State, es: seq<Event>) {
    KeysUnique(cfg, Run(cfg, s, es)) && (es != [] ==> KeysEnforced(cfg, s, es[..|es| - 1]))
  }

  lemma {:induction false} RunNoOverlap(cfg: Config, byKey: bool, s: State, clock: int, es: seq<Event>)
    requires cfg.Valid() && Healthy(cfg, s, clock) && Legal(cfg, s, clock, es) && NoOverlap(cfg, byKey, s)
    requires byKey ==> KeysEnforced(cfg, s, es) && KeyVersioned(cfg)
    ensures NoOverlap(cfg, byKey, Run(cfg, s, es))
  {
    if es != [] {
      var before := es[..|es| - 1];
      RunHealthy(cfg, s, clock, before);
      RunNoOverlap(cfg, byKey, s, clock, before);
      StepNoOverlap(cfg, byKey, Run(cfg, s, before), Clock(clock, before), es[|es| - 1]);
    }
  }

  // The primary key of the history table: the table's key and the end of the version.
  ghost predicate HistoryKeyHolds(cfg: Config, s: State) {
    forall i, j :: 0 <= i < j < |s.history| ==>
      KeyOf(cfg, s.history[i].row) != KeyOf(cfg, s.history[j].row) ||
      End(cfg, s.history[i].row) != End(cfg, s.history[j].row)
  }

  // With a versioned key, no run violates the key of the history table.
  lemma HistoryKeyNeverViolated(cfg: Config, s: State, clock: int, es: seq<Event>)
    requires cfg.Valid() && Healthy(cfg, s, clock) && Legal(cfg, s, clock, es) && NoOverlap(cfg, true, s)
    requires KeysEnforced(cfg, s, es) && KeyVersioned(cfg)
    ensures HistoryKeyHolds(cfg, Run(cfg, s, es)) && NoOverlap(cfg, true, Run(cfg, s, es))
  {
    RunNoOverlap(cfg, true, s, clock, es);
    RunHealthy(cfg, s, clock, es);
    EndedByClock(cfg, Run(cfg, s, es), Clock(clock, es));
  }

  // The AS OF view shows each row at most once at each time.
  ghost predicate ShownAt(cfg: Config, s: State, t: int, v: Version) {
    Visible(cfg, v.row, t) && ((v.rid in s.current && s.current[v.rid] == v.row) || v in s.history)
  }

  lemma ShownOnce(cfg: Config, s: State, clock: int, es: seq<Event>, t: int, v: Version, w: Version)
    requires cfg.Valid() && Healthy(cfg, s, clock) && Legal(cfg, s, clock, es) && NoOverlap(cfg, false, s)
    requires ShownAt(cfg, Run(cfg, s, es), t, v) && ShownAt(cfg, Run(cfg, s, es), t, w) && v.rid == w.rid
    ensures v == w
  {
    hide Step, Run, Legal, ShownAt, NoOverlap;
    RunNoOverlap(cfg, false, s, clock, es);
    RunHealthy(cfg, s, clock, es);
    OneShown(cfg, Run(cfg, s, es), Clock(clock, es), t, v, w);
  }

  lemma OneShown(cfg: Config, s: State, clock: int, t: int, v: Version, w: Version)
    requires Healthy(cfg, s, clock) && NoOverlap(cfg, false, s)
    requires ShownAt(cfg, s, t, v) && ShownAt(cfg, s, t, w) && v.rid == w.rid
    ensures v == w
  {
    VisibleInterval(cfg, v.row, t);
    VisibleInterval(cfg, w.row, t);
    if v in s.history && w in s.history {
      var i :| 0 <= i < |s.history| && s.history[i] == v;
      var j :| 0 <= j < |s.history| && s.history[j] == w;
      assert TagOf(cfg, false, v) == TagOf(cfg, false, w);
    }
  }

  lemma VisibleInterval(cfg: Config, row: Row, t: int)
    requires Dated(cfg, row)
    ensures Visible(cfg, row, t) <==> Start(cfg, row) <= t < End(cfg, row)
  {}

  /* ---- an unversioned key column breaks the history key ---- */

  const EMPTY := State(map[], [])

  function SampleRow(cfg: Config, p: string, d: int): Row {
    map c | c in cfg.cols :: if c == p then Data(d) else Data(0)
  }

  // Two rows; the second is deleted, the first takes its key in place and is deleted as well,
  // all at time 2.
  function Collision(cfg: Config, p: string): seq<Event> {
    [Event(1, InsertRow(0, SampleRow(cfg, p, 1))),
     Event(1, InsertRow(1, SampleRow(cfg, p, 2))),
     Event(2, DeleteRow(1)),
     Event(2, UpdateRow(0, map[p := Data(2)])),
     Event(2, DeleteRow(0))]
  }

  function Live(cfg: Config, p: string, d: int): Row {
    Stamped(cfg, SampleRow(cfg, p, d), 1)
  }

  // The table after each event of the collision.
  function After(cfg: Config, p: string, n: nat): State {
    var a, b := Live(cfg, p, 1), Live(cfg, p, 2);
    var first := [Version(1, Closed(cfg, b, 2))];
    if n == 0 then EMPTY
    else if n == 1 then State(map[0 := a], [])
    else if n == 2 then State(map[0 := a, 1 := b], [])
    else if n == 3 then State(map[0 := a], first)
    else if n == 4 then State(map[0 := b], first)
    else State(map[], first + [Version(0, Closed(cfg, b, 2))])
  }

  lemma SampleFacts(cfg: Config, p: string)
    requires cfg.Valid() && p in cfg.pk && cfg.Unversioned(p) && cfg.sentinel > 2
    ensures SampleRow(cfg, p, 1).Keys == SampleRow(cfg, p, 2).Keys == (set c <- cfg.cols)
    ensures p in cfg.Columns() && !MakesVersion(cfg, {p})
    ensures Live(cfg, p, 1) + map[p := Data(2)] == Live(cfg, p, 2)
    ensures Field(Live(cfg, p, 1), cfg.rowStart) == Field(Live(cfg, p, 2), cfg.rowStart) == Time(1)
  {
    assert p !in cfg.Versioned();
    assert (Live(cfg, p, 1) + map[p := Data(2)]).Keys == Live(cfg, p, 2).Keys;
  }

  lemma AfterAccepts(cfg: Config, p: string, n: nat)
    requires cfg.Valid() && p in cfg.pk && cfg.Unversioned(p) && cfg.sentinel > 2 && n < 5
    ensures Accepts(cfg, After(cfg, p, n), Collision(cfg, p)[n].ch)
  {
    hide SampleRow, Live, Closed;
    SampleFacts(cfg, p);
  }

  lemma AfterInserts(cfg: Config, p: string, n: nat)
    requires n < 2
    ensures Meaning(cfg, After(cfg, p, n), 1, Collision(cfg, p)[n].ch) == After(cfg, p, n + 1)
  {
    hide SampleRow, Stamped;
    assert After(cfg, p, n).history + [] == After(cfg, p, n).history;
  }

  lemma AfterFirstDelete(cfg: Config, p: string)
    requires Field(Live(cfg, p, 2), cfg.rowStart) == Time(1)
    ensures Meaning(cfg, After(cfg, p, 2), 2, DeleteRow(1)) == After(cfg, p, 3)
  {
    hide Live, Closed;
    assert After(cfg, p, 2).current - {1} == map[0 := Live(cfg, p, 1)];
  }

  lemma AfterUpdate(cfg: Config, p: string)
    requires !MakesVersion(cfg, {p}) && Live(cfg, p, 1) + map[p := Data(2)] == Live(cfg, p, 2)
    ensures Meaning(cfg, After(cfg, p, 3), 2, UpdateRow(0, map[p := Data(2)])) == After(cfg, p, 4)
  {
    hide Live, Closed, MakesVersion;
    assert (map[p := Data(2)]).Keys == {p};
    assert After(cfg, p, 3).history + [] == After(cfg, p, 3).history;
  }

  lemma AfterLastDelete(cfg: Config, p: string)
    requires Field(Live(cfg, p, 2), cfg.rowStart) == Time(1)
    ensures Meaning(cfg, After(cfg, p, 4), 2, DeleteRow(0)) == After(cfg, p, 5)
  {
    hide Live, Closed;
    assert After(cfg, p, 4).current - {0} == map[];
  }

  lemma AfterStep(cfg: Config, p: string, n: nat)
    requires cfg.Valid() && p in cfg.pk && cfg.Unversioned(p) && cfg.sentinel > 2 && n < 5
    requires Healthy(cfg, After(cfg, p, n), Clock(0, Collision(cfg, p)[..n]))
    ensures Accepts(cfg, After(cfg, p, n), Collision(cfg, p)[n].ch)
    ensures Step(cfg, After(cfg, p, n), Collision(cfg, p)[n].ts, Collision(cfg, p)[n].ch) == After(cfg, p, n + 1)
  {
    hide Step, After, Meaning, Live, SampleRow, MakesVersion, Healthy, Accepts;
    AfterAccepts(cfg, p, n);
    SampleFacts(cfg, p);
    StepMeans(cfg, After(cfg, p, n), Clock(0, Collision(cfg, p)[..n]), Collision(cfg, p)[n]);
    if n < 2 {
      AfterInserts(cfg, p, n);
    } else if n == 2 {
      AfterFirstDelete(cfg, p);
    } else if n == 3 {
      AfterUpdate(cfg, p);
    } else {
      AfterLastDelete(cfg, p);
    }
  }

  lemma AfterKeys(cfg: Config, p: string, n: nat)
    requires cfg.Valid() && p in cfg.pk && n <= 5
    ensures KeysUnique(cfg, After(cfg, p, n))
  {
    hide SampleRow, Live, KeyOf, Closed;
    SampleKeys(cfg, p);
    var a, b := Live(cfg, p, 1), Live(cfg, p, 2);
    assert After(cfg, p, n).current in [map[], map[0 := a], map[0 := a, 1 := b], map[0 := b]];
  }

  lemma SampleKeys(cfg: Config, p: string)
    requires cfg.Valid() && p in cfg.pk
    ensures KeyOf(cfg, Live(cfg, p, 1)) != KeyOf(cfg, Live(cfg, p, 2))
  {
    assert KeyOf(cfg, Live(cfg, p, 1))[p] != KeyOf(cfg, Live(cfg, p, 2))[p];
  }

  lemma {:induction false} CollisionRuns(cfg: Config, p: string, n: nat)
    requires cfg.Valid() && p in cfg.pk && cfg.Unversioned(p) && cfg.sentinel > 2 && n <= 5
    ensures var es := Collision(cfg, p)[..n];
      Legal(cfg, EMPTY, 0, es) && KeysEnforced(cfg, EMPTY, es) && Run(cfg, EMPTY, es) == After(cfg, p, n) &&
      Healthy(cfg, After(cfg, p, n), Clock(0, es))
  {
    hide Step, After, Live, SampleRow, Healthy, Accepts, KeysUnique;
    AfterKeys(cfg, p, n);
    var es := Collision(cfg, p)[..n];
    if n == 0 {
      StartsEmpty(cfg, p);
    } else {
      var before := Collision(cfg, p)[..n - 1];
      CollisionRuns(cfg, p, n - 1);
      assert es[..|es| - 1] == before;
      AfterStep(cfg, p, n - 1);
      StepHealthy(cfg, After(cfg, p, n - 1), Clock(0, before), es[n - 1]);
    }
  }

  lemma StartsEmpty(cfg: Config, p: string)
    requires cfg.sentinel > 0
    ensures After(cfg, p, 0) == EMPTY && Healthy(cfg, EMPTY, 0)
  {}

  // The history table takes every archived version of the run but the last, whose key it holds already.
  ghost predicate Refused(cfg: Config, es: seq<Event>) {
    && Legal(cfg, EMPTY, 0, es) && KeysEnforced(cfg, EMPTY, es)
    && (forall n :: 0 <= n < |es| ==> HistoryKeyHolds(cfg, Run(cfg, EMPTY, es[..n])))
    && !HistoryKeyHolds(cfg, Run(cfg, EMPTY, es))
  }

  ghost predicate KeySafe(cfg: Config) {
    forall es: seq<Event> :: !Refused(cfg, es)
  }

  // The delete at the end archives a version with the key and the end of the first one.
  lemma CollisionCollides(cfg: Config, p: string)
    requires cfg.Valid() && p in cfg.pk && cfg.Unversioned(p) && cfg.sentinel > 2
    ensures Refused(cfg, Collision(cfg, p)) && Collision(cfg, p)[4] == Event(2, DeleteRow(0))
    ensures !KeySafe(cfg)
  {
    hide Step, Live, KeyOf, Legal, KeysEnforced, Run;
    CollisionRuns(cfg, p, 5);
    var es := Collision(cfg, p);
    assert es[..5] == es;
    forall n | 0 <= n < 5 ensures HistoryKeyHolds(cfg, Run(cfg, EMPTY, es[..n])) {
      CollisionRuns(cfg, p, n);
    }
    var s := After(cfg, p, 5);
    assert s.history[0].row == s.history[1].row;
    assert !HistoryKeyHolds(cfg, s);
  }

  // From an empty table, no change is ever refused for the key of the history table exactly when no key column is
  // listed WITHOUT SYSTEM VERSIONING, case aside.
  lemma KeySafeExactly(cfg: Config)
    requires cfg.Valid() && cfg.sentinel > 2
    ensures KeySafe(cfg) <==> forall p <- cfg.pk :: forall u <- cfg.unversioned :: u != "" ==> Lower(u) != Lower(p)
  {
    forall p | p in cfg.pk
      ensures cfg.Unversioned(p) <==> exists u <- cfg.unversioned :: u != "" && Lower(u) == Lower(p)
    {
      VersionedExactly(cfg, p);
    }
    if KeyVersioned(cfg) {
      forall es: seq<Event> | Legal(cfg, EMPTY, 0, es) && KeysEnforced(cfg, EMPTY, es)
        ensures HistoryKeyHolds(cfg, Run(cfg, EMPTY, es))
      {
        HistoryKeyNeverViolated(cfg, EMPTY, 0, es);
      }
    } else {
      var p :| p in cfg.pk && cfg.Unversioned(p);
      CollisionCollides(cfg, p);
    }
  }
}
