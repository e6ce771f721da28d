/** Batches of key ranges: each attempt deletes its range from the target, then copies it from the source. */
module BatchCopy {
  import opened Partition
  import opened KeyBounds

  datatype Row = Row(key: int, cells: seq<string>)

  function Inside(rows: seq<Row>, r: Range): seq<Row> {
    if rows == [] then []
    else
      var n := |rows| - 1;
      Inside(rows[..n], r) + if In(r, rows[n].key) then [rows[n]] else []
  }

  function Outside(rows: seq<Row>, r: Range): seq<Row> {
    if rows == [] then []
    else
      var n := |rows| - 1;
      Outside(rows[..n], r) + if In(r, rows[n].key) then [] else [rows[n]]
  }

  /* ---- the target table ---- */

  class TargetTable {
    var rows: seq<Row>

    method DeleteRange(r: Range)
      modifies this
      ensures rows == Outside(old(rows), r)
    {
      var kept, i := [], 0;
      while i < |rows|
        invariant i <= |rows| && rows == old(rows) && kept == Outside(rows[..i], r)
      {
        assert rows[..i + 1][..i] == rows[..i];
        if !In(r, rows[i].key) {
          kept := kept + [rows[i]];
        }
        i := i + 1;
      }
      assert rows[..i] == rows;
      rows := kept;
    }

    // COPY is one statement: the rows streamed to it appear together or not at all.
    method CopyFrom(source: seq<Row>, r: Range, breaks: bool) returns (ok: bool)
      modifies this
      ensures ok == !breaks
      ensures rows == if ok then old(rows) + Inside(source, r) else old(rows)
    {
      var streamed, i := [], 0;
      while i < |source|
        invariant i <= |source| && rows == old(rows) && streamed == Inside(source[..i], r)
      {
        assert source[..i + 1][..i] == source[..i];
        if In(r, source[i].key) {
          streamed := streamed + [source[i]];
        }
        i := i + 1;
      }
      assert source[..i] == source;
      if breaks {
        return false;
      }
      rows := rows + streamed;
      ok := true;
    }

    method CopyBatch(source: seq<Row>, r: Range, breaks: bool) returns (ok: bool)
      modifies this
      ensures ok == !breaks
      ensures rows == Outside(old(rows), r) + if ok then Inside(source, r) else []
    {
      DeleteRange(r);
      ok := CopyFrom(source, r, breaks);
    }
  }

  function Count(rows: seq<Row>, x: Row): nat {
    multiset(rows)[x]
  }

  lemma {:induction false} InsideCount(rows: seq<Row>, r: Range, x: Row)
    ensures Count(Inside(rows, r), x) == if In(r, x.key) then Count(rows, x) else 0
  {
    if rows != [] {
      var n := |rows| - 1;
      InsideCount(rows[..n], r, x);
      assert rows == rows[..n] + [rows[n]];
    }
  }

  lemma {:induction false} OutsideCount(rows: seq<Row>, r: Range, x: Row)
    ensures Count(Outside(rows, r), x) == if In(r, x.key) then 0 else Count(rows, x)
  {
    if rows != [] {
      var n := |rows| - 1;
      OutsideCount(rows[..n], r, x);
      assert rows == rows[..n] + [rows[n]];
    }
  }

  // A batch done again, whole, changes nothing.
  lemma Idempotent(source: seq<Row>, target: seq<Row>, r: Range, x: Row)
    ensures var once := Outside(target, r) + Inside(source, r);
      Count(Outside(once, r) + Inside(source, r), x) == Count(once, x)
  {
    var once := Outside(target, r) + Inside(source, r);
    OutsideCount(once, r, x);
    OutsideCount(target, r, x);
    InsideCount(source, r, x);
  }

  /* ---- every interleaving ---- */

  // live: an attempt is between its delete and its copy.
  datatype Progress = Untouched | Deleted(live: bool) | Copied

  datatype State = State(target: seq<Row>, batches: seq<Progress>)

  // Of an attempt of batch i: its delete, its copy, or its death in between.
  datatype Event = Delete(i: nat) | CopyIn(i: nat) | Die(i: nat)

  predicate Live(p: Progress) {
    p.Deleted? && p.live
  }

  // Attempts of one batch do not overlap; those of different batches may.
  predicate Enabled(s: State, e: Event) {
    e.i < |s.batches| && (Live(s.batches[e.i]) <==> !e.Delete?)
  }

  function Next(source: seq<Row>, ranges: seq<Range>, s: State, e: Event): State
    requires |ranges| == |s.batches| && Enabled(s, e)
  {
    match e
    case Delete(i) => State(Outside(s.target, ranges[i]), s.batches[i := Deleted(true)])
    case CopyIn(i) => State(s.target + Inside(source, ranges[i]), s.batches[i := Copied])
    case Die(i) => s.(batches := s.batches[i := Deleted(false)])
  }

  ghost predicate Possible(source: seq<Row>, ranges: seq<Range>, s: State, es: seq<Event>)
    requires |ranges| == |s.batches|
    decreases |es|
  {
    es == [] || (Enabled(s, es[0]) && Possible(source, ranges, Next(source, ranges, s, es[0]), es[1..]))
  }

  ghost function After(source: seq<Row>, ranges: seq<Range>, s: State, es: seq<Event>): (t: State)
    requires |ranges| == |s.batches| && Possible(source, ranges, s, es)
    ensures |t.batches| == |s.batches|
    decreases |es|
  {
    if es == [] then s else After(source, ranges, Next(source, ranges, s, es[0]), es[1..])
  }

  function Begin(target: seq<Row>, ranges: seq<Range>): (s: State)
    ensures s.target == target && |s.batches| == |ranges| && forall i :: 0 <= i < |ranges| ==> s.batches[i] == Untouched
  {
    State(target, seq(|ranges|, i => Untouched))
  }

  predicate Complete(s: State) {
    forall i :: 0 <= i < |s.batches| ==> s.batches[i] == Copied
  }

  // How often x is in the target, given how far the one batch of its key is.
  ghost predicate Tracks(source: seq<Row>, ranges: seq<Range>, s: State, x: Row, first: nat)
    requires |ranges| == |s.batches|
  {
    forall i :: 0 <= i < |ranges| && In(ranges[i], x.key) ==>
      Count(s.target, x) ==
        match s.batches[i] case Untouched => first case Deleted(_) => 0 case Copied => Count(source, x)
  }

  lemma TracksStep(source: seq<Row>, ranges: seq<Range>, s: State, e: Event, x: Row, first: nat)
    requires |ranges| == |s.batches| && Enabled(s, e) && InOne(ranges, x.key) && Tracks(source, ranges, s, x, first)
    ensures Tracks(source, ranges, Next(source, ranges, s, e), x, first)
  {
    OutsideCount(s.target, ranges[e.i], x);
    InsideCount(source, ranges[e.i], x);
  }

  lemma {:induction false} TracksAlong(source: seq<Row>, ranges: seq<Range>, s: State, es: seq<Event>,
      x: Row, first: nat)
    requires |ranges| == |s.batches| && Possible(source, ranges, s, es) && InOne(ranges, x.key)
    requires Tracks(source, ranges, s, x, first)
    ensures Tracks(source, ranges, After(source, ranges, s, es), x, first)
    decreases |es|
  {
    if es != [] {
      TracksStep(source, ranges, s, es[0], x, first);
      hide Tracks, InOne;
      TracksAlong(source, ranges, Next(source, ranges, s, es[0]), es[1..], x, first);
    }
  }

  // A row that is not in the source goes with the first delete of its key.
  ghost predicate Fades(ranges: seq<Range>, s: State, x: Row)
    requires |ranges| == |s.batches|
  {
    (exists i :: 0 <= i < |ranges| && In(ranges[i], x.key) && !s.batches[i].Untouched?) ==> Count(s.target, x) == 0
  }

  lemma {:induction false} FadesAlong(source: seq<Row>, ranges: seq<Range>, s: State, es: seq<Event>, x: Row)
    requires |ranges| == |s.batches| && Possible(source, ranges, s, es) && Count(source, x) == 0 && Fades(ranges, s, x)
    ensures Fades(ranges, After(source, ranges, s, es), x)
    decreases |es|
  {
    if es != [] {
      OutsideCount(s.target, ranges[es[0].i], x);
      InsideCount(source, ranges[es[0].i], x);
      FadesAlong(source, ranges, Next(source, ranges, s, es[0]), es[1..], x);
    }
  }

  ghost predicate KeysInOne(source: seq<Row>, ranges: seq<Range>) {
    forall x <- source :: InOne(ranges, x.key)
  }

  // What was in the target before is in the ranges, and so will be deleted.
  predicate Replaceable(target: seq<Row>, ranges: seq<Range>) {
    forall x <- target :: exists i :: 0 <= i < |ranges| && In(ranges[i], x.key)
  }

  // Whatever the order of the batches, and however often each was tried or died on the way, once the
  // last attempt of each copied its range the target holds exactly the rows of the source.
  lemma CopyIsExact(source: seq<Row>, ranges: seq<Range>, target: seq<Row>, es: seq<Event>)
    requires KeysInOne(source, ranges) && Replaceable(target, ranges)
    requires Possible(source, ranges, Begin(target, ranges), es)
    requires Complete(After(source, ranges, Begin(target, ranges), es))
    ensures multiset(After(source, ranges, Begin(target, ranges), es).target) == multiset(source)
  {
    hide Possible, InOne, After, Complete, Replaceable, Count;
    var begin := Begin(target, ranges);
    var end := After(source, ranges, begin, es);
    forall x: Row ensures Count(end.target, x) == Count(source, x) {
      if x in source {
        RowArrives(source, ranges, target, es, x);
      } else {
        RowLeaves(source, ranges, target, es, x);
      }
    }
    SameCounts(end.target, source);
  }

  lemma SameCounts(a: seq<Row>, b: seq<Row>)
    requires forall x: Row :: Count(a, x) == Count(b, x)
    ensures multiset(a) == multiset(b)
  {
    assert forall x: Row :: multiset(a)[x] == Count(a, x) == Count(b, x) == multiset(b)[x];
  }

  lemma RowArrives(source: seq<Row>, ranges: seq<Range>, target: seq<Row>, es: seq<Event>, x: Row)
    requires InOne(ranges, x.key) && Possible(source, ranges, Begin(target, ranges), es)
    requires Complete(After(source, ranges, Begin(target, ranges), es))
    ensures Count(After(source, ranges, Begin(target, ranges), es).target, x) == Count(source, x)
  {
    hide Possible, InOne, After;
    TracksAlong(source, ranges, Begin(target, ranges), es, x, Count(target, x));
    var i := TheOne(ranges, x.key);
  }

  // A row that is not in the source was in a range, whose batch has been copied, or was not there at all.
  lemma RowLeaves(source: seq<Row>, ranges: seq<Range>, target: seq<Row>, es: seq<Event>, x: Row)
    requires x !in source && Replaceable(target, ranges) && Possible(source, ranges, Begin(target, ranges), es)
    requires Complete(After(source, ranges, Begin(target, ranges), es))
    ensures Count(After(source, ranges, Begin(target, ranges), es).target, x) == Count(source, x)
  {
    hide Possible, After;
    var end := After(source, ranges, Begin(target, ranges), es);
    if x in target {
      var i :| 0 <= i < |ranges| && In(ranges[i], x.key);
      FadesAlong(source, ranges, Begin(target, ranges), es, x);
      assert !end.batches[i].Untouched?;
    } else {
      StaysOut(source, ranges, Begin(target, ranges), es, x);
    }
  }

  lemma TheOne(ranges: seq<Range>, v: int) returns (i: nat)
    requires InOne(ranges, v)
    ensures i < |ranges| && In(ranges[i], v)
  {
    i :| 0 <= i < |ranges| && In(ranges[i], v);
  }

  lemma {:induction false} StaysOut(source: seq<Row>, ranges: seq<Range>, s: State, es: seq<Event>, x: Row)
    requires |ranges| == |s.batches| && Possible(source, ranges, s, es) && Count(source, x) == 0
    ensures Count(After(source, ranges, s, es).target, x) <= Count(s.target, x)
    decreases |es|
  {
    if es != [] {
      OutsideCount(s.target, ranges[es[0].i], x);
      InsideCount(source, ranges[es[0].i], x);
      StaysOut(source, ranges, Next(source, ranges, s, es[0]), es[1..], x);
    }
  }

  /* ---- and only then ---- */

  // How many of the first n ranges hold the key.
  function Covers(ranges: seq<Range>, n: nat, v: int): nat
    requires n <= |ranges|
  {
    if n == 0 then 0 else Covers(ranges, n - 1, v) + if In(ranges[n - 1], v) then 1 else 0
  }

  lemma {:induction false} CoversNone(ranges: seq<Range>, n: nat, v: int)
    requires n <= |ranges|
    ensures Covers(ranges, n, v) == 0 <==> forall i :: 0 <= i < n ==> !In(ranges[i], v)
  {
    hide In;
    if n > 0 {
      CoversNone(ranges, n - 1, v);
    }
  }

  // Range i is the only one of the first n to hold the key.
  ghost predicate Only(ranges: seq<Range>, n: nat, v: int, i: nat)
    requires n <= |ranges|
  {
    i < n && In(ranges[i], v) && forall j :: 0 <= j < n && In(ranges[j], v) ==> j == i
  }

  lemma {:induction false} CoversOne(ranges: seq<Range>, n: nat, v: int) returns (i: nat)
    requires n <= |ranges| && Covers(ranges, n, v) == 1
    ensures Only(ranges, n, v, i)
  {
    hide In;
    if In(ranges[n - 1], v) {
      CoversNone(ranges, n - 1, v);
      i := n - 1;
    } else {
      i := CoversOne(ranges, n - 1, v);
    }
  }

  // The first k batches are at one point, the others at another.
  predicate Halfway(s: State, k: nat, one: Progress, other: Progress) {
    k <= |s.batches| && forall i :: 0 <= i < |s.batches| ==> s.batches[i] == if i < k then one else other
  }

  lemma CopiedHalf(source: seq<Row>, ranges: seq<Range>, s: State, k: nat)
    requires |ranges| == |s.batches| && k < |ranges| && Halfway(s, k, Copied, Deleted(true))
    ensures Enabled(s, CopyIn(k)) && Halfway(Next(source, ranges, s, CopyIn(k)), k + 1, Copied, Deleted(true))
  {}

  lemma CopiedCount(source: seq<Row>, ranges: seq<Range>, s: State, k: nat, x: Row)
    requires |ranges| == |s.batches| && k < |ranges| && Enabled(s, CopyIn(k))
    ensures Count(Next(source, ranges, s, CopyIn(k)).target, x) + Covers(ranges, k, x.key) * Count(source, x)
            == Count(s.target, x) + Covers(ranges, k + 1, x.key) * Count(source, x)
  {
    hide Inside, Enabled;
    InsideCount(source, ranges[k], x);
    OneMore(Covers(ranges, k, x.key), Count(source, x));
  }

  lemma {:induction false} CopyTheRest(source: seq<Row>, ranges: seq<Range>, s: State, k: nat, x: Row)
    returns (es: seq<Event>)
    requires |ranges| == |s.batches| && Halfway(s, k, Copied, Deleted(true))
    ensures Possible(source, ranges, s, es) && Complete(After(source, ranges, s, es))
    ensures Count(After(source, ranges, s, es).target, x) + Covers(ranges, k, x.key) * Count(source, x)
            == Count(s.target, x) + Covers(ranges, |ranges|, x.key) * Count(source, x)
    decreases |ranges| - k
  {
    if k == |ranges| {
      es := [];
    } else {
      hide Count, Covers, Complete, Next, Halfway, Enabled;
      CopiedHalf(source, ranges, s, k);
      CopiedCount(source, ranges, s, k, x);
      var rest := CopyTheRest(source, ranges, Next(source, ranges, s, CopyIn(k)), k + 1, x);
      es := [CopyIn(k)] + rest;
      assert es[1..] == rest;
    }
  }

  lemma {:induction false} DeleteTheRest(source: seq<Row>, ranges: seq<Range>, s: State, k: nat, x: Row)
    returns (es: seq<Event>)
    requires |ranges| == |s.batches| && Halfway(s, k, Deleted(true), Untouched) && s.target == []
    ensures Possible(source, ranges, s, es) && Complete(After(source, ranges, s, es))
    ensures Count(After(source, ranges, s, es).target, x) == Covers(ranges, |ranges|, x.key) * Count(source, x)
    decreases |ranges| - k
  {
    if k == |ranges| {
      es := CopyTheRest(source, ranges, s, 0, x);
    } else {
      var e := Delete(k);
      var rest := DeleteTheRest(source, ranges, Next(source, ranges, s, e), k + 1, x);
      es := [e] + rest;
      assert es[1..] == rest;
    }
  }

  ghost predicate AlwaysExact(source: seq<Row>, ranges: seq<Range>) {
    forall target, es :: Replaceable(target, ranges) && Finishes(source, ranges, target, es) ==>
      multiset(After(source, ranges, Begin(target, ranges), es).target) == multiset(source)
  }

  ghost predicate Finishes(source: seq<Row>, ranges: seq<Range>, target: seq<Row>, es: seq<Event>) {
    var begin := Begin(target, ranges);
    Possible(source, ranges, begin, es) && Complete(After(source, ranges, begin, es))
  }

  // Every complete interleaving is exact, whatever the target held in the ranges, exactly when each row
  // of the source falls in one range: a row in none is lost, and one in two can arrive twice.
  lemma CopyExactly(source: seq<Row>, ranges: seq<Range>)
    ensures AlwaysExact(source, ranges) <==> KeysInOne(source, ranges)
  {
    if KeysInOne(source, ranges) {
      forall target, es | Replaceable(target, ranges) && Finishes(source, ranges, target, es)
        ensures multiset(After(source, ranges, Begin(target, ranges), es).target) == multiset(source)
      {
        CopyIsExact(source, ranges, target, es);
      }
    }
    if AlwaysExact(source, ranges) {
      forall x | x in source ensures InOne(ranges, x.key) {
        var es := DeleteTheRest(source, ranges, Begin([], ranges), 0, x);
        assert Replaceable([], ranges) && Finishes(source, ranges, [], es);
        assert Count(After(source, ranges, Begin([], ranges), es).target, x) == Count(source, x) > 0;
        OneCover(Covers(ranges, |ranges|, x.key), Count(source, x));
        var i := CoversOne(ranges, |ranges|, x.key);
      }
    }
  }

  lemma OneCover(n: nat, c: nat)
    requires c > 0 && n * c == c
    ensures n == 1
  {
    if n >= 2 {
      MulMono(2, n, c);
    }
  }

  /* ---- the partition's own ranges ---- */

  // The ranges of a plan copy every table with keys between its bounds exactly when the bounds survive
  // being read back.
  lemma PlannedCopyExactly(min: int, max: int, size: int)
    requires IsInt64(min) && IsInt64(max) && min <= max && IsInt64(size) && size > 0 && NoWrap(min, max, size)
    ensures var tiles := KeyRanges(min, max, size, Rounds(min, max, size));
      (forall source: seq<Row> :: KeysWithin(source, min, max) ==> AlwaysExact(source, RoundedRanges(tiles))) <==>
      BoundsHold(tiles, min, max)
  {
    hide InOne, AlwaysExact, Rounded, BoundaryHolds;
    var tiles := KeyRanges(min, max, size, Rounds(min, max, size));
    var ranges := RoundedRanges(tiles);
    TilesIf(min, max, size);
    RoundingExactly(tiles, min, max, size);
    forall source: seq<Row> | KeysWithin(source, min, max)
      ensures AlwaysExact(source, ranges) <==> KeysInOne(source, ranges)
    {
      CopyExactly(source, ranges);
    }
    forall v | min <= v <= max
      ensures KeysWithin([Row(v, [])], min, max) && (KeysInOne([Row(v, [])], ranges) <==> InOne(ranges, v))
    {
      assert Row(v, []) in [Row(v, [])];
    }
  }

  predicate KeysWithin(source: seq<Row>, min: int, max: int) {
    forall x <- source :: min <= x.key <= max
  }

  // Bounds of at most 53 bits do.
  lemma SmallBoundsHold(min: int, max: int, size: int)
    requires -EXACT <= min <= max <= EXACT && IsInt64(size) && size > 0 && NoWrap(min, max, size)
    ensures BoundsHold(KeyRanges(min, max, size, Rounds(min, max, size)), min, max)
  {
    hide Rounded;
    var tiles := KeyRanges(min, max, size, Rounds(min, max, size));
    TilesIf(min, max, size);
    SmallExact(min);
    SmallExact(max);
    forall i | 0 <= i < |tiles| - 1 ensures BoundaryHolds(tiles[i].high, min, max) {
      TilesWithin(tiles, min, max, size, i);
      TilesWithin(tiles, min, max, size, i + 1);
      assert Follows(tiles, i + 1);
    }
  }
}
