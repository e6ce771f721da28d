/** Attempts of one batch that overlap, as the supervisor lets them, against a target whose primary
    key holds: only the order of the writes counts. */
module CopyOverlap {
  import opened Partition
  import opened KeyBounds
  import opened BatchCopy

  // A write of some attempt of batch i.
  datatype Write = Deletes(i: nat) | Copies(i: nat)

  predicate DistinctKeys(rows: seq<Row>) {
    forall i, j :: 0 <= i < j < |rows| ==> rows[i].key != rows[j].key
  }

  // A COPY that would repeat a key fails as a whole.
  ghost function Wrote(source: seq<Row>, ranges: seq<Range>, target: seq<Row>, w: Write): seq<Row>
    requires w.i < |ranges|
  {
    match w
    case Deletes(i) => Outside(target, ranges[i])
    case Copies(i) =>
      var copied := target + Inside(source, ranges[i]);
      if DistinctKeys(copied) then copied else target
  }

  ghost function AfterAll(source: seq<Row>, ranges: seq<Range>, target: seq<Row>, ws: seq<Write>): seq<Row>
    requires forall w <- ws :: w.i < |ranges|
  {
    if ws == [] then target
    else
      var n := |ws| - 1;
      Wrote(source, ranges, AfterAll(source, ranges, target, ws[..n]), ws[n])
  }

  predicate Started(ws: seq<Write>, i: nat) {
    Deletes(i) in ws
  }

  // The last write of batch i is a copy.
  predicate EndsCopied(ws: seq<Write>, i: nat)
    decreases |ws|
  {
    if ws == [] then false
    else if ws[|ws| - 1].i == i then ws[|ws| - 1].Copies?
    else EndsCopied(ws[..|ws| - 1], i)
  }

  lemma {:induction false} InsideDistinct(rows: seq<Row>, r: Range)
    requires DistinctKeys(rows)
    ensures DistinctKeys(Inside(rows, r)) && forall x <- Inside(rows, r) :: x in rows && In(r, x.key)
  {
    if rows != [] {
      InsideDistinct(rows[..|rows| - 1], r);
    }
  }

  lemma {:induction false} OutsideDistinct(rows: seq<Row>, r: Range)
    requires DistinctKeys(rows)
    ensures DistinctKeys(Outside(rows, r)) && forall x <- Outside(rows, r) :: x in rows && !In(r, x.key)
  {
    if rows != [] {
      OutsideDistinct(rows[..|rows| - 1], r);
    }
  }

  // The target holds, of the keys of batch i, exactly what the source has, or nothing.
  ghost predicate Holds(source: seq<Row>, target: seq<Row>, r: Range, copied: bool) {
    forall x: Row :: In(r, x.key) ==> Count(target, x) == if copied then Count(source, x) else 0
  }

  // Whatever overlapped, batch i is whole when its last write was a copy and empty when it was a delete.
  lemma {:induction false} HoldsAlong(source: seq<Row>, ranges: seq<Range>, target: seq<Row>, ws: seq<Write>, i: nat)
    requires DistinctKeys(source) && DistinctKeys(target) && KeysInOne(source, ranges)
    requires (forall w <- ws :: w.i < |ranges|) && i < |ranges|
    ensures DistinctKeys(AfterAll(source, ranges, target, ws))
    ensures Started(ws, i) ==> Holds(source, AfterAll(source, ranges, target, ws), ranges[i], EndsCopied(ws, i))
  {
    if ws != [] {
      var n := |ws| - 1;
      var before := AfterAll(source, ranges, target, ws[..n]);
      HoldsAlong(source, ranges, target, ws[..n], i);
      OutsideDistinct(before, ranges[ws[n].i]);
      hide DistinctKeys, KeysInOne;
      assert Started(ws, i) <==> Started(ws[..n], i) || ws[n] == Deletes(i);
      if ws[n].i != i {
        if Started(ws[..n], i) {
          OthersStay(source, ranges, before, ws[n], i, EndsCopied(ws[..n], i));
        }
      } else if ws[n].Deletes? {
        DeletedHolds(source, before, ranges[i]);
      } else if Started(ws[..n], i) {
        CopiedHolds(source, ranges, before, i, EndsCopied(ws[..n], i));
      }
    }
  }

  lemma OthersStay(source: seq<Row>, ranges: seq<Range>, target: seq<Row>, w: Write, i: nat, copied: bool)
    requires KeysInOne(source, ranges) && w.i < |ranges| && i < |ranges| && w.i != i
    requires Holds(source, target, ranges[i], copied)
    ensures Holds(source, Wrote(source, ranges, target, w), ranges[i], copied)
  {
    hide Inside, Outside, DistinctKeys;
    forall x: Row | In(ranges[i], x.key)
      ensures Count(Wrote(source, ranges, target, w), x) == if copied then Count(source, x) else 0
    {
      OutsideCount(target, ranges[w.i], x);
      InsideCount(source, ranges[w.i], x);
      if x in source {
        assert InOne(ranges, x.key);
      }
    }
  }

  lemma DeletedHolds(source: seq<Row>, target: seq<Row>, r: Range)
    ensures Holds(source, Outside(target, r), r, false)
  {
    forall x: Row ensures In(r, x.key) ==> Count(Outside(target, r), x) == 0 {
      OutsideCount(target, r, x);
    }
  }

  // Into an empty range the copy goes whole; into a full one it fails, or had nothing to copy.
  lemma CopiedHolds(source: seq<Row>, ranges: seq<Range>, target: seq<Row>, i: nat, copied: bool)
    requires DistinctKeys(source) && DistinctKeys(target) && i < |ranges| && Holds(source, target, ranges[i], copied)
    ensures Holds(source, Wrote(source, ranges, target, Copies(i)), ranges[i], true)
  {
    hide Inside, Count, DistinctKeys;
    var r := ranges[i];
    if copied {
      CopiedAgain(source, target, r);
    } else {
      CopiedWhole(source, target, r);
    }
  }

  // Into a full range: nothing, or a key twice.
  lemma CopiedAgain(source: seq<Row>, target: seq<Row>, r: Range)
    requires DistinctKeys(source) && Holds(source, target, r, true)
    ensures Inside(source, r) == [] || !DistinctKeys(target + Inside(source, r))
    ensures Inside(source, r) == [] ==> target + Inside(source, r) == target
  {
    var more := Inside(source, r);
    InsideDistinct(source, r);
    if more != [] {
      assert Count(source, more[0]) > 0 && Count(target, more[0]) > 0;
      var k :| 0 <= k < |target| && target[k] == more[0];
      assert (target + more)[k].key == (target + more)[|target|].key;
    }
  }

  // Into an empty range: no key twice, and all of them there.
  lemma CopiedWhole(source: seq<Row>, target: seq<Row>, r: Range)
    requires DistinctKeys(source) && DistinctKeys(target) && Holds(source, target, r, false)
    ensures DistinctKeys(target + Inside(source, r)) && Holds(source, target + Inside(source, r), r, true)
  {
    var more := Inside(source, r);
    InsideDistinct(source, r);
    NoneInside(target, r);
    forall x: Row ensures Count(target + more, x) == Count(target, x) + if In(r, x.key) then Count(source, x) else 0 {
      InsideCount(source, r, x);
    }
  }

  lemma NoneInside(target: seq<Row>, r: Range)
    requires forall x: Row :: In(r, x.key) ==> Count(target, x) == 0
    ensures forall k :: 0 <= k < |target| ==> !In(r, target[k].key)
  {
    forall k | 0 <= k < |target| ensures !In(r, target[k].key) {
      assert Count(target, target[k]) > 0;
    }
  }

  // However the attempts overlap and wherever they die, once every batch has been started the target is
  // the source exactly when the last write of each batch with rows was a copy, be it one that failed.
  lemma OverlapExactly(source: seq<Row>, ranges: seq<Range>, target: seq<Row>, ws: seq<Write>)
    requires DistinctKeys(source) && DistinctKeys(target) && KeysInOne(source, ranges) && Replaceable(target, ranges)
    requires (forall w <- ws :: w.i < |ranges|) && forall i :: 0 <= i < |ranges| ==> Started(ws, i)
    ensures multiset(AfterAll(source, ranges, target, ws)) == multiset(source) <==>
      forall i :: 0 <= i < |ranges| && Inside(source, ranges[i]) != [] ==> EndsCopied(ws, i)
  {
    hide DistinctKeys, Inside, AfterAll, InOne, In;
    var end := AfterAll(source, ranges, target, ws);
    forall i | 0 <= i < |ranges| ensures Holds(source, end, ranges[i], EndsCopied(ws, i)) {
      HoldsAlong(source, ranges, target, ws, i);
    }
    if forall i :: 0 <= i < |ranges| && Inside(source, ranges[i]) != [] ==> EndsCopied(ws, i) {
      forall x: Row ensures Count(end, x) == Count(source, x) {
        RowArrives(source, ranges, target, ws, x);
      }
      assert forall x: Row :: multiset(end)[x] == Count(end, x) == Count(source, x) == multiset(source)[x];
    }
    forall i | 0 <= i < |ranges| && Inside(source, ranges[i]) != [] && !EndsCopied(ws, i)
      ensures multiset(end) != multiset(source)
    {
      var x := Inside(source, ranges[i])[0];
      InsideCount(source, ranges[i], x);
      assert Count(Inside(source, ranges[i]), x) > 0;
    }
  }

  lemma RowArrives(source: seq<Row>, ranges: seq<Range>, target: seq<Row>, ws: seq<Write>, x: Row)
    requires KeysInOne(source, ranges) && Replaceable(target, ranges) && forall w <- ws :: w.i < |ranges|
    requires var end := AfterAll(source, ranges, target, ws);
      forall i :: 0 <= i < |ranges| ==> Holds(source, end, ranges[i], EndsCopied(ws, i))
    requires forall i :: 0 <= i < |ranges| && Inside(source, ranges[i]) != [] ==> EndsCopied(ws, i)
    ensures Count(AfterAll(source, ranges, target, ws), x) == Count(source, x)
  {
    hide AfterAll, EndsCopied, InOne, Inside, Count;
    if i: nat :| i < |ranges| && In(ranges[i], x.key) {
      InsideCount(source, ranges[i], x);
      NoneCounted(Inside(source, ranges[i]), x);
    } else {
      StrayStaysOut(source, ranges, target, ws, x);
      InSource(source, ranges, x);
    }
  }

  lemma NoneCounted(rows: seq<Row>, x: Row)
    ensures rows == [] ==> Count(rows, x) == 0
    ensures Count(rows, x) > 0 <==> x in rows
  {}

  lemma InSource(source: seq<Row>, ranges: seq<Range>, x: Row)
    requires KeysInOne(source, ranges) && forall i :: 0 <= i < |ranges| ==> !In(ranges[i], x.key)
    ensures Count(source, x) == 0
  {
    if x in source {
      var i := TheOne(ranges, x.key);
    }
  }

  // A row outside every range neither was nor comes in.
  lemma {:induction false} StrayStaysOut(source: seq<Row>, ranges: seq<Range>, target: seq<Row>, ws: seq<Write>, x: Row)
    requires Replaceable(target, ranges) && forall i :: 0 <= i < |ranges| ==> !In(ranges[i], x.key)
    requires forall w <- ws :: w.i < |ranges|
    ensures Count(AfterAll(source, ranges, target, ws), x) == 0
  {
    if ws != [] {
      var n := |ws| - 1;
      StrayStaysOut(source, ranges, target, ws[..n], x);
      OutsideCount(AfterAll(source, ranges, target, ws[..n]), ranges[ws[n].i], x);
      InsideCount(source, ranges[ws[n].i], x);
    }
  }
}
