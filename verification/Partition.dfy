/** How a table is split into batches: key ranges in 64-bit arithmetic, or offsets. */
module Partition {
  const MAX_INT64 := 0x7FFF_FFFF_FFFF_FFFF
  const MIN_INT64 := -0x8000_0000_0000_0000

  predicate IsInt64(x: int) {
    MIN_INT64 <= x <= MAX_INT64
  }

  // Addition of 64-bit integers wraps around.
  function Wrap(x: int): (r: int)
    ensures IsInt64(r)
    ensures IsInt64(x) ==> r == x
  {
    (x - MIN_INT64) % 0x1_0000_0000_0000_0000 + MIN_INT64
  }

  // What is lost is a multiple of two to the 64.
  lemma WrapLoses(x: int)
    ensures exists k :: Wrapped(x, k)
  {
    assert Wrapped(x, (x - MIN_INT64) / 0x1_0000_0000_0000_0000);
  }

  predicate Wrapped(x: int, k: int) {
    x == Wrap(x) + k * 0x1_0000_0000_0000_0000
  }

  datatype Range = Range(low: int, high: int)

  datatype Kind = ByKey | ByOffset

  // rowCount is 0 for a key range, whose rows are not counted.
  datatype Part = Part(number: nat, range: Range, rowCount: int)

  /* ---- key ranges ---- */

  function HighOf(low: int, max: int, size: int): int {
    var high := Wrap(low + size - 1);
    if high > max then max else high
  }

  // Where the loop is after n rounds, if it gets that far.
  function LowAfter(min: int, max: int, size: int, n: nat): int {
    if n == 0 then min else Wrap(HighOf(LowAfter(min, max, size, n - 1), max, size) + 1)
  }

  function KeyRange(min: int, max: int, size: int, n: nat): Range {
    Range(LowAfter(min, max, size, n), HighOf(LowAfter(min, max, size, n), max, size))
  }

  function Rounds(min: int, max: int, size: int): nat
    requires size > 0
  {
    if min > max then 0 else (max - min) / size + 1
  }

  // The last range, and the step after it, stay within 64 bits.
  predicate NoWrap(min: int, max: int, size: int)
    requires size > 0
  {
    max < MAX_INT64 && (min <= max ==> min + (max - min) / size * size + size - 1 <= MAX_INT64)
  }

  // Contiguous, non-empty ranges of at most size keys, from min to max.
  ghost predicate Tiles(ranges: seq<Range>, min: int, max: int, size: int) {
    && ranges != [] && ranges[0].low == min && ranges[|ranges| - 1].high == max
    && (forall i :: 0 <= i < |ranges| ==> ranges[i].low <= ranges[i].high < ranges[i].low + size)
    && (forall i :: 0 < i < |ranges| ==> Follows(ranges, i))
  }

  predicate Follows(ranges: seq<Range>, i: nat) {
    0 < i < |ranges| && ranges[i].low == ranges[i - 1].high + 1
  }

  function KeyRanges(min: int, max: int, size: int, n: nat): (r: seq<Range>)
    ensures |r| == n && forall i :: 0 <= i < n ==> r[i] == KeyRange(min, max, size, i)
  {
    seq(n, i requires 0 <= i < n => KeyRange(min, max, size, i))
  }

  lemma DivBounds(x: int, size: int)
    requires size > 0
    ensures x / size * size <= x < x / size * size + size
  {}

  lemma {:induction false} MulMono(a: int, b: int, size: int)
    requires a <= b && size > 0
    ensures a * size <= b * size
  {}

  // As long as nothing wraps, round n starts n sizes above the first key.
  lemma {:induction false} LowsStep(min: int, max: int, size: int, n: nat)
    requires IsInt64(min) && IsInt64(max) && size > 0 && min <= max && n <= (max - min) / size
    ensures LowAfter(min, max, size, n) == min + n * size <= max
  {
    DivBounds(max - min, size);
    MulMono(n, (max - min) / size, size);
    if n > 0 {
      LowsStep(min, max, size, n - 1);
      assert min + n * size == min + (n - 1) * size + size;
    }
  }

  lemma LastRange(min: int, max: int, size: int)
    requires IsInt64(min) && IsInt64(max) && size > 0 && min <= max
    ensures var k := (max - min) / size; var low := min + k * size;
      LowAfter(min, max, size, k) == low && low <= max < low + size &&
      (low + size - 1 <= MAX_INT64 ==>
        KeyRange(min, max, size, k) == Range(low, max) && LowAfter(min, max, size, k + 1) == Wrap(max + 1))
  {
    DivBounds(max - min, size);
    LowsStep(min, max, size, (max - min) / size);
  }

  // The round after round i starts where round i ends.
  lemma InnerRange(min: int, max: int, size: int, i: nat)
    requires IsInt64(min) && IsInt64(max) && size > 0 && min <= max && i < (max - min) / size
    ensures KeyRange(min, max, size, i) == Range(min + i * size, min + i * size + size - 1)
    ensures LowAfter(min, max, size, i + 1) == min + i * size + size
  {
    LowsStep(min, max, size, i);
    LowsStep(min, max, size, i + 1);
    OneMore(i, size);
    var low := LowAfter(min, max, size, i);
    hide LowAfter, Wrap;
    assert IsInt64(low + size - 1);
  }

  lemma OneMore(i: int, size: int)
    ensures (i + 1) * size == i * size + size
  {}

  lemma InnerTile(min: int, max: int, size: int, i: nat)
    requires IsInt64(min) && IsInt64(max) && size > 0 && min <= max && i + 1 < Rounds(min, max, size)
    ensures var r := KeyRange(min, max, size, i);
      r.low <= r.high == r.low + size - 1 && KeyRange(min, max, size, i + 1).low == r.high + 1
  {
    InnerRange(min, max, size, i);
    hide LowAfter, HighOf;
  }

  lemma LastTile(min: int, max: int, size: int)
    requires IsInt64(min) && IsInt64(max) && size > 0 && min <= max && NoWrap(min, max, size)
    ensures var n := Rounds(min, max, size); var r := KeyRange(min, max, size, n - 1);
      r.low <= r.high == max < r.low + size && LowAfter(min, max, size, n) == max + 1
  {
    LastRange(min, max, size);
    hide LowAfter, HighOf, Wrap;
  }

  lemma FirstTile(min: int, max: int, size: int)
    requires size > 0 && min <= max
    ensures Rounds(min, max, size) > 0 && KeyRange(min, max, size, 0).low == min
  {
    DivBounds(max - min, size);
  }

  lemma TilesIf(min: int, max: int, size: int)
    requires IsInt64(min) && IsInt64(max) && IsInt64(size) && size > 0 && min <= max && NoWrap(min, max, size)
    ensures Tiles(KeyRanges(min, max, size, Rounds(min, max, size)), min, max, size)
    ensures LowAfter(min, max, size, Rounds(min, max, size)) > max
  {
    hide LowAfter, HighOf, Wrap, NoWrap, Rounds, KeyRange, IsInt64;
    var n := Rounds(min, max, size);
    FirstTile(min, max, size);
    var ranges := KeyRanges(min, max, size, n);
    LastTile(min, max, size);
    forall i | 0 <= i < n - 1 ensures ranges[i].low <= ranges[i].high == ranges[i].low + size - 1 {
      InnerTile(min, max, size, i);
    }
    forall i | 0 < i < |ranges| ensures Follows(ranges, i) {
      InnerTile(min, max, size, i - 1);
    }
  }

  // The first rounds, as many as a partition needs, tile the keys and end the loop exactly when
  // neither the last range nor the step after it leaves 64 bits.
  lemma TilesExactly(min: int, max: int, size: int)
    requires IsInt64(min) && IsInt64(max) && IsInt64(size) && size > 0 && min <= max
    ensures Tiles(KeyRanges(min, max, size, Rounds(min, max, size)), min, max, size) &&
            LowAfter(min, max, size, Rounds(min, max, size)) > max
            <==> NoWrap(min, max, size)
    ensures forall n :: 0 <= n < Rounds(min, max, size) ==> LowAfter(min, max, size, n) <= max
  {
    hide LowAfter, Wrap;
    forall n: nat | n < Rounds(min, max, size) ensures LowAfter(min, max, size, n) <= max {
      LowsStep(min, max, size, n);
    }
    if NoWrap(min, max, size) {
      TilesIf(min, max, size);
    } else if max < MAX_INT64 {
      WrappedRange(min, max, size);
    } else {
      AtTheTop(min, max, size);
    }
  }

  lemma AtTheTop(min: int, max: int, size: int)
    requires IsInt64(min) && max == MAX_INT64 && size > 0
    ensures LowAfter(min, max, size, Rounds(min, max, size)) <= max
  {}

  // A wrapped last range is empty: it ends below where it starts.
  lemma WrappedRange(min: int, max: int, size: int)
    requires IsInt64(min) && IsInt64(max) && IsInt64(size) && size > 0 && min <= max < MAX_INT64
    requires !NoWrap(min, max, size)
    ensures var r := KeyRange(min, max, size, (max - min) / size); r.high < r.low
  {
    LastRange(min, max, size);
  }

  // Every key from min to max is in one range only.
  lemma TileOf(ranges: seq<Range>, min: int, max: int, size: int, v: int) returns (i: nat)
    requires Tiles(ranges, min, max, size) && min <= v <= max
    ensures i < |ranges| && ranges[i].low <= v <= ranges[i].high
    ensures forall j :: 0 <= j < |ranges| && ranges[j].low <= v <= ranges[j].high ==> j == i
  {
    i := 0;
    while ranges[i].high < v
      invariant i < |ranges| && ranges[i].low <= v
    {
      assert i + 1 < |ranges| ==> Follows(ranges, i + 1);
      i := i + 1;
    }
    forall j | 0 <= j < |ranges| && ranges[j].low <= v <= ranges[j].high ensures j == i {
      if j < i {
        TilesApart(ranges, min, max, size, j, i);
      } else if i < j {
        TilesApart(ranges, min, max, size, i, j);
      }
    }
  }

  lemma {:induction false} TilesApart(ranges: seq<Range>, min: int, max: int, size: int, i: nat, j: nat)
    requires Tiles(ranges, min, max, size) && i < j < |ranges|
    ensures ranges[i].high < ranges[j].low
    decreases j
  {
    assert Follows(ranges, j);
    if i < j - 1 {
      TilesApart(ranges, min, max, size, i, j - 1);
    }
  }

  lemma HighIs(low: int, max: int, size: int)
    ensures HighOf(low, max, size) == if Wrap(low + size - 1) > max then max else Wrap(low + size - 1)
  {}

  // The loop, for at most limit rounds: it is over at the first round whose key is beyond the last one.
  // When nothing wraps, that is after as many rounds as the keys need.
  method NumericRanges(min: int, max: int, size: int, limit: nat) returns (ended: bool, parts: seq<Part>)
    requires IsInt64(min) && IsInt64(max) && IsInt64(size) && size > 0
    ensures ended <==> LowAfter(min, max, size, |parts|) > max
    ensures |parts| <= limit && (!ended ==> |parts| == limit)
    ensures forall i :: 0 <= i < |parts| ==> parts[i] == Part(i, KeyRange(min, max, size, i), 0)
    ensures forall i :: 0 <= i < |parts| ==> parts[i].number == i
    ensures forall i :: 0 <= i < |parts| ==> LowAfter(min, max, size, i) <= max
    ensures NoWrap(min, max, size) && limit >= Rounds(min, max, size) ==> ended && |parts| == Rounds(min, max, size)
  {
    hide Wrap, NoWrap, HighOf, LowAfter;
    parts := [];
    var low, number := min, 0;
    StartsAt(min, max, size);
    while low <= max && number < limit
      invariant number == |parts| <= limit && low == LowAfter(min, max, size, number)
      invariant forall i :: 0 <= i < |parts| ==> parts[i] == Part(i, KeyRange(min, max, size, i), 0)
      invariant forall i :: 0 <= i < |parts| ==> LowAfter(min, max, size, i) <= max
      decreases limit - number
    {
      var high := Wrap(low + size - 1);
      if high > max {
        high := max;
      }
      assert high == HighOf(low, max, size) by {
        HighIs(low, max, size);
      }
      StepsTo(min, max, size, number);
      parts := parts + [Part(number, Range(low, high), 0)];
      number := number + 1;
      low := Wrap(high + 1);
    }
    ended := low > max;
    if NoWrap(min, max, size) && limit >= Rounds(min, max, size) {
      EndsAt(min, max, size, number);
    }
  }

  lemma StartsAt(min: int, max: int, size: int)
    ensures LowAfter(min, max, size, 0) == min
  {}

  lemma StepsTo(min: int, max: int, size: int, n: nat)
    ensures LowAfter(min, max, size, n + 1) == Wrap(HighOf(LowAfter(min, max, size, n), max, size) + 1)
  {}

  // A loop that went through n rounds and no further went through all of them.
  lemma EndsAt(min: int, max: int, size: int, n: nat)
    requires IsInt64(min) && IsInt64(max) && IsInt64(size) && size > 0 && NoWrap(min, max, size)
    requires forall i :: 0 <= i < n ==> LowAfter(min, max, size, i) <= max
    requires LowAfter(min, max, size, n) > max || n >= Rounds(min, max, size)
    ensures n == Rounds(min, max, size) && LowAfter(min, max, size, n) > max
  {
    hide LowAfter, NoWrap;
    var rounds := Rounds(min, max, size);
    assert n > rounds ==> LowAfter(min, max, size, rounds) <= max;
    StartsAt(min, max, size);
    if min <= max {
      TilesIf(min, max, size);
      TilesExactly(min, max, size);
    }
  }

  // When the last key is the last integer of 64 bits, no number of rounds ends the loop.
  lemma NeverEnds(min: int, max: int, size: int, n: nat)
    requires IsInt64(min) && max == MAX_INT64 && size > 0
    ensures LowAfter(min, max, size, n) <= max
  {}

  /* ---- offsets ---- */

  // Go divides toward zero.
  function Quotient(a: int, b: int): int
    requires b > 0
  {
    if a >= 0 then a / b else -(-a / b)
  }

  function OffsetParts(total: int, size: int): int
    requires size > 0
  {
    Quotient(Wrap(total + size - 1), size)
  }

  // The rows from range.low on, range.high of them.
  function OffsetPart(total: int, size: int, i: nat): Part {
    var off := i * size;
    var lim := if Wrap(off + size) > total then total - off else size;
    Part(i, Range(off, lim), lim)
  }

  method OffsetRanges(total: int, size: int) returns (parts: seq<Part>)
    requires IsInt64(total) && total > 0 && IsInt64(size) && size > 0
    ensures |parts| == if OffsetParts(total, size) < 0 then 0 else OffsetParts(total, size)
    ensures forall i :: 0 <= i < |parts| ==> parts[i] == OffsetPart(total, size, i)
    ensures forall i :: 0 <= i < |parts| ==> parts[i].number == i
  {
    parts := [];
    var n, i := Quotient(Wrap(total + size - 1), size), 0;
    while i < n
      invariant 0 <= i && (i <= n || n < 0) && (n < 0 ==> i == 0) && i == |parts|
      invariant forall k :: 0 <= k < i ==> parts[k] == OffsetPart(total, size, k)
    {
      var off := i * size;
      var lim := size;
      if Wrap(off + lim) > total {
        lim := total - off;
      }
      parts := parts + [Part(i, Range(off, lim), lim)];
      i := i + 1;
    }
  }

  function Counted(parts: seq<Part>): int {
    if parts == [] then 0 else Counted(parts[..|parts| - 1]) + parts[|parts| - 1].rowCount
  }

  // Row k falls in the part: offset parts follow each other from row 0.
  ghost predicate OffsetTiles(parts: seq<Part>, total: int, size: int) {
    && parts != [] && parts[0].range.low == 0
    && (forall i :: 0 <= i < |parts| ==> 0 < parts[i].range.high <= size && parts[i].rowCount == parts[i].range.high)
    && (forall i :: 0 < i < |parts| ==> parts[i].range.low == parts[i - 1].range.low + parts[i - 1].range.high)
    && parts[|parts| - 1].range.low + parts[|parts| - 1].range.high == total
  }

  lemma {:induction false} CountedTiles(parts: seq<Part>, total: int, size: int)
    requires OffsetTiles(parts, total, size)
    ensures Counted(parts) == total
  {
    if |parts| > 1 {
      var before := parts[..|parts| - 1];
      CountedTiles(before, parts[|parts| - 1].range.low, size);
    } else {
      assert parts[..0] == [];
    }
  }

  ghost predicate AllOffsetParts(parts: seq<Part>, total: int, size: int)
    requires size > 0
  {
    && |parts| == (if OffsetParts(total, size) < 0 then 0 else OffsetParts(total, size))
    && forall i :: 0 <= i < |parts| ==> parts[i] == OffsetPart(total, size, i)
  }

  // The offsets tile the rows, and their counts add up, exactly when rounding the count up to whole
  // batches does not overflow; when it does, there is no batch at all.
  lemma OffsetsExactly(parts: seq<Part>, total: int, size: int)
    requires IsInt64(total) && total > 0 && IsInt64(size) && size > 0 && AllOffsetParts(parts, total, size)
    ensures OffsetTiles(parts, total, size) <==> total + size - 1 <= MAX_INT64
    ensures total + size - 1 <= MAX_INT64 ==> Counted(parts) == total
    ensures total + size - 1 > MAX_INT64 ==> parts == []
  {
    if total + size - 1 <= MAX_INT64 {
      OffsetsTile(parts, total, size);
      CountedTiles(parts, total, size);
    } else {
      assert Wrap(total + size - 1) < 0;
      assert OffsetParts(total, size) <= 0;
    }
  }

  lemma OffsetIs(total: int, size: int, i: nat)
    requires IsInt64(total) && total > 0 && size > 0 && total + size - 1 <= MAX_INT64 && i < (total + size - 1) / size
    ensures i * size < total && OffsetPart(total, size, i).range.low == i * size
    ensures OffsetPart(total, size, i).rowCount == OffsetPart(total, size, i).range.high
    ensures OffsetPart(total, size, i).range.high == if i * size + size > total then total - i * size else size
  {
    hide Wrap;
    DivBounds(total + size - 1, size);
    MulMono(i + 1, (total + size - 1) / size, size);
    OneMore(i, size);
  }

  lemma OffsetsTile(parts: seq<Part>, total: int, size: int)
    requires IsInt64(total) && total > 0 && IsInt64(size) && size > 0 && AllOffsetParts(parts, total, size)
    requires total + size - 1 <= MAX_INT64
    ensures OffsetTiles(parts, total, size)
  {
    hide Wrap, OffsetPart;
    var n := (total + size - 1) / size;
    assert n == OffsetParts(total, size);
    DivBounds(total + size - 1, size);
    forall i | 0 <= i < n
      ensures i * size < total && parts[i].range.low == i * size && parts[i].rowCount == parts[i].range.high
      ensures parts[i].range.high == if i * size + size > total then total - i * size else size
    {
      OffsetIs(total, size, i);
    }
    forall i | 0 < i < n ensures parts[i].range.low == parts[i - 1].range.low + parts[i - 1].range.high {
      OneMore(i - 1, size);
    }
    OneMore(n - 1, size);
  }

  /* ---- the plan ---- */

  // numericKey: the primary key is one numeric column, from min to max. limit: rounds of the key loop.
  method BuildPlan(total: int, numericKey: bool, min: int, max: int, batchSize: int, limit: nat)
    returns (ended: bool, kind: Kind, parts: seq<Part>)
    requires IsInt64(total) && total >= 0 && IsInt64(min) && IsInt64(max) && IsInt64(batchSize)
    ensures kind == (if total == 0 || numericKey then ByKey else ByOffset)
    ensures total == 0 ==> ended && parts == []
    ensures forall i :: 0 <= i < |parts| ==> parts[i].number == i
    ensures var size := if batchSize <= 0 then 10000 else batchSize;
      total > 0 && numericKey ==>
        && (ended <==> LowAfter(min, max, size, |parts|) > max)
        && (forall i :: 0 <= i < |parts| ==> parts[i] == Part(i, KeyRange(min, max, size, i), 0))
        && (NoWrap(min, max, size) && limit >= Rounds(min, max, size) ==> ended && |parts| == Rounds(min, max, size))
    ensures var size := if batchSize <= 0 then 10000 else batchSize;
      total > 0 && !numericKey ==> ended && AllOffsetParts(parts, total, size)
  {
    var size := if batchSize <= 0 then 10000 else batchSize;
    if total == 0 {
      return true, ByKey, [];
    }
    if numericKey {
      kind := ByKey;
      ended, parts := NumericRanges(min, max, size, limit);
    } else {
      ended, kind := true, ByOffset;
      parts := OffsetRanges(total, size);
    }
  }
}
