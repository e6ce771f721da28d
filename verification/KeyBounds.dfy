/** The bounds of a key range travel as JSON numbers, which are read back as 64-bit floats. */
module KeyBounds {
  import opened Partition

  const EXACT := 0x20_0000_0000_0000 // 2^53

  // The distance of the floats next to v: one while v has at most 53 bits.
  function Spacing(v: nat): (s: nat)
    ensures s > 0
  {
    if v < EXACT then 1 else 2 * Spacing(v / 2)
  }

  // The nearest multiple of s, the even one of two.
  function Nearest(v: nat, s: nat): int
    requires s > 0
  {
    var q, r := v / s, v % s;
    if 2 * r < s || (2 * r == s && q % 2 == 0) then q * s else (q + 1) * s
  }

  function RoundedNat(v: nat): int {
    Nearest(v, Spacing(v))
  }

  function Rounded(v: int): int {
    if v >= 0 then RoundedNat(v) else -RoundedNat(-v)
  }

  function RoundedRange(r: Range): Range {
    Range(Rounded(r.low), Rounded(r.high))
  }

  function RoundedRanges(ranges: seq<Range>): (rs: seq<Range>)
    ensures |rs| == |ranges| && forall i :: 0 <= i < |ranges| ==> rs[i] == RoundedRange(ranges[i])
  {
    seq(|ranges|, i requires 0 <= i < |ranges| => RoundedRange(ranges[i]))
  }

  /* ---- the spacing ---- */

  lemma {:induction false} SpacingBounds(v: nat)
    ensures v < EXACT * Spacing(v) && (Spacing(v) == 1 || EXACT / 2 * Spacing(v) <= v)
  {
    if v >= EXACT {
      SpacingBounds(v / 2);
    }
  }

  // A larger number has the same spacing or a multiple of it, at least twice as large.
  lemma {:induction false} SpacingGrows(a: nat, b: nat) returns (k: nat)
    requires a <= b
    ensures Spacing(b) == k * Spacing(a) && (k == 1 || k >= 2)
    decreases b
  {
    if a < EXACT {
      k := Spacing(b);
    } else {
      k := SpacingGrows(a / 2, b / 2);
    }
  }

  lemma SpacingEven(v: nat)
    requires v >= EXACT
    ensures Spacing(v) % 2 == 0
  {}

  /* ---- the nearest multiple ---- */

  lemma Times(a: int, b: int, s: nat)
    requires a <= b
    ensures a * s <= b * s
  {}

  lemma AtMost(a: int, b: int, s: nat)
    requires a * s < b * s
    ensures a < b
  {
    if b <= a {
      Times(b, a, s);
    }
  }

  lemma Divided(v: nat, s: nat)
    requires s > 0
    ensures v / s * s + v % s == v && 0 <= v % s < s
  {}

  // No multiple lies between a number and its nearest one.
  lemma NoneBetween(v: nat, s: nat, t: nat)
    requires s > 0
    ensures t * s <= v ==> t * s <= Nearest(v, s)
    ensures v <= t * s ==> Nearest(v, s) <= t * s
  {
    var q := v / s;
    Divided(v, s);
    assert (q + 1) * s == q * s + s;
    if t <= q {
      Times(t, q, s);
    } else {
      Times(q + 1, t, s);
    }
  }

  lemma NearestGrows(a: nat, b: nat, s: nat)
    requires s > 0 && a <= b
    ensures Nearest(a, s) <= Nearest(b, s)
  {
    var p, q := a / s, b / s;
    Divided(a, s);
    Divided(b, s);
    assert (p + 1) * s == p * s + s && (q + 1) * s == q * s + s;
    if p < q {
      Times(p + 1, q, s);
    } else {
      AtMost(p, q + 1, s);
      assert p == q;
    }
  }

  lemma NearestMultiple(v: nat, s: nat) returns (m: nat)
    requires s > 0
    ensures Nearest(v, s) == m * s && v - s < m * s < v + s
  {
    Divided(v, s);
    m := if 2 * (v % s) < s || (2 * (v % s) == s && v / s % 2 == 0) then v / s else v / s + 1;
    assert (v / s + 1) * s == v / s * s + s;
  }

  lemma MultipleStays(m: nat, s: nat)
    requires s > 0
    ensures Nearest(m * s, s) == m * s
  {
    NoneBetween(m * s, s, m);
  }

  /* ---- rounding ---- */

  lemma NatGrows(a: nat, b: nat)
    requires a <= b
    ensures RoundedNat(a) <= RoundedNat(b)
  {
    hide Spacing, Nearest;
    var s, t := Spacing(a), Spacing(b);
    var k := SpacingGrows(a, b);
    if k == 1 {
      NearestGrows(a, b, s);
    } else {
      SpacingBounds(a);
      SpacingBounds(b);
      NoneBetween(a, s, EXACT);
      NoneBetween(b, t, EXACT / 2);
      Times(2, k, s);
    }
  }

  // What is read back is a float.
  lemma NatStays(v: nat)
    ensures RoundedNat(v) >= 0 && RoundedNat(RoundedNat(v)) == RoundedNat(v)
  {
    hide Spacing, Nearest;
    var s := Spacing(v);
    var m := NearestMultiple(v, s);
    var x := m * s;
    var t := Spacing(x);
    if x <= v {
      var k := SpacingGrows(x, v);
      assert x == (m * k) * t;
      MultipleStays(m * k, t);
    } else {
      var k := SpacingGrows(v, x);
      if k == 1 {
        MultipleStays(m, s);
      } else {
        SpacingBounds(v);
        SpacingBounds(x);
        NoneBetween(v, s, EXACT);
        Times(2, k, s);
        assert x == EXACT / 2 * t;
        MultipleStays(EXACT / 2, t);
      }
    }
  }

  lemma Monotone(a: int, b: int)
    requires a <= b
    ensures Rounded(a) <= Rounded(b)
  {
    hide RoundedNat;
    if a >= 0 {
      NatGrows(a, b);
    } else if b < 0 {
      NatGrows(-b, -a);
    } else {
      NatStays(-a);
      NatStays(b);
    }
  }

  lemma Stays(v: int)
    ensures Rounded(Rounded(v)) == Rounded(v)
  {
    hide RoundedNat;
    NatStays(if v >= 0 then v else -v);
  }

  // Every integer of at most 53 bits is a float.
  lemma SmallExact(v: int)
    requires -EXACT <= v <= EXACT
    ensures Rounded(v) == v
  {
    if v == EXACT || v == -EXACT {
      assert Spacing(EXACT) == 2 * Spacing(EXACT / 2) == 2;
    }
  }

  predicate Small(v: int) {
    -EXACT <= v <= EXACT
  }

  // No other is followed by one.
  lemma Neighbours(v: int)
    ensures Rounded(v) == v && Rounded(v + 1) == v + 1 <==> Small(v) && Small(v + 1)
  {
    hide RoundedNat;
    if Small(v) && Small(v + 1) {
      SmallExact(v);
      SmallExact(v + 1);
    } else if v >= EXACT {
      EvenAbove(v);
      EvenAbove(v + 1);
    } else {
      EvenAbove(-v);
      EvenAbove(-v - 1);
    }
  }

  lemma EvenAbove(v: nat)
    requires EXACT <= v
    ensures RoundedNat(v) % 2 == 0
  {
    hide Spacing, Nearest;
    SpacingEven(v);
    var m := NearestMultiple(v, Spacing(v));
    EvenTimes(m, Spacing(v) / 2);
  }

  lemma EvenTimes(m: nat, s: nat)
    ensures m * (2 * s) % 2 == 0
  {
    assert m * (2 * s) == 2 * (m * s);
  }

  predicate In(r: Range, v: int) {
    r.low <= v <= r.high
  }

  ghost predicate InOne(ranges: seq<Range>, v: int) {
    exists i :: 0 <= i < |ranges| && In(ranges[i], v) && forall j :: 0 <= j < |ranges| && In(ranges[j], v) ==> j == i
  }

  // Every key of the table, were none missing between min and max, is copied by one batch.
  ghost predicate AllInOne(ranges: seq<Range>, min: int, max: int) {
    forall v :: min <= v <= max ==> InOne(ranges, v)
  }

  // Two neighbours across a boundary are told apart, or read back as one float beyond all keys.
  predicate BoundaryHolds(h: int, min: int, max: int) {
    (Small(h) && Small(h + 1)) || (Rounded(h) == Rounded(h + 1) && !(min <= Rounded(h) <= max))
  }

  ghost predicate BoundsHold(ranges: seq<Range>, min: int, max: int) {
    && Rounded(min) <= min && max <= Rounded(max)
    && forall i :: 0 <= i < |ranges| - 1 ==> BoundaryHolds(ranges[i].high, min, max)
  }

  lemma {:induction false} TilesWithin(ranges: seq<Range>, min: int, max: int, size: int, i: nat)
    requires Tiles(ranges, min, max, size) && i < |ranges|
    ensures min <= ranges[i].low <= ranges[i].high <= max
  {
    if i > 0 {
      TilesApart(ranges, min, max, size, 0, i);
    }
    if i < |ranges| - 1 {
      TilesApart(ranges, min, max, size, i, |ranges| - 1);
    }
  }

  // Each key is on one side of a boundary.
  lemma OneSide(h: int, min: int, max: int, v: int)
    requires BoundaryHolds(h, min, max) && min <= v <= max
    ensures v <= Rounded(h) <==> v < Rounded(h + 1)
  {
    Neighbours(h);
  }

  // Boundaries stay in order.
  lemma SidesGrow(ranges: seq<Range>, min: int, max: int, size: int, i: nat, j: nat)
    requires Tiles(ranges, min, max, size) && i <= j < |ranges|
    ensures Rounded(ranges[i].high) <= Rounded(ranges[j].high)
    ensures i < j ==> ranges[i + 1].low == ranges[i].high + 1
  {
    if i < j {
      TilesApart(ranges, min, max, size, i, j);
      assert Follows(ranges, i + 1);
    }
    Monotone(ranges[i].high, ranges[j].high);
  }

  // A key that is after the first i boundaries has its one range.
  lemma {:induction false} HeldOnce(ranges: seq<Range>, min: int, max: int, size: int, v: int, i: nat)
    requires Tiles(ranges, min, max, size) && BoundsHold(ranges, min, max) && min <= v <= max && i < |ranges|
    requires forall j :: 0 <= j < i ==> Rounded(ranges[j].high) < v
    ensures InOne(RoundedRanges(ranges), v)
    decreases |ranges| - i
  {
    hide Rounded, BoundaryHolds;
    var rs := RoundedRanges(ranges);
    if i < |ranges| - 1 && Rounded(ranges[i].high) < v {
      HeldOnce(ranges, min, max, size, v, i + 1);
    } else {
      if i > 0 {
        OneSide(ranges[i - 1].high, min, max, v);
        SidesGrow(ranges, min, max, size, i - 1, i);
      }
      assert In(rs[i], v);
      forall j | i < j < |ranges| ensures !In(rs[j], v) {
        SidesGrow(ranges, min, max, size, i, j - 1);
        OneSide(ranges[j - 1].high, min, max, v);
        SidesGrow(ranges, min, max, size, j - 1, j);
      }
      OneIs(rs, v, i);
    }
  }

  // Two neighbours read back as one key are both copied twice; two that are told apart, but not by
  // themselves, leave a key out.
  lemma BoundaryBreaks(ranges: seq<Range>, min: int, max: int, size: int, i: nat) returns (v: int)
    requires Tiles(ranges, min, max, size) && i < |ranges| - 1 && !BoundaryHolds(ranges[i].high, min, max)
    ensures min <= v <= max && !InOne(RoundedRanges(ranges), v)
  {
    hide Rounded;
    var rs, h := RoundedRanges(ranges), ranges[i].high;
    TilesWithin(ranges, min, max, size, i);
    TilesWithin(ranges, min, max, size, i + 1);
    assert Follows(ranges, i + 1);
    Monotone(h, h + 1);
    if Rounded(h) < Rounded(h + 1) {
      v := Between(h);
      forall j | 0 <= j < |rs| ensures !In(rs[j], v) {
        OutOfReach(ranges, min, max, size, i, j);
      }
    } else {
      v := Rounded(h);
      Monotone(ranges[i].low, h);
      Monotone(h + 1, ranges[i + 1].high);
      assert In(rs[i], v) && In(rs[i + 1], v);
    }
  }

  // There is no float between those of two neighbours.
  lemma Between(h: int) returns (v: int)
    requires Rounded(h) < Rounded(h + 1) && !(Small(h) && Small(h + 1))
    ensures h <= v <= h + 1 && Rounded(h) < v < Rounded(h + 1)
  {
    hide Rounded;
    Neighbours(h);
    Stays(h);
    Stays(h + 1);
    if h + 1 <= Rounded(h) {
      Monotone(h + 1, Rounded(h));
    }
    if Rounded(h + 1) <= h {
      Monotone(Rounded(h + 1), h);
    }
    v := if Rounded(h) < h then h else h + 1;
  }

  // Range j ends before the gap after range i, or starts after it.
  lemma OutOfReach(ranges: seq<Range>, min: int, max: int, size: int, i: nat, j: nat)
    requires Tiles(ranges, min, max, size) && i < |ranges| - 1 && j < |ranges|
    ensures Rounded(ranges[j].high) <= Rounded(ranges[i].high) || Rounded(ranges[i + 1].low) <= Rounded(ranges[j].low)
  {
    hide Rounded;
    if j < i {
      TilesApart(ranges, min, max, size, j, i);
      TilesWithin(ranges, min, max, size, i);
      Monotone(ranges[j].high, ranges[i].high);
    } else if j > i + 1 {
      TilesApart(ranges, min, max, size, i + 1, j);
      TilesWithin(ranges, min, max, size, i + 1);
      Monotone(ranges[i + 1].low, ranges[j].low);
    }
  }

  lemma FirstLost(ranges: seq<Range>, min: int, max: int, size: int)
    requires Tiles(ranges, min, max, size) && min <= max && Rounded(min) > min
    ensures !InOne(RoundedRanges(ranges), min)
  {
    hide Rounded;
    forall j | 0 <= j < |ranges| ensures !In(RoundedRange(ranges[j]), min) {
      TilesWithin(ranges, min, max, size, j);
      Monotone(min, ranges[j].low);
    }
  }

  lemma LastLost(ranges: seq<Range>, min: int, max: int, size: int)
    requires Tiles(ranges, min, max, size) && min <= max && Rounded(max) < max
    ensures !InOne(RoundedRanges(ranges), max)
  {
    hide Rounded;
    forall j | 0 <= j < |ranges| ensures !In(RoundedRange(ranges[j]), max) {
      TilesWithin(ranges, min, max, size, j);
      Monotone(ranges[j].high, max);
    }
  }

  // The ranges read back cover every key once exactly when neither outer bound rounds inward and each
  // inner boundary is between keys of 53 bits, or reads back as one float beyond all keys.
  lemma RoundingExactly(ranges: seq<Range>, min: int, max: int, size: int)
    requires Tiles(ranges, min, max, size)
    ensures AllInOne(RoundedRanges(ranges), min, max) <==> BoundsHold(ranges, min, max)
  {
    hide Rounded, InOne, BoundaryHolds;
    TilesWithin(ranges, min, max, size, 0);
    if BoundsHold(ranges, min, max) {
      forall v | min <= v <= max ensures InOne(RoundedRanges(ranges), v) {
        HeldOnce(ranges, min, max, size, v, 0);
      }
    } else if Rounded(min) > min {
      FirstLost(ranges, min, max, size);
    } else if Rounded(max) < max {
      LastLost(ranges, min, max, size);
    } else {
      var i :| 0 <= i < |ranges| - 1 && !BoundaryHolds(ranges[i].high, min, max);
      var v := BoundaryBreaks(ranges, min, max, size, i);
    }
  }

  lemma OneIs(ranges: seq<Range>, v: int, i: nat)
    requires i < |ranges| && In(ranges[i], v) && forall j :: 0 <= j < |ranges| && In(ranges[j], v) ==> j == i
    ensures InOne(ranges, v)
  {}

  // A table of one row keeps it exactly when its key is a float.
  lemma OneRowExactly(v: int)
    ensures InOne(RoundedRanges([Range(v, v)]), v) <==> Rounded(v) == v
  {
    if Rounded(v) == v {
      OneIs(RoundedRanges([Range(v, v)]), v, 0);
    }
  }

  lemma OddKeyLost()
    ensures Rounded(EXACT + 1) == EXACT
  {
    assert Spacing(EXACT + 1) == 2 * Spacing((EXACT + 1) / 2) == 2;
  }
}
