/** What reading a key bound back as a 64-bit float does, said of the floats themselves. */
module FloatRounding {
  import opened KeyBounds

  function TwoTo(e: nat): (r: nat)
    ensures r > 0
  {
    if e == 0 then 1 else 2 * TwoTo(e - 1)
  }

  // x is m times two to the e, with a significand of at most 53 bits.
  predicate HasForm(x: int, m: int, e: nat) {
    -EXACT <= m <= EXACT && x == m * TwoTo(e)
  }

  // The integers that are floats, exponents apart.
  ghost predicate IsFloat(x: int) {
    exists m, e :: HasForm(x, m, e)
  }

  function Distance(a: int, b: int): nat {
    if a < b then b - a else a - b
  }

  lemma {:induction false} SpacingIsPower(v: nat) returns (k: nat)
    ensures Spacing(v) == TwoTo(k)
  {
    if v < EXACT {
      k := 0;
    } else {
      k := SpacingIsPower(v / 2);
      k := k + 1;
    }
  }

  lemma {:induction false} Splits(e: nat, k: nat)
    requires k <= e
    ensures TwoTo(e) == TwoTo(e - k) * TwoTo(k)
  {
    if k < e {
      Splits(e - 1, k);
      assert TwoTo(e) == 2 * (TwoTo(e - 1 - k) * TwoTo(k));
    }
  }

  // Powers of two in order: one that is less than another is at most its half.
  lemma Halves(e: nat, k: nat)
    requires e < k
    ensures 2 * TwoTo(e) <= TwoTo(k)
  {
    Splits(k, e + 1);
    Times(1, TwoTo(k - e - 1), TwoTo(e + 1));
  }

  lemma SmallForm(m: int, e: nat, k: nat)
    requires e < k && m <= EXACT
    ensures m * TwoTo(e) <= EXACT / 2 * TwoTo(k)
  {
    Halves(e, k);
    Times(m, EXACT, TwoTo(e));
    assert EXACT * TwoTo(e) == EXACT / 2 * (2 * TwoTo(e));
  }

  // A float from the smallest number of the spacing on is a multiple of the spacing.
  lemma FloatIsMultiple(x: nat, v: nat) returns (n: nat)
    requires IsFloat(x) && EXACT / 2 * Spacing(v) < x
    ensures x == n * Spacing(v)
  {
    hide Spacing, TwoTo;
    var m, e :| HasForm(x, m, e);
    var k := SpacingIsPower(v);
    if e < k {
      SmallForm(m, e, k);
      assert false;
    } else {
      Splits(e, k);
      AtMost(0, m, TwoTo(e));
      n := m * TwoTo(e - k);
      Regrouped(m, TwoTo(e - k), TwoTo(k));
    }
  }

  lemma Regrouped(a: int, b: int, c: int)
    ensures a * (b * c) == (a * b) * c
  {}

  // No float lies between a number and the multiples of its spacing on either side.
  lemma NoFloatBetween(v: nat, f: int)
    requires IsFloat(f)
    ensures var s := Spacing(v); f <= v / s * s || f >= (v / s + 1) * s
  {
    hide Spacing, IsFloat;
    var s, q := Spacing(v), v / Spacing(v);
    SpacingBounds(v);
    Divided(v, s);
    assert (q + 1) * s == q * s + s;
    if s > 1 && q * s < f {
      AtMost(EXACT / 2, q + 1, s);
      Times(EXACT / 2, q, s);
      var n := FloatIsMultiple(f, v);
      AtMost(q, n, s);
      Times(q + 1, n, s);
    }
  }

  lemma NatIsFloat(v: nat)
    ensures IsFloat(RoundedNat(v))
  {
    hide Spacing, Nearest, TwoTo;
    var s := Spacing(v);
    var k := SpacingIsPower(v);
    var m := NearestMultiple(v, s);
    SpacingBounds(v);
    NoneBetween(v, s, EXACT);
    NoneBetween(v, s, 0);
    AtMost(-1, m, s);
    AtMost(m, EXACT + 1, s);
    assert HasForm(RoundedNat(v), m, k);
  }

  predicate IsTimes(x: int, n: int, d: int) {
    x == n * d
  }

  // An even multiple of the spacing: a float whose last bit is zero.
  ghost predicate LastBitZero(x: int, spacing: nat) {
    exists n :: IsTimes(x, n, 2 * spacing)
  }

  lemma NatNearest(v: nat, f: int)
    requires IsFloat(f)
    ensures Distance(v, RoundedNat(v)) <= Distance(v, f)
    ensures Distance(v, f) == Distance(v, RoundedNat(v)) && f != RoundedNat(v) ==>
      LastBitZero(RoundedNat(v), Spacing(v))
  {
    hide Spacing, IsFloat, LastBitZero;
    NoFloatBetween(v, f);
    Divided(v, Spacing(v));
    var q, s := v / Spacing(v), Spacing(v);
    assert (q + 1) * s == q * s + s;
    if q % 2 == 0 {
      EvenMultiple(q / 2, s);
    } else {
      EvenMultiple((q + 1) / 2, s);
    }
  }

  lemma EvenMultiple(n: int, s: nat)
    ensures LastBitZero((2 * n) * s, s)
  {
    assert (2 * n) * s == n * (2 * s);
    assert IsTimes((2 * n) * s, n, 2 * s);
  }

  lemma Mirrored(x: int)
    requires IsFloat(x)
    ensures IsFloat(-x)
  {
    var m, e :| HasForm(x, m, e);
    assert HasForm(-x, -m, e);
  }

  // A bound is read back as the nearest float, and of two floats that are equally near as the one whose last bit
  // is zero.
  lemma RoundedIsNearest(v: int, f: int)
    requires IsFloat(f)
    ensures IsFloat(Rounded(v)) && Distance(v, Rounded(v)) <= Distance(v, f)
    ensures Distance(v, f) == Distance(v, Rounded(v)) && f != Rounded(v) ==>
      LastBitZero(Rounded(v), Spacing(Distance(v, 0)))
  {
    hide IsFloat, RoundedNat, Spacing;
    if v >= 0 {
      NatIsFloat(v);
      NatNearest(v, f);
    } else {
      NatIsFloat(-v);
      Mirrored(RoundedNat(-v));
      Mirrored(f);
      NatNearest(-v, -f);
      if LastBitZero(RoundedNat(-v), Spacing(-v)) {
        LastBitMirrored(RoundedNat(-v), Spacing(-v));
      }
    }
  }

  lemma LastBitMirrored(x: int, spacing: nat)
    requires LastBitZero(x, spacing)
    ensures LastBitZero(-x, spacing)
  {
    var n :| IsTimes(x, n, 2 * spacing);
    assert IsTimes(-x, -n, 2 * spacing);
  }

  // A bound comes back unchanged exactly when it is a float.
  lemma StaysExactly(v: int)
    ensures Rounded(v) == v <==> IsFloat(v)
  {
    hide Rounded;
    if IsFloat(v) {
      RoundedIsNearest(v, v);
    } else {
      assert HasForm(0, 0, 0);
      RoundedIsNearest(v, 0);
    }
  }
}
