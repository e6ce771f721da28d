/** The tag of a clipped name: long table names that differ in one byte keep names of their own. */
module IdentHash {
  import opened Identifiers

  function Pow2(n: nat): nat {
    if n == 0 then 1 else 2 * Pow2(n - 1)
  }

  /* ---- one round of the hash loses nothing ---- */

  lemma {:induction false} XorLeft(a: nat, b: nat, c: nat, bits: nat)
    requires a < Pow2(bits) && b < Pow2(bits) && Xor(a, c, bits) == Xor(b, c, bits)
    ensures a == b
  {
    if bits > 0 {
      var x, y := Xor(a / 2, c / 2, bits - 1), Xor(b / 2, c / 2, bits - 1);
      assert (a % 2 + c % 2) % 2 + 2 * x == (b % 2 + c % 2) % 2 + 2 * y;
      XorLeft(a / 2, b / 2, c / 2, bits - 1);
    }
  }

  lemma {:induction false} XorCommutes(a: nat, b: nat, bits: nat)
    ensures Xor(a, b, bits) == Xor(b, a, bits)
  {
    if bits > 0 {
      XorCommutes(a / 2, b / 2, bits - 1);
    }
  }

  lemma {:induction false} XorBelow(a: nat, b: nat, bits: nat)
    ensures Xor(a, b, bits) < Pow2(bits)
  {
    if bits > 0 {
      XorBelow(a / 2, b / 2, bits - 1);
    }
  }

  // The prime has an inverse modulo 2^32.
  lemma TimesPrime(x: nat, y: nat)
    requires x < 0x1_0000_0000 && y < 0x1_0000_0000
    requires (x * 16777619) % 0x1_0000_0000 == (y * 16777619) % 0x1_0000_0000
    ensures x == y
  {
    var d := x * 16777619 / 0x1_0000_0000 - y * 16777619 / 0x1_0000_0000;
    assert (x - y) * 16777619 == 0x1_0000_0000 * d;
    assert 16777619 * 899433627 == 1 + 0x1_0000_0000 * 3513497;
    assert x - y == 0x1_0000_0000 * (d * 899433627 - (x - y) * 3513497);
  }

  lemma TwoTo32()
    ensures Pow2(32) == 0x1_0000_0000
  {
    assert Pow2(8) == 0x100;
    assert Pow2(16) == 0x1_0000;
    assert Pow2(24) == 0x100_0000;
  }

  lemma Fnv1aBelow(s: Name)
    ensures Fnv1a(s) < 0x1_0000_0000
  {}

  // Two names of one length that differ in the byte at i only.
  ghost predicate DifferAt(s: Name, t: Name, i: nat) {
    |s| == |t| && i < |s| && s[i] != t[i] && (forall k :: 0 <= k < |s| && k != i ==> s[k] == t[k]) &&
    s[i] as int < 256 && t[i] as int < 256
  }

  lemma {:induction false} HashesApart(s: Name, t: Name, i: nat)
    requires DifferAt(s, t, i)
    ensures Fnv1a(s) != Fnv1a(t)
  {
    hide Xor;
    var n := |s| - 1;
    var a, b := Fnv1a(s[..n]), Fnv1a(t[..n]);
    var c, d := s[n] as nat, t[n] as nat;
    TwoTo32();
    Fnv1aBelow(s[..n]);
    Fnv1aBelow(t[..n]);
    XorBelow(a, c, 32);
    XorBelow(b, d, 32);
    if i < n {
      HashesApart(s[..n], t[..n], i);
      if Xor(a, c, 32) == Xor(b, d, 32) {
        XorLeft(a, b, c, 32);
      }
    } else {
      assert s[..n] == t[..n];
      if Xor(a, c, 32) == Xor(b, d, 32) {
        XorCommutes(a, c, 32);
        XorCommutes(a, d, 32);
        XorLeft(c, d, a, 32);
      }
    }
    if Fnv1a(s) == Fnv1a(t) {
      TimesPrime(Xor(a, c, 32), Xor(b, d, 32));
    }
  }

  lemma {:induction false} HexApart(m: nat, n: nat, digits: nat)
    requires Hex(m, digits) == Hex(n, digits) && m < Pow2(4 * digits) && n < Pow2(4 * digits)
    ensures m == n
  {
    if digits > 0 {
      var a, b := Hex(m / 16, digits - 1), Hex(n / 16, digits - 1);
      assert (a + [HexDigit(m % 16)])[..digits - 1] == a && (b + [HexDigit(n % 16)])[..digits - 1] == b;
      assert (a + [HexDigit(m % 16)])[digits - 1] == HexDigit(m % 16);
      assert (b + [HexDigit(n % 16)])[digits - 1] == HexDigit(n % 16);
      DigitsApart(m % 16, n % 16);
      NextDigit(4 * (digits - 1));
      HexApart(m / 16, n / 16, digits - 1);
    }
  }

  lemma NextDigit(n: nat)
    ensures Pow2(n + 4) == 16 * Pow2(n)
  {
    assert Pow2(n + 2) == 4 * Pow2(n);
  }

  lemma DigitsApart(a: nat, b: nat)
    requires a < 16 && b < 16 && HexDigit(a) == HexDigit(b)
    ensures a == b
  {}

  lemma TagsApart(s: Name, t: Name, i: nat)
    requires DifferAt(s, t, i)
    ensures Tag(s) != Tag(t)
  {
    HashesApart(s, t, i);
    TwoTo32();
    Fnv1aBelow(s);
    Fnv1aBelow(t);
    if Tag(s) == Tag(t) {
      assert Tag(s)[1..] == Hex(Fnv1a(s), 8) && Tag(t)[1..] == Hex(Fnv1a(t), 8);
      HexApart(Fnv1a(s), Fnv1a(t), 8);
    }
  }

  // Two table names that differ in one byte, be it in the part that is clipped, get two names with the same suffix.
  lemma NamesApart(s: Name, t: Name, suffix: Name, i: nat)
    requires DifferAt(s, t, i)
    ensures PgIdentWithSuffix(s, suffix) != PgIdentWithSuffix(t, suffix)
  {
    hide Tag, ClipUTF8, PgIdentWithSuffix;
    var a, b := PgIdentWithSuffix(s, suffix), PgIdentWithSuffix(t, suffix);
    if |s| + |suffix| <= MAX_IDENT_LEN {
      Unclipped(s, suffix);
      Unclipped(t, suffix);
      assert (s + suffix)[i] == s[i] && (t + suffix)[i] == t[i];
    } else {
      var p := Clipped(s, suffix);
      var q := Clipped(t, suffix);
      TagsApart(s, t, i);
      assert a[|a| - |suffix| - 9..|a| - |suffix|] == Tag(s);
      assert b[|b| - |suffix| - 9..|b| - |suffix|] == Tag(t);
    }
  }

  lemma Unclipped(base: Name, suffix: Name)
    requires |base| + |suffix| <= MAX_IDENT_LEN
    ensures PgIdentWithSuffix(base, suffix) == base + suffix
  {}

  // A clipped name is the longest prefix of the base that leaves room, cut between characters, the tag of the whole
  // base, and the suffix.
  lemma Clipped(base: Name, suffix: Name) returns (m: nat)
    requires |base| + |suffix| > MAX_IDENT_LEN
    ensures m <= |base| && PgIdentWithSuffix(base, suffix) == base[..m] + Tag(base) + suffix
    ensures m == 0 || m + 9 + |suffix| <= MAX_IDENT_LEN
    ensures m == 0 || m == |base| || RuneStart(base[m])
    ensures forall k :: m < k < |base| && k + 9 + |suffix| <= MAX_IDENT_LEN ==> !RuneStart(base[k])
    ensures m < |base| ==> |base| + 9 + |suffix| > MAX_IDENT_LEN
  {
    hide Tag;
    var keep := MAX_IDENT_LEN - |suffix| - 9;
    var n := if keep < 0 then 0 else keep;
    m := |ClipUTF8(base, n)|;
    if |base| > n {
      CutPointIs(base, n);
    } else {
      assert base[..|base|] == base;
    }
  }

  lemma {:induction false} XorNothing(a: nat, bits: nat)
    requires a < Pow2(bits)
    ensures Xor(a, 0, bits) == a
  {
    if bits > 0 {
      XorNothing(a / 2, bits - 1);
    }
  }

  lemma XorStep(a: nat, b: nat, bits: nat)
    requires bits > 0
    ensures Xor(a, b, bits) == (a % 2 + b % 2) % 2 + 2 * Xor(a / 2, b / 2, bits - 1)
  {}

  // The published values of the 32-bit hash.
  lemma PublishedHashes()
    ensures Fnv1a("") == 0x811C9DC5 && Fnv1a("a") == 0xE40C292C
  {
    XorByte();
    hide Xor;
    assert "a"[..0] == "" && 'a' as nat == 97;
  }

  lemma XorByte()
    ensures Xor(0x811C9DC5, 97, 32) == 0x811C9DA4
  {
    hide Xor;
    TwoTo25();
    XorNothing(16922939, 25);
    XorStep(33845879, 1, 26);
    XorStep(67691758, 3, 27);
    XorStep(135383516, 6, 28);
    XorStep(270767032, 12, 29);
    XorStep(541534065, 24, 30);
    XorStep(1083068130, 48, 31);
    XorStep(2166136261, 97, 32);
  }

  lemma TwoTo25()
    ensures Pow2(25) == 0x200_0000
  {
    assert Pow2(8) == 0x100;
    assert Pow2(16) == 0x1_0000;
    assert Pow2(24) == 0x100_0000;
  }
}
