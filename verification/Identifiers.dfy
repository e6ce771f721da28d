/** Names derived from a table name, within PostgreSQL's 63-byte limit. A name is its UTF-8
    bytes, one character below 256 per byte. */
module Identifiers {
  import opened Text
  import opened Numerals
  import opened Temporal

  type Name = string

  const MAX_IDENT_LEN := 63

  // The first byte of a UTF-8 character.
  predicate RuneStart(b: char) {
    !(0x80 <= b as int < 0xC0)
  }

  /* ---- clipping ---- */

  function CutPoint(s: Name, n: nat): (m: nat)
    requires n < |s|
    ensures m <= n
  {
    if n == 0 || RuneStart(s[n]) then n else CutPoint(s, n - 1)
  }

  function ClipUTF8(s: Name, n: nat): Name {
    if |s| <= n then s else s[..CutPoint(s, n)]
  }

  method ClipInPlace(s: Name, limit: nat) returns (r: Name)
    ensures r == ClipUTF8(s, limit)
  {
    if |s| <= limit {
      return s;
    }
    var n := limit;
    while n > 0 && !RuneStart(s[n])
      invariant 0 <= n <= limit && CutPoint(s, n) == CutPoint(s, limit)
    {
      n := n - 1;
    }
    return s[..n];
  }

  // Bytes of the UTF-8 character that starts with b, 0 when none does.
  function CharLen(b: char): nat {
    if b as int < 0x80 then 1
    else if 0xC0 <= b as int < 0xE0 then 2
    else if 0xE0 <= b as int < 0xF0 then 3
    else if 0xF0 <= b as int < 0xF8 then 4
    else 0
  }

  ghost predicate Utf8(s: Name) {
    s == [] ||
    (var k := CharLen(s[0]);
     0 < k <= |s| && (forall i :: 0 < i < k ==> !RuneStart(s[i])) && Utf8(s[k..]))
  }

  lemma {:induction false} BoundaryKeepsUtf8(s: Name, m: nat)
    requires Utf8(s) && m <= |s| && (m == |s| || RuneStart(s[m]))
    ensures Utf8(s[..m])
  {
    if 0 < m < |s| {
      var k := CharLen(s[0]);
      assert k <= m;
      if m < |s| {
        assert s[k..][m - k] == s[m];
      }
      BoundaryKeepsUtf8(s[k..], m - k);
      assert s[..m][k..] == s[k..][..m - k];
    } else {
      assert m == |s| ==> s[..m] == s;
    }
  }

  lemma {:induction false} CutPointIs(s: Name, n: nat)
    requires n < |s|
    ensures var m := CutPoint(s, n);
      (m == 0 || RuneStart(s[m])) && forall j :: m < j <= n ==> !RuneStart(s[j])
  {
    if n > 0 && !RuneStart(s[n]) {
      CutPointIs(s, n - 1);
    }
  }

  // The clipped name is the longest prefix within the limit that ends on a character boundary.
  lemma ClipIsLongest(s: Name, n: nat, m: nat)
    requires m <= n && m <= |s| && (m == |s| || RuneStart(s[m]))
    ensures var r := ClipUTF8(s, n);
      r == s[..|r|] && |r| <= n && m <= |r| && (Utf8(s) ==> Utf8(r))
  {
    if |s| <= n {
      assert s == s[..|s|];
    } else {
      CutPointIs(s, n);
      if Utf8(s) {
        BoundaryKeepsUtf8(s, CutPoint(s, n));
      }
    }
  }

  /* ---- the derived name ---- */

  function Xor(a: nat, b: nat, bits: nat): nat {
    if bits == 0 then 0 else (a % 2 + b % 2) % 2 + 2 * Xor(a / 2, b / 2, bits - 1)
  }

  // 32-bit FNV-1a.
  function Fnv1a(s: Name): nat {
    if s == [] then 2166136261
    else (Xor(Fnv1a(s[..|s| - 1]), s[|s| - 1] as nat, 32) * 16777619) % 0x1_0000_0000
  }

  function HexDigit(d: nat): char
    requires d < 16
  {
    "0123456789abcdef"[d]
  }

  function Hex(n: nat, digits: nat): (r: Name)
    ensures |r| == digits
  {
    if digits == 0 then "" else Hex(n / 16, digits - 1) + [HexDigit(n % 16)]
  }

  // "_" and the hash of the whole base.
  function Tag(base: Name): (r: Name)
    ensures |r| == 9
  {
    "_" + Hex(Fnv1a(base), 8)
  }

  function PgIdentWithSuffix(base: Name, suffix: Name): Name {
    if |base| + |suffix| <= MAX_IDENT_LEN then base + suffix
    else
      var keep := MAX_IDENT_LEN - |suffix| - 9;
      ClipUTF8(base, if keep < 0 then 0 else keep) + Tag(base) + suffix
  }

  // What precedes the suffix.
  function Stem(base: Name, suffix: Name): Name {
    if |base| + |suffix| <= MAX_IDENT_LEN then base
    else
      var keep := MAX_IDENT_LEN - |suffix| - 9;
      ClipUTF8(base, if keep < 0 then 0 else keep) + Tag(base)
  }

  lemma StemAndSuffix(base: Name, suffix: Name)
    ensures PgIdentWithSuffix(base, suffix) == Stem(base, suffix) + suffix
  {}

  lemma ClipFits(s: Name, n: nat)
    ensures |ClipUTF8(s, n)| <= n
  {}

  // The name fits PostgreSQL's limit exactly when the suffix leaves room for the tag, or the
  // whole name fits unclipped.
  lemma FitsExactly(base: Name, suffix: Name)
    ensures |PgIdentWithSuffix(base, suffix)| <= MAX_IDENT_LEN <==>
      |suffix| <= MAX_IDENT_LEN - 9 || |base| + |suffix| <= MAX_IDENT_LEN
  {
    var keep := MAX_IDENT_LEN - |suffix| - 9;
    ClipFits(base, if keep < 0 then 0 else keep);
  }

  // Two suffixes of one table, neither the end of the other, give two names.
  lemma SuffixesApart(base: Name, s: Name, t: Name)
    requires |s| <= |t| && t[|t| - |s|..] != s
    ensures PgIdentWithSuffix(base, s) != PgIdentWithSuffix(base, t)
  {
    hide PgIdentWithSuffix, Stem;
    StemAndSuffix(base, s);
    StemAndSuffix(base, t);
    var a, b := PgIdentWithSuffix(base, s), PgIdentWithSuffix(base, t);
    assert a[|a| - |s|..] == s;
    assert b[|b| - |s|..] == t[|t| - |s|..];
  }

  /* ---- numbered names ---- */

  // The k-th name tried: unnumbered, then numbered 2, 3, ...
  function Number(k: nat): Name {
    if k <= 1 then "" else Digits(k)
  }

  function Candidate(base: Name, suffix: Name, k: nat): Name {
    PgIdentWithSuffix(base, suffix + Number(k))
  }

  // The name as PostgreSQL compares it.
  function Stored(name: Name): Name {
    Lower(if |name| <= MAX_IDENT_LEN then name else ClipUTF8(name, MAX_IDENT_LEN))
  }

  predicate NumberedApart(suffix: Name) {
    suffix != [] && !IsDigit(suffix[|suffix| - 1])
  }

  lemma LowerConcat(a: Name, b: Name)
    ensures Lower(a + b) == Lower(a) + Lower(b)
  {}

  lemma LowerDigits(d: Name)
    requires AllDigits(d)
    ensures Lower(d) == d
  {
    forall i | 0 <= i < |d| ensures Lower(d)[i] == d[i] {
      assert d[i] in d;
    }
  }

  lemma DigitsAtEnd(a: Name, d: Name)
    requires a != [] && !IsDigit(a[|a| - 1]) && AllDigits(d)
    ensures var w := a + d;
      !IsDigit(w[|w| - |d| - 1]) && (forall i :: |w| - |d| <= i < |w| ==> IsDigit(w[i])) && w[|w| - |d|..] == d
  {
    var w := a + d;
    forall i | |w| - |d| <= i < |w| ensures IsDigit(w[i]) {
      assert w[i] == d[i - |a|] && d[i - |a|] in d;
    }
  }

  // A number after a suffix that does not end with a digit can be read back from the end.
  lemma TrailingNumber(a: Name, d: Name, b: Name, e: Name)
    requires a != [] && b != [] && !IsDigit(a[|a| - 1]) && !IsDigit(b[|b| - 1])
    requires AllDigits(d) && AllDigits(e)
    requires a + d == b + e
    ensures d == e
  {
    DigitsAtEnd(a, d);
    DigitsAtEnd(b, e);
  }

  // Distinct numbers give distinct names, even when the base is clipped to make room.
  lemma CandidatesApart(base: Name, suffix: Name, j: nat, k: nat)
    requires NumberedApart(suffix) && 1 <= j && 1 <= k && j != k
    ensures Lower(Candidate(base, suffix, j)) != Lower(Candidate(base, suffix, k))
  {
    hide Candidate, Stem, Lower, IsDigit;
    CandidateShape(base, suffix, j);
    CandidateShape(base, suffix, k);
    if Lower(Candidate(base, suffix, j)) == Lower(Candidate(base, suffix, k)) {
      TrailingNumber(Lower(Stem(base, suffix + Number(j)) + suffix), Number(j),
                     Lower(Stem(base, suffix + Number(k)) + suffix), Number(k));
      NumberInjective(j, k);
    }
  }

  lemma NumberInjective(j: nat, k: nat)
    requires 1 <= j && 1 <= k && Number(j) == Number(k)
    ensures j == k
  {
    if j > 1 && k > 1 {
      DigitsAreDigits(j);
      DigitsAreDigits(k);
    }
  }

  lemma CandidateShape(base: Name, suffix: Name, k: nat)
    requires NumberedApart(suffix)
    ensures var a := Lower(Stem(base, suffix + Number(k)) + suffix);
      Lower(Candidate(base, suffix, k)) == a + Number(k) && a != [] && !IsDigit(a[|a| - 1])
    ensures AllDigits(Number(k))
  {
    if k > 1 {
      DigitsAreDigits(k);
    }
    var stem := Stem(base, suffix + Number(k));
    StemAndSuffix(base, suffix + Number(k));
    assert stem + (suffix + Number(k)) == (stem + suffix) + Number(k);
    LowerConcat(stem + suffix, Number(k));
    LowerDigits(Number(k));
  }

  // The first free name in order of numbering.
  ghost predicate FirstFree(base: Name, suffix: Name, taken: set<Name>, k: nat) {
    && 1 <= k
    && Lower(Candidate(base, suffix, k)) !in taken
    && forall j :: 1 <= j < k ==> Lower(Candidate(base, suffix, j)) in taken
  }

  function Tried(base: Name, suffix: Name, k: nat): (r: set<Name>) {
    set j | 1 <= j < k :: Lower(Candidate(base, suffix, j))
  }

  lemma {:induction false} TriedCount(base: Name, suffix: Name, k: nat)
    requires NumberedApart(suffix) && k >= 1
    ensures |Tried(base, suffix, k)| == k - 1
  {
    hide Candidate, Lower, NumberedApart;
    if k == 1 {
      assert Tried(base, suffix, 1) == {};
    } else {
      TriedCount(base, suffix, k - 1);
      var last := Lower(Candidate(base, suffix, k - 1));
      assert Tried(base, suffix, k) == Tried(base, suffix, k - 1) + {last};
      if last in Tried(base, suffix, k - 1) {
        var j :| 1 <= j < k - 1 && Lower(Candidate(base, suffix, j)) == last;
        CandidatesApart(base, suffix, j, k - 1);
      }
    }
  }

  lemma SubsetCount<T>(a: set<T>, b: set<T>)
    requires a <= b
    ensures |a| <= |b|
  {
    assert b == a + (b - a);
  }

  // The search ends: among |taken| + 1 distinct names one is free.
  lemma Pigeonhole(base: Name, suffix: Name, taken: set<Name>, k: nat)
    requires NumberedApart(suffix) && k >= 1
    requires forall j :: 1 <= j < k ==> Lower(Candidate(base, suffix, j)) in taken
    ensures k <= |taken| + 1
  {
    TriedCount(base, suffix, k);
    assert Tried(base, suffix, k) <= taken;
    SubsetCount(Tried(base, suffix, k), taken);
  }

  method FreeIdent(base: Name, suffix: Name, taken: set<Name>) returns (name: Name, ghost number: nat)
    requires NumberedApart(suffix)
    ensures FirstFree(base, suffix, taken, number) && name == Candidate(base, suffix, number) && Lower(name) !in taken
    ensures number <= |taken| + 1
  {
    hide PgIdentWithSuffix, Lower, NumberedApart, Digits;
    assert suffix + Number(1) == suffix;
    name := PgIdentWithSuffix(base, suffix);
    number := 1;
    var k := 2;
    while Lower(name) in taken
      invariant k == number + 1 && name == Candidate(base, suffix, number)
      invariant forall j :: 1 <= j < number ==> Lower(Candidate(base, suffix, j)) in taken
      invariant 1 <= number <= |taken| + 1
      decreases |taken| + 1 - number
    {
      Pigeonhole(base, suffix, taken, number + 1);
      name := PgIdentWithSuffix(base, suffix + Digits(k));
      number := k;
      k := k + 1;
    }
  }
}
