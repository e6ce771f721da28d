/** What CONCAT gives on MySQL and what the || chain gives on PostgreSQL, row by row. */
module ConcatMeaning {
  import opened Wrappers
  import opened Numerals
  import opened Concat

  /* ---- integers as text ---- */

  function Decimal(n: int): string {
    if n < 0 then "-" + Digits(-n) else Digits(n)
  }

  function Pow10(k: nat): nat {
    if k == 0 then 1 else 10 * Pow10(k - 1)
  }

  lemma {:induction false} DigitsBounded(n: nat, k: nat)
    requires k > 0
    ensures |Digits(n)| <= k <==> n < Pow10(k)
    decreases n, k
  {
    if n >= 10 && k > 1 {
      DigitsBounded(n / 10, k - 1);
    } else if k > 1 {
      PowGrows(k);
    }
  }

  lemma {:induction false} PowGrows(k: nat)
    requires k > 0
    ensures Pow10(k) >= 10
  {
    if k > 1 {
      PowGrows(k - 1);
    }
  }

  // A canonical token prints back as itself.
  lemma {:induction false} PrintsBack(tok: string)
    requires tok != "" && AllDigits(tok) && (|tok| > 1 ==> tok[0] != '0')
    ensures Digits(ValueOf(tok)) == tok && (tok[0] != '0' ==> ValueOf(tok) > 0)
  {
    if |tok| > 1 {
      var init, last := tok[..|tok| - 1], tok[|tok| - 1];
      assert tok == init + [last] && IsDigit(last) && tok[0] == init[0];
      PrintsBack(init);
      assert (10 * ValueOf(init) + (last - '0') as nat) / 10 == ValueOf(init);
    } else {
      assert tok[..0] == "" && IsDigit(tok[0]);
    }
  }

  // The accepted tokens are exactly the decimal texts of the integers below ten to the eighteenth,
  // which all fit BIGINT; each prints back as itself.
  lemma PlainExactly(tok: string)
    ensures IsPlainInteger(tok) <==> AllDigits(tok) && ValueOf(tok) < Pow10(18) && tok == Digits(ValueOf(tok))
    ensures Pow10(18) < 0x7FFF_FFFF_FFFF_FFFF
  {
    assert Pow10(18) == 1_000_000_000_000_000_000 by {
      assert Pow10(6) == 1_000_000;
      assert Pow10(12) == 1_000_000_000_000;
    }
    if IsPlainInteger(tok) {
      PrintsBack(tok);
      DigitsBounded(ValueOf(tok), 18);
    }
    if AllDigits(tok) && ValueOf(tok) < Pow10(18) && tok == Digits(ValueOf(tok)) {
      DigitsAreDigits(ValueOf(tok));
      DigitsBounded(ValueOf(tok), 18);
    }
  }

  /* ---- the two servers ---- */

  datatype Value = Null | Str(text: string) | Num(n: int)

  type Row = Column -> Value

  // What is left open about MySQL: conversion between charsets, of columns and of literals, and the
  // text of everything that is not whitelisted.
  datatype MySql = MySql(
    convert: (string, string, string) -> string, literal: (string, string) -> string, other: Expr -> Option<string>)

  ghost predicate Converts(m: MySql) {
    && (forall cs, t :: m.convert(cs, cs, t) == t)
    && (forall cs, t :: IsAscii(t) || cs == "utf8mb4" ==> m.literal(cs, t) == t)
  }

  predicate IsText(kind: ColumnType) {
    kind.Varchar? || kind.TextType?
  }

  ghost predicate Typed(g: Generated, row: Row) {
    forall c <- g.columns ::
      (IsText(c.kind) ==> !row(c).Num?) && (c.kind.IntType? ==> !row(c).Str?)
  }

  function Padded(width: nat, s: string): string
    decreases width - |s|
  {
    if |s| >= width then s else Padded(width, "0" + s)
  }

  function MySqlColumn(m: MySql, g: Generated, row: Row, c: Column, e: Expr): Option<string> {
    match row(c)
    case Null => None
    case Str(t) => Some(m.convert(c.charset, g.target.charset, t))
    case Num(n) =>
      if c.kind.IntType? && c.kind.zerofill then Some(Padded(c.kind.width, Decimal(n))) else Some(Decimal(n))
  }

  // NULL as soon as one argument is.
  function MySqlText(m: MySql, g: Generated, row: Row, e: Expr): Option<string>
    decreases e, 0
  {
    var x := Unwrap(e);
    if IsConcat(x) then MySqlConcat(m, g, row, x, |x.args|)
    else if x.Literal? && x.kind.StringLit? then Some(m.literal(g.target.charset, x.text))
    else if x.Literal? && x.kind.NumberLit? && x.text != "" && AllDigits(x.text) then Some(Digits(ValueOf(x.text)))
    else if x.Ident? && |x.parts| == 1 && Find(g.columns, x.parts[0]).Some? then
      MySqlColumn(m, g, row, Find(g.columns, x.parts[0]).value, x)
    else m.other(x)
  }

  function MySqlConcat(m: MySql, g: Generated, row: Row, fc: Expr, n: nat): Option<string>
    requires fc.Call? && n <= |fc.args|
    decreases fc, 0, n
  {
    if n == 0 then Some("")
    else Joined(MySqlConcat(m, g, row, fc, n - 1), MySqlText(m, g, row, fc.args[n - 1]))
  }

  function Joined(a: Option<string>, b: Option<string>): Option<string> {
    if a.None? || b.None? then None else Some(a.value + b.value)
  }

  // A cast prints the digits of an integer type, but not of a boolean.
  function PgCast(c: Column, v: Value): Option<string> {
    match v
    case Null => None
    case Str(t) => Some(t)
    case Num(n) => if c.pg == "BOOLEAN" then Some(if n == 0 then "false" else "true") else Some(Decimal(n))
  }

  function PgText(g: Generated, row: Row, e: Expr): Option<string> {
    match e
    case Paren(inner) => PgText(g, row, inner)
    case Append(lhs, rhs) => Joined(PgText(g, row, lhs), PgText(g, row, rhs))
    case Literal(_, text) => Some(text)
    case Ident(parts) =>
      if |parts| != 1 || Find(g.columns, parts[0]).None? then None
      else
        var v := row(Find(g.columns, parts[0]).value);
        if v.Str? then Some(v.text) else None
    case CastText(x) =>
      if x.Literal? && AllDigits(x.text) then Some(Digits(ValueOf(x.text)))
      else if x.Ident? && |x.parts| == 1 && Find(g.columns, x.parts[0]).Some? then
        PgCast(Find(g.columns, x.parts[0]).value, row(Find(g.columns, x.parts[0]).value))
      else None
    case _ => None
  }

  /* ---- the same text ---- */

  lemma OperandMeans(m: MySql, g: Generated, row: Row, a: Expr)
    requires Converts(m) && Typed(g, row) && OperandOf(g, a).Whitelisted? && !IsConcat(Unwrap(a))
    ensures PgText(g, row, OperandOf(g, a).expr) == MySqlText(m, g, row, a)
  {
    var x := Unwrap(a);
    if x.Literal? && x.kind == NumberLit {
      PlainExactly(x.text);
    }
  }

  function Texts(g: Generated, row: Row, operands: seq<Expr>): Option<string> {
    if operands == [] then Some("")
    else Joined(Texts(g, row, operands[..|operands| - 1]), PgText(g, row, operands[|operands| - 1]))
  }

  lemma {:induction false} ChainMeans(g: Generated, row: Row, operands: seq<Expr>)
    requires operands != []
    ensures PgText(g, row, Chain(operands)) == Texts(g, row, operands)
  {
    var init := operands[..|operands| - 1];
    if |operands| > 1 {
      ChainMeans(g, row, init);
    } else {
      assert Texts(g, row, init) == Some("");
      JoinedEmpty(PgText(g, row, operands[0]));
    }
  }

  lemma JoinedEmpty(b: Option<string>)
    ensures Joined(Some(""), b) == b
  {
    if b.Some? {
      assert "" + b.value == b.value;
    }
  }

  lemma TextsSnoc(g: Generated, row: Row, operands: seq<Expr>, e: Expr)
    ensures Texts(g, row, operands + [e]) == Joined(Texts(g, row, operands), PgText(g, row, e))
  {
    assert (operands + [e])[..|operands|] == operands;
  }

  lemma {:induction false} OperandsMean(m: MySql, g: Generated, row: Row, fc: Expr, n: nat)
    requires Converts(m) && Typed(g, row) && IsConcat(fc) && n <= |fc.args| && ArgRefusals(g, fc, n) == []
    ensures Texts(g, row, Operands(g, fc, n)) == MySqlConcat(m, g, row, fc, n) && |Operands(g, fc, n)| == n
    decreases fc, n
  {
    if n > 0 {
      hide PgText, MySqlText, Chained, Refusals, OperandOf, Converts, Typed;
      var a := fc.args[n - 1];
      var inner := Unwrap(a);
      OperandsMean(m, g, row, fc, n - 1);
      var before := Operands(g, fc, n - 1);
      if IsConcat(inner) {
        CallMeans(m, g, row, inner);
        MySqlUnwraps(m, g, row, a);
        TextsSnoc(g, row, before, Chained(g, inner));
      } else {
        OperandMeans(m, g, row, a);
        TextsSnoc(g, row, before, OperandOf(g, a).expr);
      }
    }
  }

  lemma MySqlUnwraps(m: MySql, g: Generated, row: Row, a: Expr)
    requires IsConcat(Unwrap(a))
    ensures MySqlText(m, g, row, a) == MySqlText(m, g, row, Unwrap(a))
  {}

  lemma {:induction false} CallMeans(m: MySql, g: Generated, row: Row, fc: Expr)
    requires Converts(m) && Typed(g, row) && IsConcat(fc) && Refusals(g, fc) == []
    ensures PgText(g, row, Chained(g, fc)) == MySqlText(m, g, row, fc)
    decreases fc, |fc.args| + 1
  {
    OperandsMean(m, g, row, fc, |fc.args|);
    ChainMeans(g, row, Operands(g, fc, |fc.args|));
  }

  // Every accepted expression: the chain stores the text MySQL's CONCAT gives, on every row.
  lemma RewriteKeepsText(m: MySql, g: Generated, row: Row, e: Expr)
    requires Converts(m) && Typed(g, row) && Accepted(g, e)
    ensures PgText(g, row, Chained(g, Unwrap(e))) == MySqlText(m, g, row, e)
  {
    var fc := Unwrap(e);
    UnwrapTwice(e);
    AcceptedExactly(g, fc);
    CallMeans(m, g, row, fc);
  }

  lemma UnwrapTwice(e: Expr)
    ensures Unwrap(Unwrap(e)) == Unwrap(e)
  {}

  // Some column the expression reads is NULL in the row.
  predicate ReadsNull(g: Generated, row: Row, e: Expr)
    decreases e
  {
    var x := Unwrap(e);
    if x.Call? then exists i :: 0 <= i < |x.args| && ReadsNull(g, row, x.args[i])
    else x.Ident? && |x.parts| == 1 && Find(g.columns, x.parts[0]).Some? && row(Find(g.columns, x.parts[0]).value).Null?
  }

  lemma {:induction false} ArgsNull(m: MySql, g: Generated, row: Row, fc: Expr, n: nat)
    requires IsConcat(fc) && n <= |fc.args| && forall i :: 0 <= i < n ==> Agreed(g, fc.args[i])
    ensures MySqlConcat(m, g, row, fc, n).None? <==> exists i :: 0 <= i < n && ReadsNull(g, row, fc.args[i])
    decreases fc, 0, n
  {
    if n > 0 {
      ArgsNull(m, g, row, fc, n - 1);
      NullText(m, g, row, fc.args[n - 1]);
      hide MySqlText, Agreed, ReadsNull;
    }
  }

  lemma {:induction false} NullText(m: MySql, g: Generated, row: Row, e: Expr)
    requires Agreed(g, e)
    ensures MySqlText(m, g, row, e).None? <==> ReadsNull(g, row, e)
    decreases e, 0
  {
    var x := Unwrap(e);
    if IsConcat(x) {
      ArgsNull(m, g, row, x, |x.args|);
    } else if x.Literal? && x.kind == NumberLit {
      PlainExactly(x.text);
    }
  }

  // The stored value is NULL exactly when a column it reads is: || does not skip NULLs, and neither
  // does MySQL's CONCAT.
  lemma NullExactly(m: MySql, g: Generated, row: Row, e: Expr)
    requires Converts(m) && Typed(g, row) && Accepted(g, e)
    ensures PgText(g, row, Chained(g, Unwrap(e))).None? <==> ReadsNull(g, row, e)
  {
    RewriteKeepsText(m, g, row, e);
    NullText(m, g, row, e);
  }
}
