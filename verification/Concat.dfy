/** Generated columns of CONCAT calls: which are rewritten into || chains, and that the chain stores the same text. */
module Concat {
  import opened Text
  import opened Wrappers
  import opened Numerals

  datatype LiteralKind = StringLit | NumberLit | HexLit | BitLit | NullLit | BoolLit

  datatype Expr =
    | Literal(kind: LiteralKind, text: string)
    | Ident(parts: seq<string>)
    | Call(name: string, distinct: bool, args: seq<Expr>)
    | Paren(inner: Expr)
    | Operator(op: string, operands: seq<Expr>)
    | CastText(expr: Expr)             // written only: CAST(expr AS text)
    | Append(lhs: Expr, rhs: Expr)     // written only: lhs || rhs

  // charset: the effective one, resolved through type, collation and table. pg: the final PostgreSQL
  // type; plain: it is still the plain mapping of the source type.
  datatype ColumnType = Varchar | TextType | IntType(zerofill: bool, width: nat) | OtherType

  datatype Column = Column(name: string, kind: ColumnType, charset: string, pg: string, plain: bool, jsonCheck: bool)

  // The generated column and the columns of its table.
  datatype Generated = Generated(target: Column, columns: seq<Column>)

  datatype WhyNot =
    | NonAscii | NonInteger | OtherLiteral(kind: LiteralKind) | Qualified | Unknown | JsonCheck | Retyped
    | Binary | OtherCharset | OtherColumn | OtherExpr

  datatype Reason =
    | NotExactly | Never(name: string) | BadTarget | BinaryTarget | Form(call: Expr) | Argument(arg: Expr, why: WhyNot)

  datatype Operand = Whitelisted(expr: Expr) | Refused(why: WhyNot)

  function Unwrap(e: Expr): (r: Expr)
    ensures !r.Paren? && (r == e || r < e)
  {
    if e.Paren? then Unwrap(e.inner) else e
  }

  predicate IsConcat(e: Expr) {
    e.Call? && Lower(e.name) == "concat"
  }

  predicate IsNever(e: Expr) {
    e.Call? && (Lower(e.name) == "concat_ws" || Lower(e.name) == "concat_operator_oracle")
  }

  predicate IsAscii(s: string) {
    forall c <- s :: c < 128 as char
  }

  // Digits only, no leading zero, at most 18.
  predicate IsPlainInteger(tok: string) {
    tok != "" && |tok| <= 18 && (|tok| > 1 ==> tok[0] != '0') && AllDigits(tok)
  }

  predicate IsIntegerPg(pg: string) {
    pg in ["SMALLINT", "INTEGER", "BIGINT", "NUMERIC(20,0)"]
  }

  function Find(columns: seq<Column>, name: string): (r: Option<Column>)
    ensures r.Some? ==> r.value in columns
  {
    if columns == [] then None
    else if Lower(columns[0].name) == Lower(name) then Some(columns[0])
    else Find(columns[1..], name)
  }

  function LiteralOperand(g: Generated, x: Expr): Operand
    requires x.Literal?
  {
    match x.kind
    case StringLit => if !IsAscii(x.text) && g.target.charset != "utf8mb4" then Refused(NonAscii) else Whitelisted(x)
    case NumberLit => if IsPlainInteger(x.text) then Whitelisted(CastText(x)) else Refused(NonInteger)
    case _ => Refused(OtherLiteral(x.kind))
  }

  function ColumnOperand(g: Generated, x: Expr): Operand
    requires x.Ident?
  {
    if |x.parts| != 1 then Refused(Qualified)
    else
      var found := Find(g.columns, x.parts[0]);
      if found.None? then Refused(Unknown)
      else
        var c := found.value;
        if c.jsonCheck then Refused(JsonCheck)
        else if !c.plain then Refused(Retyped)
        else
          match c.kind
          case IntType(zerofill, _) =>
            if !zerofill && IsIntegerPg(c.pg) then Whitelisted(CastText(x)) else Refused(OtherColumn)
          case OtherType => Refused(OtherColumn)
          case _ =>
            if c.charset == "binary" then Refused(Binary)
            else if c.charset != g.target.charset then Refused(OtherCharset)
            else Whitelisted(x)
  }

  function OperandOf(g: Generated, a: Expr): Operand {
    var x := Unwrap(a);
    if x.Literal? then LiteralOperand(g, x)
    else if x.Ident? then ColumnOperand(g, x)
    else Refused(OtherExpr)
  }

  function TargetRefusal(g: Generated): seq<Reason> {
    if g.target.kind != Varchar || !g.target.plain then [BadTarget]
    else if g.target.charset == "binary" then [BinaryTarget]
    else []
  }

  // Left to right, in one pair of parentheses.
  function Chain(operands: seq<Expr>): Expr
    requires operands != []
  {
    if |operands| == 1 then operands[0] else Append(Chain(operands[..|operands| - 1]), operands[|operands| - 1])
  }

  // The operands the first n arguments give.
  function Operands(g: Generated, fc: Expr, n: nat): seq<Expr>
    requires fc.Call? && n <= |fc.args|
    decreases fc, n
  {
    if n == 0 then []
    else
      var before, a := Operands(g, fc, n - 1), fc.args[n - 1];
      var inner := Unwrap(a);
      if IsConcat(inner) then before + [Chained(g, inner)]
      else if IsNever(inner) then before
      else match OperandOf(g, a) case Whitelisted(op) => before + [op] case Refused(_) => before
  }

  function Chained(g: Generated, fc: Expr): Expr
    requires fc.Call?
    decreases fc, |fc.args| + 1
  {
    if fc.distinct || fc.args == [] then fc
    else
      var operands := Operands(g, fc, |fc.args|);
      if operands == [] then fc else Paren(Chain(operands))
  }

  function ArgRefusals(g: Generated, fc: Expr, n: nat): seq<Reason>
    requires fc.Call? && n <= |fc.args|
    decreases fc, n
  {
    if n == 0 then []
    else
      var before, a := ArgRefusals(g, fc, n - 1), fc.args[n - 1];
      var inner := Unwrap(a);
      if IsConcat(inner) then before + Refusals(g, inner)
      else if IsNever(inner) then before + [Never(inner.name)]
      else match OperandOf(g, a) case Whitelisted(_) => before case Refused(why) => before + [Argument(a, why)]
  }

  function Refusals(g: Generated, fc: Expr): seq<Reason>
    requires fc.Call?
    decreases fc, |fc.args| + 1
  {
    if fc.distinct || fc.args == [] then [Form(fc)] else ArgRefusals(g, fc, |fc.args|)
  }

  /* ---- the rewrite ---- */

  class Reasons {
    var list: seq<Reason>

    constructor ()
      ensures list == []
    {
      list := [];
    }

    method Add(r: Reason)
      modifies this
      ensures list == old(list) + [r]
    {
      list := list + [r];
    }
  }

  method ConcatCall(g: Generated, fc: Expr, reasons: Reasons) returns (chain: Expr)
    requires fc.Call?
    modifies reasons
    ensures chain == Chained(g, fc) && reasons.list == old(reasons.list) + Refusals(g, fc)
    decreases fc
  {
    if fc.distinct || |fc.args| == 0 {
      reasons.Add(Form(fc));
      return fc;
    }
    var operands: seq<Expr> := [];
    var i := 0;
    while i < |fc.args|
      invariant i <= |fc.args|
      invariant operands == Operands(g, fc, i) && reasons.list == old(reasons.list) + ArgRefusals(g, fc, i)
    {
      var a := fc.args[i];
      var inner := Unwrap(a);
      if IsConcat(inner) {
        var nested := ConcatCall(g, inner, reasons);
        operands := operands + [nested];
      } else if IsNever(inner) {
        reasons.Add(Never(inner.name));
      } else {
        match OperandOf(g, a)
        case Whitelisted(op) => operands := operands + [op];
        case Refused(why) => reasons.Add(Argument(a, why));
      }
      i := i + 1;
    }
    if operands == [] {
      return fc;
    }
    chain := operands[0];
    i := 1;
    while i < |operands|
      invariant 1 <= i <= |operands| && chain == Chain(operands[..i])
    {
      assert operands[..i + 1][..i] == operands[..i];
      chain := Append(chain, operands[i]);
      i := i + 1;
    }
    assert operands[..i] == operands;
    chain := Paren(chain);
  }

  // Accepted: the chain. Refused: the expression as it was, and why.
  method Rewrite(g: Generated, e: Expr) returns (out: Expr, refusals: seq<Reason>)
    ensures refusals == [] <==> Accepted(g, e)
    ensures out == if Accepted(g, e) then Chained(g, Unwrap(e)) else e
  {
    var fc := Unwrap(e);
    if !IsConcat(fc) {
      return e, [if IsNever(fc) then Never(fc.name) else NotExactly];
    }
    AcceptedExactly(g, fc);
    var reasons := new Reasons();
    reasons.list := TargetRefusal(g);
    var chain := ConcatCall(g, fc, reasons);
    if reasons.list != [] {
      return e, reasons.list;
    }
    return chain, [];
  }

  /* ---- what is accepted ---- */

  // The first column of that name, case aside.
  ghost predicate FirstNamed(columns: seq<Column>, name: string, c: Column) {
    exists i :: 0 <= i < |columns| && columns[i] == c && Lower(c.name) == Lower(name) &&
      forall k :: 0 <= k < i ==> Lower(columns[k].name) != Lower(name)
  }

  // A column whose text PostgreSQL has as the source does.
  predicate SameText(g: Generated, c: Column) {
    !c.jsonCheck && c.plain &&
    match c.kind
    case IntType(zerofill, _) => !zerofill && c.pg in ["SMALLINT", "INTEGER", "BIGINT", "NUMERIC(20,0)"]
    case Varchar => c.charset != "binary" && c.charset == g.target.charset
    case TextType => c.charset != "binary" && c.charset == g.target.charset
    case OtherType => false
  }

  lemma {:induction false} FoundIsFirst(columns: seq<Column>, name: string)
    ensures match Find(columns, name)
            case None => forall k :: 0 <= k < |columns| ==> Lower(columns[k].name) != Lower(name)
            case Some(c) => FirstNamed(columns, name, c)
  {
    hide Lower;
    if columns != [] && Lower(columns[0].name) != Lower(name) {
      FoundIsFirst(columns[1..], name);
      assert forall k :: 1 <= k < |columns| ==> columns[k] == columns[1..][k - 1];
      if Find(columns, name).Some? {
        var i :| 0 <= i < |columns[1..]| && columns[1..][i] == Find(columns, name).value &&
          forall k :: 0 <= k < i ==> Lower(columns[1..][k].name) != Lower(name);
        assert columns[i + 1] == Find(columns, name).value;
      }
    }
  }

  // An operand that is no call is taken exactly when it is a string both character sets write alike, an integer
  // of at most 18 digits, or a column of the table, by its own name alone, with the same text in PostgreSQL.
  lemma OperandExactly(g: Generated, a: Expr)
    ensures OperandOf(g, a).Whitelisted? <==>
      match Unwrap(a)
      case Literal(StringLit, text) => g.target.charset == "utf8mb4" || forall c <- text :: c as int < 128
      case Literal(NumberLit, tok) =>
        1 <= |tok| <= 18 && (forall c <- tok :: '0' <= c <= '9') && (tok[0] == '0' ==> |tok| == 1)
      case Ident(parts) => |parts| == 1 && exists c :: FirstNamed(g.columns, parts[0], c) && SameText(g, c)
      case _ => false
  {
    hide Lower;
    var x := Unwrap(a);
    if x.Ident? && |x.parts| == 1 {
      FoundIsFirst(g.columns, x.parts[0]);
      var found := Find(g.columns, x.parts[0]);
      assert found.Some? ==> FirstNamed(g.columns, x.parts[0], found.value);
    }
  }

  // The generated column may hold a chain exactly when it is an untouched VARCHAR of a character set.
  lemma TargetExactly(g: Generated)
    ensures TargetRefusal(g) == [] <==> g.target.kind == Varchar && g.target.plain && g.target.charset != "binary"
  {}

  // A string literal, a column or an integer whose text both servers agree on, or a CONCAT of such.
  predicate Agreed(g: Generated, a: Expr)
    decreases a
  {
    var x := Unwrap(a);
    if IsConcat(x) then !x.distinct && x.args != [] && forall i :: 0 <= i < |x.args| ==> Agreed(g, x.args[i])
    else !IsNever(x) && OperandOf(g, a).Whitelisted?
  }

  predicate Accepted(g: Generated, e: Expr) {
    IsConcat(Unwrap(e)) && TargetRefusal(g) == [] && Agreed(g, e)
  }

  lemma {:induction false} ArgsExactly(g: Generated, fc: Expr, n: nat)
    requires IsConcat(fc) && n <= |fc.args|
    ensures ArgRefusals(g, fc, n) == [] <==> forall i :: 0 <= i < n ==> Agreed(g, fc.args[i])
    decreases fc, n
  {
    if n > 0 {
      ArgsExactly(g, fc, n - 1);
      var inner := Unwrap(fc.args[n - 1]);
      if IsConcat(inner) {
        AcceptedExactly(g, inner);
      }
    }
  }

  // No reason is given exactly when every operand, nested ones included, is one both servers agree on.
  lemma {:induction false} AcceptedExactly(g: Generated, fc: Expr)
    requires IsConcat(fc)
    ensures Refusals(g, fc) == [] <==> Agreed(g, fc)
    decreases fc, |fc.args| + 1
  {
    if !fc.distinct && fc.args != [] {
      ArgsExactly(g, fc, |fc.args|);
    }
  }
}
