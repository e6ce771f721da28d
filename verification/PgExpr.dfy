/** Expression trees of the MySQL path, the precedence table of the translator, and
    PostgreSQL's own operator table (section 4.1.6 "Operator Precedence" of its manual). */
module PgExpr {
  import opened Text
  import opened Wrappers

  datatype Expr =
    | Atom(name: string)  // literal, column, CASE, subquery: rendered self-delimited
    | Call(name: string, args: Exprs)
    | Paren(inner: Expr)
    | Binary(op: string, lhs: Expr, rhs: Expr)
    | Unary(op: string, rhs: Expr)
    | Between(negated: bool, expr: Expr, low: Expr, high: Expr)
    | In(negated: bool, expr: Expr, list: Exprs)

  datatype Exprs = Nil | Cons(head: Expr, tail: Exprs)

  const OR := 1
  const AND := 2
  const NOT := 3
  const IS := 4
  const CMP := 5
  const LIKE := 6
  const OTHER := 7
  const ADD := 8
  const MUL := 9
  const EXP := 10
  const UNARY := 11
  const PRIMARY := 100

  // The translator's table: the level it assigns to a binary operator.
  function BinaryPrec(op: string): nat {
    var u := Upper(op);
    if u == "OR" then OR
    else if u == "AND" then AND
    else if u in ["IS", "IS NOT", "IS DISTINCT FROM", "IS NOT DISTINCT FROM"] then IS
    else if u in ["=", "<>", "!=", "<", "<=", ">", ">=", "<=>"] then CMP
    else if u in ["LIKE", "NOT LIKE", "ILIKE", "NOT ILIKE", "IN", "NOT IN", "SIMILAR TO", "NOT SIMILAR TO"] then LIKE
    else if u in ["+", "-"] then ADD
    else if u in ["*", "/", "%", "DIV", "MOD"] then MUL
    else if u == "^" then EXP
    else OTHER
  }

  predicate IsNot(op: string) {
    Upper(op) == "NOT"
  }

  // The level the translator takes an operand to render at.
  function ExprPrec(e: Expr): nat {
    match e
    case Binary(op, _, _) => BinaryPrec(op)
    case Unary(op, _) => if IsNot(op) then NOT else UNARY
    case Between(_, _, _, _) => LIKE
    case In(_, _, _) => LIKE
    case _ => PRIMARY
  }

  predicate NonAssoc(level: nat) {
    level == IS || level == CMP || level == LIKE
  }

  // An operator spelled only with PostgreSQL's operator characters.
  predicate Symbolic(op: string) {
    op != "" && forall c <- op :: c in "+-*/<>=~!@#%^&|`?"
  }

  // PostgreSQL's table: the level it reads an infix operator at, None when it is not one.
  function PgInfix(op: string): Option<nat> {
    var u := Upper(op);
    if u == "OR" then Some(OR)
    else if u == "AND" then Some(AND)
    else if u in ["IS", "IS NOT", "IS DISTINCT FROM", "IS NOT DISTINCT FROM"] then Some(IS)
    else if op in ["<", ">", "=", "<=", ">=", "<>", "!="] then Some(CMP)
    else if u in ["LIKE", "NOT LIKE", "ILIKE", "NOT ILIKE", "SIMILAR TO", "NOT SIMILAR TO"] then Some(LIKE)
    else if op in ["+", "-"] then Some(ADD)
    else if op in ["*", "/", "%"] then Some(MUL)
    else if op == "^" then Some(EXP)
    else if Symbolic(op) then Some(OTHER)
    else None
  }

  // Lowest level an infix operator may have to be read inside the operand of a prefix
  // operator: NOT takes comparisons, unary plus and minus take nothing, any other prefix
  // operator takes what binds tighter than a generic operator.
  function PgPrefix(op: string): Option<nat> {
    if IsNot(op) then Some(NOT)
    else if op in ["+", "-"] then Some(UNARY)
    else if Symbolic(op) then Some(ADD)
    else None
  }

  // The spelling the writer emits: DIV is written as a slash.
  function Written(op: string): string {
    if Upper(op) == "DIV" then "/" else op
  }

  function Render(e: Expr): Expr {
    match e
    case Atom(_) => e
    case Call(f, args) => Call(f, RenderAll(args))
    case Paren(x) => Paren(Render(x))
    case Binary(op, l, r) => Binary(Written(op), Render(l), Render(r))
    case Unary(op, x) => Unary(op, Render(x))
    case Between(n, x, lo, hi) => Between(n, Render(x), Render(lo), Render(hi))
    case In(n, x, list) => In(n, Render(x), RenderAll(list))
  }

  function RenderAll(es: Exprs): Exprs {
    match es
    case Nil => Nil
    case Cons(e, rest) => Cons(Render(e), RenderAll(rest))
  }
}
