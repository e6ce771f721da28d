/** The PostgreSQL writer as a token printer, and PostgreSQL's reading of those tokens: a
    precedence-climbing parser. `ReadsExactly` is the link between the two. */
module PgReader {
  import opened Wrappers
  import opened PgExpr

  datatype Token =
    | Word(name: string)
    | Fn(name: string)
    | Op(op: string)
    | BetweenKw(negated: bool)
    | InKw(negated: bool)
    | LP | RP | Comma

  function Print(e: Expr): (ts: seq<Token>)
    ensures ts != []
  {
    match e
    case Atom(n) => [Word(n)]
    case Call(f, args) => [Fn(f), LP] + PrintAll(args) + [RP]
    case Paren(x) => [LP] + Print(x) + [RP]
    case Binary(op, l, r) => Print(l) + [Op(op)] + Print(r)
    case Unary(op, x) => [Op(op)] + Print(x)
    case Between(n, x, lo, hi) => Print(x) + [BetweenKw(n)] + Print(lo) + [Op("AND")] + Print(hi)
    case In(n, x, list) => Print(x) + [InKw(n), LP] + PrintAll(list) + [RP]
  }

  function PrintAll(es: Exprs): seq<Token> {
    match es
    case Nil => []
    case Cons(e, Nil) => Print(e)
    case Cons(e, rest) => Print(e) + [Comma] + PrintAll(rest)
  }

  // Level of the infix operator a token stream starts with, -1 when it starts otherwise.
  function HeadLevel(ts: seq<Token>): int {
    if ts == [] then -1 else
    match ts[0]
    case Op(op) => (match PgInfix(op) case Some(p) => p case None => -1)
    case BetweenKw(_) => LIKE
    case InKw(_) => LIKE
    case _ => -1
  }

  // Level of the infix operator whose right operand ends the tree, PRIMARY when none does.
  function OpenLevel(e: Expr): nat {
    match e
    case Binary(op, _, _) => (match PgInfix(op) case Some(p) => p case None => 0)
    case Between(_, _, _, _) => LIKE
    case _ => PRIMARY
  }

  function ParseExpr(ts: seq<Token>, min: nat): (r: Option<(Expr, seq<Token>)>)
    ensures r.Some? ==> |r.value.1| < |ts|
    decreases |ts|, 2
  {
    var (lhs, rest) :- ParseOperand(ts);
    ParseTail(lhs, rest, min)
  }

  function ParseOperand(ts: seq<Token>): (r: Option<(Expr, seq<Token>)>)
    ensures r.Some? ==> |r.value.1| < |ts|
    decreases |ts|, 1
  {
    if ts == [] then None else
    match ts[0]
    case Word(n) => Some((Atom(n), ts[1..]))
    case Fn(f) =>
      if |ts| < 2 || ts[1] != LP then None
      else if |ts| >= 3 && ts[2] == RP then Some((Call(f, Nil), ts[3..]))
      else
        var (args, rest) :- ParseList(ts[2..]);
        if rest == [] || rest[0] != RP then None else Some((Call(f, args), rest[1..]))
    case LP =>
      var (x, rest) :- ParseExpr(ts[1..], 0);
      if rest == [] || rest[0] != RP then None else Some((Paren(x), rest[1..]))
    case Op(op) =>
      var min :- PgPrefix(op);
      var (x, rest) :- ParseExpr(ts[1..], min);
      Some((Unary(op, x), rest))
    case _ => None
  }

  function ParseTail(lhs: Expr, ts: seq<Token>, min: nat): (r: Option<(Expr, seq<Token>)>)
    ensures r.Some? ==> |r.value.1| <= |ts|
    decreases |ts|, 0
  {
    var p := HeadLevel(ts);
    if p < min then Some((lhs, ts))
    else if NonAssoc(p) && OpenLevel(lhs) == p then None  // a = b = c
    else
      match ts[0]
      case Op(op) =>
        var (rhs, rest) :- ParseExpr(ts[1..], p + 1);
        ParseTail(Binary(op, lhs, rhs), rest, min)
      case BetweenKw(n) =>
        var (low, rest) :- ParseExpr(ts[1..], OTHER);
        if rest == [] || rest[0] != Op("AND") then None
        else
          var (high, rest') :- ParseExpr(rest[1..], OTHER);
          ParseTail(Between(n, lhs, low, high), rest', min)
      case InKw(n) =>
        if |ts| < 2 || ts[1] != LP then None
        else
          var (list, rest) :- ParseList(ts[2..]);
          if rest == [] || rest[0] != RP then None
          else ParseTail(In(n, lhs, list), rest[1..], min)
  }

  function ParseList(ts: seq<Token>): (r: Option<(Exprs, seq<Token>)>)
    ensures r.Some? ==> |r.value.1| < |ts|
    decreases |ts|, 3
  {
    var (e, rest) :- ParseExpr(ts, 0);
    if rest != [] && rest[0] == Comma then
      var (es, rest') :- ParseList(rest[1..]);
      Some((Cons(e, es), rest'))
    else Some((Cons(e, Nil), rest))
  }

  function Parse(ts: seq<Token>): Option<Expr> {
    var (e, rest) :- ParseExpr(ts, 0);
    if rest == [] then Some(e) else None
  }

  /* ---- which trees PostgreSQL can read ---- */

  function Least(a: nat, b: nat): nat { if a < b then a else b }

  // Lowest level of a following infix operator that the printed tree would swallow.
  function Grab(e: Expr): nat {
    match e
    case Binary(op, _, r) => Least(OpenLevel(e) + 1, Grab(r))
    case Unary(op, x) => (match PgPrefix(op) case Some(m) => Least(m, Grab(x)) case None => 0)
    case Between(_, _, _, hi) => Least(OTHER, Grab(hi))
    case _ => PRIMARY
  }

  // Lowest level of an infix operator met while reading the tree from its left end.
  function Floor(e: Expr): nat {
    match e
    case Binary(op, l, _) => Least(OpenLevel(e), Floor(l))
    case Between(_, x, _, _) => Least(LIKE, Floor(x))
    case In(_, x, _) => Least(LIKE, Floor(x))
    case _ => PRIMARY
  }

  predicate LeftFits(l: Expr, p: nat) {
    p < Grab(l) && !(NonAssoc(p) && OpenLevel(l) == p)
  }

  // The trees whose printed form groups as the tree does.
  predicate Canonical(e: Expr) {
    match e
    case Atom(_) => true
    case Call(_, args) => CanonicalAll(args)
    case Paren(x) => Canonical(x)
    case Binary(op, l, r) =>
      PgInfix(op).Some? && Canonical(l) && Canonical(r) &&
      LeftFits(l, PgInfix(op).value) && Floor(r) > PgInfix(op).value
    case Unary(op, x) => PgPrefix(op).Some? && Canonical(x) && Floor(x) >= PgPrefix(op).value
    case Between(_, x, lo, hi) =>
      Canonical(x) && Canonical(lo) && Canonical(hi) && LeftFits(x, LIKE) &&
      Floor(lo) >= OTHER && AND < Grab(lo) && Floor(hi) >= OTHER
    case In(_, x, list) => Canonical(x) && LeftFits(x, LIKE) && list.Cons? && CanonicalAll(list)
  }

  predicate CanonicalAll(es: Exprs) {
    match es
    case Nil => true
    case Cons(e, rest) => Canonical(e) && CanonicalAll(rest)
  }
}
