/** Bags of rows: what a FROM list, a LEFT JOIN chain and a WHERE clause return. */
module OuterJoinSemantics {
  import opened Text
  import opened Wrappers
  import opened OuterJoin

  datatype Value = Null | Bool(b: bool) | Datum(d: int)

  type Tuple = map<string, Value>

  // Alias to tuple; None is a tuple extended with NULLs.
  type Row = map<string, Option<Tuple>>

  // What operators, functions and literals mean, and which alias owns an unqualified column.
  datatype Interp = Interp(apply: (string, seq<Value>) -> Value, literal: string -> Value, owner: string -> string)

  // Kleene conjunction.
  function And3(a: Value, b: Value): Value {
    if a == Bool(false) || b == Bool(false) then Bool(false)
    else if a == Bool(true) && b == Bool(true) then Bool(true)
    else Null
  }

  function Owner(it: Interp, parts: seq<string>): string {
    if parts == [] then "" else if |parts| == 1 then it.owner(parts[0]) else Lower(parts[0])
  }

  function Column(row: Row, alias: string, column: string): Value {
    if alias in row && row[alias].Some? && column in row[alias].value then row[alias].value[column] else Null
  }

  function Eval(it: Interp, e: Expr, row: Row): Value {
    match e
    case Ident(parts) => if parts == [] then Null else Column(row, Owner(it, parts), parts[|parts| - 1])
    case Literal(text) => it.literal(text)
    case Call(f, args) => it.apply(f, EvalAll(it, args, row))
    case Binary(op, l, r) =>
      if IsOp(op, "AND") then And3(Eval(it, l, row), Eval(it, r, row))
      else it.apply(op, [Eval(it, l, row), Eval(it, r, row)])
    case Unary(op, x) => it.apply(op, [Eval(it, x, row)])
    case Paren(x) => Eval(it, x, row)
    case Hint(x) => Eval(it, x, row)
  }

  function EvalAll(it: Interp, es: Exprs, row: Row): seq<Value> {
    match es
    case Nil => []
    case Cons(e, rest) => [Eval(it, e, row)] + EvalAll(it, rest, row)
  }

  // The aliases an expression reads.
  function Refs(it: Interp, e: Expr): set<string> {
    match e
    case Ident(parts) => {Owner(it, parts)}
    case Literal(_) => {}
    case Call(_, args) => RefsAll(it, args)
    case Binary(_, l, r) => Refs(it, l) + Refs(it, r)
    case Unary(_, x) => Refs(it, x)
    case Paren(x) => Refs(it, x)
    case Hint(x) => Refs(it, x)
  }

  function RefsAll(it: Interp, es: Exprs): set<string> {
    match es
    case Nil => {}
    case Cons(e, rest) => Refs(it, e) + RefsAll(it, rest)
  }

  /* ---- operators on bags, as sequences of rows ---- */

  function Nulls(aliases: set<string>): Row {
    map a | a in aliases :: None
  }

  function Pairs(a: Row, right: seq<Row>): seq<Row> {
    if right == [] then [] else [a + right[0]] + Pairs(a, right[1..])
  }

  function Holding(it: Interp, on: Expr, rows: seq<Row>): seq<Row> {
    if rows == [] then []
    else (if Eval(it, on, rows[0]) == Bool(true) then [rows[0]] else []) + Holding(it, on, rows[1..])
  }

  datatype Operator = Cross(right: seq<Row>) | Outer(right: seq<Row>, on: Expr, nulls: set<string>)

  // What one left row contributes.
  function Each(op: Operator, it: Interp, a: Row): seq<Row> {
    match op
    case Cross(right) => Pairs(a, right)
    case Outer(right, on, nulls) =>
      var matches := Holding(it, on, Pairs(a, right));
      if matches == [] then [a + Nulls(nulls)] else matches
  }

  function Apply(op: Operator, it: Interp, left: seq<Row>): seq<Row> {
    if left == [] then [] else Each(op, it, left[0]) + Apply(op, it, left[1..])
  }

  /* ---- queries ---- */

  type Db = map<string, seq<Tuple>>

  function Aliases(f: FromItem): set<string> {
    match f
    case LeftJoin(l, r, _) => Aliases(l) + Aliases(r)
    case _ => {ItemAlias(f)}
  }

  function RowsOf(alias: string, tuples: seq<Tuple>): seq<Row> {
    if tuples == [] then [] else [map[alias := Some(tuples[0])]] + RowsOf(alias, tuples[1..])
  }

  function EvalItem(it: Interp, db: Db, f: FromItem): seq<Row> {
    match f
    case LeftJoin(l, r, on) => Apply(Outer(EvalItem(it, db, r), on, Aliases(r)), it, EvalItem(it, db, l))
    case _ => RowsOf(ItemAlias(f), if ItemAlias(f) in db then db[ItemAlias(f)] else [])
  }

  // The comma list: a cross product.
  function EvalFrom(it: Interp, db: Db, items: seq<FromItem>): seq<Row> {
    if items == [] then [map[]]
    else Apply(Cross(EvalItem(it, db, items[|items| - 1])), it, EvalFrom(it, db, items[..|items| - 1]))
  }

  function Where(it: Interp, where: Option<Expr>, rows: seq<Row>): seq<Row> {
    match where
    case None => rows
    case Some(e) => Holding(it, e, rows)
  }

  function EvalSelect(it: Interp, db: Db, sel: Select): seq<Row> {
    Where(it, sel.where, EvalFrom(it, db, sel.from))
  }

  /* ---- what the hinted SELECT means ---- */

  function Unhinted(items: seq<FromItem>, hinted: seq<string>): seq<FromItem> {
    if items == [] then []
    else Unhinted(items[..|items| - 1], hinted) +
         (if ItemAlias(items[|items| - 1]) in hinted then [] else [items[|items| - 1]])
  }

  // Each hinted table is left-joined on its tagged predicates, in order.
  function OuterAll(it: Interp, db: Db, items: seq<FromItem>, index: map<string, nat>, hinted: seq<string>,
                    js: seq<JoinPred>, rows: seq<Row>): seq<Row>
    requires forall h <- hinted :: h in index && index[h] < |items| && OnOf(js, h) != []
  {
    if hinted == [] then rows
    else
      var h := hinted[|hinted| - 1];
      var item := items[index[h]];
      Apply(Outer(EvalItem(it, db, item), AndAll(OnOf(js, h)), Aliases(item)), it,
            OuterAll(it, db, items, index, hinted[..|hinted| - 1], js, rows))
  }

  // The cross product of the unhinted tables, left-joined to each hinted table on its tagged
  // predicates, filtered by the other conjuncts.
  function Reference(it: Interp, db: Db, sel: Select): seq<Row>
    requires Rewrites(sel)
  {
    var index := AliasIndex(sel.from);
    var ps := Conjuncts(sel.where.value);
    var js := Joins(ps, index.Keys);
    OrderedHaveConjuncts(js);
    Where(it, if Residuals(ps) == [] then None else Some(AndAll(Residuals(ps))),
          OuterAll(it, db, sel.from, index, Order(js), js,
                   EvalFrom(it, db, Unhinted(sel.from, Order(js)))))
  }

  // PostgreSQL accepts a FROM item when each ON clause reads only the tables it joins.
  predicate InScope(it: Interp, f: FromItem) {
    match f
    case LeftJoin(l, r, on) => InScope(it, l) && InScope(it, r) && Refs(it, on) <= Aliases(l) + Aliases(r)
    case _ => true
  }
}
