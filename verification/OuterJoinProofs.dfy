/** The rewritten SELECT returns the bag of rows the hinted SELECT means. */
module OuterJoinProofs {
  import opened Text
  import opened Wrappers
  import opened OuterJoin
  import opened OuterJoinSemantics

  /* ---- expressions ---- */

  // An expression depends only on the aliases it reads.
  lemma {:induction false} EvalDepends(it: Interp, e: Expr, r: Row, s: Row)
    requires forall a <- Refs(it, e) :: (a in r <==> a in s) && (a in r ==> r[a] == s[a])
    ensures Eval(it, e, r) == Eval(it, e, s)
  {
    match e
    case Ident(_) =>
    case Literal(_) =>
    case Call(_, args) => EvalAllDepends(it, args, r, s);
    case Binary(_, a, b) => EvalDepends(it, a, r, s); EvalDepends(it, b, r, s);
    case Unary(_, x) => EvalDepends(it, x, r, s);
    case Paren(x) => EvalDepends(it, x, r, s);
    case Hint(x) => EvalDepends(it, x, r, s);
  }

  lemma {:induction false} EvalAllDepends(it: Interp, es: Exprs, r: Row, s: Row)
    requires forall a <- RefsAll(it, es) :: (a in r <==> a in s) && (a in r ==> r[a] == s[a])
    ensures EvalAll(it, es, r) == EvalAll(it, es, s)
  {
    match es
    case Nil =>
    case Cons(e, rest) => EvalDepends(it, e, r, s); EvalAllDepends(it, rest, r, s);
  }

  lemma {:induction false} AndAllConcat(it: Interp, ps: seq<Expr>, qs: seq<Expr>, row: Row)
    requires ps != [] && qs != []
    ensures Eval(it, AndAll(ps + qs), row) == And3(Eval(it, AndAll(ps), row), Eval(it, AndAll(qs), row))
    decreases |qs|
  {
    assert Upper("AND") == "AND";
    var n := |qs| - 1;
    assert (ps + qs)[..|ps + qs| - 1] == ps + qs[..n];
    if n == 0 {
      assert ps + qs[..0] == ps;
    } else {
      AndAllConcat(it, ps, qs[..n], row);
    }
  }

  // Splitting a condition on AND and refolding it keeps its three-valued meaning.
  lemma {:induction false} RegroupKeepsMeaning(it: Interp, e: Expr, row: Row)
    ensures Eval(it, AndAll(Conjuncts(e)), row) == Eval(it, e, row)
  {
    match e
    case Binary(op, l, r) =>
      if IsOp(op, "AND") {
        RegroupKeepsMeaning(it, l, row);
        RegroupKeepsMeaning(it, r, row);
        AndAllConcat(it, Conjuncts(l), Conjuncts(r), row);
      }
    case Paren(x) => RegroupKeepsMeaning(it, x, row);
    case _ =>
  }

  /* ---- rows ---- */

  ghost predicate Over(rows: seq<Row>, aliases: set<string>) {
    forall r <- rows :: r.Keys == aliases
  }

  lemma {:induction false} PairsOver(a: Row, right: seq<Row>, ka: set<string>, kb: set<string>)
    requires a.Keys == ka && Over(right, kb)
    ensures Over(Pairs(a, right), ka + kb)
  {
    if right != [] {
      assert right[0] in right;
      assert Over(right[1..], kb);
      PairsOver(a, right[1..], ka, kb);
    }
  }

  lemma {:induction false} HoldingSubset(it: Interp, on: Expr, rows: seq<Row>)
    ensures forall r <- Holding(it, on, rows) :: r in rows
  {
    if rows != [] {
      HoldingSubset(it, on, rows[1..]);
    }
  }

  function RightKeys(op: Operator, kb: set<string>): set<string> {
    match op case Cross(_) => kb case Outer(_, _, nulls) => nulls
  }

  lemma {:induction false} ApplyOver(op: Operator, it: Interp, left: seq<Row>, ka: set<string>, kb: set<string>)
    requires Over(left, ka) && Over(op.right, kb) && (op.Outer? ==> op.nulls == kb)
    ensures Over(Apply(op, it, left), ka + kb)
  {
    if left != [] {
      assert left[0] in left;
      assert Over(left[1..], ka);
      ApplyOver(op, it, left[1..], ka, kb);
      PairsOver(left[0], op.right, ka, kb);
      if op.Outer? {
        HoldingSubset(it, op.on, Pairs(left[0], op.right));
      }
    }
  }

  lemma {:induction false} ItemOver(it: Interp, db: Db, f: FromItem)
    ensures Over(EvalItem(it, db, f), Aliases(f))
  {
    match f
    case LeftJoin(l, r, on) =>
      ItemOver(it, db, l);
      ItemOver(it, db, r);
      ApplyOver(Outer(EvalItem(it, db, r), on, Aliases(r)), it, EvalItem(it, db, l), Aliases(l), Aliases(r));
    case _ => RowsOfOver(ItemAlias(f), if ItemAlias(f) in db then db[ItemAlias(f)] else []);
  }

  lemma {:induction false} RowsOfOver(alias: string, tuples: seq<Tuple>)
    ensures Over(RowsOf(alias, tuples), {alias})
  {
    if tuples != [] {
      RowsOfOver(alias, tuples[1..]);
    }
  }

  function AllAliases(items: seq<FromItem>): set<string> {
    if items == [] then {} else AllAliases(items[..|items| - 1]) + Aliases(items[|items| - 1])
  }

  lemma {:induction false} FromOver(it: Interp, db: Db, items: seq<FromItem>)
    ensures Over(EvalFrom(it, db, items), AllAliases(items))
  {
    if items != [] {
      var n := |items| - 1;
      FromOver(it, db, items[..n]);
      ItemOver(it, db, items[n]);
      ApplyOver(Cross(EvalItem(it, db, items[n])), it, EvalFrom(it, db, items[..n]), AllAliases(items[..n]),
                Aliases(items[n]));
    }
  }

  /* ---- bags ---- */

  ghost predicate SameBag(a: seq<Row>, b: seq<Row>) {
    multiset(a) == multiset(b)
  }

  lemma {:induction false} ApplyConcat(op: Operator, it: Interp, a: seq<Row>, b: seq<Row>)
    ensures Apply(op, it, a + b) == Apply(op, it, a) + Apply(op, it, b)
  {
    hide Each;
    if a == [] {
      assert a + b == b;
    } else {
      assert (a + b)[1..] == a[1..] + b;
      ApplyConcat(op, it, a[1..], b);
    }
  }

  lemma {:induction false} ApplyAt(op: Operator, it: Interp, rows: seq<Row>, k: nat)
    requires k < |rows|
    ensures SameBag(Apply(op, it, rows), Each(op, it, rows[k]) + Apply(op, it, rows[..k] + rows[k + 1..]))
  {
    assert rows == rows[..k] + ([rows[k]] + rows[k + 1..]);
    ApplyConcat(op, it, rows[..k], [rows[k]] + rows[k + 1..]);
    ApplyConcat(op, it, rows[..k], rows[k + 1..]);
    assert ([rows[k]] + rows[k + 1..])[1..] == rows[k + 1..];
  }

  // Where the first row of a is in an equal bag b, and that the others are the others.
  lemma TakeOut(a: seq<Row>, b: seq<Row>) returns (k: nat)
    requires SameBag(a, b) && a != []
    ensures k < |b| && b[k] == a[0] && SameBag(a[1..], b[..k] + b[k + 1..])
  {
    assert a == [a[0]] + a[1..];
    assert a[0] in multiset(b);
    k :| k < |b| && b[k] == a[0];
    WithoutOne(b, k);
    assert a[..0] + a[1..] == a[1..];
    WithoutOne(a, 0);
  }

  lemma WithoutOne(b: seq<Row>, k: nat)
    requires k < |b|
    ensures multiset(b[..k] + b[k + 1..]) == multiset(b) - multiset{b[k]}
  {
    assert b == b[..k] + ([b[k]] + b[k + 1..]);
    assert multiset(b) == multiset(b[..k]) + multiset{b[k]} + multiset(b[k + 1..]);
  }

  lemma EmptyBag(b: seq<Row>)
    requires SameBag([], b)
    ensures b == []
  {
    assert |multiset(b)| == |b|;
  }

  // Operators see bags, not sequences.
  lemma {:induction false} ApplyCongruent(op: Operator, it: Interp, a: seq<Row>, b: seq<Row>)
    requires SameBag(a, b)
    ensures SameBag(Apply(op, it, a), Apply(op, it, b))
  {
    if a == [] {
      EmptyBag(b);
    } else {
      var k := TakeOut(a, b);
      ApplyCongruent(op, it, a[1..], b[..k] + b[k + 1..]);
      ApplyAt(op, it, b, k);
    }
  }

  lemma {:induction false} HoldingConcat(it: Interp, e: Expr, a: seq<Row>, b: seq<Row>)
    ensures Holding(it, e, a + b) == Holding(it, e, a) + Holding(it, e, b)
  {
    if a == [] {
      assert a + b == b;
    } else {
      assert (a + b)[1..] == a[1..] + b;
      HoldingConcat(it, e, a[1..], b);
    }
  }

  lemma HoldingAt(it: Interp, e: Expr, rows: seq<Row>, k: nat)
    requires k < |rows|
    ensures SameBag(Holding(it, e, rows), Holding(it, e, [rows[k]]) + Holding(it, e, rows[..k] + rows[k + 1..]))
  {
    hide Eval;
    assert rows == rows[..k] + ([rows[k]] + rows[k + 1..]);
    HoldingConcat(it, e, rows[..k], [rows[k]] + rows[k + 1..]);
    HoldingConcat(it, e, [rows[k]], rows[k + 1..]);
    HoldingConcat(it, e, rows[..k], rows[k + 1..]);
  }

  lemma {:induction false} HoldingCongruent(it: Interp, e: Expr, a: seq<Row>, b: seq<Row>)
    requires SameBag(a, b)
    ensures SameBag(Holding(it, e, a), Holding(it, e, b))
  {
    hide Eval;
    if a == [] {
      EmptyBag(b);
    } else {
      var k := TakeOut(a, b);
      HoldingCongruent(it, e, a[1..], b[..k] + b[k + 1..]);
      HoldingAt(it, e, b, k);
      HoldingAt(it, e, a, 0);
      assert a[..0] + a[1..] == a[1..];
    }
  }

  /* ---- a cross product passes through an outer join that does not read it ---- */

  function PlusAll(rows: seq<Row>, b: Row): seq<Row> {
    if rows == [] then [] else [rows[0] + b] + PlusAll(rows[1..], b)
  }

  lemma HoldingCons(it: Interp, e: Expr, row: Row, rest: seq<Row>)
    ensures Holding(it, e, [row] + rest) ==
      if Eval(it, e, row) == Bool(true) then [row] + Holding(it, e, rest) else Holding(it, e, rest)
  {
    assert ([row] + rest)[1..] == rest;
  }

  lemma PlusCons(row: Row, rest: seq<Row>, b: Row)
    ensures PlusAll([row] + rest, b) == [row + b] + PlusAll(rest, b)
  {
    assert ([row] + rest)[1..] == rest;
  }

  // The matches of a + b are the matches of a, extended by b.
  lemma {:induction false} MatchesExtend(it: Interp, on: Expr, a: Row, b: Row, right: seq<Row>, kr: set<string>)
    requires Over(right, kr) && b.Keys !! kr && b.Keys !! a.Keys && b.Keys !! Refs(it, on)
    ensures Holding(it, on, Pairs(a + b, right)) == PlusAll(Holding(it, on, Pairs(a, right)), b)
  {
    hide Eval, Refs;
    if right != [] {
      MatchesExtend(it, on, a, b, right[1..], kr);
      MatchExtends(it, on, a, b, right, kr);
    }
  }

  // One more row on the right.
  lemma MatchExtends(it: Interp, on: Expr, a: Row, b: Row, right: seq<Row>, kr: set<string>)
    requires Over(right, kr) && b.Keys !! kr && b.Keys !! a.Keys && b.Keys !! Refs(it, on) && right != []
    requires Holding(it, on, Pairs(a + b, right[1..])) == PlusAll(Holding(it, on, Pairs(a, right[1..])), b)
    ensures Holding(it, on, Pairs(a + b, right)) == PlusAll(Holding(it, on, Pairs(a, right)), b)
  {
    hide Eval, Refs, Holding, PlusAll, Pairs;
    var r, rest := right[0], right[1..];
    assert r in right;
    PairsCons(a, right);
    PairsCons(a + b, right);
    assert (a + b) + r == (a + r) + b;
    EvalDepends(it, on, (a + r) + b, a + r);
    HoldingCons(it, on, a + r, Pairs(a, rest));
    HoldingCons(it, on, (a + r) + b, Pairs(a + b, rest));
    PlusCons(a + r, Holding(it, on, Pairs(a, rest)), b);
  }

  lemma PairsCons(a: Row, right: seq<Row>)
    requires right != []
    ensures Pairs(a, right) == [a + right[0]] + Pairs(a, right[1..])
  {}

  lemma EachExtends(op: Operator, it: Interp, a: Row, b: Row)
    requires op.Outer? && Over(op.right, op.nulls)
    requires b.Keys !! op.nulls && b.Keys !! a.Keys && b.Keys !! Refs(it, op.on)
    ensures Each(op, it, a + b) == PlusAll(Each(op, it, a), b)
  {
    hide Holding, Pairs, Refs;
    MatchesExtend(it, op.on, a, b, op.right, op.nulls);
    var n := Nulls(op.nulls);
    assert (a + b) + n == (a + n) + b;
    assert PlusAll([a + n], b) == [(a + n) + b] + PlusAll([a + n][1..], b);
  }

  lemma {:induction false} CrossCons(it: Interp, rows: seq<Row>, b: Row, rest: seq<Row>)
    ensures SameBag(Apply(Cross([b] + rest), it, rows), PlusAll(rows, b) + Apply(Cross(rest), it, rows))
  {
    if rows != [] {
      CrossCons(it, rows[1..], b, rest);
      assert ([b] + rest)[1..] == rest;
    }
  }

  lemma {:induction false} CrossNothing(it: Interp, rows: seq<Row>)
    ensures Apply(Cross([]), it, rows) == []
  {
    if rows != [] {
      CrossNothing(it, rows[1..]);
    }
  }

  lemma {:induction false} SwapOne(op: Operator, it: Interp, a: Row, bs: seq<Row>, kb: set<string>)
    requires op.Outer? && Over(op.right, op.nulls) && Over(bs, kb)
    requires kb !! op.nulls && kb !! a.Keys && kb !! Refs(it, op.on)
    ensures SameBag(Apply(op, it, Pairs(a, bs)), Apply(Cross(bs), it, Each(op, it, a)))
  {
    if bs == [] {
      CrossNothing(it, Each(op, it, a));
    } else {
      assert bs[0] in bs && Over(bs[1..], kb);
      SwapOne(op, it, a, bs[1..], kb);
      EachExtends(op, it, a, bs[0]);
      CrossCons(it, Each(op, it, a), bs[0], bs[1..]);
      assert [bs[0]] + bs[1..] == bs;
      assert Pairs(a, bs)[1..] == Pairs(a, bs[1..]);
    }
  }

  lemma {:induction false} Swap(op: Operator, it: Interp, rows: seq<Row>, ka: set<string>, bs: seq<Row>,
      kb: set<string>)
    requires op.Outer? && Over(op.right, op.nulls) && Over(bs, kb) && Over(rows, ka)
    requires kb !! op.nulls && kb !! ka && kb !! Refs(it, op.on)
    ensures SameBag(Apply(op, it, Apply(Cross(bs), it, rows)), Apply(Cross(bs), it, Apply(op, it, rows)))
  {
    if rows != [] {
      assert rows[0] in rows && Over(rows[1..], ka);
      Swap(op, it, rows[1..], ka, bs, kb);
      SwapOne(op, it, rows[0], bs, kb);
      ApplyConcat(op, it, Pairs(rows[0], bs), Apply(Cross(bs), it, rows[1..]));
      ApplyConcat(Cross(bs), it, Each(op, it, rows[0]), Apply(op, it, rows[1..]));
    }
  }
}
