/** Which rows the joins return: what the bags stand for, and that an outer join loses no row of its left side. */
module OuterJoinRows {
  import opened Text
  import opened Wrappers
  import opened OuterJoin
  import opened OuterJoinParts
  import opened OuterJoinSemantics
  import opened OuterJoinProofs
  import opened OuterJoinTheorem
  import opened OuterJoinSides

  lemma {:induction false} PairsExactly(a: Row, right: seq<Row>, r: Row)
    ensures r in Pairs(a, right) <==> exists b <- right :: r == a + b
  {
    if right != [] {
      PairsExactly(a, right[1..], r);
      assert right == [right[0]] + right[1..];
    }
  }

  lemma {:induction false} HoldingExactly(it: Interp, on: Expr, rows: seq<Row>, r: Row)
    ensures r in Holding(it, on, rows) <==> r in rows && Eval(it, on, r) == Bool(true)
  {
    if rows != [] {
      HoldingExactly(it, on, rows[1..], r);
      assert rows == [rows[0]] + rows[1..];
    }
  }

  lemma {:induction false} ApplyExactly(op: Operator, it: Interp, left: seq<Row>, r: Row)
    ensures r in Apply(op, it, left) <==> exists a <- left :: r in Each(op, it, a)
  {
    hide Each;
    if left != [] {
      ApplyExactly(op, it, left[1..], r);
      assert left == [left[0]] + left[1..];
    }
  }

  // A cross product pairs every row of one side with every row of the other.
  lemma CrossExactly(it: Interp, left: seq<Row>, right: seq<Row>, r: Row)
    ensures r in Apply(Cross(right), it, left) <==> exists a <- left :: exists b <- right :: r == a + b
  {
    hide Pairs;
    ApplyExactly(Cross(right), it, left, r);
    forall a | a in left ensures r in Each(Cross(right), it, a) <==> exists b <- right :: r == a + b {
      PairsExactly(a, right, r);
    }
  }

  predicate Matches(it: Interp, on: Expr, a: Row, b: Row) {
    Eval(it, on, a + b) == Bool(true)
  }

  // A left row gives its matches, or is extended with NULLs when it has none.
  ghost predicate Extends(it: Interp, right: seq<Row>, on: Expr, nulls: set<string>, a: Row, r: Row) {
    || (exists b <- right :: r == a + b && Matches(it, on, a, b))
    || (r == a + Nulls(nulls) && forall b <- right :: !Matches(it, on, a, b))
  }

  lemma EachExactly(it: Interp, right: seq<Row>, on: Expr, nulls: set<string>, a: Row, r: Row)
    ensures r in Each(Outer(right, on, nulls), it, a) <==> Extends(it, right, on, nulls, a, r)
  {
    hide Pairs, Holding, Eval;
    PairsExactly(a, right, r);
    var matches := Holding(it, on, Pairs(a, right));
    HoldingExactly(it, on, Pairs(a, right), r);
    if matches == [] {
      forall b | b in right ensures !Matches(it, on, a, b) {
        PairsExactly(a, right, a + b);
        HoldingExactly(it, on, Pairs(a, right), a + b);
      }
    } else {
      var m := matches[0];
      HoldingExactly(it, on, Pairs(a, right), m);
      PairsExactly(a, right, m);
      var b :| b in right && m == a + b;
      assert Matches(it, on, a, b);
    }
  }

  lemma OuterExactly(it: Interp, left: seq<Row>, right: seq<Row>, on: Expr, nulls: set<string>, r: Row)
    ensures r in Apply(Outer(right, on, nulls), it, left) <==> exists a <- left :: Extends(it, right, on, nulls, a, r)
  {
    hide Extends, Each;
    ApplyExactly(Outer(right, on, nulls), it, left, r);
    forall a | a in left ensures r in Each(Outer(right, on, nulls), it, a) <==> Extends(it, right, on, nulls, a, r) {
      EachExactly(it, right, on, nulls, a, r);
    }
  }

  /* ---- the rows of the unhinted tables come back ---- */

  ghost predicate Contains(r: Row, a: Row) {
    forall k <- a :: k in r && r[k] == a[k]
  }

  lemma LeftStays(it: Interp, left: seq<Row>, right: seq<Row>, on: Expr, nulls: set<string>, a: Row, b: Row)
    returns (r: Row)
    requires b in left && Contains(b, a) && Over(right, nulls) && a.Keys !! nulls
    ensures r in Apply(Outer(right, on, nulls), it, left) && Contains(r, a)
  {
    hide Eval, Each;
    if c :| c in right && Matches(it, on, b, c) {
      r := b + c;
    } else {
      r := b + Nulls(nulls);
    }
    assert Extends(it, right, on, nulls, b, r);
    OuterExactly(it, left, right, on, nulls, r);
  }

  lemma {:induction false} OuterAllKeeps(it: Interp, db: Db, items: seq<FromItem>, index: map<string, nat>,
                                         hinted: seq<string>, js: seq<JoinPred>, rows: seq<Row>, a: Row)
    returns (r: Row)
    requires forall h <- hinted :: h in index && index[h] < |items| && OnOf(js, h) != []
    requires a in rows && forall h <- hinted :: Aliases(items[index[h]]) !! a.Keys
    ensures r in OuterAll(it, db, items, index, hinted, js, rows) && Contains(r, a)
  {
    hide Apply, AndAll, OnOf, Aliases, EvalItem;
    r := a;
    if hinted != [] {
      var h, before := hinted[|hinted| - 1], hinted[..|hinted| - 1];
      var item := items[index[h]];
      var b := OuterAllKeeps(it, db, items, index, before, js, rows, a);
      ItemOver(it, db, item);
      r := LeftStays(it, OuterAll(it, db, items, index, before, js, rows), EvalItem(it, db, item),
                     AndAll(OnOf(js, h)), Aliases(item), a, b);
    }
  }

  // The items that no hint names, in order.
  ghost function UnmarkedItems(items: seq<FromItem>, ps: seq<Expr>): seq<FromItem> {
    if items == [] then []
    else
      UnmarkedItems(items[..|items| - 1], ps) +
      (if Marked(ps, items[|items| - 1]) then [] else [items[|items| - 1]])
  }

  lemma {:induction false} UnmarkedAre(items: seq<FromItem>, ps: seq<Expr>, hinted: seq<string>)
    requires forall f <- items :: Marked(ps, f) <==> ItemAlias(f) in hinted
    ensures UnmarkedItems(items, ps) == Unhinted(items, hinted)
    ensures forall f <- UnmarkedItems(items, ps) :: exists i :: 0 <= i < |items| && items[i] == f && !Marked(ps, f)
  {
    hide Marked, ItemAlias;
    if items != [] {
      var n := |items| - 1;
      UnmarkedAre(items[..n], ps, hinted);
      assert items[n] in items;
      forall f | f in UnmarkedItems(items, ps) ensures exists i :: 0 <= i < |items| && items[i] == f && !Marked(ps, f) {
        if f in UnmarkedItems(items[..n], ps) {
          var i :| 0 <= i < n && items[..n][i] == f && !Marked(ps, f);
          assert items[i] == f;
        }
      }
    }
  }

  // Where every condition has a hint, each combination of rows of the tables that no hint names is in the result of
  // the rewritten SELECT, joined to rows that match or to NULLs: the tables that are hinted lose nothing of the rest.
  lemma UnhintedRowsStay(it: Interp, db: Db, sel: Select, a: Row) returns (r: Row)
    requires Rewrites(sel) && AcceptedByPostgres(it, sel) && Scoped(it, sel)
    requires forall p <- Conjuncts(sel.where.value) :: Hints(p) > 0
    requires a in EvalFrom(it, db, UnmarkedItems(sel.from, Conjuncts(sel.where.value)))
    ensures r in EvalSelect(it, db, Rewritten(sel)) && Contains(r, a)
  {
    hide Conjuncts, AliasIndex, Joins, Order, Hints, Marked, Chain, Contains, ItemAlias, AllJoin, Rewritten, JoinsItem,
      OnceEach, InScope, Scoped, EvalFrom, OuterAll, Aliases, UnmarkedItems, BaseFrom, OnOf, EvalItem, OrHidesHint,
      Joinable, Accepted;
    var items, index, ps := sel.from, AliasIndex(sel.from), Conjuncts(sel.where.value);
    var js := Joins(ps, index.Keys);
    var base := ChainFirst(sel);
    MarksAreHints(sel);
    UnmarkedAre(items, ps, Order(js));
    OnceApart(items);
    FromOver(it, db, UnmarkedItems(items, ps));
    forall h | h in Order(js) ensures Aliases(items[index[h]]) !! a.Keys {
      ApartFromMarked(items, ps, index[h]);
    }
    var unmarked := EvalFrom(it, db, UnmarkedItems(items, ps));
    ItStays(a);
    r := OuterAllKeeps(it, db, items, index, Order(js), js, unmarked, a);
    NoResiduals(ps);
    RewriteKeepsBag(it, db, sel);
    assert Reference(it, db, sel) == OuterAll(it, db, items, index, Order(js), js, unmarked);
    assert r in multiset(Reference(it, db, sel));
  }

  lemma ItStays(a: Row)
    ensures Contains(a, a)
  {}

  lemma {:induction false} NoResiduals(ps: seq<Expr>)
    requires forall p <- ps :: Hints(p) > 0
    ensures Residuals(ps) == []
  {
    hide Hints;
    if ps != [] {
      NoResiduals(ps[..|ps| - 1]);
    }
  }

  // The items of the hinted aliases are those that hints name.
  lemma MarksAreHints(sel: Select)
    requires Rewrites(sel)
    ensures var ps := Conjuncts(sel.where.value);
      var hinted := Order(Joins(ps, AliasIndex(sel.from).Keys));
      && (forall f <- sel.from :: Marked(ps, f) <==> ItemAlias(f) in hinted)
      && (forall h <- hinted :: h in AliasIndex(sel.from) && AliasIndex(sel.from)[h] < |sel.from| &&
            Marked(ps, sel.from[AliasIndex(sel.from)[h]]))
  {
    hide Conjuncts, AliasIndex, Joins, Order, Marked, Hints, AllJoin, JoinsItem, Chain, ItemAlias;
    RewritesExactly(sel);
    var items, index, ps := sel.from, AliasIndex(sel.from), Conjuncts(sel.where.value);
    AllJoinParts(items, ps);
    var base := ChainFirst(sel);
    forall f ensures Marked(ps, f) <==> ItemAlias(f) in Order(Joins(ps, index.Keys)) {
      MarkedExactly(items, ps, f);
    }
    assert forall h <- index :: ItemAlias(items[index[h]]) == h;
  }

  lemma ApartFromMarked(items: seq<FromItem>, ps: seq<Expr>, i: nat)
    requires PairwiseApart(items) && i < |items| && Marked(ps, items[i])
    requires forall f <- UnmarkedItems(items, ps) :: exists k :: 0 <= k < |items| && items[k] == f && !Marked(ps, f)
    ensures AllAliases(UnmarkedItems(items, ps)) !! Aliases(items[i])
  {
    hide Marked, UnmarkedItems, Aliases;
    forall f | f in UnmarkedItems(items, ps) ensures Aliases(f) !! Aliases(items[i]) {
      var k :| 0 <= k < |items| && items[k] == f && !Marked(ps, f);
      assert k != i;
    }
    AllApart(UnmarkedItems(items, ps), Aliases(items[i]));
  }
}
