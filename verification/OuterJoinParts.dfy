/** What the rewritten SELECT is made of, and what a refused one is left as. */
module OuterJoinParts {
  import opened Text
  import opened Wrappers
  import opened OuterJoin

  /* ---- hints ---- */

  lemma {:induction false} StripRemovesHints(e: Expr)
    ensures Hints(Strip(e)) == 0
  {
    match e
    case Ident(_) =>
    case Literal(_) =>
    case Call(_, args) => StripAllRemovesHints(args);
    case Binary(_, l, r) => StripRemovesHints(l); StripRemovesHints(r);
    case Unary(_, x) => StripRemovesHints(x);
    case Paren(x) => StripRemovesHints(x);
    case Hint(x) => StripRemovesHints(x);
  }

  lemma {:induction false} StripAllRemovesHints(es: Exprs)
    ensures HintsAll(StripAll(es)) == 0
  {
    match es
    case Nil =>
    case Cons(e, rest) => StripRemovesHints(e); StripAllRemovesHints(rest);
  }

  // Stripping changes exactly the trees that hold a hint.
  lemma {:induction false} StripChangesHinted(e: Expr)
    ensures Strip(e) == e <==> Hints(e) == 0
  {
    StripRemovesHints(e);
    if Hints(e) == 0 {
      StripKeepsUnhinted(e);
    }
  }

  lemma {:induction false} StripKeepsUnhinted(e: Expr)
    requires Hints(e) == 0
    ensures Strip(e) == e
  {
    match e
    case Ident(_) =>
    case Literal(_) =>
    case Call(_, args) => StripAllKeepsUnhinted(args);
    case Binary(_, l, r) => StripKeepsUnhinted(l); StripKeepsUnhinted(r);
    case Unary(_, x) => StripKeepsUnhinted(x);
    case Paren(x) => StripKeepsUnhinted(x);
  }

  lemma {:induction false} StripAllKeepsUnhinted(es: Exprs)
    requires HintsAll(es) == 0
    ensures StripAll(es) == es
  {
    match es
    case Nil =>
    case Cons(e, rest) => StripKeepsUnhinted(e); StripAllKeepsUnhinted(rest);
  }

  /* ---- every conjunct in exactly one place ---- */

  function Stripped(ps: seq<Expr>): seq<Expr> {
    seq(|ps|, i requires 0 <= i < |ps| => Strip(ps[i]))
  }

  // The ON predicates, alias by alias.
  function OnClauses(js: seq<JoinPred>, order: seq<string>): seq<Expr> {
    if order == [] then [] else OnClauses(js, order[..|order| - 1]) + OnOf(js, order[|order| - 1])
  }

  lemma {:induction false} AddedPred(js: seq<JoinPred>, j: JoinPred, order: seq<string>)
    requires forall i, k :: 0 <= i < k < |order| ==> order[i] != order[k]
    ensures multiset(OnClauses(js + [j], order)) ==
      multiset(OnClauses(js, order)) + (if j.hinted in order then multiset{j.on} else multiset{})
  {
    hide OnOf;
    if order != [] {
      var before, h := order[..|order| - 1], order[|order| - 1];
      AddedPred(js, j, before);
      OnOfMore(js, j, h);
      assert order == before + [h];
      Pushed(OnClauses(js, before), OnOf(js, h), OnClauses(js + [j], before), OnOf(js + [j], h), j.on);
    }
  }

  lemma OnOfMore(js: seq<JoinPred>, j: JoinPred, h: string)
    ensures OnOf(js + [j], h) == OnOf(js, h) + if j.hinted == h then [j.on] else []
  {
    assert (js + [j])[..|js + [j]| - 1] == js;
  }

  // One element more on one side is one more in all.
  lemma Pushed<T>(a: seq<T>, b: seq<T>, c: seq<T>, d: seq<T>, x: T)
    ensures multiset(a + b) == multiset(a) + multiset(b) && multiset(c + d) == multiset(c) + multiset(d)
    ensures multiset(b + [x]) == multiset(b) + multiset{x}
  {}

  lemma {:induction false} UnusedAlias(js: seq<JoinPred>, h: string)
    requires h !in Order(js)
    ensures OnOf(js, h) == []
  {
    if js != [] {
      UnusedAlias(js[..|js| - 1], h);
    }
  }

  function Preds(js: seq<JoinPred>): seq<Expr> {
    seq(|js|, i requires 0 <= i < |js| => js[i].on)
  }

  lemma PredsAppend(js: seq<JoinPred>, j: JoinPred)
    ensures Preds(js + [j]) == Preds(js) + [j.on]
  {}

  lemma NewAlias(js: seq<JoinPred>, j: JoinPred, order: seq<string>)
    requires OnOf(js, j.hinted) == []
    ensures OnClauses(js + [j], order + [j.hinted]) == OnClauses(js + [j], order) + [j.on]
  {
    assert (order + [j.hinted])[..|order|] == order;
    assert (js + [j])[..|js|] == js;
  }

  lemma {:induction false} GroupedOnce(js: seq<JoinPred>)
    ensures multiset(OnClauses(js, Order(js))) == multiset(Preds(js))
  {
    if js != [] {
      hide OnClauses, Preds, OnOf;
      var before, j := js[..|js| - 1], js[|js| - 1];
      assert js == before + [j];
      GroupedOnce(before);
      OrderedHaveConjuncts(before);
      AddedPred(before, j, Order(before));
      PredsAppend(before, j);
      if j.hinted !in Order(before) {
        UnusedAlias(before, j.hinted);
        NewAlias(before, j, Order(before));
      }
    } else {
      assert OnClauses(js, Order(js)) == Preds(js);
    }
  }

  lemma {:induction false} SortedOnce(ps: seq<Expr>, aliases: set<string>)
    requires forall p <- ps :: ClassOf(p, aliases) != Refused
    ensures multiset(Preds(Joins(ps, aliases))) + multiset(Residuals(ps)) == multiset(Stripped(ps))
  {
    if ps == [] {
      assert Preds(Joins(ps, aliases)) == [] && Stripped(ps) == [];
    } else {
      hide Preds, Stripped, Strip, Joins, Residuals, ClassOf;
      var n := |ps| - 1;
      var js, rest, last := Joins(ps[..n], aliases), Residuals(ps[..n]), ps[n];
      SortedOnce(ps[..n], aliases);
      StrippedAppend(ps);
      SortedAppend(ps, aliases);
      Snoc(Stripped(ps[..n]), Strip(last));
      Snoc(rest, last);
      Snoc(Preds(js), Strip(last));
    }
  }

  // Each conjunct goes to one side, stripped.
  lemma SortedAppend(ps: seq<Expr>, aliases: set<string>)
    requires ps != [] && ClassOf(ps[|ps| - 1], aliases) != Refused
    ensures var n := |ps| - 1;
      var js, rest := Joins(ps[..n], aliases), Residuals(ps[..n]);
      || (Preds(Joins(ps, aliases)) == Preds(js) + [Strip(ps[n])] && Residuals(ps) == rest)
      || (Joins(ps, aliases) == js && Residuals(ps) == rest + [ps[n]] && Strip(ps[n]) == ps[n])
  {
    hide Preds, HintedAlias, Strip;
    var n := |ps| - 1;
    match ClassOf(ps[n], aliases)
    case JoinsOn(a) => PredsAppend(Joins(ps[..n], aliases), JoinPred(a, Strip(ps[n])));
    case Stays => StripKeepsUnhinted(ps[n]);
  }

  lemma StrippedAppend(ps: seq<Expr>)
    requires ps != []
    ensures Stripped(ps) == Stripped(ps[..|ps| - 1]) + [Strip(ps[|ps| - 1])]
  {}

  /* ---- every FROM item in exactly one place ---- */

  // The items of the chain: the base, then the hinted items.
  function ChainItems(items: seq<FromItem>, index: map<string, nat>, base: nat, hinted: seq<string>): seq<FromItem>
    requires base < |items| && forall h <- hinted :: h in index && index[h] < |items|
  {
    if hinted == [] then [items[base]]
    else ChainItems(items, index, base, hinted[..|hinted| - 1]) + [items[index[hinted[|hinted| - 1]]]]
  }

  function Picked(items: seq<FromItem>, used: set<nat>): seq<FromItem> {
    if items == [] then []
    else Picked(items[..|items| - 1], used) + (if |items| - 1 in used then [items[|items| - 1]] else [])
  }

  lemma OneMore<T>(all: seq<T>, a: seq<T>, b: seq<T>, x: T)
    requires multiset(all) == multiset(a) + multiset(b)
    ensures multiset(all + [x]) == multiset(a + [x]) + multiset(b) == multiset(a) + multiset(b + [x])
  {
    assert multiset(all + [x]) == multiset(all) + multiset{x};
    assert multiset(a + [x]) == multiset(a) + multiset{x};
    assert multiset(b + [x]) == multiset(b) + multiset{x};
  }

  lemma {:induction false} PickedOrLeft(items: seq<FromItem>, used: set<nat>)
    ensures multiset(items) == multiset(Picked(items, used)) + multiset(LeftOver(items, used))
  {
    if items != [] {
      var n := |items| - 1;
      var before, x := items[..n], items[n];
      PickedOrLeft(before, used);
      OneMore(before, Picked(before, used), LeftOver(before, used), x);
      assert items == before + [x];
      assert Picked(items, used) == if n in used then Picked(before, used) + [x] else Picked(before, used);
      assert LeftOver(items, used) == if n in used then LeftOver(before, used) else LeftOver(before, used) + [x];
      hide Picked, LeftOver;
    }
  }

  lemma Picking(items: seq<FromItem>, used: set<nat>)
    requires items != []
    ensures var n := |items| - 1;
      Picked(items, used) == Picked(items[..n], used) + if n in used then [items[n]] else []
  {}

  lemma {:induction false} PickOne(items: seq<FromItem>, used: set<nat>, k: nat)
    requires k !in used
    ensures multiset(Picked(items, used + {k})) ==
      multiset(Picked(items, used)) + (if k < |items| then multiset{items[k]} else multiset{})
  {
    hide Picked;
    if items == [] {
      PickedEmpty(used);
      PickedEmpty(used + {k});
    } else {
      var n := |items| - 1;
      var a, b := Picked(items[..n], used), Picked(items[..n], used + {k});
      PickOne(items[..n], used, k);
      Picking(items, used);
      Picking(items, used + {k});
      Snoc(a, items[n]);
      Snoc(b, items[n]);
      if n == k {
        assert Picked(items, used) == a && Picked(items, used + {k}) == b + [items[n]];
      } else if n in used {
        assert Picked(items, used) == a + [items[n]] && Picked(items, used + {k}) == b + [items[n]];
      } else {
        assert Picked(items, used) == a && Picked(items, used + {k}) == b;
      }
    }
  }

  lemma PickedEmpty(used: set<nat>)
    ensures Picked([], used) == []
  {}

  lemma Snoc<T>(a: seq<T>, x: T)
    ensures multiset(a + [x]) == multiset(a) + multiset{x} && a + [] == a
  {}

  lemma {:induction false} PickNone(items: seq<FromItem>)
    ensures Picked(items, {}) == []
  {
    if items != [] {
      PickNone(items[..|items| - 1]);
    }
  }

  lemma {:induction false} ChainPicks(items: seq<FromItem>, index: map<string, nat>, base: nat, hinted: seq<string>)
    requires base < |items| && (forall h <- hinted :: h in index && index[h] < |items|)
    requires Joinable(index, base, hinted)
    ensures multiset(ChainItems(items, index, base, hinted)) == multiset(Picked(items, Used(index, base, hinted)))
  {
    if hinted == [] {
      assert Used(index, base, hinted) == {} + {base};
      PickOne(items, {}, base);
      PickNone(items);
    } else {
      var before, h := hinted[..|hinted| - 1], hinted[|hinted| - 1];
      assert forall g <- before :: g in hinted;
      ChainPicks(items, index, base, before);
      assert Used(index, base, hinted) == Used(index, base, before) + {index[h]};
      PickOne(items, Used(index, base, before), index[h]);
    }
  }

  // The chain and what it leaves over are the items.
  lemma ItemsPartition(items: seq<FromItem>, hinted: seq<string>)
    requires AliasIndex(items) != map[] && Joinable(AliasIndex(items), Base(items, hinted), hinted)
    ensures var index, base := AliasIndex(items), Base(items, hinted);
      base < |items| &&
      multiset(ChainItems(items, index, base, hinted) + LeftOver(items, Used(index, base, hinted))) == multiset(items)
  {
    hide AliasIndex;
    IndexedItems(items);
    BaseInRange(items, hinted, 0);
    ChainPicks(items, AliasIndex(items), Base(items, hinted), hinted);
    PickedOrLeft(items, Used(AliasIndex(items), Base(items, hinted), hinted));
  }

  /* ---- the parts of a FROM list ---- */

  // What f finds in each item, in order.
  function Gather<T>(items: seq<FromItem>, f: FromItem -> seq<T>): seq<T> {
    if items == [] then [] else Gather(items[..|items| - 1], f) + f(items[|items| - 1])
  }

  lemma {:induction false} GatherBoth<T>(a: seq<FromItem>, b: seq<FromItem>, f: FromItem -> seq<T>)
    ensures Gather(a + b, f) == Gather(a, f) + Gather(b, f)
  {
    hide Gather;
    if b == [] {
      assert a + b == a;
      GatherNothing(f);
    } else {
      var before, x := b[..|b| - 1], b[|b| - 1];
      GatherBoth(a, before, f);
      GatherLast(b, f);
      GatherLast(a + b, f);
      assert (a + b)[..|a + b| - 1] == a + before && (a + b)[|a + b| - 1] == x;
    }
  }

  lemma GatherNothing<T>(f: FromItem -> seq<T>)
    ensures Gather([], f) == []
  {}

  lemma GatherLast<T>(items: seq<FromItem>, f: FromItem -> seq<T>)
    requires items != []
    ensures Gather(items, f) == Gather(items[..|items| - 1], f) + f(items[|items| - 1])
  {}

  lemma GatherOne<T>(x: FromItem, f: FromItem -> seq<T>)
    ensures Gather([x], f) == f(x)
  {
    assert [x][..0] == [];
  }

  // The order of the items does not matter to what is found, but for its order.
  lemma {:induction false} GatherBag<T>(a: seq<FromItem>, b: seq<FromItem>, f: FromItem -> seq<T>)
    requires multiset(a) == multiset(b)
    ensures multiset(Gather(a, f)) == multiset(Gather(b, f))
  {
    hide Gather;
    if a == [] {
      assert multiset(b) == multiset{};
      assert b == [];
    } else {
      var before, x := a[..|a| - 1], a[|a| - 1];
      var i := SameBut(a, b);
      var l, r := b[..i], b[i + 1..];
      assert a == before + [x] && b == l + [x] + r;
      GatherBag(before, l + r, f);
      GatherBoth(before, [x], f);
      GatherOne(x, f);
      GatherAround(l, x, r, f);
      GatherBoth(l, r, f);
      Inserted(Gather(before, f), Gather(l, f), Gather(r, f), f(x));
    }
  }

  lemma GatherAround<T>(l: seq<FromItem>, x: FromItem, r: seq<FromItem>, f: FromItem -> seq<T>)
    ensures Gather(l + [x] + r, f) == Gather(l, f) + f(x) + Gather(r, f)
  {
    GatherBoth(l + [x], r, f);
    GatherBoth(l, [x], f);
    GatherOne(x, f);
  }

  lemma GatherSplit<T>(items: seq<FromItem>, i: nat, f: FromItem -> seq<T>)
    requires i < |items|
    ensures Gather(items, f) == Gather(items[..i], f) + f(items[i]) + Gather(items[i + 1..], f)
  {
    hide Gather;
    SplitAt(items, i);
    GatherAround(items[..i], items[i], items[i + 1..], f);
  }

  lemma SplitAt<T>(s: seq<T>, i: nat)
    requires i < |s|
    ensures s == s[..i] + [s[i]] + s[i + 1..]
  {}

  lemma Inserted<T>(a: seq<T>, l: seq<T>, r: seq<T>, x: seq<T>)
    requires multiset(a) == multiset(l + r)
    ensures multiset(a + x) == multiset(l + x + r)
  {
    assert multiset(a + x) == multiset(a) + multiset(x);
    assert multiset(l + x + r) == multiset(l) + multiset(x) + multiset(r);
  }

  // Where the last of a is found in b.
  lemma SameBut<T>(a: seq<T>, b: seq<T>) returns (i: nat)
    requires a != [] && multiset(a) == multiset(b)
    ensures i < |b| && b[i] == a[|a| - 1] && multiset(a[..|a| - 1]) == multiset(b[..i] + b[i + 1..])
  {
    var before, x := a[..|a| - 1], a[|a| - 1];
    assert a == before + [x] && x in multiset(a);
    assert x in multiset(b);
    i :| 0 <= i < |b| && b[i] == x;
    SplitAt(b, i);
    TakenOut(before, x, b[..i], b[i + 1..]);
  }

  lemma TakenOut<T>(a: seq<T>, x: T, l: seq<T>, r: seq<T>)
    requires multiset(a + [x]) == multiset(l + [x] + r)
    ensures multiset(a) == multiset(l + r)
  {
    assert multiset(a + [x]) == multiset(a) + multiset{x};
    assert multiset(l + [x] + r) == multiset(l) + multiset{x} + multiset(r);
    assert multiset(l + r) == multiset(l) + multiset(r);
    OneLess(multiset(a), multiset(l + r), x);
  }

  lemma OneLess<T>(a: multiset<T>, b: multiset<T>, x: T)
    requires a + multiset{x} == b + multiset{x}
    ensures a == b
  {
    assert a == a + multiset{x} - multiset{x} && b == b + multiset{x} - multiset{x};
  }

  // The tables and subqueries of an item.
  function Leaves(f: FromItem): seq<FromItem> {
    match f
    case LeftJoin(l, r, _) => Leaves(l) + Leaves(r)
    case _ => [f]
  }

  // The conjuncts of its ON clauses.
  function OnConjuncts(f: FromItem): seq<Expr> {
    match f
    case LeftJoin(l, r, on) => OnConjuncts(l) + OnConjuncts(r) + Conjuncts(on)
    case _ => []
  }

  function WhereConjuncts(sel: Select): seq<Expr> {
    match sel.where
    case None => []
    case Some(e) => Conjuncts(e)
  }

  lemma {:induction false} ChainLeaves(items: seq<FromItem>, index: map<string, nat>, base: nat, hinted: seq<string>,
                                       js: seq<JoinPred>)
    requires base < |items| && (forall h <- hinted :: h in index && index[h] < |items| && OnOf(js, h) != [])
    ensures Leaves(Chain(items, index, base, hinted, js)) == Gather(ChainItems(items, index, base, hinted), Leaves)
  {
    if hinted == [] {
      GatherOne(items[base], Leaves);
    } else {
      var before, x := hinted[..|hinted| - 1], items[index[hinted[|hinted| - 1]]];
      ChainLeaves(items, index, base, before, js);
      GatherBoth(ChainItems(items, index, base, before), [x], Leaves);
      GatherOne(x, Leaves);
    }
  }

  // A conjunct holds no others.
  predicate Single(p: Expr) {
    Conjuncts(p) == [p]
  }

  lemma {:induction false} ConjunctsSingle(e: Expr)
    ensures forall p <- Conjuncts(e) :: Single(p)
  {
    match e
    case Binary(op, l, r) =>
      if IsOp(op, "AND") {
        ConjunctsSingle(l);
        ConjunctsSingle(r);
      }
    case Paren(x) => ConjunctsSingle(x);
    case _ =>
  }

  lemma {:induction false} FoldedConjuncts(ps: seq<Expr>)
    requires ps != [] && forall p <- ps :: Single(p)
    ensures Conjuncts(AndAll(ps)) == ps
  {
    var n := |ps| - 1;
    assert Single(ps[n]);
    if n > 0 {
      FoldedConjuncts(ps[..n]);
      assert Upper("AND") == "AND";
      assert Conjuncts(Binary("AND", AndAll(ps[..n]), ps[n])) == ps[..n] + [ps[n]];
    }
  }

  // Where every step leaves a predicate without AND, its conjuncts stay single.
  lemma {:induction false} JoinsSingle(ps: seq<Expr>, aliases: set<string>)
    requires forall p <- ps :: Single(p)
    ensures forall j <- Joins(ps, aliases) :: Single(j.on)
  {
    if ps != [] {
      JoinsSingle(ps[..|ps| - 1], aliases);
      hide IdentAlias, Hints;
      assert Single(ps[|ps| - 1]);
    }
  }

  lemma {:induction false} OnOfMembers(js: seq<JoinPred>, h: string)
    ensures forall p <- OnOf(js, h) :: exists j <- js :: j.on == p
  {
    if js != [] {
      OnOfMembers(js[..|js| - 1], h);
      forall p | p in OnOf(js, h) ensures exists j <- js :: j.on == p {
        if p in OnOf(js[..|js| - 1], h) {
          var j :| j in js[..|js| - 1] && j.on == p;
          assert j in js;
        } else {
          assert js[|js| - 1] in js;
        }
      }
    }
  }

  lemma {:induction false} ResidualsSingle(ps: seq<Expr>)
    requires forall p <- ps :: Single(p)
    ensures forall p <- Residuals(ps) :: Single(p)
  {
    if ps != [] {
      ResidualsSingle(ps[..|ps| - 1]);
    }
  }

  lemma {:induction false} ChainConjuncts(items: seq<FromItem>, index: map<string, nat>, base: nat,
                                          hinted: seq<string>, js: seq<JoinPred>)
    requires base < |items| && (forall h <- hinted :: h in index && index[h] < |items| && OnOf(js, h) != [])
    requires forall j <- js :: Single(j.on)
    ensures multiset(OnConjuncts(Chain(items, index, base, hinted, js))) ==
      multiset(Gather(ChainItems(items, index, base, hinted), OnConjuncts)) + multiset(OnClauses(js, hinted))
  {
    hide Single;
    if hinted == [] {
      GatherOne(items[base], OnConjuncts);
    } else {
      var before, h := hinted[..|hinted| - 1], hinted[|hinted| - 1];
      var x := items[index[h]];
      ChainConjuncts(items, index, base, before, js);
      GatherBoth(ChainItems(items, index, base, before), [x], OnConjuncts);
      GatherOne(x, OnConjuncts);
      OnOfMembers(js, h);
      FoldedConjuncts(OnOf(js, h));
    }
  }

  // What is found in the rewritten FROM list is what the chain and the items after it hold.
  lemma RewrittenParts<T>(sel: Select, f: FromItem -> seq<T>)
    requires Rewrites(sel)
    ensures var index := AliasIndex(sel.from);
      var js := Joins(Conjuncts(sel.where.value), index.Keys);
      var hinted := Order(js);
      var base := Base(sel.from, hinted);
      var others := LeftOver(sel.from, Used(index, base, hinted));
      && Joinable(index, base, hinted) && base < |sel.from| && (forall h <- hinted :: OnOf(js, h) != [])
      && Gather(Rewritten(sel).from, f) == f(Chain(sel.from, index, base, hinted, js)) + Gather(others, f)
      && multiset(Gather(ChainItems(sel.from, index, base, hinted), f)) + multiset(Gather(others, f)) ==
         multiset(Gather(sel.from, f))
  {
    hide Joins, Order, Conjuncts, AliasIndex, Residuals, OrHidesHint, Hints,
      Base, Used, LeftOver, Chain, ChainItems, OnOf;
    var items, index := sel.from, AliasIndex(sel.from);
    var js := Joins(Conjuncts(sel.where.value), index.Keys);
    var hinted := Order(js);
    OrderedHaveConjuncts(js);
    ItemsPartition(items, hinted);
    var base := Base(items, hinted);
    var chain, others := Chain(items, index, base, hinted, js), LeftOver(items, Used(index, base, hinted));
    GatherBoth([chain], others, f);
    GatherOne(chain, f);
    GatherBoth(ChainItems(items, index, base, hinted), others, f);
    GatherBag(ChainItems(items, index, base, hinted) + others, items, f);
  }

  // The rewritten FROM list has the tables and subqueries it was given, each as often.
  lemma ItemsOnce(sel: Select)
    requires Rewrites(sel)
    ensures multiset(Gather(Rewritten(sel).from, Leaves)) == multiset(Gather(sel.from, Leaves))
  {
    hide Joins, Order, Conjuncts, AliasIndex, Base, Used, LeftOver, Rewritten, Gather;
    RewrittenParts(sel, Leaves);
    var index := AliasIndex(sel.from);
    var js := Joins(Conjuncts(sel.where.value), index.Keys);
    ChainLeaves(sel.from, index, Base(sel.from, Order(js)), Order(js), js);
  }

  // Every top-level conjunct of WHERE is, stripped, in exactly one ON clause of the rewritten SELECT or
  // in its WHERE, beside the ON conjuncts that were given; no other hint is left.
  lemma ConjunctsOnce(sel: Select)
    requires Rewrites(sel)
    ensures var out := Rewritten(sel);
      && multiset(Gather(out.from, OnConjuncts)) + multiset(WhereConjuncts(out)) ==
         multiset(Gather(sel.from, OnConjuncts)) + multiset(Stripped(WhereConjuncts(sel)))
      && (forall p <- Gather(out.from, OnConjuncts) + WhereConjuncts(out) ::
            Hints(p) == 0 || p in Gather(sel.from, OnConjuncts))
  {
    hide Order, Conjuncts, AliasIndex, Base, Used, LeftOver, Gather, Stripped,
      OnClauses, Chain, ChainItems, Single, Accepted, OnOf;
    var ps, index := Conjuncts(sel.where.value), AliasIndex(sel.from);
    var js := Joins(ps, index.Keys);
    RewrittenParts(sel, OnConjuncts);
    ConjunctsSingle(sel.where.value);
    JoinsSingle(ps, index.Keys);
    ChainConjuncts(sel.from, index, Base(sel.from, Order(js)), Order(js), js);
    GroupedOnce(js);
    AllClassified(ps, index.Keys);
    SortedOnce(ps, index.Keys);
    WhereIsResiduals(sel);
    hide Rewrites, Rewritten, OnConjuncts, WhereConjuncts, Joins;
    NoOtherHint(Gather(Rewritten(sel).from, OnConjuncts) + WhereConjuncts(Rewritten(sel)),
                Gather(sel.from, OnConjuncts), ps);
  }

  lemma AllClassified(ps: seq<Expr>, aliases: set<string>)
    requires Accepted(ps, aliases) == |ps|
    ensures forall p <- ps :: ClassOf(p, aliases) != Refused
  {
    forall p | p in ps ensures ClassOf(p, aliases) != Refused {
      var i :| 0 <= i < |ps| && ps[i] == p;
    }
  }

  lemma WhereIsResiduals(sel: Select)
    requires Rewrites(sel)
    ensures WhereConjuncts(Rewritten(sel)) == Residuals(Conjuncts(sel.where.value))
  {
    hide Joins, Order, AliasIndex, Base, Used, LeftOver, Chain, Accepted, Conjuncts, Single, Residuals;
    var rest := Residuals(Conjuncts(sel.where.value));
    ConjunctsSingle(sel.where.value);
    ResidualsSingle(Conjuncts(sel.where.value));
    if rest != [] {
      FoldedConjuncts(rest);
    }
  }

  lemma NoOtherHint(out: seq<Expr>, given: seq<Expr>, ps: seq<Expr>)
    requires multiset(out) == multiset(given) + multiset(Stripped(ps))
    ensures forall p <- out :: Hints(p) == 0 || p in given
  {
    hide Hints, Strip;
    forall p | p in out ensures Hints(p) == 0 || p in given {
      assert p in multiset(out);
      if p !in given {
        assert p in Stripped(ps);
        var i :| 0 <= i < |ps| && Stripped(ps)[i] == p;
        StripRemovesHints(ps[i]);
      }
    }
  }

  /* ---- a refusal can still change the tree it was given ---- */

  lemma BothSides(all: seq<Expr>, l: seq<Expr>, r: seq<Expr>, n: nat)
    requires all == l + r && n <= |r|
    ensures (forall i :: 0 <= i < |l| + n ==> Hints(all[i]) == 0) <==>
            (forall i :: 0 <= i < |l| ==> Hints(l[i]) == 0) && forall i :: 0 <= i < n ==> Hints(r[i]) == 0
  {
    hide Hints;
    if forall i :: 0 <= i < |l| + n ==> Hints(all[i]) == 0 {
      assert forall i :: 0 <= i < |l| ==> all[i] == l[i];
      assert forall i :: 0 <= i < n ==> all[|l| + i] == r[i];
    }
  }

  lemma {:induction false} StripFirstChanges(e: Expr, n: nat)
    requires n <= |Conjuncts(e)|
    ensures StripFirst(e, n) == e <==> forall i :: 0 <= i < n ==> Hints(Conjuncts(e)[i]) == 0
  {
    if n > 0 {
      match e
      case Binary(op, l, r) =>
        if IsOp(op, "AND") {
          var nl := |Conjuncts(l)|;
          hide Hints, IsOp;
          if n <= nl {
            StripFirstChanges(l, n);
            assert forall i :: 0 <= i < n ==> Conjuncts(e)[i] == Conjuncts(l)[i];
          } else {
            StripFirstChanges(l, nl);
            StripFirstChanges(r, n - nl);
            BothSides(Conjuncts(e), Conjuncts(l), Conjuncts(r), n - nl);
          }
        } else {
          assert Conjuncts(e) == [e] && Conjuncts(e)[0] == e;
          assert StripFirst(e, n) == Strip(e);
          StripChangesHinted(e);
        }
      case Paren(x) => StripFirstChanges(x, n);
      case _ =>
        assert Conjuncts(e) == [e] && Conjuncts(e)[0] == e;
        assert StripFirst(e, n) == Strip(e);
        StripChangesHinted(e);
    }
  }

  // A refused SELECT keeps its tree exactly when none of the conjuncts classified before the
  // refusal carried a hint.
  lemma RefusalKeepsTreeExactly(sel: Select)
    requires !Rewrites(sel) && sel.where.Some?
    ensures WhereAfter(sel) == sel.where <==>
      forall i :: 0 <= i < StrippedCount(sel) ==> Hints(Conjuncts(sel.where.value)[i]) == 0
  {
    StripFirstChanges(sel.where.value, StrippedCount(sel));
  }

  // a.id = b.id(+) AND f(b.x(+)) = 1: refused at the second conjunct, after the first one lost
  // its hint and became an inner join.
  lemma LateRefusalLosesHint()
    ensures var a, b := Ident(["a", "id"]), Ident(["b", "id"]);
      var second := Binary("=", Call("f", Cons(Hint(Ident(["b", "x"])), Nil)), Literal("1"));
      var sel := Select([Table("a", ""), Table("b", "")], Some(Binary("AND", Binary("=", a, Hint(b)), second)));
      !Rewrites(sel) && WhereAfter(sel) == Some(Binary("AND", Binary("=", a, b), second))
  {
    hide ClassOf, Strip, AliasIndex, Hints, Rewrites;
    var a, b := Ident(["a", "id"]), Ident(["b", "id"]);
    var second := Binary("=", Call("f", Cons(Hint(Ident(["b", "x"])), Nil)), Literal("1"));
    var first := Binary("=", a, Hint(b));
    assert Upper("AND") == "AND" && Upper("=") == "=";
    LateClasses();
    TwoTables();
    assert Conjuncts(first) == [first] && Conjuncts(second) == [second];
    assert [first, second][1..] == [second];
    assert Accepted([second], {"a", "b"}) == 0;
    assert Accepted([first, second], {"a", "b"}) == 1;
    RefusedEarly(Select([Table("a", ""), Table("b", "")], Some(Binary("AND", first, second))));
  }

  lemma TwoTables()
    ensures AliasIndex([Table("a", ""), Table("b", "")]) == map["a" := 0, "b" := 1]
    ensures AliasIndex([Table("a", ""), Table("b", "")]).Keys == {"a", "b"}
    ensures Base([Table("a", ""), Table("b", "")], ["b"]) == 0
  {
    var items := [Table("a", ""), Table("b", "")];
    assert Lower("a") == "a" && Lower("b") == "b";
    assert items[..1] == [Table("a", "")] && items[..1][..0] == [];
    assert AliasIndex(items[..1]) == map["a" := 0];
  }

  lemma LateClasses()
    ensures var a, b := Ident(["a", "id"]), Ident(["b", "id"]);
      var first := Binary("=", a, Hint(b));
      var second := Binary("=", Call("f", Cons(Hint(Ident(["b", "x"])), Nil)), Literal("1"));
      ClassOf(first, {"a", "b"}) == JoinsOn("b") && ClassOf(second, {"a", "b"}) == Refused &&
      Strip(first) == Binary("=", a, b) && Hints(Binary("AND", first, second)) > 0
  {
    assert Lower("a") == "a" && Lower("b") == "b";
  }

  lemma RefusedEarly(sel: Select)
    requires sel.where.Some?
    requires Accepted(Conjuncts(sel.where.value), AliasIndex(sel.from).Keys) < |Conjuncts(sel.where.value)|
    ensures !Rewrites(sel)
  {}
}
