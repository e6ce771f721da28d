/** The outer-join rewrite, whole: bag equality for scoped ON clauses, what the rewritten SELECT
    is made of, and what a refusal leaves behind. */
module OuterJoinTheorem {
  import opened Text
  import opened Wrappers
  import opened OuterJoin
  import opened OuterJoinSemantics
  import opened OuterJoinProofs
  import opened OuterJoinParts

  /* ---- the comma list as crosses onto a first item ---- */

  function CrossOnto(it: Interp, db: Db, rows: seq<Row>, items: seq<FromItem>): seq<Row> {
    if items == [] then rows
    else Apply(Cross(EvalItem(it, db, items[|items| - 1])), it, CrossOnto(it, db, rows, items[..|items| - 1]))
  }

  lemma {:induction false} CrossFirst(it: Interp, rows: seq<Row>)
    ensures Apply(Cross(rows), it, [map[]]) == rows
  {
    EmptyRowPairs(rows);
    var one: seq<Row> := [map[]];
    assert one[1..] == [];
  }

  lemma {:induction false} EmptyRowPairs(rows: seq<Row>)
    ensures Pairs(map[], rows) == rows
  {
    if rows != [] {
      EmptyRowPairs(rows[1..]);
      assert map[] + rows[0] == rows[0];
    }
  }

  lemma {:induction false} FromIsCrossOnto(it: Interp, db: Db, f: FromItem, items: seq<FromItem>)
    ensures EvalFrom(it, db, [f] + items) == CrossOnto(it, db, EvalItem(it, db, f), items)
  {
    var all := [f] + items;
    if items == [] {
      assert all[..0] == [];
      CrossFirst(it, EvalItem(it, db, f));
    } else {
      assert all[..|all| - 1] == [f] + items[..|items| - 1];
      FromIsCrossOnto(it, db, f, items[..|items| - 1]);
    }
  }

  lemma {:induction false} CrossOntoOver(it: Interp, db: Db, rows: seq<Row>, items: seq<FromItem>, ka: set<string>)
    requires Over(rows, ka)
    ensures Over(CrossOnto(it, db, rows, items), ka + AllAliases(items))
  {
    if items == [] {
      assert ka + AllAliases(items) == ka;
    } else {
      var n := |items| - 1;
      CrossOntoOver(it, db, rows, items[..n], ka);
      ItemOver(it, db, items[n]);
      ApplyOver(Cross(EvalItem(it, db, items[n])), it, CrossOnto(it, db, rows, items[..n]),
                ka + AllAliases(items[..n]), Aliases(items[n]));
      assert ka + AllAliases(items) == ka + AllAliases(items[..n]) + Aliases(items[n]);
    }
  }

  ghost predicate PairwiseApart(items: seq<FromItem>) {
    forall i, j :: 0 <= i < j < |items| ==> Aliases(items[i]) !! Aliases(items[j])
  }

  lemma {:induction false} LastApart(items: seq<FromItem>)
    requires PairwiseApart(items) && items != []
    ensures AllAliases(items[..|items| - 1]) !! Aliases(items[|items| - 1])
  {
    AllApart(items[..|items| - 1], Aliases(items[|items| - 1]));
  }

  lemma {:induction false} AllApart(items: seq<FromItem>, x: set<string>)
    requires forall f <- items :: Aliases(f) !! x
    ensures AllAliases(items) !! x
  {
    if items != [] {
      AllApart(items[..|items| - 1], x);
    }
  }

  // Items that an outer join does not read can be crossed before it or after it.
  lemma {:induction false} PullThrough(it: Interp, db: Db, op: Operator, rows: seq<Row>, ka: set<string>,
      items: seq<FromItem>)
    requires op.Outer? && Over(op.right, op.nulls) && Over(rows, ka) && PairwiseApart(items)
    requires AllAliases(items) !! op.nulls && AllAliases(items) !! ka && AllAliases(items) !! Refs(it, op.on)
    ensures SameBag(CrossOnto(it, db, Apply(op, it, rows), items), Apply(op, it, CrossOnto(it, db, rows, items)))
  {
    hide Apply, EvalItem, Refs, Aliases;
    if items != [] {
      var n := |items| - 1;
      var cross := Cross(EvalItem(it, db, items[n]));
      PullThrough(it, db, op, rows, ka, items[..n]);
      ApplyCongruent(cross, it, CrossOnto(it, db, Apply(op, it, rows), items[..n]),
                     Apply(op, it, CrossOnto(it, db, rows, items[..n])));
      ItemOver(it, db, items[n]);
      CrossOntoOver(it, db, rows, items[..n], ka);
      LastApart(items);
      Swap(op, it, CrossOnto(it, db, rows, items[..n]), ka + AllAliases(items[..n]), cross.right, Aliases(items[n]));
    }
  }

  /* ---- the chain ---- */

  ghost predicate ChainOk(items: seq<FromItem>, index: map<string, nat>, base: nat, hinted: seq<string>,
      js: seq<JoinPred>) {
    && base < |items|
    && (forall h <- hinted :: h in index && index[h] < |items| && OnOf(js, h) != [])
  }

  lemma {:induction false} ChainBag(it: Interp, db: Db, items: seq<FromItem>, index: map<string, nat>, base: nat,
                                    hinted: seq<string>, js: seq<JoinPred>, others: seq<FromItem>)
    requires ChainOk(items, index, base, hinted, js) && PairwiseApart(others)
    requires var chain := Chain(items, index, base, hinted, js);
      InScope(it, chain) && AllAliases(others) !! Aliases(chain)
    ensures SameBag(CrossOnto(it, db, EvalItem(it, db, Chain(items, index, base, hinted, js)), others),
                    OuterAll(it, db, items, index, hinted, js,
                             CrossOnto(it, db, EvalItem(it, db, items[base]), others)))
  {
    if hinted != [] {
      var h, before := hinted[|hinted| - 1], hinted[..|hinted| - 1];
      var item := items[index[h]];
      var shorter := Chain(items, index, base, before, js);
      var op := Outer(EvalItem(it, db, item), AndAll(OnOf(js, h)), Aliases(item));
      hide Apply, AndAll, OnOf, CrossOnto;
      ChainBag(it, db, items, index, base, before, js, others);
      ItemOver(it, db, item);
      ItemOver(it, db, shorter);
      PullThrough(it, db, op, EvalItem(it, db, shorter), Aliases(shorter), others);
      ApplyCongruent(op, it, CrossOnto(it, db, EvalItem(it, db, shorter), others),
                     OuterAll(it, db, items, index, before, js,
                              CrossOnto(it, db, EvalItem(it, db, items[base]), others)));
    }
  }

  /* ---- which items are used ---- */

  lemma OwnAlias(f: FromItem)
    ensures ItemAlias(f) != "" ==> ItemAlias(f) in Aliases(f)
  {}

  lemma {:induction false} IndexedAt(items: seq<FromItem>, i: nat)
    requires PairwiseApart(items) && i < |items| && ItemAlias(items[i]) != ""
    ensures ItemAlias(items[i]) in AliasIndex(items) && AliasIndex(items)[ItemAlias(items[i])] == i
  {
    hide ItemAlias, Aliases;
    var n := |items| - 1;
    if i < n {
      assert PairwiseApart(items[..n]) && items[..n][i] == items[i];
      IndexedAt(items[..n], i);
      OwnAlias(items[i]);
      OwnAlias(items[n]);
    }
  }

  lemma {:induction false} BaseIsFirst(items: seq<FromItem>, hinted: seq<string>, i: nat)
    requires i <= |items|
    ensures var b := BaseFrom(items, hinted, i);
      (i <= b < |items| && ItemAlias(items[b]) !in hinted &&
       forall j :: i <= j < b ==> ItemAlias(items[j]) in hinted) ||
      (b == 0 && forall j :: i <= j < |items| ==> ItemAlias(items[j]) in hinted)
    decreases |items| - i
  {
    if i < |items| && ItemAlias(items[i]) in hinted {
      BaseIsFirst(items, hinted, i + 1);
    }
  }

  // An item is used exactly when it is the base or hinted.
  lemma UsedExactly(items: seq<FromItem>, hinted: seq<string>, i: nat)
    requires PairwiseApart(items) && i < |items|
    requires var index := AliasIndex(items); Joinable(index, Base(items, hinted), hinted)
    ensures Base(items, hinted) < |items| && ItemAlias(items[Base(items, hinted)]) !in hinted
    ensures i in Used(AliasIndex(items), Base(items, hinted), hinted) <==>
      i == Base(items, hinted) || ItemAlias(items[i]) in hinted
    ensures forall j :: 0 <= j < Base(items, hinted) ==> ItemAlias(items[j]) in hinted
  {
    hide ItemAlias, Aliases, AliasIndex, BaseFrom;
    var index, base := AliasIndex(items), Base(items, hinted);
    BaseInRange(items, hinted, 0);
    BaseIsFirst(items, hinted, 0);
    if ItemAlias(items[base]) in hinted {
      IndexedAt(items, base);
    }
    if ItemAlias(items[i]) in hinted {
      IndexedAt(items, i);
    }
  }

  // The unhinted items, in order, are the base and what the chain leaves over.
  lemma {:induction false} UnhintedItems(items: seq<FromItem>, hinted: seq<string>, n: nat)
    requires PairwiseApart(items) && n <= |items| && items != []
    requires Joinable(AliasIndex(items), Base(items, hinted), hinted)
    ensures var base, used := Base(items, hinted), Used(AliasIndex(items), Base(items, hinted), hinted);
      base < |items| &&
      Unhinted(items[..n], hinted) == (if n <= base then [] else [items[base]]) + LeftOver(items[..n], used)
    ensures var base, used := Base(items, hinted), Used(AliasIndex(items), Base(items, hinted), hinted);
      n <= base ==> LeftOver(items[..n], used) == []
  {
    hide ItemAlias, Aliases, AliasIndex, Base, Used, Joinable, PairwiseApart, Unhinted, LeftOver;
    UsedExactly(items, hinted, 0);
    TakenItems(items, hinted, Used(AliasIndex(items), Base(items, hinted), hinted), n);
    if n > 0 {
      UnhintedItems(items, hinted, n - 1);
      UsedExactly(items, hinted, n - 1);
    }
  }

  // One more item, unhinted or left over.
  lemma TakenItems(items: seq<FromItem>, hinted: seq<string>, used: set<nat>, n: nat)
    requires n <= |items|
    ensures n == 0 ==> Unhinted(items[..n], hinted) == [] && LeftOver(items[..n], used) == []
    ensures n > 0 ==>
      var before, x := items[..n - 1], items[n - 1];
      && Unhinted(items[..n], hinted) == Unhinted(before, hinted) + (if ItemAlias(x) in hinted then [] else [x])
      && LeftOver(items[..n], used) == LeftOver(before, used) + (if n - 1 in used then [] else [x])
  {
    if n > 0 {
      assert items[..n][..n - 1] == items[..n - 1];
    }
  }

  lemma {:induction false} LeftOverMembers(items: seq<FromItem>, used: set<nat>)
    ensures forall f <- LeftOver(items, used) :: exists i :: 0 <= i < |items| && i !in used && items[i] == f
  {
    if items != [] {
      LeftOverMembers(items[..|items| - 1], used);
    }
  }

  lemma {:induction false} LeftOverApart(items: seq<FromItem>, used: set<nat>)
    requires PairwiseApart(items)
    ensures PairwiseApart(LeftOver(items, used))
  {
    if items != [] {
      var n := |items| - 1;
      var kept := LeftOver(items[..n], used);
      LeftOverApart(items[..n], used);
      LeftOverMembers(items[..n], used);
      forall i | 0 <= i < |kept| ensures Aliases(kept[i]) !! Aliases(items[n]) {
        assert kept[i] in kept;
      }
    }
  }

  lemma {:induction false} ChainAliases(items: seq<FromItem>, index: map<string, nat>, base: nat, hinted: seq<string>,
                                        js: seq<JoinPred>, i: nat)
    requires ChainOk(items, index, base, hinted, js) && PairwiseApart(items)
    requires i < |items| && i != base && forall h <- hinted :: index[h] != i
    ensures Aliases(items[i]) !! Aliases(Chain(items, index, base, hinted, js))
  {
    if hinted != [] {
      ChainAliases(items, index, base, hinted[..|hinted| - 1], js, i);
    }
  }

  /* ---- which SELECTs PostgreSQL accepts ---- */

  // No alias stands for two tables or subqueries, or for one twice.
  ghost predicate OnceEach(items: seq<FromItem>) {
    var m := multiset(Gather(items, Leaves));
    forall f, g :: f in m && g in m && ItemAlias(f) == ItemAlias(g) ==> f == g && m[f] == 1
  }

  ghost predicate AcceptedByPostgres(it: Interp, sel: Select) {
    OnceEach(sel.from) && forall f <- sel.from :: InScope(it, f)
  }

  // The hinted conjuncts of each alias read the base item, the aliases hinted before, and their own.
  ghost predicate Scoped(it: Interp, sel: Select)
    requires Rewrites(sel)
  {
    var index, ps := AliasIndex(sel.from), Conjuncts(sel.where.value);
    var hinted := Order(Joins(ps, index.Keys));
    var base := Base(sel.from, hinted);
    base < |sel.from| && forall k :: 0 <= k < |hinted| ==>
      ReadOnly(it, ps, index.Keys, hinted[k], Aliases(sel.from[base]) + Members(hinted[..k + 1]))
  }

  predicate ReadOnly(it: Interp, ps: seq<Expr>, aliases: set<string>, h: string, known: set<string>) {
    forall p <- ps :: ClassOf(p, aliases) == JoinsOn(h) ==> Refs(it, p) <= known
  }

  function Members(hs: seq<string>): set<string> {
    set h <- hs
  }

  lemma {:induction false} StripKeepsRefs(it: Interp, e: Expr)
    ensures Refs(it, Strip(e)) == Refs(it, e)
  {
    match e
    case Ident(_) =>
    case Literal(_) =>
    case Call(_, args) => StripAllKeepsRefs(it, args);
    case Binary(_, l, r) => StripKeepsRefs(it, l); StripKeepsRefs(it, r);
    case Unary(_, x) => StripKeepsRefs(it, x);
    case Paren(x) => StripKeepsRefs(it, x);
    case Hint(x) => StripKeepsRefs(it, x);
  }

  lemma {:induction false} StripAllKeepsRefs(it: Interp, es: Exprs)
    ensures RefsAll(it, StripAll(es)) == RefsAll(it, es)
  {
    match es
    case Nil =>
    case Cons(e, rest) => StripKeepsRefs(it, e); StripAllKeepsRefs(it, rest);
  }

  lemma {:induction false} FoldReads(it: Interp, ps: seq<Expr>, known: set<string>)
    requires ps != []
    ensures Refs(it, AndAll(ps)) <= known <==> forall p <- ps :: Refs(it, p) <= known
  {
    var n := |ps| - 1;
    assert forall p <- ps :: p in ps[..n] || p == ps[n];
    assert forall p <- ps[..n] :: p in ps;
    assert ps[n] in ps;
    if n > 0 {
      FoldReads(it, ps[..n], known);
      assert Refs(it, AndAll(ps)) == Refs(it, AndAll(ps[..n])) + Refs(it, ps[n]);
    }
  }

  // The ON predicates of an alias read what its hinted conjuncts read.
  lemma {:induction false} OnReads(it: Interp, ps: seq<Expr>, aliases: set<string>, h: string, known: set<string>)
    ensures (forall p <- OnOf(Joins(ps, aliases), h) :: Refs(it, p) <= known) <==> ReadOnly(it, ps, aliases, h, known)
  {
    hide ClassOf, Strip, Refs, Joins, OnOf;
    if ps == [] {
      NoJoins(aliases, h);
    } else {
      var n := |ps| - 1;
      OnReads(it, ps[..n], aliases, h, known);
      StripKeepsRefs(it, ps[n]);
      OneMoreOn(ps, aliases, h);
      assert ps[n] in ps && forall p <- ps :: p in ps[..n] || p == ps[n];
      assert forall p <- ps[..n] :: p in ps;
    }
  }

  lemma NoJoins(aliases: set<string>, h: string)
    ensures OnOf(Joins([], aliases), h) == []
  {}

  lemma OneMoreOn(ps: seq<Expr>, aliases: set<string>, h: string)
    requires ps != []
    ensures var n := |ps| - 1;
      OnOf(Joins(ps, aliases), h) ==
        OnOf(Joins(ps[..n], aliases), h) + if ClassOf(ps[n], aliases) == JoinsOn(h) then [Strip(ps[n])] else []
  {
    hide ClassOf, Strip;
    var before, last := Joins(ps[..|ps| - 1], aliases), ps[|ps| - 1];
    if ClassOf(last, aliases).JoinsOn? {
      var j := JoinPred(ClassOf(last, aliases).alias, Strip(last));
      var all := before + [j];
      assert Joins(ps, aliases) == all && all[..|all| - 1] == before && all[|all| - 1] == j;
    } else {
      assert Joins(ps, aliases) == before;
    }
  }

  // A hinted item is a table or a subquery of that alias.
  lemma HintedItem(items: seq<FromItem>, h: string)
    requires h in AliasIndex(items)
    ensures var f := items[AliasIndex(items)[h]];
      !f.LeftJoin? && Aliases(f) == {h}
  {}

  lemma {:induction false} AliasesOfChain(items: seq<FromItem>, base: nat, hinted: seq<string>, js: seq<JoinPred>)
    requires ChainOk(items, AliasIndex(items), base, hinted, js)
    ensures Aliases(Chain(items, AliasIndex(items), base, hinted, js)) == Aliases(items[base]) + Members(hinted)
  {
    hide AliasIndex, OnOf, AndAll, Members;
    var n := |hinted| - 1;
    if n < 0 {
      NoMembers();
    } else {
      AliasesOfChain(items, base, hinted[..n], js);
      HintedItem(items, hinted[n]);
      assert hinted[..n + 1] == hinted;
      MembersMore(hinted, n + 1);
      assert Chain(items, AliasIndex(items), base, hinted, js).LeftJoin?;
    }
  }

  lemma NoMembers()
    ensures Members([]) == {}
  {}

  ghost predicate InScopeUpTo(it: Interp, items: seq<FromItem>, base: nat, hinted: seq<string>,
                               js: seq<JoinPred>, n: nat)
    requires base < |items| && n <= |hinted| && forall h <- hinted :: OnOf(js, h) != []
  {
    forall k :: 0 <= k < n ==>
      Refs(it, AndAll(OnOf(js, hinted[k]))) <= Aliases(items[base]) + Members(hinted[..k + 1])
  }

  lemma {:induction false} ChainScope(it: Interp, items: seq<FromItem>, base: nat, hinted: seq<string>,
                                      js: seq<JoinPred>, n: nat)
    requires ChainOk(items, AliasIndex(items), base, hinted, js) && n <= |hinted|
    ensures InScope(it, Chain(items, AliasIndex(items), base, hinted[..n], js)) <==>
      InScope(it, items[base]) && InScopeUpTo(it, items, base, hinted, js, n)
  {
    hide AliasIndex, OnOf, AndAll, Refs, Aliases, Members;
    if n > 0 {
      var h := hinted[n - 1];
      assert hinted[..n][..n - 1] == hinted[..n - 1] && hinted[..n][n - 1] == h;
      ChainScope(it, items, base, hinted, js, n - 1);
      HintedItem(items, h);
      AliasesOfChain(items, base, hinted[..n - 1], js);
      MembersMore(hinted, n);
    }
  }

  lemma MembersMore(hinted: seq<string>, n: nat)
    requires 0 < n <= |hinted|
    ensures Members(hinted[..n]) == Members(hinted[..n - 1]) + {hinted[n - 1]}
  {
    assert hinted[..n] == hinted[..n - 1] + [hinted[n - 1]];
  }

  // The items in scope are those the chain starts from or leaves over; hinted items have no scope.
  lemma ItemsScope(it: Interp, items: seq<FromItem>, hinted: seq<string>)
    requires AliasIndex(items) != map[] && Joinable(AliasIndex(items), Base(items, hinted), hinted)
    ensures var index, base := AliasIndex(items), Base(items, hinted);
      base < |items| && ((forall f <- items :: InScope(it, f)) <==>
        InScope(it, items[base]) && forall f <- LeftOver(items, Used(index, base, hinted)) :: InScope(it, f))
  {
    hide AliasIndex, BaseFrom, InScope, LeftOver;
    IndexedItems(items);
    BaseInRange(items, hinted, 0);
    var index, base := AliasIndex(items), Base(items, hinted);
    var used := Used(index, base, hinted);
    LeftOverMembers(items, used);
    forall i | 0 <= i < |items| && i !in used ensures items[i] in LeftOver(items, used) {
      LeftOverHas(items, used, i);
    }
    forall h | h in hinted ensures InScope(it, items[index[h]]) {
      HintedItem(items, h);
      TableScope(it, items[index[h]]);
    }
    forall f | f in items
      ensures f in LeftOver(items, used) || f == items[base] || exists h <- hinted :: f == items[index[h]]
    {
      var i :| 0 <= i < |items| && items[i] == f;
    }
  }

  lemma TableScope(it: Interp, f: FromItem)
    requires !f.LeftJoin?
    ensures InScope(it, f)
  {}

  lemma {:induction false} LeftOverHas(items: seq<FromItem>, used: set<nat>, i: nat)
    requires i < |items| && i !in used
    ensures items[i] in LeftOver(items, used)
  {
    if i < |items| - 1 {
      LeftOverHas(items[..|items| - 1], used, i);
    }
  }

  // PostgreSQL accepts the rewritten SELECT exactly when the FROM list was acceptable and the hinted
  // conjuncts of each alias read nothing that is joined later.
  lemma ScopedExactly(it: Interp, sel: Select)
    requires Rewrites(sel)
    ensures AcceptedByPostgres(it, Rewritten(sel)) <==> AcceptedByPostgres(it, sel) && Scoped(it, sel)
  {
    hide Conjuncts, Joins, Order, Residuals, Chain, LeftOver, BaseFrom,
      AliasIndex, InScope, Refs, AndAll, OnOf, ClassOf,
      Accepted, Gather, Leaves, Hints, OrHidesHint;
    ItemsOnce(sel);
    var items, index := sel.from, AliasIndex(sel.from);
    var ps := Conjuncts(sel.where.value);
    var js := Joins(ps, index.Keys);
    var hinted := Order(js);
    OrderedHaveConjuncts(js);
    ItemsScope(it, items, hinted);
    var base := Base(items, hinted);
    var chain, others := Chain(items, index, base, hinted, js), LeftOver(items, Used(index, base, hinted));
    assert Rewritten(sel).from == [chain] + others;
    ChainScope(it, items, base, hinted, js, |hinted|);
    assert hinted[..|hinted|] == hinted;
    forall k | 0 <= k < |hinted|
      ensures var known := Aliases(items[base]) + Members(hinted[..k + 1]);
        Refs(it, AndAll(OnOf(js, hinted[k]))) <= known <==> ReadOnly(it, ps, index.Keys, hinted[k], known)
    {
      var known := Aliases(items[base]) + Members(hinted[..k + 1]);
      FoldReads(it, OnOf(js, hinted[k]), known);
      OnReads(it, ps, index.Keys, hinted[k], known);
    }
    hide ReadOnly, Members, Aliases;
    assert (forall f <- [chain] + others :: InScope(it, f)) <==>
      InScope(it, chain) && forall f <- others :: InScope(it, f);
  }

  lemma {:induction false} LeafOf(f: FromItem, alias: string)
    requires alias in Aliases(f)
    ensures exists x <- Leaves(f) :: ItemAlias(x) == alias
  {
    match f
    case LeftJoin(l, r, _) =>
      if alias in Aliases(l) {
        LeafOf(l, alias);
      } else {
        LeafOf(r, alias);
      }
    case _ => assert f in Leaves(f);
  }

  lemma OnceApart(items: seq<FromItem>)
    requires OnceEach(items)
    ensures PairwiseApart(items)
  {
    hide Gather, Leaves, Aliases, ItemAlias;
    forall i, j | 0 <= i < j < |items| ensures Aliases(items[i]) !! Aliases(items[j]) {
      if alias :| alias in Aliases(items[i]) && alias in Aliases(items[j]) {
        LeafOf(items[i], alias);
        LeafOf(items[j], alias);
        var x :| x in Leaves(items[i]) && ItemAlias(x) == alias;
        var y :| y in Leaves(items[j]) && ItemAlias(y) == alias;
        TwoLeaves(items, i, j, x, y);
        assert false;
      }
    }
  }

  // The leaves of two items are counted apart.
  lemma TwoLeaves(items: seq<FromItem>, i: nat, j: nat, x: FromItem, y: FromItem)
    requires i < j < |items| && x in Leaves(items[i]) && y in Leaves(items[j])
    ensures var m := multiset(Gather(items, Leaves));
      x in m && y in m && (x == y ==> m[x] >= 2)
  {
    hide Gather, Leaves;
    GatherSplit(items, i, Leaves);
    Gathered(items[i + 1..], j - i - 1, y);
    CountedApart(Gather(items[..i], Leaves), Leaves(items[i]), Gather(items[i + 1..], Leaves), x, y);
  }

  lemma CountedApart<T>(a: seq<T>, b: seq<T>, c: seq<T>, x: T, y: T)
    requires x in b && y in c
    ensures var m := multiset(a + b + c);
      x in m && y in m && (x == y ==> m[x] >= 2)
  {
    assert multiset(a + b + c) == multiset(a) + multiset(b) + multiset(c);
    assert multiset(b)[x] >= 1 && multiset(c)[y] >= 1;
  }

  lemma Gathered(items: seq<FromItem>, i: nat, x: FromItem)
    requires i < |items| && x in Leaves(items[i])
    ensures x in Gather(items, Leaves)
  {
    hide Gather, Leaves;
    GatherSplit(items, i, Leaves);
  }

  /* ---- main results ---- */

  lemma FromKeepsBag(it: Interp, db: Db, items: seq<FromItem>, hinted: seq<string>, js: seq<JoinPred>)
    requires PairwiseApart(items) && items != [] && Joinable(AliasIndex(items), Base(items, hinted), hinted)
    requires ChainOk(items, AliasIndex(items), Base(items, hinted), hinted, js)
    requires InScope(it, Chain(items, AliasIndex(items), Base(items, hinted), hinted, js))
    ensures var index, base := AliasIndex(items), Base(items, hinted);
      SameBag(EvalFrom(it, db, [Chain(items, index, base, hinted, js)] + LeftOver(items, Used(index, base, hinted))),
              OuterAll(it, db, items, index, hinted, js, EvalFrom(it, db, Unhinted(items, hinted))))
  {
    hide AliasIndex, Base, EvalFrom, EvalItem, Joinable, ItemAlias, Aliases;
    var index, base := AliasIndex(items), Base(items, hinted);
    var chain, others := Chain(items, index, base, hinted, js), LeftOver(items, Used(index, base, hinted));
    OthersApart(items, index, base, hinted, js);
    ChainBag(it, db, items, index, base, hinted, js, others);
    FromIsCrossOnto(it, db, chain, others);
    FromIsCrossOnto(it, db, items[base], others);
    UnhintedItems(items, hinted, |items|);
    assert items[..|items|] == items;
  }

  // For every database and every meaning of operators, the rewritten SELECT returns the bag of
  // rows the hinted SELECT means.
  lemma RewriteKeepsBag(it: Interp, db: Db, sel: Select)
    requires Rewrites(sel) && AcceptedByPostgres(it, sel) && Scoped(it, sel)
    ensures SameBag(EvalSelect(it, db, Rewritten(sel)), Reference(it, db, sel))
  {
    hide Conjuncts, Hints, OrHidesHint, Joins, Order, Residuals, Accepted,
      Chain, LeftOver, Used, Eval, EvalFrom, OuterAll,
      Unhinted, BaseFrom, AndAll, OnceEach, Scoped, AliasIndex;
    ScopedExactly(it, sel);
    OnceApart(sel.from);
    var items, index := sel.from, AliasIndex(sel.from);
    var ps := Conjuncts(sel.where.value);
    var js := Joins(ps, index.Keys);
    var hinted := Order(js);
    OrderedHaveConjuncts(js);
    IndexedItems(items);
    BaseInRange(items, hinted, 0);
    assert Chain(items, index, Base(items, hinted), hinted, js) in Rewritten(sel).from;
    FromKeepsBag(it, db, items, hinted, js);
    var rest := Residuals(ps);
    if rest != [] {
      HoldingCongruent(it, AndAll(rest), EvalFrom(it, db, Rewritten(sel).from),
                       OuterAll(it, db, items, index, hinted, js, EvalFrom(it, db, Unhinted(items, hinted))));
    }
  }

  lemma OthersApart(items: seq<FromItem>, index: map<string, nat>, base: nat, hinted: seq<string>, js: seq<JoinPred>)
    requires ChainOk(items, index, base, hinted, js) && PairwiseApart(items)
    ensures var others := LeftOver(items, Used(index, base, hinted));
      PairwiseApart(others) && AllAliases(others) !! Aliases(Chain(items, index, base, hinted, js))
  {
    var used := Used(index, base, hinted);
    var others, chain := LeftOver(items, used), Chain(items, index, base, hinted, js);
    LeftOverApart(items, used);
    LeftOverMembers(items, used);
    forall f | f in others ensures Aliases(f) !! Aliases(chain) {
      var i :| 0 <= i < |items| && i !in used && items[i] == f;
      ChainAliases(items, index, base, hinted, js, i);
    }
    AllApart(others, Aliases(chain));
  }

  // FROM a, b WHERE a.id = b.id(+) becomes FROM a LEFT JOIN b ON a.id = b.id, in scope whatever
  // the operators mean.
  lemma SimpleJoin(it: Interp)
    ensures var a, b := Table("a", ""), Table("b", "");
      var left, right := Ident(["a", "id"]), Ident(["b", "id"]);
      var sel := Select([a, b], Some(Binary("=", left, Hint(right))));
      && Rewrites(sel) && AcceptedByPostgres(it, sel) && Scoped(it, sel)
      && Rewritten(sel) == Select([LeftJoin(a, b, Binary("=", left, right))], None)
  {
    hide Rewrites, Rewritten, AcceptedByPostgres, Scoped;
    SimpleRewritten(it);
    SimpleAccepted(it);
    ScopedExactly(it, Select([Table("a", ""), Table("b", "")],
                             Some(Binary("=", Ident(["a", "id"]), Hint(Ident(["b", "id"]))))));
  }

  lemma SimpleAccepted(it: Interp)
    ensures var on := Binary("=", Ident(["a", "id"]), Ident(["b", "id"]));
      AcceptedByPostgres(it, Select([LeftJoin(Table("a", ""), Table("b", ""), on)], None))
  {
    var a, b := Table("a", ""), Table("b", "");
    var joined := LeftJoin(a, b, Binary("=", Ident(["a", "id"]), Ident(["b", "id"])));
    hide Refs, Aliases, Gather, ItemAlias;
    SimpleConjunct(it);
    SimpleIndex();
    TableNames();
    assert Aliases(a) + Aliases(b) == {"a", "b"};
    JoinAccepted(it, a, b, joined.on);
  }

  lemma JoinAccepted(it: Interp, a: FromItem, b: FromItem, on: Expr)
    requires !a.LeftJoin? && !b.LeftJoin? && ItemAlias(a) != ItemAlias(b) && Refs(it, on) <= Aliases(a) + Aliases(b)
    ensures AcceptedByPostgres(it, Select([LeftJoin(a, b, on)], None))
  {
    hide Refs, Aliases, Gather, ItemAlias;
    var joined := LeftJoin(a, b, on);
    assert InScope(it, joined);
    assert Leaves(joined) == [a, b];
    GatherOne(joined, Leaves);
    TwoOnce(a, b);
  }

  lemma TableNames()
    ensures ItemAlias(Table("a", "")) == "a" && ItemAlias(Table("b", "")) == "b" && ItemAlias(Table("c", "")) == "c"
  {
    assert Lower("a") == "a" && Lower("b") == "b" && Lower("c") == "c";
  }

  // Different aliases, each once.
  lemma TwoOnce(a: FromItem, b: FromItem)
    requires ItemAlias(a) != ItemAlias(b)
    ensures forall f, g :: f in multiset([a, b]) && g in multiset([a, b]) && ItemAlias(f) == ItemAlias(g) ==>
      f == g && multiset([a, b])[f] == 1
  {
    assert multiset([a, b]) == multiset{a, b};
  }

  lemma SimpleRewritten(it: Interp)
    ensures var a, b := Table("a", ""), Table("b", "");
      var left, right := Ident(["a", "id"]), Ident(["b", "id"]);
      var sel := Select([a, b], Some(Binary("=", left, Hint(right))));
      Rewrites(sel) && Rewritten(sel) == Select([LeftJoin(a, b, Binary("=", left, right))], None)
  {
    var items := [Table("a", ""), Table("b", "")];
    var left, right := Ident(["a", "id"]), Ident(["b", "id"]);
    var p, on := Binary("=", left, Hint(right)), Binary("=", left, right);
    hide AliasIndex, Conjuncts, Joins, Residuals, Order, Chain, LeftOver,
      Used, Base, Accepted, OnOf, Hints, OrHidesHint, Refs, Aliases;
    SimpleIndex();
    SimpleConjunct(it);
    SimpleChain(items, [JoinPred("b", on)]);
    assert Joinable(map["a" := 0, "b" := 1], 0, ["b"]);
    var sel := Select(items, Some(p));
    assert Rewrites(sel);
    assert Rewritten(sel) == Select([LeftJoin(items[0], items[1], on)], None);
    assert sel == Select([Table("a", ""), Table("b", "")], Some(p));
  }

  lemma SimpleIndex()
    ensures AliasIndex([Table("a", ""), Table("b", "")]) == map["a" := 0, "b" := 1]
    ensures AliasIndex([Table("a", ""), Table("b", "")]).Keys == {"a", "b"}
    ensures Base([Table("a", ""), Table("b", "")], ["b"]) == 0
    ensures Aliases(Table("a", "")) == {"a"} && Aliases(Table("b", "")) == {"b"}
  {
    TwoTables();
    assert Lower("a") == "a" && Lower("b") == "b";
  }

  lemma SimpleConjunct(it: Interp)
    ensures var a, b := Ident(["a", "id"]), Ident(["b", "id"]);
      var p, on := Binary("=", a, Hint(b)), Binary("=", a, b);
      Conjuncts(p) == [p] && Joins([p], {"a", "b"}) == [JoinPred("b", on)] && Residuals([p]) == [] &&
      Accepted([p], {"a", "b"}) == 1 && Order([JoinPred("b", on)]) == ["b"] &&
      Hints(p) == 1 && !OrHidesHint(p) && Refs(it, on) == {"a", "b"}
  {
    hide ClassOf, Strip, Hints, OrHidesHint, Refs, Conjuncts;
    var a, b := Ident(["a", "id"]), Ident(["b", "id"]);
    var p, on := Binary("=", a, Hint(b)), Binary("=", a, b);
    SimpleHint(it);
    assert [p][..0] == [] && [p][1..] == [] && [JoinPred("b", on)][..0] == [];
  }

  lemma SimpleHint(it: Interp)
    ensures var a, b := Ident(["a", "id"]), Ident(["b", "id"]);
      var p, on := Binary("=", a, Hint(b)), Binary("=", a, b);
      Conjuncts(p) == [p] && ClassOf(p, {"a", "b"}) == JoinsOn("b") && Strip(p) == on &&
      Hints(p) == 1 && !OrHidesHint(p) && Refs(it, on) == {"a", "b"}
  {
    assert Upper("=") == "=" && Lower("a") == "a" && Lower("b") == "b";
  }

  lemma SimpleChain(items: seq<FromItem>, js: seq<JoinPred>)
    requires |items| == 2 && |js| == 1 && js[0].hinted == "b"
    ensures OnOf(js, "b") == [js[0].on]
    ensures Chain(items, map["a" := 0, "b" := 1], 0, ["b"], js) == LeftJoin(items[0], items[1], js[0].on)
    ensures LeftOver(items, Used(map["a" := 0, "b" := 1], 0, ["b"])) == []
  {
    var index := map["a" := 0, "b" := 1];
    assert js[..0] == [] && ["b"][..0] == [] && items[..1][..0] == [];
    assert OnOf(js, "b") == [js[0].on];
    assert "b" in ["b"] && index["b"] == 1;
    assert 0 in Used(index, 0, ["b"]) && 1 in Used(index, 0, ["b"]);
    assert LeftOver(items[..1], Used(index, 0, ["b"])) == [];
  }

  /* ---- an ON clause out of scope ---- */

  // FROM a, b, c WHERE c.id = b.id(+) is rewritten to FROM a LEFT JOIN b ON c.id = b.id, c, and
  // PostgreSQL does not know c in the ON clause: the base is the first table, not the one b is joined to.
  lemma BaseOutOfScope(it: Interp)
    ensures var a, b, c := Table("a", ""), Table("b", ""), Table("c", "");
      var left, right := Ident(["c", "id"]), Ident(["b", "id"]);
      var sel := Select([a, b, c], Some(Binary("=", left, Hint(right))));
      && Rewrites(sel) && AcceptedByPostgres(it, sel) && !Scoped(it, sel) && !AcceptedByPostgres(it, Rewritten(sel))
      && Rewritten(sel) == Select([LeftJoin(a, b, Binary("=", left, right)), c], None)
  {
    hide Rewrites, Rewritten, AcceptedByPostgres, Scoped;
    ThreeRewritten(it);
    ThreeAccepted(it);
    AcceptedWhen(it, [Table("a", ""), Table("b", ""), Table("c", "")]);
    ScopedExactly(it, Select([Table("a", ""), Table("b", ""), Table("c", "")],
                             Some(Binary("=", Ident(["c", "id"]), Hint(Ident(["b", "id"]))))));
  }

  lemma AcceptedWhen(it: Interp, items: seq<FromItem>)
    requires OnceEach(items) && forall f <- items :: InScope(it, f)
    ensures forall where :: AcceptedByPostgres(it, Select(items, where))
  {}

  lemma ThreeAccepted(it: Interp)
    ensures var items := [Table("a", ""), Table("b", ""), Table("c", "")];
      OnceEach(items) && forall f <- items :: InScope(it, f)
  {
    var a, b, c := Table("a", ""), Table("b", ""), Table("c", "");
    hide ItemAlias, Gather;
    TableNames();
    assert Leaves(a) == [a] && Leaves(b) == [b] && Leaves(c) == [c];
    assert [a, b, c] == [a] + [b] + [c];
    GatherAround([a], b, [c], Leaves);
    GatherOne(a, Leaves);
    GatherOne(c, Leaves);
    assert Gather([a, b, c], Leaves) == [a, b, c];
    ThreeOnce(a, b, c);
  }

  lemma ThreeOnce(a: FromItem, b: FromItem, c: FromItem)
    requires ItemAlias(a) != ItemAlias(b) && ItemAlias(b) != ItemAlias(c) && ItemAlias(a) != ItemAlias(c)
    ensures var m := multiset([a, b, c]);
      forall f, g :: f in m && g in m && ItemAlias(f) == ItemAlias(g) ==> f == g && m[f] == 1
  {
    hide ItemAlias;
    assert multiset([a, b, c]) == multiset{a, b, c};
  }

  lemma ThreeRewritten(it: Interp)
    ensures var a, b, c := Table("a", ""), Table("b", ""), Table("c", "");
      var left, right := Ident(["c", "id"]), Ident(["b", "id"]);
      var sel := Select([a, b, c], Some(Binary("=", left, Hint(right))));
      && Rewrites(sel) && Rewritten(sel) == Select([LeftJoin(a, b, Binary("=", left, right)), c], None)
      && !AcceptedByPostgres(it, Rewritten(sel))
  {
    var items := [Table("a", ""), Table("b", ""), Table("c", "")];
    var left, right := Ident(["c", "id"]), Ident(["b", "id"]);
    var p, on := Binary("=", left, Hint(right)), Binary("=", left, right);
    hide AliasIndex, Conjuncts, Joins, Residuals, Order, Chain, LeftOver, OnceEach,
      Used, Base, Accepted, OnOf, Hints, OrHidesHint, Refs, Aliases;
    ThreeIndex();
    ThreeConjunct(it);
    ThreeChain(items, [JoinPred("b", on)]);
    assert Joinable(map["a" := 0, "b" := 1, "c" := 2], 0, ["b"]);
    var sel := Select(items, Some(p));
    assert Rewrites(sel);
    assert Rewritten(sel) == Select([LeftJoin(items[0], items[1], on), items[2]], None);
    assert "c" in Refs(it, on) && "c" !in Aliases(items[0]) + Aliases(items[1]);
    assert !InScope(it, LeftJoin(items[0], items[1], on));
    assert Rewritten(sel).from[0] == LeftJoin(items[0], items[1], on);
    assert sel == Select([Table("a", ""), Table("b", ""), Table("c", "")], Some(p));
  }

  lemma ThreeIndex()
    ensures var items := [Table("a", ""), Table("b", ""), Table("c", "")];
      AliasIndex(items) == map["a" := 0, "b" := 1, "c" := 2] && AliasIndex(items).Keys == {"a", "b", "c"} &&
      Base(items, ["b"]) == 0 &&
      Aliases(Table("a", "")) == {"a"} && Aliases(Table("b", "")) == {"b"} && Aliases(Table("c", "")) == {"c"}
  {
    var items := [Table("a", ""), Table("b", ""), Table("c", "")];
    SimpleIndex();
    assert Lower("c") == "c" && Lower("a") == "a";
    assert items[..2] == [Table("a", ""), Table("b", "")];
  }

  lemma ThreeConjunct(it: Interp)
    ensures var c, b := Ident(["c", "id"]), Ident(["b", "id"]);
      var p, on := Binary("=", c, Hint(b)), Binary("=", c, b);
      Conjuncts(p) == [p] && Joins([p], {"a", "b", "c"}) == [JoinPred("b", on)] && Residuals([p]) == [] &&
      Accepted([p], {"a", "b", "c"}) == 1 && Order([JoinPred("b", on)]) == ["b"] &&
      Hints(p) == 1 && !OrHidesHint(p) && Refs(it, on) == {"c", "b"}
  {
    hide ClassOf, Strip, Hints, OrHidesHint, Refs, Conjuncts;
    var c, b := Ident(["c", "id"]), Ident(["b", "id"]);
    var p, on := Binary("=", c, Hint(b)), Binary("=", c, b);
    ThreeHint(it);
    assert [p][..0] == [] && [p][1..] == [] && [JoinPred("b", on)][..0] == [];
  }

  lemma ThreeHint(it: Interp)
    ensures var c, b := Ident(["c", "id"]), Ident(["b", "id"]);
      var p, on := Binary("=", c, Hint(b)), Binary("=", c, b);
      Conjuncts(p) == [p] && ClassOf(p, {"a", "b", "c"}) == JoinsOn("b") && Strip(p) == on &&
      Hints(p) == 1 && !OrHidesHint(p) && Refs(it, on) == {"c", "b"}
  {
    assert Upper("=") == "=" && Lower("c") == "c" && Lower("b") == "b";
  }

  lemma ThreeChain(items: seq<FromItem>, js: seq<JoinPred>)
    requires |items| == 3 && |js| == 1 && js[0].hinted == "b"
    ensures OnOf(js, "b") == [js[0].on]
    ensures Chain(items, map["a" := 0, "b" := 1, "c" := 2], 0, ["b"], js) == LeftJoin(items[0], items[1], js[0].on)
    ensures LeftOver(items, Used(map["a" := 0, "b" := 1, "c" := 2], 0, ["b"])) == [items[2]]
  {
    var index := map["a" := 0, "b" := 1, "c" := 2];
    assert js[..0] == [] && ["b"][..0] == [] && items[..2][..1][..0] == [];
    assert OnOf(js, "b") == [js[0].on];
    assert "b" in ["b"] && index["b"] == 1;
    assert 0 in Used(index, 0, ["b"]) && 1 in Used(index, 0, ["b"]) && 2 !in Used(index, 0, ["b"]);
    assert LeftOver(items[..2][..1], Used(index, 0, ["b"])) == [];
    assert LeftOver(items[..2], Used(index, 0, ["b"])) == [];
  }
}
