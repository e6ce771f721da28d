/** The rewrite of Oracle's `(+)` hints into a LEFT JOIN chain: the SELECT it returns, and what
    it does to the tree it was given. */
module OuterJoin {
  import opened Text
  import opened Wrappers

  datatype Expr =
    | Ident(parts: seq<string>)
    | Literal(text: string)
    | Call(name: string, args: Exprs)
    | Binary(op: string, lhs: Expr, rhs: Expr)
    | Unary(op: string, rhs: Expr)
    | Paren(inner: Expr)
    | Hint(inner: Expr)  // column marked with (+)

  datatype Exprs = Nil | Cons(head: Expr, tail: Exprs)

  datatype FromItem =
    | Table(name: string, alias: string)
    | Subquery(alias: string)
    | LeftJoin(left: FromItem, right: FromItem, on: Expr)

  datatype Select = Select(from: seq<FromItem>, where: Option<Expr>)

  predicate IsOp(op: string, name: string) {
    Upper(op) == name
  }

  /* ---- hints ---- */

  function Hints(e: Expr): nat {
    match e
    case Ident(_) => 0
    case Literal(_) => 0
    case Call(_, args) => HintsAll(args)
    case Binary(_, l, r) => Hints(l) + Hints(r)
    case Unary(_, x) => Hints(x)
    case Paren(x) => Hints(x)
    case Hint(x) => 1 + Hints(x)
  }

  function HintsAll(es: Exprs): nat {
    match es
    case Nil => 0
    case Cons(e, rest) => Hints(e) + HintsAll(rest)
  }

  function Strip(e: Expr): Expr {
    match e
    case Ident(_) => e
    case Literal(_) => e
    case Call(f, args) => Call(f, StripAll(args))
    case Binary(op, l, r) => Binary(op, Strip(l), Strip(r))
    case Unary(op, x) => Unary(op, Strip(x))
    case Paren(x) => Paren(Strip(x))
    case Hint(x) => Strip(x)
  }

  function StripAll(es: Exprs): Exprs {
    match es
    case Nil => Nil
    case Cons(e, rest) => Cons(Strip(e), StripAll(rest))
  }

  // A hint inside a top-level OR group, under any binary operator or parentheses.
  predicate OrHidesHint(e: Expr) {
    match e
    case Binary(op, l, r) => (IsOp(op, "OR") && Hints(e) > 0) || OrHidesHint(l) || OrHidesHint(r)
    case Paren(x) => OrHidesHint(x)
    case _ => false
  }

  /* ---- conjunctions ---- */

  function Conjuncts(e: Expr): (r: seq<Expr>)
    ensures r != []
  {
    match e
    case Binary(op, l, r) => if IsOp(op, "AND") then Conjuncts(l) + Conjuncts(r) else [e]
    case Paren(x) => Conjuncts(x)
    case _ => [e]
  }

  // The walk appends the conjuncts of e to out.
  method FlattenAnd(e: Expr, out: seq<Expr>) returns (r: seq<Expr>)
    ensures r == out + Conjuncts(e)
  {
    match e
    case Paren(x) => r := FlattenAnd(x, out);
    case Binary(op, a, b) =>
      if IsOp(op, "AND") {
        r := FlattenAnd(a, out);
        r := FlattenAnd(b, r);
      } else {
        r := out + [e];
      }
    case _ => r := out + [e];
  }

  // A left-leaning chain of ANDs.
  function AndAll(ps: seq<Expr>): Expr
    requires ps != []
  {
    if |ps| == 1 then ps[0] else Binary("AND", AndAll(ps[..|ps| - 1]), ps[|ps| - 1])
  }

  method FoldAnd(ps: seq<Expr>) returns (e: Expr)
    requires ps != []
    ensures e == AndAll(ps)
  {
    e := ps[0];
    var i := 1;
    while i < |ps|
      invariant 1 <= i <= |ps| && e == AndAll(ps[..i])
    {
      assert ps[..i + 1][..i] == ps[..i];
      e := Binary("AND", e, ps[i]);
      i := i + 1;
    }
    assert ps[..i] == ps;
  }

  /* ---- the FROM list ---- */

  function ItemAlias(f: FromItem): string {
    match f
    case Table(name, alias) => if alias != "" then Lower(alias) else Lower(name)
    case Subquery(alias) => Lower(alias)
    case LeftJoin(_, _, _) => ""
  }

  // Alias to position; a repeated alias names its last position.
  function AliasIndex(items: seq<FromItem>): (r: map<string, nat>)
    ensures forall a <- r :: a != "" && r[a] < |items| && ItemAlias(items[r[a]]) == a
  {
    if items == [] then map[]
    else
      var n := |items| - 1;
      var before := AliasIndex(items[..n]);
      if ItemAlias(items[n]) != "" then before[ItemAlias(items[n]) := n] else before
  }

  // The alias a column reference names, and whether it is hinted.
  function IdentAlias(e: Expr, aliases: set<string>): (string, bool) {
    match e
    case Hint(x) => (IdentAlias(x, aliases).0, true)
    case Ident(parts) =>
      if parts != [] && Lower(parts[0]) in aliases then (Lower(parts[0]), false) else ("", false)
    case _ => ("", false)
  }

  // The alias on the hinted side of a predicate, when the predicate has a shape the rewrite models.
  function HintedAlias(p: Expr, aliases: set<string>): Option<string> {
    match p
    case Binary(_, l, r) =>
      var (la, lh) := IdentAlias(l, aliases);
      var (ra, rh) := IdentAlias(r, aliases);
      if lh && rh then None
      else if lh && ra != "" && ra != la then Some(la)
      else if rh && la != "" && la != ra then Some(ra)
      else if lh && ra == "" then Some(la)
      else if rh && la == "" then Some(ra)
      else None
    case _ => None
  }

  // A conjunct stays in WHERE, goes to the ON clause of an alias, or is refused.
  datatype Class = Stays | JoinsOn(alias: string) | Refused

  function ClassOf(p: Expr, aliases: set<string>): Class {
    if Hints(p) == 0 then Stays
    else if Hints(p) > 1 then Refused
    else match HintedAlias(p, aliases) case Some(a) => JoinsOn(a) case None => Refused
  }

  /* ---- the rewritten SELECT ---- */

  // A hinted conjunct: the alias it joins, and its ON predicate, stripped.
  datatype JoinPred = JoinPred(hinted: string, on: Expr)

  function Joins(ps: seq<Expr>, aliases: set<string>): seq<JoinPred> {
    if ps == [] then []
    else
      var last := ps[|ps| - 1];
      Joins(ps[..|ps| - 1], aliases) +
      (match ClassOf(last, aliases) case JoinsOn(a) => [JoinPred(a, Strip(last))] case _ => [])
  }

  function Residuals(ps: seq<Expr>): seq<Expr> {
    if ps == [] then []
    else Residuals(ps[..|ps| - 1]) + (if Hints(ps[|ps| - 1]) == 0 then [ps[|ps| - 1]] else [])
  }

  // The hinted aliases, in order of first appearance.
  function Order(js: seq<JoinPred>): seq<string> {
    if js == [] then []
    else
      var before, h := Order(js[..|js| - 1]), js[|js| - 1].hinted;
      if h in before then before else before + [h]
  }

  // The ON predicates of one alias, in order.
  function OnOf(js: seq<JoinPred>, h: string): seq<Expr> {
    if js == [] then []
    else OnOf(js[..|js| - 1], h) + (if js[|js| - 1].hinted == h then [js[|js| - 1].on] else [])
  }

  // First item that is not hinted, 0 when every item is.
  function BaseFrom(items: seq<FromItem>, hinted: seq<string>, i: nat): nat
    decreases |items| - i
  {
    if i >= |items| then 0
    else if ItemAlias(items[i]) !in hinted then i
    else BaseFrom(items, hinted, i + 1)
  }

  function Base(items: seq<FromItem>, hinted: seq<string>): nat {
    BaseFrom(items, hinted, 0)
  }

  // Every hinted alias is an item of its own, other than the base and the ones before it.
  predicate Joinable(index: map<string, nat>, base: nat, hinted: seq<string>) {
    && (forall h <- hinted :: h in index && index[h] != base)
    && forall i, j :: 0 <= i < j < |hinted| && hinted[i] in index && hinted[j] in index ==>
      index[hinted[i]] != index[hinted[j]]
  }

  function Chain(items: seq<FromItem>, index: map<string, nat>, base: nat, hinted: seq<string>,
      js: seq<JoinPred>): FromItem
    requires base < |items| && (forall h <- hinted :: h in index && index[h] < |items|)
    requires forall h <- hinted :: OnOf(js, h) != []
  {
    if hinted == [] then items[base]
    else
      var h := hinted[|hinted| - 1];
      LeftJoin(Chain(items, index, base, hinted[..|hinted| - 1], js), items[index[h]], AndAll(OnOf(js, h)))
  }

  // The items that are neither the base nor hinted, in order.
  function LeftOver(items: seq<FromItem>, used: set<nat>): seq<FromItem> {
    if items == [] then []
    else LeftOver(items[..|items| - 1], used) + (if |items| - 1 in used then [] else [items[|items| - 1]])
  }

  function Used(index: map<string, nat>, base: nat, hinted: seq<string>): set<nat> {
    {base} + set h | h in hinted && h in index :: index[h]
  }

  lemma {:induction false} OrderedHaveConjuncts(js: seq<JoinPred>)
    ensures forall h <- Order(js) :: OnOf(js, h) != []
    ensures forall i, j :: 0 <= i < j < |Order(js)| ==> Order(js)[i] != Order(js)[j]
  {
    if js != [] {
      OrderedHaveConjuncts(js[..|js| - 1]);
    }
  }

  // How many conjuncts were classified before one was refused.
  function Accepted(ps: seq<Expr>, aliases: set<string>): (n: nat)
    ensures n <= |ps| && (n < |ps| ==> ClassOf(ps[n], aliases) == Refused)
    ensures forall i :: 0 <= i < n ==> ClassOf(ps[i], aliases) != Refused
  {
    if ps == [] || ClassOf(ps[0], aliases) == Refused then 0 else 1 + Accepted(ps[1..], aliases)
  }

  // Does the rewrite apply?
  predicate Rewrites(sel: Select) {
    && sel.where.Some? && Hints(sel.where.value) > 0 && !OrHidesHint(sel.where.value)
    && (var index := AliasIndex(sel.from);
        var ps := Conjuncts(sel.where.value);
        var js := Joins(ps, index.Keys);
        index != map[] && Accepted(ps, index.Keys) == |ps| && js != [] &&
        Joinable(index, Base(sel.from, Order(js)), Order(js)))
  }

  // FROM: the chain, then the items it does not use; WHERE: the residual conjuncts.
  function Assembled(items: seq<FromItem>, index: map<string, nat>, js: seq<JoinPred>, residuals: seq<Expr>): Select
    requires items != [] && (forall a <- index :: index[a] < |items|)
    requires Joinable(index, Base(items, Order(js)), Order(js))
  {
    var hinted := Order(js);
    var base := Base(items, hinted);
    OrderedHaveConjuncts(js);
    BaseInRange(items, hinted, 0);
    Select([Chain(items, index, base, hinted, js)] + LeftOver(items, Used(index, base, hinted)),
           if residuals == [] then None else Some(AndAll(residuals)))
  }

  function Rewritten(sel: Select): Select
    requires Rewrites(sel)
  {
    var index := AliasIndex(sel.from);
    var ps := Conjuncts(sel.where.value);
    Assembled(sel.from, index, Joins(ps, index.Keys), Residuals(ps))
  }

  lemma {:induction false} BaseInRange(items: seq<FromItem>, hinted: seq<string>, i: nat)
    requires items != []
    ensures BaseFrom(items, hinted, i) < |items|
    decreases |items| - i
  {
    if i < |items| && ItemAlias(items[i]) in hinted {
      BaseInRange(items, hinted, i + 1);
    }
  }

  /* ---- what is left of the tree the rewrite was given ---- */

  // The WHERE tree once its first n conjuncts have lost their hints, in place.
  function StripFirst(e: Expr, n: nat): Expr {
    if n == 0 then e
    else
      match e
      case Binary(op, l, r) =>
        if IsOp(op, "AND") then
          var nl := |Conjuncts(l)|;
          if n <= nl then Binary(op, StripFirst(l, n), r)
          else Binary(op, StripFirst(l, nl), StripFirst(r, n - nl))
        else Strip(e)
      case Paren(x) => Paren(StripFirst(x, n))
      case _ => Strip(e)
  }

  // Conjuncts stripped in place by a call that refuses the SELECT.
  function StrippedCount(sel: Select): nat {
    if sel.where.None? || Hints(sel.where.value) == 0 || OrHidesHint(sel.where.value) ||
       AliasIndex(sel.from) == map[] then 0
    else Accepted(Conjuncts(sel.where.value), AliasIndex(sel.from).Keys)
  }

  function WhereAfter(sel: Select): Option<Expr> {
    match sel.where
    case None => None
    case Some(e) => Some(StripFirst(e, StrippedCount(sel)))
  }

  /* ---- the visitor ---- */

  // Sorts the conjuncts into join predicates and residuals; stops at the first refused one.
  method Classify(ps: seq<Expr>, aliases: set<string>) returns (js: seq<JoinPred>, residuals: seq<Expr>, n: nat)
    ensures n == Accepted(ps, aliases)
    ensures n == |ps| ==> js == Joins(ps, aliases) && residuals == Residuals(ps)
  {
    js, residuals, n := [], [], 0;
    while n < |ps|
      invariant n <= |ps| && js == Joins(ps[..n], aliases) && residuals == Residuals(ps[..n])
      invariant Accepted(ps, aliases) == n + Accepted(ps[n..], aliases)
    {
      var p := ps[n];
      assert ps[..n + 1][..n] == ps[..n];
      if Hints(p) == 0 {
        residuals := residuals + [p];
      } else {
        if Hints(p) > 1 {
          return;
        }
        var hinted := HintedAlias(p, aliases);
        if hinted.None? {
          return;
        }
        js := js + [JoinPred(hinted.value, Strip(p))];
      }
      n := n + 1;
    }
    assert ps[..n] == ps;
  }

  // Groups the join predicates by hinted alias, in order of first appearance.
  method Group(js: seq<JoinPred>) returns (byHinted: map<string, seq<Expr>>, order: seq<string>)
    ensures order == Order(js) && (forall h :: h in byHinted <==> h in order)
    ensures forall h <- order :: byHinted[h] == OnOf(js, h)
  {
    byHinted, order := map[], [];
    var i := 0;
    while i < |js|
      invariant i <= |js| && order == Order(js[..i]) && (forall h :: h in byHinted <==> h in order)
      invariant forall h :: OnOf(js[..i], h) == if h in byHinted then byHinted[h] else []
    {
      assert js[..i + 1][..i] == js[..i];
      var h := js[i].hinted;
      if h !in byHinted {
        order := order + [h];
      }
      byHinted := byHinted[h := (if h in byHinted then byHinted[h] else []) + [js[i].on]];
      i := i + 1;
    }
    assert js[..i] == js;
  }

  method FindBase(items: seq<FromItem>, hinted: seq<string>) returns (base: nat)
    ensures base == Base(items, hinted)
  {
    base := 0;
    while base < |items| && ItemAlias(items[base]) in hinted
      invariant base <= |items| && BaseFrom(items, hinted, base) == Base(items, hinted)
    {
      base := base + 1;
    }
    if base >= |items| {
      base := 0;
    }
  }

  // The LEFT JOIN chain, or None when an alias is missing or its item is already used.
  method BuildChain(items: seq<FromItem>, index: map<string, nat>, base: nat, order: seq<string>,
                    byHinted: map<string, seq<Expr>>, ghost js: seq<JoinPred>)
    returns (tree: Option<FromItem>, consumed: set<nat>)
    requires base < |items| && (forall a <- index :: index[a] < |items|)
    requires forall h <- order :: h in byHinted && byHinted[h] == OnOf(js, h) && OnOf(js, h) != []
    ensures tree.Some? <==> Joinable(index, base, order)
    ensures tree.Some? ==> tree.value == Chain(items, index, base, order, js) && consumed == Used(index, base, order)
  {
    hide OnOf, AndAll, Used;
    tree, consumed := Some(items[base]), {base};
    NoneJoined(index, base);
    var i := 0;
    while i < |order|
      invariant i <= |order| && Joinable(index, base, order[..i]) && consumed == Used(index, base, order[..i])
      invariant tree == Some(Chain(items, index, base, order[..i], js))
    {
      var h := order[i];
      assert order[..i + 1][..i] == order[..i];
      JoinOne(index, base, order, i);
      if h !in index {
        return None, consumed;
      }
      if index[h] in consumed {
        return None, consumed;
      }
      var on := FoldAnd(byHinted[h]);
      tree := Some(LeftJoin(tree.value, items[index[h]], on));
      consumed := consumed + {index[h]};
      i := i + 1;
    }
    assert order[..i] == order;
  }

  lemma NoneJoined(index: map<string, nat>, base: nat)
    ensures Joinable(index, base, []) && Used(index, base, []) == {base}
  {}

  // One alias more can be joined exactly when it has an item that is not used yet.
  lemma JoinOne(index: map<string, nat>, base: nat, order: seq<string>, i: nat)
    requires i < |order| && Joinable(index, base, order[..i])
    ensures var h := order[i];
      && (h in index && index[h] !in Used(index, base, order[..i]) ==>
            Joinable(index, base, order[..i + 1]) &&
              Used(index, base, order[..i + 1]) == Used(index, base, order[..i]) + {index[h]})
      && (h !in index || index[h] in Used(index, base, order[..i]) ==> !Joinable(index, base, order))
  {
    var h := order[i];
    assert h in order && forall k :: k in order[..i + 1] <==> k in order[..i] || k == h;
    if h in index && index[h] in Used(index, base, order[..i]) && index[h] != base {
      var g :| g in order[..i] && g in index && index[g] == index[h];
      var k :| 0 <= k < i && order[k] == g;
      assert order[k] in order && order[i] in order;
    }
  }

  method KeepOthers(items: seq<FromItem>, consumed: set<nat>) returns (r: seq<FromItem>)
    ensures r == LeftOver(items, consumed)
  {
    r := [];
    var i := 0;
    while i < |items|
      invariant i <= |items| && r == LeftOver(items[..i], consumed)
    {
      assert items[..i + 1][..i] == items[..i];
      if i !in consumed {
        r := r + [items[i]];
      }
      i := i + 1;
    }
    assert items[..i] == items;
  }

  lemma NothingStripped(e: Expr)
    ensures StripFirst(e, 0) == e
  {}

  lemma IndexedItems(items: seq<FromItem>)
    ensures AliasIndex(items) != map[] ==> items != []
  {}

  // None: the SELECT is returned as it was given. after is the given WHERE tree once the call
  // is over: stripping a predicate changes the tree in place.
  method VisitOuterJoin(sel: Select) returns (out: Option<Select>, after: Option<Expr>)
    ensures out == if Rewrites(sel) then Some(Rewritten(sel)) else None
    ensures after == WhereAfter(sel)
  {
    hide Conjuncts, Hints, OrHidesHint, AliasIndex, Joins, Residuals, Accepted,
      StripFirst, Assembled, Joinable, Order, Base;
    if sel.where.None? {
      return None, None;
    }
    var e := sel.where.value;
    NothingStripped(e);
    if Hints(e) == 0 {
      return None, sel.where;
    }
    var ps := FlattenAnd(e, []);
    assert ps == Conjuncts(e);
    if OrHidesHint(e) {
      return None, sel.where;
    }
    var index := AliasIndex(sel.from);
    if index == map[] {
      return None, sel.where;
    }
    IndexedItems(sel.from);
    var js, residuals, n := Classify(ps, index.Keys);
    after := Some(StripFirst(e, n));
    if n < |ps| || js == [] {
      return None, after;
    }
    out := BuildSelect(sel.from, index, js, residuals);
  }

  // The SELECT rebuilt from the classified conjuncts, when every hinted item can be joined.
  method BuildSelect(items: seq<FromItem>, index: map<string, nat>, js: seq<JoinPred>, residuals: seq<Expr>)
    returns (out: Option<Select>)
    requires items != [] && (forall a <- index :: index[a] < |items|)
    ensures out.Some? <==> Joinable(index, Base(items, Order(js)), Order(js))
    ensures out.Some? ==> out.value == Assembled(items, index, js, residuals)
  {
    hide Chain, Used, LeftOver, Joinable, OnOf, Order;
    var byHinted, order := Group(js);
    OrderedHaveConjuncts(js);
    var base := FindBase(items, order);
    BaseInRange(items, order, 0);
    var tree, consumed := BuildChain(items, index, base, order, byHinted, js);
    if tree.None? {
      return None;
    }
    var others := KeepOthers(items, consumed);
    var where := None;
    if residuals != [] {
      var folded := FoldAnd(residuals);
      where := Some(folded);
    }
    out := Some(Select([tree.value] + others, where));
  }
}
