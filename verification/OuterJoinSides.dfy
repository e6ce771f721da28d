/** Which SELECTs are rewritten, and which table each hint joins, read off the SELECT itself. */
module OuterJoinSides {
  import opened Text
  import opened Wrappers
  import opened OuterJoin
  import opened OuterJoinParts

  /* ---- a hinted comparison ---- */

  // One side is a marked column with the name q, the other side is other and has no mark.
  ghost predicate Tagged(p: Expr, q: seq<string>, other: Expr) {
    p.Binary? && Hints(other) == 0 &&
    ((p.lhs == Hint(Ident(q)) && p.rhs == other) || (p.rhs == Hint(Ident(q)) && p.lhs == other))
  }

  // The comparison without its mark.
  ghost function Unmarked(p: Expr, q: seq<string>): Expr
    requires p.Binary?
  {
    if p.lhs == Hint(Ident(q)) then Binary(p.op, Ident(q), p.rhs) else Binary(p.op, p.lhs, Ident(q))
  }

  // The table or subquery is known by that name in the query.
  ghost predicate NamedAs(f: FromItem, name: string) {
    match f
    case Table(n, alias) => Lower(name) == Lower(if alias == "" then n else alias)
    case Subquery(alias) => Lower(name) == Lower(alias)
    case LeftJoin(_, _, _) => false
  }

  // A column of the table called a, which is in lower case.
  ghost predicate ColumnOf(e: Expr, a: string) {
    e.Ident? && e.parts != [] && Lower(e.parts[0]) == a
  }

  lemma LowerTwice(s: string)
    ensures Lower(Lower(s)) == Lower(s) && (Lower(s) == "" <==> s == "")
  {}

  lemma {:induction false} Indexed(items: seq<FromItem>, a: string)
    ensures a in AliasIndex(items) <==> a != "" && exists f <- items :: ItemAlias(f) == a
  {
    if items != [] {
      var n := |items| - 1;
      Indexed(items[..n], a);
      assert forall f <- items :: f in items[..n] || f == items[n];
      assert forall f <- items[..n] :: f in items;
      assert items[n] in items;
    }
  }

  lemma NamedIsAlias(f: FromItem, name: string)
    requires name != ""
    ensures NamedAs(f, name) <==> ItemAlias(f) == Lower(name)
  {
    LowerTwice(name);
  }

  // Swapping the sides of a comparison leaves its class unchanged.
  lemma SidesAlike(op: string, l: Expr, r: Expr, aliases: set<string>)
    ensures ClassOf(Binary(op, l, r), aliases) == ClassOf(Binary(op, r, l), aliases)
  {}

  // A conjunct joins the table called a exactly when it is a comparison, on either side, of a marked
  // column of a and something without a mark that is not itself a column of a.
  lemma ClassExactly(p: Expr, aliases: set<string>, a: string)
    requires a != "" && a in aliases
    ensures ClassOf(p, aliases) == JoinsOn(a) <==>
      exists q, other :: Tagged(p, q, other) && q != [] && Lower(q[0]) == a && !ColumnOf(other, a)
  {
    if ClassOf(p, aliases) == JoinsOn(a) {
      var q, other := SideOf(p, aliases, a);
    }
    if q, other :| Tagged(p, q, other) && q != [] && Lower(q[0]) == a && !ColumnOf(other, a) {
      TaggedClass(p, q, other, aliases, a);
    }
  }

  lemma MarkHints(q: seq<string>)
    ensures Hints(Hint(Ident(q))) == 1 && Strip(Hint(Ident(q))) == Ident(q)
  {
    assert Hints(Ident(q)) == 0 && Strip(Ident(q)) == Ident(q);
  }

  lemma MarkAlias(q: seq<string>, aliases: set<string>)
    requires q != [] && Lower(q[0]) in aliases
    ensures IdentAlias(Hint(Ident(q)), aliases) == (Lower(q[0]), true)
  {
    assert IdentAlias(Ident(q), aliases) == (Lower(q[0]), false);
  }

  lemma TaggedClass(p: Expr, q: seq<string>, other: Expr, aliases: set<string>, a: string)
    requires a != "" && a in aliases && Tagged(p, q, other) && q != [] && Lower(q[0]) == a && !ColumnOf(other, a)
    ensures ClassOf(p, aliases) == JoinsOn(a)
  {
    MarkHints(q);
    MarkAlias(q, aliases);
  }

  lemma SideOf(p: Expr, aliases: set<string>, a: string) returns (q: seq<string>, other: Expr)
    requires a != "" && ClassOf(p, aliases) == JoinsOn(a)
    ensures Tagged(p, q, other) && q != [] && Lower(q[0]) == a && !ColumnOf(other, a) && a in aliases
  {
    assert p.Binary? && Hints(p) == Hints(p.lhs) + Hints(p.rhs) == 1;
    if p.lhs.Hint? {
      q := MarkedName(p.lhs, aliases);
      other := p.rhs;
    } else {
      q := MarkedName(p.rhs, aliases);
      other := p.lhs;
    }
  }

  lemma MarkedName(e: Expr, aliases: set<string>) returns (q: seq<string>)
    requires e.Hint? && Hints(e) == 1 && IdentAlias(e, aliases).0 != ""
    ensures e == Hint(Ident(q)) && q != [] && Lower(q[0]) == IdentAlias(e, aliases).0 && Lower(q[0]) in aliases
  {
    q := e.inner.parts;
  }

  /* ---- the table a hint joins ---- */

  // An outer join with that right side and that ON clause, in f or to the left of it.
  ghost predicate HasJoin(f: FromItem, right: FromItem, on: Expr) {
    f.LeftJoin? && ((f.right == right && f.on == on) || HasJoin(f.left, right, on))
  }

  lemma {:induction false} ChainJoins(items: seq<FromItem>, index: map<string, nat>, base: nat, hinted: seq<string>,
                                      js: seq<JoinPred>, h: string)
    requires base < |items| && (forall g <- hinted :: g in index && index[g] < |items|)
    requires (forall g <- hinted :: OnOf(js, g) != []) && h in hinted
    ensures HasJoin(Chain(items, index, base, hinted, js), items[index[h]], AndAll(OnOf(js, h)))
  {
    if h != hinted[|hinted| - 1] {
      ChainJoins(items, index, base, hinted[..|hinted| - 1], js, h);
    }
  }

  lemma {:induction false} ChainOnly(items: seq<FromItem>, index: map<string, nat>, base: nat, hinted: seq<string>,
                                     js: seq<JoinPred>, right: FromItem, on: Expr)
    requires base < |items| && (forall g <- hinted :: g in index && index[g] < |items|)
    requires (forall g <- hinted :: OnOf(js, g) != [])
    requires HasJoin(Chain(items, index, base, hinted, js), right, on)
    ensures HasJoin(items[base], right, on) ||
            exists h <- hinted :: right == items[index[h]] && on == AndAll(OnOf(js, h))
  {
    if hinted != [] {
      var before, h := hinted[..|hinted| - 1], hinted[|hinted| - 1];
      assert h in hinted && forall g <- before :: g in hinted;
      if !(right == items[index[h]] && on == AndAll(OnOf(js, h))) {
        ChainOnly(items, index, base, before, js, right, on);
      }
    }
  }

  lemma {:induction false} Joined(ps: seq<Expr>, aliases: set<string>, p: Expr, a: string)
    requires p in ps && ClassOf(p, aliases) == JoinsOn(a)
    ensures JoinPred(a, Strip(p)) in Joins(ps, aliases)
  {
    if p != ps[|ps| - 1] {
      Joined(ps[..|ps| - 1], aliases, p, a);
    }
  }

  lemma {:induction false} JoinedFrom(ps: seq<Expr>, aliases: set<string>, j: JoinPred) returns (p: Expr)
    requires j in Joins(ps, aliases)
    ensures p in ps && ClassOf(p, aliases) == JoinsOn(j.hinted) && j.on == Strip(p)
  {
    var n := |ps| - 1;
    if j in Joins(ps[..n], aliases) {
      p := JoinedFrom(ps[..n], aliases, j);
    } else {
      p := ps[n];
    }
  }

  lemma {:induction false} Ordered(js: seq<JoinPred>, h: string)
    ensures h in Order(js) <==> exists j <- js :: j.hinted == h
  {
    if js != [] {
      var n := |js| - 1;
      Ordered(js[..n], h);
      assert forall j <- js :: j in js[..n] || j == js[n];
      assert js[n] in js && forall j <- js[..n] :: j in js;
    }
  }

  lemma {:induction false} OnOfExactly(js: seq<JoinPred>, h: string, p: Expr)
    ensures p in OnOf(js, h) <==> JoinPred(h, p) in js
  {
    if js != [] {
      var n := |js| - 1;
      OnOfExactly(js[..n], h, p);
      assert js[n] in js && forall j <- js :: j in js[..n] || j == js[n];
    }
  }

  // The hinted tables are joined in the order in which the conjuncts first name them.
  lemma {:induction false} OrderFirst(js: seq<JoinPred>, i: nat, k: nat) returns (m: nat)
    requires i < k < |Order(js)|
    ensures m < |js| && js[m].hinted == Order(js)[i] && forall l :: 0 <= l <= m ==> js[l].hinted != Order(js)[k]
  {
    var n := |js| - 1;
    if k < |Order(js[..n])| {
      m := OrderFirst(js[..n], i, k);
    } else {
      Ordered(js[..n], Order(js)[i]);
      Ordered(js[..n], Order(js)[k]);
      var j :| j in js[..n] && j.hinted == Order(js)[i];
      m :| 0 <= m < n && js[m] == j;
      assert forall l :: 0 <= l < n ==> js[l] in js[..n];
    }
  }

  lemma Clause(ps: seq<Expr>, aliases: set<string>, a: string)
    requires (forall p <- ps :: Single(p)) && OnOf(Joins(ps, aliases), a) != []
    ensures Conjuncts(AndAll(OnOf(Joins(ps, aliases), a))) == OnOf(Joins(ps, aliases), a)
  {
    JoinsSingle(ps, aliases);
    OnOfMembers(Joins(ps, aliases), a);
    FoldedConjuncts(OnOf(Joins(ps, aliases), a));
  }

  lemma UnmarkedIsStrip(p: Expr, q: seq<string>, other: Expr)
    requires Tagged(p, q, other)
    ensures Strip(p) == Unmarked(p, q)
  {
    MarkHints(q);
    StripKeepsUnhinted(other);
  }

  lemma MarkedNotStays(p: Expr, q: seq<string>, aliases: set<string>)
    requires p.Binary? && (p.lhs == Hint(Ident(q)) || p.rhs == Hint(Ident(q)))
    ensures Hints(p) > 0 && ClassOf(p, aliases) != Stays
  {
    MarkHints(q);
  }

  lemma MarkedSide(p: Expr, q: seq<string>, aliases: set<string>, a: string) returns (other: Expr)
    requires p.Binary? && (p.lhs == Hint(Ident(q)) || p.rhs == Hint(Ident(q)))
    requires a != "" && ClassOf(p, aliases) == JoinsOn(a)
    ensures Tagged(p, q, other) && q != [] && Lower(q[0]) == a
  {
    MarkHints(q);
    assert Hints(p) == Hints(p.lhs) + Hints(p.rhs);
    var q1;
    q1, other := SideOf(p, aliases, a);
  }

  // The parts of the rewritten FROM: the chain that starts it, and the alias of what each hint joins.
  lemma ChainFirst(sel: Select) returns (base: nat)
    requires Rewrites(sel)
    ensures var index := AliasIndex(sel.from);
      var js := Joins(Conjuncts(sel.where.value), index.Keys);
      && base == BaseFrom(sel.from, Order(js), 0) < |sel.from|
      && (forall h <- Order(js) :: h in index && index[h] < |sel.from| && OnOf(js, h) != [])
      && Rewritten(sel).from != []
      && Rewritten(sel).from[0] == Chain(sel.from, index, base, Order(js), js)
      && forall p <- Conjuncts(sel.where.value) :: ClassOf(p, index.Keys) != Refused
  {
    hide Conjuncts, AliasIndex, OrHidesHint, Joins, Residuals, Order, Hints,
      AndAll, OnOf, Chain, LeftOver, Used, ClassOf, BaseFrom, Accepted;
    var index := AliasIndex(sel.from);
    var js := Joins(Conjuncts(sel.where.value), index.Keys);
    OrderedHaveConjuncts(js);
    IndexedItems(sel.from);
    BaseInRange(sel.from, Order(js), 0);
    AllClassified(Conjuncts(sel.where.value), index.Keys);
    base := Base(sel.from, Order(js));
  }

  // In a rewritten SELECT the conjunct with a marked column, on either side, is, without the mark, in the ON
  // clause of an outer join whose right side is the table the column names.
  lemma HintedSideJoins(sel: Select, p: Expr, q: seq<string>) returns (right: FromItem, on: Expr)
    requires Rewrites(sel) && p in Conjuncts(sel.where.value)
    requires p.Binary? && (p.lhs == Hint(Ident(q)) || p.rhs == Hint(Ident(q)))
    ensures q != [] && q[0] != "" && right in sel.from && NamedAs(right, q[0])
    ensures Rewritten(sel).from != [] && HasJoin(Rewritten(sel).from[0], right, on)
    ensures Unmarked(p, q) in Conjuncts(on)
  {
    hide Conjuncts, AliasIndex, OrHidesHint, Joinable, BaseFrom, Joins, Residuals, Order, Hints, Single, AndAll,
      OnOf, Chain, LeftOver, HasJoin, IdentAlias, ClassOf, Strip, Unmarked, Used, Accepted, Rewritten, Tagged, NamedAs;
    var items, index, ps := sel.from, AliasIndex(sel.from), Conjuncts(sel.where.value);
    var js := Joins(ps, index.Keys);
    var base := ChainFirst(sel);
    MarkedNotStays(p, q, index.Keys);
    var a := ClassOf(p, index.Keys).alias;
    Joined(ps, index.Keys, p, a);
    Ordered(js, a);
    assert index[a] < |items|;
    var other := MarkedSide(p, q, index.Keys, a);
    OnOfExactly(js, a, Strip(p));
    ConjunctsSingle(sel.where.value);
    Clause(ps, index.Keys, a);
    ChainJoins(items, index, base, Order(js), js, a);
    right, on := items[index[a]], AndAll(OnOf(js, a));
    LowerTwice(q[0]);
    NamedIsAlias(right, q[0]);
    UnmarkedIsStrip(p, q, other);
  }

  // Every other outer join of the rewritten FROM was given: the conjuncts of its ON clause are hinted ones that
  // name its right side.
  lemma JoinedIsHinted(sel: Select, right: FromItem, on: Expr, c: Expr)
    returns (p: Expr, q: seq<string>, other: Expr)
    requires Rewrites(sel) && Rewritten(sel).from != [] && HasJoin(Rewritten(sel).from[0], right, on)
    requires forall f <- sel.from :: !HasJoin(f, right, on)
    requires c in Conjuncts(on)
    ensures p in Conjuncts(sel.where.value) && Tagged(p, q, other) && c == Unmarked(p, q)
    ensures q != [] && right in sel.from && NamedAs(right, q[0])
  {
    hide Conjuncts, AliasIndex, OrHidesHint, Joinable, BaseFrom, Joins, Residuals, Order, Hints, Single, AndAll,
      OnOf, Chain, LeftOver, HasJoin, IdentAlias, ClassOf, Strip, Unmarked, Used, Accepted, Rewritten, Tagged, NamedAs;
    var items, index, ps := sel.from, AliasIndex(sel.from), Conjuncts(sel.where.value);
    var js := Joins(ps, index.Keys);
    var base := ChainFirst(sel);
    ChainOnly(items, index, base, Order(js), js, right, on);
    assert items[base] in items;
    var h :| h in Order(js) && right == items[index[h]] && on == AndAll(OnOf(js, h));
    ConjunctsSingle(sel.where.value);
    Clause(ps, index.Keys, h);
    OnOfExactly(js, h, c);
    p := JoinedFrom(ps, index.Keys, JoinPred(h, c));
    q, other := SideOf(p, index.Keys, h);
    LowerTwice(q[0]);
    assert index[h] < |items|;
    NamedIsAlias(right, q[0]);
    UnmarkedIsStrip(p, q, other);
  }

  /* ---- which SELECTs are rewritten ---- */

  // A comparison other than OR between a marked column of one of the items and something without a mark that is
  // no column of that item.
  ghost predicate JoinsItem(items: seq<FromItem>, p: Expr) {
    p.Binary? && !IsOp(p.op, "OR") && exists q, other :: Tagged(p, q, other) && Resolves(items, q, other)
  }

  ghost predicate Resolves(items: seq<FromItem>, q: seq<string>, other: Expr) {
    q != [] && q[0] != "" && (exists f <- items :: NamedAs(f, q[0])) && !ColumnOf(other, Lower(q[0]))
  }

  // A marked column of the conjuncts names the item.
  ghost predicate Marked(ps: seq<Expr>, f: FromItem) {
    exists p <- ps, q, other :: Tagged(p, q, other) && q != [] && q[0] != "" && NamedAs(f, q[0])
  }

  // The chain has an item to start from: one no hint names, or a first item whose name is used again.
  ghost predicate HasStart(items: seq<FromItem>, ps: seq<Expr>) {
    || (exists f <- items :: !Marked(ps, f))
    || (exists k :: 0 < k < |items| && ItemAlias(items[k]) == ItemAlias(items[0]))
  }

  lemma {:induction false} HintedConjunct(e: Expr)
    ensures Hints(e) > 0 <==> exists p <- Conjuncts(e) :: Hints(p) > 0
  {
    match e
    case Binary(op, l, r) =>
      if IsOp(op, "AND") {
        HintedConjunct(l);
        HintedConjunct(r);
        assert forall p :: p in Conjuncts(e) <==> p in Conjuncts(l) || p in Conjuncts(r);
      } else {
        assert e in Conjuncts(e);
      }
    case Paren(x) => HintedConjunct(x);
    case _ => assert e in Conjuncts(e);
  }

  lemma {:induction false} HiddenConjunct(e: Expr)
    ensures OrHidesHint(e) <==> exists p <- Conjuncts(e) :: OrHidesHint(p)
  {
    match e
    case Binary(op, l, r) =>
      if IsOp(op, "AND") {
        hide Hints;
        HiddenConjunct(l);
        HiddenConjunct(r);
        assert forall p :: p in Conjuncts(e) <==> p in Conjuncts(l) || p in Conjuncts(r);
      } else {
        assert e in Conjuncts(e);
      }
    case Paren(x) => HiddenConjunct(x);
    case _ => assert e in Conjuncts(e);
  }

  lemma {:induction false} NothingHidden(e: Expr)
    requires Hints(e) == 0
    ensures !OrHidesHint(e)
  {
    match e
    case Binary(_, l, r) => NothingHidden(l); NothingHidden(r);
    case Paren(x) => NothingHidden(x);
    case _ =>
  }

  // A conjunct is neither refused nor hides a hint under OR exactly when it has no hint or joins an item.
  lemma ConjunctExactly(items: seq<FromItem>, p: Expr)
    ensures
      !OrHidesHint(p) && ClassOf(p, AliasIndex(items).Keys) != Refused &&
      ClassOf(p, AliasIndex(items).Keys) != JoinsOn("")
      <==> Hints(p) == 0 || JoinsItem(items, p)
  {
    hide OrHidesHint, AliasIndex, ClassOf, Hints, Tagged, NamedAs, ColumnOf;
    var aliases := AliasIndex(items).Keys;
    if Hints(p) == 0 {
      NothingHidden(p);
      NoHintStays(p, aliases);
    } else if !OrHidesHint(p) && ClassOf(p, aliases) != Refused && ClassOf(p, aliases) != JoinsOn("") {
      HintedClass(p, aliases);
      var a := ClassOf(p, aliases).alias;
      var q, other := SideOf(p, aliases, a);
      Indexed(items, a);
      var f :| f in items && ItemAlias(f) == a;
      LowerTwice(q[0]);
      NamedIsAlias(f, q[0]);
      TaggedNotOr(p, q, other);
    } else if JoinsItem(items, p) {
      var q, other :| Tagged(p, q, other) && Resolves(items, q, other);
      var f :| f in items && NamedAs(f, q[0]);
      LowerTwice(q[0]);
      NamedIsAlias(f, q[0]);
      Indexed(items, Lower(q[0]));
      TaggedClass(p, q, other, aliases, Lower(q[0]));
      TaggedNotOr(p, q, other);
    }
  }

  lemma NoHintStays(p: Expr, aliases: set<string>)
    requires Hints(p) == 0
    ensures ClassOf(p, aliases) == Stays
  {}

  lemma HintedClass(p: Expr, aliases: set<string>)
    requires Hints(p) > 0 && ClassOf(p, aliases) != Refused
    ensures ClassOf(p, aliases).JoinsOn?
  {}

  lemma TaggedNotOr(p: Expr, q: seq<string>, other: Expr)
    requires Tagged(p, q, other)
    ensures p.Binary? && (OrHidesHint(p) <==> IsOp(p.op, "OR"))
  {
    NothingHidden(other);
    MarkHints(q);
    assert !OrHidesHint(Hint(Ident(q)));
  }

  lemma {:induction false} LastOfName(items: seq<FromItem>, k: nat)
    requires k < |items| && ItemAlias(items[k]) != ""
    ensures ItemAlias(items[k]) in AliasIndex(items) && k <= AliasIndex(items)[ItemAlias(items[k])]
  {
    if k < |items| - 1 {
      LastOfName(items[..|items| - 1], k);
    }
  }

  lemma {:induction false} StartOf(items: seq<FromItem>, hinted: seq<string>, i: nat)
    requires i <= |items| && forall k :: 0 <= k < i ==> ItemAlias(items[k]) in hinted
    ensures var b := BaseFrom(items, hinted, i);
      || (b < |items| && ItemAlias(items[b]) !in hinted && forall k :: 0 <= k < b ==> ItemAlias(items[k]) in hinted)
      || (b == 0 && forall f <- items :: ItemAlias(f) in hinted)
    decreases |items| - i
  {
    if i < |items| && ItemAlias(items[i]) in hinted {
      StartOf(items, hinted, i + 1);
    }
  }

  lemma StartExactly(items: seq<FromItem>, hinted: seq<string>)
    requires items != [] && (forall h <- hinted :: h in AliasIndex(items))
    requires forall i, k :: 0 <= i < k < |hinted| ==> hinted[i] != hinted[k]
    ensures Joinable(AliasIndex(items), Base(items, hinted), hinted) <==>
      || (exists f <- items :: ItemAlias(f) !in hinted)
      || (exists k :: 0 < k < |items| && ItemAlias(items[k]) == ItemAlias(items[0]))
  {
    hide AliasIndex, BaseFrom, ItemAlias;
    StartOf(items, hinted, 0);
    var index, base := AliasIndex(items), Base(items, hinted);
    assert forall h <- hinted :: index[h] < |items| && ItemAlias(items[index[h]]) == h;
    if forall f <- items :: ItemAlias(f) in hinted {
      assert items[0] in items && items[base] in items;
      LastOfName(items, 0);
      if k :| 0 < k < |items| && ItemAlias(items[k]) == ItemAlias(items[0]) {
        LastOfName(items, k);
      }
    } else {
      assert ItemAlias(items[base]) !in hinted;
    }
  }

  lemma TaggedOnce(p: Expr, q: seq<string>, other: Expr, q2: seq<string>, other2: Expr)
    requires Tagged(p, q, other) && Tagged(p, q2, other2)
    ensures q == q2 && other == other2
  {
    MarkHints(q);
    MarkHints(q2);
  }

  lemma TaggedJoins(items: seq<FromItem>, p: Expr, q: seq<string>, other: Expr)
    requires JoinsItem(items, p) && Tagged(p, q, other)
    ensures q != [] && Lower(q[0]) != "" && Lower(q[0]) in AliasIndex(items)
    ensures ClassOf(p, AliasIndex(items).Keys) == JoinsOn(Lower(q[0]))
  {
    hide AliasIndex, ClassOf, Hints, Tagged, NamedAs, ColumnOf;
    var q2, other2 :| Tagged(p, q2, other2) && Resolves(items, q2, other2);
    TaggedOnce(p, q, other, q2, other2);
    var f :| f in items && NamedAs(f, q[0]);
    LowerTwice(q[0]);
    NamedIsAlias(f, q[0]);
    Indexed(items, Lower(q[0]));
    TaggedClass(p, q, other, AliasIndex(items).Keys, Lower(q[0]));
  }

  lemma TaggedHasHint(p: Expr, q: seq<string>, other: Expr)
    requires Tagged(p, q, other)
    ensures Hints(p) > 0
  {
    MarkHints(q);
  }

  lemma MarkedExactly(items: seq<FromItem>, ps: seq<Expr>, f: FromItem)
    requires forall p <- ps :: Hints(p) == 0 || JoinsItem(items, p)
    ensures Marked(ps, f) <==> ItemAlias(f) in Order(Joins(ps, AliasIndex(items).Keys))
  {
    hide AliasIndex, ClassOf, Hints, Tagged, NamedAs, ColumnOf, ItemAlias, JoinsItem, Order, Joins;
    var aliases := AliasIndex(items).Keys;
    var js := Joins(ps, aliases);
    Ordered(js, ItemAlias(f));
    if Marked(ps, f) {
      var p, q, other :| p in ps && Tagged(p, q, other) && q != [] && q[0] != "" && NamedAs(f, q[0]);
      TaggedHasHint(p, q, other);
      TaggedJoins(items, p, q, other);
      NamedIsAlias(f, q[0]);
      Joined(ps, aliases, p, ItemAlias(f));
    }
    if ItemAlias(f) in Order(js) {
      var j :| j in js && j.hinted == ItemAlias(f);
      var p := JoinedFrom(ps, aliases, j);
      ConjunctExactly(items, p);
      var q, other := SideOf(p, aliases, j.hinted);
      LowerTwice(q[0]);
      NamedIsAlias(f, q[0]);
    }
  }

  lemma NoneRefused(ps: seq<Expr>, aliases: set<string>)
    requires forall p <- ps :: ClassOf(p, aliases) != Refused
    ensures Accepted(ps, aliases) == |ps|
  {}

  ghost predicate AllJoin(items: seq<FromItem>, ps: seq<Expr>) {
    (exists p <- ps :: Hints(p) > 0) && (forall p <- ps :: Hints(p) == 0 || JoinsItem(items, p)) && HasStart(items, ps)
  }

  // A SELECT is rewritten exactly when a conjunct of its WHERE has a hint, each that has one joins an item, and
  // the chain has an item to start from.
  lemma RewritesExactly(sel: Select)
    ensures Rewrites(sel) <==> sel.where.Some? && AllJoin(sel.from, Conjuncts(sel.where.value))
  {
    if sel.where.Some? {
      hide Conjuncts, AliasIndex, OrHidesHint, Joinable, Base, Joins, Order, Hints, ItemAlias, ClassOf, Accepted,
        JoinsItem, HasStart;
      var items, e := sel.from, sel.where.value;
      var ps, index := Conjuncts(e), AliasIndex(items);
      HintedConjunct(e);
      HiddenConjunct(e);
      AllExactly(items, ps);
      if Rewrites(sel) {
        AllClassified(ps, index.Keys);
        NoEmptyAlias(items, ps);
      }
      if (exists p <- ps :: Hints(p) > 0) && (forall p <- ps :: Hints(p) == 0 || JoinsItem(items, p)) {
        NoneRefused(ps, index.Keys);
        JoinsFound(items, ps);
        JoinableExactly(items, ps);
      }
    }
  }

  lemma AllExactly(items: seq<FromItem>, ps: seq<Expr>)
    ensures var aliases := AliasIndex(items).Keys;
      (forall p <- ps :: !OrHidesHint(p) && ClassOf(p, aliases) != Refused && ClassOf(p, aliases) != JoinsOn("")) <==>
      (forall p <- ps :: Hints(p) == 0 || JoinsItem(items, p))
  {
    hide AliasIndex, OrHidesHint, Hints, ClassOf, JoinsItem;
    forall p | p in ps ensures
      !OrHidesHint(p) && ClassOf(p, AliasIndex(items).Keys) != Refused &&
      ClassOf(p, AliasIndex(items).Keys) != JoinsOn("")
      <==> Hints(p) == 0 || JoinsItem(items, p)
    {
      ConjunctExactly(items, p);
    }
  }

  lemma JoinableExactly(items: seq<FromItem>, ps: seq<Expr>)
    requires (exists p <- ps :: Hints(p) > 0) && forall p <- ps :: Hints(p) == 0 || JoinsItem(items, p)
    ensures var hinted := Order(Joins(ps, AliasIndex(items).Keys));
      Joinable(AliasIndex(items), Base(items, hinted), hinted) <==> HasStart(items, ps)
  {
    hide AliasIndex, Joinable, Base, Joins, Order, Hints, ItemAlias, JoinsItem, Marked;
    var hinted := Order(Joins(ps, AliasIndex(items).Keys));
    JoinsFound(items, ps);
    StartExactly(items, hinted);
    forall f | f in items ensures Marked(ps, f) <==> ItemAlias(f) in hinted {
      MarkedExactly(items, ps, f);
    }
  }

  lemma NoEmptyAlias(items: seq<FromItem>, ps: seq<Expr>)
    requires var js := Joins(ps, AliasIndex(items).Keys);
      Joinable(AliasIndex(items), Base(items, Order(js)), Order(js))
    ensures forall p <- ps :: ClassOf(p, AliasIndex(items).Keys) != JoinsOn("")
  {
    hide Base, Joins, Order, ClassOf, AliasIndex;
    var index := AliasIndex(items);
    forall p | p in ps ensures ClassOf(p, index.Keys) != JoinsOn("") {
      if ClassOf(p, index.Keys) == JoinsOn("") {
        Joined(ps, index.Keys, p, "");
        Ordered(Joins(ps, index.Keys), "");
      }
    }
  }

  lemma JoinsFound(items: seq<FromItem>, ps: seq<Expr>)
    requires (exists p <- ps :: Hints(p) > 0) && forall p <- ps :: Hints(p) == 0 || JoinsItem(items, p)
    ensures var index := AliasIndex(items);
      var js := Joins(ps, index.Keys);
      && index != map[] && items != [] && js != [] && (forall h <- Order(js) :: h in index)
      && forall i, k :: 0 <= i < k < |Order(js)| ==> Order(js)[i] != Order(js)[k]
  {
    hide AliasIndex, ClassOf, Hints, Tagged, Resolves, Order, Joins;
    var index := AliasIndex(items);
    var js := Joins(ps, index.Keys);
    var p :| p in ps && Hints(p) > 0;
    var q, other :| Tagged(p, q, other) && Resolves(items, q, other);
    TaggedJoins(items, p, q, other);
    Joined(ps, index.Keys, p, Lower(q[0]));
    IndexedItems(items);
    OrderedHaveConjuncts(js);
    forall h | h in Order(js) ensures h in index {
      Ordered(js, h);
      var j :| j in js && j.hinted == h;
      var r := JoinedFrom(ps, index.Keys, j);
      ConjunctExactly(items, r);
      var s, rest := SideOf(r, index.Keys, h);
    }
  }

  /* ---- where the chain starts ---- */

  // Conjuncts are neither parenthesised nor ANDs themselves.
  lemma {:induction false} FullyFlat(e: Expr)
    ensures forall p <- Conjuncts(e) :: !p.Paren? && !(p.Binary? && Upper(p.op) == "AND")
  {
    match e
    case Binary(op, l, r) =>
      if IsOp(op, "AND") {
        FullyFlat(l);
        FullyFlat(r);
      }
    case Paren(x) => FullyFlat(x);
    case _ =>
  }

  // Outer joins, if any, added to the right of base.
  ghost predicate GrowsFrom(f: FromItem, base: FromItem) {
    f == base || (f.LeftJoin? && GrowsFrom(f.left, base))
  }

  lemma {:induction false} ChainGrows(items: seq<FromItem>, index: map<string, nat>, base: nat, hinted: seq<string>,
                                      js: seq<JoinPred>)
    requires base < |items| && (forall g <- hinted :: g in index && index[g] < |items| && OnOf(js, g) != [])
    ensures GrowsFrom(Chain(items, index, base, hinted, js), items[base])
  {
    if hinted != [] {
      ChainGrows(items, index, base, hinted[..|hinted| - 1], js);
    }
  }

  // The chain starts from the first item that no hint names, or from the first item when hints name them all.
  lemma StartsAtFirst(sel: Select) returns (base: nat)
    requires Rewrites(sel)
    ensures base < |sel.from| && Rewritten(sel).from != [] && GrowsFrom(Rewritten(sel).from[0], sel.from[base])
    ensures sel.where.Some? && var ps := Conjuncts(sel.where.value);
      if base > 0 || !Marked(ps, sel.from[base])
      then !Marked(ps, sel.from[base]) && forall k :: 0 <= k < base ==> Marked(ps, sel.from[k])
      else forall f <- sel.from :: Marked(ps, f)
  {
    hide Conjuncts, AliasIndex, BaseFrom, Joins, Order, Marked, Chain,
      GrowsFrom, ItemAlias, AllJoin, Rewritten, JoinsItem;
    RewritesExactly(sel);
    var items, index, ps := sel.from, AliasIndex(sel.from), Conjuncts(sel.where.value);
    var js := Joins(ps, index.Keys);
    base := ChainFirst(sel);
    ChainGrows(items, index, base, Order(js), js);
    StartOf(items, Order(js), 0);
    assert forall p <- ps :: Hints(p) == 0 || JoinsItem(items, p) by {
      AllJoinParts(items, ps);
    }
    forall k | 0 <= k < |items| ensures Marked(ps, items[k]) <==> ItemAlias(items[k]) in Order(js) {
      MarkedExactly(items, ps, items[k]);
    }
  }

  lemma AllJoinParts(items: seq<FromItem>, ps: seq<Expr>)
    requires AllJoin(items, ps)
    ensures forall p <- ps :: Hints(p) == 0 || JoinsItem(items, p)
  {}
}
