/** The rewritten WHERE as text: the writer prints operands bare, and the rewrite has dropped the
    parentheses around the conjuncts it refolds. */
module OuterJoinText {
  import opened Text
  import opened Wrappers
  import OuterJoin
  import OuterJoinTheorem
  import opened PgExpr
  import opened PgReader
  import opened PgReaderProofs

  // A condition as the writer sees it.
  function Written(e: OuterJoin.Expr): Expr {
    match e
    case Ident(parts) => Atom(Dotted(parts))
    case Literal(text) => Atom(text)
    case Call(f, args) => Call(f, WrittenAll(args))
    case Binary(op, l, r) => Binary(op, Written(l), Written(r))
    case Unary(op, x) => Unary(op, Written(x))
    case Paren(x) => Paren(Written(x))
    case Hint(x) => Written(x)
  }

  function WrittenAll(es: OuterJoin.Exprs): Exprs {
    match es
    case Nil => Nil
    case Cons(e, rest) => Cons(Written(e), WrittenAll(rest))
  }

  function Dotted(parts: seq<string>): string {
    if parts == [] then "" else if |parts| == 1 then parts[0] else parts[0] + "." + Dotted(parts[1..])
  }

  predicate IsOr(e: OuterJoin.Expr) {
    e.Binary? && OuterJoin.IsOp(e.op, "OR")
  }

  // No conjunct is itself an AND or a parenthesised condition.
  lemma {:induction false} ConjunctShape(e: OuterJoin.Expr)
    ensures forall p <- OuterJoin.Conjuncts(e) :: !p.Paren? && !(p.Binary? && OuterJoin.IsOp(p.op, "AND"))
  {
    match e
    case Binary(op, l, r) =>
      if OuterJoin.IsOp(op, "AND") {
        ConjunctShape(l);
        ConjunctShape(r);
      }
    case Paren(x) => ConjunctShape(x);
    case _ =>
  }

  lemma {:induction false} ResidualsAreConjuncts(ps: seq<OuterJoin.Expr>)
    ensures forall p <- OuterJoin.Residuals(ps) :: p in ps && OuterJoin.Hints(p) == 0
  {
    if ps != [] {
      ResidualsAreConjuncts(ps[..|ps| - 1]);
    }
  }

  ghost predicate Readable(p: OuterJoin.Expr) {
    Canonical(Written(p)) && !p.Paren? && !p.Hint? && !(p.Binary? && OuterJoin.IsOp(p.op, "AND"))
  }

  // A readable conjunct other than an OR fits on both sides of an AND; an OR fits on neither.
  lemma ConjunctFits(p: OuterJoin.Expr)
    requires Readable(p)
    ensures IsOr(p) ==> Floor(Written(p)) <= OR && Grab(Written(p)) <= AND
    ensures !IsOr(p) ==> Floor(Written(p)) > AND && Grab(Written(p)) > AND
  {
    if p.Binary? {
      assert PgInfix(p.op).Some?;
      if !IsOr(p) {
        NotBoolean(p.op);
        FloorOfFitting(Written(p));
        GrabOfFitting(Written(p));
      }
    } else if p.Unary? {
      GrabOfFitting(Written(p));
    }
  }

  lemma NotBoolean(op: string)
    requires PgInfix(op).Some? && Upper(op) != "AND" && Upper(op) != "OR"
    ensures PgInfix(op).value > AND
  {}

  // Reading from the left, a canonical tree meets no operator looser than its root.
  lemma {:induction false} FloorOfFitting(e: Expr)
    requires Canonical(e) && OpenLevel(e) > AND
    ensures Floor(e) > AND
  {
    match e
    case Binary(op, l, _) => LeftFloor(l, PgInfix(op).value);
    case Between(_, x, _, _) => LeftFloor(x, LIKE);
    case In(_, x, _) => LeftFloor(x, LIKE);
    case _ =>
  }

  lemma {:induction false} LeftFloor(l: Expr, p: nat)
    requires Canonical(l) && p < Grab(l) && p > AND
    ensures Floor(l) > AND
    decreases l
  {
    match l
    case Binary(op, x, _) => LeftFloor(x, PgInfix(op).value);
    case Between(_, x, _, _) => LeftFloor(x, LIKE);
    case In(_, x, _) => LeftFloor(x, LIKE);
    case _ =>
  }

  // The right end of a canonical tree swallows neither AND nor OR unless its root is looser.
  lemma {:induction false} GrabOfFitting(e: Expr)
    requires Canonical(e) && OpenLevel(e) > AND
    ensures Grab(e) > AND
  {
    match e
    case Binary(_, _, r) => FloorOpen(r); GrabOfFitting(r);
    case Unary(op, x) => PrefixAboveAnd(op); FloorOpen(x); GrabOfFitting(x);
    case Between(_, _, _, hi) => FloorOpen(hi); GrabOfFitting(hi);
    case _ =>
  }

  lemma FloorOpen(e: Expr)
    ensures Floor(e) <= OpenLevel(e)
  {}

  lemma PrefixAboveAnd(op: string)
    requires PgPrefix(op).Some?
    ensures PgPrefix(op).value > AND
  {}

  lemma {:induction false} FoldReads(ps: seq<OuterJoin.Expr>)
    requires |ps| >= 2 && forall p <- ps :: Readable(p)
    ensures Canonical(Written(OuterJoin.AndAll(ps))) <==> forall p <- ps :: !IsOr(p)
    ensures (forall p <- ps :: !IsOr(p)) ==> Grab(Written(OuterJoin.AndAll(ps))) > AND
    decreases |ps|
  {
    hide PgInfix, OuterJoin.IsOp, Canonical, Grab, Floor;
    var n := |ps| - 1;
    var before, last := ps[..n], ps[n];
    ConjunctFits(last);
    assert forall p <- ps :: p in before || p == last;
    assert forall p <- before :: p in ps;
    AndCanonical(Written(OuterJoin.AndAll(before)), Written(last));
    if n == 1 {
      ConjunctFits(ps[0]);
      assert before == [ps[0]];
    } else {
      FoldReads(before);
    }
  }

  lemma AndCanonical(l: Expr, r: Expr)
    ensures Canonical(Binary("AND", l, r)) <==> Canonical(l) && Canonical(r) && Grab(l) > AND && Floor(r) > AND
    ensures Grab(Binary("AND", l, r)) > AND <==> Grab(r) > AND
  {
    AndIsInfix();
  }

  lemma AndIsInfix()
    ensures PgInfix("AND") == Some(AND)
  {
    assert Upper("AND") == "AND";
  }

  // PostgreSQL reads the rewritten WHERE back as the condition it is exactly when at most one
  // conjunct stays in WHERE or none of those that stay is an OR.
  lemma WhereReadsBackExactly(sel: OuterJoin.Select)
    requires OuterJoin.Rewrites(sel)
    requires forall p <- OuterJoin.Conjuncts(sel.where.value) :: Canonical(Written(p))
    ensures var rest := OuterJoin.Residuals(OuterJoin.Conjuncts(sel.where.value));
      rest != [] ==>
        var e := Written(OuterJoin.AndAll(rest));
        (Parse(Print(e)) == Some(e) <==> |rest| == 1 || forall p <- rest :: !IsOr(p))
  {
    ResidualsReadable(sel.where.value);
    RestReadsBack(OuterJoin.Residuals(OuterJoin.Conjuncts(sel.where.value)));
  }

  lemma ResidualsReadable(e: OuterJoin.Expr)
    requires forall p <- OuterJoin.Conjuncts(e) :: Canonical(Written(p))
    ensures forall p <- OuterJoin.Residuals(OuterJoin.Conjuncts(e)) :: Readable(p)
  {
    hide Canonical, Written, OuterJoin.Conjuncts, OuterJoin.Residuals;
    ConjunctShape(e);
    ResidualsAreConjuncts(OuterJoin.Conjuncts(e));
  }

  lemma RestReadsBack(rest: seq<OuterJoin.Expr>)
    requires forall p <- rest :: Readable(p)
    ensures rest != [] ==>
      var e := Written(OuterJoin.AndAll(rest));
      (Parse(Print(e)) == Some(e) <==> |rest| == 1 || forall p <- rest :: !IsOr(p))
  {
    hide Canonical, Written, Parse, Print;
    if |rest| == 1 {
      assert Readable(rest[0]) && OuterJoin.AndAll(rest) == rest[0];
      ReadsExactly(Print(Written(rest[0])), Written(rest[0]));
    } else if rest != [] {
      FoldReads(rest);
      var e := Written(OuterJoin.AndAll(rest));
      ReadsExactly(Print(e), e);
    }
  }

  /* ---- a condition that is read back as another ---- */

  function Column(table: string, name: string): OuterJoin.Expr {
    OuterJoin.Ident([table, name])
  }

  // a.id = b.id(+) AND (a.x OR a.y) AND a.z
  function Grouped(): OuterJoin.Select {
    var join := OuterJoin.Binary("=", Column("a", "id"), OuterJoin.Hint(Column("b", "id")));
    var either := OuterJoin.Binary("OR", Column("a", "x"), Column("a", "y"));
    OuterJoin.Select([OuterJoin.Table("a", ""), OuterJoin.Table("b", "")],
      Some(OuterJoin.Binary("AND", OuterJoin.Binary("AND", join, OuterJoin.Paren(either)), Column("a", "z"))))
  }

  // It is rewritten, and its WHERE is read back as a.x OR (a.y AND a.z).
  lemma GroupedRegroups()
    ensures OuterJoin.Rewrites(Grouped()) && OuterJoin.Rewritten(Grouped()).where.Some?
    ensures var e := Written(OuterJoin.Rewritten(Grouped()).where.value);
      var x, y, z := Atom("a.x"), Atom("a.y"), Atom("a.z");
      e == Binary("AND", Binary("OR", x, y), z) && Parse(Print(e)) == Some(Binary("OR", x, Binary("AND", y, z)))
  {
    hide OuterJoin.Rewrites, OuterJoin.Rewritten, Parse, Print, Canonical;
    GroupedRewrites();
    var x, y, z := Atom("a.x"), Atom("a.y"), Atom("a.z");
    assert Written(Column("a", "x")) == x && Written(Column("a", "y")) == y && Written(Column("a", "z")) == z;
    RegroupedReads(x, y, z);
    ReadsExactly(Print(Binary("AND", Binary("OR", x, y), z)), Binary("OR", x, Binary("AND", y, z)));
  }

  lemma RegroupedReads(x: Expr, y: Expr, z: Expr)
    requires x.Atom? && y.Atom? && z.Atom?
    ensures Canonical(Binary("OR", x, Binary("AND", y, z)))
    ensures Print(Binary("OR", x, Binary("AND", y, z))) == Print(Binary("AND", Binary("OR", x, y), z))
  {
    assert Upper("AND") == "AND" && Upper("OR") == "OR";
    assert PgInfix("AND") == Some(AND) && PgInfix("OR") == Some(OR);
  }

  lemma GroupedRewrites()
    ensures OuterJoin.Rewrites(Grouped())
    ensures OuterJoin.Rewritten(Grouped()).where ==
      Some(OuterJoin.Binary("AND", OuterJoin.Binary("OR", Column("a", "x"), Column("a", "y")), Column("a", "z")))
  {
    var items := [OuterJoin.Table("a", ""), OuterJoin.Table("b", "")];
    var join := OuterJoin.Binary("=", Column("a", "id"), OuterJoin.Hint(Column("b", "id")));
    var on := OuterJoin.Binary("=", Column("a", "id"), Column("b", "id"));
    var either := OuterJoin.Binary("OR", Column("a", "x"), Column("a", "y"));
    var ps := [join, either, Column("a", "z")];
    hide OuterJoin.AliasIndex, OuterJoin.Conjuncts, OuterJoin.Joins, OuterJoin.Residuals,
      OuterJoin.Order, OuterJoin.Accepted,
      OuterJoin.Base, OuterJoin.Hints, OuterJoin.OrHidesHint, OuterJoin.Chain, OuterJoin.LeftOver, OuterJoin.Used;
    OuterJoinTheorem.SimpleIndex();
    GroupedConjuncts();
    GroupedClasses();
    assert OuterJoin.Joinable(map["a" := 0, "b" := 1], 0, ["b"]);
    assert OuterJoin.AndAll([either, Column("a", "z")]) == OuterJoin.Binary("AND", either, Column("a", "z")) by {
      assert [either, Column("a", "z")][..1] == [either];
    }
  }

  lemma GroupedConjuncts()
    ensures var where := Grouped().where.value;
      var join := OuterJoin.Binary("=", Column("a", "id"), OuterJoin.Hint(Column("b", "id")));
      var either := OuterJoin.Binary("OR", Column("a", "x"), Column("a", "y"));
      OuterJoin.Conjuncts(where) == [join, either, Column("a", "z")] &&
      OuterJoin.Hints(where) > 0 && !OuterJoin.OrHidesHint(where)
  {
    assert Upper("AND") == "AND" && Upper("OR") == "OR" && Upper("=") == "=";
  }

  lemma GroupedClasses()
    ensures var join := OuterJoin.Binary("=", Column("a", "id"), OuterJoin.Hint(Column("b", "id")));
      var on := OuterJoin.Binary("=", Column("a", "id"), Column("b", "id"));
      var either := OuterJoin.Binary("OR", Column("a", "x"), Column("a", "y"));
      var ps := [join, either, Column("a", "z")];
      OuterJoin.Joins(ps, {"a", "b"}) == [OuterJoin.JoinPred("b", on)] && OuterJoin.Accepted(ps, {"a", "b"}) == 3 &&
      OuterJoin.Residuals(ps) == [either, Column("a", "z")] && OuterJoin.Order([OuterJoin.JoinPred("b", on)]) == ["b"]
  {
    var join := OuterJoin.Binary("=", Column("a", "id"), OuterJoin.Hint(Column("b", "id")));
    var on := OuterJoin.Binary("=", Column("a", "id"), Column("b", "id"));
    var either := OuterJoin.Binary("OR", Column("a", "x"), Column("a", "y"));
    var z := Column("a", "z");
    assert Upper("=") == "=" && Lower("a") == "a" && Lower("b") == "b";
    assert OuterJoin.ClassOf(join, {"a", "b"}) == OuterJoin.JoinsOn("b") && OuterJoin.Strip(join) == on;
    assert OuterJoin.Hints(join) == 1 && OuterJoin.Hints(either) == 0 && OuterJoin.Hints(z) == 0;
    hide OuterJoin.ClassOf, OuterJoin.Strip, OuterJoin.Hints;
    assert OuterJoin.ClassOf(either, {"a", "b"}) == OuterJoin.Stays &&
      OuterJoin.ClassOf(z, {"a", "b"}) == OuterJoin.Stays by {
      StaysWithoutHint(either);
      StaysWithoutHint(z);
    }
    assert [join, either, z][..2] == [join, either] && [join, either][..1] == [join] && [join][..0] == [];
    assert [join, either, z][1..] == [either, z] && [either, z][1..] == [z] && [z][1..] == [];
    assert OuterJoin.Accepted([z], {"a", "b"}) == 1 && OuterJoin.Accepted([either, z], {"a", "b"}) == 2;
    assert OuterJoin.Joins([join], {"a", "b"}) == [OuterJoin.JoinPred("b", on)] && OuterJoin.Residuals([join]) == [];
    assert OuterJoin.Joins([join, either], {"a", "b"}) == [OuterJoin.JoinPred("b", on)];
    assert OuterJoin.Residuals([join, either]) == [either];
    assert [OuterJoin.JoinPred("b", on)][..0] == [];
  }

  lemma StaysWithoutHint(p: OuterJoin.Expr)
    requires OuterJoin.Hints(p) == 0
    ensures OuterJoin.ClassOf(p, {"a", "b"}) == OuterJoin.Stays
  {}
}
