/** What PostgreSQL reads back: a token stream parses to a tree exactly when it is that
    tree's printed form and the tree is canonical. */
module PgReaderProofs {
  import opened Text
  import opened Wrappers
  import opened PgExpr
  import opened PgReader

  // What an infix level can be: never the level of NOT, never that of unary minus.
  lemma {:induction false} GrabPositive(e: Expr)
    requires Canonical(e)
    ensures 0 < Grab(e) <= PRIMARY
  {
    match e
    case Binary(_, _, r) => GrabPositive(r);
    case Unary(_, x) => GrabPositive(x);
    case Between(_, _, _, hi) => GrabPositive(hi);
    case _ =>
  }

  lemma TailStops(e: Expr, rest: seq<Token>, min: nat)
    requires HeadLevel(rest) < min
    ensures ParseTail(e, rest, min) == Some((e, rest))
  {}

  // A canonical tree is read back up to the point where its last operand ends.
  lemma {:induction false} ReadsTree(e: Expr, rest: seq<Token>, min: nat)
    requires Canonical(e) && Floor(e) >= min && HeadLevel(rest) < Grab(e)
    ensures ParseExpr(Print(e) + rest, min) == ParseTail(e, rest, min)
    decreases e
  {
    match e
    case Binary(_, _, _) => ReadsBinary(e, rest, min);
    case Between(_, _, _, _) => ReadsBetween(e, rest, min);
    case In(_, _, _) => ReadsIn(e, rest, min);
    case _ => ReadsOperand(e, rest);
  }

  lemma {:induction false} ReadsOperand(e: Expr, rest: seq<Token>)
    requires Canonical(e) && !e.Binary? && !e.Between? && !e.In? && HeadLevel(rest) < Grab(e)
    ensures ParseOperand(Print(e) + rest) == Some((e, rest))
    decreases e, 0
  {
    hide PgInfix, PgPrefix;
    var ts := Print(e) + rest;
    match e
    case Atom(n) => assert ts[1..] == rest;
    case Paren(x) =>
      GrabPositive(x);
      assert ts[1..] == Print(x) + ([RP] + rest);
      ReadsTree(x, [RP] + rest, 0);
      TailStops(x, [RP] + rest, 0);
      assert ([RP] + rest)[1..] == rest;
    case Call(f, args) => ReadsCall(e, rest);
    case Unary(op, x) =>
      var m := PgPrefix(op).value;
      assert ts[1..] == Print(x) + rest;
      ReadsTree(x, rest, m);
      TailStops(x, rest, m);
  }

  lemma {:induction false} ReadsBinary(e: Expr, rest: seq<Token>, min: nat)
    requires e.Binary? && Canonical(e) && Floor(e) >= min && HeadLevel(rest) < Grab(e)
    ensures ParseExpr(Print(e) + rest, min) == ParseTail(e, rest, min)
    decreases e, 0
  {
    hide PgInfix, PgPrefix, NonAssoc;
    var Binary(op, l, r) := e;
    var p := PgInfix(op).value;
    var ts := [Op(op)] + (Print(r) + rest);
    assert Print(e) + rest == Print(l) + ts;
    ReadsTree(l, ts, min);
    assert ts[1..] == Print(r) + rest;
    ReadsTree(r, rest, p + 1);
    TailStops(r, rest, p + 1);
  }

  lemma {:induction false} ReadsBetween(e: Expr, rest: seq<Token>, min: nat)
    requires e.Between? && Canonical(e) && Floor(e) >= min && HeadLevel(rest) < Grab(e)
    ensures ParseExpr(Print(e) + rest, min) == ParseTail(e, rest, min)
    decreases e, 0
  {
    hide PgInfix, PgPrefix, Print, Canonical, NonAssoc, HeadLevel, Floor, Grab;
    var Between(n, x, lo, hi) := e;
    var afterLow := [Op("AND")] + (Print(hi) + rest);
    var ts := [BetweenKw(n)] + (Print(lo) + afterLow);
    BetweenParts(e, rest, min);
    ReadsTree(x, ts, min);
    assert ts[1..] == Print(lo) + afterLow;
    ReadsTree(lo, afterLow, OTHER);
    TailStops(lo, afterLow, OTHER);
    assert afterLow[1..] == Print(hi) + rest;
    ReadsTree(hi, rest, OTHER);
    TailStops(hi, rest, OTHER);
  }

  // What the operands of a BETWEEN are read before.
  lemma BetweenParts(e: Expr, rest: seq<Token>, min: nat)
    requires e.Between? && Canonical(e) && Floor(e) >= min && HeadLevel(rest) < Grab(e)
    ensures var afterLow := [Op("AND")] + (Print(e.high) + rest);
      var ts := [BetweenKw(e.negated)] + (Print(e.low) + afterLow);
      && Print(e) + rest == Print(e.expr) + ts && HeadLevel(ts) == LIKE && min <= LIKE
      && Canonical(e.expr) && Floor(e.expr) >= min && LIKE < Grab(e.expr)
      && !(NonAssoc(LIKE) && OpenLevel(e.expr) == LIKE)
      && Canonical(e.low) && Floor(e.low) >= OTHER && HeadLevel(afterLow) == AND < Grab(e.low)
      && Canonical(e.high) && Floor(e.high) >= OTHER && HeadLevel(rest) < Grab(e.high) && HeadLevel(rest) < OTHER
  {
    hide PgInfix, PgPrefix;
    var afterLow := [Op("AND")] + (Print(e.high) + rest);
    AndLevel(afterLow);
    assert Print(e) + rest == Print(e.expr) + ([BetweenKw(e.negated)] + (Print(e.low) + afterLow));
  }

  lemma AndLevel(ts: seq<Token>)
    requires ts != [] && ts[0] == Op("AND")
    ensures HeadLevel(ts) == AND
  {
    assert Upper("AND") == "AND";
  }

  lemma {:induction false} ReadsIn(e: Expr, rest: seq<Token>, min: nat)
    requires e.In? && Canonical(e) && Floor(e) >= min
    ensures ParseExpr(Print(e) + rest, min) == ParseTail(e, rest, min)
    decreases e, 0
  {
    hide PgInfix, PgPrefix;
    var In(n, x, list) := e;
    var ts := [InKw(n), LP] + (PrintAll(list) + ([RP] + rest));
    assert Print(e) + rest == Print(x) + ts;
    ReadsTree(x, ts, min);
    assert ts[2..] == PrintAll(list) + ([RP] + rest);
    ReadsList(list, [RP] + rest);
    assert ([RP] + rest)[1..] == rest;
  }

  lemma {:induction false} ReadsCall(e: Expr, rest: seq<Token>)
    requires e.Call? && CanonicalAll(e.args)
    ensures ParseOperand(Print(e) + rest) == Some((e, rest))
    decreases e, -1
  {
    hide PgInfix, PgPrefix;
    var Call(f, args) := e;
    var ts := Print(e) + rest;
    var inner := PrintAll(args) + ([RP] + rest);
    assert ts == [Fn(f), LP] + inner;
    assert ts[2..] == inner;
    assert ([RP] + rest)[1..] == rest;
    if args == Nil {
      assert ts[3..] == rest;
    } else {
      ReadsList(args, [RP] + rest);
      FirstToken(args.head);
      assert ts[2] == inner[0] == Print(args.head)[0];
    }
  }

  lemma {:induction false} FirstToken(e: Expr)
    ensures Print(e)[0] != RP
  {
    match e
    case Binary(_, l, _) => FirstToken(l);
    case Between(_, x, _, _) => FirstToken(x);
    case In(_, x, _) => FirstToken(x);
    case _ =>
  }

  lemma {:induction false} ReadsList(es: Exprs, rest: seq<Token>)
    requires es.Cons? && CanonicalAll(es)
    requires rest != [] && rest[0] == RP
    ensures ParseList(PrintAll(es) + rest) == Some((es, rest))
    decreases es
  {
    hide PgInfix, PgPrefix;
    GrabPositive(es.head);
    if es.tail == Nil {
      ReadsTree(es.head, rest, 0);
      TailStops(es.head, rest, 0);
    } else {
      var more := [Comma] + (PrintAll(es.tail) + rest);
      assert PrintAll(es) + rest == Print(es.head) + more;
      ReadsTree(es.head, more, 0);
      TailStops(es.head, more, 0);
      assert more[1..] == PrintAll(es.tail) + rest;
      ReadsList(es.tail, rest);
    }
  }

  // What a successful read consumed and how the tree it returned groups.
  ghost predicate Read(e: Expr, rest: seq<Token>, ts: seq<Token>, min: nat) {
    Canonical(e) && Print(e) + rest == ts && HeadLevel(rest) < Grab(e) && Floor(e) >= min
  }

  lemma HeadBelowPrimary(ts: seq<Token>)
    ensures HeadLevel(ts) < PRIMARY
  {}

  lemma {:induction false} ParsedExpr(ts: seq<Token>, min: nat)
    requires min <= PRIMARY && ParseExpr(ts, min).Some?
    ensures var (e, rest) := ParseExpr(ts, min).value;
      Read(e, rest, ts, min) && HeadLevel(rest) < min
    decreases |ts|, 2
  {
    var (lhs, rest) := ParseOperand(ts).value;
    ParsedOperand(ts);
    ParsedTail(lhs, rest, min, ts);
  }

  lemma {:induction false} ParsedOperand(ts: seq<Token>)
    requires ParseOperand(ts).Some?
    ensures var (e, rest) := ParseOperand(ts).value;
      Read(e, rest, ts, PRIMARY)
    decreases |ts|, 1
  {
    hide PgInfix, PgPrefix;
    match ts[0]
    case Word(n) =>
      assert [Word(n)] + ts[1..] == ts;
      HeadBelowPrimary(ts[1..]);
    case Fn(_) => ParsedCall(ts);
    case LP => ParsedParen(ts);
    case Op(_) => ParsedUnary(ts);
  }

  lemma {:induction false} ParsedParen(ts: seq<Token>)
    requires ts != [] && ts[0] == LP && ParseOperand(ts).Some?
    ensures var (e, rest) := ParseOperand(ts).value;
      Read(e, rest, ts, PRIMARY)
    decreases |ts|, 0
  {
    hide PgInfix, PgPrefix, Read, HeadLevel;
    var (x, more) := ParseExpr(ts[1..], 0).value;
    ParsedExpr(ts[1..], 0);
    ParenRead(x, ts, more);
  }

  lemma ParenRead(x: Expr, ts: seq<Token>, more: seq<Token>)
    requires ts != [] && ts[0] == LP && more != [] && more[0] == RP && Read(x, more, ts[1..], 0)
    ensures Read(Paren(x), more[1..], ts, PRIMARY)
  {
    hide HeadLevel;
    var rest := more[1..];
    HeadBelowPrimary(rest);
    assert [LP] + ts[1..] == ts;
    assert [RP] + rest == more;
    assert Print(Paren(x)) + rest == [LP] + (Print(x) + more);
  }

  lemma {:induction false} ParsedUnary(ts: seq<Token>)
    requires ts != [] && ts[0].Op? && ParseOperand(ts).Some?
    ensures var (e, rest) := ParseOperand(ts).value;
      Read(e, rest, ts, PRIMARY)
    decreases |ts|, 0
  {
    hide PgInfix, PgPrefix, Read, HeadLevel;
    var m := PgPrefix(ts[0].op).value;
    PrefixLevels(ts[0].op);
    ParsedExpr(ts[1..], m);
    var (x, rest) := ParseExpr(ts[1..], m).value;
    UnaryRead(x, ts, rest, m);
  }

  lemma UnaryRead(x: Expr, ts: seq<Token>, rest: seq<Token>, m: nat)
    requires ts != [] && ts[0].Op? && PgPrefix(ts[0].op) == Some(m) && Read(x, rest, ts[1..], m) && HeadLevel(rest) < m
    ensures Read(Unary(ts[0].op, x), rest, ts, PRIMARY)
  {
    hide PgInfix, PgPrefix, HeadLevel;
    assert [ts[0]] + ts[1..] == ts;
    assert Print(Unary(ts[0].op, x)) + rest == [ts[0]] + (Print(x) + rest);
  }

  lemma {:induction false} ParsedCall(ts: seq<Token>)
    requires ts != [] && ts[0].Fn? && ParseOperand(ts).Some?
    ensures var (e, rest) := ParseOperand(ts).value;
      Read(e, rest, ts, PRIMARY)
    decreases |ts|, 0
  {
    hide PgInfix, PgPrefix;
    var (e, rest) := ParseOperand(ts).value;
    HeadBelowPrimary(rest);
    assert [ts[0], LP] + ts[2..] == ts;
    if |ts| >= 3 && ts[2] == RP {
      assert e == Call(ts[0].name, Nil) && CanonicalAll(Nil) && PrintAll(Nil) == [];
      assert [RP] + rest == ts[2..];
      assert Print(e) + rest == [ts[0], LP] + ([RP] + rest);
    } else {
      ParsedList(ts[2..]);
      var (args, more) := ParseList(ts[2..]).value;
      assert more == [RP] + rest;
      assert Print(e) + rest == [ts[0], LP] + (PrintAll(args) + more);
    }
  }

  lemma PrefixLevels(op: string)
    ensures PgPrefix(op).Some? ==> PgPrefix(op).value <= UNARY
  {}

  lemma {:induction false} ParsedTail(lhs: Expr, ts: seq<Token>, min: nat, all: seq<Token>)
    requires ParseTail(lhs, ts, min).Some?
    requires Read(lhs, ts, all, min)
    ensures var (e, rest) := ParseTail(lhs, ts, min).value;
      Read(e, rest, all, min) && HeadLevel(rest) < min
    decreases |ts|, 0, 1
  {
    hide PgInfix, PgPrefix;
    if HeadLevel(ts) < min {
    } else {
      match ts[0]
      case Op(op) => ParsedBinary(lhs, ts, min, all);
      case BetweenKw(n) => ParsedBetween(lhs, ts, min, all);
      case InKw(n) => ParsedIn(lhs, ts, min, all);
    }
  }

  lemma {:induction false} ParsedBinary(lhs: Expr, ts: seq<Token>, min: nat, all: seq<Token>)
    requires ts != [] && ts[0].Op? && HeadLevel(ts) >= min
    requires ParseTail(lhs, ts, min).Some?
    requires Read(lhs, ts, all, min)
    ensures var (e, rest) := ParseTail(lhs, ts, min).value;
      Read(e, rest, all, min) && HeadLevel(rest) < min
    decreases |ts|, 0, 0
  {
    hide PgInfix, PgPrefix, NonAssoc, HeadLevel, Read, LeftFits;
    var p := HeadLevel(ts);
    TailFits(lhs, ts, min, all);
    HeadBelowExp(ts);
    ParsedExpr(ts[1..], p + 1);
    var (r, rest) := ParseExpr(ts[1..], p + 1).value;
    var e := Binary(ts[0].op, lhs, r);
    BinaryRead(e, ts, rest, min, all);
    ParsedTail(e, rest, min, all);
  }

  lemma BinaryRead(e: Expr, ts: seq<Token>, rest: seq<Token>, min: nat, all: seq<Token>)
    requires e.Binary? && ts != [] && ts[0] == Op(e.op)
    requires var p := HeadLevel(ts);
      min <= p && LeftFits(e.lhs, p) && Read(e.lhs, ts, all, min) && Read(e.rhs, rest, ts[1..], p + 1) &&
      HeadLevel(rest) < p + 1
    ensures Read(e, rest, all, min)
  {
    hide LeftFits, PgPrefix, PgInfix;
    assert Print(e) + rest == Print(e.lhs) + ([ts[0]] + (Print(e.rhs) + rest));
    assert [ts[0]] + ts[1..] == ts;
  }

  lemma HeadBelowExp(ts: seq<Token>)
    ensures HeadLevel(ts) <= EXP
  {}

  lemma {:induction false} ParsedBetween(lhs: Expr, ts: seq<Token>, min: nat, all: seq<Token>)
    requires ts != [] && ts[0].BetweenKw? && LIKE >= min
    requires ParseTail(lhs, ts, min).Some?
    requires Read(lhs, ts, all, min)
    ensures var (e, rest) := ParseTail(lhs, ts, min).value;
      Read(e, rest, all, min) && HeadLevel(rest) < min
    decreases |ts|, 0, 0
  {
    hide PgInfix, PgPrefix, NonAssoc, HeadLevel, Read, LeftFits;
    LikeHead(ts);
    TailFits(lhs, ts, min, all);
    var n := ts[0].negated;
    ParsedExpr(ts[1..], OTHER);
    var (low, mid) := ParseExpr(ts[1..], OTHER).value;
    ParsedExpr(mid[1..], OTHER);
    var (high, rest) := ParseExpr(mid[1..], OTHER).value;
    var e := Between(n, lhs, low, high);
    BetweenRead(e, ts, mid, rest, min, all);
    ParsedTail(e, rest, min, all);
  }

  lemma LikeHead(ts: seq<Token>)
    ensures ts != [] && ts[0].BetweenKw? ==> HeadLevel(ts) == LIKE
  {}

  // A left operand that the reader has taken fits what follows.
  lemma TailFits(lhs: Expr, ts: seq<Token>, min: nat, all: seq<Token>)
    requires ts != [] && HeadLevel(ts) >= min && ParseTail(lhs, ts, min).Some? && Read(lhs, ts, all, min)
    ensures HeadLevel(ts) >= 0 && LeftFits(lhs, HeadLevel(ts))
  {
    hide PgInfix, PgPrefix, Print, Canonical, HeadLevel;
  }

  lemma BetweenRead(e: Expr, ts: seq<Token>, mid: seq<Token>, rest: seq<Token>, min: nat, all: seq<Token>)
    requires e.Between? && ts != [] && ts[0] == BetweenKw(e.negated) && mid != [] && mid[0] == Op("AND") && LIKE >= min
    requires Read(e.expr, ts, all, min) && LeftFits(e.expr, LIKE)
    requires Read(e.low, mid, ts[1..], OTHER) && Read(e.high, rest, mid[1..], OTHER) && HeadLevel(rest) < OTHER
    ensures Read(e, rest, all, min)
  {
    hide LeftFits, HeadLevel;
    AndLevel(mid);
    BetweenPrinted(e, ts, mid, rest);
  }

  lemma BetweenPrinted(e: Expr, ts: seq<Token>, mid: seq<Token>, rest: seq<Token>)
    requires e.Between? && ts != [] && ts[0] == BetweenKw(e.negated)
    requires mid != [] && mid[0] == Op("AND")
    requires Print(e.low) + mid == ts[1..] && Print(e.high) + rest == mid[1..]
    ensures Print(e) + rest == Print(e.expr) + ts
  {
    assert [Op("AND")] + mid[1..] == mid;
    assert [BetweenKw(e.negated)] + ts[1..] == ts;
    assert Print(e) + rest == Print(e.expr) +
      ([BetweenKw(e.negated)] + (Print(e.low) + ([Op("AND")] + (Print(e.high) + rest))));
  }

  lemma {:induction false} ParsedIn(lhs: Expr, ts: seq<Token>, min: nat, all: seq<Token>)
    requires ts != [] && ts[0].InKw? && LIKE >= min
    requires ParseTail(lhs, ts, min).Some?
    requires Read(lhs, ts, all, min)
    ensures var (e, rest) := ParseTail(lhs, ts, min).value;
      Read(e, rest, all, min) && HeadLevel(rest) < min
    decreases |ts|, 0, 0
  {
    hide PgInfix, PgPrefix, NonAssoc;
    ParsedList(ts[2..]);
    var (list, more) := ParseList(ts[2..]).value;
    var e := In(ts[0].negated, lhs, list);
    InPrinted(e, ts, more);
    HeadBelowPrimary(more[1..]);
    ParsedTail(e, more[1..], min, all);
  }

  lemma InPrinted(e: Expr, ts: seq<Token>, more: seq<Token>)
    requires e.In? && |ts| >= 2 && ts[0] == InKw(e.negated) && ts[1] == LP
    requires more != [] && more[0] == RP && PrintAll(e.list) + more == ts[2..]
    ensures Print(e) + more[1..] == Print(e.expr) + ts
  {
    assert [RP] + more[1..] == more;
    assert [ts[0], LP] + ts[2..] == ts;
    assert Print(e) + more[1..] == Print(e.expr) + ([ts[0], LP] + (PrintAll(e.list) + more));
  }

  lemma {:induction false} ParsedList(ts: seq<Token>)
    requires ParseList(ts).Some?
    ensures var (es, rest) := ParseList(ts).value;
      es.Cons? && CanonicalAll(es) && PrintAll(es) + rest == ts
    decreases |ts|, 3
  {
    hide PgInfix, PgPrefix;
    ParsedExpr(ts, 0);
    var (e, rest) := ParseExpr(ts, 0).value;
    if rest != [] && rest[0] == Comma {
      ParsedList(rest[1..]);
      var (es, rest') := ParseList(rest[1..]).value;
      assert PrintAll(Cons(e, es)) + rest' == Print(e) + ([Comma] + (PrintAll(es) + rest'));
      assert [Comma] + rest[1..] == rest;
    }
  }

  // PostgreSQL's reading, characterised: it is unambiguous, it accepts exactly the printed
  // canonical trees, and it returns the tree that was printed.
  lemma ReadsExactly(ts: seq<Token>, e: Expr)
    ensures Parse(ts) == Some(e) <==> Canonical(e) && Print(e) == ts
  {
    if Canonical(e) && Print(e) == ts {
      GrabPositive(e);
      assert Print(e) + [] == ts;
      ReadsTree(e, [], 0);
    }
    if Parse(ts) == Some(e) {
      ParsedExpr(ts, 0);
      assert Print(e) + [] == Print(e);
    }
  }
}
