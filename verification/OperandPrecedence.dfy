/** The pass that parenthesises operator operands before the PostgreSQL writer prints them bare,
    and what PostgreSQL reads back afterwards. */
module OperandPrecedence {
  import opened Text
  import opened Wrappers
  import opened PgExpr
  import opened PgReader
  import opened PgReaderProofs

  function ParenIf(e: Expr, cond: bool): Expr {
    if cond then Paren(e) else e
  }

  predicate WrapsLeft(op: string, l: Expr) {
    ExprPrec(l) < BinaryPrec(op) || (ExprPrec(l) == BinaryPrec(op) && NonAssoc(BinaryPrec(op)))
  }

  predicate WrapsRight(op: string, r: Expr) {
    ExprPrec(r) <= BinaryPrec(op)
  }

  predicate WrapsPrefixed(op: string, x: Expr) {
    if IsNot(op) then ExprPrec(x) < NOT else ExprPrec(x) <= UNARY
  }

  // One node of the rewrite, its children already visited.
  function Visit(n: Expr): Expr {
    match n
    case Binary(op, l, r) => Binary(op, ParenIf(l, WrapsLeft(op, l)), ParenIf(r, WrapsRight(op, r)))
    case Unary(op, x) => Unary(op, ParenIf(x, WrapsPrefixed(op, x)))
    case Between(n, x, lo, hi) =>
      Between(n, ParenIf(x, ExprPrec(x) <= LIKE), ParenIf(lo, ExprPrec(lo) <= LIKE),
              ParenIf(hi, ExprPrec(hi) <= LIKE))
    case In(n, x, list) => In(n, ParenIf(x, ExprPrec(x) <= LIKE), list)
    case _ => n
  }

  // The post-order rewrite of a whole tree.
  function Pass(e: Expr): Expr {
    match e
    case Atom(_) => e
    case Call(f, args) => Call(f, PassAll(args))
    case Paren(x) => Paren(Pass(x))
    case Binary(op, l, r) => Visit(Binary(op, Pass(l), Pass(r)))
    case Unary(op, x) => Visit(Unary(op, Pass(x)))
    case Between(n, x, lo, hi) => Visit(Between(n, Pass(x), Pass(lo), Pass(hi)))
    case In(n, x, list) => Visit(In(n, Pass(x), PassAll(list)))
  }

  function PassAll(es: Exprs): Exprs {
    match es
    case Nil => Nil
    case Cons(e, rest) => Cons(Pass(e), PassAll(rest))
  }

  // A tree without its parentheses: the grouping it means.
  function Erase(e: Expr): Expr {
    match e
    case Atom(_) => e
    case Call(f, args) => Call(f, EraseAll(args))
    case Paren(x) => Erase(x)
    case Binary(op, l, r) => Binary(op, Erase(l), Erase(r))
    case Unary(op, x) => Unary(op, Erase(x))
    case Between(n, x, lo, hi) => Between(n, Erase(x), Erase(lo), Erase(hi))
    case In(n, x, list) => In(n, Erase(x), EraseAll(list))
  }

  function EraseAll(es: Exprs): Exprs {
    match es
    case Nil => Nil
    case Cons(e, rest) => Cons(Erase(e), EraseAll(rest))
  }

  /* ---- the trees the pass is meant for ---- */

  // PostgreSQL reads the written operator, at the level the translator gives it.
  predicate Agrees(op: string) {
    PgInfix(Written(op)) == Some(BinaryPrec(op))
  }

  // Every operator is one PostgreSQL has, and no IN list is empty.
  predicate WellFormed(e: Expr) {
    match e
    case Atom(_) => true
    case Call(_, args) => WellFormedAll(args)
    case Paren(x) => WellFormed(x)
    case Binary(op, l, r) => Agrees(op) && WellFormed(l) && WellFormed(r)
    case Unary(op, x) => PgPrefix(op).Some? && WellFormed(x)
    case Between(_, x, lo, hi) => WellFormed(x) && WellFormed(lo) && WellFormed(hi)
    case In(_, x, list) => WellFormed(x) && list.Cons? && WellFormedAll(list)
  }

  predicate WellFormedAll(es: Exprs) {
    match es
    case Nil => true
    case Cons(e, rest) => WellFormed(e) && WellFormedAll(rest)
  }

  // A prefix operator other than NOT, + and -.
  predicate GenericPrefix(op: string) {
    !IsNot(op) && op != "+" && op != "-"
  }

  // The last thing the pass leaves at the end of e, outside parentheses, is the operand of a
  // generic prefix operator.
  predicate EndsGeneric(e: Expr) {
    match e
    case Binary(op, _, r) => !WrapsRight(op, r) && EndsGeneric(r)
    case Unary(op, _) => GenericPrefix(op)
    case _ => false
  }

  // No bare left operand of an arithmetic operator ends with a generic prefix operator.
  predicate Sound(e: Expr) {
    match e
    case Atom(_) => true
    case Call(_, args) => SoundAll(args)
    case Paren(x) => Sound(x)
    case Binary(op, l, r) =>
      Sound(l) && Sound(r) && !(BinaryPrec(op) >= ADD && !WrapsLeft(op, l) && EndsGeneric(l))
    case Unary(_, x) => Sound(x)
    case Between(_, x, lo, hi) => Sound(x) && Sound(lo) && Sound(hi)
    case In(_, x, list) => Sound(x) && SoundAll(list)
  }

  predicate SoundAll(es: Exprs) {
    match es
    case Nil => true
    case Cons(e, rest) => Sound(e) && SoundAll(rest)
  }

  /* ---- the pass only adds parentheses, once ---- */

  lemma {:induction false} PassKeepsPrec(e: Expr)
    ensures ExprPrec(Pass(e)) == ExprPrec(e)
  {}

  lemma {:induction false} PassKeepsMeaning(e: Expr)
    ensures Erase(Pass(e)) == Erase(e)
  {
    match e
    case Atom(_) =>
    case Call(_, args) => PassAllKeepsMeaning(args);
    case Paren(x) => PassKeepsMeaning(x);
    case Binary(_, l, r) => PassKeepsMeaning(l); PassKeepsMeaning(r);
    case Unary(_, x) => PassKeepsMeaning(x);
    case Between(_, x, lo, hi) => PassKeepsMeaning(x); PassKeepsMeaning(lo); PassKeepsMeaning(hi);
    case In(_, x, list) => PassKeepsMeaning(x); PassAllKeepsMeaning(list);
  }

  lemma {:induction false} PassAllKeepsMeaning(es: Exprs)
    ensures EraseAll(PassAll(es)) == EraseAll(es)
  {
    match es
    case Nil =>
    case Cons(e, rest) => PassKeepsMeaning(e); PassAllKeepsMeaning(rest);
  }

  lemma {:induction false} PassIdempotent(e: Expr)
    ensures Pass(Pass(e)) == Pass(e)
  {
    hide BinaryPrec, IsNot;
    match e
    case Atom(_) =>
    case Call(_, args) => PassAllIdempotent(args);
    case Paren(x) => PassIdempotent(x);
    case Binary(op, l, r) => PassIdempotent(l); PassIdempotent(r); OperatorsBindLooser(op);
    case Unary(_, x) => PassIdempotent(x);
    case Between(_, x, lo, hi) => PassIdempotent(x); PassIdempotent(lo); PassIdempotent(hi);
    case In(_, x, list) => PassIdempotent(x); PassAllIdempotent(list);
  }

  lemma OperatorsBindLooser(op: string)
    ensures BinaryPrec(op) <= EXP
  {}

  lemma {:induction false} PassAllIdempotent(es: Exprs)
    ensures PassAll(PassAll(es)) == PassAll(es)
  {
    match es
    case Nil =>
    case Cons(e, rest) => PassIdempotent(e); PassAllIdempotent(rest);
  }

  /* ---- no two operators are written without a space between them ---- */

  // The writer puts a symbolic prefix operator right against its operand: the operand must
  // not start with another operator, or `- -x` would be written as the comment `--x`.
  predicate Spaced(e: Expr) {
    match e
    case Atom(_) => true
    case Call(_, args) => SpacedAll(args)
    case Paren(x) => Spaced(x)
    case Binary(_, l, r) => Spaced(l) && Spaced(r)
    case Unary(op, x) => Spaced(x) && (IsNot(op) || !Print(x)[0].Op?)
    case Between(_, x, lo, hi) => Spaced(x) && Spaced(lo) && Spaced(hi)
    case In(_, x, list) => Spaced(x) && SpacedAll(list)
  }

  predicate SpacedAll(es: Exprs) {
    match es
    case Nil => true
    case Cons(e, rest) => Spaced(e) && SpacedAll(rest)
  }

  lemma {:induction false} PassSpaces(e: Expr)
    ensures Spaced(Pass(e))
  {
    match e
    case Atom(_) =>
    case Call(_, args) => PassAllSpaces(args);
    case Paren(x) => PassSpaces(x);
    case Binary(_, l, r) => PassSpaces(l); PassSpaces(r);
    case Unary(op, x) =>
      PassSpaces(x);
      if !IsNot(op) {
        var y := ParenIf(Pass(x), WrapsPrefixed(op, Pass(x)));
        assert ExprPrec(y) > UNARY;
        PrimaryStart(y);
      }
    case Between(_, x, lo, hi) => PassSpaces(x); PassSpaces(lo); PassSpaces(hi);
    case In(_, x, list) => PassSpaces(x); PassAllSpaces(list);
  }

  lemma PrimaryStart(e: Expr)
    requires ExprPrec(e) > UNARY
    ensures !Print(e)[0].Op?
  {
    match e
    case Binary(op, _, _) => OperatorsBindLooser(op);
    case _ =>
  }

  lemma {:induction false} PassAllSpaces(es: Exprs)
    ensures SpacedAll(PassAll(es))
  {
    match es
    case Nil =>
    case Cons(e, rest) => PassSpaces(e); PassAllSpaces(rest);
  }

  /* ---- what PostgreSQL reads ---- */

  // The tree as the writer emits it.
  function Emitted(e: Expr): Expr {
    Render(Pass(e))
  }

  function EmittedAll(es: Exprs): Exprs {
    RenderAll(PassAll(es))
  }

  // An operand as it is emitted, parenthesised or not.
  function Operand(e: Expr, wrapped: bool): Expr {
    ParenIf(Emitted(e), wrapped)
  }

  lemma RenderOperand(x: Expr, wrapped: bool)
    ensures Render(ParenIf(x, wrapped)) == ParenIf(Render(x), wrapped)
  {}

  // The emitted form of each node, its operands parenthesised by the pass.
  function EmittedNode(e: Expr): Expr {
    match e
    case Binary(op, l, r) => Binary(Written(op), Operand(l, WrapsLeft(op, l)), Operand(r, WrapsRight(op, r)))
    case Unary(op, x) => Unary(op, Operand(x, WrapsPrefixed(op, x)))
    case Between(n, x, lo, hi) =>
      Between(n, Operand(x, ExprPrec(x) <= LIKE), Operand(lo, ExprPrec(lo) <= LIKE), Operand(hi, ExprPrec(hi) <= LIKE))
    case In(n, x, list) => In(n, Operand(x, ExprPrec(x) <= LIKE), EmittedAll(list))
    case _ => Emitted(e)
  }

  lemma EmittedNodes(e: Expr)
    ensures Emitted(e) == EmittedNode(e)
  {
    hide BinaryPrec, IsNot, Written;
    match e
    case Binary(op, l, r) =>
      PassKeepsPrec(l); PassKeepsPrec(r);
      RenderOperand(Pass(l), WrapsLeft(op, l)); RenderOperand(Pass(r), WrapsRight(op, r));
    case Unary(op, x) =>
      PassKeepsPrec(x);
      RenderOperand(Pass(x), WrapsPrefixed(op, x));
    case Between(_, x, lo, hi) =>
      PassKeepsPrec(x); PassKeepsPrec(lo); PassKeepsPrec(hi);
      RenderOperand(Pass(x), ExprPrec(x) <= LIKE);
      RenderOperand(Pass(lo), ExprPrec(lo) <= LIKE);
      RenderOperand(Pass(hi), ExprPrec(hi) <= LIKE);
    case In(_, x, _) =>
      PassKeepsPrec(x);
      RenderOperand(Pass(x), ExprPrec(x) <= LIKE);
    case _ =>
  }

  lemma OperatorLevels(op: string)
    requires Agrees(op)
    ensures 1 <= BinaryPrec(op) <= EXP && BinaryPrec(op) != NOT
  {}

  lemma PrefixMeaning(op: string)
    requires PgPrefix(op).Some?
    ensures PgPrefix(op) == Some(if IsNot(op) then NOT else if GenericPrefix(op) then ADD else UNARY)
  {}

  // Lowest level the right end of e may swallow.
  function Reach(e: Expr): nat {
    Least(if e.Unary? then ExprPrec(e) else ExprPrec(e) + 1, if EndsGeneric(e) then ADD else PRIMARY)
  }

  // How an emitted tree behaves as an operand: reading it from the left meets no operator
  // looser than its level, and its right end swallows nothing looser than it may.
  ghost predicate Fits(e: Expr) {
    var t := Emitted(e);
    && Floor(t) >= (if ExprPrec(e) == NOT then PRIMARY else ExprPrec(e))
    && OpenLevel(t) >= ExprPrec(e)
    && Grab(t) >= Reach(e)
  }

  lemma {:induction false} FitsAsOperand(e: Expr)
    requires WellFormed(e)
    ensures Fits(e)
  {
    hide BinaryPrec, PgInfix, PgPrefix, IsNot, Written, NonAssoc, Fits;
    match e
    case Binary(_, l, r) => FitsAsOperand(l); FitsAsOperand(r); FitsBinary(e);
    case Unary(_, x) => FitsAsOperand(x); FitsUnary(e);
    case Between(_, x, _, hi) => FitsAsOperand(x); FitsAsOperand(hi); FitsLike(e);
    case In(_, x, _) => FitsAsOperand(x); FitsLike(e);
    case _ => FitsPrimary(e);
  }

  lemma FitsPrimary(e: Expr)
    requires e.Atom? || e.Call? || e.Paren?
    ensures Fits(e)
  {}

  lemma FitsBinary(e: Expr)
    requires e.Binary? && WellFormed(e) && Fits(e.lhs) && Fits(e.rhs)
    ensures Fits(e)
  {
    EmittedNodes(e);
    OperatorLevels(e.op);
    hide BinaryPrec, PgInfix, PgPrefix, IsNot, Written, NonAssoc;
    var t := Emitted(e);
    assert OpenLevel(t) == BinaryPrec(e.op);
    assert Floor(t) >= ExprPrec(e);
    assert Grab(t) >= Reach(e);
  }

  lemma FitsUnary(e: Expr)
    requires e.Unary? && WellFormed(e) && Fits(e.rhs)
    ensures Fits(e)
  {
    EmittedNodes(e);
    PrefixMeaning(e.op);
    if e.rhs.Binary? {
      OperatorsBindLooser(e.rhs.op);
    }
    hide BinaryPrec, PgInfix, PgPrefix, IsNot, Written, NonAssoc;
    assert Grab(Emitted(e)) >= Reach(e);
  }

  lemma FitsLike(e: Expr)
    requires (e.Between? && Fits(e.high)) || e.In?
    requires WellFormed(e) && Fits(e.expr)
    ensures Fits(e)
  {
    EmittedNodes(e);
    hide BinaryPrec, PgInfix, PgPrefix, IsNot, Written, NonAssoc;
    var t := Emitted(e);
    assert Floor(t) >= ExprPrec(e);
    assert OpenLevel(t) >= ExprPrec(e);
    assert Grab(t) >= Reach(e);
  }

  lemma {:induction false} GenericSwallows(e: Expr)
    requires WellFormed(e) && EndsGeneric(e)
    ensures Grab(Emitted(e)) <= ADD
  {
    EmittedNodes(e);
    match e
    case Binary(op, _, r) => GenericSwallows(r);
    case Unary(op, _) => PrefixMeaning(op);
  }

  // The emitted tree groups as it is printed exactly when no bare left operand of an
  // arithmetic operator ends with a generic prefix operator.
  lemma {:induction false} CanonicalExactly(e: Expr)
    requires WellFormed(e)
    ensures Canonical(Emitted(e)) <==> Sound(e)
  {
    EmittedNodes(e);
    match e
    case Atom(_) =>
    case Call(_, args) => CanonicalAllExactly(args);
    case Paren(x) => CanonicalExactly(x);
    case Binary(op, l, r) => CanonicalBinary(op, l, r);
    case Unary(op, x) =>
      CanonicalExactly(x);
      FitsAsOperand(x);
      PrefixMeaning(op);
    case Between(negated, x, lo, hi) => CanonicalBetween(negated, x, lo, hi);
    case In(_, x, list) =>
      CanonicalExactly(x);
      FitsAsOperand(x);
      CanonicalAllExactly(list);
  }

  lemma {:induction false} CanonicalBetween(negated: bool, x: Expr, lo: Expr, hi: Expr)
    requires WellFormed(Between(negated, x, lo, hi))
    ensures Canonical(Emitted(Between(negated, x, lo, hi))) <==> Sound(Between(negated, x, lo, hi))
    decreases Between(negated, x, lo, hi), 0
  {
    hide BinaryPrec, PgInfix, PgPrefix, IsNot, Written, NonAssoc;
    EmittedNodes(Between(negated, x, lo, hi));
    CanonicalExactly(x);
    CanonicalExactly(lo);
    CanonicalExactly(hi);
    FitsAsOperand(x);
    FitsAsOperand(lo);
    FitsAsOperand(hi);
  }

  lemma {:induction false} CanonicalBinary(op: string, l: Expr, r: Expr)
    requires WellFormed(Binary(op, l, r))
    ensures Canonical(Emitted(Binary(op, l, r))) <==> Sound(Binary(op, l, r))
    decreases Binary(op, l, r), 0
  {
    EmittedNodes(Binary(op, l, r));
    CanonicalExactly(l);
    CanonicalExactly(r);
    FitsAsOperand(l);
    FitsAsOperand(r);
    OperatorLevels(op);
    if EndsGeneric(l) {
      GenericSwallows(l);
    }
  }

  lemma {:induction false} CanonicalAllExactly(es: Exprs)
    requires WellFormedAll(es)
    ensures CanonicalAll(EmittedAll(es)) <==> SoundAll(es)
    ensures es.Cons? ==> EmittedAll(es).Cons?
  {
    match es
    case Nil =>
    case Cons(e, rest) => CanonicalExactly(e); CanonicalAllExactly(rest);
  }

  // Writing an operator its own way changes no grouping.
  lemma {:induction false} RenderKeepsGrouping(e: Expr)
    ensures Erase(Render(e)) == Render(Erase(e))
  {
    match e
    case Atom(_) =>
    case Call(_, args) => RenderAllKeepsGrouping(args);
    case Paren(x) => RenderKeepsGrouping(x);
    case Binary(_, l, r) => RenderKeepsGrouping(l); RenderKeepsGrouping(r);
    case Unary(_, x) => RenderKeepsGrouping(x);
    case Between(_, x, lo, hi) => RenderKeepsGrouping(x); RenderKeepsGrouping(lo); RenderKeepsGrouping(hi);
    case In(_, x, list) => RenderKeepsGrouping(x); RenderAllKeepsGrouping(list);
  }

  lemma {:induction false} RenderAllKeepsGrouping(es: Exprs)
    ensures EraseAll(RenderAll(es)) == RenderAll(EraseAll(es))
  {
    match es
    case Nil =>
    case Cons(e, rest) => RenderKeepsGrouping(e); RenderAllKeepsGrouping(rest);
  }

  // The round trip: PostgreSQL reads the printed tree back as the tree that was printed
  // exactly when it is Sound; that tree groups as the source tree does.
  lemma RoundTrip(e: Expr)
    requires WellFormed(e)
    ensures Parse(Print(Emitted(e))) == Some(Emitted(e)) <==> Sound(e)
    ensures Erase(Emitted(e)) == Render(Erase(e))
  {
    CanonicalExactly(e);
    ReadsExactly(Print(Emitted(e)), Emitted(e));
    PassKeepsMeaning(e);
    RenderKeepsGrouping(Pass(e));
  }

  predicate PlainPrefixes(e: Expr) {
    match e
    case Atom(_) => true
    case Call(_, args) => PlainPrefixesAll(args)
    case Paren(x) => PlainPrefixes(x)
    case Binary(_, l, r) => PlainPrefixes(l) && PlainPrefixes(r)
    case Unary(op, x) => !GenericPrefix(op) && PlainPrefixes(x)
    case Between(_, x, lo, hi) => PlainPrefixes(x) && PlainPrefixes(lo) && PlainPrefixes(hi)
    case In(_, x, list) => PlainPrefixes(x) && PlainPrefixesAll(list)
  }

  predicate PlainPrefixesAll(es: Exprs) {
    match es
    case Nil => true
    case Cons(e, rest) => PlainPrefixes(e) && PlainPrefixesAll(rest)
  }

  lemma {:induction false} PlainPrefixesSound(e: Expr)
    requires PlainPrefixes(e)
    ensures Sound(e) && !EndsGeneric(e)
  {
    hide BinaryPrec, IsNot;
    match e
    case Atom(_) =>
    case Call(_, args) => PlainPrefixesAllSound(args);
    case Paren(x) => PlainPrefixesSound(x);
    case Binary(_, l, r) => PlainPrefixesSound(l); PlainPrefixesSound(r);
    case Unary(_, x) => PlainPrefixesSound(x);
    case Between(_, x, lo, hi) => PlainPrefixesSound(x); PlainPrefixesSound(lo); PlainPrefixesSound(hi);
    case In(_, x, list) => PlainPrefixesSound(x); PlainPrefixesAllSound(list);
  }

  lemma {:induction false} PlainPrefixesAllSound(es: Exprs)
    requires PlainPrefixesAll(es)
    ensures SoundAll(es)
  {
    match es
    case Nil =>
    case Cons(e, rest) => PlainPrefixesSound(e); PlainPrefixesAllSound(rest);
  }

  // ~a + b: the sum is printed bare, and PostgreSQL reads ~(a + b).
  lemma GenericPrefixRegroups()
    ensures var a, b := Atom("a"), Atom("b");
      var e := Binary("+", Unary("~", a), b);
      WellFormed(e) && Pass(e) == e && Parse(Print(e)) == Some(Unary("~", Binary("+", a, b)))
  {
    hide Parse, Print, Canonical;
    var a, b := Atom("a"), Atom("b");
    var e := Binary("+", Unary("~", a), b);
    assert Upper("+") == "+" && Upper("~") == "~";
    var misread := Unary("~", Binary("+", a, b));
    Misread(a, b);
    ReadsExactly(Print(e), misread);
  }

  lemma Misread(a: Expr, b: Expr)
    requires a.Atom? && b.Atom?
    ensures Print(Binary("+", Unary("~", a), b)) == Print(Unary("~", Binary("+", a, b)))
    ensures Canonical(Unary("~", Binary("+", a, b)))
  {
    assert Upper("+") == "+" && Upper("~") == "~";
  }

  lemma SymbolsHaveNoCase(op: string)
    requires Symbolic(op) || Symbolic(Upper(op))
    ensures Upper(op) == op
  {
    forall i | 0 <= i < |op| ensures UpperChar(op[i]) == op[i] {
      assert op[i] in op && Upper(op)[i] in Upper(op);
    }
  }

  lemma LettersAreNotSymbols(op: string)
    requires op != "" && 'A' <= op[0] <= 'Z'
    ensures !Symbolic(op)
  {
    assert op[0] in op;
  }

  lemma SymbolsAgree(op: string)
    requires Symbolic(op)
    ensures Agrees(op) <==> op != "<=>"
  {
    SymbolsHaveNoCase(op);
    if op != "" && 'A' <= op[0] <= 'Z' {
      LettersAreNotSymbols(op);
    }
  }

  predicate ComparesOrCounts(op: string) {
    op in ["=", "<>", "!=", "<", "<=", ">", ">=", "<=>", "+", "-", "*", "/", "%", "^"]
  }

  lemma ComparisonsAreSymbols(op: string)
    requires ComparesOrCounts(op)
    ensures Symbolic(op)
  {}

  lemma WordsAgree(op: string)
    requires !Symbolic(op)
    ensures Agrees(op) <==> PgInfix(Written(op)).Some?
    ensures op != "<=>"
  {
    if Symbolic(Upper(op)) {
      SymbolsHaveNoCase(op);
    }
    if ComparesOrCounts(op) {
      ComparisonsAreSymbols(op);
    }
    if ComparesOrCounts(Upper(op)) {
      ComparisonsAreSymbols(Upper(op));
    }
    hide Symbolic;
    if Upper(op) == "DIV" {
      SlashAgrees(op);
    } else {
      PlainAgrees(op);
    }
  }

  lemma SlashAgrees(op: string)
    requires Upper(op) == "DIV"
    ensures Agrees(op) && PgInfix(Written(op)).Some?
  {
    assert Upper("/") == "/";
  }

  lemma PlainAgrees(op: string)
    requires Upper(op) != "DIV" && !Symbolic(op) && !ComparesOrCounts(op) && !ComparesOrCounts(Upper(op))
    ensures Agrees(op) <==> PgInfix(Written(op)).Some?
  {
    hide Symbolic;
  }

  // The operators PostgreSQL has are read at the level the translator gives them, but for the
  // null-safe comparison, which an earlier pass rewrites.
  lemma TablesAgree(op: string)
    ensures Agrees(op) <==> PgInfix(Written(op)).Some? && op != "<=>"
  {
    if Symbolic(op) {
      SymbolsAgree(op);
      SymbolsHaveNoCase(op);
      if Upper(op) == "DIV" {
        LettersAreNotSymbols(op);
      }
    } else {
      WordsAgree(op);
    }
  }

  /* ---- when the pass changes nothing ---- */

  predicate IsNegation(e: Expr) {
    e.Unary? && IsNot(e.op)
  }

  // PostgreSQL would read these operands bare, and yet the pass parenthesises them: an IN test on the left of an
  // operator that does not bind looser, NOT on the right of an operator that binds tighter or as a bound, and an
  // operator under a prefix operator other than NOT.
  predicate WrapsNothingExtra(e: Expr) {
    match e
    case Atom(_) => true
    case Call(_, args) => WrapsNothingExtraAll(args)
    case Paren(x) => WrapsNothingExtra(x)
    case Binary(op, l, r) =>
      WrapsNothingExtra(l) && WrapsNothingExtra(r) && !(l.In? && BinaryPrec(op) >= LIKE) &&
      !(IsNegation(r) && BinaryPrec(op) > NOT)
    case Unary(op, x) => WrapsNothingExtra(x) && (IsNot(op) || !(x.Unary? || x.Binary?))
    case Between(_, x, lo, hi) =>
      WrapsNothingExtra(x) && WrapsNothingExtra(lo) && WrapsNothingExtra(hi) && !x.In? && !IsNegation(lo) &&
      !IsNegation(hi)
    case In(_, x, list) => WrapsNothingExtra(x) && WrapsNothingExtraAll(list) && !x.In?
  }

  predicate WrapsNothingExtraAll(es: Exprs) {
    match es
    case Nil => true
    case Cons(e, rest) => WrapsNothingExtra(e) && WrapsNothingExtraAll(rest)
  }

  // An operand is left alone exactly when it is itself left alone and not parenthesised.
  lemma LeftAlone(x: Expr, wrapped: bool)
    requires wrapped ==> !x.Paren?
    ensures ParenIf(Pass(x), wrapped) == x <==> !wrapped && Pass(x) == x
  {}

  lemma LeftOperand(l: Expr, p: nat)
    requires WellFormed(l) && LeftFits(Render(l), p) && 1 <= p <= EXP && p != NOT
    ensures ExprPrec(l) < p || (ExprPrec(l) == p && NonAssoc(p)) <==> l.In? && p >= LIKE
  {
    hide PgInfix, IsNot, Written, BinaryPrec;
    match l
    case Unary(op, _) => PrefixMeaning(op);
    case Binary(op, _, _) => OperatorLevels(op);
    case _ =>
  }

  lemma RightOperand(r: Expr, p: nat)
    requires WellFormed(r) && Floor(Render(r)) > p && 1 <= p <= EXP && p != NOT
    ensures ExprPrec(r) <= p <==> IsNegation(r) && p > NOT
  {
    hide PgInfix, PgPrefix, IsNot, Written, BinaryPrec;
  }

  // A tree that PostgreSQL groups as it stands gets no parentheses exactly when it has none of those operands.
  lemma {:induction false} NoOpExactly(e: Expr)
    requires WellFormed(e) && Canonical(Render(e))
    ensures Pass(e) == e <==> WrapsNothingExtra(e)
  {
    match e
    case Atom(_) =>
    case Call(_, args) => NoOpAllExactly(args);
    case Paren(x) => NoOpExactly(x);
    case Binary(op, l, r) =>
      NoOpExactly(l);
      NoOpExactly(r);
      OperatorLevels(op);
      LeftOperand(l, BinaryPrec(op));
      RightOperand(r, BinaryPrec(op));
      PassKeepsPrec(l);
      PassKeepsPrec(r);
      hide BinaryPrec, Canonical;
      LeftAlone(l, WrapsLeft(op, l));
      LeftAlone(r, WrapsRight(op, r));
    case Unary(op, x) =>
      NoOpExactly(x);
      PrefixMeaning(op);
      PassKeepsPrec(x);
      PrefixOperand(op, x);
      LeftAlone(x, WrapsPrefixed(op, x));
    case Between(_, x, lo, hi) =>
      NoOpExactly(x);
      NoOpExactly(lo);
      NoOpExactly(hi);
      LeftOperand(x, LIKE);
      RightOperand(lo, LIKE);
      RightOperand(hi, LIKE);
      PassKeepsPrec(x);
      PassKeepsPrec(lo);
      PassKeepsPrec(hi);
      hide BinaryPrec, Canonical;
      LeftAlone(x, ExprPrec(x) <= LIKE);
      LeftAlone(lo, ExprPrec(lo) <= LIKE);
      LeftAlone(hi, ExprPrec(hi) <= LIKE);
    case In(_, x, list) =>
      NoOpExactly(x);
      NoOpAllExactly(list);
      LeftOperand(x, LIKE);
      PassKeepsPrec(x);
      LeftAlone(x, ExprPrec(x) <= LIKE);
  }

  lemma PrefixOperand(op: string, x: Expr)
    requires WellFormed(Unary(op, x)) && Canonical(Render(Unary(op, x)))
    ensures WrapsPrefixed(op, x) <==> !IsNot(op) && (x.Unary? || x.Binary?)
  {
    hide PgInfix, Written, BinaryPrec;
    PrefixMeaning(op);
    match x
    case Unary(inner, _) => PrefixMeaning(inner);
    case Binary(inner, _, _) => OperatorLevels(inner);
    case _ =>
  }

  lemma {:induction false} NoOpAllExactly(es: Exprs)
    requires WellFormedAll(es) && CanonicalAll(RenderAll(es))
    ensures PassAll(es) == es <==> WrapsNothingExtraAll(es)
  {
    match es
    case Nil =>
    case Cons(e, rest) => NoOpExactly(e); NoOpAllExactly(rest);
  }

  // a IN (b) + c, the sum of the test and c, reads back without parentheses and yet is given some.
  lemma InTestWrapped()
    ensures var test := In(false, Atom("a"), Cons(Atom("b"), Nil));
      var e := Binary("+", test, Atom("c"));
      WellFormed(e) && Canonical(Render(e)) && Pass(e) == Binary("+", Paren(test), Atom("c"))
  {
    PlusLevel();
    hide BinaryPrec, PgInfix, Written, Symbolic;
    var test := In(false, Atom("a"), Cons(Atom("b"), Nil));
    assert Canonical(Render(test)) && Grab(Render(test)) == PRIMARY && OpenLevel(Render(test)) == PRIMARY;
    assert Pass(test) == test;
  }

  lemma PlusLevel()
    ensures Agrees("+") && BinaryPrec("+") == ADD && Written("+") == "+" && PgInfix("+") == Some(ADD)
  {
    assert Upper("+") == "+";
  }

  predicate Looser(a: string, b: string) {
    PgInfix(a).Some? && PgInfix(b).Some? && PgInfix(a).value < PgInfix(b).value
  }

  predicate ReadsDownTo(prefix: string, a: string, b: string) {
    PgPrefix(prefix).Some? && Looser(a, b) && PgInfix(a).value < PgPrefix(prefix).value <= PgInfix(b).value
  }

  // The order of the operators in PostgreSQL's manual; NOT takes in IS and what binds tighter, but not AND.
  lemma ManualOrder()
    ensures Looser("OR", "AND") && Looser("AND", "IS") && Looser("IS", "=") && Looser("=", "LIKE")
    ensures Looser("LIKE", "||") && Looser("||", "+") && Looser("+", "*") && Looser("*", "^")
    ensures ReadsDownTo("NOT", "AND", "IS")
  {
    hide PgInfix, PgPrefix;
    WordLevels();
    SignLevels();
    ConcatLevel();
    NotLevel();
  }

  lemma WordLevels()
    ensures PgInfix("OR") == Some(1) && PgInfix("AND") == Some(2)
    ensures PgInfix("IS") == Some(4) && PgInfix("LIKE") == Some(6)
  {
    assert Upper("OR") == "OR" && Upper("AND") == "AND" && Upper("IS") == "IS" && Upper("LIKE") == "LIKE";
  }

  lemma SignLevels()
    ensures PgInfix("=") == Some(5) && PgInfix("+") == Some(8) && PgInfix("*") == Some(9) && PgInfix("^") == Some(10)
  {
    assert Upper("=") == "=" && Upper("+") == "+" && Upper("*") == "*" && Upper("^") == "^";
  }

  lemma ConcatLevel()
    ensures PgInfix("||") == Some(7)
  {
    assert Upper("||") == "||" && Symbolic("||");
  }

  lemma NotLevel()
    ensures PgPrefix("NOT") == Some(3)
  {
    assert Upper("NOT") == "NOT";
  }
}
