/** Which operator binds more tightly, and to which side operators of one class group: the classes are
    written out here, and everything is stated of the tokens and the tree that is read from them. */
module Grouping {
  import opened Tokens
  import opened Syntax
  import opened Grammar
  import Printing

  /** The classes of the binary operators: those of a later class bind more tightly. */
  function ClassOf(k: Kind): int {
    if k.Or? then 1
    else if k.And? then 2
    else if k.Less? || k.LessEqual? || k.Greater? || k.GreaterEqual? || k.EqualEqual? || k.NotEqual? then 3
    else if k.BitOr? then 4
    else if k.Tilde? then 5
    else if k.BitAnd? then 6
    else if k.ShiftLeft? || k.ShiftRight? then 7
    else if k.Concat? then 8
    else if k.Plus? || k.Minus? then 9
    else if k.Star? || k.Slash? || k.FloorDiv? || k.Percent? then 10
    else -1
  }

  const PREFIXES: set<Kind> := {Not, Minus, Length, Tilde}

  lemma ClassIs(k: Kind)
    ensures Precedence(k) == (if ClassOf(k) < 0 then 0 else ClassOf(k)) && RightAssociative(k) == (k == Concat)
    ensures (ClassOf(k) == -1 || 1 <= ClassOf(k) <= 10) && (ClassOf(k) == ClassOf(Concat) <==> k == Concat)
  {
    PrecedenceIs(k);
  }

  lemma PrecedenceIs(k: Kind)
    ensures Precedence(k) == if ClassOf(k) < 0 then 0 else ClassOf(k)
  {
  }

  // ---- trees that need no parentheses ------------------------------------------------------

  /** An operand of op: an operator in it is of a later class, or of the same one on the side to which
      that class groups. */
  predicate Under(e: Expr, op: Kind, grouping: bool) {
    e.Binary? ==> ClassOf(e.bop) > ClassOf(op) || (grouping && ClassOf(e.bop) == ClassOf(op))
  }

  /** A tree of names, fields and operators in which every operator has what binds to it. Only `..`
      groups to the right; a prefix operator takes no binary operator, and a field neither. */
  predicate Grouped(e: Expr) {
    match e
    case Var(_) => true
    case Member(b, _) => !b.Binary? && !b.Unary? && Grouped(b)
    case Unary(op, o) => op in PREFIXES && !o.Binary? && Grouped(o)
    case Binary(op, l, r) =>
      ClassOf(op) >= 0 && Grouped(l) && Grouped(r) && Under(l, op, op != Concat) && Under(r, op, op == Concat)
    case _ => false
  }

  function Name(n: string): Token { Token(Identifier, n) }

  function Sign(k: Kind): Token { Fixed(k) }

  /** The tokens of a tree, without any parentheses. */
  function Flat(e: Expr): seq<Token>
    requires Grouped(e)
  {
    match e
    case Var(n) => [Name(n)]
    case Member(b, n) => Flat(b) + [Sign(Dot), Name(n)]
    case Unary(op, o) => [Sign(op)] + Flat(o)
    case Binary(op, l, r) => Flat(l) + ([Sign(op)] + Flat(r))
  }

  /** Tokens that do not go on with an expression. */
  predicate Over(rest: seq<Token>) {
    rest == [] || (ClassOf(rest[0].kind) == -1 && rest[0].kind !in {Dot, LeftBracket, LeftParen, LeftBrace, Kind.String})
  }

  lemma {:induction false} GroupedOk(e: Expr, c: Ctx)
    requires Grouped(e)
    ensures ExprOk(e, c)
    decreases e
  {
    hide ClassOf, Precedence;
    match e
    case Var(_) =>
    case Member(b, _) => GroupedOk(b, c);
    case Unary(_, o) => GroupedOk(o, c);
    case Binary(op, l, r) =>
      ClassIs(op);
      GroupedOk(l, c);
      GroupedOk(r, c);
  }

  lemma {:induction false} FlatShown(e: Expr, m: nat)
    requires Grouped(e) && Printing.Level(e) >= m
    ensures Printing.ShowExpr(e, m) == Flat(e)
    decreases e
  {
    hide ClassOf, Precedence, Fixed;
    match e
    case Var(_) =>
    case Member(b, _) => FlatShown(b, Printing.POSTFIX_LEVEL);
    case Unary(_, o) => FlatShown(o, UNARY_LEVEL);
    case Binary(op, l, r) =>
      ClassIs(op);
      Tighter(l, op);
      Tighter(r, op);
      FlatShown(l, Printing.LeftLevel(op));
      FlatShown(r, RightLevel(op));
  }

  lemma Tighter(e: Expr, op: Kind)
    requires ClassOf(op) >= 0
    ensures Under(e, op, true) ==> Printing.Level(e) >= Precedence(op)
    ensures Under(e, op, false) ==> Printing.Level(e) > Precedence(op)
  {
    hide ClassOf, Precedence;
    ClassIs(op);
    if e.Binary? { ClassIs(e.bop); }
    Loosest(op);
  }

  lemma Loosest(op: Kind)
    ensures Precedence(op) < UNARY_LEVEL
  {
  }

  /** Every such tree is what its tokens are read as. */
  lemma GroupedParses(e: Expr, rest: seq<Token>, c: Ctx)
    requires Grouped(e) && Over(rest)
    ensures ParseExpr(Flat(e) + rest, 1, c) == Ok(e, rest)
  {
    hide ParseExpr, Flat, ClassOf, Precedence;
    GroupedOk(e, c);
    if e.Binary? { ClassIs(e.bop); }
    FlatShown(e, 1);
    if rest != [] { ClassIs(rest[0].kind); }
    Printing.ExprParses(e, 1, rest, c);
  }

  // ---- two operators -----------------------------------------------------------------------

  /** What `a p b q d` is read as. */
  lemma TwoOperators(a: string, p: Kind, b: string, q: Kind, d: string, rest: seq<Token>, c: Ctx)
    requires ClassOf(p) >= 0 && ClassOf(q) >= 0 && Over(rest)
    ensures ParseExpr([Name(a), Sign(p), Name(b), Sign(q), Name(d)] + rest, 1, c)
         == Ok(if ClassOf(p) < ClassOf(q) || p == q == Concat then Binary(p, Var(a), Binary(q, Var(b), Var(d)))
               else Binary(q, Binary(p, Var(a), Var(b)), Var(d)), rest)
  {
    hide ParseExpr, ClassOf, Fixed, Over, Sign;
    ClassIs(p);
    ClassIs(q);
    FlatPair(p, Var(a), Var(b));
    FlatPair(q, Var(b), Var(d));
    if ClassOf(p) < ClassOf(q) || p == q == Concat {
      GroupedParses(Binary(p, Var(a), Binary(q, Var(b), Var(d))), rest, c);
      assert [Name(a)] + ([Sign(p)] + ([Name(b)] + ([Sign(q)] + [Name(d)]))) == [Name(a), Sign(p), Name(b), Sign(q), Name(d)];
    } else {
      GroupedParses(Binary(q, Binary(p, Var(a), Var(b)), Var(d)), rest, c);
      assert ([Name(a)] + ([Sign(p)] + [Name(b)])) + ([Sign(q)] + [Name(d)]) == [Name(a), Sign(p), Name(b), Sign(q), Name(d)];
    }
  }

  /** A prefix operator takes the operand next to it, on either side of any binary operator. */
  lemma PrefixOperator(u: Kind, a: string, p: Kind, b: string, rest: seq<Token>, c: Ctx)
    requires u in PREFIXES && ClassOf(p) >= 0 && Over(rest)
    ensures ParseExpr([Sign(u), Name(a), Sign(p), Name(b)] + rest, 1, c) == Ok(Binary(p, Unary(u, Var(a)), Var(b)), rest)
    ensures ParseExpr([Name(a), Sign(p), Sign(u), Name(b)] + rest, 1, c) == Ok(Binary(p, Var(a), Unary(u, Var(b))), rest)
  {
    hide ParseExpr, ClassOf, Fixed, Over, Sign;
    FlatPrefix(u, a);
    FlatPrefix(u, b);
    FlatPair(p, Unary(u, Var(a)), Var(b));
    FlatPair(p, Var(a), Unary(u, Var(b)));
    GroupedParses(Binary(p, Unary(u, Var(a)), Var(b)), rest, c);
    GroupedParses(Binary(p, Var(a), Unary(u, Var(b))), rest, c);
    assert [Sign(u), Name(a)] + ([Sign(p)] + [Name(b)]) == [Sign(u), Name(a), Sign(p), Name(b)];
    assert [Name(a)] + ([Sign(p)] + [Sign(u), Name(b)]) == [Name(a), Sign(p), Sign(u), Name(b)];
  }

  lemma FlatPair(p: Kind, l: Expr, r: Expr)
    requires ClassOf(p) >= 0 && Grouped(l) && Grouped(r) && !l.Binary? && !r.Binary?
    ensures Grouped(Binary(p, l, r)) && Flat(Binary(p, l, r)) == Flat(l) + ([Sign(p)] + Flat(r))
  {
    hide ClassOf, Fixed;
  }

  /** Several prefix operators take one another from the inside out, and a field comes before them all. */
  lemma PrefixChain(u: Kind, v: Kind, a: string, n: string, rest: seq<Token>, c: Ctx)
    requires u in PREFIXES && v in PREFIXES && Over(rest)
    ensures ParseExpr([Sign(u), Sign(v), Name(a), Sign(Dot), Name(n)] + rest, 1, c)
         == Ok(Unary(u, Unary(v, Member(Var(a), n))), rest)
  {
    hide ParseExpr, ClassOf, Fixed, Over, Sign;
    var m := Member(Var(a), n);
    assert Grouped(m) && Flat(m) == [Name(a), Sign(Dot), Name(n)];
    assert Grouped(Unary(v, m)) && Flat(Unary(v, m)) == [Sign(v), Name(a), Sign(Dot), Name(n)];
    GroupedParses(Unary(u, Unary(v, m)), rest, c);
    assert [Sign(u)] + [Sign(v), Name(a), Sign(Dot), Name(n)] == [Sign(u), Sign(v), Name(a), Sign(Dot), Name(n)];
  }

  lemma FlatPrefix(u: Kind, a: string)
    requires u in PREFIXES
    ensures Grouped(Unary(u, Var(a))) && Flat(Unary(u, Var(a))) == [Sign(u), Name(a)]
  {
    hide Fixed;
  }

  // ---- operands ----------------------------------------------------------------------------

  /** The expression that one token is by itself. */
  lemma OneToken(n: string, rest: seq<Token>, c: Ctx)
    requires Over(rest)
    ensures ParseExpr([Fixed(Kind.Nil)] + rest, 1, c) == Ok(NilLit, rest)
    ensures ParseExpr([Fixed(Kind.True)] + rest, 1, c) == Ok(BoolLit(true), rest)
    ensures ParseExpr([Fixed(Kind.False)] + rest, 1, c) == Ok(BoolLit(false), rest)
    ensures ParseExpr([Token(Number, n)] + rest, 1, c) == Ok(NumberLit(n), rest)
    ensures ParseExpr([Token(Kind.String, n)] + rest, 1, c) == Ok(StringLit(n), rest)
    ensures ParseExpr([Name(n)] + rest, 1, c) == Ok(Var(n), rest)
  {
    hide ParseExpr, ClassOf, Precedence, Over;
    LeafParses(NilLit, Fixed(Kind.Nil), rest, c);
    LeafParses(BoolLit(true), Fixed(Kind.True), rest, c);
    LeafParses(BoolLit(false), Fixed(Kind.False), rest, c);
    LeafParses(NumberLit(n), Token(Number, n), rest, c);
    LeafParses(StringLit(n), Token(Kind.String, n), rest, c);
    LeafParses(Var(n), Name(n), rest, c);
  }

  lemma LeafParses(e: Expr, t: Token, rest: seq<Token>, c: Ctx)
    requires ExprOk(e, c) && Printing.ShowBare(e) == [t] && !e.Unary? && !e.Binary? && Over(rest)
    ensures ParseExpr([t] + rest, 1, c) == Ok(e, rest)
  {
    hide ParseExpr, ClassOf, Precedence, Printing.ShowBare;
    if rest != [] { ClassIs(rest[0].kind); }
    Printing.ExprParses(e, 1, rest, c);
  }
}
