/** Printing a tree with the parentheses where they are needed, and parsing it back. */
module Printing {
  import opened Tokens
  import opened Syntax
  import opened Grammar

  const POSTFIX_LEVEL: nat := 12

  /** How tightly the outermost construct of e binds. */
  function Level(e: Expr): (n: nat)
    ensures n <= POSTFIX_LEVEL
  {
    if e.Binary? then Precedence(e.bop) else if e.Unary? then UNARY_LEVEL else POSTFIX_LEVEL
  }

  /** The level at which the left operand of op is printed. */
  function LeftLevel(op: Kind): nat {
    if RightAssociative(op) then Precedence(op) + 1 else Precedence(op)
  }

  function Ident(name: string): Token { Token(Identifier, name) }

  /** e where an operator of level m surrounds it: in parentheses only if it binds less tightly. */
  function ShowExpr(e: Expr, m: nat): seq<Token>
    decreases e, 1
  {
    if Level(e) < m then [Fixed(LeftParen)] + (ShowBare(e) + [Fixed(RightParen)]) else ShowBare(e)
  }

  function ShowBare(e: Expr): seq<Token>
    decreases e, 0
  {
    match e
    case NilLit => [Fixed(Kind.Nil)]
    case BoolLit(b) => [Fixed(if b then Kind.True else Kind.False)]
    case NumberLit(t) => [Token(Number, t)]
    case StringLit(t) => [Token(Kind.String, t)]
    case Var(n) => [Ident(n)]
    case Vararg => [Fixed(Ellipsis)]
    case TableLit(fs) => [Fixed(LeftBrace)] + ShowFields(fs)
    case FunctionLit(ps, v, code) => [Fixed(Kind.Function)] + ShowFunction(ps, v, code)
    case Unary(op, o) => [Fixed(op)] + ShowExpr(o, UNARY_LEVEL)
    case Binary(op, l, r) => ShowExpr(l, LeftLevel(op)) + ([Fixed(op)] + ShowExpr(r, RightLevel(op)))
    case Member(b, n) => ShowExpr(b, POSTFIX_LEVEL) + [Fixed(Dot), Ident(n)]
    case Index(b, k) =>
      ShowExpr(b, POSTFIX_LEVEL) + ([Fixed(LeftBracket)] + (ShowExpr(k, 1) + [Fixed(RightBracket)]))
    case Call(f, args) => ShowExpr(f, POSTFIX_LEVEL) + ([Fixed(LeftParen)] + ShowArgs(args))
  }

  /** Arguments and the closing parenthesis. */
  function ShowArgs(es: seq<Expr>): seq<Token>
    decreases es, 3
  {
    ShowList(es) + [Fixed(RightParen)]
  }

  function ShowList(es: seq<Expr>): seq<Token>
    decreases es, 2
  {
    if es == [] then [] else ShowExpr(es[0], 1) + ShowTail(es[1..])
  }

  function ShowTail(es: seq<Expr>): seq<Token>
    decreases es, 1
  {
    if es == [] then [] else [Fixed(Comma)] + (ShowExpr(es[0], 1) + ShowTail(es[1..]))
  }

  /** Fields, each with a comma after it, and the closing brace. */
  function ShowFields(fs: seq<Field>): seq<Token>
    decreases fs, 1
  {
    if fs == [] then [Fixed(RightBrace)]
    else ShowField(fs[0]) + ([Fixed(Comma)] + ShowFields(fs[1..]))
  }

  function ShowField(f: Field): seq<Token>
    decreases f, 0
  {
    match f
    case Item(v) => ShowExpr(v, 1)
    case Named(n, v) => [Ident(n), Fixed(Equal)] + ShowExpr(v, 1)
    case Keyed(k, v) =>
      [Fixed(LeftBracket)] + (ShowExpr(k, 1) + ([Fixed(RightBracket), Fixed(Equal)] + ShowExpr(v, 1)))
  }

  /** Names separated by commas. */
  function ShowNames(ns: seq<string>): seq<Token> {
    if ns == [] then [] else if |ns| == 1 then [Ident(ns[0])] else [Ident(ns[0]), Fixed(Comma)] + ShowNames(ns[1..])
  }

  /** The inside of a parameter list. */
  function ShowParams(ps: seq<string>, variadic: bool): seq<Token> {
    if ps == [] then (if variadic then [Fixed(Ellipsis)] else [])
    else if |ps| == 1 && !variadic then [Ident(ps[0])]
    else [Ident(ps[0]), Fixed(Comma)] + ShowParams(ps[1..], variadic)
  }

  /** A function from its parameter list on. */
  function ShowFunction(ps: seq<string>, variadic: bool, code: seq<Stmt>): seq<Token>
    decreases code, 2
  {
    [Fixed(LeftParen)] + (ShowParams(ps, variadic) + ([Fixed(RightParen)] + ShowBlockEnd(code)))
  }

  function ShowBlockEnd(ss: seq<Stmt>): seq<Token>
    decreases ss, 1
  {
    ShowBlock(ss) + [Fixed(Kind.End)]
  }

  /** Statements, each with a semicolon after it. */
  function ShowBlock(ss: seq<Stmt>): seq<Token>
    decreases ss, 0
  {
    if ss == [] then [] else ShowStmt(ss[0]) + ([Fixed(Semicolon)] + ShowBlock(ss[1..]))
  }

  function ShowStmt(s: Stmt): seq<Token>
    decreases s, 0
  {
    match s
    case CallStmt(e) => ShowLead(e)
    case Assign(ts, vs) =>
      if ts == [] then [] else ShowLead(ts[0]) + (ShowTail(ts[1..]) + ([Fixed(Equal)] + ShowList(vs)))
    case LocalAssign(ns, vs) =>
      [Fixed(Local)] + (ShowNames(ns)
        + (if vs == [] then [] else [Fixed(Equal)] + ShowList(vs)))
    case IfStmt(arms, hasElse, last) => ShowArms(Kind.If, arms) + ShowElse(hasElse, last)
    case WhileStmt(e, body) => [Fixed(While)] + (ShowExpr(e, 1) + ([Fixed(Do)] + ShowBlockEnd(body)))
    case ForNumeric(n, a, b, st, body) =>
      [Fixed(For), Ident(n), Fixed(Equal)]
        + (ShowExpr(a, 1) + ([Fixed(Comma)] + (ShowExpr(b, 1) + (ShowStep(st) + ([Fixed(Do)] + ShowBlockEnd(body))))))
    case ForGeneric(ns, vs, body) =>
      [Fixed(For)] + (ShowNames(ns)
        + ([Fixed(In)] + (ShowList(vs) + ([Fixed(Do)] + ShowBlockEnd(body)))))
    case BreakStmt => [Fixed(Break)]
    case ReturnStmt(vs) => [Fixed(Return)] + ShowList(vs)
    case FunctionDecl(t, f) =>
      [Fixed(Kind.Function)] + (ShowExpr(t, POSTFIX_LEVEL) + ShowFunctionOf(f))
    case LocalFunction(n, f) => [Fixed(Local), Fixed(Kind.Function), Ident(n)] + ShowFunctionOf(f)
  }

  /** Does e, printed bare, begin with the keyword of a function declaration? */
  predicate LeadsWithFunction(e: Expr) {
    match e
    case FunctionLit(_, _, _) => true
    case Member(b, _) => LeadsWithFunction(b)
    case Index(b, _) => LeadsWithFunction(b)
    case Call(f, _) => LeadsWithFunction(f)
    case _ => false
  }

  /** e at the head of a statement, where a leading function literal needs a parenthesis. */
  function ShowLead(e: Expr): seq<Token>
    decreases e, 2
  {
    if LeadsWithFunction(e) then [Fixed(LeftParen)] + (ShowBare(e) + [Fixed(RightParen)]) else ShowExpr(e, 1)
  }

  function ShowFunctionOf(f: Expr): seq<Token>
    decreases f, 0
  {
    if f.FunctionLit? then ShowFunction(f.params, f.variadic, f.code) else []
  }

  function ShowStep(st: Option<Expr>): seq<Token>
    decreases st, 0
  {
    if st.None? then [] else [Fixed(Comma)] + ShowExpr(st.value, 1)
  }

  /** The arms of an if statement, the first one introduced by `lead`. */
  function ShowArms(lead: Kind, arms: seq<Arm>): seq<Token>
    decreases arms, 1
  {
    if arms == [] then [] else [Fixed(lead)] + (ShowArm(arms[0]) + ShowArms(Kind.Elseif, arms[1..]))
  }

  function ShowElse(hasElse: bool, last: seq<Stmt>): seq<Token>
    decreases last, 2
  {
    if hasElse then [Fixed(Kind.Else)] + ShowBlockEnd(last) else [Fixed(Kind.End)]
  }

  function ShowArm(arm: Arm): seq<Token>
    decreases arm, 0
  {
    ShowExpr(arm.guard, 1) + ([Fixed(Then)] + ShowBlock(arm.body))
  }

  // ---- parsing expressions back ------------------------------------------------------------

  predicate StartsPostfix(ts: seq<Token>) {
    Starts(ts, Dot) || Starts(ts, LeftBracket) || StartsCall(ts)
  }

  /** No token at the head of ts continues an expression parsed at level m. */
  predicate Ends(ts: seq<Token>, m: nat) {
    !StartsPostfix(ts) && (ts == [] || Precedence(ts[0].kind) < m)
  }

  /** No token at the head of ts steals an operand from an expression printed at level m. */
  predicate Leaves(ts: seq<Token>, m: nat) {
    !StartsPostfix(ts)
    && (ts == [] || Precedence(ts[0].kind) < m || (Precedence(ts[0].kind) == m && !RightAssociative(ts[0].kind)))
  }

  /** Rank of the proof steps about e: a parenthesised e is handled before a bare one. */
  function Rank(e: Expr, m: nat): nat { if Level(e) < m then 4 else 0 }

  lemma Assoc<T>(a: seq<T>, b: seq<T>, c: seq<T>)
    ensures (a + b) + c == a + (b + c)
    ensures |a| == 1 ==> (a + (b + c))[1..] == b + c
  {
  }

  lemma Two<T>(x: T, y: T, a: seq<T>, b: seq<T>)
    ensures ([x, y] + a) + b == [x, y] + (a + b) == [x] + ([y] + (a + b))
    ensures ([x, y] + (a + b))[1..] == [y] + (a + b)
    ensures ([x, y] + (a + b))[2..] == a + b
  {
  }

  lemma Shift<T>(acc: seq<T>, s: seq<T>)
    requires s != []
    ensures acc + [s[0]] + s[1..] == acc + s
  {
  }

  lemma Whole<T>(s: seq<T>)
    requires s != []
    ensures [s[0]] + s[1..] == s
  {
  }

  /** What "parsing e printed as an operand" must achieve: the postfix loop runs with base e. */
  ghost predicate ReadsOperand(e: Expr, ts: seq<Token>, rest: seq<Token>, c: Ctx) {
    ts != [] && !IsUnaryOp(ts[0].kind) && ParsePrimary(ts, c) == PostfixLoop(rest, e, c)
  }

  /** After an operand-level expression the postfix loop runs with it as its base. */
  lemma {:induction false} OperandParses(e: Expr, rest: seq<Token>, c: Ctx)
    requires ExprOk(e, c)
    ensures ReadsOperand(e, ShowExpr(e, POSTFIX_LEVEL) + rest, rest, c)
    decreases e, Rank(e, POSTFIX_LEVEL) + 2
  {
    hide ReadsOperand;
    if Level(e) < POSTFIX_LEVEL {
      ParenParses(e, rest, c);
    } else if e.Member? {
      MemberParses(e, rest, c);
    } else if e.Index? {
      IndexParses(e, rest, c);
    } else if e.Call? {
      CallParses(e, rest, c);
    } else {
      AtomParses(e, rest, c);
    }
  }

  lemma {:induction false} ClosedParses(e: Expr, close: Kind, rest: seq<Token>, c: Ctx)
    requires ExprOk(e, c) && (close == RightParen || close == RightBracket)
    ensures ParseClosed(ShowExpr(e, 1) + ([Fixed(close)] + rest), close, c) == Ok(e, rest)
    decreases e, 3, 2
  {
    hide ParseExpr, ShowExpr, ShowBare;
    ExprParses(e, 1, [Fixed(close)] + rest, c);
  }

  lemma {:induction false} ParenParses(e: Expr, rest: seq<Token>, c: Ctx)
    requires ExprOk(e, c)
    ensures ReadsOperand(e, [Fixed(LeftParen)] + (ShowBare(e) + [Fixed(RightParen)]) + rest, rest, c)
    decreases e, 4
  {
    hide ParseClosed, PostfixLoop, ShowBare, ParsePrimary;
    Assoc([Fixed(LeftParen)], ShowBare(e) + [Fixed(RightParen)], rest);
    Assoc(ShowBare(e), [Fixed(RightParen)], rest);
    ClosedParses(e, RightParen, rest, c);
    ParenStep(ShowBare(e) + ([Fixed(RightParen)] + rest), e, rest, c);
  }

  lemma ParenStep(ts: seq<Token>, e: Expr, rest: seq<Token>, c: Ctx)
    requires ParseClosed(ts, RightParen, c) == Ok(e, rest)
    ensures ReadsOperand(e, [Fixed(LeftParen)] + ts, rest, c)
  {
    hide ParseClosed, PostfixLoop, ExprOk;
    assert ([Fixed(LeftParen)] + ts)[1..] == ts;
    assert ParseAtom([Fixed(LeftParen)] + ts, c) == Ok(e, rest);
  }

  lemma {:induction false} AtomParses(e: Expr, rest: seq<Token>, c: Ctx)
    requires ExprOk(e, c) && Level(e) == POSTFIX_LEVEL && !e.Member? && !e.Index? && !e.Call?
    ensures ReadsOperand(e, ShowExpr(e, POSTFIX_LEVEL) + rest, rest, c)
    decreases e, 1
  {
    hide ParseTable, ParseFunctionBody, PostfixLoop, ShowFunction, ShowFields, FieldsOk, BlockOk, ParsePrimary, ParseAtom;
    if e.TableLit? {
      TableParses(e.fields, rest, c);
      TableStep(ShowBare(e) + rest, e, rest, c);
    } else if e.FunctionLit? {
      Assoc([Fixed(Kind.Function)], ShowFunction(e.params, e.variadic, e.code), rest);
      FunctionParses(e.params, e.variadic, e.code, rest, c);
      FunctionStep(ShowFunction(e.params, e.variadic, e.code) + rest, e, rest, c);
    } else {
      LeafStep(e, rest, c);
    }
  }

  lemma TableStep(ts: seq<Token>, e: Expr, rest: seq<Token>, c: Ctx)
    requires Starts(ts, LeftBrace) && ParseTable(ts, c) == Ok(e, rest)
    ensures ReadsOperand(e, ts, rest, c)
  {
    hide ParseTable, PostfixLoop, ExprOk;
    assert ParseAtom(ts, c) == Ok(e, rest);
  }

  lemma FunctionStep(ts: seq<Token>, e: Expr, rest: seq<Token>, c: Ctx)
    requires ParseFunctionBody(ts, c) == Ok(e, rest)
    ensures ReadsOperand(e, [Fixed(Kind.Function)] + ts, rest, c)
  {
    hide ParseFunctionBody, PostfixLoop, ExprOk;
    assert ([Fixed(Kind.Function)] + ts)[1..] == ts;
    assert ParseAtom([Fixed(Kind.Function)] + ts, c) == Ok(e, rest);
  }

  lemma LeafStep(e: Expr, rest: seq<Token>, c: Ctx)
    requires ExprOk(e, c) && |ShowBare(e)| == 1 && Level(e) == POSTFIX_LEVEL
    requires !e.TableLit? && !e.FunctionLit? && !e.Member? && !e.Index? && !e.Call?
    ensures ReadsOperand(e, ShowBare(e) + rest, rest, c)
  {
    hide PostfixLoop;
    var ts := ShowBare(e) + rest;
    assert ts[1..] == rest;
    assert ParseAtom(ts, c) == Ok(e, rest);
  }

  lemma {:induction false} TableParses(fs: seq<Field>, rest: seq<Token>, c: Ctx)
    requires FieldsOk(fs, c)
    ensures ParseTable(ShowBare(TableLit(fs)) + rest, c) == Ok(TableLit(fs), rest)
    decreases fs, 3
  {
    hide TableFields, ShowFields, FieldsOk;
    Assoc([Fixed(LeftBrace)], ShowFields(fs), rest);
    FieldsParse(fs, [], rest, c);
    assert [] + fs == fs;
  }

  lemma CallStep(ts: seq<Token>, base: Expr, args: seq<Expr>, rest: seq<Token>, c: Ctx)
    requires StartsCall(ts) && ParseCallArgs(ts, c) == Ok(args, rest)
    ensures PostfixLoop(ts, base, c) == PostfixLoop(rest, Call(base, args), c)
  {
    hide ExprOk, ExprsOk, ParseCallArgs, ParseClosed;
  }

  lemma IndexStep(ts: seq<Token>, base: Expr, key: Expr, rest: seq<Token>, c: Ctx)
    requires Starts(ts, LeftBracket) && ParseClosed(ts[1..], RightBracket, c) == Ok(key, rest)
    ensures PostfixLoop(ts, base, c) == PostfixLoop(rest, Index(base, key), c)
  {
    hide ExprOk, ExprsOk, ParseCallArgs, ParseClosed;
  }

  lemma MemberStep(name: string, rest: seq<Token>, base: Expr, c: Ctx)
    ensures PostfixLoop([Fixed(Dot), Ident(name)] + rest, base, c) == PostfixLoop(rest, Member(base, name), c)
  {
    hide ExprOk, ParseClosed, ParseCallArgs;
    assert ([Fixed(Dot), Ident(name)] + rest)[2..] == rest;
  }

  lemma {:induction false} MemberParses(e: Expr, rest: seq<Token>, c: Ctx)
    requires ExprOk(e, c) && e.Member?
    ensures ReadsOperand(e, ShowExpr(e, POSTFIX_LEVEL) + rest, rest, c)
    decreases e, 1
  {
    hide ParsePrimary, PostfixLoop, ExprsOk;
    var tail := [Fixed(Dot), Ident(e.field)] + rest;
    Assoc(ShowExpr(e.base, POSTFIX_LEVEL), [Fixed(Dot), Ident(e.field)], rest);
    OperandParses(e.base, tail, c);
    hide ShowExpr, ShowBare;
    MemberStep(e.field, rest, e.base, c);
  }

  lemma {:induction false} IndexParses(e: Expr, rest: seq<Token>, c: Ctx)
    requires ExprOk(e, c) && e.Index?
    ensures ReadsOperand(e, ShowExpr(e, POSTFIX_LEVEL) + rest, rest, c)
    decreases e, 1
  {
    hide ParseClosed, PostfixLoop, ParsePrimary, ExprsOk;
    var close := [Fixed(RightBracket)] + rest;
    var inside := ShowExpr(e.key, 1) + close;
    var tail := [Fixed(LeftBracket)] + inside;
    Assoc(ShowExpr(e.base, POSTFIX_LEVEL), [Fixed(LeftBracket)] + (ShowExpr(e.key, 1) + [Fixed(RightBracket)]), rest);
    Assoc([Fixed(LeftBracket)], ShowExpr(e.key, 1) + [Fixed(RightBracket)], rest);
    Assoc(ShowExpr(e.key, 1), [Fixed(RightBracket)], rest);
    OperandParses(e.base, tail, c);
    hide ShowExpr, ShowBare;
    ClosedParses(e.key, RightBracket, rest, c);
    IndexStep(tail, e.base, e.key, rest, c);
  }

  lemma {:induction false} CallParses(e: Expr, rest: seq<Token>, c: Ctx)
    requires ExprOk(e, c) && e.Call?
    ensures ReadsOperand(e, ShowExpr(e, POSTFIX_LEVEL) + rest, rest, c)
    decreases e, 1
  {
    hide ParseCallArgs, ShowArgs, ParsePrimary, ExprsOk;
    var tail := [Fixed(LeftParen)] + (ShowArgs(e.args) + rest);
    Assoc(ShowExpr(e.callee, POSTFIX_LEVEL), [Fixed(LeftParen)] + ShowArgs(e.args), rest);
    Assoc([Fixed(LeftParen)], ShowArgs(e.args), rest);
    OperandParses(e.callee, tail, c);
    ArgsParse(e.args, rest, c);
    CallStep(tail, e.callee, e.args, rest, c);
  }

  /** Parsing what e prints, at any level up to the one it was printed for, reaches the binary
      loop with exactly e read. */
  lemma {:induction false} ExprReached(e: Expr, m: nat, low: nat, rest: seq<Token>, c: Ctx)
    requires ExprOk(e, c)
    requires 1 <= low <= m <= POSTFIX_LEVEL
    requires Leaves(rest, m)
    ensures ParseExpr(ShowExpr(e, m) + rest, low, c) == BinaryLoop(rest, low, e, c)
    decreases e, Rank(e, m) + 3, 0
  {
    if Level(e) < m || Level(e) == POSTFIX_LEVEL {
      assert ShowExpr(e, m) == ShowExpr(e, POSTFIX_LEVEL);
      OperandParses(e, rest, c);
    } else if e.Unary? {
      UnaryReached(e, low, rest, c);
    } else {
      BinaryReached(e, m, low, rest, c);
    }
  }

  lemma {:induction false} UnaryReached(e: Expr, low: nat, rest: seq<Token>, c: Ctx)
    requires ExprOk(e, c) && e.Unary? && !StartsPostfix(rest)
    ensures ParseExpr(ShowBare(e) + rest, low, c) == BinaryLoop(rest, low, e, c)
    decreases e, 1
  {
    hide BinaryLoop, ShowExpr, ParsePrimary;
    Assoc([Fixed(e.uop)], ShowExpr(e.operand, UNARY_LEVEL), rest);
    ExprParses(e.operand, UNARY_LEVEL, rest, c);
    assert ParsePrefix(ShowBare(e) + rest, c) == Ok(e, rest);
  }

  lemma {:induction false} BinaryReached(e: Expr, m: nat, low: nat, rest: seq<Token>, c: Ctx)
    requires ExprOk(e, c) && e.Binary?
    requires 1 <= low <= m <= Level(e) && Leaves(rest, m)
    ensures ParseExpr(ShowBare(e) + rest, low, c) == BinaryLoop(rest, low, e, c)
    decreases e, 1
  {
    var op := e.bop;
    var tail := ShowExpr(e.right, RightLevel(op)) + rest;
    var next := [Fixed(op)] + tail;
    assert ShowBare(e) + rest == ShowExpr(e.left, LeftLevel(op)) + next by {
      Assoc(ShowExpr(e.left, LeftLevel(op)), [Fixed(op)] + ShowExpr(e.right, RightLevel(op)), rest);
      Assoc([Fixed(op)], ShowExpr(e.right, RightLevel(op)), rest);
    }
    ExprReached(e.left, LeftLevel(op), low, next, c);
    assert BinaryLoop(next, low, e.left, c) == BinaryLoop(rest, low, e, c) by {
      ExprParses(e.right, RightLevel(op), rest, c);
    }
  }

  /** Printing e and parsing it at the same level gives back e. */
  lemma {:induction false} ExprParses(e: Expr, m: nat, rest: seq<Token>, c: Ctx)
    requires ExprOk(e, c)
    requires 1 <= m <= POSTFIX_LEVEL && Ends(rest, m)
    ensures ParseExpr(ShowExpr(e, m) + rest, m, c) == Ok(e, rest)
    decreases e, Rank(e, m) + 3, 1
  {
    ExprReached(e, m, m, rest, c);
  }

  // ---- first tokens ------------------------------------------------------------------------

  /** Kinds that can begin an expression. */
  predicate BeginsExpr(k: Kind) {
    IsUnaryOp(k) || k in {Kind.Nil, Kind.True, Kind.False, Number, Kind.String, Identifier, Ellipsis,
                          LeftBrace, Kind.Function, LeftParen}
  }

  lemma {:induction false} ShowHead(e: Expr, m: nat, c: Ctx)
    requires ExprOk(e, c)
    ensures ShowExpr(e, m) != [] && BeginsExpr(ShowExpr(e, m)[0].kind)
    decreases e
  {
    if Level(e) >= m {
      match e
      case Binary(op, l, _) => ShowHead(l, LeftLevel(op), c);
      case Member(b, _) => ShowHead(b, POSTFIX_LEVEL, c);
      case Index(b, _) => ShowHead(b, POSTFIX_LEVEL, c);
      case Call(f, _) => ShowHead(f, POSTFIX_LEVEL, c);
      case _ =>
    }
  }

  /** Kinds that can begin a statement. */
  predicate BeginsStmt(k: Kind) {
    BeginsExpr(k) || k in {Local, Kind.Function, Kind.If, Kind.While, Kind.For, Kind.Break, Kind.Return}
  }

  /** An expression at the head of a statement does not begin with a statement keyword. */
  lemma {:induction false} LeadHead(e: Expr, c: Ctx)
    requires ExprOk(e, c) && (e.Call? || IsLvalue(e))
    ensures ShowLead(e) != [] && BeginsExpr(ShowLead(e)[0].kind) && ShowLead(e)[0].kind != Kind.Function
  {
    if !LeadsWithFunction(e) {
      ShowHead(e, 1, c);
      NotFunction(e, c);
    }
  }

  lemma {:induction false} NotFunction(e: Expr, c: Ctx)
    requires ExprOk(e, c) && !LeadsWithFunction(e)
    ensures ShowExpr(e, POSTFIX_LEVEL) != [] && ShowExpr(e, POSTFIX_LEVEL)[0].kind != Kind.Function
  {
    ShowHead(e, POSTFIX_LEVEL, c);
    match e
    case Member(b, _) => NotFunction(b, c);
    case Index(b, _) => NotFunction(b, c);
    case Call(f, _) => NotFunction(f, c);
    case _ =>
  }

  lemma {:induction false} StmtHead(s: Stmt, c: Ctx)
    requires StmtOk(s, c)
    ensures ShowStmt(s) != [] && BeginsStmt(ShowStmt(s)[0].kind)
  {
    match s
    case CallStmt(e) => LeadHead(e, c);
    case Assign(ts, _) => LeadHead(ts[0], c);
    case _ =>
  }

  /** An expression at the head of a statement is read back. */
  lemma {:induction false} LeadParses(e: Expr, rest: seq<Token>, c: Ctx)
    requires ExprOk(e, c) && Ends(rest, 1)
    ensures ParseExpr(ShowLead(e) + rest, 1, c) == Ok(e, rest)
    decreases e, 5
  {
    hide ParseExpr, ShowBare, ShowExpr, ReadsOperand;
    if LeadsWithFunction(e) {
      ParenParses(e, rest, c);
      OperandDone(ShowLead(e) + rest, e, rest, c);
    } else {
      ExprParses(e, 1, rest, c);
    }
  }

  lemma OperandDone(ts: seq<Token>, e: Expr, rest: seq<Token>, c: Ctx)
    requires ReadsOperand(e, ts, rest, c) && Ends(rest, 1)
    ensures ParseExpr(ts, 1, c) == Ok(e, rest)
  {
    hide ExprOk, ParsePrimary;
  }

  /** A name followed by `=` is read as that name alone. */
  lemma NameThenEqual(ts: seq<Token>, c: Ctx)
    requires Starts(ts, Identifier) && Starts(ts[1..], Equal)
    ensures ParseExpr(ts, 1, c) == Ok(Var(ts[0].text), ts[1..])
  {
    hide ExprOk, ParsePrimary, PostfixLoop;
    NameAlone(ts, c);
  }

  lemma NameAlone(ts: seq<Token>, c: Ctx)
    requires Starts(ts, Identifier) && Starts(ts[1..], Equal)
    ensures ParsePrimary(ts, c) == Ok(Var(ts[0].text), ts[1..])
  {
    hide ExprOk, ParseClosed, ParseCallArgs, ParseTable;
  }

  // ---- lists -------------------------------------------------------------------------------

  lemma {:induction false} TailParses(es: seq<Expr>, acc: seq<Expr>, rest: seq<Token>, c: Ctx)
    requires ExprsOk(es, c)
    requires Ends(rest, 1) && !Starts(rest, Comma)
    ensures ListTail(ShowTail(es) + rest, acc, c) == Ok(acc + es, rest)
    decreases es, 5
  {
    hide ExprOk, ListTail, ParseExpr, ShowExpr, ShowTail, Ends;
    if es == [] {
      NoTail(rest);
      ListDone(rest, acc, c);
      assert acc + es == acc;
    } else {
      var tail := ShowTail(es[1..]) + rest;
      TailShown(es, rest);
      TailEnds(es[1..], rest);
      ExprParses(es[0], 1, tail, c);
      ListStep(ShowExpr(es[0], 1) + tail, es[0], tail, acc, c);
      TailParses(es[1..], acc + [es[0]], rest, c);
      Shift(acc, es);
    }
  }

  lemma ListDone(rest: seq<Token>, acc: seq<Expr>, c: Ctx)
    requires !Starts(rest, Comma)
    ensures ListTail(rest, acc, c) == Ok(acc, rest)
  {
    hide ParseExpr, ExprOk;
  }

  lemma ListStep(ts: seq<Token>, e: Expr, rest: seq<Token>, acc: seq<Expr>, c: Ctx)
    requires ParseExpr(ts, 1, c) == Ok(e, rest)
    ensures ListTail([Fixed(Comma)] + ts, acc, c) == ListTail(rest, acc + [e], c)
  {
    hide ParseExpr, ExprOk;
    assert ([Fixed(Comma)] + ts)[1..] == ts;
  }

  lemma {:induction false} ListParses(es: seq<Expr>, rest: seq<Token>, c: Ctx)
    requires es != [] && ExprsOk(es, c)
    requires Ends(rest, 1) && !Starts(rest, Comma)
    ensures ParseExprList(ShowList(es) + rest, c) == Ok(es, rest)
    decreases es, 6
  {
    hide ExprOk, ListTail;
    var tail := ShowTail(es[1..]) + rest;
    Assoc(ShowExpr(es[0], 1), ShowTail(es[1..]), rest);
    assert es[1..] != [] ==> tail[0] == Fixed(Comma);
    assert es[1..] == [] ==> tail == rest;
    ExprParses(es[0], 1, tail, c);
    TailParses(es[1..], [es[0]], rest, c);
    Whole(es);
  }

  lemma {:induction false} ArgsParse(es: seq<Expr>, rest: seq<Token>, c: Ctx)
    requires ExprsOk(es, c)
    ensures ParseCallArgs([Fixed(LeftParen)] + (ShowArgs(es) + rest), c) == Ok(es, rest)
    decreases es, 7
  {
    hide ExprOk, ExprsOk, ParseCallArgs, ParseExprList, ShowList;
    var close := [Fixed(RightParen)] + rest;
    Assoc(ShowList(es), [Fixed(RightParen)], rest);
    if es == [] {
      NothingListed(close);
      ArgsNone(rest, c);
    } else {
      ListHead(es, close, c);
      ListParses(es, close, c);
      ArgsSome(ShowList(es) + close, es, rest, c);
    }
  }

  lemma NothingListed(rest: seq<Token>)
    ensures ShowList([]) + rest == rest
  {
  }

  lemma ListHead(es: seq<Expr>, rest: seq<Token>, c: Ctx)
    requires es != [] && ExprsOk(es, c)
    ensures !Starts(ShowList(es) + rest, RightParen)
  {
    ShowHead(es[0], 1, c);
  }

  lemma ArgsNone(rest: seq<Token>, c: Ctx)
    ensures ParseCallArgs([Fixed(LeftParen)] + ([Fixed(RightParen)] + rest), c) == Ok([], rest)
  {
    hide ExprOk, ExprsOk, ParseExprList, ParseTable;
    Two(Fixed(LeftParen), Fixed(RightParen), rest, []);
    var ts := [Fixed(LeftParen)] + ([Fixed(RightParen)] + rest);
    assert ts[2..] == rest;
  }

  lemma ArgsSome(ts: seq<Token>, es: seq<Expr>, rest: seq<Token>, c: Ctx)
    requires !Starts(ts, RightParen) && ParseExprList(ts, c) == Ok(es, [Fixed(RightParen)] + rest)
    ensures ParseCallArgs([Fixed(LeftParen)] + ts, c) == Ok(es, rest)
  {
    hide ExprOk, ExprsOk, ParseExprList, ParseTable;
    assert ([Fixed(LeftParen)] + ts)[1..] == ts;
  }

  lemma {:induction false} FieldParses(f: Field, rest: seq<Token>, c: Ctx)
    requires FieldOk(f, c) && Starts(rest, Comma)
    ensures ParseField(ShowField(f) + rest, c) == Ok(f, rest)
    decreases f, 1
  {
    hide ParseField, ParseExpr, ExprOk, ShowExpr;
    match f
    case Item(v) =>
      ItemParses(v, rest, c);
    case Named(n, v) =>
      NamedParses(n, v, rest, c);
    case Keyed(k, v) =>
      KeyedParses(k, v, rest, c);
  }

  lemma {:induction false} ItemParses(v: Expr, rest: seq<Token>, c: Ctx)
    requires ExprOk(v, c) && Starts(rest, Comma)
    ensures ParseField(ShowExpr(v, 1) + rest, c) == Ok(Item(v), rest)
    decreases Item(v), 0
  {
    hide ParseField, ParseExpr, ExprOk, ShowExpr;
    ExprParses(v, 1, rest, c);
    ItemHead(v, rest, c);
    ItemStep(ShowExpr(v, 1) + rest, v, rest, c);
  }

  lemma ItemHead(v: Expr, rest: seq<Token>, c: Ctx)
    requires ExprOk(v, c)
    ensures !Starts(ShowExpr(v, 1) + rest, LeftBracket)
  {
    hide ParseExpr, ParseField, ExprOk;
    ShowHead(v, 1, c);
  }

  lemma ItemStep(ts: seq<Token>, v: Expr, rest: seq<Token>, c: Ctx)
    requires !Starts(ts, LeftBracket) && !Starts(rest, Equal)
    requires ParseExpr(ts, 1, c) == Ok(v, rest)
    ensures ParseField(ts, c) == Ok(Item(v), rest)
  {
    hide ExprOk, ParseExpr;
    if Starts(ts, Identifier) && Starts(ts[1..], Equal) {
      NameThenEqual(ts, c);
      assert false;
    }
  }

  /** `name = value` once its value has been read. */
  lemma NamedStep(n: string, ts: seq<Token>, v: Expr, rest: seq<Token>, c: Ctx)
    requires ParseExpr(ts, 1, c) == Ok(v, rest)
    ensures ParseField([Ident(n), Fixed(Equal)] + ts, c) == Ok(Named(n, v), rest)
  {
    hide ExprOk, ParseExpr;
    assert ([Ident(n), Fixed(Equal)] + ts)[2..] == ts;
  }

  lemma {:induction false} NamedParses(n: string, v: Expr, rest: seq<Token>, c: Ctx)
    requires ExprOk(v, c) && Starts(rest, Comma)
    ensures ParseField(ShowField(Named(n, v)) + rest, c) == Ok(Named(n, v), rest)
    decreases Named(n, v), 0
  {
    hide ParseField, ParseExpr, ExprOk, ShowExpr;
    ExprParses(v, 1, rest, c);
    Assoc([Ident(n), Fixed(Equal)], ShowExpr(v, 1), rest);
    NamedStep(n, ShowExpr(v, 1) + rest, v, rest, c);
  }

  /** `[key] = value` once its key and its value have been read. */
  lemma KeyedStep(ts: seq<Token>, k: Expr, eq: seq<Token>, v: Expr, rest: seq<Token>, c: Ctx)
    requires ParseClosed(ts, RightBracket, c) == Ok(k, [Fixed(Equal)] + eq)
    requires ParseExpr(eq, 1, c) == Ok(v, rest)
    ensures ParseField([Fixed(LeftBracket)] + ts, c) == Ok(Keyed(k, v), rest)
  {
    hide ExprOk, ParseExpr, ParseClosed;
    assert ([Fixed(LeftBracket)] + ts)[1..] == ts && ([Fixed(Equal)] + eq)[1..] == eq;
  }

  lemma CommaStarts(ts: seq<Token>)
    requires Starts(ts, Comma)
    ensures Ends(ts, 1)
  {
  }

  lemma {:induction false} KeyedParses(k: Expr, v: Expr, rest: seq<Token>, c: Ctx)
    requires ExprOk(k, c) && ExprOk(v, c) && Starts(rest, Comma)
    ensures ParseField(ShowField(Keyed(k, v)) + rest, c) == Ok(Keyed(k, v), rest)
    decreases Keyed(k, v), 0
  {
    hide ParseField, ParseExpr, ExprOk, ShowExpr, ParseClosed, ShowField, Ends;
    CommaStarts(rest);
    var eq := ShowExpr(v, 1) + rest;
    KeyedShown(k, v, rest);
    ClosedParses(k, RightBracket, [Fixed(Equal)] + eq, c);
    ExprParses(v, 1, rest, c);
    KeyedStep(ShowExpr(k, 1) + ([Fixed(RightBracket)] + ([Fixed(Equal)] + eq)), k, eq, v, rest, c);
  }

  lemma KeyedShown(k: Expr, v: Expr, rest: seq<Token>)
    ensures ShowField(Keyed(k, v)) + rest
         == [Fixed(LeftBracket)] + (ShowExpr(k, 1) + ([Fixed(RightBracket)] + ([Fixed(Equal)] + (ShowExpr(v, 1) + rest))))
  {
    hide ShowExpr;
    Assoc([Fixed(LeftBracket)], ShowExpr(k, 1) + ([Fixed(RightBracket), Fixed(Equal)] + ShowExpr(v, 1)), rest);
    Assoc(ShowExpr(k, 1), [Fixed(RightBracket), Fixed(Equal)] + ShowExpr(v, 1), rest);
    Two(Fixed(RightBracket), Fixed(Equal), ShowExpr(v, 1), rest);
  }

  lemma {:induction false} FieldsParse(fs: seq<Field>, acc: seq<Field>, rest: seq<Token>, c: Ctx)
    requires FieldsOk(fs, c)
    ensures TableFields(ShowFields(fs) + rest, acc, c) == Ok(acc + fs, rest)
    decreases fs, 2
  {
    hide FieldOk, ParseField, ShowField, TableFields;
    if fs == [] {
      assert acc + fs == acc;
      LastField(rest, acc, c);
    } else {
      var after := ShowFields(fs[1..]) + rest;
      var tail := [Fixed(Comma)] + after;
      Assoc(ShowField(fs[0]), [Fixed(Comma)] + ShowFields(fs[1..]), rest);
      Assoc([Fixed(Comma)], ShowFields(fs[1..]), rest);
      FieldHead(fs[0], tail, c);
      FieldParses(fs[0], tail, c);
      FieldStep(ShowField(fs[0]) + tail, fs[0], after, acc, c);
      FieldsParse(fs[1..], acc + [fs[0]], rest, c);
      Shift(acc, fs);
    }
  }

  lemma LastField(rest: seq<Token>, acc: seq<Field>, c: Ctx)
    ensures TableFields([Fixed(RightBrace)] + rest, acc, c) == Ok(acc, rest)
  {
    hide FieldOk, ParseField;
    assert ([Fixed(RightBrace)] + rest)[1..] == rest;
  }

  lemma FieldStep(ts: seq<Token>, f: Field, after: seq<Token>, acc: seq<Field>, c: Ctx)
    requires ts != [] && ts[0].kind != RightBrace && ts[0].kind != Kind.EOF
    requires ParseField(ts, c) == Ok(f, [Fixed(Comma)] + after)
    ensures TableFields(ts, acc, c) == TableFields(after, acc + [f], c)
  {
    hide FieldOk, ParseField;
    assert ([Fixed(Comma)] + after)[1..] == after;
  }

  lemma FieldHead(f: Field, rest: seq<Token>, c: Ctx)
    requires FieldOk(f, c)
    ensures var ts := ShowField(f) + rest; ts != [] && ts[0].kind != RightBrace && ts[0].kind != Kind.EOF
  {
    hide ExprOk;
    ShowHead(f.value, 1, c);
  }

  lemma NameStep(n: string, ts: seq<Token>, acc: seq<string>)
    ensures NameTail([Ident(n), Fixed(Comma)] + ts, acc) == NameTail(ts, acc + [n])
    ensures !Starts(ts, Comma) ==> NameTail([Ident(n)] + ts, acc) == Ok(acc + [n], ts)
  {
    assert ([Ident(n), Fixed(Comma)] + ts)[2..] == ts;
    assert ([Ident(n)] + ts)[1..] == ts;
  }

  lemma {:induction false} NamesParse(ns: seq<string>, acc: seq<string>, rest: seq<Token>)
    requires ns != [] && !Starts(rest, Comma)
    ensures NameTail(ShowNames(ns) + rest, acc) == Ok(acc + ns, rest)
  {
    hide NameTail;
    if |ns| == 1 {
      NameStep(ns[0], rest, acc);
      assert acc + ns == acc + [ns[0]];
    } else {
      Assoc([Ident(ns[0]), Fixed(Comma)], ShowNames(ns[1..]), rest);
      NameStep(ns[0], ShowNames(ns[1..]) + rest, acc);
      NamesParse(ns[1..], acc + [ns[0]], rest);
      Shift(acc, ns);
    }
  }

  lemma LastParam(ps: seq<string>, v: bool, rest: seq<Token>, acc: seq<string>)
    requires (ps == [] && v) || (|ps| == 1 && !v)
    requires Starts(rest, RightParen)
    ensures ParamTail(ShowParams(ps, v) + rest, acc) == Ok((acc + ps, v), rest)
  {
    assert (ShowParams(ps, v) + rest)[1..] == rest;
    assert ps == [] ==> acc + ps == acc;
    assert ps != [] ==> acc + ps == acc + [ps[0]];
  }

  lemma ParamStep(n: string, ts: seq<Token>, acc: seq<string>)
    ensures ParamTail([Ident(n), Fixed(Comma)] + ts, acc) == ParamTail(ts, acc + [n])
  {
    var full := [Ident(n), Fixed(Comma)] + ts;
    assert full[1..][0] == Fixed(Comma) && full[2..] == ts;
  }

  lemma {:induction false} ParamsParse(ps: seq<string>, v: bool, acc: seq<string>, rest: seq<Token>)
    requires (ps != [] || v) && Starts(rest, RightParen)
    ensures ParamTail(ShowParams(ps, v) + rest, acc) == Ok((acc + ps, v), rest)
  {
    hide ParamTail;
    if (ps == [] && v) || (|ps| == 1 && !v) {
      LastParam(ps, v, rest, acc);
    } else {
      Assoc([Ident(ps[0]), Fixed(Comma)], ShowParams(ps[1..], v), rest);
      ParamStep(ps[0], ShowParams(ps[1..], v) + rest, acc);
      ParamsParse(ps[1..], v, acc + [ps[0]], rest);
      Shift(acc, ps);
    }
  }

  lemma {:induction false} ParenParamsParse(ps: seq<string>, v: bool, rest: seq<Token>)
    ensures ParseParams([Fixed(LeftParen)] + (ShowParams(ps, v) + ([Fixed(RightParen)] + rest))) == Ok((ps, v), rest)
  {
    hide ParseParams, ParamTail;
    var close := [Fixed(RightParen)] + rest;
    if ps == [] && !v {
      assert ShowParams(ps, v) + close == close;
      NoParamsStep(rest);
    } else {
      ParamsParse(ps, v, [], close);
      assert [] + ps == ps;
      ParamsHead(ps, v, close);
      ParamsStep(ShowParams(ps, v) + close, ps, v, rest);
    }
  }

  lemma ParamsHead(ps: seq<string>, v: bool, rest: seq<Token>)
    requires ps != [] || v
    ensures !Starts(ShowParams(ps, v) + rest, RightParen)
  {
  }

  lemma NoParamsStep(rest: seq<Token>)
    ensures ParseParams([Fixed(LeftParen)] + ([Fixed(RightParen)] + rest)) == Ok(([], false), rest)
  {
    assert ([Fixed(LeftParen)] + ([Fixed(RightParen)] + rest))[1..] == [Fixed(RightParen)] + rest;
    assert ([Fixed(RightParen)] + rest)[1..] == rest;
  }

  lemma ParamsStep(ts: seq<Token>, ps: seq<string>, v: bool, rest: seq<Token>)
    requires !Starts(ts, RightParen) && ParamTail(ts, []) == Ok((ps, v), [Fixed(RightParen)] + rest)
    ensures ParseParams([Fixed(LeftParen)] + ts) == Ok((ps, v), rest)
  {
    hide ParamTail;
    assert ([Fixed(LeftParen)] + ts)[1..] == ts;
    assert ([Fixed(RightParen)] + rest)[1..] == rest;
  }

  lemma {:induction false} FunctionParses(ps: seq<string>, v: bool, code: seq<Stmt>, rest: seq<Token>, c: Ctx)
    requires BlockOk(code, Ctx(false, v))
    ensures ParseFunctionBody(ShowFunction(ps, v, code) + rest, c) == Ok(FunctionLit(ps, v, code), rest)
    decreases code, 5
  {
    hide ParseParams, BlockEnd, ShowParams, ShowBlockEnd, BlockOk;
    var after := ShowBlockEnd(code) + rest;
    assert ShowFunction(ps, v, code) + rest
        == [Fixed(LeftParen)] + (ShowParams(ps, v) + ([Fixed(RightParen)] + after)) by {
      Assoc([Fixed(LeftParen)], ShowParams(ps, v) + ([Fixed(RightParen)] + ShowBlockEnd(code)), rest);
      Assoc(ShowParams(ps, v), [Fixed(RightParen)] + ShowBlockEnd(code), rest);
      Assoc([Fixed(RightParen)], ShowBlockEnd(code), rest);
    }
    ParenParamsParse(ps, v, after);
    BlockEndParses(code, rest, Ctx(false, v));
  }

  // ---- parsing statements back -------------------------------------------------------------

  lemma {:induction false} BlockEndParses(ss: seq<Stmt>, rest: seq<Token>, c: Ctx)
    requires BlockOk(ss, c)
    ensures BlockEnd(ShowBlockEnd(ss) + rest, c) == Ok(ss, rest)
    decreases ss, 4
  {
    hide BlockLoop, BlockOk, ShowBlock;
    var tail := [Fixed(Kind.End)] + rest;
    Assoc(ShowBlock(ss), [Fixed(Kind.End)], rest);
    BlockParses(ss, [], {Kind.End}, tail, c);
    assert [] + ss == ss;
  }

  lemma {:induction false} BlockParses(ss: seq<Stmt>, acc: seq<Stmt>, stop: set<Kind>, rest: seq<Token>, c: Ctx)
    requires BlockOk(ss, c)
    requires stop <= ARM_STOP && Stops(rest, stop)
    ensures BlockLoop(ShowBlock(ss) + rest, acc, stop, c) == Ok(acc + ss, rest)
    decreases ss, 3
  {
    hide ParseStmt, ShowStmt, StmtOk, BlockLoop;
    if ss == [] {
      BlockDone(acc, stop, rest, c);
      assert acc + ss == acc && [] + rest == rest;
    } else {
      var tail := ShowBlock(ss[1..]) + rest;
      Assoc(ShowStmt(ss[0]), [Fixed(Semicolon)] + ShowBlock(ss[1..]), rest);
      Assoc([Fixed(Semicolon)], ShowBlock(ss[1..]), rest);
      StmtHead(ss[0], c);
      BlockHead(ss[1..], stop, rest, c);
      StmtParses(ss[0], tail, c);
      BlockStep(ShowStmt(ss[0]) + ([Fixed(Semicolon)] + tail), ss[0], tail, acc, stop, c);
      BlockParses(ss[1..], acc + [ss[0]], stop, rest, c);
      Shift(acc, ss);
    }
  }

  lemma BlockDone(acc: seq<Stmt>, stop: set<Kind>, rest: seq<Token>, c: Ctx)
    requires Stops(rest, stop)
    ensures BlockLoop(rest, acc, stop, c) == Ok(acc, rest)
  {
    hide ParseStmt, StmtOk;
  }

  /** One statement of a block. */
  lemma BlockStep(ts: seq<Token>, s: Stmt, rest: seq<Token>, acc: seq<Stmt>, stop: set<Kind>, c: Ctx)
    requires ts != [] && BeginsStmt(ts[0].kind) && stop <= ARM_STOP
    requires ReadsStmt(s, ParseStmt(ts, c), rest)
    ensures BlockLoop(ts, acc, stop, c) == BlockLoop(rest, acc + [s], stop, c)
  {
    hide ParseStmt, StmtOk;
  }

  /** What follows a statement's semicolon is not another semicolon. */
  lemma BlockHead(ss: seq<Stmt>, stop: set<Kind>, rest: seq<Token>, c: Ctx)
    requires BlockOk(ss, c) && stop <= ARM_STOP && Stops(rest, stop)
    ensures !Starts(ShowBlock(ss) + rest, Semicolon)
  {
    hide ShowStmt, StmtOk;
    if ss == [] {
      assert ShowBlock(ss) + rest == rest;
    } else {
      StmtHead(ss[0], c);
    }
  }

  /** After a statement and its semicolon the block loop is left with exactly `rest`. */
  ghost predicate ReadsStmt(s: Stmt, r: Parsed<Stmt>, rest: seq<Token>) {
    r.Ok? && r.value == s && Skip(r.rest, Semicolon) == rest
  }

  lemma {:induction false} StmtParses(s: Stmt, rest: seq<Token>, c: Ctx)
    requires StmtOk(s, c) && !Starts(rest, Semicolon)
    ensures ReadsStmt(s, ParseStmt(ShowStmt(s) + ([Fixed(Semicolon)] + rest), c), rest)
    decreases s, 9
  {
    hide ParseStmt, ExprOk, ExprsOk, ShowStmt, BlockOk, ArmsOk, ReadsStmt;
    var after := [Fixed(Semicolon)] + rest;
    match s
    case CallStmt(e) => CallStmtParses(e, after, c); Separated(s, ParseStmt(ShowStmt(s) + after, c), rest);
    case Assign(ts, vs) => AssignParses(ts, vs, after, c); Separated(s, ParseStmt(ShowStmt(s) + after, c), rest);
    case LocalAssign(ns, vs) => LocalParses(ns, vs, after, c); Separated(s, ParseStmt(ShowStmt(s) + after, c), rest);
    case IfStmt(_, _, _) =>
      IfParses(s, after, c); Separated(s, ParseStmt(ShowStmt(s) + after, c), rest);
    case WhileStmt(e, body) => WhileParses(e, body, after, c); Separated(s, ParseStmt(ShowStmt(s) + after, c), rest);
    case ForNumeric(n, a, b, st, body) =>
      ForNumericParses(n, a, b, st, body, after, c); Separated(s, ParseStmt(ShowStmt(s) + after, c), rest);
    case ForGeneric(ns, vs, body) =>
      ForGenericParses(ns, vs, body, after, c); Separated(s, ParseStmt(ShowStmt(s) + after, c), rest);
    case BreakStmt => BreakParses(after, c); Separated(s, ParseStmt(ShowStmt(s) + after, c), rest);
    case ReturnStmt(vs) => ReturnParses(vs, rest, c);
    case FunctionDecl(t, f) =>
      FunctionDeclParses(t, f, after, c); Separated(s, ParseStmt(ShowStmt(s) + after, c), rest);
    case LocalFunction(n, f) =>
      LocalFunctionParses(n, f, after, c); Separated(s, ParseStmt(ShowStmt(s) + after, c), rest);
  }

  lemma Separated(s: Stmt, r: Parsed<Stmt>, rest: seq<Token>)
    requires r == Ok(s, [Fixed(Semicolon)] + rest)
    ensures ReadsStmt(s, r, rest)
  {
    assert ([Fixed(Semicolon)] + rest)[1..] == rest;
  }

  /** Any other beginning is an expression statement. */
  lemma NoKeyword(ts: seq<Token>, c: Ctx)
    requires ts != [] && BeginsExpr(ts[0].kind) && ts[0].kind != Kind.Function
    ensures ParseStmt(ts, c) == ParseExprStmt(ts, c)
  {
    hide StmtOk, ParseLocal, ParseFunctionDecl, ParseArms, ParseWhile, ParseFor, ParseReturn, ParseExprStmt;
  }

  // ---- calls and assignments ----

  /** Tokens that go on with no expression, list or assignment. */
  predicate Over(ts: seq<Token>) {
    !StartsPostfix(ts) && (ts == [] || (Precedence(ts[0].kind) == 0 && ts[0].kind != Comma && ts[0].kind != Equal))
  }

  lemma OverEnds(ts: seq<Token>)
    requires Over(ts)
    ensures Ends(ts, 1)
  {
  }

  lemma {:induction false} CallStmtParses(e: Expr, after: seq<Token>, c: Ctx)
    requires ExprOk(e, c) && e.Call? && Over(after)
    ensures ParseStmt(ShowStmt(CallStmt(e)) + after, c) == Ok(CallStmt(e), after)
    decreases CallStmt(e), 8
  {
    hide ParseStmt, ParseExpr, ExprOk, ShowLead, ParseExprStmt;
    LeadHead(e, c);
    LeadParses(e, after, c);
    NoKeyword(ShowLead(e) + after, c);
    CallStmtStep(ShowLead(e) + after, e, after, c);
  }

  lemma CallStmtStep(ts: seq<Token>, e: Expr, after: seq<Token>, c: Ctx)
    requires ParseExpr(ts, 1, c) == Ok(e, after) && e.Call? && Over(after)
    ensures ParseExprStmt(ts, c) == Ok(CallStmt(e), after)
  {
    hide ParseExpr, ParseAssign, ExprOk, StmtOk;
  }

  lemma {:induction false} TargetsParse(es: seq<Expr>, acc: seq<Expr>, rest: seq<Token>, c: Ctx)
    requires ExprsOk(es, c) && AllLvalues(es)
    requires Starts(rest, Equal)
    ensures TargetTail(ShowTail(es) + rest, acc, c) == Ok(acc + es, rest)
    decreases es, 5
  {
    hide ExprOk, TargetTail, ParseExpr, ShowExpr, ShowTail, Ends;
    EqualEnds(rest);
    if es == [] {
      NoTail(rest);
      TargetsDone(rest, acc, c);
      assert acc + es == acc;
    } else {
      var tail := ShowTail(es[1..]) + rest;
      TailShown(es, rest);
      TailEnds(es[1..], rest);
      ExprParses(es[0], 1, tail, c);
      TargetStep(ShowExpr(es[0], 1) + tail, es[0], tail, acc, c);
      TargetsParse(es[1..], acc + [es[0]], rest, c);
      Shift(acc, es);
    }
  }

  lemma EqualEnds(ts: seq<Token>)
    requires Starts(ts, Equal) || Starts(ts, Semicolon) || Starts(ts, Do)
    ensures Ends(ts, 1)
  {
  }

  lemma TailShown(es: seq<Expr>, rest: seq<Token>)
    requires es != []
    ensures ShowTail(es) + rest == [Fixed(Comma)] + (ShowExpr(es[0], 1) + (ShowTail(es[1..]) + rest))
  {
    hide ShowExpr;
    Assoc([Fixed(Comma)], ShowExpr(es[0], 1) + ShowTail(es[1..]), rest);
    Assoc(ShowExpr(es[0], 1), ShowTail(es[1..]), rest);
  }

  lemma TargetsDone(rest: seq<Token>, acc: seq<Expr>, c: Ctx)
    requires !Starts(rest, Comma)
    ensures TargetTail(rest, acc, c) == Ok(acc, rest)
  {
    hide ParseExpr, ExprOk;
  }

  lemma TargetStep(ts: seq<Token>, e: Expr, rest: seq<Token>, acc: seq<Expr>, c: Ctx)
    requires ParseExpr(ts, 1, c) == Ok(e, rest) && IsLvalue(e)
    ensures TargetTail([Fixed(Comma)] + ts, acc, c) == TargetTail(rest, acc + [e], c)
  {
    hide ParseExpr, ExprOk;
    assert ([Fixed(Comma)] + ts)[1..] == ts;
  }

  /** A comma or what follows the list ends each expression of it. */
  lemma TailEnds(es: seq<Expr>, rest: seq<Token>)
    requires Ends(rest, 1)
    ensures Ends(ShowTail(es) + rest, 1)
    ensures if es == [] then ShowTail(es) + rest == rest else Starts(ShowTail(es) + rest, Comma)
  {
    hide ShowExpr, Ends, ShowTail;
    if es == [] {
      NoTail(rest);
    } else {
      TailShown(es, rest);
      CommaEnds(ShowExpr(es[0], 1) + (ShowTail(es[1..]) + rest));
    }
  }

  lemma NoTail(rest: seq<Token>)
    ensures ShowTail([]) + rest == rest
  {
  }

  lemma CommaEnds(ts: seq<Token>)
    ensures Ends([Fixed(Comma)] + ts, 1) && Starts([Fixed(Comma)] + ts, Comma)
  {
  }

  lemma {:induction false} AssignParses(ts: seq<Expr>, vs: seq<Expr>, after: seq<Token>, c: Ctx)
    requires StmtOk(Assign(ts, vs), c) && Over(after)
    ensures ParseStmt(ShowStmt(Assign(ts, vs)) + after, c) == Ok(Assign(ts, vs), after)
    decreases Assign(ts, vs), 8
  {
    hide ParseStmt, ParseExpr, ExprOk, ShowLead, ShowTail, ShowList, ParseExprStmt, ParseExprList, TargetTail, ShowStmt;
    hide IsLvalue, AllLvalues, Ends, ExprsOk;
    var first, others := ts[0], ts[1..];
    var right := [Fixed(Equal)] + (ShowList(vs) + after);
    var tail := ShowTail(others) + right;
    AssignShown(ts, vs, after);
    SplitTargets(ts, c);
    FirstRead(first, others, right, c);
    EqualEnds(right);
    TargetsParse(others, [first], right, c);
    OverEnds(after);
    ListParses(vs, after, c);
    AssignStep(ShowLead(first) + tail, first, others, tail, ShowList(vs) + after, vs, after, c);
  }

  lemma SplitTargets(ts: seq<Expr>, c: Ctx)
    requires ts != [] && ExprsOk(ts, c) && AllLvalues(ts)
    ensures ExprOk(ts[0], c) && IsLvalue(ts[0]) && ExprsOk(ts[1..], c) && AllLvalues(ts[1..])
    ensures ts == [ts[0]] + ts[1..]
  {
    hide ExprOk;
  }

  /** The first destination is read, and what follows it makes the statement an assignment. */
  lemma {:induction false} FirstRead(first: Expr, others: seq<Expr>, right: seq<Token>, c: Ctx)
    requires ExprOk(first, c) && IsLvalue(first) && Starts(right, Equal)
    ensures var tail := ShowTail(others) + right;
      && (Starts(tail, Equal) || Starts(tail, Comma))
      && ParseStmt(ShowLead(first) + tail, c) == ParseExprStmt(ShowLead(first) + tail, c)
      && ParseExpr(ShowLead(first) + tail, 1, c) == Ok(first, tail)
    decreases first, 6
  {
    hide ParseStmt, ParseExpr, ExprOk, ShowLead, ShowTail, ParseExprStmt, Ends;
    var tail := ShowTail(others) + right;
    EqualEnds(right);
    LeadHead(first, c);
    TailEnds(others, right);
    LeadParses(first, tail, c);
    NoKeyword(ShowLead(first) + tail, c);
  }

  lemma AssignShown(ts: seq<Expr>, vs: seq<Expr>, after: seq<Token>)
    requires ts != []
    ensures ShowStmt(Assign(ts, vs)) + after
         == ShowLead(ts[0]) + (ShowTail(ts[1..]) + ([Fixed(Equal)] + (ShowList(vs) + after)))
  {
    hide ShowLead, ShowTail, ShowList;
    Assoc(ShowLead(ts[0]), ShowTail(ts[1..]) + ([Fixed(Equal)] + ShowList(vs)), after);
    Assoc(ShowTail(ts[1..]), [Fixed(Equal)] + ShowList(vs), after);
    Assoc([Fixed(Equal)], ShowList(vs), after);
  }

  lemma AssignStep(ts: seq<Token>, first: Expr, others: seq<Expr>, tail: seq<Token>, right: seq<Token>,
                   values: seq<Expr>, after: seq<Token>, c: Ctx)
    requires IsLvalue(first) && ParseExpr(ts, 1, c) == Ok(first, tail)
    requires Starts(tail, Equal) || Starts(tail, Comma)
    requires TargetTail(tail, [first], c) == Ok([first] + others, [Fixed(Equal)] + right)
    requires ParseExprList(right, c) == Ok(values, after)
    ensures ParseExprStmt(ts, c) == Ok(Assign([first] + others, values), after)
  {
    hide ParseExpr, ParseExprList, TargetTail, ExprOk, ExprsOk, StmtOk;
    assert ([Fixed(Equal)] + right)[1..] == right;
  }

  // ---- local declarations ----

  lemma LocalKeyword(ts: seq<Token>, c: Ctx)
    ensures ParseStmt([Fixed(Local)] + ts, c) == ParseLocal(ts, c)
  {
    hide StmtOk, ParseLocal, ParseFunctionDecl, ParseArms, ParseWhile, ParseFor, ParseReturn, ParseExprStmt;
    assert ([Fixed(Local)] + ts)[1..] == ts;
  }

  lemma {:induction false} LocalParses(ns: seq<string>, vs: seq<Expr>, after: seq<Token>, c: Ctx)
    requires ns != [] && ExprsOk(vs, c) && Over(after)
    ensures ParseStmt(ShowStmt(LocalAssign(ns, vs)) + after, c) == Ok(LocalAssign(ns, vs), after)
    decreases LocalAssign(ns, vs), 8
  {
    hide ParseStmt, ParseLocal, ParseExprList, ExprsOk, NameTail, ShowNames, ShowList, ShowStmt, StmtOk;
    if vs == [] {
      LocalBare(ns, after, c);
    } else {
      var right := ShowList(vs) + after;
      var tail := [Fixed(Equal)] + right;
      hide Ends;
      OverEnds(after);
      LocalShown(ns, vs, after);
      LocalKeyword(ShowNames(ns) + tail, c);
      NamesParse(ns, [], tail);
      ListParses(vs, after, c);
      NamesStart(ns, tail);
      LocalStep(ShowNames(ns) + tail, ns, right, vs, after, c);
    }
  }

  lemma LocalShown(ns: seq<string>, vs: seq<Expr>, after: seq<Token>)
    requires vs != []
    ensures ShowStmt(LocalAssign(ns, vs)) + after
         == [Fixed(Local)] + (ShowNames(ns) + ([Fixed(Equal)] + (ShowList(vs) + after)))
  {
    hide ShowNames, ShowList;
    Assoc([Fixed(Local)], ShowNames(ns) + ([Fixed(Equal)] + ShowList(vs)), after);
    Assoc(ShowNames(ns), [Fixed(Equal)] + ShowList(vs), after);
    Assoc([Fixed(Equal)], ShowList(vs), after);
  }

  lemma LocalBare(ns: seq<string>, after: seq<Token>, c: Ctx)
    requires ns != [] && Over(after)
    ensures ParseStmt(ShowStmt(LocalAssign(ns, [])) + after, c) == Ok(LocalAssign(ns, []), after)
  {
    hide ParseStmt, NameTail, ShowNames, StmtOk, ParseExprList;
    hide ParseLocal, ShowStmt;
    LocalBareShown(ns, after);
    LocalKeyword(ShowNames(ns) + after, c);
    NamesParse(ns, [], after);
    NamesStart(ns, after);
    LocalBareStep(ShowNames(ns) + after, ns, after, c);
  }

  lemma LocalBareShown(ns: seq<string>, after: seq<Token>)
    ensures ShowStmt(LocalAssign(ns, [])) + after == [Fixed(Local)] + (ShowNames(ns) + after)
  {
    hide ShowNames;
    assert ShowStmt(LocalAssign(ns, [])) == [Fixed(Local)] + ShowNames(ns);
    Assoc([Fixed(Local)], ShowNames(ns), after);
  }

  lemma LocalBareStep(ts: seq<Token>, ns: seq<string>, after: seq<Token>, c: Ctx)
    requires Starts(ts, Identifier) && NameTail(ts, []) == Ok([] + ns, after) && Over(after)
    ensures ParseLocal(ts, c) == Ok(LocalAssign(ns, []), after)
  {
    hide NameTail, ParseExprList, ParseFunctionBody, StmtOk;
    assert [] + ns == ns;
  }

  lemma NamesStart(ns: seq<string>, after: seq<Token>)
    requires ns != []
    ensures Starts(ShowNames(ns) + after, Identifier)
  {
  }

  lemma LocalStep(ts: seq<Token>, ns: seq<string>, right: seq<Token>, vs: seq<Expr>, after: seq<Token>, c: Ctx)
    requires Starts(ts, Identifier) && NameTail(ts, []) == Ok([] + ns, [Fixed(Equal)] + right)
    requires ParseExprList(right, c) == Ok(vs, after)
    ensures ParseLocal(ts, c) == Ok(LocalAssign(ns, vs), after)
  {
    hide NameTail, ParseExprList, ExprOk, ExprsOk, StmtOk, ParseFunctionBody;
    assert [] + ns == ns && ([Fixed(Equal)] + right)[1..] == right;
  }

  lemma {:induction false} LocalFunctionParses(n: string, f: Expr, after: seq<Token>, c: Ctx)
    requires f.FunctionLit? && ExprOk(f, c)
    ensures ParseStmt(ShowStmt(LocalFunction(n, f)) + after, c) == Ok(LocalFunction(n, f), after)
    decreases LocalFunction(n, f), 8
  {
    hide ParseStmt, ParseLocal, ParseFunctionBody, ShowFunction;
    var body := ShowFunctionOf(f) + after;
    Assoc([Fixed(Local), Fixed(Kind.Function), Ident(n)], ShowFunctionOf(f), after);
    assert [Fixed(Local), Fixed(Kind.Function), Ident(n)] + body == [Fixed(Local)] + ([Fixed(Kind.Function), Ident(n)] + body);
    LocalKeyword([Fixed(Kind.Function), Ident(n)] + body, c);
    FunctionParses(f.params, f.variadic, f.code, after, c);
    LocalFunctionStep(n, body, f, after, c);
  }

  lemma LocalFunctionStep(n: string, ts: seq<Token>, f: Expr, after: seq<Token>, c: Ctx)
    requires ParseFunctionBody(ts, c) == Ok(f, after)
    ensures ParseLocal([Fixed(Kind.Function), Ident(n)] + ts, c) == Ok(LocalFunction(n, f), after)
  {
    hide ParseFunctionBody, ExprOk, StmtOk;
    var full := [Fixed(Kind.Function), Ident(n)] + ts;
    assert full[1..] == [Ident(n)] + ts && ([Ident(n)] + ts)[1..] == ts;
  }

  // ---- function declarations ----

  lemma {:induction false} DottedParses(t: Expr, rest: seq<Token>, c: Ctx)
    requires DottedName(t)
    ensures var ts := ShowExpr(t, POSTFIX_LEVEL) + rest;
      Starts(ts, Identifier) && DottedTail(ts[1..], Var(ts[0].text), c) == DottedTail(rest, t, c)
  {
    hide DottedTail;
    if t.Var? {
      var ts := ShowExpr(t, POSTFIX_LEVEL) + rest;
      assert ShowExpr(t, POSTFIX_LEVEL) == [Ident(t.name)];
      assert ts[1..] == rest;
    } else {
      Assoc(ShowExpr(t.base, POSTFIX_LEVEL), [Fixed(Dot), Ident(t.field)], rest);
      DottedParses(t.base, [Fixed(Dot), Ident(t.field)] + rest, c);
      DotStep(t.field, rest, t.base, c);
    }
  }

  lemma DotStep(n: string, ts: seq<Token>, base: Expr, c: Ctx)
    ensures DottedTail([Fixed(Dot), Ident(n)] + ts, base, c) == DottedTail(ts, Member(base, n), c)
  {
    hide ExprOk;
    assert ([Fixed(Dot), Ident(n)] + ts)[2..] == ts;
  }

  lemma FunctionKeyword(ts: seq<Token>, c: Ctx)
    ensures ParseStmt([Fixed(Kind.Function)] + ts, c) == ParseFunctionDecl(ts, c)
  {
    hide StmtOk, ParseLocal, ParseFunctionDecl, ParseArms, ParseWhile, ParseFor, ParseReturn, ParseExprStmt;
    assert ([Fixed(Kind.Function)] + ts)[1..] == ts;
  }

  lemma {:induction false} FunctionDeclParses(t: Expr, f: Expr, after: seq<Token>, c: Ctx)
    requires DottedName(t) && f.FunctionLit? && ExprOk(f, c)
    ensures ParseStmt(ShowStmt(FunctionDecl(t, f)) + after, c) == Ok(FunctionDecl(t, f), after)
    decreases FunctionDecl(t, f), 8
  {
    hide ParseStmt, ParseFunctionDecl, ParseFunctionBody, ShowFunction, ShowExpr, DottedTail, ShowStmt;
    var body := ShowFunctionOf(f) + after;
    FunctionDeclShown(t, f, after);
    FunctionKeyword(ShowExpr(t, POSTFIX_LEVEL) + body, c);
    DottedParses(t, body, c);
    FunctionParses(f.params, f.variadic, f.code, after, c);
    FunctionHead(f, after);
    FunctionDeclStep(ShowExpr(t, POSTFIX_LEVEL) + body, t, body, f, after, c);
  }

  lemma FunctionDeclShown(t: Expr, f: Expr, after: seq<Token>)
    ensures ShowStmt(FunctionDecl(t, f)) + after
         == [Fixed(Kind.Function)] + (ShowExpr(t, POSTFIX_LEVEL) + (ShowFunctionOf(f) + after))
  {
    hide ShowExpr, ShowFunctionOf;
    Assoc([Fixed(Kind.Function)], ShowExpr(t, POSTFIX_LEVEL) + ShowFunctionOf(f), after);
    Assoc(ShowExpr(t, POSTFIX_LEVEL), ShowFunctionOf(f), after);
  }

  lemma FunctionHead(f: Expr, after: seq<Token>)
    requires f.FunctionLit?
    ensures !Starts(ShowFunctionOf(f) + after, Dot)
  {
    hide ShowParams, ShowBlockEnd;
  }

  lemma FunctionDeclStep(ts: seq<Token>, t: Expr, body: seq<Token>, f: Expr, after: seq<Token>, c: Ctx)
    requires Starts(ts, Identifier) && DottedTail(ts[1..], Var(ts[0].text), c) == DottedTail(body, t, c)
    requires !Starts(body, Dot) && ParseFunctionBody(body, c) == Ok(f, after)
    ensures ParseFunctionDecl(ts, c) == Ok(FunctionDecl(t, f), after)
  {
    hide ParseFunctionBody, ExprOk, StmtOk;
  }

  // ---- conditionals ----

  lemma {:induction false} ArmParses(arm: Arm, rest: seq<Token>, c: Ctx)
    requires ArmOk(arm, c) && Stops(rest, ARM_STOP)
    ensures ParseArm(ShowArm(arm) + rest, c) == Ok(arm, rest)
    decreases arm, 4
  {
    hide ParseExpr, ExprOk, BlockOk, ShowExpr, ShowBlock, BlockLoop, ParseArm;
    var body := ShowBlock(arm.body) + rest;
    Assoc(ShowExpr(arm.guard, 1), [Fixed(Then)] + ShowBlock(arm.body), rest);
    Assoc([Fixed(Then)], ShowBlock(arm.body), rest);
    ExprParses(arm.guard, 1, [Fixed(Then)] + body, c);
    BlockParses(arm.body, [], ARM_STOP, rest, c);
    assert [] + arm.body == arm.body;
    ArmStep(ShowExpr(arm.guard, 1) + ([Fixed(Then)] + body), arm, body, rest, c);
  }

  lemma ArmStep(ts: seq<Token>, arm: Arm, body: seq<Token>, rest: seq<Token>, c: Ctx)
    requires ParseExpr(ts, 1, c) == Ok(arm.guard, [Fixed(Then)] + body)
    requires BlockLoop(body, [], ARM_STOP, c) == Ok(arm.body, rest)
    ensures ParseArm(ts, c) == Ok(arm, rest)
  {
    hide ParseExpr, ExprOk, BlockOk, BlockLoop;
    assert ([Fixed(Then)] + body)[1..] == body;
  }

  /** What follows an arm stops its block. */
  lemma ArmEnds(arms: seq<Arm>, hasElse: bool, last: seq<Stmt>, rest: seq<Token>)
    ensures Stops(ShowArms(Kind.Elseif, arms) + (ShowElse(hasElse, last) + rest), ARM_STOP)
  {
    hide ShowArm, ShowBlockEnd;
  }

  /** The arms of s from the k-th on. */
  lemma {:induction false} ArmsParse(s: Stmt, k: nat, acc: seq<Arm>, rest: seq<Token>, c: Ctx)
    requires s.IfStmt? && k < |s.arms| && ArmsOk(s.arms, c) && BlockOk(s.otherwise, c) && (!s.hasElse ==> s.otherwise == [])
    ensures ParseArms(ShowArm(s.arms[k])
                      + (ShowArms(Kind.Elseif, s.arms[k + 1..]) + (ShowElse(s.hasElse, s.otherwise) + rest)), acc, c)
         == Ok(IfStmt(acc + s.arms[k..], s.hasElse, s.otherwise), rest)
    decreases s, 7, |s.arms| - k
  {
    hide ParseArms, ParseArm, ArmOk, BlockOk, ShowArm, ShowElse, BlockEnd;
    var arm := s.arms[k];
    var end := ShowElse(s.hasElse, s.otherwise) + rest;
    var tail := ShowArms(Kind.Elseif, s.arms[k + 1..]) + end;
    ArmEnds(s.arms[k + 1..], s.hasElse, s.otherwise, rest);
    ArmParses(arm, tail, c);
    if k + 1 == |s.arms| {
      assert s.arms[k + 1..] == [] && [] + end == end && s.arms[k..] == [arm];
      ElseParses(ShowArm(arm) + tail, arm, acc, s.hasElse, s.otherwise, rest, c);
    } else {
      var more := ShowArm(s.arms[k + 1]) + (ShowArms(Kind.Elseif, s.arms[k + 2..]) + end);
      assert s.arms[k + 1..][1..] == s.arms[k + 2..];
      Assoc([Fixed(Kind.Elseif)], ShowArm(s.arms[k + 1]) + ShowArms(Kind.Elseif, s.arms[k + 2..]), end);
      Assoc(ShowArm(s.arms[k + 1]), ShowArms(Kind.Elseif, s.arms[k + 2..]), end);
      ElseifStep(ShowArm(arm) + tail, arm, acc, more, c);
      ArmsParse(s, k + 1, acc + [arm], rest, c);
      assert acc + [arm] + s.arms[k + 1..] == acc + s.arms[k..];
    }
  }

  lemma ElseifStep(ts: seq<Token>, arm: Arm, acc: seq<Arm>, more: seq<Token>, c: Ctx)
    requires ParseArm(ts, c) == Ok(arm, [Fixed(Kind.Elseif)] + more)
    ensures ParseArms(ts, acc, c) == ParseArms(more, acc + [arm], c)
  {
    hide ParseArm, ArmOk, BlockOk, BlockEnd, StmtOk;
    assert ([Fixed(Kind.Elseif)] + more)[1..] == more;
  }

  lemma {:induction false} ElseParses(ts: seq<Token>, arm: Arm, acc: seq<Arm>, hasElse: bool, last: seq<Stmt>, rest: seq<Token>, c: Ctx)
    requires ParseArm(ts, c) == Ok(arm, ShowElse(hasElse, last) + rest)
    requires BlockOk(last, c) && (!hasElse ==> last == [])
    ensures ParseArms(ts, acc, c) == Ok(IfStmt(acc + [arm], hasElse, last), rest)
    decreases last, 5
  {
    hide ParseArm, ParseArms, BlockOk, BlockEnd, ShowBlockEnd;
    if hasElse {
      Assoc([Fixed(Kind.Else)], ShowBlockEnd(last), rest);
      BlockEndParses(last, rest, c);
      ElseStep(ts, arm, acc, last, ShowBlockEnd(last) + rest, rest, c);
    } else {
      EndStep(ts, arm, acc, rest, c);
    }
  }

  lemma ElseStep(ts: seq<Token>, arm: Arm, acc: seq<Arm>, last: seq<Stmt>, body: seq<Token>, rest: seq<Token>, c: Ctx)
    requires ParseArm(ts, c) == Ok(arm, [Fixed(Kind.Else)] + body) && BlockEnd(body, c) == Ok(last, rest)
    ensures ParseArms(ts, acc, c) == Ok(IfStmt(acc + [arm], true, last), rest)
  {
    hide ParseArm, ArmOk, BlockOk, BlockEnd, StmtOk;
    assert ([Fixed(Kind.Else)] + body)[1..] == body;
  }

  lemma EndStep(ts: seq<Token>, arm: Arm, acc: seq<Arm>, rest: seq<Token>, c: Ctx)
    requires ParseArm(ts, c) == Ok(arm, [Fixed(Kind.End)] + rest)
    ensures ParseArms(ts, acc, c) == Ok(IfStmt(acc + [arm], false, []), rest)
  {
    hide ParseArm, ArmOk, BlockOk, BlockEnd, StmtOk;
    assert ([Fixed(Kind.End)] + rest)[1..] == rest;
  }

  lemma IfKeyword(ts: seq<Token>, c: Ctx)
    ensures ParseStmt([Fixed(Kind.If)] + ts, c) == ParseArms(ts, [], c)
  {
    hide StmtOk, ParseLocal, ParseFunctionDecl, ParseArms, ParseWhile, ParseFor, ParseReturn, ParseExprStmt;
    assert ([Fixed(Kind.If)] + ts)[1..] == ts;
  }

  lemma {:induction false} IfParses(s: Stmt, after: seq<Token>, c: Ctx)
    requires s.IfStmt? && s.arms != [] && ArmsOk(s.arms, c) && BlockOk(s.otherwise, c) && (!s.hasElse ==> s.otherwise == [])
    ensures ParseStmt(ShowStmt(s) + after, c) == Ok(s, after)
    decreases s, 8
  {
    hide ParseStmt, ParseArms, ArmsOk, BlockOk, ShowArm, ShowElse, ShowStmt;
    IfShown(s, after);
    IfKeyword(ShowArm(s.arms[0]) + (ShowArms(Kind.Elseif, s.arms[1..]) + (ShowElse(s.hasElse, s.otherwise) + after)), c);
    ArmsParse(s, 0, [], after, c);
    assert [] + s.arms == s.arms && s.arms[0..] == s.arms;
  }

  lemma IfShown(s: Stmt, after: seq<Token>)
    requires s.IfStmt? && s.arms != []
    ensures ShowStmt(s) + after
         == [Fixed(Kind.If)] + (ShowArm(s.arms[0])
              + (ShowArms(Kind.Elseif, s.arms[1..]) + (ShowElse(s.hasElse, s.otherwise) + after)))
  {
    hide ShowArm, ShowElse;
    var end := ShowElse(s.hasElse, s.otherwise) + after;
    Assoc(ShowArms(Kind.If, s.arms), ShowElse(s.hasElse, s.otherwise), after);
    Assoc([Fixed(Kind.If)], ShowArm(s.arms[0]) + ShowArms(Kind.Elseif, s.arms[1..]), end);
    Assoc(ShowArm(s.arms[0]), ShowArms(Kind.Elseif, s.arms[1..]), end);
  }

  // ---- loops ----

  lemma {:induction false} LoopBodyParses(body: seq<Stmt>, rest: seq<Token>, c: Ctx)
    requires BlockOk(body, c.(inLoop := true))
    ensures ParseLoopBody([Fixed(Do)] + (ShowBlockEnd(body) + rest), c) == Ok(body, rest)
    decreases body, 5
  {
    hide BlockEnd, BlockOk, ShowBlockEnd;
    BlockEndParses(body, rest, c.(inLoop := true));
    assert ([Fixed(Do)] + (ShowBlockEnd(body) + rest))[1..] == ShowBlockEnd(body) + rest;
  }

  lemma WhileKeyword(ts: seq<Token>, c: Ctx)
    ensures ParseStmt([Fixed(While)] + ts, c) == ParseWhile(ts, c)
  {
    hide StmtOk, ParseLocal, ParseFunctionDecl, ParseArms, ParseWhile, ParseFor, ParseReturn, ParseExprStmt;
    assert ([Fixed(While)] + ts)[1..] == ts;
  }

  lemma {:induction false} WhileParses(e: Expr, body: seq<Stmt>, after: seq<Token>, c: Ctx)
    requires ExprOk(e, c) && BlockOk(body, c.(inLoop := true))
    ensures ParseStmt(ShowStmt(WhileStmt(e, body)) + after, c) == Ok(WhileStmt(e, body), after)
    decreases WhileStmt(e, body), 8
  {
    hide ParseStmt, ParseWhile, ParseExpr, ExprOk, BlockOk, ShowExpr, ShowBlockEnd, ParseLoopBody, ShowStmt;
    var tail := [Fixed(Do)] + (ShowBlockEnd(body) + after);
    WhileShown(e, body, after);
    WhileKeyword(ShowExpr(e, 1) + tail, c);
    ExprParses(e, 1, tail, c);
    LoopBodyParses(body, after, c);
    WhileStep(ShowExpr(e, 1) + tail, e, tail, body, after, c);
  }

  lemma WhileShown(e: Expr, body: seq<Stmt>, after: seq<Token>)
    ensures ShowStmt(WhileStmt(e, body)) + after
         == [Fixed(While)] + (ShowExpr(e, 1) + ([Fixed(Do)] + (ShowBlockEnd(body) + after)))
  {
    hide ShowExpr, ShowBlockEnd;
    Assoc([Fixed(While)], ShowExpr(e, 1) + ([Fixed(Do)] + ShowBlockEnd(body)), after);
    Assoc(ShowExpr(e, 1), [Fixed(Do)] + ShowBlockEnd(body), after);
    Assoc([Fixed(Do)], ShowBlockEnd(body), after);
  }

  lemma WhileStep(ts: seq<Token>, e: Expr, tail: seq<Token>, body: seq<Stmt>, after: seq<Token>, c: Ctx)
    requires ParseExpr(ts, 1, c) == Ok(e, tail) && ParseLoopBody(tail, c) == Ok(body, after)
    ensures ParseWhile(ts, c) == Ok(WhileStmt(e, body), after)
  {
    hide ParseExpr, ParseLoopBody, ExprOk, StmtOk;
  }

  lemma {:induction false} StepParses(st: Option<Expr>, rest: seq<Token>, c: Ctx)
    requires (st.Some? ==> ExprOk(st.value, c)) && Starts(rest, Do)
    ensures ParseStep(ShowStep(st) + rest, c) == Ok(st, rest)
    ensures Ends(ShowStep(st) + rest, 1)
    decreases st, 4
  {
    hide ParseExpr, ShowExpr, ExprOk, Ends;
    EqualEnds(rest);
    if st.None? {
      assert ShowStep(st) + rest == rest;
    } else {
      var ts := ShowExpr(st.value, 1) + rest;
      Assoc([Fixed(Comma)], ShowExpr(st.value, 1), rest);
      CommaEnds(ts);
      ExprParses(st.value, 1, rest, c);
      assert ([Fixed(Comma)] + ts)[1..] == ts;
    }
  }

  lemma ForKeyword(ts: seq<Token>, c: Ctx)
    ensures ParseStmt([Fixed(For)] + ts, c) == ParseFor(ts, c)
  {
    hide StmtOk, ParseLocal, ParseFunctionDecl, ParseArms, ParseWhile, ParseFor, ParseReturn, ParseExprStmt;
    assert ([Fixed(For)] + ts)[1..] == ts;
  }

  lemma {:induction false} ForNumericParses(n: string, a: Expr, b: Expr, st: Option<Expr>, body: seq<Stmt>,
                                            after: seq<Token>, c: Ctx)
    requires ExprOk(a, c) && ExprOk(b, c) && (st.Some? ==> ExprOk(st.value, c)) && BlockOk(body, c.(inLoop := true))
    ensures ParseStmt(ShowStmt(ForNumeric(n, a, b, st, body)) + after, c) == Ok(ForNumeric(n, a, b, st, body), after)
    decreases ForNumeric(n, a, b, st, body), 8
  {
    hide ParseStmt, ParseFor, ParseExpr, ExprOk, BlockOk, ShowExpr, ShowBlockEnd, ParseLoopBody, ShowStep, ParseStep, ShowStmt;
    var loop := [Fixed(Do)] + (ShowBlockEnd(body) + after);
    var third := ShowStep(st) + loop;
    var second := ShowExpr(b, 1) + third;
    var first := ShowExpr(a, 1) + ([Fixed(Comma)] + second);
    ForNumericShown(n, a, b, st, body, after);
    ForKeyword([Ident(n), Fixed(Equal)] + first, c);
    RangeParses(ForNumeric(n, a, b, st, body), a, b, st, loop, c);
    LoopBodyParses(body, after, c);
    ForNumericStep(n, first, a, second, b, third, st, loop, body, after, c);
  }

  lemma {:induction false} RangeParses(s: Stmt, a: Expr, b: Expr, st: Option<Expr>, loop: seq<Token>, c: Ctx)
    requires s.ForNumeric? && a == s.first && b == s.last && st == s.step
    requires ExprOk(a, c) && ExprOk(b, c) && (st.Some? ==> ExprOk(st.value, c)) && Starts(loop, Do)
    ensures var third := ShowStep(st) + loop;
      var second := ShowExpr(b, 1) + third;
      && ParseExpr(ShowExpr(a, 1) + ([Fixed(Comma)] + second), 1, c) == Ok(a, [Fixed(Comma)] + second)
      && ParseExpr(second, 1, c) == Ok(b, third)
      && ParseStep(third, c) == Ok(st, loop)
    decreases s, 7
  {
    hide ParseExpr, ExprOk, ShowExpr, ShowStep, ParseStep, Ends;
    var third := ShowStep(st) + loop;
    var second := ShowExpr(b, 1) + third;
    CommaEnds(second);
    StepParses(st, loop, c);
    ExprParses(a, 1, [Fixed(Comma)] + second, c);
    ExprParses(b, 1, third, c);
  }

  /** The bounds, step and body of a numeric loop. */
  function ShowRange(a: Expr, b: Expr, st: Option<Expr>, rest: seq<Token>): seq<Token> {
    ShowExpr(a, 1) + ([Fixed(Comma)] + (ShowExpr(b, 1) + (ShowStep(st) + rest)))
  }

  lemma ForNumericShown(n: string, a: Expr, b: Expr, st: Option<Expr>, body: seq<Stmt>, after: seq<Token>)
    ensures ShowStmt(ForNumeric(n, a, b, st, body)) + after
         == [Fixed(For)] + ([Ident(n), Fixed(Equal)]
              + (ShowExpr(a, 1) + ([Fixed(Comma)]
              + (ShowExpr(b, 1) + (ShowStep(st) + ([Fixed(Do)] + (ShowBlockEnd(body) + after)))))))
  {
    hide ShowExpr, ShowStep, ShowBlockEnd, ShowRange;
    var v := [Fixed(Do)] + ShowBlockEnd(body);
    var z := ShowRange(a, b, st, v);
    RangeShown(a, b, st, body, after);
    assert ShowStmt(ForNumeric(n, a, b, st, body)) == [Fixed(For), Ident(n), Fixed(Equal)] + z by {
      RangeUnfolds(a, b, st, v);
    }
    Assoc([Fixed(For), Ident(n), Fixed(Equal)], z, after);
    Three(Fixed(For), Ident(n), Fixed(Equal), z + after);
  }

  lemma Three<T>(x: T, y: T, z: T, ts: seq<T>)
    ensures [x, y, z] + ts == [x] + ([y, z] + ts)
  {
  }

  lemma RangeUnfolds(a: Expr, b: Expr, st: Option<Expr>, rest: seq<Token>)
    ensures ShowRange(a, b, st, rest) == ShowExpr(a, 1) + ([Fixed(Comma)] + (ShowExpr(b, 1) + (ShowStep(st) + rest)))
  {
    hide ShowExpr, ShowStep;
  }

  lemma RangeShown(a: Expr, b: Expr, st: Option<Expr>, body: seq<Stmt>, after: seq<Token>)
    ensures ShowRange(a, b, st, [Fixed(Do)] + ShowBlockEnd(body)) + after
         == ShowExpr(a, 1) + ([Fixed(Comma)]
              + (ShowExpr(b, 1) + (ShowStep(st) + ([Fixed(Do)] + (ShowBlockEnd(body) + after)))))
  {
    hide ShowExpr, ShowStep, ShowBlockEnd;
    var v := [Fixed(Do)] + ShowBlockEnd(body);
    var w := ShowStep(st) + v;
    var x := ShowExpr(b, 1) + w;
    Assoc([Fixed(Do)], ShowBlockEnd(body), after);
    Assoc(ShowStep(st), v, after);
    Assoc(ShowExpr(b, 1), w, after);
    Assoc([Fixed(Comma)], x, after);
    Assoc(ShowExpr(a, 1), [Fixed(Comma)] + x, after);
  }

  lemma ForNumericStep(n: string, first: seq<Token>, a: Expr, second: seq<Token>, b: Expr, third: seq<Token>,
                       st: Option<Expr>, loop: seq<Token>, body: seq<Stmt>, after: seq<Token>, c: Ctx)
    requires ParseExpr(first, 1, c) == Ok(a, [Fixed(Comma)] + second) && ParseExpr(second, 1, c) == Ok(b, third)
    requires ParseStep(third, c) == Ok(st, loop) && ParseLoopBody(loop, c) == Ok(body, after)
    ensures ParseFor([Ident(n), Fixed(Equal)] + first, c) == Ok(ForNumeric(n, a, b, st, body), after)
  {
    hide ParseExpr, ParseStep, ParseLoopBody, ParseForGeneric, ExprOk, StmtOk;
    assert ([Fixed(Comma)] + second)[1..] == second;
    var full := [Ident(n), Fixed(Equal)] + first;
    assert full[1..][0] == Fixed(Equal) && full[2..] == first;
  }

  lemma {:induction false} ForGenericParses(ns: seq<string>, vs: seq<Expr>, body: seq<Stmt>, after: seq<Token>, c: Ctx)
    requires ns != [] && vs != [] && ExprsOk(vs, c) && BlockOk(body, c.(inLoop := true))
    ensures ParseStmt(ShowStmt(ForGeneric(ns, vs, body)) + after, c) == Ok(ForGeneric(ns, vs, body), after)
    decreases ForGeneric(ns, vs, body), 8
  {
    hide ParseStmt, ParseFor, ParseExprList, ExprsOk, BlockOk, ShowNames, ShowList, ShowBlockEnd, ParseLoopBody, NameTail, ShowStmt;
    var loop := [Fixed(Do)] + (ShowBlockEnd(body) + after);
    var right := ShowList(vs) + loop;
    var names := ShowNames(ns) + ([Fixed(In)] + right);
    ForGenericShown(ns, vs, body, after);
    ForKeyword(names, c);
    NamesParse(ns, [], [Fixed(In)] + right);
    ListParses(vs, loop, c);
    LoopBodyParses(body, after, c);
    NamesHead(ns, right);
    ForGenericStep(names, ns, right, vs, loop, body, after, c);
  }

  lemma ForGenericShown(ns: seq<string>, vs: seq<Expr>, body: seq<Stmt>, after: seq<Token>)
    ensures ShowStmt(ForGeneric(ns, vs, body)) + after
         == [Fixed(For)] + (ShowNames(ns) + ([Fixed(In)] + (ShowList(vs) + ([Fixed(Do)] + (ShowBlockEnd(body) + after)))))
  {
    hide ShowNames, ShowList, ShowBlockEnd;
    var w := [Fixed(Do)] + ShowBlockEnd(body);
    var x := ShowList(vs) + w;
    var y := [Fixed(In)] + x;
    Assoc([Fixed(Do)], ShowBlockEnd(body), after);
    Assoc(ShowList(vs), w, after);
    Assoc([Fixed(In)], x, after);
    Assoc(ShowNames(ns), y, after);
    Assoc([Fixed(For)], ShowNames(ns) + y, after);
  }

  /** The names of a generic loop are not mistaken for the counter of a numeric one. */
  lemma NamesHead(ns: seq<string>, right: seq<Token>)
    requires ns != []
    ensures var ts := ShowNames(ns) + ([Fixed(In)] + right); Starts(ts, Identifier) && !Starts(ts[1..], Equal)
  {
    var ts := ShowNames(ns) + ([Fixed(In)] + right);
    assert |ns| == 1 ==> ts[1] == Fixed(In);
    assert |ns| > 1 ==> ts[1] == Fixed(Comma);
  }

  lemma ForGenericStep(ts: seq<Token>, ns: seq<string>, right: seq<Token>, vs: seq<Expr>, loop: seq<Token>,
                       body: seq<Stmt>, after: seq<Token>, c: Ctx)
    requires Starts(ts, Identifier) && !Starts(ts[1..], Equal) && NameTail(ts, []) == Ok([] + ns, [Fixed(In)] + right)
    requires ParseExprList(right, c) == Ok(vs, loop) && ParseLoopBody(loop, c) == Ok(body, after)
    ensures ParseFor(ts, c) == Ok(ForGeneric(ns, vs, body), after)
  {
    hide NameTail, ParseExprList, ParseLoopBody, ParseForNumeric, ExprOk, ExprsOk, StmtOk;
    assert ([Fixed(In)] + right)[1..] == right && [] + ns == ns;
  }

  // ---- break and return ----

  lemma BreakParses(after: seq<Token>, c: Ctx)
    requires c.inLoop
    ensures ParseStmt(ShowStmt(BreakStmt) + after, c) == Ok(BreakStmt, after)
  {
    hide StmtOk, ParseLocal, ParseFunctionDecl, ParseArms, ParseWhile, ParseFor, ParseReturn, ParseExprStmt;
    assert ([Fixed(Break)] + after)[1..] == after;
  }

  lemma ReturnKeyword(ts: seq<Token>, c: Ctx)
    ensures ParseStmt([Fixed(Return)] + ts, c) == ParseReturn(ts, c)
  {
    hide StmtOk, ParseLocal, ParseFunctionDecl, ParseArms, ParseWhile, ParseFor, ParseReturn, ParseExprStmt;
    assert ([Fixed(Return)] + ts)[1..] == ts;
  }

  lemma {:induction false} ReturnParses(vs: seq<Expr>, rest: seq<Token>, c: Ctx)
    requires ExprsOk(vs, c) && !Starts(rest, Semicolon)
    ensures ReadsStmt(ReturnStmt(vs), ParseStmt(ShowStmt(ReturnStmt(vs)) + ([Fixed(Semicolon)] + rest), c), rest)
    decreases ReturnStmt(vs), 8
  {
    hide ParseStmt, ParseReturn, ParseExprList, ExprsOk, ShowList;
    hide ShowStmt, Ends, ReadsStmt;
    var after := [Fixed(Semicolon)] + rest;
    ReturnShown(vs, after);
    ReturnKeyword(ShowList(vs) + after, c);
    if vs == [] {
      NothingListed(after);
      ReturnNothing(rest, c);
    } else {
      ReturnHead(vs, after, c);
      EqualEnds(after);
      ListParses(vs, after, c);
      ReturnStep(ShowList(vs) + after, vs, rest, c);
    }
    Unseparated(ReturnStmt(vs), ParseReturn(ShowList(vs) + after, c), rest);
  }

  lemma ReturnShown(vs: seq<Expr>, after: seq<Token>)
    ensures ShowStmt(ReturnStmt(vs)) + after == [Fixed(Return)] + (ShowList(vs) + after)
  {
    hide ShowList;
    Assoc([Fixed(Return)], ShowList(vs), after);
  }

  lemma Unseparated(s: Stmt, r: Parsed<Stmt>, rest: seq<Token>)
    requires r == Ok(s, rest) && !Starts(rest, Semicolon)
    ensures ReadsStmt(s, r, rest)
  {
  }

  lemma ReturnHead(vs: seq<Expr>, after: seq<Token>, c: Ctx)
    requires vs != [] && ExprsOk(vs, c)
    ensures !EndsReturn(ShowList(vs) + after)
  {
    ShowHead(vs[0], 1, c);
  }

  lemma ReturnNothing(rest: seq<Token>, c: Ctx)
    ensures ParseReturn([Fixed(Semicolon)] + rest, c) == Ok(ReturnStmt([]), rest)
  {
    hide StmtOk, ParseExprList;
    assert ([Fixed(Semicolon)] + rest)[1..] == rest;
  }

  lemma ReturnStep(ts: seq<Token>, vs: seq<Expr>, rest: seq<Token>, c: Ctx)
    requires !EndsReturn(ts) && ParseExprList(ts, c) == Ok(vs, [Fixed(Semicolon)] + rest)
    ensures ParseReturn(ts, c) == Ok(ReturnStmt(vs), rest)
  {
    hide StmtOk, ExprsOk, ParseExprList;
    assert ([Fixed(Semicolon)] + rest)[1..] == rest;
  }

  // ---- whole programs ----

  /** Printing a well-scoped program and parsing it gives back exactly that program. */
  lemma {:induction false} ProgramParses(ss: seq<Stmt>)
    requires BlockOk(ss, Ctx(false, false))
    ensures ParseProgram(ShowBlock(ss) + [Fixed(Kind.EOF)]) == Ok(ss, [])
  {
    hide BlockOk, BlockLoop, ShowBlock;
    BlockParses(ss, [], {}, [Fixed(Kind.EOF)], Ctx(false, false));
    assert [] + ss == ss && [Fixed(Kind.EOF)][1..] == [];
  }

  /** Conversely, whatever the parser accepts is a well-scoped program, so printing the tree it
      read gives another source of that same tree. */
  lemma {:induction false} ParsedIsPrintable(ts: seq<Token>)
    requires ParseProgram(ts).Ok?
    ensures ParseProgram(ShowBlock(ParseProgram(ts).value) + [Fixed(Kind.EOF)]).Ok?
    ensures ParseProgram(ShowBlock(ParseProgram(ts).value) + [Fixed(Kind.EOF)]).value == ParseProgram(ts).value
  {
    hide ParseProgram, ShowBlock;
    ProgramParses(ParseProgram(ts).value);
  }
}
