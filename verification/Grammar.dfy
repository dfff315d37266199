/** What the recursive-descent parser computes, as functions on the tokens still to be read.
    A position of the parser is the suffix of the token list that starts there. */
module Grammar {
  import opened Tokens
  import opened Syntax

  /** A parsed phrase with the tokens after it, or a syntax error. */
  datatype Parsed<+T> = Ok(value: T, rest: seq<Token>) | Err

  /** Skip one token of kind k if it is there. */
  function Skip(ts: seq<Token>, k: Kind): (rest: seq<Token>)
    ensures |rest| <= |ts|
  {
    if Starts(ts, k) then ts[1..] else ts
  }

  // ---- expressions -------------------------------------------------------------------------

  function ParseExpr(ts: seq<Token>, m: nat, c: Ctx): (r: Parsed<Expr>)
    ensures r.Ok? ==> |r.rest| < |ts|
    ensures r.Ok? ==> ExprOk(r.value, c)
    decreases |ts|, 5
  {
    match ParsePrefix(ts, c) case Err => Err case Ok(left, rest) =>
    BinaryLoop(rest, m, left, c)
  }

  /** Extend `left` with every operator that binds at least as strongly as m. */
  function BinaryLoop(ts: seq<Token>, m: nat, left: Expr, c: Ctx): (r: Parsed<Expr>)
    ensures r.Ok? ==> |r.rest| <= |ts|
    ensures r.Ok? && ExprOk(left, c) ==> ExprOk(r.value, c)
    decreases |ts|, 0
  {
    if ts == [] || Precedence(ts[0].kind) < m || Precedence(ts[0].kind) == 0 then Ok(left, ts)
    else
      var op := ts[0].kind;
      match ParseExpr(ts[1..], RightLevel(op), c) case Err => Err case Ok(right, rest) =>
      BinaryLoop(rest, m, Binary(op, left, right), c)
  }

  /** The level at which the right operand of op is parsed. */
  function RightLevel(op: Kind): nat {
    if RightAssociative(op) then Precedence(op) else Precedence(op) + 1
  }

  function ParsePrefix(ts: seq<Token>, c: Ctx): (r: Parsed<Expr>)
    ensures r.Ok? ==> |r.rest| < |ts|
    ensures r.Ok? ==> ExprOk(r.value, c)
    decreases |ts|, 4
  {
    if ts == [] then Err
    else if IsUnaryOp(ts[0].kind) then
      match ParseExpr(ts[1..], UNARY_LEVEL, c) case Err => Err case Ok(operand, rest) =>
      Ok(Unary(ts[0].kind, operand), rest)
    else ParsePrimary(ts, c)
  }

  function ParsePrimary(ts: seq<Token>, c: Ctx): (r: Parsed<Expr>)
    ensures r.Ok? ==> |r.rest| < |ts|
    ensures r.Ok? ==> ExprOk(r.value, c)
    decreases |ts|, 3
  {
    match ParseAtom(ts, c) case Err => Err case Ok(atom, rest) =>
    PostfixLoop(rest, atom, c)
  }

  function ParseAtom(ts: seq<Token>, c: Ctx): (r: Parsed<Expr>)
    ensures r.Ok? ==> |r.rest| < |ts|
    ensures r.Ok? ==> ExprOk(r.value, c)
    decreases |ts|, 2
  {
    if ts == [] then Err
    else
      match ts[0].kind
      case Nil => Ok(NilLit, ts[1..])
      case True => Ok(BoolLit(true), ts[1..])
      case False => Ok(BoolLit(false), ts[1..])
      case Number => Ok(NumberLit(ts[0].text), ts[1..])
      case String => Ok(StringLit(ts[0].text), ts[1..])
      case Identifier => Ok(Var(ts[0].text), ts[1..])
      case Ellipsis => if c.vararg then Ok(Vararg, ts[1..]) else Err
      case LeftBrace => ParseTable(ts, c)
      case Function => ParseFunctionBody(ts[1..], c)
      case LeftParen => ParseClosed(ts[1..], RightParen, c)
      case _ => Err
  }

  /** An expression and the bracket that closes it. */
  function ParseClosed(ts: seq<Token>, close: Kind, c: Ctx): (r: Parsed<Expr>)
    ensures r.Ok? ==> |r.rest| < |ts|
    ensures r.Ok? ==> ExprOk(r.value, c)
    decreases |ts|, 6
  {
    match ParseExpr(ts, 1, c) case Err => Err case Ok(e, rest) =>
    if Starts(rest, close) then Ok(e, rest[1..]) else Err
  }

  predicate StartsCall(ts: seq<Token>) {
    Starts(ts, LeftParen) || Starts(ts, LeftBrace) || Starts(ts, Kind.String)
  }

  /** Field accesses, indexings and calls applied to `base`. */
  function PostfixLoop(ts: seq<Token>, base: Expr, c: Ctx): (r: Parsed<Expr>)
    ensures r.Ok? ==> |r.rest| <= |ts|
    ensures r.Ok? && ExprOk(base, c) ==> ExprOk(r.value, c)
    decreases |ts|, 2
  {
    if Starts(ts, Dot) then
      if !Starts(ts[1..], Identifier) then Err else
      assert ExprOk(base, c) ==> ExprOk(Member(base, ts[1].text), c);
      PostfixLoop(ts[2..], Member(base, ts[1].text), c)
    else if Starts(ts, LeftBracket) then
      match ParseClosed(ts[1..], RightBracket, c) case Err => Err case Ok(key, rest) =>
      assert ExprOk(base, c) ==> ExprOk(Index(base, key), c);
      PostfixLoop(rest, Index(base, key), c)
    else if StartsCall(ts) then
      match ParseCallArgs(ts, c) case Err => Err case Ok(args, rest) =>
      assert ExprOk(base, c) ==> ExprOk(Call(base, args), c);
      PostfixLoop(rest, Call(base, args), c)
    else Ok(base, ts)
  }

  function ParseCallArgs(ts: seq<Token>, c: Ctx): (r: Parsed<seq<Expr>>)
    ensures r.Ok? ==> |r.rest| < |ts|
    ensures r.Ok? ==> ExprsOk(r.value, c)
    decreases |ts|, 1
  {
    if Starts(ts, LeftParen) then
      if Starts(ts[1..], RightParen) then Ok([], ts[2..])
      else
        match ParseExprList(ts[1..], c) case Err => Err case Ok(args, rest) =>
        if !Starts(rest, RightParen) then Err else
        var rest' := rest[1..];
        Ok(args, rest')
    else if Starts(ts, LeftBrace) then
      match ParseTable(ts, c) case Err => Err case Ok(table, rest) =>
      Ok([table], rest)
    else if Starts(ts, Kind.String) then Ok([StringLit(ts[0].text)], ts[1..])
    else Err
  }

  function ParseExprList(ts: seq<Token>, c: Ctx): (r: Parsed<seq<Expr>>)
    ensures r.Ok? ==> |r.rest| < |ts| && r.value != []
    ensures r.Ok? ==> ExprsOk(r.value, c)
    decreases |ts|, 6
  {
    match ParseExpr(ts, 1, c) case Err => Err case Ok(e, rest) =>
    ListTail(rest, [e], c)
  }

  function ListTail(ts: seq<Token>, acc: seq<Expr>, c: Ctx): (r: Parsed<seq<Expr>>)
    ensures r.Ok? ==> |r.rest| <= |ts| && |acc| <= |r.value|
    ensures r.Ok? && ExprsOk(acc, c) ==> ExprsOk(r.value, c)
    decreases |ts|, 0
  {
    if Starts(ts, Comma) then
      match ParseExpr(ts[1..], 1, c) case Err => Err case Ok(e, rest) =>
      ListTail(rest, acc + [e], c)
    else Ok(acc, ts)
  }

  function ParseTable(ts: seq<Token>, c: Ctx): (r: Parsed<Expr>)
    ensures r.Ok? ==> |r.rest| < |ts| && r.value.TableLit?
    ensures r.Ok? ==> ExprOk(r.value, c)
    decreases |ts|, 0
  {
    if !Starts(ts, LeftBrace) then Err
    else
      match TableFields(ts[1..], [], c) case Err => Err case Ok(fields, rest) =>
      Ok(TableLit(fields), rest)
  }

  /** Fields up to and including the closing brace. */
  function TableFields(ts: seq<Token>, acc: seq<Field>, c: Ctx): (r: Parsed<seq<Field>>)
    ensures r.Ok? ==> |r.rest| < |ts|
    ensures r.Ok? && FieldsOk(acc, c) ==> FieldsOk(r.value, c)
    decreases |ts|, 7
  {
    if Starts(ts, RightBrace) then Ok(acc, ts[1..])
    else if ts == [] || Starts(ts, Kind.EOF) then Err
    else
      match ParseField(ts, c) case Err => Err case Ok(f, rest) =>
      assert FieldsOk(acc, c) ==> FieldsOk(acc + [f], c);
      if Starts(rest, Comma) || Starts(rest, Semicolon) then TableFields(rest[1..], acc + [f], c)
      else if Starts(rest, RightBrace) then Ok(acc + [f], rest[1..])
      else Err
  }

  function ParseField(ts: seq<Token>, c: Ctx): (r: Parsed<Field>)
    ensures r.Ok? ==> |r.rest| < |ts|
    ensures r.Ok? ==> FieldOk(r.value, c)
    decreases |ts|, 6
  {
    if Starts(ts, LeftBracket) then
      match ParseClosed(ts[1..], RightBracket, c) case Err => Err case Ok(key, rest1) =>
      if !Starts(rest1, Equal) then Err else
      var rest2 := rest1[1..];
      match ParseExpr(rest2, 1, c) case Err => Err case Ok(value, rest3) =>
      assert FieldOk(Keyed(key, value), c);
      Ok(Keyed(key, value), rest3)
    else if Starts(ts, Identifier) && Starts(ts[1..], Equal) then
      match ParseExpr(ts[2..], 1, c) case Err => Err case Ok(value, rest) =>
      assert FieldOk(Named(ts[0].text, value), c);
      Ok(Named(ts[0].text, value), rest)
    else
      match ParseExpr(ts, 1, c) case Err => Err case Ok(value, rest) =>
      assert FieldOk(Item(value), c);
      Ok(Item(value), rest)
  }

  /** Parameter names and whether `...` follows them, up to the closing parenthesis. */
  function ParamTail(ts: seq<Token>, acc: seq<string>): (r: Parsed<(seq<string>, bool)>)
    ensures r.Ok? ==> |r.rest| < |ts|
    decreases |ts|
  {
    if Starts(ts, Ellipsis) then Ok((acc, true), ts[1..])
    else if !Starts(ts, Identifier) then Err
    else if Starts(ts[1..], Comma) then ParamTail(ts[2..], acc + [ts[0].text])
    else Ok((acc + [ts[0].text], false), ts[1..])
  }

  /** `( parameters )` */
  function ParseParams(ts: seq<Token>): (r: Parsed<(seq<string>, bool)>)
    ensures r.Ok? ==> |r.rest| < |ts|
  {
    if !Starts(ts, LeftParen) then Err else
    var rest := ts[1..];
    match (if Starts(rest, RightParen) then Ok(([], false), rest) else ParamTail(rest, [])) case Err => Err case Ok(ps, rest1) =>
    if !Starts(rest1, RightParen) then Err else
    var rest2 := rest1[1..];
    Ok(ps, rest2)
  }

  /** A function from its parameter list to its `end`; a fresh loop and vararg context. */
  function ParseFunctionBody(ts: seq<Token>, c: Ctx): (r: Parsed<Expr>)
    ensures r.Ok? ==> |r.rest| < |ts| && r.value.FunctionLit?
    ensures r.Ok? ==> ExprOk(r.value, c)
    decreases |ts|, 0
  {
    match ParseParams(ts) case Err => Err case Ok(ps, rest) =>
    match BlockEnd(rest, Ctx(false, ps.1)) case Err => Err case Ok(code, rest1) =>
    assert ExprOk(FunctionLit(ps.0, ps.1, code), c);
    Ok(FunctionLit(ps.0, ps.1, code), rest1)
  }

  // ---- statements --------------------------------------------------------------------------

  predicate Stops(ts: seq<Token>, stop: set<Kind>) {
    ts != [] && (ts[0].kind == Kind.EOF || ts[0].kind in stop)
  }

  /** Statements up to the first token in `stop` or the end of the source. */
  function BlockLoop(ts: seq<Token>, acc: seq<Stmt>, stop: set<Kind>, c: Ctx): (r: Parsed<seq<Stmt>>)
    ensures r.Ok? ==> |r.rest| <= |ts| && Stops(r.rest, stop)
    ensures r.Ok? && BlockOk(acc, c) ==> BlockOk(r.value, c)
    decreases |ts|, 9
  {
    if Stops(ts, stop) then Ok(acc, ts)
    else if Starts(ts, Semicolon) then BlockLoop(ts[1..], acc, stop, c)
    else
      match ParseStmt(ts, c) case Err => Err case Ok(s, rest) =>
      BlockLoop(Skip(rest, Semicolon), acc + [s], stop, c)
  }

  /** A block and the `end` that closes it. */
  function BlockEnd(ts: seq<Token>, c: Ctx): (r: Parsed<seq<Stmt>>)
    ensures r.Ok? ==> |r.rest| < |ts|
    ensures r.Ok? ==> BlockOk(r.value, c)
    decreases |ts|, 10
  {
    match BlockLoop(ts, [], {Kind.End}, c) case Err => Err case Ok(code, rest) =>
    if !Starts(rest, Kind.End) then Err else
    var rest1 := rest[1..];
    Ok(code, rest1)
  }

  function ParseStmt(ts: seq<Token>, c: Ctx): (r: Parsed<Stmt>)
    ensures r.Ok? ==> |r.rest| < |ts|
    ensures r.Ok? ==> StmtOk(r.value, c)
    decreases |ts|, 8
  {
    if ts == [] then Err
    else
      match ts[0].kind
      case Local => ParseLocal(ts[1..], c)
      case Function => ParseFunctionDecl(ts[1..], c)
      case If => ParseArms(ts[1..], [], c)
      case While => ParseWhile(ts[1..], c)
      case For => ParseFor(ts[1..], c)
      case Break => if c.inLoop then Ok(BreakStmt, ts[1..]) else Err
      case Return => ParseReturn(ts[1..], c)
      case _ => ParseExprStmt(ts, c)
  }

  /** `name {, name}` */
  function NameTail(ts: seq<Token>, acc: seq<string>): (r: Parsed<seq<string>>)
    ensures r.Ok? ==> |r.rest| < |ts| && |acc| < |r.value|
    decreases |ts|
  {
    if !Starts(ts, Identifier) then Err
    else if Starts(ts[1..], Comma) then NameTail(ts[2..], acc + [ts[0].text])
    else Ok(acc + [ts[0].text], ts[1..])
  }

  function ParseLocal(ts: seq<Token>, c: Ctx): (r: Parsed<Stmt>)
    ensures r.Ok? ==> |r.rest| < |ts|
    ensures r.Ok? ==> StmtOk(r.value, c)
    decreases |ts|, 1
  {
    if Starts(ts, Kind.Function) then ParseLocalFunction(ts[1..], c) else ParseLocalNames(ts, c)
  }

  function ParseLocalFunction(ts: seq<Token>, c: Ctx): (r: Parsed<Stmt>)
    ensures r.Ok? ==> |r.rest| < |ts|
    ensures r.Ok? ==> StmtOk(r.value, c)
    decreases |ts|, 0
  {
    if !Starts(ts, Identifier) then Err else
    match ParseFunctionBody(ts[1..], c) case Err => Err case Ok(f, rest) =>
    assert StmtOk(LocalFunction(ts[0].text, f), c);
    Ok(LocalFunction(ts[0].text, f), rest)
  }

  function ParseLocalNames(ts: seq<Token>, c: Ctx): (r: Parsed<Stmt>)
    ensures r.Ok? ==> |r.rest| < |ts|
    ensures r.Ok? ==> StmtOk(r.value, c)
    decreases |ts|, 0
  {
    match NameTail(ts, []) case Err => Err case Ok(names, rest) =>
    assert StmtOk(LocalAssign(names, []), c);
    if !Starts(rest, Equal) then Ok(LocalAssign(names, []), rest) else
    match ParseExprList(rest[1..], c) case Err => Err case Ok(values, rest') =>
    assert StmtOk(LocalAssign(names, values), c);
    Ok(LocalAssign(names, values), rest')
  }

  /** `{.name}` after the first name of a function declaration. */
  function DottedTail(ts: seq<Token>, target: Expr, c: Ctx): (r: Parsed<Expr>)
    ensures r.Ok? ==> |r.rest| <= |ts|
    ensures r.Ok? && DottedName(target) && ExprOk(target, c) ==> DottedName(r.value) && ExprOk(r.value, c)
    decreases |ts|
  {
    if !Starts(ts, Dot) then Ok(target, ts)
    else if Starts(ts[1..], Identifier) then DottedTail(ts[2..], Member(target, ts[1].text), c)
    else Err
  }

  function ParseFunctionDecl(ts: seq<Token>, c: Ctx): (r: Parsed<Stmt>)
    ensures r.Ok? ==> |r.rest| < |ts|
    ensures r.Ok? ==> StmtOk(r.value, c)
    decreases |ts|, 1
  {
    if !Starts(ts, Identifier) then Err
    else
      match DottedTail(ts[1..], Var(ts[0].text), c) case Err => Err case Ok(target, rest) =>
      match ParseFunctionBody(rest, c) case Err => Err case Ok(f, rest') =>
      assert StmtOk(FunctionDecl(target, f), c);
      Ok(FunctionDecl(target, f), rest')
  }

  const ARM_STOP: set<Kind> := {Kind.End, Kind.Elseif, Kind.Else}

  /** The arms of an if statement from a condition to the closing `end`. */
  function ParseArms(ts: seq<Token>, acc: seq<Arm>, c: Ctx): (r: Parsed<Stmt>)
    ensures r.Ok? ==> |r.rest| < |ts| && r.value.IfStmt?
    ensures r.Ok? && ArmsOk(acc, c) ==> StmtOk(r.value, c)
    decreases |ts|, 7
  {
    match ParseArm(ts, c) case Err => Err case Ok(arm, rest) =>
    assert ArmsOk(acc, c) ==> ArmsOk(acc + [arm], c);
    if Starts(rest, Kind.Elseif) then ParseArms(rest[1..], acc + [arm], c)
    else if Starts(rest, Kind.Else) then
      match BlockEnd(rest[1..], c) case Err => Err case Ok(last, rest1) =>
      assert ArmsOk(acc, c) ==> StmtOk(IfStmt(acc + [arm], true, last), c);
      Ok(IfStmt(acc + [arm], true, last), rest1)
    else if Starts(rest, Kind.End) then
      assert ArmsOk(acc, c) ==> StmtOk(IfStmt(acc + [arm], false, []), c);
      Ok(IfStmt(acc + [arm], false, []), rest[1..])
    else Err
  }

  /** `condition then block` */
  function ParseArm(ts: seq<Token>, c: Ctx): (r: Parsed<Arm>)
    ensures r.Ok? ==> |r.rest| < |ts|
    ensures r.Ok? ==> ArmOk(r.value, c)
    decreases |ts|, 6
  {
    match ParseExpr(ts, 1, c) case Err => Err case Ok(cond, rest) =>
    if !Starts(rest, Then) then Err else
    match BlockLoop(rest[1..], [], ARM_STOP, c) case Err => Err case Ok(body, rest1) =>
    Ok(Arm(cond, body), rest1)
  }

  /** `do block end` of a loop. */
  function ParseLoopBody(ts: seq<Token>, c: Ctx): (r: Parsed<seq<Stmt>>)
    ensures r.Ok? ==> |r.rest| < |ts|
    ensures r.Ok? ==> BlockOk(r.value, c.(inLoop := true))
    decreases |ts|, 0
  {
    if !Starts(ts, Do) then Err else
    var rest := ts[1..];
    BlockEnd(rest, c.(inLoop := true))
  }

  function ParseWhile(ts: seq<Token>, c: Ctx): (r: Parsed<Stmt>)
    ensures r.Ok? ==> |r.rest| < |ts|
    ensures r.Ok? ==> StmtOk(r.value, c)
    decreases |ts|, 6
  {
    match ParseExpr(ts, 1, c) case Err => Err case Ok(cond, rest) =>
    match ParseLoopBody(rest, c) case Err => Err case Ok(body, rest1) =>
    Ok(WhileStmt(cond, body), rest1)
  }

  function ParseFor(ts: seq<Token>, c: Ctx): (r: Parsed<Stmt>)
    ensures r.Ok? ==> |r.rest| < |ts|
    ensures r.Ok? ==> StmtOk(r.value, c)
    decreases |ts|, 1
  {
    if !Starts(ts, Identifier) then Err
    else if Starts(ts[1..], Equal) then ParseForNumeric(ts[2..], ts[0].text, c)
    else ParseForGeneric(ts, c)
  }

  function ParseForNumeric(ts: seq<Token>, name: string, c: Ctx): (r: Parsed<Stmt>)
    ensures r.Ok? ==> |r.rest| < |ts|
    ensures r.Ok? ==> StmtOk(r.value, c)
    decreases |ts|, 6
  {
    match ParseExpr(ts, 1, c) case Err => Err case Ok(first, rest) =>
    if !Starts(rest, Comma) then Err else
    match ParseExpr(rest[1..], 1, c) case Err => Err case Ok(last, rest1) =>
    match ParseStep(rest1, c) case Err => Err case Ok(step, rest2) =>
    match ParseLoopBody(rest2, c) case Err => Err case Ok(body, rest3) =>
    assert StmtOk(ForNumeric(name, first, last, step, body), c);
    Ok(ForNumeric(name, first, last, step, body), rest3)
  }

  function ParseForGeneric(ts: seq<Token>, c: Ctx): (r: Parsed<Stmt>)
    ensures r.Ok? ==> |r.rest| < |ts|
    ensures r.Ok? ==> StmtOk(r.value, c)
    decreases |ts|, 0
  {
    match NameTail(ts, []) case Err => Err case Ok(names, rest) =>
    if !Starts(rest, In) then Err else
    match ParseExprList(rest[1..], c) case Err => Err case Ok(values, rest1) =>
    match ParseLoopBody(rest1, c) case Err => Err case Ok(body, rest2) =>
    assert StmtOk(ForGeneric(names, values, body), c);
    Ok(ForGeneric(names, values, body), rest2)
  }

  function ParseStep(ts: seq<Token>, c: Ctx): (r: Parsed<Option<Expr>>)
    ensures r.Ok? ==> |r.rest| <= |ts|
    ensures r.Ok? && r.value.Some? ==> ExprOk(r.value.value, c)
    decreases |ts|, 0
  {
    if Starts(ts, Comma) then
      match ParseExpr(ts[1..], 1, c) case Err => Err case Ok(e, rest) =>
      Ok(Some(e), rest)
    else Ok(None, ts)
  }

  /** Tokens after which a return statement has no values. */
  predicate EndsReturn(ts: seq<Token>) {
    ts == [] || ts[0].kind in {Kind.EOF, Kind.End, Kind.Else, Kind.Elseif, Kind.Semicolon}
  }

  function ParseReturn(ts: seq<Token>, c: Ctx): (r: Parsed<Stmt>)
    ensures r.Ok? ==> |r.rest| <= |ts|
    ensures r.Ok? ==> StmtOk(r.value, c)
    decreases |ts|, 7
  {
    if EndsReturn(ts) then Ok(ReturnStmt([]), Skip(ts, Semicolon))
    else
      match ParseExprList(ts, c) case Err => Err case Ok(values, rest) =>
      Ok(ReturnStmt(values), Skip(rest, Semicolon))
  }

  /** Further assignment destinations, each of which must be assignable. */
  function TargetTail(ts: seq<Token>, acc: seq<Expr>, c: Ctx): (r: Parsed<seq<Expr>>)
    ensures r.Ok? ==> |r.rest| <= |ts| && |acc| <= |r.value|
    ensures r.Ok? && AllLvalues(acc) && ExprsOk(acc, c) ==> AllLvalues(r.value) && ExprsOk(r.value, c)
    decreases |ts|, 0
  {
    if Starts(ts, Comma) then
      match ParseExpr(ts[1..], 1, c) case Err => Err case Ok(e, rest) =>
      if IsLvalue(e) then TargetTail(rest, acc + [e], c) else Err
    else Ok(acc, ts)
  }

  function ParseExprStmt(ts: seq<Token>, c: Ctx): (r: Parsed<Stmt>)
    ensures r.Ok? ==> |r.rest| < |ts|
    ensures r.Ok? ==> StmtOk(r.value, c)
    decreases |ts|, 6
  {
    match ParseExpr(ts, 1, c) case Err => Err case Ok(first, rest) =>
    if Starts(rest, Equal) || Starts(rest, Comma) then ParseAssign(rest, first, c)
    else if first.Call? then Ok(CallStmt(first), rest)
    else Err
  }

  /** The rest of an assignment whose first destination has been read. */
  function ParseAssign(ts: seq<Token>, first: Expr, c: Ctx): (r: Parsed<Stmt>)
    ensures r.Ok? ==> |r.rest| < |ts|
    ensures r.Ok? && ExprOk(first, c) ==> StmtOk(r.value, c)
    decreases |ts|, 1
  {
    if !IsLvalue(first) then Err else
    match TargetTail(ts, [first], c) case Err => Err case Ok(targets, rest) =>
    if !Starts(rest, Equal) then Err else
    match ParseExprList(rest[1..], c) case Err => Err case Ok(values, rest1) =>
    assert ExprOk(first, c) ==> StmtOk(Assign(targets, values), c);
    Ok(Assign(targets, values), rest1)
  }

  /** A whole source: a block that runs to the end-of-file token. */
  function ParseProgram(ts: seq<Token>): (r: Parsed<seq<Stmt>>)
    ensures r.Ok? ==> |r.rest| < |ts|
    ensures r.Ok? ==> BlockOk(r.value, Ctx(false, false))
  {
    match BlockLoop(ts, [], {}, Ctx(false, false)) case Err => Err case Ok(code, rest) =>
    if !Starts(rest, Kind.EOF) then Err else
    var rest' := rest[1..];
    Ok(code, rest')
  }
}
