/** One step of each grammar function, as the parser takes it. */
module GrammarSteps {
  import opened Tokens
  import opened Syntax
  import opened Grammar

  // ---- expressions -------------------------------------------------------------------------

  lemma ExprStep(ts: seq<Token>, m: nat, c: Ctx)
    ensures ParseExpr(ts, m, c)
         == var q := ParsePrefix(ts, c); if q.Err? then Err else var left, rest := q.value, q.rest; BinaryLoop(rest, m, left, c)
  {
    hide ExprOk, ParsePrefix, BinaryLoop;
  }

  lemma BinaryDone(ts: seq<Token>, m: nat, e: Expr, c: Ctx)
    requires ts == [] || Precedence(ts[0].kind) < m || Precedence(ts[0].kind) == 0
    ensures BinaryLoop(ts, m, e, c) == Ok(e, ts)
  {
    hide ExprOk;
  }

  lemma BinaryStep(ts: seq<Token>, m: nat, e: Expr, c: Ctx)
    requires ts != [] && Precedence(ts[0].kind) >= m && Precedence(ts[0].kind) != 0
    ensures BinaryLoop(ts, m, e, c)
         == var q := ParseExpr(ts[1..], RightLevel(ts[0].kind), c); if q.Err? then Err else var r, rest := q.value, q.rest; BinaryLoop(rest, m, Binary(ts[0].kind, e, r), c)
  {
    hide ExprOk, ParseExpr, Precedence, RightLevel;
  }

  lemma PrefixStep(ts: seq<Token>, c: Ctx)
    ensures ParsePrefix(ts, c)
         == if ts == [] then Err
            else if !IsUnaryOp(ts[0].kind) then ParsePrimary(ts, c)
            else var q := ParseExpr(ts[1..], UNARY_LEVEL, c); if q.Err? then Err else var o, rest := q.value, q.rest; Ok(Unary(ts[0].kind, o), rest)
  {
    hide ExprOk, ParseExpr, ParsePrimary;
  }

  lemma PrimaryStep(ts: seq<Token>, c: Ctx)
    ensures ParsePrimary(ts, c) == var q := ParseAtom(ts, c); if q.Err? then Err else var atom, rest := q.value, q.rest; PostfixLoop(rest, atom, c)
  {
    hide ExprOk, ParseAtom, PostfixLoop;
  }

  lemma PostfixDot(ts: seq<Token>, base: Expr, c: Ctx)
    requires Starts(ts, Dot)
    ensures PostfixLoop(ts, base, c)
         == if Starts(ts[1..], Identifier) then PostfixLoop(ts[1..][1..], Member(base, ts[1..][0].text), c) else Err
  {
    hide ExprOk, ParseClosed, ParseCallArgs;
    assert Starts(ts[1..], Identifier) ==> ts[1..][1..] == ts[2..];
  }

  lemma PostfixBracket(ts: seq<Token>, base: Expr, c: Ctx)
    requires Starts(ts, LeftBracket)
    ensures PostfixLoop(ts, base, c)
         == var q := ParseClosed(ts[1..], RightBracket, c); if q.Err? then Err else var k, rest := q.value, q.rest; PostfixLoop(rest, Index(base, k), c)
  {
    hide ExprOk, ParseClosed, ParseCallArgs;
  }

  lemma PostfixCall(ts: seq<Token>, base: Expr, c: Ctx)
    requires StartsCall(ts)
    ensures PostfixLoop(ts, base, c)
         == var q := ParseCallArgs(ts, c); if q.Err? then Err else var args, rest := q.value, q.rest; PostfixLoop(rest, Call(base, args), c)
  {
    hide ExprOk, ExprsOk, ParseClosed, ParseCallArgs;
  }

  lemma PostfixDone(ts: seq<Token>, base: Expr, c: Ctx)
    requires !Starts(ts, Dot) && !Starts(ts, LeftBracket) && !StartsCall(ts)
    ensures PostfixLoop(ts, base, c) == Ok(base, ts)
  {
    hide ExprOk, ParseClosed, ParseCallArgs;
  }

  /** Kinds that are an expression by themselves. */
  predicate IsLeaf(k: Kind) {
    k == Kind.Nil || k == Kind.True || k == Kind.False || k == Number || k == Kind.String || k == Identifier || k == Ellipsis
  }

  /** The expression a leaf token stands for. */
  function Leaf(t: Token): Expr {
    if t.kind == Kind.Nil then NilLit
    else if t.kind == Kind.True then BoolLit(true)
    else if t.kind == Kind.False then BoolLit(false)
    else if t.kind == Number then NumberLit(t.text)
    else if t.kind == Kind.String then StringLit(t.text)
    else if t.kind == Identifier then Var(t.text)
    else Vararg
  }

  lemma AtomStep(ts: seq<Token>, c: Ctx)
    ensures ParseAtom(ts, c)
         == if ts == [] then Err
            else if ts[0].kind == Ellipsis && !c.vararg then Err
            else if IsLeaf(ts[0].kind) then Ok(Leaf(ts[0]), ts[1..])
            else if ts[0].kind == LeftBrace then ParseTable(ts, c)
            else if ts[0].kind == Kind.Function then ParseFunctionBody(ts[1..], c)
            else if ts[0].kind == LeftParen then ParseClosed(ts[1..], RightParen, c)
            else Err
  {
    hide ExprOk, ParseTable, ParseFunctionBody, ParseClosed;
  }

  lemma ClosedStep(ts: seq<Token>, close: Kind, c: Ctx)
    ensures ParseClosed(ts, close, c)
         == var q := ParseExpr(ts, 1, c); if q.Err? then Err else var e, rest := q.value, q.rest; if Starts(rest, close) then Ok(e, rest[1..]) else Err
  {
    hide ExprOk, ParseExpr;
  }

  lemma ParenArgsStep(ts: seq<Token>, c: Ctx)
    requires Starts(ts, LeftParen)
    ensures ParseCallArgs(ts, c)
         == if Starts(ts[1..], RightParen) then Ok([], ts[1..][1..])
            else var q := ParseExprList(ts[1..], c);
                 if q.Ok? && Starts(q.rest, RightParen) then Ok(q.value, q.rest[1..]) else Err
  {
    hide ExprOk, ExprsOk, ParseExprList, ParseTable;
    assert Starts(ts[1..], RightParen) ==> ts[1..][1..] == ts[2..];
  }

  lemma BareArgsStep(ts: seq<Token>, c: Ctx)
    ensures Starts(ts, LeftBrace) ==>
              ParseCallArgs(ts, c) == var q := ParseTable(ts, c); if q.Err? then Err else Ok([q.value], q.rest)
    ensures Starts(ts, Kind.String) ==> ParseCallArgs(ts, c) == Ok([Leaf(ts[0])], ts[1..])
  {
    hide ExprOk, ExprsOk, ParseExprList, ParseTable;
  }

  lemma NoCallArgs(ts: seq<Token>, c: Ctx)
    requires !StartsCall(ts)
    ensures ParseCallArgs(ts, c) == Err
  {
    hide ExprOk, ExprsOk, ParseExprList, ParseTable;
  }

  lemma ExprListStep(ts: seq<Token>, c: Ctx)
    ensures ParseExprList(ts, c) == var q := ParseExpr(ts, 1, c); if q.Err? then Err else var e, rest := q.value, q.rest; ListTail(rest, [e], c)
  {
    hide ExprOk, ExprsOk, ParseExpr, ListTail;
  }

  lemma ListTailStep(ts: seq<Token>, acc: seq<Expr>, c: Ctx)
    ensures ListTail(ts, acc, c)
         == if !Starts(ts, Comma) then Ok(acc, ts)
            else var q := ParseExpr(ts[1..], 1, c); if q.Err? then Err else var e, rest := q.value, q.rest; ListTail(rest, acc + [e], c)
  {
    hide ExprOk, ExprsOk, ParseExpr;
  }

  // ---- tables and functions ----------------------------------------------------------------

  lemma TableStep(ts: seq<Token>, c: Ctx)
    ensures ParseTable(ts, c)
         == if !Starts(ts, LeftBrace) then Err
            else var q := TableFields(ts[1..], [], c); if q.Err? then Err else var fs, rest := q.value, q.rest; Ok(TableLit(fs), rest)
  {
    hide ExprOk, FieldsOk, TableFields;
  }

  lemma FieldsDone(ts: seq<Token>, acc: seq<Field>, c: Ctx)
    requires Starts(ts, RightBrace)
    ensures TableFields(ts, acc, c) == Ok(acc, ts[1..])
  {
    hide FieldOk, ParseField;
  }

  lemma FieldsStep(ts: seq<Token>, acc: seq<Field>, c: Ctx)
    requires !Starts(ts, RightBrace)
    ensures TableFields(ts, acc, c)
         == if ts == [] || Starts(ts, Kind.EOF) then Err
            else var q := ParseField(ts, c); if q.Err? then Err else var f, rest := q.value, q.rest;
                   if Starts(rest, Comma) || Starts(rest, Semicolon) then TableFields(rest[1..], acc + [f], c)
                   else if Starts(rest, RightBrace) then TableFields(rest, acc + [f], c)
                   else Err
  {
    hide FieldOk, ParseField;
  }

  lemma KeyedFieldStep(ts: seq<Token>, c: Ctx)
    requires Starts(ts, LeftBracket)
    ensures ParseField(ts, c)
         == var q := ParseClosed(ts[1..], RightBracket, c);
            if q.Err? || !Starts(q.rest, Equal) then Err
            else var r := ParseExpr(q.rest[1..], 1, c); if r.Err? then Err else Ok(Keyed(q.value, r.value), r.rest)
  {
    hide ExprOk, FieldOk, ParseExpr, ParseClosed;
  }

  lemma ValueFieldStep(ts: seq<Token>, c: Ctx)
    requires !Starts(ts, LeftBracket)
    ensures ParseField(ts, c)
         == if Starts(ts, Identifier) && Starts(ts[1..], Equal) then
              var q := ParseExpr(ts[1..][1..], 1, c); if q.Err? then Err else Ok(Named(ts[0].text, q.value), q.rest)
            else
              var q := ParseExpr(ts, 1, c); if q.Err? then Err else Ok(Item(q.value), q.rest)
  {
    hide ExprOk, FieldOk, ParseExpr, ParseClosed;
    assert Starts(ts, Identifier) && Starts(ts[1..], Equal) ==> ts[1..][1..] == ts[2..];
  }

  lemma ParamsStep(ts: seq<Token>)
    ensures ParseParams(ts)
         == if !Starts(ts, LeftParen) then Err
            else if Starts(ts[1..], RightParen) then Ok(([], false), ts[1..][1..])
            else var q := ParamTail(ts[1..], []); if q.Err? then Err else var ps, rest := q.value, q.rest; if Starts(rest, RightParen) then Ok(ps, rest[1..]) else Err
  {
    hide ParamTail;
  }

  lemma ParamTailStep(ts: seq<Token>, acc: seq<string>)
    ensures ParamTail(ts, acc)
         == if Starts(ts, Ellipsis) then Ok((acc, true), ts[1..])
            else if !Starts(ts, Identifier) then Err
            else if Starts(ts[1..], Comma) then ParamTail(ts[1..][1..], acc + [ts[0].text])
            else Ok((acc + [ts[0].text], false), ts[1..])
  {
    assert Starts(ts, Identifier) && Starts(ts[1..], Comma) ==> ts[1..][1..] == ts[2..];
  }

  lemma FunctionBodyStep(ts: seq<Token>, c: Ctx)
    ensures ParseFunctionBody(ts, c)
         == var q := ParseParams(ts); if q.Err? then Err else var ps, rest := q.value, q.rest;
              var q := BlockEnd(rest, Ctx(false, ps.1)); if q.Err? then Err else var code, rest' := q.value, q.rest; Ok(FunctionLit(ps.0, ps.1, code), rest')
  {
    hide ExprOk, BlockOk, ParseParams, BlockEnd;
  }

  // ---- statements --------------------------------------------------------------------------

  lemma BlockEndStep(ts: seq<Token>, c: Ctx)
    ensures BlockEnd(ts, c)
         == var q := BlockLoop(ts, [], {Kind.End}, c); if q.Err? then Err else var code, rest := q.value, q.rest; if Starts(rest, Kind.End) then Ok(code, rest[1..]) else Err
  {
    hide BlockOk, BlockLoop;
  }

  lemma BlockStep(ts: seq<Token>, acc: seq<Stmt>, stop: set<Kind>, c: Ctx)
    ensures BlockLoop(ts, acc, stop, c)
         == if Stops(ts, stop) then Ok(acc, ts)
            else if Starts(ts, Semicolon) then BlockLoop(ts[1..], acc, stop, c)
            else var q := ParseStmt(ts, c); if q.Err? then Err else var s, rest := q.value, q.rest; BlockLoop(Skip(rest, Semicolon), acc + [s], stop, c)
  {
    hide BlockOk, StmtOk, ParseStmt, Skip;
  }

  lemma NoStatement(c: Ctx)
    ensures ParseStmt([], c) == Err
  {
  }

  lemma LocalKeyword(ts: seq<Token>, c: Ctx)
    requires Starts(ts, Local)
    ensures ParseStmt(ts, c) == ParseLocal(ts[1..], c)
  {
    hide StmtOk, ParseLocal, ParseFunctionDecl, ParseArms, ParseWhile, ParseFor, ParseReturn, ParseExprStmt;
  }

  lemma FunctionKeyword(ts: seq<Token>, c: Ctx)
    requires Starts(ts, Kind.Function)
    ensures ParseStmt(ts, c) == ParseFunctionDecl(ts[1..], c)
  {
    hide StmtOk, ParseLocal, ParseFunctionDecl, ParseArms, ParseWhile, ParseFor, ParseReturn, ParseExprStmt;
  }

  lemma IfKeyword(ts: seq<Token>, c: Ctx)
    requires Starts(ts, Kind.If)
    ensures ParseStmt(ts, c) == ParseArms(ts[1..], [], c)
  {
    hide StmtOk, ParseLocal, ParseFunctionDecl, ParseArms, ParseWhile, ParseFor, ParseReturn, ParseExprStmt;
  }

  lemma WhileKeyword(ts: seq<Token>, c: Ctx)
    requires Starts(ts, While)
    ensures ParseStmt(ts, c) == ParseWhile(ts[1..], c)
  {
    hide StmtOk, ParseLocal, ParseFunctionDecl, ParseArms, ParseWhile, ParseFor, ParseReturn, ParseExprStmt;
  }

  lemma ForKeyword(ts: seq<Token>, c: Ctx)
    requires Starts(ts, For)
    ensures ParseStmt(ts, c) == ParseFor(ts[1..], c)
  {
    hide StmtOk, ParseLocal, ParseFunctionDecl, ParseArms, ParseWhile, ParseFor, ParseReturn, ParseExprStmt;
  }

  lemma BreakKeyword(ts: seq<Token>, c: Ctx)
    requires Starts(ts, Break)
    ensures ParseStmt(ts, c) == if c.inLoop then Ok(BreakStmt, ts[1..]) else Err
  {
    hide StmtOk, ParseLocal, ParseFunctionDecl, ParseArms, ParseWhile, ParseFor, ParseReturn, ParseExprStmt;
  }

  lemma ReturnKeyword(ts: seq<Token>, c: Ctx)
    requires Starts(ts, Return)
    ensures ParseStmt(ts, c) == ParseReturn(ts[1..], c)
  {
    hide StmtOk, ParseLocal, ParseFunctionDecl, ParseArms, ParseWhile, ParseFor, ParseReturn, ParseExprStmt;
  }

  /** Any other token begins an expression statement. */
  lemma NoKeyword(ts: seq<Token>, c: Ctx)
    requires ts != [] && !Starts(ts, Local) && !Starts(ts, Kind.Function) && !Starts(ts, Kind.If) && !Starts(ts, While)
    requires !Starts(ts, For) && !Starts(ts, Break) && !Starts(ts, Return)
    ensures ParseStmt(ts, c) == ParseExprStmt(ts, c)
  {
    hide StmtOk, ParseLocal, ParseFunctionDecl, ParseArms, ParseWhile, ParseFor, ParseReturn, ParseExprStmt;
  }

  lemma LocalStep(ts: seq<Token>, c: Ctx)
    ensures ParseLocal(ts, c)
         == if Starts(ts, Kind.Function) then ParseLocalFunction(ts[1..], c) else ParseLocalNames(ts, c)
  {
    hide StmtOk, ParseLocalFunction, ParseLocalNames;
  }

  lemma LocalFunctionStep(ts: seq<Token>, c: Ctx)
    ensures ParseLocalFunction(ts, c)
         == if !Starts(ts, Identifier) then Err
            else var q := ParseFunctionBody(ts[1..], c); if q.Err? then Err else var f, rest := q.value, q.rest; Ok(LocalFunction(ts[0].text, f), rest)
  {
    hide ExprOk, StmtOk, ParseFunctionBody;
  }

  lemma NamesStep(ts: seq<Token>, acc: seq<string>)
    ensures NameTail(ts, acc)
         == if !Starts(ts, Identifier) then Err
            else if Starts(ts[1..], Comma) then NameTail(ts[1..][1..], acc + [ts[0].text])
            else Ok(acc + [ts[0].text], ts[1..])
  {
    assert Starts(ts, Identifier) && Starts(ts[1..], Comma) ==> ts[1..][1..] == ts[2..];
  }

  lemma LocalNamesStep(ts: seq<Token>, c: Ctx)
    ensures ParseLocalNames(ts, c)
         == var q := NameTail(ts, []); if q.Err? then Err else var names, rest := q.value, q.rest;
              if !Starts(rest, Equal) then Ok(LocalAssign(names, []), rest)
              else var q := ParseExprList(rest[1..], c); if q.Err? then Err else var values, rest' := q.value, q.rest; Ok(LocalAssign(names, values), rest')
  {
    hide StmtOk, ExprsOk, NameTail, ParseExprList;
  }

  lemma DottedStep(ts: seq<Token>, target: Expr, c: Ctx)
    ensures DottedTail(ts, target, c)
         == if !Starts(ts, Dot) then Ok(target, ts)
            else if Starts(ts[1..], Identifier) then DottedTail(ts[1..][1..], Member(target, ts[1..][0].text), c)
            else Err
  {
    hide ExprOk, DottedName;
    assert Starts(ts, Dot) && Starts(ts[1..], Identifier) ==> ts[1..][1..] == ts[2..];
  }

  lemma FunctionDeclStep(ts: seq<Token>, c: Ctx)
    ensures ParseFunctionDecl(ts, c)
         == if !Starts(ts, Identifier) then Err
            else var q := DottedTail(ts[1..], Var(ts[0].text), c); if q.Err? then Err else var target, rest := q.value, q.rest;
                   var q := ParseFunctionBody(rest, c); if q.Err? then Err else var f, rest' := q.value, q.rest; Ok(FunctionDecl(target, f), rest')
  {
    hide ExprOk, StmtOk, DottedTail, DottedName, ParseFunctionBody;
  }

  lemma ArmStep(ts: seq<Token>, c: Ctx)
    ensures ParseArm(ts, c)
         == var q := ParseExpr(ts, 1, c); if q.Err? then Err else var g, rest := q.value, q.rest;
              if !Starts(rest, Then) then Err
              else var q := BlockLoop(rest[1..], [], ARM_STOP, c); if q.Err? then Err else var body, rest' := q.value, q.rest; Ok(Arm(g, body), rest')
  {
    hide ExprOk, BlockOk, ParseExpr, BlockLoop;
  }

  lemma ArmsStep(ts: seq<Token>, acc: seq<Arm>, c: Ctx)
    ensures ParseArms(ts, acc, c)
         == var q := ParseArm(ts, c); if q.Err? then Err else var arm, rest := q.value, q.rest;
              if Starts(rest, Kind.Elseif) then ParseArms(rest[1..], acc + [arm], c)
              else if Starts(rest, Kind.Else) then
                var q := BlockEnd(rest[1..], c); if q.Err? then Err else var last, rest' := q.value, q.rest; Ok(IfStmt(acc + [arm], true, last), rest')
              else if Starts(rest, Kind.End) then Ok(IfStmt(acc + [arm], false, []), rest[1..])
              else Err
  {
    hide StmtOk, ArmOk, BlockOk, ParseArm, BlockEnd;
  }

  lemma LoopBodyStep(ts: seq<Token>, c: Ctx)
    ensures ParseLoopBody(ts, c) == if Starts(ts, Do) then BlockEnd(ts[1..], c.(inLoop := true)) else Err
  {
    hide BlockOk, BlockEnd;
  }

  lemma WhileStep(ts: seq<Token>, c: Ctx)
    ensures ParseWhile(ts, c)
         == var q := ParseExpr(ts, 1, c); if q.Err? then Err else var e, rest := q.value, q.rest;
              var q := ParseLoopBody(rest, c); if q.Err? then Err else var body, rest' := q.value, q.rest; Ok(WhileStmt(e, body), rest')
  {
    hide ExprOk, StmtOk, ParseExpr, ParseLoopBody;
  }

  lemma ForStep(ts: seq<Token>, c: Ctx)
    ensures ParseFor(ts, c)
         == if !Starts(ts, Identifier) then Err
            else if Starts(ts[1..], Equal) then ParseForNumeric(ts[1..][1..], ts[0].text, c)
            else ParseForGeneric(ts, c)
  {
    hide StmtOk, ParseForNumeric, ParseForGeneric;
    assert Starts(ts, Identifier) && Starts(ts[1..], Equal) ==> ts[1..][1..] == ts[2..];
  }

  lemma ForNumericStep(ts: seq<Token>, n: string, c: Ctx)
    ensures ParseForNumeric(ts, n, c)
         == var q := ParseExpr(ts, 1, c); if q.Err? then Err else var first, rest := q.value, q.rest;
              if !Starts(rest, Comma) then Err
              else var q := ParseExpr(rest[1..], 1, c); if q.Err? then Err else var last, rest1 := q.value, q.rest;
                     var q := ParseStep(rest1, c); if q.Err? then Err else var step, rest2 := q.value, q.rest;
                       var q := ParseLoopBody(rest2, c); if q.Err? then Err else var body, rest3 := q.value, q.rest; Ok(ForNumeric(n, first, last, step, body), rest3)
  {
    hide ExprOk, StmtOk, ParseExpr, ParseStep, ParseLoopBody;
  }

  lemma StepStep(ts: seq<Token>, c: Ctx)
    ensures ParseStep(ts, c)
         == if !Starts(ts, Comma) then Ok(None, ts)
            else var q := ParseExpr(ts[1..], 1, c); if q.Err? then Err else var e, rest := q.value, q.rest; Ok(Some(e), rest)
  {
    hide ExprOk, ParseExpr;
  }

  lemma ForGenericStep(ts: seq<Token>, c: Ctx)
    ensures ParseForGeneric(ts, c)
         == var q := NameTail(ts, []); if q.Err? then Err else var names, rest := q.value, q.rest;
              if !Starts(rest, In) then Err
              else var q := ParseExprList(rest[1..], c); if q.Err? then Err else var values, rest1 := q.value, q.rest;
                     var q := ParseLoopBody(rest1, c); if q.Err? then Err else var body, rest2 := q.value, q.rest; Ok(ForGeneric(names, values, body), rest2)
  {
    hide ExprsOk, StmtOk, NameTail, ParseExprList, ParseLoopBody;
  }

  lemma ReturnStep(ts: seq<Token>, c: Ctx)
    ensures ParseReturn(ts, c)
         == if EndsReturn(ts) then Ok(ReturnStmt([]), Skip(ts, Semicolon))
            else var q := ParseExprList(ts, c); if q.Err? then Err else var values, rest := q.value, q.rest; Ok(ReturnStmt(values), Skip(rest, Semicolon))
  {
    hide ExprsOk, StmtOk, ParseExprList, Skip, EndsReturn;
  }

  lemma TargetStep(ts: seq<Token>, acc: seq<Expr>, c: Ctx)
    ensures TargetTail(ts, acc, c)
         == if !Starts(ts, Comma) then Ok(acc, ts)
            else var q := ParseExpr(ts[1..], 1, c); if q.Err? then Err else var e, rest := q.value, q.rest; if IsLvalue(e) then TargetTail(rest, acc + [e], c) else Err
  {
    hide ExprOk, ExprsOk, ParseExpr;
  }

  lemma ExprStmtStep(ts: seq<Token>, c: Ctx)
    ensures ParseExprStmt(ts, c)
         == var q := ParseExpr(ts, 1, c); if q.Err? then Err else var first, rest := q.value, q.rest;
              if Starts(rest, Equal) || Starts(rest, Comma) then ParseAssign(rest, first, c)
              else if first.Call? then Ok(CallStmt(first), rest)
              else Err
  {
    hide ExprOk, StmtOk, ParseExpr, ParseAssign;
  }

  lemma AssignStep(ts: seq<Token>, first: Expr, c: Ctx)
    ensures ParseAssign(ts, first, c)
         == if !IsLvalue(first) then Err
            else var q := TargetTail(ts, [first], c); if q.Err? then Err else var targets, rest := q.value, q.rest;
                   if !Starts(rest, Equal) then Err
                   else var q := ParseExprList(rest[1..], c); if q.Err? then Err else var values, rest' := q.value, q.rest; Ok(Assign(targets, values), rest')
  {
    hide ExprOk, ExprsOk, StmtOk, TargetTail, ParseExprList;
  }

  lemma ProgramStep(ts: seq<Token>)
    ensures ParseProgram(ts)
         == var q := BlockLoop(ts, [], {}, Ctx(false, false)); if q.Err? then Err else var code, rest := q.value, q.rest; if Starts(rest, Kind.EOF) then Ok(code, rest[1..]) else Err
  {
    hide BlockOk, BlockLoop;
  }
}
