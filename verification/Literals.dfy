/** String literals of a program: where the tokens' strings can be decoded, so can all strings of the
    program they are read as. */
module Literals {
  import opened Tokens
  import opened Syntax
  import opened Grammar
  import opened GrammarSteps
  import Strings

  // ---- programs whose strings can be decoded -----------------------------------------------

  predicate ExprDecodes(e: Expr)
    decreases e, 0
  {
    match e
    case NilLit => true
    case BoolLit(_) => true
    case NumberLit(_) => true
    case StringLit(t) => Strings.Decoded(t).Some?
    case Var(_) => true
    case Vararg => true
    case TableLit(fs) => FieldsDecode(fs)
    case FunctionLit(_, _, code) => BlockDecodes(code)
    case Unary(_, o) => ExprDecodes(o)
    case Binary(_, l, r) => ExprDecodes(l) && ExprDecodes(r)
    case Member(b, _) => ExprDecodes(b)
    case Index(b, k) => ExprDecodes(b) && ExprDecodes(k)
    case Call(f, args) => ExprDecodes(f) && ExprsDecode(args)
  }

  predicate ExprsDecode(es: seq<Expr>)
    decreases es, 0
  {
    forall i :: 0 <= i < |es| ==> ExprDecodes(es[i])
  }

  predicate FieldsDecode(fs: seq<Field>)
    decreases fs, 0
  {
    forall i :: 0 <= i < |fs| ==> FieldDecodes(fs[i])
  }

  predicate FieldDecodes(f: Field)
    decreases f, 0
  {
    ExprDecodes(f.value) && (f.Keyed? ==> ExprDecodes(f.key))
  }

  predicate BlockDecodes(ss: seq<Stmt>)
    decreases ss, 0
  {
    forall i :: 0 <= i < |ss| ==> StmtDecodes(ss[i])
  }

  predicate StmtDecodes(s: Stmt)
    decreases s, 0
  {
    match s
    case CallStmt(e) => ExprDecodes(e)
    case Assign(ts, vs) => ExprsDecode(ts) && ExprsDecode(vs)
    case LocalAssign(_, vs) => ExprsDecode(vs)
    case IfStmt(arms, _, last) => ArmsDecode(arms) && BlockDecodes(last)
    case WhileStmt(e, body) => ExprDecodes(e) && BlockDecodes(body)
    case ForNumeric(_, a, b, st, body) =>
      ExprDecodes(a) && ExprDecodes(b) && (st.Some? ==> ExprDecodes(st.value)) && BlockDecodes(body)
    case ForGeneric(_, vs, body) => ExprsDecode(vs) && BlockDecodes(body)
    case BreakStmt => true
    case ReturnStmt(vs) => ExprsDecode(vs)
    case FunctionDecl(t, f) => ExprDecodes(t) && ExprDecodes(f)
    case LocalFunction(_, f) => ExprDecodes(f)
  }

  predicate ArmsDecode(arms: seq<Arm>)
    decreases arms, 0
  {
    forall i :: 0 <= i < |arms| ==> ArmDecodes(arms[i])
  }

  predicate ArmDecodes(arm: Arm)
    decreases arm, 0
  {
    ExprDecodes(arm.guard) && BlockDecodes(arm.body)
  }

  // ---- well-formed programs ----------------------------------------------------------------

  /** Jumps and `...` are in place, and strings can be decoded. */
  predicate ExprFit(e: Expr, c: Ctx) { ExprOk(e, c) && ExprDecodes(e) }

  predicate ExprsFit(es: seq<Expr>, c: Ctx) { ExprsOk(es, c) && ExprsDecode(es) }

  predicate FieldFit(f: Field, c: Ctx) { FieldOk(f, c) && FieldDecodes(f) }

  predicate FieldsFit(fs: seq<Field>, c: Ctx) { FieldsOk(fs, c) && FieldsDecode(fs) }

  predicate StmtFit(s: Stmt, c: Ctx) { StmtOk(s, c) && StmtDecodes(s) }

  predicate BlockFit(ss: seq<Stmt>, c: Ctx) { BlockOk(ss, c) && BlockDecodes(ss) }

  predicate ArmFit(arm: Arm, c: Ctx) { ArmOk(arm, c) && ArmDecodes(arm) }

  predicate ArmsFit(arms: seq<Arm>, c: Ctx) { ArmsOk(arms, c) && ArmsDecode(arms) }

  // ---- tokens ------------------------------------------------------------------------------

  /** Every string token can be decoded. */
  predicate TokensDecode(ts: seq<Token>) {
    forall k :: 0 <= k < |ts| && ts[k].kind == Kind.String ==> Strings.Decoded(ts[k].text).Some?
  }

  lemma FewerTokens(ts: seq<Token>, n: nat)
    requires TokensDecode(ts) && n <= |ts|
    ensures TokensDecode(ts[n..])
  {
    hide Strings.Decoded;
  }

  /** The same for the one or two tokens that the grammar reads at a time. */
  lemma NextTokens(ts: seq<Token>)
    requires TokensDecode(ts)
    ensures ts != [] ==> TokensDecode(ts[1..]) && (ts[1..] != [] ==> TokensDecode(ts[1..][1..]))
  {
    hide TokensDecode;
    if ts != [] {
      FewerTokens(ts, 1);
      if ts[1..] != [] { FewerTokens(ts[1..], 1); }
    }
  }

  lemma SkipDecodes(ts: seq<Token>, k: Kind)
    requires TokensDecode(ts)
    ensures TokensDecode(Skip(ts, k))
  {
    hide TokensDecode;
    NextTokens(ts);
  }

  lemma MoreExprs(es: seq<Expr>, e: Expr)
    requires ExprsDecode(es) && ExprDecodes(e)
    ensures ExprsDecode(es + [e])
  {
    hide ExprDecodes;
  }

  // ---- expressions -------------------------------------------------------------------------

  lemma {:induction false} ExprRead(ts: seq<Token>, m: nat, c: Ctx)
    requires TokensDecode(ts)
    ensures var q := ParseExpr(ts, m, c); q.Ok? ==> ExprDecodes(q.value) && TokensDecode(q.rest)
    decreases |ts|, 5
  {
    hide ParseExpr, ParsePrefix, BinaryLoop, ExprOk, ExprDecodes, TokensDecode;
    ExprStep(ts, m, c);
    PrefixRead(ts, c);
    var q := ParsePrefix(ts, c);
    if q.Ok? { BinaryRead(q.rest, m, q.value, c); }
  }

  lemma {:induction false} BinaryRead(ts: seq<Token>, m: nat, left: Expr, c: Ctx)
    requires TokensDecode(ts) && ExprDecodes(left)
    ensures var q := BinaryLoop(ts, m, left, c); q.Ok? ==> ExprDecodes(q.value) && TokensDecode(q.rest)
    decreases |ts|, 0
  {
    hide ParseExpr, BinaryLoop, ExprOk, TokensDecode, Precedence, RightLevel;
    if ts == [] || Precedence(ts[0].kind) < m || Precedence(ts[0].kind) == 0 {
      BinaryDone(ts, m, left, c);
    } else {
      BinaryStep(ts, m, left, c);
      NextTokens(ts);
      ExprRead(ts[1..], RightLevel(ts[0].kind), c);
      var q := ParseExpr(ts[1..], RightLevel(ts[0].kind), c);
      if q.Ok? { BinaryRead(q.rest, m, Binary(ts[0].kind, left, q.value), c); }
    }
  }

  lemma {:induction false} PrefixRead(ts: seq<Token>, c: Ctx)
    requires TokensDecode(ts)
    ensures var q := ParsePrefix(ts, c); q.Ok? ==> ExprDecodes(q.value) && TokensDecode(q.rest)
    decreases |ts|, 4
  {
    hide ParseExpr, ParsePrefix, ParsePrimary, ExprOk, TokensDecode;
    PrefixStep(ts, c);
    if ts != [] {
      if IsUnaryOp(ts[0].kind) {
        NextTokens(ts);
        ExprRead(ts[1..], UNARY_LEVEL, c);
      } else {
        PrimaryRead(ts, c);
      }
    }
  }

  lemma {:induction false} PrimaryRead(ts: seq<Token>, c: Ctx)
    requires TokensDecode(ts)
    ensures var q := ParsePrimary(ts, c); q.Ok? ==> ExprDecodes(q.value) && TokensDecode(q.rest)
    decreases |ts|, 3
  {
    hide ParsePrimary, ParseAtom, PostfixLoop, ExprOk, ExprDecodes, TokensDecode;
    PrimaryStep(ts, c);
    AtomRead(ts, c);
    var q := ParseAtom(ts, c);
    if q.Ok? { PostfixRead(q.rest, q.value, c); }
  }

  lemma LeafDecodes(ts: seq<Token>)
    requires TokensDecode(ts) && ts != []
    ensures ExprDecodes(Leaf(ts[0]))
  {
    hide Strings.Decoded;
  }

  lemma {:induction false} AtomRead(ts: seq<Token>, c: Ctx)
    requires TokensDecode(ts)
    ensures var q := ParseAtom(ts, c); q.Ok? ==> ExprDecodes(q.value) && TokensDecode(q.rest)
    decreases |ts|, 2
  {
    hide ParseAtom, ParseTable, ParseFunctionBody, ParseClosed, ExprOk, ExprDecodes, TokensDecode, Leaf;
    AtomStep(ts, c);
    if ts != [] {
      NextTokens(ts);
      LeafDecodes(ts);
      if ts[0].kind == LeftBrace {
        TableRead(ts, c);
      } else if ts[0].kind == Kind.Function {
        FunctionRead(ts[1..], c);
      } else if ts[0].kind == LeftParen {
        ClosedRead(ts[1..], RightParen, c);
      }
    }
  }

  lemma {:induction false} ClosedRead(ts: seq<Token>, close: Kind, c: Ctx)
    requires TokensDecode(ts)
    ensures var q := ParseClosed(ts, close, c); q.Ok? ==> ExprDecodes(q.value) && TokensDecode(q.rest)
    decreases |ts|, 6
  {
    hide ParseClosed, ParseExpr, ExprOk, ExprDecodes, TokensDecode;
    ClosedStep(ts, close, c);
    ExprRead(ts, 1, c);
    var q := ParseExpr(ts, 1, c);
    if q.Ok? { NextTokens(q.rest); }
  }

  lemma {:induction false} PostfixRead(ts: seq<Token>, base: Expr, c: Ctx)
    requires TokensDecode(ts) && ExprDecodes(base)
    ensures var q := PostfixLoop(ts, base, c); q.Ok? ==> ExprDecodes(q.value) && TokensDecode(q.rest)
    decreases |ts|, 2
  {
    hide PostfixLoop, ParseClosed, ParseCallArgs, StartsCall, ExprOk, TokensDecode, ExprsDecode;
    NextTokens(ts);
    if Starts(ts, Dot) {
      PostfixDot(ts, base, c);
      if Starts(ts[1..], Identifier) { PostfixRead(ts[1..][1..], Member(base, ts[1..][0].text), c); }
    } else if Starts(ts, LeftBracket) {
      PostfixBracket(ts, base, c);
      ClosedRead(ts[1..], RightBracket, c);
      var q := ParseClosed(ts[1..], RightBracket, c);
      if q.Ok? { PostfixRead(q.rest, Index(base, q.value), c); }
    } else {
      CallRead(ts, base, c);
    }
  }

  lemma {:induction false} CallRead(ts: seq<Token>, base: Expr, c: Ctx)
    requires TokensDecode(ts) && ExprDecodes(base) && !Starts(ts, Dot) && !Starts(ts, LeftBracket)
    ensures var q := PostfixLoop(ts, base, c); q.Ok? ==> ExprDecodes(q.value) && TokensDecode(q.rest)
    decreases |ts|, 1, 1
  {
    hide PostfixLoop, ParseClosed, ParseCallArgs, StartsCall, Starts, ExprOk, TokensDecode, ExprsDecode;
    if StartsCall(ts) {
      PostfixCall(ts, base, c);
      CallArgsRead(ts, c);
      var q := ParseCallArgs(ts, c);
      if q.Ok? { PostfixRead(q.rest, Call(base, q.value), c); }
    } else {
      PostfixDone(ts, base, c);
    }
  }

  lemma {:induction false} CallArgsRead(ts: seq<Token>, c: Ctx)
    requires TokensDecode(ts)
    ensures var q := ParseCallArgs(ts, c); q.Ok? ==> ExprsDecode(q.value) && TokensDecode(q.rest)
    decreases |ts|, 1, 0
  {
    hide ParseCallArgs, ParseExprList, ParseTable, ExprOk, ExprsOk, ExprDecodes, TokensDecode, Leaf;
    NextTokens(ts);
    if Starts(ts, LeftParen) {
      ParenArgsStep(ts, c);
      ExprListRead(ts[1..], c);
      var q := ParseExprList(ts[1..], c);
      if q.Ok? { NextTokens(q.rest); }
    } else {
      BareArgsStep(ts, c);
      if Starts(ts, LeftBrace) {
        TableRead(ts, c);
      } else if Starts(ts, Kind.String) {
        LeafDecodes(ts);
      } else {
        NoCallArgs(ts, c);
      }
    }
  }

  lemma {:induction false} ExprListRead(ts: seq<Token>, c: Ctx)
    requires TokensDecode(ts)
    ensures var q := ParseExprList(ts, c); q.Ok? ==> ExprsDecode(q.value) && TokensDecode(q.rest)
    decreases |ts|, 6
  {
    hide ParseExprList, ParseExpr, ListTail, ExprOk, ExprsOk, ExprDecodes, TokensDecode;
    ExprListStep(ts, c);
    ExprRead(ts, 1, c);
    var q := ParseExpr(ts, 1, c);
    if q.Ok? { ListTailRead(q.rest, [q.value], c); }
  }

  lemma {:induction false} ListTailRead(ts: seq<Token>, acc: seq<Expr>, c: Ctx)
    requires TokensDecode(ts) && ExprsDecode(acc)
    ensures var q := ListTail(ts, acc, c); q.Ok? ==> ExprsDecode(q.value) && TokensDecode(q.rest)
    decreases |ts|, 0
  {
    hide ListTail, ParseExpr, ExprOk, ExprsOk, ExprDecodes, ExprsDecode, TokensDecode;
    ListTailStep(ts, acc, c);
    NextTokens(ts);
    if Starts(ts, Comma) {
      ExprRead(ts[1..], 1, c);
      var q := ParseExpr(ts[1..], 1, c);
      if q.Ok? {
        MoreExprs(acc, q.value);
        ListTailRead(q.rest, acc + [q.value], c);
      }
    }
  }

  lemma {:induction false} TableRead(ts: seq<Token>, c: Ctx)
    requires TokensDecode(ts)
    ensures var q := ParseTable(ts, c); q.Ok? ==> ExprDecodes(q.value) && TokensDecode(q.rest)
    decreases |ts|, 0
  {
    hide ParseTable, TableFields, ExprOk, FieldsOk, FieldsDecode, TokensDecode;
    TableStep(ts, c);
    NextTokens(ts);
    if Starts(ts, LeftBrace) {
      NoFields();
      FieldsRead(ts[1..], [], c);
    }
  }

  lemma NoFields()
    ensures FieldsDecode([])
  {
  }

  lemma {:induction false} FieldsRead(ts: seq<Token>, acc: seq<Field>, c: Ctx)
    requires TokensDecode(ts) && FieldsDecode(acc)
    ensures var q := TableFields(ts, acc, c); q.Ok? ==> FieldsDecode(q.value) && TokensDecode(q.rest)
    decreases |ts|, 7
  {
    hide TableFields, ParseField, FieldOk, FieldsOk, FieldDecodes, TokensDecode;
    NextTokens(ts);
    if Starts(ts, RightBrace) {
      FieldsDone(ts, acc, c);
    } else {
      FieldsStep(ts, acc, c);
      if ts != [] {
        FieldRead(ts, c);
        var q := ParseField(ts, c);
        if q.Ok? {
          NextTokens(q.rest);
          if Starts(q.rest, Comma) || Starts(q.rest, Semicolon) {
            FieldsRead(q.rest[1..], acc + [q.value], c);
          } else if Starts(q.rest, RightBrace) {
            FieldsRead(q.rest, acc + [q.value], c);
          }
        }
      }
    }
  }

  lemma {:induction false} FieldRead(ts: seq<Token>, c: Ctx)
    requires TokensDecode(ts)
    ensures var q := ParseField(ts, c); q.Ok? ==> FieldDecodes(q.value) && TokensDecode(q.rest)
    decreases |ts|, 6
  {
    hide ParseField, ParseClosed, ParseExpr, ExprOk, FieldOk, ExprDecodes, TokensDecode;
    NextTokens(ts);
    if Starts(ts, LeftBracket) {
      KeyedFieldStep(ts, c);
      ClosedRead(ts[1..], RightBracket, c);
      var q := ParseClosed(ts[1..], RightBracket, c);
      if q.Ok? && Starts(q.rest, Equal) {
        NextTokens(q.rest);
        ExprRead(q.rest[1..], 1, c);
      }
    } else {
      ValueFieldStep(ts, c);
      if Starts(ts, Identifier) && Starts(ts[1..], Equal) {
        ExprRead(ts[1..][1..], 1, c);
      } else {
        ExprRead(ts, 1, c);
      }
    }
  }

  lemma {:induction false} ParamTailRead(ts: seq<Token>, acc: seq<string>)
    requires TokensDecode(ts)
    ensures var q := ParamTail(ts, acc); q.Ok? ==> TokensDecode(q.rest)
    decreases |ts|
  {
    hide ParamTail, TokensDecode;
    ParamTailStep(ts, acc);
    NextTokens(ts);
    if Starts(ts, Identifier) && Starts(ts[1..], Comma) { ParamTailRead(ts[1..][1..], acc + [ts[0].text]); }
  }

  lemma ParamsRead(ts: seq<Token>)
    requires TokensDecode(ts)
    ensures var q := ParseParams(ts); q.Ok? ==> TokensDecode(q.rest)
  {
    hide ParseParams, ParamTail, TokensDecode;
    ParamsStep(ts);
    NextTokens(ts);
    if Starts(ts, LeftParen) {
      ParamTailRead(ts[1..], []);
      var q := ParamTail(ts[1..], []);
      if q.Ok? { NextTokens(q.rest); }
    }
  }

  lemma {:induction false} FunctionRead(ts: seq<Token>, c: Ctx)
    requires TokensDecode(ts)
    ensures var q := ParseFunctionBody(ts, c); q.Ok? ==> ExprDecodes(q.value) && TokensDecode(q.rest)
    decreases |ts|, 0
  {
    hide ParseFunctionBody, ParseParams, BlockEnd, ExprOk, BlockOk, BlockDecodes, TokensDecode;
    FunctionBodyStep(ts, c);
    ParamsRead(ts);
    var q := ParseParams(ts);
    if q.Ok? { BlockEndRead(q.rest, Ctx(false, q.value.1)); }
  }

  // ---- statements --------------------------------------------------------------------------

  lemma {:induction false} BlockRead(ts: seq<Token>, acc: seq<Stmt>, stop: set<Kind>, c: Ctx)
    requires TokensDecode(ts) && BlockDecodes(acc)
    ensures var q := BlockLoop(ts, acc, stop, c); q.Ok? ==> BlockDecodes(q.value) && TokensDecode(q.rest)
    decreases |ts|, 9
  {
    hide BlockLoop, ParseStmt, Skip, Stops, StmtOk, BlockOk, StmtDecodes, TokensDecode;
    BlockStep(ts, acc, stop, c);
    NextTokens(ts);
    if !Stops(ts, stop) {
      if Starts(ts, Semicolon) {
        BlockRead(ts[1..], acc, stop, c);
      } else {
        StmtRead(ts, c);
        var q := ParseStmt(ts, c);
        if q.Ok? {
          SkipDecodes(q.rest, Semicolon);
          BlockRead(Skip(q.rest, Semicolon), acc + [q.value], stop, c);
        }
      }
    }
  }

  lemma NoStatements()
    ensures BlockDecodes([])
  {
  }

  lemma {:induction false} BlockEndRead(ts: seq<Token>, c: Ctx)
    requires TokensDecode(ts)
    ensures var q := BlockEnd(ts, c); q.Ok? ==> BlockDecodes(q.value) && TokensDecode(q.rest)
    decreases |ts|, 10
  {
    hide BlockEnd, BlockLoop, BlockOk, BlockDecodes, TokensDecode;
    BlockEndStep(ts, c);
    NoStatements();
    BlockRead(ts, [], {Kind.End}, c);
    var q := BlockLoop(ts, [], {Kind.End}, c);
    if q.Ok? { NextTokens(q.rest); }
  }

  lemma {:induction false} StmtRead(ts: seq<Token>, c: Ctx)
    requires TokensDecode(ts)
    ensures var q := ParseStmt(ts, c); q.Ok? ==> StmtDecodes(q.value) && TokensDecode(q.rest)
    decreases |ts|, 8
  {
    hide ParseStmt, ParseLocal, ParseFunctionDecl, ParseArms, ParseWhile, ParseFor, ParseReturn, ParseExprStmt, StmtOk, TokensDecode,
         ArmsDecode, ExprDecodes, ExprsDecode, BlockDecodes;
    NextTokens(ts);
    if ts == [] {
      NoStatement(c);
    } else if Starts(ts, Local) {
      LocalKeyword(ts, c);
      LocalRead(ts[1..], c);
    } else if Starts(ts, Kind.Function) {
      FunctionKeyword(ts, c);
      FunctionDeclRead(ts[1..], c);
    } else if Starts(ts, Kind.If) {
      IfKeyword(ts, c);
      NoArms();
      ArmsRead(ts[1..], [], c);
    } else if Starts(ts, While) {
      WhileKeyword(ts, c);
      WhileRead(ts[1..], c);
    } else if Starts(ts, For) {
      ForKeyword(ts, c);
      ForRead(ts[1..], c);
    } else if Starts(ts, Break) {
      BreakKeyword(ts, c);
    } else if Starts(ts, Return) {
      ReturnKeyword(ts, c);
      ReturnRead(ts[1..], c);
    } else {
      NoKeyword(ts, c);
      ExprStmtRead(ts, c);
    }
  }

  lemma NoArms()
    ensures ArmsDecode([])
  {
  }

  lemma NoExprs()
    ensures ExprsDecode([])
  {
  }

  lemma {:induction false} NamesRead(ts: seq<Token>, acc: seq<string>)
    requires TokensDecode(ts)
    ensures var q := NameTail(ts, acc); q.Ok? ==> TokensDecode(q.rest)
    decreases |ts|
  {
    hide NameTail, TokensDecode;
    NamesStep(ts, acc);
    NextTokens(ts);
    if Starts(ts, Identifier) && Starts(ts[1..], Comma) { NamesRead(ts[1..][1..], acc + [ts[0].text]); }
  }

  lemma {:induction false} LocalRead(ts: seq<Token>, c: Ctx)
    requires TokensDecode(ts)
    ensures var q := ParseLocal(ts, c); q.Ok? ==> StmtDecodes(q.value) && TokensDecode(q.rest)
    decreases |ts|, 1
  {
    hide ParseLocal, ParseLocalFunction, ParseLocalNames, ParseFunctionBody, NameTail, ParseExprList, StmtOk, ExprOk, ExprsOk,
         ExprDecodes, ExprsDecode, TokensDecode;
    LocalStep(ts, c);
    NextTokens(ts);
    if Starts(ts, Kind.Function) {
      LocalFunctionStep(ts[1..], c);
      NextTokens(ts[1..]);
      if Starts(ts[1..], Identifier) { FunctionRead(ts[1..][1..], c); }
    } else {
      LocalNamesStep(ts, c);
      NamesRead(ts, []);
      NoExprs();
      var q := NameTail(ts, []);
      if q.Ok? && Starts(q.rest, Equal) {
        NextTokens(q.rest);
        ExprListRead(q.rest[1..], c);
      }
    }
  }

  lemma {:induction false} DottedRead(ts: seq<Token>, target: Expr, c: Ctx)
    requires TokensDecode(ts) && ExprDecodes(target)
    ensures var q := DottedTail(ts, target, c); q.Ok? ==> ExprDecodes(q.value) && TokensDecode(q.rest)
    decreases |ts|
  {
    hide DottedTail, ExprOk, DottedName, TokensDecode;
    DottedStep(ts, target, c);
    NextTokens(ts);
    if Starts(ts, Dot) && Starts(ts[1..], Identifier) { DottedRead(ts[1..][1..], Member(target, ts[1..][0].text), c); }
  }

  lemma {:induction false} FunctionDeclRead(ts: seq<Token>, c: Ctx)
    requires TokensDecode(ts)
    ensures var q := ParseFunctionDecl(ts, c); q.Ok? ==> StmtDecodes(q.value) && TokensDecode(q.rest)
    decreases |ts|, 1
  {
    hide ParseFunctionDecl, DottedTail, ParseFunctionBody, StmtOk, ExprOk, DottedName, TokensDecode;
    FunctionDeclStep(ts, c);
    NextTokens(ts);
    if Starts(ts, Identifier) {
      DottedRead(ts[1..], Var(ts[0].text), c);
      var q := DottedTail(ts[1..], Var(ts[0].text), c);
      if q.Ok? { FunctionRead(q.rest, c); }
    }
  }

  lemma {:induction false} ArmRead(ts: seq<Token>, c: Ctx)
    requires TokensDecode(ts)
    ensures var q := ParseArm(ts, c); q.Ok? ==> ArmDecodes(q.value) && TokensDecode(q.rest)
    decreases |ts|, 6
  {
    hide ParseArm, ParseExpr, BlockLoop, ExprOk, BlockOk, ArmOk, ExprDecodes, BlockDecodes, TokensDecode;
    ArmStep(ts, c);
    ExprRead(ts, 1, c);
    var q := ParseExpr(ts, 1, c);
    if q.Ok? && Starts(q.rest, Then) {
      NextTokens(q.rest);
      NoStatements();
      BlockRead(q.rest[1..], [], ARM_STOP, c);
    }
  }

  lemma {:induction false} ArmsRead(ts: seq<Token>, acc: seq<Arm>, c: Ctx)
    requires TokensDecode(ts) && ArmsDecode(acc)
    ensures var q := ParseArms(ts, acc, c); q.Ok? ==> StmtDecodes(q.value) && TokensDecode(q.rest)
    decreases |ts|, 7
  {
    hide ParseArms, ParseArm, BlockEnd, StmtOk, ArmOk, BlockOk, ArmDecodes, BlockDecodes, TokensDecode;
    ArmsStep(ts, acc, c);
    ArmRead(ts, c);
    var q := ParseArm(ts, c);
    if q.Ok? {
      NextTokens(q.rest);
      NoStatements();
      assert ArmsDecode(acc + [q.value]);
      if Starts(q.rest, Kind.Elseif) {
        ArmsRead(q.rest[1..], acc + [q.value], c);
      } else if Starts(q.rest, Kind.Else) {
        BlockEndRead(q.rest[1..], c);
      }
    }
  }

  lemma {:induction false} LoopBodyRead(ts: seq<Token>, c: Ctx)
    requires TokensDecode(ts)
    ensures var q := ParseLoopBody(ts, c); q.Ok? ==> BlockDecodes(q.value) && TokensDecode(q.rest)
    decreases |ts|, 0
  {
    hide ParseLoopBody, BlockEnd, BlockOk, BlockDecodes, TokensDecode;
    LoopBodyStep(ts, c);
    NextTokens(ts);
    if Starts(ts, Do) { BlockEndRead(ts[1..], c.(inLoop := true)); }
  }

  lemma {:induction false} WhileRead(ts: seq<Token>, c: Ctx)
    requires TokensDecode(ts)
    ensures var q := ParseWhile(ts, c); q.Ok? ==> StmtDecodes(q.value) && TokensDecode(q.rest)
    decreases |ts|, 6
  {
    hide ParseWhile, ParseExpr, ParseLoopBody, ExprOk, StmtOk, BlockOk, ExprDecodes, BlockDecodes, TokensDecode;
    WhileStep(ts, c);
    ExprRead(ts, 1, c);
    var q := ParseExpr(ts, 1, c);
    if q.Ok? { LoopBodyRead(q.rest, c); }
  }

  lemma {:induction false} ForRead(ts: seq<Token>, c: Ctx)
    requires TokensDecode(ts)
    ensures var q := ParseFor(ts, c); q.Ok? ==> StmtDecodes(q.value) && TokensDecode(q.rest)
    decreases |ts|, 1
  {
    hide ParseFor, ParseForNumeric, ParseForGeneric, StmtOk, StmtDecodes, TokensDecode;
    ForStep(ts, c);
    NextTokens(ts);
    if Starts(ts, Identifier) {
      if Starts(ts[1..], Equal) {
        ForNumericRead(ts[1..][1..], ts[0].text, c);
      } else {
        ForGenericRead(ts, c);
      }
    }
  }

  lemma {:induction false} ForNumericRead(ts: seq<Token>, name: string, c: Ctx)
    requires TokensDecode(ts)
    ensures var q := ParseForNumeric(ts, name, c); q.Ok? ==> StmtDecodes(q.value) && TokensDecode(q.rest)
    decreases |ts|, 6
  {
    hide ParseForNumeric, ParseExpr, ParseStep, ParseLoopBody, ExprOk, StmtOk, BlockOk, ExprDecodes, BlockDecodes, TokensDecode;
    ForNumericStep(ts, name, c);
    ExprRead(ts, 1, c);
    var a := ParseExpr(ts, 1, c);
    if a.Ok? && Starts(a.rest, Comma) {
      NextTokens(a.rest);
      ExprRead(a.rest[1..], 1, c);
      var b := ParseExpr(a.rest[1..], 1, c);
      if b.Ok? {
        StepRead(b.rest, c);
        var st := ParseStep(b.rest, c);
        if st.Ok? { LoopBodyRead(st.rest, c); }
      }
    }
  }

  lemma {:induction false} StepRead(ts: seq<Token>, c: Ctx)
    requires TokensDecode(ts)
    ensures var q := ParseStep(ts, c); q.Ok? ==> (q.value.Some? ==> ExprDecodes(q.value.value)) && TokensDecode(q.rest)
    decreases |ts|, 0
  {
    hide ParseStep, ParseExpr, ExprOk, ExprDecodes, TokensDecode;
    StepStep(ts, c);
    NextTokens(ts);
    if Starts(ts, Comma) { ExprRead(ts[1..], 1, c); }
  }

  lemma {:induction false} ForGenericRead(ts: seq<Token>, c: Ctx)
    requires TokensDecode(ts)
    ensures var q := ParseForGeneric(ts, c); q.Ok? ==> StmtDecodes(q.value) && TokensDecode(q.rest)
    decreases |ts|, 0
  {
    hide ParseForGeneric, NameTail, ParseExprList, ParseLoopBody, ExprsOk, StmtOk, BlockOk, ExprsDecode, BlockDecodes, TokensDecode;
    ForGenericStep(ts, c);
    NamesRead(ts, []);
    var q := NameTail(ts, []);
    if q.Ok? && Starts(q.rest, In) {
      NextTokens(q.rest);
      ExprListRead(q.rest[1..], c);
      var vs := ParseExprList(q.rest[1..], c);
      if vs.Ok? { LoopBodyRead(vs.rest, c); }
    }
  }

  lemma {:induction false} ReturnRead(ts: seq<Token>, c: Ctx)
    requires TokensDecode(ts)
    ensures var q := ParseReturn(ts, c); q.Ok? ==> StmtDecodes(q.value) && TokensDecode(q.rest)
    decreases |ts|, 7
  {
    hide ParseReturn, ParseExprList, Skip, EndsReturn, ExprsOk, StmtOk, ExprsDecode, TokensDecode;
    ReturnStep(ts, c);
    NoExprs();
    SkipDecodes(ts, Semicolon);
    if !EndsReturn(ts) {
      ExprListRead(ts, c);
      var q := ParseExprList(ts, c);
      if q.Ok? { SkipDecodes(q.rest, Semicolon); }
    }
  }

  lemma {:induction false} TargetsRead(ts: seq<Token>, acc: seq<Expr>, c: Ctx)
    requires TokensDecode(ts) && ExprsDecode(acc)
    ensures var q := TargetTail(ts, acc, c); q.Ok? ==> ExprsDecode(q.value) && TokensDecode(q.rest)
    decreases |ts|, 0
  {
    hide TargetTail, ParseExpr, ExprOk, ExprsOk, AllLvalues, IsLvalue, ExprDecodes, ExprsDecode, TokensDecode;
    TargetStep(ts, acc, c);
    NextTokens(ts);
    if Starts(ts, Comma) {
      ExprRead(ts[1..], 1, c);
      var q := ParseExpr(ts[1..], 1, c);
      if q.Ok? && IsLvalue(q.value) {
        MoreExprs(acc, q.value);
        TargetsRead(q.rest, acc + [q.value], c);
      }
    }
  }

  lemma {:induction false} ExprStmtRead(ts: seq<Token>, c: Ctx)
    requires TokensDecode(ts)
    ensures var q := ParseExprStmt(ts, c); q.Ok? ==> StmtDecodes(q.value) && TokensDecode(q.rest)
    decreases |ts|, 6
  {
    hide ParseExprStmt, ParseExpr, ParseAssign, ExprOk, StmtOk, ExprDecodes, TokensDecode;
    ExprStmtStep(ts, c);
    ExprRead(ts, 1, c);
    var q := ParseExpr(ts, 1, c);
    if q.Ok? && (Starts(q.rest, Equal) || Starts(q.rest, Comma)) { AssignRead(q.rest, q.value, c); }
  }

  lemma {:induction false} AssignRead(ts: seq<Token>, first: Expr, c: Ctx)
    requires TokensDecode(ts) && ExprDecodes(first)
    ensures var q := ParseAssign(ts, first, c); q.Ok? ==> StmtDecodes(q.value) && TokensDecode(q.rest)
    decreases |ts|, 1
  {
    hide ParseAssign, TargetTail, ParseExprList, ExprOk, ExprsOk, StmtOk, AllLvalues, IsLvalue, ExprDecodes, ExprsDecode, TokensDecode;
    AssignStep(ts, first, c);
    if IsLvalue(first) {
      OneExpr(first);
      TargetsRead(ts, [first], c);
      var q := TargetTail(ts, [first], c);
      if q.Ok? && Starts(q.rest, Equal) {
        NextTokens(q.rest);
        ExprListRead(q.rest[1..], c);
      }
    }
  }

  lemma OneExpr(e: Expr)
    requires ExprDecodes(e)
    ensures ExprsDecode([e])
  {
    hide ExprDecodes;
  }

  /** A program read from tokens whose strings can be decoded has only strings that can be decoded. */
  lemma ProgramRead(ts: seq<Token>)
    requires TokensDecode(ts)
    ensures var q := ParseProgram(ts); q.Ok? ==> BlockDecodes(q.value)
  {
    hide ParseProgram, BlockLoop, BlockOk, BlockDecodes, TokensDecode;
    ProgramStep(ts);
    NoStatements();
    BlockRead(ts, [], {}, Ctx(false, false));
  }
}
