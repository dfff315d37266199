/** Which tokens make which statement, form by form. */
module Sentences {
  import opened Tokens
  import opened Syntax
  import opened Grammar
  import opened Printing
  import GrammarSteps

  /** A program of these tokens, a semicolon and the end is the one statement. */
  predicate Means(ts: seq<Token>, s: Stmt) { ParseProgram(ts + [Fixed(Semicolon), Fixed(Kind.EOF)]) == Ok([s], []) }

  lemma Shown(ts: seq<Token>, s: Stmt)
    requires StmtOk(s, Ctx(false, false)) && ShowStmt(s) == ts
    ensures Means(ts, s)
  {
    hide ParseProgram, ShowStmt, StmtOk;
    ProgramParses([s]);
    BlockOf(s);
    assert ts + [Fixed(Semicolon)] + [Fixed(Kind.EOF)] == ts + [Fixed(Semicolon), Fixed(Kind.EOF)];
  }

  lemma BlockOf(s: Stmt)
    ensures ShowBlock([s]) == ShowStmt(s) + [Fixed(Semicolon)]
  {
    hide ShowStmt;
    assert ShowBlock([]) == [];
  }

  /** `a = b` for two names. */
  function Copy(a: string, b: string): Stmt { Assign([Var(a)], [Var(b)]) }

  function Copied(a: string, b: string): seq<Token> { [Ident(a), Fixed(Equal), Ident(b)] }

  lemma NameShown(a: string, m: nat)
    requires m <= 12
    ensures ShowExpr(Var(a), m) == [Ident(a)] && ShowLead(Var(a)) == [Ident(a)]
    ensures ShowList([Var(a)]) == [Ident(a)]
  {
    assert ShowTail([]) == [];
  }

  lemma PairShown(a: string, b: string)
    ensures ShowList([Var(a), Var(b)]) == [Ident(a), Fixed(Comma), Ident(b)]
    ensures ShowTail([Var(b)]) == [Fixed(Comma), Ident(b)]
  {
    hide Fixed;
    NameShown(a, 1);
    NameShown(b, 1);
    assert ShowTail([]) == [];
    assert [Var(b)][1..] == [] && [Var(a), Var(b)][1..] == [Var(b)];
  }

  lemma NamesOk(a: string, b: string, c: Ctx)
    ensures ExprsOk([Var(a)], c) && ExprsOk([Var(a), Var(b)], c) && AllLvalues([Var(a)]) && AllLvalues([Var(a), Var(b)])
    ensures StmtOk(Copy(a, b), c) && BlockOk([Copy(a, b)], c)
  {
    assert ExprOk(Var(a), c) && ExprOk(Var(b), c);
  }

  lemma CopyShown(a: string, b: string)
    ensures ShowStmt(Copy(a, b)) == Copied(a, b)
    ensures ShowBlock([Copy(a, b)]) == Copied(a, b) + [Fixed(Semicolon)]
    ensures ShowBlockEnd([Copy(a, b)]) == Copied(a, b) + [Fixed(Semicolon), Fixed(Kind.End)]
  {
    hide Fixed;
    NameShown(a, 1);
    NameShown(b, 1);
    assert [Var(a)][1..] == [] && ShowTail([]) == [];
    BlockOf(Copy(a, b));
    assert Copied(a, b) + [Fixed(Semicolon)] + [Fixed(Kind.End)] == Copied(a, b) + [Fixed(Semicolon), Fixed(Kind.End)];
  }

  lemma NothingShown()
    ensures ShowBlock([]) == [] && ShowBlockEnd([]) == [Fixed(Kind.End)] && ShowTail([]) == []
  {
    hide Fixed;
  }

  // ---- assignments -------------------------------------------------------------------------

  /** An assignment of one name, and of two. */
  lemma AssignmentIs(a: string, b: string, c: string, d: string)
    ensures Means([Ident(a), Fixed(Equal), Ident(c)], Assign([Var(a)], [Var(c)]))
    ensures Means([Ident(a), Fixed(Comma), Ident(b), Fixed(Equal), Ident(c), Fixed(Comma), Ident(d)],
                  Assign([Var(a), Var(b)], [Var(c), Var(d)]))
  {
    hide Means, Fixed, ShowLead, ShowList, ShowTail, ExprsOk, AllLvalues;
    var ctx := Ctx(false, false);
    CopyShown(a, c);
    NamesOk(a, c, ctx);
    Shown(Copied(a, c), Copy(a, c));
    NameShown(a, 1);
    PairShown(a, b);
    PairShown(c, d);
    NamesOk(a, b, ctx);
    NamesOk(c, d, ctx);
    assert [Var(a), Var(b)][1..] == [Var(b)];
    Shown([Ident(a), Fixed(Comma), Ident(b), Fixed(Equal), Ident(c), Fixed(Comma), Ident(d)], Assign([Var(a), Var(b)], [Var(c), Var(d)]));
  }

  /** Local names with and without values. */
  lemma LocalIs(a: string, b: string, c: string)
    ensures Means([Fixed(Local), Ident(a), Fixed(Comma), Ident(b), Fixed(Equal), Ident(c)], LocalAssign([a, b], [Var(c)]))
    ensures Means([Fixed(Local), Ident(a)], LocalAssign([a], []))
  {
    hide Means, Fixed, ShowList, ExprsOk;
    NameShown(c, 1);
    NamesOk(c, c, Ctx(false, false));
    assert ExprsOk([], Ctx(false, false)) by { NoneOk(Ctx(false, false)); }
    assert [a, b][1..] == [b];
    assert ShowNames([a, b]) == [Ident(a), Fixed(Comma), Ident(b)];
    Shown([Fixed(Local), Ident(a), Fixed(Comma), Ident(b), Fixed(Equal), Ident(c)], LocalAssign([a, b], [Var(c)]));
    Shown([Fixed(Local), Ident(a)], LocalAssign([a], []));
  }

  lemma NoneOk(c: Ctx)
    ensures ExprsOk([], c) && BlockOk([], c)
  {
  }

  // ---- conditions --------------------------------------------------------------------------

  /** A condition with one arm, and one with two and an `else`. */
  lemma ConditionIs(a: string, b: string, c: string, d: string)
    ensures Means([Fixed(Kind.If), Ident(a), Fixed(Then)] + Copied(b, c) + [Fixed(Semicolon), Fixed(Kind.End)],
                  IfStmt([Arm(Var(a), [Copy(b, c)])], false, []))
    ensures Means([Fixed(Kind.If), Ident(a), Fixed(Then), Fixed(Kind.Elseif), Ident(d), Fixed(Then)] + Copied(b, c)
                    + [Fixed(Semicolon), Fixed(Kind.Else)] + Copied(c, b) + [Fixed(Semicolon), Fixed(Kind.End)],
                  IfStmt([Arm(Var(a), []), Arm(Var(d), [Copy(b, c)])], true, [Copy(c, b)]))
  {
    OneArm(a, b, c);
    TwoArms(a, b, c, d);
  }

  lemma ArmShown(g: string, b: string, c: string)
    ensures ShowArm(Arm(Var(g), [Copy(b, c)])) == [Ident(g), Fixed(Then)] + Copied(b, c) + [Fixed(Semicolon)]
    ensures ShowArm(Arm(Var(g), [])) == [Ident(g), Fixed(Then)]
    ensures ArmOk(Arm(Var(g), [Copy(b, c)]), Ctx(false, false)) && ArmOk(Arm(Var(g), []), Ctx(false, false))
  {
    hide Fixed, ShowExpr, ShowBlock;
    NameShown(g, 1);
    CopyShown(b, c);
    NothingShown();
    NamesOk(b, c, Ctx(false, false));
  }

  lemma OneArm(a: string, b: string, c: string)
    ensures Means([Fixed(Kind.If), Ident(a), Fixed(Then)] + Copied(b, c) + [Fixed(Semicolon), Fixed(Kind.End)],
                  IfStmt([Arm(Var(a), [Copy(b, c)])], false, []))
  {
    hide Means, Fixed, ShowArm, ArmOk;
    ArmShown(a, b, c);
    assert ShowArms(Kind.Elseif, []) == [];
    var ts := [Fixed(Kind.If), Ident(a), Fixed(Then)] + Copied(b, c) + [Fixed(Semicolon), Fixed(Kind.End)];
    var s := IfStmt([Arm(Var(a), [Copy(b, c)])], false, []);
    assert ShowArms(Kind.If, s.arms) == [Fixed(Kind.If)] + ShowArm(s.arms[0]);
    assert ShowStmt(s) == ts;
    Shown(ts, s);
  }

  lemma TwoArms(a: string, b: string, c: string, d: string)
    ensures Means([Fixed(Kind.If), Ident(a), Fixed(Then), Fixed(Kind.Elseif), Ident(d), Fixed(Then)] + Copied(b, c)
                    + [Fixed(Semicolon), Fixed(Kind.Else)] + Copied(c, b) + [Fixed(Semicolon), Fixed(Kind.End)],
                  IfStmt([Arm(Var(a), []), Arm(Var(d), [Copy(b, c)])], true, [Copy(c, b)]))
  {
    hide Means, Fixed, ShowArm, ArmOk, ShowBlockEnd, BlockOk;
    ArmShown(a, b, c);
    ArmShown(d, b, c);
    CopyShown(c, b);
    NamesOk(c, b, Ctx(false, false));
    var ts := [Fixed(Kind.If), Ident(a), Fixed(Then), Fixed(Kind.Elseif), Ident(d), Fixed(Then)] + Copied(b, c)
      + [Fixed(Semicolon), Fixed(Kind.Else)] + Copied(c, b) + [Fixed(Semicolon), Fixed(Kind.End)];
    var s := IfStmt([Arm(Var(a), []), Arm(Var(d), [Copy(b, c)])], true, [Copy(c, b)]);
    assert ShowArms(Kind.Elseif, []) == [];
    assert s.arms[1..] == [s.arms[1]];
    assert ShowArms(Kind.Elseif, [s.arms[1]]) == [Fixed(Kind.Elseif)] + ShowArm(s.arms[1]);
    assert ShowArms(Kind.If, s.arms) == [Fixed(Kind.If)] + (ShowArm(s.arms[0]) + ([Fixed(Kind.Elseif)] + ShowArm(s.arms[1])));
    assert ShowStmt(s) == ts;
    Shown(ts, s);
  }

  // ---- loops -------------------------------------------------------------------------------

  lemma WhileIs(a: string, b: string, c: string)
    ensures Means([Fixed(While), Ident(a), Fixed(Do)] + Copied(b, c) + [Fixed(Semicolon), Fixed(Kind.End)],
                  WhileStmt(Var(a), [Copy(b, c)]))
  {
    hide Means, Fixed, ShowExpr, ShowBlockEnd, BlockOk;
    NameShown(a, 1);
    CopyShown(b, c);
    NamesOk(b, c, Ctx(true, false));
    var ts := [Fixed(While), Ident(a), Fixed(Do)] + Copied(b, c) + [Fixed(Semicolon), Fixed(Kind.End)];
    assert ShowStmt(WhileStmt(Var(a), [Copy(b, c)])) == ts;
    Shown(ts, WhileStmt(Var(a), [Copy(b, c)]));
  }

  /** A numeric loop, here with a `break` in it, with and without a step. */
  lemma NumericIs(a: string, b: string, c: string, d: string)
    ensures Means([Fixed(For), Ident(a), Fixed(Equal), Ident(b), Fixed(Comma), Ident(c), Fixed(Do), Fixed(Break), Fixed(Semicolon),
                   Fixed(Kind.End)],
                  ForNumeric(a, Var(b), Var(c), None, [BreakStmt]))
    ensures Means([Fixed(For), Ident(a), Fixed(Equal), Ident(b), Fixed(Comma), Ident(c), Fixed(Comma), Ident(d), Fixed(Do), Fixed(Kind.End)],
                  ForNumeric(a, Var(b), Var(c), Some(Var(d)), []))
  {
    hide Means, Fixed, ShowExpr, ShowBlockEnd, BlockOk;
    NameShown(b, 1);
    NameShown(c, 1);
    NameShown(d, 1);
    NothingShown();
    NoneOk(Ctx(true, false));
    BreakShown();
    Shown([Fixed(For), Ident(a), Fixed(Equal), Ident(b), Fixed(Comma), Ident(c), Fixed(Do), Fixed(Break), Fixed(Semicolon), Fixed(Kind.End)],
          ForNumeric(a, Var(b), Var(c), None, [BreakStmt]));
    Shown([Fixed(For), Ident(a), Fixed(Equal), Ident(b), Fixed(Comma), Ident(c), Fixed(Comma), Ident(d), Fixed(Do), Fixed(Kind.End)],
          ForNumeric(a, Var(b), Var(c), Some(Var(d)), []));
  }

  lemma BreakShown()
    ensures ShowBlockEnd([BreakStmt]) == [Fixed(Break), Fixed(Semicolon), Fixed(Kind.End)] && BlockOk([BreakStmt], Ctx(true, false))
  {
    hide Fixed;
    BlockOf(BreakStmt);
  }

  lemma GenericIs(a: string, b: string, c: string)
    ensures Means([Fixed(For), Ident(a), Fixed(Comma), Ident(b), Fixed(In), Ident(c), Fixed(Do), Fixed(Kind.End)],
                  ForGeneric([a, b], [Var(c)], []))
  {
    hide Means, Fixed, ShowList, ShowBlockEnd, BlockOk, ExprsOk;
    NameShown(c, 1);
    NothingShown();
    NoneOk(Ctx(true, false));
    NamesOk(c, c, Ctx(false, false));
    assert [a, b][1..] == [b];
    assert ShowNames([a, b]) == [Ident(a), Fixed(Comma), Ident(b)];
    Shown([Fixed(For), Ident(a), Fixed(Comma), Ident(b), Fixed(In), Ident(c), Fixed(Do), Fixed(Kind.End)], ForGeneric([a, b], [Var(c)], []));
  }

  // ---- functions ---------------------------------------------------------------------------

  /** A call, and a return. */
  lemma CallIs(a: string, b: string, c: string)
    ensures Means([Ident(a), Fixed(LeftParen), Ident(b), Fixed(Comma), Ident(c), Fixed(RightParen)], CallStmt(Call(Var(a), [Var(b), Var(c)])))
    ensures Means([Fixed(Return), Ident(b), Fixed(Comma), Ident(c)], ReturnStmt([Var(b), Var(c)]))
  {
    hide Means, Fixed, ShowList, ExprsOk;
    NameShown(a, POSTFIX_LEVEL);
    PairShown(b, c);
    NamesOk(b, c, Ctx(false, false));
    var e := Call(Var(a), [Var(b), Var(c)]);
    assert ExprOk(Var(a), Ctx(false, false)) && ExprOk(e, Ctx(false, false));
    assert !LeadsWithFunction(e) && ShowExpr(e, 1) == ShowBare(e);
    assert ShowBare(e) == [Ident(a), Fixed(LeftParen), Ident(b), Fixed(Comma), Ident(c), Fixed(RightParen)];
    Shown([Ident(a), Fixed(LeftParen), Ident(b), Fixed(Comma), Ident(c), Fixed(RightParen)], CallStmt(Call(Var(a), [Var(b), Var(c)])));
    Shown([Fixed(Return), Ident(b), Fixed(Comma), Ident(c)], ReturnStmt([Var(b), Var(c)]));
  }

  /** A string or a table behind a callee is its one argument. */
  lemma BareArgument(callee: Expr, n: string, fs: seq<Field>, rest: seq<Token>, c: Ctx)
    requires ExprOk(callee, c) && FieldsOk(fs, c) && Over(rest)
    ensures ParseExpr(ShowExpr(callee, POSTFIX_LEVEL) + ([Token(Kind.String, n)] + rest), 1, c) == Ok(Call(callee, [StringLit(n)]), rest)
    ensures ParseExpr(ShowExpr(callee, POSTFIX_LEVEL) + (ShowBare(TableLit(fs)) + rest), 1, c) == Ok(Call(callee, [TableLit(fs)]), rest)
  {
    hide ParseExpr, ShowExpr, ShowBare, FieldsOk, Over, ParseCallArgs;
    var text, table := [Token(Kind.String, n)] + rest, ShowBare(TableLit(fs)) + rest;
    TextArgument(n, rest, c);
    TableArgument(fs, rest, c);
    Called(callee, text, [StringLit(n)], rest, c);
    Called(callee, table, [TableLit(fs)], rest, c);
  }

  lemma Called(callee: Expr, ts: seq<Token>, args: seq<Expr>, rest: seq<Token>, c: Ctx)
    requires ExprOk(callee, c) && StartsCall(ts) && ParseCallArgs(ts, c) == Ok(args, rest) && Over(rest)
    ensures ParseExpr(ShowExpr(callee, POSTFIX_LEVEL) + ts, 1, c) == Ok(Call(callee, args), rest)
  {
    hide ParseExpr, ShowExpr, ParseCallArgs, PostfixLoop, ParsePrefix, BinaryLoop, ParsePrimary, ExprOk, ExprsOk;
    var all := ShowExpr(callee, POSTFIX_LEVEL) + ts;
    OperandParses(callee, ts, c);
    CallStep(ts, callee, args, rest, c);
    GrammarSteps.PostfixDone(rest, Call(callee, args), c);
    GrammarSteps.PrefixStep(all, c);
    GrammarSteps.ExprStep(all, 1, c);
    GrammarSteps.BinaryDone(rest, 1, Call(callee, args), c);
  }

  lemma TextArgument(n: string, rest: seq<Token>, c: Ctx)
    ensures ParseCallArgs([Token(Kind.String, n)] + rest, c) == Ok([StringLit(n)], rest)
  {
    assert ([Token(Kind.String, n)] + rest)[1..] == rest;
  }

  lemma TableArgument(fs: seq<Field>, rest: seq<Token>, c: Ctx)
    requires FieldsOk(fs, c)
    ensures StartsCall(ShowBare(TableLit(fs)) + rest)
    ensures ParseCallArgs(ShowBare(TableLit(fs)) + rest, c) == Ok([TableLit(fs)], rest)
  {
    hide ParseTable, FieldsOk;
    TableParses(fs, rest, c);
  }

  /** A function of a table, with extra arguments. */
  lemma FunctionIs(a: string, b: string, c: string)
    ensures Means([Fixed(Kind.Function), Ident(a), Fixed(Dot), Ident(b), Fixed(LeftParen), Ident(c), Fixed(Comma), Fixed(Ellipsis),
                   Fixed(RightParen), Fixed(Return), Ident(c), Fixed(Semicolon), Fixed(Kind.End)],
                  FunctionDecl(Member(Var(a), b), FunctionLit([c], true, [ReturnStmt([Var(c)])])))
  {
    hide Means, Fixed, ShowExpr, ShowFunctionOf, BlockOk;
    ReturnOf(c);
    PathShown(a, b);
    VariadicShown(c);
    assert DottedName(Var(a)) && DottedName(Member(Var(a), b));
    var f := FunctionLit([c], true, [ReturnStmt([Var(c)])]);
    var ts := [Fixed(Kind.Function), Ident(a), Fixed(Dot), Ident(b), Fixed(LeftParen), Ident(c), Fixed(Comma), Fixed(Ellipsis),
               Fixed(RightParen), Fixed(Return), Ident(c), Fixed(Semicolon), Fixed(Kind.End)];
    assert ShowStmt(FunctionDecl(Member(Var(a), b), f)) == ts;
    Shown(ts, FunctionDecl(Member(Var(a), b), f));
  }

  lemma VariadicShown(c: string)
    ensures ShowFunctionOf(FunctionLit([c], true, [ReturnStmt([Var(c)])]))
         == [Fixed(LeftParen), Ident(c), Fixed(Comma), Fixed(Ellipsis), Fixed(RightParen), Fixed(Return), Ident(c), Fixed(Semicolon),
             Fixed(Kind.End)]
  {
    hide Fixed, ShowBlockEnd;
    ReturnOf(c);
    assert [c][1..] == [];
    assert ShowParams([c], true) == [Ident(c), Fixed(Comma), Fixed(Ellipsis)];
  }

  /** A local function without parameters. */
  lemma LocalFunctionIs(a: string)
    ensures Means([Fixed(Local), Fixed(Kind.Function), Ident(a), Fixed(LeftParen), Fixed(RightParen), Fixed(Kind.End)],
                  LocalFunction(a, FunctionLit([], false, [])))
  {
    hide Means, Fixed, ShowBlockEnd, BlockOk;
    NothingShown();
    NoneOk(Ctx(false, false));
    Shown([Fixed(Local), Fixed(Kind.Function), Ident(a), Fixed(LeftParen), Fixed(RightParen), Fixed(Kind.End)],
          LocalFunction(a, FunctionLit([], false, [])));
  }

  lemma ReturnOf(c: string)
    ensures ShowBlockEnd([ReturnStmt([Var(c)])]) == [Fixed(Return), Ident(c), Fixed(Semicolon), Fixed(Kind.End)]
    ensures BlockOk([ReturnStmt([Var(c)])], Ctx(false, true))
  {
    hide Fixed, ShowList, ExprsOk;
    NameShown(c, 1);
    NamesOk(c, c, Ctx(false, true));
    BlockOf(ReturnStmt([Var(c)]));
  }

  lemma PathShown(a: string, b: string)
    ensures ShowExpr(Member(Var(a), b), POSTFIX_LEVEL) == [Ident(a), Fixed(Dot), Ident(b)]
  {
    hide Fixed;
    NameShown(a, POSTFIX_LEVEL);
  }

  // ---- values ------------------------------------------------------------------------------

  /** `a = e` for an expression. */
  lemma ValueShown(a: string, e: Expr, ts: seq<Token>)
    requires ShowExpr(e, 1) == ts && ExprOk(e, Ctx(false, false))
    ensures Means([Ident(a), Fixed(Equal)] + ts, Assign([Var(a)], [e]))
  {
    hide Means, Fixed, ShowExpr, ExprOk;
    NameShown(a, 1);
    NothingShown();
    assert [Var(a)][1..] == [] && [e][1..] == [];
    assert ShowList([e]) == ts;
    NamesOk(a, a, Ctx(false, false));
    assert ExprsOk([e], Ctx(false, false));
    assert ShowStmt(Assign([Var(a)], [e])) == [Ident(a), Fixed(Equal)] + ts;
    Shown([Ident(a), Fixed(Equal)] + ts, Assign([Var(a)], [e]));
  }

  /** A table with the three kinds of fields. */
  lemma TableIs(a: string, b: string, c: string, d: string)
    ensures Means([Ident(a), Fixed(Equal)]
                    + [Fixed(LeftBrace), Ident(b), Fixed(Comma), Ident(c), Fixed(Equal), Ident(d), Fixed(Comma), Fixed(LeftBracket),
                       Ident(d), Fixed(RightBracket), Fixed(Equal), Ident(b), Fixed(Comma), Fixed(RightBrace)],
                  Assign([Var(a)], [TableLit([Item(Var(b)), Named(c, Var(d)), Keyed(Var(d), Var(b))])]))
  {
    hide Means, Fixed, ShowExpr;
    NameShown(b, 1);
    NameShown(d, 1);
    var fs := [Item(Var(b)), Named(c, Var(d)), Keyed(Var(d), Var(b))];
    assert fs[1..] == [fs[1], fs[2]] && [fs[1], fs[2]][1..] == [fs[2]] && [fs[2]][1..] == [];
    assert ShowFields([]) == [Fixed(RightBrace)];
    assert ShowFields([fs[2]]) == [Fixed(LeftBracket), Ident(d), Fixed(RightBracket), Fixed(Equal), Ident(b), Fixed(Comma), Fixed(RightBrace)];
    assert ShowFields([fs[1], fs[2]]) == [Ident(c), Fixed(Equal), Ident(d), Fixed(Comma)] + ShowFields([fs[2]]);
    assert ShowFields(fs) == [Ident(b), Fixed(Comma)] + ShowFields([fs[1], fs[2]]);
    TableShown(fs);
    TableOk(b, c, d, Ctx(false, false));
    var ts := [Fixed(LeftBrace), Ident(b), Fixed(Comma), Ident(c), Fixed(Equal), Ident(d), Fixed(Comma), Fixed(LeftBracket),
               Ident(d), Fixed(RightBracket), Fixed(Equal), Ident(b), Fixed(Comma), Fixed(RightBrace)];
    assert [Fixed(LeftBrace)] + ShowFields(fs) == ts;
    ValueShown(a, TableLit(fs), ts);
  }

  lemma TableOk(b: string, c: string, d: string, ctx: Ctx)
    ensures ExprOk(TableLit([Item(Var(b)), Named(c, Var(d)), Keyed(Var(d), Var(b))]), ctx)
  {
    assert ExprOk(Var(b), ctx) && ExprOk(Var(d), ctx);
  }

  lemma TableShown(fs: seq<Field>)
    ensures ShowExpr(TableLit(fs), 1) == [Fixed(LeftBrace)] + ShowFields(fs)
  {
  }

  /** Indices and fields, and a function as a value. */
  lemma PartsAre(a: string, b: string, c: string, d: string)
    ensures Means([Ident(a), Fixed(Equal)] + [Ident(b), Fixed(LeftBracket), Ident(c), Fixed(RightBracket)], Assign([Var(a)], [Index(Var(b), Var(c))]))
    ensures Means([Ident(a), Fixed(Equal)] + [Ident(b), Fixed(Dot), Ident(c)], Assign([Var(a)], [Member(Var(b), c)]))
    ensures Means([Ident(a), Fixed(Equal)] + [Fixed(Kind.Function), Fixed(LeftParen), Ident(b), Fixed(RightParen), Fixed(Kind.End)],
                  Assign([Var(a)], [FunctionLit([b], false, [])]))
  {
    hide Means, Fixed, ShowBlockEnd, BlockOk;
    NameShown(b, POSTFIX_LEVEL);
    NameShown(c, 1);
    NothingShown();
    NoneOk(Ctx(false, false));
    ValueShown(a, Index(Var(b), Var(c)), [Ident(b), Fixed(LeftBracket), Ident(c), Fixed(RightBracket)]);
    ValueShown(a, Member(Var(b), c), [Ident(b), Fixed(Dot), Ident(c)]);
    assert [b][1..] == [] && ShowParams([b], false) == [Ident(b)];
    assert ShowFunction([b], false, []) == [Fixed(LeftParen), Ident(b), Fixed(RightParen), Fixed(Kind.End)];
    assert ShowBare(FunctionLit([b], false, [])) == [Fixed(Kind.Function), Fixed(LeftParen), Ident(b), Fixed(RightParen), Fixed(Kind.End)];
    ValueShown(a, FunctionLit([b], false, []), [Fixed(Kind.Function), Fixed(LeftParen), Ident(b), Fixed(RightParen), Fixed(Kind.End)]);
  }

  // ---- separators --------------------------------------------------------------------------

  /** Statements one after the other, those that are marked with a semicolon behind them. */
  function Written(ss: seq<Stmt>, marks: seq<bool>): seq<Token>
    requires |marks| == |ss|
  {
    if ss == [] then []
    else ShowStmt(ss[0]) + ((if marks[0] then [Fixed(Semicolon)] else []) + Written(ss[1..], marks[1..]))
  }

  /** It begins with a name or the keyword of a statement. */
  predicate BeginsPlainly(s: Stmt) {
    var ts := ShowStmt(s);
    ts != [] && ts[0].kind in {Identifier, Local, Kind.Function, Kind.If, Kind.While, Kind.For, Kind.Break, Kind.Return}
  }

  /** A semicolon is there before a statement that begins in another way, and behind a return without
      values that is not the last statement. */
  predicate WellMarked(ss: seq<Stmt>, marks: seq<bool>)
    requires |marks| == |ss|
  {
    forall i :: 0 <= i < |ss| - 1 ==> marks[i] || (BeginsPlainly(ss[i + 1]) && ss[i] != ReturnStmt([]))
  }

  lemma {:induction false} BareReturn(vs: seq<Expr>, after: seq<Token>, c: Ctx)
    requires ExprsOk(vs, c) && Over(after) && !Starts(after, Semicolon) && (vs == [] ==> EndsReturn(after))
    ensures ParseStmt(ShowStmt(ReturnStmt(vs)) + after, c) == Ok(ReturnStmt(vs), after)
  {
    hide ParseStmt, ParseExprList, ExprsOk, ShowList, ShowStmt, Ends, StmtOk, Over;
    ReturnShown(vs, after);
    ReturnKeyword(ShowList(vs) + after, c);
    if vs == [] {
      NothingListed(after);
    } else {
      ReturnHead(vs, after, c);
      OverEnds(after);
      NoComma(after);
      ListParses(vs, after, c);
    }
  }

  lemma NoComma(ts: seq<Token>)
    requires Over(ts)
    ensures !Starts(ts, Comma)
  {
  }

  /** A statement without a semicolon. */
  lemma BareStmt(s: Stmt, after: seq<Token>, c: Ctx)
    requires StmtOk(s, c) && Over(after) && !Starts(after, Semicolon) && (s == ReturnStmt([]) ==> EndsReturn(after))
    ensures ReadsStmt(s, ParseStmt(ShowStmt(s) + after, c), after)
  {
    hide ParseStmt, ExprOk, ExprsOk, ShowStmt, BlockOk, ArmsOk, Over, EndsReturn;
    match s
    case CallStmt(e) => CallStmtParses(e, after, c);
    case Assign(ts, vs) => AssignParses(ts, vs, after, c);
    case LocalAssign(ns, vs) => LocalParses(ns, vs, after, c);
    case IfStmt(_, _, _) => IfParses(s, after, c);
    case WhileStmt(e, body) => WhileParses(e, body, after, c);
    case ForNumeric(n, a, b, st, body) => ForNumericParses(n, a, b, st, body, after, c);
    case ForGeneric(ns, vs, body) => ForGenericParses(ns, vs, body, after, c);
    case BreakStmt => BreakParses(after, c);
    case ReturnStmt(vs) => BareReturn(vs, after, c);
    case FunctionDecl(t, f) => FunctionDeclParses(t, f, after, c);
    case LocalFunction(n, f) => LocalFunctionParses(n, f, after, c);
  }

  /** What comes next in a block is over for the statement before. */
  lemma NextIsOver(ss: seq<Stmt>, marks: seq<bool>, stop: set<Kind>, rest: seq<Token>, c: Ctx)
    requires |marks| == |ss| && BlockOk(ss, c) && stop <= ARM_STOP && Stops(rest, stop)
    ensures !Starts(Written(ss, marks) + rest, Semicolon)
    ensures ss == [] ==> Over(Written(ss, marks) + rest) && EndsReturn(Written(ss, marks) + rest)
    ensures ss != [] && BeginsPlainly(ss[0]) ==> Over(Written(ss, marks) + rest)
  {
    hide ShowStmt, StmtOk;
    if ss == [] {
      assert Written(ss, marks) + rest == rest;
    } else {
      StmtHead(ss[0], c);
      assert (Written(ss, marks) + rest)[0] == ShowStmt(ss[0])[0];
    }
  }

  /** Semicolons can be left out between statements: a block is the same with and without them. */
  lemma {:induction false} SeparatorsAre(ss: seq<Stmt>, marks: seq<bool>, acc: seq<Stmt>, stop: set<Kind>, rest: seq<Token>, c: Ctx)
    requires |marks| == |ss| && BlockOk(ss, c) && WellMarked(ss, marks) && stop <= ARM_STOP && Stops(rest, stop)
    ensures BlockLoop(Written(ss, marks) + rest, acc, stop, c) == Ok(acc + ss, rest)
    decreases ss
  {
    hide ParseStmt, ShowStmt, StmtOk, BlockLoop, ReadsStmt, Over, EndsReturn, BeginsPlainly, Stops;
    if ss == [] {
      BlockDone(acc, stop, rest, c);
      assert acc + ss == acc && Written(ss, marks) + rest == rest;
    } else {
      var s, more := ss[0], ss[1..];
      var tail := Written(more, marks[1..]) + rest;
      var mark := if marks[0] then [Fixed(Semicolon)] else [];
      assert Written(ss, marks) + rest == ShowStmt(s) + (mark + tail);
      StmtHead(s, c);
      NextIsOver(more, marks[1..], stop, rest, c);
      if marks[0] {
        StmtParses(s, tail, c);
      } else {
        assert mark + tail == tail;
        assert more != [] ==> more[0] == ss[1];
        BareStmt(s, tail, c);
      }
      BlockStep(ShowStmt(s) + (mark + tail), s, tail, acc, stop, c);
      MarkedRest(ss, marks);
      SeparatorsAre(more, marks[1..], acc + [s], stop, rest, c);
      assert acc + [s] + more == acc + ss;
    }
  }

  lemma MarkedRest(ss: seq<Stmt>, marks: seq<bool>)
    requires |marks| == |ss| && ss != [] && WellMarked(ss, marks)
    ensures WellMarked(ss[1..], marks[1..])
  {
    hide BeginsPlainly;
    forall i | 0 <= i < |ss[1..]| - 1 ensures marks[1..][i] || (BeginsPlainly(ss[1..][i + 1]) && ss[1..][i] != ReturnStmt([])) {
      assert marks[i + 1] || (BeginsPlainly(ss[i + 2]) && ss[i + 1] != ReturnStmt([]));
    }
  }
}
