/** The arena tree of every phrase: which node each construct allocates and what hangs off it. */
module Trees {
  import opened Tokens
  import opened Syntax
  import opened Arena
  import opened Unfolding

  const FIELD_ARRAY: nat := 0
  const FIELD_NAMED: nat := 1
  const FIELD_INDEXED: nat := 2

  function Plain(kind: AstKind): Tag { Tag(kind, Kind.EOF, 0, "") }

  function Texted(kind: AstKind, text: string): Tag { Tag(kind, Kind.EOF, 0, text) }

  function Flagged(kind: AstKind, flag: bool): Tag { Tag(kind, Kind.EOF, if flag then 1 else 0, "") }

  function NameTree(n: string): Tree { Tree(Texted(VariableNode, n), []) }

  function NameTrees(ns: seq<string>): (r: seq<Tree>)
    ensures |r| == |ns|
  {
    seq(|ns|, i requires 0 <= i < |ns| => NameTree(ns[i]))
  }

  function ExprTree(e: Expr): Tree
    decreases e, 0
  {
    match e
    case NilLit => Tree(Plain(NilNode), [])
    case BoolLit(b) => Tree(Flagged(BooleanNode, b), [])
    case NumberLit(t) => Tree(Texted(NumberNode, t), [])
    case StringLit(t) => Tree(Texted(StringNode, t), [])
    case Var(n) => NameTree(n)
    case Vararg => Tree(Plain(VarargNode), [])
    case TableLit(fs) => Tree(Plain(TableNode), [Listed(List1, FieldTrees(fs))])
    case FunctionLit(ps, v, code) =>
      Tree(Flagged(FunctionNode, v), [Listed(List1, NameTrees(ps)), Chained(A, StmtTrees(code))])
    case Unary(op, o) => Tree(Tag(UnaryNode, op, 0, ""), [Child(A, ExprTree(o))])
    case Binary(op, l, r) => Tree(Tag(BinaryNode, op, 0, ""), [Child(A, ExprTree(l)), Child(B, ExprTree(r))])
    case Member(b, n) => Tree(Texted(FieldNode, n), [Child(A, ExprTree(b))])
    case Index(b, k) => Tree(Plain(IndexNode), [Child(A, ExprTree(b)), Child(B, ExprTree(k))])
    case Call(f, args) => Tree(Plain(CallNode), [Child(A, ExprTree(f)), Listed(List1, ExprTrees(args))])
  }

  function ExprTrees(es: seq<Expr>): (r: seq<Tree>)
    ensures |r| == |es|
    decreases es, 0
  {
    seq(|es|, i requires 0 <= i < |es| => ExprTree(es[i]))
  }

  function FieldTree(f: Field): Tree
    decreases f, 0
  {
    match f
    case Item(v) => Tree(Tag(TableFieldNode, Kind.EOF, FIELD_ARRAY, ""), [Child(B, ExprTree(v))])
    case Named(n, v) => Tree(Tag(TableFieldNode, Kind.EOF, FIELD_NAMED, n), [Child(B, ExprTree(v))])
    case Keyed(k, v) =>
      Tree(Tag(TableFieldNode, Kind.EOF, FIELD_INDEXED, ""), [Child(A, ExprTree(k)), Child(B, ExprTree(v))])
  }

  function FieldTrees(fs: seq<Field>): (r: seq<Tree>)
    ensures |r| == |fs|
    decreases fs, 0
  {
    seq(|fs|, i requires 0 <= i < |fs| => FieldTree(fs[i]))
  }

  function StmtTree(s: Stmt): Tree
    decreases s, 0
  {
    match s
    case CallStmt(e) => Tree(Plain(ExprStatementNode), [Child(A, ExprTree(e))])
    case Assign(ts, vs) => Tree(Plain(AssignNode), [Listed(List1, ExprTrees(ts)), Listed(List2, ExprTrees(vs))])
    case LocalAssign(ns, vs) =>
      Tree(Plain(LocalAssignNode), [Listed(List1, NameTrees(ns)), Listed(List2, ExprTrees(vs))])
    case IfStmt(arms, hasElse, last) =>
      Tree(Plain(IfNode), [Listed(List1, ArmTrees(arms) + ElseTrees(hasElse, last))])
    case WhileStmt(e, body) => Tree(Plain(WhileNode), [Child(A, ExprTree(e)), Chained(B, StmtTrees(body))])
    case ForNumeric(n, a, b, st, body) =>
      Tree(Texted(ForNumericNode, n),
           [Child(A, ExprTree(a)), Child(B, ExprTree(b))] + StepParts(st) + [Chained(D, StmtTrees(body))])
    case ForGeneric(ns, vs, body) =>
      Tree(Plain(ForGenericNode),
           [Listed(List1, NameTrees(ns)), Listed(List2, ExprTrees(vs)), Chained(A, StmtTrees(body))])
    case BreakStmt => Tree(Plain(BreakNode), [])
    case ReturnStmt(vs) => Tree(Plain(ReturnNode), [Listed(List1, ExprTrees(vs))])
    case FunctionDecl(t, f) => Tree(Plain(FunctionDeclNode), [Child(A, ExprTree(t)), Child(B, ExprTree(f))])
    case LocalFunction(n, f) => Tree(Texted(LocalFunctionNode, n), [Child(A, ExprTree(f))])
  }

  function StepParts(st: Option<Expr>): seq<Part>
    decreases st, 0
  {
    if st.None? then [] else [Child(C, ExprTree(st.value))]
  }

  /** The clause of the `else` branch, which has no condition. */
  function ElseTree(last: seq<Stmt>): Tree
    decreases last, 1
  {
    Tree(Plain(IfClauseNode), [Chained(B, StmtTrees(last))])
  }

  function ElseTrees(hasElse: bool, last: seq<Stmt>): seq<Tree>
    decreases last, 2
  {
    if hasElse then [ElseTree(last)] else []
  }

  function ArmTree(arm: Arm): Tree
    decreases arm, 0
  {
    Tree(Plain(IfClauseNode), [Child(A, ExprTree(arm.guard)), Chained(B, StmtTrees(arm.body))])
  }

  function ArmTrees(arms: seq<Arm>): (r: seq<Tree>)
    ensures |r| == |arms|
    decreases arms, 0
  {
    seq(|arms|, i requires 0 <= i < |arms| => ArmTree(arms[i]))
  }

  function StmtTrees(ss: seq<Stmt>): (r: seq<Tree>)
    ensures |r| == |ss|
    decreases ss, 0
  {
    seq(|ss|, i requires 0 <= i < |ss| => StmtTree(ss[i]))
  }

  // ---- no construct uses a link field twice ------------------------------------------------

  lemma {:induction false} ExprSlotted(e: Expr)
    ensures WellSlotted(ExprTree(e))
    decreases e, 0
  {
    match e
    case TableLit(fs) => FieldsSlotted(fs);
    case FunctionLit(ps, _, code) => NamesSlotted(ps); StmtsSlotted(code);
    case Unary(_, o) => ExprSlotted(o);
    case Binary(_, l, r) => ExprSlotted(l); ExprSlotted(r);
    case Member(b, _) => ExprSlotted(b);
    case Index(b, k) => ExprSlotted(b); ExprSlotted(k);
    case Call(f, args) => ExprSlotted(f); ExprsSlotted(args);
    case _ =>
  }

  lemma NamesSlotted(ns: seq<string>)
    ensures KidsSlotted(NameTrees(ns))
  {
  }

  lemma {:induction false} ExprsSlotted(es: seq<Expr>)
    ensures KidsSlotted(ExprTrees(es))
    decreases es, 0
  {
    forall i | 0 <= i < |es| ensures WellSlotted(ExprTrees(es)[i]) {
      ExprSlotted(es[i]);
    }
  }

  lemma {:induction false} FieldsSlotted(fs: seq<Field>)
    ensures KidsSlotted(FieldTrees(fs))
    decreases fs, 0
  {
    forall i | 0 <= i < |fs| ensures WellSlotted(FieldTrees(fs)[i]) {
      FieldSlotted(fs[i]);
    }
  }

  lemma {:induction false} FieldSlotted(f: Field)
    ensures WellSlotted(FieldTree(f))
    decreases f, 0
  {
    ExprSlotted(f.value);
    if f.Keyed? {
      ExprSlotted(f.key);
    }
  }

  lemma {:induction false} StmtsSlotted(ss: seq<Stmt>)
    ensures KidsSlotted(StmtTrees(ss))
    decreases ss, 0
  {
    forall i | 0 <= i < |ss| ensures WellSlotted(StmtTrees(ss)[i]) {
      StmtSlotted(ss[i]);
    }
  }

  lemma {:induction false} ArmsSlotted(arms: seq<Arm>)
    ensures KidsSlotted(ArmTrees(arms))
    decreases arms, 0
  {
    forall i | 0 <= i < |arms| ensures WellSlotted(ArmTrees(arms)[i]) {
      ExprSlotted(arms[i].guard);
      StmtsSlotted(arms[i].body);
    }
  }

  lemma {:induction false} StmtSlotted(s: Stmt)
    ensures WellSlotted(StmtTree(s))
    decreases s, 0
  {
    match s
    case CallStmt(e) => ExprSlotted(e);
    case Assign(ts, vs) => ExprsSlotted(ts); ExprsSlotted(vs);
    case LocalAssign(ns, vs) => NamesSlotted(ns); ExprsSlotted(vs);
    case IfStmt(arms, hasElse, last) =>
      ArmsSlotted(arms);
      StmtsSlotted(last);
      assert WellSlotted(ElseTree(last));
      assert KidsSlotted(ArmTrees(arms) + ElseTrees(hasElse, last));
    case WhileStmt(e, body) => ExprSlotted(e); StmtsSlotted(body);
    case ForNumeric(_, a, b, st, body) =>
      ExprSlotted(a); ExprSlotted(b); StmtsSlotted(body);
      if st.Some? { ExprSlotted(st.value); }
    case ForGeneric(ns, vs, body) => NamesSlotted(ns); ExprsSlotted(vs); StmtsSlotted(body);
    case ReturnStmt(vs) => ExprsSlotted(vs);
    case FunctionDecl(t, f) => ExprSlotted(t); ExprSlotted(f);
    case LocalFunction(_, f) => ExprSlotted(f);
    case BreakStmt =>
  }
}
