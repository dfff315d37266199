/** Abstract syntax of Books, and which trees the grammar can describe. */
module Syntax {
  import opened Tokens

  datatype Option<+T> = None | Some(value: T)

  datatype Expr =
    | NilLit
    | BoolLit(value: bool)
    | NumberLit(digits: string)
    | StringLit(body: string)
    | Var(name: string)
    | Vararg
    | TableLit(fields: seq<Field>)
    | FunctionLit(params: seq<string>, variadic: bool, code: seq<Stmt>)
    | Unary(uop: Kind, operand: Expr)
    | Binary(bop: Kind, left: Expr, right: Expr)
    | Member(base: Expr, field: string)
    | Index(base: Expr, key: Expr)
    | Call(callee: Expr, args: seq<Expr>)

  datatype Field =
    | Item(value: Expr)
    | Named(name: string, value: Expr)
    | Keyed(key: Expr, value: Expr)

  datatype Stmt =
    | CallStmt(call: Expr)
    | Assign(targets: seq<Expr>, values: seq<Expr>)
    | LocalAssign(names: seq<string>, values: seq<Expr>)
    | IfStmt(arms: seq<Arm>, hasElse: bool, otherwise: seq<Stmt>)
    | WhileStmt(cond: Expr, body: seq<Stmt>)
    | ForNumeric(counter: string, first: Expr, last: Expr, step: Option<Expr>, body: seq<Stmt>)
    | ForGeneric(names: seq<string>, values: seq<Expr>, body: seq<Stmt>)
    | BreakStmt
    | ReturnStmt(values: seq<Expr>)
    | FunctionDecl(target: Expr, func: Expr)
    | LocalFunction(name: string, func: Expr)

  /** One guarded arm of an if statement. */
  datatype Arm = Arm(guard: Expr, body: seq<Stmt>)

  /** What the parser's state says about the enclosing code: loop_depth > 0, vararg_allowed. */
  datatype Ctx = Ctx(inLoop: bool, vararg: bool)

  // ---- operators ---------------------------------------------------------------------------

  predicate IsUnaryOp(k: Kind) { k == Not || k == Minus || k == Length || k == Tilde }

  /** Binding strength of a binary operator; 0 for every other kind. */
  function Precedence(k: Kind): nat {
    match k
    case Or => 1
    case And => 2
    case Less => 3 case LessEqual => 3 case Greater => 3 case GreaterEqual => 3
    case EqualEqual => 3 case NotEqual => 3
    case BitOr => 4
    case Tilde => 5
    case BitAnd => 6
    case ShiftLeft => 7 case ShiftRight => 7
    case Concat => 8
    case Plus => 9 case Minus => 9
    case Star => 10 case Slash => 10 case FloorDiv => 10 case Percent => 10
    case _ => 0
  }

  predicate RightAssociative(k: Kind) { k == Concat }

  /** The operand of a prefix operator is parsed above every binary operator. */
  const UNARY_LEVEL: nat := 11

  predicate IsLvalue(e: Expr) { e.Var? || e.Member? || e.Index? }

  // ---- well-scoped trees -------------------------------------------------------------------

  predicate ExprOk(e: Expr, c: Ctx)
    decreases e, 0
  {
    match e
    case NilLit => true
    case BoolLit(_) => true
    case NumberLit(_) => true
    case StringLit(_) => true
    case Var(_) => true
    case Vararg => c.vararg
    case TableLit(fs) => FieldsOk(fs, c)
    case FunctionLit(_, variadic, code) => BlockOk(code, Ctx(false, variadic))
    case Unary(op, o) => IsUnaryOp(op) && ExprOk(o, c)
    case Binary(op, l, r) => Precedence(op) > 0 && ExprOk(l, c) && ExprOk(r, c)
    case Member(b, _) => ExprOk(b, c)
    case Index(b, k) => ExprOk(b, c) && ExprOk(k, c)
    case Call(f, args) => ExprOk(f, c) && ExprsOk(args, c)
  }

  predicate ExprsOk(es: seq<Expr>, c: Ctx)
    decreases es, 0
  {
    forall i :: 0 <= i < |es| ==> ExprOk(es[i], c)
  }

  predicate FieldsOk(fs: seq<Field>, c: Ctx)
    decreases fs, 0
  {
    forall i :: 0 <= i < |fs| ==> FieldOk(fs[i], c)
  }

  predicate FieldOk(f: Field, c: Ctx)
    decreases f, 0
  {
    ExprOk(f.value, c) && (f.Keyed? ==> ExprOk(f.key, c))
  }

  predicate BlockOk(ss: seq<Stmt>, c: Ctx)
    decreases ss, 0
  {
    forall i :: 0 <= i < |ss| ==> StmtOk(ss[i], c)
  }

  predicate AllLvalues(es: seq<Expr>) { forall i :: 0 <= i < |es| ==> IsLvalue(es[i]) }

  /** A function declaration names a variable or a dotted path from one. */
  predicate DottedName(e: Expr) { e.Var? || (e.Member? && DottedName(e.base)) }

  predicate StmtOk(s: Stmt, c: Ctx)
    decreases s, 0
  {
    match s
    case CallStmt(e) => e.Call? && ExprOk(e, c)
    case Assign(ts, vs) => ts != [] && vs != [] && AllLvalues(ts) && ExprsOk(ts, c) && ExprsOk(vs, c)
    case LocalAssign(ns, vs) => ns != [] && ExprsOk(vs, c)
    case IfStmt(arms, hasElse, last) =>
      arms != [] && ArmsOk(arms, c) && BlockOk(last, c) && (!hasElse ==> last == [])
    case WhileStmt(e, body) => ExprOk(e, c) && BlockOk(body, c.(inLoop := true))
    case ForNumeric(_, a, b, st, body) =>
      ExprOk(a, c) && ExprOk(b, c) && (st.Some? ==> ExprOk(st.value, c)) && BlockOk(body, c.(inLoop := true))
    case ForGeneric(ns, vs, body) =>
      ns != [] && vs != [] && ExprsOk(vs, c) && BlockOk(body, c.(inLoop := true))
    case BreakStmt => c.inLoop
    case ReturnStmt(vs) => ExprsOk(vs, c)
    case FunctionDecl(t, f) => DottedName(t) && f.FunctionLit? && ExprOk(f, c)
    case LocalFunction(_, f) => f.FunctionLit? && ExprOk(f, c)
  }

  predicate ArmsOk(arms: seq<Arm>, c: Ctx)
    decreases arms, 0
  {
    forall i :: 0 <= i < |arms| ==> ArmOk(arms[i], c)
  }

  predicate ArmOk(arm: Arm, c: Ctx)
    decreases arm, 0
  {
    ExprOk(arm.guard, c) && BlockOk(arm.body, c)
  }
}
