/** One step of each semantic function, as the executor takes it. */
module SemanticsSteps {
  import opened Tokens
  import opened Syntax
  import opened Values
  import opened Heap
  import opened Semantics

  /** What an evaluating method reports. */
  ghost predicate Gives(r: Result, ok: bool, vs: seq<Value>, s: State) {
    if ok then r == Vals(vs, s) else r == Stop(s)
  }

  ghost predicate Does(d: Done, ok: bool, s: State) { d == Done(ok, s) }

  /** How control leaves a statement. */
  datatype Control = Going | Returning | Breaking | Failing

  ghost predicate Flows(f: Flow, c: Control, vs: seq<Value>, s: State) {
    f == match c
         case Going => Next(s)
         case Returning => Returned(vs, s)
         case Breaking => Broke(s)
         case Failing => Halted(s)
  }

  // ---- expressions -------------------------------------------------------------------------

  lemma EvalStep(w: World, e: Expr, env: nat, s: State)
    ensures Eval(w, e, env, s) == if Tick(w, s).ok then EvalNode(w, e, env, Tick(w, s).s) else Stop(Tick(w, s).s)
  {
    hide EvalNode, Tick;
  }

  lemma LeafStep(w: World, e: Expr, env: nat, s: State)
    requires s.instructions <= INSTRUCTION_LIMIT
    ensures e.NilLit? ==> EvalNode(w, e, env, s) == Vals([NilV], s)
    ensures e.BoolLit? ==> EvalNode(w, e, env, s) == Vals([BoolV(e.value)], s)
    ensures e.NumberLit? ==> EvalNode(w, e, env, s) == EvalNumeral(w, e.digits, s)
    ensures e.StringLit? ==> EvalNode(w, e, env, s) == EvalString(w, e.body, s)
    ensures e.Var? ==> EvalNode(w, e, env, s) == Vals([Lookup(s, env, e.name)], s)
    ensures e.Vararg? ==> EvalNode(w, e, env, s) == EvalVararg(env, s)
    ensures e.FunctionLit? ==> EvalNode(w, e, env, s) == EvalFunction(w, Closure(e.params, e.variadic, e.code, env), s)
  {
    hide EvalNumeral, EvalString, EvalVararg, EvalFunction, Lookup, EvalTable, EvalUnary, EvalBinary, EvalMember, EvalIndex, EvalCall;
  }

  lemma NodeStep(w: World, e: Expr, env: nat, s: State)
    requires s.instructions <= INSTRUCTION_LIMIT
    ensures e.TableLit? ==> EvalNode(w, e, env, s) == EvalTable(w, e.fields, env, s)
    ensures e.Unary? ==> EvalNode(w, e, env, s) == EvalUnary(w, e.uop, e.operand, env, s)
    ensures e.Binary? ==> EvalNode(w, e, env, s) == EvalBinary(w, e.bop, e.left, e.right, env, s)
    ensures e.Member? ==> EvalNode(w, e, env, s) == EvalMember(w, e.base, e.field, env, s)
    ensures e.Index? ==> EvalNode(w, e, env, s) == EvalIndex(w, e.base, e.key, env, s)
    ensures e.Call? ==> EvalNode(w, e, env, s) == EvalCall(w, e.callee, e.args, env, s)
  {
    hide EvalNumeral, EvalString, EvalVararg, EvalFunction, Lookup, EvalTable, EvalUnary, EvalBinary, EvalMember, EvalIndex, EvalCall;
  }

  lemma TableStep(w: World, fs: seq<Field>, env: nat, s: State)
    requires s.instructions <= INSTRUCTION_LIMIT
    ensures var d := NewTable(w, s);
      EvalTable(w, fs, env, s)
      == if !d.ok then Stop(d.s)
         else var f := EvalFields(w, fs, |d.s.tables| - 1, 1, env, d.s);
              if f.ok then Vals([TabV(|d.s.tables| - 1)], f.s) else Stop(f.s)
  {
    hide EvalFields;
  }

  lemma FieldsDone(w: World, t: nat, next: nat, env: nat, s: State)
    requires s.instructions <= INSTRUCTION_LIMIT
    ensures EvalFields(w, [], t, next, env, s) == Done(true, s)
  {
  }

  lemma FieldsStep(w: World, fs: seq<Field>, t: nat, next: nat, env: nat, s: State)
    requires s.instructions <= INSTRUCTION_LIMIT && fs != []
    ensures var d := EvalField(w, fs[0], |fs| == 1, t, next, env, s);
      EvalFields(w, fs, t, next, env, s)
      == if d.ok then EvalFields(w, fs[1..], t, if fs[0].Item? then next + 1 else next, env, d.s) else d
  {
    hide EvalField;
  }

  lemma NamedStep(w: World, n: string, v: Expr, last: bool, t: nat, next: nat, env: nat, s: State)
    requires s.instructions <= INSTRUCTION_LIMIT
    ensures var a := Allocate(w, s);
      EvalField(w, Named(n, v), last, t, next, env, s)
      == if !a.ok then a
         else var r := Eval(w, v, env, a.s);
              if r.Stop? then Done(false, r.s) else TableSet(w, r.s, t, StrV(n), First(r.vs))
  {
    hide Eval, TableSet, Allocate;
  }

  lemma KeyedStep(w: World, k: Expr, v: Expr, last: bool, t: nat, next: nat, env: nat, s: State)
    requires s.instructions <= INSTRUCTION_LIMIT
    ensures var q := Eval(w, k, env, s);
      EvalField(w, Keyed(k, v), last, t, next, env, s)
      == if q.Stop? then Done(false, q.s)
         else var r := Eval(w, v, env, q.s);
              if r.Stop? then Done(false, r.s) else TableSet(w, r.s, t, First(q.vs), First(r.vs))
  {
    hide Eval, TableSet;
  }

  lemma ItemStep(w: World, v: Expr, last: bool, t: nat, next: nat, env: nat, s: State)
    requires s.instructions <= INSTRUCTION_LIMIT
    ensures var r := Eval(w, v, env, s);
      EvalField(w, Item(v), last, t, next, env, s)
      == if r.Stop? then Done(false, r.s)
         else if last then SetAll(w, r.s, t, next, r.vs)
         else TableSet(w, r.s, t, NumV(next as real), First(r.vs))
  {
    hide Eval, TableSet, SetAll;
  }

  lemma SetAllStep(w: World, s: State, t: nat, next: nat, vs: seq<Value>)
    ensures SetAll(w, s, t, next, vs)
         == if vs == [] then Done(true, s)
            else var d := TableSet(w, s, t, NumV(next as real), vs[0]);
                 if d.ok then SetAll(w, d.s, t, next + 1, vs[1..]) else d
  {
    hide TableSet;
  }

  lemma UnaryStep(w: World, op: Kind, o: Expr, env: nat, s: State)
    requires s.instructions <= INSTRUCTION_LIMIT
    ensures var r := Eval(w, o, env, s);
      EvalUnary(w, op, o, env, s) == if r.Stop? then r else FinishUnary(op, First(r.vs), r.s)
  {
    hide Eval, FinishUnary;
  }

  predicate ShortCircuits(op: Kind, v: Value) { (op == And && !Truthy(v)) || (op == Or && Truthy(v)) }

  lemma BinaryStep(w: World, op: Kind, l: Expr, r: Expr, env: nat, s: State)
    requires s.instructions <= INSTRUCTION_LIMIT
    ensures var a := Eval(w, l, env, s);
      EvalBinary(w, op, l, r, env, s)
      == if a.Stop? then a
         else if ShortCircuits(op, First(a.vs)) then Vals([First(a.vs)], a.s)
         else var b := Eval(w, r, env, a.s);
              if b.Stop? then b
              else if op == And || op == Or then Vals([First(b.vs)], b.s)
              else FinishBinary(w, op, First(a.vs), First(b.vs), b.s)
  {
    hide Eval, FinishBinary;
  }

  lemma MemberStep(w: World, b: Expr, n: string, env: nat, s: State)
    requires s.instructions <= INSTRUCTION_LIMIT
    ensures var r := Eval(w, b, env, s);
      EvalMember(w, b, n, env, s)
      == if r.Stop? then r
         else if !First(r.vs).TabV? then Stop(Fail(r.s, NotATable))
         else Vals([RowValue(RowsAt(r.s, First(r.vs).table), StrV(n))], r.s)
  {
    hide Eval, RowValue, Fail;
  }

  lemma IndexStep(w: World, b: Expr, k: Expr, env: nat, s: State)
    requires s.instructions <= INSTRUCTION_LIMIT
    ensures var q := Eval(w, b, env, s);
      EvalIndex(w, b, k, env, s)
      == if q.Stop? then q
         else var r := Eval(w, k, env, q.s);
              if r.Stop? then r else Semantics.TableGet(First(q.vs), First(r.vs), r.s)
  {
    hide Eval, Semantics.TableGet;
  }

  lemma CallStep(w: World, f: Expr, args: seq<Expr>, env: nat, s: State)
    requires s.instructions <= INSTRUCTION_LIMIT
    ensures var q := Eval(w, f, env, s);
      EvalCall(w, f, args, env, s)
      == if q.Stop? then q
         else var r := EvalList(w, args, [], env, q.s);
              if r.Stop? then r else CallValue(w, First(q.vs), r.vs, r.s)
  {
    hide Eval, EvalList, CallValue;
  }

  lemma ListDone(w: World, acc: seq<Value>, env: nat, s: State)
    requires s.instructions <= INSTRUCTION_LIMIT
    ensures EvalList(w, [], acc, env, s) == Vals(acc, s)
  {
  }

  lemma ListStep(w: World, es: seq<Expr>, acc: seq<Value>, env: nat, s: State)
    requires s.instructions <= INSTRUCTION_LIMIT && es != []
    ensures var r := Eval(w, es[0], env, s);
      EvalList(w, es, acc, env, s)
      == if r.Stop? then r
         else var more := if |es| == 1 then r.vs else [First(r.vs)];
              if |acc| + |more| > MULTI_LIMIT then Stop(Fail(r.s, TooManyValues))
              else EvalList(w, es[1..], acc + more, env, r.s)
  {
    hide Eval, Fail;
  }

  // ---- calls -------------------------------------------------------------------------------

  lemma CallValueStep(w: World, f: Value, args: seq<Value>, s: State)
    requires s.instructions <= INSTRUCTION_LIMIT
    ensures s.callDepth >= DEPTH_LIMIT ==> CallValue(w, f, args, s) == Stop(Fail(s, TooDeep))
    ensures s.callDepth < DEPTH_LIMIT && f.NatV? ==>
      CallValue(w, f, args, s) == Left(RunNative(w, f.native, args, [], Enter(s)))
    ensures s.callDepth < DEPTH_LIMIT && f.FunV? && f.closure < |s.closures| ==>
      CallValue(w, f, args, s) == Left(RunClosure(w, s.closures[f.closure], args, Enter(s)))
    ensures s.callDepth < DEPTH_LIMIT && !f.NatV? && !(f.FunV? && f.closure < |s.closures|) ==>
      CallValue(w, f, args, s) == Stop(Fail(s, NotCallable))
  {
    hide RunNative, RunClosure, Fail;
  }

  /** A finished call, with the depth counted down again. */
  function Left(r: Result): Result { if r.Stop? then Stop(Leave(r.s)) else Vals(r.vs, Leave(r.s)) }

  lemma ClosureStep(w: World, c: Closure, args: seq<Value>, s: State)
    requires s.instructions <= INSTRUCTION_LIMIT
    ensures var d := NewScope(w, s, c.scope, true);
      RunClosure(w, c, args, s)
      == if !d.ok then Stop(d.s)
         else var b := BindArguments(w, d.s, |d.s.scopes|, c, args);
              if b.ok then OfBody(ExecBlock(w, c.code, |d.s.scopes|, b.s)) else Stop(b.s)
  {
    hide NewScope, BindArguments, ExecBlock, OfBody;
  }

  function ExtraArguments(c: Closure, args: seq<Value>): seq<Value> {
    if c.variadic && |args| > |c.params| then args[|c.params|..] else []
  }

  function WithExtras(s: State, env: nat, extras: seq<Value>): (r: State)
    ensures SameClock(s, r)
  {
    WithScope(s, env, ScopeAt(s.scopes, env).(extras := extras))
  }

  lemma ArgumentsStep(w: World, s: State, env: nat, c: Closure, args: seq<Value>)
    ensures var d := DefineAll(w, s, env, c.params, args);
      var extras := ExtraArguments(c, args);
      BindArguments(w, s, env, c, args)
      == if !d.ok || extras == [] then d
         else if |extras| > MULTI_LIMIT then Done(false, Fail(d.s, TooManyValues))
         else var a := Allocate(w, d.s);
              if a.ok then Done(true, WithExtras(a.s, env, extras)) else a
  {
    hide DefineAll, Allocate, Fail;
  }

  lemma DefineAllStep(w: World, s: State, env: nat, names: seq<string>, values: seq<Value>)
    ensures DefineAll(w, s, env, names, values)
         == if names == [] then Done(true, s)
            else var d := Define(w, s, env, names[0], First(values));
                 if d.ok then DefineAll(w, d.s, env, names[1..], Rest(values)) else d
  {
    hide Define;
  }

  /** The values after the first. */
  function Rest(values: seq<Value>): seq<Value> { if values == [] then [] else values[1..] }

  lemma NativeStep(w: World, k: nat, args: seq<Value>, history: seq<Reply>, s: State)
    requires s.instructions <= INSTRUCTION_LIMIT
    ensures var t := Asked(s, Request(k, args, history));
      var a := w.act(t.log);
      RunNative(w, k, args, history, s)
      == if |history| >= w.patience || a.GiveUp? || !KnownAction(a, t) then Stop(Fail(t, NativeFailed))
         else if a.Answer? then Vals(a.values, t)
         else var r := Perform(w, a, t);
              if r.s.instructions > INSTRUCTION_LIMIT then Stop(r.s)
              else RunNative(w, k, args, history + [if r.Vals? then Replied(r.vs) else Failed], r.s)
  {
    hide Perform, Fail, KnownAction;
  }

  lemma ModuleStep(w: World, code: seq<Stmt>, privates: Option<Value>, s: State)
    requires s.instructions <= INSTRUCTION_LIMIT
    ensures var d := NewScope(w, s, GLOBAL, true);
      ExecModule(w, code, privates, s)
      == if !d.ok then Stop(d.s)
         else var p := if privates.None? then d else Define(w, d.s, |d.s.scopes|, "_kami", privates.value);
              if !p.ok then Stop(p.s)
              else Unloaded(OfBody(ExecBlock(w, code, |d.s.scopes|, p.s.(moduleDepth := p.s.moduleDepth + 1))), s.moduleDepth)
  {
    hide NewScope, Define, ExecBlock, OfBody;
  }

  function Unloaded(r: Result, depth: nat): Result {
    if r.Stop? then Stop(r.s.(moduleDepth := depth)) else Vals(r.vs, r.s.(moduleDepth := depth))
  }

  // ---- statements --------------------------------------------------------------------------

  lemma BlockDone(w: World, env: nat, s: State)
    requires s.instructions <= INSTRUCTION_LIMIT
    ensures ExecBlock(w, [], env, s) == Next(s)
  {
  }

  lemma BlockStep(w: World, ss: seq<Stmt>, env: nat, s: State)
    requires s.instructions <= INSTRUCTION_LIMIT && ss != []
    ensures var f := Exec(w, ss[0], env, s);
      ExecBlock(w, ss, env, s) == if f.Next? then ExecBlock(w, ss[1..], env, f.s) else f
  {
    hide Exec;
  }

  lemma ExecStep(w: World, st: Stmt, env: nat, s: State)
    ensures Exec(w, st, env, s) == if Tick(w, s).ok then ExecNode(w, st, env, Tick(w, s).s) else Halted(Tick(w, s).s)
  {
    hide ExecNode, Tick;
  }

  lemma StmtStep(w: World, st: Stmt, env: nat, s: State)
    requires s.instructions <= INSTRUCTION_LIMIT
    ensures st.CallStmt? ==> ExecNode(w, st, env, s) == ExecCall(w, st.call, env, s)
    ensures st.Assign? ==> ExecNode(w, st, env, s) == ExecAssign(w, st.targets, st.values, env, s)
    ensures st.LocalAssign? ==> ExecNode(w, st, env, s) == ExecLocal(w, st.names, st.values, env, s)
    ensures st.BreakStmt? ==> ExecNode(w, st, env, s) == Broke(s)
    ensures st.ReturnStmt? ==> ExecNode(w, st, env, s) == ExecReturn(w, st.values, env, s)
    ensures st.FunctionDecl? ==> ExecNode(w, st, env, s) == ExecFunction(w, st.target, st.func, env, s)
    ensures st.LocalFunction? ==> ExecNode(w, st, env, s) == ExecLocalFunction(w, st.name, st.func, env, s)
  {
    hide ExecCall, ExecAssign, ExecLocal, ExecArms, ExecWhile, ExecNumeric, ExecGeneric, ExecReturn, ExecFunction, ExecLocalFunction;
  }

  lemma ControlStep(w: World, st: Stmt, env: nat, s: State)
    requires s.instructions <= INSTRUCTION_LIMIT
    ensures st.IfStmt? ==> ExecNode(w, st, env, s) == ExecArms(w, st.arms, st.hasElse, st.otherwise, env, s)
    ensures st.WhileStmt? ==> ExecNode(w, st, env, s) == ExecWhile(w, st.cond, st.body, env, s)
    ensures st.ForNumeric? ==>
      ExecNode(w, st, env, s) == ExecNumeric(w, st.counter, st.first, st.last, st.step, st.body, env, s)
    ensures st.ForGeneric? ==> ExecNode(w, st, env, s) == ExecGeneric(w, st.names, st.values, st.body, env, s)
  {
    hide ExecCall, ExecAssign, ExecLocal, ExecArms, ExecWhile, ExecNumeric, ExecGeneric, ExecReturn, ExecFunction, ExecLocalFunction;
  }

  lemma ReturnStep(w: World, vs: seq<Expr>, env: nat, s: State)
    requires s.instructions <= INSTRUCTION_LIMIT
    ensures var r := EvalList(w, vs, [], env, s);
      ExecReturn(w, vs, env, s) == if r.Stop? then Halted(r.s) else Returned(r.vs, r.s)
  {
    hide EvalList;
  }

  lemma ExprStmtStep(w: World, e: Expr, env: nat, s: State)
    requires s.instructions <= INSTRUCTION_LIMIT
    ensures var r := Eval(w, e, env, s);
      ExecCall(w, e, env, s) == if r.Stop? then Halted(r.s) else Next(r.s)
  {
    hide Eval;
  }

  lemma LocalStep(w: World, ns: seq<string>, vs: seq<Expr>, env: nat, s: State)
    requires s.instructions <= INSTRUCTION_LIMIT
    ensures var r := EvalList(w, vs, [], env, s);
      ExecLocal(w, ns, vs, env, s) == if r.Stop? then Halted(r.s) else OfDoneFlow(DefineAll(w, r.s, env, ns, r.vs))
  {
    hide EvalList, DefineAll, OfDoneFlow;
  }

  lemma AssignStep(w: World, ts: seq<Expr>, vs: seq<Expr>, env: nat, s: State)
    requires s.instructions <= INSTRUCTION_LIMIT
    ensures var r := EvalList(w, vs, [], env, s);
      ExecAssign(w, ts, vs, env, s) == if r.Stop? then Halted(r.s) else OfDoneFlow(AssignAll(w, ts, r.vs, env, r.s))
  {
    hide EvalList, AssignAll, OfDoneFlow;
  }

  lemma AssignAllStep(w: World, ts: seq<Expr>, values: seq<Value>, env: nat, s: State)
    requires s.instructions <= INSTRUCTION_LIMIT
    ensures AssignAll(w, ts, values, env, s)
         == if ts == [] then Done(true, s)
            else var d := AssignTo(w, ts[0], First(values), env, s);
                 if d.ok then AssignAll(w, ts[1..], Rest(values), env, d.s) else d
  {
    hide AssignTo;
  }

  lemma ToVariable(w: World, t: Expr, v: Value, env: nat, s: State)
    requires s.instructions <= INSTRUCTION_LIMIT && t.Var?
    ensures AssignTo(w, t, v, env, s) == Heap.Assign(w, s, env, t.name, v)
  {
    hide Heap.Assign, Eval, TableSet;
  }

  lemma NoDestination(w: World, t: Expr, v: Value, env: nat, s: State)
    requires s.instructions <= INSTRUCTION_LIMIT && !t.Var? && !t.Member? && !t.Index?
    ensures AssignTo(w, t, v, env, s) == Done(false, Fail(s, BadDestination))
  {
    hide Heap.Assign, Eval, TableSet, Fail;
  }

  lemma ToMember(w: World, t: Expr, v: Value, env: nat, s: State)
    requires s.instructions <= INSTRUCTION_LIMIT && t.Member?
    ensures var r := Eval(w, t.base, env, s);
      AssignTo(w, t, v, env, s)
      == if r.Stop? then Done(false, r.s)
         else if !First(r.vs).TabV? then Done(false, Fail(r.s, NotATable))
         else var a := Allocate(w, r.s);
              if a.ok then TableSet(w, a.s, First(r.vs).table, StrV(t.field), v) else a
  {
    hide Heap.Assign, Eval, TableSet, Fail, Allocate;
  }

  lemma ToIndex(w: World, t: Expr, v: Value, env: nat, s: State)
    requires s.instructions <= INSTRUCTION_LIMIT && t.Index?
    ensures var q := Eval(w, t.base, env, s);
      AssignTo(w, t, v, env, s)
      == if q.Stop? then Done(false, q.s)
         else var r := Eval(w, t.key, env, q.s);
              if r.Stop? then Done(false, r.s)
              else if !First(q.vs).TabV? then Done(false, Fail(r.s, NotATable))
              else TableSet(w, r.s, First(q.vs).table, First(r.vs), v)
  {
    hide Heap.Assign, Eval, TableSet, Fail;
  }

  lemma FunctionStep(w: World, t: Expr, e: Expr, env: nat, s: State)
    requires s.instructions <= INSTRUCTION_LIMIT
    ensures var r := Eval(w, e, env, s);
      ExecFunction(w, t, e, env, s) == if r.Stop? then Halted(r.s) else OfDoneFlow(AssignTo(w, t, First(r.vs), env, r.s))
  {
    hide Eval, AssignTo, OfDoneFlow;
  }

  /** Overwrite a local binding. */
  function Rebound(s: State, env: nat, n: string, v: Value): (r: State)
    ensures SameClock(s, r)
  {
    WithScope(s, env, Rebind(ScopeAt(s.scopes, env), n, v))
  }

  lemma LocalFunctionStep(w: World, n: string, e: Expr, env: nat, s: State)
    requires s.instructions <= INSTRUCTION_LIMIT
    ensures var d := Define(w, s, env, n, NilV);
      ExecLocalFunction(w, n, e, env, s)
      == if !d.ok then Halted(d.s)
         else var r := Eval(w, e, env, d.s);
              if r.Stop? then Halted(r.s) else Next(Rebound(r.s, env, n, First(r.vs)))
  {
    hide Eval, Define;
  }

  lemma ArmsDone(w: World, hasElse: bool, last: seq<Stmt>, env: nat, s: State)
    requires s.instructions <= INSTRUCTION_LIMIT
    ensures ExecArms(w, [], hasElse, last, env, s) == if hasElse then ExecScoped(w, last, env, s) else Next(s)
  {
    hide ExecScoped;
  }

  lemma ArmsStep(w: World, arms: seq<Arm>, hasElse: bool, last: seq<Stmt>, env: nat, s: State)
    requires s.instructions <= INSTRUCTION_LIMIT && arms != []
    ensures var r := Eval(w, arms[0].guard, env, s);
      ExecArms(w, arms, hasElse, last, env, s)
      == if r.Stop? then Halted(r.s)
         else if Truthy(First(r.vs)) then ExecScoped(w, arms[0].body, env, r.s)
         else ExecArms(w, arms[1..], hasElse, last, env, r.s)
  {
    hide Eval, ExecScoped;
  }

  lemma ScopedStep(w: World, ss: seq<Stmt>, env: nat, s: State)
    requires s.instructions <= INSTRUCTION_LIMIT
    ensures var d := NewScope(w, s, env, false);
      ExecScoped(w, ss, env, s) == if d.ok then ExecBlock(w, ss, |d.s.scopes|, d.s) else Halted(d.s)
  {
    hide NewScope, ExecBlock;
  }

  lemma WhileStep(w: World, e: Expr, body: seq<Stmt>, env: nat, s: State)
    requires s.instructions <= INSTRUCTION_LIMIT
    ensures var r := Eval(w, e, env, s);
      ExecWhile(w, e, body, env, s)
      == if r.Stop? then Halted(r.s)
         else if !Truthy(First(r.vs)) then Next(r.s)
         else var f := ExecScoped(w, body, env, r.s);
              if f.Broke? then Next(f.s) else if f.Next? then ExecWhile(w, e, body, env, f.s) else f
  {
    hide Eval, ExecScoped;
  }

  lemma NumericStep(w: World, n: string, a: Expr, b: Expr, st: Option<Expr>, body: seq<Stmt>, env: nat, s: State)
    requires s.instructions <= INSTRUCTION_LIMIT
    ensures var p := Eval(w, a, env, s);
      ExecNumeric(w, n, a, b, st, body, env, s)
      == if p.Stop? then Halted(p.s)
         else var q := Eval(w, b, env, p.s);
              if q.Stop? then Halted(q.s)
              else var r := Semantics.EvalStep(w, st, env, q.s);
                   if r.Stop? then Halted(r.s)
                   else StartNumeric(w, n, First(p.vs), First(q.vs), First(r.vs), body, env, r.s)
  {
    hide Eval, Semantics.EvalStep, StartNumeric;
  }

  lemma StepStep(w: World, st: Option<Expr>, env: nat, s: State)
    requires s.instructions <= INSTRUCTION_LIMIT
    ensures Semantics.EvalStep(w, st, env, s) == if st.None? then Vals([NumV(1.0)], s) else Eval(w, st.value, env, s)
  {
    hide Eval;
  }

  predicate LoopBounds(a: Value, b: Value, c: Value) { a.NumV? && b.NumV? && c.NumV? && c.num != 0.0 }

  lemma StartStep(w: World, n: string, a: Value, b: Value, c: Value, body: seq<Stmt>, env: nat, s: State)
    requires s.instructions <= INSTRUCTION_LIMIT
    ensures LoopBounds(a, b, c) ==> a.NumV? && b.NumV? && c.NumV?
    ensures !LoopBounds(a, b, c) ==> StartNumeric(w, n, a, b, c, body, env, s) == Halted(Fail(s, BadLoopBounds))
    ensures LoopBounds(a, b, c) ==>
      var d := NewScope(w, s, env, false);
      StartNumeric(w, n, a, b, c, body, env, s)
      == if !d.ok then Halted(d.s)
         else var g := Define(w, d.s, |d.s.scopes|, n, a);
              if g.ok then NumericLoop(w, n, a.num, b.num, c.num, body, |d.s.scopes|, g.s) else Halted(g.s)
  {
    hide NewScope, Define, NumericLoop, Fail;
  }

  lemma NumericDone(w: World, n: string, current: real, last: real, step: real, body: seq<Stmt>, loop: nat, s: State)
    requires s.instructions <= INSTRUCTION_LIMIT && !InRange(current, last, step)
    ensures NumericLoop(w, n, current, last, step, body, loop, s) == Next(s)
  {
  }

  lemma NumericGoesOn(w: World, n: string, current: real, last: real, step: real, body: seq<Stmt>, loop: nat, s: State)
    requires s.instructions <= INSTRUCTION_LIMIT && InRange(current, last, step)
    ensures var d := Tick(w, s);
      NumericLoop(w, n, current, last, step, body, loop, s)
      == if !d.ok then Halted(d.s)
         else var f := ExecScoped(w, body, loop, Rebound(d.s, loop, n, NumV(current)));
              if f.Broke? then Next(f.s)
              else if f.Next? then NumericLoop(w, n, current + step, last, step, body, loop, f.s)
              else f
  {
    hide Tick, ExecScoped, InRange;
  }

  lemma GenericStep(w: World, ns: seq<string>, vs: seq<Expr>, body: seq<Stmt>, env: nat, s: State)
    requires s.instructions <= INSTRUCTION_LIMIT
    ensures var r := EvalList(w, vs, [], env, s);
      ExecGeneric(w, ns, vs, body, env, s)
      == if r.Stop? then Halted(r.s)
         else var d := NewScope(w, r.s, env, false);
              if d.ok then GenericLoop(w, ns, Nth(r.vs, 0), Nth(r.vs, 1), Nth(r.vs, 2), body, |d.s.scopes|, d.s)
              else Halted(d.s)
  {
    hide EvalList, NewScope, GenericLoop;
  }

  lemma GenericGoesOn(w: World, ns: seq<string>, source: Value, fixed: Value, control: Value, body: seq<Stmt>, loop: nat, s: State)
    requires s.instructions <= INSTRUCTION_LIMIT
    ensures var d := Tick(w, s);
      GenericLoop(w, ns, source, fixed, control, body, loop, s)
      == if !d.ok then Halted(d.s)
         else var r := CallValue(w, source, [fixed, control], d.s);
              if r.Stop? then Halted(r.s)
              else if First(r.vs) == NilV then Next(r.s)
              else var f := ExecIteration(w, ns, r.vs, body, loop, r.s);
                   if f.Broke? then Next(f.s)
                   else if f.Next? then GenericLoop(w, ns, source, fixed, First(r.vs), body, loop, f.s)
                   else f
  {
    hide Tick, CallValue, ExecIteration;
  }

  lemma IterationStep(w: World, ns: seq<string>, vs: seq<Value>, body: seq<Stmt>, loop: nat, s: State)
    requires s.instructions <= INSTRUCTION_LIMIT
    ensures var d := NewScope(w, s, loop, false);
      ExecIteration(w, ns, vs, body, loop, s)
      == if !d.ok then Halted(d.s)
         else var g := DefineAll(w, d.s, |d.s.scopes|, ns, vs);
              if g.ok then ExecBlock(w, body, |d.s.scopes|, g.s) else Halted(g.s)
  {
    hide NewScope, DefineAll, ExecBlock;
  }

  // ---- values and operators ----------------------------------------------------------------

  lemma TickCounts(w: World, s: State)
    ensures Tick(w, s).ok ==> Tick(w, s).s == s.(instructions := s.instructions + 1) && s.instructions < INSTRUCTION_LIMIT
    ensures Later(s, Tick(w, s).s)
  {
  }

  /** The operators that do not look at the kind of their operands, and concatenation. */
  lemma FinishEasily(w: World, l: Value, r: Value, s: State)
    ensures FinishBinary(w, EqualEqual, l, r, s) == Vals([BoolV(l == r)], s)
    ensures FinishBinary(w, NotEqual, l, r, s) == Vals([BoolV(l != r)], s)
    ensures FinishBinary(w, Concat, l, r, s) == FinishConcat(w, l, r, s)
  {
    hide FinishConcat, CompareOp, Arithmetic, Refuse, IsComparison;
  }

  function Operate(op: Kind, l: Value, r: Value, overflow: Word): Operated {
    if IsComparison(op) then CompareOp(op, l, r) else Arithmetic(op, l, r, overflow)
  }

  lemma FinishOperator(w: World, op: Kind, l: Value, r: Value, s: State)
    requires op != EqualEqual && op != NotEqual && op != Concat
    ensures var q := Operate(op, l, r, w.overflow);
      FinishBinary(w, op, l, r, s) == if q.Made? then Vals([q.value], s) else Stop(Refuse(s, q.why))
  {
    hide FinishConcat, CompareOp, Arithmetic, Refuse, IsComparison;
  }

  /** Values from the i-th on. */
  function From(values: seq<Value>, i: nat): seq<Value> { if i < |values| then values[i..] else [] }

  lemma FromStep(values: seq<Value>, i: nat)
    ensures First(From(values, i)) == Nth(values, i) && Rest(From(values, i)) == From(values, i + 1)
    ensures From(values, 0) == values
  {
  }

  predicate IsSimple(st: Stmt) { !st.IfStmt? && !st.WhileStmt? && !st.ForNumeric? && !st.ForGeneric? }

  /** Whether an action is known depends only on which objects there are. */
  lemma SameObjects(a: Action, s: State, s': State)
    requires |s.tables| == |s'.tables| && |s.closures| == |s'.closures|
    ensures KnownAction(a, s) == KnownAction(a, s')
  {
    forall v: Value ensures Known(v, s) == Known(v, s') {
    }
  }
}
