/** What a Book means: evaluation of expressions and statements as functions on the heap. */
module Semantics {
  import opened Tokens
  import opened Syntax
  import opened Values
  import opened Heap
  import Strings

  /** The outcome of an expression: its values, or a stop. */
  datatype Result = Vals(vs: seq<Value>, s: State) | Stop(s: State)

  /** The outcome of a statement. */
  datatype Flow = Next(s: State) | Returned(vs: seq<Value>, s: State) | Broke(s: State) | Halted(s: State)

  /** Time has not run backwards, and both depths are back where they were. */
  predicate Later(s: State, s': State) {
    && s'.instructions >= s.instructions && s'.callDepth == s.callDepth && s'.moduleDepth == s.moduleDepth
  }

  /** Steps left, and calls that may still be nested. */
  function Budget(s: State): nat {
    if s.instructions < INSTRUCTION_LIMIT then INSTRUCTION_LIMIT - s.instructions else 0
  }

  function Depth(s: State): nat { if s.callDepth < DEPTH_LIMIT then DEPTH_LIMIT - s.callDepth else 0 }

  // ---- expressions -------------------------------------------------------------------------

  function Eval(w: World, e: Expr, env: nat, s: State): (r: Result)
    ensures Later(s, r.s) && (r.Vals? ==> s.instructions < r.s.instructions <= INSTRUCTION_LIMIT)
    decreases Budget(s), Depth(s), 1
  {
    var d := Tick(w, s);
    if !d.ok then Stop(d.s) else EvalNode(w, e, env, d.s)
  }

  function EvalNode(w: World, e: Expr, env: nat, s: State): (r: Result)
    requires s.instructions <= INSTRUCTION_LIMIT
    ensures Later(s, r.s) && (r.Vals? ==> r.s.instructions <= INSTRUCTION_LIMIT)
    decreases Budget(s), Depth(s), 9
  {
    match e
    case NilLit => Vals([NilV], s)
    case BoolLit(b) => Vals([BoolV(b)], s)
    case NumberLit(t) => EvalNumeral(w, t, s)
    case StringLit(t) => EvalString(w, t, s)
    case Var(n) => Vals([Lookup(s, env, n)], s)
    case Vararg => EvalVararg(env, s)
    case TableLit(fs) => EvalTable(w, fs, env, s)
    case FunctionLit(ps, v, code) => EvalFunction(w, Closure(ps, v, code, env), s)
    case Unary(op, o) => EvalUnary(w, op, o, env, s)
    case Binary(op, l, r) => EvalBinary(w, op, l, r, env, s)
    case Member(b, n) => EvalMember(w, b, n, env, s)
    case Index(b, k) => EvalIndex(w, b, k, env, s)
    case Call(f, args) => EvalCall(w, f, args, env, s)
  }

  function EvalNumeral(w: World, t: string, s: State): (r: Result)
    ensures SameClock(s, r.s)
  {
    var n := w.numeral(t);
    if n.None? then Stop(Fail(s, BadNumeral)) else Vals([NumV(n.value)], s)
  }

  function EvalString(w: World, t: string, s: State): (r: Result)
    ensures SameClock(s, r.s)
  {
    var d := Allocate(w, s);
    if !d.ok then Stop(d.s)
    else if Strings.Decoded(t).None? then Stop(Fail(d.s, BadString))
    else Vals([StrV(Strings.Decoded(t).value)], d.s)
  }

  /** The extra arguments of the innermost enclosing call. */
  function EvalVararg(env: nat, s: State): (r: Result)
    ensures SameClock(s, r.s)
  {
    var c := CallScope(s.scopes, env);
    if c == 0 then Stop(Fail(s, NoVarargs))
    else if |ScopeAt(s.scopes, c).extras| > MULTI_LIMIT then Stop(Fail(s, TooManyValues))
    else Vals(ScopeAt(s.scopes, c).extras, s)
  }

  function EvalFunction(w: World, c: Closure, s: State): (r: Result)
    ensures SameClock(s, r.s)
  {
    var d := Allocate(w, s);
    if !d.ok then Stop(d.s) else Vals([FunV(|d.s.closures|)], d.s.(closures := d.s.closures + [c]))
  }

  function EvalTable(w: World, fs: seq<Field>, env: nat, s: State): (r: Result)
    requires s.instructions <= INSTRUCTION_LIMIT
    ensures Later(s, r.s) && (r.Vals? ==> r.s.instructions <= INSTRUCTION_LIMIT)
    decreases Budget(s), Depth(s), 8
  {
    var d := NewTable(w, s);
    if !d.ok then Stop(d.s)
    else
      var f := EvalFields(w, fs, |d.s.tables| - 1, 1, env, d.s);
      if !f.ok then Stop(f.s) else Vals([TabV(|d.s.tables| - 1)], f.s)
  }

  /** Store the fields of a constructor in table t; positional values go to `next` and after. */
  function EvalFields(w: World, fs: seq<Field>, t: int, next: nat, env: nat, s: State): (d: Done)
    requires s.instructions <= INSTRUCTION_LIMIT
    ensures Later(s, d.s) && (d.ok ==> d.s.instructions <= INSTRUCTION_LIMIT)
    decreases Budget(s), Depth(s), 7, fs
  {
    if fs == [] then Done(true, s)
    else if t < 0 then Done(false, s)
    else
      var d := EvalField(w, fs[0], |fs| == 1, t, next, env, s);
      if !d.ok then d
      else EvalFields(w, fs[1..], t, if fs[0].Item? then next + 1 else next, env, d.s)
  }

  function EvalField(w: World, f: Field, last: bool, t: nat, next: nat, env: nat, s: State): (d: Done)
    requires s.instructions <= INSTRUCTION_LIMIT
    ensures Later(s, d.s) && (d.ok ==> s.instructions < d.s.instructions <= INSTRUCTION_LIMIT)
    decreases Budget(s), Depth(s), 6
  {
    match f
    case Named(n, v) =>
      var a := Allocate(w, s);
      if !a.ok then a
      else
        var r := Eval(w, v, env, a.s);
        if r.Stop? then Done(false, r.s) else TableSet(w, r.s, t, StrV(n), First(r.vs))
    case Keyed(k, v) =>
      var q := Eval(w, k, env, s);
      if q.Stop? then Done(false, q.s)
      else
        var r := Eval(w, v, env, q.s);
        if r.Stop? then Done(false, r.s) else TableSet(w, r.s, t, First(q.vs), First(r.vs))
    case Item(v) =>
      var r := Eval(w, v, env, s);
      if r.Stop? then Done(false, r.s)
      else if last then SetAll(w, r.s, t, next, r.vs)
      else TableSet(w, r.s, t, NumV(next as real), First(r.vs))
  }

  /** table[next], table[next + 1], ... := vs */
  function SetAll(w: World, s: State, t: nat, next: nat, vs: seq<Value>): (d: Done)
    ensures SameClock(s, d.s)
    decreases vs
  {
    if vs == [] then Done(true, s)
    else
      var d := TableSet(w, s, t, NumV(next as real), vs[0]);
      if !d.ok then d else SetAll(w, d.s, t, next + 1, vs[1..])
  }

  function EvalUnary(w: World, op: Kind, o: Expr, env: nat, s: State): (r: Result)
    requires s.instructions <= INSTRUCTION_LIMIT
    ensures Later(s, r.s) && (r.Vals? ==> r.s.instructions <= INSTRUCTION_LIMIT)
    decreases Budget(s), Depth(s), 8
  {
    var r := Eval(w, o, env, s);
    if r.Stop? then r else FinishUnary(op, First(r.vs), r.s)
  }

  function FinishUnary(op: Kind, v: Value, s: State): (r: Result)
    ensures SameClock(s, r.s)
  {
    match UnaryOp(op, v, if v.TabV? then Border(RowsAt(s, v.table)) else 0)
    case Made(x) => Vals([x], s)
    case Refused(why) => Stop(Refuse(s, why))
  }

  function EvalBinary(w: World, op: Kind, l: Expr, r: Expr, env: nat, s: State): (q: Result)
    requires s.instructions <= INSTRUCTION_LIMIT
    ensures Later(s, q.s) && (q.Vals? ==> q.s.instructions <= INSTRUCTION_LIMIT)
    decreases Budget(s), Depth(s), 8
  {
    var a := Eval(w, l, env, s);
    if a.Stop? then a
    else if (op == And && !Truthy(First(a.vs))) || (op == Or && Truthy(First(a.vs))) then Vals([First(a.vs)], a.s)
    else
      var b := Eval(w, r, env, a.s);
      if b.Stop? then b
      else if op == And || op == Or then Vals([First(b.vs)], b.s)
      else FinishBinary(w, op, First(a.vs), First(b.vs), b.s)
  }

  function FinishBinary(w: World, op: Kind, l: Value, r: Value, s: State): (q: Result)
    ensures SameClock(s, q.s)
  {
    if op == EqualEqual then Vals([BoolV(l == r)], s)
    else if op == NotEqual then Vals([BoolV(l != r)], s)
    else if op == Concat then FinishConcat(w, l, r, s)
    else
      match if IsComparison(op) then CompareOp(op, l, r) else Arithmetic(op, l, r, w.overflow)
      case Made(x) => Vals([x], s)
      case Refused(why) => Stop(Refuse(s, why))
  }

  function FinishConcat(w: World, l: Value, r: Value, s: State): (q: Result)
    ensures SameClock(s, q.s)
  {
    var a, b := ConcatText(l, w.show), ConcatText(r, w.show);
    if a.None? || b.None? then Stop(Fail(s, BadOperand))
    else
      var d := Allocate(w, s);
      if !d.ok then Stop(d.s) else Vals([StrV(a.value + b.value)], d.s)
  }

  function EvalMember(w: World, b: Expr, n: string, env: nat, s: State): (r: Result)
    requires s.instructions <= INSTRUCTION_LIMIT
    ensures Later(s, r.s) && (r.Vals? ==> r.s.instructions <= INSTRUCTION_LIMIT)
    decreases Budget(s), Depth(s), 8
  {
    var r := Eval(w, b, env, s);
    if r.Stop? then r
    else if !First(r.vs).TabV? then Stop(Fail(r.s, NotATable))
    else Vals([RowValue(RowsAt(r.s, First(r.vs).table), StrV(n))], r.s)
  }

  function EvalIndex(w: World, b: Expr, k: Expr, env: nat, s: State): (r: Result)
    requires s.instructions <= INSTRUCTION_LIMIT
    ensures Later(s, r.s) && (r.Vals? ==> r.s.instructions <= INSTRUCTION_LIMIT)
    decreases Budget(s), Depth(s), 8
  {
    var q := Eval(w, b, env, s);
    if q.Stop? then q
    else
      var r := Eval(w, k, env, q.s);
      if r.Stop? then r else TableGet(First(q.vs), First(r.vs), r.s)
  }

  /** base[key] for evaluated operands. */
  function TableGet(base: Value, key: Value, s: State): (r: Result)
    ensures SameClock(s, r.s)
  {
    if !base.TabV? then Stop(Fail(s, NotATable))
    else if KeyFault(key).Some? then Stop(Fail(s, KeyFault(key).value))
    else Vals([RowValue(RowsAt(s, base.table), key)], s)
  }

  function EvalCall(w: World, f: Expr, args: seq<Expr>, env: nat, s: State): (r: Result)
    requires s.instructions <= INSTRUCTION_LIMIT
    ensures Later(s, r.s) && (r.Vals? ==> r.s.instructions <= INSTRUCTION_LIMIT)
    decreases Budget(s), Depth(s), 8
  {
    var q := Eval(w, f, env, s);
    if q.Stop? then q
    else
      var r := EvalList(w, args, [], env, q.s);
      if r.Stop? then r else CallValue(w, First(q.vs), r.vs, r.s)
  }

  /** All but the last expression are adjusted to one value. */
  function EvalList(w: World, es: seq<Expr>, acc: seq<Value>, env: nat, s: State): (r: Result)
    requires s.instructions <= INSTRUCTION_LIMIT
    ensures Later(s, r.s) && (r.Vals? ==> r.s.instructions <= INSTRUCTION_LIMIT)
    decreases Budget(s), Depth(s), 7, es
  {
    if es == [] then Vals(acc, s)
    else
      var r := Eval(w, es[0], env, s);
      if r.Stop? then r
      else
        var more := if |es| == 1 then r.vs else [First(r.vs)];
        if |acc| + |more| > MULTI_LIMIT then Stop(Fail(r.s, TooManyValues))
        else EvalList(w, es[1..], acc + more, env, r.s)
  }

  // ---- calls -------------------------------------------------------------------------------

  function Enter(s: State): State { s.(callDepth := s.callDepth + 1) }

  function Leave(s: State): State { if s.callDepth > 0 then s.(callDepth := s.callDepth - 1) else s }

  function CallValue(w: World, f: Value, args: seq<Value>, s: State): (r: Result)
    requires s.instructions <= INSTRUCTION_LIMIT
    ensures Later(s, r.s) && (r.Vals? ==> r.s.instructions <= INSTRUCTION_LIMIT)
    decreases Budget(s), Depth(s), 5
  {
    if s.callDepth >= DEPTH_LIMIT then Stop(Fail(s, TooDeep))
    else if f.NatV? then
      var r := RunNative(w, f.native, args, [], Enter(s));
      if r.Stop? then Stop(Leave(r.s)) else Vals(r.vs, Leave(r.s))
    else if f.FunV? && f.closure < |s.closures| then
      var r := RunClosure(w, s.closures[f.closure], args, Enter(s));
      if r.Stop? then Stop(Leave(r.s)) else Vals(r.vs, Leave(r.s))
    else Stop(Fail(s, NotCallable))
  }

  /** A closure's code in a new scope below the one it was created in. */
  function RunClosure(w: World, c: Closure, args: seq<Value>, s: State): (r: Result)
    requires s.instructions <= INSTRUCTION_LIMIT
    ensures Later(s, r.s) && (r.Vals? ==> r.s.instructions <= INSTRUCTION_LIMIT)
    decreases Budget(s), Depth(s), 4
  {
    var d := NewScope(w, s, c.scope, true);
    if !d.ok then Stop(d.s)
    else
      var b := BindArguments(w, d.s, |d.s.scopes|, c, args);
      if !b.ok then Stop(b.s) else OfBody(ExecBlock(w, c.code, |d.s.scopes|, b.s))
  }

  /** What a function, a module or the whole Book yields: a `break` cannot leave it. */
  function OfBody(f: Flow): (r: Result)
    ensures SameClock(f.s, r.s)
  {
    match f
    case Next(s) => Vals([], s)
    case Returned(vs, s) => Vals(vs, s)
    case Broke(s) => Stop(Fail(s, BreakEscaped))
    case Halted(s) => Stop(s)
  }

  /** Missing arguments are nil; a variadic function keeps the extra ones. */
  function BindArguments(w: World, s: State, env: nat, c: Closure, args: seq<Value>): (d: Done)
    ensures SameClock(s, d.s)
  {
    var d := DefineAll(w, s, env, c.params, args);
    if !d.ok || !c.variadic then d
    else
      var extras := if |args| > |c.params| then args[|c.params|..] else [];
      if |extras| > MULTI_LIMIT then Done(false, Fail(d.s, TooManyValues))
      else if extras == [] then d
      else
        var a := Allocate(w, d.s);
        if !a.ok then a else Done(true, WithScope(a.s, env, ScopeAt(a.s.scopes, env).(extras := extras)))
  }

  /** Declare names in order; a name without a value is nil. */
  function DefineAll(w: World, s: State, env: nat, names: seq<string>, values: seq<Value>): (d: Done)
    ensures SameClock(s, d.s)
    decreases names
  {
    if names == [] then Done(true, s)
    else
      var d := Define(w, s, env, names[0], First(values));
      if !d.ok then d else DefineAll(w, d.s, env, names[1..], if values == [] then [] else values[1..])
  }

  /** Natives can only mention objects that exist. */
  predicate Known(v: Value, s: State) {
    match v
    case TabV(t) => t < |s.tables|
    case FunV(c) => c < |s.closures|
    case _ => true
  }

  predicate AllKnown(vs: seq<Value>, s: State) { forall i :: 0 <= i < |vs| ==> Known(vs[i], s) }

  predicate KnownAction(a: Action, s: State) {
    match a
    case Answer(vs) => AllKnown(vs, s) && |vs| <= MULTI_LIMIT
    case Invoke(f, args) => Known(f, s) && AllKnown(args, s)
    case Store(t, k, v) => t.TabV? && Known(t, s) && Known(k, s) && Known(v, s)
    case Fetch(t, k) => t.TabV? && Known(t, s) && Known(k, s)
    case Discard(t, k) => t.TabV? && Known(t, s) && Known(k, s)
    case RunModule(_, p) => p.Some? ==> Known(p.value, s)
    case _ => true
  }

  /** One request more. */
  function Asked(s: State, q: Event): (r: State)
    ensures Later(s, r) && r.log == s.log + [q] && r.instructions == s.instructions
  {
    s.(log := s.log + [q])
  }

  function RunNative(w: World, k: nat, args: seq<Value>, history: seq<Reply>, s: State): (r: Result)
    requires s.instructions <= INSTRUCTION_LIMIT
    ensures Later(s, r.s) && (r.Vals? ==> r.s.instructions <= INSTRUCTION_LIMIT)
    decreases Budget(s), Depth(s), 7, w.patience - |history|
  {
    var t := Asked(s, Request(k, args, history));
    var a := w.act(t.log);
    if |history| >= w.patience || a.GiveUp? || !KnownAction(a, t) then Stop(Fail(t, NativeFailed))
    else if a.Answer? then Vals(a.values, t)
    else
      var r := Perform(w, a, t);
      if r.s.instructions > INSTRUCTION_LIMIT then Stop(r.s)
      else RunNative(w, k, args, history + [if r.Vals? then Replied(r.vs) else Failed], r.s)
  }

  /** One request of a native. */
  function Perform(w: World, a: Action, s: State): (r: Result)
    requires s.instructions <= INSTRUCTION_LIMIT
    ensures Later(s, r.s) && (r.Vals? ==> r.s.instructions <= INSTRUCTION_LIMIT)
    decreases Budget(s), Depth(s), 6
  {
    match a
    case Invoke(f, args) => CallValue(w, f, args, s)
    case MakeTable =>
      var d := NewTable(w, s);
      if !d.ok then Stop(d.s) else Vals([TabV(|s.tables|)], d.s)
    case Store(t, k, v) => if t.TabV? then OfDone(TableSet(w, s, t.table, k, v)) else Stop(s)
    case Fetch(t, k) => TableGet(t, k, s)
    case Discard(t, k) => if t.TabV? then OfDone(TableRemove(s, t.table, k)) else Stop(s)
    case DeclareBook(v) => OfDone(Declare(w, v, s))
    case RunModule(i, p) => if i < |w.modules| then ExecModule(w, w.modules[i], p, s) else Stop(Fail(s, NativeFailed))
    case _ => Stop(s)
  }

  function OfDone(d: Done): (r: Result)
    ensures r.s == d.s
  {
    if d.ok then Vals([], d.s) else Stop(d.s)
  }

  /** `book { name = ... }`: once, outside modules, with the name of the source. */
  function Declare(w: World, v: Value, s: State): (d: Done)
    ensures SameClock(s, d.s)
  {
    if s.moduleDepth > 0 then Done(false, Fail(s, DeclaredInModule))
    else if !v.TabV? || s.declared || RowValue(RowsAt(s, v.table), StrV("name")) != StrV(w.bookName) then
      Done(false, Fail(s, BadDeclaration))
    else Done(true, s.(declared := true))
  }

  /** A module's code in a new scope below the globals, with its private name if it is trusted. */
  function ExecModule(w: World, code: seq<Stmt>, privates: Option<Value>, s: State): (r: Result)
    requires s.instructions <= INSTRUCTION_LIMIT
    ensures Later(s, r.s) && (r.Vals? ==> r.s.instructions <= INSTRUCTION_LIMIT)
    decreases Budget(s), Depth(s), 4
  {
    var d := NewScope(w, s, GLOBAL, true);
    if !d.ok then Stop(d.s)
    else
      var p := if privates.None? then d else Define(w, d.s, |d.s.scopes|, "_kami", privates.value);
      if !p.ok then Stop(p.s)
      else
        var r := OfBody(ExecBlock(w, code, |d.s.scopes|, p.s.(moduleDepth := p.s.moduleDepth + 1)));
        if r.Stop? then Stop(r.s.(moduleDepth := s.moduleDepth)) else Vals(r.vs, r.s.(moduleDepth := s.moduleDepth))
  }

  // ---- statements --------------------------------------------------------------------------

  function ExecBlock(w: World, ss: seq<Stmt>, env: nat, s: State): (f: Flow)
    requires s.instructions <= INSTRUCTION_LIMIT
    ensures Later(s, f.s) && (!f.Halted? ==> f.s.instructions <= INSTRUCTION_LIMIT)
    decreases Budget(s), Depth(s), 2
  {
    if ss == [] then Next(s)
    else
      var f := Exec(w, ss[0], env, s);
      if f.Next? then ExecBlock(w, ss[1..], env, f.s) else f
  }

  function Exec(w: World, st: Stmt, env: nat, s: State): (f: Flow)
    ensures Later(s, f.s) && (!f.Halted? ==> s.instructions < f.s.instructions <= INSTRUCTION_LIMIT)
    decreases Budget(s), Depth(s), 1
  {
    var d := Tick(w, s);
    if !d.ok then Halted(d.s) else ExecNode(w, st, env, d.s)
  }

  function ExecNode(w: World, st: Stmt, env: nat, s: State): (f: Flow)
    requires s.instructions <= INSTRUCTION_LIMIT
    ensures Later(s, f.s) && (!f.Halted? ==> f.s.instructions <= INSTRUCTION_LIMIT)
    decreases Budget(s), Depth(s), 9
  {
    match st
    case CallStmt(e) => ExecCall(w, e, env, s)
    case Assign(ts, vs) => ExecAssign(w, ts, vs, env, s)
    case LocalAssign(ns, vs) => ExecLocal(w, ns, vs, env, s)
    case IfStmt(arms, hasElse, last) => ExecArms(w, arms, hasElse, last, env, s)
    case WhileStmt(e, body) => ExecWhile(w, e, body, env, s)
    case ForNumeric(n, a, b, st, body) => ExecNumeric(w, n, a, b, st, body, env, s)
    case ForGeneric(ns, vs, body) => ExecGeneric(w, ns, vs, body, env, s)
    case BreakStmt => Broke(s)
    case ReturnStmt(vs) => ExecReturn(w, vs, env, s)
    case FunctionDecl(t, f) => ExecFunction(w, t, f, env, s)
    case LocalFunction(n, f) => ExecLocalFunction(w, n, f, env, s)
  }

  function OfDoneFlow(d: Done): (f: Flow)
    ensures f.s == d.s
  {
    if d.ok then Next(d.s) else Halted(d.s)
  }

  function ExecCall(w: World, e: Expr, env: nat, s: State): (f: Flow)
    requires s.instructions <= INSTRUCTION_LIMIT
    ensures Later(s, f.s) && (!f.Halted? ==> f.s.instructions <= INSTRUCTION_LIMIT)
    decreases Budget(s), Depth(s), 8
  {
    var r := Eval(w, e, env, s);
    if r.Stop? then Halted(r.s) else Next(r.s)
  }

  function ExecReturn(w: World, vs: seq<Expr>, env: nat, s: State): (f: Flow)
    requires s.instructions <= INSTRUCTION_LIMIT
    ensures Later(s, f.s) && (!f.Halted? ==> f.s.instructions <= INSTRUCTION_LIMIT)
    decreases Budget(s), Depth(s), 8
  {
    var r := EvalList(w, vs, [], env, s);
    if r.Stop? then Halted(r.s) else Returned(r.vs, r.s)
  }

  function ExecLocal(w: World, ns: seq<string>, vs: seq<Expr>, env: nat, s: State): (f: Flow)
    requires s.instructions <= INSTRUCTION_LIMIT
    ensures Later(s, f.s) && (!f.Halted? ==> f.s.instructions <= INSTRUCTION_LIMIT)
    decreases Budget(s), Depth(s), 8
  {
    var r := EvalList(w, vs, [], env, s);
    if r.Stop? then Halted(r.s) else OfDoneFlow(DefineAll(w, r.s, env, ns, r.vs))
  }

  function ExecAssign(w: World, ts: seq<Expr>, vs: seq<Expr>, env: nat, s: State): (f: Flow)
    requires s.instructions <= INSTRUCTION_LIMIT
    ensures Later(s, f.s) && (!f.Halted? ==> f.s.instructions <= INSTRUCTION_LIMIT)
    decreases Budget(s), Depth(s), 8
  {
    var r := EvalList(w, vs, [], env, s);
    if r.Stop? then Halted(r.s) else OfDoneFlow(AssignAll(w, ts, r.vs, env, r.s))
  }

  /** Destinations from left to right; a destination without a value gets nil. */
  function AssignAll(w: World, ts: seq<Expr>, values: seq<Value>, env: nat, s: State): (d: Done)
    requires s.instructions <= INSTRUCTION_LIMIT
    ensures Later(s, d.s) && (d.ok ==> d.s.instructions <= INSTRUCTION_LIMIT)
    decreases Budget(s), Depth(s), 7, ts
  {
    if ts == [] then Done(true, s)
    else
      var d := AssignTo(w, ts[0], First(values), env, s);
      if !d.ok then d else AssignAll(w, ts[1..], if values == [] then [] else values[1..], env, d.s)
  }

  function AssignTo(w: World, t: Expr, v: Value, env: nat, s: State): (d: Done)
    requires s.instructions <= INSTRUCTION_LIMIT
    ensures Later(s, d.s) && (d.ok ==> d.s.instructions <= INSTRUCTION_LIMIT)
    decreases Budget(s), Depth(s), 6
  {
    match t
    case Var(n) => Heap.Assign(w, s, env, n, v)
    case Member(b, n) =>
      var r := Eval(w, b, env, s);
      if r.Stop? then Done(false, r.s)
      else if !First(r.vs).TabV? then Done(false, Fail(r.s, NotATable))
      else
        var a := Allocate(w, r.s);
        if !a.ok then a else TableSet(w, a.s, First(r.vs).table, StrV(n), v)
    case Index(b, k) =>
      var q := Eval(w, b, env, s);
      if q.Stop? then Done(false, q.s)
      else
        var r := Eval(w, k, env, q.s);
        if r.Stop? then Done(false, r.s)
        else if !First(q.vs).TabV? then Done(false, Fail(r.s, NotATable))
        else TableSet(w, r.s, First(q.vs).table, First(r.vs), v)
    case _ => Done(false, Fail(s, BadDestination))
  }

  function ExecFunction(w: World, t: Expr, e: Expr, env: nat, s: State): (f: Flow)
    requires s.instructions <= INSTRUCTION_LIMIT
    ensures Later(s, f.s) && (!f.Halted? ==> f.s.instructions <= INSTRUCTION_LIMIT)
    decreases Budget(s), Depth(s), 8
  {
    var r := Eval(w, e, env, s);
    if r.Stop? then Halted(r.s) else OfDoneFlow(AssignTo(w, t, First(r.vs), env, r.s))
  }

  /** The name is declared before the function is made, so the function can call itself. */
  function ExecLocalFunction(w: World, n: string, e: Expr, env: nat, s: State): (f: Flow)
    requires s.instructions <= INSTRUCTION_LIMIT
    ensures Later(s, f.s) && (!f.Halted? ==> f.s.instructions <= INSTRUCTION_LIMIT)
    decreases Budget(s), Depth(s), 8
  {
    var d := Define(w, s, env, n, NilV);
    if !d.ok then Halted(d.s)
    else
      var r := Eval(w, e, env, d.s);
      if r.Stop? then Halted(r.s)
      else Next(WithScope(r.s, env, Rebind(ScopeAt(r.s.scopes, env), n, First(r.vs))))
  }

  /** The block of the first arm whose condition holds, or of `else`. */
  function ExecArms(w: World, arms: seq<Arm>, hasElse: bool, last: seq<Stmt>, env: nat, s: State): (f: Flow)
    requires s.instructions <= INSTRUCTION_LIMIT
    ensures Later(s, f.s) && (!f.Halted? ==> f.s.instructions <= INSTRUCTION_LIMIT)
    decreases Budget(s), Depth(s), 8, arms
  {
    if arms == [] then (if hasElse then ExecScoped(w, last, env, s) else Next(s))
    else
      var r := Eval(w, arms[0].guard, env, s);
      if r.Stop? then Halted(r.s)
      else if Truthy(First(r.vs)) then ExecScoped(w, arms[0].body, env, r.s)
      else ExecArms(w, arms[1..], hasElse, last, env, r.s)
  }

  /** A block in a scope of its own. */
  function ExecScoped(w: World, ss: seq<Stmt>, env: nat, s: State): (f: Flow)
    requires s.instructions <= INSTRUCTION_LIMIT
    ensures Later(s, f.s) && (!f.Halted? ==> f.s.instructions <= INSTRUCTION_LIMIT)
    decreases Budget(s), Depth(s), 3
  {
    var d := NewScope(w, s, env, false);
    if !d.ok then Halted(d.s) else ExecBlock(w, ss, |d.s.scopes|, d.s)
  }

  function ExecWhile(w: World, e: Expr, body: seq<Stmt>, env: nat, s: State): (f: Flow)
    requires s.instructions <= INSTRUCTION_LIMIT
    ensures Later(s, f.s) && (!f.Halted? ==> f.s.instructions <= INSTRUCTION_LIMIT)
    decreases Budget(s), Depth(s), 8
  {
    var r := Eval(w, e, env, s);
    if r.Stop? then Halted(r.s)
    else if !Truthy(First(r.vs)) then Next(r.s)
    else
      var f := ExecScoped(w, body, env, r.s);
      if f.Broke? then Next(f.s) else if f.Next? then ExecWhile(w, e, body, env, f.s) else f
  }

  function ExecNumeric(w: World, n: string, a: Expr, b: Expr, st: Option<Expr>, body: seq<Stmt>, env: nat, s: State): (f: Flow)
    requires s.instructions <= INSTRUCTION_LIMIT
    ensures Later(s, f.s) && (!f.Halted? ==> f.s.instructions <= INSTRUCTION_LIMIT)
    decreases Budget(s), Depth(s), 8
  {
    var p := Eval(w, a, env, s);
    if p.Stop? then Halted(p.s)
    else
      var q := Eval(w, b, env, p.s);
      if q.Stop? then Halted(q.s)
      else
        var r := EvalStep(w, st, env, q.s);
        if r.Stop? then Halted(r.s)
        else StartNumeric(w, n, First(p.vs), First(q.vs), First(r.vs), body, env, r.s)
  }

  function EvalStep(w: World, st: Option<Expr>, env: nat, s: State): (r: Result)
    requires s.instructions <= INSTRUCTION_LIMIT
    ensures Later(s, r.s) && (r.Vals? ==> r.s.instructions <= INSTRUCTION_LIMIT)
    decreases Budget(s), Depth(s), 7
  {
    if st.None? then Vals([NumV(1.0)], s) else Eval(w, st.value, env, s)
  }

  function StartNumeric(w: World, n: string, a: Value, b: Value, c: Value, body: seq<Stmt>, env: nat, s: State): (f: Flow)
    requires s.instructions <= INSTRUCTION_LIMIT
    ensures Later(s, f.s) && (!f.Halted? ==> f.s.instructions <= INSTRUCTION_LIMIT)
    decreases Budget(s), Depth(s), 7
  {
    if !a.NumV? || !b.NumV? || !c.NumV? || c.num == 0.0 then Halted(Fail(s, BadLoopBounds))
    else
      var d := NewScope(w, s, env, false);
      if !d.ok then Halted(d.s)
      else
        var g := Define(w, d.s, |d.s.scopes|, n, a);
        if !g.ok then Halted(g.s) else NumericLoop(w, n, a.num, b.num, c.num, body, |d.s.scopes|, g.s)
  }

  predicate InRange(current: real, last: real, step: real) { if step > 0.0 then current <= last else current >= last }

  function NumericLoop(w: World, n: string, current: real, last: real, step: real, body: seq<Stmt>, loop: nat, s: State): (f: Flow)
    requires s.instructions <= INSTRUCTION_LIMIT
    ensures Later(s, f.s) && (!f.Halted? ==> f.s.instructions <= INSTRUCTION_LIMIT)
    decreases Budget(s), Depth(s), 6
  {
    if !InRange(current, last, step) then Next(s)
    else
      var d := Tick(w, s);
      if !d.ok then Halted(d.s)
      else
        var f := ExecScoped(w, body, loop, WithScope(d.s, loop, Rebind(ScopeAt(d.s.scopes, loop), n, NumV(current))));
        if f.Broke? then Next(f.s)
        else if f.Next? then NumericLoop(w, n, current + step, last, step, body, loop, f.s)
        else f
  }

  function ExecGeneric(w: World, ns: seq<string>, vs: seq<Expr>, body: seq<Stmt>, env: nat, s: State): (f: Flow)
    requires s.instructions <= INSTRUCTION_LIMIT
    ensures Later(s, f.s) && (!f.Halted? ==> f.s.instructions <= INSTRUCTION_LIMIT)
    decreases Budget(s), Depth(s), 8
  {
    var r := EvalList(w, vs, [], env, s);
    if r.Stop? then Halted(r.s)
    else
      var d := NewScope(w, r.s, env, false);
      if !d.ok then Halted(d.s)
      else GenericLoop(w, ns, Nth(r.vs, 0), Nth(r.vs, 1), Nth(r.vs, 2), body, |d.s.scopes|, d.s)
  }

  function GenericLoop(w: World, ns: seq<string>, source: Value, fixed: Value, control: Value, body: seq<Stmt>, loop: nat, s: State): (f: Flow)
    requires s.instructions <= INSTRUCTION_LIMIT
    ensures Later(s, f.s) && (!f.Halted? ==> f.s.instructions <= INSTRUCTION_LIMIT)
    decreases Budget(s), Depth(s), 6
  {
    var d := Tick(w, s);
    if !d.ok then Halted(d.s)
    else
      var r := CallValue(w, source, [fixed, control], d.s);
      if r.Stop? then Halted(r.s)
      else if First(r.vs) == NilV then Next(r.s)
      else
        var f := ExecIteration(w, ns, r.vs, body, loop, r.s);
        if f.Broke? then Next(f.s)
        else if f.Next? then GenericLoop(w, ns, source, fixed, First(r.vs), body, loop, f.s)
        else f
  }

  /** One round of a generic loop: its names in a scope of their own. */
  function ExecIteration(w: World, ns: seq<string>, vs: seq<Value>, body: seq<Stmt>, loop: nat, s: State): (f: Flow)
    requires s.instructions <= INSTRUCTION_LIMIT
    ensures Later(s, f.s) && (!f.Halted? ==> f.s.instructions <= INSTRUCTION_LIMIT)
    decreases Budget(s), Depth(s), 3
  {
    var d := NewScope(w, s, loop, false);
    if !d.ok then Halted(d.s)
    else
      var g := DefineAll(w, d.s, |d.s.scopes|, ns, vs);
      if !g.ok then Halted(g.s) else ExecBlock(w, body, |d.s.scopes|, g.s)
  }

  /** A whole Book: its statements in the global scope, which must declare the Book. Success clears a
      fault that a native went on after. */
  function Run(w: World, code: seq<Stmt>, s: State): (r: Result)
    requires s.instructions <= INSTRUCTION_LIMIT
  {
    var r := OfBody(ExecBlock(w, code, GLOBAL, s));
    if r.Stop? then r
    else if !r.s.declared then Stop(Fail(r.s, NotDeclared))
    else Vals(r.vs, r.s.(fault := r.s.fault.(first := None)))
  }
}
