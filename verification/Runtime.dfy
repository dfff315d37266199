/** The tree-walking executor: it follows the links of the program's arena and updates the heap in
    place, and every run does exactly what the program means. A node of an impossible kind, a
    missing node or a missing list entry is never met: each place where one would be is an
    assertion. */
module Executor {
  import opened Tokens
  import opened Syntax
  import opened Arena
  import opened Trees
  import opened Values
  import opened Heap
  import opened Semantics
  import opened SemanticsSteps
  import opened Shapes
  import Strings

  /** A function value as the executor stores it: a node of one of the programs. */
  datatype FunctionValue = FunctionValue(program: nat, node: nat, closure: nat)

  ghost predicate HoldsFunction(programs: seq<Program>, f: FunctionValue, c: Closure) {
    && f.program < |programs|
    && HoldsExpr(programs[f.program], f.node, FunctionLit(c.params, c.variadic, c.code))
    && f.closure == c.scope
  }

  /** Everything code is reached through: each module's arena holds the module's code, and each
      function value is a node that holds the closure's code in the arena it was made in. */
  datatype Linkage = Linkage(programs: seq<Program>, modules: seq<seq<Stmt>>, functions: seq<FunctionValue>, closures: seq<Closure>)

  ghost predicate Linked(l: Linkage) {
    match l
    case Linkage(ps, ms, fs, cs) =>
      && |ps| == |ms| + 1
      && |fs| == |cs|
      && (forall i :: 0 <= i < |ms| ==> HoldsBlock(ps[i + 1], ps[i + 1].root, ms[i]))
      && (forall i :: 0 <= i < |fs| ==> HoldsFunction(ps, fs[i], cs[i]))
  }

  lemma ModuleHeld(l: Linkage, i: nat)
    requires Linked(l) && i < |l.modules|
    ensures |l.programs| == |l.modules| + 1 && HoldsBlock(l.programs[i + 1], l.programs[i + 1].root, l.modules[i])
  {
  }

  lemma FunctionHeld(l: Linkage, i: nat)
    requires Linked(l) && (i < |l.functions| || i < |l.closures|)
    ensures |l.functions| == |l.closures| && HoldsFunction(l.programs, l.functions[i], l.closures[i])
  {
  }

  lemma FunctionAdded(l: Linkage, f: FunctionValue, c: Closure)
    requires Linked(l) && HoldsFunction(l.programs, f, c)
    ensures Linked(l.(functions := l.functions + [f], closures := l.closures + [c]))
  {
    hide HoldsFunction, HoldsBlock;
  }

  /** Every function value was made in a scope that exists. */
  datatype Reach = Reach(functions: seq<FunctionValue>, scopes: nat)

  ghost predicate ScopesExist(r: Reach) {
    match r
    case Reach(fs, n) => forall i :: 0 <= i < |fs| ==> 0 < fs[i].closure <= n
  }

  lemma ScopesStillExist(fs: seq<FunctionValue>, n: nat, m: nat)
    requires ScopesExist(Reach(fs, n)) && n <= m
    ensures ScopesExist(Reach(fs, m))
  {
  }

  lemma ScopeOf(fs: seq<FunctionValue>, n: nat, i: nat)
    requires ScopesExist(Reach(fs, n)) && i < |fs|
    ensures 0 < fs[i].closure <= n
  {
  }

  lemma FunctionInScope(fs: seq<FunctionValue>, n: nat, f: FunctionValue)
    requires ScopesExist(Reach(fs, n)) && 0 < f.closure <= n
    ensures ScopesExist(Reach(fs + [f], n))
  {
  }

  /** Scopes point outwards, to scopes made before them. */
  type Scopes = s: seq<Scope> | forall i :: 0 <= i < |s| ==> s[i].parent <= i
  type Steps = n: nat | n <= INSTRUCTION_LIMIT
  type Calls = n: nat | n <= DEPTH_LIMIT

  /** A program that holds a node is one of the programs, not the empty stand-in. */
  lemma InProgram(p: Program, id: nat, e: Expr)
    requires HoldsExpr(p, id, e)
    ensures p.cells != []
  {
    hide ExprTree;
    ExprNode(p, id, e);
  }

  lemma LinkedSizes(l: Linkage)
    requires Linked(l)
    ensures |l.functions| == |l.closures|
  {
  }

  predicate IsLeafExpr(e: Expr) {
    !e.TableLit? && !e.Unary? && !e.Binary? && !e.Member? && !e.Index? && !e.Call?
  }

  class Runtime {
    const w: World
    const programs: seq<Program>
    var program: nat
    var scopes: Scopes
    var tables: seq<Table>
    var functions: seq<FunctionValue>
    var instructions: Steps
    var callDepth: Calls
    var moduleDepth: nat
    var bindings: nat
    var tableEntries: nat
    var allocations: nat
    var log: seq<Event>
    var declared: bool
    var fault: Faults
    ghost var closures: seq<Closure>

    /** A heap that holds the globals and no Book functions yet, the Book's own program first, and
        the modules' programs after it. */
    constructor (w: World, programs: seq<Program>, start: State)
      requires start.closures == [] && start.instructions <= INSTRUCTION_LIMIT && start.callDepth <= DEPTH_LIMIT
      requires forall i :: 0 <= i < |start.scopes| ==> start.scopes[i].parent <= i
      requires |programs| == |w.modules| + 1
      requires forall i :: 0 <= i < |w.modules| ==> HoldsBlock(programs[i + 1], programs[i + 1].root, w.modules[i])
      ensures Valid() && Now() == start && Current() == programs[0] && this.w == w
    {
      hide HoldsBlock;
      this.w, this.programs, program := w, programs, 0;
      scopes, tables, functions, closures := start.scopes, start.tables, [], [];
      instructions, callDepth, moduleDepth := start.instructions, start.callDepth, start.moduleDepth;
      bindings, tableEntries, allocations, log := start.bindingCount, start.entryCount, start.allocations, start.log;
      declared, fault := start.declared, start.fault;
    }

    ghost predicate Valid()
      reads `functions, `closures, `scopes
    {
      Linked(Linkage(programs, w.modules, functions, closures)) && ScopesExist(Reach(functions, |scopes|))
    }

    predicate IsScope(id: nat)
      reads `scopes
    {
      0 < id <= |scopes|
    }

    /** Scopes are never given up, and the executor is back in the program it was in. */
    twostate predicate Kept()
      reads this
    {
      |old(scopes)| <= |scopes| && program == old(program)
    }

    /** The heap with each function value as the closure it stands for. */
    ghost function Now(): (s: State)
      reads `scopes, `tables, `closures, `instructions, `callDepth, `moduleDepth, `bindings, `tableEntries, `allocations,
            `log, `declared, `fault
      ensures s.instructions <= INSTRUCTION_LIMIT
    {
      State(scopes, tables, closures, instructions, callDepth, moduleDepth, bindings, tableEntries, allocations, log, declared,
            fault)
    }

    function Current(): Program
      reads `program
    {
      if program < |programs| then programs[program] else Program([], [], 0)
    }

    // ---- faults, time and memory -----------------------------------------------------------

    method FailWith(f: Fault)
      modifies `fault
      ensures Now() == Fail(old(Now()), f)
    {
      fault := WithFault(fault, f);
    }

    method Step() returns (ok: bool)
      modifies `instructions, `log, `fault
      ensures Does(Tick(w, old(Now())), ok, Now())
    {
      if instructions % 256 == 0 && w.expired(instructions) {
        log := log + [Deadline];
        FailWith(DeadlinePassed);
        return false;
      }
      if instructions >= INSTRUCTION_LIMIT {
        FailWith(OutOfInstructions);
        return false;
      }
      instructions := instructions + 1;
      return true;
    }

    method Alloc() returns (ok: bool)
      modifies `allocations, `fault
      ensures Does(Allocate(w, old(Now())), ok, Now())
    {
      ok := w.grants(allocations);
      allocations := allocations + 1;
      if !ok {
        FailWith(OutOfMemory);
      }
    }

    // ---- scopes ----------------------------------------------------------------------------

    method OpenScope(parent: nat, isFunction: bool) returns (ok: bool, id: nat)
      requires Valid() && IsScope(parent)
      modifies `scopes, `allocations, `fault
      ensures Valid() && Kept()
      ensures Does(NewScope(w, old(Now()), parent, isFunction), ok, Now())
      ensures ok ==> id == |Now().scopes| && IsScope(id)
    {
      ScopesStillExist(functions, |scopes|, |scopes| + 1);
      ok := Alloc();
      id := 0;
      if ok {
        scopes := scopes + [Scope(parent, [], 0, isFunction, [])];
        id := |scopes|;
      }
    }

    /** The position of a name in one scope. */
    method FindLocal(id: nat, name: string) returns (i: nat)
      ensures i == IndexOf(ScopeAt(scopes, id).bindings, name)
    {
      var bs := ScopeAt(scopes, id).bindings;
      i := 0;
      while i < |bs| && bs[i].name != name
        invariant i <= |bs|
        invariant IndexOf(bs, name) == i + IndexOf(bs[i..], name)
      {
        assert bs[i..][1..] == bs[i + 1..];
        i := i + 1;
      }
    }

    /** The innermost scope that binds a name, and the position in it. */
    method Find(env: nat, name: string) returns (id: nat, i: nat)
      ensures id == FindScope(scopes, env, name)
      ensures id > 0 ==> id <= |scopes| && i == IndexOf(scopes[id - 1].bindings, name)
    {
      id, i := env, 0;
      while 0 < id <= |scopes|
        invariant FindScope(scopes, env, name) == FindScope(scopes, id, name)
        decreases id
      {
        i := FindLocal(id, name);
        if i < |scopes[id - 1].bindings| { return; }
        id := scopes[id - 1].parent;
      }
      id := 0;
    }

    method SetBinding(id: nat, i: nat, value: Value)
      requires 0 < id <= |scopes| && i < |scopes[id - 1].bindings|
      requires i == IndexOf(scopes[id - 1].bindings, scopes[id - 1].bindings[i].name)
      modifies `scopes
      ensures |scopes| == |old(scopes)|
      ensures Now() == Rebound(old(Now()), id, old(scopes[id - 1].bindings[i].name), value)
    {
      var scope := scopes[id - 1];
      scopes := scopes[id - 1 := scope.(bindings := scope.bindings[i := Binding(scope.bindings[i].name, value)])];
    }

    method Reserve(env: nat) returns (ok: bool)
      requires 0 < env <= |scopes|
      modifies `scopes, `allocations, `fault
      ensures Does(ReserveBinding(w, old(Now()), env), ok, Now()) && |scopes| == |old(scopes)|
    {
      var scope := scopes[env - 1];
      if |scope.bindings| < scope.capacity { return true; }
      var next := if scope.capacity > 0 then scope.capacity * 2 else 8;
      if next > BINDING_LIMIT || bindings > BINDING_LIMIT {
        FailWith(TooManyBindings);
        return false;
      }
      ok := Alloc();
      if ok {
        scopes := scopes[env - 1 := scope.(capacity := next)];
      }
    }

    /** Declare a name in one scope. */
    method DefineName(env: nat, name: string, value: Value) returns (ok: bool)
      requires Valid() && IsScope(env)
      modifies `scopes, `bindings, `allocations, `fault
      ensures Valid() && Kept()
      ensures Does(Define(w, old(Now()), env, name, value), ok, Now())
    {
      hide Allocate, ReserveBinding, AddBinding, Fail, WithScope;
      ok := Alloc();
      if !ok { return; }
      var i := FindLocal(env, name);
      if i < |scopes[env - 1].bindings| {
        SetBinding(env, i, value);
        return;
      }
      if bindings >= BINDING_LIMIT {
        FailWith(TooManyBindings);
        return false;
      }
      ok := Reserve(env);
      if ok { AppendBinding(env, name, value); }
    }

    method AppendBinding(env: nat, name: string, value: Value)
      requires IsScope(env)
      modifies `scopes, `bindings
      ensures Now() == AddBinding(old(Now()), env, name, value) && |scopes| == |old(scopes)|
    {
      var scope := scopes[env - 1];
      scopes := scopes[env - 1 := scope.(bindings := scope.bindings + [Binding(name, value)])];
      bindings := bindings + 1;
    }

    method AssignName(env: nat, name: string, value: Value) returns (ok: bool)
      requires Valid() && IsScope(env)
      modifies `scopes, `bindings, `allocations, `fault
      ensures Valid() && Kept()
      ensures Does(Heap.Assign(w, old(Now()), env, name, value), ok, Now())
    {
      var id, i := Find(env, name);
      if id > 0 {
        SetBinding(id, i, value);
        ok := true;
      } else {
        ok := DefineName(GLOBAL, name, value);
      }
    }

    method ReadName(env: nat, name: string) returns (value: Value)
      ensures value == Lookup(Now(), env, name)
    {
      var id, i := Find(env, name);
      value := if id > 0 then scopes[id - 1].bindings[i].value else NilV;
    }

    /** The scope of the innermost call. */
    method FindCall(env: nat) returns (id: nat)
      ensures id == CallScope(scopes, env)
    {
      id := env;
      while 0 < id <= |scopes| && !scopes[id - 1].isFunction
        invariant CallScope(scopes, env) == CallScope(scopes, id)
        decreases id
      {
        id := scopes[id - 1].parent;
      }
      if id > |scopes| { id := 0; }
    }

    // ---- tables ----------------------------------------------------------------------------

    method MakeTable() returns (ok: bool, t: nat)
      modifies `tables, `allocations, `fault
      ensures Does(NewTable(w, old(Now())), ok, Now())
      ensures ok ==> t == |Now().tables| - 1 && t == |old(Now()).tables|
    {
      ok := Alloc();
      t := |tables|;
      if ok {
        tables := tables + [Table([], 0)];
      }
    }

    method FindRow(t: nat, k: Value) returns (i: nat)
      requires t < |tables|
      ensures i == RowOf(tables[t].rows, k)
    {
      var rows := tables[t].rows;
      i := 0;
      while i < |rows| && rows[i].key != k
        invariant i <= |rows|
        invariant RowOf(rows, k) == i + RowOf(rows[i..], k)
      {
        assert rows[i..][1..] == rows[i + 1..];
        i := i + 1;
      }
    }

    method DropRow(t: nat, i: nat)
      requires t < |tables| && i < |tables[t].rows|
      modifies `tables, `tableEntries
      ensures Now() == TableDrop(old(Now()), t, i)
    {
      var table := tables[t];
      tables := tables[t := table.(rows := table.rows[..i] + table.rows[i + 1..])];
      if tableEntries > 0 {
        tableEntries := tableEntries - 1;
      }
    }

    method ReserveEntry(t: nat) returns (ok: bool)
      requires t < |tables|
      modifies `tables, `allocations, `fault
      ensures Does(ReserveRow(w, old(Now()), t), ok, Now()) && |tables| == |old(tables)|
    {
      var table := tables[t];
      if |table.rows| < table.capacity { return true; }
      var next := if table.capacity > 0 then table.capacity * 2 else 8;
      if next > ENTRY_LIMIT {
        FailWith(TooManyEntries);
        return false;
      }
      ok := Alloc();
      if ok {
        tables := tables[t := table.(capacity := next)];
      }
    }

    /** table[k] := v; nil removes the key and shifts the rows after it. */
    method SetEntry(t: nat, k: Value, v: Value) returns (ok: bool)
      modifies `tables, `tableEntries, `allocations, `fault
      ensures Does(TableSet(w, old(Now()), t, k, v), ok, Now()) && |tables| == |old(tables)|
    {
      if t >= |tables| { return false; }
      if KeyFault(k).Some? {
        FailWith(KeyFault(k).value);
        return false;
      }
      var i := FindRow(t, k);
      if i < |tables[t].rows| {
        if v == NilV {
          DropRow(t, i);
        } else {
          var table := tables[t];
          tables := tables[t := table.(rows := table.rows[i := Row(table.rows[i].key, v)])];
        }
        return true;
      }
      if v == NilV { return true; }
      if tableEntries >= ENTRY_LIMIT {
        FailWith(TooManyEntries);
        return false;
      }
      ok := ReserveEntry(t);
      if ok {
        tables := tables[t := tables[t].(rows := tables[t].rows + [Row(k, v)])];
        tableEntries := tableEntries + 1;
      }
    }

    method RemoveEntry(t: nat, k: Value) returns (ok: bool)
      modifies `tables, `tableEntries, `fault
      ensures Does(TableRemove(old(Now()), t, k), ok, Now())
    {
      if t >= |tables| { return false; }
      if KeyFault(k).Some? {
        FailWith(KeyFault(k).value);
        return false;
      }
      var i := FindRow(t, k);
      if i < |tables[t].rows| {
        DropRow(t, i);
      }
      ok := true;
    }

    /** A key's value, without looking at whether the key is allowed. */
    method ReadRow(t: nat, k: Value) returns (v: Value)
      ensures v == RowValue(RowsAt(Now(), t), k)
    {
      if t >= |tables| { return NilV; }
      var i := FindRow(t, k);
      v := if i < |tables[t].rows| then tables[t].rows[i].value else NilV;
    }

    method ReadEntry(base: Value, k: Value) returns (ok: bool, vs: seq<Value>)
      modifies `fault
      ensures Gives(Semantics.TableGet(base, k, old(Now())), ok, vs, Now())
    {
      vs := [];
      if !base.TabV? {
        FailWith(NotATable);
        return false, [];
      }
      if KeyFault(k).Some? {
        FailWith(KeyFault(k).value);
        return false, [];
      }
      var v := ReadRow(base.table, k);
      return true, [v];
    }

    method TableLength(t: nat) returns (n: nat)
      ensures n == Border(RowsAt(Now(), t))
    {
      var rows := if t < |tables| then tables[t].rows else [];
      n := 0;
      while true
        invariant Consecutive(rows, n) && BorderFrom(rows, 0) == BorderFrom(rows, n)
        invariant n <= |rows|
        decreases |rows| - n
      {
        var v := ReadRow(t, NumV((n + 1) as real));
        if v == NilV { return; }
        ConsecutiveFits(rows, n + 1);
        n := n + 1;
      }
    }

    // ---- expressions -----------------------------------------------------------------------

    method Eval(env: nat, id: nat, ghost e: Expr) returns (ok: bool, vs: seq<Value>)
      requires Valid() && IsScope(env)
      requires HoldsExpr(Current(), id, e)
      modifies this
      ensures Valid() && Kept()
      ensures Gives(Semantics.Eval(w, e, env, old(Now())), ok, vs, Now())
      decreases Budget(Now()), Depth(Now()), 1
    {
      hide Linked, ScopesExist, Now, HoldsExpr, Tick, Semantics.EvalNode, Semantics.Eval;
      ghost var s := Now();
      vs := [];
      SemanticsSteps.EvalStep(w, e, env, s);
      TickCounts(w, s);
      ok := Step();
      if ok {
        ok, vs := EvalNode(env, id, e);
      }
    }

    method EvalNode(env: nat, id: nat, ghost e: Expr) returns (ok: bool, vs: seq<Value>)
      requires Valid() && IsScope(env)
      requires HoldsExpr(Current(), id, e)
      modifies this
      ensures Valid() && Kept()
      ensures Gives(Semantics.EvalNode(w, e, env, old(Now())), ok, vs, Now())
      decreases Budget(Now()), Depth(Now()), 9
    {
      hide Linked, ScopesExist, Now, HoldsExpr, Semantics.EvalNode, Semantics.EvalTable, Semantics.EvalUnary,
           Semantics.EvalBinary, Semantics.EvalMember, Semantics.EvalIndex, Semantics.EvalCall;
      ghost var s := Now();
      ExprNode(Current(), id, e);
      NodeStep(w, e, env, s);
      var kind := NodeAt(Current(), id).tag.kind;
      if kind == TableNode {
        ok, vs := EvalTable(env, id, e);
      } else if kind == UnaryNode {
        ok, vs := EvalUnary(env, id, e);
      } else if kind == BinaryNode {
        ok, vs := EvalBinary(env, id, e);
      } else if kind == FieldNode {
        ok, vs := EvalMember(env, id, e);
      } else if kind == IndexNode {
        ok, vs := EvalIndex(env, id, e);
      } else if kind == CallNode {
        ok, vs := EvalCall(env, id, e);
      } else {
        ok, vs := EvalLeaf(env, id, e);
      }
    }

    /** Expressions without operands. */
    method EvalLeaf(env: nat, id: nat, ghost e: Expr) returns (ok: bool, vs: seq<Value>)
      requires Valid() && IsScope(env)
      requires HoldsExpr(Current(), id, e) && IsLeafExpr(e)
      modifies `allocations, `functions, `closures, `fault
      ensures Valid() && Kept()
      ensures Gives(Semantics.EvalNode(w, e, env, old(Now())), ok, vs, Now())
    {
      hide Linked, ScopesExist, Now, HoldsExpr, Semantics.EvalNode, EvalNumeral, EvalString, EvalVararg,
           Semantics.EvalFunction, Lookup, Fail, Allocate, FieldTrees, ExprTrees, StmtTrees, NameTrees;
      ExprNode(Current(), id, e);
      LeafStep(w, e, env, Now());
      var tag := NodeAt(Current(), id).tag;
      match tag.kind
      case NilNode => return true, [NilV];
      case BooleanNode => return true, [BoolV(tag.flags != 0)];
      case NumberNode => ok, vs := Numeral(tag.text);
      case StringNode => ok, vs := Literal(tag.text);
      case VariableNode =>
        var v := ReadName(env, tag.text);
        return true, [v];
      case VarargNode => ok, vs := Varargs(env);
      case FunctionNode => ok, vs := MakeFunction(env, id, e);
      case _ => assert false;
    }

    method Numeral(text: string) returns (ok: bool, vs: seq<Value>)
      modifies `fault
      ensures Gives(EvalNumeral(w, text, old(Now())), ok, vs, Now())
    {
      var n := w.numeral(text);
      ok, vs := n.Some?, [];
      if ok {
        vs := [NumV(n.value)];
      } else {
        FailWith(BadNumeral);
      }
    }

    method Literal(text: string) returns (ok: bool, vs: seq<Value>)
      modifies `allocations, `fault
      ensures Gives(EvalString(w, text, old(Now())), ok, vs, Now())
    {
      vs := [];
      ok := Alloc();
      if ok {
        var decoded := Strings.Decoded(text);
        ok := decoded.Some?;
        if ok {
          vs := [StrV(decoded.value)];
        } else {
          FailWith(BadString);
        }
      }
    }

    method Varargs(env: nat) returns (ok: bool, vs: seq<Value>)
      modifies `fault
      ensures Gives(EvalVararg(env, old(Now())), ok, vs, Now())
    {
      var c := FindCall(env);
      ok, vs := false, [];
      if c == 0 {
        FailWith(NoVarargs);
      } else if |scopes[c - 1].extras| > MULTI_LIMIT {
        FailWith(TooManyValues);
      } else {
        ok, vs := true, scopes[c - 1].extras;
      }
    }

    /** A function value remembers its node, the program the node is in, and the scope. */
    method MakeFunction(env: nat, id: nat, ghost e: Expr) returns (ok: bool, vs: seq<Value>)
      requires Valid() && IsScope(env)
      requires HoldsExpr(Current(), id, e) && e.FunctionLit?
      modifies `allocations, `functions, `closures, `fault
      ensures Valid() && Kept()
      ensures Gives(Semantics.EvalFunction(w, Closure(e.params, e.variadic, e.code, env), old(Now())), ok, vs, Now())
    {
      hide Linked, ScopesExist, HoldsExpr, Fail;
      ghost var l := Linkage(programs, w.modules, functions, closures);
      vs := [];
      InProgram(Current(), id, e);
      LinkedSizes(l);
      ok := Alloc();
      if ok {
        var f := FunctionValue(program, id, env);
        ghost var c := Closure(e.params, e.variadic, e.code, env);
        FunctionAdded(l, f, c);
        FunctionInScope(functions, |scopes|, f);
        vs := [FunV(|functions|)];
        functions := functions + [f];
        closures := closures + [c];
      }
    }

    method EvalUnary(env: nat, id: nat, ghost e: Expr) returns (ok: bool, vs: seq<Value>)
      requires Valid() && IsScope(env)
      requires HoldsExpr(Current(), id, e) && e.Unary?
      modifies this
      ensures Valid() && Kept()
      ensures Gives(Semantics.EvalUnary(w, e.uop, e.operand, env, old(Now())), ok, vs, Now())
      decreases Budget(Now()), Depth(Now()), 8
    {
      hide Linked, ScopesExist, Now, HoldsExpr, Semantics.Eval, Semantics.EvalUnary, Semantics.FinishUnary;
      ghost var s := Now();
      ExprNode(Current(), id, e);
      UnaryAt(Current(), id, e);
      UnaryStep(w, e.uop, e.operand, env, s);
      var node := NodeAt(Current(), id);
      ok, vs := Eval(env, node.links.a, e.operand);
      if ok {
        ok, vs := FinishUnary(node.tag.op, First(vs));
      }
    }

    method FinishUnary(op: Kind, v: Value) returns (ok: bool, vs: seq<Value>)
      modifies `fault
      ensures Gives(Semantics.FinishUnary(op, v, old(Now())), ok, vs, Now())
    {
      hide UnaryOp, Border;
      var length := 0;
      if v.TabV? {
        length := TableLength(v.table);
      }
      ok, vs := Finish(UnaryOp(op, v, length));
    }

    /** An operator's value, or the fault it is refused with, if it gives one. */
    method Finish(r: Operated) returns (ok: bool, vs: seq<Value>)
      modifies `fault
      ensures ok == r.Made? && (ok ==> vs == [r.value] && Now() == old(Now()))
      ensures !ok ==> Now() == Refuse(old(Now()), r.why)
    {
      ok, vs := r.Made?, [];
      if ok {
        vs := [r.value];
      } else if r.why.Some? {
        FailWith(r.why.value);
      }
    }

    method EvalBinary(env: nat, id: nat, ghost e: Expr) returns (ok: bool, vs: seq<Value>)
      requires Valid() && IsScope(env)
      requires HoldsExpr(Current(), id, e) && e.Binary?
      modifies this
      ensures Valid() && Kept()
      ensures Gives(Semantics.EvalBinary(w, e.bop, e.left, e.right, env, old(Now())), ok, vs, Now())
      decreases Budget(Now()), Depth(Now()), 8
    {
      hide Linked, ScopesExist, Now, HoldsExpr, ExprOk, Semantics.Eval, Semantics.EvalBinary, Semantics.FinishBinary, ShortCircuits,
           First, Truthy;
      ghost var s := Now();
      ExprNode(Current(), id, e);
      BinaryAt(Current(), id, e);
      BinaryStep(w, e.bop, e.left, e.right, env, s);
      var node := NodeAt(Current(), id);
      var op := node.tag.op;
      ok, vs := Eval(env, node.links.a, e.left);
      if ok {
        var left := First(vs);
        if ShortCircuits(op, left) {
          vs := [left];
        } else {
          ok, vs := Eval(env, node.links.b, e.right);
          if ok {
            if op == And || op == Or {
              vs := [First(vs)];
            } else {
              ok, vs := FinishBinary(op, left, First(vs));
            }
          }
        }
      }
    }

    method FinishBinary(op: Kind, l: Value, r: Value) returns (ok: bool, vs: seq<Value>)
      modifies `allocations, `fault
      ensures Gives(Semantics.FinishBinary(w, op, l, r, old(Now())), ok, vs, Now())
    {
      hide Now, CompareOp, Arithmetic, FinishConcat, Semantics.FinishBinary, IsComparison, Refuse, Operate;
      FinishEasily(w, l, r, Now());
      ok, vs := true, [];
      if op == EqualEqual {
        vs := [BoolV(l == r)];
      } else if op == NotEqual {
        vs := [BoolV(l != r)];
      } else if op == Concat {
        ok, vs := JoinStrings(l, r);
      } else {
        FinishOperator(w, op, l, r, Now());
        ok, vs := Finish(Operate(op, l, r, w.overflow));
      }
    }

    method JoinStrings(l: Value, r: Value) returns (ok: bool, vs: seq<Value>)
      modifies `allocations, `fault
      ensures Gives(FinishConcat(w, l, r, old(Now())), ok, vs, Now())
    {
      var a, b := ConcatText(l, w.show), ConcatText(r, w.show);
      ok, vs := a.Some? && b.Some?, [];
      if !ok {
        FailWith(BadOperand);
        return;
      }
      ok := Alloc();
      if ok {
        vs := [StrV(a.value + b.value)];
      }
    }

    method EvalMember(env: nat, id: nat, ghost e: Expr) returns (ok: bool, vs: seq<Value>)
      requires Valid() && IsScope(env)
      requires HoldsExpr(Current(), id, e) && e.Member?
      modifies this
      ensures Valid() && Kept()
      ensures Gives(Semantics.EvalMember(w, e.base, e.field, env, old(Now())), ok, vs, Now())
      decreases Budget(Now()), Depth(Now()), 8
    {
      hide Linked, ScopesExist, Now, HoldsExpr, Semantics.Eval, Semantics.EvalMember, RowValue, RowsAt, Fail;
      ghost var s := Now();
      ExprNode(Current(), id, e);
      MemberAt(Current(), id, e);
      MemberStep(w, e.base, e.field, env, s);
      var node := NodeAt(Current(), id);
      ok, vs := Eval(env, node.links.a, e.base);
      if ok {
        var base := First(vs);
        ok := base.TabV?;
        if ok {
          var v := ReadRow(base.table, StrV(node.tag.text));
          vs := [v];
        } else {
          FailWith(NotATable);
        }
      }
    }

    method EvalIndex(env: nat, id: nat, ghost e: Expr) returns (ok: bool, vs: seq<Value>)
      requires Valid() && IsScope(env)
      requires HoldsExpr(Current(), id, e) && e.Index?
      modifies this
      ensures Valid() && Kept()
      ensures Gives(Semantics.EvalIndex(w, e.base, e.key, env, old(Now())), ok, vs, Now())
      decreases Budget(Now()), Depth(Now()), 8
    {
      hide Linked, ScopesExist, Now, HoldsExpr, Semantics.Eval, Semantics.EvalIndex, Semantics.TableGet;
      ghost var s := Now();
      IndexAt(Current(), id, e);
      IndexStep(w, e.base, e.key, env, s);
      var node := NodeAt(Current(), id);
      ok, vs := Eval(env, node.links.a, e.base);
      if ok {
        var base := First(vs);
        ok, vs := Eval(env, node.links.b, e.key);
        if ok {
          ok, vs := ReadEntry(base, First(vs));
        }
      }
    }

    method EvalCall(env: nat, id: nat, ghost e: Expr) returns (ok: bool, vs: seq<Value>)
      requires Valid() && IsScope(env)
      requires HoldsExpr(Current(), id, e) && e.Call?
      modifies this
      ensures Valid() && Kept()
      ensures Gives(Semantics.EvalCall(w, e.callee, e.args, env, old(Now())), ok, vs, Now())
      decreases Budget(Now()), Depth(Now()), 8
    {
      hide Linked, ScopesExist, Now, HoldsExpr, HoldsExprs, Semantics.Eval, Semantics.EvalCall, Semantics.EvalList,
           Semantics.CallValue;
      ghost var s := Now();
      CallAt(Current(), id, e);
      CallStep(w, e.callee, e.args, env, s);
      var node := NodeAt(Current(), id);
      ok, vs := Eval(env, node.links.a, e.callee);
      if ok {
        var callee := First(vs);
        ok, vs := EvalList(env, node.links.list1, e.args);
        if ok {
          ok, vs := CallValue(callee, vs);
        }
      }
    }

    method EvalList(env: nat, list: nat, ghost es: seq<Expr>) returns (ok: bool, vs: seq<Value>)
      requires Valid() && IsScope(env)
      requires HoldsExprs(Current(), list, es)
      modifies this
      ensures Valid() && Kept()
      ensures Gives(Semantics.EvalList(w, es, [], env, old(Now())), ok, vs, Now())
      decreases Budget(Now()), Depth(Now()), 7
    {
      hide Linked, ScopesExist, Now, HoldsExpr, HoldsExprs, Semantics.Eval, Semantics.EvalList, Fail;
      ghost var s := Now();
      var link := list;
      ghost var rest := es;
      ok, vs := true, [];
      ExprsEmpty(Current(), list, es);
      while ok && link != 0
        invariant Valid() && Kept()
        invariant ok ==> HoldsExprs(Current(), link, rest)
        invariant ok ==> Semantics.EvalList(w, es, [], env, s) == Semantics.EvalList(w, rest, vs, env, Now())
        invariant !ok ==> Semantics.EvalList(w, es, [], env, s) == Stop(Now())
        invariant ok ==> (link == 0 <==> rest == [])
        invariant Budget(Now()) <= Budget(s) && Depth(Now()) == Depth(s)
        decreases ok, Budget(Now())
      {
        ExprsNext(Current(), link, rest);
        ListStep(w, rest, vs, env, Now());
        var entry := EntryAt(Current(), link);
        var more;
        ok, more := Eval(env, entry.node, rest[0]);
        if ok {
          ExprsEmpty(Current(), entry.next, rest[1..]);
          if entry.next != 0 {
            more := [First(more)];
          }
          if |vs| + |more| > MULTI_LIMIT {
            FailWith(TooManyValues);
            ok := false;
          } else {
            vs := vs + more;
            link := entry.next;
            rest := rest[1..];
          }
        }
      }
      if ok {
        ListDone(w, vs, env, Now());
      }
    }

    method EvalTable(env: nat, id: nat, ghost e: Expr) returns (ok: bool, vs: seq<Value>)
      requires Valid() && IsScope(env)
      requires HoldsExpr(Current(), id, e) && e.TableLit?
      modifies this
      ensures Valid() && Kept()
      ensures Gives(Semantics.EvalTable(w, e.fields, env, old(Now())), ok, vs, Now())
      decreases Budget(Now()), Depth(Now()), 8
    {
      hide Linked, ScopesExist, Now, HoldsExpr, HoldsFields, Semantics.EvalTable, EvalFields, NewTable;
      ghost var s := Now();
      TableAt(Current(), id, e);
      SemanticsSteps.TableStep(w, e.fields, env, s);
      var t;
      vs := [];
      ok, t := MakeTable();
      if ok {
        ok := FillTable(env, NodeAt(Current(), id).links.list1, t, e.fields);
        vs := [TabV(t)];
      }
    }

    method FillTable(env: nat, list: nat, t: nat, ghost fs: seq<Field>) returns (ok: bool)
      requires Valid() && IsScope(env)
      requires HoldsFields(Current(), list, fs)
      modifies this
      ensures Valid() && Kept()
      ensures Does(EvalFields(w, fs, t, 1, env, old(Now())), ok, Now())
      decreases Budget(Now()), Depth(Now()), 7
    {
      hide Linked, ScopesExist, Now, HoldsFields, HoldsTree, FieldTree, EvalFields, Semantics.EvalField;
      ghost var s := Now();
      var link, next := list, 1;
      ghost var rest := fs;
      ok := true;
      FieldsEmpty(Current(), list, fs);
      while ok && link != 0
        invariant Valid() && Kept()
        invariant ok ==> HoldsFields(Current(), link, rest)
        invariant ok ==> EvalFields(w, fs, t, 1, env, s) == EvalFields(w, rest, t, next, env, Now())
        invariant !ok ==> EvalFields(w, fs, t, 1, env, s) == Done(false, Now())
        invariant ok ==> (link == 0 <==> rest == [])
        invariant Budget(Now()) <= Budget(s) && Depth(Now()) == Depth(s)
        decreases ok, Budget(Now())
      {
        FieldsNext(Current(), link, rest);
        SemanticsSteps.FieldsStep(w, rest, t, next, env, Now());
        var entry := EntryAt(Current(), link);
        FieldsEmpty(Current(), entry.next, rest[1..]);
        var positional;
        ok, positional := SetField(env, entry.node, entry.next == 0, t, next, rest[0]);
        if positional {
          next := next + 1;
        }
        link := entry.next;
        rest := rest[1..];
      }
      if ok {
        SemanticsSteps.FieldsDone(w, t, next, env, Now());
      }
    }

    method SetField(env: nat, id: nat, last: bool, t: nat, next: nat, ghost f: Field) returns (ok: bool, positional: bool)
      requires Valid() && IsScope(env)
      requires HoldsTree(Current(), id, FieldTree(f))
      modifies this
      ensures Valid() && Kept()
      ensures Does(Semantics.EvalField(w, f, last, t, next, env, old(Now())), ok, Now())
      ensures positional == f.Item?
      decreases Budget(Now()), Depth(Now()), 6
    {
      hide Linked, ScopesExist, Now, HoldsTree, HoldsExpr, ExprTree, Semantics.EvalField, Semantics.Eval, TableSet,
           SetAll, Allocate;
      ghost var s := Now();
      FieldAt(Current(), id, f);
      var node := NodeAt(Current(), id);
      var value;
      positional := false;
      if node.tag.flags == FIELD_NAMED {
        NamedStep(w, node.tag.text, f.value, last, t, next, env, s);
        ok := Alloc();
        if ok {
          ok, value := Eval(env, node.links.b, f.value);
          if ok {
            ok := SetEntry(t, StrV(node.tag.text), First(value));
          }
        }
      } else if node.tag.flags == FIELD_INDEXED {
        SemanticsSteps.KeyedStep(w, f.key, f.value, last, t, next, env, s);
        var key;
        ok, key := Eval(env, node.links.a, f.key);
        if ok {
          ok, value := Eval(env, node.links.b, f.value);
          if ok {
            ok := SetEntry(t, First(key), First(value));
          }
        }
      } else {
        positional := true;
        SemanticsSteps.ItemStep(w, f.value, last, t, next, env, s);
        ok, value := Eval(env, node.links.b, f.value);
        if ok {
          if last {
            ok := SetEntries(t, next, value);
          } else {
            ok := SetEntry(t, NumV(next as real), First(value));
          }
        }
      }
    }

    /** Store values under consecutive keys. */
    method SetEntries(t: nat, next: nat, vs: seq<Value>) returns (ok: bool)
      modifies `tables, `tableEntries, `allocations, `fault
      ensures Does(SetAll(w, old(Now()), t, next, vs), ok, Now())
    {
      hide Now, SetAll, TableSet;
      var i := 0;
      ok := true;
      while ok && i < |vs|
        invariant i <= |vs|
        invariant ok ==> SetAll(w, old(Now()), t, next, vs) == SetAll(w, Now(), t, next + i, vs[i..])
        invariant !ok ==> SetAll(w, old(Now()), t, next, vs) == Done(false, Now())
        decreases ok, |vs| - i
      {
        SetAllStep(w, Now(), t, next + i, vs[i..]);
        assert vs[i..][1..] == vs[i + 1..];
        ok := SetEntry(t, NumV((next + i) as real), vs[i]);
        i := i + 1;
      }
      if ok {
        SetAllStep(w, Now(), t, next + i, vs[i..]);
      }
    }

    // ---- calls -----------------------------------------------------------------------------

    method CallValue(f: Value, args: seq<Value>) returns (ok: bool, vs: seq<Value>)
      requires Valid() && IsScope(GLOBAL)
      modifies this
      ensures Valid() && Kept()
      ensures Gives(Semantics.CallValue(w, f, args, old(Now())), ok, vs, Now())
      decreases Budget(Now()), Depth(Now()), 5
    {
      hide Linked, ScopesExist, Semantics.CallValue, Semantics.RunNative, Semantics.RunClosure, Fail;
      ghost var s := Now();
      CallValueStep(w, f, args, s);
      LinkedSizes(Linkage(programs, w.modules, functions, closures));
      ok, vs := false, [];
      if callDepth >= DEPTH_LIMIT {
        FailWith(TooDeep);
      } else if f.NatV? {
        EnterCall();
        ok, vs := RunNative(f.native, args);
        LeaveCall();
      } else if f.FunV? && f.closure < |functions| {
        EnterCall();
        ok, vs := RunClosure(f.closure, args);
        LeaveCall();
      } else {
        FailWith(NotCallable);
      }
    }

    method EnterCall()
      requires callDepth < DEPTH_LIMIT
      modifies `callDepth
      ensures Now() == Enter(old(Now()))
    {
      callDepth := callDepth + 1;
    }

    method LeaveCall()
      modifies `callDepth
      ensures Now() == Leave(old(Now()))
    {
      if callDepth > 0 {
        callDepth := callDepth - 1;
      }
    }

    /** Run a function's body in the arena it was made in, and come back to the caller's. */
    method RunClosure(i: nat, args: seq<Value>) returns (ok: bool, vs: seq<Value>)
      requires Valid() && IsScope(GLOBAL) && i < |functions| && |functions| == |closures|
      modifies this
      ensures Valid() && Kept()
      ensures Gives(Semantics.RunClosure(w, old(closures[i]), args, old(Now())), ok, vs, Now())
      decreases Budget(Now()), Depth(Now()), 4
    {
      hide Linked, ScopesExist, Now, HoldsExpr, HoldsNames, HoldsBlock, Semantics.RunClosure, NewScope,
           Semantics.BindArguments, Semantics.ExecBlock, Semantics.OfBody;
      ghost var s, c := Now(), closures[i];
      var savedProgram, f := program, functions[i];
      FunctionHeld(Linkage(programs, w.modules, functions, closures), i);
      ScopeOf(functions, |scopes|, i);
      ClosureStep(w, c, args, s);
      program := f.program;
      ghost var e := FunctionLit(c.params, c.variadic, c.code);
      ExprNode(Current(), f.node, e);
      FunctionAt(Current(), f.node, e);
      var node := NodeAt(Current(), f.node);
      var env;
      vs := [];
      ok, env := OpenScope(f.closure, true);
      if ok {
        ok := BindArguments(env, node.links.list1, node.tag.flags != 0, c, args);
        if ok {
          var control;
          control, vs := ExecBlock(env, node.links.a, c.code);
          ok, vs := OfBody(control, vs);
        }
      }
      program := savedProgram;
    }

    /** What a body yields; a `break` cannot leave it. */
    method OfBody(c: Control, returned: seq<Value>) returns (ok: bool, vs: seq<Value>)
      modifies `fault
      ensures forall f: Flow :: Flows(f, c, returned, old(Now())) ==> Gives(Semantics.OfBody(f), ok, vs, Now())
    {
      ok, vs := c == Going || c == Returning, if c == Returning then returned else [];
      if c == Breaking {
        FailWith(BreakEscaped);
      }
    }

    method BindArguments(env: nat, list: nat, variadic: bool, ghost c: Closure, args: seq<Value>) returns (ok: bool)
      requires Valid() && IsScope(env) && HoldsNames(Current(), list, c.params) && variadic == c.variadic
      modifies `scopes, `bindings, `allocations, `fault
      ensures Valid() && Kept()
      ensures Does(Semantics.BindArguments(w, old(Now()), env, c, args), ok, Now())
    {
      hide Linked, ScopesExist, Now, HoldsNames, Semantics.BindArguments, DefineAll, Fail, Allocate, WithExtras;
      ArgumentsStep(w, Now(), env, c, args);
      var count;
      ok, count := DeclareNames(env, list, c.params, args);
      if ok && variadic && |args| > count {
        var extras := args[count..];
        if |extras| > MULTI_LIMIT {
          FailWith(TooManyValues);
          return false;
        }
        ok := Alloc();
        if ok {
          SetExtras(env, extras);
        }
      }
    }

    method SetExtras(env: nat, extras: seq<Value>)
      requires IsScope(env)
      modifies `scopes
      ensures |scopes| == |old(scopes)|
      ensures Now() == WithExtras(old(Now()), env, extras)
    {
      scopes := scopes[env - 1 := scopes[env - 1].(extras := extras)];
    }

    /** Declare each name of a list with the value at its place, nil if there is none. */
    method DeclareNames(env: nat, list: nat, ghost names: seq<string>, values: seq<Value>) returns (ok: bool, count: nat)
      requires Valid() && IsScope(env) && HoldsNames(Current(), list, names)
      modifies `scopes, `bindings, `allocations, `fault
      ensures Valid() && Kept()
      ensures Does(DefineAll(w, old(Now()), env, names, values), ok, Now())
      ensures ok ==> count == |names|
    {
      hide Linked, ScopesExist, Now, HoldsNames, DefineAll, Define;
      var link := list;
      ghost var s, rest := Now(), names;
      ok, count := true, 0;
      NamesEmpty(Current(), list, names);
      while ok && link != 0
        invariant Valid() && Kept() && count <= |names|
        invariant ok ==> HoldsNames(Current(), link, rest) && rest == names[count..]
        invariant ok ==> DefineAll(w, s, env, names, values) == DefineAll(w, Now(), env, rest, From(values, count))
        invariant !ok ==> DefineAll(w, s, env, names, values) == Done(false, Now())
        invariant ok ==> (link == 0 <==> rest == [])
        decreases ok, |names| - count
      {
        NamesNext(Current(), link, rest);
        DefineAllStep(w, Now(), env, rest, From(values, count));
        FromStep(values, count);
        var entry := EntryAt(Current(), link);
        NamesEmpty(Current(), entry.next, rest[1..]);
        ok := DefineName(env, NodeAt(Current(), entry.node).tag.text, Nth(values, count));
        link := entry.next;
        count := count + 1;
        rest := rest[1..];
      }
      if ok {
        DefineAllStep(w, Now(), env, [], From(values, count));
      }
    }

    /** A native acts on the replies it has had until it answers, gives up or runs out of patience. */
    method RunNative(k: nat, args: seq<Value>) returns (ok: bool, vs: seq<Value>)
      requires Valid() && IsScope(GLOBAL)
      modifies this
      ensures Valid() && Kept()
      ensures Gives(Semantics.RunNative(w, k, args, [], old(Now())), ok, vs, Now())
      decreases Budget(Now()), Depth(Now()), 7
    {
      hide Linked, ScopesExist, Now, Semantics.RunNative, Semantics.Perform, Fail, KnownAction;
      ghost var s := Now();
      var history: seq<Reply>, running := [], true;
      ok, vs := true, [];
      while running
        invariant Valid() && Kept() && IsScope(GLOBAL) && |history| <= w.patience + 1
        invariant running ==> ok && Semantics.RunNative(w, k, args, [], s) == Semantics.RunNative(w, k, args, history, Now())
        invariant !running ==> Gives(Semantics.RunNative(w, k, args, [], s), ok, vs, Now())
        invariant Budget(Now()) <= Budget(s) && Depth(Now()) == Depth(s)
        decreases running, w.patience + 1 - |history|
      {
        NativeStep(w, k, args, history, Now());
        var action := Ask(k, args, history);
        if |history| >= w.patience || action.GiveUp? || !Permitted(action) {
          FailWith(NativeFailed);
          ok, running := false, false;
        } else if action.Answer? {
          vs, running := action.values, false;
        } else {
          var done, values := Perform(action);
          history := history + [if done then Replied(values) else Failed];
        }
      }
    }

    /** Ask a native what to do next. */
    method Ask(k: nat, args: seq<Value>, history: seq<Reply>) returns (a: Action)
      modifies `log
      ensures Now() == Asked(old(Now()), Request(k, args, history)) && a == w.act(Now().log)
    {
      log := log + [Request(k, args, history)];
      a := w.act(log);
    }

    /** Does the action mention only objects that exist? */
    predicate Permitted(a: Action)
      requires Valid()
      reads this
      ensures Permitted(a) == KnownAction(a, Now())
    {
      hide Linked, ScopesExist;
      LinkedSizes(Linkage(programs, w.modules, functions, closures));
      SameObjects(a, Now(), State([], tables, seq(|functions|, i => Closure([], false, [], 0)), 0, 0, 0, 0, 0, 0, [], false, NO_FAULT));
      KnownAction(a, State([], tables, seq(|functions|, i => Closure([], false, [], 0)), 0, 0, 0, 0, 0, 0, [], false, NO_FAULT))
    }

    method Perform(a: Action) returns (ok: bool, vs: seq<Value>)
      requires Valid() && IsScope(GLOBAL)
      modifies this
      ensures Valid() && Kept()
      ensures Gives(Semantics.Perform(w, a, old(Now())), ok, vs, Now())
      decreases Budget(Now()), Depth(Now()), 6
    {
      hide Linked, ScopesExist, Now, Semantics.CallValue, Semantics.TableGet, Semantics.Declare,
           Semantics.ExecModule, TableSet, TableRemove, NewTable, Fail;
      ghost var s := Now();
      ok, vs := false, [];
      match a
      case Invoke(f, args) => ok, vs := CallValue(f, args);
      case MakeTable =>
        var t;
        ok, t := MakeTable();
        if ok { vs := [TabV(t)]; }
      case Store(t, k, v) =>
        if t.TabV? { ok := SetEntry(t.table, k, v); }
      case Fetch(t, k) => ok, vs := ReadEntry(t, k);
      case Discard(t, k) =>
        if t.TabV? { ok := RemoveEntry(t.table, k); }
      case DeclareBook(v) => ok := Declare(v);
      case RunModule(i, p) =>
        if i < |w.modules| {
          ok, vs := ExecModule(i, p);
        } else {
          FailWith(NativeFailed);
        }
      case _ =>
    }

    method Declare(v: Value) returns (ok: bool)
      modifies `declared, `fault
      ensures Does(Semantics.Declare(w, v, old(Now())), ok, Now())
    {
      ok := false;
      if moduleDepth > 0 {
        FailWith(DeclaredInModule);
      } else if !v.TabV? || declared {
        FailWith(BadDeclaration);
      } else {
        var name := ReadRow(v.table, StrV("name"));
        if name == StrV(w.bookName) {
          declared, ok := true, true;
        } else {
          FailWith(BadDeclaration);
        }
      }
    }

    /** Run a module in its own arena and come back to the program that required it. */
    method ExecModule(i: nat, privates: Option<Value>) returns (ok: bool, vs: seq<Value>)
      requires Valid() && IsScope(GLOBAL) && i < |w.modules|
      modifies this
      ensures Valid() && Kept()
      ensures Gives(Semantics.ExecModule(w, w.modules[i], privates, old(Now())), ok, vs, Now())
      decreases Budget(Now()), Depth(Now()), 4
    {
      hide Linked, ScopesExist, Now, HoldsBlock, Semantics.ExecModule, NewScope, Define, Semantics.ExecBlock,
           Semantics.OfBody;
      ModuleStep(w, w.modules[i], privates, Now());
      vs := [];
      var env;
      ok, env := OpenScope(GLOBAL, true);
      if ok && privates.Some? {
        ok := DefineName(env, "_kami", privates.value);
      }
      if ok {
        ok, vs := RunModule(env, i);
      }
    }

    /** The statements of a module, one module deeper. */
    method RunModule(env: nat, i: nat) returns (ok: bool, vs: seq<Value>)
      requires Valid() && IsScope(env) && i < |w.modules|
      modifies this
      ensures Valid() && Kept()
      ensures var s := old(Now());
        Gives(Unloaded(Semantics.OfBody(Semantics.ExecBlock(w, w.modules[i], env, s.(moduleDepth := s.moduleDepth + 1))),
                       s.moduleDepth), ok, vs, Now())
      decreases Budget(Now()), Depth(Now()), 3
    {
      hide Linked, ScopesExist, Now, HoldsBlock, Semantics.ExecBlock, Semantics.OfBody;
      ModuleHeld(Linkage(programs, w.modules, functions, closures), i);
      var savedProgram := program;
      program := i + 1;
      EnterModule();
      var control;
      control, vs := ExecBlock(env, Current().root, w.modules[i]);
      ok, vs := OfBody(control, vs);
      LeaveModule();
      program := savedProgram;
    }

    method EnterModule()
      modifies `moduleDepth
      ensures Now() == old(Now()).(moduleDepth := old(Now()).moduleDepth + 1)
    {
      moduleDepth := moduleDepth + 1;
    }

    method LeaveModule()
      modifies `moduleDepth
      ensures old(Now()).moduleDepth > 0 ==> Now() == old(Now()).(moduleDepth := old(Now()).moduleDepth - 1)
    {
      if moduleDepth > 0 {
        moduleDepth := moduleDepth - 1;
      }
    }

    // ---- blocks and statements -------------------------------------------------------------

    method ExecBlock(env: nat, first: nat, ghost ss: seq<Stmt>) returns (c: Control, vs: seq<Value>)
      requires Valid() && IsScope(env)
      requires HoldsBlock(Current(), first, ss)
      modifies this
      ensures Valid() && Kept()
      ensures Flows(Semantics.ExecBlock(w, ss, env, old(Now())), c, vs, Now())
      decreases Budget(Now()), Depth(Now()), 2
    {
      hide Linked, ScopesExist, Now, HoldsBlock, HoldsStmt, Semantics.ExecBlock, Semantics.Exec;
      ghost var s := Now();
      var link := first;
      ghost var rest := ss;
      c, vs := Going, [];
      BlockEmpty(Current(), first, ss);
      while c == Going && link != 0
        invariant Valid() && Kept()
        invariant c == Going ==> HoldsBlock(Current(), link, rest)
        invariant c == Going ==> Semantics.ExecBlock(w, ss, env, s) == Semantics.ExecBlock(w, rest, env, Now())
        invariant c != Going ==> Flows(Semantics.ExecBlock(w, ss, env, s), c, vs, Now())
        invariant c == Going ==> (link == 0 <==> rest == [])
        invariant c == Going ==> Budget(Now()) <= Budget(s) && Depth(Now()) == Depth(s)
        decreases c == Going, Budget(Now())
      {
        BlockNext(Current(), link, rest);
        SemanticsSteps.BlockStep(w, rest, env, Now());
        var statement := NodeAt(Current(), link);
        BlockEmpty(Current(), statement.next, rest[1..]);
        c, vs := Exec(env, link, rest[0]);
        link := statement.next;
        rest := rest[1..];
      }
      if c == Going {
        SemanticsSteps.BlockDone(w, env, Now());
      }
    }

    method Exec(env: nat, id: nat, ghost st: Stmt) returns (c: Control, vs: seq<Value>)
      requires Valid() && IsScope(env)
      requires HoldsStmt(Current(), id, st)
      modifies this
      ensures Valid() && Kept()
      ensures Flows(Semantics.Exec(w, st, env, old(Now())), c, vs, Now())
      decreases Budget(Now()), Depth(Now()), 1
    {
      hide Linked, ScopesExist, Now, HoldsStmt, Tick, Semantics.ExecNode, Semantics.Exec;
      ghost var s := Now();
      c, vs := Failing, [];
      SemanticsSteps.ExecStep(w, st, env, s);
      TickCounts(w, s);
      var ok := Step();
      if ok {
        c, vs := ExecNode(env, id, st);
      }
    }

    method ExecNode(env: nat, id: nat, ghost st: Stmt) returns (c: Control, vs: seq<Value>)
      requires Valid() && IsScope(env)
      requires HoldsStmt(Current(), id, st)
      modifies this
      ensures Valid() && Kept()
      ensures Flows(Semantics.ExecNode(w, st, env, old(Now())), c, vs, Now())
      decreases Budget(Now()), Depth(Now()), 9
    {
      hide Linked, ScopesExist, Now, HoldsStmt, Semantics.ExecNode, Semantics.ExecArms, Semantics.ExecWhile,
           Semantics.ExecNumeric, Semantics.ExecGeneric;
      ghost var s := Now();
      StmtNode(Current(), id, st);
      var kind := NodeAt(Current(), id).tag.kind;
      if kind == IfNode {
        c, vs := ExecIf(env, id, st);
      } else if kind == WhileNode {
        c, vs := ExecWhile(env, id, st);
      } else if kind == ForNumericNode {
        c, vs := ExecNumeric(env, id, st);
      } else if kind == ForGenericNode {
        c, vs := ExecGeneric(env, id, st);
      } else {
        c, vs := ExecSimple(env, id, st);
      }
    }

    /** Statements without a block. */
    method ExecSimple(env: nat, id: nat, ghost st: Stmt) returns (c: Control, vs: seq<Value>)
      requires Valid() && IsScope(env)
      requires HoldsStmt(Current(), id, st) && IsSimple(st)
      modifies this
      ensures Valid() && Kept()
      ensures Flows(Semantics.ExecNode(w, st, env, old(Now())), c, vs, Now())
      decreases Budget(Now()), Depth(Now()), 9, 0
    {
      hide Linked, ScopesExist, Now, HoldsStmt, Semantics.ExecNode, Semantics.ExecCall, Semantics.ExecAssign,
           Semantics.ExecLocal, Semantics.ExecReturn, Semantics.ExecFunction, Semantics.ExecLocalFunction;
      ghost var s := Now();
      StmtNode(Current(), id, st);
      StmtStep(w, st, env, s);
      var kind := NodeAt(Current(), id).tag.kind;
      c, vs := Failing, [];
      match kind
      case ExprStatementNode => c := ExecCall(env, id, st);
      case LocalAssignNode => c := ExecLocal(env, id, st);
      case AssignNode => c := ExecAssign(env, id, st);
      case LocalFunctionNode => c := ExecLocalFunction(env, id, st);
      case FunctionDeclNode => c := ExecFunction(env, id, st);
      case BreakNode => c := Breaking;
      case ReturnNode => c, vs := ExecReturn(env, id, st);
      case _ => assert false;
    }

    method ExecCall(env: nat, id: nat, ghost st: Stmt) returns (c: Control)
      requires Valid() && IsScope(env)
      requires HoldsStmt(Current(), id, st) && st.CallStmt?
      modifies this
      ensures Valid() && Kept()
      ensures Flows(Semantics.ExecCall(w, st.call, env, old(Now())), c, [], Now())
      decreases Budget(Now()), Depth(Now()), 8
    {
      hide Linked, ScopesExist, Now, HoldsStmt, HoldsExpr, Semantics.Eval, Semantics.ExecCall;
      ghost var s := Now();
      CallStmtAt(Current(), id, st);
      ExprStmtStep(w, st.call, env, s);
      var ok, _ := Eval(env, NodeAt(Current(), id).links.a, st.call);
      c := if ok then Going else Failing;
    }

    method ExecReturn(env: nat, id: nat, ghost st: Stmt) returns (c: Control, vs: seq<Value>)
      requires Valid() && IsScope(env)
      requires HoldsStmt(Current(), id, st) && st.ReturnStmt?
      modifies this
      ensures Valid() && Kept()
      ensures Flows(Semantics.ExecReturn(w, st.values, env, old(Now())), c, vs, Now())
      decreases Budget(Now()), Depth(Now()), 8
    {
      hide Linked, ScopesExist, Now, HoldsStmt, HoldsExprs, Semantics.EvalList, Semantics.ExecReturn;
      ghost var s := Now();
      ReturnAt(Current(), id, st);
      SemanticsSteps.ReturnStep(w, st.values, env, s);
      var ok;
      ok, vs := EvalList(env, NodeAt(Current(), id).links.list1, st.values);
      c := if ok then Returning else Failing;
    }

    method ExecLocal(env: nat, id: nat, ghost st: Stmt) returns (c: Control)
      requires Valid() && IsScope(env)
      requires HoldsStmt(Current(), id, st) && st.LocalAssign?
      modifies this
      ensures Valid() && Kept()
      ensures Flows(Semantics.ExecLocal(w, st.names, st.values, env, old(Now())), c, [], Now())
      decreases Budget(Now()), Depth(Now()), 8
    {
      hide Linked, ScopesExist, Now, HoldsStmt, HoldsExprs, HoldsNames, Semantics.EvalList, Semantics.ExecLocal,
           DefineAll;
      ghost var s := Now();
      LocalAt(Current(), id, st);
      SemanticsSteps.LocalStep(w, st.names, st.values, env, s);
      var node := NodeAt(Current(), id);
      var ok, values := EvalList(env, node.links.list2, st.values);
      if ok {
        var count;
        ok, count := DeclareNames(env, node.links.list1, st.names, values);
      }
      c := if ok then Going else Failing;
    }

    method ExecAssign(env: nat, id: nat, ghost st: Stmt) returns (c: Control)
      requires Valid() && IsScope(env)
      requires HoldsStmt(Current(), id, st) && st.Assign?
      modifies this
      ensures Valid() && Kept()
      ensures Flows(Semantics.ExecAssign(w, st.targets, st.values, env, old(Now())), c, [], Now())
      decreases Budget(Now()), Depth(Now()), 8
    {
      hide Linked, ScopesExist, Now, HoldsStmt, HoldsExprs, Semantics.EvalList, Semantics.ExecAssign,
           Semantics.AssignAll;
      ghost var s := Now();
      AssignAt(Current(), id, st);
      SemanticsSteps.AssignStep(w, st.targets, st.values, env, s);
      var node := NodeAt(Current(), id);
      var ok, values := EvalList(env, node.links.list2, st.values);
      if ok {
        ok := AssignAll(env, node.links.list1, st.targets, values);
      }
      c := if ok then Going else Failing;
    }

    method AssignAll(env: nat, list: nat, ghost ts: seq<Expr>, values: seq<Value>) returns (ok: bool)
      requires Valid() && IsScope(env)
      requires HoldsExprs(Current(), list, ts)
      modifies this
      ensures Valid() && Kept()
      ensures Does(Semantics.AssignAll(w, ts, values, env, old(Now())), ok, Now())
      decreases Budget(Now()), Depth(Now()), 7
    {
      hide Linked, ScopesExist, Now, HoldsExprs, HoldsExpr, Semantics.AssignAll, Semantics.AssignTo;
      ghost var s := Now();
      var link, count := list, 0;
      ghost var rest := ts;
      ok := true;
      ExprsEmpty(Current(), list, ts);
      while ok && link != 0
        invariant Valid() && Kept() && count <= |ts|
        invariant ok ==> HoldsExprs(Current(), link, rest) && rest == ts[count..]
        invariant ok ==> Semantics.AssignAll(w, ts, values, env, s) == Semantics.AssignAll(w, rest, From(values, count), env, Now())
        invariant !ok ==> Semantics.AssignAll(w, ts, values, env, s) == Done(false, Now())
        invariant ok ==> (link == 0 <==> rest == [])
        invariant Budget(Now()) <= Budget(s) && Depth(Now()) == Depth(s)
        decreases ok, |ts| - count
      {
        ExprsNext(Current(), link, rest);
        AssignAllStep(w, rest, From(values, count), env, Now());
        FromStep(values, count);
        var entry := EntryAt(Current(), link);
        ExprsEmpty(Current(), entry.next, rest[1..]);
        ok := AssignTo(env, entry.node, rest[0], Nth(values, count));
        link := entry.next;
        count := count + 1;
        rest := rest[1..];
      }
      if ok {
        AssignAllStep(w, [], From(values, count), env, Now());
      }
    }

    method AssignTo(env: nat, id: nat, ghost t: Expr, v: Value) returns (ok: bool)
      requires Valid() && IsScope(env)
      requires HoldsExpr(Current(), id, t)
      modifies this
      ensures Valid() && Kept()
      ensures Does(Semantics.AssignTo(w, t, v, env, old(Now())), ok, Now())
      decreases Budget(Now()), Depth(Now()), 6
    {
      hide Linked, ScopesExist, Now, HoldsExpr, Semantics.AssignTo, Heap.Assign, Semantics.Eval, TableSet, Allocate,
           Fail, ExprTrees, FieldTrees, StmtTrees, NameTrees;
      ghost var s := Now();
      ExprNode(Current(), id, t);
      var node := NodeAt(Current(), id);
      var kind := node.tag.kind;
      if kind == VariableNode {
        ToVariable(w, t, v, env, s);
        ok := AssignName(env, node.tag.text, v);
      } else if kind == FieldNode {
        ok := AssignMember(env, id, t, v);
      } else if kind == IndexNode {
        ok := AssignIndex(env, id, t, v);
      } else {
        NoDestination(w, t, v, env, s);
        FailWith(BadDestination);
        ok := false;
      }
    }

    method AssignMember(env: nat, id: nat, ghost t: Expr, v: Value) returns (ok: bool)
      requires Valid() && IsScope(env)
      requires HoldsExpr(Current(), id, t) && t.Member?
      modifies this
      ensures Valid() && Kept()
      ensures Does(Semantics.AssignTo(w, t, v, env, old(Now())), ok, Now())
      decreases Budget(Now()), Depth(Now()), 5
    {
      hide Linked, ScopesExist, Now, HoldsExpr, Semantics.AssignTo, Semantics.Eval, TableSet, Allocate, Fail;
      ghost var s := Now();
      ExprNode(Current(), id, t);
      MemberAt(Current(), id, t);
      ToMember(w, t, v, env, s);
      var node := NodeAt(Current(), id);
      var base;
      ok, base := Eval(env, node.links.a, t.base);
      if ok {
        ok := First(base).TabV?;
        if ok {
          ok := Alloc();
          if ok {
            ok := SetEntry(First(base).table, StrV(node.tag.text), v);
          }
        } else {
          FailWith(NotATable);
        }
      }
    }

    method AssignIndex(env: nat, id: nat, ghost t: Expr, v: Value) returns (ok: bool)
      requires Valid() && IsScope(env)
      requires HoldsExpr(Current(), id, t) && t.Index?
      modifies this
      ensures Valid() && Kept()
      ensures Does(Semantics.AssignTo(w, t, v, env, old(Now())), ok, Now())
      decreases Budget(Now()), Depth(Now()), 5
    {
      hide Linked, ScopesExist, Now, HoldsExpr, Semantics.AssignTo, Semantics.Eval, TableSet, Fail;
      ghost var s := Now();
      IndexAt(Current(), id, t);
      ToIndex(w, t, v, env, s);
      var node := NodeAt(Current(), id);
      var base, key;
      ok, base := Eval(env, node.links.a, t.base);
      if ok {
        ok, key := Eval(env, node.links.b, t.key);
        if ok {
          ok := First(base).TabV?;
          if ok {
            ok := SetEntry(First(base).table, First(key), v);
          } else {
            FailWith(NotATable);
          }
        }
      }
    }

    method ExecFunction(env: nat, id: nat, ghost st: Stmt) returns (c: Control)
      requires Valid() && IsScope(env)
      requires HoldsStmt(Current(), id, st) && st.FunctionDecl?
      modifies this
      ensures Valid() && Kept()
      ensures Flows(Semantics.ExecFunction(w, st.target, st.func, env, old(Now())), c, [], Now())
      decreases Budget(Now()), Depth(Now()), 8
    {
      hide Linked, ScopesExist, Now, HoldsStmt, HoldsExpr, Semantics.Eval, Semantics.AssignTo,
           Semantics.ExecFunction;
      ghost var s := Now();
      FunctionDeclAt(Current(), id, st);
      FunctionStep(w, st.target, st.func, env, s);
      var node := NodeAt(Current(), id);
      var ok, values := Eval(env, node.links.b, st.func);
      if ok {
        ok := AssignTo(env, node.links.a, st.target, First(values));
      }
      c := if ok then Going else Failing;
    }

    method ExecLocalFunction(env: nat, id: nat, ghost st: Stmt) returns (c: Control)
      requires Valid() && IsScope(env)
      requires HoldsStmt(Current(), id, st) && st.LocalFunction?
      modifies this
      ensures Valid() && Kept()
      ensures Flows(Semantics.ExecLocalFunction(w, st.name, st.func, env, old(Now())), c, [], Now())
      decreases Budget(Now()), Depth(Now()), 8
    {
      hide Linked, ScopesExist, Now, HoldsStmt, HoldsExpr, Semantics.Eval, Define, Semantics.ExecLocalFunction,
           Rebound;
      ghost var s := Now();
      StmtNode(Current(), id, st);
      LocalFunctionAt(Current(), id, st);
      SemanticsSteps.LocalFunctionStep(w, st.name, st.func, env, s);
      var node := NodeAt(Current(), id);
      var ok := DefineName(env, node.tag.text, NilV);
      if ok {
        var values;
        ok, values := Eval(env, node.links.a, st.func);
        if ok {
          RebindLocal(env, node.tag.text, First(values));
        }
      }
      c := if ok then Going else Failing;
    }

    /** Overwrite a binding of one scope. */
    method RebindLocal(env: nat, name: string, value: Value)
      requires Valid() && IsScope(env)
      modifies `scopes
      ensures Valid() && Kept()
      ensures Now() == Rebound(old(Now()), env, name, value)
    {
      hide Linked, ScopesExist;
      var i := FindLocal(env, name);
      if i < |scopes[env - 1].bindings| {
        SetBinding(env, i, value);
      }
    }

    // ---- conditionals and loops ------------------------------------------------------------

    method ExecIf(env: nat, id: nat, ghost st: Stmt) returns (c: Control, vs: seq<Value>)
      requires Valid() && IsScope(env)
      requires HoldsStmt(Current(), id, st) && st.IfStmt?
      modifies this
      ensures Valid() && Kept()
      ensures Flows(Semantics.ExecNode(w, st, env, old(Now())), c, vs, Now())
      decreases Budget(Now()), Depth(Now()), 8, 1
    {
      hide Linked, ScopesExist, Now, HoldsStmt, HoldsArms, HoldsExpr, HoldsBlock, Semantics.ExecNode,
           Semantics.ExecArms, Semantics.Eval, Semantics.ExecScoped;
      ghost var s := Now();
      IfAt(Current(), id, st);
      ControlStep(w, st, env, s);
      var link, searching := NodeAt(Current(), id).links.list1, true;
      ghost var rest := st.arms;
      c, vs := Going, [];
      while searching
        invariant Valid() && Kept()
        invariant searching ==> HoldsArms(Current(), link, rest, st.hasElse, st.otherwise)
        invariant searching ==>
          Semantics.ExecNode(w, st, env, s) == Semantics.ExecArms(w, rest, st.hasElse, st.otherwise, env, Now())
        invariant !searching ==> Flows(Semantics.ExecNode(w, st, env, s), c, vs, Now())
        invariant searching ==> Budget(Now()) <= Budget(s) && Depth(Now()) == Depth(s)
        decreases searching, |rest|
      {
        ArmsNext(Current(), link, rest, st.hasElse, st.otherwise);
        if link == 0 {
          ArmsDone(w, st.hasElse, st.otherwise, env, Now());
          c, searching := Going, false;
        } else {
          var entry := EntryAt(Current(), link);
          var clause := NodeAt(Current(), entry.node);
          if clause.links.a == 0 {
            ArmsDone(w, st.hasElse, st.otherwise, env, Now());
            c, vs := ExecScoped(env, clause.links.b, st.otherwise);
            searching := false;
          } else {
            SemanticsSteps.ArmsStep(w, rest, st.hasElse, st.otherwise, env, Now());
            var ok, condition := Eval(env, clause.links.a, rest[0].guard);
            if !ok {
              c, searching := Failing, false;
            } else if Truthy(First(condition)) {
              c, vs := ExecScoped(env, clause.links.b, rest[0].body);
              searching := false;
            } else {
              link := entry.next;
              rest := rest[1..];
            }
          }
        }
      }
    }

    method ExecScoped(env: nat, first: nat, ghost ss: seq<Stmt>) returns (c: Control, vs: seq<Value>)
      requires Valid() && IsScope(env)
      requires HoldsBlock(Current(), first, ss)
      modifies this
      ensures Valid() && Kept()
      ensures Flows(Semantics.ExecScoped(w, ss, env, old(Now())), c, vs, Now())
      decreases Budget(Now()), Depth(Now()), 3
    {
      hide Linked, ScopesExist, Now, HoldsBlock, NewScope, Semantics.ExecScoped, Semantics.ExecBlock;
      ghost var s := Now();
      ScopedStep(w, ss, env, s);
      c, vs := Failing, [];
      var ok, scope := OpenScope(env, false);
      if ok {
        c, vs := ExecBlock(scope, first, ss);
      }
    }

    method ExecWhile(env: nat, id: nat, ghost st: Stmt) returns (c: Control, vs: seq<Value>)
      requires Valid() && IsScope(env)
      requires HoldsStmt(Current(), id, st) && st.WhileStmt?
      modifies this
      ensures Valid() && Kept()
      ensures Flows(Semantics.ExecNode(w, st, env, old(Now())), c, vs, Now())
      decreases Budget(Now()), Depth(Now()), 8, 1
    {
      hide Linked, ScopesExist, Now, HoldsStmt, HoldsExpr, HoldsBlock, Semantics.ExecNode, Semantics.ExecWhile,
           Semantics.Eval, Semantics.ExecScoped;
      ghost var s := Now();
      WhileAt(Current(), id, st);
      ControlStep(w, st, env, s);
      var node, looping := NodeAt(Current(), id), true;
      c, vs := Going, [];
      while looping
        invariant Valid() && Kept()
        invariant looping ==> Semantics.ExecNode(w, st, env, s) == Semantics.ExecWhile(w, st.cond, st.body, env, Now())
        invariant !looping ==> Flows(Semantics.ExecNode(w, st, env, s), c, vs, Now())
        invariant looping ==> Budget(Now()) <= Budget(s) && Depth(Now()) == Depth(s)
        decreases looping, Budget(Now())
      {
        SemanticsSteps.WhileStep(w, st.cond, st.body, env, Now());
        var ok, condition := Eval(env, node.links.a, st.cond);
        if !ok {
          c, looping := Failing, false;
        } else if !Truthy(First(condition)) {
          c, looping := Going, false;
        } else {
          c, vs := ExecScoped(env, node.links.b, st.body);
          if c == Breaking {
            c, looping := Going, false;
          } else if c != Going {
            looping := false;
          }
        }
      }
    }

    method ExecNumeric(env: nat, id: nat, ghost st: Stmt) returns (c: Control, vs: seq<Value>)
      requires Valid() && IsScope(env)
      requires HoldsStmt(Current(), id, st) && st.ForNumeric?
      modifies this
      ensures Valid() && Kept()
      ensures Flows(Semantics.ExecNode(w, st, env, old(Now())), c, vs, Now())
      decreases Budget(Now()), Depth(Now()), 8, 1
    {
      hide Linked, ScopesExist, Now, HoldsStmt, HoldsExpr, HoldsStep, HoldsBlock, Semantics.ExecNode,
           Semantics.ExecNumeric, Semantics.Eval, Semantics.EvalStep, StartNumeric;
      ghost var s := Now();
      StmtNode(Current(), id, st);
      ForNumericAt(Current(), id, st);
      ControlStep(w, st, env, s);
      SemanticsSteps.NumericStep(w, st.counter, st.first, st.last, st.step, st.body, env, s);
      var node := NodeAt(Current(), id);
      var ok, first, last, step;
      c, vs := Failing, [];
      ok, first := Eval(env, node.links.a, st.first);
      if ok {
        ok, last := Eval(env, node.links.b, st.last);
        if ok {
          ok, step := EvalStep(env, node.links.c, st.step);
          if ok {
            c, vs := RunNumeric(env, id, st, First(first), First(last), First(step));
          }
        }
      }
    }

    method EvalStep(env: nat, id: nat, ghost step: Option<Expr>) returns (ok: bool, vs: seq<Value>)
      requires Valid() && IsScope(env)
      requires HoldsStep(Current(), id, step)
      modifies this
      ensures Valid() && Kept()
      ensures Gives(Semantics.EvalStep(w, step, env, old(Now())), ok, vs, Now())
      decreases Budget(Now()), Depth(Now()), 7
    {
      hide Linked, ScopesExist, Now, HoldsExpr, Semantics.EvalStep, Semantics.Eval;
      ghost var s := Now();
      SemanticsSteps.StepStep(w, step, env, s);
      ok, vs := true, [NumV(1.0)];
      if id != 0 {
        ok, vs := Eval(env, id, step.value);
      }
    }

    method RunNumeric(env: nat, id: nat, ghost st: Stmt, first: Value, last: Value, step: Value) returns (c: Control, vs: seq<Value>)
      requires Valid() && IsScope(env)
      requires HoldsStmt(Current(), id, st) && st.ForNumeric?
      modifies this
      ensures Valid() && Kept()
      ensures Flows(StartNumeric(w, st.counter, first, last, step, st.body, env, old(Now())), c, vs, Now())
      decreases Budget(Now()), Depth(Now()), 7
    {
      hide Linked, ScopesExist, Now, HoldsStmt, HoldsExpr, HoldsStep, HoldsBlock, StartNumeric, NumericLoop,
           NewScope, Define, Fail, LoopBounds, StmtTree;
      ghost var s := Now();
      ForNumericAt(Current(), id, st);
      StartStep(w, st.counter, first, last, step, st.body, env, s);
      var node := NodeAt(Current(), id);
      c, vs := Failing, [];
      if !LoopBounds(first, last, step) {
        FailWith(BadLoopBounds);
      } else {
        var ok, loop := OpenScope(env, false);
        if ok {
          ok := DefineName(loop, node.tag.text, first);
          if ok {
            c, vs := RepeatNumeric(loop, id, st, first.num, last.num, step.num);
          }
        }
      }
    }

    method RepeatNumeric(env: nat, id: nat, ghost st: Stmt, first: real, last: real, step: real) returns (c: Control, vs: seq<Value>)
      requires Valid() && IsScope(env)
      requires HoldsStmt(Current(), id, st) && st.ForNumeric?
      modifies this
      ensures Valid() && Kept()
      ensures Flows(NumericLoop(w, st.counter, first, last, step, st.body, env, old(Now())), c, vs, Now())
      decreases Budget(Now()), Depth(Now()), 6
    {
      hide Linked, ScopesExist, Now, HoldsStmt, HoldsExpr, HoldsStep, HoldsBlock, NumericLoop, Semantics.ExecScoped,
           Rebound, Tick, InRange;
      ghost var s := Now();
      ForNumericAt(Current(), id, st);
      var node, current, looping := NodeAt(Current(), id), first, true;
      c, vs := Going, [];
      while looping
        invariant Valid() && Kept()
        invariant looping ==> (NumericLoop(w, st.counter, first, last, step, st.body, env, s)
                               == NumericLoop(w, st.counter, current, last, step, st.body, env, Now()))
        invariant !looping ==> Flows(NumericLoop(w, st.counter, first, last, step, st.body, env, s), c, vs, Now())
        invariant looping ==> Budget(Now()) <= Budget(s) && Depth(Now()) == Depth(s)
        decreases looping, Budget(Now())
      {
        if !InRange(current, last, step) {
          NumericDone(w, st.counter, current, last, step, st.body, env, Now());
          c, looping := Going, false;
        } else {
          NumericGoesOn(w, st.counter, current, last, step, st.body, env, Now());
          TickCounts(w, Now());
          var ok := Step();
          if !ok {
            c, looping := Failing, false;
          } else {
            RebindLocal(env, node.tag.text, NumV(current));
            c, vs := ExecScoped(env, node.links.d, st.body);
            if c == Breaking {
              c, looping := Going, false;
            } else if c != Going {
              looping := false;
            }
            current := current + step;
          }
        }
      }
    }

    method ExecGeneric(env: nat, id: nat, ghost st: Stmt) returns (c: Control, vs: seq<Value>)
      requires Valid() && IsScope(env)
      requires HoldsStmt(Current(), id, st) && st.ForGeneric?
      modifies this
      ensures Valid() && Kept()
      ensures Flows(Semantics.ExecNode(w, st, env, old(Now())), c, vs, Now())
      decreases Budget(Now()), Depth(Now()), 8, 1
    {
      hide Linked, ScopesExist, Now, HoldsStmt, HoldsNames, HoldsExprs, HoldsBlock, Semantics.ExecNode,
           Semantics.ExecGeneric, Semantics.EvalList, NewScope, GenericLoop;
      ghost var s := Now();
      ForGenericAt(Current(), id, st);
      ControlStep(w, st, env, s);
      SemanticsSteps.GenericStep(w, st.names, st.values, st.body, env, s);
      c, vs := Failing, [];
      var ok, values := EvalList(env, NodeAt(Current(), id).links.list2, st.values);
      if ok {
        var loop;
        ok, loop := OpenScope(env, false);
        if ok {
          c, vs := RepeatGeneric(loop, id, st, Nth(values, 0), Nth(values, 1), Nth(values, 2));
        }
      }
    }

    method RepeatGeneric(env: nat, id: nat, ghost st: Stmt, source: Value, fixed: Value, start: Value) returns (c: Control, vs: seq<Value>)
      requires Valid() && IsScope(env)
      requires HoldsStmt(Current(), id, st) && st.ForGeneric?
      modifies this
      ensures Valid() && Kept()
      ensures Flows(GenericLoop(w, st.names, source, fixed, start, st.body, env, old(Now())), c, vs, Now())
      decreases Budget(Now()), Depth(Now()), 6
    {
      hide Linked, ScopesExist, Now, HoldsStmt, HoldsNames, HoldsExprs, HoldsBlock, GenericLoop, Semantics.CallValue,
           Semantics.ExecIteration, Tick;
      ghost var s := Now();
      ForGenericAt(Current(), id, st);
      var node, control, looping := NodeAt(Current(), id), start, true;
      c, vs := Going, [];
      while looping
        invariant Valid() && Kept()
        invariant looping ==> (GenericLoop(w, st.names, source, fixed, start, st.body, env, s)
                               == GenericLoop(w, st.names, source, fixed, control, st.body, env, Now()))
        invariant !looping ==> Flows(GenericLoop(w, st.names, source, fixed, start, st.body, env, s), c, vs, Now())
        invariant looping ==> Budget(Now()) <= Budget(s) && Depth(Now()) == Depth(s)
        decreases looping, Budget(Now())
      {
        GenericGoesOn(w, st.names, source, fixed, control, st.body, env, Now());
        TickCounts(w, Now());
        var ok := Step();
        if !ok {
          c, looping := Failing, false;
        } else {
          var generated;
          ok, generated := CallValue(source, [fixed, control]);
          if !ok {
            c, looping := Failing, false;
          } else if First(generated) == NilV {
            c, looping := Going, false;
          } else {
            control := First(generated);
            c, vs := ExecIteration(env, node.links.list1, node.links.a, st.names, generated, st.body);
            if c == Breaking {
              c, looping := Going, false;
            } else if c != Going {
              looping := false;
            }
          }
        }
      }
    }

    method ExecIteration(env: nat, list: nat, first: nat, ghost names: seq<string>, values: seq<Value>, ghost body: seq<Stmt>) returns (c: Control, vs: seq<Value>)
      requires Valid() && IsScope(env)
      requires HoldsNames(Current(), list, names) && HoldsBlock(Current(), first, body)
      modifies this
      ensures Valid() && Kept()
      ensures Flows(Semantics.ExecIteration(w, names, values, body, env, old(Now())), c, vs, Now())
      decreases Budget(Now()), Depth(Now()), 3
    {
      hide Linked, ScopesExist, Now, HoldsNames, HoldsBlock, NewScope, DefineAll, Semantics.ExecIteration,
           Semantics.ExecBlock;
      ghost var s := Now();
      IterationStep(w, names, values, body, env, s);
      c, vs := Failing, [];
      var ok, scope := OpenScope(env, false);
      if ok {
        var count;
        ok, count := DeclareNames(scope, list, names, values);
        if ok {
          c, vs := ExecBlock(scope, first, body);
        }
      }
    }

    /** Run the whole Book: the statements of its program in the global scope. */
    method Execute(ghost code: seq<Stmt>) returns (ok: bool, vs: seq<Value>)
      requires Valid() && IsScope(GLOBAL) && HoldsBlock(Current(), Current().root, code)
      modifies this
      ensures Valid() && Kept()
      ensures Gives(Run(w, code, old(Now())), ok, vs, Now())
    {
      hide Linked, ScopesExist, HoldsBlock, Semantics.ExecBlock, Semantics.OfBody;
      var control;
      control, vs := ExecBlock(GLOBAL, Current().root, code);
      ok, vs := OfBody(control, vs);
      if ok && !declared {
        FailWith(NotDeclared);
        ok := false;
      } else if ok {
        fault := fault.(first := None);
      }
    }
  }
}
