/** Every run keeps the invariant, and no part of a well-formed program can fail as if it were
    ill-formed: no `break` leaves a function or a module, no assignment has a bad destination,
    `...` always finds an enclosing call, every operator is known, and every string can be decoded. */
module Soundness {
  import opened Tokens
  import opened Syntax
  import opened Values
  import opened Heap
  import opened Semantics
  import opened SemanticsSteps
  import opened Invariants
  import opened Literals
  import Strings

  predicate Here(s: State, env: nat) { 0 < env <= |s.scopes| }

  /** The modules a native can run are well-formed programs. */
  predicate WorldOk(w: World) { forall i :: 0 <= i < |w.modules| ==> BlockFit(w.modules[i], Ctx(false, false)) }

  predicate LiveIn(vs: seq<Value>, s: State) { AllLive(vs, |s.tables|, |s.closures|) }

  ghost predicate SoundResult(s: State, r: Result) {
    Fine(s, r.s) && (r.Vals? ==> LiveIn(r.vs, r.s) && |r.vs| <= MULTI_LIMIT)
  }

  ghost predicate SoundFlow(s: State, f: Flow, c: Ctx) {
    && Fine(s, f.s)
    && (f.Returned? ==> LiveIn(f.vs, f.s) && |f.vs| <= MULTI_LIMIT)
    && (f.Broke? ==> c.inLoop)
  }

  lemma FineTrans(s: State, t: State, u: State)
    requires Fine(s, t) && Fine(t, u)
    ensures Fine(s, u)
  {
    hide Inv, Ext;
    ExtTrans(s, t, u);
  }

  lemma FineSelf(s: State)
    requires Inv(s)
    ensures Fine(s, s)
  {
    hide Inv;
    ExtSelf(s);
  }

  /** Scopes and values of an earlier state are still there. */
  lemma StillHere(s: State, t: State, env: nat, vs: seq<Value>)
    requires Fine(s, t)
    ensures Here(s, env) ==> Here(t, env)
    ensures LiveIn(vs, s) ==> LiveIn(vs, t)
  {
    hide Inv;
    if LiveIn(vs, s) {
      LiveLater(vs, s, t);
    }
  }

  /** A failure after sound work is sound. */
  lemma FailsFine(s: State, t: State, f: Fault)
    requires Fine(s, t) && !IllFormed(f)
    ensures Fine(s, Fail(t, f))
  {
    hide Inv, Ext;
    FailFine(t, f);
    FineTrans(s, t, Fail(t, f));
  }

  lemma InvFacts(s: State)
    requires Inv(s)
    ensures s.instructions <= INSTRUCTION_LIMIT && Here(s, GLOBAL)
  {
  }

  lemma OneLive(v: Value, s: State)
    requires Live(v, |s.tables|, |s.closures|)
    ensures LiveIn([v], s)
  {
  }

  lemma FirstLive(vs: seq<Value>, s: State)
    requires LiveIn(vs, s)
    ensures Live(First(vs), |s.tables|, |s.closures|) && LiveIn(Rest(vs), s) && LiveIn([First(vs)], s)
  {
  }

  // ---- expressions -------------------------------------------------------------------------

  lemma {:induction false} EvalSound(w: World, e: Expr, env: nat, c: Ctx, s: State)
    requires Inv(s) && WorldOk(w) && Here(s, env) && ExprFit(e, c)
    ensures SoundResult(s, Eval(w, e, env, s))
    decreases Budget(s), Depth(s), 1
  {
    hide Inv, Ext, Eval, EvalNode, Tick, ExprFit;
    SemanticsSteps.EvalStep(w, e, env, s);
    TickCounts(w, s);
    TickFine(w, s);
    var t := Tick(w, s);
    if t.ok {
      StillHere(s, t.s, env, []);
      NodeSound(w, e, env, c, t.s);
      FineTrans(s, t.s, EvalNode(w, e, env, t.s).s);
    }
  }

  lemma {:induction false} NodeSound(w: World, e: Expr, env: nat, c: Ctx, s: State)
    requires Inv(s) && WorldOk(w) && Here(s, env) && ExprFit(e, c)
    ensures SoundResult(s, EvalNode(w, e, env, s))
    decreases Budget(s), Depth(s), 9
  {
    hide Inv, Ext, EvalNode, EvalNumeral, EvalString, EvalVararg, EvalTable, EvalFunction, EvalUnary, EvalBinary, EvalMember, EvalIndex, EvalCall, Lookup;
    InvFacts(s);
    FineSelf(s);
    LeafStep(w, e, env, s);
    NodeStep(w, e, env, s);
    match e
    case NilLit =>
    case BoolLit(_) =>
    case NumberLit(t) => NumeralSound(w, t, s);
    case StringLit(t) => StringSound(w, t, s);
    case Var(n) =>
      LookupLive(s, env, n);
      OneLive(Lookup(s, env, n), s);
    case Vararg => VarargSound(env, s);
    case FunctionLit(ps, v, code) => FunctionSound(w, Closure(ps, v, code, env), s);
    case TableLit(fs) => TableSound(w, fs, env, c, s);
    case Unary(op, o) => UnarySound(w, op, o, env, c, s);
    case Binary(op, l, r) => BinarySound(w, op, l, r, env, c, s);
    case Member(b, n) => MemberSound(w, b, n, env, c, s);
    case Index(b, k) => IndexSound(w, b, k, env, c, s);
    case Call(f, args) => CallSound(w, f, args, env, c, s);
  }

  lemma NumeralSound(w: World, t: string, s: State)
    requires Inv(s)
    ensures SoundResult(s, EvalNumeral(w, t, s))
  {
    hide Inv, Ext;
    FineSelf(s);
    FailFine(s, BadNumeral);
  }

  lemma StringSound(w: World, t: string, s: State)
    requires Inv(s) && Strings.Decoded(t).Some?
    ensures SoundResult(s, EvalString(w, t, s))
  {
    hide Inv, Ext, Allocate, Strings.Decoded;
    AllocateFine(w, s);
  }

  lemma VarargSound(env: nat, s: State)
    requires Inv(s) && Here(s, env)
    ensures SoundResult(s, EvalVararg(env, s))
  {
    hide Ext, TablesOk, ClosuresOk, CountsOk;
    CallScopeExists(s.scopes, env, |s.tables|, |s.closures|);
    var c := CallScope(s.scopes, env);
    assert ScopeOk(s.scopes[c - 1], c - 1, |s.tables|, |s.closures|);
    FineSelf(s);
  }

  lemma FunctionSound(w: World, c: Closure, s: State)
    requires Inv(s) && ClosureOk(c, |s.scopes|)
    ensures SoundResult(s, EvalFunction(w, c, s))
  {
    hide Ext, BlockFit, Allocate, ScopeOk, RowsOk;
    var d := Allocate(w, s);
    AllocateFine(w, s);
    AllocateKeeps(w, s);
    if d.ok {
      AddClosure(d.s, c);
      FineTrans(s, d.s, d.s.(closures := d.s.closures + [c]));
    }
  }

  lemma AddClosure(s: State, c: Closure)
    requires Inv(s) && ClosureOk(c, |s.scopes|)
    ensures Fine(s, s.(closures := s.closures + [c]))
  {
    hide BlockFit, CountsOk;
    var n := |s.closures| + 1;
    forall i | 0 <= i < |s.scopes| ensures ScopeOk(s.scopes[i], i, |s.tables|, n) {
      assert ScopeOk(s.scopes[i], i, |s.tables|, |s.closures|);
    }
    forall t | 0 <= t < |s.tables| ensures RowsOk(s.tables[t].rows, |s.tables|, n) {
      assert RowsOk(s.tables[t].rows, |s.tables|, |s.closures|);
    }
    assert CountsOk(s.(closures := s.closures + [c])) by { SameCounts(s, s.(closures := s.closures + [c])); }
  }

  lemma SameCounts(s: State, s': State)
    requires CountsOk(s) && s'.scopes == s.scopes && s'.tables == s.tables
    requires s'.bindingCount == s.bindingCount && s'.entryCount == s.entryCount
    ensures CountsOk(s')
  {
  }

  lemma {:induction false} TableSound(w: World, fs: seq<Field>, env: nat, c: Ctx, s: State)
    requires Inv(s) && WorldOk(w) && Here(s, env) && FieldsFit(fs, c)
    ensures SoundResult(s, EvalTable(w, fs, env, s))
    decreases Budget(s), Depth(s), 8
  {
    hide Inv, Ext, EvalTable, EvalFields, NewTable, FieldsFit;
    InvFacts(s);
    SemanticsSteps.TableStep(w, fs, env, s);
    NewTableFine(w, s);
    var d := NewTable(w, s);
    if d.ok {
      StillHere(s, d.s, env, []);
      var t := |d.s.tables| - 1;
      FieldsSound(w, fs, t, 1, env, c, d.s);
      var f := EvalFields(w, fs, t, 1, env, d.s);
      FineTrans(s, d.s, f.s);
      OneLive(TabV(t), d.s);
      StillHere(d.s, f.s, env, [TabV(t)]);
    }
  }

  lemma {:induction false} FieldsSound(w: World, fs: seq<Field>, t: nat, next: nat, env: nat, c: Ctx, s: State)
    requires Inv(s) && WorldOk(w) && Here(s, env) && t < |s.tables| && FieldsFit(fs, c)
    ensures Fine(s, EvalFields(w, fs, t, next, env, s).s)
    decreases Budget(s), Depth(s), 7, fs
  {
    hide Inv, Ext, EvalFields, EvalField, FieldOk, FieldDecodes;
    InvFacts(s);
    FineSelf(s);
    if fs == [] {
      FieldsDone(w, t, next, env, s);
    } else {
      FieldsStep(w, fs, t, next, env, s);
      FieldSound(w, fs[0], |fs| == 1, t, next, env, c, s);
      var d := EvalField(w, fs[0], |fs| == 1, t, next, env, s);
      if d.ok {
        TablesStillHere(s, d.s, t, env);
        FieldsSound(w, fs[1..], t, if fs[0].Item? then next + 1 else next, env, c, d.s);
        FineTrans(s, d.s, EvalFields(w, fs[1..], t, if fs[0].Item? then next + 1 else next, env, d.s).s);
      }
    }
  }

  lemma TablesStillHere(s: State, t: State, table: nat, env: nat)
    requires Fine(s, t) && table < |s.tables| && Here(s, env)
    ensures table < |t.tables| && Here(t, env)
  {
  }

  lemma {:induction false} FieldSound(w: World, f: Field, last: bool, t: nat, next: nat, env: nat, c: Ctx, s: State)
    requires Inv(s) && WorldOk(w) && Here(s, env) && t < |s.tables| && FieldFit(f, c)
    ensures Fine(s, EvalField(w, f, last, t, next, env, s).s)
    decreases Budget(s), Depth(s), 6
  {
    hide Inv, Ext, EvalField, Eval, TableSet, SetAll, Allocate, ExprOk, ExprDecodes;
    InvFacts(s);
    match f
    case Named(n, v) =>
      NamedStep(w, n, v, last, t, next, env, s);
      AllocateFine(w, s);
      var a := Allocate(w, s);
      if a.ok {
        TablesStillHere(s, a.s, t, env);
        EvalSound(w, v, env, c, a.s);
        var r := Eval(w, v, env, a.s);
        FineTrans(s, a.s, r.s);
        if r.Vals? {
          StoreFine(w, s, r, t, StrV(n), env);
        }
      }
    case Keyed(k, v) =>
      KeyedStep(w, k, v, last, t, next, env, s);
      EvalSound(w, k, env, c, s);
      var q := Eval(w, k, env, s);
      if q.Vals? {
        TablesStillHere(s, q.s, t, env);
        EvalSound(w, v, env, c, q.s);
        var r := Eval(w, v, env, q.s);
        FineTrans(s, q.s, r.s);
        if r.Vals? {
          StoreFine(w, s, r, t, First(q.vs), env);
        }
      }
    case Item(v) =>
      ItemStep(w, v, last, t, next, env, s);
      EvalSound(w, v, env, c, s);
      var r := Eval(w, v, env, s);
      if r.Vals? {
        if last {
          TablesStillHere(s, r.s, t, env);
          SetAllFine(w, r.s, t, next, r.vs);
          FineTrans(s, r.s, SetAll(w, r.s, t, next, r.vs).s);
        } else {
          StoreFine(w, s, r, t, NumV(next as real), env);
        }
      }
  }

  /** Storing the first of some evaluated values. */
  lemma StoreFine(w: World, s: State, r: Result, t: nat, k: Value, env: nat)
    requires Fine(s, r.s) && r.Vals? && LiveIn(r.vs, r.s) && t < |s.tables| && Here(s, env)
    ensures Fine(s, TableSet(w, r.s, t, k, First(r.vs)).s)
  {
    hide Inv, Ext, TableSet;
    TablesStillHere(s, r.s, t, env);
    FirstLive(r.vs, r.s);
    TableSetFine(w, r.s, t, k, First(r.vs));
    FineTrans(s, r.s, TableSet(w, r.s, t, k, First(r.vs)).s);
  }

  lemma {:induction false} SetAllFine(w: World, s: State, t: nat, next: nat, vs: seq<Value>)
    requires Inv(s) && t < |s.tables| && LiveIn(vs, s)
    ensures Fine(s, SetAll(w, s, t, next, vs).s)
    decreases vs
  {
    hide Inv, Ext, TableSet, SetAll, LiveIn;
    SetAllStep(w, s, t, next, vs);
    FineSelf(s);
    if vs != [] {
      FirstLive(vs, s);
      TableSetFine(w, s, t, NumV(next as real), vs[0]);
      var d := TableSet(w, s, t, NumV(next as real), vs[0]);
      if d.ok {
        InvFacts(s);
        TablesStillHere(s, d.s, t, GLOBAL);
        StillHere(s, d.s, GLOBAL, vs[1..]);
        SetAllFine(w, d.s, t, next + 1, vs[1..]);
        FineTrans(s, d.s, SetAll(w, d.s, t, next + 1, vs[1..]).s);
      }
    }
  }

  lemma {:induction false} UnarySound(w: World, op: Kind, o: Expr, env: nat, c: Ctx, s: State)
    requires Inv(s) && WorldOk(w) && Here(s, env) && IsUnaryOp(op) && ExprFit(o, c)
    ensures SoundResult(s, EvalUnary(w, op, o, env, s))
    decreases Budget(s), Depth(s), 8
  {
    hide Inv, Ext, EvalUnary, Eval, FinishUnary, ExprFit;
    InvFacts(s);
    UnaryStep(w, op, o, env, s);
    EvalSound(w, o, env, c, s);
    var r := Eval(w, o, env, s);
    if r.Vals? {
      FinishUnarySound(op, First(r.vs), r.s);
      FineTrans(s, r.s, FinishUnary(op, First(r.vs), r.s).s);
    }
  }

  /** An operator never makes a table or a function, and is never refused as ill-formed. */
  predicate Plain(q: Operated) {
    if q.Made? then !q.value.TabV? && !q.value.FunV? else q.why.Some? ==> !IllFormed(q.why.value)
  }

  lemma OperatorPlain(op: Kind, l: Value, r: Value, overflow: Word)
    requires Operates(op)
    ensures Plain(Operate(op, l, r, overflow))
  {
    hide CompareOp, Arithmetic, Plain;
    ComparePlain(op, l, r);
    if !IsComparison(op) {
      ArithmeticPlain(op, l, r, overflow);
    }
  }

  /** A binary operator that is neither a conjunction, a disjunction, an equality nor a concatenation. */
  predicate Operates(op: Kind) {
    Precedence(op) > 0 && op != And && op != Or && op != EqualEqual && op != NotEqual && op != Concat
  }

  lemma UnaryPlain(op: Kind, v: Value, n: nat)
    requires IsUnaryOp(op)
    ensures Plain(UnaryOp(op, v, n))
  {
    hide AsInteger;
  }

  lemma ComparePlain(op: Kind, l: Value, r: Value)
    ensures Plain(CompareOp(op, l, r))
  {
    hide Compare, Ordered;
  }

  lemma ArithmeticPlain(op: Kind, l: Value, r: Value, overflow: Word)
    requires Operates(op) && !IsComparison(op)
    ensures Plain(Arithmetic(op, l, r, overflow))
  {
    hide AsInteger, BitOp, FloorOp, Plain;
    RefusedPlain();
    if l.NumV? && r.NumV? {
      BitPlain(op, l.num, r.num);
      FloorPlain(op, l.num, r.num, overflow);
      NumberPlain(Arithmetic(op, l, r, overflow));
    }
  }

  lemma NumberPlain(q: Operated)
    ensures q.Made? && q.value.NumV? ==> Plain(q)
  {
  }

  lemma RefusedPlain()
    ensures Plain(Refused(Some(BadOperand))) && Plain(Refused(Some(DivisionByZero)))
  {
  }

  lemma BitPlain(op: Kind, l: real, r: real)
    ensures Plain(BitOp(op, l, r))
  {
    hide AsInteger, Shift, Bitwise, Signed, Unsigned;
  }

  lemma FloorPlain(op: Kind, l: real, r: real, overflow: Word)
    ensures Plain(FloorOp(op, l, r, overflow))
  {
    hide Floored, FloorRest;
  }

  lemma FinishUnarySound(op: Kind, v: Value, s: State)
    requires Inv(s) && IsUnaryOp(op)
    ensures SoundResult(s, FinishUnary(op, v, s))
  {
    hide Inv, Ext, UnaryOp, Border;
    var n := if v.TabV? then Border(RowsAt(s, v.table)) else 0;
    UnaryPlain(op, v, n);
    FineSelf(s);
    var q := UnaryOp(op, v, n);
    if q.Refused? && q.why.Some? {
      FailFine(s, q.why.value);
    }
  }

  lemma {:induction false} BinarySound(w: World, op: Kind, l: Expr, r: Expr, env: nat, c: Ctx, s: State)
    requires Inv(s) && WorldOk(w) && Here(s, env) && Precedence(op) > 0 && ExprFit(l, c) && ExprFit(r, c)
    ensures SoundResult(s, EvalBinary(w, op, l, r, env, s))
    decreases Budget(s), Depth(s), 8
  {
    hide Inv, Ext, EvalBinary, Eval, FinishBinary, ExprFit, ShortCircuits, Precedence;
    InvFacts(s);
    BinaryStep(w, op, l, r, env, s);
    EvalSound(w, l, env, c, s);
    var a := Eval(w, l, env, s);
    if a.Vals? {
      FirstLive(a.vs, a.s);
      if !ShortCircuits(op, First(a.vs)) {
        StillHere(s, a.s, env, []);
        EvalSound(w, r, env, c, a.s);
        var b := Eval(w, r, env, a.s);
        FineTrans(s, a.s, b.s);
        if b.Vals? {
          FirstLive(b.vs, b.s);
          if op != And && op != Or {
            FinishBinarySound(w, op, First(a.vs), First(b.vs), b.s);
            FineTrans(s, b.s, FinishBinary(w, op, First(a.vs), First(b.vs), b.s).s);
          }
        }
      }
    }
  }

  lemma FinishBinarySound(w: World, op: Kind, l: Value, r: Value, s: State)
    requires Inv(s) && Precedence(op) > 0 && op != And && op != Or
    ensures SoundResult(s, FinishBinary(w, op, l, r, s))
  {
    hide Inv, Ext, Operate, FinishBinary, FinishConcat, Precedence, Plain, Fail;
    FinishEasily(w, l, r, s);
    FineSelf(s);
    if op == Concat {
      ConcatSound(w, l, r, s);
    } else if op != EqualEqual && op != NotEqual {
      FinishOperator(w, op, l, r, s);
      OperatorPlain(op, l, r, w.overflow);
      PlainSound(Operate(op, l, r, w.overflow), s);
    }
  }

  lemma PlainSound(q: Operated, s: State)
    requires Inv(s) && Plain(q)
    ensures q.Made? ==> LiveIn([q.value], s)
    ensures q.Refused? ==> Fine(s, Refuse(s, q.why))
  {
    hide Inv, Ext;
    FineSelf(s);
    if q.Refused? && q.why.Some? {
      FailFine(s, q.why.value);
    }
  }

  lemma ConcatSound(w: World, l: Value, r: Value, s: State)
    requires Inv(s)
    ensures SoundResult(s, FinishConcat(w, l, r, s))
  {
    hide Inv, Ext, Allocate, ConcatText;
    FailFine(s, BadOperand);
    AllocateFine(w, s);
  }

  lemma {:induction false} MemberSound(w: World, b: Expr, n: string, env: nat, c: Ctx, s: State)
    requires Inv(s) && WorldOk(w) && Here(s, env) && ExprFit(b, c)
    ensures SoundResult(s, EvalMember(w, b, n, env, s))
    decreases Budget(s), Depth(s), 8
  {
    hide Inv, Ext, EvalMember, Eval, RowValue, RowsAt, ExprFit;
    InvFacts(s);
    MemberStep(w, b, n, env, s);
    EvalSound(w, b, env, c, s);
    var r := Eval(w, b, env, s);
    if r.Vals? {
      FailsFine(s, r.s, NotATable);
      if First(r.vs).TabV? {
        RowLive(r.s, First(r.vs).table, StrV(n));
        OneLive(RowValue(RowsAt(r.s, First(r.vs).table), StrV(n)), r.s);
      }
    }
  }

  lemma {:induction false} IndexSound(w: World, b: Expr, k: Expr, env: nat, c: Ctx, s: State)
    requires Inv(s) && WorldOk(w) && Here(s, env) && ExprFit(b, c) && ExprFit(k, c)
    ensures SoundResult(s, EvalIndex(w, b, k, env, s))
    decreases Budget(s), Depth(s), 8
  {
    hide Inv, Ext, EvalIndex, Eval, TableGet, ExprFit;
    InvFacts(s);
    IndexStep(w, b, k, env, s);
    EvalSound(w, b, env, c, s);
    var q := Eval(w, b, env, s);
    if q.Vals? {
      StillHere(s, q.s, env, []);
      EvalSound(w, k, env, c, q.s);
      var r := Eval(w, k, env, q.s);
      FineTrans(s, q.s, r.s);
      if r.Vals? {
        TableGetSound(First(q.vs), First(r.vs), r.s);
        FineTrans(s, r.s, TableGet(First(q.vs), First(r.vs), r.s).s);
      }
    }
  }

  lemma TableGetSound(base: Value, key: Value, s: State)
    requires Inv(s)
    ensures SoundResult(s, TableGet(base, key, s))
  {
    hide Inv, Ext, RowValue, RowsAt;
    FineSelf(s);
    if !base.TabV? {
      FailFine(s, NotATable);
    } else if KeyFault(key).Some? {
      FailFine(s, KeyFault(key).value);
    } else {
      RowLive(s, base.table, key);
      OneLive(RowValue(RowsAt(s, base.table), key), s);
    }
  }

  lemma {:induction false} CallSound(w: World, f: Expr, args: seq<Expr>, env: nat, c: Ctx, s: State)
    requires Inv(s) && WorldOk(w) && Here(s, env) && ExprFit(f, c) && ExprsFit(args, c)
    ensures SoundResult(s, EvalCall(w, f, args, env, s))
    decreases Budget(s), Depth(s), 8
  {
    hide Inv, Ext, EvalCall, Eval, EvalList, CallValue, ExprFit, ExprsFit;
    InvFacts(s);
    CallStep(w, f, args, env, s);
    EvalSound(w, f, env, c, s);
    var q := Eval(w, f, env, s);
    if q.Vals? {
      StillHere(s, q.s, env, []);
      ListSound(w, args, [], env, c, q.s);
      var r := EvalList(w, args, [], env, q.s);
      FineTrans(s, q.s, r.s);
      if r.Vals? {
        FirstLive(q.vs, q.s);
        StillHere(q.s, r.s, env, [First(q.vs)]);
        CallValueSound(w, First(q.vs), r.vs, r.s);
        FineTrans(s, r.s, CallValue(w, First(q.vs), r.vs, r.s).s);
      }
    }
  }

  lemma {:induction false} ListSound(w: World, es: seq<Expr>, acc: seq<Value>, env: nat, c: Ctx, s: State)
    requires Inv(s) && WorldOk(w) && Here(s, env) && ExprsFit(es, c) && LiveIn(acc, s) && |acc| <= MULTI_LIMIT
    ensures SoundResult(s, EvalList(w, es, acc, env, s))
    decreases Budget(s), Depth(s), 7, es
  {
    hide Inv, Ext, EvalList, Eval, ExprOk, ExprDecodes;
    InvFacts(s);
    FineSelf(s);
    if es == [] {
      ListDone(w, acc, env, s);
    } else {
      ListStep(w, es, acc, env, s);
      EvalSound(w, es[0], env, c, s);
      var r := Eval(w, es[0], env, s);
      if r.Vals? {
        FirstLive(r.vs, r.s);
        var more := if |es| == 1 then r.vs else [First(r.vs)];
        StillHere(s, r.s, env, acc);
        FailsFine(s, r.s, TooManyValues);
        if |acc| + |more| <= MULTI_LIMIT {
          ListSound(w, es[1..], acc + more, env, c, r.s);
          FineTrans(s, r.s, EvalList(w, es[1..], acc + more, env, r.s).s);
        }
      }
    }
  }

  // ---- calls -------------------------------------------------------------------------------

  lemma {:induction false} CallValueSound(w: World, f: Value, args: seq<Value>, s: State)
    requires Inv(s) && WorldOk(w) && LiveIn(args, s)
    ensures SoundResult(s, CallValue(w, f, args, s))
    decreases Budget(s), Depth(s), 5
  {
    hide Inv, Ext, CallValue, RunNative, RunClosure, Left;
    InvFacts(s);
    CallValueStep(w, f, args, s);
    if s.callDepth >= DEPTH_LIMIT {
      FailFine(s, TooDeep);
    } else if f.NatV? {
      EnterFine(s, args);
      NativeSound(w, f.native, args, [], Enter(s));
      LeaveSound(s, RunNative(w, f.native, args, [], Enter(s)));
    } else if f.FunV? && f.closure < |s.closures| {
      EnterFine(s, args);
      ClosureIs(s, f.closure);
      ClosureSound(w, s.closures[f.closure], args, Enter(s));
      LeaveSound(s, RunClosure(w, s.closures[f.closure], args, Enter(s)));
    } else {
      FailFine(s, NotCallable);
    }
  }

  lemma EnterFine(s: State, args: seq<Value>)
    requires Inv(s) && s.callDepth < DEPTH_LIMIT
    ensures Inv(Enter(s)) && (LiveIn(args, s) ==> LiveIn(args, Enter(s)))
  {
    hide ScopesOk, TablesOk, ClosuresOk;
  }

  lemma ClosureIs(s: State, i: nat)
    requires Inv(s) && i < |s.closures|
    ensures ClosureOk(s.closures[i], |s.scopes|)
  {
    hide ClosureOk, ScopesOk, TablesOk, CountsOk;
  }

  /** A call that is sound one level deeper is sound. */
  lemma LeaveSound(s: State, r: Result)
    requires Inv(s) && s.callDepth < DEPTH_LIMIT && SoundResult(Enter(s), r)
    ensures SoundResult(s, Left(r))
  {
    hide ScopesOk, TablesOk, ClosuresOk, ScopesKept;
  }

  lemma {:induction false} ClosureSound(w: World, c: Closure, args: seq<Value>, s: State)
    requires Inv(s) && WorldOk(w) && LiveIn(args, s) && ClosureOk(c, |s.scopes|)
    ensures SoundResult(s, RunClosure(w, c, args, s))
    decreases Budget(s), Depth(s), 4
  {
    hide Inv, Ext, RunClosure, NewScope, BindArguments, ExecBlock, OfBody, BlockFit;
    InvFacts(s);
    ClosureStep(w, c, args, s);
    NewScopeFine(w, s, c.scope, true);
    var d := NewScope(w, s, c.scope, true);
    if d.ok {
      var env := |d.s.scopes|;
      BindSound(w, s, c, args);
      var b := BindArguments(w, d.s, env, c, args);
      if b.ok {
        BlockSound(w, c.code, env, Ctx(false, c.variadic), b.s);
        BodySound(s, b.s, ExecBlock(w, c.code, env, b.s), c.variadic);
      }
    }
  }

  /** What a function's or a module's body yields is sound: a `break` has not left it. */
  lemma BodySound(s: State, t: State, f: Flow, vararg: bool)
    requires Fine(s, t) && SoundFlow(t, f, Ctx(false, vararg))
    ensures SoundResult(s, OfBody(f))
  {
    hide Inv, Ext;
    FineTrans(s, t, f.s);
    assert LiveIn([], f.s);
  }

  /** A new scope with the arguments of a call bound in it. */
  lemma BindSound(w: World, s: State, c: Closure, args: seq<Value>)
    requires Inv(s) && LiveIn(args, s) && 0 < c.scope <= |s.scopes| && NewScope(w, s, c.scope, true).ok
    ensures var t := NewScope(w, s, c.scope, true).s;
      var b := BindArguments(w, t, |t.scopes|, c, args);
      Fine(s, b.s) && Here(b.s, |t.scopes|)
  {
    hide Inv, Ext, NewScope, BindArguments, DefineAll, Allocate, WithExtras, LiveIn;
    var t := NewScope(w, s, c.scope, true).s;
    var env := |t.scopes|;
    NewScopeFine(w, s, c.scope, true);
    StillHere(s, t, c.scope, args);
    ArgumentsStep(w, t, env, c, args);
    DefineAllFine(w, t, env, c.params, args);
    var d := DefineAll(w, t, env, c.params, args);
    FineTrans(s, t, d.s);
    StillHere(t, d.s, env, args);
    var extras := ExtraArguments(c, args);
    if d.ok && extras != [] {
      FailsFine(s, d.s, TooManyValues);
      FailKeeps(d.s, TooManyValues);
      AllocateFine(w, d.s);
      var a := Allocate(w, d.s);
      FineTrans(s, d.s, a.s);
      StillHere(d.s, a.s, env, args);
      if |extras| <= MULTI_LIMIT && a.ok {
        ExtrasLive(c, args, a.s);
        ExtrasFine(s, a.s, env, extras);
      }
    }
  }

  lemma ExtrasLive(c: Closure, args: seq<Value>, s: State)
    requires LiveIn(args, s)
    ensures LiveIn(ExtraArguments(c, args), s)
  {
  }

  /** Extra arguments go to a scope that is newer than s. */
  lemma ExtrasFine(s: State, t: State, env: nat, extras: seq<Value>)
    requires Fine(s, t) && |s.scopes| < env <= |t.scopes| && LiveIn(extras, t) && |extras| <= MULTI_LIMIT
    ensures Fine(s, WithExtras(t, env, extras)) && Here(WithExtras(t, env, extras), env)
  {
    var scope := t.scopes[env - 1].(extras := extras);
    assert ScopeOk(t.scopes[env - 1], env - 1, |t.tables|, |t.closures|);
    BindingsUpdated(t.scopes, env - 1, scope);
  }

  lemma {:induction false} DefineAllFine(w: World, s: State, env: nat, names: seq<string>, values: seq<Value>)
    requires Inv(s) && Here(s, env) && LiveIn(values, s)
    ensures Fine(s, DefineAll(w, s, env, names, values).s)
    decreases names
  {
    hide Inv, Ext, Define, DefineAll, LiveIn;
    DefineAllStep(w, s, env, names, values);
    FineSelf(s);
    if names != [] {
      FirstLive(values, s);
      DefineFine(w, s, env, names[0], First(values));
      var d := Define(w, s, env, names[0], First(values));
      if d.ok {
        StillHere(s, d.s, env, Rest(values));
        DefineAllFine(w, d.s, env, names[1..], Rest(values));
        FineTrans(s, d.s, DefineAll(w, d.s, env, names[1..], Rest(values)).s);
      }
    }
  }

  lemma {:induction false} NativeSound(w: World, k: nat, args: seq<Value>, history: seq<Reply>, s: State)
    requires Inv(s) && WorldOk(w)
    ensures SoundResult(s, RunNative(w, k, args, history, s))
    decreases Budget(s), Depth(s), 7, w.patience - |history|
  {
    hide Inv, Ext, RunNative, Perform, KnownAction, Asked;
    InvFacts(s);
    FineSelf(s);
    NativeStep(w, k, args, history, s);
    var t := Asked(s, Request(k, args, history));
    var a := w.act(t.log);
    AskedFine(s, Request(k, args, history));
    if |history| >= w.patience || a.GiveUp? || !KnownAction(a, t) {
      FailsFine(s, t, NativeFailed);
    } else if a.Answer? {
      AnswerLive(a, t);
    } else {
      PerformSound(w, a, t);
      var r := Perform(w, a, t);
      FineTrans(s, t, r.s);
      InvFacts(r.s);
      var history' := history + [if r.Vals? then Replied(r.vs) else Failed];
      NativeSound(w, k, args, history', r.s);
      FineTrans(s, r.s, RunNative(w, k, args, history', r.s).s);
    }
  }

  lemma AskedFine(s: State, q: Event)
    requires Inv(s)
    ensures var t := Asked(s, q); Fine(s, t) && t.instructions == s.instructions && t.callDepth == s.callDepth
  {
    hide ScopesOk, TablesOk, ClosuresOk, ScopesKept;
    ExtSelf(s);
    SameCounts(s, Asked(s, q));
  }

  lemma AnswerLive(a: Action, s: State)
    requires a.Answer? && KnownAction(a, s)
    ensures LiveIn(a.values, s) && |a.values| <= MULTI_LIMIT
  {
    forall i | 0 <= i < |a.values| ensures Live(a.values[i], |s.tables|, |s.closures|) {
      assert Known(a.values[i], s);
    }
  }

  lemma InvokedLive(a: Action, s: State)
    requires a.Invoke? && KnownAction(a, s)
    ensures LiveIn(a.args, s)
  {
    forall i | 0 <= i < |a.args| ensures Live(a.args[i], |s.tables|, |s.closures|) {
      assert Known(a.args[i], s);
    }
  }

  lemma {:induction false} PerformSound(w: World, a: Action, s: State)
    requires Inv(s) && WorldOk(w) && KnownAction(a, s)
    ensures SoundResult(s, Perform(w, a, s))
    decreases Budget(s), Depth(s), 6
  {
    hide Inv, Ext, CallValue, NewTable, TableSet, TableGet, TableRemove, Declare, ExecModule, BlockFit;
    InvFacts(s);
    FineSelf(s);
    match a
    case Invoke(f, args) =>
      InvokedLive(a, s);
      CallValueSound(w, f, args, s);
    case MakeTable =>
      NewTableFine(w, s);
      if NewTable(w, s).ok { OneLive(TabV(|s.tables|), NewTable(w, s).s); }
    case Store(t, k, v) => TableSetFine(w, s, t.table, k, v);
    case Fetch(t, k) => TableGetSound(t, k, s);
    case Discard(t, k) => TableRemoveFine(s, t.table, k);
    case DeclareBook(v) => DeclareFine(w, v, s);
    case RunModule(i, p) =>
      if i < |w.modules| { ModuleSound(w, w.modules[i], p, s); } else { FailFine(s, NativeFailed); }
    case _ =>
  }

  lemma DeclareFine(w: World, v: Value, s: State)
    requires Inv(s)
    ensures Fine(s, Declare(w, v, s).s)
  {
    hide ScopesOk, TablesOk, ClosuresOk, RowValue, RowsAt;
    ExtSelf(s);
    FailFine(s, DeclaredInModule);
    FailFine(s, BadDeclaration);
  }

  lemma {:induction false} ModuleSound(w: World, code: seq<Stmt>, privates: Option<Value>, s: State)
    requires Inv(s) && WorldOk(w) && BlockFit(code, Ctx(false, false)) && (privates.Some? ==> Live(privates.value, |s.tables|, |s.closures|))
    ensures SoundResult(s, ExecModule(w, code, privates, s))
    decreases Budget(s), Depth(s), 4
  {
    hide Inv, Ext, ExecModule, NewScope, Define, ExecBlock, OfBody, BlockFit;
    InvFacts(s);
    ModuleStep(w, code, privates, s);
    NewScopeFine(w, s, GLOBAL, true);
    var d := NewScope(w, s, GLOBAL, true);
    if d.ok {
      var env := |d.s.scopes|;
      if privates.Some? {
        OneLive(privates.value, s);
        StillHere(s, d.s, GLOBAL, [privates.value]);
        FirstLive([privates.value], d.s);
        DefineFine(w, d.s, env, "_kami", privates.value);
      } else {
        FineSelf(d.s);
      }
      var p := if privates.None? then d else Define(w, d.s, env, "_kami", privates.value);
      FineTrans(s, d.s, p.s);
      if p.ok {
        StillHere(d.s, p.s, env, []);
        var t := p.s.(moduleDepth := p.s.moduleDepth + 1);
        DeeperFine(p.s);
        BlockSound(w, code, env, Ctx(false, false), t);
        FineSelf(t);
        BodySound(t, t, ExecBlock(w, code, env, t), false);
        UnloadedSound(s, p.s, OfBody(ExecBlock(w, code, env, t)));
      }
    }
  }

  lemma DeeperFine(s: State)
    requires Inv(s)
    ensures Inv(s.(moduleDepth := s.moduleDepth + 1))
  {
    hide ScopesOk, TablesOk, ClosuresOk;
  }

  /** A module that is sound one level deeper is sound. */
  lemma UnloadedSound(s: State, t: State, r: Result)
    requires Fine(s, t) && SoundResult(t.(moduleDepth := t.moduleDepth + 1), r)
    ensures SoundResult(s, Unloaded(r, s.moduleDepth))
  {
    hide ScopesOk, TablesOk, ClosuresOk, ScopesKept;
    var u := r.s.(moduleDepth := s.moduleDepth);
    assert Fine(t, u);
    FineTrans(s, t, u);
  }

  // ---- statements --------------------------------------------------------------------------

  lemma {:induction false} BlockSound(w: World, ss: seq<Stmt>, env: nat, c: Ctx, s: State)
    requires Inv(s) && WorldOk(w) && Here(s, env) && BlockFit(ss, c)
    ensures SoundFlow(s, ExecBlock(w, ss, env, s), c)
    decreases Budget(s), Depth(s), 2
  {
    hide Inv, Ext, ExecBlock, Exec, StmtOk, StmtDecodes;
    InvFacts(s);
    FineSelf(s);
    if ss == [] {
      BlockDone(w, env, s);
    } else {
      BlockStep(w, ss, env, s);
      ExecSound(w, ss[0], env, c, s);
      var f := Exec(w, ss[0], env, s);
      if f.Next? {
        StillHere(s, f.s, env, []);
        BlockSound(w, ss[1..], env, c, f.s);
        FlowTrans(s, f.s, ExecBlock(w, ss[1..], env, f.s), c);
      }
    }
  }

  lemma FlowTrans(s: State, t: State, f: Flow, c: Ctx)
    requires Fine(s, t) && SoundFlow(t, f, c)
    ensures SoundFlow(s, f, c)
  {
    hide Inv, Ext;
    FineTrans(s, t, f.s);
  }

  lemma {:induction false} ExecSound(w: World, st: Stmt, env: nat, c: Ctx, s: State)
    requires Inv(s) && WorldOk(w) && Here(s, env) && StmtFit(st, c)
    ensures SoundFlow(s, Exec(w, st, env, s), c)
    decreases Budget(s), Depth(s), 1
  {
    hide Inv, Ext, Exec, ExecNode, Tick, StmtFit;
    ExecStep(w, st, env, s);
    TickCounts(w, s);
    TickFine(w, s);
    var t := Tick(w, s);
    if t.ok {
      StillHere(s, t.s, env, []);
      StmtSound(w, st, env, c, t.s);
      FlowTrans(s, t.s, ExecNode(w, st, env, t.s), c);
    }
  }

  lemma {:induction false} StmtSound(w: World, st: Stmt, env: nat, c: Ctx, s: State)
    requires Inv(s) && WorldOk(w) && Here(s, env) && StmtFit(st, c)
    ensures SoundFlow(s, ExecNode(w, st, env, s), c)
    decreases Budget(s), Depth(s), 9
  {
    hide Inv, Ext, ExecNode, ExecCall, ExecAssign, ExecLocal, ExecReturn, ExecFunction, ExecLocalFunction, ExecArms, ExecWhile,
         ExecNumeric, ExecGeneric, ExprOk, ExprDecodes, ExprsOk, ExprsDecode, BlockOk, BlockDecodes, ArmsOk, ArmsDecode;
    InvFacts(s);
    FineSelf(s);
    StmtStep(w, st, env, s);
    ControlStep(w, st, env, s);
    match st
    case CallStmt(e) => CallStmtSound(w, e, env, c, s);
    case Assign(ts, vs) => AssignSound(w, ts, vs, env, c, s);
    case LocalAssign(ns, vs) => LocalSound(w, ns, vs, env, c, s);
    case IfStmt(arms, hasElse, last) => ArmsSound(w, arms, hasElse, last, env, c, s);
    case WhileStmt(e, body) => WhileSound(w, e, body, env, c, s);
    case ForNumeric(n, a, b, step, body) => NumericSound(w, n, a, b, step, body, env, c, s);
    case ForGeneric(ns, vs, body) => GenericSound(w, ns, vs, body, env, c, s);
    case BreakStmt =>
    case ReturnStmt(vs) => ReturnSound(w, vs, env, c, s);
    case FunctionDecl(t, f) => FunctionDeclSound(w, t, f, env, c, s);
    case LocalFunction(n, f) => LocalFunctionSound(w, n, f, env, c, s);
  }

  lemma {:induction false} CallStmtSound(w: World, e: Expr, env: nat, c: Ctx, s: State)
    requires Inv(s) && WorldOk(w) && Here(s, env) && ExprFit(e, c)
    ensures SoundFlow(s, ExecCall(w, e, env, s), c)
    decreases Budget(s), Depth(s), 8
  {
    hide Inv, Ext, Eval, ExecCall, ExprFit;
    InvFacts(s);
    ExprStmtStep(w, e, env, s);
    EvalSound(w, e, env, c, s);
  }

  lemma {:induction false} ReturnSound(w: World, vs: seq<Expr>, env: nat, c: Ctx, s: State)
    requires Inv(s) && WorldOk(w) && Here(s, env) && ExprsFit(vs, c)
    ensures SoundFlow(s, ExecReturn(w, vs, env, s), c)
    decreases Budget(s), Depth(s), 8
  {
    hide Inv, Ext, EvalList, ExecReturn, ExprsFit;
    InvFacts(s);
    ReturnStep(w, vs, env, s);
    ListSound(w, vs, [], env, c, s);
  }

  lemma {:induction false} LocalSound(w: World, ns: seq<string>, vs: seq<Expr>, env: nat, c: Ctx, s: State)
    requires Inv(s) && WorldOk(w) && Here(s, env) && ExprsFit(vs, c)
    ensures SoundFlow(s, ExecLocal(w, ns, vs, env, s), c)
    decreases Budget(s), Depth(s), 8
  {
    hide Inv, Ext, EvalList, ExecLocal, DefineAll, ExprsFit;
    InvFacts(s);
    LocalStep(w, ns, vs, env, s);
    ListSound(w, vs, [], env, c, s);
    var r := EvalList(w, vs, [], env, s);
    if r.Vals? {
      StillHere(s, r.s, env, []);
      DefineAllFine(w, r.s, env, ns, r.vs);
      FineTrans(s, r.s, DefineAll(w, r.s, env, ns, r.vs).s);
    }
  }

  lemma {:induction false} AssignSound(w: World, ts: seq<Expr>, vs: seq<Expr>, env: nat, c: Ctx, s: State)
    requires Inv(s) && WorldOk(w) && Here(s, env) && ExprsFit(ts, c) && AllLvalues(ts) && ExprsFit(vs, c)
    ensures SoundFlow(s, ExecAssign(w, ts, vs, env, s), c)
    decreases Budget(s), Depth(s), 8
  {
    hide Inv, Ext, EvalList, ExecAssign, AssignAll, ExprsFit, AllLvalues;
    InvFacts(s);
    AssignStep(w, ts, vs, env, s);
    ListSound(w, vs, [], env, c, s);
    var r := EvalList(w, vs, [], env, s);
    if r.Vals? {
      StillHere(s, r.s, env, []);
      AssignAllSound(w, ts, r.vs, env, c, r.s);
      FineTrans(s, r.s, AssignAll(w, ts, r.vs, env, r.s).s);
    }
  }

  lemma {:induction false} AssignAllSound(w: World, ts: seq<Expr>, values: seq<Value>, env: nat, c: Ctx, s: State)
    requires Inv(s) && WorldOk(w) && Here(s, env) && ExprsFit(ts, c) && AllLvalues(ts) && LiveIn(values, s)
    ensures Fine(s, AssignAll(w, ts, values, env, s).s)
    decreases Budget(s), Depth(s), 7, ts
  {
    hide Inv, Ext, AssignAll, AssignTo, ExprOk, ExprDecodes, IsLvalue, LiveIn;
    InvFacts(s);
    FineSelf(s);
    AssignAllStep(w, ts, values, env, s);
    if ts != [] {
      FirstLive(values, s);
      AssignToSound(w, ts[0], First(values), env, c, s);
      var d := AssignTo(w, ts[0], First(values), env, s);
      if d.ok {
        StillHere(s, d.s, env, Rest(values));
        AssignAllSound(w, ts[1..], Rest(values), env, c, d.s);
        FineTrans(s, d.s, AssignAll(w, ts[1..], Rest(values), env, d.s).s);
      }
    }
  }

  lemma {:induction false} AssignToSound(w: World, t: Expr, v: Value, env: nat, c: Ctx, s: State)
    requires Inv(s) && WorldOk(w) && Here(s, env) && ExprFit(t, c) && IsLvalue(t) && Live(v, |s.tables|, |s.closures|)
    ensures Fine(s, AssignTo(w, t, v, env, s).s)
    decreases Budget(s), Depth(s), 6
  {
    hide Inv, Ext, AssignTo, Eval, TableSet, Heap.Assign, Allocate;
    InvFacts(s);
    OneLive(v, s);
    match t
    case Var(n) =>
      ToVariable(w, t, v, env, s);
      AssignFine(w, s, env, n, v);
    case Member(b, n) =>
      ToMember(w, t, v, env, s);
      EvalSound(w, b, env, c, s);
      var r := Eval(w, b, env, s);
      if r.Vals? {
        FailsFine(s, r.s, NotATable);
        FirstLive(r.vs, r.s);
        AllocateFine(w, r.s);
        var a := Allocate(w, r.s);
        FineTrans(s, r.s, a.s);
        if First(r.vs).TabV? && a.ok {
          StillHere(r.s, a.s, env, [First(r.vs)]);
          SetFine(w, s, a.s, First(r.vs), StrV(n), v);
        }
      }
    case Index(b, k) =>
      ToIndex(w, t, v, env, s);
      EvalSound(w, b, env, c, s);
      var q := Eval(w, b, env, s);
      if q.Vals? {
        StillHere(s, q.s, env, []);
        EvalSound(w, k, env, c, q.s);
        var r := Eval(w, k, env, q.s);
        FineTrans(s, q.s, r.s);
        if r.Vals? {
          FailsFine(s, r.s, NotATable);
          FirstLive(q.vs, q.s);
          StillHere(q.s, r.s, env, [First(q.vs)]);
          if First(q.vs).TabV? {
            SetFine(w, s, r.s, First(q.vs), First(r.vs), v);
          }
        }
      }
  }

  lemma SetFine(w: World, s: State, t: State, base: Value, k: Value, v: Value)
    requires Fine(s, t) && base.TabV? && LiveIn([base], t) && LiveIn([v], s)
    ensures Fine(s, TableSet(w, t, base.table, k, v).s)
  {
    hide Inv, Ext, TableSet;
    StillHere(s, t, 0, [v]);
    FirstLive([v], t);
    FirstLive([base], t);
    TableSetFine(w, t, base.table, k, v);
    FineTrans(s, t, TableSet(w, t, base.table, k, v).s);
  }

  lemma DottedOk(t: Expr, c: Ctx)
    requires DottedName(t)
    ensures ExprFit(t, c) && IsLvalue(t)
  {
  }

  lemma {:induction false} FunctionDeclSound(w: World, t: Expr, e: Expr, env: nat, c: Ctx, s: State)
    requires Inv(s) && WorldOk(w) && Here(s, env) && DottedName(t) && ExprFit(e, c)
    ensures SoundFlow(s, ExecFunction(w, t, e, env, s), c)
    decreases Budget(s), Depth(s), 8
  {
    hide Inv, Ext, Eval, ExecFunction, AssignTo, ExprFit;
    InvFacts(s);
    FunctionStep(w, t, e, env, s);
    EvalSound(w, e, env, c, s);
    var r := Eval(w, e, env, s);
    if r.Vals? {
      StillHere(s, r.s, env, []);
      FirstLive(r.vs, r.s);
      DottedOk(t, c);
      AssignToSound(w, t, First(r.vs), env, c, r.s);
      FineTrans(s, r.s, AssignTo(w, t, First(r.vs), env, r.s).s);
    }
  }

  lemma {:induction false} LocalFunctionSound(w: World, n: string, e: Expr, env: nat, c: Ctx, s: State)
    requires Inv(s) && WorldOk(w) && Here(s, env) && ExprFit(e, c)
    ensures SoundFlow(s, ExecLocalFunction(w, n, e, env, s), c)
    decreases Budget(s), Depth(s), 8
  {
    hide Inv, Ext, Eval, ExecLocalFunction, Define, ExprFit;
    InvFacts(s);
    LocalFunctionStep(w, n, e, env, s);
    DefineFine(w, s, env, n, NilV);
    var d := Define(w, s, env, n, NilV);
    if d.ok {
      StillHere(s, d.s, env, []);
      EvalSound(w, e, env, c, d.s);
      var r := Eval(w, e, env, d.s);
      FineTrans(s, d.s, r.s);
      if r.Vals? {
        StillHere(s, r.s, env, []);
        FirstLive(r.vs, r.s);
        RebindFine(r.s, env, n, First(r.vs));
        FineTrans(s, r.s, Rebound(r.s, env, n, First(r.vs)));
      }
    }
  }

  lemma {:induction false} ArmsSound(w: World, arms: seq<Arm>, hasElse: bool, last: seq<Stmt>, env: nat, c: Ctx, s: State)
    requires Inv(s) && WorldOk(w) && Here(s, env) && ArmsFit(arms, c) && BlockFit(last, c)
    ensures SoundFlow(s, ExecArms(w, arms, hasElse, last, env, s), c)
    decreases Budget(s), Depth(s), 8, arms
  {
    hide Inv, Ext, Eval, ExecArms, ExecScoped, BlockOk, BlockDecodes, ExprOk, ExprDecodes;
    InvFacts(s);
    FineSelf(s);
    if arms == [] {
      ArmsDone(w, hasElse, last, env, s);
      ScopedSound(w, last, env, c, s);
    } else {
      ArmsStep(w, arms, hasElse, last, env, s);
      assert ArmFit(arms[0], c);
      EvalSound(w, arms[0].guard, env, c, s);
      var r := Eval(w, arms[0].guard, env, s);
      if r.Vals? {
        StillHere(s, r.s, env, []);
        if Truthy(First(r.vs)) {
          ScopedSound(w, arms[0].body, env, c, r.s);
          FlowTrans(s, r.s, ExecScoped(w, arms[0].body, env, r.s), c);
        } else {
          ArmsSound(w, arms[1..], hasElse, last, env, c, r.s);
          FlowTrans(s, r.s, ExecArms(w, arms[1..], hasElse, last, env, r.s), c);
        }
      }
    }
  }

  lemma {:induction false} ScopedSound(w: World, ss: seq<Stmt>, env: nat, c: Ctx, s: State)
    requires Inv(s) && WorldOk(w) && Here(s, env) && BlockFit(ss, c)
    ensures SoundFlow(s, ExecScoped(w, ss, env, s), c)
    decreases Budget(s), Depth(s), 3
  {
    hide Inv, Ext, ExecScoped, ExecBlock, NewScope, BlockFit;
    InvFacts(s);
    ScopedStep(w, ss, env, s);
    NewScopeFine(w, s, env, false);
    var d := NewScope(w, s, env, false);
    if d.ok {
      BlockSound(w, ss, |d.s.scopes|, c, d.s);
      FlowTrans(s, d.s, ExecBlock(w, ss, |d.s.scopes|, d.s), c);
    }
  }

  /** The body of a loop may break; the loop itself then goes on after it. */
  function Loop(c: Ctx): Ctx { c.(inLoop := true) }

  lemma RoundSound(s: State, t: State, f: Flow, c: Ctx)
    requires Fine(s, t) && SoundFlow(t, f, Loop(c))
    ensures Fine(s, f.s)
    ensures f.Broke? ==> SoundFlow(s, Next(f.s), c)
    ensures !f.Broke? ==> SoundFlow(s, f, c)
  {
    hide Inv, Ext;
    FineTrans(s, t, f.s);
  }

  lemma {:induction false} WhileSound(w: World, e: Expr, body: seq<Stmt>, env: nat, c: Ctx, s: State)
    requires Inv(s) && WorldOk(w) && Here(s, env) && ExprFit(e, c) && BlockFit(body, Loop(c))
    ensures SoundFlow(s, ExecWhile(w, e, body, env, s), c)
    decreases Budget(s), Depth(s), 8
  {
    hide Inv, Ext, Eval, ExecWhile, ExecScoped, BlockFit, ExprFit;
    InvFacts(s);
    WhileStep(w, e, body, env, s);
    EvalSound(w, e, env, c, s);
    var r := Eval(w, e, env, s);
    if r.Vals? && Truthy(First(r.vs)) {
      StillHere(s, r.s, env, []);
      ScopedSound(w, body, env, Loop(c), r.s);
      var f := ExecScoped(w, body, env, r.s);
      RoundSound(s, r.s, f, c);
      if f.Next? {
        StillHere(s, f.s, env, []);
        WhileSound(w, e, body, env, c, f.s);
        FlowTrans(s, f.s, ExecWhile(w, e, body, env, f.s), c);
      }
    }
  }

  lemma {:induction false} NumericSound(w: World, n: string, a: Expr, b: Expr, st: Option<Expr>, body: seq<Stmt>, env: nat, c: Ctx, s: State)
    requires Inv(s) && WorldOk(w) && Here(s, env) && ExprFit(a, c) && ExprFit(b, c) && (st.Some? ==> ExprFit(st.value, c)) && BlockFit(body, Loop(c))
    ensures SoundFlow(s, ExecNumeric(w, n, a, b, st, body, env, s), c)
    decreases Budget(s), Depth(s), 8
  {
    hide Inv, Ext, Eval, Semantics.EvalStep, ExecNumeric, StartNumeric, BlockFit, ExprFit;
    InvFacts(s);
    NumericStep(w, n, a, b, st, body, env, s);
    EvalSound(w, a, env, c, s);
    var p := Eval(w, a, env, s);
    if p.Vals? {
      StillHere(s, p.s, env, []);
      EvalSound(w, b, env, c, p.s);
      var q := Eval(w, b, env, p.s);
      FineTrans(s, p.s, q.s);
      if q.Vals? {
        StillHere(s, q.s, env, []);
        StepSound(w, st, env, c, q.s);
        var r := Semantics.EvalStep(w, st, env, q.s);
        FineTrans(s, q.s, r.s);
        if r.Vals? {
          StillHere(s, r.s, env, []);
          StartSound(w, n, First(p.vs), First(q.vs), First(r.vs), body, env, c, r.s);
          FlowTrans(s, r.s, StartNumeric(w, n, First(p.vs), First(q.vs), First(r.vs), body, env, r.s), c);
        }
      }
    }
  }

  lemma {:induction false} StepSound(w: World, st: Option<Expr>, env: nat, c: Ctx, s: State)
    requires Inv(s) && WorldOk(w) && Here(s, env) && (st.Some? ==> ExprFit(st.value, c))
    ensures SoundResult(s, Semantics.EvalStep(w, st, env, s))
    decreases Budget(s), Depth(s), 7
  {
    hide Inv, Ext, Eval, Semantics.EvalStep, ExprFit;
    InvFacts(s);
    FineSelf(s);
    StepStep(w, st, env, s);
    OneLive(NumV(1.0), s);
    if st.Some? {
      EvalSound(w, st.value, env, c, s);
    }
  }

  lemma {:induction false} StartSound(w: World, n: string, x: Value, y: Value, z: Value, body: seq<Stmt>, env: nat, c: Ctx, s: State)
    requires Inv(s) && WorldOk(w) && Here(s, env) && BlockFit(body, Loop(c))
    ensures SoundFlow(s, StartNumeric(w, n, x, y, z, body, env, s), c)
    decreases Budget(s), Depth(s), 7
  {
    hide Inv, Ext, StartNumeric, NumericLoop, NewScope, Define, BlockFit, LoopBounds;
    InvFacts(s);
    StartStep(w, n, x, y, z, body, env, s);
    FailFine(s, BadLoopBounds);
    if LoopBounds(x, y, z) {
      NewScopeFine(w, s, env, false);
      var d := NewScope(w, s, env, false);
      if d.ok {
        var loop := |d.s.scopes|;
        DefineFine(w, d.s, loop, n, x);
        var g := Define(w, d.s, loop, n, x);
        FineTrans(s, d.s, g.s);
        if g.ok {
          StillHere(d.s, g.s, loop, []);
          LoopSound(w, n, x.num, y.num, z.num, body, loop, c, g.s);
          FlowTrans(s, g.s, NumericLoop(w, n, x.num, y.num, z.num, body, loop, g.s), c);
        }
      }
    }
  }

  lemma {:induction false} LoopSound(w: World, n: string, current: real, last: real, step: real, body: seq<Stmt>, env: nat, c: Ctx, s: State)
    requires Inv(s) && WorldOk(w) && Here(s, env) && BlockFit(body, Loop(c))
    ensures SoundFlow(s, NumericLoop(w, n, current, last, step, body, env, s), c)
    decreases Budget(s), Depth(s), 6
  {
    hide Inv, Ext, NumericLoop, ExecScoped, Tick, Rebound, InRange, BlockFit;
    InvFacts(s);
    FineSelf(s);
    if !InRange(current, last, step) {
      NumericDone(w, n, current, last, step, body, env, s);
    } else {
      NumericGoesOn(w, n, current, last, step, body, env, s);
      TickCounts(w, s);
      TickFine(w, s);
      var d := Tick(w, s);
      if d.ok {
        StillHere(s, d.s, env, []);
        CounterFine(s, d.s, env, n, current);
        var t := Rebound(d.s, env, n, NumV(current));
        StillHere(s, t, env, []);
        InvFacts(t);
        ScopedSound(w, body, env, Loop(c), t);
        var f := ExecScoped(w, body, env, t);
        RoundSound(s, t, f, c);
        if f.Next? {
          StillHere(s, f.s, env, []);
          LoopSound(w, n, current + step, last, step, body, env, c, f.s);
          FlowTrans(s, f.s, NumericLoop(w, n, current + step, last, step, body, env, f.s), c);
        }
      }
    }
  }

  lemma CounterFine(s: State, t: State, env: nat, n: string, current: real)
    requires Fine(s, t) && Here(t, env)
    ensures Fine(s, Rebound(t, env, n, NumV(current)))
  {
    hide Inv, Ext;
    RebindFine(t, env, n, NumV(current));
    FineTrans(s, t, Rebound(t, env, n, NumV(current)));
  }

  lemma {:induction false} GenericSound(w: World, ns: seq<string>, vs: seq<Expr>, body: seq<Stmt>, env: nat, c: Ctx, s: State)
    requires Inv(s) && WorldOk(w) && Here(s, env) && ExprsFit(vs, c) && BlockFit(body, Loop(c))
    ensures SoundFlow(s, ExecGeneric(w, ns, vs, body, env, s), c)
    decreases Budget(s), Depth(s), 8
  {
    hide Inv, Ext, EvalList, ExecGeneric, GenericLoop, NewScope, BlockFit, ExprsFit, LiveIn;
    InvFacts(s);
    GenericStep(w, ns, vs, body, env, s);
    NothingLive(s);
    ListSound(w, vs, [], env, c, s);
    var r := EvalList(w, vs, [], env, s);
    if r.Vals? {
      StillHere(s, r.s, env, []);
      NewScopeFine(w, r.s, env, false);
      var d := NewScope(w, r.s, env, false);
      FineTrans(s, r.s, d.s);
      if d.ok {
        StillHere(r.s, d.s, env, r.vs);
        ThreeLive(r.vs, d.s);
        RepeatSound(w, ns, Nth(r.vs, 0), Nth(r.vs, 1), Nth(r.vs, 2), body, |d.s.scopes|, c, d.s);
        FlowTrans(s, d.s, GenericLoop(w, ns, Nth(r.vs, 0), Nth(r.vs, 1), Nth(r.vs, 2), body, |d.s.scopes|, d.s), c);
      }
    }
  }

  lemma NothingLive(s: State)
    ensures LiveIn([], s)
  {
  }

  lemma ThreeLive(vs: seq<Value>, s: State)
    requires LiveIn(vs, s)
    ensures LiveIn([Nth(vs, 0), Nth(vs, 1), Nth(vs, 2)], s)
  {
  }

  lemma PairLive(source: Value, fixed: Value, control: Value, s: State)
    requires LiveIn([source, fixed, control], s)
    ensures LiveIn([fixed, control], s)
  {
    assert Live([source, fixed, control][1], |s.tables|, |s.closures|);
    assert Live([source, fixed, control][2], |s.tables|, |s.closures|);
  }

  lemma NextLive(source: Value, fixed: Value, control: Value, vs: seq<Value>, s: State)
    requires LiveIn([source, fixed, control], s) && LiveIn(vs, s)
    ensures LiveIn([source, fixed, First(vs)], s)
  {
    assert Live([source, fixed, control][0], |s.tables|, |s.closures|);
    assert Live([source, fixed, control][1], |s.tables|, |s.closures|);
  }

  lemma {:induction false} RepeatSound(w: World, ns: seq<string>, source: Value, fixed: Value, control: Value, body: seq<Stmt>, env: nat, c: Ctx, s: State)
    requires Inv(s) && WorldOk(w) && Here(s, env) && BlockFit(body, Loop(c)) && LiveIn([source, fixed, control], s)
    ensures SoundFlow(s, GenericLoop(w, ns, source, fixed, control, body, env, s), c)
    decreases Budget(s), Depth(s), 6
  {
    hide Inv, Ext, GenericLoop, CallValue, ExecIteration, Tick, BlockFit, LiveIn;
    InvFacts(s);
    GenericGoesOn(w, ns, source, fixed, control, body, env, s);
    TickCounts(w, s);
    TickFine(w, s);
    var d := Tick(w, s);
    if d.ok {
      StillHere(s, d.s, env, [source, fixed, control]);
      PairLive(source, fixed, control, d.s);
      CallValueSound(w, source, [fixed, control], d.s);
      var r := CallValue(w, source, [fixed, control], d.s);
      FineTrans(s, d.s, r.s);
      if r.Vals? && First(r.vs) != NilV {
        StillHere(d.s, r.s, env, [source, fixed, control]);
        IterationSound(w, ns, r.vs, body, env, c, r.s);
        var f := ExecIteration(w, ns, r.vs, body, env, r.s);
        RoundSound(s, r.s, f, c);
        if f.Next? {
          NextLive(source, fixed, control, r.vs, r.s);
          StillHere(r.s, f.s, env, [source, fixed, First(r.vs)]);
          RepeatSound(w, ns, source, fixed, First(r.vs), body, env, c, f.s);
          FlowTrans(s, f.s, GenericLoop(w, ns, source, fixed, First(r.vs), body, env, f.s), c);
        }
      }
    }
  }

  lemma {:induction false} IterationSound(w: World, ns: seq<string>, vs: seq<Value>, body: seq<Stmt>, env: nat, c: Ctx, s: State)
    requires Inv(s) && WorldOk(w) && Here(s, env) && BlockFit(body, Loop(c)) && LiveIn(vs, s)
    ensures SoundFlow(s, ExecIteration(w, ns, vs, body, env, s), Loop(c))
    decreases Budget(s), Depth(s), 3
  {
    hide Inv, Ext, ExecIteration, ExecBlock, NewScope, DefineAll, BlockFit, LiveIn;
    InvFacts(s);
    IterationStep(w, ns, vs, body, env, s);
    NewScopeFine(w, s, env, false);
    var d := NewScope(w, s, env, false);
    if d.ok {
      var scope := |d.s.scopes|;
      StillHere(s, d.s, env, vs);
      DefineAllFine(w, d.s, scope, ns, vs);
      var g := DefineAll(w, d.s, scope, ns, vs);
      FineTrans(s, d.s, g.s);
      if g.ok {
        StillHere(d.s, g.s, scope, []);
        BlockSound(w, body, scope, Loop(c), g.s);
        FlowTrans(s, g.s, ExecBlock(w, body, scope, g.s), Loop(c));
      }
    }
  }

  // ---- whole runs --------------------------------------------------------------------------

  /** A run of a well-formed Book from a sound heap ends in a sound heap: the counters still add
      up and respect their limits, both depths are back where they were, and the Book has not
      stopped for a reason only an ill-formed program could give. */
  lemma RunSound(w: World, code: seq<Stmt>, s: State)
    requires Inv(s) && WorldOk(w) && BlockFit(code, Ctx(false, false))
    ensures var r := Run(w, code, s);
      && SoundResult(s, r)
      && r.s.callDepth == s.callDepth && r.s.moduleDepth == s.moduleDepth
      && r.s.instructions <= INSTRUCTION_LIMIT
      && r.s.bindingCount == TotalBindings(r.s.scopes) <= BINDING_LIMIT
      && r.s.entryCount == TotalRows(r.s.tables) <= ENTRY_LIMIT
      && !r.s.fault.illFormed
  {
    hide ScopesOk, TablesOk, ClosuresOk, ScopesKept, ExecBlock, OfBody, BlockFit;
    InvFacts(s);
    BlockSound(w, code, GLOBAL, Ctx(false, false), s);
    FineSelf(s);
    var f := ExecBlock(w, code, GLOBAL, s);
    BodySound(s, s, f, false);
    FailsFine(s, OfBody(f).s, NotDeclared);
  }
}
