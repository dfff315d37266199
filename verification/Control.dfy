/** Which way control goes, with its tests written out: a value counts as true if it is neither nil nor
    false, and a step is taken while there is time and the budget lasts. */
module Control {
  import opened Tokens
  import opened Syntax
  import opened Values
  import opened Heap
  import opened Semantics
  import opened SemanticsSteps
  import Invariants
  import Scoping
  import Strings
  import Tables

  /** Some values whose first one is neither nil nor false. */
  predicate Yes(vs: seq<Value>) { vs != [] && vs[0] != NilV && vs[0] != BoolV(false) }

  /** The first of some values, nil if there is none. */
  function Head(vs: seq<Value>): Value { if vs == [] then NilV else vs[0] }

  /** One more step may be taken; the deadline counts at every 256th step only. */
  predicate Ready(w: World, s: State) {
    s.instructions < 1000000 && !(s.instructions % 256 == 0 && w.expired(s.instructions))
  }

  function Started(s: State): State { s.(instructions := s.instructions + 1) }

  lemma ReadyTicks(w: World, s: State)
    ensures Tick(w, s).ok <==> Ready(w, s)
    ensures Ready(w, s) ==> Tick(w, s).s == Started(s)
  {
  }

  lemma YesIsTruthy(vs: seq<Value>)
    ensures Yes(vs) <==> Truthy(First(vs))
    ensures Head(vs) == First(vs)
  {
  }

  // ---- operators ---------------------------------------------------------------------------

  /** The right operand of `and` is looked at if the left one counts as true, that of `or` if it does not;
      otherwise the left one is the value. */
  lemma LogicalIs(w: World, op: Kind, l: Expr, r: Expr, env: nat, s: State)
    requires s.instructions < INSTRUCTION_LIMIT && (op == And || op == Or) && Ready(w, s)
    ensures var a := Eval(w, l, env, Started(s));
      Eval(w, Binary(op, l, r), env, s)
      == if a.Stop? then a
         else if (op == And) != Yes(a.vs) then Vals([Head(a.vs)], a.s)
         else var b := Eval(w, r, env, a.s); if b.Stop? then b else Vals([Head(b.vs)], b.s)
  {
    hide Eval, EvalNode, EvalBinary, Truthy, First, Yes, Head, Ready, Started, Tick;
    LogicalNode(w, op, l, r, env, s);
    var a := Eval(w, l, env, Started(s));
    if a.Vals? {
      YesIsTruthy(a.vs);
      var b := Eval(w, r, env, a.s);
      if b.Vals? { YesIsTruthy(b.vs); }
    }
  }

  lemma LogicalNode(w: World, op: Kind, l: Expr, r: Expr, env: nat, s: State)
    requires s.instructions < INSTRUCTION_LIMIT && (op == And || op == Or) && Ready(w, s)
    ensures var a := Eval(w, l, env, Started(s));
      Eval(w, Binary(op, l, r), env, s)
      == if a.Stop? then a
         else if (op == And) != Truthy(First(a.vs)) then Vals([First(a.vs)], a.s)
         else var b := Eval(w, r, env, a.s); if b.Stop? then b else Vals([First(b.vs)], b.s)
  {
    hide Eval, EvalNode, EvalBinary, Truthy, First, Ready, Tick, FinishBinary;
    ReadyTicks(w, s);
    SemanticsSteps.EvalStep(w, Binary(op, l, r), env, s);
    NodeStep(w, Binary(op, l, r), env, Started(s));
    BinaryStep(w, op, l, r, env, Started(s));
  }

  // ---- if ----------------------------------------------------------------------------------

  /** The guards of the first arms, one state before each and one after the last, give values that do
      not count as true. */
  ghost predicate PassedOver(w: World, arms: seq<Arm>, env: nat, states: seq<State>) {
    && 0 < |states| <= |arms| + 1
    && forall i :: 0 <= i < |states| - 1 ==> GuardFails(w, arms[i], env, states[i], states[i + 1])
  }

  ghost predicate GuardFails(w: World, arm: Arm, env: nat, s: State, s': State) {
    var r := Eval(w, arm.guard, env, s);
    r.Vals? && !Yes(r.vs) && r.s == s'
  }

  /** The block of the first arm whose guard counts as true runs, that of `else` if none does, or nothing;
      no guard after that arm is looked at. */
  lemma {:induction false} IfIs(w: World, arms: seq<Arm>, hasElse: bool, last: seq<Stmt>, env: nat, s: State)
    returns (states: seq<State>)
    requires s.instructions <= INSTRUCTION_LIMIT
    ensures PassedOver(w, arms, env, states) && states[0] == s
    ensures var k, s' := |states| - 1, states[|states| - 1];
      && s'.instructions <= INSTRUCTION_LIMIT
      && if k == |arms| then ExecArms(w, arms, hasElse, last, env, s) == if hasElse then ExecScoped(w, last, env, s') else Next(s')
         else var r := Eval(w, arms[k].guard, env, s');
           if r.Stop? then ExecArms(w, arms, hasElse, last, env, s) == Halted(r.s)
           else Yes(r.vs) && ExecArms(w, arms, hasElse, last, env, s) == ExecScoped(w, arms[k].body, env, r.s)
    decreases arms
  {
    hide Eval, ExecArms, ExecScoped, Truthy, First, Yes;
    states := [s];
    if arms == [] {
      ArmsDone(w, hasElse, last, env, s);
    } else {
      ArmsStep(w, arms, hasElse, last, env, s);
      var r := Eval(w, arms[0].guard, env, s);
      if r.Vals? {
        YesIsTruthy(r.vs);
        if !Yes(r.vs) {
          var more := IfIs(w, arms[1..], hasElse, last, env, r.s);
          states := [s] + more;
          forall i | 0 <= i < |states| - 1 ensures GuardFails(w, arms[i], env, states[i], states[i + 1]) {
            if i > 0 { assert GuardFails(w, arms[1..][i - 1], env, more[i - 1], more[i]); }
          }
        }
      }
    }
  }

  // ---- while -------------------------------------------------------------------------------

  /** Rounds of a loop that went on to the next one, with the states before each test. */
  ghost predicate Repeats(w: World, e: Expr, body: seq<Stmt>, env: nat, states: seq<State>) {
    && states != []
    && forall i :: 0 <= i < |states| - 1 ==> Round(w, e, body, env, states[i], states[i + 1])
  }

  ghost predicate Round(w: World, e: Expr, body: seq<Stmt>, env: nat, s: State, s': State) {
    var r := Eval(w, e, env, s);
    r.Vals? && Yes(r.vs) && ExecScoped(w, body, env, r.s) == Next(s')
  }

  /** The condition is tested before every round, and the loop is over when it does not count as true,
      after a `break`, or when the body leaves it otherwise. */
  lemma {:induction false} WhileIs(w: World, e: Expr, body: seq<Stmt>, env: nat, s: State) returns (states: seq<State>)
    requires s.instructions <= INSTRUCTION_LIMIT
    ensures Repeats(w, e, body, env, states) && states[0] == s
    ensures var s' := states[|states| - 1];
      var r := Eval(w, e, env, s');
      if r.Stop? then ExecWhile(w, e, body, env, s) == Halted(r.s)
      else if !Yes(r.vs) then ExecWhile(w, e, body, env, s) == Next(r.s)
      else
        var f := ExecScoped(w, body, env, r.s);
        && !f.Next?
        && ExecWhile(w, e, body, env, s) == if f.Broke? then Next(f.s) else f
    decreases INSTRUCTION_LIMIT - s.instructions
  {
    hide Eval, ExecWhile, ExecScoped, Truthy, First, Yes;
    states := [s];
    WhileStep(w, e, body, env, s);
    var r := Eval(w, e, env, s);
    if r.Vals? {
      YesIsTruthy(r.vs);
      if Yes(r.vs) {
        var f := ExecScoped(w, body, env, r.s);
        if f.Next? {
          var more := WhileIs(w, e, body, env, f.s);
          states := [s] + more;
          forall i | 0 <= i < |states| - 1 ensures Round(w, e, body, env, states[i], states[i + 1]) {
            if i > 0 { assert Round(w, e, body, env, more[i - 1], more[i]); }
          }
        }
      }
    }
  }

  // ---- numeric for -------------------------------------------------------------------------

  /** The i-th value of a counter. */
  function CountAt(first: real, step: real, i: nat): real { first + i as real * step }

  /** A number past the last one in the direction of the step. */
  predicate Beyond(x: real, last: real, step: real) { (step > 0.0 && x > last) || (step <= 0.0 && x < last) }

  /** Rounds of a numeric loop, with the states before each: round i runs the body with the counter at
      first + i * step, which is not beyond the last number. */
  ghost predicate Counts(w: World, n: string, first: real, last: real, step: real, body: seq<Stmt>, loop: nat, states: seq<State>) {
    && states != []
    && forall i: nat :: i < |states| - 1 ==>
         Counted(w, n, CountAt(first, step, i), last, step, body, loop, states[i], states[i + 1])
  }

  ghost predicate Counted(w: World, n: string, x: real, last: real, step: real, body: seq<Stmt>, loop: nat, s: State, s': State) {
    && Ready(w, s) && !Beyond(x, last, step)
    && ExecScoped(w, body, loop, Rebound(Started(s), loop, n, NumV(x))) == Next(s')
  }

  /** How a numeric loop is over: the counter is beyond the last number, there is no step left, or the
      body leaves it. */
  ghost predicate CountEnds(w: World, n: string, x: real, last: real, step: real, body: seq<Stmt>, loop: nat, s: State, f: Flow) {
    if Beyond(x, last, step) then f == Next(s)
    else if !Ready(w, s) then f.Halted?
    else
      var g := ExecScoped(w, body, loop, Rebound(Started(s), loop, n, NumV(x)));
      !g.Next? && f == if g.Broke? then Next(g.s) else g
  }

  /** A numeric loop runs its body with first, first + step, and so on, up to and with the last number. */
  lemma {:induction false} CountingIs(w: World, n: string, first: real, last: real, step: real, body: seq<Stmt>, loop: nat, s: State)
    returns (states: seq<State>)
    requires s.instructions <= INSTRUCTION_LIMIT
    ensures Counts(w, n, first, last, step, body, loop, states) && states[0] == s
    ensures CountEnds(w, n, CountAt(first, step, |states| - 1), last, step, body, loop, states[|states| - 1],
                      NumericLoop(w, n, first, last, step, body, loop, s))
    decreases INSTRUCTION_LIMIT - s.instructions
  {
    hide NumericLoop, ExecScoped, Rebound, Started, CountAt, Counted, CountEnds, CountGoesOn;
    states := [s];
    CountOn(first, step, 0);
    if CountGoesOn(w, n, first, last, step, body, loop, s) {
      var s' := CountingGoesOn(w, n, first, last, step, body, loop, s);
      var more := CountingIs(w, n, first + step, last, step, body, loop, s');
      states := [s] + more;
      CountsBefore(w, n, first, last, step, body, loop, s, more);
      CountOn(first, step, |more| - 1);
    } else {
      CountingEnds(w, n, first, last, step, body, loop, s);
    }
  }

  ghost predicate CountGoesOn(w: World, n: string, x: real, last: real, step: real, body: seq<Stmt>, loop: nat, s: State) {
    Ready(w, s) && !Beyond(x, last, step) && ExecScoped(w, body, loop, Rebound(Started(s), loop, n, NumV(x))).Next?
  }

  lemma CountingGoesOn(w: World, n: string, x: real, last: real, step: real, body: seq<Stmt>, loop: nat, s: State) returns (s': State)
    requires s.instructions <= INSTRUCTION_LIMIT && CountGoesOn(w, n, x, last, step, body, loop, s)
    ensures s.instructions < s'.instructions <= INSTRUCTION_LIMIT && Counted(w, n, x, last, step, body, loop, s, s')
    ensures NumericLoop(w, n, x, last, step, body, loop, s) == NumericLoop(w, n, x + step, last, step, body, loop, s')
  {
    hide NumericLoop, ExecScoped, Rebound, Tick, Ready, Started, InRange, Beyond;
    BeyondRange(x, last, step);
    NumericGoesOn(w, n, x, last, step, body, loop, s);
    ReadyTicks(w, s);
    ReadyLater(w, s);
    s' := ExecScoped(w, body, loop, Rebound(Started(s), loop, n, NumV(x))).s;
  }

  lemma CountingEnds(w: World, n: string, x: real, last: real, step: real, body: seq<Stmt>, loop: nat, s: State)
    requires s.instructions <= INSTRUCTION_LIMIT && !CountGoesOn(w, n, x, last, step, body, loop, s)
    ensures CountEnds(w, n, x, last, step, body, loop, s, NumericLoop(w, n, x, last, step, body, loop, s))
  {
    hide NumericLoop, ExecScoped, Rebound, Tick, Ready, Started, InRange, Beyond;
    BeyondRange(x, last, step);
    if Beyond(x, last, step) {
      NumericDone(w, n, x, last, step, body, loop, s);
    } else {
      NumericGoesOn(w, n, x, last, step, body, loop, s);
      ReadyTicks(w, s);
      ReadyLater(w, s);
    }
  }

  lemma CountsBefore(w: World, n: string, first: real, last: real, step: real, body: seq<Stmt>, loop: nat, s: State, more: seq<State>)
    requires more != [] && Counted(w, n, first, last, step, body, loop, s, more[0])
    requires Counts(w, n, first + step, last, step, body, loop, more)
    ensures Counts(w, n, first, last, step, body, loop, [s] + more)
  {
    hide Counted, CountAt;
    var states := [s] + more;
    forall i: nat | i < |states| - 1
      ensures Counted(w, n, CountAt(first, step, i), last, step, body, loop, states[i], states[i + 1])
    {
      CountOn(first, step, 0);
      if i > 0 {
        CountOn(first, step, i - 1);
        assert Counted(w, n, CountAt(first + step, step, i - 1), last, step, body, loop, more[i - 1], more[i]);
      }
    }
  }

  lemma BeyondRange(x: real, last: real, step: real)
    ensures Beyond(x, last, step) <==> !InRange(x, last, step)
  {
  }

  lemma ReadyLater(w: World, s: State)
    ensures Ready(w, s) ==> Started(s).instructions == s.instructions + 1 && s.instructions < INSTRUCTION_LIMIT
  {
  }

  lemma CountOn(first: real, step: real, i: nat)
    ensures CountAt(first + step, step, i) == CountAt(first, step, i + 1)
    ensures CountAt(first, step, 0) == first
  {
    assert (i + 1) as real == i as real + 1.0;
  }

  /** Where a numeric loop starts: three numbers, the step not zero and one if it is not given. */
  lemma StartIs(w: World, n: string, a: Value, b: Value, c: Value, body: seq<Stmt>, env: nat, s: State)
    requires s.instructions <= INSTRUCTION_LIMIT
    ensures !a.NumV? || !b.NumV? || !c.NumV? || c == NumV(0.0) ==>
      StartNumeric(w, n, a, b, c, body, env, s) == Halted(Fail(s, BadLoopBounds))
    ensures a.NumV? && b.NumV? && c.NumV? && c != NumV(0.0) ==>
      var d := NewScope(w, s, env, false);
      var g := Define(w, d.s, |d.s.scopes|, n, a);
      if !d.ok then StartNumeric(w, n, a, b, c, body, env, s) == Halted(d.s)
      else if !g.ok then StartNumeric(w, n, a, b, c, body, env, s) == Halted(g.s)
      else StartNumeric(w, n, a, b, c, body, env, s) == NumericLoop(w, n, a.num, b.num, c.num, body, |d.s.scopes|, g.s)
    ensures Semantics.EvalStep(w, None, env, s) == Vals([NumV(1.0)], s)
  {
    hide StartNumeric, NewScope, Define, NumericLoop, Fail;
    StartStep(w, n, a, b, c, body, env, s);
    StepStep(w, None, env, s);
  }

  // ---- generic for -------------------------------------------------------------------------

  /** The first value that round i - 1 was given; before any round, the value to start with. */
  function Previous(control: Value, given: seq<seq<Value>>, i: nat): Value
    requires i <= |given|
  {
    if i == 0 then control else Head(given[i - 1])
  }

  /** Rounds of a generic loop: what the source gave in each, and the states before each. */
  ghost predicate Draws(w: World, ns: seq<string>, source: Value, fixed: Value, control: Value, body: seq<Stmt>, loop: nat,
                        given: seq<seq<Value>>, states: seq<State>)
  {
    && |states| == |given| + 1
    && forall i :: 0 <= i < |given| ==>
         Drawn(w, ns, source, fixed, Previous(control, given, i), body, loop, given[i], states[i], states[i + 1])
  }

  ghost predicate Drawn(w: World, ns: seq<string>, source: Value, fixed: Value, control: Value, body: seq<Stmt>, loop: nat,
                        vs: seq<Value>, s: State, s': State)
  {
    && Ready(w, s)
    && var r := CallValue(w, source, [fixed, control], Started(s));
       r == Vals(vs, r.s) && Head(vs) != NilV && ExecIteration(w, ns, vs, body, loop, r.s) == Next(s')
  }

  ghost predicate DrawEnds(w: World, ns: seq<string>, source: Value, fixed: Value, control: Value, body: seq<Stmt>, loop: nat,
                           s: State, f: Flow)
  {
    if !Ready(w, s) then f.Halted?
    else
      var r := CallValue(w, source, [fixed, control], Started(s));
      if r.Stop? then f == Halted(r.s)
      else if Head(r.vs) == NilV then f == Next(r.s)
      else
        var g := ExecIteration(w, ns, r.vs, body, loop, r.s);
        !g.Next? && f == if g.Broke? then Next(g.s) else g
  }

  /** A generic loop asks its source with the fixed value and the first value of the round before, until
      that gives nil or nothing. */
  lemma {:induction false} DrawingIs(w: World, ns: seq<string>, source: Value, fixed: Value, control: Value, body: seq<Stmt>,
                                     loop: nat, s: State)
    returns (given: seq<seq<Value>>, states: seq<State>)
    requires s.instructions <= INSTRUCTION_LIMIT
    ensures Draws(w, ns, source, fixed, control, body, loop, given, states) && states[0] == s
    ensures DrawEnds(w, ns, source, fixed, Previous(control, given, |given|), body, loop, states[|given|],
                     GenericLoop(w, ns, source, fixed, control, body, loop, s))
    decreases INSTRUCTION_LIMIT - s.instructions
  {
    hide GenericLoop, CallValue, ExecIteration, Ready, Started, Head;
    given, states := [], [s];
    ReadyLater(w, s);
    if GoesOn(w, ns, source, fixed, control, body, loop, s) {
      DrawingGoesOn(w, ns, source, fixed, control, body, loop, s);
      var r := CallValue(w, source, [fixed, control], Started(s));
      var f := ExecIteration(w, ns, r.vs, body, loop, r.s);
      var more, later := DrawingIs(w, ns, source, fixed, Head(r.vs), body, loop, f.s);
      given, states := [r.vs] + more, [s] + later;
      DrawsBefore(w, ns, source, fixed, control, body, loop, r.vs, s, more, later);
    } else {
      DrawingEnds(w, ns, source, fixed, control, body, loop, s);
    }
  }

  ghost predicate GoesOn(w: World, ns: seq<string>, source: Value, fixed: Value, control: Value, body: seq<Stmt>, loop: nat, s: State) {
    && Ready(w, s)
    && var r := CallValue(w, source, [fixed, control], Started(s));
       r.Vals? && Head(r.vs) != NilV && ExecIteration(w, ns, r.vs, body, loop, r.s).Next?
  }

  lemma DrawingGoesOn(w: World, ns: seq<string>, source: Value, fixed: Value, control: Value, body: seq<Stmt>, loop: nat, s: State)
    requires s.instructions < INSTRUCTION_LIMIT && GoesOn(w, ns, source, fixed, control, body, loop, s)
    ensures var r := CallValue(w, source, [fixed, control], Started(s));
      var f := ExecIteration(w, ns, r.vs, body, loop, r.s);
      && Drawn(w, ns, source, fixed, control, body, loop, r.vs, s, f.s)
      && GenericLoop(w, ns, source, fixed, control, body, loop, s) == GenericLoop(w, ns, source, fixed, Head(r.vs), body, loop, f.s)
  {
    hide GenericLoop, CallValue, ExecIteration, Tick, Ready, Started, First, Head;
    ReadyLater(w, s);
    GenericGoesOn(w, ns, source, fixed, control, body, loop, s);
    ReadyTicks(w, s);
    YesIsTruthy(CallValue(w, source, [fixed, control], Started(s)).vs);
  }

  lemma DrawingEnds(w: World, ns: seq<string>, source: Value, fixed: Value, control: Value, body: seq<Stmt>, loop: nat, s: State)
    requires s.instructions <= INSTRUCTION_LIMIT && !GoesOn(w, ns, source, fixed, control, body, loop, s)
    ensures DrawEnds(w, ns, source, fixed, control, body, loop, s, GenericLoop(w, ns, source, fixed, control, body, loop, s))
  {
    hide GenericLoop, CallValue, ExecIteration, Tick, Ready, Started, First, Head;
    ReadyLater(w, s);
    GenericGoesOn(w, ns, source, fixed, control, body, loop, s);
    ReadyTicks(w, s);
    if Ready(w, s) {
      var r := CallValue(w, source, [fixed, control], Started(s));
      if r.Vals? { YesIsTruthy(r.vs); }
    }
  }

  lemma DrawsBefore(w: World, ns: seq<string>, source: Value, fixed: Value, control: Value, body: seq<Stmt>, loop: nat,
                    vs: seq<Value>, s: State, more: seq<seq<Value>>, later: seq<State>)
    requires later != [] && Drawn(w, ns, source, fixed, control, body, loop, vs, s, later[0])
    requires Draws(w, ns, source, fixed, Head(vs), body, loop, more, later)
    ensures Draws(w, ns, source, fixed, control, body, loop, [vs] + more, [s] + later)
    ensures Previous(control, [vs] + more, |more| + 1) == Previous(Head(vs), more, |more|)
  {
    hide Drawn;
    var given, states := [vs] + more, [s] + later;
    forall i | 0 <= i < |given|
      ensures Drawn(w, ns, source, fixed, Previous(control, given, i), body, loop, given[i], states[i], states[i + 1])
    {
      if i > 0 {
        assert Drawn(w, ns, source, fixed, Previous(Head(vs), more, i - 1), body, loop, more[i - 1], later[i - 1], later[i]);
      }
    }
  }

  // ---- lists of expressions ----------------------------------------------------------------

  /** Expressions evaluated one after the other. */
  ghost predicate Evaluated(w: World, es: seq<Expr>, env: nat, given: seq<seq<Value>>, states: seq<State>) {
    && |given| <= |es| && |states| == |given| + 1
    && forall i :: 0 <= i < |given| ==> Eval(w, es[i], env, states[i]) == Vals(given[i], states[i + 1])
  }

  /** The first value of each but the last, and all values of the last. */
  function Adjusted(given: seq<seq<Value>>): seq<Value> {
    if given == [] then [] else if |given| == 1 then given[0] else [Head(given[0])] + Adjusted(given[1..])
  }

  /** A list of expressions gives one value for each but the last and all values of that, at most 64. */
  lemma {:induction false} ListIs(w: World, es: seq<Expr>, acc: seq<Value>, env: nat, s: State)
    returns (given: seq<seq<Value>>, states: seq<State>)
    requires s.instructions <= INSTRUCTION_LIMIT && |acc| <= 64
    ensures Evaluated(w, es, env, given, states) && states[0] == s
    ensures if |given| == |es| && |acc + Adjusted(given)| <= 64 then
              EvalList(w, es, acc, env, s) == Vals(acc + Adjusted(given), states[|es|])
            else EvalList(w, es, acc, env, s).Stop?
    ensures |given| < |es| ==>
      Eval(w, es[|given|], env, states[|given|]).Stop? || EvalList(w, es, acc, env, s) == Stop(Fail(states[|given|], TooManyValues))
    decreases es
  {
    hide Eval, EvalList, First, Head, Fail;
    given, states := [], [s];
    if es == [] {
      ListDone(w, acc, env, s);
      assert acc + Adjusted(given) == acc;
    } else {
      ListStep(w, es, acc, env, s);
      var r := Eval(w, es[0], env, s);
      if r.Vals? {
        YesIsTruthy(r.vs);
        given, states := [r.vs], [s, r.s];
        if |es| == 1 {
          if |acc| + |r.vs| <= 64 { ListDone(w, acc + r.vs, env, r.s); }
        } else if |acc| < 64 {
          var more, later := ListIs(w, es[1..], acc + [First(r.vs)], env, r.s);
          given, states := [r.vs] + more, [s] + later;
          forall i | 0 <= i < |given| ensures Eval(w, es[i], env, states[i]) == Vals(given[i], states[i + 1]) {
            if i > 0 { assert Eval(w, es[1..][i - 1], env, later[i - 1]) == Vals(more[i - 1], later[i]); }
          }
          if more != [] {
            assert given[1..] == more;
            assert acc + Adjusted(given) == acc + [First(r.vs)] + Adjusted(more);
          }
        }
      }
    }
  }

  // ---- constructors ------------------------------------------------------------------------

  /** The fields of a table of constants without keys. */
  function Switches(flags: seq<bool>): seq<Field> {
    if flags == [] then [] else [Item(BoolLit(flags[0]))] + Switches(flags[1..])
  }

  /** Rows with consecutive keys from k on. */
  function Numbered(flags: seq<bool>, k: nat): seq<Row> {
    if flags == [] then [] else [Row(NumV(k as real), BoolV(flags[0]))] + Numbered(flags[1..], k + 1)
  }

  lemma {:induction false} NumberedMore(flags: seq<bool>, flag: bool, k: nat)
    ensures Numbered(flags + [flag], k) == Numbered(flags, k) + [Row(NumV((k + |flags|) as real), BoolV(flag))]
    decreases flags
  {
    if flags == [] {
      assert ([] + [flag])[1..] == [];
    } else {
      assert (flags + [flag])[1..] == flags[1..] + [flag];
      NumberedMore(flags[1..], flag, k + 1);
    }
  }

  lemma {:induction false} NumberedBelow(flags: seq<bool>, k: nat, n: nat)
    requires n >= k + |flags|
    ensures RowOf(Numbered(flags, k), NumV(n as real)) == |Numbered(flags, k)| == |flags|
    decreases flags
  {
    if flags != [] { NumberedBelow(flags[1..], k + 1, n); }
  }

  /** The values of a constructor without keys are stored at 1, 2, and so on, in their order. */
  lemma ConstructorIs(w: World, flags: seq<bool>, env: nat, s: State)
    requires s.instructions <= INSTRUCTION_LIMIT
    ensures var r := EvalTable(w, Switches(flags), env, s);
      r.Vals? ==> r.vs == [TabV(|s.tables|)] && RowsAt(r.s, |s.tables|) == Numbered(flags, 1)
  {
    hide EvalFields, EvalTable, Switches;
    TableStep(w, Switches(flags), env, s);
    var d := NewTable(w, s);
    if d.ok {
      assert [] + flags == flags;
      FieldsAre(w, [], flags, |s.tables|, env, d.s);
    }
  }

  lemma {:induction false} FieldsAre(w: World, before: seq<bool>, flags: seq<bool>, t: nat, env: nat, s: State)
    requires s.instructions <= INSTRUCTION_LIMIT && t < |s.tables| && RowsAt(s, t) == Numbered(before, 1)
    ensures var d := EvalFields(w, Switches(flags), t, |before| + 1, env, s);
      d.ok ==> RowsAt(d.s, t) == Numbered(before + flags, 1)
    decreases flags
  {
    hide EvalFields, EvalField, RowsAt, Numbered;
    if flags == [] {
      FieldsDone(w, t, |before| + 1, env, s);
      assert before + flags == before;
    } else {
      var fs := Switches(flags);
      FieldsStep(w, fs, t, |before| + 1, env, s);
      FieldIs(w, before, flags[0], |fs| == 1, t, env, s);
      var d := EvalField(w, fs[0], |fs| == 1, t, |before| + 1, env, s);
      if d.ok {
        assert before + [flags[0]] + flags[1..] == before + flags;
        FieldsAre(w, before + [flags[0]], flags[1..], t, env, d.s);
      }
    }
  }

  lemma FieldIs(w: World, before: seq<bool>, flag: bool, last: bool, t: nat, env: nat, s: State)
    requires s.instructions <= INSTRUCTION_LIMIT && t < |s.tables| && RowsAt(s, t) == Numbered(before, 1)
    ensures var d := EvalField(w, Item(BoolLit(flag)), last, t, |before| + 1, env, s);
      d.ok ==> t < |d.s.tables| && RowsAt(d.s, t) == Numbered(before + [flag], 1)
  {
    hide EvalField, Eval, EvalNode, TableSet, SetAll, Numbered;
    var n, e := |before| + 1, BoolLit(flag);
    ItemStep(w, e, last, t, n, env, s);
    SemanticsSteps.EvalStep(w, e, env, s);
    var k := Tick(w, s);
    if k.ok {
      LeafStep(w, e, env, k.s);
      RowIs(w, before, flag, t, k.s);
      var d := TableSet(w, k.s, t, NumV(n as real), BoolV(flag));
      SetAllStep(w, k.s, t, n, [BoolV(flag)]);
      SetAllStep(w, d.s, t, n + 1, []);
      assert [BoolV(flag)][1..] == [];
      assert First([BoolV(flag)]) == BoolV(flag);
    }
  }

  lemma RowIs(w: World, before: seq<bool>, flag: bool, t: nat, s: State)
    requires t < |s.tables| && RowsAt(s, t) == Numbered(before, 1)
    ensures var d := TableSet(w, s, t, NumV((|before| + 1) as real), BoolV(flag));
      d.ok ==> t < |d.s.tables| && RowsAt(d.s, t) == Numbered(before + [flag], 1)
  {
    hide RowOf, Numbered;
    NumberedBelow(before, 1, |before| + 1);
    NumberedMore(before, flag, 1);
  }

  // ---- several destinations ----------------------------------------------------------------

  lemma {:induction false} SameInnermost(a: seq<Scoping.Frame>, b: seq<Scoping.Frame>, m: string)
    requires |a| == |b| && forall i :: 0 <= i < |a| ==> (m in a[i] <==> m in b[i])
    ensures Scoping.Innermost(a, m) == Scoping.Innermost(b, m)
    decreases |a|
  {
    if a != [] && m !in a[0] {
      forall i | 0 <= i < |a| - 1 ensures m in a[1..][i] <==> m in b[1..][i] {
        assert m in a[i + 1] <==> m in b[i + 1];
      }
      SameInnermost(a[1..], b[1..], m);
    }
  }

  predicate IsBound(s: State, env: nat, name: string) {
    var fs := Scoping.Stack(s.scopes, env);
    Scoping.Innermost(fs, name) < |fs|
  }

  /** Assigning to a name that is bound changes what that name reads as, and no other name. */
  lemma AssignedReads(w: World, s: State, env: nat, name: string, value: Value, m: string)
    requires 0 < env <= |s.scopes| && IsBound(s, env, name)
    ensures var d := Heap.Assign(w, s, env, name, value);
      && d.ok && |d.s.scopes| == |s.scopes|
      && (IsBound(d.s, env, m) <==> IsBound(s, env, m))
      && Lookup(d.s, env, m) == if m == name then value else Lookup(s, env, m)
  {
    hide Heap.Assign, Scoping.Names, Scoping.Frames, Lookup, Scoping.Chain;
    var d, c := Heap.Assign(w, s, env, name, value), Scoping.Chain(s.scopes, env);
    var fs, fs' := Scoping.Stack(s.scopes, env), Scoping.Stack(d.s.scopes, env);
    var i := Scoping.Innermost(fs, name);
    Scoping.AssignUpdates(w, s, env, name, value);
    Scoping.StackUpdated(s.scopes, d.s.scopes, c[i], name, value, env, i);
    forall j | 0 <= j < |fs| ensures fs'[j] == if c[j] == c[i] then fs[j][name := value] else fs[j] {
      Scoping.StackUpdated(s.scopes, d.s.scopes, c[i], name, value, env, j);
    }
    SameFrames(s.scopes, c, name);
    forall j | 0 <= j < |fs| ensures m in fs'[j] <==> m in fs[j] {
    }
    SameInnermost(fs', fs, m);
    Scoping.LookupIsStack(s, env, m);
    Scoping.LookupIsStack(d.s, env, m);
  }

  /** One scope is one frame. */
  lemma SameFrames(scopes: seq<Scope>, c: seq<nat>, name: string)
    requires forall i :: 0 <= i < |c| ==> 0 < c[i] <= |scopes|
    ensures var fs := Scoping.Frames(scopes, c); forall i, j :: 0 <= i < |c| && 0 <= j < |c| && c[i] == c[j] ==> fs[i] == fs[j]
  {
  }

  /** All values of an assignment are taken before any is stored: `a, b = b, a` exchanges two names. */
  lemma SwapIs(w: World, a: string, b: string, env: nat, s: State)
    requires 0 < env <= |s.scopes| && a != b && IsBound(s, env, a) && IsBound(s, env, b)
    requires Ready(w, s) && Ready(w, Started(s))
    ensures var f := ExecAssign(w, [Var(a), Var(b)], [Var(b), Var(a)], env, s);
      f.Next? && Lookup(f.s, env, a) == Lookup(s, env, b) && Lookup(f.s, env, b) == Lookup(s, env, a)
  {
    hide ExecAssign, EvalList, AssignAll, Heap.Assign, Lookup, IsBound;
    var s1 := Started(s);
    var s2 := Started(s1);
    var x, y := Lookup(s, env, b), Lookup(s, env, a);
    AssignStep(w, [Var(a), Var(b)], [Var(b), Var(a)], env, s);
    PairIs(w, a, b, env, s);
    AssignAllStep(w, [Var(a), Var(b)], [x, y], env, s2);
    ToVariable(w, Var(a), x, env, s2);
    SameScopes(s, s2, env, a);
    SameScopes(s, s2, env, b);
    AssignedReads(w, s2, env, a, x, a);
    AssignedReads(w, s2, env, a, x, b);
    var d := Heap.Assign(w, s2, env, a, x);
    assert [Var(a), Var(b)][1..] == [Var(b)] && Rest([x, y]) == [y];
    SameClockAssign(w, s2, env, a, x);
    AssignAllStep(w, [Var(b)], [y], env, d.s);
    ToVariable(w, Var(b), y, env, d.s);
    AssignedReads(w, d.s, env, b, y, a);
    AssignedReads(w, d.s, env, b, y, b);
    var g := Heap.Assign(w, d.s, env, b, y);
    SameClockAssign(w, d.s, env, b, y);
    assert [Var(b)][1..] == [] && Rest([y]) == [];
    AssignAllStep(w, [], [], env, g.s);
  }

  lemma SameClockAssign(w: World, s: State, env: nat, n: string, v: Value)
    ensures Heap.Assign(w, s, env, n, v).s.instructions == s.instructions
  {
  }

  lemma SameScopes(s: State, s': State, env: nat, m: string)
    requires s.scopes == s'.scopes
    ensures Lookup(s, env, m) == Lookup(s', env, m) && IsBound(s, env, m) == IsBound(s', env, m)
  {
  }

  lemma PairIs(w: World, a: string, b: string, env: nat, s: State)
    requires Ready(w, s) && Ready(w, Started(s))
    ensures EvalList(w, [Var(b), Var(a)], [], env, s) == Vals([Lookup(s, env, b), Lookup(s, env, a)], Started(Started(s)))
  {
    hide EvalList, Eval, EvalNode, Lookup, Tick, Ready, Fail;
    var s1 := Started(s);
    var s2 := Started(s1);
    ReadyLater(w, s);
    ReadyLater(w, s1);
    ListStep(w, [Var(b), Var(a)], [], env, s);
    NameIs(w, b, env, s);
    assert [Var(b), Var(a)][1..] == [Var(a)];
    assert [] + [Lookup(s, env, b)] == [Lookup(s, env, b)];
    ListStep(w, [Var(a)], [Lookup(s, env, b)], env, s1);
    NameIs(w, a, env, s1);
    SameScopes(s, s1, env, a);
    assert [Lookup(s, env, b)] + [Lookup(s, env, a)] == [Lookup(s, env, b), Lookup(s, env, a)];
    assert [Var(a)][1..] == [];
    ListDone(w, [Lookup(s, env, b), Lookup(s, env, a)], env, s2);
  }

  lemma NameIs(w: World, n: string, env: nat, s: State)
    requires Ready(w, s)
    ensures Eval(w, Var(n), env, s) == Vals([Lookup(s, env, n)], Started(s))
  {
    hide Eval, EvalNode, Lookup, Tick;
    ReadyTicks(w, s);
    SemanticsSteps.EvalStep(w, Var(n), env, s);
    LeafStep(w, Var(n), env, Started(s));
    SameScopes(s, Started(s), env, n);
  }

  // ---- calls -------------------------------------------------------------------------------

  /** A call of a closure runs its body below the scope it was made in, with its names bound, and gives
      what the body returned, or nothing if the body came to its end. */
  lemma ClosureIs(w: World, c: Closure, args: seq<Value>, s: State)
    requires s.instructions <= INSTRUCTION_LIMIT
    ensures var d := NewScope(w, s, c.scope, true);
      var b := BindArguments(w, d.s, |d.s.scopes|, c, args);
      var r := RunClosure(w, c, args, s);
      if !d.ok || !b.ok then r.Stop?
      else
        var f := ExecBlock(w, c.code, |d.s.scopes|, b.s);
        && (f.Next? ==> r == Vals([], f.s)) && (f.Returned? ==> r == Vals(f.vs, f.s)) && (f.Broke? || f.Halted? ==> r.Stop?)
        && |d.s.scopes| == |s.scopes| + 1 && d.s.scopes[|s.scopes|].parent == c.scope
  {
    hide RunClosure, BindArguments, ExecBlock;
    ClosureStep(w, c, args, s);
  }

  /** What is stored at a key is read there, and the other keys keep their values. */
  lemma StoredIsRead(w: World, s: State, t: nat, k: Value, v: Value, j: Value)
    requires Invariants.Inv(s) && t < |s.tables| && TableSet(w, s, t, k, v).ok
    ensures var s' := TableSet(w, s, t, k, v).s;
      && TableGet(TabV(t), k, s') == Vals([v], s')
      && (j != k && TableGet(TabV(t), j, s).Vals? ==> TableGet(TabV(t), j, s') == Vals(TableGet(TabV(t), j, s).vs, s'))
  {
    hide TableSet, Invariants.Inv, RowOf, Tables.Contents;
    var d := TableSet(w, s, t, k, v);
    Tables.SetIsUpdate(w, s, t, k, v);
    Tables.ContentsAt(RowsAt(s, t), k);
    Tables.ContentsAt(RowsAt(d.s, t), k);
    Tables.ContentsAt(RowsAt(s, t), j);
    Tables.ContentsAt(RowsAt(d.s, t), j);
  }

  /** A Book is declared once, outside modules, by a table whose name is the Book's. */
  lemma DeclarationIs(w: World, v: Value, s: State)
    ensures Declare(w, v, s).ok
       <==> v.TabV? && s.moduleDepth == 0 && !s.declared && TableGet(v, StrV("name"), s) == Vals([StrV(w.bookName)], s)
    ensures Declare(w, v, s).ok ==> Declare(w, v, s).s == s.(declared := true)
  {
    hide RowValue;
  }

  /** Calls nest 64 deep at most, and a value that is no function cannot be called. */
  lemma DepthIs(w: World, f: Value, args: seq<Value>, s: State)
    requires s.instructions <= INSTRUCTION_LIMIT
    ensures s.callDepth >= 64 ==> CallValue(w, f, args, s) == Stop(Fail(s, TooDeep))
    ensures s.callDepth < 64 && !f.FunV? && !f.NatV? ==> CallValue(w, f, args, s) == Stop(Fail(s, NotCallable))
    ensures s.callDepth < 64 && f.FunV? && f.closure < |s.closures| ==>
      var t := s.(callDepth := s.callDepth + 1);
      var r := RunClosure(w, s.closures[f.closure], args, t);
      if r.Stop? then CallValue(w, f, args, s).Stop?
      else CallValue(w, f, args, s) == Vals(r.vs, r.s.(callDepth := s.callDepth))
  {
    hide CallValue, RunClosure, RunNative, Fail;
    CallValueStep(w, f, args, s);
  }

  /** What a generic loop asks is the first of its values; the second is fixed, and the third comes first. */
  lemma SourceIs(w: World, ns: seq<string>, vs: seq<Expr>, body: seq<Stmt>, env: nat, s: State)
    requires s.instructions <= INSTRUCTION_LIMIT
    ensures var r := EvalList(w, vs, [], env, s);
      r.Vals? ==>
        var d := NewScope(w, r.s, env, false);
        var a, b, c := Head(r.vs), if |r.vs| < 2 then NilV else r.vs[1], if |r.vs| < 3 then NilV else r.vs[2];
        ExecGeneric(w, ns, vs, body, env, s)
        == if d.ok then GenericLoop(w, ns, a, b, c, body, |d.s.scopes|, d.s) else Halted(d.s)
  {
    hide EvalList, ExecGeneric, GenericLoop, NewScope;
    GenericStep(w, ns, vs, body, env, s);
  }

  /** `t.n` and `t["n"]` read the same value. */
  lemma FieldIsIndex(w: World, b: Expr, n: string, text: string, env: nat, s: State)
    requires s.instructions <= INSTRUCTION_LIMIT && Strings.Decoded(text) == Some(n)
    ensures var m, i := EvalMember(w, b, n, env, s), EvalIndex(w, b, StringLit(text), env, s);
      m.Vals? && i.Vals? ==> m.vs == i.vs
    ensures var i := EvalIndex(w, b, StringLit(text), env, s); i.Vals? ==> EvalMember(w, b, n, env, s).Vals?
  {
    hide EvalMember, EvalIndex, Eval, EvalNode, RowValue, Fail;
    MemberStep(w, b, n, env, s);
    IndexStep(w, b, StringLit(text), env, s);
    var q := Eval(w, b, env, s);
    if q.Vals? {
      SemanticsSteps.EvalStep(w, StringLit(text), env, q.s);
      var d := Tick(w, q.s);
      if d.ok { LeafStep(w, StringLit(text), env, d.s); }
    }
  }

  /** What a table has at an integer. */
  function ValueAt(s: State, t: nat, i: int): Value { RowValue(RowsAt(s, t), NumV(i as real)) }

  /** The length of a table is the number n such that there are values at 1 to n and none at n + 1. */
  lemma LengthIs(t: nat, s: State, n: nat)
    ensures FinishUnary(Length, TabV(t), s) == Vals([NumV(n as real)], s)
       <==> (forall i: int :: 1 <= i <= n ==> ValueAt(s, t, i) != NilV) && ValueAt(s, t, n + 1) == NilV
  {
    hide RowValue, BorderFrom, Tables.Contents;
    var rows := RowsAt(s, t);
    Tables.BorderIsLeast(rows, n);
    forall i: int ensures Tables.Look(Tables.Contents(rows), IntKey(i)) == ValueAt(s, t, i) {
      Tables.ContentsAt(rows, IntKey(i));
    }
    LengthOf(t, s);
  }

  lemma LengthOf(t: nat, s: State)
    ensures FinishUnary(Length, TabV(t), s) == Vals([NumV(Border(RowsAt(s, t)) as real)], s)
  {
    hide Border;
  }

  /** The first fault of a run is the one that is reported. */
  lemma FirstFault(s: State, f: Fault, g: Fault)
    ensures s.fault.first == None ==> Fail(s, f).fault.first == Some(f)
    ensures s.fault.first != None ==> Fail(s, f).fault.first == s.fault.first
    ensures Fail(Fail(s, f), g).fault.first == Fail(s, f).fault.first
    ensures Fail(s, f) == s.(fault := Fail(s, f).fault)
  {
  }

  /** A Book succeeds if it comes to its end or returns, and has been declared. */
  lemma RunIs(w: World, code: seq<Stmt>, s: State)
    requires s.instructions <= INSTRUCTION_LIMIT
    ensures var f := ExecBlock(w, code, GLOBAL, s);
      Run(w, code, s).Vals? <==> (f.Next? || f.Returned?) && f.s.declared
  {
    hide ExecBlock;
  }
}
