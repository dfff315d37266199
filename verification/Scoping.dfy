/** Lexical scoping: a chain of scopes searched from the inside out is a stack of maps. */
module Scoping {
  import opened Syntax
  import opened Values
  import opened Heap
  import opened Semantics
  import opened SemanticsSteps
  import opened Invariants

  type Frame = map<string, Value>

  // ---- one scope ---------------------------------------------------------------------------

  /** The map that bindings stand for; the first binding of a name counts. */
  function Names(bs: seq<Binding>): Frame {
    if bs == [] then map[] else Names(bs[1..])[bs[0].name := bs[0].value]
  }

  lemma {:induction false} NamesAt(scope: Scope, name: string)
    ensures name in Names(scope.bindings) <==> Binds(scope, name)
    ensures Binds(scope, name) ==> Names(scope.bindings)[name] == ValueIn(scope, name)
    decreases |scope.bindings|
  {
    var bs := scope.bindings;
    if bs != [] && bs[0].name != name {
      NamesAt(scope.(bindings := bs[1..]), name);
    }
  }

  lemma {:induction false} NameAdded(bs: seq<Binding>, name: string, value: Value)
    requires IndexOf(bs, name) == |bs|
    ensures Names(bs + [Binding(name, value)]) == Names(bs)[name := value]
    decreases bs
  {
    if bs == [] {
      assert ([] + [Binding(name, value)])[1..] == [];
    } else {
      NameAdded(bs[1..], name, value);
      assert (bs + [Binding(name, value)])[1..] == bs[1..] + [Binding(name, value)];
    }
  }

  lemma {:induction false} NameRebound(bs: seq<Binding>, name: string, value: Value)
    requires IndexOf(bs, name) < |bs|
    ensures Names(bs[IndexOf(bs, name) := Binding(name, value)]) == Names(bs)[name := value]
    decreases bs
  {
    var i := IndexOf(bs, name);
    if i == 0 {
      assert bs[0 := Binding(name, value)][1..] == bs[1..];
    } else {
      NameRebound(bs[1..], name, value);
      assert bs[i := Binding(name, value)][1..] == bs[1..][i - 1 := Binding(name, value)];
    }
  }

  // ---- chains and stacks -------------------------------------------------------------------

  /** The scopes from `id` outwards. */
  function Chain(scopes: seq<Scope>, id: nat): (c: seq<nat>)
    ensures forall i :: 0 <= i < |c| ==> 0 < c[i] <= |scopes|
  {
    if id == 0 || id > |scopes| then []
    else [id] + (if scopes[id - 1].parent < id then Chain(scopes, scopes[id - 1].parent) else [])
  }

  /** Their names, the innermost first. */
  function Frames(scopes: seq<Scope>, chain: seq<nat>): (fs: seq<Frame>)
    requires forall i :: 0 <= i < |chain| ==> 0 < chain[i] <= |scopes|
    ensures |fs| == |chain| && forall i :: 0 <= i < |fs| ==> fs[i] == Names(scopes[chain[i] - 1].bindings)
  {
    seq(|chain|, i requires 0 <= i < |chain| => Names(scopes[chain[i] - 1].bindings))
  }

  function Stack(scopes: seq<Scope>, id: nat): seq<Frame> { Frames(scopes, Chain(scopes, id)) }

  /** The innermost frame with a name, or the number of frames. */
  function Innermost(fs: seq<Frame>, name: string): (i: nat)
    ensures i <= |fs|
    ensures i < |fs| ==> name in fs[i]
    ensures forall j :: 0 <= j < i ==> name !in fs[j]
  {
    if fs == [] || name in fs[0] then 0 else 1 + Innermost(fs[1..], name)
  }

  function StackLookup(fs: seq<Frame>, name: string): Value {
    var i := Innermost(fs, name);
    if i < |fs| then fs[i][name] else NilV
  }

  /** Every chain ends at the globals, and leads to older and older scopes. */
  lemma {:induction false} ChainToGlobals(scopes: seq<Scope>, id: nat, tables: nat, closures: nat)
    requires ScopesOk(scopes, tables, closures) && 0 < id <= |scopes|
    ensures var c := Chain(scopes, id);
      c != [] && c[0] == id && c[|c| - 1] == GLOBAL && forall i, j :: 0 <= i < j < |c| ==> c[j] < c[i]
    decreases id
  {
    assert ScopeOk(scopes[id - 1], id - 1, tables, closures);
    if id > 1 {
      ChainToGlobals(scopes, scopes[id - 1].parent, tables, closures);
    }
  }

  lemma Pushed(scopes: seq<Scope>, id: nat)
    requires 0 < id <= |scopes|
    ensures var scope := scopes[id - 1];
      var rest := if scope.parent < id then Chain(scopes, scope.parent) else [];
      Chain(scopes, id) == [id] + rest && Stack(scopes, id) == [Names(scope.bindings)] + Frames(scopes, rest)
  {
    hide Names;
  }

  lemma InnermostPushed(f: Frame, fs: seq<Frame>, name: string)
    ensures Innermost([f] + fs, name) == if name in f then 0 else 1 + Innermost(fs, name)
  {
    assert ([f] + fs)[1..] == fs;
  }

  /** The search through the chain finds the innermost frame with the name. */
  lemma {:induction false} FindIsInnermost(scopes: seq<Scope>, id: nat, name: string)
    ensures var c, i := Chain(scopes, id), Innermost(Stack(scopes, id), name);
      FindScope(scopes, id, name) == if i < |c| then c[i] else 0
    decreases id
  {
    hide Names, Chain, Frames, Innermost, Binds, FindScope;
    if 0 < id <= |scopes| {
      var scope := scopes[id - 1];
      var rest := if scope.parent < id then Chain(scopes, scope.parent) else [];
      NamesAt(scope, name);
      Pushed(scopes, id);
      InnermostPushed(Names(scope.bindings), Frames(scopes, rest), name);
      FindStep(scopes, id, name);
      if scope.parent < id {
        FindIsInnermost(scopes, scope.parent, name);
      } else {
        NoFrames(scopes, name);
      }
    } else {
      NoChain(scopes, id, name);
    }
  }

  lemma FindStep(scopes: seq<Scope>, id: nat, name: string)
    requires 0 < id <= |scopes|
    ensures var scope := scopes[id - 1];
      FindScope(scopes, id, name) ==
        if Binds(scope, name) then id else if scope.parent < id then FindScope(scopes, scope.parent, name) else 0
  {
    hide Binds;
  }

  lemma NoFrames(scopes: seq<Scope>, name: string)
    ensures Innermost(Frames(scopes, []), name) == 0
  {
  }

  lemma NoChain(scopes: seq<Scope>, id: nat, name: string)
    requires id == 0 || id > |scopes|
    ensures Chain(scopes, id) == [] && FindScope(scopes, id, name) == 0
  {
  }

  /** Reading a name reads the innermost frame that has it. */
  lemma LookupIsStack(s: State, env: nat, name: string)
    ensures Lookup(s, env, name) == StackLookup(Stack(s.scopes, env), name)
  {
    FindIsInnermost(s.scopes, env, name);
    var id := FindScope(s.scopes, env, name);
    if id > 0 {
      NamesAt(s.scopes[id - 1], name);
    }
  }

  // ---- changing one frame ------------------------------------------------------------------

  /** Only the frame of scope c has changed: `name` is `value` there now. Every other stack sees
      the change exactly where it shares that scope. */
  ghost predicate FrameUpdated(s: seq<Scope>, s': seq<Scope>, c: nat, name: string, value: Value) {
    && 0 < c <= |s| == |s'|
    && Names(s'[c - 1].bindings) == Names(s[c - 1].bindings)[name := value]
    && (forall i :: 0 <= i < |s| ==> s'[i].parent == s[i].parent && s'[i].isFunction == s[i].isFunction && s'[i].extras == s[i].extras)
    && (forall i :: 0 <= i < |s| && i != c - 1 ==> s'[i] == s[i])
  }

  lemma {:induction false} SameChain(s: seq<Scope>, s': seq<Scope>, id: nat)
    requires |s| <= |s'| && (forall i :: 0 <= i < |s| ==> s'[i].parent == s[i].parent) && id <= |s|
    ensures Chain(s', id) == Chain(s, id)
    decreases id
  {
    if id > 0 && s[id - 1].parent < id {
      SameChain(s, s', s[id - 1].parent);
    }
  }

  lemma StackUpdated(s: seq<Scope>, s': seq<Scope>, c: nat, name: string, value: Value, id: nat, i: nat)
    requires FrameUpdated(s, s', c, name, value) && id <= |s|
    ensures Chain(s', id) == Chain(s, id)
    ensures i < |Chain(s, id)| ==>
      Stack(s', id)[i] == if Chain(s, id)[i] == c then Stack(s, id)[i][name := value] else Stack(s, id)[i]
  {
    SameChain(s, s', id);
  }

  /** Declaring a name changes the innermost frame, or fails and changes no frame. */
  lemma DefineUpdates(w: World, s: State, env: nat, name: string, value: Value)
    requires 0 < env <= |s.scopes|
    ensures var d := Define(w, s, env, name, value);
      if d.ok then FrameUpdated(s.scopes, d.s.scopes, env, name, value) else d.s.scopes == s.scopes
  {
    hide Names, ReserveBinding, AddBinding, Rebind, IndexOf;
    var a := Allocate(w, s);
    if a.ok {
      if Binds(s.scopes[env - 1], name) {
        RebindUpdates(a.s, env, name, value);
      } else {
        ReserveChangesNothing(w, a.s, env);
        var r := ReserveBinding(w, a.s, env);
        if r.ok {
          AddUpdates(r.s, env, name, value);
        }
      }
    }
  }

  lemma RebindUpdates(s: State, id: nat, name: string, value: Value)
    requires 0 < id <= |s.scopes| && Binds(s.scopes[id - 1], name)
    ensures FrameUpdated(s.scopes, WithScope(s, id, Rebind(s.scopes[id - 1], name, value)).scopes, id, name, value)
  {
    hide Names;
    NameRebound(s.scopes[id - 1].bindings, name, value);
  }

  lemma AddUpdates(s: State, id: nat, name: string, value: Value)
    requires 0 < id <= |s.scopes| && !Binds(s.scopes[id - 1], name)
    ensures FrameUpdated(s.scopes, AddBinding(s, id, name, value).scopes, id, name, value)
  {
    hide Names;
    NameAdded(s.scopes[id - 1].bindings, name, value);
  }

  /** Making room for a name changes no scope but for its room. */
  lemma ReserveChangesNothing(w: World, s: State, env: nat)
    requires 0 < env <= |s.scopes|
    ensures var r := ReserveBinding(w, s, env);
      && |r.s.scopes| == |s.scopes|
      && r.s.scopes[env - 1] == s.scopes[env - 1].(capacity := r.s.scopes[env - 1].capacity)
      && (forall i :: 0 <= i < |s.scopes| && i != env - 1 ==> r.s.scopes[i] == s.scopes[i])
      && (!r.ok ==> r.s.scopes == s.scopes)
  {
  }

  /** Assigning to a name changes the innermost frame that has it; if there is none, the name
      becomes a global. */
  lemma AssignUpdates(w: World, s: State, env: nat, name: string, value: Value)
    requires 0 < env <= |s.scopes|
    ensures var d, c := Heap.Assign(w, s, env, name, value), Chain(s.scopes, env);
      var i := Innermost(Stack(s.scopes, env), name);
      if i < |c| then d.ok && FrameUpdated(s.scopes, d.s.scopes, c[i], name, value)
      else if d.ok then FrameUpdated(s.scopes, d.s.scopes, GLOBAL, name, value)
      else d.s.scopes == s.scopes
  {
    hide Names, Chain, Define, Rebind, IndexOf;
    assert |s.scopes| > 0;
    FindIsInnermost(s.scopes, env, name);
    var id := FindScope(s.scopes, env, name);
    if id > 0 {
      RebindUpdates(s, id, name, value);
    } else {
      DefineUpdates(w, s, GLOBAL, name, value);
    }
  }

  /** A new scope puts an empty frame on the stack and leaves all stacks as they were. */
  lemma NewScopePushes(w: World, s: State, parent: nat, isFunction: bool, id: nat)
    requires 0 < parent <= |s.scopes| && id <= |s.scopes| && NewScope(w, s, parent, isFunction).ok
    ensures var s' := NewScope(w, s, parent, isFunction).s;
      && Stack(s'.scopes, |s'.scopes|) == [map[]] + Stack(s.scopes, parent)
      && Stack(s'.scopes, id) == Stack(s.scopes, id)
  {
    hide Names, Chain;
    var s' := NewScope(w, s, parent, isFunction).s;
    SameChain(s.scopes, s'.scopes, parent);
    SameChain(s.scopes, s'.scopes, id);
    Pushed(s'.scopes, |s'.scopes|);
    NoNames();
  }

  lemma NoNames()
    ensures Names([]) == map[]
  {
  }

  // ---- parameters --------------------------------------------------------------------------

  /** Names bound one after the other; a later binding of the same name overwrites, and a name
      without a value is nil. */
  function Bound(frame: Frame, names: seq<string>, values: seq<Value>): Frame
    decreases names
  {
    if names == [] then frame
    else Bound(frame[names[0] := First(values)], names[1..], if values == [] then [] else values[1..])
  }

  lemma {:induction false} DefineAllBinds(w: World, s: State, env: nat, names: seq<string>, values: seq<Value>)
    requires 0 < env <= |s.scopes| && DefineAll(w, s, env, names, values).ok
    ensures var s' := DefineAll(w, s, env, names, values).s;
      && |s'.scopes| == |s.scopes|
      && Names(s'.scopes[env - 1].bindings) == Bound(Names(s.scopes[env - 1].bindings), names, values)
      && s'.scopes[env - 1].isFunction == s.scopes[env - 1].isFunction
      && s'.scopes[env - 1].extras == s.scopes[env - 1].extras
    decreases names
  {
    hide Define, Names;
    if names != [] {
      DefineUpdates(w, s, env, names[0], First(values));
      DefineAllBinds(w, Define(w, s, env, names[0], First(values)).s, env, names[1..], if values == [] then [] else values[1..]);
    }
  }

  /** A call sees its parameters, and its extra arguments if it is variadic. */
  lemma CallBinds(w: World, s: State, c: Closure, args: seq<Value>)
    requires s.scopes != [] && BindArguments(w, s, |s.scopes|, c, args).ok
    requires s.scopes[|s.scopes| - 1] == Scope(c.scope, [], 0, true, [])
    ensures var s', env := BindArguments(w, s, |s.scopes|, c, args).s, |s.scopes|;
      && |s'.scopes| == env
      && Names(s'.scopes[env - 1].bindings) == Bound(map[], c.params, args)
      && s'.scopes[env - 1].isFunction
      && s'.scopes[env - 1].extras == (if c.variadic && |args| > |c.params| then args[|c.params|..] else [])
  {
    hide Names, DefineAll;
    NoNames();
    DefineAllBinds(w, s, |s.scopes|, c.params, args);
  }

  // ---- `...` -------------------------------------------------------------------------------

  /** The call a scope belongs to, and its extra arguments, never change. */
  lemma {:induction false} CallScopeLater(s: State, s': State, env: nat)
    requires Ext(s, s') && env <= |s.scopes|
    ensures CallScope(s'.scopes, env) == CallScope(s.scopes, env)
    ensures var c := CallScope(s.scopes, env); c > 0 ==> s'.scopes[c - 1].extras == s.scopes[c - 1].extras
    decreases env
  {
    if env > 0 {
      assert ScopeKept(s.scopes[env - 1], s'.scopes[env - 1]);
      var parent := s.scopes[env - 1].parent;
      if parent < env {
        CallScopeLater(s, s', parent);
      }
    }
  }

  /** A block's scope belongs to the call around it. */
  lemma BlockInCall(w: World, s: State, parent: nat)
    requires 0 < parent <= |s.scopes| && NewScope(w, s, parent, false).ok
    ensures var s' := NewScope(w, s, parent, false).s;
      CallScope(s'.scopes, |s'.scopes|) == CallScope(s.scopes, parent) == CallScope(s'.scopes, parent)
  {
    var s' := NewScope(w, s, parent, false).s;
    SameCall(s.scopes, s'.scopes, parent);
  }

  lemma {:induction false} SameCall(scopes: seq<Scope>, more: seq<Scope>, id: nat)
    requires scopes <= more && id <= |scopes|
    ensures CallScope(more, id) == CallScope(scopes, id)
    decreases id
  {
    if id > 0 && !scopes[id - 1].isFunction && scopes[id - 1].parent < id {
      SameCall(scopes, more, scopes[id - 1].parent);
    }
  }

  /** From when the arguments of a variadic call are bound, `...` evaluated in any scope of that call
      yields the call's extra arguments, whatever has run in between. */
  lemma VarargsOfCall(w: World, s: State, c: Closure, args: seq<Value>, later: State, env: nat)
    requires s.scopes != [] && s.scopes[|s.scopes| - 1] == Scope(c.scope, [], 0, true, [])
    requires c.variadic && BindArguments(w, s, |s.scopes|, c, args).ok
    requires Ext(BindArguments(w, s, |s.scopes|, c, args).s, later) && CallScope(later.scopes, env) == |s.scopes|
    ensures EvalVararg(env, later) == Vals(if |args| > |c.params| then args[|c.params|..] else [], later)
  {
    hide Names, Bound, DefineAll;
    CallBinds(w, s, c, args);
    var s' := BindArguments(w, s, |s.scopes|, c, args).s;
    assert ScopeKept(s'.scopes[|s.scopes| - 1], later.scopes[|s.scopes| - 1]);
    ExtrasBounded(w, s, c, args);
  }

  lemma ExtrasBounded(w: World, s: State, c: Closure, args: seq<Value>)
    requires c.variadic && BindArguments(w, s, |s.scopes|, c, args).ok
    ensures |args| - |c.params| <= MULTI_LIMIT
  {
    hide DefineAll;
  }
}
