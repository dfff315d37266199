/** What every heap operation keeps: counters that add up, references that lead somewhere, scopes
    that point outwards, and tables that are finite maps. */
module Invariants {
  import opened Syntax
  import opened Values
  import opened Heap
  import opened Semantics
  import opened Literals

  // ---- the invariant -----------------------------------------------------------------------

  predicate Live(v: Value, tables: nat, closures: nat) {
    match v
    case TabV(t) => t < tables
    case FunV(c) => c < closures
    case _ => true
  }

  predicate AllLive(vs: seq<Value>, tables: nat, closures: nat) { forall i :: 0 <= i < |vs| ==> Live(vs[i], tables, closures) }

  predicate NamesDiffer(bs: seq<Binding>) { forall i, j :: 0 <= i < j < |bs| ==> bs[i].name != bs[j].name }

  predicate BindingsLive(bs: seq<Binding>, tables: nat, closures: nat) {
    forall i :: 0 <= i < |bs| ==> Live(bs[i].value, tables, closures)
  }

  /** The i-th scope: below an earlier one, except for the globals, which end every chain. */
  predicate ScopeOk(scope: Scope, i: nat, tables: nat, closures: nat) {
    && (if i == 0 then scope.parent == 0 && scope.isFunction else 0 < scope.parent <= i)
    && NamesDiffer(scope.bindings) && BindingsLive(scope.bindings, tables, closures)
    && |scope.extras| <= MULTI_LIMIT && AllLive(scope.extras, tables, closures)
  }

  predicate ScopesOk(scopes: seq<Scope>, tables: nat, closures: nat) {
    scopes != [] && forall i :: 0 <= i < |scopes| ==> ScopeOk(scopes[i], i, tables, closures)
  }

  /** Keys are allowed and differ, values are not nil. */
  predicate RowsOk(rows: seq<Row>, tables: nat, closures: nat) {
    && (forall i :: 0 <= i < |rows| ==> RowOk(rows[i], tables, closures))
    && (forall i, j :: 0 <= i < j < |rows| ==> rows[i].key != rows[j].key)
  }

  predicate RowOk(row: Row, tables: nat, closures: nat) {
    KeyFault(row.key).None? && row.value != NilV && Live(row.value, tables, closures)
  }

  predicate TablesOk(tables: seq<Table>, closures: nat) {
    forall t :: 0 <= t < |tables| ==> RowsOk(tables[t].rows, |tables|, closures)
  }

  /** A closure was made in a scope that exists, from well-formed code. */
  predicate ClosureOk(c: Closure, scopes: nat) { 0 < c.scope <= scopes && BlockFit(c.code, Ctx(false, c.variadic)) }

  predicate ClosuresOk(cs: seq<Closure>, scopes: nat) { forall i :: 0 <= i < |cs| ==> ClosureOk(cs[i], scopes) }

  function TotalBindings(scopes: seq<Scope>): nat {
    if scopes == [] then 0 else TotalBindings(scopes[..|scopes| - 1]) + |scopes[|scopes| - 1].bindings|
  }

  function TotalRows(tables: seq<Table>): nat {
    if tables == [] then 0 else TotalRows(tables[..|tables| - 1]) + |tables[|tables| - 1].rows|
  }

  predicate CountsOk(s: State) {
    && s.bindingCount == TotalBindings(s.scopes) <= BINDING_LIMIT
    && s.entryCount == TotalRows(s.tables) <= ENTRY_LIMIT
  }

  /** No fault, reported or not, is one of an ill-formed program. */
  predicate FaultOk(s: State) { !s.fault.illFormed && (s.fault.first.Some? ==> !IllFormed(s.fault.first.value)) }

  predicate ClockOk(s: State) { s.instructions <= INSTRUCTION_LIMIT && s.callDepth <= DEPTH_LIMIT }

  predicate Inv(s: State) {
    && ScopesOk(s.scopes, |s.tables|, |s.closures|)
    && TablesOk(s.tables, |s.closures|)
    && ClosuresOk(s.closures, |s.scopes|)
    && CountsOk(s)
    && FaultOk(s)
    && ClockOk(s)
  }

  // ---- what later states keep --------------------------------------------------------------

  /** A scope keeps its place, its kind, its extra arguments and its names. */
  predicate ScopeKept(a: Scope, b: Scope) {
    && b.parent == a.parent && b.isFunction == a.isFunction && b.extras == a.extras
    && |a.bindings| <= |b.bindings|
    && forall i :: 0 <= i < |a.bindings| ==> b.bindings[i].name == a.bindings[i].name
  }

  predicate ScopesKept(a: seq<Scope>, b: seq<Scope>) {
    |a| <= |b| && forall i :: 0 <= i < |a| ==> ScopeKept(a[i], b[i])
  }

  predicate Ext(s: State, s': State) {
    ScopesKept(s.scopes, s'.scopes) && |s.tables| <= |s'.tables| && s.closures <= s'.closures && s.log <= s'.log
    && Later(s, s')
  }

  lemma ExtSelf(s: State)
    ensures Ext(s, s)
  {
  }

  lemma ExtTrans(s: State, t: State, u: State)
    requires Ext(s, t) && Ext(t, u)
    ensures Ext(s, u)
  {
    hide Later;
    assert Later(s, u) by { LaterTrans(s, t, u); }
    forall i | 0 <= i < |s.scopes| ensures ScopeKept(s.scopes[i], u.scopes[i]) {
      assert ScopeKept(s.scopes[i], t.scopes[i]) && ScopeKept(t.scopes[i], u.scopes[i]);
    }
  }

  lemma LaterTrans(s: State, t: State, u: State)
    requires Later(s, t) && Later(t, u)
    ensures Later(s, u)
  {
  }

  lemma LiveLater(vs: seq<Value>, s: State, s': State)
    requires AllLive(vs, |s.tables|, |s.closures|) && Ext(s, s')
    ensures AllLive(vs, |s'.tables|, |s'.closures|)
  {
  }

  /** A name bound in a scope stays bound there. */
  lemma BoundLater(s: State, s': State, env: nat, name: string)
    requires Ext(s, s') && 0 < env <= |s.scopes| && Binds(s.scopes[env - 1], name)
    ensures Binds(s'.scopes[env - 1], name)
  {
    assert ScopeKept(s.scopes[env - 1], s'.scopes[env - 1]);
    var i := IndexOf(s.scopes[env - 1].bindings, name);
    assert s'.scopes[env - 1].bindings[i].name == name;
  }

  // ---- sums --------------------------------------------------------------------------------

  lemma BindingsUpdated(scopes: seq<Scope>, i: nat, scope: Scope)
    requires i < |scopes|
    ensures TotalBindings(scopes[i := scope]) == TotalBindings(scopes) - |scopes[i].bindings| + |scope.bindings|
  {
    var front := scopes[..|scopes| - 1];
    if i < |front| {
      BindingsUpdated(front, i, scope);
      assert scopes[i := scope][..|scopes| - 1] == front[i := scope];
    } else {
      assert scopes[i := scope][..|scopes| - 1] == front;
    }
  }

  lemma RowsUpdated(tables: seq<Table>, i: nat, table: Table)
    requires i < |tables|
    ensures TotalRows(tables[i := table]) == TotalRows(tables) - |tables[i].rows| + |table.rows|
  {
    var front := tables[..|tables| - 1];
    if i < |front| {
      RowsUpdated(front, i, table);
      assert tables[i := table][..|tables| - 1] == front[i := table];
    } else {
      assert tables[i := table][..|tables| - 1] == front;
    }
  }

  lemma Appended(scopes: seq<Scope>, scope: Scope, tables: seq<Table>, table: Table)
    ensures TotalBindings(scopes + [scope]) == TotalBindings(scopes) + |scope.bindings|
    ensures TotalRows(tables + [table]) == TotalRows(tables) + |table.rows|
  {
    assert (scopes + [scope])[..|scopes|] == scopes;
    assert (tables + [table])[..|tables|] == tables;
  }

  lemma RowsOfTotal(tables: seq<Table>, i: nat)
    requires i < |tables|
    ensures |tables[i].rows| <= TotalRows(tables)
  {
    if i < |tables| - 1 {
      RowsOfTotal(tables[..|tables| - 1], i);
    }
  }

  // ---- the operations ----------------------------------------------------------------------

  /** A state kept the invariant and lost nothing. */
  ghost predicate Fine(s: State, s': State) { Inv(s') && Ext(s, s') }

  lemma FailFine(s: State, f: Fault)
    requires Inv(s) && !IllFormed(f)
    ensures Fine(s, Fail(s, f))
  {
    hide ScopesOk, TablesOk, ClosuresOk;
    ExtSelf(s);
  }

  lemma TickFine(w: World, s: State)
    requires Inv(s)
    ensures Fine(s, Tick(w, s).s)
  {
    hide ScopesOk, TablesOk, ClosuresOk;
    ExtSelf(s);
  }

  lemma AllocateFine(w: World, s: State)
    requires Inv(s)
    ensures Fine(s, Allocate(w, s).s)
  {
    hide ScopesOk, TablesOk, ClosuresOk;
    ExtSelf(s);
  }

  lemma NewScopeFine(w: World, s: State, parent: nat, isFunction: bool)
    requires Inv(s) && 0 < parent <= |s.scopes|
    ensures Fine(s, NewScope(w, s, parent, isFunction).s)
    ensures NewScope(w, s, parent, isFunction).ok ==> |NewScope(w, s, parent, isFunction).s.scopes| == |s.scopes| + 1
  {
    hide Inv, Ext;
    AllocateFine(w, s);
    var d := Allocate(w, s);
    if d.ok {
      ScopeFits(d.s, parent, isFunction);
      ScopeAdded(d.s, Scope(parent, [], 0, isFunction, []));
      ExtTrans(s, d.s, NewScope(w, s, parent, isFunction).s);
    }
  }

  lemma ScopeFits(s: State, parent: nat, isFunction: bool)
    requires Inv(s) && 0 < parent <= |s.scopes|
    ensures ScopeOk(Scope(parent, [], 0, isFunction, []), |s.scopes|, |s.tables|, |s.closures|)
  {
    hide TablesOk, ClosuresOk, CountsOk;
  }

  lemma ScopeAdded(s: State, scope: Scope)
    requires Inv(s) && ScopeOk(scope, |s.scopes|, |s.tables|, |s.closures|) && scope.bindings == []
    ensures Fine(s, s.(scopes := s.scopes + [scope]))
  {
    hide TablesOk, RowsOk, BlockFit;
    Appended(s.scopes, scope, [], Table([], 0));
  }

  lemma ScopeReplaced(s: State, i: nat, scope: Scope, count: nat)
    requires Inv(s) && i < |s.scopes|
    requires ScopeOk(scope, i, |s.tables|, |s.closures|) && ScopeKept(s.scopes[i], scope)
    requires count == s.bindingCount - |s.scopes[i].bindings| + |scope.bindings| && count <= BINDING_LIMIT
    ensures Fine(s, s.(scopes := s.scopes[i := scope], bindingCount := count))
  {
    BindingsUpdated(s.scopes, i, scope);
  }

  lemma RebindFine(s: State, env: nat, name: string, v: Value)
    requires Inv(s) && 0 < env <= |s.scopes| && Live(v, |s.tables|, |s.closures|)
    ensures Fine(s, WithScope(s, env, Rebind(ScopeAt(s.scopes, env), name, v)))
  {
    var scope := Rebind(s.scopes[env - 1], name, v);
    assert ScopeOk(s.scopes[env - 1], env - 1, |s.tables|, |s.closures|);
    ScopeReplaced(s, env - 1, scope, s.bindingCount);
  }

  lemma CapacityFine(s: State, env: nat, next: nat)
    requires Inv(s) && 0 < env <= |s.scopes|
    ensures Fine(s, WithScope(s, env, s.scopes[env - 1].(capacity := next)))
  {
    assert ScopeOk(s.scopes[env - 1], env - 1, |s.tables|, |s.closures|);
    ScopeReplaced(s, env - 1, s.scopes[env - 1].(capacity := next), s.bindingCount);
  }

  lemma FailKeeps(s: State, f: Fault)
    ensures Fail(s, f) == s.(fault := Fail(s, f).fault)
  {
  }

  lemma ReserveFine(w: World, s: State, env: nat)
    requires Inv(s) && 0 < env <= |s.scopes|
    ensures Fine(s, ReserveBinding(w, s, env).s)
    ensures var r := ReserveBinding(w, s, env);
      r.s.bindingCount == s.bindingCount && |r.s.tables| == |s.tables| && |r.s.closures| == |s.closures|
      && |r.s.scopes| == |s.scopes| && r.s.scopes[env - 1].bindings == s.scopes[env - 1].bindings
  {
    hide Ext, Inv, Allocate, Fail;
    ExtSelf(s);
    var scope := s.scopes[env - 1];
    if |scope.bindings| >= scope.capacity {
      var next := if scope.capacity > 0 then scope.capacity * 2 else 8;
      if next > BINDING_LIMIT || s.bindingCount > BINDING_LIMIT {
        FailFine(s, TooManyBindings);
        FailKeeps(s, TooManyBindings);
      } else {
        AllocateFine(w, s);
        AllocateKeeps(w, s);
        if Allocate(w, s).ok {
          CapacityFine(Allocate(w, s).s, env, next);
          ExtTrans(s, Allocate(w, s).s, ReserveBinding(w, s, env).s);
        }
      }
    }
  }

  lemma AddFine(s: State, env: nat, name: string, v: Value)
    requires Inv(s) && 0 < env <= |s.scopes| && Live(v, |s.tables|, |s.closures|)
    requires !Binds(s.scopes[env - 1], name) && s.bindingCount < BINDING_LIMIT
    ensures Fine(s, AddBinding(s, env, name, v))
    ensures Binds(AddBinding(s, env, name, v).scopes[env - 1], name)
  {
    var scope := s.scopes[env - 1];
    var scope' := scope.(bindings := scope.bindings + [Binding(name, v)]);
    assert ScopeOk(scope, env - 1, |s.tables|, |s.closures|);
    ScopeReplaced(s, env - 1, scope', s.bindingCount + 1);
    assert scope'.bindings[|scope.bindings|].name == name;
  }

  lemma RebindBinds(scope: Scope, name: string, v: Value)
    requires Binds(scope, name)
    ensures Binds(Rebind(scope, name, v), name)
  {
    var i := IndexOf(scope.bindings, name);
    assert Rebind(scope, name, v).bindings[i].name == name;
  }

  lemma DefineFine(w: World, s: State, env: nat, name: string, v: Value)
    requires Inv(s) && 0 < env <= |s.scopes| && Live(v, |s.tables|, |s.closures|)
    ensures Fine(s, Define(w, s, env, name, v).s)
    ensures Define(w, s, env, name, v).ok ==> Binds(Define(w, s, env, name, v).s.scopes[env - 1], name)
  {
    hide Inv, Ext, ReserveBinding, AddBinding;
    var a := Allocate(w, s);
    AllocateFine(w, s);
    AllocateKeeps(w, s);
    if a.ok {
      if Binds(ScopeAt(a.s.scopes, env), name) {
        RebindFine(a.s, env, name, v);
        RebindBinds(ScopeAt(a.s.scopes, env), name, v);
        ExtTrans(s, a.s, Define(w, s, env, name, v).s);
      } else if a.s.bindingCount >= BINDING_LIMIT {
        FailFine(a.s, TooManyBindings);
        ExtTrans(s, a.s, Define(w, s, env, name, v).s);
      } else {
        ReserveFine(w, a.s, env);
        var r := ReserveBinding(w, a.s, env);
        ExtTrans(s, a.s, r.s);
        if r.ok {
          AddFine(r.s, env, name, v);
          ExtTrans(s, r.s, AddBinding(r.s, env, name, v));
        }
      }
    }
  }

  lemma AllocateKeeps(w: World, s: State)
    ensures var a := Allocate(w, s); a.s.scopes == s.scopes && a.s.tables == s.tables && a.s.closures == s.closures
    ensures var a := Allocate(w, s); a.s.bindingCount == s.bindingCount && a.s.entryCount == s.entryCount
  {
  }

  lemma AssignFine(w: World, s: State, env: nat, name: string, v: Value)
    requires Inv(s) && Live(v, |s.tables|, |s.closures|)
    ensures Fine(s, Heap.Assign(w, s, env, name, v).s)
  {
    hide Ext, Define;
    if FindScope(s.scopes, env, name) > 0 {
      RebindFine(s, FindScope(s.scopes, env, name), name, v);
    } else {
      DefineFine(w, s, GLOBAL, name, v);
    }
  }

  lemma NewTableFine(w: World, s: State)
    requires Inv(s)
    ensures Fine(s, NewTable(w, s).s)
    ensures NewTable(w, s).ok ==> |NewTable(w, s).s.tables| == |s.tables| + 1
  {
    hide Inv, Ext;
    AllocateFine(w, s);
    var d := Allocate(w, s);
    if d.ok {
      TableAdded(d.s);
      ExtTrans(s, d.s, NewTable(w, s).s);
    }
  }

  lemma TableAdded(s: State)
    requires Inv(s)
    ensures Fine(s, s.(tables := s.tables + [Table([], 0)]))
  {
    hide BlockFit;
    var s' := s.(tables := s.tables + [Table([], 0)]);
    Appended([], NO_SCOPE, s.tables, Table([], 0));
    forall i | 0 <= i < |s.scopes| ensures ScopeOk(s.scopes[i], i, |s'.tables|, |s'.closures|) {
      assert ScopeOk(s.scopes[i], i, |s.tables|, |s.closures|);
    }
    forall t | 0 <= t < |s'.tables| ensures RowsOk(s'.tables[t].rows, |s'.tables|, |s'.closures|) {
      assert t < |s.tables| ==> RowsOk(s.tables[t].rows, |s.tables|, |s.closures|);
    }
  }

  lemma TableReplaced(s: State, t: nat, table: Table, count: nat)
    requires Inv(s) && t < |s.tables| && RowsOk(table.rows, |s.tables|, |s.closures|)
    requires count == s.entryCount - |s.tables[t].rows| + |table.rows| && count <= ENTRY_LIMIT
    ensures Fine(s, s.(tables := s.tables[t := table], entryCount := count))
  {
    RowsUpdated(s.tables, t, table);
  }

  lemma DropFine(s: State, t: nat, i: nat)
    requires Inv(s) && t < |s.tables| && i < |s.tables[t].rows|
    ensures Fine(s, TableDrop(s, t, i))
  {
    var rows := s.tables[t].rows;
    assert RowsOk(rows, |s.tables|, |s.closures|);
    RowsOfTotal(s.tables, t);
    TableReplaced(s, t, s.tables[t].(rows := Without(rows, i)), s.entryCount - 1);
  }

  lemma ReserveRowFine(w: World, s: State, t: nat)
    requires Inv(s) && t < |s.tables|
    ensures Fine(s, ReserveRow(w, s, t).s)
    ensures var r := ReserveRow(w, s, t);
      r.s.entryCount == s.entryCount && |r.s.tables| == |s.tables| && |r.s.closures| == |s.closures|
      && r.s.tables[t].rows == s.tables[t].rows
  {
    hide Ext, Inv, Allocate, Fail;
    ExtSelf(s);
    var table := s.tables[t];
    if |table.rows| >= table.capacity {
      var next := if table.capacity > 0 then table.capacity * 2 else 8;
      if next > ENTRY_LIMIT {
        FailFine(s, TooManyEntries);
        FailKeeps(s, TooManyEntries);
      } else {
        AllocateFine(w, s);
        AllocateKeeps(w, s);
        if Allocate(w, s).ok {
          RowCapacityFine(Allocate(w, s).s, t, next);
          ExtTrans(s, Allocate(w, s).s, ReserveRow(w, s, t).s);
        }
      }
    }
  }

  lemma RowCapacityFine(s: State, t: nat, next: nat)
    requires Inv(s) && t < |s.tables|
    ensures Fine(s, WithTable(s, t, s.tables[t].(capacity := next)))
  {
    assert RowsOk(s.tables[t].rows, |s.tables|, |s.closures|);
    TableReplaced(s, t, s.tables[t].(capacity := next), s.entryCount);
  }

  lemma AddRowFine(s: State, t: nat, k: Value, v: Value)
    requires Inv(s) && t < |s.tables| && !HasKey(s.tables[t].rows, k) && RowOk(Row(k, v), |s.tables|, |s.closures|)
    requires s.entryCount < ENTRY_LIMIT
    ensures Fine(s, AddRow(s, t, Row(k, v)))
  {
    var rows := s.tables[t].rows;
    assert RowsOk(rows, |s.tables|, |s.closures|);
    TableReplaced(s, t, s.tables[t].(rows := rows + [Row(k, v)]), s.entryCount + 1);
  }

  lemma TableSetFine(w: World, s: State, t: nat, k: Value, v: Value)
    requires Inv(s) && t < |s.tables| && Live(v, |s.tables|, |s.closures|)
    ensures Fine(s, TableSet(w, s, t, k, v).s)
  {
    hide Ext, ReserveRow, AddRow, TableDrop;
    if KeyFault(k).Some? {
      FailFine(s, KeyFault(k).value);
    } else {
      var table := s.tables[t];
      var i := RowOf(table.rows, k);
      if i < |table.rows| {
        if v == NilV {
          DropFine(s, t, i);
        } else {
          assert RowsOk(table.rows, |s.tables|, |s.closures|);
          assert RowOk(table.rows[i], |s.tables|, |s.closures|);
          TableReplaced(s, t, table.(rows := table.rows[i := Row(table.rows[i].key, v)]), s.entryCount);
        }
      } else if v == NilV {
        ExtSelf(s);
      } else if s.entryCount >= ENTRY_LIMIT {
        FailFine(s, TooManyEntries);
      } else {
        ReserveRowFine(w, s, t);
        var r := ReserveRow(w, s, t);
        if r.ok {
          AddRowFine(r.s, t, k, v);
          ExtTrans(s, r.s, AddRow(r.s, t, Row(k, v)));
        }
      }
    }
  }

  lemma TableRemoveFine(s: State, t: nat, k: Value)
    requires Inv(s) && t < |s.tables|
    ensures Fine(s, TableRemove(s, t, k).s)
  {
    hide Ext, TableDrop;
    if KeyFault(k).Some? {
      FailFine(s, KeyFault(k).value);
    } else {
      var i := RowOf(s.tables[t].rows, k);
      if i < |s.tables[t].rows| {
        DropFine(s, t, i);
      } else {
        ExtSelf(s);
      }
    }
  }

  // ---- reading -----------------------------------------------------------------------------

  lemma LookupLive(s: State, env: nat, name: string)
    requires Inv(s)
    ensures Live(Lookup(s, env, name), |s.tables|, |s.closures|)
  {
    hide CountsOk, ClosuresOk, TablesOk;
    var id := FindScope(s.scopes, env, name);
    if id > 0 {
      assert ScopeOk(s.scopes[id - 1], id - 1, |s.tables|, |s.closures|);
    }
  }

  lemma RowLive(s: State, t: nat, k: Value)
    requires Inv(s)
    ensures Live(RowValue(RowsAt(s, t), k), |s.tables|, |s.closures|)
  {
    if t < |s.tables| {
      assert RowsOk(s.tables[t].rows, |s.tables|, |s.closures|);
      var i := RowOf(s.tables[t].rows, k);
      assert i < |s.tables[t].rows| ==> RowOk(s.tables[t].rows[i], |s.tables|, |s.closures|);
    }
  }

  /** Every chain of scopes ends at the globals, so there always is an innermost call. */
  lemma CallScopeExists(scopes: seq<Scope>, id: nat, tables: nat, closures: nat)
    requires ScopesOk(scopes, tables, closures) && 0 < id <= |scopes|
    ensures CallScope(scopes, id) > 0
    decreases id
  {
    assert ScopeOk(scopes[id - 1], id - 1, tables, closures);
    if !scopes[id - 1].isFunction {
      CallScopeExists(scopes, scopes[id - 1].parent, tables, closures);
    }
  }
}
