/** The heap of a running Book: scopes, tables and closures, and the counters that bound them. */
module Heap {
  import opened Syntax
  import opened Values

  datatype Binding = Binding(name: string, value: Value)

  /** A lexical scope. Scope ids count from 1; parent 0 is "none". */
  datatype Scope = Scope(parent: nat, bindings: seq<Binding>, capacity: nat, isFunction: bool, extras: seq<Value>)

  datatype Row = Row(key: Value, value: Value)

  datatype Table = Table(rows: seq<Row>, capacity: nat)

  /** A function value: its code and the scope it was created in. */
  datatype Closure = Closure(params: seq<string>, variadic: bool, code: seq<Stmt>, scope: nat)

  datatype State = State(
    scopes: seq<Scope>,
    tables: seq<Table>,
    closures: seq<Closure>,
    instructions: nat,
    callDepth: nat,
    moduleDepth: nat,
    bindingCount: nat,
    entryCount: nat,
    allocations: nat,
    log: seq<Event>,
    declared: bool,
    fault: Faults)

  const GLOBAL: nat := 1

  /** What a native asks of the runtime next. */
  datatype Action =
    | Answer(values: seq<Value>)
    | GiveUp
    | Invoke(callee: Value, args: seq<Value>)
    | MakeTable
    | Store(table: Value, key: Value, value: Value)
    | Fetch(table: Value, key: Value)
    | Discard(table: Value, key: Value)
    | DeclareBook(declaration: Value)
    | RunModule(index: nat, privates: Option<Value>)

  /** What came of an action: its values, or failure. */
  datatype Reply = Replied(values: seq<Value>) | Failed

  /** What the rest of the program sees of a run: a native is asked what to do next, with its arguments
      and the replies it has had so far in this call, or the deadline is seen to have passed. */
  datatype Event = Request(native: nat, args: seq<Value>, replies: seq<Reply>) | Deadline

  /** Everything a run depends on that is not in the heap: which allocations succeed, when the
      deadline has passed, how numerals are read and shown, what a cast
      that overflows gives, and what each native does: all events of the run so far, the last one
      being the request to answer, decide what it asks for next. */
  datatype World = World(
    grants: nat -> bool,
    expired: nat -> bool,
    numeral: string -> Option<real>,
    show: real -> string,
    overflow: Word,
    act: seq<Event> -> Action,
    patience: nat,
    modules: seq<seq<Stmt>>,
    bookName: string)

  /** The outcome of an operation that yields nothing. */
  datatype Done = Done(ok: bool, s: State)

  /** Neither the step counter nor the depths have moved, and no native has been asked. */
  predicate SameClock(s: State, s': State) {
    && s'.instructions == s.instructions && s'.callDepth == s.callDepth && s'.moduleDepth == s.moduleDepth
    && s'.log == s.log
  }

  // ---- faults, time and memory -------------------------------------------------------------

  function WithFault(fs: Faults, f: Fault): Faults {
    Faults(if fs.first.None? then Some(f) else fs.first, fs.illFormed || IllFormed(f))
  }

  /** Only the first fault of a run is reported. */
  function Fail(s: State, f: Fault): (r: State)
    ensures SameClock(s, r) && r.fault.first.Some?
  {
    s.(fault := WithFault(s.fault, f))
  }

  function Refuse(s: State, why: Option<Fault>): (r: State)
    ensures SameClock(s, r)
  {
    if why.None? then s else Fail(s, why.value)
  }

  /** One step of execution: the deadline is looked at every 256 steps. */
  function Tick(w: World, s: State): Done {
    if s.instructions % 256 == 0 && w.expired(s.instructions) then
      Done(false, Fail(s.(log := s.log + [Deadline]), DeadlinePassed))
    else if s.instructions >= INSTRUCTION_LIMIT then Done(false, Fail(s, OutOfInstructions))
    else Done(true, s.(instructions := s.instructions + 1))
  }

  function Allocate(w: World, s: State): (d: Done)
    ensures SameClock(s, d.s)
  {
    var s' := s.(allocations := s.allocations + 1);
    if w.grants(s.allocations) then Done(true, s') else Done(false, Fail(s', OutOfMemory))
  }

  // ---- scopes ------------------------------------------------------------------------------

  const NO_SCOPE := Scope(0, [], 0, false, [])

  function ScopeAt(scopes: seq<Scope>, id: nat): Scope {
    if 0 < id <= |scopes| then scopes[id - 1] else NO_SCOPE
  }

  function WithScope(s: State, id: nat, scope: Scope): (r: State)
    ensures SameClock(s, r)
  {
    if 0 < id <= |s.scopes| then s.(scopes := s.scopes[id - 1 := scope]) else s
  }

  /** A new scope, the last one of the result; nothing is added if memory runs out. */
  function NewScope(w: World, s: State, parent: nat, isFunction: bool): (d: Done)
    ensures SameClock(s, d.s)
  {
    var a := Allocate(w, s);
    if !a.ok then a
    else Done(true, a.s.(scopes := a.s.scopes + [Scope(parent, [], 0, isFunction, [])]))
  }

  /** The first binding of a name, or the number of bindings. */
  function IndexOf(bs: seq<Binding>, name: string): (i: nat)
    ensures i <= |bs|
    ensures i < |bs| ==> bs[i].name == name
    ensures forall j :: 0 <= j < i ==> bs[j].name != name
  {
    if bs == [] || bs[0].name == name then 0 else 1 + IndexOf(bs[1..], name)
  }

  predicate Binds(scope: Scope, name: string) { IndexOf(scope.bindings, name) < |scope.bindings| }

  /** The innermost scope from `id` outwards that binds the name; 0 if there is none. */
  function FindScope(scopes: seq<Scope>, id: nat, name: string): (r: nat)
    ensures r <= |scopes|
    ensures r > 0 ==> Binds(scopes[r - 1], name)
  {
    if id == 0 || id > |scopes| then 0
    else if Binds(scopes[id - 1], name) then id
    else if scopes[id - 1].parent < id then FindScope(scopes, scopes[id - 1].parent, name)
    else 0
  }

  function ValueIn(scope: Scope, name: string): Value {
    if Binds(scope, name) then scope.bindings[IndexOf(scope.bindings, name)].value else NilV
  }

  function Rebind(scope: Scope, name: string, value: Value): Scope {
    if Binds(scope, name) then
      var i := IndexOf(scope.bindings, name);
      scope.(bindings := scope.bindings[i := Binding(scope.bindings[i].name, value)])
    else scope
  }

  function Lookup(s: State, env: nat, name: string): Value { ValueIn(ScopeAt(s.scopes, FindScope(s.scopes, env, name)), name) }

  /** Room for one more binding; the room doubles when it runs out. */
  function ReserveBinding(w: World, s: State, env: nat): (d: Done)
    ensures SameClock(s, d.s)
  {
    var scope := ScopeAt(s.scopes, env);
    if |scope.bindings| < scope.capacity then Done(true, s)
    else
      var next := if scope.capacity > 0 then scope.capacity * 2 else 8;
      if next > BINDING_LIMIT || s.bindingCount > BINDING_LIMIT then Done(false, Fail(s, TooManyBindings))
      else
        var a := Allocate(w, s);
        if !a.ok then a else Done(true, WithScope(a.s, env, scope.(capacity := next)))
  }

  function AddBinding(s: State, env: nat, name: string, value: Value): (r: State)
    ensures SameClock(s, r)
  {
    var scope := ScopeAt(s.scopes, env);
    WithScope(s, env, scope.(bindings := scope.bindings + [Binding(name, value)])).(bindingCount := s.bindingCount + 1)
  }

  /** Declare a name in one scope; a name declared there before is overwritten. */
  function Define(w: World, s: State, env: nat, name: string, value: Value): (d: Done)
    ensures SameClock(s, d.s)
  {
    var a := Allocate(w, s);
    if !a.ok then a
    else if Binds(ScopeAt(a.s.scopes, env), name) then
      Done(true, WithScope(a.s, env, Rebind(ScopeAt(a.s.scopes, env), name, value)))
    else if a.s.bindingCount >= BINDING_LIMIT then Done(false, Fail(a.s, TooManyBindings))
    else
      var r := ReserveBinding(w, a.s, env);
      if !r.ok then r else Done(true, AddBinding(r.s, env, name, value))
  }

  /** Assign to the innermost binding of the name; a name without one becomes a global. */
  function Assign(w: World, s: State, env: nat, name: string, value: Value): (d: Done)
    ensures SameClock(s, d.s)
  {
    var id := FindScope(s.scopes, env, name);
    if id > 0 then Done(true, WithScope(s, id, Rebind(ScopeAt(s.scopes, id), name, value)))
    else Define(w, s, GLOBAL, name, value)
  }

  /** The scope of the innermost call from `id` outwards; 0 if there is none. */
  function CallScope(scopes: seq<Scope>, id: nat): (r: nat)
    ensures r <= |scopes|
    ensures r > 0 ==> scopes[r - 1].isFunction
  {
    if id == 0 || id > |scopes| then 0
    else if scopes[id - 1].isFunction then id
    else if scopes[id - 1].parent < id then CallScope(scopes, scopes[id - 1].parent)
    else 0
  }

  // ---- tables ------------------------------------------------------------------------------

  /** Keys are strings and integers. */
  function KeyFault(k: Value): Option<Fault> {
    match k
    case StrV(_) => None
    case NumV(r) => if AsInteger(r).Some? then None else Some(IntegerFault(r))
    case _ => Some(BadKey)
  }

  function RowsAt(s: State, t: nat): seq<Row> { if t < |s.tables| then s.tables[t].rows else [] }

  function WithTable(s: State, t: nat, table: Table): (r: State)
    ensures SameClock(s, r)
  {
    if t < |s.tables| then s.(tables := s.tables[t := table]) else s
  }

  function NewTable(w: World, s: State): (d: Done)
    ensures SameClock(s, d.s)
  {
    var a := Allocate(w, s);
    if !a.ok then a else Done(true, a.s.(tables := a.s.tables + [Table([], 0)]))
  }

  /** The first row with a key, or the number of rows. */
  function RowOf(rows: seq<Row>, k: Value): (i: nat)
    ensures i <= |rows|
    ensures i < |rows| ==> rows[i].key == k
    ensures forall j :: 0 <= j < i ==> rows[j].key != k
  {
    if rows == [] || rows[0].key == k then 0 else 1 + RowOf(rows[1..], k)
  }

  function RowValue(rows: seq<Row>, k: Value): Value {
    if RowOf(rows, k) < |rows| then rows[RowOf(rows, k)].value else NilV
  }

  function Without(rows: seq<Row>, i: nat): seq<Row>
    requires i < |rows|
  {
    rows[..i] + rows[i + 1..]
  }

  function ReserveRow(w: World, s: State, t: nat): (d: Done)
    requires t < |s.tables|
    ensures SameClock(s, d.s)
  {
    var table := s.tables[t];
    if |table.rows| < table.capacity then Done(true, s)
    else
      var next := if table.capacity > 0 then table.capacity * 2 else 8;
      if next > ENTRY_LIMIT then Done(false, Fail(s, TooManyEntries))
      else
        var a := Allocate(w, s);
        if !a.ok then a else Done(true, WithTable(a.s, t, table.(capacity := next)))
  }

  /** table[k] := v; nil removes the key. */
  function TableSet(w: World, s: State, t: nat, k: Value, v: Value): (d: Done)
    ensures SameClock(s, d.s)
  {
    if t >= |s.tables| then Done(false, s)
    else if KeyFault(k).Some? then Done(false, Fail(s, KeyFault(k).value))
    else
      var table := s.tables[t];
      var i := RowOf(table.rows, k);
      if i < |table.rows| then
        if v == NilV then Done(true, TableDrop(s, t, i))
        else Done(true, WithTable(s, t, table.(rows := table.rows[i := Row(table.rows[i].key, v)])))
      else if v == NilV then Done(true, s)
      else if s.entryCount >= ENTRY_LIMIT then Done(false, Fail(s, TooManyEntries))
      else
        var r := ReserveRow(w, s, t);
        if !r.ok || t >= |r.s.tables| then Done(false, r.s)
        else Done(true, AddRow(r.s, t, Row(k, v)))
  }

  function AddRow(s: State, t: nat, row: Row): (r: State)
    requires t < |s.tables|
    ensures SameClock(s, r)
  {
    WithTable(s, t, s.tables[t].(rows := s.tables[t].rows + [row])).(entryCount := s.entryCount + 1)
  }

  function TableDrop(s: State, t: nat, i: nat): (r: State)
    requires t < |s.tables| && i < |s.tables[t].rows|
    ensures SameClock(s, r)
  {
    WithTable(s, t, s.tables[t].(rows := Without(s.tables[t].rows, i)))
      .(entryCount := if s.entryCount > 0 then s.entryCount - 1 else 0)
  }

  /** Remove a key, as natives do. */
  function TableRemove(s: State, t: nat, k: Value): (d: Done)
    ensures SameClock(s, d.s)
  {
    if t >= |s.tables| then Done(false, s)
    else if KeyFault(k).Some? then Done(false, Fail(s, KeyFault(k).value))
    else
      var i := RowOf(s.tables[t].rows, k);
      Done(true, if i < |s.tables[t].rows| then TableDrop(s, t, i) else s)
  }

  /** How far the consecutive integer keys go on from n. */
  function BorderFrom(rows: seq<Row>, n: nat): (r: nat)
    ensures n <= r
    decreases |rows| - n
  {
    if n < |rows| && RowValue(rows, NumV((n + 1) as real)) != NilV then BorderFrom(rows, n + 1) else n
  }

  function Border(rows: seq<Row>): nat { BorderFrom(rows, 0) }

  // ---- consecutive keys --------------------------------------------------------------------

  function IntKey(i: int): Value { NumV(i as real) }

  predicate HasKey(rows: seq<Row>, k: Value) { RowOf(rows, k) < |rows| }

  ghost predicate Consecutive(rows: seq<Row>, n: nat) { forall i :: 1 <= i <= n ==> HasKey(rows, IntKey(i)) }

  /** The positions of the keys 1 to n. */
  ghost function Positions(rows: seq<Row>, n: nat): (p: set<nat>)
    requires Consecutive(rows, n)
    ensures forall x :: x in p <==> exists i :: 1 <= i <= n && x == RowOf(rows, IntKey(i))
    ensures |p| == n
  {
    if n == 0 then {}
    else
      assert forall i :: 1 <= i < n ==> IntKey(i) != IntKey(n);
      Positions(rows, n - 1) + {RowOf(rows, IntKey(n))}
  }

  lemma BelowSize(p: set<nat>, n: nat)
    requires forall x :: x in p ==> x < n
    ensures |p| <= n
  {
    if n > 0 {
      BelowSize(p - {n - 1}, n - 1);
    } else {
      assert p == {};
    }
  }

  /** A table has at least as many rows as consecutive keys from 1. */
  lemma ConsecutiveFits(rows: seq<Row>, n: nat)
    requires Consecutive(rows, n)
    ensures n <= |rows|
  {
    BelowSize(Positions(rows, n), |rows|);
  }
}
